/** Calls on the real CPU: a chain of them through memory makes the bound on the safety net exact for programs too. */
module CallProgram {
  import opened Wrappers
  import opened InstStream
  import opened Generator
  import opened FrontEnd
  import opened Pipeline
  import opened MemoryHierarchy
  import opened PipelineSim
  import opened ColdCode
  import opened Oracle
  import opened ColdProgram
  import Isa
  import B = AsmRoundTrip
  import E = AsmEncoder
  import C = WordCpu
  import CM = CacheModel
  import W = Words

  // ----- The program -----

  /** A call of the word at index k. */
  function CallWord(k: nat): W.Word
    requires k <= WORDS
  {
    Isa.Encode(Isa.Fields(CALL, 0, 0, 4 * k))
  }

  /** The word call k stands at. */
  function Place(q: nat, k: nat): nat { q * k }

  lemma StepBelow(q: nat, i: nat, n: nat)
    requires 1 <= q && i < n && Place(q, n) <= WORDS
    ensures Place(q, i) + q == Place(q, i + 1) <= Place(q, n)
  {
  }

  /** n calls, q words apart, each of the next. */
  function Chain(q: nat, n: nat): C.Memory
    requires 1 <= q && Place(q, n) <= WORDS
  {
    if n == 0 then Zeros()
    else
      StepBelow(q, n - 1, n);
      E.Put(Chain(q, n - 1), 4 * Place(q, n - 1), CallWord(Place(q, n)))
  }

  /** The calls are all in memory. */
  ghost predicate Chained(m: C.Memory, q: nat, n: nat)
    requires 1 <= q && Place(q, n) <= WORDS
  {
    forall i: nat :: i < n ==> Links(m, q, n, i)
  }

  predicate Links(m: C.Memory, q: nat, n: nat, i: nat)
    requires 1 <= q && Place(q, n) <= WORDS && i < n
  {
    StepBelow(q, i, n);
    C.Read(m, 4 * Place(q, i)) == CallWord(Place(q, i + 1))
  }

  lemma WordPut(m: C.Memory, a: nat, w: W.Word, b: nat)
    requires a < WORDS && b < WORDS
    ensures C.Read(C.Write(m, 4 * a, w), 4 * b) == if a == b then w else C.Read(m, 4 * b)
  {
    hide B.WordAt, E.Put;
    B.PutWord(m, 4 * a, w, 4 * b);
  }

  lemma ChainMore(q: nat, n: nat)
    requires 1 <= q && Place(q, n) <= WORDS && 1 <= n
    ensures Place(q, n - 1) + q <= WORDS
    ensures Chain(q, n) == C.Write(Chain(q, n - 1), 4 * Place(q, n - 1), CallWord(Place(q, n)))
  {
    StepBelow(q, n - 1, n);
    hide CallWord, E.Put;
  }

  lemma {:induction false} ChainLinks(q: nat, n: nat, i: nat)
    requires 1 <= q && Place(q, n) <= WORDS && i < n
    ensures Links(Chain(q, n), q, n, i)
  {
    hide C.Write, C.Read, CallWord, Place, WORDS, Chain;
    StepBelow(q, i, n);
    StepBelow(q, n - 1, n);
    ChainMore(q, n);
    WordPut(Chain(q, n - 1), Place(q, n - 1), CallWord(Place(q, n)), Place(q, i));
    if i < n - 1 {
      ChainLinks(q, n - 1, i);
      StepBelow(q, i, n - 1);
    }
  }

  // ----- Its run -----

  /** The CPU about to execute call k: the calls are in memory, and k return addresses above them. */
  ghost predicate At(c: C.Cpu, q: nat, n: nat, k: nat)
    requires 1 <= q && Place(q, n) <= WORDS
  {
    !c.halted && c.pc == 4 * Place(q, k) && c.sp == C.MEM_SIZE - 4 * k && Chained(c.mem, q, n)
  }

  lemma FetchesCall(c: C.Cpu, q: nat, n: nat, k: nat)
    requires 1 <= q && Place(q, n) <= WORDS && k < n && At(c, q, n, k)
    ensures C.InBounds(c.pc) && C.Fetch(c) == Isa.Fields(CALL, 0, 0, 4 * Place(q, k + 1))
  {
    StepBelow(q, k, n);
    assert Links(c.mem, q, n, k);
    hide Isa.Decode, Isa.Encode, C.Read, Place;
    Isa.DecodeOfEncode(Isa.Fields(CALL, 0, 0, 4 * Place(q, k + 1)));
  }

  /** A push at the top leaves the chain alone. */
  lemma PushKeepsChain(m: C.Memory, q: nat, n: nat, top: nat, w: W.Word)
    requires 1 <= q && Place(q, n) <= top < WORDS && Chained(m, q, n)
    ensures Chained(C.Write(m, 4 * top, w), q, n)
  {
    hide C.Write, C.Read, CallWord, Place;
    forall i: nat | i < n ensures Links(C.Write(m, 4 * top, w), q, n, i) {
      StepBelow(q, i, n);
      assert Links(m, q, n, i);
      WordPut(m, top, w, Place(q, i));
    }
  }

  /** What a call at pc does when it fits. */
  lemma Calls(c: C.Cpu, to: nat)
    requires !c.halted && c.pc + 4 < 0x1_0000_0000 && 4 <= c.sp <= C.MEM_SIZE && to < 0x1_0000_0000
    ensures var r := C.Execute(Isa.Fields(CALL, 0, 0, to), c.(pc := C.NextPc(c.pc)));
            r == Some(c.(pc := to, sp := c.sp - 4, mem := C.Write(c.mem, c.sp - 4, c.pc + 4)))
    ensures C.MemAddr(Isa.Fields(CALL, 0, 0, to), c) == c.sp - 4
  {
    hide C.Write;
  }

  lemma CallNoted(c: C.Cpu, d: C.Cpu, to: nat)
    requires C.InBounds(c.pc) && C.Fetch(c) == Isa.Fields(CALL, 0, 0, to) && c.pc + 4 < to < 0x1_0000_0000 && d.pc == to
    ensures var r := C.Record(c, d);
            r.pc == c.pc && r.memAddr == C.MemAddr(C.Fetch(c), c) && r.accessesMem && r.isControl && r.takenControl
  {
    hide C.Fetch, C.MemAddr;
  }

  lemma CallMoves(c: C.Cpu, to: nat)
    requires C.InBounds(c.pc) && C.Fetch(c) == Isa.Fields(CALL, 0, 0, to) && !c.halted && 4 <= c.sp <= C.MEM_SIZE && to < 0x1_0000_0000
    ensures C.Step(c) == Some(c.(pc := to, sp := c.sp - 4, mem := C.Write(c.mem, c.sp - 4, c.pc + 4)))
    ensures C.MemAddr(C.Fetch(c), c) == c.sp - 4
  {
    hide C.Fetch, C.Execute, C.Write, C.MemAddr, C.NextPc;
    Calls(c, to);
  }

  lemma CallStep(c: C.Cpu, q: nat, n: nat, k: nat)
    requires 2 <= q && Place(q, n) + n <= WORDS && k < n && At(c, q, n, k)
    ensures C.Step(c).Some? && At(C.Step(c).value, q, n, k + 1)
    ensures IsCall(C.Record(c, C.Step(c).value), q, k)
  {
    hide C.Fetch, C.MemAddr, C.Write, Chained, Place, C.Record, C.Step;
    FetchesCall(c, q, n, k);
    StepBelow(q, k, n);
    CallMoves(c, 4 * Place(q, k + 1));
    PushKeepsChain(c.mem, q, n, WORDS - (k + 1), c.pc + 4);
    CallNoted(c, C.Step(c).value, 4 * Place(q, k + 1));
  }

  /** What the generator notes of call k. */
  predicate IsCall(d: Inst, q: nat, k: nat) {
    d.pc == 4 * Place(q, k) && d.memAddr == C.MEM_SIZE - 4 * (k + 1) && d.accessesMem && d.isControl && d.takenControl
  }

  function Start(q: nat, n: nat): C.Cpu
    requires 1 <= q && Place(q, n) <= WORDS
  {
    C.Reset(Chain(q, n), true, [])
  }

  lemma StartsAt(q: nat, n: nat)
    requires 1 <= q && Place(q, n) <= WORDS
    ensures At(Start(q, n), q, n, 0)
  {
    forall i: nat | i < n ensures Links(Chain(q, n), q, n, i) {
      ChainLinks(q, n, i);
    }
  }

  lemma CallExec(c: C.Cpu, q: nat, n: nat, k: nat) returns (d: C.Cpu)
    requires 2 <= q && Place(q, n) + n <= WORDS && k < n && At(c, q, n, k)
    ensures var e := Exec(Some(c)); e.next == Some(d) && !e.halted && IsCall(e.info, q, k) && At(d, q, n, k + 1)
  {
    CallStep(c, q, n, k);
    d := C.Step(c).value;
    hide C.Step, C.Record, Chained, IsCall, Place;
  }

  lemma {:induction false} CallsAfter(q: nat, n: nat, k: nat) returns (c: C.Cpu)
    requires 2 <= q && Place(q, n) + n <= WORDS && k <= n
    ensures CpuAfter(Exec, Some(Start(q, n)), k) == Some(c) && At(c, q, n, k)
  {
    hide Exec, Start, At, Place;
    if k == 0 {
      StartsAt(q, n);
      c := Start(q, n);
    } else {
      var b := CallsAfter(q, n, k - 1);
      c := CallExec(b, q, n, k - 1);
    }
  }

  /** The stream of the n calls. */
  function CallStream(q: nat, n: nat): (S: seq<Inst>)
    requires 1 <= q && Place(q, n) <= WORDS && 1 <= n
    ensures 1 <= |S| <= n
  {
    Stream(Exec, Some(Start(q, n)), n)
  }

  lemma CallAt(q: nat, n: nat, k: nat)
    requires 2 <= q && Place(q, n) + n <= WORDS && 1 <= n && k < |CallStream(q, n)|
    ensures IsCall(CallStream(q, n)[k], q, k) && (k + 1 == |CallStream(q, n)| <==> k + 1 == n)
  {
    StreamIsCpuRun(Exec, Some(Start(q, n)), n, k);
    hide Exec, Start, Stream, IsCall, At, Place;
    var c := CallsAfter(q, n, k);
    var d := CallExec(c, q, n, k);
  }

  /** A stream of calls, q words apart, that push downwards from the end of memory. */
  ghost predicate Falling(S: seq<Inst>, q: nat) { forall k :: 0 <= k < |S| ==> IsCall(S[k], q, k) }

  lemma {:induction false} FallsTo(q: nat, n: nat, k: nat)
    requires 2 <= q && Place(q, n) + n <= WORDS && 1 <= n && k <= |CallStream(q, n)|
    ensures Falling(CallStream(q, n)[..k], q)
  {
    hide CallStream, WORDS, IsCall, Place;
    if k > 0 {
      FallsTo(q, n, k - 1);
      CallAt(q, n, k - 1);
    }
  }

  lemma StreamFalls(q: nat, n: nat)
    requires 2 <= q && Place(q, n) + n <= WORDS && 1 <= n
    ensures |CallStream(q, n)| == n && Falling(CallStream(q, n), q)
  {
    hide *;
    CallAt(q, n, |CallStream(q, n)| - 1);
    FallsTo(q, n, n);
    assert CallStream(q, n)[..n] == CallStream(q, n);
  }

  // ----- It touches no block twice -----

  /** Words of whole blocks are in different blocks. */
  lemma WordBlock(c: CM.Config, a: nat)
    requires CM.ValidConfig(c) && 4 % c.blockBytes == 0
    ensures CM.BlockOf(c, 4 * a) == a * (4 / c.blockBytes) && 1 <= 4 / c.blockBytes
  {
    var m := 4 / c.blockBytes;
    assert 4 == m * c.blockBytes;
    hide CM.BlockOf;
    BlockOfMultiple(c, a, m);
    assert a * (m * c.blockBytes) == 4 * a;
  }

  lemma PlaceBlock(c: CM.Config, q: nat, i: nat)
    requires CM.ValidConfig(c) && 1 <= q && 4 * q % c.blockBytes == 0
    ensures CM.BlockOf(c, 4 * Place(q, i)) == i * (4 * q / c.blockBytes) && 1 <= 4 * q / c.blockBytes
  {
    var m := 4 * q / c.blockBytes;
    assert 4 * q == m * c.blockBytes;
    hide CM.BlockOf;
    BlockOfMultiple(c, i, m);
    assert i * (4 * q) == 4 * (q * i);
  }

  lemma PcsFall(c: CM.Config, S: seq<Inst>, q: nat)
    requires CM.ValidConfig(c) && 1 <= q && 4 * q % c.blockBytes == 0 && Falling(S, q)
    ensures PcsDiffer(c, S)
  {
    var m := 4 * q / c.blockBytes;
    hide CM.BlockOf, Place;
    forall i, j | 0 <= i < j < |S| ensures CM.BlockOf(c, S[i].pc) != CM.BlockOf(c, S[j].pc) {
      PlaceBlock(c, q, i);
      PlaceBlock(c, q, j);
      ProductsDiffer(i, j, m);
    }
  }

  lemma DataFalls(c: CM.Config, S: seq<Inst>, q: nat)
    requires CM.ValidConfig(c) && 4 % c.blockBytes == 0 && Falling(S, q) && |S| <= WORDS
    ensures DataDiffer(c, S)
  {
    hide CM.BlockOf, Place;
    forall i, j | 0 <= i < j < |S| ensures CM.BlockOf(c, S[i].memAddr) != CM.BlockOf(c, S[j].memAddr) {
      WordBlock(c, WORDS - (i + 1));
      WordBlock(c, WORDS - (j + 1));
      ProductsDiffer(WORDS - (j + 1), WORDS - (i + 1), 4 / c.blockBytes);
    }
  }

  lemma StackApart(c: CM.Config, S: seq<Inst>, q: nat)
    requires CM.ValidConfig(c) && 4 % c.blockBytes == 0 && 1 <= q && Falling(S, q) && Place(q, |S|) + |S| <= WORDS
    ensures Apart(c, S)
  {
    hide CM.BlockOf, Place;
    forall i, j | 0 <= i < |S| && 0 <= j < |S| ensures CM.BlockOf(c, S[i].pc) != CM.BlockOf(c, S[j].memAddr) {
      StepBelow(q, i, |S|);
      WordBlock(c, Place(q, i));
      WordBlock(c, WORDS - (j + 1));
      ProductsDiffer(Place(q, i), WORDS - (j + 1), 4 / c.blockBytes);
    }
  }

  /** Calls q words apart find room beside their return addresses, enough of them to outrun the net; they come in whole I-cache
      blocks, and the return addresses fill the data blocks. */
  predicate FitsMemory(c: Hierarchy, q: nat)
    requires ValidHierarchy(c)
  {
    && 2 <= q && Place(q, Enough(c)) + Enough(c) <= WORDS
    && (c.icache.enabled ==> 4 * q % c.icache.blockBytes == 0 && 4 * q % c.l2.blockBytes == 0)
    && (c.dcache.enabled ==> 4 % c.dcache.blockBytes == 0 && 4 % c.l2.blockBytes == 0)
  }

  lemma FallingIsCold(c: Hierarchy, S: seq<Inst>, q: nat)
    requires ValidHierarchy(c) && c.l2.enabled && FitsMemory(c, q) && Falling(S, q) && |S| == Enough(c)
    ensures Cold(c, S) && AllCalls(S)
  {
    hide PcsDiffer, DataDiffer, Apart, Place, Enough;
    if c.icache.enabled {
      PcsFall(c.icache, S, q);
      PcsFall(c.l2, S, q);
    }
    if c.dcache.enabled {
      DataFalls(c.dcache, S, q);
      DataFalls(c.l2, S, q);
      StackApart(c.l2, S, q);
    }
  }

  // ----- The exact condition on the CPU -----

  /** Every program of the CPU retires in full, whatever the limit and the predictor. */
  ghost predicate ProgramsRetire(c: PipeConfig)
    requires ValidHierarchy(c.mem)
  {
    forall h: Host, limit: nat, b: PredictorConfig, k: nat :: 1 <= limit ==>
      var S := Stream(Exec, h, limit); Exits(c, S, StreamPenalties(b, S), k) ==> Done(Run(c, S, StreamPenalties(b, S), k).pipe, |S|)
  }

  lemma CoversPrograms(c: PipeConfig)
    requires ValidHierarchy(c.mem) && NetCovers(c.mem)
    ensures ProgramsRetire(c)
  {
    CoversRetires(c);
    hide Run, Exits, StreamPenalties, NetCovers, ValidHierarchy, Exec, Stream;
  }

  /** Enough calls do not all retire if the net does not cover the costs. */
  lemma CallChainIsCut(c: PipeConfig, q: nat) returns (k: nat)
    requires ValidHierarchy(c.mem) && c.mem.l2.enabled && c.mem.l2.hitLatency <= c.mem.l2.missPenalty && FitsMemory(c.mem, q)
    requires !NetCovers(c.mem)
    ensures 1 <= Enough(c.mem) && Place(q, Enough(c.mem)) <= WORDS
    ensures var S := CallStream(q, Enough(c.mem));
            |S| == Enough(c.mem) && Exits(c, S, StreamPenalties(NO_PREDICTOR, S), k)
            && Run(c, S, StreamPenalties(NO_PREDICTOR, S), k).pipe.retired < |S|
  {
    assert 1 <= Enough(c.mem);
    hide Enough, Place, CallStream, NetCovers, Cold, AllCalls, Falling, StreamPenalties, Run, Exits, ValidHierarchy;
    StreamFalls(q, Enough(c.mem));
    FallingIsCold(c.mem, CallStream(q, Enough(c.mem)), q);
    k := ColdCallsAreCut(c, CallStream(q, Enough(c.mem)));
  }

  /** On the CPU itself: where a chain of calls fits the memory, all its programs retire in full under all predictors exactly if
      the net covers the worst costs and three cycles an instruction. */
  lemma NetCoversProgramsIff(c: PipeConfig, q: nat)
    requires ValidHierarchy(c.mem) && c.mem.l2.enabled && c.mem.l2.hitLatency <= c.mem.l2.missPenalty && FitsMemory(c.mem, q)
    ensures NetCovers(c.mem) <==> ProgramsRetire(c)
  {
    if NetCovers(c.mem) {
      CoversPrograms(c);
    } else {
      var k := CallChainIsCut(c, q);
      NotRetired(c, q, Enough(c.mem), k);
    }
  }

  lemma NotRetired(c: PipeConfig, q: nat, n: nat, k: nat)
    requires ValidHierarchy(c.mem) && 1 <= q && Place(q, n) <= WORDS && 1 <= n
    requires var S := CallStream(q, n);
             Exits(c, S, StreamPenalties(NO_PREDICTOR, S), k) && Run(c, S, StreamPenalties(NO_PREDICTOR, S), k).pipe.retired < |S|
    ensures !ProgramsRetire(c)
  {
    hide Run, Exits, StreamPenalties, Exec, Stream, Start, Place;
  }
}
