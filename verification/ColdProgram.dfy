/** A program of the CPU that the safety net cuts short: memory full of NOPs, each in a cache block of its own. */
module ColdProgram {
  import opened Arith
  import opened Wrappers
  import opened InstStream
  import opened Generator
  import opened FrontEnd
  import opened Pipeline
  import opened MemoryHierarchy
  import opened PipelineSim
  import opened MemoryStalls
  import opened ColdCode
  import opened Oracle
  import Isa
  import B = AsmRoundTrip
  import C = WordCpu
  import CM = CacheModel
  import T = TimingClaims

  function Zeros(): (m: C.Memory)
    ensures forall i :: 0 <= i < C.MEM_SIZE ==> m[i] == 0
  {
    seq(C.MEM_SIZE, _ => 0)
  }

  /** The words that fit the memory. */
  const WORDS := C.MEM_SIZE / 4

  function AtWord(k: nat): C.Cpu
    requires k <= WORDS
  {
    C.Reset(Zeros(), true, []).(pc := 4 * k)
  }

  lemma FetchesNop(k: nat)
    requires k < WORDS
    ensures C.InBounds(AtWord(k).pc) && C.Fetch(AtWord(k)) == Isa.Fields(NOP, 0, 0, 0)
  {
    B.ZeroCanonical();
    assert C.Read(Zeros(), 4 * k) == 0 by {
      hide Isa.Decode;
    }
    hide Isa.Decode, C.Read;
  }

  lemma NopMoves(c: C.Cpu)
    requires c.pc + 4 < 0x1_0000_0000
    ensures C.Execute(Isa.Fields(NOP, 0, 0, 0), c.(pc := C.NextPc(c.pc))) == Some(c.(pc := c.pc + 4))
  {
  }

  lemma NopStep(k: nat)
    requires k < WORDS
    ensures C.Step(AtWord(k)) == Some(AtWord(k + 1))
    ensures var d := C.Record(AtWord(k), AtWord(k + 1)); d.pc == 4 * k && !d.accessesMem
  {
    FetchesNop(k);
    NopMoves(AtWord(k));
    hide C.Fetch, C.Execute, C.MemAddr;
  }

  lemma NopExec(k: nat)
    requires k < WORDS
    ensures var e := Exec(Some(AtWord(k)));
            e.next == Some(AtWord(k + 1)) && !e.halted && e.info.pc == 4 * k && !e.info.accessesMem
  {
    NopStep(k);
    hide C.Step, C.Record;
  }

  lemma {:induction false} NopsAfter(k: nat)
    requires k <= WORDS
    ensures CpuAfter(Exec, Some(AtWord(0)), k) == Some(AtWord(k))
  {
    hide Exec, AtWord;
    if k > 0 {
      NopsAfter(k - 1);
      NopExec(k - 1);
    }
  }

  /** The stream of the first n NOPs. */
  function Nops(n: nat): (S: seq<Inst>)
    requires 1 <= n
    ensures 1 <= |S| <= n
  {
    Stream(Exec, Some(AtWord(0)), n)
  }

  lemma NopAt(n: nat, k: nat)
    requires 1 <= n <= WORDS && k < |Nops(n)|
    ensures Nops(n)[k].pc == 4 * k && !Nops(n)[k].accessesMem && (k + 1 == |Nops(n)| <==> k + 1 == n)
  {
    StreamIsCpuRun(Exec, Some(AtWord(0)), n, k);
    hide Exec, AtWord, Stream;
    NopsAfter(k);
    NopExec(k);
  }

  /** Instruction k stands at address 4k and leaves the memory alone. */
  ghost predicate Straight(S: seq<Inst>) {
    forall k :: 0 <= k < |S| ==> S[k].pc == 4 * k && !S[k].accessesMem
  }

  lemma {:induction false} NopsStraightTo(n: nat, k: nat)
    requires 1 <= n <= WORDS && k <= |Nops(n)|
    ensures Straight(Nops(n)[..k])
  {
    hide Nops, WORDS;
    if k > 0 {
      NopsStraightTo(n, k - 1);
      NopAt(n, k - 1);
    }
  }

  lemma NopsAreStraight(n: nat)
    requires 1 <= n <= WORDS
    ensures |Nops(n)| == n && Straight(Nops(n))
  {
    hide *;
    NopAt(n, |Nops(n)| - 1);
    NopsStraightTo(n, n);
    assert Nops(n)[..n] == Nops(n);
  }

  lemma StraightDiffers(c: CM.Config, S: seq<Inst>)
    requires CM.ValidConfig(c) && c.blockBytes == 4 && Straight(S)
    ensures PcsDiffer(c, S)
  {
    hide CM.BlockOf;
    forall k | 0 <= k < |S| ensures CM.BlockOf(c, S[k].pc) == k {
      BlockOfMultiple(c, k, 1);
      assert S[k].pc == k * (1 * c.blockBytes);
    }
  }

  lemma StraightIsCold(c: Hierarchy, S: seq<Inst>)
    requires ValidHierarchy(c) && c.l2.enabled && c.icache.blockBytes == 4 && c.l2.blockBytes == 4 && Straight(S)
    ensures Cold(c, S)
  {
    StraightDiffers(c.icache, S);
    StraightDiffers(c.l2, S);
    hide PcsDiffer, CM.BlockOf;
  }

  lemma {:induction false} NoData(S: seq<Inst>, k: nat)
    requires k <= |S| && Straight(S)
    ensures DataAddrs(S, k) == []
  {
    if k > 0 {
      NoData(S, k - 1);
    }
  }

  lemma NopsOutrunNet(n: nat, p: nat, m: nat)
    requires p <= m && Times(16, p) + 66 <= n
    ensures SafetyNet(n, p) + 1 < n + Times(n, m)
  {
    hide Times;
    TimesShift(n, 16, p);
    TimesAdds(n, p, m - p);
  }

  lemma StraightCosts(c: PipeConfig, S: seq<Inst>)
    requires c.mem.icache.enabled && Straight(S) && PerInst(c.mem) <= c.mem.l2.missPenalty && Enough(c.mem) <= |S|
    ensures Net(c, |S|) + 1 < |S| + Times(Asked(c.mem, S, |S|, |S|), c.mem.l2.missPenalty)
  {
    hide Times, DataAddrs, SafetyNet, Straight, PerInst;
    NoData(S, |S|);
    NetOf(c, |S|);
    NopsOutrunNet(|S|, PerInst(c.mem), c.mem.l2.missPenalty);
  }

  /** Behind a second level whose misses cost what the net allows an instruction, enough NOPs in blocks of their own never all
      retire, under any predictor. */
  lemma NopsAreCutShort(c: PipeConfig, b: PredictorConfig, n: nat, k: nat)
    requires ValidHierarchy(c.mem) && c.mem.icache.enabled && c.mem.l2.enabled
    requires c.mem.icache.blockBytes == 4 && c.mem.l2.blockBytes == 4
    requires PerInst(c.mem) <= c.mem.l2.missPenalty && Enough(c.mem) <= n <= WORDS && 0 < n
    requires Exits(c, Nops(n), StreamPenalties(b, Nops(n)), k)
    ensures |Nops(n)| == n && Run(c, Nops(n), StreamPenalties(b, Nops(n)), k).pipe.retired < n
  {
    hide *;
    NopsAreStraight(n);
    StraightIsCold(c.mem, Nops(n));
    StraightCosts(c, Nops(n));
    T.PredictorPenaltiesSmall(b, Nops(n));
    ColdCodeIsCutShort(c, Nops(n), StreamPenalties(b, Nops(n)), k);
  }
}
