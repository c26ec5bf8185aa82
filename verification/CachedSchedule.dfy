/** The pipeline with caches in closed form. What an access costs is told from the addresses that came before it, without
    caches; and from these costs the width-1 scoreboard gives the cycle in which the loop ends. */
module CachedSchedule {
  import opened Arith
  import opened InstStream
  import opened Pipeline
  import opened MemoryHierarchy
  import opened PipelineSim
  import opened CostedPipeline
  import CM = CacheModel

  /** Whether an enabled first level misses an address after the earlier ones. */
  predicate Misses(l1: CM.Config, h: seq<nat>, addr: nat)
    requires CM.ValidConfig(l1)
  {
    l1.enabled && !CM.Hits(l1, CM.After(l1, h), addr)
  }

  /** What it costs then; the second level has been asked for `asked`. */
  function Answer(c: Hierarchy, l1: CM.Config, miss: bool, asked: seq<nat>, addr: nat): int
    requires ValidHierarchy(c)
  {
    if !miss then HIT
    else if !c.l2.enabled then l1.missPenalty
    else if CM.Hits(c.l2, CM.After(c.l2, asked), addr) then c.l2.hitLatency else c.l2.missPenalty
  }

  predicate FetchMisses(c: Hierarchy, S: seq<Inst>, i: nat)
    requires ValidHierarchy(c) && i < |S|
  {
    Misses(c.icache, FetchAddrs(S, i), S[i].pc)
  }

  predicate DataMisses(c: Hierarchy, S: seq<Inst>, i: nat)
    requires ValidHierarchy(c) && i < |S|
  {
    S[i].accessesMem && Misses(c.dcache, DataAddrs(S, i), S[i].memAddr)
  }

  /** What each instruction's fetch and data access cost, as they happened, and the addresses that missed, in the order in
      which the second level is asked for them. */
  datatype Ledger = Ledger(fetch: seq<int>, data: seq<int>, asked: seq<nat>)

  /** The data access of the instruction that moves into MEM. */
  function NoteData(c: PipeConfig, S: seq<Inst>, p: Pipe, g: Ledger): Ledger
    requires ValidHierarchy(c.mem) && InStream(p, |S|)
  {
    if p.memStall > 0 || p.ex < 0 then g
    else
      var a := S[p.ex].memAddr;
      Ledger(g.fetch, g.data + [Answer(c.mem, c.mem.dcache, DataMisses(c.mem, S, p.ex), g.asked, a)],
             if DataMisses(c.mem, S, p.ex) then g.asked + [a] else g.asked)
  }

  /** Then the fetch of the next instruction. */
  function NoteFetch(c: PipeConfig, S: seq<Inst>, p: Pipe, g: Ledger): Ledger
    requires ValidHierarchy(c.mem) && InStream(p, |S|)
  {
    if !TakesNext(c.forwarding, S, p) then g
    else
      var a := S[p.next].pc;
      Ledger(g.fetch + [Answer(c.mem, c.mem.icache, FetchMisses(c.mem, S, p.next), g.asked, a)], g.data,
             if FetchMisses(c.mem, S, p.next) then g.asked + [a] else g.asked)
  }

  function Notes(c: PipeConfig, S: seq<Inst>, pen: seq<nat>, k: nat): Ledger
    requires |pen| == |S| && ValidHierarchy(c.mem)
  {
    if k == 0 then Ledger([], [], [])
    else
      OrderedInStream(Run(c, S, pen, k - 1).pipe, |S|);
      var p := Run(c, S, pen, k - 1).pipe;
      NoteFetch(c, S, p, NoteData(c, S, p, Notes(c, S, pen, k - 1)))
  }

  /** The caches hold what program order and the ledger say. */
  ghost predicate Keeps(c: PipeConfig, S: seq<Inst>, m: Sim, g: Ledger)
    requires ValidHierarchy(c.mem)
  {
    && CachesTrack(c, S, m) && |g.fetch| == m.pipe.next && |g.data| == EnteredMem(m.pipe)
    && (c.mem.l2.enabled ==> m.caches.l2 == CM.After(c.mem.l2, g.asked))
  }

  lemma DataIsNoted(c: PipeConfig, S: seq<Inst>, m: Sim, g: Ledger)
    requires ValidSim(c, S, m) && InStream(m.pipe, |S|) && Keeps(c, S, m, g)
    ensures var d, g' := DataPhase(c, S, m.pipe, m.caches), NoteData(c, S, m.pipe, g);
            && (c.mem.l2.enabled ==> d.caches.l2 == CM.After(c.mem.l2, g'.asked))
            && g'.fetch == g.fetch && |g'.data| == (if m.pipe.memStall <= 0 then EnteredEx(m.pipe) else EnteredMem(m.pipe))
            && d.cost == (if m.pipe.memStall <= 0 && m.pipe.ex >= 0 then g'.data[m.pipe.ex] else HIT)
            && g.data <= g'.data
  {
    hide CM.Access, CM.After, CM.Hits, DataAddrs, FetchAddrs, ValidCaches;
    var p := m.pipe;
    if p.memStall <= 0 && p.ex >= 0 {
      AfterOneMore(c.mem.l2, g.asked, S[p.ex].memAddr);
    }
  }

  lemma FetchIsNoted(c: PipeConfig, S: seq<Inst>, m: Sim, d: Caches, g: Ledger)
    requires ValidSim(c, S, m) && InStream(m.pipe, |S|) && CachesTrack(c, S, m) && ValidCaches(c.mem, d) && d.ic == m.caches.ic
    requires |g.fetch| == m.pipe.next && (c.mem.l2.enabled ==> d.l2 == CM.After(c.mem.l2, g.asked))
    ensures var f, g' := FetchPhase(c, S, m.pipe, d), NoteFetch(c, S, m.pipe, g);
            && (c.mem.l2.enabled ==> f.caches.l2 == CM.After(c.mem.l2, g'.asked))
            && g'.data == g.data && |g'.fetch| == (if TakesNext(c.forwarding, S, m.pipe) then m.pipe.next + 1 else m.pipe.next)
            && f.cost == (if TakesNext(c.forwarding, S, m.pipe) then g'.fetch[m.pipe.next] else HIT)
            && g.fetch <= g'.fetch
  {
    hide CM.Access, CM.After, CM.Hits, DataAddrs, FetchAddrs, NeedsStall;
    var p := m.pipe;
    if TakesNext(c.forwarding, S, p) {
      AfterOneMore(c.mem.l2, g.asked, S[p.next].pc);
    }
  }

  lemma PhaseKeepsValid(c: PipeConfig, S: seq<Inst>, m: Sim)
    requires ValidSim(c, S, m)
    ensures InStream(m.pipe, |S|)
    ensures var d := DataPhase(c, S, m.pipe, m.caches).caches; ValidCaches(c.mem, d) && d.ic == m.caches.ic
  {
    OrderedInStream(m.pipe, |S|);
    DataPhaseMoves(c, S, m.pipe, m.caches);
  }

  lemma StepKeeps(c: PipeConfig, S: seq<Inst>, pen: seq<nat>, m: Sim, g: Ledger)
    requires |pen| == |S| && ValidSim(c, S, m) && Keeps(c, S, m, g)
    ensures InStream(m.pipe, |S|)
    ensures Keeps(c, S, Step(c, S, pen, m), NoteFetch(c, S, m.pipe, NoteData(c, S, m.pipe, g)))
  {
    PhaseKeepsValid(c, S, m);
    var p := m.pipe;
    var d := DataPhase(c, S, p, m.caches);
    var f := FetchPhase(c, S, p, d.caches);
    DataIsNoted(c, S, m, g);
    FetchIsNoted(c, S, m, d.caches, NoteData(c, S, p, g));
    StepTracksCaches(c, S, pen, m);
    CycleProgress(c.forwarding, S, pen, p, d.cost, f.cost);
    hide CachesTrack, NoteFetch, NoteData, Cycle, TakesNext, DataPhase, FetchPhase, ValidCaches, CM.After, Ordered, InStream;
  }

  /** After every cycle the second level has been asked for exactly the noted addresses, in their order: those of a cycle's
      data access before those of its fetch. */
  lemma {:induction false} SecondLevelOrder(c: PipeConfig, S: seq<Inst>, pen: seq<nat>, k: nat)
    requires |pen| == |S| && ValidHierarchy(c.mem)
    ensures Keeps(c, S, Run(c, S, pen, k), Notes(c, S, pen, k))
  {
    hide Step, NoteFetch, NoteData, CachesTrack, ValidSim, InStream, CM.After;
    if k == 0 {
      CachesAreTimingFree(c, S, pen, 0);
      assert CM.After(c.mem.l2, []) == CM.Init(c.mem.l2) by { NothingAsked(c.mem.l2); }
    } else {
      SecondLevelOrder(c, S, pen, k - 1);
      RunStep(c, S, pen, k);
      StepKeeps(c, S, pen, Run(c, S, pen, k - 1), Notes(c, S, pen, k - 1));
    }
  }

  lemma NothingAsked(c: CM.Config)
    requires CM.ValidConfig(c)
    ensures CM.After(c, []) == CM.Init(c)
  {
  }

  // ----- The run is one with these costs -----

  /** All costs noted by then, and any to come. */
  ghost predicate Extends(S: seq<Inst>, fc: seq<int>, dc: seq<int>, g: Ledger) { |S| == |fc| == |dc| && g.fetch <= fc && g.data <= dc }

  lemma StepIsTurn(c: PipeConfig, S: seq<Inst>, pen: seq<nat>, fc: seq<int>, dc: seq<int>, m: Sim, g: Ledger)
    requires |pen| == |S| && ValidSim(c, S, m) && Keeps(c, S, m, g) && InStream(m.pipe, |S|)
    requires Extends(S, fc, dc, NoteFetch(c, S, m.pipe, NoteData(c, S, m.pipe, g)))
    ensures Extends(S, fc, dc, g) && Step(c, S, pen, m).pipe == Turn(c.forwarding, S, pen, fc, dc, m.pipe)
  {
    PhaseKeepsValid(c, S, m);
    var p := m.pipe;
    DataIsNoted(c, S, m, g);
    FetchIsNoted(c, S, m, DataPhase(c, S, p, m.caches).caches, NoteData(c, S, p, g));
    hide Keeps, NoteFetch, NoteData, Cycle, TakesNext, DataPhase, FetchPhase, ValidCaches, CM.After;
  }

  lemma {:induction false} RunIsCostRun(c: PipeConfig, S: seq<Inst>, pen: seq<nat>, fc: seq<int>, dc: seq<int>, k: nat)
    requires |pen| == |S| && ValidHierarchy(c.mem) && Extends(S, fc, dc, Notes(c, S, pen, k))
    ensures Run(c, S, pen, k).pipe == CostRun(c.forwarding, S, pen, fc, dc, k)
  {
    hide Step, NoteFetch, NoteData, Keeps, ValidSim, InStream, Extends, Turn, ColdCaches;
    if k > 0 {
      SecondLevelOrder(c, S, pen, k - 1);
      RunStep(c, S, pen, k);
      StepIsTurn(c, S, pen, fc, dc, Run(c, S, pen, k - 1), Notes(c, S, pen, k - 1));
      RunIsCostRun(c, S, pen, fc, dc, k - 1);
    }
  }

  // ----- What the costs are -----

  /** cost is that of a hit, or what answers a miss: the first level's penalty, or one of the second level's two. */
  ghost predicate CostOf(c: Hierarchy, l1: CM.Config, miss: bool, cost: int) {
    if !miss then cost == HIT
    else if !c.l2.enabled then cost == l1.missPenalty else cost == c.l2.hitLatency || cost == c.l2.missPenalty
  }

  ghost predicate CostsOf(c: Hierarchy, S: seq<Inst>, fc: seq<int>, dc: seq<int>)
    requires ValidHierarchy(c)
  {
    && |fc| <= |S| && |dc| <= |S|
    && (forall i: nat :: i < |fc| ==> CostOf(c, c.icache, FetchMisses(c, S, i), fc[i]))
    && (forall i: nat :: i < |dc| ==> CostOf(c, c.dcache, DataMisses(c, S, i), dc[i]))
  }

  lemma NotesCost(c: PipeConfig, S: seq<Inst>, p: Pipe, g: Ledger)
    requires ValidHierarchy(c.mem) && Ordered(p, |S|) && InStream(p, |S|) && |g.fetch| == p.next && |g.data| == EnteredMem(p)
    requires CostsOf(c.mem, S, g.fetch, g.data)
    ensures var g' := NoteFetch(c, S, p, NoteData(c, S, p, g)); CostsOf(c.mem, S, g'.fetch, g'.data)
  {
    hide FetchMisses, DataMisses, NeedsStall, CM.Hits, CM.After;
    assert p.ex >= 0 ==> p.ex == EnteredMem(p);
  }

  /** A noted cost tells whether the first level missed, which program order decides, and is one of its answers. */
  lemma {:induction false} NotedCosts(c: PipeConfig, S: seq<Inst>, pen: seq<nat>, k: nat)
    requires |pen| == |S| && ValidHierarchy(c.mem)
    ensures CostsOf(c.mem, S, Notes(c, S, pen, k).fetch, Notes(c, S, pen, k).data)
  {
    hide Run, NoteFetch, NoteData, CostOf, FetchMisses, DataMisses, CachesTrack, Ordered, InStream;
    if k > 0 {
      NotedCosts(c, S, pen, k - 1);
      SecondLevelOrder(c, S, pen, k - 1);
      OrderedInStream(Run(c, S, pen, k - 1).pipe, |S|);
      NotesCost(c, S, Run(c, S, pen, k - 1).pipe, Notes(c, S, pen, k - 1));
    }
  }

  /** Without a second level program order says every cost. */
  function FetchCosts(c: Hierarchy, S: seq<Inst>): (r: seq<int>)
    requires ValidHierarchy(c)
    ensures |r| == |S|
  {
    seq(|S|, i requires 0 <= i < |S| => if FetchMisses(c, S, i) then c.icache.missPenalty else HIT)
  }

  function DataCosts(c: Hierarchy, S: seq<Inst>): (r: seq<int>)
    requires ValidHierarchy(c)
    ensures |r| == |S|
  {
    seq(|S|, i requires 0 <= i < |S| => if DataMisses(c, S, i) then c.dcache.missPenalty else HIT)
  }

  lemma CostsAlone(c: PipeConfig, S: seq<Inst>, pen: seq<nat>, k: nat)
    requires |pen| == |S| && ValidHierarchy(c.mem) && !c.mem.l2.enabled
    ensures Extends(S, FetchCosts(c.mem, S), DataCosts(c.mem, S), Notes(c, S, pen, k))
  {
    hide Notes, FetchMisses, DataMisses;
    NotedCosts(c, S, pen, k);
  }

  // ----- When the loop ends -----

  /** Without a second level: the pipeline has drained after k cycles exactly if the width-1 scoreboard, with the misses of
      program order as bubbles and waits, needs at most k. */
  lemma CachedPipelineIsScoreboard(c: PipeConfig, S: seq<Inst>, pen: seq<nat>, k: nat)
    requires |pen| == |S| && 0 < |S| && ValidHierarchy(c.mem) && !c.mem.l2.enabled
    ensures Done(Run(c, S, pen, k).pipe, |S|)
        <==> TotalCycles(c.forwarding, S, pen, FetchCosts(c.mem, S), DataCosts(c.mem, S)) <= k
  {
    hide Run, Done, TotalCycles, FetchCosts, DataCosts, CostRun, Notes;
    CostsAlone(c, S, pen, k);
    RunIsCostRun(c, S, pen, FetchCosts(c.mem, S), DataCosts(c.mem, S), k);
    CostRunIsScoreboard(c.forwarding, S, pen, FetchCosts(c.mem, S), DataCosts(c.mem, S), k);
  }

  /** Nothing noted changes later. */
  lemma {:induction false} NotesStay(c: PipeConfig, S: seq<Inst>, pen: seq<nat>, j: nat, k: nat)
    requires |pen| == |S| && ValidHierarchy(c.mem) && j <= k
    ensures Notes(c, S, pen, j).fetch <= Notes(c, S, pen, k).fetch && Notes(c, S, pen, j).data <= Notes(c, S, pen, k).data
    ensures Notes(c, S, pen, j).asked <= Notes(c, S, pen, k).asked
  {
    hide Run, Answer, FetchMisses, DataMisses, TakesNext;
    if j < k {
      NotesStay(c, S, pen, j, k - 1);
      OrderedInStream(Run(c, S, pen, k - 1).pipe, |S|);
    }
  }

  /** With any caches: a pipeline that has drained by cycle k first did so in the cycle that the costs noted by then say. */
  lemma DrainsInTotal(c: PipeConfig, S: seq<Inst>, pen: seq<nat>, j: nat, k: nat)
    requires |pen| == |S| && 0 < |S| && ValidHierarchy(c.mem) && Done(Run(c, S, pen, k).pipe, |S|) && j <= k
    ensures var g := Notes(c, S, pen, k);
            && Sizes(S, pen, g.fetch, g.data)
            && (Done(Run(c, S, pen, j).pipe, |S|) <==> TotalCycles(c.forwarding, S, pen, g.fetch, g.data) <= j)
  {
    hide Run, Done, TotalCycles, CostRun, Notes, CachesTrack;
    var g := Notes(c, S, pen, k);
    SecondLevelOrder(c, S, pen, k);
    AllEntered(Run(c, S, pen, k).pipe, |S|);
    NotesStay(c, S, pen, j, k);
    RunIsCostRun(c, S, pen, g.fetch, g.data, j);
    CostRunIsScoreboard(c.forwarding, S, pen, g.fetch, g.data, j);
  }

  lemma AllEntered(p: Pipe, n: nat)
    requires Ordered(p, n) && Done(p, n)
    ensures p.next == EnteredMem(p) == n
  {
  }

  /** So within the net the loop ends after exactly these cycles. */
  lemma ExitCycle(c: PipeConfig, S: seq<Inst>, pen: seq<nat>, k: nat)
    requires |pen| == |S| && 0 < |S| && ValidHierarchy(c.mem) && NetCovers(c.mem) && SmallPenalties(pen) && Exits(c, S, pen, k)
    ensures var g := Notes(c, S, pen, k);
            Sizes(S, pen, g.fetch, g.data) && k == TotalCycles(c.forwarding, S, pen, g.fetch, g.data)
  {
    hide Run, Done, TotalCycles, Notes, Exits;
    ExitsWhenDone(c, S, pen, k);
    DrainsInTotal(c, S, pen, k, k);
    if k > 0 {
      DrainsInTotal(c, S, pen, k - 1, k);
    } else {
      NotAtOnce(c, S, pen);
    }
  }

  lemma NotAtOnce(c: PipeConfig, S: seq<Inst>, pen: seq<nat>)
    requires |pen| == |S| && 0 < |S| && ValidHierarchy(c.mem)
    ensures !Done(Run(c, S, pen, 0).pipe, |S|)
  {
  }
}
