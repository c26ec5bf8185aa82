/** What the timing models say about each other on whole programs, under any predictor. */
module TimingClaims {
  import opened Arith
  import opened InstStream
  import opened Generator
  import opened FrontEnd
  import opened Pipeline
  import opened MemoryHierarchy
  import opened PipelineSim
  import SB = Scoreboard
  import OO = OutOfOrder
  import CM = CacheModel

  /** Predictors only ever charge nothing or the flush penalty. */
  lemma PredictorPenaltiesSmall(b: PredictorConfig, S: seq<Inst>)
    ensures SmallPenalties(StreamPenalties(b, S))
  {
    var pen := StreamPenalties(b, S);
    forall i | 0 <= i < |pen| ensures pen[i] <= CONTROL_PENALTY {
      assert pen[i] in {0, CONTROL_PENALTY};
    }
  }

  lemma GoesOnBefore(c: PipeConfig, S: seq<Inst>, pen: seq<nat>, k: nat, n: nat)
    requires |pen| == |S| && 0 < |S| && ValidHierarchy(c.mem) && NetCovers(c.mem) && SmallPenalties(pen)
    requires k <= n && NotDoneBefore(c, S, pen, n)
    ensures GoesOnUntil(c, S, pen, k)
  {
    hide Run, OverNet, Done;
    if k > 0 {
      GoesOnBefore(c, S, pen, k - 1, n);
      assert NotDoneBefore(c, S, pen, k - 1);
      NetNeverFires(c, S, pen, k - 1);
    }
  }

  /** With the caches off the cycle-by-cycle pipeline takes exactly the cycles of the width-1 issue model:
      for every program, limit, predictor and forwarding setting. */
  lemma ScalarPipelineIsWidthOne<C>(exec: C -> Executed<C>, c: C, limit: nat, cfg: PipeConfig, b: PredictorConfig, k: nat)
    requires 1 <= limit && ValidHierarchy(cfg.mem) && CachesOff(cfg)
    ensures var S := Stream(exec, c, limit); var pen := StreamPenalties(b, S);
            Exits(cfg, S, pen, k) <==> k == SB.Cycles(SB.Config(1, cfg.forwarding), S, pen)
  {
    var S := Stream(exec, c, limit);
    var pen := StreamPenalties(b, S);
    PredictorPenaltiesSmall(b, S);
    hide StreamPenalties, Run, GoesOn, SB.Cycles, Stream;
    var n := SB.Cycles(SB.Config(1, cfg.forwarding), S, pen);
    if Exits(cfg, S, pen, k) {
      StructuralEqualsScoreboard(cfg, S, pen, k);
    }
    if k == n {
      forall j | 0 <= j < n ensures !Done(Run(cfg, S, pen, j).pipe, |S|) {
        DoneWithScoreboard(cfg, S, pen, j);
      }
      GoesOnBefore(cfg, S, pen, n, n);
      DoneWithScoreboard(cfg, S, pen, n);
      FinishedStops(cfg, S, pen, n);
    }
  }

  lemma FinishedStops(c: PipeConfig, S: seq<Inst>, pen: seq<nat>, k: nat)
    requires |pen| == |S| && ValidHierarchy(c.mem) && Done(Run(c, S, pen, k).pipe, |S|)
    ensures !GoesOn(c, S, pen, k)
  {
  }

  // ----- When the safety net does fire -----

  /** Waiting for the first instruction, k cycles into a second-level miss of `cost`. */
  function Waiting(k: nat, cost: int): Pipe {
    Pipe(EMPTY, EMPTY, EMPTY, EMPTY, EMPTY, 1, 0, 0, 0, cost - k, 0, k, Stalls(0, 0, k))
  }

  lemma ColdMiss(c: CM.Config, addr: nat)
    requires CM.ValidConfig(c)
    ensures !CM.Hits(c, CM.Init(c), addr)
  {
    CM.MissOnlyIfNew(c, [], addr);
    assert CM.After(c, []) == CM.Init(c);
  }

  lemma FirstFetchMisses(c: Hierarchy, d: Inst)
    requires ValidHierarchy(c) && c.icache.enabled && c.l2.enabled
    ensures InstAccess(c, ColdCaches(c), d).cost == c.l2.missPenalty
  {
    ColdMiss(c.icache, d.pc);
    ColdMiss(c.l2, d.pc);
  }

  lemma FirstCycleWaits(c: PipeConfig, S: seq<Inst>, pen: seq<nat>)
    requires |pen| == |S| && 0 < |S| && ValidHierarchy(c.mem) && c.mem.icache.enabled && c.mem.l2.enabled
    ensures Run(c, S, pen, 1).pipe == Waiting(1, c.mem.l2.missPenalty)
  {
    FirstFetchMisses(c.mem, S[0]);
    hide InstAccess, DataAccess, ColdCaches;
    StepCases(c, S, pen, Run(c, S, pen, 0));
  }

  lemma {:induction false} StillWaiting(c: PipeConfig, S: seq<Inst>, pen: seq<nat>, k: nat)
    requires |pen| == |S| && 0 < |S| && ValidHierarchy(c.mem) && c.mem.icache.enabled && c.mem.l2.enabled
    requires 1 <= k <= c.mem.l2.missPenalty
    ensures Run(c, S, pen, k).pipe == Waiting(k, c.mem.l2.missPenalty)
  {
    if k == 1 {
      FirstCycleWaits(c, S, pen);
    } else {
      StillWaiting(c, S, pen, k - 1);
      hide InstAccess, DataAccess;
      StepCases(c, S, pen, Run(c, S, pen, k - 1));
    }
  }

  lemma WaitingShows(c: PipeConfig, S: seq<Inst>, pen: seq<nat>, k: nat)
    requires |pen| == |S| && 0 < |S| && ValidHierarchy(c.mem) && c.mem.icache.enabled && c.mem.l2.enabled
    requires k <= c.mem.l2.missPenalty
    ensures var p := Run(c, S, pen, k).pipe; p.retired == 0 && p.next == if k == 0 then 0 else 1
  {
    hide Run, ValidSim, ValidHierarchy;
    if k == 0 {
      NothingDone(c, S, pen);
    } else {
      StillWaiting(c, S, pen, k);
    }
  }

  lemma {:induction false} WaitingGoesOn(c: PipeConfig, S: seq<Inst>, pen: seq<nat>, k: nat)
    requires |pen| == |S| && 0 < |S| && ValidHierarchy(c.mem) && c.mem.icache.enabled && c.mem.l2.enabled
    requires Net(c, 1) < c.mem.l2.missPenalty && k <= Net(c, 1) + 1
    ensures GoesOnUntil(c, S, pen, k)
  {
    hide Run, SafetyNet, Net, ValidSim, ValidHierarchy;
    NetOfFirst(c);
    if k > 0 {
      WaitingGoesOn(c, S, pen, k - 1);
      WaitingShows(c, S, pen, k - 1);
      if k > 1 {
        WaitingShows(c, S, pen, k - 2);
      }
    }
  }

  lemma NothingDone(c: PipeConfig, S: seq<Inst>, pen: seq<nat>)
    requires |pen| == |S| && ValidHierarchy(c.mem)
    ensures Run(c, S, pen, 0).pipe == Start()
  {
  }

  lemma NetOfFirst(c: PipeConfig)
    ensures 64 <= Net(c, 0) && 64 <= Net(c, 1)
  {
  }

  /** The cycles the net allows while one instruction has been fetched. */
  function FirstNet(c: PipeConfig): nat { 17 * (20 + c.mem.icache.missPenalty + c.mem.dcache.missPenalty) + 64 }

  lemma FirstNetIsNet(c: PipeConfig)
    ensures FirstNet(c) == Net(c, 1)
  {
    TimesIsProduct(17, 20 + c.mem.icache.missPenalty + c.mem.dcache.missPenalty);
  }

  /** The net is no theorem without a bound on the second level: if its misses cost more than the net allows for one
      instruction, every program stops at the net with nothing retired. */
  lemma SlowSecondLevelStopsEverything(c: PipeConfig, S: seq<Inst>, pen: seq<nat>)
    requires |pen| == |S| && 0 < |S| && ValidHierarchy(c.mem) && c.mem.icache.enabled && c.mem.l2.enabled
    requires FirstNet(c) < c.mem.l2.missPenalty
    ensures Exits(c, S, pen, FirstNet(c) + 1) && Run(c, S, pen, FirstNet(c) + 1).pipe.retired == 0
  {
    hide Run, SafetyNet, Net, GoesOnUntil, ValidSim, ValidHierarchy;
    var n := FirstNet(c);
    FirstNetIsNet(c);
    WaitingGoesOn(c, S, pen, n + 1);
    WaitingShows(c, S, pen, n + 1);
    NetOfFirst(c);
    NetFires(c, S, pen, n + 1);
  }

  lemma NetFires(c: PipeConfig, S: seq<Inst>, pen: seq<nat>, k: nat)
    requires |pen| == |S| && 0 < |S| && ValidHierarchy(c.mem) && c.mem.icache.enabled && c.mem.l2.enabled
    requires 2 <= k <= c.mem.l2.missPenalty && k == Net(c, 1) + 1
    ensures !GoesOn(c, S, pen, k)
  {
    hide Run, SafetyNet, Net, ValidSim, ValidHierarchy;
    WaitingShows(c, S, pen, k - 1);
  }

  // ----- Dynamic scheduling -----

  /** For every program and predictor, out-of-order issue with at least the width and the window of an in-order machine
      never takes more cycles, and neither takes fewer than any chain of true dependences costs. */
  lemma OutOfOrderOnPrograms<C>(exec: C -> Executed<C>, c: C, limit: nat, b: PredictorConfig,
      fast: OO.OooConfig, slow: OO.OooConfig, chain: seq<nat>)
    requires 1 <= limit && OO.ValidOoo(fast) && OO.ValidOoo(slow) && OO.OooAtLeast(fast, slow)
    ensures var S := Stream(exec, c, limit); var pen := StreamPenalties(b, S);
            && OO.OooCycles(fast, S, pen) <= OO.OooCycles(slow, S, pen)
            && (OO.RawChain(S, chain) ==> 1 + OO.Weight(S, chain) <= OO.OooCycles(fast, S, pen))
  {
    var S := Stream(exec, c, limit);
    var pen := StreamPenalties(b, S);
    OO.OutOfOrderNeverSlower(fast, slow, S, pen);
    if OO.RawChain(S, chain) {
      OO.DataflowLimit(fast, S, pen, chain);
    }
  }
}
