/** Pipeline and caches together: the whole runs of the cycle-accurate simulator. */
module PipelineSim {
  import opened Arith
  import opened InstStream
  import opened Pipeline
  import opened MemoryHierarchy
  import CM = CacheModel
  import SB = Scoreboard
  import PR = PipelineRefinement

  datatype PipeConfig = PipeConfig(forwarding: bool, mem: Hierarchy)

  datatype Sim = Sim(pipe: Pipe, caches: Caches)

  predicate ValidSim(c: PipeConfig, S: seq<Inst>, m: Sim) {
    ValidHierarchy(c.mem) && Ordered(m.pipe, |S|) && ValidCaches(c.mem, m.caches)
  }

  /** The data access of a cycle: by the instruction that moves into MEM. */
  function DataPhase(c: PipeConfig, S: seq<Inst>, p: Pipe, s: Caches): (r: Charged)
    requires ValidHierarchy(c.mem) && InStream(p, |S|) && ValidCaches(c.mem, s)
    ensures ValidCaches(c.mem, r.caches) && r.cost >= HIT
  {
    if p.memStall <= 0 && p.ex >= 0 then DataAccess(c.mem, s, S[p.ex]) else Charged(HIT, s)
  }

  /** The fetch access of a cycle, after the data access. */
  function FetchPhase(c: PipeConfig, S: seq<Inst>, p: Pipe, s: Caches): (r: Charged)
    requires ValidHierarchy(c.mem) && InStream(p, |S|) && ValidCaches(c.mem, s)
    ensures ValidCaches(c.mem, r.caches) && r.cost >= HIT
  {
    if TakesNext(c.forwarding, S, p) then InstAccess(c.mem, s, S[p.next]) else Charged(HIT, s)
  }

  function Step(c: PipeConfig, S: seq<Inst>, pen: seq<nat>, m: Sim): (m': Sim)
    requires |pen| == |S| && ValidSim(c, S, m)
    ensures ValidSim(c, S, m') && m'.pipe.cycles == m.pipe.cycles + 1
  {
    OrderedInStream(m.pipe, |S|);
    CycleKeepsOrder(c.forwarding, S, pen, m.pipe, DataPhase(c, S, m.pipe, m.caches).cost,
                    FetchPhase(c, S, m.pipe, DataPhase(c, S, m.pipe, m.caches).caches).cost);
    var d := DataPhase(c, S, m.pipe, m.caches);
    var f := FetchPhase(c, S, m.pipe, d.caches);
    Sim(Cycle(c.forwarding, S, pen, m.pipe, d.cost, f.cost), f.caches)
  }

  /** What the fetch stage charges once the latches have moved. */
  function FetchCharge(c: Hierarchy, S: seq<Inst>, p: Pipe, s: Caches): Charged
    requires ValidHierarchy(c) && ValidCaches(c, s)
  {
    if p.ctrl == 0 && p.fetchStall <= 0 && p.pending < 0 && p.next < |S| then InstAccess(c, s, S[p.next]) else Charged(HIT, s)
  }

  /** The three ways a cycle can go. */
  lemma StepCases(c: PipeConfig, S: seq<Inst>, pen: seq<nat>, m: Sim)
    requires |pen| == |S| && ValidSim(c, S, m)
    ensures InStream(m.pipe, |S|)
    ensures var p := m.pipe;
            var d := if p.ex >= 0 then DataAccess(c.mem, m.caches, S[p.ex]) else Charged(HIT, m.caches);
            if p.memStall > 0 then Step(c, S, pen, m) == Sim(Hold(p), m.caches)
            else if NeedsStall(c.forwarding, S, p.id, p.ex, p.mem) then Step(c, S, pen, m) == Sim(Bubble(p, d.cost), d.caches)
            else var q := Shift(p, d.cost); var r := FetchCharge(c.mem, S, q, d.caches);
                 InStream(q, |S|) && Step(c, S, pen, m) == Sim(Fetch(pen, q, r.cost), r.caches)
  {
    OrderedInStream(m.pipe, |S|);
  }

  function Run(c: PipeConfig, S: seq<Inst>, pen: seq<nat>, k: nat): (m: Sim)
    requires |pen| == |S| && ValidHierarchy(c.mem)
    ensures ValidSim(c, S, m) && m.pipe.cycles == k
  {
    if k == 0 then Sim(Start(), ColdCaches(c.mem)) else Step(c, S, pen, Run(c, S, pen, k - 1))
  }

  /** The limit the loop puts on its own cycle count. */
  function Net(c: PipeConfig, next: nat): nat {
    SafetyNet(next, 20 + c.mem.icache.missPenalty + c.mem.dcache.missPenalty)
  }

  predicate OverNet(c: PipeConfig, S: seq<Inst>, pen: seq<nat>, k: nat)
    requires |pen| == |S| && ValidHierarchy(c.mem)
  {
    1 <= k && Net(c, Run(c, S, pen, k - 1).pipe.next) < k
  }

  /** The loop goes on after k cycles. */
  predicate GoesOn(c: PipeConfig, S: seq<Inst>, pen: seq<nat>, k: nat)
    requires |pen| == |S| && ValidHierarchy(c.mem)
  {
    !Done(Run(c, S, pen, k).pipe, |S|) && !OverNet(c, S, pen, k)
  }

  /** The loop ends after exactly k cycles. */
  ghost predicate Exits(c: PipeConfig, S: seq<Inst>, pen: seq<nat>, k: nat)
    requires |pen| == |S| && ValidHierarchy(c.mem)
  {
    !GoesOn(c, S, pen, k) && GoesOnUntil(c, S, pen, k)
  }

  ghost predicate GoesOnUntil(c: PipeConfig, S: seq<Inst>, pen: seq<nat>, k: nat)
    requires |pen| == |S| && ValidHierarchy(c.mem)
  {
    k == 0 || (GoesOn(c, S, pen, k - 1) && GoesOnUntil(c, S, pen, k - 1))
  }

  lemma {:induction false} GoesOnAt(c: PipeConfig, S: seq<Inst>, pen: seq<nat>, k: nat, j: nat)
    requires |pen| == |S| && ValidHierarchy(c.mem) && GoesOnUntil(c, S, pen, k) && j < k
    ensures GoesOn(c, S, pen, j)
  {
    hide GoesOn;
    if j < k - 1 {
      GoesOnAt(c, S, pen, k - 1, j);
    }
  }

  ghost predicate NotDoneBefore(c: PipeConfig, S: seq<Inst>, pen: seq<nat>, k: nat)
    requires |pen| == |S| && ValidHierarchy(c.mem)
  {
    forall j :: 0 <= j < k ==> !Done(Run(c, S, pen, j).pipe, |S|)
  }

  // ----- Every instruction retires once, in order -----

  lemma RunRetiresInOrder(c: PipeConfig, S: seq<Inst>, pen: seq<nat>, k: nat)
    requires |pen| == |S| && ValidHierarchy(c.mem)
    ensures var p, q := Run(c, S, pen, k).pipe, Run(c, S, pen, k + 1).pipe;
            if p.memStall <= 0 && p.mem >= 0 then q.wb == p.retired && q.retired == p.retired + 1
            else q.retired == p.retired
  {
    var m := Run(c, S, pen, k);
    var d := DataPhase(c, S, m.pipe, m.caches);
    RetiresInOrder(c.forwarding, S, pen, m.pipe, d.cost, FetchPhase(c, S, m.pipe, d.caches).cost);
  }

  // ----- Cycle accounting -----

  lemma {:induction false} RunAccounted(c: PipeConfig, S: seq<Inst>, pen: seq<nat>, k: nat)
    requires |pen| == |S| && 0 < |S| && ValidHierarchy(c.mem) && SmallPenalties(pen)
    requires NotDoneBefore(c, S, pen, k)
    ensures Accounted(Run(c, S, pen, k).pipe, pen)
  {
    if k > 0 {
      RunAccounted(c, S, pen, k - 1);
      var m := Run(c, S, pen, k - 1);
      var d := DataPhase(c, S, m.pipe, m.caches);
      CycleKeepsAccount(c.forwarding, S, pen, m.pipe, d.cost, FetchPhase(c, S, m.pipe, d.caches).cost);
    }
  }

  /** At normal exit every cycle beyond one per instruction and four to fill is a data, control or memory stall,
      except that the last instruction's own penalty is not waited for. */
  lemma CycleAccounting(c: PipeConfig, S: seq<Inst>, pen: seq<nat>, k: nat)
    requires |pen| == |S| && 0 < |S| && ValidHierarchy(c.mem) && SmallPenalties(pen)
    requires NotDoneBefore(c, S, pen, k) && Done(Run(c, S, pen, k).pipe, |S|)
    ensures var s := Run(c, S, pen, k).pipe.stalls;
            k == |S| + 4 + s.data + s.control + s.memory - pen[|S| - 1]
  {
    RunAccounted(c, S, pen, k);
    FinalAccount(Run(c, S, pen, k).pipe, pen);
  }

  // ----- The safety net -----

  lemma CostsWithinWorst(c: PipeConfig, S: seq<Inst>, p: Pipe, s: Caches)
    requires ValidHierarchy(c.mem) && InStream(p, |S|) && ValidCaches(c.mem, s)
    ensures DataPhase(c, S, p, s).cost <= WorstCost(c.mem, c.mem.dcache)
    ensures FetchPhase(c, S, p, s).cost >= 0 ==> Max(1, FetchPhase(c, S, p, s).cost) <= WorstFetch(c.mem)
  {
  }

  lemma {:induction false} RunBounded(c: PipeConfig, S: seq<Inst>, pen: seq<nat>, k: nat)
    requires |pen| == |S| && ValidHierarchy(c.mem)
    ensures Bounded(Run(c, S, pen, k).pipe, WorstCost(c.mem, c.mem.dcache), WorstFetch(c.mem))
  {
    if k > 0 {
      RunBounded(c, S, pen, k - 1);
      var m := Run(c, S, pen, k - 1);
      var d := DataPhase(c, S, m.pipe, m.caches);
      CostsWithinWorst(c, S, m.pipe, m.caches);
      CostsWithinWorst(c, S, m.pipe, d.caches);
      CycleKeepsBounds(c.forwarding, S, pen, m.pipe, d.cost, FetchPhase(c, S, m.pipe, d.caches).cost,
                       WorstCost(c.mem, c.mem.dcache), WorstFetch(c.mem));
    }
  }

  lemma StepMetered(c: PipeConfig, S: seq<Inst>, pen: seq<nat>, m: Sim)
    requires |pen| == |S| && ValidSim(c, S, m) && SmallPenalties(pen)
    requires Metered(m.pipe, pen) && Accounted(m.pipe, pen) && !Done(m.pipe, |S|)
    ensures Metered(Step(c, S, pen, m).pipe, pen)
  {
    hide Metered, Accounted, DataPhase, FetchPhase, Cycle, Ordered, ValidCaches;
    OrderedInStream(m.pipe, |S|);
    var d := DataPhase(c, S, m.pipe, m.caches);
    CycleKeepsMeter(c.forwarding, S, pen, m.pipe, d.cost, FetchPhase(c, S, m.pipe, d.caches).cost);
  }

  lemma StartMetered(c: PipeConfig, S: seq<Inst>, pen: seq<nat>)
    requires |pen| == |S| && ValidHierarchy(c.mem)
    ensures Metered(Run(c, S, pen, 0).pipe, pen)
  {
    hide Metered, ColdCaches;
    NothingIsMetered(pen, Run(c, S, pen, 0).pipe);
  }

  lemma {:induction false} RunMetered(c: PipeConfig, S: seq<Inst>, pen: seq<nat>, k: nat)
    requires |pen| == |S| && 0 < |S| && ValidHierarchy(c.mem) && SmallPenalties(pen)
    requires NotDoneBefore(c, S, pen, k)
    ensures Metered(Run(c, S, pen, k).pipe, pen)
  {
    hide Metered, Accounted, Step, ValidSim, Done, SmallPenalties, ValidHierarchy;
    if k == 0 {
      StartMetered(c, S, pen);
    } else {
      RunMetered(c, S, pen, k - 1);
      RunAccounted(c, S, pen, k - 1);
      StepMetered(c, S, pen, Run(c, S, pen, k - 1));
    }
  }

  /** The net never fires as long as its slack covers what the second level costs beyond the L1 penalties. */
  lemma NetNeverFires(c: PipeConfig, S: seq<Inst>, pen: seq<nat>, k: nat)
    requires |pen| == |S| && 0 < |S| && ValidHierarchy(c.mem) && NetCovers(c.mem) && SmallPenalties(pen)
    requires NotDoneBefore(c, S, pen, k)
    ensures !OverNet(c, S, pen, k)
  {
    hide Run, Accounted, Bounded, Metered, SafetyNet;
    if k > 0 {
      var p := Run(c, S, pen, k - 1).pipe;
      RunAccounted(c, S, pen, k - 1);
      RunBounded(c, S, pen, k - 1);
      RunMetered(c, S, pen, k - 1);
      NetIsSlack(c.forwarding, S, pen, p, HIT, HIT, WorstCost(c.mem, c.mem.dcache), WorstFetch(c.mem),
                 20 + c.mem.icache.missPenalty + c.mem.dcache.missPenalty);
      assert p.cycles + 1 <= Net(c, p.next);
    }
  }

  lemma ExitsWhenDone(c: PipeConfig, S: seq<Inst>, pen: seq<nat>, k: nat)
    requires |pen| == |S| && 0 < |S| && ValidHierarchy(c.mem) && NetCovers(c.mem) && SmallPenalties(pen)
    requires Exits(c, S, pen, k)
    ensures NotDoneBefore(c, S, pen, k) && Done(Run(c, S, pen, k).pipe, |S|)
  {
    forall j | 0 <= j < k ensures !Done(Run(c, S, pen, j).pipe, |S|) {
      GoesOnAt(c, S, pen, k, j);
    }
    NetNeverFires(c, S, pen, k);
  }

  /** So every program's every instruction retires, and the loop ends for that reason. */
  lemma EveryInstructionRetires(c: PipeConfig, S: seq<Inst>, pen: seq<nat>, k: nat)
    requires |pen| == |S| && 0 < |S| && ValidHierarchy(c.mem) && NetCovers(c.mem) && SmallPenalties(pen)
    requires Exits(c, S, pen, k)
    ensures Run(c, S, pen, k).pipe.retired == Run(c, S, pen, k).pipe.next == |S|
  {
    ExitsWhenDone(c, S, pen, k);
  }

  // ----- Caches see the program's own addresses -----

  function FetchAddrs(S: seq<Inst>, k: nat): (h: seq<nat>)
    requires k <= |S|
    ensures |h| == k
  {
    if k == 0 then [] else FetchAddrs(S, k - 1) + [S[k - 1].pc]
  }

  function DataAddrs(S: seq<Inst>, k: nat): seq<nat>
    requires k <= |S|
  {
    if k == 0 then [] else DataAddrs(S, k - 1) + if S[k - 1].accessesMem then [S[k - 1].memAddr] else []
  }

  /** Cache contents depend on how far fetch and MEM have come, not on when. */
  ghost predicate CachesTrack(c: PipeConfig, S: seq<Inst>, m: Sim)
    requires ValidHierarchy(c.mem)
  {
    var p, s := m.pipe, m.caches;
    && p.next <= |S| && EnteredMem(p) <= |S|
    && (c.mem.icache.enabled ==> s.ic == CM.After(c.mem.icache, FetchAddrs(S, p.next)))
    && (c.mem.dcache.enabled ==> s.dc == CM.After(c.mem.dcache, DataAddrs(S, EnteredMem(p))))
    && (!c.mem.icache.enabled ==> s.ic.misses == 0) && (!c.mem.dcache.enabled ==> s.dc.misses == 0)
    && (c.mem.l2.enabled ==> s.l2.accesses == s.ic.misses + s.dc.misses)
  }

  lemma AfterOneMore(c: CM.Config, h: seq<nat>, a: nat)
    requires CM.ValidConfig(c)
    ensures CM.After(c, h + [a]) == CM.Access(c, CM.After(c, h), a)
  {
    assert (h + [a])[..|h|] == h;
  }

  /** What the data phase does to each cache. */
  lemma DataPhaseMoves(c: PipeConfig, S: seq<Inst>, p: Pipe, s: Caches)
    requires ValidHierarchy(c.mem) && ValidCaches(c.mem, s) && InStream(p, |S|)
    ensures var r := DataPhase(c, S, p, s).caches;
            && r.ic == s.ic
            && r.dc == (if c.mem.dcache.enabled && p.memStall <= 0 && p.ex >= 0 && S[p.ex].accessesMem
                        then CM.Access(c.mem.dcache, s.dc, S[p.ex].memAddr) else s.dc)
            && (c.mem.l2.enabled ==> r.l2.accesses - s.l2.accesses == r.dc.misses - s.dc.misses)
  {
  }

  lemma FetchPhaseMoves(c: PipeConfig, S: seq<Inst>, p: Pipe, s: Caches)
    requires ValidHierarchy(c.mem) && ValidCaches(c.mem, s) && InStream(p, |S|)
    ensures var r := FetchPhase(c, S, p, s).caches;
            && r.dc == s.dc
            && r.ic == (if c.mem.icache.enabled && TakesNext(c.forwarding, S, p)
                        then CM.Access(c.mem.icache, s.ic, S[p.next].pc) else s.ic)
            && (c.mem.l2.enabled ==> r.l2.accesses - s.l2.accesses == r.ic.misses - s.ic.misses)
  {
  }

  lemma DataAddrsStep(c: CM.Config, S: seq<Inst>, k: nat)
    requires CM.ValidConfig(c) && k < |S|
    ensures CM.After(c, DataAddrs(S, k + 1))
         == if S[k].accessesMem then CM.Access(c, CM.After(c, DataAddrs(S, k)), S[k].memAddr)
            else CM.After(c, DataAddrs(S, k))
  {
    var h := DataAddrs(S, k);
    if S[k].accessesMem {
      AfterOneMore(c, h, S[k].memAddr);
    } else {
      assert h + [] == h;
    }
  }

  lemma FetchAddrsStep(c: CM.Config, S: seq<Inst>, k: nat)
    requires CM.ValidConfig(c) && k < |S|
    ensures CM.After(c, FetchAddrs(S, k + 1)) == CM.Access(c, CM.After(c, FetchAddrs(S, k)), S[k].pc)
  {
    AfterOneMore(c, FetchAddrs(S, k), S[k].pc);
  }

  lemma CycleProgress(fwd: bool, S: seq<Inst>, pen: seq<nat>, p: Pipe, dCost: int, iCost: int)
    requires |pen| == |S| && Ordered(p, |S|) && InStream(p, |S|)
    ensures var q := Cycle(fwd, S, pen, p, dCost, iCost);
            && q.next == (if TakesNext(fwd, S, p) then p.next + 1 else p.next)
            && EnteredMem(q) == (if p.memStall <= 0 then EnteredEx(p) else EnteredMem(p))
  {
    ShiftKeepsOrder(p, |S|, dCost);
    OrderedInStream(Shift(p, dCost), |S|);
    FetchFrame(pen, Shift(p, dCost), iCost);
  }

  lemma RunStep(c: PipeConfig, S: seq<Inst>, pen: seq<nat>, k: nat)
    requires |pen| == |S| && ValidHierarchy(c.mem) && 1 <= k
    ensures Run(c, S, pen, 0) == Sim(Start(), ColdCaches(c.mem))
    ensures Run(c, S, pen, k) == Step(c, S, pen, Run(c, S, pen, k - 1)) && InStream(Run(c, S, pen, k - 1).pipe, |S|)
  {
    hide Step, ColdCaches;
    OrderedInStream(Run(c, S, pen, k - 1).pipe, |S|);
  }

  lemma {:induction false} CachesAreTimingFree(c: PipeConfig, S: seq<Inst>, pen: seq<nat>, k: nat)
    requires |pen| == |S| && ValidHierarchy(c.mem)
    ensures CachesTrack(c, S, Run(c, S, pen, k))
  {
    hide Run, Step, CachesTrack, ValidSim, InStream;
    if k == 0 {
      ColdTracks(c, S);
      RunStep(c, S, pen, 1);
    } else {
      CachesAreTimingFree(c, S, pen, k - 1);
      RunStep(c, S, pen, k);
      StepTracksCaches(c, S, pen, Run(c, S, pen, k - 1));
    }
  }

  lemma ColdTracks(c: PipeConfig, S: seq<Inst>)
    requires ValidHierarchy(c.mem)
    ensures CachesTrack(c, S, Sim(Start(), ColdCaches(c.mem)))
  {
    assert FetchAddrs(S, 0) == [] && DataAddrs(S, 0) == [];
  }

  lemma TracksMove(c: PipeConfig, S: seq<Inst>, m: Sim, q: Pipe, d: Caches, t: Caches)
    requires ValidHierarchy(c.mem) && ValidCaches(c.mem, m.caches) && CachesTrack(c, S, m) && InStream(m.pipe, |S|)
    requires ValidCaches(c.mem, d) && d.ic == m.caches.ic && t.dc == d.dc
    requires d.dc == (if c.mem.dcache.enabled && m.pipe.memStall <= 0 && m.pipe.ex >= 0 && S[m.pipe.ex].accessesMem
                      then CM.Access(c.mem.dcache, m.caches.dc, S[m.pipe.ex].memAddr) else m.caches.dc)
    requires q.next == m.pipe.next || (q.next == m.pipe.next + 1 <= |S|)
    requires t.ic == (if c.mem.icache.enabled && q.next != m.pipe.next
                      then CM.Access(c.mem.icache, d.ic, S[m.pipe.next].pc) else d.ic)
    requires c.mem.l2.enabled ==> d.l2.accesses - m.caches.l2.accesses == d.dc.misses - m.caches.dc.misses
    requires c.mem.l2.enabled ==> t.l2.accesses - d.l2.accesses == t.ic.misses - d.ic.misses
    requires Ordered(m.pipe, |S|) && EnteredMem(q) == if m.pipe.memStall <= 0 then EnteredEx(m.pipe) else EnteredMem(m.pipe)
    ensures CachesTrack(c, S, Sim(q, t))
  {
    hide CM.Access, CM.After, ValidCaches, FetchAddrs, DataAddrs;
    var p := m.pipe;
    if p.memStall <= 0 && p.ex >= 0 {
      DataAddrsStep(c.mem.dcache, S, EnteredMem(p));
    }
    if p.next < |S| {
      FetchAddrsStep(c.mem.icache, S, p.next);
    }
  }

  lemma StepTracksCaches(c: PipeConfig, S: seq<Inst>, pen: seq<nat>, m: Sim)
    requires |pen| == |S| && ValidSim(c, S, m) && InStream(m.pipe, |S|) && CachesTrack(c, S, m)
    ensures CachesTrack(c, S, Step(c, S, pen, m))
  {
    var p := m.pipe;
    var d := DataPhase(c, S, p, m.caches);
    DataPhaseMoves(c, S, p, m.caches);
    FetchPhaseMoves(c, S, p, d.caches);
    var f := FetchPhase(c, S, p, d.caches);
    CycleProgress(c.forwarding, S, pen, p, d.cost, f.cost);
    FetchesInStream(c.forwarding, S, p);
    hide CM.Access, CM.After, Cycle, TakesNext, DataPhase, FetchPhase, ValidCaches, CachesTrack, Ordered, InStream;
    TracksMove(c, S, m, Cycle(c.forwarding, S, pen, p, d.cost, f.cost), d.caches, f.caches);
  }

  lemma FetchesInStream(fwd: bool, S: seq<Inst>, p: Pipe)
    requires InStream(p, |S|)
    ensures TakesNext(fwd, S, p) ==> p.next < |S|
  {
  }

  /** One I-cache access an instruction, one D-cache access a memory instruction, one L2 access an L1 miss. */
  lemma AccessCounts(c: PipeConfig, S: seq<Inst>, pen: seq<nat>, k: nat)
    requires |pen| == |S| && ValidHierarchy(c.mem) && Done(Run(c, S, pen, k).pipe, |S|)
    ensures var s := Run(c, S, pen, k).caches;
            && (c.mem.icache.enabled ==> s.ic.accesses == |S|)
            && (c.mem.dcache.enabled ==> s.dc.accesses == |DataAddrs(S, |S|)|)
            && (c.mem.l2.enabled ==> s.l2.accesses == s.ic.misses + s.dc.misses)
  {
    CachesAreTimingFree(c, S, pen, k);
    assert EnteredMem(Run(c, S, pen, k).pipe) == |S|;
    CM.WorkingSetFit(c.mem.icache, FetchAddrs(S, |S|));
    CM.WorkingSetFit(c.mem.dcache, DataAddrs(S, |S|));
  }

  // ----- Caches off: the scoreboard -----

  predicate CachesOff(c: PipeConfig) { !c.mem.icache.enabled && !c.mem.dcache.enabled }

  lemma PlainStep(c: PipeConfig, S: seq<Inst>, pen: seq<nat>, m: Sim)
    requires |pen| == |S| && ValidSim(c, S, m) && CachesOff(c)
    ensures InStream(m.pipe, |S|) && Step(c, S, pen, m).pipe == Cycle(c.forwarding, S, pen, m.pipe, HIT, HIT)
  {
    hide Cycle, TakesNext, Ordered;
    OrderedInStream(m.pipe, |S|);
  }

  lemma {:induction false} PlainRun(c: PipeConfig, S: seq<Inst>, pen: seq<nat>, k: nat)
    requires |pen| == |S| && ValidHierarchy(c.mem) && CachesOff(c)
    ensures Run(c, S, pen, k).pipe == PR.HitRun(c.forwarding, S, pen, k)
  {
    hide Cycle, Step, Ordered, ValidCaches, InStream;
    if k > 0 {
      PlainRun(c, S, pen, k - 1);
      PlainStep(c, S, pen, Run(c, S, pen, k - 1));
    }
  }

  lemma DoneWithScoreboard(c: PipeConfig, S: seq<Inst>, pen: seq<nat>, k: nat)
    requires |pen| == |S| && 0 < |S| && ValidHierarchy(c.mem) && CachesOff(c)
    ensures Done(Run(c, S, pen, k).pipe, |S|) <==> SB.Cycles(SB.Config(1, c.forwarding), S, pen) <= k
  {
    PlainRun(c, S, pen, k);
    PR.PipelineIsScoreboard(c.forwarding, S, pen, k);
  }

  /** With the caches off the simulator reports exactly the cycles of the width-1 scoreboard. */
  lemma StructuralEqualsScoreboard(c: PipeConfig, S: seq<Inst>, pen: seq<nat>, k: nat)
    requires |pen| == |S| && 0 < |S| && ValidHierarchy(c.mem) && CachesOff(c) && SmallPenalties(pen)
    requires Exits(c, S, pen, k)
    ensures k == SB.Cycles(SB.Config(1, c.forwarding), S, pen)
  {
    ExitsWhenDone(c, S, pen, k);
    DoneWithScoreboard(c, S, pen, k);
    SB.RunInv(SB.Config(1, c.forwarding), S, pen, |S|);
    if k > 0 {
      DoneWithScoreboard(c, S, pen, k - 1);
      assert !Done(Run(c, S, pen, k - 1).pipe, |S|);
    }
  }

  /** Hence forwarding never slows the cache-free pipeline down. */
  lemma ForwardingNeverSlower(c: PipeConfig, b: PipeConfig, S: seq<Inst>, pen: seq<nat>, k: nat, j: nat)
    requires |pen| == |S| && 0 < |S| && SmallPenalties(pen)
    requires ValidHierarchy(c.mem) && CachesOff(c) && ValidHierarchy(b.mem) && CachesOff(b)
    requires c.forwarding && Exits(c, S, pen, k) && Exits(b, S, pen, j)
    ensures k <= j
  {
    StructuralEqualsScoreboard(c, S, pen, k);
    StructuralEqualsScoreboard(b, S, pen, j);
    SB.WiderAndForwardingNeverSlower(SB.Config(1, c.forwarding), SB.Config(1, b.forwarding), S, pen);
  }
}
