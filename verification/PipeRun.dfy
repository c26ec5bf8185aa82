/** The structural simulator as run: latches and counters in one record that every cycle replaces, instructions
    fetched through the generator's window, caches and predictor updated in place. */
module PipeRun {
  import opened Arith
  import opened InstStream
  import opened Generator
  import opened FrontEnd
  import opened Pipeline
  import opened MemoryHierarchy
  import PS = PipelineSim
  import CM = CacheModel
  import CacheUnit

  /** Generator and predictor have seen what the latches say was fetched. */
  ghost predicate InStep<C>(f: Front<C>, p: Pipe)
    reads f, f.Repr
  {
    f.Ready() && Ordered(p, |f.S|) && f.generated == p.next && f.charged == Fetched(p)
  }

  /** Whether the instruction in latch x writes one of d's sources. */
  method FeedsFrom<C>(f: Front<C>, p: Pipe, x: int, d: Inst) returns (b: bool)
    requires InStep(f, p) && (x == p.ex || x == p.mem)
    ensures EMPTY <= x < |f.S| && b == Feeds(f.S, x, d)
  {
    if x < 0 { return false; }
    var i := f.At(x);
    for r := 0 to |d.sources|
      invariant forall q :: 0 <= q < r ==> !Produces(i, d.sources[q])
    {
      if Produces(i, d.sources[r]) { return true; }
    }
    b := false;
  }

  /** The hazard-detection unit. */
  method Hazard<C>(forwarding: bool, f: Front<C>, p: Pipe) returns (stall: bool)
    requires InStep(f, p)
    ensures InStream(p, |f.S|) && stall == NeedsStall(forwarding, f.S, p.id, p.ex, p.mem)
  {
    OrderedInStream(p, |f.S|);
    if p.id < 0 { return false; }
    var d := f.At(p.id);
    stall := FeedsFrom(f, p, p.ex, d);
    if forwarding {
      if stall {
        var i := f.At(p.ex);
        stall := i.isLoad;
      }
    } else if !stall {
      stall := FeedsFrom(f, p, p.mem, d);
    }
  }

  /** The data access of the instruction that moves into MEM. */
  method AccessData<C>(f: Front<C>, ms: MemorySystem, p: Pipe) returns (cost: int)
    requires InStep(f, p) && ms.Ready() && f.Repr !! ms.Repr
    modifies ms.Repr
    ensures InStep(f, p) && ms.Ready() && p.ex < |f.S|
    ensures var r := if p.ex >= 0 then DataAccess(ms.cfg, old(ms.state), f.S[p.ex]) else Charged(HIT, old(ms.state));
            cost == r.cost && ms.state == r.caches
  {
    cost := HIT;
    if p.ex >= 0 {
      var d := f.At(p.ex);
      cost := ms.LoadStoreAccess(d);
    }
  }

  /** Instruction k enters IF and fixes the fetch penalty behind it. */
  method Enter<C>(f: Front<C>, p: Pipe, k: nat) returns (q: Pipe)
    requires f.Ready() && k == f.charged < f.generated <= k + WIN_CAP
    modifies f.Repr
    ensures f.Ready() && k < |f.S| && f.charged == k + 1 && f.generated == old(f.generated)
    ensures q == EnterIf(f.pen, p, k)
  {
    var d := f.At(k);
    var penalty := f.Charge(d);
    q := p.(ifl := k, ctrl := penalty);
  }

  /** IF takes a new instruction, or finds the program exhausted. */
  method TakeNew<C>(f: Front<C>, ms: MemorySystem, p: Pipe) returns (q: Pipe)
    requires InStep(f, p) && ms.Ready() && f.Repr !! ms.Repr && InStream(p, |f.S|)
    requires p.ifl == EMPTY && p.ctrl == 0 && p.fetchStall <= 0 && p.pending < 0
    modifies f.Repr, ms.Repr
    ensures InStep(f, q) && ms.Ready()
    ensures var r := PS.FetchCharge(ms.cfg, f.S, p, old(ms.state)); q == Fetch(f.pen, p, r.cost) && ms.state == r.caches
  {
    q := p;
    var k := p.next;
    var ok := f.Ensure(k);
    if ok {
      var d := f.At(k);
      var cost := ms.FetchAccess(d);
      q := p.(next := k + 1);
      if cost >= 0 {
        q := q.(pending := k, fetchStall := cost - 1, stalls := p.stalls.(memory := p.stalls.memory + 1));
      } else {
        q := Enter(f, q, k);
      }
    }
  }

  /** The fetch stage once ID has moved on. */
  method FetchStage<C>(f: Front<C>, ms: MemorySystem, p: Pipe) returns (q: Pipe)
    requires InStep(f, p) && ms.Ready() && f.Repr !! ms.Repr && InStream(p, |f.S|) && p.ifl == EMPTY
    modifies f.Repr, ms.Repr
    ensures InStep(f, q) && ms.Ready()
    ensures var r := PS.FetchCharge(ms.cfg, f.S, p, old(ms.state)); q == Fetch(f.pen, p, r.cost) && ms.state == r.caches
  {
    if p.ctrl > 0 {
      q := p.(ctrl := p.ctrl - 1, stalls := p.stalls.(control := p.stalls.control + 1));
    } else if p.fetchStall > 0 {
      q := p.(fetchStall := p.fetchStall - 1, stalls := p.stalls.(memory := p.stalls.memory + 1));
    } else if p.pending >= 0 {
      q := Enter(f, p.(pending := EMPTY), p.pending);
    } else {
      q := TakeNew(f, ms, p);
    }
  }

  /** A bubble in EX, or everything behind it moves on and IF is refilled. */
  method MoveOn<C>(f: Front<C>, ms: MemorySystem, p: Pipe, stall: bool, cost: int) returns (q: Pipe)
    requires InStep(f, p) && ms.Ready() && f.Repr !! ms.Repr && (stall ==> p.id >= 0)
    modifies f.Repr, ms.Repr
    ensures InStep(f, q) && ms.Ready()
    ensures stall ==> q == Bubble(p, cost) && ms.state == old(ms.state)
    ensures !stall ==> InStream(Shift(p, cost), |f.S|)
    ensures !stall ==> var r := PS.FetchCharge(ms.cfg, f.S, Shift(p, cost), old(ms.state));
                       q == Fetch(f.pen, Shift(p, cost), r.cost) && ms.state == r.caches
  {
    if stall {
      BubbleKeepsOrder(p, |f.S|, cost);
      q := Bubble(p, cost);
    } else {
      ShiftKeepsOrder(p, |f.S|, cost);
      OrderedInStream(Shift(p, cost), |f.S|);
      q := FetchStage(f, ms, Shift(p, cost));
    }
  }

  /** One cycle. */
  method Tick<C>(cfg: PS.PipeConfig, f: Front<C>, ms: MemorySystem, p: Pipe) returns (q: Pipe)
    requires InStep(f, p) && ms.Ready() && ms.cfg == cfg.mem && f.Repr !! ms.Repr
    modifies f.Repr, ms.Repr
    ensures InStep(f, q) && ms.Ready()
    ensures PS.Sim(q, ms.state) == PS.Step(cfg, f.S, f.pen, PS.Sim(p, old(ms.state)))
  {
    PS.StepCases(cfg, f.S, f.pen, PS.Sim(p, ms.state));
    if p.memStall > 0 {
      q := Hold(p);
    } else {
      var stall := Hazard(cfg.forwarding, f, p);
      var cost := AccessData(f, ms, p);
      q := MoveOn(f, ms, p, stall, cost);
    }
  }

  /** Cycles are unbounded only if the net is: next never exceeds the stream. */
  lemma NetMonotone(c: PS.PipeConfig, a: nat, b: nat)
    requires a <= b
    ensures PS.Net(c, a) <= PS.Net(c, b)
  {
    TimesMonotone(a + 16, b + 16, 20 + c.mem.icache.missPenalty + c.mem.dcache.missPenalty);
  }

  /** m is the run after its cycles, and the loop got that far. */
  ghost predicate Reached(c: PS.PipeConfig, S: seq<Inst>, pen: seq<nat>, m: PS.Sim) {
    && |pen| == |S| && ValidHierarchy(c.mem)
    && m == PS.Run(c, S, pen, m.pipe.cycles) && PS.GoesOnUntil(c, S, pen, m.pipe.cycles)
  }

  lemma RunOnce(c: PS.PipeConfig, S: seq<Inst>, pen: seq<nat>, m: PS.Sim)
    requires |pen| == |S| && ValidHierarchy(c.mem) && m == PS.Run(c, S, pen, m.pipe.cycles)
    ensures PS.ValidSim(c, S, m) && PS.Step(c, S, pen, m) == PS.Run(c, S, pen, m.pipe.cycles + 1)
  {
  }

  /** From a state in which the loop goes on, one cycle leads to the next one reached. */
  lemma ReachedStep(c: PS.PipeConfig, S: seq<Inst>, pen: seq<nat>, m: PS.Sim, m': PS.Sim)
    requires Reached(c, S, pen, m) && PS.GoesOn(c, S, pen, m.pipe.cycles)
    requires m' == PS.Run(c, S, pen, m.pipe.cycles + 1)
    ensures Reached(c, S, pen, m')
  {
  }

  lemma NetChecked(c: PS.PipeConfig, S: seq<Inst>, pen: seq<nat>, m: PS.Sim)
    requires |pen| == |S| && ValidHierarchy(c.mem) && m == PS.Run(c, S, pen, m.pipe.cycles)
    ensures PS.OverNet(c, S, pen, m.pipe.cycles + 1) <==> PS.Net(c, m.pipe.next) < m.pipe.cycles + 1
    ensures PS.Net(c, m.pipe.next) <= PS.Net(c, |S|)
  {
    NetMonotone(c, m.pipe.next, |S|);
  }

  /** One iteration: a cycle, and whether the safety net fired. */
  method Iterate<C>(cfg: PS.PipeConfig, f: Front<C>, ms: MemorySystem, p: Pipe) returns (q: Pipe, over: bool)
    requires InStep(f, p) && ms.Ready() && ms.cfg == cfg.mem && f.Repr !! ms.Repr
    requires Reached(cfg, f.S, f.pen, PS.Sim(p, ms.state)) && !Done(p, |f.S|) && InNet(cfg, f.S, f.pen, p)
    modifies f.Repr, ms.Repr
    ensures InStep(f, q) && ms.Ready()
    ensures Reached(cfg, f.S, f.pen, PS.Sim(q, ms.state))
    ensures over ==> PS.OverNet(cfg, f.S, f.pen, q.cycles)
    ensures p.cycles < q.cycles && (!over ==> InNet(cfg, f.S, f.pen, q))
  {
    hide PS.Net, PS.Run, PS.GoesOnUntil, PS.Step, Ordered, PS.ValidSim;
    ghost var m := PS.Sim(p, ms.state);
    RunOnce(cfg, f.S, f.pen, m);
    NetChecked(cfg, f.S, f.pen, m);
    var bound := PS.Net(cfg, p.next);
    q := Tick(cfg, f, ms, p);
    ReachedStep(cfg, f.S, f.pen, m, PS.Sim(q, ms.state));
    over := q.cycles > bound;
  }

  /** The loop's test: whether it goes on from p, given whether the last cycle broke the net. */
  method Test<C>(cfg: PS.PipeConfig, f: Front<C>, p: Pipe, over: bool) returns (going: bool)
    requires InStep(f, p) && |f.pen| == |f.S| && ValidHierarchy(cfg.mem)
    requires (over ==> PS.OverNet(cfg, f.S, f.pen, p.cycles)) && (!over ==> InNet(cfg, f.S, f.pen, p))
    ensures going ==> !Done(p, |f.S|) && InNet(cfg, f.S, f.pen, p) && p.cycles <= PS.Net(cfg, |f.S|)
    ensures !going ==> Ended(cfg, f.S, f.pen, p)
  {
    hide PS.OverNet, PS.Net;
    f.DoneMeans();
    going := !(f.g.done && p.retired >= p.next) && !over;
  }

  /** Empty latches. */
  method Begin<C>(cfg: PS.PipeConfig, f: Front<C>, ms: MemorySystem) returns (p: Pipe)
    requires f.Ready() && f.generated == f.charged == 0
    requires ms.Ready() && ms.cfg == cfg.mem && ms.state == ColdCaches(cfg.mem)
    ensures InStep(f, p) && ValidHierarchy(cfg.mem) && |f.pen| == |f.S|
    ensures Reached(cfg, f.S, f.pen, PS.Sim(p, ms.state)) && InNet(cfg, f.S, f.pen, p)
  {
    hide PS.Net, PS.Run, PS.GoesOnUntil, PS.OverNet;
    p := Start();
    StartReached(cfg, f.S, f.pen);
  }

  /** The cycle loop. */
  method CycleLoop<C>(cfg: PS.PipeConfig, f: Front<C>, ms: MemorySystem) returns (p: Pipe)
    requires f.Ready() && f.generated == f.charged == 0
    requires ms.Ready() && ms.cfg == cfg.mem && ms.state == ColdCaches(cfg.mem) && f.Repr !! ms.Repr
    modifies f.Repr, ms.Repr
    ensures InStep(f, p) && ms.Ready()
    ensures Reached(cfg, f.S, f.pen, PS.Sim(p, ms.state)) && Ended(cfg, f.S, f.pen, p)
  {
    hide *;
    p := Begin(cfg, f, ms);
    var over := false;
    var going := Test(cfg, f, p, over);
    while going
      invariant InStep(f, p) && ms.Ready() && ValidHierarchy(cfg.mem) && |f.pen| == |f.S|
      invariant Reached(cfg, f.S, f.pen, PS.Sim(p, ms.state))
      invariant going ==> !Done(p, |f.S|) && InNet(cfg, f.S, f.pen, p) && p.cycles <= PS.Net(cfg, |f.S|)
      invariant !going ==> Ended(cfg, f.S, f.pen, p)
      decreases going, PS.Net(cfg, |f.S|) - p.cycles
    {
      p, over := Iterate(cfg, f, ms, p);
      going := Test(cfg, f, p, over);
    }
  }

  lemma StartReached(c: PS.PipeConfig, S: seq<Inst>, pen: seq<nat>)
    requires |pen| == |S| && ValidHierarchy(c.mem)
    ensures Reached(c, S, pen, PS.Sim(Start(), ColdCaches(c.mem))) && InNet(c, S, pen, Start())
    ensures Ordered(Start(), |S|)
  {
  }

  ghost predicate InNet(c: PS.PipeConfig, S: seq<Inst>, pen: seq<nat>, p: Pipe)
    requires |pen| == |S| && ValidHierarchy(c.mem)
  {
    p.cycles <= PS.Net(c, |S|) && !PS.OverNet(c, S, pen, p.cycles)
  }

  ghost predicate Ended(c: PS.PipeConfig, S: seq<Inst>, pen: seq<nat>, p: Pipe)
    requires |pen| == |S| && ValidHierarchy(c.mem)
  {
    Done(p, |S|) || PS.OverNet(c, S, pen, p.cycles)
  }

  datatype PipeStats<C> = PipeStats(cycles: nat, stalls: Stalls, caches: CacheStats, report: Report<C>)

  datatype CacheStats = CacheStats(icAccesses: nat, icMisses: nat, dcAccesses: nat, dcMisses: nat, l2Accesses: nat, l2Misses: nat)

  method CacheReport(ms: MemorySystem) returns (r: CacheStats)
    requires ms.Ready()
    ensures var s := ms.state;
            r == CacheStats(s.ic.accesses, s.ic.misses, s.dc.accesses, s.dc.misses, s.l2.accesses, s.l2.misses)
  {
    assert MemorySystem.Unlock(0);
    r := CacheStats(ms.ic.accesses, ms.ic.misses, ms.dc.accesses, ms.dc.misses, ms.l2.accesses, ms.l2.misses);
  }

  method TwoCaches(a: CM.Config, b: CM.Config) returns (x: CacheUnit.Cache, y: CacheUnit.Cache)
    requires CM.ValidConfig(a) && CM.ValidConfig(b)
    ensures x.Valid() && x.cfg == a && x.state == CM.Init(a) && fresh(MemorySystem.Part(x))
    ensures y.Valid() && y.cfg == b && y.state == CM.Init(b) && fresh(MemorySystem.Part(y))
    ensures MemorySystem.Part(x) !! MemorySystem.Part(y)
  {
    x := new CacheUnit.Cache(a);
    y := new CacheUnit.Cache(b);
  }

  method NewMemory(cfg: Hierarchy) returns (ms: MemorySystem)
    requires ValidHierarchy(cfg)
    ensures ms.Ready() && fresh(ms.Repr) && ms.cfg == cfg && ms.state == ColdCaches(cfg)
  {
    var ic, dc := TwoCaches(cfg.icache, cfg.dcache);
    var l2 := new CacheUnit.Cache(cfg.l2);
    ms := new MemorySystem(cfg, ic, dc, l2);
  }

  /** Structural timing of the program the CPU runs from c. */
  method PipeRun<C>(exec: C -> Executed<C>, c: C, limit: nat, cfg: PS.PipeConfig, b: PredictorConfig) returns (st: PipeStats<C>)
    requires ValidHierarchy(cfg.mem) && 1 <= limit
    ensures var S := Stream(exec, c, limit); var pen := StreamPenalties(b, S);
            && PS.Exits(cfg, S, pen, st.cycles)
            && var m := PS.Run(cfg, S, pen, st.cycles);
               && st.stalls == m.pipe.stalls
               && st.caches == CacheStats(m.caches.ic.accesses, m.caches.ic.misses, m.caches.dc.accesses,
                                          m.caches.dc.misses, m.caches.l2.accesses, m.caches.l2.misses)
               && st.report.instructions == m.pipe.next && st.report.cpu == CpuAfter(exec, c, m.pipe.next)
               && (m.pipe.next == Fetched(m.pipe) == |S| ==> st.report == ReportOf(exec, c, limit, b))
  {
    var f := new Front(exec, c, limit, b);
    var ms := NewMemory(cfg.mem);
    var p := CycleLoop(cfg, f, ms);
    var report := f.Summary();
    var caches := CacheReport(ms);
    st := PipeStats(p.cycles, p.stalls, caches, report);
  }
}
