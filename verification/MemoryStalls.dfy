/** Memory stalls are the cost of the misses, cycle for cycle. */
module MemoryStalls {
  import opened Arith
  import opened InstStream
  import opened Pipeline
  import opened MemoryHierarchy
  import opened PipelineSim
  import CM = CacheModel

  /** What the misses so far cost: behind a second level its hits and misses, else the penalty of each first level. */
  function MissCost(c: Hierarchy, s: Caches): nat {
    if c.l2.enabled then Times(Hits(s.l2), c.l2.hitLatency) + Times(s.l2.misses, c.l2.missPenalty)
    else Times(s.ic.misses, c.icache.missPenalty) + Times(s.dc.misses, c.dcache.missPenalty)
  }

  function Hits(s: CM.State): nat { if s.misses <= s.accesses then s.accesses - s.misses else 0 }

  /** Whether the cycle from m on fetches, misses, and is answered in no time. */
  function FreeIn(c: PipeConfig, S: seq<Inst>, m: Sim): nat
    requires ValidSim(c, S, m) && InStream(m.pipe, |S|)
  {
    var p := m.pipe;
    var d := if p.ex >= 0 then DataAccess(c.mem, m.caches, S[p.ex]) else Charged(HIT, m.caches);
    if p.memStall <= 0 && !NeedsStall(c.forwarding, S, p.id, p.ex, p.mem)
       && FetchCharge(c.mem, S, Shift(p, d.cost), d.caches).cost == 0 then 1 else 0
  }

  /** The fetch misses of k cycles that were answered in no time: each still costs the cycle in which it is found. */
  function FreeFetches(c: PipeConfig, S: seq<Inst>, pen: seq<nat>, k: nat): nat
    requires |pen| == |S| && ValidHierarchy(c.mem)
  {
    if k == 0 then 0
    else
      OrderedInStream(Run(c, S, pen, k - 1).pipe, |S|);
      FreeFetches(c, S, pen, k - 1) + FreeIn(c, S, Run(c, S, pen, k - 1))
  }

  /** What answers a fetch miss takes a cycle at least. */
  predicate TakesTime(c: Hierarchy) {
    if c.l2.enabled then 1 <= c.l2.hitLatency && 1 <= c.l2.missPenalty else 1 <= c.icache.missPenalty
  }

  ghost predicate Counted(s: Caches) { s.l2.misses <= s.l2.accesses }

  /** Stall cycles spent and still to be spent are the cost of the misses. */
  ghost predicate Paid(c: Hierarchy, p: Pipe, s: Caches, free: nat) {
    && Counted(s) && (p.memStall > 0 ==> p.mem >= 0)
    && p.stalls.memory + Positive(p.memStall) + Positive(p.fetchStall) == MissCost(c, s) + free
  }

  lemma OneMoreTimes(n: nat, b: nat)
    ensures Times(n + 1, b) == Times(n, b) + b
  {
  }

  lemma ProbeCost(c: Hierarchy, l1: CM.Config, s: CM.State, l2: CM.State, addr: nat)
    requires ValidHierarchy(c) && CM.ValidConfig(l1) && CM.ValidState(l1, s) && CM.ValidState(c.l2, l2) && l2.misses <= l2.accesses
    ensures var r := Probe(c, l1, s, l2, addr);
            && r.l2.misses <= r.l2.accesses
            && r.l1.misses == s.misses + (if r.cost < 0 then 0 else 1)
            && (!c.l2.enabled ==> r.l2 == l2 && (r.cost >= 0 ==> r.cost == l1.missPenalty))
            && (c.l2.enabled ==>
                  if r.cost < 0 then Hits(r.l2) == Hits(l2) && r.l2.misses == l2.misses
                  else if r.l2.misses == l2.misses then Hits(r.l2) == Hits(l2) + 1 && r.cost == c.l2.hitLatency
                  else Hits(r.l2) == Hits(l2) && r.l2.misses == l2.misses + 1 && r.cost == c.l2.missPenalty)
  {
  }

  lemma DataCost(c: Hierarchy, s: Caches, d: Inst)
    requires ValidHierarchy(c) && ValidCaches(c, s) && Counted(s)
    ensures var r := DataAccess(c, s, d);
            Counted(r.caches) && MissCost(c, r.caches) == MissCost(c, s) + Positive(r.cost)
  {
    if d.accessesMem {
      ProbeCost(c, c.dcache, s.dc, s.l2, d.memAddr);
      hide Probe, Times, ValidCaches;
      OneMoreTimes(Hits(s.l2), c.l2.hitLatency);
      OneMoreTimes(s.l2.misses, c.l2.missPenalty);
      OneMoreTimes(s.dc.misses, c.dcache.missPenalty);
    }
  }

  lemma FetchCost(c: Hierarchy, s: Caches, d: Inst)
    requires ValidHierarchy(c) && ValidCaches(c, s) && Counted(s)
    ensures var r := InstAccess(c, s, d);
            Counted(r.caches) && MissCost(c, r.caches) == MissCost(c, s) + Positive(r.cost)
  {
    ProbeCost(c, c.icache, s.ic, s.l2, d.pc);
    hide Probe, Times, ValidCaches;
    OneMoreTimes(Hits(s.l2), c.l2.hitLatency);
    OneMoreTimes(s.l2.misses, c.l2.missPenalty);
    OneMoreTimes(s.ic.misses, c.icache.missPenalty);
  }

  lemma BackEndPays(p: Pipe, dCost: int)
    requires p.memStall <= 0
    ensures var q := BackEnd(p, dCost);
            && q.stalls == p.stalls && q.fetchStall == p.fetchStall && (q.memStall > 0 ==> q.mem >= 0)
            && Positive(q.memStall) == if p.ex >= 0 then Positive(dCost) else 0
  {
  }

  lemma FetchPays(pen: seq<nat>, p: Pipe, iCost: int)
    requires InStream(p, |pen|)
    ensures var q := Fetch(pen, p, iCost);
            var taken := p.ctrl == 0 && p.fetchStall <= 0 && p.pending < 0 && p.next < |pen|;
            && q.memStall == p.memStall && q.mem == p.mem
            && q.stalls.memory + Positive(q.fetchStall)
               == p.stalls.memory + Positive(p.fetchStall) + if taken && iCost >= 0 then Max(1, iCost) else 0
  {
  }

  lemma ChargePays(c: Hierarchy, S: seq<Inst>, p: Pipe, s: Caches)
    requires ValidHierarchy(c) && ValidCaches(c, s) && Counted(s)
    ensures var r := FetchCharge(c, S, p, s);
            var taken := p.ctrl == 0 && p.fetchStall <= 0 && p.pending < 0 && p.next < |S|;
            && Counted(r.caches) && MissCost(c, r.caches) == MissCost(c, s) + Positive(r.cost) && (!taken ==> r.cost == HIT)
  {
    hide MissCost, InstAccess, ValidCaches;
    if p.ctrl == 0 && p.fetchStall <= 0 && p.pending < 0 && p.next < |S| {
      FetchCost(c, s, S[p.next]);
    }
  }

  lemma StepPays(c: PipeConfig, S: seq<Inst>, pen: seq<nat>, m: Sim, free: nat)
    requires |pen| == |S| && ValidSim(c, S, m) && Paid(c.mem, m.pipe, m.caches, free)
    ensures InStream(m.pipe, |S|)
    ensures Paid(c.mem, Step(c, S, pen, m).pipe, Step(c, S, pen, m).caches, free + FreeIn(c, S, m))
  {
    StepCases(c, S, pen, m);
    hide Step, MissCost, ValidCaches, Ordered, InStream, NeedsStall, Fetch, DataAccess, FetchCharge;
    var p, s := m.pipe, m.caches;
    if p.memStall <= 0 {
      var d := if p.ex >= 0 then DataAccess(c.mem, s, S[p.ex]) else Charged(HIT, s);
      if p.ex >= 0 {
        DataCost(c.mem, s, S[p.ex]);
      }
      BackEndPays(p, d.cost);
      if !NeedsStall(c.forwarding, S, p.id, p.ex, p.mem) {
        ChargePays(c.mem, S, Shift(p, d.cost), d.caches);
        FetchPays(pen, Shift(p, d.cost), FetchCharge(c.mem, S, Shift(p, d.cost), d.caches).cost);
      }
    }
  }

  lemma ColdPays(c: Hierarchy)
    requires ValidHierarchy(c)
    ensures Paid(c, Start(), ColdCaches(c), 0)
  {
  }

  lemma {:induction false} RunPays(c: PipeConfig, S: seq<Inst>, pen: seq<nat>, k: nat)
    requires |pen| == |S| && ValidHierarchy(c.mem)
    ensures Paid(c.mem, Run(c, S, pen, k).pipe, Run(c, S, pen, k).caches, FreeFetches(c, S, pen, k))
  {
    hide Step, Paid, FreeIn, ValidSim, ValidHierarchy;
    if k == 0 {
      ColdPays(c.mem);
    } else {
      RunPays(c, S, pen, k - 1);
      assert ValidSim(c, S, Run(c, S, pen, k - 1));
      StepPays(c, S, pen, Run(c, S, pen, k - 1), FreeFetches(c, S, pen, k - 1));
    }
  }

  lemma DonePaid(c: Hierarchy, p: Pipe, s: Caches, n: nat, free: nat)
    requires Ordered(p, n) && Done(p, n) && Paid(c, p, s, free)
    ensures p.stalls.memory == MissCost(c, s) + free
  {
    hide MissCost;
  }

  /** Once a program has drained, the memory stalls are exactly what its misses cost, and a cycle for every fetch miss that was
      answered in no time: nothing overlaps and nothing is lost. */
  lemma StallsAreMisses(c: PipeConfig, S: seq<Inst>, pen: seq<nat>, k: nat)
    requires |pen| == |S| && ValidHierarchy(c.mem) && Done(Run(c, S, pen, k).pipe, |S|)
    ensures Run(c, S, pen, k).pipe.stalls.memory == MissCost(c.mem, Run(c, S, pen, k).caches) + FreeFetches(c, S, pen, k)
  {
    RunPays(c, S, pen, k);
    hide Paid, MissCost, Done, Run, Ordered, FreeFetches;
    DonePaid(c.mem, Run(c, S, pen, k).pipe, Run(c, S, pen, k).caches, |S|, FreeFetches(c, S, pen, k));
  }

  lemma NothingFree(c: PipeConfig, S: seq<Inst>, m: Sim)
    requires ValidSim(c, S, m) && InStream(m.pipe, |S|) && TakesTime(c.mem)
    ensures FreeIn(c, S, m) == 0
  {
    hide CM.Hits, CM.Access, NeedsStall, Ordered, InStream, DataAccess, ValidCaches;
  }

  /** There are none if every answer takes a cycle. */
  lemma {:induction false} NoFreeFetches(c: PipeConfig, S: seq<Inst>, pen: seq<nat>, k: nat)
    requires |pen| == |S| && ValidHierarchy(c.mem) && TakesTime(c.mem)
    ensures FreeFetches(c, S, pen, k) == 0
  {
    hide Run, FreeIn, TakesTime, ValidHierarchy;
    if k > 0 {
      NoFreeFetches(c, S, pen, k - 1);
      OrderedInStream(Run(c, S, pen, k - 1).pipe, |S|);
      NothingFree(c, S, Run(c, S, pen, k - 1));
    }
  }
}
