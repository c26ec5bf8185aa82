/** The five-stage pipeline when every instruction's fetch and data access has a cost of its own: it is the cache-free
    pipeline in which fetch costs are bubbles ahead of their instruction, held still while a data access is waited for. */
module CostedPipeline {
  import opened Arith
  import opened InstStream
  import opened Pipeline
  import PR = PipelineRefinement
  import SB = Scoreboard

  /** A fetch that does not hit costs the cycle in which it is found at least; a data access may cost none. */
  function Waited(cost: int): nat { if cost < 0 then 0 else Max(1, cost) }

  function Held(cost: int): nat { if cost < 0 then 0 else cost }

  /** The cycles for which the data accesses of the first k instructions hold the pipe. */
  function HeldSum(dc: seq<int>, k: nat): nat
    requires k <= |dc|
  {
    if k == 0 then 0 else HeldSum(dc, k - 1) + Held(dc[k - 1])
  }

  predicate Sizes(S: seq<Inst>, pen: seq<nat>, fc: seq<int>, dc: seq<int>) { |S| == |pen| == |fc| == |dc| }

  function DataCost(dc: seq<int>, p: Pipe): int {
    if p.memStall <= 0 && 0 <= p.ex < |dc| then dc[p.ex] else HIT
  }

  function FetchCost(fwd: bool, S: seq<Inst>, fc: seq<int>, p: Pipe): int
    requires InStream(p, |S|) && |fc| == |S|
  {
    if TakesNext(fwd, S, p) then fc[p.next] else HIT
  }

  function Turn(fwd: bool, S: seq<Inst>, pen: seq<nat>, fc: seq<int>, dc: seq<int>, p: Pipe): (q: Pipe)
    requires Sizes(S, pen, fc, dc) && Ordered(p, |S|)
    ensures Ordered(q, |S|) && q.cycles == p.cycles + 1
  {
    OrderedInStream(p, |S|);
    CycleKeepsOrder(fwd, S, pen, p, DataCost(dc, p), FetchCost(fwd, S, fc, p));
    Cycle(fwd, S, pen, p, DataCost(dc, p), FetchCost(fwd, S, fc, p))
  }

  /** The pipeline after k cycles. */
  function CostRun(fwd: bool, S: seq<Inst>, pen: seq<nat>, fc: seq<int>, dc: seq<int>, k: nat): (p: Pipe)
    requires Sizes(S, pen, fc, dc)
    ensures Ordered(p, |S|) && p.cycles == k
  {
    if k == 0 then Start() else Turn(fwd, S, pen, fc, dc, CostRun(fwd, S, pen, fc, dc, k - 1))
  }

  // ----- The cache-free pipeline it corresponds to -----

  function Lead(fc: seq<int>, i: nat): nat { if i < |fc| then Waited(fc[i]) else 0 }

  /** The wait for instruction i + 1 counts as bubbles behind instruction i. */
  function Stretched(pen: seq<nat>, fc: seq<int>): (r: seq<nat>)
    ensures |r| == |pen|
  {
    seq(|pen|, i requires 0 <= i < |pen| => pen[i] + Lead(fc, i + 1))
  }

  /** What is left of the wait for instruction 0, before which the cache-free pipeline has not started. */
  function Unstarted(fc: seq<int>, p: Pipe): nat {
    if p.next == 0 then Lead(fc, 0) else if p.pending == 0 then Positive(p.fetchStall) else 0
  }

  function PlainCtrl(fc: seq<int>, p: Pipe): nat {
    if p.next == 0 || p.pending == 0 then 0
    else if p.pending >= 0 then Positive(p.fetchStall) else p.ctrl + Lead(fc, p.next)
  }

  /** p is q with costs: the same latches, the same data stalls, and q's bubbles are p's bubbles and waits. */
  ghost predicate Mirrors(fc: seq<int>, p: Pipe, q: Pipe) {
    && q.wb == p.wb && q.mem == p.mem && q.ex == p.ex && q.id == p.id && q.ifl == p.ifl && q.retired == p.retired
    && q.pending == EMPTY && q.fetchStall == 0 && q.memStall == 0 && q.stalls.data == p.stalls.data
    && q.next == (if p.pending >= 0 then p.pending else p.next) && q.ctrl == PlainCtrl(fc, p)
  }

  /** Cycles in which the cache-free pipeline stands still. */
  predicate Still(fc: seq<int>, p: Pipe) { p.memStall > 0 || Unstarted(fc, p) > 0 }

  lemma StillMirrors(fwd: bool, S: seq<Inst>, pen: seq<nat>, fc: seq<int>, dc: seq<int>, p: Pipe, q: Pipe)
    requires Sizes(S, pen, fc, dc) && 0 < |S| && Ordered(p, |S|) && Mirrors(fc, p, q) && Still(fc, p)
    requires p.next == 0 ==> p.ctrl == 0 && p.fetchStall == 0
    ensures Mirrors(fc, Turn(fwd, S, pen, fc, dc, p), q)
  {
  }

  /** What is known of a pending fetch. */
  ghost predicate Pending(p: Pipe, n: nat) {
    && InStream(p, n) && (p.fetchStall > 0 ==> p.pending >= 0)
    && (p.pending >= 0 ==> p.ctrl == 0 && p.next == p.pending + 1)
  }

  lemma OrderedPending(p: Pipe, n: nat)
    requires Ordered(p, n)
    ensures Pending(p, n)
  {
  }

  lemma StretchedAt(pen: seq<nat>, fc: seq<int>, i: nat)
    requires i < |pen|
    ensures Stretched(pen, fc)[i] == pen[i] + Lead(fc, i + 1)
  {
  }

  /** What the fetch stage does to the bubbles: taking a wait for bubbles changes nothing it delivers. */
  lemma FetchMirrors(pen: seq<nat>, fc: seq<int>, p: Pipe, q: Pipe, iCost: int)
    requires |fc| == |pen| && 0 < |pen| && Pending(p, |pen|) && Mirrors(fc, p, q) && Unstarted(fc, p) == 0
    requires p.next == 0 ==> p.ctrl == 0 && p.fetchStall == 0
    requires p.ctrl == 0 && p.fetchStall <= 0 && p.pending < 0 && p.next < |pen| ==> iCost == fc[p.next]
    ensures InStream(p, |pen|) && InStream(q, |pen|)
    ensures Mirrors(fc, Fetch(pen, p, iCost), Fetch(Stretched(pen, fc), q, HIT))
  {
    if q.next < |pen| {
      StretchedAt(pen, fc, q.next);
    }
    hide Stretched;
  }

  lemma ShiftMirrors(fc: seq<int>, p: Pipe, q: Pipe, dCost: int)
    requires Mirrors(fc, p, q) && Unstarted(fc, p) == 0 && (p.next == 0 ==> p.ctrl == 0 && p.fetchStall == 0)
    ensures var p', q' := Shift(p, dCost), Shift(q, HIT);
            Mirrors(fc, p', q') && Unstarted(fc, p') == 0 && (p'.next == 0 ==> p'.ctrl == 0 && p'.fetchStall == 0)
    ensures var p', q' := Bubble(p, dCost), Bubble(q, HIT); Mirrors(fc, p', q')
  {
  }

  lemma FrontUnmoved(p: Pipe, dCost: int)
    ensures var s := Shift(p, dCost); s.ctrl == p.ctrl && s.fetchStall == p.fetchStall && s.pending == p.pending && s.next == p.next
  {
  }

  /** A turn in which nothing holds the pipe. */
  lemma Moving(fwd: bool, S: seq<Inst>, pen: seq<nat>, fc: seq<int>, dc: seq<int>, p: Pipe)
    requires Sizes(S, pen, fc, dc) && Ordered(p, |S|) && p.memStall <= 0
    ensures InStream(p, |S|) && Ordered(Shift(p, DataCost(dc, p)), |S|) && InStream(Shift(p, DataCost(dc, p)), |S|)
    ensures Turn(fwd, S, pen, fc, dc, p)
         == if NeedsStall(fwd, S, p.id, p.ex, p.mem) then Bubble(p, DataCost(dc, p))
            else Fetch(pen, Shift(p, DataCost(dc, p)), FetchCost(fwd, S, fc, p))
    ensures !NeedsStall(fwd, S, p.id, p.ex, p.mem) && p.ctrl == 0 && p.fetchStall <= 0 && p.pending < 0 && p.next < |S|
            ==> FetchCost(fwd, S, fc, p) == fc[p.next]
  {
    OrderedInStream(p, |S|);
    ShiftKeepsOrder(p, |S|, DataCost(dc, p));
    OrderedInStream(Shift(p, DataCost(dc, p)), |S|);
    hide NeedsStall, Shift, Fetch, Bubble, Ordered, DataCost;
  }

  lemma MovesMirror(fwd: bool, S: seq<Inst>, pen: seq<nat>, fc: seq<int>, dc: seq<int>, p: Pipe, q: Pipe)
    requires Sizes(S, pen, fc, dc) && 0 < |S| && Ordered(p, |S|) && Ordered(q, |S|) && Mirrors(fc, p, q) && !Still(fc, p)
    requires p.next == 0 ==> p.ctrl == 0 && p.fetchStall == 0
    ensures InStream(q, |S|) && Mirrors(fc, Turn(fwd, S, pen, fc, dc, p), Cycle(fwd, S, Stretched(pen, fc), q, HIT, HIT))
  {
    assert q.memStall == 0 && q.id == p.id && q.ex == p.ex && q.mem == p.mem;
    hide NeedsStall, Shift, Fetch, Bubble, Ordered, Mirrors, Stretched, DataCost, FetchCost, Unstarted, Pending, Turn;
    OrderedInStream(q, |S|);
    var d, f := DataCost(dc, p), FetchCost(fwd, S, fc, p);
    Moving(fwd, S, pen, fc, dc, p);
    ShiftMirrors(fc, p, q, d);
    if !NeedsStall(fwd, S, p.id, p.ex, p.mem) {
      FrontUnmoved(p, d);
      OrderedPending(Shift(p, d), |S|);
      FetchMirrors(pen, fc, Shift(p, d), Shift(q, HIT), f);
    }
  }

  // ----- Whole runs -----

  /** How many of the first k cycles the cache-free pipeline stood still. */
  function Stood(fwd: bool, S: seq<Inst>, pen: seq<nat>, fc: seq<int>, dc: seq<int>, k: nat): (n: nat)
    requires Sizes(S, pen, fc, dc)
    ensures n <= k
  {
    if k == 0 then 0
    else Stood(fwd, S, pen, fc, dc, k - 1) + if Still(fc, CostRun(fwd, S, pen, fc, dc, k - 1)) then 1 else 0
  }

  /** Data accesses hold the pipe only with their instruction in MEM, and nothing is stalled before the first fetch. */
  ghost predicate Sound(p: Pipe) {
    (p.memStall > 0 ==> p.mem >= 0) && (p.next == 0 ==> p.ctrl == 0 && p.fetchStall == 0)
  }

  lemma TurnSound(fwd: bool, S: seq<Inst>, pen: seq<nat>, fc: seq<int>, dc: seq<int>, p: Pipe)
    requires Sizes(S, pen, fc, dc) && Ordered(p, |S|) && Sound(p)
    ensures Sound(Turn(fwd, S, pen, fc, dc, p))
  {
    hide NeedsStall;
  }

  /** Standing still, gone by or yet to come, is what the accesses begun so far cost. */
  ghost predicate Spent(fc: seq<int>, dc: seq<int>, p: Pipe, stood: nat) {
    && EnteredMem(p) <= |dc|
    && stood + Positive(p.memStall) + Unstarted(fc, p) == HeldSum(dc, EnteredMem(p)) + Lead(fc, 0)
  }

  lemma StillSpends(fwd: bool, S: seq<Inst>, pen: seq<nat>, fc: seq<int>, dc: seq<int>, p: Pipe, stood: nat)
    requires Sizes(S, pen, fc, dc) && 0 < |S| && Ordered(p, |S|) && Sound(p) && Spent(fc, dc, p, stood) && Still(fc, p)
    ensures Spent(fc, dc, Turn(fwd, S, pen, fc, dc, p), stood + 1)
  {
    hide HeldSum;
  }

  /** Fetching in a moving cycle leaves no wait for instruction 0. */
  lemma FetchStarts(pen: seq<nat>, fc: seq<int>, p: Pipe, iCost: int)
    requires |fc| == |pen| && 0 < |pen| && InStream(p, |pen|) && Unstarted(fc, p) == 0 && (p.next == 0 ==> p.ctrl == 0 && p.fetchStall == 0)
    requires p.ctrl == 0 && p.fetchStall <= 0 && p.pending < 0 && p.next < |pen| ==> iCost == fc[p.next]
    requires p.pending >= 0 ==> p.next != 0
    ensures Unstarted(fc, Fetch(pen, p, iCost)) == 0
  {
  }

  /** What enters MEM begins to be waited for. */
  lemma EnterSpends(dc: seq<int>, p: Pipe)
    requires Ordered(p, |dc|) && p.memStall <= 0
    ensures var d := DataCost(dc, p);
            && EnteredMem(Bubble(p, d)) == EnteredMem(Shift(p, d)) == EnteredEx(p) <= |dc|
            && Positive(Bubble(p, d).memStall) == Positive(Shift(p, d).memStall)
            && HeldSum(dc, EnteredEx(p)) == HeldSum(dc, EnteredMem(p)) + Positive(Shift(p, d).memStall)
  {
    assert p.ex >= 0 ==> p.ex == EnteredMem(p);
  }

  lemma SameSpending(fc: seq<int>, p: Pipe, d: int)
    ensures Unstarted(fc, Bubble(p, d)) == Unstarted(fc, Shift(p, d)) == Unstarted(fc, p)
  {
  }

  lemma MovesSpend(fwd: bool, S: seq<Inst>, pen: seq<nat>, fc: seq<int>, dc: seq<int>, p: Pipe, stood: nat)
    requires Sizes(S, pen, fc, dc) && 0 < |S| && Ordered(p, |S|) && Sound(p) && Spent(fc, dc, p, stood) && !Still(fc, p)
    ensures Spent(fc, dc, Turn(fwd, S, pen, fc, dc, p), stood)
  {
    OrderedPending(p, |S|);
    hide NeedsStall, FetchCost, DataCost, Fetch, Shift, Bubble, Ordered, HeldSum, Unstarted, Turn;
    var d, f := DataCost(dc, p), FetchCost(fwd, S, fc, p);
    Moving(fwd, S, pen, fc, dc, p);
    EnterSpends(dc, p);
    SameSpending(fc, p, d);
    if !NeedsStall(fwd, S, p.id, p.ex, p.mem) {
      FrontUnmoved(p, d);
      FetchFrame(pen, Shift(p, d), f);
      FetchStarts(pen, fc, Shift(p, d), f);
    }
  }

  /** After k cycles the pipeline is where the cache-free one is after those of them that did not stand still. */
  lemma {:induction false} CostRunMirrors(fwd: bool, S: seq<Inst>, pen: seq<nat>, fc: seq<int>, dc: seq<int>, k: nat)
    requires Sizes(S, pen, fc, dc) && 0 < |S|
    ensures var p, n := CostRun(fwd, S, pen, fc, dc, k), Stood(fwd, S, pen, fc, dc, k);
            Sound(p) && Spent(fc, dc, p, n) && Mirrors(fc, p, PR.HitRun(fwd, S, Stretched(pen, fc), k - n))
  {
    hide Turn, Cycle, Ordered, Mirrors, Spent, Sound, Still;
    if k == 0 {
      StartMirrors(fc, dc);
    } else {
      CostRunMirrors(fwd, S, pen, fc, dc, k - 1);
      var p, n := CostRun(fwd, S, pen, fc, dc, k - 1), Stood(fwd, S, pen, fc, dc, k - 1);
      var q := PR.HitRun(fwd, S, Stretched(pen, fc), k - 1 - n);
      SoundStart(p);
      TurnSound(fwd, S, pen, fc, dc, p);
      if Still(fc, p) {
        StillMirrors(fwd, S, pen, fc, dc, p, q);
        StillSpends(fwd, S, pen, fc, dc, p, n);
      } else {
        MovesMirror(fwd, S, pen, fc, dc, p, q);
        MovesSpend(fwd, S, pen, fc, dc, p, n);
      }
    }
  }

  lemma StartMirrors(fc: seq<int>, dc: seq<int>)
    ensures Sound(Start()) && Spent(fc, dc, Start(), 0) && Mirrors(fc, Start(), Start())
  {
    assert HeldSum(dc, 0) == 0;
    hide HeldSum, Lead;
  }

  lemma SoundStart(p: Pipe)
    requires Sound(p)
    ensures p.next == 0 ==> p.ctrl == 0 && p.fetchStall == 0
  {
  }

  /** What the run takes: the cache-free pipeline's cycles behind the waits, the first wait, and the data accesses. */
  function TotalCycles(fwd: bool, S: seq<Inst>, pen: seq<nat>, fc: seq<int>, dc: seq<int>): int
    requires Sizes(S, pen, fc, dc)
  {
    SB.Cycles(SB.Config(1, fwd), S, Stretched(pen, fc)) + Lead(fc, 0) + HeldSum(dc, |dc|)
  }

  lemma {:induction false} HeldSumGrows(dc: seq<int>, j: nat, k: nat)
    requires j <= k <= |dc|
    ensures HeldSum(dc, j) <= HeldSum(dc, k)
  {
    if j < k {
      HeldSumGrows(dc, j, k - 1);
    }
  }

  /** When everything has retired, every wait is over. */
  lemma SettledWhenDone(fc: seq<int>, dc: seq<int>, p: Pipe, stood: nat)
    requires 0 < |dc| && Ordered(p, |dc|) && Sound(p) && Spent(fc, dc, p, stood) && Done(p, |dc|)
    ensures stood == HeldSum(dc, |dc|) + Lead(fc, 0)
  {
    hide HeldSum, Lead;
  }

  lemma StoodWithin(fc: seq<int>, dc: seq<int>, p: Pipe, stood: nat)
    requires Spent(fc, dc, p, stood)
    ensures stood <= HeldSum(dc, |dc|) + Lead(fc, 0)
  {
    HeldSumGrows(dc, EnteredMem(p), |dc|);
    hide HeldSum, Lead;
  }

  lemma DoneMirrors(fc: seq<int>, p: Pipe, q: Pipe, n: nat)
    requires Ordered(p, n) && Mirrors(fc, p, q) && 0 < n
    ensures Done(p, n) <==> Done(q, n)
    ensures p.stalls.data == q.stalls.data
  {
  }

  /** For all costs of fetches and data accesses the pipeline has drained after k cycles exactly if the width-1
      scoreboard behind the stretched bubbles, the first wait and all data waits together need at most k. */
  lemma CostRunIsScoreboard(fwd: bool, S: seq<Inst>, pen: seq<nat>, fc: seq<int>, dc: seq<int>, k: nat)
    requires Sizes(S, pen, fc, dc) && 0 < |S|
    ensures Done(CostRun(fwd, S, pen, fc, dc, k), |S|) <==> TotalCycles(fwd, S, pen, fc, dc) <= k
  {
    hide CostRun, Stood, PR.HitRun, HeldSum, Lead, Ordered, Mirrors, Sound, Spent, Done, SB.Cycles;
    var p, n := CostRun(fwd, S, pen, fc, dc, k), Stood(fwd, S, pen, fc, dc, k);
    CostRunMirrors(fwd, S, pen, fc, dc, k);
    PR.PipelineIsScoreboard(fwd, S, Stretched(pen, fc), k - n);
    StoodWithin(fc, dc, p, n);
    DoneMirrors(fc, p, PR.HitRun(fwd, S, Stretched(pen, fc), k - n), |S|);
    if Done(p, |S|) {
      SettledWhenDone(fc, dc, p, n);
    }
  }

  /** Of the stalls the data hazards are those of the cache-free pipeline behind the same bubbles and waits. */
  lemma SameDataStalls(fwd: bool, S: seq<Inst>, pen: seq<nat>, fc: seq<int>, dc: seq<int>, k: nat)
    requires Sizes(S, pen, fc, dc) && 0 < |S|
    ensures CostRun(fwd, S, pen, fc, dc, k).stalls.data
         == PR.HitRun(fwd, S, Stretched(pen, fc), k - Stood(fwd, S, pen, fc, dc, k)).stalls.data
  {
    hide CostRun, Stood, PR.HitRun, Ordered, Mirrors, Sound, Spent;
    CostRunMirrors(fwd, S, pen, fc, dc, k);
    DoneMirrors(fc, CostRun(fwd, S, pen, fc, dc, k), PR.HitRun(fwd, S, Stretched(pen, fc), k - Stood(fwd, S, pen, fc, dc, k)), |S|);
  }
}
