/** With the caches off, the cycle-by-cycle pipeline takes exactly the cycles of the width-1 scoreboard: both
    compute the one schedule in which every instruction enters EX as soon as nothing holds it back. */
module PipelineRefinement {
  import opened InstStream
  import opened Pipeline
  import SB = Scoreboard

  // ----- The schedule both models compute -----

  /** Cycles from a producer's EX to the first EX that may use its result. */
  function Delay(fwd: bool, d: Inst): int {
    if fwd then (if d.isLoad then 2 else 1) else 3
  }

  /** Some operand of instruction i is not ready for an EX in cycle c; e[k] is the EX cycle of instruction k. */
  ghost predicate Blocked(fwd: bool, S: seq<Inst>, e: seq<int>, i: nat, c: int)
    requires i < |S| == |e|
  {
    exists k: nat, s: Slot :: RawEdge(S, k, i, s) && c < e[k] + Delay(fwd, S[k])
  }

  /** When instruction i - 1 entered EX, and the bubbles behind it; fetch starts as if behind a one-bubble instruction. */
  function PrevEx(e: seq<int>, i: nat): int
    requires i <= |e|
  {
    if i == 0 then 1 else e[i - 1]
  }

  function PrevPen(pen: seq<nat>, i: nat): nat
    requires i <= |pen|
  {
    if i == 0 then 1 else pen[i - 1]
  }

  /** An instruction enters EX in the first cycle behind its predecessor's bubbles in which nothing blocks it. */
  ghost predicate AsSoonAsPossible(fwd: bool, S: seq<Inst>, pen: seq<nat>, e: seq<int>, i: nat)
    requires i < |S| == |e| == |pen|
  {
    var base := PrevEx(e, i) + PrevPen(pen, i) + 1;
    base <= e[i] && forall c :: base <= c ==> (c < e[i] <==> Blocked(fwd, S, e, i, c))
  }

  ghost predicate Schedule(fwd: bool, S: seq<Inst>, pen: seq<nat>, e: seq<int>) {
    && |S| == |e| == |pen|
    && forall i: nat :: i < |S| ==> AsSoonAsPossible(fwd, S, pen, e, i)
  }

  lemma {:induction false} ScheduleIncreases(fwd: bool, S: seq<Inst>, pen: seq<nat>, e: seq<int>, i: nat, j: nat)
    requires Schedule(fwd, S, pen, e) && i < j < |S|
    ensures e[i] < e[j]
  {
    assert AsSoonAsPossible(fwd, S, pen, e, j);
    if i + 1 < j {
      ScheduleIncreases(fwd, S, pen, e, i, j - 1);
    }
  }

  // ----- The scoreboard at width 1 computes it -----

  function Scalar(fwd: bool): SB.Config { SB.Config(1, fwd) }

  function ScoreboardTimes(fwd: bool, S: seq<Inst>, pen: seq<nat>): (e: seq<int>)
    requires |S| == |pen|
    ensures |e| == |S| && forall i :: 0 <= i < |S| ==> e[i] == SB.Iff(Scalar(fwd), S, pen, i) + 2
  {
    seq(|S|, i requires 0 <= i < |S| => SB.Iff(Scalar(fwd), S, pen, i) + 2)
  }

  lemma BlockBehind(fwd: bool, S: seq<Inst>, pen: seq<nat>, i: nat)
    requires i < |S| == |pen|
    ensures SB.Run(Scalar(fwd), S, pen, i).fetchBlock <= SB.Iff(Scalar(fwd), S, pen, i)
  {
    var s := SB.Run(Scalar(fwd), S, pen, i);
    SB.LatestIsLeastBound(s.ready, S[i].sources, SB.Earliest(Scalar(fwd), s, i), 2);
  }

  lemma EarliestIsBehindPrevious(fwd: bool, S: seq<Inst>, pen: seq<nat>, i: nat)
    requires i < |S| == |pen|
    ensures SB.Earliest(Scalar(fwd), SB.Run(Scalar(fwd), S, pen, i), i) + 2
         == PrevEx(ScoreboardTimes(fwd, S, pen), i) + PrevPen(pen, i) + 1
  {
    if i > 0 {
      BlockBehind(fwd, S, pen, i - 1);
      SB.RunInv(Scalar(fwd), S, pen, i);
    }
  }

  /** An edge's operand is ready when its producer's result is. */
  lemma EdgeReady(fwd: bool, S: seq<Inst>, pen: seq<nat>, k: nat, i: nat, s: Slot)
    requires |S| == |pen| && RawEdge(S, k, i, s)
    ensures SB.Run(Scalar(fwd), S, pen, i).ready[s] == ScoreboardTimes(fwd, S, pen)[k] + Delay(fwd, S[k])
  {
    hide SB.Run, SB.Iff;
    SB.ReadySurvives(Scalar(fwd), S, pen, k, i, s);
  }

  /** An operand that is not ready has an edge to it. */
  lemma EdgeOf(fwd: bool, S: seq<Inst>, pen: seq<nat>, i: nat, s: Slot) returns (k: nat)
    requires i < |S| == |pen| && s in S[i].sources && 0 < SB.Run(Scalar(fwd), S, pen, i).ready[s]
    ensures RawEdge(S, k, i, s)
  {
    hide SB.Run, SB.Iff;
    k := SB.YoungestProducer(Scalar(fwd), S, pen, i, s);
  }

  lemma ReadyBlocks(fwd: bool, S: seq<Inst>, pen: seq<nat>, i: nat, c: int)
    requires i < |S| == |pen| && 0 <= c
    ensures Blocked(fwd, S, ScoreboardTimes(fwd, S, pen), i, c)
        <==> exists s: Slot :: s in S[i].sources && c < SB.Run(Scalar(fwd), S, pen, i).ready[s]
  {
    var ready := SB.Run(Scalar(fwd), S, pen, i).ready;
    var e := ScoreboardTimes(fwd, S, pen);
    hide SB.Run, SB.Iff, ScoreboardTimes, Delay, Produces;
    if Blocked(fwd, S, e, i, c) {
      var k: nat, s: Slot :| RawEdge(S, k, i, s) && c < e[k] + Delay(fwd, S[k]);
      EdgeReady(fwd, S, pen, k, i, s);
      assert s in S[i].sources && c < ready[s];
    }
    if exists s: Slot :: s in S[i].sources && c < ready[s] {
      var s: Slot :| s in S[i].sources && c < ready[s];
      var k := EdgeOf(fwd, S, pen, i, s);
      EdgeReady(fwd, S, pen, k, i, s);
    }
  }

  lemma IssueIsAsSoonAsPossible(fwd: bool, S: seq<Inst>, pen: seq<nat>, i: nat)
    requires i < |S| == |pen|
    ensures AsSoonAsPossible(fwd, S, pen, ScoreboardTimes(fwd, S, pen), i)
  {
    var e, s := ScoreboardTimes(fwd, S, pen), SB.Run(Scalar(fwd), S, pen, i);
    EarliestIsBehindPrevious(fwd, S, pen, i);
    SB.RunInv(Scalar(fwd), S, pen, i);
    SB.LatestIsLeastBound(s.ready, S[i].sources, SB.Earliest(Scalar(fwd), s, i), 2);
    var base := PrevEx(e, i) + PrevPen(pen, i) + 1;
    assert 1 <= base;
    assert e[i] == SB.Issue(Scalar(fwd), s, i, S[i]) + 2;
    forall c | base <= c ensures c < e[i] <==> Blocked(fwd, S, e, i, c) {
      ReadyBlocks(fwd, S, pen, i, c);
    }
  }

  lemma ScoreboardComputesSchedule(fwd: bool, S: seq<Inst>, pen: seq<nat>)
    requires |S| == |pen|
    ensures Schedule(fwd, S, pen, ScoreboardTimes(fwd, S, pen))
  {
    forall i: nat | i < |S| ensures AsSoonAsPossible(fwd, S, pen, ScoreboardTimes(fwd, S, pen), i) {
      IssueIsAsSoonAsPossible(fwd, S, pen, i);
    }
  }

  // ----- The latches follow it -----

  /** The latches hold exactly the instructions the schedule places there in cycle p.cycles. */
  ghost predicate BackTracks(p: Pipe, e: seq<int>) {
    && Ordered(p, |e|) && p.memStall == 0 && p.pending == EMPTY && p.fetchStall == 0
    && (EnteredEx(p) < |e| ==> p.cycles < e[EnteredEx(p)])
    && (p.ex >= 0 ==> e[p.ex] == p.cycles)
    && (p.mem >= 0 ==> e[p.mem] == p.cycles - 1)
    && (p.retired > 0 ==> e[p.retired - 1] <= p.cycles - 2)
  }

  /** d is next into EX, t cycles after its predecessor, whose bubbles number b. */
  ghost predicate FrontTracks(pen: seq<nat>, p: Pipe, d: nat, t: int, b: nat)
    requires d < |pen|
  {
    && 0 <= t
    && if p.id == d then
         b <= t && if pen[d] > 0 then p.ifl == EMPTY && p.ctrl == pen[d] - 1
                   else if d + 1 < |pen| then p.ifl == d + 1 && p.ctrl == pen[d + 1]
                   else p.ctrl == 0
       else
         t < b && p.id == EMPTY && if t == b - 1 then p.ifl == d && p.ctrl == pen[d]
                                   else p.ifl == EMPTY && p.ctrl == b - 2 - t
  }

  ghost predicate Tracks(pen: seq<nat>, p: Pipe, e: seq<int>) {
    && |pen| == |e| && BackTracks(p, e)
    && var d := EnteredEx(p);
       d < |e| ==> FrontTracks(pen, p, d, p.cycles - PrevEx(e, d), PrevPen(pen, d))
  }

  /** An entered instruction is in the latch its EX cycle says. */
  lemma Located(fwd: bool, S: seq<Inst>, pen: seq<nat>, p: Pipe, e: seq<int>, k: nat)
    requires Schedule(fwd, S, pen, e) && BackTracks(p, e) && k < EnteredEx(p)
    ensures k < |S| && e[k] <= p.cycles
    ensures e[k] == p.cycles ==> p.ex == k
    ensures e[k] == p.cycles - 1 ==> p.mem == k
    ensures e[k] <= p.cycles - 2 ==> k < p.retired
  {
    if k < p.retired - 1 {
      ScheduleIncreases(fwd, S, pen, e, k, p.retired - 1);
    }
  }

  lemma ProducerBlocks(fwd: bool, S: seq<Inst>, pen: seq<nat>, e: seq<int>, i: nat, k: nat, s: Slot, c: int)
    requires Schedule(fwd, S, pen, e) && k < i < |S| && s in S[i].sources && Produces(S[k], s)
    requires if fwd then S[k].isLoad && k == i - 1 && c < e[k] + 2 else c < e[k] + 3
    ensures Blocked(fwd, S, e, i, c)
    decreases i - k
  {
    if exists m :: k < m < i && Produces(S[m], s) {
      var m :| k < m < i && Produces(S[m], s);
      ScheduleIncreases(fwd, S, pen, e, k, m);
      ProducerBlocks(fwd, S, pen, e, i, m, s, c);
    } else {
      assert RawEdge(S, k, i, s);
    }
  }

  /** The hazard unit stalls ID exactly when an operand is not ready for the coming cycle. */
  lemma StallIsBlocked(fwd: bool, S: seq<Inst>, pen: seq<nat>, p: Pipe, e: seq<int>)
    requires Schedule(fwd, S, pen, e) && BackTracks(p, e) && p.id >= 0 && InStream(p, |S|) && 1 <= p.cycles
    ensures NeedsStall(fwd, S, p.id, p.ex, p.mem) <==> Blocked(fwd, S, e, p.id, p.cycles + 1)
  {
    if NeedsStall(fwd, S, p.id, p.ex, p.mem) {
      StallBlocks(fwd, S, pen, p, e);
    }
    if Blocked(fwd, S, e, p.id, p.cycles + 1) {
      var k: nat, s: Slot :| RawEdge(S, k, p.id, s) && p.cycles + 1 < e[k] + Delay(fwd, S[k]);
      Located(fwd, S, pen, p, e, k);
    }
  }

  lemma StallBlocks(fwd: bool, S: seq<Inst>, pen: seq<nat>, p: Pipe, e: seq<int>)
    requires Schedule(fwd, S, pen, e) && BackTracks(p, e) && p.id >= 0 && InStream(p, |S|)
    requires NeedsStall(fwd, S, p.id, p.ex, p.mem)
    ensures Blocked(fwd, S, e, p.id, p.cycles + 1)
  {
    var d := S[p.id];
    if Feeds(S, p.ex, d) && (fwd ==> S[p.ex].isLoad) {
      var s :| s in d.sources && Produces(S[p.ex], s);
      ProducerBlocks(fwd, S, pen, e, p.id, p.ex, s, p.cycles + 1);
    } else {
      var s :| s in d.sources && Produces(S[p.mem], s);
      ProducerBlocks(fwd, S, pen, e, p.id, p.mem, s, p.cycles + 1);
    }
  }

  // ----- One cycle -----

  lemma BubbleTracks(fwd: bool, S: seq<Inst>, pen: seq<nat>, p: Pipe, e: seq<int>)
    requires Schedule(fwd, S, pen, e) && Tracks(pen, p, e) && InStream(p, |S|) && 1 <= p.cycles
    requires NeedsStall(fwd, S, p.id, p.ex, p.mem)
    ensures Tracks(pen, Bubble(p, HIT), e)
  {
    BubbleKeepsOrder(p, |S|, HIT);
    StallIsBlocked(fwd, S, pen, p, e);
    assert AsSoonAsPossible(fwd, S, pen, e, EnteredEx(p));
  }

  /** When ID is free to move, the next instruction enters EX in the coming cycle or its bubbles are not over. */
  lemma NextIntoEx(fwd: bool, S: seq<Inst>, pen: seq<nat>, p: Pipe, e: seq<int>)
    requires Schedule(fwd, S, pen, e) && Tracks(pen, p, e) && InStream(p, |S|) && 1 <= p.cycles
    requires !NeedsStall(fwd, S, p.id, p.ex, p.mem) && EnteredEx(p) < |S|
    ensures var d := EnteredEx(p);
            if p.id == d then e[d] == p.cycles + 1 else p.cycles + 1 < e[d]
    ensures EnteredEx(p) + 1 < |S| ==> e[EnteredEx(p)] < e[EnteredEx(p) + 1]
  {
    var d := EnteredEx(p);
    assert AsSoonAsPossible(fwd, S, pen, e, d);
    if p.id == d {
      StallIsBlocked(fwd, S, pen, p, e);
    }
    if d + 1 < |S| {
      ScheduleIncreases(fwd, S, pen, e, d, d + 1);
    }
  }

  lemma ShiftTracks(p: Pipe, e: seq<int>)
    requires BackTracks(p, e)
    requires EnteredEx(p) < |e| ==> var d := EnteredEx(p); if p.id == d then e[d] == p.cycles + 1 else p.cycles + 1 < e[d]
    requires EnteredEx(p) + 1 < |e| ==> e[EnteredEx(p)] < e[EnteredEx(p) + 1]
    ensures BackTracks(Shift(p, HIT), e)
  {
    ShiftKeepsOrder(p, |e|, HIT);
  }

  lemma FetchBackTracks(pen: seq<nat>, p: Pipe, e: seq<int>)
    requires |pen| == |e| && BackTracks(p, e) && p.ifl == EMPTY
    ensures InStream(p, |pen|) && BackTracks(Fetch(pen, p, HIT), e)
  {
    OrderedInStream(p, |pen|);
    FetchKeepsOrder(pen, p, HIT);
    FetchFrame(pen, p, HIT);
  }

  /** ID had been waiting out bubbles. */
  lemma FrontAfterBubble(pen: seq<nat>, p: Pipe, d: nat, t: int, b: nat)
    requires Ordered(p, |pen|) && d == EnteredEx(p) < |pen| && FrontTracks(pen, p, d, t, b) && p.id == EMPTY
    requires p.pending == EMPTY && p.fetchStall == 0
    ensures InStream(Shift(p, HIT), |pen|) && FrontTracks(pen, Fetch(pen, Shift(p, HIT), HIT), d, t + 1, b)
    ensures EnteredEx(Fetch(pen, Shift(p, HIT), HIT)) == d
  {
    ShiftKeepsOrder(p, |pen|, HIT);
    OrderedInStream(Shift(p, HIT), |pen|);
  }

  /** ID's instruction entered EX. */
  lemma FrontAfterIssue(pen: seq<nat>, p: Pipe, d: nat, t: int, b: nat)
    requires Ordered(p, |pen|) && d == EnteredEx(p) < |pen| - 1 && FrontTracks(pen, p, d, t, b) && p.id == d
    requires p.pending == EMPTY && p.fetchStall == 0
    ensures InStream(Shift(p, HIT), |pen|) && FrontTracks(pen, Fetch(pen, Shift(p, HIT), HIT), d + 1, 0, pen[d])
    ensures EnteredEx(Fetch(pen, Shift(p, HIT), HIT)) == d + 1
  {
    ShiftKeepsOrder(p, |pen|, HIT);
    OrderedInStream(Shift(p, HIT), |pen|);
  }

  lemma RefillTracks(fwd: bool, S: seq<Inst>, pen: seq<nat>, p: Pipe, e: seq<int>)
    requires Schedule(fwd, S, pen, e) && Tracks(pen, p, e) && InStream(p, |S|) && 1 <= p.cycles
    requires !NeedsStall(fwd, S, p.id, p.ex, p.mem)
    ensures InStream(Shift(p, HIT), |S|) && Tracks(pen, Fetch(pen, Shift(p, HIT), HIT), e)
  {
    var d, q := EnteredEx(p), Shift(p, HIT);
    if d < |S| {
      NextIntoEx(fwd, S, pen, p, e);
      var t, b := p.cycles - PrevEx(e, d), PrevPen(pen, d);
      if p.id != d {
        FrontAfterBubble(pen, p, d, t, b);
      } else if d + 1 < |S| {
        FrontAfterIssue(pen, p, d, t, b);
      }
    }
    ShiftTracks(p, e);
    FetchBackTracks(pen, q, e);
    FetchFrame(pen, q, HIT);
  }

  lemma CycleTracks(fwd: bool, S: seq<Inst>, pen: seq<nat>, p: Pipe, e: seq<int>)
    requires Schedule(fwd, S, pen, e) && Tracks(pen, p, e) && 1 <= p.cycles
    ensures InStream(p, |S|) && Tracks(pen, Cycle(fwd, S, pen, p, HIT, HIT), e)
  {
    OrderedInStream(p, |S|);
    if NeedsStall(fwd, S, p.id, p.ex, p.mem) {
      BubbleTracks(fwd, S, pen, p, e);
    } else {
      RefillTracks(fwd, S, pen, p, e);
    }
  }

  // ----- Whole runs -----

  /** The pipeline after k cycles in which every access hits. */
  function HitRun(fwd: bool, S: seq<Inst>, pen: seq<nat>, k: nat): (p: Pipe)
    requires |pen| == |S|
    ensures Ordered(p, |S|) && p.cycles == k
  {
    if k == 0 then Start()
    else
      var p := HitRun(fwd, S, pen, k - 1);
      CycleKeepsOrder(fwd, S, pen, p, HIT, HIT);
      Cycle(fwd, S, pen, p, HIT, HIT)
  }

  /** The first cycle fetches instruction 0. */
  lemma FirstCycleTracks(fwd: bool, S: seq<Inst>, pen: seq<nat>, e: seq<int>)
    requires Schedule(fwd, S, pen, e) && 0 < |S|
    ensures InStream(Start(), |S|) && Tracks(pen, Cycle(fwd, S, pen, Start(), HIT, HIT), e)
  {
    assert AsSoonAsPossible(fwd, S, pen, e, 0);
    assert Cycle(fwd, S, pen, Start(), HIT, HIT) == Start().(cycles := 1, next := 1, ifl := 0, ctrl := pen[0]);
  }

  lemma {:induction false} HitRunTracks(fwd: bool, S: seq<Inst>, pen: seq<nat>, e: seq<int>, k: nat)
    requires Schedule(fwd, S, pen, e) && 0 < |S| && 1 <= k
    ensures Tracks(pen, HitRun(fwd, S, pen, k), e)
  {
    if k == 1 {
      FirstCycleTracks(fwd, S, pen, e);
    } else {
      HitRunTracks(fwd, S, pen, e, k - 1);
      CycleTracks(fwd, S, pen, HitRun(fwd, S, pen, k - 1), e);
    }
  }

  /** Everything has retired two cycles after the last instruction entered EX, and not before. */
  lemma TrackedDone(fwd: bool, S: seq<Inst>, pen: seq<nat>, p: Pipe, e: seq<int>)
    requires Schedule(fwd, S, pen, e) && 0 < |S| && Tracks(pen, p, e)
    ensures Done(p, |S|) <==> e[|S| - 1] + 2 <= p.cycles
  {
    var last := |S| - 1;
    if e[last] + 2 <= p.cycles {
      if EnteredEx(p) < last {
        ScheduleIncreases(fwd, S, pen, e, EnteredEx(p), last);
      }
      Located(fwd, S, pen, p, e, last);
    }
  }

  /** The structural pipeline is done in cycle k exactly from the scoreboard's cycle count on. */
  lemma PipelineIsScoreboard(fwd: bool, S: seq<Inst>, pen: seq<nat>, k: nat)
    requires |S| == |pen| && 0 < |S|
    ensures Done(HitRun(fwd, S, pen, k), |S|) <==> SB.Cycles(Scalar(fwd), S, pen) <= k
  {
    var e := ScoreboardTimes(fwd, S, pen);
    ScoreboardComputesSchedule(fwd, S, pen);
    assert SB.Cycles(Scalar(fwd), S, pen) == e[|S| - 1] + 2 && 1 <= e[|S| - 1] by {
      SB.RunInv(Scalar(fwd), S, pen, |S|);
    }
    if k > 0 {
      HitRunTracks(fwd, S, pen, e, k);
      TrackedDone(fwd, S, pen, HitRun(fwd, S, pen, k), e);
    }
  }
}
