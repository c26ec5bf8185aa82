/** The two issue models without lanes, ring or ready table: each instruction's times are the least that bandwidth, window,
    redirects and true dependences allow, and only the models' times are. */
module Schedules {
  import opened Arith
  import opened InstStream
  import SB = Scoreboard
  import OOO = OutOfOrder

  // ----- Out of order -----

  datatype Schedule = Schedule(disp: seq<int>, exec: seq<int>, com: seq<int>)

  predicate For(T: Schedule, S: seq<Inst>) { |T.disp| == |T.exec| == |T.com| == |S| }

  /** Dispatch: not before an older instruction, nor before fetch is back on track after one that redirected it, nor while
      `width` others have the cycle or the window is full. */
  ghost predicate MayDispatch(c: OOO.OooConfig, S: seq<Inst>, pen: seq<nat>, T: Schedule, i: nat, t: int)
    requires OOO.ValidOoo(c) && For(T, S) && |S| == |pen| && i < |S|
  {
    && 1 <= t
    && (forall j :: 0 <= j < i ==> T.disp[j] <= t)
    && (forall j :: 0 <= j < i && pen[j] > 0 ==> T.exec[j] + pen[j] <= t)
    && (c.width <= i ==> T.disp[i - c.width] < t)
    && (c.robSize <= i ==> T.com[i - c.robSize] < t)
  }

  /** Execution: after dispatch, with every operand complete, and in order not before the previous instruction's. */
  ghost predicate MayExecute(c: OOO.OooConfig, S: seq<Inst>, T: Schedule, i: nat, t: int)
    requires For(T, S) && i < |S|
  {
    && T.disp[i] <= t
    && (forall j, s :: RawEdge(S, j, i, s) ==> T.exec[j] + S[j].latency <= t)
    && (c.inOrder && 0 < i ==> T.exec[i - 1] <= t)
  }

  /** Commit: complete, not before an older instruction, and at most `width` in a cycle. */
  ghost predicate MayCommit(c: OOO.OooConfig, S: seq<Inst>, T: Schedule, i: nat, t: int)
    requires OOO.ValidOoo(c) && For(T, S) && i < |S|
  {
    && T.exec[i] + S[i].latency <= t
    && (forall j :: 0 <= j < i ==> T.com[j] <= t)
    && (c.width <= i ==> T.com[i - c.width] < t)
  }

  /** Instruction i goes as early as it may at each of its three stages. */
  ghost predicate Earliest(c: OOO.OooConfig, S: seq<Inst>, pen: seq<nat>, T: Schedule, i: nat)
    requires OOO.ValidOoo(c) && For(T, S) && |S| == |pen| && i < |S|
  {
    && MayDispatch(c, S, pen, T, i, T.disp[i]) && (forall t :: MayDispatch(c, S, pen, T, i, t) ==> T.disp[i] <= t)
    && MayExecute(c, S, T, i, T.exec[i]) && (forall t :: MayExecute(c, S, T, i, t) ==> T.exec[i] <= t)
    && MayCommit(c, S, T, i, T.com[i]) && (forall t :: MayCommit(c, S, T, i, t) ==> T.com[i] <= t)
  }

  /** The model's times. */
  ghost function TimesOf(c: OOO.OooConfig, S: seq<Inst>, pen: seq<nat>): (T: Schedule)
    requires OOO.ValidOoo(c) && |S| == |pen|
    ensures For(T, S)
    ensures forall i :: 0 <= i < |S| ==> T.disp[i] == OOO.DispatchTime(c, S, pen, i)
    ensures forall i :: 0 <= i < |S| ==> T.exec[i] == OOO.ExecTime(c, S, pen, i)
    ensures forall i :: 0 <= i < |S| ==> T.com[i] == OOO.CommitTime(c, S, pen, i)
  {
    Schedule(seq(|S|, i requires 0 <= i < |S| => OOO.DispatchTime(c, S, pen, i)),
             seq(|S|, i requires 0 <= i < |S| => OOO.ExecTime(c, S, pen, i)),
             seq(|S|, i requires 0 <= i < |S| => OOO.CommitTime(c, S, pen, i)))
  }

  /** The cycle a lane is at was opened by the instruction as many back as the lane counts. */
  lemma {:induction false} DispatchLane(c: OOO.OooConfig, S: seq<Inst>, pen: seq<nat>, i: nat)
    requires OOO.ValidOoo(c) && i < |S| == |pen|
    ensures var n := OOO.OooRun(c, S, pen, i + 1).disp.count;
            1 <= n <= i + 1 && OOO.DispatchTime(c, S, pen, i + 1 - n) == OOO.DispatchTime(c, S, pen, i)
  {
    hide OOO.Execute, OOO.Dispatch, SB.Publish;
    OOO.OooRunInv(c, S, pen, i);
    OOO.OooRunInv(c, S, pen, i + 1);
    if i > 0 {
      DispatchLane(c, S, pen, i - 1);
    }
  }

  lemma {:induction false} CommitLane(c: OOO.OooConfig, S: seq<Inst>, pen: seq<nat>, i: nat)
    requires OOO.ValidOoo(c) && i < |S| == |pen|
    ensures var n := OOO.OooRun(c, S, pen, i + 1).com.count;
            1 <= n <= i + 1 && OOO.CommitTime(c, S, pen, i + 1 - n) == OOO.CommitTime(c, S, pen, i)
  {
    hide OOO.Execute, OOO.Dispatch, SB.Publish;
    OOO.OooRunInv(c, S, pen, i);
    OOO.OooRunInv(c, S, pen, i + 1);
    if i > 0 {
      CommitLane(c, S, pen, i - 1);
    }
  }

  /** Fetch waits for the last instruction that was penalised. */
  lemma {:induction false} LastRedirect(c: OOO.OooConfig, S: seq<Inst>, pen: seq<nat>, k: nat) returns (j: int)
    requires OOO.ValidOoo(c) && k <= |S| == |pen|
    ensures -1 <= j < k && (forall m :: j < m < k ==> pen[m] == 0)
    ensures j == -1 ==> OOO.OooRun(c, S, pen, k).fetchBlock == 0
    ensures j >= 0 ==> pen[j] > 0 && OOO.OooRun(c, S, pen, k).fetchBlock == OOO.ExecTime(c, S, pen, j) + pen[j]
  {
    if k == 0 {
      j := -1;
    } else if pen[k - 1] > 0 {
      j := k - 1;
    } else {
      j := LastRedirect(c, S, pen, k - 1);
    }
  }

  lemma RedirectsBefore(c: OOO.OooConfig, S: seq<Inst>, pen: seq<nat>, j: nat, i: nat)
    requires OOO.ValidOoo(c) && j < i < |S| == |pen| && pen[j] > 0
    ensures OOO.ExecTime(c, S, pen, j) + pen[j] <= OOO.DispatchTime(c, S, pen, i)
  {
    OOO.StepOrder(c, S, pen, i);
    OOO.InOrderEnds(c, S, pen, j, i - 1);
  }

  lemma DispatchAllowed(c: OOO.OooConfig, S: seq<Inst>, pen: seq<nat>, i: nat)
    requires OOO.ValidOoo(c) && i < |S| == |pen|
    ensures MayDispatch(c, S, pen, TimesOf(c, S, pen), i, OOO.DispatchTime(c, S, pen, i))
  {
    hide OOO.OooRun, OOO.DispatchTime, OOO.ExecTime, OOO.CommitTime, TimesOf;
    var T, t := TimesOf(c, S, pen), OOO.DispatchTime(c, S, pen, i);
    assert 1 <= t by { OOO.StepOrder(c, S, pen, i); }
    forall j | 0 <= j < i ensures T.disp[j] <= t {
      OOO.InOrderEnds(c, S, pen, j, i);
    }
    forall j | 0 <= j < i && pen[j] > 0 ensures T.exec[j] + pen[j] <= t {
      RedirectsBefore(c, S, pen, j, i);
    }
    if c.width <= i {
      OOO.DispatchWidth(c, S, pen, i - c.width);
    }
    if c.robSize <= i {
      OOO.WindowRespected(c, S, pen, i - c.robSize);
    }
  }

  /** The lane's next free cycle is the first that `width` older instructions leave room in. */
  lemma DispatchRoom(c: OOO.OooConfig, S: seq<Inst>, pen: seq<nat>, i: nat, t: int)
    requires OOO.ValidOoo(c) && i < |S| == |pen| && 1 <= t
    requires 0 < i ==> OOO.DispatchTime(c, S, pen, i - 1) <= t
    requires c.width <= i ==> OOO.DispatchTime(c, S, pen, i - c.width) < t
    ensures OOO.NextFree(OOO.OooRun(c, S, pen, i).disp, c.width) <= t
  {
    hide OOO.OooRun, OOO.OooStep;
    OOO.OooRunInv(c, S, pen, i);
    if i > 0 {
      DispatchLane(c, S, pen, i - 1);
    }
  }

  lemma DispatchLeast(c: OOO.OooConfig, S: seq<Inst>, pen: seq<nat>, i: nat, t: int)
    requires OOO.ValidOoo(c) && i < |S| == |pen| && MayDispatch(c, S, pen, TimesOf(c, S, pen), i, t)
    ensures OOO.DispatchTime(c, S, pen, i) <= t
  {
    hide OOO.CommitTime, OOO.ExecTime, TimesOf, OOO.NextFree;
    var T := TimesOf(c, S, pen);
    assert 0 < i ==> T.disp[i - 1] <= t;
    DispatchRoom(c, S, pen, i, t);
    var j := LastRedirect(c, S, pen, i);
    assert 0 <= j ==> T.exec[j] + pen[j] <= t;
    if c.robSize <= i {
      OOO.RobGate(c, S, pen, i);
    }
  }

  lemma ExecuteAllowed(c: OOO.OooConfig, S: seq<Inst>, pen: seq<nat>, i: nat)
    requires OOO.ValidOoo(c) && i < |S| == |pen|
    ensures MayExecute(c, S, TimesOf(c, S, pen), i, OOO.ExecTime(c, S, pen, i))
  {
    var T, t := TimesOf(c, S, pen), OOO.ExecTime(c, S, pen, i);
    OOO.StepOrder(c, S, pen, i);
    forall j, s | RawEdge(S, j, i, s) ensures T.exec[j] + S[j].latency <= t {
      assert Depends(S, j, i);
      OOO.DependenceDelays(c, S, pen, j, i);
    }
    hide TimesOf;
  }

  lemma ExecuteLeast(c: OOO.OooConfig, S: seq<Inst>, pen: seq<nat>, i: nat, t: int)
    requires OOO.ValidOoo(c) && i < |S| == |pen| && MayExecute(c, S, TimesOf(c, S, pen), i, t)
    ensures OOO.ExecTime(c, S, pen, i) <= t
  {
    var T, st := TimesOf(c, S, pen), OOO.OooRun(c, S, pen, i);
    var disp := OOO.Dispatch(c, st, i);
    SB.LatestIsLeastBound(st.ready, S[i].sources, disp, 0);
    if SB.Latest(st.ready, S[i].sources, disp, 0) != disp {
      var s: Slot :| s in S[i].sources && SB.Latest(st.ready, S[i].sources, disp, 0) == st.ready[s];
      var j := OOO.ReadyIsYoungestProducer(c, S, pen, i, s);
      if j >= 0 {
        assert RawEdge(S, j, i, s);
      } else {
        OOO.StepOrder(c, S, pen, i);
      }
    }
  }

  lemma CommitAllowed(c: OOO.OooConfig, S: seq<Inst>, pen: seq<nat>, i: nat)
    requires OOO.ValidOoo(c) && i < |S| == |pen|
    ensures MayCommit(c, S, TimesOf(c, S, pen), i, OOO.CommitTime(c, S, pen, i))
  {
    hide OOO.OooRun, OOO.CommitTime, OOO.ExecTime, OOO.DispatchTime, TimesOf;
    var T, t := TimesOf(c, S, pen), OOO.CommitTime(c, S, pen, i);
    OOO.StepOrder(c, S, pen, i);
    forall j | 0 <= j < i ensures T.com[j] <= t {
      OOO.InOrderEnds(c, S, pen, j, i);
    }
    if c.width <= i {
      OOO.CommitWidth(c, S, pen, i - c.width);
    }
  }

  lemma CommitRoom(c: OOO.OooConfig, S: seq<Inst>, pen: seq<nat>, i: nat, t: int)
    requires OOO.ValidOoo(c) && i < |S| == |pen| && 1 <= t
    requires 0 < i ==> OOO.CommitTime(c, S, pen, i - 1) <= t
    requires c.width <= i ==> OOO.CommitTime(c, S, pen, i - c.width) < t
    ensures OOO.NextFree(OOO.OooRun(c, S, pen, i).com, c.width) <= t
  {
    hide OOO.OooRun, OOO.OooStep;
    OOO.OooRunInv(c, S, pen, i);
    if i > 0 {
      CommitLane(c, S, pen, i - 1);
    }
  }

  lemma CommitLeast(c: OOO.OooConfig, S: seq<Inst>, pen: seq<nat>, i: nat, t: int)
    requires OOO.ValidOoo(c) && i < |S| == |pen| && MayCommit(c, S, TimesOf(c, S, pen), i, t)
    ensures OOO.CommitTime(c, S, pen, i) <= t
  {
    hide TimesOf, OOO.NextFree;
    var T := TimesOf(c, S, pen);
    assert 0 < i ==> T.com[i - 1] <= t;
    OOO.StepOrder(c, S, pen, i);
    CommitRoom(c, S, pen, i, t);
  }

  // ----- The schedule is the only one -----

  ghost predicate SameBefore(T: Schedule, U: Schedule, k: nat)
    requires |T.disp| == |T.exec| == |T.com| == |U.disp| == |U.exec| == |U.com|
  {
    k <= |T.disp| && forall j :: 0 <= j < k ==> T.disp[j] == U.disp[j] && T.exec[j] == U.exec[j] && T.com[j] == U.com[j]
  }

  /** What an instruction may do depends on older instructions only. */
  lemma OneMoreSame(c: OOO.OooConfig, S: seq<Inst>, pen: seq<nat>, T: Schedule, U: Schedule, i: nat)
    requires OOO.ValidOoo(c) && For(T, S) && For(U, S) && |S| == |pen| && i < |S| && SameBefore(T, U, i)
    requires Earliest(c, S, pen, T, i) && Earliest(c, S, pen, U, i)
    ensures SameBefore(T, U, i + 1)
  {
    assert MayDispatch(c, S, pen, T, i, U.disp[i]) && MayDispatch(c, S, pen, U, i, T.disp[i]);
    assert T.disp[i] == U.disp[i];
    assert MayExecute(c, S, T, i, U.exec[i]) && MayExecute(c, S, U, i, T.exec[i]);
    assert T.exec[i] == U.exec[i];
    assert MayCommit(c, S, T, i, U.com[i]) && MayCommit(c, S, U, i, T.com[i]);
  }

  lemma {:induction false} SameUpTo(c: OOO.OooConfig, S: seq<Inst>, pen: seq<nat>, T: Schedule, U: Schedule, k: nat)
    requires OOO.ValidOoo(c) && For(T, S) && For(U, S) && |S| == |pen| && k <= |S|
    requires forall i :: 0 <= i < |S| ==> Earliest(c, S, pen, T, i) && Earliest(c, S, pen, U, i)
    ensures SameBefore(T, U, k)
  {
    hide Earliest, SameBefore;
    if k > 0 {
      SameUpTo(c, S, pen, T, U, k - 1);
      OneMoreSame(c, S, pen, T, U, k - 1);
    } else {
      NothingBefore(T, U);
    }
  }

  lemma NothingBefore(T: Schedule, U: Schedule)
    requires |T.disp| == |T.exec| == |T.com| == |U.disp| == |U.exec| == |U.com|
    ensures SameBefore(T, U, 0)
  {
  }

  lemma ModelIsEarliest(c: OOO.OooConfig, S: seq<Inst>, pen: seq<nat>, i: nat)
    requires OOO.ValidOoo(c) && i < |S| == |pen|
    ensures Earliest(c, S, pen, TimesOf(c, S, pen), i)
  {
    var T := TimesOf(c, S, pen);
    hide MayDispatch, MayExecute, MayCommit, TimesOf, OOO.DispatchTime, OOO.ExecTime, OOO.CommitTime;
    DispatchAllowed(c, S, pen, i);
    ExecuteAllowed(c, S, pen, i);
    CommitAllowed(c, S, pen, i);
    forall t | MayDispatch(c, S, pen, T, i, t) ensures T.disp[i] <= t {
      DispatchLeast(c, S, pen, i, t);
    }
    forall t | MayExecute(c, S, T, i, t) ensures T.exec[i] <= t {
      ExecuteLeast(c, S, pen, i, t);
    }
    forall t | MayCommit(c, S, T, i, t) ensures T.com[i] <= t {
      CommitLeast(c, S, pen, i, t);
    }
  }

  /** Times are the model's if and only if every instruction dispatches, executes and commits as early as it may; the cycles
      reported are the last commit. */
  lemma EarliestIff(c: OOO.OooConfig, S: seq<Inst>, pen: seq<nat>, T: Schedule)
    requires OOO.ValidOoo(c) && For(T, S) && |S| == |pen|
    ensures T == TimesOf(c, S, pen) <==> forall i :: 0 <= i < |S| ==> Earliest(c, S, pen, T, i)
    ensures T == TimesOf(c, S, pen) ==> OOO.OooCycles(c, S, pen) == if S == [] then 0 else T.com[|S| - 1]
  {
    var U := TimesOf(c, S, pen);
    forall i | 0 <= i < |S| ensures Earliest(c, S, pen, U, i) {
      ModelIsEarliest(c, S, pen, i);
    }
    hide TimesOf, Earliest;
    if forall i :: 0 <= i < |S| ==> Earliest(c, S, pen, T, i) {
      SameUpTo(c, S, pen, T, U, |S|);
      assert T.disp == U.disp && T.exec == U.exec && T.com == U.com;
    }
  }

  /** In order, execution never overtakes. */
  lemma {:induction false} ExecutesInOrder(c: OOO.OooConfig, S: seq<Inst>, pen: seq<nat>, i: nat, j: nat)
    requires OOO.ValidOoo(c) && c.inOrder && i <= j < |S| == |pen|
    ensures OOO.ExecTime(c, S, pen, i) <= OOO.ExecTime(c, S, pen, j)
  {
    if i < j {
      ExecutesInOrder(c, S, pen, i, j - 1);
      ExecuteAllowed(c, S, pen, j);
      hide OOO.ExecTime;
    }
  }

  // ----- In order, several at a time -----

  /** How many cycles a consumer's fetch comes after its producer's, at least. */
  function Wait(c: SB.Config, d: Inst): int { if !c.forwarding then 3 else if d.isLoad then 2 else 1 }

  /** Fetch: in order, `width` in a cycle, behind redirects, and late enough for every operand. */
  ghost predicate MayFetch(c: SB.Config, S: seq<Inst>, pen: seq<nat>, F: seq<int>, i: nat, t: int)
    requires SB.ValidConfig(c) && |F| == |S| == |pen| && i < |S|
  {
    && 1 <= t
    && (forall j :: 0 <= j < i ==> F[j] <= t)
    && (forall j :: 0 <= j < i && pen[j] > 0 ==> F[j] + 1 + pen[j] <= t)
    && (c.width <= i ==> F[i - c.width] < t)
    && (forall j, s :: RawEdge(S, j, i, s) ==> F[j] + Wait(c, S[j]) <= t)
  }

  ghost predicate EarliestFetch(c: SB.Config, S: seq<Inst>, pen: seq<nat>, F: seq<int>, i: nat)
    requires SB.ValidConfig(c) && |F| == |S| == |pen| && i < |S|
  {
    MayFetch(c, S, pen, F, i, F[i]) && forall t :: MayFetch(c, S, pen, F, i, t) ==> F[i] <= t
  }

  /** The issue model's fetch cycles. */
  ghost function FetchesOf(c: SB.Config, S: seq<Inst>, pen: seq<nat>): (F: seq<int>)
    requires |S| == |pen|
    ensures |F| == |S| && forall i :: 0 <= i < |S| ==> F[i] == SB.Iff(c, S, pen, i)
  {
    seq(|S|, i requires 0 <= i < |S| => SB.Iff(c, S, pen, i))
  }

  lemma {:induction false} FetchLane(c: SB.Config, S: seq<Inst>, pen: seq<nat>, i: nat)
    requires SB.ValidConfig(c) && i < |S| == |pen|
    ensures var n := SB.Run(c, S, pen, i + 1).curCount; 1 <= n <= i + 1 && SB.Iff(c, S, pen, i + 1 - n) == SB.Iff(c, S, pen, i)
  {
    hide SB.Issue, SB.Publish;
    SB.RunInv(c, S, pen, i);
    SB.RunInv(c, S, pen, i + 1);
    if i > 0 {
      FetchLane(c, S, pen, i - 1);
    }
  }

  lemma FetchRoom(c: SB.Config, S: seq<Inst>, pen: seq<nat>, i: nat, t: int)
    requires SB.ValidConfig(c) && i < |S| == |pen| && 1 <= t
    requires 0 < i ==> SB.Iff(c, S, pen, i - 1) <= t
    requires c.width <= i ==> SB.Iff(c, S, pen, i - c.width) < t
    requires SB.Run(c, S, pen, i).fetchBlock <= t
    ensures SB.Earliest(c, SB.Run(c, S, pen, i), i) <= t
  {
    hide SB.Run, SB.Step;
    SB.RunInv(c, S, pen, i);
    if i > 0 {
      FetchLane(c, S, pen, i - 1);
    }
  }

  lemma {:induction false} LastFetchRedirect(c: SB.Config, S: seq<Inst>, pen: seq<nat>, k: nat) returns (j: int)
    requires k <= |S| == |pen|
    ensures -1 <= j < k && (forall m :: j < m < k ==> pen[m] == 0)
    ensures j == -1 ==> SB.Run(c, S, pen, k).fetchBlock == 0
    ensures j >= 0 ==> pen[j] > 0 && SB.Run(c, S, pen, k).fetchBlock == SB.Iff(c, S, pen, j) + 1 + pen[j]
  {
    hide SB.Issue, SB.Publish;
    if k == 0 {
      j := -1;
    } else if pen[k - 1] > 0 {
      j := k - 1;
    } else {
      j := LastFetchRedirect(c, S, pen, k - 1);
    }
  }

  lemma FetchAfterBlock(c: SB.Config, S: seq<Inst>, pen: seq<nat>, i: nat)
    requires SB.ValidConfig(c) && i < |S| == |pen|
    ensures SB.Run(c, S, pen, i).fetchBlock <= SB.Iff(c, S, pen, i)
  {
    var st := SB.Run(c, S, pen, i);
    SB.LatestIsLeastBound(st.ready, S[i].sources, SB.Earliest(c, st, i), 2);
  }

  lemma {:induction false} FetchAfterRedirect(c: SB.Config, S: seq<Inst>, pen: seq<nat>, j: nat, i: nat)
    requires SB.ValidConfig(c) && j < i < |S| == |pen| && pen[j] > 0
    ensures SB.Iff(c, S, pen, j) + 1 + pen[j] <= SB.Iff(c, S, pen, i)
  {
    FetchAfterBlock(c, S, pen, i);
    var k := LastFetchRedirect(c, S, pen, i);
    hide SB.Iff, SB.Run;
    if j < k {
      FetchAfterRedirect(c, S, pen, j, k);
    }
  }

  lemma FetchAllowed(c: SB.Config, S: seq<Inst>, pen: seq<nat>, i: nat)
    requires SB.ValidConfig(c) && i < |S| == |pen|
    ensures MayFetch(c, S, pen, FetchesOf(c, S, pen), i, SB.Iff(c, S, pen, i))
  {
    hide SB.Run, SB.Iff, FetchesOf;
    var F, t := FetchesOf(c, S, pen), SB.Iff(c, S, pen, i);
    SB.FetchNondecreasing(c, S, pen, i, i);
    forall j | 0 <= j < i ensures F[j] <= t {
      SB.FetchNondecreasing(c, S, pen, j, i);
    }
    forall j | 0 <= j < i && pen[j] > 0 ensures F[j] + 1 + pen[j] <= t {
      FetchAfterRedirect(c, S, pen, j, i);
    }
    if c.width <= i {
      SB.BundleWidth(c, S, pen, i - c.width);
    }
    forall j, s | RawEdge(S, j, i, s) ensures F[j] + Wait(c, S[j]) <= t {
      SB.RawSeparation(c, S, pen, j, i, s);
    }
  }

  lemma FetchLeast(c: SB.Config, S: seq<Inst>, pen: seq<nat>, i: nat, t: int)
    requires SB.ValidConfig(c) && i < |S| == |pen| && MayFetch(c, S, pen, FetchesOf(c, S, pen), i, t)
    ensures SB.Iff(c, S, pen, i) <= t
  {
    hide FetchesOf, SB.Earliest;
    var F, st := FetchesOf(c, S, pen), SB.Run(c, S, pen, i);
    assert 0 < i ==> F[i - 1] <= t;
    var k := LastFetchRedirect(c, S, pen, i);
    assert 0 <= k ==> F[k] + 1 + pen[k] <= t;
    FetchRoom(c, S, pen, i, t);
    var base := SB.Earliest(c, st, i);
    SB.LatestIsLeastBound(st.ready, S[i].sources, base, 2);
    if SB.Latest(st.ready, S[i].sources, base, 2) != base {
      var s: Slot :| s in S[i].sources && SB.Latest(st.ready, S[i].sources, base, 2) == st.ready[s] - 2;
      var j := SB.YoungestProducer(c, S, pen, i, s);
      if j >= 0 {
        assert RawEdge(S, j, i, s);
      }
    }
  }

  lemma ModelFetchesEarliest(c: SB.Config, S: seq<Inst>, pen: seq<nat>, i: nat)
    requires SB.ValidConfig(c) && i < |S| == |pen|
    ensures EarliestFetch(c, S, pen, FetchesOf(c, S, pen), i)
  {
    var F := FetchesOf(c, S, pen);
    hide MayFetch, FetchesOf, SB.Iff;
    FetchAllowed(c, S, pen, i);
    forall t | MayFetch(c, S, pen, F, i, t) ensures F[i] <= t {
      FetchLeast(c, S, pen, i, t);
    }
  }

  lemma {:induction false} SameFetches(c: SB.Config, S: seq<Inst>, pen: seq<nat>, F: seq<int>, G: seq<int>, k: nat)
    requires SB.ValidConfig(c) && |F| == |G| == |S| == |pen| && k <= |S|
    requires forall i :: 0 <= i < |S| ==> EarliestFetch(c, S, pen, F, i) && EarliestFetch(c, S, pen, G, i)
    ensures forall j :: 0 <= j < k ==> F[j] == G[j]
  {
    if k > 0 {
      var i := k - 1;
      SameFetches(c, S, pen, F, G, i);
      assert EarliestFetch(c, S, pen, F, i) && EarliestFetch(c, S, pen, G, i);
      assert MayFetch(c, S, pen, F, i, G[i]) && MayFetch(c, S, pen, G, i, F[i]);
    }
  }

  /** Fetch cycles are the issue model's if and only if every instruction is fetched as early as it may; the cycles reported
      are the last fetch and four more. */
  lemma EarliestFetchIff(c: SB.Config, S: seq<Inst>, pen: seq<nat>, F: seq<int>)
    requires SB.ValidConfig(c) && |F| == |S| == |pen|
    ensures F == FetchesOf(c, S, pen) <==> forall i :: 0 <= i < |S| ==> EarliestFetch(c, S, pen, F, i)
    ensures F == FetchesOf(c, S, pen) ==> SB.Cycles(c, S, pen) == if S == [] then 0 else F[|S| - 1] + 4
  {
    var G := FetchesOf(c, S, pen);
    forall i | 0 <= i < |S| ensures EarliestFetch(c, S, pen, G, i) {
      ModelFetchesEarliest(c, S, pen, i);
    }
    SB.RunInv(c, S, pen, |S|);
    hide FetchesOf, EarliestFetch;
    if forall i :: 0 <= i < |S| ==> EarliestFetch(c, S, pen, F, i) {
      SameFetches(c, S, pen, F, G, |S|);
    }
  }

  // ----- Latencies -----

  /** What an instruction's result takes, by the operations the documentation names. */
  function Takes(op: Opcode): nat { if op == DIV then 20 else if op == MUL then 3 else if op in {LOAD, POP} then 2 else 1 }

  /** On every machine a program of one instruction takes its latency and the cycle of its dispatch. */
  lemma OneInstruction(c: OOO.OooConfig, op: Opcode, rd: Reg, rs: Reg, o: Outcome)
    requires OOO.ValidOoo(c)
    ensures OOO.OooCycles(c, [DecodeMeta(op, rd, rs, o)], [0]) == 1 + Takes(op)
  {
    var S, pen: seq<nat> := [DecodeMeta(op, rd, rs, o)], [0];
    DecodedLatency(op, rd, rs, o);
    hide DecodeMeta, Takes;
    OOO.StepOrder(c, S, pen, 0);
    assert OOO.OooRun(c, S, pen, 0) == OOO.OooInit(c);
    hide OOO.OooRun;
    ZeroReady(S[0].sources, 1);
  }

  lemma {:induction false} ZeroReady(slots: seq<Slot>, base: int)
    requires 0 <= base
    ensures SB.Latest(SB.Zeros(), slots, base, 0) == base
  {
    if slots != [] {
      ZeroReady(slots[..|slots| - 1], base);
    }
  }

  /** What decoding says of an instruction does not depend on its outcome. */
  lemma SameDecoding(op: Opcode, rd: Reg, rs: Reg, o: Outcome)
    ensures var d, e := DecodeMeta(op, rd, rs, o), DecodeMeta(op, rd, rs, Outcome(0, 0, 0));
            d.sources == e.sources && d.hasWrite == e.hasWrite
  {
  }

  lemma DecodedLatency(op: Opcode, rd: Reg, rs: Reg, o: Outcome)
    ensures DecodeMeta(op, rd, rs, o).latency == Takes(op)
  {
  }

  /** Instruction i is the same operation again, on the result of the one before. */
  ghost predicate Again(S: seq<Inst>, op: Opcode, rd: Reg, rs: Reg, i: nat)
    requires i < |S|
  {
    S[i] == DecodeMeta(op, rd, rs, Outcome(S[i].pc, S[i].target, S[i].memAddr))
  }

  ghost predicate Repeats(S: seq<Inst>, op: Opcode, rd: Reg, rs: Reg) {
    var d := DecodeMeta(op, rd, rs, Outcome(0, 0, 0));
    rd in d.sources && d.hasWrite && forall i :: 0 <= i < |S| ==> Again(S, op, rd, rs, i)
  }

  lemma RepeatsEdge(S: seq<Inst>, op: Opcode, rd: Reg, rs: Reg, i: nat)
    requires Repeats(S, op, rd, rs) && i < |S|
    ensures S[i].latency == Takes(op) && (0 < i ==> RawEdge(S, i - 1, i, rd))
  {
    assert Again(S, op, rd, rs, i);
    SameDecoding(op, rd, rs, Outcome(S[i].pc, S[i].target, S[i].memAddr));
    DecodedLatency(op, rd, rs, Outcome(S[i].pc, S[i].target, S[i].memAddr));
    if i > 0 {
      assert Again(S, op, rd, rs, i - 1);
      SameDecoding(op, rd, rs, Outcome(S[i - 1].pc, S[i - 1].target, S[i - 1].memAddr));
      assert S[i - 1].hasWrite && S[i - 1].writeReg == rd;
    }
    hide DecodeMeta, Takes;
  }

  lemma {:induction false} RepeatsWait(c: OOO.OooConfig, S: seq<Inst>, pen: seq<nat>, op: Opcode, rd: Reg, rs: Reg, i: nat)
    requires OOO.ValidOoo(c) && i < |S| == |pen| && Repeats(S, op, rd, rs)
    ensures 1 + Times(i, Takes(op)) <= OOO.ExecTime(c, S, pen, i)
  {
    hide Repeats, RawEdge, Takes, OOO.OooRun, OOO.DispatchTime, OOO.ExecTime, OOO.CommitTime, TimesOf;
    OOO.StepOrder(c, S, pen, i);
    if i > 0 {
      RepeatsWait(c, S, pen, op, rd, rs, i - 1);
      RepeatsEdge(S, op, rd, rs, i - 1);
      RepeatsEdge(S, op, rd, rs, i);
      ExecuteAllowed(c, S, pen, i);
    }
  }

  /** k equal instructions, each reading its own last result, take at least 20k + 1 cycles for DIV, 3k + 1 for MUL, 2k + 1
      for LOAD and k + 1 otherwise, on every machine. */
  lemma RepeatedCycles(c: OOO.OooConfig, S: seq<Inst>, pen: seq<nat>, op: Opcode, rd: Reg, rs: Reg)
    requires OOO.ValidOoo(c) && 0 < |S| == |pen| && Repeats(S, op, rd, rs)
    ensures 1 + |S| * Takes(op) <= OOO.OooCycles(c, S, pen)
  {
    hide Repeats, RawEdge, Takes, OOO.OooRun;
    var i := |S| - 1;
    RepeatsWait(c, S, pen, op, rd, rs, i);
    RepeatsEdge(S, op, rd, rs, i);
    OOO.StepOrder(c, S, pen, i);
    TimesIsProduct(|S|, Takes(op));
    assert Times(|S|, Takes(op)) == Times(i, Takes(op)) + Takes(op);
    hide Times;
  }
}
