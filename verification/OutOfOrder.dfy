/** Tomasulo-style scheduling: in-order dispatch and commit, dataflow execution, a finite reorder buffer. */
module OutOfOrder {
  import opened Arith
  import opened InstStream
  import opened Scoreboard

  datatype OooConfig = OooConfig(width: int, robSize: int, inOrder: bool)

  predicate ValidOoo(c: OooConfig) { 1 <= c.width && 1 <= c.robSize }

  /** A bandwidth-limited stage: the cycle it is filling and how many instructions that cycle holds. */
  datatype Lane = Lane(cycle: int, count: int)

  datatype Ooo = Ooo(disp: Lane, com: Lane, ready: Ready, rob: seq<int>,
                     fetchBlock: int, lastExec: int, lastCommit: int)

  function OooInit(c: OooConfig): (s: Ooo)
    requires ValidOoo(c)
  {
    Ooo(Lane(1, 0), Lane(1, 0), Zeros(), seq(c.robSize, _ => 0), 0, 0, 0)
  }

  function NextFree(l: Lane, width: int): int {
    if l.count < width then l.cycle else l.cycle + 1
  }

  function Occupy(l: Lane, width: int, at: int): Lane {
    if at == l.cycle && l.count < width then Lane(at, l.count + 1) else Lane(at, 1)
  }

  function Dispatch(c: OooConfig, s: Ooo, i: nat): int
    requires ValidOoo(c) && |s.rob| == c.robSize
  {
    var free := Max(NextFree(s.disp, c.width), s.fetchBlock);
    if i >= c.robSize then Max(free, s.rob[i % c.robSize] + 1) else free
  }

  function Execute(c: OooConfig, s: Ooo, disp: int, d: Inst): int {
    var exec := Latest(s.ready, d.sources, disp, 0);
    if c.inOrder then Max(exec, s.lastExec) else exec
  }

  function OooStep(c: OooConfig, s: Ooo, i: nat, d: Inst, pen: nat): (s': Ooo)
    requires ValidOoo(c) && |s.rob| == c.robSize
    ensures |s'.rob| == c.robSize
  {
    var disp := Dispatch(c, s, i);
    var exec := Execute(c, s, disp, d);
    var complete := exec + d.latency;
    var commit := Max(NextFree(s.com, c.width), complete);
    Ooo(Occupy(s.disp, c.width, disp), Occupy(s.com, c.width, commit),
        Publish(s.ready, d, complete, complete), s.rob[i % c.robSize := commit],
        if pen > 0 then exec + pen else s.fetchBlock, exec, commit)
  }

  function OooRun(c: OooConfig, S: seq<Inst>, pen: seq<nat>, k: nat): (s: Ooo)
    requires ValidOoo(c) && k <= |S| == |pen|
    ensures |s.rob| == c.robSize
  {
    if k == 0 then OooInit(c) else OooStep(c, OooRun(c, S, pen, k - 1), k - 1, S[k - 1], pen[k - 1])
  }

  function DispatchTime(c: OooConfig, S: seq<Inst>, pen: seq<nat>, i: nat): int
    requires ValidOoo(c) && i < |S| == |pen|
  {
    OooRun(c, S, pen, i + 1).disp.cycle
  }

  function ExecTime(c: OooConfig, S: seq<Inst>, pen: seq<nat>, i: nat): int
    requires ValidOoo(c) && i < |S| == |pen|
  {
    OooRun(c, S, pen, i + 1).lastExec
  }

  function CompleteTime(c: OooConfig, S: seq<Inst>, pen: seq<nat>, i: nat): int
    requires ValidOoo(c) && i < |S| == |pen|
  {
    ExecTime(c, S, pen, i) + S[i].latency
  }

  function CommitTime(c: OooConfig, S: seq<Inst>, pen: seq<nat>, i: nat): int
    requires ValidOoo(c) && i < |S| == |pen|
  {
    OooRun(c, S, pen, i + 1).lastCommit
  }

  function OooCycles(c: OooConfig, S: seq<Inst>, pen: seq<nat>): int
    requires ValidOoo(c) && |S| == |pen|
  {
    if |S| == 0 then 0 else OooRun(c, S, pen, |S|).lastCommit
  }

  // ----- Invariants -----

  ghost predicate OooInv(c: OooConfig, s: Ooo, k: nat) {
    && (if k == 0 then s.disp == Lane(1, 0) && s.com == Lane(1, 0)
        else 1 <= s.disp.count <= c.width && 1 <= s.com.count <= c.width && s.lastCommit == s.com.cycle)
    && 1 <= s.disp.cycle && 1 <= s.com.cycle
  }

  lemma {:induction false} OooRunInv(c: OooConfig, S: seq<Inst>, pen: seq<nat>, k: nat)
    requires ValidOoo(c) && k <= |S| == |pen|
    ensures OooInv(c, OooRun(c, S, pen, k), k)
  {
    if k > 0 {
      OooRunInv(c, S, pen, k - 1);
    }
  }

  /** In which order the four times of one instruction, and of two neighbours, come. */
  lemma StepOrder(c: OooConfig, S: seq<Inst>, pen: seq<nat>, i: nat)
    requires ValidOoo(c) && i < |S| == |pen|
    ensures 1 <= DispatchTime(c, S, pen, i) <= ExecTime(c, S, pen, i) < CompleteTime(c, S, pen, i) <= CommitTime(c, S, pen, i)
    ensures OooRun(c, S, pen, i).fetchBlock <= DispatchTime(c, S, pen, i)
    ensures OooRun(c, S, pen, i).fetchBlock <= OooRun(c, S, pen, i + 1).fetchBlock
    ensures OooRun(c, S, pen, i).disp.cycle <= DispatchTime(c, S, pen, i)
    ensures OooRun(c, S, pen, i).com.cycle <= CommitTime(c, S, pen, i)
  {
    OooRunInv(c, S, pen, i);
    var s := OooRun(c, S, pen, i);
    LatestIsLeastBound(s.ready, S[i].sources, Dispatch(c, s, i), 0);
  }

  /** Dispatch and commit are in order, and a redirect never lets fetch restart earlier than a previous one did. */
  lemma {:induction false} InOrderEnds(c: OooConfig, S: seq<Inst>, pen: seq<nat>, i: nat, j: nat)
    requires ValidOoo(c) && i <= j < |S| == |pen|
    ensures DispatchTime(c, S, pen, i) <= DispatchTime(c, S, pen, j)
    ensures CommitTime(c, S, pen, i) <= CommitTime(c, S, pen, j)
    ensures OooRun(c, S, pen, i + 1).fetchBlock <= OooRun(c, S, pen, j + 1).fetchBlock
  {
    if i < j {
      InOrderEnds(c, S, pen, i, j - 1);
      StepOrder(c, S, pen, j);
      OooRunInv(c, S, pen, j);
    }
  }

  lemma {:induction false} LaneCounts(c: OooConfig, S: seq<Inst>, pen: seq<nat>, i: nat, j: nat)
    requires ValidOoo(c) && i <= j < |S| == |pen|
    ensures DispatchTime(c, S, pen, i) == DispatchTime(c, S, pen, j)
        ==> OooRun(c, S, pen, j + 1).disp.count == OooRun(c, S, pen, i + 1).disp.count + (j - i)
    ensures CommitTime(c, S, pen, i) == CommitTime(c, S, pen, j)
        ==> OooRun(c, S, pen, j + 1).com.count == OooRun(c, S, pen, i + 1).com.count + (j - i)
  {
    if i < j {
      InOrderEnds(c, S, pen, i, j - 1);
      InOrderEnds(c, S, pen, j - 1, j);
      LaneCounts(c, S, pen, i, j - 1);
      OooRunInv(c, S, pen, j);
    }
  }

  /** At most `width` instructions dispatch in any one cycle. */
  lemma DispatchWidth(c: OooConfig, S: seq<Inst>, pen: seq<nat>, i: nat)
    requires ValidOoo(c) && i + c.width < |S| == |pen|
    ensures DispatchTime(c, S, pen, i) < DispatchTime(c, S, pen, i + c.width)
  {
    var j := i + c.width;
    assert DispatchTime(c, S, pen, i) <= DispatchTime(c, S, pen, j) by { InOrderEnds(c, S, pen, i, j); }
    assert 1 <= OooRun(c, S, pen, i + 1).disp.count by { OooRunInv(c, S, pen, i + 1); }
    assert OooRun(c, S, pen, j + 1).disp.count <= c.width by { OooRunInv(c, S, pen, j + 1); }
    LaneCounts(c, S, pen, i, j);
  }

  /** At most `width` instructions commit in any one cycle. */
  lemma CommitWidth(c: OooConfig, S: seq<Inst>, pen: seq<nat>, i: nat)
    requires ValidOoo(c) && i + c.width < |S| == |pen|
    ensures CommitTime(c, S, pen, i) < CommitTime(c, S, pen, i + c.width)
  {
    var j := i + c.width;
    assert CommitTime(c, S, pen, i) <= CommitTime(c, S, pen, j) by { InOrderEnds(c, S, pen, i, j); }
    assert 1 <= OooRun(c, S, pen, i + 1).com.count by { OooRunInv(c, S, pen, i + 1); }
    assert OooRun(c, S, pen, j + 1).com.count <= c.width by { OooRunInv(c, S, pen, j + 1); }
    LaneCounts(c, S, pen, i, j);
  }

  // ----- The ring of commit times -----

  /** Slot i % robSize holds the commit time of instruction i until it is needed, robSize instructions later. */
  lemma {:induction false} RobHoldsCommit(c: OooConfig, S: seq<Inst>, pen: seq<nat>, i: nat, k: nat)
    requires ValidOoo(c) && i < k <= |S| == |pen| && k <= i + c.robSize
    ensures OooRun(c, S, pen, k).rob[i % c.robSize] == CommitTime(c, S, pen, i)
  {
    if i + 1 < k {
      RobHoldsCommit(c, S, pen, i, k - 1);
      QuotRemIsDivMod(i, c.robSize);
      QuotRemIsDivMod(k - 1, c.robSize);
      RemDistinct(i, k - 1, c.robSize);
    }
  }

  lemma RobGate(c: OooConfig, S: seq<Inst>, pen: seq<nat>, k: nat)
    requires ValidOoo(c) && c.robSize <= k < |S| == |pen|
    ensures OooRun(c, S, pen, k).rob[k % c.robSize] == CommitTime(c, S, pen, k - c.robSize)
  {
    RobHoldsCommit(c, S, pen, k - c.robSize, k);
    SameSlot(k, c.robSize);
    hide OooRun, CommitTime;
  }

  lemma SameSlot(k: nat, n: int)
    requires 1 <= n <= k
    ensures k % n == (k - n) % n
  {
    QuotRemIsDivMod(k, n);
    QuotRemIsDivMod(k - n, n);
  }

  /** At most `robSize` instructions are between dispatch and commit: one enters only after the slot's last owner left. */
  lemma WindowRespected(c: OooConfig, S: seq<Inst>, pen: seq<nat>, i: nat)
    requires ValidOoo(c) && i + c.robSize < |S| == |pen|
    ensures CommitTime(c, S, pen, i) < DispatchTime(c, S, pen, i + c.robSize)
  {
    RobGate(c, S, pen, i + c.robSize);
  }

  // ----- Dominance -----

  /** b has at least the lanes and window of a and does not serialise execution unless a does. */
  predicate OooAtLeast(b: OooConfig, a: OooConfig) {
    a.width <= b.width && a.robSize <= b.robSize && (b.inOrder ==> a.inOrder)
  }

  ghost predicate LaneNoLater(t: Lane, s: Lane) {
    t.cycle < s.cycle || (t.cycle == s.cycle && t.count <= s.count)
  }

  ghost predicate OooNoLater(t: Ooo, s: Ooo) {
    && LaneNoLater(t.disp, s.disp) && LaneNoLater(t.com, s.com)
    && (forall r: Slot :: t.ready[r] <= s.ready[r])
    && t.fetchBlock <= s.fetchBlock && t.lastExec <= s.lastExec && t.lastCommit <= s.lastCommit
  }

  /** The bandwidth lemma: using a lane no later leaves it no later, if the wider stage is the earlier one. */
  lemma OccupyNoLater(t: Lane, s: Lane, wt: int, ws: int, at: int, slowAt: int)
    requires LaneNoLater(t, s) && ws <= wt && at <= slowAt
    requires NextFree(t, wt) <= at && NextFree(s, ws) <= slowAt
    ensures LaneNoLater(Occupy(t, wt, at), Occupy(s, ws, slowAt)) || s.count < 0
  {
  }

  lemma StepOooNoLater(b: OooConfig, a: OooConfig, t: Ooo, s: Ooo, i: nat, d: Inst, pen: nat)
    requires ValidOoo(a) && ValidOoo(b) && OooAtLeast(b, a)
    requires |s.rob| == a.robSize && |t.rob| == b.robSize
    requires OooNoLater(t, s) && OooInv(a, s, i) && OooInv(b, t, i)
    requires b.robSize <= i ==> t.rob[i % b.robSize] <= s.rob[i % a.robSize]
    ensures OooNoLater(OooStep(b, t, i, d, pen), OooStep(a, s, i, d, pen))
  {
    var dt, ds := Dispatch(b, t, i), Dispatch(a, s, i);
    assert dt <= ds;
    LatestMonotone(t.ready, s.ready, d.sources, dt, ds, 0);
    var xt, xs := Execute(b, t, dt, d), Execute(a, s, ds, d);
    assert xt <= xs;
    OccupyNoLater(t.disp, s.disp, b.width, a.width, dt, ds);
    OccupyNoLater(t.com, s.com, b.width, a.width,
                  Max(NextFree(t.com, b.width), xt + d.latency), Max(NextFree(s.com, a.width), xs + d.latency));
  }

  /** The larger window waits for an older, hence earlier, commit. */
  lemma GateNoLater(b: OooConfig, a: OooConfig, S: seq<Inst>, pen: seq<nat>, i: nat)
    requires ValidOoo(a) && ValidOoo(b) && a.robSize <= b.robSize <= i < |S| == |pen|
    requires CommitTime(b, S, pen, i - a.robSize) <= CommitTime(a, S, pen, i - a.robSize)
    ensures OooRun(b, S, pen, i).rob[i % b.robSize] <= OooRun(a, S, pen, i).rob[i % a.robSize]
  {
    var older, newer := i - b.robSize, i - a.robSize;
    assert OooRun(a, S, pen, i).rob[i % a.robSize] == CommitTime(a, S, pen, newer) by { RobGate(a, S, pen, i); }
    assert OooRun(b, S, pen, i).rob[i % b.robSize] == CommitTime(b, S, pen, older) by { RobGate(b, S, pen, i); }
    assert CommitTime(b, S, pen, older) <= CommitTime(b, S, pen, newer) by { InOrderEnds(b, S, pen, older, newer); }
  }

  lemma {:induction false} OooRunNoLater(b: OooConfig, a: OooConfig, S: seq<Inst>, pen: seq<nat>, k: nat)
    requires ValidOoo(a) && ValidOoo(b) && OooAtLeast(b, a) && k <= |S| == |pen|
    ensures OooNoLater(OooRun(b, S, pen, k), OooRun(a, S, pen, k))
  {
    if k > 0 {
      var i := k - 1;
      OooRunNoLater(b, a, S, pen, i);
      OooRunInv(a, S, pen, i);
      OooRunInv(b, S, pen, i);
      if b.robSize <= i {
        OooRunNoLater(b, a, S, pen, i - a.robSize + 1);
        GateNoLater(b, a, S, pen, i);
      }
      StepOooNoLater(b, a, OooRun(b, S, pen, i), OooRun(a, S, pen, i), i, S[i], pen[i]);
    }
  }

  /** Out of order, wider, or with a larger reorder buffer is never slower, on any stream. */
  lemma OutOfOrderNeverSlower(b: OooConfig, a: OooConfig, S: seq<Inst>, pen: seq<nat>)
    requires ValidOoo(a) && ValidOoo(b) && OooAtLeast(b, a) && |S| == |pen|
    ensures OooCycles(b, S, pen) <= OooCycles(a, S, pen)
    ensures forall i :: 0 <= i < |S| ==> CommitTime(b, S, pen, i) <= CommitTime(a, S, pen, i)
  {
    OooRunNoLater(b, a, S, pen, |S|);
    forall i | 0 <= i < |S| ensures CommitTime(b, S, pen, i) <= CommitTime(a, S, pen, i) {
      OooRunNoLater(b, a, S, pen, i + 1);
    }
  }

  // ----- The dataflow limit -----

  lemma StepReady(c: OooConfig, st: Ooo, i: nat, d: Inst, pen: nat, s: Slot)
    requires ValidOoo(c) && |st.rob| == c.robSize
    ensures var st' := OooStep(c, st, i, d, pen);
            st'.ready[s] == if Produces(d, s) then st'.lastExec + d.latency else st.ready[s]
  {
  }

  /** ready[s] is the completion time of the youngest older producer of s, or 0 if there is none. */
  lemma {:induction false} ReadyIsYoungestProducer(c: OooConfig, S: seq<Inst>, pen: seq<nat>, k: nat, s: Slot)
    returns (i: int)
    requires ValidOoo(c) && k <= |S| == |pen|
    ensures -1 <= i < k && forall m :: i < m < k ==> !Produces(S[m], s)
    ensures i == -1 ==> OooRun(c, S, pen, k).ready[s] == 0
    ensures i >= 0 ==> Produces(S[i], s) && OooRun(c, S, pen, k).ready[s] == CompleteTime(c, S, pen, i)
  {
    if k > 0 {
      StepReady(c, OooRun(c, S, pen, k - 1), k - 1, S[k - 1], pen[k - 1], s);
    }
    if k == 0 {
      i := -1;
    } else if Produces(S[k - 1], s) {
      i := k - 1;
    } else {
      i := ReadyIsYoungestProducer(c, S, pen, k - 1, s);
    }
  }

  /** A chain of instructions, each reading a result of the one before. */
  ghost predicate RawChain(S: seq<Inst>, chain: seq<nat>) {
    && chain != []
    && (forall p :: 0 <= p < |chain| ==> chain[p] < |S|)
    && (forall p :: 0 <= p < |chain| - 1 ==> Depends(S, chain[p], chain[p + 1]))
  }

  ghost function Weight(S: seq<Inst>, chain: seq<nat>): int
    requires forall p :: 0 <= p < |chain| ==> chain[p] < |S|
  {
    if chain == [] then 0 else Weight(S, chain[..|chain| - 1]) + S[chain[|chain| - 1]].latency
  }

  lemma DependenceDelays(c: OooConfig, S: seq<Inst>, pen: seq<nat>, i: nat, j: nat)
    requires ValidOoo(c) && i < |S| == |pen| && j < |S| && Depends(S, i, j)
    ensures CompleteTime(c, S, pen, i) <= ExecTime(c, S, pen, j)
  {
    var s: Slot :| RawEdge(S, i, j, s);
    var i' := ReadyIsYoungestProducer(c, S, pen, j, s);
    var st := OooRun(c, S, pen, j);
    LatestIsLeastBound(st.ready, S[j].sources, Dispatch(c, st, j), 0);
  }

  lemma ChainPrefix(S: seq<Inst>, chain: seq<nat>)
    requires RawChain(S, chain) && 1 < |chain|
    ensures RawChain(S, chain[..|chain| - 1])
    ensures Depends(S, chain[|chain| - 2], chain[|chain| - 1])
  {
    var init := chain[..|chain| - 1];
    forall p | 0 <= p < |init| - 1 ensures Depends(S, init[p], init[p + 1]) {
      assert init[p] == chain[p] && init[p + 1] == chain[p + 1];
    }
    var p := |chain| - 2;
    assert Depends(S, chain[p], chain[p + 1]);
  }

  lemma {:induction false} ChainBound(c: OooConfig, S: seq<Inst>, pen: seq<nat>, chain: seq<nat>)
    requires ValidOoo(c) && |S| == |pen| && RawChain(S, chain)
    ensures 1 + Weight(S, chain) <= CompleteTime(c, S, pen, chain[|chain| - 1])
  {
    var j := chain[|chain| - 1];
    StepOrder(c, S, pen, j);
    if |chain| > 1 {
      ChainPrefix(S, chain);
      ChainBound(c, S, pen, chain[..|chain| - 1]);
      DependenceDelays(c, S, pen, chain[|chain| - 2], j);
    }
  }

  /** No width and no window beats the longest latency-weighted chain of true dependences. */
  lemma DataflowLimit(c: OooConfig, S: seq<Inst>, pen: seq<nat>, chain: seq<nat>)
    requires ValidOoo(c) && |S| == |pen| && RawChain(S, chain)
    ensures 1 + Weight(S, chain) <= OooCycles(c, S, pen)
  {
    ChainBound(c, S, pen, chain);
    var j := chain[|chain| - 1];
    StepOrder(c, S, pen, j);
    InOrderEnds(c, S, pen, j, |S| - 1);
  }

  /** Resources that never bind: lanes and window for the whole stream, no redirect, dataflow order. */
  ghost predicate Unconstrained(c: OooConfig, S: seq<Inst>, pen: seq<nat>) {
    && ValidOoo(c) && |S| == |pen| && |S| <= c.width && |S| <= c.robSize && !c.inOrder
    && forall i :: 0 <= i < |pen| ==> pen[i] == 0
  }

  lemma {:induction false} UnconstrainedLanes(c: OooConfig, S: seq<Inst>, pen: seq<nat>, k: nat)
    requires Unconstrained(c, S, pen) && k <= |S|
    ensures OooRun(c, S, pen, k).disp == Lane(1, k) && OooRun(c, S, pen, k).fetchBlock == 0
    ensures OooRun(c, S, pen, k).com.count <= k
  {
    if k > 0 {
      UnconstrainedLanes(c, S, pen, k - 1);
    }
  }

  /** With nothing in the way, an instruction completes exactly at the end of some chain that leads to it. */
  lemma {:induction false} ChainReaching(c: OooConfig, S: seq<Inst>, pen: seq<nat>, j: nat) returns (chain: seq<nat>)
    requires Unconstrained(c, S, pen) && j < |S|
    ensures RawChain(S, chain) && chain[|chain| - 1] == j
    ensures CompleteTime(c, S, pen, j) == 1 + Weight(S, chain)
  {
    UnconstrainedLanes(c, S, pen, j);
    var st := OooRun(c, S, pen, j);
    LatestIsLeastBound(st.ready, S[j].sources, 1, 0);
    if ExecTime(c, S, pen, j) == 1 {
      chain := [j];
      assert chain[..0] == [];
    } else {
      var s: Slot :| s in S[j].sources && Latest(st.ready, S[j].sources, 1, 0) == st.ready[s];
      var i := ReadyIsYoungestProducer(c, S, pen, j, s);
      assert i >= 0 && RawEdge(S, i, j, s);
      var init := ChainReaching(c, S, pen, i);
      chain := init + [j];
      ExtendChain(S, init, j, s);
      hide RawChain, Weight;
    }
  }

  lemma ExtendChain(S: seq<Inst>, init: seq<nat>, j: nat, s: Slot)
    requires RawChain(S, init) && RawEdge(S, init[|init| - 1], j, s)
    ensures RawChain(S, init + [j]) && Weight(S, init + [j]) == Weight(S, init) + S[j].latency
  {
    assert Depends(S, init[|init| - 1], j);
    hide Depends, RawEdge;
    var chain := init + [j];
    forall p | 0 <= p < |chain| - 1 ensures Depends(S, chain[p], chain[p + 1]) {
      if p < |init| - 1 {
        assert chain[p] == init[p] && chain[p + 1] == init[p + 1];
      }
    }
    ChainWeight(S, init, j);
  }

  lemma ChainWeight(S: seq<Inst>, init: seq<nat>, j: nat)
    requires j < |S| && forall p :: 0 <= p < |init| ==> init[p] < |S|
    ensures Weight(S, init + [j]) == Weight(S, init) + S[j].latency
  {
    assert (init + [j])[..|init|] == init;
  }

  lemma {:induction false} LastCommitIsSomeCompletion(c: OooConfig, S: seq<Inst>, pen: seq<nat>, k: nat) returns (j: nat)
    requires Unconstrained(c, S, pen) && k < |S|
    ensures j <= k && CommitTime(c, S, pen, k) == CompleteTime(c, S, pen, j)
  {
    UnconstrainedLanes(c, S, pen, k);
    StepOrder(c, S, pen, k);
    OooRunInv(c, S, pen, k);
    if CommitTime(c, S, pen, k) == CompleteTime(c, S, pen, k) {
      j := k;
    } else {
      j := LastCommitIsSomeCompletion(c, S, pen, k - 1);
    }
  }

  /** With unbounded resources the limit is met: some chain is exactly as long as the run. */
  lemma DataflowLimitAttained(c: OooConfig, S: seq<Inst>, pen: seq<nat>) returns (chain: seq<nat>)
    requires Unconstrained(c, S, pen) && 0 < |S|
    ensures RawChain(S, chain) && OooCycles(c, S, pen) == 1 + Weight(S, chain)
  {
    var j := LastCommitIsSomeCompletion(c, S, pen, |S| - 1);
    chain := ChainReaching(c, S, pen, j);
  }
}
