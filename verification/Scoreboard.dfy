/** In-order superscalar issue: a per-register ready-cycle scoreboard with `width` lanes a cycle. */
module Scoreboard {
  import opened Arith
  import opened InstStream

  type Ready = r: seq<int> | |r| == FLAG_REG + 1 witness seq(FLAG_REG + 1, _ => 0)

  datatype Config = Config(width: int, forwarding: bool)

  predicate ValidConfig(c: Config) { 1 <= c.width }

  datatype State = State(curIf: int, curCount: int, ready: Ready, fetchBlock: int, lastIf: int)

  function Zeros(): Ready { seq(FLAG_REG + 1, _ => 0) }

  function Init(): State { State(0, 0, Zeros(), 0, 0) }

  /** The latest of `base` and the ready cycles of the given slots, each moved `lead` cycles earlier. */
  function Latest(ready: Ready, slots: seq<Slot>, base: int, lead: int): int {
    if slots == [] then base
    else Max(Latest(ready, slots[..|slots| - 1], base, lead), ready[slots[|slots| - 1]] - lead)
  }

  lemma {:induction false} LatestIsLeastBound(ready: Ready, slots: seq<Slot>, base: int, lead: int)
    ensures base <= Latest(ready, slots, base, lead)
    ensures forall s :: s in slots ==> ready[s] - lead <= Latest(ready, slots, base, lead)
    ensures Latest(ready, slots, base, lead) == base
         || exists s :: s in slots && Latest(ready, slots, base, lead) == ready[s] - lead
  {
    if slots != [] {
      LatestIsLeastBound(ready, slots[..|slots| - 1], base, lead);
      assert slots == slots[..|slots| - 1] + [slots[|slots| - 1]];
    }
  }

  lemma {:induction false} LatestMonotone(r1: Ready, r2: Ready, slots: seq<Slot>, b1: int, b2: int, lead: int)
    requires b1 <= b2 && forall s: Slot :: r1[s] <= r2[s]
    ensures Latest(r1, slots, b1, lead) <= Latest(r2, slots, b2, lead)
  {
    if slots != [] {
      LatestMonotone(r1, r2, slots[..|slots| - 1], b1, b2, lead);
    }
  }

  /** The fetch cycle allowed by lanes and branch redirects alone. */
  function Earliest(c: Config, s: State, i: nat): int {
    Max(if i == 0 then 1 else if s.curCount < c.width then s.curIf else s.curIf + 1, s.fetchBlock)
  }

  /** EX comes two cycles after fetch, so an operand must be ready by then. */
  function Issue(c: Config, s: State, i: nat, d: Inst): int {
    Latest(s.ready, d.sources, Earliest(c, s, i), 2)
  }

  /** Cycles from fetch until a consumer's EX may read the result through slot s. */
  function ResultDelay(c: Config, d: Inst): int {
    if c.forwarding then (if d.isLoad then 4 else 3) else 5
  }

  function Publish(ready: Ready, d: Inst, dataCycle: int, flagCycle: int): Ready {
    var r := if d.hasWrite then ready[d.writeReg := dataCycle] else ready;
    if d.setsFlags then r[FLAG_REG := flagCycle] else r
  }

  function Step(c: Config, s: State, i: nat, d: Inst, pen: nat): State {
    var iff := Issue(c, s, i, d);
    var shared := iff == s.curIf && s.curCount < c.width;
    State(iff, if shared then s.curCount + 1 else 1,
          Publish(s.ready, d, iff + ResultDelay(c, d), iff + if c.forwarding then 3 else 5),
          if pen > 0 then iff + 1 + pen else s.fetchBlock,
          iff)
  }

  /** The scoreboard after the first k instructions. */
  function Run(c: Config, S: seq<Inst>, pen: seq<nat>, k: nat): State
    requires k <= |S| == |pen|
  {
    if k == 0 then Init() else Step(c, Run(c, S, pen, k - 1), k - 1, S[k - 1], pen[k - 1])
  }

  /** The fetch cycle of instruction i. */
  function Iff(c: Config, S: seq<Inst>, pen: seq<nat>, i: nat): int
    requires i < |S| == |pen|
  {
    Run(c, S, pen, i + 1).curIf
  }

  function Cycles(c: Config, S: seq<Inst>, pen: seq<nat>): int
    requires |S| == |pen|
  {
    if |S| == 0 then 0 else Run(c, S, pen, |S|).lastIf + 4
  }

  // ----- What every step keeps -----

  ghost predicate Inv(c: Config, s: State, k: nat) {
    && s.lastIf == s.curIf && 0 <= s.curIf && (k > 0 ==> 1 <= s.curIf) && 1 <= c.width
    && (if k == 0 then s == Init() else 1 <= s.curCount <= c.width && k <= Times(s.curIf - 1, c.width) + s.curCount)
  }

  lemma StepKeepsInv(c: Config, s: State, k: nat, d: Inst, pen: nat)
    requires ValidConfig(c) && Inv(c, s, k)
    ensures Inv(c, Step(c, s, k, d, pen), k + 1)
    ensures s.curIf <= Issue(c, s, k, d)
  {
    LatestIsLeastBound(s.ready, d.sources, Earliest(c, s, k), 2);
    var iff := Issue(c, s, k, d);
    if 0 < k && s.curIf < iff {
      TimesMonotone(s.curIf, iff - 1, c.width);
      assert Times(s.curIf, c.width) == Times(s.curIf - 1, c.width) + c.width;
    }
  }

  lemma {:induction false} RunInv(c: Config, S: seq<Inst>, pen: seq<nat>, k: nat)
    requires ValidConfig(c) && k <= |S| == |pen|
    ensures Inv(c, Run(c, S, pen, k), k)
  {
    if k > 0 {
      RunInv(c, S, pen, k - 1);
      StepKeepsInv(c, Run(c, S, pen, k - 1), k - 1, S[k - 1], pen[k - 1]);
    }
  }

  /** In-order issue: fetch cycles never decrease. */
  lemma {:induction false} FetchNondecreasing(c: Config, S: seq<Inst>, pen: seq<nat>, i: nat, j: nat)
    requires ValidConfig(c) && i <= j < |S| == |pen|
    ensures 1 <= Iff(c, S, pen, i) <= Iff(c, S, pen, j)
  {
    RunInv(c, S, pen, j);
    StepKeepsInv(c, Run(c, S, pen, j), j, S[j], pen[j]);
    if i < j {
      FetchNondecreasing(c, S, pen, i, j - 1);
    }
  }

  /** Instructions that share a cycle fill its lanes one after the other. */
  lemma {:induction false} BundleCount(c: Config, S: seq<Inst>, pen: seq<nat>, i: nat, j: nat)
    requires ValidConfig(c) && i <= j < |S| == |pen|
    ensures Iff(c, S, pen, i) == Iff(c, S, pen, j)
        ==> Run(c, S, pen, j + 1).curCount == Run(c, S, pen, i + 1).curCount + (j - i)
  {
    if i < j {
      FetchNondecreasing(c, S, pen, i, j - 1);
      FetchNondecreasing(c, S, pen, j - 1, j);
      BundleCount(c, S, pen, i, j - 1);
      LatestIsLeastBound(Run(c, S, pen, j).ready, S[j].sources, Earliest(c, Run(c, S, pen, j), j), 2);
    }
  }

  /** No cycle holds more than `width` instructions. */
  lemma BundleWidth(c: Config, S: seq<Inst>, pen: seq<nat>, i: nat)
    requires ValidConfig(c) && i + c.width < |S| == |pen|
    ensures Iff(c, S, pen, i) < Iff(c, S, pen, i + c.width)
  {
    FetchNondecreasing(c, S, pen, i, i + c.width);
    assert 1 <= Run(c, S, pen, i + 1).curCount by { RunInv(c, S, pen, i + 1); }
    assert Run(c, S, pen, i + c.width + 1).curCount <= c.width by { RunInv(c, S, pen, i + c.width + 1); }
    BundleCount(c, S, pen, i, i + c.width);
  }

  lemma IssueSlots(c: Config, S: seq<Inst>, pen: seq<nat>)
    requires ValidConfig(c) && 0 < |S| == |pen|
    ensures 4 <= Cycles(c, S, pen)
    ensures |S| <= Times(Cycles(c, S, pen) - 4, c.width)
  {
    var s := Run(c, S, pen, |S|);
    RunInv(c, S, pen, |S|);
    assert Times(s.curIf, c.width) == Times(s.curIf - 1, c.width) + c.width;
  }

  /** n instructions need at least n / width cycles beyond the four that fill the pipeline. */
  lemma Throughput(c: Config, S: seq<Inst>, pen: seq<nat>)
    requires ValidConfig(c) && 0 < |S| == |pen|
    ensures |S| <= c.width * (Cycles(c, S, pen) - 4)
  {
    IssueSlots(c, S, pen);
    hide *;
    TimesIsProduct(Cycles(c, S, pen) - 4, c.width);
  }

  // ----- The scoreboard remembers the youngest producer -----

  lemma StepReady(c: Config, st: State, i: nat, d: Inst, pen: nat, s: Slot)
    ensures var st' := Step(c, st, i, d, pen);
            st'.ready[s] == if Produces(d, s) then st'.curIf + ResultDelay(c, d) else st.ready[s]
  {
  }

  /** ready[s] keeps the youngest producer's cycle while nobody else writes s. */
  lemma {:induction false} ReadySurvives(c: Config, S: seq<Inst>, pen: seq<nat>, i: nat, j: nat, s: Slot)
    requires ValidConfig(c) && i < j <= |S| == |pen|
    requires Produces(S[i], s) && forall k :: i < k < j ==> !Produces(S[k], s)
    ensures Run(c, S, pen, j).ready[s] == Iff(c, S, pen, i) + ResultDelay(c, S[i])
  {
    StepReady(c, Run(c, S, pen, j - 1), j - 1, S[j - 1], pen[j - 1], s);
    if i + 1 < j {
      ReadySurvives(c, S, pen, i, j - 1, s);
    }
  }

  /** ready[s] belongs to the youngest older producer of s, or is 0 if there is none. */
  lemma {:induction false} YoungestProducer(c: Config, S: seq<Inst>, pen: seq<nat>, k: nat, s: Slot) returns (i: int)
    requires k <= |S| == |pen|
    ensures -1 <= i < k && forall m :: i < m < k ==> !Produces(S[m], s)
    ensures i == -1 ==> Run(c, S, pen, k).ready[s] == 0
    ensures i >= 0 ==> Produces(S[i], s) && Run(c, S, pen, k).ready[s] == Iff(c, S, pen, i) + ResultDelay(c, S[i])
  {
    if k > 0 {
      StepReady(c, Run(c, S, pen, k - 1), k - 1, S[k - 1], pen[k - 1], s);
    }
    if k == 0 {
      i := -1;
    } else if Produces(S[k - 1], s) {
      i := k - 1;
    } else {
      i := YoungestProducer(c, S, pen, k - 1, s);
    }
  }

  /** A consumer is fetched late enough for its operand, so a RAW pair never shares a cycle. */
  lemma RawSeparation(c: Config, S: seq<Inst>, pen: seq<nat>, i: nat, j: nat, s: Slot)
    requires ValidConfig(c) && |S| == |pen| && RawEdge(S, i, j, s)
    ensures Iff(c, S, pen, i) + ResultDelay(c, S[i]) <= Iff(c, S, pen, j) + 2
    ensures Iff(c, S, pen, i) < Iff(c, S, pen, j)
  {
    ReadySurvives(c, S, pen, i, j, s);
    LatestIsLeastBound(Run(c, S, pen, j).ready, S[j].sources, Earliest(c, Run(c, S, pen, j), j), 2);
  }

  // ----- More resources never hurt -----

  /** b has at least the lanes of a, and forwards if a does. */
  predicate AtLeast(b: Config, a: Config) {
    a.width <= b.width && (a.forwarding ==> b.forwarding)
  }

  /** Bandwidth use is compared lexicographically: an earlier cycle, or fewer lanes used in the same one. */
  ghost predicate NoLater(t: State, s: State) {
    && (t.curIf < s.curIf || (t.curIf == s.curIf && t.curCount <= s.curCount))
    && (forall r: Slot :: t.ready[r] <= s.ready[r])
    && t.fetchBlock <= s.fetchBlock
    && t.lastIf <= s.lastIf
  }

  lemma StepNoLater(b: Config, a: Config, t: State, s: State, k: nat, d: Inst, pen: nat)
    requires ValidConfig(a) && ValidConfig(b) && AtLeast(b, a)
    requires NoLater(t, s) && Inv(a, s, k) && Inv(b, t, k)
    ensures NoLater(Step(b, t, k, d, pen), Step(a, s, k, d, pen))
  {
    LatestMonotone(t.ready, s.ready, d.sources, Earliest(b, t, k), Earliest(a, s, k), 2);
    LatestIsLeastBound(s.ready, d.sources, Earliest(a, s, k), 2);
    LatestIsLeastBound(t.ready, d.sources, Earliest(b, t, k), 2);
  }

  lemma {:induction false} RunNoLater(b: Config, a: Config, S: seq<Inst>, pen: seq<nat>, k: nat)
    requires ValidConfig(a) && ValidConfig(b) && AtLeast(b, a) && k <= |S| == |pen|
    ensures NoLater(Run(b, S, pen, k), Run(a, S, pen, k))
  {
    if k > 0 {
      RunNoLater(b, a, S, pen, k - 1);
      RunInv(a, S, pen, k - 1);
      RunInv(b, S, pen, k - 1);
      StepNoLater(b, a, Run(b, S, pen, k - 1), Run(a, S, pen, k - 1), k - 1, S[k - 1], pen[k - 1]);
    }
  }

  /** Wider issue is never slower, and forwarding is never slower than none, on any stream. */
  lemma WiderAndForwardingNeverSlower(b: Config, a: Config, S: seq<Inst>, pen: seq<nat>)
    requires ValidConfig(a) && ValidConfig(b) && AtLeast(b, a) && |S| == |pen|
    ensures Cycles(b, S, pen) <= Cycles(a, S, pen)
    ensures forall i :: 0 <= i < |S| ==> Iff(b, S, pen, i) <= Iff(a, S, pen, i)
  {
    RunNoLater(b, a, S, pen, |S|);
    forall i | 0 <= i < |S| ensures Iff(b, S, pen, i) <= Iff(a, S, pen, i) {
      RunNoLater(b, a, S, pen, i + 1);
    }
  }
}
