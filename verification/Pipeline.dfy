/** The structural five-stage pipeline, advanced one cycle at a time. The latches see of the caches only what
    an access costs, so order and accounting are proved for arbitrary costs. */
module Pipeline {
  import opened Arith
  import opened InstStream

  /** A latch holds an instruction's index, or EMPTY. */
  const EMPTY := -1

  /** The cost of an access that hits. */
  const HIT := -1

  datatype Stalls = Stalls(data: nat, control: nat, memory: nat)

  datatype Pipe = Pipe(ifl: int, id: int, ex: int, mem: int, wb: int,
                       next: nat, retired: nat, pending: int,
                       ctrl: nat, fetchStall: int, memStall: int, cycles: nat, stalls: Stalls)

  function Start(): Pipe {
    Pipe(EMPTY, EMPTY, EMPTY, EMPTY, EMPTY, 0, 0, EMPTY, 0, 0, 0, 0, Stalls(0, 0, 0))
  }

  /** Latches and window positions that index the stream. */
  predicate InStream(p: Pipe, n: nat) {
    && EMPTY <= p.ifl < n && EMPTY <= p.id < n && EMPTY <= p.ex < n && EMPTY <= p.mem < n
    && EMPTY <= p.pending < n && p.next <= n
  }

  // ----- Hazard detection -----

  /** Whether some source of d is produced by the instruction in latch x. */
  predicate Feeds(S: seq<Inst>, x: int, d: Inst)
    requires EMPTY <= x < |S|
  {
    x >= 0 && exists s :: s in d.sources && Produces(S[x], s)
  }

  /** With forwarding only a load in EX is too late; without it any producer in EX or MEM is. */
  predicate NeedsStall(forwarding: bool, S: seq<Inst>, id: int, ex: int, mem: int)
    requires EMPTY <= id < |S| && EMPTY <= ex < |S| && EMPTY <= mem < |S|
  {
    && id >= 0
    && if forwarding then Feeds(S, ex, S[id]) && S[ex].isLoad
       else Feeds(S, ex, S[id]) || Feeds(S, mem, S[id])
  }

  // ----- One cycle -----

  function Live(x: int): nat { if x >= 0 then 1 else 0 }

  /** Whether this cycle asks the generator for a new instruction. */
  predicate TakesNext(forwarding: bool, S: seq<Inst>, p: Pipe)
    requires InStream(p, |S|)
  {
    && p.memStall <= 0 && !NeedsStall(forwarding, S, p.id, p.ex, p.mem)
    && p.ctrl == 0 && p.fetchStall <= 0 && p.pending < 0 && p.next < |S|
  }

  /** Instruction k enters IF and fixes the fetch penalty behind it. */
  function EnterIf(pen: seq<nat>, p: Pipe, k: nat): Pipe
    requires k < |pen|
  {
    p.(ifl := k, ctrl := pen[k])
  }

  /** The fetch stage of a cycle in which ID moves on; iCost is what fetching a new instruction costs. */
  function Fetch(pen: seq<nat>, p: Pipe, iCost: int): Pipe
    requires InStream(p, |pen|)
  {
    if p.ctrl > 0 then
      p.(ifl := EMPTY, ctrl := p.ctrl - 1, stalls := p.stalls.(control := p.stalls.control + 1))
    else if p.fetchStall > 0 then
      p.(ifl := EMPTY, fetchStall := p.fetchStall - 1, stalls := p.stalls.(memory := p.stalls.memory + 1))
    else if p.pending >= 0 then
      EnterIf(pen, p.(pending := EMPTY), p.pending)
    else if p.next < |pen| then
      if iCost < 0 then EnterIf(pen, p.(next := p.next + 1), p.next)
      else p.(next := p.next + 1, ifl := EMPTY, pending := p.next, fetchStall := iCost - 1,
              stalls := p.stalls.(memory := p.stalls.memory + 1))
    else p.(ifl := EMPTY)
  }

  /** Behind a data-cache miss the whole pipe holds. */
  function Hold(p: Pipe): Pipe {
    p.(cycles := p.cycles + 1, memStall := p.memStall - 1, stalls := p.stalls.(memory := p.stalls.memory + 1))
  }

  /** WB and MEM advance; dCost is what the data access of the instruction entering MEM costs. */
  function BackEnd(p: Pipe, dCost: int): Pipe {
    p.(cycles := p.cycles + 1, wb := p.mem, mem := p.ex, retired := p.retired + Live(p.mem),
       memStall := if p.ex >= 0 && dCost >= 0 then dCost else p.memStall)
  }

  /** A data hazard puts a bubble in EX; ID and IF keep their instructions. */
  function Bubble(p: Pipe, dCost: int): Pipe {
    var b := BackEnd(p, dCost);
    b.(ex := EMPTY, stalls := b.stalls.(data := b.stalls.data + 1))
  }

  /** Everything moves on and IF is free. */
  function Shift(p: Pipe, dCost: int): Pipe {
    BackEnd(p, dCost).(ex := p.id, id := p.ifl, ifl := EMPTY)
  }

  function Cycle(fwd: bool, S: seq<Inst>, pen: seq<nat>, p: Pipe, dCost: int, iCost: int): (q: Pipe)
    requires InStream(p, |S|) && |pen| == |S|
    ensures q.cycles == p.cycles + 1
  {
    if p.memStall > 0 then Hold(p)
    else if NeedsStall(fwd, S, p.id, p.ex, p.mem) then Bubble(p, dCost)
    else Fetch(pen, Shift(p, dCost), iCost)
  }

  /** The run is over once everything generated has retired. */
  predicate Done(p: Pipe, n: nat) { p.next == n && p.retired >= n }

  // ----- Order: the live latches hold a contiguous run of indices -----

  /** Instructions that have reached MEM, EX and IF. */
  function EnteredMem(p: Pipe): nat { p.retired + Live(p.mem) }
  function EnteredEx(p: Pipe): nat { EnteredMem(p) + Live(p.ex) }
  function Fetched(p: Pipe): nat { EnteredEx(p) + Live(p.id) + Live(p.ifl) }

  /** From WB to IF and the pending fetch, the live latches hold retired-1, retired, ..., next-1 in order. */
  predicate Ordered(p: Pipe, n: nat) {
    && EMPTY <= p.wb && EMPTY <= p.mem && EMPTY <= p.ex && EMPTY <= p.id && EMPTY <= p.ifl && EMPTY <= p.pending
    && (p.wb >= 0 ==> p.wb == p.retired - 1)
    && (p.mem >= 0 ==> p.mem == p.retired)
    && (p.ex >= 0 ==> p.ex == EnteredMem(p))
    && (p.id >= 0 ==> p.id == EnteredEx(p))
    && (p.ifl >= 0 ==> p.ifl == EnteredEx(p) + Live(p.id))
    && (p.pending >= 0 ==> p.pending == Fetched(p) && p.ifl == EMPTY && p.ctrl == 0)
    && (p.fetchStall > 0 ==> p.pending >= 0)
    && p.next == Fetched(p) + Live(p.pending) <= n
  }

  lemma OrderedInStream(p: Pipe, n: nat)
    requires Ordered(p, n)
    ensures InStream(p, n)
  {
  }

  lemma ShiftKeepsOrder(p: Pipe, n: nat, dCost: int)
    requires Ordered(p, n)
    ensures Ordered(Shift(p, dCost), n) && Fetched(Shift(p, dCost)) == Fetched(p)
  {
  }

  lemma BubbleKeepsOrder(p: Pipe, n: nat, dCost: int)
    requires Ordered(p, n) && p.id >= 0
    ensures Ordered(Bubble(p, dCost), n)
  {
  }

  lemma FetchFrame(pen: seq<nat>, p: Pipe, iCost: int)
    requires InStream(p, |pen|)
    ensures var q := Fetch(pen, p, iCost);
            q.wb == p.wb && q.mem == p.mem && q.ex == p.ex && q.id == p.id && q.retired == p.retired
            && q.memStall == p.memStall && q.stalls.data == p.stalls.data
  {
  }

  lemma FetchKeepsOrder(pen: seq<nat>, p: Pipe, iCost: int)
    requires Ordered(p, |pen|) && p.ifl == EMPTY
    ensures InStream(p, |pen|) && Ordered(Fetch(pen, p, iCost), |pen|)
  {
    OrderedInStream(p, |pen|);
  }

  /** Whichever way a cycle goes, order survives it. */
  lemma CycleKeepsOrder(fwd: bool, S: seq<Inst>, pen: seq<nat>, p: Pipe, dCost: int, iCost: int)
    requires |pen| == |S| && Ordered(p, |S|)
    ensures InStream(p, |S|) && Ordered(Cycle(fwd, S, pen, p, dCost, iCost), |S|)
  {
    OrderedInStream(p, |S|);
    hide NeedsStall, Bubble, Shift, Fetch;
    var q := Cycle(fwd, S, pen, p, dCost, iCost);
    if p.memStall > 0 {
      assert q == Hold(p);
    } else if NeedsStall(fwd, S, p.id, p.ex, p.mem) {
      BubbleKeepsOrder(p, |S|, dCost);
      assert q == Bubble(p, dCost);
    } else {
      ShiftKeepsOrder(p, |S|, dCost);
      FetchKeepsOrder(pen, Shift(p, dCost), iCost);
      assert q == Fetch(pen, Shift(p, dCost), iCost);
    }
  }

  /** What a cycle retires, if anything, is the next instruction in program order. */
  lemma RetiresInOrder(fwd: bool, S: seq<Inst>, pen: seq<nat>, p: Pipe, dCost: int, iCost: int)
    requires |pen| == |S| && Ordered(p, |S|)
    ensures InStream(p, |S|)
    ensures var q := Cycle(fwd, S, pen, p, dCost, iCost);
            if p.memStall <= 0 && p.mem >= 0 then q.wb == p.retired && q.retired == p.retired + 1
            else q.retired == p.retired
  {
    OrderedInStream(p, |S|);
    ShiftKeepsOrder(p, |S|, dCost);
    OrderedInStream(Shift(p, dCost), |S|);
    FetchFrame(pen, Shift(p, dCost), iCost);
  }

  // ----- Accounting: where every cycle went -----

  ghost predicate SmallPenalties(pen: seq<nat>) { forall i :: 0 <= i < |pen| ==> pen[i] <= CONTROL_PENALTY }

  /** Bubbles still owed behind the youngest fetched instruction. */
  function Owed(p: Pipe, pen: seq<nat>): int {
    if 0 <= p.ifl < |pen| then pen[p.ifl]
    else if 0 <= p.id < |pen| && pen[p.id] > 0 then pen[p.id] - 1
    else 0
  }

  /** Once everything is fetched, the empty fetch slots that no stall was charged for. */
  function Drained(p: Pipe, pen: seq<nat>): int
    requires 0 < |pen|
  {
    var last := |pen| - 1;
    var owed: int := pen[last];
    if p.next < |pen| || p.pending >= 0 || p.ifl == last then 0
    else if p.id == last then (if owed > 0 then 0 else 1)
    else if p.ex == last then 2 - owed
    else if p.mem == last then 3 - owed
    else 4 - owed
  }

  /** Every cycle fetched an instruction, was charged to a stall, or drained the pipe. */
  ghost predicate Accounted(p: Pipe, pen: seq<nat>) {
    && 0 < |pen|
    && p.ctrl == Owed(p, pen)
    && p.cycles == Fetched(p) + p.stalls.data + p.stalls.control + p.stalls.memory + Drained(p, pen)
    && 0 <= p.memStall
  }

  /** The account in the middle of a cycle, with IF free and one slot to fill. */
  ghost predicate AccountedMid(p: Pipe, pen: seq<nat>) {
    && 0 < |pen| && p.ifl == EMPTY && 0 <= p.memStall
    && p.ctrl == (if 0 <= p.id < |pen| then pen[p.id] else if 0 <= p.ex < |pen| && pen[p.ex] > 0 then pen[p.ex] - 1 else 0)
    && var last := |pen| - 1; var owed: int := pen[last];
       p.cycles == Fetched(p) + p.stalls.data + p.stalls.control + p.stalls.memory + 1
                   + if p.next < |pen| || p.pending >= 0 || p.id == last then 0
                     else if p.ex == last then (if owed > 0 then 0 else 1)
                     else if p.mem == last then 2 - owed
                     else 3 - owed
  }

  lemma ShiftKeepsAccount(pen: seq<nat>, p: Pipe, dCost: int)
    requires Ordered(p, |pen|) && SmallPenalties(pen) && Accounted(p, pen) && !Done(p, |pen|)
    ensures AccountedMid(Shift(p, dCost), pen)
  {
    ShiftKeepsOrder(p, |pen|, dCost);
  }

  lemma FetchKeepsAccount(pen: seq<nat>, p: Pipe, iCost: int)
    requires Ordered(p, |pen|) && SmallPenalties(pen) && AccountedMid(p, pen) && InStream(p, |pen|)
    ensures Accounted(Fetch(pen, p, iCost), pen)
  {
  }

  lemma CycleKeepsAccount(fwd: bool, S: seq<Inst>, pen: seq<nat>, p: Pipe, dCost: int, iCost: int)
    requires |pen| == |S| && Ordered(p, |S|) && SmallPenalties(pen) && Accounted(p, pen) && !Done(p, |S|)
    ensures InStream(p, |S|) && Accounted(Cycle(fwd, S, pen, p, dCost, iCost), pen)
  {
    OrderedInStream(p, |S|);
    if p.memStall <= 0 && !NeedsStall(fwd, S, p.id, p.ex, p.mem) {
      ShiftKeepsOrder(p, |S|, dCost);
      OrderedInStream(Shift(p, dCost), |S|);
      ShiftKeepsAccount(pen, p, dCost);
      FetchKeepsAccount(pen, Shift(p, dCost), iCost);
    }
  }

  /** The closed form at normal exit: the last instruction's own penalty is never paid. */
  lemma FinalAccount(p: Pipe, pen: seq<nat>)
    requires Ordered(p, |pen|) && Accounted(p, pen) && Done(p, |pen|)
    ensures p.cycles == |pen| + 4 + p.stalls.data + p.stalls.control + p.stalls.memory - pen[|pen| - 1]
  {
  }

  // ----- Bounded stalling -----

  function Positive(x: int): nat { if x > 0 then x else 0 }

  /** Memory stalls: a fetch costs at most fMax stall cycles, the cycle in which its miss is found included, a data access dMax. */
  ghost predicate Bounded(p: Pipe, dMax: nat, fMax: nat) {
    p.stalls.memory + Positive(p.memStall) + Positive(p.fetchStall) <= Times(p.next, fMax) + Times(EnteredMem(p), dMax)
  }

  lemma EnterMemBound(p: Pipe, dCost: int, dMax: nat)
    requires p.memStall <= 0 && dCost <= dMax
    ensures EnteredMem(BackEnd(p, dCost)) == EnteredMem(p) + Live(p.ex)
    ensures Times(EnteredMem(p), dMax) + Positive(BackEnd(p, dCost).memStall) <= Times(EnteredMem(BackEnd(p, dCost)), dMax)
  {
    assert Times(EnteredMem(p) + 1, dMax) == Times(EnteredMem(p), dMax) + dMax;
  }

  lemma ShiftKeepsBounds(p: Pipe, n: nat, dCost: int, dMax: nat, fMax: nat)
    requires Ordered(p, n) && Bounded(p, dMax, fMax) && p.memStall <= 0 && dCost <= dMax
    ensures Bounded(Shift(p, dCost), dMax, fMax)
  {
    EnterMemBound(p, dCost, dMax);
    ShiftKeepsOrder(p, n, dCost);
  }

  lemma FetchKeepsBounds(pen: seq<nat>, p: Pipe, iCost: int, dMax: nat, fMax: nat)
    requires InStream(p, |pen|) && p.ifl == EMPTY && (iCost >= 0 ==> Max(1, iCost) <= fMax)
    requires Bounded(p, dMax, fMax)
    ensures Bounded(Fetch(pen, p, iCost), dMax, fMax)
  {
    assert Times(p.next + 1, fMax) == Times(p.next, fMax) + fMax;
  }

  lemma CycleKeepsBounds(fwd: bool, S: seq<Inst>, pen: seq<nat>, p: Pipe, dCost: int, iCost: int, dMax: nat, fMax: nat)
    requires |pen| == |S| && Ordered(p, |S|) && Bounded(p, dMax, fMax)
    requires dCost <= dMax && (iCost >= 0 ==> Max(1, iCost) <= fMax)
    ensures InStream(p, |S|) && Bounded(Cycle(fwd, S, pen, p, dCost, iCost), dMax, fMax)
  {
    OrderedInStream(p, |S|);
    hide NeedsStall, Fetch;
    if p.memStall <= 0 {
      if NeedsStall(fwd, S, p.id, p.ex, p.mem) {
        EnterMemBound(p, dCost, dMax);
      } else {
        ShiftKeepsOrder(p, |S|, dCost);
        OrderedInStream(Shift(p, dCost), |S|);
        ShiftKeepsBounds(p, |S|, dCost, dMax, fMax);
        FetchKeepsBounds(pen, Shift(p, dCost), iCost, dMax, fMax);
      }
    }
  }

  // ----- Data stalls and control bubbles share two cycles an instruction -----

  /** The penalties of the first k instructions. */
  function PenSum(pen: seq<nat>, k: nat): nat
    requires k <= |pen|
  {
    if k == 0 then 0 else PenSum(pen, k - 1) + pen[k - 1]
  }

  /** Bubbles behind an instruction keep its follower away from it. */
  ghost predicate Spaced(p: Pipe, pen: seq<nat>)
    requires InStream(p, |pen|)
  {
    && (p.id >= 0 && p.ex >= 0 ==> pen[p.ex] == 0)
    && (p.id >= 0 && p.ex < 0 && p.mem >= 0 ==> pen[p.mem] <= 1)
    && (p.ifl >= 0 && p.id >= 0 ==> pen[p.id] == 0)
    && (p.ifl >= 0 && p.id < 0 && p.ex >= 0 ==> pen[p.ex] <= 1)
  }

  function Left(penalty: int): int { 2 - penalty }

  /** Data stalls that the instruction in EX or MEM can still cause, the bubbles behind it taken off. */
  function Credit(p: Pipe, pen: seq<nat>): int
    requires InStream(p, |pen|)
  {
    if p.ex >= 0 then Left(pen[p.ex]) else if p.mem >= 0 then Min(1, Left(pen[p.mem])) else 0
  }

  /** Penalties are paid in full, and what they leave of two cycles an instruction covers the data stalls behind it. */
  ghost predicate Metered(p: Pipe, pen: seq<nat>) {
    && Ordered(p, |pen|) && InStream(p, |pen|) && Spaced(p, pen)
    && p.stalls.control + p.ctrl == PenSum(pen, Fetched(p))
    && p.stalls.data + Credit(p, pen) + PenSum(pen, EnteredEx(p)) <= 2 * EnteredEx(p)
  }

  /** Nothing in the pipe and nothing stalled. */
  lemma NothingIsMetered(pen: seq<nat>, p: Pipe)
    requires p.ifl == p.id == p.ex == p.mem == p.wb == p.pending == EMPTY && p.next == p.retired == 0 && p.fetchStall <= 0
    requires p.ctrl == 0 && p.stalls.data == 0 && p.stalls.control == 0
    ensures Metered(p, pen)
  {
    hide PenSum;
    assert PenSum(pen, 0) == 0 by { NoPenalties(pen); }
  }

  lemma NoPenalties(pen: seq<nat>)
    ensures PenSum(pen, 0) == 0
  {
  }

  lemma BubbleKeepsMeter(pen: seq<nat>, p: Pipe, dCost: int)
    requires Metered(p, pen) && SmallPenalties(pen) && p.memStall <= 0 && p.id >= 0 && (p.ex >= 0 || p.mem >= 0)
    ensures Metered(Bubble(p, dCost), pen)
  {
    BubbleKeepsOrder(p, |pen|, dCost);
    OrderedInStream(Bubble(p, dCost), |pen|);
  }

  lemma ShiftKeepsMeter(pen: seq<nat>, p: Pipe, dCost: int)
    requires Metered(p, pen) && SmallPenalties(pen) && p.memStall <= 0
    ensures Metered(Shift(p, dCost), pen)
  {
    ShiftKeepsOrder(p, |pen|, dCost);
    OrderedInStream(Shift(p, dCost), |pen|);
    var q := Shift(p, dCost);
    assert EnteredEx(q) == EnteredEx(p) + Live(p.id);
    if p.id >= 0 {
      assert PenSum(pen, EnteredEx(q)) == PenSum(pen, EnteredEx(p)) + pen[p.id];
    }
  }

  /** What the fetch stage does to control stalls and to the youngest instruction. */
  lemma FetchEnters(pen: seq<nat>, p: Pipe, iCost: int)
    requires Ordered(p, |pen|) && InStream(p, |pen|) && p.ifl == EMPTY
    ensures var q := Fetch(pen, p, iCost);
            if q.ifl >= 0 then p.ctrl == 0 && q.ifl == Fetched(p) < |pen| && q.ctrl == pen[q.ifl] && q.stalls.control == p.stalls.control
            else q.ifl == EMPTY && q.stalls.control + q.ctrl == p.stalls.control + p.ctrl
  {
  }

  lemma FetchKeepsMeter(pen: seq<nat>, p: Pipe, iCost: int)
    requires Metered(p, pen) && SmallPenalties(pen) && AccountedMid(p, pen)
    ensures Metered(Fetch(pen, p, iCost), pen)
  {
    FetchKeepsOrder(pen, p, iCost);
    var q := Fetch(pen, p, iCost);
    OrderedInStream(q, |pen|);
    FetchFrame(pen, p, iCost);
    FetchEnters(pen, p, iCost);
    hide Fetch, Ordered;
    assert EnteredEx(q) == EnteredEx(p) && Credit(q, pen) == Credit(p, pen);
    if q.ifl >= 0 {
      assert Fetched(q) == Fetched(p) + 1;
      assert PenSum(pen, Fetched(p) + 1) == PenSum(pen, Fetched(p)) + pen[Fetched(p)];
    } else {
      assert Fetched(q) == Fetched(p);
    }
  }

  lemma CycleKeepsMeter(fwd: bool, S: seq<Inst>, pen: seq<nat>, p: Pipe, dCost: int, iCost: int)
    requires |pen| == |S| && SmallPenalties(pen) && Metered(p, pen) && Accounted(p, pen) && !Done(p, |S|)
    ensures InStream(p, |S|) && Metered(Cycle(fwd, S, pen, p, dCost, iCost), pen)
  {
    hide Fetch, Shift;
    if p.memStall <= 0 {
      if NeedsStall(fwd, S, p.id, p.ex, p.mem) {
        BubbleKeepsMeter(pen, p, dCost);
      } else {
        ShiftKeepsAccount(pen, p, dCost);
        ShiftKeepsMeter(pen, p, dCost);
        FetchKeepsMeter(pen, Shift(p, dCost), iCost);
      }
    }
  }

  lemma {:induction false} PenaltiesAdd(pen: seq<nat>, j: nat, k: nat)
    requires j <= k <= |pen| && SmallPenalties(pen)
    ensures PenSum(pen, j) <= PenSum(pen, k) <= PenSum(pen, j) + 2 * (k - j)
    decreases k
  {
    if j < k {
      PenaltiesAdd(pen, j, k - 1);
    }
  }

  /** So together they take at most two cycles an instruction. */
  lemma MeterBounds(p: Pipe, pen: seq<nat>)
    requires Metered(p, pen) && SmallPenalties(pen)
    ensures p.stalls.data + p.stalls.control <= 2 * Fetched(p)
  {
    PenaltiesAdd(pen, EnteredEx(p), Fetched(p));
    assert Credit(p, pen) >= 0;
  }

  // ----- The safety net -----

  /** The loop's own limit on cycles, from the instructions generated before the cycle. */
  function SafetyNet(next: nat, perInst: nat): nat { Times(next + 16, perInst) + 64 }

  lemma SlackArithmetic(next: nat, inMem: nat, dMax: nat, fMax: nat, perInst: nat)
    requires inMem <= next && 3 + fMax + dMax <= perInst
    ensures 3 * next + 5 + Times(next, fMax) + Times(inMem, dMax) <= SafetyNet(next, perInst)
  {
    hide Times;
    var slack := perInst - (3 + fMax + dMax);
    TimesMonotone(inMem, next, dMax);
    TimesAdds(next, 3 + fMax + dMax, slack);
    TimesAdds(next, 3 + fMax, dMax);
    TimesAdds(next, 3, fMax);
    TimesIsProduct(next, 3);
    TimesShift(next, 16, perInst);
  }

  /** Costs that leave three cycles of what the limit allows an instruction never reach it. */
  lemma NetIsSlack(fwd: bool, S: seq<Inst>, pen: seq<nat>, p: Pipe, dCost: int, iCost: int, dMax: nat, fMax: nat, perInst: nat)
    requires |pen| == |S| && SmallPenalties(pen) && Metered(p, pen) && Accounted(p, pen) && Bounded(p, dMax, fMax)
    requires 3 + fMax + dMax <= perInst
    ensures InStream(p, |S|)
    ensures Cycle(fwd, S, pen, p, dCost, iCost).cycles <= SafetyNet(p.next, perInst)
  {
    MeterBounds(p, pen);
    SlackArithmetic(p.next, EnteredMem(p), dMax, fMax, perInst);
    assert Drained(p, pen) <= 4;
  }
}
