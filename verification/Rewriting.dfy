/** Replacing a short stretch of label-free code by an equivalent shorter one preserves every halting run. */
module Rewriting {
  import opened Words
  import opened Wrappers
  import opened Machine
  import opened CodeRuns

  predicate SelfMove(l: Line) { l.Op? && l.i.Mov? && l.i.rd == l.i.rs }

  predicate PushPop(a: Line, b: Line) { a.Op? && a.i.Push? && b.Op? && b.i.Pop? }

  /** The operands are compared as text, which names register and offset; the register stored is not looked at. */
  predicate StoreLoad(a: Line, b: Line) {
    a.Op? && a.i.Store? && b.Op? && b.i.Load? && b.i.rd == 0 && a.i.rd == b.i.rs && a.i.off == b.i.off
  }

  /** The three rewrites: x may become y. */
  ghost predicate Rewrites(x: seq<Line>, y: seq<Line>) {
    || (|x| == 1 && SelfMove(x[0]) && y == [])
    || (|x| == 2 && PushPop(x[0], x[1]) && y == if x[0].i.rd == x[1].i.rd then [] else [Op(Mov(x[1].i.rd, x[0].i.rd))])
    || (|x| == 2 && StoreLoad(x[0], x[1]) && x[0].i.rs == 0 && y == [x[0]])
  }

  /** A rewrite in its context. */
  datatype Site = Site(a: seq<Line>, x: seq<Line>, y: seq<Line>, b: seq<Line>)

  function Old(s: Site): seq<Line> { s.a + (s.x + s.b) }

  function New(s: Site): seq<Line> { s.a + (s.y + s.b) }

  // ----- Positions -----

  /** Positions not strictly inside x. */
  predicate Boundary(s: Site, k: nat) { k <= |s.a| || |s.a| + |s.x| <= k }

  function Moved(s: Site, k: nat): nat
    requires Boundary(s, k)
  {
    if k <= |s.a| then k else k - |s.x| + |s.y|
  }

  lemma {:induction false} FindIs(lines: seq<Line>, l: Label, k: nat)
    requires k <= |lines| && (k < |lines| ==> lines[k] == Lab(l)) && forall j :: 0 <= j < k ==> lines[j] != Lab(l)
    ensures Find(lines, l) == k
  {
  }

  lemma LineMoved(s: Site, k: nat)
    requires Rewrites(s.x, s.y) && k < |Old(s)| && Boundary(s, k) && k != |s.a|
    ensures Moved(s, k) < |New(s)| && New(s)[Moved(s, k)] == Old(s)[k]
  {
  }

  lemma NoLabelInside(s: Site, k: nat)
    requires Rewrites(s.x, s.y) && |s.a| <= k < |s.a| + |s.x|
    ensures k < |Old(s)| && Old(s)[k] == s.x[k - |s.a|] && !Old(s)[k].Lab?
  {
  }

  /** Labels move with their lines. */
  lemma FindMoved(s: Site, l: Label)
    requires Rewrites(s.x, s.y)
    ensures Boundary(s, Find(Old(s), l)) && (Find(Old(s), l) < |Old(s)| <==> Find(New(s), l) < |New(s)|)
    ensures Find(New(s), l) == Moved(s, Find(Old(s), l))
    ensures Find(Old(s), l) < |Old(s)| ==> Old(s)[Find(Old(s), l)] == Lab(l)
  {
    var k := Find(Old(s), l);
    if |s.a| <= k < |s.a| + |s.x| {
      NoLabelInside(s, k);
    }
    var k' := Moved(s, k);
    assert k < |Old(s)| ==> New(s)[k'] == Lab(l) by {
      if k < |Old(s)| {
        LineMoved(s, k);
      }
    }
    forall j | 0 <= j < k' ensures New(s)[j] != Lab(l) {
      NotBefore(s, l, j);
    }
    hide Find, Rewrites;
    FindIs(New(s), l, k');
  }

  lemma NotBefore(s: Site, l: Label, j: nat)
    requires Rewrites(s.x, s.y) && Boundary(s, Find(Old(s), l)) && j < Moved(s, Find(Old(s), l)) && j < |New(s)|
    ensures New(s)[j] != Lab(l)
  {
    if j < |s.a| {
      assert Old(s)[j] == New(s)[j];
    } else if |s.a| + |s.y| <= j {
      assert Old(s)[j - |s.y| + |s.x|] == New(s)[j];
    } else {
      assert New(s)[j] == s.y[j - |s.a|];
    }
  }

  // ----- States -----

  function MovedSlot(s: Site, v: Slot): Slot { if v.Back? && Boundary(s, v.pc) then Back(Moved(s, v.pc)) else v }

  function MovedStack(s: Site, st: seq<Slot>): (r: seq<Slot>)
    ensures |r| == |st|
  {
    seq(|st|, i requires 0 <= i < |st| => MovedSlot(s, st[i]))
  }

  ghost predicate Outside(s: Site, m: Machine) {
    Boundary(s, m.pc) && forall i :: 0 <= i < |m.stack| && m.stack[i].Back? ==> Boundary(s, m.stack[i].pc)
  }

  function MovedMachine(s: Site, m: Machine): Machine
    requires Boundary(s, m.pc)
  {
    m.(pc := Moved(s, m.pc), stack := MovedStack(s, m.stack))
  }

  lemma StackPushed(s: Site, st: seq<Slot>, v: Slot)
    ensures MovedStack(s, st + [v]) == MovedStack(s, st) + [MovedSlot(s, v)]
  {
  }

  lemma StackPopped(s: Site, st: seq<Slot>)
    requires st != []
    ensures MovedStack(s, st[..|st| - 1]) == MovedStack(s, st)[..|st| - 1]
    ensures MovedStack(s, st)[|st| - 1] == MovedSlot(s, st[|st| - 1])
  {
  }

  // ----- One step -----

  predicate Plain(i: Instr) {
    !(i.Push? || i.Pop? || i.Jmp? || i.Jump? || i.Call? || i.Ret?)
  }

  function Relocated(r: Option<Machine>, pc: nat, st: seq<Slot>): Option<Machine> {
    if r.None? then None else Some(r.value.(pc := pc, stack := st))
  }

  /** Instructions that neither jump nor use the hardware stack do not see where they are. */
  lemma PlainAnywhere(p: Image, p': Image, i: Instr, m: Machine, pc: nat, st: seq<Slot>)
    requires Plain(i) && p'.addr == p.addr && p'.base == p.base
    ensures Exec(p', i, m.(pc := pc, stack := st)) == Relocated(Exec(p, i, m), pc, st)
    ensures Exec(p, i, m).Some? ==> Exec(p, i, m).value.pc == m.pc && Exec(p, i, m).value.stack == m.stack
  {
    hide AluResult, AluFlags, Wrap, Not, Peek;
  }

  function OldImage(s: Site, addr: map<string, Word>, base: int, room: nat): Image { Image(Old(s), addr, base, room) }

  function NewImage(s: Site, addr: map<string, Word>, base: int, room: nat): Image { Image(New(s), addr, base, room) }

  /** The rewritten program does what the original does, in moved positions. */
  ghost predicate Follows(s: Site, r: Option<Machine>, r': Option<Machine>) {
    r.Some? == r'.Some? && (r.Some? ==> Outside(s, r.value) && r'.value == MovedMachine(s, r.value))
  }

  lemma JumpFollows(s: Site, addr: map<string, Word>, base: int, room: nat, m: Machine, l: Label, m': Machine)
    requires Rewrites(s.x, s.y) && Outside(s, m) && m' == MovedMachine(s, m)
    ensures Follows(s, JumpTo(OldImage(s, addr, base, room), m, l), JumpTo(NewImage(s, addr, base, room), m', l))
  {
    hide Find, Rewrites, Old, New, MovedStack;
    FindMoved(s, l);
  }

  lemma CallFollows(s: Site, addr: map<string, Word>, base: int, room: nat, m: Machine, l: Label, m': Machine)
    requires Rewrites(s.x, s.y) && Outside(s, m) && m' == MovedMachine(s, m)
    ensures Follows(s, Exec(OldImage(s, addr, base, room), Instr.Call(l), m), Exec(NewImage(s, addr, base, room), Instr.Call(l), m'))
  {
    hide Find, Rewrites, Old, New, MovedStack, JumpTo, Follows;
    StackPushed(s, m.stack, Back(m.pc));
    var c := m.(stack := m.stack + [Back(m.pc)]);
    assert Outside(s, c) by {
      forall i | 0 <= i < |c.stack| && c.stack[i].Back? ensures Boundary(s, c.stack[i].pc) {
      }
    }
    JumpFollows(s, addr, base, room, c, l, MovedMachine(s, c));
  }

  lemma StackFollows(s: Site, p: Image, p': Image, i: Instr, m: Machine, m': Machine)
    requires (i.Push? || i.Pop? || i.Ret?) && Outside(s, m) && m' == MovedMachine(s, m)
    ensures Follows(s, Exec(p, i, m), Exec(p', i, m'))
  {
    hide MovedStack;
    if i.Push? {
      StackPushed(s, m.stack, Value(m.regs[i.rd]));
    } else if m.stack != [] {
      StackPopped(s, m.stack);
    }
  }

  lemma ExecFollows(s: Site, addr: map<string, Word>, base: int, room: nat, i: Instr, m: Machine, m': Machine)
    requires Rewrites(s.x, s.y) && Outside(s, m) && m' == MovedMachine(s, m)
    ensures Follows(s, Exec(OldImage(s, addr, base, room), i, m), Exec(NewImage(s, addr, base, room), i, m'))
  {
    hide Rewrites, Old, New, MovedStack, JumpTo;
    if i.Push? || i.Pop? || i.Ret? {
      StackFollows(s, OldImage(s, addr, base, room), NewImage(s, addr, base, room), i, m, m');
    } else if i.Call? {
      CallFollows(s, addr, base, room, m, i.to, m');
    } else if i.Jmp? || i.Jump? {
      JumpFollows(s, addr, base, room, m, i.to, m');
    } else {
      hide Exec;
      PlainAnywhere(OldImage(s, addr, base, room), NewImage(s, addr, base, room), i, m, m'.pc, m'.stack);
    }
  }

  lemma StepFollows(s: Site, addr: map<string, Word>, base: int, room: nat, m: Machine)
    requires Rewrites(s.x, s.y) && Outside(s, m) && m.pc != |s.a|
    ensures Follows(s, Step(OldImage(s, addr, base, room), m), Step(NewImage(s, addr, base, room), MovedMachine(s, m)))
  {
    hide Exec, MovedStack;
    if m.pc < |Old(s)| {
      LineMoved(s, m.pc);
      NextMoved(s, m.pc);
      hide Rewrites, Old, New;
      var n := m.(pc := m.pc + 1);
      assert MovedMachine(s, m).(pc := Moved(s, m.pc) + 1) == MovedMachine(s, n);
      if OldImage(s, addr, base, room).lines[m.pc].Op? {
        ExecFollows(s, addr, base, room, OldImage(s, addr, base, room).lines[m.pc].i, n, MovedMachine(s, n));
      }
    }
  }

  lemma NextMoved(s: Site, k: nat)
    requires Rewrites(s.x, s.y) && Boundary(s, k) && k != |s.a|
    ensures Boundary(s, k + 1) && Moved(s, k + 1) == Moved(s, k) + 1
  {
  }

  // ----- The rewritten stretch -----

  lemma AtSite(s: Site, k: nat)
    requires k < |s.x|
    ensures |s.a| + k < |Old(s)| && Old(s)[|s.a| + k] == s.x[k]
  {
  }

  lemma AtNewSite(s: Site, k: nat)
    requires k < |s.y|
    ensures |s.a| + k < |New(s)| && New(s)[|s.a| + k] == s.y[k]
  {
  }

  lemma {:induction false} TwoSteps(p: Image, m: Machine)
    ensures Steps(p, m, 0) == Some(m) && Steps(p, m, 1) == Step(p, m)
    ensures Steps(p, m, 2) == if Step(p, m).None? then None else Step(p, Step(p, m).value)
  {
    hide Step;
    assert Steps(p, m, 1) == if Step(p, m).None? then None else Steps(p, Step(p, m).value, 0);
    assert Steps(p, m, 2) == if Step(p, m).None? then None else Steps(p, Step(p, m).value, 1);
    if Step(p, m).Some? {
      var n := Step(p, m).value;
      assert Steps(p, n, 1) == if Step(p, n).None? then None else Steps(p, Step(p, n).value, 0);
    }
  }

  /** From its start, the stretch and its replacement end alike or get stuck alike, and neither halts on the way. */
  lemma SiteFollows(s: Site, addr: map<string, Word>, base: int, room: nat, m: Machine)
    requires Rewrites(s.x, s.y) && Outside(s, m) && m.pc == |s.a| && !m.halted
    ensures Follows(s, Steps(OldImage(s, addr, base, room), m, |s.x|), Steps(NewImage(s, addr, base, room), MovedMachine(s, m), |s.y|))
    ensures var p := OldImage(s, addr, base, room); Step(p, m).Some? ==> !Step(p, m).value.halted
    ensures var r := Steps(OldImage(s, addr, base, room), m, |s.x|); r.Some? ==> !r.value.halted && r.value.pc == |s.a| + |s.x|
  {
    var p, p' := OldImage(s, addr, base, room), NewImage(s, addr, base, room);
    var m' := MovedMachine(s, m);
    AtSite(s, 0);
    TwoSteps(p, m);
    TwoSteps(p', m');
    if SelfMove(s.x[0]) && |s.x| == 1 {
      SelfMoveFollows(s, addr, base, room, m);
    } else if PushPop(s.x[0], s.x[1]) {
      PushPopFollows(s, addr, base, room, m);
    } else {
      StoreLoadFollows(s, addr, base, room, m);
    }
  }

  lemma SelfMoveFollows(s: Site, addr: map<string, Word>, base: int, room: nat, m: Machine)
    requires |s.x| == 1 && SelfMove(s.x[0]) && s.y == [] && Outside(s, m) && m.pc == |s.a| && !m.halted
    ensures var p := OldImage(s, addr, base, room); var n := m.(pc := m.pc + 1);
            Step(p, m) == Some(n) && Outside(s, n) && MovedMachine(s, n) == MovedMachine(s, m)
  {
    AtSite(s, 0);
    hide Old, New;
    var r := s.x[0].i.rd;
    assert m.regs[r := m.regs[r]] == m.regs;
  }

  lemma PushPopFollows(s: Site, addr: map<string, Word>, base: int, room: nat, m: Machine)
    requires |s.x| == 2 && PushPop(s.x[0], s.x[1]) && Rewrites(s.x, s.y) && Outside(s, m) && m.pc == |s.a| && !m.halted
    ensures var p, p' := OldImage(s, addr, base, room), NewImage(s, addr, base, room);
            var n := m.(pc := m.pc + 2, regs := m.regs[s.x[1].i.rd := m.regs[s.x[0].i.rd]]);
            && Step(p, m) == Some(AfterPush(m, s.x[0].i.rd)) && Step(p, AfterPush(m, s.x[0].i.rd)) == Some(n) && Outside(s, n)
            && (if s.y == [] then MovedMachine(s, n) == MovedMachine(s, m)
                else Step(p', MovedMachine(s, m)) == Some(MovedMachine(s, n)))
  {
    AtSite(s, 0);
    AtSite(s, 1);
    if s.y != [] {
      AtNewSite(s, 0);
    }
    hide Old, New, MovedStack;
    var a, b := s.x[0].i.rd, s.x[1].i.rd;
    var q := AfterPush(m, a);
    assert q.stack[..|q.stack| - 1] == m.stack;
    if a == b {
      assert m.regs[b := m.regs[a]] == m.regs;
    }
  }

  lemma StoreLoadFollows(s: Site, addr: map<string, Word>, base: int, room: nat, m: Machine)
    requires |s.x| == 2 && StoreLoad(s.x[0], s.x[1]) && s.x[0].i.rs == 0 && s.y == [s.x[0]]
    requires Outside(s, m) && m.pc == |s.a| && !m.halted
    ensures var p, p' := OldImage(s, addr, base, room), NewImage(s, addr, base, room);
            var a := Wrap(m.regs[s.x[0].i.rd] + s.x[0].i.off); var q := AfterStore(m, a, m.regs[0]); var n := q.(pc := m.pc + 2);
            if DataAddress(p, a) then
              && Step(p, m) == Some(q) && Step(p, q) == Some(n) && Outside(s, n)
              && Step(p', MovedMachine(s, m)) == Some(MovedMachine(s, n))
            else Step(p, m) == None && Step(p', MovedMachine(s, m)) == None
  {
    AtSite(s, 0);
    AtSite(s, 1);
    AtNewSite(s, 0);
    hide Old, New, MovedStack, Wrap;
    assert m.regs[0 := m.regs[0]] == m.regs;
  }

  // ----- Whole runs -----

  /** What a halted machine shows: everything but positions in the code. */
  function Visible(m: Machine): Machine { m.(pc := 0, stack := Unplaced(m.stack)) }

  function Unplaced(st: seq<Slot>): (r: seq<Slot>)
    ensures |r| == |st|
  {
    seq(|st|, i requires 0 <= i < |st| => if st[i].Back? then Back(0) else st[i])
  }

  ghost predicate HaltsIn(p: Image, m: Machine, k: nat, v: Machine) {
    Steps(p, m, k).Some? && Steps(p, m, k).value.halted && Visible(Steps(p, m, k).value) == v
  }

  /** The run from m halts, and shows v. */
  ghost predicate HaltsAs(p: Image, m: Machine, v: Machine) { exists k: nat :: HaltsIn(p, m, k, v) }

  /** And keeps to the room on its way. */
  ghost predicate HaltsLow(p: Image, m: Machine, v: Machine) { exists k: nat :: HaltsIn(p, m, k, v) && Low(p, m, k, p.room) }

  lemma LowHalts(p: Image, m: Machine, v: Machine)
    requires HaltsLow(p, m, v)
    ensures HaltsAs(p, m, v)
  {
  }

  lemma MovedShows(s: Site, m: Machine)
    requires Boundary(s, m.pc)
    ensures Visible(MovedMachine(s, m)) == Visible(m)
  {
    assert Unplaced(MovedStack(s, m.stack)) == Unplaced(m.stack);
  }

  lemma {:induction false} HaltsLater(p: Image, m: Machine, j: nat, k: nat, v: Machine)
    requires Steps(p, m, j).Some? && HaltsIn(p, m, j + k, v)
    ensures HaltsIn(p, Steps(p, m, j).value, k, v)
  {
    hide Step, Visible;
    StepsAdd(p, m, j, k);
  }

  lemma {:induction false} HaltsSooner(p: Image, m: Machine, j: nat, k: nat, v: Machine)
    requires Steps(p, m, j).Some? && HaltsIn(p, Steps(p, m, j).value, k, v)
    ensures HaltsIn(p, m, j + k, v)
  {
    hide Step, Visible;
    StepsAdd(p, m, j, k);
  }

  /** A run that has not halted goes on. */
  lemma GoesOn(p: Image, m: Machine, k: nat, v: Machine)
    requires HaltsIn(p, m, k, v) && !m.halted
    ensures 1 <= k && Step(p, m).Some? && HaltsIn(p, Step(p, m).value, k - 1, v)
  {
    hide Step, Visible;
  }

  lemma HaltedNow(p: Image, m: Machine, k: nat, v: Machine)
    requires HaltsIn(p, m, k, v) && m.halted
    ensures k == 0 && Visible(m) == v
  {
    HaltedStays(p, m, k);
  }

  /** Whatever the original's run shows, the rewritten program's run shows, with no more words on the stack. */
  lemma {:induction false} Forward(s: Site, addr: map<string, Word>, base: int, room: nat, m: Machine, k: nat, v: Machine)
      returns (k': nat)
    requires Rewrites(s.x, s.y) && Outside(s, m) && HaltsIn(OldImage(s, addr, base, room), m, k, v)
    ensures HaltsIn(NewImage(s, addr, base, room), MovedMachine(s, m), k', v)
    ensures Low(OldImage(s, addr, base, room), m, k, room) ==> Low(NewImage(s, addr, base, room), MovedMachine(s, m), k', room)
    decreases k
  {
    hide Step, Visible, Rewrites, Old, New, MovedMachine, HaltsIn, Low;
    var p, p' := OldImage(s, addr, base, room), NewImage(s, addr, base, room);
    if m.halted {
      HaltedNow(p, m, k, v);
      k' := HaltedForward(s, addr, base, room, m, v);
      LowStill(s, addr, base, room, m);
    } else if m.pc == |s.a| {
      var n := SiteForward(s, addr, base, room, m, k, v);
      k' := Forward(s, addr, base, room, n, k - |s.x|, v);
      HaltsSooner(p', MovedMachine(s, m), |s.y|, k', v);
      if Low(p, m, k, room) {
        LowAcross(s, addr, base, room, m, n, k, k');
      }
      k' := |s.y| + k';
    } else {
      StepFollows(s, addr, base, room, m);
      GoesOn(p, m, k, v);
      k' := Forward(s, addr, base, room, Step(p, m).value, k - 1, v);
      OneMore(p', MovedMachine(s, m), k', v);
      LowOneMore(s, addr, base, room, m, k, k');
      k' := k' + 1;
    }
  }

  lemma LowStill(s: Site, addr: map<string, Word>, base: int, room: nat, m: Machine)
    requires Boundary(s, m.pc)
    ensures Low(OldImage(s, addr, base, room), m, 0, room) ==> Low(NewImage(s, addr, base, room), MovedMachine(s, m), 0, room)
  {
  }

  lemma LowOneMore(s: Site, addr: map<string, Word>, base: int, room: nat, m: Machine, k: nat, k': nat)
    requires Boundary(s, m.pc) && 1 <= k
    requires var p, p' := OldImage(s, addr, base, room), NewImage(s, addr, base, room);
             && Step(p, m).Some? && Boundary(s, Step(p, m).value.pc)
             && Step(p', MovedMachine(s, m)) == Some(MovedMachine(s, Step(p, m).value))
             && (Low(p, Step(p, m).value, k - 1, room) ==> Low(p', MovedMachine(s, Step(p, m).value), k', room))
    ensures Low(OldImage(s, addr, base, room), m, k, room) ==>
              Low(NewImage(s, addr, base, room), MovedMachine(s, m), k' + 1, room)
  {
    hide Step;
  }

  /** At most one line is left of the stretch, so the new machine passes no other states than both ends. */
  lemma LowAcross(s: Site, addr: map<string, Word>, base: int, room: nat, m: Machine, n: Machine, k: nat, k': nat)
    requires Boundary(s, m.pc) && Boundary(s, n.pc) && |s.y| <= 1 && |s.x| <= k
    requires Steps(OldImage(s, addr, base, room), m, |s.x|) == Some(n) && Low(OldImage(s, addr, base, room), m, k, room)
    requires Steps(NewImage(s, addr, base, room), MovedMachine(s, m), |s.y|) == Some(MovedMachine(s, n))
    requires Low(OldImage(s, addr, base, room), n, k - |s.x|, room) ==>
               Low(NewImage(s, addr, base, room), MovedMachine(s, n), k', room)
    ensures Low(NewImage(s, addr, base, room), MovedMachine(s, m), |s.y| + k', room)
  {
    var p, p' := OldImage(s, addr, base, room), NewImage(s, addr, base, room);
    hide Step, Old, New;
    LowLater(p, m, |s.x|, k - |s.x|, room);
    if |s.y| == 1 {
      LowFirst(p', MovedMachine(s, m), MovedMachine(s, n), k', room);
    }
  }

  lemma LowFirst(p: Image, a: Machine, b: Machine, k: nat, h: nat)
    requires Steps(p, a, 1) == Some(b) && |a.stack| <= h && Low(p, b, k, h)
    ensures Low(p, a, k + 1, h)
  {
    hide Step;
    assert Steps(p, Step(p, a).value, 0) == Some(b);
  }

  lemma OneMore(p: Image, m: Machine, k: nat, v: Machine)
    requires Step(p, m).Some? && HaltsIn(p, Step(p, m).value, k, v)
    ensures HaltsIn(p, m, k + 1, v)
  {
    hide Step, Visible;
  }

  lemma HaltedForward(s: Site, addr: map<string, Word>, base: int, room: nat, m: Machine, v: Machine) returns (k': nat)
    requires Boundary(s, m.pc) && m.halted && Visible(m) == v
    ensures k' == 0 && HaltsIn(NewImage(s, addr, base, room), MovedMachine(s, m), k', v)
  {
    MovedShows(s, m);
    hide Visible, MovedMachine;
    k' := 0;
  }

  /** Across the stretch. */
  lemma SiteSizes(s: Site)
    requires Rewrites(s.x, s.y)
    ensures 1 <= |s.x| <= 2 && |s.y| <= 1
  {
  }

  lemma SiteForward(s: Site, addr: map<string, Word>, base: int, room: nat, m: Machine, k: nat, v: Machine) returns (n: Machine)
    requires Rewrites(s.x, s.y) && Outside(s, m) && m.pc == |s.a| && !m.halted && HaltsIn(OldImage(s, addr, base, room), m, k, v)
    ensures 1 <= |s.x| <= k && |s.y| <= 1 && Outside(s, n) && HaltsIn(OldImage(s, addr, base, room), n, k - |s.x|, v)
    ensures Steps(OldImage(s, addr, base, room), m, |s.x|) == Some(n)
    ensures Steps(NewImage(s, addr, base, room), MovedMachine(s, m), |s.y|) == Some(MovedMachine(s, n))
  {
    var p := OldImage(s, addr, base, room);
    assert !MovedMachine(s, m).halted && Boundary(s, m.pc);
    hide Step, Visible, Rewrites, Old, New, MovedMachine, Outside, HaltsIn, Boundary;
    SiteSizes(s);
    SiteFollows(s, addr, base, room, m);
    GoesOn(p, m, k, v);
    TwoSteps(p, m);
    if |s.x| == 2 {
      GoesOn(p, Step(p, m).value, k - 1, v);
    }
    n := Steps(p, m, |s.x|).value;
    HaltsLater(p, m, |s.x|, k - |s.x|, v);
  }

  /** And the other way round: the rewritten program halts only if the original does. */
  lemma {:induction false} Backward(s: Site, addr: map<string, Word>, base: int, room: nat, m: Machine, k': nat, v: Machine) returns (k: nat)
    requires Rewrites(s.x, s.y) && Outside(s, m) && HaltsIn(NewImage(s, addr, base, room), MovedMachine(s, m), k', v)
    ensures HaltsIn(OldImage(s, addr, base, room), m, k, v)
    decreases k', m.pc == |s.a|
  {
    hide Step, Visible, Rewrites, Old, New, HaltsIn, MovedStack, Moved;
    var p, p' := OldImage(s, addr, base, room), NewImage(s, addr, base, room);
    if m.halted {
      k := HaltedBackward(s, addr, base, room, m, k', v);
    } else if m.pc == |s.a| {
      var n := SiteBackward(s, addr, base, room, m, k', v);
      k := Backward(s, addr, base, room, n, k' - |s.y|, v);
      HaltsSooner(p, m, |s.x|, k, v);
      k := |s.x| + k;
    } else {
      StepFollows(s, addr, base, room, m);
      GoesOn(p', MovedMachine(s, m), k', v);
      k := Backward(s, addr, base, room, Step(p, m).value, k' - 1, v);
      OneMore(p, m, k, v);
      k := k + 1;
    }
  }

  lemma HaltedBackward(s: Site, addr: map<string, Word>, base: int, room: nat, m: Machine, k': nat, v: Machine) returns (k: nat)
    requires Boundary(s, m.pc) && m.halted && HaltsIn(NewImage(s, addr, base, room), MovedMachine(s, m), k', v)
    ensures k == 0 && HaltsIn(OldImage(s, addr, base, room), m, k, v)
  {
    MovedShows(s, m);
    hide Visible;
    HaltedNow(NewImage(s, addr, base, room), MovedMachine(s, m), k', v);
    k := 0;
  }

  /** A halting run gets past the first line, if it has one. */
  lemma GetsPast(p: Image, m: Machine, j: nat, k: nat, v: Machine)
    requires j <= 1 && HaltsIn(p, m, k, v) && !m.halted
    ensures j <= k && Steps(p, m, j).Some? && HaltsIn(p, Steps(p, m, j).value, k - j, v)
  {
    hide Step, Visible, HaltsIn;
    GoesOn(p, m, k, v);
  }

  lemma SiteBackward(s: Site, addr: map<string, Word>, base: int, room: nat, m: Machine, k': nat, v: Machine) returns (n: Machine)
    requires Rewrites(s.x, s.y) && Outside(s, m) && m.pc == |s.a| && !m.halted
    requires HaltsIn(NewImage(s, addr, base, room), MovedMachine(s, m), k', v)
    ensures |s.y| <= k' && Outside(s, n) && n.pc == |s.a| + |s.x| && 1 <= |s.x|
    ensures Steps(OldImage(s, addr, base, room), m, |s.x|) == Some(n)
    ensures HaltsIn(NewImage(s, addr, base, room), MovedMachine(s, n), k' - |s.y|, v)
  {
    assert !MovedMachine(s, m).halted && Boundary(s, m.pc);
    hide Step, Visible, Rewrites, Old, New, MovedMachine, HaltsIn, Steps, Outside, Boundary;
    SiteSizes(s);
    SiteFollows(s, addr, base, room, m);
    GetsPast(NewImage(s, addr, base, room), MovedMachine(s, m), |s.y|, k', v);
    n := Steps(OldImage(s, addr, base, room), m, |s.x|).value;
  }

  /** A rewrite changes neither whether a program halts from its start nor what it then shows, and needs no more room. */
  lemma RewriteKeepsRuns(s: Site, addr: map<string, Word>, base: int, room: nat, m: Machine, v: Machine)
    requires Rewrites(s.x, s.y) && m.pc == 0 && m.stack == []
    ensures HaltsAs(OldImage(s, addr, base, room), m, v) <==> HaltsAs(NewImage(s, addr, base, room), m, v)
    ensures HaltsLow(OldImage(s, addr, base, room), m, v) ==> HaltsLow(NewImage(s, addr, base, room), m, v)
  {
    assert MovedStack(s, m.stack) == m.stack;
    assert MovedMachine(s, m) == m;
    hide Old, New, Visible, Rewrites, HaltsIn, MovedMachine, Low;
    var p, p' := OldImage(s, addr, base, room), NewImage(s, addr, base, room);
    if HaltsAs(p, m, v) {
      var k: nat :| HaltsIn(p, m, k, v);
      var k' := Forward(s, addr, base, room, m, k, v);
    }
    if HaltsLow(p, m, v) {
      var k: nat :| HaltsIn(p, m, k, v) && Low(p, m, k, room);
      var k' := Forward(s, addr, base, room, m, k, v);
    }
    if HaltsAs(p', m, v) {
      var k': nat :| HaltsIn(p', m, k', v);
      var k := Backward(s, addr, base, room, m, k', v);
    }
  }
}
