/** The generated code computes what the source means: by induction on the source evaluation. */
module CompilerCorrect {
  import opened Words
  import opened Wrappers
  import opened Machine
  import opened CAst
  import opened CSemantics
  import opened CodeRuns
  import opened FrameRuns
  import opened CallRuns
  import CG = CodeGen

  ghost predicate FunctionAt(p: Image, prog: Program, g: Func, n: nat) {
    && CG.GenFunction(prog, g, n).Ok?
    && Placed(p.lines, Find(p.lines, Named(g.name)), CG.GenFunction(prog, g, n).value.code)
  }

  ghost predicate HasCode(p: Image, prog: Program, g: Func) { exists n: nat :: FunctionAt(p, prog, g, n) }

  /** Every function's code stands at its label, and labels are unique. */
  ghost predicate Linked(p: Image, w: World) {
    && UniqueLabels(p.lines) && p.addr == w.addr
    && forall g :: g in w.prog.funcs ==> HasCode(p, w.prog, g)
  }

  /** The tables and the frame of the activation whose code is running. */
  ghost predicate Inside(p: Image, w: World, fr: Frame, env: CG.Env) {
    Linked(p, w) && Good(p, w, fr) && env.sym == fr.sym && env.prog == w.prog
  }

  // ----- Expressions -----

  lemma {:induction false} SimWord(p: Image, w: World, fr: Frame, env: CG.Env, e: Expr, n: nat, s: State, fuel: nat, m: Machine)
      returns (m': Machine)
    requires Inside(p, w, fr, env) && Sits(fr, s, m) && EvalWord(w, fr, e, s, fuel).Some?
    requires CG.GenExpr(env, e, n).Ok? && Placed(p.lines, m.pc, CG.GenExpr(env, e, n).value.code)
    ensures var r := EvalWord(w, fr, e, s, fuel).value;
            Computes(p, fr, m, m', r.s, m.pc + |CG.GenExpr(env, e, n).value.code|, W(r.w))
    decreases fuel, 0
  {
    hide Inside, Sits, CG.GenExpr, Computes, Placed, Eval;
    m' := SimExpr(p, w, fr, env, e, n, s, fuel - 1, m);
  }

  /** The left operand goes to the hardware stack while the right one is computed. */
  lemma {:induction false} SimOperands(p: Image, w: World, fr: Frame, env: CG.Env, a: Expr, b: Expr, n: nat, s: State,
      fuel: nat, tail: seq<Line>, m: Machine) returns (m': Machine)
    requires Inside(p, w, fr, env) && Sits(fr, s, m) && EvalWord(w, fr, a, s, fuel).Some?
    requires EvalWord(w, Holding(fr), b, EvalWord(w, fr, a, s, fuel).value.s, fuel).Some?
    requires CG.GenExpr(env, a, n).Ok? && CG.GenExpr(env, b, CG.GenExpr(env, a, n).value.next).Ok?
    requires var ca := CG.GenExpr(env, a, n).value;
             Placed(p.lines, m.pc, ca.code + (CG.PUSH0 + (CG.GenExpr(env, b, ca.next).value.code + tail)))
    ensures var ca := CG.GenExpr(env, a, n).value; var ra := EvalWord(w, fr, a, s, fuel).value;
            var rb := EvalWord(w, Holding(fr), b, ra.s, fuel).value;
            && Reaches(p, m, m') && m'.pc == m.pc + |ca.code| + 1 + |CG.GenExpr(env, b, ca.next).value.code|
            && Operands(m', m.stack, ra.w, rb.w) && After(fr, m, m'.(stack := m.stack), rb.s)
            && Placed(p.lines, m'.pc, tail)
    decreases fuel, 1
  {
    hide Inside, CG.GenExpr, EvalWord, Reaches, Match, Kept, Placed;
    var ca := CG.GenExpr(env, a, n).value;
    var cb := CG.GenExpr(env, b, ca.next).value;
    Split(p.lines, m.pc, ca.code, CG.PUSH0 + (cb.code + tail));
    Split(p.lines, m.pc + |ca.code|, CG.PUSH0, cb.code + tail);
    Split(p.lines, m.pc + |ca.code| + 1, cb.code, tail);
    var m1 := SimWord(p, w, fr, env, a, n, s, fuel, m);
    var ra := EvalWord(w, fr, a, s, fuel).value;
    var m2 := AfterPush(m1, 0);
    HoldingFits(p, w, fr, env, b, ra.s, fuel);
    PushAt(p, w, fr, ra.s, m1);
    m' := SimWord(p, w, Holding(fr), env, b, ca.next, ra.s, fuel, m2);
    AcrossPush(fr, m, m1, m2, m', ra.s, EvalWord(w, Holding(fr), b, ra.s, fuel).value.s);
    Then(p, m, m1, m2);
    Then(p, m, m2, m');
  }

  /** A word that is computed while another one waits has room to wait. */
  lemma HoldingFits(p: Image, w: World, fr: Frame, env: CG.Env, e: Expr, s: State, fuel: nat)
    requires Inside(p, w, fr, env) && EvalWord(w, Holding(fr), e, s, fuel).Some?
    ensures Inside(p, w, Holding(fr), env) && Good(p, w, fr) && fr.waiting < w.words
  {
    hide Eval, UniqueLabels, HasCode;
  }

  lemma PushAt(p: Image, w: World, fr: Frame, s: State, m: Machine)
    requires Good(p, w, fr) && fr.waiting < w.words && Sits(fr, s, m) && Placed(p.lines, m.pc, CG.PUSH0)
    ensures Reaches(p, m, AfterPush(m, 0)) && Sits(Holding(fr), s, AfterPush(m, 0))
  {
    hide Reaches;
    assert p.lines[m.pc] == CG.PUSH0[0];
    RunPush(p, m, 0);
  }

  /** What the right operand's code keeps, it keeps for the state before the push too. */
  lemma AcrossPush(fr: Frame, m: Machine, m1: Machine, m2: Machine, m3: Machine, s1: State, s3: State)
    requires Sits(fr, s1, m1) && After(fr, m, m1, s1) && m2 == AfterPush(m1, 0) && After(Holding(fr), m2, m3, s3)
    ensures After(fr, m, m3.(stack := m.stack), s3) && m3.stack == m.stack + [Value(m1.regs[0])]
  {
  }

  lemma {:induction false} SimExpr(p: Image, w: World, fr: Frame, env: CG.Env, e: Expr, n: nat, s: State, fuel: nat, m: Machine)
      returns (m': Machine)
    requires Inside(p, w, fr, env) && Sits(fr, s, m) && Eval(w, fr, e, s, fuel).Some?
    requires CG.GenExpr(env, e, n).Ok? && Placed(p.lines, m.pc, CG.GenExpr(env, e, n).value.code)
    ensures var r := Eval(w, fr, e, s, fuel).value;
            Computes(p, fr, m, m', r.s, m.pc + |CG.GenExpr(env, e, n).value.code|, r.v)
    decreases fuel, 2
  {
    hide Linked, Good, Sits, Placed, Reaches, After, Addr, EvalWord, EvalAssign, EvalBinary, EvalCall, CG.GenAddr, CG.GenAssign, CG.GenBinary, CG.GenCall;
    match e
    case Int(v) => m' := SimInt(p, fr, v, s, m);
    case Var(x) => m' := SimVar(p, w, fr, env, x, n, s, fuel, m);
    case Index(_, _) => m' := SimDeref(p, w, fr, env, e, n, s, fuel - 1, m);
    case Assign(_, _) => m' := SimAssign(p, w, fr, env, e, n, s, fuel - 1, m);
    case Unary(op, a) =>
      if op == Amp {
        m' := SimAddr(p, w, fr, env, a, n, s, fuel - 1, m);
      } else if op == Star {
        m' := SimDeref(p, w, fr, env, e, n, s, fuel - 1, m);
      } else {
        m' := SimUnary(p, w, fr, env, e, n, s, fuel - 1, m);
      }
    case Binary(_, _, _) => m' := SimBinary(p, w, fr, env, e, n, s, fuel - 1, m);
    case Call(_, _) => m' := SimCall(p, w, fr, env, e, n, s, fuel - 1, m);
  }

  lemma SimInt(p: Image, fr: Frame, v: int, s: State, m: Machine) returns (m': Machine)
    requires Sits(fr, s, m) && Placed(p.lines, m.pc, [Op(LoadI(0, v))])
    ensures Computes(p, fr, m, m', s, m.pc + 1, W(Wrap(v)))
  {
    hide Reaches, Wrap;
    assert p.lines[m.pc] == [Op(LoadI(0, v))][0];
    m' := Set(m, 0, Wrap(v), m.flags);
    RunLoadI(p, m, 0, v);
    QuietSits(fr, s, m, m');
  }

  lemma SimVar(p: Image, w: World, fr: Frame, env: CG.Env, x: string, n: nat, s: State, fuel: nat, m: Machine) returns (m': Machine)
    requires Inside(p, w, fr, env) && Sits(fr, s, m) && Eval(w, fr, Var(x), s, fuel).Some?
    requires CG.GenExpr(env, Var(x), n).Ok? && Placed(p.lines, m.pc, CG.GenExpr(env, Var(x), n).value.code)
    ensures var r := Eval(w, fr, Var(x), s, fuel).value;
            Computes(p, fr, m, m', r.s, m.pc + |CG.GenExpr(env, Var(x), n).value.code|, r.v)
  {
    hide Sits, Good, Computes, Placed, VarAddr;
    if IsArray(w, fr, x) {
      VarAddrCode(env, x, n);
      m' := RunVarAddr(p, w, fr, env, x, s, m);
    } else {
      m' := RunVarValue(p, w, fr, env, x, n, s, m);
    }
  }

  lemma {:induction false} SimAddr(p: Image, w: World, fr: Frame, env: CG.Env, e: Expr, n: nat, s: State, fuel: nat, m: Machine)
      returns (m': Machine)
    requires Inside(p, w, fr, env) && Sits(fr, s, m) && Addr(w, fr, e, s, fuel).Some?
    requires CG.GenAddr(env, e, n).Ok? && Placed(p.lines, m.pc, CG.GenAddr(env, e, n).value.code)
    ensures var r := Addr(w, fr, e, s, fuel).value;
            Computes(p, fr, m, m', r.s, m.pc + |CG.GenAddr(env, e, n).value.code|, W(r.w))
    decreases fuel, 2
  {
    hide Sits, Good, Computes, Placed, VarAddr, EvalWord, CG.GenExpr, Operands, Reaches, After, Leaves, Wrap;
    match e
    case Var(x) =>
      VarAddrCode(env, x, n);
      m' := RunVarAddr(p, w, fr, env, x, s, m);
    case Index(b, i) =>
      var m1 := SimOperands(p, w, fr, env, b, i, n, s, fuel - 1, CG.INDEXED, m);
      var rb := EvalWord(w, fr, b, s, fuel - 1).value;
      var ri := EvalWord(w, Holding(fr), i, rb.s, fuel - 1).value;
      m' := RunIndexed(p, m1, m.stack, rb.w, ri.w);
      EndsWith(p, fr, m, m1, m', ri.s, m.stack, m1.pc + 4, Wrap(rb.w + Wrap(4 * ri.w)));
    case Unary(_, a) =>
      m' := SimWord(p, w, fr, env, a, n, s, fuel - 1, m);
  }

  /** Reading through an address: subscripts and *. */
  lemma {:induction false} SimDeref(p: Image, w: World, fr: Frame, env: CG.Env, e: Expr, n: nat, s: State, fuel: nat, m: Machine)
      returns (m': Machine)
    requires Inside(p, w, fr, env) && Sits(fr, s, m) && Addr(w, fr, e, s, fuel).Some?
    requires var a := Addr(w, fr, e, s, fuel).value; ReadCell(a.s, a.w).Some?
    requires CG.GenAddr(env, e, n).Ok? && Placed(p.lines, m.pc, CG.GenAddr(env, e, n).value.code + CG.FETCH)
    ensures var a := Addr(w, fr, e, s, fuel).value;
            Computes(p, fr, m, m', a.s, m.pc + |CG.GenAddr(env, e, n).value.code| + 1, W(a.s.mem[a.w]))
    decreases fuel, 3
  {
    hide Good, Reaches, Match, Kept, Placed, Addr, CG.GenAddr;
    var a := Addr(w, fr, e, s, fuel).value;
    var code := CG.GenAddr(env, e, n).value.code;
    Split(p.lines, m.pc, code, CG.FETCH);
    var m1 := SimAddr(p, w, fr, env, e, n, s, fuel, m);
    m' := RunFetch(p, w, fr, a.s, m1);
    ComputesTrans(p, fr, m, m1, m', a.s, a.s, m1.pc + 1, W(a.s.mem[a.w]));
  }

  lemma {:induction false} SimUnary(p: Image, w: World, fr: Frame, env: CG.Env, e: Expr, n: nat, s: State, fuel: nat, m: Machine)
      returns (m': Machine)
    requires Inside(p, w, fr, env) && Sits(fr, s, m) && e.Unary? && e.uop != Star && e.uop != Amp
    requires EvalWord(w, fr, e.arg, s, fuel).Some?
    requires CG.GenExpr(env, e, n).Ok? && Placed(p.lines, m.pc, CG.GenExpr(env, e, n).value.code)
    ensures var r := EvalWord(w, fr, e.arg, s, fuel).value;
            Computes(p, fr, m, m', r.s, m.pc + |CG.GenExpr(env, e, n).value.code|, W(UnaryValue(e.uop, r.w)))
    decreases fuel, 3
  {
    var ca := CG.GenExpr(env, e.arg, n).value;
    var tail := CG.Negate(e.uop, ca.next);
    assert CG.GenExpr(env, e, n).value.code == ca.code + tail;
    hide Good, Reaches, Match, Kept, Placed, EvalWord, CG.GenExpr, CG.Negate, UnaryValue, UniqueLabels;
    var r := EvalWord(w, fr, e.arg, s, fuel).value;
    Split(p.lines, m.pc, ca.code, tail);
    var m1 := SimWord(p, w, fr, env, e.arg, n, s, fuel, m);
    m' := RunUnary(p, m1, e.uop, ca.next);
    EndsWith(p, fr, m, m1, m', r.s, m.stack, m1.pc + |tail|, UnaryValue(e.uop, r.w));
  }

  lemma {:induction false} SimBinary(p: Image, w: World, fr: Frame, env: CG.Env, e: Expr, n: nat, s: State, fuel: nat, m: Machine)
      returns (m': Machine)
    requires Inside(p, w, fr, env) && Sits(fr, s, m) && e.Binary? && EvalBinary(w, fr, e.op, e.l, e.r, s, fuel).Some?
    requires CG.GenBinary(env, e, n).Ok? && Placed(p.lines, m.pc, CG.GenBinary(env, e, n).value.code)
    ensures var r := EvalBinary(w, fr, e.op, e.l, e.r, s, fuel).value;
            Computes(p, fr, m, m', r.s, m.pc + |CG.GenBinary(env, e, n).value.code|, r.v)
    decreases fuel, 3
  {
    hide Good, Reaches, Match, Kept, Placed, EvalWord, CG.GenExpr, BinaryValue, UniqueLabels, CG.Compare, CG.Arithmetic, CG.Choose;
    if e.op == AndAnd {
      m' := SimShortCircuit(p, w, fr, env, e, n, s, fuel, m, Zero, 1, 0);
    } else if e.op == OrOr {
      m' := SimShortCircuit(p, w, fr, env, e, n, s, fuel, m, NotZero, 0, 1);
    } else {
      var ca := CG.GenExpr(env, e.l, n).value;
      var cb := CG.GenExpr(env, e.r, ca.next).value;
      var tail := if CG.IsComparison(e.op) then CG.Compare(e.op, cb.next) else CG.Arithmetic(e.op);
      var m1 := SimOperands(p, w, fr, env, e.l, e.r, n, s, fuel - 1, tail, m);
      var ra := EvalWord(w, fr, e.l, s, fuel - 1).value;
      var rb := EvalWord(w, Holding(fr), e.r, ra.s, fuel - 1).value;
      var v := BinaryValue(e.op, ra.w, rb.w).value;
      if CG.IsComparison(e.op) {
        m' := RunCompare(p, m1, m.stack, e.op, cb.next, ra.w, rb.w);
      } else {
        m' := RunArithmetic(p, m1, m.stack, e.op, ra.w, rb.w, v);
      }
      EndsWith(p, fr, m, m1, m', rb.s, m.stack, m1.pc + |tail|, v);
    }
  }

  /** A test, and the state afterwards. */
  lemma SimTested(p: Image, fr: Frame, m: Machine, m1: Machine, s: State, c: Cond, l: Label, k: nat, pos: nat, v: Word)
      returns (m': Machine)
    requires UniqueLabels(p.lines) && (c == Zero || c == NotZero)
    requires Computes(p, fr, m, m1, s, pos, W(v)) && Placed(p.lines, pos, [Op(Alu(AND, 0, 0)), Op(Jump(c, l))])
    requires k < |p.lines| && p.lines[k] == Lab(l)
    ensures Reaches(p, m, m') && After(fr, m, m', s) && m'.pc == if (v == 0) == (c == Zero) then k else pos + 2
    ensures m'.regs[0] == v
  {
    hide Reaches, Match, Kept, Placed, UniqueLabels;
    m' := RunTest(p, m1, c, l, k);
    Then(p, m, m1, m');
    QuietSits(fr, s, m1, m');
    AfterTrans(fr, m, m1, m', s, s);
  }

  /** The code of && and ||: two tests of the same kind, then the choice. */
  lemma ShortCircuitParts(p: Image, env: CG.Env, e: Expr, n: nat, pos: nat, c: Cond, first: int, second: int)
    requires e.Binary?
    requires (e.op == AndAnd && c == Zero && first == 1 && second == 0)
          || (e.op == OrOr && c == NotZero && first == 0 && second == 1)
    requires CG.GenBinary(env, e, n).Ok? && Placed(p.lines, pos, CG.GenBinary(env, e, n).value.code)
    ensures CG.GenExpr(env, e.l, n + 2).Ok?
    ensures var ca := CG.GenExpr(env, e.l, n + 2).value; CG.GenExpr(env, e.r, ca.next).Ok?
    ensures var ca := CG.GenExpr(env, e.l, n + 2).value; var cb := CG.GenExpr(env, e.r, ca.next).value;
            var test := [Op(Alu(AND, 0, 0)), Op(Jump(c, Local(n)))];
            var pb := pos + |ca.code| + 2; var k := pb + |cb.code| + 2;
            && |CG.GenBinary(env, e, n).value.code| == k + 5 - pos
            && Placed(p.lines, pos, ca.code) && Placed(p.lines, pb - 2, test) && Placed(p.lines, pb, cb.code)
            && Placed(p.lines, k - 2, test) && Placed(p.lines, k, CG.Choose(first, n, second, n + 1))
            && k + 2 < |p.lines| && p.lines[k + 2] == Lab(Local(n))
  {
    hide CG.GenExpr;
    var ca := CG.GenExpr(env, e.l, n + 2).value;
    var cb := CG.GenExpr(env, e.r, ca.next).value;
    var test := [Op(Alu(AND, 0, 0)), Op(Jump(c, Local(n)))];
    var choose := CG.Choose(first, n, second, n + 1);
    var k := pos + |ca.code| + 2 + |cb.code| + 2;
    Split(p.lines, pos, ca.code, test + (cb.code + (test + choose)));
    Split(p.lines, pos + |ca.code|, test, cb.code + (test + choose));
    Split(p.lines, pos + |ca.code| + 2, cb.code, test + choose);
    Split(p.lines, k - 2, test, choose);
    assert p.lines[k + 2] == choose[2];
  }

  /** && jumps on zero and || on not zero, both to the second constant. */
  lemma {:induction false} SimShortCircuit(p: Image, w: World, fr: Frame, env: CG.Env, e: Expr, n: nat, s: State, fuel: nat,
      m: Machine, c: Cond, first: int, second: int) returns (m': Machine)
    requires Inside(p, w, fr, env) && Sits(fr, s, m) && e.Binary? && EvalBinary(w, fr, e.op, e.l, e.r, s, fuel).Some?
    requires (e.op == AndAnd && c == Zero && first == 1 && second == 0)
          || (e.op == OrOr && c == NotZero && first == 0 && second == 1)
    requires CG.GenBinary(env, e, n).Ok? && Placed(p.lines, m.pc, CG.GenBinary(env, e, n).value.code)
    ensures var r := EvalBinary(w, fr, e.op, e.l, e.r, s, fuel).value;
            Computes(p, fr, m, m', r.s, m.pc + |CG.GenBinary(env, e, n).value.code|, r.v)
    decreases fuel, 2
  {
    hide Good, Reaches, Match, Kept, Placed, EvalWord, CG.GenExpr, CG.GenBinary, UniqueLabels, CG.Choose, Wrap, HasCode, Leaves, Computes;
    ShortCircuitParts(p, env, e, n, m.pc, c, first, second);
    var ca := CG.GenExpr(env, e.l, n + 2).value;
    var cb := CG.GenExpr(env, e.r, ca.next).value;
    var l := Local(n);
    var k := m.pc + |ca.code| + 2 + |cb.code| + 2;
    var ra := EvalWord(w, fr, e.l, s, fuel - 1).value;
    var m1 := SimWord(p, w, fr, env, e.l, n + 2, s, fuel - 1, m);
    var m2 := SimTested(p, fr, m, m1, ra.s, c, l, k + 2, m.pc + |ca.code|, ra.w);
    if (ra.w == 0) == (c == Zero) {
      m' := SimChoice(p, fr, m, m2, ra.s, k, first, n, second, n + 1);
    } else {
      var rb := EvalWord(w, fr, e.r, ra.s, fuel - 1).value;
      var m3 := SimWord(p, w, fr, env, e.r, ca.next, ra.s, fuel - 1, m2);
      var m4 := SimTested(p, fr, m2, m3, rb.s, c, l, k + 2, k - 2, rb.w);
      Then(p, m, m2, m4);
      AfterTrans(fr, m, m2, m4, ra.s, rb.s);
      m' := SimChoice(p, fr, m, m4, rb.s, k, first, n, second, n + 1);
    }
  }

  /** The two constants at the end of && and ||. */
  lemma SimChoice(p: Image, fr: Frame, m: Machine, m1: Machine, s: State, k: nat, first: int, l: nat, second: int, end: nat)
      returns (m': Machine)
    requires UniqueLabels(p.lines) && Placed(p.lines, k, CG.Choose(first, l, second, end))
    requires Reaches(p, m, m1) && After(fr, m, m1, s) && (m1.pc == k || m1.pc == k + 2)
    requires 0 <= first < TWO32 && 0 <= second < TWO32
    ensures Computes(p, fr, m, m', s, k + 5, W(if m1.pc == k then first else second))
  {
    hide Reaches, Match, Kept, Placed, UniqueLabels, Wrap;
    assert Wrap(first) == first && Wrap(second) == second by { WrapIdentity(first); WrapIdentity(second); }
    if m1.pc == k {
      m' := RunChooseFirst(p, m1, first, l, second, end);
    } else {
      m' := RunChooseSecond(p, m1, k, first, l, second, end);
    }
    EndsWith(p, fr, m, m1, m', s, m.stack, k + 5, if m1.pc == k then first else second);
  }

  lemma {:induction false} SimAssign(p: Image, w: World, fr: Frame, env: CG.Env, e: Expr, n: nat, s: State, fuel: nat, m: Machine)
      returns (m': Machine)
    requires Inside(p, w, fr, env) && Sits(fr, s, m) && e.Assign? && EvalAssign(w, fr, e.lhs, e.rhs, s, fuel).Some?
    requires CG.GenAssign(env, e, n).Ok? && Placed(p.lines, m.pc, CG.GenAssign(env, e, n).value.code)
    ensures var r := EvalAssign(w, fr, e.lhs, e.rhs, s, fuel).value;
            Computes(p, fr, m, m', r.s, m.pc + |CG.GenAssign(env, e, n).value.code|, r.v)
    decreases fuel, 3
  {
    if e.lhs.Var? {
      m' := SimAssignVar(p, w, fr, env, e, n, s, fuel, m);
    } else {
      m' := SimAssignThrough(p, w, fr, env, e, n, s, fuel, m);
    }
  }

  /** The code that stores into a variable, and the place it belongs to. */
  function StoreVar(w: World, fr: Frame, x: string): seq<Line> {
    var at := PlaceOf(w, fr, x);
    if at.InFrame? then [Op(Instr.Store(FP, at.off, 0))] else [Op(LoadA(1, x)), Op(Instr.Store(1, 0, 0))]
  }

  lemma VarParts(p: Image, w: World, fr: Frame, env: CG.Env, e: Expr, n: nat, pos: nat)
    requires env.sym == fr.sym && env.prog == w.prog && e.Assign? && e.lhs.Var?
    requires CG.GenAssign(env, e, n).Ok? && Placed(p.lines, pos, CG.GenAssign(env, e, n).value.code)
    ensures CG.GenExpr(env, e.rhs, n).Ok?
    ensures var cr := CG.GenExpr(env, e.rhs, n).value; var tail := StoreVar(w, fr, e.lhs.x);
            && Placed(p.lines, pos, cr.code) && Placed(p.lines, pos + |cr.code|, tail)
            && pos + |cr.code| + |tail| == pos + |CG.GenAssign(env, e, n).value.code|
  {
    var cr := CG.GenExpr(env, e.rhs, n).value;
    assert CG.GenAssign(env, e, n).value.code == cr.code + StoreVar(w, fr, e.lhs.x);
    hide CG.GenExpr, CG.GenAssign, Placed, StoreVar;
    Split(p.lines, pos, cr.code, StoreVar(w, fr, e.lhs.x));
  }

  lemma AssignVarMeans(w: World, fr: Frame, l: Expr, r: Expr, s: State, fuel: nat)
    requires EvalAssign(w, fr, l, r, s, fuel).Some? && l.Var?
    ensures fuel > 0 && EvalWord(w, fr, r, s, fuel - 1).Some? && VarAddr(w, fr, l.x).Some?
    ensures var a := VarAddr(w, fr, l.x).value; var v := EvalWord(w, fr, r, s, fuel - 1).value;
            WriteCell(fr, v.s, a, v.w).Some? && EvalAssign(w, fr, l, r, s, fuel).value == Res(W(v.w), WriteCell(fr, v.s, a, v.w).value)
  {
    hide VarAddr, EvalWord, WriteCell;
  }

  lemma {:induction false} SimAssignVar(p: Image, w: World, fr: Frame, env: CG.Env, e: Expr, n: nat, s: State, fuel: nat,
      m: Machine) returns (m': Machine)
    requires Inside(p, w, fr, env) && Sits(fr, s, m) && e.Assign? && EvalAssign(w, fr, e.lhs, e.rhs, s, fuel).Some?
    requires e.lhs.Var?
    requires CG.GenAssign(env, e, n).Ok? && Placed(p.lines, m.pc, CG.GenAssign(env, e, n).value.code)
    ensures var r := EvalAssign(w, fr, e.lhs, e.rhs, s, fuel).value;
            Computes(p, fr, m, m', r.s, m.pc + |CG.GenAssign(env, e, n).value.code|, r.v)
    decreases fuel, 2
  {
    hide Good, Reaches, Match, Kept, Placed, EvalAssign, EvalWord, VarAddr, WriteCell, CG.GenExpr, CG.GenAssign, UniqueLabels, HasCode;
    AssignVarMeans(w, fr, e.lhs, e.rhs, s, fuel);
    VarParts(p, w, fr, env, e, n, m.pc);
    var v := EvalWord(w, fr, e.rhs, s, fuel - 1).value;
    var m1 := SimWord(p, w, fr, env, e.rhs, n, s, fuel - 1, m);
    m' := RunStoreVar(p, w, fr, e.lhs.x, v.s, m1, StoreVar(w, fr, e.lhs.x));
    ComputesTrans(p, fr, m, m1, m', v.s, EvalAssign(w, fr, e.lhs, e.rhs, s, fuel).value.s, m1.pc + |StoreVar(w, fr, e.lhs.x)|, W(v.w));
  }

  lemma ThroughParts(p: Image, env: CG.Env, e: Expr, n: nat, pos: nat)
    requires e.Assign? && !e.lhs.Var? && CG.GenAssign(env, e, n).Ok? && Placed(p.lines, pos, CG.GenAssign(env, e, n).value.code)
    ensures CG.GenAddr(env, e.lhs, n).Ok? && CG.GenExpr(env, e.rhs, CG.GenAddr(env, e.lhs, n).value.next).Ok?
    ensures var ca := CG.GenAddr(env, e.lhs, n).value;
            var cr := CG.GenExpr(env, e.rhs, ca.next).value; var pr := pos + |ca.code| + 1;
            && Placed(p.lines, pos, ca.code) && Placed(p.lines, pr - 1, CG.PUSH0) && Placed(p.lines, pr, cr.code)
            && Placed(p.lines, pr + |cr.code|, [Op(Pop(1)), Op(Instr.Store(1, 0, 0))])
            && pr + |cr.code| + 2 == pos + |CG.GenAssign(env, e, n).value.code|
  {
    var ca := CG.GenAddr(env, e.lhs, n).value;
    var cr := CG.GenExpr(env, e.rhs, ca.next).value;
    var tail := [Op(Pop(1)), Op(Instr.Store(1, 0, 0))];
    assert CG.GenAssign(env, e, n).value.code == ca.code + (CG.PUSH0 + (cr.code + tail));
    hide CG.GenAddr, CG.GenExpr, CG.GenAssign, Placed;
    Split(p.lines, pos, ca.code, CG.PUSH0 + (cr.code + tail));
    Split(p.lines, pos + |ca.code|, CG.PUSH0, cr.code + tail);
    Split(p.lines, pos + |ca.code| + 1, cr.code, tail);
  }

  /** The value behind the address: the pushed address is popped and stored through. */
  lemma FinishThrough(p: Image, w: World, fr: Frame, m: Machine, m1: Machine, m3: Machine, s1: State, s3: State, a: Word)
      returns (m': Machine)
    requires Good(p, w, fr) && Reaches(p, m, m1) && After(fr, m, m1, s1) && m1.regs[0] == a && Placed(p.lines, m1.pc, CG.PUSH0)
    requires Reaches(p, AfterPush(m1, 0), m3) && After(Holding(fr), AfterPush(m1, 0), m3, s3) && WriteCell(fr, s3, a, m3.regs[0]).Some?
    requires Placed(p.lines, m3.pc, [Op(Pop(1)), Op(Instr.Store(1, 0, 0))]) && fr.waiting < w.words
    ensures Computes(p, fr, m, m', WriteCell(fr, s3, a, m3.regs[0]).value, m3.pc + 2, W(m3.regs[0]))
  {
    hide Good, Reaches, Match, Kept, Placed, WriteCell;
    var m2 := AfterPush(m1, 0);
    PushAt(p, w, fr, s1, m1);
    AcrossPush(fr, m, m1, m2, m3, s1, s3);
    m' := RunStoreThrough(p, w, fr, s3, m3, m.stack, a);
    AfterTrans(fr, m, m3.(stack := m.stack), m', s3, WriteCell(fr, s3, a, m3.regs[0]).value);
    Then(p, m, m1, m2);
    Then(p, m, m2, m3);
    Then(p, m, m3, m');
  }

  lemma AssignMeans(w: World, fr: Frame, l: Expr, r: Expr, s: State, fuel: nat)
    requires EvalAssign(w, fr, l, r, s, fuel).Some? && !l.Var?
    ensures fuel > 0 && Addr(w, fr, l, s, fuel - 1).Some?
    ensures var a := Addr(w, fr, l, s, fuel - 1).value;
            && EvalWord(w, Holding(fr), r, a.s, fuel - 1).Some?
            && var v := EvalWord(w, Holding(fr), r, a.s, fuel - 1).value;
               && WriteCell(fr, v.s, a.w, v.w).Some?
               && EvalAssign(w, fr, l, r, s, fuel).value == Res(W(v.w), WriteCell(fr, v.s, a.w, v.w).value)
  {
    hide Addr, EvalWord, WriteCell;
  }

  lemma {:induction false} SimAssignThrough(p: Image, w: World, fr: Frame, env: CG.Env, e: Expr, n: nat, s: State, fuel: nat,
      m: Machine) returns (m': Machine)
    requires Inside(p, w, fr, env) && Sits(fr, s, m) && e.Assign? && EvalAssign(w, fr, e.lhs, e.rhs, s, fuel).Some?
    requires !e.lhs.Var?
    requires CG.GenAssign(env, e, n).Ok? && Placed(p.lines, m.pc, CG.GenAssign(env, e, n).value.code)
    ensures var r := EvalAssign(w, fr, e.lhs, e.rhs, s, fuel).value;
            Computes(p, fr, m, m', r.s, m.pc + |CG.GenAssign(env, e, n).value.code|, r.v)
    decreases fuel, 2
  {
    hide Good, Reaches, Match, Kept, Placed, EvalAssign, EvalWord, Addr, CG.GenExpr, CG.GenAddr, CG.GenAssign, UniqueLabels, HasCode, WriteCell;
    AssignMeans(w, fr, e.lhs, e.rhs, s, fuel);
    ThroughParts(p, env, e, n, m.pc);
    var ca := CG.GenAddr(env, e.lhs, n).value;
    var a := Addr(w, fr, e.lhs, s, fuel - 1).value;
    var v := EvalWord(w, Holding(fr), e.rhs, a.s, fuel - 1).value;
    var m1 := SimAddr(p, w, fr, env, e.lhs, n, s, fuel - 1, m);
    HoldingFits(p, w, fr, env, e.rhs, a.s, fuel - 1);
    PushAt(p, w, fr, a.s, m1);
    var m3 := SimWord(p, w, Holding(fr), env, e.rhs, ca.next, a.s, fuel - 1, AfterPush(m1, 0));
    m' := FinishThrough(p, w, fr, m, m1, m3, a.s, v.s, a.w);
  }

  // ----- Calls -----

  /** All arguments pushed, the last one evaluated first. */
  ghost predicate ArgsDone(p: Image, w: World, fr: Frame, m: Machine, m': Machine, s': State, pos: nat, vals: seq<Word>) {
    && Reaches(p, m, m') && m'.pc == pos && m'.stack == m.stack && !m'.halted
    && m'.regs[FP] == fr.fp && m'.regs[SP] == fr.sp - 4 * |vals| && w.limit <= fr.sp - 4 * |vals|
    && Match(fr, s', m') && Kept(fr.sp, fr.cells, m.mem, m'.mem) && ArgsAt(m'.mem, fr.sp - 4 * |vals|, vals)
  }

  lemma OneMoreArg(p: Image, w: World, fr: Frame, m: Machine, m1: Machine, m2: Machine, m3: Machine, s1: State, s3: State,
      pos: nat, vals: seq<Word>, v: Word)
    requires Good(p, w, fr) && w.limit <= fr.sp - 4
    requires Reaches(p, m, m1) && After(fr, m, m1, s1) && Reaches(p, m1, m2) && m2.stack == m1.stack
    requires Peek(m2.mem, fr.sp - 4) == v && Kept(fr.sp, fr.cells, m1.mem, m2.mem)
    requires ArgsDone(p, w, Lowered(fr), m2, m3, s3, pos, vals)
    ensures ArgsDone(p, w, fr, m, m3, s3, pos, vals + [v])
  {
    Then(p, m, m1, m2);
    Then(p, m, m2, m3);
    hide Reaches, Peek;
    var all := vals + [v];
    assert Peek(m3.mem, fr.sp - 4) == v;
    forall i | 0 <= i < |all| ensures Peek(m3.mem, fr.sp - 4 * |all| + 4 * i) == all[i] {
      if i < |vals| {
        assert Peek(m3.mem, (fr.sp - 4) - 4 * |vals| + 4 * i) == vals[i];
      }
    }
  }

  lemma {:induction false} SimArgs(p: Image, w: World, fr: Frame, env: CG.Env, e: Expr, k: nat, n: nat, s: State, fuel: nat,
      m: Machine) returns (m': Machine)
    requires Inside(p, w, fr, env) && Sits(fr, s, m) && e.Call? && k <= |e.args| && EvalArgs(w, fr, e.args[..k], s, fuel).Some?
    requires CG.GenArgs(env, e, k, n).Ok? && Placed(p.lines, m.pc, CG.GenArgs(env, e, k, n).value.code)
    ensures var r := EvalArgs(w, fr, e.args[..k], s, fuel).value;
            |r.vals| == k && ArgsDone(p, w, fr, m, m', r.s, m.pc + |CG.GenArgs(env, e, k, n).value.code|, r.vals)
    decreases fuel, 2
  {
    hide Reaches, Match, Placed, EvalWord, CG.GenExpr, UniqueLabels, HasCode;
    if k == 0 {
      Stays(p, m);
      m' := m;
    } else {
      var last := e.args[k - 1];
      assert e.args[..k][k - 1] == last && e.args[..k][..k - 1] == e.args[..k - 1];
      var a := EvalWord(w, fr, last, s, fuel - 1).value;
      var ca := CG.GenExpr(env, last, n).value;
      var cb := CG.GenArgs(env, e, k - 1, ca.next).value;
      var rest := EvalArgs(w, Lowered(fr), e.args[..k - 1], a.s, fuel - 1).value;
      hide EvalArgs, CG.GenArgs, Good, ArgsAt, Kept, Peek;
      Split(p.lines, m.pc, ca.code, CG.PUSH_ARG + cb.code);
      Split(p.lines, m.pc + |ca.code|, CG.PUSH_ARG, cb.code);
      var m1 := SimWord(p, w, fr, env, last, n, s, fuel - 1, m);
      var m2 := RunPushArg(p, w, fr, a.s, m1);
      m' := SimArgs(p, w, Lowered(fr), env, e, k - 1, ca.next, a.s, fuel - 1, m2);
      OneMoreArg(p, w, fr, m, m1, m2, m', a.s, rest.s, m'.pc, rest.vals, a.w);
    }
  }

  lemma {:induction false} SimCall(p: Image, w: World, fr: Frame, env: CG.Env, e: Expr, n: nat, s: State, fuel: nat, m: Machine)
      returns (m': Machine)
    requires Inside(p, w, fr, env) && Sits(fr, s, m) && e.Call? && EvalCall(w, fr, e.f, e.args, s, fuel).Some?
    requires CG.GenCall(env, e, n).Ok? && Placed(p.lines, m.pc, CG.GenCall(env, e, n).value.code)
    ensures var r := EvalCall(w, fr, e.f, e.args, s, fuel).value;
            Computes(p, fr, m, m', r.s, m.pc + |CG.GenCall(env, e, n).value.code|, r.v)
    decreases fuel, 3
  {
    hide Inside, Sits, Computes, Placed, EvalWord, EvalArgs, Activate, CG.GenExpr, CG.GenArgs;
    if e.f == "out" {
      m' := SimOut(p, w, fr, env, e, n, s, fuel - 1, m);
    } else if e.f == "in" {
      m' := SimIn(p, fr, s, m);
    } else {
      m' := SimUserCall(p, w, fr, env, e, FuncFind(w.prog.funcs, e.f).value, n, s, fuel - 1, m);
    }
  }

  lemma {:induction false} SimOut(p: Image, w: World, fr: Frame, env: CG.Env, e: Expr, n: nat, s: State, fuel: nat, m: Machine)
      returns (m': Machine)
    requires Inside(p, w, fr, env) && Sits(fr, s, m) && e.Call? && |e.args| == 1 && EvalWord(w, fr, e.args[0], s, fuel).Some?
    requires CG.GenExpr(env, e.args[0], n).Ok?
    requires Placed(p.lines, m.pc, CG.GenExpr(env, e.args[0], n).value.code + [Op(Out(0))])
    ensures var a := EvalWord(w, fr, e.args[0], s, fuel).value;
            Computes(p, fr, m, m', a.s.(out := a.s.out + [a.w]), m.pc + |CG.GenExpr(env, e.args[0], n).value.code| + 1, W(a.w))
    decreases fuel, 2
  {
    hide Inside, Reaches, Kept, EvalWord, CG.GenExpr;
    var a := EvalWord(w, fr, e.args[0], s, fuel).value;
    var ca := CG.GenExpr(env, e.args[0], n).value;
    Split(p.lines, m.pc, ca.code, [Op(Out(0))]);
    assert p.lines[m.pc + |ca.code|] == [Op(Out(0))][0];
    hide Placed;
    var m1 := SimWord(p, w, fr, env, e.args[0], n, s, fuel, m);
    m' := m1.(pc := m1.pc + 1, out := m1.out + [a.w]);
    RunOp(p, m1, Out(0), m');
    Then(p, m, m1, m');
  }

  lemma SimIn(p: Image, fr: Frame, s: State, m: Machine) returns (m': Machine)
    requires Sits(fr, s, m) && Placed(p.lines, m.pc, [Op(In(0))])
    ensures if s.input == [] then Computes(p, fr, m, m', s, m.pc + 1, W(0))
            else Computes(p, fr, m, m', s.(input := s.input[1..]), m.pc + 1, W(s.input[0]))
  {
    hide Reaches;
    assert p.lines[m.pc] == [Op(In(0))][0];
    m' := if s.input == [] then Set(m, 0, 0, m.flags) else Set(m, 0, s.input[0], m.flags).(input := s.input[1..]);
    RunOp(p, m, In(0), m');
  }

  lemma {:induction false} SimUserCall(p: Image, w: World, fr: Frame, env: CG.Env, e: Expr, g: Func, n: nat, s: State,
      fuel: nat, m: Machine) returns (m': Machine)
    requires Inside(p, w, fr, env) && Sits(fr, s, m) && e.Call? && FuncFind(w.prog.funcs, e.f) == Some(g)
    requires |e.args| == |g.params| && EvalArgs(w, fr, e.args, s, fuel).Some?
    requires var a := EvalArgs(w, fr, e.args, s, fuel).value; Activate(w, fr, g, a.vals, a.s, fuel).Some?
    requires CG.GenArgs(env, e, |e.args|, n).Ok?
    requires Placed(p.lines, m.pc, CG.GenArgs(env, e, |e.args|, n).value.code
                                   + ([Op(Instr.Call(Named(e.f)))] + CG.DropArgs(|e.args|)))
    ensures var a := EvalArgs(w, fr, e.args, s, fuel).value; var r := Activate(w, fr, g, a.vals, a.s, fuel).value;
            Computes(p, fr, m, m', r.s, m.pc + |CG.GenArgs(env, e, |e.args|, n).value.code| + 1 + |CG.DropArgs(|e.args|)|, r.v)
    decreases fuel, 3
  {
    hide Reaches, Match, Placed, EvalArgs, Activate, CG.GenArgs, CG.DropArgs, UniqueLabels, HasCode, ArgsAt, Kept;
    assert e.args[..|e.args|] == e.args;
    var ca := CG.GenArgs(env, e, |e.args|, n).value;
    var call := [Op(Instr.Call(Named(e.f)))];
    var drop := CG.DropArgs(|e.args|);
    Split(p.lines, m.pc, ca.code, call + drop);
    Split(p.lines, m.pc + |ca.code|, call, drop);
    var a := EvalArgs(w, fr, e.args, s, fuel).value;
    var r := Activate(w, fr, g, a.vals, a.s, fuel).value;
    var m1 := SimArgs(p, w, fr, env, e, |e.args|, n, s, fuel, m);
    var m2 := SimActivate(p, w, fr, g, a.vals, a.s, fuel, m1);
    m' := RunDropArgs(p, fr, r.s, m2, |e.args|);
    Then(p, m, m1, m2);
    Then(p, m, m2, m');
    KeptTwice(fr, m.mem, m1.mem, m2.mem);
  }

  lemma KeptTwice(fr: Frame, a: map<int, Word>, b: map<int, Word>, c: map<int, Word>)
    requires Kept(fr.sp, fr.cells, a, b) && Kept(fr.sp, fr.cells, b, c)
    ensures Kept(fr.sp, fr.cells, a, c)
  {
    hide Peek;
  }

  /** From the call to the first line of the callee's body. */
  lemma EnterCallee(p: Image, w: World, fr: Frame, g: Func, vals: seq<Word>, s: State, m: Machine) returns (n: nat, b: Machine)
    requires Linked(p, w) && Good(p, w, fr) && g in w.prog.funcs && w.limit <= Callee(fr, g, |vals|).sp
    requires |m.stack| <= fr.waiting < w.words
    requires !m.halted && Match(fr, s, m) && Placed(p.lines, m.pc, [Op(Instr.Call(Named(g.name)))])
    requires m.regs[FP] == fr.fp && m.regs[SP] == fr.sp - 4 * |vals| && ArgsAt(m.mem, fr.sp - 4 * |vals|, vals)
    ensures var c := Callee(fr, g, |vals|); var env := CG.EnvOf(w.prog, g); var body := CG.GenStmt(env, g.body, n);
            && Within(p, w, c, env) && body.Ok? && Placed(p.lines, b.pc, body.value.code)
            && Find(p.lines, env.epi) == b.pc + |body.value.code|
            && Placed(p.lines, b.pc + |body.value.code|, [Lab(env.epi)] + CG.EPILOGUE)
            && Reaches(p, m, b) && Entered(fr, c, s.(mem := s.mem + Bound(c.fp, vals)), m, b)
  {
    assert p.lines[m.pc] == [Op(Instr.Call(Named(g.name)))][0];
    assert HasCode(p, w.prog, g);
    n :| FunctionAt(p, w.prog, g, n);
    var k := Find(p.lines, Named(g.name));
    hide Reaches, Match, Placed, CG.GenStmt, UniqueLabels, HasCode, ArgsAt, Bound, TableOf, CG.Prologue, Entered, Good;
    FunctionParts(p, w.prog, g, n, k);
    b := RunEnter(p, w, fr, g, s, vals, m, k);
  }

  lemma ActivateMeans(w: World, fr: Frame, g: Func, vals: seq<Word>, s: State, fuel: nat)
    requires Activate(w, fr, g, vals, s, fuel).Some?
    ensures var c := Callee(fr, g, |vals|); var s0 := s.(mem := s.mem + Bound(c.fp, vals));
            && fuel > 0 && c.sp >= w.limit && fr.waiting < w.words && ExecStmt(w, c, g.body, s0, fuel - 1).Some?
            && var o := ExecStmt(w, c, g.body, s0, fuel - 1).value;
               Activate(w, fr, g, vals, s, fuel).value == Res(if o.Returned? then o.v else Void, Leave(fr, o.s))
  {
    hide ExecStmt, Bound, Leave, TableOf, ParamCells, WordsIn;
  }

  /** A call instruction runs the callee and comes back with the caller's frame, whatever the recursion depth. */
  lemma {:induction false} SimActivate(p: Image, w: World, fr: Frame, g: Func, vals: seq<Word>, s: State, fuel: nat, m: Machine)
      returns (m': Machine)
    requires Linked(p, w) && Good(p, w, fr) && g in w.prog.funcs && Activate(w, fr, g, vals, s, fuel).Some?
    requires !m.halted && |m.stack| <= fr.waiting && Match(fr, s, m) && Placed(p.lines, m.pc, [Op(Instr.Call(Named(g.name)))])
    requires m.regs[FP] == fr.fp && m.regs[SP] == fr.sp - 4 * |vals| && ArgsAt(m.mem, fr.sp - 4 * |vals|, vals)
    ensures var r := Activate(w, fr, g, vals, s, fuel).value;
            && Reaches(p, m, m') && m'.pc == m.pc + 1 && m'.stack == m.stack && !m'.halted
            && m'.regs[FP] == fr.fp && m'.regs[SP] == fr.sp - 4 * |vals| && Match(fr, r.s, m')
            && Kept(fr.sp, fr.cells, m.mem, m'.mem) && (r.v.W? ==> m'.regs[0] == r.v.w)
    decreases fuel, 2
  {
    hide Reaches, Match, Placed, Activate, ExecStmt, CG.GenStmt, UniqueLabels, HasCode, ArgsAt, Kept, Good, Bound, ParamCells, WordsIn,
         TableOf;
    ActivateMeans(w, fr, g, vals, s, fuel);
    var c := Callee(fr, g, |vals|);
    var s0 := s.(mem := s.mem + Bound(c.fp, vals));
    var o := ExecStmt(w, c, g.body, s0, fuel - 1).value;
    var env := CG.EnvOf(w.prog, g);
    CalleeIsGood(p, w, fr, g, |vals|);
    var n, b := EnterCallee(p, w, fr, g, vals, s, m);
    var e := SimStmt(p, w, c, env, g.body, n, s0, fuel - 1, b);
    m' := RunLeave(p, w, fr, c, env.epi, s0, o.s, m, b, e);
    Then(p, m, b, e);
    Then(p, m, e, m');
  }

  /** Where the parts of a function's code are. */
  lemma FunctionParts(p: Image, prog: Program, g: Func, n: nat, k: nat)
    requires UniqueLabels(p.lines) && FunctionAt(p, prog, g, n) && k == Find(p.lines, Named(g.name))
    ensures var body := CG.GenStmt(CG.EnvOf(prog, g), g.body, n); var pro := CG.Prologue(TableOf(g).bytes);
            var at := k + 1 + |pro|; var epi := CG.EpilogueLabel(g.name);
            && k < |p.lines| && p.lines[k] == Lab(Named(g.name)) && Placed(p.lines, k + 1, pro)
            && body.Ok? && Placed(p.lines, at, body.value.code)
            && Placed(p.lines, at + |body.value.code|, [Lab(epi)] + CG.EPILOGUE)
            && at + |body.value.code| < |p.lines| && Find(p.lines, epi) == at + |body.value.code|
  {
    hide CG.GenStmt, CG.Prologue, TableOf, CG.EpilogueLabel, CG.EnvOf;
    var body := CG.GenStmt(CG.EnvOf(prog, g), g.body, n).value;
    var pro := CG.Prologue(TableOf(g).bytes);
    var epi := [Lab(CG.EpilogueLabel(g.name))] + CG.EPILOGUE;
    Split(p.lines, k, [Lab(Named(g.name))], pro + (body.code + epi));
    Split(p.lines, k + 1, pro, body.code + epi);
    Split(p.lines, k + 1 + |pro|, body.code, epi);
    var at := k + 1 + |pro| + |body.code|;
    assert p.lines[at] == epi[0];
    LabelAt(p.lines, at, CG.EpilogueLabel(g.name));
  }

  // ----- Statements -----

  /** At the end of its code, or at the function's epilogue with the result in R0. */
  ghost predicate Ends(p: Image, fr: Frame, env: CG.Env, m: Machine, m': Machine, o: Outcome, pos: nat) {
    && Reaches(p, m, m') && After(fr, m, m', o.s) && (o.Normal? ==> m'.pc == pos)
    && (o.Returned? ==> m'.pc == Find(p.lines, env.epi) && (o.v.W? ==> m'.regs[0] == o.v.w))
  }

  lemma EndsTrans(p: Image, fr: Frame, env: CG.Env, a: Machine, b: Machine, c: Machine, s: State, o: Outcome, pos: nat)
    requires Reaches(p, a, b) && After(fr, a, b, s) && Ends(p, fr, env, b, c, o, pos)
    ensures Ends(p, fr, env, a, c, o, pos)
  {
    hide Reaches, Match, Kept;
    Then(p, a, b, c);
    AfterTrans(fr, a, b, c, s, o.s);
  }

  lemma {:induction false} SimOptional(p: Image, w: World, fr: Frame, env: CG.Env, e: Option<Expr>, n: nat, s: State, fuel: nat,
      m: Machine) returns (m': Machine)
    requires Inside(p, w, fr, env) && Sits(fr, s, m) && EvalOptional(w, fr, e, s, fuel).Some?
    requires CG.GenOptional(env, e, n).Ok? && Placed(p.lines, m.pc, CG.GenOptional(env, e, n).value.code)
    ensures var r := EvalOptional(w, fr, e, s, fuel).value;
            Computes(p, fr, m, m', r.s, m.pc + |CG.GenOptional(env, e, n).value.code|, r.v)
    decreases fuel, 0
  {
    hide Reaches, Match, Placed, Eval, CG.GenExpr, Linked, Good;
    if e.None? {
      Stays(p, m);
      m' := m;
    } else {
      m' := SimExpr(p, w, fr, env, e.value, n, s, fuel - 1, m);
    }
  }

  /** A condition falls through when it holds and jumps to its label when it is 0. */
  lemma {:induction false} SimTest(p: Image, w: World, fr: Frame, env: CG.Env, c: Option<Expr>, l: Label, n: nat, s: State,
      fuel: nat, k: nat, m: Machine) returns (m': Machine)
    requires Inside(p, w, fr, env) && Sits(fr, s, m) && EvalTest(w, fr, c, s, fuel).Some?
    requires CG.GenTest(env, c, l, n).Ok? && Placed(p.lines, m.pc, CG.GenTest(env, c, l, n).value.code)
    requires k < |p.lines| && p.lines[k] == Lab(l)
    ensures var r := EvalTest(w, fr, c, s, fuel).value;
            && Reaches(p, m, m') && After(fr, m, m', r.s)
            && m'.pc == if r.w == 0 then k else m.pc + |CG.GenTest(env, c, l, n).value.code|
    decreases fuel, 1
  {
    hide Reaches, Match, Placed, EvalWord, CG.GenExpr, UniqueLabels, HasCode, Good;
    if c.None? {
      Stays(p, m);
      m' := m;
    } else {
      var cc := CG.GenExpr(env, c.value, n).value;
      Split(p.lines, m.pc, cc.code, CG.Test(l));
      var m1 := SimWord(p, w, fr, env, c.value, n, s, fuel - 1, m);
      var r := EvalWord(w, fr, c.value, s, fuel - 1).value;
      m' := SimTested(p, fr, m, m1, r.s, Zero, l, k, m1.pc, r.w);
    }
  }

  /** Statements run in a function whose epilogue is in place. */
  ghost predicate Within(p: Image, w: World, fr: Frame, env: CG.Env) {
    Inside(p, w, fr, env) && Find(p.lines, env.epi) < |p.lines|
  }

  lemma {:induction false} SimStmt(p: Image, w: World, fr: Frame, env: CG.Env, st: Stmt, n: nat, s: State, fuel: nat, m: Machine)
      returns (m': Machine)
    requires Within(p, w, fr, env) && Sits(fr, s, m) && ExecStmt(w, fr, st, s, fuel).Some?
    requires CG.GenStmt(env, st, n).Ok? && Placed(p.lines, m.pc, CG.GenStmt(env, st, n).value.code)
    ensures Ends(p, fr, env, m, m', ExecStmt(w, fr, st, s, fuel).value, m.pc + |CG.GenStmt(env, st, n).value.code|)
    decreases fuel, 2
  {
    hide Inside, Sits, Placed, Reaches, After, Eval, EvalWord, ExecBlock, ExecLoop, EvalOptional, CG.GenExpr, CG.GenBlock, CG.GenLoop, CG.GenOptional;
    match st
    case Block(ss) =>
      assert ss[0..] == ss;
      m' := SimBlock(p, w, fr, env, st, 0, n, s, fuel - 1, m);
    case VarDecl(x, size, init) => m' := SimVarDecl(p, w, fr, env, st, n, s, fuel, m);
    case ExprStmt(e) =>
      m' := SimExpr(p, w, fr, env, e, n, s, fuel - 1, m);
    case Return(e) => m' := SimReturn(p, w, fr, env, e, n, s, fuel - 1, m);
    case If(c, t, f) =>
      if f.Some? {
        m' := SimIfElse(p, w, fr, env, c, t, f.value, n, s, fuel, m);
      } else {
        m' := SimIf(p, w, fr, env, c, t, n, s, fuel, m);
      }
    case While(c, b) => m' := SimLoop(p, w, fr, env, Some(c), None, b, n, s, fuel - 1, m);
    case For(pre, c, post, b) => m' := SimFor(p, w, fr, env, st, n, s, fuel, m);
  }

  lemma {:induction false} SimBlock(p: Image, w: World, fr: Frame, env: CG.Env, st: Stmt, k: nat, n: nat, s: State, fuel: nat,
      m: Machine) returns (m': Machine)
    requires Within(p, w, fr, env) && Sits(fr, s, m) && st.Block? && k <= |st.ss|
    requires ExecBlock(w, fr, st.ss[k..], s, fuel).Some?
    requires CG.GenBlock(env, st, k, n).Ok? && Placed(p.lines, m.pc, CG.GenBlock(env, st, k, n).value.code)
    ensures Ends(p, fr, env, m, m', ExecBlock(w, fr, st.ss[k..], s, fuel).value, m.pc + |CG.GenBlock(env, st, k, n).value.code|)
    decreases fuel, 3
  {
    hide Reaches, Match, Kept, Placed, ExecStmt, CG.GenStmt, Inside;
    if k == |st.ss| {
      Stays(p, m);
      m' := m;
      KeptRefl(fr, m.mem);
    } else {
      assert st.ss[k..][0] == st.ss[k] && st.ss[k..][1..] == st.ss[k + 1..];
      var ca := CG.GenStmt(env, st.ss[k], n).value;
      var cb := CG.GenBlock(env, st, k + 1, ca.next).value;
      Split(p.lines, m.pc, ca.code, cb.code);
      var o := ExecStmt(w, fr, st.ss[k], s, fuel - 1).value;
      var m1 := SimStmt(p, w, fr, env, st.ss[k], n, s, fuel - 1, m);
      if o.Returned? {
        m' := m1;
      } else {
        m' := SimBlock(p, w, fr, env, st, k + 1, ca.next, o.s, fuel - 1, m1);
        EndsTrans(p, fr, env, m, m1, m', o.s, ExecBlock(w, fr, st.ss[k + 1..], o.s, fuel - 1).value, m1.pc + |cb.code|);
      }
    }
  }

  lemma KeptRefl(fr: Frame, a: map<int, Word>)
    ensures Kept(fr.sp, fr.cells, a, a)
  {
  }

  lemma {:induction false} SimVarDecl(p: Image, w: World, fr: Frame, env: CG.Env, st: Stmt, n: nat, s: State, fuel: nat,
      m: Machine) returns (m': Machine)
    requires Within(p, w, fr, env) && Sits(fr, s, m) && st.VarDecl? && ExecStmt(w, fr, st, s, fuel).Some?
    requires CG.GenStmt(env, st, n).Ok? && Placed(p.lines, m.pc, CG.GenStmt(env, st, n).value.code)
    ensures Ends(p, fr, env, m, m', ExecStmt(w, fr, st, s, fuel).value, m.pc + |CG.GenStmt(env, st, n).value.code|)
    decreases fuel, 1
  {
    hide Reaches, Match, Kept, Placed, EvalWord, CG.GenExpr, UniqueLabels, HasCode, Wrap, WriteCell;
    if st.init.None? {
      Stays(p, m);
      m' := m;
      KeptRefl(fr, m.mem);
    } else {
      var e := st.init.value;
      var off := SymFind(env.sym, st.x).value.off;
      var ce := CG.GenExpr(env, e, n).value;
      var tail := [Op(Instr.Store(FP, off, 0))];
      Split(p.lines, m.pc, ce.code, tail);
      var v := EvalWord(w, fr, e, s, fuel - 1).value;
      var m1 := SimWord(p, w, fr, env, e, n, s, fuel - 1, m);
      m' := RunStoreLocal(p, w, fr, v.s, m1, off);
      var s' := WriteCell(fr, v.s, Wrap(fr.fp + off), v.w).value;
      Then(p, m, m1, m');
      AfterTrans(fr, m, m1, m', v.s, s');
    }
  }

  lemma RunStoreLocal(p: Image, w: World, fr: Frame, s: State, m: Machine, off: int) returns (m': Machine)
    requires Good(p, w, fr) && Sits(fr, s, m) && Placed(p.lines, m.pc, [Op(Instr.Store(FP, off, 0))])
    requires WriteCell(fr, s, Wrap(fr.fp + off), m.regs[0]).Some?
    ensures Reaches(p, m, m') && After(fr, m, m', WriteCell(fr, s, Wrap(fr.fp + off), m.regs[0]).value) && m'.pc == m.pc + 1
  {
    hide Wrap, Reaches, WriteCell, Match, Kept;
    assert p.lines[m.pc] == [Op(Instr.Store(FP, off, 0))][0];
    StoreCell(p, w, fr, s, m, FP, off);
    m' := AfterStore(m, Wrap(m.regs[FP] + off), m.regs[0]);
  }

  lemma {:induction false} SimReturn(p: Image, w: World, fr: Frame, env: CG.Env, e: Option<Expr>, n: nat, s: State, fuel: nat,
      m: Machine) returns (m': Machine)
    requires Within(p, w, fr, env) && Sits(fr, s, m) && EvalOptional(w, fr, e, s, fuel).Some?
    requires CG.GenStmt(env, Return(e), n).Ok? && Placed(p.lines, m.pc, CG.GenStmt(env, Return(e), n).value.code)
    ensures var r := EvalOptional(w, fr, e, s, fuel).value;
            Ends(p, fr, env, m, m', Returned(r.v, r.s), m.pc + |CG.GenStmt(env, Return(e), n).value.code|)
    decreases fuel, 1
  {
    hide Reaches, Match, Kept, EvalOptional, CG.GenOptional, UniqueLabels, HasCode, Good;
    var ce := CG.GenOptional(env, e, n).value;
    var tail := [Op(Jmp(env.epi))];
    Split(p.lines, m.pc, ce.code, tail);
    assert p.lines[m.pc + |ce.code|] == tail[0];
    hide Placed;
    var r := EvalOptional(w, fr, e, s, fuel).value;
    var m1 := SimOptional(p, w, fr, env, e, n, s, fuel, m);
    var k := Find(p.lines, env.epi);
    m' := m1.(pc := k);
    RunJmp(p, m1, env.epi, k);
    Then(p, m, m1, m');
    QuietSits(fr, r.s, m1, m');
    AfterTrans(fr, m, m1, m', r.s, r.s);
  }

  /** Steps over a label. */
  lemma OverLabel(p: Image, fr: Frame, env: CG.Env, a: Machine, b: Machine, s: State, l: Label) returns (b': Machine)
    requires Reaches(p, a, b) && After(fr, a, b, s) && Placed(p.lines, b.pc, [Lab(l)])
    ensures b' == b.(pc := b.pc + 1) && Ends(p, fr, env, a, b', Normal(s), b.pc + 1)
  {
    hide Reaches, Match, Kept;
    assert p.lines[b.pc] == [Lab(l)][0];
    b' := b.(pc := b.pc + 1);
    RunLabel(p, b);
    Then(p, a, b, b');
    QuietSits(fr, s, b, b');
    AfterTrans(fr, a, b, b', s, s);
  }

  lemma IfParts(p: Image, env: CG.Env, c: Expr, t: Stmt, n: nat, pos: nat)
    requires CG.GenStmt(env, If(c, t, None), n).Ok?
    requires Placed(p.lines, pos, CG.GenStmt(env, If(c, t, None), n).value.code)
    ensures CG.GenTest(env, Some(c), Local(n), n + 1).Ok?
    ensures CG.GenStmt(env, t, CG.GenTest(env, Some(c), Local(n), n + 1).value.next).Ok?
    ensures var cr := CG.GenTest(env, Some(c), Local(n), n + 1).value;
            var ca := CG.GenStmt(env, t, cr.next).value; var pe := pos + |cr.code| + |ca.code|;
            && Placed(p.lines, pos, cr.code) && Placed(p.lines, pos + |cr.code|, ca.code)
            && Placed(p.lines, pe, [Lab(Local(n))]) && pe < |p.lines| && p.lines[pe] == Lab(Local(n))
            && pe + 1 == pos + |CG.GenStmt(env, If(c, t, None), n).value.code|
  {
    var cr := CG.GenTest(env, Some(c), Local(n), n + 1).value;
    var ca := CG.GenStmt(env, t, cr.next).value;
    var tail := [Lab(Local(n))];
    assert CG.GenStmt(env, If(c, t, None), n).value.code == cr.code + (ca.code + tail);
    hide CG.GenTest, CG.GenStmt;
    Split(p.lines, pos, cr.code, ca.code + tail);
    Split(p.lines, pos + |cr.code|, ca.code, tail);
    assert p.lines[pos + |cr.code| + |ca.code|] == tail[0];
  }

  lemma {:induction false} SimIf(p: Image, w: World, fr: Frame, env: CG.Env, c: Expr, t: Stmt, n: nat, s: State, fuel: nat,
      m: Machine) returns (m': Machine)
    requires Within(p, w, fr, env) && Sits(fr, s, m) && ExecStmt(w, fr, If(c, t, None), s, fuel).Some?
    requires CG.GenStmt(env, If(c, t, None), n).Ok? && Placed(p.lines, m.pc, CG.GenStmt(env, If(c, t, None), n).value.code)
    ensures Ends(p, fr, env, m, m', ExecStmt(w, fr, If(c, t, None), s, fuel).value,
                 m.pc + |CG.GenStmt(env, If(c, t, None), n).value.code|)
    decreases fuel, 1
  {
    hide Reaches, Match, Kept, EvalTest, CG.GenTest, CG.GenStmt, ExecStmt, UniqueLabels, HasCode, Good, Placed;
    IfParts(p, env, c, t, n, m.pc);
    IfMeans(w, fr, c, t, None, s, fuel);
    var cr := CG.GenTest(env, Some(c), Local(n), n + 1).value;
    var ca := CG.GenStmt(env, t, cr.next).value;
    var r := EvalTest(w, fr, Some(c), s, fuel - 1).value;
    var o := ExecStmt(w, fr, If(c, t, None), s, fuel).value;
    var k := m.pc + |cr.code| + |ca.code|;
    var m1 := SimTest(p, w, fr, env, Some(c), Local(n), n + 1, s, fuel - 1, k, m);
    if r.w == 0 {
      m' := OverLabel(p, fr, env, m, m1, r.s, Local(n));
    } else {
      var m2 := SimStmt(p, w, fr, env, t, cr.next, r.s, fuel - 1, m1);
      EndsTrans(p, fr, env, m, m1, m2, r.s, o, k);
      if o.Returned? {
        m' := m2;
      } else {
        m' := OverLabel(p, fr, env, m, m2, o.s, Local(n));
      }
    }
  }

  lemma IfMeans(w: World, fr: Frame, c: Expr, t: Stmt, f: Option<Stmt>, s: State, fuel: nat)
    requires ExecStmt(w, fr, If(c, t, f), s, fuel).Some?
    ensures fuel > 0 && EvalTest(w, fr, Some(c), s, fuel - 1).Some?
    ensures var r := EvalTest(w, fr, Some(c), s, fuel - 1).value;
            ExecStmt(w, fr, If(c, t, f), s, fuel) == if r.w != 0 then ExecStmt(w, fr, t, r.s, fuel - 1)
                                                     else if f.None? then Some(Normal(r.s))
                                                     else ExecStmt(w, fr, f.value, r.s, fuel - 1)
  {
    hide EvalTest;
  }

  lemma IfElseParts(p: Image, env: CG.Env, c: Expr, t: Stmt, f: Stmt, n: nat, pos: nat)
    requires CG.GenStmt(env, If(c, t, Some(f)), n).Ok?
    requires Placed(p.lines, pos, CG.GenStmt(env, If(c, t, Some(f)), n).value.code)
    ensures CG.GenTest(env, Some(c), Local(n), n + 2).Ok?
    ensures var cr := CG.GenTest(env, Some(c), Local(n), n + 2).value;
            CG.GenStmt(env, t, cr.next).Ok? && CG.GenStmt(env, f, CG.GenStmt(env, t, cr.next).value.next).Ok?
    ensures var cr := CG.GenTest(env, Some(c), Local(n), n + 2).value;
            var ca := CG.GenStmt(env, t, cr.next).value; var cb := CG.GenStmt(env, f, ca.next).value;
            var pm := pos + |cr.code| + |ca.code|; var pe := pm + 2 + |cb.code|;
            && Placed(p.lines, pos, cr.code) && Placed(p.lines, pos + |cr.code|, ca.code) && Placed(p.lines, pm + 2, cb.code)
            && pe < |p.lines| && p.lines[pm] == Op(Jmp(Local(n + 1))) && p.lines[pm + 1] == Lab(Local(n))
            && p.lines[pe] == Lab(Local(n + 1)) && pe + 1 == pos + |CG.GenStmt(env, If(c, t, Some(f)), n).value.code|
  {
    var cr := CG.GenTest(env, Some(c), Local(n), n + 2).value;
    var ca := CG.GenStmt(env, t, cr.next).value;
    var cb := CG.GenStmt(env, f, ca.next).value;
    var mid := [Op(Jmp(Local(n + 1))), Lab(Local(n))];
    var tail := [Lab(Local(n + 1))];
    assert CG.GenStmt(env, If(c, t, Some(f)), n).value.code == cr.code + (ca.code + (mid + (cb.code + tail)));
    hide CG.GenTest, CG.GenStmt;
    var pa := pos + |cr.code|;
    var pm := pa + |ca.code|;
    var pe := pm + 2 + |cb.code|;
    Split(p.lines, pos, cr.code, ca.code + (mid + (cb.code + tail)));
    Split(p.lines, pa, ca.code, mid + (cb.code + tail));
    Split(p.lines, pm, mid, cb.code + tail);
    Split(p.lines, pm + 2, cb.code, tail);
    assert p.lines[pm] == mid[0] && p.lines[pm + 1] == mid[1] && p.lines[pe] == tail[0];
  }

  lemma {:induction false} SimIfElse(p: Image, w: World, fr: Frame, env: CG.Env, c: Expr, t: Stmt, f: Stmt, n: nat, s: State,
      fuel: nat, m: Machine) returns (m': Machine)
    requires Within(p, w, fr, env) && Sits(fr, s, m) && ExecStmt(w, fr, If(c, t, Some(f)), s, fuel).Some?
    requires CG.GenStmt(env, If(c, t, Some(f)), n).Ok?
    requires Placed(p.lines, m.pc, CG.GenStmt(env, If(c, t, Some(f)), n).value.code)
    ensures Ends(p, fr, env, m, m', ExecStmt(w, fr, If(c, t, Some(f)), s, fuel).value,
                 m.pc + |CG.GenStmt(env, If(c, t, Some(f)), n).value.code|)
    decreases fuel, 1
  {
    hide Reaches, Match, Kept, EvalTest, CG.GenTest, CG.GenStmt, ExecStmt, UniqueLabels, HasCode, Good, Placed;
    IfElseParts(p, env, c, t, f, n, m.pc);
    IfMeans(w, fr, c, t, Some(f), s, fuel);
    var cr := CG.GenTest(env, Some(c), Local(n), n + 2).value;
    var ca := CG.GenStmt(env, t, cr.next).value;
    var cb := CG.GenStmt(env, f, ca.next).value;
    var r := EvalTest(w, fr, Some(c), s, fuel - 1).value;
    var o := ExecStmt(w, fr, If(c, t, Some(f)), s, fuel).value;
    var pm := m.pc + |cr.code| + |ca.code|;
    var pe := pm + 2 + |cb.code|;
    var m1 := SimTest(p, w, fr, env, Some(c), Local(n), n + 2, s, fuel - 1, pm + 1, m);
    var m2;
    if r.w == 0 {
      m2 := SimElse(p, w, fr, env, f, ca.next, r.s, fuel - 1, o, m1);
      EndsTrans(p, fr, env, m, m1, m2, r.s, o, pe);
    } else {
      m2 := SimThen(p, w, fr, env, t, cr.next, r.s, fuel - 1, o, Local(n + 1), pe, m1);
      EndsTrans(p, fr, env, m, m1, m2, r.s, o, pe);
    }
    if o.Returned? {
      m' := m2;
    } else {
      m' := OverEnd(p, fr, env, m, m2, o.s);
    }
  }

  /** The first branch, and the jump over the second. */
  lemma {:induction false} SimThen(p: Image, w: World, fr: Frame, env: CG.Env, t: Stmt, n: nat, s: State, fuel: nat, o: Outcome,
      l: Label, k: nat, m: Machine) returns (m': Machine)
    requires Within(p, w, fr, env) && Sits(fr, s, m) && ExecStmt(w, fr, t, s, fuel) == Some(o)
    requires CG.GenStmt(env, t, n).Ok? && Placed(p.lines, m.pc, CG.GenStmt(env, t, n).value.code)
    requires var at := m.pc + |CG.GenStmt(env, t, n).value.code|; at < |p.lines| && p.lines[at] == Op(Jmp(l))
    requires k < |p.lines| && p.lines[k] == Lab(l)
    ensures Ends(p, fr, env, m, m', o, k)
    decreases fuel, 3
  {
    hide Reaches, Match, Kept, CG.GenStmt, ExecStmt, UniqueLabels, HasCode, Good, Placed;
    var m1 := SimStmt(p, w, fr, env, t, n, s, fuel, m);
    if o.Returned? {
      m' := m1;
    } else {
      m' := m1.(pc := k);
      RunJmp(p, m1, l, k);
      Then(p, m, m1, m');
      QuietSits(fr, o.s, m1, m');
      AfterTrans(fr, m, m1, m', o.s, o.s);
    }
  }

  /** A label, and the statement behind it. */
  lemma {:induction false} SimElse(p: Image, w: World, fr: Frame, env: CG.Env, f: Stmt, n: nat, s: State, fuel: nat, o: Outcome,
      m: Machine) returns (m': Machine)
    requires Within(p, w, fr, env) && Sits(fr, s, m) && ExecStmt(w, fr, f, s, fuel) == Some(o)
    requires m.pc < |p.lines| && p.lines[m.pc].Lab?
    requires CG.GenStmt(env, f, n).Ok? && Placed(p.lines, m.pc + 1, CG.GenStmt(env, f, n).value.code)
    ensures Ends(p, fr, env, m, m', o, m.pc + 1 + |CG.GenStmt(env, f, n).value.code|)
    decreases fuel, 3
  {
    hide Reaches, Match, Kept, CG.GenStmt, ExecStmt, UniqueLabels, HasCode, Good, Placed;
    var m1 := m.(pc := m.pc + 1);
    RunLabel(p, m);
    QuietSits(fr, s, m, m1);
    m' := SimStmt(p, w, fr, env, f, n, s, fuel, m1);
    EndsTrans(p, fr, env, m, m1, m', s, o, m1.pc + |CG.GenStmt(env, f, n).value.code|);
  }

  lemma {:induction false} SimFor(p: Image, w: World, fr: Frame, env: CG.Env, st: Stmt, n: nat, s: State, fuel: nat,
      m: Machine) returns (m': Machine)
    requires Within(p, w, fr, env) && Sits(fr, s, m) && st.For? && ExecStmt(w, fr, st, s, fuel).Some?
    requires CG.GenStmt(env, st, n).Ok? && Placed(p.lines, m.pc, CG.GenStmt(env, st, n).value.code)
    ensures Ends(p, fr, env, m, m', ExecStmt(w, fr, st, s, fuel).value, m.pc + |CG.GenStmt(env, st, n).value.code|)
    decreases fuel, 1
  {
    if st.pre.None? {
      m' := SimLoop(p, w, fr, env, st.cond, st.post, st.body, n, s, fuel - 1, m);
    } else {
      var ca := CG.GenStmt(env, st.pre.value, n).value;
      var cb := CG.GenLoop(env, st.cond, st.post, st.body, ca.next).value;
      assert CG.GenStmt(env, st, n).value.code == ca.code + cb.code;
      var o := ExecStmt(w, fr, st.pre.value, s, fuel - 1).value;
      var all := ExecStmt(w, fr, st, s, fuel).value;
      assert if o.Returned? then all == o else Some(all) == ExecLoop(w, fr, st.cond, st.post, st.body, o.s, fuel - 1);
      hide Reaches, Match, Kept, CG.GenStmt, CG.GenLoop, ExecStmt, ExecLoop, Inside, Placed;
      Split(p.lines, m.pc, ca.code, cb.code);
      var m1 := SimStmt(p, w, fr, env, st.pre.value, n, s, fuel - 1, m);
      if o.Returned? {
        m' := m1;
      } else {
        m' := SimLoop(p, w, fr, env, st.cond, st.post, st.body, ca.next, o.s, fuel - 1, m1);
        EndsTrans(p, fr, env, m, m1, m', o.s, all, m1.pc + |cb.code|);
      }
    }
  }

  /** The parts of a loop's code. */
  predicate LoopParts(p: Image, env: CG.Env, c: Option<Expr>, post: Option<Expr>, body: Stmt, n: nat, pos: nat)
    requires CG.GenLoop(env, c, post, body, n).Ok?
  {
    var test := CG.GenTest(env, c, Local(n + 1), n + 2).value;
    var b := CG.GenStmt(env, body, test.next).value;
    var step := CG.GenOptional(env, post, b.next).value;
    var pb := pos + 1 + |test.code|;
    var ps := pb + |b.code|;
    var pj := ps + |step.code|;
    && CG.GenTest(env, c, Local(n + 1), n + 2).Ok? && CG.GenStmt(env, body, test.next).Ok? && CG.GenOptional(env, post, b.next).Ok?
    && pj + 2 == pos + |CG.GenLoop(env, c, post, body, n).value.code| <= |p.lines|
    && p.lines[pos] == Lab(Local(n)) && Placed(p.lines, pos + 1, test.code) && Placed(p.lines, pb, b.code)
    && Placed(p.lines, ps, step.code) && p.lines[pj] == Op(Jmp(Local(n))) && p.lines[pj + 1] == Lab(Local(n + 1))
  }

  lemma LoopCode(p: Image, env: CG.Env, c: Option<Expr>, post: Option<Expr>, body: Stmt, n: nat, pos: nat)
    requires CG.GenLoop(env, c, post, body, n).Ok? && Placed(p.lines, pos, CG.GenLoop(env, c, post, body, n).value.code)
    ensures LoopParts(p, env, c, post, body, n, pos)
  {
    hide CG.GenTest, CG.GenStmt, CG.GenOptional;
    var top := [Lab(Local(n))];
    var test := CG.GenTest(env, c, Local(n + 1), n + 2).value;
    var b := CG.GenStmt(env, body, test.next).value;
    var step := CG.GenOptional(env, post, b.next).value;
    var back := [Op(Jmp(Local(n))), Lab(Local(n + 1))];
    Split(p.lines, pos, top, test.code + (b.code + (step.code + back)));
    Split(p.lines, pos + 1, test.code, b.code + (step.code + back));
    Split(p.lines, pos + 1 + |test.code|, b.code, step.code + back);
    Split(p.lines, pos + 1 + |test.code| + |b.code|, step.code, back);
    var pj := pos + 1 + |test.code| + |b.code| + |step.code|;
    assert p.lines[pos] == top[0] && p.lines[pj] == back[0] && p.lines[pj + 1] == back[1];
  }

  lemma BehindLabel(p: Image, fr: Frame, m: Machine, m1: Machine, s: State, s': State, l: Label)
    requires m.pc < |p.lines| && p.lines[m.pc] == Lab(l) && Sits(fr, s, m)
    requires Reaches(p, m.(pc := m.pc + 1), m1) && After(fr, m.(pc := m.pc + 1), m1, s')
    ensures Reaches(p, m, m1) && After(fr, m, m1, s')
  {
    hide Reaches, Match, Kept;
    var m0 := m.(pc := m.pc + 1);
    RunLabel(p, m);
    QuietSits(fr, s, m, m0);
    Then(p, m, m0, m1);
    AfterTrans(fr, m, m0, m1, s, s');
  }

  lemma LoopMeans(w: World, fr: Frame, c: Option<Expr>, post: Option<Expr>, body: Stmt, s: State, fuel: nat)
    requires ExecLoop(w, fr, c, post, body, s, fuel).Some?
    ensures fuel > 0 && EvalTest(w, fr, c, s, fuel - 1).Some?
    ensures var r := EvalTest(w, fr, c, s, fuel - 1).value; var all := ExecLoop(w, fr, c, post, body, s, fuel).value;
            if r.w == 0 then all == Normal(r.s)
            else
              && ExecStmt(w, fr, body, r.s, fuel - 1).Some?
              && var o := ExecStmt(w, fr, body, r.s, fuel - 1).value;
                 if o.Returned? then all == o
                 else && EvalOptional(w, fr, post, o.s, fuel - 1).Some?
                      && ExecLoop(w, fr, c, post, body, EvalOptional(w, fr, post, o.s, fuel - 1).value.s, fuel - 1) == Some(all)
  {
    hide EvalTest, ExecStmt, EvalOptional;
  }

  lemma {:induction false} SimLoop(p: Image, w: World, fr: Frame, env: CG.Env, c: Option<Expr>, post: Option<Expr>, body: Stmt,
      n: nat, s: State, fuel: nat, m: Machine) returns (m': Machine)
    requires Within(p, w, fr, env) && Sits(fr, s, m) && ExecLoop(w, fr, c, post, body, s, fuel).Some?
    requires CG.GenLoop(env, c, post, body, n).Ok? && Placed(p.lines, m.pc, CG.GenLoop(env, c, post, body, n).value.code)
    ensures Ends(p, fr, env, m, m', ExecLoop(w, fr, c, post, body, s, fuel).value,
                 m.pc + |CG.GenLoop(env, c, post, body, n).value.code|)
    decreases fuel, 3
  {
    hide Reaches, Match, Kept, CG.GenLoop, CG.GenTest, CG.GenStmt, CG.GenOptional, ExecLoop, ExecStmt, EvalTest, EvalOptional, Placed,
         UniqueLabels, HasCode, Good;
    LoopCode(p, env, c, post, body, n, m.pc);
    LoopMeans(w, fr, c, post, body, s, fuel);
    var test := CG.GenTest(env, c, Local(n + 1), n + 2).value;
    var pe := m.pc + |CG.GenLoop(env, c, post, body, n).value.code| - 1;
    var r := EvalTest(w, fr, c, s, fuel - 1).value;
    var all := ExecLoop(w, fr, c, post, body, s, fuel).value;
    QuietSits(fr, s, m, m.(pc := m.pc + 1));
    var m1 := SimTest(p, w, fr, env, c, Local(n + 1), n + 2, s, fuel - 1, pe, m.(pc := m.pc + 1));
    BehindLabel(p, fr, m, m1, s, r.s, Local(n));
    if r.w == 0 {
      m' := OverEnd(p, fr, env, m, m1, r.s);
    } else {
      m' := SimRound(p, w, fr, env, c, post, body, n, r.s, fuel - 1, m.pc, m1);
      EndsTrans(p, fr, env, m, m1, m', r.s, all, pe + 1);
    }
  }

  lemma OverEnd(p: Image, fr: Frame, env: CG.Env, a: Machine, b: Machine, s: State) returns (b': Machine)
    requires Reaches(p, a, b) && After(fr, a, b, s) && b.pc < |p.lines| && p.lines[b.pc].Lab?
    ensures Ends(p, fr, env, a, b', Normal(s), b.pc + 1)
  {
    hide Reaches, Match, Kept;
    b' := OverLabel(p, fr, env, a, b, s, p.lines[b.pc].l);
  }

  /** Body, step and the jump back, then the rest of the loop. */
  lemma {:induction false} SimRound(p: Image, w: World, fr: Frame, env: CG.Env, c: Option<Expr>, post: Option<Expr>, body: Stmt,
      n: nat, s: State, fuel: nat, pos: nat, m: Machine) returns (m': Machine)
    requires Within(p, w, fr, env) && Sits(fr, s, m) && ExecStmt(w, fr, body, s, fuel).Some?
    requires var o := ExecStmt(w, fr, body, s, fuel).value;
             o.Normal? ==> (&& EvalOptional(w, fr, post, o.s, fuel).Some?
                            && ExecLoop(w, fr, c, post, body, EvalOptional(w, fr, post, o.s, fuel).value.s, fuel).Some?)
    requires CG.GenLoop(env, c, post, body, n).Ok? && Placed(p.lines, pos, CG.GenLoop(env, c, post, body, n).value.code)
    requires m.pc == pos + 1 + |CG.GenTest(env, c, Local(n + 1), n + 2).value.code|
    ensures var o := ExecStmt(w, fr, body, s, fuel).value;
            Ends(p, fr, env, m, m', if o.Returned? then o
                                    else ExecLoop(w, fr, c, post, body, EvalOptional(w, fr, post, o.s, fuel).value.s, fuel).value,
                 pos + |CG.GenLoop(env, c, post, body, n).value.code|)
    decreases fuel, 4
  {
    hide Reaches, Match, Kept, CG.GenLoop, CG.GenTest, CG.GenStmt, CG.GenOptional, ExecLoop, ExecStmt, EvalTest, EvalOptional, Placed,
         UniqueLabels, HasCode, Good;
    LoopCode(p, env, c, post, body, n, pos);
    var test := CG.GenTest(env, c, Local(n + 1), n + 2).value;
    var b := CG.GenStmt(env, body, test.next).value;
    var end := pos + |CG.GenLoop(env, c, post, body, n).value.code|;
    var o := ExecStmt(w, fr, body, s, fuel).value;
    var m1 := SimStmt(p, w, fr, env, body, test.next, s, fuel, m);
    if o.Returned? {
      m' := m1;
    } else {
      var q := EvalOptional(w, fr, post, o.s, fuel).value;
      var m2 := SimOptional(p, w, fr, env, post, b.next, o.s, fuel, m1);
      var m3 := BackJump(p, fr, m, m1, m2, o.s, q.s, Local(n), pos);
      m' := SimLoop(p, w, fr, env, c, post, body, n, q.s, fuel, m3);
      EndsTrans(p, fr, env, m, m3, m', q.s, ExecLoop(w, fr, c, post, body, q.s, fuel).value, end);
    }
  }

  lemma BackJump(p: Image, fr: Frame, m: Machine, m1: Machine, m2: Machine, s1: State, s2: State, l: Label, k: nat)
      returns (m3: Machine)
    requires UniqueLabels(p.lines) && Reaches(p, m, m1) && After(fr, m, m1, s1) && Reaches(p, m1, m2) && After(fr, m1, m2, s2)
    requires m2.pc < |p.lines| && p.lines[m2.pc] == Op(Jmp(l)) && k < |p.lines| && p.lines[k] == Lab(l)
    ensures m3 == m2.(pc := k) && Reaches(p, m, m3) && After(fr, m, m3, s2)
  {
    hide Reaches, Match, Kept, UniqueLabels;
    m3 := m2.(pc := k);
    RunJmp(p, m2, l, k);
    Then(p, m, m1, m2);
    Then(p, m, m2, m3);
    AfterTrans(fr, m, m1, m2, s1, s2);
    QuietSits(fr, s2, m2, m3);
    AfterTrans(fr, m, m2, m3, s2, s2);
  }
}
