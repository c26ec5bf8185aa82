/** Pushes and pops of generated code are nested, whatever labels it passes, and so they stay under the peephole pass. */
module Balance {
  import opened Wrappers
  import opened M = Machine
  import opened CAst
  import opened CodeShape
  import CG = CodeGen
  import PH = Peephole
  import RW = Rewriting

  predicate NamedLabel(l: Line) { l.Lab? && l.l.Named? }

  predicate IsPush(l: Line) { l.Op? && l.i.Push? }

  predicate IsPop(l: Line) { l.Op? && l.i.Pop? }

  /** How many pushes are open after the lines, from d open before; None if a pop finds none or a named label finds some. */
  function Climb(code: seq<Line>, d: nat): Option<nat> {
    if code == [] then Some(d)
    else if IsPush(code[0]) then Climb(code[1..], d + 1)
    else if IsPop(code[0]) then (if d == 0 then None else Climb(code[1..], d - 1))
    else if NamedLabel(code[0]) && d > 0 then None
    else Climb(code[1..], d)
  }

  lemma {:induction false} ClimbCat(a: seq<Line>, b: seq<Line>, d: nat)
    ensures Climb(a + b, d) == if Climb(a, d).None? then None else Climb(b, Climb(a, d).value)
  {
    if a == [] {
      assert a + b == b;
    } else {
      assert (a + b)[0] == a[0] && (a + b)[1..] == a[1..] + b;
      ClimbCat(a[1..], b, if IsPush(a[0]) then d + 1 else if IsPop(a[0]) && d > 0 then d - 1 else d);
    }
  }

  /** Neither pushes, nor pops, nor named labels. */
  predicate Level(l: Line) { !IsPush(l) && !IsPop(l) && !NamedLabel(l) }

  lemma {:induction false} LevelClimb(code: seq<Line>, d: nat)
    requires forall i :: 0 <= i < |code| ==> Level(code[i])
    ensures Climb(code, d) == Some(d)
  {
    if code != [] {
      LevelClimb(code[1..], d);
    }
  }

  /** Two balanced stretches, and three. */
  lemma Both(a: seq<Line>, b: seq<Line>, d: nat)
    requires Climb(a, d) == Some(d) && Climb(b, d) == Some(d)
    ensures Climb(a + b, d) == Some(d)
  {
    ClimbCat(a, b, d);
  }

  lemma Pushed(a: seq<Line>, b: seq<Line>, tail: seq<Line>, d: nat)
    requires Climb(a, d) == Some(d) && Climb(b, d + 1) == Some(d + 1) && Climb(tail, d + 1) == Some(d)
    ensures Climb(a + (CG.PUSH0 + (b + tail)), d) == Some(d)
  {
    hide Climb;
    ClimbCat(b, tail, d + 1);
    ClimbCat(CG.PUSH0, b + tail, d);
    OnePush(d);
    ClimbCat(a, CG.PUSH0 + (b + tail), d);
  }

  lemma OnePush(d: nat)
    ensures Climb(CG.PUSH0, d) == Some(d + 1)
  {
    assert CG.PUSH0[1..] == [];
  }

  lemma FirstPops(code: seq<Line>, d: nat)
    requires code != [] && IsPop(code[0]) && forall i :: 1 <= i < |code| ==> Level(code[i])
    ensures Climb(code, d + 1) == Some(d)
  {
    LevelClimb(code[1..], d);
  }

  lemma IndexedPops(d: nat)
    ensures Climb(CG.INDEXED, d + 1) == Some(d)
  {
    var a, b := [Op(LoadI(1, 2)), Op(Alu(SHL, 0, 1))], [Op(Pop(1)), Op(Alu(ADD, 0, 1))];
    assert CG.INDEXED == a + b;
    LevelClimb(a, d + 1);
    FirstPops(b, d);
    ClimbCat(a, b, d + 1);
  }

  // ----- Expressions -----

  lemma NegateClimb(op: UnOp, n: nat, d: nat)
    ensures Climb(CG.Negate(op, n), d) == Some(d)
  {
    LevelClimb(CG.Negate(op, n), d);
  }

  lemma CompareClimb(op: BinOp, n: nat, d: nat)
    requires CG.IsComparison(op)
    ensures Climb(CG.Compare(op, n), d + 1) == Some(d)
  {
    FirstPops(CG.Compare(op, n), d);
  }

  lemma ArithmeticClimb(op: BinOp, d: nat)
    requires CG.IsArithmetic(op)
    ensures Climb(CG.Arithmetic(op), d + 1) == Some(d)
  {
    FirstPops(CG.Arithmetic(op), d);
  }

  lemma {:induction false} ExprClimb(env: CG.Env, e: Expr, n: nat, d: nat)
    requires CG.GenExpr(env, e, n).Ok?
    ensures Climb(CG.GenExpr(env, e, n).value.code, d) == Some(d)
    decreases e, 3
  {
    hide Climb, CG.GenBinary, CG.GenCall, CG.GenAssign, CG.GenAddr, CG.Negate;
    match e
    case Int(v) => LevelClimb([Op(LoadI(0, v))], d);
    case Var(x) =>
      if CG.PlaceOf(env, x).isArray {
        AddrClimb(env, e, n, d);
      } else {
        LevelClimb(CG.GenExpr(env, e, n).value.code, d);
      }
    case Index(_, _) => DerefClimb(env, e, n, d);
    case Assign(_, _) => AssignClimb(env, e, n, d);
    case Unary(op, a) =>
      if op == Amp {
        AddrClimb(env, a, n, d);
      } else if op == Star {
        DerefClimb(env, e, n, d);
      } else {
        ExprClimb(env, a, n, d);
        var r := CG.GenExpr(env, a, n).value;
        NegateClimb(op, r.next, d);
        Both(r.code, CG.Negate(op, r.next), d);
      }
    case Binary(_, _, _) => BinaryClimb(env, e, n, d);
    case Call(_, _) => CallClimb(env, e, n, d);
  }

  lemma {:induction false} DerefClimb(env: CG.Env, e: Expr, n: nat, d: nat)
    requires CG.GenAddr(env, e, n).Ok?
    ensures Climb(CG.GenAddr(env, e, n).value.code + CG.FETCH, d) == Some(d)
    decreases e, 2
  {
    hide Climb, CG.GenAddr;
    AddrClimb(env, e, n, d);
    LevelClimb(CG.FETCH, d);
    Both(CG.GenAddr(env, e, n).value.code, CG.FETCH, d);
  }

  lemma {:induction false} AddrClimb(env: CG.Env, e: Expr, n: nat, d: nat)
    requires CG.GenAddr(env, e, n).Ok?
    ensures Climb(CG.GenAddr(env, e, n).value.code, d) == Some(d)
    decreases e, 1
  {
    hide Climb, CG.GenExpr;
    match e
    case Var(x) => LevelClimb(CG.GenAddr(env, e, n).value.code, d);
    case Index(b, i) =>
      ExprClimb(env, b, n, d);
      var cb := CG.GenExpr(env, b, n).value;
      ExprClimb(env, i, cb.next, d + 1);
      IndexedPops(d);
      Pushed(cb.code, CG.GenExpr(env, i, cb.next).value.code, CG.INDEXED, d);
    case Unary(_, a) => ExprClimb(env, a, n, d);
  }

  lemma {:induction false} AssignClimb(env: CG.Env, e: Expr, n: nat, d: nat)
    requires e.Assign? && CG.GenAssign(env, e, n).Ok?
    ensures Climb(CG.GenAssign(env, e, n).value.code, d) == Some(d)
    decreases e, 2
  {
    hide Climb, CG.GenExpr, CG.GenAddr;
    if e.lhs.Var? {
      ExprClimb(env, e.rhs, n, d);
      var tail := if CG.PlaceOf(env, e.lhs.x).InFrame? then [Op(Store(FP, CG.PlaceOf(env, e.lhs.x).off, 0))]
                  else [Op(LoadA(1, e.lhs.x)), Op(Store(1, 0, 0))];
      LevelClimb(tail, d);
      Both(CG.GenExpr(env, e.rhs, n).value.code, tail, d);
    } else {
      AddrClimb(env, e.lhs, n, d);
      var a := CG.GenAddr(env, e.lhs, n).value;
      ExprClimb(env, e.rhs, a.next, d + 1);
      var tail := [Op(Pop(1)), Op(Store(1, 0, 0))];
      FirstPops(tail, d);
      Pushed(a.code, CG.GenExpr(env, e.rhs, a.next).value.code, tail, d);
    }
  }

  lemma {:induction false} BinaryClimb(env: CG.Env, e: Expr, n: nat, d: nat)
    requires e.Binary? && CG.GenBinary(env, e, n).Ok?
    ensures Climb(CG.GenBinary(env, e, n).value.code, d) == Some(d)
    decreases e, 2
  {
    hide Climb, CG.GenExpr, CG.Compare, CG.Arithmetic, CG.Choose;
    var short := e.op == AndAnd || e.op == OrOr;
    var start := if short then n + 2 else n;
    ExprClimb(env, e.l, start, d);
    var a := CG.GenExpr(env, e.l, start).value;
    ExprClimb(env, e.r, a.next, if short then d else d + 1);
    var b := CG.GenExpr(env, e.r, a.next).value;
    if e.op == AndAnd {
      ShortCircuitClimb(a.code, CG.Test(Local(n)), b.code, 1, n, 0, d);
    } else if e.op == OrOr {
      ShortCircuitClimb(a.code, CG.TestNot(Local(n)), b.code, 0, n, 1, d);
    } else if CG.IsComparison(e.op) {
      CompareClimb(e.op, b.next, d);
      Pushed(a.code, b.code, CG.Compare(e.op, b.next), d);
    } else {
      ArithmeticClimb(e.op, d);
      Pushed(a.code, b.code, CG.Arithmetic(e.op), d);
    }
  }

  lemma ChooseClimb(first: int, n: nat, second: int, d: nat)
    ensures Climb(CG.Choose(first, n, second, n + 1), d) == Some(d)
  {
    hide Climb;
    LevelClimb(CG.Choose(first, n, second, n + 1), d);
  }

  lemma ShortCircuitClimb(a: seq<Line>, test: seq<Line>, b: seq<Line>, first: int, n: nat, second: int, d: nat)
    requires Climb(a, d) == Some(d) && Climb(b, d) == Some(d) && forall i :: 0 <= i < |test| ==> Level(test[i])
    ensures Climb(a + (test + (b + (test + CG.Choose(first, n, second, n + 1)))), d) == Some(d)
  {
    hide Climb, CG.Choose;
    var choose := CG.Choose(first, n, second, n + 1);
    ChooseClimb(first, n, second, d);
    LevelClimb(test, d);
    Both(test, choose, d);
    Both(b, test + choose, d);
    Both(test, b + (test + choose), d);
    Both(a, test + (b + (test + choose)), d);
  }

  lemma {:induction false} ArgsClimb(env: CG.Env, e: Expr, k: nat, n: nat, d: nat)
    requires e.Call? && k <= |e.args| && CG.GenArgs(env, e, k, n).Ok?
    ensures Climb(CG.GenArgs(env, e, k, n).value.code, d) == Some(d)
    decreases e, 0, k
  {
    hide Climb, CG.GenExpr;
    if k == 0 {
      LevelClimb([], d);
    } else {
      ExprClimb(env, e.args[k - 1], n, d);
      var a := CG.GenExpr(env, e.args[k - 1], n).value;
      ArgsClimb(env, e, k - 1, a.next, d);
      var rest := CG.GenArgs(env, e, k - 1, a.next).value;
      LevelClimb(CG.PUSH_ARG, d);
      Both(CG.PUSH_ARG, rest.code, d);
      Both(a.code, CG.PUSH_ARG + rest.code, d);
    }
  }

  lemma {:induction false} CallClimb(env: CG.Env, e: Expr, n: nat, d: nat)
    requires e.Call? && CG.GenCall(env, e, n).Ok?
    ensures Climb(CG.GenCall(env, e, n).value.code, d) == Some(d)
    decreases e, 2
  {
    hide Climb, CG.GenExpr, CG.GenArgs;
    if e.f == "out" {
      ExprClimb(env, e.args[0], n, d);
      LevelClimb([Op(Out(0))], d);
      Both(CG.GenExpr(env, e.args[0], n).value.code, [Op(Out(0))], d);
    } else if e.f == "in" {
      LevelClimb([Op(In(0))], d);
    } else {
      ArgsClimb(env, e, |e.args|, n, d);
      var tail := [Op(Instr.Call(Named(e.f)))] + CG.DropArgs(|e.args|);
      LevelClimb(tail, d);
      Both(CG.GenArgs(env, e, |e.args|, n).value.code, tail, d);
    }
  }

  // ----- Statements -----

  lemma {:induction false} OptionalClimb(env: CG.Env, e: Option<Expr>, n: nat)
    requires CG.GenOptional(env, e, n).Ok?
    ensures Climb(CG.GenOptional(env, e, n).value.code, 0) == Some(0)
  {
    hide Climb, CG.GenExpr;
    if e.None? {
      LevelClimb([], 0);
    } else {
      ExprClimb(env, e.value, n, 0);
    }
  }

  lemma {:induction false} TestClimb(env: CG.Env, c: Option<Expr>, l: Label, n: nat)
    requires CG.GenTest(env, c, l, n).Ok?
    ensures Climb(CG.GenTest(env, c, l, n).value.code, 0) == Some(0)
  {
    hide Climb, CG.GenExpr;
    if c.None? {
      LevelClimb([], 0);
    } else {
      ExprClimb(env, c.value, n, 0);
      LevelClimb(CG.Test(l), 0);
      Both(CG.GenExpr(env, c.value, n).value.code, CG.Test(l), 0);
    }
  }

  lemma {:induction false} StmtClimb(env: CG.Env, s: Stmt, n: nat)
    requires CG.GenStmt(env, s, n).Ok?
    ensures Climb(CG.GenStmt(env, s, n).value.code, 0) == Some(0)
    decreases s, 2
  {
    hide Climb, CG.GenExpr, CG.GenLoop, CG.GenBlock, CG.GenTest, CG.GenOptional;
    match s
    case Block(_) => BlockClimb(env, s, 0, n);
    case VarDecl(x, _, init) =>
      if init.None? {
        LevelClimb([], 0);
      } else {
        ExprClimb(env, init.value, n, 0);
        var tail := [Op(Store(FP, SymFind(env.sym, x).value.off, 0))];
        LevelClimb(tail, 0);
        Both(CG.GenExpr(env, init.value, n).value.code, tail, 0);
      }
    case ExprStmt(e) => ExprClimb(env, e, n, 0);
    case Return(e) =>
      OptionalClimb(env, e, n);
      LevelClimb([Op(Jmp(env.epi))], 0);
      Both(CG.GenOptional(env, e, n).value.code, [Op(Jmp(env.epi))], 0);
    case If(c, t, f) =>
      if f.Some? {
        IfElseClimb(env, c, t, f.value, n);
      } else {
        TestClimb(env, Some(c), Local(n), n + 1);
        var r := CG.GenTest(env, Some(c), Local(n), n + 1).value;
        StmtClimb(env, t, r.next);
        var a := CG.GenStmt(env, t, r.next).value;
        LevelClimb([Lab(Local(n))], 0);
        Both(a.code, [Lab(Local(n))], 0);
        Both(r.code, a.code + [Lab(Local(n))], 0);
      }
    case While(c, b) => LoopClimb(env, Some(c), None, b, n);
    case For(pre, c, post, b) =>
      if pre.None? {
        LoopClimb(env, c, post, b, n);
      } else {
        StmtClimb(env, pre.value, n);
        var a := CG.GenStmt(env, pre.value, n).value;
        LoopClimb(env, c, post, b, a.next);
        Both(a.code, CG.GenLoop(env, c, post, b, a.next).value.code, 0);
      }
  }

  lemma {:induction false} IfElseClimb(env: CG.Env, c: Expr, t: Stmt, f: Stmt, n: nat)
    requires CG.GenStmt(env, If(c, t, Some(f)), n).Ok?
    ensures Climb(CG.GenStmt(env, If(c, t, Some(f)), n).value.code, 0) == Some(0)
    decreases If(c, t, Some(f)), 1
  {
    var r := CG.GenTest(env, Some(c), Local(n), n + 2).value;
    var a := CG.GenStmt(env, t, r.next).value;
    var b := CG.GenStmt(env, f, a.next).value;
    var mid, last := [Op(Jmp(Local(n + 1))), Lab(Local(n))], [Lab(Local(n + 1))];
    assert CG.GenStmt(env, If(c, t, Some(f)), n).value.code == r.code + (a.code + (mid + (b.code + last)));
    hide CG.GenStmt, CG.GenTest, Climb;
    TestClimb(env, Some(c), Local(n), n + 2);
    StmtClimb(env, t, r.next);
    StmtClimb(env, f, a.next);
    LevelClimb(mid, 0);
    LevelClimb(last, 0);
    Both(b.code, last, 0);
    Both(mid, b.code + last, 0);
    Both(a.code, mid + (b.code + last), 0);
    Both(r.code, a.code + (mid + (b.code + last)), 0);
  }

  lemma {:induction false} BlockClimb(env: CG.Env, s: Stmt, k: nat, n: nat)
    requires s.Block? && k <= |s.ss| && CG.GenBlock(env, s, k, n).Ok?
    ensures Climb(CG.GenBlock(env, s, k, n).value.code, 0) == Some(0)
    decreases s, 0, |s.ss| - k
  {
    hide Climb, CG.GenStmt;
    if k == |s.ss| {
      LevelClimb([], 0);
    } else {
      StmtClimb(env, s.ss[k], n);
      var a := CG.GenStmt(env, s.ss[k], n).value;
      BlockClimb(env, s, k + 1, a.next);
      Both(a.code, CG.GenBlock(env, s, k + 1, a.next).value.code, 0);
    }
  }

  lemma {:induction false} LoopClimb(env: CG.Env, c: Option<Expr>, post: Option<Expr>, body: Stmt, n: nat)
    requires CG.GenLoop(env, c, post, body, n).Ok?
    ensures Climb(CG.GenLoop(env, c, post, body, n).value.code, 0) == Some(0)
    decreases body, 3
  {
    hide Climb, CG.GenStmt, CG.GenTest, CG.GenOptional;
    TestClimb(env, c, Local(n + 1), n + 2);
    var test := CG.GenTest(env, c, Local(n + 1), n + 2).value;
    StmtClimb(env, body, test.next);
    var b := CG.GenStmt(env, body, test.next).value;
    OptionalClimb(env, post, b.next);
    var step := CG.GenOptional(env, post, b.next).value;
    var head, tail := [Lab(Local(n))], [Op(Jmp(Local(n))), Lab(Local(n + 1))];
    LevelClimb(head, 0);
    LevelClimb(tail, 0);
    Both(step.code, tail, 0);
    Both(b.code, step.code + tail, 0);
    Both(test.code, b.code + (step.code + tail), 0);
    Both(head, test.code + (b.code + (step.code + tail)), 0);
  }

  // ----- Programs -----

  /** A stretch without pushes and pops. */
  lemma {:induction false} StillClimb(code: seq<Line>)
    requires forall i :: 0 <= i < |code| ==> !IsPush(code[i]) && !IsPop(code[i])
    ensures Climb(code, 0) == Some(0)
  {
    if code != [] {
      StillClimb(code[1..]);
    }
  }

  lemma FunctionClimb(p: Program, f: Func, n: nat)
    requires CG.GenFunction(p, f, n).Ok?
    ensures Climb(CG.GenFunction(p, f, n).value.code, 0) == Some(0)
  {
    var env := CG.EnvOf(p, f);
    var body := CG.GenStmt(env, f.body, n).value.code;
    var head, pro, foot := [Lab(Named(f.name))], CG.Prologue(TableOf(f).bytes), [Lab(env.epi)] + CG.EPILOGUE;
    assert CG.GenFunction(p, f, n).value.code == head + (pro + (body + foot));
    StillClimb(head);
    StillClimb(pro);
    StillClimb(foot);
    hide Climb, CG.GenStmt, CG.GenFunction, CG.Prologue, TableOf;
    StmtClimb(env, f.body, n);
    Both(body, foot, 0);
    Both(pro, body + foot, 0);
    Both(head, pro + (body + foot), 0);
  }

  lemma {:induction false} FunctionsClimb(p: Program, k: nat, n: nat)
    requires k <= |p.funcs| && CG.GenFunctions(p, k, n).Ok?
    ensures Climb(CG.GenFunctions(p, k, n).value.code, 0) == Some(0)
    decreases |p.funcs| - k
  {
    hide Climb, CG.GenFunction;
    if k == |p.funcs| {
      StillClimb([]);
    } else {
      var a := CG.GenFunction(p, p.funcs[k], n).value;
      FunctionClimb(p, p.funcs[k], n);
      FunctionsClimb(p, k + 1, a.next);
      Both(a.code, CG.GenFunctions(p, k + 1, a.next).value.code, 0);
    }
  }

  // ----- Lines that no rewrite touches -----

  predicate Solid(l: Line) { !l.Op? || (!l.i.Mov? && !l.i.Push? && !l.i.Pop? && !l.i.Load?) }

  function Solids(code: seq<Line>): seq<Line> {
    if code == [] then [] else (if Solid(code[0]) then [code[0]] else []) + Solids(code[1..])
  }

  lemma {:induction false} SolidsCat(a: seq<Line>, b: seq<Line>)
    ensures Solids(a + b) == Solids(a) + Solids(b)
  {
    if a == [] {
      assert a + b == b;
    } else {
      assert (a + b)[0] == a[0] && (a + b)[1..] == a[1..] + b;
      SolidsCat(a[1..], b);
    }
  }

  lemma OneSolid(l: Line)
    ensures Solids([l]) == if Solid(l) then [l] else []
  {
    assert [l][1..] == [];
  }

  /** A rewrite changes neither what the solid lines are nor the nesting. */
  lemma EmitKeeps(out: seq<Line>, cur: Line, rest: seq<Line>)
    requires Climb(out + ([cur] + rest), 0).Some?
    ensures Climb(PH.Emit(out, cur) + rest, 0) == Climb(out + ([cur] + rest), 0)
    ensures Solids(PH.Emit(out, cur) + rest) == Solids(out + ([cur] + rest))
  {
    var after := PH.Emit(out, cur);
    assert out + ([cur] + rest) == (out + [cur]) + rest;
    ClimbCat(out + [cur], rest, 0);
    EmitClimb(out, cur);
    EmitSolids(out, cur);
    ClimbCat(after, rest, 0);
    SolidsCat(out + [cur], rest);
    SolidsCat(after, rest);
  }

  lemma EmitClimb(out: seq<Line>, cur: Line)
    requires Climb(out + [cur], 0).Some?
    ensures Climb(PH.Emit(out, cur), 0) == Climb(out + [cur], 0)
  {
    ClimbCat(out, [cur], 0);
    OneClimb(cur, Climb(out, 0).value);
    if out != [] {
      var init, last := out[..|out| - 1], out[|out| - 1];
      assert out == init + [last];
      ClimbCat(init, [last], 0);
      OneClimb(last, Climb(init, 0).value);
      if RW.PushPop(last, cur) && last.i.rd != cur.i.rd {
        ClimbCat(init, [Op(Mov(cur.i.rd, last.i.rd))], 0);
        OneClimb(Op(Mov(cur.i.rd, last.i.rd)), Climb(init, 0).value);
      }
      assert init + [] == init;
    }
  }

  lemma OneClimb(l: Line, d: nat)
    ensures Climb([l], d) == if IsPush(l) then Some(d + 1) else if IsPop(l) then (if d == 0 then None else Some(d - 1))
                             else if NamedLabel(l) && d > 0 then None else Some(d)
  {
    assert [l][1..] == [];
    assert forall e: nat :: Climb([], e) == Some(e);
  }

  lemma EmitSolids(out: seq<Line>, cur: Line)
    ensures Solids(PH.Emit(out, cur)) == Solids(out + [cur])
  {
    hide Solids;
    SolidsCat(out, [cur]);
    OneSolid(cur);
    if out != [] {
      var init, last := out[..|out| - 1], out[|out| - 1];
      assert out == init + [last];
      SolidsCat(init, [last]);
      OneSolid(last);
      if RW.PushPop(last, cur) && last.i.rd != cur.i.rd {
        SolidsCat(init, [Op(Mov(cur.i.rd, last.i.rd))]);
        OneSolid(Op(Mov(cur.i.rd, last.i.rd)));
      }
      assert init + [] == init;
    }
  }

  // ----- Labels that look like pushes and pops -----

  predicate PushLabel(l: Line) { NamedLabel(l) && "PUSH" <= l.l.text }

  predicate PopLabel(l: Line) { NamedLabel(l) && "POP" <= l.l.text }

  /** A push and a pop, at least one of them only by its spelling. */
  predicate Tempting(a: Line, b: Line) {
    (IsPush(a) || PushLabel(a)) && (IsPop(b) || PopLabel(b)) && (a.Lab? || b.Lab?)
  }

  ghost predicate Calm(ls: seq<Line>) { forall i, j :: 0 <= i < j < |ls| && j == i + 1 ==> !(PushLabel(ls[i]) && PopLabel(ls[j])) }

  ghost predicate Quiet(code: seq<Line>) { Climb(code, 0).Some? && Calm(Solids(code)) }

  lemma NotTempted(out: seq<Line>, cur: Line, rest: seq<Line>)
    requires Quiet(out + ([cur] + rest)) && out != []
    ensures !Tempting(out[|out| - 1], cur)
  {
    var init, last := out[..|out| - 1], out[|out| - 1];
    assert out + ([cur] + rest) == init + ([last] + ([cur] + rest));
    ClimbCat(init, [last] + ([cur] + rest), 0);
    var d := Climb(init, 0).value;
    ClimbCat([last], [cur] + rest, d);
    OneClimb(last, d);
    ClimbCat([cur], rest, Climb([last], d).value);
    OneClimb(cur, Climb([last], d).value);
    if PushLabel(last) && PopLabel(cur) {
      SolidNeighbours(init, last, cur, rest);
    }
  }

  lemma SolidNeighbours(init: seq<Line>, a: Line, b: Line, rest: seq<Line>)
    requires Solid(a) && Solid(b)
    ensures var s, k := Solids(init + ([a] + ([b] + rest))), |Solids(init)|; k + 1 < |s| && s[k] == a && s[k + 1] == b
  {
    SolidsCat(init, [a] + ([b] + rest));
    SolidsCat([a], [b] + rest);
    SolidsCat([b], rest);
    OneSolid(a);
    OneSolid(b);
  }

  lemma EmitQuiet(out: seq<Line>, cur: Line, rest: seq<Line>)
    requires Quiet(out + ([cur] + rest))
    ensures Quiet(PH.Emit(out, cur) + rest)
  {
    hide Calm;
    EmitKeeps(out, cur, rest);
  }

  // ----- Which programs are quiet -----

  /** No empty array whose name begins with PUSH stands directly in front of a global whose name begins with POP. */
  predicate SafeGlobals(gs: seq<Global>) {
    |gs| < 2 || (!(gs[0].size == Some(0) && "PUSH" <= gs[0].name && "POP" <= gs[1].name) && SafeGlobals(gs[1..]))
  }

  /** Every named label has another line right behind it. */
  ghost predicate Apart(ls: seq<Line>) {
    forall i :: 0 <= i < |ls| && NamedLabel(ls[i]) ==> i + 1 < |ls| && !NamedLabel(ls[i + 1])
  }

  lemma ApartCat(a: seq<Line>, b: seq<Line>)
    requires Apart(a) && Apart(b)
    ensures Apart(a + b)
  {
  }

  lemma ApartThenCalm(a: seq<Line>, b: seq<Line>)
    requires Apart(a) && Calm(b)
    ensures Calm(a + b)
  {
    forall i, j | 0 <= i < j < |a + b| && j == i + 1 ensures !(PushLabel((a + b)[i]) && PopLabel((a + b)[j])) {
      if i < |a| {
        assert (a + b)[i] == a[i];
      }
    }
  }

  lemma {:induction false} SolidsFrom(code: seq<Line>)
    ensures forall x :: x in Solids(code) ==> x in code
  {
    if code != [] {
      SolidsFrom(code[1..]);
    }
  }

  lemma BodyApart(env: CG.Env, s: Stmt, n: nat)
    requires CG.GenStmt(env, s, n).Ok?
    ensures Apart(Solids(CG.GenStmt(env, s, n).value.code))
  {
    var code := CG.GenStmt(env, s, n).value.code;
    StmtFresh(env, s, n);
    SolidsFrom(code);
    hide CG.GenStmt, Solids;
    forall i | 0 <= i < |Solids(code)| ensures !NamedLabel(Solids(code)[i]) {
      var x := Solids(code)[i];
      assert x in code;
      var j :| 0 <= j < |code| && code[j] == x;
      if x.Lab? {
        LabelIn(code, j);
      }
    }
  }

  lemma PrologueApart(bytes: nat, l: Label)
    ensures Apart(Solids([Lab(l)] + CG.Prologue(bytes)))
  {
    var a, b := [Lab(l), Op(LoadI(1, 4)), Op(Alu(SUB, SP, 1)), Op(Store(SP, 0, FP))], [Op(Mov(FP, SP))] + CG.Reserve(bytes);
    assert [Lab(l)] + CG.Prologue(bytes) == a + b;
    AllSolid(a);
    NothingNamed(b);
    hide Solids, CG.Prologue, CG.Reserve;
    SolidsCat(a, b);
    assert Apart(a);
    hide Apart;
    ApartCat(a, Solids(b));
  }

  lemma EpilogueSolids()
    ensures Solids(CG.EPILOGUE) == [Op(LoadI(1, 4)), Op(Alu(ADD, SP, 1)), Op(Ret)]
  {
    var e := [Op(Mov(SP, FP)), Op(Load(FP, SP, 0))];
    var f := [Op(LoadI(1, 4)), Op(Alu(ADD, SP, 1)), Op(Ret)];
    NoneSolid(e);
    AllSolid(f);
    hide Solids;
    SolidsCat(e, f);
    assert CG.EPILOGUE == e + f;
  }

  lemma EpilogueApart(l: Label)
    ensures Apart(Solids([Lab(l)] + CG.EPILOGUE))
  {
    hide Solids;
    EpilogueSolids();
    OneSolid(Lab(l));
    SolidsCat([Lab(l)], CG.EPILOGUE);
  }

  lemma {:induction false} AllSolid(code: seq<Line>)
    requires forall i :: 0 <= i < |code| ==> Solid(code[i])
    ensures Solids(code) == code
  {
    if code != [] {
      AllSolid(code[1..]);
    }
  }

  lemma {:induction false} NoneSolid(code: seq<Line>)
    requires forall i :: 0 <= i < |code| ==> !Solid(code[i])
    ensures Solids(code) == []
  {
    if code != [] {
      NoneSolid(code[1..]);
    }
  }

  lemma NothingNamed(code: seq<Line>)
    requires forall i :: 0 <= i < |code| ==> !NamedLabel(code[i])
    ensures Apart(Solids(code))
  {
    SolidsFrom(code);
    hide Solids;
    forall i | 0 <= i < |Solids(code)| ensures !NamedLabel(Solids(code)[i]) {
      assert Solids(code)[i] in code;
    }
  }

  lemma FunctionApart(p: Program, f: Func, n: nat)
    requires CG.GenFunction(p, f, n).Ok?
    ensures Apart(Solids(CG.GenFunction(p, f, n).value.code))
  {
    var env := CG.EnvOf(p, f);
    var body := CG.GenStmt(env, f.body, n).value.code;
    var top, foot := [Lab(Named(f.name))] + CG.Prologue(TableOf(f).bytes), [Lab(env.epi)] + CG.EPILOGUE;
    assert CG.GenFunction(p, f, n).value.code == top + (body + foot);
    PrologueApart(TableOf(f).bytes, Named(f.name));
    EpilogueApart(env.epi);
    hide Apart, Solids, CG.GenStmt, CG.GenFunction, CG.Prologue, TableOf;
    BodyApart(env, f.body, n);
    SolidsCat(body, foot);
    SolidsCat(top, body + foot);
    ApartCat(Solids(body), Solids(foot));
    ApartCat(Solids(top), Solids(body + foot));
  }

  lemma {:induction false} FunctionsApart(p: Program, k: nat, n: nat)
    requires k <= |p.funcs| && CG.GenFunctions(p, k, n).Ok?
    ensures Apart(Solids(CG.GenFunctions(p, k, n).value.code))
    decreases |p.funcs| - k
  {
    hide Apart, CG.GenFunction;
    if k == |p.funcs| {
      NothingNamed([]);
    } else {
      var a := CG.GenFunction(p, p.funcs[k], n).value;
      FunctionApart(p, p.funcs[k], n);
      FunctionsApart(p, k + 1, a.next);
      var rest := CG.GenFunctions(p, k + 1, a.next).value;
      SolidsCat(a.code, rest.code);
      ApartCat(Solids(a.code), Solids(rest.code));
    }
  }

  lemma GlobalShape(g: Global)
    requires CG.GenGlobal(g).Ok?
    ensures var c := CG.GenGlobal(g).value;
            c != [] && c[0] == Lab(Named(g.name)) && (g.size == Some(0) <==> |c| == 1)
            && forall i :: 1 <= i < |c| ==> c[i].Data?
  {
    if g.size.Some? {
      ZerosPlain(g.size.value);
    }
  }

  lemma GlobalsStart(gs: seq<Global>)
    requires gs != [] && CG.GenGlobals(gs).Ok?
    ensures CG.GenGlobals(gs).value != [] && CG.GenGlobals(gs).value[0] == Lab(Named(gs[0].name))
  {
    GlobalShape(gs[0]);
    hide CG.GenGlobal;
  }

  lemma {:induction false} GlobalsCalm(gs: seq<Global>)
    requires CG.GenGlobals(gs).Ok? && SafeGlobals(gs)
    ensures Calm(CG.GenGlobals(gs).value) && forall i :: 0 <= i < |CG.GenGlobals(gs).value| ==> !CG.GenGlobals(gs).value[i].Op?
  {
    if gs != [] {
      GlobalShape(gs[0]);
      GlobalsCalm(gs[1..]);
      var a, rest := CG.GenGlobal(gs[0]).value, CG.GenGlobals(gs[1..]).value;
      if gs[1..] != [] {
        GlobalsStart(gs[1..]);
      }
      hide CG.GenGlobal;
      JoinCalm(a, rest);
    }
  }

  lemma JoinCalm(a: seq<Line>, rest: seq<Line>)
    requires a != [] && (forall i :: 1 <= i < |a| ==> a[i].Data?) && Calm(rest)
    requires |a| == 1 && rest != [] ==> !(PushLabel(a[0]) && PopLabel(rest[0]))
    ensures Calm(a + rest)
  {
    forall i, j | 0 <= i < j < |a + rest| && j == i + 1 ensures !(PushLabel((a + rest)[i]) && PopLabel((a + rest)[j])) {
      if i >= |a| {
        assert (a + rest)[i] == rest[i - |a|] && (a + rest)[j] == rest[j - |a|];
      }
    }
  }

  lemma CodeIsApart(prog: Program)
    requires CG.GenFunctions(prog, 0, 0).Ok?
    ensures Apart(Solids(CG.ENTRY + CG.GenFunctions(prog, 0, 0).value.code))
    ensures Climb(CG.ENTRY + CG.GenFunctions(prog, 0, 0).value.code, 0) == Some(0)
  {
    var funcs := CG.GenFunctions(prog, 0, 0).value.code;
    NothingNamed(CG.ENTRY);
    StillClimb(CG.ENTRY);
    hide Solids, Climb, CG.GenFunctions, Apart;
    FunctionsApart(prog, 0, 0);
    FunctionsClimb(prog, 0, 0);
    SolidsCat(CG.ENTRY, funcs);
    ApartCat(Solids(CG.ENTRY), Solids(funcs));
    Both(CG.ENTRY, funcs, 0);
  }

  lemma CodeIsQuiet(prog: Program)
    requires CG.GenFunctions(prog, 0, 0).Ok?
    ensures Quiet(CG.ENTRY + CG.GenFunctions(prog, 0, 0).value.code)
  {
    CodeIsApart(prog);
    hide Solids, Climb, CG.GenFunctions;
    var s := Solids(CG.ENTRY + CG.GenFunctions(prog, 0, 0).value.code);
    ApartThenCalm(s, []);
    assert s + [] == s;
  }

  /** Generated programs are quiet if their globals are safe. */
  lemma GeneratedIsQuiet(prog: Program)
    requires CG.Generate(prog).Ok? && SafeGlobals(prog.globals)
    ensures Quiet(CG.Generate(prog).value)
  {
    var code := CG.ENTRY + CG.GenFunctions(prog, 0, 0).value.code;
    var data := CG.GenGlobals(prog.globals).value;
    assert CG.Generate(prog).value == code + data;
    GlobalsCalm(prog.globals);
    AllSolid(data);
    StillClimb(data);
    CodeIsApart(prog);
    hide Solids, CG.Generate, CG.GenFunctions, CG.GenGlobals, Calm, Apart, Climb;
    SolidsCat(code, data);
    ApartThenCalm(Solids(code), data);
    Both(code, data, 0);
  }
}
