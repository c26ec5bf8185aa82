/** Generated code refers to no label but those it defines. */
module Closure {
  import opened Wrappers
  import opened Machine
  import opened CAst
  import opened CodeShape
  import opened Hardware
  import CG = CodeGen
  import PH = Peephole

  /** Every label an instruction names is known or defined in the code. */
  ghost predicate Bound(code: seq<Line>, known: set<Label>) {
    forall i :: 0 <= i < |code| && code[i].Op? && Target(code[i].i).Some? ==>
      Target(code[i].i).value in known || Lab(Target(code[i].i).value) in code
  }

  lemma Cat(a: seq<Line>, b: seq<Line>, known: set<Label>)
    requires Bound(a, known) && Bound(b, known)
    ensures Bound(a + b, known)
  {
  }

  lemma Cat3(a: seq<Line>, b: seq<Line>, c: seq<Line>, known: set<Label>)
    requires Bound(a, known) && Bound(b, known) && Bound(c, known)
    ensures Bound(a + (b + c), known)
  {
    Cat(b, c, known);
    hide Bound;
    Cat(a, b + c, known);
  }

  lemma Wider(code: seq<Line>, known: set<Label>, more: set<Label>)
    requires Bound(code, known) && known <= more
    ensures Bound(code, more)
  {
  }

  /** A label that the code defines need not be known. */
  lemma Discharge(code: seq<Line>, known: set<Label>, l: Label)
    requires Bound(code, known + {l}) && Lab(l) in code
    ensures Bound(code, known)
  {
  }

  /** The labels a program's names stand for. */
  function NamedOf(names: seq<string>): set<Label> { set x | x in names :: Named(x) }

  function Known(env: CG.Env): set<Label> { NamedOf(Names(env.prog)) + {env.epi} }

  lemma {:induction false} FuncKnown(fs: seq<Func>, f: string)
    requires FuncFind(fs, f).Some?
    ensures f in FuncNames(fs)
  {
    if fs[0].name != f {
      FuncKnown(fs[1..], f);
    }
  }

  lemma {:induction false} GlobKnown(gs: seq<Global>, x: string)
    requires GlobFind(gs, x).Some?
    ensures x in GlobNames(gs)
  {
    if gs[0].name != x {
      GlobKnown(gs[1..], x);
    }
  }

  lemma CallKnown(env: CG.Env, f: string)
    requires FuncFind(env.prog.funcs, f).Some?
    ensures Named(f) in Known(env)
  {
    FuncKnown(env.prog.funcs, f);
  }

  lemma StaticKnown(env: CG.Env, x: string)
    requires CG.PlaceOf(env, x).Static?
    ensures Named(x) in Known(env)
  {
    GlobKnown(env.prog.globals, x);
  }

  // ----- Expressions -----

  lemma NegateBound(op: UnOp, n: nat, known: set<Label>)
    ensures Bound(CG.Negate(op, n), known)
  {
    var code := CG.Negate(op, n);
    if op != Neg && op != Compl {
      assert code[4] == Lab(Local(n));
    }
  }

  lemma CompareBound(op: BinOp, n: nat, known: set<Label>)
    requires CG.IsComparison(op)
    ensures Bound(CG.Compare(op, n), known)
  {
    var all := known + {Local(n), Local(n + 1)};
    var code := CG.Compare(op, n);
    assert Bound(CG.SUBTRACT, all) && Bound(CG.CompareJumps(op, Local(n)), all) && Bound(CG.Verdict(n), all);
    Cat3(CG.SUBTRACT, CG.CompareJumps(op, Local(n)), CG.Verdict(n), all);
    assert CG.Verdict(n)[1] == Lab(Local(n)) && CG.Verdict(n)[3] == Lab(Local(n + 1));
    assert Lab(Local(n)) in CG.Verdict(n) && Lab(Local(n + 1)) in CG.Verdict(n);
    assert Lab(Local(n)) in code && Lab(Local(n + 1)) in code;
    hide Bound, CG.Compare;
    assert all == known + {Local(n)} + {Local(n + 1)};
    Discharge(code, known + {Local(n)}, Local(n + 1));
    Discharge(code, known, Local(n));
  }

  lemma {:induction false} ExprBound(env: CG.Env, e: Expr, n: nat)
    requires CG.GenExpr(env, e, n).Ok?
    ensures Bound(CG.GenExpr(env, e, n).value.code, Known(env))
    decreases e, 3
  {
    hide Bound, CG.GenBinary, CG.GenCall, CG.GenAssign, CG.GenAddr, CG.Negate, Known;
    match e
    case Int(v) => Plain([Op(LoadI(0, v))], Known(env));
    case Var(x) =>
      if CG.PlaceOf(env, x).isArray {
        AddrBound(env, e, n);
      } else {
        VarBound(env, e, n);
      }
    case Index(_, _) => DerefBound(env, e, n);
    case Assign(_, _) => AssignBound(env, e, n);
    case Unary(op, a) =>
      if op == Amp {
        AddrBound(env, a, n);
      } else if op == Star {
        DerefBound(env, e, n);
      } else {
        ExprBound(env, a, n);
        var r := CG.GenExpr(env, a, n).value;
        NegateBound(op, r.next, Known(env));
        Cat(r.code, CG.Negate(op, r.next), Known(env));
      }
    case Binary(_, _, _) => BinaryBound(env, e, n);
    case Call(_, _) => CallBound(env, e, n);
  }

  lemma Plain(code: seq<Line>, known: set<Label>)
    requires forall i :: 0 <= i < |code| && code[i].Op? ==> Target(code[i].i).None?
    ensures Bound(code, known)
  {
  }

  lemma VarBound(env: CG.Env, e: Expr, n: nat)
    requires e.Var? && CG.GenExpr(env, e, n).Ok? && !CG.PlaceOf(env, e.x).isArray
    ensures Bound(CG.GenExpr(env, e, n).value.code, Known(env))
  {
    if CG.PlaceOf(env, e.x).Static? {
      StaticKnown(env, e.x);
      hide Known;
    }
  }

  lemma {:induction false} DerefBound(env: CG.Env, e: Expr, n: nat)
    requires CG.GenAddr(env, e, n).Ok?
    ensures Bound(CG.GenAddr(env, e, n).value.code + CG.FETCH, Known(env))
    decreases e, 2
  {
    hide Bound, CG.GenAddr, Known;
    AddrBound(env, e, n);
    Plain(CG.FETCH, Known(env));
    Cat(CG.GenAddr(env, e, n).value.code, CG.FETCH, Known(env));
  }

  lemma {:induction false} AddrBound(env: CG.Env, e: Expr, n: nat)
    requires CG.GenAddr(env, e, n).Ok?
    ensures Bound(CG.GenAddr(env, e, n).value.code, Known(env))
    decreases e, 1
  {
    hide CG.GenExpr;
    match e
    case Var(x) =>
      if CG.PlaceOf(env, x).Static? {
        StaticKnown(env, x);
        hide Known;
      }
    case Index(b, i) =>
      hide Bound, Known;
      ExprBound(env, b, n);
      var cb := CG.GenExpr(env, b, n).value;
      ExprBound(env, i, cb.next);
      var ci := CG.GenExpr(env, i, cb.next).value;
      Plain(CG.INDEXED, Known(env));
      Plain(CG.PUSH0, Known(env));
      Cat(ci.code, CG.INDEXED, Known(env));
      Cat3(cb.code, CG.PUSH0, ci.code + CG.INDEXED, Known(env));
    case Unary(_, a) => ExprBound(env, a, n);
  }

  lemma StoreBound(env: CG.Env, x: string)
    requires CG.PlaceOf(env, x).Static?
    ensures Bound([Op(LoadA(1, x)), Op(Store(1, 0, 0))], Known(env))
  {
    StaticKnown(env, x);
    hide Known;
  }

  lemma {:induction false} AssignBound(env: CG.Env, e: Expr, n: nat)
    requires e.Assign? && CG.GenAssign(env, e, n).Ok?
    ensures Bound(CG.GenAssign(env, e, n).value.code, Known(env))
    decreases e, 2
  {
    hide Bound, CG.GenExpr, CG.GenAddr, Known;
    if e.lhs.Var? {
      ExprBound(env, e.rhs, n);
      var r := CG.GenExpr(env, e.rhs, n).value;
      if CG.PlaceOf(env, e.lhs.x).InFrame? {
        Plain([Op(Store(FP, CG.PlaceOf(env, e.lhs.x).off, 0))], Known(env));
        Cat(r.code, [Op(Store(FP, CG.PlaceOf(env, e.lhs.x).off, 0))], Known(env));
      } else {
        StoreBound(env, e.lhs.x);
        Cat(r.code, [Op(LoadA(1, e.lhs.x)), Op(Store(1, 0, 0))], Known(env));
      }
    } else {
      AddrBound(env, e.lhs, n);
      var a := CG.GenAddr(env, e.lhs, n).value;
      ExprBound(env, e.rhs, a.next);
      var r := CG.GenExpr(env, e.rhs, a.next).value;
      var tail := [Op(Pop(1)), Op(Store(1, 0, 0))];
      Plain(tail, Known(env));
      Plain(CG.PUSH0, Known(env));
      Cat(r.code, tail, Known(env));
      Cat3(a.code, CG.PUSH0, r.code + tail, Known(env));
    }
  }

  lemma {:induction false} BinaryBound(env: CG.Env, e: Expr, n: nat)
    requires e.Binary? && CG.GenBinary(env, e, n).Ok?
    ensures Bound(CG.GenBinary(env, e, n).value.code, Known(env))
    decreases e, 2
  {
    hide Bound, CG.GenExpr, CG.Compare, CG.Choose, Known;
    var start := if e.op == AndAnd || e.op == OrOr then n + 2 else n;
    ExprBound(env, e.l, start);
    var a := CG.GenExpr(env, e.l, start).value;
    ExprBound(env, e.r, a.next);
    var b := CG.GenExpr(env, e.r, a.next).value;
    if e.op == AndAnd {
      ShortCircuitBound(a.code, CG.Test(Local(n)), b.code, 1, n, 0, Known(env));
    } else if e.op == OrOr {
      ShortCircuitBound(a.code, CG.TestNot(Local(n)), b.code, 0, n, 1, Known(env));
    } else {
      Plain(CG.PUSH0, Known(env));
      var tail := if CG.IsComparison(e.op) then CG.Compare(e.op, b.next) else CG.Arithmetic(e.op);
      if CG.IsComparison(e.op) {
        CompareBound(e.op, b.next, Known(env));
      } else {
        Plain(CG.Arithmetic(e.op), Known(env));
      }
      Cat(b.code, tail, Known(env));
      Cat3(a.code, CG.PUSH0, b.code + tail, Known(env));
    }
  }

  lemma TestsBound(l: Label, known: set<Label>)
    requires l in known
    ensures Bound(CG.Test(l), known) && Bound(CG.TestNot(l), known)
  {
  }

  lemma ChooseBound(first: int, n: nat, second: int, known: set<Label>)
    ensures Bound(CG.Choose(first, n, second, n + 1), known) && Lab(Local(n)) in CG.Choose(first, n, second, n + 1)
  {
    var code := CG.Choose(first, n, second, n + 1);
    assert code[2] == Lab(Local(n)) && code[4] == Lab(Local(n + 1));
  }

  lemma ShortCircuitBound(a: seq<Line>, test: seq<Line>, b: seq<Line>, first: int, n: nat, second: int, known: set<Label>)
    requires Bound(a, known) && Bound(b, known) && test in {CG.Test(Local(n)), CG.TestNot(Local(n))}
    ensures Bound(a + (test + (b + (test + CG.Choose(first, n, second, n + 1)))), known)
  {
    var more, choose := known + {Local(n)}, CG.Choose(first, n, second, n + 1);
    TestsBound(Local(n), more);
    ChooseBound(first, n, second, more);
    Wider(a, known, more);
    Wider(b, known, more);
    var all := a + (test + (b + (test + choose)));
    assert Lab(Local(n)) in all;
    hide Bound, CG.Choose, CG.Test, CG.TestNot;
    Cat3(b, test, choose, more);
    Cat3(a, test, b + (test + choose), more);
    Discharge(all, known, Local(n));
  }

  lemma {:induction false} ArgsBound(env: CG.Env, e: Expr, k: nat, n: nat)
    requires e.Call? && k <= |e.args| && CG.GenArgs(env, e, k, n).Ok?
    ensures Bound(CG.GenArgs(env, e, k, n).value.code, Known(env))
    decreases e, 0, k
  {
    hide Bound, CG.GenExpr, Known;
    if k == 0 {
      Plain([], Known(env));
    } else {
      ExprBound(env, e.args[k - 1], n);
      var a := CG.GenExpr(env, e.args[k - 1], n).value;
      ArgsBound(env, e, k - 1, a.next);
      Plain(CG.PUSH_ARG, Known(env));
      Cat3(a.code, CG.PUSH_ARG, CG.GenArgs(env, e, k - 1, a.next).value.code, Known(env));
    }
  }

  lemma CallTailBound(env: CG.Env, f: string, n: nat)
    requires FuncFind(env.prog.funcs, f).Some?
    ensures Bound([Op(Instr.Call(Named(f)))] + CG.DropArgs(n), Known(env))
  {
    CallKnown(env, f);
    hide Known;
  }

  lemma {:induction false} CallBound(env: CG.Env, e: Expr, n: nat)
    requires e.Call? && CG.GenCall(env, e, n).Ok?
    ensures Bound(CG.GenCall(env, e, n).value.code, Known(env))
    decreases e, 2
  {
    hide Bound, CG.GenExpr, CG.GenArgs, Known;
    if e.f == "out" {
      ExprBound(env, e.args[0], n);
      Plain([Op(Out(0))], Known(env));
      Cat(CG.GenExpr(env, e.args[0], n).value.code, [Op(Out(0))], Known(env));
    } else if e.f == "in" {
      Plain([Op(In(0))], Known(env));
    } else {
      ArgsBound(env, e, |e.args|, n);
      CallTailBound(env, e.f, |e.args|);
      Cat(CG.GenArgs(env, e, |e.args|, n).value.code, [Op(Instr.Call(Named(e.f)))] + CG.DropArgs(|e.args|), Known(env));
    }
  }

  // ----- Statements -----

  lemma {:induction false} OptionalBound(env: CG.Env, e: Option<Expr>, n: nat)
    requires CG.GenOptional(env, e, n).Ok?
    ensures Bound(CG.GenOptional(env, e, n).value.code, Known(env))
  {
    hide Bound, CG.GenExpr, Known;
    if e.None? {
      Plain([], Known(env));
    } else {
      ExprBound(env, e.value, n);
    }
  }

  lemma {:induction false} TestBound(env: CG.Env, c: Option<Expr>, l: Label, n: nat)
    requires CG.GenTest(env, c, l, n).Ok?
    ensures Bound(CG.GenTest(env, c, l, n).value.code, Known(env) + {l})
  {
    hide Bound, CG.GenExpr, CG.Test, Known;
    var more := Known(env) + {l};
    if c.None? {
      Plain([], more);
    } else {
      ExprBound(env, c.value, n);
      var r := CG.GenExpr(env, c.value, n).value;
      Wider(r.code, Known(env), more);
      TestsBound(l, more);
      Cat(r.code, CG.Test(l), more);
    }
  }

  lemma ReturnBound(env: CG.Env)
    ensures Bound([Op(Jmp(env.epi))], Known(env))
  {
  }

  lemma {:induction false} StmtBound(env: CG.Env, s: Stmt, n: nat)
    requires CG.GenStmt(env, s, n).Ok?
    ensures Bound(CG.GenStmt(env, s, n).value.code, Known(env))
    decreases s, 2
  {
    hide Bound, CG.GenExpr, CG.GenLoop, CG.GenBlock, CG.GenTest, CG.GenOptional, Known;
    match s
    case Block(_) => BlockBound(env, s, 0, n);
    case VarDecl(x, _, init) =>
      if init.None? {
        Plain([], Known(env));
      } else {
        ExprBound(env, init.value, n);
        var tail := [Op(Store(FP, SymFind(env.sym, x).value.off, 0))];
        Plain(tail, Known(env));
        Cat(CG.GenExpr(env, init.value, n).value.code, tail, Known(env));
      }
    case ExprStmt(e) => ExprBound(env, e, n);
    case Return(e) =>
      OptionalBound(env, e, n);
      ReturnBound(env);
      Cat(CG.GenOptional(env, e, n).value.code, [Op(Jmp(env.epi))], Known(env));
    case If(c, t, f) =>
      if f.Some? {
        IfElseBound(env, c, t, f.value, n);
      } else {
        TestBound(env, Some(c), Local(n), n + 1);
        var r := CG.GenTest(env, Some(c), Local(n), n + 1).value;
        StmtBound(env, t, r.next);
        IfBound(r.code, CG.GenStmt(env, t, r.next).value.code, n, Known(env));
      }
    case While(c, b) => LoopBound(env, Some(c), None, b, n);
    case For(pre, c, post, b) =>
      if pre.None? {
        LoopBound(env, c, post, b, n);
      } else {
        StmtBound(env, pre.value, n);
        var a := CG.GenStmt(env, pre.value, n).value;
        LoopBound(env, c, post, b, a.next);
        Cat(a.code, CG.GenLoop(env, c, post, b, a.next).value.code, Known(env));
      }
  }

  lemma IfBound(r: seq<Line>, a: seq<Line>, n: nat, known: set<Label>)
    requires Bound(r, known + {Local(n)}) && Bound(a, known)
    ensures Bound(r + (a + [Lab(Local(n))]), known)
  {
    var more, all := known + {Local(n)}, r + (a + [Lab(Local(n))]);
    Wider(a, known, more);
    Plain([Lab(Local(n))], more);
    assert Lab(Local(n)) in all;
    hide Bound;
    Cat3(r, a, [Lab(Local(n))], more);
    Discharge(all, known, Local(n));
  }

  lemma {:induction false} IfElseBound(env: CG.Env, c: Expr, t: Stmt, f: Stmt, n: nat)
    requires CG.GenStmt(env, If(c, t, Some(f)), n).Ok?
    ensures Bound(CG.GenStmt(env, If(c, t, Some(f)), n).value.code, Known(env))
    decreases If(c, t, Some(f)), 1
  {
    var r := CG.GenTest(env, Some(c), Local(n), n + 2).value;
    var a := CG.GenStmt(env, t, r.next).value;
    var b := CG.GenStmt(env, f, a.next).value;
    assert CG.GenStmt(env, If(c, t, Some(f)), n).value.code
        == r.code + (a.code + ([Op(Jmp(Local(n + 1))), Lab(Local(n))] + (b.code + [Lab(Local(n + 1))])));
    hide CG.GenStmt, CG.GenTest, Bound, Known;
    TestBound(env, Some(c), Local(n), n + 2);
    StmtBound(env, t, r.next);
    StmtBound(env, f, a.next);
    ElseBound(r.code, a.code, b.code, n, Known(env));
  }

  lemma ElseBound(r: seq<Line>, a: seq<Line>, b: seq<Line>, n: nat, known: set<Label>)
    requires Bound(r, known + {Local(n)}) && Bound(a, known) && Bound(b, known)
    ensures Bound(r + (a + ([Op(Jmp(Local(n + 1))), Lab(Local(n))] + (b + [Lab(Local(n + 1))]))), known)
  {
    var more := known + {Local(n)} + {Local(n + 1)};
    var mid, last := [Op(Jmp(Local(n + 1))), Lab(Local(n))], [Lab(Local(n + 1))];
    var all := r + (a + (mid + (b + last)));
    assert Bound(mid, more) && Bound(last, more);
    assert mid[1] == Lab(Local(n));
    assert Lab(Local(n)) in mid && Lab(Local(n)) in all && Lab(Local(n + 1)) in all;
    hide Bound;
    Wider(r, known + {Local(n)}, more);
    Wider(a, known, more);
    Wider(b, known, more);
    Cat3(mid, b, last, more);
    Cat3(r, a, mid + (b + last), more);
    Discharge(all, known + {Local(n)}, Local(n + 1));
    Discharge(all, known, Local(n));
  }

  lemma {:induction false} BlockBound(env: CG.Env, s: Stmt, k: nat, n: nat)
    requires s.Block? && k <= |s.ss| && CG.GenBlock(env, s, k, n).Ok?
    ensures Bound(CG.GenBlock(env, s, k, n).value.code, Known(env))
    decreases s, 0, |s.ss| - k
  {
    hide Bound, CG.GenStmt, Known;
    if k == |s.ss| {
      Plain([], Known(env));
    } else {
      StmtBound(env, s.ss[k], n);
      var a := CG.GenStmt(env, s.ss[k], n).value;
      BlockBound(env, s, k + 1, a.next);
      Cat(a.code, CG.GenBlock(env, s, k + 1, a.next).value.code, Known(env));
    }
  }

  lemma {:induction false} LoopBound(env: CG.Env, c: Option<Expr>, post: Option<Expr>, body: Stmt, n: nat)
    requires CG.GenLoop(env, c, post, body, n).Ok?
    ensures Bound(CG.GenLoop(env, c, post, body, n).value.code, Known(env))
    decreases body, 3
  {
    hide Bound, CG.GenStmt, CG.GenTest, CG.GenOptional, Known;
    TestBound(env, c, Local(n + 1), n + 2);
    var test := CG.GenTest(env, c, Local(n + 1), n + 2).value;
    StmtBound(env, body, test.next);
    var b := CG.GenStmt(env, body, test.next).value;
    OptionalBound(env, post, b.next);
    LoopPartsBound(test.code, b.code, CG.GenOptional(env, post, b.next).value.code, n, Known(env));
  }

  lemma LoopPartsBound(t: seq<Line>, b: seq<Line>, s: seq<Line>, n: nat, known: set<Label>)
    requires Bound(t, known + {Local(n + 1)}) && Bound(b, known) && Bound(s, known)
    ensures Bound([Lab(Local(n))] + (t + (b + (s + [Op(Jmp(Local(n))), Lab(Local(n + 1))]))), known)
  {
    var more := known + {Local(n + 1)} + {Local(n)};
    var head, tail := [Lab(Local(n))], [Op(Jmp(Local(n))), Lab(Local(n + 1))];
    var all := head + (t + (b + (s + tail)));
    assert Bound(head, more) && Bound(tail, more);
    assert tail[1] == Lab(Local(n + 1));
    assert Lab(Local(n + 1)) in tail && Lab(Local(n + 1)) in all && Lab(Local(n)) in all;
    hide Bound;
    Wider(t, known + {Local(n + 1)}, more);
    Wider(b, known, more);
    Wider(s, known, more);
    Cat3(b, s, tail, more);
    Cat3(head, t, b + (s + tail), more);
    Discharge(all, known + {Local(n + 1)}, Local(n));
    Discharge(all, known, Local(n + 1));
  }

  // ----- Programs -----

  ghost predicate Defines(code: seq<Line>, names: seq<string>) { forall x :: x in names ==> Lab(Named(x)) in code }

  lemma ShellBound(code: seq<Line>, known: set<Label>)
    requires forall i :: 0 <= i < |code| ==> !code[i].Op? || Target(code[i].i).None?
    ensures Bound(code, known)
  {
  }

  lemma FunctionBound(p: Program, f: Func, n: nat)
    requires CG.GenFunction(p, f, n).Ok?
    ensures Bound(CG.GenFunction(p, f, n).value.code, NamedOf(Names(p)))
    ensures Defines(CG.GenFunction(p, f, n).value.code, [f.name, f.name + "_epi"])
  {
    var env := CG.EnvOf(p, f);
    var body := CG.GenStmt(env, f.body, n).value.code;
    var head, pro, foot := [Lab(Named(f.name))], CG.Prologue(TableOf(f).bytes), [Lab(env.epi)] + CG.EPILOGUE;
    var all := head + (pro + (body + foot));
    assert CG.GenFunction(p, f, n).value.code == all;
    assert foot[0] == Lab(env.epi);
    assert Lab(env.epi) in foot && Lab(env.epi) in all && Lab(Named(f.name)) in all;
    ShellBound(head, Known(env));
    ShellBound(pro, Known(env));
    ShellBound(foot, Known(env));
    hide Bound, CG.GenStmt, CG.GenFunction, CG.Prologue, TableOf;
    StmtBound(env, f.body, n);
    Cat3(pro, body, foot, Known(env));
    Cat(head, pro + (body + foot), Known(env));
    Discharge(all, NamedOf(Names(p)), env.epi);
  }

  lemma DefinesBoth(a: seq<Line>, b: seq<Line>, na: seq<string>, nb: seq<string>)
    requires Defines(a, na) && Defines(b, nb)
    ensures Defines(a + b, na + nb)
  {
  }

  lemma {:induction false} FunctionsBound(p: Program, k: nat, n: nat)
    requires k <= |p.funcs| && CG.GenFunctions(p, k, n).Ok?
    ensures Bound(CG.GenFunctions(p, k, n).value.code, NamedOf(Names(p)))
    ensures Defines(CG.GenFunctions(p, k, n).value.code, FuncNames(p.funcs[k..]))
    decreases |p.funcs| - k
  {
    hide Bound, CG.GenFunction, Names, Defines;
    if k == |p.funcs| {
      Plain([], NamedOf(Names(p)));
      DefinesNothing();
    } else {
      var f := p.funcs[k];
      var a := CG.GenFunction(p, f, n).value;
      FunctionBound(p, f, n);
      FunctionsBound(p, k + 1, a.next);
      var rest := CG.GenFunctions(p, k + 1, a.next).value;
      Cat(a.code, rest.code, NamedOf(Names(p)));
      DefinesBoth(a.code, rest.code, [f.name, f.name + "_epi"], FuncNames(p.funcs[k + 1..]));
      assert p.funcs[k..][0] == f && p.funcs[k..][1..] == p.funcs[k + 1..];
    }
  }

  lemma DefinesNothing()
    ensures Defines([], [])
  {
  }

  lemma {:induction false} GlobalsDefined(gs: seq<Global>)
    requires CG.GenGlobals(gs).Ok?
    ensures Defines(CG.GenGlobals(gs).value, GlobNames(gs)) && PH.IsData(CG.GenGlobals(gs).value)
  {
    if gs == [] {
      DefinesNothing();
    } else {
      GlobalDefined(gs[0]);
      GlobalsDefined(gs[1..]);
      hide CG.GenGlobal, Defines;
      DefinesBoth(CG.GenGlobal(gs[0]).value, CG.GenGlobals(gs[1..]).value, [gs[0].name], GlobNames(gs[1..]));
    }
  }

  lemma GlobalDefined(g: Global)
    requires CG.GenGlobal(g).Ok?
    ensures Defines(CG.GenGlobal(g).value, [g.name]) && PH.IsData(CG.GenGlobal(g).value)
  {
    if g.size.Some? {
      ZerosPlain(g.size.value);
    }
    assert CG.GenGlobal(g).value[0] == Lab(Named(g.name));
  }

  lemma AllDefined(code: seq<Line>, names: seq<string>)
    requires Bound(code, NamedOf(names)) && Defines(code, names)
    ensures Bound(code, {})
  {
  }

  lemma DefinesMore(a: seq<Line>, b: seq<Line>, names: seq<string>)
    requires Defines(b, names)
    ensures Defines(a + b, names)
  {
  }

  lemma EntryBound(prog: Program)
    requires FuncFind(prog.funcs, "main").Some?
    ensures Bound(CG.ENTRY, NamedOf(Names(prog)))
  {
    FuncKnown(prog.funcs, "main");
  }

  /** Every jump, call and address in a generated program has its label in the program. */
  lemma GeneratedIsClosed(prog: Program)
    requires CG.Generate(prog).Ok?
    ensures Bound(CG.Generate(prog).value, {})
  {
    var known := NamedOf(Names(prog));
    var funcs := CG.GenFunctions(prog, 0, 0).value.code;
    var data := CG.GenGlobals(prog.globals).value;
    EntryBound(prog);
    assert prog.funcs[0..] == prog.funcs;
    GlobalsDefined(prog.globals);
    ShellBound(data, known);
    hide Bound, Defines, CG.GenFunctions, CG.GenGlobals, NamedOf, FuncNames, GlobNames;
    FunctionsBound(prog, 0, 0);
    Cat3(CG.ENTRY, funcs, data, known);
    DefinesBoth(funcs, data, FuncNames(prog.funcs), GlobNames(prog.globals));
    DefinesMore(CG.ENTRY, funcs + data, Names(prog));
    AllDefined(CG.ENTRY + (funcs + data), Names(prog));
  }

  // ----- The peephole pass -----

  /** Same labels, and no line with a target that was not there before. */
  ghost predicate Kept(before: seq<Line>, after: seq<Line>) {
    && (forall l :: Lab(l) in before <==> Lab(l) in after)
    && (forall x :: x in after && x.Op? && Target(x.i).Some? ==> x in before)
  }

  lemma KeptBound(before: seq<Line>, after: seq<Line>)
    requires Bound(before, {}) && Kept(before, after)
    ensures Bound(after, {})
  {
    forall i | 0 <= i < |after| && after[i].Op? && Target(after[i].i).Some? ensures Lab(Target(after[i].i).value) in after {
      assert after[i] in before;
    }
  }

  lemma KeptTwice(a: seq<Line>, b: seq<Line>, c: seq<Line>)
    requires Kept(a, b) && Kept(b, c)
    ensures Kept(a, c)
  {
  }

  lemma KeptSame(a: seq<Line>)
    ensures Kept(a, a)
  {
  }

  lemma EmitKept(out: seq<Line>, cur: Line, rest: seq<Line>)
    ensures Kept(out + ([cur] + rest), PH.Emit(out, cur) + rest)
  {
    if out != [] {
      assert out == out[..|out| - 1] + [out[|out| - 1]];
    }
  }

  lemma {:induction false} PassKept(out: seq<Line>, rest: seq<Line>)
    ensures Kept(out + rest, PH.Pass(out, rest))
    decreases |rest|
  {
    hide PH.Emit, Kept;
    if rest == [] {
      assert out + rest == out;
      KeptSame(out);
    } else {
      assert out + rest == out + ([rest[0]] + rest[1..]);
      EmitKept(out, rest[0], rest[1..]);
      PassKept(PH.Emit(out, rest[0]), rest[1..]);
      KeptTwice(out + rest, PH.Emit(out, rest[0]) + rest[1..], PH.Pass(out, rest));
    }
  }

  /** Optimising neither drops a label nor invents a reference. */
  lemma {:induction false} OptimizeKept(lines: seq<Line>)
    ensures Kept(lines, PH.Optimize(lines))
    decreases |lines|
  {
    hide PH.Pass, Kept;
    PH.PassShrinks([], lines);
    assert [] + lines == lines;
    PassKept([], lines);
    if |PH.Pass([], lines)| < |lines| {
      OptimizeKept(PH.Pass([], lines));
      KeptTwice(lines, PH.Pass([], lines), PH.Optimize(lines));
    }
  }
}
