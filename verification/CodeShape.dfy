/** The shape of generated code: labels are unique, every fragment using its own numbers, and the only store that is not
    from R0 is the prologue's, with MOV R6, R7 right behind it. */
module CodeShape {
  import opened Wrappers
  import opened Machine
  import opened CAst
  import opened CodeRuns
  import CG = CodeGen

  function LabelsOf(code: seq<Line>): set<Label> { set i | 0 <= i < |code| && code[i].Lab? :: code[i].l }

  lemma LabelIn(code: seq<Line>, i: nat)
    requires i < |code| && code[i].Lab?
    ensures code[i].l in LabelsOf(code)
  {
  }

  lemma LabelsAdd(a: seq<Line>, b: seq<Line>)
    ensures LabelsOf(a + b) == LabelsOf(a) + LabelsOf(b)
  {
    forall l | l in LabelsOf(a) ensures l in LabelsOf(a + b) {
      var i :| 0 <= i < |a| && a[i] == Lab(l);
      assert (a + b)[i] == Lab(l);
    }
    forall l | l in LabelsOf(b) ensures l in LabelsOf(a + b) {
      var i :| 0 <= i < |b| && b[i] == Lab(l);
      assert (a + b)[|a| + i] == Lab(l);
    }
  }

  /** Code with different labels can be put side by side. */
  lemma Join(a: seq<Line>, b: seq<Line>)
    requires UniqueLabels(a) && UniqueLabels(b) && LabelsOf(a) !! LabelsOf(b)
    ensures UniqueLabels(a + b) && LabelsOf(a + b) == LabelsOf(a) + LabelsOf(b)
  {
    LabelsAdd(a, b);
    forall i, j | 0 <= i < j < |a + b| && (a + b)[i].Lab? ensures (a + b)[i] != (a + b)[j] {
      if i < |a| <= j && b[j - |a|].Lab? {
        LabelIn(a, i);
        LabelIn(b, j - |a|);
      }
    }
  }

  /** Only numbered labels, from lo up to but not including hi. */
  ghost predicate Numbered(ls: set<Label>, lo: nat, hi: nat) {
    forall l :: l in ls ==> l.Local? && lo <= l.id < hi
  }

  predicate StoresR0(l: Line) { l.Op? && l.i.Store? ==> l.i.rs == 0 }

  predicate FromR0(code: seq<Line>) { forall i :: 0 <= i < |code| ==> StoresR0(code[i]) }

  /** A store of another register is followed by the prologue's move. */
  predicate Guarded(code: seq<Line>) {
    forall i :: 0 <= i < |code| && !StoresR0(code[i]) ==> i + 1 < |code| && code[i + 1] == Op(Mov(FP, SP))
  }

  lemma GuardedAdds(a: seq<Line>, b: seq<Line>)
    requires Guarded(a) && Guarded(b)
    ensures Guarded(a + b)
  {
    var c := a + b;
    forall i | 0 <= i < |c| && !StoresR0(c[i]) ensures i + 1 < |c| && c[i + 1] == Op(Mov(FP, SP)) {
      if i < |a| {
        assert !StoresR0(a[i]);
      } else {
        assert !StoresR0(b[i - |a|]);
      }
    }
  }

  ghost predicate Fresh(code: seq<Line>, lo: nat, hi: nat) {
    lo <= hi && UniqueLabels(code) && Numbered(LabelsOf(code), lo, hi) && FromR0(code)
  }

  lemma JoinUp(a: seq<Line>, b: seq<Line>, lo: nat, mid: nat, hi: nat)
    requires Fresh(a, lo, mid) && Fresh(b, mid, hi)
    ensures Fresh(a + b, lo, hi)
  {
    Join(a, b);
  }

  lemma NoLabels(code: seq<Line>, n: nat)
    requires forall i :: 0 <= i < |code| ==> !code[i].Lab? && StoresR0(code[i])
    ensures Fresh(code, n, n) && LabelsOf(code) == {}
  {
  }

  lemma OneLabel(l: Label)
    ensures UniqueLabels([Lab(l)]) && LabelsOf([Lab(l)]) == {l}
  {
    assert [Lab(l)][0] == Lab(l);
  }

  // ----- Patterns -----

  lemma ChooseFresh(first: int, n: nat, second: int)
    ensures Fresh(CG.Choose(first, n, second, n + 1), n, n + 2)
  {
    var code := CG.Choose(first, n, second, n + 1);
    forall i | 0 <= i < |code| && code[i].Lab? ensures code[i].l.Local? && n <= code[i].l.id < n + 2 {
    }
  }

  lemma CompareFresh(op: BinOp, n: nat)
    requires CG.IsComparison(op)
    ensures Fresh(CG.Compare(op, n), n, n + 2)
  {
    var code := CG.Verdict(n);
    forall i | 0 <= i < |code| && code[i].Lab? ensures code[i].l.Local? && n <= code[i].l.id < n + 2 {
    }
    var jumps := CG.CompareJumps(op, Local(n));
    NoLabels(jumps, n);
    JoinUp(jumps, code, n, n, n + 2);
    NoLabels(CG.SUBTRACT, n);
    JoinUp(CG.SUBTRACT, jumps + code, n, n, n + 2);
  }

  lemma UnaryFresh(op: UnOp, n: nat)
    ensures Fresh(CG.Negate(op, n), n, if op == Neg || op == Compl then n else n + 1)
  {
    if op == Neg || op == Compl {
      NoLabels(CG.Negate(op, n), n);
    } else {
      var code := CG.Negate(op, n);
      forall i | 0 <= i < |code| && code[i].Lab? ensures code[i].l == Local(n) {
      }
    }
  }

  // ----- Expressions -----

  /** a, then label-free code, then b: the common shape of two operands. */
  lemma JoinThree(a: seq<Line>, gap: seq<Line>, b: seq<Line>, lo: nat, mid: nat, hi: nat)
    requires Fresh(a, lo, mid) && Fresh(b, mid, hi) && forall i :: 0 <= i < |gap| ==> !gap[i].Lab? && StoresR0(gap[i])
    ensures Fresh(a + (gap + b), lo, hi)
  {
    NoLabels(gap, mid);
    JoinUp(gap, b, mid, mid, hi);
    JoinUp(a, gap + b, lo, mid, hi);
  }

  lemma {:induction false} ExprFresh(env: CG.Env, e: Expr, n: nat)
    requires CG.GenExpr(env, e, n).Ok?
    ensures Fresh(CG.GenExpr(env, e, n).value.code, n, CG.GenExpr(env, e, n).value.next)
    decreases e, 3
  {
    hide Fresh, CG.GenBinary, CG.GenCall, CG.GenAssign, CG.GenAddr, CG.Negate;
    match e
    case Int(v) => NoLabels([Op(LoadI(0, v))], n);
    case Var(x) =>
      var place := CG.PlaceOf(env, x);
      if place.isArray {
        AddrFresh(env, e, n);
      } else {
        NoLabels(CG.GenExpr(env, e, n).value.code, n);
      }
    case Index(_, _) => DerefFresh(env, e, n);
    case Assign(_, _) => AssignFresh(env, e, n);
    case Unary(op, a) =>
      if op == Amp {
        AddrFresh(env, a, n);
      } else if op == Star {
        DerefFresh(env, e, n);
      } else {
        ExprFresh(env, a, n);
        var r := CG.GenExpr(env, a, n).value;
        UnaryFresh(op, r.next);
        JoinUp(r.code, CG.Negate(op, r.next), n, r.next, if op == Bang then r.next + 1 else r.next);
      }
    case Binary(_, _, _) => BinaryFresh(env, e, n);
    case Call(_, _) => CallFresh(env, e, n);
  }

  lemma {:induction false} DerefFresh(env: CG.Env, e: Expr, n: nat)
    requires CG.GenAddr(env, e, n).Ok?
    ensures Fresh(CG.GenAddr(env, e, n).value.code + CG.FETCH, n, CG.GenAddr(env, e, n).value.next)
    decreases e, 2
  {
    hide Fresh, CG.GenAddr;
    AddrFresh(env, e, n);
    var a := CG.GenAddr(env, e, n).value;
    NoLabels(CG.FETCH, a.next);
    JoinUp(a.code, CG.FETCH, n, a.next, a.next);
  }

  lemma {:induction false} AddrFresh(env: CG.Env, e: Expr, n: nat)
    requires CG.GenAddr(env, e, n).Ok?
    ensures Fresh(CG.GenAddr(env, e, n).value.code, n, CG.GenAddr(env, e, n).value.next)
    decreases e, 1
  {
    hide Fresh, CG.GenExpr;
    match e
    case Var(x) => NoLabels(CG.GenAddr(env, e, n).value.code, n);
    case Index(b, i) =>
      ExprFresh(env, b, n);
      var cb := CG.GenExpr(env, b, n).value;
      ExprFresh(env, i, cb.next);
      var ci := CG.GenExpr(env, i, cb.next).value;
      NoLabels(CG.INDEXED, ci.next);
      JoinUp(ci.code, CG.INDEXED, cb.next, ci.next, ci.next);
      JoinThree(cb.code, CG.PUSH0, ci.code + CG.INDEXED, n, cb.next, ci.next);
    case Unary(_, a) => ExprFresh(env, a, n);
  }

  lemma {:induction false} AssignFresh(env: CG.Env, e: Expr, n: nat)
    requires e.Assign? && CG.GenAssign(env, e, n).Ok?
    ensures Fresh(CG.GenAssign(env, e, n).value.code, n, CG.GenAssign(env, e, n).value.next)
    decreases e, 2
  {
    hide Fresh, CG.GenExpr, CG.GenAddr;
    if e.lhs.Var? {
      ExprFresh(env, e.rhs, n);
      var r := CG.GenExpr(env, e.rhs, n).value;
      var tail := if CG.PlaceOf(env, e.lhs.x).InFrame? then [Op(Store(FP, CG.PlaceOf(env, e.lhs.x).off, 0))]
                  else [Op(LoadA(1, e.lhs.x)), Op(Store(1, 0, 0))];
      NoLabels(tail, r.next);
      JoinUp(r.code, tail, n, r.next, r.next);
    } else {
      AddrFresh(env, e.lhs, n);
      var a := CG.GenAddr(env, e.lhs, n).value;
      ExprFresh(env, e.rhs, a.next);
      var r := CG.GenExpr(env, e.rhs, a.next).value;
      var tail := [Op(Pop(1)), Op(Store(1, 0, 0))];
      NoLabels(tail, r.next);
      JoinUp(r.code, tail, a.next, r.next, r.next);
      JoinThree(a.code, CG.PUSH0, r.code + tail, n, a.next, r.next);
    }
  }

  lemma {:induction false} BinaryFresh(env: CG.Env, e: Expr, n: nat)
    requires e.Binary? && CG.GenBinary(env, e, n).Ok?
    ensures Fresh(CG.GenBinary(env, e, n).value.code, n, CG.GenBinary(env, e, n).value.next)
    decreases e, 2
  {
    hide Fresh, CG.GenExpr, CG.Compare, CG.Choose;
    var start := if e.op == AndAnd || e.op == OrOr then n + 2 else n;
    ExprFresh(env, e.l, start);
    var a := CG.GenExpr(env, e.l, start).value;
    ExprFresh(env, e.r, a.next);
    var b := CG.GenExpr(env, e.r, a.next).value;
    if e.op == AndAnd {
      ShortCircuitFresh(a.code, CG.Test(Local(n)), b.code, 1, n, 0, a.next, b.next);
    } else if e.op == OrOr {
      ShortCircuitFresh(a.code, CG.TestNot(Local(n)), b.code, 0, n, 1, a.next, b.next);
    } else if CG.IsComparison(e.op) {
      CompareFresh(e.op, b.next);
      JoinUp(b.code, CG.Compare(e.op, b.next), a.next, b.next, b.next + 2);
      JoinThree(a.code, CG.PUSH0, b.code + CG.Compare(e.op, b.next), n, a.next, b.next + 2);
    } else {
      NoLabels(CG.Arithmetic(e.op), b.next);
      JoinUp(b.code, CG.Arithmetic(e.op), a.next, b.next, b.next);
      JoinThree(a.code, CG.PUSH0, b.code + CG.Arithmetic(e.op), n, a.next, b.next);
    }
  }

  lemma ShortCircuitFresh(a: seq<Line>, test: seq<Line>, b: seq<Line>, first: int, n: nat, second: int, mid: nat, end: nat)
    requires Fresh(a, n + 2, mid) && Fresh(b, mid, end) && forall i :: 0 <= i < |test| ==> !test[i].Lab? && StoresR0(test[i])
    ensures Fresh(a + (test + (b + (test + CG.Choose(first, n, second, n + 1)))), n, end)
  {
    hide CG.Choose;
    var choose := CG.Choose(first, n, second, n + 1);
    ChooseFresh(first, n, second);
    NoLabels(test, n);
    Join(test, choose);
    Join(b, test + choose);
    Join(test, b + (test + choose));
    Join(a, test + (b + (test + choose)));
  }

  lemma {:induction false} ArgsFresh(env: CG.Env, e: Expr, k: nat, n: nat)
    requires e.Call? && k <= |e.args| && CG.GenArgs(env, e, k, n).Ok?
    ensures Fresh(CG.GenArgs(env, e, k, n).value.code, n, CG.GenArgs(env, e, k, n).value.next)
    decreases e, 0, k
  {
    hide Fresh, CG.GenExpr;
    if k == 0 {
      NoLabels([], n);
    } else {
      ExprFresh(env, e.args[k - 1], n);
      var a := CG.GenExpr(env, e.args[k - 1], n).value;
      ArgsFresh(env, e, k - 1, a.next);
      var rest := CG.GenArgs(env, e, k - 1, a.next).value;
      JoinThree(a.code, CG.PUSH_ARG, rest.code, n, a.next, rest.next);
    }
  }

  lemma {:induction false} CallFresh(env: CG.Env, e: Expr, n: nat)
    requires e.Call? && CG.GenCall(env, e, n).Ok?
    ensures Fresh(CG.GenCall(env, e, n).value.code, n, CG.GenCall(env, e, n).value.next)
    decreases e, 2
  {
    hide Fresh, CG.GenExpr, CG.GenArgs;
    if e.f == "out" {
      ExprFresh(env, e.args[0], n);
      var a := CG.GenExpr(env, e.args[0], n).value;
      NoLabels([Op(Out(0))], a.next);
      JoinUp(a.code, [Op(Out(0))], n, a.next, a.next);
    } else if e.f == "in" {
      NoLabels([Op(In(0))], n);
    } else {
      ArgsFresh(env, e, |e.args|, n);
      var a := CG.GenArgs(env, e, |e.args|, n).value;
      var tail := [Op(Instr.Call(Named(e.f)))] + CG.DropArgs(|e.args|);
      NoLabels(tail, a.next);
      JoinUp(a.code, tail, n, a.next, a.next);
    }
  }

  // ----- Statements -----

  lemma {:induction false} OptionalFresh(env: CG.Env, e: Option<Expr>, n: nat)
    requires CG.GenOptional(env, e, n).Ok?
    ensures Fresh(CG.GenOptional(env, e, n).value.code, n, CG.GenOptional(env, e, n).value.next)
  {
    hide Fresh, CG.GenExpr;
    if e.None? {
      NoLabels([], n);
    } else {
      ExprFresh(env, e.value, n);
    }
  }

  lemma {:induction false} TestFresh(env: CG.Env, c: Option<Expr>, l: Label, n: nat)
    requires CG.GenTest(env, c, l, n).Ok?
    ensures Fresh(CG.GenTest(env, c, l, n).value.code, n, CG.GenTest(env, c, l, n).value.next)
  {
    hide Fresh, CG.GenExpr;
    if c.None? {
      NoLabels([], n);
    } else {
      ExprFresh(env, c.value, n);
      var r := CG.GenExpr(env, c.value, n).value;
      NoLabels(CG.Test(l), r.next);
      JoinUp(r.code, CG.Test(l), n, r.next, r.next);
    }
  }

  lemma {:induction false} StmtFresh(env: CG.Env, s: Stmt, n: nat)
    requires CG.GenStmt(env, s, n).Ok?
    ensures Fresh(CG.GenStmt(env, s, n).value.code, n, CG.GenStmt(env, s, n).value.next)
    decreases s, 2
  {
    hide Fresh, CG.GenExpr, CG.GenLoop, CG.GenBlock, CG.GenTest, CG.GenOptional;
    match s
    case Block(_) => BlockFresh(env, s, 0, n);
    case VarDecl(x, _, init) =>
      if init.None? {
        NoLabels([], n);
      } else {
        ExprFresh(env, init.value, n);
        var r := CG.GenExpr(env, init.value, n).value;
        var tail := [Op(Store(FP, SymFind(env.sym, x).value.off, 0))];
        NoLabels(tail, r.next);
        JoinUp(r.code, tail, n, r.next, r.next);
      }
    case ExprStmt(e) => ExprFresh(env, e, n);
    case Return(e) =>
      OptionalFresh(env, e, n);
      var r := CG.GenOptional(env, e, n).value;
      NoLabels([Op(Jmp(env.epi))], r.next);
      JoinUp(r.code, [Op(Jmp(env.epi))], n, r.next, r.next);
    case If(c, t, f) =>
      if f.Some? {
        IfElseFresh(env, c, t, f.value, n);
      } else {
        TestFresh(env, Some(c), Local(n), n + 1);
        var r := CG.GenTest(env, Some(c), Local(n), n + 1).value;
        StmtFresh(env, t, r.next);
        var a := CG.GenStmt(env, t, r.next).value;
        IfFresh(r.code, a.code, n, r.next, a.next);
      }
    case While(c, b) => LoopFresh(env, Some(c), None, b, n);
    case For(pre, c, post, b) =>
      if pre.None? {
        LoopFresh(env, c, post, b, n);
      } else {
        StmtFresh(env, pre.value, n);
        var a := CG.GenStmt(env, pre.value, n).value;
        LoopFresh(env, c, post, b, a.next);
        var loop := CG.GenLoop(env, c, post, b, a.next).value;
        JoinUp(a.code, loop.code, n, a.next, loop.next);
      }
  }

  lemma IfFresh(r: seq<Line>, a: seq<Line>, n: nat, mid: nat, end: nat)
    requires Fresh(r, n + 1, mid) && Fresh(a, mid, end)
    ensures Fresh(r + (a + [Lab(Local(n))]), n, end)
  {
    var tail := [Lab(Local(n))];
    OneLabel(Local(n));
    Join(a, tail);
    Join(r, a + tail);
  }

  lemma {:induction false} IfElseFresh(env: CG.Env, c: Expr, t: Stmt, f: Stmt, n: nat)
    requires CG.GenStmt(env, If(c, t, Some(f)), n).Ok?
    ensures Fresh(CG.GenStmt(env, If(c, t, Some(f)), n).value.code, n, CG.GenStmt(env, If(c, t, Some(f)), n).value.next)
    decreases If(c, t, Some(f)), 1
  {
    var r := CG.GenTest(env, Some(c), Local(n), n + 2).value;
    var a := CG.GenStmt(env, t, r.next).value;
    var b := CG.GenStmt(env, f, a.next).value;
    var mid := [Op(Jmp(Local(n + 1))), Lab(Local(n))];
    var tail := [Lab(Local(n + 1))];
    assert CG.GenStmt(env, If(c, t, Some(f)), n).value == CG.Frag(r.code + (a.code + (mid + (b.code + tail))), b.next);
    hide CG.GenStmt, CG.GenTest, Fresh;
    TestFresh(env, Some(c), Local(n), n + 2);
    StmtFresh(env, t, r.next);
    StmtFresh(env, f, a.next);
    ElseFresh(r.code, a.code, b.code, n, r.next, a.next, b.next);
  }

  lemma ElseFresh(r: seq<Line>, a: seq<Line>, b: seq<Line>, n: nat, m1: nat, m2: nat, end: nat)
    requires Fresh(r, n + 2, m1) && Fresh(a, m1, m2) && Fresh(b, m2, end)
    ensures Fresh(r + (a + ([Op(Jmp(Local(n + 1))), Lab(Local(n))] + (b + [Lab(Local(n + 1))]))), n, end)
  {
    var jump, back := [Op(Jmp(Local(n + 1)))], [Lab(Local(n))];
    var mid := [Op(Jmp(Local(n + 1))), Lab(Local(n))];
    assert mid == jump + back;
    NoLabels(jump, n);
    OneLabel(Local(n));
    OneLabel(Local(n + 1));
    Join(jump, back);
    Join(b, [Lab(Local(n + 1))]);
    Join(mid, b + [Lab(Local(n + 1))]);
    Join(a, mid + (b + [Lab(Local(n + 1))]));
    Join(r, a + (mid + (b + [Lab(Local(n + 1))])));
  }

  lemma {:induction false} BlockFresh(env: CG.Env, s: Stmt, k: nat, n: nat)
    requires s.Block? && k <= |s.ss| && CG.GenBlock(env, s, k, n).Ok?
    ensures Fresh(CG.GenBlock(env, s, k, n).value.code, n, CG.GenBlock(env, s, k, n).value.next)
    decreases s, 0, |s.ss| - k
  {
    hide Fresh, CG.GenStmt;
    if k == |s.ss| {
      NoLabels([], n);
    } else {
      StmtFresh(env, s.ss[k], n);
      var a := CG.GenStmt(env, s.ss[k], n).value;
      BlockFresh(env, s, k + 1, a.next);
      var rest := CG.GenBlock(env, s, k + 1, a.next).value;
      JoinUp(a.code, rest.code, n, a.next, rest.next);
    }
  }

  lemma {:induction false} LoopFresh(env: CG.Env, c: Option<Expr>, post: Option<Expr>, body: Stmt, n: nat)
    requires CG.GenLoop(env, c, post, body, n).Ok?
    ensures Fresh(CG.GenLoop(env, c, post, body, n).value.code, n, CG.GenLoop(env, c, post, body, n).value.next)
    decreases body, 3
  {
    hide Fresh, CG.GenStmt, CG.GenTest, CG.GenOptional;
    TestFresh(env, c, Local(n + 1), n + 2);
    var test := CG.GenTest(env, c, Local(n + 1), n + 2).value;
    StmtFresh(env, body, test.next);
    var b := CG.GenStmt(env, body, test.next).value;
    OptionalFresh(env, post, b.next);
    var step := CG.GenOptional(env, post, b.next).value;
    LoopPartsFresh(test.code, b.code, step.code, n, test.next, b.next, step.next);
  }

  lemma LoopPartsFresh(t: seq<Line>, b: seq<Line>, s: seq<Line>, n: nat, m1: nat, m2: nat, end: nat)
    requires Fresh(t, n + 2, m1) && Fresh(b, m1, m2) && Fresh(s, m2, end)
    ensures Fresh([Lab(Local(n))] + (t + (b + (s + [Op(Jmp(Local(n))), Lab(Local(n + 1))]))), n, end)
  {
    var jump, last := [Op(Jmp(Local(n)))], [Lab(Local(n + 1))];
    var tail := [Op(Jmp(Local(n))), Lab(Local(n + 1))];
    assert tail == jump + last;
    NoLabels(jump, n);
    OneLabel(Local(n));
    OneLabel(Local(n + 1));
    Join(jump, last);
    Join(s, tail);
    Join(b, s + tail);
    Join(t, b + (s + tail));
    Join([Lab(Local(n))], t + (b + (s + tail)));
  }

  // ----- Programs -----

  /** The names that become labels: two for a function, one for a global. */
  function Names(p: Program): seq<string> { FuncNames(p.funcs) + GlobNames(p.globals) }

  function FuncNames(fs: seq<Func>): seq<string> {
    if fs == [] then [] else [fs[0].name, fs[0].name + "_epi"] + FuncNames(fs[1..])
  }

  function GlobNames(gs: seq<Global>): seq<string> {
    if gs == [] then [] else [gs[0].name] + GlobNames(gs[1..])
  }

  ghost predicate NoDuplicates(s: seq<string>) { forall i, j :: 0 <= i < j < |s| ==> s[i] != s[j] }

  /** Named labels, from the given names only. */
  ghost predicate From(ls: set<Label>, names: seq<string>) {
    forall l :: l in ls && l.Named? ==> l.text in names
  }

  lemma NamesSplit(a: seq<string>, b: seq<string>)
    requires NoDuplicates(a + b)
    ensures NoDuplicates(a) && NoDuplicates(b) && forall x :: x in a ==> x !in b
  {
    forall i, j | 0 <= i < j < |a| ensures a[i] != a[j] {
      assert (a + b)[i] == a[i] && (a + b)[j] == a[j];
    }
    forall i, j | 0 <= i < j < |b| ensures b[i] != b[j] {
      assert (a + b)[|a| + i] == b[i] && (a + b)[|a| + j] == b[j];
    }
    forall x | x in a ensures x !in b {
      var i :| 0 <= i < |a| && a[i] == x;
      forall j | 0 <= j < |b| ensures b[j] != x {
        assert (a + b)[i] == a[i] && (a + b)[|a| + j] == b[j];
      }
    }
  }

  /** What a function adds to the labels. */
  ghost predicate FunctionLabels(code: seq<Line>, names: seq<string>, lo: nat, hi: nat) {
    && lo <= hi && UniqueLabels(code) && From(LabelsOf(code), names) && Guarded(code)
    && forall l :: l in LabelsOf(code) && l.Local? ==> lo <= l.id < hi
  }

  lemma FunctionFresh(p: Program, f: Func, n: nat)
    requires CG.GenFunction(p, f, n).Ok? && f.name != f.name + "_epi"
    ensures FunctionLabels(CG.GenFunction(p, f, n).value.code, [f.name, f.name + "_epi"], n, CG.GenFunction(p, f, n).value.next)
  {
    var env := CG.EnvOf(p, f);
    var pro := CG.Prologue(TableOf(f).bytes);
    var body := CG.GenStmt(env, f.body, n).value;
    var start, end := Named(f.name), Named(f.name + "_epi");
    assert CG.GenFunction(p, f, n).value.code == [Lab(start)] + (pro + (body.code + ([Lab(end)] + CG.EPILOGUE)));
    hide CG.GenStmt, TableOf, CG.GenFunction;
    StmtFresh(env, f.body, n);
    PrologueShape(TableOf(f).bytes);
    NoLabels(CG.EPILOGUE, n);
    OneLabel(start);
    OneLabel(end);
    Attach([Lab(end)], CG.EPILOGUE);
    Attach(body.code, [Lab(end)] + CG.EPILOGUE);
    Attach(pro, body.code + ([Lab(end)] + CG.EPILOGUE));
    Attach([Lab(start)], pro + (body.code + ([Lab(end)] + CG.EPILOGUE)));
  }

  lemma Attach(a: seq<Line>, b: seq<Line>)
    requires UniqueLabels(a) && UniqueLabels(b) && LabelsOf(a) !! LabelsOf(b) && Guarded(a) && Guarded(b)
    ensures UniqueLabels(a + b) && LabelsOf(a + b) == LabelsOf(a) + LabelsOf(b) && Guarded(a + b)
  {
    hide Guarded;
    Join(a, b);
    GuardedAdds(a, b);
  }

  lemma PrologueShape(bytes: nat)
    ensures UniqueLabels(CG.Prologue(bytes)) && LabelsOf(CG.Prologue(bytes)) == {} && Guarded(CG.Prologue(bytes))
  {
  }

  lemma JoinFunctions(a: seq<Line>, b: seq<Line>, na: seq<string>, nb: seq<string>, lo: nat, mid: nat, hi: nat)
    requires FunctionLabels(a, na, lo, mid) && FunctionLabels(b, nb, mid, hi) && NoDuplicates(na + nb)
    ensures FunctionLabels(a + b, na + nb, lo, hi)
  {
    NamesSplit(na, nb);
    Attach(a, b);
  }

  lemma {:induction false} FunctionsFresh(p: Program, k: nat, n: nat)
    requires k <= |p.funcs| && CG.GenFunctions(p, k, n).Ok? && NoDuplicates(FuncNames(p.funcs[k..]))
    ensures FunctionLabels(CG.GenFunctions(p, k, n).value.code, FuncNames(p.funcs[k..]), n, CG.GenFunctions(p, k, n).value.next)
    decreases |p.funcs| - k
  {
    hide FunctionLabels, CG.GenFunction;
    if k == |p.funcs| {
      NoFunctions(FuncNames(p.funcs[k..]), n);
    } else {
      var f := p.funcs[k];
      assert p.funcs[k..][0] == f && p.funcs[k..][1..] == p.funcs[k + 1..];
      var mine := [f.name, f.name + "_epi"];
      assert mine[0] != mine[1] by { NamesSplit(mine, FuncNames(p.funcs[k + 1..])); }
      NamesSplit(mine, FuncNames(p.funcs[k + 1..]));
      FunctionFresh(p, f, n);
      var a := CG.GenFunction(p, f, n).value;
      FunctionsFresh(p, k + 1, a.next);
      var rest := CG.GenFunctions(p, k + 1, a.next).value;
      JoinFunctions(a.code, rest.code, mine, FuncNames(p.funcs[k + 1..]), n, a.next, rest.next);
    }
  }

  lemma NoFunctions(names: seq<string>, n: nat)
    ensures FunctionLabels([], names, n, n)
  {
  }

  lemma {:induction false} ZerosPlain(n: nat)
    ensures forall i :: 0 <= i < |CG.Zeros(n)| ==> CG.Zeros(n)[i] == Data(0)
    ensures |CG.Zeros(n)| == n
  {
    if n > 0 {
      ZerosPlain(n - 1);
    }
  }

  lemma {:induction false} GlobalsFresh(gs: seq<Global>, n: nat)
    requires CG.GenGlobals(gs).Ok? && NoDuplicates(GlobNames(gs))
    ensures FunctionLabels(CG.GenGlobals(gs).value, GlobNames(gs), n, n)
  {
    hide FunctionLabels;
    if gs == [] {
      NoFunctions([], n);
    } else {
      NamesSplit([gs[0].name], GlobNames(gs[1..]));
      GlobalsFresh(gs[1..], n);
      var a := CG.GenGlobal(gs[0]).value;
      GlobalFresh(gs[0], n);
      JoinFunctions(a, CG.GenGlobals(gs[1..]).value, [gs[0].name], GlobNames(gs[1..]), n, n, n);
    }
  }

  lemma GlobalFresh(g: Global, n: nat)
    requires CG.GenGlobal(g).Ok?
    ensures FunctionLabels(CG.GenGlobal(g).value, [g.name], n, n)
  {
    var head := [Lab(Named(g.name))];
    var words := CG.GenGlobal(g).value[1..];
    assert CG.GenGlobal(g).value == head + words;
    if g.size.Some? {
      ZerosPlain(g.size.value);
      assert words == CG.Zeros(g.size.value);
    }
    OneLabel(Named(g.name));
    NoLabels(words, n);
    Join(head, words);
  }

  /** No label occurs twice in a generated program whose names are distinct, and its stores are as they should be. */
  lemma GeneratedLabelsUnique(p: Program)
    requires CG.Generate(p).Ok? && NoDuplicates(Names(p))
    ensures UniqueLabels(CG.Generate(p).value) && Guarded(CG.Generate(p).value)
    ensures From(LabelsOf(CG.Generate(p).value), Names(p))
  {
    hide CG.GenFunctions, CG.GenGlobals;
    NamesSplit(FuncNames(p.funcs), GlobNames(p.globals));
    assert p.funcs[0..] == p.funcs;
    FunctionsFresh(p, 0, 0);
    var funcs := CG.GenFunctions(p, 0, 0).value;
    GlobalsFresh(p.globals, funcs.next);
    var data := CG.GenGlobals(p.globals).value;
    JoinFunctions(funcs.code, data, FuncNames(p.funcs), GlobNames(p.globals), 0, funcs.next, funcs.next);
    NoLabels(CG.ENTRY, 0);
    Attach(CG.ENTRY, funcs.code + data);
  }
}
