/** Which programs the code generator accepts: exactly those whose names are known and fit their use. Stated on the program
    text, without symbol tables, labels or code. */
module Acceptance {
  import opened Wrappers
  import opened CAst
  import opened Layout
  import opened Scopes
  import M = Machine
  import CG = CodeGen

  // ----- Names -----

  predicate IsName(p: Program, f: Func, x: string) { !IsFree(f, x) || !NoGlobal(p, x) }

  ghost predicate IsArrayName(p: Program, f: Func, x: string) {
    || (exists k: nat :: IsLocal(f, k, x) && Decls(f.body)[k].size.Some?)
    || (IsFree(f, x) && exists g: nat :: IsGlobal(p, g, x) && p.globals[g].size.Some?)
  }

  /** The first function of that name takes n arguments. */
  ghost predicate Takes(p: Program, name: string, n: nat) {
    exists i: nat :: IsFunction(p, i, name) && |p.funcs[i].params| == n
  }

  predicate IsFunction(p: Program, i: nat, name: string) {
    i < |p.funcs| && p.funcs[i].name == name && forall j :: 0 <= j < i ==> p.funcs[j].name != name
  }

  // ----- The conditions -----

  predicate Fits20(v: int) { -524288 <= v <= 524287 }

  ghost predicate ExprOk(p: Program, f: Func, e: Expr)
    decreases e, 1
  {
    match e
    case Int(v) => Fits20(v)
    case Var(x) => IsName(p, f, x)
    case Index(b, i) => ExprOk(p, f, b) && ExprOk(p, f, i)
    case Assign(l, r) => (if l.Var? then IsName(p, f, l.x) && !IsArrayName(p, f, l.x) else PlaceOk(p, f, l)) && ExprOk(p, f, r)
    case Unary(op, a) => if op == Amp then PlaceOk(p, f, a) else ExprOk(p, f, a)
    case Binary(_, l, r) => ExprOk(p, f, l) && ExprOk(p, f, r)
    case Call(g, args) =>
      if g == "in" then true
      else
        && (if g == "out" then |args| == 1 else Takes(p, g, |args|))
        && forall i :: 0 <= i < |args| ==> ExprOk(p, f, args[i])
  }

  /** What has an address. */
  ghost predicate PlaceOk(p: Program, f: Func, e: Expr)
    decreases e, 0
  {
    match e
    case Var(x) => IsName(p, f, x)
    case Index(b, i) => ExprOk(p, f, b) && ExprOk(p, f, i)
    case Unary(Star, a) => ExprOk(p, f, a)
    case _ => false
  }

  ghost predicate OptionalOk(p: Program, f: Func, e: Option<Expr>) { e.Some? ==> ExprOk(p, f, e.value) }

  ghost predicate StmtOk(p: Program, f: Func, s: Stmt) {
    match s
    case Block(ss) => forall i :: 0 <= i < |ss| ==> StmtOk(p, f, ss[i])
    case VarDecl(_, _, init) => OptionalOk(p, f, init)
    case ExprStmt(e) => ExprOk(p, f, e)
    case Return(e) => OptionalOk(p, f, e)
    case If(c, a, b) => ExprOk(p, f, c) && StmtOk(p, f, a) && (b.Some? ==> StmtOk(p, f, b.value))
    case While(c, b) => ExprOk(p, f, c) && StmtOk(p, f, b)
    case For(pre, c, post, b) =>
      (pre.Some? ==> StmtOk(p, f, pre.value)) && OptionalOk(p, f, c) && OptionalOk(p, f, post) && StmtOk(p, f, b)
  }

  /** There is a main, every function body is in order, and initialisers of global scalars are literals. */
  ghost predicate ProgramOk(p: Program) {
    && (exists i: nat :: IsFunction(p, i, "main"))
    && (forall i :: 0 <= i < |p.funcs| ==> StmtOk(p, p.funcs[i], p.funcs[i].body))
    && (forall g :: 0 <= g < |p.globals| ==> InitOk(p.globals[g]))
  }

  predicate InitOk(g: Global) { g.size.Some? || g.init.None? || g.init.value.Int? }

  // ----- They are the code generator's -----

  lemma {:induction false} GlobalThere(globs: seq<Global>, x: string) returns (g: nat)
    ensures GlobFind(globs, x).Some? ==>
              g < |globs| && globs[g].name == x && GlobFind(globs, x) == Some(globs[g]) && forall j :: 0 <= j < g ==> globs[j].name != x
    ensures GlobFind(globs, x).None? ==> forall h :: h in globs ==> h.name != x
  {
    g := 0;
    if globs != [] && globs[0].name != x {
      var h := GlobalThere(globs[1..], x);
      g := h + 1;
    }
  }

  lemma NameIs(p: Program, f: Func, x: string)
    ensures var r := CG.PlaceOf(CG.EnvOf(p, f), x);
            (r.Unknown? <==> !IsName(p, f, x)) && (!r.Unknown? ==> (r.isArray <==> IsArrayName(p, f, x)))
  {
    var i := EveryNameIsOne(f, x);
    if x in f.params {
      ParameterSlot(f, i);
      assert forall k: nat :: !IsLocal(f, k, x);
    } else if !IsFree(f, x) {
      LocalSlot(f, i, x);
      assert forall k: nat :: IsLocal(f, k, x) ==> k == i;
    } else {
      FreeHasNone(f, x);
      var g := GlobalThere(p.globals, x);
      assert !exists k: nat :: IsLocal(f, k, x);
      if GlobFind(p.globals, x).Some? {
        assert IsGlobal(p, g, x);
        assert forall h: nat :: IsGlobal(p, h, x) ==> h == g;
      } else {
        assert !exists h: nat :: IsGlobal(p, h, x);
      }
    }
  }

  lemma {:induction false} FunctionThere(funcs: seq<Func>, x: string) returns (i: nat)
    ensures FuncFind(funcs, x).Some? ==>
              i < |funcs| && funcs[i].name == x && FuncFind(funcs, x) == Some(funcs[i]) && forall j :: 0 <= j < i ==> funcs[j].name != x
    ensures FuncFind(funcs, x).None? ==> forall j :: 0 <= j < |funcs| ==> funcs[j].name != x
  {
    i := 0;
    if funcs != [] && funcs[0].name != x {
      var k := FunctionThere(funcs[1..], x);
      i := k + 1;
      if FuncFind(funcs, x).None? {
        forall j | 0 <= j < |funcs| ensures funcs[j].name != x {
          assert j > 0 ==> funcs[j] == funcs[1..][j - 1];
        }
      }
    }
  }

  lemma FunctionIs(p: Program, x: string)
    ensures FuncFind(p.funcs, x).Some? <==> exists i: nat :: IsFunction(p, i, x)
    ensures forall n: nat :: Takes(p, x, n) <==> FuncFind(p.funcs, x).Some? && |FuncFind(p.funcs, x).value.params| == n
  {
    var i := FunctionThere(p.funcs, x);
    if FuncFind(p.funcs, x).Some? {
      assert IsFunction(p, i, x);
      forall j: nat | IsFunction(p, j, x) ensures j == i {
      }
    } else {
      assert !exists j: nat :: IsFunction(p, j, x);
    }
  }

  lemma {:induction false} ExprAccepted(p: Program, f: Func, e: Expr, n: nat)
    ensures CG.GenExpr(CG.EnvOf(p, f), e, n).Ok? <==> ExprOk(p, f, e)
    decreases e, 3
  {
    match e
    case Int(v) =>
    case Var(x) => NameIs(p, f, x);
    case Index(_, _) => PlaceAccepted(p, f, e, n);
    case Assign(l, r) => AssignAccepted(p, f, e, n);
    case Unary(op, a) =>
      if op == CAst.Amp {
        PlaceAccepted(p, f, a, n);
      } else if op == CAst.Star {
        PlaceAccepted(p, f, e, n);
      } else {
        ExprAccepted(p, f, a, n);
      }
    case Binary(_, _, _) => BinaryAccepted(p, f, e, n);
    case Call(_, _) => CallAccepted(p, f, e, n);
  }

  lemma {:induction false} PlaceAccepted(p: Program, f: Func, e: Expr, n: nat)
    ensures CG.GenAddr(CG.EnvOf(p, f), e, n).Ok? <==> PlaceOk(p, f, e)
    decreases e, 1
  {
    var env := CG.EnvOf(p, f);
    match e
    case Var(x) => NameIs(p, f, x);
    case Index(b, i) =>
      ExprAccepted(p, f, b, n);
      var base := CG.GenExpr(env, b, n);
      if base.Ok? {
        ExprAccepted(p, f, i, base.value.next);
      }
    case Unary(Star, a) => ExprAccepted(p, f, a, n);
    case _ =>
  }

  lemma {:induction false} AssignAccepted(p: Program, f: Func, e: Expr, n: nat)
    requires e.Assign?
    ensures CG.GenAssign(CG.EnvOf(p, f), e, n).Ok? <==> ExprOk(p, f, e)
    decreases e, 2
  {
    if e.lhs.Var? {
      NameIs(p, f, e.lhs.x);
      ExprAccepted(p, f, e.rhs, n);
    } else {
      PlaceAccepted(p, f, e.lhs, n);
      var a := CG.GenAddr(CG.EnvOf(p, f), e.lhs, n);
      if a.Ok? {
        ExprAccepted(p, f, e.rhs, a.value.next);
      }
    }
  }

  lemma {:induction false} BinaryAccepted(p: Program, f: Func, e: Expr, n: nat)
    requires e.Binary?
    ensures CG.GenBinary(CG.EnvOf(p, f), e, n).Ok? <==> ExprOk(p, f, e)
    decreases e, 2
  {
    var m := if e.op == AndAnd || e.op == OrOr then n + 2 else n;
    ExprAccepted(p, f, e.l, m);
    var a := CG.GenExpr(CG.EnvOf(p, f), e.l, m);
    if a.Ok? {
      ExprAccepted(p, f, e.r, a.value.next);
    }
  }

  lemma {:induction false} ArgsAccepted(p: Program, f: Func, e: Expr, k: nat, n: nat)
    requires e.Call? && k <= |e.args|
    ensures CG.GenArgs(CG.EnvOf(p, f), e, k, n).Ok? <==> forall i :: 0 <= i < k ==> ExprOk(p, f, e.args[i])
    decreases e, 0, k
  {
    if k > 0 {
      ExprAccepted(p, f, e.args[k - 1], n);
      var a := CG.GenExpr(CG.EnvOf(p, f), e.args[k - 1], n);
      if a.Ok? {
        ArgsAccepted(p, f, e, k - 1, a.value.next);
      }
    }
  }

  lemma {:induction false} CallAccepted(p: Program, f: Func, e: Expr, n: nat)
    requires e.Call?
    ensures CG.GenCall(CG.EnvOf(p, f), e, n).Ok? <==> ExprOk(p, f, e)
    decreases e, 2
  {
    if e.f == "out" {
      if |e.args| == 1 {
        ExprAccepted(p, f, e.args[0], n);
      }
    } else if e.f != "in" {
      FunctionIs(p, e.f);
      ArgsAccepted(p, f, e, |e.args|, n);
    }
  }

  lemma {:induction false} OptionalAccepted(p: Program, f: Func, e: Option<Expr>, n: nat)
    ensures CG.GenOptional(CG.EnvOf(p, f), e, n).Ok? <==> OptionalOk(p, f, e)
  {
    if e.Some? {
      ExprAccepted(p, f, e.value, n);
    }
  }

  lemma TestAccepted(p: Program, f: Func, c: Option<Expr>, l: M.Label, n: nat)
    ensures CG.GenTest(CG.EnvOf(p, f), c, l, n).Ok? <==> OptionalOk(p, f, c)
  {
    if c.Some? {
      ExprAccepted(p, f, c.value, n);
    }
  }

  /** Every name that s declares is in the table of f. */
  ghost predicate Declares(f: Func, ds: seq<Decl>) { forall d :: d in ds ==> !IsFree(f, d.x) }

  lemma DeclaredFound(f: Func, x: string)
    requires !IsFree(f, x)
    ensures SymFind(TableOf(f).sym, x).Some?
  {
    var i := EveryNameIsOne(f, x);
    if x in f.params {
      ParameterSlot(f, i);
    } else {
      LocalSlot(f, i, x);
    }
  }

  lemma {:induction false} StmtAccepted(p: Program, f: Func, s: Stmt, n: nat)
    requires Declares(f, Decls(s))
    ensures CG.GenStmt(CG.EnvOf(p, f), s, n).Ok? <==> StmtOk(p, f, s)
    decreases s, 2
  {
    var env := CG.EnvOf(p, f);
    hide CG.EnvOf;
    match s
    case Block(_) => BlockAccepted(p, f, s, 0, n);
    case VarDecl(x, size, init) =>
      assert Decl(x, size) in Decls(s);
      DeclaredFound(f, x);
      if init.Some? {
        ExprAccepted(p, f, init.value, n);
        assert env.sym == TableOf(f).sym by { SymbolsOf(p, f); }
      }
    case ExprStmt(e) => ExprAccepted(p, f, e, n);
    case Return(e) => OptionalAccepted(p, f, e, n);
    case If(c, a, b) => IfAccepted(p, f, s, n);
    case While(c, b) => LoopAccepted(p, f, Some(c), None, b, n);
    case For(pre, c, post, b) =>
      if pre.None? {
        LoopAccepted(p, f, c, post, b, n);
      } else {
        StmtAccepted(p, f, pre.value, n);
        var a := CG.GenStmt(env, pre.value, n);
        if a.Ok? {
          LoopAccepted(p, f, c, post, b, a.value.next);
        }
      }
  }

  lemma SymbolsOf(p: Program, f: Func)
    ensures CG.EnvOf(p, f).sym == TableOf(f).sym
  {
  }

  lemma {:induction false} IfAccepted(p: Program, f: Func, s: Stmt, n: nat)
    requires s.If? && Declares(f, Decls(s))
    ensures CG.GenStmt(CG.EnvOf(p, f), s, n).Ok? <==> StmtOk(p, f, s)
    decreases s, 1
  {
    var env, m := CG.EnvOf(p, f), if s.f.Some? then n + 2 else n + 1;
    hide CG.EnvOf;
    TestAccepted(p, f, Some(s.c), M.Label.Local(n), m);
    var r := CG.GenTest(env, Some(s.c), M.Label.Local(n), m);
    if r.Ok? {
      StmtAccepted(p, f, s.t, r.value.next);
      var a := CG.GenStmt(env, s.t, r.value.next);
      if a.Ok? && s.f.Some? {
        StmtAccepted(p, f, s.f.value, a.value.next);
      }
    }
  }

  lemma {:induction false} LoopAccepted(p: Program, f: Func, c: Option<Expr>, post: Option<Expr>, body: Stmt, n: nat)
    requires Declares(f, Decls(body))
    ensures CG.GenLoop(CG.EnvOf(p, f), c, post, body, n).Ok?
       <==> OptionalOk(p, f, c) && OptionalOk(p, f, post) && StmtOk(p, f, body)
    decreases body, 3
  {
    var env := CG.EnvOf(p, f);
    hide CG.EnvOf;
    TestAccepted(p, f, c, M.Label.Local(n + 1), n + 2);
    var test := CG.GenTest(env, c, M.Label.Local(n + 1), n + 2);
    if test.Ok? {
      StmtAccepted(p, f, body, test.value.next);
      var b := CG.GenStmt(env, body, test.value.next);
      if b.Ok? {
        OptionalAccepted(p, f, post, b.value.next);
      }
    }
  }

  lemma {:induction false} BlockAccepted(p: Program, f: Func, s: Stmt, k: nat, n: nat)
    requires s.Block? && k <= |s.ss| && Declares(f, BlockDecls(s, k))
    ensures CG.GenBlock(CG.EnvOf(p, f), s, k, n).Ok? <==> forall i :: k <= i < |s.ss| ==> StmtOk(p, f, s.ss[i])
    decreases s, 0, |s.ss| - k
  {
    hide CG.EnvOf;
    if k < |s.ss| {
      StmtAccepted(p, f, s.ss[k], n);
      var a := CG.GenStmt(CG.EnvOf(p, f), s.ss[k], n);
      if a.Ok? {
        BlockAccepted(p, f, s, k + 1, a.value.next);
      }
    }
  }

  lemma {:induction false} FunctionsAccepted(p: Program, k: nat, n: nat)
    requires k <= |p.funcs|
    ensures CG.GenFunctions(p, k, n).Ok? <==> forall i :: k <= i < |p.funcs| ==> StmtOk(p, p.funcs[i], p.funcs[i].body)
    decreases |p.funcs| - k
  {
    hide CG.GenStmt, StmtOk, CG.Prologue, CG.EnvOf;
    if k < |p.funcs| {
      var f := p.funcs[k];
      StmtAccepted(p, f, f.body, n);
      var a := CG.GenFunction(p, f, n);
      if a.Ok? {
        FunctionsAccepted(p, k + 1, a.value.next);
      }
    }
  }

  lemma {:induction false} GlobalsAccepted(globs: seq<Global>)
    ensures CG.GenGlobals(globs).Ok? <==> forall i :: 0 <= i < |globs| ==> InitOk(globs[i])
  {
    if globs != [] {
      GlobalsAccepted(globs[1..]);
      assert (forall i :: 0 <= i < |globs| ==> InitOk(globs[i]))
        <==> InitOk(globs[0]) && forall i :: 0 <= i < |globs[1..]| ==> InitOk(globs[1..][i]) by {
        assert forall i :: 1 <= i < |globs| ==> globs[i] == globs[1..][i - 1];
      }
    }
  }

  /** The code generator accepts exactly the programs that are in order. */
  lemma AcceptedIff(p: Program)
    ensures CG.Generate(p).Ok? <==> ProgramOk(p)
  {
    hide CG.GenFunctions, CG.GenGlobals, StmtOk, InitOk;
    FunctionIs(p, "main");
    FunctionsAccepted(p, 0, 0);
    GlobalsAccepted(p.globals);
  }
}
