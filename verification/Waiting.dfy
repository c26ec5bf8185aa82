/** How many words wait on the hardware stack: a bound from the text of the program and the R7 stack it may use. */
module Waiting {
  import A = Arith
  import opened Words
  import opened Wrappers
  import opened CAst
  import opened CSemantics
  import opened Loader
  import opened ProgramCorrect
  import CC = CompilerCorrect
  import CG = CodeGen

  // ----- What the text needs -----

  predicate Lazy(op: BinOp) { op == AndAnd || op == OrOr }

  /** Inside one activation the expression never has more than n operands waiting. */
  predicate Light(e: Expr, n: int)
    decreases e
  {
    0 <= n && match e
      case Int(_) => true
      case Var(_) => true
      case Index(b, i) => Light(b, n) && Light(i, n - 1)
      case Assign(l, r) => Light(l, n) && Light(r, if l.Var? then n else n - 1)
      case Unary(_, a) => Light(a, n)
      case Binary(op, l, r) => Light(l, n) && Light(r, if Lazy(op) then n else n - 1)
      case Call(_, args) => forall i :: 0 <= i < |args| ==> Light(args[i], n)
  }

  predicate LightOptional(e: Option<Expr>, n: int) { 0 <= n && (e.Some? ==> Light(e.value, n)) }

  predicate LightStmt(st: Stmt, n: int)
    decreases st
  {
    0 <= n && match st
      case Block(ss) => forall i :: 0 <= i < |ss| ==> LightStmt(ss[i], n)
      case VarDecl(_, _, init) => LightOptional(init, n)
      case ExprStmt(e) => Light(e, n)
      case Return(e) => LightOptional(e, n)
      case If(c, t, f) => Light(c, n) && LightStmt(t, n) && (f.Some? ==> LightStmt(f.value, n))
      case While(c, b) => Light(c, n) && LightStmt(b, n)
      case For(pre, c, post, b) =>
        (pre.Some? ==> LightStmt(pre.value, n)) && LightOptional(c, n) && LightOptional(post, n) && LightStmt(b, n)
  }

  predicate LightProgram(prog: Program, n: int) {
    0 <= n && forall i :: 0 <= i < |prog.funcs| ==> LightStmt(prog.funcs[i].body, n)
  }

  // ----- What a frame may use -----

  /** An activation takes four bytes of R7 stack at least, and in it u words wait at most, the return address included. */
  function Ceiling(u: nat, sp: int): nat { if CG.STACK_BASE < sp then 0 else A.Times((CG.STACK_BASE - sp) / 4, u) }

  /** n more words fit in, however deep the calls go. */
  ghost predicate Budget(w: World, room: nat, u: nat, fr: Frame, n: int) {
    && 0 <= n && 1 <= u && LightProgram(w.prog, u - 1) && w.limit <= fr.sp <= CG.STACK_BASE
    && fr.waiting + n <= Ceiling(u, fr.sp) && Ceiling(u, w.limit) <= room
  }

  lemma CeilingGrows(u: nat, lo: int, hi: int)
    requires lo <= hi <= CG.STACK_BASE
    ensures Ceiling(u, hi) <= Ceiling(u, lo)
    ensures lo + 4 <= hi ==> Ceiling(u, hi) + u <= Ceiling(u, lo)
  {
    var a, b := (CG.STACK_BASE - hi) / 4, (CG.STACK_BASE - lo) / 4;
    A.TimesMonotone(a, b, u);
    if lo + 4 <= hi {
      A.TimesMonotone(a + 1, b, u);
      assert A.Times(a + 1, u) == A.Times(a, u) + u;
    }
  }

  lemma BudgetRoom(w: World, room: nat, u: nat, fr: Frame, n: int)
    requires Budget(w, room, u, fr, n)
    ensures 0 <= n && fr.waiting + n <= room
  {
    hide Ceiling, LightProgram;
    CeilingGrows(u, w.limit, fr.sp);
  }

  lemma BudgetHolding(w: World, room: nat, u: nat, fr: Frame, n: int)
    requires Budget(w, room, u, fr, n) && 0 <= n - 1
    ensures Budget(w, room, u, Holding(fr), n - 1)
  {
    hide Ceiling, LightProgram;
  }

  lemma BudgetLowered(w: World, room: nat, u: nat, fr: Frame, n: int)
    requires Budget(w, room, u, fr, n) && w.limit <= fr.sp - 4
    ensures Budget(w, room, u, fr.(sp := fr.sp - 4), n)
  {
    hide Ceiling, LightProgram;
    CeilingGrows(u, fr.sp - 4, fr.sp);
  }

  lemma BudgetCallee(w: World, room: nat, u: nat, fr: Frame, n: int, g: Func, k: nat)
    requires Budget(w, room, u, fr, n) && g in w.prog.funcs && w.limit <= Callee(fr, g, k).sp
    ensures var c := Callee(fr, g, k); Budget(w, room, u, c, u - 1) && c.waiting <= room && LightStmt(g.body, u - 1)
  {
    hide Ceiling, TableOf, ParamCells, WordsIn, LightStmt;
    CeilingGrows(u, Callee(fr, g, k).sp, fr.sp);
    CeilingGrows(u, w.limit, Callee(fr, g, k).sp);
  }

  // ----- The evaluation is the same with just that room -----

  lemma {:induction false} EnoughAddr(w: World, room: nat, u: nat, fr: Frame, n: int, e: Expr, s: State, fuel: nat)
    requires Budget(w, room, u, fr, n) && Light(e, n) && Addr(w, fr, e, s, fuel).Some?
    ensures Addr(w.(words := room), fr, e, s, fuel) == Addr(w, fr, e, s, fuel)
    decreases fuel
  {
    hide Budget, EvalWord;
    match e
    case Index(b, i) =>
      EnoughEvalWord(w, room, u, fr, n, b, s, fuel - 1);
      BudgetHolding(w, room, u, fr, n);
      EnoughEvalWord(w, room, u, Holding(fr), n - 1, i, EvalWord(w, fr, b, s, fuel - 1).value.s, fuel - 1);
    case Unary(Star, a) =>
      EnoughEvalWord(w, room, u, fr, n, a, s, fuel - 1);
    case _ =>
  }

  lemma {:induction false} EnoughEvalWord(w: World, room: nat, u: nat, fr: Frame, n: int, e: Expr, s: State, fuel: nat)
    requires Budget(w, room, u, fr, n) && Light(e, n) && EvalWord(w, fr, e, s, fuel).Some?
    ensures EvalWord(w.(words := room), fr, e, s, fuel) == EvalWord(w, fr, e, s, fuel)
    decreases fuel
  {
    hide Budget, Light, Eval;
    BudgetRoom(w, room, u, fr, n);
    EnoughEval(w, room, u, fr, n, e, s, fuel - 1);
  }

  lemma {:induction false} EnoughEval(w: World, room: nat, u: nat, fr: Frame, n: int, e: Expr, s: State, fuel: nat)
    requires Budget(w, room, u, fr, n) && Light(e, n) && Eval(w, fr, e, s, fuel).Some?
    ensures Eval(w.(words := room), fr, e, s, fuel) == Eval(w, fr, e, s, fuel)
    decreases fuel
  {
    hide Budget, Addr, EvalWord, EvalAssign, EvalBinary, EvalCall, ReadCell;
    match e
    case Index(_, _) =>
      EnoughAddr(w, room, u, fr, n, e, s, fuel - 1);
    case Assign(l, r) =>
      EnoughEvalAssign(w, room, u, fr, n, l, r, s, fuel - 1);
    case Unary(op, a) =>
      if op == Amp {
        EnoughAddr(w, room, u, fr, n, a, s, fuel - 1);
      } else if op == Star {
        EnoughAddr(w, room, u, fr, n, e, s, fuel - 1);
      } else {
        EnoughEvalWord(w, room, u, fr, n, a, s, fuel - 1);
      }
    case Binary(op, l, r) =>
      EnoughEvalBinary(w, room, u, fr, n, op, l, r, s, fuel - 1);
    case Call(f, args) =>
      EnoughEvalCall(w, room, u, fr, n, f, args, s, fuel - 1);
    case _ =>
  }

  lemma AssignWhole(w: World, fr: Frame, l: Expr, r: Expr, s: State, fuel: nat, a: WordRes, v: WordRes, t: State)
    requires !l.Var? && fuel > 0 && Addr(w, fr, l, s, fuel - 1) == Some(a)
    requires EvalWord(w, Holding(fr), r, a.s, fuel - 1) == Some(v) && WriteCell(fr, v.s, a.w, v.w) == Some(t)
    ensures EvalAssign(w, fr, l, r, s, fuel) == Some(Res(W(v.w), t))
  {
    hide Addr, EvalWord, WriteCell;
  }

  lemma AssignVarWhole(w: World, fr: Frame, l: Expr, r: Expr, s: State, fuel: nat, v: WordRes, a: Word, t: State)
    requires l.Var? && fuel > 0 && EvalWord(w, fr, r, s, fuel - 1) == Some(v)
    requires VarAddr(w, fr, l.x) == Some(a) && WriteCell(fr, v.s, a, v.w) == Some(t)
    ensures EvalAssign(w, fr, l, r, s, fuel) == Some(Res(W(v.w), t))
  {
    hide VarAddr, EvalWord, WriteCell;
  }

  lemma SameVariable(w: World, room: nat, fr: Frame, x: string)
    ensures VarAddr(w.(words := room), fr, x) == VarAddr(w, fr, x)
  {
  }

  lemma {:induction false} EnoughEvalAssign(w: World, room: nat, u: nat, fr: Frame, n: int, l: Expr, r: Expr, s: State, fuel: nat)
    requires Budget(w, room, u, fr, n) && Light(l, n) && Light(r, if l.Var? then n else n - 1)
    requires EvalAssign(w, fr, l, r, s, fuel).Some?
    ensures EvalAssign(w.(words := room), fr, l, r, s, fuel) == EvalAssign(w, fr, l, r, s, fuel)
    decreases fuel
  {
    hide *;
    if l.Var? {
      CC.AssignVarMeans(w, fr, l, r, s, fuel);
      EnoughEvalWord(w, room, u, fr, n, r, s, fuel - 1);
      SameVariable(w, room, fr, l.x);
      var v, a := EvalWord(w, fr, r, s, fuel - 1).value, VarAddr(w, fr, l.x).value;
      AssignVarWhole(w.(words := room), fr, l, r, s, fuel, v, a, WriteCell(fr, v.s, a, v.w).value);
    } else {
      LightCounts(r, n - 1);
      CC.AssignMeans(w, fr, l, r, s, fuel);
      var a := Addr(w, fr, l, s, fuel - 1).value;
      var v := EvalWord(w, Holding(fr), r, a.s, fuel - 1).value;
      EnoughAddr(w, room, u, fr, n, l, s, fuel - 1);
      BudgetHolding(w, room, u, fr, n);
      EnoughEvalWord(w, room, u, Holding(fr), n - 1, r, a.s, fuel - 1);
      AssignWhole(w.(words := room), fr, l, r, s, fuel, a, v, WriteCell(fr, v.s, a.w, v.w).value);
    }
  }

  lemma LightCounts(e: Expr, n: int)
    requires Light(e, n)
    ensures 0 <= n
  {
  }

  lemma {:induction false} EnoughEvalBinary(w: World, room: nat, u: nat, fr: Frame, n: int, op: BinOp, l: Expr, r: Expr, s: State,
      fuel: nat)
    requires Budget(w, room, u, fr, n) && Light(l, n) && Light(r, if Lazy(op) then n else n - 1)
    requires EvalBinary(w, fr, op, l, r, s, fuel).Some?
    ensures EvalBinary(w.(words := room), fr, op, l, r, s, fuel) == EvalBinary(w, fr, op, l, r, s, fuel)
    decreases fuel, 1
  {
    hide Budget, Light, EvalBinary;
    if Lazy(op) {
      EnoughLazy(w, room, u, fr, n, op, l, r, s, fuel);
    } else {
      EnoughEager(w, room, u, fr, n, op, l, r, s, fuel);
    }
  }

  lemma {:induction false} EnoughLazy(w: World, room: nat, u: nat, fr: Frame, n: int, op: BinOp, l: Expr, r: Expr, s: State, fuel: nat)
    requires Budget(w, room, u, fr, n) && Lazy(op) && Light(l, n) && Light(r, n) && EvalBinary(w, fr, op, l, r, s, fuel).Some?
    ensures EvalBinary(w.(words := room), fr, op, l, r, s, fuel) == EvalBinary(w, fr, op, l, r, s, fuel)
    decreases fuel, 0
  {
    hide Budget, Light, EvalWord, BinaryValue, Truth;
    EnoughEvalWord(w, room, u, fr, n, l, s, fuel - 1);
    var a := EvalWord(w, fr, l, s, fuel - 1).value;
    if (op == AndAnd) == (a.w != 0) {
      EnoughEvalWord(w, room, u, fr, n, r, a.s, fuel - 1);
    }
  }

  /** Both operands of a binary operator other than && and ||. */
  lemma EagerParts(w: World, fr: Frame, op: BinOp, l: Expr, r: Expr, s: State, fuel: nat) returns (a: WordRes, b: WordRes, v: Word)
    requires !Lazy(op) && EvalBinary(w, fr, op, l, r, s, fuel).Some?
    ensures fuel > 0 && EvalWord(w, fr, l, s, fuel - 1) == Some(a) && EvalWord(w, Holding(fr), r, a.s, fuel - 1) == Some(b)
    ensures BinaryValue(op, a.w, b.w) == Some(v) && EvalBinary(w, fr, op, l, r, s, fuel) == Some(Res(W(v), b.s))
  {
    hide EvalWord, BinaryValue;
    a := EvalWord(w, fr, l, s, fuel - 1).value;
    b := EvalWord(w, Holding(fr), r, a.s, fuel - 1).value;
    v := BinaryValue(op, a.w, b.w).value;
  }

  lemma EagerWhole(w: World, fr: Frame, op: BinOp, l: Expr, r: Expr, s: State, fuel: nat, a: WordRes, b: WordRes, v: Word)
    requires !Lazy(op) && fuel > 0 && EvalWord(w, fr, l, s, fuel - 1) == Some(a)
    requires EvalWord(w, Holding(fr), r, a.s, fuel - 1) == Some(b) && BinaryValue(op, a.w, b.w) == Some(v)
    ensures EvalBinary(w, fr, op, l, r, s, fuel) == Some(Res(W(v), b.s))
  {
    hide EvalWord, BinaryValue;
  }

  lemma {:induction false} EnoughEager(w: World, room: nat, u: nat, fr: Frame, n: int, op: BinOp, l: Expr, r: Expr, s: State, fuel: nat)
    requires Budget(w, room, u, fr, n) && !Lazy(op) && Light(l, n) && Light(r, n - 1) && EvalBinary(w, fr, op, l, r, s, fuel).Some?
    ensures EvalBinary(w.(words := room), fr, op, l, r, s, fuel) == EvalBinary(w, fr, op, l, r, s, fuel)
    decreases fuel, 0
  {
    hide *;
    LightCounts(r, n - 1);
    var a, b, v := EagerParts(w, fr, op, l, r, s, fuel);
    EnoughEvalWord(w, room, u, fr, n, l, s, fuel - 1);
    BudgetHolding(w, room, u, fr, n);
    EnoughEvalWord(w, room, u, Holding(fr), n - 1, r, a.s, fuel - 1);
    EagerWhole(w.(words := room), fr, op, l, r, s, fuel, a, b, v);
  }

  lemma {:induction false} EnoughEvalArgs(w: World, room: nat, u: nat, fr: Frame, n: int, args: seq<Expr>, s: State, fuel: nat)
    requires Budget(w, room, u, fr, n) && (forall i :: 0 <= i < |args| ==> Light(args[i], n))
    requires EvalArgs(w, fr, args, s, fuel).Some?
    ensures EvalArgs(w.(words := room), fr, args, s, fuel) == EvalArgs(w, fr, args, s, fuel)
    decreases fuel
  {
    hide Budget, Light, EvalWord;
    if args != [] {
      EnoughEvalWord(w, room, u, fr, n, args[|args| - 1], s, fuel - 1);
      var a := EvalWord(w, fr, args[|args| - 1], s, fuel - 1).value;
      BudgetLowered(w, room, u, fr, n);
      EnoughEvalArgs(w, room, u, fr.(sp := fr.sp - 4), n, args[..|args| - 1], a.s, fuel - 1);
    }
  }

  lemma {:induction false} EnoughEvalCall(w: World, room: nat, u: nat, fr: Frame, n: int, f: string, args: seq<Expr>, s: State,
      fuel: nat)
    requires Budget(w, room, u, fr, n) && (forall i :: 0 <= i < |args| ==> Light(args[i], n))
    requires EvalCall(w, fr, f, args, s, fuel).Some?
    ensures EvalCall(w.(words := room), fr, f, args, s, fuel) == EvalCall(w, fr, f, args, s, fuel)
    decreases fuel
  {
    hide Budget, Light, EvalWord, EvalArgs, Activate;
    if f == "out" {
      EnoughEvalWord(w, room, u, fr, n, args[0], s, fuel - 1);
    } else if f != "in" {
      EnoughEvalArgs(w, room, u, fr, n, args, s, fuel - 1);
      var a := EvalArgs(w, fr, args, s, fuel - 1).value;
      EnoughActivate(w, room, u, fr, n, FuncFind(w.prog.funcs, f).value, a.vals, a.s, fuel - 1);
    }
  }

  lemma {:induction false} EnoughActivate(w: World, room: nat, u: nat, fr: Frame, n: int, g: Func, vals: seq<Word>, s: State,
      fuel: nat)
    requires Budget(w, room, u, fr, n) && g in w.prog.funcs && Activate(w, fr, g, vals, s, fuel).Some?
    ensures Activate(w.(words := room), fr, g, vals, s, fuel) == Activate(w, fr, g, vals, s, fuel)
    decreases fuel
  {
    hide Budget, LightStmt, ExecStmt, Callee, Leave, Bound;
    var c := Callee(fr, g, |vals|);
    BudgetCallee(w, room, u, fr, n, g, |vals|);
    EnoughExecStmt(w, room, u, c, u - 1, g.body, s.(mem := s.mem + Bound(c.fp, vals)), fuel - 1);
  }

  lemma {:induction false} EnoughEvalOptional(w: World, room: nat, u: nat, fr: Frame, n: int, e: Option<Expr>, s: State, fuel: nat)
    requires Budget(w, room, u, fr, n) && LightOptional(e, n) && EvalOptional(w, fr, e, s, fuel).Some?
    ensures EvalOptional(w.(words := room), fr, e, s, fuel) == EvalOptional(w, fr, e, s, fuel)
    decreases fuel
  {
    hide Budget, Light, Eval;
    if e.Some? {
      EnoughEval(w, room, u, fr, n, e.value, s, fuel - 1);
    }
  }

  lemma {:induction false} EnoughEvalTest(w: World, room: nat, u: nat, fr: Frame, n: int, c: Option<Expr>, s: State, fuel: nat)
    requires Budget(w, room, u, fr, n) && LightOptional(c, n) && EvalTest(w, fr, c, s, fuel).Some?
    ensures EvalTest(w.(words := room), fr, c, s, fuel) == EvalTest(w, fr, c, s, fuel)
    decreases fuel
  {
    hide Budget, Light, EvalWord;
    if c.Some? {
      EnoughEvalWord(w, room, u, fr, n, c.value, s, fuel - 1);
    }
  }

  lemma {:induction false} EnoughExecStmt(w: World, room: nat, u: nat, fr: Frame, n: int, st: Stmt, s: State, fuel: nat)
    requires Budget(w, room, u, fr, n) && LightStmt(st, n) && ExecStmt(w, fr, st, s, fuel).Some?
    ensures ExecStmt(w.(words := room), fr, st, s, fuel) == ExecStmt(w, fr, st, s, fuel)
    decreases fuel
  {
    hide Budget, Light, Eval, EvalWord, EvalOptional, EvalTest, ExecBlock, ExecLoop, WriteCell, SymFind;
    match st
    case Block(ss) =>
      EnoughExecBlock(w, room, u, fr, n, ss, s, fuel - 1);
    case VarDecl(_, _, init) =>
      if init.Some? {
        EnoughEvalWord(w, room, u, fr, n, init.value, s, fuel - 1);
      }
    case ExprStmt(e) =>
      EnoughEval(w, room, u, fr, n, e, s, fuel - 1);
    case Return(e) =>
      EnoughEvalOptional(w, room, u, fr, n, e, s, fuel - 1);
    case If(c, t, f) =>
      EnoughEvalTest(w, room, u, fr, n, Some(c), s, fuel - 1);
      var r := EvalTest(w, fr, Some(c), s, fuel - 1).value;
      if r.w != 0 {
        EnoughExecStmt(w, room, u, fr, n, t, r.s, fuel - 1);
      } else if f.Some? {
        EnoughExecStmt(w, room, u, fr, n, f.value, r.s, fuel - 1);
      }
    case While(c, b) =>
      EnoughExecLoop(w, room, u, fr, n, Some(c), None, b, s, fuel - 1);
    case For(pre, c, post, b) =>
      if pre.None? {
        EnoughExecLoop(w, room, u, fr, n, c, post, b, s, fuel - 1);
      } else {
        EnoughExecStmt(w, room, u, fr, n, pre.value, s, fuel - 1);
        var o := ExecStmt(w, fr, pre.value, s, fuel - 1).value;
        if !o.Returned? {
          EnoughExecLoop(w, room, u, fr, n, c, post, b, o.s, fuel - 1);
        }
      }
  }

  lemma {:induction false} EnoughExecBlock(w: World, room: nat, u: nat, fr: Frame, n: int, ss: seq<Stmt>, s: State, fuel: nat)
    requires Budget(w, room, u, fr, n) && (forall i :: 0 <= i < |ss| ==> LightStmt(ss[i], n))
    requires ExecBlock(w, fr, ss, s, fuel).Some?
    ensures ExecBlock(w.(words := room), fr, ss, s, fuel) == ExecBlock(w, fr, ss, s, fuel)
    decreases fuel
  {
    hide Budget, LightStmt, ExecStmt;
    if ss != [] {
      EnoughExecStmt(w, room, u, fr, n, ss[0], s, fuel - 1);
      var o := ExecStmt(w, fr, ss[0], s, fuel - 1).value;
      if !o.Returned? {
        EnoughExecBlock(w, room, u, fr, n, ss[1..], o.s, fuel - 1);
      }
    }
  }

  lemma {:induction false} EnoughExecLoop(w: World, room: nat, u: nat, fr: Frame, n: int, c: Option<Expr>, post: Option<Expr>,
      body: Stmt, s: State, fuel: nat)
    requires Budget(w, room, u, fr, n) && LightOptional(c, n) && LightOptional(post, n) && LightStmt(body, n)
    requires ExecLoop(w, fr, c, post, body, s, fuel).Some?
    ensures ExecLoop(w.(words := room), fr, c, post, body, s, fuel) == ExecLoop(w, fr, c, post, body, s, fuel)
    decreases fuel
  {
    hide Budget, LightOptional, LightStmt, ExecStmt, EvalTest, EvalOptional;
    EnoughEvalTest(w, room, u, fr, n, c, s, fuel - 1);
    var r := EvalTest(w, fr, c, s, fuel - 1).value;
    if r.w != 0 {
      EnoughExecStmt(w, room, u, fr, n, body, r.s, fuel - 1);
      var o := ExecStmt(w, fr, body, r.s, fuel - 1).value;
      if !o.Returned? {
        EnoughEvalOptional(w, room, u, fr, n, post, o.s, fuel - 1);
        EnoughExecLoop(w, room, u, fr, n, c, post, body, EvalOptional(w, fr, post, o.s, fuel - 1).value.s, fuel - 1);
      }
    }
  }

  /** A program in whose activations less than u operands wait, and whose R7 stack may go down to the limit, needs no more words
      than this: known before it runs. */
  lemma WordsSuffice(w: World, room: nat, u: nat, input: seq<Word>, fuel: nat)
    requires 1 <= u && LightProgram(w.prog, u - 1) && w.limit <= CG.STACK_BASE && Ceiling(u, w.limit) <= room
    requires RunProgram(w, input, fuel).Some?
    ensures RunProgram(w.(words := room), input, fuel) == RunProgram(w, input, fuel)
  {
    var s0 := State(InitialMem(w.prog.globals, w.addr), input, []);
    var fr := Frame([], 0, CG.STACK_BASE, s0.mem.Keys, 0);
    assert Ceiling(u, CG.STACK_BASE) == 0;
    hide Activate, InitialMem, LightProgram, Ceiling;
    EnoughActivate(w, room, u, fr, 0, FuncFind(w.prog.funcs, "main").value, [], s0, fuel);
  }
}
