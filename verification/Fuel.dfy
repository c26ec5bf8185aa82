/** Fuel only bounds the evaluator: a result, once there, is the same with any more fuel. */
module Fuel {
  import opened Words
  import opened Wrappers
  import opened CAst
  import opened CSemantics
  import opened Loader
  import opened ProgramCorrect
  import CG = CodeGen

  lemma {:induction false} MoreAddr(w: World, fr: Frame, e: Expr, s: State, fuel: nat)
    requires Addr(w, fr, e, s, fuel).Some?
    ensures Addr(w, fr, e, s, fuel + 1) == Addr(w, fr, e, s, fuel)
    decreases fuel
  {
    match e
    case Index(b, i) =>
      MoreEvalWord(w, fr, b, s, fuel - 1);
      MoreEvalWord(w, Holding(fr), i, EvalWord(w, fr, b, s, fuel - 1).value.s, fuel - 1);
    case Unary(Star, a) =>
      MoreEvalWord(w, fr, a, s, fuel - 1);
    case _ =>
  }

  lemma {:induction false} MoreEvalWord(w: World, fr: Frame, e: Expr, s: State, fuel: nat)
    requires EvalWord(w, fr, e, s, fuel).Some?
    ensures EvalWord(w, fr, e, s, fuel + 1) == EvalWord(w, fr, e, s, fuel)
    decreases fuel
  {
    MoreEval(w, fr, e, s, fuel - 1);
  }

  lemma {:induction false} MoreEval(w: World, fr: Frame, e: Expr, s: State, fuel: nat)
    requires Eval(w, fr, e, s, fuel).Some?
    ensures Eval(w, fr, e, s, fuel + 1) == Eval(w, fr, e, s, fuel)
    decreases fuel
  {
    hide Addr, EvalWord, EvalAssign, EvalBinary, EvalCall, ReadCell, VarAddr, IsArray;
    match e
    case Index(_, _) =>
      MoreAddr(w, fr, e, s, fuel - 1);
    case Assign(l, r) =>
      MoreEvalAssign(w, fr, l, r, s, fuel - 1);
    case Unary(op, a) =>
      if op == Amp {
        MoreAddr(w, fr, a, s, fuel - 1);
      } else if op == Star {
        MoreAddr(w, fr, e, s, fuel - 1);
      } else {
        MoreEvalWord(w, fr, a, s, fuel - 1);
      }
    case Binary(op, l, r) =>
      MoreEvalBinary(w, fr, op, l, r, s, fuel - 1);
    case Call(f, args) =>
      MoreEvalCall(w, fr, f, args, s, fuel - 1);
    case _ =>
  }

  lemma {:induction false} MoreEvalAssign(w: World, fr: Frame, l: Expr, r: Expr, s: State, fuel: nat)
    requires EvalAssign(w, fr, l, r, s, fuel).Some?
    ensures EvalAssign(w, fr, l, r, s, fuel + 1) == EvalAssign(w, fr, l, r, s, fuel)
    decreases fuel
  {
    hide Addr, EvalWord, VarAddr;
    if l.Var? {
      MoreEvalWord(w, fr, r, s, fuel - 1);
    } else {
      MoreAddr(w, fr, l, s, fuel - 1);
      MoreEvalWord(w, Holding(fr), r, Addr(w, fr, l, s, fuel - 1).value.s, fuel - 1);
    }
  }

  lemma {:induction false} MoreEvalBinary(w: World, fr: Frame, op: BinOp, l: Expr, r: Expr, s: State, fuel: nat)
    requires EvalBinary(w, fr, op, l, r, s, fuel).Some?
    ensures EvalBinary(w, fr, op, l, r, s, fuel + 1) == EvalBinary(w, fr, op, l, r, s, fuel)
    decreases fuel
  {
    hide EvalWord, BinaryValue, Truth;
    MoreEvalWord(w, fr, l, s, fuel - 1);
    var a := EvalWord(w, fr, l, s, fuel - 1).value;
    if op == AndAnd && a.w == 0 {
    } else if op == OrOr && a.w != 0 {
    } else {
      MoreEvalWord(w, if op == AndAnd || op == OrOr then fr else Holding(fr), r, a.s, fuel - 1);
    }
  }

  lemma {:induction false} MoreEvalArgs(w: World, fr: Frame, args: seq<Expr>, s: State, fuel: nat)
    requires EvalArgs(w, fr, args, s, fuel).Some?
    ensures EvalArgs(w, fr, args, s, fuel + 1) == EvalArgs(w, fr, args, s, fuel)
    decreases fuel
  {
    hide EvalWord;
    if args != [] {
      MoreEvalWord(w, fr, args[|args| - 1], s, fuel - 1);
      var a := EvalWord(w, fr, args[|args| - 1], s, fuel - 1).value;
      MoreEvalArgs(w, fr.(sp := fr.sp - 4), args[..|args| - 1], a.s, fuel - 1);
    }
  }

  lemma {:induction false} MoreEvalCall(w: World, fr: Frame, f: string, args: seq<Expr>, s: State, fuel: nat)
    requires EvalCall(w, fr, f, args, s, fuel).Some?
    ensures EvalCall(w, fr, f, args, s, fuel + 1) == EvalCall(w, fr, f, args, s, fuel)
    decreases fuel
  {
    hide EvalWord, EvalArgs, Activate, FuncFind;
    if f == "out" {
      MoreEvalWord(w, fr, args[0], s, fuel - 1);
    } else if f != "in" {
      MoreEvalArgs(w, fr, args, s, fuel - 1);
      var a := EvalArgs(w, fr, args, s, fuel - 1).value;
      MoreActivate(w, fr, FuncFind(w.prog.funcs, f).value, a.vals, a.s, fuel - 1);
    }
  }

  lemma {:induction false} MoreActivate(w: World, fr: Frame, g: Func, vals: seq<Word>, s: State, fuel: nat)
    requires Activate(w, fr, g, vals, s, fuel).Some?
    ensures Activate(w, fr, g, vals, s, fuel + 1) == Activate(w, fr, g, vals, s, fuel)
    decreases fuel
  {
    hide ExecStmt, Callee, Leave, Bound;
    var callee := Callee(fr, g, |vals|);
    MoreExecStmt(w, callee, g.body, s.(mem := s.mem + Bound(callee.fp, vals)), fuel - 1);
  }

  lemma {:induction false} MoreEvalOptional(w: World, fr: Frame, e: Option<Expr>, s: State, fuel: nat)
    requires EvalOptional(w, fr, e, s, fuel).Some?
    ensures EvalOptional(w, fr, e, s, fuel + 1) == EvalOptional(w, fr, e, s, fuel)
    decreases fuel
  {
    hide Eval;
    if e.Some? {
      MoreEval(w, fr, e.value, s, fuel - 1);
    }
  }

  lemma {:induction false} MoreEvalTest(w: World, fr: Frame, c: Option<Expr>, s: State, fuel: nat)
    requires EvalTest(w, fr, c, s, fuel).Some?
    ensures EvalTest(w, fr, c, s, fuel + 1) == EvalTest(w, fr, c, s, fuel)
    decreases fuel
  {
    hide EvalWord;
    if c.Some? {
      MoreEvalWord(w, fr, c.value, s, fuel - 1);
    }
  }

  lemma {:induction false} MoreExecStmt(w: World, fr: Frame, st: Stmt, s: State, fuel: nat)
    requires ExecStmt(w, fr, st, s, fuel).Some?
    ensures ExecStmt(w, fr, st, s, fuel + 1) == ExecStmt(w, fr, st, s, fuel)
    decreases fuel
  {
    hide Eval, EvalWord, EvalOptional, EvalTest, ExecBlock, ExecLoop, WriteCell, SymFind;
    match st
    case Block(ss) =>
      MoreExecBlock(w, fr, ss, s, fuel - 1);
    case VarDecl(_, _, init) =>
      if init.Some? {
        MoreEvalWord(w, fr, init.value, s, fuel - 1);
      }
    case ExprStmt(e) =>
      MoreEval(w, fr, e, s, fuel - 1);
    case Return(e) =>
      MoreEvalOptional(w, fr, e, s, fuel - 1);
    case If(c, t, f) =>
      MoreEvalTest(w, fr, Some(c), s, fuel - 1);
      var r := EvalTest(w, fr, Some(c), s, fuel - 1).value;
      if r.w != 0 {
        MoreExecStmt(w, fr, t, r.s, fuel - 1);
      } else if f.Some? {
        MoreExecStmt(w, fr, f.value, r.s, fuel - 1);
      }
    case While(c, b) =>
      MoreExecLoop(w, fr, Some(c), None, b, s, fuel - 1);
    case For(pre, c, post, b) =>
      if pre.None? {
        MoreExecLoop(w, fr, c, post, b, s, fuel - 1);
      } else {
        MoreExecStmt(w, fr, pre.value, s, fuel - 1);
        var o := ExecStmt(w, fr, pre.value, s, fuel - 1).value;
        if !o.Returned? {
          MoreExecLoop(w, fr, c, post, b, o.s, fuel - 1);
        }
      }
  }

  lemma {:induction false} MoreExecBlock(w: World, fr: Frame, ss: seq<Stmt>, s: State, fuel: nat)
    requires ExecBlock(w, fr, ss, s, fuel).Some?
    ensures ExecBlock(w, fr, ss, s, fuel + 1) == ExecBlock(w, fr, ss, s, fuel)
    decreases fuel
  {
    hide ExecStmt;
    if ss != [] {
      MoreExecStmt(w, fr, ss[0], s, fuel - 1);
      var o := ExecStmt(w, fr, ss[0], s, fuel - 1).value;
      if !o.Returned? {
        MoreExecBlock(w, fr, ss[1..], o.s, fuel - 1);
      }
    }
  }

  lemma {:induction false} MoreExecLoop(w: World, fr: Frame, c: Option<Expr>, post: Option<Expr>, body: Stmt, s: State, fuel: nat)
    requires ExecLoop(w, fr, c, post, body, s, fuel).Some?
    ensures ExecLoop(w, fr, c, post, body, s, fuel + 1) == ExecLoop(w, fr, c, post, body, s, fuel)
    decreases fuel
  {
    hide ExecStmt, EvalTest, EvalOptional;
    MoreEvalTest(w, fr, c, s, fuel - 1);
    var r := EvalTest(w, fr, c, s, fuel - 1).value;
    if r.w != 0 {
      MoreExecStmt(w, fr, body, r.s, fuel - 1);
      var o := ExecStmt(w, fr, body, r.s, fuel - 1).value;
      if !o.Returned? {
        MoreEvalOptional(w, fr, post, o.s, fuel - 1);
        MoreExecLoop(w, fr, c, post, body, EvalOptional(w, fr, post, o.s, fuel - 1).value.s, fuel - 1);
      }
    }
  }

  lemma {:induction false} MoreRun(w: World, input: seq<Word>, fuel: nat, extra: nat)
    requires RunProgram(w, input, fuel).Some?
    ensures RunProgram(w, input, fuel + extra) == RunProgram(w, input, fuel)
    decreases extra
  {
    hide Activate;
    if extra > 0 {
      MoreRun(w, input, fuel, extra - 1);
      var s0 := State(InitialMem(w.prog.globals, w.addr), input, []);
      MoreActivate(w, Frame([], 0, CG.STACK_BASE, s0.mem.Keys, 0), FuncFind(w.prog.funcs, "main").value, [], s0, fuel + extra - 1);
    }
  }

  /** A source program has one result at most, whatever the fuel. */
  lemma RunIsOne(w: World, input: seq<Word>, fuel: nat, fuel': nat)
    requires RunProgram(w, input, fuel).Some? && RunProgram(w, input, fuel').Some?
    ensures RunProgram(w, input, fuel) == RunProgram(w, input, fuel')
  {
    hide RunProgram;
    if fuel <= fuel' {
      MoreRun(w, input, fuel, fuel' - fuel);
    } else {
      MoreRun(w, input, fuel', fuel - fuel');
    }
  }
}
