/** The code generator at work: one growing line buffer, one label counter, one symbol table. */
module CodeGenerator {
  import opened Wrappers
  import opened CAst
  import opened M = Machine
  import Isa
  import CG = CodeGen
  import EM = Emission
  import TP = TextPeephole
  import TC = TextCompiler

  type Failure = Option<CG.Error>

  /** The buffer grew by exactly the specified code and the counter moved to the specified label, or the same error came up. */
  predicate Emitted(before: seq<Line>, after: seq<Line>, next: nat, spec: CG.Gen, err: Failure) {
    match spec
    case Ok(f) => err.None? && after == before + f.code && next == f.next
    case Err(e) => err == Some(e)
  }

  lemma Flatten2(o: seq<Line>, a: seq<Line>, b: seq<Line>)
    ensures (o + a) + b == o + (a + b)
  {
  }

  lemma Flatten3(o: seq<Line>, a: seq<Line>, b: seq<Line>, c: seq<Line>)
    ensures ((o + a) + b) + c == o + (a + (b + c))
  {
    Flatten2(o + a, b, c);
    Flatten2(o, a, b + c);
  }

  lemma Flatten4(o: seq<Line>, a: seq<Line>, b: seq<Line>, c: seq<Line>, d: seq<Line>)
    ensures (((o + a) + b) + c) + d == o + (a + (b + (c + d)))
  {
    Flatten3(o + a, b, c, d);
    Flatten2(o, a, b + (c + d));
  }

  lemma Flatten5(o: seq<Line>, a: seq<Line>, b: seq<Line>, c: seq<Line>, d: seq<Line>, e: seq<Line>)
    ensures ((((o + a) + b) + c) + d) + e == o + (a + (b + (c + (d + e))))
  {
    Flatten4(o + a, b, c, d, e);
    Flatten2(o, a, b + (c + (d + e)));
  }

  class Generator {
    const prog: Program
    var lines: seq<Line>
    var text: seq<string>
    var nextLabel: nat
    var sym: seq<Symbol>
    var epi: Label

    constructor (p: Program)
      ensures prog == p && lines == [] && text == [] && nextLabel == 0 && sym == []
    {
      prog, lines, text, nextLabel, sym, epi := p, [], [], 0, [], Named("");
    }

    function Env(): CG.Env
      reads `sym, `epi
    {
      CG.Env(prog, sym, epi)
    }

    method Append(code: seq<Line>)
      modifies `lines
      ensures lines == old(lines) + code
    {
      lines := lines + code;
    }

    method NewLabel() returns (l: nat)
      modifies `nextLabel
      ensures l == old(nextLabel) && nextLabel == l + 1
    {
      l := nextLabel;
      nextLabel := nextLabel + 1;
    }

    // ----- Expressions -----

    method GenAddr(e: Expr) returns (err: Failure)
      modifies `lines, `nextLabel
      ensures Emitted(old(lines), lines, nextLabel, CG.GenAddr(Env(), e, old(nextLabel)), err)
      decreases e, 1
    {
      hide CG.GenExpr;
      match e {
        case Var(x) =>
          match CG.PlaceOf(Env(), x) {
            case Unknown => return Some(CG.UndefinedVariable(x));
            case InFrame(off, _) => Append(CG.FrameAddress(off));
            case Static(_) => Append([Op(LoadA(0, x))]);
          }
        case Index(b, i) =>
          err := GenExpr(b);
          if err.Some? { return; }
          Append(CG.PUSH0);
          err := GenExpr(i);
          if err.Some? { return; }
          Append(CG.INDEXED);
          ghost var cb := CG.GenExpr(Env(), b, old(nextLabel)).value;
          Flatten4(old(lines), cb.code, CG.PUSH0, CG.GenExpr(Env(), i, cb.next).value.code, CG.INDEXED);
        case Unary(op, a) =>
          if op != Star { return Some(CG.NotAnLvalue); }
          err := GenExpr(a);
          return;
        case _ => return Some(CG.NotAnLvalue);
      }
      err := None;
    }

    method GenBinary(e: Expr) returns (err: Failure)
      requires e.Binary?
      modifies `lines, `nextLabel
      ensures Emitted(old(lines), lines, nextLabel, CG.GenBinary(Env(), e, old(nextLabel)), err)
      decreases e, 2
    {
      if e.op == AndAnd || e.op == OrOr {
        err := GenShortCircuit(e);
      } else {
        err := GenOperator(e);
      }
    }

    /** gen_and and gen_or: labels first, then both operands with a test each. */
    method GenShortCircuit(e: Expr) returns (err: Failure)
      requires e.Binary? && (e.op == AndAnd || e.op == OrOr)
      modifies `lines, `nextLabel
      ensures Emitted(old(lines), lines, nextLabel, CG.GenBinary(Env(), e, old(nextLabel)), err)
      decreases e, 0
    {
      hide CG.GenExpr, CG.Choose;
      var out := NewLabel();
      var end := NewLabel();
      ghost var n := old(nextLabel);
      err := GenExpr(e.l);
      if err.Some? { return; }
      var test := if e.op == AndAnd then CG.Test(Local(out)) else CG.TestNot(Local(out));
      Append(test);
      err := GenExpr(e.r);
      if err.Some? { return; }
      Append(test);
      var choose := if e.op == AndAnd then CG.Choose(1, out, 0, end) else CG.Choose(0, out, 1, end);
      Append(choose);
      ghost var ca := CG.GenExpr(Env(), e.l, n + 2).value;
      Flatten5(old(lines), ca.code, test, CG.GenExpr(Env(), e.r, ca.next).value.code, test, choose);
    }

    /** gen_cmp and the arithmetic operators: both operands, the left one saved, then the operation. */
    method GenOperator(e: Expr) returns (err: Failure)
      requires e.Binary? && e.op != AndAnd && e.op != OrOr
      modifies `lines, `nextLabel
      ensures Emitted(old(lines), lines, nextLabel, CG.GenBinary(Env(), e, old(nextLabel)), err)
      decreases e, 0
    {
      hide CG.GenExpr, CG.Compare, CG.Arithmetic;
      err := GenExpr(e.l);
      if err.Some? { return; }
      Append(CG.PUSH0);
      err := GenExpr(e.r);
      if err.Some? { return; }
      ghost var ca := CG.GenExpr(Env(), e.l, old(nextLabel)).value;
      ghost var cb := CG.GenExpr(Env(), e.r, ca.next).value;
      if CG.IsComparison(e.op) {
        var lset := NewLabel();
        var ldone := NewLabel();
        Append(CG.Compare(e.op, lset));
        Flatten4(old(lines), ca.code, CG.PUSH0, cb.code, CG.Compare(e.op, lset));
      } else {
        Append(CG.Arithmetic(e.op));
        Flatten4(old(lines), ca.code, CG.PUSH0, cb.code, CG.Arithmetic(e.op));
      }
    }

    /** The argument loop of gen_call, from the last to the first. */
    method GenArgs(e: Expr) returns (err: Failure)
      requires e.Call?
      modifies `lines, `nextLabel
      ensures Emitted(old(lines), lines, nextLabel, CG.GenArgs(Env(), e, |e.args|, old(nextLabel)), err)
      decreases e, 1
    {
      hide CG.GenExpr;
      var k: nat := |e.args|;
      ghost var env, n := Env(), nextLabel;
      ghost var done: seq<Line> := [];
      PrefixedByNothing(CG.GenArgs(env, e, k, n));
      while k > 0
        invariant k <= |e.args| && lines == old(lines) + done && Env() == env
        invariant CG.GenArgs(env, e, |e.args|, n) == Prefixed(done, CG.GenArgs(env, e, k, nextLabel))
      {
        k := k - 1;
        ghost var n1 := nextLabel;
        err := GenExpr(e.args[k]);
        if err.Some? { return; }
        Append(CG.PUSH_ARG);
        ghost var a := CG.GenExpr(env, e.args[k], n1).value;
        ArgPrefixed(env, e, k, n1, done);
        Flatten3(old(lines), done, a.code, CG.PUSH_ARG);
        done := done + (a.code + CG.PUSH_ARG);
      }
      err := None;
      assert done + [] == done;
    }

    method GenCall(e: Expr) returns (err: Failure)
      requires e.Call?
      modifies `lines, `nextLabel
      ensures Emitted(old(lines), lines, nextLabel, CG.GenCall(Env(), e, old(nextLabel)), err)
      decreases e, 2
    {
      hide CG.GenExpr, CG.GenArgs;
      if e.f == "out" {
        if |e.args| != 1 { return Some(CG.WrongArguments(e.f)); }
        err := GenExpr(e.args[0]);
        if err.Some? { return; }
        Append([Op(Out(0))]);
        Flatten2(old(lines), CG.GenExpr(Env(), e.args[0], old(nextLabel)).value.code, [Op(Out(0))]);
      } else if e.f == "in" {
        Append([Op(In(0))]);
        err := None;
      } else {
        var g := FuncFind(prog.funcs, e.f);
        if g.None? { return Some(CG.UndefinedFunction(e.f)); }
        if |e.args| != |g.value.params| { return Some(CG.WrongArguments(e.f)); }
        err := GenArgs(e);
        if err.Some? { return; }
        Append([Op(Instr.Call(Named(e.f)))] + CG.DropArgs(|e.args|));
        Flatten2(old(lines), CG.GenArgs(Env(), e, |e.args|, old(nextLabel)).value.code,
                 [Op(Instr.Call(Named(e.f)))] + CG.DropArgs(|e.args|));
      }
    }

    method GenAssign(e: Expr) returns (err: Failure)
      requires e.Assign?
      modifies `lines, `nextLabel
      ensures Emitted(old(lines), lines, nextLabel, CG.GenAssign(Env(), e, old(nextLabel)), err)
      decreases e, 2
    {
      hide CG.GenExpr, CG.GenAddr;
      if e.lhs.Var? {
        var place := CG.PlaceOf(Env(), e.lhs.x);
        if place.Unknown? { return Some(CG.UndefinedVariable(e.lhs.x)); }
        if place.isArray { return Some(CG.AssignToArray); }
        err := GenExpr(e.rhs);
        if err.Some? { return; }
        var tail := if place.InFrame? then [Op(Store(FP, place.off, 0))] else [Op(LoadA(1, e.lhs.x)), Op(Store(1, 0, 0))];
        Append(tail);
        Flatten2(old(lines), CG.GenExpr(Env(), e.rhs, old(nextLabel)).value.code, tail);
      } else if e.lhs.Index? || (e.lhs.Unary? && e.lhs.uop == Star) {
        err := GenAddr(e.lhs);
        if err.Some? { return; }
        Append(CG.PUSH0);
        err := GenExpr(e.rhs);
        if err.Some? { return; }
        Append([Op(Pop(1)), Op(Store(1, 0, 0))]);
        ghost var ca := CG.GenAddr(Env(), e.lhs, old(nextLabel)).value;
        Flatten4(old(lines), ca.code, CG.PUSH0, CG.GenExpr(Env(), e.rhs, ca.next).value.code, [Op(Pop(1)), Op(Store(1, 0, 0))]);
      } else {
        return Some(CG.BadTarget);
      }
    }

    method GenUnary(e: Expr) returns (err: Failure)
      requires e.Unary?
      modifies `lines, `nextLabel
      ensures Emitted(old(lines), lines, nextLabel, CG.GenExpr(Env(), e, old(nextLabel)), err)
      decreases e, 2
    {
      if e.uop == Amp {
        err := GenAddr(e.arg);
      } else if e.uop == Star {
        err := GenAddr(e);
        if err.Some? { return; }
        Append(CG.FETCH);
        Flatten2(old(lines), CG.GenAddr(Env(), e, old(nextLabel)).value.code, CG.FETCH);
      } else {
        err := GenExpr(e.arg);
        if err.Some? { return; }
        var end := nextLabel;
        if e.uop == Bang { end := NewLabel(); }
        Append(CG.Negate(e.uop, end));
        Flatten2(old(lines), CG.GenExpr(Env(), e.arg, old(nextLabel)).value.code, CG.Negate(e.uop, end));
      }
    }

    method GenExpr(e: Expr) returns (err: Failure)
      modifies `lines, `nextLabel
      ensures Emitted(old(lines), lines, nextLabel, CG.GenExpr(Env(), e, old(nextLabel)), err)
      decreases e, 3
    {
      hide CG.GenAssign, CG.GenBinary, CG.GenCall;
      match e {
        case Int(v) =>
          if v < Isa.IMM_MIN || Isa.IMM_MAX < v { return Some(CG.LiteralTooLarge(v)); }
          Append([Op(LoadI(0, v))]);
          err := None;
        case Var(x) =>
          var place := CG.PlaceOf(Env(), x);
          if place.Unknown? { return Some(CG.UndefinedVariable(x)); }
          if place.isArray {
            err := GenAddr(e);
          } else {
            Append(if place.InFrame? then [Op(Load(0, FP, place.off))] else [Op(LoadA(0, x)), Op(Load(0, 0, 0))]);
            err := None;
          }
        case Index(_, _) =>
          err := GenAddr(e);
          if err.Some? { return; }
          Append(CG.FETCH);
          Flatten2(old(lines), CG.GenAddr(Env(), e, old(nextLabel)).value.code, CG.FETCH);
        case Assign(_, _) => err := GenAssign(e);
        case Unary(_, _) => err := GenUnary(e);
        case Binary(_, _, _) => err := GenBinary(e);
        case Call(_, _) => err := GenCall(e);
      }
    }

    // ----- Statements -----

    method GenOptional(e: Option<Expr>) returns (err: Failure)
      modifies `lines, `nextLabel
      ensures Emitted(old(lines), lines, nextLabel, CG.GenOptional(Env(), e, old(nextLabel)), err)
    {
      hide CG.GenExpr;
      err := None;
      if e.Some? { err := GenExpr(e.value); }
    }

    /** gen_cond_false, where there is a condition. */
    method GenTest(c: Option<Expr>, l: Label) returns (err: Failure)
      modifies `lines, `nextLabel
      ensures Emitted(old(lines), lines, nextLabel, CG.GenTest(Env(), c, l, old(nextLabel)), err)
    {
      hide CG.GenExpr;
      err := None;
      if c.Some? {
        err := GenExpr(c.value);
        if err.Some? { return; }
        Append(CG.Test(l));
        Flatten2(old(lines), CG.GenExpr(Env(), c.value, old(nextLabel)).value.code, CG.Test(l));
      }
    }

    method GenBlock(s: Stmt) returns (err: Failure)
      requires s.Block?
      modifies `lines, `nextLabel
      ensures Emitted(old(lines), lines, nextLabel, CG.GenBlock(Env(), s, 0, old(nextLabel)), err)
      decreases s, 0
    {
      hide CG.GenStmt;
      ghost var env, n := Env(), nextLabel;
      ghost var done: seq<Line> := [];
      PrefixedByNothing(CG.GenBlock(env, s, 0, n));
      for k := 0 to |s.ss|
        invariant lines == old(lines) + done && Env() == env
        invariant CG.GenBlock(env, s, 0, n) == Prefixed(done, CG.GenBlock(env, s, k, nextLabel))
      {
        ghost var n1 := nextLabel;
        err := GenStmt(s.ss[k]);
        if err.Some? { return; }
        ghost var a := CG.GenStmt(env, s.ss[k], n1).value;
        BlockPrefixed(env, s, k, n1, done);
        Flatten2(old(lines), done, a.code);
        done := done + a.code;
      }
      err := None;
      assert done + [] == done;
    }

    method GenVarDecl(s: Stmt) returns (err: Failure)
      requires s.VarDecl?
      modifies `lines, `nextLabel
      ensures Emitted(old(lines), lines, nextLabel, CG.GenStmt(Env(), s, old(nextLabel)), err)
    {
      hide CG.GenExpr;
      err := None;
      if s.init.Some? {
        var y := SymFind(sym, s.x);
        if y.None? { return Some(CG.UndefinedVariable(s.x)); }
        err := GenExpr(s.init.value);
        if err.Some? { return; }
        Append([Op(Store(FP, y.value.off, 0))]);
        Flatten2(old(lines), CG.GenExpr(Env(), s.init.value, old(nextLabel)).value.code, [Op(Store(FP, y.value.off, 0))]);
      }
    }

    method GenReturn(e: Option<Expr>) returns (err: Failure)
      modifies `lines, `nextLabel
      ensures Emitted(old(lines), lines, nextLabel, CG.GenStmt(Env(), Return(e), old(nextLabel)), err)
    {
      hide CG.GenOptional;
      err := GenOptional(e);
      if err.Some? { return; }
      Append([Op(Jmp(epi))]);
      Flatten2(old(lines), CG.GenOptional(Env(), e, old(nextLabel)).value.code, [Op(Jmp(epi))]);
    }

    method GenIf(c: Expr, t: Stmt) returns (err: Failure)
      modifies `lines, `nextLabel
      ensures Emitted(old(lines), lines, nextLabel, CG.GenStmt(Env(), If(c, t, None), old(nextLabel)), err)
      decreases If(c, t, None), 0
    {
      hide CG.GenTest;
      IfTests(Env(), c, t, nextLabel);
      var end := NewLabel();
      err := GenTest(Some(c), Local(end));
      if err.Some? { return; }
      err := GenStmt(t);
      if err.Some? { return; }
      Append([Lab(Local(end))]);
      ghost var cr := CG.GenTest(Env(), Some(c), Local(end), end + 1).value;
      Flatten3(old(lines), cr.code, CG.GenStmt(Env(), t, cr.next).value.code, [Lab(Local(end))]);
    }

    method GenIfElse(c: Expr, t: Stmt, f: Stmt) returns (err: Failure)
      modifies `lines, `nextLabel
      ensures Emitted(old(lines), lines, nextLabel, CG.GenStmt(Env(), If(c, t, Some(f)), old(nextLabel)), err)
      decreases If(c, t, Some(f)), 0
    {
      IfElseTests(Env(), c, t, f, nextLabel);
      hide CG.GenTest, CG.GenStmt;
      var lelse := NewLabel();
      var end := NewLabel();
      err := GenTest(Some(c), Local(lelse));
      if err.Some? { return; }
      err := GenStmt(t);
      if err.Some? { return; }
      Append([Op(Jmp(Local(end))), Lab(Local(lelse))]);
      err := GenStmt(f);
      if err.Some? { return; }
      Append([Lab(Local(end))]);
      ghost var cr := CG.GenTest(Env(), Some(c), Local(lelse), lelse + 2).value;
      ghost var ca := CG.GenStmt(Env(), t, cr.next).value;
      Flatten5(old(lines), cr.code, ca.code, [Op(Jmp(Local(end))), Lab(Local(lelse))],
               CG.GenStmt(Env(), f, ca.next).value.code, [Lab(Local(end))]);
    }

    method GenLoop(c: Option<Expr>, post: Option<Expr>, body: Stmt) returns (err: Failure)
      modifies `lines, `nextLabel
      ensures Emitted(old(lines), lines, nextLabel, CG.GenLoop(Env(), c, post, body, old(nextLabel)), err)
      decreases body, 3
    {
      hide CG.GenTest, CG.GenStmt, CG.GenOptional;
      var top := NewLabel();
      var end := NewLabel();
      Append([Lab(Local(top))]);
      err := GenTest(c, Local(end));
      if err.Some? { return; }
      err := GenStmt(body);
      if err.Some? { return; }
      err := GenOptional(post);
      if err.Some? { return; }
      Append([Op(Jmp(Local(top))), Lab(Local(end))]);
      ghost var ct := CG.GenTest(Env(), c, Local(end), top + 2).value;
      ghost var cb := CG.GenStmt(Env(), body, ct.next).value;
      Flatten5(old(lines), [Lab(Local(top))], ct.code, cb.code, CG.GenOptional(Env(), post, cb.next).value.code,
               [Op(Jmp(Local(top))), Lab(Local(end))]);
    }

    method GenFor(s: Stmt) returns (err: Failure)
      requires s.For?
      modifies `lines, `nextLabel
      ensures Emitted(old(lines), lines, nextLabel, CG.GenStmt(Env(), s, old(nextLabel)), err)
      decreases s, 1
    {
      ghost var env, n := Env(), nextLabel;
      if s.pre.None? {
        err := GenLoop(s.cond, s.post, s.body);
      } else {
        hide CG.GenLoop;
        err := GenStmt(s.pre.value);
        if err.Some? { return; }
        err := GenLoop(s.cond, s.post, s.body);
        if err.Some? { return; }
        ghost var ca := CG.GenStmt(env, s.pre.value, n).value;
        Flatten2(old(lines), ca.code, CG.GenLoop(env, s.cond, s.post, s.body, ca.next).value.code);
      }
    }

    method GenStmt(s: Stmt) returns (err: Failure)
      modifies `lines, `nextLabel
      ensures Emitted(old(lines), lines, nextLabel, CG.GenStmt(Env(), s, old(nextLabel)), err)
      decreases s, 2
    {
      hide CG.GenExpr, CG.GenBlock, CG.GenLoop, CG.GenOptional, CG.GenTest;
      match s {
        case Block(_) => err := GenBlock(s);
        case VarDecl(_, _, _) => err := GenVarDecl(s);
        case ExprStmt(e) => err := GenExpr(e);
        case Return(e) => err := GenReturn(e);
        case If(c, t, f) =>
          if f.Some? {
            err := GenIfElse(c, t, f.value);
          } else {
            err := GenIf(c, t);
          }
        case While(c, b) => err := GenLoop(Some(c), None, b);
        case For(_, _, _, _) => err := GenFor(s);
      }
    }

    // ----- Functions -----

    /** Adds the locals of a statement to the symbol table and counts their bytes. */
    method CollectLocals(s: Stmt, bytes: nat) returns (more: nat)
      modifies `sym
      ensures Table(sym, more) == Collect(s, Table(old(sym), bytes))
      decreases s
    {
      more := bytes;
      match s {
        case Block(ss) =>
          for k := 0 to |ss|
            invariant CollectBlock(s, 0, Table(old(sym), bytes)) == CollectBlock(s, k, Table(sym, more))
          {
            more := CollectLocals(ss[k], more);
          }
        case VarDecl(x, size, _) =>
          if SymFind(sym, x).None? {
            more := bytes + Bytes(size);
            sym := sym + [Symbol(x, -(bytes + Bytes(size)), size.Some?)];
          }
        case If(_, a, b) =>
          more := CollectLocals(a, more);
          if b.Some? { more := CollectLocals(b.value, more); }
        case While(_, b) => more := CollectLocals(b, more);
        case For(a, _, _, b) =>
          if a.Some? { more := CollectLocals(a.value, more); }
          more := CollectLocals(b, more);
        case _ =>
      }
    }

    /** Resets the symbol table to the parameters. */
    method EnterParams(params: seq<string>)
      modifies `sym
      ensures sym == ParamSymbols(params)
    {
      sym := [];
      for i := 0 to |params|
        invariant sym == ParamSymbols(params)[..i]
      {
        sym := sym + [Symbol(params[i], 4 + 4 * i, false)];
      }
    }

    method GenFunction(f: Func) returns (err: Failure)
      modifies `lines, `nextLabel, `sym, `epi
      ensures Emitted(old(lines), lines, nextLabel, CG.GenFunction(prog, f, old(nextLabel)), err)
    {
      EnterParams(f.params);
      var bytes := CollectLocals(f.body, 0);
      epi := CG.EpilogueLabel(f.name);
      assert Env() == CG.EnvOf(prog, f) && bytes == TableOf(f).bytes;
      hide CG.GenStmt, TableOf, CG.Prologue, CG.EpilogueLabel, CG.EnvOf;
      Append([Lab(Named(f.name))]);
      Append(CG.Prologue(bytes));
      err := GenStmt(f.body);
      if err.Some? { return; }
      Append([Lab(epi)]);
      Append(CG.EPILOGUE);
      Flatten5(old(lines), [Lab(Named(f.name))], CG.Prologue(bytes),
               CG.GenStmt(CG.EnvOf(prog, f), f.body, old(nextLabel)).value.code, [Lab(epi)], CG.EPILOGUE);
    }

    method GenFunctions() returns (err: Failure)
      modifies `lines, `nextLabel, `sym, `epi
      ensures Emitted(old(lines), lines, nextLabel, CG.GenFunctions(prog, 0, old(nextLabel)), err)
    {
      hide CG.GenFunction;
      ghost var n := nextLabel;
      ghost var done: seq<Line> := [];
      PrefixedByNothing(CG.GenFunctions(prog, 0, n));
      for k := 0 to |prog.funcs|
        invariant lines == old(lines) + done
        invariant CG.GenFunctions(prog, 0, n) == Prefixed(done, CG.GenFunctions(prog, k, nextLabel))
      {
        ghost var n1 := nextLabel;
        err := GenFunction(prog.funcs[k]);
        if err.Some? { return; }
        ghost var a := CG.GenFunction(prog, prog.funcs[k], n1).value;
        FunctionPrefixed(prog, k, n1, done);
        Flatten2(old(lines), done, a.code);
        done := done + a.code;
      }
      err := None;
      assert done + [] == done;
    }

    method GenGlobal(g: Global) returns (err: Failure)
      modifies `lines
      ensures match CG.GenGlobal(g)
              case Ok(code) => err.None? && lines == old(lines) + code
              case Err(e) => err == Some(e)
    {
      err := None;
      Append([Lab(Named(g.name))]);
      if g.size.Some? {
        for k := 0 to g.size.value
          invariant lines == old(lines) + ([Lab(Named(g.name))] + CG.Zeros(k))
        {
          Append([Data(0)]);
          OneMoreZero(k);
          Flatten3(old(lines), [Lab(Named(g.name))], CG.Zeros(k), [Data(0)]);
        }
      } else if g.init.None? {
        Append([Data(0)]);
      } else if !g.init.value.Int? {
        return Some(CG.BadInitializer);
      } else {
        Append([Data(g.init.value.v)]);
      }
    }

    method GenGlobals() returns (err: Failure)
      modifies `lines
      ensures match CG.GenGlobals(prog.globals)
              case Ok(code) => err.None? && lines == old(lines) + code
              case Err(e) => err == Some(e)
    {
      hide CG.GenGlobal;
      ghost var done: seq<Line> := [];
      DataPrefixedByNothing(CG.GenGlobals(prog.globals));
      assert prog.globals[0..] == prog.globals;
      for k := 0 to |prog.globals|
        invariant lines == old(lines) + done
        invariant CG.GenGlobals(prog.globals) == DataPrefixed(done, CG.GenGlobals(prog.globals[k..]))
      {
        err := GenGlobal(prog.globals[k]);
        GlobalPrefixed(prog.globals[k..], done);
        assert prog.globals[k..][1..] == prog.globals[k + 1..];
        if err.Some? { return; }
        ghost var a := CG.GenGlobal(prog.globals[k]).value;
        Flatten2(old(lines), done, a);
        done := done + a;
      }
      err := None;
      assert done + [] == done;
    }

    // ----- Text: printing, and the peephole pass in place -----

    /** The comment line and every line as printed. */
    method Print()
      modifies `text
      ensures text == TP.Buffer(lines)
    {
      hide TP.Printed;
      text := [TP.HEADLINE];
      var i := 0;
      while i < |lines|
        invariant 0 <= i <= |lines| && text == TP.Buffer(lines[..i])
      {
        text := text + [TP.Printed(lines[i])];
        assert lines[..i + 1] == lines[..i] + [lines[i]];
        TP.BufferEnds(lines[..i], lines[i]);
        i := i + 1;
      }
      assert lines[..i] == lines;
    }

    /** One pass: rebuilds the buffer, and says whether anything was rewritten. */
    method OnePass() returns (changed: bool)
      modifies `text
      ensures text == TP.TextPass([], old(text)) && (changed <==> |text| < |old(text)|)
    {
      hide TP.TextPass, TP.MovOperands, TP.PushOperand, TP.PopOperand, TP.StoredCell, TP.LoadedCell, TP.IsTarget;
      changed := false;
      var out: seq<string> := [];
      ghost var all := text;
      PassFrom(out, all, 0);
      var i := 0;
      while i < |text|
        invariant 0 <= i <= |all| && text == all && TP.TextPass(out, all[i..]) == TP.TextPass([], all)
        invariant |out| <= i && (changed <==> |out| < i)
      {
        var cur := text[i];
        PassFrom(out, all, i);
        var last := if out == [] then "" else out[|out| - 1];
        var mov := TP.MovOperands(cur);
        var push, pop := TP.PushOperand(last), TP.PopOperand(cur);
        if mov.Some? && mov.value.a == mov.value.b {
          changed := true;
        } else if out != [] && push.Some? && pop.Some? {
          out := out[..|out| - 1];
          assert out + [] == out;
          if push.value != pop.value { out := out + [EM.INDENT + ("MOV " + (pop.value + (", " + push.value)))]; }
          changed := true;
        } else if out != [] && TP.StoreThenLoad(last, cur) {
          changed := true;
        } else {
          out := out + [cur];
        }
        i := i + 1;
      }
      PassFrom(out, all, i);
      text := out;
    }

    method Peephole()
      modifies `text
      ensures text == TP.TextOptimize(old(text))
    {
      hide TP.TextPass;
      var changed := true;
      ghost var more := TP.TextOptimize(text);
      while changed
        invariant if changed then TP.TextOptimize(text) == more else text == more
        decreases changed, |text|
      {
        changed := OnePass();
      }
    }

    /** Entry stub, functions, data. */
    method Generate() returns (err: Failure)
      requires lines == [] && nextLabel == 0
      modifies `lines, `nextLabel, `sym, `epi
      ensures match CG.Generate(prog)
              case Ok(code) => err.None? && lines == code
              case Err(e) => err == Some(e)
    {
      hide CG.GenFunctions, CG.GenGlobals;
      if FuncFind(prog.funcs, "main").None? { return Some(CG.NoMain); }
      Append(CG.ENTRY);
      assert [] + CG.ENTRY == CG.ENTRY;
      err := GenFunctions();
      if err.Some? { return; }
      err := GenGlobals();
      if err.Some? { return; }
      Flatten2(CG.ENTRY, CG.GenFunctions(prog, 0, 0).value.code, CG.GenGlobals(prog.globals).value);
    }

    /** codegen: the generated lines, printed and optimised as text. */
    method Codegen() returns (err: Failure)
      requires lines == [] && nextLabel == 0
      modifies this
      ensures match TC.TextCompile(prog)
              case Ok(t) => err.None? && text == t
              case Err(e) => err == Some(e)
    {
      hide CG.Generate, TP.Buffer, TP.TextOptimize;
      err := Generate();
      if err.Some? { return; }
      Print();
      Peephole();
    }
  }

  /** Code already emitted in front of what is still to come. */
  function Prefixed(done: seq<Line>, spec: CG.Gen): CG.Gen {
    match spec
    case Ok(f) => Ok(CG.Frag(done + f.code, f.next))
    case Err(e) => Err(e)
  }

  lemma PrefixedByNothing(spec: CG.Gen)
    ensures Prefixed([], spec) == spec
  {
    if spec.Ok? {
      assert [] + spec.value.code == spec.value.code;
    }
  }

  lemma ArgPrefixed(env: CG.Env, e: Expr, k: nat, n: nat, done: seq<Line>)
    requires e.Call? && k < |e.args| && CG.GenExpr(env, e.args[k], n).Ok?
    ensures var a := CG.GenExpr(env, e.args[k], n).value;
            Prefixed(done, CG.GenArgs(env, e, k + 1, n)) == Prefixed(done + (a.code + CG.PUSH_ARG), CG.GenArgs(env, e, k, a.next))
  {
    var a := CG.GenExpr(env, e.args[k], n).value;
    var rest := CG.GenArgs(env, e, k, a.next);
    hide CG.GenExpr;
    if rest.Ok? {
      Flatten3(done, a.code, CG.PUSH_ARG, rest.value.code);
      Flatten2(done, a.code, CG.PUSH_ARG);
    }
  }

  lemma BlockPrefixed(env: CG.Env, s: Stmt, k: nat, n: nat, done: seq<Line>)
    requires s.Block? && k < |s.ss| && CG.GenStmt(env, s.ss[k], n).Ok?
    ensures var a := CG.GenStmt(env, s.ss[k], n).value;
            Prefixed(done, CG.GenBlock(env, s, k, n)) == Prefixed(done + a.code, CG.GenBlock(env, s, k + 1, a.next))
  {
    var a := CG.GenStmt(env, s.ss[k], n).value;
    var rest := CG.GenBlock(env, s, k + 1, a.next);
    hide CG.GenStmt;
    if rest.Ok? {
      Flatten2(done, a.code, rest.value.code);
    }
  }

  lemma FunctionPrefixed(p: Program, k: nat, n: nat, done: seq<Line>)
    requires k < |p.funcs| && CG.GenFunction(p, p.funcs[k], n).Ok?
    ensures var a := CG.GenFunction(p, p.funcs[k], n).value;
            Prefixed(done, CG.GenFunctions(p, k, n)) == Prefixed(done + a.code, CG.GenFunctions(p, k + 1, a.next))
  {
    var a := CG.GenFunction(p, p.funcs[k], n).value;
    var rest := CG.GenFunctions(p, k + 1, a.next);
    hide CG.GenFunction;
    if rest.Ok? {
      Flatten2(done, a.code, rest.value.code);
    }
  }

  lemma {:induction false} OneMoreZero(k: nat)
    ensures CG.Zeros(k + 1) == CG.Zeros(k) + [Data(0)]
  {
    if k > 0 {
      OneMoreZero(k - 1);
    }
  }

  function DataPrefixed(done: seq<Line>, spec: Result<seq<Line>, CG.Error>): Result<seq<Line>, CG.Error> {
    match spec
    case Ok(code) => Ok(done + code)
    case Err(e) => Err(e)
  }

  lemma DataPrefixedByNothing(spec: Result<seq<Line>, CG.Error>)
    ensures DataPrefixed([], spec) == spec
  {
    if spec.Ok? {
      assert [] + spec.value == spec.value;
    }
  }

  lemma GlobalPrefixed(gs: seq<Global>, done: seq<Line>)
    requires gs != []
    ensures match CG.GenGlobal(gs[0])
            case Ok(a) => DataPrefixed(done, CG.GenGlobals(gs)) == DataPrefixed(done + a, CG.GenGlobals(gs[1..]))
            case Err(e) => CG.GenGlobals(gs) == Err(e)
  {
    hide CG.GenGlobal;
    if CG.GenGlobal(gs[0]).Ok? && CG.GenGlobals(gs[1..]).Ok? {
      Flatten2(done, CG.GenGlobal(gs[0]).value, CG.GenGlobals(gs[1..]).value);
    }
  }

  /** The pass from line i on, one line unfolded. */
  lemma PassFrom(out: seq<string>, all: seq<string>, i: nat)
    requires i <= |all|
    ensures i == |all| ==> TP.TextPass(out, all[i..]) == out
    ensures i < |all| ==> TP.TextPass(out, all[i..]) == TP.TextPass(TP.TextEmit(out, all[i]), all[i + 1..])
    ensures i == 0 ==> all[i..] == all
  {
    if i < |all| {
      assert all[i..][0] == all[i] && all[i..][1..] == all[i + 1..];
    }
  }

  /** An if without else reserves one label before its condition. */
  lemma IfTests(env: CG.Env, c: Expr, t: Stmt, n: nat)
    ensures var r := CG.GenTest(env, Some(c), Local(n), n + 1);
            && (r.Err? ==> CG.GenStmt(env, If(c, t, None), n) == Err(r.error))
            && (r.Ok? ==> var a := CG.GenStmt(env, t, r.value.next);
                          CG.GenStmt(env, If(c, t, None), n)
                          == if a.Err? then Err(a.error)
                             else Ok(CG.Frag(r.value.code + (a.value.code + [Lab(Local(n))]), a.value.next)))
  {
    hide CG.GenTest;
  }

  lemma IfElseTests(env: CG.Env, c: Expr, t: Stmt, f: Stmt, n: nat)
    ensures var r := CG.GenTest(env, Some(c), Local(n), n + 2);
            && (r.Err? ==> CG.GenStmt(env, If(c, t, Some(f)), n) == Err(r.error))
            && (r.Ok? ==> var a := CG.GenStmt(env, t, r.value.next);
                          && (a.Err? ==> CG.GenStmt(env, If(c, t, Some(f)), n) == Err(a.error))
                          && (a.Ok? ==> var b := CG.GenStmt(env, f, a.value.next);
                                        CG.GenStmt(env, If(c, t, Some(f)), n)
                                        == if b.Err? then Err(b.error)
                                           else Ok(CG.Frag(r.value.code + (a.value.code + ([Op(Jmp(Local(n + 1))), Lab(Local(n))]
                                                           + (b.value.code + [Lab(Local(n + 1))]))), b.value.next))))
  {
    hide CG.GenTest;
  }
}
