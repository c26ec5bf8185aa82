/** What the code generator emits: the stack code of every construct, with labels numbered in order of demand. */
module CodeGen {
  import opened Wrappers
  import opened CAst
  import opened Machine
  import Isa

  const STACK_BASE := DATA_END

  datatype Error =
    | UndefinedVariable(x: string)
    | UndefinedFunction(f: string)
    | WrongArguments(f: string)
    | NotAnLvalue
    | LiteralTooLarge(v: int)
    | AssignToArray
    | BadTarget
    | NoMain
    | BadInitializer

  /** Emitted lines and the next free label. */
  datatype Frag = Frag(code: seq<Line>, next: nat)

  type Gen = Result<Frag, Error>

  /** The tables consulted inside one function. */
  datatype Env = Env(prog: Program, sym: seq<Symbol>, epi: Label)

  function PlaceOf(env: Env, x: string): Place { Resolve(env.sym, env.prog.globals, x) }

  // ----- Instruction patterns -----

  const PUSH0 := [Op(Push(0))]
  const FETCH := [Op(Load(0, 0, 0))]

  function FrameAddress(off: int): seq<Line> {
    [Op(Mov(0, FP))] + if off != 0 then [Op(LoadI(1, off)), Op(Alu(ADD, 0, 1))] else []
  }

  const INDEXED := [Op(LoadI(1, 2)), Op(Alu(SHL, 0, 1)), Op(Pop(1)), Op(Alu(ADD, 0, 1))]

  function Test(l: Label): seq<Line> { [Op(Alu(AND, 0, 0)), Op(Jump(Zero, l))] }

  function TestNot(l: Label): seq<Line> { [Op(Alu(AND, 0, 0)), Op(Jump(NotZero, l))] }

  /** Leaves `first` in R0 if control falls in from above, and `second` if it comes from label l. */
  function Choose(first: int, l: nat, second: int, end: nat): seq<Line> {
    [Op(LoadI(0, first)), Op(Jmp(Local(end))), Lab(Local(l)), Op(LoadI(0, second)), Lab(Local(end))]
  }

  predicate IsComparison(op: BinOp) { op in {Eq, Ne, Lt, Gt, Le, Ge} }

  function CompareJumps(op: BinOp, l: Label): seq<Line>
    requires IsComparison(op)
  {
    match op
    case Eq => [Op(Jump(Zero, l))]
    case Ne => [Op(Jump(NotZero, l))]
    case Lt => [Op(Jump(Less, l))]
    case Gt => [Op(Jump(Greater, l))]
    case Le => [Op(Jump(Less, l)), Op(Jump(Zero, l))]
    case Ge => [Op(Jump(Greater, l)), Op(Jump(Zero, l))]
  }

  const SUBTRACT := [Op(Pop(1)), Op(Alu(SUB, 1, 0)), Op(LoadI(0, 0))]

  function Verdict(n: nat): seq<Line> {
    [Op(Jmp(Local(n + 1))), Lab(Local(n)), Op(LoadI(0, 1)), Lab(Local(n + 1))]
  }

  function Compare(op: BinOp, n: nat): seq<Line>
    requires IsComparison(op)
  {
    SUBTRACT + (CompareJumps(op, Local(n)) + Verdict(n))
  }

  predicate IsArithmetic(op: BinOp) { !IsComparison(op) && op != AndAnd && op != OrOr }

  function AluOf(op: BinOp): AluOp
    requires IsArithmetic(op) && op != Percent
  {
    match op
    case Plus => ADD
    case Minus => SUB
    case Times => MUL
    case Slash => DIV
    case BitAnd => AND
    case BitOr => OR
    case BitXor => XOR
    case ShiftL => SHL
    case ShiftR => SHR
  }

  const DIVIDE := [Op(Pop(1)), Op(Mov(2, 1)), Op(Mov(3, 0)), Op(Alu(DIV, 2, 3))]
  const MULTIPLY_BACK := [Op(Alu(MUL, 2, 3)), Op(Alu(SUB, 1, 2)), Op(Mov(0, 1))]

  function Arithmetic(op: BinOp): seq<Line>
    requires IsArithmetic(op)
  {
    if op == Percent then
      DIVIDE + MULTIPLY_BACK
    else
      [Op(Pop(1)), Op(Alu(AluOf(op), 1, 0)), Op(Mov(0, 1))]
  }

  function Negate(op: UnOp, n: nat): seq<Line> {
    match op
    case Neg => [Op(LoadI(1, 0)), Op(Alu(SUB, 1, 0)), Op(Mov(0, 1))]
    case Compl => [Op(Inv(0))]
    case _ => [Op(Alu(AND, 0, 0)), Op(LoadI(0, 0)), Op(Jump(NotZero, Local(n))), Op(LoadI(0, 1)), Lab(Local(n))]
  }

  const PUSH_ARG := [Op(LoadI(1, 4)), Op(Alu(SUB, SP, 1)), Op(Store(SP, 0, 0))]

  function DropArgs(n: nat): seq<Line> {
    if n == 0 then [] else [Op(LoadI(1, 4 * n)), Op(Alu(ADD, SP, 1))]
  }

  // ----- Expressions -----

  function GenAddr(env: Env, e: Expr, n: nat): Gen
    decreases e, 1
  {
    match e
    case Var(x) =>
      (match PlaceOf(env, x)
       case Unknown => Err(UndefinedVariable(x))
       case InFrame(off, _) => Ok(Frag(FrameAddress(off), n))
       case Static(_) => Ok(Frag([Op(LoadA(0, x))], n)))
    case Index(b, i) =>
      var base :- GenExpr(env, b, n);
      var idx :- GenExpr(env, i, base.next);
      Ok(Frag(base.code + (PUSH0 + (idx.code + INDEXED)), idx.next))
    case Unary(Star, a) => GenExpr(env, a, n)
    case _ => Err(NotAnLvalue)
  }

  function GenBinary(env: Env, e: Expr, n: nat): Gen
    requires e.Binary?
    decreases e, 2
  {
    if e.op == AndAnd then
      var a :- GenExpr(env, e.l, n + 2);
      var b :- GenExpr(env, e.r, a.next);
      Ok(Frag(a.code + (Test(Local(n)) + (b.code + (Test(Local(n)) + Choose(1, n, 0, n + 1)))), b.next))
    else if e.op == OrOr then
      var a :- GenExpr(env, e.l, n + 2);
      var b :- GenExpr(env, e.r, a.next);
      Ok(Frag(a.code + (TestNot(Local(n)) + (b.code + (TestNot(Local(n)) + Choose(0, n, 1, n + 1)))), b.next))
    else
      var a :- GenExpr(env, e.l, n);
      var b :- GenExpr(env, e.r, a.next);
      if IsComparison(e.op) then Ok(Frag(a.code + (PUSH0 + (b.code + Compare(e.op, b.next))), b.next + 2))
      else Ok(Frag(a.code + (PUSH0 + (b.code + Arithmetic(e.op))), b.next))
  }

  /** Arguments k-1 down to 0, each pushed on the R7 stack. */
  function GenArgs(env: Env, e: Expr, k: nat, n: nat): Gen
    requires e.Call? && k <= |e.args|
    decreases e, 0, k
  {
    if k == 0 then Ok(Frag([], n))
    else
      var a :- GenExpr(env, e.args[k - 1], n);
      var rest :- GenArgs(env, e, k - 1, a.next);
      Ok(Frag(a.code + (PUSH_ARG + rest.code), rest.next))
  }

  function GenCall(env: Env, e: Expr, n: nat): Gen
    requires e.Call?
    decreases e, 2
  {
    if e.f == "out" then
      if |e.args| != 1 then Err(WrongArguments(e.f))
      else
        var a :- GenExpr(env, e.args[0], n);
        Ok(Frag(a.code + [Op(Out(0))], a.next))
    else if e.f == "in" then Ok(Frag([Op(In(0))], n))
    else
      match FuncFind(env.prog.funcs, e.f)
      case None => Err(UndefinedFunction(e.f))
      case Some(g) =>
        if |e.args| != |g.params| then Err(WrongArguments(e.f))
        else
          var a :- GenArgs(env, e, |e.args|, n);
          Ok(Frag(a.code + ([Op(Instr.Call(Named(e.f)))] + DropArgs(|e.args|)), a.next))
  }

  function GenAssign(env: Env, e: Expr, n: nat): Gen
    requires e.Assign?
    decreases e, 2
  {
    if e.lhs.Var? then
      match PlaceOf(env, e.lhs.x)
      case Unknown => Err(UndefinedVariable(e.lhs.x))
      case InFrame(off, isArray) =>
        if isArray then Err(AssignToArray)
        else
          var r :- GenExpr(env, e.rhs, n);
          Ok(Frag(r.code + [Op(Store(FP, off, 0))], r.next))
      case Static(isArray) =>
        if isArray then Err(AssignToArray)
        else
          var r :- GenExpr(env, e.rhs, n);
          Ok(Frag(r.code + [Op(LoadA(1, e.lhs.x)), Op(Store(1, 0, 0))], r.next))
    else if e.lhs.Index? || (e.lhs.Unary? && e.lhs.uop == Star) then
      var a :- GenAddr(env, e.lhs, n);
      var r :- GenExpr(env, e.rhs, a.next);
      Ok(Frag(a.code + (PUSH0 + (r.code + [Op(Pop(1)), Op(Store(1, 0, 0))])), r.next))
    else Err(BadTarget)
  }

  function GenExpr(env: Env, e: Expr, n: nat): Gen
    decreases e, 3
  {
    match e
    case Int(v) => if v < Isa.IMM_MIN || Isa.IMM_MAX < v then Err(LiteralTooLarge(v)) else Ok(Frag([Op(LoadI(0, v))], n))
    case Var(x) =>
      (match PlaceOf(env, x)
       case Unknown => Err(UndefinedVariable(x))
       case InFrame(off, isArray) => if isArray then GenAddr(env, e, n) else Ok(Frag([Op(Load(0, FP, off))], n))
       case Static(isArray) =>
         if isArray then GenAddr(env, e, n) else Ok(Frag([Op(LoadA(0, x)), Op(Load(0, 0, 0))], n)))
    case Index(_, _) =>
      var a :- GenAddr(env, e, n);
      Ok(Frag(a.code + FETCH, a.next))
    case Assign(_, _) => GenAssign(env, e, n)
    case Unary(op, a) =>
      if op == Amp then GenAddr(env, a, n)
      else if op == Star then
        var p :- GenAddr(env, e, n);
        Ok(Frag(p.code + FETCH, p.next))
      else
        var r :- GenExpr(env, a, n);
        Ok(Frag(r.code + Negate(op, r.next), if op == Bang then r.next + 1 else r.next))
    case Binary(_, _, _) => GenBinary(env, e, n)
    case Call(_, _) => GenCall(env, e, n)
  }

  // ----- Statements -----

  /** While and for: the loop proper, without a for's first part. */
  function GenLoop(env: Env, c: Option<Expr>, post: Option<Expr>, body: Stmt, n: nat): Gen
    decreases body, 3
  {
    var test :- GenTest(env, c, Local(n + 1), n + 2);
    var b :- GenStmt(env, body, test.next);
    var step :- GenOptional(env, post, b.next);
    Ok(Frag([Lab(Local(n))] + (test.code + (b.code + (step.code + [Op(Jmp(Local(n))), Lab(Local(n + 1))]))), step.next))
  }

  /** A condition that jumps to l when it is 0; none is no code. */
  function GenTest(env: Env, c: Option<Expr>, l: Label, n: nat): Gen {
    if c.None? then Ok(Frag([], n))
    else
      var r :- GenExpr(env, c.value, n);
      Ok(Frag(r.code + Test(l), r.next))
  }

  function GenOptional(env: Env, e: Option<Expr>, n: nat): Gen {
    if e.None? then Ok(Frag([], n)) else GenExpr(env, e.value, n)
  }

  function GenBlock(env: Env, s: Stmt, k: nat, n: nat): Gen
    requires s.Block? && k <= |s.ss|
    decreases s, 0, |s.ss| - k
  {
    if k == |s.ss| then Ok(Frag([], n))
    else
      var a :- GenStmt(env, s.ss[k], n);
      var rest :- GenBlock(env, s, k + 1, a.next);
      Ok(Frag(a.code + rest.code, rest.next))
  }

  function GenStmt(env: Env, s: Stmt, n: nat): Gen
    decreases s, 2
  {
    match s
    case Block(_) => GenBlock(env, s, 0, n)
    case VarDecl(x, _, init) =>
      if init.None? then Ok(Frag([], n))
      else
        (match SymFind(env.sym, x)
         case None => Err(UndefinedVariable(x))
         case Some(y) =>
           var r :- GenExpr(env, init.value, n);
           Ok(Frag(r.code + [Op(Store(FP, y.off, 0))], r.next)))
    case ExprStmt(e) => GenExpr(env, e, n)
    case Return(e) =>
      var r :- GenOptional(env, e, n);
      Ok(Frag(r.code + [Op(Jmp(env.epi))], r.next))
    case If(c, t, Some(f)) =>
      var r :- GenTest(env, Some(c), Local(n), n + 2);
      var a :- GenStmt(env, t, r.next);
      var b :- GenStmt(env, f, a.next);
      Ok(Frag(r.code + (a.code + ([Op(Jmp(Local(n + 1))), Lab(Local(n))] + (b.code + [Lab(Local(n + 1))]))), b.next))
    case If(c, t, None) =>
      var r :- GenTest(env, Some(c), Local(n), n + 1);
      var a :- GenStmt(env, t, r.next);
      Ok(Frag(r.code + (a.code + [Lab(Local(n))]), a.next))
    case While(c, b) => GenLoop(env, Some(c), None, b, n)
    case For(pre, c, post, b) =>
      if pre.None? then GenLoop(env, c, post, b, n)
      else
        var a :- GenStmt(env, pre.value, n);
        var loop :- GenLoop(env, c, post, b, a.next);
        Ok(Frag(a.code + loop.code, loop.next))
  }

  // ----- Functions and programs -----

  function Reserve(bytes: nat): seq<Line> {
    if bytes == 0 then [] else [Op(LoadI(1, bytes)), Op(Alu(SUB, SP, 1))]
  }

  function Prologue(bytes: nat): seq<Line> {
    [Op(LoadI(1, 4)), Op(Alu(SUB, SP, 1)), Op(Store(SP, 0, FP)), Op(Mov(FP, SP))] + Reserve(bytes)
  }

  const EPILOGUE := [Op(Mov(SP, FP)), Op(Load(FP, SP, 0)), Op(LoadI(1, 4)), Op(Alu(ADD, SP, 1)), Op(Ret)]

  function EpilogueLabel(f: string): Label { Named(f + "_epi") }

  function EnvOf(p: Program, f: Func): Env { Env(p, TableOf(f).sym, EpilogueLabel(f.name)) }

  function GenFunction(p: Program, f: Func, n: nat): Gen {
    var body :- GenStmt(EnvOf(p, f), f.body, n);
    Ok(Frag([Lab(Named(f.name))]
            + (Prologue(TableOf(f).bytes) + (body.code + ([Lab(EpilogueLabel(f.name))] + EPILOGUE))), body.next))
  }

  function GenFunctions(p: Program, k: nat, n: nat): Gen
    requires k <= |p.funcs|
    decreases |p.funcs| - k
  {
    if k == |p.funcs| then Ok(Frag([], n))
    else
      var a :- GenFunction(p, p.funcs[k], n);
      var rest :- GenFunctions(p, k + 1, a.next);
      Ok(Frag(a.code + rest.code, rest.next))
  }

  function Zeros(n: nat): seq<Line> { if n == 0 then [] else [Data(0)] + Zeros(n - 1) }

  function GenGlobal(g: Global): Result<seq<Line>, Error> {
    if g.size.Some? then Ok([Lab(Named(g.name))] + Zeros(g.size.value))
    else if g.init.None? then Ok([Lab(Named(g.name)), Data(0)])
    else if !g.init.value.Int? then Err(BadInitializer)
    else Ok([Lab(Named(g.name)), Data(g.init.value.v)])
  }

  function GenGlobals(globs: seq<Global>): Result<seq<Line>, Error> {
    if globs == [] then Ok([])
    else
      var a :- GenGlobal(globs[0]);
      var rest :- GenGlobals(globs[1..]);
      Ok(a + rest)
  }

  const ENTRY := [Op(LoadI(SP, STACK_BASE)), Op(Instr.Call(Named("main"))), Op(Halt)]

  /** The whole program before the peephole pass. */
  function Generate(p: Program): Result<seq<Line>, Error> {
    if FuncFind(p.funcs, "main").None? then Err(NoMain)
    else
      var funcs :- GenFunctions(p, 0, 0);
      var data :- GenGlobals(p.globals);
      Ok(ENTRY + (funcs.code + data))
  }
}
