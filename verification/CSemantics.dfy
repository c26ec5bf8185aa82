/** The meaning of the C subset: a big-step evaluator over concrete addresses, bounded by fuel.
    None stands for out of fuel and for what the language leaves undefined: reading or writing a cell that is not
    allocated, reading one never written, dividing by zero, shifting by 32 or more, using a missing result, and
    exhausting one of the two stacks. */
module CSemantics {
  import opened Words
  import opened Wrappers
  import opened CAst

  datatype Val = W(w: Word) | Void

  /** Initialised cells by address, the numbers still to be read, and those written. */
  datatype State = State(mem: map<int, Word>, input: seq<Word>, out: seq<Word>)

  /** One activation: its symbols, frame pointer, top of stack, every cell allocated so far, and how many return addresses and
      operands are waiting. */
  datatype Frame = Frame(sym: seq<Symbol>, fp: int, sp: int, cells: set<int>, waiting: nat)

  /** The program, where its globals are, how far the stack may grow, and how many words may wait. */
  datatype World = World(prog: Program, addr: map<string, Word>, limit: int, words: nat)

  datatype Res = Res(v: Val, s: State)

  datatype WordRes = WordRes(w: Word, s: State)

  datatype ArgsRes = ArgsRes(vals: seq<Word>, s: State)

  datatype Outcome = Normal(s: State) | Returned(v: Val, s: State)

  function Truth(b: bool): Word { if b then 1 else 0 }

  function ReadCell(s: State, a: int): Option<WordRes> {
    if a in s.mem then Some(WordRes(s.mem[a], s)) else None
  }

  function WriteCell(fr: Frame, s: State, a: int, w: Word): Option<State> {
    if a in fr.cells then Some(s.(mem := s.mem[a := w])) else None
  }

  function BinaryValue(op: BinOp, a: Word, b: Word): Option<Word>
    requires op != AndAnd && op != OrOr
  {
    match op
    case Plus => Some(Wrap(a + b))
    case Minus => Some(Wrap(a - b))
    case Times => Some(Mul(a, b))
    case Slash => if b == 0 then None else Some(Div(a, b))
    case Percent => if b == 0 then None else Some(a % b)
    case BitAnd => Some(And(a, b))
    case BitOr => Some(Or(a, b))
    case BitXor => Some(Xor(a, b))
    case ShiftL => if 32 <= b then None else Some(Shl(a, b))
    case ShiftR => if 32 <= b then None else Some(Shr(a, b))
    case Eq => Some(Truth(a == b))
    case Ne => Some(Truth(a != b))
    case Lt => Some(Truth(Signed(a) < Signed(b)))
    case Gt => Some(Truth(Signed(a) > Signed(b)))
    case Le => Some(Truth(Signed(a) <= Signed(b)))
    case Ge => Some(Truth(Signed(a) >= Signed(b)))
  }

  function UnaryValue(op: UnOp, a: Word): Word
    requires op != Star && op != Amp
  {
    match op
    case Neg => Wrap(0 - a)
    case Compl => Not(a)
    case Bang => Truth(a == 0)
  }

  function PlaceOf(w: World, fr: Frame, x: string): Place { Resolve(fr.sym, w.prog.globals, x) }

  function VarAddr(w: World, fr: Frame, x: string): Option<Word> {
    match PlaceOf(w, fr, x)
    case Unknown => None
    case InFrame(off, _) => Some(Wrap(fr.fp + off))
    case Static(_) => if x in w.addr then Some(w.addr[x]) else None
  }

  predicate IsArray(w: World, fr: Frame, x: string) {
    var p := PlaceOf(w, fr, x);
    !p.Unknown? && p.isArray
  }

  /** One more operand waits while its partner is computed. */
  function Holding(fr: Frame): Frame { fr.(waiting := fr.waiting + 1) }

  /** The address an lvalue denotes; only subscripts scale. */
  function Addr(w: World, fr: Frame, e: Expr, s: State, fuel: nat): Option<WordRes>
    decreases fuel
  {
    if fuel == 0 then None
    else
      match e
      case Var(x) =>
        var a :- VarAddr(w, fr, x);
        Some(WordRes(a, s))
      case Index(b, i) =>
        var base :- EvalWord(w, fr, b, s, fuel - 1);
        var idx :- EvalWord(w, Holding(fr), i, base.s, fuel - 1);
        Some(WordRes(Wrap(base.w + Wrap(4 * idx.w)), idx.s))
      case Unary(Star, a) => EvalWord(w, fr, a, s, fuel - 1)
      case _ => None
  }

  function EvalWord(w: World, fr: Frame, e: Expr, s: State, fuel: nat): Option<WordRes>
    decreases fuel
  {
    if fuel == 0 || w.words < fr.waiting then None
    else
      var r :- Eval(w, fr, e, s, fuel - 1);
      if r.v.W? then Some(WordRes(r.v.w, r.s)) else None
  }

  function Given(r: WordRes): Res { Res(W(r.w), r.s) }

  function Eval(w: World, fr: Frame, e: Expr, s: State, fuel: nat): Option<Res>
    decreases fuel
  {
    if fuel == 0 then None
    else
      match e
      case Int(v) => Some(Res(W(Wrap(v)), s))
      case Var(x) =>
        var a :- VarAddr(w, fr, x);
        if IsArray(w, fr, x) then Some(Res(W(a), s))
        else
          var r :- ReadCell(s, a);
          Some(Given(r))
      case Index(_, _) =>
        var a :- Addr(w, fr, e, s, fuel - 1);
        var r :- ReadCell(a.s, a.w);
        Some(Given(r))
      case Assign(l, r) => EvalAssign(w, fr, l, r, s, fuel - 1)
      case Unary(op, a) =>
        if op == Amp then
          var r :- Addr(w, fr, a, s, fuel - 1);
          Some(Given(r))
        else if op == Star then
          var p :- Addr(w, fr, e, s, fuel - 1);
          var r :- ReadCell(p.s, p.w);
          Some(Given(r))
        else
          var r :- EvalWord(w, fr, a, s, fuel - 1);
          Some(Res(W(UnaryValue(op, r.w)), r.s))
      case Binary(op, l, r) => EvalBinary(w, fr, op, l, r, s, fuel - 1)
      case Call(f, args) => EvalCall(w, fr, f, args, s, fuel - 1)
  }

  /** A plain variable is assigned after the right-hand side; any other target is located first. */
  function EvalAssign(w: World, fr: Frame, l: Expr, r: Expr, s: State, fuel: nat): Option<Res>
    decreases fuel
  {
    if fuel == 0 then None
    else if l.Var? then
      var v :- EvalWord(w, fr, r, s, fuel - 1);
      var a :- VarAddr(w, fr, l.x);
      var s' :- WriteCell(fr, v.s, a, v.w);
      Some(Res(W(v.w), s'))
    else
      var a :- Addr(w, fr, l, s, fuel - 1);
      var v :- EvalWord(w, Holding(fr), r, a.s, fuel - 1);
      var s' :- WriteCell(fr, v.s, a.w, v.w);
      Some(Res(W(v.w), s'))
  }

  function EvalBinary(w: World, fr: Frame, op: BinOp, l: Expr, r: Expr, s: State, fuel: nat): Option<Res>
    decreases fuel
  {
    if fuel == 0 then None
    else
      var a :- EvalWord(w, fr, l, s, fuel - 1);
      if op == AndAnd && a.w == 0 then Some(Res(W(0), a.s))
      else if op == OrOr && a.w != 0 then Some(Res(W(1), a.s))
      else
        var b :- EvalWord(w, if op == AndAnd || op == OrOr then fr else Holding(fr), r, a.s, fuel - 1);
        if op == AndAnd || op == OrOr then Some(Res(W(Truth(b.w != 0)), b.s))
        else
          var v :- BinaryValue(op, a.w, b.w);
          Some(Res(W(v), b.s))
  }

  /** Arguments from the last to the first; each takes a word of stack once it is known. */
  function EvalArgs(w: World, fr: Frame, args: seq<Expr>, s: State, fuel: nat): Option<ArgsRes>
    decreases fuel
  {
    if fuel == 0 then None
    else if args == [] then Some(ArgsRes([], s))
    else
      var a :- EvalWord(w, fr, args[|args| - 1], s, fuel - 1);
      if fr.sp - 4 < w.limit then None
      else
        var rest :- EvalArgs(w, fr.(sp := fr.sp - 4), args[..|args| - 1], a.s, fuel - 1);
        Some(ArgsRes(rest.vals + [a.w], rest.s))
  }

  function EvalCall(w: World, fr: Frame, f: string, args: seq<Expr>, s: State, fuel: nat): Option<Res>
    decreases fuel
  {
    if fuel == 0 then None
    else if f == "out" then
      if |args| != 1 then None
      else
        var a :- EvalWord(w, fr, args[0], s, fuel - 1);
        Some(Res(W(a.w), a.s.(out := a.s.out + [a.w])))
    else if f == "in" then
      if s.input == [] then Some(Res(W(0), s)) else Some(Res(W(s.input[0]), s.(input := s.input[1..])))
    else
      var g :- FuncFind(w.prog.funcs, f);
      if |args| != |g.params| then None
      else
        var a :- EvalArgs(w, fr, args, s, fuel - 1);
        Activate(w, fr, g, a.vals, a.s, fuel - 1)
  }

  /** The words of [lo, hi). */
  function WordsIn(lo: int, hi: int): set<int> { set a | lo <= a < hi && a % 4 == 0 }

  function ParamCells(fp: int, n: nat): set<int> { WordsIn(fp + 4, fp + 4 + 4 * n) }

  function Bound(fp: int, vals: seq<Word>): map<int, Word> {
    map a | a in ParamCells(fp, |vals|) && 0 <= (a - fp - 4) / 4 < |vals| :: vals[(a - fp - 4) / 4]
  }

  /** The callee's frame: parameters above the saved frame pointer, locals below it. */
  function Callee(fr: Frame, g: Func, n: nat): Frame {
    var fp := fr.sp - 4 * n - 4;
    var t := TableOf(g);
    Frame(t.sym, fp, fp - t.bytes, fr.cells + ParamCells(fp, n) + WordsIn(fp - t.bytes, fp), fr.waiting + 1)
  }

  /** Only the caller's cells outlive the call. */
  function Leave(fr: Frame, s: State): State { s.(mem := map a | a in s.mem && a in fr.cells :: s.mem[a]) }

  function Activate(w: World, fr: Frame, g: Func, vals: seq<Word>, s: State, fuel: nat): Option<Res>
    decreases fuel
  {
    if fuel == 0 then None
    else
      var callee := Callee(fr, g, |vals|);
      if callee.sp < w.limit || w.words < callee.waiting then None
      else
        var o :- ExecStmt(w, callee, g.body, s.(mem := s.mem + Bound(callee.fp, vals)), fuel - 1);
        Some(Res(if o.Returned? then o.v else Void, Leave(fr, o.s)))
  }

  // ----- Statements -----

  function EvalOptional(w: World, fr: Frame, e: Option<Expr>, s: State, fuel: nat): Option<Res>
    decreases fuel
  {
    if fuel == 0 then None else if e.None? then Some(Res(Void, s)) else Eval(w, fr, e.value, s, fuel - 1)
  }

  /** A missing condition is true. */
  function EvalTest(w: World, fr: Frame, c: Option<Expr>, s: State, fuel: nat): Option<WordRes>
    decreases fuel
  {
    if fuel == 0 then None else if c.None? then Some(WordRes(1, s)) else EvalWord(w, fr, c.value, s, fuel - 1)
  }

  function ExecStmt(w: World, fr: Frame, st: Stmt, s: State, fuel: nat): Option<Outcome>
    decreases fuel
  {
    if fuel == 0 then None
    else
      match st
      case Block(ss) => ExecBlock(w, fr, ss, s, fuel - 1)
      case VarDecl(x, _, init) =>
        if init.None? then Some(Normal(s))
        else
          var v :- EvalWord(w, fr, init.value, s, fuel - 1);
          var y :- SymFind(fr.sym, x);
          var s' :- WriteCell(fr, v.s, Wrap(fr.fp + y.off), v.w);
          Some(Normal(s'))
      case ExprStmt(e) =>
        var r :- Eval(w, fr, e, s, fuel - 1);
        Some(Normal(r.s))
      case Return(e) =>
        var r :- EvalOptional(w, fr, e, s, fuel - 1);
        Some(Returned(r.v, r.s))
      case If(c, t, f) =>
        var r :- EvalTest(w, fr, Some(c), s, fuel - 1);
        if r.w != 0 then ExecStmt(w, fr, t, r.s, fuel - 1)
        else if f.None? then Some(Normal(r.s))
        else ExecStmt(w, fr, f.value, r.s, fuel - 1)
      case While(c, b) => ExecLoop(w, fr, Some(c), None, b, s, fuel - 1)
      case For(pre, c, post, b) =>
        if pre.None? then ExecLoop(w, fr, c, post, b, s, fuel - 1)
        else
          var o :- ExecStmt(w, fr, pre.value, s, fuel - 1);
          if o.Returned? then Some(o) else ExecLoop(w, fr, c, post, b, o.s, fuel - 1)
  }

  function ExecBlock(w: World, fr: Frame, ss: seq<Stmt>, s: State, fuel: nat): Option<Outcome>
    decreases fuel
  {
    if fuel == 0 then None
    else if ss == [] then Some(Normal(s))
    else
      var o :- ExecStmt(w, fr, ss[0], s, fuel - 1);
      if o.Returned? then Some(o) else ExecBlock(w, fr, ss[1..], o.s, fuel - 1)
  }

  function ExecLoop(w: World, fr: Frame, c: Option<Expr>, post: Option<Expr>, body: Stmt, s: State, fuel: nat): Option<Outcome>
    decreases fuel
  {
    if fuel == 0 then None
    else
      var r :- EvalTest(w, fr, c, s, fuel - 1);
      if r.w == 0 then Some(Normal(r.s))
      else
        var o :- ExecStmt(w, fr, body, r.s, fuel - 1);
        if o.Returned? then Some(o)
        else
          var p :- EvalOptional(w, fr, post, o.s, fuel - 1);
          ExecLoop(w, fr, c, post, body, p.s, fuel - 1)
  }
}
