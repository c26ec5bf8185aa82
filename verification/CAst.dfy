/** The C subset after parsing, and the symbol tables both its meaning and its code are based on. */
module CAst {
  import opened Wrappers

  datatype UnOp = Neg | Compl | Bang | Star | Amp

  datatype BinOp =
    | Plus | Minus | Times | Slash | Percent | BitAnd | BitOr | BitXor | ShiftL | ShiftR
    | Eq | Ne | Lt | Gt | Le | Ge
    | AndAnd | OrOr

  datatype Expr =
    | Int(v: int)
    | Var(x: string)
    | Index(base: Expr, idx: Expr)
    | Assign(lhs: Expr, rhs: Expr)
    | Unary(uop: UnOp, arg: Expr)
    | Binary(op: BinOp, l: Expr, r: Expr)
    | Call(f: string, args: seq<Expr>)

  datatype Stmt =
    | Block(ss: seq<Stmt>)
    | VarDecl(x: string, size: Option<nat>, init: Option<Expr>)
    | ExprStmt(e: Expr)
    | Return(result: Option<Expr>)
    | If(c: Expr, t: Stmt, f: Option<Stmt>)
    | While(c: Expr, body: Stmt)
    | For(pre: Option<Stmt>, cond: Option<Expr>, post: Option<Expr>, body: Stmt)

  datatype Func = Func(name: string, params: seq<string>, body: Stmt)

  datatype Global = Global(name: string, size: Option<nat>, init: Option<Expr>)

  datatype Program = Program(globals: seq<Global>, funcs: seq<Func>)

  // ----- Symbol tables -----

  datatype Symbol = Symbol(name: string, off: int, isArray: bool)

  /** The table of one function: its symbols, and the bytes its locals take. */
  datatype Table = Table(sym: seq<Symbol>, bytes: nat)

  /** Where a name lives: nowhere, at an offset in the frame, or at a fixed address. */
  datatype Place = Unknown | InFrame(off: int, isArray: bool) | Static(isArray: bool)

  function SymFind(sym: seq<Symbol>, x: string): Option<Symbol> {
    if sym == [] then None else if sym[0].name == x then Some(sym[0]) else SymFind(sym[1..], x)
  }

  function GlobFind(globs: seq<Global>, x: string): Option<Global> {
    if globs == [] then None else if globs[0].name == x then Some(globs[0]) else GlobFind(globs[1..], x)
  }

  function FuncFind(funcs: seq<Func>, f: string): (r: Option<Func>)
    ensures r.Some? ==> r.value in funcs && r.value.name == f
  {
    if funcs == [] then None else if funcs[0].name == f then Some(funcs[0]) else FuncFind(funcs[1..], f)
  }

  /** Locals and parameters hide globals. */
  function Resolve(sym: seq<Symbol>, globs: seq<Global>, x: string): Place {
    match SymFind(sym, x)
    case Some(s) => InFrame(s.off, s.isArray)
    case None =>
      match GlobFind(globs, x)
      case Some(g) => Static(g.size.Some?)
      case None => Unknown
  }

  function Bytes(size: Option<nat>): nat { if size.Some? then size.value * 4 else 4 }

  /** Reserves a slot unless the name already has one, whatever block it was declared in. */
  function Declare(t: Table, x: string, size: Option<nat>): Table {
    if SymFind(t.sym, x).Some? then t
    else Table(t.sym + [Symbol(x, -(t.bytes + Bytes(size)), size.Some?)], t.bytes + Bytes(size))
  }

  function Collect(s: Stmt, t: Table): Table
    decreases s, 1
  {
    match s
    case Block(_) => CollectBlock(s, 0, t)
    case VarDecl(x, size, _) => Declare(t, x, size)
    case If(_, a, b) => (var u := Collect(a, t); if b.Some? then Collect(b.value, u) else u)
    case While(_, b) => Collect(b, t)
    case For(a, _, _, b) => Collect(b, if a.Some? then Collect(a.value, t) else t)
    case _ => t
  }

  function CollectBlock(s: Stmt, k: nat, t: Table): Table
    requires s.Block? && k <= |s.ss|
    decreases s, 0, |s.ss| - k
  {
    if k == |s.ss| then t else CollectBlock(s, k + 1, Collect(s.ss[k], t))
  }

  function ParamSymbols(params: seq<string>): (r: seq<Symbol>)
    ensures |r| == |params|
    ensures forall i :: 0 <= i < |r| ==> r[i] == Symbol(params[i], 4 + 4 * i, false)
  {
    seq(|params|, i requires 0 <= i < |params| => Symbol(params[i], 4 + 4 * i, false))
  }

  function TableOf(f: Func): Table { Collect(f.body, Table(ParamSymbols(f.params), 0)) }
}
