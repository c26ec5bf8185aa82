/** The expression parser at work: a cursor over the tokens, building the abstract tree as it goes. */
module ParserUnit {
  import opened Wrappers
  import opened CParser
  import A = CAst

  function UnOpOf(t: Token): A.UnOp {
    match t
    case Minus => A.Neg
    case Tilde => A.Compl
    case Star => A.UnOp.Star
    case Amp => A.UnOp.Amp
    case _ => A.UnOp.Bang
  }

  function BinOpOf(t: Token): A.BinOp {
    match t
    case OrOr => A.BinOp.OrOr
    case AndAnd => A.BinOp.AndAnd
    case Pipe => A.BitOr
    case Caret => A.BitXor
    case Amp => A.BitAnd
    case Eq => A.BinOp.Eq
    case Ne => A.BinOp.Ne
    case Lt => A.BinOp.Lt
    case Le => A.BinOp.Le
    case Gt => A.BinOp.Gt
    case Ge => A.BinOp.Ge
    case Shl => A.ShiftL
    case Shr => A.ShiftR
    case Plus => A.BinOp.Plus
    case Minus => A.BinOp.Minus
    case Star => A.Times
    case Slash => A.BinOp.Slash
    case _ => A.BinOp.Percent
  }

  function NameIn(t: Tree): string {
    match t
    case Name(x) => x
    case Paren(e) => NameIn(e)
    case _ => ""
  }

  /** The abstract tree: no parentheses. */
  function Strip(t: Tree): A.Expr {
    match t
    case Num(v) => A.Int(v)
    case Name(x) => A.Var(x)
    case Paren(e) => Strip(e)
    case Call(f, args) => A.Call(NameIn(f), seq(|args|, i requires 0 <= i < |args| => Strip(args[i])))
    case Index(b, i) => A.Index(Strip(b), Strip(i))
    case Unary(op, a) => A.Unary(UnOpOf(op), Strip(a))
    case Binary(op, l, r) => A.Binary(BinOpOf(op), Strip(l), Strip(r))
    case Assignment(l, r) => A.Assign(Strip(l), Strip(r))
  }

  function StripAll(ts: seq<Tree>): seq<A.Expr> { seq(|ts|, i requires 0 <= i < |ts| => Strip(ts[i])) }

  lemma {:induction false} NameStrips(t: Tree)
    ensures IsName(t) <==> Strip(t).Var?
    ensures IsName(t) ==> Strip(t) == A.Var(NameIn(t))
  {
    if t.Paren? {
      NameStrips(t.inner);
    }
  }

  class Parser {
    const toks: seq<Token>
    var i: nat

    ghost predicate Valid()
      reads this
    {
      i < |toks| && toks[|toks| - 1] == EndOfInput
    }

    constructor (toks: seq<Token>)
      requires toks != [] && toks[|toks| - 1] == EndOfInput
      ensures Valid() && this.toks == toks && i == 0
    {
      this.toks := toks;
      i := 0;
    }

    ghost function Rest(): seq<Token>
      requires Valid()
      reads this
    {
      toks[i..]
    }

    /** The tree's abstract form came back and the cursor stands at the rest, or there is a syntax error. */
    ghost predicate Found(e: Option<A.Expr>, spec: Option<Parsed>)
      requires Valid()
      reads this
    {
      match spec
      case Some(r) => e == Some(Strip(r.t)) && Rest() == r.rest
      case None => e.None?
    }

    method Advance()
      requires Valid() && toks[i] != EndOfInput
      modifies this
      ensures Valid() && i == old(i) + 1 && Rest() == old(Rest())[1..]
    {
      i := i + 1;
    }

    /** Takes the next token if it is t. */
    method Accept(t: Token) returns (ok: bool)
      requires Valid() && t != EndOfInput
      modifies this
      ensures Valid() && ok == (CParser.Peek(old(Rest())) == t)
      ensures if ok then Rest() == old(Rest())[1..] && i == old(i) + 1 else i == old(i)
    {
      ok := toks[i] == t;
      if ok { Advance(); }
    }

    method ParsePrimary() returns (e: Option<A.Expr>)
      requires Valid()
      modifies this
      ensures Valid() && Found(e, CParser.ParsePrimary(old(Rest())))
      decreases |toks| - i, 0
    {
      hide CParser.ParseExpr;
      var t := toks[i];
      match t {
        case IntLit(v) =>
          Advance();
          e := Some(A.Int(v));
        case Ident(x) =>
          Advance();
          e := Some(A.Var(x));
        case LParen =>
          Advance();
          e := ParseExpr();
          if e.None? { return; }
          var ok := Accept(RParen);
          if !ok { e := None; }
        case _ => e := None;
      }
    }

    /** The arguments of a call, up to the closing parenthesis. */
    method ParseArgs() returns (args: Option<seq<A.Expr>>)
      requires Valid()
      modifies this
      ensures Valid() && match CParser.ParseArgs(old(Rest()))
                         case Some(r) => args == Some(StripAll(r.args)) && Rest() == r.rest
                         case None => args.None?
      decreases |toks| - i, 6
    {
      hide CParser.ParseExpr;
      if toks[i] == RParen {
        assert StripAll([]) == [];
        return Some([]);
      }
      var list: seq<A.Expr> := [];
      ghost var done: seq<Tree> := [];
      ghost var start := Rest();
      var more := true;
      ListPrefixedByNothing(ParseArgList(start));
      while more
        invariant Valid() && list == StripAll(done) && old(i) <= i
        invariant ParseArgList(start) == if more then ListPrefixed(done, ParseArgList(Rest())) else Some(ParsedArgs(done, Rest()))
        decreases more, |toks| - i
      {
        ghost var at := Rest();
        var e := ParseExpr();
        if e.None? { return None; }
        ghost var tree := CParser.ParseExpr(at).value.t;
        ArgStep(done, at);
        list := list + [e.value];
        done := done + [tree];
        more := Accept(Comma);
      }
      args := Some(list);
    }

    method ParsePostfix() returns (e: Option<A.Expr>)
      requires Valid()
      modifies this
      ensures Valid() && Found(e, CParser.ParsePostfix(old(Rest())))
      decreases |toks| - i, 1
    {
      hide CParser.ParsePrimary, CParser.ParseExpr, CParser.ParseArgs;
      ghost var start := Rest();
      e := ParsePrimary();
      if e.None? { return; }
      ghost var t := CParser.ParsePrimary(start).value.t;
      ghost var goal := CParser.ParsePostfix(start);
      hide CParser.ParsePostfix;
      while toks[i] == LParen || toks[i] == LBrack
        invariant Valid() && e == Some(Strip(t)) && PostfixLoop(t, Rest()) == goal && old(i) < i
        decreases |toks| - i
      {
        if toks[i] == LParen {
          e, t := ParseCall(e.value, t);
        } else {
          e, t := ParseSubscript(e.value, t);
        }
        if e.None? { return; }
      }
    }

    /** One call suffix: the tree so far must be a name. */
    method ParseCall(f: A.Expr, ghost t: Tree) returns (e: Option<A.Expr>, ghost u: Tree)
      requires Valid() && toks[i] == LParen && f == Strip(t)
      modifies this
      ensures Valid() && (if e.Some? then e == Some(Strip(u)) && i > old(i) && PostfixLoop(t, old(Rest())) == PostfixLoop(u, Rest())
                          else PostfixLoop(t, old(Rest())) == None)
      decreases |toks| - i, 7
    {
      hide CParser.ParseArgs;
      NameStrips(t);
      u := t;
      if !f.Var? { return None, u; }
      Advance();
      ghost var at := Rest();
      var args := ParseArgs();
      if args.None? { return None, u; }
      ghost var list := CParser.ParseArgs(at).value.args;
      var ok := Accept(RParen);
      if !ok { return None, u; }
      e := Some(A.Call(f.x, args.value));
      u := Call(t, list);
      assert Strip(u).args == args.value;
    }

    /** One subscript suffix. */
    method ParseSubscript(b: A.Expr, ghost t: Tree) returns (e: Option<A.Expr>, ghost u: Tree)
      requires Valid() && toks[i] == LBrack && b == Strip(t)
      modifies this
      ensures Valid() && (if e.Some? then e == Some(Strip(u)) && i > old(i) && PostfixLoop(t, old(Rest())) == PostfixLoop(u, Rest())
                          else PostfixLoop(t, old(Rest())) == None)
      decreases |toks| - i, 7
    {
      hide CParser.ParseExpr;
      u := t;
      Advance();
      ghost var at := Rest();
      var idx := ParseExpr();
      if idx.None? { return None, u; }
      ghost var tree := CParser.ParseExpr(at).value.t;
      var ok := Accept(RBrack);
      if !ok { return None, u; }
      e := Some(A.Index(b, idx.value));
      u := Index(t, tree);
    }

    method ParseUnary() returns (e: Option<A.Expr>)
      requires Valid()
      modifies this
      ensures Valid() && Found(e, CParser.ParseUnary(old(Rest())))
      decreases |toks| - i, 2
    {
      hide CParser.ParsePostfix;
      var t := toks[i];
      if IsUnary(t) {
        Advance();
        e := ParseUnary();
        if e.Some? { e := Some(A.Unary(UnOpOf(t), e.value)); }
      } else {
        e := ParsePostfix();
      }
    }

    method ParseBin(minPrec: nat) returns (e: Option<A.Expr>)
      requires Valid()
      modifies this
      ensures Valid() && Found(e, CParser.ParseBin(minPrec, old(Rest())))
      decreases |toks| - i, 3
    {
      hide CParser.ParseUnary;
      ghost var start := Rest();
      e := ParseUnary();
      if e.None? { return; }
      ghost var left := CParser.ParseUnary(start).value.t;
      ghost var goal := CParser.ParseBin(minPrec, start);
      hide CParser.ParseBin;
      var prec := BinPrec(toks[i]);
      while prec != 0 && minPrec <= prec
        invariant Valid() && e == Some(Strip(left)) && BinLoop(minPrec, left, Rest()) == goal && old(i) < i
        invariant prec == BinPrec(toks[i])
        decreases |toks| - i
      {
        var op := toks[i];
        Advance();
        ghost var at := Rest();
        var right := ParseBin(prec + 1);
        if right.None? { return None; }
        e := Some(A.Binary(BinOpOf(op), e.value, right.value));
        left := Binary(op, left, CParser.ParseBin(prec + 1, at).value.t);
        prec := BinPrec(toks[i]);
      }
    }

    method ParseExpr() returns (e: Option<A.Expr>)
      requires Valid()
      modifies this
      ensures Valid() && Found(e, CParser.ParseExpr(old(Rest())))
      decreases |toks| - i, 4
    {
      hide CParser.ParseBin;
      e := ParseBin(1);
      if e.None? { return; }
      var assigns := Accept(Token.Assign);
      if assigns {
        var right := ParseExpr();
        if right.None? { return None; }
        e := Some(A.Assign(e.value, right.value));
      }
    }
  }

  function ListPrefixed(done: seq<Tree>, spec: Option<ParsedArgs>): Option<ParsedArgs> {
    if spec.None? then None else Some(ParsedArgs(done + spec.value.args, spec.value.rest))
  }

  lemma ListPrefixedByNothing(spec: Option<ParsedArgs>)
    ensures ListPrefixed([], spec) == spec
  {
    if spec.Some? {
      assert [] + spec.value.args == spec.value.args;
    }
  }

  /** One more argument. */
  lemma ArgStep(done: seq<Tree>, toks: seq<Token>)
    requires CParser.ParseExpr(toks).Some?
    ensures var e := CParser.ParseExpr(toks).value;
            ListPrefixed(done, ParseArgList(toks))
            == if CParser.Peek(e.rest) == Comma then ListPrefixed(done + [e.t], ParseArgList(e.rest[1..]))
               else Some(ParsedArgs(done + [e.t], e.rest))
  {
    var e := CParser.ParseExpr(toks).value;
    hide CParser.ParseExpr;
    if CParser.Peek(e.rest) == Comma && ParseArgList(e.rest[1..]).Some? {
      var more := ParseArgList(e.rest[1..]).value;
      assert done + ([e.t] + more.args) == (done + [e.t]) + more.args;
    }
  }
}
