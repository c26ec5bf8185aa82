/** Precedence climbing: what the expression parser returns, that its tree spells the tokens it consumed, and that no other
    well-formed tree does. */
module CParser {
  import opened Wrappers

  datatype Token =
    | EndOfInput | IntLit(v: int) | Ident(x: string)
    | LParen | RParen | LBrack | RBrack | Comma | Assign
    | Plus | Minus | Star | Slash | Percent | Amp | Pipe | Caret | Tilde | Bang
    | Shl | Shr | Eq | Ne | Lt | Le | Gt | Ge | AndAnd | OrOr
    | Other(kind: string)

  /** Concrete trees, parentheses included. */
  datatype Tree =
    | Num(v: int)
    | Name(x: string)
    | Paren(inner: Tree)
    | Call(callee: Tree, args: seq<Tree>)
    | Index(base: Tree, idx: Tree)
    | Unary(op: Token, arg: Tree)
    | Binary(op: Token, l: Tree, r: Tree)
    | Assignment(l: Tree, r: Tree)

  /** Binding strength of binary operators; 0 is not a binary operator. */
  function BinPrec(t: Token): nat {
    match t
    case OrOr => 1
    case AndAnd => 2
    case Pipe => 3
    case Caret => 4
    case Amp => 5
    case Eq | Ne => 6
    case Lt | Le | Gt | Ge => 7
    case Shl | Shr => 8
    case Plus | Minus => 9
    case Star | Slash | Percent => 10
    case _ => 0
  }

  predicate IsUnary(t: Token) { t in {Minus, Bang, Tilde, Star, Amp} }

  const UNARY := 11
  const POSTFIX := 12

  function Peek(toks: seq<Token>): Token { if toks == [] then EndOfInput else toks[0] }

  /** Parentheses leave no trace in the tree the parser builds, so (f)(x) is a call of f. */
  predicate IsName(t: Tree) { t.Name? || (t.Paren? && IsName(t.inner)) }

  // ----- The parser as a function of the remaining tokens -----

  datatype Parsed = Parsed(t: Tree, rest: seq<Token>)

  datatype ParsedArgs = ParsedArgs(args: seq<Tree>, rest: seq<Token>)

  function ParsePrimary(toks: seq<Token>): (r: Option<Parsed>)
    ensures r.Some? ==> |r.value.rest| < |toks|
    decreases |toks|, 0
  {
    match Peek(toks)
    case IntLit(v) => Some(Parsed(Num(v), toks[1..]))
    case Ident(x) => Some(Parsed(Name(x), toks[1..]))
    case LParen =>
      var e :- ParseExpr(toks[1..]);
      if Peek(e.rest) == RParen then Some(Parsed(Paren(e.t), e.rest[1..])) else None
    case _ => None
  }

  function ParsePostfix(toks: seq<Token>): (r: Option<Parsed>)
    ensures r.Some? ==> |r.value.rest| < |toks|
    decreases |toks|, 1
  {
    var p :- ParsePrimary(toks);
    PostfixLoop(p.t, p.rest)
  }

  function PostfixLoop(t: Tree, toks: seq<Token>): (r: Option<Parsed>)
    ensures r.Some? ==> |r.value.rest| <= |toks|
    decreases |toks|, 6
  {
    match Peek(toks)
    case LParen =>
      if !IsName(t) then None
      else
        var a :- ParseArgs(toks[1..]);
        if Peek(a.rest) == RParen then PostfixLoop(Call(t, a.args), a.rest[1..]) else None
    case LBrack =>
      var i :- ParseExpr(toks[1..]);
      if Peek(i.rest) == RBrack then PostfixLoop(Index(t, i.t), i.rest[1..]) else None
    case _ => Some(Parsed(t, toks))
  }

  /** What stands between the parentheses of a call. */
  function ParseArgs(toks: seq<Token>): (r: Option<ParsedArgs>)
    ensures r.Some? ==> |r.value.rest| <= |toks|
    decreases |toks|, 6
  {
    if Peek(toks) == RParen then Some(ParsedArgs([], toks)) else ParseArgList(toks)
  }

  function ParseArgList(toks: seq<Token>): (r: Option<ParsedArgs>)
    ensures r.Some? ==> |r.value.rest| < |toks|
    decreases |toks|, 5
  {
    var e :- ParseExpr(toks);
    if Peek(e.rest) != Comma then Some(ParsedArgs([e.t], e.rest))
    else
      var more :- ParseArgList(e.rest[1..]);
      Some(ParsedArgs([e.t] + more.args, more.rest))
  }

  function ParseUnary(toks: seq<Token>): (r: Option<Parsed>)
    ensures r.Some? ==> |r.value.rest| < |toks|
    decreases |toks|, 2
  {
    if IsUnary(Peek(toks)) then
      var a :- ParseUnary(toks[1..]);
      Some(Parsed(Unary(toks[0], a.t), a.rest))
    else ParsePostfix(toks)
  }

  function ParseBin(minPrec: nat, toks: seq<Token>): (r: Option<Parsed>)
    ensures r.Some? ==> |r.value.rest| < |toks|
    decreases |toks|, 3
  {
    var left :- ParseUnary(toks);
    BinLoop(minPrec, left.t, left.rest)
  }

  function BinLoop(minPrec: nat, left: Tree, toks: seq<Token>): (r: Option<Parsed>)
    ensures r.Some? ==> |r.value.rest| <= |toks|
    decreases |toks|, 4
  {
    var prec := BinPrec(Peek(toks));
    if prec == 0 || prec < minPrec then Some(Parsed(left, toks))
    else
      var right :- ParseBin(prec + 1, toks[1..]);
      BinLoop(minPrec, Binary(toks[0], left, right.t), right.rest)
  }

  function ParseExpr(toks: seq<Token>): (r: Option<Parsed>)
    ensures r.Some? ==> |r.value.rest| < |toks|
    decreases |toks|, 4
  {
    var left :- ParseBin(1, toks);
    if Peek(left.rest) == Token.Assign then
      var right :- ParseExpr(left.rest[1..]);
      Some(Parsed(Assignment(left.t, right.t), right.rest))
    else Some(left)
  }

  // ----- Trees and their tokens -----

  /** A tree's tokens, in front of more tokens. */
  function Spell(t: Tree, rest: seq<Token>): seq<Token>
    decreases t, 1
  {
    match t
    case Num(v) => [IntLit(v)] + rest
    case Name(x) => [Ident(x)] + rest
    case Paren(e) => [LParen] + Spell(e, [RParen] + rest)
    case Call(f, args) => Spell(f, [LParen] + SpellArgs(t, 0, [RParen] + rest))
    case Index(b, i) => Spell(b, [LBrack] + Spell(i, [RBrack] + rest))
    case Unary(op, a) => [op] + Spell(a, rest)
    case Binary(op, l, r) => Spell(l, [op] + Spell(r, rest))
    case Assignment(l, r) => Spell(l, [Token.Assign] + Spell(r, rest))
  }

  /** Arguments from the k-th on, separated by commas. */
  function SpellArgs(t: Tree, k: nat, rest: seq<Token>): seq<Token>
    requires t.Call? && k <= |t.args|
    decreases t, 0, |t.args| - k
  {
    if k == |t.args| then rest
    else Spell(t.args[k], if k + 1 == |t.args| then rest else [Comma] + SpellArgs(t, k + 1, rest))
  }

  /** How tightly the root of a tree binds. */
  function Root(t: Tree): nat {
    match t
    case Assignment(_, _) => 0
    case Binary(op, _, _) => BinPrec(op)
    case Unary(_, _) => UNARY
    case _ => POSTFIX
  }

  /** Left operands bind at least as tightly as the operator and right ones more tightly, all the way down. */
  predicate WellFormed(t: Tree)
  {
    match t
    case Num(_) => true
    case Name(_) => true
    case Paren(e) => WellFormed(e)
    case Call(f, args) => WellFormed(f) && Root(f) == POSTFIX && IsName(f) && forall i :: 0 <= i < |args| ==> WellFormed(args[i])
    case Index(b, i) => WellFormed(b) && Root(b) == POSTFIX && WellFormed(i)
    case Unary(op, a) => IsUnary(op) && WellFormed(a) && UNARY <= Root(a)
    case Binary(op, l, r) => 1 <= BinPrec(op) && WellFormed(l) && WellFormed(r) && BinPrec(op) <= Root(l) && BinPrec(op) < Root(r)
    case Assignment(l, r) => WellFormed(l) && 1 <= Root(l) && WellFormed(r)
  }

  // ----- Soundness -----

  /** The tokens consumed are the tokens of the tree, which is well-formed. */
  ghost predicate Reads(toks: seq<Token>, r: Parsed) { WellFormed(r.t) && toks == Spell(r.t, r.rest) }

  predicate NoPostfix(toks: seq<Token>) { Peek(toks) != LParen && Peek(toks) != LBrack }

  predicate Stops(minPrec: nat, toks: seq<Token>) {
    NoPostfix(toks) && (BinPrec(Peek(toks)) == 0 || BinPrec(Peek(toks)) < minPrec)
  }

  predicate Ends(toks: seq<Token>) { Stops(1, toks) && Peek(toks) != Token.Assign }

  lemma {:induction false} PrimarySound(toks: seq<Token>)
    requires ParsePrimary(toks).Some?
    ensures var r := ParsePrimary(toks).value; Reads(toks, r) && Root(r.t) == POSTFIX
    decreases |toks|, 0
  {
    assert toks == [Peek(toks)] + toks[1..];
    if Peek(toks) == LParen {
      hide ParseExpr;
      ExprSound(toks[1..]);
      var e := ParseExpr(toks[1..]).value;
      assert e.rest == [RParen] + e.rest[1..];
    }
  }

  lemma {:induction false} PostfixSound(toks: seq<Token>)
    requires ParsePostfix(toks).Some?
    ensures var r := ParsePostfix(toks).value; Reads(toks, r) && Root(r.t) == POSTFIX && NoPostfix(r.rest)
    decreases |toks|, 1
  {
    hide ParsePrimary, PostfixLoop;
    PrimarySound(toks);
    var p := ParsePrimary(toks).value;
    PostfixLoopSound(p.t, p.rest);
  }

  lemma {:induction false} PostfixLoopSound(t: Tree, toks: seq<Token>)
    requires PostfixLoop(t, toks).Some? && WellFormed(t) && Root(t) == POSTFIX
    ensures var r := PostfixLoop(t, toks).value;
            WellFormed(r.t) && Root(r.t) == POSTFIX && NoPostfix(r.rest) && Spell(r.t, r.rest) == Spell(t, toks)
    decreases |toks|, 6
  {
    hide ParseExpr, ParseArgs;
    if Peek(toks) == LParen {
      assert toks == [LParen] + toks[1..];
      ArgsSound(t, toks[1..]);
      var a := ParseArgs(toks[1..]).value;
      assert a.rest == [RParen] + a.rest[1..];
      PostfixLoopSound(Call(t, a.args), a.rest[1..]);
    } else if Peek(toks) == LBrack {
      assert toks == [LBrack] + toks[1..];
      ExprSound(toks[1..]);
      var i := ParseExpr(toks[1..]).value;
      assert i.rest == [RBrack] + i.rest[1..];
      PostfixLoopSound(Index(t, i.t), i.rest[1..]);
    }
  }

  lemma {:induction false} ArgsSound(f: Tree, toks: seq<Token>)
    requires ParseArgs(toks).Some?
    ensures var a := ParseArgs(toks).value;
            toks == SpellArgs(Call(f, a.args), 0, a.rest) && forall i :: 0 <= i < |a.args| ==> WellFormed(a.args[i])
    decreases |toks|, 6
  {
    if Peek(toks) != RParen {
      hide ParseArgList;
      ArgListSound(f, [], toks);
      var a := ParseArgList(toks).value;
      assert [] + a.args == a.args;
    }
  }

  /** `before` are the arguments already read. */
  lemma {:induction false} ArgListSound(f: Tree, before: seq<Tree>, toks: seq<Token>)
    requires ParseArgList(toks).Some?
    ensures var a := ParseArgList(toks).value;
            && a.args != [] && toks == SpellArgs(Call(f, before + a.args), |before|, a.rest)
            && forall i :: 0 <= i < |a.args| ==> WellFormed(a.args[i])
    decreases |toks|, 5
  {
    hide ParseExpr, WellFormed, Root, Spell;
    ExprSound(toks);
    var e := ParseExpr(toks).value;
    if Peek(e.rest) != Comma {
      assert (before + [e.t])[|before|] == e.t;
    } else {
      assert e.rest == [Comma] + e.rest[1..];
      ArgListSound(f, before + [e.t], e.rest[1..]);
      var more := ParseArgList(e.rest[1..]).value;
      assert before + ([e.t] + more.args) == (before + [e.t]) + more.args;
      assert (before + ([e.t] + more.args))[|before|] == e.t;
    }
  }

  lemma {:induction false} UnarySound(toks: seq<Token>)
    requires ParseUnary(toks).Some?
    ensures var r := ParseUnary(toks).value; Reads(toks, r) && UNARY <= Root(r.t) && NoPostfix(r.rest)
    decreases |toks|, 2
  {
    hide ParsePostfix;
    if IsUnary(Peek(toks)) {
      assert toks == [toks[0]] + toks[1..];
      UnarySound(toks[1..]);
    } else {
      PostfixSound(toks);
    }
  }

  /** A successful parse_bin has read a well-formed tree that binds at least as tightly as asked, and stands before
      something that binds looser. */
  lemma {:induction false} BinSound(minPrec: nat, toks: seq<Token>)
    requires ParseBin(minPrec, toks).Some? && 1 <= minPrec <= UNARY
    ensures var r := ParseBin(minPrec, toks).value; Reads(toks, r) && minPrec <= Root(r.t) && Stops(minPrec, r.rest)
    decreases |toks|, 3
  {
    hide ParseUnary, BinLoop;
    UnarySound(toks);
    var left := ParseUnary(toks).value;
    BinLoopSound(minPrec, left.t, left.rest);
  }

  lemma {:induction false} BinLoopSound(minPrec: nat, left: Tree, toks: seq<Token>)
    requires BinLoop(minPrec, left, toks).Some? && 1 <= minPrec <= UNARY
    requires WellFormed(left) && minPrec <= Root(left) && BinPrec(Peek(toks)) <= Root(left) && NoPostfix(toks)
    ensures var r := BinLoop(minPrec, left, toks).value;
            WellFormed(r.t) && minPrec <= Root(r.t) && Stops(minPrec, r.rest) && Spell(r.t, r.rest) == Spell(left, toks)
    decreases |toks|, 4
  {
    hide ParseBin;
    var prec := BinPrec(Peek(toks));
    if prec != 0 && minPrec <= prec {
      assert toks == [toks[0]] + toks[1..];
      BinSound(prec + 1, toks[1..]);
      var right := ParseBin(prec + 1, toks[1..]).value;
      BinLoopSound(minPrec, Binary(toks[0], left, right.t), right.rest);
    }
  }

  lemma {:induction false} ExprSound(toks: seq<Token>)
    requires ParseExpr(toks).Some?
    ensures var r := ParseExpr(toks).value; Reads(toks, r) && Ends(r.rest)
    decreases |toks|, 4
  {
    hide ParseBin;
    BinSound(1, toks);
    var left := ParseBin(1, toks).value;
    if Peek(left.rest) == Token.Assign {
      assert left.rest == [Token.Assign] + left.rest[1..];
      ExprSound(left.rest[1..]);
    }
  }

  // ----- Completeness -----

  predicate StartsPrimary(t: Token) { t.IntLit? || t.Ident? || t == LParen }

  lemma {:induction false} FirstToken(t: Tree, rest: seq<Token>)
    requires WellFormed(t)
    ensures Spell(t, rest) != [] && (StartsPrimary(Spell(t, rest)[0]) || IsUnary(Spell(t, rest)[0]))
    ensures Root(t) == POSTFIX ==> StartsPrimary(Spell(t, rest)[0])
  {
    match t
    case Call(f, _) => FirstToken(f, [LParen] + SpellArgs(t, 0, [RParen] + rest));
    case Index(b, i) => FirstToken(b, [LBrack] + Spell(i, [RBrack] + rest));
    case Binary(op, l, r) => FirstToken(l, [op] + Spell(r, rest));
    case Assignment(l, r) => FirstToken(l, [Token.Assign] + Spell(r, rest));
    case _ =>
  }

  /** Reading a postfix expression's tokens leads to the loop with the whole tree in hand. */
  lemma {:induction false} ReadPostfix(t: Tree, rest: seq<Token>)
    requires WellFormed(t) && Root(t) == POSTFIX
    ensures ParsePostfix(Spell(t, rest)) == PostfixLoop(t, rest)
    decreases t, 2
  {
    match t
    case Num(v) => assert ([IntLit(v)] + rest)[1..] == rest;
    case Name(x) => assert ([Ident(x)] + rest)[1..] == rest;
    case Paren(_) => ReadParen(t, rest);
    case Call(_, _) => ReadCall(t, rest);
    case Index(_, _) => ReadIndex(t, rest);
  }

  lemma {:induction false} ReadParen(t: Tree, rest: seq<Token>)
    requires t.Paren? && WellFormed(t)
    ensures ParsePostfix(Spell(t, rest)) == PostfixLoop(t, rest)
    decreases t, 1
  {
    hide ParseExpr;
    var tail := Spell(t.inner, [RParen] + rest);
    assert ([LParen] + tail)[1..] == tail;
    ReadExpr(t.inner, [RParen] + rest);
    assert ([RParen] + rest)[1..] == rest;
  }

  lemma {:induction false} ReadCall(t: Tree, rest: seq<Token>)
    requires t.Call? && WellFormed(t)
    ensures ParsePostfix(Spell(t, rest)) == PostfixLoop(t, rest)
    decreases t, 1
  {
    hide ParsePostfix, ParseArgs;
    var tail := SpellArgs(t, 0, [RParen] + rest);
    ReadPostfix(t.callee, [LParen] + tail);
    assert ([LParen] + tail)[1..] == tail;
    ReadArgs(t, rest);
    assert ([RParen] + rest)[1..] == rest;
    assert Call(t.callee, t.args) == t;
  }

  lemma {:induction false} ReadIndex(t: Tree, rest: seq<Token>)
    requires t.Index? && WellFormed(t)
    ensures ParsePostfix(Spell(t, rest)) == PostfixLoop(t, rest)
    decreases t, 1
  {
    hide ParsePostfix, ParseExpr;
    var tail := Spell(t.idx, [RBrack] + rest);
    ReadPostfix(t.base, [LBrack] + tail);
    assert ([LBrack] + tail)[1..] == tail;
    ReadExpr(t.idx, [RBrack] + rest);
    assert ([RBrack] + rest)[1..] == rest;
  }

  lemma {:induction false} ReadArgs(t: Tree, rest: seq<Token>)
    requires t.Call? && forall i :: 0 <= i < |t.args| ==> WellFormed(t.args[i])
    ensures ParseArgs(SpellArgs(t, 0, [RParen] + rest)) == Some(ParsedArgs(t.args, [RParen] + rest))
    decreases t, 0
  {
    if t.args != [] {
      hide ParseArgList;
      ReadArgList(t, 0, rest);
      FirstToken(t.args[0], if 1 == |t.args| then [RParen] + rest else [Comma] + SpellArgs(t, 1, [RParen] + rest));
    }
  }

  lemma {:induction false} ReadArgList(t: Tree, k: nat, rest: seq<Token>)
    requires t.Call? && k < |t.args| && forall i :: 0 <= i < |t.args| ==> WellFormed(t.args[i])
    ensures ParseArgList(SpellArgs(t, k, [RParen] + rest)) == Some(ParsedArgs(t.args[k..], [RParen] + rest))
    decreases t, 0, |t.args| - k
  {
    hide ParseExpr, WellFormed;
    var close := [RParen] + rest;
    if k + 1 == |t.args| {
      ReadExpr(t.args[k], close);
      assert t.args[k..] == [t.args[k]];
    } else {
      var tail := SpellArgs(t, k + 1, close);
      ReadExpr(t.args[k], [Comma] + tail);
      assert ([Comma] + tail)[1..] == tail;
      ReadArgList(t, k + 1, rest);
      assert t.args[k..] == [t.args[k]] + t.args[k + 1..];
    }
  }

  lemma {:induction false} ReadUnary(t: Tree, rest: seq<Token>)
    requires WellFormed(t) && UNARY <= Root(t) && NoPostfix(rest)
    ensures ParseUnary(Spell(t, rest)) == Some(Parsed(t, rest))
    decreases t, 3
  {
    if t.Unary? {
      assert ([t.op] + Spell(t.arg, rest))[1..] == Spell(t.arg, rest);
      ReadUnary(t.arg, rest);
    } else {
      RootOfRest(t);
      hide ParsePostfix;
      FirstToken(t, rest);
      ReadPostfix(t, rest);
      hide Spell;
    }
  }

  lemma RootOfRest(t: Tree)
    requires UNARY <= Root(t) && !t.Unary?
    ensures Root(t) == POSTFIX
  {
  }

  /** Reading the tokens of a tree that binds tightly enough leads to the loop with the whole tree as left operand. */
  lemma {:induction false} ReadBin(t: Tree, minPrec: nat, rest: seq<Token>)
    requires WellFormed(t) && 1 <= minPrec <= Root(t) && NoPostfix(rest) && BinPrec(Peek(rest)) <= Root(t)
    ensures ParseBin(minPrec, Spell(t, rest)) == BinLoop(minPrec, t, rest)
    decreases t, 4
  {
    if t.Binary? {
      var tail := Spell(t.r, rest);
      assert ([t.op] + tail)[1..] == tail && Peek([t.op] + tail) == t.op;
      ReadBin(t.l, minPrec, [t.op] + tail);
      ReadBin(t.r, BinPrec(t.op) + 1, rest);
    } else {
      ReadUnary(t, rest);
    }
  }

  lemma {:induction false} ReadExpr(t: Tree, rest: seq<Token>)
    requires WellFormed(t) && Ends(rest)
    ensures ParseExpr(Spell(t, rest)) == Some(Parsed(t, rest))
    decreases t, 5
  {
    if t.Assignment? {
      var tail := Spell(t.r, rest);
      assert ([Token.Assign] + tail)[1..] == tail && Peek([Token.Assign] + tail) == Token.Assign;
      ReadBin(t.l, 1, [Token.Assign] + tail);
      ReadExpr(t.r, rest);
    } else {
      ReadBin(t, 1, rest);
    }
  }

  // ----- The parser characterised -----

  /** parse_bin succeeds with t in front of rest exactly when t is a well-formed tree of the tokens in between that binds at
      least as tightly as minPrec, and what follows binds looser. */
  lemma ParseBinIff(minPrec: nat, toks: seq<Token>, t: Tree, rest: seq<Token>)
    requires 1 <= minPrec <= UNARY
    ensures ParseBin(minPrec, toks) == Some(Parsed(t, rest))
       <==> WellFormed(t) && minPrec <= Root(t) && Stops(minPrec, rest) && toks == Spell(t, rest)
  {
    if ParseBin(minPrec, toks).Some? {
      BinSound(minPrec, toks);
    }
    if WellFormed(t) && minPrec <= Root(t) && Stops(minPrec, rest) && toks == Spell(t, rest) {
      ReadBin(t, minPrec, rest);
    }
  }

  lemma ParseExprIff(toks: seq<Token>, t: Tree, rest: seq<Token>)
    ensures ParseExpr(toks) == Some(Parsed(t, rest)) <==> WellFormed(t) && Ends(rest) && toks == Spell(t, rest)
  {
    if ParseExpr(toks).Some? {
      ExprSound(toks);
    }
    if WellFormed(t) && Ends(rest) && toks == Spell(t, rest) {
      ReadExpr(t, rest);
    }
  }

  /** The grammar is unambiguous: one text, one tree. */
  lemma Unambiguous(t: Tree, u: Tree, rest: seq<Token>)
    requires WellFormed(t) && WellFormed(u) && Ends(rest) && Spell(t, rest) == Spell(u, rest)
    ensures t == u
  {
    ParseExprIff(Spell(t, rest), t, rest);
    ParseExprIff(Spell(u, rest), u, rest);
  }
}
