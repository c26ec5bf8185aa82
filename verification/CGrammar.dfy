/** The expression grammar of sections 6.5.1 to 6.5.16 of ISO/IEC 9899:2011 as far as the subset goes, one predicate a level,
    and that the parser accepts exactly its trees. */
module CGrammar {
  import opened Wrappers
  import opened CParser

  /** primary-expression: a constant, an identifier or an expression in parentheses. */
  predicate Primary(t: Tree)
    decreases t, 0
  {
    t.Num? || t.Name? || (t.Paren? && Expression(t.inner))
  }

  /** postfix-expression: a call, here of names only, or a subscript, to the left. */
  predicate Postfix(t: Tree)
    decreases t, 1
  {
    || Primary(t)
    || (t.Call? && Postfix(t.callee) && IsName(t.callee) && forall i :: 0 <= i < |t.args| ==> Expression(t.args[i]))
    || (t.Index? && Postfix(t.base) && Expression(t.idx))
  }

  /** unary-expression. */
  predicate UnaryExpr(t: Tree)
    decreases t, 2
  {
    Postfix(t) || (t.Unary? && t.op in {Minus, Bang, Tilde, Star, Amp} && UnaryExpr(t.arg))
  }

  /** multiplicative-expression. */
  predicate Multiplicative(t: Tree)
    decreases t, 3
  {
    UnaryExpr(t) || (t.Binary? && t.op in {Star, Slash, Percent} && Multiplicative(t.l) && UnaryExpr(t.r))
  }

  /** additive-expression. */
  predicate Additive(t: Tree)
    decreases t, 4
  {
    Multiplicative(t) || (t.Binary? && t.op in {Plus, Minus} && Additive(t.l) && Multiplicative(t.r))
  }

  /** shift-expression. */
  predicate Shift(t: Tree)
    decreases t, 5
  {
    Additive(t) || (t.Binary? && t.op in {Shl, Shr} && Shift(t.l) && Additive(t.r))
  }

  /** relational-expression. */
  predicate Relational(t: Tree)
    decreases t, 6
  {
    Shift(t) || (t.Binary? && t.op in {Lt, Gt, Le, Ge} && Relational(t.l) && Shift(t.r))
  }

  /** equality-expression. */
  predicate Equality(t: Tree)
    decreases t, 7
  {
    Relational(t) || (t.Binary? && t.op in {Eq, Ne} && Equality(t.l) && Relational(t.r))
  }

  /** AND-expression. */
  predicate BitAnd(t: Tree)
    decreases t, 8
  {
    Equality(t) || (t.Binary? && t.op == Amp && BitAnd(t.l) && Equality(t.r))
  }

  /** exclusive-OR-expression. */
  predicate BitXor(t: Tree)
    decreases t, 9
  {
    BitAnd(t) || (t.Binary? && t.op == Caret && BitXor(t.l) && BitAnd(t.r))
  }

  /** inclusive-OR-expression. */
  predicate BitOr(t: Tree)
    decreases t, 10
  {
    BitXor(t) || (t.Binary? && t.op == Pipe && BitOr(t.l) && BitXor(t.r))
  }

  /** logical-AND-expression. */
  predicate LogicalAnd(t: Tree)
    decreases t, 11
  {
    BitOr(t) || (t.Binary? && t.op == AndAnd && LogicalAnd(t.l) && BitOr(t.r))
  }

  /** logical-OR-expression. */
  predicate LogicalOr(t: Tree)
    decreases t, 12
  {
    LogicalAnd(t) || (t.Binary? && t.op == OrOr && LogicalOr(t.l) && LogicalAnd(t.r))
  }

  /** assignment-expression, to the right; the parser leaves it to the code generator to refuse a left side that is no lvalue. */
  predicate Expression(t: Tree)
    decreases t, 13
  {
    LogicalOr(t) || (t.Assignment? && LogicalOr(t.l) && Expression(t.r))
  }

  // ----- Well-formed trees are the grammar's trees -----

  /** Well formed, and bound at least so tightly. */
  predicate Tight(t: Tree, k: nat) { WellFormed(t) && k <= Root(t) }

  /** Every level of the grammar is the well-formed trees that bind at least so tightly. */
  ghost predicate Agrees(t: Tree) {
    && (Primary(t) <==> WellFormed(t) && (t.Num? || t.Name? || t.Paren?))
    && (Postfix(t) <==> Tight(t, POSTFIX))
    && (UnaryExpr(t) <==> Tight(t, UNARY))
    && (Multiplicative(t) <==> Tight(t, 10))
    && (Additive(t) <==> Tight(t, 9))
    && (Shift(t) <==> Tight(t, 8))
    && (Relational(t) <==> Tight(t, 7))
    && (Equality(t) <==> Tight(t, 6))
    && (BitAnd(t) <==> Tight(t, 5))
    && (BitXor(t) <==> Tight(t, 4))
    && (BitOr(t) <==> Tight(t, 3))
    && (LogicalAnd(t) <==> Tight(t, 2))
    && (LogicalOr(t) <==> Tight(t, 1))
    && (Expression(t) <==> WellFormed(t))
  }

  /** A binary tree is on level k if it is on the next tighter one, or its operator is of level k and its operands fit. */
  lemma BinaryLevel(t: Tree, k: nat)
    requires t.Binary? && 1 <= k
    ensures Tight(t, k) <==> Tight(t, k + 1) || (BinPrec(t.op) == k && Tight(t.l, k) && Tight(t.r, k + 1))
  {
  }

  lemma NoUnary(t: Tree)
    requires t.Binary? || t.Assignment?
    ensures !Primary(t) && !Postfix(t) && !UnaryExpr(t) && !Tight(t, UNARY)
  {
  }

  lemma ArithmeticAgrees(t: Tree)
    requires t.Binary? && Agrees(t.l) && Agrees(t.r)
    ensures Multiplicative(t) <==> Tight(t, 10)
    ensures Additive(t) <==> Tight(t, 9)
    ensures Shift(t) <==> Tight(t, 8)
    ensures Relational(t) <==> Tight(t, 7)
  {
    NoUnary(t);
    BinaryLevel(t, 10);
    BinaryLevel(t, 9);
    BinaryLevel(t, 8);
    BinaryLevel(t, 7);
    hide Tight, Primary, Postfix, UnaryExpr;
    assert Multiplicative(t) <==> Tight(t, 10);
    assert Additive(t) <==> Tight(t, 9);
    assert Shift(t) <==> Tight(t, 8);
  }

  lemma LogicAgrees(t: Tree)
    requires t.Binary? && Agrees(t.l) && Agrees(t.r) && (Relational(t) <==> Tight(t, 7))
    ensures Equality(t) <==> Tight(t, 6)
    ensures BitAnd(t) <==> Tight(t, 5)
    ensures BitXor(t) <==> Tight(t, 4)
    ensures BitOr(t) <==> Tight(t, 3)
  {
    BinaryLevel(t, 6);
    BinaryLevel(t, 5);
    BinaryLevel(t, 4);
    BinaryLevel(t, 3);
    hide Tight, Primary, Postfix, UnaryExpr, Multiplicative, Additive, Shift, Relational;
    assert Equality(t) <==> Tight(t, 6);
    assert BitAnd(t) <==> Tight(t, 5);
    assert BitXor(t) <==> Tight(t, 4);
  }

  lemma BinaryAgrees(t: Tree)
    requires t.Binary? && Agrees(t.l) && Agrees(t.r)
    ensures Agrees(t)
  {
    NoUnary(t);
    ArithmeticAgrees(t);
    LogicAgrees(t);
    BinaryLevel(t, 2);
    BinaryLevel(t, 1);
    assert WellFormed(t) <==> Tight(t, 1);
    hide Tight, WellFormed, Primary, Postfix, UnaryExpr, Multiplicative, Additive, Shift, Relational, Equality, BitAnd, BitXor, BitOr;
    assert LogicalAnd(t) <==> Tight(t, 2);
    assert LogicalOr(t) <==> Tight(t, 1);
  }

  /** What is on a level above the binary ones is on all levels below, and nothing else but assignments is. */
  lemma TightAgrees(t: Tree)
    requires !t.Binary? && !t.Assignment?
    requires Primary(t) <==> WellFormed(t) && (t.Num? || t.Name? || t.Paren?)
    requires Postfix(t) <==> Tight(t, POSTFIX)
    requires UnaryExpr(t) <==> WellFormed(t)
    ensures Agrees(t)
  {
    hide Primary, Postfix, UnaryExpr, WellFormed;
    assert Multiplicative(t) <==> WellFormed(t);
    assert Additive(t) <==> WellFormed(t);
    assert Shift(t) <==> WellFormed(t);
    assert Relational(t) <==> WellFormed(t);
    assert Equality(t) <==> WellFormed(t);
    assert BitAnd(t) <==> WellFormed(t);
    assert BitXor(t) <==> WellFormed(t);
    assert BitOr(t) <==> WellFormed(t);
    assert LogicalAnd(t) <==> WellFormed(t);
    assert LogicalOr(t) <==> WellFormed(t);
  }

  lemma AssignmentAgrees(t: Tree)
    requires t.Assignment? && Agrees(t.l) && Agrees(t.r)
    ensures Agrees(t)
  {
    NoUnary(t);
    assert !Multiplicative(t);
    assert !Additive(t);
    assert !Shift(t);
    assert !Relational(t);
    assert !Equality(t);
    assert !BitAnd(t);
    assert !BitXor(t);
    assert !BitOr(t);
    assert !LogicalAnd(t);
    assert !LogicalOr(t);
  }

  lemma {:induction false} LevelsAgree(t: Tree)
    ensures Agrees(t)
  {
    hide Agrees;
    match t
    case Num(_) => TightAgrees(t);
    case Name(_) => TightAgrees(t);
    case Paren(e) =>
      LevelsAgree(e);
      ParenAgrees(t);
    case Call(f, args) =>
      LevelsAgree(f);
      forall i | 0 <= i < |args| ensures Agrees(args[i]) {
        LevelsAgree(args[i]);
      }
      CallAgrees(t);
    case Index(b, i) =>
      LevelsAgree(b);
      LevelsAgree(i);
      IndexAgrees(t);
    case Unary(op, a) =>
      LevelsAgree(a);
      UnaryAgrees(t);
    case Binary(op, l, r) =>
      LevelsAgree(l);
      LevelsAgree(r);
      BinaryAgrees(t);
    case Assignment(l, r) =>
      LevelsAgree(l);
      LevelsAgree(r);
      AssignmentAgrees(t);
  }

  lemma ParenAgrees(t: Tree)
    requires t.Paren? && Agrees(t.inner)
    ensures Agrees(t)
  {
    assert Expression(t.inner) <==> WellFormed(t.inner);
    assert Primary(t) <==> WellFormed(t);
    hide Agrees;
    TightAgrees(t);
  }

  lemma CallAgrees(t: Tree)
    requires t.Call? && Agrees(t.callee) && forall i :: 0 <= i < |t.args| ==> Agrees(t.args[i])
    ensures Agrees(t)
  {
    assert forall i :: 0 <= i < |t.args| ==> (Expression(t.args[i]) <==> WellFormed(t.args[i])) by {
      forall i | 0 <= i < |t.args| ensures Expression(t.args[i]) <==> WellFormed(t.args[i]) {
        assert Agrees(t.args[i]);
      }
    }
    assert Postfix(t) <==> WellFormed(t);
    hide Agrees;
    TightAgrees(t);
  }

  lemma IndexAgrees(t: Tree)
    requires t.Index? && Agrees(t.base) && Agrees(t.idx)
    ensures Agrees(t)
  {
    assert Postfix(t) <==> WellFormed(t);
    hide Agrees;
    TightAgrees(t);
  }

  lemma UnaryAgrees(t: Tree)
    requires t.Unary? && Agrees(t.arg)
    ensures Agrees(t)
  {
    assert !Postfix(t);
    assert UnaryExpr(t) <==> WellFormed(t);
    hide Agrees;
    TightAgrees(t);
  }

  // ----- The parser -----

  /** Tokens with which an expression in front of them would go on. */
  predicate GoesOn(t: Token) {
    t in {OrOr, AndAnd, Pipe, Caret, Amp, Eq, Ne, Lt, Gt, Le, Ge, Shl, Shr, Plus, Minus, Star, Slash, Percent,
          Token.Assign, LParen, LBrack}
  }

  /** parse_expr succeeds exactly on the texts of the grammar's trees that do not go on, and returns the tree. */
  lemma ParsesGrammar(toks: seq<Token>, t: Tree, rest: seq<Token>)
    ensures ParseExpr(toks) == Some(Parsed(t, rest))
       <==> Expression(t) && !GoesOn(Peek(rest)) && toks == Spell(t, rest)
  {
    ParseExprIff(toks, t, rest);
    LevelsAgree(t);
    hide WellFormed, ParseExpr, Spell, Expression, LogicalOr;
  }
}
