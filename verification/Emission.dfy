/** The code generator's output as text, and the assembler reading it: each line parses to the statement it stands for. */
module Emission {
  import opened Wrappers
  import opened M = Machine
  import opened Isa
  import opened Hardware
  import opened Linker
  import opened AsmLexer
  import opened AsmReading
  import I = InstStream
  import X = AsmLexer
  import P = AsmParser
  import R = AsmRoundTrip
  import W = Words

  const INDENT := "        "
  const HEADER := "; generated by mcc\n"

  // ----- Printing -----

  /** One line as printed, followed by `rest`. */
  function LineText(l: Line, rest: string): string {
    match l
    case Lab(x) => LabelText(x) + (":" + rest)
    case Data(w) => INDENT + (".word" + (" " + (SignedDecimal(w) + rest)))
    case Op(i) => INDENT + InstrText(i, rest)
  }

  function InstrText(i: Instr, rest: string): string {
    if Target(i).None? then OpcodeName(Shape(i).op) + OperandText(Shape(i), rest)
    else if i.LoadA? then OpcodeName(Shape(i).op) + (" " + (RegName(i.rd) + (", " + (LabelText(Target(i).value) + rest))))
    else OpcodeName(Shape(i).op) + (" " + (LabelText(Target(i).value) + rest))
  }

  function LinesText(lines: seq<Line>): string {
    if lines == [] then [] else LineText(lines[0], "\n" + LinesText(lines[1..]))
  }

  /** The whole assembly file. */
  function FileText(lines: seq<Line>): string { HEADER + LinesText(lines) }

  /** An identifier that the lexer takes whole and not for a register. */
  predicate GoodName(s: string) {
    && s != [] && |s| <= NAME_MAX && (IsAlpha(s[0]) || s[0] == '_') && !IsReg(s)
    && forall i :: 0 <= i < |s| ==> WordChar(s[i], true)
  }

  /** Numbers fit the C types they are printed from, and labels are identifiers. */
  predicate Printable(l: Line) {
    match l
    case Lab(x) => GoodName(LabelText(x))
    case Data(w) => -LONG_MAX <= w <= LONG_MAX
    case Op(i) => IsInt32(Shape(i).imm) && (Target(i).Some? ==> GoodName(LabelText(Target(i).value)))
  }

  // ----- Lexing -----

  lemma {:induction false} LexSpaces(n: nat, rest: string)
    ensures Lex(seq(n, _ => ' ') + rest) == Lex(rest)
  {
    hide Lex;
    if n == 0 {
      assert seq(0, _ => ' ') + rest == rest;
    } else {
      LexSpaces(n - 1, rest);
      assert seq(n, _ => ' ') + rest == " " + (seq(n - 1, _ => ' ') + rest);
      LexSpace(seq(n - 1, _ => ' ') + rest);
    }
  }

  lemma LexIndent(rest: string)
    ensures Lex(INDENT + rest) == Lex(rest)
  {
    hide Lex;
    assert INDENT == seq(8, _ => ' ');
    LexSpaces(8, rest);
  }

  lemma LexName(s: string, rest: string)
    requires GoodName(s) && !WordChar(X.Peek(rest), true)
    ensures Lex(s + rest) == Before(Ident(s), Lex(rest))
  {
    hide Lex, WordChar, IsAlpha;
    LexWord(s, rest);
  }

  function InstrTokens(i: Instr, r: Option<seq<Token>>): Option<seq<Token>> {
    if Target(i).None? then Before(Ident(OpcodeName(Shape(i).op)), OperandTokens(Shape(i), r))
    else
      var name := Before(Ident(LabelText(Target(i).value)), r);
      Before(Ident(OpcodeName(Shape(i).op)), if i.LoadA? then Before(RegTok(i.rd), Before(Comma, name)) else name)
  }

  function LineTokens(l: Line, r: Option<seq<Token>>): Option<seq<Token>> {
    match l
    case Lab(x) => Before(Ident(LabelText(x)), Before(Colon, r))
    case Data(w) => Before(Directive("word"), SignedTokens(w, r))
    case Op(i) => InstrTokens(i, r)
  }

  lemma LexMnemonic(op: I.Opcode, rest: string)
    requires op != I.Illegal && !WordChar(X.Peek(rest), true)
    ensures Lex(OpcodeName(op) + rest) == Before(Ident(OpcodeName(op)), Lex(rest))
  {
    NameIsWord(op);
    hide Lex, OpcodeName, NameToken;
    LexWord(OpcodeName(op), rest);
  }

  lemma OperandsBreak(f: Fields, rest: string)
    requires X.Peek(rest) == '\n'
    ensures !WordChar(X.Peek(OperandText(f, rest)), true)
  {
    OperandsClose(f, rest);
  }

  lemma LexInstr(i: Instr, rest: string)
    requires Printable(Op(i)) && X.Peek(rest) == '\n'
    ensures Lex(InstrText(i, rest)) == InstrTokens(i, Lex(rest))
  {
    var f := Shape(i);
    if Target(i).None? {
      OperandsBreak(f, rest);
      hide Lex, OperandText, OperandTokens, OpcodeName, Shape, WordChar;
      LexMnemonic(f.op, OperandText(f, rest));
      LexOperands(f, rest);
    } else {
      var t := LabelText(Target(i).value);
      assert !WordChar(X.Peek(rest), true) && !WordChar(' ', true);
      hide Lex, OpcodeName, Shape, WordChar, GoodName, RegName;
      LexName(t, rest);
      if i.LoadA? {
        LexComma(t + rest);
        LexReg(i.rd, ", " + (t + rest));
        LexSpace(RegName(i.rd) + (", " + (t + rest)));
        LexMnemonic(f.op, " " + (RegName(i.rd) + (", " + (t + rest))));
      } else {
        LexSpace(t + rest);
        LexMnemonic(f.op, " " + (t + rest));
      }
    }
  }

  lemma LexDirective(rest: string)
    requires !WordChar(X.Peek(rest), false)
    ensures Lex(".word" + rest) == Before(Directive("word"), Lex(rest))
  {
    var s := ".word" + rest;
    assert s[0] == '.' && s[1..] == "word" + rest;
    DirectiveWord(rest);
    assert s[1..][..4] == "word" && s[1..][4..] == rest;
    hide WordLen, Lex;
    assert ScanOne(s) == Found(Directive("word"), rest);
    LexFound(s, Directive("word"), rest);
  }

  lemma DirectiveWord(rest: string)
    requires !WordChar(X.Peek(rest), false)
    ensures WordLen("word" + rest, false, NAME_MAX) == 4
  {
    assert ("word" + rest)[1..] == "ord" + rest && ("ord" + rest)[1..] == "rd" + rest;
    assert ("rd" + rest)[1..] == "d" + rest && ("d" + rest)[1..] == rest;
    assert WordLen(rest, false, NAME_MAX - 4) == 0;
    assert WordLen("d" + rest, false, NAME_MAX - 3) == 1;
    assert WordLen("rd" + rest, false, NAME_MAX - 2) == 2;
    assert WordLen("ord" + rest, false, NAME_MAX - 1) == 3;
  }

  lemma LexLine(l: Line, rest: string)
    requires Printable(l) && X.Peek(rest) == '\n'
    ensures Lex(LineText(l, rest)) == LineTokens(l, Lex(rest))
  {
    hide Lex, InstrText, InstrTokens, Decimal;
    match l
    case Lab(x) =>
      LexMark(':', rest);
      LexName(LabelText(x), ":" + rest);
    case Data(w) =>
      LexSigned(w, rest);
      LexSpace(SignedDecimal(w) + rest);
      LexDirective(" " + (SignedDecimal(w) + rest));
      LexIndent(".word" + (" " + (SignedDecimal(w) + rest)));
    case Op(i) =>
      LexInstr(i, rest);
      LexIndent(InstrText(i, rest));
  }

  // ----- Parsing -----

  lemma ShapeTidy(i: Instr)
    ensures Tidy(Shape(i)) == Shape(i)
  {
  }

  lemma ParsePlain(i: Instr, ts: seq<Token>)
    requires Target(i).None? && IsInt32(Shape(i).imm) && P.Next(ts) == Newline
    ensures InstrTokens(i, Some(ts)).Some?
    ensures P.ParseStmt(InstrTokens(i, Some(ts)).value) == Some(P.Got(StmtOf(Op(i)), ts))
  {
    ShapeTidy(i);
    hide OperandTokens, P.ParseStmt, Tidy, OpcodeName, Shape;
    ParseInstructionBack(Shape(i), ts);
  }

  lemma ParseMnemonic(op: I.Opcode, ops: seq<Token>)
    requires op != I.Illegal && P.Next(ops) != Colon
    ensures P.ParseStmt([Ident(OpcodeName(op))] + ops) == P.ParseOperands(op, ops)
  {
    MnemonicFound(op);
    assert ([Ident(OpcodeName(op))] + ops)[1..] == ops;
    hide OpcodeName, P.FindMnemonic, P.ParseOperands;
  }

  lemma ParseJump(i: Instr, ts: seq<Token>)
    requires Target(i).Some? && !i.LoadA? && P.Next(ts) == Newline
    ensures InstrTokens(i, Some(ts)).Some?
    ensures P.ParseStmt(InstrTokens(i, Some(ts)).value) == Some(P.Got(StmtOf(Op(i)), ts))
  {
    var op, name := Shape(i).op, [Ident(LabelText(Target(i).value))] + ts;
    assert FormatOf(op) == Imm && Shape(i) == Fields(op, 0, 0, 0);
    LabelOperand(op, LabelText(Target(i).value), ts);
    hide OpcodeName, P.ParseStmt, P.ParseOperands, LabelText, Shape, FormatOf;
    ParseMnemonic(op, name);
  }

  lemma LabelOperand(op: I.Opcode, x: string, ts: seq<Token>)
    requires FormatOf(op) == Imm
    ensures P.ParseOperands(op, [Ident(x)] + ts) == Some(P.Got(P.Instr(Fields(op, 0, 0, 0), Some(x)), ts))
  {
    assert ([Ident(x)] + ts)[1..] == ts;
  }

  lemma ParseAddress(i: Instr, ts: seq<Token>)
    requires i.LoadA? && P.Next(ts) == Newline
    ensures InstrTokens(i, Some(ts)).Some?
    ensures P.ParseStmt(InstrTokens(i, Some(ts)).value) == Some(P.Got(StmtOf(Op(i)), ts))
  {
    var name := [Ident(i.name)] + ts;
    var ops := [RegTok(i.rd)] + ([Comma] + name);
    ParseMnemonic(I.LOADI, ops);
    AddressOperands(i.rd, i.name, ts);
    hide OpcodeName, P.ParseStmt, P.ParseOperands;
  }

  lemma AddressOperands(d: I.Reg, x: string, ts: seq<Token>)
    ensures P.ParseOperands(I.LOADI, [RegTok(d)] + ([Comma] + ([Ident(x)] + ts)))
         == Some(P.Got(P.Instr(Fields(I.LOADI, d, 0, 0), Some(x)), ts))
  {
    var name := [Ident(x)] + ts;
    Unfold(d, name);
    assert name[1..] == ts;
  }

  lemma ParseInstr(i: Instr, ts: seq<Token>)
    requires Printable(Op(i)) && P.Next(ts) == Newline
    ensures InstrTokens(i, Some(ts)).Some?
    ensures P.ParseStmt(InstrTokens(i, Some(ts)).value) == Some(P.Got(StmtOf(Op(i)), ts))
  {
    hide InstrTokens, P.ParseStmt, StmtOf;
    if Target(i).None? {
      ParsePlain(i, ts);
    } else if i.LoadA? {
      ParseAddress(i, ts);
    } else {
      ParseJump(i, ts);
    }
  }

  lemma Truncated(w: int)
    ensures W.Wrap(P.ToInt32(w)) == W.Wrap(w)
  {
  }

  lemma WordDirective()
    ensures P.SameWord("word", "word") && !P.SameWord("word", "org")
  {
    SameWordReflexive("word");
    if P.SameWord("word", "org") {
      SameWordAt("word", "org", 0);
    }
  }

  lemma ParseLine(l: Line, ts: seq<Token>)
    requires Printable(l) && P.Next(ts) == Newline
    ensures LineTokens(l, Some(ts)).Some?
    ensures P.ParseStmt(LineTokens(l, Some(ts)).value) == Some(P.Got(StmtOf(l), ts))
  {
    hide SignedTokens, P.ParseImmOrLabel, P.SameWord, InstrTokens, LabelText;
    match l
    case Lab(x) =>
      var c := [Colon] + ts;
      assert c[1..] == ts && ([Ident(LabelText(x))] + c)[1..] == c;
    case Data(w) =>
      ParseSignedValue(w, ts);
      WordDirective();
      Truncated(w);
      var n := SignedTokens(w, Some(ts)).value;
      assert ([Directive("word")] + n)[1..] == n;
    case Op(i) => ParseInstr(i, ts);
  }

  lemma ParseOne(toks: seq<Token>, s: P.Stmt, rest: seq<Token>, ss: seq<P.Stmt>)
    requires P.ParseStmt(toks) == Some(P.Got(s, rest)) && P.ParseStmts(rest) == Some(ss)
    ensures P.ParseStmts(toks) == Some([s] + ss)
  {
    hide P.ParseDirective, P.ParseNamed;
  }

  /** The text of printable lines parses to their statements. */
  lemma {:induction false} ReadLines(lines: seq<Line>)
    requires forall i :: 0 <= i < |lines| ==> Printable(lines[i])
    ensures Lex(LinesText(lines)).Some? && P.ParseStmts(Lex(LinesText(lines)).value) == Some(StmtsOf(lines))
  {
    hide Lex, P.ParseStmts, P.ParseStmt, LineText, LineTokens, StmtOf, Printable;
    if lines == [] {
      assert Lex([]) == Some([Eof]) by { EmptyText(); }
      assert P.ParseStmts([Eof]) == Some([]) by { EmptyText(); }
    } else {
      var tail := LinesText(lines[1..]);
      ReadLines(lines[1..]);
      LexNewline(tail);
      LexLine(lines[0], "\n" + tail);
      var ts := Lex(tail).value;
      R.ParseNewline(ts);
      ParseLine(lines[0], [Newline] + ts);
      ParseOne(LineTokens(lines[0], Some([Newline] + ts)).value, StmtOf(lines[0]), [Newline] + ts, StmtsOf(lines[1..]));
    }
  }

  lemma EmptyText()
    ensures Lex([]) == Some([Eof]) && P.ParseStmts([Eof]) == Some([])
  {
  }

  lemma {:induction false} CommentEnds(s: string, rest: string)
    requires forall i :: 0 <= i < |s| ==> s[i] != '\0' && s[i] != '\n'
    ensures CommentLen(s + ("\n" + rest)) == |s|
  {
    if s == [] {
      assert s + ("\n" + rest) == "\n" + rest;
    } else {
      assert (s + ("\n" + rest))[1..] == s[1..] + ("\n" + rest);
      CommentEnds(s[1..], rest);
    }
  }

  lemma LexHeader(rest: string)
    ensures Lex(HEADER + rest) == Before(Newline, Lex(rest))
  {
    var comment := "; generated by mcc";
    var s := comment + ("\n" + rest);
    assert HEADER + rest == s;
    CommentEnds(comment, rest);
    assert s[|comment|..] == "\n" + rest;
    hide CommentLen;
    assert ScanOne(s) == Blank("\n" + rest);
    assert Lex(s) == Lex("\n" + rest);
    hide Lex;
    LexNewline(rest);
  }

  /** The file assembles from exactly the lines' statements. */
  lemma ReadFile(lines: seq<Line>)
    requires lines != [] && forall i :: 0 <= i < |lines| ==> Printable(lines[i])
    ensures Lex(FileText(lines)).Some? && P.Parse(Lex(FileText(lines)).value) == Some(StmtsOf(lines))
  {
    hide Lex, P.ParseStmts, LinesText, StmtsOf, Printable;
    ReadLines(lines);
    LexHeader(LinesText(lines));
    R.ParseNewline(Lex(LinesText(lines)).value);
  }
}
