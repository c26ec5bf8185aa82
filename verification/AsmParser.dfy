/** The assembler's statement parser, as functions of the remaining tokens. */
module AsmParser {
  import opened Wrappers
  import opened InstStream
  import opened Isa
  import opened AsmLexer
  import W = Words

  /** A number, or a label to be looked up (its number is then ignored). */
  datatype Operand = Operand(imm: int, target: Option<string>)

  datatype Stmt =
    | Instr(f: Fields, target: Option<string>)
    | Label(name: string)
    | Org(addr: Word)
    | Data(value: Word, target: Option<string>)

  datatype Got<+T> = Got(v: T, rest: seq<Token>)

  function Next(toks: seq<Token>): Token { if toks == [] then Eof else toks[0] }

  // ----- Names -----

  function Lower(c: char): char { if 'A' <= c <= 'Z' then c + 32 as char else c }

  /** Equal but for upper and lower case. */
  predicate SameWord(a: string, b: string) {
    if a == [] || b == [] then a == b else Lower(a[0]) == Lower(b[0]) && SameWord(a[1..], b[1..])
  }

  const MNEMONICS: seq<Opcode> :=
    [NOP, HALT, RET, ADD, SUB, MUL, DIV, AND, OR, XOR, SHL, SHR, MOV, NOT, PUSH, POP, IN, OUT, LOADI, LOAD, STORE,
     JMP, JZ, JNZ, JG, JL, CALL]

  function FindFrom(name: string, k: nat): (r: Option<Opcode>)
    requires k <= |MNEMONICS|
    ensures r.Some? ==> r.value != Illegal && SameWord(name, OpcodeName(r.value))
    decreases |MNEMONICS| - k
  {
    if k == |MNEMONICS| then None
    else if SameWord(name, OpcodeName(MNEMONICS[k])) then Some(MNEMONICS[k])
    else FindFrom(name, k + 1)
  }

  function FindMnemonic(name: string): Option<Opcode> { FindFrom(name, 0) }

  // ----- Operands -----

  /** Conversion of a long to int32_t. */
  function ToInt32(v: int): int { W.Signed(W.Wrap(v)) }

  function Skip(toks: seq<Token>, t: Token): (r: Option<seq<Token>>)
    ensures r.Some? ==> |r.value| < |toks|
  {
    if Next(toks) == t && t != Eof then Some(toks[1..]) else None
  }

  function ParseReg(toks: seq<Token>): (r: Option<Got<Reg>>)
    ensures r.Some? ==> |r.value.rest| < |toks|
  {
    if Next(toks).RegTok? then Some(Got(toks[0].r, toks[1..])) else None
  }

  function ParseNum(toks: seq<Token>, neg: bool): (r: Option<Got<int>>)
    ensures r.Some? ==> |r.value.rest| < |toks|
  {
    if Next(toks).Num? then Some(Got(ToInt32(if neg then 0 - toks[0].v else toks[0].v), toks[1..])) else None
  }

  function ParseSigned(toks: seq<Token>): (r: Option<Got<int>>)
    ensures r.Some? ==> |r.value.rest| < |toks|
  {
    if Next(toks) == Minus then ParseNum(toks[1..], true) else ParseNum(toks, false)
  }

  function ParseImmOrLabel(toks: seq<Token>): (r: Option<Got<Operand>>)
    ensures r.Some? ==> |r.value.rest| < |toks|
  {
    if Next(toks).Ident? then Some(Got(Operand(0, Some(toks[0].text)), toks[1..]))
    else
      var n :- ParseSigned(toks);
      Some(Got(Operand(n.v, None), n.rest))
  }

  function ParseOffset(toks: seq<Token>): (r: Option<Got<int>>)
    ensures r.Some? ==> |r.value.rest| <= |toks|
  {
    if Next(toks) == Plus || Next(toks) == Minus then ParseNum(toks[1..], toks[0] == Minus) else Some(Got(0, toks))
  }

  datatype Mem = Mem(base: Reg, off: int)

  function ParseMem(toks: seq<Token>): (r: Option<Got<Mem>>)
    ensures r.Some? ==> |r.value.rest| < |toks|
  {
    var a :- Skip(toks, LBrack);
    var b :- ParseReg(a);
    var o :- ParseOffset(b.rest);
    var z :- Skip(o.rest, RBrack);
    Some(Got(Mem(b.v, o.v), z))
  }

  /** Fields an instruction does not name are zero, and only immediates can be labels. */
  predicate Proper(s: Stmt) {
    s.Instr? ==> s.f.op != Illegal && UnusedZero(s.f) && (s.target.Some? ==> FormatOf(s.f.op) in {RdImm, Imm})
  }

  function ParseOperands(op: Opcode, toks: seq<Token>): (r: Option<Got<Stmt>>)
    requires op != Illegal
    ensures r.Some? ==> |r.value.rest| <= |toks| && Proper(r.value.v)
  {
    match FormatOf(op)
    case Bare => Some(Got(Instr(Fields(op, 0, 0, 0), None), toks))
    case RdRs =>
      var d :- ParseReg(toks);
      var c :- Skip(d.rest, Comma);
      var s :- ParseReg(c);
      Some(Got(Instr(Fields(op, d.v, s.v, 0), None), s.rest))
    case Rd =>
      var d :- ParseReg(toks);
      Some(Got(Instr(Fields(op, d.v, 0, 0), None), d.rest))
    case RdImm =>
      var d :- ParseReg(toks);
      var c :- Skip(d.rest, Comma);
      var i :- ParseImmOrLabel(c);
      Some(Got(Instr(Fields(op, d.v, 0, i.v.imm), i.v.target), i.rest))
    case RdMem =>
      var d :- ParseReg(toks);
      var c :- Skip(d.rest, Comma);
      var m :- ParseMem(c);
      Some(Got(Instr(Fields(op, d.v, m.v.base, m.v.off), None), m.rest))
    case MemRs =>
      var m :- ParseMem(toks);
      var c :- Skip(m.rest, Comma);
      var s :- ParseReg(c);
      Some(Got(Instr(Fields(op, m.v.base, s.v, m.v.off), None), s.rest))
    case Imm =>
      var i :- ParseImmOrLabel(toks);
      Some(Got(Instr(Fields(op, 0, 0, i.v.imm), i.v.target), i.rest))
  }

  function ParseDirective(name: string, toks: seq<Token>): (r: Option<Got<Stmt>>)
    ensures r.Some? ==> |r.value.rest| <= |toks| && Proper(r.value.v)
  {
    if SameWord(name, "org") then
      var v :- ParseSigned(toks);
      Some(Got(Org(W.Wrap(v.v)), v.rest))
    else if SameWord(name, "word") then
      var v :- ParseImmOrLabel(toks);
      Some(Got(Data(W.Wrap(v.v.imm), v.v.target), v.rest))
    else None
  }

  /** A statement that starts with an identifier: a label if a colon follows, else an instruction. */
  function ParseNamed(name: string, toks: seq<Token>): (r: Option<Got<Stmt>>)
    ensures r.Some? ==> |r.value.rest| <= |toks| && Proper(r.value.v)
  {
    if Next(toks) == Colon then Some(Got(Label(name), toks[1..]))
    else
      var op :- FindMnemonic(name);
      ParseOperands(op, toks)
  }

  function ParseStmt(toks: seq<Token>): (r: Option<Got<Stmt>>)
    ensures r.Some? ==> |r.value.rest| < |toks| && Proper(r.value.v)
  {
    match Next(toks)
    case Directive(name) => ParseDirective(name, toks[1..])
    case Ident(name) => ParseNamed(name, toks[1..])
    case _ => None
  }

  function ParseStmts(toks: seq<Token>): Option<seq<Stmt>>
    decreases |toks|
  {
    if Next(toks) == Eof then Some([])
    else if Next(toks) == Newline then ParseStmts(toks[1..])
    else
      var s :- ParseStmt(toks);
      var rest :- ParseStmts(s.rest);
      Some([s.v] + rest)
  }

  /** The list of a program without statements is a null pointer, which the caller takes for an error. */
  function Parse(toks: seq<Token>): Option<seq<Stmt>> {
    var ss :- ParseStmts(toks);
    if ss == [] then None else Some(ss)
  }

  // ----- What parsed statements are like -----

  /** Every parsed instruction has a known opcode and nothing in the fields its format leaves out. */
  lemma {:induction false} StmtsProper(toks: seq<Token>)
    requires ParseStmts(toks).Some?
    ensures forall i :: 0 <= i < |ParseStmts(toks).value| ==> Proper(ParseStmts(toks).value[i])
    decreases |toks|
  {
    hide ParseStmt;
    if Next(toks) == Eof {
    } else if Next(toks) == Newline {
      StmtsProper(toks[1..]);
    } else {
      StmtsProper(ParseStmt(toks).value.rest);
    }
  }
}
