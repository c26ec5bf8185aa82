/** Reading disassembly back: its tokens, and the statement they parse to. */
module AsmReading {
  import opened Wrappers
  import opened InstStream
  import opened Isa
  import opened AsmLexer
  import opened AsmParser

  // ----- Lexing -----

  /** What may follow a number or a name without being read as part of it. */
  predicate Closes(s: string) { Peek(s) in {'\n', ']', ',', ' ', '+', '-'} }

  lemma LexFound(s: string, t: Token, rest: string)
    requires Peek(s) != '\0' && ScanOne(s) == Found(t, rest)
    ensures Lex(s) == Before(t, Lex(rest))
  {
    hide ScanOne;
  }

  lemma LexMark(c: char, rest: string)
    requires Punctuation(c).Some?
    ensures Lex([c] + rest) == Before(Punctuation(c).value, Lex(rest))
  {
    assert ([c] + rest)[1..] == rest && ([c] + rest)[0] == c;
    assert c != '\0' && c != '\n' && c != ';' && !IsSpace(c);
    hide Lex, Punctuation, IsSpace;
    LexFound([c] + rest, Punctuation(c).value, rest);
  }

  lemma LexSpace(rest: string)
    ensures Lex(" " + rest) == Lex(rest)
  {
    assert (" " + rest)[1..] == rest;
  }

  lemma LexNewline(rest: string)
    ensures Lex("\n" + rest) == Before(Newline, Lex(rest))
  {
    assert ("\n" + rest)[1..] == rest;
  }

  lemma {:induction false} WholeWord(s: string, rest: string, room: nat)
    requires |s| <= room && (forall i :: 0 <= i < |s| ==> WordChar(s[i], true)) && !WordChar(Peek(rest), true)
    ensures WordLen(s + rest, true, room) == |s|
  {
    if s == [] {
      assert s + rest == rest;
    } else {
      assert (s + rest)[1..] == s[1..] + rest;
      WholeWord(s[1..], rest, room - 1);
    }
  }

  lemma LexWord(s: string, rest: string)
    requires s != [] && |s| <= NAME_MAX && (IsAlpha(s[0]) || s[0] == '_')
    requires (forall i :: 0 <= i < |s| ==> WordChar(s[i], true)) && !WordChar(Peek(rest), true)
    ensures Lex(s + rest) == Before(NameToken(s), Lex(rest))
  {
    WholeWord(s, rest, NAME_MAX);
    assert (s + rest)[..|s|] == s && (s + rest)[|s|..] == rest;
    hide WordLen, NameToken;
    assert ScanOne(s + rest) == Found(NameToken(s), rest);
  }

  lemma LexReg(r: Reg, rest: string)
    requires Closes(rest)
    ensures Lex(RegName(r) + rest) == Before(RegTok(r), Lex(rest))
  {
    LexWord(RegName(r), rest);
    hide Lex;
    assert NameToken(RegName(r)) == RegTok(r);
  }

  lemma DigitRead(d: nat)
    requires d < 10
    ensures IsDigit(DigitChar(d)) && DigitValue(DigitChar(d)) == d && (DigitChar(d) == '0' <==> d == 0)
  {
  }

  /** Reading the decimal digits of n, most significant first, arrives at n. */
  lemma {:induction false} DecimalRead(n: nat, rest: string)
    ensures ReadDigits(Decimal(n) + rest, 10, 0) == ReadDigits(rest, 10, n)
    ensures IsDigit(Decimal(n)[0]) && (Decimal(n)[0] == '0' <==> n == 0) && (n == 0 ==> |Decimal(n)| == 1)
    decreases n
  {
    hide DigitChar, DigitValue, IsDigit;
    var last := [DigitChar(n % 10)];
    DigitRead(n % 10);
    assert (last + rest)[1..] == rest;
    if n >= 10 {
      DecimalRead(n / 10, last + rest);
      assert Decimal(n) + rest == Decimal(n / 10) + (last + rest);
    }
  }

  lemma DecimalInjective(a: nat, b: nat)
    requires Decimal(a) == Decimal(b)
    ensures a == b
  {
    DecimalRead(a, "");
    DecimalRead(b, "");
  }

  function Tens(k: nat): nat { if k == 0 then 1 else 10 * Tens(k - 1) }

  lemma {:induction false} DecimalShort(n: nat, k: nat)
    requires 1 <= k && n < Tens(k)
    ensures |Decimal(n)| <= k
    decreases n
  {
    assert Tens(1) == 10 * Tens(0);
    if n >= 10 {
      DecimalShort(n / 10, k - 1);
    }
  }

  lemma {:induction false} DecimalDigits(n: nat, i: nat)
    requires i < |Decimal(n)|
    ensures IsDigit(Decimal(n)[i])
    decreases n
  {
    DigitRead(n % 10);
    if n >= 10 && i < |Decimal(n / 10)| {
      DecimalDigits(n / 10, i);
    }
  }

  lemma IntIsShort(n: nat)
    requires n <= 0x8000_0000
    ensures |Decimal(n)| <= 10
  {
    assert Tens(10) == 10 * Tens(9) && Tens(9) == 10 * Tens(8) && Tens(8) == 10 * Tens(7) && Tens(7) == 10 * Tens(6);
    assert Tens(6) == 10 * Tens(5) && Tens(5) == 10 * Tens(4) && Tens(4) == 10 * Tens(3) && Tens(3) == 10 * Tens(2);
    assert Tens(2) == 10 * Tens(1) && Tens(1) == 10 * Tens(0);
    DecimalShort(n, 10);
  }

  lemma LexNumber(n: nat, rest: string)
    requires n <= LONG_MAX && Closes(rest)
    ensures Lex(Decimal(n) + rest) == Before(Num(n), Lex(rest))
  {
    var s := Decimal(n) + rest;
    DecimalRead(n, rest);
    hide Decimal, Lex;
    assert ReadDigits(rest, 10, n) == Number(n, rest);
    if n == 0 {
      assert s[1..] == rest && s[0] == '0';
      assert ReadDigits(s, 8, 0) == Number(0, rest);
    }
    assert StrToL(s) == Number(n, rest);
    LexFound(s, Num(n), rest);
  }

  function SignedTokens(i: int, r: Option<seq<Token>>): Option<seq<Token>> {
    if i < 0 then Before(Minus, Before(Num(-i), r)) else Before(Num(i), r)
  }

  lemma LexSigned(i: int, rest: string)
    requires -LONG_MAX <= i <= LONG_MAX && Closes(rest)
    ensures Lex(SignedDecimal(i) + rest) == SignedTokens(i, Lex(rest))
  {
    hide Lex, Decimal;
    if i < 0 {
      assert SignedDecimal(i) + rest == ['-'] + (Decimal(-i) + rest);
      LexMark('-', Decimal(-i) + rest);
      LexNumber(-i, rest);
    } else {
      LexNumber(i, rest);
    }
  }

  function MemTokens(base: Reg, off: int, r: Option<seq<Token>>): Option<seq<Token>> {
    Before(LBrack, Before(RegTok(base), Before(if off < 0 then Minus else Plus,
                                               Before(Num(if off < 0 then -off else off), Before(RBrack, r)))))
  }

  lemma LexMem(base: Reg, off: int, rest: string)
    requires -LONG_MAX <= off <= LONG_MAX
    ensures Lex(MemText(base, off, rest)) == MemTokens(base, off, Lex(rest))
  {
    hide Lex, Decimal;
    var sign := if off < 0 then '-' else '+';
    var size := if off < 0 then -off else off;
    var tail := "]" + rest;
    LexMark(']', rest);
    LexNumber(size, tail);
    assert Offset(off) + tail == [sign] + (Decimal(size) + tail);
    LexMark(sign, Decimal(size) + tail);
    LexReg(base, Offset(off) + tail);
    LexMark('[', RegName(base) + (Offset(off) + tail));
  }

  function OperandTokens(f: Fields, r: Option<seq<Token>>): Option<seq<Token>> {
    match FormatOf(f.op)
    case Bare => r
    case RdRs => Before(RegTok(f.rd), Before(Comma, Before(RegTok(f.rs), r)))
    case Rd => Before(RegTok(f.rd), r)
    case RdImm => Before(RegTok(f.rd), Before(Comma, SignedTokens(f.imm, r)))
    case RdMem => Before(RegTok(f.rd), Before(Comma, MemTokens(f.rs, f.imm, r)))
    case MemRs => MemTokens(f.rd, f.imm, Before(Comma, Before(RegTok(f.rs), r)))
    case Imm => SignedTokens(f.imm, r)
  }

  lemma LexComma(rest: string)
    ensures Lex(", " + rest) == Before(Comma, Lex(rest))
  {
    assert ", " + rest == [','] + (" " + rest);
    LexMark(',', " " + rest);
    LexSpace(rest);
  }

  lemma LexOperands(f: Fields, rest: string)
    requires -LONG_MAX <= f.imm <= LONG_MAX && Peek(rest) == '\n'
    ensures Lex(OperandText(f, rest)) == OperandTokens(f, Lex(rest))
  {
    hide Lex, RegName, MemText, MemTokens, SignedDecimal, SignedTokens;
    match FormatOf(f.op)
    case Bare =>
    case RdRs =>
      LexReg(f.rs, rest);
      LexComma(RegName(f.rs) + rest);
      LexReg(f.rd, ", " + (RegName(f.rs) + rest));
      LexSpace(RegName(f.rd) + (", " + (RegName(f.rs) + rest)));
    case Rd =>
      LexReg(f.rd, rest);
      LexSpace(RegName(f.rd) + rest);
    case RdImm =>
      LexSigned(f.imm, rest);
      LexComma(SignedDecimal(f.imm) + rest);
      LexReg(f.rd, ", " + (SignedDecimal(f.imm) + rest));
      LexSpace(RegName(f.rd) + (", " + (SignedDecimal(f.imm) + rest)));
    case RdMem =>
      LexMem(f.rs, f.imm, rest);
      LexComma(MemText(f.rs, f.imm, rest));
      LexReg(f.rd, ", " + MemText(f.rs, f.imm, rest));
      LexSpace(RegName(f.rd) + (", " + MemText(f.rs, f.imm, rest)));
    case MemRs =>
      LexReg(f.rs, rest);
      LexComma(RegName(f.rs) + rest);
      LexMem(f.rd, f.imm, ", " + (RegName(f.rs) + rest));
      LexSpace(MemText(f.rd, f.imm, ", " + (RegName(f.rs) + rest)));
    case Imm =>
      LexSigned(f.imm, rest);
      LexSpace(SignedDecimal(f.imm) + rest);
  }

  lemma NameIsWord(op: Opcode)
    requires op != Illegal
    ensures var s := OpcodeName(op);
            2 <= |s| <= 5 && (forall i :: 0 <= i < |s| ==> IsAlpha(s[i])) && NameToken(s) == Ident(s)
  {
  }

  lemma OperandsClose(f: Fields, rest: string)
    requires Peek(rest) == '\n'
    ensures Closes(OperandText(f, rest))
  {
    hide RegName, SignedDecimal, MemText;
  }

  /** One line of disassembly is lexed as its mnemonic and its operands. */
  lemma LexInstruction(w: Word, rest: string)
    requires Decode(w).op != Illegal && Peek(rest) == '\n'
    ensures Lex(Disassemble(w, rest))
         == Before(Ident(OpcodeName(Decode(w).op)), OperandTokens(Decode(w), Lex(rest)))
  {
    var f := Decode(w);
    EncodeOfDecode(w);
    NameIsWord(f.op);
    OperandsClose(f, rest);
    hide Lex, OperandText, OperandTokens, OpcodeName, Decode, NameToken;
    LexWord(OpcodeName(f.op), OperandText(f, rest));
    LexOperands(f, rest);
  }

  /** The spelling of an unknown opcode is not a token. */
  lemma LexUnknown(w: Word, rest: string)
    requires Decode(w).op == Illegal
    ensures Lex(Disassemble(w, rest)) == None
  {
  }

  // ----- Parsing -----

  lemma {:induction false} SameWordReflexive(a: string)
    ensures SameWord(a, a)
  {
    if a != [] {
      SameWordReflexive(a[1..]);
    }
  }

  lemma {:induction false} SameWordAt(a: string, b: string, i: nat)
    requires SameWord(a, b) && i < |a|
    ensures |a| == |b| && Lower(a[i]) == Lower(b[i])
  {
    if i > 0 {
      SameWordAt(a[1..], b[1..], i - 1);
    } else if |a| > 1 {
      SameWordAt(a[1..], b[1..], 0);
    }
  }

  /** Length, first two and last letters tell the mnemonics apart. */
  function ByLetters(n: nat, c0: char, c1: char, z: char): Opcode {
    if n == 2 then
      if z == 'z' then JZ else if z == 'g' then JG else if z == 'l' then JL else if z == 'r' then OR else IN
    else if n == 4 then
      if c0 == 'h' then HALT else if c0 == 'l' then LOAD else if c0 == 'p' then PUSH else CALL
    else if n == 5 then
      if c0 == 's' then STORE else LOADI
    else
      match c0
      case 'a' => if c1 == 'd' then ADD else AND
      case 'd' => DIV
      case 'j' => if c1 == 'm' then JMP else JNZ
      case 'm' => if z == 'l' then MUL else MOV
      case 'n' => if z == 'p' then NOP else NOT
      case 'o' => OUT
      case 'p' => POP
      case 'r' => RET
      case 's' => if c1 == 'u' then SUB else if z == 'l' then SHL else SHR
      case 'x' => XOR
      case _ => Illegal
  }

  function Recognised(s: string): Opcode
    requires 2 <= |s|
  {
    ByLetters(|s|, Lower(s[0]), Lower(s[1]), Lower(s[|s| - 1]))
  }

  lemma NameRecognised(op: Opcode)
    ensures 2 <= |OpcodeName(op)| && Recognised(OpcodeName(op)) == op
  {
  }

  lemma NamesDistinct(a: Opcode, b: Opcode)
    requires SameWord(OpcodeName(a), OpcodeName(b))
    ensures a == b
  {
    hide OpcodeName, ByLetters, SameWord, Lower;
    NameRecognised(a);
    NameRecognised(b);
    SameWordAt(OpcodeName(a), OpcodeName(b), 0);
    SameWordAt(OpcodeName(a), OpcodeName(b), 1);
    SameWordAt(OpcodeName(a), OpcodeName(b), |OpcodeName(a)| - 1);
  }

  /** Every opcode is found under its own name. */
  lemma {:induction false} MnemonicFrom(op: Opcode, k: nat)
    requires k < |MNEMONICS| && exists j :: k <= j < |MNEMONICS| && MNEMONICS[j] == op
    ensures FindFrom(OpcodeName(op), k) == Some(op)
    decreases |MNEMONICS| - k
  {
    hide SameWord, OpcodeName;
    if MNEMONICS[k] == op {
      SameWordReflexive(OpcodeName(op));
    } else {
      if SameWord(OpcodeName(op), OpcodeName(MNEMONICS[k])) {
        NamesDistinct(op, MNEMONICS[k]);
      }
      MnemonicFrom(op, k + 1);
    }
  }

  lemma MnemonicPlace(op: Opcode) returns (j: nat)
    requires op != Illegal
    ensures j < |MNEMONICS| && MNEMONICS[j] == op
  {
    match op
    case NOP => j := 0; case HALT => j := 1; case RET => j := 2; case ADD => j := 3; case SUB => j := 4;
    case MUL => j := 5; case DIV => j := 6; case AND => j := 7; case OR => j := 8; case XOR => j := 9;
    case SHL => j := 10; case SHR => j := 11; case MOV => j := 12; case NOT => j := 13; case PUSH => j := 14;
    case POP => j := 15; case IN => j := 16; case OUT => j := 17; case LOADI => j := 18; case LOAD => j := 19;
    case STORE => j := 20; case JMP => j := 21; case JZ => j := 22; case JNZ => j := 23; case JG => j := 24;
    case JL => j := 25; case CALL => j := 26;
  }

  lemma MnemonicFound(op: Opcode)
    requires op != Illegal
    ensures FindMnemonic(OpcodeName(op)) == Some(op)
  {
    var j := MnemonicPlace(op);
    MnemonicFrom(op, 0);
  }

  /** The fields that the instruction's text shows. */
  function Tidy(f: Fields): Fields {
    match FormatOf(f.op)
    case Bare => f.(rd := 0, rs := 0, imm := 0)
    case RdRs => f.(imm := 0)
    case Rd => f.(rs := 0, imm := 0)
    case RdImm => f.(rs := 0)
    case RdMem | MemRs => f
    case Imm => f.(rd := 0, rs := 0)
  }

  predicate IsInt32(v: int) { -0x8000_0000 <= v < 0x8000_0000 }

  lemma SmallNumber(v: int)
    requires IsInt32(v)
    ensures ToInt32(v) == v
  {
  }

  /** A number parses as an int32_t, which truncates it. */
  lemma ParseSignedValue(i: int, ts: seq<Token>)
    ensures SignedTokens(i, Some(ts)).Some?
    ensures ParseImmOrLabel(SignedTokens(i, Some(ts)).value) == Some(Got(Operand(ToInt32(i), None), ts))
  {
    hide ToInt32;
    var num := [Num(if i < 0 then -i else i)] + ts;
    assert num[1..] == ts;
    if i < 0 {
      assert ([Minus] + num)[1..] == num;
    }
  }

  lemma ParseSignedBack(i: int, ts: seq<Token>)
    requires IsInt32(i)
    ensures SignedTokens(i, Some(ts)).Some?
    ensures ParseImmOrLabel(SignedTokens(i, Some(ts)).value) == Some(Got(Operand(i, None), ts))
  {
    SmallNumber(i);
    ParseSignedValue(i, ts);
  }

  lemma ParseMemBack(base: Reg, off: int, ts: seq<Token>)
    requires IsInt32(off)
    ensures MemTokens(base, off, Some(ts)).Some?
    ensures ParseMem(MemTokens(base, off, Some(ts)).value) == Some(Got(Mem(base, off), ts))
  {
    hide ToInt32;
    SmallNumber(off);
    var z := [RBrack] + ts;
    var num := [Num(if off < 0 then -off else off)] + z;
    var sign := [if off < 0 then Minus else Plus] + num;
    var reg := [RegTok(base)] + sign;
    assert z[1..] == ts && num[1..] == z && sign[1..] == num && reg[1..] == sign && ([LBrack] + reg)[1..] == reg;
  }

  /** Operands parse back to the fields they show. */
  lemma ParseOperandsBack(f: Fields, ts: seq<Token>)
    requires f.op != Illegal && IsInt32(f.imm)
    ensures OperandTokens(f, Some(ts)).Some?
    ensures ParseOperands(f.op, OperandTokens(f, Some(ts)).value) == Some(Got(Instr(Tidy(f), None), ts))
  {
    hide SignedTokens, MemTokens, ParseMem, ParseImmOrLabel;
    ParseSignedBack(f.imm, ts);
    ParseMemBack(f.rs, f.imm, ts);
    var s := [RegTok(f.rs)] + ts;
    var c := [Comma] + s;
    ParseMemBack(f.rd, f.imm, c);
    assert s[1..] == ts && c[1..] == s;
    match FormatOf(f.op)
    case Bare =>
    case RdRs =>
      assert ([RegTok(f.rd)] + c)[1..] == c;
    case Rd =>
      assert ([RegTok(f.rd)] + ts)[1..] == ts;
    case RdImm =>
      Unfold(f.rd, SignedTokens(f.imm, Some(ts)).value);
    case RdMem =>
      Unfold(f.rd, MemTokens(f.rs, f.imm, Some(ts)).value);
    case MemRs =>
    case Imm =>
  }

  lemma Unfold(r: Reg, ts: seq<Token>)
    ensures ([RegTok(r)] + ([Comma] + ts))[1..] == [Comma] + ts && ([Comma] + ts)[1..] == ts
  {
  }

  lemma OperandsStart(f: Fields, ts: seq<Token>)
    requires Next(ts) == Newline
    ensures OperandTokens(f, Some(ts)).Some? && Next(OperandTokens(f, Some(ts)).value) != Colon
  {
  }

  lemma ParseInstructionBack(f: Fields, ts: seq<Token>)
    requires f.op != Illegal && IsInt32(f.imm) && Next(ts) == Newline
    ensures Before(Ident(OpcodeName(f.op)), OperandTokens(f, Some(ts))).Some?
    ensures ParseStmt(Before(Ident(OpcodeName(f.op)), OperandTokens(f, Some(ts))).value) == Some(Got(Instr(Tidy(f), None), ts))
  {
    OperandsStart(f, ts);
    ParseOperandsBack(f, ts);
    MnemonicFound(f.op);
    hide OperandTokens, ParseOperands, OpcodeName, FindMnemonic, Tidy;
    var ops := OperandTokens(f, Some(ts)).value;
    assert ([Ident(OpcodeName(f.op))] + ops)[1..] == ops;
  }
}
