/** Instruction words: the four fields, the assembly spelling of each opcode, and the disassembler. */
module Isa {
  import opened InstStream

  const IMM_RANGE := 0x10_0000
  const IMM_MIN := -0x8_0000
  const IMM_MAX := 0x7_FFFF

  datatype OpFormat = Bare | RdRs | Rd | RdImm | RdMem | MemRs | Imm

  datatype Fields = Fields(op: Opcode, rd: Reg, rs: Reg, imm: int)

  const OPCODES: seq<Opcode> :=
    [NOP, HALT, ADD, SUB, MUL, DIV, AND, OR, XOR, NOT, SHL, SHR, MOV, LOAD, STORE, LOADI, PUSH, POP,
     JMP, JZ, JNZ, JG, JL, CALL, RET, IN, OUT]

  /** Six bits of opcode; the codes above OUT are illegal. */
  function OpcodeOf(code: nat): Opcode { if code < |OPCODES| then OPCODES[code] else Illegal }

  function CodeOf(op: Opcode): (code: nat)
    requires op != Illegal
    ensures code < |OPCODES| && OPCODES[code] == op
  {
    match op
    case NOP => 0 case HALT => 1 case ADD => 2 case SUB => 3 case MUL => 4 case DIV => 5
    case AND => 6 case OR => 7 case XOR => 8 case NOT => 9 case SHL => 10 case SHR => 11
    case MOV => 12 case LOAD => 13 case STORE => 14 case LOADI => 15 case PUSH => 16 case POP => 17
    case JMP => 18 case JZ => 19 case JNZ => 20 case JG => 21 case JL => 22 case CALL => 23 case RET => 24
    case IN => 25 case OUT => 26
  }

  lemma CodesAreDistinct(code: nat)
    requires code < |OPCODES|
    ensures OPCODES[code] != Illegal && CodeOf(OPCODES[code]) == code
  {
    if code < 9 {
    } else if code < 18 {
    } else {
    }
  }

  function OpcodeName(op: Opcode): string {
    match op
    case NOP => "NOP" case HALT => "HALT" case ADD => "ADD" case SUB => "SUB" case MUL => "MUL" case DIV => "DIV"
    case AND => "AND" case OR => "OR" case XOR => "XOR" case NOT => "NOT" case SHL => "SHL" case SHR => "SHR"
    case MOV => "MOV" case LOAD => "LOAD" case STORE => "STORE" case LOADI => "LOADI" case PUSH => "PUSH" case POP => "POP"
    case JMP => "JMP" case JZ => "JZ" case JNZ => "JNZ" case JG => "JG" case JL => "JL" case CALL => "CALL" case RET => "RET"
    case IN => "IN" case OUT => "OUT" case Illegal => "???"
  }

  function FormatOf(op: Opcode): OpFormat {
    match op
    case NOP | HALT | RET | Illegal => Bare
    case ADD | SUB | MUL | DIV | AND | OR | XOR | SHL | SHR | MOV => RdRs
    case NOT | PUSH | POP | IN | OUT => Rd
    case LOADI => RdImm
    case LOAD => RdMem
    case STORE => MemRs
    case JMP | JZ | JNZ | JG | JL | CALL => Imm
  }

  // ----- Words -----

  function SignExtend20(v: nat): int {
    var x := v % IMM_RANGE;
    if x <= IMM_MAX then x else x - IMM_RANGE
  }

  function Decode(w: Word): Fields {
    Fields(OpcodeOf(w / 0x400_0000), w / 0x80_0000 % 8, w / 0x10_0000 % 8, SignExtend20(w))
  }

  /** The fields do not overlap, so joining them is a sum. */
  function Encode(f: Fields): Word
    requires f.op != Illegal
  {
    CodeOf(f.op) * 0x400_0000 + f.rd * 0x80_0000 + f.rs * 0x10_0000 + f.imm % IMM_RANGE
  }

  /** Zero wherever the format has no operand. */
  predicate UnusedZero(f: Fields) {
    match FormatOf(f.op)
    case Bare => f.rd == 0 && f.rs == 0 && f.imm == 0
    case RdRs => f.imm == 0
    case Rd => f.rs == 0 && f.imm == 0
    case RdImm => f.rs == 0
    case RdMem | MemRs => true
    case Imm => f.rd == 0 && f.rs == 0
  }

  /** A known opcode and nothing in the fields its format leaves out. */
  predicate Canonical(w: Word) {
    Decode(w).op != Illegal && UnusedZero(Decode(w))
  }

  lemma DecodeOfEncode(f: Fields)
    requires f.op != Illegal && IMM_MIN <= f.imm <= IMM_MAX
    ensures Decode(Encode(f)) == f
  {
    hide CodeOf;
    FieldsApart(CodeOf(f.op), f.rd, f.rs, f.imm % IMM_RANGE);
  }

  lemma FieldsApart(c: nat, d: nat, s: nat, i: nat)
    requires d < 8 && s < 8 && i < IMM_RANGE
    ensures var w := c * 0x400_0000 + d * 0x80_0000 + s * 0x10_0000 + i;
            w / 0x400_0000 == c && w / 0x80_0000 % 8 == d && w / 0x10_0000 % 8 == s && w % 0x10_0000 == i
  {
    AboveImmediate(c * 64 + d * 8 + s, i);
    AboveSource(c * 8 + d, s * 0x10_0000 + i);
    AboveDestination(c, d * 0x80_0000 + s * 0x10_0000 + i);
  }

  lemma AboveImmediate(q: nat, r: nat)
    requires r < 0x10_0000
    ensures (q * 0x10_0000 + r) / 0x10_0000 == q && (q * 0x10_0000 + r) % 0x10_0000 == r
  {
  }

  lemma AboveSource(q: nat, r: nat)
    requires r < 0x80_0000
    ensures (q * 0x80_0000 + r) / 0x80_0000 == q
  {
  }

  lemma AboveDestination(q: nat, r: nat)
    requires r < 0x400_0000
    ensures (q * 0x400_0000 + r) / 0x400_0000 == q
  {
  }

  lemma EncodeOfDecode(w: Word)
    requires Decode(w).op != Illegal
    ensures Encode(Decode(w)) == w && IMM_MIN <= Decode(w).imm <= IMM_MAX
  {
    var c := w / 0x400_0000;
    CodesAreDistinct(c);
    assert w / 0x80_0000 == c * 8 + w / 0x80_0000 % 8;
    assert w / 0x10_0000 == w / 0x80_0000 * 8 + w / 0x10_0000 % 8;
    assert Decode(w).imm % IMM_RANGE == w % IMM_RANGE;
  }

  // ----- Text -----

  function DigitChar(d: nat): char
    requires d < 10
  {
    '0' + d as char
  }

  function Decimal(n: nat): (s: string)
    ensures s != []
  {
    if n < 10 then [DigitChar(n)] else Decimal(n / 10) + [DigitChar(n % 10)]
  }

  function SignedDecimal(i: int): string { if i < 0 then "-" + Decimal(-i) else Decimal(i) }

  function RegName(r: Reg): string { ['R', DigitChar(r)] }

  function Offset(i: int): string { if i < 0 then "-" + Decimal(-i) else "+" + Decimal(i) }

  function MemText(base: Reg, off: int, rest: string): string { "[" + (RegName(base) + (Offset(off) + ("]" + rest))) }

  function OperandText(f: Fields, rest: string): string {
    match FormatOf(f.op)
    case Bare => rest
    case RdRs => " " + (RegName(f.rd) + (", " + (RegName(f.rs) + rest)))
    case Rd => " " + (RegName(f.rd) + rest)
    case RdImm => " " + (RegName(f.rd) + (", " + (SignedDecimal(f.imm) + rest)))
    case RdMem => " " + (RegName(f.rd) + (", " + MemText(f.rs, f.imm, rest)))
    case MemRs => " " + MemText(f.rd, f.imm, ", " + (RegName(f.rs) + rest))
    case Imm => " " + (SignedDecimal(f.imm) + rest)
  }

  /** The disassembly of a word, followed by `rest`. */
  function Disassemble(w: Word, rest: string): string {
    OpcodeName(Decode(w).op) + OperandText(Decode(w), rest)
  }
}
