/** The instruction set as a reference manual lists it: for each code its mnemonic and its operands, and that a line of the
    manual's form assembles to the word the CPU decodes as that instruction, the destination written first. */
module InstructionSet {
  import opened Wrappers
  import opened InstStream
  import opened Isa
  import opened AsmLexer
  import opened AsmParser
  import R = AsmReading
  import E = AsmEncoder
  import W = Words

  datatype Entry = Entry(name: string, op: Opcode, format: OpFormat)

  /** Codes 0 to 26. */
  function Manual(code: nat): Entry
    requires code < 27
  {
    match code
    case 0 => Entry("NOP", NOP, Bare) case 1 => Entry("HALT", HALT, Bare)
    case 2 => Entry("ADD", ADD, RdRs) case 3 => Entry("SUB", SUB, RdRs)
    case 4 => Entry("MUL", MUL, RdRs) case 5 => Entry("DIV", DIV, RdRs)
    case 6 => Entry("AND", AND, RdRs) case 7 => Entry("OR", OR, RdRs)
    case 8 => Entry("XOR", XOR, RdRs) case 9 => Entry("NOT", NOT, Rd)
    case 10 => Entry("SHL", SHL, RdRs) case 11 => Entry("SHR", SHR, RdRs)
    case 12 => Entry("MOV", MOV, RdRs) case 13 => Entry("LOAD", LOAD, RdMem)
    case 14 => Entry("STORE", STORE, MemRs) case 15 => Entry("LOADI", LOADI, RdImm)
    case 16 => Entry("PUSH", PUSH, Rd) case 17 => Entry("POP", POP, Rd)
    case 18 => Entry("JMP", JMP, Imm) case 19 => Entry("JZ", JZ, Imm)
    case 20 => Entry("JNZ", JNZ, Imm) case 21 => Entry("JG", JG, Imm)
    case 22 => Entry("JL", JL, Imm) case 23 => Entry("CALL", CALL, Imm)
    case 24 => Entry("RET", RET, Bare) case 25 => Entry("IN", IN, Rd)
    case _ => Entry("OUT", OUT, Rd)
  }

  lemma ManualCode(code: nat)
    requires code < 27
    ensures Manual(code).op != Illegal && CodeOf(Manual(code).op) == code
  {
    hide OPCODES;
  }

  lemma ManualCodes(code: nat)
    requires code < 27
    ensures Manual(code).op != Illegal && CodeOf(Manual(code).op) == code && OpcodeOf(code) == Manual(code).op
  {
    hide OPCODES, Manual, CodeOf;
    ManualCode(code);
  }

  lemma ManualNames(code: nat)
    requires code < 27
    ensures var w := Manual(code); OpcodeName(w.op) == w.name && FormatOf(w.op) == w.format
  {
  }

  /** The operands as they stand in the line. */
  function Written(fm: OpFormat, d: Reg, s: Reg, v: nat): seq<Token> {
    match fm
    case Bare => []
    case RdRs => [RegTok(d), Comma, RegTok(s)]
    case Rd => [RegTok(d)]
    case RdImm => [RegTok(d), Comma, Num(v)]
    case RdMem => [RegTok(d), Comma, LBrack, RegTok(s), Plus, Num(v), RBrack]
    case MemRs => [LBrack, RegTok(d), Plus, Num(v), RBrack, Comma, RegTok(s)]
    case Imm => [Num(v)]
  }

  /** What is not written is zero. */
  function Meant(w: Entry, d: Reg, s: Reg, v: nat): Fields {
    Fields(w.op, if w.format in {Bare, Imm} then 0 else d, if w.format in {RdRs, RdMem, MemRs} then s else 0,
           if w.format in {RdImm, RdMem, MemRs, Imm} then v else 0)
  }

  function EntryOf(op: Opcode): Entry { Entry(OpcodeName(op), op, FormatOf(op)) }

  lemma RegistersRead(op: Opcode, d: Reg, s: Reg, v: nat, rest: seq<Token>)
    requires op != Illegal && v <= IMM_MAX && FormatOf(op) in {Bare, RdRs, Rd}
    ensures ParseOperands(op, Written(FormatOf(op), d, s, v) + rest) == Some(Got(Instr(Meant(EntryOf(op), d, s, v), None), rest))
  {
    hide OpcodeName;
    var fm := FormatOf(op);
    hide FormatOf;
    var toks := Written(fm, d, s, v) + rest;
    match fm
    case Bare => assert toks == rest;
    case RdRs => assert toks[1..][1..][1..] == rest;
    case Rd => assert toks[1..] == rest;
  }

  lemma NumberRead(v: nat, rest: seq<Token>)
    requires v <= IMM_MAX
    ensures ParseNum([Num(v)] + rest, false) == Some(Got(v as int, rest))
    ensures ParseImmOrLabel([Num(v)] + rest) == Some(Got(Operand(v, None), rest))
  {
    assert ([Num(v)] + rest)[1..] == rest;
    assert ToInt32(v) == v;
  }

  lemma ImmediatesRead(op: Opcode, d: Reg, s: Reg, v: nat, rest: seq<Token>)
    requires op != Illegal && v <= IMM_MAX && FormatOf(op) in {RdImm, Imm}
    ensures ParseOperands(op, Written(FormatOf(op), d, s, v) + rest) == Some(Got(Instr(Meant(EntryOf(op), d, s, v), None), rest))
  {
    hide OpcodeName;
    var fm := FormatOf(op);
    hide FormatOf;
    var toks := Written(fm, d, s, v) + rest;
    NumberRead(v, rest);
    hide ParseImmOrLabel;
    match fm
    case RdImm => assert toks[1..][1..] == [Num(v)] + rest;
    case Imm => assert toks == [Num(v)] + rest;
  }

  lemma CellRead(r: Reg, v: nat, rest: seq<Token>)
    requires v <= IMM_MAX
    ensures ParseMem([LBrack, RegTok(r), Plus, Num(v), RBrack] + rest) == Some(Got(Mem(r, v), rest))
  {
    var toks := [LBrack, RegTok(r), Plus, Num(v), RBrack] + rest;
    NumberRead(v, [RBrack] + rest);
    hide ParseNum;
    assert toks[1..][1..] == [Plus] + ([Num(v)] + ([RBrack] + rest));
    assert ([Plus] + ([Num(v)] + ([RBrack] + rest)))[1..] == [Num(v)] + ([RBrack] + rest);
    assert ([RBrack] + rest)[1..] == rest;
  }

  lemma CellsRead(op: Opcode, d: Reg, s: Reg, v: nat, rest: seq<Token>)
    requires op != Illegal && v <= IMM_MAX && FormatOf(op) in {RdMem, MemRs}
    ensures ParseOperands(op, Written(FormatOf(op), d, s, v) + rest) == Some(Got(Instr(Meant(EntryOf(op), d, s, v), None), rest))
  {
    hide OpcodeName;
    var fm := FormatOf(op);
    hide FormatOf;
    var toks := Written(fm, d, s, v) + rest;
    hide ParseMem;
    if fm == RdMem {
      CellRead(s, v, rest);
      assert toks[1..][1..] == [LBrack, RegTok(s), Plus, Num(v), RBrack] + rest;
    } else {
      CellRead(d, v, [Comma, RegTok(s)] + rest);
      assert toks == [LBrack, RegTok(d), Plus, Num(v), RBrack] + ([Comma, RegTok(s)] + rest);
      assert ([Comma, RegTok(s)] + rest)[1..][1..] == rest;
    }
  }

  lemma OperandsRead(op: Opcode, d: Reg, s: Reg, v: nat, rest: seq<Token>)
    requires op != Illegal && v <= IMM_MAX
    ensures ParseOperands(op, Written(FormatOf(op), d, s, v) + rest) == Some(Got(Instr(Meant(EntryOf(op), d, s, v), None), rest))
  {
    hide OpcodeName, ParseOperands, Written, Meant, EntryOf;
    match FormatOf(op)
    case Bare | RdRs | Rd => RegistersRead(op, d, s, v, rest);
    case RdImm | Imm => ImmediatesRead(op, d, s, v, rest);
    case RdMem | MemRs => CellsRead(op, d, s, v, rest);
  }

  lemma WordOf(w: Entry, code: nat, d: Reg, s: Reg, v: nat, syms: seq<E.Symbol>)
    requires w.op != Illegal && CodeOf(w.op) == code && FormatOf(w.op) == w.format && v <= IMM_MAX
    ensures var i := Instr(Meant(w, d, s, v), None);
            Proper(i) && E.EncodeStmt(i, syms) == Some(Encode(i.f)) && Encode(i.f) / 0x400_0000 == code && Decode(Encode(i.f)) == i.f
  {
    var f := Meant(w, d, s, v);
    hide CodeOf, OPCODES, Decode;
    DecodeOfEncode(f);
    FieldsApart(code, f.rd, f.rs, f.imm % IMM_RANGE);
  }

  /** A line in the manual's form becomes the word with the manual's code, which decodes to what was written. A colon behind
      it would make its mnemonic a label. */
  lemma LineAssembles(code: nat, d: Reg, s: Reg, v: nat, rest: seq<Token>, syms: seq<E.Symbol>)
    requires code < 27 && v <= IMM_MAX && Next(rest) != Colon
    ensures var w := Manual(code); var r := ParseStmt([Ident(w.name)] + (Written(w.format, d, s, v) + rest));
            && r.Some? && r.value.rest == rest && r.value.v.Instr?
            && var u := E.EncodeStmt(r.value.v, syms);
               u.Some? && u.value / 0x400_0000 == code && Decode(u.value) == Meant(w, d, s, v)
  {
    hide Manual, OPCODES, OpcodeOf, CodeOf, OpcodeName, FormatOf, FindMnemonic, ParseOperands, Encode, Decode, Meant, E.EncodeStmt;
    var w := Manual(code);
    ManualCodes(code);
    ManualNames(code);
    R.MnemonicFound(w.op);
    OperandsRead(w.op, d, s, v, rest);
    WordOf(w, code, d, s, v, syms);
    var ops := Written(w.format, d, s, v) + rest;
    assert ([Ident(w.name)] + ops)[1..] == ops;
    assert Next(ops) != Colon;
  }
}
