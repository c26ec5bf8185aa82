/** What decoding records of an instruction is all it depends on in memory, and nothing too much: every recorded operand,
    result and access shows in some state. Device addresses behave like the instructions of the same purpose. */
module Footprint {
  import opened Words
  import opened Wrappers
  import opened Isa
  import opened WordCpu
  import I = InstStream
  import M = Machine
  import E = AsmEncoder
  import B = AsmRoundTrip

  // ----- Memory is read at the recorded address only -----

  ghost predicate SameAt(m: Memory, m': Memory, at: int) {
    forall j :: 0 <= j < MEM_SIZE && at <= j < at + 4 ==> m[j] == m'[j]
  }

  lemma SameWordAt(m: Memory, m': Memory, a: Word)
    requires SameAt(m, m', a) && InBounds(a)
    ensures Read(m, a) == Read(m', a)
  {
  }

  ghost predicate StepAlike(f: Fields, a: Cpu, b: Cpu) {
    && (Execute(f, a).Some? <==> Execute(f, b).Some?)
    && (Execute(f, a).Some? ==> Execute(f, b).value == Execute(f, a).value.(mem := Execute(f, b).value.mem))
  }

  lemma LoadAccessAlike(a: Cpu, b: Cpu, d: I.Reg, x: Word)
    requires b == a.(mem := b.mem) && SameAt(a.mem, b.mem, x)
    ensures LoadFrom(a, d, x).Some? <==> LoadFrom(b, d, x).Some?
    ensures LoadFrom(a, d, x).Some? ==> LoadFrom(b, d, x).value == LoadFrom(a, d, x).value.(mem := b.mem)
  {
    hide Read, SameAt;
    if InBounds(x) {
      SameWordAt(a.mem, b.mem, x);
    }
  }

  lemma StoreAccessAlike(a: Cpu, b: Cpu, x: Word, w: Word)
    requires b == a.(mem := b.mem)
    ensures StoreTo(a, x, w).Some? <==> StoreTo(b, x, w).Some?
    ensures StoreTo(a, x, w).Some? ==> StoreTo(b, x, w).value == StoreTo(a, x, w).value.(mem := StoreTo(b, x, w).value.mem)
  {
    hide Write;
  }

  lemma AccessAlike(f: Fields, a: Cpu, b: Cpu)
    requires b == a.(mem := b.mem) && Meta(f).accessesMem && SameAt(a.mem, b.mem, MemAddr(f, a))
    ensures StepAlike(f, a, b)
  {
    hide Wrap, Read, Write, SameAt, LoadFrom, StoreTo;
    if f.op == I.LOAD {
      LoadAccessAlike(a, b, f.rd, MemAddr(f, a));
    } else if f.op == I.STORE {
      StoreAccessAlike(a, b, MemAddr(f, a), a.regs[f.rs]);
    } else if f.op in {I.POP, I.RET} && InBounds(a.sp) {
      SameWordAt(a.mem, b.mem, a.sp);
    }
  }

  lemma AluAlike(f: Fields, a: Cpu, b: Cpu)
    requires b == a.(mem := b.mem) && IsAlu(f.op)
    ensures StepAlike(f, a, b)
  {
    hide M.AluResult, M.AluFlags;
  }

  lemma PlainAlike(f: Fields, a: Cpu, b: Cpu)
    requires b == a.(mem := b.mem) && !Meta(f).accessesMem && !IsAlu(f.op)
    ensures StepAlike(f, a, b)
  {
    assert f.op !in {I.LOAD, I.STORE, I.PUSH, I.POP, I.CALL, I.RET};
    if f.op in {I.IN, I.OUT} {
      hide Meta;
    } else {
      hide Wrap, M.Holds, Not, Meta, SetReg, Emit, Consume, NextInput;
    }
  }

  /** States that differ in memory alone, and not in the four bytes at the recorded address if there is one, step alike. */
  lemma ReadsOnlyRecorded(f: Fields, a: Cpu, b: Cpu)
    requires b == a.(mem := b.mem) && (Meta(f).accessesMem ==> SameAt(a.mem, b.mem, MemAddr(f, a)))
    ensures Execute(f, a).Some? <==> Execute(f, b).Some?
    ensures Execute(f, a).Some? ==> Execute(f, b).value == Execute(f, a).value.(mem := Execute(f, b).value.mem)
  {
    assert StepAlike(f, a, b) by {
      hide StepAlike, Execute, SameAt;
      if Meta(f).accessesMem {
        AccessAlike(f, a, b);
      } else if IsAlu(f.op) {
        AluAlike(f, a, b);
      } else {
        PlainAlike(f, a, b);
      }
    }
    hide Execute;
  }

  /** A load is an instruction that writes a register from memory. */
  lemma LoadsReadMemory(f: Fields)
    ensures Meta(f).isLoad <==> Meta(f).hasWrite && Meta(f).accessesMem
  {
  }

  // ----- Nothing is recorded in vain -----

  /** The word 1 at address 0 and on top of the stack, and 0 behind the one and below the other. */
  ghost predicate Marked(m: Memory) {
    Read(m, 0) == 1 && Read(m, 4) == 0 && Read(m, MEM_SIZE - 12) == 0 && Read(m, MEM_SIZE - 8) == 1
  }

  lemma MarkedMemory() returns (m: Memory)
    ensures Marked(m)
  {
    hide B.Join;
    var zeros: Memory := seq(MEM_SIZE, _ => 0);
    m := zeros[0 := 1][MEM_SIZE - 8 := 1];
    assert Read(m, 0) == B.Join(1, 0, 0, 0) && Read(m, 4) == B.Join(0, 0, 0, 0);
    assert Read(m, MEM_SIZE - 12) == B.Join(0, 0, 0, 0) && Read(m, MEM_SIZE - 8) == B.Join(1, 0, 0, 0);
    JoinLow();
  }

  lemma JoinLow()
    ensures B.Join(1, 0, 0, 0) == 1 && B.Join(0, 0, 0, 0) == 0
  {
  }

  lemma ZeroByte(m: Memory, a: Word)
    requires InBounds(a) && Read(m, a) == 0
    ensures m[a] == 0
  {
  }

  /** A CPU at pc with R[d] = x, R[s] = y, and 0 in the other registers. */
  function Probe(m: Memory, pc: Word, d: I.Reg, x: Word, s: I.Reg, y: Word, flags: M.Flags): Cpu {
    Cpu(seq(I.NUM_REGS, _ => 0)[s := y][d := x], pc, MEM_SIZE - 8, flags, m, false, [1], [], false)
  }

  const CLEAR := M.Flags(false, false, false, false)

  /** The states differ in slot s alone. */
  ghost predicate DifferAt(a: Cpu, b: Cpu, s: I.Slot) {
    && b == a.(regs := b.regs, flags := b.flags)
    && (forall r: I.Reg :: r != s ==> a.regs[r] == b.regs[r])
    && (s != I.FLAG_REG ==> a.flags == b.flags)
  }

  ghost predicate StepApart(f: Fields, a: Cpu, b: Cpu) {
    Execute(f, a).Some? && Execute(f, b).Some? && !SameEffect(Meta(f), Execute(f, a).value, Execute(f, b).value)
  }

  /** A second operand that lets the first one show. */
  function Neutral(op: M.AluOp): Word { if op in {M.MUL, M.DIV, M.AND} then 1 else 0 }

  /** The results differ, if the operands are within their range. */
  lemma ApartInResult(f: Fields, a: Cpu, b: Cpu)
    requires IsAlu(f.op) && Defined(AluOpOf(f.op), a.regs[f.rs]) && Defined(AluOpOf(f.op), b.regs[f.rs])
    requires var op := AluOpOf(f.op); M.AluResult(op, a.regs[f.rd], a.regs[f.rs]) != M.AluResult(op, b.regs[f.rd], b.regs[f.rs])
    ensures StepApart(f, a, b)
  {
    hide M.AluResult, M.AluFlags;
  }

  predicate Defined(op: M.AluOp, y: Word) { (op == M.DIV ==> y != 0) && (M.IsShift(op) ==> y < 32) }

  /** Two second operands that tell, behind a first one of 0 for OR and of 1 otherwise. */
  function First(op: M.AluOp): Word { if op == M.OR then 0 else 1 }

  function Other(op: M.AluOp): Word { if op == M.DIV then 2 else 0 }

  lemma FirstTells(op: M.AluOp)
    ensures var y := Neutral(op); Defined(op, y) && M.AluResult(op, 0, y) != M.AluResult(op, 1, y)
  {
    match op
    case AND => assert And(1, 1) == 2 * And(0, 0) + 1;
    case OR => assert OrBits(1, 0) == 2 * OrBits(0, 0) + 1;
    case XOR => assert XorBits(1, 0) == 2 * XorBits(0, 0) + 1;
    case _ =>
  }

  lemma SecondTells(op: M.AluOp)
    ensures var x, y := First(op), Other(op);
            Defined(op, 1) && Defined(op, y) && M.AluResult(op, x, 1) != M.AluResult(op, x, y)
  {
    match op
    case AND => assert And(1, 1) == 2 * And(0, 0) + 1;
    case OR => assert OrBits(0, 1) == 2 * OrBits(0, 0) + 1;
    case XOR => assert XorBits(1, 1) == 2 * XorBits(0, 0) && XorBits(1, 0) == 2 * XorBits(0, 0) + 1;
    case SHL => assert Pow2(1) == 2 * Pow2(0);
    case SHR => assert Pow2(1) == 2 * Pow2(0);
    case _ =>
  }

  lemma FirstOperandMatters(m: Memory, f: Fields) returns (a: Cpu, b: Cpu)
    requires IsAlu(f.op) && f.rd != f.rs
    ensures DifferAt(a, b, f.rd) && StepApart(f, a, b)
  {
    hide M.AluResult, StepApart;
    var op := AluOpOf(f.op);
    FirstTells(op);
    a, b := Probe(m, 0, f.rd, 0, f.rs, Neutral(op), CLEAR), Probe(m, 0, f.rd, 1, f.rs, Neutral(op), CLEAR);
    ApartInResult(f, a, b);
  }

  lemma SecondOperandMatters(m: Memory, f: Fields) returns (a: Cpu, b: Cpu)
    requires IsAlu(f.op) && f.rd != f.rs
    ensures DifferAt(a, b, f.rs) && StepApart(f, a, b)
  {
    hide M.AluResult, StepApart;
    var op := AluOpOf(f.op);
    SecondTells(op);
    a, b := Probe(m, 0, f.rd, First(op), f.rs, 1, CLEAR), Probe(m, 0, f.rd, First(op), f.rs, Other(op), CLEAR);
    ApartInResult(f, a, b);
  }

  /** The base that makes an access go to address a. */
  function BaseFor(a: Word, imm: int): Word { Wrap(a - imm) }

  lemma BaseHits(a: Word, imm: int)
    ensures Wrap(BaseFor(a, imm) + imm) == a
  {
    WrapAdds(a - imm, imm);
    WrapIdentity(a);
  }

  lemma LoadedAt(f: Fields, c: Cpu, at: Word)
    requires f.op == I.LOAD && Wrap(c.regs[f.rs] + f.imm) == at && at < 0x100
    ensures Execute(f, c) == Some(SetReg(c, f.rd, Read(c.mem, at)))
  {
    hide Read, Wrap;
  }

  lemma LoadBaseMatters(m: Memory, f: Fields) returns (a: Cpu, b: Cpu)
    requires Marked(m) && f.op == I.LOAD
    ensures DifferAt(a, b, f.rs) && StepApart(f, a, b)
  {
    hide Read, Wrap, BaseFor, Execute;
    a := Probe(m, 0, f.rs, BaseFor(0, f.imm), f.rs, 0, CLEAR);
    b := Probe(m, 0, f.rs, BaseFor(4, f.imm), f.rs, 0, CLEAR);
    BaseHits(0, f.imm);
    BaseHits(4, f.imm);
    LoadedAt(f, a, 0);
    LoadedAt(f, b, 4);
  }

  lemma WrittenByte(m: Memory, a: Word, w: Word)
    requires InBounds(a)
    ensures Write(m, a, w)[a] == w % 0x100
  {
    B.PutAt(m, a, w, a);
  }

  lemma StoreBaseMatters(m: Memory, f: Fields) returns (a: Cpu, b: Cpu)
    requires Marked(m) && f.op == I.STORE && f.rd != f.rs
    ensures DifferAt(a, b, f.rd) && StepApart(f, a, b)
  {
    hide Write, Wrap, BaseFor, Execute, StepApart;
    a := Probe(m, 0, f.rd, BaseFor(0, f.imm), f.rs, 1, CLEAR);
    b := Probe(m, 0, f.rd, BaseFor(4, f.imm), f.rs, 1, CLEAR);
    BaseHits(0, f.imm);
    BaseHits(4, f.imm);
    StoredAt(f, a, 0);
    StoredAt(f, b, 4);
    ZeroByte(m, 4);
    hide Read;
    StoresApart(m, 0, 1);
    ApartInMemory(f, a, b);
  }

  lemma StoredValueMatters(m: Memory, f: Fields) returns (a: Cpu, b: Cpu)
    requires Marked(m) && f.op == I.STORE && f.rd != f.rs
    ensures DifferAt(a, b, f.rs) && StepApart(f, a, b)
  {
    hide Write, Wrap, BaseFor, Execute, StepApart;
    a := Probe(m, 0, f.rd, BaseFor(4, f.imm), f.rs, 0, CLEAR);
    b := Probe(m, 0, f.rd, BaseFor(4, f.imm), f.rs, 1, CLEAR);
    BaseHits(4, f.imm);
    StoredAt(f, a, 4);
    StoredAt(f, b, 4);
    ZeroByte(m, 4);
    hide Read;
    StoresApart(m, 4, 0);
    ApartInMemory(f, a, b);
  }

  lemma ApartInMemory(f: Fields, a: Cpu, b: Cpu)
    requires Execute(f, a).Some? && Execute(f, b).Some? && Execute(f, a).value.mem != Execute(f, b).value.mem
    ensures StepApart(f, a, b)
  {
    hide Execute, Meta;
  }

  lemma StoresApart(m: Memory, x: Word, y: Word)
    requires m[4] == 0 && ((x == 4 && y == 0) || (x == 0 && y == 1))
    ensures Write(m, x, y) != Write(m, 4, 1)
  {
    B.PutAt(m, x, y, 4);
    B.PutAt(m, 4, 1, 4);
    hide Write;
  }

  lemma StoredAt(f: Fields, c: Cpu, at: Word)
    requires f.op == I.STORE && Wrap(c.regs[f.rd] + f.imm) == at && at < 0x100
    ensures Execute(f, c) == Some(c.(mem := Write(c.mem, at, c.regs[f.rs])))
  {
    hide Write, Wrap;
  }

  lemma PushMatters(m: Memory, f: Fields) returns (a: Cpu, b: Cpu)
    requires f.op == I.PUSH
    ensures DifferAt(a, b, f.rd) && StepApart(f, a, b)
  {
    a, b := Probe(m, 0, f.rd, 0, f.rd, 0, CLEAR), Probe(m, 0, f.rd, 1, f.rd, 0, CLEAR);
    WrittenByte(m, MEM_SIZE - 12, 0);
    WrittenByte(m, MEM_SIZE - 12, 1);
    hide Write;
    assert Wrap(MEM_SIZE - 12) == MEM_SIZE - 12;
  }

  /** Flags under which a jump is taken, and flags under which it is not. */
  function TakenFlags(op: I.Opcode, taken: bool): M.Flags
    requires IsConditionalJump(op)
  {
    match op
    case JZ => M.Flags(taken, false, false, false)
    case JL => M.Flags(false, false, false, taken)
    case _ => M.Flags(!taken, false, false, false)
  }

  lemma FlagsMatter(m: Memory, f: Fields) returns (a: Cpu, b: Cpu)
    requires IsConditionalJump(f.op)
    ensures DifferAt(a, b, I.FLAG_REG) && StepApart(f, a, b)
  {
    var pc: Word := if Wrap(f.imm) == 0 then 4 else 0;
    a, b := Probe(m, pc, 0, 0, 0, 0, TakenFlags(f.op, true)), Probe(m, pc, 0, 0, 0, 0, TakenFlags(f.op, false));
    hide Wrap;
  }

  lemma PlainOperandMatters(m: Memory, f: Fields) returns (a: Cpu, b: Cpu)
    requires f.op in {I.NOT, I.MOV, I.OUT}
    ensures DifferAt(a, b, if f.op == I.MOV then f.rs else f.rd) && StepApart(f, a, b)
  {
    var r := if f.op == I.MOV then f.rs else f.rd;
    a, b := Probe(m, 0, r, 0, r, 0, CLEAR), Probe(m, 0, r, 1, r, 0, CLEAR);
    if f.op == I.OUT {
      assert Execute(f, a).value.out[0] == Number(0) && Execute(f, b).value.out[0] == Number(1);
    }
  }

  /** For every recorded operand there are two states that differ in it alone and step apart. */
  lemma EverySourceMatters(f: Fields, s: I.Slot) returns (a: Cpu, b: Cpu)
    requires s in Meta(f).sources && f.rd != f.rs
    ensures DifferAt(a, b, s) && StepApart(f, a, b)
  {
    var m := MarkedMemory();
    hide DifferAt, StepApart, Marked;
    if IsAlu(f.op) {
      if s == f.rd {
        a, b := FirstOperandMatters(m, f);
      } else {
        a, b := SecondOperandMatters(m, f);
      }
    } else if IsConditionalJump(f.op) {
      a, b := FlagsMatter(m, f);
    } else if f.op == I.LOAD {
      a, b := LoadBaseMatters(m, f);
    } else if f.op == I.STORE {
      if s == f.rd {
        a, b := StoreBaseMatters(m, f);
      } else {
        a, b := StoredValueMatters(m, f);
      }
    } else if f.op == I.PUSH {
      a, b := PushMatters(m, f);
    } else {
      a, b := PlainOperandMatters(m, f);
    }
  }

  // ----- Results -----

  /** Every recorded result shows: some state's register, flags, memory access or pc is really affected. */
  ghost predicate Shows(f: Fields, c: Cpu) {
    && Execute(f, c).Some?
    && var d, e := Meta(f), Execute(f, c).value;
    && (d.hasWrite ==> e.regs[d.writeReg] != c.regs[d.writeReg])
    && (d.setsFlags ==> e.flags != c.flags)
    && (d.isControl ==> e.pc != c.pc)
  }

  /** Operands whose result is positive and differs from the first. */
  function Sample(op: M.AluOp): (Word, Word) {
    match op
    case OR => (2, 1)
    case MUL | DIV => (3, 2)
    case _ => (3, 1)
  }

  lemma SampleResult(op: M.AluOp)
    ensures Defined(op, Sample(op).1)
    ensures var r := M.AluResult(op, Sample(op).0, Sample(op).1); 0 < r < 0x100 && r != Sample(op).0
  {
    match op
    case AND => assert And(1, 0) == 0;
    case OR => assert OrBits(1, 0) == 2 * OrBits(0, 0) + 1;
    case XOR => assert XorBits(1, 0) == 2 * XorBits(0, 0) + 1;
    case SHL => assert Pow2(1) == 2 * Pow2(0);
    case SHR => assert Pow2(1) == 2 * Pow2(0);
    case _ =>
  }

  lemma AluShows(m: Memory, f: Fields) returns (c: Cpu)
    requires IsAlu(f.op) && f.rd != f.rs
    ensures Shows(f, c)
  {
    hide M.AluResult;
    var op := AluOpOf(f.op);
    c := Probe(m, 0, f.rd, Sample(op).0, f.rs, Sample(op).1, M.Flags(true, false, false, true));
    SampleResult(op);
  }

  lemma MoveShows(m: Memory, f: Fields) returns (c: Cpu)
    requires f.op in {I.NOT, I.MOV, I.LOADI, I.IN} && f.rd != f.rs
    ensures Shows(f, c)
  {
    var before: Word := if f.op == I.LOADI && Wrap(f.imm) == 0 then 4 else 0;
    c := Probe(m, 0, f.rd, before, f.rs, 1, CLEAR);
    hide Wrap;
  }

  lemma ReadShows(m: Memory, f: Fields) returns (c: Cpu)
    requires Marked(m) && f.op in {I.LOAD, I.POP} && f.rd != f.rs
    ensures Shows(f, c)
  {
    c := Probe(m, 0, f.rd, 0, f.rs, BaseFor(0, f.imm), CLEAR);
    BaseHits(0, f.imm);
    hide Read, Wrap, BaseFor;
    if f.op == I.LOAD {
      LoadedAt(f, c, 0);
      hide Execute;
    }
  }

  lemma JumpShows(m: Memory, f: Fields) returns (c: Cpu)
    requires IsConditionalJump(f.op) || f.op == I.JMP
    ensures Shows(f, c)
  {
    var away: Word := if Wrap(f.imm) == 0 then 4 else 0;
    c := Probe(m, away, 0, 0, 0, 0, if f.op == I.JMP then CLEAR else TakenFlags(f.op, true));
    hide Wrap;
  }

  lemma CallShows(m: Memory, f: Fields) returns (c: Cpu)
    requires f.op == I.CALL
    ensures Shows(f, c)
  {
    var away: Word := if Wrap(f.imm) == 0 then 4 else 0;
    c := Probe(m, away, 0, 0, 0, 0, CLEAR);
    assert Wrap(MEM_SIZE - 12) == MEM_SIZE - 12;
    hide Wrap, Write;
  }

  lemma ReturnShows(m: Memory, f: Fields) returns (c: Cpu)
    requires Marked(m) && f.op == I.RET
    ensures Shows(f, c)
  {
    c := Probe(m, 0, 0, 0, 0, 0, CLEAR);
    hide Read, Wrap;
  }

  lemma EveryResultShows(f: Fields) returns (c: Cpu)
    requires f.rd != f.rs
    ensures Shows(f, c)
  {
    var m := MarkedMemory();
    hide Shows, Marked;
    if IsAlu(f.op) {
      c := AluShows(m, f);
    } else if f.op in {I.NOT, I.MOV, I.LOADI, I.IN} {
      c := MoveShows(m, f);
    } else if f.op in {I.LOAD, I.POP} {
      c := ReadShows(m, f);
    } else if f.op == I.CALL {
      c := CallShows(m, f);
    } else if f.op == I.RET {
      c := ReturnShows(m, f);
    } else if I.IsControl(f.op) {
      c := JumpShows(m, f);
    } else {
      c := RestShows(m, f);
    }
  }

  lemma RestShows(m: Memory, f: Fields) returns (c: Cpu)
    requires !Meta(f).hasWrite && !I.IsControl(f.op)
    ensures Shows(f, c)
  {
    c := Probe(m, 0, f.rd, BaseFor(0, f.imm), f.rd, 0, CLEAR);
    BaseHits(0, f.imm);
    hide Write, BaseFor;
    assert Wrap(MEM_SIZE - 12) == MEM_SIZE - 12;
    hide Wrap;
  }

  /** Every recorded access is one: it writes the recorded bytes, or steps apart over what they hold. */
  ghost predicate Touches(f: Fields, a: Cpu, b: Cpu) {
    && Execute(f, a).Some? && Execute(f, b).Some? && b == a.(mem := b.mem)
    && OnlyAt(a.mem, b.mem, MemAddr(f, a))
    && (Execute(f, a).value.mem != a.mem || Execute(f, b).value.(mem := b.mem) != Execute(f, a).value.(mem := b.mem))
  }

  lemma EveryAccessShows(f: Fields) returns (a: Cpu, b: Cpu)
    requires Meta(f).accessesMem && f.rd != f.rs
    ensures Touches(f, a, b)
  {
    var m := MarkedMemory();
    hide Touches, Marked;
    if f.op == I.LOAD {
      a, b := LoadTouches(m, f);
    } else if f.op in {I.POP, I.RET} {
      a, b := PopTouches(m, f);
    } else if f.op == I.STORE {
      a := StoreTouches(m, f);
      b := a;
    } else {
      a := PushTouches(m, f);
      b := a;
    }
  }

  lemma PoppedAt(f: Fields, c: Cpu)
    requires f.op in {I.POP, I.RET} && InBounds(c.sp)
    ensures Execute(f, c) == Some(if f.op == I.POP then SetReg(c, f.rd, Read(c.mem, c.sp)).(sp := Wrap(c.sp + 4))
                                  else c.(pc := Read(c.mem, c.sp), sp := Wrap(c.sp + 4)))
  {
    hide Read, Wrap;
  }

  lemma PushedAt(f: Fields, c: Cpu, at: Word)
    requires f.op in {I.PUSH, I.CALL} && c.sp == at + 4 && InBounds(at)
    ensures Execute(f, c).Some?
    ensures Execute(f, c).value.mem == Write(c.mem, at, if f.op == I.PUSH then c.regs[f.rd] else c.pc)
  {
    WrapIdentity(at);
    hide Write, Wrap;
  }

  lemma ReadLow(m: Memory, at: Word)
    requires InBounds(at) && m[at] == 2
    ensures Read(m, at) != 1
  {
  }

  lemma ApartBeyondMemory(f: Fields, a: Cpu, b: Cpu)
    requires Execute(f, a).Some? && Execute(f, b).Some? && b == a.(mem := b.mem) && OnlyAt(a.mem, b.mem, MemAddr(f, a))
    requires Execute(f, a).value.regs != Execute(f, b).value.regs || Execute(f, a).value.pc != Execute(f, b).value.pc
    ensures Touches(f, a, b)
  {
    hide Execute, MemAddr, OnlyAt;
  }

  lemma WrittenTouches(f: Fields, a: Cpu)
    requires Execute(f, a).Some? && Execute(f, a).value.mem != a.mem
    ensures Touches(f, a, a)
  {
    Untouched(a.mem, MemAddr(f, a));
    hide Execute, MemAddr, OnlyAt;
  }

  lemma LoadTouches(m: Memory, f: Fields) returns (a: Cpu, b: Cpu)
    requires Marked(m) && f.op == I.LOAD && f.rd != f.rs
    ensures Touches(f, a, b)
  {
    hide Write, Wrap, BaseFor, OnlyAt, Execute, Touches;
    a := Probe(m, 0, f.rd, 0, f.rs, BaseFor(0, f.imm), CLEAR);
    b := a.(mem := Write(m, 0, 2));
    WriteOnlyAt(m, 0, 2);
    WrittenByte(m, 0, 2);
    ReadLow(b.mem, 0);
    hide Read;
    BaseHits(0, f.imm);
    LoadApart(f, a, b);
  }

  lemma LoadApart(f: Fields, a: Cpu, b: Cpu)
    requires f.op == I.LOAD && Wrap(a.regs[f.rs] + f.imm) == 0 && b == a.(mem := b.mem) && OnlyAt(a.mem, b.mem, 0)
    requires Read(a.mem, 0) != Read(b.mem, 0)
    ensures Touches(f, a, b)
  {
    hide Wrap, OnlyAt, Execute, Touches, Read;
    LoadedAt(f, a, 0);
    LoadedAt(f, b, 0);
    assert Execute(f, a).value.regs[f.rd] != Execute(f, b).value.regs[f.rd];
    ApartBeyondMemory(f, a, b);
  }

  lemma PopTouches(m: Memory, f: Fields) returns (a: Cpu, b: Cpu)
    requires Marked(m) && f.op in {I.POP, I.RET} && f.rd != f.rs
    ensures Touches(f, a, b)
  {
    hide Write, Wrap, BaseFor, OnlyAt, Execute, Touches;
    a := Probe(m, 0, f.rd, 0, f.rs, 0, CLEAR);
    b := a.(mem := Write(m, MEM_SIZE - 8, 2));
    WriteOnlyAt(m, MEM_SIZE - 8, 2);
    WrittenByte(m, MEM_SIZE - 8, 2);
    ReadLow(b.mem, MEM_SIZE - 8);
    hide Read;
    PoppedAt(f, a);
    PoppedAt(f, b);
    assert f.op == I.POP ==> Execute(f, a).value.regs[f.rd] != Execute(f, b).value.regs[f.rd];
    ApartBeyondMemory(f, a, b);
  }

  lemma Changed(m: Memory, at: Word)
    requires InBounds(at) && Read(m, at) == 0
    ensures Write(m, at, 7) != m
  {
    hide Write, Read;
    ZeroByte(m, at);
    WrittenByte(m, at, 7);
  }

  lemma StoreTouches(m: Memory, f: Fields) returns (a: Cpu)
    requires Marked(m) && f.op == I.STORE && f.rd != f.rs
    ensures Touches(f, a, a)
  {
    a := Probe(m, 7, f.rd, BaseFor(4, f.imm), f.rs, 7, CLEAR);
    hide Write, Read, BaseFor, Wrap, Execute, Touches;
    BaseHits(4, f.imm);
    Changed(m, 4);
    StoredAt(f, a, 4);
    WrittenTouches(f, a);
  }

  lemma PushTouches(m: Memory, f: Fields) returns (a: Cpu)
    requires Marked(m) && f.op in {I.PUSH, I.CALL}
    ensures Touches(f, a, a)
  {
    hide Write, Read, Execute, Touches;
    Changed(m, MEM_SIZE - 12);
    a := Probe(m, 7, f.rd, 7, f.rd, 7, CLEAR);
    assert a.pc == 7 && a.regs[f.rd] == 7 && a.mem == m && a.sp == MEM_SIZE - 8;
    hide Probe;
    PushedAt(f, a, MEM_SIZE - 12);
    WrittenTouches(f, a);
  }

  // ----- Devices -----

  /** Reading 0xE008 is IN; the other device addresses read as 0. */
  lemma DeviceReads(f: Fields, c: Cpu)
    requires f.op == I.LOAD && 0xE000 <= MemAddr(f, c) < 0xE010
    ensures Execute(f, c) == if MemAddr(f, c) == 0xE008 then Execute(Fields(I.IN, f.rd, 0, 0), c)
                             else Execute(Fields(I.LOADI, f.rd, 0, 0), c)
  {
    hide Wrap;
    assert Wrap(0) == 0 by { WrapIdentity(0); }
  }

  /** Writing 0xE000 is OUT and writing 0xE00C is HALT; 0xE004 prints the low byte as a character, unless the run is silent,
      and 0xE008 ignores what is written. */
  lemma DeviceWrites(f: Fields, c: Cpu)
    requires f.op == I.STORE && 0xE000 <= MemAddr(f, c) < 0xE010
    ensures MemAddr(f, c) == 0xE000 ==> Execute(f, c) == Execute(Fields(I.OUT, f.rs, 0, 0), c)
    ensures MemAddr(f, c) == 0xE00C ==> Execute(f, c) == Execute(Fields(I.HALT, 0, 0, 0), c)
    ensures MemAddr(f, c) == 0xE004 ==>
              Execute(f, c) == Some(c.(out := c.out + if c.silent then [] else [Character(c.regs[f.rs] % 256)]))
    ensures MemAddr(f, c) !in {0xE000, 0xE004, 0xE00C} ==> Execute(f, c) == Execute(Fields(I.NOP, 0, 0, 0), c)
  {
    hide Wrap;
    assert c.out + [] == c.out;
  }
}
