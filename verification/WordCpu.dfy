/** The reference CPU on bytes: instruction words fetched from the memory that data, devices and the hardware stack share. */
module WordCpu {
  import opened Words
  import opened Wrappers
  import opened Isa
  import I = InstStream
  import M = Machine
  import E = AsmEncoder
  import B = AsmRoundTrip

  const MEM_SIZE := 0x1_0000

  const MMIO_OUT := 0xE000
  const MMIO_OUTC := 0xE004
  const MMIO_IN := 0xE008
  const MMIO_HALT := 0xE00C
  const MMIO_END := 0xE010

  type Memory = b: seq<E.Byte> | |b| == MEM_SIZE witness seq(MEM_SIZE, _ => 0)

  /** What the program writes: decimal numbers, and single characters through the console device. */
  datatype Output = Number(w: Word) | Character(b: E.Byte)

  datatype Cpu = Cpu(regs: M.Regs, pc: Word, sp: Word, flags: M.Flags, mem: Memory, silent: bool,
                     input: seq<Word>, out: seq<Output>, halted: bool)

  /** cpu_init. */
  function Reset(mem: Memory, silent: bool, input: seq<Word>): Cpu {
    Cpu(seq(I.NUM_REGS, _ => 0), 0, MEM_SIZE, M.Flags(false, false, false, false), mem, silent, input, [], false)
  }

  /** Four bytes inside the memory. Any other access ends the process, but for addresses from 0xFFFF_FFFC on: the original's
      check adds in 32 bits, lets these pass and reads outside its array, which is not part of this model. */
  predicate InBounds(a: Word) { a + 4 <= MEM_SIZE }

  function Read(mem: Memory, a: Word): Word
    requires InBounds(a)
  {
    B.WordAt(mem, a)
  }

  function Write(mem: Memory, a: Word, w: Word): Memory
    requires InBounds(a)
  {
    E.Put(mem, a, w)
  }

  predicate IsDevice(a: Word) { M.MMIO_BASE <= a < MMIO_END }

  // ----- One instruction -----

  function SetReg(c: Cpu, r: I.Reg, w: Word): Cpu { c.(regs := c.regs[r := w]) }

  predicate IsAlu(op: I.Opcode) { op in {I.ADD, I.SUB, I.MUL, I.DIV, I.AND, I.OR, I.XOR, I.SHL, I.SHR} }

  function AluOpOf(op: I.Opcode): M.AluOp
    requires IsAlu(op)
  {
    match op
    case ADD => M.ADD case SUB => M.SUB case MUL => M.MUL case DIV => M.DIV
    case AND => M.AND case OR => M.OR case XOR => M.XOR case SHL => M.SHL case SHR => M.SHR
  }

  /** Division by zero halts; a shift by 32 or more is undefined in C. */
  function ExecAlu(op: M.AluOp, d: I.Reg, s: I.Reg, c: Cpu): Option<Cpu> {
    var a, b := c.regs[d], c.regs[s];
    if op == M.DIV && b == 0 then Some(c.(halted := true))
    else if M.IsShift(op) && 32 <= b then None
    else
      var r := M.AluResult(op, a, b);
      Some(c.(regs := c.regs[d := r], flags := M.AluFlags(op, a, b, r, c.flags)))
  }

  /** The next number of the input, 0 at its end and in silent runs. */
  function NextInput(c: Cpu): Word { if c.silent || c.input == [] then 0 else c.input[0] }

  function Consume(c: Cpu): Cpu { if c.silent || c.input == [] then c else c.(input := c.input[1..]) }

  function Emit(c: Cpu, o: Output): Cpu { if c.silent then c else c.(out := c.out + [o]) }

  function LoadFrom(c: Cpu, d: I.Reg, a: Word): Option<Cpu> {
    if IsDevice(a) then
      if a == MMIO_IN then Some(SetReg(Consume(c), d, NextInput(c))) else Some(SetReg(c, d, 0))
    else if InBounds(a) then Some(SetReg(c, d, Read(c.mem, a)))
    else None
  }

  function StoreTo(c: Cpu, a: Word, w: Word): Option<Cpu> {
    if IsDevice(a) then
      Some(if a == MMIO_OUT then Emit(c, Number(w))
           else if a == MMIO_OUTC then Emit(c, Character(w % 0x100))
           else if a == MMIO_HALT then c.(halted := true)
           else c)
    else if InBounds(a) then Some(c.(mem := Write(c.mem, a, w)))
    else None
  }

  function PushWord(c: Cpu, w: Word): Option<Cpu> {
    var sp := Wrap(c.sp - 4);
    if InBounds(sp) then Some(c.(sp := sp, mem := Write(c.mem, sp, w))) else None
  }

  predicate IsConditionalJump(op: I.Opcode) { op in {I.JZ, I.JNZ, I.JG, I.JL} }

  function CondOf(op: I.Opcode): M.Cond
    requires IsConditionalJump(op)
  {
    match op
    case JZ => M.Zero case JNZ => M.NotZero case JG => M.Greater case JL => M.Less
  }

  /** The effect of an instruction once pc has moved past it; None where the process ends or C leaves it undefined. */
  function Execute(f: Fields, c: Cpu): Option<Cpu> {
    if IsAlu(f.op) then ExecAlu(AluOpOf(f.op), f.rd, f.rs, c)
    else if IsConditionalJump(f.op) then Some(if M.Holds(CondOf(f.op), c.flags) then c.(pc := Wrap(f.imm)) else c)
    else match f.op
      case NOP => Some(c)
      case HALT | Illegal => Some(c.(halted := true))
      case NOT =>
        var r := Not(c.regs[f.rd]);
        Some(SetReg(c, f.rd, r).(flags := c.flags.(z := r == 0, n := Negative(r))))
      case MOV => Some(SetReg(c, f.rd, c.regs[f.rs]))
      case LOAD => LoadFrom(c, f.rd, Wrap(c.regs[f.rs] + f.imm))
      case STORE => StoreTo(c, Wrap(c.regs[f.rd] + f.imm), c.regs[f.rs])
      case LOADI => Some(SetReg(c, f.rd, Wrap(f.imm)))
      case PUSH => PushWord(c, c.regs[f.rd])
      case POP => if InBounds(c.sp) then Some(SetReg(c, f.rd, Read(c.mem, c.sp)).(sp := Wrap(c.sp + 4))) else None
      case JMP => Some(c.(pc := Wrap(f.imm)))
      case CALL =>
        var p :- PushWord(c, c.pc);
        Some(p.(pc := Wrap(f.imm)))
      case RET => if InBounds(c.sp) then Some(c.(pc := Read(c.mem, c.sp), sp := Wrap(c.sp + 4))) else None
      case IN => Some(SetReg(Consume(c), f.rd, NextInput(c)))
      case OUT => Some(Emit(c, Number(c.regs[f.rd])))
  }

  function NextPc(pc: Word): Word { Wrap(pc + 4) }

  /** The instruction at pc. */
  function Fetch(c: Cpu): Fields
    requires InBounds(c.pc)
  {
    Decode(Read(c.mem, c.pc))
  }

  /** cpu_step. */
  function Step(c: Cpu): Option<Cpu> {
    if InBounds(c.pc) then Execute(Fetch(c), c.(pc := NextPc(c.pc))) else None
  }

  /** k steps of cpu_run; a halted CPU makes none. */
  function Steps(c: Cpu, k: nat): Option<Cpu>
    decreases k
  {
    if k == 0 then Some(c)
    else if c.halted then None
    else
      var d :- Step(c);
      Steps(d, k - 1)
  }

  /** cpu_run from c ends in d after k steps. */
  predicate RunsTo(c: Cpu, d: Cpu, k: nat) { Steps(c, k) == Some(d) && d.halted }

  lemma {:induction false} StepsLast(c: Cpu, k: nat)
    requires 1 <= k && Steps(c, k).Some?
    ensures Steps(c, k - 1).Some? && !Steps(c, k - 1).value.halted && Step(Steps(c, k - 1).value) == Steps(c, k)
    decreases k
  {
    hide Step;
    if k > 1 {
      StepsLast(Step(c).value, k - 1);
    }
  }

  // ----- What the timing models record of an instruction -----

  /** The data address, for the five kinds of instruction that have one. */
  function MemAddr(f: Fields, c: Cpu): Word {
    match f.op
    case LOAD => Wrap(c.regs[f.rs] + f.imm)
    case STORE => Wrap(c.regs[f.rd] + f.imm)
    case PUSH | CALL => Wrap(c.sp - 4)
    case POP | RET => c.sp
    case _ => 0
  }

  function Record(c: Cpu, next: Cpu): (d: I.Inst)
    requires InBounds(c.pc)
  {
    I.DecodeMeta(Fetch(c).op, Fetch(c).rd, Fetch(c).rs, I.Outcome(c.pc, next.pc, MemAddr(Fetch(c), c)))
  }

  /** Whatever halts the CPU leaves pc behind itself, and is no control instruction. */
  lemma HaltFallsThrough(c: Cpu)
    requires Step(c).Some? && !c.halted && Step(c).value.halted
    ensures !I.Redirects(Record(c, Step(c).value))
  {
    hide Decode, Read, Write, M.AluResult, M.AluFlags;
  }

  // ----- The recorded dependences are the instruction's own -----

  /** What decoding alone says of an instruction. */
  function Meta(f: Fields): I.Inst { I.DecodeMeta(f.op, f.rd, f.rs, I.Outcome(0, 0, 0)) }

  /** The states agree on everything but registers and flags, and on those that rs names. */
  ghost predicate AgreeOn(a: Cpu, b: Cpu, rs: seq<I.Slot>) {
    && b == a.(regs := b.regs, flags := b.flags)
    && (forall r: I.Reg :: r in rs ==> a.regs[r] == b.regs[r])
    && (I.FLAG_REG in rs ==> a.flags == b.flags)
  }

  /** Everything but registers and flags came out the same, the written register too, and zero and sign if flags are set. */
  ghost predicate SameEffect(d: I.Inst, a: Cpu, b: Cpu) {
    && b == a.(regs := b.regs, flags := b.flags)
    && (d.hasWrite ==> a.regs[d.writeReg] == b.regs[d.writeReg])
    && (d.setsFlags && !a.halted ==> a.flags.z == b.flags.z && a.flags.n == b.flags.n)
  }

  lemma AluDependsOnSources(f: Fields, a: Cpu, b: Cpu)
    requires IsAlu(f.op) && AgreeOn(a, b, Meta(f).sources)
    ensures Execute(f, a).Some? <==> Execute(f, b).Some?
    ensures Execute(f, a).Some? ==> SameEffect(Meta(f), Execute(f, a).value, Execute(f, b).value)
  {
    assert f.rd in Meta(f).sources && f.rs in Meta(f).sources;
    assert a.regs[f.rd] == b.regs[f.rd] && a.regs[f.rs] == b.regs[f.rs];
    hide M.AluResult, AluOpOf;
  }

  lemma AddressDependsOnSources(f: Fields, a: Cpu, b: Cpu)
    requires AgreeOn(a, b, Meta(f).sources)
    ensures MemAddr(f, a) == MemAddr(f, b)
  {
    hide Wrap;
    if f.op == I.LOAD {
      assert f.rs in Meta(f).sources;
    } else if f.op == I.STORE {
      assert f.rd in Meta(f).sources;
    }
  }

  lemma LoadAlike(a: Cpu, b: Cpu, d: I.Reg, x: Word)
    requires b == a.(regs := b.regs, flags := b.flags)
    ensures LoadFrom(a, d, x).Some? <==> LoadFrom(b, d, x).Some?
    ensures LoadFrom(a, d, x).Some? ==>
              var a', b' := LoadFrom(a, d, x).value, LoadFrom(b, d, x).value;
              b' == a'.(regs := b'.regs, flags := b'.flags) && a'.regs[d] == b'.regs[d]
  {
    hide Read;
  }

  lemma StoreAlike(a: Cpu, b: Cpu, x: Word, w: Word)
    requires b == a.(regs := b.regs, flags := b.flags)
    ensures StoreTo(a, x, w).Some? <==> StoreTo(b, x, w).Some?
    ensures StoreTo(a, x, w).Some? ==>
              var a', b' := StoreTo(a, x, w).value, StoreTo(b, x, w).value; b' == a'.(regs := b'.regs, flags := b'.flags)
  {
    hide Write;
  }

  lemma MemoryDependsOnSources(f: Fields, a: Cpu, b: Cpu)
    requires f.op in {I.LOAD, I.STORE, I.PUSH, I.POP, I.CALL, I.RET} && AgreeOn(a, b, Meta(f).sources)
    ensures Execute(f, a).Some? <==> Execute(f, b).Some?
    ensures Execute(f, a).Some? ==> SameEffect(Meta(f), Execute(f, a).value, Execute(f, b).value)
  {
    hide Wrap, Read, Write, LoadFrom, StoreTo;
    if f.op == I.STORE {
      assert f.rs in Meta(f).sources && f.rd in Meta(f).sources;
      StoreAlike(a, b, Wrap(a.regs[f.rd] + f.imm), a.regs[f.rs]);
    } else if f.op == I.LOAD {
      assert f.rs in Meta(f).sources;
      LoadAlike(a, b, f.rd, Wrap(a.regs[f.rs] + f.imm));
    } else if f.op == I.PUSH {
      assert f.rd in Meta(f).sources;
    }
  }

  lemma OtherDependsOnSources(f: Fields, a: Cpu, b: Cpu)
    requires !IsAlu(f.op) && f.op !in {I.LOAD, I.STORE, I.PUSH, I.POP, I.CALL, I.RET} && AgreeOn(a, b, Meta(f).sources)
    ensures Execute(f, a).Some? <==> Execute(f, b).Some?
    ensures Execute(f, a).Some? ==> SameEffect(Meta(f), Execute(f, a).value, Execute(f, b).value)
  {
    hide Wrap, Not;
    if f.op in {I.NOT, I.OUT} {
      assert f.rd in Meta(f).sources;
    } else if f.op == I.MOV {
      assert f.rs in Meta(f).sources;
    } else if IsConditionalJump(f.op) {
      assert I.FLAG_REG in Meta(f).sources;
    }
  }

  lemma ExecuteDependsOnSources(f: Fields, a: Cpu, b: Cpu)
    requires AgreeOn(a, b, Meta(f).sources)
    ensures Execute(f, a).Some? <==> Execute(f, b).Some?
    ensures Execute(f, a).Some? ==> SameEffect(Meta(f), Execute(f, a).value, Execute(f, b).value)
  {
    hide Execute, AgreeOn, SameEffect, Meta;
    if IsAlu(f.op) {
      AluDependsOnSources(f, a, b);
    } else if f.op in {I.LOAD, I.STORE, I.PUSH, I.POP, I.CALL, I.RET} {
      MemoryDependsOnSources(f, a, b);
    } else {
      OtherDependsOnSources(f, a, b);
    }
  }

  /** States that agree on the recorded sources step alike: same record, same memory, stack, jump, input and output, and the
      same value in the register written. No other register or flag enters into it. */
  lemma DependsOnSources(a: Cpu, b: Cpu)
    requires InBounds(a.pc) && AgreeOn(a, b, Meta(Fetch(a)).sources)
    ensures Fetch(b) == Fetch(a) && (Step(a).Some? <==> Step(b).Some?)
    ensures Step(a).Some? ==> SameEffect(Meta(Fetch(a)), Step(a).value, Step(b).value)
                              && Record(a, Step(a).value) == Record(b, Step(b).value)
  {
    var f := Fetch(a);
    assert Fetch(b) == f;
    AddressDependsOnSources(f, a, b);
    hide Execute, Fetch, NextPc, MemAddr;
    ExecuteDependsOnSources(f, a.(pc := NextPc(a.pc)), b.(pc := NextPc(b.pc)));
  }

  /** The flags that come out agree exactly if the instruction is ADD or SUB or carry and overflow agreed before: the other
      instructions recorded as producing the flags leave these two alone. */
  lemma FlagsDependOnSources(f: Fields, a: Cpu, b: Cpu)
    requires Meta(f).setsFlags && AgreeOn(a, b, Meta(f).sources) && Execute(f, a).Some? && !Execute(f, a).value.halted
    ensures Execute(f, b).Some?
    ensures Execute(f, a).value.flags == Execute(f, b).value.flags
       <==> f.op in {I.ADD, I.SUB} || (a.flags.c == b.flags.c && a.flags.o == b.flags.o)
  {
    assert f.rd in Meta(f).sources && a.regs[f.rd] == b.regs[f.rd];
    if f.op != I.NOT {
      assert f.rs in Meta(f).sources && a.regs[f.rs] == b.regs[f.rs];
      hide M.AluResult, Meta, AgreeOn;
      AluFlagsDepend(f, a, b);
    } else {
      hide Not;
    }
  }

  lemma AluFlagsDepend(f: Fields, a: Cpu, b: Cpu)
    requires IsAlu(f.op) && a.regs[f.rd] == b.regs[f.rd] && a.regs[f.rs] == b.regs[f.rs]
    requires Execute(f, a).Some? && !Execute(f, a).value.halted && !a.halted && !b.halted
    ensures Execute(f, b).Some?
    ensures Execute(f, a).value.flags == Execute(f, b).value.flags
       <==> f.op in {I.ADD, I.SUB} || (a.flags.c == b.flags.c && a.flags.o == b.flags.o)
  {
    hide M.AluResult;
  }

  /** Bytes outside [at, at + 4) are as before. */
  ghost predicate OnlyAt(m: Memory, m': Memory, at: int) {
    forall j :: 0 <= j < MEM_SIZE && !(at <= j < at + 4) ==> m'[j] == m[j]
  }

  lemma WriteOnlyAt(m: Memory, a: Word, w: Word)
    requires InBounds(a)
    ensures OnlyAt(m, Write(m, a, w), a)
  {
    forall j | 0 <= j < MEM_SIZE && !(a <= j < a + 4) ensures Write(m, a, w)[j] == m[j] {
      B.PutAt(m, a, w, j);
    }
  }

  lemma StackWrites(f: Fields, c: Cpu)
    requires f.op in {I.STORE, I.PUSH, I.CALL} && Execute(f, c).Some?
    ensures OnlyAt(c.mem, Execute(f, c).value.mem, MemAddr(f, c))
    ensures Execute(f, c).value.regs == c.regs && Execute(f, c).value.flags == c.flags
    ensures f.op != I.CALL ==> Execute(f, c).value.pc == c.pc
  {
    hide Wrap, Read, Write, OnlyAt;
    var a := MemAddr(f, c);
    if InBounds(a) {
      WriteOnlyAt(c.mem, a, if f.op == I.STORE then c.regs[f.rs] else if f.op == I.PUSH then c.regs[f.rd] else c.pc);
    }
    assert OnlyAt(c.mem, c.mem, a) by { Untouched(c.mem, a); }
  }

  lemma Untouched(m: Memory, at: int)
    ensures OnlyAt(m, m, at)
  {
  }

  lemma AluWrites(f: Fields, c: Cpu)
    requires IsAlu(f.op) && Execute(f, c).Some?
    ensures var e := Execute(f, c).value;
            e.mem == c.mem && e.pc == c.pc && forall r: I.Reg :: r != f.rd ==> e.regs[r] == c.regs[r]
  {
    hide M.AluResult, M.AluFlags, AluOpOf;
  }

  lemma LoadWrites(c: Cpu, d: I.Reg, a: Word)
    requires LoadFrom(c, d, a).Some?
    ensures var e := LoadFrom(c, d, a).value;
            e.mem == c.mem && e.flags == c.flags && e.pc == c.pc && forall r: I.Reg :: r != d ==> e.regs[r] == c.regs[r]
  {
    hide Read;
  }

  lemma PlainWrites(f: Fields, c: Cpu)
    requires !IsAlu(f.op) && f.op !in {I.STORE, I.PUSH, I.CALL} && Execute(f, c).Some?
    ensures var d, e := Meta(f), Execute(f, c).value;
            && e.mem == c.mem && (!d.setsFlags ==> e.flags == c.flags) && (!d.isControl ==> e.pc == c.pc)
            && forall r: I.Reg :: !(d.hasWrite && r == d.writeReg) ==> e.regs[r] == c.regs[r]
  {
    hide Wrap, Read, Not, LoadFrom, M.Holds, CondOf;
    if f.op == I.LOAD {
      LoadWrites(c, f.rd, Wrap(c.regs[f.rs] + f.imm));
    }
  }

  /** What is not recorded as written keeps its value. */
  lemma WritesOnlyRecorded(f: Fields, c: Cpu)
    requires Execute(f, c).Some?
    ensures var d, e := Meta(f), Execute(f, c).value;
            && (forall r: I.Reg :: !(d.hasWrite && r == d.writeReg) ==> e.regs[r] == c.regs[r])
            && (!d.setsFlags ==> e.flags == c.flags)
            && (if d.accessesMem then OnlyAt(c.mem, e.mem, MemAddr(f, c)) else e.mem == c.mem)
            && (!d.isControl ==> e.pc == c.pc)
  {
    hide Execute, OnlyAt, MemAddr;
    Untouched(c.mem, MemAddr(f, c));
    if IsAlu(f.op) {
      AluWrites(f, c);
    } else if f.op in {I.STORE, I.PUSH, I.CALL} {
      StackWrites(f, c);
    } else {
      PlainWrites(f, c);
    }
  }
}
