/** Assembly lines on the real memory: a run of the line machine is a run of the CPU on the assembled image, as long as the
    hardware stack stays in the room above the data. */
module Hardware {
  import opened Words
  import opened Wrappers
  import opened M = Machine
  import opened Isa
  import L = Loader
  import I = InstStream
  import C = WordCpu
  import B = AsmRoundTrip

  /** Words that fit between the end of the data and the end of memory. */
  const ROOM := (C.MEM_SIZE - DATA_END) / 4

  // ----- The word of a line -----

  function OpcodeOfAlu(op: AluOp): (r: I.Opcode)
    ensures C.IsAlu(r) && C.AluOpOf(r) == op
  {
    match op
    case ADD => I.ADD case SUB => I.SUB case MUL => I.MUL case DIV => I.DIV
    case AND => I.AND case OR => I.OR case XOR => I.XOR case SHL => I.SHL case SHR => I.SHR
  }

  function OpcodeOfJump(c: Cond): (r: I.Opcode)
    ensures C.IsConditionalJump(r) && C.CondOf(r) == c
  {
    match c
    case Zero => I.JZ case NotZero => I.JNZ case Greater => I.JG case Less => I.JL
  }

  /** The fields of an instruction; where it names a label, 0 stands for the address. */
  function Shape(i: Instr): (f: Fields)
    ensures f.op != I.Illegal
  {
    match i
    case Halt => Fields(I.HALT, 0, 0, 0)
    case Alu(op, d, s) => Fields(OpcodeOfAlu(op), d, s, 0)
    case Inv(d) => Fields(I.NOT, d, 0, 0)
    case Mov(d, s) => Fields(I.MOV, d, s, 0)
    case Load(d, s, off) => Fields(I.LOAD, d, s, off)
    case Store(d, off, s) => Fields(I.STORE, d, s, off)
    case LoadI(d, v) => Fields(I.LOADI, d, 0, v)
    case LoadA(d, _) => Fields(I.LOADI, d, 0, 0)
    case Push(d) => Fields(I.PUSH, d, 0, 0)
    case Pop(d) => Fields(I.POP, d, 0, 0)
    case Jmp(_) => Fields(I.JMP, 0, 0, 0)
    case Jump(c, _) => Fields(OpcodeOfJump(c), 0, 0, 0)
    case Call(_) => Fields(I.CALL, 0, 0, 0)
    case Ret => Fields(I.RET, 0, 0, 0)
    case In(d) => Fields(I.IN, d, 0, 0)
    case Out(d) => Fields(I.OUT, d, 0, 0)
  }

  function Target(i: Instr): Option<Label> {
    match i
    case LoadA(_, x) => Some(Named(x))
    case Jmp(l) => Some(l)
    case Jump(_, l) => Some(l)
    case Call(l) => Some(l)
    case _ => None
  }

  /** The address of line k. */
  function LineAddress(lines: seq<Line>, k: nat): nat { if k <= |lines| then L.ByteCount(lines[..k]) else 0 }

  function Resolved(lines: seq<Line>, i: Instr): Fields {
    match Target(i)
    case None => Shape(i)
    case Some(l) => Shape(i).(imm := LineAddress(lines, Find(lines, l)))
  }

  // ----- Memory -----

  /** Every instruction's word is in memory, below `base`. */
  ghost predicate CodeIn(lines: seq<Line>, base: int, mem: C.Memory) {
    forall k :: 0 <= k < |lines| && lines[k].Op? ==> CodeAt(lines, base, mem, k)
  }

  ghost predicate CodeAt(lines: seq<Line>, base: int, mem: C.Memory, k: nat)
    requires k < |lines| && lines[k].Op?
  {
    var a := LineAddress(lines, k);
    a + 4 <= base <= DATA_END && a % 4 == 0 && Decode(C.Read(mem, a)) == Resolved(lines, lines[k].i)
  }

  /** The aligned words from `base` to the end of the data. */
  ghost predicate DataIn(p: Image, data: map<int, Word>, mem: C.Memory) {
    0 <= p.base && forall a :: DataAddress(p, a) ==> C.Read(mem, a) == Peek(data, a)
  }

  /** What a stack slot is in memory: return positions are addresses. */
  function SlotWord(lines: seq<Line>, v: Slot): Word {
    match v
    case Value(w) => w
    case Back(pc) => Wrap(LineAddress(lines, pc))
  }

  function SlotAddress(i: nat): Word
    requires i < ROOM
  {
    C.MEM_SIZE - 4 * (i + 1)
  }

  ghost predicate StackIn(lines: seq<Line>, st: seq<Slot>, mem: C.Memory, sp: Word) {
    && |st| <= ROOM && sp == C.MEM_SIZE - 4 * |st|
    && forall i :: 0 <= i < |st| ==> C.Read(mem, SlotAddress(i)) == SlotWord(lines, st[i])
  }

  /** A write to an aligned address changes that word and no other. */
  lemma WriteThenRead(mem: C.Memory, a: Word, w: Word, x: Word)
    requires C.InBounds(a) && a % 4 == 0 && C.InBounds(x) && x % 4 == 0
    ensures C.Read(C.Write(mem, a, w), x) == if x == a then w else C.Read(mem, x)
  {
    B.PutWord(mem, a, w, x);
  }

  lemma WriteAboveCode(lines: seq<Line>, base: int, mem: C.Memory, a: Word, w: Word)
    requires CodeIn(lines, base, mem) && base <= a && C.InBounds(a) && a % 4 == 0
    ensures CodeIn(lines, base, C.Write(mem, a, w))
  {
    hide C.Read, C.Write, Decode, Resolved;
    forall k | 0 <= k < |lines| && lines[k].Op? ensures CodeAt(lines, base, C.Write(mem, a, w), k) {
      assert CodeAt(lines, base, mem, k);
      WriteThenRead(mem, a, w, LineAddress(lines, k));
    }
  }

  /** A store to data memory. */
  lemma StoreData(p: Image, data: map<int, Word>, st: seq<Slot>, mem: C.Memory, sp: Word, a: Word, w: Word)
    requires DataIn(p, data, mem) && StackIn(p.lines, st, mem, sp) && DataAddress(p, a)
    ensures DataIn(p, data[a as int := w], C.Write(mem, a, w)) && StackIn(p.lines, st, C.Write(mem, a, w), sp)
  {
    hide C.Read, C.Write, SlotWord;
    forall x | DataAddress(p, x) ensures C.Read(C.Write(mem, a, w), x) == Peek(data[a as int := w], x) {
      WriteThenRead(mem, a, w, x);
    }
    forall i | 0 <= i < |st| ensures C.Read(C.Write(mem, a, w), SlotAddress(i)) == SlotWord(p.lines, st[i]) {
      WriteThenRead(mem, a, w, SlotAddress(i));
    }
  }

  /** A push to the hardware stack. */
  lemma PushSlot(p: Image, data: map<int, Word>, st: seq<Slot>, mem: C.Memory, sp: Word, v: Slot)
    requires DataIn(p, data, mem) && StackIn(p.lines, st, mem, sp) && |st| < ROOM
    ensures var a := SlotAddress(|st|); var mem' := C.Write(mem, a, SlotWord(p.lines, v));
            a == sp - 4 && DataIn(p, data, mem') && StackIn(p.lines, st + [v], mem', a)
  {
    hide C.Read, C.Write, SlotWord, Peek;
    var a, w := SlotAddress(|st|), SlotWord(p.lines, v);
    forall x | DataAddress(p, x) ensures C.Read(C.Write(mem, a, w), x) == Peek(data, x) {
      WriteThenRead(mem, a, w, x);
    }
    forall i | 0 <= i < |st + [v]| ensures C.Read(C.Write(mem, a, w), SlotAddress(i)) == SlotWord(p.lines, (st + [v])[i]) {
      WriteThenRead(mem, a, w, SlotAddress(i));
    }
  }

  /** The top of the stack, and what is below it. */
  lemma PopSlot(lines: seq<Line>, st: seq<Slot>, mem: C.Memory, sp: Word)
    requires StackIn(lines, st, mem, sp) && st != []
    ensures C.InBounds(sp) && C.Read(mem, sp) == SlotWord(lines, st[|st| - 1])
    ensures StackIn(lines, st[..|st| - 1], mem, Wrap(sp + 4))
  {
    hide C.Read, SlotWord;
    assert sp == SlotAddress(|st| - 1);
  }

  // ----- Simulation -----

  function Numbers(ws: seq<Word>): (o: seq<C.Output>)
    ensures |o| == |ws| && forall i :: 0 <= i < |ws| ==> o[i] == C.Number(ws[i])
  {
    seq(|ws|, i requires 0 <= i < |ws| => C.Number(ws[i]))
  }

  /** Everything outside the memory. */
  ghost predicate Core(p: Image, m: Machine, c: C.Cpu) {
    && c.regs == m.regs && c.flags == m.flags && c.input == m.input && c.out == Numbers(m.out)
    && c.halted == m.halted && !c.silent && c.pc == LineAddress(p.lines, m.pc)
  }

  ghost predicate Sim(p: Image, m: Machine, c: C.Cpu) {
    && Core(p, m, c) && CodeIn(p.lines, p.base, c.mem) && DataIn(p, m.mem, c.mem)
    && StackIn(p.lines, m.stack, c.mem, c.sp)
  }

  /** Data labels are where the assembler puts them, and every address is a small positive number. */
  ghost predicate Wired(p: Image) {
    && 0 <= p.base <= DATA_END && p.base % 4 == 0
    && (forall k: nat :: k <= |p.lines| ==> LineAddress(p.lines, k) <= DATA_END)
    && forall x :: x in p.addr ==> p.addr[x] == LineAddress(p.lines, Find(p.lines, Named(x)))
  }

  lemma NextPlace(lines: seq<Line>, k: nat)
    requires k < |lines|
    ensures LineAddress(lines, k + 1) == LineAddress(lines, k) + L.Span(lines[k])
  {
    assert lines[..k + 1] == lines[..k] + [lines[k]];
    L.BytesAppended(lines[..k], [lines[k]]);
    assert L.ByteCount([lines[k]]) == L.Span(lines[k]) + L.ByteCount([lines[k]][1..]);
  }

  lemma PlaceSmall(p: Image, k: nat)
    requires Wired(p)
    ensures LineAddress(p.lines, k) <= DATA_END && Wrap(LineAddress(p.lines, k)) == LineAddress(p.lines, k)
  {
    WrapIdentity(LineAddress(p.lines, k));
  }

  /** The CPU about to execute the instruction at m.pc. */
  lemma Fetched(p: Image, m: Machine, c: C.Cpu)
    requires Wired(p) && Sim(p, m, c) && m.pc < |p.lines| && p.lines[m.pc].Op?
    ensures C.Step(c) == C.Execute(Resolved(p.lines, p.lines[m.pc].i), c.(pc := LineAddress(p.lines, m.pc + 1)))
    ensures Sim(p, m.(pc := m.pc + 1), c.(pc := LineAddress(p.lines, m.pc + 1)))
  {
    hide C.Execute, Decode, C.Read, Resolved, StackIn, DataIn;
    assert CodeAt(p.lines, p.base, c.mem, m.pc);
    NextPlace(p.lines, m.pc);
  }

  // Each lemma below takes machine and CPU past the fetch.

  lemma AluSim(p: Image, m: Machine, m': Machine, c: C.Cpu, i: Instr)
    requires Sim(p, m, c) && i.Alu? && Exec(p, i, m) == Some(m')
    ensures var r := C.Execute(Resolved(p.lines, i), c); r.Some? && Sim(p, m', r.value)
  {
    hide AluResult, AluFlags, CodeIn, DataIn, StackIn, LineAddress;
  }

  lemma MoveSim(p: Image, m: Machine, m': Machine, c: C.Cpu, i: Instr)
    requires Wired(p) && Sim(p, m, c) && (i.Halt? || i.Inv? || i.Mov? || i.LoadI? || i.LoadA?)
    requires Exec(p, i, m) == Some(m')
    ensures var r := C.Execute(Resolved(p.lines, i), c); r.Some? && Sim(p, m', r.value)
  {
    hide Not, CodeIn, DataIn, StackIn, LineAddress;
    if i.LoadA? {
      WrapIdentity(p.addr[i.name]);
    }
  }

  lemma IoSim(p: Image, m: Machine, m': Machine, c: C.Cpu, i: Instr)
    requires Sim(p, m, c) && (i.In? || i.Out?) && Exec(p, i, m) == Some(m')
    ensures var r := C.Execute(Resolved(p.lines, i), c); r.Some? && Sim(p, m', r.value)
  {
    hide CodeIn, DataIn, StackIn, LineAddress;
    if i.Out? {
      assert Numbers(m.out + [m.regs[i.rd]]) == Numbers(m.out) + [C.Number(m.regs[i.rd])];
    }
  }

  lemma LoadStoreSim(p: Image, m: Machine, m': Machine, c: C.Cpu, i: Instr)
    requires Wired(p) && Sim(p, m, c) && (i.Load? || i.Store?) && Exec(p, i, m) == Some(m')
    ensures var r := C.Execute(Resolved(p.lines, i), c); r.Some? && Sim(p, m', r.value)
  {
    hide CodeIn, StackIn, LineAddress, Wrap, C.Read, C.Write;
    if i.Store? {
      var a, w := Wrap(m.regs[i.rd] + i.off), m.regs[i.rs];
      StoreData(p, m.mem, m.stack, c.mem, c.sp, a, w);
      WriteAboveCode(p.lines, p.base, c.mem, a, w);
    }
  }

  lemma JumpSim(p: Image, m: Machine, m': Machine, c: C.Cpu, i: Instr)
    requires Wired(p) && Sim(p, m, c) && (i.Jmp? || i.Jump?) && Exec(p, i, m) == Some(m')
    ensures var r := C.Execute(Resolved(p.lines, i), c); r.Some? && Sim(p, m', r.value)
  {
    hide CodeIn, DataIn, StackIn, LineAddress, Holds;
    WrapIdentity(LineAddress(p.lines, Find(p.lines, i.to)));
  }

  lemma CoreKept(p: Image, m: Machine, c: C.Cpu, st: seq<Slot>, sp: Word, mem: C.Memory)
    requires Core(p, m, c)
    ensures Core(p, m.(stack := st), c.(sp := sp, mem := mem))
  {
    hide LineAddress;
  }

  lemma PushSim(p: Image, m: Machine, c: C.Cpu, v: Slot, w: Word)
    requires Wired(p) && Sim(p, m, c) && |m.stack| < ROOM && w == SlotWord(p.lines, v)
    ensures var r := C.PushWord(c, w); r.Some? && r.value.pc == c.pc && Sim(p, m.(stack := m.stack + [v]), r.value)
  {
    hide Core, CodeIn, DataIn, StackIn, LineAddress, SlotWord, C.Write, SlotAddress, Wired, C.InBounds;
    var a := SlotAddress(|m.stack|);
    PushSlot(p, m.mem, m.stack, c.mem, c.sp, v);
    SlotFacts(p, |m.stack|);
    WriteAboveCode(p.lines, p.base, c.mem, a, w);
    CoreKept(p, m, c, m.stack + [v], a, C.Write(c.mem, a, w));
  }

  lemma SlotFacts(p: Image, i: nat)
    requires i < ROOM && Wired(p)
    ensures C.InBounds(SlotAddress(i)) && p.base <= SlotAddress(i) && SlotAddress(i) % 4 == 0
    ensures Wrap(SlotAddress(i)) == SlotAddress(i)
  {
    hide LineAddress;
    WrapIdentity(SlotAddress(i));
  }

  lemma PopsAndReturns(f: Fields, c: C.Cpu)
    requires C.InBounds(c.sp)
    ensures f.op == I.POP ==> C.Execute(f, c) == Some(C.SetReg(c, f.rd, C.Read(c.mem, c.sp)).(sp := Wrap(c.sp + 4)))
    ensures f.op == I.RET ==> C.Execute(f, c) == Some(c.(pc := C.Read(c.mem, c.sp), sp := Wrap(c.sp + 4)))
  {
    hide C.Read, Wrap;
  }

  lemma PopSim(p: Image, m: Machine, m': Machine, c: C.Cpu, i: Instr)
    requires Sim(p, m, c) && i.Pop? && Exec(p, i, m) == Some(m')
    ensures var r := C.Execute(Resolved(p.lines, i), c); r.Some? && Sim(p, m', r.value)
  {
    hide CodeIn, DataIn, StackIn, LineAddress, C.Read, C.Execute, Wrap;
    PopSlot(p.lines, m.stack, c.mem, c.sp);
    PopsAndReturns(Resolved(p.lines, i), c);
  }

  lemma PushInstrSim(p: Image, m: Machine, m': Machine, c: C.Cpu, i: Instr)
    requires Wired(p) && Sim(p, m, c) && i.Push? && Exec(p, i, m) == Some(m') && |m'.stack| <= ROOM
    ensures var r := C.Execute(Resolved(p.lines, i), c); r.Some? && Sim(p, m', r.value)
  {
    hide CodeIn, DataIn, StackIn, LineAddress, C.PushWord, Wired;
    PushSim(p, m, c, Value(m.regs[i.rd]), m.regs[i.rd]);
  }

  lemma CallSim(p: Image, m: Machine, m': Machine, c: C.Cpu, i: Instr)
    requires Wired(p) && Sim(p, m, c) && i.Call? && Exec(p, i, m) == Some(m') && |m'.stack| <= ROOM
    ensures var r := C.Execute(Resolved(p.lines, i), c); r.Some? && Sim(p, m', r.value)
  {
    PlaceSmall(p, m.pc);
    PlaceSmall(p, Find(p.lines, i.to));
    hide Wired, CodeIn, DataIn, StackIn, LineAddress, C.PushWord, Find, Wrap;
    PushSim(p, m, c, Back(m.pc), c.pc);
  }

  /** What a return does to the line machine, and the word it resolves to. */
  lemma Returns(p: Image, m: Machine, m': Machine, i: Instr)
    requires i.Ret? && Exec(p, i, m) == Some(m')
    ensures m.stack != [] && m.stack[|m.stack| - 1].Back?
    ensures m' == m.(pc := m.stack[|m.stack| - 1].pc, stack := m.stack[..|m.stack| - 1])
    ensures Resolved(p.lines, i).op == I.RET
  {
    hide Find, LineAddress;
  }

  lemma RetSim(p: Image, m: Machine, m': Machine, c: C.Cpu, i: Instr)
    requires Wired(p) && Sim(p, m, c) && i.Ret? && Exec(p, i, m) == Some(m')
    ensures var r := C.Execute(Resolved(p.lines, i), c); r.Some? && Sim(p, m', r.value)
  {
    hide Exec, Resolved, Wired, Find, CodeIn, DataIn, StackIn, LineAddress, C.Read, Wrap, C.Execute;
    Returns(p, m, m', i);
    PlaceSmall(p, m.stack[|m.stack| - 1].pc);
    PopSlot(p.lines, m.stack, c.mem, c.sp);
    PopsAndReturns(Resolved(p.lines, i), c);
  }

  lemma ExecSim(p: Image, m: Machine, m': Machine, c: C.Cpu, i: Instr)
    requires Wired(p) && Sim(p, m, c) && Exec(p, i, m) == Some(m') && |m'.stack| <= ROOM
    ensures var r := C.Execute(Resolved(p.lines, i), c); r.Some? && Sim(p, m', r.value)
  {
    hide Exec, C.Execute, Resolved, Sim, Wired;
    if i.Alu? {
      AluSim(p, m, m', c, i);
    } else if i.Load? || i.Store? {
      LoadStoreSim(p, m, m', c, i);
    } else if i.Jmp? || i.Jump? {
      JumpSim(p, m, m', c, i);
    } else if i.Push? {
      PushInstrSim(p, m, m', c, i);
    } else if i.Pop? {
      PopSim(p, m, m', c, i);
    } else if i.Call? {
      CallSim(p, m, m', c, i);
    } else if i.Ret? {
      RetSim(p, m, m', c, i);
    } else if i.In? || i.Out? {
      IoSim(p, m, m', c, i);
    } else {
      MoveSim(p, m, m', c, i);
    }
  }

  /** Passing a label takes no step of the CPU, any other line one. */
  function Cost(p: Image, m: Machine): (n: nat)
    ensures n <= 1
  {
    if m.pc < |p.lines| && p.lines[m.pc].Lab? then 0 else 1
  }

  lemma StepSim(p: Image, m: Machine, m': Machine, c: C.Cpu)
    requires Wired(p) && Sim(p, m, c) && Step(p, m) == Some(m') && |m'.stack| <= ROOM
    ensures var r := C.Steps(c, Cost(p, m)); r.Some? && Sim(p, m', r.value)
  {
    if p.lines[m.pc].Lab? {
      NextPlace(p.lines, m.pc);
      hide CodeIn, DataIn, StackIn, LineAddress;
      assert C.Steps(c, 0) == Some(c);
    } else {
      Fetched(p, m, c);
      hide Exec, CodeIn, DataIn, StackIn, LineAddress, C.Step;
      ExecSim(p, m.(pc := m.pc + 1), m', c.(pc := LineAddress(p.lines, m.pc + 1)), p.lines[m.pc].i);
      assert C.Steps(c, 1) == C.Step(c);
    }
  }

  /** Running from c, the hardware stack pointer never comes down into the data. */
  ghost predicate StackHigh(c: C.Cpu) {
    forall j: nat :: C.Steps(c, j).Some? ==> DATA_END <= C.Steps(c, j).value.sp
  }

  lemma {:induction false} CpuStepsAdd(c: C.Cpu, i: nat, j: nat)
    requires C.Steps(c, i).Some?
    ensures C.Steps(c, i + j) == C.Steps(C.Steps(c, i).value, j)
    decreases i
  {
    hide C.Step;
    if i > 0 {
      CpuStepsAdd(C.Step(c).value, i - 1, j);
    }
  }

  lemma HighLater(c: C.Cpu, i: nat)
    requires StackHigh(c) && C.Steps(c, i).Some?
    ensures StackHigh(C.Steps(c, i).value)
  {
    hide C.Steps;
    var d := C.Steps(c, i).value;
    forall j: nat | C.Steps(d, j).Some? ensures DATA_END <= C.Steps(d, j).value.sp {
      CpuStepsAdd(c, i, j);
    }
  }

  lemma OnlyPushes(p: Image, m: Machine, m': Machine)
    requires Step(p, m) == Some(m') && |m'.stack| > |m.stack|
    ensures p.lines[m.pc].Op? && (p.lines[m.pc].i.Push? || p.lines[m.pc].i.Call?) && |m'.stack| == |m.stack| + 1
  {
    hide AluResult, AluFlags, Wrap, Find;
  }

  lemma FullPush(f: Fields, c: C.Cpu)
    requires c.sp == DATA_END && f.op in {I.PUSH, I.CALL}
    ensures C.Execute(f, c).Some? && C.Execute(f, c).value.sp < DATA_END
  {
    hide C.Write;
    WrapIdentity(DATA_END - 4);
  }

  lemma FullSp(p: Image, m: Machine, c: C.Cpu)
    requires Sim(p, m, c) && |m.stack| >= ROOM
    ensures c.sp == DATA_END && |m.stack| == ROOM && c.halted == m.halted
  {
    hide CodeIn, DataIn, LineAddress;
  }

  lemma StepOnce(c: C.Cpu)
    requires !c.halted && C.Step(c).Some?
    ensures C.Steps(c, 1) == C.Step(c)
  {
    hide C.Step;
    assert C.Steps(C.Step(c).value, 0) == C.Step(c);
  }

  /** One push too many shows in the stack pointer. */
  lemma FullStack(p: Image, m: Machine, m': Machine, c: C.Cpu)
    requires Wired(p) && Sim(p, m, c) && Step(p, m) == Some(m') && |m'.stack| > ROOM
    ensures C.Steps(c, 1).Some? && C.Steps(c, 1).value.sp < DATA_END
  {
    OnlyPushes(p, m, m');
    FullSp(p, m, c);
    Fetched(p, m, c);
    assert !c.halted;
    hide Sim, Wired, Step, Exec, C.Step, C.Execute;
    FullPush(Resolved(p.lines, p.lines[m.pc].i), c.(pc := LineAddress(p.lines, m.pc + 1)));
    hide LineAddress;
    StepOnce(c);
  }

  lemma RoomLeft(p: Image, m: Machine, m': Machine, c: C.Cpu)
    requires Wired(p) && Sim(p, m, c) && Step(p, m) == Some(m') && StackHigh(c)
    ensures |m'.stack| <= ROOM
  {
    hide Sim, Wired, C.Steps, Step;
    if |m'.stack| > ROOM {
      FullStack(p, m, m', c);
    }
  }

  /** A run of the line machine is a run of the CPU, label lines aside, as long as the stack keeps to its room. */
  lemma {:induction false} RunSim(p: Image, m: Machine, k: nat, c: C.Cpu) returns (j: nat)
    requires Wired(p) && Sim(p, m, c) && Steps(p, m, k).Some? && StackHigh(c)
    ensures j <= k && C.Steps(c, j).Some? && Sim(p, Steps(p, m, k).value, C.Steps(c, j).value)
    decreases k
  {
    hide Step, Sim, StackHigh, Wired, C.Step;
    if k == 0 {
      j := 0;
    } else {
      var m' := Step(p, m).value;
      RoomLeft(p, m, m', c);
      StepSim(p, m, m', c);
      var i := Cost(p, m);
      HighLater(c, i);
      var j' := RunSim(p, m', k - 1, C.Steps(c, i).value);
      CpuStepsAdd(c, i, j');
      j := i + j';
    }
  }

  lemma SpHigh(p: Image, m: Machine, c: C.Cpu)
    requires Sim(p, m, c)
    ensures DATA_END <= c.sp && c.halted == m.halted
  {
    hide CodeIn, DataIn, LineAddress;
  }

  lemma HighFirst(c: C.Cpu)
    requires DATA_END <= c.sp && C.Steps(c, 1).Some? && StackHigh(C.Steps(c, 1).value)
    ensures StackHigh(c)
  {
    hide C.Step;
    forall j: nat | C.Steps(c, j).Some? ensures DATA_END <= C.Steps(c, j).value.sp {
      if j > 0 {
        CpuStepsAdd(c, 1, j - 1);
      }
    }
  }

  lemma HighAtHalt(c: C.Cpu)
    requires DATA_END <= c.sp && c.halted
    ensures StackHigh(c)
  {
  }

  /** If the lines halt and keep to the room, the CPU's stack pointer stays above the data. */
  lemma {:induction false} RunHigh(p: Image, m: Machine, k: nat, c: C.Cpu)
    requires Wired(p) && Sim(p, m, c) && Steps(p, m, k).Some? && Steps(p, m, k).value.halted && Low(p, m, k, ROOM)
    ensures StackHigh(c)
    decreases k
  {
    hide *;
    SpHigh(p, m, c);
    if k == 0 {
      NoSteps(p, m, c);
      HighAtHalt(c);
    } else {
      LowFirst(p, m, k);
      StepSim(p, m, Step(p, m).value, c);
      RunHigh(p, Step(p, m).value, k - 1, C.Steps(c, Cost(p, m)).value);
      HighBefore(c, Cost(p, m));
    }
  }

  lemma HighBefore(c: C.Cpu, i: nat)
    requires i <= 1 && DATA_END <= c.sp && C.Steps(c, i).Some? && StackHigh(C.Steps(c, i).value)
    ensures StackHigh(c)
  {
    hide C.Step, StackHigh;
    if i == 1 {
      HighFirst(c);
    }
  }

  lemma NoSteps(p: Image, m: Machine, c: C.Cpu)
    ensures Steps(p, m, 0) == Some(m) && C.Steps(c, 0) == Some(c)
  {
  }

  lemma LowFirst(p: Image, m: Machine, k: nat)
    requires 1 <= k && Steps(p, m, k).Some? && Low(p, m, k, ROOM)
    ensures Step(p, m).Some? && |Step(p, m).value.stack| <= ROOM && Low(p, Step(p, m).value, k - 1, ROOM)
    ensures Steps(p, Step(p, m).value, k - 1) == Steps(p, m, k)
  {
    hide Step;
    assert Low(p, Step(p, m).value, k - 1, ROOM);
  }
}
