/** The target CPU on assembly lines: labels are positions, and the hardware PUSH/CALL stack is a sequence of its own. */
module Machine {
  import opened Words
  import opened Wrappers
  import I = InstStream

  type Reg = I.Reg

  const FP: Reg := 6
  const SP: Reg := 7
  const MMIO_BASE := 0xE000

  /** A compiled program's code, data and R7 stack lie below this address. */
  const DATA_END := 0x8000

  /** Labels the code generator numbers, and those made of the user's names. */
  datatype Label = Local(id: nat) | Named(text: string)

  datatype AluOp = ADD | SUB | MUL | DIV | AND | OR | XOR | SHL | SHR

  datatype Cond = Zero | NotZero | Greater | Less

  datatype Instr =
    | Halt
    | Alu(op: AluOp, rd: Reg, rs: Reg)
    | Inv(rd: Reg)
    | Mov(rd: Reg, rs: Reg)
    | Load(rd: Reg, rs: Reg, off: int)
    | Store(rd: Reg, off: int, rs: Reg)
    | LoadI(rd: Reg, imm: int)
    | LoadA(rd: Reg, name: string)
    | Push(rd: Reg)
    | Pop(rd: Reg)
    | Jmp(to: Label)
    | Jump(cond: Cond, to: Label)
    | Call(to: Label)
    | Ret
    | In(rd: Reg)
    | Out(rd: Reg)

  datatype Line = Lab(l: Label) | Op(i: Instr) | Data(w: int)

  type Regs = r: seq<Word> | |r| == I.NUM_REGS witness seq(I.NUM_REGS, _ => 0)

  datatype Flags = Flags(z: bool, c: bool, o: bool, n: bool)

  /** What PUSH or CALL left on the hardware stack. */
  datatype Slot = Value(w: Word) | Back(pc: nat)

  datatype Machine = Machine(pc: nat, regs: Regs, flags: Flags, mem: map<int, Word>, stack: seq<Slot>,
                             input: seq<Word>, out: seq<Word>, halted: bool)

  /** Lines with the addresses of the data labels; data memory starts at `base`. The machine's stack has no limit of its own:
      `room` is the number of words that Reaches watches it keep to. */
  datatype Image = Image(lines: seq<Line>, addr: map<string, Word>, base: int, room: nat)

  /** The first line that carries label l, or the number of lines. */
  function Find(lines: seq<Line>, l: Label): (k: nat)
    ensures k <= |lines| && (k < |lines| ==> lines[k] == Lab(l))
    ensures forall j :: 0 <= j < k ==> lines[j] != Lab(l)
  {
    if lines == [] || lines[0] == Lab(l) then 0 else Find(lines[1..], l) + 1
  }

  /** Word accesses the model covers: aligned, in data memory. */
  predicate DataAddress(p: Image, a: int) { p.base <= a < DATA_END && a % 4 == 0 }

  function Peek(mem: map<int, Word>, a: int): Word { if a in mem then mem[a] else 0 }

  predicate IsShift(op: AluOp) { op == SHL || op == SHR }

  function AluResult(op: AluOp, a: Word, b: Word): Word
    requires (op == DIV ==> b != 0) && (IsShift(op) ==> b < 32)
  {
    match op
    case ADD => Wrap(a + b)
    case SUB => Wrap(a - b)
    case MUL => Mul(a, b)
    case DIV => Div(a, b)
    case AND => And(a, b)
    case OR => Or(a, b)
    case XOR => Xor(a, b)
    case SHL => Shl(a, b)
    case SHR => Shr(a, b)
  }

  /** ADD and SUB set all four flags, the others leave carry and overflow alone. */
  function AluFlags(op: AluOp, a: Word, b: Word, r: Word, f: Flags): Flags {
    match op
    case ADD => Flags(r == 0, TWO32 <= a + b, Negative(a) == Negative(b) && Negative(a) != Negative(r), Negative(r))
    case SUB => Flags(r == 0, a < b, Negative(a) != Negative(b) && Negative(a) != Negative(r), Negative(r))
    case _ => f.(z := r == 0, n := Negative(r))
  }

  predicate Holds(c: Cond, f: Flags) {
    match c
    case Zero => f.z
    case NotZero => !f.z
    case Greater => !f.z && f.n == f.o
    case Less => f.n != f.o
  }

  function ExecAlu(op: AluOp, d: Reg, s: Reg, m: Machine): Option<Machine> {
    var a, b := m.regs[d], m.regs[s];
    if op == DIV && b == 0 then Some(m.(halted := true))
    else if IsShift(op) && 32 <= b then None
    else
      var r := AluResult(op, a, b);
      Some(m.(regs := m.regs[d := r], flags := AluFlags(op, a, b, r, m.flags)))
  }

  function JumpTo(p: Image, m: Machine, l: Label): Option<Machine> {
    var k := Find(p.lines, l);
    if k < |p.lines| then Some(m.(pc := k)) else None
  }

  /** The effect of one instruction once pc has moved past it; None is outside the model. */
  function Exec(p: Image, i: Instr, m: Machine): Option<Machine> {
    match i
    case Halt => Some(m.(halted := true))
    case Alu(op, d, s) => ExecAlu(op, d, s, m)
    case Inv(d) =>
      var r := Not(m.regs[d]);
      Some(m.(regs := m.regs[d := r], flags := m.flags.(z := r == 0, n := Negative(r))))
    case Mov(d, s) => Some(m.(regs := m.regs[d := m.regs[s]]))
    case Load(d, s, off) =>
      var a := Wrap(m.regs[s] + off);
      if DataAddress(p, a) then Some(m.(regs := m.regs[d := Peek(m.mem, a)])) else None
    case Store(d, off, s) =>
      var a := Wrap(m.regs[d] + off);
      if DataAddress(p, a) then Some(m.(mem := m.mem[a := m.regs[s]])) else None
    case LoadI(d, v) => Some(m.(regs := m.regs[d := Wrap(v)]))
    case LoadA(d, x) => if x in p.addr then Some(m.(regs := m.regs[d := p.addr[x]])) else None
    case Push(d) => Some(m.(stack := m.stack + [Value(m.regs[d])]))
    case Pop(d) =>
      if m.stack != [] && m.stack[|m.stack| - 1].Value? then
        Some(m.(regs := m.regs[d := m.stack[|m.stack| - 1].w], stack := m.stack[..|m.stack| - 1]))
      else None
    case Jmp(l) => JumpTo(p, m, l)
    case Jump(c, l) => if Holds(c, m.flags) then JumpTo(p, m, l) else Some(m)
    case Call(l) => JumpTo(p, m.(stack := m.stack + [Back(m.pc)]), l)
    case Ret =>
      if m.stack != [] && m.stack[|m.stack| - 1].Back? then
        Some(m.(pc := m.stack[|m.stack| - 1].pc, stack := m.stack[..|m.stack| - 1]))
      else None
    case In(d) =>
      if m.input == [] then Some(m.(regs := m.regs[d := 0]))
      else Some(m.(regs := m.regs[d := m.input[0]], input := m.input[1..]))
    case Out(d) => Some(m.(out := m.out + [m.regs[d]]))
  }

  function Step(p: Image, m: Machine): Option<Machine> {
    if m.halted || |p.lines| <= m.pc then None
    else match p.lines[m.pc]
      case Lab(_) => Some(m.(pc := m.pc + 1))
      case Op(i) => Exec(p, i, m.(pc := m.pc + 1))
      case Data(_) => None
  }

  function Steps(p: Image, m: Machine, k: nat): Option<Machine>
    decreases k
  {
    if k == 0 then Some(m) else var m1 :- Step(p, m); Steps(p, m1, k - 1)
  }

  /** The first k steps keep at most h words on the hardware stack. */
  ghost predicate Low(p: Image, m: Machine, k: nat, h: nat)
    decreases k
  {
    |m.stack| <= h && (k > 0 && Step(p, m).Some? ==> Low(p, Step(p, m).value, k - 1, h))
  }

  lemma {:induction false} LowAdd(p: Image, a: Machine, k: nat, j: nat, h: nat)
    requires Steps(p, a, k).Some? && Low(p, a, k, h) && Low(p, Steps(p, a, k).value, j, h)
    ensures Low(p, a, k + j, h)
    decreases k
  {
    hide Step;
    if k > 0 {
      LowAdd(p, Step(p, a).value, k - 1, j, h);
    }
  }

  lemma {:induction false} LowLater(p: Image, a: Machine, k: nat, j: nat, h: nat)
    requires Steps(p, a, k).Some? && Low(p, a, k + j, h)
    ensures Low(p, Steps(p, a, k).value, j, h)
    decreases k
  {
    hide Step;
    if k > 0 {
      LowLater(p, Step(p, a).value, k - 1, j, h);
    }
  }

  lemma {:induction false} LowWider(p: Image, a: Machine, k: nat, h: nat, h': nat)
    requires Low(p, a, k, h) && h <= h'
    ensures Low(p, a, k, h')
    decreases k
  {
    hide Step;
    if k > 0 && Step(p, a).Some? {
      LowWider(p, Step(p, a).value, k - 1, h, h');
    }
  }

  /** As much as is in use, or the whole room. */
  function Higher(a: nat, b: nat): nat { if a < b then b else a }

  /** The machine gets from a to b, and the stack keeps to the room unless it was higher before. */
  ghost predicate Reaches(p: Image, a: Machine, b: Machine) {
    exists k: nat :: Steps(p, a, k) == Some(b) && Low(p, a, k, Higher(|a.stack|, p.room))
  }

  lemma Stays(p: Image, a: Machine)
    ensures Reaches(p, a, a)
  {
    assert Steps(p, a, 0) == Some(a);
  }

  lemma OneStep(p: Image, a: Machine, b: Machine)
    requires Step(p, a) == Some(b) && (|b.stack| <= |a.stack| || |b.stack| <= p.room)
    ensures Reaches(p, a, b)
  {
    hide Step;
    assert Steps(p, b, 0) == Some(b);
    assert Steps(p, a, 1) == Some(b);
    assert Low(p, b, 0, Higher(|a.stack|, p.room));
  }

  lemma {:induction false} StepsAdd(p: Image, a: Machine, k: nat, j: nat)
    requires Steps(p, a, k).Some?
    ensures Steps(p, a, k + j) == Steps(p, Steps(p, a, k).value, j)
    decreases k
  {
    hide Step;
    if k > 0 {
      StepsAdd(p, Step(p, a).value, k - 1, j);
    }
  }

  lemma {:induction false} LowAtEnd(p: Image, a: Machine, k: nat, h: nat)
    requires Steps(p, a, k).Some? && Low(p, a, k, h)
    ensures |Steps(p, a, k).value.stack| <= h
    decreases k
  {
    hide Step;
    if k > 0 {
      LowAtEnd(p, Step(p, a).value, k - 1, h);
    }
  }

  lemma Then(p: Image, a: Machine, b: Machine, c: Machine)
    requires Reaches(p, a, b) && Reaches(p, b, c)
    ensures Reaches(p, a, c)
  {
    var h := Higher(|a.stack|, p.room);
    var k: nat :| Steps(p, a, k) == Some(b) && Low(p, a, k, h);
    var j: nat :| Steps(p, b, j) == Some(c) && Low(p, b, j, Higher(|b.stack|, p.room));
    hide Low, Steps;
    StepsAdd(p, a, k, j);
    LowAtEnd(p, a, k, h);
    LowWider(p, b, j, Higher(|b.stack|, p.room), h);
    LowAdd(p, a, k, j, h);
    assert Steps(p, a, k + j) == Some(c);
  }

  /** The machine is deterministic: what halts, halts in one state. */
  lemma HaltsOnce(p: Image, a: Machine, k: nat, b: Machine, j: nat, c: Machine)
    requires Steps(p, a, k) == Some(b) && Steps(p, a, j) == Some(c) && b.halted && c.halted
    ensures b == c
  {
    hide Step;
    if k <= j {
      StepsAdd(p, a, k, j - k);
      HaltedStays(p, b, j - k);
    } else {
      StepsAdd(p, a, j, k - j);
      HaltedStays(p, c, k - j);
    }
  }

  lemma HaltedStays(p: Image, b: Machine, k: nat)
    requires b.halted
    ensures Steps(p, b, k) == if k == 0 then Some(b) else None
  {
  }
}
