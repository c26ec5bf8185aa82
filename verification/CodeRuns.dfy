/** Runs of the code generator's instruction patterns, one pattern at a time. */
module CodeRuns {
  import opened Words
  import opened Wrappers
  import opened Machine
  import opened CAst
  import CG = CodeGen
  import CS = CSemantics

  // ----- Code in place -----

  predicate Placed(lines: seq<Line>, pos: nat, code: seq<Line>) {
    pos + |code| <= |lines| && forall i :: 0 <= i < |code| ==> lines[pos + i] == code[i]
  }

  ghost predicate UniqueLabels(lines: seq<Line>) {
    forall i, j :: 0 <= i < j < |lines| && lines[i].Lab? ==> lines[i] != lines[j]
  }

  lemma Split(lines: seq<Line>, pos: nat, a: seq<Line>, b: seq<Line>)
    requires Placed(lines, pos, a + b)
    ensures Placed(lines, pos, a) && Placed(lines, pos + |a|, b)
  {
    forall i | 0 <= i < |a| ensures lines[pos + i] == a[i] {
      assert (a + b)[i] == a[i];
    }
    forall i | 0 <= i < |b| ensures lines[pos + |a| + i] == b[i] {
      assert (a + b)[|a| + i] == b[i];
    }
  }

  /** A jump to a label goes to the one line that carries it. */
  lemma LabelAt(lines: seq<Line>, k: nat, l: Label)
    requires UniqueLabels(lines) && k < |lines| && lines[k] == Lab(l)
    ensures Find(lines, l) == k
  {
  }

  // ----- Single steps -----

  predicate Fetches(p: Image, m: Machine, i: Instr) {
    !m.halted && m.pc < |p.lines| && p.lines[m.pc] == Op(i)
  }

  lemma RunOp(p: Image, m: Machine, i: Instr, m': Machine)
    requires Fetches(p, m, i) && Exec(p, i, m.(pc := m.pc + 1)) == Some(m')
    requires |m'.stack| <= |m.stack| || |m'.stack| <= p.room
    ensures Reaches(p, m, m')
  {
    hide Exec;
    OneStep(p, m, m');
  }

  lemma RunLabel(p: Image, m: Machine)
    requires !m.halted && m.pc < |p.lines| && p.lines[m.pc].Lab?
    ensures Reaches(p, m, m.(pc := m.pc + 1))
  {
    hide Exec;
    OneStep(p, m, m.(pc := m.pc + 1));
  }

  /** The result of the three patterns that change registers only. */
  function Set(m: Machine, r: Reg, w: Word, f: Flags): Machine {
    m.(pc := m.pc + 1, regs := m.regs[r := w], flags := f)
  }

  lemma RunLoadI(p: Image, m: Machine, r: Reg, v: int)
    requires Fetches(p, m, LoadI(r, v))
    ensures Reaches(p, m, Set(m, r, Wrap(v), m.flags))
  {
    RunOp(p, m, LoadI(r, v), Set(m, r, Wrap(v), m.flags));
  }

  lemma RunMov(p: Image, m: Machine, d: Reg, s: Reg)
    requires Fetches(p, m, Mov(d, s))
    ensures Reaches(p, m, Set(m, d, m.regs[s], m.flags))
  {
    RunOp(p, m, Mov(d, s), Set(m, d, m.regs[s], m.flags));
  }

  predicate Defined(op: AluOp, b: Word) { (op == DIV ==> b != 0) && (IsShift(op) ==> b < 32) }

  function AfterAlu(m: Machine, op: AluOp, d: Reg, s: Reg): Machine
    requires Defined(op, m.regs[s])
  {
    var r := AluResult(op, m.regs[d], m.regs[s]);
    Set(m, d, r, AluFlags(op, m.regs[d], m.regs[s], r, m.flags))
  }

  lemma RunAlu(p: Image, m: Machine, op: AluOp, d: Reg, s: Reg)
    requires Fetches(p, m, Alu(op, d, s)) && Defined(op, m.regs[s])
    ensures Reaches(p, m, AfterAlu(m, op, d, s))
  {
    hide AluResult, AluFlags;
    RunOp(p, m, Alu(op, d, s), AfterAlu(m, op, d, s));
  }

  function AfterPush(m: Machine, r: Reg): Machine {
    m.(pc := m.pc + 1, stack := m.stack + [Value(m.regs[r])])
  }

  lemma RunPush(p: Image, m: Machine, r: Reg)
    requires Fetches(p, m, Push(r)) && |m.stack| < p.room
    ensures Reaches(p, m, AfterPush(m, r))
  {
    RunOp(p, m, Push(r), AfterPush(m, r));
  }

  lemma RunPop(p: Image, m: Machine, r: Reg, below: seq<Slot>, w: Word)
    requires Fetches(p, m, Pop(r)) && m.stack == below + [Value(w)]
    ensures Reaches(p, m, Set(m, r, w, m.flags).(stack := below))
  {
    assert m.stack[..|m.stack| - 1] == below;
    RunOp(p, m, Pop(r), Set(m, r, w, m.flags).(stack := below));
  }

  lemma RunLoad(p: Image, m: Machine, d: Reg, s: Reg, off: int)
    requires Fetches(p, m, Load(d, s, off)) && DataAddress(p, Wrap(m.regs[s] + off))
    ensures Reaches(p, m, Set(m, d, Peek(m.mem, Wrap(m.regs[s] + off)), m.flags))
  {
    hide Wrap, DataAddress;
    RunOp(p, m, Load(d, s, off), Set(m, d, Peek(m.mem, Wrap(m.regs[s] + off)), m.flags));
  }

  function AfterStore(m: Machine, a: Word, w: Word): Machine { m.(pc := m.pc + 1, mem := m.mem[a := w]) }

  lemma RunStore(p: Image, m: Machine, d: Reg, off: int, s: Reg)
    requires Fetches(p, m, Store(d, off, s)) && DataAddress(p, Wrap(m.regs[d] + off))
    ensures Reaches(p, m, AfterStore(m, Wrap(m.regs[d] + off), m.regs[s]))
  {
    hide Wrap, DataAddress;
    RunOp(p, m, Store(d, off, s), AfterStore(m, Wrap(m.regs[d] + off), m.regs[s]));
  }

  lemma RunLoadA(p: Image, m: Machine, d: Reg, x: string)
    requires Fetches(p, m, LoadA(d, x)) && x in p.addr
    ensures Reaches(p, m, Set(m, d, p.addr[x], m.flags))
  {
    RunOp(p, m, LoadA(d, x), Set(m, d, p.addr[x], m.flags));
  }

  /** Jumps arrive at the line of their label. */
  lemma RunJmp(p: Image, m: Machine, l: Label, k: nat)
    requires UniqueLabels(p.lines) && Fetches(p, m, Jmp(l)) && k < |p.lines| && p.lines[k] == Lab(l)
    ensures Reaches(p, m, m.(pc := k))
  {
    LabelAt(p.lines, k, l);
    hide UniqueLabels;
    RunOp(p, m, Jmp(l), m.(pc := k));
  }

  lemma RunJump(p: Image, m: Machine, c: Cond, l: Label, k: nat)
    requires UniqueLabels(p.lines) && Fetches(p, m, Jump(c, l)) && k < |p.lines| && p.lines[k] == Lab(l)
    ensures Reaches(p, m, m.(pc := if Holds(c, m.flags) then k else m.pc + 1))
  {
    LabelAt(p.lines, k, l);
    hide UniqueLabels, Holds;
    RunOp(p, m, Jump(c, l), m.(pc := if Holds(c, m.flags) then k else m.pc + 1));
  }

  // ----- What patterns leave alone -----

  /** Only pc, scratch registers and flags differ. */
  predicate Quiet(a: Machine, b: Machine) {
    && b.mem == a.mem && b.input == a.input && b.out == a.out && b.halted == a.halted
    && b.regs[FP] == a.regs[FP] && b.regs[SP] == a.regs[SP] && b.stack == a.stack
  }

  /** A run from a to b that ends at `pos` with w in R0 and the hardware stack cut back to `below`. */
  ghost predicate Leaves(p: Image, a: Machine, b: Machine, below: seq<Slot>, pos: nat, w: Word) {
    Reaches(p, a, b) && Quiet(a.(stack := below), b) && b.pc == pos && b.regs[0] == w
  }

  // ----- Operators -----

  /** Two operands: the left one on the stack, the right one in R0. */
  predicate Operands(m: Machine, below: seq<Slot>, a: Word, b: Word) {
    !m.halted && m.stack == below + [Value(a)] && m.regs[0] == b
  }

  lemma AluValues(a: Word, b: Word)
    ensures AluResult(ADD, a, b) == Wrap(a + b) && AluResult(SUB, a, b) == Wrap(a - b) && AluResult(MUL, a, b) == Mul(a, b)
  {
  }

  lemma AluMeans(op: BinOp, a: Word, b: Word, v: Word)
    requires CG.IsArithmetic(op) && op != Percent && CS.BinaryValue(op, a, b) == Some(v)
    ensures Defined(CG.AluOf(op), b) && AluResult(CG.AluOf(op), a, b) == v
  {
  }

  lemma RunAluPattern(p: Image, m: Machine, below: seq<Slot>, op: AluOp, a: Word, b: Word) returns (m': Machine)
    requires Placed(p.lines, m.pc, [Op(Pop(1)), Op(Alu(op, 1, 0)), Op(Mov(0, 1))]) && Operands(m, below, a, b)
    requires Defined(op, b)
    ensures Leaves(p, m, m', below, m.pc + 3, AluResult(op, a, b))
  {
    hide AluResult, AluFlags, Exec, Reaches;
    var code := [Op(Pop(1)), Op(Alu(op, 1, 0)), Op(Mov(0, 1))];
    assert p.lines[m.pc] == code[0] && p.lines[m.pc + 1] == code[1] && p.lines[m.pc + 2] == code[2];
    var m1 := Set(m, 1, a, m.flags).(stack := below);
    RunPop(p, m, 1, below, a);
    var m2 := AfterAlu(m1, op, 1, 0);
    RunAlu(p, m1, op, 1, 0);
    m' := Set(m2, 0, m2.regs[1], m2.flags);
    RunMov(p, m2, 0, 1);
    Then(p, m, m1, m2);
    Then(p, m, m2, m');
  }

  lemma RunDivide(p: Image, m: Machine, below: seq<Slot>, a: Word, b: Word) returns (m4: Machine)
    requires Placed(p.lines, m.pc, CG.DIVIDE) && Operands(m, below, a, b) && b != 0
    ensures Reaches(p, m, m4) && Quiet(m.(stack := below), m4) && m4.pc == m.pc + 4
    ensures m4.regs[1] == a && m4.regs[2] == Div(a, b) && m4.regs[3] == b
  {
    var code := CG.DIVIDE;
    assert p.lines[m.pc] == code[0] && p.lines[m.pc + 1] == code[1] && p.lines[m.pc + 2] == code[2]
        && p.lines[m.pc + 3] == code[3];
    var m1 := Set(m, 1, a, m.flags).(stack := below);
    var m2 := Set(m1, 2, a, m.flags);
    var m3 := Set(m2, 3, b, m.flags);
    m4 := AfterAlu(m3, DIV, 2, 3);
    hide AluResult, AluFlags, Exec, Reaches, Div;
    RunPop(p, m, 1, below, a);
    RunMov(p, m1, 2, 1);
    RunMov(p, m2, 3, 0);
    RunAlu(p, m3, DIV, 2, 3);
    Then(p, m, m1, m2);
    Then(p, m, m2, m3);
    Then(p, m, m3, m4);
  }

  lemma RunMultiplyBack(p: Image, m: Machine) returns (m': Machine)
    requires Placed(p.lines, m.pc, CG.MULTIPLY_BACK) && !m.halted
    ensures Leaves(p, m, m', m.stack, m.pc + 3, Wrap(m.regs[1] - Mul(m.regs[2], m.regs[3])))
  {
    hide AluResult, AluFlags, Exec, Reaches, Mul, Wrap;
    var code := CG.MULTIPLY_BACK;
    AluValues(m.regs[2], m.regs[3]);
    AluValues(m.regs[1], Mul(m.regs[2], m.regs[3]));
    assert p.lines[m.pc] == code[0] && p.lines[m.pc + 1] == code[1] && p.lines[m.pc + 2] == code[2];
    var m1 := AfterAlu(m, MUL, 2, 3);
    var m2 := AfterAlu(m1, SUB, 1, 2);
    m' := Set(m2, 0, m2.regs[1], m2.flags);
    RunAlu(p, m, MUL, 2, 3);
    RunAlu(p, m1, SUB, 1, 2);
    RunMov(p, m2, 0, 1);
    Then(p, m, m1, m2);
    Then(p, m, m2, m');
  }

  /** The remainder is what division and multiplication leave over. */
  lemma RunRemainder(p: Image, m: Machine, below: seq<Slot>, a: Word, b: Word) returns (m': Machine)
    requires Placed(p.lines, m.pc, CG.Arithmetic(Percent)) && Operands(m, below, a, b) && b != 0
    ensures Leaves(p, m, m', below, m.pc + 7, a % b)
  {
    Split(p.lines, m.pc, CG.DIVIDE, CG.MULTIPLY_BACK);
    hide Reaches, Placed, Div, Mul, Wrap;
    RemainderByParts(a, b);
    var m4 := RunDivide(p, m, below, a, b);
    m' := RunMultiplyBack(p, m4);
    Then(p, m, m4, m');
  }

  /** Arithmetic leaves the value the language gives the operator. */
  lemma RunArithmetic(p: Image, m: Machine, below: seq<Slot>, op: BinOp, a: Word, b: Word, v: Word) returns (m': Machine)
    requires CG.IsArithmetic(op) && CS.BinaryValue(op, a, b) == Some(v)
    requires Placed(p.lines, m.pc, CG.Arithmetic(op)) && Operands(m, below, a, b)
    ensures Leaves(p, m, m', below, m.pc + |CG.Arithmetic(op)|, v)
  {
    if op == Percent {
      m' := RunRemainder(p, m, below, a, b);
    } else {
      AluMeans(op, a, b, v);
      m' := RunAluPattern(p, m, below, CG.AluOf(op), a, b);
    }
  }

  // ----- Comparisons -----

  /** After SUB the flags tell the signed order of the operands, overflow included. */
  lemma FlagsTellOrder(a: Word, b: Word, f: Flags)
    ensures var g := AluFlags(SUB, a, b, Wrap(a - b), f);
            && (Holds(Zero, g) <==> a == b) && (Holds(NotZero, g) <==> a != b)
            && (Holds(Less, g) <==> Signed(a) < Signed(b)) && (Holds(Greater, g) <==> Signed(a) > Signed(b))
  {
  }

  predicate AnyHolds(op: BinOp, f: Flags)
    requires CG.IsComparison(op)
  {
    match op
    case Eq => Holds(Zero, f)
    case Ne => Holds(NotZero, f)
    case Lt => Holds(Less, f)
    case Gt => Holds(Greater, f)
    case Le => Holds(Less, f) || Holds(Zero, f)
    case Ge => Holds(Greater, f) || Holds(Zero, f)
  }

  lemma ComparisonByFlags(op: BinOp, a: Word, b: Word, f: Flags)
    requires CG.IsComparison(op)
    ensures CS.BinaryValue(op, a, b) == Some(CS.Truth(AnyHolds(op, AluFlags(SUB, a, b, Wrap(a - b), f))))
  {
    FlagsTellOrder(a, b, f);
    hide AluFlags, Wrap, Holds;
  }

  /** The jumps of a comparison are taken exactly when the relation holds. */
  lemma RunCompareJumps(p: Image, m: Machine, op: BinOp, l: Label, k: nat)
    requires CG.IsComparison(op) && UniqueLabels(p.lines) && !m.halted
    requires Placed(p.lines, m.pc, CG.CompareJumps(op, l)) && k < |p.lines| && p.lines[k] == Lab(l)
    ensures Reaches(p, m, m.(pc := if AnyHolds(op, m.flags) then k else m.pc + |CG.CompareJumps(op, l)|))
  {
    hide Reaches, UniqueLabels, Holds;
    var code := CG.CompareJumps(op, l);
    assert p.lines[m.pc] == code[0];
    RunJump(p, m, code[0].i.cond, l, k);
    if |code| == 2 && !Holds(code[0].i.cond, m.flags) {
      var m1 := m.(pc := m.pc + 1);
      assert p.lines[m1.pc] == code[1];
      RunJump(p, m1, code[1].i.cond, l, k);
      Then(p, m, m1, m1.(pc := if Holds(code[1].i.cond, m.flags) then k else m1.pc + 1));
    }
  }

  // ----- Choosing 0 or 1 -----

  /** `first` when entered from above. */
  lemma RunChooseFirst(p: Image, m: Machine, first: int, l: nat, second: int, end: nat) returns (m': Machine)
    requires UniqueLabels(p.lines) && Placed(p.lines, m.pc, CG.Choose(first, l, second, end)) && !m.halted
    ensures Leaves(p, m, m', m.stack, m.pc + 5, Wrap(first))
  {
    var code := CG.Choose(first, l, second, end);
    assert p.lines[m.pc] == code[0] && p.lines[m.pc + 1] == code[1] && p.lines[m.pc + 4] == code[4];
    hide Exec, Reaches, Wrap, UniqueLabels;
    var m1 := Set(m, 0, Wrap(first), m.flags);
    var m2 := m1.(pc := m.pc + 4);
    m' := m2.(pc := m.pc + 5);
    RunLoadI(p, m, 0, first);
    RunJmp(p, m1, Local(end), m.pc + 4);
    RunLabel(p, m2);
    Then(p, m, m1, m2);
    Then(p, m, m2, m');
  }

  /** `second` when entered at the label. */
  lemma RunChooseSecond(p: Image, m: Machine, pos: nat, first: int, l: nat, second: int, end: nat) returns (m': Machine)
    requires Placed(p.lines, pos, CG.Choose(first, l, second, end)) && !m.halted && m.pc == pos + 2
    ensures Leaves(p, m, m', m.stack, pos + 5, Wrap(second))
  {
    var code := CG.Choose(first, l, second, end);
    assert p.lines[pos + 2] == code[2] && p.lines[pos + 3] == code[3] && p.lines[pos + 4] == code[4];
    hide Exec, Reaches, Wrap;
    var m1 := m.(pc := m.pc + 1);
    var m2 := Set(m1, 0, Wrap(second), m.flags);
    m' := m2.(pc := pos + 5);
    RunLabel(p, m);
    RunLoadI(p, m1, 0, second);
    RunLabel(p, m2);
    Then(p, m, m1, m2);
    Then(p, m, m2, m');
  }

  /** A test of R0 jumps on zero, or on not zero. */
  lemma RunTest(p: Image, m: Machine, c: Cond, l: Label, k: nat) returns (m': Machine)
    requires UniqueLabels(p.lines) && !m.halted && (c == Zero || c == NotZero)
    requires Placed(p.lines, m.pc, [Op(Alu(AND, 0, 0)), Op(Jump(c, l))]) && k < |p.lines| && p.lines[k] == Lab(l)
    ensures Reaches(p, m, m') && Quiet(m, m') && m'.regs[0] == m.regs[0]
    ensures m'.pc == if (m.regs[0] == 0) == (c == Zero) then k else m.pc + 2
  {
    var code := [Op(Alu(AND, 0, 0)), Op(Jump(c, l))];
    assert p.lines[m.pc] == code[0] && p.lines[m.pc + 1] == code[1];
    AndSelf(m.regs[0]);
    var m1 := AfterAlu(m, AND, 0, 0);
    assert m1.regs[0] == m.regs[0] && m1.flags.z == (m.regs[0] == 0);
    hide AluResult, AluFlags, Exec, Reaches, And, UniqueLabels;
    RunAlu(p, m, AND, 0, 0);
    RunJump(p, m1, c, l, k);
    m' := m1.(pc := if Holds(c, m1.flags) then k else m1.pc + 1);
    Then(p, m, m1, m');
  }

  lemma RunSubtract(p: Image, m: Machine, below: seq<Slot>, a: Word, b: Word) returns (m': Machine)
    requires Placed(p.lines, m.pc, CG.SUBTRACT) && Operands(m, below, a, b)
    ensures Leaves(p, m, m', below, m.pc + 3, 0) && m'.flags == AluFlags(SUB, a, b, Wrap(a - b), m.flags)
  {
    var code := CG.SUBTRACT;
    assert p.lines[m.pc] == code[0] && p.lines[m.pc + 1] == code[1] && p.lines[m.pc + 2] == code[2];
    var m1 := Set(m, 1, a, m.flags).(stack := below);
    var m2 := AfterAlu(m1, SUB, 1, 0);
    WrapIdentity(0);
    m' := Set(m2, 0, 0, m2.flags);
    hide AluFlags, Exec, Reaches, Wrap;
    RunPop(p, m, 1, below, a);
    RunAlu(p, m1, SUB, 1, 0);
    RunLoadI(p, m2, 0, 0);
    Then(p, m, m1, m2);
    Then(p, m, m2, m');
  }

  /** From the jump to the end with R0 still 0, or from the label with 1. */
  lemma RunVerdict(p: Image, m: Machine, pos: nat, n: nat) returns (m': Machine)
    requires UniqueLabels(p.lines) && Placed(p.lines, pos, CG.Verdict(n)) && !m.halted
    requires (m.pc == pos && m.regs[0] == 0) || m.pc == pos + 1
    ensures Leaves(p, m, m', m.stack, pos + 4, CS.Truth(m.pc != pos))
  {
    var code := CG.Verdict(n);
    assert p.lines[pos] == code[0] && p.lines[pos + 1] == code[1] && p.lines[pos + 2] == code[2] && p.lines[pos + 3] == code[3];
    WrapIdentity(1);
    hide Exec, Reaches, Wrap, UniqueLabels;
    if m.pc == pos {
      var m1 := m.(pc := pos + 3);
      m' := m.(pc := pos + 4);
      RunJmp(p, m, Local(n + 1), pos + 3);
      RunLabel(p, m1);
      Then(p, m, m1, m');
    } else {
      var m1 := m.(pc := pos + 2);
      var m2 := Set(m1, 0, 1, m.flags);
      m' := m2.(pc := pos + 4);
      RunLabel(p, m);
      RunLoadI(p, m1, 0, 1);
      RunLabel(p, m2);
      Then(p, m, m1, m2);
      Then(p, m, m2, m');
    }
  }

  /** A comparison leaves 1 if the signed relation holds and 0 otherwise. */
  lemma RunCompare(p: Image, m: Machine, below: seq<Slot>, op: BinOp, n: nat, a: Word, b: Word) returns (m': Machine)
    requires CG.IsComparison(op) && UniqueLabels(p.lines)
    requires Placed(p.lines, m.pc, CG.Compare(op, n)) && Operands(m, below, a, b)
    ensures CS.BinaryValue(op, a, b).Some?
    ensures Leaves(p, m, m', below, m.pc + |CG.Compare(op, n)|, CS.BinaryValue(op, a, b).value)
  {
    var jumps := CG.CompareJumps(op, Local(n));
    Split(p.lines, m.pc, CG.SUBTRACT, jumps + CG.Verdict(n));
    Split(p.lines, m.pc + 3, jumps, CG.Verdict(n));
    var at := m.pc + 3 + |jumps|;
    assert p.lines[at + 1] == CG.Verdict(n)[1];
    hide AluFlags, Reaches, UniqueLabels, Placed, AnyHolds, CS.BinaryValue, Wrap;
    ComparisonByFlags(op, a, b, m.flags);
    var m1 := RunSubtract(p, m, below, a, b);
    var m2 := m1.(pc := if AnyHolds(op, m1.flags) then at + 1 else at);
    RunCompareJumps(p, m1, op, Local(n), at + 1);
    m' := RunVerdict(p, m2, at, n);
    Then(p, m, m1, m2);
    Then(p, m, m2, m');
  }

  // ----- Unary operators and addresses -----

  /** Clears R0 and jumps if it was not zero. */
  lemma RunClear(p: Image, m: Machine, n: nat) returns (m': Machine)
    requires UniqueLabels(p.lines) && Placed(p.lines, m.pc, CG.Negate(Bang, n)) && !m.halted
    ensures Leaves(p, m, m', m.stack, if m.regs[0] != 0 then m.pc + 4 else m.pc + 3, 0)
  {
    hide AluFlags, Exec, Reaches, And, UniqueLabels, Wrap;
    var code := CG.Negate(Bang, n);
    assert p.lines[m.pc] == code[0] && p.lines[m.pc + 1] == code[1] && p.lines[m.pc + 2] == code[2] && p.lines[m.pc + 4] == code[4];
    var m1 := AfterAlu(m, AND, 0, 0);
    assert m1.flags.z == (m.regs[0] == 0) by { AndSelf(m.regs[0]); AndFlags(m); }
    var m2 := Set(m1, 0, 0, m1.flags);
    m' := m2.(pc := if m.regs[0] != 0 then m.pc + 4 else m.pc + 3);
    RunAlu(p, m, AND, 0, 0);
    assert Wrap(0) == 0 by { WrapIdentity(0); }
    RunLoadI(p, m1, 0, 0);
    RunJump(p, m2, NotZero, Local(n), m.pc + 4);
    Then(p, m, m1, m2);
    Then(p, m, m2, m');
  }

  lemma AndFlags(m: Machine)
    ensures AfterAlu(m, AND, 0, 0).flags.z == (And(m.regs[0], m.regs[0]) == 0)
  {
    hide And;
  }

  lemma RunBang(p: Image, m: Machine, n: nat) returns (m': Machine)
    requires UniqueLabels(p.lines) && Placed(p.lines, m.pc, CG.Negate(Bang, n)) && !m.halted
    ensures Leaves(p, m, m', m.stack, m.pc + 5, CS.Truth(m.regs[0] == 0))
  {
    hide Exec, Reaches, UniqueLabels, Wrap;
    var m3 := RunClear(p, m, n);
    var code := CG.Negate(Bang, n);
    assert p.lines[m.pc + 3] == code[3] && p.lines[m.pc + 4] == code[4];
    if m.regs[0] != 0 {
      m' := m3.(pc := m.pc + 5);
      RunLabel(p, m3);
      Then(p, m, m3, m');
    } else {
      var m4 := Set(m3, 0, 1, m3.flags);
      m' := m4.(pc := m.pc + 5);
      assert Wrap(1) == 1 by { WrapIdentity(1); }
      RunLoadI(p, m3, 0, 1);
      RunLabel(p, m4);
      Then(p, m, m3, m4);
      Then(p, m, m4, m');
    }
  }

  lemma RunNeg(p: Image, m: Machine) returns (m': Machine)
    requires Placed(p.lines, m.pc, CG.Negate(Neg, 0)) && !m.halted
    ensures Leaves(p, m, m', m.stack, m.pc + 3, CS.UnaryValue(Neg, m.regs[0]))
  {
    hide AluResult, AluFlags, Exec, Reaches, Wrap;
    var code := CG.Negate(Neg, 0);
    assert p.lines[m.pc] == code[0] && p.lines[m.pc + 1] == code[1] && p.lines[m.pc + 2] == code[2];
    assert Wrap(0) == 0 by { WrapIdentity(0); }
    var m1 := Set(m, 1, 0, m.flags);
    RunLoadI(p, m, 1, 0);
    AluValues(0, m.regs[0]);
    var m2 := AfterAlu(m1, SUB, 1, 0);
    RunAlu(p, m1, SUB, 1, 0);
    m' := Set(m2, 0, m2.regs[1], m2.flags);
    RunMov(p, m2, 0, 1);
    Then(p, m, m1, m2);
    Then(p, m, m2, m');
  }

  lemma RunUnary(p: Image, m: Machine, op: UnOp, n: nat) returns (m': Machine)
    requires op != Star && op != Amp && UniqueLabels(p.lines) && Placed(p.lines, m.pc, CG.Negate(op, n)) && !m.halted
    ensures Leaves(p, m, m', m.stack, m.pc + |CG.Negate(op, n)|, CS.UnaryValue(op, m.regs[0]))
  {
    if op == Neg {
      assert CG.Negate(Neg, n) == CG.Negate(Neg, 0);
      m' := RunNeg(p, m);
    } else if op == Compl {
      assert p.lines[m.pc] == CG.Negate(op, n)[0];
      var r := Not(m.regs[0]);
      m' := Set(m, 0, r, m.flags.(z := r == 0, n := Negative(r)));
      RunOp(p, m, Inv(0), m');
    } else {
      m' := RunBang(p, m, n);
    }
  }

  /** base + 4 * index, the base popped from the stack. */
  lemma RunIndexed(p: Image, m: Machine, below: seq<Slot>, a: Word, b: Word) returns (m': Machine)
    requires Placed(p.lines, m.pc, CG.INDEXED) && Operands(m, below, a, b)
    ensures Leaves(p, m, m', below, m.pc + 4, Wrap(a + Wrap(4 * b)))
  {
    var code := CG.INDEXED;
    assert p.lines[m.pc] == code[0] && p.lines[m.pc + 1] == code[1] && p.lines[m.pc + 2] == code[2] && p.lines[m.pc + 3] == code[3];
    WrapIdentity(2);
    ScaledByFour(b);
    var m1 := Set(m, 1, 2, m.flags);
    var m2 := AfterAlu(m1, SHL, 0, 1);
    assert m2.regs[0] == Wrap(4 * b);
    var m3 := Set(m2, 1, a, m2.flags).(stack := below);
    m' := AfterAlu(m3, ADD, 0, 1);
    assert m'.regs[0] == Wrap(a + Wrap(4 * b));
    hide AluResult, AluFlags, Exec, Reaches, Wrap;
    RunLoadI(p, m, 1, 2);
    RunAlu(p, m1, SHL, 0, 1);
    RunPop(p, m2, 1, below, a);
    RunAlu(p, m3, ADD, 0, 1);
    Then(p, m, m1, m2);
    Then(p, m, m2, m3);
    Then(p, m, m3, m');
  }

  lemma RunFrameAddress(p: Image, m: Machine, off: int) returns (m': Machine)
    requires Placed(p.lines, m.pc, CG.FrameAddress(off)) && !m.halted
    ensures Leaves(p, m, m', m.stack, m.pc + |CG.FrameAddress(off)|, Wrap(m.regs[FP] + off))
  {
    hide AluResult, AluFlags, Exec, Reaches, Wrap;
    var code := CG.FrameAddress(off);
    assert p.lines[m.pc] == code[0];
    var m1 := Set(m, 0, m.regs[FP], m.flags);
    RunMov(p, m, 0, FP);
    if off == 0 {
      assert Wrap(m.regs[FP] + off) == m.regs[FP] by { WrapIdentity(m.regs[FP]); }
      m' := m1;
    } else {
      assert p.lines[m.pc + 1] == code[1] && p.lines[m.pc + 2] == code[2];
      assert AluResult(ADD, m.regs[FP], Wrap(off)) == Wrap(m.regs[FP] + off) by {
        WrapAdds(m.regs[FP], off);
        AluValues(m.regs[FP], Wrap(off));
      }
      var m2 := Set(m1, 1, Wrap(off), m.flags);
      m' := AfterAlu(m2, ADD, 0, 1);
      RunLoadI(p, m1, 1, off);
      RunAlu(p, m2, ADD, 0, 1);
      Then(p, m, m1, m2);
      Then(p, m, m2, m');
    }
  }
}
