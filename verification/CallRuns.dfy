/** The calling convention: arguments, prologue, epilogue. */
module CallRuns {
  import opened Words
  import opened Wrappers
  import opened Machine
  import opened CAst
  import opened CSemantics
  import opened CodeRuns
  import opened FrameRuns
  import CG = CodeGen

  /** Parameter i of a call is the word 4 * i above the last one pushed. */
  ghost predicate ArgsAt(mem: map<int, Word>, base: int, vals: seq<Word>) {
    forall i :: 0 <= i < |vals| ==> Peek(mem, base + 4 * i) == vals[i]
  }

  /** Moves the stack pointer by a constant. */
  lemma RunMoveSp(p: Image, m: Machine, op: AluOp, k: int) returns (m': Machine)
    requires Placed(p.lines, m.pc, [Op(LoadI(1, k)), Op(Alu(op, SP, 1))]) && !m.halted && (op == ADD || op == SUB)
    requires 0 <= k < TWO32 && 0 <= (if op == ADD then m.regs[SP] + k else m.regs[SP] - k) < TWO32
    ensures Reaches(p, m, m') && m' == m.(pc := m.pc + 2, regs := m'.regs, flags := m'.flags)
    ensures m'.regs[SP] == (if op == ADD then m.regs[SP] + k else m.regs[SP] - k)
    ensures m'.regs[FP] == m.regs[FP] && m'.regs[0] == m.regs[0]
  {
    hide AluFlags, Exec, Reaches, Wrap;
    var code := [Op(LoadI(1, k)), Op(Alu(op, SP, 1))];
    assert p.lines[m.pc] == code[0] && p.lines[m.pc + 1] == code[1];
    assert Wrap(k) == k by { WrapIdentity(k); }
    var to := if op == ADD then m.regs[SP] + k else m.regs[SP] - k;
    assert Wrap(to) == to by { WrapIdentity(to); }
    var m1 := Set(m, 1, k, m.flags);
    RunLoadI(p, m, 1, k);
    RunAlu(p, m1, op, SP, 1);
    m' := AfterAlu(m1, op, SP, 1);
    Then(p, m, m1, m');
  }

  function Lowered(fr: Frame): Frame { fr.(sp := fr.sp - 4) }

  /** One argument goes on the R7 stack, just below every cell in use. */
  lemma RunPushArg(p: Image, w: World, fr: Frame, s: State, m: Machine) returns (m': Machine)
    requires Good(p, w, fr) && Sits(fr, s, m) && Placed(p.lines, m.pc, CG.PUSH_ARG) && w.limit <= fr.sp - 4
    ensures Reaches(p, m, m') && m'.pc == m.pc + 3 && m'.stack == m.stack
    ensures Good(p, w, Lowered(fr)) && Sits(Lowered(fr), s, m')
    ensures Peek(m'.mem, fr.sp - 4) == m.regs[0] && Kept(fr.sp, fr.cells, m.mem, m'.mem)
  {
    hide Exec, Reaches, Wrap;
    var code := [Op(LoadI(1, 4)), Op(Alu(SUB, SP, 1))];
    assert CG.PUSH_ARG == code + [Op(Instr.Store(SP, 0, 0))];
    Split(p.lines, m.pc, code, [Op(Instr.Store(SP, 0, 0))]);
    assert p.lines[m.pc + 2] == CG.PUSH_ARG[2];
    var m1 := RunMoveSp(p, m, SUB, 4);
    assert Wrap(m1.regs[SP] + 0) == fr.sp - 4 by { WrapIdentity(fr.sp - 4); }
    RunStore(p, m1, SP, 0, 0);
    m' := AfterStore(m1, fr.sp - 4, m1.regs[0]);
    Then(p, m, m1, m');
  }

  // ----- The callee's frame -----

  lemma {:induction false} BytesAligned(st: Stmt, t: Table)
    requires t.bytes % 4 == 0
    ensures Collect(st, t).bytes % 4 == 0
    decreases st, 1
  {
    match st
    case Block(_) => BlockBytesAligned(st, 0, t);
    case If(_, a, b) =>
      BytesAligned(a, t);
      if b.Some? {
        BytesAligned(b.value, Collect(a, t));
      }
    case While(_, b) => BytesAligned(b, t);
    case For(a, _, _, b) =>
      if a.Some? {
        BytesAligned(a.value, t);
      }
      BytesAligned(b, if a.Some? then Collect(a.value, t) else t);
    case _ =>
  }

  lemma {:induction false} BlockBytesAligned(st: Stmt, k: nat, t: Table)
    requires st.Block? && k <= |st.ss| && t.bytes % 4 == 0
    ensures CollectBlock(st, k, t).bytes % 4 == 0
    decreases st, 0, |st.ss| - k
  {
    if k < |st.ss| {
      BytesAligned(st.ss[k], t);
      BlockBytesAligned(st, k + 1, Collect(st.ss[k], t));
    }
  }

  /** A callee's frame lies below everything the caller uses, with a gap for the saved frame pointer. */
  lemma CalleeIsGood(p: Image, w: World, fr: Frame, g: Func, n: nat)
    requires Good(p, w, fr) && w.limit <= Callee(fr, g, n).sp && fr.waiting < w.words
    ensures var c := Callee(fr, g, n);
            && Good(p, w, c) && fr.cells <= c.cells && c.fp !in c.cells && c.fp + 4 + 4 * n == fr.sp
            && (forall a :: a in c.cells && fr.sp <= a ==> a in fr.cells)
            && DataAddress(p, c.fp) && c.sp <= c.fp < fr.sp && TableOf(g).bytes == c.fp - c.sp
  {
    assert TableOf(g).bytes % 4 == 0 by { BytesAligned(g.body, Table(ParamSymbols(g.params), 0)); }
    hide TableOf;
  }

  lemma BoundCells(fp: int, vals: seq<Word>)
    requires fp % 4 == 0
    ensures Bound(fp, vals).Keys == ParamCells(fp, |vals|)
    ensures forall a :: a in ParamCells(fp, |vals|) ==>
              (var i := (a - fp - 4) / 4; 0 <= i < |vals| && Bound(fp, vals)[a] == vals[i] && a == fp + 4 + 4 * i)
  {
    forall a | a in ParamCells(fp, |vals|)
      ensures var i := (a - fp - 4) / 4; 0 <= i < |vals| && a in Bound(fp, vals) && Bound(fp, vals)[a] == vals[i] && a == fp + 4 + 4 * i
    {
    }
  }

  /** The pushed arguments are the callee's parameters. */
  lemma MatchCallee(fr: Frame, c: Frame, s: State, m: Machine, vals: seq<Word>)
    requires Match(fr, s, m) && ArgsAt(m.mem, c.fp + 4, vals) && c.fp % 4 == 0
    requires fr.cells <= c.cells && ParamCells(c.fp, |vals|) <= c.cells
    ensures Match(c, s.(mem := s.mem + Bound(c.fp, vals)), m)
  {
    BoundCells(c.fp, vals);
    hide Bound, ParamCells;
  }

  /** The new frame pointer is the stack pointer under which the caller's frame pointer is saved. */
  lemma RunSave(p: Image, m: Machine) returns (m': Machine)
    requires Placed(p.lines, m.pc, [Op(Instr.Store(SP, 0, FP)), Op(Mov(FP, SP))]) && !m.halted && DataAddress(p, m.regs[SP])
    ensures Reaches(p, m, m') && m'.pc == m.pc + 2 && m'.regs == m.regs[FP := m.regs[SP]]
    ensures m'.mem == m.mem[m.regs[SP] := m.regs[FP]] && m' == m.(pc := m'.pc, regs := m'.regs, mem := m'.mem)
  {
    hide Exec, Reaches, Wrap, DataAddress;
    var save := [Op(Instr.Store(SP, 0, FP)), Op(Mov(FP, SP))];
    assert p.lines[m.pc] == save[0] && p.lines[m.pc + 1] == save[1];
    var fp := m.regs[SP];
    assert Wrap(fp + 0) == fp by { WrapIdentity(fp); }
    var m1 := AfterStore(m, fp, m.regs[FP]);
    RunStore(p, m, SP, 0, FP);
    m' := Set(m1, FP, fp, m1.flags);
    RunMov(p, m1, FP, SP);
    Then(p, m, m1, m');
  }

  /** Saves the caller's frame pointer and makes room for locals. */
  lemma RunPrologue(p: Image, m: Machine, bytes: nat) returns (m': Machine)
    requires Placed(p.lines, m.pc, CG.Prologue(bytes)) && !m.halted
    requires 4 + bytes <= m.regs[SP] && DataAddress(p, m.regs[SP] - 4)
    ensures var fp := m.regs[SP] - 4;
            Reaches(p, m, m') && m'.pc == m.pc + |CG.Prologue(bytes)| && m'.regs[FP] == fp && m'.regs[SP] == fp - bytes
            && m'.mem == m.mem[fp := m.regs[FP]] && m'.stack == m.stack && m'.input == m.input && m'.out == m.out && !m'.halted
  {
    hide Exec, Reaches, Wrap, DataAddress;
    var first := [Op(LoadI(1, 4)), Op(Alu(SUB, SP, 1))];
    var save := [Op(Instr.Store(SP, 0, FP)), Op(Mov(FP, SP))];
    assert CG.Prologue(bytes) == first + (save + CG.Reserve(bytes));
    Split(p.lines, m.pc, first, save + CG.Reserve(bytes));
    Split(p.lines, m.pc + 2, save, CG.Reserve(bytes));
    var m1 := RunMoveSp(p, m, SUB, 4);
    var m2 := RunSave(p, m1);
    m' := RunReserve(p, m2, bytes);
    Then(p, m, m1, m2);
    Then(p, m, m2, m');
  }

  lemma RunReserve(p: Image, m: Machine, bytes: nat) returns (m': Machine)
    requires Placed(p.lines, m.pc, CG.Reserve(bytes)) && !m.halted && bytes <= m.regs[SP]
    ensures Reaches(p, m, m') && m'.pc == m.pc + |CG.Reserve(bytes)| && m'.regs[SP] == m.regs[SP] - bytes
    ensures m'.regs[FP] == m.regs[FP] && m' == m.(pc := m'.pc, regs := m'.regs, flags := m'.flags)
  {
    hide Reaches;
    if bytes == 0 {
      Stays(p, m);
      m' := m;
    } else {
      m' := RunMoveSp(p, m, SUB, bytes);
    }
  }

  /** From the epilogue's label back to the caller, R0 untouched. */
  lemma RunEpilogue(p: Image, m: Machine, l: Label, below: seq<Slot>, ret: nat) returns (m': Machine)
    requires Placed(p.lines, m.pc, [Lab(l)] + CG.EPILOGUE) && !m.halted && m.stack == below + [Back(ret)]
    requires DataAddress(p, m.regs[FP]) && m.regs[FP] + 4 < TWO32
    ensures Reaches(p, m, m') && m'.pc == ret && m'.stack == below && m'.mem == m.mem && !m'.halted
    ensures m'.input == m.input && m'.out == m.out && m'.regs[0] == m.regs[0]
    ensures m'.regs[FP] == Peek(m.mem, m.regs[FP]) && m'.regs[SP] == m.regs[FP] + 4
  {
    hide Exec, Reaches, Wrap, DataAddress, Peek;
    var first := [Lab(l), Op(Mov(SP, FP)), Op(Load(FP, SP, 0))];
    var up := [Op(LoadI(1, 4)), Op(Alu(ADD, SP, 1))];
    assert [Lab(l)] + CG.EPILOGUE == first + (up + [Op(Ret)]);
    Split(p.lines, m.pc, first, up + [Op(Ret)]);
    Split(p.lines, m.pc + 3, up, [Op(Ret)]);
    assert p.lines[m.pc] == first[0] && p.lines[m.pc + 1] == first[1] && p.lines[m.pc + 2] == first[2]
        && p.lines[m.pc + 5] == [Op(Ret)][0];
    var m1 := m.(pc := m.pc + 1);
    RunLabel(p, m);
    var fp := m.regs[FP];
    var m2 := Set(m1, SP, fp, m.flags);
    RunMov(p, m1, SP, FP);
    assert Wrap(m2.regs[SP] + 0) == fp by { WrapIdentity(fp); }
    var m3 := Set(m2, FP, Peek(m.mem, fp), m.flags);
    RunLoad(p, m2, FP, SP, 0);
    var m4 := RunMoveSp(p, m3, ADD, 4);
    m' := RunRet(p, m4, below, ret);
    Then(p, m, m1, m2);
    Then(p, m, m2, m3);
    Then(p, m, m3, m4);
    Then(p, m, m4, m');
  }

  lemma RunRet(p: Image, m: Machine, below: seq<Slot>, ret: nat) returns (m': Machine)
    requires Fetches(p, m, Ret) && m.stack == below + [Back(ret)]
    ensures Reaches(p, m, m') && m' == m.(pc := ret, stack := below)
  {
    assert m.stack[..|m.stack| - 1] == below;
    m' := m.(pc := ret, stack := below);
    RunOp(p, m, Ret, m');
  }

  lemma RunCallInstr(p: Image, m: Machine, l: Label, k: nat)
    requires UniqueLabels(p.lines) && Fetches(p, m, Instr.Call(l)) && k < |p.lines| && p.lines[k] == Lab(l) && |m.stack| < p.room
    ensures Reaches(p, m, m.(pc := k + 1, stack := m.stack + [Back(m.pc + 1)]))
  {
    LabelAt(p.lines, k, l);
    hide UniqueLabels, Reaches;
    var m1 := m.(pc := k, stack := m.stack + [Back(m.pc + 1)]);
    RunOp(p, m, Instr.Call(l), m1);
    RunLabel(p, m1);
    Then(p, m, m1, m1.(pc := k + 1));
  }

  /** The machine when the body of a call starts. */
  ghost predicate Entered(fr: Frame, c: Frame, s0: State, m: Machine, b: Machine) {
    && Sits(c, s0, b) && b.stack == m.stack + [Back(m.pc + 1)]
    && Peek(b.mem, c.fp) == fr.fp && Kept(fr.sp, fr.cells, m.mem, b.mem)
  }

  /** From CALL into the body. */
  lemma RunEnter(p: Image, w: World, fr: Frame, g: Func, s: State, vals: seq<Word>, m: Machine, k: nat) returns (b: Machine)
    requires UniqueLabels(p.lines) && Good(p, w, fr) && !m.halted && Match(fr, s, m)
    requires m.pc < |p.lines| && p.lines[m.pc] == Op(Instr.Call(Named(g.name)))
    requires m.regs[FP] == fr.fp && m.regs[SP] == fr.sp - 4 * |vals| && ArgsAt(m.mem, fr.sp - 4 * |vals|, vals)
    requires k < |p.lines| && p.lines[k] == Lab(Named(g.name)) && Placed(p.lines, k + 1, CG.Prologue(TableOf(g).bytes))
    requires w.limit <= Callee(fr, g, |vals|).sp && |m.stack| <= fr.waiting < w.words
    ensures var c := Callee(fr, g, |vals|);
            Reaches(p, m, b) && b.pc == k + 1 + |CG.Prologue(TableOf(g).bytes)| && Good(p, w, c)
            && Entered(fr, c, s.(mem := s.mem + Bound(c.fp, vals)), m, b)
  {
    hide Reaches, UniqueLabels, Placed, TableOf, CG.Prologue, ParamCells, Bound, WordsIn;
    var c := Callee(fr, g, |vals|);
    CalleeIsGood(p, w, fr, g, |vals|);
    MatchCallee(fr, c, s, m, vals);
    var m1 := m.(pc := k + 1, stack := m.stack + [Back(m.pc + 1)]);
    RunCallInstr(p, m, Named(g.name), k);
    b := RunPrologue(p, m1, TableOf(g).bytes);
    Then(p, m, m1, b);
  }

  /** From the epilogue to behind the call, the caller's frame restored. */
  lemma RunLeave(p: Image, w: World, fr: Frame, c: Frame, l: Label, s0: State, s': State, m: Machine, b: Machine, e: Machine)
      returns (m': Machine)
    requires Good(p, w, c) && DataAddress(p, c.fp) && fr.cells <= c.cells && c.fp !in c.cells && c.sp <= c.fp < fr.sp
    requires forall a :: a in c.cells && fr.sp <= a ==> a in fr.cells
    requires Entered(fr, c, s0, m, b) && After(c, b, e, s') && Placed(p.lines, e.pc, [Lab(l)] + CG.EPILOGUE)
    ensures Reaches(p, e, m') && m'.pc == m.pc + 1 && !m'.halted && m'.regs[0] == e.regs[0] && m'.stack == m.stack
    ensures m'.regs[FP] == fr.fp && m'.regs[SP] == c.fp + 4 && Match(fr, Leave(fr, s'), m')
    ensures Kept(fr.sp, fr.cells, m.mem, m'.mem)
  {
    hide Reaches, Placed;
    m' := RunEpilogue(p, e, l, m.stack, m.pc + 1);
  }

  lemma RunDropArgs(p: Image, fr: Frame, s: State, m: Machine, n: nat) returns (m': Machine)
    requires Placed(p.lines, m.pc, CG.DropArgs(n)) && !m.halted && m.regs[FP] == fr.fp && Match(fr, s, m)
    requires m.regs[SP] == fr.sp - 4 * n && fr.sp <= CG.STACK_BASE && |m.stack| <= fr.waiting
    ensures Reaches(p, m, m') && Sits(fr, s, m') && m'.pc == m.pc + |CG.DropArgs(n)|
    ensures m'.stack == m.stack && m'.mem == m.mem && m'.regs[0] == m.regs[0]
  {
    hide Reaches;
    if n == 0 {
      Stays(p, m);
      m' := m;
    } else {
      m' := RunMoveSp(p, m, ADD, 4 * n);
    }
  }
}
