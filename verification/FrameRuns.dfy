/** How machine states represent source states, and what single patterns do to that. */
module FrameRuns {
  import opened Words
  import opened Wrappers
  import opened Machine
  import opened CAst
  import opened CSemantics
  import opened CodeRuns
  import CG = CodeGen

  /** Frames grow down from STACK_BASE to the limit; every allocated cell is a global or lies above the stack top. What waits
      has room. */
  ghost predicate Good(p: Image, w: World, fr: Frame) {
    && 0 <= p.base <= w.limit <= fr.sp <= CG.STACK_BASE && fr.sp % 4 == 0 && 0 <= fr.fp < TWO32
    && fr.waiting <= w.words <= p.room
    && forall a :: a in fr.cells ==> DataAddress(p, a) && (a < w.limit || fr.sp <= a)
  }

  /** Initialised cells agree with memory, and so do input and output. */
  ghost predicate Match(fr: Frame, s: State, m: Machine) {
    && s.mem.Keys <= fr.cells && (forall a :: a in s.mem ==> Peek(m.mem, a) == s.mem[a])
    && m.input == s.input && m.out == s.out
  }

  ghost predicate Sits(fr: Frame, s: State, m: Machine) {
    !m.halted && m.regs[FP] == fr.fp && m.regs[SP] == fr.sp && |m.stack| <= fr.waiting && Match(fr, s, m)
  }

  /** Everything at or above `sp` outside the cells is as before: saved frame pointers survive. */
  ghost predicate Kept(sp: int, cells: set<int>, a: map<int, Word>, b: map<int, Word>) {
    forall x :: sp <= x && x !in cells ==> Peek(b, x) == Peek(a, x)
  }

  ghost predicate After(fr: Frame, m: Machine, m': Machine, s': State) {
    Sits(fr, s', m') && m'.stack == m.stack && Kept(fr.sp, fr.cells, m.mem, m'.mem)
  }

  /** A run that ends at `pos` in the source state s' with the value in R0. */
  ghost predicate Computes(p: Image, fr: Frame, m: Machine, m': Machine, s': State, pos: nat, v: Val) {
    Reaches(p, m, m') && After(fr, m, m', s') && m'.pc == pos && (v.W? ==> m'.regs[0] == v.w)
  }

  lemma QuietSits(fr: Frame, s: State, m: Machine, m': Machine)
    requires Sits(fr, s, m) && Quiet(m, m')
    ensures After(fr, m, m', s)
  {
  }

  lemma AfterTrans(fr: Frame, a: Machine, b: Machine, c: Machine, s: State, s': State)
    requires After(fr, a, b, s) && After(fr, b, c, s')
    ensures After(fr, a, c, s')
  {
  }

  lemma ComputesTrans(p: Image, fr: Frame, a: Machine, b: Machine, c: Machine, s: State, s': State, pos: nat, v: Val)
    requires Reaches(p, a, b) && After(fr, a, b, s) && Computes(p, fr, b, c, s', pos, v)
    ensures Computes(p, fr, a, c, s', pos, v)
  {
    Then(p, a, b, c);
    AfterTrans(fr, a, b, c, s, s');
  }

  /** A value pattern at the end of an expression. */
  lemma EndsWith(p: Image, fr: Frame, a: Machine, b: Machine, c: Machine, s: State, below: seq<Slot>, pos: nat, w: Word)
    requires Reaches(p, a, b) && After(fr, a, b.(stack := a.stack), s) && below == a.stack && Leaves(p, b, c, below, pos, w)
    ensures Computes(p, fr, a, c, s, pos, W(w))
  {
    Then(p, a, b, c);
    QuietSits(fr, s, b.(stack := a.stack), c);
  }

  // ----- Memory -----

  lemma LoadCell(p: Image, w: World, fr: Frame, s: State, m: Machine, d: Reg, r: Reg, off: int)
    requires Good(p, w, fr) && Sits(fr, s, m) && Fetches(p, m, Load(d, r, off))
    requires d != FP && d != SP && ReadCell(s, Wrap(m.regs[r] + off)).Some?
    ensures var m' := Set(m, d, s.mem[Wrap(m.regs[r] + off)], m.flags); Reaches(p, m, m') && After(fr, m, m', s)
  {
    hide Wrap, Exec, Reaches;
    RunLoad(p, m, d, r, off);
    QuietSits(fr, s, m, Set(m, d, s.mem[Wrap(m.regs[r] + off)], m.flags));
  }

  lemma StoreCell(p: Image, w: World, fr: Frame, s: State, m: Machine, d: Reg, off: int)
    requires Good(p, w, fr) && Sits(fr, s, m) && Fetches(p, m, Store(d, off, 0))
    requires WriteCell(fr, s, Wrap(m.regs[d] + off), m.regs[0]).Some?
    ensures var a := Wrap(m.regs[d] + off); var m' := AfterStore(m, a, m.regs[0]);
            Reaches(p, m, m') && After(fr, m, m', WriteCell(fr, s, a, m.regs[0]).value)
  {
    hide Wrap, Exec, Reaches;
    RunStore(p, m, d, off, 0);
  }

  // ----- Variables -----

  lemma RunVarAddr(p: Image, w: World, fr: Frame, env: CG.Env, x: string, s: State, m: Machine) returns (m': Machine)
    requires Sits(fr, s, m) && env.sym == fr.sym && env.prog == w.prog && p.addr == w.addr
    requires VarAddr(w, fr, x).Some? && CG.GenAddr(env, Var(x), 0).Ok?
    requires Placed(p.lines, m.pc, CG.GenAddr(env, Var(x), 0).value.code)
    ensures Computes(p, fr, m, m', s, m.pc + |CG.GenAddr(env, Var(x), 0).value.code|, W(VarAddr(w, fr, x).value))
  {
    hide Wrap, Exec, Reaches;
    match PlaceOf(w, fr, x)
    case InFrame(off, _) =>
      m' := RunFrameAddress(p, m, off);
      QuietSits(fr, s, m, m');
    case Static(_) =>
      assert p.lines[m.pc] == [Op(LoadA(0, x))][0];
      m' := Set(m, 0, p.addr[x], m.flags);
      RunLoadA(p, m, 0, x);
      QuietSits(fr, s, m, m');
  }

  lemma VarAddrCode(env: CG.Env, x: string, n: nat)
    ensures CG.GenAddr(env, Var(x), n).Ok? == CG.GenAddr(env, Var(x), 0).Ok?
    ensures CG.GenAddr(env, Var(x), n).Ok? ==>
              CG.GenAddr(env, Var(x), n).value == CG.Frag(CG.GenAddr(env, Var(x), 0).value.code, n)
  {
  }

  /** Reads a scalar variable. */
  lemma RunVarValue(p: Image, w: World, fr: Frame, env: CG.Env, x: string, n: nat, s: State, m: Machine) returns (m': Machine)
    requires Good(p, w, fr) && Sits(fr, s, m) && env.sym == fr.sym && env.prog == w.prog && p.addr == w.addr
    requires VarAddr(w, fr, x).Some? && !IsArray(w, fr, x) && ReadCell(s, VarAddr(w, fr, x).value).Some?
    requires CG.GenExpr(env, Var(x), n).Ok? && Placed(p.lines, m.pc, CG.GenExpr(env, Var(x), n).value.code)
    ensures Computes(p, fr, m, m', s, m.pc + |CG.GenExpr(env, Var(x), n).value.code|, W(s.mem[VarAddr(w, fr, x).value]))
  {
    hide Wrap, Exec, Reaches;
    match PlaceOf(w, fr, x)
    case InFrame(off, _) =>
      assert p.lines[m.pc] == [Op(Load(0, FP, off))][0];
      LoadCell(p, w, fr, s, m, 0, FP, off);
      m' := Set(m, 0, s.mem[Wrap(m.regs[FP] + off)], m.flags);
    case Static(_) =>
      var code := [Op(LoadA(0, x)), Op(Load(0, 0, 0))];
      assert p.lines[m.pc] == code[0] && p.lines[m.pc + 1] == code[1];
      var m1 := Set(m, 0, p.addr[x], m.flags);
      RunLoadA(p, m, 0, x);
      QuietSits(fr, s, m, m1);
      assert Wrap(m1.regs[0] + 0) == p.addr[x] by { WrapIdentity(p.addr[x]); }
      LoadCell(p, w, fr, s, m1, 0, 0, 0);
      m' := Set(m1, 0, s.mem[Wrap(m1.regs[0] + 0)], m1.flags);
      ComputesTrans(p, fr, m, m1, m', s, s, m.pc + 2, W(s.mem[p.addr[x]]));
  }

  /** FETCH after an address. */
  lemma RunFetch(p: Image, w: World, fr: Frame, s: State, m: Machine) returns (m': Machine)
    requires Good(p, w, fr) && Sits(fr, s, m) && Placed(p.lines, m.pc, CG.FETCH) && ReadCell(s, m.regs[0]).Some?
    ensures Computes(p, fr, m, m', s, m.pc + 1, W(s.mem[m.regs[0]]))
  {
    hide Wrap, Exec, Reaches;
    assert p.lines[m.pc] == CG.FETCH[0];
    assert Wrap(m.regs[0] + 0) == m.regs[0] by { WrapIdentity(m.regs[0]); }
    LoadCell(p, w, fr, s, m, 0, 0, 0);
    m' := Set(m, 0, s.mem[Wrap(m.regs[0] + 0)], m.flags);
  }

  /** Stores R0 through the address on the hardware stack. */
  lemma RunStoreThrough(p: Image, w: World, fr: Frame, s: State, m: Machine, below: seq<Slot>, a: Word) returns (m': Machine)
    requires Good(p, w, fr) && Placed(p.lines, m.pc, [Op(Pop(1)), Op(Store(1, 0, 0))]) && Operands(m, below, a, m.regs[0])
    requires Sits(fr, s, m.(stack := below)) && WriteCell(fr, s, a, m.regs[0]).Some?
    ensures Reaches(p, m, m') && After(fr, m.(stack := below), m', WriteCell(fr, s, a, m.regs[0]).value)
    ensures m'.pc == m.pc + 2 && m'.regs[0] == m.regs[0]
  {
    hide Wrap, Exec, Reaches;
    var code := [Op(Pop(1)), Op(Store(1, 0, 0))];
    assert p.lines[m.pc] == code[0] && p.lines[m.pc + 1] == code[1];
    var m1 := Set(m, 1, a, m.flags).(stack := below);
    RunPop(p, m, 1, below, a);
    QuietSits(fr, s, m.(stack := below), m1);
    assert Wrap(m1.regs[1] + 0) == a by { WrapIdentity(a); }
    StoreCell(p, w, fr, s, m1, 1, 0);
    m' := AfterStore(m1, a, m1.regs[0]);
    Then(p, m, m1, m');
    AfterTrans(fr, m.(stack := below), m1, m', s, WriteCell(fr, s, a, m.regs[0]).value);
  }

  /** Stores R0 in a scalar variable. */
  lemma RunStoreVar(p: Image, w: World, fr: Frame, x: string, s: State, m: Machine, code: seq<Line>) returns (m': Machine)
    requires Good(p, w, fr) && Sits(fr, s, m) && p.addr == w.addr && Placed(p.lines, m.pc, code)
    requires VarAddr(w, fr, x).Some? && WriteCell(fr, s, VarAddr(w, fr, x).value, m.regs[0]).Some?
    requires code == if PlaceOf(w, fr, x).InFrame? then [Op(Store(FP, PlaceOf(w, fr, x).off, 0))]
                     else [Op(LoadA(1, x)), Op(Store(1, 0, 0))]
    ensures Computes(p, fr, m, m', WriteCell(fr, s, VarAddr(w, fr, x).value, m.regs[0]).value, m.pc + |code|, W(m.regs[0]))
  {
    hide Wrap, Exec, Reaches;
    assert p.lines[m.pc] == code[0];
    var s' := WriteCell(fr, s, VarAddr(w, fr, x).value, m.regs[0]).value;
    match PlaceOf(w, fr, x)
    case InFrame(off, _) =>
      StoreCell(p, w, fr, s, m, FP, off);
      m' := AfterStore(m, Wrap(m.regs[FP] + off), m.regs[0]);
    case Static(_) =>
      assert p.lines[m.pc + 1] == code[1];
      var m1 := Set(m, 1, p.addr[x], m.flags);
      RunLoadA(p, m, 1, x);
      QuietSits(fr, s, m, m1);
      assert Wrap(m1.regs[1] + 0) == p.addr[x] by { WrapIdentity(p.addr[x]); }
      StoreCell(p, w, fr, s, m1, 1, 0);
      m' := AfterStore(m1, p.addr[x], m1.regs[0]);
      ComputesTrans(p, fr, m, m1, m', s, s', m.pc + 2, W(m.regs[0]));
  }
}
