/** The theorem for whole programs: from reset to HALT. */
module ProgramCorrect {
  import opened Words
  import opened Wrappers
  import opened Machine
  import opened CAst
  import opened CSemantics
  import opened CodeRuns
  import opened FrameRuns
  import opened CallRuns
  import opened CompilerCorrect
  import opened CodeShape
  import opened Loader
  import opened Rewriting
  import opened Peephole
  import CG = CodeGen

  /** What the language says a program does: main from the initial globals, on an empty stack. */
  function RunProgram(w: World, input: seq<Word>, fuel: nat): Option<Res> {
    var main :- FuncFind(w.prog.funcs, "main");
    var s0 := State(InitialMem(w.prog.globals, w.addr), input, []);
    Activate(w, Frame([], 0, CG.STACK_BASE, s0.mem.Keys, 0), main, [], s0, fuel)
  }

  /** The CPU after reset with data in memory. */
  function Reset(mem: map<int, Word>, input: seq<Word>): Machine {
    Machine(0, seq(8, _ => 0), Flags(false, false, false, false), mem, [], input, [], false)
  }

  /** The code generator with its peephole pass. */
  function Compile(prog: Program): Result<seq<Line>, CG.Error> {
    var lines :- CG.Generate(prog);
    Ok(Optimize(lines))
  }

  // ----- Linking -----

  lemma {:induction false} FunctionsHaveCode(p: Image, prog: Program, k: nat, n: nat, pos: nat)
    requires UniqueLabels(p.lines) && k <= |prog.funcs| && CG.GenFunctions(prog, k, n).Ok?
    requires Placed(p.lines, pos, CG.GenFunctions(prog, k, n).value.code)
    ensures forall j :: k <= j < |prog.funcs| ==> HasCode(p, prog, prog.funcs[j])
    decreases |prog.funcs| - k
  {
    if k < |prog.funcs| {
      hide CG.GenFunction, HasCode, UniqueLabels, Placed;
      var a := CG.GenFunction(prog, prog.funcs[k], n).value;
      var rest := CG.GenFunctions(prog, k + 1, a.next).value;
      Split(p.lines, pos, a.code, rest.code);
      CodeAtLabel(p, prog, prog.funcs[k], n, pos);
      FunctionsHaveCode(p, prog, k + 1, a.next, pos + |a.code|);
    }
  }

  lemma CodeAtLabel(p: Image, prog: Program, g: Func, n: nat, pos: nat)
    requires UniqueLabels(p.lines) && CG.GenFunction(prog, g, n).Ok?
    requires Placed(p.lines, pos, CG.GenFunction(prog, g, n).value.code)
    ensures HasCode(p, prog, g)
  {
    var code := CG.GenFunction(prog, g, n).value.code;
    assert code[0] == Lab(Named(g.name));
    hide CG.GenFunction;
    LabelAt(p.lines, pos, Named(g.name));
    assert FunctionAt(p, prog, g, n);
  }

  lemma GeneratedIsLinked(prog: Program, p: Image, w: World)
    requires CG.Generate(prog) == Ok(p.lines) && NoDuplicates(Names(prog)) && w.prog == prog && w.addr == p.addr
    ensures Linked(p, w)
  {
    hide CG.GenFunctions, CG.GenGlobals, HasCode, UniqueLabels, NoDuplicates;
    GeneratedLabelsUnique(prog);
    var funcs := CG.GenFunctions(prog, 0, 0).value;
    var data := CG.GenGlobals(prog.globals).value;
    SplitProgram(p.lines, funcs.code, data);
    FunctionsHaveCode(p, prog, 0, 0, 3);
  }

  lemma SplitProgram(lines: seq<Line>, funcs: seq<Line>, data: seq<Line>)
    requires lines == CG.ENTRY + (funcs + data)
    ensures Placed(lines, 0, CG.ENTRY) && Placed(lines, 3, funcs)
  {
    assert Placed(lines, 0, CG.ENTRY + (funcs + data));
    Split(lines, 0, CG.ENTRY, funcs + data);
    Split(lines, 3, funcs, data);
  }

  // ----- Data -----

  /** Every initial cell is in memory, word-aligned, from lo up to but not including hi. */
  ghost predicate Housed(init: map<int, Word>, mem: map<int, Word>, lo: int, hi: int) {
    forall a :: a in init ==> Peek(mem, a) == init[a] && lo <= a < hi && a % 4 == 0
  }

  lemma HousedWider(init: map<int, Word>, mem: map<int, Word>, lo: int, hi: int, hi': int)
    requires Housed(init, mem, lo, hi) && hi <= hi'
    ensures Housed(init, mem, lo, hi')
  {
    hide Peek;
  }

  lemma {:induction false} WordSized(lines: seq<Line>)
    ensures ByteCount(lines) % 4 == 0
  {
    if lines != [] {
      WordSized(lines[1..]);
    }
  }

  lemma DataInImage(gs: seq<Global>, pre: seq<Line>, data: seq<Line>)
    requires CG.GenGlobals(gs) == Ok(data) && NoDuplicates(GlobNames(gs)) && ByteCount(pre + data) < TWO32
    ensures var mem := InitialMem(gs, Addresses(pre + data, 0));
            Housed(mem, Loaded(pre + data, 0), ByteCount(pre), ByteCount(pre + data)) && ByteCount(pre) <= ByteCount(pre + data)
  {
    hide NoDuplicates, Loaded, Addresses, ByteCount, CG.GenGlobals, InitialMem, TotalBytes;
    var at := ByteCount(pre);
    Appended(pre, data, 0);
    WordSized(pre);
    DataSize(gs);
    AddressNames(gs, at);
    LoadedGlobals(gs, at, Addresses(pre + data, 0));
  }

  lemma {:induction false} DataSize(gs: seq<Global>)
    requires CG.GenGlobals(gs).Ok?
    ensures ByteCount(CG.GenGlobals(gs).value) == TotalBytes(gs)
  {
    if gs != [] {
      LoadedGlobal(gs[0], 0);
      hide CG.GenGlobal, Loaded, Addresses, Bytes;
      BytesAppended(CG.GenGlobal(gs[0]).value, CG.GenGlobals(gs[1..]).value);
      DataSize(gs[1..]);
    }
  }

  lemma {:induction false} GlobalsAreData(gs: seq<Global>)
    requires CG.GenGlobals(gs).Ok?
    ensures IsData(CG.GenGlobals(gs).value)
  {
    if gs != [] {
      GlobalsAreData(gs[1..]);
      if gs[0].size.Some? {
        ZerosPlain(gs[0].size.value);
      }
    }
  }

  // ----- The theorem -----

  /** The globals are in memory at the addresses of their labels, between `base` and the stack's limit. */
  ghost predicate Ready(gs: seq<Global>, addr: map<string, Word>, mem: map<int, Word>, base: int, limit: int) {
    0 <= base <= limit <= CG.STACK_BASE && Housed(InitialMem(gs, addr), mem, base, limit)
  }

  lemma ResetSits(p: Image, w: World, mem: map<int, Word>, input: seq<Word>)
    requires Ready(w.prog.globals, w.addr, mem, p.base, w.limit) && w.words <= p.room
    ensures var init := InitialMem(w.prog.globals, w.addr); var fr := Frame([], 0, CG.STACK_BASE, init.Keys, 0);
            var m := Reset(mem, input);
            Good(p, w, fr) && Match(fr, State(init, input, []), m.(regs := m.regs[SP := CG.STACK_BASE]))
  {
    hide InitialMem;
  }

  /** What a run that ended in the source shows on the machine. */
  ghost predicate Agrees(r: Res, m: Machine) {
    && m.halted && m.out == r.s.out && m.input == r.s.input && (r.v.W? ==> m.regs[0] == r.v.w)
    && forall a :: a in r.s.mem ==> Peek(m.mem, a) == r.s.mem[a]
  }

  /** Generated code, before the peephole pass, with data at whatever addresses. */
  lemma GeneratedProgramRuns(p: Image, w: World, mem: map<int, Word>, input: seq<Word>, fuel: nat) returns (m': Machine)
    requires CG.Generate(w.prog) == Ok(p.lines) && NoDuplicates(Names(w.prog)) && w.addr == p.addr
    requires Ready(w.prog.globals, w.addr, mem, p.base, w.limit) && RunProgram(w, input, fuel).Some? && w.words <= p.room
    ensures Reaches(p, Reset(mem, input), m') && Agrees(RunProgram(w, input, fuel).value, m')
  {
    var main := FuncFind(w.prog.funcs, "main").value;
    var s0 := State(InitialMem(w.prog.globals, w.addr), input, []);
    var fr := Frame([], 0, CG.STACK_BASE, s0.mem.Keys, 0);
    var m0 := Reset(mem, input);
    EntryCode(w.prog, p.lines);
    GeneratedIsLinked(w.prog, p, w);
    ResetSits(p, w, mem, input);
    var m1 := Set(m0, SP, CG.STACK_BASE, m0.flags);
    hide CG.Generate, NoDuplicates, InitialMem, Names, Linked, Good, Match, Kept, Reaches, Activate, Wrap, Exec, Ready;
    assert Wrap(CG.STACK_BASE) == CG.STACK_BASE by { WrapIdentity(CG.STACK_BASE); }
    RunLoadI(p, m0, SP, CG.STACK_BASE);
    m' := RunMain(p, w, fr, main, s0, fuel, m1);
    Then(p, m0, m1, m');
  }

  lemma EntryCode(prog: Program, lines: seq<Line>)
    requires CG.Generate(prog) == Ok(lines)
    ensures |lines| >= 3 && lines[0] == Op(LoadI(SP, CG.STACK_BASE)) && lines[1] == Op(Instr.Call(Named("main"))) && lines[2] == Op(Halt)
  {
    hide CG.GenFunctions, CG.GenGlobals;
    SplitProgram(lines, CG.GenFunctions(prog, 0, 0).value.code, CG.GenGlobals(prog.globals).value);
    assert lines[0] == CG.ENTRY[0] && lines[1] == CG.ENTRY[1] && lines[2] == CG.ENTRY[2];
  }

  lemma RunMain(p: Image, w: World, fr: Frame, main: Func, s: State, fuel: nat, m: Machine) returns (m': Machine)
    requires Linked(p, w) && Good(p, w, fr) && Match(fr, s, m) && !m.halted && FuncFind(w.prog.funcs, "main") == Some(main)
    requires m.pc + 1 < |p.lines| && p.lines[m.pc] == Op(Instr.Call(Named("main"))) && p.lines[m.pc + 1] == Op(Halt)
    requires m.regs[FP] == fr.fp && m.regs[SP] == fr.sp && |m.stack| <= fr.waiting && Activate(w, fr, main, [], s, fuel).Some?
    ensures Reaches(p, m, m') && Agrees(Activate(w, fr, main, [], s, fuel).value, m')
  {
    hide Linked, Good, Kept, Reaches, Activate, Peek;
    var m1 := SimActivate(p, w, fr, main, [], s, fuel, m);
    m' := m1.(pc := m1.pc + 1, halted := true);
    RunOp(p, m1, Halt, m');
    Then(p, m, m1, m');
  }

  lemma HaltsWhenReached(p: Image, a: Machine, b: Machine)
    requires Reaches(p, a, b) && b.halted && |a.stack| <= p.room
    ensures HaltsLow(p, a, Visible(b)) && HaltsAs(p, a, Visible(b))
  {
    hide Visible, Low;
    var k: nat :| Steps(p, a, k) == Some(b) && Low(p, a, k, p.room);
    assert HaltsIn(p, a, k, Visible(b));
  }

  /** A program halts in one way at most. */
  lemma HaltsAsOne(p: Image, a: Machine, v: Machine, u: Machine)
    requires HaltsAs(p, a, v) && HaltsAs(p, a, u)
    ensures v == u
  {
    hide Visible, Step;
    var k: nat :| HaltsIn(p, a, k, v);
    var j: nat :| HaltsIn(p, a, j, u);
    HaltsOnce(p, a, k, Steps(p, a, k).value, j, Steps(p, a, j).value);
  }

  /** Where the parts of a compiled program are: optimised code, then the data untouched. */
  lemma CompiledParts(prog: Program, lines: seq<Line>) returns (code: seq<Line>, data: seq<Line>)
    requires Compile(prog) == Ok(lines)
    ensures CG.GenGlobals(prog.globals) == Ok(data) && lines == code + data
    ensures code == Optimize(CG.ENTRY + CG.GenFunctions(prog, 0, 0).value.code)
  {
    hide CG.GenFunctions, CG.GenGlobals, Optimize;
    var funcs := CG.GenFunctions(prog, 0, 0).value;
    data := CG.GenGlobals(prog.globals).value;
    var pre := CG.ENTRY + funcs.code;
    assert CG.ENTRY + (funcs.code + data) == pre + data;
    GlobalsAreData(prog.globals);
    OptimizeOverData(pre, data);
    code := Optimize(pre);
  }

  /** The compiled image: assembled lines, data memory from the end of the code on. */
  function ImageOf(prog: Program, lines: seq<Line>, room: nat): Image
    requires Compile(prog).Ok?
  {
    Image(lines, Addresses(lines, 0), ByteCount(Optimize(CG.ENTRY + CG.GenFunctions(prog, 0, 0).value.code)), room)
  }

  lemma CompiledReady(prog: Program, lines: seq<Line>, limit: nat, room: nat)
    requires Compile(prog) == Ok(lines) && NoDuplicates(Names(prog)) && ByteCount(lines) <= limit <= CG.STACK_BASE
    ensures Ready(prog.globals, Addresses(lines, 0), Loaded(lines, 0), ImageOf(prog, lines, room).base, limit)
  {
    var code, data := CompiledParts(prog, lines);
    NamesSplit(FuncNames(prog.funcs), GlobNames(prog.globals));
    hide CG.GenFunctions, CG.GenGlobals, Compile, Optimize, ByteCount, Addresses, Loaded, InitialMem, NoDuplicates, FuncNames, GlobNames, Peek;
    DataInImage(prog.globals, code, data);
    var base := ImageOf(prog, lines, room).base;
    hide Housed;
    assert lines == code + data && base == ByteCount(code) && base <= limit;
    HousedWider(InitialMem(prog.globals, Addresses(lines, 0)), Loaded(lines, 0), base, ByteCount(lines), limit);
  }

  /** Whenever the source program's evaluation ends, its compiled image halts, in one way only: with the same output, the
      same input left, and the same values in every global. */
  lemma CompilerIsCorrect(prog: Program, lines: seq<Line>, input: seq<Word>, limit: nat, words: nat, fuel: nat) returns (v: Machine)
    requires Compile(prog) == Ok(lines) && NoDuplicates(Names(prog)) && ByteCount(lines) <= limit <= CG.STACK_BASE
    requires RunProgram(World(prog, Addresses(lines, 0), limit, words), input, fuel).Some?
    ensures HaltsLow(ImageOf(prog, lines, words), Reset(Loaded(lines, 0), input), v)
    ensures Agrees(RunProgram(World(prog, Addresses(lines, 0), limit, words), input, fuel).value, v)
    ensures forall u :: HaltsAs(ImageOf(prog, lines, words), Reset(Loaded(lines, 0), input), u) ==> u == v
  {
    CompiledReady(prog, lines, limit, words);
    var raw := CG.Generate(prog).value;
    var q := ImageOf(prog, lines, words);
    var w := World(prog, q.addr, limit, words);
    var p := Image(raw, q.addr, q.base, words);
    var mem := Loaded(lines, 0);
    assert q == Image(Optimize(raw), q.addr, q.base, words);
    hide CG.Generate, Compile, Optimize, ByteCount, Addresses, Loaded, InitialMem, NoDuplicates, Names, Ready, ImageOf, RunProgram,
         Agrees, Guarded, UniqueLabels, HaltsAs, HaltsLow;
    var m := GeneratedProgramRuns(p, w, mem, input, fuel);
    v := Shown(RunProgram(w, input, fuel).value, p, Reset(mem, input), m);
    GeneratedLabelsUnique(prog);
    OptimizeKeepsRuns(raw, q.addr, q.base, words, Reset(mem, input), v);
    LowHalts(q, Reset(mem, input), v);
    forall u | HaltsAs(q, Reset(mem, input), u) ensures u == v {
      HaltsAsOne(q, Reset(mem, input), u, v);
    }
  }

  lemma Shown(r: Res, p: Image, a: Machine, b: Machine) returns (v: Machine)
    requires Reaches(p, a, b) && Agrees(r, b) && |a.stack| <= p.room
    ensures HaltsLow(p, a, v) && Agrees(r, v)
  {
    v := Visible(b);
    HaltsWhenReached(p, a, b);
  }

  // ----- Why stores must come from R0 -----

  /** A store of R1 and a load of the same cell into R0, around which nothing else happens. */
  const OTHER_REGISTER: seq<Line> := [Op(LoadI(1, 1)), Op(Instr.Store(2, 0, 1)), Op(Load(0, 2, 0)), Op(Halt)]
  const LOAD_DROPPED: seq<Line> := [Op(LoadI(1, 1)), Op(Instr.Store(2, 0, 1)), Op(Halt)]

  lemma LoadIsDropped()
    ensures Optimize(OTHER_REGISTER) == LOAD_DROPPED
  {
    var l := OTHER_REGISTER;
    assert l[1..][0] == l[1] && l[1..][1..][0] == l[2] && l[1..][1..][1..][0] == l[3] && l[1..][1..][1..][1..] == [];
    assert Pass([], l) == Pass([l[0]], l[1..]);
    assert Pass([l[0]], l[1..]) == Pass([l[0], l[1]], l[1..][1..]);
    assert Pass([l[0], l[1]], l[1..][1..]) == Pass([l[0], l[1]], l[1..][1..][1..]);
    assert Pass([l[0], l[1]], l[1..][1..][1..]) == Pass(LOAD_DROPPED, []);
    var d := LOAD_DROPPED;
    assert d[1..][0] == d[1] && d[1..][1..][0] == d[2] && d[1..][1..][1..] == [];
    assert Pass([], d) == Pass([d[0]], d[1..]);
    assert Pass([d[0]], d[1..]) == Pass([d[0], d[1]], d[1..][1..]);
    assert Pass([d[0], d[1]], d[1..][1..]) == Pass(d, []);
  }

  /** The peephole pass does not look at the register a store takes: on code that stores another register than R0 it can
      change the result. Generated code never has that shape (GeneratedLabelsUnique). */
  lemma OtherRegisterBreaks() returns (v: Machine, u: Machine)
    ensures !Guarded(OTHER_REGISTER)
    ensures HaltsAs(Image(OTHER_REGISTER, map[], 0, 0), Reset(map[], []), v) && v.regs[0] == 1
    ensures HaltsAs(Image(Optimize(OTHER_REGISTER), map[], 0, 0), Reset(map[], []), u) && u.regs[0] == 0
  {
    LoadIsDropped();
    hide Optimize;
    assert !StoresR0(OTHER_REGISTER[1]) && OTHER_REGISTER[2] != Op(Mov(FP, SP));
    v := RunOtherRegister();
    u := RunLoadDropped();
  }

  lemma RunOtherRegister() returns (v: Machine)
    ensures HaltsAs(Image(OTHER_REGISTER, map[], 0, 0), Reset(map[], []), v) && v.regs[0] == 1
  {
    var p := Image(OTHER_REGISTER, map[], 0, 0);
    var m0 := Reset(map[], []);
    var m1 := Set(m0, 1, 1, m0.flags);
    var m2 := AfterStore(m1, 0, 1);
    var m3 := Set(m2, 0, 1, m2.flags);
    RunLoadI(p, m0, 1, 1);
    RunStore(p, m1, 2, 0, 1);
    RunLoad(p, m2, 0, 2, 0);
    v := HaltNow(p, m0, m1, m2, m3);
  }

  lemma HaltNow(p: Image, a: Machine, b: Machine, c: Machine, d: Machine) returns (v: Machine)
    requires Reaches(p, a, b) && Reaches(p, b, c) && Reaches(p, c, d) && Fetches(p, d, Halt) && a.stack == []
    ensures HaltsAs(p, a, v) && v.regs == d.regs
  {
    hide Reaches, HaltsAs;
    var e := d.(pc := d.pc + 1, halted := true);
    RunOp(p, d, Halt, e);
    Then(p, a, b, c);
    Then(p, a, c, d);
    Then(p, a, d, e);
    v := Visible(e);
    HaltsWhenReached(p, a, e);
  }

  lemma RunLoadDropped() returns (v: Machine)
    ensures HaltsAs(Image(LOAD_DROPPED, map[], 0, 0), Reset(map[], []), v) && v.regs[0] == 0
  {
    var p := Image(LOAD_DROPPED, map[], 0, 0);
    var m0 := Reset(map[], []);
    var m1 := Set(m0, 1, 1, m0.flags);
    var m2 := AfterStore(m1, 0, 1);
    RunLoadI(p, m0, 1, 1);
    RunStore(p, m1, 2, 0, 1);
    Stays(p, m2);
    v := HaltNow(p, m0, m1, m2, m2);
  }
}
