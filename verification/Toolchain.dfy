/** From C to the emulator: the compiled program is printed, assembled to bytes and run by the CPU on its memory. */
module Toolchain {
  import opened Words
  import opened Wrappers
  import opened M = Machine
  import opened CAst
  import opened CSemantics
  import opened Hardware
  import opened Linker
  import opened Emission
  import opened Naming
  import opened Balance
  import opened TextPeephole
  import opened TextCompiler
  import C = WordCpu
  import X = AsmLexer
  import RT = AsmRoundTrip
  import CL = Closure
  import Isa
  import E = AsmEncoder
  import L = Loader
  import CG = CodeGen
  import CR = CodeRuns
  import PC = ProgramCorrect
  import WT = Waiting
  import PH = Peephole
  import RW = Rewriting
  import SH = CodeShape

  // ----- Labels survive the peephole pass -----

  lemma EmitKeepsLabels(out: seq<Line>, cur: Line, rest: seq<Line>)
    requires CR.UniqueLabels(out + ([cur] + rest))
    ensures CR.UniqueLabels(PH.Emit(out, cur) + rest)
  {
    var before, after := out + ([cur] + rest), PH.Emit(out, cur) + rest;
    var n := |PH.Emit(out, cur)|;
    forall i, j | 0 <= i < j < |after| && after[i].Lab? ensures after[i] != after[j] {
      var i', j' := if i < n then i else i - n + |out| + 1, if j < n then j else j - n + |out| + 1;
      assert after[i] == before[i'];
      assert after[j].Lab? ==> after[j] == before[j'];
    }
  }

  lemma {:induction false} PassKeepsLabels(out: seq<Line>, rest: seq<Line>)
    requires CR.UniqueLabels(out + rest)
    ensures CR.UniqueLabels(PH.Pass(out, rest))
    decreases |rest|
  {
    hide PH.Emit, CR.UniqueLabels;
    if rest == [] {
      assert out + rest == out;
    } else {
      assert out + rest == out + ([rest[0]] + rest[1..]);
      EmitKeepsLabels(out, rest[0], rest[1..]);
      PassKeepsLabels(PH.Emit(out, rest[0]), rest[1..]);
    }
  }

  lemma {:induction false} OptimizeKeepsLabels(lines: seq<Line>)
    requires CR.UniqueLabels(lines)
    ensures CR.UniqueLabels(PH.Optimize(lines))
    decreases |lines|
  {
    hide PH.Pass, CR.UniqueLabels;
    PH.PassShrinks([], lines);
    assert [] + lines == lines;
    PassKeepsLabels([], lines);
    if |PH.Pass([], lines)| < |lines| {
      OptimizeKeepsLabels(PH.Pass([], lines));
    }
  }

  // ----- The compiled image -----

  lemma CodeThenData(code: seq<Line>, data: seq<Line>)
    requires PH.IsData(data)
    ensures CodeBelow(code + data, L.ByteCount(code)) && L.ByteCount(code) <= L.ByteCount(code + data)
  {
    var all := code + data;
    L.BytesAppended(code, data);
    hide L.ByteCount;
    forall j | 0 <= j < |all| && all[j].Op? ensures LineAddress(all, j) + 4 <= L.ByteCount(code) {
      assert j < |code|;
      PlacesGrow(all, j, |code|);
      assert all[..|code|] == code;
    }
  }

  /** Compiled lines have unique labels, and their instructions lie below the data. */
  lemma CompiledImage(prog: Program, lines: seq<Line>, words: nat)
    requires PC.Compile(prog) == Ok(lines) && SH.NoDuplicates(SH.Names(prog))
    ensures var p := PC.ImageOf(prog, lines, words);
            && p.lines == lines && p.addr == L.Addresses(lines, 0) && CR.UniqueLabels(lines)
            && 0 <= p.base <= L.ByteCount(lines) && p.base % 4 == 0 && CodeBelow(lines, p.base)
  {
    var code, data := PC.CompiledParts(prog, lines);
    SH.GeneratedLabelsUnique(prog);
    OptimizeKeepsLabels(CG.Generate(prog).value);
    PC.GlobalsAreData(prog.globals);
    PC.WordSized(code);
    CodeThenData(code, data);
    hide CG.Generate, CG.GenFunctions, CG.GenGlobals, PH.Optimize, L.ByteCount, L.Addresses, CodeBelow, CR.UniqueLabels,
         SH.NoDuplicates, SH.Names;
  }

  // ----- The assembled bytes -----

  /** The lines can be printed and read back, and no label is spelt like another. */
  ghost predicate Acceptable(lines: seq<Line>) {
    Spelt(lines) && forall i :: 0 <= i < |lines| ==> Printable(lines[i])
  }

  lemma Assembled(lines: seq<Line>)
    requires lines != [] && Acceptable(lines) && L.ByteCount(lines) <= DATA_END
    ensures E.Ready(StmtsOf(lines)) && E.Fits(FileText(lines))
    ensures E.Assemble(FileText(lines)) == E.Fill(StmtsOf(lines), |lines|)
    ensures var b := E.Assemble(FileText(lines));
            b.Some? ==> |b.value| == L.ByteCount(lines) && ImageHolds(lines, |lines|, b.value)
  {
    hide L.ByteCount, Printable, Spelt, E.Fill, FileText, StmtsOf, ImageHolds, E.NoWrap, E.AllProper;
    ReadFile(lines);
    LinesReady(lines);
    assert E.Statements(FileText(lines)) == Some(StmtsOf(lines));
    if E.Fill(StmtsOf(lines), |lines|).Some? {
      FilledWords(lines, |lines|);
    }
  }

  // ----- What the assembler accepts -----

  lemma {:induction false} LabelFound(lines: seq<Line>, l: Label)
    requires Lab(l) in lines
    ensures Find(lines, l) < |lines|
  {
    if lines[0] != Lab(l) {
      LabelFound(lines[1..], l);
    }
  }

  lemma LineEncodes(lines: seq<Line>, k: nat)
    requires k < |lines| && !lines[k].Lab? && Spelt(lines) && CL.Bound(lines, {}) && SmallNumbers(lines[k])
    requires L.ByteCount(lines) <= Isa.IMM_MAX
    ensures E.EncodeStmt(StmtOf(lines[k]), E.Layout(StmtsOf(lines), |lines|).syms).Some?
  {
    hide E.Layout, StmtsOf, LabelText, L.ByteCount, Find, LineAddress, Isa.Encode;
    if lines[k].Op? && Target(lines[k].i).Some? {
      var l := Target(lines[k].i).value;
      LabelFound(lines, l);
      LookupFinds(lines, l, |lines|);
      PlaceBelow(lines, Find(lines, l));
      WrapIdentity(LineAddress(lines, Find(lines, l)));
      AddressSmall(LineAddress(lines, Find(lines, l)));
    }
  }

  lemma {:induction false} LinesEncode(lines: seq<Line>, k: nat)
    requires k <= |lines| && E.Ready(StmtsOf(lines)) && Spelt(lines) && CL.Bound(lines, {})
    requires (forall i :: 0 <= i < |lines| ==> SmallNumbers(lines[i])) && L.ByteCount(lines) <= Isa.IMM_MAX
    ensures E.Fill(StmtsOf(lines), k).Some?
  {
    hide E.EncodeStmt, E.Put, E.Layout, Spelt, CL.Bound, SmallNumbers, E.Ready, LabelText, Shape, L.ByteCount;
    if k > 0 {
      LinesEncode(lines, k - 1);
      if !lines[k - 1].Lab? {
        LineEncodes(lines, k - 1);
      }
    }
  }

  /** The compiler's output file. */
  function OutputFile(prog: Program): string
    requires CG.Generate(prog).Ok?
  {
    FileOf(TextOptimize(Buffer(CG.Generate(prog).value)))
  }

  /** With safe globals the output file is the optimised lines, printed. */
  lemma FileIsLines(prog: Program, lines: seq<Line>)
    requires PC.Compile(prog) == Ok(lines) && GoodSource(prog, CG.Generate(prog).value) && SafeGlobals(prog.globals)
    ensures OutputFile(prog) == FileText(lines) && Acceptable(lines) && CL.Bound(lines, {})
    ensures forall i :: 0 <= i < |lines| ==> SmallNumbers(lines[i])
  {
    var raw := CG.Generate(prog).value;
    hide CG.Generate, PH.Optimize, Spelt, Printable, CL.Bound, GoodNames, GoodSource, SmallNumbers, SafeGlobals, FileOf, TextOptimize;
    TextIsLines(prog, raw);
    GeneratedWellNamed(prog, raw);
    OptimizedWellNamed(prog, raw);
    WellNamedPrints(prog, lines);
    BufferFile(lines);
  }

  /** The assembler accepts the output file of every program whose names and numbers it can read back and whose globals the
      optimiser leaves alone. */
  lemma CompiledAssembles(prog: Program, lines: seq<Line>)
    requires PC.Compile(prog) == Ok(lines) && GoodSource(prog, CG.Generate(prog).value) && SafeGlobals(prog.globals)
    requires L.ByteCount(lines) <= DATA_END
    ensures OutputFile(prog) == FileText(lines) && Acceptable(lines) && E.Fits(OutputFile(prog))
    ensures lines != [] ==> E.Assemble(OutputFile(prog)).Some? && |E.Assemble(OutputFile(prog)).value| == L.ByteCount(lines)
  {
    FileIsLines(prog, lines);
    hide PC.Compile, GoodSource, SafeGlobals, OutputFile, SmallNumbers, Printable, L.ByteCount, E.Assemble, E.Fill, E.Fits, FileText,
         CL.Bound;
    if lines != [] {
      Assembled(lines);
      LinesEncode(lines, |lines|);
    } else {
      NothingFits();
    }
  }

  lemma NothingFits()
    ensures E.Fits(FileText([]))
  {
    ReadLines([]);
    hide X.Lex;
    LexHeader([]);
    RT.ParseNewline(X.Lex([]).value);
  }

  /** The emulator's CPU on an assembled file. */
  function Emulator(b: seq<E.Byte>, input: seq<Word>): C.Cpu
    requires |b| <= C.MEM_SIZE
  {
    C.Reset(Boot(b), false, input)
  }

  lemma StartsAlike(p: Image, b: seq<E.Byte>, input: seq<Word>)
    requires L.ByteCount(p.lines) == |b| <= DATA_END && ImageHolds(p.lines, |p.lines|, b)
    requires 0 <= p.base <= DATA_END && CodeBelow(p.lines, p.base)
    ensures Sim(p, PC.Reset(L.Loaded(p.lines, 0), input), Emulator(b, input))
  {
    BootData(p, b);
    BootCode(p, b);
    EndPlace(p.lines);
    hide L.ByteCount, L.Loaded, LineAddress, ImageHolds, Boot, CodeIn, DataIn, CodeBelow;
    assert Numbers([]) == [];
  }

  /** Where the CPU has halted as the line machine has. */
  ghost predicate Ends(p: Image, v: Machine, d: C.Cpu) {
    d.regs == v.regs && d.out == Numbers(v.out) && d.input == v.input && DataIn(p, v.mem, d.mem)
  }

  /** What halts on lines halts on bytes. */
  lemma HaltsOnBytes(p: Image, b: seq<E.Byte>, input: seq<Word>, v: Machine) returns (d: C.Cpu, j: nat)
    requires Wired(p) && L.ByteCount(p.lines) == |b| <= DATA_END && ImageHolds(p.lines, |p.lines|, b) && CodeBelow(p.lines, p.base)
    requires RW.HaltsAs(p, PC.Reset(L.Loaded(p.lines, 0), input), v) && StackHigh(Emulator(b, input))
    ensures C.RunsTo(Emulator(b, input), d, j) && Ends(p, v, d)
  {
    var m, c := PC.Reset(L.Loaded(p.lines, 0), input), Emulator(b, input);
    StartsAlike(p, b, input);
    var k: nat :| RW.HaltsIn(p, m, k, v);
    hide L.ByteCount, L.Loaded, LineAddress, ImageHolds, Boot, CodeIn, DataIn, StackIn, CodeBelow, StackHigh, Wired, Step, C.Step, PC.Reset,
         Emulator;
    j := RunSim(p, m, k, c);
    d := C.Steps(c, j).value;
  }

  /** Lines that halt within the room leave the hardware stack above the data. */
  lemma LowStaysHigh(p: Image, b: seq<E.Byte>, input: seq<Word>, v: Machine)
    requires Wired(p) && L.ByteCount(p.lines) == |b| <= DATA_END && ImageHolds(p.lines, |p.lines|, b) && CodeBelow(p.lines, p.base)
    requires RW.HaltsLow(p, PC.Reset(L.Loaded(p.lines, 0), input), v) && p.room <= ROOM
    ensures StackHigh(Emulator(b, input))
  {
    var m, c := PC.Reset(L.Loaded(p.lines, 0), input), Emulator(b, input);
    StartsAlike(p, b, input);
    var k: nat :| RW.HaltsIn(p, m, k, v) && Low(p, m, k, p.room);
    hide L.ByteCount, L.Loaded, LineAddress, ImageHolds, Boot, CodeIn, DataIn, StackIn, CodeBelow, StackHigh, Wired, Step, C.Step, PC.Reset,
         Emulator, Low, Sim;
    LowWider(p, m, k, p.room, ROOM);
    RunHigh(p, m, k, c);
  }

  // ----- The theorem -----

  /** What the source's result is on the CPU: output, input left, result in R0, and every cell still in data memory. */
  ghost predicate Delivers(p: Image, r: Res, d: C.Cpu) {
    && d.out == Numbers(r.s.out) && d.input == r.s.input && (r.v.W? ==> d.regs[0] == r.v.w)
    && forall a :: a in r.s.mem && 0 <= a && DataAddress(p, a) ==> C.Read(d.mem, a) == r.s.mem[a]
  }

  lemma Delivered(p: Image, r: Res, v: Machine, d: C.Cpu)
    requires PC.Agrees(r, v) && Ends(p, v, d)
    ensures Delivers(p, r, d)
  {
    hide C.Read, Peek;
  }

  /** The image the assembler makes of a file, if it accepts it and the memory holds it. */
  ghost function ImageFile(text: string): (b: seq<E.Byte>)
    ensures |b| <= C.MEM_SIZE
  {
    if E.Fits(text) && E.Assemble(text).Some? && |E.Assemble(text).value| <= C.MEM_SIZE then E.Assemble(text).value else []
  }

  /** What the theorem asks of a program: good names and numbers, no pair of globals that the optimiser takes for a push and a
      pop, no more than `limit` bytes of optimised code and data, and an evaluation that ends with at most `words` return
      addresses and operands waiting. */
  ghost predicate Runs(prog: Program, lines: seq<Line>, input: seq<Word>, limit: nat, words: nat, fuel: nat) {
    && PC.Compile(prog) == Ok(lines) && GoodSource(prog, CG.Generate(prog).value) && SafeGlobals(prog.globals)
    && L.ByteCount(lines) <= limit <= CG.STACK_BASE
    && PC.RunProgram(World(prog, L.Addresses(lines, 0), limit, words), input, fuel).Some?
  }

  lemma LinesHalt(prog: Program, lines: seq<Line>, input: seq<Word>, limit: nat, words: nat, fuel: nat) returns (v: Machine)
    requires Runs(prog, lines, input, limit, words, fuel)
    ensures lines != [] && RW.HaltsAs(PC.ImageOf(prog, lines, words), PC.Reset(L.Loaded(lines, 0), input), v)
    ensures RW.HaltsLow(PC.ImageOf(prog, lines, words), PC.Reset(L.Loaded(lines, 0), input), v)
    ensures PC.Agrees(PC.RunProgram(World(prog, L.Addresses(lines, 0), limit, words), input, fuel).value, v)
  {
    hide CG.Generate, SafeGlobals, GoodNames, SmallNumbers;
    v := PC.CompilerIsCorrect(prog, lines, input, limit, words, fuel);
    RW.LowHalts(PC.ImageOf(prog, lines, words), PC.Reset(L.Loaded(lines, 0), input), v);
    CompiledImage(prog, lines, words);
    hide PC.ImageOf, PC.Agrees, PC.Compile, PC.RunProgram, L.Loaded, L.Addresses, RW.HaltsAs, RW.HaltsLow;
    NotEmpty(PC.ImageOf(prog, lines, words), PC.Reset(L.Loaded(lines, 0), input), v);
  }

  lemma Imaged(prog: Program, lines: seq<Line>, input: seq<Word>, limit: nat, words: nat, fuel: nat)
    requires Runs(prog, lines, input, limit, words, fuel) && lines != []
    ensures CG.Generate(prog).Ok? && E.Fits(OutputFile(prog)) && E.Assemble(OutputFile(prog)) == Some(ImageFile(OutputFile(prog)))
    ensures |ImageFile(OutputFile(prog))| == L.ByteCount(lines) <= DATA_END
    ensures ImageHolds(lines, |lines|, ImageFile(OutputFile(prog)))
    ensures var p := PC.ImageOf(prog, lines, words); p.lines == lines && Wired(p) && CodeBelow(lines, p.base)
  {
    hide CG.Generate, L.ByteCount, L.Addresses, FileText, PC.Compile, PC.RunProgram, PC.ImageOf, SH.NoDuplicates, SH.Names,
         CR.UniqueLabels, CodeBelow, Acceptable, E.Assemble, E.Fits, ImageHolds, Wired, GoodNames, SmallNumbers, E.Fill, SafeGlobals,
         OutputFile;
    CompiledImage(prog, lines, words);
    LinkedIsWired(PC.ImageOf(prog, lines, words));
    CompiledAssembles(prog, lines);
    Assembled(lines);
  }

  /** Whenever the source program's evaluation ends, the compiler's output file assembles, and the emulator halts on the assembled
      bytes with the source's output, the same input left, its result in R0 and its cells in memory, unless its hardware stack
      grows down into the data. */
  lemma RunsUnlessFull(prog: Program, lines: seq<Line>, input: seq<Word>, limit: nat, words: nat, fuel: nat)
      returns (d: C.Cpu, j: nat)
    requires Runs(prog, lines, input, limit, words, fuel) && CG.Generate(prog).Ok?
    requires StackHigh(Emulator(ImageFile(OutputFile(prog)), input))
    ensures E.Fits(OutputFile(prog)) && E.Assemble(OutputFile(prog)) == Some(ImageFile(OutputFile(prog)))
    ensures C.RunsTo(Emulator(ImageFile(OutputFile(prog)), input), d, j)
    ensures Delivers(PC.ImageOf(prog, lines, words), PC.RunProgram(World(prog, L.Addresses(lines, 0), limit, words), input, fuel).value, d)
  {
    var p := PC.ImageOf(prog, lines, words);
    hide CG.Generate, L.ByteCount, L.Addresses, L.Loaded, PC.Compile, PC.RunProgram, PC.Reset, PC.ImageOf, CodeBelow, Emulator,
         StackHigh, RW.HaltsAs, RW.HaltsLow, PC.Agrees, E.Assemble, E.Fits, ImageHolds, Wired, Delivers, ImageFile, OutputFile, Runs;
    var v := LinesHalt(prog, lines, input, limit, words, fuel);
    Imaged(prog, lines, input, limit, words, fuel);
    d, j := HaltsOnBytes(p, ImageFile(OutputFile(prog)), input, v);
    Delivered(p, PC.RunProgram(World(prog, L.Addresses(lines, 0), limit, words), input, fuel).value, v, d);
  }

  /** An evaluation that keeps no more waiting than the hardware stack holds leaves it above the data. */
  lemma StackStaysHigh(prog: Program, lines: seq<Line>, input: seq<Word>, limit: nat, words: nat, fuel: nat)
    requires Runs(prog, lines, input, limit, words, fuel) && CG.Generate(prog).Ok? && words <= ROOM
    ensures StackHigh(Emulator(ImageFile(OutputFile(prog)), input))
  {
    var p := PC.ImageOf(prog, lines, words);
    assert p.room == words;
    hide CG.Generate, L.ByteCount, L.Addresses, L.Loaded, PC.Compile, PC.RunProgram, PC.Reset, PC.ImageOf, CodeBelow, Emulator,
         StackHigh, RW.HaltsAs, RW.HaltsLow, PC.Agrees, E.Assemble, E.Fits, ImageHolds, Wired, ImageFile, OutputFile, Runs;
    var v := LinesHalt(prog, lines, input, limit, words, fuel);
    Imaged(prog, lines, input, limit, words, fuel);
    LowStaysHigh(p, ImageFile(OutputFile(prog)), input, v);
  }

  /** Whenever the source program's evaluation ends with no more return addresses and operands waiting than the hardware stack
      holds, the compiler's output file assembles, and the emulator halts on the assembled bytes with the source's output, the
      same input left, its result in R0 and its cells in memory. */
  lemma ToolchainIsCorrect(prog: Program, lines: seq<Line>, input: seq<Word>, limit: nat, words: nat, fuel: nat)
      returns (d: C.Cpu, j: nat)
    requires Runs(prog, lines, input, limit, words, fuel) && CG.Generate(prog).Ok? && words <= ROOM
    ensures E.Fits(OutputFile(prog)) && E.Assemble(OutputFile(prog)) == Some(ImageFile(OutputFile(prog)))
    ensures C.RunsTo(Emulator(ImageFile(OutputFile(prog)), input), d, j)
    ensures Delivers(PC.ImageOf(prog, lines, words), PC.RunProgram(World(prog, L.Addresses(lines, 0), limit, words), input, fuel).value, d)
  {
    hide *;
    StackStaysHigh(prog, lines, input, limit, words, fuel);
    d, j := RunsUnlessFull(prog, lines, input, limit, words, fuel);
  }

  /** What can be checked before the run: if less than u operands and return addresses wait in any activation, and the R7 stack
      down to `limit` has room for no more activations than the hardware stack can hold, nothing needs to be asked of the run. */
  lemma LightProgramsRun(prog: Program, lines: seq<Line>, input: seq<Word>, limit: nat, words: nat, fuel: nat, u: nat)
      returns (d: C.Cpu, j: nat)
    requires Runs(prog, lines, input, limit, words, fuel) && CG.Generate(prog).Ok?
    requires 1 <= u && WT.LightProgram(prog, u - 1) && WT.Ceiling(u, limit) <= ROOM
    ensures E.Fits(OutputFile(prog)) && E.Assemble(OutputFile(prog)) == Some(ImageFile(OutputFile(prog)))
    ensures C.RunsTo(Emulator(ImageFile(OutputFile(prog)), input), d, j)
    ensures Delivers(PC.ImageOf(prog, lines, ROOM), PC.RunProgram(World(prog, L.Addresses(lines, 0), limit, words), input, fuel).value, d)
  {
    var w := World(prog, L.Addresses(lines, 0), limit, words);
    assert w.(words := ROOM) == World(prog, L.Addresses(lines, 0), limit, ROOM);
    hide L.Addresses, PC.RunProgram, PC.Compile, PC.ImageOf, GoodSource, SafeGlobals, L.ByteCount, Emulator, OutputFile, ImageFile,
         Delivers, E.Assemble, E.Fits, WT.LightProgram, WT.Ceiling, CG.Generate;
    WT.WordsSuffice(w, ROOM, u, input, fuel);
    d, j := ToolchainIsCorrect(prog, lines, input, limit, ROOM, fuel);
  }

  lemma NothingRuns(p: Image, m: Machine, k: nat)
    requires p.lines == [] && 1 <= k
    ensures Steps(p, m, k) == None
  {
  }

  lemma NotEmpty(p: Image, m: Machine, v: Machine)
    requires RW.HaltsAs(p, m, v) && !m.halted
    ensures p.lines != []
  {
    var k: nat :| RW.HaltsIn(p, m, k, v);
    assert k > 0;
    if p.lines == [] {
      NothingRuns(p, m, k);
    }
  }
}
