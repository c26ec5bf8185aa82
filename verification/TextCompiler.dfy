/** The compiler's output file: when the optimiser's text patterns do what the rewrites on lines do, and what goes wrong otherwise. */
module TextCompiler {
  import opened Wrappers
  import opened M = Machine
  import opened CAst
  import opened Linker
  import opened Emission
  import opened Balance
  import opened TextPeephole
  import opened Naming
  import Isa
  import I = InstStream
  import E = AsmEncoder
  import P = AsmParser
  import R = AsmReading
  import RT = AsmRoundTrip
  import X = AsmLexer
  import opened Hardware
  import CG = CodeGen
  import CL = Closure
  import CR = CodeRuns
  import PH = Peephole
  import SH = CodeShape

  /** codegen: the generated lines as text, optimised as text. */
  function TextCompile(prog: Program): Result<seq<string>, CG.Error> {
    var raw :- CG.Generate(prog);
    Ok(TextOptimize(Buffer(raw)))
  }

  /** The lines as written to the file. */
  function FileOf(lines: seq<string>): string { if lines == [] then "" else lines[0] + ("\n" + FileOf(lines[1..])) }

  lemma OperandsThen(f: Isa.Fields, rest: string)
    ensures Isa.OperandText(f, "") + rest == Isa.OperandText(f, rest)
  {
    hide Isa.RegName, Isa.SignedDecimal, Isa.Offset;
  }

  lemma InstrThen(i: Instr, rest: string)
    ensures InstrText(i, "") + rest == InstrText(i, rest)
  {
    hide Isa.OperandText, Isa.OpcodeName, LabelText, Isa.RegName, Shape;
    OperandsThen(Shape(i), rest);
  }

  lemma PrintedThen(l: Line, rest: string)
    ensures Printed(l) + rest == LineText(l, rest)
  {
    hide InstrText, LabelText, Isa.SignedDecimal;
    if l.Op? {
      InstrThen(l.i, rest);
    } else if l.Lab? {
      assert ":" + "" == ":";
    } else {
      assert Isa.SignedDecimal(l.w) + "" == Isa.SignedDecimal(l.w);
    }
  }

  lemma {:induction false} PrintedFile(lines: seq<Line>)
    ensures FileOf(PrintedAll(lines)) == LinesText(lines)
  {
    hide Printed, LineText;
    if lines == [] {
      assert PrintedAll(lines) == [];
    } else {
      PrintedFile(lines[1..]);
      assert PrintedAll(lines)[0] == Printed(lines[0]) && PrintedAll(lines)[1..] == PrintedAll(lines[1..]);
      PrintedThen(lines[0], "\n" + LinesText(lines[1..]));
    }
  }

  lemma BufferFile(lines: seq<Line>)
    ensures FileOf(Buffer(lines)) == FileText(lines)
  {
    PrintedFile(lines);
    assert Buffer(lines)[0] == HEADLINE && Buffer(lines)[1..] == PrintedAll(lines);
    hide PrintedAll, LinesText;
    assert HEADLINE + ("\n" + LinesText(lines)) == HEADER + LinesText(lines);
  }

  // ----- Labels taken for a push and a pop -----

  /** Lines the optimiser writes itself. */
  predicate Written(s: string) { s != "" && s[0] == ' ' }

  lemma EmitOnlyKnown(out: seq<string>, cur: string, x: string)
    requires x in TextEmit(out, cur) && !Written(x)
    ensures x in out || x == cur
  {
    hide MovesItself, PushThenPop, StoreThenLoad, PushOperand, PopOperand;
  }

  lemma {:induction false} PassOnlyKnown(out: seq<string>, rest: seq<string>, x: string)
    requires x in TextPass(out, rest) && !Written(x)
    ensures x in out || x in rest
    decreases |rest|
  {
    hide TextEmit;
    if rest != [] {
      PassOnlyKnown(TextEmit(out, rest[0]), rest[1..], x);
      if x in TextEmit(out, rest[0]) {
        EmitOnlyKnown(out, rest[0], x);
      }
    }
  }

  lemma {:induction false} OptimizeOnlyKnown(lines: seq<string>, x: string)
    requires x in TextOptimize(lines) && !Written(x)
    ensures x in TextPass([], lines)
    decreases |lines|
  {
    hide TextPass;
    var next := TextPass([], lines);
    if |next| < |lines| {
      OptimizeOnlyKnown(next, x);
      PassOnlyKnown([], next, x);
    }
  }

  lemma {:induction false} PassSplits(out: seq<string>, a: seq<string>, b: seq<string>)
    ensures TextPass(out, a + b) == TextPass(TextPass(out, a), b)
    decreases |a|
  {
    hide TextEmit;
    if a == [] {
      assert a + b == b;
    } else {
      assert (a + b)[0] == a[0] && (a + b)[1..] == a[1..] + b;
      PassSplits(TextEmit(out, a[0]), a[1..], b);
    }
  }

  lemma OneEmit(out: seq<string>, s: string)
    ensures TextPass(out, [s]) == TextEmit(out, s)
  {
    assert [s][1..] == [];
  }

  /** A label that looks like a push, in front of one that looks like a pop, is gone after the first pass. */
  lemma PairIsLost(pre: seq<string>, a: string, b: string, post: seq<string>)
    requires a !in pre && a !in post && a != b && !Written(a) && IsTarget(a) && IsTarget(b)
    requires PushThenPop(a, b) && PopOperand(a).None? && !MovesItself(a) && !MovesItself(b)
    ensures a !in TextOptimize(pre + ([a] + ([b] + post)))
  {
    hide PushOperand, PopOperand, MovOperands, StoredCell, LoadedCell, IsTarget, TextOptimize;
    var all := pre + ([a] + ([b] + post));
    var out := TextPass([], pre);
    PassSplits([], pre, [a] + ([b] + post));
    PassSplits(out, [a], [b] + post);
    OneEmit(out, a);
    assert TextEmit(out, a) == out + [a];
    PassSplits(out + [a], [b], post);
    OneEmit(out + [a], b);
    var next := TextEmit(out + [a], b);
    assert next == out + Moved(a, b);
    hide TextPass, TextEmit, MovesItself;
    if a in TextOptimize(all) {
      OptimizeOnlyKnown(all, a);
      PassOnlyKnown(next, post, a);
      PassOnlyKnown([], pre, a);
    }
  }

  lemma {:induction false} UnsafePlace(gs: seq<Global>) returns (i: nat)
    requires !SafeGlobals(gs)
    ensures i + 1 < |gs| && gs[i].size == Some(0) && "PUSH" <= gs[i].name && "POP" <= gs[i + 1].name
  {
    if gs[0].size == Some(0) && "PUSH" <= gs[0].name && "POP" <= gs[1].name {
      i := 0;
    } else {
      i := UnsafePlace(gs[1..]);
      i := i + 1;
    }
  }

  /** Where two neighbouring globals' labels are in the data, if the first is empty. */
  lemma {:induction false} DataAround(gs: seq<Global>, i: nat) returns (pre: seq<Line>, post: seq<Line>)
    requires i + 1 < |gs| && gs[i].size == Some(0) && CG.GenGlobals(gs).Ok?
    ensures CG.GenGlobals(gs).value == pre + ([Lab(Named(gs[i].name))] + ([Lab(Named(gs[i + 1].name))] + post))
  {
    GlobalShape(gs[0]);
    var a, rest := CG.GenGlobal(gs[0]).value, CG.GenGlobals(gs[1..]).value;
    if i == 0 {
      GlobalsStart(gs[1..]);
      pre, post := [], rest[1..];
      assert a == [Lab(Named(gs[0].name))] && rest == [rest[0]] + rest[1..];
    } else {
      hide CG.GenGlobal;
      var p, q := DataAround(gs[1..], i - 1);
      pre, post := a + p, q;
    }
  }

  lemma Indented(l: Line)
    requires !l.Lab?
    ensures Printed(l) != "" && Printed(l)[0] == ' '
  {
    hide InstrText;
  }

  lemma OnlyLabelPrints(l: Line, x: string)
    requires Printable(l) && "PUSH" <= x && Printed(l) == x + ":"
    ensures l == Lab(Named(x))
  {
    assert (x + ":")[0] == 'P';
    if l.Lab? {
      var t := LabelText(l.l);
      assert ":" + "" == ":";
      assert (t + ":")[..|t|] == t && (x + ":")[..|x|] == x;
      assert t == x;
    } else {
      hide Printed;
      Indented(l);
    }
  }

  lemma NotPrinted(lines: seq<Line>, x: string)
    requires AllPrintable(lines) && "PUSH" <= x && Lab(Named(x)) !in lines
    ensures x + ":" !in PrintedAll(lines)
  {
    hide Printed, Printable;
    if x + ":" in PrintedAll(lines) {
      var i :| 0 <= i < |lines| && Printed(lines[i]) == x + ":";
      OnlyLabelPrints(lines[i], x);
    }
  }

  lemma OnlyOnce(pre: seq<Line>, l: Line, post: seq<Line>)
    requires l.Lab? && CR.UniqueLabels(pre + ([l] + post))
    ensures l !in pre && l !in post
  {
    var all := pre + ([l] + post);
    assert all[|pre|] == l;
    forall i | 0 <= i < |pre| ensures pre[i] != l {
      assert all[i] == pre[i];
    }
    forall i | 0 <= i < |post| ensures post[i] != l {
      assert all[|pre| + 1 + i] == post[i];
    }
  }

  lemma PushLabelSeen(x: string, y: string)
    requires GoodName(x) && GoodName(y) && "PUSH" <= x && "POP" <= y
    ensures PushThenPop(x + ":", y + ":") && PopOperand(x + ":").None?
    ensures IsTarget(x + ":") && IsTarget(y + ":") && !MovesItself(x + ":") && !MovesItself(y + ":")
    ensures x + ":" != y + ":" && !Written(x + ":")
  {
    var a, b := Lab(Named(x)), Lab(Named(y));
    assert ":" + "" == ":";
    assert x[1] == 'U' && y[1] == 'O';
    assert (x + ":")[1] == 'U' && (y + ":")[1] == 'O' && (x + ":")[0] == 'P';
    hide PushOperand, PopOperand, MovOperands, IsTarget, GoodName;
    LabelSeen(a);
    LabelSeen(b);
  }

  /** With an unsafe pair of globals the text loses a label that the lines keep. */
  lemma UnsafeDiffers(prog: Program, raw: seq<Line>)
    requires GoodSource(prog, raw) && !SafeGlobals(prog.globals)
    ensures TextOptimize(Buffer(raw)) != Buffer(PH.Optimize(raw))
  {
    var i := UnsafePlace(prog.globals);
    var x, y := prog.globals[i].name, prog.globals[i + 1].name;
    var pre, post := RawAround(prog, raw, i);
    GeneratedWellNamed(prog, raw);
    WellNamedPrints(prog, raw);
    SH.GeneratedLabelsUnique(prog);
    CL.OptimizeKept(raw);
    hide CG.Generate, GoodNames, SmallNumbers, SH.NoDuplicates, SH.Names, WellNamed, GoodSource, SafeGlobals, PH.Optimize, TextOptimize;
    LosesLabel(raw, pre, x, y, post);
    KeepsLabel(PH.Optimize(raw), x);
  }

  lemma RawAround(prog: Program, raw: seq<Line>, i: nat) returns (pre: seq<Line>, post: seq<Line>)
    requires CG.Generate(prog) == Ok(raw) && i + 1 < |prog.globals| && prog.globals[i].size == Some(0)
    ensures raw == pre + ([Lab(Named(prog.globals[i].name))] + ([Lab(Named(prog.globals[i + 1].name))] + post))
  {
    hide CG.GenFunctions, CG.GenGlobals;
    var p, q := DataAround(prog.globals, i);
    pre, post := CG.ENTRY + (CG.GenFunctions(prog, 0, 0).value.code + p), q;
  }

  lemma PartsPrintable(pre: seq<Line>, a: Line, b: Line, post: seq<Line>)
    requires AllPrintable(pre + ([a] + ([b] + post)))
    ensures AllPrintable(pre) && Printable(a) && Printable(b) && AllPrintable(post)
  {
    hide Printable;
    var raw := pre + ([a] + ([b] + post));
    assert raw[|pre|] == a && raw[|pre| + 1] == b;
    forall j | 0 <= j < |pre| ensures Printable(pre[j]) {
      assert pre[j] == raw[j];
    }
    forall j | 0 <= j < |post| ensures Printable(post[j]) {
      assert post[j] == raw[|pre| + 2 + j];
    }
  }

  lemma BufferParts(pre: seq<Line>, a: Line, b: Line, post: seq<Line>)
    ensures Buffer(pre + ([a] + ([b] + post)))
         == ([HEADLINE] + PrintedAll(pre)) + ([Printed(a)] + ([Printed(b)] + PrintedAll(post)))
  {
    hide Printed;
    var l, r := Buffer(pre + ([a] + ([b] + post))), ([HEADLINE] + PrintedAll(pre)) + ([Printed(a)] + ([Printed(b)] + PrintedAll(post)));
    assert |l| == |r|;
    forall i | 0 <= i < |l| ensures l[i] == r[i] {
    }
  }

  lemma LabelPrints(x: string)
    ensures Printed(Lab(Named(x))) == x + ":"
  {
    assert ":" + "" == ":";
  }

  lemma LosesLabel(raw: seq<Line>, pre: seq<Line>, x: string, y: string, post: seq<Line>)
    requires raw == pre + ([Lab(Named(x))] + ([Lab(Named(y))] + post))
    requires AllPrintable(raw) && CR.UniqueLabels(raw) && "PUSH" <= x && "POP" <= y
    ensures x + ":" !in TextOptimize(Buffer(raw))
  {
    var a, b := Lab(Named(x)), Lab(Named(y));
    PartsPrintable(pre, a, b, post);
    assert GoodName(x) && GoodName(y);
    hide CR.UniqueLabels, GoodName, TextOptimize, Written, PrintedAll, Buffer, AllPrintable, Printed, PushThenPop, PopOperand,
         IsTarget, MovesItself;
    OnlyOnce(pre, a, [b] + post);
    NotPrinted(pre, x);
    NotPrinted(post, x);
    PushLabelSeen(x, y);
    HeadIsNoLabel(x);
    LabelPrints(x);
    LabelPrints(y);
    BufferParts(pre, a, b, post);
    PairIsLost([HEADLINE] + PrintedAll(pre), x + ":", y + ":", PrintedAll(post));
  }

  lemma HeadIsNoLabel(x: string)
    requires "PUSH" <= x
    ensures x + ":" != HEADLINE
  {
    assert (x + ":")[0] == 'P';
  }

  lemma KeepsLabel(lines: seq<Line>, x: string)
    requires Lab(Named(x)) in lines
    ensures x + ":" in Buffer(lines)
  {
    var i :| 0 <= i < |lines| && lines[i] == Lab(Named(x));
    assert ":" + "" == ":";
    assert Buffer(lines)[i + 1] == x + ":";
  }

  /** The text optimiser does what the optimiser on lines does exactly if no empty array whose name begins with PUSH stands
      directly in front of a global whose name begins with POP. */
  lemma TextIsLines(prog: Program, raw: seq<Line>)
    requires GoodSource(prog, raw)
    ensures TextOptimize(Buffer(raw)) == Buffer(PH.Optimize(raw)) <==> SafeGlobals(prog.globals)
  {
    if SafeGlobals(prog.globals) {
      GeneratedWellNamed(prog, raw);
      WellNamedPrints(prog, raw);
      GeneratedIsQuiet(prog);
      hide *;
      OptimizeMatches(raw);
    } else {
      UnsafeDiffers(prog, raw);
    }
  }

  // ----- A program whose output file is refused -----

  const PAIR: seq<Global> := [Global("PUSHa", Some(0), None), Global("POPb", None, None)]

  const JUNK := INDENT + "MOV b:, a:"

  lemma JunkSeen()
    ensures MovOperands(JUNK) == Some(Pair("b:", "a:")) && PopOperand(JUNK) == None && LoadedCell(JUNK) == None
  {
    var t := "MOV b:, a:";
    Unindented(t);
    NotBehind("POP", t);
    NotBehind("LOAD", t);
    assert t == "MOV" + (" " + ("b:" + (", " + "a:")));
    BehindIs("MOV", " " + ("b:" + (", " + "a:")));
    MovRead(" " + ("b:" + (", " + "a:")), "b:", "a:");
  }

  lemma PushaSeen()
    ensures PushOperand("PUSHa:") == Some("a:")
  {
    assert SkipBlanks("PUSHa:") == "PUSHa:" && "PUSHa:" == "PUSH" + "a:";
    BehindIs("PUSH", "a:");
    assert SkipSpace("a:") == "a:" && "a:" + "" == "a:";
    WordIs("a:", "", 15);
  }

  lemma PopbSeen()
    ensures PopOperand("POPb:") == Some("b:")
  {
    assert SkipBlanks("POPb:") == "POPb:" && "POPb:" == "POP" + "b:";
    BehindIs("POP", "b:");
    assert SkipSpace("b:") == "b:" && "b:" + "" == "b:";
    WordIs("b:", "", 15);
  }

  lemma PairSeenAs()
    ensures PushOperand("PUSHa:") == Some("a:") && PopOperand("POPb:") == Some("b:") && PopOperand("PUSHa:") == None
    ensures !MovesItself("PUSHa:") && !MovesItself("POPb:") && IsTarget("PUSHa:")
  {
    PushaSeen();
    PopbSeen();
    hide PushOperand, PopOperand, MovesItself, IsTarget;
    assert GoodName("PUSHa") && GoodName("POPb");
    assert "PUSHa"[..4] == "PUSH" && "POPb"[..3] == "POP" && "PUSHa" + ":" == "PUSHa:" && "POPb" + ":" == "POPb:";
    PushLabelSeen("PUSHa", "POPb");
  }

  /** A line that no pattern matches at its place goes to the end of the buffer. */
  lemma Passes(out: seq<string>, s: string)
    requires !MovesItself(s) && PopOperand(s) == None && LoadedCell(s) == None
    ensures TextEmit(out, s) == out + [s]
  {
  }

  const ZERO := Data(0)

  lemma TailPasses(out: seq<string>)
    ensures TextPass(out, [JUNK, Printed(ZERO)]) == out + [JUNK, Printed(ZERO)]
  {
    var z := Printed(ZERO);
    JunkSeen();
    DataSeen(ZERO);
    hide MovOperands, PopOperand, LoadedCell, Printed, TextPass, TextEmit;
    Passes(out, JUNK);
    Passes(out + [JUNK], z);
    OneEmit(out, JUNK);
    OneEmit(out + [JUNK], z);
    assert [JUNK, z] == [JUNK] + [z];
    PassSplits(out, [JUNK], [z]);
  }

  lemma BufferPasses(code: seq<Line>)
    requires AllPrintable(code) && Quiet(code)
    ensures TextPass([], Buffer(code)) == Buffer(PH.Pass([], code)) && AllPrintable(PH.Pass([], code)) && Quiet(PH.Pass([], code))
  {
    hide TextPass, PH.Pass, Printed, AllPrintable, Quiet;
    assert [] + code == code;
    HeadFirst(PrintedAll(code));
    NothingPrinted();
    PassMatches([], code);
  }

  lemma {:induction false} JunkStays(code: seq<Line>)
    requires AllPrintable(code) && Quiet(code)
    ensures TextOptimize(Buffer(code) + [JUNK, Printed(ZERO)]) == Buffer(PH.Optimize(code)) + [JUNK, Printed(ZERO)]
    decreases |code|
  {
    var tail := [JUNK, Printed(ZERO)];
    hide TextPass, PH.Pass, Printed, AllPrintable, Quiet, Buffer;
    BufferPasses(code);
    PassSplits([], Buffer(code), tail);
    TailPasses(Buffer(PH.Pass([], code)));
    PH.PassShrinks([], code);
    if |PH.Pass([], code)| < |code| {
      JunkStays(PH.Pass([], code));
    }
  }

  lemma PairReplaced(out: seq<string>)
    requires out != []
    ensures TextEmit(TextEmit(out, "PUSHa:"), "POPb:") == out + [JUNK]
  {
    PairSeenAs();
    JunkSpelt();
    hide PushOperand, PopOperand, LoadedCell, StoredCell, IsTarget, MovesItself;
    assert TextEmit(out, "PUSHa:") == out + ["PUSHa:"];
  }

  lemma PairBecomesJunk(code: seq<Line>)
    requires AllPrintable(code) && Quiet(code)
    ensures TextPass([], Buffer(code) + ["PUSHa:", "POPb:", Printed(ZERO)]) == Buffer(PH.Pass([], code)) + [JUNK, Printed(ZERO)]
  {
    var z := Printed(ZERO);
    var out := Buffer(PH.Pass([], code));
    BufferPasses(code);
    DataSeen(ZERO);
    hide TextPass, TextEmit, PH.Pass, Printed, AllPrintable, Quiet, Buffer, MovOperands, PopOperand, LoadedCell;
    PassSplits([], Buffer(code), ["PUSHa:", "POPb:", z]);
    PairTail(z);
    PassSplits(out, ["PUSHa:"], ["POPb:"] + [z]);
    OneEmit(out, "PUSHa:");
    PassSplits(TextEmit(out, "PUSHa:"), ["POPb:"], [z]);
    OneEmit(TextEmit(out, "PUSHa:"), "POPb:");
    PairReplaced(out);
    OneEmit(out + [JUNK], z);
    Passes(out + [JUNK], z);
  }

  lemma PairTail(z: string)
    ensures ["PUSHa:", "POPb:", z] == ["PUSHa:"] + (["POPb:"] + [z])
  {
  }

  lemma JunkSpelt()
    ensures INDENT + ("MOV " + ("b:" + (", " + "a:"))) == JUNK
  {
    assert "MOV " + ("b:" + (", " + "a:")) == "MOV b:, a:";
  }

  lemma PairCode(prog: Program, raw: seq<Line>) returns (c: seq<Line>)
    requires GoodSource(prog, raw) && prog.globals == PAIR
    ensures raw == c + [Lab(Named("PUSHa")), Lab(Named("POPb")), ZERO] && AllPrintable(c) && Quiet(c)
  {
    c := CG.ENTRY + CG.GenFunctions(prog, 0, 0).value.code;
    PairData();
    hide CG.GenFunctions, CG.GenGlobals;
    assert raw == c + [Lab(Named("PUSHa")), Lab(Named("POPb")), ZERO];
    CodeIsQuiet(prog);
    hide CG.Generate, Quiet, Printable, GoodNames, SmallNumbers;
    GeneratedWellNamed(prog, raw);
    WellNamedPrints(prog, raw);
    assert forall i :: 0 <= i < |c| ==> c[i] == raw[i];
  }

  lemma PairPrinted()
    ensures PrintedAll([Lab(Named("PUSHa")), Lab(Named("POPb")), ZERO]) == ["PUSHa:", "POPb:", Printed(ZERO)]
  {
    LabelPrints("PUSHa");
    LabelPrints("POPb");
    assert "PUSHa" + ":" == "PUSHa:" && "POPb" + ":" == "POPb:";
    hide Printed;
  }

  /** What such a program's output file holds. */
  lemma PairOutput(prog: Program, raw: seq<Line>) returns (code: seq<Line>)
    requires GoodSource(prog, raw) && prog.globals == PAIR
    ensures TextOptimize(Buffer(raw)) == Buffer(code) + [JUNK, Printed(ZERO)] && AllPrintable(code)
  {
    hide GoodSource, Quiet, AllPrintable, TextPass, PH.Pass, Printed, Buffer, PrintedAll;
    var c := PairCode(prog, raw);
    PairPrinted();
    BufferAdds(c, [Lab(Named("PUSHa")), Lab(Named("POPb")), ZERO]);
    PairBecomesJunk(c);
    BufferPasses(c);
    PH.PassShrinks([], c);
    JunkStays(PH.Pass([], c));
    code := PH.Optimize(PH.Pass([], c));
    OptimizePrints(PH.Pass([], c));
  }

  lemma PairData()
    ensures CG.GenGlobals(PAIR) == Ok([Lab(Named("PUSHa")), Lab(Named("POPb")), ZERO])
  {
    assert PAIR[1..] == [PAIR[1]] && PAIR[1..][1..] == [];
    assert CG.GenGlobals(PAIR[1..][1..]) == Ok([]);
    assert CG.Zeros(0) == [] && CG.GenGlobal(PAIR[0]) == Ok([Lab(Named("PUSHa"))] + []);
    assert CG.GenGlobal(PAIR[1]) == Ok([Lab(Named("POPb")), ZERO]);
    assert CG.GenGlobals(PAIR[1..]) == Ok([Lab(Named("POPb")), ZERO] + []);
    assert ([Lab(Named("PUSHa"))] + []) + ([Lab(Named("POPb")), ZERO] + []) == [Lab(Named("PUSHa")), Lab(Named("POPb")), ZERO];
  }

  lemma {:induction false} OptimizePrints(lines: seq<Line>)
    requires AllPrintable(lines) && Quiet(lines)
    ensures AllPrintable(PH.Optimize(lines))
    decreases |lines|
  {
    hide PH.Pass, AllPrintable, Quiet;
    PH.PassShrinks([], lines);
    BufferPasses(lines);
    if |PH.Pass([], lines)| < |lines| {
      OptimizePrints(PH.Pass([], lines));
    }
  }

  // The assembler on that file.

  function LinesThen(lines: seq<Line>, tail: string): string {
    if lines == [] then tail else LineText(lines[0], "\n" + LinesThen(lines[1..], tail))
  }

  lemma {:induction false} PrintedFileThen(lines: seq<Line>, more: seq<string>)
    ensures FileOf(PrintedAll(lines) + more) == LinesThen(lines, FileOf(more))
  {
    hide Printed, LineText;
    if lines == [] {
      assert PrintedAll(lines) + more == more;
    } else {
      var all := PrintedAll(lines) + more;
      PrintedFileThen(lines[1..], more);
      assert all[0] == Printed(lines[0]) && all[1..] == PrintedAll(lines[1..]) + more;
      PrintedThen(lines[0], "\n" + LinesThen(lines[1..], FileOf(more)));
    }
  }

  /** What cannot be parsed behind good lines cannot be parsed with them. */
  ghost predicate Refused(text: string) { X.Lex(text).Some? ==> P.ParseStmts(X.Lex(text).value) == None }

  lemma OneMoreRefused(toks: seq<X.Token>, s: P.Stmt, rest: seq<X.Token>)
    requires P.ParseStmt(toks) == Some(P.Got(s, rest)) && P.ParseStmts(rest) == None
    ensures P.ParseStmts(toks) == None
  {
    hide P.ParseDirective, P.ParseNamed;
  }

  lemma {:induction false} RefusedThen(lines: seq<Line>, tail: string)
    requires AllPrintable(lines) && Refused(tail)
    ensures Refused(LinesThen(lines, tail))
  {
    hide X.Lex, P.ParseStmts, P.ParseStmt, LineText, LineTokens, StmtOf, Printable;
    if lines != [] {
      var rest := LinesThen(lines[1..], tail);
      RefusedThen(lines[1..], tail);
      R.LexNewline(rest);
      LexLine(lines[0], "\n" + rest);
      if X.Lex(rest).Some? {
        var ts := X.Lex(rest).value;
        RT.ParseNewline(ts);
        ParseLine(lines[0], [X.Newline] + ts);
        OneMoreRefused(LineTokens(lines[0], Some([X.Newline] + ts)).value, StmtOf(lines[0]), [X.Newline] + ts);
      } else {
        NothingBefore(lines[0], rest);
      }
    }
  }

  lemma NothingBefore(l: Line, rest: string)
    requires X.Lex(rest) == None && X.Lex(LineText(l, "\n" + rest)) == LineTokens(l, X.Before(X.Newline, X.Lex(rest)))
    ensures X.Lex(LineText(l, "\n" + rest)) == None
  {
    hide X.Lex, LineText, Isa.OpcodeName;
  }

  lemma LexSpoiltOperand(a: string)
    ensures X.Lex(" " + ("b" + (":" + a))) == X.Before(X.Ident("b"), X.Before(X.Colon, X.Lex(a)))
  {
    assert GoodName("b");
    hide X.Lex, GoodName;
    R.LexSpace("b" + (":" + a));
    LexName("b", ":" + a);
    R.LexMark(':', a);
  }

  lemma JunkText(rest: string)
    ensures JUNK + rest == INDENT + ("MOV" + (" " + ("b" + (":" + (", " + ("a" + (":" + rest)))))))
  {
    assert "MOV" + (" " + ("b" + (":" + (", " + ("a" + (":" + rest)))))) == "MOV b:, a:" + rest;
  }

  lemma LexMov(operands: string)
    ensures X.Lex(INDENT + ("MOV" + (" " + operands))) == X.Before(X.Ident("MOV"), X.Lex(" " + operands))
  {
    assert !X.WordChar(' ', true);
    hide X.Lex, X.WordChar;
    LexIndent("MOV" + (" " + operands));
    LexMnemonic(I.MOV, " " + operands);
  }

  lemma LexJunk(rest: string)
    ensures X.Lex(JUNK + ("\n" + rest)) == X.Before(X.Ident("MOV"), X.Before(X.Ident("b"), X.Before(X.Colon,
              X.Lex(", " + ("a" + (":" + ("\n" + rest)))))))
  {
    var a := ", " + ("a" + (":" + ("\n" + rest)));
    hide X.Lex, X.Before;
    JunkText("\n" + rest);
    LexMov("b" + (":" + a));
    LexSpoiltOperand(a);
  }

  lemma JunkRefused(rest: string)
    ensures Refused(JUNK + ("\n" + rest))
  {
    hide X.Lex, P.ParseStmts;
    LexJunk(rest);
    var t := X.Lex(", " + ("a" + (":" + ("\n" + rest))));
    if t.Some? {
      MovNeedsRegisters([X.Colon] + t.value);
    }
  }

  lemma MovNeedsRegisters(ts: seq<X.Token>)
    ensures P.ParseStmts([X.Ident("MOV")] + ([X.Ident("b")] + ts)) == None
  {
    R.MnemonicFound(I.MOV);
    var ops := [X.Ident("b")] + ts;
    assert ([X.Ident("MOV")] + ops)[1..] == ops;
    hide P.FindMnemonic;
    assert P.ParseOperands(I.MOV, ops) == None;
  }

  lemma HeadThen(lines: seq<string>)
    ensures FileOf([HEADLINE] + lines) == HEADER + FileOf(lines)
  {
    assert ([HEADLINE] + lines)[0] == HEADLINE && ([HEADLINE] + lines)[1..] == lines;
    var t := FileOf(lines);
    assert HEADLINE + ("\n" + t) == HEADER + t;
  }

  lemma HeaderRefused(text: string)
    requires Refused(text)
    ensures E.Statements(HEADER + text) == None
  {
    hide P.ParseStmts, X.Lex;
    LexHeader(text);
    if X.Lex(text).Some? {
      RT.ParseNewline(X.Lex(text).value);
    }
  }

  lemma JunkFileRefused(code: seq<Line>)
    requires AllPrintable(code)
    ensures E.Statements(FileOf(Buffer(code) + [JUNK, Printed(ZERO)])) == None
  {
    var tail := [JUNK, Printed(ZERO)];
    assert Buffer(code) + tail == [HEADLINE] + (PrintedAll(code) + tail);
    assert FileOf(tail) == JUNK + ("\n" + FileOf(tail[1..]));
    hide FileOf, Buffer, PrintedAll, AllPrintable, Printed, Refused, E.Statements;
    HeadThen(PrintedAll(code) + tail);
    PrintedFileThen(code, tail);
    JunkRefused(FileOf(tail[1..]));
    RefusedThen(code, FileOf(tail));
    HeaderRefused(LinesThen(code, FileOf(tail)));
  }

  /** The assembler refuses the output file of every program whose only globals are these two. */
  lemma PairIsRefused(prog: Program)
    requires CG.Generate(prog).Ok? && GoodSource(prog, CG.Generate(prog).value) && prog.globals == PAIR
    ensures TextCompile(prog).Ok? && E.Statements(FileOf(TextCompile(prog).value)) == None
  {
    hide CG.Generate, GoodSource, TextOptimize, AllPrintable, FileOf, E.Statements, Buffer;
    var code := PairOutput(prog, CG.Generate(prog).value);
    JunkFileRefused(code);
  }

  // ----- One of them -----

  const STORE_SEVEN := ExprStmt(Assign(Var("POPb"), Int(7)))
  const RETURN_IT := Return(Some(Var("POPb")))
  const MAIN := Func("main", [], Block([STORE_SEVEN, RETURN_IT]))

  /** `int PUSHa[0]; int POPb; int main() { POPb = 7; return POPb; }` */
  const SPOILT: Program := Program(PAIR, [MAIN])

  ghost predicate AllSmall(lines: seq<Line>) { forall i :: 0 <= i < |lines| ==> SmallNumbers(lines[i]) }

  lemma SmallCat(a: seq<Line>, b: seq<Line>)
    requires AllSmall(a) && AllSmall(b)
    ensures AllSmall(a + b)
  {
    hide SmallNumbers;
  }

  lemma SpoiltPlaces()
    ensures CG.PlaceOf(CG.EnvOf(SPOILT, MAIN), "POPb") == Static(false) && TableOf(MAIN) == Table([], 0)
  {
    assert PAIR[1..] == [PAIR[1]] && GlobFind(PAIR, "POPb") == GlobFind(PAIR[1..], "POPb");
    var b := MAIN.body;
    var t := Table(ParamSymbols([]), 0);
    assert CollectBlock(b, 2, t) == t;
    assert CollectBlock(b, 1, t) == CollectBlock(b, 2, Collect(b.ss[1], t));
    assert CollectBlock(b, 0, t) == CollectBlock(b, 1, Collect(b.ss[0], t));
    assert ParamSymbols([]) == [];
  }

  lemma SpoiltBody()
    ensures var r := CG.GenStmt(CG.EnvOf(SPOILT, MAIN), MAIN.body, 0); r.Ok? && AllSmall(r.value.code)
  {
    var env := CG.EnvOf(SPOILT, MAIN);
    SpoiltPlaces();
    hide CG.EnvOf, TableOf, CG.PlaceOf;
    assert CG.GenExpr(env, Int(7), 0) == Ok(CG.Frag([Op(LoadI(0, 7))], 0));
    var store := CG.GenStmt(env, STORE_SEVEN, 0);
    assert store.Ok? && store.value.next == 0 && AllSmall(store.value.code);
    var back := CG.GenStmt(env, RETURN_IT, 0);
    assert back.Ok? && AllSmall(back.value.code);
    var b := MAIN.body;
    assert b.ss[0] == STORE_SEVEN && b.ss[1] == RETURN_IT;
    assert CG.GenBlock(env, b, 2, back.value.next) == Ok(CG.Frag([], back.value.next));
    assert CG.GenBlock(env, b, 1, 0) == Ok(CG.Frag(back.value.code + [], back.value.next));
    assert CG.GenBlock(env, b, 0, 0) == Ok(CG.Frag(store.value.code + (back.value.code + []), back.value.next));
    SmallCat(back.value.code, []);
    SmallCat(store.value.code, back.value.code + []);
  }

  lemma SpoiltGenerates()
    ensures CG.Generate(SPOILT).Ok? && AllSmall(CG.Generate(SPOILT).value)
  {
    SpoiltPlaces();
    SpoiltBody();
    PairData();
    var env := CG.EnvOf(SPOILT, MAIN);
    var body := CG.GenStmt(env, MAIN.body, 0).value;
    var head, pro, foot := [Lab(Named("main"))], CG.Prologue(0), [Lab(CG.EpilogueLabel("main"))] + CG.EPILOGUE;
    assert AllSmall(head) && AllSmall(pro) && AllSmall(foot) && AllSmall(CG.ENTRY);
    hide CG.GenStmt, SmallNumbers, TableOf, CG.GenGlobals;
    assert CG.GenFunction(SPOILT, MAIN, 0) == Ok(CG.Frag(head + (pro + (body.code + foot)), body.next));
    SmallCat(body.code, foot);
    SmallCat(pro, body.code + foot);
    SmallCat(head, pro + (body.code + foot));
    var f := head + (pro + (body.code + foot));
    assert CG.GenFunctions(SPOILT, 1, body.next) == Ok(CG.Frag([], body.next));
    assert SPOILT.funcs[0] == MAIN;
    assert CG.GenFunctions(SPOILT, 0, 0) == Ok(CG.Frag(f + [], body.next));
    assert f + [] == f;
    SpoiltData();
    SmallCat(f, [Lab(Named("PUSHa")), Lab(Named("POPb")), ZERO]);
    SmallCat(CG.ENTRY, f + [Lab(Named("PUSHa")), Lab(Named("POPb")), ZERO]);
  }

  lemma SpoiltData()
    ensures AllSmall([Lab(Named("PUSHa")), Lab(Named("POPb")), ZERO])
  {
  }

  lemma SpoiltNames()
    ensures SH.Names(SPOILT) == ["main", "main_epi", "PUSHa", "POPb"] && SH.NoDuplicates(SH.Names(SPOILT)) && GoodNames(SPOILT)
  {
    assert SPOILT.funcs[1..] == [] && PAIR[1..] == [PAIR[1]] && PAIR[1..][1..] == [];
    assert SH.FuncNames(SPOILT.funcs) == ["main", "main" + "_epi"] + [];
    assert SH.GlobNames(PAIR) == ["PUSHa"] + (["POPb"] + []);
    assert "main" + "_epi" == "main_epi";
    var names := SH.Names(SPOILT);
    assert names == ["main", "main_epi", "PUSHa", "POPb"];
    forall x | x in names ensures GoodName(x) && !LooksGenerated(x) {
      assert x[0] != '_';
      assert forall n: nat :: ("_L" + Isa.Decimal(n))[0] == '_';
    }
  }

  /** A program of good names and numbers whose output file the assembler refuses. */
  lemma SpoiltIsRefused()
    ensures CG.Generate(SPOILT).Ok? && GoodSource(SPOILT, CG.Generate(SPOILT).value) && !SafeGlobals(SPOILT.globals)
    ensures TextCompile(SPOILT).Ok? && E.Statements(FileOf(TextCompile(SPOILT).value)) == None
  {
    SpoiltGenerates();
    SpoiltNames();
    assert "PUSHa"[..4] == "PUSH" && "POPb"[..3] == "POP";
    hide CG.Generate, GoodNames, SmallNumbers, SH.Names, E.Statements, FileOf, TextOptimize;
    PairIsRefused(SPOILT);
  }
}
