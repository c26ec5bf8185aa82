/** Names and numbers that survive printing: what the assembler can read back. */
module Naming {
  import opened Wrappers
  import opened M = Machine
  import opened CAst
  import opened Hardware
  import opened Linker
  import opened Emission
  import Isa
  import X = AsmLexer
  import R = AsmReading
  import CG = CodeGen
  import CL = Closure
  import PH = Peephole
  import SH = CodeShape

  /** Sizes of the C types behind a line: 20-bit immediates, long data, int label numbers. */
  predicate SmallNumbers(l: Line) {
    match l
    case Op(i) => Isa.IMM_MIN <= Shape(i).imm <= Isa.IMM_MAX
    case Data(w) => -X.LONG_MAX <= w <= X.LONG_MAX
    case Lab(x) => x.Local? ==> x.id < 0x8000_0000
  }

  ghost predicate LooksGenerated(x: string) { exists n: nat :: x == "_L" + Isa.Decimal(n) }

  /** The program's names are identifiers, and neither registers nor labels the generator numbers. */
  ghost predicate GoodNames(prog: Program) {
    forall x :: x in SH.Names(prog) ==> GoodName(x) && !LooksGenerated(x)
  }

  lemma LocalIsGood(n: nat)
    requires n < 0x8000_0000
    ensures GoodName("_L" + Isa.Decimal(n))
  {
    var s := "_L" + Isa.Decimal(n);
    R.IntIsShort(n);
    forall i | 0 <= i < |s| ensures X.WordChar(s[i], true) {
      if i >= 2 {
        R.DecimalDigits(n, i - 2);
      }
    }
    hide Isa.Decimal;
  }

  /** A label of the program and how it is spelt. */
  ghost predicate Defined(prog: Program, l: Label) {
    if l.Named? then l.text in SH.Names(prog) else l.id < 0x8000_0000
  }

  lemma DefinedIsGood(prog: Program, l: Label)
    requires GoodNames(prog) && Defined(prog, l)
    ensures GoodName(LabelText(l))
  {
    hide GoodName;
    if l.Local? {
      LocalIsGood(l.id);
    }
  }

  lemma NotGenerated(prog: Program, x: string, n: nat)
    requires GoodNames(prog) && x in SH.Names(prog)
    ensures x != "_L" + Isa.Decimal(n)
  {
    hide GoodName, Isa.Decimal;
  }

  lemma SpeltApart(prog: Program, a: Label, b: Label)
    requires GoodNames(prog) && Defined(prog, a) && Defined(prog, b) && LabelText(a) == LabelText(b)
    ensures a == b
  {
    hide GoodName, Isa.Decimal;
    if a.Local? && b.Local? {
      assert LabelText(a)[2..] == Isa.Decimal(a.id) && LabelText(b)[2..] == Isa.Decimal(b.id);
      R.DecimalInjective(a.id, b.id);
    } else if a.Local? {
      NotGenerated(prog, b.text, a.id);
    } else if b.Local? {
      NotGenerated(prog, a.text, b.id);
    }
  }

  lemma AllApart(prog: Program, lines: seq<Line>, l: Label)
    requires GoodNames(prog) && Defined(prog, l) && forall x :: Lab(x) in lines ==> Defined(prog, x)
    ensures OnlyOne(lines, l)
  {
    hide GoodNames, Defined, LabelText;
    forall i | 0 <= i < |lines| && lines[i].Lab? && LabelText(lines[i].l) == LabelText(l) ensures lines[i].l == l {
      assert Lab(lines[i].l) in lines;
      SpeltApart(prog, lines[i].l, l);
    }
  }

  /** Lines of a program whose names and numbers are good. */
  ghost predicate WellNamed(prog: Program, lines: seq<Line>) {
    && GoodNames(prog) && CL.Bound(lines, {})
    && (forall i :: 0 <= i < |lines| ==> SmallNumbers(lines[i]))
    && forall l :: Lab(l) in lines ==> Defined(prog, l)
  }

  lemma WellNamedPrints(prog: Program, lines: seq<Line>)
    requires WellNamed(prog, lines)
    ensures Spelt(lines) && forall i :: 0 <= i < |lines| ==> Printable(lines[i])
  {
    hide GoodNames, Defined, LabelText, GoodName, Isa.Decimal;
    forall i | 0 <= i < |lines| ensures Printable(lines[i]) {
      if lines[i].Lab? {
        assert Lab(lines[i].l) in lines;
        DefinedIsGood(prog, lines[i].l);
      } else if lines[i].Op? && Target(lines[i].i).Some? {
        DefinedIsGood(prog, Target(lines[i].i).value);
      }
    }
    forall i | 0 <= i < |lines| && lines[i].Op? && Target(lines[i].i).Some? ensures OnlyOne(lines, Target(lines[i].i).value) {
      AllApart(prog, lines, Target(lines[i].i).value);
    }
  }

  /** Good names and small numbers of the generated lines. */
  ghost predicate GoodSource(prog: Program, raw: seq<Line>) {
    && CG.Generate(prog) == Ok(raw) && SH.NoDuplicates(SH.Names(prog)) && GoodNames(prog)
    && forall i :: 0 <= i < |raw| ==> SmallNumbers(raw[i])
  }

  lemma GeneratedWellNamed(prog: Program, raw: seq<Line>)
    requires GoodSource(prog, raw)
    ensures WellNamed(prog, raw)
  {
    SH.GeneratedLabelsUnique(prog);
    CL.GeneratedIsClosed(prog);
    hide CG.Generate, CL.Bound, GoodNames, SH.NoDuplicates, SH.Names, SH.Guarded;
    forall l | Lab(l) in raw ensures Defined(prog, l) {
      var i :| 0 <= i < |raw| && raw[i] == Lab(l);
      SH.LabelIn(raw, i);
      assert SmallNumbers(raw[i]);
    }
  }

  lemma EmitSmall(out: seq<Line>, cur: Line)
    requires (forall i :: 0 <= i < |out| ==> SmallNumbers(out[i])) && SmallNumbers(cur)
    ensures forall i :: 0 <= i < |PH.Emit(out, cur)| ==> SmallNumbers(PH.Emit(out, cur)[i])
  {
  }

  lemma {:induction false} PassSmall(out: seq<Line>, rest: seq<Line>)
    requires (forall i :: 0 <= i < |out| ==> SmallNumbers(out[i])) && forall i :: 0 <= i < |rest| ==> SmallNumbers(rest[i])
    ensures forall i :: 0 <= i < |PH.Pass(out, rest)| ==> SmallNumbers(PH.Pass(out, rest)[i])
    decreases |rest|
  {
    hide PH.Emit, SmallNumbers;
    if rest != [] {
      EmitSmall(out, rest[0]);
      PassSmall(PH.Emit(out, rest[0]), rest[1..]);
    }
  }

  lemma {:induction false} OptimizeSmall(lines: seq<Line>)
    requires forall i :: 0 <= i < |lines| ==> SmallNumbers(lines[i])
    ensures forall i :: 0 <= i < |PH.Optimize(lines)| ==> SmallNumbers(PH.Optimize(lines)[i])
    decreases |lines|
  {
    hide PH.Pass, SmallNumbers;
    PH.PassShrinks([], lines);
    PassSmall([], lines);
    if |PH.Pass([], lines)| < |lines| {
      OptimizeSmall(PH.Pass([], lines));
    }
  }

  lemma OptimizedWellNamed(prog: Program, raw: seq<Line>)
    requires WellNamed(prog, raw)
    ensures WellNamed(prog, PH.Optimize(raw))
  {
    hide CL.Bound, GoodNames, Defined, SmallNumbers, PH.Optimize;
    OptimizeSmall(raw);
    CL.OptimizeKept(raw);
    CL.KeptBound(raw, PH.Optimize(raw));
  }
}
