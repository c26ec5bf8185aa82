/** The optimiser as it works: on lines of text, by scanf patterns that take any line which begins like an instruction for it. */
module TextPeephole {
  import opened Wrappers
  import opened M = Machine
  import opened Hardware
  import opened Linker
  import opened Emission
  import opened Balance
  import Isa
  import I = InstStream
  import X = AsmLexer
  import R = AsmReading
  import PH = Peephole
  import RW = Rewriting

  // ----- Scanning -----

  function SkipBlanks(s: string): string { if s != "" && s[0] == ' ' then SkipBlanks(s[1..]) else s }

  function SkipSpace(s: string): string { if s != "" && X.IsSpace(s[0]) then SkipSpace(s[1..]) else s }

  /** %<room>s */
  function Word(s: string, room: nat): (w: string)
    ensures |w| <= |s|
  {
    if s == "" || room == 0 || X.IsSpace(s[0]) then "" else [s[0]] + Word(s[1..], room - 1)
  }

  /** %<room>[^c] */
  function Until(s: string, c: char, room: nat): (w: string)
    ensures |w| <= |s|
  {
    if s == "" || room == 0 || s[0] == c then "" else [s[0]] + Until(s[1..], c, room - 1)
  }

  function NotEmpty(s: string): Option<string> { if s == "" then None else Some(s) }

  /** What follows a literal. */
  function Behind(literal: string, s: string): Option<string> { if literal <= s then Some(s[|literal|..]) else None }

  function PushOperand(s: string): Option<string> {
    var r :- Behind("PUSH", SkipBlanks(s));
    NotEmpty(Word(SkipSpace(r), 15))
  }

  function PopOperand(s: string): Option<string> {
    var r :- Behind("POP", SkipBlanks(s));
    NotEmpty(Word(SkipSpace(r), 15))
  }

  datatype Pair = Pair(a: string, b: string)

  function MovOperands(s: string): Option<Pair> {
    var r :- Behind("MOV", SkipBlanks(s));
    var t := SkipSpace(r);
    var a :- NotEmpty(Until(t, ',', 15));
    var u :- Behind(",", t[|a|..]);
    var b :- NotEmpty(Word(SkipSpace(u), 15));
    Some(Pair(a, b))
  }

  function Cell(s: string): Option<string> {
    var r :- Behind("[", s);
    NotEmpty(Until(r, ']', 63))
  }

  function StoredCell(s: string): Option<string> {
    var r :- Behind("STORE", SkipBlanks(s));
    Cell(SkipSpace(r))
  }

  function LoadedCell(s: string): Option<string> {
    var r :- Behind("LOAD", SkipBlanks(s));
    var t :- Behind("R0,", SkipSpace(r));
    Cell(SkipSpace(t))
  }

  predicate IsTarget(s: string) { s != "" && s[|s| - 1] == ':' }

  // ----- The pass -----

  predicate MovesItself(s: string) { MovOperands(s).Some? && MovOperands(s).value.a == MovOperands(s).value.b }

  predicate PushThenPop(s: string, t: string) { PushOperand(s).Some? && PopOperand(t).Some? }

  predicate StoreThenLoad(s: string, t: string) {
    !IsTarget(s) && !IsTarget(t) && StoredCell(s).Some? && StoredCell(s) == LoadedCell(t)
  }

  /** What stands for a push and a pop. */
  function Moved(s: string, t: string): seq<string>
    requires PushThenPop(s, t)
  {
    var a, b := PushOperand(s).value, PopOperand(t).value;
    if a == b then [] else [INDENT + ("MOV " + (b + (", " + a)))]
  }

  function TextEmit(out: seq<string>, cur: string): (r: seq<string>)
    ensures |r| <= |out| + 1
  {
    if MovesItself(cur) then out
    else if out != [] && PushThenPop(out[|out| - 1], cur) then out[..|out| - 1] + Moved(out[|out| - 1], cur)
    else if out != [] && StoreThenLoad(out[|out| - 1], cur) then out
    else out + [cur]
  }

  function TextPass(out: seq<string>, rest: seq<string>): (r: seq<string>)
    ensures |r| <= |out| + |rest|
    decreases |rest|
  {
    if rest == [] then out else TextPass(TextEmit(out, rest[0]), rest[1..])
  }

  /** Passes until one changes nothing. */
  function TextOptimize(lines: seq<string>): seq<string>
    decreases |lines|
  {
    var next := TextPass([], lines);
    if |next| < |lines| then TextOptimize(next) else next
  }

  // ----- What the patterns see in a printed line -----

  function Printed(l: Line): string { LineText(l, "") }

  function PrintedAll(lines: seq<Line>): (r: seq<string>)
    ensures |r| == |lines| && forall i :: 0 <= i < |lines| ==> r[i] == Printed(lines[i])
  {
    seq(|lines|, i requires 0 <= i < |lines| => Printed(lines[i]))
  }

  lemma {:induction false} WordIs(w: string, rest: string, room: nat)
    requires |w| <= room && (forall i :: 0 <= i < |w| ==> !X.IsSpace(w[i])) && (rest == "" || X.IsSpace(rest[0]))
    ensures Word(w + rest, room) == w
  {
    if w == "" {
      assert w + rest == rest;
    } else {
      assert (w + rest)[1..] == w[1..] + rest;
      WordIs(w[1..], rest, room - 1);
    }
  }

  lemma {:induction false} UntilIs(w: string, rest: string, c: char, room: nat)
    requires |w| <= room && (forall i :: 0 <= i < |w| ==> w[i] != c) && rest != "" && rest[0] == c
    ensures Until(w + rest, c, room) == w
  {
    if w == "" {
      assert w + rest == rest;
    } else {
      assert (w + rest)[1..] == w[1..] + rest;
      UntilIs(w[1..], rest, c, room - 1);
    }
  }

  lemma BehindIs(literal: string, rest: string)
    ensures Behind(literal, literal + rest) == Some(rest)
  {
  }

  lemma NotBehind(literal: string, s: string)
    requires 2 <= |literal| && 2 <= |s| && (literal[0] != s[0] || literal[1] != s[1])
    ensures Behind(literal, s) == None
  {
  }

  lemma Unindented(t: string)
    requires t != "" && t[0] != ' '
    ensures SkipBlanks(INDENT + t) == t && SkipBlanks(t) == t
  {
    var s := INDENT + t;
    assert s[1..][1..][1..][1..][1..][1..][1..][1..] == t;
    BlankFirst(s);
    BlankFirst(s[1..]);
    BlankFirst(s[1..][1..]);
    BlankFirst(s[1..][1..][1..]);
    BlankFirst(s[1..][1..][1..][1..]);
    BlankFirst(s[1..][1..][1..][1..][1..]);
    BlankFirst(s[1..][1..][1..][1..][1..][1..]);
    BlankFirst(s[1..][1..][1..][1..][1..][1..][1..]);
  }

  lemma BlankFirst(s: string)
    requires s != "" && s[0] == ' '
    ensures SkipBlanks(s) == SkipBlanks(s[1..])
  {
  }

  lemma OneSpace(t: string)
    requires t != "" && !X.IsSpace(t[0])
    ensures SkipSpace(" " + t) == t && SkipSpace(t) == t
  {
    assert (" " + t)[1..] == t;
  }

  lemma RegWord(r: I.Reg)
    ensures |Isa.RegName(r)| == 2 && Isa.RegName(r)[0] == 'R' && Isa.RegName(r)[1] != ',' && !X.IsSpace(Isa.RegName(r)[1])
    ensures Isa.RegName(r)[1] == '0' <==> r == 0
  {
  }

  lemma FirstTwo(op: I.Opcode)
    requires op != I.Illegal
    ensures var s := Isa.OpcodeName(op);
            && 2 <= |s| && s[0] != ' ' && s[0] != '.'
            && (s[0] == 'M' && s[1] == 'O' <==> op == I.MOV) && (s[0] == 'P' && s[1] == 'U' <==> op == I.PUSH)
            && (s[0] == 'P' && s[1] == 'O' <==> op == I.POP) && (s[0] == 'S' && s[1] == 'T' <==> op == I.STORE)
            && (s[0] == 'L' && s[1] == 'O' <==> op == I.LOAD || op == I.LOADI)
  {
  }

  /** An instruction's text and its mnemonic. */
  lemma InstrStarts(i: Instr) returns (rest: string)
    ensures InstrText(i, "") == Isa.OpcodeName(Shape(i).op) + rest
    ensures Target(i).None? ==> rest == Isa.OperandText(Shape(i), "")
    ensures SkipBlanks(Printed(Op(i))) == InstrText(i, "")
  {
    FirstTwo(Shape(i).op);
    rest := InstrText(i, "")[|Isa.OpcodeName(Shape(i).op)|..];
    hide Isa.OpcodeName, Isa.OperandText, LabelText;
    Unindented(InstrText(i, ""));
  }

  lemma OtherMnemonic(i: Instr, literal: string)
    requires 2 <= |literal|
    requires var s := Isa.OpcodeName(Shape(i).op); 2 <= |s| && (literal[0] != s[0] || literal[1] != s[1])
    ensures Behind(literal, SkipBlanks(Printed(Op(i)))) == None
  {
    var rest := InstrStarts(i);
    hide Isa.OpcodeName, Printed, InstrText, Behind;
    NotBehind(literal, Isa.OpcodeName(Shape(i).op) + rest);
  }

  // Pushes and pops.

  lemma PushSeen(l: Line)
    requires l.Op?
    ensures PushOperand(Printed(l)) == (if IsPush(l) then Some(Isa.RegName(l.i.rd)) else None)
    ensures PopOperand(Printed(l)) == (if IsPop(l) then Some(Isa.RegName(l.i.rd)) else None)
  {
    FirstTwo(Shape(l.i).op);
    var rest := InstrStarts(l.i);
    if IsPush(l) || IsPop(l) {
      var w := Isa.RegName(l.i.rd);
      assert rest == " " + w by { assert w + "" == w; }
      RegWord(l.i.rd);
      OneSpace(w);
      WordIs(w, "", 15);
      assert w + "" == w;
      if IsPush(l) {
        BehindIs("PUSH", rest);
        OtherMnemonic(l.i, "POP");
      } else {
        BehindIs("POP", rest);
        OtherMnemonic(l.i, "PUSH");
      }
    } else {
      hide Isa.OpcodeName, Printed;
      OtherMnemonic(l.i, "PUSH");
      OtherMnemonic(l.i, "POP");
    }
  }

  // Moves.

  lemma MovSeen(l: Line)
    requires l.Op?
    ensures MovOperands(Printed(l)) == if l.i.Mov? then Some(Pair(Isa.RegName(l.i.rd), Isa.RegName(l.i.rs))) else None
  {
    FirstTwo(Shape(l.i).op);
    if l.i.Mov? {
      var rest := InstrStarts(l.i);
      var a, b := Isa.RegName(l.i.rd), Isa.RegName(l.i.rs);
      assert b + "" == b;
      MovRead(rest, a, b);
      RegWord(l.i.rd);
      RegWord(l.i.rs);
    } else {
      hide Isa.OpcodeName, Printed;
      OtherMnemonic(l.i, "MOV");
    }
  }

  lemma MovRead(rest: string, a: string, b: string)
    requires rest == " " + (a + (", " + b)) && |a| == |b| == 2
    requires (forall i :: 0 <= i < 2 ==> a[i] != ',') && (forall i :: 0 <= i < 2 ==> !X.IsSpace(b[i])) && !X.IsSpace(a[0])
    ensures SkipSpace(rest) == a + (", " + b) && Until(a + (", " + b), ',', 15) == a
    ensures (a + (", " + b))[|a|..] == "," + (" " + b) && Behind(",", "," + (" " + b)) == Some(" " + b)
    ensures NotEmpty(Word(SkipSpace(" " + b), 15)) == Some(b)
  {
    OneSpace(a + (", " + b));
    UntilIs(a, ", " + b, ',', 15);
    BehindIs(",", " " + b);
    OneSpace(b);
    assert b + "" == b;
    WordIs(b, "", 15);
  }

  // Stores and loads.

  function CellText(base: I.Reg, off: int): string { Isa.RegName(base) + Isa.Offset(off) }

  lemma OffsetShort(off: int)
    requires R.IsInt32(off)
    ensures 2 <= |Isa.Offset(off)| <= 11 && forall i :: 0 <= i < |Isa.Offset(off)| ==> Isa.Offset(off)[i] != ']'
  {
    var n := if off < 0 then -off else off;
    R.IntIsShort(n);
    forall i | 0 <= i < |Isa.Offset(off)| ensures Isa.Offset(off)[i] != ']' {
      if i > 0 {
        R.DecimalDigits(n, i - 1);
      }
    }
    hide Isa.Decimal;
  }

  lemma OffsetInjective(a: int, b: int)
    requires Isa.Offset(a) == Isa.Offset(b)
    ensures a == b
  {
    var na, nb := if a < 0 then -a else a, if b < 0 then -b else b;
    hide Isa.Decimal;
    assert Isa.Offset(a)[0] == (if a < 0 then '-' else '+') && Isa.Offset(b)[0] == (if b < 0 then '-' else '+');
    assert Isa.Offset(a)[1..] == Isa.Decimal(na) && Isa.Offset(b)[1..] == Isa.Decimal(nb);
    R.DecimalInjective(na, nb);
  }

  lemma RegInjective(r: I.Reg, s: I.Reg)
    requires Isa.RegName(r) == Isa.RegName(s)
    ensures r == s
  {
    assert Isa.RegName(r)[1] == Isa.RegName(s)[1];
  }

  lemma CellInjective(r: I.Reg, a: int, s: I.Reg, b: int)
    requires CellText(r, a) == CellText(s, b)
    ensures r == s && a == b
  {
    hide Isa.Offset;
    RegWord(r);
    RegWord(s);
    assert CellText(r, a)[..2] == Isa.RegName(r) && CellText(s, b)[..2] == Isa.RegName(s);
    assert CellText(r, a)[2..] == Isa.Offset(a) && CellText(s, b)[2..] == Isa.Offset(b);
    RegInjective(r, s);
    OffsetInjective(a, b);
  }

  lemma CellTextPlain(base: I.Reg, off: int)
    requires R.IsInt32(off)
    ensures var c := CellText(base, off); 1 <= |c| <= 63 && forall i :: 0 <= i < |c| ==> c[i] != ']'
  {
    OffsetShort(off);
    RegWord(base);
    hide Isa.RegName, Isa.Offset;
  }

  lemma MemTextSplits(base: I.Reg, off: int, rest: string)
    ensures Isa.MemText(base, off, rest) == "[" + (CellText(base, off) + ("]" + rest))
  {
    var r, o := Isa.RegName(base), Isa.Offset(off);
    hide Isa.RegName, Isa.Offset;
    assert r + (o + ("]" + rest)) == (r + o) + ("]" + rest);
  }

  lemma CellRead(base: I.Reg, off: int, rest: string)
    requires R.IsInt32(off)
    ensures Cell(Isa.MemText(base, off, rest)) == Some(CellText(base, off)) && Isa.MemText(base, off, rest)[0] == '['
    ensures SkipSpace(" " + Isa.MemText(base, off, rest)) == Isa.MemText(base, off, rest)
  {
    var c := CellText(base, off);
    var s := Isa.MemText(base, off, rest);
    MemTextSplits(base, off, rest);
    hide Isa.RegName, Isa.Offset, Isa.MemText, CellText, Until, Behind, SkipSpace;
    assert s[0] == '[';
    BehindIs("[", c + ("]" + rest));
    CellTextPlain(base, off);
    UntilIs(c, "]" + rest, ']', 63);
    OneSpace(s);
  }

  lemma StoreSeen(l: Line)
    requires l.Op? && R.IsInt32(Shape(l.i).imm)
    ensures StoredCell(Printed(l)) == if l.i.Store? then Some(CellText(l.i.rd, l.i.off)) else None
  {
    FirstTwo(Shape(l.i).op);
    if l.i.Store? {
      var rest := InstrStarts(l.i);
      var tail := ", " + (Isa.RegName(l.i.rs) + "");
      assert rest == " " + Isa.MemText(l.i.rd, l.i.off, tail);
      hide Isa.MemText, Cell, InstrText, Printed, SkipBlanks, SkipSpace;
      BehindIs("STORE", rest);
      CellRead(l.i.rd, l.i.off, tail);
    } else {
      hide Isa.OpcodeName, Printed;
      OtherMnemonic(l.i, "STORE");
    }
  }

  lemma LoadSeen(l: Line)
    requires l.Op? && R.IsInt32(Shape(l.i).imm)
    ensures LoadedCell(Printed(l)) == if l.i.Load? && l.i.rd == 0 then Some(CellText(l.i.rs, l.i.off)) else None
  {
    if Shape(l.i).op == I.LOADI {
      AddressNoLoad(l.i);
    } else if l.i.Load? {
      var rest := InstrStarts(l.i);
      assert rest == " " + (Isa.RegName(l.i.rd) + (", " + Isa.MemText(l.i.rs, l.i.off, "")));
      hide Isa.MemText, Isa.RegName, CellText, Cell, SkipBlanks, SkipSpace, Printed, InstrText;
      BehindIs("LOAD", rest);
      LoadRead(rest, l.i.rd, l.i.rs, l.i.off);
    } else {
      FirstTwo(Shape(l.i).op);
      hide Isa.OpcodeName, Printed;
      OtherMnemonic(l.i, "LOAD");
    }
  }

  lemma AddressNoLoad(i: Instr)
    requires Shape(i).op == I.LOADI
    ensures LoadedCell(Printed(Op(i))) == None
  {
    var rest := InstrStarts(i);
    hide InstrText, Printed, SkipBlanks;
    assert "LOADI" + rest == "LOAD" + ("I" + rest);
    BehindIs("LOAD", "I" + rest);
    assert SkipSpace("I" + rest) == "I" + rest;
    NotBehind("R0,", "I" + (rest + "")) by { LongEnough(i, rest); }
  }

  lemma LongEnough(i: Instr, rest: string)
    requires Shape(i).op == I.LOADI && InstrText(i, "") == "LOADI" + rest
    ensures 1 <= |rest| && "I" + (rest + "") == "I" + rest
  {
    assert rest + "" == rest;
    assert |InstrText(i, "")| == 5 + |rest|;
  }

  lemma LoadRead(rest: string, d: I.Reg, s: I.Reg, off: int)
    requires rest == " " + (Isa.RegName(d) + (", " + Isa.MemText(s, off, ""))) && R.IsInt32(off)
    ensures (var t := Behind("R0,", SkipSpace(rest)); if t.None? then None else Cell(SkipSpace(t.value)))
         == if d == 0 then Some(CellText(s, off)) else None
  {
    var m := Isa.MemText(s, off, "");
    hide Isa.MemText, Cell, CellText;
    RegWord(d);
    OneSpace(Isa.RegName(d) + (", " + m));
    if d == 0 {
      assert Isa.RegName(d) + (", " + m) == "R0," + (" " + m);
      BehindIs("R0,", " " + m);
      CellRead(s, off, "");
    } else {
      NotBehind("R0,", Isa.RegName(d) + (", " + m));
    }
  }

  lemma LastOf(a: string, b: string)
    requires b != ""
    ensures a + b != "" && (a + b)[|a + b| - 1] == b[|b| - 1]
  {
  }

  lemma RegNoTarget(r: I.Reg)
    ensures !IsTarget(Isa.RegName(r)) && Isa.RegName(r) != ""
  {
  }

  /** A cell and what follows it end as what follows, or in the bracket. */
  lemma MemEnds(base: I.Reg, off: int, rest: string)
    requires !IsTarget(rest)
    ensures var s := Isa.MemText(base, off, rest); s != "" && !IsTarget(s)
  {
    hide Isa.RegName, Isa.Offset;
    var tail := "]" + rest;
    if rest == "" {
      assert tail == "]";
    } else {
      LastOf("]", rest);
    }
    LastOf(Isa.Offset(off), tail);
    LastOf(Isa.RegName(base), Isa.Offset(off) + tail);
    LastOf("[", Isa.RegName(base) + (Isa.Offset(off) + tail));
  }

  lemma StoreNoTarget(d: I.Reg, off: int, r: I.Reg)
    ensures !IsTarget(Printed(Op(Instr.Store(d, off, r))))
  {
    var tail := ", " + (Isa.RegName(r) + "");
    var m := Isa.MemText(d, off, tail);
    assert Printed(Op(Instr.Store(d, off, r))) == INDENT + ("STORE" + (" " + m));
    assert Isa.RegName(r) + "" == Isa.RegName(r);
    RegNoTarget(r);
    hide Isa.RegName, Isa.MemText, IsTarget, Printed;
    EndsAs(", ", Isa.RegName(r));
    MemEnds(d, off, tail);
    EndsAs(" ", m);
    EndsAs("STORE", " " + m);
    EndsAs(INDENT, "STORE" + (" " + m));
  }

  lemma LoadNoTarget(d: I.Reg, r: I.Reg, off: int)
    ensures !IsTarget(Printed(Op(Load(d, r, off))))
  {
    var m := Isa.MemText(r, off, "");
    var u := Isa.RegName(d) + (", " + m);
    assert Printed(Op(Load(d, r, off))) == INDENT + ("LOAD" + (" " + u));
    NoTargetNothing();
    hide Isa.RegName, Isa.MemText, IsTarget, Printed;
    MemEnds(r, off, "");
    EndsAs(", ", m);
    EndsAs(Isa.RegName(d), ", " + m);
    EndsAs(" ", u);
    EndsAs("LOAD", " " + u);
    EndsAs(INDENT, "LOAD" + (" " + u));
  }

  lemma NoTargetNothing()
    ensures !IsTarget("")
  {
  }

  lemma EndsAs(a: string, b: string)
    requires b != "" && !IsTarget(b)
    ensures a + b != "" && !IsTarget(a + b)
  {
    LastOf(a, b);
  }

  // Labels and data.

  lemma LabelSeen(l: Line)
    requires l.Lab? && Printable(l)
    ensures MovOperands(Printed(l)) == None && IsTarget(Printed(l))
    ensures PushOperand(Printed(l)).Some? <==> PushLabel(l)
    ensures PopOperand(Printed(l)).Some? <==> PopLabel(l)
  {
    var t := LabelText(l.l);
    var s := t + ":";
    assert Printed(l) == s by { assert ":" + "" == ":"; }
    assert forall i :: 0 <= i < |s| ==> !X.IsSpace(s[i]) && s[i] != ',';
    LastOf(t, ":");
    assert SkipBlanks(s) == s;
    SpellsLike("PUSH", t);
    SpellsLike("POP", t);
    SpellsLike("MOV", t);
    if l.l.Local? {
      assert t[0] == '_';
    }
  }

  /** A name in front of its colon, and whether it begins like a mnemonic. */
  lemma SpellsLike(m: string, t: string)
    requires t != "" && m in {"PUSH", "POP", "MOV"}
    requires forall i :: 0 <= i < |t| ==> !X.IsSpace(t[i]) && t[i] != ','
    ensures var b := Behind(m, t + ":");
            && (b.Some? <==> m <= t)
            && (b.Some? ==> b.value != "" && NotEmpty(Word(SkipSpace(b.value), 15)).Some?
                            && forall k :: 0 <= k <= |SkipSpace(b.value)| ==> Behind(",", SkipSpace(b.value)[k..]) == None)
  {
    var s := t + ":";
    if m <= s {
      assert s[|m| - 1] == m[|m| - 1];
      assert m <= t by { assert forall i :: 0 <= i < |m| ==> s[i] == m[i]; }
      var r := s[|m|..];
      assert r != "" && !X.IsSpace(r[0]);
      assert SkipSpace(r) == r;
    }
  }

  lemma DataSeen(l: Line)
    requires l.Data?
    ensures MovOperands(Printed(l)) == None && PushOperand(Printed(l)) == None && PopOperand(Printed(l)) == None
    ensures StoredCell(Printed(l)) == None && LoadedCell(Printed(l)) == None
  {
    var t := ".word" + (" " + (Isa.SignedDecimal(l.w) + ""));
    hide Isa.SignedDecimal;
    Unindented(t);
    assert t[0] == '.';
    NotBehind("PUSH", t);
    NotBehind("POP", t);
    NotBehind("MOV", t);
    NotBehind("STORE", t);
    NotBehind("LOAD", t);
  }

  // ----- On quiet code the patterns see what the lines mean -----

  lemma SelfMoveSeen(l: Line)
    requires Printable(l)
    ensures MovesItself(Printed(l)) <==> RW.SelfMove(l)
  {
    hide Printed, MovOperands, Isa.RegName, Printable;
    if l.Op? {
      MovSeen(l);
      if l.i.Mov? && Isa.RegName(l.i.rd) == Isa.RegName(l.i.rs) {
        RegInjective(l.i.rd, l.i.rs);
      }
    } else if l.Data? {
      DataSeen(l);
    } else {
      LabelSeen(l);
    }
  }

  lemma StackSeen(l: Line)
    requires Printable(l)
    ensures PushOperand(Printed(l)).Some? <==> IsPush(l) || PushLabel(l)
    ensures PopOperand(Printed(l)).Some? <==> IsPop(l) || PopLabel(l)
    ensures IsPush(l) ==> PushOperand(Printed(l)) == Some(Isa.RegName(l.i.rd))
    ensures IsPop(l) ==> PopOperand(Printed(l)) == Some(Isa.RegName(l.i.rd))
  {
    hide Printed, PushOperand, PopOperand, Printable, Isa.RegName;
    if l.Op? {
      PushSeen(l);
    } else if l.Data? {
      DataSeen(l);
    } else {
      LabelSeen(l);
    }
  }

  lemma MoveMade(a: I.Reg, b: I.Reg)
    ensures INDENT + ("MOV " + (Isa.RegName(b) + (", " + Isa.RegName(a)))) == Printed(Op(Mov(b, a)))
  {
    var ra, rb := Isa.RegName(a), Isa.RegName(b);
    assert ra + "" == ra;
    assert Printed(Op(Mov(b, a))) == INDENT + ("MOV" + (" " + (rb + (", " + (ra + "")))));
    hide Isa.RegName, Printed;
    assert "MOV " + (rb + (", " + ra)) == "MOV" + (" " + (rb + (", " + ra)));
  }

  lemma PairSeen(x: Line, y: Line)
    requires Printable(x) && Printable(y) && !Tempting(x, y)
    ensures PushThenPop(Printed(x), Printed(y)) <==> RW.PushPop(x, y)
    ensures RW.PushPop(x, y) ==>
              Moved(Printed(x), Printed(y)) == PrintedAll(if x.i.rd == y.i.rd then [] else [Op(Mov(y.i.rd, x.i.rd))])
  {
    hide Printed, PushOperand, PopOperand, Printable, Isa.RegName;
    StackSeen(x);
    StackSeen(y);
    if RW.PushPop(x, y) {
      MoveMade(x.i.rd, y.i.rd);
      if Isa.RegName(x.i.rd) == Isa.RegName(y.i.rd) {
        RegInjective(x.i.rd, y.i.rd);
      }
    }
  }

  lemma CellSeen(l: Line)
    requires Printable(l)
    ensures l.Lab? ==> IsTarget(Printed(l))
    ensures l.Op? && (l.i.Store? || l.i.Load?) ==> !IsTarget(Printed(l))
    ensures !l.Lab? ==> StoredCell(Printed(l)) == if l.Op? && l.i.Store? then Some(CellText(l.i.rd, l.i.off)) else None
    ensures !l.Lab? ==> LoadedCell(Printed(l)) == if l.Op? && l.i.Load? && l.i.rd == 0 then Some(CellText(l.i.rs, l.i.off)) else None
  {
    hide Printed, StoredCell, LoadedCell, IsTarget, CellText;
    if l.Op? {
      StoreSeen(l);
      LoadSeen(l);
      if l.i.Store? {
        StoreNoTarget(l.i.rd, l.i.off, l.i.rs);
      } else if l.i.Load? {
        LoadNoTarget(l.i.rd, l.i.rs, l.i.off);
      }
    } else if l.Data? {
      DataSeen(l);
    } else {
      LabelSeen(l);
    }
  }

  lemma ReloadSeen(x: Line, y: Line)
    requires Printable(x) && Printable(y)
    ensures StoreThenLoad(Printed(x), Printed(y)) <==> RW.StoreLoad(x, y)
  {
    hide Printed, StoredCell, LoadedCell, IsTarget, CellText, Printable;
    CellSeen(x);
    CellSeen(y);
    if x.Op? && x.i.Store? && y.Op? && y.i.Load? && CellText(x.i.rd, x.i.off) == CellText(y.i.rs, y.i.off) {
      CellInjective(x.i.rd, x.i.off, y.i.rs, y.i.off);
    }
  }

  /** The comment line the buffer starts with. */
  const HEADLINE := "; generated by mcc"

  lemma HeadSeen()
    ensures MovOperands(HEADLINE) == None && PushOperand(HEADLINE) == None && StoredCell(HEADLINE) == None
  {
    Unindented(HEADLINE);
    NotBehind("MOV", HEADLINE);
    NotBehind("PUSH", HEADLINE);
    NotBehind("STORE", HEADLINE);
  }

  /** The text buffer for some lines. */
  function Buffer(lines: seq<Line>): (r: seq<string>)
    ensures |r| == |lines| + 1
  {
    [HEADLINE] + PrintedAll(lines)
  }

  lemma BufferEnds(out: seq<Line>, cur: Line)
    ensures Buffer(out + [cur]) == Buffer(out) + [Printed(cur)]
    ensures Buffer(out)[|out|] == if out == [] then HEADLINE else Printed(out[|out| - 1])
    ensures out != [] ==> Buffer(out)[..|out|] == Buffer(out[..|out| - 1])
  {
    hide Printed;
  }

  ghost predicate AllPrintable(lines: seq<Line>) { forall i :: 0 <= i < |lines| ==> Printable(lines[i]) }

  lemma EmitMatches(out: seq<Line>, cur: Line)
    requires AllPrintable(out) && Printable(cur) && (out != [] ==> !Tempting(out[|out| - 1], cur))
    ensures TextEmit(Buffer(out), Printed(cur)) == Buffer(PH.Emit(out, cur))
  {
    SelfMoveSeen(cur);
    BufferEnds(out, cur);
    if out == [] {
      HeadSeen();
      hide MovesItself, PushOperand, StoredCell, Printed, Buffer;
    } else {
      var last := out[|out| - 1];
      PairSeen(last, cur);
      ReloadSeen(last, cur);
      hide MovesItself, PushThenPop, StoreThenLoad, Printed, Buffer, Moved, Tempting, Printable;
      if RW.PushPop(last, cur) && !RW.SelfMove(cur) {
        BufferAdds(out[..|out| - 1], if last.i.rd == cur.i.rd then [] else [Op(Mov(cur.i.rd, last.i.rd))]);
      }
    }
  }

  lemma BufferAdds(a: seq<Line>, b: seq<Line>)
    ensures Buffer(a + b) == Buffer(a) + PrintedAll(b)
  {
    hide Printed;
  }

  lemma EmitPrintable(out: seq<Line>, cur: Line)
    requires AllPrintable(out) && Printable(cur)
    ensures AllPrintable(PH.Emit(out, cur))
  {
  }

  lemma {:induction false} PassMatches(out: seq<Line>, rest: seq<Line>)
    requires AllPrintable(out) && AllPrintable(rest) && Quiet(out + rest)
    ensures TextPass(Buffer(out), PrintedAll(rest)) == Buffer(PH.Pass(out, rest))
    ensures AllPrintable(PH.Pass(out, rest)) && Quiet(PH.Pass(out, rest))
    decreases |rest|
  {
    hide TextEmit, Buffer, Printed, Printable, PH.Emit, Quiet, Tempting;
    if rest == [] {
      assert out + rest == out;
      assert PrintedAll(rest) == [];
    } else {
      assert out + rest == out + ([rest[0]] + rest[1..]);
      if out != [] {
        NotTempted(out, rest[0], rest[1..]);
      }
      EmitMatches(out, rest[0]);
      EmitQuiet(out, rest[0], rest[1..]);
      EmitPrintable(out, rest[0]);
      PassMatches(PH.Emit(out, rest[0]), rest[1..]);
      assert PrintedAll(rest)[0] == Printed(rest[0]) && PrintedAll(rest)[1..] == PrintedAll(rest[1..]);
    }
  }

  lemma HeadFirst(lines: seq<string>)
    ensures TextPass([], [HEADLINE] + lines) == TextPass([HEADLINE], lines)
  {
    HeadSeen();
    assert ([HEADLINE] + lines)[0] == HEADLINE && ([HEADLINE] + lines)[1..] == lines;
    assert TextEmit([], HEADLINE) == [HEADLINE];
  }

  /** On quiet code the text pass is the line pass. */
  lemma {:induction false} OptimizeMatches(lines: seq<Line>)
    requires AllPrintable(lines) && Quiet(lines)
    ensures TextOptimize(Buffer(lines)) == Buffer(PH.Optimize(lines))
    decreases |lines|
  {
    hide TextPass, PH.Pass, Printed, AllPrintable, Quiet;
    PH.PassShrinks([], lines);
    assert [] + lines == lines;
    HeadFirst(PrintedAll(lines));
    NothingPrinted();
    PassMatches([], lines);
    if |PH.Pass([], lines)| < |lines| {
      OptimizeMatches(PH.Pass([], lines));
    }
  }

  lemma NothingPrinted()
    ensures Buffer([]) == [HEADLINE] && AllPrintable([])
  {
  }
}
