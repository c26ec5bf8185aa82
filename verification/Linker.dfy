/** What the assembler makes of generated lines: every label at its line's address, every word in its place. */
module Linker {
  import opened Words
  import opened Wrappers
  import opened M = Machine
  import opened Hardware
  import opened Isa
  import P = AsmParser
  import E = AsmEncoder
  import B = AsmRoundTrip
  import L = Loader
  import C = WordCpu
  import CR = CodeRuns

  /** Labels as they are spelt. */
  function LabelText(l: Label): string {
    match l
    case Local(n) => "_L" + Decimal(n)
    case Named(x) => x
  }

  function TargetText(i: Instr): Option<string> {
    match Target(i)
    case None => None
    case Some(l) => Some(LabelText(l))
  }

  /** The statement a line is for the assembler. */
  function StmtOf(l: Line): (s: P.Stmt)
    ensures P.Proper(s)
  {
    match l
    case Lab(x) => P.Label(LabelText(x))
    case Op(i) => P.Instr(Shape(i), TargetText(i))
    case Data(w) => P.Data(Wrap(w), None)
  }

  function StmtsOf(lines: seq<Line>): (ss: seq<P.Stmt>)
    ensures |ss| == |lines| && forall i :: 0 <= i < |lines| ==> ss[i] == StmtOf(lines[i])
  {
    if lines == [] then [] else [StmtOf(lines[0])] + StmtsOf(lines[1..])
  }

  /** No label of the lines is spelt like l but l itself. */
  ghost predicate OnlyOne(lines: seq<Line>, l: Label) {
    forall i :: 0 <= i < |lines| && lines[i].Lab? && LabelText(lines[i].l) == LabelText(l) ==> lines[i].l == l
  }

  // ----- Pass 1 -----

  lemma {:induction false} LookupAdds(syms: seq<E.Symbol>, s: E.Symbol, x: string)
    ensures E.Lookup(syms + [s], x)
         == if E.Lookup(syms, x).Some? then E.Lookup(syms, x) else if s.name == x then Some(s.addr) else None
  {
    if syms == [] {
      assert syms + [s] == [s] && [s][1..] == [];
    } else {
      assert (syms + [s])[1..] == syms[1..] + [s];
      LookupAdds(syms[1..], s, x);
    }
  }

  lemma {:induction false} PlacesGrow(lines: seq<Line>, j: nat, k: nat)
    requires j <= k <= |lines|
    ensures LineAddress(lines, j) <= LineAddress(lines, k) && (j < k && !lines[j].Lab? ==> LineAddress(lines, j) + 4 <= LineAddress(lines, k))
    decreases k
  {
    if j < k {
      hide LineAddress;
      PlacesGrow(lines, j, k - 1);
      NextPlace(lines, k - 1);
    }
  }

  lemma EndPlace(lines: seq<Line>)
    ensures LineAddress(lines, |lines|) == L.ByteCount(lines) && LineAddress(lines, 0) == 0
  {
    assert lines[..|lines|] == lines;
  }

  /** Addresses count the words in front, and the image ends with them. */
  lemma {:induction false} LayoutPlaces(lines: seq<Line>, k: nat)
    requires k <= |lines| && L.ByteCount(lines) < TWO32
    ensures var p := E.Layout(StmtsOf(lines), k); p.addr == p.top == LineAddress(lines, k) && LineAddress(lines, k) % 4 == 0
  {
    hide E.Layout, E.Locate, LineAddress, L.ByteCount, StmtsOf, StmtOf;
    if k == 0 {
      EndPlace(lines);
      E.LayoutStart(StmtsOf(lines));
    } else {
      LayoutPlaces(lines, k - 1);
      PlaceBelow(lines, k);
      E.LayoutStep(StmtsOf(lines), k - 1);
      NextPlace(lines, k - 1);
      Located(E.Layout(StmtsOf(lines), k - 1), lines[k - 1]);
    }
  }

  lemma PlaceBelow(lines: seq<Line>, k: nat)
    requires k <= |lines|
    ensures LineAddress(lines, k) <= L.ByteCount(lines)
  {
    EndPlace(lines);
    PlacesGrow(lines, k, |lines|);
  }

  lemma Located(p: E.Place, l: Line)
    requires p.addr == p.top && p.addr % 4 == 0 && p.addr + L.Span(l) < TWO32
    ensures var q := E.Locate(p, StmtOf(l)); q.addr == q.top == p.addr + L.Span(l)
    ensures E.Locate(p, StmtOf(l)).syms == p.syms + if l.Lab? then [E.Symbol(LabelText(l.l), p.addr)] else []
  {
    hide LabelText, Shape, TargetText;
    if !l.Lab? {
      WrapIdentity(p.addr + 4);
    }
  }

  lemma SymsStep(lines: seq<Line>, k: nat)
    requires k < |lines| && L.ByteCount(lines) < TWO32
    ensures E.Layout(StmtsOf(lines), k + 1).syms
         == E.Layout(StmtsOf(lines), k).syms
            + if lines[k].Lab? then [E.Symbol(LabelText(lines[k].l), Wrap(LineAddress(lines, k)))] else []
  {
    LayoutPlaces(lines, k);
    PlaceBelow(lines, k + 1);
    E.LayoutStep(StmtsOf(lines), k);
    hide LineAddress, E.Layout, L.ByteCount, LabelText, StmtOf;
    NextPlace(lines, k);
    WrapIdentity(LineAddress(lines, k));
    Located(E.Layout(StmtsOf(lines), k), lines[k]);
  }

  /** The symbol table knows a label from its line on. */
  lemma {:induction false} LookupFinds(lines: seq<Line>, l: Label, k: nat)
    requires k <= |lines| && L.ByteCount(lines) < TWO32 && OnlyOne(lines, l)
    ensures E.Lookup(E.Layout(StmtsOf(lines), k).syms, LabelText(l))
         == if Find(lines, l) < k then Some(Wrap(LineAddress(lines, Find(lines, l)))) else None
  {
    hide LineAddress, E.Layout, StmtsOf, LabelText, L.ByteCount, Wrap, OnlyOne;
    if k == 0 {
      E.LayoutStart(StmtsOf(lines));
    } else {
      LookupFinds(lines, l, k - 1);
      SymsStep(lines, k - 1);
      LookupNext(lines, l, k - 1, E.Layout(StmtsOf(lines), k - 1).syms, E.Layout(StmtsOf(lines), k).syms);
    }
  }

  lemma LookupNext(lines: seq<Line>, l: Label, k: nat, syms: seq<E.Symbol>, syms': seq<E.Symbol>)
    requires k < |lines| && OnlyOne(lines, l)
    requires syms' == syms + if lines[k].Lab? then [E.Symbol(LabelText(lines[k].l), Wrap(LineAddress(lines, k)))] else []
    requires E.Lookup(syms, LabelText(l)) == if Find(lines, l) < k then Some(Wrap(LineAddress(lines, Find(lines, l)))) else None
    ensures E.Lookup(syms', LabelText(l)) == if Find(lines, l) <= k then Some(Wrap(LineAddress(lines, Find(lines, l)))) else None
  {
    hide LineAddress, LabelText, Wrap;
    if lines[k].Lab? {
      LookupAdds(syms, E.Symbol(LabelText(lines[k].l), Wrap(LineAddress(lines, k))), LabelText(l));
    } else {
      assert syms' == syms;
    }
  }

  lemma LinesReady(lines: seq<Line>)
    requires L.ByteCount(lines) < TWO32 - 4
    ensures E.Ready(StmtsOf(lines))
  {
    var ss := StmtsOf(lines);
    hide L.ByteCount, LineAddress, E.Layout;
    EndPlace(lines);
    forall k | 0 <= k < |ss| ensures E.FitsAt(ss, k) {
      LayoutPlaces(lines, k);
      PlacesGrow(lines, k, |lines|);
    }
  }

  // ----- Pass 2 -----

  /** The word of line j in the image. */
  ghost predicate WordOk(lines: seq<Line>, j: nat, w: Word)
    requires j < |lines|
  {
    match lines[j]
    case Lab(_) => true
    case Op(i) => (Target(i).Some? ==> Find(lines, Target(i).value) < |lines|) && Decode(w) == Resolved(lines, i)
    case Data(v) => w == Wrap(v)
  }

  ghost predicate Spelt(lines: seq<Line>) {
    forall i :: 0 <= i < |lines| && lines[i].Op? && Target(lines[i].i).Some? ==> OnlyOne(lines, Target(lines[i].i).value)
  }

  lemma EncodedOk(lines: seq<Line>, j: nat)
    requires j < |lines| && !lines[j].Lab? && L.ByteCount(lines) <= IMM_MAX && Spelt(lines)
    requires E.EncodeStmt(StmtOf(lines[j]), E.Layout(StmtsOf(lines), |lines|).syms).Some?
    ensures WordOk(lines, j, E.EncodeStmt(StmtOf(lines[j]), E.Layout(StmtsOf(lines), |lines|).syms).value)
  {
    var syms := E.Layout(StmtsOf(lines), |lines|).syms;
    hide E.Layout, StmtsOf, LabelText, Encode, Decode, LineAddress, L.ByteCount, Find;
    if lines[j].Op? {
      var i := lines[j].i;
      if Target(i).Some? {
        var l := Target(i).value;
        LookupFinds(lines, l, |lines|);
        EndPlace(lines);
        PlacesGrow(lines, Find(lines, l), |lines|);
        WrapIdentity(LineAddress(lines, Find(lines, l)));
        AddressSmall(LineAddress(lines, Find(lines, l)));
      }
      hide TargetText;
      DecodeOfEncode(Resolved(lines, i));
    }
  }

  lemma AddressSmall(a: Word)
    requires a <= IMM_MAX
    ensures P.ToInt32(a) == a
  {
  }

  // ----- The image -----

  ghost predicate ImageHolds(lines: seq<Line>, k: nat, b: seq<E.Byte>)
    requires k <= |lines|
  {
    forall j :: 0 <= j < k && !lines[j].Lab? ==> LineAddress(lines, j) + 4 <= |b| && WordOk(lines, j, B.WordAt(b, LineAddress(lines, j)))
  }

  lemma FillStep(lines: seq<Line>, k: nat, b: seq<E.Byte>, w: Word)
    requires k < |lines| && !lines[k].Lab? && ImageHolds(lines, k, b) && WordOk(lines, k, w) && L.ByteCount(lines) == |b|
    requires LineAddress(lines, k) + 4 <= |b| && LineAddress(lines, k) % 4 == 0
    requires forall j :: 0 <= j < k ==> LineAddress(lines, j) % 4 == 0
    ensures ImageHolds(lines, k + 1, E.Put(b, LineAddress(lines, k), w))
  {
    hide WordOk, LineAddress, B.WordAt, E.Put;
    forall j | 0 <= j < k + 1 && !lines[j].Lab?
      ensures LineAddress(lines, j) + 4 <= |b| && WordOk(lines, j, B.WordAt(E.Put(b, LineAddress(lines, k), w), LineAddress(lines, j)))
    {
      if j < k {
        PlacesGrow(lines, j, k);
      }
      B.PutWord(b, LineAddress(lines, k), w, LineAddress(lines, j));
    }
  }

  lemma {:induction false} FilledWords(lines: seq<Line>, k: nat)
    requires k <= |lines| && L.ByteCount(lines) <= IMM_MAX && Spelt(lines) && E.Ready(StmtsOf(lines))
    requires E.Fill(StmtsOf(lines), k).Some?
    ensures |E.Fill(StmtsOf(lines), k).value| == L.ByteCount(lines) && ImageHolds(lines, k, E.Fill(StmtsOf(lines), k).value)
  {
    var ss := StmtsOf(lines);
    hide E.EncodeStmt, E.Put, E.Layout, LineAddress, ImageHolds, Spelt, E.Ready, StmtOf, StmtsOf, L.ByteCount;
    LayoutPlaces(lines, |lines|);
    EndPlace(lines);
    if k == 0 {
      assert ImageHolds(lines, 0, E.Fill(ss, 0).value) by { NoWords(lines, E.Fill(ss, 0).value); }
    } else {
      FilledWords(lines, k - 1);
      OneWord(lines, k - 1);
    }
  }

  lemma NoWords(lines: seq<Line>, b: seq<E.Byte>)
    ensures ImageHolds(lines, 0, b)
  {
  }

  lemma LabelAdds(lines: seq<Line>, k: nat, b: seq<E.Byte>)
    requires k < |lines| && lines[k].Lab? && ImageHolds(lines, k, b)
    ensures ImageHolds(lines, k + 1, b)
  {
  }

  lemma OneWord(lines: seq<Line>, k: nat)
    requires k < |lines| && L.ByteCount(lines) <= IMM_MAX && Spelt(lines) && E.Ready(StmtsOf(lines))
    requires E.Fill(StmtsOf(lines), k + 1).Some? && E.Fill(StmtsOf(lines), k).Some?
    requires |E.Fill(StmtsOf(lines), k).value| == L.ByteCount(lines) && ImageHolds(lines, k, E.Fill(StmtsOf(lines), k).value)
    ensures ImageHolds(lines, k + 1, E.Fill(StmtsOf(lines), k + 1).value)
  {
    var ss := StmtsOf(lines);
    hide E.EncodeStmt, E.Put, E.Layout, LineAddress, ImageHolds, Spelt, E.Ready, StmtsOf, L.ByteCount, WordOk;
    if lines[k].Lab? {
      LabelAdds(lines, k, E.Fill(ss, k).value);
    } else {
      EncodedOk(lines, k);
      PlacesAligned(lines, k);
      PlaceBelow(lines, k + 1);
      NextPlace(lines, k);
      LayoutPlaces(lines, k);
      FillStep(lines, k, E.Fill(ss, k).value, E.EncodeStmt(ss[k], E.Layout(ss, |ss|).syms).value);
    }
  }

  lemma PlacesAligned(lines: seq<Line>, k: nat)
    requires k <= |lines| && L.ByteCount(lines) < TWO32
    ensures forall j :: 0 <= j <= k ==> LineAddress(lines, j) % 4 == 0
  {
    hide LineAddress, E.Layout;
    forall j | 0 <= j <= k ensures LineAddress(lines, j) % 4 == 0 {
      LayoutPlaces(lines, j);
    }
  }

  // ----- Data memory and labels, as the loader has them -----

  ghost predicate LoadedAre(lines: seq<Line>, k: nat, data: map<int, Word>)
    requires k <= |lines|
  {
    && (forall j :: 0 <= j < k && lines[j].Data? ==> LineAddress(lines, j) in data && data[LineAddress(lines, j)] == Wrap(lines[j].w))
    && forall a :: a in data ==> exists j :: 0 <= j < k && lines[j].Data? && LineAddress(lines, j) == a
  }

  lemma OneLine(l: Line, at: nat)
    ensures L.Loaded([l], at) == L.WordOf(l, at) && L.Addresses([l], at) == L.AddressOf(l, at)
  {
    assert [l][1..] == [];
    assert L.Loaded([l][1..], at + L.Span(l)) == map[] && L.Addresses([l][1..], at + L.Span(l)) == map[];
  }

  lemma {:induction false} LoadedPrefix(lines: seq<Line>, k: nat)
    requires k <= |lines|
    ensures LoadedAre(lines, k, L.Loaded(lines[..k], 0))
  {
    hide L.Loaded, L.WordOf, L.ByteCount, LoadedAre;
    if k == 0 {
      NothingLoaded(lines);
    } else {
      LoadedPrefix(lines, k - 1);
      assert lines[..k] == lines[..k - 1] + [lines[k - 1]];
      L.LoadedAppended(lines[..k - 1], [lines[k - 1]], 0);
      OneLine(lines[k - 1], LineAddress(lines, k - 1));
      LoadedStep(lines, k - 1, L.Loaded(lines[..k - 1], 0));
    }
  }

  lemma NothingLoaded(lines: seq<Line>)
    ensures LoadedAre(lines, 0, L.Loaded(lines[..0], 0))
  {
  }

  lemma LoadedStep(lines: seq<Line>, k: nat, data: map<int, Word>)
    requires k < |lines| && LoadedAre(lines, k, data)
    ensures LoadedAre(lines, k + 1, data + L.WordOf(lines[k], LineAddress(lines, k)))
  {
    hide LineAddress, Wrap;
    var all := data + L.WordOf(lines[k], LineAddress(lines, k));
    forall j | 0 <= j < k + 1 && lines[j].Data? ensures LineAddress(lines, j) in all && all[LineAddress(lines, j)] == Wrap(lines[j].w) {
      if j < k {
        PlacesGrow(lines, j, k);
      }
    }
    forall a | a in all ensures exists j :: 0 <= j < k + 1 && lines[j].Data? && LineAddress(lines, j) == a {
      if a in data {
        var j :| 0 <= j < k && lines[j].Data? && LineAddress(lines, j) == a;
      } else {
        assert lines[k].Data? && LineAddress(lines, k) == a;
      }
    }
  }

  /** Every aligned address of the image belongs to a word of it. */
  lemma {:induction false} WordOfAddress(lines: seq<Line>, k: nat, a: nat) returns (j: nat)
    requires k <= |lines| && a < LineAddress(lines, k) && a % 4 == 0 && L.ByteCount(lines) < TWO32
    ensures j < k && !lines[j].Lab? && LineAddress(lines, j) == a
  {
    hide LineAddress, L.ByteCount;
    EndPlace(lines);
    NextPlace(lines, k - 1);
    PlacesAligned(lines, k);
    if a < LineAddress(lines, k - 1) {
      j := WordOfAddress(lines, k - 1, a);
    } else {
      j := k - 1;
    }
  }

  lemma {:induction false} AddressesPrefix(lines: seq<Line>, k: nat)
    requires k <= |lines| && CR.UniqueLabels(lines)
    ensures var addr := L.Addresses(lines[..k], 0);
            forall x :: x in addr ==> Find(lines, Named(x)) < |lines| && addr[x] == Wrap(LineAddress(lines, Find(lines, Named(x))))
  {
    hide L.Addresses, L.ByteCount, Wrap, Find, CR.UniqueLabels;
    if k == 0 {
      assert L.Addresses(lines[..0], 0) == map[] by { NoAddresses(lines[..0]); }
    } else {
      var l := lines[k - 1];
      AddressesPrefix(lines, k - 1);
      assert lines[..k] == lines[..k - 1] + [l];
      L.AddressesAppended(lines[..k - 1], [l], 0);
      OneLine(l, LineAddress(lines, k - 1));
      if l.Lab? {
        CR.LabelAt(lines, k - 1, l.l);
      }
    }
  }

  lemma NoAddresses(lines: seq<Line>)
    requires lines == []
    ensures L.Addresses(lines, 0) == map[]
  {
  }

  // ----- The memory the emulator starts with -----

  /** The image at address 0, and zeros behind it. */
  function Boot(b: seq<E.Byte>): C.Memory
    requires |b| <= C.MEM_SIZE
  {
    b + seq(C.MEM_SIZE - |b|, _ => 0)
  }

  lemma BootWord(b: seq<E.Byte>, a: Word)
    requires |b| <= C.MEM_SIZE && C.InBounds(a)
    ensures a + 4 <= |b| ==> C.Read(Boot(b), a) == B.WordAt(b, a)
    ensures |b| <= a ==> C.Read(Boot(b), a) == 0
  {
  }

  /** Instructions end below `base`. */
  ghost predicate CodeBelow(lines: seq<Line>, base: int) {
    forall j :: 0 <= j < |lines| && lines[j].Op? ==> LineAddress(lines, j) + 4 <= base
  }

  lemma BootData(p: Image, b: seq<E.Byte>)
    requires L.ByteCount(p.lines) == |b| <= DATA_END && ImageHolds(p.lines, |p.lines|, b)
    requires 0 <= p.base && CodeBelow(p.lines, p.base)
    ensures DataIn(p, L.Loaded(p.lines, 0), Boot(b))
  {
    var lines, data := p.lines, L.Loaded(p.lines, 0);
    assert lines[..|lines|] == lines;
    LoadedPrefix(lines, |lines|);
    EndPlace(lines);
    PlacesAligned(lines, |lines|);
    hide L.ByteCount, L.Loaded, LineAddress, B.WordAt, Boot, Resolved, C.Read, Decode;
    forall a | DataAddress(p, a) ensures C.Read(Boot(b), a) == Peek(data, a) {
      BootWord(b, a);
      if a < |b| {
        var j := WordOfAddress(lines, |lines|, a);
        assert WordOk(lines, j, B.WordAt(b, LineAddress(lines, j)));
      }
    }
  }

  lemma BootCode(p: Image, b: seq<E.Byte>)
    requires L.ByteCount(p.lines) == |b| <= DATA_END && ImageHolds(p.lines, |p.lines|, b)
    requires 0 <= p.base <= DATA_END && CodeBelow(p.lines, p.base)
    ensures CodeIn(p.lines, p.base, Boot(b))
  {
    PlacesAligned(p.lines, |p.lines|);
    hide L.ByteCount, LineAddress, B.WordAt, Boot, Resolved, C.Read, Decode;
    forall k | 0 <= k < |p.lines| && p.lines[k].Op? ensures CodeAt(p.lines, p.base, Boot(b), k) {
      BootWord(b, LineAddress(p.lines, k));
      assert WordOk(p.lines, k, B.WordAt(b, LineAddress(p.lines, k)));
    }
  }

  lemma LinkedIsWired(p: Image)
    requires CR.UniqueLabels(p.lines) && p.addr == L.Addresses(p.lines, 0) && L.ByteCount(p.lines) <= DATA_END
    requires 0 <= p.base <= DATA_END && p.base % 4 == 0
    ensures Wired(p)
  {
    assert p.lines[..|p.lines|] == p.lines;
    AddressesPrefix(p.lines, |p.lines|);
    hide L.ByteCount, LineAddress, L.Addresses, Find, CR.UniqueLabels;
    forall k: nat | k <= |p.lines| ensures LineAddress(p.lines, k) <= DATA_END {
      PlaceBelow(p.lines, k);
    }
    forall x | x in p.addr ensures p.addr[x] == LineAddress(p.lines, Find(p.lines, Named(x))) {
      WrapIdentity(LineAddress(p.lines, Find(p.lines, Named(x))));
    }
  }
}
