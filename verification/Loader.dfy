/** Assembling: the address of every data label and the words the image starts with. */
module Loader {
  import opened Words
  import opened Wrappers
  import opened Machine
  import opened CAst
  import opened CSemantics
  import opened CodeShape
  import CG = CodeGen

  /** Labels take no room, everything else a word. */
  function ByteCount(lines: seq<Line>): nat {
    if lines == [] then 0 else Span(lines[0]) + ByteCount(lines[1..])
  }

  function Span(l: Line): nat { if l.Lab? then 0 else 4 }

  function AddressOf(l: Line, at: nat): map<string, Word> {
    if l.Lab? && l.l.Named? then map[l.l.text := Wrap(at)] else map[]
  }

  function Addresses(lines: seq<Line>, at: nat): map<string, Word> {
    if lines == [] then map[] else AddressOf(lines[0], at) + Addresses(lines[1..], at + Span(lines[0]))
  }

  function WordOf(l: Line, at: nat): map<int, Word> { if l.Data? then map[at as int := Wrap(l.w)] else map[] }

  function Loaded(lines: seq<Line>, at: nat): map<int, Word> {
    if lines == [] then map[] else WordOf(lines[0], at) + Loaded(lines[1..], at + Span(lines[0]))
  }

  lemma MergeAssociates<K, V>(a: map<K, V>, b: map<K, V>, c: map<K, V>)
    ensures a + (b + c) == (a + b) + c
  {
  }

  lemma {:induction false} BytesAppended(a: seq<Line>, b: seq<Line>)
    ensures ByteCount(a + b) == ByteCount(a) + ByteCount(b)
  {
    if a == [] {
      assert a + b == b;
    } else {
      assert (a + b)[0] == a[0] && (a + b)[1..] == a[1..] + b;
      BytesAppended(a[1..], b);
    }
  }

  lemma {:induction false} AddressesAppended(a: seq<Line>, b: seq<Line>, at: nat)
    ensures Addresses(a + b, at) == Addresses(a, at) + Addresses(b, at + ByteCount(a))
  {
    if a == [] {
      assert a + b == b;
    } else {
      hide AddressOf;
      assert (a + b)[0] == a[0] && (a + b)[1..] == a[1..] + b;
      var at' := at + Span(a[0]);
      AddressesAppended(a[1..], b, at');
      MergeAssociates(AddressOf(a[0], at), Addresses(a[1..], at'), Addresses(b, at + ByteCount(a)));
    }
  }

  lemma {:induction false} LoadedAppended(a: seq<Line>, b: seq<Line>, at: nat)
    ensures Loaded(a + b, at) == Loaded(a, at) + Loaded(b, at + ByteCount(a))
  {
    if a == [] {
      assert a + b == b;
    } else {
      hide WordOf;
      assert (a + b)[0] == a[0] && (a + b)[1..] == a[1..] + b;
      var at' := at + Span(a[0]);
      LoadedAppended(a[1..], b, at');
      MergeAssociates(WordOf(a[0], at), Loaded(a[1..], at'), Loaded(b, at + ByteCount(a)));
    }
  }

  lemma Appended(a: seq<Line>, b: seq<Line>, at: nat)
    ensures ByteCount(a + b) == ByteCount(a) + ByteCount(b)
    ensures Addresses(a + b, at) == Addresses(a, at) + Addresses(b, at + ByteCount(a))
    ensures Loaded(a + b, at) == Loaded(a, at) + Loaded(b, at + ByteCount(a))
  {
    BytesAppended(a, b);
    AddressesAppended(a, b, at);
    LoadedAppended(a, b, at);
  }

  // ----- Globals -----

  function TotalBytes(gs: seq<Global>): nat { if gs == [] then 0 else Bytes(gs[0].size) + TotalBytes(gs[1..]) }

  function InitialWord(g: Global): Word {
    if g.size.None? && g.init.Some? && g.init.value.Int? then Wrap(g.init.value.v) else 0
  }

  function Filled(lo: int, hi: int, w: Word): map<int, Word> {
    var cells := WordsIn(lo, hi);
    map a | a in cells :: w
  }

  function InitialBlock(g: Global, at: int): map<int, Word> { Filled(at, at + Bytes(g.size), InitialWord(g)) }

  /** Globals as the language starts them: constants, and zeros everywhere else. */
  function InitialMem(gs: seq<Global>, addr: map<string, Word>): map<int, Word> {
    if gs == [] then map[]
    else (if gs[0].name in addr then InitialBlock(gs[0], addr[gs[0].name]) else map[]) + InitialMem(gs[1..], addr)
  }

  lemma FilledFirst(at: nat, n: nat)
    requires at % 4 == 0 && 1 <= n
    ensures Filled(at, at + 4 * n, 0) == map[at as int := 0] + Filled(at + 4, at + 4 * n, 0)
  {
    assert WordsIn(at, at + 4 * n) == {at as int} + WordsIn(at + 4, at + 4 * n);
  }

  lemma ZeroFirst(n: nat, at: nat)
    requires 1 <= n
    ensures Loaded(CG.Zeros(n), at) == map[at as int := 0] + Loaded(CG.Zeros(n - 1), at + 4)
    ensures ByteCount(CG.Zeros(n)) == 4 + ByteCount(CG.Zeros(n - 1))
    ensures Addresses(CG.Zeros(n), at) == map[] + Addresses(CG.Zeros(n - 1), at + 4)
  {
    WrapIdentity(0);
    assert CG.Zeros(n)[0] == Data(0) && CG.Zeros(n)[1..] == CG.Zeros(n - 1);
    hide CG.Zeros, Wrap;
  }

  lemma NoZeros(at: nat)
    ensures Loaded(CG.Zeros(0), at) == Filled(at, at, 0) && ByteCount(CG.Zeros(0)) == 0 && Addresses(CG.Zeros(0), at) == map[]
  {
    assert WordsIn(at, at) == {};
  }

  lemma {:induction false} LoadedZeros(n: nat, at: nat)
    requires at % 4 == 0
    ensures Loaded(CG.Zeros(n), at) == Filled(at, at + 4 * n, 0)
    ensures ByteCount(CG.Zeros(n)) == 4 * n && Addresses(CG.Zeros(n), at) == map[]
  {
    hide Filled, CG.Zeros, Loaded, ByteCount, Addresses;
    if n == 0 {
      NoZeros(at);
    } else {
      LoadedZeros(n - 1, at + 4);
      FilledFirst(at, n);
      ZeroFirst(n, at);
      assert at + 4 + 4 * (n - 1) == at + 4 * n;
    }
  }

  lemma LoadedWord(v: int, at: nat)
    requires at % 4 == 0
    ensures Loaded([Data(v)], at) == Filled(at, at + 4, Wrap(v))
    ensures ByteCount([Data(v)]) == 4 && Addresses([Data(v)], at) == map[]
  {
    assert [Data(v)][1..] == [];
    assert WordsIn(at, at + 4) == {at as int};
  }

  /** A global's code is its label and its words. */
  function WordsOf(g: Global): seq<Line> {
    if g.size.Some? then CG.Zeros(g.size.value)
    else if g.init.Some? && g.init.value.Int? then [Data(g.init.value.v)] else [Data(0)]
  }

  lemma GlobalCode(g: Global)
    requires CG.GenGlobal(g).Ok?
    ensures CG.GenGlobal(g).value == [Lab(Named(g.name))] + WordsOf(g)
  {
    hide CG.Zeros;
  }

  lemma LoadedWords(g: Global, at: nat)
    requires CG.GenGlobal(g).Ok? && at % 4 == 0
    ensures Loaded(WordsOf(g), at) == InitialBlock(g, at)
    ensures ByteCount(WordsOf(g)) == Bytes(g.size) && Addresses(WordsOf(g), at) == map[]
  {
    hide WordsIn, Filled, CG.Zeros, Loaded, Addresses, ByteCount;
    if g.size.Some? {
      LoadedZeros(g.size.value, at);
    } else {
      WrapIdentity(0);
      LoadedWord(if g.init.None? then 0 else g.init.value.v, at);
    }
  }

  lemma LoadedGlobal(g: Global, at: nat)
    requires CG.GenGlobal(g).Ok? && at % 4 == 0
    ensures var code := CG.GenGlobal(g).value;
            && ByteCount(code) == Bytes(g.size) && Addresses(code, at) == map[g.name := Wrap(at)]
            && Loaded(code, at) == InitialBlock(g, at)
  {
    hide WordsOf, CG.GenGlobal, Loaded, Addresses, ByteCount, InitialBlock, Bytes, Wrap;
    GlobalCode(g);
    LoadedWords(g, at);
    HeadLabel(g.name, at);
    Appended([Lab(Named(g.name))], WordsOf(g), at);
  }

  lemma HeadLabel(x: string, at: nat)
    ensures ByteCount([Lab(Named(x))]) == 0 && Addresses([Lab(Named(x))], at) == map[x := Wrap(at)]
    ensures Loaded([Lab(Named(x))], at) == map[]
  {
    assert [Lab(Named(x))][1..] == [];
  }

  ghost predicate Agree(names: seq<string>, a: map<string, Word>, b: map<string, Word>) {
    forall x :: x in names ==> x in a && x in b && a[x] == b[x]
  }

  lemma BlockInside(g: Global, at: nat)
    ensures forall a :: a in InitialBlock(g, at) ==> at <= a < at + Bytes(g.size) && a % 4 == 0
  {
  }

  lemma InitialFirst(gs: seq<Global>, addr: map<string, Word>)
    requires gs != [] && gs[0].name in addr
    ensures InitialMem(gs, addr) == InitialBlock(gs[0], addr[gs[0].name]) + InitialMem(gs[1..], addr)
  {
    hide InitialBlock;
  }

  /** The data lines load exactly the initial globals, one behind the other. */
  lemma {:induction false} LoadedGlobals(gs: seq<Global>, at: nat, addr: map<string, Word>)
    requires CG.GenGlobals(gs).Ok? && NoDuplicates(GlobNames(gs)) && at % 4 == 0 && at + TotalBytes(gs) < TWO32
    requires Agree(GlobNames(gs), addr, Addresses(CG.GenGlobals(gs).value, at))
    ensures Loaded(CG.GenGlobals(gs).value, at) == InitialMem(gs, addr)
    ensures ByteCount(CG.GenGlobals(gs).value) == TotalBytes(gs)
    ensures forall a :: a in InitialMem(gs, addr) ==> at <= a < at + TotalBytes(gs) && a % 4 == 0
  {
    if gs != [] {
      var g := gs[0];
      var first := CG.GenGlobal(g).value;
      var rest := CG.GenGlobals(gs[1..]).value;
      NamesSplit([g.name], GlobNames(gs[1..]));
      LoadedGlobal(g, at);
      BlockInside(g, at);
      hide InitialBlock;
      hide CG.GenGlobal;
      Appended(first, rest, at);
      var at' := at + Bytes(g.size);
      AddressNames(gs[1..], at');
      assert g.name in GlobNames(gs);
      assert addr[g.name] == at by {
        WrapIdentity(at);
      }
      InitialFirst(gs, addr);
      hide InitialMem, Loaded, Addresses, Bytes, NoDuplicates, ByteCount;
      forall x | x in GlobNames(gs[1..]) ensures x in addr && x in Addresses(rest, at') && addr[x] == Addresses(rest, at')[x] {
        assert x in GlobNames(gs);
      }
      LoadedGlobals(gs[1..], at', addr);
    }
  }

  lemma {:induction false} AddressNames(gs: seq<Global>, at: nat)
    requires CG.GenGlobals(gs).Ok? && at % 4 == 0
    ensures forall x :: x in Addresses(CG.GenGlobals(gs).value, at) <==> x in GlobNames(gs)
  {
    hide CG.GenGlobal, Loaded, Wrap, InitialBlock, ByteCount, InitialWord;
    if gs == [] {
      assert Addresses([], at) == map[];
    } else {
      hide Addresses;
      LoadedGlobal(gs[0], at);
      Appended(CG.GenGlobal(gs[0]).value, CG.GenGlobals(gs[1..]).value, at);
      AddressNames(gs[1..], at + Bytes(gs[0].size));
    }
  }
}
