/** The assembler's two passes: addresses and labels, then words into a byte image. */
module AsmEncoder {
  import opened Wrappers
  import opened InstStream
  import opened Isa
  import opened AsmParser
  import L = AsmLexer
  import W = Words

  type Byte = b: int | 0 <= b < 256

  datatype Symbol = Symbol(name: string, addr: Word)

  // ----- Pass 1 -----

  /** The next address, the end of the highest word so far, and the labels met. */
  datatype Place = Place(addr: Word, top: Word, syms: seq<Symbol>)

  predicate Occupies(s: Stmt) { s.Instr? || s.Data? }

  function Locate(p: Place, s: Stmt): Place {
    match s
    case Org(a) => p.(addr := a)
    case Label(x) => p.(syms := p.syms + [Symbol(x, p.addr)])
    case _ => var a := W.Wrap(p.addr + 4); p.(addr := a, top := if a > p.top then a else p.top)
  }

  /** Where the first k statements end. */
  function Layout(ss: seq<Stmt>, k: nat): Place
    requires k <= |ss|
  {
    if k == 0 then Place(0, 0, []) else Locate(Layout(ss, k - 1), ss[k - 1])
  }

  lemma LayoutStart(ss: seq<Stmt>)
    ensures Layout(ss, 0) == Place(0, 0, [])
  {
  }

  lemma LayoutStep(ss: seq<Stmt>, k: nat)
    requires k < |ss|
    ensures Layout(ss, k + 1) == Locate(Layout(ss, k), ss[k])
  {
  }

  ghost predicate FitsAt(ss: seq<Stmt>, k: nat)
    requires k < |ss|
  {
    Occupies(ss[k]) ==> Layout(ss, k).addr + 4 < W.TWO32
  }

  /** No word reaches the end of the address space; the original writes outside its buffer there. */
  ghost predicate NoWrap(ss: seq<Stmt>) { forall k :: 0 <= k < |ss| ==> FitsAt(ss, k) }

  lemma {:induction false} TopGrows(ss: seq<Stmt>, k: nat, n: nat)
    requires k <= n <= |ss|
    ensures Layout(ss, k).top <= Layout(ss, n).top
    decreases n
  {
    if k < n {
      TopGrows(ss, k, n - 1);
    }
  }

  lemma TopCovers(p: Place, s: Stmt)
    requires Occupies(s) && p.addr + 4 < W.TWO32
    ensures Locate(p, s).addr == p.addr + 4 <= Locate(p, s).top
  {
  }

  /** Every word lies inside the image. */
  lemma WordInside(ss: seq<Stmt>, k: nat)
    requires k < |ss| && FitsAt(ss, k) && Occupies(ss[k])
    ensures Layout(ss, k).addr + 4 <= Layout(ss, |ss|).top
  {
    hide Locate, NoWrap;
    TopCovers(Layout(ss, k), ss[k]);
    TopGrows(ss, k + 1, |ss|);
  }

  // ----- Pass 2 -----

  /** The first symbol of that name counts. */
  function Lookup(syms: seq<Symbol>, x: string): Option<Word> {
    if syms == [] then None else if syms[0].name == x then Some(syms[0].addr) else Lookup(syms[1..], x)
  }

  function EncodeStmt(s: Stmt, syms: seq<Symbol>): Option<Word>
    requires Occupies(s) && Proper(s)
  {
    match s
    case Instr(f, target) =>
      var imm :- if target.None? then Some(f.imm) else ImmOf(Lookup(syms, target.value));
      if IMM_MIN <= imm <= IMM_MAX then Some(Encode(f.(imm := imm))) else None
    case Data(v, target) => if target.None? then Some(v) else Lookup(syms, target.value)
  }

  function ImmOf(a: Option<Word>): Option<int> { if a.None? then None else Some(ToInt32(a.value)) }

  function ByteOf(w: Word, i: nat): Byte {
    match i
    case 0 => w % 0x100
    case 1 => w / 0x100 % 0x100
    case 2 => w / 0x1_0000 % 0x100
    case _ => w / 0x100_0000 % 0x100
  }

  function Put(out: seq<Byte>, at: nat, w: Word): (r: seq<Byte>)
    requires at + 4 <= |out|
    ensures |r| == |out|
  {
    out[at := ByteOf(w, 0)][at + 1 := ByteOf(w, 1)][at + 2 := ByteOf(w, 2)][at + 3 := ByteOf(w, 3)]
  }

  function Blank(n: nat): (b: seq<Byte>)
    ensures |b| == n && forall i :: 0 <= i < n ==> b[i] == 0
  {
    if n == 0 then [] else Blank(n - 1) + [0]
  }

  ghost predicate AllProper(ss: seq<Stmt>) { forall i :: 0 <= i < |ss| ==> Proper(ss[i]) }

  ghost predicate Ready(ss: seq<Stmt>) { NoWrap(ss) && AllProper(ss) }

  lemma ReadyAt(ss: seq<Stmt>, k: nat)
    requires Ready(ss) && k < |ss|
    ensures Proper(ss[k]) && FitsAt(ss, k)
    ensures Occupies(ss[k]) ==> Layout(ss, k).addr + 4 <= Layout(ss, |ss|).top
  {
    hide Proper, Locate;
    if Occupies(ss[k]) {
      WordInside(ss, k);
    }
  }

  /** The image after the first k statements. */
  ghost function Fill(ss: seq<Stmt>, k: nat): (r: Option<seq<Byte>>)
    requires k <= |ss| && Ready(ss)
    ensures r.Some? ==> |r.value| == Layout(ss, |ss|).top
  {
    var all := Layout(ss, |ss|);
    if k == 0 then Some(Blank(all.top))
    else
      var out :- Fill(ss, k - 1);
      if !Occupies(ss[k - 1]) then Some(out)
      else
        ReadyAt(ss, k - 1);
        var w :- EncodeStmt(ss[k - 1], all.syms);
        Some(Put(out, Layout(ss, k - 1).addr, w))
  }

  function Statements(text: string): Option<seq<Stmt>> {
    var toks :- L.Lex(text);
    Parse(toks)
  }

  lemma StatementsProper(text: string)
    requires Statements(text).Some?
    ensures AllProper(Statements(text).value)
  {
    StmtsProper(L.Lex(text).value);
  }

  ghost predicate Fits(text: string) { Statements(text).Some? ==> NoWrap(Statements(text).value) }

  /** From text to the bytes of the image file; None when any stage reports an error. */
  ghost function Assemble(text: string): Option<seq<Byte>>
    requires Fits(text)
  {
    var ss :- Statements(text);
    StatementsProper(text);
    Fill(ss, |ss|)
  }

  // ----- The loops -----

  method SymLookup(syms: seq<Symbol>, x: string) returns (a: Option<Word>)
    ensures a == Lookup(syms, x)
  {
    for i := 0 to |syms|
      invariant Lookup(syms[i..], x) == Lookup(syms, x)
    {
      if syms[i].name == x { return Some(syms[i].addr); }
    }
    a := None;
  }

  method Advance(addr: Word, top: Word, syms: seq<Symbol>, s: Stmt) returns (a: Word, t: Word, y: seq<Symbol>)
    ensures Place(a, t, y) == Locate(Place(addr, top, syms), s)
  {
    hide W.Wrap;
    a, t, y := addr, top, syms;
    match s {
      case Org(x) =>
        a := x;
      case Label(x) =>
        y := syms + [Symbol(x, addr)];
      case _ =>
        a := W.Wrap(addr + 4);
        if a > top { t := a; }
    }
  }

  /** The addresses of the first k statements. */
  function AddressesOf(ss: seq<Stmt>, k: nat): (r: seq<Word>)
    requires k <= |ss|
    ensures |r| == k && forall j :: 0 <= j < k ==> r[j] == Layout(ss, j).addr
  {
    if k == 0 then [] else AddressesOf(ss, k - 1) + [Layout(ss, k - 1).addr]
  }

  lemma AddressesStep(ss: seq<Stmt>, k: nat)
    requires k < |ss|
    ensures AddressesOf(ss, k + 1) == AddressesOf(ss, k) + [Layout(ss, k).addr]
  {
    hide Layout;
  }

  method AssignAddresses(ss: seq<Stmt>) returns (p: Place, addrs: seq<Word>)
    ensures p == Layout(ss, |ss|) && addrs == AddressesOf(ss, |ss|)
  {
    var addr: Word, top: Word, syms := 0, 0, [];
    addrs := [];
    LayoutStart(ss);
    assert AddressesOf(ss, 0) == [];
    hide Locate, Layout, AddressesOf;
    for i := 0 to |ss|
      invariant Place(addr, top, syms) == Layout(ss, i)
      invariant addrs == AddressesOf(ss, i)
    {
      LayoutStep(ss, i);
      AddressesStep(ss, i);
      addrs := addrs + [addr];
      addr, top, syms := Advance(addr, top, syms, ss[i]);
    }
    p := Place(addr, top, syms);
  }

  method WordFor(s: Stmt, syms: seq<Symbol>) returns (w: Option<Word>)
    requires Occupies(s) && Proper(s)
    ensures w == EncodeStmt(s, syms)
  {
    if s.Instr? {
      var imm := s.f.imm;
      if s.target.Some? {
        var a := SymLookup(syms, s.target.value);
        if a.None? { return None; }
        imm := ToInt32(a.value);
      }
      if imm < IMM_MIN || imm > IMM_MAX { return None; }
      w := Some(Encode(s.f.(imm := imm)));
    } else {
      w := Some(s.value);
      if s.target.Some? {
        w := SymLookup(syms, s.target.value);
      }
    }
  }

  method Write(out: array<Byte>, at: nat, w: Word, top: nat)
    requires at + 4 <= top <= out.Length
    modifies out
    ensures out[..top] == Put(old(out[..top]), at, w)
  {
    out[at] := ByteOf(w, 0);
    out[at + 1] := ByteOf(w, 1);
    out[at + 2] := ByteOf(w, 2);
    out[at + 3] := ByteOf(w, 3);
  }

  method Encoded(ss: seq<Stmt>) returns (r: Option<seq<Byte>>)
    requires Ready(ss)
    ensures r == Fill(ss, |ss|)
  {
    hide EncodeStmt, Locate, Put, ByteOf, Ready;
    var p, addrs := AssignAddresses(ss);
    var out := new Byte[if p.top == 0 then 4 else p.top](_ => 0);
    assert out[..p.top] == Blank(p.top);
    for i := 0 to |ss|
      invariant Fill(ss, i) == Some(out[..p.top])
    {
      if Occupies(ss[i]) {
        ReadyAt(ss, i);
        var w := WordFor(ss[i], p.syms);
        if w.None? {
          NoWay(ss, i + 1, |ss|);
          return None;
        }
        Write(out, addrs[i], w.value, p.top);
      }
    }
    r := Some(out[..p.top]);
  }

  lemma {:induction false} NoWay(ss: seq<Stmt>, k: nat, n: nat)
    requires k <= n <= |ss| && Ready(ss) && Fill(ss, k) == None
    ensures Fill(ss, n) == None
    decreases n
  {
    hide EncodeStmt, Locate, Put, Ready;
    if k < n {
      NoWay(ss, k, n - 1);
    }
  }
}
