/** What is where in an assembled image, for every source: addresses count words from the last origin, labels are the address
    of what follows, every byte is the last word's put there, and an error is an undefined label or a number out of range. */
module AsmImage {
  import opened Wrappers
  import opened Isa
  import opened AsmParser
  import opened AsmEncoder
  import B = AsmRoundTrip
  import W = Words

  // ----- Addresses -----

  /** The last origin among the first k statements, 0 before the first. */
  function Origin(ss: seq<Stmt>, k: nat): nat
    requires k <= |ss|
  {
    if k == 0 then 0 else if ss[k - 1].Org? then ss[k - 1].addr else Origin(ss, k - 1)
  }

  /** The words among the first k statements that come behind the last origin. */
  function WordsSince(ss: seq<Stmt>, k: nat): nat
    requires k <= |ss|
  {
    if k == 0 || ss[k - 1].Org? then 0 else WordsSince(ss, k - 1) + if Occupies(ss[k - 1]) then 1 else 0
  }

  /** One statement's effect on the next address and on the end of the highest word. */
  lemma Located(p: Place, s: Stmt)
    requires Occupies(s) ==> p.addr + 4 < W.TWO32
    ensures Locate(p, s).addr == if s.Org? then s.addr else if Occupies(s) then p.addr + 4 else p.addr
    ensures Locate(p, s).top == if Occupies(s) && p.top < p.addr + 4 then p.addr + 4 else p.top
  {
  }

  lemma {:induction false} AddressCounts(ss: seq<Stmt>, k: nat)
    requires k <= |ss| && NoWrap(ss)
    ensures Layout(ss, k).addr == Origin(ss, k) + 4 * WordsSince(ss, k)
  {
    if k > 0 {
      AddressCounts(ss, k - 1);
      assert FitsAt(ss, k - 1);
      LayoutStep(ss, k - 1);
      Located(Layout(ss, k - 1), ss[k - 1]);
      hide Layout, Locate, NoWrap;
    }
  }

  // ----- Labels -----

  /** The k-th statement is the label x, and no earlier one is. */
  predicate FirstLabel(ss: seq<Stmt>, k: nat, x: string) {
    k < |ss| && ss[k] == Label(x) && forall j :: 0 <= j < k ==> ss[j] != Label(x)
  }

  lemma {:induction false} LookupLast(syms: seq<Symbol>, s: Symbol, x: string)
    ensures Lookup(syms + [s], x) == if Lookup(syms, x).Some? then Lookup(syms, x) else if s.name == x then Some(s.addr) else None
  {
    if syms == [] {
      assert syms + [s] == [s] && [s][1..] == [];
    } else {
      assert (syms + [s])[1..] == syms[1..] + [s];
      LookupLast(syms[1..], s, x);
    }
  }

  lemma {:induction false} LookupUpTo(ss: seq<Stmt>, n: nat, x: string)
    requires n <= |ss|
    ensures (forall j :: 0 <= j < n ==> ss[j] != Label(x)) ==> Lookup(Layout(ss, n).syms, x) == None
    ensures forall k :: 0 <= k < n && FirstLabel(ss, k, x) ==> Lookup(Layout(ss, n).syms, x) == Some(Layout(ss, k).addr)
  {
    if n > 0 {
      LookupUpTo(ss, n - 1, x);
      LayoutStep(ss, n - 1);
      var p := Layout(ss, n - 1);
      if ss[n - 1].Label? {
        LookupLast(p.syms, Symbol(ss[n - 1].name, p.addr), x);
      }
      hide Layout, Lookup;
    }
  }

  /** A label resolves to the address of its first definition, and to none if it has no definition. */
  lemma LabelIsAddress(ss: seq<Stmt>, k: nat, x: string)
    ensures FirstLabel(ss, k, x) ==> Lookup(Layout(ss, |ss|).syms, x) == Some(Layout(ss, k).addr)
    ensures Label(x) !in ss ==> Lookup(Layout(ss, |ss|).syms, x) == None
  {
    LookupUpTo(ss, |ss|, x);
  }

  // ----- Bytes -----

  /** Statement k puts a word over byte b. */
  predicate Covers(ss: seq<Stmt>, k: nat, b: nat)
    requires k < |ss|
  {
    Occupies(ss[k]) && Layout(ss, k).addr <= b < Layout(ss, k).addr + 4
  }

  /** Of the first n statements the k-th is the last to cover byte b. */
  ghost predicate LastCover(ss: seq<Stmt>, n: nat, k: nat, b: nat)
    requires k < n <= |ss|
  {
    Covers(ss, k, b) && forall j :: k < j < n ==> !Covers(ss, j, b)
  }

  /** Byte b is the last word's put over it, or 0. */
  ghost predicate ByteIs(ss: seq<Stmt>, n: nat, b: nat, v: Byte)
    requires n <= |ss| && AllProper(ss)
  {
    && ((forall k :: 0 <= k < n ==> !Covers(ss, k, b)) ==> v == 0)
    && forall k :: 0 <= k < n && LastCover(ss, n, k, b) ==>
         var w := EncodeStmt(ss[k], Layout(ss, |ss|).syms);
         w.Some? && v == ByteOf(w.value, b - Layout(ss, k).addr)
  }

  lemma ByteUntouched(ss: seq<Stmt>, n: nat, b: nat, v: Byte)
    requires n < |ss| && AllProper(ss) && ByteIs(ss, n, b, v) && !Covers(ss, n, b)
    ensures ByteIs(ss, n + 1, b, v)
  {
    hide Covers, EncodeStmt, Layout, ByteOf;
    forall k | 0 <= k < n + 1 && LastCover(ss, n + 1, k, b) ensures LastCover(ss, n, k, b) {
    }
  }

  lemma CoveredLater(ss: seq<Stmt>, n: nat, k: nat, b: nat)
    requires k < n < |ss| && Covers(ss, n, b)
    ensures !LastCover(ss, n + 1, k, b)
  {
    hide Layout;
  }

  lemma ByteWritten(ss: seq<Stmt>, n: nat, b: nat, w: W.Word)
    requires n < |ss| && AllProper(ss) && Covers(ss, n, b) && EncodeStmt(ss[n], Layout(ss, |ss|).syms) == Some(w)
    ensures ByteIs(ss, n + 1, b, ByteOf(w, b - Layout(ss, n).addr))
  {
    hide EncodeStmt, Layout, ByteOf;
    var m := n + 1;
    forall k | 0 <= k < n ensures !LastCover(ss, m, k, b) {
      CoveredLater(ss, n, k, b);
    }
  }

  lemma {:induction false} BytesFilled(ss: seq<Stmt>, n: nat, b: nat)
    requires n <= |ss| && Ready(ss) && Fill(ss, n).Some? && b < Layout(ss, |ss|).top
    ensures ByteIs(ss, n, b, Fill(ss, n).value[b])
  {
    hide EncodeStmt, Layout, ByteOf, ByteIs, NoWrap;
    if n == 0 {
      NothingYet(ss, b);
    } else {
      BytesFilled(ss, n - 1, b);
      if !Occupies(ss[n - 1]) {
        ByteUntouched(ss, n - 1, b, Fill(ss, n - 1).value[b]);
      } else {
        ReadyAt(ss, n - 1);
        var out, at := Fill(ss, n - 1).value, Layout(ss, n - 1).addr;
        var w := EncodeStmt(ss[n - 1], Layout(ss, |ss|).syms).value;
        B.PutAt(out, at, w, b);
        hide Put;
        if at <= b < at + 4 {
          ByteWritten(ss, n - 1, b, w);
        } else {
          ByteUntouched(ss, n - 1, b, out[b]);
        }
      }
    }
  }

  lemma NothingYet(ss: seq<Stmt>, b: nat)
    requires AllProper(ss)
    ensures ByteIs(ss, 0, b, 0)
  {
  }

  /** The image is as long as its highest word reaches. */
  lemma {:induction false} TopIsReached(ss: seq<Stmt>, n: nat) returns (k: int)
    requires n <= |ss| && NoWrap(ss)
    ensures -1 <= k < n && (k == -1 ==> Layout(ss, n).top == 0)
    ensures k >= 0 ==> Occupies(ss[k]) && Layout(ss, k).addr + 4 == Layout(ss, n).top
  {
    if n == 0 {
      LayoutStart(ss);
      k := -1;
    } else {
      k := TopIsReached(ss, n - 1);
      LayoutStep(ss, n - 1);
      assert FitsAt(ss, n - 1);
      Located(Layout(ss, n - 1), ss[n - 1]);
      hide Layout, Locate, NoWrap;
      if Layout(ss, n).top != Layout(ss, n - 1).top {
        k := n - 1;
      }
    }
  }

  /** Assembly fails exactly if some word cannot be encoded. */
  lemma {:induction false} FailsIff(ss: seq<Stmt>, n: nat)
    requires n <= |ss| && Ready(ss)
    ensures Fill(ss, n).None? <==> exists k :: 0 <= k < n && Occupies(ss[k]) && Unencodable(ss, k)
  {
    hide EncodeStmt, Layout, Put, NoWrap, FitsAt;
    if n > 0 {
      FailsIff(ss, n - 1);
      if Occupies(ss[n - 1]) {
        ReadyAt(ss, n - 1);
      }
    }
  }

  ghost predicate Unencodable(ss: seq<Stmt>, k: nat)
    requires k < |ss| && Occupies(ss[k]) && AllProper(ss)
  {
    EncodeStmt(ss[k], Layout(ss, |ss|).syms).None?
  }

  /** For every source whose words stay below the end of the address space: each byte of the image, its length, and when there
      is none. */
  lemma ImageIs(ss: seq<Stmt>, b: nat)
    requires Ready(ss)
    ensures Fill(ss, |ss|).None? <==> exists k :: 0 <= k < |ss| && Occupies(ss[k]) && Unencodable(ss, k)
    ensures Fill(ss, |ss|).Some? && b < |Fill(ss, |ss|).value| ==> ByteIs(ss, |ss|, b, Fill(ss, |ss|).value[b])
    ensures forall k :: 0 <= k < |ss| && Covers(ss, k, b) ==> b < Layout(ss, |ss|).top
  {
    FailsIff(ss, |ss|);
    if Fill(ss, |ss|).Some? && b < |Fill(ss, |ss|).value| {
      BytesFilled(ss, |ss|, b);
    }
    hide Layout, ByteIs, Unencodable, Ready;
    forall k | 0 <= k < |ss| && Covers(ss, k, b) ensures b < Layout(ss, |ss|).top {
      ReadyAt(ss, k);
    }
  }

  // ----- Words -----

  /** What stands in the immediate field, or in a data word: the number given, or the address of the label. */
  function Meant(s: Stmt, ss: seq<Stmt>): Option<int>
    requires Occupies(s)
  {
    if s.target.Some? then
      match Lookup(Layout(ss, |ss|).syms, s.target.value)
      case None => None
      case Some(a) => Some(if s.Instr? && 0x8000_0000 <= a then a - 0x1_0000_0000 else a)
    else Some(if s.Instr? then s.f.imm else s.value)
  }

  /** An instruction is encoded exactly if its number fits 20 bits, and decodes to its fields and that number. */
  lemma InstructionWord(s: Stmt, ss: seq<Stmt>)
    requires s.Instr? && Proper(s)
    ensures var w := EncodeStmt(s, Layout(ss, |ss|).syms); var v := Meant(s, ss);
            && (w.Some? <==> v.Some? && -0x8_0000 <= v.value < 0x8_0000)
            && (w.Some? ==> Decode(w.value) == s.f.(imm := v.value))
  {
    hide Layout, Lookup, Encode, Decode;
    var v := Meant(s, ss);
    if v.Some? && IMM_MIN <= v.value <= IMM_MAX {
      DecodeOfEncode(s.f.(imm := v.value));
    }
  }

  lemma DataWord(s: Stmt, ss: seq<Stmt>)
    requires s.Data?
    ensures EncodeStmt(s, Layout(ss, |ss|).syms) == Meant(s, ss)
  {
  }
}
