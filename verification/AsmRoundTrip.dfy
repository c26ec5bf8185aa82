/** Disassembling an image and assembling the text again. */
module AsmRoundTrip {
  import opened Wrappers
  import opened InstStream
  import opened Isa
  import opened AsmParser
  import opened AsmEncoder
  import opened AsmReading
  import L = AsmLexer
  import W = Words

  // ----- Bytes and words -----

  function Join(a: nat, b: nat, c: nat, d: nat): nat { a + b * 0x100 + c * 0x1_0000 + d * 0x100_0000 }

  function WordAt(b: seq<Byte>, at: nat): Word
    requires at + 4 <= |b|
  {
    Join(b[at], b[at + 1], b[at + 2], b[at + 3])
  }

  /** The whole words of an image; up to three bytes at the end are not looked at. */
  function WordsOf(b: seq<Byte>): (ws: seq<Word>)
    ensures |ws| == |b| / 4 && forall i :: 0 <= i < |ws| ==> ws[i] == WordAt(b, 4 * i)
  {
    seq(|b| / 4, i requires 0 <= i < |b| / 4 => WordAt(b, 4 * i))
  }

  function BytesOf(ws: seq<Word>): (b: seq<Byte>)
    ensures |b| == 4 * |ws|
  {
    if ws == [] then []
    else
      var w := ws[|ws| - 1];
      BytesOf(ws[..|ws| - 1]) + [ByteOf(w, 0), ByteOf(w, 1), ByteOf(w, 2), ByteOf(w, 3)]
  }

  lemma WordOfItsBytes(w: Word)
    ensures w == Join(ByteOf(w, 0), ByteOf(w, 1), ByteOf(w, 2), ByteOf(w, 3))
  {
    var q := w / 0x100;
    var r := q / 0x100;
    assert w == q * 0x100 + w % 0x100 && q == r * 0x100 + q % 0x100 && r == r / 0x100 * 0x100 + r % 0x100;
    assert w / 0x1_0000 == r && w / 0x100_0000 == r / 0x100 && r / 0x100 < 0x100;
  }

  lemma BytesOfWord(a: Byte, b: Byte, c: Byte, d: Byte)
    ensures var w := Join(a, b, c, d);
            w < W.TWO32 && ByteOf(w, 0) == a && ByteOf(w, 1) == b && ByteOf(w, 2) == c && ByteOf(w, 3) == d
  {
    AboveByte(b + 0x100 * c + 0x1_0000 * d, a);
    AboveByte(c + 0x100 * d, b);
    AboveByte(d, c);
    QuotientByParts(Join(a, b, c, d));
  }

  lemma AboveByte(q: nat, r: nat)
    requires r < 0x100
    ensures (q * 0x100 + r) / 0x100 == q && (q * 0x100 + r) % 0x100 == r
  {
  }

  lemma QuotientByParts(w: nat)
    ensures w / 0x1_0000 == w / 0x100 / 0x100 && w / 0x100_0000 == w / 0x100 / 0x100 / 0x100
  {
  }

  lemma {:induction false} BytesAt(ws: seq<Word>, i: nat)
    requires i < |ws|
    ensures var b := BytesOf(ws);
            b[4 * i] == ByteOf(ws[i], 0) && b[4 * i + 1] == ByteOf(ws[i], 1)
            && b[4 * i + 2] == ByteOf(ws[i], 2) && b[4 * i + 3] == ByteOf(ws[i], 3)
  {
    hide ByteOf;
    if i < |ws| - 1 {
      BytesAt(ws[..|ws| - 1], i);
    }
  }

  /** An image of whole words is the bytes of its words. */
  lemma WordsMakeBytes(b: seq<Byte>)
    requires |b| % 4 == 0
    ensures BytesOf(WordsOf(b)) == b
  {
    var ws := WordsOf(b);
    forall j | 0 <= j < |b| ensures BytesOf(ws)[j] == b[j] {
      var i := j / 4;
      BytesAt(ws, i);
      assert ws[i] == WordAt(b, 4 * i);
      BytesOfWord(b[4 * i], b[4 * i + 1], b[4 * i + 2], b[4 * i + 3]);
      hide ByteOf, WordsOf, BytesOf;
      assert j == 4 * i || j == 4 * i + 1 || j == 4 * i + 2 || j == 4 * i + 3;
    }
  }

  lemma BytesMakeWords(ws: seq<Word>)
    ensures WordsOf(BytesOf(ws)) == ws
  {
    forall i | 0 <= i < |ws| ensures WordAt(BytesOf(ws), 4 * i) == ws[i] {
      BytesAt(ws, i);
      WordOfItsBytes(ws[i]);
      hide ByteOf;
    }
  }

  // ----- The listing -----

  /** What the disassembler prints: a line for every word. */
  function Listing(ws: seq<Word>): string {
    if ws == [] then [] else Disassemble(ws[0], "\n" + Listing(ws[1..]))
  }

  predicate AllKnown(ws: seq<Word>) { forall i :: 0 <= i < |ws| ==> Decode(ws[i]).op != Illegal }

  function TidyWord(w: Word): Word { if Decode(w).op == Illegal then 0 else Encode(Tidy(Decode(w))) }

  function TidyWords(ws: seq<Word>): (r: seq<Word>)
    ensures |r| == |ws| && forall i :: 0 <= i < |ws| ==> r[i] == TidyWord(ws[i])
  {
    seq(|ws|, i requires 0 <= i < |ws| => TidyWord(ws[i]))
  }

  function StmtOf(w: Word): Stmt { Instr(Tidy(Decode(w)), None) }

  function StmtsOf(ws: seq<Word>): (r: seq<Stmt>)
    ensures |r| == |ws| && forall i :: 0 <= i < |ws| ==> r[i] == StmtOf(ws[i])
  {
    if ws == [] then [] else [StmtOf(ws[0])] + StmtsOf(ws[1..])
  }

  /** The listing is lexed and parsed to one instruction a word, if every opcode is known. */
  lemma {:induction false} ReadListing(ws: seq<Word>)
    ensures L.Lex(Listing(ws)).Some? <==> AllKnown(ws)
    ensures AllKnown(ws) ==> ParseStmts(L.Lex(Listing(ws)).value) == Some(StmtsOf(ws))
  {
    if ws != [] {
      hide L.Lex, ParseStmts, Disassemble, Decode, L.Before;
      var tail := Listing(ws[1..]);
      ReadListing(ws[1..]);
      LexNewline(tail);
      AllKnownSplit(ws);
      if Decode(ws[0]).op == Illegal {
        LexUnknown(ws[0], "\n" + tail);
      } else {
        LexInstruction(ws[0], "\n" + tail);
        ReadLine(Decode(ws[0]), L.Lex(tail));
        DecodedInRange(ws[0]);
        if AllKnown(ws[1..]) {
          ParseLine(Decode(ws[0]), L.Lex(tail).value, StmtsOf(ws[1..]));
        }
      }
    } else {
      assert L.Lex([]) == Some([L.Eof]);
      assert ParseStmts([L.Eof]) == Some([]);
    }
  }

  lemma AllKnownSplit(ws: seq<Word>)
    requires ws != []
    ensures AllKnown(ws) <==> Decode(ws[0]).op != Illegal && AllKnown(ws[1..])
  {
    hide Decode;
    assert ws == [ws[0]] + ws[1..];
  }

  lemma DecodedInRange(w: Word)
    ensures IMM_MIN <= Decode(w).imm <= IMM_MAX
  {
  }

  /** The tokens of a line and of what follows; there are some exactly if there are some for what follows. */
  function LineTokens(f: Fields, r: Option<seq<L.Token>>): Option<seq<L.Token>> {
    L.Before(L.Ident(OpcodeName(f.op)), OperandTokens(f, L.Before(L.Newline, r)))
  }

  lemma ReadLine(f: Fields, r: Option<seq<L.Token>>)
    ensures LineTokens(f, r).Some? <==> r.Some?
  {
    hide OpcodeName;
  }

  lemma ParseStmtsOne(toks: seq<L.Token>, s: Stmt, rest: seq<L.Token>, ss: seq<Stmt>)
    requires Next(toks).Ident? && ParseStmt(toks) == Some(Got(s, rest)) && ParseStmts(rest) == Some(ss)
    ensures ParseStmts(toks) == Some([s] + ss)
  {
    hide ParseStmt;
  }

  lemma ParseNewline(ts: seq<L.Token>)
    ensures ParseStmts([L.Newline] + ts) == ParseStmts(ts)
  {
    assert ([L.Newline] + ts)[1..] == ts;
  }

  lemma ParseLine(f: Fields, ts: seq<L.Token>, ss: seq<Stmt>)
    requires f.op != Illegal && IMM_MIN <= f.imm <= IMM_MAX && ParseStmts(ts) == Some(ss)
    ensures LineTokens(f, Some(ts)).Some?
    ensures ParseStmts(LineTokens(f, Some(ts)).value) == Some([Instr(Tidy(f), None)] + ss)
  {
    hide OperandTokens, OpcodeName, ParseStmt, ParseStmts, Tidy;
    var nl := [L.Newline] + ts;
    ParseNewline(ts);
    ParseInstructionBack(f, nl);
    ParseStmtsOne(LineTokens(f, Some(ts)).value, Instr(Tidy(f), None), nl, ss);
  }

  // ----- The image -----

  lemma TidyProper(f: Fields)
    requires f.op != Illegal && IMM_MIN <= f.imm <= IMM_MAX
    ensures UnusedZero(Tidy(f)) && Tidy(f).op == f.op && IMM_MIN <= Tidy(f).imm <= IMM_MAX
    ensures UnusedZero(f) <==> Tidy(f) == f
  {
  }

  lemma StmtOfWord(w: Word)
    requires Decode(w).op != Illegal
    ensures Occupies(StmtOf(w)) && Proper(StmtOf(w)) && forall syms :: EncodeStmt(StmtOf(w), syms) == Some(TidyWord(w))
  {
    DecodedInRange(w);
    TidyProper(Decode(w));
    hide Decode, Tidy, Encode, UnusedZero;
  }

  lemma StmtsOfKnown(ws: seq<Word>)
    requires AllKnown(ws)
    ensures AllProper(StmtsOf(ws)) && forall i :: 0 <= i < |ws| ==> Occupies(StmtsOf(ws)[i])
  {
    forall i | 0 <= i < |ws| ensures Proper(StmtsOf(ws)[i]) {
      StmtOfWord(ws[i]);
    }
  }

  /** Word k of a listing lands at 4k. */
  lemma {:induction false} ListingLayout(ws: seq<Word>, k: nat)
    requires k <= |ws| && 4 * |ws| < W.TWO32 && AllKnown(ws)
    ensures Layout(StmtsOf(ws), k) == Place(4 * k, 4 * k, [])
  {
    LayoutStart(StmtsOf(ws));
    if k > 0 {
      ListingLayout(ws, k - 1);
      LayoutStep(StmtsOf(ws), k - 1);
      NextWord(4 * (k - 1), ws[k - 1]);
      hide Layout, Locate, AllKnown, StmtOf;
    }
  }

  lemma NextWord(at: Word, w: Word)
    requires at + 4 < W.TWO32
    ensures Locate(Place(at, at, []), StmtOf(w)) == Place(at + 4, at + 4, [])
  {
  }

  lemma ListingFits(ws: seq<Word>)
    requires 4 * |ws| < W.TWO32 && AllKnown(ws)
    ensures Ready(StmtsOf(ws)) && Layout(StmtsOf(ws), |ws|).top == 4 * |ws|
  {
    hide AllKnown, Layout, Proper;
    forall k | 0 <= k < |ws| ensures FitsAt(StmtsOf(ws), k) {
      ListingLayout(ws, k);
    }
    ListingLayout(ws, |ws|);
    StmtsOfKnown(ws);
  }

  lemma PutNext(done: seq<Byte>, rest: seq<Byte>, rest': seq<Byte>, w: Word)
    requires rest == [0, 0, 0, 0] + rest'
    ensures Put(done + rest, |done|, w) == (done + [ByteOf(w, 0), ByteOf(w, 1), ByteOf(w, 2), ByteOf(w, 3)]) + rest'
  {
    hide ByteOf;
  }

  lemma {:induction false} BlankMore(n: nat)
    ensures Blank(n + 4) == [0, 0, 0, 0] + Blank(n)
  {
    assert Blank(n + 4) == [0, 0, 0, 0] + Blank(n);
  }

  lemma FillOne(ss: seq<Stmt>, k: nat, out: seq<Byte>, at: nat, w: Word)
    requires k < |ss| && Ready(ss) && Fill(ss, k) == Some(out) && Occupies(ss[k]) && Layout(ss, k).addr == at
    requires Proper(ss[k]) && EncodeStmt(ss[k], Layout(ss, |ss|).syms) == Some(w)
    ensures at + 4 <= |out| && Fill(ss, k + 1) == Some(Put(out, at, w))
  {
    hide Put, Layout, EncodeStmt, Proper, NoWrap, AllProper;
    ReadyAt(ss, k);
  }

  lemma FillStart(ss: seq<Stmt>)
    requires Ready(ss)
    ensures Fill(ss, 0) == Some(Blank(Layout(ss, |ss|).top))
  {
  }

  /** After k statements the first k words are in place and the rest is still zero. */
  lemma {:induction false} ListingFill(ws: seq<Word>, k: nat)
    requires k <= |ws| && 4 * |ws| < W.TWO32 && AllKnown(ws) && Ready(StmtsOf(ws))
    ensures Fill(StmtsOf(ws), k) == Some(BytesOf(TidyWords(ws)[..k]) + Blank(4 * (|ws| - k)))
  {
    hide AllKnown, Ready, EncodeStmt, TidyWord, Put, Blank, Layout, Decode, Fill, Proper, Occupies, StmtOf;
    var ss := StmtsOf(ws);
    var ts := TidyWords(ws);
    ListingLayout(ws, |ws|);
    if k == 0 {
      FillStart(ss);
      assert BytesOf(ts[..0]) == [] && [] + Blank(4 * |ws|) == Blank(4 * |ws|);
    } else {
      ListingFill(ws, k - 1);
      ListingLayout(ws, k - 1);
      KnownAt(ws, k - 1);
      StmtOfWord(ws[k - 1]);
      BlankMore(4 * (|ws| - k));
      assert ts[..k][..k - 1] == ts[..k - 1];
      FillOne(ss, k - 1, BytesOf(ts[..k - 1]) + Blank(4 * (|ws| - (k - 1))), 4 * (k - 1), ts[k - 1]);
      PutNext(BytesOf(ts[..k - 1]), Blank(4 * (|ws| - (k - 1))), Blank(4 * (|ws| - k)), ts[k - 1]);
    }
  }

  lemma KnownAt(ws: seq<Word>, k: nat)
    requires AllKnown(ws) && k < |ws|
    ensures Decode(ws[k]).op != Illegal
  {
  }

  /** Reassembling a listing, in every case: it fails on unknown opcodes and on no words at all, and otherwise gives back
      the words without what their formats leave out. */
  lemma Reassembled(b: seq<Byte>)
    requires |b| < W.TWO32
    ensures var ws := WordsOf(b);
            Fits(Listing(ws)) && Assemble(Listing(ws)) == if ws != [] && AllKnown(ws) then Some(BytesOf(TidyWords(ws))) else None
  {
    var ws := WordsOf(b);
    ReadListing(ws);
    if AllKnown(ws) {
      ListingFits(ws);
      hide AllKnown, L.Lex, ParseStmts, Fill, Layout, Proper, NoWrap, AllProper;
      ListingFill(ws, |ws|);
      assert TidyWords(ws)[..|ws|] == TidyWords(ws) && Blank(0) == [];
      assert BytesOf(TidyWords(ws)) + [] == BytesOf(TidyWords(ws));
    }
  }

  lemma TidyCanonical(w: Word)
    ensures Canonical(w) <==> Decode(w).op != Illegal && TidyWord(w) == w
  {
    if Decode(w).op != Illegal {
      DecodedInRange(w);
      TidyProper(Decode(w));
      EncodeOfDecode(w);
      DecodeOfEncode(Tidy(Decode(w)));
      hide Decode, Encode, Tidy, UnusedZero;
    }
  }

  predicate AllCanonical(ws: seq<Word>) { forall i :: 0 <= i < |ws| ==> Canonical(ws[i]) }

  lemma TidyNothing(ws: seq<Word>)
    ensures AllCanonical(ws) <==> AllKnown(ws) && TidyWords(ws) == ws
  {
    hide Canonical, Decode, TidyWord;
    forall i | 0 <= i < |ws| ensures Canonical(ws[i]) <==> Decode(ws[i]).op != Illegal && TidyWord(ws[i]) == ws[i] {
      TidyCanonical(ws[i]);
    }
    if AllKnown(ws) && TidyWords(ws) == ws {
      forall i | 0 <= i < |ws| ensures Canonical(ws[i]) {
        assert TidyWords(ws)[i] == ws[i];
      }
    }
  }

  /** Assembling the disassembly gives back an image exactly if it is a non-empty sequence of canonical words. */
  lemma RoundTrip(b: seq<Byte>)
    requires |b| < W.TWO32
    ensures var ws := WordsOf(b);
            Fits(Listing(ws)) && (Assemble(Listing(ws)) == Some(b) <==> b != [] && |b| % 4 == 0 && AllCanonical(ws))
  {
    var ws := WordsOf(b);
    Reassembled(b);
    TidyNothing(ws);
    hide AllCanonical, AllKnown, Assemble, Listing, Fits, TidyWords;
    if |b| % 4 == 0 {
      WordsMakeBytes(b);
      BytesMakeWords(TidyWords(ws));
    }
  }

  // ----- Code-only programs -----

  /** No data words, and every origin word-aligned. */
  predicate CodeOnly(ss: seq<Stmt>) {
    forall i :: 0 <= i < |ss| ==> !ss[i].Data? && (ss[i].Org? ==> ss[i].addr % 4 == 0)
  }

  lemma {:induction false} AlignedLayout(ss: seq<Stmt>, k: nat)
    requires k <= |ss| && CodeOnly(ss)
    ensures Layout(ss, k).addr % 4 == 0 && Layout(ss, k).top % 4 == 0
  {
    if k > 0 {
      AlignedLayout(ss, k - 1);
      AlignedStep(Layout(ss, k - 1), ss[k - 1]);
    }
  }

  lemma AlignedStep(p: Place, s: Stmt)
    requires p.addr % 4 == 0 && p.top % 4 == 0 && (s.Org? ==> s.addr % 4 == 0)
    ensures Locate(p, s).addr % 4 == 0 && Locate(p, s).top % 4 == 0
  {
  }

  lemma EncodedCanonical(s: Stmt, syms: seq<Symbol>)
    requires s.Instr? && Proper(s) && EncodeStmt(s, syms).Some?
    ensures Canonical(EncodeStmt(s, syms).value)
  {
    hide Encode, Decode, Lookup, ToInt32;
    var imm := if s.target.None? then s.f.imm else ToInt32(Lookup(syms, s.target.value).value);
    DecodeOfEncode(s.f.(imm := imm));
  }

  ghost predicate CanonicalAt(b: seq<Byte>, at: nat)
    requires at + 4 <= |b|
  {
    at % 4 == 0 ==> Canonical(WordAt(b, at))
  }

  lemma BlankCanonical(n: nat, at: nat)
    requires at + 4 <= n
    ensures CanonicalAt(Blank(n), at)
  {
    ZeroCanonical();
    hide Blank, Canonical;
    assert WordAt(Blank(n), at) == 0;
  }

  /** Padding reads as NOP. */
  lemma ZeroCanonical()
    ensures Canonical(0) && Decode(0) == Fields(NOP, 0, 0, 0)
  {
  }

  lemma PutAt(b: seq<Byte>, at: nat, w: Word, j: nat)
    requires at + 4 <= |b| && j < |b|
    ensures Put(b, at, w)[j] == if at <= j < at + 4 then ByteOf(w, j - at) else b[j]
  {
    hide ByteOf;
  }

  lemma ApartOrEqual(x: nat, at: nat)
    requires at % 4 == 0 && x % 4 == 0
    ensures x == at || x + 4 <= at || at + 4 <= x
  {
  }

  lemma PutWord(b: seq<Byte>, at: nat, w: Word, x: nat)
    requires at + 4 <= |b| && at % 4 == 0 && x + 4 <= |b| && x % 4 == 0
    ensures WordAt(Put(b, at, w), x) == if x == at then w else WordAt(b, x)
  {
    hide ByteOf, Put, Join;
    ApartOrEqual(x, at);
    PutAt(b, at, w, x);
    PutAt(b, at, w, x + 1);
    PutAt(b, at, w, x + 2);
    PutAt(b, at, w, x + 3);
    if x == at {
      WordOfItsBytes(w);
    }
  }

  /** Every aligned word of a code-only image, padding included, is canonical at every stage of filling it. */
  lemma {:induction false} FilledCanonical(ss: seq<Stmt>, k: nat, at: nat)
    requires k <= |ss| && Ready(ss) && CodeOnly(ss) && Fill(ss, k).Some? && at + 4 <= Layout(ss, |ss|).top
    ensures CanonicalAt(Fill(ss, k).value, at)
  {
    hide EncodeStmt, Put, WordAt, Layout, Proper, Canonical, NoWrap, AllProper, Blank;
    if k == 0 {
      BlankCanonical(Layout(ss, |ss|).top, at);
    } else {
      FilledCanonical(ss, k - 1, at);
      if Occupies(ss[k - 1]) && at % 4 == 0 {
        ReadyAt(ss, k - 1);
        AlignedLayout(ss, k - 1);
        var w := EncodeStmt(ss[k - 1], Layout(ss, |ss|).syms).value;
        EncodedCanonical(ss[k - 1], Layout(ss, |ss|).syms);
        PutWord(Fill(ss, k - 1).value, Layout(ss, k - 1).addr, w, at);
      }
    }
  }

  lemma CodeCanonical(ss: seq<Stmt>, b: seq<Byte>)
    requires Ready(ss) && CodeOnly(ss) && Fill(ss, |ss|) == Some(b)
    ensures |b| % 4 == 0 && AllCanonical(WordsOf(b)) && |b| < W.TWO32
  {
    hide Layout, Canonical, WordAt, Fill, CodeOnly, Ready;
    AlignedLayout(ss, |ss|);
    forall i | 0 <= i < |WordsOf(b)| ensures Canonical(WordsOf(b)[i]) {
      FilledCanonical(ss, |ss|, 4 * i);
    }
  }

  /** A code-only program assembles to whole words, all of them canonical. */
  lemma CodeIsCanonical(text: string)
    requires Fits(text) && Assemble(text).Some? && CodeOnly(Statements(text).value)
    ensures var b := Assemble(text).value; |b| % 4 == 0 && AllCanonical(WordsOf(b)) && |b| < W.TWO32
  {
    hide Fill, Statements, CodeOnly, NoWrap, AllProper, WordsOf, AllCanonical;
    StatementsProper(text);
    CodeCanonical(Statements(text).value, Assemble(text).value);
  }

  /** Assembly, disassembly, assembly: the second image of a code-only program is the first. */
  lemma CodeSurvivesRoundTrip(text: string)
    requires Fits(text) && Assemble(text).Some? && CodeOnly(Statements(text).value) && Assemble(text).value != []
    ensures var b := Assemble(text).value;
            Fits(Listing(WordsOf(b))) && Assemble(Listing(WordsOf(b))) == Some(b)
  {
    hide Assemble, Listing, Fits, Statements, AllCanonical, CodeOnly;
    CodeIsCanonical(text);
    RoundTrip(Assemble(text).value);
  }

  lemma OneLine(w: Word)
    ensures Listing([w]) == Disassemble(w, "\n")
  {
    hide Disassemble;
    assert [w][1..] == [];
    assert Listing([]) == [] && "\n" + [] == "\n";
  }

  /** Canonical words have different disassemblies. */
  lemma DisassemblyDistinguishes(w: Word, v: Word)
    requires Canonical(w) && Canonical(v) && Disassemble(w, "\n") == Disassemble(v, "\n")
    ensures w == v
  {
    hide Disassemble, Assemble, Canonical;
    OneLine(w);
    OneLine(v);
    hide Listing;
    BytesMakeWords([w]);
    BytesMakeWords([v]);
    RoundTrip(BytesOf([w]));
    RoundTrip(BytesOf([v]));
    assert BytesOf([w]) == BytesOf([v]);
    assert [w] == [v];
  }
}
