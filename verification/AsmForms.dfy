/** Spellings that mean the same to the assembler: letter case, blanks and comments, a missing offset, signs. */
module AsmForms {
  import opened Wrappers
  import opened InstStream
  import opened Isa
  import opened AsmLexer
  import opened AsmParser
  import W = Words

  // ----- Text -----

  /** Blanks between tokens do not count. */
  lemma BlankIgnored(c: char, s: string)
    requires c in {' ', '\t', '\r', 11 as char, 12 as char}
    ensures Lex([c] + s) == Lex(s)
  {
    assert ([c] + s)[1..] == s;
  }

  lemma {:induction false} CommentSpan(text: string, s: string)
    requires (s == [] || s[0] == '\n') && forall i :: 0 <= i < |text| ==> text[i] != '\n' && text[i] != '\0'
    ensures CommentLen(text + s) == |text|
  {
    if text == [] {
      assert text + s == s;
    } else {
      assert (text + s)[1..] == text[1..] + s;
      CommentSpan(text[1..], s);
    }
  }

  /** A comment goes from a semicolon to the end of its line. */
  lemma CommentIgnored(text: string, s: string)
    requires (s == [] || s[0] == '\n') && forall i :: 0 <= i < |text| ==> text[i] != '\n' && text[i] != '\0'
    ensures Lex([';'] + (text + s)) == Lex(s)
  {
    var all := [';'] + (text + s);
    assert all[1..] == text + s;
    CommentSpan(text, s);
    assert CommentLen(all) == 1 + |text|;
    assert all[1 + |text|..] == s;
    hide CommentLen;
  }

  // ----- Names -----

  lemma {:induction false} SameWordSymmetric(a: string, b: string)
    ensures SameWord(a, b) == SameWord(b, a)
  {
    if a != [] && b != [] {
      SameWordSymmetric(a[1..], b[1..]);
    }
  }

  lemma {:induction false} SameWordTransitive(a: string, b: string, c: string)
    requires SameWord(a, b)
    ensures SameWord(a, c) == SameWord(b, c)
  {
    if a != [] && b != [] && c != [] {
      if SameWord(a, c) || SameWord(b, c) {
        SameWordTransitive(a[1..], b[1..], c[1..]);
      } else if Lower(a[0]) == Lower(c[0]) {
        SameWordTransitive(a[1..], b[1..], c[1..]);
      }
    }
  }

  lemma {:induction false} FindIgnoresCase(a: string, b: string, k: nat)
    requires SameWord(a, b) && k <= |MNEMONICS|
    ensures FindFrom(a, k) == FindFrom(b, k)
    decreases |MNEMONICS| - k
  {
    if k < |MNEMONICS| {
      SameWordTransitive(a, b, OpcodeName(MNEMONICS[k]));
      hide SameWord, OpcodeName;
      FindIgnoresCase(a, b, k + 1);
    }
  }

  /** Words that differ in letter case only: equally long, and letter by letter the same or 32 apart. */
  predicate CaseTwins(a: string, b: string) {
    |a| == |b| && forall i :: 0 <= i < |a| ==> Twin(a[i], b[i])
  }

  predicate Twin(c: char, d: char) {
    c == d || ('A' <= c <= 'Z' && d as int == c as int + 32) || ('A' <= d <= 'Z' && c as int == d as int + 32)
  }

  lemma {:induction false} TwinsAreSame(a: string, b: string)
    ensures CaseTwins(a, b) <==> SameWord(a, b)
  {
    if a != [] && b != [] {
      TwinsAreSame(a[1..], b[1..]);
      LetterTwins(a[0], b[0]);
      assert CaseTwins(a, b) <==> Twin(a[0], b[0]) && CaseTwins(a[1..], b[1..]) by {
        if Twin(a[0], b[0]) && CaseTwins(a[1..], b[1..]) {
          forall i | 0 <= i < |a| ensures Twin(a[i], b[i]) {
            assert i > 0 ==> a[i] == a[1..][i - 1] && b[i] == b[1..][i - 1];
          }
        }
        if CaseTwins(a, b) {
          forall i | 0 <= i < |a[1..]| ensures Twin(a[1..][i], b[1..][i]) {
            assert Twin(a[i + 1], b[i + 1]);
          }
        }
      }
      hide Twin, CaseTwins, Lower;
    }
  }

  lemma LetterTwins(c: char, d: char)
    ensures Twin(c, d) <==> Lower(c) == Lower(d)
  {
  }

  /** Mnemonics and directives are read in any case. */
  lemma CaseIgnored(a: string, b: string, toks: seq<Token>)
    requires CaseTwins(a, b)
    ensures Next(toks) != Colon ==> ParseNamed(a, toks) == ParseNamed(b, toks)
    ensures ParseDirective(a, toks) == ParseDirective(b, toks)
  {
    TwinsAreSame(a, b);
    FindIgnoresCase(a, b, 0);
    SameWordTransitive(a, b, "org");
    SameWordTransitive(a, b, "word");
    hide SameWord, CaseTwins;
  }

  // ----- Numbers and offsets -----

  /** What stands between the brackets after the base. */
  lemma InBrackets(r: Reg, offset: seq<Token>, rest: seq<Token>)
    ensures ParseMem([LBrack, RegTok(r)] + (offset + rest)) ==
            match ParseOffset(offset + rest)
            case None => None
            case Some(o) => if Next(o.rest) == RBrack then Some(Got(Mem(r, o.v), o.rest[1..])) else None
  {
    var toks := [LBrack, RegTok(r)] + (offset + rest);
    assert toks[1..][0] == RegTok(r) && toks[1..][1..] == offset + rest;
    hide ParseOffset;
  }

  /** A missing offset is zero. */
  lemma NoOffset(r: Reg, rest: seq<Token>)
    ensures ParseMem([LBrack, RegTok(r)] + ([RBrack] + rest)) == Some(Got(Mem(r, 0), rest))
    ensures ParseMem([LBrack, RegTok(r)] + ([Plus, Num(0), RBrack] + rest)) == Some(Got(Mem(r, 0), rest))
  {
    InBrackets(r, [RBrack], rest);
    assert ([RBrack] + rest)[1..] == rest;
    InBrackets(r, [Plus, Num(0), RBrack], rest);
    var toks := [Plus, Num(0), RBrack] + rest;
    assert toks[1..][0] == Num(0) && toks[1..][1..] == [RBrack] + rest;
    hide ParseMem;
  }

  /** Numbers are read as 32-bit two's complement, a minus sign negates. */
  lemma SignedNumbers(v: nat, rest: seq<Token>)
    ensures var p, q := ParseSigned([Num(v)] + rest), ParseSigned([Minus, Num(v)] + rest);
            && p.Some? && q.Some? && p.value.rest == q.value.rest == rest
            && (p.value.v - v) % W.TWO32 == 0 && (q.value.v + v) % W.TWO32 == 0
            && -0x8000_0000 <= p.value.v < 0x8000_0000 && -0x8000_0000 <= q.value.v < 0x8000_0000
  {
    assert ([Num(v)] + rest)[1..] == rest;
    assert ([Minus, Num(v)] + rest)[1..] == [Num(v)] + rest;
    Congruent(v);
    Congruent(0 - v);
    hide ToInt32;
  }

  lemma Congruent(x: int)
    ensures (ToInt32(x) - x) % W.TWO32 == 0 && -0x8000_0000 <= ToInt32(x) < 0x8000_0000
  {
    var q := x / W.TWO32;
    assert W.Wrap(x) - x == -q * W.TWO32;
    assert ToInt32(x) - x == -q * W.TWO32 || ToInt32(x) - x == (-q - 1) * W.TWO32;
    Multiple(-q);
    Multiple(-q - 1);
  }

  lemma Multiple(k: int)
    ensures k * W.TWO32 % W.TWO32 == 0
  {
  }

  // ----- Names -----

  predicate NameText(s: string) { s != [] && !IsDigit(s[0]) && forall i :: 0 <= i < |s| ==> WordChar(s[i], true) }

  lemma {:induction false} WordSpan(s: string, rest: string, room: nat)
    requires (forall i :: 0 <= i < |s| ==> WordChar(s[i], true)) && (room <= |s| || !WordChar(Peek(rest), true))
    ensures WordLen(s + rest, true, room) == if room <= |s| then room else |s|
  {
    hide WordChar;
    if s == [] {
      assert s + rest == rest;
    } else if room > 0 {
      assert (s + rest)[1..] == s[1..] + rest;
      WordSpan(s[1..], rest, room - 1);
    }
  }

  /** How much of a name one token takes. */
  lemma NameScanned(s: string, rest: string)
    requires NameText(s) && !WordChar(Peek(rest), true)
    ensures var n := if 63 <= |s| then 63 else |s|; ScanOne(s + rest) == Found(NameToken(s[..n]), s[n..] + rest) && Peek(s + rest) != '\0'
  {
    WordSpan(s, rest, 63);
    var n := if 63 <= |s| then 63 else |s|;
    assert (s + rest)[..n] == s[..n] && (s + rest)[n..] == s[n..] + rest;
    assert WordChar(s[0], true) && !IsDigit(s[0]);
    assert (s + rest)[0] == s[0];
    hide WordLen, NameToken, CommentLen, StrToL;
  }

  /** A name is one token up to 63 characters; what is beyond them is read as a token of its own. */
  lemma NameLength(s: string, rest: string)
    requires NameText(s) && !WordChar(Peek(rest), true)
    ensures |s| <= 63 ==> Lex(s + rest) == Before(NameToken(s), Lex(rest))
    ensures 63 < |s| ==> Lex(s + rest) == Before(Ident(s[..63]), Lex(s[63..] + rest))
  {
    hide Lex, ScanOne, NameToken, WordChar, Before;
    NameScanned(s, rest);
    if |s| <= 63 {
      assert s[..|s|] == s && s[|s|..] + rest == rest;
      FoundNext(s + rest, NameToken(s), rest);
    } else {
      LongIsNoRegister(s[..63]);
      FoundNext(s + rest, Ident(s[..63]), s[63..] + rest);
    }
  }

  lemma FoundNext(s: string, t: Token, rest: string)
    requires Peek(s) != '\0' && ScanOne(s) == Found(t, rest)
    ensures Lex(s) == Before(t, Lex(rest))
  {
    hide ScanOne;
  }

  lemma LongIsNoRegister(s: string)
    ensures 2 < |s| ==> NameToken(s) == Ident(s)
  {
  }

  /** Registers are R0 to R7 in either case; every other name of two characters is a name. */
  lemma RegisterNames(c: char, d: char, rest: string)
    requires NameText([c, d]) && !WordChar(Peek(rest), true)
    ensures Lex([c, d] + rest) == Before(if (c == 'R' || c == 'r') && d in "01234567" then RegTok((d - '0') as nat) else Ident([c, d]), Lex(rest))
  {
    NameLength([c, d], rest);
    hide Lex;
  }
}
