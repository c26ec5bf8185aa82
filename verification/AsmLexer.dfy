/** The assembler's lexer, as a function of the remaining text and as the loop that computes it. */
module AsmLexer {
  import opened Wrappers
  import I = InstStream

  const NAME_MAX := 63
  const LONG_MAX := 0x7FFF_FFFF_FFFF_FFFF

  datatype Token =
    | Eof | Newline | Ident(text: string) | RegTok(r: I.Reg) | Num(v: nat)
    | Comma | LBrack | RBrack | Plus | Minus | Colon | Directive(text: string)

  predicate IsDigit(c: char) { '0' <= c <= '9' }

  predicate IsAlpha(c: char) { 'a' <= c <= 'z' || 'A' <= c <= 'Z' }

  predicate IsSpace(c: char) { c == ' ' || '\t' <= c <= '\r' }

  /** Letters and digits, and in names the underscore. */
  predicate WordChar(c: char, under: bool) { IsAlpha(c) || IsDigit(c) || (under && c == '_') }

  /** Text ends at a NUL if it has one. */
  function Peek(s: string): char { if s == [] then '\0' else s[0] }

  function WordLen(s: string, under: bool, room: nat): (n: nat)
    ensures n <= |s| && n <= room
  {
    if room == 0 || !WordChar(Peek(s), under) then 0 else 1 + WordLen(s[1..], under, room - 1)
  }

  function CommentLen(s: string): (n: nat)
    ensures n <= |s|
  {
    if Peek(s) == '\0' || Peek(s) == '\n' then 0 else 1 + CommentLen(s[1..])
  }

  // ----- Numbers: strtol with base 0 -----

  datatype Number = Number(v: nat, rest: string)

  /** 16 stands for no digit in any base. */
  function DigitValue(c: char): nat {
    if IsDigit(c) then (c - '0') as nat
    else if 'a' <= c <= 'f' then (c - 'a') as nat + 10
    else if 'A' <= c <= 'F' then (c - 'A') as nat + 10
    else 16
  }

  function ReadDigits(s: string, base: nat, acc: nat): (r: Number)
    requires base <= 16
    ensures |r.rest| <= |s|
    ensures DigitValue(Peek(s)) < base ==> |r.rest| < |s|
  {
    if DigitValue(Peek(s)) < base then ReadDigits(s[1..], base, acc * base + DigitValue(s[0])) else Number(acc, s)
  }

  /** 0x and a hexadecimal digit, octal behind a zero, decimal otherwise; too large a number saturates. */
  function StrToL(s: string): (r: Number)
    requires IsDigit(Peek(s))
    ensures |r.rest| < |s| && r.v <= LONG_MAX
  {
    var r :=
      if s[0] != '0' then ReadDigits(s, 10, 0)
      else if |s| > 2 && (s[1] == 'x' || s[1] == 'X') && DigitValue(s[2]) < 16 then ReadDigits(s[2..], 16, 0)
      else ReadDigits(s, 8, 0);
    Number(if r.v <= LONG_MAX then r.v else LONG_MAX, r.rest)
  }

  // ----- Tokens -----

  predicate IsReg(s: string) { |s| == 2 && (s[0] == 'R' || s[0] == 'r') && '0' <= s[1] <= '7' }

  function NameToken(s: string): Token {
    if IsReg(s) then RegTok((s[1] - '0') as nat) else Ident(s)
  }

  function Punctuation(c: char): Option<Token> {
    match c
    case ',' => Some(Comma)
    case '[' => Some(LBrack)
    case ']' => Some(RBrack)
    case '+' => Some(Plus)
    case ':' => Some(Colon)
    case '-' => Some(Minus)
    case _ => None
  }

  datatype Scan = Blank(rest: string) | Found(t: Token, rest: string) | Unexpected

  /** One turn of the lexer's loop. */
  function ScanOne(s: string): (r: Scan)
    requires Peek(s) != '\0'
    ensures !r.Unexpected? ==> |r.rest| < |s|
  {
    var c := s[0];
    if c == '\n' then Found(Newline, s[1..])
    else if c == ';' then Blank(s[CommentLen(s)..])
    else if IsSpace(c) then Blank(s[1..])
    else if Punctuation(c).Some? then Found(Punctuation(c).value, s[1..])
    else if IsDigit(c) then var n := StrToL(s); Found(Num(n.v), n.rest)
    else if c == '.' then var n := WordLen(s[1..], false, NAME_MAX); Found(Directive(s[1..][..n]), s[1..][n..])
    else if WordChar(c, true) then var n := WordLen(s, true, NAME_MAX); Found(NameToken(s[..n]), s[n..])
    else Unexpected
  }

  function Before(t: Token, r: Option<seq<Token>>): Option<seq<Token>> { if r.None? then None else Some([t] + r.value) }

  function Lex(s: string): (r: Option<seq<Token>>)
    ensures r.Some? ==> r.value != [] && r.value[|r.value| - 1] == Eof
    decreases |s|
  {
    if Peek(s) == '\0' then Some([Eof])
    else
      match ScanOne(s)
      case Blank(rest) => Lex(rest)
      case Found(t, rest) => Before(t, Lex(rest))
      case Unexpected => None
  }

  // ----- The loop -----

  method SkipComment(src: string, p: nat) returns (q: nat)
    requires p <= |src|
    ensures q == p + CommentLen(src[p..]) <= |src|
  {
    q := p;
    while q < |src| && src[q] != '\0' && src[q] != '\n'
      invariant p <= q <= |src| && q + CommentLen(src[q..]) == p + CommentLen(src[p..])
    {
      assert src[q..][1..] == src[q + 1..];
      q := q + 1;
    }
  }

  method ReadWord(src: string, p: nat, under: bool) returns (text: string, q: nat)
    requires p <= |src|
    ensures var n := WordLen(src[p..], under, NAME_MAX); q == p + n <= |src| && text == src[p..][..n]
  {
    hide WordChar;
    q, text := p, [];
    while q < |src| && WordChar(src[q], under) && |text| < NAME_MAX
      invariant p <= q <= |src| && |text| == q - p <= NAME_MAX && text == src[p..q]
      invariant q + WordLen(src[q..], under, NAME_MAX - |text|) == p + WordLen(src[p..], under, NAME_MAX)
    {
      assert src[q..][1..] == src[q + 1..];
      q, text := q + 1, text + [src[q]];
    }
  }

  function After(v: seq<Token>, r: Option<seq<Token>>): Option<seq<Token>> { if r.None? then None else Some(v + r.value) }

  lemma AfterNothing(r: Option<seq<Token>>)
    ensures After([], r) == r
  {
    if r.Some? {
      assert [] + r.value == r.value;
    }
  }

  lemma AfterOneMore(v: seq<Token>, t: Token, r: Option<seq<Token>>)
    ensures After(v, Before(t, r)) == After(v + [t], r)
  {
    if r.Some? {
      assert v + ([t] + r.value) == (v + [t]) + r.value;
    }
  }

  lemma AfterSplit(src: string, p: nat, k: nat)
    requires p + k <= |src|
    ensures src[p..][k..] == src[p + k..]
  {
  }

  /** The token that starts at p, if one does, and where the next begins. */
  method Scanned(src: string, p: nat) returns (t: Option<Token>, q: nat, ok: bool)
    requires p < |src| && src[p] != '\0'
    ensures q <= |src| && (ok ==> p < q)
    ensures match ScanOne(src[p..])
            case Blank(rest) => ok && t.None? && rest == src[q..]
            case Found(u, rest) => ok && t == Some(u) && rest == src[q..]
            case Unexpected => !ok
  {
    hide StrToL, NameToken;
    var c := src[p];
    t, q, ok := None, p + 1, true;
    AfterSplit(src, p, 1);
    if c == '\n' {
      t := Some(Newline);
    } else if c == ';' {
      q := SkipComment(src, p);
      AfterSplit(src, p, q - p);
    } else if IsSpace(c) {
    } else if Punctuation(c).Some? {
      t := Punctuation(c);
    } else if IsDigit(c) {
      var n := StrToL(src[p..]);
      NumberIsSuffix(src[p..]);
      t, q := Some(Num(n.v)), |src| - |n.rest|;
      AfterSplit(src, p, q - p);
    } else if c == '.' {
      var text;
      text, q := ReadWord(src, p + 1, false);
      AfterSplit(src, p + 1, q - (p + 1));
      t := Some(Directive(text));
    } else if IsAlpha(c) || c == '_' {
      var text;
      text, q := ReadWord(src, p, true);
      AfterSplit(src, p, q - p);
      t := Some(NameToken(text));
    } else {
      ok := false;
    }
  }

  lemma {:induction false} DigitsAreSuffix(s: string, base: nat, acc: nat)
    requires base <= 16
    ensures var r := ReadDigits(s, base, acc).rest; r == s[|s| - |r|..]
    decreases |s|
  {
    if DigitValue(Peek(s)) < base {
      DigitsAreSuffix(s[1..], base, acc * base + DigitValue(s[0]));
    }
  }

  lemma NumberIsSuffix(s: string)
    requires IsDigit(Peek(s))
    ensures var r := StrToL(s).rest; |r| < |s| && r == s[|s| - |r|..]
  {
    DigitsAreSuffix(s, 10, 0);
    DigitsAreSuffix(s, 8, 0);
    if |s| > 2 {
      DigitsAreSuffix(s[2..], 16, 0);
    }
  }

  method LexText(src: string) returns (r: Option<seq<Token>>)
    ensures r == Lex(src)
  {
    hide ScanOne;
    var p, v := 0, [];
    AfterNothing(Lex(src));
    assert src[0..] == src;
    while p < |src| && src[p] != '\0'
      invariant p <= |src| && After(v, Lex(src[p..])) == Lex(src)
    {
      var t, q, ok := Scanned(src, p);
      if !ok { return None; }
      if t.Some? {
        AfterOneMore(v, t.value, Lex(src[q..]));
        v := v + [t.value];
      }
      p := q;
    }
    r := Some(v + [Eof]);
  }
}
