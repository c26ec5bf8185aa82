/** Number literals of the assembler: hexadecimal behind 0x, octal behind 0, decimal otherwise, each read as its value. */
module AsmNumerals {
  import opened AsmLexer

  const LOWER := "0123456789abcdef"
  const UPPER := "0123456789ABCDEF"

  /** A digit and the letter case it is written in. */
  datatype Digit = Digit(v: nat, upper: bool)

  predicate AllBelow(ds: seq<Digit>, base: nat) { forall i :: 0 <= i < |ds| ==> ds[i].v < base }

  function CharOf(d: Digit): char
    requires d.v < 16
  {
    if d.upper then UPPER[d.v] else LOWER[d.v]
  }

  function Text(ds: seq<Digit>): (s: string)
    requires AllBelow(ds, 16)
    ensures |s| == |ds|
  {
    if ds == [] then [] else [CharOf(ds[0])] + Text(ds[1..])
  }

  function OneMore(acc: nat, base: nat, d: nat): nat { acc * base + d }

  /** The number the digits stand for. */
  function Value(ds: seq<Digit>, base: nat): nat {
    if ds == [] then 0 else OneMore(Value(ds[..|ds| - 1], base), base, ds[|ds| - 1].v)
  }

  lemma DigitRead(d: Digit)
    requires d.v < 16
    ensures DigitValue(CharOf(d)) == d.v && (IsDigit(CharOf(d)) <==> d.v < 10) && (CharOf(d) == '0' <==> d.v == 0)
    ensures CharOf(d) != 'x' && CharOf(d) != 'X'
  {
    if d.v < 8 {
    } else {
    }
  }

  /** The same from the left. */
  function Horner(acc: nat, ds: seq<Digit>, base: nat): nat
    decreases |ds|
  {
    if ds == [] then acc else Horner(OneMore(acc, base, ds[0].v), ds[1..], base)
  }

  lemma {:induction false} HornerStep(acc: nat, ds: seq<Digit>, base: nat)
    requires ds != []
    ensures Horner(acc, ds, base) == OneMore(Horner(acc, ds[..|ds| - 1], base), base, ds[|ds| - 1].v)
    decreases |ds|
  {
    if |ds| > 1 {
      HornerStep(OneMore(acc, base, ds[0].v), ds[1..], base);
      assert ds[1..][..|ds| - 2] == ds[..|ds| - 1][1..];
    } else {
      assert ds[1..] == [] && ds[..0] == [];
    }
  }

  lemma {:induction false} HornerIsValue(ds: seq<Digit>, base: nat)
    ensures Horner(0, ds, base) == Value(ds, base)
    decreases |ds|
  {
    if ds != [] {
      HornerStep(0, ds, base);
      HornerIsValue(ds[..|ds| - 1], base);
    }
  }

  lemma OneDigit(s: string, base: nat, acc: nat)
    requires base <= 16 && s != [] && DigitValue(s[0]) < base
    ensures ReadDigits(s, base, acc) == ReadDigits(s[1..], base, OneMore(acc, base, DigitValue(s[0])))
  {
    hide DigitValue;
  }

  lemma {:induction false} DigitsRead(ds: seq<Digit>, rest: string, base: nat, acc: nat)
    requires base <= 16 && AllBelow(ds, base) && base <= DigitValue(Peek(rest))
    ensures ReadDigits(Text(ds) + rest, base, acc) == Number(Horner(acc, ds, base), rest)
    decreases |ds|
  {
    hide DigitValue, CharOf, OneMore;
    if ds == [] {
      assert Text(ds) + rest == rest;
    } else {
      var s := Text(ds) + rest;
      DigitRead(ds[0]);
      assert s[0] == CharOf(ds[0]) && s[1..] == Text(ds[1..]) + rest;
      hide ReadDigits;
      OneDigit(s, base, acc);
      DigitsRead(ds[1..], rest, base, OneMore(acc, base, ds[0].v));
    }
  }

  /** Numbers beyond the range of a long are cut off at its end. */
  function Saturated(v: nat): nat { if v <= LONG_MAX then v else LONG_MAX }

  /** No letter, digit or underscore follows. */
  predicate Ends(rest: string) { !WordChar(Peek(rest), true) }

  lemma NoDigit(rest: string)
    requires Ends(rest)
    ensures DigitValue(Peek(rest)) == 16 && Peek(rest) != 'x' && Peek(rest) != 'X'
  {
  }

  lemma HexadecimalRead(x: char, ds: seq<Digit>, rest: string)
    requires x in {'x', 'X'} && ds != [] && AllBelow(ds, 16) && Ends(rest)
    ensures StrToL(['0', x] + (Text(ds) + rest)) == Number(Saturated(Value(ds, 16)), rest)
  {
    var s := ['0', x] + (Text(ds) + rest);
    NoDigit(rest);
    DigitRead(ds[0]);
    DigitsRead(ds, rest, 16, 0);
    HornerIsValue(ds, 16);
    assert s[2] == CharOf(ds[0]) && s[2..] == Text(ds) + rest;
    hide ReadDigits, DigitValue, Value, Horner;
  }

  lemma OctalRead(ds: seq<Digit>, rest: string)
    requires AllBelow(ds, 8) && Ends(rest)
    ensures StrToL(['0'] + (Text(ds) + rest)) == Number(Saturated(Value(ds, 8)), rest)
  {
    var s := ['0'] + (Text(ds) + rest);
    NoDigit(rest);
    if ds != [] {
      DigitRead(ds[0]);
      assert s[1] == CharOf(ds[0]);
    } else {
      assert Text(ds) + rest == rest;
    }
    DigitsRead(ds, rest, 8, 0);
    HornerIsValue(ds, 8);
    assert s[1..] == Text(ds) + rest;
    hide ReadDigits, Value, Horner;
    OneDigit(s, 8, 0);
  }

  lemma DecimalRead(ds: seq<Digit>, rest: string)
    requires ds != [] && ds[0].v != 0 && AllBelow(ds, 10) && Ends(rest)
    ensures StrToL(Text(ds) + rest) == Number(Saturated(Value(ds, 10)), rest)
  {
    var s := Text(ds) + rest;
    NoDigit(rest);
    DigitRead(ds[0]);
    assert s[0] == CharOf(ds[0]);
    DigitsRead(ds, rest, 10, 0);
    HornerIsValue(ds, 10);
    hide ReadDigits, DigitValue, Value, Horner;
  }
}
