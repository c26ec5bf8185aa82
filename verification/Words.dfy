/** 32-bit words as the CPU's registers hold them. */
module Words {
  import I = InstStream

  type Word = I.Word

  const TWO32 := 0x1_0000_0000

  /** Truncation to 32 bits. */
  function Wrap(x: int): Word { x % TWO32 }

  /** Bit 31. */
  predicate Negative(w: Word) { 0x8000_0000 <= w }

  /** The two's complement reading. */
  function Signed(w: Word): int { if Negative(w) then w - TWO32 else w }

  function Mul(a: Word, b: Word): Word { Wrap(a * b) }

  function Div(a: Word, b: Word): (q: Word)
    requires b != 0
    ensures q <= a
  {
    QuotientInRange(a, b);
    a / b
  }

  /** Bitwise conjunction, from the lowest bit up. */
  function And(a: nat, b: nat): (r: nat)
    ensures r <= a && r <= b
  {
    if a == 0 || b == 0 then 0 else 2 * And(a / 2, b / 2) + if a % 2 == 1 && b % 2 == 1 then 1 else 0
  }

  function OrBits(a: nat, b: nat): nat {
    if a == 0 && b == 0 then 0 else 2 * OrBits(a / 2, b / 2) + if a % 2 == 1 || b % 2 == 1 then 1 else 0
  }

  function XorBits(a: nat, b: nat): nat {
    if a == 0 && b == 0 then 0 else 2 * XorBits(a / 2, b / 2) + if a % 2 != b % 2 then 1 else 0
  }

  function WordBits(): nat { 32 }

  lemma WordPower()
    ensures Pow2(WordBits()) == TWO32
  {
    NextNibble(0);
    NextNibble(4);
    NextNibble(8);
    NextNibble(12);
    NextNibble(16);
    NextNibble(20);
    NextNibble(24);
    NextNibble(28);
  }

  lemma NextNibble(k: nat)
    ensures Pow2(k + 4) == 16 * Pow2(k)
  {
    assert Pow2(k + 4) == 2 * Pow2(k + 3) && Pow2(k + 3) == 2 * Pow2(k + 2) && Pow2(k + 2) == 2 * Pow2(k + 1);
  }

  function Or(a: Word, b: Word): Word {
    WordPower();
    BitsInRange(a, b, WordBits());
    OrBits(a, b)
  }

  function Xor(a: Word, b: Word): Word {
    WordPower();
    BitsInRange(a, b, WordBits());
    XorBits(a, b)
  }

  lemma {:induction false} BitsInRange(a: nat, b: nat, k: nat)
    requires a < Pow2(k) && b < Pow2(k)
    ensures OrBits(a, b) < Pow2(k) && XorBits(a, b) < Pow2(k)
  {
    if a != 0 || b != 0 {
      BitsInRange(a / 2, b / 2, k - 1);
    }
  }

  function Not(a: Word): Word { TWO32 - 1 - a }

  function Pow2(k: nat): (p: nat)
    ensures 1 <= p
  {
    if k == 0 then 1 else 2 * Pow2(k - 1)
  }

  /** Shifts by 32 or more are undefined in C. */
  function Shl(a: Word, k: Word): Word
    requires k < 32
  {
    Wrap(a * Pow2(k))
  }

  function Shr(a: Word, k: Word): (q: Word)
    requires k < 32
    ensures q <= a
  {
    QuotientInRange(a, Pow2(k));
    a / Pow2(k)
  }

  lemma QuotientInRange(a: nat, b: int)
    requires 1 <= b
    ensures 0 <= a / b <= a
  {
  }

  lemma WrapIdentity(x: int)
    requires 0 <= x < TWO32
    ensures Wrap(x) == x
  {
  }

  lemma WrapAdds(x: int, y: int)
    ensures Wrap(Wrap(x) + y) == Wrap(x + y)
    ensures Wrap(x + Wrap(y)) == Wrap(x + y)
  {
  }

  lemma {:induction false} AndSelf(a: nat)
    ensures And(a, a) == a
  {
    if a != 0 {
      AndSelf(a / 2);
    }
  }

  /** Scaling an index by a word is a shift by two. */
  lemma ScaledByFour(a: Word)
    ensures Shl(a, 2) == Wrap(4 * a)
  {
    assert Pow2(2) == 2 * Pow2(1) && Pow2(1) == 2 * Pow2(0);
  }

  /** The remainder the compiler builds from division, multiplication and subtraction. */
  lemma RemainderByParts(a: Word, b: Word)
    requires b != 0
    ensures Wrap(a - Mul(Div(a, b), b)) == a % b
  {
    var q := a / b;
    assert a == q * b + a % b && 0 <= q * b <= a;
    WrapIdentity(q * b);
    WrapIdentity(a % b);
  }
}
