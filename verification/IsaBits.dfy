/** The shifts and masks of the instruction layout, taken bit by bit, are the field arithmetic of Isa. */
module IsaBits {
  import A = Arith
  import opened InstStream
  import opened Isa
  import W = Words

  const OPCODE_MASK: Word := 0xFC00_0000
  const RDEST_MASK: Word := 0x0380_0000
  const RSRC_MASK: Word := 0x0070_0000
  const IMM_MASK: Word := 0x000F_FFFF
  const IMM_SIGN_BIT: Word := 0x0008_0000

  /** Shifting up and down one bit at a time. */
  function Up(x: nat, k: nat): nat { if k == 0 then x else 2 * Up(x, k - 1) }

  function Down(x: nat, k: nat): nat
    decreases k
  {
    if k == 0 then x else Down(x / 2, k - 1)
  }

  lemma NextPower(k: nat)
    requires 1 <= k
    ensures W.Pow2(k) == 2 * W.Pow2(k - 1)
  {
  }

  lemma TwiceProduct(x: nat, p: nat)
    ensures x * (2 * p) == 2 * (x * p)
  {
  }

  lemma {:induction false} UpIsProduct(x: nat, k: nat)
    ensures Up(x, k) == x * W.Pow2(k)
  {
    if k > 0 {
      UpIsProduct(x, k - 1);
      NextPower(k);
      TwiceProduct(x, W.Pow2(k - 1));
    }
  }

  lemma {:induction false} DownIsQuotient(x: nat, k: nat)
    ensures Down(x, k) == x / W.Pow2(k)
    decreases k
  {
    if k > 0 {
      DownIsQuotient(x / 2, k - 1);
      NextPower(k);
      A.Halves(x, W.Pow2(k - 1));
    }
  }

  lemma {:induction false} DownOfUp(x: nat, k: nat)
    ensures Down(Up(x, k), k) == x
    decreases k
  {
    if k > 0 {
      DownOfUp(x, k - 1);
    }
  }

  // ----- Bits -----

  lemma OrStep(a: nat, b: nat)
    ensures W.OrBits(a, b) == 2 * W.OrBits(a / 2, b / 2) + if a % 2 == 1 || b % 2 == 1 then 1 else 0
  {
  }

  lemma AndStep(a: nat, b: nat)
    ensures W.And(a, b) == 2 * W.And(a / 2, b / 2) + if a % 2 == 1 && b % 2 == 1 then 1 else 0
  {
  }

  lemma {:induction false} OrZero(a: nat)
    ensures W.OrBits(a, 0) == a && W.OrBits(0, a) == a
  {
    if a != 0 {
      OrZero(a / 2);
    }
  }

  /** Joining something below 2^k with bits from k up adds them. */
  lemma {:induction false} OrDisjoint(q: nat, b: nat, k: nat)
    requires b < W.Pow2(k)
    ensures W.OrBits(Up(q, k), b) == Up(q, k) + b && W.OrBits(b, Up(q, k)) == Up(q, k) + b
    decreases k
  {
    if k == 0 {
      OrZero(q);
    } else {
      NextPower(k);
      OrDisjoint(q, b / 2, k - 1);
      OrStep(Up(q, k), b);
      OrStep(b, Up(q, k));
    }
  }

  /** Masking with k ones keeps the remainder. */
  lemma {:induction false} AndLow(x: nat, k: nat)
    ensures W.And(x, W.Pow2(k) - 1) == x % W.Pow2(k)
    decreases k
  {
    if k > 0 {
      AndLow(x / 2, k - 1);
      NextPower(k);
      hide W.And, W.Pow2;
      var p := W.Pow2(k - 1);
      AndStep(x, 2 * p - 1);
      assert (2 * p - 1) / 2 == p - 1 && (2 * p - 1) % 2 == 1;
      A.Halves(x, p);
    }
  }

  /** A mask shifted up by k masks what is left after shifting down by k. */
  lemma {:induction false} AndHigh(x: nat, m: nat, k: nat)
    ensures W.And(x, Up(m, k)) == Up(W.And(Down(x, k), m), k)
    decreases k
  {
    if k > 0 {
      AndHigh(x / 2, m, k - 1);
      AndStep(x, Up(m, k));
    }
  }

  lemma Powers()
    ensures W.Pow2(3) == 8 && W.Pow2(6) == 64
    ensures W.Pow2(19) == 0x8_0000 && W.Pow2(20) == 0x10_0000 && W.Pow2(23) == 0x80_0000 && W.Pow2(26) == 0x400_0000
  {
    assert W.Pow2(3) == 2 * W.Pow2(2) && W.Pow2(2) == 2 * W.Pow2(1) && W.Pow2(1) == 2 * W.Pow2(0);
    W.NextNibble(3);
    W.NextNibble(7);
    W.NextNibble(11);
    W.NextNibble(15);
    W.NextNibble(19);
    W.NextNibble(2);
    W.NextNibble(6);
    W.NextNibble(10);
    W.NextNibble(14);
    W.NextNibble(18);
    W.NextNibble(22);
    assert W.Pow2(20) == 2 * W.Pow2(19);
  }

  /** A field of n bits above bit k, masked and shifted down. */
  lemma FieldBits(w: Word, mask: Word, n: nat, k: nat)
    requires k < 32 && mask == Up(W.Pow2(n) - 1, k)
    ensures W.Shr(W.And(w, mask), k) == Down(w, k) % W.Pow2(n)
  {
    AndHigh(w, W.Pow2(n) - 1, k);
    AndLow(Down(w, k), n);
    DownIsQuotient(W.And(w, mask), k);
    DownOfUp(Down(w, k) % W.Pow2(n), k);
  }

  /** The same with p = 2^k and a mask of `ones` = 2^n - 1, as numbers. */
  lemma FieldAt(w: Word, mask: Word, n: nat, k: nat, ones: nat, p: nat)
    requires k < 32 && W.Pow2(n) == ones + 1 && W.Pow2(k) == p && mask == ones * p
    ensures W.Shr(W.And(w, mask), k) == w / p % (ones + 1)
  {
    UpIsProduct(ones, k);
    FieldBits(w, mask, n, k);
    DownIsQuotient(w, k);
  }

  lemma OpcodeBits(w: Word)
    ensures W.Shr(W.And(w, OPCODE_MASK), 26) == w / 0x400_0000
  {
    Powers();
    FieldAt(w, OPCODE_MASK, 6, 26, 63, 0x400_0000);
    hide W.And, W.Pow2, W.Shr;
    assert w / 0x400_0000 % 64 == w / 0x400_0000;
  }

  lemma RegisterBits(w: Word)
    ensures W.Shr(W.And(w, RDEST_MASK), 23) == w / 0x80_0000 % 8
    ensures W.Shr(W.And(w, RSRC_MASK), 20) == w / 0x10_0000 % 8
  {
    Powers();
    FieldAt(w, RDEST_MASK, 3, 23, 7, 0x80_0000);
    FieldAt(w, RSRC_MASK, 3, 20, 7, 0x10_0000);
  }

  /** Decoding masks and shifts. */
  lemma DecodeIsBitwise(w: Word)
    ensures var f := Decode(w);
            && f.op == OpcodeOf(W.Shr(W.And(w, OPCODE_MASK), 26))
            && f.rd == W.Shr(W.And(w, RDEST_MASK), 23)
            && f.rs == W.Shr(W.And(w, RSRC_MASK), 20)
            && f.imm == SignExtendBits(w)
  {
    hide W.And, W.Pow2, W.Shr, OpcodeOf, SignExtendBits, SignExtend20;
    OpcodeBits(w);
    RegisterBits(w);
    SignExtendBitwise(w);
  }

  /** Sign extension as written: mask, test the sign bit, set every bit above, read as signed. */
  function SignExtendBits(v: Word): int {
    var x := W.And(v, IMM_MASK);
    W.Signed(if W.And(x, IMM_SIGN_BIT) != 0 then W.Or(x, W.Not(IMM_MASK)) else x)
  }

  lemma SignExtendBitwise(v: Word)
    ensures SignExtendBits(v) == SignExtend20(v)
  {
    Powers();
    AndLow(v, 20);
    var x := v % IMM_RANGE;
    AndHigh(x, 1, 19);
    DownIsQuotient(x, 19);
    UpIsProduct(1, 19);
    UpIsProduct(W.And(Down(x, 19), 1), 19);
    AndLow(x / 0x8_0000, 1);
    NextPower(1);
    UpIsProduct(0xFFF, 20);
    OrDisjoint(0xFFF, x, 20);
    hide W.And, W.OrBits, W.Pow2, Up, Down;
  }

  /** Encoding shifts and joins. */
  lemma EncodeIsBitwise(f: Fields)
    requires f.op != Illegal
    ensures Encode(f) == W.Or(W.Or(W.Or(W.Shl(CodeOf(f.op), 26), W.Shl(f.rd, 23)), W.Shl(f.rs, 20)),
                              W.And(W.Wrap(f.imm), IMM_MASK))
  {
    MaskedImmediate(f.imm);
    hide CodeOf, W.And, W.Or, W.Shl, W.Wrap;
    Joined(CodeOf(f.op), f.rd, f.rs, f.imm % IMM_RANGE);
  }

  lemma MaskedImmediate(imm: int)
    ensures W.And(W.Wrap(imm), IMM_MASK) == imm % IMM_RANGE
  {
    assert W.Pow2(20) == IMM_RANGE by { Powers(); }
    hide W.And, W.Pow2, W.Wrap;
    AndLow(W.Wrap(imm), 20);
    WrapKeepsLow(imm);
  }

  lemma WrapKeepsLow(imm: int)
    ensures W.Wrap(imm) % IMM_RANGE == imm % IMM_RANGE
  {
    var q, w := imm / W.TWO32, W.Wrap(imm);
    assert imm == (4096 * q + w / IMM_RANGE) * IMM_RANGE + w % IMM_RANGE;
    LowPart(4096 * q + w / IMM_RANGE, w % IMM_RANGE);
  }

  lemma LowPart(k: int, r: nat)
    requires r < IMM_RANGE
    ensures (k * IMM_RANGE + r) % IMM_RANGE == r
  {
  }

  lemma Shifted(a: Word, k: Word, p: nat)
    requires k < 32 && W.Pow2(k) == p && a * p < W.TWO32
    ensures W.Shl(a, k) == a * p
  {
  }

  lemma Joined(c: Word, d: Word, s: Word, i: Word)
    requires c < 64 && d < 8 && s < 8 && i < IMM_RANGE
    ensures W.Or(W.Or(W.Or(W.Shl(c, 26), W.Shl(d, 23)), W.Shl(s, 20)), i)
         == c * 0x400_0000 + d * 0x80_0000 + s * 0x10_0000 + i
  {
    Powers();
    Shifted(c, 26, 0x400_0000);
    Shifted(d, 23, 0x80_0000);
    Shifted(s, 20, 0x10_0000);
    UpIsProduct(c, 26);
    UpIsProduct(c * 8 + d, 23);
    UpIsProduct(c * 64 + d * 8 + s, 20);
    OrDisjoint(c, d * 0x80_0000, 26);
    OrDisjoint(c * 8 + d, s * 0x10_0000, 23);
    OrDisjoint(c * 64 + d * 8 + s, i, 20);
    hide W.OrBits, W.Pow2, W.Shl, Up;
  }
}
