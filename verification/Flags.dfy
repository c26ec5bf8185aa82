/** What results and flags mean: carry and overflow mark sums and differences that do not fit, a jump behind SUB compares
    signed numbers, and the logical instructions work bit by bit. */
module Flags {
  import opened Words
  import opened Wrappers
  import opened Isa
  import opened WordCpu
  import A = Arith
  import I = InstStream
  import M = Machine

  /** Of the 32-bit signed numbers exactly one has the bits of w. */
  lemma SignedReads(w: Word, x: int)
    requires -0x8000_0000 <= x < 0x8000_0000
    ensures Wrap(x) == w <==> x == Signed(w)
  {
  }

  /** After ADD: carry if the unsigned sum does not fit, overflow if the signed one does not. */
  lemma AddSays(f: Fields, c: Cpu)
    requires f.op == I.ADD
    ensures Execute(f, c).Some?
    ensures var a: int, b: int := c.regs[f.rd], c.regs[f.rs]; var d := Execute(f, c).value; var r := d.regs[f.rd];
            && SetReg(c, f.rd, r).(flags := d.flags) == d && Wrap(a + b) == r
            && (d.flags.z <==> r == 0) && (d.flags.n <==> Signed(r) < 0)
            && (d.flags.c <==> a + b != r) && (d.flags.o <==> Signed(a) + Signed(b) != Signed(r))
  {
  }

  /** After SUB: borrow if the unsigned difference does not fit, overflow if the signed one does not. */
  lemma SubSays(f: Fields, c: Cpu)
    requires f.op == I.SUB
    ensures Execute(f, c).Some?
    ensures var a: int, b: int := c.regs[f.rd], c.regs[f.rs]; var d := Execute(f, c).value; var r := d.regs[f.rd];
            && SetReg(c, f.rd, r).(flags := d.flags) == d && Wrap(a - b) == r
            && (d.flags.z <==> a == b) && (d.flags.n <==> Signed(r) < 0)
            && (d.flags.c <==> a - b != r) && (d.flags.o <==> Signed(a) - Signed(b) != Signed(r))
            && (d.flags.n != d.flags.o <==> Signed(a) < Signed(b))
  {
  }

  /** The comparison a jump behind SUB makes of the two operands. */
  predicate Compares(op: I.Opcode, a: Word, b: Word)
    requires IsConditionalJump(op)
  {
    match op
    case JZ => a == b
    case JNZ => a != b
    case JG => Signed(a) > Signed(b)
    case JL => Signed(a) < Signed(b)
  }

  /** Also where the difference overflows. */
  lemma JumpsCompare(s: Fields, j: Fields, c: Cpu)
    requires s.op == I.SUB && IsConditionalJump(j.op)
    ensures Execute(s, c).Some?
    ensures var d := Execute(s, c).value;
            Execute(j, d) == Some(if Compares(j.op, c.regs[s.rd], c.regs[s.rs]) then d.(pc := Wrap(j.imm)) else d)
  {
    SubSays(s, c);
  }

  /** The other results set zero and sign and pass carry and overflow on. */
  lemma OthersSay(f: Fields, c: Cpu)
    requires (IsAlu(f.op) && f.op !in {I.ADD, I.SUB}) || f.op == I.NOT
    requires Execute(f, c).Some? && !(f.op == I.DIV && c.regs[f.rs] == 0)
    ensures var d := Execute(f, c).value; var r := d.regs[f.rd];
            && SetReg(c, f.rd, r).(flags := d.flags) == d
            && (d.flags.z <==> r == 0) && (d.flags.n <==> Signed(r) < 0)
            && d.flags.c == c.flags.c && d.flags.o == c.flags.o
  {
    hide Mul, Div, And, Or, Xor, Shl, Shr, Not;
  }

  // ----- Products and quotients -----

  /** MUL keeps the low 32 bits of the product, read signed or unsigned. */
  lemma MulSays(f: Fields, c: Cpu)
    requires f.op == I.MUL
    ensures Execute(f, c).Some?
    ensures var a, b, r := c.regs[f.rd], c.regs[f.rs], Execute(f, c).value.regs[f.rd];
            (r - a * b) % TWO32 == 0 && (r - Signed(a) * Signed(b)) % TWO32 == 0
  {
    var a: int, b: int := c.regs[f.rd], c.regs[f.rs];
    SignedProduct(a, b);
    Congruent(a * b);
    Congruent(Signed(a) * Signed(b));
  }

  lemma Congruent(x: int)
    ensures (Wrap(x) - x) % TWO32 == 0
  {
    var q := x / TWO32;
    assert Wrap(x) - x == -q * TWO32;
  }

  /** DIV is unsigned, and by zero it halts. */
  lemma DivSays(f: Fields, c: Cpu)
    requires f.op == I.DIV
    ensures Execute(f, c).Some?
    ensures var a: int, b: int := c.regs[f.rd], c.regs[f.rs]; var d := Execute(f, c).value;
            if b == 0 then d == c.(halted := true) else d.regs[f.rd] * b <= a < d.regs[f.rd] * b + b
  {
    var a: int, b: int := c.regs[f.rd], c.regs[f.rs];
    if b != 0 {
      assert a == a / b * b + a % b;
    }
  }

  lemma SignedProduct(a: Word, b: Word)
    ensures Wrap(a * b) == Wrap(Signed(a) * Signed(b))
  {
    var x: int, y: int := if Negative(a) then 1 else 0, if Negative(b) then 1 else 0;
    var k := x * y * TWO32 - a * y - b * x;
    assert Signed(a) * Signed(b) == a * b + k * TWO32;
    WrapMultiple(a * b, k);
  }

  lemma WrapMultiple(v: int, k: int)
    ensures Wrap(v + k * TWO32) == Wrap(v)
  {
  }

  // ----- Bits -----

  /** Bit k, counted from the lowest. */
  predicate Bit(a: nat, k: nat)
    decreases k
  {
    if k == 0 then a % 2 == 1 else Bit(a / 2, k - 1)
  }

  lemma BitsJoin(q: nat, low: bool, k: nat)
    ensures Bit(2 * q + if low then 1 else 0, k) <==> if k == 0 then low else Bit(q, k - 1)
  {
    assert (2 * q + if low then 1 else 0) / 2 == q;
  }

  lemma {:induction false} AndBits(a: nat, b: nat, k: nat)
    ensures Bit(And(a, b), k) <==> Bit(a, k) && Bit(b, k)
    decreases k
  {
    if a == 0 || b == 0 {
      NoBits(k);
    } else {
      BitsJoin(And(a / 2, b / 2), a % 2 == 1 && b % 2 == 1, k);
      if k > 0 {
        AndBits(a / 2, b / 2, k - 1);
      }
    }
  }

  lemma {:induction false} OrBitsJoin(a: nat, b: nat, k: nat)
    ensures Bit(OrBits(a, b), k) <==> Bit(a, k) || Bit(b, k)
    decreases k
  {
    if a == 0 && b == 0 {
      NoBits(k);
    } else {
      BitsJoin(OrBits(a / 2, b / 2), a % 2 == 1 || b % 2 == 1, k);
      if k > 0 {
        OrBitsJoin(a / 2, b / 2, k - 1);
      }
    }
  }

  lemma {:induction false} XorBitsDiffer(a: nat, b: nat, k: nat)
    ensures Bit(XorBits(a, b), k) <==> Bit(a, k) != Bit(b, k)
    decreases k
  {
    if a == 0 && b == 0 {
      NoBits(k);
    } else {
      BitsJoin(XorBits(a / 2, b / 2), a % 2 != b % 2, k);
      if k > 0 {
        XorBitsDiffer(a / 2, b / 2, k - 1);
      }
    }
  }

  lemma {:induction false} NoBits(k: nat)
    ensures !Bit(0, k)
  {
    if k > 0 {
      NoBits(k - 1);
    }
  }

  lemma {:induction false} FlippedBits(a: nat, n: nat, k: nat)
    requires a < Pow2(n) && k < n
    ensures Bit(Pow2(n) - 1 - a, k) <==> !Bit(a, k)
    decreases k
  {
    var m := Pow2(n - 1);
    assert Pow2(n) == 2 * m && (2 * m - 1 - a) / 2 == m - 1 - a / 2;
    if k > 0 {
      FlippedBits(a / 2, n - 1, k - 1);
    }
  }

  lemma {:induction false} ShiftedUp(a: nat, s: nat, k: nat)
    ensures Bit(a * Pow2(s), k) <==> s <= k && Bit(a, k - s)
    decreases s
  {
    if s > 0 {
      assert a * Pow2(s) == 2 * (a * Pow2(s - 1)) by { TwoFirst(a, Pow2(s - 1)); }
      if k > 0 {
        ShiftedUp(a, s - 1, k - 1);
      }
    }
  }

  lemma TwoFirst(a: nat, p: nat)
    ensures a * (2 * p) == 2 * (a * p)
  {
  }

  lemma {:induction false} ShiftedDown(a: Word, s: Word, k: nat)
    requires s < 32
    ensures Bit(Shr(a, s), k) <==> Bit(a, k + s)
    decreases s
  {
    if s > 0 {
      HalfFirst(a, s);
      ShiftedDown(a / 2, s - 1, k);
      hide Shr;
    }
  }

  lemma HalfFirst(a: Word, s: Word)
    requires 0 < s < 32
    ensures Shr(a, s) == Shr(a / 2, s - 1)
  {
    A.Halves(a, Pow2(s - 1));
  }

  lemma {:induction false} LowBits(a: nat, n: nat, k: nat)
    requires k < n
    ensures Bit(a % Pow2(n), k) <==> Bit(a, k)
    decreases k
  {
    A.Halves(a, Pow2(n - 1));
    BitsJoin(a / 2 % Pow2(n - 1), a % 2 == 1, k);
    if k > 0 {
      LowBits(a / 2, n - 1, k - 1);
    }
  }

  lemma ShlBits(a: Word, b: Word, k: nat)
    requires b < 32 && k < 32
    ensures Bit(Shl(a, b), k) <==> b <= k && Bit(a, k - b)
  {
    WordPower();
    ShiftedUp(a, b, k);
    LowBits(a * Pow2(b), WordBits(), k);
    hide Pow2, Bit;
  }

  /** Each bit of a logical result comes from the operands' bits at the same place. */
  lemma LogicSays(f: Fields, c: Cpu, k: nat)
    requires f.op in {I.AND, I.OR, I.XOR, I.NOT} && k < 32
    ensures Execute(f, c).Some?
    ensures var a, b, r := c.regs[f.rd], c.regs[f.rs], Execute(f, c).value.regs[f.rd];
            && (f.op == I.AND ==> (Bit(r, k) <==> Bit(a, k) && Bit(b, k)))
            && (f.op == I.OR ==> (Bit(r, k) <==> Bit(a, k) || Bit(b, k)))
            && (f.op == I.XOR ==> (Bit(r, k) <==> Bit(a, k) != Bit(b, k)))
            && (f.op == I.NOT ==> (Bit(r, k) <==> !Bit(a, k)))
  {
    hide And, OrBits, XorBits, Pow2, Bit, M.AluFlags;
    if f.op == I.NOT {
      WordPower();
      FlippedBits(c.regs[f.rd], WordBits(), k);
    } else {
      AndBits(c.regs[f.rd], c.regs[f.rs], k);
      OrBitsJoin(c.regs[f.rd], c.regs[f.rs], k);
      XorBitsDiffer(c.regs[f.rd], c.regs[f.rs], k);
    }
  }

  /** A shift moves the bits by the second operand and fills with zeros. */
  lemma ShiftSays(f: Fields, c: Cpu, k: nat)
    requires f.op in {I.SHL, I.SHR} && c.regs[f.rs] < 32 && k < 32
    ensures Execute(f, c).Some?
    ensures var a, b, r := c.regs[f.rd], c.regs[f.rs], Execute(f, c).value.regs[f.rd];
            Bit(r, k) <==> if f.op == I.SHL then b <= k && Bit(a, k - b) else Bit(a, k + b)
  {
    hide Shl, Shr, Bit, M.AluFlags;
    var a, b := c.regs[f.rd], c.regs[f.rs];
    if f.op == I.SHL {
      ShlBits(a, b, k);
    } else {
      ShiftedDown(a, b, k);
    }
  }
}
