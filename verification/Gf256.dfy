/** The field GF(2^8) behind the QR error correction, with reduction polynomial 0x11D.

    GfMul is the shift-and-reduce loop of the encoder.  Mul is the same product as a
    function; the lemmas show that Add (exclusive or) and Mul form a field in which 2
    has multiplicative order 255.
 */
module Gf256 {

  // ----- Operations ----------------------------------------------------------------------

  function Add(a: bv8, b: bv8): bv8 { a ^ b }

  /** Multiplication by 2: shift, then reduce by 0x11D when bit 8 appears. */
  function Double(a: bv8): bv8 {
    if a & 0x80 != 0 then (a << 1) ^ 0x1D else a << 1
  }

  function Half(b: bv8): bv8 { b >> 1 }

  predicate Odd(b: bv8) { b & 1 == 1 }

  function When(c: bool, a: bv8): bv8 { if c then a else 0 }

  function Mul(a: bv8, b: bv8): bv8
    decreases b
  {
    HalfIsSmaller(b);
    if b == 0 then 0 else Add(When(Odd(b), a), Mul(Double(a), Half(b)))
  }

  /** The powers of 2: the roots of the generator and the locators of codeword positions. */
  function Exp(k: nat): bv8 {
    if k == 0 then 1 else Double(Exp(k - 1))
  }

  /** The encoder's loop.  The accumulator is wider than a byte: it holds bit 8 between the
      shift and the reduction. */
  method GfMul(left: bv8, right: bv8) returns (product: bv8)
    ensures product == Mul(left, right)
  {
    hide Mul, Add, Double, Half, Odd, When;
    var result: bv8 := 0;
    var a: bv16 := left as bv16;
    var b := right;
    ghost var byte := left;
    AddLaws(Mul(left, right), 0, 0);
    while b != 0
      invariant a == byte as bv16
      invariant Add(result, Mul(byte, b)) == Mul(left, right)
      decreases b
    {
      HalfIsSmaller(b);
      OneTurn(result, byte, b);
      if b & 1 == 1 {
        result := result ^ (a as bv8);
      }
      b := b >> 1;
      a := if a & 0x80 != 0 then (a << 1) ^ 0x11D else a << 1;
      DoubleIsReduction(byte);
      byte := Double(byte);
    }
    MulZeroRight(byte);
    AddLaws(result, 0, 0);
    product := result;
  }

  /** One turn of the loop moves the low bit's part of the product into the result. */
  lemma {:induction false} OneTurn(result: bv8, a: bv8, b: bv8)
    ensures Half(b) == b >> 1
    ensures Add(result, Mul(a, b)) == Add(if b & 1 == 1 then result ^ a else result, Mul(Double(a), Half(b)))
  {
    MulStep(a, b);
    AddLaws(result, When(Odd(b), a), Mul(Double(a), Half(b)));
    AddLaws(result, 0, 0);
  }

  lemma {:induction false} MulZeroRight(a: bv8)
    ensures Mul(a, 0) == 0
  {
  }

  // ----- Facts about single bytes -----------------------------------------------------------

  lemma {:induction false} HalfIsSmaller(b: bv8)
    ensures b != 0 ==> Half(b) < b
  {
  }

  /** The code's nine-bit reduction is Double on bytes. */
  lemma {:induction false} DoubleIsReduction(a: bv8)
    ensures var w := a as bv16;
            Double(a) as bv16 == if w & 0x80 != 0 then (w << 1) ^ 0x11D else w << 1
  {
  }

  lemma {:induction false} AddLaws(a: bv8, b: bv8, c: bv8)
    ensures Add(a, b) == Add(b, a)
    ensures Add(Add(a, b), c) == Add(a, Add(b, c))
    ensures Add(a, 0) == a && Add(0, a) == a
    ensures Add(a, a) == 0
    ensures Add(a, b) == 0 ==> a == b
  {
  }

  lemma {:induction false} AddSwap(p: bv8, q: bv8, r: bv8, s: bv8)
    ensures Add(Add(p, q), Add(r, s)) == Add(Add(p, r), Add(q, s))
  {
    AddLaws(Add(p, q), r, s);
    AddLaws(p, q, r);
    AddLaws(q, r, 0);
    AddLaws(p, r, q);
    AddLaws(Add(p, r), q, s);
  }

  lemma {:induction false} WhenAdd(c: bool, a: bv8, b: bv8)
    ensures When(c, Add(a, b)) == Add(When(c, a), When(c, b))
  {
  }

  lemma {:induction false} BitsOfSum(b: bv8, c: bv8, a: bv8)
    ensures Half(Add(b, c)) == Add(Half(b), Half(c))
    ensures When(Odd(Add(b, c)), a) == Add(When(Odd(b), a), When(Odd(c), a))
  {
  }

  /** Double without its test: the top bit times the reduction constant. */
  function BranchFree(a: bv8): bv8 { (a << 1) ^ ((a >> 7) * 0x1D) }

  lemma {:induction false} DoubleIsBranchFree(a: bv8)
    ensures Double(a) == BranchFree(a)
  {
  }

  lemma {:induction false} BranchFreeAdd(a: bv8, b: bv8)
    ensures BranchFree(Add(a, b)) == Add(BranchFree(a), BranchFree(b))
  {
  }

  lemma {:induction false} DoubleAdd(a: bv8, b: bv8)
    ensures Double(Add(a, b)) == Add(Double(a), Double(b))
  {
    BranchFreeAdd(a, b);
    DoubleIsBranchFree(a);
    DoubleIsBranchFree(b);
    DoubleIsBranchFree(Add(a, b));
  }

  lemma {:induction false} DoubleZero(a: bv8)
    ensures Double(a) == 0 <==> a == 0
  {
  }

  lemma {:induction false} DoubleWhen(c: bool, a: bv8)
    ensures Double(When(c, a)) == When(c, Double(a))
  {
  }

  // ----- Ring laws ---------------------------------------------------------------------------

  lemma {:induction false} MulZeroLeft(b: bv8)
    ensures Mul(0, b) == 0
    decreases b
  {
    if b != 0 {
      HalfIsSmaller(b);
      DoubleZero(0);
      MulZeroLeft(Half(b));
    }
  }

  /** The recursion step of Mul, also when b is zero. */
  lemma {:induction false} MulStep(a: bv8, b: bv8)
    ensures Mul(a, b) == Add(When(Odd(b), a), Mul(Double(a), Half(b)))
  {
  }

  lemma {:induction false} MulAddLeft(a: bv8, c: bv8, b: bv8)
    ensures Mul(Add(a, c), b) == Add(Mul(a, b), Mul(c, b))
    decreases b
  {
    AddLaws(0, 0, 0);
    if b != 0 {
      HalfIsSmaller(b);
      DoubleAdd(a, c);
      MulAddLeft(Double(a), Double(c), Half(b));
      WhenAdd(Odd(b), a, c);
      AddSwap(When(Odd(b), a), When(Odd(b), c), Mul(Double(a), Half(b)), Mul(Double(c), Half(b)));
    }
  }

  lemma {:induction false} MulAddRight(a: bv8, b: bv8, c: bv8)
    ensures Mul(a, Add(b, c)) == Add(Mul(a, b), Mul(a, c))
    decreases b
  {
    if b == 0 {
      AddLaws(c, 0, 0);
      AddLaws(Mul(a, c), 0, 0);
    } else {
      HalfIsSmaller(b);
      BitsOfSum(b, c, a);
      MulAddRight(Double(a), Half(b), Half(c));
      MulStep(a, Add(b, c));
      MulStep(a, b);
      MulStep(a, c);
      AddSwap(When(Odd(b), a), When(Odd(c), a), Mul(Double(a), Half(b)), Mul(Double(a), Half(c)));
    }
  }

  lemma {:induction false} MulDoubleLeft(a: bv8, b: bv8)
    ensures Mul(Double(a), b) == Double(Mul(a, b))
    decreases b
  {
    DoubleZero(0);
    if b != 0 {
      HalfIsSmaller(b);
      MulDoubleLeft(Double(a), Half(b));
      DoubleWhen(Odd(b), a);
      DoubleAdd(When(Odd(b), a), Mul(Double(a), Half(b)));
    }
  }

  /** Doubling b either shifts it, or shifts it and adds the reduction constant. */
  lemma {:induction false} DoubleSplits(b: bv8)
    ensures b & 0x80 == 0 ==> Half(Double(b)) == b && !Odd(Double(b))
    ensures b & 0x80 != 0 ==> b == Add(b & 0x7F, 0x80) && Double(b) == Add(Double(b & 0x7F), 0x1D)
    ensures (b & 0x7F) & 0x80 == 0
  {
  }

  lemma {:induction false} DoubleTimes8(a: bv8)
    ensures Mul(Double(a), 0x80) == Mul(a, 0x1D)
  {
    var d1 := Double(a);
    var d2 := Double(d1);
    var d3 := Double(d2);
    var d4 := Double(d3);
    var d5 := Double(d4);
    var d6 := Double(d5);
    var d7 := Double(d6);
    PowerOfTwo(d1, d2, d3, d4, d5, d6, d7);
    Mul1D(a, d1, d2, d3, d4);
    DoubleIsBranchFree(a);
    DoubleIsBranchFree(d1);
    DoubleIsBranchFree(d2);
    DoubleIsBranchFree(d3);
    DoubleIsBranchFree(d4);
    DoubleIsBranchFree(d5);
    DoubleIsBranchFree(d6);
    DoubleIsBranchFree(d7);
    EighthDouble(a, d1, d2, d3, d4, d5, d6, d7, Double(d7));
  }

  lemma {:induction false} EighthDouble(a: bv8, d1: bv8, d2: bv8, d3: bv8, d4: bv8, d5: bv8, d6: bv8,
                                        d7: bv8, d8: bv8)
    requires d1 == (a << 1) ^ ((a >> 7) * 0x1D)
    requires d2 == (d1 << 1) ^ ((d1 >> 7) * 0x1D)
    requires d3 == (d2 << 1) ^ ((d2 >> 7) * 0x1D)
    requires d4 == (d3 << 1) ^ ((d3 >> 7) * 0x1D)
    requires d5 == (d4 << 1) ^ ((d4 >> 7) * 0x1D)
    requires d6 == (d5 << 1) ^ ((d5 >> 7) * 0x1D)
    requires d7 == (d6 << 1) ^ ((d6 >> 7) * 0x1D)
    requires d8 == (d7 << 1) ^ ((d7 >> 7) * 0x1D)
    ensures d8 == a ^ d2 ^ d3 ^ d4
  {
  }

  lemma {:induction false} PowerOfTwo(d1: bv8, d2: bv8, d3: bv8, d4: bv8, d5: bv8, d6: bv8, d7: bv8)
    requires d2 == Double(d1) && d3 == Double(d2) && d4 == Double(d3) && d5 == Double(d4)
    requires d6 == Double(d5) && d7 == Double(d6)
    ensures Mul(d1, 0x80) == Double(d7)
  {
    MulStep(d1, 0x80);
    MulStep(d2, 0x40);
    MulStep(d3, 0x20);
    MulStep(d4, 0x10);
    MulStep(d5, 0x08);
    MulStep(d6, 0x04);
    MulStep(d7, 0x02);
    MulStep(Double(d7), 0x01);
  }

  lemma {:induction false} Mul1D(a: bv8, d1: bv8, d2: bv8, d3: bv8, d4: bv8)
    requires d1 == Double(a) && d2 == Double(d1) && d3 == Double(d2) && d4 == Double(d3)
    ensures Mul(a, 0x1D) == a ^ d2 ^ d3 ^ d4
  {
    hide Mul, Double, Half, Odd;
    BitsOf1D();
    MulOddAndEven(a, d1, 0x1D, 0x0E);
    MulOddAndEven(d1, d2, 0x0E, 0x07);
    MulOddAndEven(d2, d3, 0x07, 0x03);
    MulOddAndEven(d3, d4, 0x03, 0x01);
    MulOne(d4);
    XorChain(a, d2, d3, d4);
  }

  lemma {:induction false} BitsOf1D()
    ensures Odd(0x1D) && Half(0x1D) == 0x0E && !Odd(0x0E) && Half(0x0E) == 0x07
    ensures Odd(0x07) && Half(0x07) == 0x03 && Odd(0x03) && Half(0x03) == 0x01
  {
  }

  lemma {:induction false} MulOddAndEven(a: bv8, d: bv8, b: bv8, half: bv8)
    requires d == Double(a) && half == Half(b)
    ensures Odd(b) ==> Mul(a, b) == a ^ Mul(d, half)
    ensures !Odd(b) ==> Mul(a, b) == Mul(d, half)
  {
    MulStep(a, b);
    AddLaws(Mul(d, half), 0, 0);
  }

  lemma {:induction false} XorChain(a: bv8, b: bv8, c: bv8, d: bv8)
    ensures a ^ (b ^ (c ^ d)) == a ^ b ^ c ^ d
  {
  }

  /** Doubling one factor doubles the product, on the right as on the left. */
  lemma {:induction false} MulDoubleRight(a: bv8, b: bv8)
    ensures Mul(a, Double(b)) == Double(Mul(a, b))
  {
    DoubleSplits(b);
    MulDoubleLeft(a, b);
    if b & 0x80 == 0 {
      MulStep(a, Double(b));
      AddLaws(Mul(Double(a), b), 0, 0);
    } else {
      var low := b & 0x7F;
      MulDoubleRight7(a, low);
      MulAddRight(a, Double(low), 0x1D);
      MulAddRight(Double(a), low, 0x80);
      MulDoubleLeft(a, low);
      DoubleTimes8(a);
    }
  }

  lemma {:induction false} MulDoubleRight7(a: bv8, b: bv8)
    requires b & 0x80 == 0
    ensures Mul(a, Double(b)) == Double(Mul(a, b))
  {
    DoubleSplits(b);
    MulDoubleLeft(a, b);
    MulStep(a, Double(b));
    AddLaws(Mul(Double(a), b), 0, 0);
  }

  lemma {:induction false} MulOne(a: bv8)
    ensures Mul(a, 1) == a
  {
    MulStep(a, 1);
    AddLaws(a, 0, 0);
  }

  /** Every byte is its low bit plus twice its upper half. */
  lemma {:induction false} LowBitAndHalf(b: bv8)
    ensures b == Add(When(Odd(b), 1), Double(Half(b)))
    ensures When(Odd(b), 1) == 0 || When(Odd(b), 1) == 1
  {
  }

  lemma {:induction false} OneMul(b: bv8)
    ensures Mul(1, b) == b
    decreases b
  {
    if b != 0 {
      HalfIsSmaller(b);
      OneMul(Half(b));
      MulDoubleLeft(1, Half(b));
      LowBitAndHalf(b);
    }
  }

  lemma {:induction false} MulCommutes(a: bv8, b: bv8)
    ensures Mul(a, b) == Mul(b, a)
    decreases b
  {
    if b == 0 {
      MulZeroLeft(a);
    } else {
      HalfIsSmaller(b);
      MulCommutes(a, Half(b));
      MulDoubleLeft(a, Half(b));
      MulDoubleLeft(Half(b), a);
      LowBitAndHalf(b);
      MulAddLeft(When(Odd(b), 1), Double(Half(b)), a);
      MulZeroLeft(a);
      OneMul(a);
    }
  }

  lemma {:induction false} MulAssociates(a: bv8, b: bv8, c: bv8)
    ensures Mul(Mul(a, b), c) == Mul(a, Mul(b, c))
    decreases c
  {
    if c != 0 {
      HalfIsSmaller(c);
      MulDoubleRight(a, b);
      MulAssociates(a, Double(b), Half(c));
      MulAddRight(a, When(Odd(c), b), Mul(Double(b), Half(c)));
    }
  }

  // ----- No zero divisors -----------------------------------------------------------------------

  /** a * b written out over the eight bits of b, where a_i = a * 2^i and b_i = b >> i. */
  lemma {:induction false} MulUnrolled(a: bv8, a1: bv8, a2: bv8, a3: bv8, a4: bv8, a5: bv8, a6: bv8, a7: bv8,
                                       b: bv8, b1: bv8, b2: bv8, b3: bv8, b4: bv8, b5: bv8, b6: bv8, b7: bv8)
    requires a1 == Double(a) && a2 == Double(a1) && a3 == Double(a2) && a4 == Double(a3)
    requires a5 == Double(a4) && a6 == Double(a5) && a7 == Double(a6)
    requires b1 == Half(b) && b2 == Half(b1) && b3 == Half(b2) && b4 == Half(b3)
    requires b5 == Half(b4) && b6 == Half(b5) && b7 == Half(b6)
    ensures Mul(a, b) == Add(When(Odd(b), a), Add(When(Odd(b1), a1), Add(When(Odd(b2), a2),
                         Add(When(Odd(b3), a3), Add(When(Odd(b4), a4), Add(When(Odd(b5), a5),
                         Add(When(Odd(b6), a6), When(Odd(b7), a7))))))))
  {
    MulStep(a, b);
    MulStep(a1, b1);
    MulStep(a2, b2);
    MulStep(a3, b3);
    MulStep(a4, b4);
    MulStep(a5, b5);
    MulStep(a6, b6);
    MulStep(a7, b7);
    HalfEightTimes(b);
    AddLaws(When(Odd(b7), a7), 0, 0);
  }

  lemma {:induction false} HalfEightTimes(b: bv8)
    ensures Half(Half(Half(Half(Half(Half(Half(Half(b)))))))) == 0
  {
  }

  function BitTimes(b: bv8, a: bv8): bv8 { (b & 1) * a }

  lemma {:induction false} WhenIsBitTimes(b: bv8, a: bv8)
    ensures When(Odd(b), a) == BitTimes(b, a)
  {
  }

  lemma {:induction false} EvenByte(b: bv8)
    requires !Odd(b) && b != 0
    ensures Half(b) != 0
  {
  }

  /** 0x11D is irreducible: the product of a nonzero byte and an odd one is not zero. */
  lemma {:induction false} BitsOfNonzeroProduct(
      a: bv8, a1: bv8, a2: bv8, a3: bv8, a4: bv8, a5: bv8, a6: bv8, a7: bv8,
      b: bv8, b1: bv8, b2: bv8, b3: bv8, b4: bv8, b5: bv8, b6: bv8, b7: bv8)
    requires a != 0 && Odd(b)
    requires a1 == BranchFree(a) && a2 == BranchFree(a1) && a3 == BranchFree(a2) && a4 == BranchFree(a3)
    requires a5 == BranchFree(a4) && a6 == BranchFree(a5) && a7 == BranchFree(a6)
    requires b1 == Half(b) && b2 == Half(b1) && b3 == Half(b2) && b4 == Half(b3)
    requires b5 == Half(b4) && b6 == Half(b5) && b7 == Half(b6)
    ensures Add(BitTimes(b, a), Add(BitTimes(b1, a1), Add(BitTimes(b2, a2), Add(BitTimes(b3, a3),
            Add(BitTimes(b4, a4), Add(BitTimes(b5, a5), Add(BitTimes(b6, a6), BitTimes(b7, a7)))))))) != 0
  {
  }

  lemma {:induction false} NoZeroDivisors(a: bv8, b: bv8)
    ensures Mul(a, b) == 0 <==> a == 0 || b == 0
    decreases b
  {
    MulZeroLeft(b);
    if a != 0 && b != 0 && !Odd(b) {
      HalfIsSmaller(b);
      EvenByte(b);
      DoubleZero(a);
      MulStep(a, b);
      AddLaws(Mul(Double(a), Half(b)), 0, 0);
      NoZeroDivisors(Double(a), Half(b));
    } else if a != 0 && b != 0 {
      var a1 := Double(a);
      var a2 := Double(a1);
      var a3 := Double(a2);
      var a4 := Double(a3);
      var a5 := Double(a4);
      var a6 := Double(a5);
      var a7 := Double(a6);
      DoubleIsBranchFree(a);
      DoubleIsBranchFree(a1);
      DoubleIsBranchFree(a2);
      DoubleIsBranchFree(a3);
      DoubleIsBranchFree(a4);
      DoubleIsBranchFree(a5);
      DoubleIsBranchFree(a6);
      var b1 := Half(b);
      var b2 := Half(b1);
      var b3 := Half(b2);
      var b4 := Half(b3);
      var b5 := Half(b4);
      var b6 := Half(b5);
      var b7 := Half(b6);
      MulUnrolled(a, a1, a2, a3, a4, a5, a6, a7, b, b1, b2, b3, b4, b5, b6, b7);
      WhenIsBitTimes(b, a);
      WhenIsBitTimes(b1, a1);
      WhenIsBitTimes(b2, a2);
      WhenIsBitTimes(b3, a3);
      WhenIsBitTimes(b4, a4);
      WhenIsBitTimes(b5, a5);
      WhenIsBitTimes(b6, a6);
      WhenIsBitTimes(b7, a7);
      BitsOfNonzeroProduct(a, a1, a2, a3, a4, a5, a6, a7, b, b1, b2, b3, b4, b5, b6, b7);
    }
  }

  // ----- 2 has order 255 ---------------------------------------------------------------------------

  lemma {:induction false} ExpAdds(m: nat, n: nat)
    ensures Exp(m + n) == Mul(Exp(m), Exp(n))
    decreases n
  {
    if n == 0 {
      MulOne(Exp(m));
    } else {
      ExpAdds(m, n - 1);
      MulDoubleRight(Exp(m), Exp(n - 1));
    }
  }

  lemma {:induction false} ExpIsNotZero(k: nat)
    ensures Exp(k) != 0
  {
    if k > 0 {
      ExpIsNotZero(k - 1);
      DoubleZero(Exp(k - 1));
    }
  }

  lemma {:induction false} Cancel(c: bv8, a: bv8, b: bv8)
    requires c != 0 && Mul(c, a) == Mul(c, b)
    ensures a == b
  {
    MulAddRight(c, a, b);
    AddLaws(Mul(c, a), 0, 0);
    NoZeroDivisors(c, Add(a, b));
    AddLaws(a, b, 0);
  }

  /** The exponents at which the powers of 2 return to 1 are closed under differences. */
  lemma {:induction false} OneAtDifference(m: nat, n: nat)
    requires Exp(m) == 1 && Exp(m + n) == 1
    ensures Exp(n) == 1
  {
    ExpAdds(m, n);
    OneMul(Exp(n));
  }

  lemma {:induction false} OneAtMultiple(g: nat, k: nat)
    requires Exp(g) == 1
    ensures Exp(g * k) == 1
    decreases k
  {
    if k > 0 {
      OneAtMultiple(g, k - 1);
      assert g * k == g * (k - 1) + g;
      ExpAdds(g * (k - 1), g);
      MulOne(1);
    }
  }

  lemma {:induction false} SmallPowers()
    ensures Exp(8) == 0x1D && Exp(15) == 0x26 && Exp(17) == 0x98
  {
    assert Exp(8) == 0x1D;
    assert Exp(12) == 0xCD;
    assert Exp(15) == 0x26;
    assert Exp(17) == 0x98;
  }

  lemma {:induction false} Power34(k: nat)
    requires Exp(k) == 0x98
    ensures Exp(k + k) == 0x4E
  {
    ExpAdds(k, k);
  }

  lemma {:induction false} Power51(k: nat, m: nat)
    requires Exp(k) == 0x98 && Exp(m) == 0x4E
    ensures Exp(k + m) == 0x0A
  {
    ExpAdds(k, m);
  }

  lemma {:induction false} Power85(k: nat, m: nat)
    requires Exp(k) == 0x0A && Exp(m) == 0x4E
    ensures Exp(k + m) == 0xD6
  {
    ExpAdds(k, m);
  }

  lemma {:induction false} Power170(k: nat)
    requires Exp(k) == 0xD6
    ensures Exp(k + k) == 0xD7
  {
    ExpAdds(k, k);
  }

  lemma {:induction false} Power255(k: nat, m: nat)
    requires Exp(k) == 0xD7 && Exp(m) == 0xD6
    ensures Exp(k + m) == 1
  {
    ExpAdds(k, m);
  }

  /** 2^51, 2^85 and 2^255, by squaring and multiplying from 2^17. */
  lemma {:induction false} PowersOf17(k: nat)
    requires Exp(k) == 0x98
    ensures Exp(3 * k) == 0x0A && Exp(5 * k) == 0xD6 && Exp(15 * k) == 1
  {
    Power34(k);
    Power51(k, k + k);
    assert k + (k + k) == 3 * k;
    Power85(3 * k, k + k);
    assert 3 * k + (k + k) == 5 * k;
    Power170(5 * k);
    Power255(5 * k + 5 * k, 5 * k);
    assert 5 * k + 5 * k + 5 * k == 15 * k;
  }

  /** If 2^(step*r) and 2^(step*p) are 1 and r is invertible modulo p, then 2^step is 1. */
  lemma {:induction false} OneAtStep(step: nat, p: nat, r: nat, s: nat)
    requires p > 0 && (r * s) % p == 1
    requires Exp(step * p) == 1 && Exp(step * r) == 1
    ensures Exp(step) == 1
  {
    var k := r * s / p;
    OneAtMultiple(step * r, s);
    OneAtMultiple(step * p, k);
    calc {
      step * r * s;
    ==
      step * (r * s);
    ==
      step * (p * k + 1);
    ==
      step * p * k + step;
    }
    OneAtDifference(step * p * k, step);
  }

  function InverseModulo17(r: nat): (s: nat)
    requires 1 <= r < 17
    ensures (r * s) % 17 == 1
  {
    [0, 1, 9, 6, 13, 7, 3, 5, 15, 2, 12, 14, 10, 4, 11, 8, 16][r]
  }

  lemma {:induction false} SplitExponent(d: nat, q: nat, p: nat)
    requires p > 0
    ensures d * q == q * p * (d / p) + q * (d % p)
  {
    assert d == p * (d / p) + d % p;
    assert q * p * (d / p) == q * (p * (d / p));
  }

  /** If 2^q is not 1 although 2^(q*p) is, every exponent of 1 is a multiple of the prime p. */
  lemma {:induction false} IsMultipleOf(d: nat, q: nat, p: nat, s: nat)
    requires Exp(d) == 1 && p > 0 && Exp(q * p) == 1 && Exp(q) != 1
    requires d % p != 0 ==> (d % p * s) % p == 1
    ensures d % p == 0
  {
    var k, r := d / p, d % p;
    OneAtMultiple(d, q);
    OneAtMultiple(q * p, k);
    SplitExponent(d, q, p);
    OneAtDifference(q * p * k, q * r);
    if r != 0 {
      OneAtStep(q, p, r, s);
    }
  }

  lemma {:induction false} MultipleOf17(d: nat, q: nat)
    requires Exp(d) == 1 && Exp(q * 17) == 1 && Exp(q) != 1
    ensures d % 17 == 0
  {
    hide Exp;
    IsMultipleOf(d, q, 17, if d % 17 == 0 then 0 else InverseModulo17(d % 17));
  }

  lemma {:induction false} MultipleOf5(d: nat, q: nat)
    requires Exp(d) == 1 && Exp(q * 5) == 1 && Exp(q) != 1
    ensures d % 5 == 0
  {
    hide Exp;
    var r := d % 5;
    IsMultipleOf(d, q, 5, if r == 2 then 3 else if r == 3 then 2 else r);
  }

  lemma {:induction false} MultipleOf3(d: nat, q: nat)
    requires Exp(d) == 1 && Exp(q * 3) == 1 && Exp(q) != 1
    ensures d % 3 == 0
  {
    hide Exp;
    IsMultipleOf(d, q, 3, d % 3);
  }

  lemma {:induction false} ExponentOfOneIsMultiple(d: nat, k: nat)
    requires k == 17 && Exp(k) == 0x98 && Exp(d) == 1
    ensures d % 17 == 0 && d % 5 == 0 && d % 3 == 0
  {
    PowersOf17(k);
    ExpAdds(k - 2, 2);
    MultipleOf17(d, 15);
    MultipleOf5(d, 3 * k);
    MultipleOf3(d, 5 * k);
  }

  /** No power of 2 between the 0th and the 255th is 1. */
  lemma {:induction false} OrderIs255(d: nat)
    requires 0 < d < 255
    ensures Exp(d) != 1
  {
    SmallPowers();
    if Exp(d) == 1 {
      ExponentOfOneIsMultiple(d, 17);
    }
  }

  /** The 255 powers of 2 are pairwise different. */
  lemma {:induction false} ExpIsInjective(m: nat, n: nat)
    requires m < n < 255
    ensures Exp(m) != Exp(n)
  {
    ExpAdds(m, n - m);
    ExpIsNotZero(m);
    OrderIs255(n - m);
    MulOne(Exp(m));
    if Exp(m) == Exp(n) {
      Cancel(Exp(m), Exp(n - m), 1);
    }
  }
}
