/** The 15 format bits: a BCH code word for the error level and mask, and where it is drawn. */
module QrFormat {
  import opened Wrappers

  const GENERATOR: bv16 := 0x537
  const FORMAT_MASK: bv16 := 0x5412

  // ----- The BCH code -----------------------------------------------------------------------

  function BitLength(x: bv16): nat {
    if x >= 0x8000 then 16 else if x >= 0x4000 then 15 else if x >= 0x2000 then 14
    else if x >= 0x1000 then 13 else if x >= 0x0800 then 12 else if x >= 0x0400 then 11
    else if x >= 0x0200 then 10 else if x >= 0x0100 then 9 else if x >= 0x0080 then 8
    else if x >= 0x0040 then 7 else if x >= 0x0020 then 6 else if x >= 0x0010 then 5
    else if x >= 0x0008 then 4 else if x >= 0x0004 then 3 else if x >= 0x0002 then 2
    else if x >= 0x0001 then 1 else 0
  }

  /** Halving a nonzero number drops one bit. */
  lemma {:induction false} BitLengthByHalves(x: bv16)
    ensures if x == 0 then BitLength(x) == 0 else BitLength(x) == BitLength(x >> 1) + 1
  {
  }

  function ShiftLeft(x: bv16, k: nat): bv16 {
    if k == 0 then x else ShiftLeft(x, k - 1) << 1
  }

  /** The polynomial product of a five-bit q with the generator. */
  function Multiple(q: bv16): bv16 {
    ((q & 1) * 0x537) ^ (((q >> 1) & 1) * 0xA6E) ^ (((q >> 2) & 1) * 0x14DC)
    ^ (((q >> 3) & 1) * 0x29B8) ^ (((q >> 4) & 1) * 0x5370)
  }

  /** A word of the (15,5) BCH code that carries the given value in its top five bits. */
  ghost predicate IsFormatWord(word: bv16, value: bv16) {
    && word >> 10 == value
    && exists q: bv16 :: q < 32 && word == Multiple(q)
  }

  lemma {:induction false} ShiftedGenerators()
    ensures ShiftLeft(GENERATOR, 0) == 0x537 && ShiftLeft(GENERATOR, 1) == 0xA6E
    ensures ShiftLeft(GENERATOR, 2) == 0x14DC && ShiftLeft(GENERATOR, 3) == 0x29B8
    ensures ShiftLeft(GENERATOR, 4) == 0x5370
  {
  }

  function Xor(a: bv16, b: bv16): bv16 { a ^ b }

  lemma {:induction false} MultipleOfSum(p: bv16, q: bv16)
    ensures Multiple(Xor(p, q)) == Xor(Multiple(p), Multiple(q))
  {
  }

  lemma {:induction false} LeadingBitCancels(r: bv16)
    ensures 0x0400 <= r < 0x0800 ==> r ^ 0x0537 < 0x0400
    ensures 0x0800 <= r < 0x1000 ==> r ^ 0x0A6E < 0x0800
    ensures 0x1000 <= r < 0x2000 ==> r ^ 0x14DC < 0x1000
    ensures 0x2000 <= r < 0x4000 ==> r ^ 0x29B8 < 0x2000
    ensures 0x4000 <= r < 0x8000 ==> r ^ 0x5370 < 0x4000
  {
  }

  /** Bit k as a five-bit quotient. */
  function Bit(k: nat): bv16
    requires k <= 4
  {
    if k == 0 then 1 else if k == 1 then 2 else if k == 2 then 4 else if k == 3 then 8 else 16
  }

  lemma {:induction false} MultipleOfBit(k: nat)
    requires k <= 4
    ensures Multiple(Bit(k)) == ShiftLeft(GENERATOR, k)
  {
    ShiftedGenerators();
  }

  lemma {:induction false} BitLengthFalls(r: bv16, k: nat)
    requires BitLength(r) == k + 11 && k <= 4
    ensures BitLength(Xor(r, ShiftLeft(GENERATOR, k))) < k + 11
  {
    ShiftedGenerators();
    LeadingBitCancels(r);
  }

  lemma {:induction false} QuotientStaysSmall(q: bv16, k: nat)
    requires q < 32 && k <= 4
    ensures Xor(q, Bit(k)) < 32
  {
  }

  lemma {:induction false} XorRight(r: bv16, v: bv16, g: bv16)
    ensures Xor(Xor(r, g), v) == Xor(Xor(r, v), g)
    ensures Xor(v, v) == 0
  {
  }

  /** value << 10, written out: remainder and value occupy separate bits of a format word. */
  function Raised(value: bv16): bv16 { value << 10 }

  lemma {:induction false} RaisedLength(value: bv16)
    requires value < 32
    ensures BitLength(Raised(value)) <= 15
  {
  }

  /** The format word of a five-bit value, by the encoder's division loop. */
  method BchFormat(value: bv16) returns (format: bv16)
    requires value < 32
    ensures format < 0x8000 && IsFormatWord(Xor(format, 0x5412), value)
  {
    var remainder := Raised(value);
    ghost var q: bv16 := 0;
    RaisedLength(value);
    XorRight(0, Raised(value), 0);
    assert BitLength(GENERATOR) == 11 && Multiple(0) == 0;
    while BitLength(remainder) >= BitLength(GENERATOR)
      invariant BitLength(remainder) <= 15
      invariant q < 32 && Xor(remainder, Raised(value)) == Multiple(q)
      decreases BitLength(remainder)
    {
      var shift := BitLength(remainder) - BitLength(GENERATOR);
      BitLengthFalls(remainder, shift);
      MultipleOfBit(shift);
      MultipleOfSum(q, Bit(shift));
      QuotientStaysSmall(q, shift);
      XorRight(remainder, Raised(value), ShiftLeft(GENERATOR, shift));
      q := Xor(q, Bit(shift));
      remainder := Xor(remainder, ShiftLeft(GENERATOR, shift));
    }
    format := Xor(Raised(value) | remainder, FORMAT_MASK);
    JoinedWord(value, remainder, q);
  }

  lemma {:induction false} JoinedWord(value: bv16, remainder: bv16, q: bv16)
    requires value < 32 && BitLength(remainder) < 11
    requires q < 32 && Xor(remainder, Raised(value)) == Multiple(q)
    ensures var format := Xor(Raised(value) | remainder, FORMAT_MASK);
            format < 0x8000 && IsFormatWord(Xor(format, FORMAT_MASK), value)
  {
    assert remainder < 0x400;
    assert Raised(value) | remainder == Xor(remainder, Raised(value));
    assert (Raised(value) | remainder) >> 10 == value;
    assert Xor(Xor(Raised(value) | remainder, FORMAT_MASK), FORMAT_MASK) == Raised(value) | remainder;
  }

  // ----- Properties of the code ----------------------------------------------------------------

  /** The number of ones among the k low bits of a word. */
  function Ones(word: bv16, k: nat): nat {
    if k == 0 then 0 else (if Odd(word) then 1 else 0) + Ones(Half(word), k - 1)
  }

  function One(x: bv16): nat { if x == 0 then 0 else 1 }

  /** The ones among the five low bits of a word. */
  function Fifth(word: bv16): nat { One(word & 1) + One(word & 2) + One(word & 4) + One(word & 8) + One(word & 16) }

  function Rest(word: bv16): bv16 { word >> 5 }

  lemma {:induction false} OnesOfFive(word: bv16, k: nat)
    ensures Ones(word, k + 5) == Fifth(word) + Ones(Rest(word), k)
  {
    var w1 := Half(word);
    var w2 := Half(w1);
    var w3 := Half(w2);
    var w4 := Half(w3);
    assert Ones(word, k + 5) == One(word & 1) + Ones(w1, k + 4);
    assert Ones(w1, k + 4) == One(word & 2) + Ones(w2, k + 3);
    assert Ones(w2, k + 3) == One(word & 4) + Ones(w3, k + 2);
    assert Ones(w3, k + 2) == One(word & 8) + Ones(w4, k + 1);
    assert Ones(w4, k + 1) == One(word & 16) + Ones(Half(w4), k);
    assert Half(w4) == Rest(word);
  }

  lemma {:induction false} OnesOfWord(word: bv16)
    ensures Ones(word, 15) == Fifth(word) + Fifth(Rest(word)) + Fifth(Rest(Rest(word)))
  {
    hide Ones, Fifth, Rest;
    OnesOfFive(word, 10);
    OnesOfFive(Rest(word), 5);
    OnesOfFive(Rest(Rest(word)), 0);
    NoOnes(Rest(Rest(Rest(word))));
  }

  lemma {:induction false} NoOnes(word: bv16)
    ensures Ones(word, 0) == 0
  {
  }

  lemma {:induction false} NonzeroMultipleIsHeavy(q: bv16)
    requires 0 < q < 32
    ensures Ones(Multiple(q), 15) >= 7
  {
    hide Ones, Fifth, Rest, Multiple;
    OnesOfWord(Multiple(q));
    HeavyByFifths(q);
  }

  lemma {:induction false} HeavyByFifths(q: bv16)
    requires 0 < q < 32
    ensures var w := Multiple(q); Fifth(w) + Fifth(Rest(w)) + Fifth(Rest(Rest(w))) >= 7
  {
  }

  /** The number of positions where two bit lists differ. */
  function Differing(a: seq<bool>, b: seq<bool>): nat
    requires |a| == |b|
  {
    if a == [] then 0 else (if a[0] != b[0] then 1 else 0) + Differing(a[1..], b[1..])
  }

  lemma {:induction false} OnesAreDiffering(u: bv16, v: bv16, k: nat)
    ensures Ones(Xor(u, v), k) == Differing(LowBits(u, k), LowBits(v, k))
    decreases k
  {
    hide Half, Odd, Xor;
    if k > 0 {
      OnesAreDiffering(Half(u), Half(v), k - 1);
      HalfOfXor(u, v);
      assert LowBits(u, k)[1..] == LowBits(Half(u), k - 1) && LowBits(v, k)[1..] == LowBits(Half(v), k - 1);
    }
  }

  lemma {:induction false} HalfOfXor(u: bv16, v: bv16)
    ensures Half(Xor(u, v)) == Xor(Half(u), Half(v)) && (Odd(Xor(u, v)) <==> Odd(u) != Odd(v))
  {
  }

  lemma {:induction false} XorIsZero(a: bv16, b: bv16)
    ensures Xor(a, b) == 0 <==> a == b
  {
  }

  lemma {:induction false} XorCancels(a: bv16, b: bv16, c: bv16)
    ensures Xor(a, c) == Xor(b, c) <==> a == b
  {
  }

  lemma {:induction false} SmallXor(p: bv16, q: bv16)
    requires p < 32 && q < 32
    ensures Xor(p, q) < 32
  {
  }

  /** A value has exactly one format word, and the words of different values differ in at
      least 7 of their 15 bits, so a reader can correct three of them. */
  lemma {:induction false} FormatWordsAreFarApart(u: bv16, v: bv16, uValue: bv16, vValue: bv16)
    requires IsFormatWord(u, uValue) && IsFormatWord(v, vValue)
    ensures uValue == vValue ==> u == v
    ensures uValue != vValue ==> Differing(LowBits(u, 15), LowBits(v, 15)) >= 7
  {
    var p: bv16 :| p < 32 && u == Multiple(p);
    var q: bv16 :| q < 32 && v == Multiple(q);
    MultipleOfSum(p, q);
    SmallXor(p, q);
    XorIsZero(p, q);
    OnesAreDiffering(u, v, 15);
    if p != q {
      NonzeroMultipleIsHeavy(Xor(p, q));
      HeavyShowsInValue(Xor(p, q), u, v);
    }
  }

  /** The top five bits of a nonzero multiple of the generator are not all zero. */
  lemma {:induction false} HeavyShowsInValue(q: bv16, u: bv16, v: bv16)
    requires 0 < q < 32 && Xor(u, v) == Multiple(q)
    ensures u >> 10 != v >> 10
  {
  }

  // ----- Bits and masks ----------------------------------------------------------------------------

  function Half(word: bv16): bv16 { word >> 1 }

  predicate Odd(word: bv16) { word & 1 == 1 }

  function Join(half: bv16, odd: bool): bv16 { (half << 1) | (if odd then 1 else 0) }

  /** The k low bits of a word, least significant first. */
  function LowBits(word: bv16, k: nat): (bits: seq<bool>)
    ensures |bits| == k
  {
    if k == 0 then [] else [Odd(word)] + LowBits(Half(word), k - 1)
  }

  function WordOf(bits: seq<bool>): bv16 {
    if bits == [] then 0 else Join(WordOf(bits[1..]), bits[0])
  }

  predicate Fits(word: bv16, k: nat) {
    if k == 0 then word == 0 else Fits(Half(word), k - 1)
  }

  lemma {:induction false} JoinHalf(word: bv16)
    ensures Join(Half(word), Odd(word)) == word
  {
  }

  lemma {:induction false} WordOfLowBits(word: bv16, k: nat)
    requires Fits(word, k)
    ensures WordOf(LowBits(word, k)) == word
  {
    if k > 0 {
      WordOfLowBits(Half(word), k - 1);
      JoinHalf(word);
      assert LowBits(word, k)[1..] == LowBits(Half(word), k - 1);
    }
  }

  lemma {:induction false} FitsFive(word: bv16, k: nat)
    requires Fits(Half(Half(Half(Half(Half(word))))), k)
    ensures Fits(word, k + 5)
  {
    var w1 := Half(word);
    var w2 := Half(w1);
    var w3 := Half(w2);
    var w4 := Half(w3);
    assert Fits(w4, k + 1);
    assert Fits(w3, k + 2);
    assert Fits(w2, k + 3);
    assert Fits(w1, k + 4);
  }

  lemma {:induction false} FormatFits(word: bv16)
    requires word < 0x8000
    ensures Fits(word, 15)
  {
    var w5 := Half(Half(Half(Half(Half(word)))));
    var w10 := Half(Half(Half(Half(Half(w5)))));
    assert Half(Half(Half(Half(Half(w10))))) == 0;
    FitsFive(w10, 0);
    FitsFive(w5, 5);
    FitsFive(word, 10);
  }

  /** The three mask bits of a mask number. */
  function MaskBits(mask: nat): bv16
    requires mask < 8
  {
    if mask == 0 then 0 else if mask == 1 then 1 else if mask == 2 then 2 else if mask == 3 then 3
    else if mask == 4 then 4 else if mask == 5 then 5 else if mask == 6 then 6 else 7
  }

  /** Error level L (01), then the mask. */
  function FormatValue(mask: nat): bv16
    requires mask < 8
  {
    (1 << 3) | MaskBits(mask)
  }

  function MaskNumber(bits: bv16): (mask: nat)
    ensures mask < 8
  {
    if bits == 0 then 0 else if bits == 1 then 1 else if bits == 2 then 2 else if bits == 3 then 3
    else if bits == 4 then 4 else if bits == 5 then 5 else if bits == 6 then 6 else 7
  }

  /** A reader's view: remove the fixed pattern, check the level and take the mask. */
  function ReadFormat(bits: seq<bool>): (mask: Option<nat>)
    requires |bits| == 15
    ensures mask.Some? ==> mask.value < 8
  {
    var value := Xor(WordOf(bits), 0x5412) >> 10;
    if value >> 3 == 1 then Some(MaskNumber(value & 7)) else None
  }

  lemma {:induction false} MaskOfFormatValue(mask: nat)
    requires mask < 8
    ensures FormatValue(mask) < 32
    ensures FormatValue(mask) >> 3 == 1 && MaskNumber(FormatValue(mask) & 7) == mask
  {
  }

  lemma {:induction false} FormatRoundTrip(format: bv16, mask: nat)
    requires mask < 8 && format < 0x8000 && IsFormatWord(Xor(format, 0x5412), FormatValue(mask))
    ensures ReadFormat(LowBits(format, 15)) == Some(mask)
  {
    FormatFits(format);
    WordOfLowBits(format, 15);
    MaskOfFormatValue(mask);
  }
}
