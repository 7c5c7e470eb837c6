/** The Reed-Solomon code of the QR encoder: 26 error-correction bytes behind any data block.

    A word is read as a polynomial, highest coefficient first.  Ecc computes the generator
    with roots 2^0..2^25 and divides by it in place, as the encoder does.  The theorems:
    data + Ecc(data) vanishes at all 26 roots, no other 26 bytes do, and two such words of
    at most 255 bytes differ in at least 27 places.
 */
module ReedSolomon {
  import opened Gf256

  const ECC_CODEWORDS := 26

  type Word = seq<bv8>

  // ----- Polynomial evaluation -----------------------------------------------------------------

  /** The value of the polynomial p at 2^j. */
  function Eval(p: Word, j: nat): bv8 {
    if p == [] then 0 else Add(Mul(p[0], Exp(j * (|p| - 1))), Eval(p[1..], j))
  }

  ghost predicate IsCodeword(w: Word) {
    forall j: nat | j < ECC_CODEWORDS :: Eval(w, j) == 0
  }

  function Sum(p: Word, q: Word): Word
    requires |p| == |q|
  {
    seq(|p|, k requires 0 <= k < |p| => Add(p[k], q[k]))
  }

  function Scale(p: Word, c: bv8): Word {
    seq(|p|, k requires 0 <= k < |p| => Mul(p[k], c))
  }

  function Zeros(n: nat): Word {
    seq(n, k => 0)
  }

  lemma {:induction false} EvalSum(p: Word, q: Word, j: nat)
    requires |p| == |q|
    ensures Eval(Sum(p, q), j) == Add(Eval(p, j), Eval(q, j))
  {
    if p == [] {
      AddLaws(0, 0, 0);
    } else {
      var x := Exp(j * (|p| - 1));
      assert Sum(p, q)[1..] == Sum(p[1..], q[1..]);
      EvalSum(p[1..], q[1..], j);
      MulAddLeft(p[0], q[0], x);
      AddSwap(Mul(p[0], x), Mul(q[0], x), Eval(p[1..], j), Eval(q[1..], j));
    }
  }

  lemma {:induction false} EvalScale(p: Word, c: bv8, j: nat)
    ensures Eval(Scale(p, c), j) == Mul(Eval(p, j), c)
  {
    if p == [] {
      MulZeroLeft(c);
    } else {
      var x := Exp(j * (|p| - 1));
      assert Scale(p, c)[1..] == Scale(p[1..], c);
      EvalScale(p[1..], c, j);
      MulAssociates(p[0], c, x);
      MulCommutes(c, x);
      MulAssociates(p[0], x, c);
      MulAddLeft(Mul(p[0], x), Eval(p[1..], j), c);
    }
  }

  lemma {:induction false} EvalZeros(n: nat, j: nat)
    ensures Eval(Zeros(n), j) == 0
  {
    if n > 0 {
      assert Zeros(n)[1..] == Zeros(n - 1);
      EvalZeros(n - 1, j);
      MulZeroLeft(Exp(j * (n - 1)));
      AddLaws(0, 0, 0);
    }
  }

  lemma {:induction false} EvalConcat(p: Word, q: Word, j: nat)
    ensures Eval(p + q, j) == Add(Mul(Eval(p, j), Exp(j * |q|)), Eval(q, j))
  {
    var y := Exp(j * |q|);
    if p == [] {
      assert p + q == q;
      MulZeroLeft(y);
      AddLaws(Eval(q, j), 0, 0);
    } else {
      var x := Exp(j * (|p| - 1));
      assert (p + q)[1..] == p[1..] + q;
      EvalConcat(p[1..], q, j);
      assert j * (|p + q| - 1) == j * (|p| - 1) + j * |q|;
      ExpAdds(j * (|p| - 1), j * |q|);
      MulAssociates(p[0], x, y);
      MulAddLeft(Mul(p[0], x), Eval(p[1..], j), y);
      AddLaws(Mul(Mul(p[0], x), y), Mul(Eval(p[1..], j), y), Eval(q, j));
    }
  }

  /** Leading zeros do not change a polynomial. */
  lemma {:induction false} EvalPadded(n: nat, q: Word, j: nat)
    ensures Eval(Zeros(n) + q, j) == Eval(q, j)
  {
    EvalConcat(Zeros(n), q, j);
    EvalZeros(n, j);
    MulZeroLeft(Exp(j * |q|));
    AddLaws(Eval(q, j), 0, 0);
  }

  // ----- The generator ----------------------------------------------------------------------------

  /** g times (x + root), written as the code's two shifted additions. */
  function TimesRoot(g: Word, root: bv8): Word {
    Sum(g + [0], [0] + Scale(g, root))
  }

  lemma {:induction false} EvalTimesRoot(g: Word, i: nat, j: nat)
    ensures Eval(TimesRoot(g, Exp(i)), j) == Mul(Eval(g, j), Add(Exp(j), Exp(i)))
  {
    var root := Exp(i);
    EvalSum(g + [0], [0] + Scale(g, root), j);
    assert Zeros(1) == [0];
    EvalConcat(g, Zeros(1), j);
    EvalZeros(1, j);
    AddLaws(Mul(Eval(g, j), Exp(j)), 0, 0);
    EvalPadded(1, Scale(g, root), j);
    EvalScale(g, root, j);
    MulAddRight(Eval(g, j), Exp(j), root);
  }

  ghost predicate IsGenerator(g: Word, n: nat) {
    && |g| == n + 1
    && g[0] == 1
    && forall j: nat | j < n :: Eval(g, j) == 0
  }

  lemma {:induction false} GeneratorStep(g: Word, i: nat)
    requires IsGenerator(g, i)
    ensures IsGenerator(TimesRoot(g, Exp(i)), i + 1)
  {
    AddLaws(1, 0, 0);
    forall j: nat | j < i + 1
      ensures Eval(TimesRoot(g, Exp(i)), j) == 0
    {
      EvalTimesRoot(g, i, j);
      if j < i {
        MulZeroLeft(Add(Exp(j), Exp(i)));
      } else {
        AddLaws(Exp(i), 0, 0);
      }
    }
  }

  /** The encoder's first loop: multiply out (x + 2^0)...(x + 2^25). */
  method Generator() returns (generator: array<bv8>)
    ensures fresh(generator) && IsGenerator(generator[..], ECC_CODEWORDS)
  {
    generator := new bv8[1](_ => 1);
    var root: bv8 := 1;
    assert generator[..] == [1];
    for i := 0 to ECC_CODEWORDS
      invariant fresh(generator)
      invariant root == Exp(i)
      invariant IsGenerator(generator[..], i)
    {
      GeneratorStep(generator[..], i);
      generator := Expand(generator, root);
      root := GfMul(root, 2);
      DoubleIsTimesTwo(Exp(i));
    }
  }

  lemma {:induction false} DoubleIsTimesTwo(a: bv8)
    ensures Mul(a, 2) == Double(a)
  {
    MulStep(a, 2);
    MulOne(Double(a));
    AddLaws(Double(a), 0, 0);
  }

  function TimesRootAt(g: Word, root: bv8, k: nat): bv8
    requires k <= |g|
  {
    Add(if k < |g| then g[k] else 0, if k > 0 then Mul(g[k - 1], root) else 0)
  }

  lemma {:induction false} TimesRootElements(g: Word, root: bv8, e: Word)
    requires |e| == |g| + 1
    requires forall k | 0 <= k <= |g| :: e[k] == TimesRootAt(g, root, k)
    ensures e == TimesRoot(g, root)
  {
    forall k | 0 <= k < |e|
      ensures e[k] == TimesRoot(g, root)[k]
    {
      assert (g + [0])[k] == if k < |g| then g[k] else 0;
      assert ([0] + Scale(g, root))[k] == if k > 0 then Mul(g[k - 1], root) else 0;
    }
  }

  method Expand(generator: array<bv8>, root: bv8) returns (expanded: array<bv8>)
    ensures fresh(expanded) && expanded[..] == TimesRoot(generator[..], root)
  {
    expanded := new bv8[generator.Length + 1](_ => 0);
    var n := generator.Length;
    for index := 0 to n
      invariant forall k | 0 <= k < index :: expanded[k] == TimesRootAt(generator[..], root, k)
      invariant expanded[index] == if index == 0 then 0 else Mul(generator[index - 1], root)
      invariant forall k | index < k <= n :: expanded[k] == 0
    {
      var coefficient := generator[index];
      AddLaws(coefficient, expanded[index], 0);
      expanded[index] := Add(expanded[index], coefficient);
      var product := GfMul(coefficient, root);
      AddLaws(product, 0, 0);
      expanded[index + 1] := Add(expanded[index + 1], product);
    }
    AddLaws(expanded[n], 0, 0);
    TimesRootElements(generator[..], root, expanded[..]);
  }

  // ----- The division ------------------------------------------------------------------------------

  /** One step of the long division: add factor times the generator at the given index. */
  function Reduced(r: Word, g: Word, index: nat, factor: bv8): Word
    requires index + |g| <= |r|
  {
    Sum(r, Zeros(index) + Scale(g, factor) + Zeros(|r| - index - |g|))
  }

  lemma {:induction false} ReducedKeepsValue(r: Word, g: Word, index: nat, factor: bv8, j: nat)
    requires index + |g| <= |r| && Eval(g, j) == 0
    ensures Eval(Reduced(r, g, index, factor), j) == Eval(r, j)
  {
    hide Eval, Mul, Add, Exp;
    var tail := Zeros(|r| - index - |g|);
    var middle := Scale(g, factor);
    EvalSum(r, Zeros(index) + middle + tail, j);
    EvalConcat(Zeros(index) + middle, tail, j);
    EvalZeros(|tail|, j);
    EvalPadded(index, middle, j);
    EvalScale(g, factor, j);
    MulZeroLeft(factor);
    MulZeroLeft(Exp(j * |tail|));
    AddLaws(0, 0, 0);
    AddLaws(Eval(r, j), 0, 0);
  }

  /** The encoder's second loop, for one nonzero factor. */
  method AddMultiple(remainder: array<bv8>, generator: array<bv8>, index: nat, factor: bv8)
    requires index + generator.Length <= remainder.Length && remainder != generator
    modifies remainder
    ensures remainder[..] == Reduced(old(remainder[..]), generator[..], index, factor)
  {
    ghost var r, g := remainder[..], generator[..];
    for offset := 0 to generator.Length
      invariant generator[..] == g
      invariant forall k | 0 <= k < |r| && !(index <= k < index + offset) :: remainder[k] == r[k]
      invariant forall k | 0 <= k < offset :: remainder[index + k] == Add(r[index + k], Mul(g[k], factor))
    {
      var product := GfMul(generator[offset], factor);
      remainder[index + offset] := Add(remainder[index + offset], product);
    }
    ReducedElements(r, g, index, factor, remainder[..]);
  }

  lemma {:induction false} ReducedElements(r: Word, g: Word, index: nat, factor: bv8, s: Word)
    requires index + |g| <= |r| == |s|
    requires forall k | 0 <= k < |r| && !(index <= k < index + |g|) :: s[k] == r[k]
    requires forall k | 0 <= k < |g| :: s[index + k] == Add(r[index + k], Mul(g[k], factor))
    ensures s == Reduced(r, g, index, factor)
  {
    var addend := Zeros(index) + Scale(g, factor) + Zeros(|r| - index - |g|);
    forall k | 0 <= k < |r|
      ensures s[k] == Add(r[k], addend[k])
    {
      AddLaws(r[k], 0, 0);
      if index <= k < index + |g| {
        assert addend[k] == Mul(g[k - index], factor);
        assert s[index + (k - index)] == Add(r[index + (k - index)], Mul(g[k - index], factor));
      } else {
        assert addend[k] == 0;
      }
    }
  }

  /** The 26 error-correction bytes of a data block: long division by the generator. */
  method Ecc(data: Word) returns (ecc: Word)
    ensures |ecc| == ECC_CODEWORDS && IsCodeword(data + ecc)
  {
    var generator := Generator();
    ghost var g := generator[..];
    var n := |data|;
    var remainder := new bv8[n + ECC_CODEWORDS](k => if 0 <= k < n then data[k] else 0);
    assert remainder[..] == data + Zeros(ECC_CODEWORDS);
    for index := 0 to n
      invariant fresh(remainder) && remainder != generator
      invariant generator[..] == g && IsGenerator(g, ECC_CODEWORDS)
      invariant forall k | 0 <= k < index :: remainder[k] == 0
      invariant forall j: nat | j < ECC_CODEWORDS ::
                  Eval(remainder[..], j) == Eval(data + Zeros(ECC_CODEWORDS), j)
    {
      var factor := remainder[index];
      if factor != 0 {
        ghost var before := remainder[..];
        AddMultiple(remainder, generator, index, factor);
        ReductionStep(before, g, index, factor, data + Zeros(ECC_CODEWORDS));
      }
    }
    ecc := remainder[n..];
    assert remainder[..] == Zeros(n) + ecc;
    RemainderCompletesCodeword(data, ecc);
  }

  lemma {:induction false} ReductionStep(r: Word, g: Word, index: nat, factor: bv8, start: Word)
    requires IsGenerator(g, ECC_CODEWORDS) && index + |g| <= |r| && factor == r[index]
    requires forall k | 0 <= k < index :: r[k] == 0
    requires forall j: nat | j < ECC_CODEWORDS :: Eval(r, j) == Eval(start, j)
    ensures var s := Reduced(r, g, index, factor);
            && (forall k | 0 <= k <= index :: s[k] == 0)
            && (forall j: nat | j < ECC_CODEWORDS :: Eval(s, j) == Eval(start, j))
  {
    var s := Reduced(r, g, index, factor);
    forall j: nat | j < ECC_CODEWORDS
      ensures Eval(s, j) == Eval(start, j)
    {
      ReducedKeepsValue(r, g, index, factor, j);
    }
    var addend := Zeros(index) + Scale(g, factor) + Zeros(|r| - index - |g|);
    assert addend[index] == Scale(g, factor)[0] == Mul(1, factor);
    OneMul(factor);
    AddLaws(factor, factor, 0);
    forall k | 0 <= k < index
      ensures s[k] == 0
    {
      assert addend[k] == 0;
      AddLaws(0, 0, 0);
    }
  }

  lemma {:induction false} RemainderCompletesCodeword(data: Word, ecc: Word)
    requires |ecc| == ECC_CODEWORDS
    requires forall j: nat | j < ECC_CODEWORDS ::
               Eval(Zeros(|data|) + ecc, j) == Eval(data + Zeros(ECC_CODEWORDS), j)
    ensures IsCodeword(data + ecc)
  {
    forall j: nat | j < ECC_CODEWORDS
      ensures Eval(data + ecc, j) == 0
    {
      EvalPadded(|data|, ecc, j);
      EvalConcat(data, ecc, j);
      EvalConcat(data, Zeros(ECC_CODEWORDS), j);
      EvalZeros(ECC_CODEWORDS, j);
      AddLaws(Mul(Eval(data, j), Exp(j * ECC_CODEWORDS)), 0, 0);
      AddLaws(Eval(ecc, j), 0, 0);
    }
  }

  // ----- Minimum distance -----------------------------------------------------------------------------

  /** A nonzero coefficient and its exponent. */
  datatype Term = Term(coefficient: bv8, position: nat)

  function PowerSum(ts: seq<Term>, j: nat): bv8 {
    if ts == [] then 0
    else Add(Mul(ts[0].coefficient, Exp(j * ts[0].position)), PowerSum(ts[1..], j))
  }

  ghost predicate DistinctPositions(ts: seq<Term>) {
    && (forall k | 0 <= k < |ts| :: ts[k].position < 255)
    && (forall k, l | 0 <= k < l < |ts| :: ts[k].position != ts[l].position)
  }

  /** Multiply every coefficient by the difference of its locator and the locator of e. */
  function Twist(ts: seq<Term>, e: nat): seq<Term> {
    seq(|ts|, k requires 0 <= k < |ts| =>
      Term(Mul(ts[k].coefficient, Add(Exp(ts[k].position), Exp(e))), ts[k].position))
  }

  lemma {:induction false} TwistTerm(c: bv8, x: bv8, y: bv8, z: bv8)
    ensures Mul(Mul(c, Add(y, z)), x) == Add(Mul(c, Mul(x, y)), Mul(z, Mul(c, x)))
  {
    MulAddRight(c, y, z);
    MulAddLeft(Mul(c, y), Mul(c, z), x);
    MulAssociates(c, y, x);
    MulCommutes(y, x);
    MulAssociates(c, z, x);
    MulCommutes(z, x);
    MulAssociates(c, x, z);
    MulCommutes(Mul(c, x), z);
  }

  /** Twisting turns the power sums S_j into S_{j+1} + 2^e S_j. */
  lemma {:induction false} PowerSumOfTwist(ts: seq<Term>, e: nat, j: nat)
    ensures PowerSum(Twist(ts, e), j) == Add(PowerSum(ts, j + 1), Mul(Exp(e), PowerSum(ts, j)))
  {
    if ts == [] {
      AddLaws(0, 0, 0);
    } else {
      var c, p := ts[0].coefficient, ts[0].position;
      var x, y, z := Exp(j * p), Exp(p), Exp(e);
      assert Twist(ts, e)[1..] == Twist(ts[1..], e);
      PowerSumOfTwist(ts[1..], e, j);
      TwistTerm(c, x, y, z);
      assert (j + 1) * p == j * p + p;
      ExpAdds(j * p, p);
      MulAddRight(z, Mul(c, x), PowerSum(ts[1..], j));
      AddSwap(Mul(c, Exp((j + 1) * p)), Mul(z, Mul(c, x)),
              PowerSum(ts[1..], j + 1), Mul(z, PowerSum(ts[1..], j)));
    }
  }

  lemma {:induction false} PowerSumOfZeros(ts: seq<Term>, j: nat)
    requires forall k | 0 <= k < |ts| :: ts[k].coefficient == 0
    ensures PowerSum(ts, j) == 0
  {
    if ts != [] {
      PowerSumOfZeros(ts[1..], j);
      MulZeroLeft(Exp(j * ts[0].position));
      AddLaws(0, 0, 0);
    }
  }

  /** The head cancels from S_{j+1} + 2^e S_j when e is its own position. */
  lemma {:induction false} HeadCancels(ts: seq<Term>, j: nat)
    requires ts != [] && PowerSum(ts, j) == 0 && PowerSum(ts, j + 1) == 0
    ensures PowerSum(Twist(ts[1..], ts[0].position), j) == 0
  {
    var e := ts[0].position;
    PowerSumOfTwist(ts, e, j);
    AddLaws(0, 0, 0);
    assert Twist(ts, e)[1..] == Twist(ts[1..], e);
    AddLaws(Exp(e), 0, 0);
    var c := ts[0].coefficient;
    MulZeroLeft(Exp(j * e));
    AddLaws(PowerSum(Twist(ts[1..], e), j), 0, 0);
  }

  /** A Vandermonde system has only the zero solution: if w terms at different positions
      have w vanishing power sums, every coefficient is zero. */
  lemma {:induction false} OnlyZeroSolution(ts: seq<Term>)
    requires DistinctPositions(ts)
    requires forall j: nat | j < |ts| :: PowerSum(ts, j) == 0
    ensures forall k | 0 <= k < |ts| :: ts[k].coefficient == 0
    decreases |ts|
  {
    if ts != [] {
      var e, tail := ts[0].position, ts[1..];
      var twisted := Twist(tail, e);
      forall j: nat | j < |twisted|
        ensures PowerSum(twisted, j) == 0
      {
        HeadCancels(ts, j);
      }
      OnlyZeroSolution(twisted);
      forall k | 0 <= k < |tail|
        ensures tail[k].coefficient == 0
      {
        UntwistZero(ts[k + 1].coefficient, ts[k + 1].position, e);
        assert twisted[k].coefficient == 0;
      }
      PowerSumOfZeros(tail, 0);
      assert PowerSum(ts, 0) == 0;
      MulOne(ts[0].coefficient);
      AddLaws(ts[0].coefficient, 0, 0);
    }
  }

  lemma {:induction false} UntwistZero(c: bv8, p: nat, e: nat)
    requires p < 255 && e < 255 && p != e
    ensures Mul(c, Add(Exp(p), Exp(e))) == 0 ==> c == 0
  {
    NoZeroDivisors(c, Add(Exp(p), Exp(e)));
    AddLaws(Exp(p), Exp(e), 0);
    if p < e {
      ExpIsInjective(p, e);
    } else {
      ExpIsInjective(e, p);
    }
  }

  /** The nonzero coefficients of a word, with their exponents. */
  function Support(w: Word): seq<Term> {
    if w == [] then []
    else (if w[0] != 0 then [Term(w[0], |w| - 1)] else []) + Support(w[1..])
  }

  function Weight(w: Word): nat {
    if w == [] then 0 else (if w[0] != 0 then 1 else 0) + Weight(w[1..])
  }

  lemma {:induction false} SupportProperties(w: Word)
    ensures |Support(w)| == Weight(w)
    ensures forall k | 0 <= k < |Support(w)| :: Support(w)[k].position < |w| && Support(w)[k].coefficient != 0
    ensures forall k, l | 0 <= k < l < |Support(w)| :: Support(w)[k].position != Support(w)[l].position
  {
    if w != [] {
      SupportProperties(w[1..]);
    }
  }

  lemma {:induction false} EvalIsPowerSum(w: Word, j: nat)
    ensures Eval(w, j) == PowerSum(Support(w), j)
  {
    if w != [] {
      EvalIsPowerSum(w[1..], j);
      if w[0] != 0 {
        assert Support(w)[1..] == Support(w[1..]);
      } else {
        assert Support(w) == Support(w[1..]);
        MulZeroLeft(Exp(j * (|w| - 1)));
        AddLaws(Eval(w[1..], j), 0, 0);
      }
    }
  }

  lemma {:induction false} NoLightCodeword(w: Word)
    requires |w| <= 255 && IsCodeword(w) && Weight(w) <= ECC_CODEWORDS
    ensures Weight(w) == 0
  {
    var ts := Support(w);
    SupportProperties(w);
    forall j: nat | j < |ts|
      ensures PowerSum(ts, j) == 0
    {
      EvalIsPowerSum(w, j);
    }
    if ts != [] {
      var head := ts[0];
      assert head.coefficient != 0;
      OnlyZeroSolution(ts);
    }
  }

  /** The Hamming distance. */
  function Distance(u: Word, v: Word): nat
    requires |u| == |v|
  {
    if u == [] then 0 else (if u[0] != v[0] then 1 else 0) + Distance(u[1..], v[1..])
  }

  lemma {:induction false} DistanceIsWeight(u: Word, v: Word)
    requires |u| == |v|
    ensures Distance(u, v) == Weight(Sum(u, v))
    ensures Distance(u, v) == 0 <==> u == v
  {
    if u != [] {
      assert Sum(u, v)[1..] == Sum(u[1..], v[1..]);
      DistanceIsWeight(u[1..], v[1..]);
      AddLaws(u[0], v[0], 0);
      AddLaws(u[0], u[0], 0);
      assert u == [u[0]] + u[1..] && v == [v[0]] + v[1..];
    }
  }

  lemma {:induction false} SumOfCodewords(u: Word, v: Word)
    requires |u| == |v| && IsCodeword(u) && IsCodeword(v)
    ensures IsCodeword(Sum(u, v))
  {
    AddLaws(0, 0, 0);
    forall j: nat | j < ECC_CODEWORDS
      ensures Eval(Sum(u, v), j) == 0
    {
      EvalSum(u, v, j);
    }
  }

  /** BCH bound: two different codewords of at most 255 bytes differ in at least 27 places. */
  lemma {:induction false} MinimumDistance(u: Word, v: Word)
    requires |u| == |v| <= 255 && IsCodeword(u) && IsCodeword(v) && u != v
    ensures Distance(u, v) >= ECC_CODEWORDS + 1
  {
    SumOfCodewords(u, v);
    DistanceIsWeight(u, v);
    if Weight(Sum(u, v)) <= ECC_CODEWORDS {
      NoLightCodeword(Sum(u, v));
    }
  }

  lemma {:induction false} DistanceOfConcat(u: Word, v: Word, s: Word, t: Word)
    requires |u| == |v| && |s| == |t|
    ensures Distance(u + s, v + t) == Distance(u, v) + Distance(s, t)
  {
    if u == [] {
      assert u + s == s && v + t == t;
    } else {
      assert (u + s)[1..] == u[1..] + s && (v + t)[1..] == v[1..] + t;
      DistanceOfConcat(u[1..], v[1..], s, t);
    }
  }

  /** Different data blocks, each followed by its error-correction bytes, are far apart. */
  lemma {:induction false} BlocksAreFarApart(data: Word, ecc: Word, other: Word, otherEcc: Word)
    requires |data| == |other| && data != other && |data| + ECC_CODEWORDS <= 255
    requires |ecc| == ECC_CODEWORDS && IsCodeword(data + ecc)
    requires |otherEcc| == ECC_CODEWORDS && IsCodeword(other + otherEcc)
    ensures Distance(data + ecc, other + otherEcc) >= 27
  {
    assert (data + ecc)[..|data|] == data;
    assert (other + otherEcc)[..|data|] == other;
    MinimumDistance(data + ecc, other + otherEcc);
  }

  /** For data of any length, being a codeword determines the error-correction bytes: Ecc
      returns the only 26 bytes that complete its argument. */
  lemma {:induction false} EccIsUnique(data: Word, ecc: Word, other: Word)
    requires |ecc| == |other| == ECC_CODEWORDS
    requires IsCodeword(data + ecc) && IsCodeword(data + other)
    ensures ecc == other
  {
    forall j: nat | j < ECC_CODEWORDS
      ensures Eval(Sum(ecc, other), j) == 0
    {
      EvalConcat(data, ecc, j);
      EvalConcat(data, other, j);
      EvalSum(ecc, other, j);
      var shared := Mul(Eval(data, j), Exp(j * ECC_CODEWORDS));
      AddLaws(shared, Eval(ecc, j), 0);
      AddLaws(shared, Eval(other, j), 0);
      AddLaws(shared, 0, 0);
      AddLaws(0, 0, 0);
    }
    WeightIsAtMostLength(Sum(ecc, other));
    NoLightCodeword(Sum(ecc, other));
    DistanceIsWeight(ecc, other);
  }

  lemma {:induction false} WeightIsAtMostLength(w: Word)
    ensures Weight(w) <= |w|
  {
    if w != [] {
      WeightIsAtMostLength(w[1..]);
    }
  }

  lemma {:induction false} DistanceTriangle(u: Word, v: Word, w: Word)
    requires |u| == |v| == |w|
    ensures Distance(u, w) <= Distance(v, u) + Distance(v, w)
  {
    if u != [] {
      DistanceTriangle(u[1..], v[1..], w[1..]);
    }
  }

  /** A reader can correct 13 damaged bytes: at most one codeword lies that close. */
  lemma {:induction false} UniqueDecoding(received: Word, u: Word, v: Word)
    requires |received| == |u| == |v| <= 255 && IsCodeword(u) && IsCodeword(v)
    requires Distance(received, u) <= 13 && Distance(received, v) <= 13
    ensures u == v
  {
    DistanceTriangle(u, received, v);
    if u != v {
      MinimumDistance(u, v);
    }
  }
}
