/** Round-to-nearest quantisation of one group of weights, in exact arithmetic. */
module RtnGroup {
  import opened RealArith

  function Abs(x: real): (r: real)
    ensures r >= 0.0 && (r == x || r == -x) && r >= x && r >= -x
  {
    if x >= 0.0 then x else -x
  }

  /** `w.abs().amax()`; padding never raises it, so zero is the least. */
  function AbsMax(xs: seq<real>): (m: real)
    ensures m >= 0.0 && forall i :: 0 <= i < |xs| ==> Abs(xs[i]) <= m
  {
    if xs == [] then 0.0 else
    var rest := AbsMax(xs[1..]);
    if Abs(xs[0]) >= rest then Abs(xs[0]) else rest
  }

  lemma {:induction false} AbsMaxReached(xs: seq<real>)
    requires AbsMax(xs) > 0.0
    ensures exists i :: 0 <= i < |xs| && Abs(xs[i]) == AbsMax(xs)
  {
    if Abs(xs[0]) < AbsMax(xs[1..]) {
      AbsMaxReached(xs[1..]);
      var i :| 0 <= i < |xs[1..]| && Abs(xs[1..][i]) == AbsMax(xs[1..]);
      assert xs[i + 1] == xs[1..][i];
    }
  }

  lemma {:induction false} AbsMaxIsLeast(xs: seq<real>, bound: real)
    requires bound >= 0.0 && forall i :: 0 <= i < |xs| ==> Abs(xs[i]) <= bound
    ensures AbsMax(xs) <= bound
  {
    if xs != [] { AbsMaxIsLeast(xs[1..], bound); }
  }

  const TINY := 0.0000000001

  /** `clamp(min=1e-10)`. */
  function AtLeastTiny(m: real): (r: real)
    ensures r >= TINY && r >= m
  {
    if m >= TINY then m else TINY
  }

  /** `amax.clamp(min=1e-10) / qmax`. */
  function Scale(xs: seq<real>, qmax: nat): (s: real)
    requires qmax > 0
    ensures s > 0.0
  {
    AtLeastTiny(AbsMax(xs)) / qmax as real
  }

  /** `torch.round`: to the nearest integer, halves to the even one. */
  function Round(x: real): (r: int)
    ensures -0.5 <= x - r as real <= 0.5
  {
    var f := x.Floor;
    var rest := x - f as real;
    if rest < 0.5 then f else if rest > 0.5 then f + 1 else if f % 2 == 0 then f else f + 1
  }

  function Clamp(n: int, lo: int, hi: int): int {
    if n < lo then lo else if n > hi then hi else n
  }

  type Bits = b: nat | b >= 2 witness 4

  function PowerOfTwo(n: nat): (p: nat)
    ensures p >= 1 && (n >= 1 ==> p >= 2)
  {
    if n == 0 then 1 else 2 * PowerOfTwo(n - 1)
  }

  /** Lowest and highest code of a bit width. */
  function QMax(bits: Bits): (m: nat)
    ensures m > 0
  {
    PowerOfTwo(bits - 1) - 1
  }

  function QMin(bits: Bits): (m: int)
    ensures m == -(QMax(bits) as int) - 1
  {
    -(PowerOfTwo(bits - 1) as int)
  }

  /** The widths a model can be quantised to. */
  lemma ModelWidths()
    ensures QMax(4) == 7 && QMin(4) == -8 && QMax(8) == 127 && QMin(8) == -128
  {
    assert PowerOfTwo(3) == 8 && PowerOfTwo(7) == 128;
  }

  function Times(n: int, s: real): real { Product(n as real, s) }

  /** `(w / scale).round().clamp(qmin, qmax)`. */
  function Code(x: real, s: real, bits: Bits): int
    requires s > 0.0
  {
    Clamp(Round(Quotient(x, s)), QMin(bits), QMax(bits))
  }

  /** The integer codes of a group. */
  function Codes(xs: seq<real>, s: real, bits: Bits): (r: seq<int>)
    requires s > 0.0
    ensures |r| == |xs| && forall i :: 0 <= i < |xs| ==> r[i] == Code(xs[i], s, bits)
  {
    seq(|xs|, i requires 0 <= i < |xs| => Code(xs[i], s, bits))
  }

  function Decode(codes: seq<int>, s: real): (r: seq<real>)
    ensures |r| == |codes| && forall i :: 0 <= i < |codes| ==> r[i] == Times(codes[i], s)
  {
    seq(|codes|, i requires 0 <= i < |codes| => Times(codes[i], s))
  }

  /** A group quantised and decoded. */
  function Decoded(xs: seq<real>, bits: Bits): (r: seq<real>)
    ensures |r| == |xs| && forall i :: 0 <= i < |xs| ==>
      r[i] == Times(Code(xs[i], Scale(xs, QMax(bits)), bits), Scale(xs, QMax(bits)))
  {
    Decode(Codes(xs, Scale(xs, QMax(bits)), bits), Scale(xs, QMax(bits)))
  }

  // ---------------------------------------------------------------- one element

  /** The element is no larger than the largest code times the scale. */
  ghost predicate Covered(x: real, s: real, m: nat) { Abs(x) <= Times(m, s) }

  /** Then its quotient is inside the code range. */
  lemma QuotientInRange(x: real, s: real, m: nat)
    requires s > 0.0 && Covered(x, s, m)
    ensures -(m as real) <= Quotient(x, s) <= m as real
  {
    QuotientTimes(x, s);
    LessByProduct(x / s, m as real, s);
    LessByProduct(-(m as real), x / s, s);
  }

  lemma RoundInRange(q: real, n: nat)
    requires -(n as real) <= q <= n as real
    ensures -(n as int) <= Round(q) <= n
  {
  }

  lemma RoundOfInt(n: int)
    ensures Round(n as real) == n
  {
  }

  /** Between two integers the even one is taken. */
  lemma RoundOfHalf(n: int)
    ensures Round(n as real + 0.5) == if n % 2 == 0 then n else n + 1
  {
    assert (n as real + 0.5).Floor == n;
  }

  /** So clamping changes nothing. */
  lemma ClampIsIdle(x: real, s: real, bits: Bits)
    requires s > 0.0 && Covered(x, s, QMax(bits))
    ensures Code(x, s, bits) == Round(Quotient(x, s)) && -(QMax(bits) as int) <= Code(x, s, bits) <= QMax(bits)
  {
    hide Round, Quotient, Covered;
    QuotientInRange(x, s, QMax(bits));
    RoundInRange(Quotient(x, s), QMax(bits));
  }

  /** Whatever the scale, a code is in the range of its width, and the rounded quotient if that is. */
  lemma CodeInRange(x: real, s: real, bits: Bits)
    requires s > 0.0
    ensures QMin(bits) <= Code(x, s, bits) <= QMax(bits)
    ensures QMin(bits) <= Round(Quotient(x, s)) <= QMax(bits) ==> Code(x, s, bits) == Round(Quotient(x, s))
    ensures Round(Quotient(x, s)) < QMin(bits) ==> Code(x, s, bits) == QMin(bits)
    ensures Round(Quotient(x, s)) > QMax(bits) ==> Code(x, s, bits) == QMax(bits)
  {
    hide Round, Quotient, QMax, QMin;
    assert QMin(bits) == -(QMax(bits) as int) - 1;
  }

  /** Rounding the quotient costs at most half a step. */
  lemma HalfStep(x: real, s: real)
    requires s > 0.0
    ensures Abs(Times(Round(Quotient(x, s)), s) - x) <= s / 2.0
  {
    HalfStepOf(x, s, Round(Quotient(x, s)));
  }

  lemma HalfStepOf(x: real, s: real, n: int)
    requires s > 0.0 && -0.5 <= Quotient(x, s) - n as real <= 0.5
    ensures Abs(Times(n, s) - x) <= s / 2.0
  {
    hide Product, Quotient;
    OverTimesBack(x, s);
    HalfStepProduct(n as real, Quotient(x, s), s);
  }

  lemma OverTimesBack(x: real, s: real)
    requires s > 0.0
    ensures Product(Quotient(x, s), s) == x
  {
    QuotientTimes(x, s);
  }

  lemma HalfStepProduct(n: real, q: real, s: real)
    requires s > 0.0 && -0.5 <= q - n <= 0.5
    ensures -(s / 2.0) <= Product(n, s) - Product(q, s) <= s / 2.0
  {
    hide Product;
    ProductOrder(n - q, 0.5, s);
    ProductOrder(-0.5, n - q, s);
    HalfProduct(s);
    ProductOfDifference(n, q, s);
  }

  lemma ProductOrder(a: real, b: real, s: real)
    requires a <= b && s >= 0.0
    ensures Product(a, s) <= Product(b, s)
  {
    MulOrder(a, b, s);
  }

  lemma HalfProduct(s: real)
    ensures Product(0.5, s) == s / 2.0 && Product(-0.5, s) == -(s / 2.0)
  {
  }

  lemma ProductOfDifference(n: real, q: real, s: real)
    ensures Product(n, s) - Product(q, s) == Product(n - q, s)
  {
  }

  lemma TimesInRange(n: int, m: nat, s: real)
    requires s > 0.0 && -(m as int) <= n <= m
    ensures Abs(Times(n, s)) <= Times(m, s)
  {
    MulOrder(n as real, m as real, s);
    MulOrder(-(m as real), n as real, s);
  }

  lemma OverTimes(n: int, s: real)
    requires s > 0.0
    ensures Quotient(Times(n, s), s) == n as real
  {
    ProductOver(n as real, s);
  }

  lemma ScaleTimesMax(xs: seq<real>, qmax: nat)
    requires qmax > 0
    ensures Times(qmax, Scale(xs, qmax)) == AtLeastTiny(AbsMax(xs))
  {
    QuotientTimes(AtLeastTiny(AbsMax(xs)), qmax as real);
  }

  /** A bound the sizes stay within and reach, unless it is the floor 1e-10. */
  ghost predicate IsLargestOrFloor(xs: seq<real>, top: real) {
    top >= 0.0000000001 && (forall i :: 0 <= i < |xs| ==> Abs(xs[i]) <= top)
    && (top == 0.0000000001 || exists i :: 0 <= i < |xs| && Abs(xs[i]) == top)
  }

  /** The largest code stands for the largest size. */
  lemma LargestCodeIsLargest(xs: seq<real>, qmax: nat)
    requires qmax > 0
    ensures IsLargestOrFloor(xs, Times(qmax, Scale(xs, qmax)))
  {
    hide Times, Scale, Abs;
    ScaleTimesMax(xs, qmax);
    if AbsMax(xs) > 0.0000000001 { AbsMaxReached(xs); }
  }

  // ---------------------------------------------------------------- one group

  lemma ScaleCovers(xs: seq<real>, qmax: nat, i: nat)
    requires qmax > 0 && i < |xs|
    ensures Covered(xs[i], Scale(xs, qmax), qmax)
  {
    hide Times, Scale;
    ScaleTimesMax(xs, qmax);
  }

  /** Quantising and decoding a group moves no element by more than half its scale, and no code is clamped. */
  lemma GroupError(xs: seq<real>, bits: Bits, i: nat)
    requires i < |xs|
    ensures Codes(xs, Scale(xs, QMax(bits)), bits)[i] == Round(Quotient(xs[i], Scale(xs, QMax(bits))))
    ensures Abs(Decoded(xs, bits)[i] - xs[i]) <= Scale(xs, QMax(bits)) / 2.0
  {
    hide *;
    ScaleCovers(xs, QMax(bits), i);
    ClampIsIdle(xs[i], Scale(xs, QMax(bits)), bits);
    HalfStep(xs[i], Scale(xs, QMax(bits)));
  }

  lemma DecodedCovered(xs: seq<real>, bits: Bits, i: nat)
    requires i < |xs|
    ensures Covered(Decoded(xs, bits)[i], Scale(xs, QMax(bits)), QMax(bits))
  {
    hide Code, Round, Scale, QMax, Times, Decoded, Abs;
    var s := Scale(xs, QMax(bits));
    ScaleCovers(xs, QMax(bits), i);
    ClampIsIdle(xs[i], s, bits);
    TimesInRange(Code(xs[i], s, bits), QMax(bits), s);
  }

  /** An element of the largest size takes an extreme code and is decoded exactly. */
  lemma ExtremeIsExact(x: real, s: real, bits: Bits)
    requires s > 0.0 && Abs(x) == Times(QMax(bits), s)
    ensures Times(Code(x, s, bits), s) == x
  {
    hide Code, Round, QMax, Quotient;
    ClampIsIdle(x, s, bits);
    var n: int := if x >= 0.0 then QMax(bits) else -(QMax(bits) as int);
    assert x == Times(n, s) by { Negated(QMax(bits), s); }
    hide Times;
    OverTimes(n, s);
    RoundOfInt(n);
  }

  /** So an element of the group's largest size, not below the floor, is decoded exactly. */
  lemma LargestIsExact(xs: seq<real>, bits: Bits, i: nat)
    requires i < |xs| && Abs(xs[i]) >= 0.0000000001 && forall j :: 0 <= j < |xs| ==> Abs(xs[j]) <= Abs(xs[i])
    ensures Decoded(xs, bits)[i] == xs[i]
  {
    hide Code, QMax, Scale, Times, Abs, AbsMax;
    LargestCodeIsLargest(xs, QMax(bits));
    ExtremeIsExact(xs[i], Scale(xs, QMax(bits)), bits);
  }

  lemma Negated(m: nat, s: real)
    ensures Times(-(m as int), s) == -Times(m, s)
  {
  }

  /** The largest element keeps its size, so the decoded group has the same scale. */
  lemma ScaleOfDecoded(xs: seq<real>, bits: Bits)
    ensures Scale(Decoded(xs, bits), QMax(bits)) == Scale(xs, QMax(bits))
  {
    hide Code, AbsMax, QMax, Scale, Decoded, Abs, Times;
    var ys, top := Decoded(xs, bits), AtLeastTiny(AbsMax(xs));
    ScaleTimesMax(xs, QMax(bits));
    forall i | 0 <= i < |ys| ensures Abs(ys[i]) <= top { DecodedCovered(xs, bits, i); }
    AbsMaxIsLeast(ys, top);
    if AbsMax(xs) >= TINY { LargestStays(xs, bits); }
    SameScale(xs, ys, QMax(bits));
  }

  lemma SameScale(xs: seq<real>, ys: seq<real>, qmax: nat)
    requires qmax > 0 && AtLeastTiny(AbsMax(xs)) == AtLeastTiny(AbsMax(ys))
    ensures Scale(xs, qmax) == Scale(ys, qmax)
  {
  }

  lemma LargestStays(xs: seq<real>, bits: Bits)
    requires AbsMax(xs) >= TINY
    ensures AbsMax(Decoded(xs, bits)) >= AbsMax(xs)
  {
    hide Scale, Code, AbsMax, QMax, Abs, Times, Decoded;
    AbsMaxReached(xs);
    var i :| 0 <= i < |xs| && Abs(xs[i]) == AbsMax(xs);
    ScaleTimesMax(xs, QMax(bits));
    ExtremeIsExact(xs[i], Scale(xs, QMax(bits)), bits);
    assert Abs(Decoded(xs, bits)[i]) <= AbsMax(Decoded(xs, bits));
  }

  /** Quantising the decoded group gives the same codes and the same scale. */
  lemma GroupRequantises(xs: seq<real>, bits: Bits)
    ensures var s := Scale(xs, QMax(bits));
      Scale(Decoded(xs, bits), QMax(bits)) == s && Codes(Decoded(xs, bits), s, bits) == Codes(xs, s, bits)
  {
    hide Scale, Code, Round, QMax, Abs, Times, Quotient, Covered, Decoded, Codes;
    var s := Scale(xs, QMax(bits));
    var codes, ys := Codes(xs, s, bits), Decoded(xs, bits);
    ScaleOfDecoded(xs, bits);
    forall i | 0 <= i < |xs| ensures Code(ys[i], s, bits) == codes[i] {
      DecodedCovered(xs, bits, i);
      ClampIsIdle(ys[i], s, bits);
      OverTimes(codes[i], s);
      RoundOfInt(codes[i]);
    }
  }
}
