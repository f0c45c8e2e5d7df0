/** Per-prompt statistics of response lengths: the median, and how many lengths lie in the tail above it. */
module TailStats {
  import opened Sorting
  import opened RealArith

  predicate NonNegative(lengths: seq<int>) { forall i :: 0 <= i < |lengths| ==> lengths[i] >= 0 }

  /** `np.median`. */
  function Median(lengths: seq<int>): real
    requires lengths != []
  {
    var s, n := Sort(lengths, AtMost), |lengths|;
    if n % 2 == 1 then s[n / 2] as real else (s[n / 2 - 1] + s[n / 2]) as real / 2.0
  }

  function IsAbove(x: int, limit: real): bool { x as real > limit }

  /** `np.sum(arr > limit)`. */
  function CountAbove(lengths: seq<int>, limit: real): (n: nat)
    ensures n <= |lengths|
  {
    if lengths == [] then 0 else (if IsAbove(lengths[0], limit) then 1 else 0) + CountAbove(lengths[1..], limit)
  }

  function Fraction(n: int, d: nat): real
    requires d > 0
  {
    Quotient(n as real, d as real)
  }

  /** The share of an epoch's rollouts above `kappa` times their median. */
  function TailShare(lengths: seq<int>, kappa: real): real
    requires lengths != []
  {
    Fraction(CountAbove(lengths, Product(kappa, Median(lengths))), |lengths|)
  }

  function Total(lengths: seq<int>): int {
    if lengths == [] then 0 else lengths[0] + Total(lengths[1..])
  }

  function Mean(lengths: seq<int>): real
    requires lengths != []
  {
    Fraction(Total(lengths), |lengths|)
  }

  function Longest(lengths: seq<int>): (m: int)
    requires lengths != []
    ensures m in lengths && forall i :: 0 <= i < |lengths| ==> lengths[i] <= m
  {
    if |lengths| == 1 then lengths[0] else
    var rest := Longest(lengths[1..]);
    if lengths[0] >= rest then lengths[0] else rest
  }

  // ---------------------------------------------------------------- what the statistics are

  ghost function Below(lengths: seq<int>, x: int): set<int> { set i | 0 <= i < |lengths| && lengths[i] < x }

  ghost function UpTo(lengths: seq<int>, x: int): set<int> { set i | 0 <= i < |lengths| && lengths[i] <= x }

  ghost function Above(lengths: seq<int>, limit: real): set<int> { set i | 0 <= i < |lengths| && lengths[i] as real > limit }

  /** A length of the list with at most m of them below it and more than m up to it: number m of the list in order. */
  ghost predicate Ranked(lengths: seq<int>, m: nat, x: int) {
    x in lengths && |Below(lengths, x)| <= m < |UpTo(lengths, x)|
  }

  /** Half-way between the two middle lengths, which are one when the number is odd. */
  ghost predicate IsMedian(lengths: seq<int>, x: real)
    requires lengths != []
  {
    exists lo: int, hi: int :: Halfway(lengths, lo, hi, x)
  }

  ghost predicate Halfway(lengths: seq<int>, lo: int, hi: int, x: real)
    requires lengths != []
  {
    Ranked(lengths, (|lengths| - 1) / 2, lo) && Ranked(lengths, |lengths| / 2, hi) && x == (lo + hi) as real / 2.0
  }

  /** The mean, as many times as there are lengths, is their sum. */
  ghost predicate IsMean(lengths: seq<int>, x: real) { Product(x, |lengths| as real) == Total(lengths) as real }

  ghost predicate IsLongest(lengths: seq<int>, x: int) { x in lengths && forall i :: 0 <= i < |lengths| ==> lengths[i] <= x }

  /** The share of the lengths above `kappa` times the median. */
  ghost predicate IsTailShare(lengths: seq<int>, kappa: real, x: real) {
    exists median: real :: lengths != [] && IsMedian(lengths, median) &&
      Product(x, |lengths| as real) == |Above(lengths, Product(kappa, median))| as real
  }

  ghost function Places(lengths: seq<int>): set<int> { set i | 0 <= i < |lengths| && lengths[i] in lengths }

  lemma {:induction false} PlacesCount(lengths: seq<int>)
    ensures |Places(lengths)| == |lengths|
  {
    if lengths != [] {
      var last := |lengths| - 1;
      PlacesCount(lengths[..last]);
      assert forall i :: 0 <= i < last ==> lengths[i] == lengths[..last][i];
      assert Places(lengths) == Places(lengths[..last]) + {last};
    }
  }

  lemma {:induction false} CountIsAbove(lengths: seq<int>, limit: real)
    ensures CountAbove(lengths, limit) == |Above(lengths, limit)|
  {
    if lengths != [] {
      var last := |lengths| - 1;
      CountIsAbove(lengths[..last], limit);
      CountOfLast(lengths, limit);
      if IsAbove(lengths[last], limit) {
        assert Above(lengths, limit) == Above(lengths[..last], limit) + {last};
      } else {
        assert Above(lengths, limit) == Above(lengths[..last], limit);
      }
    }
  }

  lemma {:induction false} CountOfLast(lengths: seq<int>, limit: real)
    requires lengths != []
    ensures CountAbove(lengths, limit) ==
      CountAbove(lengths[..|lengths| - 1], limit) + if IsAbove(lengths[|lengths| - 1], limit) then 1 else 0
  {
    if |lengths| > 1 {
      assert lengths[1..][..|lengths| - 2] == lengths[..|lengths| - 1][1..];
      CountOfLast(lengths[1..], limit);
    }
  }

  /** How many are below and up to x, from how many are above. */
  lemma CountsOfRank(lengths: seq<int>, x: int)
    ensures |UpTo(lengths, x)| == |lengths| - CountAbove(lengths, x as real)
    ensures |Below(lengths, x)| == |lengths| - CountAbove(lengths, (x - 1) as real)
  {
    CountIsAbove(lengths, x as real);
    CountIsAbove(lengths, (x - 1) as real);
    PlacesCount(lengths);
    assert Places(lengths) == UpTo(lengths, x) + Above(lengths, x as real);
    assert Places(lengths) == Below(lengths, x) + Above(lengths, (x - 1) as real);
  }

  /** If all from m on are above the limit, so many are. */
  lemma {:induction false} CountFrom(s: seq<int>, limit: real, m: nat)
    requires m <= |s| && forall i :: m <= i < |s| ==> IsAbove(s[i], limit)
    ensures CountAbove(s, limit) >= |s| - m
  {
    if s != [] {
      var m' := if m == 0 then 0 else m - 1;
      forall i | m' <= i < |s| - 1 ensures IsAbove(s[1..][i], limit) { assert s[1..][i] == s[i + 1]; }
      CountFrom(s[1..], limit, m');
    }
  }

  lemma SortedAtIsRanked(lengths: seq<int>, m: nat)
    requires m < |lengths|
    ensures Ranked(lengths, m, Sort(lengths, AtMost)[m])
  {
    hide CountAbove, Sort;
    var s := Sort(lengths, AtMost);
    SortPermutes(lengths, AtMost);
    SameElements(lengths, s);
    SortOrders(lengths, AtMost);
    var x := s[m];
    forall i | 0 <= i < m + 1 ensures !IsAbove(s[i], x as real) { assert i < m ==> AtMost(s[i], s[m]); }
    CountAfter(s, x as real, m + 1);
    forall i | m <= i < |s| ensures IsAbove(s[i], (x - 1) as real) { assert i > m ==> AtMost(s[m], s[i]); }
    CountFrom(s, (x - 1) as real, m);
    CountOfSort(lengths, x as real);
    CountOfSort(lengths, (x - 1) as real);
    CountsOfRank(lengths, x);
  }

  lemma MedianByRank(lengths: seq<int>)
    requires lengths != []
    ensures IsMedian(lengths, Median(lengths))
  {
    hide Sort, Ranked;
    var s, n := Sort(lengths, AtMost), |lengths|;
    SortedAtIsRanked(lengths, (n - 1) / 2);
    SortedAtIsRanked(lengths, n / 2);
    assert Halfway(lengths, s[(n - 1) / 2], s[n / 2], Median(lengths));
  }

  lemma {:induction false} TotalOfConcat(a: seq<int>, b: seq<int>)
    ensures Total(a + b) == Total(a) + Total(b)
    ensures forall x :: Total([x]) == x
  {
    if a == [] {
      assert a + b == b;
    } else {
      assert (a + b)[1..] == a[1..] + b;
      TotalOfConcat(a[1..], b);
    }
  }

  lemma FractionTimes(n: int, d: nat)
    requires d > 0
    ensures Product(Fraction(n, d), d as real) == n as real
  {
    QuotientTimes(n as real, d as real);
  }

  /** The statistics are what they are called. */
  lemma StatisticsAre(lengths: seq<int>, kappa: real)
    requires lengths != []
    ensures IsMean(lengths, Mean(lengths)) && IsLongest(lengths, Longest(lengths))
    ensures IsMedian(lengths, Median(lengths)) && IsTailShare(lengths, kappa, TailShare(lengths, kappa))
  {
    hide Median, Longest, Total, CountAbove, Product, Above, IsMedian, Fraction;
    MedianByRank(lengths);
    CountIsAbove(lengths, Product(kappa, Median(lengths)));
    FractionTimes(Total(lengths), |lengths|);
    FractionTimes(CountAbove(lengths, Product(kappa, Median(lengths))), |lengths|);
  }

  // ---------------------------------------------------------------- at most half above the median

  lemma {:induction false} CountOfInsert(x: int, s: seq<int>, limit: real)
    ensures CountAbove(Insert(x, s, AtMost), limit) == CountAbove([x] + s, limit)
  {
    assert ([x] + s)[1..] == s;
    if s != [] && !AtMost(x, s[0]) {
      CountOfInsert(x, s[1..], limit);
      assert ([x] + s[1..])[1..] == s[1..];
    }
  }

  lemma {:induction false} CountOfSort(s: seq<int>, limit: real)
    ensures CountAbove(Sort(s, AtMost), limit) == CountAbove(s, limit)
  {
    if s != [] {
      CountOfSort(s[1..], limit);
      CountOfInsert(s[0], Sort(s[1..], AtMost), limit);
      assert ([s[0]] + Sort(s[1..], AtMost))[1..] == Sort(s[1..], AtMost);
    }
  }

  /** If the first m elements are not above the limit, at most the others are. */
  lemma {:induction false} CountAfter(s: seq<int>, limit: real, m: nat)
    requires m <= |s| && forall i :: 0 <= i < m ==> !IsAbove(s[i], limit)
    ensures CountAbove(s, limit) <= |s| - m
  {
    if s != [] {
      forall i | 0 <= i < m - 1 ensures !IsAbove(s[1..][i], limit) { assert s[1..][i] == s[i + 1]; }
      CountAfter(s[1..], limit, if m == 0 then 0 else m - 1);
    }
  }

  /** The lower half of a sorted list, middle included, is not above the median. */
  lemma LowerHalf(lengths: seq<int>, i: nat)
    requires lengths != [] && 2 * i < |lengths|
    ensures Sort(lengths, AtMost)[i] as real <= Median(lengths)
  {
    SortOrders(lengths, AtMost);
    var s, n := Sort(lengths, AtMost), |lengths|;
    assert i < n / 2 ==> AtMost(s[i], s[n / 2]);
    if n % 2 == 0 {
      assert i < n / 2 - 1 ==> AtMost(s[i], s[n / 2 - 1]);
      assert AtMost(s[n / 2 - 1], s[n / 2]);
    }
  }

  lemma HalfOfOdd(n: nat, m: nat)
    requires m == (n + 1) / 2
    ensures m <= n && 2 * (n - m) <= n && forall i: int :: 0 <= i < m ==> 2 * i < n
  {
  }

  /** No more than half of a list lies above its median. */
  lemma AtMostHalfAbove(lengths: seq<int>, limit: real)
    requires lengths != [] && limit >= Median(lengths)
    ensures 2 * CountAbove(lengths, limit) <= |lengths|
  {
    hide Median, CountAbove, Sort;
    var s, m := Sort(lengths, AtMost), (|lengths| + 1) / 2;
    HalfOfOdd(|lengths|, m);
    forall i: int | 0 <= i < m ensures !IsAbove(s[i], limit) { LowerHalf(lengths, i); }
    CountAfter(s, limit, m);
    CountOfSort(lengths, limit);
  }

  lemma MedianNonNegative(lengths: seq<int>)
    requires lengths != [] && NonNegative(lengths)
    ensures Median(lengths) >= 0.0
  {
    SortPermutes(lengths, AtMost);
    SameElements(lengths, Sort(lengths, AtMost));
    var s := Sort(lengths, AtMost);
    forall i | 0 <= i < |s| ensures s[i] >= 0 { assert s[i] in lengths; }
  }

  lemma FractionBounds(n: int, d: nat, lo: int, hi: int)
    requires d > 0 && lo * d <= n <= hi * d
    ensures lo as real <= Fraction(n, d) <= hi as real
  {
    QuotientTimes(n as real, d as real);
    assert (lo * d) as real == lo as real * d as real && (hi * d) as real == hi as real * d as real;
    LessByProduct(lo as real, Fraction(n, d), d as real);
    LessByProduct(Fraction(n, d), hi as real, d as real);
  }

  lemma HalfFraction(n: nat, d: nat)
    requires d > 0 && 2 * n <= d
    ensures 0.0 <= Fraction(n, d) <= 0.5
  {
    QuotientTimes(n as real, d as real);
    LessByProduct(0.0, Fraction(n, d), d as real);
    LessByProduct(Fraction(n, d), 0.5, d as real);
  }

  /** So the tail is at most half of an epoch's rollouts, whatever their lengths. */
  lemma TailShareAtMostHalf(lengths: seq<int>, kappa: real)
    requires lengths != [] && NonNegative(lengths) && kappa >= 1.0
    ensures 0.0 <= TailShare(lengths, kappa) <= 0.5
  {
    hide Median, CountAbove, Fraction;
    MedianNonNegative(lengths);
    MulOrder(1.0, kappa, Median(lengths));
    AtMostHalfAbove(lengths, Product(kappa, Median(lengths)));
    HalfFraction(CountAbove(lengths, Product(kappa, Median(lengths))), |lengths|);
  }

  /** With a factor below one, the whole list can be tail. */
  lemma SmallFactorBreaksHalf(kappa: real)
    requires kappa < 1.0
    ensures TailShare([1], kappa) == 1.0
  {
    assert Sort([1], AtMost) == [1];
    assert Product(kappa, 1.0) < 1.0;
    assert [1][1..] == [];
    assert CountAbove([1], Product(kappa, Median([1]))) == 1;
  }

  // ---------------------------------------------------------------- the mean

  lemma {:induction false} TotalBounds(lengths: seq<int>, lo: int, hi: int)
    requires forall i :: 0 <= i < |lengths| ==> lo <= lengths[i] <= hi
    ensures lo * |lengths| <= Total(lengths) <= hi * |lengths|
  {
    if lengths != [] {
      TotalBounds(lengths[1..], lo, hi);
      assert |lengths| == |lengths[1..]| + 1;
      assert lo * |lengths| == lo * |lengths[1..]| + lo && hi * |lengths| == hi * |lengths[1..]| + hi;
    }
  }

  /** The mean lies between zero and the longest length. */
  lemma MeanBounds(lengths: seq<int>)
    requires lengths != [] && NonNegative(lengths)
    ensures 0.0 <= Mean(lengths) <= Longest(lengths) as real
  {
    hide Total, Fraction;
    TotalBounds(lengths, 0, Longest(lengths));
    FractionBounds(Total(lengths), |lengths|, 0, Longest(lengths));
  }
}
