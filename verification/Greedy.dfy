/** The greedy partition: each item goes to the list with the smallest sum so far. */
module Greedy {
  import opened Sequences
  import opened Prelude
  import opened Arith
  import opened Partitions

  lemma {:induction false} TotalStep(lens: seq<nat>, i: nat)
    requires i < |lens|
    ensures SumOf(lens[..i + 1]) == SumOf(lens[..i]) + lens[i]
  {
    if i == 0 {
      assert lens[..1] == [lens[0]] && lens[..1][1..] == [];
    } else {
      assert lens[..i + 1][1..] == lens[1..][..i] && lens[..i][1..] == lens[1..][..i - 1];
      TotalStep(lens[1..], i - 1);
    }
  }

  lemma {:induction false} TotalMonotone(lens: seq<nat>, i: nat)
    requires i <= |lens|
    ensures SumOf(lens[..i]) <= SumOf(lens)
    decreases |lens| - i
  {
    if i < |lens| {
      TotalMonotone(lens, i + 1);
      TotalStep(lens, i);
    } else {
      assert lens[..i] == lens;
    }
  }

  lemma {:induction false} LoadAppend(lens: seq<nat>, part: seq<nat>, x: nat)
    requires x < |lens|
    ensures Load(lens, part + [x]) == Load(lens, part) + lens[x]
  {
    if part == [] {
      assert part + [x] == [x];
    } else {
      assert (part + [x])[1..] == part[1..] + [x];
      LoadAppend(lens, part[1..], x);
    }
  }

  lemma {:induction false} ConcatAppend<T>(parts: seq<seq<T>>, m: nat, x: T)
    requires m < |parts|
    ensures multiset(Concat(parts[m := parts[m] + [x]])) == multiset(Concat(parts)) + multiset{x}
    ensures |Concat(parts[m := parts[m] + [x]])| == |Concat(parts)| + 1
  {
    hide Concat;
    var parts' := parts[m := parts[m] + [x]];
    ConcatCount(parts);
    ConcatCount(parts');
    if m == 0 {
      assert parts'[1..] == parts[1..];
    } else {
      assert parts'[1..] == parts[1..][m - 1 := parts[1..][m - 1] + [x]];
      ConcatAppend(parts[1..], m - 1, x);
    }
  }

  function EmptyLists(k: nat): (parts: seq<seq<nat>>)
    ensures |parts| == k && forall j :: 0 <= j < k ==> parts[j] == []
  {
    seq(k, i => [])
  }

  lemma {:induction false} EmptyConcat(parts: seq<seq<nat>>)
    requires forall j :: 0 <= j < |parts| ==> parts[j] == []
    ensures Concat(parts) == []
  {
    if parts != [] { EmptyConcat(parts[1..]); }
  }

  /** The first index whose sum is smallest. */
  method MinIndex(sums: seq<nat>) returns (m: nat)
    requires sums != []
    ensures m < |sums| && forall j :: 0 <= j < |sums| ==> sums[m] <= sums[j]
    ensures forall j :: 0 <= j < m ==> sums[m] < sums[j]
  {
    m := 0;
    for j := 0 to |sums|
      invariant m < |sums| && (j == 0 ==> m == 0) && (j > 0 ==> m < j)
      invariant forall i :: 0 <= i < j ==> sums[m] <= sums[i]
      invariant forall i :: 0 <= i < m ==> sums[m] < sums[i]
    {
      if sums[j] < sums[m] { m := j; }
    }
  }

  /** With a bias above every load, the smallest biased sum has the fewest items. */
  lemma SmallestSumHasFewest(countM: nat, loadM: nat, countJ: nat, loadJ: nat, bias: nat)
    requires loadJ < bias && countM * bias + loadM <= countJ * bias + loadJ
    ensures countM <= countJ
  {
    MulSucc(countJ, bias);
    MulStrict(countM, countJ + 1, bias);
  }

  lemma {:induction false} SizeBounds<T>(parts: seq<seq<T>>, c: nat)
    requires forall p :: p in parts ==> c <= |p| <= c + 1
    ensures |parts| * c <= |Concat(parts)| <= |parts| * c + |parts|
    ensures (exists p :: p in parts && |p| == c) ==> |Concat(parts)| < |parts| * c + |parts|
    ensures (exists p :: p in parts && |p| == c + 1) ==> |Concat(parts)| > |parts| * c
  {
    if parts != [] {
      assert parts[0] in parts;
      assert parts == [parts[0]] + parts[1..];
      SizeBounds(parts[1..], c);
      assert |parts| * c == c + (|parts| - 1) * c;
    }
  }

  lemma SmallestList<T>(parts: seq<seq<T>>) returns (smallest: seq<T>)
    requires parts != []
    ensures smallest in parts && forall p :: p in parts ==> |smallest| <= |p|
  {
    smallest := parts[0];
    for i := 1 to |parts|
      invariant smallest in parts && forall j :: 0 <= j < i ==> |smallest| <= |parts[j]|
    {
      if |parts[i]| < |smallest| { smallest := parts[i]; }
    }
  }

  /** Lists whose sizes differ by at most one and whose number divides the total all have one size. */
  lemma EvenSizes<T>(parts: seq<seq<T>>, k: nat)
    requires |parts| == k && k >= 1 && |Concat(parts)| % k == 0 && Even(parts)
    ensures forall p :: p in parts ==> |p| * k == |Concat(parts)|
  {
    hide Concat;
    var smallest := SmallestList(parts);
    var c := |smallest|;
    forall p | p in parts ensures c <= |p| <= c + 1 {
      var a :| 0 <= a < k && parts[a] == p;
      var b :| 0 <= b < k && parts[b] == smallest;
      assert |parts[a]| <= |parts[b]| + 1;
    }
    SizeBounds(parts, c);
    assert k * c == c * k;
    OnlyMultiple(|Concat(parts)|, k, c);
    forall p | p in parts ensures |p| == c {}
  }

  // ---------------------------------------------------------------- where an item goes

  /** What a list's items before item x weigh, with the bias of each. */
  function Before(lens: seq<nat>, bias: nat, part: seq<nat>, x: nat): nat {
    if part == [] then 0 else
    var last := part[|part| - 1];
    Before(lens, bias, part[..|part| - 1], x) + if last < x && last < |lens| then lens[last] + bias else 0
  }

  /** Item x, in list a, went to the first of the lists that weighed least then. */
  ghost predicate WentToLightest(lens: seq<nat>, bias: nat, parts: seq<seq<nat>>, a: nat, x: nat)
    requires a < |parts|
  {
    forall b :: 0 <= b < |parts| ==>
      Before(lens, bias, parts[a], x) <= Before(lens, bias, parts[b], x)
      && (b < a ==> Before(lens, bias, parts[a], x) < Before(lens, bias, parts[b], x))
  }

  ghost predicate InOrder(part: seq<nat>) { forall i, j :: 0 <= i < j < |part| ==> part[i] < part[j] }

  /** Every list is in order, and every item in it went there so. */
  ghost predicate PlacedGreedily(lens: seq<nat>, bias: nat, parts: seq<seq<nat>>) {
    (forall a :: 0 <= a < |parts| ==> InOrder(parts[a]))
    && forall a: nat, x: nat :: a < |parts| && x in parts[a] ==> WentToLightest(lens, bias, parts, a, x)
  }

  /** Only items before n have been placed. */
  ghost predicate PlacedBelow(parts: seq<seq<nat>>, n: nat) {
    forall a, x :: 0 <= a < |parts| && x in parts[a] ==> x < n
  }

  lemma BeforeAppended(lens: seq<nat>, bias: nat, part: seq<nat>, i: nat, x: nat)
    requires x <= i
    ensures Before(lens, bias, part + [i], x) == Before(lens, bias, part, x)
  {
    assert (part + [i])[..|part|] == part;
  }

  lemma {:induction false} BeforeIsSum(lens: seq<nat>, bias: nat, part: seq<nat>, x: nat)
    requires x <= |lens| && forall y :: y in part ==> y < x
    ensures Before(lens, bias, part, x) == |part| * bias + Load(lens, part)
  {
    if part != [] {
      var init, last := part[..|part| - 1], part[|part| - 1];
      assert part == init + [last] && last in part;
      forall y | y in init ensures y < x { assert y in part; }
      BeforeIsSum(lens, bias, init, x);
      LoadAppend(lens, init, last);
      MulSucc(|init|, bias);
    }
  }

  lemma StaysLightest(lens: seq<nat>, bias: nat, parts: seq<seq<nat>>, more: seq<seq<nat>>, a: nat, x: nat)
    requires a < |parts| == |more| && WentToLightest(lens, bias, parts, a, x)
    requires forall b :: 0 <= b < |parts| ==> Before(lens, bias, more[b], x) == Before(lens, bias, parts[b], x)
    ensures WentToLightest(lens, bias, more, a, x)
  {
    hide Before;
  }

  /** Placing item i on the first list of smallest sum keeps all that. */
  lemma StepPlaced(lens: seq<nat>, bias: nat, i: nat, parts: seq<seq<nat>>, sums: seq<nat>, m: nat)
    requires i < |lens| && Accounted(lens, bias, i, parts, sums) && m < |parts|
    requires PlacedGreedily(lens, bias, parts) && PlacedBelow(parts, i)
    requires (forall j :: 0 <= j < |sums| ==> sums[m] <= sums[j]) && forall j :: 0 <= j < m ==> sums[m] < sums[j]
    ensures PlacedGreedily(lens, bias, parts[m := parts[m] + [i]]) && PlacedBelow(parts[m := parts[m] + [i]], i + 1)
  {
    var more := parts[m := parts[m] + [i]];
    hide Before, Load, SumOf;
    forall b: nat, x: nat | b < |parts| && x <= i
      ensures Before(lens, bias, more[b], x) == Before(lens, bias, parts[b], x)
    {
      BeforeAppended(lens, bias, parts[m], i, x);
    }
    forall b: nat | b < |parts| ensures Before(lens, bias, parts[b], i) == sums[b] {
      BeforeIsSum(lens, bias, parts[b], i);
    }
    assert InOrder(more[m]) by {
      assert InOrder(parts[m]);
      assert forall j :: 0 <= j < |parts[m]| ==> parts[m][j] in parts[m];
    }
    assert WentToLightest(lens, bias, parts, m, i);
    hide WentToLightest;
    forall a: nat, x: nat | a < |more| && x in more[a] ensures WentToLightest(lens, bias, more, a, x) {
      assert x <= i && (x == i ==> a == m);
      StaysLightest(lens, bias, parts, more, a, x);
    }
  }

  // ---------------------------------------------------------------- the loop

  /** After i items: each sum is its list's load plus the bias per item, and no load exceeds the total. */
  ghost predicate Accounted(lens: seq<nat>, bias: nat, i: nat, parts: seq<seq<nat>>, sums: seq<nat>)
    requires i <= |lens|
  {
    |parts| == |sums| &&
    forall j :: 0 <= j < |parts| ==>
      sums[j] == |parts[j]| * bias + Load(lens, parts[j]) && Load(lens, parts[j]) <= SumOf(lens[..i])
  }

  /** List sizes differ by at most one. */
  ghost predicate Even<T>(parts: seq<seq<T>>) {
    forall a, b :: 0 <= a < |parts| && 0 <= b < |parts| ==> |parts[a]| <= |parts[b]| + 1
  }

  ghost predicate CloseSums(sums: seq<nat>, gap: nat) {
    forall a, b :: 0 <= a < |sums| && 0 <= b < |sums| ==> sums[a] - sums[b] <= gap
  }

  lemma StepAccounted(lens: seq<nat>, bias: nat, i: nat, parts: seq<seq<nat>>, sums: seq<nat>, m: nat)
    requires i < |lens| && Accounted(lens, bias, i, parts, sums) && m < |parts|
    ensures Accounted(lens, bias, i + 1, parts[m := parts[m] + [i]], sums[m := sums[m] + (lens[i] + bias)])
  {
    TotalStep(lens, i);
    LoadAppend(lens, parts[m], i);
    assert (|parts[m]| + 1) * bias == |parts[m]| * bias + bias;
    hide Load, SumOf;
  }

  /** Adding to the list with the smallest biased sum keeps the sizes even. */
  lemma StepEven(lens: seq<nat>, bias: nat, i: nat, parts: seq<seq<nat>>, sums: seq<nat>, m: nat)
    requires i < |lens| && Accounted(lens, bias, i, parts, sums) && m < |parts| && Even(parts)
    requires bias > SumOf(lens) && forall j :: 0 <= j < |sums| ==> sums[m] <= sums[j]
    ensures Even(parts[m := parts[m] + [i]])
  {
    TotalMonotone(lens, i);
    hide Load, SumOf;
    forall j | 0 <= j < |parts| ensures |parts[m]| <= |parts[j]| {
      SmallestSumHasFewest(|parts[m]|, Load(lens, parts[m]), |parts[j]|, Load(lens, parts[j]), bias);
    }
  }

  lemma StepClose(sums: seq<nat>, m: nat, v: nat, gap: nat)
    requires CloseSums(sums, gap) && m < |sums| && v <= gap && forall j :: 0 <= j < |sums| ==> sums[m] <= sums[j]
    ensures CloseSums(sums[m := sums[m] + v], gap)
  {
  }

  lemma StepCovers(parts: seq<seq<nat>>, i: nat, m: nat)
    requires CoversOnce(parts, i) && m < |parts|
    ensures CoversOnce(parts[m := parts[m] + [i]], i + 1)
  {
    ConcatAppend(parts, m, i);
    assert Range(i + 1) == Range(i) + [i];
  }

  lemma CoverLength(parts: seq<seq<nat>>, n: nat)
    requires CoversOnce(parts, n)
    ensures |Concat(parts)| == n
  {
    assert |Concat(parts)| == |multiset(Concat(parts))| == |multiset(Range(n))| == n;
  }

  /** What the loop leaves behind. */
  lemma GreedyResult(lens: seq<nat>, k: nat, equal: bool, bias: nat, parts: seq<seq<nat>>, sums: seq<nat>)
    requires k >= 1 && |parts| == k && Accounted(lens, bias, |lens|, parts, sums) && CoversOnce(parts, |lens|)
    requires if equal then Even(parts) else bias == 0 && CloseSums(sums, Largest(lens))
    ensures equal && |lens| % k == 0 ==> forall p :: p in parts ==> |p| * k == |lens|
    ensures !equal ==> forall p, p' :: p in parts && p' in parts ==> Load(lens, p) - Load(lens, p') <= Largest(lens)
  {
    CoverLength(parts, |lens|);
    hide Load, SumOf, Concat, Largest;
    if equal && |lens| % k == 0 { EvenSizes(parts, k); }
    if !equal {
      forall p, p' | p in parts && p' in parts ensures Load(lens, p) - Load(lens, p') <= Largest(lens) {
        var a :| 0 <= a < k && parts[a] == p;
        var b :| 0 <= b < k && parts[b] == p';
        assert sums[a] - sums[b] <= Largest(lens);
      }
    }
  }

  /** `greedy_partition`. */
  method GreedyPartition(lens: seq<nat>, k: nat, equalSize: bool) returns (r: Result<seq<seq<nat>>>)
    ensures k == 0 ==> r == if lens == [] then Ok([]) else Failed(TypeError)
    ensures k >= 1 && equalSize && |lens| % k != 0 ==> r == Failed(AssertionError)
    ensures k >= 1 && (equalSize ==> |lens| % k == 0) ==>
      r.Ok? && |r.value| == k && CoversOnce(r.value, |lens|)
    ensures k >= 1 && equalSize && |lens| % k == 0 ==> forall p :: p in r.value ==> |p| * k == |lens|
    ensures k >= 1 && !equalSize ==>
      forall p, p' :: p in r.value && p' in r.value ==> Load(lens, p) - Load(lens, p') <= Largest(lens)
    ensures r.Ok? ==> PlacedGreedily(lens, if equalSize then SumOf(lens) + 1 else 0, r.value)
  {
    hide Load, SumOf, Concat, CoversOnce, Accounted, Even, CloseSums, Largest, PlacedGreedily, PlacedBelow;
    var bias := if equalSize then SumOf(lens) + 1 else 0;
    var parts: seq<seq<nat>> := EmptyLists(k);
    var sums: seq<nat> := seq(k, i => 0);
    NothingPlaced(lens, bias, parts, sums);
    for i := 0 to |lens|
      invariant |parts| == |sums| == k && (i > 0 ==> k >= 1)
      invariant Accounted(lens, bias, i, parts, sums) && CoversOnce(parts, i)
      invariant if equalSize then Even(parts) else CloseSums(sums, Largest(lens))
      invariant PlacedGreedily(lens, bias, parts) && PlacedBelow(parts, i)
    {
      if k == 0 { return Failed(TypeError); }
      var m := MinIndex(sums);
      StepAccounted(lens, bias, i, parts, sums, m);
      StepCovers(parts, i, m);
      StepPlaced(lens, bias, i, parts, sums, m);
      LargestBounds(lens, i);
      if equalSize { StepEven(lens, bias, i, parts, sums, m); } else { StepClose(sums, m, lens[i], Largest(lens)); }
      parts, sums := parts[m := parts[m] + [i]], sums[m := sums[m] + (lens[i] + bias)];
    }
    if k == 0 { return Ok(parts); }
    GreedyResult(lens, k, equalSize, bias, parts, sums);
    if equalSize {
      for i := 0 to k
        invariant forall j :: 0 <= j < i ==> |parts[j]| * k == |lens|
      {
        if |parts[i]| * k != |lens| { return Failed(AssertionError); }
      }
      assert parts[0] in parts;
      assert |lens| % k == 0 by { MultipleDivides(|parts[0]|, k); }
    }
    r := Ok(parts);
  }

  lemma NothingPlaced(lens: seq<nat>, bias: nat, parts: seq<seq<nat>>, sums: seq<nat>)
    requires |parts| == |sums| && forall j :: 0 <= j < |parts| ==> parts[j] == [] && sums[j] == 0
    ensures Accounted(lens, bias, 0, parts, sums) && CoversOnce(parts, 0) && Even(parts)
    ensures CloseSums(sums, Largest(lens)) && PlacedGreedily(lens, bias, parts) && PlacedBelow(parts, 0)
  {
    EmptyConcat(parts);
  }
}
