/** Lists of index lists over the positions of an input, their loads and the balance bounds. */
module Partitions {
  import opened Sequences
  import opened Sorting
  import opened BalanceOrder
  import opened DifferencingQueue

  function Indices(bin: Bin): (part: seq<nat>)
    ensures |part| == |bin| && forall i :: 0 <= i < |bin| ==> part[i] == bin[i].idx
  {
    seq(|bin|, i requires 0 <= i < |bin| => bin[i].idx)
  }

  /** `State.get_partitions`. */
  function PartitionsOf(st: Bins): (parts: seq<seq<nat>>)
    ensures |parts| == |st| && forall i :: 0 <= i < |st| ==> parts[i] == Indices(st[i])
  {
    seq(|st|, i requires 0 <= i < |st| => Indices(st[i]))
  }

  function Range(n: nat): (r: seq<nat>)
    ensures |r| == n && forall i :: 0 <= i < n ==> r[i] == i
  {
    seq(n, i => i)
  }

  /** Every position below n is listed exactly once, and nothing else is. */
  ghost predicate CoversOnce(parts: seq<seq<nat>>, n: nat) {
    multiset(Concat(parts)) == multiset(Range(n))
  }

  /** The total length of the listed positions. */
  function Load(lens: seq<nat>, part: seq<nat>): nat {
    if part == [] then 0 else (if part[0] < |lens| then lens[part[0]] else 0) + Load(lens, part[1..])
  }

  function Largest(lens: seq<nat>): nat {
    if lens == [] then 0 else
    var rest := Largest(lens[1..]);
    if lens[0] >= rest then lens[0] else rest
  }

  lemma {:induction false} LargestBounds(lens: seq<nat>, i: nat)
    requires i < |lens|
    ensures lens[i] <= Largest(lens)
  {
    if i > 0 { LargestBounds(lens[1..], i - 1); }
  }

  /** The largest last-minus-first gap of the consecutive blocks of k items. */
  function LargestGap(items: seq<Item>, k: nat): nat
    requires k > 0
  {
    if |items| < k then 0 else
    var here := if items[k - 1].val >= items[0].val then items[k - 1].val - items[0].val else 0;
    var rest := LargestGap(items[k..], k);
    if here >= rest then here else rest
  }

  lemma {:induction false} LargestGapBounds(items: seq<Item>, k: nat, b: nat)
    requires k > 0 && (b + 1) * k <= |items|
    ensures b * k + k - 1 < |items| && items[b * k + k - 1].val - items[b * k].val <= LargestGap(items, k)
  {
    if b > 0 {
      assert b * k + k == (b + 1) * k;
      assert (b - 1 + 1) * k <= |items[k..]| by { assert |items[k..]| == |items| - k; }
      LargestGapBounds(items[k..], k, b - 1);
      assert (b - 1) * k + k == b * k;
      assert items[k..][(b - 1) * k + k - 1] == items[b * k + k - 1];
      assert items[k..][(b - 1) * k] == items[b * k];
    }
  }

  /** How far apart two partitions may end up. */
  function BalanceBound(lens: seq<nat>, k: nat, equal: bool): nat
    requires k > 0
  {
    if equal then LargestGap(Ascending(lens), k) else Largest(lens)
  }

  /** What the method promises about its result. */
  ghost predicate BalancedPartition(lens: seq<nat>, k: nat, equal: bool, parts: seq<seq<nat>>)
    requires k > 0
  {
    |parts| == k && CoversOnce(parts, |lens|) &&
    (equal ==> forall p :: p in parts ==> |p| * k == |lens|) &&
    (|lens| >= k ==> forall p :: p in parts ==> p != []) &&
    forall p, p' :: p in parts && p' in parts ==> Load(lens, p) - Load(lens, p') <= BalanceBound(lens, k, equal)
  }

  // ---------------------------------------------------------------- from a state to its partitions

  /** The items are entries of the input. */
  ghost predicate EntriesOf(bin: Bin, lens: seq<nat>) {
    forall x :: x in bin ==> x.idx < |lens| && x.val == lens[x.idx]
  }

  lemma {:induction false} IndexCount(bin: Bin, lens: seq<nat>, i: nat)
    requires EntriesOf(bin, lens)
    ensures multiset(Indices(bin))[i] == if i < |lens| then multiset(bin)[Item(i, lens[i])] else 0
  {
    if bin != [] {
      var x := bin[0];
      assert x in bin;
      assert Indices(bin)[1..] == Indices(bin[1..]);
      IndexCount(bin[1..], lens, i);
      CountFirst(bin);
      CountFirst(Indices(bin));
      hide Indices, EntriesOf;
      if i < |lens| { assert x.idx == i <==> x == Item(i, lens[i]); }
    }
  }

  lemma {:induction false} LoadIsSum(bin: Bin, lens: seq<nat>)
    requires EntriesOf(bin, lens)
    ensures Load(lens, Indices(bin)) == Sum(bin)
  {
    if bin != [] {
      assert Indices(bin)[1..] == Indices(bin[1..]);
      assert bin[0] in bin;
      LoadIsSum(bin[1..], lens);
    }
  }

  lemma {:induction false} ConcatOfPartitions(st: Bins)
    ensures Concat(PartitionsOf(st)) == Indices(Concat(st))
  {
    if st != [] {
      assert PartitionsOf(st)[1..] == PartitionsOf(st[1..]);
      ConcatOfPartitions(st[1..]);
      assert Indices(st[0] + Concat(st[1..])) == Indices(st[0]) + Indices(Concat(st[1..]));
    }
  }

  lemma ItemsAreEntries(lens: seq<nat>, bin: Bin)
    requires multiset(bin) == multiset(Items(lens))
    ensures EntriesOf(bin, lens)
  {
    SameElements(bin, Items(lens));
  }

  /** A state that holds the whole input lists every position once. */
  lemma StateCoversOnce(st: Bins, lens: seq<nat>)
    requires multiset(Concat(st)) == multiset(Items(lens))
    ensures CoversOnce(PartitionsOf(st), |lens|)
  {
    ConcatOfPartitions(st);
    ItemsAreEntries(lens, Concat(st));
    ItemsAreEntries(lens, Items(lens));
    assert Indices(Items(lens)) == Range(|lens|);
    forall i: nat ensures multiset(Indices(Concat(st)))[i] == multiset(Range(|lens|))[i] {
      IndexCount(Concat(st), lens, i);
      IndexCount(Items(lens), lens, i);
    }
    assert multiset(Indices(Concat(st))) == multiset(Range(|lens|));
  }

  lemma EachItemOnce(lens: seq<nat>)
    ensures forall x :: multiset(Items(lens))[x] <= 1
  {
    forall x ensures multiset(Items(lens))[x] <= 1 { DistinctCount(Items(lens), x); }
  }

  // ---------------------------------------------------------------- what covering once means

  lemma {:induction false} InConcat<T>(parts: seq<seq<T>>, a: nat, x: T)
    requires a < |parts| && x in parts[a]
    ensures x in Concat(parts)
  {
    if a > 0 { InConcat(parts[1..], a - 1, x); }
  }

  lemma {:induction false} CountInConcat<T>(parts: seq<seq<T>>, a: nat, x: T)
    requires a < |parts|
    ensures multiset(Concat(parts))[x] >= multiset(parts[a])[x]
    ensures forall b :: 0 <= b < |parts| && b != a && x in parts[b] ==> multiset(Concat(parts))[x] >= multiset(parts[a])[x] + 1
  {
    if a > 0 {
      CountInConcat(parts[1..], a - 1, x);
      forall b | 0 <= b < |parts| && b != a && x in parts[b]
        ensures multiset(Concat(parts))[x] >= multiset(parts[a])[x] + 1
      {
        if b > 0 { assert parts[1..][b - 1] == parts[b]; }
      }
    } else {
      forall b | 0 <= b < |parts| && b != a && x in parts[b]
        ensures multiset(Concat(parts))[x] >= multiset(parts[a])[x] + 1
      {
        InConcat(parts[1..], b - 1, x);
      }
    }
  }

  lemma RangeCount(n: nat, x: nat)
    ensures multiset(Range(n))[x] == if x < n then 1 else 0
  {
    DistinctCount(Range(n), x);
    if x < n { assert Range(n)[x] == x; assert x in multiset(Range(n)); } else { assert x !in Range(n); }
  }

  /** Positions are in range, no list repeats one, and no two lists share one. */
  lemma CoversOnceDisjoint(parts: seq<seq<nat>>, n: nat, a: nat, b: nat, x: nat)
    requires CoversOnce(parts, n) && a < |parts| && b < |parts| && x in parts[a] && x in parts[b]
    ensures a == b && x < n && multiset(parts[a])[x] == 1
  {
    RangeCount(n, x);
    CountInConcat(parts, a, x);
    InConcat(parts, a, x);
    assert x in multiset(parts[a]);
  }

  /** Every position is listed. */
  lemma {:induction false} FoundInConcat<T>(parts: seq<seq<T>>, x: T) returns (a: nat)
    requires x in Concat(parts)
    ensures a < |parts| && x in parts[a]
  {
    if x in parts[0] { a := 0; } else { var b := FoundInConcat(parts[1..], x); a := b + 1; }
  }

  lemma CoversOnceComplete(parts: seq<seq<nat>>, n: nat, x: nat)
    requires CoversOnce(parts, n) && x < n
    ensures exists a :: 0 <= a < |parts| && x in parts[a]
  {
    assert Range(n)[x] == x;
    SameElements(Concat(parts), Range(n));
    var a := FoundInConcat(parts, x);
  }
}
