/** The differencing step on k-way states, and what any sequence of such steps preserves. */
module Differencing {
  import opened Sequences
  import opened Sorting
  import opened BalanceOrder

  // ---------------------------------------------------------------- merging two states

  /** The largest set of one state goes with the smallest of the other, and so on. */
  function Paired(a: Bins, b: Bins): (r: Bins)
    requires |a| == |b|
    ensures |r| == |a|
  {
    seq(|a|, i requires 0 <= i < |a| => a[i] + b[|a| - 1 - i])
  }

  /** `State.merge`: pair up, then put the largest first again. */
  function MergeStates(a: Bins, b: Bins): (r: Bins)
    requires |a| == |b|
    ensures |r| == |a|
  {
    Sort(Paired(a, b), BinGeq)
  }

  lemma MergeIsState(a: Bins, b: Bins, k: nat)
    requires IsState(a, k) && IsState(b, k)
    ensures IsState(MergeStates(a, b), k)
  {
    BinGeqIsTotalPreorder();
    SortOrders(Paired(a, b), BinGeq);
  }

  // ---------------------------------------------------------------- items are conserved

  lemma {:induction false} PairedPrefixItems(a: Bins, b: Bins, n: nat)
    requires |a| == |b| && n <= |a|
    ensures multiset(Concat(Paired(a, b)[..n])) == multiset(Concat(a[..n])) + multiset(Concat(b[|b| - n..]))
  {
    if n > 0 {
      hide Concat;
      PairedPrefixItems(a, b, n - 1);
      ItemsOfLast(Paired(a, b)[..n]);
      ItemsOfLast(a[..n]);
      ItemsOfFirst(b[|b| - n..]);
      assert Paired(a, b)[..n][..n - 1] == Paired(a, b)[..n - 1] && a[..n][..n - 1] == a[..n - 1];
      assert b[|b| - n..][1..] == b[|b| - (n - 1)..];
    } else {
      assert a[..n] == [] && b[|b| - n..] == [] && Paired(a, b)[..n] == [];
    }
  }

  lemma ItemsOfLast(bins: Bins)
    requires bins != []
    ensures Concat(bins) == Concat(bins[..|bins| - 1]) + bins[|bins| - 1]
  {
    hide Concat;
    ConcatOfTwo(bins[..|bins| - 1], [bins[|bins| - 1]]);
    assert bins == bins[..|bins| - 1] + [bins[|bins| - 1]];
    ItemsOfOne(bins[|bins| - 1]);
  }

  lemma ItemsOfFirst(bins: Bins)
    requires bins != []
    ensures Concat(bins) == bins[0] + Concat(bins[1..])
  {
  }

  lemma NonEmptyOfFirst(bins: Bins)
    requires bins != []
    ensures NonEmpty(bins) == (if bins[0] == [] then 0 else 1) + NonEmpty(bins[1..])
  {
  }

  lemma ItemsOfOne(bin: Bin)
    ensures Concat([bin]) == bin
  {
  }

  /** Merging keeps every item of both states. */
  lemma MergeConservesItems(a: Bins, b: Bins)
    requires |a| == |b|
    ensures multiset(Concat(MergeStates(a, b))) == multiset(Concat(a)) + multiset(Concat(b))
  {
    PairedPrefixItems(a, b, |a|);
    assert Paired(a, b)[..|a|] == Paired(a, b) && a[..|a|] == a && b[0..] == b;
    ItemsOfSort(Paired(a, b));
  }

  // ---------------------------------------------------------------- the spread

  /** No two sets of the state differ by more than the bound. */
  ghost predicate Balanced(st: Bins, bound: int) {
    forall x, y :: x in st && y in st ==> Sum(x) - Sum(y) <= bound
  }

  /** The sets' sums decrease. */
  lemma SumsDecrease(st: Bins, k: nat, i: nat, j: nat)
    requires IsState(st, k) && i <= j < k
    ensures Sum(st[i]) >= Sum(st[j])
  {
    if i < j { assert BinGeq(st[i], st[j]); }
  }

  /** The bound is the spread: first set minus last. */
  lemma BalancedBySpread(st: Bins, k: nat, bound: int)
    requires IsState(st, k)
    ensures Balanced(st, bound) <==> Spread(st) <= bound
  {
    if Spread(st) <= bound {
      forall x, y | x in st && y in st ensures Sum(x) - Sum(y) <= bound {
        var i :| 0 <= i < k && st[i] == x;
        var j :| 0 <= j < k && st[j] == y;
        SumsDecrease(st, k, 0, i);
        SumsDecrease(st, k, j, k - 1);
      }
    }
    if Balanced(st, bound) { assert st[0] in st && st[k - 1] in st; }
  }

  lemma GapIn(st: Bins, bound: int, i: nat, j: nat)
    requires Balanced(st, bound) && i < |st| && j < |st|
    ensures Sum(st[i]) - Sum(st[j]) <= bound
  {
    assert st[i] in st && st[j] in st;
  }

  /** Pairing opposite ends: what the earlier set is ahead by, its partner is behind by. */
  lemma PairedGap(a: Bins, b: Bins, k: nat, bound: int, i: nat, j: nat)
    requires IsState(a, k) && IsState(b, k) && Balanced(a, bound) && Balanced(b, bound) && i < k && j < k
    ensures Sum(Paired(a, b)[i]) - Sum(Paired(a, b)[j]) <= bound
  {
    hide Sum, Ordered, Balanced;
    SumOfConcat(a[i], b[k - 1 - i]);
    SumOfConcat(a[j], b[k - 1 - j]);
    GapIn(a, bound, i, j);
    GapIn(b, bound, k - 1 - j, k - 1 - i);
    GapIn(b, bound, k - 1 - i, k - 1 - j);
    if i <= j { SumsDecrease(b, k, k - 1 - j, k - 1 - i); } else { SumsDecrease(a, k, j, i); }
  }

  /** So pairing never makes the spread worse than the worse of the two. */
  lemma PairedBalanced(a: Bins, b: Bins, k: nat, bound: int)
    requires IsState(a, k) && IsState(b, k) && Balanced(a, bound) && Balanced(b, bound)
    ensures Balanced(Paired(a, b), bound)
  {
    hide Sum, Ordered;
    var p := Paired(a, b);
    forall x, y | x in p && y in p ensures Sum(x) - Sum(y) <= bound {
      var i :| 0 <= i < k && p[i] == x;
      var j :| 0 <= j < k && p[j] == y;
      PairedGap(a, b, k, bound, i, j);
    }
  }

  lemma MergeBalanced(a: Bins, b: Bins, k: nat, bound: int)
    requires IsState(a, k) && IsState(b, k) && Balanced(a, bound) && Balanced(b, bound)
    ensures Balanced(MergeStates(a, b), bound)
  {
    PairedBalanced(a, b, k, bound);
    SortPermutes(Paired(a, b), BinGeq);
    SameElements(MergeStates(a, b), Paired(a, b));
  }

  /** The spread of a merged state is at most the larger of the two spreads. */
  lemma MergedSpread(a: Bins, b: Bins, k: nat)
    requires IsState(a, k) && IsState(b, k)
    ensures Spread(MergeStates(a, b)) <= if Spread(a) >= Spread(b) then Spread(a) else Spread(b)
  {
    var bound := if Spread(a) >= Spread(b) then Spread(a) else Spread(b);
    BalancedBySpread(a, k, bound);
    BalancedBySpread(b, k, bound);
    MergeBalanced(a, b, k, bound);
    MergeIsState(a, b, k);
    BalancedBySpread(MergeStates(a, b), k, bound);
  }

  // ---------------------------------------------------------------- non-empty sets

  function NonEmpty(bins: Bins): (n: nat)
    ensures n <= |bins|
  {
    if bins == [] then 0 else (if bins[0] == [] then 0 else 1) + NonEmpty(bins[1..])
  }

  lemma {:induction false} NonEmptyByCount(bins: Bins)
    ensures NonEmpty(bins) == |bins| - multiset(bins)[[]]
  {
    if bins != [] {
      NonEmptyByCount(bins[1..]);
      assert bins == [bins[0]] + bins[1..];
    }
  }

  /** If exactly the sets below p and from q on are non-empty, that is how many there are. */
  lemma {:induction false} NonEmptyEnds(bins: Bins, p: nat, q: nat)
    requires p <= q <= |bins|
    requires forall i :: 0 <= i < |bins| ==> (bins[i] != [] <==> i < p || i >= q)
    ensures NonEmpty(bins) == p + (|bins| - q)
  {
    if bins != [] {
      NonEmptyEnds(bins[1..], if p > 0 then p - 1 else 0, if q > 0 then q - 1 else 0);
    }
  }

  /** In a state the non-empty sets come first: empty sets have sum zero, and among sets of sum zero
      the length decides. */
  lemma NonEmptyFirst(st: Bins, k: nat)
    requires IsState(st, k)
    ensures forall i :: 0 <= i < k ==> (st[i] != [] <==> i < NonEmpty(st))
  {
    var p: nat := 0;
    while p < k && st[p] != []
      invariant p <= k && forall i :: 0 <= i < p ==> st[i] != []
    {
      p := p + 1;
    }
    forall i | p <= i < k ensures st[i] == [] {
      if i > p { assert BinGeq(st[p], st[i]); EmptyIsLeast(st[i]); }
    }
    NonEmptyEnds(st, p, k);
  }

  lemma EmptyIsLeast(bin: Bin)
    requires BinGeq([], bin)
    ensures bin == []
  {
  }

  /** Two states with a and b non-empty sets merge into one with min(k, a+b). */
  lemma MergedNonEmpty(x: Bins, y: Bins, k: nat)
    requires IsState(x, k) && IsState(y, k)
    ensures NonEmpty(MergeStates(x, y)) == if NonEmpty(x) + NonEmpty(y) <= k then NonEmpty(x) + NonEmpty(y) else k
  {
    var a, b := NonEmpty(x), NonEmpty(y);
    NonEmptyFirst(x, k);
    NonEmptyFirst(y, k);
    var p := Paired(x, y);
    forall i | 0 <= i < k ensures p[i] != [] <==> i < a || i >= k - b {
      assert p[i] == x[i] + y[k - 1 - i];
    }
    if a + b <= k { NonEmptyEnds(p, a, k - b); } else { NonEmptyEnds(p, k, k); }
    SortPermutes(p, BinGeq);
    NonEmptyByCount(p);
    NonEmptyByCount(MergeStates(x, y));
  }

  // ---------------------------------------------------------------- equal sizes

  lemma MergedSizes(a: Bins, b: Bins, m: nat, n: nat)
    requires |a| == |b| && AllOfLength(a, m) && AllOfLength(b, n)
    ensures AllOfLength(MergeStates(a, b), m + n)
  {
    var p := Paired(a, b);
    forall bin | bin in p ensures |bin| == m + n {
      var i :| 0 <= i < |p| && p[i] == bin;
      assert a[i] in a && b[|a| - 1 - i] in b;
    }
    SortPermutes(p, BinGeq);
    SameElements(MergeStates(a, b), p);
  }
}
