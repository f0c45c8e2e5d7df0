/** Sets of items, k-way states, and the comparisons the differencing method orders them by. */
module BalanceOrder {
  import opened Sequences
  import opened Sorting

  /** An index of the input list with its (non-negative) length. */
  datatype Item = Item(idx: nat, val: nat)

  /** The items of one set, in the order they were added. */
  type Bin = seq<Item>

  function Sum(bin: Bin): nat {
    if bin == [] then 0 else bin[0].val + Sum(bin[1..])
  }

  lemma {:induction false} SumOfConcat(a: Bin, b: Bin)
    ensures Sum(a + b) == Sum(a) + Sum(b)
  {
    if a == [] {
      assert a + b == b;
    } else {
      SumOfConcat(a[1..], b);
      assert (a + b)[1..] == a[1..] + b;
    }
  }

  // ---------------------------------------------------------------- comparing sets

  /** Tuple comparison. */
  predicate ItemLess(x: Item, y: Item) {
    x.idx < y.idx || (x.idx == y.idx && x.val < y.val)
  }

  /** List comparison. */
  predicate ItemsLess(a: Bin, b: Bin) {
    b != [] && (a == [] || ItemLess(a[0], b[0]) || (a[0] == b[0] && ItemsLess(a[1..], b[1..])))
  }

  /** `Set.__lt__`: by sum, then by number of items, then by the items. */
  predicate BinLess(a: Bin, b: Bin) {
    if Sum(a) != Sum(b) then Sum(a) < Sum(b) else
    if |a| != |b| then |a| < |b| else
    ItemsLess(a, b)
  }

  /** The order of a state's sets (largest first). */
  predicate BinGeq(a: Bin, b: Bin) { !BinLess(a, b) }

  lemma {:induction false} ItemsLessTrichotomy(a: Bin, b: Bin)
    ensures !(ItemsLess(a, b) && ItemsLess(b, a))
    ensures !ItemsLess(a, b) && !ItemsLess(b, a) ==> a == b
  {
    if a != [] && b != [] && a[0] == b[0] {
      ItemsLessTrichotomy(a[1..], b[1..]);
      assert a == [a[0]] + a[1..] && b == [b[0]] + b[1..];
    }
  }

  lemma {:induction false} ItemsLessChains(a: Bin, b: Bin, c: Bin)
    requires ItemsLess(a, b) && ItemsLess(b, c)
    ensures ItemsLess(a, c)
  {
    if a != [] && a[0] == b[0] == c[0] {
      ItemsLessChains(a[1..], b[1..], c[1..]);
    }
  }

  /** The first place where two lists of one length differ decides. */
  lemma {:induction false} FirstDifferenceDecides(a: Bin, b: Bin, n: nat)
    requires n < |a| == |b| && a[..n] == b[..n] && a[n] != b[n]
    ensures ItemsLess(a, b) <==> a[n].idx < b[n].idx || (a[n].idx == b[n].idx && a[n].val < b[n].val)
  {
    if n > 0 {
      assert a[0] == a[..n][0] == b[..n][0] == b[0];
      assert a[1..][..n - 1] == a[..n][1..] && b[1..][..n - 1] == b[..n][1..];
      FirstDifferenceDecides(a[1..], b[1..], n - 1);
    }
  }

  /** Two different sets are ordered one way and only one way. */
  lemma BinLessTrichotomy(a: Bin, b: Bin)
    ensures !(BinLess(a, b) && BinLess(b, a))
    ensures !BinLess(a, b) && !BinLess(b, a) ==> a == b
  {
    ItemsLessTrichotomy(a, b);
  }

  lemma BinLessChains(a: Bin, b: Bin, c: Bin)
    requires BinLess(a, b) && BinLess(b, c)
    ensures BinLess(a, c)
  {
    if |a| == |b| == |c| && Sum(a) == Sum(b) == Sum(c) { ItemsLessChains(a, b, c); }
  }

  lemma BinGeqIsTotalPreorder()
    ensures TotalPreorder(BinGeq)
  {
    forall a: Bin, b: Bin ensures BinGeq(a, b) || BinGeq(b, a) { BinLessTrichotomy(a, b); }
    forall a: Bin, b: Bin, c: Bin | BinGeq(a, b) && BinGeq(b, c) ensures BinGeq(a, c) {
      if BinLess(a, c) {
        BinLessTrichotomy(a, b);
        BinLessTrichotomy(b, c);
        if a == b || b == c {} else { BinLessChains(a, c, b); BinLessTrichotomy(a, b); }
      }
    }
  }

  // ---------------------------------------------------------------- states

  /** A k-way state: its sets, largest first. */
  type Bins = seq<Bin>

  /** What a state's sets always satisfy. */
  ghost predicate IsState(st: Bins, k: nat) {
    |st| == k && k >= 1 && Ordered(st, BinGeq)
  }

  /** `self.sets[0]`, the largest set. */
  function First(st: Bins): Bin {
    if st == [] then [] else st[0]
  }

  function Spread(st: Bins): int {
    if st == [] then 0 else Sum(st[0]) - Sum(st[|st| - 1])
  }

  /** `State.__lt__`: the larger spread is the smaller state, then the larger first set. */
  predicate StateLess(a: Bins, b: Bins) {
    if Spread(a) != Spread(b) then Spread(a) > Spread(b) else BinLess(First(b), First(a))
  }

  /** What makes a state less: a larger spread; then a first set of larger sum; then one of more items; then the
      later items. */
  lemma LessBySpread(a: Bins, b: Bins)
    ensures Spread(a) > Spread(b) ==> StateLess(a, b) && !StateLess(b, a)
    ensures Spread(a) == Spread(b) && Sum(First(a)) > Sum(First(b)) ==> StateLess(a, b) && !StateLess(b, a)
    ensures Spread(a) == Spread(b) && Sum(First(a)) == Sum(First(b)) && |First(a)| > |First(b)| ==>
      StateLess(a, b) && !StateLess(b, a)
    ensures Spread(a) == Spread(b) && Sum(First(a)) == Sum(First(b)) && |First(a)| == |First(b)| ==>
      (StateLess(a, b) <==> ItemsLess(First(b), First(a)))
  {
  }

  lemma StateLessChains(a: Bins, b: Bins, c: Bins)
    requires StateLess(a, b) && StateLess(b, c)
    ensures StateLess(a, c)
  {
    if Spread(a) == Spread(b) == Spread(c) { BinLessChains(First(c), First(b), First(a)); }
  }

  /** States whose first sets differ are ordered one way and only one way. */
  lemma StateLessTrichotomy(a: Bins, b: Bins)
    requires First(a) != First(b)
    ensures StateLess(a, b) <==> !StateLess(b, a)
  {
    BinLessTrichotomy(First(a), First(b));
  }

  // ---------------------------------------------------------------- all the items of a state

  /** Inserting a set into a list of sets adds its items to everything the list holds. */
  lemma {:induction false} ItemsOfInsert(x: Bin, s: Bins)
    ensures multiset(Concat(Insert(x, s, BinGeq))) == multiset(x) + multiset(Concat(s))
  {
    if s == [] || BinGeq(x, s[0]) {
      assert ([x] + s)[1..] == s;
    } else {
      ItemsOfInsert(x, s[1..]);
      assert ([s[0]] + Insert(x, s[1..], BinGeq))[1..] == Insert(x, s[1..], BinGeq);
    }
  }

  /** Sorting the sets moves no item from one set to another. */
  lemma {:induction false} ItemsOfSort(s: Bins)
    ensures multiset(Concat(Sort(s, BinGeq))) == multiset(Concat(s))
  {
    if s != [] {
      ItemsOfSort(s[1..]);
      ItemsOfInsert(s[0], Sort(s[1..], BinGeq));
    }
  }

  lemma {:induction false} ItemIsHeld(bins: Bins, i: nat, x: Item)
    requires i < |bins| && x in bins[i]
    ensures x in Concat(bins)
  {
    if i > 0 { ItemIsHeld(bins[1..], i - 1, x); }
  }
}
