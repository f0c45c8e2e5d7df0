/** The queue of states that the differencing method works on: what it holds, and its order. */
module DifferencingQueue {
  import opened Sequences
  import opened Sorting
  import opened BalanceOrder
  import opened Differencing

  // ---------------------------------------------------------------- input and first states

  function Items(lens: seq<nat>): (items: seq<Item>)
    ensures |items| == |lens| && forall i :: 0 <= i < |lens| ==> items[i] == Item(i, lens[i])
  {
    seq(|lens|, i requires 0 <= i < |lens| => Item(i, lens[i]))
  }

  /** The order of the sorted input: by length, then by index. */
  predicate ByLength(x: Item, y: Item) {
    x.val < y.val || (x.val == y.val && x.idx <= y.idx)
  }

  function Ascending(lens: seq<nat>): (items: seq<Item>)
    ensures |items| == |lens|
  {
    Sort(Items(lens), ByLength)
  }

  lemma AscendingIsOrdered(lens: seq<nat>)
    ensures multiset(Ascending(lens)) == multiset(Items(lens))
    ensures forall i, j :: 0 <= i <= j < |lens| ==> Ascending(lens)[i].val <= Ascending(lens)[j].val
    ensures Ordered(Ascending(lens), ByLength)
  {
    SortPermutes(Items(lens), ByLength);
    SortOrders(Items(lens), ByLength);
    assert Ordered(Ascending(lens), ByLength);
  }

  /** One item per set, the other sets empty, before sorting. */
  function Spreadout(items: seq<Item>, k: nat): (r: Bins)
    ensures |r| == k
  {
    seq(k, i => if 0 <= i < |items| then [items[i]] else [])
  }

  /** A new state of one or of k items. */
  function StateOf(items: seq<Item>, k: nat): (r: Bins)
    ensures |r| == k
  {
    Sort(Spreadout(items, k), BinGeq)
  }

  lemma SpreadoutFirst(items: seq<Item>, k: nat)
    requires 0 < k && |items| <= k
    ensures Spreadout(items, k)[0] == if items == [] then [] else [items[0]]
    ensures Spreadout(items, k)[1..] == Spreadout(if items == [] then [] else items[1..], k - 1)
  {
  }

  lemma {:induction false} SpreadoutItems(items: seq<Item>, k: nat)
    requires |items| <= k
    ensures Concat(Spreadout(items, k)) == items
    ensures NonEmpty(Spreadout(items, k)) == |items|
  {
    if k > 0 {
      var rest := if items == [] then [] else items[1..];
      var st := Spreadout(items, k);
      hide Spreadout, Concat, NonEmpty;
      SpreadoutFirst(items, k);
      SpreadoutItems(rest, k - 1);
      ItemsOfFirst(st);
      NonEmptyOfFirst(st);
      assert items != [] ==> items == [items[0]] + rest;
    }
  }

  /** How far apart the sets of a new state are: one of its items beside an empty set, or two of its items. */
  ghost predicate GapAtMost(items: seq<Item>, k: nat, bound: int) {
    if |items| < k then forall x :: x in items ==> x.val <= bound
    else forall x, y :: x in items && y in items ==> x.val - y.val <= bound
  }

  lemma SpreadoutBalanced(items: seq<Item>, k: nat, bound: int)
    requires 1 <= |items| <= k && (|items| == 1 || |items| == k)
    requires GapAtMost(items, k, bound) && bound >= 0
    ensures Balanced(Spreadout(items, k), bound)
  {
    var st := Spreadout(items, k);
    forall x, y | x in st && y in st ensures Sum(x) - Sum(y) <= bound {
      var i :| 0 <= i < k && st[i] == x;
      var j :| 0 <= j < k && st[j] == y;
      if i < |items| { assert items[i] in items; }
      if j < |items| { assert items[j] in items; }
    }
  }

  lemma NewState(items: seq<Item>, k: nat, bound: int)
    requires 1 <= |items| <= k && (|items| == 1 || |items| == k) && GapAtMost(items, k, bound) && bound >= 0
    ensures IsState(StateOf(items, k), k) && Balanced(StateOf(items, k), bound)
    ensures multiset(Concat(StateOf(items, k))) == multiset(items)
    ensures NonEmpty(StateOf(items, k)) == |items|
    ensures |items| == k ==> AllOfLength(StateOf(items, k), 1)
  {
    hide Concat, NonEmpty, Sum, Spreadout, Sort;
    var raw, st := Spreadout(items, k), StateOf(items, k);
    BinGeqIsTotalPreorder();
    SortOrders(raw, BinGeq);
    SortPermutes(raw, BinGeq);
    SameElements(st, raw);
    SpreadoutItems(items, k);
    SpreadoutBalanced(items, k, bound);
    ItemsOfSort(raw);
    NonEmptyByCount(raw);
    NonEmptyByCount(st);
    if |items| == k { SpreadoutOnes(items, k); }
  }

  lemma SpreadoutOnes(items: seq<Item>, k: nat)
    requires |items| == k
    ensures AllOfLength(Spreadout(items, k), 1)
  {
  }

  // ---------------------------------------------------------------- the queue

  /** All the items held by the queued states. */
  ghost function Held(q: seq<Bins>): multiset<Item> {
    if q == [] then multiset{} else multiset(Concat(q[0])) + Held(q[1..])
  }

  /** How many non-empty sets the queued states have together. */
  ghost function Filled(q: seq<Bins>): nat {
    if q == [] then 0 else NonEmpty(q[0]) + Filled(q[1..])
  }

  function Without<T>(q: seq<T>, i: nat): seq<T>
    requires i < |q|
  {
    q[..i] + q[i + 1..]
  }

  lemma WithoutCounts<T>(q: seq<T>, i: nat)
    requires i < |q|
    ensures multiset(Without(q, i)) == multiset(q) - multiset{q[i]}
  {
    assert q == q[..i] + ([q[i]] + q[i + 1..]);
  }

  lemma {:induction false} QueueSplits(q: seq<Bins>, i: nat)
    requires i < |q|
    ensures Held(q) == Held(Without(q, i)) + multiset(Concat(q[i]))
    ensures Filled(q) == Filled(Without(q, i)) + NonEmpty(q[i])
  {
    hide Concat, NonEmpty, Without;
    if i == 0 {
      WithoutFirst(q);
    } else {
      WithoutLater(q, i);
      var rest := Without(q, i);
      assert Held(rest) == multiset(Concat(q[0])) + Held(rest[1..]) && Filled(rest) == NonEmpty(q[0]) + Filled(rest[1..]);
      QueueSplits(q[1..], i - 1);
    }
  }

  lemma WithoutFirst<T>(q: seq<T>)
    requires q != []
    ensures Without(q, 0) == q[1..]
  {
  }

  lemma WithoutLater<T>(q: seq<T>, i: nat)
    requires 0 < i < |q|
    ensures Without(q, i) != [] && Without(q, i)[0] == q[0] && Without(q, i)[1..] == Without(q[1..], i - 1)
    ensures q[1..][i - 1] == q[i]
  {
  }

  lemma QueueGrows(q: seq<Bins>, st: Bins)
    ensures Held(q + [st]) == Held(q) + multiset(Concat(st))
    ensures Filled(q + [st]) == Filled(q) + NonEmpty(st)
  {
    QueueSplits(q + [st], |q|);
    assert Without(q + [st], |q|) == q;
  }

  /** What every queue the method reaches satisfies: proper non-empty states within the spread bound
      that hold the given items; with equal sizes, each state's sets have one size. */
  ghost predicate QueueOk(q: seq<Bins>, k: nat, bound: int, items: multiset<Item>, equal: bool) {
    (forall st :: st in q ==> QueuedOk(st, k, bound, equal)) && Held(q) == items
  }

  lemma PushKeepsQueue(q: seq<Bins>, k: nat, bound: int, held: multiset<Item>, equal: bool, items: seq<Item>)
    requires QueueOk(q, k, bound, held, equal) && bound >= 0
    requires 1 <= |items| <= k && GapAtMost(items, k, bound) && if equal then |items| == k else |items| == 1
    ensures QueueOk(q + [StateOf(items, k)], k, bound, held + multiset(items), equal)
    ensures Filled(q + [StateOf(items, k)]) == Filled(q) + |items|
  {
    hide Held, Filled, StateOf, NonEmpty, Concat, Balanced;
    NewState(items, k, bound);
    QueueGrows(q, StateOf(items, k));
  }

  ghost predicate Uniform(st: Bins) {
    st != [] && AllOfLength(st, |st[0]|)
  }

  lemma MergedUniform(a: Bins, b: Bins)
    requires |a| == |b| && Uniform(a) && Uniform(b)
    ensures Uniform(MergeStates(a, b))
  {
    MergedSizes(a, b, |a[0]|, |b[0]|);
    assert MergeStates(a, b)[0] in MergeStates(a, b);
  }

  ghost predicate QueuedOk(st: Bins, k: nat, bound: int, equal: bool) {
    IsState(st, k) && Balanced(st, bound) && NonEmpty(st) >= 1 && (equal ==> Uniform(st))
  }

  lemma MergedOk(a: Bins, b: Bins, k: nat, bound: int, equal: bool)
    requires QueuedOk(a, k, bound, equal) && QueuedOk(b, k, bound, equal)
    ensures |a| == |b| && QueuedOk(MergeStates(a, b), k, bound, equal)
  {
    hide Balanced, NonEmpty, Uniform, MergeStates, Ordered;
    MergedNonEmpty(a, b, k);
    MergeIsState(a, b, k);
    MergeBalanced(a, b, k, bound);
    if equal { MergedUniform(a, b); }
  }

  lemma WithoutElements<T>(q: seq<T>, i: nat)
    requires i < |q|
    ensures |Without(q, i)| == |q| - 1
    ensures forall x :: x in Without(q, i) ==> x in q
  {
  }

  /** Taking out two states and putting a third in, counted. */
  lemma ReplaceTwo(q: seq<Bins>, i: nat, j: nat, st: Bins)
    requires i < |q| && j < |Without(q, i)|
    ensures var q' := Without(Without(q, i), j) + [st];
      Held(q') + multiset(Concat(q[i])) + multiset(Concat(Without(q, i)[j])) == Held(q) + multiset(Concat(st)) &&
      Filled(q') + NonEmpty(q[i]) + NonEmpty(Without(q, i)[j]) == Filled(q) + NonEmpty(st) &&
      Filled(q') >= NonEmpty(st)
  {
    hide Held, Filled, NonEmpty, Concat, Without;
    QueueSplits(q, i);
    QueueSplits(Without(q, i), j);
    QueueGrows(Without(Without(q, i), j), st);
  }

  /** Taking out two states and putting their merge back. */
  lemma MergeKeepsQueue(q: seq<Bins>, k: nat, bound: int, items: multiset<Item>, equal: bool, i: nat, j: nat)
    requires QueueOk(q, k, bound, items, equal) && i < |q| && j < |Without(q, i)|
    ensures |q[i]| == |Without(q, i)[j]| == k
    ensures var a, b := q[i], Without(q, i)[j];
      var q' := Without(Without(q, i), j) + [MergeStates(a, b)];
      QueueOk(q', k, bound, items, equal) && |q'| == |q| - 1 &&
      (Filled(q) >= k ==> Filled(q') >= k)
  {
    hide QueuedOk, Held, Filled, MergeStates, NonEmpty, Concat, Without, Ordered;
    WithoutElements(q, i);
    var a, b := q[i], Without(q, i)[j];
    WithoutElements(Without(q, i), j);
    MergedOk(a, b, k, bound, equal);
    OkIsState(a, k, bound, equal);
    OkIsState(b, k, bound, equal);
    MergedNonEmpty(a, b, k);
    MergeConservesItems(a, b);
    ReplaceTwo(q, i, j, MergeStates(a, b));
    Cancel(Held(Without(Without(q, i), j) + [MergeStates(a, b)]), Held(q), multiset(Concat(a)), multiset(Concat(b)));
  }

  lemma Cancel(m: multiset<Item>, n: multiset<Item>, x: multiset<Item>, y: multiset<Item>)
    requires m + x + y == n + (x + y)
    ensures m == n
  {
    forall e ensures m[e] == n[e] { assert (m + x + y)[e] == (n + (x + y))[e]; }
  }

  lemma OkIsState(st: Bins, k: nat, bound: int, equal: bool)
    requires QueuedOk(st, k, bound, equal)
    ensures IsState(st, k)
  {
  }

  // ---------------------------------------------------------------- the queue's order

  lemma {:induction false} HeldIncludes(q: seq<Bins>, i: nat, x: Item)
    requires i < |q| && x in First(q[i])
    ensures x in Held(q)
  {
    if i > 0 { HeldIncludes(q[1..], i - 1, x); } else { ItemIsHeld(q[0], 0, x); }
  }

  lemma FirstIsHeld(st: Bins, x: Item)
    requires x in First(st)
    ensures x in Concat(st)
  {
    ItemIsHeld(st, 0, x);
  }

  lemma WithoutAt<T>(q: seq<T>, i: nat, j: nat)
    requires i < |q| && j < |q| && i != j
    ensures var j' := if j < i then j else j - 1;
      0 <= j' < |Without(q, i)| && Without(q, i)[j'] == q[j]
  {
  }

  lemma CountOfSum<T>(a: multiset<T>, b: multiset<T>, x: T)
    ensures (a + b)[x] == a[x] + b[x]
  {
  }

  /** An item in the first sets of two queued states is held twice. */
  lemma SharedItemHeldTwice(q: seq<Bins>, i: nat, j: nat, x: Item)
    requires i < |q| && j < |q| && i != j && x in First(q[i]) && x in First(q[j])
    ensures Held(q)[x] >= 2
  {
    hide *;
    var j' := if j < i then j else j - 1;
    WithoutAt(q, i, j);
    QueueSplits(q, i);
    FirstIsHeld(q[i], x);
    HeldIncludes(Without(q, i), j', x);
    CountOfSum(Held(Without(q, i)), multiset(Concat(q[i])), x);
  }

  /** While each item is held once, no two queued states have the same first set. */
  lemma FirstSetsDiffer(q: seq<Bins>, k: nat, bound: int, items: multiset<Item>, equal: bool, i: nat, j: nat)
    requires QueueOk(q, k, bound, items, equal) && i < |q| && j < |q| && i != j
    requires forall x :: items[x] <= 1
    ensures First(q[i]) != First(q[j])
  {
    assert q[i] in q;
    NonEmptyFirst(q[i], k);
    if First(q[i]) == First(q[j]) {
      SharedItemHeldTwice(q, i, j, q[i][0][0]);
    }
  }

  /** The heap's comparison is a strict total order on every reachable queue: of two queued states
      exactly one is less, and comparisons chain. */
  lemma QueueOrderIsStrictTotal(q: seq<Bins>, k: nat, bound: int, items: multiset<Item>, equal: bool)
    requires QueueOk(q, k, bound, items, equal) && forall x :: items[x] <= 1
    ensures forall i, j :: 0 <= i < |q| && 0 <= j < |q| && i != j ==>
      (StateLess(q[i], q[j]) <==> !StateLess(q[j], q[i]))
    ensures forall a, b, c :: StateLess(a, b) && StateLess(b, c) ==> StateLess(a, c)
  {
    hide StateLess;
    forall i, j | 0 <= i < |q| && 0 <= j < |q| && i != j
      ensures StateLess(q[i], q[j]) <==> !StateLess(q[j], q[i])
    {
      FirstSetsDiffer(q, k, bound, items, equal, i, j);
      StateLessTrichotomy(q[i], q[j]);
    }
    forall a, b, c | StateLess(a, b) && StateLess(b, c) ensures StateLess(a, c) {
      StateLessChains(a, b, c);
    }
  }

  /** The items are taken from the shortest on, and equal ones by their places. */
  lemma AscendingByPlace(lens: seq<nat>, i: nat, j: nat)
    requires i < j < |Ascending(lens)|
    ensures var x, y := Ascending(lens)[i], Ascending(lens)[j];
      x.val < y.val || (x.val == y.val && x.idx <= y.idx)
  {
    AscendingIsOrdered(lens);
    assert ByLength(Ascending(lens)[i], Ascending(lens)[j]);
  }

  /** No queued state is less than the one at i. */
  ghost predicate IsLeast(q: seq<Bins>, i: nat) {
    i < |q| && forall j :: 0 <= j < |q| ==> !StateLess(q[j], q[i])
  }

  /** The state at i has a spread no other exceeds, and among those of that spread the largest first set. */
  ghost predicate HasLargestSpread(q: seq<Bins>, i: nat) {
    i < |q| && forall j :: 0 <= j < |q| ==>
      Spread(q[j]) <= Spread(q[i])
      && (Spread(q[j]) == Spread(q[i]) ==> Sum(First(q[j])) <= Sum(First(q[i])))
  }

  /** The least state is one of largest spread. */
  lemma LeastHasLargestSpread(q: seq<Bins>, i: nat)
    requires IsLeast(q, i)
    ensures HasLargestSpread(q, i)
  {
    hide StateLess, Spread, Sum;
    forall j | 0 <= j < |q| ensures Spread(q[j]) <= Spread(q[i])
      && (Spread(q[j]) == Spread(q[i]) ==> Sum(First(q[j])) <= Sum(First(q[i])))
    {
      LessBySpread(q[j], q[i]);
    }
  }

  /** A round takes the two largest spreads: sets i and j leave, in that order, and their sets are paired largest
      with smallest. */
  ghost predicate MergesLargestSpreads(q: seq<Bins>, q': seq<Bins>) {
    exists i: nat, j: nat :: HasLargestSpread(q, i) && HasLargestSpread(Without(q, i), j) &&
      |q[i]| == |Without(q, i)[j]| && q' == Without(Without(q, i), j) + [MergeStates(q[i], Without(q, i)[j])]
  }

  lemma RoundMergesLargest(q: seq<Bins>, q': seq<Bins>)
    requires IsRound(q, q')
    ensures MergesLargestSpreads(q, q')
  {
    hide HasLargestSpread, MergeStates, StateLess;
    var i: nat, j: nat :| RoundAt(q, q', i, j);
    LeastHasLargestSpread(q, i);
    LeastHasLargestSpread(Without(q, i), j);
  }

  /** So what the heap pops does not depend on its internal layout. */
  lemma PopIsDetermined(q: seq<Bins>, k: nat, bound: int, items: multiset<Item>, equal: bool, i: nat, j: nat)
    requires QueueOk(q, k, bound, items, equal) && forall x :: items[x] <= 1
    requires IsLeast(q, i) && IsLeast(q, j)
    ensures i == j
  {
    QueueOrderIsStrictTotal(q, k, bound, items, equal);
  }

  /** One round: the two least states leave, their merge enters. */
  ghost predicate IsRound(q: seq<Bins>, q': seq<Bins>) {
    exists i: nat, j: nat :: RoundAt(q, q', i, j)
  }

  ghost predicate RoundAt(q: seq<Bins>, q': seq<Bins>, i: nat, j: nat) {
    IsLeast(q, i) && IsLeast(Without(q, i), j) && |q[i]| == |Without(q, i)[j]| &&
    q' == Without(Without(q, i), j) + [MergeStates(q[i], Without(q, i)[j])]
  }
}
