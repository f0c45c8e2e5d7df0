/** The largest differencing method, on objects that are merged in place. */
module KarmarkarKarp {
  import opened Sequences
  import opened Prelude
  import opened Sorting
  import opened Arith
  import opened BalanceOrder
  import opened Differencing
  import opened DifferencingQueue
  import opened Partitions
  import opened DifferencingRounds

  // ---------------------------------------------------------------- what the last state gives

  /** The single state left in the queue is a balanced partition of the input. */
  lemma LastStateIsBalanced(st: Bins, lens: seq<nat>, k: nat, equal: bool)
    requires k >= 1 && QueueOk([st], k, BalanceBound(lens, k, equal), multiset(Items(lens)), equal)
    requires |lens| >= k ==> Filled([st]) >= k
    ensures BalancedPartition(lens, k, equal, PartitionsOf(st))
  {
    var parts, bound := PartitionsOf(st), BalanceBound(lens, k, equal);
    hide BalanceBound, Sum, NonEmpty, Concat, Load, Held, Filled;
    OneState(st);
    assert st in [st];
    StateCoversOnce(st, lens);
    ItemsAreEntries(lens, Concat(st));
    forall p, p' | p in parts && p' in parts ensures Load(lens, p) - Load(lens, p') <= bound {
      var i :| 0 <= i < k && parts[i] == p;
      var j :| 0 <= j < k && parts[j] == p';
      SetsHoldEntries(st, lens, i);
      SetsHoldEntries(st, lens, j);
      LoadIsSum(st[i], lens);
      LoadIsSum(st[j], lens);
      GapIn(st, bound, i, j);
    }
    NonEmptyFirst(st, k);
    if equal { UniformSizes(st, lens, k); }
  }

  lemma OneState(st: Bins)
    ensures Held([st]) == multiset(Concat(st)) && Filled([st]) == NonEmpty(st)
  {
  }

  lemma SetsHoldEntries(st: Bins, lens: seq<nat>, i: nat)
    requires i < |st| && EntriesOf(Concat(st), lens)
    ensures EntriesOf(st[i], lens)
  {
    forall x | x in st[i] ensures x.idx < |lens| && x.val == lens[x.idx] { ItemIsHeld(st, i, x); }
  }

  lemma UniformSizes(st: Bins, lens: seq<nat>, k: nat)
    requires |st| == k && Uniform(st) && multiset(Concat(st)) == multiset(Items(lens))
    ensures forall p :: p in PartitionsOf(st) ==> |p| * k == |lens|
  {
    hide Concat;
    var size := |st[0]|;
    ConcatLength(st, size);
    assert |Concat(st)| == size * k;
    SameElements(Concat(st), Items(lens));
    forall p | p in PartitionsOf(st) ensures |p| == size {
      var i :| 0 <= i < k && PartitionsOf(st)[i] == p;
      assert st[i] in st;
    }
  }

  // ---------------------------------------------------------------- the objects

  class PartitionSet {
    var sum: nat
    var items: Bin

    ghost predicate Valid()
      reads this
    {
      sum == Sum(items)
    }

    constructor ()
      ensures Valid() && items == []
    {
      sum, items := 0, [];
    }

    method Add(idx: nat, val: nat)
      requires Valid()
      modifies this
      ensures Valid() && items == old(items) + [Item(idx, val)]
    {
      SumOfConcat(items, [Item(idx, val)]);
      items := items + [Item(idx, val)];
      sum := sum + val;
    }

    method Merge(other: PartitionSet)
      requires Valid() && other != this
      modifies this
      ensures Valid() && items == old(items) + other.items
    {
      ghost var before := items;
      for i := 0 to |other.items|
        invariant Valid() && other.items == old(other.items) && items == before + other.items[..i]
      {
        var item := other.items[i];
        SumOfConcat(items, [item]);
        items := items + [item];
        sum := sum + item.val;
        assert other.items[..i + 1] == other.items[..i] + [item];
      }
    }

    method LessThan(other: PartitionSet) returns (less: bool)
      requires Valid() && other.Valid()
      ensures less == BinLess(items, other.items)
    {
      if sum != other.sum { return sum < other.sum; }
      if |items| != |other.items| { return |items| < |other.items|; }
      less := ItemsLess(items, other.items);
    }
  }

  /** What the set objects hold, in order. */
  ghost function Contents(sets: seq<PartitionSet>): (bins: Bins)
    reads sets
    ensures |bins| == |sets| && forall i :: 0 <= i < |sets| ==> bins[i] == sets[i].items
  {
    seq(|sets|, i requires 0 <= i < |sets| reads sets => sets[i].items)
  }

  lemma ContentsOfCons(s: PartitionSet, rest: seq<PartitionSet>)
    ensures Contents([s] + rest) == [s.items] + Contents(rest)
    ensures Contents([s] + rest)[1..] == Contents(rest)
  {
  }

  /** `sorted(sets, reverse=True)`: the same objects, largest first. */
  method SortedDescending(sets: seq<PartitionSet>) returns (sorted: seq<PartitionSet>)
    requires forall s :: s in sets ==> s.Valid()
    ensures multiset(sorted) == multiset(sets)
    ensures Contents(sorted) == Sort(Contents(sets), BinGeq)
  {
    if sets == [] { return []; }
    hide Sum;
    var rest := SortedDescending(sets[1..]);
    SameElements(rest, sets[1..]);
    sorted := InsertDescending(sets[0], rest);
    ContentsOfCons(sets[0], sets[1..]);
    assert sets == [sets[0]] + sets[1..];
  }

  method InsertDescending(s: PartitionSet, sorted: seq<PartitionSet>) returns (r: seq<PartitionSet>)
    requires s.Valid() && forall t :: t in sorted ==> t.Valid()
    ensures multiset(r) == multiset(sorted) + multiset{s}
    ensures Contents(r) == Insert(s.items, Contents(sorted), BinGeq)
  {
    hide Sum, BinLess, Contents, Insert;
    if sorted == [] {
      InsertedHere(s, sorted);
      r := [s];
    } else {
      var less := s.LessThan(sorted[0]);
      if !less {
        InsertedHere(s, sorted);
        r := [s] + sorted;
      } else {
        var tail := InsertDescending(s, sorted[1..]);
        InsertedLater(s, sorted, tail);
        r := [sorted[0]] + tail;
      }
    }
  }

  lemma InsertedHere(s: PartitionSet, sorted: seq<PartitionSet>)
    requires sorted == [] || BinGeq(s.items, sorted[0].items)
    ensures multiset([s] + sorted) == multiset(sorted) + multiset{s}
    ensures Contents([s] + sorted) == Insert(s.items, Contents(sorted), BinGeq)
    ensures [s] + [] == [s]
  {
    hide BinGeq, Contents, Insert;
    InsertUnfolds(s.items, Contents(sorted), BinGeq);
    ContentsOfCons(s, sorted);
  }

  lemma InsertedLater(s: PartitionSet, sorted: seq<PartitionSet>, tail: seq<PartitionSet>)
    requires sorted != [] && !BinGeq(s.items, sorted[0].items)
    requires multiset(tail) == multiset(sorted[1..]) + multiset{s}
    requires Contents(tail) == Insert(s.items, Contents(sorted[1..]), BinGeq)
    ensures multiset([sorted[0]] + tail) == multiset(sorted) + multiset{s}
    ensures Contents([sorted[0]] + tail) == Insert(s.items, Contents(sorted), BinGeq)
  {
    hide BinGeq, Contents, Insert;
    InsertUnfolds(s.items, Contents(sorted), BinGeq);
    CountFirst(sorted);
    assert sorted == [sorted[0]] + sorted[1..];
    ContentsOfCons(sorted[0], sorted[1..]);
    ContentsOfCons(sorted[0], tail);
  }

  lemma {:induction false} DistinctByCount<T>(s: seq<T>)
    ensures Distinct(s) <==> forall x :: multiset(s)[x] <= 1
  {
    if Distinct(s) {
      forall x ensures multiset(s)[x] <= 1 { DistinctCount(s, x); }
    } else {
      var i, j :| 0 <= i < j < |s| && s[i] == s[j];
      assert s == s[..j] + s[j..];
      assert s[..j][i] == s[i] && s[j..][0] == s[j];
      assert multiset(s)[s[i]] >= 2;
    }
  }

  lemma SamePermuted<T>(s: seq<T>, t: seq<T>)
    requires multiset(s) == multiset(t) && Distinct(t)
    ensures |s| == |t| && Distinct(s) && forall x :: x in s <==> x in t
  {
    SameElements(s, t);
    DistinctByCount(s);
    DistinctByCount(t);
  }

  /** The same objects, each once, largest first. */
  method Resorted(sets: seq<PartitionSet>) returns (sorted: seq<PartitionSet>)
    requires Distinct(sets) && forall s :: s in sets ==> s.Valid()
    ensures |sorted| == |sets| && Distinct(sorted) && forall s :: s in sorted <==> s in sets
    ensures Contents(sorted) == Sort(Contents(sets), BinGeq)
  {
    sorted := SortedDescending(sets);
    SamePermuted(sorted, sets);
  }

  class PartitionState {
    const k: nat
    var sets: seq<PartitionSet>

    ghost predicate Valid()
      reads this, sets
    {
      |sets| == k && Distinct(sets) && forall s :: s in sets ==> s.Valid()
    }

    ghost function Value(): (st: Bins)
      reads this, sets
      ensures |st| == |sets|
    {
      Contents(sets)
    }

    constructor (items: seq<Item>, k: nat)
      requires |items| == 1 || |items| == k
      requires |items| <= k
      ensures Valid() && this.k == k && fresh(sets)
      ensures Value() == StateOf(items, k)
    {
      this.k := k;
      hide Sum, Contents, Distinct, BinLess;
      var built := NewSets(k);
      AddOneEach(built, items);
      var sorted := Resorted(built);
      sets := sorted;
    }

    /** The set of index i takes the other state's set of index k-1-i; then the largest goes first. */
    method Merge(other: PartitionState)
      requires Valid() && other.Valid() && other != this && k == other.k
      requires forall s :: s in sets ==> s !in other.sets
      modifies this, sets
      ensures Valid() && forall s :: s in sets <==> s in old(sets)
      ensures Value() == MergeStates(old(Value()), old(other.Value()))
    {
      hide Distinct, Sum, Contents, BinLess;
      MergePairs(sets, other.sets);
      sets := Resorted(sets);
    }

    method LessThan(other: PartitionState) returns (less: bool)
      requires Valid() && other.Valid() && k >= 1 && other.k >= 1
      ensures less == StateLess(Value(), other.Value())
    {
      assert sets[0] in sets && sets[k - 1] in sets && other.sets[0] in other.sets && other.sets[other.k - 1] in other.sets;
      var spread: int := sets[0].sum - sets[k - 1].sum;
      var otherSpread: int := other.sets[0].sum - other.sets[other.k - 1].sum;
      if spread != otherSpread { return spread > otherSpread; }
      less := other.sets[0].LessThan(sets[0]);
    }

    method GetPartitions() returns (parts: seq<seq<nat>>)
      requires Valid()
      ensures parts == PartitionsOf(Value())
    {
      parts := [];
      for i := 0 to |sets|
        invariant |parts| == i && forall j :: 0 <= j < i ==> parts[j] == Indices(sets[j].items)
      {
        var part: seq<nat> := [];
        for j := 0 to |sets[i].items|
          invariant part == Indices(sets[i].items)[..j]
        {
          part := part + [sets[i].items[j].idx];
        }
        parts := parts + [part];
      }
    }
  }

  method NewSets(k: nat) returns (built: seq<PartitionSet>)
    ensures |built| == k && fresh(built) && Distinct(built)
    ensures forall s :: s in built ==> s.Valid() && s.items == []
  {
    built := [];
    for i := 0 to k
      invariant |built| == i && fresh(built) && Distinct(built)
      invariant forall s :: s in built ==> s.Valid() && s.items == []
    {
      var s := new PartitionSet();
      built := built + [s];
    }
  }

  method AddOneEach(sets: seq<PartitionSet>, items: seq<Item>)
    requires |items| <= |sets| && Distinct(sets) && forall s :: s in sets ==> s.Valid() && s.items == []
    modifies sets
    ensures forall s :: s in sets ==> s.Valid()
    ensures Contents(sets) == Spreadout(items, |sets|)
  {
    for i := 0 to |items|
      invariant forall s :: s in sets ==> s.Valid()
      invariant forall j :: 0 <= j < |sets| ==> sets[j].items == if j < i then [items[j]] else []
    {
      sets[i].Add(items[i].idx, items[i].val);
      assert sets[i].items == [items[i]];
    }
  }

  method MergePairs(sets: seq<PartitionSet>, others: seq<PartitionSet>)
    requires |sets| == |others| && Distinct(sets) && forall s :: s in sets ==> s !in others
    requires forall s :: s in sets ==> s.Valid()
    modifies sets
    ensures forall s :: s in sets ==> s.Valid()
    ensures Contents(sets) == Paired(old(Contents(sets)), old(Contents(others)))
  {
    hide Sum, Paired, Contents;
    ghost var mine, theirs := Contents(sets), Contents(others);
    for i := 0 to |sets|
      invariant forall s :: s in sets ==> s.Valid()
      invariant forall s :: s in others ==> s.items == old(s.items)
      invariant forall j :: 0 <= j < i ==> sets[j].items == mine[j] + theirs[|sets| - 1 - j]
      invariant forall j :: i <= j < |sets| ==> sets[j].items == mine[j]
    {
      var other := others[|sets| - 1 - i];
      assert other in others && sets[i] in sets;
      sets[i].Merge(other);
      assert other.items == theirs[|sets| - 1 - i];
    }
    PairedByIndex(mine, theirs, Contents(sets));
  }

  lemma PairedByIndex(a: Bins, b: Bins, r: Bins)
    requires |r| == |a| == |b| && forall j :: 0 <= j < |a| ==> r[j] == a[j] + b[|a| - 1 - j]
    ensures r == Paired(a, b)
  {
  }

  // ---------------------------------------------------------------- the queue of objects

  /** Two different states share no set. */
  ghost predicate Apart(a: PartitionState, b: PartitionState)
    reads a, b
  {
    a != b && forall s :: s in a.sets ==> s !in b.sets
  }

  /** A proper state of the given width and value. */
  ghost predicate Holds(st: PartitionState, bins: Bins, k: nat)
    reads st, st.sets
  {
    st.k == k && st.Valid() && |bins| == k && forall i :: 0 <= i < k ==> st.sets[i].items == bins[i]
  }

  lemma HoldsValue(st: PartitionState, bins: Bins, k: nat)
    requires Holds(st, bins, k)
    ensures st.Value() == bins
  {
  }

  lemma HoldsItsValue(st: PartitionState)
    requires st.Valid()
    ensures Holds(st, st.Value(), st.k)
  {
  }

  ghost function Owned(pq: seq<PartitionState>): set<PartitionSet>
    reads pq
  {
    set st, s | st in pq && s in st.sets :: s
  }

  /** Proper states, each owning its sets alone, with the given values. */
  ghost predicate QueueValid(pq: seq<PartitionState>, q: seq<Bins>, k: nat)
    reads pq, Owned(pq)
  {
    |pq| == |q| && (forall st, s :: st in pq && s in st.sets ==> s in Owned(pq)) &&
    (forall i :: 0 <= i < |pq| ==> pq[i] in pq && Holds(pq[i], q[i], k)) &&
    forall i, j :: 0 <= i < j < |pq| ==> Apart(pq[i], pq[j])
  }

  /** `heappop` takes a state that no queued state is less than. */
  method LeastIndex(pq: seq<PartitionState>, ghost q: seq<Bins>, k: nat) returns (least: nat)
    requires QueueValid(pq, q, k) && k >= 1 && pq != []
    ensures least < |q| && IsLeast(q, least)
  {
    hide StateLess;
    least := 0;
    StateNotLessItself(q[0]);
    for i := 1 to |pq|
      invariant least < i && forall j :: 0 <= j < i ==> !StateLess(q[j], q[least])
    {
      HoldsValue(pq[i], q[i], k);
      HoldsValue(pq[least], q[least], k);
      var less := pq[i].LessThan(pq[least]);
      if less {
        forall j | 0 <= j <= i ensures !StateLess(q[j], q[i]) {
          StateNotLessItself(q[i]);
          if j < i && StateLess(q[j], q[i]) { StateLessChains(q[j], q[i], q[least]); }
        }
        least := i;
      }
    }
  }

  lemma StateNotLessItself(st: Bins)
    ensures !StateLess(st, st)
  {
    BinLessTrichotomy(First(st), First(st));
  }

  lemma WithoutKeepsValid(pq: seq<PartitionState>, q: seq<Bins>, k: nat, i: nat)
    requires QueueValid(pq, q, k) && i < |pq|
    ensures QueueValid(Without(pq, i), Without(q, i), k)
    ensures forall st :: st in Without(pq, i) ==> st in pq && Apart(pq[i], st) && Apart(st, pq[i])
  {
    hide Holds, Apart;
    var rest := Without(pq, i);
    forall j | 0 <= j < |rest| ensures rest[j] in pq && Apart(pq[i], rest[j]) && Apart(rest[j], pq[i]) {
      var j' := if j < i then j else j + 1;
      assert rest[j] == pq[j'];
      if j' < i { ApartSymmetric(pq[j'], pq[i]); } else { ApartSymmetric(pq[i], pq[j']); }
    }
  }

  lemma ApartSymmetric(a: PartitionState, b: PartitionState)
    requires Apart(a, b)
    ensures Apart(b, a)
  {
  }

  /** Merging one state into another that is then pushed; the queued states are not touched. */
  method MergeAndPush(pq: seq<PartitionState>, ghost q: seq<Bins>, k: nat,
                      state0: PartitionState, ghost a: Bins, state1: PartitionState, ghost b: Bins)
      returns (pq': seq<PartitionState>)
    requires QueueValid(pq, q, k) && Holds(state0, a, k) && Holds(state1, b, k) && Apart(state0, state1)
    requires forall st :: st in pq ==> Apart(state0, st) && Apart(st, state0)
    modifies state0, state0.sets
    ensures |a| == |b| && QueueValid(pq', q + [MergeStates(a, b)], k)
    ensures pq' == pq + [state0] && forall s :: s in state0.sets <==> s in old(state0.sets)
  {
    hide Distinct, Contents, MergeStates, BinLess, Sum;
    HoldsValue(state0, a, k);
    HoldsValue(state1, b, k);
    state0.Merge(state1);
    HoldsItsValue(state0);
    forall i | 0 <= i < |pq| ensures Holds(pq[i], q[i], k) && pq[i].sets == old(pq[i].sets) {
      var st := pq[i];
      assert st in pq && old(Apart(state0, st)) && old(Holds(st, q[i], k));
      assert st.sets == old(st.sets);
      assert forall s :: s in st.sets ==> s !in old(state0.sets);
      assert forall s :: s in st.sets ==> s.items == old(s.items) && s.sum == old(s.sum);
      assert st.Valid();
    }
    PushValid(pq, q, k, state0, MergeStates(a, b));
    pq' := pq + [state0];
  }

  lemma PushValid(pq: seq<PartitionState>, q: seq<Bins>, k: nat, st: PartitionState, bins: Bins)
    requires QueueValid(pq, q, k) && Holds(st, bins, k) && forall x :: x in pq ==> Apart(x, st)
    ensures QueueValid(pq + [st], q + [bins], k)
  {
    hide Holds;
    var more, moreq := pq + [st], q + [bins];
    forall i | 0 <= i < |more| ensures more[i] in more && Holds(more[i], moreq[i], k) {
      if i < |pq| { assert pq[i] in pq; }
    }
  }

  /** The round on the queue of values. */
  lemma RoundKeepsQueue(q: seq<Bins>, k: nat, bound: int, items: multiset<Item>, equal: bool, i: nat, j: nat)
    requires QueueOk(q, k, bound, items, equal) && i < |q| && j < |Without(q, i)| && IsLeast(q, i) && IsLeast(Without(q, i), j)
    ensures |q[i]| == |Without(q, i)[j]| == k
    ensures var q' := Without(Without(q, i), j) + [MergeStates(q[i], Without(q, i)[j])];
      IsRound(q, q') && MergesLargestSpreads(q, q') && QueueOk(q', k, bound, items, equal) && (Filled(q) >= k ==> Filled(q') >= k)
  {
    hide QueueOk, MergeStates, Filled, Without, IsLeast, MergesLargestSpreads;
    MergeKeepsQueue(q, k, bound, items, equal, i, j);
    assert RoundAt(q, Without(Without(q, i), j) + [MergeStates(q[i], Without(q, i)[j])], i, j);
    RoundMergesLargest(q, Without(Without(q, i), j) + [MergeStates(q[i], Without(q, i)[j])]);
  }

  /** One round of the loop: pop two states, merge the second into the first, push it back. */
  method MergeTwoLeast(pq: seq<PartitionState>, ghost q: seq<Bins>, k: nat,
                       ghost bound: int, ghost items: multiset<Item>, ghost equal: bool)
      returns (pq': seq<PartitionState>, ghost q': seq<Bins>)
    requires QueueValid(pq, q, k) && k >= 1 && |pq| > 1 && QueueOk(q, k, bound, items, equal)
    modifies pq, Owned(pq)
    ensures |pq'| == |pq| - 1 && QueueValid(pq', q', k) && QueueOk(q', k, bound, items, equal)
    ensures Filled(q) >= k ==> Filled(q') >= k
    ensures forall st :: st in pq' ==> st in pq && forall s :: s in st.sets ==> s in old(Owned(pq))
    ensures IsRound(q, q') && MergesLargestSpreads(q, q')
  {
    hide QueueOk, Contents, Distinct, BinLess, StateLess, Sum, Without, MergeStates, Holds, Apart, Filled, IsLeast, IsRound, MergesLargestSpreads;
    var i := LeastIndex(pq, q, k);
    var state0 := pq[i];
    WithoutKeepsValid(pq, q, k, i);
    WithoutElements(pq, i);
    WithoutElements(q, i);
    var rest := Without(pq, i);
    var j := LeastIndex(rest, Without(q, i), k);
    var state1 := rest[j];
    WithoutKeepsValid(rest, Without(q, i), k, j);
    WithoutElements(rest, j);
    WithoutElements(Without(q, i), j);
    RoundKeepsQueue(q, k, bound, items, equal, i, j);
    q' := Without(Without(q, i), j) + [MergeStates(q[i], Without(q, i)[j])];
    pq' := MergeAndPush(Without(rest, j), Without(Without(q, i), j), k, state0, q[i], state1, Without(q, i)[j]);
  }

  // ---------------------------------------------------------------- the method

  lemma OneItemGap(lens: seq<nat>, k: nat, i: nat)
    requires k > 0 && i < |lens|
    ensures GapAtMost([Ascending(lens)[i]], k, Largest(lens))
  {
    var x := Ascending(lens)[i];
    AscendingIsOrdered(lens);
    SameElements(Ascending(lens), Items(lens));
    assert x in Ascending(lens);
    LargestBounds(lens, x.idx);
  }

  lemma BlockGap(lens: seq<nat>, k: nat, b: nat)
    requires k > 0 && (b + 1) * k <= |lens|
    ensures b * k + k <= |lens|
    ensures GapAtMost(Ascending(lens)[b * k..b * k + k], k, LargestGap(Ascending(lens), k))
  {
    assert (b + 1) * k == b * k + k;
    var sorted := Ascending(lens);
    var block := sorted[b * k..b * k + k];
    AscendingIsOrdered(lens);
    LargestGapBounds(sorted, k, b);
    forall x, y | x in block && y in block ensures x.val - y.val <= LargestGap(sorted, k) {
      var i :| 0 <= i < k && block[i] == x;
      var j :| 0 <= j < k && block[j] == y;
      assert block[i] == sorted[b * k + i] && block[j] == sorted[b * k + j];
    }
  }

  method PushNew(pq: seq<PartitionState>, ghost q: seq<Bins>, k: nat, items: seq<Item>,
                 ghost bound: int, ghost held: multiset<Item>, ghost equal: bool)
      returns (pq': seq<PartitionState>)
    requires QueueValid(pq, q, k) && QueueOk(q, k, bound, held, equal) && bound >= 0
    requires 1 <= |items| <= k && GapAtMost(items, k, bound) && if equal then |items| == k else |items| == 1
    ensures var q' := q + [StateOf(items, k)];
      QueueValid(pq', q', k) && QueueOk(q', k, bound, held + multiset(items), equal) &&
      Filled(q') == Filled(q) + |items| && |pq'| == |pq| + 1
    ensures forall st :: st in pq' && st !in pq ==> fresh(st) && fresh(st.sets)
  {
    hide QueueOk, StateOf, Filled, GapAtMost, Contents, Distinct, BinLess, Sum;
    var st := new PartitionState(items, k);
    PushKeepsQueue(q, k, bound, held, equal, items);
    HoldsItsValue(st);
    assert forall x, s :: x in pq && s in x.sets ==> s in Owned(pq);
    PushValid(pq, q, k, st, StateOf(items, k));
    pq' := pq + [st];
  }

  /** The states that are queued at the start. */
  method FirstQueue(lens: seq<nat>, k: nat, equalSize: bool) returns (pq: seq<PartitionState>, ghost q: seq<Bins>)
    requires k >= 1 && (equalSize ==> |lens| % k == 0)
    ensures QueueValid(pq, q, k) && forall st :: st in pq ==> fresh(st) && fresh(st.sets)
    ensures QueueOk(q, k, BalanceBound(lens, k, equalSize), multiset(Items(lens)), equalSize)
    ensures Filled(q) == |lens| && (lens != [] ==> pq != [])
    ensures multiset(q) == FirstHeap(lens, k, equalSize)
  {
    hide QueueOk, StateOf, GapAtMost, Contents, Distinct, BinLess, Sum, Filled, FirstHeap, Built, BalanceBound;
    hide QueueValid;
    var sorted := Ascending(lens);
    pq, q := [], [];
    NothingQueued(k);
    NothingBuilt(lens, k, equalSize);
    var offset := 0;
    ghost var b: nat := 0;
    var size := if equalSize then k else 1;
    while offset < |sorted|
      invariant 0 <= offset <= |sorted|
      invariant QueueValid(pq, q, k) && forall st :: st in pq ==> fresh(st) && fresh(st.sets)
      invariant Built(lens, k, equalSize, q, b, offset) && (offset > 0 ==> pq != [])
    {
      BlockReady(lens, k, equalSize, q, b, offset);
      var items := sorted[offset..offset + size];
      pq := PushNew(pq, q, k, items, BalanceBound(lens, k, equalSize), multiset(sorted[..offset]), equalSize);
      BuiltNext(lens, k, equalSize, q, b, offset);
      q := q + [StateOf(items, k)];
      offset, b := offset + size, b + 1;
    }
    AllBuilt(lens, k, equalSize, q, b, offset);
  }

  lemma NothingQueued(k: nat)
    ensures QueueValid([], [], k)
  {
  }

  /** The queue of the first b blocks, which end at `offset`. */
  ghost predicate Built(lens: seq<nat>, k: nat, equal: bool, q: seq<Bins>, b: nat, offset: nat)
    requires k >= 1
  {
    b * BlockSize(k, equal) == offset <= |Ascending(lens)| && q == FirstStates(Ascending(lens), k, equal, b)
    && QueueOk(q, k, BalanceBound(lens, k, equal), multiset(Ascending(lens)[..offset]), equal) && Filled(q) == offset
  }

  lemma NothingBuilt(lens: seq<nat>, k: nat, equal: bool)
    requires k >= 1
    ensures Built(lens, k, equal, [], 0, 0)
  {
    hide Ascending, StateOf;
    EmptyQueueOk(k, BalanceBound(lens, k, equal), equal);
    NoFirstStates(Ascending(lens), k, equal);
    assert Ascending(lens)[..0] == [];
  }

  /** The next block can be pushed. */
  lemma BlockReady(lens: seq<nat>, k: nat, equal: bool, q: seq<Bins>, b: nat, offset: nat)
    requires k >= 1 && (equal ==> |lens| % k == 0) && Built(lens, k, equal, q, b, offset) && offset < |lens|
    ensures offset + BlockSize(k, equal) <= |lens| && BalanceBound(lens, k, equal) >= 0
    ensures QueueOk(q, k, BalanceBound(lens, k, equal), multiset(Ascending(lens)[..offset]), equal)
    ensures GapAtMost(Ascending(lens)[offset..offset + BlockSize(k, equal)], k, BalanceBound(lens, k, equal))
  {
    hide QueueOk, StateOf, GapAtMost, Ascending, Largest, LargestGap, Filled, FirstStates;
    if equal {
      NextBlockFits(|lens|, k, b);
      BlockGap(lens, k, b);
    } else {
      OneItemGap(lens, k, b);
      assert Ascending(lens)[offset..offset + 1] == [Ascending(lens)[b]];
    }
  }

  lemma BuiltNext(lens: seq<nat>, k: nat, equal: bool, q: seq<Bins>, b: nat, offset: nat)
    requires k >= 1 && Built(lens, k, equal, q, b, offset) && offset + BlockSize(k, equal) <= |lens|
    ensures var size := BlockSize(k, equal);
      var st := StateOf(Ascending(lens)[offset..offset + size], k);
      QueueOk(q + [st], k, BalanceBound(lens, k, equal),
              multiset(Ascending(lens)[..offset]) + multiset(Ascending(lens)[offset..offset + size]), equal)
      && Filled(q + [st]) == Filled(q) + size
      ==> Built(lens, k, equal, q + [st], b + 1, offset + size)
  {
    hide QueueOk, StateOf, Ascending, BalanceBound, Filled, FirstStates;
    var sorted, size := Ascending(lens), BlockSize(k, equal);
    assert sorted[..offset + size] == sorted[..offset] + sorted[offset..offset + size];
    FirstStatesNext(sorted, k, equal, b, offset);
  }

  lemma AllBuilt(lens: seq<nat>, k: nat, equal: bool, q: seq<Bins>, b: nat, offset: nat)
    requires k >= 1 && Built(lens, k, equal, q, b, offset) && offset == |lens|
    ensures QueueOk(q, k, BalanceBound(lens, k, equal), multiset(Items(lens)), equal) && Filled(q) == |lens|
    ensures multiset(q) == FirstHeap(lens, k, equal)
  {
    hide QueueOk, StateOf, Ascending, BalanceBound, Filled, FirstStates;
    AscendingIsOrdered(lens);
    assert Ascending(lens)[..offset] == Ascending(lens);
    BlocksEnd(|lens|, k, equal, b);
  }

  lemma NoFirstStates(sorted: seq<Item>, k: nat, equal: bool)
    ensures FirstStates(sorted, k, equal, 0) == []
  {
  }

  lemma EmptyQueueOk(k: nat, bound: int, equal: bool)
    ensures QueueOk([], k, bound, multiset{}, equal) && Filled([]) == 0
  {
  }

  lemma NextBlockFits(n: nat, k: nat, b: nat)
    requires k >= 1 && n % k == 0 && b * k < n
    ensures (b + 1) * k <= n && (b + 1) * k == b * k + k
  {
    var m := n / k;
    assert n == m * k;
    MulStrict(b, m, k);
    MulMonotone(b + 1, m, k);
    MulSucc(b, k);
  }

  /** The heap loop: rounds until one state is left. */
  method RunRounds(pq0: seq<PartitionState>, ghost q0: seq<Bins>, k: nat,
                   ghost bound: int, ghost lens: seq<nat>, ghost equal: bool)
      returns (last: PartitionState, ghost st: Bins)
    requires QueueValid(pq0, q0, k) && k >= 1 && pq0 != [] && QueueOk(q0, k, bound, multiset(Items(lens)), equal)
    modifies pq0, Owned(pq0)
    ensures Holds(last, st, k) && QueueOk([st], k, bound, multiset(Items(lens)), equal)
    ensures Filled(q0) >= k ==> Filled([st]) >= k
    ensures Settled(multiset(q0)) == multiset{st}
  {
    hide QueueOk, Contents, Distinct, BinLess, Sum, Without, MergeStates, Holds, Apart, IsRound, Filled, Settled, Items;
    var pq := pq0;
    ghost var q := q0;
    while |pq| > 1
      invariant pq != [] && QueueValid(pq, q, k) && QueueOk(q, k, bound, multiset(Items(lens)), equal)
      invariant Filled(q0) >= k ==> Filled(q) >= k
      invariant forall st :: st in pq ==> st in pq0 && forall s :: s in st.sets ==> s in old(Owned(pq0))
      invariant Settled(multiset(q0)) == Settled(multiset(q))
      decreases |pq|
    {
      ghost var before := q;
      pq, q := MergeTwoLeast(pq, q, k, bound, multiset(Items(lens)), equal);
      ListRoundKeepsSettled(before, q, lens, k, bound, equal);
    }
    assert q == [q[0]];
    OneStateIsSettled(q[0]);
    last, st := pq[0], q[0];
  }

  /** The body of `karmarkar_karp` after its checks: queue, rounds, partitions of the state that is left.  The result
      depends on the input alone. */
  method Differenced(lens: seq<nat>, k: nat, equalSize: bool) returns (parts: seq<seq<nat>>)
    requires k > 0 && lens != [] && (equalSize ==> |lens| % k == 0)
    ensures BalancedPartition(lens, k, equalSize, parts)
    ensures parts == DifferencedPartitions(lens, k, equalSize)
  {
    hide QueueOk, BalanceBound, Contents, Distinct, BinLess, Sum, Filled, BalancedPartition, Settled, FirstHeap, PartitionsOfLast;
    var pq, q := FirstQueue(lens, k, equalSize);
    var last, st := RunRounds(pq, q, k, BalanceBound(lens, k, equalSize), lens, equalSize);
    HoldsValue(last, st, k);
    parts := last.GetPartitions();
    LastStateIsBalanced(st, lens, k, equalSize);
    PartitionsOfOne(st);
  }

  /** `karmarkar_karp`. */
  method Partition(lens: seq<nat>, k: nat, equalSize: bool) returns (r: Result<seq<seq<nat>>>)
    ensures equalSize && k == 0 ==> r == Failed(ZeroDivisionError)
    ensures equalSize && k > 0 && |lens| % k != 0 ==> r == Failed(AssertionError)
    ensures (k == 0 && !equalSize) || (k > 0 && lens == []) ==> r == Failed(IndexError)
    ensures k > 0 && lens != [] && (equalSize ==> |lens| % k == 0) ==>
      r.Ok? && BalancedPartition(lens, k, equalSize, r.value) && r.value == DifferencedPartitions(lens, k, equalSize)
  {
    if equalSize {
      if k == 0 { return Failed(ZeroDivisionError); }
      if |lens| % k != 0 { return Failed(AssertionError); }
    }
    if k == 0 || lens == [] { return Failed(IndexError); }
    hide BalancedPartition, DifferencedPartitions;
    var parts := Differenced(lens, k, equalSize);
    if equalSize {
      for i := 0 to |parts| {
        PartIsEqual(lens, k, parts, i);
        assert |parts[i]| * k == |lens|;
      }
    }
    r := Ok(parts);
  }

  lemma PartIsEqual(lens: seq<nat>, k: nat, parts: seq<seq<nat>>, i: nat)
    requires k > 0 && BalancedPartition(lens, k, true, parts) && i < |parts|
    ensures |parts[i]| * k == |lens|
  {
    assert parts[i] in parts;
  }
}
