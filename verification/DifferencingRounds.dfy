/** The heap loop of the differencing method, whatever the heap's layout: each round is determined, and so is
    the state that is left at the end. */
module DifferencingRounds {
  import opened Arith
  import opened BalanceOrder
  import opened Differencing
  import opened DifferencingQueue
  import opened Partitions

  /** What a heap holds, without its layout. */
  type Heap = multiset<Bins>

  /** Some arrangement of the heap is a queue that the method reaches on this input. */
  ghost predicate Reachable(h: Heap, lens: seq<nat>, k: nat, bound: int, equal: bool) {
    exists q :: Arranges(q, h, lens, k, bound, equal)
  }

  ghost predicate Arranges(q: seq<Bins>, h: Heap, lens: seq<nat>, k: nat, bound: int, equal: bool) {
    multiset(q) == h && QueueOk(q, k, bound, multiset(Items(lens)), equal)
  }

  /** On every queue reached from an input, of two queued states exactly one is less, and comparisons chain. */
  lemma OrderIsStrictTotal(q: seq<Bins>, lens: seq<nat>, k: nat, bound: int, equal: bool)
    requires QueueOk(q, k, bound, multiset(Items(lens)), equal)
    ensures forall i, j :: 0 <= i < |q| && 0 <= j < |q| && i != j ==>
      (StateLess(q[i], q[j]) <==> !StateLess(q[j], q[i]))
    ensures forall a, b, c :: StateLess(a, b) && StateLess(b, c) ==> StateLess(a, c)
  {
    hide StateLess, QueueOk;
    EachItemOnce(lens);
    QueueOrderIsStrictTotal(q, k, bound, multiset(Items(lens)), equal);
  }

  // ---------------------------------------------------------------- one round

  ghost predicate Least(h: Heap, a: Bins) {
    a in h && forall b :: b in h ==> !StateLess(b, a)
  }

  /** Two pops and a push: the two least states leave, their merge enters. */
  ghost predicate Round(h: Heap, h': Heap) {
    exists a, b :: RoundBy(h, h', a, b)
  }

  ghost predicate RoundBy(h: Heap, h': Heap, a: Bins, b: Bins) {
    Least(h, a) && Least(h - multiset{a}, b) && |a| == |b| &&
    h' == h - multiset{a} - multiset{b} + multiset{MergeStates(a, b)}
  }

  /** Two states of a reachable heap that are both least are the same. */
  lemma OneLeast(h: Heap, lens: seq<nat>, k: nat, bound: int, equal: bool, a: Bins, b: Bins)
    requires Reachable(h, lens, k, bound, equal) && a in h && b in h && !StateLess(a, b) && !StateLess(b, a)
    ensures a == b
  {
    hide StateLess, QueueOk;
    var q :| Arranges(q, h, lens, k, bound, equal);
    OrderIsStrictTotal(q, lens, k, bound, equal);
    assert a in q && b in q;
    var i :| 0 <= i < |q| && q[i] == a;
    var j :| 0 <= j < |q| && q[j] == b;
  }

  /** A reachable heap has at most one next heap. */
  lemma RoundIsDetermined(h: Heap, lens: seq<nat>, k: nat, bound: int, equal: bool, h1: Heap, h2: Heap)
    requires Reachable(h, lens, k, bound, equal) && Round(h, h1) && Round(h, h2)
    ensures h1 == h2
  {
    hide StateLess, MergeStates, Reachable;
    var a1, b1 :| RoundBy(h, h1, a1, b1);
    var a2, b2 :| RoundBy(h, h2, a2, b2);
    OneLeast(h, lens, k, bound, equal, a1, a2);
    assert b1 in h && b2 in h;
    OneLeast(h, lens, k, bound, equal, b1, b2);
  }

  lemma PushCounts<T>(q: seq<T>, x: T)
    ensures multiset(q + [x]) == multiset(q) + multiset{x}
  {
  }

  /** The next heap is reachable too, and has one state fewer. */
  lemma RoundStaysReachable(h: Heap, lens: seq<nat>, k: nat, bound: int, equal: bool, h': Heap)
    requires Reachable(h, lens, k, bound, equal) && Round(h, h')
    ensures Reachable(h', lens, k, bound, equal) && |h'| == |h| - 1
  {
    hide StateLess, MergeStates, QueueOk, Without, Arranges, RoundBy;
    var q :| Arranges(q, h, lens, k, bound, equal);
    var a, b :| RoundBy(h, h', a, b);
    var i, j := RoundPlaces(q, h, lens, k, bound, equal, h', a, b);
    RoundArranges(q, h, lens, k, bound, equal, h', i, j);
  }

  /** Where the two states of a round are in an arrangement. */
  lemma RoundPlaces(q: seq<Bins>, h: Heap, lens: seq<nat>, k: nat, bound: int, equal: bool, h': Heap, a: Bins, b: Bins)
      returns (i: nat, j: nat)
    requires Arranges(q, h, lens, k, bound, equal) && RoundBy(h, h', a, b)
    ensures i < |q| && q[i] == a && j < |Without(q, i)| && Without(q, i)[j] == b
    ensures h' == h - multiset{q[i]} - multiset{Without(q, i)[j]} + multiset{MergeStates(q[i], Without(q, i)[j])}
  {
    hide StateLess, MergeStates, QueueOk, Without;
    assert a in q;
    i :| 0 <= i < |q| && q[i] == a;
    WithoutCounts(q, i);
    assert b in Without(q, i);
    j :| 0 <= j < |Without(q, i)| && Without(q, i)[j] == b;
  }

  lemma RoundArranges(q: seq<Bins>, h: Heap, lens: seq<nat>, k: nat, bound: int, equal: bool, h': Heap, i: nat, j: nat)
    requires Arranges(q, h, lens, k, bound, equal) && i < |q| && j < |Without(q, i)|
    requires |q[i]| == |Without(q, i)[j]| ==>
      h' == h - multiset{q[i]} - multiset{Without(q, i)[j]} + multiset{MergeStates(q[i], Without(q, i)[j])}
    ensures Reachable(h', lens, k, bound, equal) && |h'| == |h| - 1
  {
    hide MergeStates, QueueOk, Without, Filled;
    MergeKeepsQueue(q, k, bound, multiset(Items(lens)), equal, i, j);
    var rest := Without(q, i);
    var q' := Without(rest, j) + [MergeStates(q[i], rest[j])];
    WithoutCounts(q, i);
    WithoutCounts(rest, j);
    PushCounts(Without(rest, j), MergeStates(q[i], rest[j]));
    assert Arranges(q', h', lens, k, bound, equal);
    SameSizes(q, q', h, h');
  }

  lemma SameSizes<T>(q: seq<T>, q': seq<T>, h: multiset<T>, h': multiset<T>)
    requires multiset(q) == h && multiset(q') == h'
    ensures |h| == |q| && |h'| == |q'|
  {
  }

  /** A round on a list of states is a round of the heap. */
  lemma RoundOfList(q: seq<Bins>, q': seq<Bins>)
    requires IsRound(q, q')
    ensures Round(multiset(q), multiset(q'))
  {
    hide StateLess, MergeStates, Without;
    var i: nat, j: nat :| RoundAt(q, q', i, j);
    var rest := Without(q, i);
    WithoutCounts(q, i);
    WithoutCounts(rest, j);
    PushCounts(Without(rest, j), MergeStates(q[i], rest[j]));
    LeastOfList(q, i);
    LeastOfList(rest, j);
    assert RoundBy(multiset(q), multiset(q'), q[i], rest[j]);
  }

  lemma LeastOfList(q: seq<Bins>, i: nat)
    requires IsLeast(q, i)
    ensures Least(multiset(q), q[i])
  {
    hide StateLess;
    forall b | b in multiset(q) ensures !StateLess(b, q[i]) {
      assert b in q;
      var j :| 0 <= j < |q| && q[j] == b;
    }
  }

  // ---------------------------------------------------------------- all rounds

  /** The heap when no round is left. */
  ghost function Settled(h: Heap): Heap
    decreases |h|
  {
    if exists h' :: Round(h, h') && |h'| < |h| then
      var h' :| Round(h, h') && |h'| < |h|;
      Settled(h')
    else h
  }

  lemma RoundKeepsSettled(h: Heap, lens: seq<nat>, k: nat, bound: int, equal: bool, h': Heap)
    requires Reachable(h, lens, k, bound, equal) && Round(h, h')
    ensures Settled(h) == Settled(h')
  {
    hide Reachable, Round;
    RoundStaysReachable(h, lens, k, bound, equal, h');
    forall other | Round(h, other) ensures other == h' {
      RoundIsDetermined(h, lens, k, bound, equal, h', other);
    }
  }

  /** The same, on the list that stands for the heap. */
  lemma ListRoundKeepsSettled(q: seq<Bins>, q': seq<Bins>, lens: seq<nat>, k: nat, bound: int, equal: bool)
    requires QueueOk(q, k, bound, multiset(Items(lens)), equal) && IsRound(q, q')
    ensures Settled(multiset(q)) == Settled(multiset(q'))
  {
    hide QueueOk, IsRound, Round, Settled;
    RoundOfList(q, q');
    assert Arranges(q, multiset(q), lens, k, bound, equal);
    RoundKeepsSettled(multiset(q), lens, k, bound, equal, multiset(q'));
  }

  lemma OneStateIsSettled(st: Bins)
    ensures Settled(multiset{st}) == multiset{st}
  {
    hide Round;
    forall h' ensures Round(multiset{st}, h') ==> |multiset{st}| >= 2 {
      if Round(multiset{st}, h') { RoundNeedsTwo(multiset{st}, h'); }
    }
  }

  lemma RoundNeedsTwo(h: Heap, h': Heap)
    requires Round(h, h')
    ensures |h| >= 2
  {
    hide StateLess, MergeStates;
    var a, b :| RoundBy(h, h', a, b);
    assert |h - multiset{a}| >= 1;
  }

  /** However a priority queue arranges its states, the rounds lead to the same last state. */
  lemma {:induction false} EveryLayoutEndsAlike(heaps: seq<Heap>, lens: seq<nat>, k: nat, bound: int, equal: bool, st: Bins)
    requires heaps != [] && Reachable(heaps[0], lens, k, bound, equal) && heaps[|heaps| - 1] == multiset{st}
    requires forall n :: 0 < n < |heaps| ==> Round(heaps[n - 1], heaps[n])
    ensures Settled(heaps[0]) == multiset{st}
    decreases |heaps|
  {
    hide Reachable, Round, Settled;
    if |heaps| == 1 {
      OneStateIsSettled(st);
    } else {
      assert Round(heaps[0], heaps[1]);
      RoundStaysReachable(heaps[0], lens, k, bound, equal, heaps[1]);
      RoundKeepsSettled(heaps[0], lens, k, bound, equal, heaps[1]);
      var rest := heaps[1..];
      forall n | 0 < n < |rest| ensures Round(rest[n - 1], rest[n]) {
        assert rest[n - 1] == heaps[n] && rest[n] == heaps[n + 1];
      }
      EveryLayoutEndsAlike(rest, lens, k, bound, equal, st);
    }
  }

  // ---------------------------------------------------------------- the result as a function of the input

  /** Items per first state. */
  function BlockSize(k: nat, equal: bool): nat { if equal then k else 1 }

  /** The first n states: consecutive blocks of the sorted input. */
  function FirstStates(sorted: seq<Item>, k: nat, equal: bool, n: nat): (q: seq<Bins>)
    requires n * BlockSize(k, equal) <= |sorted|
    ensures |q| == n
  {
    if n == 0 then [] else
    BlockBounds(n, BlockSize(k, equal));
    FirstStates(sorted, k, equal, n - 1) +
      [StateOf(sorted[(n - 1) * BlockSize(k, equal)..n * BlockSize(k, equal)], k)]
  }

  lemma BlockBounds(n: nat, size: nat)
    requires n > 0
    ensures 0 <= (n - 1) * size <= n * size
  {
  }

  function Blocks(n: nat, k: nat, equal: bool): (b: nat)
    requires k > 0
    ensures b * BlockSize(k, equal) <= n
  {
    if equal then n / k else n
  }

  /** One more block. */
  lemma FirstStatesNext(sorted: seq<Item>, k: nat, equal: bool, n: nat, offset: nat)
    requires offset == n * BlockSize(k, equal) && offset + BlockSize(k, equal) <= |sorted|
    ensures (n + 1) * BlockSize(k, equal) == offset + BlockSize(k, equal)
    ensures FirstStates(sorted, k, equal, n + 1) ==
      FirstStates(sorted, k, equal, n) + [StateOf(sorted[offset..offset + BlockSize(k, equal)], k)]
  {
    hide StateOf;
  }

  /** The blocks are all there are when they end with the input. */
  lemma BlocksEnd(n: nat, k: nat, equal: bool, b: nat)
    requires k > 0 && b * BlockSize(k, equal) == n
    ensures Blocks(n, k, equal) == b
  {
    if equal { MultipleDivides(b, k); }
  }

  /** The heap the loop starts from. */
  ghost function FirstHeap(lens: seq<nat>, k: nat, equal: bool): Heap
    requires k > 0
  {
    multiset(FirstStates(Ascending(lens), k, equal, Blocks(|lens|, k, equal)))
  }

  /** The partitions the differencing method must return: those of the one state its rounds leave. */
  ghost function DifferencedPartitions(lens: seq<nat>, k: nat, equal: bool): seq<seq<nat>>
    requires k > 0
  {
    PartitionsOfLast(Settled(FirstHeap(lens, k, equal)))
  }

  ghost function PartitionsOfLast(h: Heap): seq<seq<nat>> {
    if |h| == 1 then var st :| st in h; PartitionsOf(st) else []
  }

  lemma PartitionsOfOne(st: Bins)
    ensures PartitionsOfLast(multiset{st}) == PartitionsOf(st)
  {
    hide PartitionsOf;
  }
}
