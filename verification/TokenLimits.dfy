/** When balancing by workload keeps every list within a limit on its tokens. */
module TokenLimits {
  import opened Arith
  import opened Sequences
  import opened DifferencingQueue
  import opened Partitions
  import opened MicroBatches

  function Workload(len: nat): nat { 24576 * len + len * len }

  function Workloads(lens: seq<nat>): (r: seq<nat>)
    ensures |r| == |lens| && forall i :: 0 <= i < |lens| ==> r[i] == Workload(lens[i])
  {
    seq(|lens|, i requires 0 <= i < |lens| => Workload(lens[i]))
  }

  // ---------------------------------------------------------------- loads of lists of lists

  lemma {:induction false} ConcatRemoves<T>(parts: seq<seq<T>>, i: nat)
    requires i < |parts|
    ensures multiset(Concat(parts)) == multiset(parts[i]) + multiset(Concat(Without(parts, i)))
  {
    if i == 0 {
      assert Without(parts, 0) == parts[1..];
    } else {
      assert Without(parts, i)[0] == parts[0] && Without(parts, i)[1..] == Without(parts[1..], i - 1);
      hide Concat, Without;
      ConcatRemoves(parts[1..], i - 1);
      ConcatCount(parts);
      ConcatCount(Without(parts, i));
      Swapped(multiset(parts[0]), multiset(parts[i]), multiset(Concat(Without(parts[1..], i - 1))));
    }
  }

  lemma Swapped<T>(x: multiset<T>, y: multiset<T>, z: multiset<T>)
    ensures x + (y + z) == y + (x + z)
  {
  }

  lemma {:induction false} LoadOfEqual(lens: seq<nat>, part: seq<nat>, each: nat)
    requires forall i :: 0 <= i < |part| ==> part[i] < |lens| && lens[part[i]] == each
    ensures Load(lens, part) == |part| * each
  {
    if part != [] {
      LoadOfEqual(lens, part[1..], each);
      MulSucc(|part| - 1, each);
    }
  }

  lemma {:induction false} LoadOfConcat(lens: seq<nat>, a: seq<nat>, b: seq<nat>)
    ensures Load(lens, a + b) == Load(lens, a) + Load(lens, b)
  {
    if a == [] {
      assert a + b == b;
    } else {
      assert (a + b)[1..] == a[1..] + b;
      LoadOfConcat(lens, a[1..], b);
    }
  }

  lemma LoadWithout(lens: seq<nat>, part: seq<nat>, i: nat)
    requires i < |part|
    ensures Load(lens, part) == Load(lens, [part[i]]) + Load(lens, Without(part, i))
  {
    hide Load;
    assert part == part[..i] + ([part[i]] + part[i + 1..]);
    LoadOfConcat(lens, part[..i], [part[i]] + part[i + 1..]);
    LoadOfConcat(lens, [part[i]], part[i + 1..]);
    LoadOfConcat(lens, part[..i], part[i + 1..]);
  }

  /** A load does not depend on the order. */
  lemma {:induction false} LoadOfPermuted(lens: seq<nat>, a: seq<nat>, b: seq<nat>)
    requires multiset(a) == multiset(b)
    ensures Load(lens, a) == Load(lens, b)
    decreases |a|
  {
    hide Load, Without;
    if a == [] {
      assert |multiset(b)| == 0;
      assert b == [];
    } else {
      assert a[0] in multiset(b);
      var i :| 0 <= i < |b| && b[i] == a[0];
      LoadWithout(lens, a, 0);
      LoadWithout(lens, b, i);
      WithoutCounts(a, 0);
      WithoutCounts(b, i);
      WithoutShrinks(a, 0);
      LoadOfPermuted(lens, Without(a, 0), Without(b, i));
    }
  }

  lemma WithoutShrinks<T>(s: seq<T>, i: nat)
    requires i < |s|
    ensures |Without(s, i)| == |s| - 1
  {
  }

  lemma {:induction false} LoadOfTail(lens: seq<nat>, i: nat)
    requires i <= |lens|
    ensures Load(lens, Range(|lens|)[i..]) == SumOf(lens[i..])
    decreases |lens| - i
  {
    if i < |lens| {
      assert Range(|lens|)[i..][1..] == Range(|lens|)[i + 1..] && lens[i..][1..] == lens[i + 1..];
      LoadOfTail(lens, i + 1);
    }
  }

  /** Lists that cover once carry the whole sum together. */
  lemma CoverCarriesAll(lens: seq<nat>, parts: seq<seq<nat>>)
    requires CoversOnce(parts, |lens|)
    ensures Load(lens, Concat(parts)) == SumOf(lens)
  {
    hide Load, SumOf;
    LoadOfPermuted(lens, Concat(parts), Range(|lens|));
    LoadOfTail(lens, 0);
    assert Range(|lens|)[0..] == Range(|lens|) && lens[0..] == lens;
  }

  lemma {:induction false} AllCarry(lens: seq<nat>, parts: seq<seq<nat>>, low: int)
    requires forall p :: p in parts ==> Load(lens, p) >= low
    ensures Load(lens, Concat(parts)) >= |parts| * low
  {
    if parts != [] {
      assert parts[0] in parts;
      LoadOfConcat(lens, parts[0], Concat(parts[1..]));
      AllCarry(lens, parts[1..], low);
      MulSucc(|parts| - 1, low);
    }
  }

  /** A list among others that each carry at least `low`. */
  lemma OneAmong(lens: seq<nat>, parts: seq<seq<nat>>, a: nat, low: int)
    requires a < |parts| && CoversOnce(parts, |lens|) && forall p :: p in parts ==> Load(lens, p) >= low
    ensures Load(lens, parts[a]) + (|parts| - 1) * low <= SumOf(lens)
  {
    hide Load, SumOf, CoversOnce, Concat, Without;
    CoverCarriesAll(lens, parts);
    WithoutElements(parts, a);
    AllCarry(lens, Without(parts, a), low);
    ConcatRemoves(parts, a);
    LoadOfConcat(lens, parts[a], Concat(Without(parts, a)));
    LoadOfPermuted(lens, Concat(parts), parts[a] + Concat(Without(parts, a)));
  }

  // ---------------------------------------------------------------- a condition that keeps the limit

  ghost predicate WithinLimit(lens: seq<nat>, parts: seq<seq<nat>>, limit: nat) {
    forall p :: p in parts ==> Load(lens, p) <= limit
  }

  lemma {:induction false} WorkloadCountsTokens(lens: seq<nat>, part: seq<nat>)
    ensures 24576 * Load(lens, part) <= Load(Workloads(lens), part)
  {
    if part != [] {
      WorkloadCountsTokens(lens, part[1..]);
      if part[0] < |lens| { TokensInWorkload(lens[part[0]]); }
    }
  }

  lemma TokensInWorkload(len: nat)
    ensures 24576 * len <= Workload(len)
  {
  }

  /** Even the fullest of `num` balanced lists, one largest workload above the others, has room for its tokens. */
  predicate LeavesRoom(lens: seq<nat>, num: nat, limit: nat) {
    SumOf(Workloads(lens)) + (num - 1) * Largest(Workloads(lens)) <= num * (24576 * limit)
  }

  lemma RoomPerList(load: nat, sum: nat, largest: nat, num: nat, tokens: nat, limit: nat)
    requires num >= 1 && load + (num - 1) * (load - largest) <= sum
    requires sum + (num - 1) * largest <= num * (24576 * limit) && 24576 * tokens <= load
    ensures tokens <= limit
  {
    assert (num - 1) * (load - largest) == (num - 1) * load - (num - 1) * largest;
    assert (num - 1) * load + load == load * num;
    assert num * (24576 * limit) == (24576 * limit) * num;
    if load > 24576 * limit { MulMonotone(24576 * limit + 1, load, num); MulSucc(24576 * limit, num); }
  }

  lemma BalancedKeepsLimit(lens: seq<nat>, num: nat, parts: seq<seq<nat>>, limit: nat)
    requires num >= 1 && SortedBalanced(Workloads(lens), num, false, parts) && LeavesRoom(lens, num, limit)
    ensures WithinLimit(lens, parts, limit)
  {
    hide Load, SumOf, Largest, CoversOnce, Concat, Workloads;
    var work := Workloads(lens);
    forall p | p in parts ensures Load(lens, p) <= limit {
      var a :| 0 <= a < |parts| && parts[a] == p;
      OneAmong(work, parts, a, Load(work, p) - Largest(work));
      WorkloadCountsTokens(lens, p);
      RoomPerList(Load(work, p), SumOf(work), Largest(work), num, Load(lens, p), limit);
    }
  }

  function Squares(lens: seq<nat>, part: seq<nat>): nat {
    if part == [] then 0 else (if part[0] < |lens| then lens[part[0]] * lens[part[0]] else 0) + Squares(lens, part[1..])
  }

  /** The workload of a list weighs its tokens and their squares. */
  lemma {:induction false} WorkloadOfList(lens: seq<nat>, part: seq<nat>)
    ensures Load(Workloads(lens), part) == 24576 * Load(lens, part) + Squares(lens, part)
  {
    if part != [] { WorkloadOfList(lens, part[1..]); }
  }

  lemma {:induction false} LargestIsReached(lens: seq<nat>)
    requires lens != []
    ensures Largest(lens) in lens
  {
    if |lens| > 1 { LargestIsReached(lens[1..]); }
  }

  /** Balanced lists differ in that by the longest sequence's at most. */
  lemma WorkloadGap(lens: seq<nat>, num: nat, parts: seq<seq<nat>>, p: seq<nat>, p': seq<nat>)
    requires num >= 1 && lens != [] && SortedBalanced(Workloads(lens), num, false, parts) && p in parts && p' in parts
    ensures 24576 * Load(lens, p) + Squares(lens, p) <=
      24576 * Load(lens, p') + Squares(lens, p') + 24576 * Largest(lens) + Largest(lens) * Largest(lens)
  {
    hide Load, Squares, CoversOnce;
    WorkloadOfList(lens, p);
    WorkloadOfList(lens, p');
    LargestIsReached(Workloads(lens));
    var i :| 0 <= i < |lens| && Workloads(lens)[i] == Largest(Workloads(lens));
    LargestBounds(lens, i);
    SquareMonotone(lens[i], Largest(lens));
  }

  lemma SquareMonotone(a: nat, b: nat)
    requires a <= b
    ensures Workload(a) <= 24576 * b + b * b
  {
    MulMonotone(a, b, a);
    MulMonotone(a, b, b);
  }

  // ---------------------------------------------------------------- one sequence each, or more

  predicate LengthsWithin(lens: seq<nat>, limit: nat) { forall i :: 0 <= i < |lens| ==> lens[i] <= limit }

  /** Any two of the sequences at the places exceed the limit together. */
  predicate Crowded(lens: seq<nat>, limit: nat, places: seq<nat>) {
    (forall i :: 0 <= i < |places| ==> places[i] < |lens|) &&
    forall i, j :: 0 <= i < j < |places| ==> places[i] != places[j] && limit < lens[places[i]] + lens[places[j]]
  }

  /** The sequences longer than half the limit, in order. */
  function LongOnes(lens: seq<nat>, limit: nat): (r: seq<nat>)
    ensures forall i :: 0 <= i < |r| ==> r[i] < |lens| && limit < 2 * lens[r[i]]
    ensures forall i, j :: 0 <= i < j < |r| ==> r[i] < r[j]
    ensures forall i: nat :: i < |lens| && limit < 2 * lens[i] ==> i in r
  {
    if lens == [] then [] else
    var last := |lens| - 1;
    LongOnes(lens[..last], limit) + if limit < 2 * lens[last] then [last] else []
  }

  lemma {:induction false} ListsCount(parts: seq<seq<nat>>)
    requires forall p :: p in parts ==> p != []
    ensures |Concat(parts)| >= |parts|
    ensures |Concat(parts)| == |parts| <==> forall p :: p in parts ==> |p| == 1
  {
    if parts != [] {
      assert parts[0] in parts && forall p :: p in parts[1..] ==> p in parts;
      ListsCount(parts[1..]);
    }
  }

  lemma CoverCount(parts: seq<seq<nat>>, n: nat)
    requires CoversOnce(parts, n)
    ensures |Concat(parts)| == n && forall p, x :: p in parts && x in p ==> x < n
  {
    hide Concat, Range;
    assert |multiset(Concat(parts))| == |multiset(Range(n))|;
    forall p, x | p in parts && x in p ensures x < n {
      InSomeList(parts, p, x);
      assert x in multiset(Range(n));
    }
  }

  lemma InSomeList(parts: seq<seq<nat>>, p: seq<nat>, x: nat)
    requires p in parts && x in p
    ensures x in multiset(Concat(parts))
  {
    hide Concat;
    var a: nat :| a < |parts| && parts[a] == p;
    InConcat(parts, a, x);
  }

  /** A list of one position carries that length. */
  lemma LoadOfOne(lens: seq<nat>, p: seq<nat>)
    requires |p| == 1 && p[0] < |lens|
    ensures Load(lens, p) == lens[p[0]]
  {
    assert p[1..] == [];
  }

  lemma LoadOfTwo(lens: seq<nat>, p: seq<nat>, x: nat, y: nat)
    requires x in p && y in p && x != y && x < |lens| && y < |lens|
    ensures Load(lens, p) >= lens[x] + lens[y]
  {
    hide Load;
    var i: nat :| i < |p| && p[i] == x;
    LoadWithout(lens, p, i);
    LoadOfOne(lens, [x]);
    var rest := Without(p, i);
    var j: nat :| j < |p| && p[j] == y;
    assert rest[if j < i then j else j - 1] == y;
    var k: nat :| k < |rest| && rest[k] == y;
    LoadWithout(lens, rest, k);
    LoadOfOne(lens, [y]);
  }

  /** Different numbers below m are at most m. */
  lemma {:induction false} Pigeonhole(holes: seq<nat>, m: nat)
    requires forall i :: 0 <= i < |holes| ==> holes[i] < m
    requires forall i, j :: 0 <= i < j < |holes| ==> holes[i] != holes[j]
    ensures |holes| <= m
    decreases m
  {
    if holes != [] {
      assert holes[0] < m;
      if i: nat :| i < |holes| && holes[i] == m - 1 {
        WithoutShrinks(holes, i);
        Pigeonhole(Without(holes, i), m - 1);
      } else {
        Pigeonhole(holes, m - 1);
      }
    }
  }

  /** The lists that hold the sequences at the places. */
  lemma {:induction false} ListsOf(lens: seq<nat>, parts: seq<seq<nat>>, places: seq<nat>) returns (lists: seq<nat>)
    requires CoversOnce(parts, |lens|) && forall i :: 0 <= i < |places| ==> places[i] < |lens|
    ensures |lists| == |places| && forall i :: 0 <= i < |lists| ==> lists[i] < |parts| && places[i] in parts[lists[i]]
  {
    hide CoversOnce;
    if places == [] { return []; }
    var last := |places| - 1;
    var before := ListsOf(lens, parts, places[..last]);
    CoversOnceComplete(parts, |lens|, places[last]);
    var a: nat :| a < |parts| && places[last] in parts[a];
    lists := before + [a];
  }

  /** Sequences any two of which exceed the limit together need a list each. */
  lemma CrowdNeedsLists(lens: seq<nat>, parts: seq<seq<nat>>, limit: nat, places: seq<nat>)
    requires CoversOnce(parts, |lens|) && WithinLimit(lens, parts, limit) && Crowded(lens, limit, places)
    ensures |places| <= |parts|
  {
    hide CoversOnce, Load;
    var lists := ListsOf(lens, parts, places);
    forall i, j | 0 <= i < j < |lists| ensures lists[i] != lists[j] {
      if lists[i] == lists[j] { LoadOfTwo(lens, parts[lists[i]], places[i], places[j]); }
    }
    Pigeonhole(lists, |parts|);
  }

  /** So at most one sequence beyond half the limit goes to each list. */
  lemma LongOnesNeedLists(lens: seq<nat>, parts: seq<seq<nat>>, limit: nat)
    requires CoversOnce(parts, |lens|) && WithinLimit(lens, parts, limit)
    ensures |LongOnes(lens, limit)| <= |parts|
  {
    CrowdNeedsLists(lens, parts, limit, LongOnes(lens, limit));
  }

  /** Whichever lists cover the sequences, they keep no limit that one sequence exceeds. */
  lemma LimitNeedsLengths(lens: seq<nat>, parts: seq<seq<nat>>, limit: nat)
    requires CoversOnce(parts, |lens|) && WithinLimit(lens, parts, limit)
    ensures LengthsWithin(lens, limit)
  {
    hide Load, Concat;
    forall i: nat | i < |lens| ensures lens[i] <= limit {
      CoversOnceComplete(parts, |lens|, i);
      var a, j :| 0 <= a < |parts| && 0 <= j < |parts[a]| && parts[a][j] == i;
      LoadWithout(lens, parts[a], j);
      LoadOfOne(lens, [i]);
    }
  }

  /** With as many lists as sequences every list is one sequence, and no list exceeds what no sequence exceeds. */
  lemma OneEachKeepsLimit(lens: seq<nat>, parts: seq<seq<nat>>, limit: nat)
    requires CoversOnce(parts, |lens|) && |parts| == |lens| && (forall p :: p in parts ==> p != [])
    ensures WithinLimit(lens, parts, limit) <==> LengthsWithin(lens, limit)
  {
    hide Load, CoversOnce, Concat;
    if WithinLimit(lens, parts, limit) { LimitNeedsLengths(lens, parts, limit); }
    CoverCount(parts, |lens|);
    ListsCount(parts);
    forall p | p in parts && LengthsWithin(lens, limit) ensures Load(lens, p) <= limit {
      assert p[0] in p;
      LoadOfOne(lens, p);
    }
  }

  /** When every two sequences exceed the limit together, and none alone, the limit is kept exactly with one sequence
      in each list, whichever way the lists are filled. */
  lemma LongSequencesKeepLimit(lens: seq<nat>, parts: seq<seq<nat>>, limit: nat)
    requires CoversOnce(parts, |lens|) && (forall p :: p in parts ==> p != [])
    requires LengthsWithin(lens, limit) && Crowded(lens, limit, Range(|lens|))
    ensures WithinLimit(lens, parts, limit) <==> |parts| == |lens|
  {
    hide Load, CoversOnce, Concat, WithinLimit, Crowded;
    CoverCount(parts, |lens|);
    ListsCount(parts);
    if |parts| == |lens| { OneEachKeepsLimit(lens, parts, limit); }
    if WithinLimit(lens, parts, limit) { CrowdNeedsLists(lens, parts, limit, Range(|lens|)); }
  }

  // ---------------------------------------------------------------- equal lengths

  lemma {:induction false} CountAtLeast(parts: seq<seq<nat>>, low: int)
    requires forall p :: p in parts ==> low <= |p|
    ensures |parts| * low <= |Concat(parts)|
  {
    if parts != [] {
      assert parts[0] in parts;
      CountAtLeast(parts[1..], low);
      MulSucc(|parts| - 1, low);
    }
  }

  lemma {:induction false} CountAtMost(parts: seq<seq<nat>>, high: int)
    requires forall p :: p in parts ==> |p| <= high
    ensures |Concat(parts)| <= |parts| * high
  {
    if parts != [] {
      assert parts[0] in parts;
      CountAtMost(parts[1..], high);
      MulSucc(|parts| - 1, high);
    }
  }

  /** The other lists, when none is shorter than one list by more than one. */
  lemma OthersCount(parts: seq<seq<nat>>, a: nat)
    requires a < |parts| && forall p :: p in parts ==> |parts[a]| - |p| <= 1
    ensures |parts[a]| + (|parts| - 1) * (|parts[a]| - 1) <= |Concat(parts)|
  {
    WithoutElements(parts, a);
    ConcatRemoves(parts, a);
    hide Concat, Without;
    assert |multiset(Concat(parts))| == |multiset(parts[a])| + |multiset(Concat(Without(parts, a)))|;
    CountAtLeast(Without(parts, a), |parts[a]| - 1);
  }

  lemma RoundedUp(n: nat, k: nat, most: nat)
    requires k > 0 && most == (n + k - 1) / k
    ensures most * k >= n && (most - 1) * k < n + 1 && (n > 0 ==> (most - 1) * k < n)
  {
    assert n + k - 1 == most * k + (n + k - 1) % k;
    MulSucc(most - 1, k);
  }

  lemma TooFull(count: nat, most: nat, k: nat, n: nat)
    requires count > most && k > 0 && count + (k - 1) * (count - 1) <= n
    ensures most * k < n
  {
    MulMonotone(most, count - 1, k - 1);
    assert (k - 1) * (count - 1) == (count - 1) * (k - 1);
    MulSucc(k - 1, most);
    assert most * (k - 1) == (k - 1) * most && most * k == k * most;
  }

  /** Lists whose sizes differ by one at most: the fullest has the number of elements per list, rounded up. */
  lemma FullestOfEven(parts: seq<seq<nat>>, n: nat)
    requires parts != [] && |Concat(parts)| == n > 0
    requires forall p, p' :: p in parts && p' in parts ==> |p| - |p'| <= 1
    ensures var most := (n + |parts| - 1) / |parts|;
      (forall p :: p in parts ==> |p| <= most) && exists p :: p in parts && |p| == most
  {
    hide Concat;
    var k, most := |parts|, (n + |parts| - 1) / |parts|;
    RoundedUp(n, k, most);
    forall p | p in parts ensures |p| <= most {
      var a: nat :| a < |parts| && parts[a] == p;
      OthersCount(parts, a);
      if |p| > most { TooFull(|p|, most, k, n); }
    }
    assert k * (most - 1) == (most - 1) * k;
    if forall p :: p in parts ==> |p| != most { CountAtMost(parts, most - 1); }
  }

  lemma EvenCounts(x: nat, y: nat, w: nat)
    requires w > 0 && x * w - y * w <= w
    ensures x - y <= 1
  {
    if x - y > 1 { MulMonotone(y + 2, x, w); MulSucc(y, w); MulSucc(y + 1, w); }
  }

  lemma {:induction false} LargestOfEqual(lens: seq<nat>, each: nat)
    requires lens != [] && forall i :: 0 <= i < |lens| ==> lens[i] == each
    ensures Largest(lens) == each
  {
    if |lens| > 1 { LargestOfEqual(lens[1..], each); }
  }

  lemma LoadOfPlaces(lens: seq<nat>, p: seq<nat>, each: nat)
    requires (forall x :: x in p ==> x < |lens|) && forall i :: 0 <= i < |lens| ==> lens[i] == each
    ensures Load(lens, p) == |p| * each
  {
    forall i | 0 <= i < |p| ensures p[i] < |lens| && lens[p[i]] == each { assert p[i] in p; }
    LoadOfEqual(lens, p, each);
  }

  /** Balanced lists of equal workloads are even. */
  lemma EqualWorkIsEven(work: seq<nat>, num: nat, parts: seq<seq<nat>>, w: nat)
    requires num >= 1 && BalancedPartition(work, num, false, parts)
    requires work != [] && w > 0 && forall i :: 0 <= i < |work| ==> work[i] == w
    ensures forall p, p' :: p in parts && p' in parts ==> |p| - |p'| <= 1
  {
    hide Load, Largest, CoversOnce, Concat;
    LargestOfEqual(work, w);
    CoverCount(parts, |work|);
    forall p, p' | p in parts && p' in parts ensures |p| - |p'| <= 1 {
      LoadOfPlaces(work, p, w);
      LoadOfPlaces(work, p', w);
      EvenCounts(|p|, |p'|, w);
    }
  }

  /** With equal lengths, not zero, balanced lists keep the limit exactly when the sequences per list, rounded up,
      fit in it together. */
  lemma EqualLengthsKeepLimit(lens: seq<nat>, num: nat, parts: seq<seq<nat>>, limit: nat, each: nat)
    requires num >= 1 && lens != [] && SortedBalanced(Workloads(lens), num, false, parts)
    requires each > 0 && forall i :: 0 <= i < |lens| ==> lens[i] == each
    ensures WithinLimit(lens, parts, limit) <==> (|lens| + num - 1) / num * each <= limit
  {
    hide Load, CoversOnce, Concat, BalanceBound;
    EqualWorkIsEven(Workloads(lens), num, parts, Workload(each));
    CoverCount(parts, |lens|);
    FullestOfEven(parts, |lens|);
    var most := (|lens| + num - 1) / num;
    forall p | p in parts ensures Load(lens, p) == |p| * each && |p| * each <= most * each {
      LoadOfPlaces(lens, p, each);
      MulMonotone(|p|, most, each);
    }
  }

  // ---------------------------------------------------------------- what is known of balanced lists

  /** What is known of the limit before the lists are made: from the lengths and the number of lists. */
  ghost predicate KeepsLimitWhenKnown(lens: seq<nat>, parts: seq<seq<nat>>, limit: nat) {
    (LeavesRoom(lens, |parts|, limit) ==> WithinLimit(lens, parts, limit))
    && (|parts| == |lens| ==> WithinLimit(lens, parts, limit))
    && (WithinLimit(lens, parts, limit) ==> |LongOnes(lens, limit)| <= |parts|)
    && (Crowded(lens, limit, Range(|lens|)) ==> (WithinLimit(lens, parts, limit) <==> |parts| == |lens|))
    && (parts != [] && AllSame(lens) ==>
        (WithinLimit(lens, parts, limit) <==> (|lens| + |parts| - 1) / |parts| * lens[0] <= limit))
  }

  /** Equal lengths, not zero. */
  predicate AllSame(lens: seq<nat>) {
    lens != [] && lens[0] > 0 && forall i :: 0 <= i < |lens| ==> lens[i] == lens[0]
  }

  /** Balanced lists of sequences that each keep the limit keep it so. */
  lemma BalancedAndLimit(lens: seq<nat>, num: nat, parts: seq<seq<nat>>, limit: nat)
    requires num >= 1 && SortedBalanced(Workloads(lens), num, false, parts) && LengthsWithin(lens, limit)
    ensures KeepsLimitWhenKnown(lens, parts, limit)
  {
    hide LeavesRoom, WithinLimit, LengthsWithin, Crowded, LongOnes, CoversOnce, Load, Largest, Ascends;
    if LeavesRoom(lens, num, limit) { BalancedKeepsLimit(lens, num, parts, limit); }
    if num == |lens| { OneEachKeepsLimit(lens, parts, limit); }
    if WithinLimit(lens, parts, limit) { LongOnesNeedLists(lens, parts, limit); }
    if Crowded(lens, limit, Range(|lens|)) { LongSequencesKeepLimit(lens, parts, limit); }
    if AllSame(lens) { EqualLengthsKeepLimit(lens, num, parts, limit, lens[0]); }
  }

  /** The sum of the lengths decides nothing: under a limit of 10, two lists of 5, 5, 5, 5 keep it and two lists of
      6, 6, 6, 2 cannot. */
  lemma SumDoesNotDecide(fives: seq<seq<nat>>, sixes: seq<seq<nat>>)
    requires SortedBalanced(Workloads([5, 5, 5, 5]), 2, false, fives) && CoversOnce(sixes, 4) && |sixes| == 2
    ensures SumOf([5, 5, 5, 5]) == SumOf([6, 6, 6, 2])
    ensures WithinLimit([5, 5, 5, 5], fives, 10) && !WithinLimit([6, 6, 6, 2], sixes, 10)
  {
    hide SortedBalanced, CoversOnce, WithinLimit;
    EqualLengthsKeepLimit([5, 5, 5, 5], 2, fives, 10, 5);
    if WithinLimit([6, 6, 6, 2], sixes, 10) { CrowdNeedsLists([6, 6, 6, 2], sixes, 10, [0, 1, 2]); }
    SumOfFour(5, 5, 5, 5);
    SumOfFour(6, 6, 6, 2);
  }

  lemma SumOfFour(a: nat, b: nat, c: nat, d: nat)
    ensures SumOf([a, b, c, d]) == a + b + c + d
  {
    assert [a, b, c, d][1..] == [b, c, d] && [b, c, d][1..] == [c, d] && [c, d][1..] == [d] && [d][1..] == [];
    assert SumOf([d]) == d && SumOf([c, d]) == c + d && SumOf([b, c, d]) == b + c + d;
  }
}
