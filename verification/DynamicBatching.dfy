/** Splitting a batch into micro-batches, ordering them for the pipeline, and restoring row order. */
module DynamicBatching {
  import opened Sequences
  import opened Prelude
  import opened Sorting
  import opened Arith
  import opened DifferencingQueue
  import opened Partitions
  import opened DifferencingRounds
  import opened MicroBatches
  import opened TokenLimits

  // ---------------------------------------------------------------- counting micro-batches

  /** `-(a // -b)`, with Python's floor division by a negative number. */
  function CeilDiv(a: nat, b: nat): (r: nat)
    requires b > 0
    ensures (r as int - 1) * b < a <= r * b
  {
    var q := a / b;
    assert a == q * b + a % b;
    var floor: int := if a % b == 0 then -q else -q - 1;  // a // -b
    assert (q + 1) * b == q * b + b && (q - 1) * b == q * b - b;
    -floor
  }

  function RoundUpDivisible(a: nat, b: nat): (r: nat)
    requires b > 0
    ensures a <= r < a + b && r % b == 0
  {
    var m := (a + b - 1) / b;
    assert a + b - 1 == m * b + (a + b - 1) % b;
    MultipleDivides(m, b);
    m * b
  }

  /** The number of micro-batches; `peers` are the counts of the other ranks when they are synchronised. */
  function NumMicroBatches(lens: seq<nat>, maxTokenLen: nat, atLeast: Option<nat>, peers: Option<seq<nat>>,
                           dividedBy: Option<nat>): nat
    requires maxTokenLen > 0 && (dividedBy.Some? ==> dividedBy.value > 0)
  {
    var fit := Min(|lens|, CeilDiv(SumOf(lens), maxTokenLen));
    var local := if atLeast.Some? then Max(atLeast.value, fit) else fit;
    var shared := if peers.Some? then MaxOf(peers.value, local) else local;
    if dividedBy.Some? then RoundUpDivisible(shared, dividedBy.value) else shared
  }

  /** A count divides as asked, is at least what is asked for and what every other rank needs, and unless it is
      as large as the number of sequences it leaves the average micro-batch within the token limit. */
  ghost predicate MeetsDemands(lens: seq<nat>, maxTokenLen: nat, atLeast: Option<nat>, peers: Option<seq<nat>>,
                               dividedBy: Option<nat>, num: nat)
    requires dividedBy.Some? ==> dividedBy.value > 0
  {
    (dividedBy.Some? ==> num % dividedBy.value == 0)
    && (atLeast.Some? ==> atLeast.value <= num)
    && (peers.Some? ==> forall i :: 0 <= i < |peers.value| ==> peers.value[i] <= num)
    && (|lens| <= num || SumOf(lens) <= num * maxTokenLen)
  }

  lemma MicroBatchCount(lens: seq<nat>, maxTokenLen: nat, atLeast: Option<nat>, peers: Option<seq<nat>>, dividedBy: Option<nat>)
    requires maxTokenLen > 0 && (dividedBy.Some? ==> dividedBy.value > 0)
    ensures MeetsDemands(lens, maxTokenLen, atLeast, peers, dividedBy,
                         NumMicroBatches(lens, maxTokenLen, atLeast, peers, dividedBy))
  {
    hide CeilDiv, RoundUpDivisible, MaxOf;
    var fit := Min(|lens|, CeilDiv(SumOf(lens), maxTokenLen));
    var local := if atLeast.Some? then Max(atLeast.value, fit) else fit;
    if peers.Some? { MaxOfBounds(peers.value, local); }
    MulMonotone(fit, NumMicroBatches(lens, maxTokenLen, atLeast, peers, dividedBy), maxTokenLen);
  }

  /** It is the least count that meets all demands. */
  lemma MicroBatchCountIsLeast(lens: seq<nat>, maxTokenLen: nat, atLeast: Option<nat>, peers: Option<seq<nat>>,
                               dividedBy: Option<nat>, m: nat)
    requires maxTokenLen > 0 && (dividedBy.Some? ==> dividedBy.value > 0)
    requires MeetsDemands(lens, maxTokenLen, atLeast, peers, dividedBy, m)
    ensures NumMicroBatches(lens, maxTokenLen, atLeast, peers, dividedBy) <= m
  {
    hide CeilDiv, RoundUpDivisible, MaxOf, SumOf;
    var fit := Min(|lens|, CeilDiv(SumOf(lens), maxTokenLen));
    if |lens| > m { LeastCeil(SumOf(lens), maxTokenLen, m); }
    var local := if atLeast.Some? then Max(atLeast.value, fit) else fit;
    if peers.Some? { MaxOfBounds(peers.value, local); }
    var shared := if peers.Some? then MaxOf(peers.value, local) else local;
    assert shared <= m;
    if dividedBy.Some? { LeastMultiple(shared, dividedBy.value, m); }
  }

  lemma LeastCeil(a: nat, b: nat, m: nat)
    requires b > 0 && a <= m * b
    ensures CeilDiv(a, b) <= m
  {
    if CeilDiv(a, b) > m { MulMonotone(m, CeilDiv(a, b) as int - 1, b); }
  }

  lemma LeastMultiple(a: nat, b: nat, m: nat)
    requires b > 0 && a <= m && m % b == 0
    ensures RoundUpDivisible(a, b) <= m
  {
    hide RoundUpDivisible;
    MultiplesApart(RoundUpDivisible(a, b), m, b);
  }

  /** A multiple less than b above another is not above it. */
  lemma MultiplesApart(r: nat, m: nat, b: nat)
    requires b > 0 && r % b == 0 && m % b == 0 && r < m + b
    ensures r <= m
  {
    var p, q := r / b, m / b;
    assert r == p * b;
    assert m == q * b;
    if p > q {
      MulMonotone(q + 1, p, b);
      MulSucc(q, b);
    }
  }

  /** Ranks that see each other's counts, their own included, settle on the same number. */
  lemma RanksAgreeOnCount(a: nat, b: nat, counts: seq<nat>)
    requires a in counts && b in counts
    ensures MaxOf(counts, a) == MaxOf(counts, b)
  {
    MaxOfBounds(counts, a);
    MaxOfBounds(counts, b);
  }

  // ---------------------------------------------------------------- ordering for the pipeline

  /** A list with its sort key. */
  datatype Keyed = Keyed(load: nat, first: nat, part: seq<nat>)

  predicate KeyLess(x: Keyed, y: Keyed) {
    x.load < y.load || (x.load == y.load && x.first < y.first)
  }

  /** Descending order by key. */
  predicate HeavierFirst(x: Keyed, y: Keyed) { !KeyLess(x, y) }

  lemma HeavierFirstIsTotalPreorder()
    ensures TotalPreorder(HeavierFirst)
  {
  }

  function Key(loads: seq<nat>, part: seq<nat>): Keyed {
    Keyed(Load(loads, part), FirstOf(part), part)
  }

  function Keys(loads: seq<nat>, parts: seq<seq<nat>>): (r: seq<Keyed>)
    ensures |r| == |parts|
  {
    if parts == [] then [] else [Key(loads, parts[0])] + Keys(loads, parts[1..])
  }

  function Parts(keyed: seq<Keyed>): (r: seq<seq<nat>>)
    ensures |r| == |keyed| && forall i :: 0 <= i < |keyed| ==> r[i] == keyed[i].part
  {
    if keyed == [] then [] else [keyed[0].part] + Parts(keyed[1..])
  }

  /** The lists, heaviest first. */
  function ByWorkload(loads: seq<nat>, parts: seq<seq<nat>>): (r: seq<seq<nat>>)
    ensures |r| == |parts|
  {
    Parts(Sort(Keys(loads, parts), HeavierFirst))
  }

  function Evens<T>(s: seq<T>): (r: seq<T>)
    ensures |r| == (|s| + 1) / 2 && forall i :: 0 <= i < |r| ==> r[i] == s[2 * i]
  {
    seq((|s| + 1) / 2, i requires 0 <= i < (|s| + 1) / 2 => s[2 * i])
  }

  function Odds<T>(s: seq<T>): (r: seq<T>)
    ensures |r| == |s| / 2 && forall i :: 0 <= i < |r| ==> r[i] == s[2 * i + 1]
  {
    seq(|s| / 2, i requires 0 <= i < |s| / 2 => s[2 * i + 1])
  }

  function Reverse<T>(s: seq<T>): (r: seq<T>)
    ensures |r| == |s| && forall i :: 0 <= i < |s| ==> r[i] == s[|s| - 1 - i]
  {
    seq(|s|, i requires 0 <= i < |s| => s[|s| - 1 - i])
  }

  /** `s[::2][::-1] + s[1::2]`. */
  function Zigzag<T>(s: seq<T>): (r: seq<T>)
    ensures |r| == |s|
  {
    Reverse(Evens(s)) + Odds(s)
  }

  lemma {:induction false} ReversePermutes<T>(s: seq<T>)
    ensures multiset(Reverse(s)) == multiset(s)
  {
    if s != [] {
      ReversePermutes(s[1..]);
      assert Reverse(s) == Reverse(s[1..]) + [s[0]];
      assert s == [s[0]] + s[1..];
    }
  }

  lemma {:induction false} EvensAndOdds<T>(s: seq<T>)
    ensures multiset(Evens(s)) + multiset(Odds(s)) == multiset(s)
  {
    if s != [] {
      var init, last := s[..|s| - 1], s[|s| - 1];
      EvensAndOdds(init);
      assert s == init + [last];
      if |init| % 2 == 0 {
        assert Evens(s) == Evens(init) + [last] && Odds(s) == Odds(init);
      } else {
        assert Odds(s) == Odds(init) + [last] && Evens(s) == Evens(init);
      }
    }
  }

  /** The reordering drops and repeats nothing. */
  lemma ZigzagPermutes<T>(s: seq<T>)
    ensures multiset(Zigzag(s)) == multiset(s)
  {
    ReversePermutes(Evens(s));
    EvensAndOdds(s);
  }

  ghost predicate Descending(loads: seq<nat>, parts: seq<seq<nat>>) {
    forall i, j :: 0 <= i <= j < |parts| ==> Load(loads, parts[i]) >= Load(loads, parts[j])
  }

  /** Heaviest first; of equal loads the one whose first position is later. */
  ghost predicate KeyDescending(loads: seq<nat>, parts: seq<seq<nat>>) {
    forall i, j :: 0 <= i < j < |parts| ==> KeyAtLeast(loads, parts[i], parts[j])
  }

  predicate KeyAtLeast(loads: seq<nat>, p: seq<nat>, p': seq<nat>) {
    Load(loads, p) > Load(loads, p') ||
    (Load(loads, p) == Load(loads, p') && FirstOf(p) >= FirstOf(p'))
  }

  function FirstOf(p: seq<nat>): (first: nat)
    ensures p != [] ==> first == p[0]
  {
    if p == [] then 0 else p[0]
  }

  /** The order of the pipeline: the heaviest in the middle, the next ones in turn after and before it. */
  ghost predicate Pipelined(loads: seq<nat>, parts: seq<seq<nat>>) {
    exists sorted: seq<seq<nat>> :: KeyDescending(loads, sorted) && FromMiddle(sorted, parts)
  }

  ghost predicate FromMiddle<T>(s: seq<T>, r: seq<T>) {
    var middle := (|s| + 1) / 2;
    |r| == |s| && forall i: nat :: i < |s| ==> s[i] == r[if i % 2 == 0 then middle - 1 - i / 2 else middle + i / 2]
  }

  lemma ZigzagFromMiddle<T>(s: seq<T>)
    ensures FromMiddle(s, Zigzag(s))
  {
    hide Zigzag;
    var middle := (|s| + 1) / 2;
    forall i: nat | i < |s| ensures s[i] == Zigzag(s)[if i % 2 == 0 then middle - 1 - i / 2 else middle + i / 2] {
      ZigzagAt(s, if i % 2 == 0 then middle - 1 - i / 2 else middle + i / 2);
    }
  }

  /** Small batches at both ends: loads rise up to the middle and fall after it. */
  ghost predicate RisesThenFalls(loads: seq<nat>, parts: seq<seq<nat>>) {
    var peak := (|parts| + 1) / 2 - 1;
    (forall i, j :: 0 <= i <= j <= peak && j < |parts| ==> Load(loads, parts[i]) <= Load(loads, parts[j])) &&
    (forall i, j :: 0 <= peak <= i <= j < |parts| ==> Load(loads, parts[i]) >= Load(loads, parts[j]))
  }

  lemma ZigzagAt<T>(s: seq<T>, i: nat)
    requires i < |s|
    ensures Zigzag(s)[i] == if i < (|s| + 1) / 2 then s[2 * ((|s| + 1) / 2 - 1 - i)] else s[2 * (i - (|s| + 1) / 2) + 1]
  {
  }

  lemma ZigzagRisesThenFalls(loads: seq<nat>, parts: seq<seq<nat>>)
    requires Descending(loads, parts)
    ensures RisesThenFalls(loads, Zigzag(parts))
  {
    hide Load, Zigzag;
    var z, peak := Zigzag(parts), (|parts| + 1) / 2 - 1;
    forall i, j | 0 <= i <= j <= peak && j < |parts| ensures Load(loads, z[i]) <= Load(loads, z[j]) {
      ZigzagAt(parts, i);
      ZigzagAt(parts, j);
    }
    forall i, j | 0 <= peak <= i <= j < |parts| ensures Load(loads, z[i]) >= Load(loads, z[j]) {
      ZigzagAt(parts, i);
      ZigzagAt(parts, j);
    }
  }

  lemma {:induction false} PartsOfInsert(x: Keyed, s: seq<Keyed>)
    ensures multiset(Parts(Insert(x, s, HeavierFirst))) == multiset(Parts(s)) + multiset{x.part}
  {
    if s != [] && !HeavierFirst(x, s[0]) {
      PartsOfInsert(x, s[1..]);
      assert ([s[0]] + Insert(x, s[1..], HeavierFirst))[1..] == Insert(x, s[1..], HeavierFirst);
    } else {
      assert ([x] + s)[1..] == s;
    }
  }

  lemma {:induction false} PartsOfSort(s: seq<Keyed>)
    ensures multiset(Parts(Sort(s, HeavierFirst))) == multiset(Parts(s))
  {
    if s != [] {
      PartsOfSort(s[1..]);
      PartsOfInsert(s[0], Sort(s[1..], HeavierFirst));
    }
  }

  /** Each entry carries its own list's load. */
  ghost predicate ProperlyKeyed(loads: seq<nat>, keyed: seq<Keyed>) {
    forall x :: x in keyed ==> x.load == Load(loads, x.part) && x.first == FirstOf(x.part)
  }

  lemma {:induction false} KeysAreKeys(loads: seq<nat>, parts: seq<seq<nat>>)
    ensures Parts(Keys(loads, parts)) == parts && ProperlyKeyed(loads, Keys(loads, parts))
  {
    if parts != [] { KeysAreKeys(loads, parts[1..]); }
  }

  lemma ByWorkloadSorts(loads: seq<nat>, parts: seq<seq<nat>>)
    ensures multiset(ByWorkload(loads, parts)) == multiset(parts)
    ensures Descending(loads, ByWorkload(loads, parts)) && KeyDescending(loads, ByWorkload(loads, parts))
  {
    var keys := Keys(loads, parts);
    var sorted := Sort(keys, HeavierFirst);
    hide Load, Keys, Parts, Sort;
    HeavierFirstIsTotalPreorder();
    SortPermutes(keys, HeavierFirst);
    SortOrders(keys, HeavierFirst);
    SameElements(sorted, keys);
    PartsOfSort(keys);
    KeysAreKeys(loads, parts);
    OrderedDescends(loads, sorted);
  }

  lemma OrderedDescends(loads: seq<nat>, sorted: seq<Keyed>)
    requires Ordered(sorted, HeavierFirst) && ProperlyKeyed(loads, sorted)
    ensures Descending(loads, Parts(sorted)) && KeyDescending(loads, Parts(sorted))
  {
    hide Load, Parts, FirstOf;
    var parts := Parts(sorted);
    forall i, j | 0 <= i <= j < |parts| ensures Load(loads, parts[i]) >= Load(loads, parts[j]) {
      assert sorted[i] in sorted && sorted[j] in sorted;
      if i < j { assert HeavierFirst(sorted[i], sorted[j]); }
    }
    forall i, j | 0 <= i < j < |parts| ensures KeyAtLeast(loads, parts[i], parts[j]) {
      assert sorted[i] in sorted && sorted[j] in sorted && HeavierFirst(sorted[i], sorted[j]);
    }
  }

  // ---------------------------------------------------------------- reordering lists keeps the partition

  lemma {:induction false} ConcatPermutes<T>(a: seq<seq<T>>, b: seq<seq<T>>)
    requires multiset(a) == multiset(b)
    ensures multiset(Concat(a)) == multiset(Concat(b))
    decreases |a|
  {
    SameElements(a, b);
    if a != [] {
      assert a[0] in b;
      var i :| 0 <= i < |b| && b[i] == a[0];
      assert a == [a[0]] + a[1..];
      WithoutCounts(b, i);
      assert multiset(a[1..]) == multiset(a) - multiset{a[0]};
      ConcatPermutes(a[1..], Without(b, i));
      ConcatRemoves(b, i);
    }
  }

  lemma ReorderKeepsPartition(lens: seq<nat>, k: nat, parts: seq<seq<nat>>, parts': seq<seq<nat>>)
    requires k > 0 && SortedBalanced(lens, k, false, parts) && multiset(parts') == multiset(parts)
    ensures SortedBalanced(lens, k, false, parts')
  {
    hide Load, Largest, Concat, Ascends;
    ConcatPermutes(parts, parts');
    SameElements(parts, parts');
  }

  // ---------------------------------------------------------------- rearrange_micro_batches

  /** The index lists.  `maxSeqLen` is the width the token limit is checked against; no sequence is longer. */
  method RearrangeMicroBatches(lens: seq<nat>, maxSeqLen: nat, maxTokenLen: nat, atLeast: Option<nat>,
                               peers: Option<seq<nat>>, dividedBy: Option<nat>, balance: bool)
      returns (r: Result<seq<seq<nat>>>)
    requires LengthsWithin(lens, maxSeqLen) && (dividedBy.Some? ==> dividedBy.value > 0)
    ensures maxTokenLen < maxSeqLen ==> r == Failed(AssertionError)
    ensures maxSeqLen <= maxTokenLen && maxTokenLen == 0 ==> r == Failed(ZeroDivisionError)
    ensures maxSeqLen <= maxTokenLen && maxTokenLen > 0 ==>
      var num := NumMicroBatches(lens, maxTokenLen, atLeast, peers, dividedBy);
      (r.Ok? <==> 1 <= num <= |lens|) && (num > |lens| ==> r == Failed(AssertionError)) &&
      (r.Ok? ==> SortedBalanced(Workloads(lens), num, false, r.value) &&
                 (if balance then RisesThenFalls(Workloads(lens), r.value) && Pipelined(Workloads(lens), r.value)
                  else r.value == SortedParts(DifferencedPartitions(Workloads(lens), num, false))))
    ensures r.Ok? ==> KeepsLimitWhenKnown(lens, r.value, maxTokenLen)
  {
    hide SortedBalanced, KeepsLimitWhenKnown, Workloads, RisesThenFalls, Zigzag, ByWorkload, KeyDescending, FromMiddle,
      DifferencedPartitions, SortedParts;
    if maxTokenLen < maxSeqLen { return Failed(AssertionError); }
    if maxTokenLen == 0 { return Failed(ZeroDivisionError); }
    var num := NumMicroBatches(lens, maxTokenLen, atLeast, peers, dividedBy);
    if num > |lens| { return Failed(AssertionError); }
    var workloads := Workloads(lens);
    r := GetSeqlenBalancedPartitions(workloads, num, false);
    if r.Ok? && balance {
      var sorted := ByWorkload(workloads, r.value);
      ByWorkloadSorts(workloads, r.value);
      ZigzagPermutes(sorted);
      ZigzagRisesThenFalls(workloads, sorted);
      ZigzagFromMiddle(sorted);
      ReorderKeepsPartition(workloads, num, r.value, Zigzag(sorted));
      r := Ok(Zigzag(sorted));
    }
    if r.Ok? { BalancedAndLimit(lens, num, r.value, maxTokenLen); }
  }

  // ---------------------------------------------------------------- restoring row order

  /** `get_reverse_idx`: a copy of the map, overwritten in place.  Each position the map reaches ends
      with the last index that maps there; the others keep the map's own entry. */
  method GetReverseIdx(idxMap: seq<nat>) returns (r: Result<seq<nat>>)
    ensures r.Ok? <==> forall i :: 0 <= i < |idxMap| ==> idxMap[i] < |idxMap|
    ensures r.Ok? ==> |r.value| == |idxMap| && IsReverse(idxMap, r.value)
    ensures r.Failed? ==> r.why == IndexError
  {
    hide ReverseUpTo;
    var reverse: seq<nat> := idxMap;
    NothingReversed(idxMap);
    for i := 0 to |idxMap|
      invariant |reverse| == |idxMap| && forall k :: 0 <= k < i ==> idxMap[k] < |idxMap|
      invariant ReverseUpTo(idxMap, reverse, i)
    {
      if idxMap[i] >= |idxMap| { return Failed(IndexError); }
      ReverseOneMore(idxMap, reverse, i);
      reverse := reverse[idxMap[i] := i];
    }
    r := Ok(reverse);
  }

  ghost predicate IsReverse(idxMap: seq<nat>, reverse: seq<nat>)
    requires |idxMap| == |reverse| && forall i :: 0 <= i < |idxMap| ==> idxMap[i] < |idxMap|
  {
    ReverseUpTo(idxMap, reverse, |idxMap|)
  }

  /** After i rounds: positions reached hold the last index that maps there, the others their own entry. */
  ghost predicate ReverseUpTo(idxMap: seq<nat>, reverse: seq<nat>, i: nat)
    requires |idxMap| == |reverse| && i <= |idxMap| && forall k :: 0 <= k < i ==> idxMap[k] < |idxMap|
  {
    (forall k :: 0 <= k < i ==> k <= reverse[idxMap[k]] < i && idxMap[reverse[idxMap[k]]] == idxMap[k]) &&
    (forall j :: 0 <= j < |idxMap| && (forall k :: 0 <= k < i ==> idxMap[k] != j) ==> reverse[j] == idxMap[j])
  }

  lemma NothingReversed(idxMap: seq<nat>)
    ensures ReverseUpTo(idxMap, idxMap, 0)
  {
  }

  lemma ReverseOneMore(idxMap: seq<nat>, reverse: seq<nat>, i: nat)
    requires |idxMap| == |reverse| && i < |idxMap| && forall k :: 0 <= k <= i ==> idxMap[k] < |idxMap|
    requires ReverseUpTo(idxMap, reverse, i)
    ensures ReverseUpTo(idxMap, reverse[idxMap[i] := i], i + 1)
  {
    var after := reverse[idxMap[i] := i];
    forall j | 0 <= j < |idxMap| && (forall k :: 0 <= k < i + 1 ==> idxMap[k] != j) ensures after[j] == idxMap[j] {
      assert j != idxMap[i];
    }
  }

  /** Whatever the map, the reverse is a list of positions. */
  lemma ReverseInRange(idxMap: seq<nat>, reverse: seq<nat>)
    requires |idxMap| == |reverse| && (forall i :: 0 <= i < |idxMap| ==> idxMap[i] < |idxMap|)
    requires IsReverse(idxMap, reverse)
    ensures forall j :: 0 <= j < |reverse| ==> reverse[j] < |reverse|
  {
    forall j | 0 <= j < |reverse| ensures reverse[j] < |reverse| {
      if exists k :: 0 <= k < |idxMap| && idxMap[k] == j {}
    }
  }

  ghost predicate AllInRange(parts: seq<seq<nat>>, n: nat) {
    forall p :: p in parts ==> InRange(p, n)
  }

  /** The positions of all micro-batches, in the order the results come back. */
  function Positions(parts: seq<seq<nat>>): seq<nat> { Concat(parts) }

  ghost predicate IsPermutation(idx: seq<nat>, n: nat) {
    |idx| == n && (forall i :: 0 <= i < n ==> idx[i] < n) &&
    (forall i, j :: 0 <= i < j < n ==> idx[i] != idx[j]) && forall x: nat :: x < n ==> x in idx
  }

  lemma CoverIsPermutation(parts: seq<seq<nat>>, n: nat)
    requires CoversOnce(parts, n)
    ensures IsPermutation(Positions(parts), n)
  {
    var idx := Positions(parts);
    SameElements(idx, Range(n));
    forall x: nat | x < n ensures x in idx { assert Range(n)[x] == x; }
    forall i | 0 <= i < n ensures idx[i] < n { assert idx[i] in idx; }
    forall i, j | 0 <= i < j < n ensures idx[i] != idx[j] {
      if idx[i] == idx[j] {
        CountTwice(idx, i, j);
        RangeCount(n, idx[i]);
      }
    }
  }

  /** Row i of the data is found at the position the index lists name for it. */
  ghost predicate PutBack<T>(data: seq<T>, idx: seq<nat>, restored: seq<T>) {
    |restored| == |data| == |idx| &&
    forall i :: 0 <= i < |data| ==> idx[i] < |data| && restored[idx[i]] == data[i]
  }

  lemma CoverGivesPermutation(parts: seq<seq<nat>>, n: nat)
    ensures CoversOnce(parts, n) ==> IsPermutation(Positions(parts), n)
  {
    if CoversOnce(parts, n) { CoverIsPermutation(parts, n); }
  }

  lemma ReversePutsBack<T>(data: seq<T>, idx: seq<nat>, reverse: seq<nat>)
    requires |idx| == |reverse| == |data| && InRange(idx, |idx|) && IsReverse(idx, reverse) && InRange(reverse, |data|)
    ensures IsPermutation(idx, |data|) ==> PutBack(data, idx, Gather(data, reverse))
  {
    if IsPermutation(idx, |data|) {
      forall i | 0 <= i < |data| ensures Gather(data, reverse)[idx[i]] == data[i] {
        assert idx[reverse[idx[i]]] == idx[i];
      }
    }
  }

  /** `restore_dynamic_batch`. */
  method RestoreDynamicBatch<T>(data: seq<T>, batchIdx: seq<seq<nat>>) returns (r: Result<seq<T>>)
    ensures |Positions(batchIdx)| != |data| ==> r == Failed(AssertionError)
    ensures CoversOnce(batchIdx, |data|) ==> r.Ok? && PutBack(data, Positions(batchIdx), r.value)
  {
    hide CoversOnce, PutBack, IsReverse, Positions;
    var indices := Positions(batchIdx);
    CoverGivesPermutation(batchIdx, |data|);
    if |indices| != |data| { return Failed(AssertionError); }
    var reverse := GetReverseIdx(indices);
    if reverse.Failed? { return Failed(reverse.why); }
    ReverseInRange(indices, reverse.value);
    r := Ok(Gather(data, reverse.value));
    ReversePutsBack(data, indices, reverse.value);
  }

  // ---------------------------------------------------------------- the round trip

  /** The rows of each micro-batch. */
  function Split<T>(rows: seq<T>, parts: seq<seq<nat>>): (r: seq<seq<T>>)
    requires AllInRange(parts, |rows|)
    ensures |r| == |parts| && forall a :: 0 <= a < |parts| ==> parts[a] in parts && r[a] == Gather(rows, parts[a])
  {
    seq(|parts|, a requires 0 <= a < |parts| => assert parts[a] in parts; Gather(rows, parts[a]))
  }

  lemma {:induction false} PositionsInRange(parts: seq<seq<nat>>, n: nat)
    requires AllInRange(parts, n)
    ensures InRange(Positions(parts), n)
  {
    if parts != [] {
      assert parts[0] in parts && forall p :: p in parts[1..] ==> p in parts;
      PositionsInRange(parts[1..], n);
      assert Positions(parts) == parts[0] + Positions(parts[1..]);
    }
  }

  lemma {:induction false} ConcatOfSplit<T>(rows: seq<T>, parts: seq<seq<nat>>)
    requires AllInRange(parts, |rows|) && InRange(Positions(parts), |rows|)
    ensures Concat(Split(rows, parts)) == Gather(rows, Positions(parts))
  {
    if parts != [] {
      assert parts[0] in parts && forall p :: p in parts[1..] ==> p in parts;
      PositionsInRange(parts[1..], |rows|);
      assert Split(rows, parts)[1..] == Split(rows, parts[1..]);
      ConcatOfSplit(rows, parts[1..]);
      GatherOfConcat(rows, parts[0], Positions(parts[1..]));
    }
  }

  lemma PutBackIsIdentity<T>(rows: seq<T>, idx: seq<nat>, restored: seq<T>)
    requires IsPermutation(idx, |rows|) && PutBack(Gather(rows, idx), idx, restored)
    ensures restored == rows
  {
    forall x: nat | x < |rows| ensures restored[x] == rows[x] {
      assert x in idx;
      var i :| 0 <= i < |idx| && idx[i] == x;
      assert restored[idx[i]] == Gather(rows, idx)[i];
    }
  }

  function MapRows<T, U>(f: T -> U, rows: seq<T>): (r: seq<U>)
    ensures |r| == |rows| && forall i :: 0 <= i < |rows| ==> r[i] == f(rows[i])
  {
    seq(|rows|, i requires 0 <= i < |rows| => f(rows[i]))
  }

  /** Dynamic batching end to end: split a batch, compute each row in its micro-batch, concatenate and
      restore; the result is as if each row had been computed in place. */
  method ComputeInMicroBatches<T, U>(rows: seq<T>, lens: seq<nat>, f: T -> U, maxSeqLen: nat, maxTokenLen: nat,
                                     atLeast: Option<nat>, peers: Option<seq<nat>>, dividedBy: Option<nat>, balance: bool)
      returns (r: Result<seq<U>>)
    requires |rows| == |lens| && LengthsWithin(lens, maxSeqLen) && (dividedBy.Some? ==> dividedBy.value > 0)
    ensures r.Ok? <==> (maxSeqLen <= maxTokenLen && maxTokenLen > 0 &&
                        1 <= NumMicroBatches(lens, maxTokenLen, atLeast, peers, dividedBy) <= |lens|)
    ensures r.Ok? ==> r.value == MapRows(f, rows)
  {
    var parts := RearrangeMicroBatches(lens, maxSeqLen, maxTokenLen, atLeast, peers, dividedBy, balance);
    if parts.Failed? { return Failed(parts.why); }
    ghost var outputs := MapRows(f, rows);
    assert CoversOnce(parts.value, |rows|);
    hide SortedBalanced, RisesThenFalls, CoversOnce, NumMicroBatches;
    CoverIsPermutation(parts.value, |rows|);
    PartsInRange(parts.value, |rows|);
    var data: seq<U> := [];
    for a := 0 to |parts.value|
      invariant data == Concat(Split(outputs, parts.value[..a]))
    {
      var microBatch := Gather(rows, parts.value[a]);
      SplitOneMore(outputs, parts.value, a);
      assert MapRows(f, microBatch) == Gather(outputs, parts.value[a]);
      data := data + MapRows(f, microBatch);
    }
    assert parts.value[..|parts.value|] == parts.value;
    PositionsInRange(parts.value, |rows|);
    ConcatOfSplit(outputs, parts.value);
    r := RestoreDynamicBatch(data, parts.value);
    PutBackIsIdentity(outputs, Positions(parts.value), r.value);
  }

  lemma PartsInRange(parts: seq<seq<nat>>, n: nat)
    requires CoversOnce(parts, n)
    ensures AllInRange(parts, n)
  {
    forall p | p in parts ensures InRange(p, n) {
      var a :| 0 <= a < |parts| && parts[a] == p;
      forall i | 0 <= i < |p| ensures p[i] < n { CoversOnceDisjoint(parts, n, a, a, p[i]); }
    }
  }

  lemma SplitOneMore<T>(rows: seq<T>, parts: seq<seq<nat>>, a: nat)
    requires a < |parts| && AllInRange(parts, |rows|)
    ensures parts[a] in parts
    ensures Concat(Split(rows, parts[..a + 1])) == Concat(Split(rows, parts[..a])) + Gather(rows, parts[a])
  {
    assert parts[a] in parts;
    assert Split(rows, parts[..a + 1]) == Split(rows, parts[..a]) + [Gather(rows, parts[a])];
    ConcatOfTwo(Split(rows, parts[..a]), [Gather(rows, parts[a])]);
    assert Concat([Gather(rows, parts[a])]) == Gather(rows, parts[a]) + Concat<T>([]);
  }

  // ---------------------------------------------------------------- no cap per micro-batch

  /** The token limit is no cap on each micro-batch: three sequences of 6 tokens under a limit of 10 get two
      micro-batches, and however they are filled one of them holds 12 tokens or more. */
  lemma NoCapPerMicroBatch(parts: seq<seq<nat>>)
    requires |parts| == 2 && CoversOnce(parts, 3)
    ensures NumMicroBatches([6, 6, 6], 10, None, None, None) == 2
    ensures Load([6, 6, 6], parts[0]) >= 12 || Load([6, 6, 6], parts[1]) >= 12
  {
    assert SumOf([6, 6, 6]) == 18 by { assert [6, 6, 6][1..] == [6, 6] && [6, 6][1..] == [6] && [6][1..] == []; }
    forall a, i | 0 <= a < 2 && 0 <= i < |parts[a]| ensures parts[a][i] < 3 {
      InConcat(parts, a, parts[a][i]);
      assert parts[a][i] in multiset(Concat(parts));
      assert parts[a][i] in multiset(Range(3));
    }
    ConcatCount(parts);
    ConcatCount(parts[1..]);
    assert |multiset(Concat(parts))| == |multiset(Range(3))| == 3;
    LoadOfEqual([6, 6, 6], parts[0], 6);
    LoadOfEqual([6, 6, 6], parts[1], 6);
  }
}
