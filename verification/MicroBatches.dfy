/** Balanced index lists, their order in a pipeline, and putting the results back in place. */
module MicroBatches {
  import opened Sequences
  import opened Prelude
  import opened Sorting
  import opened Partitions
  import opened DifferencingRounds
  import KarmarkarKarp

  // ---------------------------------------------------------------- sorted index lists

  function SortedPart(part: seq<nat>): (r: seq<nat>)
    ensures |r| == |part|
  {
    Sort(part, IndexAtMost)
  }

  /** The order on indices. */
  predicate IndexAtMost(x: nat, y: nat) { AtMost(x, y) }

  ghost predicate Ascends(part: seq<nat>) {
    forall i, j :: 0 <= i < j < |part| ==> part[i] < part[j]
  }

  lemma {:induction false} LoadOfInsert(lens: seq<nat>, x: nat, s: seq<nat>)
    ensures Load(lens, Insert(x, s, IndexAtMost)) == Load(lens, [x] + s)
  {
    if s != [] && !IndexAtMost(x, s[0]) {
      LoadOfInsert(lens, x, s[1..]);
      assert ([x] + s)[1..] == s && ([x] + s[1..])[1..] == s[1..];
    }
  }

  /** Sorting a list changes neither its elements nor its load. */
  lemma {:induction false} SortKeepsLoad(lens: seq<nat>, part: seq<nat>)
    ensures Load(lens, SortedPart(part)) == Load(lens, part)
  {
    if part != [] {
      SortKeepsLoad(lens, part[1..]);
      LoadOfInsert(lens, part[0], Sort(part[1..], IndexAtMost));
      assert ([part[0]] + Sort(part[1..], IndexAtMost))[1..] == Sort(part[1..], IndexAtMost);
    }
  }

  lemma SortedPartAscends(part: seq<nat>)
    requires forall x :: multiset(part)[x] <= 1
    ensures Ascends(SortedPart(part)) && multiset(SortedPart(part)) == multiset(part)
  {
    SortPermutes(part, IndexAtMost);
    SortOrders(part, IndexAtMost);
    var s := SortedPart(part);
    forall i, j | 0 <= i < j < |s| ensures s[i] < s[j] {
      assert IndexAtMost(s[i], s[j]);
      if s[i] == s[j] { CountTwice(s, i, j); }
    }
  }

  lemma {:induction false} SortedConcat(parts: seq<seq<nat>>, sorted: seq<seq<nat>>)
    requires |parts| == |sorted| && forall i :: 0 <= i < |parts| ==> multiset(sorted[i]) == multiset(parts[i])
    ensures multiset(Concat(sorted)) == multiset(Concat(parts))
  {
    if parts != [] { SortedConcat(parts[1..], sorted[1..]); }
  }

  // ---------------------------------------------------------------- get_seqlen_balanced_partitions

  /** What callers get: a balanced partition into non-empty lists, each ascending. */
  ghost predicate SortedBalanced(lens: seq<nat>, k: nat, equal: bool, parts: seq<seq<nat>>)
    requires k > 0
  {
    BalancedPartition(lens, k, equal, parts) && forall p :: p in parts ==> p != [] && Ascends(p)
  }

  lemma SortingKeepsBalance(lens: seq<nat>, k: nat, equal: bool, parts: seq<seq<nat>>, sorted: seq<seq<nat>>)
    requires k > 0 && |lens| >= k && BalancedPartition(lens, k, equal, parts)
    requires |sorted| == k && forall i :: 0 <= i < k ==> sorted[i] == SortedPart(parts[i])
    ensures SortedBalanced(lens, k, equal, sorted)
  {
    hide Load, Concat, BalanceBound, Ascends;
    forall i | 0 <= i < k
      ensures multiset(sorted[i]) == multiset(parts[i]) && Ascends(sorted[i]) && |sorted[i]| == |parts[i]|
      ensures Load(lens, sorted[i]) == Load(lens, parts[i]) && parts[i] in parts
    {
      PartsHaveNoRepeats(parts, |lens|, i);
      SortedPartAscends(parts[i]);
      SortKeepsLoad(lens, parts[i]);
      assert parts[i] in parts;
    }
    SortedConcat(parts, sorted);
  }

  lemma PartsHaveNoRepeats(parts: seq<seq<nat>>, n: nat, i: nat)
    requires CoversOnce(parts, n) && i < |parts|
    ensures forall x :: multiset(parts[i])[x] <= 1
  {
    forall x ensures multiset(parts[i])[x] <= 1 {
      if x in parts[i] { CoversOnceDisjoint(parts, n, i, i, x); }
    }
  }

  /** Some list mentions x. */
  ghost predicate Listed(parts: seq<seq<nat>>, x: nat) {
    exists a :: 0 <= a < |parts| && x in parts[a]
  }

  /** One list per partition, none empty, and the mentioned indices are those below n. */
  ghost predicate PassesCheck(parts: seq<seq<nat>>, k: nat, n: nat) {
    |parts| == k && (forall a :: 0 <= a < k ==> parts[a] != []) && forall x: nat :: Listed(parts, x) <==> x < n
  }

  /** The check after the method; the lists come back sorted. */
  method CheckAndSortPartitions(parts: seq<seq<nat>>, k: nat, n: nat) returns (r: Result<seq<seq<nat>>>)
    ensures r.Ok? <==> PassesCheck(parts, k, n)
    ensures r.Ok? ==> |r.value| == k && forall i :: 0 <= i < k ==> r.value[i] == SortedPart(parts[i])
    ensures r.Failed? ==> r.why == AssertionError
  {
    if |parts| != k { return Failed(AssertionError); }
    var seen: set<nat> := {};
    var sorted: seq<seq<nat>> := [];
    for i := 0 to k
      invariant |sorted| == i && forall j :: 0 <= j < i ==> sorted[j] == SortedPart(parts[j]) && parts[j] != []
      invariant forall x: nat :: x in seen <==> Listed(parts[..i], x)
    {
      if |parts[i]| == 0 { return Failed(AssertionError); }
      for j := 0 to |parts[i]|
        invariant forall x: nat :: x in seen <==> Listed(parts[..i], x) || x in parts[i][..j]
      {
        seen := seen + {parts[i][j]};
      }
      assert parts[i][..|parts[i]|] == parts[i];
      forall x: nat ensures Listed(parts[..i + 1], x) <==> Listed(parts[..i], x) || x in parts[i] {
        ListedOneMore(parts, i, x);
      }
      sorted := sorted + [SortedPart(parts[i])];
    }
    assert parts[..k] == parts;
    if seen != Below(n) {
      assert exists x: nat :: (x in seen) != (x in Below(n));
      return Failed(AssertionError);
    }
    r := Ok(sorted);
  }

  /** `set(range(n))`. */
  function Below(n: nat): (r: set<nat>)
    ensures forall x: nat :: x in r <==> x < n
  {
    if n == 0 then {} else Below(n - 1) + {n - 1}
  }

  lemma ListedOneMore(parts: seq<seq<nat>>, i: nat, x: nat)
    requires i < |parts|
    ensures Listed(parts[..i + 1], x) <==> Listed(parts[..i], x) || x in parts[i]
  {
    var more := parts[..i + 1];
    if Listed(parts[..i], x) {
      var a :| 0 <= a < i && x in parts[..i][a];
      assert x in more[a];
    }
    if x in parts[i] { assert x in more[i]; }
    if Listed(more, x) {
      var a :| 0 <= a < i + 1 && x in more[a];
      if a < i { assert x in parts[..i][a]; }
    }
  }

  function SortedParts(parts: seq<seq<nat>>): (r: seq<seq<nat>>)
    ensures |r| == |parts| && forall i :: 0 <= i < |parts| ==> r[i] == SortedPart(parts[i])
  {
    seq(|parts|, i requires 0 <= i < |parts| => SortedPart(parts[i]))
  }

  /** `get_seqlen_balanced_partitions`: it succeeds exactly for 1 <= k <= n (and k dividing n for equal sizes), and its
      lists depend on the input alone. */
  method GetSeqlenBalancedPartitions(lens: seq<nat>, k: nat, equalSize: bool) returns (r: Result<seq<seq<nat>>>)
    ensures r.Ok? <==> 1 <= k <= |lens| && (equalSize ==> |lens| % k == 0)
    ensures r.Ok? ==> SortedBalanced(lens, k, equalSize, r.value)
    ensures r.Ok? ==> r.value == SortedParts(DifferencedPartitions(lens, k, equalSize))
    ensures |lens| < k ==> r == Failed(AssertionError)
  {
    hide BalancedPartition, DifferencedPartitions, SortedBalanced, PassesCheck, SortedPart;
    if |lens| < k { return Failed(AssertionError); }
    var parts := KarmarkarKarp.Partition(lens, k, equalSize);
    if parts.Failed? { return parts; }
    r := CheckAndSortPartitions(parts.value, k, |lens|);
    BalancedPasses(lens, k, equalSize, parts.value);
    SortingKeepsBalance(lens, k, equalSize, parts.value, r.value);
  }

  lemma BalancedPasses(lens: seq<nat>, k: nat, equal: bool, parts: seq<seq<nat>>)
    requires 1 <= k <= |lens| && BalancedPartition(lens, k, equal, parts)
    ensures |parts| == k && PassesCheck(parts, k, |lens|)
  {
    hide CoversOnce, Load, BalanceBound;
    CoverIsSeen(parts, |lens|);
    assert forall a :: 0 <= a < k ==> parts[a] in parts;
  }

  lemma CoverIsSeen(parts: seq<seq<nat>>, n: nat)
    requires CoversOnce(parts, n)
    ensures forall x: nat :: Listed(parts, x) <==> x < n
  {
    forall x: nat ensures Listed(parts, x) <==> x < n {
      if x < n {
        CoversOnceComplete(parts, n, x);
      } else if Listed(parts, x) {
        var a :| 0 <= a < |parts| && x in parts[a];
        CoversOnceDisjoint(parts, n, a, a, x);
      }
    }
  }
}
