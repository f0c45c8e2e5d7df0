/** Stacking, selecting and adding up, shared by the models. */
module Sequences {
  import opened Arith

  // ---------------------------------------------------------------- stacking

  function Concat<T>(parts: seq<seq<T>>): seq<T> {
    if parts == [] then [] else parts[0] + Concat(parts[1..])
  }

  lemma ConcatCount<T>(parts: seq<seq<T>>)
    requires parts != []
    ensures multiset(Concat(parts)) == multiset(parts[0]) + multiset(Concat(parts[1..]))
    ensures |Concat(parts)| == |parts[0]| + |Concat(parts[1..])|
  {
  }

  lemma {:induction false} ConcatOfTwo<T>(a: seq<seq<T>>, b: seq<seq<T>>)
    ensures Concat(a + b) == Concat(a) + Concat(b)
  {
    if a == [] {
      assert a + b == b;
    } else {
      assert (a + b)[1..] == a[1..] + b;
      ConcatOfTwo(a[1..], b);
    }
  }

  ghost predicate AllOfLength<T>(blocks: seq<seq<T>>, size: nat) {
    forall b :: b in blocks ==> |b| == size
  }

  lemma {:induction false} ConcatLength<T>(blocks: seq<seq<T>>, g: nat)
    requires AllOfLength(blocks, g)
    ensures |Concat(blocks)| == |blocks| * g
  {
    if blocks != [] {
      assert blocks[0] in blocks;
      MulSucc(|blocks| - 1, g);
      ConcatLength(blocks[1..], g);
    }
  }

  lemma AfterFirst<T>(a: seq<T>, b: seq<T>, k: nat)
    requires k < |b|
    ensures (a + b)[|a| + k] == b[k]
  {
  }

  /** Element j of block k is element k*g + j of the whole. */
  lemma {:induction false} ConcatAt<T>(blocks: seq<seq<T>>, g: nat, k: nat, j: nat)
    requires AllOfLength(blocks, g) && k < |blocks| && j < g
    ensures blocks[k] in blocks && 0 <= k * g + j < |Concat(blocks)| && Concat(blocks)[k * g + j] == blocks[k][j]
  {
    assert blocks[0] in blocks;
    if k > 0 {
      MulSucc(k - 1, g);
      ConcatAt(blocks[1..], g, k - 1, j);
      AfterFirst(blocks[0], Concat(blocks[1..]), (k - 1) * g + j);
    }
  }

  // ---------------------------------------------------------------- cutting

  /** Consecutive pieces of `size` rows (the last may be shorter). */
  function Cut<T>(full: seq<T>, size: nat): seq<seq<T>>
    requires size > 0
  {
    if full == [] then [] else
    if |full| <= size then [full] else [full[..size]] + Cut(full[size..], size)
  }

  /** Whole blocks are cut apart exactly. */
  lemma {:induction false} CutWhole<T>(full: seq<T>, size: nat, n: nat)
    requires size > 0 && |full| == n * size
    ensures |Cut(full, size)| == n && AllOfLength(Cut(full, size), size) && Concat(Cut(full, size)) == full
  {
    if n > 0 {
      MulSucc(n - 1, size);
      MulMonotone(0, n - 1, size);
      if n == 1 {
        assert Cut(full, size) == [full];
      } else {
        MulMonotone(1, n - 1, size);
        CutWhole(full[size..], size, n - 1);
        assert full == full[..size] + full[size..];
      }
    }
  }

  /** Cutting two stacks of whole blocks is cutting each. */
  lemma {:induction false} CutOfConcat<T>(a: seq<T>, b: seq<T>, size: nat, m: nat)
    requires size > 0 && |a| == m * size
    ensures Cut(a + b, size) == Cut(a, size) + Cut(b, size)
  {
    if m == 0 {
      assert a + b == b;
    } else {
      MulSucc(m - 1, size);
      MulMonotone(0, m - 1, size);
      CutFirst(a, b, size);
      CutFirst(a, [], size);
      assert a + [] == a;
      CutOfConcat(a[size..], b, size, m - 1);
    }
  }

  lemma CutFirst<T>(a: seq<T>, b: seq<T>, size: nat)
    requires size > 0 && |a| >= size
    ensures Cut(a + b, size) == [a[..size]] + Cut(a[size..] + b, size)
  {
    assert (a + b)[..size] == a[..size] && (a + b)[size..] == a[size..] + b;
    if |a + b| == size { assert a + b == a[..size]; }
  }

  // ---------------------------------------------------------------- selecting

  ghost predicate Distinct<T>(s: seq<T>) {
    forall i, j :: 0 <= i < j < |s| ==> s[i] != s[j]
  }

  ghost predicate InRange(part: seq<nat>, n: nat) {
    forall i :: 0 <= i < |part| ==> part[i] < n
  }

  /** The rows at the given positions, in that order. */
  function Gather<T>(rows: seq<T>, part: seq<nat>): (r: seq<T>)
    requires InRange(part, |rows|)
    ensures |r| == |part| && forall i :: 0 <= i < |part| ==> r[i] == rows[part[i]]
  {
    seq(|part|, i requires 0 <= i < |part| => rows[part[i]])
  }

  lemma GatherOfConcat<T>(rows: seq<T>, a: seq<nat>, b: seq<nat>)
    requires InRange(a, |rows|) && InRange(b, |rows|)
    ensures InRange(a + b, |rows|) && Gather(rows, a + b) == Gather(rows, a) + Gather(rows, b)
  {
  }

  // ---------------------------------------------------------------- adding up

  function Max(a: nat, b: nat): nat { if a >= b then a else b }
  function Min(a: nat, b: nat): nat { if a <= b then a else b }

  function MaxOf(xs: seq<nat>, least: nat): nat {
    if xs == [] then least else Max(xs[0], MaxOf(xs[1..], least))
  }

  lemma {:induction false} MaxOfBounds(xs: seq<nat>, least: nat)
    ensures MaxOf(xs, least) >= least && forall i :: 0 <= i < |xs| ==> xs[i] <= MaxOf(xs, least)
    ensures MaxOf(xs, least) == least || MaxOf(xs, least) in xs
  {
    if xs != [] { MaxOfBounds(xs[1..], least); }
  }

  function SumOf(xs: seq<nat>): nat {
    if xs == [] then 0 else xs[0] + SumOf(xs[1..])
  }

  lemma {:induction false} NumelOfConcat(a: seq<nat>, b: seq<nat>)
    ensures Numel(a + b) == Numel(a) * Numel(b)
    ensures forall n: nat :: Numel([n]) == n
  {
    if a == [] {
      assert a + b == b;
    } else {
      assert (a + b)[1..] == a[1..] + b;
      NumelOfConcat(a[1..], b);
      assert a[0] * (Numel(a[1..]) * Numel(b)) == (a[0] * Numel(a[1..])) * Numel(b);
    }
  }

  /** The number of elements of a shape. */
  function Numel(shape: seq<nat>): nat {
    if shape == [] then 1 else shape[0] * Numel(shape[1..])
  }
}
