/** Un-interleaving fused attention weights: the rows of each key-value group are its query rows, then
    its key rows, then its value rows. */
module FusedQkv {
  import opened Sequences
  import opened Arith

  // ---------------------------------------------------------------- slices of blocks

  /** Rows lo..hi of every block. */
  function Slices<T>(blocks: seq<seq<T>>, lo: nat, hi: nat): seq<T>
    requires lo <= hi && forall b :: b in blocks ==> hi <= |b|
  {
    if blocks == [] then [] else
    assert blocks[0] in blocks;
    blocks[0][lo..hi] + Slices(blocks[1..], lo, hi)
  }

  lemma {:induction false} SlicesOfConcat<T>(a: seq<seq<T>>, b: seq<seq<T>>, lo: nat, hi: nat)
    requires lo <= hi && (forall x :: x in a ==> hi <= |x|) && (forall x :: x in b ==> hi <= |x|)
    ensures Slices(a + b, lo, hi) == Slices(a, lo, hi) + Slices(b, lo, hi)
  {
    if a == [] {
      assert a + b == b;
    } else {
      assert (a + b)[1..] == a[1..] + b;
      SlicesOfConcat(a[1..], b, lo, hi);
    }
  }

  lemma {:induction false} SlicesLength<T>(blocks: seq<seq<T>>, lo: nat, hi: nat)
    requires lo <= hi && forall b :: b in blocks ==> hi <= |b|
    ensures |Slices(blocks, lo, hi)| == |blocks| * (hi - lo)
  {
    if blocks != [] {
      MulSucc(|blocks| - 1, hi - lo);
      SlicesLength(blocks[1..], lo, hi);
    }
  }

  /** Row x of block g's slice is row lo + x of block g. */
  lemma {:induction false} SlicesAt<T>(blocks: seq<seq<T>>, lo: nat, hi: nat, g: nat, x: nat)
    requires lo <= hi && (forall b :: b in blocks ==> hi <= |b|) && g < |blocks| && x < hi - lo
    ensures blocks[g] in blocks && lo + x < |blocks[g]|
    ensures 0 <= g * (hi - lo) + x < |Slices(blocks, lo, hi)|
    ensures Slices(blocks, lo, hi)[g * (hi - lo) + x] == blocks[g][lo + x]
  {
    assert blocks[0] in blocks;
    if g > 0 {
      SlicesAt(blocks[1..], lo, hi, g - 1, x);
      MulSucc(g - 1, hi - lo);
      AfterFirst(blocks[0][lo..hi], Slices(blocks[1..], lo, hi), (g - 1) * (hi - lo) + x);
    }
  }

  /** Three adjacent slices of every block hold each row once. */
  lemma {:induction false} SlicesPartition<T>(blocks: seq<seq<T>>, i: nat, j: nat, size: nat)
    requires i <= j <= size && AllOfLength(blocks, size)
    ensures multiset(Concat(blocks)) ==
      multiset(Slices(blocks, 0, i)) + multiset(Slices(blocks, i, j)) + multiset(Slices(blocks, j, size))
  {
    if blocks != [] {
      var b := blocks[0];
      assert b in blocks;
      assert b == b[0..i] + (b[i..j] + b[j..size]);
      SlicesPartition(blocks[1..], i, j, size);
    }
  }

  // ---------------------------------------------------------------- the reference layout

  datatype Qkv<T> = Qkv(q: seq<T>, k: seq<T>, v: seq<T>) {
    function Plus(other: Qkv<T>): Qkv<T> { Qkv(q + other.q, k + other.k, v + other.v) }
  }

  /** Rows of one group: q query rows, then d key rows, then d value rows. */
  function GroupRows(q: nat, d: nat): nat { q + d + d }

  /** The query, key and value rows of a list of groups. */
  function Unfused<T>(groups: seq<seq<T>>, q: nat, d: nat): Qkv<T>
    requires AllOfLength(groups, GroupRows(q, d))
  {
    Qkv(Slices(groups, 0, q), Slices(groups, q, q + d), Slices(groups, q + d, q + d + d))
  }

  lemma UnfusedOfConcat<T>(a: seq<seq<T>>, b: seq<seq<T>>, q: nat, d: nat)
    requires AllOfLength(a, GroupRows(q, d)) && AllOfLength(b, GroupRows(q, d))
    ensures AllOfLength(a + b, GroupRows(q, d))
    ensures Unfused(a + b, q, d) == Unfused(a, q, d).Plus(Unfused(b, q, d))
  {
    hide Slices;
    SlicesOfConcat(a, b, 0, q);
    SlicesOfConcat(a, b, q, q + d);
    SlicesOfConcat(a, b, q + d, q + d + d);
  }

  /** Each fused row lands in exactly one of the three results: as multisets nothing is lost or doubled ... */
  lemma UnfusedConserves<T>(groups: seq<seq<T>>, q: nat, d: nat)
    requires AllOfLength(groups, GroupRows(q, d))
    ensures var u := Unfused(groups, q, d);
      multiset(Concat(groups)) == multiset(u.q) + multiset(u.k) + multiset(u.v)
  {
    hide Slices, Concat;
    SlicesPartition(groups, q, q + d, q + d + d);
  }

  /** ... and row by row: row x of group g goes to the query, key or value rows of that group. */
  lemma UnfusedAt<T>(groups: seq<seq<T>>, q: nat, d: nat, g: nat, x: nat)
    requires AllOfLength(groups, GroupRows(q, d)) && g < |groups| && x < GroupRows(q, d)
    ensures groups[g] in groups
    ensures var u := Unfused(groups, q, d);
      if x < q then 0 <= g * q + x < |u.q| && u.q[g * q + x] == groups[g][x]
      else if x < q + d then 0 <= g * d + (x - q) < |u.k| && u.k[g * d + (x - q)] == groups[g][x]
      else 0 <= g * d + (x - q - d) < |u.v| && u.v[g * d + (x - q - d)] == groups[g][x]
  {
    hide Slices;
    if x < q {
      SlicesAt(groups, 0, q, g, x);
    } else if x < q + d {
      SlicesAt(groups, q, q + d, g, x - q);
    } else {
      SlicesAt(groups, q + d, q + d + d, g, x - q - d);
    }
  }
}
