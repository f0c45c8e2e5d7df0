/** Removing the padding of a batch and putting it back, with the hand-written gradients. */
module Unpadding {
  import opened Sequences
  import opened Prelude

  /** One token's features. */
  type Row = seq<real>

  function ZeroRow(width: nat): (r: Row)
    ensures |r| == width && forall i :: 0 <= i < width ==> r[i] == 0.0
  {
    seq(width, i => 0.0)
  }

  ghost predicate OfWidth(rows: seq<Row>, width: nat) {
    forall i :: 0 <= i < |rows| ==> |rows[i]| == width
  }

  // ---------------------------------------------------------------- gather and scatter

  /** `IndexFirstAxis.forward`: the rows at the indices. */
  function IndexFirstAxis(input: seq<Row>, indices: seq<nat>): (r: seq<Row>)
    requires forall i :: 0 <= i < |indices| ==> indices[i] < |input|
    ensures |r| == |indices| && forall i :: 0 <= i < |indices| ==> r[i] == input[indices[i]]
  {
    seq(|indices|, i requires 0 <= i < |indices| => input[indices[i]])
  }

  /** Rows written one after the other into a zero buffer of n rows. */
  function Scattered(values: seq<Row>, indices: seq<nat>, n: nat, width: nat): (r: seq<Row>)
    requires |values| == |indices| && forall i :: 0 <= i < |indices| ==> indices[i] < n
    ensures |r| == n
  {
    if indices == [] then seq(n, i => ZeroRow(width)) else
    var last := |indices| - 1;
    Scattered(values[..last], indices[..last], n, width)[indices[last] := values[last]]
  }

  /** `IndexPutFirstAxis.forward` and `IndexFirstAxis.backward`: a fresh zero buffer, written in place. */
  method IndexPutFirstAxis(values: seq<Row>, indices: seq<nat>, n: nat, width: nat) returns (r: Result<seq<Row>>)
    requires |values| == |indices|
    ensures r.Ok? <==> forall i :: 0 <= i < |indices| ==> indices[i] < n
    ensures r.Ok? ==> r.value == Scattered(values, indices, n, width)
    ensures r.Failed? ==> r.why == IndexError
  {
    var output := seq(n, i => ZeroRow(width));
    for i := 0 to |indices|
      invariant |output| == n && forall j :: 0 <= j < i ==> indices[j] < n
      invariant output == Scattered(values[..i], indices[..i], n, width)
    {
      if indices[i] >= n { return Failed(IndexError); }
      output := output[indices[i] := values[i]];
      assert values[..i + 1][..i] == values[..i] && indices[..i + 1][..i] == indices[..i];
    }
    assert values[..|indices|] == values && indices[..|indices|] == indices;
    r := Ok(output);
  }

  ghost predicate DistinctBelow(indices: seq<nat>, n: nat) {
    (forall i :: 0 <= i < |indices| ==> indices[i] < n) &&
    forall i, j :: 0 <= i < j < |indices| ==> indices[i] != indices[j]
  }

  /** Position j holds the row written there, or zeros. */
  lemma {:induction false} ScatteredAt(values: seq<Row>, indices: seq<nat>, n: nat, width: nat)
    requires |values| == |indices| && DistinctBelow(indices, n)
    ensures forall i :: 0 <= i < |indices| ==> Scattered(values, indices, n, width)[indices[i]] == values[i]
    ensures forall j :: 0 <= j < n && j !in indices ==> Scattered(values, indices, n, width)[j] == ZeroRow(width)
  {
    if indices != [] {
      var last := |indices| - 1;
      var before := Scattered(values[..last], indices[..last], n, width);
      ScatteredAt(values[..last], indices[..last], n, width);
      var after := Scattered(values, indices, n, width);
      assert after == before[indices[last] := values[last]];
      hide Scattered, ZeroRow;
      forall i | 0 <= i < last ensures after[indices[i]] == values[i] {
        assert indices[..last][i] == indices[i] && values[..last][i] == values[i] && indices[i] != indices[last];
      }
      forall j | 0 <= j < n && j !in indices ensures after[j] == ZeroRow(width) {
        assert j != indices[last] && j !in indices[..last];
      }
    }
  }

  /** The last index that writes to position j. */
  ghost predicate LastWriter(indices: seq<nat>, j: nat, i: nat) {
    i < |indices| && indices[i] == j && forall l :: i < l < |indices| ==> indices[l] != j
  }

  /** With repeated indices the last write stays. */
  lemma {:induction false} LastWriteStays(values: seq<Row>, indices: seq<nat>, n: nat, width: nat, i: nat)
    requires |values| == |indices| && (forall l :: 0 <= l < |indices| ==> indices[l] < n)
    requires i < |indices| && LastWriter(indices, indices[i], i)
    ensures Scattered(values, indices, n, width)[indices[i]] == values[i]
  {
    var last := |indices| - 1;
    if i < last {
      assert LastWriter(indices[..last], indices[i], i);
      LastWriteStays(values[..last], indices[..last], n, width, i);
    }
  }

  // ---------------------------------------------------------------- the gradients

  function Dot(x: Row, y: Row): real {
    if x == [] || y == [] then 0.0 else x[0] * y[0] + Dot(x[1..], y[1..])
  }

  /** The inner product of two lists of rows. */
  function Inner(xs: seq<Row>, ys: seq<Row>): real {
    if xs == [] || ys == [] then 0.0 else Inner(xs[..|xs| - 1], ys[..|ys| - 1]) + Dot(xs[|xs| - 1], ys[|ys| - 1])
  }

  /** Both are sums over parts. */
  lemma {:induction false} DotOfConcat(a: Row, b: Row, x: Row, y: Row)
    requires |a| == |x| && |b| == |y|
    ensures Dot(a + b, x + y) == Dot(a, x) + Dot(b, y)
    ensures forall p, q :: Dot([p], [q]) == p * q
  {
    if a == [] {
      assert a + b == b && x + y == y;
    } else {
      assert (a + b)[1..] == a[1..] + b && (x + y)[1..] == x[1..] + y;
      DotOfConcat(a[1..], b, x[1..], y);
    }
  }

  lemma {:induction false} InnerOfConcat(xs: seq<Row>, us: seq<Row>, ys: seq<Row>, vs: seq<Row>)
    requires |xs| == |ys| && |us| == |vs|
    ensures Inner(xs + us, ys + vs) == Inner(xs, ys) + Inner(us, vs)
    ensures forall x, y :: Inner([x], [y]) == Dot(x, y)
  {
    hide Dot;
    if us == [] {
      assert xs + us == xs && ys + vs == ys;
    } else {
      var last := |us| - 1;
      assert (xs + us)[..|xs + us| - 1] == xs + us[..last] && (ys + vs)[..|ys + vs| - 1] == ys + vs[..last];
      InnerOfConcat(xs, us[..last], ys, vs[..last]);
    }
  }

  lemma {:induction false} DotWithZero(x: Row)
    ensures Dot(x, ZeroRow(|x|)) == 0.0
  {
    if x != [] {
      assert ZeroRow(|x|)[1..] == ZeroRow(|x| - 1);
      DotWithZero(x[1..]);
    }
  }

  lemma {:induction false} InnerWithZeros(xs: seq<Row>, width: nat)
    requires OfWidth(xs, width)
    ensures Inner(xs, seq(|xs|, i => ZeroRow(width))) == 0.0
  {
    if xs != [] {
      var zeros: seq<Row> := seq(|xs|, i => ZeroRow(width));
      assert zeros[..|xs| - 1] == seq(|xs| - 1, i => ZeroRow(width));
      InnerWithZeros(xs[..|xs| - 1], width);
      DotWithZero(xs[|xs| - 1]);
    }
  }

  /** Writing row v over a zero row adds its product with that position. */
  lemma {:induction false} InnerUpdate(xs: seq<Row>, ys: seq<Row>, j: nat, v: Row, width: nat)
    requires |xs| == |ys| && OfWidth(xs, width) && OfWidth(ys, width) && j < |xs| && |v| == width
    requires ys[j] == ZeroRow(width)
    ensures Inner(xs, ys[j := v]) == Inner(xs, ys) + Dot(xs[j], v)
  {
    var last := |xs| - 1;
    if j == last {
      assert ys[j := v][..last] == ys[..last];
      DotWithZero(xs[j]);
    } else {
      assert ys[j := v][..last] == ys[..last][j := v];
      InnerUpdate(xs[..last], ys[..last], j, v, width);
    }
  }

  lemma {:induction false} ScatteredWidth(values: seq<Row>, indices: seq<nat>, n: nat, width: nat)
    requires |values| == |indices| && OfWidth(values, width) && forall i :: 0 <= i < |indices| ==> indices[i] < n
    ensures OfWidth(Scattered(values, indices, n, width), width)
  {
    if indices != [] {
      var last := |indices| - 1;
      ScatteredWidth(values[..last], indices[..last], n, width);
    }
  }

  /** Gathering and scattering are adjoint: the product of a gathered input with a gradient is the
      product of the input with the scattered gradient.  So each backward is the transpose of its forward. */
  lemma {:induction false} GatherScatterAdjoint(input: seq<Row>, grads: seq<Row>, indices: seq<nat>, width: nat)
    requires OfWidth(input, width) && OfWidth(grads, width) && |grads| == |indices| && DistinctBelow(indices, |input|)
    ensures OfWidth(IndexFirstAxis(input, indices), width)
    ensures OfWidth(Scattered(grads, indices, |input|, width), width)
    ensures Inner(IndexFirstAxis(input, indices), grads) == Inner(input, Scattered(grads, indices, |input|, width))
  {
    hide Dot, ZeroRow, Inner, Scattered, IndexFirstAxis;
    ScatteredWidth(grads, indices, |input|, width);
    if indices == [] {
      NothingScattered(input, grads, indices, width);
    } else {
      var last := |indices| - 1;
      var init, g := indices[..last], grads[..last];
      GatherScatterAdjoint(input, g, init, width);
      assert indices[last] !in init;
      ScatteredAt(g, init, |input|, width);
      InnerUpdate(input, Scattered(g, init, |input|, width), indices[last], grads[last], width);
      LastGathered(input, grads, indices);
      LastScattered(grads, indices, |input|, width);
    }
  }

  lemma NothingScattered(input: seq<Row>, grads: seq<Row>, indices: seq<nat>, width: nat)
    requires OfWidth(input, width) && indices == [] && grads == []
    ensures |Scattered(grads, indices, |input|, width)| == |input|
    ensures OfWidth(Scattered(grads, indices, |input|, width), width)
    ensures Inner(IndexFirstAxis(input, indices), grads) == Inner(input, Scattered(grads, indices, |input|, width))
  {
    InnerWithZeros(input, width);
  }

  lemma LastGathered(input: seq<Row>, grads: seq<Row>, indices: seq<nat>)
    requires |grads| == |indices| && indices != [] && forall i :: 0 <= i < |indices| ==> indices[i] < |input|
    ensures var last := |indices| - 1;
      Inner(IndexFirstAxis(input, indices), grads) ==
        Inner(IndexFirstAxis(input, indices[..last]), grads[..last]) + Dot(input[indices[last]], grads[last])
  {
    hide Dot;
    PrefixGathered(input, indices);
  }

  lemma LastScattered(grads: seq<Row>, indices: seq<nat>, n: nat, width: nat)
    requires |grads| == |indices| && indices != [] && forall i :: 0 <= i < |indices| ==> indices[i] < n
    ensures var last := |indices| - 1;
      Scattered(grads, indices, n, width) == Scattered(grads[..last], indices[..last], n, width)[indices[last] := grads[last]]
  {
  }

  lemma PrefixGathered(input: seq<Row>, indices: seq<nat>)
    requires indices != [] && forall i :: 0 <= i < |indices| ==> indices[i] < |input|
    ensures IndexFirstAxis(input, indices)[..|indices| - 1] == IndexFirstAxis(input, indices[..|indices| - 1])
  {
  }

  // ---------------------------------------------------------------- masks

  /** Nonzero positions of a flattened mask, counted from `base`. */
  function NonZero(mask: seq<nat>, base: nat): seq<nat> {
    if mask == [] then [] else
    (if mask[0] != 0 then [base] else []) + NonZero(mask[1..], base + 1)
  }

  /** The rows at the nonzero positions, in order. */
  function Kept(rows: seq<Row>, mask: seq<nat>): seq<Row>
    requires |rows| == |mask|
  {
    if mask == [] then [] else
    (if mask[0] != 0 then [rows[0]] else []) + Kept(rows[1..], mask[1..])
  }

  lemma {:induction false} NonZeroIsDistinct(mask: seq<nat>, base: nat)
    ensures forall i :: 0 <= i < |NonZero(mask, base)| ==> base <= NonZero(mask, base)[i] < base + |mask|
    ensures forall i, j :: 0 <= i < j < |NonZero(mask, base)| ==> NonZero(mask, base)[i] < NonZero(mask, base)[j]
    ensures forall j :: 0 <= j < |mask| ==> (base + j in NonZero(mask, base) <==> mask[j] != 0)
  {
    if mask != [] {
      NonZeroIsDistinct(mask[1..], base + 1);
      var head, tail := if mask[0] != 0 then [base] else [], NonZero(mask[1..], base + 1);
      forall j | 0 <= j < |mask| ensures base + j in NonZero(mask, base) <==> mask[j] != 0 {
        if j > 0 { assert base + j == (base + 1) + (j - 1); }
        assert base !in tail;
      }
    }
  }

  lemma GatherCons(input: seq<Row>, i: nat, tail: seq<nat>)
    requires i < |input| && forall k :: 0 <= k < |tail| ==> tail[k] < |input|
    ensures forall k :: 0 <= k < |[i] + tail| ==> ([i] + tail)[k] < |input|
    ensures IndexFirstAxis(input, [i] + tail) == [input[i]] + IndexFirstAxis(input, tail)
  {
  }

  /** Gathering the nonzero positions keeps exactly the marked rows. */
  lemma {:induction false} GatherKeeps(rows: seq<Row>, before: seq<Row>, mask: seq<nat>)
    requires |rows| == |mask|
    ensures forall i :: 0 <= i < |NonZero(mask, |before|)| ==> NonZero(mask, |before|)[i] < |before + rows|
    ensures IndexFirstAxis(before + rows, NonZero(mask, |before|)) == Kept(rows, mask)
  {
    hide IndexFirstAxis;
    if mask != [] {
      var tail := NonZero(mask[1..], |before| + 1);
      assert before + rows == (before + [rows[0]]) + rows[1..];
      GatherKeeps(rows[1..], before + [rows[0]], mask[1..]);
      assert IndexFirstAxis(before + rows, tail) == Kept(rows[1..], mask[1..]);
      if mask[0] != 0 {
        GatherCons(before + rows, |before|, tail);
      } else {
        assert [] + tail == tail;
      }
    }
  }

  lemma {:induction false} KeptOfConcat(a: seq<Row>, b: seq<Row>, m: seq<nat>, n: seq<nat>)
    requires |a| == |m| && |b| == |n|
    ensures Kept(a + b, m + n) == Kept(a, m) + Kept(b, n)
  {
    if m == [] {
      assert a + b == b && m + n == n;
    } else {
      assert (a + b)[1..] == a[1..] + b && (m + n)[1..] == m[1..] + n;
      KeptOfConcat(a[1..], b, m[1..], n);
    }
  }

  /** A 0/1 mask's sum counts its kept rows; overlapping masks (entries above 1) count too much. */
  lemma {:induction false} SumCountsKept(rows: seq<Row>, mask: seq<nat>)
    requires |rows| == |mask|
    ensures |Kept(rows, mask)| <= SumOf(mask)
    ensures SumOf(mask) == |Kept(rows, mask)| <==> AtMostOnce(mask)
  {
    if mask != [] {
      SumCountsKept(rows[1..], mask[1..]);
      assert mask == [mask[0]] + mask[1..];
    }
  }

  // ---------------------------------------------------------------- unpad and pad

  /** The padded batch: rows[b][s], with a mask of the same shape. */
  ghost predicate Shaped<T>(rows: seq<seq<T>>, batch: nat, seqlen: nat) {
    |rows| == batch && forall b :: 0 <= b < batch ==> |rows[b]| == seqlen
  }

  /** Elementwise sum of the attention mask and the unused mask. */
  function AddMasks(a: seq<seq<nat>>, b: seq<seq<nat>>): (r: seq<seq<nat>>)
    requires |a| == |b| && forall i :: 0 <= i < |a| ==> |a[i]| == |b[i]|
    ensures |r| == |a| && forall i :: 0 <= i < |a| ==>
      |r[i]| == |a[i]| && forall j :: 0 <= j < |a[i]| ==> r[i][j] == a[i][j] + b[i][j]
  {
    seq(|a|, i requires 0 <= i < |a| => seq(|a[i]|, j requires 0 <= j < |a[i]| => a[i][j] + b[i][j]))
  }

  /** `F.pad(cumsum(seqlens), (1, 0))`. */
  function CuSeqlens(mask: seq<seq<nat>>): (r: seq<nat>)
    ensures |r| == |mask| + 1
  {
    if mask == [] then [0] else
    CuSeqlens(mask[..|mask| - 1]) + [CuSeqlens(mask[..|mask| - 1])[|mask| - 1] + SumOf(mask[|mask| - 1])]
  }

  lemma ShapedLength<T>(rows: seq<seq<T>>, batch: nat, seqlen: nat)
    requires Shaped(rows, batch, seqlen)
    ensures |Concat(rows)| == batch * seqlen
  {
    assert AllOfLength(rows, seqlen);
    ConcatLength(rows, seqlen);
  }

  /** The kept rows of each sequence of the batch, one list per sequence. */
  function KeptRows(hidden: seq<seq<Row>>, mask: seq<seq<nat>>): (r: seq<seq<Row>>)
    requires |hidden| == |mask| && forall b :: 0 <= b < |mask| ==> |hidden[b]| == |mask[b]|
    ensures |r| == |mask| && forall b :: 0 <= b < |mask| ==> r[b] == Kept(hidden[b], mask[b])
  {
    if mask == [] then [] else [Kept(hidden[0], mask[0])] + KeptRows(hidden[1..], mask[1..])
  }

  lemma {:induction false} KeptOfBatch(hidden: seq<seq<Row>>, mask: seq<seq<nat>>)
    requires |hidden| == |mask| && forall b :: 0 <= b < |mask| ==> |hidden[b]| == |mask[b]|
    ensures |Concat(hidden)| == |Concat(mask)|
    ensures Kept(Concat(hidden), Concat(mask)) == Concat(KeptRows(hidden, mask))
  {
    if mask != [] {
      KeptOfBatch(hidden[1..], mask[1..]);
      KeptOfConcat(hidden[0], Concat(hidden[1..]), mask[0], Concat(mask[1..]));
    }
  }

  datatype Unpadded = Unpadded(hidden: seq<Row>, indices: seq<nat>, cuSeqlens: seq<nat>, maxSeqlen: nat, used: seq<nat>)

  function RowSums(mask: seq<seq<nat>>): (r: seq<nat>)
    ensures |r| == |mask| && forall b :: 0 <= b < |mask| ==> r[b] == SumOf(mask[b])
  {
    seq(|mask|, b requires 0 <= b < |mask| => SumOf(mask[b]))
  }

  /** The mask that decides what is kept. */
  function AllMasks(attention: seq<seq<nat>>, unused: Option<seq<seq<nat>>>, batch: nat, seqlen: nat): (r: seq<seq<nat>>)
    requires Shaped(attention, batch, seqlen) && (unused.Some? ==> Shaped(unused.value, batch, seqlen))
    ensures Shaped(r, batch, seqlen)
  {
    if unused.Some? then AddMasks(attention, unused.value) else attention
  }

  /** `unpad_input`; the unused mask may be absent. */
  function UnpadInput(hidden: seq<seq<Row>>, attention: seq<seq<nat>>, unused: Option<seq<seq<nat>>>,
                      batch: nat, seqlen: nat): Unpadded
    requires Shaped(hidden, batch, seqlen) && Shaped(attention, batch, seqlen)
    requires unused.Some? ==> Shaped(unused.value, batch, seqlen)
  {
    var all := AllMasks(attention, unused, batch, seqlen);
    var indices := NonZero(Concat(all), 0);
    ShapedLength(hidden, batch, seqlen);
    ShapedLength(all, batch, seqlen);
    NonZeroIsDistinct(Concat(all), 0);
    Unpadded(IndexFirstAxis(Concat(hidden), indices), indices, CuSeqlens(all), MaxOf(RowSums(all), 0), RowSums(attention))
  }

  lemma {:induction false} SumIsZero(row: seq<nat>)
    ensures SumOf(row) == 0 <==> forall j :: 0 <= j < |row| ==> row[j] == 0
  {
    if row != [] {
      SumIsZero(row[1..]);
      assert row == [row[0]] + row[1..];
    }
  }

  lemma {:induction false} SumOfRows(a: seq<nat>, b: seq<nat>, both: seq<nat>)
    requires |a| == |b| == |both| && forall j :: 0 <= j < |a| ==> both[j] == a[j] + b[j]
    ensures SumOf(both) == SumOf(a) + SumOf(b)
  {
    if a != [] { SumOfRows(a[1..], b[1..], both[1..]); }
  }

  /** The unused mask marks nothing in sequence b. */
  predicate NothingUnused(unused: Option<seq<seq<nat>>>, b: nat)
    requires unused.Some? ==> b < |unused.value|
  {
    unused.Some? ==> forall j :: 0 <= j < |unused.value[b]| ==> unused.value[b][j] == 0
  }

  /** The reported maximum is the longest sequence under both masks; the reported uses count the attention mask alone,
      and so both masks, as documented, exactly for the sequences the unused mask leaves alone. */
  lemma UnpadMeasures(hidden: seq<seq<Row>>, attention: seq<seq<nat>>, unused: Option<seq<seq<nat>>>,
                      batch: nat, seqlen: nat, b: nat)
    requires Shaped(hidden, batch, seqlen) && Shaped(attention, batch, seqlen) && b < batch
    requires unused.Some? ==> Shaped(unused.value, batch, seqlen)
    ensures var (u, all) := (UnpadInput(hidden, attention, unused, batch, seqlen), AllMasks(attention, unused, batch, seqlen));
      SumOf(all[b]) <= u.maxSeqlen && (exists c :: 0 <= c < batch && SumOf(all[c]) == u.maxSeqlen)
      && |u.used| == batch && u.used[b] == SumOf(attention[b])
      && (u.used[b] == SumOf(all[b]) <==> NothingUnused(unused, b))
  {
    hide SumOf, NonZero, IndexFirstAxis, CuSeqlens, MaxOf;
    if unused.Some? {
      SumOfRows(attention[b], unused.value[b], AddMasks(attention, unused.value)[b]);
      SumIsZero(unused.value[b]);
    }
    var all := AllMasks(attention, unused, batch, seqlen);
    MaxOfBounds(RowSums(all), 0);
    if MaxOf(RowSums(all), 0) == 0 { assert RowSums(all)[b] == 0; }
  }

  /** Unpadding concatenates the kept rows of the sequences, in order. */
  lemma UnpadKeeps(hidden: seq<seq<Row>>, attention: seq<seq<nat>>, unused: Option<seq<seq<nat>>>, batch: nat, seqlen: nat)
    requires Shaped(hidden, batch, seqlen) && Shaped(attention, batch, seqlen)
    requires unused.Some? ==> Shaped(unused.value, batch, seqlen)
    ensures UnpadInput(hidden, attention, unused, batch, seqlen).hidden ==
      Concat(KeptRows(hidden, AllMasks(attention, unused, batch, seqlen)))
  {
    var all := AllMasks(attention, unused, batch, seqlen);
    ShapedLength(hidden, batch, seqlen);
    ShapedLength(all, batch, seqlen);
    GatherKeeps(Concat(hidden), [], Concat(all));
    assert [] + Concat(hidden) == Concat(hidden);
    KeptOfBatch(hidden, all);
  }

  ghost predicate AtMostOnce(row: seq<nat>) {
    forall i :: 0 <= i < |row| ==> row[i] <= 1
  }

  /** No position is marked twice. */
  ghost predicate NoOverlap(mask: seq<seq<nat>>) {
    forall b :: 0 <= b < |mask| ==> AtMostOnce(mask[b])
  }

  lemma {:induction false} ConcatPrefixLength(lists: seq<seq<Row>>, mask: seq<seq<nat>>, b: nat)
    requires |lists| == |mask| && b < |mask| && forall i :: 0 <= i <= b ==> |lists[i]| == SumOf(mask[i])
    ensures CuSeqlens(mask[..b + 1])[b + 1] == CuSeqlens(mask[..b])[b] + |lists[b]|
    ensures |Concat(lists[..b])| == CuSeqlens(mask[..b])[b]
  {
    assert mask[..b + 1][..b] == mask[..b];
    if b > 0 {
      ConcatPrefixLength(lists, mask, b - 1);
      assert lists[..b] == lists[..b - 1] + [lists[b - 1]];
      ConcatOfLast(lists[..b - 1], lists[b - 1]);
    }
  }

  lemma ConcatOfLast<T>(a: seq<seq<T>>, last: seq<T>)
    ensures Concat(a + [last]) == Concat(a) + last
  {
    ConcatOfTwo(a, [last]);
    assert Concat([last]) == last + Concat([last][1..]);
  }

  /** The cumulative lengths do not depend on later sequences. */
  lemma {:induction false} CuPrefix(mask: seq<seq<nat>>, b: nat)
    requires b <= |mask|
    ensures CuSeqlens(mask)[b] == CuSeqlens(mask[..b])[b]
  {
    if b < |mask| {
      CuPrefix(mask[..|mask| - 1], b);
      assert mask[..|mask| - 1][..b] == mask[..b];
    } else {
      assert mask[..b] == mask;
    }
  }

  lemma {:induction false} ConcatSlice<T>(lists: seq<seq<T>>, b: nat)
    requires b < |lists|
    ensures |Concat(lists[..b])| + |lists[b]| <= |Concat(lists)|
    ensures Concat(lists)[|Concat(lists[..b])|..|Concat(lists[..b])| + |lists[b]|] == lists[b]
  {
    if b > 0 {
      assert lists[..b][1..] == lists[1..][..b - 1];
      ConcatSlice(lists[1..], b - 1);
    }
  }

  lemma UnpadCumulates(hidden: seq<seq<Row>>, attention: seq<seq<nat>>, unused: Option<seq<seq<nat>>>,
                       batch: nat, seqlen: nat)
    requires Shaped(hidden, batch, seqlen) && Shaped(attention, batch, seqlen)
    requires unused.Some? ==> Shaped(unused.value, batch, seqlen)
    ensures UnpadInput(hidden, attention, unused, batch, seqlen).cuSeqlens ==
      CuSeqlens(AllMasks(attention, unused, batch, seqlen))
  {
  }

  /** If no position is marked twice, the slice between two cumulative lengths is exactly one
      sequence's kept rows, in order. */
  lemma SliceIsSequence(hidden: seq<seq<Row>>, attention: seq<seq<nat>>, unused: Option<seq<seq<nat>>>,
                        batch: nat, seqlen: nat, b: nat)
    requires Shaped(hidden, batch, seqlen) && Shaped(attention, batch, seqlen)
    requires unused.Some? ==> Shaped(unused.value, batch, seqlen)
    requires NoOverlap(AllMasks(attention, unused, batch, seqlen)) && b < batch
    ensures var (u, all) := (UnpadInput(hidden, attention, unused, batch, seqlen), AllMasks(attention, unused, batch, seqlen));
      u.cuSeqlens[b] <= u.cuSeqlens[b + 1] <= |u.hidden| &&
      u.hidden[u.cuSeqlens[b]..u.cuSeqlens[b + 1]] == Kept(hidden[b], all[b])
  {
    hide *;
    UnpadCumulates(hidden, attention, unused, batch, seqlen);
    UnpadKeeps(hidden, attention, unused, batch, seqlen);
    RowsMatchSums(hidden, AllMasks(attention, unused, batch, seqlen), batch, seqlen);
    SliceOfLists(KeptRows(hidden, AllMasks(attention, unused, batch, seqlen)),
                 AllMasks(attention, unused, batch, seqlen), b);
  }

  lemma RowsMatchSums(hidden: seq<seq<Row>>, mask: seq<seq<nat>>, batch: nat, seqlen: nat)
    requires Shaped(hidden, batch, seqlen) && Shaped(mask, batch, seqlen) && NoOverlap(mask)
    ensures |hidden| == |mask| == batch
    ensures forall i :: 0 <= i < batch ==> |hidden[i]| == |mask[i]| && |Kept(hidden[i], mask[i])| == SumOf(mask[i])
  {
    hide Kept, SumOf;
    forall i | 0 <= i < batch ensures |Kept(hidden[i], mask[i])| == SumOf(mask[i]) { SumCountsKept(hidden[i], mask[i]); }
  }

  lemma SliceOfLists(lists: seq<seq<Row>>, mask: seq<seq<nat>>, b: nat)
    requires |lists| == |mask| && b < |mask| && forall i :: 0 <= i < |mask| ==> |lists[i]| == SumOf(mask[i])
    ensures CuSeqlens(mask)[b] <= CuSeqlens(mask)[b + 1] <= |Concat(lists)|
    ensures Concat(lists)[CuSeqlens(mask)[b]..CuSeqlens(mask)[b + 1]] == lists[b]
  {
    hide Concat, CuSeqlens, SumOf;
    ConcatPrefixLength(lists, mask, b);
    CuPrefix(mask, b);
    CuPrefix(mask, b + 1);
    ConcatSlice(lists, b);
  }

  /** The last cumulative length is the number of kept rows exactly if no position is marked twice. */
  lemma TotalMatchesOnlyWithoutOverlap(hidden: seq<seq<Row>>, mask: seq<seq<nat>>)
    requires |hidden| == |mask| && forall b :: 0 <= b < |mask| ==> |hidden[b]| == |mask[b]|
    ensures |Concat(KeptRows(hidden, mask))| <= CuSeqlens(mask)[|mask|]
    ensures |Concat(KeptRows(hidden, mask))| == CuSeqlens(mask)[|mask|] <==> NoOverlap(mask)
  {
    TotalsByRow(hidden, mask, |mask|);
    assert mask[..|mask|] == mask && KeptRows(hidden, mask)[..|mask|] == KeptRows(hidden, mask);
  }

  /** The slice between two cumulative lengths is inside the result and holds that sequence's kept rows. */
  ghost predicate SliceMatches(u: Unpadded, hidden: seq<seq<Row>>, all: seq<seq<nat>>, b: nat)
    requires b < |all| == |hidden| && |u.cuSeqlens| == |all| + 1 && |hidden[b]| == |all[b]|
  {
    u.cuSeqlens[b] <= u.cuSeqlens[b + 1] <= |u.hidden|
    && u.hidden[u.cuSeqlens[b]..u.cuSeqlens[b + 1]] == Kept(hidden[b], all[b])
  }

  ghost predicate SlicesMatch(u: Unpadded, hidden: seq<seq<Row>>, all: seq<seq<nat>>)
    requires |hidden| == |all| && |u.cuSeqlens| == |all| + 1 && forall b :: 0 <= b < |all| ==> |hidden[b]| == |all[b]|
  {
    forall b: nat :: b < |all| ==> SliceMatches(u, hidden, all, b)
  }

  /** They all are exactly when no position is marked by both masks. */
  lemma SlicesMatchOnlyWithoutOverlap(hidden: seq<seq<Row>>, attention: seq<seq<nat>>, unused: Option<seq<seq<nat>>>,
                                      batch: nat, seqlen: nat)
    requires Shaped(hidden, batch, seqlen) && Shaped(attention, batch, seqlen)
    requires unused.Some? ==> Shaped(unused.value, batch, seqlen)
    ensures var all := AllMasks(attention, unused, batch, seqlen);
      |UnpadInput(hidden, attention, unused, batch, seqlen).cuSeqlens| == |all| + 1
      && (SlicesMatch(UnpadInput(hidden, attention, unused, batch, seqlen), hidden, all) <==> NoOverlap(all))
  {
    hide UnpadInput, NoOverlap, AllMasks, Kept, CuSeqlens, KeptRows, Concat;
    var u, all := UnpadInput(hidden, attention, unused, batch, seqlen), AllMasks(attention, unused, batch, seqlen);
    UnpadCumulates(hidden, attention, unused, batch, seqlen);
    UnpadKeeps(hidden, attention, unused, batch, seqlen);
    TotalMatchesOnlyWithoutOverlap(hidden, all);
    if NoOverlap(all) {
      forall b: nat | b < batch ensures SliceMatches(u, hidden, all, b) {
        SliceIsSequence(hidden, attention, unused, batch, seqlen, b);
      }
    } else {
      NoRowsNoOverlap(all);
      assert !SliceMatches(u, hidden, all, batch - 1);
    }
  }

  lemma NoRowsNoOverlap(mask: seq<seq<nat>>)
    ensures mask == [] ==> NoOverlap(mask)
  {
  }

  lemma {:induction false} TotalsByRow(hidden: seq<seq<Row>>, mask: seq<seq<nat>>, n: nat)
    requires |hidden| == |mask| && n <= |mask| && forall b :: 0 <= b < |mask| ==> |hidden[b]| == |mask[b]|
    ensures |Concat(KeptRows(hidden, mask)[..n])| <= CuSeqlens(mask[..n])[n]
    ensures |Concat(KeptRows(hidden, mask)[..n])| == CuSeqlens(mask[..n])[n] <==> NoOverlap(mask[..n])
  {
    hide Kept, SumOf, KeptRows, Concat;
    if n == 0 {
      NoTotals(hidden, mask);
    } else {
      TotalsByRow(hidden, mask, n - 1);
      NoOverlapStep(mask, n);
      var lists := KeptRows(hidden, mask);
      assert lists[..n] == lists[..n - 1] + [lists[n - 1]];
      ConcatOfLast(lists[..n - 1], lists[n - 1]);
      assert mask[..n][..n - 1] == mask[..n - 1];
      SumCountsKept(hidden[n - 1], mask[n - 1]);
    }
  }

  lemma NoTotals(hidden: seq<seq<Row>>, mask: seq<seq<nat>>)
    requires |hidden| == |mask| && forall b :: 0 <= b < |mask| ==> |hidden[b]| == |mask[b]|
    ensures Concat(KeptRows(hidden, mask)[..0]) == [] && CuSeqlens(mask[..0])[0] == 0
  {
  }

  lemma NoOverlapStep(mask: seq<seq<nat>>, n: nat)
    requires 0 < n <= |mask|
    ensures NoOverlap(mask[..n]) <==> NoOverlap(mask[..n - 1]) && AtMostOnce(mask[n - 1])
  {
    hide AtMostOnce;
    var more, fewer := mask[..n], mask[..n - 1];
    assert forall b :: 0 <= b < n - 1 ==> fewer[b] == more[b];
    assert more[n - 1] == mask[n - 1];
  }

  /** `pad_input` before the reshape to batch x seqlen: scatter into batch * seqlen zero rows. */
  function PadInput(hidden: seq<Row>, indices: seq<nat>, rows: nat, width: nat): seq<Row>
    requires |hidden| == |indices| && forall i :: 0 <= i < |indices| ==> indices[i] < rows
  {
    Scattered(hidden, indices, rows, width)
  }

  /** Padding an unpadded batch restores every kept position and zeroes the others. */
  lemma PadUndoesUnpad(hidden: seq<seq<Row>>, attention: seq<seq<nat>>, unused: Option<seq<seq<nat>>>,
                       batch: nat, seqlen: nat, width: nat, j: nat)
    requires Shaped(hidden, batch, seqlen) && Shaped(attention, batch, seqlen)
    requires unused.Some? ==> Shaped(unused.value, batch, seqlen)
    requires j < batch * seqlen
    ensures |Concat(hidden)| == |Concat(AllMasks(attention, unused, batch, seqlen))| == batch * seqlen
    ensures var u := UnpadInput(hidden, attention, unused, batch, seqlen);
      DistinctBelow(u.indices, batch * seqlen) && |u.hidden| == |u.indices| &&
      PadInput(u.hidden, u.indices, batch * seqlen, width)[j] ==
        if Concat(AllMasks(attention, unused, batch, seqlen))[j] != 0 then Concat(hidden)[j] else ZeroRow(width)
  {
    var all := AllMasks(attention, unused, batch, seqlen);
    ShapedLength(hidden, batch, seqlen);
    ShapedLength(all, batch, seqlen);
    NonZeroIsDistinct(Concat(all), 0);
    var indices := NonZero(Concat(all), 0);
    var u := UnpadInput(hidden, attention, unused, batch, seqlen);
    ScatteredAt(u.hidden, indices, batch * seqlen, width);
    assert 0 + j in indices <==> Concat(all)[j] != 0;
  }
}
