/** Row operations on a batch of named columns: padding, splitting, joining, and mapping row by row. */
module DataRows {
  import opened Sequences
  import opened Prelude
  import opened Arith

  /** A tensor column or an object column; both are indexed by row. */
  datatype Column = Tensor(name: string) | Objects(name: string)

  datatype DataProto<T> = DataProto(size: nat, columns: map<Column, seq<T>>) {
    /** `check_consistency`: every column has one entry per row. */
    ghost predicate Valid() { forall k :: k in columns ==> |columns[k]| == size }
  }

  // ---------------------------------------------------------------- selecting rows

  /** The rows at the given positions, in every column. */
  ghost function Rows<T>(d: DataProto<T>, idx: seq<nat>): (r: DataProto<T>)
    requires d.Valid() && InRange(idx, d.size)
    ensures r.Valid() && r.size == |idx| && r.columns.Keys == d.columns.Keys
  {
    DataProto(|idx|, map k | k in d.columns :: Gather(d.columns[k], idx))
  }

  function Cut<T>(col: seq<T>, lo: nat, hi: nat): (r: seq<T>)
    requires lo <= hi <= |col|
    ensures |r| == hi - lo
  {
    col[lo..hi]
  }

  /** `data[lo:hi]`. */
  function Part<T>(d: DataProto<T>, lo: nat, hi: nat): (r: DataProto<T>)
    requires d.Valid() && lo <= hi <= d.size
    ensures r.Valid() && r.size == hi - lo && r.columns.Keys == d.columns.Keys
  {
    DataProto(hi - lo, map k | k in d.columns :: Cut(d.columns[k], lo, hi))
  }

  /** lo, lo + 1, ..., hi - 1. */
  ghost function Span(lo: nat, hi: nat): (r: seq<nat>)
    requires lo <= hi
    ensures |r| == hi - lo && forall i :: 0 <= i < hi - lo ==> r[i] == lo + i
  {
    seq(hi - lo, i requires 0 <= i => lo + i)
  }

  lemma PartIsRows<T>(d: DataProto<T>, lo: nat, hi: nat)
    requires d.Valid() && lo <= hi <= d.size
    ensures Part(d, lo, hi) == Rows(d, Span(lo, hi))
  {
    forall k | k in d.columns ensures Cut(d.columns[k], lo, hi) == Gather(d.columns[k], Span(lo, hi)) {}
    assert Part(d, lo, hi).columns == Rows(d, Span(lo, hi)).columns;
  }

  /** Selecting from a selection. */
  ghost function Through(outer: seq<nat>, inner: seq<nat>): (r: seq<nat>)
    requires InRange(outer, |inner|)
    ensures |r| == |outer| && forall i :: 0 <= i < |outer| ==> r[i] == inner[outer[i]]
  {
    Gather(inner, outer)
  }

  lemma RowsOfRows<T>(d: DataProto<T>, inner: seq<nat>, outer: seq<nat>)
    requires d.Valid() && InRange(inner, d.size) && InRange(outer, |inner|)
    ensures InRange(Through(outer, inner), d.size)
    ensures Rows(Rows(d, inner), outer) == Rows(d, Through(outer, inner))
  {
    forall k | k in d.columns
      ensures Gather(Gather(d.columns[k], inner), outer) == Gather(d.columns[k], Through(outer, inner))
    {
    }
    assert Rows(Rows(d, inner), outer).columns == Rows(d, Through(outer, inner)).columns;
  }

  /** Every row in its own place. */
  lemma AllRows<T>(d: DataProto<T>)
    requires d.Valid()
    ensures Rows(d, Span(0, d.size)) == d
  {
    forall k | k in d.columns ensures Gather(d.columns[k], Span(0, d.size)) == d.columns[k] {}
    assert Rows(d, Span(0, d.size)).columns == d.columns;
  }

  // ---------------------------------------------------------------- joining

  ghost predicate Like<T>(d: DataProto<T>, e: DataProto<T>) {
    d.Valid() && e.Valid() && d.columns.Keys == e.columns.Keys
  }

  ghost predicate AllLike<T>(parts: seq<DataProto<T>>) {
    parts != [] && forall i :: 0 <= i < |parts| ==> Like(parts[0], parts[i])
  }

  function Append<T>(d: DataProto<T>, e: DataProto<T>): (r: DataProto<T>)
    requires Like(d, e)
    ensures r.Valid() && r.size == d.size + e.size && r.columns.Keys == d.columns.Keys
  {
    DataProto(d.size + e.size, map k | k in d.columns :: d.columns[k] + e.columns[k])
  }

  /** `DataProto.concat`: column by column, in the order of the list. */
  ghost function Joined<T>(parts: seq<DataProto<T>>): (r: DataProto<T>)
    requires AllLike(parts)
    ensures Like(parts[0], r)
    decreases |parts|
  {
    if |parts| == 1 then parts[0] else
    var front := parts[..|parts| - 1];
    assert forall i :: 0 <= i < |front| ==> front[i] == parts[i];
    Append(Joined(front), parts[|parts| - 1])
  }

  method Concat<T>(parts: seq<DataProto<T>>) returns (r: Result<DataProto<T>>)
    requires parts != [] ==> AllLike(parts)
    ensures if parts == [] then r == Failed(IndexError) else r == Ok(Joined(parts))
  {
    hide Append;
    if parts == [] { return Failed(IndexError); }
    var joined, i := parts[0], 1;
    assert parts[..1] == [parts[0]];
    while i < |parts|
      invariant 1 <= i <= |parts| && AllLike(parts[..i]) && joined == Joined(parts[..i])
    {
      assert parts[..i + 1][..i] == parts[..i] && Like(parts[0], parts[i]);
      joined := Append(joined, parts[i]);
      i := i + 1;
    }
    assert parts[..|parts|] == parts;
    return Ok(joined);
  }

  lemma AppendedRows<T>(d: DataProto<T>, a: seq<nat>, b: seq<nat>)
    requires d.Valid() && InRange(a, d.size) && InRange(b, d.size)
    ensures InRange(a + b, d.size)
    ensures Append(Rows(d, a), Rows(d, b)) == Rows(d, a + b)
  {
    forall k | k in d.columns
      ensures Gather(d.columns[k], a + b) == Gather(d.columns[k], a) + Gather(d.columns[k], b)
    {
    }
    assert Append(Rows(d, a), Rows(d, b)).columns == Rows(d, a + b).columns;
  }

  // ---------------------------------------------------------------- padding

  /** 0, 1, ..., n - 1, 0, 1, ... up to m entries. */
  ghost function Cyclic(n: nat, m: nat): (r: seq<nat>)
    requires n > 0
    ensures |r| == m && InRange(r, n) && forall i :: 0 <= i < m ==> r[i] == i % n
  {
    seq(m, i requires 0 <= i => i % n)
  }

  lemma CyclicStart(n: nat)
    requires n > 0
    ensures Cyclic(n, n) == Span(0, n)
  {
  }

  lemma CyclicNext(n: nat, m: nat, take: nat)
    requires n > 0 && m % n == 0 && take <= n
    ensures Cyclic(n, m) + Span(0, take) == Cyclic(n, m + take)
    ensures take == n ==> (m + take) % n == 0
  {
    forall i | m <= i < m + take ensures i % n == i - m || i - m == n {
      if i - m < n { DivUnique(i, n, m / n, i - m); }
    }
    DivUnique(m + n, n, m / n + 1, 0);
  }

  /** `size_divisor - len(data) % size_divisor` when the length is not a multiple already. */
  function PadSize(n: nat, divisor: nat): (p: nat)
    requires divisor > 0
    ensures p < divisor && (n + p) % divisor == 0
  {
    if n % divisor == 0 then 0 else
    DivUnique(n + (divisor - n % divisor), divisor, n / divisor + 1, 0);
    divisor - n % divisor
  }

  /** The batch with its rows repeated from the start until the length fits. */
  ghost function Padded<T>(d: DataProto<T>, divisor: nat): (r: DataProto<T>)
    requires d.Valid() && divisor > 0
    ensures r.Valid() && r.size == d.size + PadSize(d.size, divisor) && r.columns.Keys == d.columns.Keys
  {
    if d.size == 0 then d else Rows(d, Cyclic(d.size, d.size + PadSize(d.size, divisor)))
  }

  ghost predicate Multiple(m: int, n: nat) { n > 0 && m % n == 0 }

  /** `pad_dataproto_to_divisor`. */
  method PadToDivisor<T>(d: DataProto<T>, divisor: nat) returns (r: Result<(DataProto<T>, nat)>)
    requires d.Valid()
    ensures if divisor == 0 then r == Failed(ZeroDivisionError) else r == Ok((Padded(d, divisor), PadSize(d.size, divisor)))
  {
    hide Rows, Cyclic, Joined, AllLike, PadSize;
    if divisor == 0 { return Failed(ZeroDivisionError); }
    var padSize := PadSize(d.size, divisor);
    if padSize == 0 {
      if d.size > 0 { PaddingNothing(d); }
      return Ok((d, 0));
    }
    if d.size == 0 { NoPadding(divisor); }
    var parts := PaddingParts(d, padSize);
    var padded := Concat(parts);
    return Ok((padded.value, padSize));
  }

  /** Its loop: the batch, then as many of its first rows as are still missing, again and again. */
  method PaddingParts<T>(d: DataProto<T>, padSize: nat) returns (parts: seq<DataProto<T>>)
    requires d.Valid() && d.size > 0
    ensures parts != [] && AllLike(parts) && Joined(parts) == Rows(d, Cyclic(d.size, d.size + padSize))
  {
    hide Rows, Cyclic, Part, Joined, AllLike, Span, Append, Multiple;
    var remaining := padSize;
    parts := [d];
    PaddingNothing(d);
    JoinedOfOne(d);
    while remaining > 0
      invariant 0 <= remaining <= padSize && parts != [] && AllLike(parts) && parts[0] == d
      invariant Joined(parts) == Rows(d, Cyclic(d.size, d.size + padSize - remaining))
      invariant remaining > 0 ==> Multiple(d.size + padSize - remaining, d.size)
    {
      var take := if remaining <= d.size then remaining else d.size;
      PaddingNext(d, parts, d.size + padSize - remaining, take);
      parts := parts + [Part(d, 0, take)];
      remaining := remaining - take;
    }
  }

  lemma PaddingNothing<T>(d: DataProto<T>)
    requires d.Valid() && d.size > 0
    ensures Rows(d, Cyclic(d.size, d.size)) == d && Multiple(d.size, d.size)
  {
    hide Rows;
    CyclicStart(d.size);
    AllRows(d);
  }

  lemma JoinedOfOne<T>(d: DataProto<T>)
    requires d.Valid()
    ensures AllLike([d]) && Joined([d]) == d
  {
  }

  lemma PaddingNext<T>(d: DataProto<T>, parts: seq<DataProto<T>>, m: nat, take: nat)
    requires d.Valid() && 0 < take <= d.size && Multiple(m, d.size)
    requires AllLike(parts) && parts[0] == d && Joined(parts) == Rows(d, Cyclic(d.size, m))
    ensures AllLike(parts + [Part(d, 0, take)])
    ensures Joined(parts + [Part(d, 0, take)]) == Rows(d, Cyclic(d.size, m + take))
    ensures take == d.size ==> Multiple(m + take, d.size)
  {
    hide Rows, Part, Append, Cyclic;
    JoinedNext(parts, Part(d, 0, take));
    PartIsRows(d, 0, take);
    AppendedRows(d, Cyclic(d.size, m), Span(0, take));
    CyclicNext(d.size, m, take);
  }

  lemma JoinedNext<T>(parts: seq<DataProto<T>>, next: DataProto<T>)
    requires AllLike(parts) && Like(parts[0], next)
    ensures AllLike(parts + [next]) && Joined(parts + [next]) == Append(Joined(parts), next)
  {
    hide Append;
    assert (parts + [next])[..|parts|] == parts;
  }

  /** Row i of the padded batch is row i mod n of the batch, in tensor and object columns alike. */
  lemma PaddedRow<T>(d: DataProto<T>, divisor: nat, k: Column, i: nat)
    requires d.Valid() && d.size > 0 && divisor > 0 && k in d.columns && i < Padded(d, divisor).size
    ensures Padded(d, divisor).size % divisor == 0 && Padded(d, divisor).size < d.size + divisor
    ensures k in Padded(d, divisor).columns && Padded(d, divisor).columns[k][i] == d.columns[k][i % d.size]
  {
  }

  /** `unpad_dataproto`: `data[:-pad_size]`, which keeps nothing when it is asked to drop more than there is. */
  function Unpad<T>(d: DataProto<T>, padSize: nat): (r: DataProto<T>)
    requires d.Valid()
  {
    if padSize == 0 then d else Part(d, 0, if padSize <= d.size then d.size - padSize else 0)
  }

  // ---------------------------------------------------------------- rows through a function

  type Row<T> = map<Column, T>
  type RowFunction<!T, U> = map<Column, Row<T> -> U>

  function RowOf<T>(d: DataProto<T>, i: nat): Row<T>
    requires d.Valid() && i < d.size
  {
    map k | k in d.columns :: d.columns[k][i]
  }

  function MapColumn<T, U>(f: Row<T> -> U, d: DataProto<T>): (col: seq<U>)
    requires d.Valid()
    ensures |col| == d.size && forall i :: 0 <= i < d.size ==> col[i] == f(RowOf(d, i))
  {
    seq(d.size, i requires 0 <= i < d.size => f(RowOf(d, i)))
  }

  /** Any computation that treats every row on its own. */
  function MapRows<T, U>(f: RowFunction<T, U>, d: DataProto<T>): (r: DataProto<U>)
    requires d.Valid()
    ensures r.Valid() && r.size == d.size && r.columns.Keys == f.Keys
  {
    DataProto(d.size, map k | k in f :: MapColumn(f[k], d))
  }

  /** It commutes with selecting rows. */
  lemma MapOfRows<T, U>(f: RowFunction<T, U>, d: DataProto<T>, idx: seq<nat>)
    requires d.Valid() && InRange(idx, d.size)
    ensures MapRows(f, Rows(d, idx)) == Rows(MapRows(f, d), idx)
  {
    forall i | 0 <= i < |idx| ensures RowOf(Rows(d, idx), i) == RowOf(d, idx[i]) {}
    forall k | k in f ensures MapColumn(f[k], Rows(d, idx)) == Gather(MapColumn(f[k], d), idx) {}
    assert MapRows(f, Rows(d, idx)).columns == Rows(MapRows(f, d), idx).columns;
  }

  // ---------------------------------------------------------------- splitting

  /** Consecutive parts between the given bounds. */
  ghost predicate PartsAt<T>(d: DataProto<T>, parts: seq<DataProto<T>>, bounds: seq<nat>)
    requires d.Valid()
  {
    |bounds| == |parts| + 1 && Rises(bounds) && bounds[|parts|] <= d.size
    && forall i :: 0 <= i < |parts| ==> parts[i] == Part(d, bounds[i], bounds[i + 1])
  }

  ghost predicate Rises(bounds: seq<nat>) { forall i, j :: 0 <= i <= j < |bounds| ==> bounds[i] <= bounds[j] }

  lemma SpansMeet(lo: nat, mid: nat, hi: nat)
    requires lo <= mid <= hi
    ensures Span(lo, mid) + Span(mid, hi) == Span(lo, hi)
  {
  }

  /** Joining consecutive parts gives the rows from the first bound to the last. */
  lemma {:induction false} PartsJoin<T>(d: DataProto<T>, parts: seq<DataProto<T>>, bounds: seq<nat>)
    requires d.Valid() && parts != [] && PartsAt(d, parts, bounds)
    ensures AllLike(parts) && Joined(parts) == Rows(d, Span(bounds[0], bounds[|parts|]))
    decreases |parts|
  {
    hide Rows, Append, Span, Part, Joined, AllLike;
    var n := |parts|;
    if n == 1 {
      PartIsRows(d, bounds[0], bounds[1]);
      JoinedOfOne(parts[0]);
      assert parts == [parts[0]];
    } else {
      var front := parts[..n - 1];
      PartsJoin(d, front, bounds[..n]);
      JoinedNext(front, parts[n - 1]);
      assert front + [parts[n - 1]] == parts;
      PartIsRows(d, bounds[n - 1], bounds[n]);
      AppendedRows(d, Span(bounds[0], bounds[n - 1]), Span(bounds[n - 1], bounds[n]));
      SpansMeet(bounds[0], bounds[n - 1], bounds[n]);
    }
  }

  /** Joining parts that cover the batch gives it back. */
  lemma PartsCover<T>(d: DataProto<T>, parts: seq<DataProto<T>>, bounds: seq<nat>)
    requires d.Valid() && parts != [] && PartsAt(d, parts, bounds) && bounds[0] == 0 && bounds[|parts|] == d.size
    ensures AllLike(parts) && Joined(parts) == d
  {
    hide Rows, Part, PartsAt;
    PartsJoin(d, parts, bounds);
    AllRows(d);
  }

  /** One more part at the end. */
  lemma PartsNext<T>(d: DataProto<T>, parts: seq<DataProto<T>>, bounds: seq<nat>, hi: nat)
    requires d.Valid() && PartsAt(d, parts, bounds) && bounds[|parts|] <= hi <= d.size
    ensures PartsAt(d, parts + [Part(d, bounds[|parts|], hi)], bounds + [hi])
  {
    hide Part;
  }

  /** `chunk` without auto-padding: equal parts that join to the whole, or the failed assertion. */
  method Chunk<T>(d: DataProto<T>, chunks: nat) returns (r: Result<seq<DataProto<T>>>)
    requires d.Valid() && d.size > 0
    ensures chunks == 0 ==> r == Failed(ZeroDivisionError)
    ensures chunks > 0 ==> (r.Ok? <==> d.size % chunks == 0) && (r.Failed? ==> r.why == AssertionError)
    ensures r.Ok? ==> |r.value| == chunks && AllLike(r.value) && Joined(r.value) == d
    ensures r.Ok? ==> forall i :: 0 <= i < chunks ==> r.value[i].size == d.size / chunks
  {
    hide Part, PartsAt, Joined, AllLike;
    if chunks == 0 { return Failed(ZeroDivisionError); }
    if d.size % chunks != 0 { return Failed(AssertionError); }
    var s := d.size / chunks;
    assert chunks * s == d.size;
    var output: seq<DataProto<T>> := [];
    ghost var bounds: seq<nat> := [0];
    NoParts(d);
    var i := 0;
    while i < chunks
      invariant 0 <= i <= chunks && |output| == i && |bounds| == i + 1 && bounds[0] == 0 && bounds[i] == i * s
      invariant PartsAt(d, output, bounds)
      invariant forall j :: 0 <= j < i ==> output[j].size == s
    {
      MulMonotone(i + 1, chunks, s);
      MulSucc(i, s);
      PartsNext(d, output, bounds, i * s + s);
      output := output + [Part(d, i * s, i * s + s)];
      bounds := bounds + [i * s + s];
      i := i + 1;
    }
    PartsCover(d, output, bounds);
    return Ok(output);
  }

  lemma NoParts<T>(d: DataProto<T>)
    requires d.Valid()
    ensures PartsAt(d, [], [0])
  {
  }

  /** `split`: parts of the given size, the last one possibly shorter, that join to the whole. */
  method Split<T>(d: DataProto<T>, splitSize: nat) returns (r: Result<seq<DataProto<T>>>)
    requires d.Valid()
    ensures splitSize == 0 ==> r == Failed(ValueError)
    ensures splitSize > 0 ==> r.Ok? && (r.value == [] <==> d.size == 0)
    ensures r.Ok? && r.value != [] ==> AllLike(r.value) && Joined(r.value) == d
    ensures r.Ok? ==> forall i :: 0 <= i < |r.value| ==>
      if i < |r.value| - 1 then r.value[i].size == splitSize else 0 < r.value[i].size <= splitSize
  {
    hide Part, PartsAt, Joined, AllLike;
    if splitSize == 0 { return Failed(ValueError); }
    var output: seq<DataProto<T>> := [];
    ghost var bounds: seq<nat> := [0];
    NoParts(d);
    var at := 0;
    while at < d.size
      invariant 0 <= at <= d.size && |bounds| == |output| + 1 && bounds[0] == 0 && bounds[|output|] == at
      invariant PartsAt(d, output, bounds)
      invariant output == [] <==> at == 0
      invariant forall j :: 0 <= j < |output| ==> 0 < output[j].size <= splitSize
      invariant forall j :: 0 <= j < |output| && (at < d.size || j < |output| - 1) ==> output[j].size == splitSize
    {
      var end := if at + splitSize <= d.size then at + splitSize else d.size;
      PartsNext(d, output, bounds, end);
      output := output + [Part(d, at, end)];
      bounds := bounds + [end];
      at := end;
    }
    if output != [] { PartsCover(d, output, bounds); }
    return Ok(output);
  }

  // ---------------------------------------------------------------- the way through the workers

  /** Each part's rows through the function, in the order of the parts. */
  lemma {:induction false} MapOfJoined<T, U>(f: RowFunction<T, U>, parts: seq<DataProto<T>>, mapped: seq<DataProto<U>>)
    requires AllLike(parts) && |mapped| == |parts|
    requires forall i :: 0 <= i < |parts| ==> mapped[i] == MapRows(f, parts[i])
    ensures AllLike(mapped) && Joined(mapped) == MapRows(f, Joined(parts))
    decreases |parts|
  {
    hide MapRows, Append, Joined;
    var n := |parts|;
    if n == 1 {
      JoinedOfOne(parts[0]);
      JoinedOfOne(mapped[0]);
      assert parts == [parts[0]] && mapped == [mapped[0]];
    } else {
      var front, done := parts[..n - 1], mapped[..n - 1];
      FrontIsLike(parts);
      hide AllLike;
      MapOfJoined(f, front, done);
      JoinedNext(front, parts[n - 1]);
      JoinedNext(done, mapped[n - 1]);
      assert front + [parts[n - 1]] == parts && done + [mapped[n - 1]] == mapped;
      MapOfAppend(f, Joined(front), parts[n - 1]);
    }
  }

  lemma FrontIsLike<T>(parts: seq<DataProto<T>>)
    requires AllLike(parts) && |parts| > 1
    ensures AllLike(parts[..|parts| - 1]) && Like(parts[0], parts[|parts| - 1])
  {
  }

  lemma RowOfAppend<T>(d: DataProto<T>, e: DataProto<T>, i: nat)
    requires Like(d, e) && i < d.size + e.size
    ensures RowOf(Append(d, e), i) == if i < d.size then RowOf(d, i) else RowOf(e, i - d.size)
  {
  }

  lemma MapColumnOfAppend<T, U>(f: Row<T> -> U, d: DataProto<T>, e: DataProto<T>)
    requires Like(d, e)
    ensures MapColumn(f, Append(d, e)) == MapColumn(f, d) + MapColumn(f, e)
  {
    hide Append, RowOf;
    forall i | 0 <= i < d.size + e.size
      ensures MapColumn(f, Append(d, e))[i] == (MapColumn(f, d) + MapColumn(f, e))[i]
    {
      RowOfAppend(d, e, i);
    }
  }

  lemma MapOfAppend<T, U>(f: RowFunction<T, U>, d: DataProto<T>, e: DataProto<T>)
    requires Like(d, e)
    ensures MapRows(f, Append(d, e)) == Append(MapRows(f, d), MapRows(f, e))
  {
    hide MapColumn;
    forall k | k in f ensures MapColumn(f[k], Append(d, e)) == MapColumn(f[k], d) + MapColumn(f[k], e) {
      MapColumnOfAppend(f[k], d, e);
    }
    assert MapRows(f, Append(d, e)).columns == Append(MapRows(f, d), MapRows(f, e)).columns;
  }

  /** The first n rows of a cyclic repetition are the batch. */
  lemma FrontOfPadded<T>(d: DataProto<T>, p: nat)
    requires d.Valid() && d.size > 0
    ensures Part(Rows(d, Cyclic(d.size, d.size + p)), 0, d.size) == d
  {
    hide Rows, Part, Cyclic;
    var n := d.size;
    var idx := Cyclic(n, n + p);
    PartIsRows(Rows(d, idx), 0, n);
    RowsOfRows(d, idx, Span(0, n));
    assert Through(Span(0, n), idx) == Span(0, n);
    AllRows(d);
  }

  /** Unpadding what was computed row by row from the padded batch is computing from the batch. */
  lemma UnpadOfMapOfPadded<T, U>(f: RowFunction<T, U>, d: DataProto<T>, divisor: nat)
    requires d.Valid() && divisor > 0
    ensures Unpad(MapRows(f, Padded(d, divisor)), PadSize(d.size, divisor)) == MapRows(f, d)
  {
    hide MapRows, Rows, Part, Cyclic, PadSize;
    var p, n := PadSize(d.size, divisor), d.size;
    if n == 0 {
      NoPadding(divisor);
    } else {
      MapOfRows(f, d, Cyclic(n, n + p));
      FrontOfPadded(MapRows(f, d), p);
      if p == 0 { PaddingNothing(MapRows(f, d)); }
    }
  }

  lemma NoPadding(divisor: nat)
    requires divisor > 0
    ensures PadSize(0, divisor) == 0
  {
  }

  /** Pad, chunk, compute on every worker, join, unpad: the same as computing on the whole batch at once. */
  method ComputeOnWorkers<T, U>(f: RowFunction<T, U>, d: DataProto<T>, workers: nat) returns (r: Result<DataProto<U>>)
    requires d.Valid() && d.size > 0 && workers > 0
    ensures r == Ok(MapRows(f, d))
  {
    hide MapRows, Padded, PadSize, Joined, AllLike, Unpad;
    var padded := PadToDivisor(d, workers);
    PadSizeFits(d.size, workers);
    var chunks := Chunk(padded.value.0, workers);
    var outputs: seq<DataProto<U>> := [];
    var i := 0;
    while i < |chunks.value|
      invariant 0 <= i <= |chunks.value| == workers && |outputs| == i
      invariant AllLike(chunks.value)
      invariant forall j :: 0 <= j < i ==> AllValid(chunks.value) && outputs[j] == MapRows(f, chunks.value[j])
    {
      LikeIsValid(chunks.value);
      outputs := outputs + [MapRows(f, chunks.value[i])];
      i := i + 1;
    }
    MapOfJoined(f, chunks.value, outputs);
    var joined := Concat(outputs);
    UnpadOfMapOfPadded(f, d, workers);
    return Ok(Unpad(joined.value, padded.value.1));
  }

  ghost predicate AllValid<T>(parts: seq<DataProto<T>>) { forall i :: 0 <= i < |parts| ==> parts[i].Valid() }

  lemma LikeIsValid<T>(parts: seq<DataProto<T>>)
    requires AllLike(parts)
    ensures AllValid(parts)
  {
  }

  lemma PadSizeFits(n: nat, divisor: nat)
    requires divisor > 0
    ensures (n + PadSize(n, divisor)) % divisor == 0
  {
  }
}
