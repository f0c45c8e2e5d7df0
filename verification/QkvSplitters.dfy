/** The three places that split a fused attention weight, and that they agree for every tensor-parallel degree. */
module QkvSplitters {
  import opened Sequences
  import opened Prelude
  import opened Arith
  import opened FusedQkv

  /** `torch.chunk`: pieces of the rounded-up size; n empty pieces of an empty tensor. */
  function Chunk<T>(t: seq<T>, n: nat): seq<seq<T>>
    requires n > 0
  {
    if t == [] then seq(n, i => []) else
    CeilPositive(|t|, n);
    Cut(t, (|t| + n - 1) / n)
  }

  lemma CeilPositive(a: nat, n: nat)
    requires n > 0 && a > 0
    ensures (a + n - 1) / n > 0 && (a + n - 1) / n <= a && ((a + n - 1) / n) * n >= a
  {
    var c := (a + n - 1) / n;
    assert a + n - 1 == c * n + (a + n - 1) % n;
    MulStrict(0, c, n);
    if c > a { MulMonotone(a + 1, c, n); MulMonotone(1, n, a + 1); }
  }

  lemma ChunkWhole<T>(t: seq<T>, n: nat, size: nat)
    requires n > 0 && size > 0 && |t| == n * size
    ensures t != [] && Chunk(t, n) == Cut(t, size)
  {
    MulMonotone(1, n, size);
    assert |t| + n - 1 == size * n + (n - 1);
    DivUnique(|t| + n - 1, n, size, n - 1);
  }

  /** The loop over the chunks of one piece: split each chunk in three, collect the parts.
      `split` raises unless the sizes add up to the chunk. */
  method SplitChunks<T>(chunks: seq<seq<T>>, q: nat, d: nat) returns (r: Result<Qkv<T>>)
    ensures r.Ok? <==> AllOfLength(chunks, GroupRows(q, d))
    ensures r.Ok? ==> r.value == Unfused(chunks, q, d)
    ensures r.Failed? ==> r.why == ValueError
  {
    var qs: seq<T>, ks: seq<T>, vs: seq<T> := [], [], [];
    for i := 0 to |chunks|
      invariant AllOfLength(chunks[..i], GroupRows(q, d))
      invariant Qkv(qs, ks, vs) == Unfused(chunks[..i], q, d)
    {
      var chunk := chunks[i];
      if |chunk| != q + d + d {
        assert chunk in chunks;
        return Failed(ValueError);
      }
      assert chunks[..i + 1] == chunks[..i] + [chunk];
      UnfusedOfConcat(chunks[..i], [chunk], q, d);
      UnfusedOfOne(chunk, q, d);
      qs, ks, vs := qs + chunk[..q], ks + chunk[q..q + d], vs + chunk[q + d..];
    }
    assert chunks[..|chunks|] == chunks;
    r := Ok(Qkv(qs, ks, vs));
  }

  lemma UnfusedOfOne<T>(chunk: seq<T>, q: nat, d: nat)
    requires |chunk| == GroupRows(q, d)
    ensures Unfused([chunk], q, d) == Qkv(chunk[..q], chunk[q..q + d], chunk[q + d..])
  {
    OneSlice(chunk, 0, q);
    OneSlice(chunk, q, q + d);
    OneSlice(chunk, q + d, q + d + d);
  }

  lemma OneSlice<T>(chunk: seq<T>, lo: nat, hi: nat)
    requires lo <= hi <= |chunk|
    ensures Slices([chunk], lo, hi) == chunk[lo..hi]
  {
    assert [chunk][1..] == [];
  }

  /** What each splitter must return for n whole groups: the rows, group by group. */
  function Reference<T>(full: seq<T>, n: nat, q: nat, d: nat): Qkv<T>
    requires d > 0 && |full| == n * GroupRows(q, d)
  {
    CutWhole(full, GroupRows(q, d), n);
    Unfused(Cut(full, GroupRows(q, d)), q, d)
  }

  /** The reference of a tensor of kv groups, each of heads / kv query heads. */
  ghost predicate IsReference<T>(r: Result<Qkv<T>>, full: seq<T>, heads: nat, kv: nat, headDim: nat) {
    kv > 0 && headDim > 0 && |full| == kv * GroupRows(heads / kv * headDim, headDim) &&
    r == Ok(Reference(full, kv, heads / kv * headDim, headDim))
  }

  // ---------------------------------------------------------------- the checkpoint merger

  /** The rows make up kv whole groups of perKv query heads, one key head and one value head. */
  predicate WholeGroups(rows: nat, kv: nat, perKv: nat)
    requires kv > 0
  {
    rows % (perKv + 2) == 0 && (rows / (perKv + 2)) % kv == 0
  }

  /** The head size that makes them whole. */
  function HeadRows(rows: nat, kv: nat, perKv: nat): nat
    requires kv > 0
  {
    (rows / (perKv + 2)) / kv
  }

  /** Query rows of one chunk, with the code's floor divisions. */
  function QuerySize(rows: nat, perKv: nat, groups: nat): nat
    requires groups > 0
  {
    rows / (perKv + 2) * perKv / groups
  }

  /** Key (and value) rows of one chunk. */
  function KeySize(rows: nat, perKv: nat, groups: nat): nat
    requires groups > 0
  {
    rows / (perKv + 2) / groups
  }

  /** Rows of the first chunk, as `chunk` sizes it. */
  function ChunkRows(rows: nat, n: nat): nat
    requires n > 0
  {
    (rows + n - 1) / n
  }

  /** With whole groups the merger's sizes are exactly one group. */
  lemma MergerSizesWhole(rows: nat, kv: nat, perKv: nat)
    requires kv > 0 && rows > 0 && WholeGroups(rows, kv, perKv)
    ensures var d := HeadRows(rows, kv, perKv);
      QuerySize(rows, perKv, kv) == perKv * d && KeySize(rows, perKv, kv) == d && d > 0 && rows == kv * GroupRows(perKv * d, d)
  {
    var kvSize, d := rows / (perKv + 2), HeadRows(rows, kv, perKv);
    assert rows == kvSize * (perKv + 2);
    assert kvSize == d * kv;
    assert kvSize * perKv == (perKv * d) * kv;
    MultipleDivides(perKv * d, kv);
    assert rows == kv * (perKv * d + d + d);
  }

  /** If the groups are not whole, the sizes add up to less than a chunk. */
  lemma MergerSizesShort(rows: nat, kv: nat, perKv: nat)
    requires kv > 0 && rows > 0 && rows % (perKv + 2) == 0 && !WholeGroups(rows, kv, perKv)
    ensures GroupRows(QuerySize(rows, perKv, kv), KeySize(rows, perKv, kv)) < ChunkRows(rows, kv)
  {
    var kvSize := rows / (perKv + 2);
    assert rows == kvSize * (perKv + 2) == kvSize * perKv + 2 * kvSize;
    CeilPositive(rows, kv);
    FloorsAddUpShort(kvSize * perKv, kvSize, kv, (rows + kv - 1) / kv);
  }

  lemma FloorsAddUpShort(a: nat, b: nat, kv: nat, c: nat)
    requires kv > 0 && b % kv != 0 && c * kv >= a + 2 * b
    ensures a / kv + b / kv + b / kv < c
  {
    var q, d := a / kv, b / kv;
    assert a == q * kv + a % kv && b == d * kv + b % kv;
    assert (q + d + d) * kv == q * kv + d * kv + d * kv;
    MulStrict(q + d + d, c, kv);
  }

  lemma FirstChunkLength<T>(t: seq<T>, n: nat)
    requires n > 0 && t != []
    ensures Chunk(t, n) != [] && |Chunk(t, n)[0]| == (|t| + n - 1) / n
  {
    CeilPositive(|t|, n);
  }

  /** `_split_tensors` of a fused attention weight: it succeeds exactly for whole groups. */
  method SplitTensors<T>(tensor: seq<T>, heads: nat, kvHeads: nat) returns (r: Result<Qkv<T>>)
    ensures r.Ok? <==> kvHeads > 0 && heads % kvHeads == 0 && WholeGroups(|tensor|, kvHeads, heads / kvHeads)
    ensures kvHeads == 0 ==> r == Failed(ZeroDivisionError)
    ensures kvHeads > 0 && (heads % kvHeads != 0 || |tensor| % (heads / kvHeads + 2) != 0) ==> r == Failed(AssertionError)
    ensures kvHeads > 0 && heads % kvHeads == 0 && |tensor| % (heads / kvHeads + 2) == 0 && r.Failed? ==> r == Failed(ValueError)
    ensures r.Ok? && tensor == [] ==> r.value == Qkv([], [], [])
    ensures r.Ok? && tensor != [] ==>
      var d := HeadRows(|tensor|, kvHeads, heads / kvHeads);
      d > 0 && |tensor| == kvHeads * GroupRows(heads / kvHeads * d, d) &&
      r.value == Reference(tensor, kvHeads, heads / kvHeads * d, d)
  {
    hide Unfused, Cut, GroupRows, AllOfLength, WholeGroups, HeadRows;
    if kvHeads == 0 { return Failed(ZeroDivisionError); }
    if heads % kvHeads != 0 { return Failed(AssertionError); }
    var perKv := heads / kvHeads;
    if |tensor| % (perKv + 2) != 0 {
      RowsMustDivide(|tensor|, kvHeads, perKv);
      return Failed(AssertionError);
    }
    r := SplitByHead(tensor, kvHeads, perKv);
  }

  lemma RowsMustDivide(rows: nat, kv: nat, perKv: nat)
    requires kv > 0 && rows % (perKv + 2) != 0
    ensures !WholeGroups(rows, kv, perKv)
  {
  }

  /** The loop of the merger, with its floor-divided sizes. */
  method SplitByHead<T>(tensor: seq<T>, kvHeads: nat, perKv: nat) returns (r: Result<Qkv<T>>)
    requires kvHeads > 0 && |tensor| % (perKv + 2) == 0
    ensures r.Ok? <==> WholeGroups(|tensor|, kvHeads, perKv)
    ensures r.Failed? ==> r.why == ValueError
    ensures r.Ok? && tensor == [] ==> r.value == Qkv([], [], [])
    ensures r.Ok? && tensor != [] ==>
      var d := HeadRows(|tensor|, kvHeads, perKv);
      d > 0 && |tensor| == kvHeads * GroupRows(perKv * d, d) &&
      r.value == Reference(tensor, kvHeads, perKv * d, d)
  {
    hide Unfused, Cut, AllOfLength, GroupRows, Chunk, HeadRows, WholeGroups, QuerySize, KeySize, ChunkRows, Reference;
    var q, d := QuerySize(|tensor|, perKv, kvHeads), KeySize(|tensor|, perKv, kvHeads);
    r := SplitChunks(Chunk(tensor, kvHeads), q, d);
    if tensor == [] {
      NoRowsAreWhole(kvHeads, perKv);
      EmptyChunks<T>(kvHeads);
    } else if WholeGroups(|tensor|, kvHeads, perKv) {
      MergerSizesWhole(|tensor|, kvHeads, perKv);
      WholeChunks(tensor, kvHeads, q, d);
      ReferenceIsUnfused(tensor, kvHeads, q, d);
    } else {
      MergerSizesShort(|tensor|, kvHeads, perKv);
      ShortChunks(tensor, kvHeads, q, d);
    }
  }

  lemma NoRowsAreWhole(kv: nat, perKv: nat)
    requires kv > 0
    ensures WholeGroups(0, kv, perKv) && QuerySize(0, perKv, kv) == 0 && KeySize(0, perKv, kv) == 0
  {
  }

  lemma EmptyChunks<T>(n: nat)
    requires n > 0
    ensures AllOfLength(Chunk<T>([], n), GroupRows(0, 0)) && Unfused(Chunk<T>([], n), 0, 0) == Qkv([], [], [])
  {
    SlicesLength(Chunk<T>([], n), 0, 0);
  }

  lemma WholeChunks<T>(t: seq<T>, n: nat, q: nat, d: nat)
    requires n > 0 && d > 0 && |t| == n * GroupRows(q, d)
    ensures Chunk(t, n) == Cut(t, GroupRows(q, d)) && AllOfLength(Chunk(t, n), GroupRows(q, d))
  {
    ChunkWhole(t, n, GroupRows(q, d));
    CutWhole(t, GroupRows(q, d), n);
  }

  lemma ShortChunks<T>(t: seq<T>, n: nat, q: nat, d: nat)
    requires n > 0 && t != [] && GroupRows(q, d) < ChunkRows(|t|, n)
    ensures !AllOfLength(Chunk(t, n), GroupRows(q, d))
  {
    FirstChunkLength(t, n);
    assert Chunk(t, n)[0] in Chunk(t, n);
  }

  // ---------------------------------------------------------------- weight synchronisation, shard by shard

  /** The groups of a list of shards, in order. */
  function ShardGroups<T>(shards: seq<seq<T>>, size: nat): seq<seq<T>>
    requires size > 0
  {
    if shards == [] then [] else Cut(shards[0], size) + ShardGroups(shards[1..], size)
  }

  /** Cutting each shard into groups is cutting the whole tensor, however it was sharded. */
  lemma {:induction false} ShardGroupsAreGroups<T>(shards: seq<seq<T>>, size: nat, n: nat)
    requires size > 0 && AllOfLength(shards, n * size)
    ensures ShardGroups(shards, size) == Cut(Concat(shards), size)
  {
    if shards != [] {
      assert shards[0] in shards;
      ShardGroupsAreGroups(shards[1..], size, n);
      CutOfConcat(shards[0], Concat(shards[1..]), size, n);
    }
  }

  /** What collecting shard by shard must give, when each shard is n whole groups. */
  lemma ShardsReference<T>(shards: seq<seq<T>>, n: nat, q: nat, d: nat)
    requires n > 0 && d > 0 && AllOfLength(shards, n * GroupRows(q, d))
    ensures |Concat(shards)| == (|shards| * n) * GroupRows(q, d)
    ensures AllOfLength(ShardGroups(shards, GroupRows(q, d)), GroupRows(q, d))
    ensures Unfused(ShardGroups(shards, GroupRows(q, d)), q, d) == Reference(Concat(shards), |shards| * n, q, d)
  {
    hide Unfused, Cut, GroupRows, AllOfLength, Concat, ShardGroups;
    PositiveRows(q, d);
    ConcatLength(shards, n * GroupRows(q, d));
    TimesAssociates(|shards|, n, GroupRows(q, d));
    CutWhole(Concat(shards), GroupRows(q, d), |shards| * n);
    ShardGroupsAreGroups(shards, GroupRows(q, d), n);
  }

  lemma TimesAssociates(a: nat, b: nat, c: nat)
    ensures (a * b) * c == a * (b * c)
  {
  }

  /** `chunk(n)` cuts so many rows into pieces of one size. */
  predicate ChunksInto(rows: nat, n: nat, size: nat)
    requires n > 0
  {
    if rows == 0 then size == 0 else size > 0 && rows % size == 0 && ChunkRows(rows, n) == size
  }

  lemma ChunksAre<T>(t: seq<T>, n: nat, size: nat)
    requires n > 0
    ensures AllOfLength(Chunk(t, n), size) <==> ChunksInto(|t|, n, size)
    ensures ChunksInto(|t|, n, size) && size > 0 ==> t != [] && Chunk(t, n) == Cut(t, size)
  {
    hide Cut;
    if t == [] {
      assert Chunk(t, n)[0] in Chunk(t, n);
    } else {
      CeilPositive(|t|, n);
      var first := ChunkRows(|t|, n);
      FirstOfCut(t, first);
      CutEvenly(t, first);
    }
  }

  lemma FirstOfCut<T>(t: seq<T>, size: nat)
    requires 0 < size <= |t|
    ensures Cut(t, size) != [] && |Cut(t, size)[0]| == size && Cut(t, size)[0] in Cut(t, size)
  {
  }

  /** The pieces all have the size exactly when it divides the rows. */
  lemma CutEvenly<T>(t: seq<T>, size: nat)
    requires size > 0
    ensures AllOfLength(Cut(t, size), size) <==> |t| % size == 0
  {
    hide Cut;
    if |t| % size == 0 {
      assert |t| == (|t| / size) * size;
      CutWhole(t, size, |t| / size);
    } else {
      var b := ShortPiece(t, size);
    }
  }

  lemma {:induction false} ShortPiece<T>(t: seq<T>, size: nat) returns (b: seq<T>)
    requires size > 0 && |t| % size != 0
    ensures b in Cut(t, size) && |b| != size
  {
    if |t| <= size {
      b := t;
    } else {
      LessByOneDivisor(|t|, size);
      b := ShortPiece(t[size..], size);
    }
  }

  lemma LessByOneDivisor(a: nat, k: nat)
    requires 0 < k <= a
    ensures a % k == (a - k) % k
  {
    DivUnique(a, k, (a - k) / k + 1, (a - k) % k);
  }

  /** Every shard is cut into pieces of one size. */
  ghost predicate AllChunkInto<T>(shards: seq<seq<T>>, n: nat, size: nat)
    requires n > 0
  {
    forall s :: s in shards ==> ChunksInto(|s|, n, size)
  }

  /** The rows of the pieces of every shard, in order; none if the pieces are empty. */
  ghost predicate UnfusesShards<T>(r: Qkv<T>, shards: seq<seq<T>>, q: nat, d: nat) {
    var size := GroupRows(q, d);
    if size == 0 then r == Qkv([], [], []) else
    AllOfLength(ShardGroups(shards, size), size) && r == Unfused(ShardGroups(shards, size), q, d)
  }

  /** One more shard. */
  lemma UnfusesOneMore<T>(r: Qkv<T>, shards: seq<seq<T>>, i: nat, n: nat, q: nat, d: nat)
    requires n > 0 && i < |shards| && UnfusesShards(r, shards[..i], q, d)
    requires AllOfLength(Chunk(shards[i], n), GroupRows(q, d))
    ensures UnfusesShards(r.Plus(Unfused(Chunk(shards[i], n), q, d)), shards[..i + 1], q, d)
  {
    hide AllOfLength, Chunk, Cut, ShardGroups, Slices, ChunksInto;
    ChunksAre(shards[i], n, GroupRows(q, d));
    if GroupRows(q, d) == 0 {
      NoRowsUnfused(Chunk(shards[i], n));
    } else {
      ShardGroupsOneMore(shards, GroupRows(q, d), i);
      UnfusedOfConcat(ShardGroups(shards[..i], GroupRows(q, d)), Chunk(shards[i], n), q, d);
    }
  }

  lemma NoRowsUnfused<T>(blocks: seq<seq<T>>)
    requires AllOfLength(blocks, 0)
    ensures Unfused(blocks, 0, 0) == Qkv([], [], [])
  {
    SlicesLength(blocks, 0, 0);
  }

  /** The loop over shards: chunk a shard into its groups, split each, collect. */
  method CollectShards<T>(shards: seq<seq<T>>, n: nat, q: nat, d: nat) returns (r: Result<Qkv<T>>)
    requires n > 0
    ensures r.Ok? <==> AllChunkInto(shards, n, GroupRows(q, d))
    ensures r.Ok? ==> UnfusesShards(r.value, shards, q, d)
    ensures r.Failed? ==> r.why == ValueError
  {
    hide Unfused, Cut, GroupRows, AllOfLength, Chunk, ChunksInto, UnfusesShards;
    var acc := Qkv([], [], []);
    NothingUnfuses<T>(q, d);
    for i := 0 to |shards|
      invariant AllChunkInto(shards[..i], n, GroupRows(q, d)) && UnfusesShards(acc, shards[..i], q, d)
    {
      assert shards[i] in shards;
      ChunksAre(shards[i], n, GroupRows(q, d));
      var part := SplitChunks(Chunk(shards[i], n), q, d);
      if part.Failed? { return part; }
      UnfusesOneMore(acc, shards, i, n, q, d);
      acc := acc.Plus(part.value);
    }
    assert shards[..|shards|] == shards;
    r := Ok(acc);
  }

  lemma NothingUnfuses<T>(q: nat, d: nat)
    ensures UnfusesShards<T>(Qkv([], [], []), [], q, d)
  {
    NothingUnfused<T>(q, d);
  }

  lemma PositiveRows(q: nat, d: nat)
    ensures d > 0 ==> GroupRows(q, d) > 0
  {
  }

  lemma NothingUnfused<T>(q: nat, d: nat)
    ensures AllOfLength<T>([], GroupRows(q, d)) && Unfused<T>([], q, d) == Qkv([], [], [])
    ensures GroupRows(q, d) > 0 ==> ShardGroups<T>([], GroupRows(q, d)) == []
  {
  }

  lemma {:induction false} ShardGroupsOneMore<T>(shards: seq<seq<T>>, size: nat, i: nat)
    requires size > 0 && i < |shards|
    ensures ShardGroups(shards[..i + 1], size) == ShardGroups(shards[..i], size) + Cut(shards[i], size)
  {
    if i == 0 {
      assert shards[..1] == [shards[0]] && shards[..0] == [];
      assert [shards[0]][1..] == [];
    } else {
      assert shards[..i + 1][1..] == shards[1..][..i] && shards[..i][1..] == shards[1..][..i - 1];
      ShardGroupsOneMore(shards[1..], size, i - 1);
    }
  }

  /** Sizes inside one shard of n groups. */
  lemma ShardSizes(n: nat, perKv: nat, d: nat)
    requires n > 0
    ensures var rows := n * GroupRows(perKv * d, d);
      rows % (perKv + 2) == 0 && rows / (perKv + 2) == n * d &&
      (n * d) * perKv / n == perKv * d && (n * d) / n == d
  {
    var rows := n * GroupRows(perKv * d, d);
    assert GroupRows(perKv * d, d) == d * (perKv + 2);
    assert rows == (n * d) * (perKv + 2);
    DivUnique(rows, perKv + 2, n * d, 0);
    assert (n * d) * perKv == (perKv * d) * n && n * d == d * n;
    MultipleDivides(perKv * d, n);
    MultipleDivides(d, n);
  }

  /** The shards a tensor-parallel model produces: tp of them, each with kv/tp whole groups of head size d. */
  ghost predicate ProperShards<T>(shards: seq<seq<T>>, heads: nat, kv: nat, tp: nat, d: nat) {
    kv > 0 && tp > 0 && d > 0 && heads % kv == 0 && kv % tp == 0 && kv / tp > 0 && |shards| == tp &&
    AllOfLength(shards, (kv / tp) * GroupRows(heads / kv * d, d))
  }

  /** The first shard is whole groups, and every shard is cut into pieces of its group size. */
  ghost predicate SplitAlike<T>(shards: seq<seq<T>>, groups: nat, perKv: nat)
    requires shards != []
  {
    groups > 0 &&
    var d := HeadRows(|shards[0]|, groups, perKv);
    WholeGroups(|shards[0]|, groups, perKv) && AllChunkInto(shards, groups, GroupRows(perKv * d, d))
  }

  /** The heads and groups divide up, and the shards are split alike. */
  ghost predicate SplitsForTp<T>(shards: seq<seq<T>>, heads: nat, kv: nat, tp: nat)
    requires shards != [] && kv > 0 && tp > 0
  {
    heads % kv == 0 && kv >= tp && SplitAlike(shards, kv / tp, heads / kv)
  }

  ghost predicate StacksForTp<T>(r: Qkv<T>, shards: seq<seq<T>>, heads: nat, kv: nat, tp: nat)
    requires shards != [] && kv > 0 && tp > 0
  {
    IsStacked(r, shards, kv / tp, heads / kv)
  }

  /** The reference of the stacked shards, for the group size of the first one; nothing of empty shards. */
  ghost predicate IsStacked<T>(r: Qkv<T>, shards: seq<seq<T>>, groups: nat, perKv: nat)
    requires shards != []
  {
    groups > 0 &&
    var d := HeadRows(|shards[0]|, groups, perKv);
    if d == 0 then r == Qkv([], [], []) else IsReferenceOf(r, Concat(shards), perKv * d, d)
  }

  ghost predicate IsReferenceOf<T>(r: Qkv<T>, full: seq<T>, q: nat, d: nat)
    requires d > 0
  {
    var n := |full| / GroupRows(q, d);
    |full| == n * GroupRows(q, d) && r == Reference(full, n, q, d)
  }

  /** Pieces of shards of any sizes are those of the stacked shards. */
  lemma {:induction false} PiecesOfStacked<T>(shards: seq<seq<T>>, n: nat, size: nat)
    requires n > 0 && size > 0 && AllChunkInto(shards, n, size)
    ensures Divides(size, |Concat(shards)|) && ShardGroups(shards, size) == Cut(Concat(shards), size)
  {
    if shards != [] {
      hide Cut, ChunksInto, Divides, Share;
      assert shards[0] in shards;
      PiecesOfStacked(shards[1..], n, size);
      WholePieces(|shards[0]|, n, size);
      CutOfConcat(shards[0], Concat(shards[1..]), size, Share(|shards[0]|, size));
      SumDivides(|shards[0]|, |Concat(shards[1..])|, size);
    }
  }

  lemma WholePieces(rows: nat, n: nat, size: nat)
    requires n > 0 && size > 0 && ChunksInto(rows, n, size)
    ensures Divides(size, rows) && rows == Share(rows, size) * size
  {
  }

  lemma SumDivides(a: nat, b: nat, k: nat)
    requires k > 0 && Divides(k, a) && Divides(k, b)
    ensures Divides(k, a + b)
  {
    assert a + b == (a / k + b / k) * k;
    DivUnique(a + b, k, a / k + b / k, 0);
  }

  lemma UnfusesIsReference<T>(r: Qkv<T>, shards: seq<seq<T>>, n: nat, q: nat, d: nat)
    requires n > 0 && d > 0 && AllChunkInto(shards, n, GroupRows(q, d)) && UnfusesShards(r, shards, q, d)
    ensures IsReferenceOf(r, Concat(shards), q, d)
  {
    hide AllOfLength, Cut, ShardGroups, Slices, ChunksInto, Concat;
    var full, size := Concat(shards), GroupRows(q, d);
    PiecesOfStacked(shards, n, size);
    assert |full| == (|full| / size) * size;
  }

  /** The sizes the code takes from the first shard. */
  lemma FirstShardDecides<T>(first: seq<T>, groups: nat, perKv: nat)
    requires groups > 0 && |first| % (perKv + 2) == 0
    ensures var q, k := QuerySize(|first|, perKv, groups), KeySize(|first|, perKv, groups);
      var d := HeadRows(|first|, groups, perKv);
      if WholeGroups(|first|, groups, perKv) then q == perKv * d && k == d && (d == 0 ==> first == [])
      else !ChunksInto(|first|, groups, GroupRows(q, k))
  {
    hide WholeGroups, QuerySize, KeySize, HeadRows;
    if first == [] {
      NoRowsAreWhole(groups, perKv);
      NoHeadRows(groups, perKv);
    } else if WholeGroups(|first|, groups, perKv) {
      MergerSizesWhole(|first|, groups, perKv);
    } else {
      MergerSizesShort(|first|, groups, perKv);
    }
  }

  lemma NoHeadRows(kv: nat, perKv: nat)
    requires kv > 0
    ensures HeadRows(0, kv, perKv) == 0 == perKv * HeadRows(0, kv, perKv)
  {
  }

  /** `default_tp_concat_fn` of a fused attention weight: it succeeds exactly when the first shard is whole groups and
      every shard is cut into pieces of that size, and then gives the reference of the stacked shards.  Shards of a
      proper tensor do, for every tensor-parallel degree that divides the key-value heads. */
  method DefaultTpConcat<T>(shards: seq<seq<T>>, heads: nat, kvHeads: nat, trainTp: nat, ghost d: nat)
      returns (r: Result<Qkv<T>>)
    requires shards != [] && kvHeads > 0 && trainTp > 0
    ensures r.Ok? <==> SplitsForTp(shards, heads, kvHeads, trainTp)
    ensures r.Failed? ==>
      r.why == if !Divides(kvHeads, heads) || !Divides(Share(heads, kvHeads) + 2, |shards[0]|) then AssertionError else ValueError
    ensures r.Ok? ==> StacksForTp(r.value, shards, heads, kvHeads, trainTp)
    ensures ProperShards(shards, heads, kvHeads, trainTp, d) ==> IsReference(r, Concat(shards), heads, kvHeads, d)
  {
    hide *;
    if ProperShards(shards, heads, kvHeads, trainTp, d) { ProperSplits(shards, heads, kvHeads, trainTp, d); }
    SplitsWhen(shards, heads, kvHeads, trainTp);
    if !Divides(kvHeads, heads) { return Failed(AssertionError); }
    var perKv, groups := Share(heads, kvHeads), Share(kvHeads, trainTp);
    if !Divides(perKv + 2, |shards[0]|) { return Failed(AssertionError); }
    if groups == 0 { return Failed(ValueError); }
    r := ConcatByGroups(shards, groups, perKv);
    if r.Ok? { StacksWhen(r.value, shards, heads, kvHeads, trainTp); }
    if ProperShards(shards, heads, kvHeads, trainTp, d) { ProperStacked(r.value, shards, heads, kvHeads, trainTp, d); }
  }

  predicate Divides(k: nat, a: nat)
    requires k > 0
  {
    a % k == 0
  }

  function Share(a: nat, k: nat): nat
    requires k > 0
  {
    a / k
  }

  lemma SplitsWhen<T>(shards: seq<seq<T>>, heads: nat, kv: nat, tp: nat)
    requires shards != [] && kv > 0 && tp > 0
    ensures SplitsForTp(shards, heads, kv, tp) <==> Divides(kv, heads) && SplitAlike(shards, Share(kv, tp), Share(heads, kv))
    ensures SplitsForTp(shards, heads, kv, tp) ==> Divides(Share(heads, kv) + 2, |shards[0]|) && Share(kv, tp) > 0
  {
    assert kv / tp > 0 <==> kv >= tp;
  }

  lemma StacksWhen<T>(r: Qkv<T>, shards: seq<seq<T>>, heads: nat, kv: nat, tp: nat)
    requires shards != [] && kv > 0 && tp > 0 && IsStacked(r, shards, Share(kv, tp), Share(heads, kv))
    ensures StacksForTp(r, shards, heads, kv, tp)
  {
  }

  /** The loop, with the sizes of the first shard. */
  method ConcatByGroups<T>(shards: seq<seq<T>>, groups: nat, perKv: nat) returns (r: Result<Qkv<T>>)
    requires shards != [] && groups > 0 && Divides(perKv + 2, |shards[0]|)
    ensures r.Ok? <==> SplitAlike(shards, groups, perKv)
    ensures r.Ok? ==> IsStacked(r.value, shards, groups, perKv)
    ensures r.Failed? ==> r.why == ValueError
  {
    hide WholeGroups, HeadRows, QuerySize, KeySize, ChunksInto, GroupRows, IsReferenceOf, UnfusesShards, Concat;
    FirstShardDecides(shards[0], groups, perKv);
    assert shards[0] in shards;
    var q, d := QuerySize(|shards[0]|, perKv, groups), KeySize(|shards[0]|, perKv, groups);
    r := CollectShards(shards, groups, q, d);
    if r.Ok? {
      if d > 0 { UnfusesIsReference(r.value, shards, groups, q, d); } else { UnfusesNothing(r.value, shards, q, d); }
    }
  }

  lemma UnfusesNothing<T>(r: Qkv<T>, shards: seq<seq<T>>, q: nat, d: nat)
    requires q == d == 0 && UnfusesShards(r, shards, q, d)
    ensures r == Qkv([], [], [])
  {
  }

  lemma ProperSplits<T>(shards: seq<seq<T>>, heads: nat, kv: nat, tp: nat, d: nat)
    requires ProperShards(shards, heads, kv, tp, d)
    ensures kv > 0 && tp > 0 && shards != [] && SplitsForTp(shards, heads, kv, tp)
    ensures HeadRows(|shards[0]|, kv / tp, heads / kv) == d
  {
    var n, perKv := kv / tp, heads / kv;
    ShardLength(shards, n * GroupRows(perKv * d, d));
    ShardSizes(n, perKv, d);
    MultipleDivides(d, n);
    assert n * d == d * n;
    MulMonotone(1, n, tp);
    hide GroupRows, Chunk, Cut, ChunksInto;
    forall s | s in shards ensures ChunksInto(|s|, n, GroupRows(perKv * d, d)) {
      WholeChunks(s, n, perKv * d, d);
      ChunksAre(s, n, GroupRows(perKv * d, d));
    }
  }

  lemma ProperLength<T>(shards: seq<seq<T>>, heads: nat, kv: nat, tp: nat, d: nat)
    requires ProperShards(shards, heads, kv, tp, d)
    ensures |Concat(shards)| == kv * GroupRows(heads / kv * d, d)
  {
    hide GroupRows, Concat;
    var n, size := kv / tp, GroupRows(heads / kv * d, d);
    ConcatLength(shards, n * size);
    TimesAssociates(tp, n, size);
    assert tp * n == kv;
  }

  lemma ProperStacked<T>(r: Qkv<T>, shards: seq<seq<T>>, heads: nat, kv: nat, tp: nat, d: nat)
    requires ProperShards(shards, heads, kv, tp, d) && shards != [] && StacksForTp(r, shards, heads, kv, tp)
    ensures IsReference(Ok(r), Concat(shards), heads, kv, d)
  {
    hide GroupRows, Concat, Reference, HeadRows, AllOfLength, SplitAlike;
    ProperSplits(shards, heads, kv, tp, d);
    ProperLength(shards, heads, kv, tp, d);
    PositiveRows(heads / kv * d, d);
    MultipleDivides(kv, GroupRows(heads / kv * d, d));
  }

  lemma ShardLength<T>(shards: seq<seq<T>>, each: nat)
    requires AllOfLength(shards, each)
    ensures forall i :: 0 <= i < |shards| ==> |shards[i]| == each
  {
    forall i | 0 <= i < |shards| ensures |shards[i]| == each { assert shards[i] in shards; }
  }

  // ---------------------------------------------------------------- conversion of a gathered tensor

  /** Python's clamping slice. */
  function SliceOf<T>(s: seq<T>, lo: nat, hi: nat): seq<T> {
    var top := if hi <= |s| then hi else |s|;
    if lo <= top then s[lo..top] else []
  }

  /** The inner loop of the conversion: three slices of each chunk, with no check of their sizes. */
  method SliceChunks<T>(chunks: seq<seq<T>>, q: nat, d: nat) returns (r: Qkv<T>)
    ensures AllOfLength(chunks, GroupRows(q, d)) ==> r == Unfused(chunks, q, d)
  {
    hide Unfused;
    r := Qkv([], [], []);
    NothingUnfused<T>(q, d);
    for i := 0 to |chunks|
      invariant AllOfLength(chunks, GroupRows(q, d)) ==>
        AllOfLength(chunks[..i], GroupRows(q, d)) && r == Unfused(chunks[..i], q, d)
    {
      var chunk := chunks[i];
      if AllOfLength(chunks, GroupRows(q, d)) {
        assert chunk in chunks;
        assert chunks[..i + 1] == chunks[..i] + [chunk];
        UnfusedOfConcat(chunks[..i], [chunk], q, d);
        UnfusedOfOne(chunk, q, d);
      }
      r := r.Plus(Qkv(SliceOf(chunk, 0, q), SliceOf(chunk, q, q + d), SliceOf(chunk, q + d, |chunk|)));
    }
    assert chunks[..|chunks|] == chunks;
  }

  /** The gathered tensor a model of these sizes has: kv whole groups, split evenly over tp ranks. */
  ghost predicate ProperTensor<T>(full: seq<T>, heads: nat, kv: nat, headDim: nat, tp: nat) {
    kv > 0 && tp > 0 && headDim > 0 && heads % kv == 0 && kv % tp == 0 && kv / tp > 0 &&
    |full| == kv * GroupRows(heads / kv * headDim, headDim)
  }

  /** Rows one rank holds, as the conversion computes them. */
  function RankQuery(heads: nat, headDim: nat, tp: nat): nat
    requires tp > 0
  {
    headDim * heads / tp
  }

  lemma RankSizes(heads: nat, kv: nat, headDim: nat, tp: nat)
    requires kv > 0 && tp > 0 && heads % kv == 0 && kv % tp == 0 && kv / tp > 0
    ensures var n, perKv := kv / tp, heads / kv;
      RankQuery(heads, headDim, tp) == n * (perKv * headDim) && RankQuery(kv, headDim, tp) == n * headDim &&
      RankQuery(heads, headDim, tp) / n == perKv * headDim && RankQuery(kv, headDim, tp) / n == headDim
  {
    var n, perKv := kv / tp, heads / kv;
    assert kv == n * tp && heads == perKv * kv;
    assert headDim * heads == (n * (perKv * headDim)) * tp;
    MultipleDivides(n * (perKv * headDim), tp);
    assert headDim * kv == (n * headDim) * tp;
    MultipleDivides(n * headDim, tp);
    assert n * (perKv * headDim) == (perKv * headDim) * n && n * headDim == headDim * n;
    MultipleDivides(perKv * headDim, n);
    MultipleDivides(headDim, n);
  }

  /** The i-th rank's rows of a tensor of whole shards. */
  lemma CutAt<T>(full: seq<T>, size: nat, n: nat, i: nat)
    requires size > 0 && |full| == n * size && i < n
    ensures i < |Cut(full, size)| && SliceOf(full, i * size, (i + 1) * size) == Cut(full, size)[i]
  {
    hide Cut, Concat;
    CutWhole(full, size, n);
    MulSucc(i, size);
    MulMonotone(i + 1, n, size);
    var block := Cut(full, size)[i];
    assert block in Cut(full, size);
    forall j | 0 <= j < size ensures full[i * size + j] == block[j] { ConcatAt(Cut(full, size), size, i, j); }
  }

  /** What the conversion relies on when the tensor is proper. */
  lemma ProperRanks<T>(full: seq<T>, heads: nat, kv: nat, headDim: nat, tp: nat)
    requires ProperTensor(full, heads, kv, headDim, tp)
    ensures kv / tp > 0 && Share(kv, tp) == kv / tp && kv >= tp && tp * (kv / tp) == kv && heads % kv == 0
    ensures RankIsWhole(|full|, RankQuery(heads, headDim, tp), RankQuery(kv, headDim, tp), kv / tp, tp,
                        heads / kv * headDim, headDim)
  {
    var n, q := kv / tp, heads / kv * headDim;
    RankSizes(heads, kv, headDim, tp);
    assert n * GroupRows(q, headDim) == n * q + 2 * (n * headDim);
    TimesAssociates(tp, n, GroupRows(q, headDim));
    MulMonotone(1, n, tp);
  }

  /** The shards whose keys and values are kept: all of them, or with fewer heads than ranks those of some ranks. */
  predicate KeepsHeads(rank: nat, kv: nat, tp: nat)
    requires tp > 0
  {
    kv >= tp || OnHead(rank, kv, tp)
  }

  /** The rank starts where the rows of some head start, when the heads are spread over the ranks. */
  predicate OnHead(rank: nat, kv: nat, tp: nat)
    requires tp > 0
  {
    rank * kv % tp == 0
  }

  function KeptShards<T>(shards: seq<seq<T>>, kv: nat, tp: nat): seq<seq<T>>
    requires tp > 0
  {
    if shards == [] then [] else
    var last := |shards| - 1;
    KeptShards(shards[..last], kv, tp) + if KeepsHeads(last, kv, tp) then [shards[last]] else []
  }

  lemma {:induction false} KeptAreShards<T>(shards: seq<seq<T>>, kv: nat, tp: nat, each: nat)
    requires tp > 0 && AllOfLength(shards, each)
    ensures AllOfLength(KeptShards(shards, kv, tp), each)
    ensures kv >= tp ==> KeptShards(shards, kv, tp) == shards
  {
    if shards != [] {
      var last := |shards| - 1;
      assert shards[last] in shards && shards == shards[..last] + [shards[last]];
      KeptAreShards(shards[..last], kv, tp, each);
    }
  }

  ghost function ShardsOf<T>(full: seq<T>, groups: nat, tp: nat, q: nat, d: nat): (r: seq<seq<T>>)
    requires groups > 0 && d > 0 && |full| == tp * (groups * GroupRows(q, d))
    ensures |r| == tp && AllOfLength(r, groups * GroupRows(q, d)) && Concat(r) == full
  {
    MulMonotone(1, groups, GroupRows(q, d));
    CutWhole(full, groups * GroupRows(q, d), tp);
    Cut(full, groups * GroupRows(q, d))
  }

  /** The reference of a list of shards, stacked. */
  ghost function Stacked<T>(shards: seq<seq<T>>, groups: nat, q: nat, d: nat): Qkv<T>
    requires groups > 0 && d > 0 && AllOfLength(shards, groups * GroupRows(q, d))
  {
    ShardsReference(shards, groups, q, d);
    MulMonotone(0, |shards|, groups);
    Reference(Concat(shards), |shards| * groups, q, d)
  }

  /** What the conversion gives: the queries of every shard, the keys and values of the kept ones. */
  ghost function Converted<T>(full: seq<T>, groups: nat, tp: nat, kv: nat, q: nat, d: nat): Qkv<T>
    requires groups > 0 && tp > 0 && d > 0 && |full| == tp * (groups * GroupRows(q, d))
  {
    var shards := ShardsOf(full, groups, tp, q, d);
    KeptAreShards(shards, kv, tp, groups * GroupRows(q, d));
    var heads := Stacked(KeptShards(shards, kv, tp), groups, q, d);
    Qkv(Stacked(shards, groups, q, d).q, heads.k, heads.v)
  }

  lemma StackedIsReference<T>(full: seq<T>, groups: nat, tp: nat, n: nat, q: nat, d: nat)
    requires groups > 0 && d > 0 && n == tp * groups && |full| == tp * (groups * GroupRows(q, d))
    ensures |full| == n * GroupRows(q, d)
    ensures Stacked(ShardsOf(full, groups, tp, q, d), groups, q, d) == Reference(full, n, q, d)
  {
    hide Reference, GroupRows, AllOfLength, ShardsOf, Concat;
    TimesAssociates(tp, groups, GroupRows(q, d));
  }

  /** With at least as many heads as ranks that is the reference of the whole tensor. */
  lemma ConvertedIsReference<T>(full: seq<T>, groups: nat, tp: nat, n: nat, kv: nat, q: nat, d: nat)
    requires groups > 0 && 0 < tp <= kv && d > 0 && n == tp * groups && |full| == tp * (groups * GroupRows(q, d))
    ensures |full| == n * GroupRows(q, d)
    ensures Converted(full, groups, tp, kv, q, d) == Reference(full, n, q, d)
  {
    hide Reference, GroupRows, AllOfLength, ShardsOf, KeptShards, Stacked;
    StackedIsReference(full, groups, tp, n, q, d);
    KeptAreShards(ShardsOf(full, groups, tp, q, d), kv, tp, groups * GroupRows(q, d));
  }

  /** What the loop has collected from the shards so far. */
  ghost predicate Collected<T>(acc: Qkv<T>, shards: seq<seq<T>>, kept: seq<seq<T>>, q: nat, d: nat)
    requires d > 0
  {
    var size := GroupRows(q, d);
    AllOfLength(ShardGroups(shards, size), size) && AllOfLength(ShardGroups(kept, size), size)
    && acc.q == Unfused(ShardGroups(shards, size), q, d).q
    && acc.k == Unfused(ShardGroups(kept, size), q, d).k && acc.v == Unfused(ShardGroups(kept, size), q, d).v
  }

  lemma ShardGroupsPlus<T>(shards: seq<seq<T>>, shard: seq<T>, q: nat, d: nat)
    requires d > 0 && AllOfLength(ShardGroups(shards, GroupRows(q, d)), GroupRows(q, d))
    requires AllOfLength(Cut(shard, GroupRows(q, d)), GroupRows(q, d))
    ensures var size := GroupRows(q, d);
      AllOfLength(ShardGroups(shards + [shard], size), size)
      && Unfused(ShardGroups(shards + [shard], size), q, d)
         == Unfused(ShardGroups(shards, size), q, d).Plus(Unfused(Cut(shard, size), q, d))
  {
    hide *;
    PositiveRows(q, d);
    var more := shards + [shard];
    assert more[..|shards| + 1] == more && more[..|shards|] == shards;
    ShardGroupsOneMore(more, GroupRows(q, d), |shards|);
    UnfusedOfConcat(ShardGroups(shards, GroupRows(q, d)), Cut(shard, GroupRows(q, d)), q, d);
  }

  /** One more rank's rows. */
  lemma CollectOneMore<T>(acc: Qkv<T>, rows: Qkv<T>, shards: seq<seq<T>>, i: nat, kv: nat, tp: nat, q: nat, d: nat)
    requires tp > 0 && d > 0 && i < |shards| && Collected(acc, shards[..i], KeptShards(shards[..i], kv, tp), q, d)
    requires AllOfLength(Cut(shards[i], GroupRows(q, d)), GroupRows(q, d))
    requires rows == Unfused(Cut(shards[i], GroupRows(q, d)), q, d)
    ensures Collected(acc.Plus(if KeepsHeads(i, kv, tp) then rows else Qkv(rows.q, [], [])),
                      shards[..i + 1], KeptShards(shards[..i + 1], kv, tp), q, d)
  {
    hide Unfused, Cut, GroupRows, AllOfLength, ShardGroups, KeepsHeads;
    assert shards[..i + 1] == shards[..i] + [shards[i]] && shards[..i + 1][..i] == shards[..i];
    ShardGroupsPlus(shards[..i], shards[i], q, d);
    if KeepsHeads(i, kv, tp) {
      ShardGroupsPlus(KeptShards(shards[..i], kv, tp), shards[i], q, d);
    } else {
      assert KeptShards(shards[..i + 1], kv, tp) == KeptShards(shards[..i], kv, tp);
    }
  }

  lemma CollectedIsConverted<T>(acc: Qkv<T>, full: seq<T>, groups: nat, tp: nat, kv: nat, q: nat, d: nat)
    requires groups > 0 && tp > 0 && d > 0 && |full| == tp * (groups * GroupRows(q, d))
    requires var shards := ShardsOf(full, groups, tp, q, d); Collected(acc, shards, KeptShards(shards, kv, tp), q, d)
    ensures acc == Converted(full, groups, tp, kv, q, d)
  {
    hide Unfused, Cut, GroupRows, AllOfLength, ShardGroups, KeptShards, Reference, ShardsOf, Concat;
    PositiveRows(q, d);
    var shards := ShardsOf(full, groups, tp, q, d);
    KeptAreShards(shards, kv, tp, groups * GroupRows(q, d));
    ShardsReference(shards, groups, q, d);
    ShardsReference(KeptShards(shards, kv, tp), groups, q, d);
  }

  lemma NothingCollected<T>(shards: seq<seq<T>>, kv: nat, tp: nat, q: nat, d: nat)
    requires d > 0 && tp > 0
    ensures Collected(Qkv<T>.Qkv([], [], []), shards[..0], KeptShards(shards[..0], kv, tp), q, d)
  {
    NothingUnfused<T>(q, d);
  }

  lemma RanksConverted<T>(acc: Qkv<T>, full: seq<T>, qRank: nat, kvRank: nat, groups: nat, tp: nat, kv: nat)
    requires groups > 0 && tp > 0
    requires RankIsWhole(|full|, qRank, kvRank, groups, tp, qRank / groups, kvRank / groups) ==>
      acc == Converted(full, groups, tp, kv, qRank / groups, kvRank / groups)
    ensures ConvertsWholeRanks(Ok(acc), full, qRank, kvRank, groups, tp, kv)
  {
  }

  /** The loop over ranks.  It never fails; when the ranks' rows are whole groups, it un-interleaves them. */
  method ConvertRanks<T>(full: seq<T>, qRank: nat, kvRank: nat, groups: nat, tp: nat, kvHeads: nat)
      returns (r: Result<Qkv<T>>)
    requires groups > 0 && tp > 0
    ensures r.Ok? && ConvertsWholeRanks(r, full, qRank, kvRank, groups, tp, kvHeads)
  {
    hide *;
    var total := qRank + 2 * kvRank;
    ghost var q, d := qRank / groups, kvRank / groups;
    ghost var proper := RankIsWhole(|full|, qRank, kvRank, groups, tp, q, d);
    ghost var shards := [];
    if proper {
      WholeRanks(full, qRank, kvRank, groups, tp, q, d);
      shards := ShardsOf(full, groups, tp, q, d);
      NothingCollected(shards, kvHeads, tp, q, d);
    }
    var acc := Qkv([], [], []);
    for i := 0 to tp
      invariant proper ==> Collected(acc, shards[..i], KeptShards(shards[..i], kvHeads, tp), q, d)
    {
      var part := SliceOf(full, i * total, (i + 1) * total);
      if proper {
        CutAt(full, total, tp, i);
        ShardLength(shards, total);
        WholeChunks(part, groups, q, d);
        CutWhole(part, GroupRows(q, d), groups);
      }
      var rows := SliceChunks(Chunk(part, groups), qRank / groups, kvRank / groups);
      if proper { CollectOneMore(acc, rows, shards, i, kvHeads, tp, q, d); }
      if KeepsHeads(i, kvHeads, tp) {
        acc := acc.Plus(rows);
      } else {
        acc := acc.Plus(Qkv(rows.q, [], []));
      }
    }
    if proper { CollectedIsConverted(acc, full, groups, tp, kvHeads, q, d); }
    r := Ok(acc);
    RanksConverted(acc, full, qRank, kvRank, groups, tp, kvHeads);
  }

  /** A rank's rows are `groups` groups of q query and d key rows, and tp ranks make up the tensor. */
  ghost predicate RankIsWhole(rows: nat, qRank: nat, kvRank: nat, groups: nat, tp: nat, q: nat, d: nat)
    requires groups > 0
  {
    d > 0 && qRank / groups == q && kvRank / groups == d &&
    qRank + 2 * kvRank == groups * GroupRows(q, d) && rows == tp * (groups * GroupRows(q, d))
  }

  lemma WholeRanks<T>(full: seq<T>, qRank: nat, kvRank: nat, groups: nat, tp: nat, q: nat, d: nat)
    requires groups > 0 && RankIsWhole(|full|, qRank, kvRank, groups, tp, q, d)
    ensures var total := qRank + 2 * kvRank;
      total > 0 && d > 0 && GroupRows(q, d) > 0 && total == groups * GroupRows(q, d) && |full| == tp * total &&
      Cut(full, total) == ShardsOf(full, groups, tp, q, d) &&
      qRank / groups == q && kvRank / groups == d &&
      |Cut(full, total)| == tp && AllOfLength(Cut(full, total), total) && Concat(Cut(full, total)) == full &&
      Cut(full, total)[..tp] == Cut(full, total)
  {
    PositiveRows(q, d);
    MulMonotone(1, groups, GroupRows(q, d));
    CutWhole(full, qRank + 2 * kvRank, tp);
  }

  /** Rows of keys, and of values, one rank holds: its share of the heads, or one head's with fewer heads than ranks. */
  function RankKeys(kv: nat, headDim: nat, tp: nat): nat
    requires tp > 0
  {
    if kv < tp then headDim else RankQuery(kv, headDim, tp)
  }

  ghost predicate ConvertsWholeRanks<T>(r: Result<Qkv<T>>, full: seq<T>, qRank: nat, kvRank: nat, groups: nat, tp: nat, kv: nat) {
    tp > 0 && groups > 0 &&
    (RankIsWhole(|full|, qRank, kvRank, groups, tp, qRank / groups, kvRank / groups) ==>
     r == Ok(Converted(full, groups, tp, kv, qRank / groups, kvRank / groups)))
  }

  lemma ProperIsConverted<T>(r: Result<Qkv<T>>, full: seq<T>, heads: nat, kv: nat, headDim: nat, tp: nat)
    requires ProperTensor(full, heads, kv, headDim, tp)
    requires ConvertsWholeRanks(r, full, RankQuery(heads, headDim, tp), RankKeys(kv, headDim, tp), Share(kv, tp), tp, kv)
    ensures IsReference(r, full, heads, kv, headDim)
  {
    hide Reference, Converted, GroupRows;
    ProperRanks(full, heads, kv, headDim, tp);
    ConvertedIsReference(full, kv / tp, tp, kv, kv, heads / kv * headDim, headDim);
  }

  /** The gathered tensor of a model with fewer key-value heads than ranks: on every rank its share of the query heads,
      and one head's keys and values. */
  ghost predicate ReplicatedTensor<T>(full: seq<T>, heads: nat, kv: nat, headDim: nat, tp: nat) {
    0 < kv < tp && headDim > 0 && heads % tp == 0 && |full| == tp * GroupRows(heads / tp * headDim, headDim)
  }

  ghost predicate IsConverted<T>(r: Result<Qkv<T>>, full: seq<T>, heads: nat, kv: nat, headDim: nat, tp: nat) {
    tp > 0 && headDim > 0 && |full| == tp * (1 * GroupRows(heads / tp * headDim, headDim)) &&
    r == Ok(Converted(full, 1, tp, kv, heads / tp * headDim, headDim))
  }

  lemma ReplicatedIsConverted<T>(r: Result<Qkv<T>>, full: seq<T>, heads: nat, kv: nat, headDim: nat, tp: nat)
    requires ReplicatedTensor(full, heads, kv, headDim, tp)
    requires ConvertsWholeRanks(r, full, RankQuery(heads, headDim, tp), RankKeys(kv, headDim, tp), 1, tp, kv)
    ensures IsConverted(r, full, heads, kv, headDim, tp)
  {
    hide Converted;
    ShareOfHeads(heads, headDim, tp);
  }

  lemma ShareOfHeads(heads: nat, headDim: nat, tp: nat)
    requires tp > 0 && heads % tp == 0
    ensures RankQuery(heads, headDim, tp) == heads / tp * headDim
  {
    assert headDim * heads == (heads / tp * headDim) * tp;
    MultipleDivides(heads / tp * headDim, tp);
  }

  lemma GroupShare(a: nat, k: nat)
    requires k > 0
    ensures (Share(a, k) == 0 <==> a < k) && (a == k ==> Share(a, k) == 1)
  {
  }

  /** `convert_qkv_shard`.  It returns exactly when there is a query group for every rank, and otherwise divides by
      zero.  Whole groups on every rank are un-interleaved; those of a proper tensor are the reference, whatever the
      tensor-parallel degree. */
  method ConvertQkvShard<T>(full: seq<T>, heads: nat, kvHeads: nat, headDim: nat, tp: nat, queryGroups: nat)
      returns (r: Result<Qkv<T>>)
    requires tp > 0 && kvHeads > 0
    ensures r.Ok? <==> queryGroups >= tp
    ensures r.Failed? ==> r == Failed(ZeroDivisionError)
    ensures queryGroups >= tp ==>
      ConvertsWholeRanks(r, full, RankQuery(heads, headDim, tp), RankKeys(kvHeads, headDim, tp), Share(queryGroups, tp), tp, kvHeads)
    ensures ProperTensor(full, heads, kvHeads, headDim, tp) && queryGroups == kvHeads ==>
      IsReference(r, full, heads, kvHeads, headDim)
    ensures ReplicatedTensor(full, heads, kvHeads, headDim, tp) && queryGroups == tp ==>
      IsConverted(r, full, heads, kvHeads, headDim, tp)
  {
    hide *;
    var groups := Share(queryGroups, tp);
    GroupShare(queryGroups, tp);
    if ProperTensor(full, heads, kvHeads, headDim, tp) { ProperRanks(full, heads, kvHeads, headDim, tp); }
    if groups == 0 { return Failed(ZeroDivisionError); }
    var qRank := RankQuery(heads, headDim, tp);
    var kvRank := RankKeys(kvHeads, headDim, tp);
    r := ConvertRanks(full, qRank, kvRank, groups, tp, kvHeads);
    if ProperTensor(full, heads, kvHeads, headDim, tp) && queryGroups == kvHeads {
      ProperIsConverted(r, full, heads, kvHeads, headDim, tp);
    }
    if ReplicatedTensor(full, heads, kvHeads, headDim, tp) && queryGroups == tp {
      ReplicatedIsConverted(r, full, heads, kvHeads, headDim, tp);
    }
  }

  // ---------------------------------------------------------------- which heads are kept

  /** The least positive rank that keeps its heads again, after rank 0. */
  ghost predicate IsStride(m: nat, kv: nat, tp: nat)
    requires tp > 0
  {
    0 < m <= tp && OnHead(m, kv, tp) && forall i :: 0 < i < m ==> !OnHead(i, kv, tp)
  }

  lemma {:induction false} StrideExists(kv: nat, tp: nat, from: nat) returns (m: nat)
    requires 0 < from <= tp && forall i :: 0 < i < from ==> !OnHead(i, kv, tp)
    ensures IsStride(m, kv, tp)
    decreases tp - from
  {
    if OnHead(from, kv, tp) {
      m := from;
    } else {
      MultipleDivides(kv, tp);
      assert tp * kv == kv * tp;
      m := StrideExists(kv, tp, from + 1);
    }
  }

  /** A multiple of k more or less changes no divisibility by k. */
  lemma MultipleMore(a: nat, b: nat, k: nat)
    requires k > 0 && b % k == 0
    ensures (a + b) % k == 0 <==> a % k == 0
  {
    var q := b / k;
    assert b == q * k;
    assert a + b == (a / k + q) * k + a % k;
    DivUnique(a + b, k, a / k + q, a % k);
  }

  /** The ranks that keep their heads are its multiples. */
  lemma {:induction false} KeptAreMultiples(kv: nat, tp: nat, m: nat, rank: nat)
    requires tp > 0 && IsStride(m, kv, tp)
    ensures OnHead(rank, kv, tp) <==> rank % m == 0
  {
    hide OnHead;
    if rank >= m {
      KeptAreMultiples(kv, tp, m, rank - m);
      OneStrideMore(kv, tp, m, rank - m);
    } else {
      SmallRemainder(rank, m);
      ZeroIsOnHead(kv, tp);
    }
  }

  lemma SmallRemainder(a: nat, m: nat)
    requires a < m
    ensures a % m == a
  {
  }

  lemma ZeroIsOnHead(kv: nat, tp: nat)
    requires tp > 0
    ensures OnHead(0, kv, tp)
  {
  }

  lemma OneStrideMore(kv: nat, tp: nat, m: nat, rank: nat)
    requires tp > 0 && m > 0 && OnHead(m, kv, tp)
    ensures OnHead(rank + m, kv, tp) <==> OnHead(rank, kv, tp)
    ensures (rank + m) % m == rank % m
  {
    assert (rank + m) * kv == rank * kv + m * kv;
    MulMonotone(0, rank, kv);
    MultipleMore(rank * kv, m * kv, tp);
    DivUnique(rank + m, m, rank / m + 1, rank % m);
  }

  /** So the kept shards are every m-th. */
  lemma {:induction false} KeptAreStrided<T>(shards: seq<seq<T>>, kv: nat, tp: nat, m: nat)
    requires 0 < kv < tp && IsStride(m, kv, tp)
    ensures var kept := KeptShards(shards, kv, tp);
      |shards| <= |kept| * m < |shards| + m
      && forall j :: 0 <= j < |kept| ==> 0 <= j * m < |shards| && kept[j] == shards[j * m]
  {
    if shards != [] {
      var last := |shards| - 1;
      KeptAreStrided(shards[..last], kv, tp, m);
      KeptAreMultiples(kv, tp, m, last);
      OneMoreStride(|KeptShards(shards[..last], kv, tp)|, m, last);
    }
  }

  lemma OneMoreStride(n: nat, m: nat, last: nat)
    requires m > 0 && last <= n * m < last + m
    ensures (n + 1) * m == n * m + m
    ensures if last % m == 0 then n * m == last else last + 1 <= n * m
  {
    MulSucc(n, m);
    MultipleDivides(n, m);
    if last % m == 0 {
      assert last == (last / m) * m;
      OnlyMultiple(n * m, m, last / m);
    }
  }

  /** With fewer heads than ranks, keys and values of at most as many shards as heads are kept, and of exactly as
      many, one in every tp / kv, if and only if the ranks are a multiple of the heads. */
  lemma OneShardPerHead<T>(shards: seq<seq<T>>, kv: nat, tp: nat)
    requires 0 < kv < tp == |shards|
    ensures var kept := KeptShards(shards, kv, tp);
      |kept| <= kv && (|kept| == kv <==> tp % kv == 0)
      && (tp % kv == 0 ==> forall j :: 0 <= j < kv ==> 0 <= j * (tp / kv) < tp && kept[j] == shards[j * (tp / kv)])
  {
    hide KeptShards;
    var m := StrideExists(kv, tp, 1);
    KeptAreStrided(shards, kv, tp, m);
    var n := |KeptShards(shards, kv, tp)|;
    MultipleDivides(kv, tp);
    assert tp * kv == kv * tp;
    KeptAreMultiples(kv, tp, m, tp);
    StrideCounts(kv, tp, m, n);
  }

  lemma StrideCounts(kv: nat, tp: nat, m: nat, n: nat)
    requires 0 < kv < tp && m > 0 && IsStride(m, kv, tp) && Divides(m, tp) && tp <= n * m < tp + m
    ensures n <= kv && (n == kv <==> Divides(kv, tp)) && (Divides(kv, tp) ==> m == Share(tp, kv))
  {
    hide IsStride, Divides, Share;
    WholeStrides(tp, m, n);
    StrideReaches(kv, tp, m);
    FactorAtMost(n, kv, m);
    if n == kv { MultipleIsDivided(m, kv); }
    if Divides(kv, tp) {
      StrideOfMultiple(kv, tp, m);
      FactorAtMost(kv, n, m);
    }
  }

  lemma MultipleIsDivided(a: nat, k: nat)
    requires k > 0
    ensures a * k >= 0 && Divides(k, a * k)
  {
    MultipleDivides(a, k);
  }

  lemma WholeStrides(tp: nat, m: nat, n: nat)
    requires m > 0 && Divides(m, tp) && tp <= n * m < tp + m
    ensures n * m == tp
  {
    MultipleDivides(n, m);
    assert tp == (tp / m) * m;
    OnlyMultiple(n * m, m, tp / m);
  }

  lemma FactorAtMost(a: nat, b: nat, m: nat)
    requires m > 0 && a * m <= m * b
    ensures a <= b
  {
    if a > b { MulMonotone(b + 1, a, m); MulSucc(b, m); }
  }

  lemma StrideReaches(kv: nat, tp: nat, m: nat)
    requires 0 < kv && 0 < tp && IsStride(m, kv, tp)
    ensures m * kv >= tp
  {
    MulMonotone(1, m, kv);
    var t := m * kv / tp;
    assert m * kv == t * tp;
    if t <= 0 { MulMonotone(t, 0, tp); }
    MulMonotone(1, t, tp);
  }

  lemma StrideOfMultiple(kv: nat, tp: nat, m: nat)
    requires 0 < kv && 0 < tp && IsStride(m, kv, tp) && Divides(kv, tp)
    ensures m == Share(tp, kv) && kv * m == tp
  {
    var c := tp / kv;
    assert c * kv == tp;
    MultipleDivides(1, tp);
    assert OnHead(c, kv, tp);
    StrideReaches(kv, tp, m);
    if c > m { MulMonotone(m + 1, c, kv); MulSucc(m, kv); }
  }

  // ---------------------------------------------------------------- what the reference means, row by row

  /** Each fused row of a whole tensor lands in exactly one place of one result, and nothing else does. */
  lemma FusedRowLandsOnce<T>(full: seq<T>, n: nat, q: nat, d: nat, g: nat, x: nat)
    requires d > 0 && |full| == n * GroupRows(q, d) && g < n && x < GroupRows(q, d)
    ensures multiset(full) == multiset(Reference(full, n, q, d).q) + multiset(Reference(full, n, q, d).k) +
                              multiset(Reference(full, n, q, d).v)
    ensures 0 <= g * GroupRows(q, d) + x < |full|
    ensures var (u, row) := (Reference(full, n, q, d), full[g * GroupRows(q, d) + x]);
      if x < q then 0 <= g * q + x < |u.q| && u.q[g * q + x] == row
      else if x < q + d then 0 <= g * d + (x - q) < |u.k| && u.k[g * d + (x - q)] == row
      else 0 <= g * d + (x - q - d) < |u.v| && u.v[g * d + (x - q - d)] == row
  {
    hide *;
    var size := GroupRows(q, d);
    PositiveRows(q, d);
    CutWhole(full, size, n);
    ReferenceIsUnfused(full, n, q, d);
    UnfusedConserves(Cut(full, size), q, d);
    UnfusedAt(Cut(full, size), q, d, g, x);
    CutAt(full, size, n, g);
    RowOfBlock(full, size, n, g, x);
  }

  lemma ReferenceIsUnfused<T>(full: seq<T>, n: nat, q: nat, d: nat)
    requires d > 0 && |full| == n * GroupRows(q, d)
    ensures GroupRows(q, d) > 0 && AllOfLength(Cut(full, GroupRows(q, d)), GroupRows(q, d))
    ensures Reference(full, n, q, d) == Unfused(Cut(full, GroupRows(q, d)), q, d)
  {
    CutWhole(full, GroupRows(q, d), n);
  }

  lemma RowOfBlock<T>(full: seq<T>, size: nat, n: nat, g: nat, x: nat)
    requires size > 0 && |full| == n * size && g < n && x < size
    ensures 0 <= g * size + x < |full| && x < |SliceOf(full, g * size, (g + 1) * size)|
    ensures SliceOf(full, g * size, (g + 1) * size)[x] == full[g * size + x]
  {
    MulSucc(g, size);
    MulMonotone(g + 1, n, size);
    MulMonotone(0, g, size);
  }
}
