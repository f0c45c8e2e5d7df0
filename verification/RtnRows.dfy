/** Round-to-nearest quantisation of a weight row: padded to whole groups, quantised group by group,
    cut back to its width; and the way back. */
module RtnRows {
  import opened Sequences
  import opened Arith
  import opened RealArith
  import opened RtnGroup

  // ---------------------------------------------------------------- padding and grouping

  function Padded<T>(row: seq<T>, zero: T, n: nat): (r: seq<T>)
    requires n >= |row|
    ensures |r| == n && r[..|row|] == row && forall i :: |row| <= i < n ==> r[i] == zero
  {
    row + seq(n - |row|, i => zero)
  }

  /** `(in_features + group_size - 1) // group_size`. */
  function GroupCount(n: nat, g: nat): nat
    requires g > 0
  {
    (n + g - 1) / g
  }

  lemma GroupsSuffice(n: nat, g: nat)
    requires g > 0
    ensures n <= GroupCount(n, g) * g < n + g
  {
  }

  lemma BlockOf(i: nat, g: nat, n: nat)
    requires g > 0 && i < n * g
    ensures 0 <= i / g < n && 0 <= i % g < g && (i / g) * g + i % g == i
  {
    if i / g >= n { MulMonotone(n, i / g, g); }
  }

  /** Cutting undoes stacking. */
  lemma {:induction false} CutConcat<T>(blocks: seq<seq<T>>, g: nat)
    requires g > 0 && AllOfLength(blocks, g)
    ensures Cut(Concat(blocks), g) == blocks
  {
    if blocks != [] {
      assert blocks[0] in blocks;
      CutFirst(blocks[0], Concat(blocks[1..]), g);
      assert blocks[0][g..] + Concat(blocks[1..]) == Concat(blocks[1..]) && blocks[0][..g] == blocks[0];
      CutConcat(blocks[1..], g);
      assert blocks == [blocks[0]] + blocks[1..];
    }
  }

  /** The first n elements of the stacked blocks. */
  function Flattened<T>(blocks: seq<seq<T>>, g: nat, n: nat): (r: seq<T>)
    requires AllOfLength(blocks, g) && n <= |blocks| * g
    ensures |r| == n
  {
    ConcatLength(blocks, g);
    Concat(blocks)[..n]
  }

  /** The row in whole groups. */
  function Grouped<T>(row: seq<T>, zero: T, g: nat, count: nat): (groups: seq<seq<T>>)
    requires g > 0 && |row| <= count * g
    ensures |groups| == count && AllOfLength(groups, g)
  {
    CutWhole(Padded(row, zero, count * g), g, count);
    Cut(Padded(row, zero, count * g), g)
  }

  /** Grouping undoes flattening when the part cut off is all zeros. */
  lemma GroupedFlattened<T>(blocks: seq<seq<T>>, zero: T, g: nat, n: nat)
    requires g > 0 && AllOfLength(blocks, g) && n <= |blocks| * g && ZeroAfter(blocks, zero, g, n)
    ensures Grouped(Flattened(blocks, g, n), zero, g, |blocks|) == blocks
  {
    hide Concat, Cut;
    ConcatLength(blocks, g);
    var flat := Concat(blocks);
    forall i | n <= i < |flat| ensures flat[i] == zero {
      BlockOf(i, g, |blocks|);
      ConcatAt(blocks, g, i / g, i % g);
      assert ElementOf(blocks, g, i / g, i % g) == zero;
    }
    assert Padded(Flattened(blocks, g, n), zero, |blocks| * g) == flat;
    CutConcat(blocks, g);
  }

  ghost predicate ZeroAfter<T>(blocks: seq<seq<T>>, zero: T, g: nat, n: nat)
    requires AllOfLength(blocks, g)
  {
    forall k, j | 0 <= k < |blocks| && 0 <= j < g && k * g + j >= n :: ElementOf(blocks, g, k, j) == zero
  }

  function ElementOf<T>(blocks: seq<seq<T>>, g: nat, k: nat, j: nat): T
    requires AllOfLength(blocks, g) && k < |blocks| && j < g
  {
    assert blocks[k] in blocks;
    blocks[k][j]
  }

  /** Element j of group k is the row's, or padding. */
  lemma GroupedAt<T>(row: seq<T>, zero: T, g: nat, count: nat, k: nat, j: nat)
    requires g > 0 && |row| <= count * g && k < count && j < g
    ensures var x := ElementOf(Grouped(row, zero, g, count), g, k, j);
      0 <= k * g + j && (if k * g + j < |row| then x == row[k * g + j] else x == zero)
  {
    hide Concat, Cut;
    var whole := Padded(row, zero, count * g);
    CutWhole(whole, g, count);
    ConcatAt(Cut(whole, g), g, k, j);
    assert forall i :: 0 <= i < |row| ==> whole[i] == whole[..|row|][i];
  }

  // ---------------------------------------------------------------- one row

  datatype QuantizedRow = QuantizedRow(codes: seq<int>, scales: seq<real>)

  function GroupScales(groups: seq<seq<real>>, bits: Bits): (r: seq<real>)
    ensures |r| == |groups| && forall k :: 0 <= k < |groups| ==> r[k] == Scale(groups[k], QMax(bits))
  {
    seq(|groups|, k requires 0 <= k < |groups| => Scale(groups[k], QMax(bits)))
  }

  function GroupCodes(groups: seq<seq<real>>, bits: Bits): (r: seq<seq<int>>)
    ensures |r| == |groups|
    ensures forall k :: 0 <= k < |groups| ==> r[k] == Codes(groups[k], Scale(groups[k], QMax(bits)), bits)
  {
    seq(|groups|, k requires 0 <= k < |groups| => Codes(groups[k], Scale(groups[k], QMax(bits)), bits))
  }

  function GroupDecodes(codes: seq<seq<int>>, scales: seq<real>): (r: seq<seq<real>>)
    requires |codes| == |scales|
    ensures |r| == |codes| && forall k :: 0 <= k < |codes| ==> r[k] == Decode(codes[k], scales[k])
  {
    seq(|codes|, k requires 0 <= k < |codes| => Decode(codes[k], scales[k]))
  }

  lemma CodesKeepLength(groups: seq<seq<real>>, bits: Bits, g: nat)
    requires AllOfLength(groups, g)
    ensures AllOfLength(GroupCodes(groups, bits), g)
  {
    var codes := GroupCodes(groups, bits);
    forall b | b in codes ensures |b| == g {
      var k :| 0 <= k < |codes| && codes[k] == b;
      assert groups[k] in groups;
    }
  }

  lemma DecodesKeepLength(codes: seq<seq<int>>, scales: seq<real>, g: nat)
    requires |codes| == |scales| && AllOfLength(codes, g)
    ensures AllOfLength(GroupDecodes(codes, scales), g)
  {
    var blocks := GroupDecodes(codes, scales);
    forall b | b in blocks ensures |b| == g {
      var k :| 0 <= k < |blocks| && blocks[k] == b;
      assert codes[k] in codes;
    }
  }

  /** The row's groups; a size of zero or less makes the row one group. */
  function GroupsOf(row: seq<real>, g: int): (groups: seq<seq<real>>)
    ensures g > 0 ==> |groups| == GroupCount(|row|, g) && AllOfLength(groups, g)
  {
    if g <= 0 then [row] else
    GroupsSuffice(|row|, g);
    Grouped(row, 0.0, g, GroupCount(|row|, g))
  }

  function QuantizeRow(row: seq<real>, bits: Bits, g: int): (q: QuantizedRow)
    ensures |q.codes| == |row| && |q.scales| == |GroupsOf(row, g)|
  {
    var groups := GroupsOf(row, g);
    if g <= 0 then
      QuantizedRow(Codes(row, Scale(row, QMax(bits)), bits), [Scale(row, QMax(bits))])
    else
      GroupsSuffice(|row|, g);
      CodesKeepLength(groups, bits, g);
      QuantizedRow(Flattened(GroupCodes(groups, bits), g, |row|), GroupScales(groups, bits))
  }

  /** One scale for the row, or enough group scales for all of it. */
  predicate Shaped(q: QuantizedRow, g: int) {
    if g <= 0 then |q.scales| == 1 else |q.codes| <= |q.scales| * g
  }

  function DequantizeRow(q: QuantizedRow, g: int): (row: seq<real>)
    requires Shaped(q, g)
    ensures |row| == |q.codes|
  {
    if g <= 0 then Decode(q.codes, q.scales[0]) else
    var codes := Grouped(q.codes, 0, g, |q.scales|);
    DecodesKeepLength(codes, q.scales, g);
    Flattened(GroupDecodes(codes, q.scales), g, |q.codes|)
  }

  lemma QuantizedIsShaped(row: seq<real>, bits: Bits, g: int)
    ensures Shaped(QuantizeRow(row, bits, g), g)
  {
    if g > 0 { GroupsSuffice(|row|, g); }
  }

  /** The scale that belongs to column i. */
  function ScaleIndex(i: nat, g: int): nat {
    if g <= 0 then 0 else i / g
  }

  // ---------------------------------------------------------------- groups of a quantised row

  lemma ZeroIsExact(s: real, bits: Bits)
    requires s > 0.0
    ensures Code(0.0, s, bits) == 0 && Times(0, s) == 0.0
  {
    OverTimes(0, s);
    RoundOfInt(0);
  }

  /** The groups quantised and decoded one by one. */
  function DecodedGroups(groups: seq<seq<real>>, bits: Bits): (r: seq<seq<real>>)
    ensures |r| == |groups| && forall k :: 0 <= k < |groups| ==> r[k] == Decoded(groups[k], bits)
  {
    seq(|groups|, k requires 0 <= k < |groups| => Decoded(groups[k], bits))
  }

  lemma DecodedKeepLength(groups: seq<seq<real>>, bits: Bits, g: nat)
    requires AllOfLength(groups, g)
    ensures AllOfLength(DecodedGroups(groups, bits), g)
  {
    var blocks := DecodedGroups(groups, bits);
    forall b | b in blocks ensures |b| == g {
      var k :| 0 <= k < |blocks| && blocks[k] == b;
      assert groups[k] in groups;
    }
  }

  lemma CodesZeroAfter(row: seq<real>, bits: Bits, g: nat)
    requires g > 0
    ensures AllOfLength(GroupCodes(GroupsOf(row, g), bits), g)
    ensures ZeroAfter(GroupCodes(GroupsOf(row, g), bits), 0, g, |row|)
  {
    hide Grouped, Scale, Code;
    var groups := GroupsOf(row, g);
    CodesKeepLength(groups, bits, g);
    GroupsSuffice(|row|, g);
    var codes := GroupCodes(groups, bits);
    forall k, j | 0 <= k < |codes| && 0 <= j < g && k * g + j >= |row|
      ensures ElementOf(codes, g, k, j) == 0
    {
      GroupedAt(row, 0.0, g, |groups|, k, j);
      ZeroIsExact(Scale(groups[k], QMax(bits)), bits);
    }
  }

  lemma DecodedZeroAfter(row: seq<real>, bits: Bits, g: nat)
    requires g > 0
    ensures AllOfLength(DecodedGroups(GroupsOf(row, g), bits), g)
    ensures ZeroAfter(DecodedGroups(GroupsOf(row, g), bits), 0.0, g, |row|)
  {
    hide Grouped, Scale, Code, Times;
    var groups := GroupsOf(row, g);
    DecodedKeepLength(groups, bits, g);
    GroupsSuffice(|row|, g);
    var blocks := DecodedGroups(groups, bits);
    forall k, j | 0 <= k < |blocks| && 0 <= j < g && k * g + j >= |row|
      ensures ElementOf(blocks, g, k, j) == 0.0
    {
      GroupedAt(row, 0.0, g, |groups|, k, j);
      ZeroIsExact(Scale(groups[k], QMax(bits)), bits);
    }
  }

  /** Dequantising sees exactly the groups that were quantised. */
  lemma DequantizedIsDecoded(row: seq<real>, bits: Bits, g: nat)
    requires g > 0
    ensures Shaped(QuantizeRow(row, bits, g), g)
    ensures AllOfLength(DecodedGroups(GroupsOf(row, g), bits), g)
    ensures |row| <= |GroupsOf(row, g)| * g
    ensures DequantizeRow(QuantizeRow(row, bits, g), g) == Flattened(DecodedGroups(GroupsOf(row, g), bits), g, |row|)
  {
    hide Grouped, Scale, Codes, Flattened, Decode;
    var groups, q := GroupsOf(row, g), QuantizeRow(row, bits, g);
    QuantizedIsShaped(row, bits, g);
    GroupsSuffice(|row|, g);
    DecodedKeepLength(groups, bits, g);
    CodesZeroAfter(row, bits, g);
    GroupedFlattened(GroupCodes(groups, bits), 0, g, |row|);
    assert GroupDecodes(GroupCodes(groups, bits), GroupScales(groups, bits)) == DecodedGroups(groups, bits);
  }

  /** Column i of the flattened blocks. */
  lemma FlattenedAt<T>(blocks: seq<seq<T>>, g: nat, n: nat, i: nat)
    requires g > 0 && AllOfLength(blocks, g) && i < n <= |blocks| * g
    ensures 0 <= i / g < |blocks| && 0 <= i % g < g
    ensures Flattened(blocks, g, n)[i] == ElementOf(blocks, g, i / g, i % g)
  {
    ConcatLength(blocks, g);
    BlockOf(i, g, |blocks|);
    ConcatAt(blocks, g, i / g, i % g);
  }

  // ---------------------------------------------------------------- what a row keeps

  /** No column moves by more than half of its own scale, and no code is clamped. */
  ghost predicate ColumnKept(x: real, code: int, y: real, s: real) {
    s > 0.0 && code == Round(Quotient(x, s)) && Abs(y - x) <= s / 2.0
  }

  lemma RowError(row: seq<real>, bits: Bits, g: int, i: nat)
    requires i < |row|
    ensures Shaped(QuantizeRow(row, bits, g), g)
    ensures var q := QuantizeRow(row, bits, g);
      0 <= ScaleIndex(i, g) < |q.scales|
      && ColumnKept(row[i], q.codes[i], DequantizeRow(q, g)[i], q.scales[ScaleIndex(i, g)])
  {
    QuantizedIsShaped(row, bits, g);
    if g <= 0 {
      hide Scale, Code, Codes, Decode, Round, Quotient, Times, Abs;
      GroupError(row, bits, i);
      assert DequantizeRow(QuantizeRow(row, bits, g), g) == Decoded(row, bits);
    } else {
      GroupedRowError(row, bits, g, i);
    }
  }

  lemma GroupedRowError(row: seq<real>, bits: Bits, g: nat, i: nat)
    requires g > 0 && i < |row|
    ensures Shaped(QuantizeRow(row, bits, g), g)
    ensures var q := QuantizeRow(row, bits, g);
      0 <= i / g < |q.scales| && ColumnKept(row[i], q.codes[i], DequantizeRow(q, g)[i], q.scales[i / g])
  {
    hide Grouped, Scale, Code, Codes, Decode, Flattened, Round, Quotient, Times, Abs, DequantizeRow, Decoded;
    var groups := GroupsOf(row, g);
    GroupsSuffice(|row|, g);
    DequantizedIsDecoded(row, bits, g);
    CodesKeepLength(groups, bits, g);
    FlattenedAt(GroupCodes(groups, bits), g, |row|, i);
    FlattenedAt(DecodedGroups(groups, bits), g, |row|, i);
    BlockOf(i, g, |groups|);
    GroupedAt(row, 0.0, g, |groups|, i / g, i % g);
    assert groups[i / g] in groups;
    GroupError(groups[i / g], bits, i % g);
  }

  /** Quantising what was dequantised gives the same codes and the same scales. */
  lemma RowRequantises(row: seq<real>, bits: Bits, g: int)
    ensures Shaped(QuantizeRow(row, bits, g), g)
    ensures QuantizeRow(DequantizeRow(QuantizeRow(row, bits, g), g), bits, g) == QuantizeRow(row, bits, g)
  {
    QuantizedIsShaped(row, bits, g);
    if g <= 0 {
      hide Scale, Codes, Decode;
      GroupRequantises(row, bits);
      assert DequantizeRow(QuantizeRow(row, bits, g), g) == Decoded(row, bits);
    } else {
      GroupedRowRequantises(row, bits, g);
    }
  }

  lemma GroupedRowRequantises(row: seq<real>, bits: Bits, g: nat)
    requires g > 0
    ensures Shaped(QuantizeRow(row, bits, g), g)
    ensures QuantizeRow(DequantizeRow(QuantizeRow(row, bits, g), g), bits, g) == QuantizeRow(row, bits, g)
  {
    hide Grouped, Scale, Codes, Decode, Flattened, DequantizeRow, Decoded;
    var groups := GroupsOf(row, g);
    var blocks := DecodedGroups(groups, bits);
    GroupsSuffice(|row|, g);
    DequantizedIsDecoded(row, bits, g);
    DecodedZeroAfter(row, bits, g);
    GroupedFlattened(blocks, 0.0, g, |row|);
    forall k | 0 <= k < |groups|
      ensures Scale(blocks[k], QMax(bits)) == Scale(groups[k], QMax(bits))
      ensures Codes(blocks[k], Scale(blocks[k], QMax(bits)), bits) == Codes(groups[k], Scale(groups[k], QMax(bits)), bits)
    {
      GroupRequantises(groups[k], bits);
    }
    assert GroupScales(blocks, bits) == GroupScales(groups, bits);
    assert GroupCodes(blocks, bits) == GroupCodes(groups, bits);
  }

  /** A group's scale times the largest code is the largest size among its own columns, or the floor 1e-10. */
  lemma ScaleIsOwnMaximum(row: seq<real>, bits: Bits, g: nat, k: nat, hi: nat)
    requires g > 0 && k < GroupCount(|row|, g) && hi == (if k * g + g < |row| then k * g + g else |row|)
    ensures 0 <= k * g <= hi <= |row|
    ensures IsLargestOrFloor(row[k * g..hi], Times(QMax(bits), QuantizeRow(row, bits, g).scales[k]))
  {
    hide Grouped, Scale, AbsMax, Times, Codes, Flattened, IsLargestOrFloor;
    GroupsSuffice(|row|, g);
    var groups := GroupsOf(row, g);
    MulMonotone(k, |groups| - 1, g);
    MulSucc(|groups| - 1, g);
    assert groups[k] in groups;
    var own := row[k * g..hi];
    forall j | 0 <= j < g ensures groups[k][j] == (if j < |own| then own[j] else 0.0) {
      GroupedAt(row, 0.0, g, |groups|, k, j);
    }
    SameMaximum(own, groups[k]);
    SameScale(own, groups[k], QMax(bits));
    LargestCodeIsLargest(own, QMax(bits));
  }

  /** Without groups the one scale comes from the whole row. */
  lemma ScaleIsRowMaximum(row: seq<real>, bits: Bits, g: int)
    requires g <= 0
    ensures |QuantizeRow(row, bits, g).scales| == 1
    ensures IsLargestOrFloor(row, Times(QMax(bits), QuantizeRow(row, bits, g).scales[0]))
  {
    hide IsLargestOrFloor;
    LargestCodeIsLargest(row, QMax(bits));
  }

  lemma SameMaximum(own: seq<real>, padded: seq<real>)
    requires |own| <= |padded|
    requires forall j :: 0 <= j < |padded| ==> padded[j] == (if j < |own| then own[j] else 0.0)
    ensures AbsMax(own) == AbsMax(padded)
  {
    hide AbsMax;
    forall j | 0 <= j < |own| ensures Abs(own[j]) <= AbsMax(padded) { assert padded[j] == own[j]; }
    AbsMaxIsLeast(own, AbsMax(padded));
    AbsMaxIsLeast(padded, AbsMax(own));
  }
}
