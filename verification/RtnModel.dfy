/** Replacing a model's linear layers by quantised ones, and the simulated quantisation it must agree with. */
module RtnModel {
  import opened Sequences
  import opened Prelude
  import opened Arith
  import opened RealArith
  import opened RtnGroup
  import opened RtnRows

  type Matrix = seq<seq<real>>

  datatype Layer =
    | Linear(weight: Matrix, inFeatures: nat, bias: Option<seq<real>>)
    | QuantizedLinear(rows: seq<QuantizedRow>, groupSize: int, bias: Option<seq<real>>)
    | Other

  /** One attribute of some parent module; an original child may be shared by several attributes. */
  datatype Child = Original(id: nat, layer: Layer) | Replaced(layer: Layer)

  // ---------------------------------------------------------------- one layer

  function QuantizeRows(w: Matrix, bits: Bits, g: int): (rows: seq<QuantizedRow>)
    ensures |rows| == |w| && forall r :: 0 <= r < |w| ==> rows[r] == QuantizeRow(w[r], bits, g)
  {
    seq(|w|, r requires 0 <= r < |w| => QuantizeRow(w[r], bits, g))
  }

  predicate AllShaped(rows: seq<QuantizedRow>, g: int) {
    forall r :: 0 <= r < |rows| ==> Shaped(rows[r], g)
  }

  /** The weight a quantised layer multiplies by. */
  function Dequantize(rows: seq<QuantizedRow>, g: int): (w: Matrix)
    requires AllShaped(rows, g)
    ensures |w| == |rows| && forall r :: 0 <= r < |rows| ==> w[r] == DequantizeRow(rows[r], g)
  {
    seq(|rows|, r requires 0 <= r < |rows| => DequantizeRow(rows[r], g))
  }

  lemma QuantizedAreShaped(w: Matrix, bits: Bits, g: int)
    ensures AllShaped(QuantizeRows(w, bits, g), g)
  {
    hide QuantizeRow, Shaped;
    forall r | 0 <= r < |w| ensures Shaped(QuantizeRows(w, bits, g)[r], g) { QuantizedIsShaped(w[r], bits, g); }
  }

  /** `F.linear` of one output feature. */
  function Dot(row: seq<real>, x: seq<real>): real
    requires |row| == |x|
  {
    if row == [] then 0.0 else Product(row[0], x[0]) + Dot(row[1..], x[1..])
  }

  /** A product of parts is the sum of the parts' products, and of single numbers their product. */
  lemma {:induction false} DotOfConcat(a: seq<real>, b: seq<real>, x: seq<real>, y: seq<real>)
    requires |a| == |x| && |b| == |y|
    ensures Dot(a + b, x + y) == Dot(a, x) + Dot(b, y)
    ensures forall p, q :: Dot([p], [q]) == Product(p, q)
  {
    hide Product;
    if a == [] {
      assert a + b == b && x + y == y;
    } else {
      assert (a + b)[1..] == a[1..] + b && (x + y)[1..] == x[1..] + y;
      DotOfConcat(a[1..], b, x[1..], y);
    }
  }

  /** Sizes of the inputs weighted by their bounds. */
  function Weighted(bounds: seq<real>, x: seq<real>): real
    requires |bounds| == |x|
  {
    if x == [] then 0.0 else Product(bounds[0], Abs(x[0])) + Weighted(bounds[1..], x[1..])
  }

  lemma {:induction false} DotError(a: seq<real>, b: seq<real>, bounds: seq<real>, x: seq<real>)
    requires |a| == |b| == |bounds| == |x| && forall i :: 0 <= i < |a| ==> Abs(b[i] - a[i]) <= bounds[i]
    ensures Abs(Dot(b, x) - Dot(a, x)) <= Weighted(bounds, x)
  {
    hide Product;
    if a != [] {
      DotError(a[1..], b[1..], bounds[1..], x[1..]);
      ProductError(a[0], b[0], bounds[0], x[0]);
    }
  }

  lemma ProductError(a: real, b: real, bound: real, x: real)
    requires Abs(b - a) <= bound
    ensures Abs(Product(b, x) - Product(a, x)) <= Product(bound, Abs(x))
  {
    ProductOfDifference(b, a, x);
    ProductWithin(b - a, bound, x);
  }

  lemma ProductOfDifference(b: real, a: real, x: real)
    ensures Product(b, x) - Product(a, x) == Product(b - a, x)
  {
  }

  lemma ProductWithin(c: real, bound: real, x: real)
    requires Abs(c) <= bound
    ensures Abs(Product(c, x)) <= Product(bound, Abs(x))
  {
    MulOrder(c, bound, Abs(x));
    MulOrder(-c, bound, Abs(x));
  }

  /** Half of the scale that belongs to each column. */
  function HalfScales(q: QuantizedRow, g: int): (r: seq<real>)
    requires forall i :: 0 <= i < |q.codes| ==> 0 <= ScaleIndex(i, g) < |q.scales|
    ensures |r| == |q.codes|
    ensures forall i :: 0 <= i < |q.codes| ==> r[i] == q.scales[ScaleIndex(i, g)] / 2.0
  {
    seq(|q.codes|, i requires 0 <= i < |q.codes| => q.scales[ScaleIndex(i, g)] / 2.0)
  }

  /** The output computed with a quantised row is off by at most half a scale per unit of input, column by column. */
  ghost predicate OutputClose(row: seq<real>, q: QuantizedRow, g: int, x: seq<real>) {
    Shaped(q, g) && |q.codes| == |row| == |x|
    && (forall i :: 0 <= i < |q.codes| ==> 0 <= ScaleIndex(i, g) < |q.scales|)
    && Abs(Dot(DequantizeRow(q, g), x) - Dot(row, x)) <= Weighted(HalfScales(q, g), x)
  }

  /** So it is for every row, width, group size and input. */
  lemma OutputError(row: seq<real>, bits: Bits, g: int, x: seq<real>)
    requires |x| == |row|
    ensures OutputClose(row, QuantizeRow(row, bits, g), g, x)
  {
    hide QuantizeRow, DequantizeRow, ScaleIndex, Shaped, Dot, Weighted, Abs, Round, Quotient;
    QuantizedIsShaped(row, bits, g);
    var q := QuantizeRow(row, bits, g);
    forall i | 0 <= i < |row|
      ensures 0 <= ScaleIndex(i, g) < |q.scales|
      ensures Abs(DequantizeRow(q, g)[i] - row[i]) <= q.scales[ScaleIndex(i, g)] / 2.0
    {
      RowError(row, bits, g, i);
    }
    DotError(row, DequantizeRow(q, g), HalfScales(q, g), x);
  }

  // ---------------------------------------------------------------- simulated quantisation

  /** A flat tensor seen as n rows. */
  function Rows(flat: seq<real>, columns: nat, n: nat): (w: Matrix)
    requires |flat| == n * columns
    ensures |w| == n
  {
    seq(n, r requires 0 <= r < n => RowAt(flat, columns, n, r))
  }

  function RowAt(flat: seq<real>, columns: nat, n: nat, r: nat): (row: seq<real>)
    requires |flat| == n * columns && r < n
    ensures |row| == columns
  {
    MulMonotone(0, r, columns);
    MulMonotone(r + 1, n, columns);
    MulSucc(r, columns);
    flat[r * columns..r * columns + columns]
  }

  /** `_pseudo_quantize_tensor`: the whole weight in groups, whichever rows they fall in. */
  function PseudoQuantize(w: Matrix, columns: nat, bits: Bits, g: int): (r: Result<Matrix>)
    requires AllOfLength(w, columns)
    ensures r.Ok? <==> if g <= 0 then columns > 0 else |Concat(w)| % g == 0
    ensures r.Ok? ==> |r.value| == |w|
    ensures r.Failed? ==> r.why == if g <= 0 then IndexError else RuntimeError
  {
    if g <= 0 then
      if columns == 0 then Failed(IndexError) else Ok(DecodedGroups(w, bits))
    else if |Concat(w)| % g != 0 then Failed(RuntimeError)
    else
      PseudoLength(Concat(w), bits, g);
      ConcatLength(w, columns);
      Ok(Rows(Pseudo(Concat(w), bits, g), columns, |w|))
  }

  /** A flat tensor quantised and decoded in groups. */
  function Pseudo(flat: seq<real>, bits: Bits, g: nat): seq<real>
    requires g > 0
  {
    Concat(DecodedGroups(Cut(flat, g), bits))
  }

  lemma PseudoLength(flat: seq<real>, bits: Bits, g: nat)
    requires g > 0 && |flat| % g == 0
    ensures |Pseudo(flat, bits, g)| == |flat|
  {
    hide Cut, Concat, Decoded;
    var n := |flat| / g;
    assert |flat| == n * g;
    CutWhole(flat, g, n);
    DecodedKeepLength(Cut(flat, g), bits, g);
    ConcatLength(DecodedGroups(Cut(flat, g), bits), g);
  }

  /** What is said of each row when the group size divides it. */
  function DequantizedRow(row: seq<real>, bits: Bits, g: int): (r: seq<real>)
    ensures |r| == |row|
  {
    QuantizedIsShaped(row, bits, g);
    DequantizeRow(QuantizeRow(row, bits, g), g)
  }

  lemma PseudoOfRow(row: seq<real>, bits: Bits, g: nat)
    requires g > 0 && |row| % g == 0
    ensures Pseudo(row, bits, g) == DequantizedRow(row, bits, g)
  {
    hide Cut, Concat, Decoded, QuantizeRow, DequantizeRow;
    var n := |row| / g;
    assert |row| == n * g;
    ExactCount(n, g);
    assert Padded(row, 0.0, n * g) == row;
    assert GroupsOf(row, g) == Cut(row, g);
    DequantizedIsDecoded(row, bits, g);
    ConcatLength(DecodedGroups(Cut(row, g), bits), g);
    var flat := Pseudo(row, bits, g);
    assert flat[..|row|] == flat;
  }

  lemma ExactCount(n: nat, g: nat)
    requires g > 0
    ensures GroupCount(n * g, g) == n
  {
    DivUnique(n * g + g - 1, g, n, g - 1);
  }

  lemma PseudoOfConcat(a: seq<real>, b: seq<real>, bits: Bits, g: nat)
    requires g > 0 && |a| % g == 0
    ensures Pseudo(a + b, bits, g) == Pseudo(a, bits, g) + Pseudo(b, bits, g)
  {
    hide Cut, Concat, Decoded;
    assert |a| == (|a| / g) * g;
    CutOfConcat(a, b, g, |a| / g);
    var x, y := Cut(a, g), Cut(b, g);
    assert DecodedGroups(x + y, bits) == DecodedGroups(x, bits) + DecodedGroups(y, bits);
    ConcatOfTwo(DecodedGroups(x, bits), DecodedGroups(y, bits));
  }

  function DequantizedRows(w: Matrix, bits: Bits, g: int): (r: Matrix)
    ensures |r| == |w| && forall i :: 0 <= i < |w| ==> r[i] == DequantizedRow(w[i], bits, g)
  {
    seq(|w|, i requires 0 <= i < |w| => DequantizedRow(w[i], bits, g))
  }

  lemma {:induction false} PseudoOfRows(w: Matrix, columns: nat, bits: Bits, g: nat)
    requires g > 0 && columns % g == 0 && AllOfLength(w, columns)
    ensures Pseudo(Concat(w), bits, g) == Concat(DequantizedRows(w, bits, g))
  {
    hide Pseudo, DequantizedRow;
    if w == [] {
      assert Pseudo(Concat(w), bits, g) == [] by { PseudoLength([], bits, g); }
    } else {
      assert w[0] in w;
      PseudoOfConcat(w[0], Concat(w[1..]), bits, g);
      PseudoOfRow(w[0], bits, g);
      PseudoOfRows(w[1..], columns, bits, g);
      assert DequantizedRows(w, bits, g)[1..] == DequantizedRows(w[1..], bits, g);
    }
  }

  lemma RowAtConcat(w: Matrix, columns: nat, r: nat, j: nat)
    requires AllOfLength(w, columns) && r < |w| && j < columns
    ensures |Concat(w)| == |w| * columns && w[r] in w && RowAt(Concat(w), columns, |w|, r)[j] == w[r][j]
  {
    ConcatLength(w, columns);
    ConcatAt(w, columns, r, j);
    MulMonotone(r + 1, |w|, columns);
    MulSucc(r, columns);
  }

  lemma RowsOfConcat(w: Matrix, columns: nat)
    requires AllOfLength(w, columns)
    ensures |Concat(w)| == |w| * columns && Rows(Concat(w), columns, |w|) == w
  {
    hide Concat, RowAt;
    ConcatLength(w, columns);
    forall r | 0 <= r < |w| ensures RowAt(Concat(w), columns, |w|, r) == w[r] {
      RowOfConcat(w, columns, r);
    }
  }

  lemma RowOfConcat(w: Matrix, columns: nat, r: nat)
    requires AllOfLength(w, columns) && r < |w|
    ensures |Concat(w)| == |w| * columns && RowAt(Concat(w), columns, |w|, r) == w[r]
  {
    hide Concat, RowAt;
    ConcatLength(w, columns);
    assert w[r] in w;
    forall j | 0 <= j < columns ensures RowAt(Concat(w), columns, |w|, r)[j] == w[r][j] {
      RowAtConcat(w, columns, r, j);
    }
  }

  lemma DequantizedRowsKeepLength(w: Matrix, columns: nat, bits: Bits, g: int)
    requires AllOfLength(w, columns)
    ensures AllOfLength(DequantizedRows(w, bits, g), columns)
  {
    var rows := DequantizedRows(w, bits, g);
    forall b | b in rows ensures |b| == columns {
      var i :| 0 <= i < |rows| && rows[i] == b;
      assert w[i] in w;
    }
  }

  /** The simulated quantisation is the real one whenever the group size divides the row. */
  lemma PseudoIsQuantized(w: Matrix, columns: nat, bits: Bits, g: int)
    requires AllOfLength(w, columns) && if g <= 0 then columns > 0 else columns % g == 0
    ensures AllShaped(QuantizeRows(w, bits, g), g)
    ensures PseudoQuantize(w, columns, bits, g) == Ok(Dequantize(QuantizeRows(w, bits, g), g))
  {
    hide PseudoQuantize, QuantizeRow, DequantizeRow;
    QuantizedAreShaped(w, bits, g);
    assert Dequantize(QuantizeRows(w, bits, g), g) == DequantizedRows(w, bits, g);
    if g <= 0 {
      PseudoOfChannels(w, columns, bits, g);
    } else {
      PseudoOfGroups(w, columns, bits, g);
    }
  }

  /** No element of the flattened weight moves by more than half the scale of its own group. */
  lemma FlatError(flat: seq<real>, bits: Bits, g: nat, i: nat)
    requires g > 0 && |flat| % g == 0 && i < |flat|
    ensures |Pseudo(flat, bits, g)| == |flat| && 0 <= i / g < |Cut(flat, g)|
    ensures Abs(Pseudo(flat, bits, g)[i] - flat[i]) <= Scale(Cut(flat, g)[i / g], QMax(bits)) / 2.0
  {
    hide Scale, QMax, Abs, Decoded, Cut, Concat, Codes, Round, Quotient;
    var groups, n := Cut(flat, g), |flat| / g;
    assert |flat| == n * g;
    CutWhole(flat, g, n);
    PseudoLength(flat, bits, g);
    BlockOf(i, g, n);
    ConcatAt(groups, g, i / g, i % g);
    DecodedKeepLength(groups, bits, g);
    ConcatAt(DecodedGroups(groups, bits), g, i / g, i % g);
    GroupError(groups[i / g], bits, i % g);
  }

  /** Row r, column c of both: close by half the scale of the group the element falls in. */
  ghost predicate CloseInGroup(out: Matrix, w: Matrix, columns: nat, bits: Bits, g: nat, r: nat, c: nat)
    requires g > 0
  {
    var i, groups := r * columns + c, Cut(Concat(w), g);
    r < |w| == |out| && c < |w[r]| == |out[r]| && 0 <= i / g < |groups|
    && Abs(out[r][c] - w[r][c]) <= Scale(groups[i / g], QMax(bits)) / 2.0
  }

  /** So it is for the weight, whichever rows its groups span. */
  lemma PseudoError(w: Matrix, columns: nat, bits: Bits, g: nat, r: nat, c: nat)
    requires AllOfLength(w, columns) && g > 0 && PseudoQuantize(w, columns, bits, g).Ok? && r < |w| && c < columns
    ensures CloseInGroup(PseudoQuantize(w, columns, bits, g).value, w, columns, bits, g, r, c)
  {
    hide Scale, QMax, Abs, Cut, Concat, Pseudo;
    var flat := Concat(w);
    ConcatLength(w, columns);
    ConcatAt(w, columns, r, c);
    FlatError(flat, bits, g, r * columns + c);
    RowsAt(Pseudo(flat, bits, g), columns, |w|, r, c);
  }

  lemma RowsAt(flat: seq<real>, columns: nat, n: nat, r: nat, c: nat)
    requires |flat| == n * columns && r < n && c < columns
    ensures 0 <= r * columns + c < |flat| && |Rows(flat, columns, n)[r]| == columns
    ensures Rows(flat, columns, n)[r][c] == flat[r * columns + c]
  {
    MulMonotone(0, r, columns);
    MulMonotone(r + 1, n, columns);
    MulSucc(r, columns);
  }

  lemma PseudoOfChannels(w: Matrix, columns: nat, bits: Bits, g: int)
    requires AllOfLength(w, columns) && g <= 0 && columns > 0
    ensures PseudoQuantize(w, columns, bits, g) == Ok(DequantizedRows(w, bits, g))
  {
    hide DequantizedRow, Decoded;
    forall r | 0 <= r < |w| ensures Decoded(w[r], bits) == DequantizedRow(w[r], bits, g) {
      ChannelIsDecoded(w[r], bits, g);
    }
    assert DecodedGroups(w, bits) == DequantizedRows(w, bits, g);
  }

  lemma PseudoOfGroups(w: Matrix, columns: nat, bits: Bits, g: nat)
    requires AllOfLength(w, columns) && g > 0 && columns % g == 0
    ensures PseudoQuantize(w, columns, bits, g) == Ok(DequantizedRows(w, bits, g))
  {
    hide Pseudo, Concat, Rows, DequantizedRow, DequantizedRows, AllOfLength;
    var rows := DequantizedRows(w, bits, g);
    ConcatLength(w, columns);
    ProductDivides(|w|, columns, g);
    PseudoOfRows(w, columns, bits, g);
    DequantizedRowsKeepLength(w, columns, bits, g);
    RowsOfConcat(rows, columns);
  }

  lemma ChannelIsDecoded(row: seq<real>, bits: Bits, g: int)
    requires g <= 0
    ensures DequantizedRow(row, bits, g) == Decoded(row, bits)
  {
    hide Scale, Codes, Decode;
  }

  lemma ProductDivides(n: nat, columns: nat, g: nat)
    requires g > 0 && columns % g == 0
    ensures (n * columns) % g == 0
  {
    var c := columns / g;
    assert columns == c * g;
    assert n * columns == (n * c) * g;
    MultipleDivides(n * c, g);
  }
}
