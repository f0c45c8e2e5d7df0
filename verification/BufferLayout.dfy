/** Where packed memory buffers put every weight: one buffer per dtype, each weight on an aligned offset. */
module BufferLayout {
  import opened Arith
  import opened Sequences
  import opened Sorting

  /** The floating-point dtypes; their widths are powers of two. */
  datatype DType = Float64 | Float32 | Float16 | BFloat16 | Float8

  function Bits(d: DType): nat {
    match d
    case Float64 => 64
    case Float32 => 32
    case Float16 => 16
    case BFloat16 => 16
    case Float8 => 8
  }

  /** Elements in 128 bits. */
  function Align(d: DType): (a: nat)
    ensures a > 0
  {
    128 / Bits(d)
  }

  /** The elements of each dtype that start on a 128-bit boundary. */
  lemma Alignments()
    ensures Align(Float64) == 2 && Align(Float32) == 4 && Align(Float16) == Align(BFloat16) == 8 && Align(Float8) == 16
    ensures forall d :: Align(d) * Bits(d) == 128
  {
  }

  datatype Meta = Meta(shape: seq<nat>, dtype: DType)

  /** `calc_padded_numel`. */
  function PaddedNumel(shape: seq<nat>, d: DType): (n: nat)
  {
    RoundUp(Numel(shape), Align(d))
  }

  function RoundUp(n: nat, a: nat): nat
    requires a > 0
  {
    (n + a - 1) / a * a
  }

  lemma RoundUpIsLeast(n: nat, a: nat)
    requires a > 0
    ensures n <= RoundUp(n, a) < n + a && RoundUp(n, a) % a == 0
  {
    MultipleDivides((n + a - 1) / a, a);
  }

  /** Padded elements of one dtype in a list of weights. */
  function Total(metas: seq<Meta>, d: DType): nat {
    if metas == [] then 0 else
    var last := metas[|metas| - 1];
    Total(metas[..|metas| - 1], d) + if last.dtype == d then PaddedNumel(last.shape, d) else 0
  }

  /** Where weight i starts in its dtype's buffer. */
  function Offset(metas: seq<Meta>, i: nat): nat
    requires i < |metas|
  {
    Total(metas[..i], metas[i].dtype)
  }

  lemma TotalOfNext(metas: seq<Meta>, i: nat, d: DType)
    requires i < |metas|
    ensures Total(metas[..i + 1], d) ==
      Total(metas[..i], d) + if metas[i].dtype == d then PaddedNumel(metas[i].shape, d) else 0
  {
    assert metas[..i + 1][..i] == metas[..i];
  }

  lemma {:induction false} TotalGrows(metas: seq<Meta>, i: nat, j: nat, d: DType)
    requires i <= j <= |metas|
    ensures Total(metas[..i], d) <= Total(metas[..j], d)
  {
    if i < j {
      TotalGrows(metas, i, j - 1, d);
      TotalOfNext(metas, j - 1, d);
    }
  }

  lemma {:induction false} TotalIsAligned(metas: seq<Meta>, d: DType)
    ensures Total(metas, d) % Align(d) == 0
  {
    if metas != [] {
      var last := metas[|metas| - 1];
      TotalIsAligned(metas[..|metas| - 1], d);
      RoundUpIsLeast(Numel(last.shape), Align(d));
      SumOfMultiples(Total(metas[..|metas| - 1], d), PaddedNumel(last.shape, d), Align(d));
    }
  }

  lemma SumOfMultiples(x: nat, y: nat, a: nat)
    requires a > 0 && x % a == 0 && y % a == 0
    ensures (x + y) % a == 0
  {
    DivUnique(x + y, a, x / a + y / a, 0);
  }

  /** Weight i ends before any later weight of its dtype starts. */
  lemma WeightsAreDisjoint(metas: seq<Meta>, i: nat, j: nat)
    requires i < j < |metas| && metas[i].dtype == metas[j].dtype
    ensures Offset(metas, i) + Numel(metas[i].shape) <= Offset(metas, j)
  {
    hide RoundUp, Align;
    var d := metas[i].dtype;
    RoundUpIsLeast(Numel(metas[i].shape), Align(d));
    TotalOfNext(metas, i, d);
    TotalGrows(metas, i + 1, j, d);
  }

  /** It starts on a 128-bit boundary and ends inside the buffer, so the range check cannot fail. */
  lemma WeightFits(metas: seq<Meta>, i: nat)
    requires i < |metas|
    ensures Offset(metas, i) % Align(metas[i].dtype) == 0
    ensures Offset(metas, i) + Numel(metas[i].shape) <= Total(metas, metas[i].dtype)
  {
    hide RoundUp, Align;
    var d := metas[i].dtype;
    TotalIsAligned(metas[..i], d);
    RoundUpIsLeast(Numel(metas[i].shape), Align(d));
    TotalOfNext(metas, i, d);
    TotalGrows(metas, i + 1, |metas|, d);
    assert metas[..|metas|] == metas;
  }

  // ---------------------------------------------------------------- the order of names

  /** Python's order on strings. */
  predicate NameAtMost(a: string, b: string) {
    a == [] || (b != [] && (a[0] < b[0] || (a[0] == b[0] && NameAtMost(a[1..], b[1..]))))
  }

  lemma {:induction false} NamesCompare(a: string, b: string)
    ensures NameAtMost(a, b) || NameAtMost(b, a)
  {
    if a != [] && b != [] { NamesCompare(a[1..], b[1..]); }
  }

  lemma {:induction false} NamesChain(a: string, b: string, c: string)
    requires NameAtMost(a, b) && NameAtMost(b, c)
    ensures NameAtMost(a, c)
  {
    if a != [] && a[0] == b[0] == c[0] { NamesChain(a[1..], b[1..], c[1..]); }
  }

  lemma NameOrderIsTotal()
    ensures TotalPreorder(NameAtMost)
  {
    forall a, b ensures NameAtMost(a, b) || NameAtMost(b, a) { NamesCompare(a, b); }
    forall a, b, c | NameAtMost(a, b) && NameAtMost(b, c) ensures NameAtMost(a, c) { NamesChain(a, b, c); }
  }

  function SortedNames(names: seq<string>): (r: seq<string>)
    ensures |r| == |names|
  {
    Sort(names, NameAtMost)
  }

  /** Sorting by name a second time changes nothing: the two passes over the weights agree. */
  lemma SortedTwice(names: seq<string>)
    ensures SortedNames(SortedNames(names)) == SortedNames(names)
    ensures multiset(SortedNames(names)) == multiset(names)
  {
    NameOrderIsTotal();
    SortOrders(names, NameAtMost);
    SortOfOrdered(SortedNames(names), NameAtMost);
    SortPermutes(names, NameAtMost);
  }
}
