/** The search for pipeline stage sizes with equal middle stages. */
module PipelineShards {
  import opened Prelude
  import opened Arith

  function FirstOf(layers: int, stages: int, middle: int): int { (layers - middle * (stages - 2)) / 2 }

  function LastOf(layers: int, stages: int, middle: int): int {
    (layers - middle * (stages - 2)) - (layers - middle * (stages - 2)) / 2
  }

  /** The search accepts this middle size. */
  predicate Candidate(layers: int, stages: int, middle: int) {
    0 <= middle < layers &&
    0 < FirstOf(layers, stages, middle) <= middle && 0 < LastOf(layers, stages, middle) <= middle
  }

  function Abs(x: int): nat { if x >= 0 then x else -x }

  /** The measure the candidates are sorted by. */
  function Imbalance(layers: int, stages: int, middle: int): nat {
    Abs(FirstOf(layers, stages, middle) - middle)
  }

  function Repeat(x: int, n: nat): (r: seq<int>)
    ensures |r| == n && forall i :: 0 <= i < n ==> r[i] == x
  {
    seq(n, i => x)
  }

  /** The stage sizes for a middle size. */
  function Stages(layers: int, stages: nat, middle: int): seq<int>
    requires stages >= 2
  {
    [FirstOf(layers, stages, middle)] + Repeat(middle, stages - 2) + [LastOf(layers, stages, middle)]
  }

  function Sum(xs: seq<int>): int {
    if xs == [] then 0 else xs[0] + Sum(xs[1..])
  }

  /** The smallest middle size that leaves no end larger. */
  function Ceil(layers: nat, stages: nat): nat
    requires stages > 0
  {
    if layers % stages == 0 then layers / stages else layers / stages + 1
  }

  /** When the search finds something. */
  predicate Searchable(layers: nat, stages: nat)
    requires stages > 0
  {
    layers % stages == 0 || layers % stages + 2 * (layers / stages) >= stages
  }

  // ---------------------------------------------------------------- which middle sizes are accepted

  /** The ends together keep 2 to 2*middle layers. */
  lemma CandidateByEnds(layers: int, stages: int, middle: int)
    requires stages >= 3
    ensures Candidate(layers, stages, middle) <==>
      0 <= middle < layers && 2 <= layers - middle * (stages - 2) <= 2 * middle
  {
  }

  lemma CeilIsCeiling(layers: nat, stages: nat, m: int)
    requires stages > 0
    ensures layers <= m * stages <==> m >= Ceil(layers, stages)
  {
    var q, r := layers / stages, layers % stages;
    assert layers == q * stages + r;
    if m >= Ceil(layers, stages) {
      MulMonotone(Ceil(layers, stages), m, stages);
      MulSucc(q, stages);
    } else {
      MulMonotone(m, Ceil(layers, stages) - 1, stages);
    }
  }

  /** Accepted sizes are an interval starting at the ceiling. */
  lemma CandidateIsInterval(layers: nat, stages: nat, m: int)
    requires stages >= 3 && layers >= stages
    ensures Candidate(layers, stages, m) <==> m >= Ceil(layers, stages) && m * (stages - 2) <= layers - 2
  {
    CandidateByEnds(layers, stages, m);
    CeilIsCeiling(layers, stages, m);
    assert m * stages == m * (stages - 2) + 2 * m;
    if m * (stages - 2) <= layers - 2 && m >= 0 { MulMonotone(1, stages - 2, m); }
  }

  /** The ceiling is accepted exactly under the search condition. */
  lemma CeilIsCandidate(layers: nat, stages: nat)
    requires stages >= 3 && layers >= stages
    ensures Candidate(layers, stages, Ceil(layers, stages)) <==> Searchable(layers, stages)
  {
    var q, r, c := layers / stages, layers % stages, Ceil(layers, stages);
    assert layers == q * stages + r;
    CandidateIsInterval(layers, stages, c);
    assert q * stages == q * (stages - 2) + 2 * q;
    MulSucc(q, stages - 2);
    MulMonotone(1, q, stages) by { assert q >= 1; }
  }

  /** If any size is accepted, so is the ceiling. */
  lemma SearchableIffCandidate(layers: nat, stages: nat, m: int)
    requires stages >= 3 && layers >= stages && Candidate(layers, stages, m)
    ensures Searchable(layers, stages) && m >= Ceil(layers, stages)
  {
    CandidateIsInterval(layers, stages, m);
    CandidateIsInterval(layers, stages, Ceil(layers, stages));
    MulMonotone(Ceil(layers, stages), m, stages - 2);
    CeilIsCandidate(layers, stages);
  }

  /** A larger accepted middle size is strictly less balanced. */
  lemma ImbalanceGrows(layers: nat, stages: nat, m: int, n: int)
    requires stages >= 3 && Candidate(layers, stages, m) && Candidate(layers, stages, n) && m < n
    ensures Imbalance(layers, stages, m) < Imbalance(layers, stages, n)
  {
    MulMonotone(m, n, stages - 2);
  }

  // ---------------------------------------------------------------- the result

  lemma {:induction false} SumOfRepeat(x: int, n: nat)
    ensures Sum(Repeat(x, n)) == x * n
  {
    if n > 0 {
      assert Repeat(x, n)[1..] == Repeat(x, n - 1);
      SumOfRepeat(x, n - 1);
      MulSucc(n - 1, x);
      assert x * n == n * x && x * (n - 1) == (n - 1) * x;
    }
  }

  lemma {:induction false} SumOfSnoc(xs: seq<int>, y: int)
    ensures Sum(xs + [y]) == Sum(xs) + y
  {
    if xs == [] {
      assert [] + [y] == [y] && [y][1..] == [];
    } else {
      assert (xs + [y])[1..] == xs[1..] + [y];
      SumOfSnoc(xs[1..], y);
    }
  }

  lemma SumOfTwo(x: int, y: int)
    ensures Sum([x, y]) == x + y
  {
    SumOfSnoc([x], y);
    SumOfSnoc([], x);
    assert [x] + [y] == [x, y] && [] + [x] == [x];
  }

  /** The stages always add up to the layers. */
  lemma StagesAddUp(layers: int, stages: nat, middle: int)
    requires stages >= 2
    ensures Sum(Stages(layers, stages, middle)) == layers
  {
    var first, mid := FirstOf(layers, stages, middle), Repeat(middle, stages - 2);
    SumOfRepeat(middle, stages - 2);
    assert ([first] + mid)[1..] == mid;
    SumOfSnoc([first] + mid, LastOf(layers, stages, middle));
  }

  /** The first of the candidates with the smallest measure, as `sorted(...)[0]` gives it. */
  method Best(candidates: seq<(seq<int>, nat)>) returns (best: (seq<int>, nat))
    requires candidates != []
    ensures best in candidates && forall c :: c in candidates ==> best.1 <= c.1
  {
    best := candidates[0];
    for i := 1 to |candidates|
      invariant best in candidates && forall j :: 0 <= j < i ==> best.1 <= candidates[j].1
    {
      if candidates[i].1 < best.1 { best := candidates[i]; }
    }
  }

  /** Stage sizes that are positive, add up, have equal middles of the rounded-up mean and ends no larger. */
  ghost predicate Uniform(layers: nat, stages: nat, res: seq<int>)
    requires stages >= 3
  {
    |res| == stages && Sum(res) == layers && (forall i :: 0 <= i < stages ==> 0 < res[i] <= Ceil(layers, stages)) &&
    (forall i :: 0 < i < stages - 1 ==> res[i] == Ceil(layers, stages)) && 0 <= res[stages - 1] - res[0] <= 1
  }

  /** The loop that collects the candidates, each with its measure. */
  method CollectStrategies(layers: nat, stages: nat) returns (strategies: seq<(seq<int>, nat)>, ghost middles: seq<int>)
    requires stages >= 3
    ensures |middles| == |strategies| && forall m :: m in middles <==> Candidate(layers, stages, m)
    ensures forall i :: 0 <= i < |middles| ==>
      strategies[i] == (Stages(layers, stages, middles[i]), Imbalance(layers, stages, middles[i]))
  {
    strategies, middles := [], [];
    for middle := 0 to layers
      invariant |middles| == |strategies|
      invariant forall m :: m in middles <==> m < middle && Candidate(layers, stages, m)
      invariant forall i :: 0 <= i < |middles| ==>
        strategies[i] == (Stages(layers, stages, middles[i]), Imbalance(layers, stages, middles[i]))
    {
      var rest := layers - middle * (stages - 2);
      var first := rest / 2;
      var last := rest - rest / 2;
      if 0 < first <= middle && 0 < last <= middle {
        strategies := strategies + [([first] + Repeat(middle, stages - 2) + [last], Abs(first - middle))];
        middles := middles + [middle];
      }
    }
  }

  /** The least measure is the ceiling's. */
  lemma BestIsCeil(layers: nat, stages: nat, m: int)
    requires stages >= 3 && layers >= stages && Candidate(layers, stages, m)
    requires forall n :: Candidate(layers, stages, n) ==> Imbalance(layers, stages, m) <= Imbalance(layers, stages, n)
    ensures m == Ceil(layers, stages)
  {
    hide Candidate, Imbalance, Searchable, Ceil;
    SearchableIffCandidate(layers, stages, m);
    CeilIsCandidate(layers, stages);
    if m > Ceil(layers, stages) { ImbalanceGrows(layers, stages, Ceil(layers, stages), m); }
  }

  /** No other accepted size is as balanced as the ceiling. */
  lemma CeilIsOnlyBest(layers: nat, stages: nat)
    requires stages >= 3 && layers >= stages && Searchable(layers, stages)
    ensures forall m :: Candidate(layers, stages, m) && m != Ceil(layers, stages) ==>
      Imbalance(layers, stages, Ceil(layers, stages)) < Imbalance(layers, stages, m)
  {
    hide Candidate, Imbalance, Searchable, Ceil;
    CeilIsCandidate(layers, stages);
    forall m | Candidate(layers, stages, m) && m != Ceil(layers, stages)
      ensures Imbalance(layers, stages, Ceil(layers, stages)) < Imbalance(layers, stages, m)
    {
      SearchableIffCandidate(layers, stages, m);
      ImbalanceGrows(layers, stages, Ceil(layers, stages), m);
    }
  }

  lemma CandidateIsUniform(layers: nat, stages: nat)
    requires stages >= 3 && Candidate(layers, stages, Ceil(layers, stages))
    ensures Uniform(layers, stages, Stages(layers, stages, Ceil(layers, stages)))
  {
    StagesAddUp(layers, stages, Ceil(layers, stages));
    hide Sum, Ceil;
  }

  /** What the search promises for three or more stages: it succeeds exactly when some size fits, with
      the one most uniform choice. */
  ghost predicate SearchResult(layers: nat, stages: nat, r: Result<seq<int>>)
    requires stages >= 3
  {
    if Searchable(layers, stages)
    then r == Ok(Stages(layers, stages, Ceil(layers, stages))) && Uniform(layers, stages, r.value)
    else r == Failed(IndexError)
  }

  method SearchStages(layers: nat, stages: nat) returns (r: Result<seq<int>>)
    requires stages >= 3 && layers >= stages
    ensures SearchResult(layers, stages, r)
  {
    hide Candidate, Imbalance, Ceil, Stages, Sum, Searchable, Uniform;
    var strategies, middles := CollectStrategies(layers, stages);
    CeilIsCandidate(layers, stages);
    if strategies == [] { return Failed(IndexError); }
    var best := Best(strategies);
    ghost var i :| 0 <= i < |strategies| && strategies[i] == best;
    assert middles[i] in middles;
    SearchableIffCandidate(layers, stages, middles[i]);
    forall n | Candidate(layers, stages, n) ensures best.1 <= Imbalance(layers, stages, n) {
      var j :| 0 <= j < |middles| && middles[j] == n;
      assert strategies[j] in strategies;
    }
    BestIsCeil(layers, stages, middles[i]);
    CandidateIsUniform(layers, stages);
    r := Ok(best.0);
  }

  /** `get_dynamic_pipeline_shards`. */
  method GetDynamicPipelineShards(layers: int, stages: int) returns (r: Result<seq<int>>)
    ensures layers < stages || stages < 1 ==> r == Failed(ValueError)
    ensures stages == 1 && layers >= 1 ==> r == Ok([layers])
    ensures stages == 2 && layers >= 2 ==>
      r.Ok? && |r.value| == 2 && Sum(r.value) == layers && 0 < r.value[0] && 0 <= r.value[1] - r.value[0] <= 1
    ensures stages >= 3 && layers >= stages ==> SearchResult(layers, stages, r)
  {
    if layers < stages { return Failed(ValueError); }
    if stages < 1 { return Failed(ValueError); }
    if stages == 1 { return Ok([layers]); }
    if stages == 2 {
      SumOfTwo(layers / 2, layers - layers / 2);
      return Ok([layers / 2, layers - layers / 2]);
    }
    r := SearchStages(layers, stages);
  }
}
