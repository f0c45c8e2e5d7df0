/** Global layer offsets of pipeline and virtual pipeline stages. */
module LayerOffsets {
  import opened Prelude
  import opened Arith

  /** The sizes the offset depends on (no embedding/loss accounting, no explicit layout). */
  datatype Config = Config(layers: nat, stages: nat, first: Option<nat>, last: Option<nat>, chunks: Option<nat>)

  function Or0(x: Option<nat>): (n: nat)
    ensures n == match x case None => 0 case Some(value) => value
  {
    if x.Some? then x.value else 0
  }

  function Uneven(cfg: Config): bool { cfg.first.Some? || cfg.last.Some? }

  function MiddleStages(cfg: Config): int {
    cfg.stages - (if cfg.first.Some? then 1 else 0) - (if cfg.last.Some? then 1 else 0)
  }

  function MiddleLayers(cfg: Config): int { cfg.layers - Or0(cfg.first) - Or0(cfg.last) }

  /** `get_transformer_layer_offset`. */
  function Offset(cfg: Config, rank: nat, stage: Option<nat>): Result<int> {
    if cfg.stages <= 1 then Ok(0)
    else if Uneven(cfg) then
      if cfg.chunks.Some? then
        if stage.None? then Failed(AssertionError) else
        if cfg.chunks.value == 0 then Failed(ZeroDivisionError) else
        var v := cfg.chunks.value;
        var first, middle, last := Or0(cfg.first) / v, MiddleLayers(cfg) / v, Or0(cfg.last) / v;
        var total := first + middle + last;
        if rank == 0 then Ok(stage.value * total)
        else if MiddleStages(cfg) == 0 then Failed(ZeroDivisionError)
        else Ok(stage.value * total + first + (rank - 1) * (middle / MiddleStages(cfg)))
      else
        var per := if MiddleStages(cfg) > 0 then MiddleLayers(cfg) / MiddleStages(cfg) else 0;
        var middleRank := if cfg.first.None? then rank else rank - 1;
        if rank == 0 then Ok(0) else Ok(middleRank * per + Or0(cfg.first))
    else
      var per := cfg.layers / cfg.stages;
      if cfg.chunks.Some? then
        if stage.None? then Failed(AssertionError) else
        if cfg.chunks.value == 0 then Failed(ZeroDivisionError) else
        var v := cfg.chunks.value;
        Ok(stage.value * (cfg.layers / v) + rank * (per / v))
      else Ok(rank * per)
  }

  // ---------------------------------------------------------------- what each rank holds

  /** Virtual stages per rank. */
  function Chunks(cfg: Config): nat { if cfg.chunks.Some? then cfg.chunks.value else 1 }

  function StageArg(cfg: Config, stage: nat): Option<nat> { if cfg.chunks.Some? then Some(stage) else None }

  /** Layers of the first, a middle and the last rank in one virtual stage. */
  function FirstCount(cfg: Config): nat
    requires Chunks(cfg) > 0
  {
    Or0(cfg.first) / Chunks(cfg)
  }

  function LastCount(cfg: Config): nat
    requires Chunks(cfg) > 0
  {
    Or0(cfg.last) / Chunks(cfg)
  }

  function MiddleCount(cfg: Config): int
    requires Chunks(cfg) > 0
  {
    if MiddleStages(cfg) == 0 then 0 else MiddleLayers(cfg) / MiddleStages(cfg) / Chunks(cfg)
  }

  /** Layers of one (rank, virtual stage): the first and last rank may have their own counts.  A single rank holds
      the whole model, whatever counts are given. */
  function Count(cfg: Config, rank: nat): int
    requires Chunks(cfg) > 0
  {
    if cfg.stages <= 1 then cfg.layers / Chunks(cfg)
    else if rank == 0 && cfg.first.Some? then FirstCount(cfg)
    else if rank == cfg.stages - 1 && cfg.last.Some? then LastCount(cfg)
    else MiddleCount(cfg)
  }

  /** Every division the layer counts need is exact. */
  predicate Divides(cfg: Config) {
    cfg.stages >= 1 && Chunks(cfg) > 0 &&
    if cfg.stages == 1 then cfg.layers == (cfg.layers / Chunks(cfg)) * Chunks(cfg) else
    MiddleLayers(cfg) >= 0 && MiddleCount(cfg) >= 0 &&
    Or0(cfg.first) == FirstCount(cfg) * Chunks(cfg) && Or0(cfg.last) == LastCount(cfg) * Chunks(cfg) &&
    MiddleLayers(cfg) == (MiddleCount(cfg) * MiddleStages(cfg)) * Chunks(cfg)
  }

  /** The cases the tiling is claimed for: a single rank with a single virtual stage; or several ranks with no uneven
      split, or no virtual stages, or virtual stages with the first rank's count given and at least one middle rank. */
  predicate Tiled(cfg: Config) {
    Divides(cfg) &&
    if cfg.stages == 1 then Chunks(cfg) == 1 else
    (Uneven(cfg) && cfg.chunks.Some? ==> cfg.first.Some? && MiddleStages(cfg) > 0)
  }

  // ---------------------------------------------------------------- one virtual stage

  /** Layers of the ranks before this one, within one virtual stage. */
  function Before(cfg: Config, rank: nat): int
    requires Chunks(cfg) > 0
  {
    if cfg.stages <= 1 then 0
    else if cfg.first.Some? then if rank == 0 then 0 else FirstCount(cfg) + (rank - 1) * MiddleCount(cfg)
    else rank * MiddleCount(cfg)
  }

  /** Layers of all ranks in one virtual stage. */
  function PerChunk(cfg: Config): int
    requires Chunks(cfg) > 0
  {
    if cfg.stages <= 1 then cfg.layers / Chunks(cfg)
    else FirstCount(cfg) + MiddleStages(cfg) * MiddleCount(cfg) + LastCount(cfg)
  }

  /** The ranks of a virtual stage abut ... */
  lemma RanksAbut(cfg: Config, rank: nat)
    requires Divides(cfg) && rank + 1 < cfg.stages
    ensures Before(cfg, rank) + Count(cfg, rank) == Before(cfg, rank + 1)
  {
    var m := MiddleCount(cfg);
    MulSucc(rank, m);
    MulSucc(rank - 1, m);
  }

  /** ... and the last one ends the virtual stage. */
  lemma LastRankEnds(cfg: Config)
    requires Divides(cfg)
    ensures Before(cfg, cfg.stages - 1) + Count(cfg, cfg.stages - 1) == PerChunk(cfg)
  {
    if cfg.stages > 1 {
      var m := MiddleCount(cfg);
      MulSucc(cfg.stages - 1, m);
      MulSucc(cfg.stages - 2, m);
    }
  }

  lemma CountNonNegative(cfg: Config, rank: nat)
    requires Divides(cfg)
    ensures Count(cfg, rank) >= 0
  {
  }

  lemma {:induction false} BeforeMonotone(cfg: Config, a: nat, b: nat)
    requires Divides(cfg) && a < b < cfg.stages
    ensures Before(cfg, a) + Count(cfg, a) <= Before(cfg, b)
    decreases b - a
  {
    hide Before, Count, Divides;
    RanksAbut(cfg, b - 1);
    CountNonNegative(cfg, b - 1);
    if a < b - 1 { BeforeMonotone(cfg, a, b - 1); }
  }

  /** Every layer of a virtual stage belongs to a rank. */
  lemma {:induction false} FindRank(cfg: Config, y: int, upTo: nat) returns (rank: nat)
    requires Divides(cfg) && upTo < cfg.stages && 0 <= y < Before(cfg, upTo) + Count(cfg, upTo)
    ensures rank <= upTo && Before(cfg, rank) <= y < Before(cfg, rank) + Count(cfg, rank)
  {
    if Before(cfg, upTo) <= y {
      rank := upTo;
    } else {
      RanksAbut(cfg, upTo - 1);
      rank := FindRank(cfg, y, upTo - 1);
    }
  }

  // ---------------------------------------------------------------- the code's offsets

  /** The model has one PerChunk per virtual stage. */
  lemma LayersByChunk(cfg: Config)
    requires Divides(cfg)
    ensures cfg.layers == PerChunk(cfg) * Chunks(cfg)
  {
    if cfg.stages > 1 {
      var v, f, l, mm := Chunks(cfg), FirstCount(cfg), LastCount(cfg), MiddleCount(cfg) * MiddleStages(cfg);
      assert (f + mm + l) * v == f * v + mm * v + l * v;
    }
  }

  /** In the tiled cases the code computes exactly the layers before (stage, rank). */
  lemma OffsetIsStart(cfg: Config, rank: nat, stage: nat)
    requires Tiled(cfg) && rank < cfg.stages && stage < Chunks(cfg)
    ensures Offset(cfg, rank, StageArg(cfg, stage)) == Ok(stage * PerChunk(cfg) + Before(cfg, rank))
  {
    var v, m, mid := Chunks(cfg), MiddleCount(cfg), MiddleStages(cfg);
    if cfg.stages == 1 {
      assert stage == 0;
    } else if Uneven(cfg) {
      MiddleByChunk(cfg);
      if cfg.chunks.Some? { MultipleOf(m, mid); }
    } else {
      EvenByChunk(cfg);
    }
  }

  lemma MultipleOf(m: int, k: int)
    requires k > 0 && m >= 0
    ensures (m * k) / k == m
  {
    DivUnique(m * k, k, m, 0);
  }

  lemma MiddleByChunk(cfg: Config)
    requires Divides(cfg) && cfg.stages > 1
    ensures MiddleLayers(cfg) / Chunks(cfg) == MiddleCount(cfg) * MiddleStages(cfg)
  {
    DivUnique(MiddleLayers(cfg), Chunks(cfg), MiddleCount(cfg) * MiddleStages(cfg), 0);
  }

  lemma EvenByChunk(cfg: Config)
    requires Divides(cfg) && cfg.stages > 1 && !Uneven(cfg)
    ensures cfg.layers / Chunks(cfg) == PerChunk(cfg) && cfg.layers / cfg.stages / Chunks(cfg) == MiddleCount(cfg)
  {
    MiddleByChunk(cfg);
    assert MiddleCount(cfg) * MiddleStages(cfg) == MiddleStages(cfg) * MiddleCount(cfg);
  }

  // ---------------------------------------------------------------- the layers are tiled

  /** (rank, stage, local layer) names this global layer. */
  ghost predicate Names(cfg: Config, rank: nat, stage: nat, local: nat, layer: int)
    requires Chunks(cfg) > 0
  {
    rank < cfg.stages && stage < Chunks(cfg) && local < Count(cfg, rank) &&
    Offset(cfg, rank, StageArg(cfg, stage)).Ok? &&
    Offset(cfg, rank, StageArg(cfg, stage)).value + local == layer
  }

  /** Every global layer has a name ... */
  lemma EveryLayerIsNamed(cfg: Config, layer: nat) returns (rank: nat, stage: nat, local: nat)
    requires Tiled(cfg) && layer < cfg.layers
    ensures Names(cfg, rank, stage, local, layer)
  {
    hide *;
    TiledDivides(cfg);
    LayersByChunk(cfg);
    PerChunkPositive(cfg, layer);
    var t := PerChunk(cfg);
    stage := layer / t;
    var y := layer % t;
    assert layer == stage * t + y;
    MulStrict(stage, Chunks(cfg), t) by { assert t * Chunks(cfg) == Chunks(cfg) * t; }
    LastRankEnds(cfg);
    rank := FindRank(cfg, y, cfg.stages - 1);
    local := y - Before(cfg, rank);
    OffsetIsStart(cfg, rank, stage);
    NamesFromParts(cfg, rank, stage, local, layer);
  }

  lemma TiledDivides(cfg: Config)
    requires Tiled(cfg)
    ensures Divides(cfg) && cfg.stages >= 1 && Chunks(cfg) > 0
  {
  }

  lemma PerChunkPositive(cfg: Config, layer: nat)
    requires Divides(cfg) && layer < cfg.layers && cfg.layers == PerChunk(cfg) * Chunks(cfg)
    ensures PerChunk(cfg) > 0
  {
    MulStrict(0, PerChunk(cfg), Chunks(cfg));
  }

  lemma NamesFromParts(cfg: Config, rank: nat, stage: nat, local: nat, layer: int)
    requires Tiled(cfg) && rank < cfg.stages && stage < Chunks(cfg) && local < Count(cfg, rank)
    requires Offset(cfg, rank, StageArg(cfg, stage)) == Ok(layer - local)
    ensures Names(cfg, rank, stage, local, layer)
  {
  }

  /** A name places its layer inside its virtual stage, so inside the model. */
  lemma NamePlaces(cfg: Config, rank: nat, stage: nat, local: nat, layer: int)
    requires Tiled(cfg) && Names(cfg, rank, stage, local, layer)
    ensures stage * PerChunk(cfg) <= layer < stage * PerChunk(cfg) + PerChunk(cfg)
    ensures layer == stage * PerChunk(cfg) + Before(cfg, rank) + local
    ensures 0 <= layer < cfg.layers
  {
    OffsetIsStart(cfg, rank, stage);
    LastRankEnds(cfg);
    LayersByChunk(cfg);
    if rank < cfg.stages - 1 { BeforeMonotone(cfg, rank, cfg.stages - 1); }
    BeforeNonNegative(cfg, rank);
    CountNonNegative(cfg, cfg.stages - 1);
    hide *;
    StageInside(stage, Chunks(cfg), PerChunk(cfg));
  }

  lemma BeforeNonNegative(cfg: Config, rank: nat)
    requires Divides(cfg) && rank < cfg.stages
    ensures Before(cfg, rank) >= 0
  {
    if cfg.stages > 1 {
      MulMonotone(0, rank, MiddleCount(cfg));
      if rank > 0 { MulMonotone(0, rank - 1, MiddleCount(cfg)); }
    }
  }

  lemma StageInside(stage: nat, v: nat, t: int)
    requires stage < v && t >= 0
    ensures 0 <= stage * t && stage * t + t <= t * v
  {
    MulSucc(stage, t);
    MulMonotone(stage + 1, v, t);
  }

  /** ... and only one. */
  lemma NamesAreUnique(cfg: Config, layer: int, rank: nat, stage: nat, local: nat, rank': nat, stage': nat, local': nat)
    requires Tiled(cfg) && Names(cfg, rank, stage, local, layer) && Names(cfg, rank', stage', local', layer)
    ensures rank == rank' && stage == stage' && local == local'
  {
    NamePlaces(cfg, rank, stage, local, layer);
    NamePlaces(cfg, rank', stage', local', layer);
    SameStage(stage, stage', PerChunk(cfg), layer);
    NameBounds(cfg, rank, stage, local, layer);
    NameBounds(cfg, rank', stage', local', layer);
    hide *;
    TiledDivides(cfg);
    if rank < rank' { BeforeMonotone(cfg, rank, rank'); }
    if rank' < rank { BeforeMonotone(cfg, rank', rank); }
  }

  lemma NameBounds(cfg: Config, rank: nat, stage: nat, local: nat, layer: int)
    requires Tiled(cfg) && Names(cfg, rank, stage, local, layer)
    ensures rank < cfg.stages && local < Count(cfg, rank)
  {
  }

  lemma SameStage(s: nat, s': nat, t: int, layer: int)
    requires s * t <= layer < s * t + t && s' * t <= layer < s' * t + t
    ensures s == s'
  {
    MulSucc(s, t);
    MulSucc(s', t);
    MulStrict(s, s' + 1, t);
    MulStrict(s', s + 1, t);
  }

  // ---------------------------------------------------------------- the cases outside

  /** With virtual stages and only the last rank's count, the first two ranks get the same offset, so a
      layer has two names as soon as both ranks hold something. */
  lemma OnlyLastCountOverlaps(cfg: Config, stage: nat)
    requires cfg.stages > 1 && cfg.first.None? && cfg.last.Some? && cfg.chunks.Some? && Divides(cfg) && stage < Chunks(cfg)
    ensures Offset(cfg, 0, Some(stage)).Ok? && Offset(cfg, 1, Some(stage)) == Offset(cfg, 0, Some(stage))
    ensures Count(cfg, 0) > 0 && Count(cfg, 1) > 0 ==>
      exists layer :: Names(cfg, 0, stage, 0, layer) && Names(cfg, 1, stage, 0, layer)
  {
    var layer := Offset(cfg, 0, Some(stage)).value;
    assert Offset(cfg, 1, StageArg(cfg, stage)) == Ok(layer);
    if Count(cfg, 0) > 0 && Count(cfg, 1) > 0 {
      assert Names(cfg, 0, stage, 0, layer) && Names(cfg, 1, stage, 0, layer);
    }
  }

  /** With a single rank every virtual stage starts at layer 0, so the first two share it. */
  lemma OneRankOverlaps(cfg: Config)
    requires cfg.stages == 1 && Chunks(cfg) > 1
    ensures forall stage: nat :: Offset(cfg, 0, StageArg(cfg, stage)) == Ok(0)
    ensures Count(cfg, 0) > 0 ==> Names(cfg, 0, 0, 0, 0) && Names(cfg, 0, 1, 0, 0)
  {
  }

  /** With virtual stages, both counts and only two ranks, the last rank's offset divides by zero. */
  lemma TwoUnevenRanksDivideByZero(cfg: Config, stage: nat)
    requires cfg.stages == 2 && cfg.first.Some? && cfg.last.Some? && cfg.chunks.Some? && cfg.chunks.value > 0
    ensures Offset(cfg, 1, Some(stage)) == Failed(ZeroDivisionError)
  {
  }

  // ---------------------------------------------------------------- exactly when the layers are tiled

  /** Every rank holds a layer in each of its virtual stages. */
  ghost predicate AllHold(cfg: Config)
    requires Chunks(cfg) > 0
  {
    forall rank: nat :: rank < cfg.stages ==> Count(cfg, rank) > 0
  }

  ghost predicate AllDefined(cfg: Config)
    requires Chunks(cfg) > 0
  {
    forall rank: nat, stage: nat :: rank < cfg.stages && stage < Chunks(cfg) ==> Offset(cfg, rank, StageArg(cfg, stage)).Ok?
  }

  ghost predicate IsNamed(cfg: Config, layer: int)
    requires Chunks(cfg) > 0
  {
    exists rank: nat, stage: nat, local: nat :: Names(cfg, rank, stage, local, layer)
  }

  ghost predicate NamedAtMostOnce(cfg: Config, layer: int)
    requires Chunks(cfg) > 0
  {
    forall rank: nat, stage: nat, local: nat, rank': nat, stage': nat, local': nat ::
      Names(cfg, rank, stage, local, layer) && Names(cfg, rank', stage', local', layer)
      ==> rank == rank' && stage == stage' && local == local'
  }

  /** Every offset is defined, every layer has exactly one name, and every name is of a layer. */
  ghost predicate TilesModel(cfg: Config)
    requires Chunks(cfg) > 0
  {
    AllDefined(cfg) && forall layer: int :: (IsNamed(cfg, layer) <==> 0 <= layer < cfg.layers) && NamedAtMostOnce(cfg, layer)
  }

  /** When every division is exact and every rank holds something, the offsets tile the model in the tiled cases and
      in no others. */
  lemma TilesExactlyWhenTiled(cfg: Config)
    requires Divides(cfg) && AllHold(cfg)
    ensures TilesModel(cfg) <==> Tiled(cfg)
  {
    if Tiled(cfg) {
      TiledTiles(cfg);
    } else {
      UntiledDoesNot(cfg);
    }
  }

  lemma TiledTiles(cfg: Config)
    requires Tiled(cfg)
    ensures Chunks(cfg) > 0 && TilesModel(cfg)
  {
    hide Offset, Names, Before, PerChunk;
    TiledDivides(cfg);
    forall rank: nat, stage: nat | rank < cfg.stages && stage < Chunks(cfg)
      ensures Offset(cfg, rank, StageArg(cfg, stage)).Ok?
    {
      OffsetIsStart(cfg, rank, stage);
    }
    hide Tiled, Divides;
    forall layer: int
      ensures IsNamed(cfg, layer) <==> 0 <= layer < cfg.layers
      ensures NamedAtMostOnce(cfg, layer)
    {
      NamedInside(cfg, layer);
      NamedOnce(cfg, layer);
    }
  }

  /** So it is for whole shares, on any number of ranks, without virtual stages and with them. */
  lemma WholeSharesTile(share: nat, ranks: nat, virtual: nat)
    requires ranks >= 1 && virtual >= 1
    ensures TilesModel(Config(share * ranks, ranks, None, None, None))
    ensures ranks >= 2 ==> Chunks(Config(share * ranks * virtual, ranks, None, None, Some(virtual))) > 0
    ensures ranks >= 2 ==> TilesModel(Config(share * ranks * virtual, ranks, None, None, Some(virtual)))
  {
    var plain, interleaved :=
      Config(share * ranks, ranks, None, None, None), Config(share * ranks * virtual, ranks, None, None, Some(virtual));
    MultipleDivides(share, ranks);
    assert share * ranks * virtual == (share * virtual) * ranks;
    MultipleDivides(share * virtual, ranks);
    MultipleDivides(share, virtual);
    hide TilesModel;
    assert Tiled(plain);
    TiledTiles(plain);
    if ranks >= 2 {
      assert Tiled(interleaved);
      TiledTiles(interleaved);
    }
  }

  /** And for own counts of the first and last rank, whatever they are, with the rest shared out between. */
  lemma OwnCountsTile(first: nat, share: nat, middle: nat, last: nat)
    ensures var cfg := Config(first + share * middle + last, middle + 2, Some(first), Some(last), None);
      TilesModel(cfg) && Count(cfg, 0) == first && Count(cfg, middle + 1) == last
      && forall rank: nat :: 0 < rank <= middle ==> Count(cfg, rank) == share
  {
    var cfg := Config(first + share * middle + last, middle + 2, Some(first), Some(last), None);
    if middle > 0 { MultipleDivides(share, middle); }
    hide TilesModel;
    assert Tiled(cfg);
    TiledTiles(cfg);
  }

  /** With virtual stages the stage must be given, and there must be one. */
  lemma StageIsNeeded(cfg: Config, rank: nat, stage: Option<nat>)
    requires cfg.stages > 1 && cfg.chunks.Some?
    ensures stage.None? ==> Offset(cfg, rank, stage) == Failed(AssertionError)
    ensures stage.Some? && cfg.chunks.value == 0 ==> Offset(cfg, rank, stage) == Failed(ZeroDivisionError)
  {
  }

  lemma NamedInside(cfg: Config, layer: int)
    requires Tiled(cfg)
    ensures Chunks(cfg) > 0 && (IsNamed(cfg, layer) <==> 0 <= layer < cfg.layers)
  {
    hide Names, Before, PerChunk;
    TiledDivides(cfg);
    hide Tiled, Divides;
    if 0 <= layer < cfg.layers {
      var rank, stage, local := EveryLayerIsNamed(cfg, layer);
    }
    if IsNamed(cfg, layer) {
      var rank: nat, stage: nat, local: nat :| Names(cfg, rank, stage, local, layer);
      NamePlaces(cfg, rank, stage, local, layer);
    }
  }

  lemma NamedOnce(cfg: Config, layer: int)
    requires Tiled(cfg)
    ensures Chunks(cfg) > 0 && NamedAtMostOnce(cfg, layer)
  {
    hide Names;
    TiledDivides(cfg);
    hide Tiled, Divides;
    forall rank: nat, stage: nat, local: nat, rank': nat, stage': nat, local': nat |
      Names(cfg, rank, stage, local, layer) && Names(cfg, rank', stage', local', layer)
      ensures rank == rank' && stage == stage' && local == local'
    {
      NamesAreUnique(cfg, layer, rank, stage, local, rank', stage', local');
    }
  }

  /** Outside, either the last rank's offset is undefined or the first layer of ranks 0 and 1 is the same. */
  lemma UntiledDoesNot(cfg: Config)
    requires Divides(cfg) && AllHold(cfg) && !Tiled(cfg)
    ensures !TilesModel(cfg)
  {
    hide Offset, Names;
    if cfg.stages == 1 {
      OneRankOverlaps(cfg);
      assert Count(cfg, 0) > 0;
      assert !NamedAtMostOnce(cfg, 0);
    } else if cfg.first.Some? {
      TwoUnevenRanksDivideByZero(cfg, 0);
      assert !Offset(cfg, 1, StageArg(cfg, 0)).Ok?;
    } else {
      OnlyLastCountOverlaps(cfg, 0);
      assert Count(cfg, 0) > 0 && Count(cfg, 1) > 0;
      var layer :| Names(cfg, 0, 0, 0, layer) && Names(cfg, 1, 0, 0, layer);
      assert !NamedAtMostOnce(cfg, layer);
    }
  }
}
