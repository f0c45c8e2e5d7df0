/** Renumbering layers while the pipeline parts of a checkpoint are merged into one. */
module LayerRenumbering {
  /** A converted name: a layer's weight, or one that carries no layer number. */
  datatype Key = Layer(number: nat, rest: string) | Plain(name: string)

  type Part<V> = seq<(Key, V)>

  function Renumbered(key: Key, cum: nat): Key {
    if key.Layer? then Layer(key.number + cum, key.rest) else key
  }

  /** `layers_handled`: the largest local number seen, zero when there is none. */
  function Handled<V>(part: Part<V>): nat {
    if part == [] then 0 else
    var last, before := part[|part| - 1].0, Handled(part[..|part| - 1]);
    if last.Layer? && last.number > before then last.number else before
  }

  /** `layers_cum` when part i is reached. */
  function Start<V>(parts: seq<Part<V>>, base: nat, i: nat): nat
    requires i <= |parts|
  {
    if i == 0 then base else Start(parts, base, i - 1) + Handled(parts[i - 1]) + 1
  }

  /** The dictionary after one part, entry by entry; a later entry overwrites. */
  function AfterPart<V>(state: map<Key, V>, part: Part<V>, cum: nat): map<Key, V> {
    if part == [] then state else
    var (key, value) := part[|part| - 1];
    AfterPart(state, part[..|part| - 1], cum)[Renumbered(key, cum) := value]
  }

  function Merged<V>(parts: seq<Part<V>>, base: nat, i: nat): map<Key, V>
    requires i <= |parts|
  {
    if i == 0 then map[] else AfterPart(Merged(parts, base, i - 1), parts[i - 1], Start(parts, base, i - 1))
  }

  /** The two loops of `_merge_state_dicts`. */
  method MergeStateDicts<V>(parts: seq<Part<V>>, base: nat) returns (state: map<Key, V>)
    ensures state == Merged(parts, base, |parts|)
  {
    state := map[];
    var layersCum, i := base, 0;
    while i < |parts|
      invariant 0 <= i <= |parts| && layersCum == Start(parts, base, i) && state == Merged(parts, base, i)
    {
      var part, layersHandled, j := parts[i], 0, 0;
      ghost var before := state;
      assert part[..0] == [];
      while j < |part|
        invariant 0 <= j <= |part|
        invariant layersHandled == Handled(part[..j]) && state == AfterPart(before, part[..j], layersCum)
      {
        assert part[..j + 1][..j] == part[..j];
        var (key, value) := part[j];
        if key.Layer? && key.number > layersHandled { layersHandled := key.number; }
        state := state[Renumbered(key, layersCum) := value];
        j := j + 1;
      }
      assert part[..|part|] == part;
      layersCum := layersCum + layersHandled + 1;
      i := i + 1;
    }
  }

  // ---------------------------------------------------------------- nothing is overwritten

  lemma {:induction false} HandledBounds<V>(part: Part<V>, j: nat)
    requires j < |part| && part[j].0.Layer?
    ensures part[j].0.number <= Handled(part)
  {
    if j < |part| - 1 { HandledBounds(part[..|part| - 1], j); }
  }

  lemma {:induction false} StartGrows<V>(parts: seq<Part<V>>, base: nat, i: nat, j: nat)
    requires i < j <= |parts|
    ensures Start(parts, base, i) + Handled(parts[i]) < Start(parts, base, j)
  {
    if i < j - 1 { StartGrows(parts, base, i, j - 1); }
  }

  /** The numbers given to different parts do not meet, whatever the parts hold. */
  lemma PartsDoNotMeet<V>(parts: seq<Part<V>>, base: nat, i: nat, a: nat, j: nat, b: nat)
    requires i < j < |parts| && a < |parts[i]| && b < |parts[j]| && parts[i][a].0.Layer? && parts[j][b].0.Layer?
    ensures Renumbered(parts[i][a].0, Start(parts, base, i)).number < Renumbered(parts[j][b].0, Start(parts, base, j)).number
  {
    HandledBounds(parts[i], a);
    StartGrows(parts, base, i, j);
  }

  /** No key twice in a part, as in a dictionary. */
  ghost predicate KeysOnce<V>(part: Part<V>) {
    forall a, b :: 0 <= a < b < |part| ==> part[a].0 != part[b].0
  }

  lemma {:induction false} AfterPartHolds<V>(state: map<Key, V>, part: Part<V>, cum: nat, a: nat)
    requires KeysOnce(part) && a < |part|
    ensures Renumbered(part[a].0, cum) in AfterPart(state, part, cum)
    ensures AfterPart(state, part, cum)[Renumbered(part[a].0, cum)] == part[a].1
  {
    var n := |part| - 1;
    if a < n {
      AfterPartHolds(state, part[..n], cum, a);
      assert part[..n][a] == part[a] && part[a].0 != part[n].0;
    }
  }

  /** A key no entry is renumbered to is left alone. */
  lemma {:induction false} AfterPartKeeps<V>(state: map<Key, V>, part: Part<V>, cum: nat, key: Key)
    requires forall a :: 0 <= a < |part| ==> Renumbered(part[a].0, cum) != key
    ensures key in AfterPart(state, part, cum) <==> key in state
    ensures key in state ==> AfterPart(state, part, cum)[key] == state[key]
  {
    if part != [] {
      var n := |part| - 1;
      forall a | 0 <= a < n ensures Renumbered(part[..n][a].0, cum) != key { assert part[..n][a] == part[a]; }
      AfterPartKeeps(state, part[..n], cum, key);
    }
  }

  /** Every layer weight of every part reaches the merged dictionary under its own name with its global number. */
  lemma {:induction false} EveryLayerArrives<V>(parts: seq<Part<V>>, base: nat, n: nat, i: nat, a: nat)
    requires i < n <= |parts| && (forall p :: 0 <= p < |parts| ==> KeysOnce(parts[p]))
    requires a < |parts[i]| && parts[i][a].0.Layer?
    ensures var key := Layer(parts[i][a].0.number + Start(parts, base, i), parts[i][a].0.rest);
      key in Merged(parts, base, n) && Merged(parts, base, n)[key] == parts[i][a].1
  {
    hide AfterPart;
    var key := Renumbered(parts[i][a].0, Start(parts, base, i));
    if i == n - 1 {
      AfterPartHolds(Merged(parts, base, i), parts[i], Start(parts, base, i), a);
    } else {
      EveryLayerArrives(parts, base, n - 1, i, a);
      var last := parts[n - 1];
      forall b | 0 <= b < |last| ensures Renumbered(last[b].0, Start(parts, base, n - 1)) != key {
        if last[b].0.Layer? { PartsDoNotMeet(parts, base, i, a, n - 1, b); }
      }
      AfterPartKeeps(Merged(parts, base, n - 1), last, Start(parts, base, n - 1), key);
    }
  }

  /** Part i is the last to hold the name at a. */
  ghost predicate LastWith<V>(parts: seq<Part<V>>, n: nat, i: nat, a: nat)
    requires i < n <= |parts| && a < |parts[i]|
  {
    forall j, b :: i < j < n && 0 <= b < |parts[j]| ==> parts[j][b].0 != parts[i][a].0
  }

  /** A name without layer number, as the embedding's, is stored unchanged, with the value of the last part that has it. */
  lemma {:induction false} EveryPlainNameArrives<V>(parts: seq<Part<V>>, base: nat, n: nat, i: nat, a: nat)
    requires i < n <= |parts| && (forall p :: 0 <= p < |parts| ==> KeysOnce(parts[p]))
    requires a < |parts[i]| && parts[i][a].0.Plain? && LastWith(parts, n, i, a)
    ensures parts[i][a].0 in Merged(parts, base, n) && Merged(parts, base, n)[parts[i][a].0] == parts[i][a].1
  {
    hide AfterPart;
    if i == n - 1 {
      AfterPartHolds(Merged(parts, base, i), parts[i], Start(parts, base, i), a);
    } else {
      EveryPlainNameArrives(parts, base, n - 1, i, a);
      var last := parts[n - 1];
      forall b | 0 <= b < |last| ensures Renumbered(last[b].0, Start(parts, base, n - 1)) != parts[i][a].0 {
        assert last[b].0 != parts[i][a].0;
      }
      AfterPartKeeps(Merged(parts, base, n - 1), last, Start(parts, base, n - 1), parts[i][a].0);
    }
  }

  /** Nothing else is stored: every key of the merged dictionary is some part's. */
  lemma {:induction false} NothingElseArrives<V>(parts: seq<Part<V>>, base: nat, n: nat, key: Key) returns (i: nat, a: nat)
    requires n <= |parts| && key in Merged(parts, base, n)
    ensures i < n && a < |parts[i]| && Renumbered(parts[i][a].0, Start(parts, base, i)) == key
  {
    hide AfterPart, Start;
    var last := parts[n - 1];
    if exists b :: 0 <= b < |last| && Renumbered(last[b].0, Start(parts, base, n - 1)) == key {
      i := n - 1;
      a :| 0 <= a < |last| && Renumbered(last[a].0, Start(parts, base, n - 1)) == key;
    } else {
      AfterPartKeeps(Merged(parts, base, n - 1), last, Start(parts, base, n - 1), key);
      i, a := NothingElseArrives(parts, base, n - 1, key);
    }
  }

  // ---------------------------------------------------------------- the numbers are the model's

  /** A part holds exactly the local layers 0 .. count - 1. */
  ghost predicate HoldsLayers<V>(part: Part<V>, count: nat) {
    (forall a :: 0 <= a < |part| && part[a].0.Layer? ==> part[a].0.number < count)
    && forall l: nat :: l < count ==> HasLayer(part, l)
  }

  ghost predicate HasLayer<V>(part: Part<V>, l: nat) {
    exists a :: 0 <= a < |part| && part[a].0.Layer? && part[a].0.number == l
  }

  lemma {:induction false} HandledIsReached<V>(part: Part<V>)
    requires Handled(part) > 0
    ensures HasLayer(part, Handled(part))
  {
    var n := |part| - 1;
    if part[n].0.Layer? && part[n].0.number == Handled(part) {
    } else {
      HandledIsReached(part[..n]);
      var a :| 0 <= a < n && part[..n][a].0.Layer? && part[..n][a].0.number == Handled(part);
      assert part[a] == part[..n][a];
    }
  }

  lemma HandledOfHolds<V>(part: Part<V>, count: nat)
    requires HoldsLayers(part, count)
    ensures Handled(part) == if count == 0 then 0 else count - 1
  {
    if Handled(part) > 0 {
      HandledIsReached(part);
    }
    if count > 0 {
      assert HasLayer(part, count - 1);
      var a :| 0 <= a < |part| && part[a].0.Layer? && part[a].0.number == count - 1;
      HandledBounds(part, a);
    }
  }

  /** Layers in the parts before i. */
  function LayersBefore(counts: seq<nat>, i: nat): nat
    requires i <= |counts|
  {
    if i == 0 then 0 else LayersBefore(counts, i - 1) + counts[i - 1]
  }

  function EmptyBefore(counts: seq<nat>, i: nat): nat
    requires i <= |counts|
  {
    if i == 0 then 0 else EmptyBefore(counts, i - 1) + if counts[i - 1] == 0 then 1 else 0
  }

  /** Part i starts after all layers before it, plus one too many for every earlier part without layers. */
  lemma {:induction false} StartCounts<V>(parts: seq<Part<V>>, counts: seq<nat>, base: nat, i: nat)
    requires |counts| == |parts| && i <= |parts| && forall p: nat :: p < |parts| ==> HoldsLayers(parts[p], counts[p])
    ensures Start(parts, base, i) == base + LayersBefore(counts, i) + EmptyBefore(counts, i)
  {
    if i > 0 {
      StartCounts(parts, counts, base, i - 1);
      HandledOfHolds(parts[i - 1], counts[i - 1]);
    }
  }

  lemma {:induction false} NoneEmpty(counts: seq<nat>, i: nat)
    requires i <= |counts|
    ensures EmptyBefore(counts, i) == 0 <==> forall p :: 0 <= p < i ==> counts[p] > 0
  {
    if i > 0 { NoneEmpty(counts, i - 1); }
  }

  /** Every part gets its true start exactly when no part but the last is without layers. */
  lemma StartsAreGlobal<V>(parts: seq<Part<V>>, counts: seq<nat>, base: nat)
    requires |counts| == |parts| > 0 && forall p: nat :: p < |parts| ==> HoldsLayers(parts[p], counts[p])
    ensures (forall i: nat :: i < |parts| ==> Start(parts, base, i) == base + LayersBefore(counts, i)) <==>
      (forall p :: 0 <= p < |parts| - 1 ==> counts[p] > 0)
  {
    hide Start, LayersBefore, EmptyBefore, HoldsLayers;
    var n := |parts| - 1;
    StartCounts(parts, counts, base, n);
    NoneEmpty(counts, n);
    forall i: nat | i < |parts| ensures
      Start(parts, base, i) == base + LayersBefore(counts, i) + EmptyBefore(counts, i)
      && (EmptyBefore(counts, i) == 0 <==> forall p :: 0 <= p < i ==> counts[p] > 0)
    {
      StartCounts(parts, counts, base, i);
      NoneEmpty(counts, i);
    }
  }

  /** The number entry a of part i should get: its place among the layers of all parts. */
  ghost predicate NumberedRight<V>(parts: seq<Part<V>>, counts: seq<nat>, base: nat, i: nat, a: nat)
    requires i < |parts| == |counts| && a < |parts[i]|
  {
    parts[i][a].0.Layer? ==>
      Renumbered(parts[i][a].0, Start(parts, base, i)).number == base + LayersBefore(counts, i) + parts[i][a].0.number
  }

  ghost predicate AllNumberedRight<V>(parts: seq<Part<V>>, counts: seq<nat>, base: nat)
    requires |parts| == |counts|
  {
    forall i: nat, a: nat :: i < |parts| && a < |parts[i]| ==> NumberedRight(parts, counts, base, i, a)
  }

  /** No part without layers comes before a part with layers. */
  ghost predicate EmptyPartsLast(counts: seq<nat>) {
    forall p, i :: 0 <= p < i < |counts| && counts[p] == 0 ==> counts[i] == 0
  }

  /** Within one part, the numbers are right exactly when all earlier parts hold layers, or it holds none itself. */
  lemma PartNumberedRight<V>(parts: seq<Part<V>>, counts: seq<nat>, base: nat, i: nat)
    requires i < |counts| == |parts| && forall p: nat :: p < |parts| ==> HoldsLayers(parts[p], counts[p])
    ensures (forall a: nat :: a < |parts[i]| ==> NumberedRight(parts, counts, base, i, a)) <==>
      counts[i] == 0 || forall p :: 0 <= p < i ==> counts[p] > 0
  {
    StartCounts(parts, counts, base, i);
    NoneEmpty(counts, i);
    if counts[i] > 0 {
      assert HoldsLayers(parts[i], counts[i]);
      assert HasLayer(parts[i], 0);
      var a :| 0 <= a < |parts[i]| && parts[i][a].0.Layer? && parts[i][a].0.number == 0;
      hide Start, LayersBefore, EmptyBefore;
      assert NumberedRight(parts, counts, base, i, a) <==> EmptyBefore(counts, i) == 0;
    } else {
      assert HoldsLayers(parts[i], counts[i]);
    }
  }

  /** Every layer of every part gets its number in the whole model exactly when no part without layers comes before
      a part with layers. */
  lemma NumbersAreGlobal<V>(parts: seq<Part<V>>, counts: seq<nat>, base: nat)
    requires |counts| == |parts| && forall p: nat :: p < |parts| ==> HoldsLayers(parts[p], counts[p])
    ensures AllNumberedRight(parts, counts, base) <==> EmptyPartsLast(counts)
  {
    hide NumberedRight, HoldsLayers;
    forall i: nat | i < |parts|
      ensures (forall a: nat :: a < |parts[i]| ==> NumberedRight(parts, counts, base, i, a)) <==>
        counts[i] == 0 || forall p :: 0 <= p < i ==> counts[p] > 0
    {
      PartNumberedRight(parts, counts, base, i);
    }
  }

  /** A process that starts its part from its own base gives the numbers one process gives to all parts, exactly when
      every part before it holds layers. */
  lemma RanksAgree<V>(parts: seq<Part<V>>, counts: seq<nat>, i: nat)
    requires i < |counts| == |parts| && forall p: nat :: p < |parts| ==> HoldsLayers(parts[p], counts[p])
    ensures Start([parts[i]], LayersBefore(counts, i), 0) == Start(parts, 0, i) <==> forall p :: 0 <= p < i ==> counts[p] > 0
  {
    StartCounts(parts, counts, 0, i);
    NoneEmpty(counts, i);
  }
}
