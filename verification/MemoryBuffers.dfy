/** Packed memory buffers: building them, and rebinding every parameter to its place inside. */
module MemoryBuffers {
  import opened Prelude
  import opened Sequences
  import opened BufferLayout
  import opened Sorting

  /** A tensor that views consecutive elements of a flat storage. */
  datatype View = View(storage: array<real>, start: nat, shape: seq<nat>) {
    ghost predicate Fits() { start + Numel(shape) <= storage.Length }

    ghost function Values(): (s: seq<real>)
      requires Fits()
      reads storage
    {
      storage[start..start + Numel(shape)]
    }
  }

  class Parameter {
    const dtype: DType
    var data: View

    constructor (dtype: DType, data: View)
      ensures this.dtype == dtype && this.data == data
    {
      this.dtype := dtype;
      this.data := data;
    }
  }

  class MemoryBuffer {
    const data: array<real>

    constructor (numel: nat)
      ensures fresh(data) && data.Length == numel && forall k :: 0 <= k < numel ==> data[k] == 0.0
    {
      data := new real[numel](_ => 0.0);
    }

    /** `get`: a view, unless the range assertion fails. */
    function Get(shape: seq<nat>, start: nat): (r: Result<View>)
      ensures r.Ok? ==> r.value.Fits()
      ensures r.Failed? <==> start + Numel(shape) > data.Length
      ensures r.Failed? ==> r.why == AssertionError
    {
      if start + Numel(shape) > data.Length then Failed(AssertionError) else Ok(View(data, start, shape))
    }
  }

  type Buffers = map<DType, MemoryBuffer>

  /** No two dtypes share memory. */
  ghost predicate Separate(buffers: Buffers) {
    forall d, e | d in buffers && e in buffers && d != e :: buffers[d].data != buffers[e].data
  }

  ghost function Storages(buffers: Buffers): set<object> {
    set d | d in buffers :: buffers[d].data
  }

  // ---------------------------------------------------------------- building the buffers

  /** `build_memory_buffer`: add up the padded sizes, then allocate one buffer per dtype. */
  method BuildMemoryBuffer(metas: seq<Meta>) returns (buffers: Buffers)
    ensures forall d :: d in buffers <==> exists i :: 0 <= i < |metas| && metas[i].dtype == d
    ensures forall d | d in buffers :: fresh(buffers[d]) && fresh(buffers[d].data)
    ensures forall d | d in buffers :: buffers[d].data.Length == Total(metas, d)
    ensures Separate(buffers)
  {
    var totals := TotalNumel(metas);
    buffers := map[];
    var left := totals.Keys;
    while left != {}
      invariant left <= totals.Keys && buffers.Keys == totals.Keys - left
      invariant forall d | d in buffers :: fresh(buffers[d]) && fresh(buffers[d].data)
      invariant forall d | d in buffers :: buffers[d].data.Length == totals[d]
      invariant Separate(buffers)
      decreases |left|
    {
      var d :| d in left;
      var buffer := new MemoryBuffer(totals[d]);
      buffers := buffers[d := buffer];
      left := left - {d};
    }
  }

  /** Its first loop. */
  method TotalNumel(metas: seq<Meta>) returns (totals: map<DType, nat>)
    ensures forall d :: d in totals <==> exists i :: 0 <= i < |metas| && metas[i].dtype == d
    ensures forall d | d in totals :: totals[d] == Total(metas, d)
  {
    totals := map[];
    var i := 0;
    while i < |metas|
      invariant 0 <= i <= |metas|
      invariant forall d :: d in totals <==> exists j :: 0 <= j < i && metas[j].dtype == d
      invariant forall d :: (if d in totals then totals[d] else 0) == Total(metas[..i], d)
    {
      var meta := metas[i];
      forall d ensures Total(metas[..i + 1], d) ==
        Total(metas[..i], d) + if meta.dtype == d then PaddedNumel(meta.shape, d) else 0
      {
        TotalOfNext(metas, i, d);
      }
      if meta.dtype !in totals { totals := totals[meta.dtype := 0]; }
      totals := totals[meta.dtype := totals[meta.dtype] + PaddedNumel(meta.shape, meta.dtype)];
      i := i + 1;
    }
    assert metas[..|metas|] == metas;
  }

  // ---------------------------------------------------------------- rebinding the parameters

  ghost function MetasOf(ps: seq<Parameter>): (metas: seq<Meta>)
    reads ps
    ensures |metas| == |ps| && forall i :: 0 <= i < |ps| ==> metas[i] == Meta(ps[i].data.shape, ps[i].dtype)
  {
    seq(|ps|, i requires 0 <= i < |ps| reads ps => Meta(ps[i].data.shape, ps[i].dtype))
  }

  /** Every weight finds its dtype's buffer and room in it. */
  ghost predicate Placeable(metas: seq<Meta>, buffers: Buffers) {
    forall i :: 0 <= i < |metas| ==> HasRoom(metas, buffers, i)
  }

  /** Weight i is the first without a buffer or without room in it, and how that fails. */
  ghost predicate FirstMisfit(metas: seq<Meta>, buffers: Buffers, i: nat, why: Failure) {
    i < |metas| && (forall j: nat :: j < i ==> HasRoom(metas, buffers, j)) && !HasRoom(metas, buffers, i)
    && why == if metas[i].dtype in buffers then AssertionError else KeyError
  }

  ghost predicate HasRoom(metas: seq<Meta>, buffers: Buffers, i: nat)
    requires i < |metas|
  {
    metas[i].dtype in buffers && Offset(metas, i) + Numel(metas[i].shape) <= buffers[metas[i].dtype].data.Length
  }

  ghost function Place(metas: seq<Meta>, buffers: Buffers, i: nat): (v: View)
    requires i < |metas| && HasRoom(metas, buffers, i)
    ensures v.Fits()
  {
    View(buffers[metas[i].dtype].data, Offset(metas, i), metas[i].shape)
  }

  /** No two weights share an element. */
  ghost predicate Apart(v: View, w: View) {
    v.storage != w.storage || v.start + Numel(v.shape) <= w.start || w.start + Numel(w.shape) <= v.start
  }

  lemma PlacesAreApart(metas: seq<Meta>, buffers: Buffers, i: nat, j: nat)
    requires i < j < |metas| && HasRoom(metas, buffers, i) && HasRoom(metas, buffers, j) && Separate(buffers)
    ensures Apart(Place(metas, buffers, i), Place(metas, buffers, j))
  {
    if metas[i].dtype == metas[j].dtype { WeightsAreDisjoint(metas, i, j); }
  }

  /** `buffer.copy_`. */
  method CopyInto(target: View, source: View)
    requires target.Fits() && source.Fits() && target.shape == source.shape && target.storage != source.storage
    modifies target.storage
    ensures target.Values() == source.Values()
    ensures forall k :: 0 <= k < target.storage.Length && !(target.start <= k < target.start + Numel(target.shape)) ==>
      target.storage[k] == old(target.storage[k])
  {
    var n, k := Numel(target.shape), 0;
    ghost var want := source.Values();
    while k < n
      invariant 0 <= k <= n && source.Values() == want
      invariant target.storage[target.start..target.start + k] == want[..k]
      invariant forall j :: 0 <= j < target.storage.Length && !(target.start <= j < target.start + n) ==>
        target.storage[j] == old(target.storage[j])
    {
      target.storage[target.start + k] := source.storage[source.start + k];
      assert want[..k + 1] == want[..k] + [want[k]];
      k := k + 1;
    }
  }

  /** Parameters before i sit in their places with the values wanted there. */
  ghost predicate Bound(ps: seq<Parameter>, metas: seq<Meta>, buffers: Buffers, want: seq<seq<real>>, i: nat)
    requires i <= |ps| == |metas| == |want|
    reads ps, Storages(buffers)
  {
    forall j :: 0 <= j < i ==> BoundAt(ps[j], metas, buffers, want[j], j)
  }

  ghost predicate BoundAt(p: Parameter, metas: seq<Meta>, buffers: Buffers, want: seq<real>, j: nat)
    requires j < |metas|
    reads p, Storages(buffers)
  {
    HasRoom(metas, buffers, j) && p.data == Place(metas, buffers, j) && Place(metas, buffers, j).Values() == want
  }

  /** Parameters from i on view what they did, outside the buffers. */
  ghost predicate Pending(ps: seq<Parameter>, metas: seq<Meta>, views: seq<View>, buffers: Buffers,
                          want: seq<seq<real>>, maintain: bool, i: nat)
    requires |ps| == |metas| == |views| == |want|
    reads ps, (set v | v in views :: v.storage), Storages(buffers)
  {
    forall j :: i <= j < |ps| ==> PendingAt(ps[j], metas, views[j], buffers, want[j], maintain, j)
  }

  /** Wanted is the parameter's own value, or what the buffer holds when weights are not maintained. */
  ghost predicate PendingAt(p: Parameter, metas: seq<Meta>, view: View, buffers: Buffers,
                            want: seq<real>, maintain: bool, j: nat)
    requires j < |metas|
    reads p, view.storage, Storages(buffers)
  {
    p.data == view && view.Fits() && view.storage !in Storages(buffers)
    && metas[j] == Meta(view.shape, p.dtype)
    && if maintain then view.Values() == want
       else HasRoom(metas, buffers, j) ==> Place(metas, buffers, j).Values() == want
  }

  /** One round of the loop, once the view is in hand. */
  method BindNext(ps: seq<Parameter>, i: nat, p: Parameter, view: View, maintain: bool, buffers: Buffers,
                  ghost metas: seq<Meta>, ghost views: seq<View>, ghost want: seq<seq<real>>)
    requires i < |ps| == |metas| == |views| == |want| && ps[i] == p && Distinct(ps) && Separate(buffers)
    requires Bound(ps, metas, buffers, want, i) && Pending(ps, metas, views, buffers, want, maintain, i)
    requires HasRoom(metas, buffers, i) && view == Place(metas, buffers, i)
    modifies p`data, view.storage
    ensures Bound(ps, metas, buffers, want, i + 1) && Pending(ps, metas, views, buffers, want, maintain, i + 1)
  {
    hide Offset, Separate;
    assert PendingAt(p, metas, views[i], buffers, want[i], maintain, i);
    forall j | 0 <= j < i
      ensures BoundAt(ps[j], metas, buffers, want[j], j) && Apart(Place(metas, buffers, j), view)
    {
      assert BoundAt(ps[j], metas, buffers, want[j], j);
      PlacesAreApart(metas, buffers, j, i);
    }
    if maintain { CopyInto(view, p.data); }
    p.data := view;
    assert BoundAt(p, metas, buffers, want[i], i);
  }

  /** The running start of every dtype is what the weights so far take. */
  ghost predicate Tracks(startIndex: map<DType, nat>, metas: seq<Meta>, buffers: Buffers, i: nat)
    requires i <= |metas|
  {
    startIndex.Keys == buffers.Keys && forall d :: d in buffers ==> startIndex[d] == Total(metas[..i], d)
  }

  lemma TracksFromZero(startIndex: map<DType, nat>, metas: seq<Meta>, buffers: Buffers)
    requires startIndex.Keys == buffers.Keys && forall d :: d in buffers ==> startIndex[d] == 0
    ensures Tracks(startIndex, metas, buffers, 0)
  {
  }

  lemma TracksNext(startIndex: map<DType, nat>, metas: seq<Meta>, buffers: Buffers, i: nat)
    requires i < |metas| && Tracks(startIndex, metas, buffers, i) && metas[i].dtype in buffers
    ensures var d := metas[i].dtype;
      Tracks(startIndex[d := startIndex[d] + PaddedNumel(metas[i].shape, d)], metas, buffers, i + 1)
  {
    hide Total, PaddedNumel;
    forall d | d in buffers ensures Total(metas[..i + 1], d) ==
      Total(metas[..i], d) + if metas[i].dtype == d then PaddedNumel(metas[i].shape, d) else 0
    {
      TotalOfNext(metas, i, d);
    }
  }

  ghost function ViewsOf(ps: seq<Parameter>): (views: seq<View>)
    reads ps
    ensures |views| == |ps| && forall i :: 0 <= i < |ps| ==> views[i] == ps[i].data
  {
    seq(|ps|, i requires 0 <= i < |ps| reads ps => ps[i].data)
  }

  /** What every parameter should read afterwards. */
  ghost function Wanted(ps: seq<Parameter>, buffers: Buffers, maintain: bool): (want: seq<seq<real>>)
    reads ps, (set p | p in ps :: p.data.storage), Storages(buffers)
    ensures |want| == |ps|
    ensures forall i :: 0 <= i < |ps| ==> want[i] == WantedAt(ps, buffers, maintain, i)
  {
    seq(|ps|, i requires 0 <= i < |ps| reads ps, (set p | p in ps :: p.data.storage), Storages(buffers) =>
      WantedAt(ps, buffers, maintain, i))
  }

  ghost function WantedAt(ps: seq<Parameter>, buffers: Buffers, maintain: bool, i: nat): seq<real>
    requires i < |ps|
    reads ps, ps[i].data.storage, Storages(buffers)
  {
    if maintain then (if ps[i].data.Fits() then ps[i].data.Values() else [])
    else if HasRoom(MetasOf(ps), buffers, i) then Place(MetasOf(ps), buffers, i).Values() else []
  }

  /** The parameters as the loop meets them: distinct, well-formed, and not yet inside the buffers. */
  ghost predicate Ready(ps: seq<Parameter>, buffers: Buffers)
    reads ps
  {
    Distinct(ps) && forall i :: 0 <= i < |ps| ==> ps[i].data.Fits() && ps[i].data.storage !in Storages(buffers)
  }

  /** The loop stopped at the first weight without room: those before it are bound, the others as they were. */
  ghost predicate StoppedAt(ps: seq<Parameter>, metas: seq<Meta>, views: seq<View>, buffers: Buffers,
                            want: seq<seq<real>>, maintain: bool, i: nat, why: Failure)
    reads ps, (set v | v in views :: v.storage), Storages(buffers)
  {
    i < |ps| == |metas| == |views| == |want| && FirstMisfit(metas, buffers, i, why) &&
    Bound(ps, metas, buffers, want, i) && Pending(ps, metas, views, buffers, want, maintain, i)
  }

  lemma StopsAt(ps: seq<Parameter>, metas: seq<Meta>, views: seq<View>, buffers: Buffers,
                want: seq<seq<real>>, maintain: bool, i: nat)
    requires i < |ps| == |metas| == |views| == |want| && !HasRoom(metas, buffers, i)
    requires Bound(ps, metas, buffers, want, i) && Pending(ps, metas, views, buffers, want, maintain, i)
    ensures StoppedAt(ps, metas, views, buffers, want, maintain, i,
                      if metas[i].dtype in buffers then AssertionError else KeyError)
  {
    hide HasRoom, Bound, Pending;
    BoundHasRoom(ps, metas, buffers, want, i);
  }

  /** The loop of `build_memory_reference_from_module`, over the parameters in name order. */
  method BindParameters(ps: seq<Parameter>, buffers: Buffers, maintain: bool) returns (r: Result<()>)
    requires Ready(ps, buffers) && Separate(buffers)
    modifies set p | p in ps :: p`data, Storages(buffers)
    ensures r.Ok? <==> Placeable(old(MetasOf(ps)), buffers)
    ensures r.Ok? ==> Bound(ps, old(MetasOf(ps)), buffers, old(Wanted(ps, buffers, maintain)), |ps|)
    ensures r.Failed? ==> exists i: nat ::
      StoppedAt(ps, old(MetasOf(ps)), old(ViewsOf(ps)), buffers, old(Wanted(ps, buffers, maintain)), maintain, i, r.why)
  {
    hide Separate, Total, PaddedNumel, Bound, Pending, Tracks, PendingAt, BoundAt, Distinct, Wanted, WantedAt, StoppedAt;
    ghost var metas, views, want := MetasOf(ps), ViewsOf(ps), Wanted(ps, buffers, maintain);
    var startIndex: map<DType, nat> := map d | d in buffers :: 0;
    TracksFromZero(startIndex, metas, buffers);
    ReadyIsPending(ps, buffers, maintain);
    var i := 0;
    while i < |ps|
      invariant 0 <= i <= |ps|
      invariant Tracks(startIndex, metas, buffers, i)
      invariant Bound(ps, metas, buffers, want, i)
      invariant Pending(ps, metas, views, buffers, want, maintain, i)
    {
      var p := ps[i];
      NextMeta(ps, metas, views, buffers, want, maintain, i, startIndex);
      if p.dtype !in buffers {
        StopsAt(ps, metas, views, buffers, want, maintain, i);
        return Failed(KeyError);
      }
      var got := buffers[p.dtype].Get(p.data.shape, startIndex[p.dtype]);
      if got.Failed? {
        StopsAt(ps, metas, views, buffers, want, maintain, i);
        return Failed(got.why);
      }
      var view := got.value;
      assert p in ps && view.storage in Storages(buffers);
      TracksNext(startIndex, metas, buffers, i);
      startIndex := startIndex[p.dtype := startIndex[p.dtype] + PaddedNumel(view.shape, p.dtype)];
      BindNext(ps, i, p, view, maintain, buffers, metas, views, want);
      i := i + 1;
    }
    BoundHasRoom(ps, metas, buffers, want, |ps|);
    return Ok(());
  }

  lemma ReadyIsPending(ps: seq<Parameter>, buffers: Buffers, maintain: bool)
    requires Ready(ps, buffers)
    ensures Bound(ps, MetasOf(ps), buffers, Wanted(ps, buffers, maintain), 0)
    ensures Pending(ps, MetasOf(ps), ViewsOf(ps), buffers, Wanted(ps, buffers, maintain), maintain, 0)
  {
    hide Storages, Offset;
  }

  lemma NextMeta(ps: seq<Parameter>, metas: seq<Meta>, views: seq<View>, buffers: Buffers, want: seq<seq<real>>,
                 maintain: bool, i: nat, startIndex: map<DType, nat>)
    requires i < |ps| == |metas| == |views| == |want|
    requires Pending(ps, metas, views, buffers, want, maintain, i) && Tracks(startIndex, metas, buffers, i)
    ensures metas[i] == Meta(ps[i].data.shape, ps[i].dtype) && startIndex.Keys == buffers.Keys
    ensures metas[i].dtype in buffers ==> startIndex[metas[i].dtype] == Offset(metas, i)
  {
    hide Total;
    assert PendingAt(ps[i], metas, views[i], buffers, want[i], maintain, i);
  }

  lemma BoundHasRoom(ps: seq<Parameter>, metas: seq<Meta>, buffers: Buffers, want: seq<seq<real>>, i: nat)
    requires i <= |ps| == |metas| == |want| && Bound(ps, metas, buffers, want, i)
    ensures forall j: nat :: j < i ==> HasRoom(metas, buffers, j)
  {
    hide HasRoom;
    forall j: nat | j < i ensures HasRoom(metas, buffers, j) {
      assert BoundAt(ps[j], metas, buffers, want[j], j);
    }
  }

  // ---------------------------------------------------------------- references without parameters

  ghost predicate FoundAt(views: map<string, View>, name: string, metas: seq<Meta>, buffers: Buffers, i: nat)
    requires i < |metas|
  {
    HasRoom(metas, buffers, i) && name in views && views[name] == Place(metas, buffers, i)
  }

  /** `build_memory_reference`, over the weights in name order. */
  method BuildMemoryReference(names: seq<string>, metas: seq<Meta>, buffers: Buffers) returns (r: Result<map<string, View>>)
    requires |names| == |metas| && Distinct(names)
    ensures r.Ok? <==> Placeable(metas, buffers)
    ensures r.Failed? ==> exists i: nat :: FirstMisfit(metas, buffers, i, r.why)
    ensures r.Ok? ==> r.value.Keys == set n | n in names
    ensures r.Ok? ==> forall i :: 0 <= i < |names| ==> FoundAt(r.value, names[i], metas, buffers, i)
  {
    hide Total, PaddedNumel, Tracks;
    var startIndex: map<DType, nat> := map d | d in buffers :: 0;
    TracksFromZero(startIndex, metas, buffers);
    var views: map<string, View> := map[];
    var i := 0;
    while i < |names|
      invariant 0 <= i <= |names|
      invariant Tracks(startIndex, metas, buffers, i)
      invariant views.Keys == set n | n in names[..i]
      invariant forall j :: 0 <= j < i ==> FoundAt(views, names[j], metas, buffers, j)
    {
      var meta := metas[i];
      StartOfNext(metas, buffers, i, startIndex);
      FoundHasRoom(views, names, metas, buffers, i);
      if meta.dtype !in buffers {
        assert FirstMisfit(metas, buffers, i, KeyError);
        return Failed(KeyError);
      }
      var got := buffers[meta.dtype].Get(meta.shape, startIndex[meta.dtype]);
      if got.Failed? {
        assert FirstMisfit(metas, buffers, i, AssertionError);
        return Failed(got.why);
      }
      TracksNext(startIndex, metas, buffers, i);
      startIndex := startIndex[meta.dtype := startIndex[meta.dtype] + PaddedNumel(meta.shape, meta.dtype)];
      assert forall j :: 0 <= j < i ==> names[j] != names[i];
      views := views[names[i] := got.value];
      assert names[..i + 1] == names[..i] + [names[i]];
      i := i + 1;
    }
    assert names[..|names|] == names;
    FoundHasRoom(views, names, metas, buffers, |names|);
    return Ok(views);
  }

  lemma FoundHasRoom(views: map<string, View>, names: seq<string>, metas: seq<Meta>, buffers: Buffers, i: nat)
    requires i <= |names| == |metas| && forall j :: 0 <= j < i ==> FoundAt(views, names[j], metas, buffers, j)
    ensures forall j: nat :: j < i ==> HasRoom(metas, buffers, j)
  {
    forall j: nat | j < i ensures HasRoom(metas, buffers, j) { assert FoundAt(views, names[j], metas, buffers, j); }
  }

  lemma StartOfNext(metas: seq<Meta>, buffers: Buffers, i: nat, startIndex: map<DType, nat>)
    requires i < |metas| && Tracks(startIndex, metas, buffers, i)
    ensures startIndex.Keys == buffers.Keys
    ensures metas[i].dtype in buffers ==> startIndex[metas[i].dtype] == Offset(metas, i)
  {
  }

  // ---------------------------------------------------------------- wrapping a module

  /** A module's parameters by name: every name once, every parameter under one name. */
  ghost predicate NamesParameters(names: seq<string>, params: map<string, Parameter>) {
    Distinct(names) && (forall n :: n in names ==> n in params)
    && forall m, n | m in params && n in params && m != n :: params[m] != params[n]
  }

  function ByName(names: seq<string>, params: map<string, Parameter>): (ps: seq<Parameter>)
    requires forall n :: n in names ==> n in params
    ensures |ps| == |names| && forall i :: 0 <= i < |names| ==> ps[i] == params[names[i]]
  {
    seq(|names|, i requires 0 <= i < |names| => params[names[i]])
  }

  lemma SortedNamesAgree(names: seq<string>, params: map<string, Parameter>)
    requires NamesParameters(names, params)
    ensures NamesParameters(SortedNames(names), params)
    ensures forall n :: n in names <==> n in SortedNames(names)
    ensures Distinct(ByName(SortedNames(names), params))
  {
    hide SortedNames;
    SortedTwice(names);
    var sorted := SortedNames(names);
    SameElements(names, sorted);
    forall i, j | 0 <= i < j < |sorted| ensures sorted[i] != sorted[j] {
      if sorted[i] == sorted[j] { TwiceIsTwice(sorted, names, i, j); }
    }
  }

  lemma TwiceIsTwice(sorted: seq<string>, names: seq<string>, i: nat, j: nat)
    requires i < j < |sorted| && sorted[i] == sorted[j] && multiset(sorted) == multiset(names)
    ensures !Distinct(names)
  {
    CountTwice(sorted, i, j);
    if Distinct(names) { DistinctCount(names, sorted[i]); }
  }

  /** A parameter's tensor starts on an aligned offset of its dtype's buffer and ends inside. */
  ghost predicate InBuffer(p: Parameter, buffers: Buffers)
    reads p
  {
    p.data.Fits() && p.dtype in buffers && p.data.storage == buffers[p.dtype].data
    && p.data.start % Align(p.dtype) == 0
  }

  /** `get_weight_buffer_meta_from_module`, over the parameters in name order. */
  method CollectMetas(ps: seq<Parameter>) returns (metas: seq<Meta>)
    ensures metas == MetasOf(ps)
  {
    metas := [];
    for i := 0 to |ps|
      invariant |metas| == i && forall j :: 0 <= j < i ==> metas[j] == Meta(ps[j].data.shape, ps[j].dtype)
    {
      metas := metas + [Meta(ps[i].data.shape, ps[i].dtype)];
    }
  }

  /** Buffers sized by the same list have room for all of it. */
  lemma SizedIsPlaceable(metas: seq<Meta>, buffers: Buffers)
    requires forall i :: 0 <= i < |metas| ==> metas[i].dtype in buffers
    requires forall d | d in buffers :: buffers[d].data.Length == Total(metas, d)
    ensures Placeable(metas, buffers)
  {
    hide Total;
    forall i | 0 <= i < |metas| ensures HasRoom(metas, buffers, i) { WeightFits(metas, i); }
  }

  /** The whole of `MemoryBufferModuleWrapper` on parameters in name order: it cannot fail. */
  method WrapParameters(ps: seq<Parameter>) returns (buffers: Buffers)
    requires Distinct(ps) && forall i :: 0 <= i < |ps| ==> ps[i].data.Fits()
    modifies set p | p in ps :: p`data
    ensures forall d | d in buffers :: fresh(buffers[d].data)
    ensures Placeable(old(MetasOf(ps)), buffers) && Separate(buffers)
    ensures Bound(ps, old(MetasOf(ps)), buffers, old(Originals(ps)), |ps|)
  {
    hide Total, Separate, Wanted, Bound, Placeable, HasRoom;
    ghost var want := Originals(ps);
    var metas := CollectMetas(ps);
    buffers := BuildMemoryBuffer(metas);
    SizedIsPlaceable(metas, buffers);
    assert Ready(ps, buffers);
    WantedIsOriginal(ps, buffers);
    var r := BindParameters(ps, buffers, true);
  }

  ghost function Originals(ps: seq<Parameter>): (want: seq<seq<real>>)
    requires forall i :: 0 <= i < |ps| ==> ps[i].data.Fits()
    reads ps, set p | p in ps :: p.data.storage
  {
    Wanted(ps, map[], true)
  }

  lemma WantedIsOriginal(ps: seq<Parameter>, buffers: Buffers)
    requires forall i :: 0 <= i < |ps| ==> ps[i].data.Fits()
    ensures Wanted(ps, buffers, true) == Originals(ps)
    ensures forall i :: 0 <= i < |ps| ==> Originals(ps)[i] == ps[i].data.Values()
  {
  }

  /** `MemoryBufferModuleWrapper`: every parameter still reads its own values, in its own shape, from an aligned
      place in its dtype's buffer, and no two parameters share an element. */
  method WrapModule(names: seq<string>, params: map<string, Parameter>) returns (buffers: Buffers)
    requires NamesParameters(names, params)
    requires forall n :: n in names ==> params[n].data.Fits()
    modifies set n | n in names :: params[n]`data
    ensures forall d | d in buffers :: fresh(buffers[d].data)
    ensures forall n :: n in names ==> InBuffer(params[n], buffers)
    ensures forall n :: n in names ==> params[n].data.shape == old(params[n].data.shape)
    ensures forall n :: n in names ==> params[n].data.Fits()
    ensures forall n :: n in names ==> params[n].data.Values() == old(params[n].data.Values())
    ensures forall m, n :: m in names && n in names && m != n ==> Apart(params[m].data, params[n].data)
  {
    hide SortedNames, Distinct, Originals, Separate, InBuffer, Apart, HasRoom, Place;
    var sorted := SortedNames(names);
    SortedNamesAgree(names, params);
    var ps := ByName(sorted, params);
    ghost var metas, want := MetasOf(ps), Originals(ps);
    WantedIsOriginal(ps, map[]);
    buffers := WrapParameters(ps);
    forall i | 0 <= i < |ps|
      ensures InBuffer(ps[i], buffers) && ps[i].data.Fits()
      ensures ps[i].data.shape == metas[i].shape && ps[i].data.Values() == want[i]
    {
      assert BoundAt(ps[i], metas, buffers, want[i], i);
      PlaceIsInBuffer(ps[i], metas, buffers, want[i], i);
    }
    forall m, n | m in names && n in names && m != n ensures Apart(params[m].data, params[n].data) {
      var i :| 0 <= i < |ps| && sorted[i] == m;
      var j :| 0 <= j < |ps| && sorted[j] == n;
      BoundAreApart(ps, metas, buffers, want, i, j);
    }
  }

  lemma BoundAreApart(ps: seq<Parameter>, metas: seq<Meta>, buffers: Buffers, want: seq<seq<real>>, i: nat, j: nat)
    requires |ps| == |metas| == |want| && Bound(ps, metas, buffers, want, |ps|) && Separate(buffers)
    requires i < |ps| && j < |ps| && i != j
    ensures Apart(ps[i].data, ps[j].data)
  {
    hide Separate;
    assert BoundAt(ps[i], metas, buffers, want[i], i) && BoundAt(ps[j], metas, buffers, want[j], j);
    if i < j { PlacesAreApart(metas, buffers, i, j); } else { PlacesAreApart(metas, buffers, j, i); }
  }

  lemma PlaceIsInBuffer(p: Parameter, metas: seq<Meta>, buffers: Buffers, want: seq<real>, i: nat)
    requires i < |metas| && BoundAt(p, metas, buffers, want, i) && metas[i].dtype == p.dtype
    ensures InBuffer(p, buffers) && p.data.Fits() && p.data.shape == metas[i].shape && p.data.Values() == want
  {
    hide Align, Total;
    WeightFits(metas, i);
  }
}
