/** Walking over a model's modules and replacing its linear layers. */
module RtnReplace {
  import opened Prelude
  import opened RtnGroup
  import opened RtnRows
  import opened RtnModel

  /** Width and group size the code settles on. */
  datatype Settings = Settings(bits: Bits, groupSize: int)

  function Settle(bits: int, groupSize: int): Result<Settings> {
    if bits == 8 then Ok(Settings(8, -1))
    else if bits == 4 then Ok(Settings(4, if groupSize <= 0 then 128 else groupSize))
    else Failed(ValueError)
  }

  /** `named_modules` yields a module once, under the first name it is met. */
  predicate FirstVisit(children: seq<Child>, i: nat)
    requires i < |children|
  {
    children[i].Original? ==> forall j | 0 <= j < i :: !SameModule(children[j], children[i].id)
  }

  predicate SameModule(child: Child, id: nat) { child.Original? && child.id == id }

  predicate WantsRtn(children: seq<Child>, names: seq<string>, skip: set<string>, i: nat)
    requires i < |children| == |names|
  {
    children[i].layer.Linear? && names[i] !in skip
  }

  predicate Chosen(children: seq<Child>, names: seq<string>, skip: set<string>, i: nat)
    requires i < |children| == |names|
  {
    FirstVisit(children, i) && WantsRtn(children, names, skip, i)
  }

  /** The maximum over no columns is an error. */
  predicate HasMaximum(layer: Layer, s: Settings)
    requires layer.Linear?
  {
    s.groupSize > 0 || layer.inFeatures > 0
  }

  function Quantized(layer: Layer, s: Settings): (r: Layer)
    requires layer.Linear?
    ensures r.QuantizedLinear? && r.bias == layer.bias
  {
    QuantizedLinear(QuantizeRows(layer.weight, s.bits, s.groupSize), s.groupSize, layer.bias)
  }

  function ReplacementFor(children: seq<Child>, names: seq<string>, skip: set<string>, s: Settings, i: nat): Option<Layer>
    requires i < |children| == |names|
  {
    if Chosen(children, names, skip, i) then Some(Quantized(children[i].layer, s)) else None
  }

  function ChildAfter(child: Child, replacement: Option<Layer>): Child {
    if replacement.Some? then Replaced(replacement.value) else child
  }

  ghost function AfterRtn(children: seq<Child>, names: seq<string>, skip: set<string>, s: Settings): (r: seq<Child>)
    requires |children| == |names|
    ensures |r| == |children|
    ensures forall i :: 0 <= i < |children| ==> r[i] == ChildAfter(children[i], ReplacementFor(children, names, skip, s, i))
  {
    seq(|children|, i requires 0 <= i < |children| => ChildAfter(children[i], ReplacementFor(children, names, skip, s, i)))
  }

  ghost predicate AllHaveMaximum(children: seq<Child>, names: seq<string>, skip: set<string>, s: Settings, n: nat)
    requires n <= |children| == |names|
  {
    forall i :: 0 <= i < n && Chosen(children, names, skip, i) ==> HasMaximum(children[i].layer, s)
  }

  /** No layer that is quantised is without input columns. */
  ghost predicate AllHaveColumns(children: seq<Child>, names: seq<string>, skip: set<string>)
    requires |children| == |names|
  {
    forall i :: 0 <= i < |names| && Chosen(children, names, skip, i) ==> children[i].layer.inFeatures > 0
  }

  /** With groups there is always a maximum, and otherwise exactly when there are columns. */
  lemma WhenMaximum(children: seq<Child>, names: seq<string>, skip: set<string>, s: Settings)
    requires |children| == |names|
    ensures s.groupSize > 0 ==> AllHaveMaximum(children, names, skip, s, |names|)
    ensures s.groupSize <= 0 ==> (AllHaveMaximum(children, names, skip, s, |names|) <==> AllHaveColumns(children, names, skip))
  {
    hide FirstVisit;
  }

  /** Modules met so far are remembered by identity. */
  ghost predicate Remembers(memo: set<nat>, children: seq<Child>, n: nat)
    requires n <= |children|
  {
    forall id :: id in memo <==> exists j :: 0 <= j < n && SameModule(children[j], id)
  }

  class Model {
    const names: seq<string>
    var children: seq<Child>

    ghost predicate Valid()
      reads this
    {
      |names| == |children|
    }

    constructor (names: seq<string>, children: seq<Child>)
      requires |names| == |children|
      ensures Valid() && this.names == names && this.children == children
    {
      this.names := names;
      this.children := children;
    }

    /** The first loop of `quantize_model_rtn`: every replacement is made before any is put in place. */
    method Replacements(s: Settings, skip: set<string>) returns (r: Result<seq<Option<Layer>>>)
      requires Valid()
      ensures r.Ok? <==> AllHaveMaximum(children, names, skip, s, |names|)
      ensures r.Failed? ==> r.why == IndexError
      ensures r.Ok? ==> |r.value| == |names|
      ensures r.Ok? ==> forall j :: 0 <= j < |names| ==> r.value[j] == ReplacementFor(children, names, skip, s, j)
    {
      hide Quantized;
      var made: seq<Option<Layer>> := [];
      var memo: set<nat> := {};
      var i := 0;
      while i < |names|
        invariant 0 <= i <= |names| && |made| == i
        invariant Remembers(memo, children, i)
        invariant AllHaveMaximum(children, names, skip, s, i)
        invariant forall j :: 0 <= j < i ==> made[j] == ReplacementFor(children, names, skip, s, j)
      {
        var child, replacement := children[i], None;
        if !(child.Original? && child.id in memo) {
          assert FirstVisit(children, i);
          if child.layer.Linear? && names[i] !in skip {
            assert Chosen(children, names, skip, i);
            if s.groupSize <= 0 && child.layer.inFeatures == 0 { return Failed(IndexError); }
            replacement := Some(Quantized(child.layer, s));
          }
          if child.Original? { memo := memo + {child.id}; }
        }
        made := made + [replacement];
        i := i + 1;
      }
      return Ok(made);
    }

    /** The second loop: `setattr` on every parent. */
    method Install(replacements: seq<Option<Layer>>)
      requires Valid() && |replacements| == |names|
      modifies `children
      ensures Valid()
      ensures forall k :: 0 <= k < |names| ==> children[k] == ChildAfter(old(children)[k], replacements[k])
    {
      var j := 0;
      while j < |names|
        invariant 0 <= j <= |names| == |children|
        invariant forall k :: 0 <= k < j ==> children[k] == ChildAfter(old(children)[k], replacements[k])
        invariant forall k :: j <= k < |names| ==> children[k] == old(children)[k]
      {
        if replacements[j].Some? {
          children := children[j := Replaced(replacements[j].value)];
        }
        j := j + 1;
      }
    }

    /** `quantize_model_rtn`. */
    method QuantizeModelRtn(bits: int, groupSize: int, skip: set<string>) returns (r: Result<()>)
      requires Valid()
      modifies `children
      ensures Valid()
      ensures bits != 4 && bits != 8 ==> r == Failed(ValueError)
      ensures bits == 4 ==> r.Ok?
      ensures bits == 8 ==> r == if AllHaveColumns(old(children), names, skip) then Ok(()) else Failed(IndexError)
      ensures r.Failed? ==> children == old(children)
      ensures r.Ok? && bits == 8 ==> children == AfterRtn(old(children), names, skip, Settings(8, -1))
      ensures r.Ok? && bits == 4 ==>
        children == AfterRtn(old(children), names, skip, Settings(4, if groupSize >= 1 then groupSize else 128))
    {
      hide ReplacementFor, AllHaveMaximum, AllHaveColumns;
      if bits == 4 || bits == 8 { WhenMaximum(children, names, skip, Settle(bits, groupSize).value); }
      var s :- Settle(bits, groupSize);
      var replacements :- Replacements(s, skip);
      Install(replacements);
      return Ok(());
    }
  }

  // ---------------------------------------------------------------- what a run achieves

  ghost predicate NothingLeft(children: seq<Child>, names: seq<string>, skip: set<string>)
    requires |children| == |names|
  {
    forall i :: 0 <= i < |children| ==> !WantsRtn(children, names, skip, i)
  }

  /** All linear layers are replaced exactly when none of them is reached a second time under a name of its own. */
  lemma EveryLinearReplaced(children: seq<Child>, names: seq<string>, skip: set<string>, s: Settings)
    requires |children| == |names|
    ensures NothingLeft(AfterRtn(children, names, skip, s), names, skip) <==>
      forall i :: 0 <= i < |children| && WantsRtn(children, names, skip, i) ==> FirstVisit(children, i)
  {
    hide FirstVisit, Quantized;
    var after := AfterRtn(children, names, skip, s);
    forall i | 0 <= i < |children|
      ensures WantsRtn(after, names, skip, i) <==> WantsRtn(children, names, skip, i) && !FirstVisit(children, i)
    {
    }
  }

  /** Then running it again changes nothing, at any width. */
  lemma SecondRunIsIdle(children: seq<Child>, names: seq<string>, skip: set<string>, s: Settings, t: Settings)
    requires |children| == |names|
    requires forall i :: 0 <= i < |children| && WantsRtn(children, names, skip, i) ==> FirstVisit(children, i)
    ensures AfterRtn(AfterRtn(children, names, skip, s), names, skip, t) == AfterRtn(children, names, skip, s)
  {
    hide FirstVisit, WantsRtn, Quantized;
    EveryLinearReplaced(children, names, skip, s);
    var after := AfterRtn(children, names, skip, s);
    forall i | 0 <= i < |after| ensures ChildAfter(after[i], ReplacementFor(after, names, skip, t, i)) == after[i] {}
  }

  /** A layer held by two attributes is replaced under the first name only. */
  lemma SharedLayerIsMissed(layer: Layer, first: string, second: string, s: Settings)
    requires layer.Linear?
    ensures var shared := Original(0, layer);
      AfterRtn([shared, shared], [first, second], {}, s) == [Replaced(Quantized(layer, s)), shared]
  {
    hide Quantized;
    var two, names := [Original(0, layer), Original(0, layer)], [first, second];
    assert SameModule(two[0], two[1].id);
    assert !FirstVisit(two, 1) && FirstVisit(two, 0);
    assert AfterRtn(two, names, {}, s) ==
      [ChildAfter(two[0], ReplacementFor(two, names, {}, s, 0)), ChildAfter(two[1], ReplacementFor(two, names, {}, s, 1))];
  }

  /** Whatever it is given, a replaced layer's output is off by at most half a scale per unit of input. */
  lemma ReplacedOutputError(children: seq<Child>, names: seq<string>, skip: set<string>, s: Settings,
                            i: nat, r: nat, x: seq<real>)
    requires i < |children| == |names| && Chosen(children, names, skip, i)
    requires r < |children[i].layer.weight| && |x| == |children[i].layer.weight[r]|
    ensures var layer := AfterRtn(children, names, skip, s)[i].layer;
      layer.QuantizedLinear? && |layer.rows| == |children[i].layer.weight|
      && OutputClose(children[i].layer.weight[r], layer.rows[r], s.groupSize, x)
  {
    hide *;
    ChosenIsQuantized(children, names, skip, s, i, r);
    OutputError(children[i].layer.weight[r], s.bits, s.groupSize, x);
  }

  /** Row r of a chosen layer becomes its quantised row. */
  lemma ChosenIsQuantized(children: seq<Child>, names: seq<string>, skip: set<string>, s: Settings, i: nat, r: nat)
    requires i < |children| == |names| && Chosen(children, names, skip, i)
    ensures children[i].layer.Linear?
    ensures r < |children[i].layer.weight| ==>
      var layer := AfterRtn(children, names, skip, s)[i].layer;
      layer.QuantizedLinear? && |layer.rows| == |children[i].layer.weight|
      && layer.rows[r] == QuantizeRow(children[i].layer.weight[r], s.bits, s.groupSize)
  {
    hide FirstVisit, QuantizeRow;
  }
}
