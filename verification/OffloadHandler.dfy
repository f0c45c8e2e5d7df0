/** The offload handler itself: an object whose fields every event updates in place. */
module OffloadHandler {
  import opened Sequences
  import opened Prelude
  import opened OffloadWindow
  import opened OffloadState

  // ---------------------------------------------------------------- walking over the dictionary

  /** The first i tags of the dictionary's order hold their new slots, the others still the old ones. */
  ghost predicate ReplacedUpTo(order: seq<Tag>, slots0: map<Tag, Slot>, slots: map<Tag, Slot>,
                               after: (Tag, Slot) -> Slot, i: nat)
  {
    slots.Keys == slots0.Keys && i <= |order| && forall k :: 0 <= k < |order| ==>
      order[k] in slots0 && slots[order[k]] == if k < i then after(order[k], slots0[order[k]]) else slots0[order[k]]
  }

  lemma NothingReplaced(order: seq<Tag>, slots: map<Tag, Slot>, after: (Tag, Slot) -> Slot)
    requires forall tag :: tag in order <==> tag in slots
    ensures ReplacedUpTo(order, slots, slots, after, 0)
  {
  }

  lemma ReplaceOneMore(order: seq<Tag>, slots0: map<Tag, Slot>, slots: map<Tag, Slot>, after: (Tag, Slot) -> Slot, i: nat)
    requires ReplacedUpTo(order, slots0, slots, after, i) && i < |order|
    requires forall a, b :: 0 <= a < b < |order| ==> order[a] != order[b]
    ensures order[i] in slots0 && order[i] in slots && slots[order[i]] == slots0[order[i]]
    ensures ReplacedUpTo(order, slots0, slots[order[i] := after(order[i], slots0[order[i]])], after, i + 1)
    ensures after(order[i], slots0[order[i]]) == slots0[order[i]] ==> ReplacedUpTo(order, slots0, slots, after, i + 1)
  {
  }

  lemma AllReplaced(order: seq<Tag>, slots0: map<Tag, Slot>, slots: map<Tag, Slot>, after: (Tag, Slot) -> Slot)
    requires ReplacedUpTo(order, slots0, slots, after, |order|)
    requires forall tag :: tag in order <==> tag in slots0
    ensures slots == map tag | tag in slots0 :: after(tag, slots0[tag])
  {
  }

  /** The tensors collected from the first i tags are those whose contents will be copied. */
  ghost predicate Collected(order: seq<Tag>, slots: map<Tag, Slot>, g: int, mapping: map<Key, Tensor>, i: nat) {
    i <= |order| && mapping.Keys == CopiesOf(order[..i], slots, g).Keys
    && forall key :: key in mapping ==> mapping[key].flat == CopiesOf(order[..i], slots, g)[key]
  }

  lemma NothingCollected(order: seq<Tag>, slots: map<Tag, Slot>, g: int)
    ensures Collected(order, slots, g, map[], 0)
  {
    CopiesOfNothing(order[..0], slots, g);
  }

  lemma CollectOneMore(order: seq<Tag>, slots: map<Tag, Slot>, g: int, mapping: map<Key, Tensor>, i: nat)
    requires Collected(order, slots, g, mapping, i) && i < |order| && order[i] in slots
    ensures var slot := slots[order[i]];
      if order[i].group == g && slot.OnDevice? && slot.tensor.key !in mapping
      then Collected(order, slots, g, mapping[slot.tensor.key := slot.tensor], i + 1)
      else Collected(order, slots, g, mapping, i + 1)
  {
    hide CopiesOf;
    CopiesOfOneMore(order, slots, g, i);
  }

  lemma AllCollected(order: seq<Tag>, slots: map<Tag, Slot>, g: int, mapping: map<Key, Tensor>)
    requires Collected(order, slots, g, mapping, |order|)
    ensures mapping.Keys == CopiesOf(order, slots, g).Keys
    ensures forall key :: key in mapping ==> mapping[key].flat == CopiesOf(order, slots, g)[key]
  {
    assert order[..|order|] == order;
  }

  // ---------------------------------------------------------------- the object

  class AsyncDoubleBufferGroupOffloadHandler {
    const layers: nat
    const groups: nat
    var windows: map<int, int>
    var currentGroup: int
    var tensorCount: nat
    var order: seq<Tag>
    var slots: map<Tag, Slot>
    var bufs: map<Tag, Option<Tensor>>
    var offloaded: int
    var copies: map<int, HostCopies>
    ghost var log: seq<StreamOp>

    ghost function Cfg(): Config
      reads this
    {
      Config(layers, groups, windows)
    }

    ghost function Value(): State
      reads this
    {
      State(currentGroup, tensorCount, order, slots, bufs, offloaded, copies, log)
    }

    ghost predicate Valid()
      reads this
    {
      Cfg() == MakeConfig(layers, groups) &&
      (forall tag :: tag in order <==> tag in slots) &&
      forall i, j :: 0 <= i < j < |order| ==> order[i] != order[j]
    }

    constructor (layers: nat, groups: nat)
      ensures Valid() && this.layers == layers && this.groups == groups && Value() == INITIAL
    {
      this.layers, this.groups := layers, groups;
      currentGroup, tensorCount, offloaded := 0, 0, 0;
      order, slots, bufs, copies, log := [], map[], map[], map[], [];
      new;
      windows := BuildWindowMap(layers, groups);
      assert windows == MakeConfig(layers, groups).windows;
    }

    method TensorPush(t: Tensor, eligible: bool) returns (r: Result<Handle>)
      requires Valid()
      modifies this
      ensures match Push(old(Cfg()), old(Value()), t, eligible)
        case Ok((s, handle)) => r == Ok(handle) && Value() == s && Valid() && Cfg() == old(Cfg())
        case Failed(why) => r == Failed(why)
      ensures !eligible ==> r == Ok(Direct(t))
      ensures eligible && Tag(old(currentGroup), old(tensorCount)) in old(slots) ==> r == Failed(AssertionError)
    {
      if eligible {
        var tag := Tag(currentGroup, tensorCount);
        tensorCount := tensorCount + 1;
        if tag in slots { return Failed(AssertionError); }
        order := order + [tag];
        slots := slots[tag := OnDevice(t)];
        if currentGroup < groups {
          bufs := bufs[tag := Some(t)];
        }
        log := log + [Produce(currentGroup)];
        r := Ok(Tagged(tag));
      } else {
        r := Ok(Direct(t));
      }
    }

    method TensorPop(handle: Handle) returns (r: Result<Tensor>)
      requires Valid()
      modifies this
      ensures match Pop(old(Value()), handle)
        case Ok((s, t)) => r == Ok(t) && Value() == s && Valid() && Cfg() == old(Cfg())
        case Failed(why) => r == Failed(why)
      ensures handle.Direct? ==> r == Ok(handle.tensor)
      ensures handle.Tagged? && (handle.tag !in old(slots) || old(slots)[handle.tag].OnHost?) ==> r == Failed(AssertionError)
    {
      match handle
      case Direct(t) => r := Ok(t);
      case Tagged(tag) =>
        if tag !in slots { return Failed(AssertionError); }
        var slot := slots[tag];
        WithoutElements(order, tag);
        order := Without(order, tag);
        slots := slots - {tag};
        bufs := bufs - {tag};
        log := log + [Use(tag.group)];
        if slot.OnHost? { return Failed(AssertionError); }
        r := Ok(slot.tensor);
    }

    /** The first loop of a bulk offload: collect one tensor per storage, leave host tuples behind. */
    method EvictGroup(g: int) returns (r: Result<map<Key, Tensor>>)
      requires forall tag :: tag in order <==> tag in slots
      requires forall i, j :: 0 <= i < j < |order| ==> order[i] != order[j]
      modifies this`slots
      ensures HasHostTuple(old(slots), g) ==> r == Failed(AssertionError)
      ensures !HasHostTuple(old(slots), g) ==>
        r.Ok? && slots == (map tag | tag in old(slots) :: Evicted(tag, old(slots)[tag], g)) &&
        r.value.Keys == CopiesOf(order, old(slots), g).Keys &&
        forall key :: key in r.value ==> r.value[key].flat == CopiesOf(order, old(slots), g)[key]
    {
      hide CopiesOf, ReplacedUpTo, Collected;
      ghost var slots0, after := slots, (tag: Tag, slot: Slot) => Evicted(tag, slot, g);
      var mapping: map<Key, Tensor> := map[];
      NothingReplaced(order, slots0, after);
      NothingCollected(order, slots0, g);
      for i := 0 to |order|
        invariant ReplacedUpTo(order, slots0, slots, after, i)
        invariant forall k :: 0 <= k < i && order[k].group == g ==> order[k] in slots0 && slots0[order[k]].OnDevice?
        invariant Collected(order, slots0, g, mapping, i)
      {
        var tag := order[i];
        ReplaceOneMore(order, slots0, slots, after, i);
        CollectOneMore(order, slots0, g, mapping, i);
        if tag.group == g {
          if slots[tag].OnHost? { return Failed(AssertionError); }
          var state := slots[tag].tensor;
          if state.key !in mapping {
            mapping := mapping[state.key := state];
          }
          slots := slots[tag := OnHost(state.key, state.shape)];
        }
      }
      AllReplaced(order, slots0, slots, after);
      AllCollected(order, slots0, g, mapping);
      r := Ok(mapping);
    }

    method CopyToHost(mapping: map<Key, Tensor>) returns (made: HostCopies)
      ensures made.Keys == mapping.Keys
      ensures forall key :: key in mapping ==> made[key] == mapping[key].flat
    {
      made := map[];
      var todo: set<Key> := mapping.Keys;
      while todo != {}
        invariant todo <= mapping.Keys && made.Keys == mapping.Keys - todo
        invariant forall key :: key in made ==> made[key] == mapping[key].flat
      {
        var key: Key :| key in todo;
        made := made[key := mapping[key].flat];
        todo := todo - {key};
      }
    }

    method BulkOffloadGroup(g: int) returns (r: Result<()>)
      requires Valid()
      modifies this
      ensures match BulkOffload(old(Value()), g)
        case Ok(s) => r == Ok(()) && Value() == s && Valid() && Cfg() == old(Cfg())
        case Failed(why) => r == Failed(why)
      ensures HasHostTuple(old(slots), g) ==> r == Failed(AssertionError)
    {
      var evicted := EvictGroup(g);
      if evicted.Failed? { return Failed(evicted.why); }
      var made := CopyToHost(evicted.value);
      assert made == CopiesOf(order, old(slots), g);
      copies := copies[g := made];
      log := if made == map[] then log else log + [CopyOut(g)];
      r := Ok(());
    }

    /** The loop that lets go of a group's device buffers. */
    method FreeBuffers(g: int)
      modifies this`bufs
      ensures bufs == Freed(old(bufs), g)
    {
      ghost var kept := bufs;
      var todo := bufs.Keys;
      while todo != {}
        invariant todo <= kept.Keys && bufs.Keys == kept.Keys
        invariant forall tag :: tag in kept ==>
          bufs[tag] == if tag.group == g && tag !in todo then None else kept[tag]
      {
        var tag :| tag in todo;
        todo := todo - {tag};
        if tag.group == g {
          bufs := bufs[tag := None];
        }
      }
    }

    method SynchronizeOnGroupCommitForward() returns (r: Result<()>)
      requires Valid()
      modifies this
      ensures match SynchronizeForward(old(Cfg()), old(Value()))
        case Ok(s) => r == Ok(()) && Value() == s && Valid() && Cfg() == old(Cfg())
        case Failed(why) => r == Failed(why)
    {
      hide CopiesOf, Evicted;
      if currentGroup == 0 {
        log := log + [Wait(D2H, Compute)];
        r := BulkOffloadGroup(currentGroup);
        if r.Failed? { return; }
      }
      r := CloseWindowStep();
    }

    /** The second half of the synchronisation, once the first transfer has been started. */
    method CloseWindowStep() returns (r: Result<()>)
      requires Valid()
      modifies this
      ensures match CloseWindow(old(Cfg()), old(Value()))
        case Ok(s) => r == Ok(()) && Value() == s && Valid() && Cfg() == old(Cfg())
        case Failed(why) => r == Failed(why)
      ensures old(offloaded) !in old(windows) ==> r == Failed(KeyError)
    {
      hide CopiesOf, Evicted, Freed;
      r := Ok(());
      if offloaded !in windows { return Failed(KeyError); }
      if windows[offloaded] == currentGroup {
        FreeBuffers(offloaded);
        log := log + [Wait(D2H, Compute), Wait(Compute, D2H), Drop(offloaded)];
        if offloaded < groups - 1 {
          r := BulkOffloadGroup(offloaded + 1);
          if r.Failed? { return; }
        }
        offloaded := offloaded + 1;
      }
    }

    method OnGroupCommitForward() returns (r: Result<()>)
      requires Valid()
      modifies this
      ensures match CommitForward(old(Cfg()), old(Value()))
        case Ok(s) => r == Ok(()) && Value() == s && Valid() && Cfg() == old(Cfg())
        case Failed(why) => r == Failed(why)
    {
      hide SynchronizeForward;
      r := SynchronizeOnGroupCommitForward();
      if r.Ok? {
        currentGroup := currentGroup + 1;
        tensorCount := 0;
      }
    }

    /** The loop of a bulk reload over the group's host tuples. */
    method RestoreGroup(g: int, mapping: HostCopies) returns (r: Result<()>)
      requires forall tag :: tag in order <==> tag in slots
      requires forall i, j :: 0 <= i < j < |order| ==> order[i] != order[j]
      modifies this`slots
      ensures (exists tag :: tag in old(slots) && tag.group == g && !Reloadable(old(slots)[tag], mapping)) ==>
        r == Failed(ReloadError)
      ensures !(exists tag :: tag in old(slots) && tag.group == g && !Reloadable(old(slots)[tag], mapping)) ==>
        r == Ok(()) && slots == map tag | tag in old(slots) :: Restored(tag, old(slots)[tag], g, mapping)
    {
      hide ReplacedUpTo, Numel;
      ghost var slots0, after := slots, (tag: Tag, slot: Slot) => Restored(tag, slot, g, mapping);
      NothingReplaced(order, slots0, after);
      for i := 0 to |order|
        invariant ReplacedUpTo(order, slots0, slots, after, i)
        invariant forall k :: 0 <= k < i && order[k].group == g ==> order[k] in slots0 && Reloadable(slots0[order[k]], mapping)
      {
        var tag := order[i];
        ReplaceOneMore(order, slots0, slots, after, i);
        if tag.group == g && slots[tag].OnHost? {
          var key, shape := slots[tag].key, slots[tag].shape;
          if key !in mapping || |mapping[key]| != Numel(shape) { return Failed(ReloadError); }
          slots := slots[tag := OnDevice(Tensor(key, mapping[key], shape))];
        }
      }
      AllReplaced(order, slots0, slots, after);
      r := Ok(());
    }

    method BulkReloadGroup(g: int) returns (r: Result<()>)
      requires Valid()
      modifies this
      ensures match BulkReload(old(Cfg()), old(Value()), g)
        case Ok(s) => r == Ok(()) && Value() == s && Valid() && Cfg() == old(Cfg())
        case Failed(why) => r == Failed(why)
      ensures g >= groups ==> r == Failed(AssertionError)
      ensures g < groups && g !in old(copies) ==> r == Failed(KeyError)
      ensures g < groups && g in old(copies) && r.Failed? ==> r == Failed(ReloadError)
    {
      hide Restored, Reloadable;
      if g >= groups { return Failed(AssertionError); }
      if g !in copies { return Failed(KeyError); }
      var mapping := copies[g];
      copies := copies - {g};
      log := if mapping == map[] then log else log + [CopyIn(g)];
      r := RestoreGroup(g, mapping);
    }

    /** What a backward commit does when its window opens: bring the next group back. */
    method FetchNextGroup() returns (r: Result<()>)
      requires Valid()
      modifies this
      ensures match FetchNext(old(Cfg()), old(Value()))
        case Ok(s) => r == Ok(()) && Value() == s && Valid() && Cfg() == old(Cfg())
        case Failed(why) => r == Failed(why)
    {
      hide Restored, Reloadable, MakeConfig;
      log := log + [Wait(H2D, Compute), Wait(Compute, H2D)];
      r := BulkReloadGroup(offloaded - 1);
      if r.Ok? { offloaded := offloaded - if offloaded > 1 then 1 else 0; }
    }

    method OnGroupCommitBackward() returns (r: Result<()>)
      requires Valid()
      modifies this
      ensures match CommitBackward(old(Cfg()), old(Value()))
        case Ok(s) => r == Ok(()) && Value() == s && Valid() && Cfg() == old(Cfg())
        case Failed(why) => r == Failed(why)
      ensures old(currentGroup) <= 0 ==> r == Failed(AssertionError)
      ensures old(currentGroup) > 0 && old(offloaded) - 1 !in old(windows) ==> r == Failed(KeyError)
    {
      hide FetchNext, MakeConfig;
      currentGroup := currentGroup - 1;
      if currentGroup < 0 { return Failed(AssertionError); }
      if offloaded - 1 !in windows { return Failed(KeyError); }
      if windows[offloaded - 1] == currentGroup {
        r := FetchNextGroup();
        if r.Failed? { return; }
      }
      if currentGroup == 0 {
        log := log + [Wait(Compute, H2D)];
        offloaded := 0;
      }
      r := Ok(());
    }
  }
}
