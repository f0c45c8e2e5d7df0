/** The offload handler as a value: its fields, and what each of its operations does to them. */
module OffloadState {
  import opened Sequences
  import opened Prelude
  import opened OffloadWindow

  /** Identity of a storage: data address plus offset, and dtype. */
  datatype Key = Key(address: int, dtype: string)

  /** A device tensor: the storage it views, the elements in order, and the shape. */
  datatype Tensor = Tensor(key: Key, flat: seq<real>, shape: seq<nat>) {
    /** A view has as many elements as its shape says. */
    predicate WellFormed() { |flat| == Numel(shape) }

    predicate SameContents(other: Tensor) { flat == other.flat && shape == other.shape }
  }

  /** The identifier a saved tensor is retrieved by. */
  datatype Tag = Tag(group: int, index: int)

  /** What is stored under a tag: the tensor itself, or the tuple that points at a host copy. */
  datatype Slot = OnDevice(tensor: Tensor) | OnHost(key: Key, shape: seq<nat>)

  /** What autograd keeps: a tag, or the tensor itself when it is not managed. */
  datatype Handle = Tagged(tag: Tag) | Direct(tensor: Tensor)

  datatype Stream = Compute | D2H | H2D

  /** What the handler makes the three device streams do, in program order.
      A copy entry stands for a whole (non-empty) batch of copies of one group. */
  datatype StreamOp =
    | Produce(group: int)                  // compute stream: a tensor of the group is computed
    | Use(group: int)                      // compute stream: a tensor of the group is handed back
    | Wait(waiter: Stream, on: Stream)
    | CopyOut(group: int)                  // d2h stream
    | Drop(group: int)                     // the device buffers of the group become reusable
    | CopyIn(group: int)                   // h2d stream

  type HostCopies = map<Key, seq<real>>

  /** The fields.  `order` is the insertion order of the dictionary `slots`; `log` is history. */
  datatype State = State(
    currentGroup: int,
    tensorCount: nat,
    order: seq<Tag>,
    slots: map<Tag, Slot>,
    bufs: map<Tag, Option<Tensor>>,
    offloaded: int,
    copies: map<int, HostCopies>,
    log: seq<StreamOp>)

  const INITIAL := State(0, 0, [], map[], map[], 0, map[], [])

  /** What the constructor fixes: its two arguments and the schedule built from them. */
  datatype Config = Config(layers: nat, groups: nat, windows: map<int, int>)

  function MakeConfig(layers: nat, groups: nat): Config {
    Config(layers, groups, map j | 0 <= j < groups :: Window(layers, groups, j))
  }

  // ---------------------------------------------------------------- push and pop

  /** `eligible`: a real tensor that the checker wants offloaded. */
  function Push(cfg: Config, s: State, t: Tensor, eligible: bool): Result<(State, Handle)> {
    if !eligible then Ok((s, Direct(t))) else
    var tag := Tag(s.currentGroup, s.tensorCount);
    if tag in s.slots then Failed(AssertionError) else
    Ok((s.(tensorCount := s.tensorCount + 1,
           order := s.order + [tag],
           slots := s.slots[tag := OnDevice(t)],
           bufs := if s.currentGroup < cfg.groups then s.bufs[tag := Some(t)] else s.bufs,
           log := s.log + [Produce(s.currentGroup)]),
        Tagged(tag)))
  }

  /** A dictionary's key order without one key. */
  function Without(order: seq<Tag>, tag: Tag): seq<Tag> {
    if order == [] then [] else
    if order[0] == tag then order[1..] else [order[0]] + Without(order[1..], tag)
  }

  /** Removing a key leaves the other keys, each once. */
  lemma {:induction false} WithoutElements(order: seq<Tag>, tag: Tag)
    requires forall i, j :: 0 <= i < j < |order| ==> order[i] != order[j]
    ensures forall x :: x in Without(order, tag) <==> x in order && x != tag
    ensures forall i, j :: 0 <= i < j < |Without(order, tag)| ==> Without(order, tag)[i] != Without(order, tag)[j]
  {
    if order != [] {
      var rest := order[1..];
      assert order == [order[0]] + rest;
      if order[0] != tag {
        WithoutElements(rest, tag);
        assert order[0] !in Without(rest, tag);
        assert Without(order, tag) == [order[0]] + Without(rest, tag);
      } else {
        assert tag !in rest;
      }
    }
  }

  function Pop(s: State, handle: Handle): Result<(State, Tensor)> {
    match handle
    case Direct(t) => Ok((s, t))
    case Tagged(tag) =>
      if tag !in s.slots || s.slots[tag].OnHost? then Failed(AssertionError) else
      Ok((s.(order := Without(s.order, tag), slots := s.slots - {tag}, bufs := s.bufs - {tag},
             log := s.log + [Use(tag.group)]),
          s.slots[tag].tensor))
  }

  /** A tensor the handler does not manage passes through it: whatever the state is when it is handed back. */
  lemma UnmanagedPassesThrough(cfg: Config, s: State, s': State, t: Tensor)
    ensures var r := Push(cfg, s, t, false); r.Ok? && r.value.0 == s && Pop(s', r.value.1) == Ok((s', t))
  {
  }

  // ---------------------------------------------------------------- moving a group

  /** The host copies made for group g: per storage key, the contents of the first tensor met. */
  function CopiesOf(order: seq<Tag>, slots: map<Tag, Slot>, g: int): HostCopies {
    if order == [] then map[] else
    var rest := CopiesOf(order[..|order| - 1], slots, g);
    var tag := order[|order| - 1];
    if tag.group == g && tag in slots && slots[tag].OnDevice? && slots[tag].tensor.key !in rest
    then rest[slots[tag].tensor.key := slots[tag].tensor.flat]
    else rest
  }

  lemma CopiesOfNothing(order: seq<Tag>, slots: map<Tag, Slot>, g: int)
    requires order == []
    ensures CopiesOf(order, slots, g) == map[]
  {
  }

  lemma CopiesOfOneMore(order: seq<Tag>, slots: map<Tag, Slot>, g: int, i: nat)
    requires i < |order|
    ensures var rest := CopiesOf(order[..i], slots, g);
      CopiesOf(order[..i + 1], slots, g) ==
        if order[i].group == g && order[i] in slots && slots[order[i]].OnDevice? && slots[order[i]].tensor.key !in rest
        then rest[slots[order[i]].tensor.key := slots[order[i]].tensor.flat] else rest
  {
    assert order[..i + 1][..i] == order[..i];
  }

  /** A tensor's slot after its group went to the host. */
  function Evicted(tag: Tag, slot: Slot, g: int): Slot {
    if tag.group == g && slot.OnDevice? then OnHost(slot.tensor.key, slot.tensor.shape) else slot
  }

  /** Some slot of the group already is a host tuple, which the handler asserts against. */
  predicate HasHostTuple(slots: map<Tag, Slot>, g: int) {
    exists tag :: tag in slots && tag.group == g && slots[tag].OnHost?
  }

  function BulkOffload(s: State, g: int): Result<State> {
    if HasHostTuple(s.slots, g) then Failed(AssertionError) else
    var made := CopiesOf(s.order, s.slots, g);
    Ok(s.(slots := map tag | tag in s.slots :: Evicted(tag, s.slots[tag], g),
          copies := s.copies[g := made],
          log := if made == map[] then s.log else s.log + [CopyOut(g)]))
  }

  /** A slot whose host copy exists and fits the recorded shape (else the lookup or the view raises). */
  predicate Reloadable(slot: Slot, made: HostCopies) {
    slot.OnHost? ==> slot.key in made && |made[slot.key]| == Numel(slot.shape)
  }

  /** A tensor's slot after its group came back.  (The storage is new; nothing reads its key again.) */
  function Restored(tag: Tag, slot: Slot, g: int, made: HostCopies): Slot {
    if tag.group == g && slot.OnHost? && slot.key in made
    then OnDevice(Tensor(slot.key, made[slot.key], slot.shape)) else slot
  }

  function BulkReload(cfg: Config, s: State, g: int): Result<State> {
    if g >= cfg.groups then Failed(AssertionError) else
    if g !in s.copies then Failed(KeyError) else
    var made := s.copies[g];
    if exists tag :: tag in s.slots && tag.group == g && !Reloadable(s.slots[tag], made) then Failed(ReloadError) else
    Ok(s.(slots := map tag | tag in s.slots :: Restored(tag, s.slots[tag], g, made),
          copies := s.copies - {g},
          log := if made == map[] then s.log else s.log + [CopyIn(g)]))
  }

  // ---------------------------------------------------------------- commits

  function Freed(bufs: map<Tag, Option<Tensor>>, g: int): map<Tag, Option<Tensor>> {
    map tag | tag in bufs :: if tag.group == g then None else bufs[tag]
  }

  /** The synchronisation of a forward commit: the first commit starts the first transfer. */
  function SynchronizeForward(cfg: Config, s: State): Result<State> {
    var kick :- if s.currentGroup == 0 then BulkOffload(s.(log := s.log + [Wait(D2H, Compute)]), 0) else Ok(s);
    CloseWindow(cfg, kick)
  }

  function CommitForward(cfg: Config, s: State): Result<State> {
    var next :- SynchronizeForward(cfg, s);
    Ok(next.(currentGroup := next.currentGroup + 1, tensorCount := 0))
  }

  /** The window test of a forward commit: free a group that has left, send the next one. */
  function CloseWindow(cfg: Config, s: State): Result<State> {
    if s.offloaded !in cfg.windows then Failed(KeyError) else
    if cfg.windows[s.offloaded] != s.currentGroup then Ok(s) else
    var freed := s.(bufs := Freed(s.bufs, s.offloaded),
                    log := s.log + [Wait(D2H, Compute), Wait(Compute, D2H), Drop(s.offloaded)]);
    var sent :- if s.offloaded < cfg.groups - 1 then BulkOffload(freed, s.offloaded + 1) else Ok(freed);
    Ok(sent.(offloaded := sent.offloaded + 1))
  }

  function CommitBackward(cfg: Config, s: State): Result<State> {
    var here := s.(currentGroup := s.currentGroup - 1);
    if here.currentGroup < 0 then Failed(AssertionError) else
    if here.offloaded - 1 !in cfg.windows then Failed(KeyError) else
    var next :- if cfg.windows[here.offloaded - 1] == here.currentGroup
                then FetchNext(cfg, here) else Ok(here);
    Ok(if next.currentGroup == 0
       then next.(offloaded := 0, log := next.log + [Wait(Compute, H2D)]) else next)
  }

  /** The window test of a backward commit succeeded: bring the next group back. */
  function FetchNext(cfg: Config, s: State): Result<State> {
    var fetched :- BulkReload(cfg, s.(log := s.log + [Wait(H2D, Compute), Wait(Compute, H2D)]), s.offloaded - 1);
    Ok(fetched.(offloaded := if s.offloaded > 1 then s.offloaded - 1 else s.offloaded))
  }
}
