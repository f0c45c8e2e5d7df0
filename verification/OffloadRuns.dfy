/** Whole runs of the offload handler under the event order that autograd imposes:
    in the forward pass pushes and one commit per layer, in the backward pass one commit per layer,
    in reverse, and a tensor handed back at any time after its own group's backward commit. */
module OffloadRuns {
  import opened Prelude
  import opened OffloadWindow
  import opened OffloadState

  datatype Event = PushTensor(t: Tensor, managed: bool) | ForwardCommit | BackwardCommit | PopHandle(handle: Handle) | NextPass

  /** What each storage of each group holds. */
  type Stores = map<(int, Key), seq<real>>

  /** The handler, the direction of the pass, what was pushed under each outstanding tag and each handle of an
      unmanaged tensor, and what each storage of each group held when it was pushed in this pass. */
  datatype World = World(s: State, forward: bool, saved: map<Tag, Tensor>, direct: map<Handle, Tensor>, stores: Stores)

  const START := World(INITIAL, true, map[], map[], map[])

  /** The handle is outstanding, and what was pushed for it. */
  ghost predicate Outstanding(w: World, handle: Handle) {
    match handle
    case Tagged(tag) => tag in w.saved
    case Direct(_) => handle in w.direct
  }

  ghost function Pushed(w: World, handle: Handle): Tensor
    requires Outstanding(w, handle)
  {
    match handle
    case Tagged(tag) => w.saved[tag]
    case Direct(_) => w.direct[handle]
  }

  /** What the runs rely on about the schedule. */
  ghost predicate ValidConfig(cfg: Config) {
    1 <= cfg.groups <= cfg.layers &&
    (forall j :: j in cfg.windows <==> 0 <= j < cfg.groups) &&
    (forall i, j :: 0 <= i < j < cfg.groups ==> cfg.windows[i] < cfg.windows[j]) &&
    cfg.windows[cfg.groups - 1] == cfg.layers - 1 &&
    (forall j :: 0 <= j < cfg.groups ==>
       if cfg.groups < cfg.layers then cfg.windows[j] >= j + 1 else cfg.windows[j] == j)
  }

  /** The schedule the constructor builds has these properties. */
  lemma BuiltScheduleIsValid(layers: nat, groups: nat)
    requires 1 <= groups <= layers
    ensures ValidConfig(MakeConfig(layers, groups))
  {
    WindowEndsAtLastLayer(layers, groups);
    forall i, j | 0 <= i < j < groups ensures Window(layers, groups, i) < Window(layers, groups, j) {
      WindowIncreasing(layers, groups, i, j);
    }
    forall j | 0 <= j < groups
      ensures if groups < layers then Window(layers, groups, j) >= j + 1 else Window(layers, groups, j) == j
    {
      WindowNotEarly(layers, groups, j);
    }
  }

  /** The tensor has the shape it claims, and a storage that another tensor of the group already
      has is seen with the same contents. */
  ghost predicate Pushable(w: World, t: Tensor) {
    t.WellFormed() &&
    ((w.s.currentGroup, t.key) in w.stores ==> w.stores[(w.s.currentGroup, t.key)] == t.flat)
  }

  ghost predicate Enabled(cfg: Config, w: World, e: Event) {
    match e
    case PushTensor(t, managed) => w.forward && w.s.currentGroup < cfg.layers && (managed ==> Pushable(w, t))
    case ForwardCommit => w.forward && w.s.currentGroup < cfg.layers
    case BackwardCommit => !w.forward && w.s.currentGroup > 0
    case PopHandle(handle) =>
      !w.forward && Outstanding(w, handle) && (handle.Tagged? ==> handle.tag.group >= w.s.currentGroup)
    case NextPass => !w.forward && w.s.currentGroup == 0 && w.saved == map[]
  }

  ghost function Step(cfg: Config, w: World, e: Event): Result<World> {
    match e
    case PushTensor(t, managed) =>
      var (s, handle) :- Push(cfg, w.s, t, managed);
      Ok(match handle
         case Direct(_) => w.(s := s, direct := w.direct[handle := t])
         case Tagged(tag) =>
           w.(s := s, saved := w.saved[tag := t], stores := w.stores[(w.s.currentGroup, t.key) := t.flat]))
    case ForwardCommit =>
      var s :- CommitForward(cfg, w.s);
      Ok(w.(s := s, forward := s.currentGroup < cfg.layers))
    case BackwardCommit =>
      var s :- CommitBackward(cfg, w.s);
      Ok(w.(s := s))
    case PopHandle(handle) =>
      var (s, _) :- Pop(w.s, handle);
      Ok(w.(s := s, saved := if handle.Tagged? then w.saved - {handle.tag} else w.saved))
    case NextPass => Ok(w.(forward := true, direct := map[], stores := map[]))
  }

  /** Running the events, oldest first. */
  ghost function Run(cfg: Config, w: World, events: seq<Event>): Result<World>
    decreases |events|
  {
    if events == [] then Ok(w) else
    var next :- Step(cfg, w, events[0]);
    Run(cfg, next, events[1..])
  }

  /** Each event is allowed in the state it meets (as far as the run gets). */
  ghost predicate Follows(cfg: Config, w: World, events: seq<Event>)
    decreases |events|
  {
    events == [] ||
    (Enabled(cfg, w, events[0]) &&
     (Step(cfg, w, events[0]).Ok? ==> Follows(cfg, Step(cfg, w, events[0]).value, events[1..])))
  }

  // ---------------------------------------------------------------- the invariant

  /** Where the schedule stands after c commits, with o the handler's window counter. */
  ghost predicate Schedule(cfg: Config, forward: bool, c: int, o: int)
    requires ValidConfig(cfg)
  {
    0 <= o <= cfg.groups &&
    if forward then
      0 <= c < cfg.layers && o < cfg.groups && c <= cfg.windows[o] && (o > 0 ==> cfg.windows[o - 1] < c)
    else if c == 0 then o == 0
    else
      0 < c <= cfg.layers && o >= 1 && (cfg.windows[o - 1] < c || o == 1) && (o < cfg.groups ==> c <= cfg.windows[o])
  }

  /** How many leading groups have host copies registered. */
  ghost function Hosted(cfg: Config, forward: bool, c: int, o: int): int
    requires ValidConfig(cfg)
  {
    if forward then if c == 0 then 0 else o + 1
    else if c == 0 || (o == 1 && cfg.windows[0] >= c) then 0 else o
  }

  ghost function HostedIn(cfg: Config, w: World): int
    requires ValidConfig(cfg)
  {
    Hosted(cfg, w.forward, w.s.currentGroup, w.s.offloaded)
  }

  /** The dictionary order lists each key once. */
  ghost predicate OrderOf(order: seq<Tag>, keys: set<Tag>) {
    (forall tag :: tag in order <==> tag in keys) &&
    forall i, j :: 0 <= i < j < |order| ==> order[i] != order[j]
  }

  /** The slot still determines the pushed tensor. */
  ghost predicate Faithful(t: Tensor, slot: Slot, group: int, copies: map<int, HostCopies>) {
    match slot
    case OnDevice(u) => u == t
    case OnHost(key, shape) =>
      key == t.key && shape == t.shape &&
      group in copies && key in copies[group] && copies[group][key] == t.flat
  }

  /** A host tuple is stored exactly for the groups that have left.  (When every group is offloaded,
      only the first one really leaves.) */
  ghost predicate Placed(cfg: Config, hosted: int, tag: Tag, slot: Slot) {
    cfg.groups < cfg.layers || tag.group == 0 ==> (slot.OnHost? <==> tag.group < hosted)
  }

  /** The extra reference keeps the tensor until its group's window closes. */
  ghost predicate Buffered(cfg: Config, freed: int, tag: Tag, t: Tensor, bufs: map<Tag, Option<Tensor>>) {
    (tag in bufs <==> tag.group < cfg.groups) &&
    (tag in bufs ==> bufs[tag] == if tag.group >= freed then Some(t) else None)
  }

  /** An outstanding tensor is a view of what its group's storage held. */
  ghost predicate Stored(tag: Tag, t: Tensor, stores: Stores) {
    (tag.group, t.key) in stores && stores[(tag.group, t.key)] == t.flat
  }

  ghost predicate TagOk(cfg: Config, s: State, t: Tensor, stores: Stores, hosted: int, freed: int, tag: Tag)
    requires tag in s.slots
  {
    t.WellFormed() && Stored(tag, t, stores) &&
    Faithful(t, s.slots[tag], tag.group, s.copies) && Placed(cfg, hosted, tag, s.slots[tag]) &&
    Buffered(cfg, freed, tag, t, s.bufs)
  }

  /** Host copies are registered for the leading groups; when every group is offloaded, all but
      the first were sent before they had any tensor. */
  ghost predicate Registered(cfg: Config, hosted: int, copies: map<int, HostCopies>) {
    (forall g :: g in copies <==> 0 <= g < hosted) &&
    (cfg.groups == cfg.layers ==> forall g :: g in copies && g > 0 ==> copies[g] == map[])
  }

  /** The dictionaries, when `hosted` groups have host copies and `freed` groups have lost their buffers. */
  ghost predicate HandlerOk(cfg: Config, s: State, saved: map<Tag, Tensor>, stores: Stores, hosted: int, freed: int) {
    s.slots.Keys == saved.Keys && s.bufs.Keys <= saved.Keys && OrderOf(s.order, saved.Keys) &&
    Registered(cfg, hosted, s.copies) &&
    forall tag :: tag in saved ==> tag in s.slots && TagOk(cfg, s, saved[tag], stores, hosted, freed, tag)
  }

  /** Outstanding tags belong to groups already opened; a fresh tag is not among them. */
  ghost predicate Opened(cfg: Config, forward: bool, c: int, count: nat, tag: Tag) {
    0 <= tag.group < cfg.layers &&
    (forward ==> tag.group < c || (tag.group == c && 0 <= tag.index < count))
  }

  ghost predicate AllOpened(cfg: Config, w: World) {
    forall tag :: tag in w.saved ==> Opened(cfg, w.forward, w.s.currentGroup, w.s.tensorCount, tag)
  }

  ghost function FreedIn(cfg: Config, w: World): int {
    if w.forward then w.s.offloaded else cfg.groups
  }

  /** The handle of an unmanaged tensor is that tensor. */
  ghost predicate DirectOk(w: World) {
    forall handle :: handle in w.direct ==> handle == Direct(w.direct[handle])
  }

  ghost predicate Inv(cfg: Config, w: World) {
    ValidConfig(cfg) && Schedule(cfg, w.forward, w.s.currentGroup, w.s.offloaded) &&
    (!w.forward ==> w.s.tensorCount == 0) && AllOpened(cfg, w) && DirectOk(w) &&
    HandlerOk(cfg, w.s, w.saved, w.stores, HostedIn(cfg, w), FreedIn(cfg, w))
  }

  lemma StartInv(cfg: Config)
    requires ValidConfig(cfg)
    ensures Inv(cfg, START)
  {
  }

  // ---------------------------------------------------------------- copies

  /** The tag's tensor is sent when group g is. */
  ghost predicate Copied(slots: map<Tag, Slot>, g: int, tag: Tag) {
    tag in slots && tag.group == g && slots[tag].OnDevice?
  }

  /** The tensors to be sent view storages with the given contents. */
  ghost predicate Views(slots: map<Tag, Slot>, g: int, stores: Stores) {
    forall tag :: Copied(slots, g, tag) ==>
      (g, slots[tag].tensor.key) in stores && stores[(g, slots[tag].tensor.key)] == slots[tag].tensor.flat
  }

  /** Every tensor of the group finds its own contents among the copies, whichever tensor was copied. */
  lemma {:induction false} CopiesHold(order: seq<Tag>, slots: map<Tag, Slot>, g: int,
                                      stores: Stores)
    requires Views(slots, g, stores)
    ensures forall tag :: tag in order && Copied(slots, g, tag) ==> slots[tag].tensor.key in CopiesOf(order, slots, g)
    ensures forall key :: key in CopiesOf(order, slots, g) ==>
      (g, key) in stores && CopiesOf(order, slots, g)[key] == stores[(g, key)]
  {
    if order != [] {
      var init, last := order[..|order| - 1], order[|order| - 1];
      assert order == init + [last];
      CopiesHold(init, slots, g, stores);
      assert Copied(slots, g, last) || CopiesOf(order, slots, g) == CopiesOf(init, slots, g);
    }
  }

  /** A group without tensors on the device leaves no copies. */
  lemma {:induction false} NothingToCopy(order: seq<Tag>, slots: map<Tag, Slot>, g: int)
    requires forall tag :: !Copied(slots, g, tag)
    ensures CopiesOf(order, slots, g) == map[]
  {
    if order != [] {
      NothingToCopy(order[..|order| - 1], slots, g);
      assert !Copied(slots, g, order[|order| - 1]);
    }
  }

  // ---------------------------------------------------------------- pushes and pops keep the invariant

  /** The group being pushed has not been sent, if some group is always kept. */
  lemma NewestGroupNotHosted(cfg: Config, c: int, o: int)
    requires ValidConfig(cfg) && Schedule(cfg, true, c, o)
    ensures cfg.groups < cfg.layers || c == 0 ==> Hosted(cfg, true, c, o) <= c
    ensures o <= c
  {
  }

  ghost function AfterPush(cfg: Config, w: World, t: Tensor): World {
    var tag := Tag(w.s.currentGroup, w.s.tensorCount);
    w.(s := w.s.(tensorCount := w.s.tensorCount + 1, order := w.s.order + [tag], slots := w.s.slots[tag := OnDevice(t)],
                 bufs := if w.s.currentGroup < cfg.groups then w.s.bufs[tag := Some(t)] else w.s.bufs,
                 log := w.s.log + [Produce(w.s.currentGroup)]),
       saved := w.saved[tag := t], stores := w.stores[(w.s.currentGroup, t.key) := t.flat])
  }

  lemma PushKeepsTag(cfg: Config, w: World, t: Tensor, tag: Tag, hosted: int, freed: int)
    requires tag in w.saved && tag in w.s.slots && TagOk(cfg, w.s, w.saved[tag], w.stores, hosted, freed, tag)
    requires Pushable(w, t) && tag != Tag(w.s.currentGroup, w.s.tensorCount)
    ensures tag in AfterPush(cfg, w, t).s.slots &&
      TagOk(cfg, AfterPush(cfg, w, t).s, w.saved[tag], AfterPush(cfg, w, t).stores, hosted, freed, tag)
  {
  }

  lemma NewTagOk(cfg: Config, w: World, t: Tensor)
    requires ValidConfig(cfg) && Schedule(cfg, true, w.s.currentGroup, w.s.offloaded) && w.forward && Pushable(w, t)
    requires Tag(w.s.currentGroup, w.s.tensorCount) !in w.s.bufs
    ensures TagOk(cfg, AfterPush(cfg, w, t).s, t, AfterPush(cfg, w, t).stores, HostedIn(cfg, w), w.s.offloaded,
                  Tag(w.s.currentGroup, w.s.tensorCount))
  {
    NewestGroupNotHosted(cfg, w.s.currentGroup, w.s.offloaded);
  }

  lemma PushKeepsHandler(cfg: Config, w: World, t: Tensor)
    requires Inv(cfg, w) && w.forward && Pushable(w, t) && Tag(w.s.currentGroup, w.s.tensorCount) !in w.saved
    ensures HandlerOk(cfg, AfterPush(cfg, w, t).s, AfterPush(cfg, w, t).saved, AfterPush(cfg, w, t).stores,
                      HostedIn(cfg, w), w.s.offloaded)
  {
    hide TagOk, Pushable, Schedule, Hosted, HostedIn;
    var next := AfterPush(cfg, w, t);
    forall tag | tag in w.saved
      ensures tag in next.s.slots && TagOk(cfg, next.s, w.saved[tag], next.stores, HostedIn(cfg, w), w.s.offloaded, tag)
    {
      PushKeepsTag(cfg, w, t, tag, HostedIn(cfg, w), w.s.offloaded);
    }
    NewTagOk(cfg, w, t);
    assert next.s.slots.Keys == next.saved.Keys;
  }

  lemma PushSucceeds(cfg: Config, w: World, t: Tensor)
    requires w.s.slots.Keys == w.saved.Keys && AllOpened(cfg, w) && w.forward
    ensures Tag(w.s.currentGroup, w.s.tensorCount) !in w.saved
    ensures Step(cfg, w, PushTensor(t, true)) == Ok(AfterPush(cfg, w, t))
  {
    assert Tag(w.s.currentGroup, w.s.tensorCount) !in w.saved;
  }

  lemma PushKeepsOpened(cfg: Config, w: World, t: Tensor)
    requires ValidConfig(cfg) && AllOpened(cfg, w) && w.forward && Schedule(cfg, true, w.s.currentGroup, w.s.offloaded)
    ensures AllOpened(cfg, AfterPush(cfg, w, t))
  {
  }

  lemma PushKeepsInv(cfg: Config, w: World, t: Tensor)
    requires Inv(cfg, w) && w.forward && Pushable(w, t)
    ensures Step(cfg, w, PushTensor(t, true)) == Ok(AfterPush(cfg, w, t)) && Inv(cfg, AfterPush(cfg, w, t))
  {
    hide Step, TagOk, OrderOf, Registered, AllOpened, Schedule, Pushable, Hosted, DirectOk;
    assert DirectOk(AfterPush(cfg, w, t)) by { SameDirect(w, AfterPush(cfg, w, t)); }
    PushSucceeds(cfg, w, t);
    PushKeepsHandler(cfg, w, t);
    PushKeepsOpened(cfg, w, t);
    hide HandlerOk;
  }

  lemma SameDirect(w: World, w': World)
    requires DirectOk(w) && w'.direct == w.direct
    ensures DirectOk(w')
  {
  }

  /** Pushing or handing back an unmanaged tensor leaves the handler alone. */
  lemma UnmanagedKeepsInv(cfg: Config, w: World, t: Tensor)
    requires Inv(cfg, w)
    ensures var next := w.(direct := w.direct[Direct(t) := t]);
      Step(cfg, w, PushTensor(t, false)) == Ok(next) && Inv(cfg, next)
    ensures Direct(t) in w.direct ==>
      w.direct[Direct(t)] == t && Pop(w.s, Direct(t)) == Ok((w.s, t)) && Step(cfg, w, PopHandle(Direct(t))) == Ok(w)
  {
    hide HandlerOk, Schedule, Hosted;
    UnmanagedPassesThrough(cfg, w.s, w.s, t);
  }

  ghost function AfterPop(w: World, tag: Tag): World {
    w.(s := w.s.(order := Without(w.s.order, tag), slots := w.s.slots - {tag}, bufs := w.s.bufs - {tag},
                 log := w.s.log + [Use(tag.group)]),
       saved := w.saved - {tag})
  }

  /** A group whose backward has begun is back on the device. */
  lemma BegunGroupNotHosted(cfg: Config, c: int, o: int, group: int)
    requires ValidConfig(cfg) && Schedule(cfg, false, c, o) && group >= c
    ensures group >= Hosted(cfg, false, c, o)
  {
  }

  lemma PoppedIsOnDevice(cfg: Config, w: World, tag: Tag)
    requires Inv(cfg, w) && !w.forward && tag in w.saved && tag.group >= w.s.currentGroup
    ensures w.s.slots[tag] == OnDevice(w.saved[tag])
  {
    BegunGroupNotHosted(cfg, w.s.currentGroup, w.s.offloaded, tag.group);
  }

  lemma PopKeepsHandler(cfg: Config, w: World, tag: Tag, hosted: int, freed: int)
    requires HandlerOk(cfg, w.s, w.saved, w.stores, hosted, freed) && tag in w.saved
    ensures HandlerOk(cfg, AfterPop(w, tag).s, AfterPop(w, tag).saved, w.stores, hosted, freed)
  {
    WithoutElements(w.s.order, tag);
    var next := AfterPop(w, tag);
    forall x | x in next.saved
      ensures x in next.s.slots && TagOk(cfg, next.s, next.saved[x], w.stores, hosted, freed, x)
    {
      assert TagOk(cfg, w.s, w.saved[x], w.stores, hosted, freed, x);
    }
  }

  lemma PopKeepsInv(cfg: Config, w: World, tag: Tag)
    requires Inv(cfg, w) && !w.forward && tag in w.saved && tag.group >= w.s.currentGroup
    ensures Pop(w.s, Tagged(tag)) == Ok((AfterPop(w, tag).s, w.saved[tag]))
    ensures Inv(cfg, AfterPop(w, tag))
  {
    PoppedIsOnDevice(cfg, w, tag);
    PopKeepsHandler(cfg, w, tag, HostedIn(cfg, w), FreedIn(cfg, w));
  }

  // ---------------------------------------------------------------- commits keep the invariant

  ghost function AfterOffload(s: State, g: int, made: HostCopies): State {
    s.(slots := map tag | tag in s.slots :: Evicted(tag, s.slots[tag], g),
       copies := s.copies[g := made],
       log := if made == map[] then s.log else s.log + [CopyOut(g)])
  }

  lemma OffloadKeepsTag(cfg: Config, s: State, t: Tensor, stores: Stores, g: int, freed: int, made: HostCopies, tag: Tag)
    requires tag in s.slots && TagOk(cfg, s, t, stores, g, freed, tag) && g !in s.copies
    requires Copied(s.slots, g, tag) ==> t.key in made && (g, t.key) in stores && made[t.key] == stores[(g, t.key)]
    requires cfg.groups < cfg.layers || g == 0 || tag.group != g
    ensures tag in AfterOffload(s, g, made).slots &&
      TagOk(cfg, AfterOffload(s, g, made), t, stores, g + 1, freed, tag)
  {
  }

  lemma NoHostTupleYet(cfg: Config, s: State, saved: map<Tag, Tensor>, stores: Stores, g: int, freed: int)
    requires HandlerOk(cfg, s, saved, stores, g, freed)
    ensures forall tag :: tag in s.slots && tag.group == g ==> s.slots[tag] == OnDevice(saved[tag])
    ensures Views(s.slots, g, stores)
  {
    forall tag | tag in s.slots && tag.group == g ensures s.slots[tag] == OnDevice(saved[tag]) {
      assert TagOk(cfg, s, saved[tag], stores, g, freed, tag);
    }
    forall tag | Copied(s.slots, g, tag)
      ensures (g, s.slots[tag].tensor.key) in stores &&
              stores[(g, s.slots[tag].tensor.key)] == s.slots[tag].tensor.flat
    {
      assert TagOk(cfg, s, saved[tag], stores, g, freed, tag);
    }
  }

  /** Sending a group cannot fail while none of its tensors is a host tuple. */
  lemma OffloadSucceeds(cfg: Config, s: State, saved: map<Tag, Tensor>, stores: Stores, g: int, freed: int)
    requires HandlerOk(cfg, s, saved, stores, g, freed)
    ensures BulkOffload(s, g) == Ok(AfterOffload(s, g, CopiesOf(s.order, s.slots, g)))
  {
    NoHostTupleYet(cfg, s, saved, stores, g, freed);
  }

  /** Sending the next group in line keeps every tensor recoverable. */
  lemma OffloadKeeps(cfg: Config, s: State, saved: map<Tag, Tensor>, stores: Stores, g: int, freed: int, made: HostCopies)
    requires HandlerOk(cfg, s, saved, stores, g, freed) && g >= 0 && made == CopiesOf(s.order, s.slots, g)
    requires cfg.groups < cfg.layers || g == 0 || forall tag :: tag in saved ==> tag.group != g
    ensures HandlerOk(cfg, AfterOffload(s, g, made), saved, stores, g + 1, freed)
  {
    NoHostTupleYet(cfg, s, saved, stores, g, freed);
    CopiesHold(s.order, s.slots, g, stores);
    OffloadKeepsCopies(cfg, s, saved, g, made);
    var next := AfterOffload(s, g, made);
    assert next.slots.Keys == saved.Keys;
    forall tag | tag in saved ensures tag in next.slots && TagOk(cfg, next, saved[tag], stores, g + 1, freed, tag) {
      OffloadKeepsTag(cfg, s, saved[tag], stores, g, freed, made, tag);
    }
  }

  lemma OffloadKeepsCopies(cfg: Config, s: State, saved: map<Tag, Tensor>, g: int, made: HostCopies)
    requires Registered(cfg, g, s.copies) && g >= 0 && made == CopiesOf(s.order, s.slots, g)
    requires s.slots.Keys == saved.Keys
    requires cfg.groups < cfg.layers || g == 0 || forall tag :: tag in saved ==> tag.group != g
    ensures Registered(cfg, g + 1, AfterOffload(s, g, made).copies)
  {
    if forall tag :: tag in saved ==> tag.group != g {
      forall tag ensures !Copied(s.slots, g, tag) { assert tag in s.slots.Keys ==> tag in saved; }
      NothingToCopy(s.order, s.slots, g);
    }
  }

  ghost function AfterFree(s: State): State {
    s.(bufs := Freed(s.bufs, s.offloaded),
       log := s.log + [Wait(D2H, Compute), Wait(Compute, D2H), Drop(s.offloaded)])
  }

  lemma FreeKeeps(cfg: Config, s: State, saved: map<Tag, Tensor>, stores: Stores, hosted: int)
    requires HandlerOk(cfg, s, saved, stores, hosted, s.offloaded)
    ensures HandlerOk(cfg, AfterFree(s), saved, stores, hosted, s.offloaded + 1)
  {
    forall tag | tag in saved
      ensures tag in AfterFree(s).slots && TagOk(cfg, AfterFree(s), saved[tag], stores, hosted, s.offloaded + 1, tag)
    {
      assert TagOk(cfg, s, saved[tag], stores, hosted, s.offloaded, tag);
    }
  }

  /** Fields the dictionaries' facts do not mention. */
  lemma CountersDoNotMatter(cfg: Config, s: State, s': State, saved: map<Tag, Tensor>, stores: Stores, hosted: int, freed: int)
    requires HandlerOk(cfg, s, saved, stores, hosted, freed)
    requires s'.slots == s.slots && s'.bufs == s.bufs && s'.order == s.order && s'.copies == s.copies
    ensures HandlerOk(cfg, s', saved, stores, hosted, freed)
  {
    forall tag | tag in saved ensures tag in s'.slots && TagOk(cfg, s', saved[tag], stores, hosted, freed, tag) {
      assert TagOk(cfg, s, saved[tag], stores, hosted, freed, tag);
    }
  }

  /** A closing window frees group o and sends group o+1. */
  lemma WindowSends(cfg: Config, s: State, saved: map<Tag, Tensor>, stores: Stores)
    requires ValidConfig(cfg) && 0 <= s.offloaded < cfg.groups - 1 && cfg.windows[s.offloaded] == s.currentGroup
    requires HandlerOk(cfg, s, saved, stores, s.offloaded + 1, s.offloaded)
    requires forall tag :: tag in saved ==> tag.group <= s.currentGroup
    ensures CloseWindow(cfg, s) == Ok(AfterSend(s))
    ensures HandlerOk(cfg, AfterSend(s), saved, stores, s.offloaded + 2, s.offloaded + 1)
  {
    hide HandlerOk, BulkOffload, CopiesOf, Freed;
    var o, freed := s.offloaded, AfterFree(s);
    FreeKeeps(cfg, s, saved, stores, o + 1);
    OffloadSucceeds(cfg, freed, saved, stores, o + 1, o + 1);
    var made := CopiesOf(s.order, s.slots, o + 1);
    OffloadKeeps(cfg, freed, saved, stores, o + 1, o + 1, made);
    CountersDoNotMatter(cfg, AfterOffload(freed, o + 1, made), AfterSend(s), saved, stores, o + 2, o + 1);
  }

  ghost function AfterSend(s: State): State {
    AfterOffload(AfterFree(s), s.offloaded + 1, CopiesOf(s.order, s.slots, s.offloaded + 1))
      .(offloaded := s.offloaded + 1)
  }

  /** The last window only frees. */
  lemma WindowEnds(cfg: Config, s: State, saved: map<Tag, Tensor>, stores: Stores)
    requires ValidConfig(cfg) && s.offloaded == cfg.groups - 1 && cfg.windows[s.offloaded] == s.currentGroup
    requires HandlerOk(cfg, s, saved, stores, s.offloaded + 1, s.offloaded)
    ensures CloseWindow(cfg, s) == Ok(AfterFree(s).(offloaded := cfg.groups))
    ensures HandlerOk(cfg, AfterFree(s).(offloaded := cfg.groups), saved, stores, cfg.groups, cfg.groups)
  {
    FreeKeeps(cfg, s, saved, stores, s.offloaded + 1);
    CountersDoNotMatter(cfg, AfterFree(s), AfterFree(s).(offloaded := cfg.groups), saved, stores, cfg.groups, cfg.groups);
  }

  ghost function AfterWindow(cfg: Config, s: State): State
    requires s.offloaded in cfg.windows
  {
    if cfg.windows[s.offloaded] != s.currentGroup then s
    else if s.offloaded < cfg.groups - 1 then AfterSend(s)
    else AfterFree(s).(offloaded := cfg.groups)
  }

  /** The window test, after c = s.currentGroup commits and with groups 0..o sent. */
  lemma WindowKeeps(cfg: Config, s: State, saved: map<Tag, Tensor>, stores: Stores)
    requires ValidConfig(cfg) && 0 <= s.offloaded < cfg.groups
    requires HandlerOk(cfg, s, saved, stores, s.offloaded + 1, s.offloaded)
    requires forall tag :: tag in saved ==> tag.group <= s.currentGroup
    ensures CloseWindow(cfg, s) == Ok(AfterWindow(cfg, s))
    ensures var s' := AfterWindow(cfg, s);
      HandlerOk(cfg, s', saved, stores, if s'.offloaded < cfg.groups then s'.offloaded + 1 else cfg.groups, s'.offloaded)
  {
    hide HandlerOk, AfterOffload, AfterFree, BulkOffload;
    if cfg.windows[s.offloaded] == s.currentGroup {
      if s.offloaded < cfg.groups - 1 { WindowSends(cfg, s, saved, stores); } else { WindowEnds(cfg, s, saved, stores); }
    }
  }

  /** The first commit starts the first transfer. */
  ghost function AfterKick(s: State): State {
    if s.currentGroup == 0
    then AfterOffload(s.(log := s.log + [Wait(D2H, Compute)]), 0, CopiesOf(s.order, s.slots, 0)) else s
  }

  lemma KickKeeps(cfg: Config, s: State, saved: map<Tag, Tensor>, stores: Stores)
    requires ValidConfig(cfg) && Schedule(cfg, true, s.currentGroup, s.offloaded)
    requires HandlerOk(cfg, s, saved, stores, Hosted(cfg, true, s.currentGroup, s.offloaded), s.offloaded)
    ensures s.currentGroup == 0 ==> BulkOffload(s.(log := s.log + [Wait(D2H, Compute)]), 0) == Ok(AfterKick(s))
    ensures HandlerOk(cfg, AfterKick(s), saved, stores, s.offloaded + 1, s.offloaded)
  {
    hide HandlerOk, BulkOffload;
    if s.currentGroup == 0 {
      var waited := s.(log := s.log + [Wait(D2H, Compute)]);
      CountersDoNotMatter(cfg, s, waited, saved, stores, 0, 0);
      OffloadSucceeds(cfg, waited, saved, stores, 0, 0);
      OffloadKeeps(cfg, waited, saved, stores, 0, 0, CopiesOf(s.order, s.slots, 0));
    }
  }

  ghost function AfterForward(cfg: Config, s: State): State
    requires s.offloaded in cfg.windows
  {
    var next := AfterWindow(cfg, AfterKick(s));
    next.(currentGroup := next.currentGroup + 1, tensorCount := 0)
  }

  ghost function AfterForwardCommit(cfg: Config, w: World): World
    requires w.s.offloaded in cfg.windows
  {
    w.(s := AfterForward(cfg, w.s), forward := w.s.currentGroup + 1 < cfg.layers)
  }

  lemma ForwardSucceeds(cfg: Config, s: State, saved: map<Tag, Tensor>, stores: Stores)
    requires ValidConfig(cfg) && Schedule(cfg, true, s.currentGroup, s.offloaded)
    requires HandlerOk(cfg, s, saved, stores, Hosted(cfg, true, s.currentGroup, s.offloaded), s.offloaded)
    requires forall tag :: tag in saved ==> tag.group <= s.currentGroup
    ensures CommitForward(cfg, s) == Ok(AfterForward(cfg, s))
    ensures var s' := AfterForward(cfg, s);
      HandlerOk(cfg, s', saved, stores, if s'.offloaded < cfg.groups then s'.offloaded + 1 else cfg.groups, s'.offloaded)
  {
    hide HandlerOk, BulkOffload, CloseWindow, AfterWindow;
    KickKeeps(cfg, s, saved, stores);
    WindowKeeps(cfg, AfterKick(s), saved, stores);
    var closed := AfterWindow(cfg, AfterKick(s));
    CountersDoNotMatter(cfg, closed, AfterForward(cfg, s), saved, stores,
                        if closed.offloaded < cfg.groups then closed.offloaded + 1 else cfg.groups, closed.offloaded);
  }

  /** The counters after a forward commit. */
  lemma ForwardSchedule(cfg: Config, c: int, o: int)
    requires ValidConfig(cfg) && Schedule(cfg, true, c, o)
    ensures var o' := if cfg.windows[o] == c then o + 1 else o;
      var forward' := c + 1 < cfg.layers;
      Schedule(cfg, forward', c + 1, o') && (forward' <==> o' < cfg.groups) &&
      Hosted(cfg, forward', c + 1, o') == if o' < cfg.groups then o' + 1 else cfg.groups
  {
    var G := cfg.groups;
    if o < G - 1 {
      assert cfg.windows[o] < cfg.windows[G - 1];
      assert cfg.windows[o] < cfg.windows[o + 1];
    }
  }

  lemma ForwardCounters(cfg: Config, s: State)
    requires ValidConfig(cfg) && 0 <= s.offloaded < cfg.groups
    ensures AfterForward(cfg, s).currentGroup == s.currentGroup + 1 && AfterForward(cfg, s).tensorCount == 0
    ensures AfterForward(cfg, s).offloaded ==
      if cfg.windows[s.offloaded] == s.currentGroup then s.offloaded + 1 else s.offloaded
  {
    hide CopiesOf, Freed;
  }

  lemma ForwardKeepsInv(cfg: Config, w: World)
    requires Inv(cfg, w) && w.forward
    ensures w.s.offloaded in cfg.windows
    ensures Step(cfg, w, ForwardCommit) == Ok(AfterForwardCommit(cfg, w)) && Inv(cfg, AfterForwardCommit(cfg, w))
  {
    hide HandlerOk, AfterForward, CommitForward, Schedule;
    ForwardScheduleBounds(cfg, w.s.currentGroup, w.s.offloaded);
    ForwardSucceeds(cfg, w.s, w.saved, w.stores);
    ForwardSchedule(cfg, w.s.currentGroup, w.s.offloaded);
    ForwardCounters(cfg, w.s);
  }

  lemma ForwardScheduleBounds(cfg: Config, c: int, o: int)
    requires ValidConfig(cfg) && Schedule(cfg, true, c, o)
    ensures 0 <= o < cfg.groups && 0 <= c < cfg.layers
  {
  }

  // ---------------------------------------------------------------- backward commits

  ghost function AfterReload(s: State, g: int): State
    requires g in s.copies
  {
    s.(slots := map tag | tag in s.slots :: Restored(tag, s.slots[tag], g, s.copies[g]),
       copies := s.copies - {g},
       log := if s.copies[g] == map[] then s.log else s.log + [CopyIn(g)])
  }

  lemma ReloadKeepsTag(cfg: Config, s: State, t: Tensor, stores: Stores, g: int, tag: Tag)
    requires tag in s.slots && TagOk(cfg, s, t, stores, g + 1, cfg.groups, tag) && g in s.copies && g >= 0
    ensures tag.group == g ==> Reloadable(s.slots[tag], s.copies[g])
    ensures tag in AfterReload(s, g).slots && TagOk(cfg, AfterReload(s, g), t, stores, g, cfg.groups, tag)
  {
  }

  /** Fetching the last group in line back cannot fail and restores every tensor of the group. */
  lemma ReloadKeeps(cfg: Config, s: State, saved: map<Tag, Tensor>, stores: Stores, g: int)
    requires HandlerOk(cfg, s, saved, stores, g + 1, cfg.groups) && 0 <= g < cfg.groups
    ensures g in s.copies && BulkReload(cfg, s, g) == Ok(AfterReload(s, g))
    ensures HandlerOk(cfg, AfterReload(s, g), saved, stores, g, cfg.groups)
  {
    var next := AfterReload(s, g);
    assert next.slots.Keys == saved.Keys;
    hide TagOk, Reloadable;
    forall tag | tag in saved
      ensures tag.group == g ==> Reloadable(s.slots[tag], s.copies[g])
      ensures tag in next.slots && TagOk(cfg, next, saved[tag], stores, g, cfg.groups, tag)
    {
      ReloadKeepsTag(cfg, s, saved[tag], stores, g, tag);
    }
  }

  ghost function AfterFetch(s: State): State
    requires s.offloaded - 1 in s.copies
  {
    AfterReload(s.(log := s.log + [Wait(H2D, Compute), Wait(Compute, H2D)]), s.offloaded - 1)
      .(offloaded := if s.offloaded > 1 then s.offloaded - 1 else s.offloaded)
  }

  lemma FetchKeeps(cfg: Config, s: State, saved: map<Tag, Tensor>, stores: Stores)
    requires HandlerOk(cfg, s, saved, stores, s.offloaded, cfg.groups) && 1 <= s.offloaded <= cfg.groups
    ensures s.offloaded - 1 in s.copies && FetchNext(cfg, s) == Ok(AfterFetch(s))
    ensures HandlerOk(cfg, AfterFetch(s), saved, stores, s.offloaded - 1, cfg.groups)
  {
    hide HandlerOk, BulkReload;
    var waited := s.(log := s.log + [Wait(H2D, Compute), Wait(Compute, H2D)]);
    CountersDoNotMatter(cfg, s, waited, saved, stores, s.offloaded, cfg.groups);
    ReloadKeeps(cfg, waited, saved, stores, s.offloaded - 1);
    CountersDoNotMatter(cfg, AfterReload(waited, s.offloaded - 1), AfterFetch(s), saved, stores, s.offloaded - 1, cfg.groups);
  }

  /** The counters after a backward commit. */
  lemma BackwardSchedule(cfg: Config, c: int, o: int)
    requires ValidConfig(cfg) && Schedule(cfg, false, c, o) && c > 0
    ensures 1 <= o <= cfg.groups
    ensures cfg.windows[o - 1] == c - 1 ==> Hosted(cfg, false, c, o) == o
    ensures var fetched := if cfg.windows[o - 1] == c - 1 && o > 1 then o - 1 else o;
      var o' := if c == 1 then 0 else fetched;
      Schedule(cfg, false, c - 1, o') &&
      Hosted(cfg, false, c - 1, o') ==
        if cfg.windows[o - 1] == c - 1 then o - 1 else Hosted(cfg, false, c, o)
  {
    if o > 1 { assert cfg.windows[o - 2] < cfg.windows[o - 1]; }
  }

  ghost function AfterBackward(cfg: Config, s: State): State
    requires s.offloaded - 1 in cfg.windows
    requires cfg.windows[s.offloaded - 1] == s.currentGroup - 1 ==> s.offloaded - 1 in s.copies
  {
    var here := s.(currentGroup := s.currentGroup - 1);
    var next := if cfg.windows[here.offloaded - 1] == here.currentGroup then AfterFetch(here) else here;
    if next.currentGroup == 0 then next.(offloaded := 0, log := next.log + [Wait(Compute, H2D)]) else next
  }

  lemma BackwardSucceeds(cfg: Config, s: State, saved: map<Tag, Tensor>, stores: Stores)
    requires ValidConfig(cfg) && Schedule(cfg, false, s.currentGroup, s.offloaded) && s.currentGroup > 0
    requires HandlerOk(cfg, s, saved, stores, Hosted(cfg, false, s.currentGroup, s.offloaded), cfg.groups)
    ensures s.offloaded - 1 in cfg.windows
    ensures cfg.windows[s.offloaded - 1] == s.currentGroup - 1 ==> s.offloaded - 1 in s.copies
    ensures CommitBackward(cfg, s) == Ok(AfterBackward(cfg, s))
    ensures HandlerOk(cfg, AfterBackward(cfg, s), saved, stores,
      if cfg.windows[s.offloaded - 1] == s.currentGroup - 1 then s.offloaded - 1
      else Hosted(cfg, false, s.currentGroup, s.offloaded), cfg.groups)
  {
    hide HandlerOk, FetchNext, Schedule, Hosted, AfterFetch, AfterBackward, CommitBackward;
    BackwardSchedule(cfg, s.currentGroup, s.offloaded);
    var hosted := Hosted(cfg, false, s.currentGroup, s.offloaded);
    var here := s.(currentGroup := s.currentGroup - 1);
    CountersDoNotMatter(cfg, s, here, saved, stores, hosted, cfg.groups);
    if cfg.windows[here.offloaded - 1] == here.currentGroup { FetchKeeps(cfg, here, saved, stores); }
    BackwardIs(cfg, s);
    if cfg.windows[here.offloaded - 1] == here.currentGroup {
      CountersDoNotMatter(cfg, AfterFetch(here), AfterBackward(cfg, s), saved, stores, s.offloaded - 1, cfg.groups);
    } else {
      CountersDoNotMatter(cfg, here, AfterBackward(cfg, s), saved, stores, hosted, cfg.groups);
    }
  }

  /** A backward commit whose fetch succeeds changes the dictionaries by that fetch alone. */
  lemma BackwardIs(cfg: Config, s: State)
    requires s.offloaded - 1 in cfg.windows && s.currentGroup > 0
    requires cfg.windows[s.offloaded - 1] == s.currentGroup - 1 ==> s.offloaded - 1 in s.copies
    requires cfg.windows[s.offloaded - 1] == s.currentGroup - 1 ==>
      FetchNext(cfg, s.(currentGroup := s.currentGroup - 1)) == Ok(AfterFetch(s.(currentGroup := s.currentGroup - 1)))
    ensures CommitBackward(cfg, s) == Ok(AfterBackward(cfg, s))
    ensures var here := s.(currentGroup := s.currentGroup - 1);
      var next := if cfg.windows[s.offloaded - 1] == s.currentGroup - 1 then AfterFetch(here) else here;
      var end := AfterBackward(cfg, s);
      end.slots == next.slots && end.bufs == next.bufs && end.order == next.order && end.copies == next.copies
  {
    hide FetchNext, AfterFetch;
  }

  ghost function AfterBackwardCommit(cfg: Config, w: World): World
    requires w.s.offloaded - 1 in cfg.windows
    requires cfg.windows[w.s.offloaded - 1] == w.s.currentGroup - 1 ==> w.s.offloaded - 1 in w.s.copies
  {
    w.(s := AfterBackward(cfg, w.s))
  }

  lemma BackwardKeepsInv(cfg: Config, w: World)
    requires Inv(cfg, w) && !w.forward && w.s.currentGroup > 0
    ensures w.s.offloaded - 1 in cfg.windows
    ensures cfg.windows[w.s.offloaded - 1] == w.s.currentGroup - 1 ==> w.s.offloaded - 1 in w.s.copies
    ensures Step(cfg, w, BackwardCommit) == Ok(AfterBackwardCommit(cfg, w)) && Inv(cfg, AfterBackwardCommit(cfg, w))
  {
    hide HandlerOk, AfterBackward, CommitBackward, Schedule, Hosted;
    BackwardSucceeds(cfg, w.s, w.saved, w.stores);
    BackwardSchedule(cfg, w.s.currentGroup, w.s.offloaded);
    BackwardCounters(cfg, w.s);
  }

  lemma BackwardCounters(cfg: Config, s: State)
    requires s.offloaded - 1 in cfg.windows
    requires cfg.windows[s.offloaded - 1] == s.currentGroup - 1 ==> s.offloaded - 1 in s.copies
    ensures var s' := AfterBackward(cfg, s);
      s'.currentGroup == s.currentGroup - 1 && s'.tensorCount == s.tensorCount &&
      s'.offloaded == if s'.currentGroup == 0 then 0
                      else if cfg.windows[s.offloaded - 1] == s.currentGroup - 1 && s.offloaded > 1 then s.offloaded - 1
                      else s.offloaded
  {
  }

  lemma NextPassKeepsInv(cfg: Config, w: World)
    requires Inv(cfg, w) && Enabled(cfg, w, NextPass)
    ensures Step(cfg, w, NextPass) == Ok(w.(forward := true, direct := map[], stores := map[]))
    ensures Inv(cfg, w.(forward := true, direct := map[], stores := map[]))
  {
  }

  // ---------------------------------------------------------------- the main results

  /** No event that autograd can send makes the handler raise, and the invariant survives it. */
  lemma StepKeepsInv(cfg: Config, w: World, e: Event)
    requires Inv(cfg, w) && Enabled(cfg, w, e)
    ensures Step(cfg, w, e).Ok? && Inv(cfg, Step(cfg, w, e).value)
  {
    hide Inv, CommitForward, CommitBackward;
    match e
    case PushTensor(t, managed) => if managed { PushKeepsInv(cfg, w, t); } else { UnmanagedKeepsInv(cfg, w, t); }
    case ForwardCommit => ForwardKeepsInv(cfg, w);
    case BackwardCommit => BackwardKeepsInv(cfg, w);
    case PopHandle(handle) =>
      if handle.Tagged? { PopKeepsInv(cfg, w, handle.tag); } else { UnmanagedKeepsInv(cfg, w, handle.tensor); }
    case NextPass => NextPassKeepsInv(cfg, w);
  }

  /** No run that follows the protocol raises: no assert, no dictionary lookup, no view fails. */
  lemma {:induction false} RunNeverFails(cfg: Config, w: World, events: seq<Event>)
    requires Inv(cfg, w) && Follows(cfg, w, events)
    ensures Run(cfg, w, events).Ok? && Inv(cfg, Run(cfg, w, events).value)
    decreases |events|
  {
    hide Inv, Step, Enabled;
    if events != [] {
      StepKeepsInv(cfg, w, events[0]);
      RunNeverFails(cfg, Step(cfg, w, events[0]).value, events[1..]);
    }
  }

  /** Whatever happened before, a tensor handed back has the contents it was pushed with; in
      particular it is never a host tuple.  An unmanaged one is the very tensor. */
  lemma EveryPopReturnsWhatWasPushed(layers: nat, groups: nat, events: seq<Event>, handle: Handle)
    requires 1 <= groups <= layers
    requires Follows(MakeConfig(layers, groups), START, events)
    ensures var end := Run(MakeConfig(layers, groups), START, events);
      end.Ok? &&
      (Enabled(MakeConfig(layers, groups), end.value, PopHandle(handle)) ==>
         var popped := Pop(end.value.s, handle);
         popped.Ok? && popped.value.1.SameContents(Pushed(end.value, handle))
         && (handle.Direct? ==> popped.value.1 == Pushed(end.value, handle)))
  {
    var cfg := MakeConfig(layers, groups);
    BuiltScheduleIsValid(layers, groups);
    StartInv(cfg);
    hide Inv, Follows, Run;
    RunNeverFails(cfg, START, events);
    var end := Run(cfg, START, events).value;
    if Enabled(cfg, end, PopHandle(handle)) {
      if handle.Tagged? { PopKeepsInv(cfg, end, handle.tag); } else { UnmanagedKeepsInv(cfg, end, handle.tensor); }
    }
  }

  lemma NonemptyHasElement(order: seq<Tag>)
    ensures order == [] || exists tag :: tag in order
  {
    if order != [] { assert order[0] in order; }
  }

  lemma QuiescentIsInitial(cfg: Config, w: World)
    requires Inv(cfg, w) && Enabled(cfg, w, NextPass)
    ensures w.s.(log := []) == INITIAL
  {
    hide TagOk;
    NonemptyHasElement(w.s.order);
    assert w.s.copies == map[] by { assert forall g :: g !in w.s.copies; }
    assert w.s.slots.Keys == {} && w.s.bufs.Keys == {};
  }

  /** After a full pass with every tensor handed back, the handler is as it was constructed. */
  lemma PassRestoresInitialState(layers: nat, groups: nat, events: seq<Event>)
    requires 1 <= groups <= layers
    requires Follows(MakeConfig(layers, groups), START, events)
    ensures var end := Run(MakeConfig(layers, groups), START, events);
      end.Ok? &&
      (Enabled(MakeConfig(layers, groups), end.value, NextPass) ==>
         end.value.s.(log := []) == INITIAL)
  {
    var cfg := MakeConfig(layers, groups);
    BuiltScheduleIsValid(layers, groups);
    StartInv(cfg);
    hide Inv, Follows, Run, MakeConfig;
    RunNeverFails(cfg, START, events);
    if Enabled(cfg, Run(cfg, START, events).value, NextPass) {
      QuiescentIsInitial(cfg, Run(cfg, START, events).value);
    }
  }

  // ---------------------------------------------------------------- a pass can be run

  ghost predicate RunsTo(cfg: Config, w: World, events: seq<Event>, end: World) {
    Follows(cfg, w, events) && Run(cfg, w, events) == Ok(end) && Inv(cfg, end)
  }

  lemma {:induction false} RunsOn(cfg: Config, w: World, a: seq<Event>, middle: World, b: seq<Event>, end: World)
    requires RunsTo(cfg, w, a, middle) && RunsTo(cfg, middle, b, end)
    ensures RunsTo(cfg, w, a + b, end)
    decreases |a|
  {
    hide Step, Enabled, Inv;
    if a == [] {
      assert a + b == b;
    } else {
      assert (a + b)[1..] == a[1..] + b;
      RunsOn(cfg, Step(cfg, w, a[0]).value, a[1..], middle, b, end);
    }
  }

  lemma RunsOne(cfg: Config, w: World, e: Event) returns (end: World)
    requires Inv(cfg, w) && Enabled(cfg, w, e)
    ensures RunsTo(cfg, w, [e], end) && Step(cfg, w, e) == Ok(end)
  {
    hide Inv, Step, Enabled;
    StepKeepsInv(cfg, w, e);
    end := Step(cfg, w, e).value;
    assert [e][1..] == [] && Run(cfg, end, []) == Ok(end) && Follows(cfg, end, []);
  }

  function Times(e: Event, n: nat): seq<Event> { if n == 0 then [] else [e] + Times(e, n - 1) }

  lemma ForwardMoves(cfg: Config, w: World)
    requires Inv(cfg, w) && w.forward
    ensures Step(cfg, w, ForwardCommit).Ok? && Enabled(cfg, w, ForwardCommit)
    ensures var next := Step(cfg, w, ForwardCommit).value;
      next.s.currentGroup == w.s.currentGroup + 1 && next.saved == w.saved && (next.forward <==> next.s.currentGroup < cfg.layers)
  {
    hide HandlerOk, AfterForward, CommitForward, Step;
    ForwardKeepsInv(cfg, w);
    ForwardCounters(cfg, w.s);
  }

  /** The forward commits that are left turn the pass around. */
  lemma {:induction false} ForwardsRun(cfg: Config, w: World, n: nat) returns (end: World)
    requires Inv(cfg, w) && w.forward && n > 0 && w.s.currentGroup + n == cfg.layers
    ensures RunsTo(cfg, w, Times(ForwardCommit, n), end)
    ensures end.s.currentGroup == cfg.layers && end.saved == w.saved && !end.forward
    decreases n
  {
    hide Inv, Step, RunsTo;
    ForwardMoves(cfg, w);
    var next := RunsOne(cfg, w, ForwardCommit);
    if n == 1 {
      assert Times(ForwardCommit, 1) == [ForwardCommit] + Times(ForwardCommit, 0) == [ForwardCommit];
      end := next;
    } else {
      RunsToInv(cfg, w, [ForwardCommit], next);
      end := ForwardsRun(cfg, next, n - 1);
      RunsOn(cfg, w, [ForwardCommit], next, Times(ForwardCommit, n - 1), end);
    }
  }

  lemma RunsToInv(cfg: Config, w: World, events: seq<Event>, end: World)
    requires RunsTo(cfg, w, events, end)
    ensures Inv(cfg, end)
  {
  }

  lemma BackwardMoves(cfg: Config, w: World)
    requires Inv(cfg, w) && !w.forward && w.s.currentGroup > 0
    ensures Step(cfg, w, BackwardCommit).Ok? && Enabled(cfg, w, BackwardCommit)
    ensures var next := Step(cfg, w, BackwardCommit).value;
      next.s.currentGroup == w.s.currentGroup - 1 && next.saved == w.saved && !next.forward
  {
    hide HandlerOk, AfterBackward, CommitBackward, Step;
    BackwardKeepsInv(cfg, w);
    BackwardCounters(cfg, w.s);
  }

  lemma {:induction false} BackwardsRun(cfg: Config, w: World, n: nat) returns (end: World)
    requires Inv(cfg, w) && !w.forward && n == w.s.currentGroup
    ensures RunsTo(cfg, w, Times(BackwardCommit, n), end)
    ensures end.s.currentGroup == 0 && end.saved == w.saved && !end.forward
    decreases n
  {
    if n == 0 {
      end := w;
    } else {
      hide Inv, Step, RunsTo;
      BackwardMoves(cfg, w);
      var next := RunsOne(cfg, w, BackwardCommit);
      RunsToInv(cfg, w, [BackwardCommit], next);
      end := BackwardsRun(cfg, next, n - 1);
      RunsOn(cfg, w, [BackwardCommit], next, Times(BackwardCommit, n - 1), end);
    }
  }

  lemma PushRuns(cfg: Config, t: Tensor) returns (end: World)
    requires ValidConfig(cfg) && t.WellFormed()
    ensures RunsTo(cfg, START, [PushTensor(t, true)], end)
    ensures end.forward && end.s.currentGroup == 0 && end.saved == map[Tag(0, 0) := t]
  {
    StartInv(cfg);
    hide Inv, RunsTo, Step;
    end := RunsOne(cfg, START, PushTensor(t, true));
    PushKeepsInv(cfg, START, t);
  }

  lemma LastPopRuns(cfg: Config, w: World, tag: Tag) returns (end: World)
    requires Inv(cfg, w) && !w.forward && w.s.currentGroup == 0 && w.saved.Keys == {tag} && tag.group >= 0
    ensures RunsTo(cfg, w, [PopHandle(Tagged(tag))], end) && Enabled(cfg, end, NextPass)
  {
    hide Inv, RunsTo, Step;
    end := RunsOne(cfg, w, PopHandle(Tagged(tag)));
    PopStep(cfg, w, tag);
    assert end.saved == map[];
  }

  lemma PopStep(cfg: Config, w: World, tag: Tag)
    requires Inv(cfg, w) && !w.forward && tag in w.saved && tag.group >= w.s.currentGroup
    ensures Step(cfg, w, PopHandle(Tagged(tag))) == Ok(AfterPop(w, tag))
  {
    hide Inv;
    PopKeepsInv(cfg, w, tag);
  }

  lemma TurnRuns(cfg: Config, t: Tensor) returns (end: World)
    requires ValidConfig(cfg) && t.WellFormed()
    ensures RunsTo(cfg, START, [PushTensor(t, true)] + Times(ForwardCommit, cfg.layers), end)
    ensures !end.forward && end.s.currentGroup == cfg.layers && end.saved == map[Tag(0, 0) := t]
  {
    hide Inv, RunsTo, Times;
    var pushed := PushRuns(cfg, t);
    RunsToInv(cfg, START, [PushTensor(t, true)], pushed);
    end := ForwardsRun(cfg, pushed, cfg.layers);
    RunsOn(cfg, START, [PushTensor(t, true)], pushed, Times(ForwardCommit, cfg.layers), end);
  }

  lemma ReturnRuns(cfg: Config, w: World, tag: Tag) returns (end: World)
    requires Inv(cfg, w) && !w.forward && w.s.currentGroup >= 0 && w.saved.Keys == {tag} && tag.group >= 0
    ensures RunsTo(cfg, w, Times(BackwardCommit, w.s.currentGroup) + [PopHandle(Tagged(tag))], end)
    ensures Enabled(cfg, end, NextPass)
  {
    hide Inv, RunsTo, Times;
    var back := BackwardsRun(cfg, w, w.s.currentGroup);
    RunsToInv(cfg, w, Times(BackwardCommit, w.s.currentGroup), back);
    end := LastPopRuns(cfg, back, tag);
    RunsOn(cfg, w, Times(BackwardCommit, w.s.currentGroup), back, [PopHandle(Tagged(tag))], end);
  }

  /** A whole pass with a tensor of the first layer: pushed, every layer committed forward and then backward, handed
      back.  It follows the protocol and leaves the handler ready for the next pass. */
  lemma WholePassRuns(layers: nat, groups: nat, t: Tensor) returns (end: World)
    requires 1 <= groups <= layers && t.WellFormed()
    ensures RunsTo(MakeConfig(layers, groups), START,
      ([PushTensor(t, true)] + Times(ForwardCommit, layers)) +
      (Times(BackwardCommit, layers) + [PopHandle(Tagged(Tag(0, 0)))]), end)
    ensures Enabled(MakeConfig(layers, groups), end, NextPass)
  {
    var cfg := MakeConfig(layers, groups);
    BuiltScheduleIsValid(layers, groups);
    assert cfg.layers == layers;
    hide Inv, RunsTo, MakeConfig, Times, ValidConfig;
    var turned := TurnRuns(cfg, t);
    RunsToInv(cfg, START, [PushTensor(t, true)] + Times(ForwardCommit, layers), turned);
    end := ReturnRuns(cfg, turned, Tag(0, 0));
    RunsOn(cfg, START, [PushTensor(t, true)] + Times(ForwardCommit, layers), turned,
           Times(BackwardCommit, layers) + [PopHandle(Tagged(Tag(0, 0)))], end);
  }
}
