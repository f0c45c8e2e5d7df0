/** How much device memory the saved tensors of whole groups hold during a run. */
module OffloadResidency {
  import opened OffloadWindow
  import opened OffloadState
  import opened OffloadRuns

  /** Some outstanding tensor of the group is still referenced on the device. */
  ghost predicate Resident(s: State, g: int) {
    exists tag :: tag in s.slots && tag.group == g && HeldOnDevice(s, tag)
  }

  ghost predicate HeldOnDevice(s: State, tag: Tag)
    requires tag in s.slots
  {
    s.slots[tag].OnDevice? || (tag in s.bufs && s.bufs[tag].Some?)
  }

  /** The groups that have gone and not come back hold nothing: forward those below the window
      counter, backward those still registered on the host. */
  lemma GoneGroupsHoldNothing(cfg: Config, w: World, g: int)
    requires Inv(cfg, w) && cfg.groups < cfg.layers && Resident(w.s, g)
    ensures 0 <= g && (w.forward ==> w.s.offloaded <= g <= w.s.currentGroup)
    ensures !w.forward ==> HostedIn(cfg, w) <= g
  {
    hide Registered;
    var tag :| tag in w.s.slots && tag.group == g && HeldOnDevice(w.s, tag);
    assert tag in w.s.slots.Keys;
    assert Opened(cfg, w.forward, w.s.currentGroup, w.s.tensorCount, tag);
    HeldTagNotGone(cfg, w.s, w.saved[tag], w.stores, HostedIn(cfg, w), FreedIn(cfg, w), tag);
  }

  lemma HeldTagNotGone(cfg: Config, s: State, t: Tensor, stores: Stores, hosted: int, freed: int, tag: Tag)
    requires tag in s.slots && TagOk(cfg, s, t, stores, hosted, freed, tag) && cfg.groups < cfg.layers
    requires HeldOnDevice(s, tag)
    ensures tag.group >= hosted || tag.group >= freed
  {
  }

  /** Each group leaves one layer after its own. */
  ghost predicate OneAhead(cfg: Config) {
    forall j :: j in cfg.windows ==> cfg.windows[j] == j + 1
  }

  /** The windows when all groups but one are offloaded. */
  lemma TightWindows(layers: nat)
    requires layers >= 2
    ensures OneAhead(MakeConfig(layers, layers - 1))
  {
    var windows := MakeConfig(layers, layers - 1).windows;
    forall j | j in windows ensures windows[j] == j + 1 {
      WindowNotEarly(layers, layers - 1, j);
    }
  }

  /** With all groups but one offloaded, the counters follow the layers one to one. */
  lemma TightSchedule(cfg: Config, forward: bool, c: int, o: int)
    requires ValidConfig(cfg) && Schedule(cfg, forward, c, o)
    requires cfg.groups == cfg.layers - 1 && OneAhead(cfg)
    ensures forward && c > 0 ==> o == c - 1
    ensures !forward ==> Hosted(cfg, forward, c, o) >= c - 1
  {
  }

  /** As the library sets it up (one group kept), at most the current group and its predecessor are on
      the device, in both passes, provided later groups have been handed back. */
  lemma AtMostTwoGroupsResident(layers: nat, events: seq<Event>, g: int)
    requires layers >= 2 && Follows(MakeConfig(layers, layers - 1), START, events)
    ensures var end := Run(MakeConfig(layers, layers - 1), START, events);
      end.Ok? &&
      var c := end.value.s.currentGroup;
      (Resident(end.value.s, g) ==> c - 1 <= g) &&
      (Resident(end.value.s, g) && (forall tag :: tag in end.value.saved ==> tag.group <= c) ==> g == c - 1 || g == c)
  {
    var cfg := MakeConfig(layers, layers - 1);
    BuiltScheduleIsValid(layers, layers - 1);
    StartInv(cfg);
    TightWindows(layers);
    hide MakeConfig, Inv, Follows, Run, Resident, OneAhead;
    RunNeverFails(cfg, START, events);
    if Resident(Run(cfg, START, events).value.s, g) { TwoGroupsResident(cfg, Run(cfg, START, events).value, g); }
  }

  lemma TwoGroupsResident(cfg: Config, w: World, g: int)
    requires Inv(cfg, w) && cfg.groups == cfg.layers - 1 && OneAhead(cfg) && Resident(w.s, g)
    ensures w.s.currentGroup - 1 <= g
    ensures (forall tag :: tag in w.saved ==> tag.group <= w.s.currentGroup) ==> g <= w.s.currentGroup
  {
    hide HandlerOk, Resident;
    GoneGroupsHoldNothing(cfg, w, g);
    TightSchedule(cfg, w.forward, w.s.currentGroup, w.s.offloaded);
    ResidentIsOutstanding(cfg, w, g);
  }

  lemma ResidentIsOutstanding(cfg: Config, w: World, g: int)
    requires Inv(cfg, w) && Resident(w.s, g)
    ensures exists tag :: tag in w.saved && tag.group == g
  {
    var tag :| tag in w.s.slots && tag.group == g && HeldOnDevice(w.s, tag);
    assert tag in w.s.slots.Keys;
  }
}
