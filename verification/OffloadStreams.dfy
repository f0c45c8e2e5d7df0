/** Stream safety of the offload handler, judged from the log of what it asks the streams to do.
    Each stream runs its own work in order; what it knows of the others comes from the waits. */
module OffloadStreams {
  import opened Sequences
  import opened OffloadState
  import opened OffloadRuns

  /** How much work of each stream is known to be finished before a stream's next operation. */
  datatype Clock = Clock(compute: nat, d2h: nat, h2d: nat) {
    function Join(other: Clock): Clock {
      Clock(Max(compute, other.compute), Max(d2h, other.d2h), Max(h2d, other.h2d))
    }
  }

  /** The streams' clocks; for each group, when it was last produced, copied out and copied in; and
      whether every operation so far was safe. */
  datatype Monitor = Monitor(compute: Clock, d2h: Clock, h2d: Clock,
                             produced: map<int, nat>, copied: map<int, nat>, loaded: map<int, nat>, safe: bool)

  const IDLE := Monitor(Clock(0, 0, 0), Clock(0, 0, 0), Clock(0, 0, 0), map[], map[], map[], true)

  function ClockOf(m: Monitor, s: Stream): Clock {
    match s case Compute => m.compute case D2H => m.d2h case H2D => m.h2d
  }

  function Observe(m: Monitor, op: StreamOp): Monitor {
    match op
    case Produce(g) =>
      var now := m.compute.compute + 1;
      m.(compute := m.compute.(compute := now), produced := m.produced[g := now])
    case Use(g) =>  // a reloaded tensor must have arrived
      m.(compute := m.compute.(compute := m.compute.compute + 1),
         safe := m.safe && (g in m.loaded ==> m.loaded[g] <= m.compute.h2d))
    case Wait(waiter, on) =>
      var joined := ClockOf(m, waiter).Join(ClockOf(m, on));
      (match waiter
       case Compute => m.(compute := joined)
       case D2H => m.(d2h := joined)
       case H2D => m.(h2d := joined))
    case CopyOut(g) =>  // the group must have been computed
      var now := m.d2h.d2h + 1;
      m.(d2h := m.d2h.(d2h := now), copied := m.copied[g := now],
         safe := m.safe && g in m.produced && m.produced[g] <= m.d2h.compute)
    case Drop(g) =>  // the buffer must have been copied before compute may reuse it
      m.(safe := m.safe && (g in m.copied ==> m.copied[g] <= m.compute.d2h))
    case CopyIn(g) =>  // the host copy must be complete
      var now := m.h2d.h2d + 1;
      m.(h2d := m.h2d.(h2d := now), loaded := m.loaded[g := now],
         safe := m.safe && g in m.copied && m.copied[g] <= m.h2d.d2h)
  }

  function Replay(log: seq<StreamOp>): Monitor {
    if log == [] then IDLE else Observe(Replay(log[..|log| - 1]), log[|log| - 1])
  }

  lemma ReplayOne(log: seq<StreamOp>, op: StreamOp)
    ensures Replay(log + [op]) == Observe(Replay(log), op)
  {
    assert (log + [op])[..|log|] == log;
  }

  /** One unsafe operation spoils every longer log. */
  lemma {:induction false} SafeLogsHaveSafePrefixes(log: seq<StreamOp>, n: nat)
    requires n <= |log| && Replay(log).safe
    ensures Replay(log[..n]).safe
  {
    if n < |log| {
      SafeLogsHaveSafePrefixes(log[..|log| - 1], n);
      assert log[..|log| - 1][..n] == log[..n];
    } else {
      assert log[..n] == log;
    }
  }

  // ---------------------------------------------------------------- the invariant

  /** Compute knows of all finished copies, except possibly the one group going out and the one coming in. */
  ghost predicate MonitorOk(m: Monitor, outgoing: int, incoming: int) {
    m.safe &&
    (forall g :: g in m.produced ==> m.produced[g] <= m.compute.compute) &&
    (forall g :: g in m.copied ==> g >= 0 && m.copied[g] <= m.d2h.d2h && (g != outgoing ==> m.copied[g] <= m.compute.d2h)) &&
    (forall g :: g in m.loaded ==> g >= 0 && m.loaded[g] <= m.h2d.h2d && (g != incoming ==> m.loaded[g] <= m.compute.h2d))
  }

  /** The log has produced every outstanding tensor and copied every registered group; and if all
      groups are offloaded only the first is ever copied. */
  ghost predicate LogCovers(cfg: Config, m: Monitor, s: State, saved: map<Tag, Tensor>) {
    (forall tag :: tag in saved ==> tag.group in m.produced) &&
    (forall g :: g in s.copies && s.copies[g] != map[] ==> g in m.copied) &&
    (cfg.groups == cfg.layers ==> forall g :: g in m.copied || g in m.loaded ==> g == 0)
  }

  const NOBODY := -1

  ghost function Outgoing(w: World): int { if w.forward then w.s.offloaded else NOBODY }

  ghost function Incoming(cfg: Config, w: World): int
    requires ValidConfig(cfg)
  {
    if w.forward || w.s.currentGroup == 0 then NOBODY else HostedIn(cfg, w)
  }

  ghost predicate StreamInv(cfg: Config, w: World)
    requires ValidConfig(cfg)
  {
    var m := Replay(w.s.log);
    MonitorOk(m, Outgoing(w), Incoming(cfg, w)) && LogCovers(cfg, m, w.s, w.saved)
  }

  // ---------------------------------------------------------------- pushes and pops

  lemma PushKeepsStreams(cfg: Config, w: World, t: Tensor)
    requires Inv(cfg, w) && w.forward && StreamInv(cfg, w)
    ensures StreamInv(cfg, AfterPush(cfg, w, t))
  {
    hide HandlerOk, Replay;
    ReplayOne(w.s.log, Produce(w.s.currentGroup));
  }

  lemma PopKeepsStreams(cfg: Config, w: World, tag: Tag)
    requires Inv(cfg, w) && !w.forward && tag in w.saved && tag.group >= w.s.currentGroup && StreamInv(cfg, w)
    ensures StreamInv(cfg, AfterPop(w, tag))
  {
    hide HandlerOk, Replay;
    ReplayOne(w.s.log, Use(tag.group));
    if w.s.currentGroup > 0 && tag.group in Replay(w.s.log).loaded {
      BegunGroupHasArrived(cfg, w.s.currentGroup, w.s.offloaded, tag.group);
    }
  }

  /** A group is not handed back in the window in which it is still arriving. */
  lemma BegunGroupHasArrived(cfg: Config, c: int, o: int, group: int)
    requires ValidConfig(cfg) && Schedule(cfg, false, c, o) && c > 0 && group >= c
    requires cfg.groups < cfg.layers || group == 0
    ensures group != Hosted(cfg, false, c, o)
  {
  }

  // ---------------------------------------------------------------- what the commits do to the streams

  /** A batch of copies appends an operation only when there is something to copy. */
  lemma SendBatch(m: Monitor, g: int)
    requires MonitorOk(m, g, NOBODY) && g >= 0 && g in m.produced && m.produced[g] <= m.d2h.compute
    ensures MonitorOk(Observe(m, CopyOut(g)), g, NOBODY)
  {
  }

  /** Both waits of a forward window: afterwards nothing is unknown to compute, and the d2h stream
      knows everything compute has produced. */
  lemma ForwardWaits(m: Monitor, outgoing: int)
    requires MonitorOk(m, outgoing, NOBODY)
    ensures var m' := Observe(Observe(m, Wait(D2H, Compute)), Wait(Compute, D2H));
      MonitorOk(m', NOBODY, NOBODY) && m'.d2h.compute >= m'.compute.compute &&
      m'.produced == m.produced && m'.copied == m.copied && m'.loaded == m.loaded &&
      forall g :: g in m.copied ==> m.copied[g] <= m'.compute.d2h
  {
  }

  ghost predicate StreamOk(cfg: Config, s: State, saved: map<Tag, Tensor>, outgoing: int, incoming: int) {
    MonitorOk(Replay(s.log), outgoing, incoming) && LogCovers(cfg, Replay(s.log), s, saved)
  }

  /** Sending a group once the d2h stream has waited for compute. */
  lemma SendKeepsStreams(cfg: Config, s: State, saved: map<Tag, Tensor>, g: int, outgoing: int, made: HostCopies)
    requires StreamOk(cfg, s, saved, outgoing, NOBODY) && (outgoing == NOBODY || outgoing == g) && g >= 0
    requires Replay(s.log).d2h.compute >= Replay(s.log).compute.compute
    requires s.slots.Keys == saved.Keys && made == CopiesOf(s.order, s.slots, g)
    requires cfg.groups < cfg.layers || g == 0 || forall tag :: tag in saved ==> tag.group != g
    ensures StreamOk(cfg, AfterOffload(s, g, made), saved, g, NOBODY)
  {
    hide Replay;
    if made != map[] {
      SomethingToCopy(s, saved, g);
      ReplayOne(s.log, CopyOut(g));
      SendBatch(Replay(s.log), g);
    }
  }

  lemma SomethingToCopy(s: State, saved: map<Tag, Tensor>, g: int)
    requires s.slots.Keys == saved.Keys && CopiesOf(s.order, s.slots, g) != map[]
    ensures exists tag :: tag in saved && tag.group == g
  {
    if forall tag :: !Copied(s.slots, g, tag) {
      NothingToCopy(s.order, s.slots, g);
    } else {
      var tag :| Copied(s.slots, g, tag);
      assert tag in s.slots.Keys;
    }
  }

  lemma KickKeepsStreams(cfg: Config, s: State, saved: map<Tag, Tensor>)
    requires ValidConfig(cfg) && s.slots.Keys == saved.Keys
    requires StreamOk(cfg, s, saved, s.offloaded, NOBODY) && (s.currentGroup == 0 ==> s.offloaded == 0)
    ensures StreamOk(cfg, AfterKick(s), saved, s.offloaded, NOBODY)
  {
    hide Replay, CopiesOf;
    if s.currentGroup == 0 {
      ReplayOne(s.log, Wait(D2H, Compute));
      SendKeepsStreams(cfg, s.(log := s.log + [Wait(D2H, Compute)]), saved, 0, 0, CopiesOf(s.order, s.slots, 0));
    }
  }

  lemma FreeKeepsStreams(cfg: Config, s: State, saved: map<Tag, Tensor>)
    requires StreamOk(cfg, s, saved, s.offloaded, NOBODY)
    ensures StreamOk(cfg, AfterFree(s), saved, NOBODY, NOBODY)
    ensures Replay(AfterFree(s).log).d2h.compute >= Replay(AfterFree(s).log).compute.compute
  {
    hide Replay, Observe, Freed;
    var log1 := s.log + [Wait(D2H, Compute)];
    var log2 := log1 + [Wait(Compute, D2H)];
    ReplayOne(s.log, Wait(D2H, Compute));
    ReplayOne(log1, Wait(Compute, D2H));
    ReplayOne(log2, Drop(s.offloaded));
    assert AfterFree(s).log == log2 + [Drop(s.offloaded)];
    ForwardWaits(Replay(s.log), s.offloaded);
    DropIsSafe(Replay(log2), s.offloaded);
  }

  lemma DropIsSafe(m: Monitor, g: int)
    requires MonitorOk(m, NOBODY, NOBODY)
    ensures Observe(m, Drop(g)) == m
  {
  }

  lemma WindowKeepsStreams(cfg: Config, s: State, saved: map<Tag, Tensor>)
    requires ValidConfig(cfg) && 0 <= s.offloaded < cfg.groups && s.slots.Keys == saved.Keys
    requires StreamOk(cfg, s, saved, s.offloaded, NOBODY)
    requires forall tag :: tag in saved ==> tag.group <= s.currentGroup
    ensures var s' := AfterWindow(cfg, s);
      StreamOk(cfg, s', saved, if s'.offloaded < cfg.groups then s'.offloaded else NOBODY, NOBODY)
  {
    hide StreamOk, CopiesOf, Replay;
    if cfg.windows[s.offloaded] == s.currentGroup {
      FreeKeepsStreams(cfg, s, saved);
      if s.offloaded < cfg.groups - 1 {
        SendKeepsStreams(cfg, AfterFree(s), saved, s.offloaded + 1, NOBODY, CopiesOf(s.order, s.slots, s.offloaded + 1));
        OnlyTheLogMatters(cfg, AfterOffload(AfterFree(s), s.offloaded + 1, CopiesOf(s.order, s.slots, s.offloaded + 1)),
                          AfterSend(s), saved, s.offloaded + 1, NOBODY);
      } else {
        OnlyTheLogMatters(cfg, AfterFree(s), AfterWindow(cfg, s), saved, NOBODY, NOBODY);
      }
    }
  }

  lemma OnlyTheLogMatters(cfg: Config, s: State, s': State, saved: map<Tag, Tensor>, outgoing: int, incoming: int)
    requires StreamOk(cfg, s, saved, outgoing, incoming) && s'.log == s.log && s'.copies == s.copies
    ensures StreamOk(cfg, s', saved, outgoing, incoming)
  {
  }

  lemma ForwardStreams(cfg: Config, s: State, saved: map<Tag, Tensor>)
    requires ValidConfig(cfg) && 0 <= s.offloaded < cfg.groups && (s.currentGroup == 0 ==> s.offloaded == 0)
    requires s.slots.Keys == saved.Keys && StreamOk(cfg, s, saved, s.offloaded, NOBODY)
    requires forall tag :: tag in saved ==> tag.group <= s.currentGroup
    ensures var s' := AfterForward(cfg, s);
      StreamOk(cfg, s', saved, if s'.offloaded < cfg.groups then s'.offloaded else NOBODY, NOBODY)
  {
    hide StreamOk, CopiesOf, Replay, AfterWindow;
    KickKeepsStreams(cfg, s, saved);
    assert AfterKick(s).slots.Keys == saved.Keys;
    WindowKeepsStreams(cfg, AfterKick(s), saved);
    var closed := AfterWindow(cfg, AfterKick(s));
    OnlyTheLogMatters(cfg, closed, AfterForward(cfg, s), saved,
                      if closed.offloaded < cfg.groups then closed.offloaded else NOBODY, NOBODY);
  }

  lemma ForwardKeepsStreams(cfg: Config, w: World)
    requires Inv(cfg, w) && w.forward && StreamInv(cfg, w)
    requires w.s.offloaded in cfg.windows
    ensures StreamInv(cfg, AfterForwardCommit(cfg, w))
  {
    hide MonitorOk, LogCovers, AfterForward, Replay, TagOk;
    NewestGroupNotHosted(cfg, w.s.currentGroup, w.s.offloaded);
    ForwardStreams(cfg, w.s, w.saved);
    ForwardSchedule(cfg, w.s.currentGroup, w.s.offloaded);
    ForwardCounters(cfg, w.s);
    var next := AfterForwardCommit(cfg, w);
    if !next.forward { NothingArrives(Replay(next.s.log), Incoming(cfg, next)); }
  }

  // ---------------------------------------------------------------- backward

  /** Both waits of a backward window: compute knows of all earlier arrivals, and the h2d stream
      knows every host copy is complete. */
  lemma BackwardWaits(m: Monitor, incoming: int)
    requires MonitorOk(m, NOBODY, incoming)
    ensures var m' := Observe(Observe(m, Wait(H2D, Compute)), Wait(Compute, H2D));
      MonitorOk(m', NOBODY, NOBODY) && m'.h2d.d2h >= m.compute.d2h &&
      m'.produced == m.produced && m'.copied == m.copied && m'.loaded == m.loaded &&
      forall g :: g in m.copied ==> m.copied[g] <= m'.h2d.d2h
  {
  }

  lemma FetchBatch(m: Monitor, g: int)
    requires MonitorOk(m, NOBODY, NOBODY) && g in m.copied && m.copied[g] <= m.h2d.d2h
    ensures var m' := Observe(m, CopyIn(g));
      MonitorOk(m', NOBODY, g) && m'.produced == m.produced && m'.copied == m.copied &&
      m'.loaded.Keys == m.loaded.Keys + {g}
  {
  }

  lemma FetchKeepsStreams(cfg: Config, s: State, saved: map<Tag, Tensor>, incoming: int)
    requires StreamOk(cfg, s, saved, NOBODY, incoming) && s.offloaded - 1 in s.copies
    requires cfg.groups == cfg.layers && s.offloaded - 1 != 0 ==> s.copies[s.offloaded - 1] == map[]
    ensures StreamOk(cfg, AfterFetch(s), saved, NOBODY, s.offloaded - 1)
  {
    hide Replay, Observe, MonitorOk;
    var g := s.offloaded - 1;
    var log1 := s.log + [Wait(H2D, Compute)];
    var log2 := log1 + [Wait(Compute, H2D)];
    ReplayOne(s.log, Wait(H2D, Compute));
    ReplayOne(log1, Wait(Compute, H2D));
    BackwardWaits(Replay(s.log), incoming);
    assert s.log + [Wait(H2D, Compute), Wait(Compute, H2D)] == log2;
    if s.copies[g] != map[] {
      ReplayOne(log2, CopyIn(g));
      FetchBatch(Replay(log2), g);
    } else {
      NothingArrives(Replay(log2), g);
    }
  }

  lemma NothingArrives(m: Monitor, incoming: int)
    requires MonitorOk(m, NOBODY, NOBODY)
    ensures MonitorOk(m, NOBODY, incoming)
  {
  }

  /** The last wait of the pass. */
  lemma FinalWait(m: Monitor, incoming: int)
    requires MonitorOk(m, NOBODY, incoming)
    ensures var m' := Observe(m, Wait(Compute, H2D));
      MonitorOk(m', NOBODY, NOBODY) && m'.produced == m.produced && m'.copied == m.copied && m'.loaded == m.loaded
  {
  }

  lemma FinishKeepsStreams(cfg: Config, s: State, saved: map<Tag, Tensor>, incoming: int)
    requires StreamOk(cfg, s, saved, NOBODY, incoming)
    ensures StreamOk(cfg, s.(offloaded := 0, log := s.log + [Wait(Compute, H2D)]), saved, NOBODY, NOBODY)
  {
    hide Replay, Observe, MonitorOk;
    ReplayOne(s.log, Wait(Compute, H2D));
    FinalWait(Replay(s.log), incoming);
  }

  lemma BackwardStreams(cfg: Config, s: State, saved: map<Tag, Tensor>, incoming: int)
    requires s.offloaded - 1 in cfg.windows && StreamOk(cfg, s, saved, NOBODY, incoming)
    requires cfg.windows[s.offloaded - 1] == s.currentGroup - 1 ==>
      s.offloaded - 1 in s.copies &&
      (cfg.groups == cfg.layers && s.offloaded - 1 != 0 ==> s.copies[s.offloaded - 1] == map[])
    ensures StreamOk(cfg, AfterBackward(cfg, s), saved, NOBODY,
      if s.currentGroup == 1 then NOBODY
      else if cfg.windows[s.offloaded - 1] == s.currentGroup - 1 then s.offloaded - 1 else incoming)
  {
    hide StreamOk, Restored;
    var here := s.(currentGroup := s.currentGroup - 1);
    OnlyTheLogMatters(cfg, s, here, saved, NOBODY, incoming);
    if cfg.windows[s.offloaded - 1] == here.currentGroup {
      FetchKeepsStreams(cfg, here, saved, incoming);
      if AfterFetch(here).currentGroup == 0 { FinishKeepsStreams(cfg, AfterFetch(here), saved, s.offloaded - 1); }
    } else if here.currentGroup == 0 {
      FinishKeepsStreams(cfg, here, saved, incoming);
    }
  }

  lemma BackwardKeepsStreams(cfg: Config, w: World)
    requires Inv(cfg, w) && !w.forward && w.s.currentGroup > 0 && StreamInv(cfg, w)
    requires w.s.offloaded - 1 in cfg.windows
    requires cfg.windows[w.s.offloaded - 1] == w.s.currentGroup - 1 ==> w.s.offloaded - 1 in w.s.copies
    ensures StreamInv(cfg, AfterBackwardCommit(cfg, w))
  {
    hide MonitorOk, LogCovers, AfterBackward, Replay, TagOk, Schedule, Hosted;
    BackwardSchedule(cfg, w.s.currentGroup, w.s.offloaded);
    BackwardStreams(cfg, w.s, w.saved, HostedIn(cfg, w));
    BackwardCounters(cfg, w.s);
  }

  // ---------------------------------------------------------------- the main result

  lemma StepKeepsStreams(cfg: Config, w: World, e: Event)
    requires Inv(cfg, w) && Enabled(cfg, w, e) && StreamInv(cfg, w)
    ensures Step(cfg, w, e).Ok? && Inv(cfg, Step(cfg, w, e).value) && StreamInv(cfg, Step(cfg, w, e).value)
  {
    hide Inv, StreamInv, CommitForward, CommitBackward;
    StepKeepsInv(cfg, w, e);
    match e
    case PushTensor(t, managed) =>
      if managed {
        PushKeepsInv(cfg, w, t);
        PushKeepsStreams(cfg, w, t);
      } else {
        UnmanagedKeepsInv(cfg, w, t);
        assert ValidConfig(cfg) by { InvConfig(cfg, w); }
        DirectDoesNotMatter(cfg, w, w.direct[Direct(t) := t]);
      }
    case ForwardCommit => ForwardKeepsInv(cfg, w); ForwardKeepsStreams(cfg, w);
    case BackwardCommit => BackwardKeepsInv(cfg, w); BackwardKeepsStreams(cfg, w);
    case PopHandle(handle) =>
      if handle.Tagged? {
        PopKeepsInv(cfg, w, handle.tag);
        PopKeepsStreams(cfg, w, handle.tag);
      } else {
        UnmanagedKeepsInv(cfg, w, handle.tensor);
      }
    case NextPass => NextPassKeepsInv(cfg, w); NextPassKeepsStreams(cfg, w);
  }

  lemma InvConfig(cfg: Config, w: World)
    requires Inv(cfg, w)
    ensures ValidConfig(cfg)
  {
  }

  lemma DirectDoesNotMatter(cfg: Config, w: World, direct: map<Handle, Tensor>)
    requires ValidConfig(cfg) && StreamInv(cfg, w)
    ensures StreamInv(cfg, w.(direct := direct))
  {
    hide Replay, MonitorOk, LogCovers;
  }

  lemma NextPassKeepsStreams(cfg: Config, w: World)
    requires Inv(cfg, w) && Enabled(cfg, w, NextPass) && StreamInv(cfg, w)
    ensures StreamInv(cfg, w.(forward := true, direct := map[], stores := map[]))
  {
    hide Replay, HandlerOk;
  }

  lemma {:induction false} RunKeepsStreams(cfg: Config, w: World, events: seq<Event>)
    requires Inv(cfg, w) && StreamInv(cfg, w) && Follows(cfg, w, events)
    ensures Run(cfg, w, events).Ok? && Inv(cfg, Run(cfg, w, events).value) && StreamInv(cfg, Run(cfg, w, events).value)
    decreases |events|
  {
    hide Inv, StreamInv, Step, Enabled;
    if events != [] {
      StepKeepsStreams(cfg, w, events[0]);
      RunKeepsStreams(cfg, Step(cfg, w, events[0]).value, events[1..]);
    }
  }

  /** In every run, for any number of passes: each copy out waits for the computation, each buffer is
      dropped only after its copy, each copy in waits for the host copy, and each reloaded tensor is
      used only after it arrived. */
  lemma EveryRunIsStreamSafe(layers: nat, groups: nat, events: seq<Event>, n: nat)
    requires 1 <= groups <= layers
    requires Follows(MakeConfig(layers, groups), START, events)
    ensures var end := Run(MakeConfig(layers, groups), START, events);
      end.Ok? && (n <= |end.value.s.log| ==> Replay(end.value.s.log[..n]).safe)
  {
    var cfg := MakeConfig(layers, groups);
    BuiltScheduleIsValid(layers, groups);
    StartInv(cfg);
    assert StreamInv(cfg, START);
    hide Inv, Follows, Run, MakeConfig, Replay;
    RunKeepsStreams(cfg, START, events);
    var log := Run(cfg, START, events).value.s.log;
    if n <= |log| { SafeLogsHaveSafePrefixes(log, n); }
  }

  /** Offloading all the layers there are, which the constructor's comment allows, sends only the first
      group: every later one is sent one commit before its tensors exist. */
  lemma OffloadingEveryGroupSendsOnlyTheFirst(layers: nat, events: seq<Event>, g: int)
    requires layers >= 1 && Follows(MakeConfig(layers, layers), START, events)
    ensures var end := Run(MakeConfig(layers, layers), START, events);
      end.Ok? && (g in Replay(end.value.s.log).copied ==> g == 0)
  {
    var cfg := MakeConfig(layers, layers);
    BuiltScheduleIsValid(layers, layers);
    StartInv(cfg);
    assert StreamInv(cfg, START);
    hide Inv, Follows, Run, Replay;
    RunKeepsStreams(cfg, START, events);
  }
}
