/** The offload schedule: when each of the offloaded groups must have left the device. */
module OffloadWindow {

  /** The schedule's entry for group j when `groups` of `layers` layers are offloaded. */
  function Window(layers: nat, groups: nat, j: nat): (w: int)
    requires groups > 0
  {
    (layers / groups) * (j + 1) - 1 + if j < layers % groups then j + 1 else layers % groups
  }

  /** The loop of the constructor, with its running `constant`. */
  method BuildWindowMap(layers: nat, groups: nat) returns (windows: map<int, int>)
    ensures forall j :: j in windows <==> 0 <= j < groups
    ensures forall j :: 0 <= j < groups ==> windows[j] == Window(layers, groups, j)
  {
    windows := map[];
    var constant := 0;
    for i := 0 to groups
      invariant forall j :: j in windows <==> 0 <= j < i
      invariant forall j :: 0 <= j < i ==> windows[j] == Window(layers, groups, j)
      invariant groups > 0 ==> constant == if i < layers % groups then i else layers % groups
    {
      windows := windows[i := (layers / groups) * (i + 1) - 1];
      if i < layers % groups {
        windows := windows[i := windows[i] + i + 1];
        constant := i + 1;
      } else {
        windows := windows[i := windows[i] + constant];
      }
    }
  }

  lemma NextWindow(layers: nat, groups: nat, j: nat)
    requires 1 <= groups <= layers
    ensures Window(layers, groups, j) < Window(layers, groups, j + 1)
  {
    assert layers / groups >= 1;
    assert (layers / groups) * (j + 2) == (layers / groups) * (j + 1) + layers / groups;
  }

  /** The windows share out the layers: each has layers / groups of them, and the first layers % groups have one more. */
  lemma WindowSizes(layers: nat, groups: nat, j: nat)
    requires groups > 0
    ensures Window(layers, groups, 0) + 1 == WindowSize(layers, groups, 0)
    ensures Window(layers, groups, j + 1) - Window(layers, groups, j) == WindowSize(layers, groups, j + 1)
  {
    assert (layers / groups) * (j + 2) == (layers / groups) * (j + 1) + layers / groups;
  }

  function WindowSize(layers: nat, groups: nat, j: nat): nat
    requires groups > 0
  {
    layers / groups + if j < layers % groups then 1 else 0
  }

  /** The schedule is strictly increasing. */
  lemma {:induction false} WindowIncreasing(layers: nat, groups: nat, i: nat, j: nat)
    requires 1 <= groups <= layers && i < j
    ensures Window(layers, groups, i) < Window(layers, groups, j)
    decreases j - i
  {
    NextWindow(layers, groups, j - 1);
    if i < j - 1 {
      WindowIncreasing(layers, groups, i, j - 1);
    }
  }

  /** The last group leaves the device exactly at the last layer. */
  lemma WindowEndsAtLastLayer(layers: nat, groups: nat)
    requires groups > 0
    ensures Window(layers, groups, groups - 1) == layers - 1
  {
    assert layers == groups * (layers / groups) + layers % groups;
  }

  /** Group j is never scheduled before its own layer, and after it as soon as one group stays on the device. */
  lemma WindowNotEarly(layers: nat, groups: nat, j: nat)
    requires 1 <= groups <= layers && j < groups
    ensures Window(layers, groups, j) >= j
    ensures groups < layers ==> Window(layers, groups, j) >= j + 1
    ensures groups == layers ==> Window(layers, groups, j) == j
    ensures groups + 1 == layers ==> Window(layers, groups, j) == j + 1
  {
    var q, r := layers / groups, layers % groups;
    assert layers == groups * q + r;
    if q == 1 {
      assert r == layers - groups;
    } else {
      assert q * (j + 1) >= 2 * (j + 1);
      if groups + 1 == layers {
        assert groups * q >= groups * 2;
        assert groups == 1;
      }
      assert groups < layers by { assert groups * q >= groups * 2; }
    }
  }

  /** Group j+1 starts to leave at commit Window(j).  All its tensors exist by then, for every j,
      exactly when some group stays on the device (or there is no second group at all). */
  lemma OffloadedGroupsAreComplete(layers: nat, groups: nat)
    requires 1 <= groups <= layers
    ensures (forall j: nat :: j < groups - 1 ==> Window(layers, groups, j) >= j + 1)
      <==> groups < layers || groups == 1
  {
    if groups < layers {
      forall j: nat | j < groups - 1 ensures Window(layers, groups, j) >= j + 1 {
        WindowNotEarly(layers, groups, j);
      }
    } else if groups > 1 {
      WindowNotEarly(layers, groups, 0);
    }
  }
}
