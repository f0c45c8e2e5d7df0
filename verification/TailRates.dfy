/** What every run of the tracker keeps: tail probabilities, means, and the loads computed from them. */
module TailRates {
  import opened Prelude
  import opened RealArith
  import opened TailStats
  import opened LengthTracker

  // ---------------------------------------------------------------- runs

  datatype Event =
    | Record(keys: seq<int>, lengths: seq<int>, epoch: int)
    | Aggregate(epoch: int)

  function Step(s: State, e: Event, kappa: real, alpha: real): (r: State)
    requires Sound(s)
    ensures Sound(r)
  {
    match e
    case Record(keys, lengths, epoch) =>
      RecordKeepsSound(s, keys, lengths, epoch);
      AfterRecord(s, keys, lengths, epoch)
    case Aggregate(epoch) =>
      AggregateKeepsSound(s, epoch, kappa, alpha);
      AfterAggregate(s, epoch, kappa, alpha)
  }

  function Run(s: State, events: seq<Event>, kappa: real, alpha: real): (r: State)
    requires Sound(s)
    ensures Sound(r)
    decreases events
  {
    if events == [] then s else Run(Step(s, events[0], kappa, alpha), events[1..], kappa, alpha)
  }

  /** A run goes event by event. */
  lemma {:induction false} RunOfConcat(s: State, a: seq<Event>, b: seq<Event>, kappa: real, alpha: real)
    requires Sound(s)
    ensures Run(s, a + b, kappa, alpha) == Run(Run(s, a, kappa, alpha), b, kappa, alpha)
    ensures forall e :: Run(s, [e], kappa, alpha) == Step(s, e, kappa, alpha)
    decreases a
  {
    hide Step;
    if a == [] {
      assert a + b == b;
    } else {
      assert (a + b)[1..] == a[1..] + b;
      RunOfConcat(Step(s, a[0], kappa, alpha), a[1..], b, kappa, alpha);
    }
    forall e ensures Run(s, [e], kappa, alpha) == Step(s, e, kappa, alpha) { assert [e][1..] == []; }
  }

  const EMPTY := State(map[], map[], {})

  /** Lengths a rollout can have. */
  predicate LengthsWithin(lengths: seq<int>, lMax: int) {
    forall i :: 0 <= i < |lengths| ==> 0 <= lengths[i] <= lMax
  }

  ghost predicate EventWithin(e: Event, lMax: int) { e.Record? ==> LengthsWithin(e.lengths, lMax) }

  ghost predicate ListsWithin(h: Lengths, lMax: int) { forall k :: k in h ==> LengthsWithin(h[k], lMax) }

  predicate StatsWithin(p: PromptStats, lMax: int) {
    0.0 <= p.tailProb <= 0.5 && 0.0 <= p.mu <= p.maxLen as real && p.maxLen <= lMax && 0.0 <= p.median
  }

  ghost predicate StateWithin(s: State, lMax: int) {
    (forall e :: e in s.history ==> ListsWithin(s.history[e], lMax))
    && forall k :: k in s.aggregated ==> StatsWithin(s.aggregated[k], lMax)
  }

  lemma {:induction false} AppendedWithin(h: Lengths, keys: seq<int>, lengths: seq<int>, lMax: int)
    requires ListsWithin(h, lMax) && LengthsWithin(lengths, lMax)
    ensures ListsWithin(Appended(h, keys, lengths), lMax)
    decreases keys
  {
    if keys != [] && lengths != [] {
      AppendedWithin(AppendedOne(h, keys[0], lengths[0]), keys[1..], lengths[1..], lMax);
    }
  }

  /** Blending keeps to the half interval. */
  lemma BlendWithin(alpha: real, p: real, t: real)
    requires 0.0 <= alpha <= 1.0 && 0.0 <= p <= 0.5 && 0.0 <= t <= 0.5
    ensures 0.0 <= Blend(alpha, p, t) <= 0.5
  {
    hide Product;
    ScaledOrder(alpha, 0.0, p);
    ScaledOrder(alpha, p, 0.5);
    ScaledOrder(1.0 - alpha, 0.0, t);
    ScaledOrder(1.0 - alpha, t, 0.5);
    ScaledSplits(alpha, 0.0);
    ScaledSplits(alpha, 0.5);
  }

  lemma ScaledOrder(k: real, a: real, b: real)
    requires a <= b && k >= 0.0
    ensures Product(k, a) <= Product(k, b)
  {
    MulOrderLeft(k, a, b);
  }

  lemma ScaledSplits(alpha: real, x: real)
    ensures Product(alpha, x) + Product(1.0 - alpha, x) == x
  {
  }

  lemma StatsStayWithin(lengths: seq<int>, prev: Option<PromptStats>, kappa: real, alpha: real, lMax: int)
    requires lengths != [] && LengthsWithin(lengths, lMax) && kappa >= 1.0 && 0.0 <= alpha <= 1.0
    requires prev.Some? ==> StatsWithin(prev.value, lMax)
    ensures StatsWithin(Stats(lengths, prev, kappa, alpha), lMax)
  {
    hide Median, Mean, TailShare, Blend;
    TailShareAtMostHalf(lengths, kappa);
    MeanBounds(lengths);
    MedianNonNegative(lengths);
    if prev.Some? { BlendWithin(alpha, TailShare(lengths, kappa), prev.value.tailProb); }
  }

  lemma StepStaysWithin(s: State, e: Event, kappa: real, alpha: real, lMax: int)
    requires Sound(s) && StateWithin(s, lMax) && EventWithin(e, lMax) && kappa >= 1.0 && 0.0 <= alpha <= 1.0
    ensures StateWithin(Step(s, e, kappa, alpha), lMax)
  {
    hide Stats, StatsWithin, Appended;
    match e {
      case Record(keys, lengths, epoch) => AppendedWithin(EpochOf(s.history, epoch), keys, lengths, lMax);
      case Aggregate(epoch) =>
        if epoch in s.history {
          forall k | k in s.history[epoch]
            ensures StatsWithin(Stats(s.history[epoch][k], Get(s.aggregated, k), kappa, alpha), lMax)
          {
            StatsStayWithin(s.history[epoch][k], Get(s.aggregated, k), kappa, alpha, lMax);
          }
        }
    }
  }

  /** Over every run from an empty tracker, every stored tail probability stays in [0, 1/2] and every mean in range. */
  lemma {:induction false} RunStaysWithin(s: State, events: seq<Event>, kappa: real, alpha: real, lMax: int)
    requires Sound(s) && StateWithin(s, lMax) && kappa >= 1.0 && 0.0 <= alpha <= 1.0
    requires forall i :: 0 <= i < |events| ==> EventWithin(events[i], lMax)
    ensures StateWithin(Run(s, events, kappa, alpha), lMax)
    decreases events
  {
    hide Step, StateWithin, EventWithin;
    if events != [] {
      StepStaysWithin(s, events[0], kappa, alpha, lMax);
      RunStaysWithin(Step(s, events[0], kappa, alpha), events[1..], kappa, alpha, lMax);
    }
  }

  // ---------------------------------------------------------------- the mean tail rate

  ghost function TailSum(m: map<int, PromptStats>, keys: set<int>): real
    requires keys <= m.Keys
  {
    if keys == {} then 0.0 else
    var k := Pick(keys);
    m[k].tailProb + TailSum(m, keys - {k})
  }

  ghost function Pick<T>(keys: set<T>): (k: T)
    requires keys != {}
    ensures k in keys
  {
    var k :| k in keys;
    k
  }

  /** The sum does not depend on the order of the prompts. */
  lemma {:induction false} TailSumAny(m: map<int, PromptStats>, keys: set<int>, k: int)
    requires keys <= m.Keys && k in keys
    ensures TailSum(m, keys) == m[k].tailProb + TailSum(m, keys - {k})
    decreases keys
  {
    var first := Pick(keys);
    if first != k {
      TailSumAny(m, keys - {first}, k);
      TailSumAny(m, keys - {k}, first);
      assert keys - {first} - {k} == keys - {k} - {first};
    }
  }

  lemma {:induction false} TailSumBounds(m: map<int, PromptStats>, keys: set<int>, lMax: int)
    requires keys <= m.Keys && forall k :: k in m ==> StatsWithin(m[k], lMax)
    ensures 0.0 <= TailSum(m, keys) <= 0.5 * |keys| as real
  {
    if keys != {} {
      var k := Pick(keys);
      TailSumBounds(m, keys - {k}, lMax);
      assert |keys| == |keys - {k}| + 1;
    }
  }

  /** `get_tail_rate`: the mean over all prompts. */
  method GetTailRate(tracker: RolloutLengthTracker) returns (rate: real)
    ensures tracker.aggregated == map[] ==> rate == 0.0
    ensures rate * |tracker.aggregated| as real == TailSum(tracker.aggregated, tracker.aggregated.Keys)
  {
    hide TailSum;
    var m := tracker.aggregated;
    if m == map[] {
      TailSumNone(m);
      return 0.0;
    }
    var sum, left := 0.0, m.Keys;
    while left != {}
      invariant left <= m.Keys && sum + TailSum(m, left) == TailSum(m, m.Keys)
      decreases |left|
    {
      var k := AnyKey(left);
      TailSumAny(m, left, k);
      sum := sum + m[k].tailProb;
      left := left - {k};
    }
    TailSumNone(m);
    Counted(m);
    QuotientTimes(sum, |m| as real);
    return sum / |m| as real;
  }

  lemma TailSumNone(m: map<int, PromptStats>)
    ensures TailSum(m, {}) == 0.0
  {
  }

  lemma Counted<T>(m: map<int, T>)
    requires m != map[]
    ensures |m| > 0
  {
  }

  /** The mean of a state within bounds is in the half interval too. */
  lemma MeanRateWithin(m: map<int, PromptStats>, lMax: int, rate: real)
    requires m != map[] && forall k :: k in m ==> StatsWithin(m[k], lMax)
    requires rate * |m| as real == TailSum(m, m.Keys)
    ensures 0.0 <= rate <= 0.5
  {
    hide TailSum;
    Counted(m);
    TailSumBounds(m, m.Keys, lMax);
    assert |m.Keys| == |m|;
    LessByProduct(0.0, rate, |m| as real);
    LessByProduct(rate, 0.5, |m| as real);
  }

  // ---------------------------------------------------------------- effective load

  /** The expected length when a share t of the rollouts is as long as the tail. */
  function Mix(t: real, m: real, tail: real): real { Product(1.0 - t, m) + Product(t, tail) }

  function Midway(a: real, b: real): real { (a + b) / 2.0 }

  /** `_compute_effective_load`; `mu or 0.0` for a prompt without history. */
  function EffectiveLoad(rollouts: nat, mu: Option<real>, tailProb: real, kappa: real, lMax: int): real {
    var m := if mu.Some? then mu.value else 0.0;
    Product(rollouts as real, if tailProb > 0.0 then Mix(tailProb, m, Least(Product(kappa, m), lMax as real)) else m)
  }

  lemma MixBetween(t: real, m: real, tail: real)
    requires m <= tail && 0.0 <= t <= 0.5
    ensures m <= Mix(t, m, tail) <= Midway(m, tail)
  {
    var d := tail - m;
    MulOrder(0.0, t, d);
    MulOrder(t, 0.5, d);
    MixIs(t, m, d);
  }

  lemma MixIs(t: real, m: real, d: real)
    ensures Mix(t, m, m + d) == m + t * d
  {
  }

  /** The load lies between the plain expected work and half-way to the tail, when the mean is within the limit. */
  lemma EffectiveLoadBounds(rollouts: nat, mu: real, tailProb: real, kappa: real, lMax: int)
    requires 0.0 <= tailProb <= 0.5 && 0.0 <= mu <= lMax as real && kappa >= 1.0
    ensures var load, tail := EffectiveLoad(rollouts, Some(mu), tailProb, kappa, lMax), Least(Product(kappa, mu), lMax as real);
      Product(rollouts as real, mu) <= load <= Product(rollouts as real, Midway(mu, tail))
  {
    hide Mix;
    MulOrder(1.0, kappa, mu);
    var tail := Least(Product(kappa, mu), lMax as real);
    hide Product;
    MixBetween(tailProb, mu, tail);
    var expected := if tailProb > 0.0 then Mix(tailProb, mu, tail) else mu;
    ScaledOrder(rollouts as real, mu, expected);
    ScaledOrder(rollouts as real, expected, Midway(mu, tail));
  }

  /** A tail share never lowers the load exactly when the mean is within the limit. */
  lemma LoadKeepsExpected(rollouts: nat, mu: real, tailProb: real, kappa: real, lMax: int)
    requires rollouts > 0 && 0.0 < tailProb && 0.0 <= mu && kappa >= 1.0
    ensures Product(rollouts as real, mu) <= EffectiveLoad(rollouts, Some(mu), tailProb, kappa, lMax) <==> mu <= lMax as real
  {
    hide Mix;
    MulOrder(1.0, kappa, mu);
    var tail := Least(Product(kappa, mu), lMax as real);
    hide Product;
    MixSide(tailProb, mu, tail);
    if mu <= lMax as real {
      ScaledOrder(rollouts as real, mu, Mix(tailProb, mu, tail));
    } else {
      ScaledStrict(rollouts as real, Mix(tailProb, mu, tail), mu);
    }
  }

  lemma MixSide(t: real, m: real, tail: real)
    requires t > 0.0
    ensures m <= Mix(t, m, tail) <==> m <= tail
  {
    var d := tail - m;
    MixIs(t, m, d);
    if d >= 0.0 { MulOrderLeft(t, 0.0, d); } else { StrictOrder(d, 0.0, t); }
  }

  lemma ScaledStrict(k: real, a: real, b: real)
    requires a < b && k > 0.0
    ensures Product(k, a) < Product(k, b)
  {
    StrictOrder(a, b, k);
  }

  lemma MixAdds(t: real, m: real, tail: real)
    ensures Mix(t, m, tail) == m + Product(t, tail - m)
    ensures Mix(0.0, m, tail) == m
  {
    MixIs(t, m, tail - m);
  }

  /** The load is the expected work, and on top the tail share of what the tail exceeds the mean by.  The tail is
      `kappa` times the mean, cut off at the limit. */
  lemma LoadAddsTail(rollouts: nat, mu: real, tailProb: real, kappa: real, lMax: int)
    requires tailProb >= 0.0
    ensures var tail := if Product(kappa, mu) <= lMax as real then Product(kappa, mu) else lMax as real;
      EffectiveLoad(rollouts, Some(mu), tailProb, kappa, lMax) == Product(rollouts as real, mu + Product(tailProb, tail - mu))
  {
    hide Product, Mix;
    MixAdds(tailProb, mu, Least(Product(kappa, mu), lMax as real));
  }

  lemma TimesNothing(a: real)
    ensures Product(a, 0.0) == 0.0
  {
  }

  /** Without history there is none. */
  lemma NoHistoryNoLoad(rollouts: nat, tailProb: real, kappa: real, lMax: nat)
    ensures EffectiveLoad(rollouts, None, tailProb, kappa, lMax) == 0.0
  {
    hide Product, Mix;
    TimesNothing(kappa);
    TimesNothing(tailProb);
    TimesNothing(rollouts as real);
    MixAdds(tailProb, 0.0, 0.0);
  }

  /** From a run of the tracker to the load of any prompt it knows. */
  lemma LoadAfterRun(events: seq<Event>, kappa: real, alpha: real, lMax: int, rollouts: nat, key: int)
    requires kappa >= 1.0 && 0.0 <= alpha <= 1.0
    requires forall i :: 0 <= i < |events| ==> EventWithin(events[i], lMax)
    requires key in Run(EMPTY, events, kappa, alpha).aggregated
    ensures var p := Run(EMPTY, events, kappa, alpha).aggregated[key];
      var load, tail := EffectiveLoad(rollouts, Some(p.mu), p.tailProb, kappa, lMax), Least(Product(kappa, p.mu), lMax as real);
      Product(rollouts as real, p.mu) <= load <= Product(rollouts as real, Midway(p.mu, tail))
  {
    hide Run, EffectiveLoad, Product, Least, Midway;
    RunStaysWithin(EMPTY, events, kappa, alpha, lMax);
    var p := Run(EMPTY, events, kappa, alpha).aggregated[key];
    assert StatsWithin(p, lMax);
    EffectiveLoadBounds(rollouts, p.mu, p.tailProb, kappa, lMax);
  }
}
