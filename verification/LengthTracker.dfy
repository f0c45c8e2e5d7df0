/** The response-length tracker: raw history per epoch, aggregated statistics per prompt. */
module LengthTracker {
  import opened Prelude
  import opened RealArith
  import opened TailStats

  datatype PromptStats = PromptStats(mu: real, maxLen: int, median: real, tailProb: real)

  type Lengths = map<int, seq<int>>
  type History = map<int, Lengths>

  // ---------------------------------------------------------------- one call, on values

  /** `epoch_history[key].append(length)` for each pair; the shorter array decides. */
  function Appended(h: Lengths, keys: seq<int>, lengths: seq<int>): Lengths
    decreases keys
  {
    if keys == [] || lengths == [] then h else
    Appended(AppendedOne(h, keys[0], lengths[0]), keys[1..], lengths[1..])
  }

  function AppendedOne(h: Lengths, key: int, length: int): Lengths {
    h[key := (if key in h then h[key] else []) + [length]]
  }

  lemma AppendedStep(h: Lengths, keys: seq<int>, lengths: seq<int>, i: nat)
    requires i <= |keys| && i <= |lengths|
    ensures Appended(h, keys[i..], lengths[i..]) == if i == |keys| || i == |lengths| then h else
      Appended(AppendedOne(h, keys[i], lengths[i]), keys[i + 1..], lengths[i + 1..])
  {
    hide AppendedOne;
    if i < |keys| && i < |lengths| {
      assert keys[i..][1..] == keys[i + 1..] && lengths[i..][1..] == lengths[i + 1..];
    }
  }

  function EpochOf(history: History, epoch: int): Lengths {
    if epoch in history then history[epoch] else map[]
  }

  function Recorded(history: History, keys: seq<int>, lengths: seq<int>, epoch: int): History {
    history[epoch := Appended(EpochOf(history, epoch), keys, lengths)]
  }

  function Blend(alpha: real, p: real, before: real): real { Product(alpha, p) + Product(1.0 - alpha, before) }

  /** One prompt's new statistics: the tail share is blended into what was there. */
  function Stats(lengths: seq<int>, prev: Option<PromptStats>, kappa: real, alpha: real): PromptStats
    requires lengths != []
  {
    var p := TailShare(lengths, kappa);
    PromptStats(Mean(lengths), Longest(lengths), Median(lengths),
                if prev.Some? then Blend(alpha, p, prev.value.tailProb) else p)
  }

  function Get<T>(m: map<int, T>, key: int): (r: Option<T>)
    ensures key !in m ==> r == None
    ensures key in m ==> r == Some(m[key])
  {
    if key in m then Some(m[key]) else None
  }

  /** Every list was made by an append. */
  predicate NoEmptyLists(h: Lengths) { forall k :: k in h ==> h[k] != [] }

  /** The statistics once the prompts in `done` have been gone through. */
  function Updated(aggregated: map<int, PromptStats>, h: Lengths, done: set<int>, kappa: real, alpha: real): map<int, PromptStats>
    requires NoEmptyLists(h) && done <= h.Keys
  {
    map k | k in aggregated.Keys + done ::
      if k in done then Stats(h[k], Get(aggregated, k), kappa, alpha) else aggregated[k]
  }

  lemma UpdatedNone(aggregated: map<int, PromptStats>, h: Lengths, kappa: real, alpha: real)
    requires NoEmptyLists(h)
    ensures Updated(aggregated, h, {}, kappa, alpha) == aggregated
  {
  }

  lemma UpdatedNext(aggregated: map<int, PromptStats>, h: Lengths, done: set<int>, key: int, kappa: real, alpha: real)
    requires NoEmptyLists(h) && done <= h.Keys && key in h && key !in done
    ensures Get(Updated(aggregated, h, done, kappa, alpha), key) == Get(aggregated, key)
    ensures Updated(aggregated, h, done + {key}, kappa, alpha) ==
      Updated(aggregated, h, done, kappa, alpha)[key := Stats(h[key], Get(aggregated, key), kappa, alpha)]
  {
    hide Stats;
  }

  function Aggregated(aggregated: map<int, PromptStats>, h: Lengths, kappa: real, alpha: real): map<int, PromptStats>
    requires NoEmptyLists(h)
  {
    Updated(aggregated, h, h.Keys, kappa, alpha)
  }

  function Pruned(history: History, epoch: int): History {
    map e | e in history && e >= epoch - 1 :: history[e]
  }

  /** The tracker's fields. */
  datatype State = State(history: History, aggregated: map<int, PromptStats>, epochs: set<int>)

  ghost predicate Sound(s: State) { forall e :: e in s.history ==> NoEmptyLists(s.history[e]) }

  function AfterAggregate(s: State, epoch: int, kappa: real, alpha: real): State
    requires Sound(s)
  {
    if epoch !in s.history then s else
    State(Pruned(s.history, epoch), Aggregated(s.aggregated, s.history[epoch], kappa, alpha), s.epochs + {epoch})
  }

  function AfterRecord(s: State, keys: seq<int>, lengths: seq<int>, epoch: int): State {
    s.(history := Recorded(s.history, keys, lengths, epoch))
  }

  /** Number i of the pairs goes to its prompt, after the earlier ones of that prompt. */
  lemma {:induction false} PairIsAppended(keys: seq<int>, lengths: seq<int>, i: nat)
    requires i < |keys| && i < |lengths|
    ensures var before := |LengthsFor(keys[..i], lengths, keys[i])|;
      before < |LengthsFor(keys, lengths, keys[i])| && LengthsFor(keys, lengths, keys[i])[before] == lengths[i]
  {
    if i > 0 {
      PairIsAppended(keys[1..], lengths[1..], i - 1);
      assert keys[..i][1..] == keys[1..][..i - 1];
    }
  }

  lemma {:induction false} AppendedKeeps(h: Lengths, keys: seq<int>, lengths: seq<int>)
    requires NoEmptyLists(h)
    ensures NoEmptyLists(Appended(h, keys, lengths))
    decreases keys
  {
    if keys != [] && lengths != [] {
      AppendedKeeps(AppendedOne(h, keys[0], lengths[0]), keys[1..], lengths[1..]);
    }
  }

  function ListOf(h: Lengths, key: int): seq<int> {
    if key in h then h[key] else []
  }

  /** The lengths that come with one key, in order. */
  function LengthsFor(keys: seq<int>, lengths: seq<int>, key: int): seq<int> {
    if keys == [] || lengths == [] then [] else
    (if keys[0] == key then [lengths[0]] else []) + LengthsFor(keys[1..], lengths[1..], key)
  }

  /** Recording appends to every prompt exactly its own lengths, in order. */
  lemma {:induction false} AppendedCollects(h: Lengths, keys: seq<int>, lengths: seq<int>, key: int)
    ensures ListOf(Appended(h, keys, lengths), key) == ListOf(h, key) + LengthsFor(keys, lengths, key)
    decreases keys
  {
    if keys == [] || lengths == [] {
      assert ListOf(h, key) + [] == ListOf(h, key);
    } else {
      AppendedCollects(AppendedOne(h, keys[0], lengths[0]), keys[1..], lengths[1..], key);
      assert ListOf(AppendedOne(h, keys[0], lengths[0]), key) ==
        ListOf(h, key) + if keys[0] == key then [lengths[0]] else [];
    }
  }

  /** What remains after aggregating an epoch: that epoch and the one before it, at most, of those up to it, and
      every newer one, all untouched.  After the newest epoch that is two at most. */
  lemma PruningKeepsTwoEpochs(history: History, epoch: int)
    ensures var left := Pruned(history, epoch);
      (forall e :: e in history && e >= epoch - 1 ==> e in left)
      && (forall e :: e in left ==> e in history && left[e] == history[e])
      && |set e | e in left && e <= epoch| <= 2
      && ((forall e :: e in history ==> e <= epoch) ==> |left| <= 2)
  {
    var left := Pruned(history, epoch);
    SubsetSize(set e | e in left && e <= epoch, {epoch - 1, epoch});
    if forall e :: e in history ==> e <= epoch {
      SubsetSize(left.Keys, {epoch - 1, epoch});
      assert |left| == |left.Keys|;
    }
  }

  lemma {:induction false} SubsetSize<T>(a: set<T>, b: set<T>)
    requires a <= b
    ensures |a| <= |b|
    decreases a
  {
    if a != {} {
      var x :| x in a;
      SubsetSize(a - {x}, b - {x});
    }
  }

  lemma RecordKeepsSound(s: State, keys: seq<int>, lengths: seq<int>, epoch: int)
    requires Sound(s)
    ensures Sound(AfterRecord(s, keys, lengths, epoch))
  {
    AppendedKeeps(EpochOf(s.history, epoch), keys, lengths);
  }

  lemma AggregateKeepsSound(s: State, epoch: int, kappa: real, alpha: real)
    requires Sound(s)
    ensures Sound(AfterAggregate(s, epoch, kappa, alpha))
  {
  }

  /** What aggregating an epoch stores for each of its prompts: the statistics of exactly its lengths in that epoch,
      the tail share moved by `alpha` of the way from what was there.  Other prompts keep theirs. */
  lemma AggregateStores(s: State, epoch: int, kappa: real, alpha: real, key: int)
    requires Sound(s) && epoch in s.history
    ensures var after := AfterAggregate(s, epoch, kappa, alpha).aggregated;
      key !in s.history[epoch] ==> Get(after, key) == Get(s.aggregated, key)
    ensures var after := AfterAggregate(s, epoch, kappa, alpha).aggregated;
      key in s.history[epoch] ==> key in after && IsStatistics(s.history[epoch][key], kappa, alpha, Get(s.aggregated, key), after[key])
  {
    hide Mean, Longest, Median, TailShare, IsMean, IsLongest, IsMedian, IsTailShare, Product;
    if key in s.history[epoch] {
      StatisticsAre(s.history[epoch][key], kappa);
      if key in s.aggregated {
        BlendMoves(alpha, TailShare(s.history[epoch][key], kappa), s.aggregated[key].tailProb);
      }
    }
  }

  ghost predicate IsStatistics(lengths: seq<int>, kappa: real, alpha: real, before: Option<PromptStats>, p: PromptStats) {
    lengths != [] && IsMean(lengths, p.mu) && IsLongest(lengths, p.maxLen) && IsMedian(lengths, p.median)
    && (exists share: real :: IsTailShare(lengths, kappa, share) && Moved(alpha, share, before, p.tailProb))
  }

  /** From what was there, the part `alpha` of the way to the new share; the share itself if nothing was. */
  ghost predicate Moved(alpha: real, share: real, before: Option<PromptStats>, after: real) {
    if before.None? then after == share
    else after - before.value.tailProb == Product(alpha, share - before.value.tailProb)
  }

  /** Blending goes the part `alpha` of the way to the new share. */
  lemma BlendMoves(alpha: real, p: real, before: real)
    ensures Blend(alpha, p, before) - before == Product(alpha, p - before)
  {
  }

  function Blended(alpha: real, shares: seq<real>, before: real): real {
    if shares == [] then before else Blended(alpha, shares[1..], Blend(alpha, shares[0], before))
  }

  function Power(x: real, n: nat): real { if n == 0 then 1.0 else Product(x, Power(x, n - 1)) }

  /** What was there before n aggregations still counts (1 - alpha)^n. */
  lemma {:induction false} BlendForgets(alpha: real, shares: seq<real>, x: real, y: real)
    ensures Blended(alpha, shares, x) - Blended(alpha, shares, y) == Product(Power(1.0 - alpha, |shares|), x - y)
  {
    if shares != [] {
      hide Blend, Product;
      BlendForgets(alpha, shares[1..], Blend(alpha, shares[0], x), Blend(alpha, shares[0], y));
      BlendsDiffer(alpha, shares[0], x, y);
      ProductsAssociate(Power(1.0 - alpha, |shares| - 1), 1.0 - alpha, x - y);
    } else {
      ProductOfOne(x - y);
    }
  }

  lemma BlendsDiffer(alpha: real, p: real, x: real, y: real)
    ensures Blend(alpha, p, x) - Blend(alpha, p, y) == Product(1.0 - alpha, x - y)
  {
  }

  lemma ProductsAssociate(a: real, b: real, c: real)
    ensures Product(a, Product(b, c)) == Product(Product(b, a), c)
  {
  }

  lemma ProductOfOne(x: real)
    ensures Product(1.0, x) == x
  {
  }

  /** Recording adds to each prompt of the epoch its lengths, in order, and changes no other epoch. */
  lemma RecordStores(history: History, keys: seq<int>, lengths: seq<int>, epoch: int, e: int, key: int)
    ensures ListOf(EpochOf(Recorded(history, keys, lengths, epoch), e), key) ==
      ListOf(EpochOf(history, e), key) + if e == epoch then LengthsFor(keys, lengths, key) else []
  {
    AppendedCollects(EpochOf(history, epoch), keys, lengths, key);
  }

  // ---------------------------------------------------------------- the class

  /** Dictionaries are gone through in some order. */
  method AnyKey<T>(keys: set<T>) returns (key: T)
    requires keys != {}
    ensures key in keys
  {
    key :| key in keys;
  }

  class RolloutLengthTracker {
    const lMax: int
    const emaAlpha: real
    const kappa: real
    var history: History
    var aggregated: map<int, PromptStats>
    var aggregatedEpochs: set<int>

    ghost function Now(): State
      reads this
    {
      State(history, aggregated, aggregatedEpochs)
    }

    ghost predicate Valid()
      reads this
    {
      Sound(Now())
    }

    constructor (lMax: int, emaAlpha: real, kappa: real)
      ensures Valid() && Now() == State(map[], map[], {})
      ensures this.lMax == lMax && this.emaAlpha == emaAlpha && this.kappa == kappa
    {
      this.lMax, this.emaAlpha, this.kappa := lMax, emaAlpha, kappa;
      history, aggregated, aggregatedEpochs := map[], map[], {};
    }

    method RecordStep(keys: seq<int>, lengths: seq<int>, epoch: int)
      requires Valid()
      modifies `history
      ensures Valid() && Now() == AfterRecord(old(Now()), keys, lengths, epoch)
    {
      hide Appended, AppendedOne, NoEmptyLists;
      RecordKeepsSound(Now(), keys, lengths, epoch);
      assert keys[0..] == keys && lengths[0..] == lengths;
      if epoch !in history { history := history[epoch := map[]]; }
      ghost var start := history[epoch];
      var i := 0;
      while i < |keys| && i < |lengths|
        invariant 0 <= i <= |keys| && i <= |lengths|
        invariant epoch in history && history == old(history)[epoch := history[epoch]]
        invariant Appended(history[epoch], keys[i..], lengths[i..]) == Appended(start, keys, lengths)
      {
        AppendedStep(history[epoch], keys, lengths, i);
        history := history[epoch := AppendedOne(history[epoch], keys[i], lengths[i])];
        i := i + 1;
      }
      AppendedStep(history[epoch], keys, lengths, i);
    }

    method AggregateEpoch(epoch: int)
      requires Valid()
      modifies this
      ensures Valid() && Now() == AfterAggregate(old(Now()), epoch, kappa, emaAlpha)
      ensures epoch !in old(history) ==> Now() == old(Now())
      ensures epoch in old(history) ==> forall e :: e in aggregatedEpochs <==> e in old(aggregatedEpochs) || e == epoch
    {
      hide Median, CountAbove, Product, Fraction, Mean, Longest, Blend, Updated;
      AggregateKeepsSound(Now(), epoch, kappa, emaAlpha);
      if epoch !in history { return; }
      aggregatedEpochs := aggregatedEpochs + {epoch};
      var h := history[epoch];
      var left := h.Keys;
      assert h.Keys - left == {};
      UpdatedNone(aggregated, h, kappa, emaAlpha);
      while left != {}
        invariant left <= h.Keys && history == old(history)
        invariant aggregatedEpochs == old(aggregatedEpochs) + {epoch}
        invariant aggregated == Updated(old(aggregated), h, h.Keys - left, kappa, emaAlpha)
        decreases |left|
      {
        var key := AnyKey(left);
        UpdatedNext(old(aggregated), h, h.Keys - left, key, kappa, emaAlpha);
        assert h.Keys - left + {key} == h.Keys - (left - {key});
        var lengths := h[key];
        var med := Median(lengths);
        var nTail := CountAbove(lengths, Product(kappa, med));
        var pEma := Fraction(nTail, |lengths|);
        if key in aggregated { pEma := Blend(emaAlpha, pEma, aggregated[key].tailProb); }
        aggregated := aggregated[key := PromptStats(Mean(lengths), Longest(lengths), med, pEma)];
        left := left - {key};
      }
      assert h.Keys - left == h.Keys;
      history := map e | e in history && !(e < epoch - 1) :: history[e];
    }
  }
}
