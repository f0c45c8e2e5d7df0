/** Absorbing activation-aware scales into an operation and the linear layers behind it. */
module AwqScale {
  import opened Prelude
  import opened RealArith
  import opened RtnModel

  type Vector = seq<real>

  /** The operation in front: a normalisation's vector, a linear layer's matrix, or anything else. */
  datatype Op =
    | Norm(gain: Vector, shift: Option<Vector>)
    | Dense(weight: Matrix, bias: Option<Vector>)
    | Opaque

  // ---------------------------------------------------------------- values

  function Scaled(row: Vector, scales: Vector): (r: Vector)
    requires |row| == |scales|
    ensures |r| == |row| && forall i :: 0 <= i < |row| ==> r[i] == Product(row[i], scales[i])
  {
    seq(|row|, i requires 0 <= i < |row| => Product(row[i], scales[i]))
  }

  ghost predicate NonZero(scales: Vector) { forall i :: 0 <= i < |scales| ==> scales[i] != 0.0 }

  function Divided(row: Vector, scales: Vector): (r: Vector)
    requires |row| == |scales| && NonZero(scales)
    ensures |r| == |row| && forall i :: 0 <= i < |row| ==> r[i] == Quotient(row[i], scales[i])
  {
    seq(|row|, i requires 0 <= i < |row| => Quotient(row[i], scales[i]))
  }

  function DividedBias(bias: Option<Vector>, scales: Vector): Option<Vector>
    requires NonZero(scales) && (bias.Some? ==> |bias.value| == |scales|)
  {
    if bias.Some? then Some(Divided(bias.value, scales)) else None
  }

  ghost predicate FitsOutput(op: Op, n: nat) {
    match op
    case Norm(gain, shift) => |gain| == n && (shift.Some? ==> |shift.value| == n)
    case Dense(weight, bias) => |weight| == n && (bias.Some? ==> |bias.value| == n)
    case Opaque => true
  }

  ghost predicate FitsInput(op: Op, n: nat) {
    op.Dense? && forall o :: 0 <= o < |op.weight| ==> |op.weight[o]| == n
  }

  /** Every row divided by its own scale: the output dimension of a linear layer. */
  function DividedRows(w: Matrix, scales: Vector): (r: Matrix)
    requires |w| == |scales| && NonZero(scales)
    ensures |r| == |w| && forall c :: 0 <= c < |w| ==> r[c] == DividedRow(w[c], scales[c])
  {
    seq(|w|, c requires 0 <= c < |w| => DividedRow(w[c], scales[c]))
  }

  function DividedRow(row: Vector, s: real): (r: Vector)
    requires s != 0.0
    ensures |r| == |row| && forall i :: 0 <= i < |row| ==> r[i] == Quotient(row[i], s)
  {
    seq(|row|, i requires 0 <= i < |row| => Quotient(row[i], s))
  }

  function DividedOp(op: Op, scales: Vector): Op
    requires NonZero(scales) && FitsOutput(op, |scales|)
  {
    match op
    case Norm(gain, shift) => Norm(Divided(gain, scales), DividedBias(shift, scales))
    case Dense(weight, bias) => Dense(DividedRows(weight, scales), DividedBias(bias, scales))
    case Opaque => Opaque
  }

  function ScaledRows(w: Matrix, scales: Vector): (r: Matrix)
    requires forall o :: 0 <= o < |w| ==> |w[o]| == |scales|
    ensures |r| == |w| && forall o :: 0 <= o < |w| ==> r[o] == Scaled(w[o], scales)
  {
    seq(|w|, o requires 0 <= o < |w| => Scaled(w[o], scales))
  }

  /** The input dimension of a linear layer behind. */
  function ScaledInput(op: Op, scales: Vector): Op
    requires FitsInput(op, |scales|)
  {
    Dense(ScaledRows(op.weight, scales), op.bias)
  }

  // ---------------------------------------------------------------- in place

  class Module {
    var op: Op

    constructor (op: Op)
      ensures this.op == op
    {
      this.op := op;
    }
  }

  /** `_apply_awq_scale`. */
  method ApplyAwqScale(prev: Module, linears: seq<Module>, scales: Vector)
    requires NonZero(scales) && FitsOutput(prev.op, |scales|)
    requires forall k :: 0 <= k < |linears| ==> FitsInput(linears[k].op, |scales|)
    requires prev !in linears && forall j, k :: 0 <= j < k < |linears| ==> linears[j] != linears[k]
    modifies prev`op, set k | 0 <= k < |linears| :: linears[k]`op
    ensures prev.op == DividedOp(old(prev.op), scales) && (old(prev.op).Opaque? ==> prev.op == old(prev.op))
    ensures forall k :: 0 <= k < |linears| ==> old(FitsInput(linears[k].op, |scales|))
    ensures forall k :: 0 <= k < |linears| ==> linears[k].op == ScaledInput(old(linears[k].op), scales)
  {
    match prev.op {
      case Norm(gain, shift) =>
        prev.op := Norm(Divided(gain, scales), shift);
        if shift.Some? { prev.op := prev.op.(shift := Some(Divided(shift.value, scales))); }
      case Dense(weight, bias) =>
        prev.op := Dense(DividedRows(weight, scales), bias);
        if bias.Some? { prev.op := prev.op.(bias := Some(Divided(bias.value, scales))); }
      case Opaque =>
    }
    var k := 0;
    while k < |linears|
      invariant 0 <= k <= |linears| && prev.op == DividedOp(old(prev.op), scales)
      invariant forall j :: 0 <= j < k ==> linears[j].op == ScaledInput(old(linears[j].op), scales)
      invariant forall j :: k <= j < |linears| ==> linears[j].op == old(linears[j].op)
    {
      var fc := linears[k];
      fc.op := ScaledInput(fc.op, scales);
      k := k + 1;
    }
  }

  // ---------------------------------------------------------------- meaning

  function BiasAt(bias: Option<Vector>, c: nat): (b: real)
    requires bias.Some? ==> c < |bias.value|
    ensures bias.None? ==> b == 0.0
    ensures bias.Some? ==> b == bias.value[c]
  {
    if bias.Some? then bias.value[c] else 0.0
  }

  ghost predicate Accepts(op: Op, n: nat, x: Vector) {
    !op.Opaque? && FitsOutput(op, n) && (op.Norm? ==> |x| == n)
    && (op.Dense? ==> forall c :: 0 <= c < n ==> |op.weight[c]| == |x|)
  }

  /** Output channel c for one token: of a normalised vector, or of a linear layer's input. */
  ghost function ChannelOut(op: Op, n: nat, x: Vector, c: nat): real
    requires Accepts(op, n, x) && c < n
  {
    if op.Norm? then Product(x[c], op.gain[c]) + BiasAt(op.shift, c)
    else Dot(op.weight[c], x) + BiasAt(op.bias, c)
  }

  ghost predicate AllAccept(op: Op, n: nat, tokens: seq<Vector>) {
    !op.Opaque? && FitsOutput(op, n) && forall u :: 0 <= u < |tokens| ==> Accepts(op, n, tokens[u])
  }

  /** Between the two, tokens may be mixed channel by channel: attention weights, or a gate when there is one token. */
  ghost function MixedChannel(op: Op, n: nat, tokens: seq<Vector>, mix: Vector, c: nat): real
    requires |tokens| == |mix| && c < n && AllAccept(op, n, tokens)
  {
    if tokens == [] then 0.0 else
    Product(mix[0], ChannelOut(op, n, tokens[0], c)) + MixedChannel(op, n, tokens[1..], mix[1..], c)
  }

  ghost function MixedChannels(op: Op, n: nat, tokens: seq<Vector>, mixes: seq<Vector>): (r: Vector)
    requires |mixes| == n && forall c :: 0 <= c < n ==> |mixes[c]| == |tokens|
    requires AllAccept(op, n, tokens)
    ensures |r| == n && forall c :: 0 <= c < n ==> r[c] == MixedChannel(op, n, tokens, mixes[c], c)
  {
    seq(n, c requires 0 <= c < n => MixedChannel(op, n, tokens, mixes[c], c))
  }

  lemma {:induction false} DotOfDivided(row: Vector, s: real, x: Vector)
    requires s != 0.0 && |row| == |x|
    ensures Dot(DividedRow(row, s), x) == Quotient(Dot(row, x), s)
  {
    if row == [] {
      QuotientOfZero(s);
    } else {
      hide Product, Quotient;
      DotOfDivided(row[1..], s, x[1..]);
      assert DividedRow(row, s)[1..] == DividedRow(row[1..], s);
      QuotientOfProduct(row[0], x[0], s);
      QuotientOfSum(Product(row[0], x[0]), Dot(row[1..], x[1..]), s);
    }
  }

  lemma QuotientOfZero(s: real)
    requires s != 0.0
    ensures Quotient(0.0, s) == 0.0
  {
    ProductOver(0.0, s);
  }

  lemma QuotientOfProduct(a: real, b: real, s: real)
    requires s != 0.0
    ensures Product(Quotient(a, s), b) == Quotient(Product(a, b), s) == Product(a, Quotient(b, s))
  {
    QuotientTimes(a, s);
    QuotientTimes(b, s);
    QuotientIs(a * b, s, (a / s) * b);
    QuotientIs(a * b, s, a * (b / s));
  }

  /** A product with the divisor names the quotient. */
  lemma QuotientIs(x: real, s: real, q: real)
    requires s != 0.0 && q * s == x
    ensures Quotient(x, s) == q
  {
    ProductOver(q, s);
  }

  lemma QuotientOfSum(a: real, b: real, s: real)
    requires s != 0.0
    ensures Quotient(a, s) + Quotient(b, s) == Quotient(a + b, s)
  {
    QuotientTimes(a, s);
    QuotientTimes(b, s);
    QuotientIs(a + b, s, a / s + b / s);
  }

  lemma DividedFits(op: Op, scales: Vector, x: Vector)
    requires NonZero(scales) && Accepts(op, |scales|, x)
    ensures Accepts(DividedOp(op, scales), |scales|, x)
  {
  }

  /** Dividing the operation divides each of its output channels. */
  lemma ChannelDivided(op: Op, scales: Vector, x: Vector, c: nat)
    requires NonZero(scales) && Accepts(op, |scales|, x) && c < |scales|
    ensures Accepts(DividedOp(op, scales), |scales|, x)
    ensures ChannelOut(DividedOp(op, scales), |scales|, x, c) == Quotient(ChannelOut(op, |scales|, x, c), scales[c])
  {
    hide Product, Quotient, Dot;
    DividedFits(op, scales, x);
    var s := scales[c];
    QuotientOfZero(s);
    match op {
      case Norm(gain, shift) =>
        QuotientOfProduct(x[c], gain[c], s);
        QuotientOfSum(Product(x[c], gain[c]), BiasAt(shift, c), s);
      case Dense(weight, bias) =>
        DotOfDivided(weight[c], s, x);
        QuotientOfSum(Dot(weight[c], x), BiasAt(bias, c), s);
    }
  }

  lemma MixedStillAccepts(op: Op, scales: Vector, tokens: seq<Vector>)
    requires NonZero(scales) && AllAccept(op, |scales|, tokens)
    ensures AllAccept(DividedOp(op, scales), |scales|, tokens)
  {
    hide Accepts;
    forall u | 0 <= u < |tokens| ensures Accepts(DividedOp(op, scales), |scales|, tokens[u]) {
      DividedFits(op, scales, tokens[u]);
    }
  }

  lemma {:induction false} MixedDivided(op: Op, scales: Vector, tokens: seq<Vector>, mix: Vector, c: nat)
    requires NonZero(scales) && AllAccept(op, |scales|, tokens) && |tokens| == |mix| && c < |scales|
    ensures AllAccept(DividedOp(op, scales), |scales|, tokens)
    ensures MixedChannel(DividedOp(op, scales), |scales|, tokens, mix, c) ==
      Quotient(MixedChannel(op, |scales|, tokens, mix, c), scales[c])
  {
    hide Product, Quotient, Accepts, ChannelOut, DividedOp;
    MixedStillAccepts(op, scales, tokens);
    if tokens == [] {
      QuotientOfZero(scales[c]);
    } else {
      ChannelDivided(op, scales, tokens[0], c);
      MixedDivided(op, scales, tokens[1..], mix[1..], c);
      QuotientOfProduct(mix[0], ChannelOut(op, |scales|, tokens[0], c), scales[c]);
      QuotientOfSum(Product(mix[0], ChannelOut(op, |scales|, tokens[0], c)),
                    MixedChannel(op, |scales|, tokens[1..], mix[1..], c), scales[c]);
    }
  }

  /** One column: the scale on the weight and the divisor on the channel cancel. */
  lemma Cancels(w: real, y: real, s: real)
    requires s != 0.0
    ensures Product(Product(w, s), Quotient(y, s)) == Product(w, y)
  {
    QuotientTimes(y, s);
    assert (w * s) * (y / s) == w * ((y / s) * s);
  }

  lemma {:induction false} DotCancels(row: Vector, scales: Vector, y: Vector)
    requires NonZero(scales) && |row| == |scales| == |y|
    ensures Dot(Scaled(row, scales), Divided(y, scales)) == Dot(row, y)
  {
    hide Product, Quotient;
    if row != [] {
      DotCancels(row[1..], scales[1..], y[1..]);
      Cancels(row[0], y[0], scales[0]);
      assert Scaled(row, scales)[1..] == Scaled(row[1..], scales[1..]);
      assert Divided(y, scales)[1..] == Divided(y[1..], scales[1..]);
    }
  }

  /** Output o of a linear layer, bias included. */
  function Output(fc: Op, o: nat, y: Vector): real
    requires FitsInput(fc, |y|) && FitsOutput(fc, |fc.weight|) && o < |fc.weight|
  {
    Dot(fc.weight[o], y) + BiasAt(fc.bias, o)
  }

  /** Absorbing scales leaves every output of every layer behind unchanged, for every input and mixing. */
  lemma AbsorbingKeepsOutput(op: Op, scales: Vector, tokens: seq<Vector>, mixes: seq<Vector>, fc: Op, o: nat)
    requires NonZero(scales) && AllAccept(op, |scales|, tokens)
    requires FitsInput(fc, |scales|) && FitsOutput(fc, |fc.weight|) && o < |fc.weight|
    requires |mixes| == |scales| && forall c :: 0 <= c < |scales| ==> |mixes[c]| == |tokens|
    ensures AllAccept(DividedOp(op, scales), |scales|, tokens)
    ensures Output(ScaledInput(fc, scales), o, MixedChannels(DividedOp(op, scales), |scales|, tokens, mixes)) ==
      Output(fc, o, MixedChannels(op, |scales|, tokens, mixes))
  {
    hide Dot, Quotient, Product, Accepts, MixedChannel, DividedOp;
    var n := |scales|;
    MixedStillAccepts(op, scales, tokens);
    var y := MixedChannels(op, n, tokens, mixes);
    forall c | 0 <= c < n
      ensures MixedChannel(DividedOp(op, scales), n, tokens, mixes[c], c) == Quotient(y[c], scales[c])
    {
      MixedDivided(op, scales, tokens, mixes[c], c);
    }
    assert MixedChannels(DividedOp(op, scales), n, tokens, mixes) == Divided(y, scales);
    DotCancels(fc.weight[o], scales, y);
  }
}
