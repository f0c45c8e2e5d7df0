/** Clamping and enlarging a crop box inside an image, in exact arithmetic. */
module BboxResize {
  import opened Prelude
  import opened RealArith

  datatype Box = Box(left: real, top: real, right: real, bottom: real)

  const MIN_DIMENSION := 28

  function Ceil(x: real): (n: int)
    ensures x <= n as real < x + 1.0
  {
    -((-x).Floor)
  }

  // ---------------------------------------------------------------- what is wanted

  function Clamped(b: Box, width: nat, height: nat): Box {
    Box(Largest(0.0, b.left), Largest(0.0, b.top), Least(width as real, b.right), Least(height as real, b.bottom))
  }

  /** `_validate_bbox`. */
  predicate Valid(b: Box) {
    b.left < b.right && b.top < b.bottom
    && var w, h := b.right - b.left, b.bottom - b.top;
    Quotient(Largest(h, w), Least(h, w)) <= 100.0
  }

  predicate Small(b: Box) {
    b.bottom - b.top < MIN_DIMENSION as real || b.right - b.left < MIN_DIMENSION as real
  }

  /** Sides as the code measures them at the end, on floored corners. */
  predicate BigEnough(b: Box) {
    b.bottom.Floor - b.top.Floor >= MIN_DIMENSION && b.right.Floor - b.left.Floor >= MIN_DIMENSION
  }

  /** One common factor: bring the smaller side to the minimum, unless the image is narrower or lower than that. */
  function Factor(w: real, h: real, width: nat, height: nat): real
    requires w > 0.0 && h > 0.0
  {
    Least(Least(Quotient(MIN_DIMENSION as real, Least(h, w)), Quotient(width as real, w)), Quotient(height as real, h))
  }

  /** Start of an interval of length t around the middle of [lo, hi], moved inside [0, size]. */
  function Start(lo: real, hi: real, t: real, size: nat): real {
    Least(Largest((lo + hi) / 2.0 - t / 2.0, 0.0), size as real - t)
  }

  function Enlarged(b: Box, width: nat, height: nat): Box
    requires b.left < b.right && b.top < b.bottom
  {
    var w, h := b.right - b.left, b.bottom - b.top;
    var k := Factor(w, h, width, height);
    var left, top := Start(b.left, b.right, Product(w, k), width), Start(b.top, b.bottom, Product(h, k), height);
    Box(left.Floor as real, top.Floor as real,
        Ceil(left + Product(w, k)) as real, Ceil(top + Product(h, k)) as real)
  }

  function Checked(b: Box): Option<Box> {
    if Valid(b) && BigEnough(b) then Some(b) else None
  }

  function Resized(b: Box, width: nat, height: nat): Option<Box> {
    var c := Clamped(b, width, height);
    if !Valid(c) then None else Checked(if Small(c) then Enlarged(c, width, height) else c)
  }

  // ---------------------------------------------------------------- the code, step by step

  lemma RatioTimes(x: real, k: real)
    requires k != 0.0
    ensures Product(Quotient(x, k), k) == x == Product(k, Quotient(x, k))
  {
    QuotientTimes(x, k);
  }

  lemma ProductOrder(a: real, b: real, k: real)
    requires k > 0.0
    ensures a <= b <==> Product(k, a) <= Product(k, b)
  {
    if a <= b { MulOrder(a, b, k); } else { StrictOrder(b, a, k); }
  }

  /** Fitting one side by `scale_down = size / target` is lowering the common factor to `size / side`. */
  lemma ScaleDown(side: real, other: real, k: real, size: real)
    requires side > 0.0 && k > 0.0 && Product(side, k) > size
    ensures Quotient(size, side) < k && Product(side, Quotient(size, side)) == size
    ensures Product(side, k) != 0.0 ==>
      Product(Product(other, k), Quotient(size, Product(side, k))) == Product(other, Quotient(size, side))
  {
    RatioTimes(size, side);
    hide Quotient;
    ProductOrder(k, Quotient(size, side), side);
    if Product(side, k) != 0.0 { FactorsCancel(side, other, k, size); }
  }

  lemma FactorsCancel(side: real, other: real, k: real, size: real)
    requires side > 0.0 && k > 0.0 && Product(side, k) != 0.0
    ensures Product(Product(other, k), Quotient(size, Product(side, k))) == Product(other, Quotient(size, side))
  {
    var q := size / (side * k);
    QuotientTimes(size, side * k);
    assert (q * k) * side == size;
    ProductOver(q * k, side);
    assert q * k == size / side;
    assert (other * k) * q == other * (q * k);
  }

  /** The target size: enlarge, then fit the width, then the height. */
  method Targets(w: real, h: real, width: nat, height: nat) returns (targetWidth: real, targetHeight: real)
    requires 0.0 < w <= width as real && 0.0 < h <= height as real
    ensures targetWidth == Product(w, Factor(w, h, width, height))
    ensures targetHeight == Product(h, Factor(w, h, width, height))
  {
    hide Product, Quotient;
    var ratio := Quotient(MIN_DIMENSION as real, Least(h, w));
    RatioPositive(MIN_DIMENSION as real, Least(h, w));
    targetWidth, targetHeight := Product(w, ratio), Product(h, ratio);
    ghost var k := ratio;
    ProductOrder(k, Quotient(width as real, w), w);
    RatioTimes(width as real, w);
    if targetWidth > width as real {
      ScaleDown(w, h, k, width as real);
      var scaleDown := Quotient(width as real, targetWidth);
      targetWidth := width as real;
      targetHeight := Product(targetHeight, scaleDown);
      k := Quotient(width as real, w);
    }
    assert k == Least(ratio, Quotient(width as real, w));
    RatioPositive(width as real, w);
    ProductOrder(k, Quotient(height as real, h), h);
    RatioTimes(height as real, h);
    if targetHeight > height as real {
      ScaleDown(h, w, k, height as real);
      var scaleDown := Quotient(height as real, targetHeight);
      targetHeight := height as real;
      targetWidth := Product(targetWidth, scaleDown);
    }
  }

  lemma RatioPositive(a: real, b: real)
    requires a > 0.0 && b > 0.0
    ensures Quotient(a, b) > 0.0
  {
    QuotientTimes(a, b);
    if a / b <= 0.0 { MulOrder(a / b, 0.0, b); }
  }

  /** `_maybe_resize_bbox`: clamp, validate, enlarge if a side is too small, validate again. */
  method MaybeResizeBbox(box: Box, width: nat, height: nat) returns (r: Option<Box>)
    ensures r == Resized(box, width, height)
  {
    hide Quotient, Enlarged, BigEnough;
    var left, top := Largest(0.0, box.left), Largest(0.0, box.top);
    var right, bottom := Least(width as real, box.right), Least(height as real, box.bottom);
    var current := Box(left, top, right, bottom);
    if !Valid(current) { return None; }
    var h, w := bottom - top, right - left;
    if h < MIN_DIMENSION as real || w < MIN_DIMENSION as real {
      current := Enlarge(current, width, height);
    }
    if !Valid(current) || !BigEnough(current) { return None; }
    return Some(current);
  }

  /** Its third step: a box of the target size around the old centre, moved inside the image. */
  method Enlarge(b: Box, width: nat, height: nat) returns (r: Box)
    requires 0.0 <= b.left < b.right <= width as real && 0.0 <= b.top < b.bottom <= height as real
    ensures r == Enlarged(b, width, height)
  {
    hide Factor, Product, Ceil, Start;
    var targetWidth, targetHeight := Targets(b.right - b.left, b.bottom - b.top, width, height);
    var left := Place(b.left, b.right, targetWidth, width);
    var top := Place(b.top, b.bottom, targetHeight, height);
    r := Box(left.Floor as real, top.Floor as real, Ceil(left + targetWidth) as real, Ceil(top + targetHeight) as real);
  }

  /** One axis of that: centre, then shift off the near edge, then off the far one. */
  method Place(lo: real, hi: real, target: real, size: nat) returns (start: real)
    ensures start == Start(lo, hi, target, size)
  {
    start := (lo + hi) / 2.0 - target / 2.0;
    if start < 0.0 { start := 0.0; }
    if start + target > size as real { start := size as real - target; }
  }

  // ---------------------------------------------------------------- what a result is

  predicate Contains(outer: Box, inner: Box) {
    outer.left <= inner.left && outer.top <= inner.top && inner.right <= outer.right && inner.bottom <= outer.bottom
  }

  predicate InImage(b: Box, width: nat, height: nat) {
    0.0 <= b.left && 0.0 <= b.top && b.right <= width as real && b.bottom <= height as real
  }

  /** A factor of at least one that neither side's image extent is exceeded by. */
  lemma FactorFits(w: real, h: real, width: nat, height: nat)
    requires 0.0 < w <= width as real && 0.0 < h <= height as real && (w < 28.0 || h < 28.0)
    ensures var k := Factor(w, h, width, height);
      w <= Product(w, k) <= width as real && h <= Product(h, k) <= height as real
  {
    hide Quotient, Product;
    var k := Factor(w, h, width, height);
    OverAtLeastOne(28.0, Least(h, w));
    OverAtLeastOne(width as real, w);
    OverAtLeastOne(height as real, h);
    GrownWithin(w, k, width as real);
    GrownWithin(h, k, height as real);
  }

  lemma OverAtLeastOne(a: real, b: real)
    requires 0.0 < b <= a
    ensures Quotient(a, b) >= 1.0
  {
    QuotientTimes(a, b);
    LessByProduct(1.0, a / b, b);
  }

  lemma GrownWithin(side: real, k: real, size: real)
    requires side > 0.0 && 1.0 <= k <= Quotient(size, side)
    ensures side <= Product(side, k) <= size
  {
    RatioTimes(size, side);
    ProductOrder(1.0, k, side);
    ProductOrder(k, Quotient(size, side), side);
  }

  lemma StartInside(lo: real, hi: real, t: real, size: nat)
    requires 0.0 <= lo < hi <= size as real && hi - lo <= t <= size as real
    ensures 0.0 <= Start(lo, hi, t, size) <= lo && hi <= Start(lo, hi, t, size) + t <= size as real
  {
  }

  /** Of all placements inside the image it is the one that keeps the middle best. */
  lemma StartIsNearest(lo: real, hi: real, t: real, size: nat, s: real)
    requires 0.0 <= s && s + t <= size as real
    ensures 0.0 <= Start(lo, hi, t, size) && Start(lo, hi, t, size) + t <= size as real
    ensures OffMiddle(lo, hi, t, Start(lo, hi, t, size)) <= OffMiddle(lo, hi, t, s)
    ensures OffMiddle(lo, hi, t, Start(lo, hi, t, size)) == OffMiddle(lo, hi, t, s) ==> s == Start(lo, hi, t, size)
  {
  }

  /** How far the middle of the interval of length t from s is from the middle of [lo, hi]. */
  function OffMiddle(lo: real, hi: real, t: real, s: real): real {
    var d := s + t / 2.0 - (lo + hi) / 2.0;
    if d >= 0.0 then d else -d
  }

  lemma FloorFrom(x: real)
    requires x >= 0.0
    ensures 0.0 <= x.Floor as real <= x
  {
  }

  lemma CeilUpTo(x: real, n: int)
    requires x <= n as real
    ensures x <= Ceil(x) as real <= n as real
  {
    hide Ceil;
    IntBelow(Ceil(x), n);
  }

  lemma IntBelow(m: int, n: int)
    requires (m as real) < n as real + 1.0
    ensures m <= n
  {
  }

  /** An interval that is given a length between its own and the image's ends up inside, around the old one. */
  lemma StartContains(lo: real, hi: real, t: real, size: nat)
    requires 0.0 <= lo < hi <= size as real && hi - lo <= t <= size as real
    ensures var s := Start(lo, hi, t, size);
      0.0 <= s.Floor as real <= s <= lo && hi <= s + t <= Ceil(s + t) as real <= size as real
  {
    hide Start, Ceil;
    StartInside(lo, hi, t, size);
    FloorFrom(Start(lo, hi, t, size));
    CeilUpTo(Start(lo, hi, t, size) + t, size);
  }

  lemma EnlargedContains(b: Box, width: nat, height: nat)
    requires InImage(b, width, height) && b.left < b.right && b.top < b.bottom && Small(b)
    ensures Contains(Enlarged(b, width, height), b) && InImage(Enlarged(b, width, height), width, height)
  {
    hide Factor, Product, Start, Ceil;
    var w, h := b.right - b.left, b.bottom - b.top;
    FactorFits(w, h, width, height);
    var k := Factor(w, h, width, height);
    StartContains(b.left, b.right, Product(w, k), width);
    StartContains(b.top, b.bottom, Product(h, k), height);
  }

  /** Every box returned lies in the image, contains the clamped input, is big enough and not too oblong. */
  lemma ResizedIsSound(box: Box, width: nat, height: nat)
    requires Resized(box, width, height).Some?
    ensures var r := Resized(box, width, height).value;
      InImage(r, width, height) && Contains(r, Clamped(box, width, height)) && Valid(r) && BigEnough(r)
  {
    hide Quotient, Enlarged, BigEnough;
    var c := Clamped(box, width, height);
    if Small(c) { EnlargedContains(c, width, height); }
  }

  /** Sides in the reals are then at least the minimum too, as a crop of whole pixels needs. */
  lemma BigInFloor(lo: real, hi: real)
    requires hi - lo >= 28.0
    ensures hi.Floor - lo.Floor >= 28
  {
  }

  lemma ClampedInside(r: Box, width: nat, height: nat)
    requires InImage(r, width, height)
    ensures Clamped(r, width, height) == r
  {
  }

  /** Clamping keeps exactly the points that lie in the image too. */
  lemma ClampedIsCut(b: Box, width: nat, height: nat, x: real, y: real)
    ensures var c := Clamped(b, width, height);
      c.left <= x <= c.right && c.top <= y <= c.bottom <==>
      b.left <= x <= b.right && b.top <= y <= b.bottom && 0.0 <= x <= width as real && 0.0 <= y <= height as real
  {
  }

  /** The corners are whole numbers. */
  predicate Whole(b: Box) {
    b.left == b.left.Floor as real && b.top == b.top.Floor as real
    && b.right == b.right.Floor as real && b.bottom == b.bottom.Floor as real
  }

  lemma EnlargedIsWhole(b: Box, width: nat, height: nat)
    requires b.left < b.right && b.top < b.bottom
    ensures Whole(Enlarged(b, width, height))
  {
    hide Factor, Product, Start, Ceil;
    var e := Enlarged(b, width, height);
    FloorOfInt(e.left.Floor);
  }

  lemma FloorOfInt(n: int)
    ensures (n as real).Floor == n
  {
  }

  lemma WholeIsBig(b: Box)
    requires Whole(b) && BigEnough(b)
    ensures !Small(b)
  {
  }

  /** Resizing a returned box returns it. */
  lemma ResizingAgainKeeps(box: Box, width: nat, height: nat)
    requires Resized(box, width, height).Some?
    ensures var r := Resized(box, width, height).value; Resized(r, width, height) == Some(r)
  {
    hide Quotient, Enlarged, BigEnough, Whole;
    var r := Resized(box, width, height).value;
    ResizedIsSound(box, width, height);
    ClampedInside(r, width, height);
    if Small(Clamped(box, width, height)) {
      EnlargedIsWhole(Clamped(box, width, height), width, height);
      WholeIsBig(r);
    }
  }

  /** A clamped box with both sides at the minimum is returned as it is, exactly when it is valid. */
  lemma BigBoxIsKept(box: Box, width: nat, height: nat)
    requires !Small(Clamped(box, width, height))
    ensures Resized(box, width, height) ==
      if Valid(Clamped(box, width, height)) then Some(Clamped(box, width, height)) else None
  {
    hide Quotient;
    var c := Clamped(box, width, height);
    if Valid(c) {
      BigInFloor(c.left, c.right);
      BigInFloor(c.top, c.bottom);
    }
  }

  // ---------------------------------------------------------------- when a small box is returned

  /** Both sides brought up to the minimum fit in the image. */
  predicate Fits(w: real, h: real, width: nat, height: nat)
    requires w > 0.0 && h > 0.0
  {
    var k := Quotient(28.0, Least(h, w));
    Product(w, k) <= width as real && Product(h, k) <= height as real
  }

  lemma FittingFactor(w: real, h: real, width: nat, height: nat)
    requires w > 0.0 && h > 0.0 && Fits(w, h, width, height)
    ensures Factor(w, h, width, height) == Quotient(28.0, Least(h, w))
  {
    hide Quotient, Product;
    var k := Quotient(28.0, Least(h, w));
    RatioTimes(width as real, w);
    RatioTimes(height as real, h);
    ProductOrder(k, Quotient(width as real, w), w);
    ProductOrder(k, Quotient(height as real, h), h);
  }

  /** A side brought to t pixels by the factor: whole corners give between t and t + 2. */
  lemma WholeSides(s: real, t: real)
    requires s >= 0.0
    ensures t <= (Ceil(s + t) - s.Floor) as real < t + 2.0
  {
    hide Ceil;
  }

  lemma RatioAtMost(a: real, b: real, k: real)
    requires b > 0.0
    ensures Quotient(a, b) <= k <==> a <= Product(k, b)
  {
    QuotientTimes(a, b);
    if a / b <= k { MulOrder(a / b, k, b); } else { StrictOrder(k, a / b, b); }
  }

  /** The smaller side becomes at most the minimum, so the other at most 100 times that. */
  lemma TargetsSmall(w: real, h: real, width: nat, height: nat)
    requires 0.0 < w <= width as real && 0.0 < h <= height as real && Quotient(Largest(h, w), Least(h, w)) <= 100.0
    ensures var k := Factor(w, h, width, height);
      0.0 < Product(w, k) <= 2800.0 && 0.0 < Product(h, k) <= 2800.0
      && (Product(w, k) <= 28.0 || Product(h, k) <= 28.0)
  {
    hide Quotient, Product;
    var k, small, large := Factor(w, h, width, height), Least(h, w), Largest(h, w);
    RatioPositive(28.0, small);
    RatioPositive(width as real, w);
    RatioPositive(height as real, h);
    RatioTimes(28.0, small);
    ProductOrder(k, Quotient(28.0, small), small);
    RatioAtMost(large, small, 100.0);
    TargetOrder(small, large, k);
  }

  lemma TargetOrder(small: real, large: real, k: real)
    requires 0.0 < small <= large <= Product(100.0, small) && k > 0.0 && Product(small, k) <= 28.0
    ensures 0.0 < Product(small, k) && 0.0 < Product(large, k) <= 2800.0
  {
    ProductPositive(small, k);
    ProductPositive(large, k);
    calc {
      large * k;
      <= { MulOrder(large, 100.0 * small, k); }
      (100.0 * small) * k;
      == 100.0 * (small * k);
      <= 100.0 * 28.0;
    }
  }

  lemma ProductPositive(a: real, b: real)
    requires a > 0.0 && b > 0.0
    ensures Product(a, b) > 0.0
  {
  }

  /** How far an interval of length t reaches from the whole pixel at or before its start. */
  function Reach(lo: real, hi: real, t: real, size: nat): real {
    var s := Start(lo, hi, t, size);
    s - s.Floor as real + t
  }

  /** The whole pixels of the interval are at most n exactly if it reaches no further. */
  lemma WholeReach(s: real, t: real, n: int)
    ensures Ceil(s + t) - s.Floor <= n <==> s - s.Floor as real + t <= n as real
  {
    hide Ceil;
    if s + t <= (n + s.Floor) as real { IntBelow(Ceil(s + t), n + s.Floor); }
  }

  /** One reach too short, or one that gives 28 pixels beside one that gives more than 2800. */
  predicate Unfit(x: real, y: real) {
    x <= 27.0 || y <= 27.0 || (x <= 28.0 && y > 2800.0) || (y <= 28.0 && x > 2800.0)
  }

  /** Sides in whole pixels pass both checks exactly so, when neither is above 2801. */
  lemma SidesPass(w: int, h: int)
    requires 0 < w <= 2801 && 0 < h <= 2801
    ensures (Quotient(Largest(h as real, w as real), Least(h as real, w as real)) <= 100.0 && w >= 28 && h >= 28)
      <==> !(w <= 27 || h <= 27 || (w <= 28 && h > 2800) || (h <= 28 && w > 2800))
  {
    hide Quotient;
    RatioAtMost(Largest(h as real, w as real), Least(h as real, w as real), 100.0);
  }

  lemma WholeBoxPasses(b: Box, w: int, h: int)
    requires Whole(b) && b.right == b.left + w as real && b.bottom == b.top + h as real
    requires 0 < w <= 2801 && 0 < h <= 2801
    ensures Checked(b) == if w <= 27 || h <= 27 || (w <= 28 && h > 2800) || (h <= 28 && w > 2800) then None else Some(b)
  {
    hide Quotient;
    SidesPass(w, h);
  }

  /** A valid small box is refused exactly when its enlargement's reaches do not go together. */
  lemma SmallBoxResized(box: Box, width: nat, height: nat)
    requires Valid(Clamped(box, width, height)) && Small(Clamped(box, width, height))
    ensures var c := Clamped(box, width, height);
      var k := Factor(c.right - c.left, c.bottom - c.top, width, height);
      var x := Reach(c.left, c.right, Product(c.right - c.left, k), width);
      var y := Reach(c.top, c.bottom, Product(c.bottom - c.top, k), height);
      Resized(box, width, height) == if Unfit(x, y) then None else Some(Enlarged(c, width, height))
  {
    hide Quotient, Product, Factor, Ceil, Start;
    var c := Clamped(box, width, height);
    var w, h := c.right - c.left, c.bottom - c.top;
    var tw, th := Product(w, Factor(w, h, width, height)), Product(h, Factor(w, h, width, height));
    TargetsSmall(w, h, width, height);
    FactorFits(w, h, width, height);
    StartInside(c.left, c.right, tw, width);
    StartInside(c.top, c.bottom, th, height);
    var left, top := Start(c.left, c.right, tw, width), Start(c.top, c.bottom, th, height);
    var pw, ph := Ceil(left + tw) - left.Floor, Ceil(top + th) - top.Floor;
    WholeSides(left, tw);
    WholeSides(top, th);
    WholeReaches(left, tw, pw);
    WholeReaches(top, th, ph);
    EnlargedIsWhole(c, width, height);
    WholeBoxPasses(Enlarged(c, width, height), pw, ph);
  }

  /** The bounds that decide. */
  lemma WholeReaches(s: real, t: real, p: int)
    requires p == Ceil(s + t) - s.Floor
    ensures var x := s - s.Floor as real + t;
      (p <= 27 <==> x <= 27.0) && (p <= 28 <==> x <= 28.0) && (p > 2800 <==> x > 2800.0)
  {
    WholeReach(s, t, 27);
    WholeReach(s, t, 28);
    WholeReach(s, t, 2800);
  }

  /** Where the enlargement fits, that is: the short axis starts on a whole pixel and the long one needs more than
      2800 pixels. */
  lemma FittingBoxIsRefused(box: Box, width: nat, height: nat)
    requires var c := Clamped(box, width, height);
      Valid(c) && Small(c) && Fits(c.right - c.left, c.bottom - c.top, width, height)
    ensures var c := Clamped(box, width, height);
      var w, h := c.right - c.left, c.bottom - c.top;
      var k := Quotient(28.0, Least(h, w));
      var left := Start(c.left, c.right, Product(w, k), width);
      var top := Start(c.top, c.bottom, Product(h, k), height);
      Resized(box, width, height) == None <==>
      if w <= h then left == left.Floor as real && Ceil(top + Product(h, k)) - top.Floor > 2800
      else top == top.Floor as real && Ceil(left + Product(w, k)) - left.Floor > 2800
  {
    hide Quotient, Product, Factor, Fits, Resized, Ceil, Start;
    var c := Clamped(box, width, height);
    var w, h := c.right - c.left, c.bottom - c.top;
    var k := Quotient(28.0, Least(h, w));
    FittingFactor(w, h, width, height);
    TargetsSmall(w, h, width, height);
    RatioTimes(28.0, Least(h, w));
    RatioPositive(28.0, Least(h, w));
    ProductOrder(w, h, k);
    ProductOrder(h, w, k);
    ProductSwaps(w, k);
    ProductSwaps(h, k);
    SmallBoxResized(box, width, height);
    WholeReach(Start(c.left, c.right, Product(w, k), width), Product(w, k), 2800);
    WholeReach(Start(c.top, c.bottom, Product(h, k), height), Product(h, k), 2800);
  }

  lemma ProductSwaps(a: real, b: real)
    ensures Product(a, b) == Product(b, a)
  {
  }

  /** In particular one whose longer side becomes at most 2799 pixels is returned. */
  lemma FittingBoxIsEnlarged(box: Box, width: nat, height: nat)
    requires var c := Clamped(box, width, height);
      Valid(c) && Small(c) && Fits(c.right - c.left, c.bottom - c.top, width, height)
      && Product(Largest(c.bottom - c.top, c.right - c.left), Quotient(28.0, Least(c.bottom - c.top, c.right - c.left))) <= 2799.0
    ensures Resized(box, width, height) == Some(Enlarged(Clamped(box, width, height), width, height))
  {
    hide Quotient, Product, Factor, Fits, Resized, Enlarged, Start;
    var c := Clamped(box, width, height);
    var w, h := c.right - c.left, c.bottom - c.top;
    var k := Quotient(28.0, Least(h, w));
    FittingFactor(w, h, width, height);
    RatioTimes(28.0, Least(h, w));
    RatioPositive(28.0, Least(h, w));
    ProductOrder(w, h, k);
    ProductOrder(h, w, k);
    ProductSwaps(w, k);
    ProductSwaps(h, k);
    SmallBoxResized(box, width, height);
  }

  /** An axis that fills the image. */
  lemma FullAxis(lo: real, hi: real, t: real, size: nat)
    requires 0.0 <= lo < hi <= size as real && hi - lo <= t == size as real
    ensures Reach(lo, hi, t, size) == size as real
  {
    hide Start;
    StartInside(lo, hi, t, size);
    FloorOfInt(0);
  }

  lemma ShortTargetFills(w: real, h: real, width: nat, height: nat)
    requires w > 0.0 && h > 0.0 && Product(Least(h, w), Factor(w, h, width, height)) < 28.0
    ensures var k := Factor(w, h, width, height); Product(w, k) == width as real || Product(h, k) == height as real
  {
    hide Quotient, Product;
    RatioTimes(28.0, Least(h, w));
    RatioTimes(width as real, w);
    RatioTimes(height as real, h);
  }

  lemma ReachBounds(lo: real, hi: real, t: real, size: nat)
    ensures t <= Reach(lo, hi, t, size) < t + 1.0
  {
    hide Start;
  }

  /** A small box that the image keeps from growing to the minimum fills it along one axis.  It is refused exactly
      when one side's whole pixels are too few; its aspect never is the reason. */
  lemma SqueezedBoxIsRefused(box: Box, width: nat, height: nat)
    requires var c := Clamped(box, width, height);
      Valid(c) && Small(c)
      && var w, h := c.right - c.left, c.bottom - c.top;
      Product(Least(h, w), Factor(w, h, width, height)) < 28.0
    ensures var c := Clamped(box, width, height);
      var w, h := c.right - c.left, c.bottom - c.top;
      var k := Factor(w, h, width, height);
      Resized(box, width, height) == None <==>
      Reach(c.left, c.right, Product(w, k), width) <= 27.0 || Reach(c.top, c.bottom, Product(h, k), height) <= 27.0
  {
    hide Quotient, Product, Factor, Resized, Reach, Enlarged;
    var c := Clamped(box, width, height);
    var w, h := c.right - c.left, c.bottom - c.top;
    var k := Factor(w, h, width, height);
    TargetsSmall(w, h, width, height);
    ShortTargetFills(w, h, width, height);
    FactorFits(w, h, width, height);
    ReachBounds(c.left, c.right, Product(w, k), width);
    ReachBounds(c.top, c.bottom, Product(h, k), height);
    if Product(w, k) == width as real { FullAxis(c.left, c.right, Product(w, k), width); }
    if Product(h, k) == height as real { FullAxis(c.top, c.bottom, Product(h, k), height); }
    SmallBoxResized(box, width, height);
  }

  /** Rounding outwards can refuse a box of aspect exactly 100 although its enlargement fits. */
  lemma RoundingLosesAspect()
    ensures var box := Box(500.5, 1450.5, 501.5, 1550.5);
      Valid(Clamped(box, 1000, 4000)) && Fits(1.0, 100.0, 1000, 4000) && Resized(box, 1000, 4000) == None
  {
    var box := Box(500.5, 1450.5, 501.5, 1550.5);
    assert Clamped(box, 1000, 4000) == box;
    assert Factor(1.0, 100.0, 1000, 4000) == 28.0;
    var e := Enlarged(box, 1000, 4000);
    assert e == Box(487.0, 100.0, 515.0, 2901.0);
  }
}
