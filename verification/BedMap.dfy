/** Drawing the objects' boxes on the map of the bed (ExcludeObjectPanel::load_bed_size and rebuild). */
module BedMap {
  import opened Numbers
  import opened Json
  import opened ExcludeState

  /** The usable range of the bed, in mm. */
  datatype Bed = Bed(minX: real, minY: real, maxX: real, maxY: real)

  const DEFAULT_BED := Bed(0.0, 0.0, 220.0, 220.0)

  /** Sizes in pixels: padding, inner area and smallest side of a drawn box, at the display's scale. */
  datatype Layout = Layout(pad: nat, areaW: nat, areaH: nat, minSide: nat)

  /** A drawn box: position, then size. The exact one is in reals, the drawn one in whole pixels. */
  datatype Exact = Exact(x: real, y: real, w: real, h: real)
  datatype Drawn = Drawn(x: int, y: int, w: int, h: int)

  predicate TwoNumbers(j: Json) {
    j.Arr? && |j.items| >= 2 && j.items[0].Num? && j.items[1].Num?
  }

  /** The axis limits are two pairs of numbers, and the upper ones are greater. */
  predicate Limits(lo: Json, hi: Json) {
    TwoNumbers(lo) && TwoNumbers(hi) && lo.items[0].n < hi.items[0].n && lo.items[1].n < hi.items[1].n
  }

  /** load_bed_size: what is not an array of numbers leaves the bed as it was. */
  function LoadBed(bed: Bed, lo: Json, hi: Json): (b: Bed)
    ensures Limits(lo, hi) ==> [Num(b.minX), Num(b.minY)] <= lo.items && [Num(b.maxX), Num(b.maxY)] <= hi.items
    ensures !Limits(lo, hi) ==> b == bed
    ensures bed.minX < bed.maxX && bed.minY < bed.maxY ==> b.minX < b.maxX && b.minY < b.maxY
  {
    if lo.Arr? && hi.Arr? && |lo.items| >= 2 && |hi.items| >= 2
       && lo.items[0].Num? && lo.items[1].Num? && hi.items[0].Num? && hi.items[1].Num?
       && hi.items[0].n > lo.items[0].n && hi.items[1].n > lo.items[1].n
    then Bed(lo.items[0].n, lo.items[1].n, hi.items[0].n, hi.items[1].n)
    else bed
  }

  function BedW(b: Bed): (w: real)
    ensures w >= 1.0 && w >= b.maxX - b.minX
  {
    MaxR(1.0, b.maxX - b.minX)
  }

  function BedH(b: Bed): (h: real)
    ensures h >= 1.0 && h >= b.maxY - b.minY
  {
    MaxR(1.0, b.maxY - b.minY)
  }

  /** How the bed is laid on the map: one scale, and where the bed's left and far edges are drawn. */
  datatype View = View(scale: real, offX: real, offY: real)

  // Centers something `used` long.
  function Offset(pad: nat, area: nat, used: real): real {
    pad as real + (area as real - used) / 2.0
  }

  function FitScale(w: real, h: real, l: Layout): real
    requires w > 0.0 && h > 0.0
  {
    MinR(l.areaW as real / w, l.areaH as real / h)
  }

  function ViewFor(w: real, h: real, l: Layout): View
    requires w > 0.0 && h > 0.0
  {
    var scale := FitScale(w, h, l);
    View(scale, Offset(l.pad, l.areaW, w * scale), Offset(l.pad, l.areaH, h * scale))
  }

  function ViewOf(b: Bed, l: Layout): View {
    ViewFor(BedW(b), BedH(b), l)
  }

  function Scaled(d: real, s: real): real {
    d * s
  }

  function Along(off: real, d: real, s: real): real {
    off + d * s
  }

  function Place(b: Bed, v: View, box: Box): Exact {
    Exact(Along(v.offX, box.x0 - b.minX, v.scale), Along(v.offY, b.maxY - box.y1, v.scale),
          Scaled(box.x1 - box.x0, v.scale), Scaled(box.y1 - box.y0, v.scale))
  }

  function MaxI(a: int, b: int): int {
    if a < b then b else a
  }

  function Draw(b: Bed, l: Layout, box: Box): Drawn {
    var e := Place(b, ViewOf(b, l), box);
    Drawn(Trunc(e.x), Trunc(e.y), MaxI(l.minSide, Trunc(e.w)), MaxI(l.minSide, Trunc(e.h)))
  }

  function DrawAll(b: Bed, l: Layout, boxes: seq<Box>): (ds: seq<Drawn>)
    ensures |ds| == |boxes|
  {
    seq(|boxes|, i requires 0 <= i < |boxes| => Draw(b, l, boxes[i]))
  }

  // ---------------------------------------------------------------- the exact picture

  ghost predicate OnBed(b: Bed, box: Box) {
    b.minX <= box.x0 <= box.x1 <= b.maxX && b.minY <= box.y0 <= box.y1 <= b.maxY
  }

  ghost predicate InArea(l: Layout, e: Exact) {
    && l.pad as real <= e.x && e.x + e.w <= (l.pad + l.areaW) as real
    && l.pad as real <= e.y && e.y + e.h <= (l.pad + l.areaH) as real
    && e.w >= 0.0 && e.h >= 0.0
  }

  lemma QuotientTimes(a: real, b: real)
    requires b > 0.0
    ensures a / b * b == a
  {
  }

  lemma Monotone(a: real, b: real, k: real)
    requires a <= b && k >= 0.0
    ensures a * k <= b * k
  {
  }

  /** A view that does not turn a bed of w by h over and fills no more than the area. */
  ghost predicate Fits(v: View, w: real, h: real, l: Layout) {
    && v.scale >= 0.0
    && (l.areaW > 0 && l.areaH > 0 ==> v.scale > 0.0)
    && v.offX >= l.pad as real && Along(v.offX, w, v.scale) <= (l.pad + l.areaW) as real
    && v.offY >= l.pad as real && Along(v.offY, h, v.scale) <= (l.pad + l.areaH) as real
  }

  lemma ScaleFits(w: real, h: real, l: Layout)
    requires w > 0.0 && h > 0.0
    ensures var s := FitScale(w, h, l);
            && s >= 0.0 && (l.areaW > 0 && l.areaH > 0 ==> s > 0.0)
            && w * s <= l.areaW as real && h * s <= l.areaH as real
  {
    var a, b, s := l.areaW as real / w, l.areaH as real / h, FitScale(w, h, l);
    QuotientTimes(l.areaW as real, w);
    QuotientTimes(l.areaH as real, h);
    Monotone(s, a, w);
    Monotone(s, b, h);
  }

  lemma ViewForFits(w: real, h: real, l: Layout)
    requires w > 0.0 && h > 0.0
    ensures Fits(ViewFor(w, h, l), w, h, l)
  {
    ScaleFits(w, h, l);
  }

  lemma ViewFits(b: Bed, l: Layout)
    ensures Fits(ViewOf(b, l), BedW(b), BedH(b), l)
  {
    ViewForFits(BedW(b), BedH(b), l);
  }

  lemma Distribute(u: real, v: real, s: real)
    ensures u * s + v * s == (u + v) * s
  {
  }

  // From u, a length d further, to w.
  lemma AlongStep(off: real, u: real, d: real, w: real, s: real)
    requires w == u + d
    ensures Along(off, u, s) + Scaled(d, s) == Along(off, w, s)
  {
    Distribute(u, d, s);
  }

  lemma AlongMonotone(off: real, u: real, w: real, s: real)
    requires u <= w && s >= 0.0
    ensures Along(off, u, s) <= Along(off, w, s)
  {
    Monotone(u, w, s);
  }

  lemma PlacedFarSide(b: Bed, v: View, box: Box)
    ensures var e := Place(b, v, box);
            && e.x + e.w == Along(v.offX, box.x1 - b.minX, v.scale)
            && e.y + e.h == Along(v.offY, b.maxY - box.y0, v.scale)
  {
    AlongStep(v.offX, box.x0 - b.minX, box.x1 - box.x0, box.x1 - b.minX, v.scale);
    AlongStep(v.offY, b.maxY - box.y1, box.y1 - box.y0, b.maxY - box.y0, v.scale);
  }

  lemma AxisInside(off: real, bed: real, s: real, u: real, w: real, d: real, end: real)
    requires 0.0 <= u <= w <= bed && d >= 0.0 && s >= 0.0 && Along(off, bed, s) <= end
    ensures off <= Along(off, u, s) && 0.0 <= Scaled(d, s) && Along(off, w, s) <= end
  {
    AlongMonotone(off, 0.0, u, s);
    AlongMonotone(off, w, bed, s);
    Monotone(0.0, d, s);
  }

  /** Any box on the bed is placed inside the padded area, whatever the sizes of bed and area. */
  lemma PlacedInside(b: Bed, l: Layout, box: Box)
    requires OnBed(b, box)
    ensures InArea(l, Place(b, ViewOf(b, l), box))
  {
    ViewFits(b, l);
    FitPlacesInside(b, l, ViewOf(b, l), BedW(b), BedH(b), box);
  }

  lemma FitPlacesInside(b: Bed, l: Layout, v: View, w: real, h: real, box: Box)
    requires OnBed(b, box) && b.maxX - b.minX <= w && b.maxY - b.minY <= h && Fits(v, w, h, l)
    ensures InArea(l, Place(b, v, box))
  {
    PlacedFarSide(b, v, box);
    AxisInside(v.offX, w, v.scale, box.x0 - b.minX, box.x1 - b.minX, box.x1 - box.x0, (l.pad + l.areaW) as real);
    AxisInside(v.offY, h, v.scale, b.maxY - box.y1, b.maxY - box.y0, box.y1 - box.y0, (l.pad + l.areaH) as real);
  }

  /** One scale on both axes; left-right order is kept, and up on the bed is up on the map. */
  lemma PlacedInOrder(b: Bed, l: Layout, p: Box, q: Box)
    ensures var v := ViewOf(b, l); var e, f := Place(b, v, p), Place(b, v, q);
            && f.x - e.x == Scaled(q.x0 - p.x0, v.scale)
            && f.y - e.y == Scaled(p.y1 - q.y1, v.scale)
            && (p.x0 <= q.x0 ==> e.x <= f.x)
            && (p.y1 <= q.y1 ==> f.y <= e.y)
  {
    ViewFits(b, l);
    ViewInOrder(b, ViewOf(b, l), p, q);
  }

  lemma ViewInOrder(b: Bed, v: View, p: Box, q: Box)
    requires v.scale >= 0.0
    ensures var e, f := Place(b, v, p), Place(b, v, q);
            && f.x - e.x == Scaled(q.x0 - p.x0, v.scale)
            && f.y - e.y == Scaled(p.y1 - q.y1, v.scale)
            && (p.x0 <= q.x0 ==> e.x <= f.x)
            && (p.y1 <= q.y1 ==> f.y <= e.y)
  {
    AlongStep(v.offX, p.x0 - b.minX, q.x0 - p.x0, q.x0 - b.minX, v.scale);
    AlongStep(v.offY, b.maxY - p.y1, p.y1 - q.y1, b.maxY - q.y1, v.scale);
    if p.x0 <= q.x0 {
      AlongMonotone(v.offX, p.x0 - b.minX, q.x0 - b.minX, v.scale);
    }
    if p.y1 <= q.y1 {
      AlongMonotone(v.offY, b.maxY - q.y1, b.maxY - p.y1, v.scale);
    }
  }

  ghost predicate BoxesApart(p: Box, q: Box) {
    p.x1 <= q.x0 || q.x1 <= p.x0 || p.y1 <= q.y0 || q.y1 <= p.y0
  }

  ghost predicate PlacesApart(e: Exact, f: Exact) {
    e.x + e.w <= f.x || f.x + f.w <= e.x || e.y + e.h <= f.y || f.y + f.h <= e.y
  }

  /** Boxes overlap on the map exactly if they overlap on the bed (touching is not overlapping). */
  lemma PlacedApart(b: Bed, l: Layout, p: Box, q: Box)
    requires l.areaW > 0 && l.areaH > 0
    ensures var v := ViewOf(b, l); PlacesApart(Place(b, v, p), Place(b, v, q)) <==> BoxesApart(p, q)
  {
    ViewFits(b, l);
    ViewApart(b, ViewOf(b, l), p, q);
  }

  lemma ViewApart(b: Bed, v: View, p: Box, q: Box)
    requires v.scale > 0.0
    ensures PlacesApart(Place(b, v, p), Place(b, v, q)) <==> BoxesApart(p, q)
  {
    PlacedFarSide(b, v, p);
    PlacedFarSide(b, v, q);
    AlongOrdered(v.offX, p.x1 - b.minX, q.x0 - b.minX, v.scale);
    AlongOrdered(v.offX, q.x1 - b.minX, p.x0 - b.minX, v.scale);
    AlongOrdered(v.offY, b.maxY - p.y0, b.maxY - q.y1, v.scale);
    AlongOrdered(v.offY, b.maxY - q.y0, b.maxY - p.y1, v.scale);
  }

  lemma ScaledPositive(d: real, s: real)
    requires d > 0.0 && s > 0.0
    ensures Scaled(d, s) > 0.0
  {
  }

  lemma AlongOrdered(off: real, u: real, w: real, s: real)
    requires s > 0.0
    ensures u <= w <==> Along(off, u, s) <= Along(off, w, s)
  {
    if u > w {
      ScaledPositive(u - w, s);
      AlongStep(off, w, u - w, u, s);
    } else {
      AlongMonotone(off, u, w, s);
    }
  }

  /** The bed is as large on the map as fits: it fills the area one way, and is centered the other way. */
  lemma BedFills(b: Bed, l: Layout)
    ensures var v, w, h := ViewOf(b, l), MaxR(1.0, b.maxX - b.minX), MaxR(1.0, b.maxY - b.minY);
            && (w * v.scale == l.areaW as real || h * v.scale == l.areaH as real)
            && w * v.scale <= l.areaW as real && h * v.scale <= l.areaH as real
            && v.offX + (v.offX + w * v.scale) == (2 * l.pad + l.areaW) as real
            && v.offY + (v.offY + h * v.scale) == (2 * l.pad + l.areaH) as real
  {
    ViewFills(BedW(b), BedH(b), l);
    ScaleFits(BedW(b), BedH(b), l);
  }

  lemma ViewFills(w: real, h: real, l: Layout)
    requires w > 0.0 && h > 0.0
    ensures var v := ViewFor(w, h, l);
            && (w * v.scale == l.areaW as real || h * v.scale == l.areaH as real)
            && v.offX + (v.offX + w * v.scale) == (2 * l.pad + l.areaW) as real
            && v.offY + (v.offY + h * v.scale) == (2 * l.pad + l.areaH) as real
  {
    QuotientTimes(l.areaW as real, w);
    QuotientTimes(l.areaH as real, h);
    CenteredTwice(l.pad, l.areaW, w * FitScale(w, h, l));
    CenteredTwice(l.pad, l.areaH, h * FitScale(w, h, l));
  }

  lemma CenteredTwice(pad: nat, area: nat, used: real)
    ensures Offset(pad, area, used) + (Offset(pad, area, used) + used) == (2 * pad + area) as real
  {
  }

  // ---------------------------------------------------------------- the drawn picture

  // Cut down to whole pixels.
  ghost predicate CutDown(i: int, r: real) {
    i as real <= r < i as real + 1.0
  }

  /** Every box is drawn at its place, cut down to whole pixels; so is a side that is not below the smallest
      one, and a shorter side is drawn as the smallest. */
  lemma DrawnMeaning(b: Bed, l: Layout, boxes: seq<Box>, i: nat)
    requires i < |boxes| && OnBed(b, boxes[i])
    ensures var e, d := Place(b, ViewOf(b, l), boxes[i]), DrawAll(b, l, boxes)[i];
            && CutDown(d.x, e.x) && CutDown(d.y, e.y)
            && (if e.w < l.minSide as real then d.w == l.minSide else CutDown(d.w, e.w))
            && (if e.h < l.minSide as real then d.h == l.minSide else CutDown(d.h, e.h))
  {
    PlacedInside(b, l, boxes[i]);
    var e := Place(b, ViewOf(b, l), boxes[i]);
    DrawnSide(l.minSide, e.w);
    DrawnSide(l.minSide, e.h);
  }

  lemma DrawnSide(least: nat, r: real)
    requires r >= 0.0
    ensures var side := MaxI(least, Trunc(r)); if r < least as real then side == least else CutDown(side, r)
  {
  }

  /** The smallest side spoils this for drawn boxes: one axis of a box on the bed sticks out of the
      padded area exactly if it is shorter than the smallest side and begins too close to the end. */
  lemma DrawnSticksOut(b: Bed, l: Layout, box: Box)
    requires OnBed(b, box)
    ensures var e, d := Place(b, ViewOf(b, l), box), Draw(b, l, box);
            && d.x >= l.pad && d.y >= l.pad
            && (d.x + d.w > l.pad + l.areaW <==> Trunc(e.w) < l.minSide && Trunc(e.x) > l.pad + l.areaW - l.minSide)
            && (d.y + d.h > l.pad + l.areaH <==> Trunc(e.h) < l.minSide && Trunc(e.y) > l.pad + l.areaH - l.minSide)
  {
    PlacedInside(b, l, box);
    var e := Place(b, ViewOf(b, l), box);
    TruncSum(e.x, e.w, l.pad + l.areaW);
    TruncSum(e.y, e.h, l.pad + l.areaH);
  }

  lemma TruncSum(u: real, v: real, limit: int)
    requires u >= 0.0 && v >= 0.0 && u + v <= limit as real
    ensures Trunc(u) + Trunc(v) <= limit
  {
    assert (Trunc(u) + Trunc(v)) as real <= u + v;
  }

  /** The map at the size it is designed for: 268 pixels with a padding of 10. */
  const MAP := Layout(10, 248, 248, 22)

  /** A small box near the right edge of a bed of 248 mm ends 14 pixels beyond the padded area. */
  lemma CornerSticksOut()
    ensures var b, box := Bed(0.0, 0.0, 248.0, 248.0), Box(240.0, 240.0, 241.0, 241.0);
            var d := Draw(b, MAP, box);
            OnBed(b, box) && d.x + d.w == MAP.pad + MAP.areaW + 14
  {
    var v := ViewOf(Bed(0.0, 0.0, 248.0, 248.0), MAP);
    assert v.scale == 1.0 && v.offX == 10.0;
  }

  /** A box of 100 mm on the program's own bed is drawn 112 pixels wide and high. */
  lemma LargeBoxDrawn()
    ensures Draw(DEFAULT_BED, MAP, Box(10.0, 10.0, 110.0, 110.0)) == Drawn(21, 134, 112, 112)
  {
    var v := ViewOf(DEFAULT_BED, MAP);
    assert v.scale == 248.0 / 220.0 && 220.0 * v.scale == 248.0 && v.offX == 10.0 && v.offY == 10.0;
    assert 10.0 * v.scale == 124.0 / 11.0 && 100.0 * v.scale == 1240.0 / 11.0 && 110.0 * v.scale == 124.0;
  }

  /** An object without polygon and center has the box at the origin, which the program's own bed puts
      below the padded area altogether. */
  lemma NoBoxSticksOut()
    ensures var d := Draw(DEFAULT_BED, MAP, NO_BOX);
            OnBed(DEFAULT_BED, NO_BOX) && d.y == MAP.pad + MAP.areaH && d.y + d.h == d.y + MAP.minSide
  {
    var v := ViewOf(DEFAULT_BED, MAP);
    assert v.scale == 248.0 / 220.0;
    assert 220.0 * v.scale == 248.0;
    assert v.offY == 10.0;
  }
}
