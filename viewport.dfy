/** The geometry of the main window's image view, over real numbers: the
    render transform (a scale and a translation per axis), fitting the image
    to the border, zooming at the cursor, panning, and the region of interest
    drawn with the mouse, from its normalised rectangle to the integer region
    handed to the crop and save commands. */
module Viewport {
  import opened Common

  /** A WPF `Point`. */
  datatype Point = Point(x: real, y: real)

  /** A WPF `Rect`: corner and extent. */
  datatype Rect = Rect(x: real, y: real, w: real, h: real)

  /** `imgScale` and `imgTranslate`: screen = image * scale + translate. */
  datatype View = View(sx: real, sy: real, tx: real, ty: real)

  /** The integer region passed to `CropImage` and `SaveRoiImage`. */
  datatype Region = Region(x: int, y: int, w: int, h: int)

  function Min(a: real, b: real): real
  {
    if a <= b then a else b
  }

  function Abs(a: real): real
  {
    if a < 0.0 then -a else a
  }

  /** Where an image point appears on the border. */
  function ToScreen(v: View, p: Point): Point
  {
    Point(p.x * v.sx + v.tx, p.y * v.sy + v.ty)
  }

  /** The image point shown at a border point. */
  function ToImage(v: View, p: Point): Point
    requires v.sx != 0.0 && v.sy != 0.0
  {
    Point((p.x - v.tx) / v.sx, (p.y - v.ty) / v.sy)
  }

  /** The two mappings are inverse to each other. */
  lemma ScreenImageInverse(v: View, p: Point)
    requires v.sx != 0.0 && v.sy != 0.0
    ensures ToImage(v, ToScreen(v, p)) == p
    ensures ToScreen(v, ToImage(v, p)) == p
  {
  }

  // ---------------------------------------------------------------------
  // Fit to screen
  // ---------------------------------------------------------------------

  /** The scale `FitImageToScreen` applies: the smaller of the two ratios,
      never above 1, then 95% of it. */
  function FitScale(bw: real, bh: real, iw: real, ih: real): (s: real)
    requires bw > 0.0 && bh > 0.0 && iw > 0.0 && ih > 0.0
    ensures 0.0 < s <= 0.95
    ensures iw * s <= bw && ih * s <= bh
  {
    var m := Min(bw / iw, bh / ih);
    var c := if m > 1.0 then 1.0 else m;
    ScaledFits(iw, c, bw);
    ScaledFits(ih, c, bh);
    c * 0.95
  }

  /** A scale at most `b / i`, reduced to 95%, maps an extent `i` into `b`. */
  lemma ScaledFits(i: real, c: real, b: real)
    requires i > 0.0 && 0.0 < c <= b / i
    ensures i * (c * 0.95) <= b
  {
    calc {
      i * (c * 0.95);
    ==
      (i * c) * 0.95;
    <=
      i * c;
    <=
      i * (b / i);
    ==
      b;
    }
  }

  /** The fitted scale is as large as the rules allow: either it is the cap
      0.95, or the image fills 95% of the border's width or of its height. */
  lemma FitScaleTight(bw: real, bh: real, iw: real, ih: real)
    requires bw > 0.0 && bh > 0.0 && iw > 0.0 && ih > 0.0
    ensures var s := FitScale(bw, bh, iw, ih);
      s == 0.95 || iw * s == 0.95 * bw || ih * s == 0.95 * bh
  {
    assert iw * (bw / iw) == bw;
    assert ih * (bh / ih) == bh;
  }

  /** The transform after `FitImageToScreen`: the fitted scale on both axes
      and the scaled image centred in the border. */
  function Fit(bw: real, bh: real, iw: real, ih: real): View
    requires bw > 0.0 && bh > 0.0 && iw > 0.0 && ih > 0.0
  {
    var s := FitScale(bw, bh, iw, ih);
    View(s, s, (bw - iw * s) / 2.0, (bh - ih * s) / 2.0)
  }

  /** The fitted image lies inside the border with equal margins on
      opposite sides. */
  lemma FitCentred(bw: real, bh: real, iw: real, ih: real)
    requires bw > 0.0 && bh > 0.0 && iw > 0.0 && ih > 0.0
    ensures var v := Fit(bw, bh, iw, ih);
      var far := ToScreen(v, Point(iw, ih));
      && v.sx == v.sy <= 0.95
      && 0.0 <= v.tx && 0.0 <= v.ty
      && v.tx == bw - far.x && v.ty == bh - far.y
  {
  }

  /** An 800 x 600 border and a 400 x 300 image: the cap applies and the
      image is centred at (210, 157.5). */
  lemma FitExample()
    ensures Fit(800.0, 600.0, 400.0, 300.0) == View(0.95, 0.95, 210.0, 157.5)
  {
    assert 800.0 / 400.0 == 2.0;
    assert 600.0 / 300.0 == 2.0;
  }

  // ---------------------------------------------------------------------
  // Zoom and pan
  // ---------------------------------------------------------------------

  /** 1.2 for a wheel turned forward, 1 / 1.2 otherwise. */
  function ZoomFactor(delta: int): (z: real)
    ensures z > 0.0
    ensures delta > 0 ==> z == 1.2
    ensures delta <= 0 ==> z * 1.2 == 1.0
  {
    if delta > 0 then 1.2 else 1.0 / 1.2
  }

  /** The wheel: both scales multiplied by the factor, the translation
      moved so that the cursor `p` stays where it is. */
  function Zoom(v: View, p: Point, delta: int): View
  {
    var z := ZoomFactor(delta);
    View(v.sx * z, v.sy * z, p.x - (p.x - v.tx) * z, p.y - (p.y - v.ty) * z)
  }

  /** The image point under the cursor is the same before and after a zoom. */
  lemma ZoomAnchored(v: View, p: Point, delta: int)
    requires v.sx != 0.0 && v.sy != 0.0
    ensures var w := Zoom(v, p, delta);
      w.sx != 0.0 && w.sy != 0.0 && ToImage(w, p) == ToImage(v, p)
  {
    var z := ZoomFactor(delta);
    var w := Zoom(v, p, delta);
    assert w.sx != 0.0 && w.sy != 0.0;
    assert p.x - w.tx == (p.x - v.tx) * z;
    assert p.y - w.ty == (p.y - v.ty) * z;
    assert ((p.x - v.tx) * z) / (v.sx * z) == (p.x - v.tx) / v.sx;
    assert ((p.y - v.ty) * z) / (v.sy * z) == (p.y - v.ty) / v.sy;
  }

  /** Zooming in and then out at the same cursor position restores the view. */
  lemma ZoomInThenOut(v: View, p: Point)
    ensures Zoom(Zoom(v, p, 1), p, -1) == v
  {
    var z := ZoomFactor(-1);
    assert 1.2 * z == 1.0;
    assert v.sx * 1.2 * z == v.sx;
    assert v.sy * 1.2 * z == v.sy;
    assert (p.x - v.tx) * 1.2 * z == p.x - v.tx;
    assert (p.y - v.ty) * 1.2 * z == p.y - v.ty;
  }

  /** The translation while panning: the translation at the middle-button
      press plus the cursor's displacement since then. */
  function Pan(origin: Point, start: Point, cursor: Point): Point
  {
    Point(origin.x + (cursor.x - start.x), origin.y + (cursor.y - start.y))
  }

  /** Returning the cursor to where the press happened restores the
      translation, and the image point grabbed at the press stays under the
      cursor throughout. */
  lemma PanFollowsCursor(sx: real, sy: real, origin: Point, start: Point, cursor: Point)
    requires sx != 0.0 && sy != 0.0
    ensures Pan(origin, start, start) == origin
    ensures var t := Pan(origin, start, cursor);
      ToImage(View(sx, sy, t.x, t.y), cursor) == ToImage(View(sx, sy, origin.x, origin.y), start)
  {
  }

  // ---------------------------------------------------------------------
  // The region of interest
  // ---------------------------------------------------------------------

  /** `UpdateRoiVisual`'s rectangle: the least corner and the absolute extents. */
  function Normalize(a: Point, b: Point): (r: Rect)
    ensures r.w >= 0.0 && r.h >= 0.0
  {
    Rect(Min(a.x, b.x), Min(a.y, b.y), Abs(b.x - a.x), Abs(b.y - a.y))
  }

  /** The rectangle does not depend on which corner came first, and spans
      exactly the two points. */
  lemma NormalizeSpans(a: Point, b: Point)
    ensures Normalize(a, b) == Normalize(b, a)
    ensures var r := Normalize(a, b);
      && r.x <= a.x <= r.x + r.w && r.x <= b.x <= r.x + r.w
      && r.y <= a.y <= r.y + r.h && r.y <= b.y <= r.y + r.h
      && (r.x == a.x || r.x == b.x) && (r.x + r.w == a.x || r.x + r.w == b.x)
      && (r.y == a.y || r.y == b.y) && (r.y + r.h == a.y || r.y + r.h == b.y)
  {
  }

  /** The rectangle drawn on the border for an image rectangle. */
  function OnScreen(r: Rect, v: View): Rect
  {
    Rect(r.x * v.sx + v.tx, r.y * v.sy + v.ty, r.w * v.sx, r.h * v.sy)
  }

  /** The drawn rectangle's corners are the screen images of the region's
      corners. */
  lemma OnScreenCorners(r: Rect, v: View)
    ensures var s := OnScreen(r, v);
      && ToScreen(v, Point(r.x, r.y)) == Point(s.x, s.y)
      && ToScreen(v, Point(r.x + r.w, r.y + r.h)) == Point(s.x + s.w, s.y + s.h)
  {
    assert (r.x + r.w) * v.sx == r.x * v.sx + r.w * v.sx;
    assert (r.y + r.h) * v.sy == r.y * v.sy + r.h * v.sy;
  }

  /** The end point of a drag, limited to the image, left and top first. */
  function Clamp(p: Point, width: nat, height: nat): (q: Point)
    ensures 0.0 <= q.x <= width as real && 0.0 <= q.y <= height as real
    ensures 0.0 <= p.x <= width as real && 0.0 <= p.y <= height as real ==> q == p
  {
    var x0 := if p.x < 0.0 then 0.0 else p.x;
    var y0 := if p.y < 0.0 then 0.0 else p.y;
    var x1 := if x0 > width as real then width as real else x0;
    var y1 := if y0 > height as real then height as real else y0;
    Point(x1, y1)
  }

  /** A rectangle within the image `[0, width] x [0, height]`. */
  predicate Within(r: Rect, width: nat, height: nat)
  {
    0.0 <= r.x && 0.0 <= r.y && 0.0 <= r.w && 0.0 <= r.h
    && r.x + r.w <= width as real && r.y + r.h <= height as real
  }

  /** A point inside the image where the drag began. */
  predicate Inside(p: Point, width: nat, height: nat)
  {
    0.0 <= p.x < width as real && 0.0 <= p.y < height as real
  }

  /** A drag that starts inside the image, with its end point clamped,
      gives a rectangle within the image. */
  lemma DragWithin(start: Point, end: Point, width: nat, height: nat)
    requires Inside(start, width, height)
    ensures Within(Normalize(start, Clamp(end, width, height)), width, height)
  {
  }

  // ---------------------------------------------------------------------
  // The integer region
  // ---------------------------------------------------------------------

  /** The C# `(int)` cast of a double: truncation toward zero. */
  function Trunc(r: real): (t: int)
    ensures r >= 0.0 ==> 0 <= t && t as real <= r < t as real + 1.0
    ensures r < 0.0 ==> t <= 0 && t as real - 1.0 < r <= t as real
  {
    if r >= 0.0 then r.Floor else -((-r).Floor)
  }

  /** Truncating two non-negative parts never exceeds truncating their sum. */
  lemma TruncAdd(a: real, b: real)
    requires a >= 0.0 && b >= 0.0
    ensures Trunc(a) + Trunc(b) <= Trunc(a + b)
  {
  }

  /** The guard of the crop and save menu items as written: the real
      extents are tested, and the truncated ones are passed on. */
  function RegionAsWritten(roi: Rect): (g: Option<Region>)
    ensures g.Some? <==> roi.w > 0.0 && roi.h > 0.0
    ensures g.Some? ==> g.value.w == Trunc(roi.w) >= 0 && g.value.h == Trunc(roi.h) >= 0
  {
    if roi.w <= 0.0 || roi.h <= 0.0 then None
    else Some(Region(Trunc(roi.x), Trunc(roi.y), Trunc(roi.w), Trunc(roi.h)))
  }

  /** A rectangle narrower than one pixel passes the guard as written and
      reaches the service as an empty region. */
  lemma RegionAsWrittenEmpty()
    ensures RegionAsWritten(Rect(0.0, 0.0, 0.5, 10.0)) == Some(Region(0, 0, 0, 10))
  {
  }

  /** The guard tested on the values actually passed: only a region of at
      least one pixel each way reaches the service. */
  function RegionOf(roi: Rect): (g: Option<Region>)
    ensures g.Some? ==> g.value.w >= 1 && g.value.h >= 1
  {
    var r := Region(Trunc(roi.x), Trunc(roi.y), Trunc(roi.w), Trunc(roi.h));
    if r.w < 1 || r.h < 1 then None else Some(r)
  }

  /** For a rectangle within the image, the corrected guard lets through
      exactly the rectangles at least one pixel wide and high, and the
      region it passes lies inside the image. Where the rectangle is that
      large, the guard as written passes the same region. */
  lemma RegionOfWithin(roi: Rect, width: nat, height: nat)
    requires Within(roi, width, height)
    ensures RegionOf(roi).Some? <==> roi.w >= 1.0 && roi.h >= 1.0
    ensures RegionOf(roi).Some? ==>
      var g := RegionOf(roi).value;
      0 <= g.x && 0 <= g.y && g.x + g.w <= width && g.y + g.h <= height
    ensures roi.w >= 1.0 && roi.h >= 1.0 ==> RegionAsWritten(roi) == RegionOf(roi)
  {
    TruncAdd(roi.x, roi.w);
    TruncAdd(roi.y, roi.h);
    assert Trunc(roi.x + roi.w) <= width;
    assert Trunc(roi.y + roi.h) <= height;
  }
}
