/** The canvas viewport: the stage transform (one uniform scale and a
    position) that maps floor-plan coordinates to the screen, fitting the plan
    into its container, and zooming with the wheel about the pointer.
    Coordinates are exact reals. The stage's own transform and the copy kept
    in React state are always written together, so they are one value here. */
module Viewport {
  import opened Wrappers
  import opened Schemas

  /** `screen = world * scale + (x, y)`. */
  datatype Transform = Transform(scale: real, x: real, y: real)

  /** The stage transform before the plan has been fitted. */
  const Initial := Transform(1.0, 0.0, 0.0)

  function ToScreen(t: Transform, w: Point): (p: Point) {
    Point(w.x * t.scale + t.x, w.y * t.scale + t.y)
  }

  /** Stage coordinates of a screen point (`getRelativePointerPosition`, and
      the `pointTo` computations of the zoom handlers). */
  function ToWorld(t: Transform, p: Point): (w: Point)
    requires t.scale != 0.0
    ensures ToScreen(t, w) == p
  {
    var w := Point((p.x - t.x) / t.scale, (p.y - t.y) / t.scale);
    DivideThenScale(p.x - t.x, t.scale);
    DivideThenScale(p.y - t.y, t.scale);
    ScreenOfComponents(t, w, p);
    w
  }

  /** A world point whose coordinates both map to those of `p` maps to `p`. */
  lemma ScreenOfComponents(t: Transform, w: Point, p: Point)
    requires w.x * t.scale + t.x == p.x && w.y * t.scale + t.y == p.y
    ensures ToScreen(t, w) == p
  {
  }

  /** Dividing by a non-zero scale and multiplying back is the identity. */
  lemma DivideThenScale(a: real, scale: real)
    requires scale != 0.0
    ensures a / scale * scale == a
  {
  }

  /** Screen and world coordinates are in one-to-one correspondence. */
  lemma WorldScreenRoundTrip(t: Transform, w: Point)
    requires t.scale != 0.0
    ensures ToWorld(t, ToScreen(t, w)) == w
  {
  }

  /** The container's offset size, in whole pixels. */
  datatype Container = Container(width: nat, height: nat)

  /** The loaded plan image's size. */
  datatype Size = Size(width: real, height: real)

  datatype Fit = Fit(stageSize: Container, transform: Transform)

  function Min(a: real, b: real): real {
    if a <= b then a else b
  }

  /** `updateSize`: with a container, an image and a stage, the stage takes
      the container's size and the largest scale at which the whole plan is
      visible, centred. With any of them missing nothing happens. */
  function UpdateSize(container: Option<Container>, image: Option<Size>, hasStage: bool): (r: Option<Fit>)
    requires image.Some? ==> image.value.width > 0.0 && image.value.height > 0.0
    ensures r.Some? <==> container.Some? && image.Some? && hasStage
    ensures r.Some? ==>
              var cw := container.value.width as real;
              var ch := container.value.height as real;
              var im := image.value;
              var t := r.value.transform;
              && r.value.stageSize == container.value
              && t.scale >= 0.0
              && im.width * t.scale <= cw && im.height * t.scale <= ch
              && (im.width * t.scale == cw || im.height * t.scale == ch)
              && t.x >= 0.0 && t.y >= 0.0
              && t.x + im.width * t.scale + t.x == cw
              && t.y + im.height * t.scale + t.y == ch
  {
    if container.None? || image.None? || !hasStage then None
    else
      var cw := container.value.width as real;
      var ch := container.value.height as real;
      var im := image.value;
      var scale := Min(cw / im.width, ch / im.height);
      FitBounds(cw, im.width, scale);
      FitBounds(ch, im.height, scale);
      var x := (cw - im.width * scale) / 2.0;
      var y := (ch - im.height * scale) / 2.0;
      Some(Fit(container.value, Transform(scale, x, y)))
  }

  /** `scale <= c / d` means the side of length `d` fits into `c`, exactly
      when equal. */
  lemma FitBounds(c: real, d: real, scale: real)
    requires c >= 0.0 && d > 0.0 && 0.0 <= scale <= c / d
    ensures d * scale <= c
    ensures scale == c / d ==> d * scale == c
  {
    assert d * (c / d) == c;
    assert d * scale <= d * (c / d);
  }

  /** The zoom step of one wheel event. */
  const ScaleBy: real := 1.02

  /** A wheel event zooms in when scrolled down (`deltaY > 0`); with the ctrl
      key held (a trackpad pinch) the direction is inverted. */
  predicate ZoomsIn(deltaY: real, ctrlKey: bool) {
    (deltaY > 0.0) != ctrlKey
  }

  /** The new stage transform and the scale every pin receives so that pins
      keep their size on screen. */
  datatype Zoom = Zoom(transform: Transform, pinScale: real)

  /** `handleWheel`: scales by `ScaleBy` one way or the other about the
      pointer. Without a stage or a pointer nothing happens. */
  function Wheel(stage: Option<Transform>, pointer: Option<Point>, deltaY: real, ctrlKey: bool): (r: Option<Zoom>)
    requires stage.Some? ==> stage.value.scale != 0.0
    ensures r.Some? <==> stage.Some? && pointer.Some?
    ensures r.Some? ==>
              var prev := stage.value;
              var t := r.value.transform;
              && t.scale == (if ZoomsIn(deltaY, ctrlKey) then prev.scale * ScaleBy else prev.scale / ScaleBy)
              && t.scale != 0.0
              && (prev.scale > 0.0 ==> t.scale > 0.0)
              && ToWorld(t, pointer.value) == ToWorld(prev, pointer.value)
              && r.value.pinScale * t.scale == 1.0
  {
    if stage.None? || pointer.None? then None
    else
      var prev := stage.value;
      var p := pointer.value;
      var pointTo := ToWorld(prev, p);
      var direction := if deltaY > 0.0 then 1 else -1;
      var direction := if ctrlKey then -direction else direction;
      var scale := if direction > 0 then prev.scale * ScaleBy else prev.scale / ScaleBy;
      var t := Transform(scale, p.x - pointTo.x * scale, p.y - pointTo.y * scale);
      AnchorKept(p, pointTo, scale);
      Some(Zoom(t, 1.0 / scale))
  }

  /** Placing the stage at `p - w * scale` puts the world point `w` under the
      screen point `p`. */
  lemma AnchorKept(p: Point, w: Point, scale: real)
    requires scale != 0.0
    ensures ToWorld(Transform(scale, p.x - w.x * scale, p.y - w.y * scale), p) == w
  {
    var t := Transform(scale, p.x - w.x * scale, p.y - w.y * scale);
    assert (p.x - t.x) / scale == w.x * scale / scale;
    assert (p.y - t.y) / scale == w.y * scale / scale;
  }

  /** One step in and one step out at the same pointer restore the
      transform exactly. */
  lemma ZoomInOutRoundTrip(t: Transform, p: Point, deltaY: real, ctrlKey: bool)
    requires t.scale != 0.0 && deltaY != 0.0
    ensures var once := Wheel(Some(t), Some(p), deltaY, ctrlKey).value.transform;
            Wheel(Some(once), Some(p), -deltaY, ctrlKey).value.transform == t
  {
    var once := Wheel(Some(t), Some(p), deltaY, ctrlKey).value.transform;
    var twice := Wheel(Some(once), Some(p), -deltaY, ctrlKey).value.transform;
    assert twice.scale == t.scale;
    assert ToWorld(twice, p) == ToWorld(t, p);
    SameScaleSameAnchor(twice, t, p);
  }

  /** Two transforms with the same scale that put the same world point under
      a screen point are equal. */
  lemma SameScaleSameAnchor(a: Transform, b: Transform, p: Point)
    requires a.scale == b.scale != 0.0 && ToWorld(a, p) == ToWorld(b, p)
    ensures a == b
  {
    assert ToScreen(a, ToWorld(a, p)) == p == ToScreen(b, ToWorld(b, p));
  }

  /** The ctrl key swaps the two directions of a non-zero scroll. */
  lemma CtrlInverts(t: Transform, p: Point, deltaY: real)
    requires t.scale != 0.0 && deltaY != 0.0
    ensures Wheel(Some(t), Some(p), deltaY, true) == Wheel(Some(t), Some(p), -deltaY, false)
  {
    var a := Wheel(Some(t), Some(p), deltaY, true).value;
    var b := Wheel(Some(t), Some(p), -deltaY, false).value;
    assert a.transform.scale == b.transform.scale;
    assert ToWorld(a.transform, p) == ToWorld(b.transform, p);
    SameScaleSameAnchor(a.transform, b.transform, p);
    assert a.pinScale == 1.0 / a.transform.scale && b.pinScale == 1.0 / b.transform.scale;
    assert a == b;
  }
}
