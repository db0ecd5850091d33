/** Two-finger pinch zoom on touch screens. Between touch events the canvas
    keeps the last two-finger centre, the last finger distance (0 standing for
    none) and whether it suspended a stage drag. A pinch transforms the stage
    only from its third two-finger event on: the first records the centre, the
    second the distance. The finger distance is an input: the square root the
    code takes is only constrained (`IsDistance`). */
module Gestures {
  import opened Wrappers
  import opened Schemas
  import opened Viewport

  datatype Pinch = Pinch(lastCenter: Option<Point>, lastDist: real, dragStopped: bool)

  /** The refs as first created. */
  const Fresh := Pinch(None, 0.0, false)

  /** What the handlers read and change on the stage: its transform, and
      whether Konva's own drag is in progress. */
  datatype Stage = Stage(transform: Transform, dragging: bool)

  /** The state after one touch event, and the scale given to every pin when
      the stage was rescaled (absent when it was not, or when the new scale is
      0 and the code's `1 / 0` is infinite). */
  datatype Frame = Frame(pinch: Pinch, stage: Stage, pinScale: Option<real>)

  function Center(p1: Point, p2: Point): (c: Point)
    ensures c.x - p1.x == p2.x - c.x && c.y - p1.y == p2.y - c.y
  {
    Point((p1.x + p2.x) / 2.0, (p1.y + p2.y) / 2.0)
  }

  /** `d` is the Euclidean distance between the points. */
  predicate IsDistance(p1: Point, p2: Point, d: real) {
    var dx := p2.x - p1.x;
    var dy := p2.y - p1.y;
    d >= 0.0 && d * d == dx * dx + dy * dy
  }

  /** The centre shifted by how far it moved since the last event. */
  function Shifted(center: Point, last: Point): Point {
    Point(center.x + (center.x - last.x), center.y + (center.y - last.y))
  }

  /** `handleTouchMove`, given the current touch points (in order) and the
      distance between the first two. */
  function TouchMove(g: Pinch, stage: Option<Stage>, touches: seq<Point>, dist: real): (r: Option<Frame>)
    requires |touches| >= 2 ==> IsDistance(touches[0], touches[1], dist)
    requires stage.Some? ==> stage.value.transform.scale != 0.0
    ensures r.None? <==> stage.None?
    // one finger: a suspended drag is resumed, nothing else changes
    ensures r.Some? && |touches| < 2 ==>
              var f := r.value; var st := stage.value;
              var resume := |touches| == 1 && !st.dragging && g.dragStopped;
              && f.stage.transform == st.transform && f.pinScale.None?
              && f.pinch.lastCenter == g.lastCenter && f.pinch.lastDist == g.lastDist
              && f.stage.dragging == (st.dragging || resume)
              && f.pinch.dragStopped == (g.dragStopped && !resume)
    // two fingers: a running drag is suspended
    ensures r.Some? && |touches| >= 2 ==>
              && !r.value.stage.dragging
              && r.value.pinch.dragStopped == (g.dragStopped || stage.value.dragging)
    // first two-finger event: only the centre is recorded
    ensures r.Some? && |touches| >= 2 && g.lastCenter.None? ==>
              var f := r.value;
              && f.pinch.lastCenter == Some(Center(touches[0], touches[1]))
              && f.pinch.lastDist == g.lastDist
              && f.stage.transform == stage.value.transform && f.pinScale.None?
    // no distance yet: only the distance is recorded
    ensures r.Some? && |touches| >= 2 && g.lastCenter.Some? && g.lastDist == 0.0 ==>
              var f := r.value;
              && f.pinch.lastCenter == g.lastCenter && f.pinch.lastDist == dist
              && f.stage.transform == stage.value.transform && f.pinScale.None?
    // later events: the stage is scaled by the distance ratio, and the stage
    // point that the touch centre names, read as a container position, is put
    // under the centre moved once more by how far the centre moved (the
    // touches are client coordinates, so this is the point under the fingers
    // only when the container sits at the viewport's origin)
    ensures r.Some? && |touches| >= 2 && g.lastCenter.Some? && g.lastDist != 0.0 ==>
              var f := r.value; var prev := stage.value.transform;
              var center := Center(touches[0], touches[1]);
              && f.stage.transform.scale == prev.scale * dist / g.lastDist
              && ToScreen(f.stage.transform, ToWorld(prev, center)) == Shifted(center, g.lastCenter.value)
              && f.pinch.lastCenter == Some(center) && f.pinch.lastDist == dist
              && (f.pinScale.Some? <==> dist != 0.0)
              && (f.pinScale.Some? ==> f.pinScale.value * f.stage.transform.scale == 1.0)
  {
    match stage
    case None => None
    case Some(st) =>
      var resume := |touches| == 1 && !st.dragging && g.dragStopped;
      var g1 := if resume then g.(dragStopped := false) else g;
      var st1 := if resume then st.(dragging := true) else st;
      if |touches| < 2 then Some(Frame(g1, st1, None))
      else
        var g2 := if st1.dragging then g1.(dragStopped := true) else g1;
        var st2 := st1.(dragging := false);
        var center := Center(touches[0], touches[1]);
        if g2.lastCenter.None? then Some(Frame(g2.(lastCenter := Some(center)), st2, None))
        else if g2.lastDist == 0.0 then Some(Frame(g2.(lastDist := dist), st2, None))
        else
          var prev := st2.transform;
          var pointTo := ToWorld(prev, center);
          var scale := prev.scale * (dist / g2.lastDist);
          var last := g2.lastCenter.value;
          var t := Transform(scale,
                             center.x - pointTo.x * scale + (center.x - last.x),
                             center.y - pointTo.y * scale + (center.y - last.y));
          PinchAnchor(pointTo, center, last, scale);
          var pins := if scale != 0.0 then DivideThenScale(1.0, scale); Some(1.0 / scale) else None;
          Some(Frame(Pinch(Some(center), dist, g2.dragStopped), st2.(transform := t), pins))
  }

  /** Placing the stage at `center - w * scale` plus the centre's movement
      puts the world point `w` under the moved centre. */
  lemma PinchAnchor(w: Point, center: Point, last: Point, scale: real)
    ensures ToScreen(Transform(scale, center.x - w.x * scale + (center.x - last.x),
                               center.y - w.y * scale + (center.y - last.y)), w)
            == Shifted(center, last)
  {
    var t := Transform(scale, center.x - w.x * scale + (center.x - last.x),
                       center.y - w.y * scale + (center.y - last.y));
    ScreenOfComponents(t, w, Shifted(center, last));
  }

  /** `handleTouchEnd`: the pinch starts over with the next two-finger
      event. */
  function TouchEnd(g: Pinch): (r: Pinch)
    ensures r.lastCenter.None? && r.lastDist == 0.0
    ensures r.dragStopped == g.dragStopped
  {
    g.(lastDist := 0.0, lastCenter := None)
  }

  /** Two fingers placed `d` apart horizontally about `c`. */
  function Spread(c: Point, d: real): (touches: seq<Point>)
    requires d >= 0.0
    ensures |touches| == 2 && Center(touches[0], touches[1]) == c
    ensures IsDistance(touches[0], touches[1], d)
  {
    [Point(c.x - d / 2.0, c.y), Point(c.x + d / 2.0, c.y)]
  }

  /** After a touch end, the next two two-finger events only record the
      centre and then the distance; the stage is untouched until the third. */
  lemma PinchSeeding(g: Pinch, st: Stage, c1: Point, c2: Point, d1: real, d2: real)
    requires st.transform.scale != 0.0 && d1 > 0.0 && d2 >= 0.0
    ensures var f1 := TouchMove(TouchEnd(g), Some(st), Spread(c1, d1), d1).value;
            var f2 := TouchMove(f1.pinch, Some(f1.stage), Spread(c2, d2), d2).value;
            && f1.stage.transform == st.transform && f1.pinch.lastCenter == Some(c1)
            && f2.stage.transform == st.transform && f2.pinch.lastCenter == Some(c1)
            && f2.pinch.lastDist == d2
  {
  }

  /** Spreading the fingers from `d1` to `d2` and back, without moving their
      centre, restores the stage exactly. */
  lemma PinchRoundTrip(g: Pinch, st: Stage, c: Point, d1: real, d2: real)
    requires g.lastCenter == Some(c) && g.lastDist == d1
    requires st.transform.scale != 0.0 && d1 > 0.0 && d2 > 0.0
    ensures var f1 := TouchMove(g, Some(st), Spread(c, d2), d2).value;
            var f2 := TouchMove(f1.pinch, Some(f1.stage), Spread(c, d1), d1).value;
            f2.stage.transform == st.transform
  {
    var t := st.transform;
    var f1 := TouchMove(g, Some(st), Spread(c, d2), d2).value;
    var t1 := f1.stage.transform;
    assert t1.scale == t.scale * d2 / d1;
    assert t1.scale != 0.0;
    assert ToScreen(t1, ToWorld(t, c)) == c;
    WorldScreenRoundTrip(t1, ToWorld(t, c));
    var f2 := TouchMove(f1.pinch, Some(f1.stage), Spread(c, d1), d1).value;
    var t2 := f2.stage.transform;
    assert t2.scale == t1.scale * d1 / d2;
    assert t2.scale == t.scale by {
      assert t.scale * d2 / d1 * d1 / d2 == t.scale;
    }
    assert ToScreen(t2, ToWorld(t1, c)) == c;
    WorldScreenRoundTrip(t2, ToWorld(t1, c));
    SameScaleSameAnchor(t2, t, c);
  }
}
