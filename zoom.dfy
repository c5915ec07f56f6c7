/** The zoom and pan state of the canvas (useCanvasZoom): the wheel moves the
    zoom one step and clamps it, and pan deltas are added componentwise. */
module CanvasZoom {
  import opened GridGeometry

  const MIN_ZOOM: real := 0.1
  const MAX_ZOOM: real := 10.0
  const ZOOM_STEP: real := 0.1
  const INITIAL_ZOOM: real := 1.0

  function Clamp(z: real): (r: real)
    ensures MIN_ZOOM <= r <= MAX_ZOOM
    ensures MIN_ZOOM <= z <= MAX_ZOOM ==> r == z
    ensures z < MIN_ZOOM ==> r == MIN_ZOOM
    ensures z > MAX_ZOOM ==> r == MAX_ZOOM
  {
    if z < MIN_ZOOM then MIN_ZOOM else if z > MAX_ZOOM then MAX_ZOOM else z
  }

  /** The zoom after one wheel event: scrolling down (deltaY > 0) zooms out by
      one step, anything else (including deltaY == 0) zooms in by one step,
      and the result is clamped to [MIN_ZOOM, MAX_ZOOM]. */
  function NextZoom(prev: real, deltaY: real): (z: real)
    ensures MIN_ZOOM <= z <= MAX_ZOOM
    ensures deltaY > 0.0 && MIN_ZOOM <= prev ==> z <= prev
    ensures deltaY <= 0.0 && prev <= MAX_ZOOM ==> z >= prev
    ensures deltaY > 0.0 && MIN_ZOOM + ZOOM_STEP <= prev <= MAX_ZOOM + ZOOM_STEP ==> z == prev - ZOOM_STEP
    ensures deltaY <= 0.0 && MIN_ZOOM - ZOOM_STEP <= prev <= MAX_ZOOM - ZOOM_STEP ==> z == prev + ZOOM_STEP
    ensures deltaY > 0.0 && prev < MIN_ZOOM + ZOOM_STEP ==> z == MIN_ZOOM
    ensures deltaY <= 0.0 && prev > MAX_ZOOM - ZOOM_STEP ==> z == MAX_ZOOM
  {
    var delta := if deltaY > 0.0 then -ZOOM_STEP else ZOOM_STEP;
    Clamp(prev + delta)
  }

  /** The zoom saturates: zooming in at the maximum and out at the minimum
      leave it where it is. */
  lemma ZoomSaturates(deltaY: real)
    ensures deltaY <= 0.0 ==> NextZoom(MAX_ZOOM, deltaY) == MAX_ZOOM
    ensures deltaY > 0.0 ==> NextZoom(MIN_ZOOM, deltaY) == MIN_ZOOM
  {
  }

  /** The zoom after a sequence of wheel events, given by their deltaY values. */
  function ZoomAfter(zoom: real, wheel: seq<real>): real
    decreases wheel
  {
    if wheel == [] then zoom else ZoomAfter(NextZoom(zoom, wheel[0]), wheel[1..])
  }

  /** However many wheel events arrive, a zoom that starts in range stays in range. */
  lemma {:induction false} ZoomStaysInRange(zoom: real, wheel: seq<real>)
    requires MIN_ZOOM <= zoom <= MAX_ZOOM
    ensures MIN_ZOOM <= ZoomAfter(zoom, wheel) <= MAX_ZOOM
    decreases wheel
  {
    if wheel != [] {
      ZoomStaysInRange(NextZoom(zoom, wheel[0]), wheel[1..]);
    }
  }

  /** k wheel-ups in a row from an in-range zoom give min(zoom + k * step, MAX_ZOOM). */
  lemma {:induction false} RepeatedZoomIn(zoom: real, wheel: seq<real>)
    requires MIN_ZOOM <= zoom <= MAX_ZOOM
    requires forall i | 0 <= i < |wheel| :: wheel[i] <= 0.0
    ensures ZoomAfter(zoom, wheel) == Min(zoom + |wheel| as real * ZOOM_STEP, MAX_ZOOM)
    decreases wheel
  {
    if wheel != [] {
      var next := NextZoom(zoom, wheel[0]);
      assert next == Min(zoom + ZOOM_STEP, MAX_ZOOM);
      RepeatedZoomIn(next, wheel[1..]);
    }
  }

  /** The pan after a sequence of updatePan calls. */
  function PanAfter(pan: Point, deltas: seq<Point>): Point
    decreases deltas
  {
    if deltas == [] then pan
    else PanAfter(Point(pan.x + deltas[0].x, pan.y + deltas[0].y), deltas[1..])
  }

  function Total(deltas: seq<Point>): Point
  {
    if deltas == [] then Point(0.0, 0.0)
    else Point(deltas[0].x + Total(deltas[1..]).x, deltas[0].y + Total(deltas[1..]).y)
  }

  /** A sequence of pans adds up: the final pan is the start plus the sum of the deltas. */
  lemma {:induction false} PansAccumulate(pan: Point, deltas: seq<Point>)
    ensures PanAfter(pan, deltas) == Point(pan.x + Total(deltas).x, pan.y + Total(deltas).y)
    decreases deltas
  {
    if deltas != [] {
      PansAccumulate(Point(pan.x + deltas[0].x, pan.y + deltas[0].y), deltas[1..]);
    }
  }

  /** The hook's state: `zoom` and `pan` are overwritten by each handler. */
  class ZoomState {
    var zoom: real
    var pan: Point

    ghost predicate Valid()
      reads this
    {
      MIN_ZOOM <= zoom <= MAX_ZOOM
    }

    constructor ()
      ensures Valid()
      ensures zoom == INITIAL_ZOOM && pan == Point(0.0, 0.0)
    {
      zoom := INITIAL_ZOOM;
      pan := Point(0.0, 0.0);
    }

    /** handleWheel: changes the zoom only, never the pan. */
    method HandleWheel(deltaY: real)
      modifies this`zoom
      ensures Valid()
      ensures zoom == NextZoom(old(zoom), deltaY)
      ensures pan == old(pan)
    {
      var delta := if deltaY > 0.0 then -ZOOM_STEP else ZOOM_STEP;
      zoom := Clamp(zoom + delta);
    }

    /** updatePan: adds the delta to the pan and never changes the zoom. */
    method UpdatePan(deltaX: real, deltaY: real)
      requires Valid()
      modifies this`pan
      ensures Valid()
      ensures pan == PanAfter(old(pan), [Point(deltaX, deltaY)])
      ensures zoom == old(zoom)
    {
      pan := Point(pan.x + deltaX, pan.y + deltaY);
    }

    /** setPan: the raw setter the hook also returns. */
    method SetPan(p: Point)
      requires Valid()
      modifies this`pan
      ensures Valid()
      ensures pan == p && zoom == old(zoom)
    {
      pan := p;
    }
  }
}
