/** The press/drag/release state machine that both canvas revisions use
    (the useCanvasInteraction hook and src/components/PixelCanvas.tsx): what
    each pointer event does to isDragging, dragStart and hasDragged, which
    pan delta a move asks for, and whether a click is taken as a selection. */
module Gesture {
  import opened Options
  import opened GridGeometry

  const PRIMARY_BUTTON: int := 0
  /** A single move farther than this (in CSS pixels) counts as a drag. */
  const DRAG_THRESHOLD: real := 5.0

  datatype PressState = PressState(isDragging: bool, dragStart: Point, hasDragged: bool)

  /** The state every handler starts from. */
  const Initial: PressState := PressState(false, Point(0.0, 0.0), false)

  /** Math.sqrt(dx * dx + dy * dy) > 5, stated without the square root. */
  predicate BeyondThreshold(d: Point)
  {
    d.x * d.x + d.y * d.y > DRAG_THRESHOLD * DRAG_THRESHOLD
  }

  function Minus(p: Point, q: Point): Point { Point(p.x - q.x, p.y - q.y) }

  /** handleMouseDown: only the primary button starts a press. */
  function MouseDown(g: PressState, button: int, at: Point): (r: PressState)
    ensures button == PRIMARY_BUTTON ==> r.isDragging && !r.hasDragged && r.dragStart == at
    ensures button != PRIMARY_BUTTON ==> r == g
  {
    if button == PRIMARY_BUTTON then PressState(true, at, false) else g
  }

  /** The outcome of handleMouseMove: the new state and the delta it passes
      to updatePan, if it calls it at all. */
  datatype MoveOutcome = MoveOutcome(next: PressState, panDelta: Option<Point>)

  /** handleMouseMove: while dragging, the delta is measured from dragStart,
      which every move resets to the current point, so the threshold applies
      to each move on its own and not to the distance since the press. */
  function MouseMove(g: PressState, at: Point): (r: MoveOutcome)
    ensures r.panDelta.Some? <==> g.isDragging
    ensures !g.isDragging ==> r.next == g
    ensures g.isDragging ==> r.next.isDragging && r.next.dragStart == at
                             && g.dragStart.x + r.panDelta.value.x == at.x
                             && g.dragStart.y + r.panDelta.value.y == at.y
    ensures r.next.hasDragged <==> g.hasDragged || LongMove(g, Move(at))
  {
    if g.isDragging then
      var delta := Minus(at, g.dragStart);
      MoveOutcome(PressState(true, at, g.hasDragged || BeyondThreshold(delta)), Some(delta))
    else
      MoveOutcome(g, None)
  }

  /** handleMouseUp (and, in the combined canvas, mouse-leave). */
  function MouseUp(g: PressState): (r: PressState)
    ensures !r.isDragging && r.dragStart == g.dragStart && r.hasDragged == g.hasDragged
  {
    g.(isDragging := false)
  }

  /** A pointer event as the handlers receive it. */
  datatype PointerEvent = Down(button: int, at: Point) | Move(at: Point) | Up

  function Step(g: PressState, e: PointerEvent): MoveOutcome
  {
    match e
    case Down(b, p) => MoveOutcome(MouseDown(g, b, p), None)
    case Move(p) => MouseMove(g, p)
    case Up => MoveOutcome(MouseUp(g), None)
  }

  /** The state after a sequence of events. */
  function Run(g: PressState, events: seq<PointerEvent>): PressState
    decreases |events|
  {
    if events == [] then g
    else Step(Run(g, events[..|events| - 1]), events[|events| - 1]).next
  }

  /** The sum of all deltas passed to updatePan during a sequence of events. */
  function PanRequested(g: PressState, events: seq<PointerEvent>): Point
    decreases |events|
  {
    if events == [] then Point(0.0, 0.0)
    else
      var before := events[..|events| - 1];
      var sum := PanRequested(g, before);
      match Step(Run(g, before), events[|events| - 1]).panDelta
      case None => sum
      case Some(d) => Point(sum.x + d.x, sum.y + d.y)
  }

  predicate NoPrimaryPress(events: seq<PointerEvent>)
  {
    forall i | 0 <= i < |events| :: !(events[i].Down? && events[i].button == PRIMARY_BUTTON)
  }

  /** Event e, arriving in state g, is a move while dragging whose own delta
      exceeds the threshold. */
  predicate LongMove(g: PressState, e: PointerEvent)
  {
    e.Move? && g.isDragging && BeyondThreshold(Minus(e.at, g.dragStart))
  }

  /** One event other than a primary press latches hasDragged exactly when it
      is a long move, and never clears it. */
  lemma StepLatch(g: PressState, e: PointerEvent)
    requires !(e.Down? && e.button == PRIMARY_BUTTON)
    ensures Step(g, e).next.hasDragged <==> g.hasDragged || LongMove(g, e)
  {
  }

  /** Some move of the trace, taken in the state the trace had reached before
      it, was longer than the threshold while dragging. */
  predicate SomeLongMove(g: PressState, events: seq<PointerEvent>)
  {
    exists k | 0 <= k < |events| :: LongMove(Run(g, events[..k]), events[k])
  }

  /** A trace has a long move iff its prefix has one or its last event is one. */
  lemma LongMoveSplit(g: PressState, events: seq<PointerEvent>)
    requires events != []
    ensures var n := |events| - 1;
            SomeLongMove(g, events) <==> SomeLongMove(g, events[..n]) || LongMove(Run(g, events[..n]), events[n])
  {
    var n := |events| - 1;
    var before := events[..n];
    if SomeLongMove(g, events) {
      var k :| 0 <= k < |events| && LongMove(Run(g, events[..k]), events[k]);
      if k < n {
        LongMoveInPrefix(g, events, n, k);
      }
    }
    if SomeLongMove(g, before) {
      var k :| 0 <= k < |before| && LongMove(Run(g, before[..k]), before[k]);
      LongMoveInPrefix(g, events, n, k);
    }
  }

  /** Whether event k is a long move does not depend on what follows it. */
  lemma LongMoveInPrefix(g: PressState, events: seq<PointerEvent>, n: int, k: int)
    requires 0 <= k < n <= |events|
    ensures LongMove(Run(g, events[..n][..k]), events[..n][k]) == LongMove(Run(g, events[..k]), events[k])
  {
    assert events[..n][..k] == events[..k];
  }

  /** The latch: within one press (no further primary-button press),
      hasDragged ends up true exactly when it already was or some single
      move went beyond the threshold.  Moves and releases never clear it. */
  lemma {:induction false} DragLatch(g: PressState, events: seq<PointerEvent>)
    requires NoPrimaryPress(events)
    ensures Run(g, events).hasDragged <==> g.hasDragged || SomeLongMove(g, events)
    decreases |events|
  {
    if events != [] {
      var n := |events| - 1;
      var before := events[..n];
      assert NoPrimaryPress(before) by {
        forall i | 0 <= i < |before| ensures !(before[i].Down? && before[i].button == PRIMARY_BUTTON) {
          assert before[i] == events[i];
        }
      }
      DragLatch(g, before);
      assert Run(g, events) == Step(Run(g, before), events[n]).next;
      StepLatch(Run(g, before), events[n]);
      LongMoveSplit(g, events);
    }
  }

  predicate AllMoves(events: seq<PointerEvent>)
  {
    forall i | 0 <= i < |events| :: events[i].Move?
  }

  /** During a drag, the incremental deltas add up: after any run of moves the
      total pan asked for is the last pointer position minus the position the
      drag was at before the run, and dragStart is that last position. */
  lemma {:induction false} DragTelescopes(g: PressState, events: seq<PointerEvent>)
    requires g.isDragging && AllMoves(events) && events != []
    ensures Run(g, events).isDragging
    ensures Run(g, events).dragStart == events[|events| - 1].at
    ensures PanRequested(g, events) == Minus(events[|events| - 1].at, g.dragStart)
    decreases |events|
  {
    var n := |events| - 1;
    var before := events[..n];
    if n > 0 {
      assert AllMoves(before) by {
        forall i | 0 <= i < |before| ensures before[i].Move? { assert before[i] == events[i]; }
      }
      DragTelescopes(g, before);
      assert before[n - 1] == events[n - 1];
    }
  }

  /** A press at the origin, three moves of 4 pixels to the right, a release. */
  function SlowDrag(): seq<PointerEvent>
  {
    [Down(PRIMARY_BUTTON, Point(0.0, 0.0)),
     Move(Point(4.0, 0.0)), Move(Point(8.0, 0.0)), Move(Point(12.0, 0.0)), Up]
  }

  /** The drag test is per move: a drag made of small moves never latches
      hasDragged, however far it travels in total.  Here three moves of 4
      pixels pan the grid by 12 pixels. */
  lemma SlowDragIsNotADrag()
    ensures !Run(Initial, SlowDrag()).hasDragged && PanRequested(Initial, SlowDrag()) == Point(12.0, 0.0)
  {
    var events := SlowDrag();
    assert events[..1] == [Down(PRIMARY_BUTTON, Point(0.0, 0.0))];
    assert events[..2] == events[..1] + [Move(Point(4.0, 0.0))];
    assert events[..3] == events[..2] + [Move(Point(8.0, 0.0))];
    assert events[..4] == events[..3] + [Move(Point(12.0, 0.0))];
    var g1 := Run(Initial, events[..1]);
    assert events[..1][..0] == [];
    assert g1 == PressState(true, Point(0.0, 0.0), false);
    var g2 := Run(Initial, events[..2]);
    assert events[..2][..1] == events[..1];
    assert g2 == PressState(true, Point(4.0, 0.0), false);
    var g3 := Run(Initial, events[..3]);
    assert events[..3][..2] == events[..2];
    assert g3 == PressState(true, Point(8.0, 0.0), false);
    assert events[..4][..3] == events[..3];
    assert Run(Initial, events[..4]) == PressState(true, Point(12.0, 0.0), false);
    assert PanRequested(Initial, events[..1]) == Point(0.0, 0.0);
    assert PanRequested(Initial, events[..2]) == Point(4.0, 0.0);
    assert PanRequested(Initial, events[..3]) == Point(8.0, 0.0);
    assert PanRequested(Initial, events[..4]) == Point(12.0, 0.0);
  }

  /** After that slow drag the click is resolved to a cell exactly as an
      undragged click would be. */
  lemma SlowDragStillSelects(box: CanvasBox, zoom: real, pan: Point, clientX: real, clientY: real)
    ensures ClickTarget(Run(Initial, SlowDrag()), Some(box), zoom, pan, clientX, clientY)
            == ScreenToCell(box, zoom, pan, clientX, clientY)
  {
    SlowDragIsNotADrag();
  }

  /** handleCanvasClick's decision: a click after a drag is ignored, a missing
      canvas element is ignored, and otherwise the click is resolved to a cell
      with the shared geometry. */
  function ClickTarget(g: PressState, canvas: Option<CanvasBox>, zoom: real, pan: Point,
                       clientX: real, clientY: real): (r: Option<(int, int)>)
    ensures g.hasDragged || canvas.None? ==> r.None?
    ensures !g.hasDragged && canvas.Some? ==> r == ScreenToCell(canvas.value, zoom, pan, clientX, clientY)
    ensures r.Some? ==> InGrid(r.value.0, r.value.1)
    ensures r.Some? && LayoutOf(canvas.value.width, canvas.value.height, zoom, pan).pixelSize > 0.0 ==>
              InDrawnCell(LayoutOf(canvas.value.width, canvas.value.height, zoom, pan),
                          r.value.0, r.value.1, clientX - canvas.value.left, clientY - canvas.value.top)
  {
    if g.hasDragged then None
    else match canvas
      case None => None
      case Some(box) => ScreenToCell(box, zoom, pan, clientX, clientY)
  }
}
