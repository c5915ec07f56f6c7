/** The interaction hook (useCanvasInteraction): its own state is
    isDragging, dragStart and hasDragged; a drag forwards its deltas to the
    zoom hook's updatePan and an accepted click calls the grid store's
    setPixelColor(x, y, "#000000", true). */
module CanvasInteraction {
  import opened Options
  import opened GridGeometry
  import opened Gesture
  import opened CanvasZoom
  import opened PixelState

  class Interaction {
    var isDragging: bool
    var dragStart: Point
    var hasDragged: bool

    function State(): PressState
      reads this
    {
      PressState(isDragging, dragStart, hasDragged)
    }

    constructor ()
      ensures State() == Initial
    {
      isDragging, dragStart, hasDragged := false, Point(0.0, 0.0), false;
    }

    method HandleMouseDown(button: int, clientX: real, clientY: real)
      modifies this
      ensures State() == MouseDown(old(State()), button, Point(clientX, clientY))
    {
      if button == PRIMARY_BUTTON {
        isDragging := true;
        hasDragged := false;
        dragStart := Point(clientX, clientY);
      }
    }

    /** While dragging, calls updatePan with exactly the delta since the last
        move; otherwise touches neither its own state nor the zoom hook's. */
    method HandleMouseMove(clientX: real, clientY: real, view: ZoomState)
      requires view.Valid()
      modifies this, view
      ensures view.Valid()
      ensures State() == MouseMove(old(State()), Point(clientX, clientY)).next
      ensures view.zoom == old(view.zoom)
      ensures view.pan == match MouseMove(old(State()), Point(clientX, clientY)).panDelta
                          case None => old(view.pan)
                          case Some(d) => PanAfter(old(view.pan), [d])
    {
      if isDragging {
        var deltaX := clientX - dragStart.x;
        var deltaY := clientY - dragStart.y;
        if deltaX * deltaX + deltaY * deltaY > DRAG_THRESHOLD * DRAG_THRESHOLD {
          hasDragged := true;
        }
        view.UpdatePan(deltaX, deltaY);
        dragStart := Point(clientX, clientY);
      }
    }

    method HandleMouseUp()
      modifies this
      ensures State() == MouseUp(old(State()))
    {
      isDragging := false;
    }

    /** A click after a drag, or without a canvas element, does nothing;
        otherwise the cell under the pointer, if it is on the grid, is
        coloured black and marked owned. */
    method HandleCanvasClick(clientX: real, clientY: real, canvas: Option<CanvasBox>,
                             view: ZoomState, store: PixelStore)
      modifies store
      ensures var target := ClickTarget(State(), canvas, view.zoom, view.pan, clientX, clientY);
              store.pixels == match target
                              case None => old(store.pixels)
                              case Some(cell) =>
                                UpdatedPixels(old(store.pixels), cell.0, cell.1, ColorUpdate(BLACK, true))
    {
      if hasDragged {
        return;
      }
      if canvas.None? {
        return;
      }
      var box := canvas.value;
      var l := LayoutOf(box.width, box.height, view.zoom, view.pan);
      if l.pixelSize == 0.0 {
        return;
      }
      var clickX := clientX - box.left;
      var clickY := clientY - box.top;
      var x := ((clickX - l.offsetX) / l.pixelSize).Floor;
      var y := ((clickY - l.offsetY) / l.pixelSize).Floor;
      if x >= 0 && x < N && y >= 0 && y < N {
        store.SetPixelColor(x, y, BLACK, true);
      }
    }
  }
}
