/** The earlier all-in-one canvas (src/components/PixelCanvas.tsx): one
    component holding zoom, pan, the press state and the pixel list.  Its
    handlers are the same transitions as the hook revision's, mouse-leave is
    mouse-up, and a click writes { color: "#000000", isOwned: true } into the
    matching pixel directly. */
module DraftCanvas {
  import opened Options
  import opened GridGeometry
  import opened Gesture
  import opened CanvasZoom
  import opened PixelState

  /** The draft click's spread, the same fields setPixelColor(x, y, BLACK, true) sets. */
  const Claim: PixelUpdate := ColorUpdate(BLACK, true)

  class PixelCanvas {
    var zoom: real
    var pan: Point
    var isDragging: bool
    var dragStart: Point
    var hasDragged: bool
    var pixels: seq<Pixel>

    function State(): PressState
      reads this
    {
      PressState(isDragging, dragStart, hasDragged)
    }

    ghost predicate Valid()
      reads this
    {
      MIN_ZOOM <= zoom <= MAX_ZOOM && CanonicalGrid(pixels)
    }

    constructor ()
      ensures Valid()
      ensures zoom == INITIAL_ZOOM && pan == Point(0.0, 0.0) && State() == Initial
      ensures pixels == InitialGrid()
    {
      var initial := BuildInitialPixels();
      zoom, pan := INITIAL_ZOOM, Point(0.0, 0.0);
      isDragging, dragStart, hasDragged := false, Point(0.0, 0.0), false;
      pixels := initial;
      new;
      InitialGridShape();
    }

    method HandleMouseDown(button: int, clientX: real, clientY: real)
      requires Valid()
      modifies this
      ensures Valid()
      ensures State() == MouseDown(old(State()), button, Point(clientX, clientY))
      ensures zoom == old(zoom) && pan == old(pan) && pixels == old(pixels)
    {
      if button == PRIMARY_BUTTON {
        isDragging := true;
        hasDragged := false;
        dragStart := Point(clientX, clientY);
      }
    }

    method HandleMouseMove(clientX: real, clientY: real)
      requires Valid()
      modifies this
      ensures Valid()
      ensures State() == MouseMove(old(State()), Point(clientX, clientY)).next
      ensures pan == match MouseMove(old(State()), Point(clientX, clientY)).panDelta
                     case None => old(pan)
                     case Some(d) => PanAfter(old(pan), [d])
      ensures zoom == old(zoom) && pixels == old(pixels)
    {
      if isDragging {
        var deltaX := clientX - dragStart.x;
        var deltaY := clientY - dragStart.y;
        if deltaX * deltaX + deltaY * deltaY > DRAG_THRESHOLD * DRAG_THRESHOLD {
          hasDragged := true;
        }
        pan := Point(pan.x + deltaX, pan.y + deltaY);
        dragStart := Point(clientX, clientY);
      }
    }

    method HandleMouseUp()
      requires Valid()
      modifies this
      ensures Valid()
      ensures State() == MouseUp(old(State()))
      ensures zoom == old(zoom) && pan == old(pan) && pixels == old(pixels)
    {
      isDragging := false;
    }

    /** onMouseLeave is wired to the same handler as onMouseUp. */
    method HandleMouseLeave()
      requires Valid()
      modifies this
      ensures Valid()
      ensures State() == MouseUp(old(State()))
      ensures zoom == old(zoom) && pan == old(pan) && pixels == old(pixels)
    {
      HandleMouseUp();
    }

    method HandleWheel(deltaY: real)
      requires Valid()
      modifies this
      ensures Valid()
      ensures zoom == NextZoom(old(zoom), deltaY)
      ensures pan == old(pan) && State() == old(State()) && pixels == old(pixels)
    {
      var delta := if deltaY > 0.0 then -ZOOM_STEP else ZOOM_STEP;
      zoom := Clamp(zoom + delta);
    }

    /** A click after a drag, or without a canvas element, changes nothing; an
        in-range click claims exactly the pixel under the pointer; an
        out-of-range click changes nothing. */
    method HandleCanvasClick(clientX: real, clientY: real, canvas: Option<CanvasBox>)
      requires Valid()
      modifies this
      ensures Valid()
      ensures zoom == old(zoom) && pan == old(pan) && State() == old(State())
      ensures pixels == match ClickTarget(State(), canvas, zoom, pan, clientX, clientY)
                        case None => old(pixels)
                        case Some(cell) =>
                          old(pixels)[cell.0 * N + cell.1 := Merge(old(pixels)[cell.0 * N + cell.1], Claim)]
    {
      if hasDragged {
        return;
      }
      if canvas.None? {
        return;
      }
      var box := canvas.value;
      var l := LayoutOf(box.width, box.height, zoom, pan);
      if l.pixelSize == 0.0 {
        return;
      }
      var clickX := clientX - box.left;
      var clickY := clientY - box.top;
      var x := ((clickX - l.offsetX) / l.pixelSize).Floor;
      var y := ((clickY - l.offsetY) / l.pixelSize).Floor;
      if x >= 0 && x < N && y >= 0 && y < N {
        UpdateIsPointWrite(pixels, x, y, Claim);
        UpdateKeepsCoordinates(pixels, x, y, Claim);
        pixels := UpdatedPixels(pixels, x, y, Claim);
      }
    }
  }

  /** Clicking a cell that is already claimed changes nothing more: the claim
      is idempotent, and a claimed pixel is black and owned. */
  lemma ClaimIsIdempotent(pixels: seq<Pixel>, x: int, y: int)
    requires CanonicalGrid(pixels) && InGrid(x, y)
    ensures var once := UpdatedPixels(pixels, x, y, Claim);
            && once[x * N + y].color == BLACK && once[x * N + y].isOwned
            && UpdatedPixels(once, x, y, Claim) == once
  {
    SetPixelColorEffect(pixels, x, y, BLACK, true);
    UpdateIdempotent(pixels, x, y, Claim);
  }
}
