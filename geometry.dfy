/** Screen-space <-> grid-cell geometry shared by the drawing path and the click
    path of the canvas (src/components/PixelCanvas.tsx and the
    useCanvasInteraction hook).  All quantities are idealised to `real`. */
module GridGeometry {
  import opened Options

  /** CANVAS_SIZE: the grid is N x N cells. */
  const N: int := 5

  /** The part of the canvas element the handlers read: its bounding
      rectangle's left/top and its client width/height. */
  datatype CanvasBox = CanvasBox(left: real, top: real, width: real, height: real)

  /** A screen-space pair: a pointer position, a pan offset or a delta. */
  datatype Point = Point(x: real, y: real)

  /** Where cell (0, 0) starts on screen and how large one cell is. */
  datatype Layout = Layout(pixelSize: real, offsetX: real, offsetY: real)

  function Min(a: real, b: real): real { if a <= b then a else b }

  /** pixelSize = min(W / N, H / N) * zoom and offset = (dimension - N * pixelSize) / 2 + pan,
      the one formula used both when drawing and when resolving a click. */
  function LayoutOf(width: real, height: real, zoom: real, pan: Point): (l: Layout)
    ensures width == height ==> l.offsetX - pan.x == l.offsetY - pan.y
    ensures width >= 0.0 && height >= 0.0 && zoom > 0.0 ==> l.pixelSize >= 0.0
    ensures width > 0.0 && height > 0.0 && zoom > 0.0 ==> l.pixelSize > 0.0
  {
    var pixelSize := Min(width / N as real, height / N as real) * zoom;
    Layout(pixelSize,
           (width - N as real * pixelSize) / 2.0 + pan.x,
           (height - N as real * pixelSize) / 2.0 + pan.y)
  }

  /** The screen rectangle the painter strokes for cell (x, y): its top-left
      corner is offset + index * pixelSize and its side is pixelSize. */
  predicate InDrawnCell(l: Layout, x: int, y: int, px: real, py: real)
  {
    && l.offsetX + x as real * l.pixelSize <= px < l.offsetX + (x + 1) as real * l.pixelSize
    && l.offsetY + y as real * l.pixelSize <= py < l.offsetY + (y + 1) as real * l.pixelSize
  }

  predicate InGrid(x: int, y: int) { 0 <= x < N && 0 <= y < N }

  /** floor((click - offset) / pixelSize) brackets the click between the
      start of the returned cell and the start of the next one. */
  function CellAlong(click: real, offset: real, pixelSize: real): (k: int)
    requires pixelSize > 0.0
    ensures offset + k as real * pixelSize <= click < offset + (k + 1) as real * pixelSize
  {
    var q := (click - offset) / pixelSize;
    var k := q.Floor;
    assert k as real <= q < (k + 1) as real;
    ScaleMonotone(k as real, q, pixelSize);
    ScaleStrict(q, (k + 1) as real, pixelSize);
    assert q * pixelSize == click - offset;
    assert k as real * pixelSize <= click - offset < (k + 1) as real * pixelSize;
    k
  }

  /** The screen point in canvas coordinates, mapped to a cell when it lies in
      [0, N) on both axes.  A zero pixel size (an empty canvas) never yields a
      cell: the source's division then gives an infinite or NaN index that
      fails the range check. */
  function ScreenToCell(box: CanvasBox, zoom: real, pan: Point, clientX: real, clientY: real)
    : (r: Option<(int, int)>)
    ensures LayoutOf(box.width, box.height, zoom, pan).pixelSize == 0.0 ==> r.None?
    ensures r.Some? ==> InGrid(r.value.0, r.value.1)
    ensures r.Some? && LayoutOf(box.width, box.height, zoom, pan).pixelSize > 0.0 ==>
              InDrawnCell(LayoutOf(box.width, box.height, zoom, pan),
                          r.value.0, r.value.1, clientX - box.left, clientY - box.top)
  {
    var l := LayoutOf(box.width, box.height, zoom, pan);
    var clickX := clientX - box.left;
    var clickY := clientY - box.top;
    if l.pixelSize == 0.0 then None
    else
      var x := ((clickX - l.offsetX) / l.pixelSize).Floor;
      var y := ((clickY - l.offsetY) / l.pixelSize).Floor;
      if InGrid(x, y) then
        assert l.pixelSize > 0.0 ==>
                 x == CellAlong(clickX, l.offsetX, l.pixelSize) &&
                 y == CellAlong(clickY, l.offsetY, l.pixelSize);
        Some((x, y))
      else None
  }

  lemma ScaleMonotone(a: real, b: real, s: real)
    requires a <= b && s > 0.0
    ensures a * s <= b * s
  {
    assert b * s - a * s == (b - a) * s;
  }

  lemma ScaleStrict(a: real, b: real, s: real)
    requires a < b && s > 0.0
    ensures a * s < b * s
  {
    assert b * s - a * s == (b - a) * s;
  }

  /** Only one cell index brackets a click: the bracket determines the floor. */
  lemma CellAlongUnique(click: real, offset: real, pixelSize: real, x: int)
    requires pixelSize > 0.0
    requires offset + x as real * pixelSize <= click < offset + (x + 1) as real * pixelSize
    ensures CellAlong(click, offset, pixelSize) == x
  {
    var d := click - offset;
    var q := d / pixelSize;
    assert q * pixelSize == d;
    if q < x as real {
      ScaleMonotone(q, x as real, pixelSize);
    }
    if (x + 1) as real <= q {
      ScaleMonotone((x + 1) as real, q, pixelSize);
    }
    assert x as real <= q < (x + 1) as real;
  }

  /** Round-trip containment, both directions: with a positive cell size, a
      click resolves to cell (x, y) exactly when it lies inside the rectangle
      the painter draws for (x, y), and it resolves to no cell exactly when no
      drawn cell contains it. */
  lemma ClickHitsDrawnCell(box: CanvasBox, zoom: real, pan: Point, clientX: real, clientY: real, x: int, y: int)
    requires LayoutOf(box.width, box.height, zoom, pan).pixelSize > 0.0
    requires InGrid(x, y)
    ensures ScreenToCell(box, zoom, pan, clientX, clientY) == Some((x, y)) <==>
            InDrawnCell(LayoutOf(box.width, box.height, zoom, pan), x, y, clientX - box.left, clientY - box.top)
  {
    var l := LayoutOf(box.width, box.height, zoom, pan);
    var px, py := clientX - box.left, clientY - box.top;
    if InDrawnCell(l, x, y, px, py) {
      CellAlongUnique(px, l.offsetX, l.pixelSize, x);
      CellAlongUnique(py, l.offsetY, l.pixelSize, y);
      assert ((px - l.offsetX) / l.pixelSize).Floor == x;
      assert ((py - l.offsetY) / l.pixelSize).Floor == y;
    }
  }

  lemma MissMeansOutsideGrid(box: CanvasBox, zoom: real, pan: Point, clientX: real, clientY: real)
    requires LayoutOf(box.width, box.height, zoom, pan).pixelSize > 0.0
    ensures ScreenToCell(box, zoom, pan, clientX, clientY) == None ==>
              forall x, y | InGrid(x, y) ::
                !InDrawnCell(LayoutOf(box.width, box.height, zoom, pan), x, y, clientX - box.left, clientY - box.top)
  {
    forall x, y | InGrid(x, y) && ScreenToCell(box, zoom, pan, clientX, clientY) == None
      ensures !InDrawnCell(LayoutOf(box.width, box.height, zoom, pan), x, y, clientX - box.left, clientY - box.top)
    {
      ClickHitsDrawnCell(box, zoom, pan, clientX, clientY, x, y);
    }
  }
}
