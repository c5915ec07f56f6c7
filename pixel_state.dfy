/** The local grid store (usePixelState): an N x N list of pixels built in
    x-major order, and updatePixel / setPixelColor, which replace the pixels
    whose coordinates match and leave every other entry as it was. */
module PixelState {
  import opened Options
  import opened GridGeometry

  const WHITE: string := "#FFFFFF"
  const BLACK: string := "#000000"

  datatype Pixel = Pixel(x: int, y: int, color: string, owner: Option<string>, isOwned: bool)

  /** A Partial<Pixel>: each field is either given (and then overrides) or absent. */
  datatype PixelUpdate = PixelUpdate(
    x: Option<int>, y: Option<int>, color: Option<string>, owner: Option<string>, isOwned: Option<bool>)

  const NoChange: PixelUpdate := PixelUpdate(None, None, None, None, None)

  function Pick<T>(given: Option<T>, current: T): T
  {
    match given
    case Some(v) => v
    case None => current
  }

  /** { ...pixel, ...updates } */
  function Merge(p: Pixel, u: PixelUpdate): (r: Pixel)
    ensures r.x == (if u.x.Some? then u.x.value else p.x)
    ensures r.y == (if u.y.Some? then u.y.value else p.y)
    ensures r.color == (if u.color.Some? then u.color.value else p.color)
    ensures r.owner == (if u.owner.Some? then u.owner else p.owner)
    ensures r.isOwned == (if u.isOwned.Some? then u.isOwned.value else p.isOwned)
  {
    Pixel(Pick(u.x, p.x), Pick(u.y, p.y), Pick(u.color, p.color), if u.owner.Some? then u.owner else p.owner,
          Pick(u.isOwned, p.isOwned))
  }

  /** The update setPixelColor(x, y, color, isOwned) passes on. */
  function ColorUpdate(color: string, isOwned: bool): PixelUpdate
  {
    PixelUpdate(None, None, Some(color), None, Some(isOwned))
  }

  predicate At(p: Pixel, x: int, y: int) { p.x == x && p.y == y }

  /** updatePixel's list transformation: a map that merges the update into
      every pixel at (x, y).  Nothing else changes, and the length stays. */
  function UpdatedPixels(pixels: seq<Pixel>, x: int, y: int, u: PixelUpdate): (r: seq<Pixel>)
    ensures |r| == |pixels|
    ensures forall i | 0 <= i < |pixels| && !At(pixels[i], x, y) :: r[i] == pixels[i]
  {
    seq(|pixels|, i requires 0 <= i < |pixels| =>
      if At(pixels[i], x, y) then Merge(pixels[i], u) else pixels[i])
  }

  function DefaultPixel(x: int, y: int): Pixel { Pixel(x, y, WHITE, None, false) }

  /** The initial grid, stated as a comprehension over the canonical index. */
  function InitialGrid(): seq<Pixel>
  {
    seq(N * N, i requires 0 <= i < N * N => DefaultPixel(i / N, i % N))
  }

  /** A grid in canonical layout: N * N entries, entry i at (i / N, i % N). */
  predicate CanonicalGrid(pixels: seq<Pixel>)
  {
    |pixels| == N * N &&
    forall i | 0 <= i < |pixels| :: pixels[i].x == i / N && pixels[i].y == i % N
  }

  /** The initial grid has exactly 25 entries, all white and unowned, in
      canonical layout, and entry x * N + y is the pixel at (x, y). */
  lemma InitialGridShape()
    ensures |InitialGrid()| == 25 && CanonicalGrid(InitialGrid())
    ensures forall i | 0 <= i < |InitialGrid()| ::
              InitialGrid()[i].color == WHITE && !InitialGrid()[i].isOwned && InitialGrid()[i].owner == None
    ensures forall x, y | InGrid(x, y) :: InitialGrid()[x * N + y] == DefaultPixel(x, y)
  {
    forall x, y | InGrid(x, y) ensures InitialGrid()[x * N + y] == DefaultPixel(x, y) {
      assert (x * N + y) / N == x && (x * N + y) % N == y;
    }
  }

  /** The nested loops that fill the initial list, x outermost. */
  method BuildInitialPixels() returns (pixels: seq<Pixel>)
    ensures pixels == InitialGrid()
    ensures forall x, y | InGrid(x, y) :: pixels[x * N + y] == DefaultPixel(x, y)
  {
    pixels := [];
    var x := 0;
    while x < N
      invariant 0 <= x <= N
      invariant pixels == InitialGrid()[..x * N]
    {
      var y := 0;
      while y < N
        invariant 0 <= y <= N
        invariant pixels == InitialGrid()[..x * N + y]
      {
        assert InitialGrid()[x * N + y] == DefaultPixel(x, y);
        pixels := pixels + [DefaultPixel(x, y)];
        y := y + 1;
      }
      x := x + 1;
    }
    assert pixels == InitialGrid();
  }

  /** On a canonical grid, the map of updatePixel is a single point write:
      the entry at index x * N + y is merged, and an out-of-range (x, y)
      leaves the list as it was. */
  lemma UpdateIsPointWrite(pixels: seq<Pixel>, x: int, y: int, u: PixelUpdate)
    requires CanonicalGrid(pixels)
    ensures InGrid(x, y) ==>
              UpdatedPixels(pixels, x, y, u) == pixels[x * N + y := Merge(pixels[x * N + y], u)]
    ensures !InGrid(x, y) ==> UpdatedPixels(pixels, x, y, u) == pixels
  {
    var r := UpdatedPixels(pixels, x, y, u);
    if InGrid(x, y) {
      forall i | 0 <= i < |pixels|
        ensures r[i] == pixels[x * N + y := Merge(pixels[x * N + y], u)][i]
      {
        assert At(pixels[i], x, y) <==> i == x * N + y;
      }
    } else {
      forall i | 0 <= i < |pixels| ensures r[i] == pixels[i] {
        assert !At(pixels[i], x, y);
      }
    }
  }

  /** An update that does not name x or y keeps every entry's coordinates,
      so it keeps a canonical grid canonical. */
  lemma UpdateKeepsCoordinates(pixels: seq<Pixel>, x: int, y: int, u: PixelUpdate)
    requires u.x.None? && u.y.None?
    ensures forall i | 0 <= i < |pixels| ::
              UpdatedPixels(pixels, x, y, u)[i].x == pixels[i].x &&
              UpdatedPixels(pixels, x, y, u)[i].y == pixels[i].y
    ensures CanonicalGrid(pixels) ==> CanonicalGrid(UpdatedPixels(pixels, x, y, u))
  {
  }

  /** Applying the same update twice is the same as applying it once, for
      any list and any update (even one that moves the pixel). */
  lemma UpdateIdempotent(pixels: seq<Pixel>, x: int, y: int, u: PixelUpdate)
    ensures UpdatedPixels(UpdatedPixels(pixels, x, y, u), x, y, u) == UpdatedPixels(pixels, x, y, u)
  {
    var once := UpdatedPixels(pixels, x, y, u);
    var twice := UpdatedPixels(once, x, y, u);
    forall i | 0 <= i < |pixels| ensures twice[i] == once[i] {
      if At(pixels[i], x, y) {
        assert once[i] == Merge(pixels[i], u);
        assert Merge(Merge(pixels[i], u), u) == Merge(pixels[i], u);
      }
    }
  }

  /** An empty update, or coordinates no pixel has, leave the list unchanged. */
  lemma NoOpUpdates(pixels: seq<Pixel>, x: int, y: int, u: PixelUpdate)
    ensures UpdatedPixels(pixels, x, y, NoChange) == pixels
    ensures (forall i | 0 <= i < |pixels| :: !At(pixels[i], x, y)) ==> UpdatedPixels(pixels, x, y, u) == pixels
  {
  }

  /** setPixelColor on a canonical grid: the cell at (x, y) gets the colour
      and the ownership flag, keeps its coordinates and owner, and every other
      cell is untouched. */
  lemma SetPixelColorEffect(pixels: seq<Pixel>, x: int, y: int, color: string, isOwned: bool)
    requires CanonicalGrid(pixels) && InGrid(x, y)
    ensures var r := UpdatedPixels(pixels, x, y, ColorUpdate(color, isOwned));
            && CanonicalGrid(r)
            && r[x * N + y] == pixels[x * N + y].(color := color, isOwned := isOwned)
            && forall i | 0 <= i < |r| && i != x * N + y :: r[i] == pixels[i]
  {
    UpdateIsPointWrite(pixels, x, y, ColorUpdate(color, isOwned));
  }

  /** The store kept by the hook; `pixels` is replaced wholesale by each setter. */
  class PixelStore {
    var pixels: seq<Pixel>

    constructor ()
      ensures pixels == InitialGrid()
    {
      var initial := BuildInitialPixels();
      pixels := initial;
    }

    /** setPixels: the raw setter the hook also returns. */
    method SetPixels(ps: seq<Pixel>)
      modifies this
      ensures pixels == ps
    {
      pixels := ps;
    }

    method UpdatePixel(x: int, y: int, u: PixelUpdate)
      modifies this
      ensures pixels == UpdatedPixels(old(pixels), x, y, u)
    {
      pixels := UpdatedPixels(pixels, x, y, u);
    }

    /** setPixelColor; the source's default for `isOwned` is true, so a caller
        that omits it passes true here. */
    method SetPixelColor(x: int, y: int, color: string, isOwned: bool)
      modifies this
      ensures pixels == UpdatedPixels(old(pixels), x, y, ColorUpdate(color, isOwned))
    {
      UpdatePixel(x, y, ColorUpdate(color, isOwned));
    }
  }
}
