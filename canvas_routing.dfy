/** The grid view of the pixel feature (src/features/pixels/components/PixelCanvas.tsx):
    the click decision on (x, y) and the layout of the N * N tiles. */
module CanvasRouting {
  import opened Options
  import opened GridGeometry
  import opened Cells

  /** handlePixelClick(x, y): an owned cell opens its link if it has one and
      otherwise does nothing; an unowned or missing cell warns when no wallet
      is connected and otherwise opens the purchase modal for (x, y). */
  function HandlePixelClick(cells: seq<Cell>, x: int, y: int, isConnected: bool): (a: Action)
    ensures a.OpenLink? <==> Owned(CellAt(cells, x, y)) && CellAt(cells, x, y).value.link != ""
    ensures a.OpenLink? ==> a.url == CellAt(cells, x, y).value.link
    ensures a == NoAction <==> Owned(CellAt(cells, x, y)) && CellAt(cells, x, y).value.link == ""
    ensures a.ErrorToast? <==> !Owned(CellAt(cells, x, y)) && !isConnected
    ensures a.ErrorToast? ==> a.message == CONNECT_WALLET
    ensures a.OpenPurchaseModal? <==> !Owned(CellAt(cells, x, y)) && isConnected
    ensures a.OpenPurchaseModal? ==> a.target == AtCoords(x, y) && a.onSuccess == RefreshPixels
  {
    var pixel := CellAt(cells, x, y);
    if Owned(pixel) then
      if pixel.value.link != "" then OpenLink(pixel.value.link) else NoAction
    else if !isConnected then ErrorToast(CONNECT_WALLET)
    else OpenPurchaseModal(AtCoords(x, y), RefreshPixels)
  }

  /** One rendered tile: its coordinates, whether it shows as owned, and the
      text it shows (only an owned cell shows its text). */
  datatype Tile = Tile(x: int, y: int, owned: bool, text: string)

  datatype CanvasView = LoadingView | GridView(tiles: seq<Tile>)

  /** The tile at position i of `Array.from`: cell (floor(i / N), i mod N),
      shown as owned and with its text exactly when that cell is owned. */
  function TileFor(cells: seq<Cell>, i: int): (t: Tile)
    ensures 0 <= i < N * N ==> InGrid(t.x, t.y) && t.x * N + t.y == i
    ensures t.owned <==> Owned(CellAt(cells, t.x, t.y))
    ensures t.text == if t.owned then CellAt(cells, t.x, t.y).value.text else ""
  {
    var (x, y) := IndexToCoords(i);
    var pixel := CellAt(cells, x, y);
    Tile(x, y, Owned(pixel), if Owned(pixel) then pixel.value.text else "")
  }

  /** The component's output: only the loading view while loading, otherwise
      N * N tiles whose i-th is cell (floor(i / N), i mod N), so every cell of
      the grid is rendered exactly once. */
  function Render(isLoading: bool, cells: seq<Cell>): (v: CanvasView)
    ensures v.LoadingView? <==> isLoading
    ensures v.GridView? ==> |v.tiles| == N * N
    ensures v.GridView? ==> forall x, y | InGrid(x, y) ::
              v.tiles[CoordsToIndex(x, y)].x == x && v.tiles[CoordsToIndex(x, y)].y == y
    ensures v.GridView? ==> forall i, j | 0 <= i < j < |v.tiles| ::
              (v.tiles[i].x, v.tiles[i].y) != (v.tiles[j].x, v.tiles[j].y)
    ensures v.GridView? ==> forall i | 0 <= i < |v.tiles| ::
              InGrid(v.tiles[i].x, v.tiles[i].y) &&
              v.tiles[i].owned == Owned(CellAt(cells, v.tiles[i].x, v.tiles[i].y))
  {
    if isLoading then LoadingView
    else
      var tiles := seq(N * N, i requires 0 <= i < N * N => TileFor(cells, i));
      assert forall x, y | InGrid(x, y) ::
               tiles[CoordsToIndex(x, y)].x == x && tiles[CoordsToIndex(x, y)].y == y by {
        forall x, y | InGrid(x, y)
          ensures tiles[CoordsToIndex(x, y)].x == x && tiles[CoordsToIndex(x, y)].y == y
        {
          IndexBijection(0, x, y);
        }
      }
      assert forall i, j | 0 <= i < j < |tiles| :: (tiles[i].x, tiles[i].y) != (tiles[j].x, tiles[j].y) by {
        forall i, j | 0 <= i < j < |tiles| ensures (tiles[i].x, tiles[i].y) != (tiles[j].x, tiles[j].y) {
          IndexBijection(i, 0, 0);
          IndexBijection(j, 0, 0);
        }
      }
      GridView(tiles)
  }
}
