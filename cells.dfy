/** The ledger's view of the grid as the routing components read it: cells
    with ownership and display metadata (the PixelData record), addressed
    either by canonical index or by (x, y), and the actions a click can lead to. */
module Cells {
  import opened Options
  import opened GridGeometry

  datatype Cell = Cell(owner: string, text: string, imageUrl: string, link: string,
                       isOwned: bool, purchaseCount: nat, purchaseTime: nat)

  /** The canonical index of cell (x, y) ... */
  function CoordsToIndex(x: int, y: int): int { x * N + y }

  /** ... and the layout's inverse: x = floor(i / N), y = i mod N. */
  function IndexToCoords(i: int): (int, int) { (i / N, i % N) }

  /** The two maps are inverse bijections between [0, N*N) and the grid. */
  lemma IndexBijection(i: int, x: int, y: int)
    ensures 0 <= i < N * N ==>
              InGrid(IndexToCoords(i).0, IndexToCoords(i).1) &&
              CoordsToIndex(IndexToCoords(i).0, IndexToCoords(i).1) == i
    ensures InGrid(x, y) ==>
              0 <= CoordsToIndex(x, y) < N * N && IndexToCoords(CoordsToIndex(x, y)) == (x, y)
  {
  }

  /** The cell list the ledger returns, in canonical index order; the lookup
      by index yields nothing for an index outside the list. */
  function CellAtIndex(cells: seq<Cell>, i: int): (r: Option<Cell>)
    ensures r.Some? <==> 0 <= i < |cells|
    ensures r.Some? ==> r.value == cells[i]
  {
    if 0 <= i < |cells| then Some(cells[i]) else None
  }

  /** getPixel(x, y): the lookup by coordinates, through the canonical index. */
  function CellAt(cells: seq<Cell>, x: int, y: int): (r: Option<Cell>)
    ensures r.Some? ==> InGrid(x, y)
    ensures InGrid(x, y) ==> r == CellAtIndex(cells, CoordsToIndex(x, y))
  {
    if InGrid(x, y) then CellAtIndex(cells, CoordsToIndex(x, y)) else None
  }

  /** What the routing components do on a click, returned as a value instead
      of being performed. */
  datatype Target = AtCoords(x: int, y: int) | AtIndex(pixelIndex: int)
  datatype Callback = RefreshPixels
  datatype Action =
    | OpenLink(url: string)
    | NoAction
    | ErrorToast(message: string)
    | OpenPurchaseModal(target: Target, onSuccess: Callback)

  const CONNECT_WALLET: string := "Please connect your wallet."

  /** `pixel?.isOwned`: an absent cell counts as not owned. */
  predicate Owned(c: Option<Cell>) { c.Some? && c.value.isOwned }
}
