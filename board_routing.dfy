/** The board view of the pixel feature (src/features/pixels/components/PixelBoard.tsx),
    which addresses cells by their flat pixelIndex. */
module BoardRouting {
  import opened Options
  import opened GridGeometry
  import opened Cells
  import CanvasRouting

  /** handlePixelPurchase(pixelIndex): warn without a wallet, otherwise open
      the purchase modal for that index with refreshPixels as its success hook. */
  function HandlePixelPurchase(pixelIndex: int, isConnected: bool): (a: Action)
    ensures !isConnected <==> a == ErrorToast(CONNECT_WALLET)
    ensures isConnected <==> a == OpenPurchaseModal(AtIndex(pixelIndex), RefreshPixels)
  {
    if !isConnected then ErrorToast(CONNECT_WALLET)
    else OpenPurchaseModal(AtIndex(pixelIndex), RefreshPixels)
  }

  /** handlePixelClick(pixelIndex): an owned cell opens its link or does
      nothing, and never reaches the purchase path; any other cell goes to
      handlePixelPurchase. */
  function HandlePixelClick(cells: seq<Cell>, pixelIndex: int, isConnected: bool): (a: Action)
    ensures Owned(CellAtIndex(cells, pixelIndex)) ==> !a.OpenPurchaseModal? && !a.ErrorToast?
    ensures Owned(CellAtIndex(cells, pixelIndex)) ==>
              (a == if cells[pixelIndex].link != "" then OpenLink(cells[pixelIndex].link) else NoAction)
    ensures !Owned(CellAtIndex(cells, pixelIndex)) ==> a == HandlePixelPurchase(pixelIndex, isConnected)
  {
    var pixel := CellAtIndex(cells, pixelIndex);
    if Owned(pixel) then
      if pixel.value.link != "" then OpenLink(pixel.value.link) else NoAction
    else HandlePixelPurchase(pixelIndex, isConnected)
  }

  /** The two revisions agree: a click on in-range (x, y) in the grid view and
      a click on index x * N + y in the board view take the same action, up to
      how the modal is told which cell it is for. */
  lemma RevisionsAgree(cells: seq<Cell>, x: int, y: int, isConnected: bool)
    requires InGrid(x, y)
    ensures var byCoords := CanvasRouting.HandlePixelClick(cells, x, y, isConnected);
            var byIndex := HandlePixelClick(cells, CoordsToIndex(x, y), isConnected);
            if byCoords.OpenPurchaseModal?
            then byIndex == OpenPurchaseModal(AtIndex(CoordsToIndex(x, y)), RefreshPixels)
                 && byCoords == OpenPurchaseModal(AtCoords(x, y), RefreshPixels)
            else byIndex == byCoords
  {
  }

  /** ASCII lower-casing, the part of toLowerCase that hexadecimal addresses use. */
  function LowerChar(c: char): char
  {
    if 'A' <= c <= 'Z' then (c as int + 32) as char else c
  }

  function Lower(s: string): string
  {
    seq(|s|, i requires 0 <= i < |s| => LowerChar(s[i]))
  }

  /** `address?.toLowerCase() === pixel.owner?.toLowerCase()`; two absent
      values compare equal, as `undefined === undefined` does. */
  function IsOwnedByCurrentUser(address: Option<string>, owner: Option<string>): (r: bool)
    ensures r <==> (address.None? && owner.None?)
                   || (address.Some? && owner.Some? && Lower(address.value) == Lower(owner.value))
  {
    address.Map(Lower) == owner.Map(Lower)
  }

  /** The owner comparison is symmetric, blind to letter case on either side,
      and holds of an address and itself. */
  lemma OwnerComparisonLaws(address: Option<string>, owner: Option<string>)
    ensures IsOwnedByCurrentUser(address, owner) == IsOwnedByCurrentUser(owner, address)
    ensures IsOwnedByCurrentUser(address, owner) ==
            IsOwnedByCurrentUser(address.Map(Lower), owner)
    ensures IsOwnedByCurrentUser(address, address)
    ensures address.None? && owner.None? ==> IsOwnedByCurrentUser(address, owner)
    ensures address.Some? != owner.Some? ==> !IsOwnedByCurrentUser(address, owner)
  {
    if address.Some? {
      assert Lower(Lower(address.value)) == Lower(address.value);
    }
  }

  datatype BoardTile = BoardTile(pixelIndex: int, cell: Cell, isOwnedByCurrentUser: bool)
  datatype BoardView = BoardLoading | BoardGrid(tiles: seq<BoardTile>)

  /** The board's output: only the loading view while loading, otherwise one
      tile per cell in list order, flagged when its owner is the connected
      address. */
  function RenderBoard(isLoading: bool, cells: seq<Cell>, address: Option<string>): (v: BoardView)
    ensures v.BoardLoading? <==> isLoading
    ensures v.BoardGrid? ==> |v.tiles| == |cells|
    ensures v.BoardGrid? ==> forall i | 0 <= i < |cells| ::
              v.tiles[i].pixelIndex == i && v.tiles[i].cell == cells[i] &&
              (v.tiles[i].isOwnedByCurrentUser <==>
                 address.Some? && Lower(address.value) == Lower(cells[i].owner))
  {
    if isLoading then BoardLoading
    else BoardGrid(seq(|cells|, i requires 0 <= i < |cells| =>
                     BoardTile(i, cells[i], IsOwnedByCurrentUser(address, Some(cells[i].owner)))))
  }
}
