# Pixel board: the client-side grid engine, modelled in Dafny

The pixel board shows a 5 x 5 grid of purchasable "pixels". Ownership is kept on a
smart contract. This project models the client logic around that grid:

- **Geometry** (`geometry.dfy`, module `GridGeometry`). The canvas maps a pointer
  position to a cell with `pixelSize = min(W/N, H/N) * zoom`,
  `offset = (dimension - N * pixelSize) / 2 + pan` and
  `cell = floor((click - offset) / pixelSize)`. A cell is accepted only in `[0, N)` on
  both axes. The drawing path uses the same layout, so a click resolves to cell (x, y)
  exactly when it falls inside the rectangle drawn for (x, y).
- **Zoom and pan** (`zoom.dfy`, `CanvasZoom`). The wheel steps the zoom by 0.1 and
  clamps it to [0.1, 10]. `updatePan` adds deltas componentwise.
- **Press / drag / release** (`gesture.dfy`, `Gesture`). These are pure transitions for
  `isDragging`, `dragStart` and `hasDragged`. Lemmas cover event traces: the latch, the
  telescoping sum of pan deltas, and whether a click is taken as a selection.
- **The interaction hook** (`interaction.dfy`, `CanvasInteraction`). A class with the
  hook's three state cells. A drag forwards deltas to the zoom state's `UpdatePan`. A
  click claims a cell through the grid store's `SetPixelColor`.
- **The grid store** (`pixel_state.dfy`, `PixelState`). The initial list is built by
  nested loops in x-major order. `updatePixel` is a map that merges a partial update
  into the matching pixels. A class holds the list.
- **The all-in-one draft canvas** (`draft_canvas.dfy`, `DraftCanvas`). One class holds
  zoom, pan, the press state and the pixels. It uses the same transitions, and
  mouse-leave is mouse-up.
- **Click routing** (`cells.dfy`, `canvas_routing.dfy`, `board_routing.dfy`). Cells are
  looked up by canonical index `x * N + y` or by (x, y). A click becomes an action
  value: open the link, do nothing, warn "Please connect your wallet.", or open the
  purchase modal. Also covered: the tile layout and the case-insensitive owner check.
- **Toasts** (`toasts.dfy`, `Toasts`). A class with the toast list, the listener set,
  and what each listener was last called with.
- **Image upload** (`upload.dfy`, `UploadImage`). The ordered validation chain, name
  sanitising, the `HHMM_name` file name and the `/images/...` URL.

Where the system's design specification and the code disagree, the model follows the
code. The specification says a press becomes a drag once the *cumulative* distance passes 5
pixels. The code measures each move from the previous move, because `dragStart` is
reset on every move. `Gesture.SlowDragIsNotADrag` shows the consequence: three moves of
4 pixels pan the grid by 12 pixels without counting as a drag. `Gesture.SlowDragStillSelects`
then shows that the click that follows resolves as an undragged click does.

The specification also describes a mutation state machine, a ledger reader and a
`replaceAll` cache. None of them exists as client code in the files modelled here: the
contract hooks are thin library wrappers. They are not part of this model.

## Model

| member | source | states |
|---|---|---|
| `GridGeometry.LayoutOf` | src/features/pixels/hooks/useCanvasInteraction.ts:73-77 | one layout formula for click and drawing; a square canvas centres both axes alike; the pixel size is positive on a non-empty canvas with positive zoom |
| `GridGeometry.CellAlong` | src/features/pixels/hooks/useCanvasInteraction.ts:82-83 | floor bracketing: `offset + k*size <= click < offset + (k+1)*size` |
| `GridGeometry.CellAlongUnique` | src/features/pixels/hooks/useCanvasInteraction.ts:82-83 | only the bracketing index is the floor, so the cell is determined by the click |
| `GridGeometry.ScreenToCell` | src/features/pixels/hooks/useCanvasInteraction.ts:69-85 | an accepted cell lies in `[0, N)` on both axes and, with positive pixel size, its drawn rectangle contains the click; a zero pixel size yields no cell |
| `GridGeometry.ClickHitsDrawnCell` | src/components/PixelCanvas.tsx:96-172 | round trip: a click resolves to in-range (x, y) iff it lies in the rectangle the painter draws for (x, y) |
| `GridGeometry.MissMeansOutsideGrid` | src/components/PixelCanvas.tsx:169-172 | a click that resolves to no cell lies in no drawn cell |
| `CanvasZoom.Clamp` | src/features/pixels/hooks/useCanvasZoom.ts:14 | the result lies in [0.1, 10]; an in-range value is kept, and a value past a bound lands on that bound |
| `CanvasZoom.NextZoom` | src/features/pixels/hooks/useCanvasZoom.ts:11-15 | zoom stays in [0.1, 10]; `deltaY > 0` never zooms in and `deltaY <= 0` (including 0) never zooms out; away from the bounds it moves exactly one 0.1 step, and within one step of a bound it lands on that bound |
| `CanvasZoom.ZoomSaturates` | src/features/pixels/hooks/useCanvasZoom.ts:14 | zooming in at 10 stays at 10; zooming out at 0.1 stays at 0.1 |
| `CanvasZoom.ZoomStaysInRange` | src/features/pixels/hooks/useCanvasZoom.ts:11-15 | any sequence of wheel events keeps an in-range zoom in range |
| `CanvasZoom.RepeatedZoomIn` | src/features/pixels/hooks/useCanvasZoom.ts:13-14 | k wheel-ups give `min(zoom + k*0.1, 10)` |
| `CanvasZoom.PansAccumulate` | src/features/pixels/hooks/useCanvasZoom.ts:17-22 | a sequence of pans ends at the start plus the sum of the deltas |
| `CanvasZoom.ZoomState.constructor` | src/features/pixels/hooks/useCanvasZoom.ts:8-9 | initial zoom 1 and pan (0, 0) |
| `CanvasZoom.ZoomState.HandleWheel` | src/features/pixels/hooks/useCanvasZoom.ts:11-15 | the zoom becomes `NextZoom` of the old zoom, stays in range, and the pan is unchanged |
| `CanvasZoom.ZoomState.UpdatePan` | src/features/pixels/hooks/useCanvasZoom.ts:17-22 | the pan moves by the delta, the zoom is unchanged and stays in range |
| `CanvasZoom.ZoomState.SetPan` | src/features/pixels/hooks/useCanvasZoom.ts:27 | the pan is replaced, the zoom is unchanged and stays in range |
| `Gesture.MouseDown` | src/features/pixels/hooks/useCanvasInteraction.ts:29-38 | a primary-button press starts a fresh drag at the pointer with hasDragged cleared; any other button changes nothing |
| `Gesture.MouseMove` | src/features/pixels/hooks/useCanvasInteraction.ts:40-56 | a delta is emitted iff dragging; it carries dragStart exactly onto the pointer, which becomes the new dragStart; hasDragged becomes true iff it was or this one move exceeds 5 pixels; while not dragging nothing changes |
| `Gesture.MouseUp` | src/features/pixels/hooks/useCanvasInteraction.ts:58-60 | only isDragging is cleared; dragStart and hasDragged are kept |
| `Gesture.StepLatch` | src/features/pixels/hooks/useCanvasInteraction.ts:46-49 | an event other than a primary press latches hasDragged exactly when it is a move, while dragging, longer than 5 pixels, and never clears it |
| `Gesture.LongMoveSplit` | src/features/pixels/hooks/useCanvasInteraction.ts:46-49 | a trace has a long move iff its prefix has one or its last event is one |
| `Gesture.DragLatch` | src/features/pixels/hooks/useCanvasInteraction.ts:46-49 | within one press, hasDragged ends true iff it was true or some single move, measured from the previous point, went beyond 5 pixels |
| `Gesture.DragTelescopes` | src/features/pixels/hooks/useCanvasInteraction.ts:43-52 | during a drag, the pan deltas of a run of moves sum to the last point minus the drag start, and dragStart ends at the last point |
| `Gesture.SlowDragIsNotADrag` | src/features/pixels/hooks/useCanvasInteraction.ts:43-52 | three moves of 4 pixels pan by 12 pixels without latching hasDragged |
| `Gesture.SlowDragStillSelects` | src/features/pixels/hooks/useCanvasInteraction.ts:62-66 | after that slow drag, the click resolves to the cell under the pointer exactly as an undragged click does |
| `Gesture.ClickTarget` | src/features/pixels/hooks/useCanvasInteraction.ts:62-85 | after a drag, or without a canvas element, a click selects nothing; otherwise it selects exactly the cell `ScreenToCell` resolves, so a selected cell is in range and under the pointer |
| `PixelState.Merge` | src/features/pixels/hooks/usePixelState.ts:32 | object spread: each field present in the update wins, each absent field keeps the pixel's value |
| `PixelState.UpdatedPixels` | src/features/pixels/hooks/usePixelState.ts:29-35 | the length is kept and every pixel not at (x, y) is unchanged |
| `PixelState.InitialGridShape` | src/features/pixels/hooks/usePixelState.ts:14-27 | 25 entries, all white, unowned and without owner; entry `x*N+y` is the pixel at (x, y) |
| `PixelState.BuildInitialPixels` | src/features/pixels/hooks/usePixelState.ts:14-27 | the nested loops build exactly the canonical initial grid |
| `PixelState.UpdateIsPointWrite` | src/features/pixels/hooks/usePixelState.ts:31-33 | on a canonical grid the map is a write to index `x*N+y`; out-of-range coordinates leave the list unchanged |
| `PixelState.UpdateKeepsCoordinates` | src/features/pixels/hooks/usePixelState.ts:29-35 | an update without x or y keeps every entry's coordinates and keeps the grid canonical |
| `PixelState.UpdateIdempotent` | src/features/pixels/hooks/usePixelState.ts:32 | applying the same update twice equals applying it once |
| `PixelState.NoOpUpdates` | src/features/pixels/hooks/usePixelState.ts:32 | an empty update, or coordinates no pixel has, change nothing |
| `PixelState.SetPixelColorEffect` | src/features/pixels/hooks/usePixelState.ts:37-44 | the cell at (x, y) gets the colour and ownership flag, keeps everything else, and no other cell changes |
| `PixelState.PixelStore.constructor` | src/features/pixels/hooks/usePixelState.ts:14-27 | the store starts with the initial grid |
| `PixelState.PixelStore.SetPixels` | src/features/pixels/hooks/usePixelState.ts:48 | the list is replaced wholesale |
| `PixelState.PixelStore.UpdatePixel` | src/features/pixels/hooks/usePixelState.ts:29-35 | the new list is the old one with the update merged into the matching pixels |
| `PixelState.PixelStore.SetPixelColor` | src/features/pixels/hooks/usePixelState.ts:37-44 | the matching pixels get the colour and the ownership flag |
| `CanvasInteraction.Interaction.constructor` | src/features/pixels/hooks/useCanvasInteraction.ts:25-27 | not dragging, drag start (0, 0), not dragged |
| `CanvasInteraction.Interaction.HandleMouseDown` | src/features/pixels/hooks/useCanvasInteraction.ts:29-38 | the state follows the press transition |
| `CanvasInteraction.Interaction.HandleMouseMove` | src/features/pixels/hooks/useCanvasInteraction.ts:40-56 | the state follows the move transition; the zoom state's pan moves by exactly the emitted delta, or not at all; the zoom is unchanged and stays in range |
| `CanvasInteraction.Interaction.HandleMouseUp` | src/features/pixels/hooks/useCanvasInteraction.ts:58-60 | the state follows the release transition |
| `CanvasInteraction.Interaction.HandleCanvasClick` | src/features/pixels/hooks/useCanvasInteraction.ts:62-90 | the store changes only when the click selects a cell, and then by `setPixelColor(x, y, "#000000", true)` |
| `DraftCanvas.PixelCanvas.constructor` | src/components/PixelCanvas.tsx:21-41 | zoom 1, pan (0, 0), idle press state, and the 25 white unowned cells in x-major order |
| `DraftCanvas.PixelCanvas.HandleMouseDown` | src/components/PixelCanvas.tsx:43-52 | same press transition as the hook; nothing else changes |
| `DraftCanvas.PixelCanvas.HandleMouseMove` | src/components/PixelCanvas.tsx:54-74 | same move transition as the hook; the pan moves by exactly the emitted delta |
| `DraftCanvas.PixelCanvas.HandleMouseUp` | src/components/PixelCanvas.tsx:76-78 | same release transition as the hook |
| `DraftCanvas.PixelCanvas.HandleMouseLeave` | src/components/PixelCanvas.tsx:204 | mouse-leave is exactly mouse-up |
| `DraftCanvas.PixelCanvas.HandleWheel` | src/components/PixelCanvas.tsx:80-84 | the zoom becomes `NextZoom` of the old zoom, stays in [0.1, 10], and nothing else changes |
| `DraftCanvas.PixelCanvas.HandleCanvasClick` | src/components/PixelCanvas.tsx:149-183 | after a drag, or for an off-grid click, the cells are unchanged; otherwise exactly the cell at `x*N+y` becomes black and owned, and the grid stays canonical |
| `DraftCanvas.ClaimIsIdempotent` | src/components/PixelCanvas.tsx:173-179 | a claimed cell is black and owned, and claiming it again changes nothing |
| `Cells.IndexBijection` | src/features/pixels/components/PixelCanvas.tsx:55-57 | `(floor(i/N), i mod N)` is in range with `x*N+y = i`, and `x*N+y` maps back to (x, y) |
| `Cells.CellAtIndex` | src/features/pixels/components/PixelBoard.tsx:35 | a cell is found exactly for an index inside the list, and it is the list's entry |
| `Cells.CellAt` | src/features/pixels/components/PixelCanvas.tsx:19 | the (x, y) lookup is the index lookup at `x*N+y`, and nothing is found off the grid |
| `CanvasRouting.HandlePixelClick` | src/features/pixels/components/PixelCanvas.tsx:18-41 | an owned cell with a link opens that link and one without does nothing; an unowned or missing cell warns without a wallet, or opens the purchase modal for (x, y) with `refreshPixels` |
| `CanvasRouting.TileFor` | src/features/pixels/components/PixelCanvas.tsx:55-58 | position i of the grid is the in-range cell with `x*N+y == i`; it shows as owned, with its text, exactly when that cell is owned |
| `CanvasRouting.Render` | src/features/pixels/components/PixelCanvas.tsx:43-89 | only the loading view while loading; otherwise 25 distinct in-range tiles, tile `x*N+y` at (x, y), each showing its cell's ownership |
| `BoardRouting.HandlePixelPurchase` | src/features/pixels/components/PixelBoard.tsx:18-32 | without a wallet, the warning; with one, the modal for the same index with `refreshPixels` |
| `BoardRouting.HandlePixelClick` | src/features/pixels/components/PixelBoard.tsx:34-44 | an owned cell opens its link or does nothing and never reaches the purchase path; any other cell behaves as `handlePixelPurchase` |
| `BoardRouting.RevisionsAgree` | src/features/pixels/components/PixelBoard.tsx:34-44 | a click on (x, y) in the grid view and on index `x*N+y` in the board view take the same action, up to how the modal names the cell |
| `BoardRouting.IsOwnedByCurrentUser` | src/features/pixels/components/PixelBoard.tsx:62-64 | true iff both sides are absent, or both are present and equal after lower-casing |
| `BoardRouting.OwnerComparisonLaws` | src/features/pixels/components/PixelBoard.tsx:62-64 | the owner check is symmetric, unaffected by letter case and reflexive; two absent values compare equal; present vs absent never does |
| `BoardRouting.RenderBoard` | src/features/pixels/components/PixelBoard.tsx:46-68 | only the loading view while loading; otherwise one tile per cell in order, flagged iff the connected address equals the owner ignoring case |
| `Toasts.Without` | src/shared/components/Toast/toastManager.tsx:37 | the survivors are exactly the toasts with another id |
| `Toasts.WithoutDistributes` | src/shared/components/Toast/toastManager.tsx:37 | the filter distributes over concatenation, so survivors keep their order |
| `Toasts.RemoveLaws` | src/shared/components/Toast/toastManager.tsx:37 | removing an absent id changes nothing; removing twice is removing once |
| `Toasts.AddThenRemove` | src/shared/components/Toast/toastManager.tsx:24-39 | adding a toast with a fresh id and then removing it (its expiry) restores the list |
| `Toasts.ToastManager.constructor` | src/shared/components/Toast/toastManager.tsx:12-13 | no toasts, no listeners |
| `Toasts.ToastManager.Subscribe` | src/shared/components/Toast/toastManager.tsx:15-16 | the listener joins the set; nothing else changes |
| `Toasts.ToastManager.Unsubscribe` | src/shared/components/Toast/toastManager.tsx:17 | exactly that listener leaves the set; the result says whether it was there |
| `Toasts.ToastManager.Notify` | src/shared/components/Toast/toastManager.tsx:20-22 | every subscribed listener has received the current list; others keep what they last received |
| `Toasts.ToastManager.Add` | src/shared/components/Toast/toastManager.tsx:24-34 | one toast is appended at the end, earlier ones unchanged, and every listener receives the new list; listeners outside the set keep what they last received |
| `Toasts.ToastManager.Remove` | src/shared/components/Toast/toastManager.tsx:36-39 | the list is filtered by id and every listener receives the new list; listeners outside the set keep what they last received |
| `Toasts.ToastManager.Success` | src/shared/components/Toast/toastManager.tsx:41-43 | appends a toast of type success and notifies as `Add` does |
| `Toasts.ToastManager.Error` | src/shared/components/Toast/toastManager.tsx:45-47 | appends a toast of type error and notifies as `Add` does |
| `UploadImage.Sanitize` | src/app/api/upload-image/route.ts:38 | same length; every character is in `[a-zA-Z0-9.-]` or `_`; allowed characters stay in place; others become `_` |
| `UploadImage.SanitizeLaws` | src/app/api/upload-image/route.ts:38 | sanitising is idempotent; a name is unchanged iff it already uses only allowed characters and `_` |
| `UploadImage.Decimal` | src/app/api/upload-image/route.ts:34-35 | `String(n)` has one digit below 10 and at most two below 100 |
| `UploadImage.DecimalRoundTrip` | src/app/api/upload-image/route.ts:34-35 | `String(n)` is all digits and reads back as n |
| `UploadImage.PadTwo` | src/app/api/upload-image/route.ts:34-35 | `padStart(2, "0")` keeps strings of two or more characters and left-pads shorter ones to length 2 |
| `UploadImage.TwoDigits` | src/app/api/upload-image/route.ts:34-35 | a number below 100 becomes two digits that read back as the number |
| `UploadImage.FileName` | src/app/api/upload-image/route.ts:33-39 | at least five characters longer than the original name, ending with `_` and the sanitised name |
| `UploadImage.FileNameShape` | src/app/api/upload-image/route.ts:33-39 | the file name is four digits giving back hour and minute, `_`, then the sanitised name, and contains no path separator |
| `UploadImage.Rejection` | src/app/api/upload-image/route.ts:11-31 | missing file first, then a type not starting with `image/`, then size above 5 MiB, each answering 400 with its own message (every size above 5 MiB gives the size message) |
| `UploadImage.Post` | src/app/api/upload-image/route.ts:8-58 | an unreadable form or a failed write answers 500 with "Failed to upload image"; a rejection answers its 400; status 200 iff the file passes and is stored, with `imageUrl = "/images/" + fileName` |
| `UploadImage.SizeBoundary` | src/app/api/upload-image/route.ts:25-31 | exactly 5 MiB is accepted and one byte more is refused |
| `UploadImage.UrlStaysInImages` | src/app/api/upload-image/route.ts:38-51 | the returned URL is `/images/` followed by a name containing no `/` |

## Left out

- Canvas painting (`drawCanvas` in src/components/PixelCanvas.tsx and `useInitCanvasDrawing`): it only has side effects on a 2D context and the device pixel ratio. The model keeps only the layout it shares with the click path (`GridGeometry.LayoutOf`, `GridGeometry.InDrawnCell`).
- Floating point: zoom, pan and geometry are exact `real`s. Rounding of repeated 0.1 zoom steps is not captured. `Math.sqrt(dx*dx + dy*dy) > 5` is the exact comparison `dx*dx + dy*dy > 25`.
- React scheduling: every handler sees the state the previous event left. Batched or stale-closure updates between two events are not modelled. `event.preventDefault()` is a browser side effect and is left out.
- `GridGeometry.ScreenToCell`: canvas width and height are reals, not the DOM's integer client sizes. A zero pixel size gives "no cell", which is what the source's Infinity/NaN range check amounts to.
- The contract hooks, the ABI constant and `weiToEther` (`usePixelContract.ts`, `contract.ts`, `weiToEther.ts`) are thin library wrappers with no client state machine. They are not part of this model. `Cells.Cell` follows the `PixelData` record.
- The overlay registry (`useOverlay.tsx`, `types.ts`), the purchase modal, the image preview, the headers, the connect buttons and the layout are UI collaborators. The model returns their calls as `Cells.Action` values: opening a link, showing a toast, opening the modal.
- `getPixel`, `isLoading` and `refreshPixels` are used by the routing components, but `usePixelState` (src/features/pixels/hooks/usePixelState.ts:46-52) does not return them. `Cells.CellAt` and `Cells.CellAtIndex` stand in for `getPixel` as lookups over the cell list in canonical index order. `isLoading` is an input.
- Toasts: ids (`Date.now() + Math.random()`) and listener identities are supplied by the caller. The `setTimeout` expiry and its `duration` are modelled as an explicit `Remove`. A listener call is recorded as the list it received.
- Upload I/O: reading the form, `arrayBuffer` and `writeFile` become inputs (`Form`, `stored`), as do the clock's hours and minutes. A form entry that is a string rather than a file, which makes the source throw and answer 500, is not modelled. `console.error` is left out.
- `UploadImage.Sanitize`: it works on Unicode scalar values. The source's regular expression works on UTF-16 code units, so a character outside the Basic Multilingual Plane becomes two `_` there and one here.
- `BoardRouting.RenderBoard`: each tile's index is taken to be its position in the cell list. The source reads `pixel.pixelIndex` (src/features/pixels/components/PixelBoard.tsx:60, src/features/pixels/components/Pixel.tsx:20), a field that neither `PixelData` nor the hook's `Pixel` record declares, so as written the `?? 0` fallback would send every board click to index 0.
- `PixelState.PixelStore.SetPixelColor`: the source's default argument `isOwned = true` (src/features/pixels/hooks/usePixelState.ts:41) is not modelled; every caller passes the flag explicitly.
- `BoardRouting.OwnerComparisonLaws`: case-insensitivity covers ASCII letters only. JavaScript's `toLowerCase` also folds other scripts; addresses are hexadecimal.
- `PixelState.Merge`: a partial update whose key is present with the value `undefined` is not modelled. In the model a field is either given or absent.
