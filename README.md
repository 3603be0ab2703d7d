# Smart-I segment browser, modelled in Dafny

Smart-I is a Streamlit dashboard that shows land-cover segmentation results
for the IKN Nusantara area. Apart from page layout and calls into mapping
libraries, `app.py` holds one small piece of logic, the segment browser:

- **Shapefile listing** (`listing.dfy`, module `ShapefileListing`): each
  folder listing is reduced to the names ending in `.shp`, in listing order.
  No sorting is done.
- **Navigation** (`navigation.dfy`, module `Navigation`): a 1-based
  `shapefile_index` moves one place back (Previous) or forward (Next). It
  wraps within `[1, N]`, where `N` is the number of shapefiles. Previous wins
  when both buttons are reported pressed in the same page run.
- **Styling** (`styling.dfy`, module `Styling`): the gridcode colour table
  `get_color` and the two style records, one for the selected shapefile and
  one for the segmentation overlay.
- **Session** (`session.dfy`, module `Session`): the session-state cell as a
  class `SessionState` with `hasIndex` and `index` fields. Its methods
  update the cell in place. `Rerun` is one whole run of the page script.
  It lists the folders, initialises the index, applies the buttons, selects
  `shapefiles[index - 1]` and decides the segmentation overlay.

Navigation is proved against pure specification functions (`PrevIndex`,
`NextIndex`, `StepIndex`, `Run`). The main results are listed below.

- The index stays in range.
- Next and Previous are inverses.
- Closed form: after any series of page runs, the 0-based position equals
  `(start - 1 + net steps) mod N`.
- Pressing Next `N` times returns to the start.

The model follows `app.py` rather than any cleaned-up account of it:

- The index is 1-based.
- The listing is not sorted.
- Navigation changes only `index`. The overlay checkbox is a widget and
  navigation does not reset it.
- An empty shapefile listing is not handled by the code: selecting
  `shapefiles[index - 1]` or wrapping Previous to `len(shapefiles) = 0`
  would fail. `|ListShapefiles(listing)| >= 1` is therefore a precondition
  of the navigation methods and of `Rerun`.

## Model

| member | source | states |
|---|---|---|
| ShapefileListing.ListShapefiles | app.py:79-80 | every kept name ends in `.shp`; a name is kept iff it is in the listing and ends in `.shp`; the result is no longer than the listing |
| ShapefileListing.ListShapefilesAppend | app.py:79-80 | filtering keeps listing order: the filter of `a + b` is the filter of `a` followed by the filter of `b` |
| ShapefileListing.ListShapefilesCount | app.py:79-80 | each `.shp` name occurs as often in the result as in the listing; every other name occurs zero times |
| ShapefileListing.ListShapefilesKeepsAll | app.py:79-80 | a listing of only `.shp` names is returned unchanged, so nothing is reordered |
| ShapefileListing.ListShapefilesIdempotent | app.py:79-80 | filtering an already filtered list changes nothing |
| Navigation.PrevIndex | app.py:127-130 | Previous maps an index in `[1, N]` into `[1, N]` |
| Navigation.NextIndex | app.py:131-134 | Next maps an index in `[1, N]` into `[1, N]` |
| Navigation.StepIndex | app.py:127-134 | one page run keeps an index in `[1, N]` within `[1, N]` |
| Navigation.Run | app.py:127-134 | any series of page runs keeps an index in `[1, N]` within `[1, N]`, so `index - 1` is always a valid list position |
| Navigation.PrevWraps | app.py:127-130 | Previous from 1 gives `N`; otherwise it gives `index - 1` |
| Navigation.NextWraps | app.py:131-134 | Next from `N` gives 1; otherwise it gives `index + 1` |
| Navigation.StepPriority | app.py:127-134 | with both flags set Previous is taken; with neither the index is unchanged; a run moves exactly one place or wraps at an end |
| Navigation.NextPrevInverse | app.py:127-134 | Next then Previous returns to the start, and so does Previous then Next, for every `N >= 1` |
| Navigation.StepIndexCyclic | app.py:127-134 | one page run is a move of -1, 0 or +1 on a cycle of length `N`: `new - 1 == (old - 1 + offset) mod N` |
| Navigation.RunCyclic | app.py:127-134 | after any series of page runs, `index - 1 == (start - 1 + net steps) mod N` |
| Navigation.FullCycle | app.py:131-134 | pressing Next `N` times returns to the starting index |
| Styling.GetColor | app.py:185-193 | the colour is always one of the five table colours, never the overlay purple, and is the table entry for codes 1..5 |
| Styling.GetColorTable | app.py:185-193 | 1 gives `#FF0000`, 2 `#00FF00`, 3 `#0000FF`, 4 `#FFFF00`, 5 `#FFA500`; every other code gives `#FF0000` |
| Styling.RedExactly | app.py:185-193 | red is produced exactly for the codes outside 2..5, so the default cannot be told from code 1 |
| Styling.GetColorDistinguishes | app.py:185-193 | codes 2..5 each get a colour no other code gets |
| Styling.Gridcode | app.py:197 | the feature's `gridcode` property when present, 0 when absent |
| Styling.MissingGridcodeIsRed | app.py:197-198 | a feature without a gridcode is drawn red in both layers |
| Styling.BaseStyle | app.py:196-204 | `fillColor == color == get_color(gridcode)`, `weight == 2`, `fillOpacity == 0.5` |
| Styling.SegmentStyle | app.py:211-219 | `fillColor == get_color(gridcode)`, `color == #800080`, `weight == 2`, `fillOpacity == 1` |
| Styling.SegmentStyleDiffers | app.py:196-219 | both layers share fill colour and weight for a feature; no segmentation style equals any base style |
| Session.OverlayOutcome | app.py:220-232 | the overlay is attempted iff the checkbox is set and `index <= len(new_shapefiles)`; it is drawn iff it is attempted and the same-named file exists; the attempted layer is `shapefiles[index - 1]` |
| Session.OverlayNamesBaseShapefile | app.py:220-223 | an attempted overlay names a `.shp` file from the base listing, not one from the segmentation listing |
| Session.SessionState.constructor | app.py:83 | a fresh session holds no index |
| Session.SessionState.InitIndex | app.py:83-84 | the index becomes 1 only when none is stored; a stored index is never overwritten |
| Session.SessionState.Previous | app.py:127-130 | the stored index becomes `PrevIndex` of the old one and stays valid |
| Session.SessionState.Next | app.py:131-134 | the stored index becomes `NextIndex` of the old one and stays valid |
| Session.SessionState.Navigate | app.py:127-134 | the stored index becomes `StepIndex` of the old one; only `index` changes |
| Session.SessionState.SelectedFile | app.py:161 | with a valid index, `index - 1` is in range and the result is `shapefiles[index - 1]` |
| Session.SessionState.Rerun | app.py:79-232 | a whole page run: index initialised then stepped, still valid; the selected name is a `.shp` name from the listing; the overlay is `OverlayOutcome` of the new index |

## Left out

- Page setup, CSS/HTML markdown, columns, buttons, the checkbox widget, the author section and the footer (app.py:7-68, 87-125, 140-152, 238-319): presentation only. The button and checkbox values are inputs to `Rerun`.
- `os.listdir` and `os.path.exists`: file-system I/O. Listings are `seq<string>` inputs and the existence of the same-named segmentation file is a boolean input.
- `gpd.read_file`, the centroid of the union of geometries and the printed projection metadata (app.py:163-175, 228): a geometry library and floating-point coordinates.
- Leafmap map construction, basemap, `add_gdf` and `to_streamlit` (app.py:181-182, 206, 230, 235): a rendering library. The model stops at the style record and the overlay decision handed to it.
- The statistics image path `"{index}.png"` and its display (app.py:155-159): image I/O only.
- Styling.Gridcode: feature properties are modelled as a map from names to integers. A non-integer gridcode (a float or a string) is not modelled; Python would look it up with its own equality.
- Streamlit reruns the whole script on every interaction. The model takes the listing to be the same across runs. A folder that changes between runs, and so changes `N` under a stored index, is not modelled.
