# Screenshot grid model

A Dafny model of `ScreenshotList`, the scrollable grid of screenshot thumbnails
in the screenshot manager screen, and of its nested `Scrollbar`. The list owns
the tiles (`screenshotWidgets`) and the child elements (`elements`), the viewport
`x, y, width, height`, the scroll offset `scrollY`, the column count
`screenshotsPerRow`, the spacing and tile size, and the inverted-order flag.

The model has four modules:

- `Geometry` holds the integer formulas of the list. These are Java's truncating
  division, the integer ceiling, rows and total content height, `canScroll` and
  `canScrollDown`, and the row-major cell of a tile index, in closed form. It
  also holds the wheel-scroll clamp, column-count stepping and the scrollbar
  thumb formulas, with lemmas about them.
- `Tiles` models a tile as a value. A tile has an id, a file, an unscrolled
  rectangle and a `loaded` flag that stands for its decoded image. The module
  also holds the sequence operations the list performs: layout, reversal,
  removal of the first occurrence, creation and the culling pass.
- `Listing` holds the directory entries `init` scans and its png filter.
- `ScreenshotGrid` holds the two classes. `ScreenshotList` has the source's
  fields and mutating methods. `Scrollbar` has the track and thumb fields and
  `repositionScrollbar`.

Each mutating method's `ensures` ties the new state to a function of the old
state. The layout methods state `tiles == LaidOut(old(tiles), CurrentLayout())`
and that the scrollbar is placed for the new content height (`PlacedFor`).
The placement loops of `updateChildren` and `init` (`PlaceAll`, `ScanListing`)
carry the source's running counters (`xOff`, `childX`, `childY`). Their
invariants connect those counters to the closed form.

The code has these behaviours, which the model follows:

- `repositionScrollbar` runs on every layout, not only when the content overflows.
  Its thumb height is an integer division by the content height, which is 0 when
  there is exactly one row and the tile height is 0. Java then throws an
  `ArithmeticException`. The model reports this as `divisionByZero`, and
  `invertOrder` then does not restore the offset.
- The thumb does not stay within the track. For offsets in `[0, leftOver]` it
  stays in a band two pixels wider than the track at each end (`listY + 2` to
  `listY + height - 2`). It reaches both ends of the band.
- The offset is not kept in `[0, leftOver]` as an object invariant. Wheel events
  preserve that range. `init` and `updateSize` leave the offset as it was, so
  after them it can exceed the new overflow. The object invariant keeps only
  `scrollY >= 0`.
- `invertOrder` reverses `screenshotWidgets` and leaves `elements` in insertion
  order. The object invariant therefore keeps the two equal only as multisets of
  tile ids (`SameTiles`).

## Model

| member | source | states |
|---|---|---|
| `Geometry.JavaDiv` | src/main/java/io/github/lgatodu47/screenshot_viewer/screen/manage_screenshots/ScreenshotList.java:156 | the quotient is non-negative when dividend and divisor have the same sign and non-positive otherwise |
| `Geometry.JavaDivTruncates` | src/main/java/io/github/lgatodu47/screenshot_viewer/screen/manage_screenshots/ScreenshotList.java:156 | the quotient is truncated toward zero: its magnitude is the largest multiple count of the divisor's magnitude that does not exceed the dividend's |
| `Geometry.JavaDivNonNegative` | src/main/java/io/github/lgatodu47/screenshot_viewer/screen/manage_screenshots/ScreenshotList.java:156 | on a non-negative dividend and a positive divisor Java's division is floor division |
| `Geometry.ChildWidth` | src/main/java/io/github/lgatodu47/screenshot_viewer/screen/manage_screenshots/ScreenshotList.java:156 | the tile width is non-negative when the width left after the spacings and the scrollbar is, and non-positive otherwise; `CellsClearScrollbar` shows the columns then fit |
| `Geometry.CeilDivBounds` | src/main/java/io/github/lgatodu47/screenshot_viewer/screen/manage_screenshots/ScreenshotList.java:249 | the integer ceiling is the least integer `q` with `a <= q * b` |
| `Geometry.CeilQuotient` | src/main/java/io/github/lgatodu47/screenshot_viewer/screen/manage_screenshots/ScreenshotList.java:249 | `MathHelper.ceil` of the float quotient, taken exactly: the ceiling of the rational `a / b` for either sign of `b` (see `CeilQuotientBounds`) |
| `Geometry.CeilQuotientBounds` | src/main/java/io/github/lgatodu47/screenshot_viewer/screen/manage_screenshots/ScreenshotList.java:337 | the result is the least integer not below the rational `a / b`, for positive and for negative `b` |
| `Geometry.RowsBounds` | src/main/java/io/github/lgatodu47/screenshot_viewer/screen/manage_screenshots/ScreenshotList.java:249 | rows = ceil(n / perRow): just enough rows for n tiles, and zero rows exactly when there are no tiles |
| `Geometry.TotalHeight` | src/main/java/io/github/lgatodu47/screenshot_viewer/screen/manage_screenshots/ScreenshotList.java:248-251 | an empty list has height -spacing |
| `Geometry.TotalHeightRows` | src/main/java/io/github/lgatodu47/screenshot_viewer/screen/manage_screenshots/ScreenshotList.java:248-251 | total + spacing = rows * (childHeight + spacing): each row contributes one tile height and one spacing |
| `Geometry.TotalHeightSpansCells` | src/main/java/io/github/lgatodu47/screenshot_viewer/screen/manage_screenshots/ScreenshotList.java:248-251 | the total height is the distance from the first row's top to the last tile's bottom, and every tile lies inside it |
| `Geometry.CanScroll` | src/main/java/io/github/lgatodu47/screenshot_viewer/screen/manage_screenshots/ScreenshotList.java:232-237 | canScroll holds exactly when the overflow total - (height - 2*spacing) is positive |
| `Geometry.CanScrollDown` | src/main/java/io/github/lgatodu47/screenshot_viewer/screen/manage_screenshots/ScreenshotList.java:239-246 | with a non-negative offset, canScrollDown implies canScroll |
| `Geometry.NineTilesFit` | src/main/java/io/github/lgatodu47/screenshot_viewer/screen/manage_screenshots/ScreenshotList.java:232-251 | 9 tiles of height 100 in 4 columns are 308 high and do not overflow a 400-pixel list |
| `Geometry.TwentyTilesOverflow` | src/main/java/io/github/lgatodu47/screenshot_viewer/screen/manage_screenshots/ScreenshotList.java:232-271 | 20 such tiles are 516 high and overflow the list by 124; a 15-pixel step down moves from 0 to 15 and from 120 is capped at 124 |
| `Geometry.NextCell` | src/main/java/io/github/lgatodu47/screenshot_viewer/screen/manage_screenshots/ScreenshotList.java:130-137 | the loop's step (wrap to the left edge and one row down after the last column, else one tile right) moves from the closed-form cell of i to that of i+1 |
| `Geometry.CellInjective` | src/main/java/io/github/lgatodu47/screenshot_viewer/screen/manage_screenshots/ScreenshotList.java:120-137 | with positive pitch, two indices with the same cell position are equal |
| `Geometry.CellsClearScrollbar` | src/main/java/io/github/lgatodu47/screenshot_viewer/screen/manage_screenshots/ScreenshotList.java:152-156 | when the width numerator is non-negative, every column's right edge stays one spacing left of the scrollbar at x + width - 8 |
| `Geometry.Scrolled` | src/main/java/io/github/lgatodu47/screenshot_viewer/screen/manage_screenshots/ScreenshotList.java:257-267 | an offset in [0, leftOver] stays there; a positive amount never increases the offset and floors at 0; a negative amount never decreases it and caps at leftOver; a zero amount changes nothing |
| `Geometry.Wheel` | src/main/java/io/github/lgatodu47/screenshot_viewer/screen/manage_screenshots/ScreenshotList.java:254-271 | one wheel event leaves the offset alone when the content fits, and keeps an offset in [0, max(0, leftOver)] there |
| `Geometry.WheelAllStaysClamped` | src/main/java/io/github/lgatodu47/screenshot_viewer/screen/manage_screenshots/ScreenshotList.java:254-271 | after any sequence of wheel events the offset stays in [0, max(0, leftOver)] |
| `Geometry.StepPerRow` | src/main/java/io/github/lgatodu47/screenshot_viewer/screen/manage_screenshots/ScreenshotList.java:99-108 | a column count in [2, 8] stays in [2, 8]; it goes up by one for a positive amount unless already 8, down by one for a negative amount unless already 2, and is unchanged for zero |
| `Geometry.StepUpThenDown` | src/main/java/io/github/lgatodu47/screenshot_viewer/screen/manage_screenshots/ScreenshotList.java:99-108 | below the maximum, one step up followed by one step down restores the column count |
| `Geometry.ThumbTop` | src/main/java/io/github/lgatodu47/screenshot_viewer/screen/manage_screenshots/ScreenshotList.java:337 | the thumb top at offset 0 is listY + 2; `ThumbTopMonotone` and `ThumbInBand` give its growth and band |
| `Geometry.ThumbHeight` | src/main/java/io/github/lgatodu47/screenshot_viewer/screen/manage_screenshots/ScreenshotList.java:338 | the truncated thumb height is non-negative for a positive content height and non-negative track heights |
| `Geometry.ThumbTopMonotone` | src/main/java/io/github/lgatodu47/screenshot_viewer/screen/manage_screenshots/ScreenshotList.java:337 | the thumb's top is listY + 2 at offset 0 and never decreases as the offset grows |
| `Geometry.ThumbInBand` | src/main/java/io/github/lgatodu47/screenshot_viewer/screen/manage_screenshots/ScreenshotList.java:329-339 | for offsets in [0, leftOver] the thumb lies between listY + 2 and listY + 2 + trackHeight + 4, and its bottom reaches that end exactly at leftOver |
| `Tiles.LaidOut` | src/main/java/io/github/lgatodu47/screenshot_viewer/screen/manage_screenshots/ScreenshotList.java:124-138 | layout keeps the tile count, the order and each tile's identity, file and image state |
| `Tiles.LayoutForgetsPositions` | src/main/java/io/github/lgatodu47/screenshot_viewer/screen/manage_screenshots/ScreenshotList.java:124-138 | positions after layout depend only on the tiles' order and the layout parameters, never on their previous positions |
| `Tiles.LayoutIdempotent` | src/main/java/io/github/lgatodu47/screenshot_viewer/screen/manage_screenshots/ScreenshotList.java:115-140 | running the layout again with the same inputs gives identical tiles |
| `Tiles.LayoutSeparatesTiles` | src/main/java/io/github/lgatodu47/screenshot_viewer/screen/manage_screenshots/ScreenshotList.java:124-138 | with positive column and row pitch, two distinct laid-out tiles never share a position |
| `Tiles.Reversed` | src/main/java/io/github/lgatodu47/screenshot_viewer/screen/manage_screenshots/ScreenshotList.java:219 | `Collections.reverse` as a value: the last element first; `ReversedTwice` and `ReversedPermutes` state what it keeps |
| `Tiles.ReversedTwice` | src/main/java/io/github/lgatodu47/screenshot_viewer/screen/manage_screenshots/ScreenshotList.java:219 | reversing twice restores the sequence |
| `Tiles.ReversedPermutes` | src/main/java/io/github/lgatodu47/screenshot_viewer/screen/manage_screenshots/ScreenshotList.java:219 | reversal keeps every element with its multiplicity |
| `Tiles.InvertTwice` | src/main/java/io/github/lgatodu47/screenshot_viewer/screen/manage_screenshots/ScreenshotList.java:218-224 | reverse-and-layout done twice gives back the original layout |
| `Tiles.FirstIndex` | src/main/java/io/github/lgatodu47/screenshot_viewer/screen/manage_screenshots/ScreenshotList.java:143 | the index of the first occurrence, or the length when the element is absent |
| `Tiles.RemoveFirst` | src/main/java/io/github/lgatodu47/screenshot_viewer/screen/manage_screenshots/ScreenshotList.java:143-144 | removing the first occurrence drops the size by one when the element is present and changes nothing when it is absent |
| `Tiles.RemoveFirstMultiset` | src/main/java/io/github/lgatodu47/screenshot_viewer/screen/manage_screenshots/ScreenshotList.java:143-144 | removal takes exactly one copy of the element out of the multiset, and none when it is absent |
| `Tiles.RemoveFirstKeepsOrder` | src/main/java/io/github/lgatodu47/screenshot_viewer/screen/manage_screenshots/ScreenshotList.java:143 | elements before the removed one keep their index and those after it move up by one |
| `Tiles.RemoveTile` | src/main/java/io/github/lgatodu47/screenshot_viewer/screen/manage_screenshots/ScreenshotList.java:143 | the ids of the remaining tiles are the old ids with the first occurrence of the id removed |
| `Tiles.RemoveTileLength` | src/main/java/io/github/lgatodu47/screenshot_viewer/screen/manage_screenshots/ScreenshotList.java:143 | removing a tile drops the count by one exactly when a tile with that id was present |
| `Tiles.RemoveTileKeepsOrder` | src/main/java/io/github/lgatodu47/screenshot_viewer/screen/manage_screenshots/ScreenshotList.java:143 | the remaining tiles are the old tiles, unchanged: those before the removed one keep their index and those after it move up by one |
| `Tiles.RemoveTileAbsent` | src/main/java/io/github/lgatodu47/screenshot_viewer/screen/manage_screenshots/ScreenshotList.java:143 | removing an id no tile has leaves the tiles as they are |
| `Tiles.ReversedKeepsSameTiles` | src/main/java/io/github/lgatodu47/screenshot_viewer/screen/manage_screenshots/ScreenshotList.java:219 | reversing the tiles keeps them equal, as a multiset of ids, to the elements |
| `Tiles.LaidOutKeepsSameTiles` | src/main/java/io/github/lgatodu47/screenshot_viewer/screen/manage_screenshots/ScreenshotList.java:124-138 | a layout pass keeps the tiles equal, as a multiset of ids, to the elements |
| `Tiles.RemoveKeepsSameTiles` | src/main/java/io/github/lgatodu47/screenshot_viewer/screen/manage_screenshots/ScreenshotList.java:143-144 | removing the same id from both lists keeps them equal as multisets |
| `Tiles.Unplaced` | src/main/java/io/github/lgatodu47/screenshot_viewer/screen/manage_screenshots/ScreenshotList.java:77-79 | one new tile per file, numbered in order, with no image loaded |
| `Tiles.Offscreen` | src/main/java/io/github/lgatodu47/screenshot_viewer/screen/manage_screenshots/ScreenshotList.java:188 | the render test: the tile lies wholly above or wholly below the list (its meaning is stated by `OffscreenIffDisjoint`) |
| `Tiles.OffscreenIffDisjoint` | src/main/java/io/github/lgatodu47/screenshot_viewer/screen/manage_screenshots/ScreenshotList.java:188 | for non-negative heights, the culling test fails exactly when the tile's and the list's closed vertical extents intersect |
| `Tiles.Culled` | src/main/java/io/github/lgatodu47/screenshot_viewer/screen/manage_screenshots/ScreenshotList.java:182-193 | a tile the test finds off screen loses its image and every other tile is unchanged, so every tile still holding an image is on screen |
| `Listing.EndsWith` | src/main/java/io/github/lgatodu47/screenshot_viewer/screen/manage_screenshots/ScreenshotList.java:76 | `String.endsWith`: the string is some prefix followed by the suffix |
| `Listing.IsScreenshot` | src/main/java/io/github/lgatodu47/screenshot_viewer/screen/manage_screenshots/ScreenshotList.java:76 | the filter test: a regular file whose name ends in .png (characterised by `IsScreenshotStem`) |
| `Listing.IsScreenshotStem` | src/main/java/io/github/lgatodu47/screenshot_viewer/screen/manage_screenshots/ScreenshotList.java:76 | an entry is accepted exactly when it is a regular file whose name is some stem followed by .png |
| `Listing.Screenshots` | src/main/java/io/github/lgatodu47/screenshot_viewer/screen/manage_screenshots/ScreenshotList.java:75-76 | the filter never yields more entries than were listed |
| `Listing.ScreenshotsMembers` | src/main/java/io/github/lgatodu47/screenshot_viewer/screen/manage_screenshots/ScreenshotList.java:75-76 | an entry is kept exactly when it is listed, is a file and its name ends in .png |
| `Listing.ScreenshotsCount` | src/main/java/io/github/lgatodu47/screenshot_viewer/screen/manage_screenshots/ScreenshotList.java:75-76 | each png file is kept as many times as it is listed and nothing else is kept |
| `Listing.SuffixExamples` | src/main/java/io/github/lgatodu47/screenshot_viewer/screen/manage_screenshots/ScreenshotList.java:76 | the suffix test is exact and case-sensitive |
| `ScreenshotGrid.Scrollbar.constructor` | src/main/java/io/github/lgatodu47/screenshot_viewer/screen/manage_screenshots/ScreenshotList.java:24 | a new scrollbar starts with all geometry at zero |
| `ScreenshotGrid.Scrollbar.Reposition` | src/main/java/io/github/lgatodu47/screenshot_viewer/screen/manage_screenshots/ScreenshotList.java:329-339 | x = listX + listWidth - 8, trackX = x + 2, trackY = listY + spacing, trackHeight = listHeight - 2*spacing, thumb height = trackHeight*(trackHeight+4)/total truncated; a zero total reports the division by zero and leaves the thumb height |
| `ScreenshotGrid.Scrollbar.ThumbY` | src/main/java/io/github/lgatodu47/screenshot_viewer/screen/manage_screenshots/ScreenshotList.java:337 | the captured thumb-position closure: at offset 0 the thumb top is the list top plus 2 |
| `ScreenshotGrid.Scrollbar.ThumbStaysInBand` | src/main/java/io/github/lgatodu47/screenshot_viewer/screen/manage_screenshots/ScreenshotList.java:337-338 | once repositioned for overflowing content, the thumb stays within two pixels of the track for every offset in [0, leftOver] |
| `ScreenshotGrid.Scrollbar.IsHovered` | src/main/java/io/github/lgatodu47/screenshot_viewer/screen/manage_screenshots/ScreenshotList.java:356-358 | a hovered thumb has positive height |
| `ScreenshotGrid.Scrollbar.HoverIsHalfOpen` | src/main/java/io/github/lgatodu47/screenshot_viewer/screen/manage_screenshots/ScreenshotList.java:356-358 | the thumb's top-left corner is hovered exactly when it has height; its right and bottom edges are not |
| `ScreenshotGrid.ScreenshotList.constructor` | src/main/java/io/github/lgatodu47/screenshot_viewer/screen/manage_screenshots/ScreenshotList.java:22-44 | a new list has the configured speed and column count, the derived tile size, offset 0, no tiles, the order not inverted, and a fresh scrollbar with all geometry at zero |
| `ScreenshotGrid.ScreenshotList.UpdateSize` | src/main/java/io/github/lgatodu47/screenshot_viewer/screen/manage_screenshots/ScreenshotList.java:48-51 | only width and height change |
| `ScreenshotGrid.ScreenshotList.UpdateVariables` | src/main/java/io/github/lgatodu47/screenshot_viewer/screen/manage_screenshots/ScreenshotList.java:151-158 | spacing becomes 4 and the tile width (width - (perRow+1)*4 - 8) / perRow with Java truncation; nothing else changes |
| `ScreenshotGrid.ScreenshotList.TotalHeightOfChildren` | src/main/java/io/github/lgatodu47/screenshot_viewer/screen/manage_screenshots/ScreenshotList.java:248-251 | an empty list has height -spacing; when the row pitch is non-negative, a laid-out list's height reaches from the top spacing to its last tile's bottom |
| `ScreenshotGrid.ScreenshotList.CanScroll` | src/main/java/io/github/lgatodu47/screenshot_viewer/screen/manage_screenshots/ScreenshotList.java:232-237 | the list can scroll exactly when its largest offset is positive |
| `ScreenshotGrid.ScreenshotList.CanScrollDown` | src/main/java/io/github/lgatodu47/screenshot_viewer/screen/manage_screenshots/ScreenshotList.java:239-246 | with a non-negative offset, being able to scroll down implies being able to scroll |
| `ScreenshotGrid.ScreenshotList.MouseScrolled` | src/main/java/io/github/lgatodu47/screenshot_viewer/screen/manage_screenshots/ScreenshotList.java:254-271 | the event is consumed whenever the content overflows, otherwise the children's answer is returned and the offset is untouched; an offset in [0, leftOver] stays there |
| `ScreenshotGrid.ScreenshotList.PlaceAll` | src/main/java/io/github/lgatodu47/screenshot_viewer/screen/manage_screenshots/ScreenshotList.java:118-138 | the accumulator loop places every tile at its closed-form cell with the current tile size |
| `ScreenshotGrid.ScreenshotList.UpdateChildren` | src/main/java/io/github/lgatodu47/screenshot_viewer/screen/manage_screenshots/ScreenshotList.java:115-140 | the offset becomes 0, the tile size is recomputed, every tile is at its cell in the same order and count, and the scrollbar is repositioned for the new content height, its thumb height kept when the division throws |
| `ScreenshotGrid.ScreenshotList.UpdateScreenshotsPerRow` | src/main/java/io/github/lgatodu47/screenshot_viewer/screen/manage_screenshots/ScreenshotList.java:99-110 | the column count takes one clamped step and stays in [2, 8]; the tile size is recomputed, the list is laid out again with offset 0, and the scrollbar is repositioned for the new content height |
| `ScreenshotGrid.ScreenshotList.OnConfigUpdate` | src/main/java/io/github/lgatodu47/screenshot_viewer/screen/manage_screenshots/ScreenshotList.java:53-57 | the new speed and column count are taken, the tile size is recomputed and the list is laid out again with offset 0, and the scrollbar is repositioned for the new content height |
| `ScreenshotGrid.ScreenshotList.DetachEntry` | src/main/java/io/github/lgatodu47/screenshot_viewer/screen/manage_screenshots/ScreenshotList.java:143-144 | the first occurrence of the id leaves both the tiles and the elements, and the two stay equal as multisets |
| `ScreenshotGrid.ScreenshotList.RemoveEntry` | src/main/java/io/github/lgatodu47/screenshot_viewer/screen/manage_screenshots/ScreenshotList.java:142-146 | the first occurrence leaves both the tiles and the elements, the rest keep their order and are laid out again with the recomputed tile size, the offset becomes 0, and the scrollbar is repositioned for the new content height |
| `ScreenshotGrid.ScreenshotList.ReverseTiles` | src/main/java/io/github/lgatodu47/screenshot_viewer/screen/manage_screenshots/ScreenshotList.java:219 | the display list is reversed in place and the child elements are untouched |
| `ScreenshotGrid.ScreenshotList.InvertOrder` | src/main/java/io/github/lgatodu47/screenshot_viewer/screen/manage_screenshots/ScreenshotList.java:218-224 | the tiles are reversed and laid out with the recomputed tile size, the flag is negated, the scrollbar is repositioned, and the offset is the one before the call unless the layout throws |
| `ScreenshotGrid.ScreenshotList.RestoreScroll` | src/main/java/io/github/lgatodu47/screenshot_viewer/screen/manage_screenshots/ScreenshotList.java:221-223 | the saved offset is put back and nothing else changes |
| `ScreenshotGrid.InvertOrderTwice` | src/main/java/io/github/lgatodu47/screenshot_viewer/screen/manage_screenshots/ScreenshotList.java:218-224 | inverting twice restores the order and the flag, and the offset when neither layout throws; only the fields a layout recomputes change (the tile size is the recomputed one), and the elements, size and column count stay as they were |
| `ScreenshotGrid.ScreenshotList.IsInvertedOrder` | src/main/java/io/github/lgatodu47/screenshot_viewer/screen/manage_screenshots/ScreenshotList.java:226-228 | the accessor returns the inverted-order flag that `InvertOrder` negates |
| `ScreenshotGrid.ScreenshotList.Close` | src/main/java/io/github/lgatodu47/screenshot_viewer/screen/manage_screenshots/ScreenshotList.java:166-168 | every tile releases its image, nothing else about it changes, and the tiles stay in step with the elements |
| `ScreenshotGrid.ScreenshotList.ClearChildren` | src/main/java/io/github/lgatodu47/screenshot_viewer/screen/manage_screenshots/ScreenshotList.java:160-164 | every tile releases its image before both lists are emptied: the dropped tiles are the old ones with no image |
| `ScreenshotGrid.ScanStep` | src/main/java/io/github/lgatodu47/screenshot_viewer/screen/manage_screenshots/ScreenshotList.java:75-88 | one listing entry adds one tile at the next cell when it is a png file and nothing otherwise |
| `ScreenshotGrid.ScreenshotList.ScanListing` | src/main/java/io/github/lgatodu47/screenshot_viewer/screen/manage_screenshots/ScreenshotList.java:68-90 | the loop creates one tile per png file of the listing, in listing order, each at the next cell, and adds each to the elements |
| `ScreenshotGrid.ScreenshotList.Init` | src/main/java/io/github/lgatodu47/screenshot_viewer/screen/manage_screenshots/ScreenshotList.java:62-93 | the old tiles release their images and are discarded; an unreadable listing leaves the list empty, and a listing gives the png files' tiles laid out row by row; the elements are the tiles in order; the offset is untouched; the scrollbar is repositioned |
| `ScreenshotGrid.ScreenshotList.Render` | src/main/java/io/github/lgatodu47/screenshot_viewer/screen/manage_screenshots/ScreenshotList.java:177-197 | each off-screen tile releases its image and the others are unchanged; the empty message is shown exactly when there are no tiles and the scrollbar exactly when the content overflows |

## Left out

- Window aspect: the float formula for the tile height (ScreenshotList.java:152, 157) is not modelled. Every method that runs `updateVariables` takes the resulting height as a non-negative parameter.
- Scroll step: the float expression for the step (ScreenshotList.java:256) is not modelled. `MouseScrolled` takes the step as a non-negative parameter, and the wheel amount only through its sign.
- `MathHelper.ceil` of a float quotient is modelled as an exact integer ceiling. The model does not capture float rounding of large products.
- Integer overflow: 32-bit wrap-around is not modelled. The one product that can pass 2^31 is `scrollOffset * scrollbarSpacedTrackHeight` in the thumb position (ScreenshotList.java:337), for lists several thousand rows long; its wrap-around is not modelled.
- `ScreenshotGrid.Scrollbar.ThumbY` requires a non-zero content height. Java's float division by zero, giving an infinite ceiling, is not modelled.
- `ScreenshotWidget` is not part of this model, since its source is not available. The model leaves out:
  - how `updateY` turns a base Y and the offset into a screen Y (a parameter of `Render`),
  - hover state,
  - the lazy loading of an image when a visible tile is drawn (visible tiles keep their `loaded` flag). No modelled operation sets `loaded`, so the release properties of `Close`, `ClearChildren` and `Culled` are stated for whatever flags the tiles carry.
  - the index/column-count context passed to each tile.
- Tile identity: tiles are values identified by `id`, not objects compared by identity. `removeEntry` takes the id of the widget to remove, and aliasing between the two lists is not modelled.
- File system: `File.listFiles()` is a parameter, either `None` for an unreadable directory or the entries' names and file flags in listing order.
- Configuration: the store and the `CONFIG` reads are not modelled. The option values are parameters bounded by ScreenshotViewerOptions.java:20-21 (2 to 8 per row, speed 1 to 50).
- Drawing is not modelled: background fill, centered text, the scrollbar's `render` fills and colours. `Render` reports only whether the empty message and the scrollbar are drawn.
- Narration and selection type (`appendNarrations`, `getType`), `children`, `getScreenshot` and `size` are not modelled. They are accessors or host-framework hooks with nothing to prove.
- The commented-out scrollbar dragging and clicking code (ScreenshotList.java:273-308, 347-354) is not modelled.
- `ScreenshotGrid.ScreenshotList.InvertOrder`: when the layout throws, Java propagates the exception. The model returns normally with `divisionByZero` set and the state as it was at the throw.
