/** The screenshot grid widget and its scrollbar: the list owns the tiles, the
    viewport, the scroll offset and the column count, lays the tiles out row by
    row, scrolls within the content's overflow, reverses and removes tiles, and
    releases the images of tiles that leave the viewport. */
module ScreenshotGrid {
  import opened Geometry
  import opened Tiles
  import opened Listing

  /** One entry of the listing extends the created tiles by one tile at the next
      cell when it is a png file, and by nothing otherwise. */
  lemma ScanStep(files: seq<Entry>, j: nat, lay: Layout)
    requires j < |files| && lay.perRow > 0
    ensures var before := LaidOut(Unplaced(Names(Screenshots(files[..j]))), lay);
      LaidOut(Unplaced(Names(Screenshots(files[..j + 1]))), lay) ==
        before + if IsScreenshot(files[j]) then
          [Tile(|before|, files[j].name, CellX(lay, |before|), CellY(lay, |before|), lay.childWidth, lay.childHeight, false)]
        else []
  {
    var kept := Screenshots(files[..j]);
    ScreenshotsExtend(files, j);
    if IsScreenshot(files[j]) {
      NamesAppend(kept, files[j]);
      LaidOutUnplacedAppend(Names(kept), files[j].name, lay);
    }
  }

  /** Track and thumb geometry, recomputed from the list on every layout. */
  class Scrollbar {
    var x: int
    var height: int
    var trackX: int
    var trackY: int
    var trackHeight: int
    // What the thumb-position closure captures: the list's top, the track height
    // widened by the thumb's offset, and the content height.
    var anchorY: int
    var spacedTrackHeight: int
    var totalHeight: int

    constructor ()
      ensures x == 0 && height == 0 && trackX == 0 && trackY == 0 && trackHeight == 0
      ensures anchorY == 0 && spacedTrackHeight == 0 && totalHeight == 0
    {
      x, height, trackX, trackY, trackHeight := 0, 0, 0, 0, 0;
      anchorY, spacedTrackHeight, totalHeight := 0, 0, 0;
    }

    /** The geometry `repositionScrollbar` derives from the list: the thumb sits
        at the list's right edge, the track two pixels right of the thumb's left
        edge, spanning the list's inner height. */
    ghost predicate PlacedFor(listX: int, listY: int, listWidth: int, listHeight: int, listSpacing: int, total: int)
      reads this
    {
      x == listX + listWidth - SCROLLBAR_SPACING - SCROLLBAR_WIDTH &&
      trackX == x + SCROLLBAR_SPACING &&
      trackY == listY + listSpacing &&
      trackHeight == listHeight - 2 * listSpacing &&
      anchorY == listY &&
      spacedTrackHeight == trackHeight + 2 * SCROLLBAR_SPACING &&
      totalHeight == total &&
      (total != 0 ==> height == ThumbHeight(trackHeight, spacedTrackHeight, total))
    }

    /** `repositionScrollbar`. The thumb height is an integer division by the
        content height: when that is 0 Java throws, after every other field has
        been set, and `divisionByZero` reports it. */
    method Reposition(listX: int, listY: int, listWidth: int, listHeight: int, listSpacing: int, total: int)
      returns (divisionByZero: bool)
      modifies this
      ensures PlacedFor(listX, listY, listWidth, listHeight, listSpacing, total)
      ensures divisionByZero == (total == 0)
      ensures divisionByZero ==> height == old(height)
    {
      x := listX + listWidth - SCROLLBAR_SPACING - SCROLLBAR_WIDTH;
      trackX := x + SCROLLBAR_SPACING;
      trackY := listY + listSpacing;
      trackHeight := listHeight - 2 * listSpacing;
      var scrollbarSpacedTrackHeight := trackHeight + 2 * SCROLLBAR_SPACING;
      anchorY, spacedTrackHeight, totalHeight := listY, scrollbarSpacedTrackHeight, total;
      divisionByZero := total == 0;
      if !divisionByZero {
        height := ThumbHeight(trackHeight, scrollbarSpacedTrackHeight, total);
      }
    }

    /** Top of the thumb for a scroll offset. */
    function ThumbY(scrollOffset: int): (top: int)
      reads this
      requires totalHeight != 0
      ensures scrollOffset == 0 ==> top == anchorY + SCROLLBAR_SPACING
    {
      ThumbTop(anchorY, spacedTrackHeight, totalHeight, scrollOffset)
    }

    /** Once repositioned for content that overflows the list, the thumb stays
        between two pixels above the track and two pixels below it for every
        offset in `[0, leftOver]`. */
    lemma ThumbStaysInBand(scrollOffset: int)
      requires trackHeight >= 0 && spacedTrackHeight == trackHeight + 2 * SCROLLBAR_SPACING
      requires totalHeight > trackHeight && height == ThumbHeight(trackHeight, spacedTrackHeight, totalHeight)
      requires 0 <= scrollOffset <= totalHeight - trackHeight
      ensures anchorY + SCROLLBAR_SPACING <= ThumbY(scrollOffset)
      ensures ThumbY(scrollOffset) + height <= anchorY + SCROLLBAR_SPACING + spacedTrackHeight
    {
      ThumbInBand(anchorY, trackHeight, totalHeight, scrollOffset);
    }

    /** `isHovered`: the pointer is inside the thumb's half-open rectangle, which
        is empty unless the thumb has a positive height. */
    predicate IsHovered(mouseX: real, mouseY: real, thumbY: int)
      reads this
      ensures IsHovered(mouseX, mouseY, thumbY) ==> height > 0
    {
      mouseX >= x as real && mouseY >= thumbY as real &&
      mouseX < (x + SCROLLBAR_WIDTH) as real && mouseY < (thumbY + height) as real
    }

    /** The thumb's top-left corner is hovered exactly when the thumb has height;
        its right and bottom edges are outside. */
    lemma HoverIsHalfOpen(mouseX: real, mouseY: real, thumbY: int)
      ensures height > 0 <==> IsHovered(x as real, thumbY as real, thumbY)
      ensures !IsHovered((x + SCROLLBAR_WIDTH) as real, mouseY, thumbY)
      ensures !IsHovered(mouseX, (thumbY + height) as real, thumbY)
    {
    }
  }

  /** The grid of screenshot tiles. */
  class ScreenshotList {
    const x: int
    const y: int
    const scrollbar: Scrollbar
    var width: int
    var height: int
    /** Offset of the content from the top of the list. */
    var scrollY: int
    var scrollSpeedFactor: int
    var screenshotsPerRow: int
    var spacing: int
    var childWidth: int
    var childHeight: int
    var invertedOrder: bool
    /** The tiles in display order. */
    var tiles: seq<Tile>
    /** The same tiles, by id, in the order they were added: the list's child elements. */
    var elements: seq<nat>

    ghost predicate Valid()
      reads this
    {
      MIN_PER_ROW <= screenshotsPerRow <= MAX_PER_ROW &&
      MIN_SCROLL_SPEED <= scrollSpeedFactor <= MAX_SCROLL_SPEED &&
      spacing == SPACING && childHeight >= 0 && scrollY >= 0 &&
      SameTiles(elements, tiles)
    }

    /** The parameters the next layout pass places tiles with. */
    function CurrentLayout(): (lay: Layout)
      reads this`spacing, this`childWidth, this`childHeight, this`screenshotsPerRow
    {
      Layout(x, y, spacing, childWidth, childHeight, screenshotsPerRow)
    }

    /** The configured values are read from the configuration store by the
        caller, within the options' bounds; the tile height comes from the
        window's aspect ratio. */
    constructor (x0: int, y0: int, width0: int, height0: int, speed: int, perRow: int, childHeight0: nat)
      requires MIN_SCROLL_SPEED <= speed <= MAX_SCROLL_SPEED && MIN_PER_ROW <= perRow <= MAX_PER_ROW
      ensures Valid() && fresh(scrollbar)
      ensures x == x0 && y == y0 && width == width0 && height == height0
      ensures scrollSpeedFactor == speed && screenshotsPerRow == perRow
      ensures childWidth == ChildWidth(width0, perRow) && childHeight == childHeight0
      ensures scrollY == 0 && !invertedOrder && tiles == [] && elements == []
      ensures scrollbar.x == 0 && scrollbar.height == 0 && scrollbar.trackX == 0 &&
        scrollbar.trackY == 0 && scrollbar.trackHeight == 0
      ensures scrollbar.anchorY == 0 && scrollbar.spacedTrackHeight == 0 && scrollbar.totalHeight == 0
    {
      x, y := x0, y0;
      scrollbar := new Scrollbar();
      width, height := width0, height0;
      scrollY, scrollSpeedFactor, screenshotsPerRow := 0, speed, perRow;
      spacing, childWidth, childHeight := 0, 0, 0;
      invertedOrder := false;
      tiles, elements := [], [];
      new;
      UpdateVariables(childHeight0);
    }

    /** `updateSize`: the host screen was resized; nothing is laid out again. */
    method UpdateSize(newWidth: int, newHeight: int)
      modifies this`width, this`height
      ensures width == newWidth && height == newHeight
    {
      width, height := newWidth, newHeight;
    }

    /** `updateVariables`: the spacing and the tile size. The tile height follows
        from the window's aspect ratio in floating point and is passed in. */
    method UpdateVariables(newChildHeight: nat)
      requires screenshotsPerRow > 0
      modifies this`spacing, this`childWidth, this`childHeight
      ensures spacing == SPACING
      ensures childWidth == ChildWidth(width, screenshotsPerRow)
      ensures childHeight == newChildHeight
    {
      spacing := SPACING;
      childWidth := ChildWidth(width, screenshotsPerRow);
      childHeight := newChildHeight;
    }

    // -------------------------------------------------------------------------
    // Scrolling

    /** `getTotalHeightOfChildren`. When the tiles are laid out it is the
        distance from the first row's top to the last tile's bottom. */
    function TotalHeightOfChildren(): (total: int)
      reads this`tiles, this`screenshotsPerRow, this`childHeight, this`spacing, this`childWidth
      requires screenshotsPerRow > 0
      ensures tiles == [] ==> total == -spacing
      ensures tiles != [] && tiles == LaidOut(tiles, CurrentLayout()) && childHeight + spacing >= 0 ==>
        total == tiles[|tiles| - 1].baseY + childHeight - (y + spacing)
    {
      if tiles != [] && childHeight + spacing >= 0 then
        TotalHeightSpansCells(CurrentLayout(), |tiles|, |tiles| - 1);
        TotalHeight(|tiles|, screenshotsPerRow, childHeight, spacing)
      else
        TotalHeight(|tiles|, screenshotsPerRow, childHeight, spacing)
    }

    /** `canScroll`: the content overflows the inner view. */
    predicate CanScroll()
      reads this`tiles, this`screenshotsPerRow, this`childHeight, this`spacing, this`childWidth, this`height
      requires screenshotsPerRow > 0
      ensures CanScroll() <==> MaxScroll() > 0
    {
      Geometry.CanScroll(TotalHeightOfChildren(), height, spacing)
    }

    /** `canScrollDown`: the offset has not reached the overflow. */
    predicate CanScrollDown()
      reads this`tiles, this`screenshotsPerRow, this`childHeight, this`spacing, this`childWidth, this`height, this`scrollY
      requires screenshotsPerRow > 0
      ensures scrollY >= 0 && CanScrollDown() ==> CanScroll()
    {
      Geometry.CanScrollDown(scrollY, TotalHeightOfChildren(), height, spacing)
    }

    function MaxScroll(): (leftOver: int)
      reads this`tiles, this`screenshotsPerRow, this`childHeight, this`spacing, this`childWidth, this`height
      requires screenshotsPerRow > 0
    {
      LeftOver(TotalHeightOfChildren(), height, spacing)
    }

    /** `mouseScrolled` with the step already computed from the scroll speed, the
        column count and the wheel amount. When the content fits, the event goes
        to the children, whose answer is `delegated`. */
    method MouseScrolled(amount: real, scrollSpeed: nat, delegated: bool) returns (consumed: bool)
      requires Valid()
      modifies this`scrollY
      ensures Valid()
      ensures consumed == (CanScroll() || delegated)
      ensures scrollY == Wheel(old(scrollY), amount, scrollSpeed, TotalHeightOfChildren(), height, spacing)
      ensures !CanScroll() ==> scrollY == old(scrollY)
      ensures CanScroll() && 0 <= old(scrollY) <= MaxScroll() ==> 0 <= scrollY <= MaxScroll()
    {
      if CanScroll() {
        if scrollY > 0 && amount > 0.0 {
          scrollY := Max(0, scrollY - scrollSpeed);
        }
        if CanScrollDown() && amount < 0.0 {
          var leftOver := TotalHeightOfChildren() - ViewHeight(height, spacing);
          scrollY := Min(leftOver, scrollY + scrollSpeed);
        }
        return true;
      }
      return delegated;
    }

    // -------------------------------------------------------------------------
    // Layout

    /** The placement loop of `updateChildren`: a running column counter and a
        running position, moving right one tile at a time and wrapping to a new
        row after `screenshotsPerRow` tiles, place every tile at its cell. */
    method PlaceAll(ts: seq<Tile>) returns (placed: seq<Tile>)
      requires Valid()
      ensures placed == LaidOut(ts, CurrentLayout())
    {
      var maxXOff := screenshotsPerRow - 1;
      var childX := x + spacing;
      var childY := y + spacing;
      var xOff := 0;
      ghost var lay := CurrentLayout();
      placed := ts;
      var i := 0;
      while i < |placed|
        invariant 0 <= i <= |placed| == |ts|
        invariant forall k :: 0 <= k < i ==> placed[k] == Placed(ts[k], lay, k)
        invariant forall k :: i <= k < |placed| ==> placed[k] == ts[k]
        invariant xOff == Column(i, screenshotsPerRow)
        invariant childX == CellX(lay, i) && childY == CellY(lay, i)
      {
        placed := placed[i := placed[i].(x := childX, baseY := childY, width := childWidth, height := childHeight)];
        NextCell(lay, i);
        if xOff == maxXOff {
          xOff := 0;
          childX := x + spacing;
          childY := childY + childHeight + spacing;
        } else {
          xOff := xOff + 1;
          childX := childX + childWidth + spacing;
        }
        i := i + 1;
      }
    }

    /** `updateChildren`: resets the offset, recomputes the tile size and walks
        the tiles in order, moving right one tile at a time and wrapping to a new
        row after `screenshotsPerRow` tiles. */
    method UpdateChildren(newChildHeight: nat) returns (divisionByZero: bool)
      requires Valid()
      modifies this`scrollY, this`spacing, this`childWidth, this`childHeight, this`tiles, scrollbar
      ensures Valid()
      ensures scrollY == 0
      ensures spacing == SPACING && childWidth == ChildWidth(width, screenshotsPerRow) && childHeight == newChildHeight
      ensures tiles == LaidOut(old(tiles), CurrentLayout())
      ensures scrollbar.PlacedFor(x, y, width, height, spacing, TotalHeightOfChildren())
      ensures divisionByZero == (TotalHeightOfChildren() == 0)
      ensures divisionByZero ==> scrollbar.height == old(scrollbar.height)
    {
      scrollY := 0;
      UpdateVariables(newChildHeight);
      LaidOutKeepsSameTiles(elements, tiles, CurrentLayout());
      tiles := PlaceAll(tiles);
      divisionByZero := scrollbar.Reposition(x, y, width, height, spacing, TotalHeightOfChildren());
    }

    /** `updateScreenshotsPerRow`: one column more or fewer, within `[2, 8]`, then
        a full layout. */
    method UpdateScreenshotsPerRow(amount: real, newChildHeight: nat) returns (divisionByZero: bool)
      requires Valid()
      modifies this`screenshotsPerRow, this`scrollY, this`spacing, this`childWidth, this`childHeight, this`tiles, scrollbar
      ensures Valid()
      ensures screenshotsPerRow == StepPerRow(old(screenshotsPerRow), amount)
      ensures scrollY == 0
      ensures tiles == LaidOut(old(tiles), CurrentLayout())
      ensures childWidth == ChildWidth(width, screenshotsPerRow) && childHeight == newChildHeight
      ensures scrollbar.PlacedFor(x, y, width, height, spacing, TotalHeightOfChildren())
      ensures divisionByZero == (TotalHeightOfChildren() == 0)
      ensures divisionByZero ==> scrollbar.height == old(scrollbar.height)
    {
      if amount > 0.0 {
        if screenshotsPerRow < MAX_PER_ROW {
          screenshotsPerRow := Min(MAX_PER_ROW, screenshotsPerRow + 1);
        }
      } else if amount < 0.0 {
        if screenshotsPerRow > MIN_PER_ROW {
          screenshotsPerRow := Max(MIN_PER_ROW, screenshotsPerRow - 1);
        }
      }
      divisionByZero := UpdateChildren(newChildHeight);
    }

    /** `onConfigUpdate`, with the two option values read by the caller. */
    method OnConfigUpdate(speed: int, perRow: int, newChildHeight: nat) returns (divisionByZero: bool)
      requires Valid()
      requires MIN_SCROLL_SPEED <= speed <= MAX_SCROLL_SPEED && MIN_PER_ROW <= perRow <= MAX_PER_ROW
      modifies this`scrollSpeedFactor, this`screenshotsPerRow, this`scrollY, this`spacing,
        this`childWidth, this`childHeight, this`tiles, scrollbar
      ensures Valid()
      ensures scrollSpeedFactor == speed && screenshotsPerRow == perRow && scrollY == 0
      ensures tiles == LaidOut(old(tiles), CurrentLayout())
      ensures childWidth == ChildWidth(width, screenshotsPerRow) && childHeight == newChildHeight
      ensures scrollbar.PlacedFor(x, y, width, height, spacing, TotalHeightOfChildren())
      ensures divisionByZero == (TotalHeightOfChildren() == 0)
      ensures divisionByZero ==> scrollbar.height == old(scrollbar.height)
    {
      scrollSpeedFactor := speed;
      screenshotsPerRow := perRow;
      divisionByZero := UpdateChildren(newChildHeight);
    }

    /** The two `remove` calls of `removeEntry`: the first occurrence of the
        tile leaves both lists, which stay in step. */
    method DetachEntry(id: nat)
      requires Valid()
      modifies this`tiles, this`elements
      ensures Valid()
      ensures tiles == RemoveTile(old(tiles), id) && elements == RemoveFirst(old(elements), id)
    {
      RemoveKeepsSameTiles(elements, tiles, id);
      tiles, elements := RemoveTile(tiles, id), RemoveFirst(elements, id);
    }

    /** `removeEntry`: the first occurrence of the tile leaves both lists, the rest
        is laid out again and the offset returns to the top. */
    method RemoveEntry(id: nat, newChildHeight: nat) returns (divisionByZero: bool)
      requires Valid()
      modifies this`elements, this`scrollY, this`spacing, this`childWidth, this`childHeight, this`tiles, scrollbar
      ensures Valid()
      ensures tiles == LaidOut(RemoveTile(old(tiles), id), CurrentLayout())
      ensures elements == RemoveFirst(old(elements), id)
      ensures scrollY == 0
      ensures childWidth == ChildWidth(width, screenshotsPerRow) && childHeight == newChildHeight
      ensures scrollbar.PlacedFor(x, y, width, height, spacing, TotalHeightOfChildren())
      ensures divisionByZero == (TotalHeightOfChildren() == 0)
      ensures divisionByZero ==> scrollbar.height == old(scrollbar.height)
    {
      DetachEntry(id);
      divisionByZero := UpdateChildren(newChildHeight);
    }

    /** `Collections.reverse(screenshotWidgets)`: the display list is reversed in
        place; the child elements are left as they are. */
    method ReverseTiles()
      requires Valid()
      modifies this`tiles
      ensures Valid()
      ensures tiles == Reversed(old(tiles))
    {
      ReversedKeepsSameTiles(elements, tiles);
      tiles := Reversed(tiles);
    }

    /** `invertOrder`: the tiles in reverse, the flag toggled and the offset kept
        across the layout, which would otherwise reset it. The child elements keep
        their order. If the layout throws, the offset is not restored. */
    method InvertOrder(newChildHeight: nat) returns (divisionByZero: bool)
      requires Valid()
      modifies this`invertedOrder, this`scrollY, this`spacing, this`childWidth, this`childHeight, this`tiles, scrollbar
      ensures Valid()
      ensures tiles == LaidOut(Reversed(old(tiles)), CurrentLayout())
      ensures invertedOrder == !old(invertedOrder)
      ensures scrollY == if divisionByZero then 0 else old(scrollY)
      ensures childWidth == ChildWidth(width, screenshotsPerRow) && childHeight == newChildHeight
      ensures scrollbar.PlacedFor(x, y, width, height, spacing, TotalHeightOfChildren())
      ensures divisionByZero == (TotalHeightOfChildren() == 0)
      ensures divisionByZero ==> scrollbar.height == old(scrollbar.height)
    {
      var previousScrollY := scrollY;
      ReverseTiles();
      ghost var reversed := tiles;
      divisionByZero := UpdateChildren(newChildHeight);
      assert tiles == LaidOut(reversed, CurrentLayout());
      invertedOrder := !invertedOrder;
      if !divisionByZero {
        RestoreScroll(previousScrollY);
      }
    }

    /** Puts the offset back after a layout pass has reset it. */
    method RestoreScroll(previousScrollY: int)
      requires Valid() && previousScrollY >= 0
      modifies this`scrollY
      ensures Valid()
      ensures scrollY == previousScrollY
    {
      scrollY := previousScrollY;
    }

    function IsInvertedOrder(): (inverted: bool)
      reads this
    {
      invertedOrder
    }

    // -------------------------------------------------------------------------
    // Populating and releasing

    /** `close`: every tile releases its image. */
    method Close()
      requires Valid()
      modifies this`tiles
      ensures Valid()
      ensures |tiles| == |old(tiles)|
      ensures forall i :: 0 <= i < |tiles| ==> tiles[i] == old(tiles)[i].(loaded := false)
    {
      var released := tiles;
      var i := 0;
      while i < |released|
        invariant 0 <= i <= |released| == |tiles|
        invariant forall k :: 0 <= k < i ==> released[k] == tiles[k].(loaded := false)
        invariant forall k :: i <= k < |released| ==> released[k] == tiles[k]
      {
        released := released[i := released[i].(loaded := false)];
        i := i + 1;
      }
      assert Ids(released) == Ids(tiles);
      tiles := released;
    }

    /** `clearChildren`: release every tile, then forget them. `released` is
        what the tiles were when they were dropped. */
    method ClearChildren() returns (ghost released: seq<Tile>)
      requires Valid()
      modifies this`tiles, this`elements
      ensures Valid()
      ensures tiles == [] && elements == []
      ensures |released| == |old(tiles)|
      ensures forall i :: 0 <= i < |released| ==> released[i] == old(tiles)[i].(loaded := false)
    {
      Close();
      released := tiles;
      tiles := [];
      elements := [];
    }

    /** The placement loop of `init`: one tile per png file, numbered in order
        and placed at the next cell. */
    method ScanListing(files: seq<Entry>) returns (made: seq<Tile>, ids: seq<nat>)
      requires Valid()
      ensures made == LaidOut(Unplaced(Names(Screenshots(files))), CurrentLayout())
      ensures ids == Ids(made)
    {
      var maxXOff := screenshotsPerRow - 1;
      var childX := x + spacing;
      var childY := y + spacing;
      var xOff := 0;
      ghost var lay := CurrentLayout();
      made, ids := [], [];
      var j := 0;
      while j < |files|
        invariant 0 <= j <= |files|
        invariant lay == CurrentLayout()
        invariant made == LaidOut(Unplaced(Names(Screenshots(files[..j]))), lay)
        invariant ids == Ids(made)
        invariant xOff == Column(|made|, screenshotsPerRow)
        invariant childX == CellX(lay, |made|) && childY == CellY(lay, |made|)
      {
        var file := files[j];
        ScanStep(files, j, lay);
        if file.isFile && EndsWith(file.name, PNG_SUFFIX) {
          var widget := Tile(|made|, file.name, childX, childY, childWidth, childHeight, false);
          NextCell(lay, |made|);
          IdsAppend(made, widget);
          made := made + [widget];
          ids := ids + [widget.id];
          if xOff == maxXOff {
            xOff := 0;
            childX := x + spacing;
            childY := childY + childHeight + spacing;
          } else {
            xOff := xOff + 1;
            childX := childX + childWidth + spacing;
          }
        }
        j := j + 1;
      }
      assert files[..j] == files;
    }

    /** `init`: discard the old tiles and create one per png file of the listing,
        in listing order, laid out row by row. An unreadable directory leaves the
        list empty and the tile size as it was. The offset is not touched. */
    method Init(listing: Option<seq<Entry>>, newChildHeight: nat)
      returns (divisionByZero: bool, ghost released: seq<Tile>)
      requires Valid()
      modifies this`tiles, this`elements, this`spacing, this`childWidth, this`childHeight, scrollbar
      ensures Valid()
      ensures listing.None? ==> tiles == [] && childWidth == old(childWidth) && childHeight == old(childHeight)
      ensures listing.Some? ==>
        childWidth == ChildWidth(width, screenshotsPerRow) && childHeight == newChildHeight &&
        tiles == LaidOut(Unplaced(Names(Screenshots(listing.value))), CurrentLayout())
      ensures elements == Ids(tiles)
      ensures scrollbar.PlacedFor(x, y, width, height, spacing, TotalHeightOfChildren())
      ensures divisionByZero == (TotalHeightOfChildren() == 0)
      ensures divisionByZero ==> scrollbar.height == old(scrollbar.height)
      ensures |released| == |old(tiles)|
      ensures forall i :: 0 <= i < |released| ==> released[i] == old(tiles)[i].(loaded := false)
    {
      released := ClearChildren();
      if listing.Some? {
        UpdateVariables(newChildHeight);
        var made, ids := ScanListing(listing.value);
        tiles := made;
        elements := ids;
      }
      divisionByZero := scrollbar.Reposition(x, y, width, height, spacing, TotalHeightOfChildren());
    }

    // -------------------------------------------------------------------------
    // Rendering

    /** The resource part of `render`: each tile is moved to its screen position
        by the tile itself (`updateY`, given here as a function of the base Y and
        the offset) and releases its image when it lies wholly outside the list.
        The results say whether the "no screenshots" message and the scrollbar
        are drawn. */
    method Render(updateY: (int, int) -> int) returns (showsEmptyMessage: bool, showsScrollbar: bool)
      requires Valid()
      modifies this`tiles
      ensures Valid()
      ensures tiles == Culled(old(tiles), updateY, scrollY, y, height)
      ensures showsEmptyMessage == (tiles == [])
      ensures showsScrollbar == CanScroll()
    {
      showsEmptyMessage := tiles == [];
      var drawn := tiles;
      var i := 0;
      while i < |drawn|
        invariant 0 <= i <= |drawn| == |tiles|
        invariant forall k :: 0 <= k < i ==> drawn[k] == Culled(tiles, updateY, scrollY, y, height)[k]
        invariant forall k :: i <= k < |drawn| ==> drawn[k] == tiles[k]
      {
        var screenY := updateY(drawn[i].baseY, scrollY);
        if screenY + drawn[i].height < y || screenY > y + height {
          drawn := drawn[i := drawn[i].(loaded := false)];
        }
        i := i + 1;
      }
      assert SameTiles(elements, drawn) by {
        assert Ids(drawn) == Ids(tiles);
      }
      tiles := drawn;
      showsScrollbar := CanScroll();
    }
  }

  /** What a caller of `invertOrder` sees when it inverts twice without a failing
      layout: the original order, the original flag and the original offset. */
  method InvertOrderTwice(list: ScreenshotList, newChildHeight: nat)
    requires list.Valid()
    modifies list`invertedOrder, list`scrollY, list`spacing, list`childWidth, list`childHeight, list`tiles,
      list.scrollbar
    ensures list.Valid()
    ensures list.childWidth == ChildWidth(list.width, list.screenshotsPerRow) && list.childHeight == newChildHeight
    ensures list.tiles == LaidOut(old(list.tiles), list.CurrentLayout())
    ensures list.invertedOrder == old(list.invertedOrder)
    ensures list.TotalHeightOfChildren() != 0 ==> list.scrollY == old(list.scrollY)
  {
    var failed := list.InvertOrder(newChildHeight);
    var failedAgain := list.InvertOrder(newChildHeight);
    Tiles.InvertTwice(old(list.tiles), list.CurrentLayout());
  }
}
