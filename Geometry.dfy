/** Integer geometry of the screenshot grid: Java's truncating division, integer
    ceilings, the row-major cell of a tile, the content height, the wheel-scroll
    clamp, column-count stepping and the scrollbar thumb formulas. */
module Geometry {

  /** Gap between tiles and around the grid, set by `updateVariables`. */
  const SPACING := 4
  /** Width of the scrollbar thumb and its distance from the track. */
  const SCROLLBAR_WIDTH := 6
  const SCROLLBAR_SPACING := 2

  /** Bounds of the two configuration options the grid reads. */
  const MIN_PER_ROW := 2
  const MAX_PER_ROW := 8
  const MIN_SCROLL_SPEED := 1
  const MAX_SCROLL_SPEED := 50

  function Abs(a: int): (r: nat)
    ensures r == a || r == -a
  {
    if a < 0 then -a else a
  }

  function Max(a: int, b: int): (r: int) { if a < b then b else a }
  function Min(a: int, b: int): (r: int) { if a < b then a else b }

  // ---------------------------------------------------------------------------
  // Division

  /** Java's `/` on `int`: the quotient is truncated toward zero. */
  function JavaDiv(a: int, b: int): (q: int)
    requires b != 0
    ensures (a >= 0) == (b > 0) ==> q >= 0
    ensures (a >= 0) != (b > 0) ==> q <= 0
  {
    var m := Abs(a) / Abs(b);
    DivBounds(Abs(a), Abs(b), m);
    if (a >= 0) == (b > 0) then m else -m
  }

  /** The truncated quotient's magnitude is the floor of the magnitudes' quotient:
      the largest multiple of the divisor that does not exceed the dividend. */
  lemma JavaDivTruncates(a: int, b: int)
    requires b != 0
    ensures Abs(JavaDiv(a, b)) * Abs(b) <= Abs(a) < Abs(JavaDiv(a, b)) * Abs(b) + Abs(b)
  {
    assert Abs(JavaDiv(a, b)) == Abs(a) / Abs(b);
    DivBounds(Abs(a), Abs(b), Abs(JavaDiv(a, b)));
  }

  /** The floor quotient of naturals satisfies the bounds that characterise it. */
  lemma DivBounds(n: nat, d: nat, m: int)
    requires d > 0 && m == n / d
    ensures m * d <= n < m * d + d
    ensures m >= 0
  {
    assert n == m * d + n % d;
    if m < 0 {
      MulMonotone(m, -1, d);
    }
  }

  /** On non-negative operands Java's division and Dafny's coincide. */
  lemma JavaDivNonNegative(a: int, b: int)
    requires a >= 0 && b > 0
    ensures JavaDiv(a, b) == a / b
  {
  }

  /** The least integer `q` with `a <= q * b`: the ceiling of `a / b` for a positive `b`. */
  function CeilDiv(a: int, b: int): (q: int)
    requires b > 0
  {
    -((-a) / b)
  }

  lemma CeilDivBounds(a: int, b: int)
    requires b > 0
    ensures (CeilDiv(a, b) - 1) * b < a <= CeilDiv(a, b) * b
  {
    var m := (-a) / b;
    assert -a == m * b + (-a) % b;
  }

  /** The ceiling of the rational `a / b` for any non-zero `b`, as `MathHelper.ceil`
      computes it from a float quotient. */
  function CeilQuotient(a: int, b: int): (q: int)
    requires b != 0
  {
    if b > 0 then CeilDiv(a, b) else CeilDiv(-a, -b)
  }

  /** `CeilQuotient(a, b)` is the least integer not below the rational `a / b`. */
  lemma CeilQuotientBounds(a: int, b: int)
    requires b != 0
    ensures b > 0 ==> (CeilQuotient(a, b) - 1) * b < a <= CeilQuotient(a, b) * b
    ensures b < 0 ==> (CeilQuotient(a, b) - 1) * -b < -a <= CeilQuotient(a, b) * -b
  {
    if b > 0 {
      CeilDivBounds(a, b);
    } else {
      CeilDivBounds(-a, -b);
    }
  }

  /** `a * p < b * p` with a positive `p` orders the factors. */
  lemma MulCancelLess(a: int, b: int, p: int)
    requires p > 0 && a * p < b * p
    ensures a < b
  {
  }

  lemma MulCancelEqual(a: int, b: int, p: int)
    requires p > 0 && a * p == b * p
    ensures a == b
  {
    if a < b {
      MulMonotone(a + 1, b, p);
    } else if b < a {
      MulMonotone(b + 1, a, p);
    }
  }

  lemma MulMonotone(a: int, b: int, p: int)
    requires p >= 0 && a <= b
    ensures a * p <= b * p
  {
    assert b * p - a * p == (b - a) * p;
  }

  /** Quotient and remainder are unique. */
  lemma DivModUnique(n: int, p: int, q: int, r: int)
    requires p > 0 && 0 <= r < p && n == q * p + r
    ensures n / p == q && n % p == r
  {
    var q0, r0 := n / p, n % p;
    assert n == q0 * p + r0;
    if q0 < q {
      MulMonotone(q0 + 1, q, p);
      assert false;
    } else if q < q0 {
      MulMonotone(q + 1, q0, p);
      assert false;
    }
  }

  lemma CeilDivMonotone(a: int, b: int, p: int)
    requires p > 0 && a <= b
    ensures CeilDiv(a, p) <= CeilDiv(b, p)
  {
    var qa, qb := CeilDiv(a, p), CeilDiv(b, p);
    CeilDivBounds(a, p);
    CeilDivBounds(b, p);
    if qb < qa {
      assert (qa - 1) * p < a <= b <= qb * p;
      MulCancelLess(qa - 1, qb, p);
      assert false;
    }
  }

  /** Adding whole multiples of the divisor shifts the ceiling by that many. */
  lemma CeilDivShift(a: int, p: int, k: int)
    requires p > 0
    ensures CeilDiv(a + k * p, p) == CeilDiv(a, p) + k
  {
    var m := (-a) / p;
    DivModUnique(-a - k * p, p, m - k, (-a) % p);
  }

  // ---------------------------------------------------------------------------
  // Columns and content height

  /** The tile width `updateVariables` derives from the list width and the column count. */
  function ChildWidth(listWidth: int, perRow: int): (w: int)
    requires perRow > 0
    ensures listWidth - (perRow + 1) * SPACING - SCROLLBAR_WIDTH - SCROLLBAR_SPACING >= 0 ==> w >= 0
    ensures listWidth - (perRow + 1) * SPACING - SCROLLBAR_WIDTH - SCROLLBAR_SPACING < 0 ==> w <= 0
  {
    JavaDiv(listWidth - (perRow + 1) * SPACING - SCROLLBAR_WIDTH - SCROLLBAR_SPACING, perRow)
  }

  /** Number of rows needed for `n` tiles, `perRow` to a row. */
  function Rows(n: nat, perRow: int): (rows: nat)
    requires perRow > 0
  {
    RowsBounds(n, perRow, CeilDiv(n, perRow));
    CeilDiv(n, perRow)
  }

  /** Just enough rows for `n` tiles, and none exactly when there are no tiles. */
  lemma RowsBounds(n: nat, perRow: int, rows: int)
    requires perRow > 0 && rows == CeilDiv(n, perRow)
    ensures rows >= 0 && (n == 0 <==> rows == 0)
    ensures (rows - 1) * perRow < n <= rows * perRow
  {
    CeilDivBounds(n, perRow);
    if rows < 0 {
      MulMonotone(rows, -1, perRow);
    } else if n == 0 && rows > 0 {
      MulMonotone(1, rows, perRow);
    }
  }

  /** `getTotalHeightOfChildren`: rows of tiles with one gap between consecutive rows. */
  function TotalHeight(n: nat, perRow: int, childHeight: int, spacing: int): (total: int)
    requires perRow > 0
    ensures n == 0 ==> total == -spacing
  {
    var rows := Rows(n, perRow);
    RowsBounds(n, perRow, rows);
    rows * childHeight + spacing * (rows - 1)
  }

  /** Each row adds one tile height and one gap; the last row has no gap below it. */
  lemma TotalHeightRows(n: nat, perRow: int, childHeight: int, spacing: int)
    requires perRow > 0
    ensures TotalHeight(n, perRow, childHeight, spacing) + spacing == Rows(n, perRow) * (childHeight + spacing)
  {
    var rows := Rows(n, perRow);
    assert rows * (childHeight + spacing) == rows * childHeight + rows * spacing;
  }

  /** Inner height of the list, excluding the spacing at top and bottom. */
  function ViewHeight(height: int, spacing: int): (inner: int) { height - 2 * spacing }

  /** Largest scroll offset: how far the content overflows the inner view. */
  function LeftOver(total: int, height: int, spacing: int): (leftOver: int)
  {
    total - ViewHeight(height, spacing)
  }

  /** `canScroll`: the content is taller than the inner view. */
  predicate CanScroll(total: int, height: int, spacing: int)
    ensures CanScroll(total, height, spacing) <==> LeftOver(total, height, spacing) > 0
  {
    total > ViewHeight(height, spacing)
  }

  /** `canScrollDown`: the offset has not reached the overflow. */
  predicate CanScrollDown(scrollY: int, total: int, height: int, spacing: int)
    ensures scrollY >= 0 && CanScrollDown(scrollY, total, height, spacing) ==> CanScroll(total, height, spacing)
  {
    scrollY < LeftOver(total, height, spacing)
  }

  /** Two concrete scenarios: nine tiles fit a 400-pixel list,
      twenty overflow it by 124 pixels and one wheel notch of 15 pixels moves down by 15. */
  lemma NineTilesFit()
    ensures TotalHeight(9, 4, 100, SPACING) == 308
    ensures !CanScroll(TotalHeight(9, 4, 100, SPACING), 400, SPACING)
  {
  }

  lemma TwentyTilesOverflow()
    ensures TotalHeight(20, 4, 100, SPACING) == 516
    ensures CanScroll(516, 400, SPACING) && LeftOver(516, 400, SPACING) == 124
    ensures Scrolled(0, -1.0, 15, 124) == 15
    ensures Scrolled(120, -1.0, 15, 124) == 124
  {
  }

  // ---------------------------------------------------------------------------
  // Row-major cells

  /** What one layout pass depends on: the list origin, the spacing, the tile size
      and the column count. */
  datatype Layout = Layout(left: int, top: int, spacing: int, childWidth: int, childHeight: int, perRow: int)

  function Column(i: nat, perRow: int): (c: nat)
    requires perRow > 0
    ensures c < perRow
  {
    i % perRow
  }

  function Row(i: nat, perRow: int): (row: nat)
    requires perRow > 0
  {
    i / perRow
  }

  /** Horizontal position of the tile at index `i`. */
  function CellX(lay: Layout, i: nat): (cx: int)
    requires lay.perRow > 0
  {
    lay.left + lay.spacing + Column(i, lay.perRow) * (lay.childWidth + lay.spacing)
  }

  /** Unscrolled vertical position of the tile at index `i`. */
  function CellY(lay: Layout, i: nat): (cy: int)
    requires lay.perRow > 0
  {
    lay.top + lay.spacing + Row(i, lay.perRow) * (lay.childHeight + lay.spacing)
  }

  /** One step of the placement loop: after the last column the loop returns to the
      left edge and moves down one row, otherwise it moves right one tile. */
  lemma NextCell(lay: Layout, i: nat)
    requires lay.perRow > 0
    ensures Column(i, lay.perRow) == lay.perRow - 1 ==>
      Column(i + 1, lay.perRow) == 0 &&
      CellX(lay, i + 1) == lay.left + lay.spacing &&
      CellY(lay, i + 1) == CellY(lay, i) + lay.childHeight + lay.spacing
    ensures Column(i, lay.perRow) != lay.perRow - 1 ==>
      Column(i + 1, lay.perRow) == Column(i, lay.perRow) + 1 &&
      CellX(lay, i + 1) == CellX(lay, i) + lay.childWidth + lay.spacing &&
      CellY(lay, i + 1) == CellY(lay, i)
  {
    var p := lay.perRow;
    var q, r := i / p, i % p;
    assert i == q * p + r;
    if r == p - 1 {
      DivModUnique(i + 1, p, q + 1, 0);
    } else {
      DivModUnique(i + 1, p, q, r + 1);
    }
  }

  /** Two tiles of positive pitch never share a cell: the position determines the index. */
  lemma CellInjective(lay: Layout, i: nat, j: nat)
    requires lay.perRow > 0
    requires lay.childWidth + lay.spacing > 0 && lay.childHeight + lay.spacing > 0
    requires CellX(lay, i) == CellX(lay, j) && CellY(lay, i) == CellY(lay, j)
    ensures i == j
  {
    var p := lay.perRow;
    MulCancelEqual(Column(i, p), Column(j, p), lay.childWidth + lay.spacing);
    MulCancelEqual(Row(i, p), Row(j, p), lay.childHeight + lay.spacing);
    assert i == Row(i, p) * p + Column(i, p);
    assert j == Row(j, p) * p + Column(j, p);
  }

  /** The content height is the distance from the first row's top to the last tile's
      bottom, and every tile lies inside that extent. */
  lemma TotalHeightSpansCells(lay: Layout, n: nat, i: nat)
    requires lay.perRow > 0 && lay.childHeight + lay.spacing >= 0
    requires i < n
    ensures CellY(lay, n - 1) + lay.childHeight ==
      lay.top + lay.spacing + TotalHeight(n, lay.perRow, lay.childHeight, lay.spacing)
    ensures lay.top + lay.spacing <= CellY(lay, i)
    ensures CellY(lay, i) + lay.childHeight <= CellY(lay, n - 1) + lay.childHeight
  {
    var p := lay.perRow;
    var h := lay.childHeight + lay.spacing;
    var q := (n - 1) / p;
    assert n - 1 == q * p + (n - 1) % p;
    assert q * p < n <= (q + 1) * p;
    var rows := Rows(n, p);
    RowsBounds(n, p, rows);
    TotalHeightRows(n, p, lay.childHeight, lay.spacing);
    if rows < q + 1 {
      MulMonotone(rows, q, p);
      assert false;
    } else if rows > q + 1 {
      MulMonotone(q + 1, rows - 1, p);
      assert false;
    }
    assert TotalHeight(n, p, lay.childHeight, lay.spacing) + lay.spacing == (q + 1) * h;
    assert (q + 1) * h == q * h + h;
    MulMonotone(0, Row(i, p), h);
    var qi := Row(i, p);
    assert i == qi * p + i % p;
    if qi > q {
      MulMonotone(q + 1, qi, p);
      assert false;
    }
    MulMonotone(qi, q, h);
  }

  /** With a non-negative numerator in `updateVariables`, the right edge of every
      column stays one spacing left of the scrollbar at `left + width - 8`. */
  lemma CellsClearScrollbar(left: int, listWidth: int, perRow: int, i: nat)
    requires MIN_PER_ROW <= perRow <= MAX_PER_ROW
    requires listWidth - (perRow + 1) * SPACING - SCROLLBAR_WIDTH - SCROLLBAR_SPACING >= 0
    ensures var lay := Layout(left, 0, SPACING, ChildWidth(listWidth, perRow), 0, perRow);
      CellX(lay, i) + lay.childWidth + SPACING <= left + listWidth - SCROLLBAR_SPACING - SCROLLBAR_WIDTH
  {
    var num := listWidth - (perRow + 1) * SPACING - SCROLLBAR_WIDTH - SCROLLBAR_SPACING;
    var cw := ChildWidth(listWidth, perRow);
    assert cw == num / perRow;
    DivBounds(num, perRow, cw);
    var c := Column(i, perRow);
    MulMonotone(c, perRow - 1, cw + SPACING);
    assert (perRow - 1) * (cw + SPACING) == cw * perRow - cw + SPACING * perRow - SPACING;
  }

  // ---------------------------------------------------------------------------
  // Wheel scrolling and column stepping

  /** `mouseScrolled` once scrolling is possible: a positive amount moves up by
      `speed`, floored at 0; a negative one moves down by `speed`, capped at `leftOver`. */
  function Scrolled(scrollY: int, amount: real, speed: nat, leftOver: int): (r: int)
    ensures 0 <= scrollY <= leftOver ==> 0 <= r <= leftOver
    ensures scrollY >= 0 ==> r >= 0
    ensures amount == 0.0 ==> r == scrollY
    ensures amount > 0.0 ==> r <= scrollY && (scrollY > 0 ==> r >= 0 && (r == 0 || r == scrollY - speed))
    ensures amount < 0.0 ==>
      r >= scrollY && (scrollY < leftOver ==> r <= leftOver && (r == leftOver || r == scrollY + speed))
  {
    var up := if scrollY > 0 && amount > 0.0 then Max(0, scrollY - speed) else scrollY;
    if up < leftOver && amount < 0.0 then Min(leftOver, up + speed) else up
  }

  /** One wheel event on the list: nothing changes when the content fits. */
  function Wheel(scrollY: int, amount: real, speed: nat, total: int, height: int, spacing: int): (r: int)
    ensures !CanScroll(total, height, spacing) ==> r == scrollY
    ensures 0 <= scrollY <= Max(0, LeftOver(total, height, spacing)) ==>
      0 <= r <= Max(0, LeftOver(total, height, spacing))
  {
    if CanScroll(total, height, spacing) then Scrolled(scrollY, amount, speed, LeftOver(total, height, spacing))
    else scrollY
  }

  /** A sequence of wheel events, each with its amount and its step in pixels. */
  function WheelAll(scrollY: int, events: seq<(real, nat)>, total: int, height: int, spacing: int): (r: int)
    decreases |events|
  {
    if events == [] then scrollY
    else WheelAll(Wheel(scrollY, events[0].0, events[0].1, total, height, spacing), events[1..], total, height, spacing)
  }

  /** However many wheel events arrive, the offset stays in `[0, max(0, leftOver)]`. */
  lemma {:induction false} WheelAllStaysClamped(scrollY: int, events: seq<(real, nat)>, total: int, height: int, spacing: int)
    requires 0 <= scrollY <= Max(0, LeftOver(total, height, spacing))
    ensures 0 <= WheelAll(scrollY, events, total, height, spacing) <= Max(0, LeftOver(total, height, spacing))
    decreases |events|
  {
    if events != [] {
      var next := Wheel(scrollY, events[0].0, events[0].1, total, height, spacing);
      assert 0 <= next <= Max(0, LeftOver(total, height, spacing));
      WheelAllStaysClamped(next, events[1..], total, height, spacing);
    }
  }

  /** `updateScreenshotsPerRow`: one more column for a positive amount, one fewer for
      a negative one, never leaving `[2, 8]`. */
  function StepPerRow(perRow: int, amount: real): (r: int)
    ensures MIN_PER_ROW <= perRow <= MAX_PER_ROW ==> MIN_PER_ROW <= r <= MAX_PER_ROW
    ensures amount > 0.0 ==> r == (if perRow < MAX_PER_ROW then perRow + 1 else perRow)
    ensures amount < 0.0 ==> r == (if perRow > MIN_PER_ROW then perRow - 1 else perRow)
    ensures amount == 0.0 ==> r == perRow
  {
    if amount > 0.0 then
      (if perRow < MAX_PER_ROW then Min(MAX_PER_ROW, perRow + 1) else perRow)
    else if amount < 0.0 then
      (if perRow > MIN_PER_ROW then Max(MIN_PER_ROW, perRow - 1) else perRow)
    else perRow
  }

  /** A step up followed by a step down restores the column count below the maximum. */
  lemma StepUpThenDown(perRow: int, up: real, down: real)
    requires MIN_PER_ROW <= perRow < MAX_PER_ROW && up > 0.0 && down < 0.0
    ensures StepPerRow(StepPerRow(perRow, up), down) == perRow
  {
  }

  // ---------------------------------------------------------------------------
  // Scrollbar thumb

  /** `scrollbarYGetter`: top of the thumb for scroll offset `s`. */
  function ThumbTop(listY: int, spacedTrackHeight: int, total: int, s: int): (top: int)
    requires total != 0
    ensures s == 0 ==> top == listY + SCROLLBAR_SPACING
  {
    CeilQuotient(s * spacedTrackHeight, total) + listY + SCROLLBAR_SPACING
  }

  /** Height of the thumb, truncated as Java's integer division truncates. */
  function ThumbHeight(trackHeight: int, spacedTrackHeight: int, total: int): (h: int)
    requires total != 0
    ensures total > 0 && trackHeight >= 0 && spacedTrackHeight >= 0 ==> h >= 0
  {
    if trackHeight >= 0 && spacedTrackHeight >= 0 then
      MulMonotone(0, trackHeight, spacedTrackHeight);
      JavaDiv(trackHeight * spacedTrackHeight, total)
    else
      JavaDiv(trackHeight * spacedTrackHeight, total)
  }

  /** The thumb starts at `listY + 2` and moves down as the offset grows. */
  lemma ThumbTopMonotone(listY: int, spacedTrackHeight: int, total: int, s: int, t: int)
    requires total > 0 && spacedTrackHeight >= 0 && s <= t
    ensures ThumbTop(listY, spacedTrackHeight, total, 0) == listY + SCROLLBAR_SPACING
    ensures ThumbTop(listY, spacedTrackHeight, total, s) <= ThumbTop(listY, spacedTrackHeight, total, t)
  {
    MulMonotone(s, t, spacedTrackHeight);
    CeilDivMonotone(s * spacedTrackHeight, t * spacedTrackHeight, total);
  }

  /** While the offset stays within `[0, leftOver]` the thumb stays in the band from
      `listY + 2` to `listY + 2 + trackHeight + 4`, two pixels beyond the track at each
      end, and it reaches the bottom of the band exactly at `leftOver`. */
  lemma ThumbInBand(listY: int, trackHeight: int, total: int, s: int)
    requires trackHeight >= 0 && total > trackHeight
    requires 0 <= s <= total - trackHeight
    ensures var k := trackHeight + 2 * SCROLLBAR_SPACING;
      listY + SCROLLBAR_SPACING <= ThumbTop(listY, k, total, s) &&
      ThumbTop(listY, k, total, s) + ThumbHeight(trackHeight, k, total) <= listY + SCROLLBAR_SPACING + k &&
      (s == total - trackHeight ==>
         ThumbTop(listY, k, total, s) + ThumbHeight(trackHeight, k, total) == listY + SCROLLBAR_SPACING + k)
  {
    var k := trackHeight + 2 * SCROLLBAR_SPACING;
    ThumbTopMonotone(listY, k, total, 0, s);
    var c := trackHeight * k;
    assert ThumbHeight(trackHeight, k, total) == c / total;
    MulMonotone(s, total - trackHeight, k);
    assert (total - trackHeight) * k == -c + k * total;
    CeilDivMonotone(s * k, -c + k * total, total);
    CeilDivShift(-c, total, k);
    assert CeilDiv(-c, total) == -(c / total);
  }
}
