/** The grid's tiles as values, and the sequence operations the list performs on
    them: row-major placement, reversal, removal of the first occurrence and the
    culling pass that releases off-screen images. */
module Tiles {
  import opened Geometry

  /** One screenshot tile: its identity and file, its unscrolled rectangle, and
      whether it currently holds a decoded image. */
  datatype Tile = Tile(id: nat, file: string, x: int, baseY: int, width: int, height: int, loaded: bool)

  function Ids(ts: seq<Tile>): (r: seq<nat>)
    ensures |r| == |ts|
    ensures forall i :: 0 <= i < |ts| ==> r[i] == ts[i].id
  {
    seq(|ts|, i requires 0 <= i < |ts| => ts[i].id)
  }

  lemma IdsAppend(ts: seq<Tile>, t: Tile)
    ensures Ids(ts + [t]) == Ids(ts) + [t.id]
  {
  }

  lemma IdsCons(t: Tile, ts: seq<Tile>)
    ensures Ids([t] + ts) == [t.id] + Ids(ts)
  {
  }

  lemma IdsTail(ts: seq<Tile>)
    requires ts != []
    ensures Ids(ts) == [ts[0].id] + Ids(ts[1..])
  {
  }

  /** Two tiles stand for the same screenshot in the same resource state. */
  predicate SameScreenshot(a: Tile, b: Tile)
  {
    a.id == b.id && a.file == b.file && a.loaded == b.loaded
  }

  // ---------------------------------------------------------------------------
  // Layout

  /** Tile `t` moved to cell `i` and resized to the layout's tile size. */
  function Placed(t: Tile, lay: Layout, i: nat): (p: Tile)
    requires lay.perRow > 0
  {
    t.(x := CellX(lay, i), baseY := CellY(lay, i), width := lay.childWidth, height := lay.childHeight)
  }

  /** Every tile placed at the cell of its index. */
  function LaidOut(ts: seq<Tile>, lay: Layout): (r: seq<Tile>)
    requires lay.perRow > 0
    ensures |r| == |ts|
    ensures forall i :: 0 <= i < |ts| ==> SameScreenshot(r[i], ts[i])
    ensures Ids(r) == Ids(ts)
  {
    seq(|ts|, i requires 0 <= i < |ts| => Placed(ts[i], lay, i))
  }

  /** Positions after a layout depend only on the count, the order and the layout,
      never on where the tiles were before. */
  lemma LayoutForgetsPositions(a: seq<Tile>, b: seq<Tile>, lay: Layout)
    requires lay.perRow > 0
    requires |a| == |b| && forall i :: 0 <= i < |a| ==> SameScreenshot(a[i], b[i])
    ensures LaidOut(a, lay) == LaidOut(b, lay)
  {
    forall i | 0 <= i < |a|
      ensures LaidOut(a, lay)[i] == LaidOut(b, lay)[i]
    {
      assert a[i].id == b[i].id && a[i].file == b[i].file && a[i].loaded == b[i].loaded;
    }
  }

  /** Running the layout again with the same inputs changes nothing. */
  lemma LayoutIdempotent(ts: seq<Tile>, lay: Layout)
    requires lay.perRow > 0
    ensures LaidOut(LaidOut(ts, lay), lay) == LaidOut(ts, lay)
  {
    LayoutForgetsPositions(LaidOut(ts, lay), ts, lay);
  }

  /** Two laid-out tiles of positive pitch never occupy the same position. */
  lemma LayoutSeparatesTiles(ts: seq<Tile>, lay: Layout, i: nat, j: nat)
    requires lay.perRow > 0
    requires lay.childWidth + lay.spacing > 0 && lay.childHeight + lay.spacing > 0
    requires i < |ts| && j < |ts| && i != j
    ensures LaidOut(ts, lay)[i].x != LaidOut(ts, lay)[j].x || LaidOut(ts, lay)[i].baseY != LaidOut(ts, lay)[j].baseY
  {
    if CellX(lay, i) == CellX(lay, j) && CellY(lay, i) == CellY(lay, j) {
      CellInjective(lay, i, j);
    }
  }

  // ---------------------------------------------------------------------------
  // Reversal

  function Reversed<T>(s: seq<T>): (r: seq<T>)
  {
    if s == [] then [] else Reversed(s[1..]) + [s[0]]
  }

  lemma {:induction false} ReversedAt<T>(s: seq<T>, k: nat)
    requires k < |s|
    ensures |Reversed(s)| == |s| && Reversed(s)[k] == s[|s| - 1 - k]
  {
    ReversedLength(s);
    if k < |s| - 1 {
      ReversedAt(s[1..], k);
    }
  }

  lemma {:induction false} ReversedLength<T>(s: seq<T>)
    ensures |Reversed(s)| == |s|
  {
    if s != [] {
      ReversedLength(s[1..]);
    }
  }

  /** Reversing twice restores the sequence. */
  lemma ReversedTwice<T>(s: seq<T>)
    ensures Reversed(Reversed(s)) == s
  {
    ReversedLength(s);
    ReversedLength(Reversed(s));
    forall k | 0 <= k < |s|
      ensures Reversed(Reversed(s))[k] == s[k]
    {
      ReversedAt(Reversed(s), k);
      ReversedAt(s, |s| - 1 - k);
    }
  }

  /** Reversal rearranges and keeps every element. */
  lemma {:induction false} ReversedPermutes<T>(s: seq<T>)
    ensures multiset(Reversed(s)) == multiset(s)
  {
    if s != [] {
      ReversedPermutes(s[1..]);
      assert s == [s[0]] + s[1..];
    }
  }

  lemma ReversedIds(ts: seq<Tile>)
    ensures Ids(Reversed(ts)) == Reversed(Ids(ts))
  {
    ReversedLength(ts);
    ReversedLength(Ids(ts));
    forall k | 0 <= k < |ts|
      ensures Ids(Reversed(ts))[k] == Reversed(Ids(ts))[k]
    {
      ReversedAt(ts, k);
      ReversedAt(Ids(ts), k);
    }
  }

  /** Inverting the order, laying out, and doing both again gives back the original
      layout: each inversion is undone by the next. */
  lemma InvertTwice(ts: seq<Tile>, lay: Layout)
    requires lay.perRow > 0
    ensures LaidOut(Reversed(LaidOut(Reversed(ts), lay)), lay) == LaidOut(ts, lay)
  {
    var once := LaidOut(Reversed(ts), lay);
    ReversedLength(ts);
    ReversedLength(once);
    forall k | 0 <= k < |ts|
      ensures SameScreenshot(Reversed(once)[k], ts[k])
    {
      ReversedAt(once, k);
      ReversedAt(ts, |ts| - 1 - k);
    }
    LayoutForgetsPositions(Reversed(once), ts, lay);
  }

  // ---------------------------------------------------------------------------
  // Removal of the first occurrence

  /** Index of the first `x` in `s`, or `|s|` when there is none. */
  function FirstIndex<T(==)>(s: seq<T>, x: T): (k: nat)
    ensures k <= |s|
    ensures k < |s| ==> s[k] == x
    ensures forall j :: 0 <= j < k ==> s[j] != x
    ensures k == |s| <==> x !in s
  {
    if s == [] then 0
    else if s[0] == x then 0
    else 1 + FirstIndex(s[1..], x)
  }

  /** `List.remove(Object)`: drop the first `x`, keep everything else in order. */
  function RemoveFirst<T(==)>(s: seq<T>, x: T): (r: seq<T>)
    ensures x in s ==> |r| == |s| - 1
    ensures x !in s ==> r == s
  {
    if s == [] then []
    else
      assert s == [s[0]] + s[1..];
      if s[0] == x then s[1..]
      else [s[0]] + RemoveFirst(s[1..], x)
  }

  /** Removal takes exactly one copy of `x` out of the multiset, and none when
      there is none. */
  lemma {:induction false} RemoveFirstMultiset<T>(s: seq<T>, x: T)
    ensures multiset(RemoveFirst(s, x)) == multiset(s) - multiset{x}
  {
    if s != [] {
      assert s == [s[0]] + s[1..];
      if s[0] != x {
        RemoveFirstMultiset(s[1..], x);
        assert RemoveFirst(s, x) == [s[0]] + RemoveFirst(s[1..], x);
      }
    }
  }

  /** Removal keeps the relative order: the elements before the first `x` stay where
      they are and those after it move up by one. */
  lemma {:induction false} RemoveFirstKeepsOrder<T>(s: seq<T>, x: T, i: nat)
    requires x in s && i < |s| - 1
    ensures RemoveFirst(s, x)[i] == if i < FirstIndex(s, x) then s[i] else s[i + 1]
  {
    if s[0] != x && i > 0 {
      assert x in s[1..] by {
        assert s == [s[0]] + s[1..];
      }
      RemoveFirstKeepsOrder(s[1..], x, i - 1);
    }
  }

  /** The tile whose id is `id`, first occurrence, removed. */
  function RemoveTile(ts: seq<Tile>, id: nat): (r: seq<Tile>)
    ensures Ids(r) == RemoveFirst(Ids(ts), id)
  {
    if ts == [] then []
    else
      IdsTail(ts);
      if ts[0].id == id then ts[1..]
      else
        var rest := RemoveTile(ts[1..], id);
        IdsCons(ts[0], rest);
        [ts[0]] + rest
  }

  /** Removing an id that no tile has leaves the tiles as they are. */
  lemma {:induction false} RemoveTileAbsent(ts: seq<Tile>, id: nat)
    requires id !in Ids(ts)
    ensures RemoveTile(ts, id) == ts
  {
    if ts != [] {
      IdsTail(ts);
      RemoveTileAbsent(ts[1..], id);
    }
  }

  /** The remaining tiles are the old ones, unchanged and in order: those before
      the removed tile keep their index and those after it move up by one. */
  lemma {:induction false} RemoveTileKeepsOrder(ts: seq<Tile>, id: nat, i: nat)
    requires id in Ids(ts) && i < |ts| - 1
    ensures RemoveTile(ts, id)[i] == if i < FirstIndex(Ids(ts), id) then ts[i] else ts[i + 1]
  {
    var ids, rest := Ids(ts), ts[1..];
    IdsTail(ts);
    assert ids[1..] == Ids(rest);
    if ts[0].id == id {
      assert FirstIndex(ids, id) == 0;
      assert RemoveTile(ts, id) == rest;
    } else {
      assert FirstIndex(ids, id) == 1 + FirstIndex(Ids(rest), id);
      assert RemoveTile(ts, id) == [ts[0]] + RemoveTile(rest, id);
      if i > 0 {
        assert id in Ids(rest) by {
          assert ids == [ts[0].id] + Ids(rest);
        }
        RemoveTileKeepsOrder(rest, id, i - 1);
      }
    }
  }

  /** The child elements name the same tiles as the display list, each as often,
      in any order. */
  predicate SameTiles(es: seq<nat>, ts: seq<Tile>)
  {
    multiset(es) == multiset(Ids(ts))
  }

  /** Reversing the display list keeps it in step with the elements. */
  lemma ReversedKeepsSameTiles(es: seq<nat>, ts: seq<Tile>)
    requires SameTiles(es, ts)
    ensures SameTiles(es, Reversed(ts))
  {
    ReversedIds(ts);
    ReversedPermutes(Ids(ts));
  }

  /** Laying out the display list keeps it in step with the elements. */
  lemma LaidOutKeepsSameTiles(es: seq<nat>, ts: seq<Tile>, lay: Layout)
    requires lay.perRow > 0 && SameTiles(es, ts)
    ensures SameTiles(es, LaidOut(ts, lay))
  {
    assert Ids(LaidOut(ts, lay)) == Ids(ts);
  }

  /** Removing the same id from the tiles and from a list naming the same tiles
      keeps the two in step. */
  lemma RemoveKeepsSameTiles(es: seq<nat>, ts: seq<Tile>, id: nat)
    requires SameTiles(es, ts)
    ensures SameTiles(RemoveFirst(es, id), RemoveTile(ts, id))
  {
    assert Ids(RemoveTile(ts, id)) == RemoveFirst(Ids(ts), id);
    RemoveFirstMultiset(es, id);
    RemoveFirstMultiset(Ids(ts), id);
  }

  /** Removal shortens the tiles by one exactly when a tile has the id. */
  lemma RemoveTileLength(ts: seq<Tile>, id: nat)
    ensures |RemoveTile(ts, id)| == if id in Ids(ts) then |ts| - 1 else |ts|
  {
    assert |RemoveTile(ts, id)| == |Ids(RemoveTile(ts, id))|;
  }

  // ---------------------------------------------------------------------------
  // Creation and culling

  /** Fresh tiles for the given files, numbered in order and holding no image yet;
      layout gives them their positions. */
  function Unplaced(files: seq<string>): (r: seq<Tile>)
    ensures |r| == |files|
    ensures forall k :: 0 <= k < |r| ==> r[k].id == k && r[k].file == files[k] && !r[k].loaded
  {
    seq(|files|, k requires 0 <= k < |files| => Tile(k, files[k], 0, 0, 0, 0, false))
  }

  /** Creating one more tile appends it at the next cell and leaves the others. */
  lemma LaidOutUnplacedAppend(files: seq<string>, file: string, lay: Layout)
    requires lay.perRow > 0
    ensures LaidOut(Unplaced(files + [file]), lay) ==
      LaidOut(Unplaced(files), lay) +
      [Tile(|files|, file, CellX(lay, |files|), CellY(lay, |files|), lay.childWidth, lay.childHeight, false)]
  {
  }

  /** The render loop's test: the tile at screen position `screenY` lies entirely
      above or entirely below the list. */
  predicate Offscreen(screenY: int, tileHeight: int, listY: int, listHeight: int)
  {
    screenY + tileHeight < listY || screenY > listY + listHeight
  }

  /** For a tile and a list of non-negative height the test is exactly "the closed
      vertical extents do not intersect". */
  lemma OffscreenIffDisjoint(screenY: int, tileHeight: int, listY: int, listHeight: int)
    requires tileHeight >= 0 && listHeight >= 0
    ensures !Offscreen(screenY, tileHeight, listY, listHeight) <==>
      Max(screenY, listY) <= Min(screenY + tileHeight, listY + listHeight)
  {
  }

  /** One render pass: every tile the test finds off screen gives up its image. */
  function Culled(ts: seq<Tile>, updateY: (int, int) -> int, scrollY: int, listY: int, listHeight: int): (r: seq<Tile>)
    ensures |r| == |ts|
    ensures forall i :: 0 <= i < |ts| ==>
      r[i] == (if Offscreen(updateY(ts[i].baseY, scrollY), ts[i].height, listY, listHeight)
               then ts[i].(loaded := false) else ts[i])
    ensures forall i :: 0 <= i < |ts| && r[i].loaded ==>
      !Offscreen(updateY(r[i].baseY, scrollY), r[i].height, listY, listHeight)
  {
    seq(|ts|, i requires 0 <= i < |ts| =>
      if Offscreen(updateY(ts[i].baseY, scrollY), ts[i].height, listY, listHeight)
      then ts[i].(loaded := false) else ts[i])
  }
}
