/** The table of label rectangles kept by the floating-label board
    (`labelPositions` in script.js) and the pure rules over it: the strict
    rectangle collision test, the overlap scan that skips the label's own
    entries, the diagonal initial layout, and the position sync done when a
    drag ends. Labels are identified by their index in the page. */
module LabelTable {

  /** First label's corner and the spacing between consecutive labels. */
  const START_X := 100
  const START_Y := 100
  const GAP := 100

  /** One entry of the table: which label, where it was last recorded, and
      the size measured when the table was built. */
  datatype Rect = Rect(element: nat, left: int, top: int, width: nat, height: nat)

  /** The four strict comparisons of the collision test: a candidate box at
      (x, y) of size w by h against a stored rectangle. */
  predicate Collides(o: Rect, x: int, y: int, w: int, h: int) {
    && x < o.left + o.width
    && x + w > o.left
    && y < o.top + o.height
    && y + h > o.top
  }

  /** Pixel (px, py) lies in the half-open box [x, x + w) by [y, y + h). */
  predicate InBox(x: int, y: int, w: int, h: int, px: int, py: int) {
    x <= px < x + w && y <= py < y + h
  }

  /** An independent reading of a collision: some pixel is covered by both boxes. */
  ghost predicate SharePixel(o: Rect, x: int, y: int, w: int, h: int) {
    exists px, py :: InBox(x, y, w, h, px, py) && InBox(o.left, o.top, o.width, o.height, px, py)
  }

  /** The candidate touches `o` along an edge (or a line through one). */
  predicate EdgeContact(o: Rect, x: int, y: int, w: int, h: int) {
    || x == o.left + o.width
    || x + w == o.left
    || y == o.top + o.height
    || y + h == o.top
  }

  /** The overlap scan: true as soon as an entry of another label collides
      with the candidate, false when the table is exhausted. */
  predicate Overlapping(table: seq<Rect>, element: nat, x: int, y: int, w: int, h: int)
    decreases |table|
  {
    if table == [] then false
    else if table[0].element != element && Collides(table[0], x, y, w, h) then true
    else Overlapping(table[1..], element, x, y, w, h)
  }

  /** The entries that belong to labels other than `element`, in order. */
  function Others(table: seq<Rect>, element: nat): (r: seq<Rect>)
    decreases |table|
  {
    if table == [] then []
    else if table[0].element == element then Others(table[1..], element)
    else [table[0]] + Others(table[1..], element)
  }

  /** The entries `setInitialPositions` pushes for the first `k` labels. */
  function Layout(widths: seq<nat>, heights: seq<nat>, k: nat): (r: seq<Rect>)
    requires k <= |widths| && k <= |heights|
    ensures |r| == k
    ensures forall i :: 0 <= i < k ==>
      r[i] == Rect(i, START_X + i * GAP, START_Y + i * GAP, widths[i], heights[i])
    decreases k
  {
    if k == 0 then []
    else Layout(widths, heights, k - 1)
         + [Rect(k - 1, START_X + (k - 1) * GAP, START_Y + (k - 1) * GAP, widths[k - 1], heights[k - 1])]
  }

  /** One entry after the sync for `element`: moved if it is that label's. */
  function SyncEntry(r: Rect, element: nat, left: int, top: int): Rect {
    if r.element == element then r.(left := left, top := top) else r
  }

  /** The table after the `mouseup` sync of label `element` to (left, top). */
  function Synced(table: seq<Rect>, element: nat, left: int, top: int): seq<Rect>
    decreases |table|
  {
    if table == [] then []
    else [SyncEntry(table[0], element, left, top)] + Synced(table[1..], element, left, top)
  }

  // ---------------------------------------------------------------------
  // The collision test

  /** Two boxes that cover a common pixel always pass the strict test,
      whatever their sizes. */
  lemma SharePixelCollides(o: Rect, x: int, y: int, w: int, h: int)
    ensures SharePixel(o, x, y, w, h) ==> Collides(o, x, y, w, h)
  {
    if SharePixel(o, x, y, w, h) {
      var px, py :| InBox(x, y, w, h, px, py) && InBox(o.left, o.top, o.width, o.height, px, py);
    }
  }

  /** For boxes of positive size the converse holds too, so the strict test
      is exactly "the two boxes cover a common pixel". */
  lemma CollidingBoxesSharePixel(o: Rect, x: int, y: int, w: int, h: int)
    requires w > 0 && h > 0 && o.width > 0 && o.height > 0
    ensures Collides(o, x, y, w, h) ==> SharePixel(o, x, y, w, h)
  {
    if Collides(o, x, y, w, h) {
      var px := if x < o.left then o.left else x;
      var py := if y < o.top then o.top else y;
      assert InBox(x, y, w, h, px, py) && InBox(o.left, o.top, o.width, o.height, px, py);
    }
  }

  /** The converse fails for a label measured at size zero: a zero-size
      candidate strictly inside a stored rectangle collides with it although
      it covers no pixel at all. */
  lemma ZeroSizeCollidesWithoutPixel()
    ensures Collides(Rect(1, 0, 0, 10, 10), 5, 5, 0, 0)
    ensures !SharePixel(Rect(1, 0, 0, 10, 10), 5, 5, 0, 0)
  {
  }

  /** The test is symmetric: swapping which box is the candidate and which is
      the stored rectangle does not change the answer. */
  lemma CollidesSymmetric(a: nat, xa: int, ya: int, wa: nat, ha: nat, b: nat, xb: int, yb: int, wb: nat, hb: nat)
    ensures Collides(Rect(a, xa, ya, wa, ha), xb, yb, wb, hb) == Collides(Rect(b, xb, yb, wb, hb), xa, ya, wa, ha)
  {
  }

  /** Boxes that meet only along an edge do not collide. */
  lemma EdgeContactIsNoCollision(o: Rect, x: int, y: int, w: int, h: int)
    requires EdgeContact(o, x, y, w, h)
    ensures !Collides(o, x, y, w, h)
  {
  }

  // ---------------------------------------------------------------------
  // The overlap scan

  /** The scan reports an overlap iff some entry of another label collides. */
  lemma {:induction false} OverlappingIff(table: seq<Rect>, element: nat, x: int, y: int, w: int, h: int)
    ensures Overlapping(table, element, x, y, w, h) <==>
      exists i :: 0 <= i < |table| && table[i].element != element && Collides(table[i], x, y, w, h)
    decreases |table|
  {
    if table != [] {
      var tail := table[1..];
      OverlappingIff(tail, element, x, y, w, h);
      if Overlapping(tail, element, x, y, w, h) {
        var i :| 0 <= i < |tail| && tail[i].element != element && Collides(tail[i], x, y, w, h);
        assert table[i + 1] == tail[i];
      }
      if exists i :: 0 <= i < |table| && table[i].element != element && Collides(table[i], x, y, w, h) {
        var i :| 0 <= i < |table| && table[i].element != element && Collides(table[i], x, y, w, h);
        if i > 0 {
          assert tail[i - 1] == table[i];
        }
      }
    }
  }

  /** A candidate that at most touches every other label's entry along an
      edge is not reported as overlapping. */
  lemma {:induction false} EdgeContactOnlyIsNotOverlapping(table: seq<Rect>, element: nat, x: int, y: int, w: int, h: int)
    requires forall i :: 0 <= i < |table| && table[i].element != element ==> EdgeContact(table[i], x, y, w, h)
    ensures !Overlapping(table, element, x, y, w, h)
  {
    OverlappingIff(table, element, x, y, w, h);
  }

  /** The label's own entries never matter: scanning the table gives the same
      answer as scanning only the other labels' entries. */
  lemma {:induction false} OwnEntriesIgnored(table: seq<Rect>, element: nat, x: int, y: int, w: int, h: int)
    ensures Overlapping(table, element, x, y, w, h) == Overlapping(Others(table, element), element, x, y, w, h)
    decreases |table|
  {
    if table != [] {
      OwnEntriesIgnored(table[1..], element, x, y, w, h);
      if table[0].element != element {
        var rest := Others(table[1..], element);
        assert ([table[0]] + rest)[1..] == rest;
      }
    }
  }

  /** A table holding only the label's own entries, the empty table included,
      never reports an overlap, wherever the candidate is. */
  lemma {:induction false} AloneNeverOverlaps(table: seq<Rect>, element: nat, x: int, y: int, w: int, h: int)
    requires forall i :: 0 <= i < |table| ==> table[i].element == element
    ensures !Overlapping(table, element, x, y, w, h)
    decreases |table|
  {
    if table != [] {
      AloneNeverOverlaps(table[1..], element, x, y, w, h);
    }
  }

  // ---------------------------------------------------------------------
  // The initial layout

  /** A label fits the gap when it is at most GAP wide or at most GAP tall. */
  predicate FitsGap(w: nat, h: nat) {
    w <= GAP || h <= GAP
  }

  /** Every label's initial spot is free of the other labels' entries. */
  ghost predicate LayoutFree(widths: seq<nat>, heights: seq<nat>)
    requires |widths| == |heights|
  {
    forall i :: 0 <= i < |widths| ==>
      !Overlapping(Layout(widths, heights, |widths|), i, START_X + i * GAP, START_Y + i * GAP, widths[i], heights[i])
  }

  /** The diagonal layout is free of overlaps exactly when every label but
      the last fits the gap on at least one axis. Neighbours are the closest
      pair, and only the upper-left label's size decides whether a pair
      collides, so the last label's size never matters. */
  lemma InitialLayoutSeparated(widths: seq<nat>, heights: seq<nat>)
    requires |widths| == |heights|
    ensures LayoutFree(widths, heights) <==>
      forall k :: 0 <= k < |widths| - 1 ==> FitsGap(widths[k], heights[k])
  {
    var n := |widths|;
    var table := Layout(widths, heights, n);
    if forall k :: 0 <= k < n - 1 ==> FitsGap(widths[k], heights[k]) {
      forall i | 0 <= i < n
        ensures !Overlapping(table, i, START_X + i * GAP, START_Y + i * GAP, widths[i], heights[i])
      {
        var x, y := START_X + i * GAP, START_Y + i * GAP;
        forall j | 0 <= j < n && table[j].element != i
          ensures !Collides(table[j], x, y, widths[i], heights[i])
        {
          DiagonalSpotsApart(i, j, widths[i], heights[i], widths[j], heights[j]);
        }
        OverlappingIff(table, i, x, y, widths[i], heights[i]);
      }
    } else {
      var k :| 0 <= k < n - 1 && !FitsGap(widths[k], heights[k]);
      var x, y := START_X + k * GAP, START_Y + k * GAP;
      assert (k + 1) * GAP == k * GAP + GAP;
      assert table[k + 1].element != k && Collides(table[k + 1], x, y, widths[k], heights[k]);
      OverlappingIff(table, k, x, y, widths[k], heights[k]);
    }
  }

  /** Two labels at different diagonal spots do not collide when the one
      nearer the top-left corner fits the gap. */
  lemma DiagonalSpotsApart(i: nat, j: nat, wi: nat, hi: nat, wj: nat, hj: nat)
    requires i != j
    requires if i < j then FitsGap(wi, hi) else FitsGap(wj, hj)
    ensures !Collides(Rect(j, START_X + j * GAP, START_Y + j * GAP, wj, hj), START_X + i * GAP, START_Y + i * GAP, wi, hi)
  {
    if i < j {
      assert i * GAP + GAP <= j * GAP by { assert (j - i) * GAP >= GAP; }
    } else {
      assert j * GAP + GAP <= i * GAP by { assert (i - j) * GAP >= GAP; }
    }
  }

  /** Without that size condition the layout can overlap: two 150 by 150
      labels collide with each other at their initial spots. */
  lemma InitialLayoutCanOverlap()
    ensures Overlapping(Layout([150, 150], [150, 150], 2), 0, START_X, START_Y, 150, 150)
  {
    var table := Layout([150, 150], [150, 150], 2);
    assert table[1] == Rect(1, 200, 200, 150, 150);
    OverlappingIff(table, 0, START_X, START_Y, 150, 150);
  }

  // ---------------------------------------------------------------------
  // The mouseup sync

  /** Entry by entry, the sync moves exactly the entries of `element` to
      (left, top), keeps their sizes, and leaves every other entry alone. */
  lemma {:induction false} SyncedAt(table: seq<Rect>, element: nat, left: int, top: int)
    ensures |Synced(table, element, left, top)| == |table|
    ensures forall i :: 0 <= i < |table| ==>
      Synced(table, element, left, top)[i] ==
        if table[i].element == element then table[i].(left := left, top := top) else table[i]
    decreases |table|
  {
    if table != [] {
      SyncedAt(table[1..], element, left, top);
      var r := Synced(table, element, left, top);
      forall i | 0 <= i < |table|
        ensures r[i] == if table[i].element == element then table[i].(left := left, top := top) else table[i]
      {
        if i > 0 {
          assert r[i] == Synced(table[1..], element, left, top)[i - 1];
          assert table[1..][i - 1] == table[i];
        }
      }
    }
  }

  /** Syncing the same label twice gives the table of syncing it once. */
  lemma {:induction false} SyncedIdempotent(table: seq<Rect>, element: nat, left: int, top: int)
    ensures Synced(Synced(table, element, left, top), element, left, top) == Synced(table, element, left, top)
  {
    var once := Synced(table, element, left, top);
    SyncedAt(table, element, left, top);
    SyncedAt(once, element, left, top);
  }

  /** Syncs of two different labels commute, so the order in which the labels'
      `mouseup` handlers run does not change the table. */
  lemma {:induction false} SyncedCommute(table: seq<Rect>, a: nat, leftA: int, topA: int, b: nat, leftB: int, topB: int)
    requires a != b
    ensures Synced(Synced(table, a, leftA, topA), b, leftB, topB)
         == Synced(Synced(table, b, leftB, topB), a, leftA, topA)
  {
    var ta := Synced(table, a, leftA, topA);
    var tb := Synced(table, b, leftB, topB);
    SyncedAt(table, a, leftA, topA);
    SyncedAt(table, b, leftB, topB);
    SyncedAt(ta, b, leftB, topB);
    SyncedAt(tb, a, leftA, topA);
  }
}
