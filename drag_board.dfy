/** The floating-label board of script.js as a state machine: the shared
    table of label rectangles, each label's drag handler state (the variables
    captured by its listeners), and each label's rendered position (its
    `style.left` / `style.top`). Labels are numbered by their position in the
    page; their measured sizes are fixed inputs. */
module DragBoard {
  import opened LabelTable

  /** A label's rendered position, in pixels. */
  datatype Point = Point(x: int, y: int)

  /** The variables one label's listeners share: whether it is being dragged
      and where in the label the pointer grabbed it. */
  datatype Handler = Handler(isDragging: bool, offsetX: int, offsetY: int)

  /** Label `l` has at least one entry in `table`. */
  ghost predicate HasEntry(table: seq<Rect>, l: nat) {
    exists k :: 0 <= k < |table| && table[k].element == l
  }

  class Board {
    /** Measured width and height of each label. */
    const widths: seq<nat>
    const heights: seq<nat>
    /** The shared table `labelPositions`. */
    var labelPositions: seq<Rect>
    /** Per-label listener state. */
    var handlers: seq<Handler>
    /** Per-label rendered position; the label's offsetLeft/offsetTop read it. */
    var style: seq<Point>

    /** Every per-label sequence covers every label, and every table entry
        belongs to a label and carries that label's measured size. */
    ghost predicate Valid()
      reads this
    {
      && |heights| == |widths|
      && |handlers| == |widths|
      && |style| == |widths|
      && forall i :: 0 <= i < |labelPositions| ==> EntryFits(labelPositions[i])
    }

    ghost predicate EntryFits(r: Rect)
      reads this
    {
      r.element < |widths| && r.element < |heights|
      && r.width == widths[r.element] && r.height == heights[r.element]
    }

    /** The number of labels on the page. */
    function Count(): nat {
      |widths|
    }

    /** Where a drag of label `id` would put it for a pointer at (clientX, clientY). */
    function DragTarget(id: nat, clientX: int, clientY: int): Point
      reads this
      requires id < |handlers|
    {
      Point(clientX - handlers[id].offsetX, clientY - handlers[id].offsetY)
    }

    /** The rendered position of label `id` after its `mousemove` handler, from
        the position `prev` it had before. */
    function MovedTo(id: nat, clientX: int, clientY: int, prev: Point): Point
      reads this
      requires Valid() && id < Count()
    {
      var t := DragTarget(id, clientX, clientY);
      if handlers[id].isDragging
         && !Overlapping(labelPositions, id, t.x, t.y, widths[id], heights[id])
      then t
      else prev
    }

    /** Label `l`'s rendered box when the labels are rendered at `s`. */
    function BoxAt(s: seq<Point>, l: nat): Rect
      requires |s| == |widths| == |heights| && l < |s|
    {
      Rect(l, s[l].x, s[l].y, widths[l], heights[l])
    }

    // -------------------------------------------------------------------
    // What the drag gate is for: labels rendered at `s` do not overlap

    /** No two labels rendered at `s` collide. */
    ghost predicate ApartAt(s: seq<Point>)
      requires |s| == |widths| == |heights|
    {
      forall i, j :: 0 <= i < |s| && 0 <= j < |s| && i != j ==>
        !Collides(BoxAt(s, j), s[i].x, s[i].y, widths[i], heights[i])
    }

    /** Every entry of `table` whose label is not dragging in `hs` records
        that label's box as rendered at `s`. */
    ghost predicate IdleRecordedIn(table: seq<Rect>, hs: seq<Handler>, s: seq<Point>)
      requires |s| == |widths| == |heights|
    {
      forall k :: 0 <= k < |table| && table[k].element < |hs| && table[k].element < |s|
                  && !hs[table[k].element].isDragging ==>
        table[k] == BoxAt(s, table[k].element)
    }

    /** Every label has at least one entry in `table`. */
    ghost predicate RecordsEveryLabel(table: seq<Rect>) {
      forall l :: 0 <= l < Count() ==> HasEntry(table, l)
    }

    ghost predicate AtMostOneDragging(hs: seq<Handler>) {
      forall i, j :: 0 <= i < |hs| && 0 <= j < |hs| && hs[i].isDragging && hs[j].isDragging ==> i == j
    }

    ghost predicate NoneDragging(hs: seq<Handler>) {
      forall l :: 0 <= l < |hs| ==> !hs[l].isDragging
    }

    /** The state in which the overlap check keeps its promise: labels are
        apart on screen, the table is up to date for every label not being
        dragged, every label is in the table, and at most one label is dragged. */
    ghost predicate DragSafe()
      reads this
    {
      && Valid()
      && ApartAt(style)
      && IdleRecordedIn(labelPositions, handlers, style)
      && RecordsEveryLabel(labelPositions)
      && AtMostOneDragging(handlers)
    }

    /** If label `m` moved from `prev` and the other label `o` is idle, then
        `m`'s new box is clear of `o`'s, because `o`'s entry is its box and
        the overlap check passed. */
    lemma MovedClearOf(prev: seq<Point>, clientX: int, clientY: int, m: nat, o: nat)
      requires Valid() && |prev| == Count()
      requires IdleRecordedIn(labelPositions, handlers, prev)
      requires RecordsEveryLabel(labelPositions) && AtMostOneDragging(handlers)
      requires forall l :: 0 <= l < Count() ==> style[l] == MovedTo(l, clientX, clientY, prev[l])
      requires m < Count() && o < Count() && m != o && style[m] != prev[m]
      ensures !Collides(BoxAt(style, o), style[m].x, style[m].y, widths[m], heights[m])
    {
      var t := DragTarget(m, clientX, clientY);
      assert handlers[m].isDragging && style[m] == t;
      assert !Overlapping(labelPositions, m, t.x, t.y, widths[m], heights[m]);
      assert !handlers[o].isDragging && style[o] == prev[o];
      assert HasEntry(labelPositions, o);
      var k :| 0 <= k < |labelPositions| && labelPositions[k].element == o;
      assert labelPositions[k] == BoxAt(style, o);
      OverlappingIff(labelPositions, m, t.x, t.y, widths[m], heights[m]);
    }

    /** A document `mousemove` from a drag-safe state keeps labels apart and
        the table up to date: only the one dragged label can move, and only
        to a spot clear of every other label's entry, which is its box. */
    lemma MoveKeepsApart(prev: seq<Point>, clientX: int, clientY: int)
      requires Valid() && |prev| == Count()
      requires ApartAt(prev) && IdleRecordedIn(labelPositions, handlers, prev)
      requires RecordsEveryLabel(labelPositions) && AtMostOneDragging(handlers)
      requires forall l :: 0 <= l < Count() ==> style[l] == MovedTo(l, clientX, clientY, prev[l])
      ensures ApartAt(style) && IdleRecordedIn(labelPositions, handlers, style)
    {
      forall k | 0 <= k < |labelPositions| && !handlers[labelPositions[k].element].isDragging
        ensures labelPositions[k] == BoxAt(style, labelPositions[k].element)
      {
        assert style[labelPositions[k].element] == prev[labelPositions[k].element];
      }
      forall i, j | 0 <= i < Count() && 0 <= j < Count() && i != j
        ensures !Collides(BoxAt(style, j), style[i].x, style[i].y, widths[i], heights[i])
      {
        if style[i] != prev[i] {
          MovedClearOf(prev, clientX, clientY, i, j);
        } else if style[j] != prev[j] {
          MovedClearOf(prev, clientX, clientY, j, i);
          CollidesSymmetric(i, style[i].x, style[i].y, widths[i], heights[i],
                            j, style[j].x, style[j].y, widths[j], heights[j]);
        } else {
          assert BoxAt(style, j) == BoxAt(prev, j);
        }
      }
    }

    /** The board right after the diagonal layout is drag-safe when every
        label but the last fits the gap. */
    lemma LayoutIsDragSafe()
      requires Valid() && labelPositions == Layout(widths, heights, Count())
      requires forall l :: 0 <= l < Count() ==>
        style[l] == Point(START_X + l * GAP, START_Y + l * GAP) && !handlers[l].isDragging
      requires forall k :: 0 <= k < Count() - 1 ==> FitsGap(widths[k], heights[k])
      ensures DragSafe()
    {
      forall i, j | 0 <= i < Count() && 0 <= j < Count() && i != j
        ensures !Collides(BoxAt(style, j), style[i].x, style[i].y, widths[i], heights[i])
      {
        DiagonalSpotsApart(i, j, widths[i], heights[i], widths[j], heights[j]);
      }
      forall l | 0 <= l < Count()
        ensures HasEntry(labelPositions, l)
      {
        assert labelPositions[l].element == l;
      }
    }

    /** The page as the script finds it: no table entries, no label dragged,
        each label at the position its stylesheet gives it. */
    constructor (widths: seq<nat>, heights: seq<nat>, initial: seq<Point>)
      requires |heights| == |widths| && |initial| == |widths|
      ensures Valid()
      ensures this.widths == widths && this.heights == heights
      ensures labelPositions == [] && style == initial
      ensures |handlers| == |widths|
      ensures forall l :: 0 <= l < |widths| ==> handlers[l] == Handler(false, 0, 0)
    {
      this.widths := widths;
      this.heights := heights;
      labelPositions := [];
      handlers := seq(|widths|, _ => Handler(false, 0, 0));
      style := initial;
    }

    /** `setInitialPositions`: place label i at (100 + 100 i, 100 + 100 i) and
        append its entry, label by label. */
    method SetInitialPositions()
      requires Valid()
      modifies this
      ensures Valid()
      ensures labelPositions == old(labelPositions) + Layout(widths, heights, Count())
      ensures |style| == Count()
      ensures forall i :: 0 <= i < Count() ==> style[i] == Point(START_X + i * GAP, START_Y + i * GAP)
      ensures handlers == old(handlers)
    {
      var startX, startY, gap := START_X, START_Y, GAP;
      var i := 0;
      while i < |widths|
        invariant 0 <= i <= |widths|
        invariant Valid()
        invariant handlers == old(handlers)
        invariant labelPositions == old(labelPositions) + Layout(widths, heights, i)
        invariant forall k :: 0 <= k < i ==> style[k] == Point(START_X + k * GAP, START_Y + k * GAP)
      {
        var xPos := startX + i * gap;
        var yPos := startY + i * gap;
        style := style[i := Point(xPos, yPos)];
        labelPositions := labelPositions + [Rect(i, xPos, yPos, widths[i], heights[i])];
        i := i + 1;
      }
    }

    /** `isOverlapping`: scan the table for an entry of another label that
        collides with label `id` placed at (x, y), stopping at the first one. */
    method IsOverlapping(id: nat, x: int, y: int) returns (b: bool)
      requires Valid() && id < Count()
      ensures b == Overlapping(labelPositions, id, x, y, widths[id], heights[id])
    {
      var elemWidth, elemHeight := widths[id], heights[id];
      var i := 0;
      while i < |labelPositions|
        invariant 0 <= i <= |labelPositions|
        invariant Overlapping(labelPositions, id, x, y, elemWidth, elemHeight)
               == Overlapping(labelPositions[i..], id, x, y, elemWidth, elemHeight)
      {
        var otherLabel := labelPositions[i];
        if id != otherLabel.element {
          if && x < otherLabel.left + otherLabel.width
             && x + elemWidth > otherLabel.left
             && y < otherLabel.top + otherLabel.height
             && y + elemHeight > otherLabel.top
          {
            return true;
          }
        }
        assert labelPositions[i..][1..] == labelPositions[i + 1..];
        i := i + 1;
      }
      return false;
    }

    /** The `mousedown` handler of label `id`: start dragging and remember where
        in the label the pointer grabbed it. */
    method MouseDown(id: nat, clientX: int, clientY: int)
      requires Valid() && id < Count()
      modifies this
      ensures Valid()
      ensures handlers == old(handlers)[id := Handler(true, clientX - style[id].x, clientY - style[id].y)]
      ensures labelPositions == old(labelPositions) && style == old(style)
      ensures old(DragSafe() && NoneDragging(handlers)) ==> DragSafe()
    {
      var offsetX := clientX - style[id].x;
      var offsetY := clientY - style[id].y;
      handlers := handlers[id := Handler(true, offsetX, offsetY)];
    }

    /** The `mousemove` handler of label `id`: while dragging, move the label to
        the pointer minus the grab offset unless that spot overlaps another
        label's entry. The table and the handler state are never touched. */
    method MouseMove(id: nat, clientX: int, clientY: int)
      requires Valid() && id < Count()
      modifies this
      ensures Valid()
      ensures labelPositions == old(labelPositions) && handlers == old(handlers)
      ensures style == old(style)[id := MovedTo(id, clientX, clientY, old(style)[id])]
      ensures !handlers[id].isDragging ==> style == old(style)
    {
      if handlers[id].isDragging {
        var newLeft := clientX - handlers[id].offsetX;
        var newTop := clientY - handlers[id].offsetY;
        var hit := IsOverlapping(id, newLeft, newTop);
        if !hit {
          style := style[id := Point(newLeft, newTop)];
        }
      }
    }

    /** The `mouseup` handler of label `id`: stop dragging and copy the label's
        rendered position into every table entry of that label. */
    method MouseUp(id: nat)
      requires Valid() && id < Count()
      modifies this
      ensures Valid()
      ensures handlers == old(handlers)[id := old(handlers)[id].(isDragging := false)]
      ensures style == old(style)
      ensures labelPositions == Synced(old(labelPositions), id, style[id].x, style[id].y)
    {
      handlers := handlers[id := handlers[id].(isDragging := false)];
      var left, top := style[id].x, style[id].y;
      ghost var before := labelPositions;
      SyncedAt(before, id, left, top);
      var i := 0;
      while i < |labelPositions|
        invariant 0 <= i <= |labelPositions| == |before|
        invariant handlers == old(handlers)[id := old(handlers)[id].(isDragging := false)]
        invariant style == old(style)
        invariant forall k :: 0 <= k < i ==> labelPositions[k] == Synced(before, id, left, top)[k]
        invariant forall k :: i <= k < |before| ==> labelPositions[k] == before[k]
      {
        if labelPositions[i].element == id {
          labelPositions := labelPositions[i := labelPositions[i].(left := left, top := top)];
        }
        i := i + 1;
      }
      assert forall k :: 0 <= k < |labelPositions| ==> EntryFits(before[k]);
    }

    /** A document `mousemove`: every label's handler runs, in label order. */
    method MoveAll(clientX: int, clientY: int)
      requires Valid()
      modifies this
      ensures Valid()
      ensures labelPositions == old(labelPositions) && handlers == old(handlers)
      ensures |style| == Count()
      ensures forall l :: 0 <= l < Count() ==> style[l] == MovedTo(l, clientX, clientY, old(style)[l])
      ensures old(DragSafe()) ==> DragSafe()
    {
      for l := 0 to |widths|
        invariant Valid()
        invariant labelPositions == old(labelPositions) && handlers == old(handlers)
        invariant forall k :: 0 <= k < l ==> style[k] == MovedTo(k, clientX, clientY, old(style)[k])
        invariant forall k :: l <= k < Count() ==> style[k] == old(style)[k]
      {
        MouseMove(l, clientX, clientY);
      }
      if old(DragSafe()) {
        MoveKeepsApart(old(style), clientX, clientY);
      }
    }

    /** A document `mouseup`: every label's handler runs, in label order, so
        no label is left dragging and every entry is brought to its label's
        rendered position. */
    method ReleaseAll()
      requires Valid()
      modifies this
      ensures Valid()
      ensures style == old(style)
      ensures |handlers| == Count()
      ensures forall l :: 0 <= l < Count() ==> handlers[l] == old(handlers)[l].(isDragging := false)
      ensures |labelPositions| == |old(labelPositions)|
      ensures forall i :: 0 <= i < |labelPositions| ==>
        labelPositions[i] == old(labelPositions)[i].(left := style[old(labelPositions)[i].element].x,
                                                    top := style[old(labelPositions)[i].element].y)
      ensures NoneDragging(handlers) && IdleRecordedIn(labelPositions, handlers, style)
      ensures old(DragSafe()) ==> DragSafe()
    {
      ghost var before := labelPositions;
      for l := 0 to |widths|
        invariant Valid()
        invariant style == old(style)
        invariant forall k :: 0 <= k < l ==> handlers[k] == old(handlers)[k].(isDragging := false)
        invariant forall k :: l <= k < Count() ==> handlers[k] == old(handlers)[k]
        invariant |labelPositions| == |before|
        invariant forall i :: 0 <= i < |before| ==>
          labelPositions[i] == if before[i].element < l
                               then before[i].(left := style[before[i].element].x, top := style[before[i].element].y)
                               else before[i]
      {
        SyncedAt(labelPositions, l, style[l].x, style[l].y);
        MouseUp(l);
      }
      if RecordsEveryLabel(before) {
        forall l | 0 <= l < Count()
          ensures HasEntry(labelPositions, l)
        {
          assert HasEntry(before, l);
          var k :| 0 <= k < |before| && before[k].element == l;
          assert labelPositions[k].element == l;
        }
      }
    }
  }

  /** Grabbing a label and moving the pointer nowhere leaves every label
      and the table where they were, provided no other label is still being
      dragged: a document `mousemove` runs every label's handler. */
  method GrabInPlace(b: Board, id: nat, clientX: int, clientY: int)
    requires b.Valid() && id < b.Count()
    requires forall l :: 0 <= l < b.Count() && l != id ==> !b.handlers[l].isDragging
    modifies b
    ensures b.Valid()
    ensures b.style == old(b.style) && b.labelPositions == old(b.labelPositions)
    ensures b.handlers[id].isDragging
  {
    b.MouseDown(id, clientX, clientY);
    ghost var before := b.style;
    b.MoveAll(clientX, clientY);
    assert forall l :: 0 <= l < b.Count() ==> b.style[l] == before[l];
  }

  /** Loading the script: build the board, then lay the labels out. When
      every label but the last fits the gap, the board starts drag-safe. */
  method Load(widths: seq<nat>, heights: seq<nat>, initial: seq<Point>) returns (b: Board)
    requires |heights| == |widths| && |initial| == |widths|
    ensures fresh(b) && b.Valid()
    ensures b.widths == widths && b.heights == heights
    ensures b.labelPositions == Layout(widths, heights, |widths|)
    ensures forall l :: 0 <= l < |widths| ==>
      b.style[l] == Point(START_X + l * GAP, START_Y + l * GAP) && b.handlers[l] == Handler(false, 0, 0)
    ensures (forall k :: 0 <= k < |widths| - 1 ==> FitsGap(widths[k], heights[k])) ==> b.DragSafe()
  {
    b := new Board(widths, heights, initial);
    b.SetInitialPositions();
    if forall k :: 0 <= k < |widths| - 1 ==> FitsGap(widths[k], heights[k]) {
      b.LayoutIsDragSafe();
    }
  }

  /** Two labels dragged at once can end up on top of each other. If the
      document misses a `mouseup` (the button was released outside the
      window), a second label can be grabbed while the first still drags;
      each then checks its target only against the other's stale entry. */
  method MissedMouseUpOverlap() returns (b: Board)
    ensures b.Valid() && b.Count() == 2
    ensures b.handlers[0].isDragging && b.handlers[1].isDragging
    ensures b.style[0] == b.style[1] == Point(150, 150)
    ensures !b.ApartAt(b.style)
  {
    b := Load([10, 10], [10, 10], [Point(0, 0), Point(0, 0)]);
    b.MouseDown(0, 100, 100);
    b.MouseDown(1, 200, 200);
    assert b.labelPositions == [Rect(0, 100, 100, 10, 10), Rect(1, 200, 200, 10, 10)];
    OverlappingIff(b.labelPositions, 0, 150, 150, 10, 10);
    OverlappingIff(b.labelPositions, 1, 150, 150, 10, 10);
    b.MoveAll(150, 150);
    assert Collides(b.BoxAt(b.style, 1), b.style[0].x, b.style[0].y, 10, 10);
  }
}
