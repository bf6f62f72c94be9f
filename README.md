# Floating-label board: a verified model

`script.js` makes the `.floating-label` elements of a page draggable. It keeps
a table, `labelPositions`, with one rectangle per label: the label, its
recorded left/top corner, and the width and height measured when the table
was built. It lays the labels out on a diagonal. While a label is dragged, it
refuses any move that would make the label collide with another label's
recorded rectangle. When the mouse button is released, it copies each label's
rendered position back into the table.

The model has two modules:

- `LabelTable` (`label_table.dfy`) holds the pure rules over the table:
  - the strict four-comparison collision test (`Collides`);
  - the overlap scan that skips the label's own entries (`Overlapping`);
  - the diagonal initial layout (`Layout`), with label i at
    (100 + 100·i, 100 + 100·i);
  - the `mouseup` sync of one label's entries (`Synced`);
  - the lemmas about all of these.
- `DragBoard` (`drag_board.dfy`) holds the page state as a class `Board`:
  - the table;
  - each label's listener state (`isDragging`, `offsetX`, `offsetY`);
  - each label's rendered position (`style.left` / `style.top`).

  Its methods are `setInitialPositions`, `isOverlapping` (a loop with an
  early return, proved equal to `Overlapping`) and the `mousedown`,
  `mousemove` and `mouseup` handlers of one label. `MoveAll` and `ReleaseAll`
  model a document-level event: every label's handler runs, in label order.

Labels are identified by their index in the page. Pixel measurements are
integers. A label's measured size is fixed for the life of the page. The
label's `offsetLeft`/`offsetTop` read by the `mousedown` and `mouseup`
handlers are taken to be its last rendered `style.left`/`style.top`.

The model covers `script.js` only.

The drag gate exists to keep labels from overlapping. `Board.DragSafe` states
the condition under which it does:

- no two rendered labels collide;
- every entry of a label that is not being dragged records that label's
  rendered box;
- every label has an entry;
- at most one label is being dragged.

Loading establishes this condition when every label except the last fits the
100-pixel gap on one axis. A document `mousemove`, a `mousedown` while no label
is dragging, and a document `mouseup` all keep it. `MissedMouseUpOverlap`
shows two labels dragged at once ending up on top of each other.

## Model

| member | source | states |
|---|---|---|
| `LabelTable.Layout` | script.js:8-27 | the layout of the first k labels has exactly k entries; entry i belongs to label i, sits at (100 + 100·i, 100 + 100·i), and carries label i's measured width and height |
| `LabelTable.SharePixelCollides` | script.js:39-44 | for boxes of any size, two boxes that cover a common pixel pass all four strict comparisons |
| `LabelTable.CollidingBoxesSharePixel` | script.js:39-44 | for boxes of positive size, passing the four strict comparisons means the two boxes cover a common pixel; with `SharePixelCollides` the test is exactly pixel sharing |
| `LabelTable.ZeroSizeCollidesWithoutPixel` | script.js:39-44 | the converse fails at size zero: a 0 by 0 candidate strictly inside a 10 by 10 rectangle passes the test while covering no pixel |
| `LabelTable.CollidesSymmetric` | script.js:39-44 | swapping the candidate box and the stored rectangle does not change the test's answer |
| `LabelTable.EdgeContactIsNoCollision` | script.js:40-43 | a candidate whose left, right, top or bottom edge lies exactly on the opposite edge of a stored rectangle does not collide with it, because every comparison is strict |
| `LabelTable.EdgeContactOnlyIsNotOverlapping` | script.js:35-49 | if the candidate at most touches every other label's entry along an edge, the scan reports no overlap |
| `LabelTable.OverlappingIff` | script.js:31-50 | the scan reports an overlap if and only if some entry whose label differs from the candidate's satisfies all four strict comparisons (both directions) |
| `LabelTable.OwnEntriesIgnored` | script.js:38 | scanning the whole table gives the same answer as scanning only the entries of other labels: the label's own entries never decide the result |
| `LabelTable.AloneNeverOverlaps` | script.js:35-49 | a table that holds only the label's own entries, or no entries at all, never reports an overlap, wherever the candidate is placed |
| `LabelTable.DiagonalSpotsApart` | script.js:13-15 | two different labels at their diagonal spots do not collide when the one nearer the top-left corner is at most 100 pixels wide or at most 100 pixels tall |
| `LabelTable.InitialLayoutSeparated` | script.js:7-27 | the diagonal layout puts every label on a spot free of the other labels' entries if and only if every label except the last is at most 100 pixels wide or at most 100 pixels tall (both directions); the last label's size never matters |
| `LabelTable.InitialLayoutCanOverlap` | script.js:7-27 | a concrete instance of the failing direction: with two 150 by 150 labels, label 0's initial spot overlaps label 1's entry, so the "non-overlapping" comment does not hold for every size |
| `LabelTable.SyncedAt` | script.js:86-91 | after the sync of label `element`, the table has the same length; every entry of that label has the new left/top and keeps its element, width and height; every other entry is unchanged |
| `LabelTable.SyncedIdempotent` | script.js:80-91 | syncing the same label to the same position twice gives the same table as syncing it once |
| `LabelTable.SyncedCommute` | script.js:80-91 | the syncs of two different labels commute, so the order in which the labels' `mouseup` listeners run does not change the table |
| `DragBoard.Board.constructor` | script.js:53-54 | the page before layout: an empty table (the declaration at script.js line 5), no label dragged, zero grab offsets (line 54), and every label at its stylesheet position |
| `DragBoard.Board.SetInitialPositions` | script.js:8-27 | the table becomes its old entries followed by the diagonal layout of every label, in label order, so earlier entries are untouched; each label is rendered at (100 + 100·i, 100 + 100·i); the board invariant (every entry carries its label's measured size) is kept |
| `DragBoard.Board.IsOverlapping` | script.js:31-50 | the scan with early return answers exactly what `Overlapping` specifies for the label's measured size at (x, y) |
| `DragBoard.Board.MouseDown` | script.js:56-59 | only the pressed label's listener state changes: it is dragging, and its grab offset is the pointer minus the label's rendered corner; pressed while no label is dragging, a drag-safe board stays drag-safe |
| `DragBoard.Board.MouseMove` | script.js:65-78 | the table and all listener state are unchanged; if the label is not dragging, nothing changes; if it is dragging, its rendered position becomes the pointer minus the grab offset when that spot does not overlap, and stays put otherwise; no other label moves |
| `DragBoard.Board.MouseUp` | script.js:80-92 | the label stops dragging and keeps its grab offset; rendered positions are unchanged; the table becomes its sync to the label's rendered position, so only that label's entries move |
| `DragBoard.Board.MoveAll` | script.js:53-78 | on a document `mousemove` the table and listener state are unchanged, and each label independently moves or stays as its own handler decides; a drag-safe board stays drag-safe, so no move the gate lets through makes labels overlap |
| `DragBoard.Board.ReleaseAll` | script.js:53-93 | after a document `mouseup` no label is dragging, every table entry holds its own label's rendered position with its size unchanged, so the table is up to date for every label; a drag-safe board stays drag-safe |
| `DragBoard.Board.LayoutIsDragSafe` | script.js:7-27 | right after the diagonal layout, with no label dragging and every label except the last fitting the gap, the board is drag-safe |
| `DragBoard.Board.MovedClearOf` | script.js:72-76 | if a label moved on a `mousemove` and another label is idle, the moved label's new box does not collide with the idle label's box, because the idle label's entry is its box and the overlap check passed |
| `DragBoard.Board.MoveKeepsApart` | script.js:65-78 | from a drag-safe state, after every label's `mousemove` handler has run, no two rendered labels collide and the table is still up to date for every idle label |
| `DragBoard.MissedMouseUpOverlap` | script.js:65-91 | if a `mouseup` is missed and a second label is grabbed, both labels drag; a move to (150, 150) passes both overlap checks against the stale table and leaves the two labels on top of each other |
| `DragBoard.GrabInPlace` | script.js:56-76 | if no other label is dragging, pressing on a label and then a document `mousemove` at the same pointer position leave every label and the whole table where they were; this relies on `offsetLeft`/`offsetTop` being the rendered `style.left`/`style.top` (see "Left out") |
| `DragBoard.Load` | script.js:95-96 | after the script loads, the table is exactly the diagonal layout of all labels, label i is rendered at (100 + 100·i, 100 + 100·i), no label is dragging and every grab offset is 0; if every label except the last fits the gap, the board is drag-safe |

## Left out

- DOM wiring is not modelled: `querySelectorAll`, `addEventListener`, the `px` style strings, and the `zIndex` and `cursor` changes. Only their numeric effect is modelled.
- Browser layout is not modelled. `offsetWidth`/`offsetHeight` are given per label and never change. `offsetLeft`/`offsetTop` are taken to be the last rendered `style.left`/`style.top`; borders, margins and a non-zero offset parent are outside the model.
- Element identity is a label index. `isOverlapping` is only called with a label, so the scan is modelled for labels only.
- Event dispatch is modelled as one handler run at a time. `MoveAll` and `ReleaseAll` run the handlers in registration order. `SyncedCommute` shows that this order does not matter for `mouseup`. For `mousemove` it does not matter because no handler changes the table or another label's state.
