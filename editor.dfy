/**
  The level editor (`LevelEditor` in editor.rs): blocks placed on the
  10-by-20 grid with the mouse, a pattern name typed in, a message that
  fades after 180 frames, and saving and loading patterns as text.

  Buttons, hover and the pattern browser are presentation; file reads and
  writes are parameters (what was read, whether the write failed).
 */
module Editor {
  import opened Wrappers
  import opened Patterns
  import Entities
  import Text

  const GridLeft: int := Entities.BlockOffsetX
  const GridTop: int := Entities.BlockOffsetY
  const CellWidth: nat := Entities.BlockWidth
  const CellHeight: nat := Entities.BlockHeight
  const GridWidth: int := Entities.BlockCols * Entities.BlockWidth
  const GridHeight: int := Entities.BlockRows * Entities.BlockHeight

  const MessageFrames: nat := 180
  const FrameModulus: nat := 0x1_0000_0000_0000_0000

  const EmptyPatternError: string := "Pattern must have at least one block"
  const ClearPrompt: string := "Press C again to confirm clearing all blocks"
  const ClearedMessage: string := "Pattern cleared"

  // ------------------------------------------------------------ the grid

  /** `i32` division, which truncates toward zero. */
  function TruncDiv(a: int, d: int): (q: int)
    requires d > 0
    ensures a >= 0 ==> 0 <= q * d <= a < q * d + d
    ensures a < 0 ==> q * d - d < a <= q * d <= 0
  {
    if a >= 0 then
      DivBounds(a, d);
      a / d
    else
      var m := (-a) / d;
      DivBounds(-a, d);
      assert -m * d == -(m * d);
      -m
  }

  /** Euclidean division of a natural number brackets it between two
      consecutive multiples. */
  lemma DivBounds(n: nat, d: int)
    requires d > 0
    ensures 0 <= (n / d) * d <= n < (n / d) * d + d
  {
    var q, r := n / d, n % d;
    assert n == q * d + r && 0 <= r < d;
  }

  /** A point over the grid rectangle, where clicks place or remove blocks. */
  predicate InGrid(mx: int, my: int)
  {
    GridLeft <= mx < GridLeft + GridWidth && GridTop <= my < GridTop + GridHeight
  }

  /** The top-left corner of a grid cell. */
  predicate OnCell(x: int, y: int)
  {
    && 0 <= x - GridLeft < GridWidth && (x - GridLeft) % CellWidth == 0
    && 0 <= y - GridTop < GridHeight && (y - GridTop) % CellHeight == 0
  }

  /** The corner of the cell under a point of the grid. */
  function SnapTo(mx: int, my: int): (p: (int, int))
    requires InGrid(mx, my)
    ensures OnCell(p.0, p.1)
    ensures p.0 <= mx < p.0 + CellWidth && p.1 <= my < p.1 + CellHeight
  {
    var col := (mx - GridLeft) / CellWidth;
    var row := (my - GridTop) / CellHeight;
    (GridLeft + col * CellWidth, GridTop + row * CellHeight)
  }

  /** The colour and type of a block placed with palette entry `sel`:
      entries 6, 7, 8 are the special blocks, drawn in the first colour. */
  function Style(sel: nat): (s: (Entities.Color, BlockType))
    ensures sel == 6 <==> s.1 == Ice
    ensures sel == 7 <==> s.1 == Explosive
    ensures sel == 8 <==> s.1 == Undestroyable
    ensures s.1 != Normal ==> s.0 == Entities.BlockColors[0]
    ensures s.1 == Normal ==> s.0 == Entities.BlockColors[sel % 6]
  {
    match sel
    case 6 => (Entities.BlockColors[0], Ice)
    case 7 => (Entities.BlockColors[0], Explosive)
    case 8 => (Entities.BlockColors[0], Undestroyable)
    case _ => (Entities.BlockColors[sel % |Entities.BlockColors|], Normal)
  }

  predicate At(b: Block, x: int, y: int)
  {
    b.x == x && b.y == y
  }

  predicate Occupied(blocks: seq<Block>, x: int, y: int)
  {
    exists i :: 0 <= i < |blocks| && At(blocks[i], x, y)
  }

  /** No two blocks share a position. */
  predicate DistinctPositions(blocks: seq<Block>)
  {
    forall i, j :: 0 <= i < j < |blocks| ==> !At(blocks[j], blocks[i].x, blocks[i].y)
  }

  /** A block as the editor places it: active, on a cell, in a palette
      colour, the special types in the first colour. */
  predicate Placed(b: Block)
  {
    && b.active && OnCell(b.x, b.y)
    && (b.blockType == Normal ==> b.color in Entities.BlockColors)
    && (b.blockType != Normal ==> b.color == Entities.BlockColors[0])
  }

  predicate WellPlaced(blocks: seq<Block>)
  {
    (forall i :: 0 <= i < |blocks| ==> Placed(blocks[i])) && DistinctPositions(blocks)
  }

  /** The scan in `add_block_at` for a block already on the snapped cell. */
  method AnyAt(blocks: seq<Block>, x: int, y: int) returns (found: bool)
    ensures found <==> Occupied(blocks, x, y)
  {
    found := false;
    var i := 0;
    while i < |blocks| && !found
      invariant i <= |blocks|
      invariant found <==> Occupied(blocks[..i], x, y)
    {
      assert blocks[..i + 1] == blocks[..i] + [blocks[i]];
      found := blocks[i].x == x && blocks[i].y == y;
      i := i + 1;
    }
    if found {
      var k :| 0 <= k < i && At(blocks[..i][k], x, y);
      assert blocks[k] == blocks[..i][k];
    } else {
      assert blocks[..i] == blocks;
    }
  }

  /** `add_block_at` on the block list. */
  function AddedAt(blocks: seq<Block>, sel: nat, mx: int, my: int): (r: seq<Block>)
    ensures !InGrid(mx, my) ==> r == blocks
    ensures |blocks| <= |r| <= |blocks| + 1 && r[..|blocks|] == blocks
    ensures InGrid(mx, my) ==> Occupied(r, SnapTo(mx, my).0, SnapTo(mx, my).1)
    ensures |r| == |blocks| + 1 ==>
              && InGrid(mx, my) && !Occupied(blocks, SnapTo(mx, my).0, SnapTo(mx, my).1)
              && r[|blocks|] == Block.Block(SnapTo(mx, my).0, SnapTo(mx, my).1, Style(sel).0, true, Style(sel).1)
    ensures DistinctPositions(blocks) ==> DistinctPositions(r)
    ensures WellPlaced(blocks) ==> WellPlaced(r)
  {
    if !InGrid(mx, my) then blocks
    else
      var p := SnapTo(mx, my);
      if Occupied(blocks, p.0, p.1) then blocks
      else
        var r := blocks + [Block.Block(p.0, p.1, Style(sel).0, true, Style(sel).1)];
        assert At(r[|blocks|], p.0, p.1);
        r
  }

  /** `retain(|b| !(b.x == x && b.y == y))`. */
  function Retained(blocks: seq<Block>, x: int, y: int): (r: seq<Block>)
    ensures |r| <= |blocks|
    ensures forall b :: b in r <==> b in blocks && !At(b, x, y)
  {
    if blocks == [] then []
    else (if At(blocks[0], x, y) then [] else [blocks[0]]) + Retained(blocks[1..], x, y)
  }

  /** Retaining works piecewise, so the kept blocks keep their order. */
  lemma {:induction false} RetainedAppend(a: seq<Block>, b: seq<Block>, x: int, y: int)
    ensures Retained(a + b, x, y) == Retained(a, x, y) + Retained(b, x, y)
    decreases |a|
  {
    if a == [] {
      assert a + b == b;
    } else {
      assert (a + b)[1..] == a[1..] + b;
      RetainedAppend(a[1..], b, x, y);
    }
  }

  /** Retaining one more block keeps it exactly when it is not at the position. */
  lemma RetainedSnoc(a: seq<Block>, b: Block, x: int, y: int)
    ensures Retained(a + [b], x, y) == Retained(a, x, y) + (if At(b, x, y) then [] else [b])
  {
    RetainedAppend(a, [b], x, y);
    assert [b][1..] == [];
  }

  /** With no block at the position, retaining keeps the list as it is. */
  lemma {:induction false} RetainedUnoccupied(blocks: seq<Block>, x: int, y: int)
    requires !Occupied(blocks, x, y)
    ensures Retained(blocks, x, y) == blocks
    decreases |blocks|
  {
    if blocks != [] {
      assert !At(blocks[0], x, y);
      assert !Occupied(blocks[1..], x, y) by {
        forall i | 0 <= i < |blocks[1..]| ensures !At(blocks[1..][i], x, y) {
          assert blocks[1..][i] == blocks[i + 1];
        }
      }
      RetainedUnoccupied(blocks[1..], x, y);
    }
  }

  lemma {:induction false} RetainedKeepsDistinct(blocks: seq<Block>, x: int, y: int)
    requires WellPlaced(blocks)
    ensures WellPlaced(Retained(blocks, x, y))
    decreases |blocks|
  {
    if blocks != [] {
      RetainedKeepsDistinct(blocks[1..], x, y);
      var rest := Retained(blocks[1..], x, y);
      forall j | 0 <= j < |rest| ensures !At(rest[j], blocks[0].x, blocks[0].y) {
        assert rest[j] in blocks[1..];
      }
    }
  }

  /** The `retain` loop of `remove_block_at`. */
  method Retain(blocks: seq<Block>, x: int, y: int) returns (kept: seq<Block>)
    ensures kept == Retained(blocks, x, y)
  {
    kept := [];
    var i := 0;
    while i < |blocks|
      invariant i <= |blocks|
      invariant kept == Retained(blocks[..i], x, y)
    {
      assert blocks[..i + 1] == blocks[..i] + [blocks[i]];
      RetainedSnoc(blocks[..i], blocks[i], x, y);
      if !(blocks[i].x == x && blocks[i].y == y) {
        kept := kept + [blocks[i]];
      }
      i := i + 1;
    }
    assert blocks[..i] == blocks;
  }

  /** `remove_block_at` on the block list. */
  function RemovedAt(blocks: seq<Block>, mx: int, my: int): (r: seq<Block>)
    ensures !InGrid(mx, my) ==> r == blocks
    ensures InGrid(mx, my) ==> forall b :: b in r <==> b in blocks && !At(b, SnapTo(mx, my).0, SnapTo(mx, my).1)
  {
    if InGrid(mx, my) then Retained(blocks, SnapTo(mx, my).0, SnapTo(mx, my).1) else blocks
  }

  /** Placing a block where there was none and removing it again restores
      the list. */
  lemma AddThenRemove(blocks: seq<Block>, sel: nat, mx: int, my: int)
    requires InGrid(mx, my) && !Occupied(blocks, SnapTo(mx, my).0, SnapTo(mx, my).1)
    ensures RemovedAt(AddedAt(blocks, sel, mx, my), mx, my) == blocks
  {
    var p := SnapTo(mx, my);
    var b := Block.Block(p.0, p.1, Style(sel).0, true, Style(sel).1);
    RetainedAppend(blocks, [b], p.0, p.1);
    RetainedUnoccupied(blocks, p.0, p.1);
    assert Retained([b], p.0, p.1) == [];
  }

  // ------------------------------------------------------------ backgrounds

  /** `next_background`: 1 to 6 and round again. */
  function NextBackground(n: nat): (m: nat)
    ensures 1 <= m <= 6
  {
    if n >= 6 then 1 else n + 1
  }

  /** `prev_background`: 6 down to 1 and round again. */
  function PrevBackground(n: nat): (m: nat)
    ensures n <= 7 ==> 1 <= m <= 6
  {
    if n <= 1 then 6 else n - 1
  }

  /** On the six backgrounds, the two buttons undo each other and six
      presses of either come back to the start. */
  lemma BackgroundCycle(n: nat)
    requires 1 <= n <= 6
    ensures PrevBackground(NextBackground(n)) == n && NextBackground(PrevBackground(n)) == n
    ensures NextBackground(NextBackground(NextBackground(NextBackground(NextBackground(NextBackground(n)))))) == n
    ensures NextBackground(n) != n && PrevBackground(n) != n
  {
  }

  // ------------------------------------------------------------ the message

  /** One frame of the message countdown: the message is cleared when the
      timer runs out. */
  function MessageStep(message: string, timer: nat): (r: (string, nat))
    ensures timer == 0 ==> r == (message, 0)
    ensures timer > 0 ==> r.1 == timer - 1
    ensures r.0 == (if timer == 1 then "" else message)
  {
    if timer > 0 then (if timer - 1 == 0 then ("", 0) else (message, timer - 1)) else (message, timer)
  }

  function MessageSteps(message: string, timer: nat, n: nat): (string, nat)
    decreases n
  {
    if n == 0 then (message, timer)
    else
      var s := MessageStep(message, timer);
      MessageSteps(s.0, s.1, n - 1)
  }

  lemma {:induction false} MessageCountsDown(message: string, timer: nat, n: nat)
    requires n < timer
    ensures MessageSteps(message, timer, n) == (message, timer - n)
    decreases n
  {
    if n > 0 {
      MessageCountsDown(message, timer - 1, n - 1);
    }
  }

  lemma {:induction false} MessageStaysCleared(n: nat)
    ensures MessageSteps("", 0, n) == ("", 0)
    decreases n
  {
    if n > 0 {
      MessageStaysCleared(n - 1);
    }
  }

  /** A message shown by `show_message` stays up for 179 frames and is
      gone from the 180th on. */
  lemma MessageLifetime(message: string, n: nat)
    ensures n < MessageFrames ==> MessageSteps(message, MessageFrames, n) == (message, MessageFrames - n)
    ensures n >= MessageFrames ==> MessageSteps(message, MessageFrames, n) == ("", 0)
  {
    if n < MessageFrames {
      MessageCountsDown(message, MessageFrames, n);
    } else {
      MessageCountsDown(message, MessageFrames, MessageFrames - 1);
      MessageStepsSplit(message, MessageFrames, MessageFrames - 1, n - MessageFrames + 1);
      MessageStaysCleared(n - MessageFrames);
    }
  }

  lemma {:induction false} MessageStepsSplit(message: string, timer: nat, a: nat, b: nat)
    ensures MessageSteps(message, timer, a + b) ==
            MessageSteps(MessageSteps(message, timer, a).0, MessageSteps(message, timer, a).1, b)
    decreases a
  {
    if a > 0 {
      var s := MessageStep(message, timer);
      MessageStepsSplit(s.0, s.1, a - 1, b);
      assert a + b - 1 == (a - 1) + b;
    }
  }

  // ------------------------------------------------------------ saving

  /** The grid column and row `save_pattern` computes for a position; a
      negative one wraps around in the `as usize` cast and misses the grid. */
  function ColOfX(x: int): int { TruncDiv(x - GridLeft, CellWidth) }
  function RowOfY(y: int): int { TruncDiv(y - GridTop, CellHeight) }

  /** The position of the first palette colour equal to `c`, or 6 if none is. */
  function PaletteIndex(c: Entities.Color): (k: nat)
    ensures k <= 6
    ensures k < 6 ==> Entities.BlockColors[k] == c
    ensures forall j :: 0 <= j < k && j < 6 ==> Entities.BlockColors[j] != c
  {
    if c == Entities.BlockColors[0] then 0
    else if c == Entities.BlockColors[1] then 1
    else if c == Entities.BlockColors[2] then 2
    else if c == Entities.BlockColors[3] then 3
    else if c == Entities.BlockColors[4] then 4
    else if c == Entities.BlockColors[5] then 5
    else 6
  }

  /** A block `save_pattern` writes into the grid: active, over a cell of
      the grid, and in a palette colour. */
  predicate Saved(b: Block)
  {
    b.active && 0 <= RowOfY(b.y) < Entities.BlockRows && 0 <= ColOfX(b.x) < Entities.BlockCols
    && PaletteIndex(b.color) < 6
  }

  predicate InCell(b: Block, r: int, c: int)
  {
    RowOfY(b.y) == r && ColOfX(b.x) == c
  }

  function CellOf(b: Block): Cell
    requires PaletteIndex(b.color) < 6
  {
    Cell(PaletteIndex(b.color), b.blockType)
  }

  /** Cell `(r, c)` after writing the saved blocks in order, so that the
      last one over a cell wins. */
  function Written(blocks: seq<Block>, r: int, c: int): (cell: Cell)
    ensures cell == Empty || cell.colorIndex < 6
    decreases |blocks|
  {
    if blocks == [] then Empty
    else
      var b := blocks[|blocks| - 1];
      if Saved(b) && InCell(b, r, c) then CellOf(b) else Written(blocks[..|blocks| - 1], r, c)
  }

  /** The grid `save_pattern` builds from the blocks. */
  function SavedGrid(blocks: seq<Block>): (g: seq<seq<Cell>>)
    ensures IsGrid(g)
  {
    seq(Entities.BlockRows, r => seq(Entities.BlockCols, c => Written(blocks, r, c)))
  }

  /** The grid building of `save_pattern`. */
  method BuildGrid(blocks: seq<Block>) returns (grid: seq<seq<Cell>>)
    ensures grid == SavedGrid(blocks)
  {
    var cells := new Cell[Entities.BlockRows, Entities.BlockCols]((_, _) => Empty);
    var i := 0;
    while i < |blocks|
      invariant i <= |blocks|
      invariant forall r, c :: 0 <= r < Entities.BlockRows && 0 <= c < Entities.BlockCols ==>
                  cells[r, c] == Written(blocks[..i], r, c)
    {
      assert blocks[..i + 1][..i] == blocks[..i];
      WriteBlock(cells, blocks[i]);
      i := i + 1;
    }
    assert blocks[..i] == blocks;
    grid := Snapshot(cells);
    forall r | 0 <= r < Entities.BlockRows
      ensures grid[r] == SavedGrid(blocks)[r]
    {
    }
  }

  /** One block of the grid building of `save_pattern`: an active block over
      a cell of the grid, in a palette colour, is written into that cell. */
  method WriteBlock(cells: array2<Cell>, b: Block)
    requires cells.Length0 == Entities.BlockRows && cells.Length1 == Entities.BlockCols
    modifies cells
    ensures forall r, c :: 0 <= r < Entities.BlockRows && 0 <= c < Entities.BlockCols ==>
              cells[r, c] == if Saved(b) && InCell(b, r, c) then CellOf(b) else old(cells[r, c])
  {
    if b.active {
      var col := TruncDiv(b.x - GridLeft, CellWidth);
      var row := TruncDiv(b.y - GridTop, CellHeight);
      if 0 <= row < Entities.BlockRows && 0 <= col < Entities.BlockCols {
        var idx := 0;
        while idx < |Entities.BlockColors|
          invariant idx <= 6
          invariant forall j :: 0 <= j < idx ==> Entities.BlockColors[j] != b.color
          invariant unchanged(cells)
        {
          if Entities.BlockColors[idx] == b.color {
            cells[row, col] := Cell(idx, b.blockType);
            return;
          }
          idx := idx + 1;
        }
      }
    }
  }

  function RowFilled(row: seq<Cell>): nat
  {
    if row == [] then 0 else (if row[0].colorIndex != EmptyIndex then 1 else 0) + RowFilled(row[1..])
  }

  /** The number of non-empty cells, which `save_pattern` requires to be
      positive. */
  function FilledCount(g: seq<seq<Cell>>): nat
  {
    if g == [] then 0 else RowFilled(g[0]) + FilledCount(g[1..])
  }

  lemma {:induction false} RowFilledZero(row: seq<Cell>)
    ensures RowFilled(row) == 0 <==> forall c :: 0 <= c < |row| ==> row[c].colorIndex == EmptyIndex
    decreases |row|
  {
    if row != [] {
      RowFilledZero(row[1..]);
      assert forall c :: 1 <= c < |row| ==> row[c] == row[1..][c - 1];
    }
  }

  lemma {:induction false} FilledCountZero(g: seq<seq<Cell>>)
    ensures FilledCount(g) == 0 <==>
              forall r, c :: 0 <= r < |g| && 0 <= c < |g[r]| ==> g[r][c].colorIndex == EmptyIndex
    decreases |g|
  {
    if g != [] {
      RowFilledZero(g[0]);
      FilledCountZero(g[1..]);
      assert forall r :: 1 <= r < |g| ==> g[r] == g[1..][r - 1];
    }
  }

  /** A cell is written exactly when some saved block lies over it. */
  lemma {:induction false} WrittenIffSaved(blocks: seq<Block>, r: int, c: int)
    ensures Written(blocks, r, c) != Empty <==> exists i :: 0 <= i < |blocks| && Saved(blocks[i]) && InCell(blocks[i], r, c)
    decreases |blocks|
  {
    if blocks != [] {
      var n := |blocks| - 1;
      WrittenIffSaved(blocks[..n], r, c);
      assert forall i :: 0 <= i < n ==> blocks[..n][i] == blocks[i];
    }
  }

  /** `save_pattern` refuses exactly the block lists none of whose blocks
      it would write. */
  lemma SaveRefusedIffNothingSaved(blocks: seq<Block>)
    ensures FilledCount(SavedGrid(blocks)) == 0 <==> forall i :: 0 <= i < |blocks| ==> !Saved(blocks[i])
  {
    var g := SavedGrid(blocks);
    FilledCountZero(g);
    if FilledCount(g) == 0 {
      forall i | 0 <= i < |blocks| ensures !Saved(blocks[i]) {
        var r, c := RowOfY(blocks[i].y), ColOfX(blocks[i].x);
        assert InCell(blocks[i], r, c);
        WrittenIffSaved(blocks, r, c);
        if 0 <= r < Entities.BlockRows && 0 <= c < Entities.BlockCols {
          assert g[r][c] == Written(blocks, r, c);
        }
      }
    } else {
      var r, c :| 0 <= r < |g| && 0 <= c < |g[r]| && g[r][c].colorIndex != EmptyIndex;
      WrittenIffSaved(blocks, r, c);
    }
  }

  // ------------------------------------------------------------ round trip

  /** A placed block lies over the cell whose corner it sits on. */
  lemma PlacedCell(b: Block)
    requires Placed(b)
    ensures Saved(b)
    ensures b.x == GridLeft + ColOfX(b.x) * CellWidth && b.y == GridTop + RowOfY(b.y) * CellHeight
    ensures CellOf(b) == Cell(PaletteIndex(b.color), b.blockType) && Representable(CellOf(b))
  {
  }

  /** In a well-placed list, the cell under a block holds that block. */
  lemma {:induction false} WrittenByOwner(blocks: seq<Block>, i: nat)
    requires WellPlaced(blocks) && i < |blocks|
    ensures PaletteIndex(blocks[i].color) < 6
    ensures Written(blocks, RowOfY(blocks[i].y), ColOfX(blocks[i].x)) == CellOf(blocks[i])
    decreases |blocks|
  {
    var n := |blocks| - 1;
    PlacedCell(blocks[i]);
    if i < n {
      var last := blocks[n];
      PlacedCell(last);
      assert !InCell(last, RowOfY(blocks[i].y), ColOfX(blocks[i].x)) by {
        assert !At(last, blocks[i].x, blocks[i].y);
      }
      assert WellPlaced(blocks[..n]) by {
        assert forall k :: 0 <= k < n ==> blocks[..n][k] == blocks[k];
      }
      WrittenByOwner(blocks[..n], i);
      assert blocks[..n][i] == blocks[i];
    }
  }

  /** In a well-placed list, every written cell holds a representable cell
      of some block over it. */
  lemma {:induction false} WrittenRepresentable(blocks: seq<Block>, r: int, c: int)
    requires forall i :: 0 <= i < |blocks| ==> Placed(blocks[i])
    ensures Representable(Written(blocks, r, c))
    ensures Written(blocks, r, c) != Empty ==>
              exists i :: 0 <= i < |blocks| && InCell(blocks[i], r, c) && PaletteIndex(blocks[i].color) < 6 &&
                          Written(blocks, r, c) == CellOf(blocks[i])
    decreases |blocks|
  {
    if blocks != [] {
      var n := |blocks| - 1;
      PlacedCell(blocks[n]);
      assert forall k :: 0 <= k < n ==> blocks[..n][k] == blocks[k];
      WrittenRepresentable(blocks[..n], r, c);
    }
  }

  /** The block a saved cell is loaded back as is the block that was saved. */
  lemma LoadedBlock(g: seq<seq<Cell>>, b: Block)
    requires IsGrid(g) && Placed(b)
    requires g[RowOfY(b.y)][ColOfX(b.x)] == CellOf(b)
    ensures CellBlock(g, RowOfY(b.y), ColOfX(b.x)) == b
  {
    PlacedCell(b);
  }

  /** Saving the editor's blocks and loading the text back gives exactly
      the same blocks, now in row-major order. */
  lemma EditorRoundTrip(name: string, blocks: seq<Block>)
    requires WellPlaced(blocks) && '\n' !in name
    ensures var loaded := PatternScan(Parse(Content(name, SavedGrid(blocks))));
      && (forall b :: b in loaded <==> b in blocks)
      && (forall i, j :: 0 <= i < j < |loaded| ==> Before(loaded[i], loaded[j]))
  {
    var g := SavedGrid(blocks);
    SavedGridRepresentable(blocks);
    SaveLoadRoundTrip(name, g);
    PatternBlocks(g);
    SavedBlocksLoad(blocks);
    LoadedBlocksWereSaved(blocks);
  }

  /** Every cell of the grid saved from the editor can be written. */
  lemma SavedGridRepresentable(blocks: seq<Block>)
    requires WellPlaced(blocks)
    ensures forall r, c :: 0 <= r < Entities.BlockRows && 0 <= c < Entities.BlockCols ==> Representable(SavedGrid(blocks)[r][c])
  {
    forall r, c | 0 <= r < Entities.BlockRows && 0 <= c < Entities.BlockCols
      ensures Representable(SavedGrid(blocks)[r][c])
    {
      WrittenRepresentable(blocks, r, c);
    }
  }

  /** Every block of the editor comes back from its saved grid. */
  lemma SavedBlocksLoad(blocks: seq<Block>)
    requires WellPlaced(blocks)
    ensures forall b :: b in blocks ==> b in PatternScan(SavedGrid(blocks))
  {
    var g := SavedGrid(blocks);
    PatternBlocks(g);
    forall b | b in blocks ensures b in PatternScan(g) {
      var i :| 0 <= i < |blocks| && blocks[i] == b;
      WrittenByOwner(blocks, i);
      PlacedCell(b);
      LoadedBlock(g, b);
    }
  }

  /** Every block read back from the saved grid is one of the editor's. */
  lemma LoadedBlocksWereSaved(blocks: seq<Block>)
    requires WellPlaced(blocks)
    ensures forall b :: b in PatternScan(SavedGrid(blocks)) ==> b in blocks
  {
    var g := SavedGrid(blocks);
    PatternBlocks(g);
    forall b | b in PatternScan(g) ensures b in blocks {
      var r, c :| 0 <= r < Entities.BlockRows && 0 <= c < Entities.BlockCols &&
                  g[r][c].colorIndex != EmptyIndex && b == CellBlock(g, r, c);
      WrittenRepresentable(blocks, r, c);
      var i :| 0 <= i < |blocks| && InCell(blocks[i], r, c) && PaletteIndex(blocks[i].color) < 6 &&
               Written(blocks, r, c) == CellOf(blocks[i]);
      var saved := blocks[i];
      assert Placed(saved) && RowOfY(saved.y) == r && ColOfX(saved.x) == c;
      assert g[r][c] == Written(blocks, r, c);
      LoadedBlock(g, saved);
    }
  }

  /** What `save_to_file` writes: the path and the text. */
  datatype SavedFile = SavedFile(path: string, content: string)

  function PatternPath(name: string): string
  {
    "patterns/" + name + ".txt"
  }

  // ------------------------------------------------------------ the editor

  class LevelEditor {
    var blocks: seq<Block>
    var selectedColorIndex: nat
    var patternName: string
    var patternNameEditing: bool
    var message: string
    var messageTimer: nat
    var currentBackground: nat
    var isDraggingLeft: bool
    var isDraggingRight: bool
    var lastDragPos: Option<(int, int)>
    var confirmClear: bool
    var frameCount: nat

    /** The background stays one of the six, the frame counter fits its
        64 bits, and the blocks are well placed. */
    ghost predicate Valid()
      reads this
    {
      1 <= currentBackground <= 6 && frameCount < FrameModulus && WellPlaced(blocks)
    }

    /** `LevelEditor::new`. */
    constructor ()
      ensures Valid()
      ensures blocks == [] && selectedColorIndex == 0 && patternName == "my_pattern" && !patternNameEditing
      ensures message == "" && messageTimer == 0 && currentBackground == 1
      ensures !isDraggingLeft && !isDraggingRight && lastDragPos == None && !confirmClear && frameCount == 0
    {
      blocks := [];
      selectedColorIndex := 0;
      patternName := "my_pattern";
      patternNameEditing := false;
      message := "";
      messageTimer := 0;
      currentBackground := 1;
      isDraggingLeft, isDraggingRight := false, false;
      lastDragPos := None;
      confirmClear := false;
      frameCount := 0;
    }

    /** `show_message`. */
    method ShowMessage(msg: string)
      modifies this`message, this`messageTimer
      ensures message == msg && messageTimer == MessageFrames
      ensures blocks == old(blocks) && currentBackground == old(currentBackground) && frameCount == old(frameCount)
      ensures patternName == old(patternName) && confirmClear == old(confirmClear)
      ensures selectedColorIndex == old(selectedColorIndex) && patternNameEditing == old(patternNameEditing)
      ensures isDraggingLeft == old(isDraggingLeft) && isDraggingRight == old(isDraggingRight)
      ensures lastDragPos == old(lastDragPos)
    {
      message := msg;
      messageTimer := MessageFrames;
    }

    /** `add_block_at`: a block of the selected style on the free cell under
        the point. */
    method AddBlockAt(mx: int, my: int)
      requires Valid()
      modifies this`blocks
      ensures blocks == AddedAt(old(blocks), selectedColorIndex, mx, my)
      ensures Valid()
    {
      if mx < GridLeft || mx >= GridLeft + GridWidth {
        return;
      }
      if my < GridTop || my >= GridTop + GridHeight {
        return;
      }
      var cell := SnapTo(mx, my);
      var exists_ := AnyAt(blocks, cell.0, cell.1);
      if !exists_ {
        var style := Style(selectedColorIndex);
        var added := blocks + [Block.Block(cell.0, cell.1, style.0, true, style.1)];
        assert added == AddedAt(blocks, selectedColorIndex, mx, my);
        blocks := added;
      }
    }

    /** `remove_block_at`: drops the blocks on the cell under the point,
        keeping the others in order. */
    method RemoveBlockAt(mx: int, my: int)
      requires Valid()
      modifies this`blocks
      ensures blocks == RemovedAt(old(blocks), mx, my)
      ensures Valid()
    {
      if mx < GridLeft || mx >= GridLeft + GridWidth {
        return;
      }
      if my < GridTop || my >= GridTop + GridHeight {
        return;
      }
      var col := (mx - GridLeft) / CellWidth;
      var row := (my - GridTop) / CellHeight;
      var x := GridLeft + col * CellWidth;
      var y := GridTop + row * CellHeight;
      var kept := Retain(blocks, x, y);
      RetainedKeepsDistinct(blocks, x, y);
      blocks := kept;
    }

    /** `start_drag_left`. */
    method StartDragLeft(mx: int, my: int)
      requires Valid()
      modifies this`isDraggingLeft, this`lastDragPos, this`blocks
      ensures isDraggingLeft && lastDragPos == Some((mx, my)) && isDraggingRight == old(isDraggingRight)
      ensures blocks == AddedAt(old(blocks), selectedColorIndex, mx, my)
      ensures Valid() && unchanged(this`message, this`messageTimer, this`patternName, this`confirmClear)
      ensures selectedColorIndex == old(selectedColorIndex)
    {
      isDraggingLeft := true;
      lastDragPos := Some((mx, my));
      AddBlockAt(mx, my);
    }

    /** `start_drag_right`. */
    method StartDragRight(mx: int, my: int)
      requires Valid()
      modifies this`isDraggingRight, this`lastDragPos, this`blocks
      ensures isDraggingRight && lastDragPos == Some((mx, my)) && isDraggingLeft == old(isDraggingLeft)
      ensures blocks == RemovedAt(old(blocks), mx, my)
      ensures Valid() && unchanged(this`message, this`messageTimer, this`patternName, this`confirmClear)
      ensures selectedColorIndex == old(selectedColorIndex)
    {
      isDraggingRight := true;
      lastDragPos := Some((mx, my));
      RemoveBlockAt(mx, my);
    }

    /** `update_drag`: a left drag paints, a right drag erases, and the
        left one wins when both are set. */
    method UpdateDrag(mx: int, my: int)
      requires Valid()
      modifies this`lastDragPos, this`blocks
      ensures isDraggingLeft ==> blocks == AddedAt(old(blocks), selectedColorIndex, mx, my) && lastDragPos == Some((mx, my))
      ensures !isDraggingLeft && isDraggingRight ==> blocks == RemovedAt(old(blocks), mx, my) && lastDragPos == Some((mx, my))
      ensures !isDraggingLeft && !isDraggingRight ==> blocks == old(blocks) && lastDragPos == old(lastDragPos)
      ensures isDraggingLeft == old(isDraggingLeft) && isDraggingRight == old(isDraggingRight)
      ensures Valid() && unchanged(this`message, this`messageTimer, this`patternName, this`confirmClear)
      ensures selectedColorIndex == old(selectedColorIndex)
    {
      if isDraggingLeft {
        AddBlockAt(mx, my);
        lastDragPos := Some((mx, my));
      } else if isDraggingRight {
        RemoveBlockAt(mx, my);
        lastDragPos := Some((mx, my));
      }
    }

    /** `stop_drag`. */
    method StopDrag()
      modifies this`isDraggingLeft, this`isDraggingRight, this`lastDragPos
      ensures !isDraggingLeft && !isDraggingRight && lastDragPos == None
    {
      isDraggingLeft, isDraggingRight := false, false;
      lastDragPos := None;
    }

    /** `request_clear`: asks for confirmation, unless there is nothing to
        clear. */
    method RequestClear()
      requires Valid()
      modifies this`confirmClear, this`message, this`messageTimer
      ensures old(blocks) == [] ==> unchanged(this)
      ensures old(blocks) != [] ==> confirmClear && message == ClearPrompt && messageTimer == MessageFrames
      ensures blocks == old(blocks) && Valid()
    {
      if blocks != [] {
        confirmClear := true;
        ShowMessage(ClearPrompt);
      }
    }

    /** `clear`. */
    method Clear()
      requires Valid()
      modifies this`blocks, this`confirmClear, this`message, this`messageTimer
      ensures blocks == [] && !confirmClear && message == ClearedMessage && messageTimer == MessageFrames
      ensures Valid()
    {
      blocks := [];
      confirmClear := false;
      ShowMessage(ClearedMessage);
    }

    /** `cancel_clear`. */
    method CancelClear()
      modifies this`confirmClear, this`message
      ensures !confirmClear && message == ""
    {
      confirmClear := false;
      message := "";
    }

    /** `next_background`. */
    method NextBackgroundPressed()
      requires Valid()
      modifies this`currentBackground
      ensures currentBackground == NextBackground(old(currentBackground)) && Valid()
    {
      currentBackground := if currentBackground >= 6 then 1 else currentBackground + 1;
    }

    /** `prev_background`. */
    method PrevBackgroundPressed()
      requires Valid()
      modifies this`currentBackground
      ensures currentBackground == PrevBackground(old(currentBackground)) && Valid()
    {
      currentBackground := if currentBackground <= 1 then 6 else currentBackground - 1;
    }

    /** `update`: the 64-bit frame counter wraps, and the message counts
        down. */
    method Update()
      requires Valid()
      modifies this`frameCount, this`messageTimer, this`message
      ensures frameCount == (old(frameCount) + 1) % FrameModulus
      ensures (message, messageTimer) == MessageStep(old(message), old(messageTimer))
      ensures Valid()
    {
      frameCount := (frameCount + 1) % FrameModulus;
      if messageTimer > 0 {
        messageTimer := messageTimer - 1;
        if messageTimer == 0 {
          message := "";
        }
      }
    }

    /** `handle_text_input`: typed text extends the name being edited. */
    method HandleTextInput(text: string)
      modifies this`patternName
      ensures patternName == if patternNameEditing then old(patternName) + text else old(patternName)
    {
      if patternNameEditing {
        patternName := patternName + text;
      }
    }

    /** `handle_backspace`: drops the last character of the name being
        edited. */
    method HandleBackspace()
      modifies this`patternName
      ensures patternNameEditing && old(patternName) != [] ==> patternName + [old(patternName)[|old(patternName)| - 1]] == old(patternName)
      ensures !(patternNameEditing && old(patternName) != []) ==> patternName == old(patternName)
    {
      if patternNameEditing && patternName != [] {
        patternName := patternName[..|patternName| - 1];
      }
    }

    /** `save_pattern`. `writeError` is the failure, if any, of creating
        the directory or writing the file; on success the file written is
        returned. */
    method SavePattern(writeError: Option<string>) returns (result: Result<SavedFile>)
      requires Valid()
      modifies this`message, this`messageTimer
      ensures var grid := SavedGrid(old(blocks));
        && (FilledCount(grid) == 0 ==> result == Err(EmptyPatternError) && unchanged(this))
        && (FilledCount(grid) != 0 && writeError.Some? ==>
              result == Err("Failed to save: " + writeError.value) && unchanged(this))
        && (FilledCount(grid) != 0 && writeError.None? ==>
              && result == Ok(SavedFile(PatternPath(patternName), Content(patternName, grid)))
              && message == "Saved: " + patternName + ".txt" && messageTimer == MessageFrames)
      ensures Valid()
    {
      var grid := BuildGrid(blocks);
      var blockCount := FilledCount(grid);
      if blockCount == 0 {
        return Err(EmptyPatternError);
      }
      var content := SaveContent(PatternData(patternName, grid));
      if writeError.Some? {
        return Err("Failed to save: " + writeError.value);
      }
      message := "Saved: " + patternName + ".txt";
      messageTimer := MessageFrames;
      result := Ok(SavedFile(PatternPath(patternName), content));
    }

    /** `load_pattern`. `read` is the outcome of reading
        `patterns/<name>.txt`; the loaded pattern takes the file's stem,
        which is `name`. */
    method LoadPattern(name: string, read: Result<string>) returns (result: Result<()>)
      requires Valid()
      modifies this`blocks, this`patternName, this`message, this`messageTimer
      ensures read.Err? ==>
                && result == Err("Failed to load pattern: " + read.error)
                && message == "Failed to load: " + read.error && messageTimer == MessageFrames
                && blocks == old(blocks) && patternName == old(patternName)
      ensures read.Ok? ==>
                && result == Ok(())
                && blocks == PatternScan(Parse(read.value))
                && patternName == name
                && message == "Loaded pattern: " + name && messageTimer == MessageFrames
      ensures Valid()
    {
      if read.Err? {
        ShowMessage("Failed to load: " + read.error);
        return Err("Failed to load pattern: " + read.error);
      }
      var pattern := Load(name, read.value);
      var loaded := CreateBlocksFromPattern(pattern);
      LoadedWellPlaced(pattern.grid);
      blocks := loaded;
      patternName := pattern.name;
      ShowMessage("Loaded pattern: " + name);
      result := Ok(());
    }
  }

  /** The blocks of a loaded pattern are well placed, so the editor can go
      on editing them. */
  lemma LoadedWellPlaced(g: seq<seq<Cell>>)
    requires IsGrid(g)
    requires forall r, c :: 0 <= r < Entities.BlockRows && 0 <= c < Entities.BlockCols ==> Representable(g[r][c])
    ensures WellPlaced(PatternScan(g))
  {
    var s := PatternScan(g);
    GridScanMembers(g, Entities.BlockRows);
    GridScanSorted(g, Entities.BlockRows);
    forall i | 0 <= i < |s| ensures Placed(s[i]) {
      var b := s[i];
      assert b in s;
    }
    forall i, j | 0 <= i < j < |s| ensures !At(s[j], s[i].x, s[i].y) {
      assert Before(s[i], s[j]);
    }
  }
}
