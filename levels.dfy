/**
  The block layouts of the levels (`create_blocks` in entities.rs).

  The grid has 10 rows of 20 cells, scanned row by row. Each level decides,
  cell by cell, whether to place a block there. Levels 1-6, 8 and 9 use fixed
  integer predicates. Level 7 (a spiral of `atan2` and `sin`) and the
  generated levels 10 and up (patterns drawn from a seeded pseudo-random
  generator) are an `Oracle` here, a parameter that answers for
  `(level, attempt, row, col)`. For levels 10 and up the layout is redrawn,
  at most 10 times, until it holds at least 20 blocks.
 */
module Levels {
  import opened Entities

  /** The cell tests that are not modelled: level 7 and levels 10 and up. */
  type Oracle = (nat, nat, nat, nat) -> bool

  const MinBlocks: nat := 20
  const MaxRetries: nat := 10

  function Abs(n: int): nat { if n < 0 then -n else n }

  /** The integer square root, as `(sqrt(n) as i32)` computes it. */
  function ISqrt(n: nat): (r: nat)
    ensures r * r <= n < (r + 1) * (r + 1)
  {
    ISqrtBelow(n, n)
  }

  /** The largest `r <= k` with `r * r <= n`. */
  function ISqrtBelow(n: nat, k: nat): (r: nat)
    requires n < (k + 1) * (k + 1)
    ensures r * r <= n < (r + 1) * (r + 1)
    decreases k
  {
    if k * k <= n then k else ISqrtBelow(n, k - 1)
  }

  /** Whether `level` places a block in cell `(row, col)` on retry `attempt`. */
  predicate ShouldAdd(level: nat, attempt: nat, oracle: Oracle, row: nat, col: nat)
    ensures level == 1 ==> ShouldAdd(level, attempt, oracle, row, col)
    ensures level > 9 || level == 7 ==> (ShouldAdd(level, attempt, oracle, row, col) <==> oracle(level, attempt, row, col))
  {
    if level <= 9 then
      match level
      case 1 => true
      case 2 => (row + col) % 2 == 0
      case 3 => row % 2 == 0
      case 4 => col % 2 == 0 || (col % 2 == 1 && row == 0) || row == BlockRows - 1
      case 5 => Abs(col - BlockCols / 2) <= row
      case 6 => Abs(col - BlockCols / 2) + Abs(row - BlockRows / 2) <= BlockRows / 2 + 2
      case 7 => oracle(level, attempt, row, col)
      case 8 => ISqrt((col - 10) * (col - 10) + (row - 5) * (row - 5)) % 3 != 1
      case 9 => !(col % 4 == 1 && row % 4 == 1) && !(col % 4 == 2 && row % 4 == 2) && (col + row) % 7 != 0
      case _ => true
    else
      oracle(level, attempt, row, col)
  }

  /** The block of cell `(row, col)`: coloured by its row. */
  function CellBlock(row: nat, col: nat): (b: Block)
    ensures b.active
    ensures b.x == BlockOffsetX + col * BlockWidth && b.y == BlockOffsetY + row * BlockHeight
    ensures b.color == BlockColors[row % 6]
  {
    NewBlock(BlockOffsetX + col * BlockWidth, BlockOffsetY + row * BlockHeight, BlockColors[row % |BlockColors|])
  }

  /** The grid row and column a block's position lies in. */
  function RowOf(b: Block): int { (b.y - BlockOffsetY) / BlockHeight }
  function ColOf(b: Block): int { (b.x - BlockOffsetX) / BlockWidth }

  lemma CellCoordinates(row: nat, col: nat)
    ensures RowOf(CellBlock(row, col)) == row && ColOf(CellBlock(row, col)) == col
  {
    assert CellBlock(row, col).y - BlockOffsetY == row * 20;
    assert CellBlock(row, col).x - BlockOffsetX == col * 60;
  }

  /** Row-major order of positions: an earlier row, or the same row further left. */
  predicate Before(a: Block, b: Block)
  {
    a.y < b.y || (a.y == b.y && a.x < b.x)
  }

  /** The blocks the scan has pushed after visiting the first `k` cells. */
  function Scan(level: nat, attempt: nat, oracle: Oracle, k: nat): seq<Block>
    requires k <= BlockRows * BlockCols
    decreases k
  {
    if k == 0 then []
    else
      var row, col := (k - 1) / 20, (k - 1) % 20;
      Scan(level, attempt, oracle, k - 1) + (if ShouldAdd(level, attempt, oracle, row, col) then [CellBlock(row, col)] else [])
  }

  /** One pass of the generation loop: the whole grid scanned. */
  function Layout(level: nat, attempt: nat, oracle: Oracle): seq<Block>
  {
    Scan(level, attempt, oracle, BlockRows * BlockCols)
  }

  /** Whether pass `attempt` ends the generation loop. */
  predicate Accepts(level: nat, attempt: nat, blocks: seq<Block>)
  {
    level <= 9 || |blocks| >= MinBlocks || attempt >= MaxRetries
  }

  /** `create_blocks`: the first pass from `attempt` on that the loop accepts. */
  function Generate(level: nat, oracle: Oracle, attempt: nat): (r: seq<Block>)
    requires attempt <= MaxRetries
    ensures level <= 9 ==> r == Layout(level, attempt, oracle)
    ensures level > 9 && |r| < MinBlocks ==> r == Layout(level, MaxRetries, oracle)
    decreases MaxRetries - attempt
  {
    var blocks := Layout(level, attempt, oracle);
    if Accepts(level, attempt, blocks) then blocks else Generate(level, oracle, attempt + 1)
  }

  /** `create_blocks(level)`, the loop as the source writes it. */
  method CreateBlocks(level: nat, oracle: Oracle) returns (blocks: seq<Block>)
    ensures blocks == Generate(level, oracle, 0)
  {
    var attempt := 0;
    while true
      invariant attempt <= MaxRetries
      invariant Generate(level, oracle, attempt) == Generate(level, oracle, 0)
      decreases MaxRetries - attempt
    {
      blocks := [];
      var row := 0;
      ghost var k := 0;
      while row < BlockRows
        invariant row <= BlockRows && k == 20 * row
        invariant blocks == Scan(level, attempt, oracle, k)
      {
        var col := 0;
        while col < BlockCols
          invariant col <= BlockCols && k == 20 * row + col
          invariant blocks == Scan(level, attempt, oracle, k)
        {
          ScanStep(level, attempt, oracle, k, row, col);
          if ShouldAdd(level, attempt, oracle, row, col) {
            blocks := blocks + [CellBlock(row, col)];
          }
          col, k := col + 1, k + 1;
        }
        row := row + 1;
      }
      if Accepts(level, attempt, blocks) {
        return;
      }
      attempt := attempt + 1;
    }
  }

  /** Visiting cell `(row, col)`, the `k`-th in row-major order, pushes its
      block exactly when its test holds. */
  lemma ScanStep(level: nat, attempt: nat, oracle: Oracle, k: nat, row: nat, col: nat)
    requires row < BlockRows && col < BlockCols && k == 20 * row + col
    ensures k < BlockRows * BlockCols
    ensures Scan(level, attempt, oracle, k + 1) ==
            Scan(level, attempt, oracle, k) +
            (if ShouldAdd(level, attempt, oracle, row, col) then [CellBlock(row, col)] else [])
  {
    CellIndex(row, col);
    var r, c := (k + 1 - 1) / 20, (k + 1 - 1) % 20;
    assert r == row && c == col;
  }

  /** Every scanned block is an active block of a cell already visited whose
      test holds, and the scan lists them in strictly row-major order. */
  lemma {:induction false} ScanShape(level: nat, attempt: nat, oracle: Oracle, k: nat)
    requires k <= BlockRows * BlockCols
    ensures |Scan(level, attempt, oracle, k)| <= k
    ensures forall b <- Scan(level, attempt, oracle, k) ::
              && 0 <= RowOf(b) < BlockRows && 0 <= ColOf(b) < BlockCols
              && RowOf(b) * 20 + ColOf(b) < k
              && b == CellBlock(RowOf(b), ColOf(b))
              && ShouldAdd(level, attempt, oracle, RowOf(b), ColOf(b))
    ensures var s := Scan(level, attempt, oracle, k);
            forall i, j :: 0 <= i < j < |s| ==> Before(s[i], s[j])
    decreases k
  {
    if k > 0 {
      ScanShape(level, attempt, oracle, k - 1);
      var row, col := (k - 1) / 20, (k - 1) % 20;
      CellCoordinates(row, col);
      var prev := Scan(level, attempt, oracle, k - 1);
      var last := CellBlock(row, col);
      forall b <- prev
        ensures Before(b, last)
      {
        RowMajor(RowOf(b), ColOf(b), row, col);
      }
    }
  }

  /** A cell's block is in the scan exactly when the cell was visited and
      its test holds. */
  lemma {:induction false} ScanMembership(level: nat, attempt: nat, oracle: Oracle, k: nat, row: nat, col: nat)
    requires k <= BlockRows * BlockCols
    requires row < BlockRows && col < BlockCols
    ensures CellBlock(row, col) in Scan(level, attempt, oracle, k) <==>
            row * 20 + col < k && ShouldAdd(level, attempt, oracle, row, col)
    decreases k
  {
    ScanShape(level, attempt, oracle, k);
    CellCoordinates(row, col);
    if k > 0 && row * 20 + col < k && ShouldAdd(level, attempt, oracle, row, col) {
      if row * 20 + col < k - 1 {
        ScanMembership(level, attempt, oracle, k - 1, row, col);
      } else {
        assert (k - 1) / 20 == row && (k - 1) % 20 == col;
      }
    }
  }

  /** Every block of a layout is the block of a grid cell (active, at
      `(40 + 60 col, 80 + 20 row)`, with its row's colour), and the blocks come
      in strictly row-major order, hence at distinct positions; there are at
      most 200 of them. */
  lemma LayoutShape(level: nat, attempt: nat, oracle: Oracle)
    ensures |Layout(level, attempt, oracle)| <= BlockRows * BlockCols
    ensures forall b <- Layout(level, attempt, oracle) ::
              && b.active
              && exists row: nat, col: nat :: row < BlockRows && col < BlockCols && b == CellBlock(row, col)
    ensures var s := Layout(level, attempt, oracle);
            forall i, j :: 0 <= i < j < |s| ==> Before(s[i], s[j]) && (s[i].x, s[i].y) != (s[j].x, s[j].y)
  {
    ScanShape(level, attempt, oracle, BlockRows * BlockCols);
    forall b <- Layout(level, attempt, oracle)
      ensures exists row: nat, col: nat :: row < BlockRows && col < BlockCols && b == CellBlock(row, col)
    {
      var row: nat, col: nat := RowOf(b), ColOf(b);
      assert b == CellBlock(row, col);
    }
  }

  /** A cell carries a block of the layout exactly when the level's test
      holds for it. */
  lemma LayoutMembership(level: nat, attempt: nat, oracle: Oracle, row: nat, col: nat)
    requires row < BlockRows && col < BlockCols
    ensures CellBlock(row, col) in Layout(level, attempt, oracle) <==> ShouldAdd(level, attempt, oracle, row, col)
  {
    ScanMembership(level, attempt, oracle, BlockRows * BlockCols, row, col);
  }

  /** Level 2 is a checkerboard and level 3 the even rows. */
  lemma CheckerboardAndStripes(attempt: nat, oracle: Oracle, row: nat, col: nat)
    requires row < BlockRows && col < BlockCols
    ensures CellBlock(row, col) in Layout(2, attempt, oracle) <==> (row + col) % 2 == 0
    ensures CellBlock(row, col) in Layout(3, attempt, oracle) <==> row % 2 == 0
  {
    LayoutMembership(2, attempt, oracle, row, col);
    LayoutMembership(3, attempt, oracle, row, col);
  }

  /** Level 4 fills its top and bottom rows, level 5 is a pyramid whose top
      row holds only the middle column, and level 9 leaves a hole wherever row
      and column are both 1 modulo 4 and wherever `row + col` is a multiple
      of 7. */
  lemma FramePyramidAndHoles(attempt: nat, oracle: Oracle, row: nat, col: nat)
    requires row < BlockRows && col < BlockCols
    ensures row == 0 || row == BlockRows - 1 ==> CellBlock(row, col) in Layout(4, attempt, oracle)
    ensures row == 0 ==> (CellBlock(row, col) in Layout(5, attempt, oracle) <==> col == BlockCols / 2)
    ensures (row % 4 == 1 && col % 4 == 1) || (row + col) % 7 == 0 ==>
              CellBlock(row, col) !in Layout(9, attempt, oracle)
  {
    LayoutMembership(4, attempt, oracle, row, col);
    LayoutMembership(5, attempt, oracle, row, col);
    LayoutMembership(9, attempt, oracle, row, col);
  }

  lemma {:induction false} FullScan(attempt: nat, oracle: Oracle, k: nat)
    requires k <= BlockRows * BlockCols
    ensures |Scan(1, attempt, oracle, k)| == k
    decreases k
  {
    if k > 0 {
      FullScan(attempt, oracle, k - 1);
    }
  }

  /** Level 1 fills the whole grid. */
  lemma FullGrid(oracle: Oracle)
    ensures |Generate(1, oracle, 0)| == BlockRows * BlockCols
  {
    FullScan(0, oracle, BlockRows * BlockCols);
  }

  lemma {:induction false} ScanIgnoresOracle(level: nat, a1: nat, a2: nat, o1: Oracle, o2: Oracle, k: nat)
    requires level <= 9 && level != 7
    requires k <= BlockRows * BlockCols
    ensures Scan(level, a1, o1, k) == Scan(level, a2, o2, k)
    decreases k
  {
    if k > 0 {
      ScanIgnoresOracle(level, a1, a2, o1, o2, k - 1);
    }
  }

  /** The fixed levels are generated in a single pass, and every level up
      to 9 other than 7 is the same whatever the oracle says. */
  lemma FixedLevelsAreDeterministic(level: nat, o1: Oracle, o2: Oracle)
    ensures level <= 9 ==> Generate(level, o1, 0) == Layout(level, 0, o1)
    ensures level <= 9 && level != 7 ==> Generate(level, o1, 0) == Generate(level, o2, 0)
  {
    if level <= 9 && level != 7 {
      ScanIgnoresOracle(level, 0, 0, o1, o2, BlockRows * BlockCols);
    }
  }

  lemma {:induction false} GenerateFrom(level: nat, oracle: Oracle, attempt: nat)
    requires attempt <= MaxRetries
    requires forall a :: 0 <= a < attempt ==> !Accepts(level, a, Layout(level, a, oracle))
    ensures exists a :: attempt <= a <= MaxRetries &&
              Generate(level, oracle, attempt) == Layout(level, a, oracle) &&
              Accepts(level, a, Layout(level, a, oracle)) &&
              forall a' :: 0 <= a' < a ==> !Accepts(level, a', Layout(level, a', oracle))
    decreases MaxRetries - attempt
  {
    if !Accepts(level, attempt, Layout(level, attempt, oracle)) {
      GenerateFrom(level, oracle, attempt + 1);
    }
  }

  /** The retry loop makes at most 11 passes and returns the first pass it
      accepts: one with at least 20 blocks, or the 11th, or (for levels up
      to 9) the first. */
  lemma FirstAcceptedPass(level: nat, oracle: Oracle)
    ensures exists a :: 0 <= a <= MaxRetries &&
              Generate(level, oracle, 0) == Layout(level, a, oracle) &&
              (level <= 9 || |Layout(level, a, oracle)| >= MinBlocks || a == MaxRetries) &&
              forall a' :: 0 <= a' < a ==> level > 9 && |Layout(level, a', oracle)| < MinBlocks
  {
    GenerateFrom(level, oracle, 0);
  }

  /** Levels up to 6 always have a block to break. */
  lemma EarlyLevelsHaveBlocks(level: nat, oracle: Oracle)
    requires level <= 6
    ensures |Generate(level, oracle, 0)| > 0
    ensures forall b <- Generate(level, oracle, 0) :: b.active
  {
    LayoutShape(level, 0, oracle);
    var row, col := if level == 5 then 9 else if level == 6 then 5 else 0, if level <= 4 then 0 else 10;
    LayoutMembership(level, 0, oracle, row, col);
  }
}
