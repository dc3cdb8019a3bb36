/**
  Level patterns of the editor (`PatternData` in editor.rs): a 10-by-20
  grid of cells saved as ASCII text, one character per cell, and turned
  into the blocks of a level.

  The editor's blocks carry a `BlockType` that the game's `Block` does not
  have; they are a type of their own here.
 */
module Patterns {
  import opened Entities
  import Text

  datatype BlockType = Normal | Ice | Explosive | Undestroyable

  /** A block as the editor places it. */
  datatype Block = Block(x: int, y: int, color: Color, active: bool, blockType: BlockType)

  /** A grid cell: a colour index, 255 meaning no block, and a block type. */
  datatype Cell = Cell(colorIndex: Byte, blockType: BlockType)

  const EmptyIndex: Byte := 255
  const Empty: Cell := Cell(EmptyIndex, Normal)

  predicate IsGrid(g: seq<seq<Cell>>)
  {
    |g| == BlockRows && forall r :: 0 <= r < |g| ==> |g[r]| == BlockCols
  }

  function EmptyGrid(): (g: seq<seq<Cell>>)
    ensures IsGrid(g)
    ensures forall r, c :: 0 <= r < BlockRows && 0 <= c < BlockCols ==> g[r][c] == Empty
  {
    seq(BlockRows, _ => seq(BlockCols, _ => Empty))
  }

  datatype PatternData = PatternData(name: string, grid: seq<seq<Cell>>)

  /** `PatternData::new`: every cell empty. */
  function NewPattern(name: string): (p: PatternData)
    ensures p.name == name && IsGrid(p.grid)
    ensures forall r, c :: 0 <= r < BlockRows && 0 <= c < BlockCols ==> p.grid[r][c] == Empty
  {
    PatternData(name, EmptyGrid())
  }

  // ------------------------------------------------------------ the cell codec

  /** The cells the text format can carry: empty, a normal block of one of
      the six colours, or a special block of colour 0. */
  predicate Representable(c: Cell)
  {
    || c == Empty
    || (c.blockType == Normal && c.colorIndex < 6)
    || (c.blockType != Normal && c.colorIndex == 0)
  }

  /** The character of a cell as `save_to_file` writes it: `*` for empty,
      `6`/`7`/`8` for Ice/Explosive/Undestroyable, and for a normal block
      its colour as a decimal digit (`0` when it has two digits). */
  function EncodeCell(c: Cell): (ch: char)
    ensures ch == '*' <==> c.colorIndex == EmptyIndex
    ensures Text.IsDigit(ch) || ch == '*'
  {
    if c.colorIndex == EmptyIndex then '*'
    else match c.blockType
      case Ice => '6'
      case Explosive => '7'
      case Undestroyable => '8'
      case Normal => if c.colorIndex < 10 then Text.DigitChar(c.colorIndex) else '0'
  }

  /** The cell of a character as `load_from_file` reads it. Every character
      decodes, unknown ones to an empty cell; the legacy letters `I`, `E`,
      `U` read as the digits `6`, `7`, `8`. */
  function DecodeChar(ch: char): (c: Cell)
    ensures Representable(c)
    ensures ch !in "012345678IEU" ==> c == Empty
    ensures ch == 'I' ==> c == DecodeChar('6')
    ensures ch == 'E' ==> c == DecodeChar('7')
    ensures ch == 'U' ==> c == DecodeChar('8')
  {
    match ch
    case '*' => Empty
    case '0' => Cell(0, Normal)
    case '1' => Cell(1, Normal)
    case '2' => Cell(2, Normal)
    case '3' => Cell(3, Normal)
    case '4' => Cell(4, Normal)
    case '5' => Cell(5, Normal)
    case '6' => Cell(0, Ice)
    case '7' => Cell(0, Explosive)
    case '8' => Cell(0, Undestroyable)
    case 'I' => Cell(0, Ice)
    case 'E' => Cell(0, Explosive)
    case 'U' => Cell(0, Undestroyable)
    case _ => Empty
  }

  /** Every representable cell survives encoding and decoding. */
  lemma CellRoundTrip(c: Cell)
    requires Representable(c)
    ensures DecodeChar(EncodeCell(c)) == c
  {
  }

  /** Every character the saver writes survives decoding and encoding. */
  lemma CharRoundTrip(ch: char)
    requires ch in "*012345678"
    ensures EncodeCell(DecodeChar(ch)) == ch
  {
  }

  // ------------------------------------------------------------ saving

  const NameHeader: string := "# Pattern: "
  const LegendHeader: string :=
    "# * = empty, " + "0-5 = normal, " + "6 = Ice, " + "7 = Explosive, " + "8 = Undestroyable"

  function RowText(row: seq<Cell>): (s: string)
    ensures |s| == |row|
    ensures forall c :: 0 <= c < |s| ==> s[c] == EncodeCell(row[c])
  {
    seq(|row|, c requires 0 <= c < |row| => EncodeCell(row[c]))
  }

  /** The grid lines, each ended by a newline. */
  function GridText(g: seq<seq<Cell>>): (t: string)
    ensures t == [] <==> g == []
    ensures t != [] ==> t[|t| - 1] == '\n'
  {
    if g == [] then "" else RowText(g[0]) + "\n" + GridText(g[1..])
  }

  /** The text `save_to_file` writes: the name line, the legend line, a
      blank line, then one line per grid row. */
  function Content(name: string, g: seq<seq<Cell>>): (c: string)
    ensures NameHeader + name <= c && c[|c| - 1] == '\n'
  {
    (NameHeader + name) + "\n" + (LegendHeader + "\n" + ("\n" + GridText(g)))
  }

  lemma {:induction false} GridTextSnoc(g: seq<seq<Cell>>, row: seq<Cell>)
    ensures GridText(g + [row]) == GridText(g) + RowText(row) + "\n"
    decreases |g|
  {
    if g == [] {
      assert [row][1..] == [];
    } else {
      assert (g + [row])[1..] == g[1..] + [row];
      GridTextSnoc(g[1..], row);
    }
  }

  /** The inner loop of `save_to_file`: one character per cell of the row. */
  method EncodeRow(row: seq<Cell>) returns (line: string)
    ensures line == RowText(row)
  {
    line := "";
    var col := 0;
    while col < |row|
      invariant col <= |row|
      invariant line == RowText(row[..col])
    {
      assert RowText(row[..col + 1]) == RowText(row[..col]) + [EncodeCell(row[col])];
      line := line + [EncodeCell(row[col])];
      col := col + 1;
    }
    assert row[..col] == row;
  }

  /** The string building of `save_to_file`. */
  method SaveContent(p: PatternData) returns (content: string)
    requires IsGrid(p.grid)
    ensures content == Content(p.name, p.grid)
  {
    content := NameHeader + p.name + "\n";
    content := content + LegendHeader + "\n" + "\n";
    ghost var header := content;
    var row := 0;
    while row < BlockRows
      invariant row <= BlockRows
      invariant content == header + GridText(p.grid[..row])
    {
      var line := EncodeRow(p.grid[row]);
      content := content + line + "\n";
      assert p.grid[..row + 1] == p.grid[..row] + [p.grid[row]];
      GridTextSnoc(p.grid[..row], p.grid[row]);
      row := row + 1;
    }
    assert p.grid[..row] == p.grid;
  }

  // ------------------------------------------------------------ reading lines

  /** The index of the first newline of `s`, or `|s|` if there is none. */
  function LineEnd(s: string): (i: nat)
    ensures i <= |s|
    ensures i < |s| ==> s[i] == '\n'
    ensures forall k :: 0 <= k < i ==> s[k] != '\n'
  {
    if s == [] || s[0] == '\n' then 0 else 1 + LineEnd(s[1..])
  }

  /** Rust's `str::lines`: lines end at `\n`, and a `\r` just before that
      `\n` is dropped too; the last line needs no ending. */
  function Lines(s: string): (r: seq<string>)
    ensures |r| <= |s| && (r == [] <==> s == [])
    ensures forall k :: 0 <= k < |r| ==> '\n' !in r[k]
    decreases |s|
  {
    if s == [] then []
    else
      var i := LineEnd(s);
      if i == |s| then [s]
      else
        var line := s[..i];
        var stripped := if 0 < |line| && line[|line| - 1] == '\r' then line[..|line| - 1] else line;
        [stripped] + Lines(s[i + 1..])
  }

  /** The Unicode White_Space characters, which `str::trim` removes. */
  predicate IsWhitespace(c: char)
  {
    || '\t' <= c <= '\r'
    || c == ' ' || c == '\U{0085}' || c == '\U{00A0}' || c == '\U{1680}'
    || '\U{2000}' <= c <= '\U{200A}'
    || c == '\U{2028}' || c == '\U{2029}' || c == '\U{202F}' || c == '\U{205F}' || c == '\U{3000}'
  }

  /** A comment line or a blank one, which the loader passes over. */
  predicate Skipped(line: string)
  {
    (0 < |line| && line[0] == '#') || forall k :: 0 <= k < |line| ==> IsWhitespace(line[k])
  }

  /** The lines that hold grid rows, in order. */
  function DataLines(lines: seq<string>): seq<string>
    decreases |lines|
  {
    if lines == [] then []
    else
      var last := lines[|lines| - 1];
      DataLines(lines[..|lines| - 1]) + (if Skipped(last) then [] else [last])
  }

  /** Cell `(r, c)` as read from the grid lines: the decoded character if
      the `r`-th grid line reaches column `c`, empty otherwise. */
  function ParsedCell(data: seq<string>, r: int, c: int): Cell
  {
    if 0 <= r < |data| && 0 <= c < |data[r]| then DecodeChar(data[r][c]) else Empty
  }

  /** The grid `load_from_file` reads from a text: its first 10 grid lines,
      their first 20 characters each, every other cell empty. */
  function Parse(content: string): (g: seq<seq<Cell>>)
    ensures IsGrid(g)
    ensures forall r, c :: 0 <= r < BlockRows && 0 <= c < BlockCols ==> Representable(g[r][c])
  {
    var data := DataLines(Lines(content));
    seq(BlockRows, r => seq(BlockCols, c => ParsedCell(data, r, c)))
  }

  lemma {:induction false} DataLinesPrefix(lines: seq<string>, i: nat)
    requires i <= |lines|
    ensures DataLines(lines[..i]) <= DataLines(lines)
    decreases |lines| - i
  {
    if i < |lines| {
      DataLinesPrefix(lines, i + 1);
      assert lines[..i + 1][..i] == lines[..i];
    } else {
      assert lines[..i] == lines;
    }
  }

  /** The inner loop of `load_from_file`: the first 20 characters of a grid
      line fill that row of the grid; every other cell is left alone. */
  method ReadRow(cells: array2<Cell>, row: nat, line: string)
    requires cells.Length0 == BlockRows && cells.Length1 == BlockCols && row < BlockRows
    modifies cells
    ensures forall r, c :: 0 <= r < BlockRows && 0 <= c < BlockCols && r != row ==> cells[r, c] == old(cells[r, c])
    ensures forall c :: 0 <= c < BlockCols ==>
              cells[row, c] == if c < |line| then DecodeChar(line[c]) else old(cells[row, c])
  {
    var col := 0;
    while col < |line| && col < BlockCols
      invariant col <= |line| && col <= BlockCols
      invariant forall r, c :: 0 <= r < BlockRows && 0 <= c < BlockCols && r != row ==> cells[r, c] == old(cells[r, c])
      invariant forall c :: 0 <= c < BlockCols ==>
                  cells[row, c] == if c < col then DecodeChar(line[c]) else old(cells[row, c])
    {
      cells[row, col] := DecodeChar(line[col]);
      col := col + 1;
    }
  }

  /** Only the first `row` grid lines are read when they are all there is
      or when they fill the grid. */
  lemma ParsedPrefix(data: seq<string>, row: nat)
    requires row <= |data| && (row == BlockRows || row == |data|)
    ensures forall r, c :: 0 <= r < BlockRows && 0 <= c < BlockCols ==>
              ParsedCell(data[..row], r, c) == ParsedCell(data, r, c)
  {
    forall r, c | 0 <= r < BlockRows && 0 <= c < BlockCols
      ensures ParsedCell(data[..row], r, c) == ParsedCell(data, r, c)
    {
      if r < row {
        assert data[..row][r] == data[r];
      }
    }
  }

  /** The grid of a cell array, row by row. */
  method Snapshot(cells: array2<Cell>) returns (grid: seq<seq<Cell>>)
    requires cells.Length0 == BlockRows && cells.Length1 == BlockCols
    ensures IsGrid(grid)
    ensures forall r, c :: 0 <= r < BlockRows && 0 <= c < BlockCols ==> grid[r][c] == cells[r, c]
  {
    grid := seq(BlockRows, r requires 0 <= r < BlockRows reads cells =>
              seq(BlockCols, c requires 0 <= c < BlockCols reads cells => cells[r, c]));
  }

  /** `load_from_file` on the text of a file whose stem is `name`. */
  method Load(name: string, content: string) returns (p: PatternData)
    ensures p == PatternData(name, Parse(content))
  {
    var cells := new Cell[BlockRows, BlockCols]((_, _) => Empty);
    ReadLines(cells, Lines(content));
    var grid := Snapshot(cells);
    forall r | 0 <= r < BlockRows
      ensures grid[r] == Parse(content)[r]
    {
    }
    p := PatternData(name, grid);
  }

  /** The line loop of `load_from_file` over an empty grid: comment and blank
      lines are skipped, and it stops once 10 grid lines are read. */
  method ReadLines(cells: array2<Cell>, lines: seq<string>)
    requires cells.Length0 == BlockRows && cells.Length1 == BlockCols
    requires forall r, c :: 0 <= r < BlockRows && 0 <= c < BlockCols ==> cells[r, c] == Empty
    modifies cells
    ensures forall r, c :: 0 <= r < BlockRows && 0 <= c < BlockCols ==>
              cells[r, c] == ParsedCell(DataLines(lines), r, c)
  {
    var row := 0;
    var i := 0;
    while i < |lines|
      invariant 0 <= i <= |lines|
      invariant row == |DataLines(lines[..i])| <= BlockRows
      invariant forall r, c :: 0 <= r < BlockRows && 0 <= c < BlockCols ==>
                  cells[r, c] == ParsedCell(DataLines(lines[..i]), r, c)
    {
      var line := lines[i];
      assert lines[..i + 1][..i] == lines[..i];
      if (0 < |line| && line[0] == '#') || AllWhitespace(line) {
        i := i + 1;
        continue;
      }
      if row >= BlockRows {
        break;
      }
      ghost var data := DataLines(lines[..i]);
      ReadRow(cells, row, line);
      assert DataLines(lines[..i + 1]) == data + [line];
      row := row + 1;
      i := i + 1;
    }
    ghost var data := DataLines(lines);
    assert row == BlockRows || i == |lines|;
    DataLinesPrefix(lines, i);
    assert row <= |data|;
    if i == |lines| {
      assert lines[..i] == lines;
    }
    assert row == BlockRows || row == |data|;
    assert DataLines(lines[..i]) == data[..row];
    ParsedPrefix(data, row);
  }

  /** `line.trim().is_empty()`. */
  predicate AllWhitespace(line: string)
  {
    forall k :: 0 <= k < |line| ==> IsWhitespace(line[k])
  }

  // ------------------------------------------------------------ round trip

  lemma {:induction false} LineEndAt(a: string, rest: string)
    requires '\n' !in a
    ensures LineEnd(a + "\n" + rest) == |a|
    decreases |a|
  {
    if a != [] {
      assert (a + "\n" + rest)[1..] == a[1..] + "\n" + rest;
      LineEndAt(a[1..], rest);
    }
  }

  /** A line without a newline, followed by one, splits off first. */
  lemma LinesCons(a: string, rest: string)
    requires '\n' !in a
    requires |a| == 0 || a[|a| - 1] != '\r'
    ensures Lines(a + "\n" + rest) == [a] + Lines(rest)
  {
    LineEndAt(a, rest);
    var s := a + "\n" + rest;
    assert s[..|a|] == a;
    assert s[|a| + 1..] == rest;
  }

  lemma {:induction false} DataLinesAppend(a: seq<string>, b: seq<string>)
    ensures DataLines(a + b) == DataLines(a) + DataLines(b)
    decreases |b|
  {
    if b == [] {
      assert a + b == a;
    } else {
      assert (a + b)[..|a + b| - 1] == a + b[..|b| - 1];
      DataLinesAppend(a, b[..|b| - 1]);
    }
  }

  /** The texts of the grid rows, in order. */
  function RowTexts(g: seq<seq<Cell>>): (ts: seq<string>)
    ensures |ts| == |g|
    ensures forall r :: 0 <= r < |g| ==> ts[r] == RowText(g[r])
  {
    if g == [] then [] else [RowText(g[0])] + RowTexts(g[1..])
  }

  /** A row line holds no line break, does not end in `\r`, and is neither
      a comment nor blank. */
  lemma RowLine(row: seq<Cell>)
    requires 0 < |row|
    ensures '\n' !in RowText(row)
    ensures RowText(row)[|row| - 1] != '\r'
    ensures !Skipped(RowText(row))
  {
    var t := RowText(row);
    forall k | 0 <= k < |t| ensures t[k] != '\n' { }
    assert t[0] == EncodeCell(row[0]);
  }

  lemma {:induction false} GridLines(g: seq<seq<Cell>>)
    requires forall r :: 0 <= r < |g| ==> 0 < |g[r]|
    ensures Lines(GridText(g)) == RowTexts(g)
    decreases |g|
  {
    if g != [] {
      RowLine(g[0]);
      LinesCons(RowText(g[0]), GridText(g[1..]));
      GridLines(g[1..]);
    }
  }

  lemma {:induction false} RowTextsAreData(g: seq<seq<Cell>>)
    requires forall r :: 0 <= r < |g| ==> 0 < |g[r]|
    ensures DataLines(RowTexts(g)) == RowTexts(g)
    decreases |g|
  {
    if g != [] {
      var t := RowText(g[0]);
      RowLine(g[0]);
      RowTextsAreData(g[1..]);
      DataLinesAppend([t], RowTexts(g[1..]));
      DataLinesSingle(t);
    }
  }

  lemma DataLinesSingle(line: string)
    ensures DataLines([line]) == if Skipped(line) then [] else [line]
  {
    assert [line][..0] == [];
  }

  /** The first line of a saved pattern as read back: the name line, less
      a final `\r`. */
  function NameLineRead(name: string): (line: string)
    ensures 0 < |line| && line[0] == '#'
  {
    var f := NameHeader + name;
    if f[|f| - 1] == '\r' then f[..|f| - 1] else f
  }

  lemma NameLine(name: string, body: string)
    requires '\n' !in name
    ensures Lines(NameHeader + name + "\n" + body) == [NameLineRead(name)] + Lines(body)
  {
    var first := NameHeader + name;
    LineEndAt(first, body);
    var s := first + "\n" + body;
    assert s[..|first|] == first;
    assert s[|first| + 1..] == body;
  }

  /** The legend is one comment line. */
  lemma LegendIsComment()
    ensures '\n' !in LegendHeader
    ensures LegendHeader[0] == '#' && LegendHeader[|LegendHeader| - 1] != '\r'
  {
    assert '\n' !in "# * = empty, ";
    assert '\n' !in "0-5 = normal, ";
    assert '\n' !in "6 = Ice, ";
    assert '\n' !in "7 = Explosive, ";
    assert '\n' !in "8 = Undestroyable";
  }

  /** A blank line, then `rest`. */
  lemma BlankLine(rest: string)
    ensures Lines("\n" + rest) == [""] + Lines(rest)
  {
    LinesCons("", rest);
    assert "" + "\n" + rest == "\n" + rest;
  }

  /** A comment line, a blank line, then `rest`. */
  lemma CommentAndBlank(h: string, rest: string)
    requires '\n' !in h && 0 < |h| && h[0] == '#' && h[|h| - 1] != '\r'
    ensures Lines(h + "\n" + ("\n" + rest)) == [h, ""] + Lines(rest)
  {
    BlankLine(rest);
    LinesCons(h, "\n" + rest);
  }

  lemma CommentAndBlankData(h: string)
    requires 0 < |h| && h[0] == '#'
    ensures DataLines([h, ""]) == []
  {
    DataLinesSingle(h);
    DataLinesSingle("");
    DataLinesAppend([h], [""]);
    assert [h] + [""] == [h, ""];
  }

  /** The three header lines of a saved pattern, with `h` for its legend. */
  lemma HeaderLines(name: string, h: string, rest: string)
    requires '\n' !in name
    requires '\n' !in h && 0 < |h| && h[0] == '#' && h[|h| - 1] != '\r'
    ensures Lines((NameHeader + name) + "\n" + (h + "\n" + ("\n" + rest))) == [NameLineRead(name)] + [h, ""] + Lines(rest)
  {
    NameLine(name, h + "\n" + ("\n" + rest));
    CommentAndBlank(h, rest);
  }

  /** The header lines hold no grid data. */
  lemma HeaderData(first: string, h: string)
    requires 0 < |first| && first[0] == '#' && 0 < |h| && h[0] == '#'
    ensures DataLines([first] + [h, ""]) == []
  {
    CommentAndBlankData(h);
    DataLinesSingle(first);
    DataLinesAppend([first], [h, ""]);
  }

  /** The grid lines of a saved pattern are exactly its row texts. */
  lemma ContentData(name: string, g: seq<seq<Cell>>)
    requires '\n' !in name
    requires forall r :: 0 <= r < |g| ==> 0 < |g[r]|
    ensures DataLines(Lines(Content(name, g))) == RowTexts(g)
  {
    LegendIsComment();
    HeaderLines(name, LegendHeader, GridText(g));
    var header := [NameLineRead(name)] + [LegendHeader, ""];
    HeaderData(NameLineRead(name), LegendHeader);
    GridLines(g);
    RowTextsAreData(g);
    DataLinesAppend(header, RowTexts(g));
  }

  /** Saving a pattern and loading the text back gives its grid again, for
      every grid of representable cells whose name has no line break. */
  lemma SaveLoadRoundTrip(name: string, g: seq<seq<Cell>>)
    requires IsGrid(g)
    requires '\n' !in name
    requires forall r, c :: 0 <= r < BlockRows && 0 <= c < BlockCols ==> Representable(g[r][c])
    ensures Parse(Content(name, g)) == g
  {
    ContentData(name, g);
    var data := RowTexts(g);
    forall r | 0 <= r < BlockRows
      ensures Parse(Content(name, g))[r] == g[r]
    {
      forall c | 0 <= c < BlockCols
        ensures ParsedCell(data, r, c) == g[r][c]
      {
        CellRoundTrip(g[r][c]);
      }
    }
  }

  // ------------------------------------------------------------ to blocks

  /** The block a non-empty cell becomes: active, on the grid, coloured by
      its colour index modulo the palette (60 and 20 are `BlockWidth` and
      `BlockHeight`, written out so that positions stay linear). */
  function CellBlock(g: seq<seq<Cell>>, r: nat, c: nat): (b: Block)
    requires IsGrid(g) && r < BlockRows && c < BlockCols
    ensures b.active && b.x == BlockOffsetX + c * 60 && b.y == BlockOffsetY + r * 20
    ensures b.color == BlockColors[g[r][c].colorIndex % 6] && b.blockType == g[r][c].blockType
  {
    Block.Block(BlockOffsetX + c * BlockWidth, BlockOffsetY + r * BlockHeight, BlockColors[g[r][c].colorIndex % |BlockColors|], true, g[r][c].blockType)
  }

  function RowOf(b: Block): int { (b.y - BlockOffsetY) / BlockHeight }
  function ColOf(b: Block): int { (b.x - BlockOffsetX) / BlockWidth }

  /** A cell's block sits in that cell's row and column. */
  lemma CellBlockPlace(g: seq<seq<Cell>>, r: nat, c: nat)
    requires IsGrid(g) && r < BlockRows && c < BlockCols
    ensures RowOf(CellBlock(g, r, c)) == r && ColOf(CellBlock(g, r, c)) == c
  {
    var b := CellBlock(g, r, c);
    assert b.y - BlockOffsetY == r * 20;
    assert b.x - BlockOffsetX == c * 60;
  }

  /** Row-major order of positions. */
  predicate Before(a: Block, b: Block)
  {
    a.y < b.y || (a.y == b.y && a.x < b.x)
  }

  /** The blocks of the first `col` cells of one row, left to right. */
  function RowScan(g: seq<seq<Cell>>, row: nat, col: nat): seq<Block>
    requires IsGrid(g) && row < BlockRows && col <= BlockCols
  {
    if col == 0 then []
    else RowScan(g, row, col - 1) + (if g[row][col - 1].colorIndex != EmptyIndex then [CellBlock(g, row, col - 1)] else [])
  }

  /** The blocks of the first `rows` rows, top to bottom. */
  function GridScan(g: seq<seq<Cell>>, rows: nat): seq<Block>
    requires IsGrid(g) && rows <= BlockRows
  {
    if rows == 0 then [] else GridScan(g, rows - 1) + RowScan(g, rows - 1, BlockCols)
  }

  /** The blocks of a whole pattern, in the order they are pushed. */
  function PatternScan(g: seq<seq<Cell>>): (r: seq<Block>)
    requires IsGrid(g)
    ensures forall b <- r :: b.active
  {
    GridScanMembers(g, BlockRows);
    GridScan(g, BlockRows)
  }

  /** `create_blocks_from_pattern`. */
  method CreateBlocksFromPattern(p: PatternData) returns (blocks: seq<Block>)
    requires IsGrid(p.grid)
    ensures blocks == PatternScan(p.grid)
  {
    blocks := [];
    var row := 0;
    while row < BlockRows
      invariant row <= BlockRows
      invariant blocks == GridScan(p.grid, row)
    {
      blocks := PushRow(p.grid, row, blocks);
      row := row + 1;
    }
  }

  /** The inner loop of `create_blocks_from_pattern`: push the blocks of
      one row's non-empty cells, left to right. */
  method PushRow(g: seq<seq<Cell>>, row: nat, blocks: seq<Block>) returns (pushed: seq<Block>)
    requires IsGrid(g) && row < BlockRows
    ensures pushed == blocks + RowScan(g, row, BlockCols)
  {
    pushed := blocks;
    var col := 0;
    while col < BlockCols
      invariant col <= BlockCols
      invariant pushed == blocks + RowScan(g, row, col)
    {
      if g[row][col].colorIndex != EmptyIndex {
        pushed := pushed + [CellBlock(g, row, col)];
      }
      col := col + 1;
    }
  }

  /** Every block of a row's scan is the block of a non-empty cell of that
      row left of `col`. */
  lemma {:induction false} RowScanMembers(g: seq<seq<Cell>>, row: nat, col: nat)
    requires IsGrid(g) && row < BlockRows && col <= BlockCols
    ensures |RowScan(g, row, col)| <= col
    ensures forall b <- RowScan(g, row, col) ::
              && RowOf(b) == row && 0 <= ColOf(b) < col
              && g[row][ColOf(b)].colorIndex != EmptyIndex
              && b == CellBlock(g, row, ColOf(b))
    decreases col
  {
    if col > 0 {
      RowScanMembers(g, row, col - 1);
      CellBlockPlace(g, row, col - 1);
    }
  }

  /** A row's scan runs strictly left to right. */
  lemma {:induction false} RowScanSorted(g: seq<seq<Cell>>, row: nat, col: nat)
    requires IsGrid(g) && row < BlockRows && col <= BlockCols
    ensures forall i, j :: 0 <= i < j < |RowScan(g, row, col)| ==>
              Before(RowScan(g, row, col)[i], RowScan(g, row, col)[j])
    decreases col
  {
    if col > 0 && g[row][col - 1].colorIndex != EmptyIndex {
      RowScanSorted(g, row, col - 1);
      RowScanMembers(g, row, col - 1);
      var prev, last := RowScan(g, row, col - 1), CellBlock(g, row, col - 1);
      var s := prev + [last];
      assert s == RowScan(g, row, col);
      forall i, j | 0 <= i < j < |s|
        ensures Before(s[i], s[j])
      {
        if j == |prev| {
          assert s[i] == prev[i] && prev[i] in prev;
        } else {
          assert s[i] == prev[i] && s[j] == prev[j];
        }
      }
    } else if col > 0 {
      RowScanSorted(g, row, col - 1);
      assert RowScan(g, row, col) == RowScan(g, row, col - 1) + [];
    }
  }

  /** A cell's block is in a row's scan exactly when the cell lies left of
      `col` and is not empty. */
  lemma {:induction false} RowScanMembership(g: seq<seq<Cell>>, row: nat, col: nat, c: nat)
    requires IsGrid(g) && row < BlockRows && col <= BlockCols && c < BlockCols
    ensures CellBlock(g, row, c) in RowScan(g, row, col) <==> c < col && g[row][c].colorIndex != EmptyIndex
    decreases col
  {
    RowScanMembers(g, row, col);
    CellBlockPlace(g, row, c);
    if c < col - 1 && g[row][c].colorIndex != EmptyIndex {
      RowScanMembership(g, row, col - 1, c);
    }
  }

  /** Every block of the scan of the first `rows` rows is the block of a
      non-empty cell in one of them. */
  lemma {:induction false} GridScanMembers(g: seq<seq<Cell>>, rows: nat)
    requires IsGrid(g) && rows <= BlockRows
    ensures forall b <- GridScan(g, rows) ::
              && 0 <= RowOf(b) < rows && 0 <= ColOf(b) < BlockCols
              && g[RowOf(b)][ColOf(b)].colorIndex != EmptyIndex
              && b == CellBlock(g, RowOf(b), ColOf(b))
    decreases rows
  {
    if rows > 0 {
      GridScanMembers(g, rows - 1);
      RowScanMembers(g, rows - 1, BlockCols);
    }
  }

  /** The scan of whole rows runs strictly in row-major order. */
  lemma {:induction false} GridScanSorted(g: seq<seq<Cell>>, rows: nat)
    requires IsGrid(g) && rows <= BlockRows
    ensures forall i, j :: 0 <= i < j < |GridScan(g, rows)| ==>
              Before(GridScan(g, rows)[i], GridScan(g, rows)[j])
    decreases rows
  {
    if rows > 0 {
      GridScanSorted(g, rows - 1);
      GridScanMembers(g, rows - 1);
      RowScanSorted(g, rows - 1, BlockCols);
      RowScanMembers(g, rows - 1, BlockCols);
      var above, here := GridScan(g, rows - 1), RowScan(g, rows - 1, BlockCols);
      var s := above + here;
      assert s == GridScan(g, rows);
      forall i, j | 0 <= i < j < |s|
        ensures Before(s[i], s[j])
      {
        if j < |above| {
          assert s[i] == above[i] && s[j] == above[j];
        } else if |above| <= i {
          assert s[i] == here[i - |above|] && s[j] == here[j - |above|];
        } else {
          var a, b := above[i], here[j - |above|];
          assert s[i] == a && a in above;
          assert s[j] == b && b in here;
          assert a.y == BlockOffsetY + RowOf(a) * 20;
          assert b.y == BlockOffsetY + (rows - 1) * 20;
        }
      }
    }
  }

  /** A cell's block is in the scan of the first `rows` rows exactly when
      the cell lies in one of them and is not empty. */
  lemma {:induction false} GridScanMembership(g: seq<seq<Cell>>, rows: nat, r: nat, c: nat)
    requires IsGrid(g) && rows <= BlockRows && r < BlockRows && c < BlockCols
    ensures CellBlock(g, r, c) in GridScan(g, rows) <==> r < rows && g[r][c].colorIndex != EmptyIndex
    decreases rows
  {
    GridScanMembers(g, rows);
    CellBlockPlace(g, r, c);
    if r < rows && g[r][c].colorIndex != EmptyIndex {
      if r < rows - 1 {
        GridScanMembership(g, rows - 1, r, c);
      } else {
        RowScanMembership(g, r, BlockCols, c);
      }
    }
  }

  /** `create_blocks_from_pattern` yields exactly one block per non-empty
      cell: active, at `(40 + 60 col, 80 + 20 row)`, coloured by its colour
      index modulo 6, with the cell's type, in strictly row-major order. */
  lemma PatternBlocks(g: seq<seq<Cell>>)
    requires IsGrid(g)
    ensures var s := PatternScan(g);
      && (forall r, c :: 0 <= r < BlockRows && 0 <= c < BlockCols ==>
            (CellBlock(g, r, c) in s <==> g[r][c].colorIndex != EmptyIndex))
      && (forall b <- s ::
            exists r, c :: 0 <= r < BlockRows && 0 <= c < BlockCols && g[r][c].colorIndex != EmptyIndex && b == CellBlock(g, r, c))
      && (forall i, j :: 0 <= i < j < |s| ==> Before(s[i], s[j]))
  {
    GridScanMembers(g, BlockRows);
    GridScanSorted(g, BlockRows);
    forall r, c | 0 <= r < BlockRows && 0 <= c < BlockCols
      ensures CellBlock(g, r, c) in PatternScan(g) <==> g[r][c].colorIndex != EmptyIndex
    {
      GridScanMembership(g, BlockRows, r, c);
    }
    forall b <- PatternScan(g)
      ensures exists r, c :: 0 <= r < BlockRows && 0 <= c < BlockCols &&
                g[r][c].colorIndex != EmptyIndex && b == CellBlock(g, r, c)
    {
      var r, c := RowOf(b), ColOf(b);
      assert g[r][c].colorIndex != EmptyIndex && b == CellBlock(g, r, c);
    }
  }
}
