/**
 Planning a partitioned scan: the chunk grids are cut into rectangles, which are packed into
 partitions. Every streamed chunk belongs to exactly one partition.
 */
module PartitionPlan {
  import opened Wrappers
  import opened PartitionSet

  /** The chunk grid of a tile. */
  datatype Layout = Layout(across: nat, down: nat)

  /** A streamed chunk, by its tile and its index in the tile. */
  datatype ChunkRef = ChunkRef(tile: nat, chunk: nat)

  datatype Mosaic = Mosaic(tiles: seq<Layout>, refs: seq<ChunkRef>, fingerprint: int) {
    predicate Valid() {
      forall i :: 0 <= i < |refs| ==> refs[i].tile < |tiles|
    }

    /** The chunks of a tile are counted row by row. */
    function Position(ref: ChunkRef): (c: Chunk)
      requires ref.tile < |tiles|
      ensures c.tile == ref.tile && c.col < Width(ref.tile) && ref.chunk == Slot(c.row, c.col, Width(ref.tile))
    {
      var across := if tiles[ref.tile].across < 1 then 1 else tiles[ref.tile].across;
      Chunk(ref.tile, ref.chunk % across, ref.chunk / across)
    }

    function Width(tile: nat): (w: nat)
      requires tile < |tiles|
      ensures w > 0 && (tiles[tile].across > 0 ==> w == tiles[tile].across)
    {
      if tiles[tile].across == 0 then 1 else tiles[tile].across
    }

    /** The positions of the streamed chunks. */
    function Streamed(): (s: seq<Chunk>)
      requires Valid()
      ensures |s| == |refs| && forall i :: 0 <= i < |s| ==> s[i].tile < |tiles|
    {
      seq(|refs|, i requires 0 <= i < |refs| => Position(refs[i]))
    }
  }

  /** A block with the number of streamed chunks it holds. */
  type Weighed = (ChunkBlock, nat)

  function Inside(s: set<Chunk>, b: ChunkBlock): set<Chunk> {
    set c | c in s && b.Contains(c)
  }

  function Band(b: ChunkBlock, rowEnd: nat): ChunkBlock {
    b.(rowEnd := rowEnd)
  }

  /** Row `row` of a block, up to column `colEnd`. */
  function RowOf(b: ChunkBlock, row: nat, colEnd: nat): ChunkBlock {
    ChunkBlock(b.tile, b.colStart, colEnd, row, row + 1)
  }

  lemma NextColumn(s: set<Chunk>, b: ChunkBlock, row: nat, col: nat)
    requires b.colStart <= col
    ensures |Inside(s, RowOf(b, row, col + 1))|
         == |Inside(s, RowOf(b, row, col))| + (if Chunk(b.tile, col, row) in s then 1 else 0)
  {
    var c := Chunk(b.tile, col, row);
    var before, after := Inside(s, RowOf(b, row, col)), Inside(s, RowOf(b, row, col + 1));
    forall x
      ensures x in after <==> x in before || (x == c && c in s)
    {
    }
    AddedElement(before, after, c, c in s);
  }

  lemma AddedElement(before: set<Chunk>, after: set<Chunk>, c: Chunk, added: bool)
    requires c !in before && forall x :: x in after <==> x in before || (x == c && added)
    ensures |after| == |before| + (if added then 1 else 0)
  {
    if added {
      assert after == before + {c};
    } else {
      assert after == before;
    }
  }

  lemma NextRow(s: set<Chunk>, b: ChunkBlock, row: nat)
    requires b.rowStart <= row
    ensures |Inside(s, Band(b, row + 1))|
         == |Inside(s, Band(b, row))| + |Inside(s, RowOf(b, row, b.colEnd))|
  {
    var before, next := Inside(s, Band(b, row)), Inside(s, RowOf(b, row, b.colEnd));
    assert Inside(s, Band(b, row + 1)) == before + next && before !! next;
  }

  /** The slot of a cell in a grid stored row by row. */
  function Slot(row: nat, col: nat, cols: nat): nat {
    row * cols + col
  }

  lemma SlotsDiffer(row: nat, col: nat, row': nat, col': nat, cols: nat)
    requires col < cols && col' < cols && Slot(row, col, cols) == Slot(row', col', cols)
    ensures row == row' && col == col'
  {
    if row < row' {
      RowsApart(row, row', cols);
    } else if row' < row {
      RowsApart(row', row, cols);
    }
  }

  lemma RowsApart(row: nat, row': nat, cols: nat)
    requires row < row'
    ensures row * cols + cols <= row' * cols
  {
    Multiple(row' - row - 1, cols);
    assert row' * cols == row * cols + cols + (row' - row - 1) * cols;
  }

  lemma Multiple(k: nat, n: nat)
    ensures k * n >= 0
  {}

  lemma SlotInside(row: nat, col: nat, rows: nat, cols: nat)
    requires row < rows && col < cols
    ensures Slot(row, col, cols) < rows * cols
  {
    RowsApart(row, rows, cols);
  }

  function ToSet(chunks: seq<Chunk>): set<Chunk> {
    set c | c in chunks
  }

  /** The rectangle of cells `[colStart, colEnd) x [rowStart, rowEnd)` of one tile that encloses its
      streamed chunks. */
  predicate Encloses(box: ChunkBlock, s: set<Chunk>) {
    box.NonEmpty() && forall c :: c in s ==> box.Contains(c)
  }

  /** The grid says for each cell of the box whether its chunk is streamed. */
  ghost predicate GridOf(grid: seq<bool>, box: ChunkBlock, s: set<Chunk>) {
    var cols, rows := box.colEnd - box.colStart, box.rowEnd - box.rowStart;
    && box.NonEmpty() && |grid| == rows * cols
    && forall row, col :: 0 <= row < rows && 0 <= col < cols ==>
         && Slot(row, col, cols) < |grid|
         && (grid[Slot(row, col, cols)] <==> Chunk(box.tile, box.colStart + col, box.rowStart + row) in s)
  }

  lemma EmptyGrid(grid: seq<bool>, box: ChunkBlock)
    requires box.NonEmpty() && |grid| == (box.rowEnd - box.rowStart) * (box.colEnd - box.colStart)
    requires forall i :: 0 <= i < |grid| ==> !grid[i]
    ensures GridOf(grid, box, {})
  {
    var cols, rows := box.colEnd - box.colStart, box.rowEnd - box.rowStart;
    forall row, col | 0 <= row < rows && 0 <= col < cols
      ensures Slot(row, col, cols) < |grid| && !grid[Slot(row, col, cols)]
    {
      SlotInside(row, col, rows, cols);
    }
  }

  /** Marking one chunk. */
  lemma MarkNext(grid: seq<bool>, box: ChunkBlock, seen: set<Chunk>, c: Chunk)
    requires GridOf(grid, box, seen) && box.Contains(c)
    ensures var slot := Slot(c.row - box.rowStart, c.col - box.colStart, box.colEnd - box.colStart);
      slot < |grid| && GridOf(grid[slot := true], box, seen + {c})
  {
    var cols, rows := box.colEnd - box.colStart, box.rowEnd - box.rowStart;
    var row: nat, col: nat := c.row - box.rowStart, c.col - box.colStart;
    var marked := grid[Slot(row, col, cols) := true];
    forall row', col' | 0 <= row' < rows && 0 <= col' < cols
      ensures Slot(row', col', cols) < |grid|
      ensures marked[Slot(row', col', cols)]
         <==> Chunk(box.tile, box.colStart + col', box.rowStart + row') in seen + {c}
    {
      if Slot(row', col', cols) == Slot(row, col, cols) {
        SlotsDiffer(row, col, row', col', cols);
      }
    }
  }

  method NewGrid(rows: nat, cols: nat) returns (grid: array<bool>)
    ensures fresh(grid) && grid.Length == rows * cols && forall i :: 0 <= i < grid.Length ==> !grid[i]
  {
    Multiple(rows, cols);
    grid := new bool[rows * cols](_ => false);
  }

  method Mark(grid: array<bool>, box: ChunkBlock, ghost seen: set<Chunk>, c: Chunk)
    requires GridOf(grid[..], box, seen) && box.Contains(c)
    modifies grid
    ensures GridOf(grid[..], box, seen + {c})
  {
    MarkNext(grid[..], box, seen, c);
    ghost var before := grid[..];
    var slot := Slot(c.row - box.rowStart, c.col - box.colStart, box.colEnd - box.colStart);
    grid[slot] := true;
    assert grid[..] == before[slot := true];
  }

  method FillGrid(chunks: seq<Chunk>, box: ChunkBlock) returns (grid: array<bool>)
    requires Encloses(box, ToSet(chunks))
    ensures fresh(grid) && GridOf(grid[..], box, ToSet(chunks))
  {
    var cols, rows := box.colEnd - box.colStart, box.rowEnd - box.rowStart;
    grid := NewGrid(rows, cols);
    EmptyGrid(grid[..], box);
    for i := 0 to |chunks|
      invariant GridOf(grid[..], box, ToSet(chunks[..i]))
    {
      var c := chunks[i];
      assert c in ToSet(chunks);
      Mark(grid, box, ToSet(chunks[..i]), c);
      assert ToSet(chunks[..i + 1]) == ToSet(chunks[..i]) + {c};
    }
    assert chunks[..|chunks|] == chunks;
  }

  /** Counts the streamed chunks of a block inside the box. */
  method CountBlock(grid: array<bool>, box: ChunkBlock, b: ChunkBlock, ghost s: set<Chunk>) returns (n: nat)
    requires GridOf(grid[..], box, s) && b.tile == box.tile
    requires box.colStart <= b.colStart <= b.colEnd <= box.colEnd
    requires box.rowStart <= b.rowStart <= b.rowEnd <= box.rowEnd
    ensures n == |Inside(s, b)|
  {
    var cols := box.colEnd - box.colStart;
    n := 0;
    var row := b.rowStart;
    assert Inside(s, Band(b, row)) == {};
    while row < b.rowEnd
      invariant b.rowStart <= row <= b.rowEnd && n == |Inside(s, Band(b, row))|
    {
      var col := b.colStart;
      assert Inside(s, RowOf(b, row, col)) == {};
      ghost var before := n;
      while col < b.colEnd
        invariant b.colStart <= col <= b.colEnd && n == before + |Inside(s, RowOf(b, row, col))|
      {
        NextColumn(s, b, row, col);
        if grid[Slot(row - box.rowStart, col - box.colStart, cols)] {
          n := n + 1;
        }
        col := col + 1;
      }
      NextRow(s, b, row);
      row := row + 1;
    }
    assert Band(b, b.rowEnd) == b;
  }

  /** The blocks cut a set of chunks of one tile: disjoint, each with some of the chunks, and each
      chunk in one. */
  ghost predicate Cuts(blocks: seq<Weighed>, s: set<Chunk>) {
    && (forall k :: 0 <= k < |blocks| ==> blocks[k].1 == |Inside(s, blocks[k].0)| > 0)
    && (forall j, k :: 0 <= j < k < |blocks| ==> !Overlap(blocks[j].0, blocks[k].0))
    && (forall c :: c in s ==> InSome(blocks, c))
  }

  predicate InSome(blocks: seq<Weighed>, c: Chunk) {
    exists k :: 0 <= k < |blocks| && blocks[k].0.Contains(c)
  }

  /** The block is above row `row`, or left of column `col`. */
  predicate Before(b: ChunkBlock, row: nat, col: nat) {
    b.rowEnd <= row || b.colEnd <= col
  }

  /** The state of the cut when the block starting at (row, col) is next, in a band ending at
      `rowEnd`. */
  ghost predicate CutUpTo(blocks: seq<Weighed>, box: ChunkBlock, s: set<Chunk>, row: nat, rowEnd: nat, col: nat) {
    && (forall k :: 0 <= k < |blocks| ==>
          && blocks[k].1 == |Inside(s, blocks[k].0)| > 0 && blocks[k].0.tile == box.tile
          && blocks[k].0.rowEnd <= rowEnd && Before(blocks[k].0, row, col))
    && (forall j, k :: 0 <= j < k < |blocks| ==> !Overlap(blocks[j].0, blocks[k].0))
    && (forall c :: c in s && (c.row < row || (c.row < rowEnd && c.col < col)) ==> InSome(blocks, c))
  }

  lemma CutNext(blocks: seq<Weighed>, box: ChunkBlock, s: set<Chunk>, b: ChunkBlock)
    requires CutUpTo(blocks, box, s, b.rowStart, b.rowEnd, b.colStart) && Encloses(box, s)
    requires b.tile == box.tile && b.NonEmpty()
    ensures var n := |Inside(s, b)|;
      CutUpTo(if n > 0 then blocks + [(b, n)] else blocks, box, s, b.rowStart, b.rowEnd, b.colEnd)
  {
    var n := |Inside(s, b)|;
    var after := if n > 0 then blocks + [(b, n)] else blocks;
    forall c | c in s && (c.row < b.rowStart || (c.row < b.rowEnd && c.col < b.colEnd))
      ensures InSome(after, c)
    {
      if c.row < b.rowStart || c.col < b.colStart {
        InSomeMore(blocks, after, c);
      } else {
        assert c in Inside(s, b);
        assert after[|blocks|].0.Contains(c);
      }
    }
  }

  lemma InSomeMore(blocks: seq<Weighed>, after: seq<Weighed>, c: Chunk)
    requires InSome(blocks, c) && blocks <= after
    ensures InSome(after, c)
  {
    var k :| 0 <= k < |blocks| && blocks[k].0.Contains(c);
    assert after[k] == blocks[k];
  }

  /** The rectangle that encloses the chunks, each edge of which a chunk reaches. */
  predicate SmallestBox(box: ChunkBlock, chunks: seq<Chunk>) {
    && Encloses(box, ToSet(chunks))
    && (exists c :: c in chunks && c.col == box.colStart)
    && (exists c :: c in chunks && c.col + 1 == box.colEnd)
    && (exists c :: c in chunks && c.row == box.rowStart)
    && (exists c :: c in chunks && c.row + 1 == box.rowEnd)
  }

  /** The smallest rectangle that encloses the chunks of one tile. */
  method BoxOf(chunks: seq<Chunk>) returns (box: ChunkBlock)
    requires chunks != [] && forall i :: 0 <= i < |chunks| ==> chunks[i].tile == chunks[0].tile
    ensures SmallestBox(box, chunks) && box.tile == chunks[0].tile
  {
    var first := chunks[0];
    box := ChunkBlock(first.tile, first.col, first.col + 1, first.row, first.row + 1);
    for i := 1 to |chunks|
      invariant box.tile == first.tile && forall j :: 0 <= j < i ==> box.Contains(chunks[j])
      invariant exists j :: 0 <= j < i && chunks[j].col == box.colStart
      invariant exists j :: 0 <= j < i && chunks[j].col + 1 == box.colEnd
      invariant exists j :: 0 <= j < i && chunks[j].row == box.rowStart
      invariant exists j :: 0 <= j < i && chunks[j].row + 1 == box.rowEnd
    {
      var c := chunks[i];
      if c.col < box.colStart {
        box := box.(colStart := c.col);
      }
      if c.col >= box.colEnd {
        box := box.(colEnd := c.col + 1);
      }
      if c.row < box.rowStart {
        box := box.(rowStart := c.row);
      }
      if c.row >= box.rowEnd {
        box := box.(rowEnd := c.row + 1);
      }
    }
  }

  function ClampTo(x: nat, max: nat): (r: nat)
    requires max > 0
    ensures 1 <= r <= max && (r == x || (x == 0 && r == 1) || (x > max && r == max))
  {
    if x < 1 then 1 else if x > max then max else x
  }

  function DivCeil(n: nat, d: nat): nat
    requires d > 0
  {
    (n + d - 1) / d
  }

  function Times(k: nat, n: nat): nat {
    k * n
  }

  /** As few times as reach the number. */
  lemma DivCeilIs(n: nat, d: nat)
    requires d > 0 && n > 0
    ensures var r := DivCeil(n, d);
      r > 0 && Times(r - 1, d) < n <= Times(r, d)
  {
    var r := DivCeil(n, d);
    var rest := (n + d - 1) % d;
    assert n + d - 1 == d * r + rest;
    assert Times(r, d) == d * r;
    if r > 0 {
      assert Times(r - 1, d) == d * r - d;
    }
  }

  /** The size of the rectangles: the width asked for as far as the box allows, and as few rows as
      reach the target, or all. */
  predicate CellSize(box: ChunkBlock, target: nat, width: nat, bw: nat, bh: nat)
    requires box.NonEmpty()
  {
    var cols, rows := box.colEnd - box.colStart, box.rowEnd - box.rowStart;
    && 1 <= bw <= cols && (bw == width || (width == 0 && bw == 1) || (width > cols && bw == cols))
    && 1 <= bh <= rows && Times(bh - 1, bw) < target && (bh == rows || target <= Times(bh, bw))
  }

  lemma SizeIs(box: ChunkBlock, target: nat, width: nat)
    requires box.NonEmpty() && target > 0
    ensures var cols, rows := box.colEnd - box.colStart, box.rowEnd - box.rowStart;
      var bw := ClampTo(width, cols);
      CellSize(box, target, width, bw, ClampTo(DivCeil(target, bw), rows))
  {
    var cols, rows := box.colEnd - box.colStart, box.rowEnd - box.rowStart;
    var bw := ClampTo(width, cols);
    var r := DivCeil(target, bw);
    DivCeilIs(target, bw);
    if r > rows {
      TimesMonotone(rows - 1, r - 1, bw);
    }
  }

  lemma TimesMonotone(j: nat, k: nat, n: nat)
    requires j <= k
    ensures Times(j, n) <= Times(k, n)
  {
    if j < k {
      RowsApart(j, k, n);
    }
  }

  /** A whole number of steps from the start. */
  ghost predicate Aligned(x: nat, start: nat, step: nat) {
    exists k: nat :: x == start + Times(k, step)
  }

  lemma AlignedNext(x: nat, start: nat, step: nat)
    requires Aligned(x, start, step)
    ensures Aligned(x + step, start, step)
  {
    var k: nat :| x == start + Times(k, step);
    assert Times(k + 1, step) == Times(k, step) + step;
  }

  lemma AlignedStart(start: nat, step: nat)
    ensures Aligned(start, start, step)
  {
    assert Times(0, step) == 0;
  }

  /** A cell of the grid of rectangles, cut off at the end of the box. */
  ghost predicate GridCell(b: ChunkBlock, box: ChunkBlock, bw: nat, bh: nat) {
    && Fits(b, box) && Aligned(b.colStart, box.colStart, bw) && Aligned(b.rowStart, box.rowStart, bh)
    && (b.colEnd == b.colStart + bw || (b.colEnd == box.colEnd < b.colStart + bw))
    && (b.rowEnd == b.rowStart + bh || (b.rowEnd == box.rowEnd < b.rowStart + bh))
  }

  predicate Earlier(a: ChunkBlock, row: nat, col: nat) {
    a.rowStart < row || (a.rowStart == row && a.colStart < col)
  }

  /** Cells of the grid, row by row. */
  ghost predicate Gridded(blocks: seq<Weighed>, box: ChunkBlock, bw: nat, bh: nat) {
    && (forall k :: 0 <= k < |blocks| ==> GridCell(blocks[k].0, box, bw, bh))
    && (forall j, k :: 0 <= j < k < |blocks| ==> Earlier(blocks[j].0, blocks[k].0.rowStart, blocks[k].0.colStart))
  }

  ghost predicate GriddedUpTo(blocks: seq<Weighed>, box: ChunkBlock, bw: nat, bh: nat, row: nat, col: nat) {
    && Gridded(blocks, box, bw, bh)
    && forall k :: 0 <= k < |blocks| ==> Earlier(blocks[k].0, row, col)
  }

  lemma GriddedNext(blocks: seq<Weighed>, box: ChunkBlock, bw: nat, bh: nat, b: ChunkBlock, n: nat)
    requires GriddedUpTo(blocks, box, bw, bh, b.rowStart, b.colStart) && GridCell(b, box, bw, bh) && bw > 0
    ensures GriddedUpTo(if n > 0 then blocks + [(b, n)] else blocks, box, bw, bh, b.rowStart, b.colStart + bw)
  {}

  /** The rectangles of a tile: the cells of a grid over the smallest box that encloses its streamed
      chunks, row by row. */
  ghost predicate TileCut(blocks: seq<Weighed>, chunks: seq<Chunk>, target: nat, width: nat) {
    && Cuts(blocks, ToSet(chunks))
    && exists box, bw, bh ::
         SmallestBox(box, chunks) && CellSize(box, target, width, bw, bh) && Gridded(blocks, box, bw, bh)
  }

  /** Cuts the chunks of one tile. `width` is the width in chunks of a rectangle of about `target`
      chunks that is square in pixels. */
  method CutTile(chunks: seq<Chunk>, target: nat, width: nat) returns (blocks: seq<Weighed>)
    requires target > 0 && chunks != []
    requires forall i :: 0 <= i < |chunks| ==> chunks[i].tile == chunks[0].tile
    ensures Cuts(blocks, ToSet(chunks)) && TileCut(blocks, chunks, target, width)
    ensures forall k :: 0 <= k < |blocks| ==> blocks[k].0.tile == chunks[0].tile && blocks[k].0.NonEmpty()
    ensures forall k :: 0 <= k < |blocks| ==> EndsWithin(blocks[k].0, chunks)
  {
    ghost var s := ToSet(chunks);
    var box := BoxOf(chunks);
    var cols, rows := box.colEnd - box.colStart, box.rowEnd - box.rowStart;
    var bw := ClampTo(width, cols);
    var bh := ClampTo(DivCeil(target, bw), rows);
    SizeIs(box, target, width);
    var grid := FillGrid(chunks, box);
    blocks := CutBox(grid, box, bw, bh, s);
    FitsWithin(blocks, box, chunks);
  }

  /** Cuts the box into bands of `bh` rows. */
  method CutBox(grid: array<bool>, box: ChunkBlock, bw: nat, bh: nat, ghost s: set<Chunk>)
    returns (blocks: seq<Weighed>)
    requires GridOf(grid[..], box, s) && Encloses(box, s) && bw > 0 && bh > 0
    ensures Cuts(blocks, s) && AllFit(blocks, box) && Gridded(blocks, box, bw, bh)
  {
    blocks := [];
    var row := box.rowStart;
    AlignedStart(row, bh);
    while row < box.rowEnd
      invariant box.rowStart <= row && Aligned(row, box.rowStart, bh)
      invariant CutUpTo(blocks, box, s, row, row, box.colStart)
      invariant GriddedUpTo(blocks, box, bw, bh, row, box.colStart)
      decreases box.rowEnd - row
    {
      var rowEnd := if row + bh < box.rowEnd then row + bh else box.rowEnd;
      blocks := CutBand(blocks, grid, box, row, rowEnd, bw, bh, s);
      CutDown(blocks, box, s, row, rowEnd, row + bh);
      AlignedNext(row, box.rowStart, bh);
      row := row + bh;
    }
    CutDone(blocks, box, s, row);
  }

  /** Cuts one band of rows. */
  method CutBand(above: seq<Weighed>, grid: array<bool>, box: ChunkBlock, row: nat, rowEnd: nat, bw: nat,
                 ghost bh: nat, ghost s: set<Chunk>)
    returns (blocks: seq<Weighed>)
    requires GridOf(grid[..], box, s) && Encloses(box, s) && bw > 0 && bh > 0
    requires box.rowStart <= row < rowEnd <= box.rowEnd && Aligned(row, box.rowStart, bh)
    requires rowEnd == row + bh || rowEnd == box.rowEnd < row + bh
    requires CutUpTo(above, box, s, row, row, box.colStart)
    requires GriddedUpTo(above, box, bw, bh, row, box.colStart)
    ensures CutUpTo(blocks, box, s, row, rowEnd, box.colEnd)
    ensures GriddedUpTo(blocks, box, bw, bh, row + bh, box.colStart)
  {
    blocks := above;
    var col := box.colStart;
    AlignedStart(col, bw);
    while col < box.colEnd
      invariant box.colStart <= col && Aligned(col, box.colStart, bw)
      invariant CutUpTo(blocks, box, s, row, rowEnd, if col < box.colEnd then col else box.colEnd)
      invariant GriddedUpTo(blocks, box, bw, bh, row, col)
      decreases box.colEnd - col
    {
      var colEnd := if col + bw < box.colEnd then col + bw else box.colEnd;
      blocks := CutCell(blocks, grid, box, ChunkBlock(box.tile, col, colEnd, row, rowEnd), bw, bh, s);
      AlignedNext(col, box.colStart, bw);
      col := col + bw;
    }
  }

  /** Cuts one cell of the grid, unless no chunk of it is streamed. */
  method CutCell(before: seq<Weighed>, grid: array<bool>, box: ChunkBlock, b: ChunkBlock, ghost bw: nat, ghost bh: nat,
                 ghost s: set<Chunk>)
    returns (blocks: seq<Weighed>)
    requires GridOf(grid[..], box, s) && Encloses(box, s) && bw > 0 && GridCell(b, box, bw, bh)
    requires CutUpTo(before, box, s, b.rowStart, b.rowEnd, b.colStart)
    requires GriddedUpTo(before, box, bw, bh, b.rowStart, b.colStart)
    ensures CutUpTo(blocks, box, s, b.rowStart, b.rowEnd, b.colEnd)
    ensures GriddedUpTo(blocks, box, bw, bh, b.rowStart, b.colStart + bw)
  {
    CutNext(before, box, s, b);
    var n := CountBlock(grid, box, b, s);
    GriddedNext(before, box, bw, bh, b, n);
    blocks := if n > 0 then before + [(b, n)] else before;
  }

  predicate AllFit(blocks: seq<Weighed>, box: ChunkBlock) {
    forall k :: 0 <= k < |blocks| ==> Fits(blocks[k].0, box)
  }

  predicate Fits(b: ChunkBlock, box: ChunkBlock) {
    && b.tile == box.tile && b.NonEmpty()
    && box.colStart <= b.colStart && b.colEnd <= box.colEnd
    && box.rowStart <= b.rowStart && b.rowEnd <= box.rowEnd
  }

  /** The block ends no later than some of the chunks. */
  predicate EndsWithin(b: ChunkBlock, chunks: seq<Chunk>) {
    && (exists i :: 0 <= i < |chunks| && b.colEnd <= chunks[i].col + 1)
    && (exists i :: 0 <= i < |chunks| && b.rowEnd <= chunks[i].row + 1)
  }

  lemma FitsWithin(blocks: seq<Weighed>, box: ChunkBlock, chunks: seq<Chunk>)
    requires AllFit(blocks, box)
    requires exists c :: c in chunks && c.col + 1 == box.colEnd
    requires exists c :: c in chunks && c.row + 1 == box.rowEnd
    ensures forall k :: 0 <= k < |blocks| ==> EndsWithin(blocks[k].0, chunks)
  {
    var c :| c in chunks && c.col + 1 == box.colEnd;
    var d :| d in chunks && d.row + 1 == box.rowEnd;
    var i :| 0 <= i < |chunks| && chunks[i] == c;
    var j :| 0 <= j < |chunks| && chunks[j] == d;
    forall k | 0 <= k < |blocks|
      ensures EndsWithin(blocks[k].0, chunks)
    {
      assert Fits(blocks[k].0, box);
      assert blocks[k].0.colEnd <= chunks[i].col + 1 && blocks[k].0.rowEnd <= chunks[j].row + 1;
    }
  }

  /** The next band starts below a finished one. */
  lemma CutDown(blocks: seq<Weighed>, box: ChunkBlock, s: set<Chunk>, row: nat, rowEnd: nat, row': nat)
    requires CutUpTo(blocks, box, s, row, rowEnd, box.colEnd) && Encloses(box, s)
    requires row' == rowEnd || rowEnd == box.rowEnd <= row'
    ensures CutUpTo(blocks, box, s, row', row', box.colStart)
  {
    forall c | c in s && c.row < row'
      ensures InSome(blocks, c)
    {
      assert box.Contains(c);
    }
  }

  lemma CutDone(blocks: seq<Weighed>, box: ChunkBlock, s: set<Chunk>, row: nat)
    requires CutUpTo(blocks, box, s, row, row, box.colStart) && Encloses(box, s) && box.rowEnd <= row
    ensures Cuts(blocks, s)
  {
    forall c | c in s
      ensures InSome(blocks, c)
    {
      assert box.Contains(c);
    }
  }

  // ----- The whole plan -----

  /** The streamed chunks by tile. */
  method ChunksByTile(m: Mosaic) returns (present: array<seq<Chunk>>)
    requires m.Valid()
    ensures fresh(present) && present.Length == |m.tiles|
    ensures forall t :: 0 <= t < |m.tiles| ==> ChunksOf(m, t, present[t])
  {
    present := new seq<Chunk>[|m.tiles|](_ => []);
    for i := 0 to |m.refs|
      invariant forall t, k :: 0 <= t < |m.tiles| && 0 <= k < |present[t]| ==>
        present[t][k] in m.Streamed() && present[t][k].tile == t
      invariant forall k :: 0 <= k < i ==> m.Streamed()[k] in present[m.Streamed()[k].tile]
    {
      var c := m.Position(m.refs[i]);
      assert c == m.Streamed()[i];
      present[c.tile] := present[c.tile] + [c];
    }
  }

  /** The blocks cut the streamed chunks of the tiles before `t`. */
  ghost predicate CutTiles(blocks: seq<Weighed>, s: set<Chunk>, t: nat) {
    && (forall k :: 0 <= k < |blocks| ==>
          && blocks[k].0.tile < t && blocks[k].0.NonEmpty()
          && blocks[k].1 == |Inside(s, blocks[k].0)| > 0)
    && (forall j, k :: 0 <= j < k < |blocks| ==> !Overlap(blocks[j].0, blocks[k].0))
    && (forall c :: c in s && c.tile < t ==> InSome(blocks, c))
  }

  lemma {:induction false} CutNextTile(blocks: seq<Weighed>, s: set<Chunk>, t: nat, next: seq<Weighed>,
                                       here: set<Chunk>)
    requires CutTiles(blocks, s, t) && Cuts(next, here)
    requires forall k :: 0 <= k < |next| ==> next[k].0.tile == t && next[k].0.NonEmpty()
    requires OfTile(here, s, t)
    ensures CutTiles(blocks + next, s, t + 1)
  {
    var all := blocks + next;
    forall k | 0 <= k < |all|
      ensures all[k].0.tile < t + 1 && all[k].0.NonEmpty() && all[k].1 == |Inside(s, all[k].0)| > 0
    {
      if k >= |blocks| {
        SameInside(here, s, t, next[k - |blocks|].0);
        assert all[k] == next[k - |blocks|];
      } else {
        assert all[k] == blocks[k];
      }
    }
    forall j, k | 0 <= j < k < |all|
      ensures !Overlap(all[j].0, all[k].0)
    {
      if j >= |blocks| {
        assert all[j] == next[j - |blocks|] && all[k] == next[k - |blocks|];
      } else if k >= |blocks| {
        assert all[j] == blocks[j] && all[k] == next[k - |blocks|];
      } else {
        assert all[j] == blocks[j] && all[k] == blocks[k];
      }
    }
    forall c | c in s && c.tile < t + 1
      ensures InSome(all, c)
    {
      if c.tile < t {
        InSomeMore(blocks, all, c);
      } else {
        assert InSome(next, c);
        var k :| 0 <= k < |next| && next[k].0.Contains(c);
        assert all[|blocks| + k].0.Contains(c);
      }
    }
  }

  predicate OfTile(here: set<Chunk>, s: set<Chunk>, t: nat) {
    && (forall c :: c in here ==> c in s && c.tile == t)
    && (forall c :: c in s && c.tile == t ==> c in here)
  }

  lemma SameInside(here: set<Chunk>, s: set<Chunk>, t: nat, b: ChunkBlock)
    requires OfTile(here, s, t) && b.tile == t
    ensures Inside(s, b) == Inside(here, b)
  {}

  function JoinCuts(cuts: seq<seq<Weighed>>): seq<Weighed> {
    if cuts == [] then [] else JoinCuts(cuts[..|cuts| - 1]) + cuts[|cuts| - 1]
  }

  /** The rectangles of one tile of a mosaic. */
  ghost predicate CutOf(m: Mosaic, t: nat, cut: seq<Weighed>, target: nat, width: nat)
    requires m.Valid()
  {
    exists chunks :: ChunksOf(m, t, chunks) && if chunks == [] then cut == [] else TileCut(cut, chunks, target, width)
  }

  /** The rectangles of a mosaic, tile by tile. */
  ghost predicate MosaicCut(m: Mosaic, blocks: seq<Weighed>, cuts: seq<seq<Weighed>>, target: nat, widths: nat -> nat)
    requires m.Valid()
  {
    && blocks == JoinCuts(cuts)
    && forall t :: 0 <= t < |cuts| ==> CutOf(m, t, cuts[t], target, widths(t))
  }

  lemma MosaicCutNext(m: Mosaic, blocks: seq<Weighed>, cuts: seq<seq<Weighed>>, target: nat, widths: nat -> nat,
                      cut: seq<Weighed>)
    requires m.Valid() && MosaicCut(m, blocks, cuts, target, widths)
    requires CutOf(m, |cuts|, cut, target, widths(|cuts|))
    ensures MosaicCut(m, blocks + cut, cuts + [cut], target, widths)
  {
    assert (cuts + [cut])[..|cuts|] == cuts;
  }

  method CutMosaic(m: Mosaic, target: nat, widths: nat -> nat)
    returns (blocks: seq<Weighed>, ghost cuts: seq<seq<Weighed>>)
    requires m.Valid() && target > 0
    ensures CutTiles(blocks, ToSet(m.Streamed()), |m.tiles|)
    ensures |cuts| == |m.tiles| && MosaicCut(m, blocks, cuts, target, widths)
    ensures forall k :: 0 <= k < |blocks| ==> InGrid(m, blocks[k].0)
  {
    ghost var s := ToSet(m.Streamed());
    var byTile := ChunksByTile(m);
    var present := byTile[..];
    blocks, cuts := [], [];
    for t := 0 to |m.tiles|
      invariant CutTiles(blocks, s, t)
      invariant |cuts| == t && MosaicCut(m, blocks, cuts, target, widths)
      invariant forall k :: 0 <= k < |blocks| ==> InGrid(m, blocks[k].0)
    {
      var chunks := present[t];
      var next := [];
      if chunks != [] {
        next := CutOne(m, t, chunks, target, widths(t));
      }
      TileChunks(m, t, chunks);
      CutNextTile(blocks, s, t, next, ToSet(chunks));
      MosaicCutNext(m, blocks, cuts, target, widths, next);
      cuts := cuts + [next];
      blocks := blocks + next;
    }
  }

  lemma TileChunks(m: Mosaic, t: nat, chunks: seq<Chunk>)
    requires m.Valid() && ChunksOf(m, t, chunks)
    ensures OfTile(ToSet(chunks), ToSet(m.Streamed()), t)
  {
    forall c | c in m.Streamed() && c.tile == t
      ensures c in chunks
    {
      var i :| 0 <= i < |m.refs| && m.Streamed()[i] == c;
    }
  }

  predicate ChunksOf(m: Mosaic, t: nat, chunks: seq<Chunk>)
    requires m.Valid()
  {
    && (forall i :: 0 <= i < |chunks| ==> chunks[i] in m.Streamed() && chunks[i].tile == t)
    && (forall i :: 0 <= i < |m.refs| && m.Streamed()[i].tile == t ==> m.Streamed()[i] in chunks)
  }

  method CutOne(m: Mosaic, t: nat, chunks: seq<Chunk>, target: nat, width: nat) returns (next: seq<Weighed>)
    requires m.Valid() && target > 0 && chunks != [] && ChunksOf(m, t, chunks)
    ensures Cuts(next, ToSet(chunks)) && TileCut(next, chunks, target, width)
    ensures forall k :: 0 <= k < |next| ==>
              next[k].0.tile == t && next[k].0.NonEmpty() && InGrid(m, next[k].0)
  {
    next := CutTile(chunks, target, width);
    forall k | 0 <= k < |next|
      ensures InGrid(m, next[k].0)
    {
      EndsInGrid(m, next[k].0, chunks, t);
    }
  }

  /** The block ends no later than some streamed chunks of its tile. */
  predicate InGrid(m: Mosaic, b: ChunkBlock)
    requires m.Valid()
  {
    && (exists c :: c in m.Streamed() && c.tile == b.tile && b.colEnd <= c.col + 1)
    && (exists c :: c in m.Streamed() && c.tile == b.tile && b.rowEnd <= c.row + 1)
  }

  lemma EndsInGrid(m: Mosaic, b: ChunkBlock, chunks: seq<Chunk>, t: nat)
    requires m.Valid() && EndsWithin(b, chunks) && b.tile == t && ChunksOf(m, t, chunks)
    ensures InGrid(m, b)
  {
    var i :| 0 <= i < |chunks| && b.colEnd <= chunks[i].col + 1;
    var j :| 0 <= j < |chunks| && b.rowEnd <= chunks[j].row + 1;
    assert chunks[i] in m.Streamed() && chunks[j] in m.Streamed();
  }

  // ----- Packing -----

  function BlocksOf(blocks: seq<Weighed>): seq<ChunkBlock> {
    seq(|blocks|, k requires 0 <= k < |blocks| => blocks[k].0)
  }

  /** The streamed chunks in some blocks. */
  function Load(blocks: seq<ChunkBlock>, s: set<Chunk>): nat {
    if blocks == [] then 0
    else Load(blocks[..|blocks| - 1], s) + |Inside(s, blocks[|blocks| - 1])|
  }

  /** All blocks of a plan, in order. */
  function Flatten(plan: seq<ScanPartition>): seq<ChunkBlock> {
    if plan == [] then [] else Flatten(plan[..|plan| - 1]) + plan[|plan| - 1].blocks
  }

  lemma {:induction false} FlattenSnoc(plan: seq<ScanPartition>, p: ScanPartition)
    ensures Flatten(plan + [p]) == Flatten(plan) + p.blocks
  {
    assert (plan + [p])[..|plan|] == plan;
  }

  lemma {:induction false} LoadSnoc(blocks: seq<ChunkBlock>, b: ChunkBlock, s: set<Chunk>)
    ensures Load(blocks + [b], s) == Load(blocks, s) + |Inside(s, b)|
  {
    assert (blocks + [b])[..|blocks|] == blocks;
  }

  /** A partition within the target, or of a single block that exceeds it. */
  predicate Budgeted(blocks: seq<ChunkBlock>, s: set<Chunk>, target: nat) {
    blocks != [] && (Load(blocks, s) <= target || |blocks| == 1)
  }

  /** The first of the next blocks would exceed the target. */
  predicate NoRoom(blocks: seq<ChunkBlock>, next: seq<ChunkBlock>, s: set<Chunk>, target: nat) {
    next != [] && Load(blocks, s) + |Inside(s, next[0])| > target
  }

  /** No partition has room for the first block of the one that follows. */
  ghost predicate Full(plan: seq<ScanPartition>, s: set<Chunk>, target: nat) {
    forall j, k :: 0 <= j < k < |plan| && k == j + 1 ==> NoRoom(plan[j].blocks, plan[k].blocks, s, target)
  }

  /** The plan so far and the partition being filled hold the blocks in order. */
  ghost predicate Packed(plan: seq<ScanPartition>, current: seq<ChunkBlock>, blocks: seq<ChunkBlock>,
                         target: nat, fingerprint: int, s: set<Chunk>)
  {
    && Flatten(plan) + current == blocks
    && (forall k :: 0 <= k < |plan| ==>
          Budgeted(plan[k].blocks, s, target) && plan[k].fingerprint == fingerprint)
    && (current == [] || Budgeted(current, s, target))
    && Full(plan, s, target)
    && (plan != [] && current != [] ==> NoRoom(plan[|plan| - 1].blocks, current, s, target))
  }

  lemma PackFlush(plan: seq<ScanPartition>, current: seq<ChunkBlock>, blocks: seq<ChunkBlock>,
                  target: nat, fingerprint: int, s: set<Chunk>)
    requires Packed(plan, current, blocks, target, fingerprint, s) && current != []
    ensures Packed(plan + [ScanPartition(0, 0, fingerprint, current)], [], blocks, target, fingerprint, s)
  {
    var p := ScanPartition(0, 0, fingerprint, current);
    FlattenSnoc(plan, p);
    assert Flatten(plan + [p]) + [] == Flatten(plan + [p]);
  }

  lemma {:induction false} PackNext(plan: seq<ScanPartition>, current: seq<ChunkBlock>, blocks: seq<ChunkBlock>,
                 target: nat, fingerprint: int, s: set<Chunk>, b: ChunkBlock)
    requires Packed(plan, current, blocks, target, fingerprint, s)
    requires if current == [] then plan == [] || NoRoom(plan[|plan| - 1].blocks, [b], s, target)
             else Load(current, s) + |Inside(s, b)| <= target
    ensures Packed(plan, current + [b], blocks + [b], target, fingerprint, s)
  {
    LoadSnoc(current, b, s);
    assert Flatten(plan) + (current + [b]) == Flatten(plan) + current + [b];
  }

  /** The partition being filled, closed when the next block would exceed the target. */
  method PackTurn(plan: seq<ScanPartition>, current: seq<ChunkBlock>, currentChunks: nat, block: Weighed,
                  target: nat, fingerprint: int, ghost blocks: seq<ChunkBlock>, ghost s: set<Chunk>)
    returns (plan': seq<ScanPartition>, current': seq<ChunkBlock>, currentChunks': nat)
    requires Packed(plan, current, blocks, target, fingerprint, s) && (plan != [] ==> current != [])
    requires currentChunks == Load(current, s) && block.1 == |Inside(s, block.0)|
    ensures Packed(plan', current', blocks + [block.0], target, fingerprint, s) && current' != []
    ensures currentChunks' == Load(current', s)
  {
    plan', current', currentChunks' := plan, current, currentChunks;
    if current != [] && currentChunks + block.1 > target {
      PackFlush(plan, current, blocks, target, fingerprint, s);
      plan' := plan + [ScanPartition(0, 0, fingerprint, current)];
      current', currentChunks' := [], 0;
    }
    PackNext(plan', current', blocks, target, fingerprint, s, block.0);
    LoadSnoc(current', block.0, s);
    current' := current' + [block.0];
    currentChunks' := currentChunks' + block.1;
  }

  method Pack(blocks: seq<Weighed>, target: nat, fingerprint: int, ghost s: set<Chunk>)
    returns (plan: seq<ScanPartition>)
    requires forall k :: 0 <= k < |blocks| ==> blocks[k].1 == |Inside(s, blocks[k].0)|
    ensures Packed(plan, [], BlocksOf(blocks), target, fingerprint, s)
  {
    var current: seq<ChunkBlock>;
    plan, current := PackAll(blocks, target, fingerprint, s, BlocksOf(blocks));
    if current != [] {
      PackFlush(plan, current, BlocksOf(blocks), target, fingerprint, s);
      plan := plan + [ScanPartition(0, 0, fingerprint, current)];
    }
  }

  /** Fills partitions with all blocks; the last one stays open. */
  method PackAll(blocks: seq<Weighed>, target: nat, fingerprint: int, ghost s: set<Chunk>,
                 ghost all: seq<ChunkBlock>)
    returns (plan: seq<ScanPartition>, current: seq<ChunkBlock>)
    requires |all| == |blocks| && forall k :: 0 <= k < |blocks| ==> all[k] == blocks[k].0
    requires forall k :: 0 <= k < |blocks| ==> blocks[k].1 == |Inside(s, blocks[k].0)|
    ensures Packed(plan, current, all, target, fingerprint, s)
  {
    plan, current := [], [];
    var currentChunks := 0;
    for i := 0 to |blocks|
      invariant Packed(plan, current, all[..i], target, fingerprint, s)
      invariant currentChunks == Load(current, s) && (plan != [] ==> current != [])
    {
      plan, current, currentChunks :=
        PackTurn(plan, current, currentChunks, blocks[i], target, fingerprint, all[..i], s);
      assert all[..i + 1] == all[..i] + [blocks[i].0];
    }
    assert all[..|blocks|] == all;
  }

  /** Numbers the partitions. */
  method Number(plan: seq<ScanPartition>) returns (numbered: seq<ScanPartition>)
    ensures |numbered| == |plan| && Flatten(numbered) == Flatten(plan)
    ensures forall k :: 0 <= k < |plan| ==> numbered[k] == plan[k].(index := k, count := |plan|)
  {
    numbered := [];
    for i := 0 to |plan|
      invariant |numbered| == i && Flatten(numbered) == Flatten(plan[..i])
      invariant forall k :: 0 <= k < i ==> numbered[k] == plan[k].(index := k, count := |plan|)
    {
      var p := plan[i].(index := i, count := |plan|);
      assert plan[..i + 1] == plan[..i] + [plan[i]];
      FlattenSnoc(plan[..i], plan[i]);
      FlattenSnoc(numbered, p);
      numbered := numbered + [p];
    }
    assert plan[..|plan|] == plan;
  }

  /** The headers of the files of a plan's partitions, all scanned with the same options. */
  function HeadersOf(plan: seq<ScanPartition>, scan: string): seq<Header> {
    seq(|plan|, k requires 0 <= k < |plan| => Header(scan, plan[k]))
  }

  lemma {:induction false} HeadersFlatten(plan: seq<ScanPartition>, scan: string)
    ensures |AllBlocks(HeadersOf(plan, scan))| == |Flatten(plan)|
    ensures forall a :: 0 <= a < |Flatten(plan)| ==> AllBlocks(HeadersOf(plan, scan))[a].1 == Flatten(plan)[a]
  {
    if plan != [] {
      var n := |plan| - 1;
      HeadersFlatten(plan[..n], scan);
      assert HeadersOf(plan, scan)[..n] == HeadersOf(plan[..n], scan);
    }
  }

  lemma {:induction false} FlattenContains(plan: seq<ScanPartition>, a: nat, c: Chunk)
    requires a < |Flatten(plan)| && Flatten(plan)[a].Contains(c)
    ensures exists i :: 0 <= i < |plan| && plan[i].Contains(c)
  {
    var n := |plan| - 1;
    var front := Flatten(plan[..n]);
    if a < |front| {
      FlattenContains(plan[..n], a, c);
      var i :| 0 <= i < n && plan[..n][i].Contains(c);
      assert plan[i].Contains(c);
    } else {
      assert plan[n].blocks[a - |front|].Contains(c);
    }
  }

  /** What a plan must satisfy: numbered, each partition within the target or a single block but
      without room for the next one, and accepted by the check of the partition files with every
      streamed chunk covered. */
  ghost predicate GoodPlan(m: Mosaic, plan: seq<ScanPartition>, target: nat)
    requires m.Valid()
  {
    && (plan == [] <==> m.refs == [])
    && Numbered(plan, m.fingerprint)
    && (forall k :: 0 <= k < |plan| ==> Budgeted(plan[k].blocks, ToSet(m.Streamed()), target))
    && Full(plan, ToSet(m.Streamed()), target)
    && GoodBlocks(m, Flatten(plan))
    && (forall i :: 0 <= i < |m.refs| ==> Planned(plan, m.Position(m.refs[i])))
  }

  predicate Numbered(plan: seq<ScanPartition>, fingerprint: int) {
    forall k :: 0 <= k < |plan| ==>
      plan[k].index == k && plan[k].count == |plan| && plan[k].fingerprint == fingerprint
  }

  predicate GoodBlocks(m: Mosaic, blocks: seq<ChunkBlock>)
    requires m.Valid()
  {
    && (forall a, b :: 0 <= a < b < |blocks| ==> !Overlap(blocks[a], blocks[b]))
    && (forall a :: 0 <= a < |blocks| ==> blocks[a].NonEmpty() && InGrid(m, blocks[a]))
  }

  lemma BlocksAreGood(m: Mosaic, blocks: seq<Weighed>)
    requires m.Valid() && CutTiles(blocks, ToSet(m.Streamed()), |m.tiles|)
    requires forall k :: 0 <= k < |blocks| ==> InGrid(m, blocks[k].0)
    ensures GoodBlocks(m, BlocksOf(blocks))
  {}

  predicate Planned(plan: seq<ScanPartition>, c: Chunk) {
    exists i :: 0 <= i < |plan| && plan[i].Contains(c)
  }

  datatype PlanError = ZeroTarget

  /** The plan's blocks are the rectangles of the mosaic, in order. */
  ghost predicate PlanOf(m: Mosaic, plan: seq<ScanPartition>, target: nat, widths: nat -> nat)
    requires m.Valid()
  {
    exists blocks, cuts ::
      |cuts| == |m.tiles| && MosaicCut(m, blocks, cuts, target, widths) && Flatten(plan) == BlocksOf(blocks)
  }

  method PlanPartitions(m: Mosaic, target: nat, widths: nat -> nat)
    returns (r: Result<seq<ScanPartition>, PlanError>)
    requires m.Valid()
    ensures r.Err? <==> target == 0
    ensures r.Ok? ==> GoodPlan(m, r.value, target) && PlanOf(m, r.value, target, widths)
  {
    if target == 0 {
      return Err(ZeroTarget);
    }
    ghost var cuts;
    var blocks;
    blocks, cuts := CutMosaic(m, target, widths);
    var packed := Pack(blocks, target, m.fingerprint, ToSet(m.Streamed()));
    var plan := Number(packed);
    assert Flatten(packed) == Flatten(packed) + [];
    BlocksAreGood(m, blocks);
    PlanIsGood(m, blocks, plan, target);
    r := Ok(plan);
  }

  lemma {:induction false} PlanIsGood(m: Mosaic, blocks: seq<Weighed>, plan: seq<ScanPartition>, target: nat)
    requires m.Valid() && CutTiles(blocks, ToSet(m.Streamed()), |m.tiles|)
    requires GoodBlocks(m, BlocksOf(blocks)) && Flatten(plan) == BlocksOf(blocks)
    requires Numbered(plan, m.fingerprint)
    requires forall k :: 0 <= k < |plan| ==> Budgeted(plan[k].blocks, ToSet(m.Streamed()), target)
    requires Full(plan, ToSet(m.Streamed()), target)
    ensures GoodPlan(m, plan, target)
  {
    forall i | 0 <= i < |m.refs|
      ensures Planned(plan, m.Position(m.refs[i]))
    {
      RefPlanned(m, blocks, plan, i);
    }
    if plan != [] {
      PlanHasRefs(m, plan, target);
    }
    if m.refs != [] {
      RefPlanned(m, blocks, plan, 0);
    }
  }

  lemma {:induction false} PlanHasRefs(m: Mosaic, plan: seq<ScanPartition>, target: nat)
    requires m.Valid() && plan != [] && GoodBlocks(m, Flatten(plan))
    requires Budgeted(plan[|plan| - 1].blocks, ToSet(m.Streamed()), target)
    ensures m.refs != []
  {
    assert InGrid(m, Flatten(plan)[|Flatten(plan)| - 1]);
  }

  lemma {:induction false} RefPlanned(m: Mosaic, blocks: seq<Weighed>, plan: seq<ScanPartition>, i: nat)
    requires m.Valid() && CutTiles(blocks, ToSet(m.Streamed()), |m.tiles|)
    requires Flatten(plan) == BlocksOf(blocks) && i < |m.refs|
    ensures Planned(plan, m.Position(m.refs[i]))
  {
    var c := m.Streamed()[i];
    assert c in ToSet(m.Streamed());
    assert InSome(blocks, c);
    var k :| 0 <= k < |blocks| && blocks[k].0.Contains(c);
    FlattenContains(plan, k, c);
  }

  /** The files of a plan pass the check, and every streamed chunk is in exactly one of them. */
  lemma PlanAccepted(m: Mosaic, plan: seq<ScanPartition>, target: nat, scan: string)
    requires m.Valid() && GoodPlan(m, plan, target) && plan != []
    ensures Acceptable(HeadersOf(plan, scan))
    ensures forall i :: 0 <= i < |m.refs| ==>
              exists k :: 0 <= k < |plan| && plan[k].Contains(m.Position(m.refs[i]))
    ensures forall c, j, k :: 0 <= j < k < |plan| ==> !(plan[j].Contains(c) && plan[k].Contains(c))
  {
    var headers := HeadersOf(plan, scan);
    HeadersFlatten(plan, scan);
    forall k | 0 <= k < |plan|
      ensures Given(headers, k)
    {
      assert headers[k].partition.index == k;
    }
    forall i | 0 <= i < |m.refs|
      ensures exists k :: 0 <= k < |plan| && plan[k].Contains(m.Position(m.refs[i]))
    {
      assert Planned(plan, m.Position(m.refs[i]));
    }
    forall c, j, k | 0 <= j < k < |plan|
      ensures !(plan[j].Contains(c) && plan[k].Contains(c))
    {
      assert headers[j].partition == plan[j] && headers[k].partition == plan[k];
      if plan[j].Contains(c) && plan[k].Contains(c) {
        AcceptedAtMostOnce(headers, j, k, c);
      }
    }
  }

  // ----- Workers -----

  /** A worker's check that a partition was planned for its mosaic and fits it. */
  predicate ValidFor(p: ScanPartition, m: Mosaic) {
    && p.index < p.count && p.fingerprint == m.fingerprint
    && forall k :: 0 <= k < |p.blocks| ==> BlockFits(p.blocks[k], m)
  }

  predicate BlockFits(b: ChunkBlock, m: Mosaic) {
    && b.tile < |m.tiles| && b.NonEmpty()
    && b.colEnd <= m.tiles[b.tile].across && b.rowEnd <= m.tiles[b.tile].down
  }

  /** A block fits when it is not empty and all its cells lie in the grid of a tile. */
  lemma BlockFitsGrid(b: ChunkBlock, m: Mosaic)
    ensures BlockFits(b, m) <==>
              && b.NonEmpty()
              && forall c :: b.Contains(c) ==>
                   c.tile < |m.tiles| && c.col < m.tiles[c.tile].across && c.row < m.tiles[c.tile].down
  {
    if b.NonEmpty() {
      var last := Chunk(b.tile, b.colEnd - 1, b.rowEnd - 1);
      assert b.Contains(last);
    }
  }

  /** What a worker accepts: a partition of a plan for its mosaic, whose blocks fit. */
  lemma ValidForIs(p: ScanPartition, m: Mosaic)
    ensures ValidFor(p, m) <==>
              && p.index < p.count && p.fingerprint == m.fingerprint
              && forall b :: b in p.blocks ==> BlockFits(b, m)
  {}

  /** Every worker accepts its partition, when the mosaic's chunk indices lie in their grids. */
  lemma PlanValid(m: Mosaic, plan: seq<ScanPartition>, target: nat, k: nat)
    requires m.Valid() && GoodPlan(m, plan, target) && k < |plan| && IndicesFit(m)
    ensures ValidFor(plan[k], m)
  {
    forall j | 0 <= j < |plan[k].blocks|
      ensures BlockFits(plan[k].blocks[j], m)
    {
      var a := BlockInFlatten(plan, k, j);
      assert InGrid(m, Flatten(plan)[a]);
      InGridFits(m, Flatten(plan)[a]);
    }
  }

  lemma InGridFits(m: Mosaic, b: ChunkBlock)
    requires m.Valid() && InGrid(m, b) && b.NonEmpty() && IndicesFit(m)
    ensures BlockFits(b, m)
  {
    var c :| c in m.Streamed() && c.tile == b.tile && b.colEnd <= c.col + 1;
    var d :| d in m.Streamed() && d.tile == b.tile && b.rowEnd <= d.row + 1;
    var x :| 0 <= x < |m.refs| && m.Streamed()[x] == c;
    var y :| 0 <= y < |m.refs| && m.Streamed()[y] == d;
  }

  /** The chunk indices of the mosaic lie in the grids of their tiles. */
  predicate IndicesFit(m: Mosaic)
    requires m.Valid()
  {
    forall i :: 0 <= i < |m.refs| ==>
      var c := m.Streamed()[i];
      c.col < m.tiles[c.tile].across && c.row < m.tiles[c.tile].down
  }

  lemma {:induction false} BlockInFlatten(plan: seq<ScanPartition>, k: nat, j: nat) returns (a: nat)
    requires k < |plan| && j < |plan[k].blocks|
    ensures a < |Flatten(plan)| && Flatten(plan)[a] == plan[k].blocks[j]
  {
    var n := |plan| - 1;
    if k == n {
      a := |Flatten(plan[..n])| + j;
    } else {
      a := BlockInFlatten(plan[..n], k, j);
    }
  }

  // ----- Plans of one layout that differ -----

  /** A row of five chunks. */
  function FiveChunks(fingerprint: int): (m: Mosaic)
    ensures m.Valid()
  {
    Mosaic([Layout(5, 1)], seq(5, (i: nat) => ChunkRef(0, i)), fingerprint)
  }

  /** Its plans for three and for four chunks a partition, when rectangles are two chunks wide. */
  function PlanForThree(fingerprint: int): seq<ScanPartition> {
    [ScanPartition(0, 2, fingerprint, [Columns(0, 2)]),
     ScanPartition(1, 2, fingerprint, [Columns(2, 4), Columns(4, 5)])]
  }

  function PlanForFour(fingerprint: int): seq<ScanPartition> {
    [ScanPartition(0, 2, fingerprint, [Columns(0, 2), Columns(2, 4)]),
     ScanPartition(1, 2, fingerprint, [Columns(4, 5)])]
  }

  lemma FiveStreamed(fingerprint: int, c: Chunk)
    ensures c in ToSet(FiveChunks(fingerprint).Streamed()) <==> c.tile == 0 && c.col < 5 && c.row == 0
  {
    var m := FiveChunks(fingerprint);
    assert forall i :: 0 <= i < 5 ==> m.Streamed()[i] == Chunk(0, i, 0);
    if c.tile == 0 && c.col < 5 && c.row == 0 {
      assert m.Streamed()[c.col] == c;
    }
  }

  lemma {:induction false} FiveInside(fingerprint: int, start: nat, end: nat)
    requires start <= end <= 5
    ensures |Inside(ToSet(FiveChunks(fingerprint).Streamed()), Columns(start, end))| == end - start
  {
    var s := ToSet(FiveChunks(fingerprint).Streamed());
    if start == end {
      assert Inside(s, Columns(start, end)) == {};
    } else {
      FiveInside(fingerprint, start, end - 1);
      FiveStreamed(fingerprint, Chunk(0, end - 1, 0));
      NextColumn(s, Columns(start, end), 0, end - 1);
    }
  }

  lemma FiveInGrid(fingerprint: int, start: nat, end: nat)
    requires start < end <= 5
    ensures InGrid(FiveChunks(fingerprint), Columns(start, end))
  {
    var c := Chunk(0, end - 1, 0);
    FiveStreamed(fingerprint, c);
  }

  const THREE_BLOCKS := [Columns(0, 2), Columns(2, 4), Columns(4, 5)]

  lemma FiveBlocks(fingerprint: int)
    ensures GoodBlocks(FiveChunks(fingerprint), THREE_BLOCKS)
  {
    FiveInGrid(fingerprint, 0, 2);
    FiveInGrid(fingerprint, 2, 4);
    FiveInGrid(fingerprint, 4, 5);
  }

  lemma {:induction false} FivePlanned(fingerprint: int, plan: seq<ScanPartition>, i: nat)
    requires Flatten(plan) == THREE_BLOCKS && i < 5
    ensures Planned(plan, FiveChunks(fingerprint).Position(ChunkRef(0, i)))
  {
    var a := if i < 2 then 0 else if i < 4 then 1 else 2;
    assert THREE_BLOCKS[a].Contains(Chunk(0, i, 0));
    FlattenContains(plan, a, Chunk(0, i, 0));
  }

  lemma {:induction false} FlattenTwo(p: ScanPartition, q: ScanPartition)
    ensures Flatten([p, q]) == p.blocks + q.blocks
  {
    FlattenSnoc([], p);
    FlattenSnoc([p], q);
    assert [] + [p] == [p] && [p] + [q] == [p, q];
    assert [] + p.blocks == p.blocks;
  }

  /** Two partitions of the three blocks are a plan when each is within the target or one block. */
  lemma {:induction false} FivePlan(fingerprint: int, plan: seq<ScanPartition>, target: nat)
    requires |plan| == 2 && plan[0].blocks + plan[1].blocks == THREE_BLOCKS && Numbered(plan, fingerprint)
    requires forall k :: 0 <= k < 2 ==>
               Budgeted(plan[k].blocks, ToSet(FiveChunks(fingerprint).Streamed()), target)
    requires NoRoom(plan[0].blocks, plan[1].blocks, ToSet(FiveChunks(fingerprint).Streamed()), target)
    ensures GoodPlan(FiveChunks(fingerprint), plan, target)
  {
    var m := FiveChunks(fingerprint);
    FlattenTwo(plan[0], plan[1]);
    assert plan == [plan[0], plan[1]];
    FiveBlocks(fingerprint);
    forall i | 0 <= i < |m.refs|
      ensures Planned(plan, m.Position(m.refs[i]))
    {
      FivePlanned(fingerprint, plan, i);
    }
  }

  lemma {:induction false} LoadTwo(b: ChunkBlock, c: ChunkBlock, s: set<Chunk>)
    ensures Load([b, c], s) == |Inside(s, b)| + |Inside(s, c)|
  {
    LoadSnoc([], b, s);
    LoadSnoc([b], c, s);
    assert [] + [b] == [b] && [b] + [c] == [b, c];
  }

  lemma {:induction false} LoadOne(b: ChunkBlock, s: set<Chunk>)
    ensures Load([b], s) == |Inside(s, b)|
  {
    LoadSnoc([], b, s);
    assert [] + [b] == [b];
  }

  lemma ForThree(fingerprint: int)
    ensures GoodPlan(FiveChunks(fingerprint), PlanForThree(fingerprint), 3)
  {
    FiveInside(fingerprint, 0, 2);
    LoadOne(Columns(0, 2), ToSet(FiveChunks(fingerprint).Streamed()));
    FiveInside(fingerprint, 2, 4);
    FiveInside(fingerprint, 4, 5);
    LoadTwo(Columns(2, 4), Columns(4, 5), ToSet(FiveChunks(fingerprint).Streamed()));
    FivePlan(fingerprint, PlanForThree(fingerprint), 3);
  }

  lemma ForFour(fingerprint: int)
    ensures GoodPlan(FiveChunks(fingerprint), PlanForFour(fingerprint), 4)
  {
    FiveInside(fingerprint, 0, 2);
    FiveInside(fingerprint, 2, 4);
    FiveInside(fingerprint, 4, 5);
    LoadTwo(Columns(0, 2), Columns(2, 4), ToSet(FiveChunks(fingerprint).Streamed()));
    FivePlan(fingerprint, PlanForFour(fingerprint), 4);
  }

  /** The check of the files takes different plans with one partition count for overlapping, which they
      need not be: the first partition of one plan with the last of the other is accepted, although
      nobody scans the chunks 2 and 3. */
  lemma MixedPlansAccepted(scan: string, fingerprint: int)
    ensures GoodPlan(FiveChunks(fingerprint), PlanForThree(fingerprint), 3)
    ensures GoodPlan(FiveChunks(fingerprint), PlanForFour(fingerprint), 4)
    ensures var mixed := HeadersOf([PlanForThree(fingerprint)[0], PlanForFour(fingerprint)[1]], scan);
      && Acceptable(mixed)
      && forall i :: 0 <= i < 5 ==>
           (Covered(mixed, FiveChunks(fingerprint).Streamed()[i]) <==> i != 2 && i != 3)
  {
    ForThree(fingerprint);
    ForFour(fingerprint);
    MixturesAccepted(scan, fingerprint);
    assert HeadersOf([PlanForThree(fingerprint)[0], PlanForFour(fingerprint)[1]], scan)
        == Pair(scan, fingerprint, [Columns(0, 2)], [Columns(4, 5)]);
    assert forall i :: 0 <= i < 5 ==> FiveChunks(fingerprint).Streamed()[i] == Chunk(0, i, 0);
  }
}
