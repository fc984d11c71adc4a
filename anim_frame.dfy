/** Slicing a texture atlas into a grid of equally sized animation cells. */
module AnimFrames {
  import opened CArith

  /** `uint16_t`, the type of the cell dimensions the loader is given. */
  newtype u16 = x: int | 0 <= x < 0x1_0000

  /** What the rendering library's texture loader returns: the unsigned
      handle (0 when the image could not be loaded) and the image size in
      pixels. */
  datatype Texture = Texture(id: nat, width: int, height: int)

  /** A texture together with the grid that cuts it into cells: cell size,
      offset of a cell's centre, and the number of whole cells per axis. */
  datatype AnimFrame = AnimFrame(
    tex: Texture,
    cellW: int,
    cellH: int,
    centerW: int,
    centerH: int,
    xCellCount: int,
    yCellCount: int)

  /** The zero-initialised frame (`AnimFrame a = { 0 }`) holding `tex`. */
  function Blank(tex: Texture): (a: AnimFrame)
    ensures a.tex == tex
    ensures a.cellW == a.cellH == a.centerW == a.centerH == 0
    ensures a.xCellCount == a.yCellCount == 0
  {
    AnimFrame(tex, 0, 0, 0, 0, 0, 0)
  }

  /** The grid is usable: non-empty cells on a loaded texture. */
  predicate GridDefined(a: AnimFrame) {
    a.tex.id != 0 && a.cellW > 0 && a.cellH > 0
  }

  /** `n` whole cells of size `cell` is the most that fits along a side of
      length `len`, counting with C's truncation for a negative length. */
  predicate WholeCells(len: int, cell: int, n: int) {
    cell > 0 &&
    (len >= 0 ==> 0 <= n && n * cell <= len < (n + 1) * cell) &&
    (len < 0 ==> n <= 0 && -n * cell <= -len < (-n + 1) * cell)
  }

  /** Euclidean division of a non-negative length: the quotient counts the
      whole cells that fit. */
  lemma DivCountsWholeCells(m: nat, cell: int)
    requires cell > 0
    ensures 0 <= m / cell
    ensures (m / cell) * cell <= m < (m / cell + 1) * cell
  {
  }

  lemma WholeCellsOfTruncDiv(len: int, cell: int)
    requires cell > 0
    ensures WholeCells(len, cell, TruncDiv(len, cell))
  {
    var q := TruncDiv(len, cell);
    if len >= 0 {
      DivCountsWholeCells(len, cell);
    } else {
      DivCountsWholeCells(-len, cell);
      assert -q == (-len) / cell;
    }
  }

  /** Loading an atlas (`tex` is what the texture loader returned for the
      file) with the given cell size. A failed load, or a zero cell width or
      height, leaves every grid field at zero; otherwise the cell size is
      taken as given, the centre offset is half of it rounded down, and the
      cell counts are the texture size divided by the cell size. */
  function AnimFrameLoad(tex: Texture, cellWidth: u16, cellHeight: u16): (a: AnimFrame)
    ensures a.tex == tex
    ensures tex.id == 0 || cellWidth == 0 || cellHeight == 0 ==> a == Blank(tex)
    ensures tex.id != 0 && cellWidth != 0 && cellHeight != 0 ==>
      GridDefined(a) &&
      a.cellW == cellWidth as int && a.cellH == cellHeight as int &&
      0 <= a.cellW - 2 * a.centerW <= 1 && 0 <= a.cellH - 2 * a.centerH <= 1 &&
      a.xCellCount == TruncDiv(tex.width, a.cellW) &&
      a.yCellCount == TruncDiv(tex.height, a.cellH) &&
      WholeCells(tex.width, a.cellW, a.xCellCount) &&
      WholeCells(tex.height, a.cellH, a.yCellCount)
  {
    if tex.id == 0 then
      Blank(tex)
    else if cellWidth == 0 || cellHeight == 0 then
      Blank(tex).(cellW := 0, cellH := 0)
    else
      var cellW := cellWidth as int;
      var cellH := cellHeight as int;
      WholeCellsOfTruncDiv(tex.width, cellW);
      WholeCellsOfTruncDiv(tex.height, cellH);
      AnimFrame(tex, cellW, cellH, cellW / 2, cellH / 2,
                TruncDiv(tex.width, cellW), TruncDiv(tex.height, cellH))
  }

  /** A texture at least one cell wide and one cell high yields a grid with
      at least one cell. */
  lemma LoadedGridNonEmpty(tex: Texture, cellWidth: u16, cellHeight: u16)
    requires tex.id != 0 && cellWidth != 0 && cellHeight != 0
    requires tex.width >= cellWidth as int && tex.height >= cellHeight as int
    ensures var a := AnimFrameLoad(tex, cellWidth, cellHeight);
      a.xCellCount >= 1 && a.yCellCount >= 1 && a.xCellCount * a.yCellCount >= 1
  {
  }

  /** The grid of a loaded atlas with non-negative size never reaches past
      the texture: the counted cells cover at most its width and height. */
  lemma GridWithinTexture(tex: Texture, cellWidth: u16, cellHeight: u16)
    requires tex.id != 0 && cellWidth != 0 && cellHeight != 0
    requires tex.width >= 0 && tex.height >= 0
    ensures var a := AnimFrameLoad(tex, cellWidth, cellHeight);
      0 <= a.xCellCount * a.cellW <= tex.width &&
      0 <= a.yCellCount * a.cellH <= tex.height
  {
  }

  /** A texture narrower than one cell loads successfully but has no
      columns: the grid has a valid texture and a zero count. */
  lemma ZeroCountOnLoadedTexture()
    ensures var a := AnimFrameLoad(Texture(3, 10, 196), 12, 14);
      a.tex.id != 0 && a.xCellCount == 0 && a.yCellCount == 14
  {
  }

  /** The demo program slices its atlas into 12 x 14 pixel cells; a 72 x 196
      image then holds 6 columns and 14 rows. */
  lemma SlimeAtlasExample()
    ensures var a := AnimFrameLoad(Texture(3, 72, 196), 12, 14);
      a.cellW == 12 && a.cellH == 14 && a.centerW == 6 && a.centerH == 7 &&
      a.xCellCount == 6 && a.yCellCount == 14
  {
  }
}
