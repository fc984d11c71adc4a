/** Which cell of the atlas a sprite shows, and where it lands on screen:
    the arithmetic behind the sprite's draw call. The draw itself belongs to
    the rendering library; the model computes its arguments. */
module SpriteDrawing {
  import opened CArith
  import opened AnimFrames
  import opened Sprites

  datatype Option<T> = None | Some(value: T)

  datatype Vec2 = Vec2(x: real, y: real)

  datatype Rect = Rect(x: real, y: real, width: real, height: real)

  /** The arguments handed to the rendering library: the cell of the atlas
      to copy, the screen rectangle to copy it to, and the pivot of the
      destination rectangle (rotation is always 0). */
  datatype DrawCall = DrawCall(source: Rect, dest: Rect, origin: Vec2)

  /** The atlas row of the sprite's current pose. Rows are laid out
      `PoseCount` per sprite id, and the index wraps (C `%`) at the row count. */
  function Row(s: SpriteState): int
    requires s.af.yCellCount != 0
  {
    TruncRem(s.id * PoseCount + s.pose, s.af.yCellCount)
  }

  /** The atlas column of the sprite's current frame, wrapping (C `%`) at
      the column count. */
  function Column(s: SpriteState): int
    requires s.af.xCellCount != 0
  {
    TruncRem(s.currFrame, s.af.xCellCount)
  }

  /** Drawing a sprite at `position`. Nothing is drawn unless the atlas
      texture is valid (non-zero id; the code tests `id > 0`). The source is the cell at the sprite's
      column and row; the destination has the cell's size. For a
      centre-anchored sprite the destination is moved up and left by the
      centre offset and the pivot is that offset, so the cell's centre sits
      at `position`; otherwise the top-left corner does and the pivot is (0,0).
      The grid counts must be non-zero for a valid texture: the source
      divides by them. */
  function Draw(s: SpriteState, position: Vec2): (d: Option<DrawCall>)
    requires s.af.tex.id > 0 ==> s.af.xCellCount != 0 && s.af.yCellCount != 0
    ensures d.None? <==> s.af.tex.id == 0
    ensures d.Some? ==>
      d.value.source == Rect((Column(s) * s.af.cellW) as real, (Row(s) * s.af.cellH) as real,
                             s.af.cellW as real, s.af.cellH as real)
    ensures d.Some? ==>
      d.value.dest.width == s.af.cellW as real && d.value.dest.height == s.af.cellH as real &&
      d.value.dest.x + d.value.origin.x == position.x &&
      d.value.dest.y + d.value.origin.y == position.y
    ensures d.Some? && s.centerCoord ==>
      d.value.origin == Vec2(s.af.centerW as real, s.af.centerH as real)
    ensures d.Some? && !s.centerCoord ==>
      d.value.origin == Vec2(0.0, 0.0) && d.value.dest.x == position.x && d.value.dest.y == position.y
  {
    if s.af.tex.id > 0 then
      var af := s.af;
      var poseFrame := (Row(s) * af.cellH) as real;
      var source := Rect(Column(s) as real * af.cellW as real, poseFrame,
                         af.cellW as real, af.cellH as real);
      var topLeft := Rect(position.x, position.y, af.cellW as real, af.cellH as real);
      if s.centerCoord then
        Some(DrawCall(source,
                      topLeft.(x := position.x - af.centerW as real, y := position.y - af.centerH as real),
                      Vec2(af.centerW as real, af.centerH as real)))
      else
        Some(DrawCall(source, topLeft, Vec2(0.0, 0.0)))
    else
      None
  }

  /** For a sprite with non-negative id, pose and frame on a grid with
      positive counts, the source is the cell in column `currFrame mod
      columns` and row `(id * PoseCount + pose) mod rows`, and it lies inside
      the part of the texture the grid covers. */
  lemma SourceCellInGrid(s: SpriteState, position: Vec2)
    requires s.af.tex.id > 0 && s.af.xCellCount > 0 && s.af.yCellCount > 0
    requires s.af.cellW >= 0 && s.af.cellH >= 0
    requires s.id >= 0 && s.pose >= 0 && s.currFrame >= 0
    ensures var src := Draw(s, position).value.source;
      src.x == ((s.currFrame % s.af.xCellCount) * s.af.cellW) as real &&
      src.y == (((s.id * PoseCount + s.pose) % s.af.yCellCount) * s.af.cellH) as real &&
      0.0 <= src.x && src.x + src.width <= (s.af.xCellCount * s.af.cellW) as real &&
      0.0 <= src.y && src.y + src.height <= (s.af.yCellCount * s.af.cellH) as real
  {
    var af := s.af;
    var col, row := Column(s), Row(s);
    assert col == s.currFrame % af.xCellCount;
    assert row == (s.id * PoseCount + s.pose) % af.yCellCount;
    assert 0 <= col < af.xCellCount && 0 <= row < af.yCellCount;
    CellFits(col, af.xCellCount, af.cellW);
    CellFits(row, af.yCellCount, af.cellH);
  }

  /** Cell `i` of `n`, each `size` wide, ends no later than the `n`th. */
  lemma CellFits(i: int, n: int, size: int)
    requires 0 <= i < n && size >= 0
    ensures 0 <= i * size && i * size + size <= n * size
  {
    assert i * size + size == (i + 1) * size;
    assert (i + 1) * size <= n * size;
  }

  /** End to end: a sprite bound to an atlas loaded with non-zero cell size
      from a texture at least one cell in each direction shows a cell that
      lies inside the texture. */
  lemma LoadedSpriteDrawsInsideTexture(tex: Texture, cellWidth: u16, cellHeight: u16,
                                       s: SpriteState, position: Vec2)
    requires tex.id != 0 && cellWidth != 0 && cellHeight != 0
    requires tex.width >= cellWidth as int && tex.height >= cellHeight as int
    requires s.af == AnimFrameLoad(tex, cellWidth, cellHeight)
    requires s.id >= 0 && s.pose >= 0 && s.currFrame >= 0
    ensures Draw(s, position).Some?
    ensures var src := Draw(s, position).value.source;
      0.0 <= src.x && src.x + src.width <= tex.width as real &&
      0.0 <= src.y && src.y + src.height <= tex.height as real
  {
    LoadedGridNonEmpty(tex, cellWidth, cellHeight);
    GridWithinTexture(tex, cellWidth, cellHeight);
    SourceCellInGrid(s, position);
  }

  /** Sprite 2 in its moving pose at frame 5, on a grid of 6 columns and 14
      rows of 12 x 14 pixel cells, shows the cell at (60, 70). */
  lemma DrawExampleSource(position: Vec2)
    ensures var s := SpriteState(2, AnimFrame(Texture(1, 72, 196), 12, 14, 6, 7, 6, 14),
                                 MovePose, 5, 0.0625, 0.0, true, true);
      Draw(s, position).value.source == Rect(60.0, 70.0, 12.0, 14.0)
  {
  }

  /** A 12 x 14 cell with centre offset (6, 7) drawn at (100, 200): anchored
      at its centre it covers from (94, 193) with pivot (6, 7), anchored at
      its corner it covers from (100, 200) with pivot (0, 0). */
  lemma DrawExampleAnchors(s: SpriteState)
    requires s.af.tex.id > 0 && s.af.xCellCount != 0 && s.af.yCellCount != 0
    requires s.af.cellW == 12 && s.af.cellH == 14 && s.af.centerW == 6 && s.af.centerH == 7
    ensures var d := Draw(s.(centerCoord := true), Vec2(100.0, 200.0)).value;
      d.dest == Rect(94.0, 193.0, 12.0, 14.0) && d.origin == Vec2(6.0, 7.0)
    ensures var d := Draw(s.(centerCoord := false), Vec2(100.0, 200.0)).value;
      d.dest == Rect(100.0, 200.0, 12.0, 14.0) && d.origin == Vec2(0.0, 0.0)
  {
  }
}
