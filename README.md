# Sprite-sheet animation, modelled in Dafny

This project models the sprite bookkeeping of a small raylib demo (`spr1.c`).
The demo loads one texture atlas and cuts it into a grid of equal cells.
Each sprite keeps an animation timer that steps it through the cells.
Drawing a sprite maps its (id, pose, frame) triple to one cell of the atlas and to a screen rectangle.
The space key switches every sprite of the roster between its idle and moving poses.

Modules, one per component:

- `CArith` (`c_arith.dfy`): C99 integer `/` and `%`, which truncate toward zero. Dafny's own operators are Euclidean.
- `AnimFrames` (`anim_frame.dfy`): the texture record, the `AnimFrame` grid descriptor and `AnimFrameLoad`.
- `Sprites` (`sprite.dfy`): the sprite as a value (`SpriteState`) and the timer step `Advance`. It also holds `Run`, which applies `Advance` once per tick, and the class `Sprite`, whose methods update the fields in place as the C code does through a `Sprite*`.
- `SpriteDrawing` (`sprite_draw.dfy`): the arguments of the draw call (source cell, destination rectangle, pivot), or none for an invalid texture.
- `Roster` (`roster.dfy`): the pose switch, and the loop that applies it in place to every sprite of the roster array.

The rendering library is replaced by parameters:

- the `Texture` record `(id, width, height)` stands for what the texture loader returns;
- `dt` stands for the frame time the library reports;
- `spacePressed` stands for the key poll;
- `Draw` returns the draw call's arguments instead of making the call.

Modelling choices:

- Times (`frame_time`, `next_frame_time`, `dt`) and screen positions are exact `real`s.
- Integers are unbounded. C `/` and `%` are modelled with truncation toward zero, so the cell counts and the column behave as in C for negative texture sizes and frame numbers; for the row see the `SpriteDrawing.Draw` caveat under "## Left out".
- The cell-size parameters are `uint16_t` in the source and are modelled as the `u16` newtype.
- The pose is kept as its integer ordinal (`IdlePose = 0`, `MovePose = 1`, `PoseCount = 2`, the `END_POSE` of the source). The source stores the enum and uses its ordinal in arithmetic.
- The texture id is a `nat`: raylib's texture handle is an `unsigned int`. The loader tests `id == 0` and drawing tests `id > 0`, exactly as written; on an unsigned id the two tests agree.

Two behaviours of the code worth noting:

- A grid with zero cells (zero cell size, or a texture smaller than one cell) is not a no-op in the update step. When the timer fires, it is still reset to 0 and a non-negative frame goes to 0 (`Advance`, `RunZeroCells`).
- Loading does not guarantee at least one cell. The counts are 0 when the texture is smaller than a cell (`LoadedGridNonEmpty` needs the texture to be at least one cell in each direction).
- The program can reach a division by zero. A texture that loads but is smaller than one cell, or a zero cell size, gives a non-zero texture id with a zero count; the program only checks the id (spr1.c:188), so drawing then takes `% 0` (spr1.c:147, 151). `ZeroCountOnLoadedTexture` exhibits such an atlas. `Draw` requires non-zero counts for a valid texture, and `LoadedGridNonEmpty`'s hypotheses (non-zero cell size, texture at least one cell in each direction) are what rule the case out.

## Model

| member | source | states |
|---|---|---|
| `CArith.TruncDiv` | spr1.c:39-40 | the quotient of C integer division: the remainder it leaves is smaller than the divisor in magnitude and has the dividend's sign; for non-negative operands it is floor division |
| `CArith.TruncRem` | spr1.c:147-151 | C's `%`: `a == (a / b) * b + r` with C's `/`, `|r| < |b|`, `r` has the sign of `a`; for non-negative operands it is Dafny's `%` |
| `AnimFrames.Blank` | spr1.c:23 | the zero-initialised descriptor keeps the loaded texture and has every grid field 0 |
| `AnimFrames.AnimFrameLoad` | spr1.c:21-43 | the texture is kept as loaded; a failed load (id 0) or a zero cell width or height leaves all six grid fields 0; otherwise the cell size is the one given, the centre offset is half of it rounded down, and the counts are C's `width / cellW` and `height / cellH`, i.e. the number of whole cells that fit |
| `AnimFrames.LoadedGridNonEmpty` | spr1.c:39-40 | a loaded texture at least one cell wide and high yields at least one column, one row and one cell |
| `AnimFrames.GridWithinTexture` | spr1.c:39-40 | the counted columns and rows cover at most the texture's width and height |
| `AnimFrames.ZeroCountOnLoadedTexture` | spr1.c:39-40 | a 10 x 196 texture loaded with 12 x 14 cells succeeds (non-zero id) yet has zero columns, so the count drawing divides by is 0 |
| `AnimFrames.SlimeAtlasExample` | spr1.c:186 | 12 x 14 cells on a 72 x 196 atlas give centre (6, 7) and a 6 x 14 grid |
| `Sprites.Advance` | spr1.c:124-137 | a sprite that does not animate is unchanged; only the timer and the frame ever change; below the interval the timer grows by exactly `dt`; on reaching it the timer becomes 0 and the frame moves on by one, becoming 0 exactly when it reaches the cell count or starts from -1; the frame never grows by more than one; a frame inside the grid stays inside it |
| `Sprites.RunFrozen` | spr1.c:126 | any number of ticks leaves a non-animating sprite unchanged |
| `Sprites.RunKeepsRange` | spr1.c:131-134 | over any number of ticks, `0 <= frame < columns * rows` is preserved and only timer and frame change |
| `Sprites.RunZeroCells` | spr1.c:128-134 | on a grid with zero cells, an animating sprite at a non-negative frame and a non-negative timer is at frame 0 with its timer at 0 after one or more ticks each at least one interval long: every firing tick wraps the frame to 0 instead of doing nothing |
| `Sprites.RunOneFramePerTick` | spr1.c:127-134 | ticks each at least one interval long advance the frame by exactly one per tick, however long they are: after `n` ticks the frame is `(start + n) mod cells` and the timer is 0 |
| `Sprites.Sprite.constructor` | spr1.c:67-77 | a new sprite has the given fields and a zeroed atlas |
| `Sprites.Sprite.Load` | spr1.c:80-83 | binding an atlas replaces the sprite's atlas copy and nothing else |
| `Sprites.Sprite.Update` | spr1.c:124-137 | the in-place update leaves the sprite in the state `Advance` gives for the old state and `dt` |
| `SpriteDrawing.Draw` | spr1.c:142-175 | nothing is drawn exactly when the texture id is 0; the source is the cell at C's `frame % columns` and `(id * PoseCount + pose) % rows`, of the cell's size; the destination has the cell's size and destination corner plus pivot is the draw position; centre-anchored sprites get the centre offset as pivot, others pivot (0, 0) and the position as corner |
| `SpriteDrawing.SourceCellInGrid` | spr1.c:147-155 | for non-negative id, pose and frame on a grid with positive counts, the source cell lies inside the `columns * cellW` by `rows * cellH` region of the texture |
| `SpriteDrawing.LoadedSpriteDrawsInsideTexture` | spr1.c:144-155 | a sprite bound to a successfully loaded atlas (non-zero id, the loader's own success test) at least one cell in size is drawn, and its source cell lies inside the texture |
| `SpriteDrawing.DrawExampleSource` | spr1.c:147-155 | sprite 2, moving, frame 5, on a 6 x 14 grid of 12 x 14 cells shows the cell at (60, 70) |
| `SpriteDrawing.DrawExampleAnchors` | spr1.c:157-171 | a 12 x 14 cell with centre (6, 7) at (100, 200) covers from (94, 193) with pivot (6, 7) when centre-anchored, and from (100, 200) with pivot (0, 0) otherwise |
| `Roster.TogglePose` | spr1.c:211-215 | idle becomes moving and every other pose becomes idle; the result is always idle or moving |
| `Roster.ToggleTwice` | spr1.c:211-215 | switching twice restores an idle or moving pose |
| `Roster.TogglePoses` | spr1.c:209-216 | when the key was pressed every roster sprite's pose is switched, otherwise kept; no other field and no roster entry changes |
| `Roster.ToggleTwiceRestores` | spr1.c:209-216 | two presses restore every sprite whose pose was idle or moving to its exact former state |

## Left out

- The rendering library: window setup, the texture loader, texture release (`AnimFrameUnload`), the draw and text calls, frame pacing, key polling and the frame-time query, and the `printf` diagnostic printed when the texture fails to load (spr1.c:27). These are library calls with no behaviour visible to the model; they become parameters or results as described above.
- The main loop's own control flow: the load-failure exit, binding the atlas to every sprite and calling update and draw per sprite. Each step is modelled on its own, but the loop around them is not.
- The arrow-key movement of the sprites' screen positions, which is floating-point screen arithmetic.
- Floating-point rounding of the timer and of the rectangles; the model computes them exactly.
- 32-bit signed overflow (`curr_frame++`, `id * END_POSE`, `xCellCount * yCellCount`), which is undefined behaviour in C; the model's integers are unbounded.
- The unused `Direction` enum, the unused `frame_counter` field and the initialiser table of the 14 sprites, which is data only.
- SpriteDrawing.Draw: requires non-zero column and row counts for a valid texture, because the C code divides by them (a zero count is a division by zero, which C leaves undefined).
- SpriteDrawing.Draw: computes the row as if `SlimePose` were a signed type. C leaves an enum's integer type to the implementation, and GCC and Clang make `SlimePose` an `unsigned int`; then a negative `id * END_POSE + pose` wraps modulo 2^32 (and the row count is converted to unsigned) before `%`, so for a negative id, or a negative row count (a negative texture height), the model's row differs from what such a compiler computes. For non-negative ids and poses and a positive row count the two agree.
