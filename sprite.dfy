/** A sprite: one animated instance drawn from a shared atlas, and the
    timer that steps it through the atlas's cells. */
module Sprites {
  import opened AnimFrames

  /** The pose ordinals (`SlimePose`). The ordinal is used directly in the
      row arithmetic of drawing, so the values are part of the atlas layout. */
  const IdlePose: int := 0
  const MovePose: int := 1
  /** Number of poses per sprite: the atlas holds this many rows per id. */
  const PoseCount: int := 2

  /** Everything a sprite holds, as a value. */
  datatype SpriteState = SpriteState(
    id: int,
    af: AnimFrame,
    pose: int,
    currFrame: int,
    nextFrameTime: real,
    frameTime: real,
    animate: bool,
    centerCoord: bool)

  /** Number of cells in the atlas grid; animation wraps at this count. */
  function TotalFrames(af: AnimFrame): int {
    af.xCellCount * af.yCellCount
  }

  /** The current frame addresses a cell of the grid. */
  predicate FrameInRange(s: SpriteState) {
    0 <= s.currFrame < TotalFrames(s.af)
  }

  /** One tick of the animation timer, `dt` seconds after the previous one.
      A sprite that does not animate is left alone. Otherwise the elapsed
      time accumulates; once it reaches the frame interval the timer restarts
      from zero (the excess is dropped) and the sprite moves on by exactly
      one frame, back to frame 0 when it runs past the last cell. */
  function Advance(s: SpriteState, dt: real): (r: SpriteState)
    ensures !s.animate ==> r == s
    ensures r == s.(frameTime := r.frameTime, currFrame := r.currFrame)
    ensures s.animate && s.frameTime + dt < s.nextFrameTime ==>
      r.frameTime == s.frameTime + dt && r.currFrame == s.currFrame
    ensures s.animate && s.frameTime + dt >= s.nextFrameTime ==>
      r.frameTime == 0.0 &&
      (r.currFrame == 0 <==> s.currFrame + 1 >= TotalFrames(s.af) || s.currFrame == -1) &&
      (r.currFrame != 0 ==> r.currFrame == s.currFrame + 1)
    ensures s.currFrame >= -1 ==> r.currFrame <= s.currFrame + 1
    ensures FrameInRange(s) ==> FrameInRange(r)
  {
    if !s.animate then
      s
    else
      var elapsed := s.frameTime + dt;
      if elapsed >= s.nextFrameTime then
        var next := s.currFrame + 1;
        s.(frameTime := 0.0, currFrame := if next >= TotalFrames(s.af) then 0 else next)
      else
        s.(frameTime := elapsed)
  }

  /** The sprite after one tick per element of `dts`, in order. */
  function Run(s: SpriteState, dts: seq<real>): SpriteState
    decreases |dts|
  {
    if dts == [] then s else Run(Advance(s, dts[0]), dts[1..])
  }

  /** However many ticks pass, a sprite that does not animate is unchanged. */
  lemma {:induction false} RunFrozen(s: SpriteState, dts: seq<real>)
    requires !s.animate
    ensures Run(s, dts) == s
    decreases |dts|
  {
    if dts != [] {
      RunFrozen(Advance(s, dts[0]), dts[1..]);
    }
  }

  /** Ticks change only the timer and the frame, and a frame inside the grid
      stays inside it. */
  lemma {:induction false} RunKeepsRange(s: SpriteState, dts: seq<real>)
    requires FrameInRange(s)
    ensures var r := Run(s, dts);
      FrameInRange(r) && r == s.(frameTime := r.frameTime, currFrame := r.currFrame)
    decreases |dts|
  {
    if dts != [] {
      RunKeepsRange(Advance(s, dts[0]), dts[1..]);
    }
  }

  /** The remainder is the one `r` in `[0, m)` with `x == q * m + r`. */
  lemma ModUnique(x: int, m: int, q: int, r: int)
    requires m > 0 && 0 <= r < m && x == q * m + r
    ensures x % m == r
  {
    var q', r' := x / m, x % m;
    assert x == q' * m + r' && 0 <= r' < m;
    var d := q - q';
    assert d * m == r' - r;
    assert -m < d * m < m;
    assert d == 0;
  }

  /** Moving on one frame with wrap-around, then `n` more, is moving on
      `n + 1` frames modulo the number of frames. */
  lemma WrapThenAdvance(c: int, n: nat, total: int)
    requires 0 <= c < total
    ensures ((if c + 1 >= total then 0 else c + 1) + n) % total == (c + 1 + n) % total
  {
    if c + 1 >= total {
      var q, r := n / total, n % total;
      assert n == q * total + r && 0 <= r < total;
      assert c + 1 + n == (q + 1) * total + r;
      ModUnique(c + 1 + n, total, q + 1, r);
    }
  }

  /** Ticks of at least one frame interval each advance the animation by
      exactly one frame per tick, however long each tick is, cycling through
      the grid's cells. */
  lemma {:induction false} RunOneFramePerTick(s: SpriteState, dts: seq<real>)
    requires s.animate && FrameInRange(s) && 0.0 <= s.frameTime
    requires forall i :: 0 <= i < |dts| ==> s.nextFrameTime <= dts[i]
    ensures Run(s, dts).currFrame == (s.currFrame + |dts|) % TotalFrames(s.af)
    ensures dts != [] ==> Run(s, dts).frameTime == 0.0
    decreases |dts|
  {
    var total := TotalFrames(s.af);
    if dts == [] {
      ModUnique(s.currFrame, total, 0, s.currFrame);
    } else {
      var t := Advance(s, dts[0]);
      var rest := dts[1..];
      assert t.frameTime == 0.0 && t.currFrame == (if s.currFrame + 1 >= total then 0 else s.currFrame + 1);
      assert forall i :: 0 <= i < |rest| ==> t.nextFrameTime <= rest[i] by {
        forall i | 0 <= i < |rest| ensures t.nextFrameTime <= rest[i] {
          assert rest[i] == dts[i + 1];
        }
      }
      RunOneFramePerTick(t, rest);
      WrapThenAdvance(s.currFrame, |rest|, total);
    }
  }

  /** On a grid with no cells, the first tick that reaches the frame
      interval wraps the frame to 0, and every later firing tick does the
      same: the frame stays 0 instead of the update doing nothing. */
  lemma {:induction false} RunZeroCells(s: SpriteState, dts: seq<real>)
    requires s.animate && TotalFrames(s.af) == 0 && s.currFrame >= 0 && 0.0 <= s.frameTime
    requires forall i :: 0 <= i < |dts| ==> s.nextFrameTime <= dts[i]
    ensures dts != [] ==> Run(s, dts).currFrame == 0 && Run(s, dts).frameTime == 0.0
    decreases |dts|
  {
    if dts != [] {
      var t := Advance(s, dts[0]);
      var rest := dts[1..];
      assert t.currFrame == 0 && t.frameTime == 0.0;
      assert forall i :: 0 <= i < |rest| ==> t.nextFrameTime <= rest[i] by {
        forall i | 0 <= i < |rest| ensures t.nextFrameTime <= rest[i] {
          assert rest[i] == dts[i + 1];
        }
      }
      RunZeroCells(t, rest);
    }
  }

  /** A sprite as the program holds it: a record the C code updates in place
      through a `Sprite*`. `State()` is its value. */
  class Sprite {
    var id: int
    var af: AnimFrame
    var pose: int
    var currFrame: int
    var nextFrameTime: real
    var frameTime: real
    var animate: bool
    var centerCoord: bool

    function State(): SpriteState
      reads this
    {
      SpriteState(id, af, pose, currFrame, nextFrameTime, frameTime, animate, centerCoord)
    }

    /** A sprite as its designated initialiser leaves it: the fields given,
        and a zeroed atlas until one is bound with Load. */
    constructor (id: int, pose: int, currFrame: int, nextFrameTime: real,
                 frameTime: real, animate: bool, centerCoord: bool)
      ensures State() == SpriteState(id, Blank(Texture(0, 0, 0)), pose, currFrame,
                                     nextFrameTime, frameTime, animate, centerCoord)
    {
      this.id := id;
      this.af := Blank(Texture(0, 0, 0));
      this.pose := pose;
      this.currFrame := currFrame;
      this.nextFrameTime := nextFrameTime;
      this.frameTime := frameTime;
      this.animate := animate;
      this.centerCoord := centerCoord;
    }

    /** Binds the sprite to an atlas (a copy of it); nothing else changes. */
    method Load(af: AnimFrame)
      modifies this
      ensures State() == old(State()).(af := af)
    {
      this.af := af;
    }

    /** One tick of the animation timer, `dt` being the time the rendering
        library reports since the previous tick. */
    method Update(dt: real)
      modifies this
      ensures State() == Advance(old(State()), dt)
    {
      if animate {
        frameTime := frameTime + dt;
        if frameTime >= nextFrameTime {
          frameTime := 0.0;
          currFrame := currFrame + 1;
          if currFrame >= af.xCellCount * af.yCellCount {
            currFrame := 0;
          }
        }
      }
    }
  }
}
