/** Frame animations of a sprite sheet: each animation walks through a list
    of frames, each shown for a duration, repeating forever (`repeat == 0`)
    or a fixed number of times; the animator owns the sheet's frame
    rectangles and the animations, one of which is current. Elapsed time is
    passed in as `dt` (seconds). */
module FrameAnimation {
  import opened Common
  import opened Grid

  datatype Frame = Frame(id: byte, duration: real)

  /** The moving part of an animation: how many times it has run past its
      end, the time spent on the current frame, and the current frame. */
  datatype Cursor = Cursor(repeated: int, time: real, frame: nat)

  /** A limited animation that has used up its repeats stands still. */
  predicate Exhausted(repeat: int, repeated: int)
  {
    repeated >= repeat && repeat != 0
  }

  /** `Animation::update` on values: the new cursor, and whether the frame
      to show changed. The frame only moves when the time spent reaches the
      current frame's duration, which is then taken off the time. Past the
      last frame an endless animation starts over at frame 0 with no time
      spent; a limited one counts one more run and stays on its last frame.
      The answer compares the new frame with the old one, except that a
      cursor with no time spent always answers true. */
  function Step(repeat: int, frames: seq<Frame>, c: Cursor, dt: real): (r: (Cursor, bool))
    requires c.frame < |frames|
    ensures r.0.frame < |frames|
    ensures Exhausted(repeat, c.repeated) ==> r == (c, false)
    ensures !Exhausted(repeat, c.repeated) ==> (r.1 <==> c.time == 0.0 || r.0.frame != c.frame)
  {
    if Exhausted(repeat, c.repeated) then (c, false)
    else
      var last := |frames| - 1;
      var d := frames[c.frame].duration;
      var t := c.time + dt;
      var (t1, f1) := if t >= d then (t - d, c.frame + 1) else (t, c.frame);
      var next :=
        if f1 > last then
          (if repeat == 0 then Cursor(c.repeated, 0.0, 0) else Cursor(c.repeated + 1, t1, last))
        else Cursor(c.repeated, t1, f1);
      (next, c.time == 0.0 || next.frame != c.frame)
  }

  /** The three ways a live cursor moves: it stays on its frame while the
      frame's duration is not reached; otherwise it moves on by exactly one
      frame, keeping the time beyond the duration; past the last frame it
      wraps to the start (endless) or counts a run and stays (limited). */
  lemma StepCases(repeat: int, frames: seq<Frame>, c: Cursor, dt: real)
    requires c.frame < |frames| && !Exhausted(repeat, c.repeated)
    ensures var d := frames[c.frame].duration; var n := Step(repeat, frames, c, dt).0;
      && (c.time + dt < d ==> n == c.(time := c.time + dt))
      && (c.time + dt >= d && c.frame + 1 < |frames| ==>
            n == Cursor(c.repeated, c.time + dt - d, c.frame + 1))
      && (c.time + dt >= d && c.frame + 1 == |frames| && repeat == 0 ==>
            n == Cursor(c.repeated, 0.0, 0))
      && (c.time + dt >= d && c.frame + 1 == |frames| && repeat != 0 ==>
            n == Cursor(c.repeated + 1, c.time + dt - d, c.frame))
  {
  }

  /** A well-formed cursor: on a frame, with non-negative time, and (for a
      limited animation) at most `repeat` runs counted. */
  predicate Sound(repeat: int, frames: seq<Frame>, c: Cursor)
  {
    c.frame < |frames| && c.time >= 0.0 && (repeat > 0 ==> 0 <= c.repeated <= repeat)
  }

  /** Updates keep a cursor well-formed when time does not run backwards and
      frame durations are not negative; in particular the frame index never
      leaves the frame list and the run count never passes `repeat`. */
  lemma StepKeepsSound(repeat: int, frames: seq<Frame>, c: Cursor, dt: real)
    requires Sound(repeat, frames, c) && dt >= 0.0
    requires forall i :: 0 <= i < |frames| ==> frames[i].duration >= 0.0
    ensures Sound(repeat, frames, Step(repeat, frames, c, dt).0)
  {
    if !Exhausted(repeat, c.repeated) {
      StepCases(repeat, frames, c, dt);
    }
  }

  /** A single frame of zero duration (`Animation::oneFrame`) shows that
      frame forever and reports a change on every update, since its time is
      reset to 0 each time. */
  lemma OneFrameRedraws(id: byte, dt: real)
    requires dt >= 0.0
    ensures Step(0, [Frame(id, 0.0)], Cursor(0, 0.0, 0), dt) == (Cursor(0, 0.0, 0), true)
  {
  }

  class Animation {
    var name: string
    var repeat: int
    var repeated: int
    var frames: seq<Frame>
    var currentTime: real
    var currentFrame: nat

    function Position(): Cursor
      reads this
    {
      Cursor(repeated, currentTime, currentFrame)
    }

    /** `Animation::oneFrame`: one frame of zero duration, endless. */
    constructor OneFrame(animName: string, id: byte)
      ensures name == animName && repeat == 0 && frames == [Frame(id, 0.0)]
      ensures Position() == Cursor(0, 0.0, 0)
    {
      name := animName;
      repeat := 0;
      repeated := 0;
      frames := [Frame(id, 0.0)];
      currentTime := 0.0;
      currentFrame := 0;
    }

    /** Advances by `dt` seconds and answers whether the frame to show
        changed. An empty frame list is a panic. */
    method Update(dt: real) returns (changed: bool)
      requires currentFrame < |frames|
      modifies this`repeated, this`currentTime, this`currentFrame
      ensures (Position(), changed) == Step(repeat, frames, old(Position()), dt)
    {
      if repeated >= repeat && repeat != 0 {
        return false;
      }
      // `usize::MAX` in the source: no frame at all
      var prev: Option<nat> := if currentTime == 0.0 then None else Some(currentFrame);
      currentTime := currentTime + dt;
      if currentTime >= frames[currentFrame].duration {
        currentTime := currentTime - frames[currentFrame].duration;
        currentFrame := currentFrame + 1;
      }
      if currentFrame > |frames| - 1 {
        if repeat == 0 {
          currentFrame := 0;
          currentTime := 0.0;
        } else {
          repeated := repeated + 1;
        }
      }
      currentFrame := if currentFrame > |frames| - 1 then |frames| - 1 else currentFrame;
      changed := prev.None? || currentFrame != prev.value;
    }

    function CurrentFrameId(): byte
      reads this
      requires currentFrame < |frames|
    {
      frames[currentFrame].id
    }
  }

  datatype IVec2 = IVec2(x: int, y: int)

  /** A rectangle in texture coordinates (`FRect`). */
  datatype FRect = FRect(x: real, y: real, w: real, h: real)

  const ZeroRect := FRect(0.0, 0.0, 0.0, 0.0)

  /** The rectangle of the cell at `o`, in texture coordinates (fractions of
      the sheet's size). */
  function CellRect(size: IVec2, frame: IVec2, o: (int, int)): FRect
    requires size.x > 0 && size.y > 0
  {
    FRect(o.0 as real / size.x as real, o.1 as real / size.y as real,
          frame.x as real / size.x as real, frame.y as real / size.y as real)
  }

  /** Every origin lies inside the sheet. */
  predicate Inside(size: IVec2, origins: seq<(int, int)>)
  {
    forall k :: 0 <= k < |origins| ==> 0 <= origins[k].0 < size.x && 0 <= origins[k].1 < size.y
  }

  /** The rectangles of a list of cell origins, in the same order. */
  function CellRects(size: IVec2, frame: IVec2, origins: seq<(int, int)>): (r: seq<FRect>)
    requires Inside(size, origins)
    ensures |r| == |origins|
    ensures forall k :: 0 <= k < |r| ==> r[k] == CellRect(size, frame, origins[k])
  {
    if origins == [] then []
    else CellRects(size, frame, origins[..|origins| - 1]) + [CellRect(size, frame, origins[|origins| - 1])]
  }

  lemma CellRectsAppend(size: IVec2, frame: IVec2, a: seq<(int, int)>, b: seq<(int, int)>)
    requires Inside(size, a) && Inside(size, b)
    ensures Inside(size, a + b)
    ensures CellRects(size, frame, a + b) == CellRects(size, frame, a) + CellRects(size, frame, b)
  {
    assert forall k :: 0 <= k < |a + b| ==> (a + b)[k] == if k < |a| then a[k] else b[k - |a|];
  }

  class Animator {
    var size: IVec2
    var frame: IVec2
    var animations: seq<Animation>
    var currentAnimation: nat
    var frames: seq<FRect>

    constructor New()
      ensures size == IVec2(0, 0) && frame == IVec2(0, 0)
      ensures animations == [] && currentAnimation == 0 && frames == []
    {
      size := IVec2(0, 0);
      frame := IVec2(0, 0);
      animations := [];
      currentAnimation := 0;
      frames := [];
    }

    /** The current animation exists and is on one of its frames, whenever
        there are animations at all. */
    predicate CurrentReady()
      reads this, animations
    {
      |animations| > 0 ==>
        currentAnimation < |animations| &&
        animations[currentAnimation].currentFrame < |animations[currentAnimation].frames|
    }

    /** Advances the current animation; false with no animations. */
    method Update(dt: real) returns (changed: bool)
      requires CurrentReady()
      modifies if currentAnimation < |animations| then {animations[currentAnimation]} else {}
      ensures |animations| == 0 ==> !changed
      ensures |animations| > 0 ==>
        var a := animations[currentAnimation];
        (a.Position(), changed) == Step(old(a.repeat), old(a.frames), old(a.Position()), dt) &&
        a.name == old(a.name) && a.frames == old(a.frames) && a.repeat == old(a.repeat)
      ensures CurrentReady()
    {
      if |animations| == 0 {
        return false;
      }
      changed := animations[currentAnimation].Update(dt);
    }

    /** `calculateFrames`: the sheet cut into cells, row by row. */
    method CalculateFrames()
      requires Finite(size.x, size.y, frame.x, frame.y)
      modifies this`frames
      ensures frames == CellRects(size, frame, Origins(size.x, size.y, frame.x, frame.y))
    {
      frames := [];
      var y := 0;
      var w, h, fw, fh := size.x, size.y, frame.x, frame.y;
      ghost var emitted: seq<(int, int)> := [];
      while y < h
        invariant y >= 0
        invariant emitted + RowsFrom(w, h, fw, fh, y) == Origins(w, h, fw, fh)
        invariant Inside(size, emitted)
        invariant frames == CellRects(size, frame, emitted)
        decreases h - y
      {
        ScanRow(emitted, w, h, fw, fh, y);
        PushRow(y);
        CellRectsAppend(size, frame, emitted, RowFrom(w, fw, 0, y));
        emitted := emitted + RowFrom(w, fw, 0, y);
        y := y + fh;
      }
    }

    /** The inner loop of `calculateFrames`: the cells of row `y`, left to
        right, appended to the list. */
    method PushRow(y: int)
      requires 0 <= y < size.y && (size.x > 0 ==> frame.x > 0)
      modifies this`frames
      ensures Inside(size, RowFrom(size.x, frame.x, 0, y))
      ensures frames == old(frames) + CellRects(size, frame, RowFrom(size.x, frame.x, 0, y))
    {
      var x := 0;
      var w, fw := size.x, frame.x;
      RowInSheet(w, fw, 0, y);
      ghost var done: seq<(int, int)> := [];
      while x < w
        invariant x >= 0
        invariant done + RowFrom(w, fw, x, y) == RowFrom(w, fw, 0, y)
        invariant Inside(size, done)
        invariant frames == old(frames) + CellRects(size, frame, done)
        decreases w - x
      {
        ScanCell(done, w, fw, x, y);
        frames := frames + [CellRect(size, frame, (x, y))];
        assert (done + [(x, y)])[..|done|] == done;
        done := done + [(x, y)];
        x := x + fw;
      }
      assert done == RowFrom(w, fw, 0, y);
    }

    /** The rectangle of the frame to show: the zero rectangle with no frame
        rectangles or no animations, else the rectangle the current frame's
        id names (an id past the list is a panic). */
    function GetCurrentFrame(): (r: FRect)
      reads this, animations
      requires CurrentReady()
      requires |frames| > 0 && |animations| > 0 ==>
        animations[currentAnimation].CurrentFrameId() < |frames|
      ensures |frames| == 0 || |animations| == 0 ==> r == ZeroRect
      ensures |frames| > 0 && |animations| > 0 ==>
        r == frames[animations[currentAnimation].CurrentFrameId()]
    {
      if |frames| == 0 then ZeroRect
      else if |animations| == 0 then ZeroRect
      else frames[animations[currentAnimation].CurrentFrameId()]
    }

    /** The animation `setCurrentAnimation(name)` switches to: the first
        one from position `i` on that has that name and is not current. */
    function SwitchTarget(name: string, i: nat): (r: Option<nat>)
      reads this, animations
      ensures r.Some? ==>
        i <= r.value < |animations| && animations[r.value].name == name && r.value != currentAnimation
      ensures r.Some? ==> forall j :: i <= j < r.value ==>
        animations[j].name != name || j == currentAnimation
      ensures r.None? ==> forall j :: i <= j < |animations| ==>
        animations[j].name != name || j == currentAnimation
      decreases |animations| - i
    {
      if i >= |animations| then None
      else if animations[i].name == name && currentAnimation != i then Some(i)
      else SwitchTarget(name, i + 1)
    }

    /** Switches to the first animation with that name that is not already
        current, and then rewinds every animation; when there is none,
        nothing changes. */
    method SetCurrentAnimation(name: string)
      modifies this`currentAnimation, animations
      ensures animations == old(animations)
      ensures old(SwitchTarget(name, 0)).None? ==> currentAnimation == old(currentAnimation)
      ensures old(SwitchTarget(name, 0)).None? ==>
        forall j :: 0 <= j < |animations| ==> animations[j].Position() == old(animations[j].Position())
      ensures old(SwitchTarget(name, 0)).Some? ==> currentAnimation == old(SwitchTarget(name, 0)).value
      ensures old(SwitchTarget(name, 0)).Some? ==> Rewound(animations)
      ensures forall j :: 0 <= j < |animations| ==>
        animations[j].name == old(animations[j].name) && animations[j].frames == old(animations[j].frames) &&
        animations[j].repeat == old(animations[j].repeat) && animations[j].repeated == old(animations[j].repeated)
    {
      var i := 0;
      while i < |animations|
        invariant 0 <= i <= |animations|
        invariant SwitchTarget(name, i) == SwitchTarget(name, 0)
      {
        if animations[i].name == name && currentAnimation != i {
          currentAnimation := i;
          Restart();
          return;
        }
        i := i + 1;
      }
    }

    /** Every animation is back on frame 0 with no time spent. */
    predicate Rewound(anims: seq<Animation>)
      reads anims
    {
      forall j :: 0 <= j < |anims| ==> anims[j].currentTime == 0.0 && anims[j].currentFrame == 0
    }

    /** `restart`: every animation back to frame 0 with no time spent; the
        run counts are kept. */
    method Restart()
      modifies animations
      ensures Rewound(animations)
      ensures forall j :: 0 <= j < |animations| ==>
        animations[j].name == old(animations[j].name) && animations[j].frames == old(animations[j].frames) &&
        animations[j].repeat == old(animations[j].repeat) && animations[j].repeated == old(animations[j].repeated)
    {
      var i := 0;
      while i < |animations|
        invariant 0 <= i <= |animations|
        invariant forall j :: 0 <= j < i ==> animations[j].currentTime == 0.0 && animations[j].currentFrame == 0
        invariant forall j :: 0 <= j < |animations| ==>
          animations[j].name == old(animations[j].name) && animations[j].frames == old(animations[j].frames) &&
          animations[j].repeat == old(animations[j].repeat) && animations[j].repeated == old(animations[j].repeated)
      {
        animations[i].currentTime := 0.0;
        animations[i].currentFrame := 0;
        i := i + 1;
      }
    }
  }
}
