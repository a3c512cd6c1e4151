/** Sprites with named frame animations: the sprite owns the rectangles of
    its sheet's cells (in pixels) and a map of animations, one of which is
    current by name. Elapsed time is passed in as `dt` (seconds). */
module Sprite {
  import opened Common
  import opened Grid
  import FrameAnimation

  /** `glam::Vec4`. */
  datatype Vec4 = Vec4(x: real, y: real, z: real, w: real)

  const Zero := Vec4(0.0, 0.0, 0.0, 0.0)

  /** A frame: the sheet cell it shows and how long, in seconds. */
  type FramePair = (byte, real)

  /** `Animation::update` of this file on values. It has no answer, but
      otherwise moves the cursor the same way as the animator's frame
      animations (see `AdvanceAgreesWithStep`). */
  function Advance(repeat: int, frames: seq<FramePair>, c: FrameAnimation.Cursor, dt: real): (r: FrameAnimation.Cursor)
    requires c.frame < |frames|
    ensures r.frame < |frames|
    ensures repeat != 0 && c.repeated >= repeat ==> r == c
  {
    if c.repeated >= repeat && repeat != 0 then c
    else
      var t := c.time + dt;
      var (t1, f1) := if t >= frames[c.frame].1 then (t - frames[c.frame].1, c.frame + 1) else (t, c.frame);
      var (rep2, t2, f2) :=
        if f1 > |frames| - 1 then
          (if repeat == 0 then (c.repeated, 0.0, 0) else (c.repeated + 1, t1, f1))
        else (c.repeated, t1, f1);
      FrameAnimation.Cursor(rep2, t2, if f2 > |frames| - 1 then |frames| - 1 else f2)
  }

  /** The same frames in the animator's terms. */
  function AsFrames(frames: seq<FramePair>): (r: seq<FrameAnimation.Frame>)
    ensures |r| == |frames|
    ensures forall i :: 0 <= i < |frames| ==> r[i] == FrameAnimation.Frame(frames[i].0, frames[i].1)
  {
    seq(|frames|, i requires 0 <= i < |frames| => FrameAnimation.Frame(frames[i].0, frames[i].1))
  }

  /** Sprite animations and animator animations step their cursors alike:
      the two engines' update rules are the same function of the cursor. */
  lemma AdvanceAgreesWithStep(repeat: int, frames: seq<FramePair>, c: FrameAnimation.Cursor, dt: real)
    requires c.frame < |frames|
    ensures Advance(repeat, frames, c, dt) == FrameAnimation.Step(repeat, AsFrames(frames), c, dt).0
  {
    assert AsFrames(frames)[c.frame].duration == frames[c.frame].1;
  }

  class Animation {
    var repeat: int
    var repeated: int
    var frames: seq<FramePair>
    var currentTime: real
    var currentFrame: nat

    function Position(): FrameAnimation.Cursor
      reads this
    {
      FrameAnimation.Cursor(repeated, currentTime, currentFrame)
    }

    /** Advances by `dt` seconds; an empty frame list is a panic. */
    method Update(dt: real)
      requires currentFrame < |frames|
      modifies this`repeated, this`currentTime, this`currentFrame
      ensures Position() == Advance(repeat, frames, old(Position()), dt)
    {
      if repeated >= repeat && repeat != 0 {
        return;
      }
      currentTime := currentTime + dt;
      if currentTime >= frames[currentFrame].1 {
        currentTime := currentTime - frames[currentFrame].1;
        currentFrame := currentFrame + 1;
      }
      if currentFrame > |frames| - 1 {
        if repeat == 0 {
          currentFrame := 0;
          currentTime := 0.0;
        } else {
          repeated := repeated + 1;
        }
      }
      currentFrame := if currentFrame > |frames| - 1 then |frames| - 1 else currentFrame;
    }
  }

  /** The rectangle `(x, y, fw, fh)` of the cell at `o`, in pixels. */
  function CellRect(frame: (int, int), o: (int, int)): Vec4
  {
    Vec4(o.0 as real, o.1 as real, frame.0 as real, frame.1 as real)
  }

  /** The rectangles of a list of cell origins, in the same order. */
  function CellRects(frame: (int, int), origins: seq<(int, int)>): (r: seq<Vec4>)
    ensures |r| == |origins|
    ensures forall k :: 0 <= k < |r| ==> r[k] == CellRect(frame, origins[k])
  {
    if origins == [] then []
    else CellRects(frame, origins[..|origins| - 1]) + [CellRect(frame, origins[|origins| - 1])]
  }

  lemma CellRectsAppend(frame: (int, int), a: seq<(int, int)>, b: seq<(int, int)>)
    ensures CellRects(frame, a + b) == CellRects(frame, a) + CellRects(frame, b)
  {
    assert forall k :: 0 <= k < |a + b| ==> (a + b)[k] == if k < |a| then a[k] else b[k - |a|];
  }

  class Sprite {
    var animations: map<string, Animation>
    var currentAnimation: string
    var frames: seq<Vec4>

    constructor New()
      ensures animations == map[] && currentAnimation == "" && frames == []
    {
      animations := map[];
      currentAnimation := "";
      frames := [];
    }

    /** Advances the current animation, if the current name has one. */
    method Update(dt: real)
      requires currentAnimation in animations ==>
        animations[currentAnimation].currentFrame < |animations[currentAnimation].frames|
      modifies if currentAnimation in animations then {animations[currentAnimation]} else {}
      ensures currentAnimation in animations ==>
        var a := animations[currentAnimation];
        a.Position() == Advance(old(a.repeat), old(a.frames), old(a.Position()), dt) &&
        a.frames == old(a.frames) && a.repeat == old(a.repeat) && a.currentFrame < |a.frames|
    {
      if currentAnimation in animations {
        animations[currentAnimation].Update(dt);
      }
    }

    /** `calculateFrames`: the list is emptied, then the sheet of `size` is
        cut into cells of `frame`, row by row. */
    method CalculateFrames(size: (int, int), frame: (int, int))
      requires Finite(size.0, size.1, frame.0, frame.1)
      modifies this`frames
      ensures frames == CellRects(frame, Origins(size.0, size.1, frame.0, frame.1))
    {
      frames := [];
      var y := 0;
      var w, h, fw, fh := size.0, size.1, frame.0, frame.1;
      ghost var emitted: seq<(int, int)> := [];
      while y < h
        invariant y >= 0
        invariant emitted + RowsFrom(w, h, fw, fh, y) == Origins(w, h, fw, fh)
        invariant frames == CellRects(frame, emitted)
        decreases h - y
      {
        ScanRow(emitted, w, h, fw, fh, y);
        PushRow(frame, w, fw, y);
        CellRectsAppend(frame, emitted, RowFrom(w, fw, 0, y));
        emitted := emitted + RowFrom(w, fw, 0, y);
        y := y + fh;
      }
    }

    /** The inner loop of `calculateFrames`: the cells of row `y`, left to
        right, appended to the list. */
    method PushRow(frame: (int, int), w: int, fw: int, y: int)
      requires w > 0 ==> fw > 0
      modifies this`frames
      ensures frames == old(frames) + CellRects(frame, RowFrom(w, fw, 0, y))
    {
      var x := 0;
      ghost var done: seq<(int, int)> := [];
      while x < w
        invariant x >= 0
        invariant done + RowFrom(w, fw, x, y) == RowFrom(w, fw, 0, y)
        invariant frames == old(frames) + CellRects(frame, done)
        decreases w - x
      {
        ScanCell(done, w, fw, x, y);
        frames := frames + [CellRect(frame, (x, y))];
        assert (done + [(x, y)])[..|done|] == done;
        done := done + [(x, y)];
        x := x + fw;
      }
      assert done == RowFrom(w, fw, 0, y);
    }

    /** The rectangle to draw: zero with no cells or no animations; else the
        cell the current animation's frame names. A current name without an
        animation, or a cell id past the list, is a panic. */
    function GetCurrentFrame(): (r: Vec4)
      reads this, animations.Values
      requires |frames| > 0 && |animations| > 0 ==>
        currentAnimation in animations &&
        animations[currentAnimation].currentFrame < |animations[currentAnimation].frames| &&
        animations[currentAnimation].frames[animations[currentAnimation].currentFrame].0 < |frames|
      ensures |frames| == 0 || |animations| == 0 ==> r == Zero
      ensures |frames| > 0 && |animations| > 0 ==>
        var a := animations[currentAnimation];
        r == frames[a.frames[a.currentFrame].0]
    {
      if |frames| == 0 then Zero
      else if |animations| == 0 then Zero
      else
        var a := animations[currentAnimation];
        frames[a.frames[a.currentFrame].0]
    }

    /** Each name owns its animation, as the values of a Rust map are
        owned: no two names share one. */
    predicate Owned()
      reads this
    {
      forall a, b :: a in animations && b in animations && a != b ==> animations[a] != animations[b]
    }

    /** Switches to a different, present animation and rewinds it (the run
        count is kept); the current name or an absent name changes nothing.
        No other animation changes, and no animation loses its frames or
        repeat setting. */
    method SetAnimation(name: string)
      requires Owned()
      modifies this`currentAnimation, animations.Values
      ensures forall k :: k in animations ==>
        animations[k].frames == old(animations[k].frames) && animations[k].repeat == old(animations[k].repeat) &&
        animations[k].repeated == old(animations[k].repeated)
      ensures name == old(currentAnimation) || name !in animations ==>
        currentAnimation == old(currentAnimation) &&
        forall k :: k in animations ==> animations[k].Position() == old(animations[k].Position())
      ensures name != old(currentAnimation) && name in animations ==>
        currentAnimation == name &&
        animations[name].Position() == FrameAnimation.Cursor(old(animations[name].repeated), 0.0, 0) &&
        forall k :: k in animations && k != name ==> animations[k].Position() == old(animations[k].Position())
    {
      if name == currentAnimation {
        return;
      }
      if name !in animations {
        return;
      }
      currentAnimation := name;
      Restart();
    }

    /** `restart`: only the current animation goes back to frame 0 with no
        time spent; its frames, repeat setting and run count stay. */
    method Restart()
      modifies if currentAnimation in animations then {animations[currentAnimation]} else {}
      ensures currentAnimation in animations ==>
        var a := animations[currentAnimation];
        a.Position() == FrameAnimation.Cursor(old(a.repeated), 0.0, 0) &&
        a.frames == old(a.frames) && a.repeat == old(a.repeat)
    {
      if currentAnimation in animations {
        var a := animations[currentAnimation];
        a.currentFrame := 0;
        a.currentTime := 0.0;
      }
    }
  }
}
