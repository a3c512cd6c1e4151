/** Skeletal animation: a tree of named bones, per-bone timelines of
    keyframes that drive a bone's angle and texture, animations that group
    timelines by bone path, and a skeleton that switches between named
    animations. Bones are values here: an update of a bone returns the
    updated bone. */
module Skeleton {
  import opened Common

  /** A bone: its angle (degrees), length, texture name, draw layer and
      named children. The drawing position and the parent's angle, which
      only drawing uses, are not modelled. */
  datatype Bone = Bone(angle: real, length: real, texture: string, layer: byte, children: map<string, Bone>)

  /** `resolvePath`: the empty path names the bone itself; otherwise the
      child named by the first step resolves the rest. The source scans the
      children for the first one with that name; a map has at most one. */
  function ResolvePath(b: Bone, path: seq<string>): (r: Option<Bone>)
    ensures path == [] ==> r == Some(b)
    ensures |path| == 1 ==> (r.Some? <==> path[0] in b.children)
    decreases |path|
  {
    if |path| == 0 then Some(b)
    else if path[0] in b.children then ResolvePath(b.children[path[0]], path[1..])
    else None
  }

  /** Resolving `p + q` is resolving `p`, then `q` from the bone found. */
  lemma {:induction false} ResolveAppend(b: Bone, p: seq<string>, q: seq<string>)
    ensures ResolvePath(b, p + q) ==
      match ResolvePath(b, p)
      case None => None
      case Some(c) => ResolvePath(c, q)
    decreases |p|
  {
    if |p| == 0 {
      assert p + q == q;
    } else {
      assert (p + q)[0] == p[0] && (p + q)[1..] == p[1..] + q;
      if p[0] in b.children {
        ResolveAppend(b.children[p[0]], p[1..], q);
      } else {
        assert ResolvePath(b, p) == None;
        assert ResolvePath(b, p + q) == None;
      }
    }
  }

  // ---------------------------------------------------------------------------
  // Keyframes

  datatype Interpolation = Const | Linear | CubicIn | CubicOut | CubicInOut | SineIn | SineOut | SineInOut

  /** `Interpolation::to_string`. */
  function Name(i: Interpolation): string
  {
    match i
    case Const => "Const"
    case Linear => "Linear"
    case CubicIn => "CubicIn"
    case CubicOut => "CubicOut"
    case CubicInOut => "CubicInOut"
    case SineIn => "SineIn"
    case SineOut => "SineOut"
    case SineInOut => "SineInOut"
  }

  /** The interpolation a keyframe names; any other word is `Const`. */
  function FromName(s: string): (r: Interpolation)
    ensures r == Const || Name(r) == s
  {
    if s == "Linear" then Linear
    else if s == "CubicIn" then CubicIn
    else if s == "CubicOut" then CubicOut
    else if s == "CubicInOut" then CubicInOut
    else if s == "SineIn" then SineIn
    else if s == "SineOut" then SineOut
    else if s == "SineInOut" then SineInOut
    else Const
  }

  /** The angle field of a keyframe, `"<interpolation> <degrees>"`, split on
      spaces: the first word names the interpolation and the second is the
      angle, 0 when it is not a number (`num` is the float parser). A value
      without a space is a panic. */
  function ParseAngle(value: string, num: string -> Option<real>): (r: (Interpolation, real))
    requires |SplitOn(value, ' ')| >= 2
    ensures r.0 == Const || Name(r.0) == SplitOn(value, ' ')[0]
  {
    var a := SplitOn(value, ' ');
    (FromName(a[0]), match num(a[1]) case None => 0.0 case Some(x) => x)
  }

  /** Every interpolation written by name, a space and an angle reads back
      as the same interpolation and angle. */
  lemma {:induction false} AngleRoundTrip(i: Interpolation, degrees: string, num: string -> Option<real>, v: real)
    requires ' ' !in degrees && num(degrees) == Some(v)
    ensures |SplitOn(Name(i) + " " + degrees, ' ')| >= 2
    ensures ParseAngle(Name(i) + " " + degrees, num) == (i, v)
  {
    assert ' ' !in Name(i);
    SplitOnJoin(Name(i), degrees, ' ');
    assert SplitOn(degrees, ' ') == [degrees];
  }

  datatype Frame = Frame(timestamp: real, angle: (Interpolation, real), texture: string)

  /** Where a timeline's cursor goes in one update at time `time`. */
  function NextCursor(frames: seq<Frame>, current: nat, repeat: bool, time: real): (r: nat)
    requires |frames| > 0 ==> current < |frames|
    ensures |frames| > 0 ==> r < |frames|
    ensures |frames| <= 1 ==> r == current
    ensures r <= current + 1
    ensures r < current ==>
      repeat && current == |frames| - 1 && frames[current].timestamp > time && r <= 1
  {
    if |frames| <= 1 then current
    else if current == |frames| - 1 && (!repeat || frames[current].timestamp <= time) then current
    else
      var c := if current == |frames| - 1 then 0 else current;
      if time >= frames[c + 1].timestamp then c + 1 else c
  }

  /** The bone after one update of a timeline; `ease(kind, t, span)` is the
      easing curve of `kind` at `t` seconds into a segment of `span`
      seconds. */
  function BoneAfter(frames: seq<Frame>, current: nat, repeat: bool, time: real, bone: Bone,
                     ease: (Interpolation, real, real) -> real): (r: Bone)
    requires |frames| > 0 ==> current < |frames|
    ensures r.length == bone.length && r.layer == bone.layer && r.children == bone.children
    ensures r.texture == bone.texture || exists k :: 0 <= k < |frames| && r.texture == frames[k].texture != ""
    ensures |frames| == 0 ==> r == bone
    ensures |frames| == 1 ==>
      (r.angle == frames[0].angle.1 &&
       r.texture == (if frames[0].texture != "" then frames[0].texture else bone.texture))
  {
    if |frames| == 0 then bone
    else if |frames| > 1 && current == |frames| - 1 && (!repeat || frames[current].timestamp <= time) then bone
    else if |frames| == 1 then
      var f := frames[0];
      bone.(angle := f.angle.1, texture := if f.texture != "" then f.texture else bone.texture)
    else
      var c := if current == |frames| - 1 then 0 else current;
      var start, end := frames[c], frames[c + 1];
      var a := end.angle.1 - start.angle.1;
      bone.(angle := start.angle.1 + a * ease(start.angle.0, time - start.timestamp, end.timestamp - start.timestamp),
            texture := if start.texture != "" then start.texture else bone.texture)
  }

  class Timeline {
    var frames: seq<Frame>
    var current: nat

    constructor New()
      ensures frames == [] && current == 0
    {
      frames := [];
      current := 0;
    }

    /** The cursor points at a frame, or is 0 when there are none. */
    predicate Valid()
      reads this
    {
      |frames| > 0 ==> current < |frames|
    }

    /** `update`: drives `bone` from the keyframes around the cursor at time
        `time` and moves the cursor. */
    method Update(bone: Bone, repeat: bool, time: real, ease: (Interpolation, real, real) -> real) returns (b: Bone)
      requires Valid()
      modifies this`current
      ensures Valid()
      ensures current == NextCursor(frames, old(current), repeat, time)
      ensures b == BoneAfter(frames, old(current), repeat, time, bone, ease)
    {
      b := bone;
      if |frames| == 0 {
        return;
      }
      if current == |frames| - 1 && |frames| > 1 {
        if !repeat {
          return;
        }
        if frames[current].timestamp > time {
          current := 0;
        } else {
          return;
        }
      }
      if |frames| == 1 {
        var f := frames[0];
        b := b.(angle := f.angle.1);
        if f.texture != "" {
          b := b.(texture := f.texture);
        }
        return;
      }
      var start := frames[current];
      var end := frames[current + 1];
      var ct := time - start.timestamp;
      var a := end.angle.1 - start.angle.1;
      if start.texture != "" {
        b := b.(texture := start.texture);
      }
      b := b.(angle := start.angle.1 + a * ease(start.angle.0, ct, end.timestamp - start.timestamp));
      if time >= end.timestamp {
        current := current + 1;
      }
    }
  }

  // ---------------------------------------------------------------------------
  // Animations

  /** The timestamp of a timeline's last keyframe, if it has any. */
  function LastStamp(tl: seq<Frame>): Option<real>
  {
    if tl == [] then None else Some(tl[|tl| - 1].timestamp)
  }

  function Max(a: real, b: real): real
  {
    if a >= b then a else b
  }

  class Animation {
    var repeat: bool
    var bones: map<string, Timeline>
    var time: real
    var duration: real

    /** `restart`: the clock and every timeline's cursor go back to 0; the
        keyframes stay. */
    method Restart()
      modifies this`time, bones.Values
      ensures time == 0.0
      ensures forall k :: k in bones ==> bones[k].current == 0 && bones[k].frames == old(bones[k].frames)
    {
      time := 0.0;
      var rest := bones.Keys;
      while rest != {}
        invariant rest <= bones.Keys && time == 0.0
        invariant forall k :: k in bones.Keys - rest ==> bones[k].current == 0
        invariant forall k :: k in bones ==> bones[k].frames == old(bones[k].frames)
        decreases rest
      {
        var key :| key in rest;
        bones[key].current := 0;
        rest := rest - {key};
      }
    }

    /** `calculateDuration`: the latest last-keyframe timestamp over all
        timelines, and 0 when no timeline has a keyframe or all of them end
        before 0. */
    method CalculateDuration()
      modifies this`duration
      ensures duration >= 0.0
      ensures forall k :: k in bones && bones[k].frames != [] ==> LastStamp(bones[k].frames).value <= duration
      ensures duration == 0.0 || exists k :: k in bones && LastStamp(bones[k].frames) == Some(duration)
    {
      duration := 0.0;
      var rest := bones.Keys;
      while rest != {}
        invariant rest <= bones.Keys && duration >= 0.0
        invariant forall k :: k in bones.Keys - rest && bones[k].frames != [] ==>
          LastStamp(bones[k].frames).value <= duration
        invariant duration == 0.0 || exists k :: k in bones && LastStamp(bones[k].frames) == Some(duration)
        decreases rest
      {
        var key :| key in rest;
        var last := LastStamp(bones[key].frames);
        if last.Some? {
          duration := Max(duration, last.value);
        }
        rest := rest - {key};
      }
    }
  }

  class Skeleton {
    var anims: map<string, Animation>
    var currentAnim: string

    constructor New()
      ensures anims == map[] && currentAnim == ""
    {
      anims := map[];
      currentAnim := "";
    }

    /** Everything the previous animation's restart may touch. */
    function Previous(): set<object>
      reads this, anims.Values
    {
      if currentAnim in anims then {anims[currentAnim]} + anims[currentAnim].bones.Values else {}
    }

    /** `setAnimation`: the current name or an unknown name changes nothing;
        otherwise the animation being left (if the current name has one) is
        restarted and the new name becomes current. */
    method SetAnimation(anim: string)
      modifies this`currentAnim, Previous()
      ensures anim == old(currentAnim) || anim !in anims ==>
        currentAnim == old(currentAnim) && unchanged(old(Previous()))
      ensures anim != old(currentAnim) && anim in anims ==> currentAnim == anim
      ensures anim != old(currentAnim) && anim in anims && old(currentAnim) in anims ==>
        var prev := anims[old(currentAnim)];
        prev.time == 0.0 && prev.bones == old(prev.bones) && prev.duration == old(prev.duration) &&
        prev.repeat == old(prev.repeat) &&
        forall k :: k in prev.bones ==> prev.bones[k].current == 0 && prev.bones[k].frames == old(prev.bones[k].frames)
    {
      if currentAnim == anim {
        return;
      }
      if anim !in anims {
        return;
      }
      if currentAnim in anims {
        anims[currentAnim].Restart();
      }
      currentAnim := anim;
    }
  }
}
