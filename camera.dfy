/** The fly-through camera of get_matrix and the Esc toggle of the key callback:
    yaw and pitch follow the pointer, the position follows W/A/S/D, and all three
    stay put while the cursor is released. */
module Camera {

  /** GLFW_KEY_ESCAPE and GLFW_PRESS. */
  const KeyEscape: int := 256
  const Press: int := 1

  /** The pitch limit and the yaw wrap limit, in degrees. */
  const MaxPitchDegrees: real := 89.9
  const MaxYawDegrees: real := 360.0

  datatype Vec3 = Vec3(x: real, y: real, z: real)
  {
    function Plus(v: Vec3): Vec3 { Vec3(x + v.x, y + v.y, z + v.z) }
    function Minus(v: Vec3): Vec3 { Vec3(x - v.x, y - v.y, z - v.z) }
    function Scale(s: real): Vec3 { Vec3(s * x, s * y, s * z) }
  }

  /** The right and forward vectors get_matrix derives from yaw and pitch. */
  datatype Basis = Basis(right: Vec3, direction: Vec3)

  /** Which of W, A, S and D are held this frame. */
  datatype Keys = Keys(w: bool, a: bool, s: bool, d: bool)

  function Abs(r: real): real
  {
    if r < 0.0 then -r else r
  }

  /** The distance between two angles, for the nearest-value promise of the pitch
      clamp; Config.Dist is its counterpart over the integer settings. */
  function Dist(a: real, b: real): real
  {
    Abs(a - b)
  }

  /** The yaw guard: a yaw beyond one full turn either way drops back to 0
      (it is not wrapped); any other yaw is kept. */
  function ResetYaw(yaw: real, degPerRad: real): (r: real)
    requires degPerRad > 0.0
    ensures Abs(r * degPerRad) <= MaxYawDegrees
    ensures Abs(yaw * degPerRad) <= MaxYawDegrees ==> r == yaw
    ensures Abs(yaw * degPerRad) > MaxYawDegrees ==> r == 0.0
  {
    if Abs(yaw * degPerRad) > MaxYawDegrees then 0.0 else yaw
  }

  /** The pitch guard: the value of [-max, max] nearest to p. */
  function ClampPitch(p: real, max: real): (r: real)
    requires 0.0 <= max
    ensures -max <= r <= max
    ensures -max <= p <= max ==> r == p
    ensures forall q :: -max <= q <= max ==> Dist(r, p) <= Dist(q, p)
  {
    if p < -max then -max else if p > max then max else p
  }

  /** The pitch after a run of frames with the cursor captured, one pointer delta
      (already scaled by the sensitivity) per frame. */
  function PitchAfter(p: real, deltas: seq<real>, max: real): real
    requires 0.0 <= max
    decreases |deltas|
  {
    if deltas == [] then p else PitchAfter(ClampPitch(p + deltas[0], max), deltas[1..], max)
  }

  /** Whatever the pointer does, a pitch within the limits stays within them. */
  lemma {:induction false} PitchStaysBounded(p: real, deltas: seq<real>, max: real)
    requires 0.0 <= max && -max <= p <= max
    ensures -max <= PitchAfter(p, deltas, max) <= max
    decreases |deltas|
  {
    if deltas != [] {
      PitchStaysBounded(ClampPitch(p + deltas[0], max), deltas[1..], max);
    }
  }

  /** Pushing the pointer one way for long enough pins the pitch at the limit:
      n frames that each raise the pitch by at least `step` take any pitch
      within the limits to exactly `max` once n * step covers the distance. */
  lemma {:induction false} PitchSaturates(p: real, deltas: seq<real>, max: real, step: real)
    requires 0.0 <= max && -max <= p <= max && 0.0 < step
    requires forall i :: 0 <= i < |deltas| ==> deltas[i] >= step
    requires |deltas| as real * step >= max - p
    ensures PitchAfter(p, deltas, max) == max
    decreases |deltas|
  {
    if deltas == [] {
      assert max - p <= 0.0;
    } else {
      var p' := ClampPitch(p + deltas[0], max);
      assert forall i :: 0 <= i < |deltas[1..]| ==> deltas[1..][i] >= step by {
        forall i | 0 <= i < |deltas[1..]| ensures deltas[1..][i] >= step {
          assert deltas[1..][i] == deltas[i + 1];
        }
      }
      if p + deltas[0] >= max {
        assert p' == max;
      } else {
        assert p' == p + deltas[0] && p' >= p + step;
      }
      assert (|deltas| - 1) as real * step == |deltas| as real * step - step;
      PitchSaturates(p', deltas[1..], max, step);
    }
  }

  /** Pulling the pointer the other way for long enough pins the pitch at the
      lower limit: n frames that each lower the pitch by at least `step` take any
      pitch within the limits to exactly `-max` once n * step covers the distance. */
  lemma {:induction false} PitchSaturatesDown(p: real, deltas: seq<real>, max: real, step: real)
    requires 0.0 <= max && -max <= p <= max && 0.0 < step
    requires forall i :: 0 <= i < |deltas| ==> deltas[i] <= -step
    requires |deltas| as real * step >= p + max
    ensures PitchAfter(p, deltas, max) == -max
    decreases |deltas|
  {
    if deltas == [] {
      assert p + max <= 0.0;
    } else {
      var p' := ClampPitch(p + deltas[0], max);
      assert forall i :: 0 <= i < |deltas[1..]| ==> deltas[1..][i] <= -step by {
        forall i | 0 <= i < |deltas[1..]| ensures deltas[1..][i] <= -step {
          assert deltas[1..][i] == deltas[i + 1];
        }
      }
      if p + deltas[0] <= -max {
        assert p' == -max;
      } else {
        assert p' == p + deltas[0] && p' <= p - step;
      }
      assert (|deltas| - 1) as real * step == |deltas| as real * step - step;
      PitchSaturatesDown(p', deltas[1..], max, step);
    }
  }

  /** The four key checks of get_matrix, in order: W forward, A left, S back, D right. */
  function Move(p: Vec3, b: Basis, s: real, keys: Keys): Vec3
  {
    var p1 := if keys.w then p.Plus(b.direction.Scale(s)) else p;
    var p2 := if keys.a then p1.Minus(b.right.Scale(s)) else p1;
    var p3 := if keys.s then p2.Minus(b.direction.Scale(s)) else p2;
    if keys.d then p3.Plus(b.right.Scale(s)) else p3
  }

  /** With no key held the camera does not move. */
  lemma MoveIdle(p: Vec3, b: Basis, s: real)
    ensures Move(p, b, s, Keys(false, false, false, false)) == p
  {
  }

  /** Opposite keys cancel: W with S, and A with D, leave the position where it was. */
  lemma MoveOpposite(p: Vec3, b: Basis, s: real, forward: bool, sideways: bool)
    ensures Move(p, b, s, Keys(forward, sideways, forward, sideways)) == p
  {
  }

  /** W alone moves the camera s units along its viewing direction. */
  lemma MoveForward(p: Vec3, b: Basis, s: real)
    ensures Move(p, b, s, Keys(true, false, false, false)) == p.Plus(b.direction.Scale(s))
  {
  }

  /** The cursor flag after a key event: Esc pressed flips it, anything else keeps it. */
  function Toggled(cursor: bool, key: int, action: int): (r: bool)
    ensures key == KeyEscape && action == Press ==> r != cursor
    ensures key != KeyEscape || action != Press ==> r == cursor
  {
    if key == KeyEscape && action == Press then !cursor else cursor
  }

  /** Pressing Esc twice restores the cursor mode. */
  lemma ToggleTwice(cursor: bool)
    ensures Toggled(Toggled(cursor, KeyEscape, Press), KeyEscape, Press) == cursor
  {
  }

  class Camera {
    /** Degrees per radian (180 / pi), the factor of glm's degrees and radians. */
    const degPerRad: real
    var yaw: real
    var pitch: real
    var position: Vec3
    var direction: Vec3
    /** true while the cursor is released to the settings window. */
    var cursor: bool
    /** The time of the previous frame. */
    var lastTime: real

    /** The pitch limit, radians(89.9). */
    function MaxPitch(): real
      requires degPerRad > 0.0
    {
      MaxPitchDegrees / degPerRad
    }

    /** Pitch within the limits and yaw within one turn either way. */
    ghost predicate Valid()
      reads this`yaw, this`pitch
    {
      degPerRad > 0.0 &&
      -MaxPitch() <= pitch <= MaxPitch() &&
      Abs(yaw * degPerRad) <= MaxYawDegrees
    }

    /** The camera at start-up: yaw 45 degrees, pitch -15 degrees, at (-100, 100, -100)
        (the initial grid size), with the cursor released; `now` is the time of the
        first frame. */
    constructor (degPerRad: real, now: real)
      requires degPerRad > 0.0
      ensures this.degPerRad == degPerRad
      ensures yaw * degPerRad == 45.0 && pitch * degPerRad == -15.0
      ensures position == Vec3(-100.0, 100.0, -100.0) && direction == Vec3(0.0, 0.0, 0.0)
      ensures cursor && lastTime == now
      ensures Valid()
    {
      this.degPerRad := degPerRad;
      yaw := 45.0 / degPerRad;
      pitch := -15.0 / degPerRad;
      position := Vec3(-100.0, 100.0, -100.0);
      direction := Vec3(0.0, 0.0, 0.0);
      cursor := true;
      lastTime := now;
    }

    /** key_callback: Esc pressed toggles the cursor mode. */
    method OnKey(key: int, action: int)
      modifies this`cursor
      ensures cursor == Toggled(old(cursor), key, action)
    {
      if key == KeyEscape && action == Press {
        cursor := !cursor;
      }
    }

    /** The turn of get_matrix with the cursor captured: add the pointer's offsets
        (already scaled by the sensitivity) to yaw and pitch, then guard both. */
    method Turn(dx: real, dy: real)
      requires degPerRad > 0.0
      modifies this`yaw, this`pitch
      ensures yaw == ResetYaw(old(yaw) + dx, degPerRad)
      ensures pitch == ClampPitch(old(pitch) + dy, MaxPitch())
      ensures Valid()
    {
      yaw := yaw + dx;
      yaw := if Abs(yaw * degPerRad) > MaxYawDegrees then 0.0 else yaw;
      pitch := pitch + dy;
      var max := MaxPitch();
      pitch := if pitch < -max then -max else if pitch > max then max else pitch;
    }

    /** The key checks of get_matrix with the cursor captured: W, A, S and D in
        turn move the camera s units along or across the viewing direction. */
    method Walk(b: Basis, s: real, keys: Keys)
      modifies this`position
      ensures position == Move(old(position), b, s, keys)
    {
      if keys.w { position := position.Plus(b.direction.Scale(s)); }
      if keys.a { position := position.Minus(b.right.Scale(s)); }
      if keys.s { position := position.Minus(b.direction.Scale(s)); }
      if keys.d { position := position.Plus(b.right.Scale(s)); }
    }

    /** The state updates of get_matrix for one frame: with the cursor captured,
        turn by the pointer's offset from the window centre (cx, cy), guard yaw and
        pitch, then move by the held keys; always recompute the viewing direction
        and remember the frame time. */
    method Update(width: nat, height: nat, cx: real, cy: real, sensitivity: real, speed: real,
                  now: real, keys: Keys, basis: (real, real) -> Basis)
      requires Valid()
      modifies this`yaw, this`pitch, this`position, this`direction, this`lastTime
      ensures Valid()
      ensures old(cursor) ==> yaw == old(yaw) && pitch == old(pitch) && position == old(position)
      ensures !old(cursor) ==>
        yaw == ResetYaw(old(yaw) + sensitivity * ((width / 2) as real - cx), degPerRad) &&
        pitch == ClampPitch(old(pitch) + sensitivity * ((height / 2) as real - cy), MaxPitch()) &&
        position == Move(old(position), basis(yaw, pitch), speed * (now - old(lastTime)), keys)
      ensures direction == basis(yaw, pitch).direction
      ensures lastTime == now
    {
      if !cursor {
        Turn(sensitivity * ((width / 2) as real - cx), sensitivity * ((height / 2) as real - cy));
      }
      var b := basis(yaw, pitch);
      direction := b.direction;
      if !cursor {
        Walk(b, speed * (now - lastTime), keys);
      }
      lastTime := now;
    }
  }
}
