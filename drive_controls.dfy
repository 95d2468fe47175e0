/**
 * The keyboard drive panel of src/driveControls.jsx: three counters x, y, t
 * (forward, left, turn-left) in steps of one, moved by the six drive keys, and
 * one `move` command sent to the robot for every key event handled while
 * driving mode is on.
 */
module DriveControls {
  import opened Common

  /** The `fn` of a `controlMap` entry. */
  datatype Fn = Back | Forward | Left | Right | TurnRight | TurnLeft

  /** A `controlMap` entry: its key, whether it is held down, and what it drives. */
  datatype Control = Control(key: string, pressed: bool, fn: Fn)

  /** The panel's drive state: the three counters and the `controlMap` entries in their order. */
  datatype DriveState = DriveState(x: int, y: int, t: int, controls: seq<Control>)

  /** A command sent on the socket: `move` with the three speeds, or `stop`. */
  datatype Command = Move(vx: real, vy: real, wz: real) | Stop

  /** The constructor's `controlMap`: s back, w forward, a left, d right, e turn right, q turn left. */
  const InitialControls: seq<Control> := [
    Control("s", false, Back),
    Control("w", false, Forward),
    Control("a", false, Left),
    Control("d", false, Right),
    Control("e", false, TurnRight),
    Control("q", false, TurnLeft)
  ]

  /** `controlMap[key]`: the position of the first entry with that key, if any. */
  function IndexOf(cs: seq<Control>, key: string): (r: Option<nat>)
    ensures r.Some? ==> r.value < |cs| && cs[r.value].key == key
    ensures r.Some? ==> forall j | 0 <= j < r.value :: cs[j].key != key
    ensures r.None? <==> forall j | 0 <= j < |cs| :: cs[j].key != key
  {
    if cs == [] then None
    else if cs[0].key == key then Some(0)
    else match IndexOf(cs[1..], key)
      case None => None
      case Some(i) => Some(i + 1)
  }

  /** The counter a function drives. */
  function Axis(s: DriveState, fn: Fn): int {
    match fn
    case Back => s.x
    case Forward => s.x
    case Left => s.y
    case Right => s.y
    case TurnRight => s.t
    case TurnLeft => s.t
  }

  /** The direction a key press moves its counter. */
  function Direction(fn: Fn): int {
    if fn == Back || fn == Right || fn == TurnRight then -1 else 1
  }

  /** Two states agree on every counter other than the one `fn` drives. */
  predicate OtherAxesEqual(s: DriveState, s': DriveState, fn: Fn) {
    (fn != Back && fn != Forward ==> s'.x == s.x) &&
    (fn != Left && fn != Right ==> s'.y == s.y) &&
    (fn != TurnRight && fn != TurnLeft ==> s'.t == s.t)
  }

  /** The key-down step: one step towards the function's limit, unless the counter is already there. */
  function StepDown(s: DriveState, fn: Fn): DriveState {
    match fn
    case Back => if s.x > -1 then s.(x := s.x - 1) else s
    case Forward => if s.x < 1 then s.(x := s.x + 1) else s
    case Right => if s.y > -1 then s.(y := s.y - 1) else s
    case Left => if s.y < 1 then s.(y := s.y + 1) else s
    case TurnRight => if s.t > -1 then s.(t := s.t - 1) else s
    case TurnLeft => if s.t < 1 then s.(t := s.t + 1) else s
  }

  /** The key-up step: one step back, with no limit. */
  function StepUp(s: DriveState, fn: Fn): DriveState {
    match fn
    case Back => s.(x := s.x + 1)
    case Forward => s.(x := s.x - 1)
    case Right => s.(y := s.y + 1)
    case Left => s.(y := s.y - 1)
    case TurnRight => s.(t := s.t + 1)
    case TurnLeft => s.(t := s.t - 1)
  }

  function SetPressed(cs: seq<Control>, i: nat, pressed: bool): seq<Control>
    requires i < |cs|
  {
    cs[i := cs[i].(pressed := pressed)]
  }

  /** `handleKeyDown` with driving mode on: mark a mapped key held and step its counter. */
  function KeyDown(s: DriveState, key: string): DriveState {
    match IndexOf(s.controls, key)
    case None => s
    case Some(i) => StepDown(s.(controls := SetPressed(s.controls, i, true)), s.controls[i].fn)
  }

  predicate AnyPressed(cs: seq<Control>) {
    exists j | 0 <= j < |cs| :: cs[j].pressed
  }

  /** The failsafe: with no entry held, all three counters return to zero. */
  function Failsafe(s: DriveState): DriveState {
    if AnyPressed(s.controls) then s else s.(x := 0, y := 0, t := 0)
  }

  /** `handleKeyUp` with driving mode on: release a mapped key, step its counter back, then the failsafe. */
  function KeyUp(s: DriveState, key: string): DriveState {
    Failsafe(match IndexOf(s.controls, key)
      case None => s
      case Some(i) => StepUp(s.(controls := SetPressed(s.controls, i, false)), s.controls[i].fn))
  }

  /** The `move` command for a state: `x*speed/100`, `y*speed/100`, `angVel*speed*t/100`. */
  function MoveFor(s: DriveState, speed: real, angVelMultiplier: real): Command {
    Move(s.x as real * speed / 100.0, s.y as real * speed / 100.0,
         angVelMultiplier * speed * s.t as real / 100.0)
  }

  /**
   * The joystick callback: the stick's vertical report drives forward, its
   * horizontal report (right positive) drives to the right, i.e. negative `vy`;
   * `wz` takes `drive`'s default of 0.
   */
  function JoystickMove(stickX: real, stickY: real, speed: real): Command {
    Move(stickY * speed / 10000.0, -stickX * speed / 10000.0, 0.0)
  }

  /**
   * Reports within [-100, 100] give speeds within `speed / 100` and no turn;
   * pushing up moves forward and pushing right moves right.
   */
  lemma JoystickMoveBounded(stickX: real, stickY: real, speed: real)
    requires 0.0 < speed
    requires -100.0 <= stickX <= 100.0 && -100.0 <= stickY <= 100.0
    ensures var m := JoystickMove(stickX, stickY, speed);
      m.Move? && m.wz == 0.0 &&
      -(speed / 100.0) <= m.vx <= speed / 100.0 && -(speed / 100.0) <= m.vy <= speed / 100.0 &&
      (0.0 < m.vx <==> 0.0 < stickY) && (m.vy < 0.0 <==> 0.0 < stickX)
  {
    ScaledReport(stickY, speed);
    ScaledReport(stickX, speed);
    var m := JoystickMove(stickX, stickY, speed);
    assert m.vx == stickY * speed / 10000.0;
    assert m.vy == -(stickX * speed / 10000.0) by {
      NegScaled(stickX, speed);
    }
  }

  lemma NegScaled(r: real, speed: real)
    ensures -r * speed / 10000.0 == -(r * speed / 10000.0)
  {
  }

  lemma ScaledReport(r: real, speed: real)
    requires 0.0 < speed && -100.0 <= r <= 100.0
    ensures -(speed / 100.0) <= r * speed / 10000.0 <= speed / 100.0
    ensures 0.0 < r * speed / 10000.0 <==> 0.0 < r
  {
    var q := r / 100.0;
    assert -1.0 <= q <= 1.0;
    assert r * speed / 10000.0 == q * (speed / 100.0);
    MulUnit(q, speed / 100.0);
  }

  lemma MulUnit(q: real, m: real)
    requires 0.0 < m && -1.0 <= q <= 1.0
    ensures -m <= q * m <= m
    ensures 0.0 < q * m <==> 0.0 < q
  {
    if 0.0 < q {
      assert 0.0 < q * m;
    } else {
      assert q * m <= 0.0;
    }
  }

  /** Counters within [-1, 1]. */
  predicate InRange(s: DriveState) {
    -1 <= s.x <= 1 && -1 <= s.y <= 1 && -1 <= s.t <= 1
  }

  /** The keys and functions of the entries, without their pressed flags. */
  function Layout(cs: seq<Control>): seq<(string, Fn)> {
    seq(|cs|, j requires 0 <= j < |cs| => (cs[j].key, cs[j].fn))
  }

  predicate AtRest(s: DriveState) {
    s.x == 0 && s.y == 0 && s.t == 0 && !AnyPressed(s.controls)
  }

  /**
   * A key down on a mapped key marks that entry (and only it) held, moves its
   * counter one step in its direction unless the counter is already at the
   * limit in that direction, and leaves the other counters alone.
   */
  lemma KeyDownMapped(s: DriveState, key: string, i: nat)
    requires IndexOf(s.controls, key) == Some(i)
    ensures var s' := KeyDown(s, key); var fn := s.controls[i].fn;
      |s'.controls| == |s.controls| &&
      s'.controls[i].pressed &&
      (forall j | 0 <= j < |s.controls| && j != i :: s'.controls[j] == s.controls[j]) &&
      Axis(s', fn) == (if Axis(s, fn) * Direction(fn) < 1 then Axis(s, fn) + Direction(fn) else Axis(s, fn)) &&
      OtherAxesEqual(s, s', fn)
  {
  }

  /** A key down on an unmapped key changes nothing. */
  lemma KeyDownUnmapped(s: DriveState, key: string)
    requires forall j | 0 <= j < |s.controls| :: s.controls[j].key != key
    ensures KeyDown(s, key) == s
  {
  }

  /** Key downs keep the counters within [-1, 1]. */
  lemma KeyDownInRange(s: DriveState, key: string)
    requires InRange(s)
    ensures InRange(KeyDown(s, key))
  {
  }

  /**
   * A key up on a mapped key releases that entry (and only it) and moves its
   * counter one step against its direction, with no limit, before the
   * failsafe.
   */
  lemma KeyUpMapped(s: DriveState, key: string, i: nat)
    requires IndexOf(s.controls, key) == Some(i)
    ensures var s' := KeyUp(s, key); var fn := s.controls[i].fn;
      |s'.controls| == |s.controls| &&
      !s'.controls[i].pressed &&
      (forall j | 0 <= j < |s.controls| && j != i :: s'.controls[j] == s.controls[j]) &&
      (AnyPressed(s'.controls) ==> Axis(s', fn) == Axis(s, fn) - Direction(fn) && OtherAxesEqual(s, s', fn))
  {
  }

  /** A key up on an unmapped key changes nothing but may still trigger the failsafe. */
  lemma KeyUpUnmapped(s: DriveState, key: string)
    requires forall j | 0 <= j < |s.controls| :: s.controls[j].key != key
    ensures KeyUp(s, key) == Failsafe(s)
  {
  }

  /** After a key up with nothing left held, all counters are zero. */
  lemma KeyUpFailsafe(s: DriveState, key: string)
    ensures var s' := KeyUp(s, key);
      !AnyPressed(s'.controls) ==> s'.x == 0 && s'.y == 0 && s'.t == 0
  {
  }

  /** Key events never change the keys or functions of the entries. */
  lemma KeyEventsKeepLayout(s: DriveState, key: string)
    ensures Layout(KeyDown(s, key).controls) == Layout(s.controls)
    ensures Layout(KeyUp(s, key).controls) == Layout(s.controls)
  {
    match IndexOf(s.controls, key)
    case None =>
    case Some(i) =>
      assert Layout(SetPressed(s.controls, i, true)) == Layout(s.controls);
      assert Layout(SetPressed(s.controls, i, false)) == Layout(s.controls);
  }

  /** Pressing and releasing one key from rest returns to rest. */
  lemma PressReleaseFromRest(s: DriveState, key: string)
    requires AtRest(s)
    ensures KeyUp(KeyDown(s, key), key) == s
  {
    match IndexOf(s.controls, key)
    case None =>
    case Some(i) =>
      var down := KeyDown(s, key);
      assert down.controls == SetPressed(s.controls, i, true);
      assert IndexOf(down.controls, key) == Some(i) by {
        IndexOfIgnoresPressed(s.controls, i, true, key);
      }
      var up := StepUp(down.(controls := SetPressed(down.controls, i, false)), s.controls[i].fn);
      assert up.controls == s.controls;
  }

  lemma {:induction false} IndexOfIgnoresPressed(cs: seq<Control>, i: nat, pressed: bool, key: string)
    requires i < |cs|
    ensures IndexOf(SetPressed(cs, i, pressed), key) == IndexOf(cs, key)
  {
    var cs' := SetPressed(cs, i, pressed);
    assert forall j | 0 <= j < |cs| :: cs'[j].key == cs[j].key;
    match IndexOf(cs, key)
    case None =>
    case Some(k) =>
  }

  /**
   * Key ups are not clamped: holding s, then w with an auto-repeat, then
   * releasing s leaves the forward counter at 2 while w is still held.
   */
  lemma KeyUpLeavesRange()
    ensures var s0 := DriveState(0, 0, 0, InitialControls);
      var s := KeyUp(KeyDown(KeyDown(KeyDown(s0, "s"), "w"), "w"), "s");
      s.x == 2 && !InRange(s)
  {
    var s0 := DriveState(0, 0, 0, InitialControls);
    var s1 := KeyDown(s0, "s");
    assert s1.x == -1 && s1.controls[0].pressed;
    var s2 := KeyDown(s1, "w");
    assert s2.x == 0 && s2.controls[1].pressed;
    var s3 := KeyDown(s2, "w");
    assert s3.x == 1 && s3.controls[1].pressed;
    var s4 := KeyUp(s3, "s");
    assert s4.controls[1].pressed;
    assert s4.x == 2;
  }

  /** `DriveControlPanel`: the counters and `controlMap` it mutates, its speed, and the commands it has sent. */
  class DriveControlPanel {
    var speed: real
    const angVelMultiplier: real
    var controls: seq<Control>
    var x: int
    var y: int
    var t: int
    var sent: seq<Command>

    function State(): DriveState
      reads this
    {
      DriveState(x, y, t, controls)
    }

    constructor(angVelMultiplier: real)
      ensures State() == DriveState(0, 0, 0, InitialControls) && AtRest(State())
      ensures speed == 50.0 && this.angVelMultiplier == angVelMultiplier && sent == []
    {
      speed := 50.0;
      this.angVelMultiplier := angVelMultiplier;
      controls := InitialControls;
      x, y, t := 0, 0, 0;
      sent := [];
    }

    /** `onSpeedChange`. */
    method SetSpeed(value: real)
      modifies this
      ensures speed == value && State() == old(State()) && sent == old(sent)
    {
      speed := value;
    }

    /** `drive(vx, vy, wz)`: send one `move`. */
    method Drive(vx: real, vy: real, wz: real)
      modifies this
      ensures sent == old(sent) + [Move(vx, vy, wz)]
      ensures State() == old(State()) && speed == old(speed)
    {
      sent := sent + [Move(vx, vy, wz)];
    }

    /** `stop()`: send one `stop`. */
    method Stop()
      modifies this
      ensures sent == old(sent) + [Command.Stop]
      ensures State() == old(State()) && speed == old(speed)
    {
      sent := sent + [Command.Stop];
    }

    /** The joystick's callback, mounted in `componentDidMount`: one `move` scaled by the speed. */
    method OnJoystick(stickX: real, stickY: real)
      modifies this
      ensures sent == old(sent) + [JoystickMove(stickX, stickY, speed)]
      ensures State() == old(State()) && speed == old(speed)
    {
      var xJoy := stickY * speed / 10000.0;
      var yJoy := -stickX * speed / 10000.0;
      Drive(xJoy, yJoy, 0.0);
    }

    /** `handleKeyDown`: ignored unless driving; otherwise one key-down step and one `move`. */
    method HandleKeyDown(key: string, drivingMode: bool)
      modifies this
      ensures speed == old(speed)
      ensures !drivingMode ==> State() == old(State()) && sent == old(sent)
      ensures drivingMode ==> (State() == KeyDown(old(State()), key) &&
        sent == old(sent) + [MoveFor(State(), speed, angVelMultiplier)])
    {
      if drivingMode {
        var entry := IndexOf(controls, key);
        if entry.Some? {
          var i := entry.value;
          controls := controls[i := controls[i].(pressed := true)];
          var fn := controls[i].fn;
          if fn == Back && x > -1 { x := x - 1; }
          if fn == Forward && x < 1 { x := x + 1; }
          if fn == Right && y > -1 { y := y - 1; }
          if fn == Left && y < 1 { y := y + 1; }
          if fn == TurnRight && t > -1 { t := t - 1; }
          if fn == TurnLeft && t < 1 { t := t + 1; }
        }
        var vx := x as real * speed / 100.0;
        var vy := y as real * speed / 100.0;
        var wz := angVelMultiplier * speed * t as real / 100.0;
        assert Move(vx, vy, wz) == MoveFor(State(), speed, angVelMultiplier);
        Drive(vx, vy, wz);
      }
    }

    /** `handleKeyUp`: ignored unless driving; otherwise one key-up step, the failsafe scan and one `move`. */
    method HandleKeyUp(key: string, drivingMode: bool)
      modifies this
      ensures speed == old(speed)
      ensures !drivingMode ==> State() == old(State()) && sent == old(sent)
      ensures drivingMode ==> (State() == KeyUp(old(State()), key) &&
        sent == old(sent) + [MoveFor(State(), speed, angVelMultiplier)])
    {
      if drivingMode {
        var entry := IndexOf(controls, key);
        if entry.Some? {
          var i := entry.value;
          controls := controls[i := controls[i].(pressed := false)];
          var fn := controls[i].fn;
          if fn == Back { x := x + 1; }
          if fn == Forward { x := x - 1; }
          if fn == Right { y := y + 1; }
          if fn == Left { y := y - 1; }
          if fn == TurnRight { t := t + 1; }
          if fn == TurnLeft { t := t - 1; }
        }
        var reset := true;
        var j := 0;
        while j < |controls|
          invariant 0 <= j <= |controls|
          invariant reset <==> forall k | 0 <= k < j :: !controls[k].pressed
        {
          if controls[j].pressed {
            reset := false;
          }
          j := j + 1;
        }
        if reset {
          x, y, t := 0, 0, 0;
        }
        var vx := x as real * speed / 100.0;
        var vy := y as real * speed / 100.0;
        var wz := angVelMultiplier * speed * t as real / 100.0;
        assert Move(vx, vy, wz) == MoveFor(State(), speed, angVelMultiplier);
        Drive(vx, vy, wz);
      }
    }
  }
}
