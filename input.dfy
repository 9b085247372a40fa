/**
 * The player's input state: the four movement flags that the keydown and
 * keyup handlers set and clear, and the yaw/pitch look angles that the
 * mousemove handler accumulates while the pointer is locked.
 */
module Input {
  import opened Wrappers

  // ---------------------------------------------------------------------
  // Movement flags
  // ---------------------------------------------------------------------

  /** The four fields of `moveState`. */
  datatype Move = Forward | Backward | Left | Right

  datatype MoveState = MoveState(forward: bool, backward: bool, left: bool, right: bool)
  {
    function Get(m: Move): bool {
      match m
      case Forward => forward
      case Backward => backward
      case Left => left
      case Right => right
    }

    /** Assigns one flag; the other three keep their values. */
    function Set(m: Move, on: bool): (r: MoveState)
      ensures r.Get(m) == on
      ensures forall o :: o != m ==> r.Get(o) == Get(o)
    {
      match m
      case Forward => this.(forward := on)
      case Backward => this.(backward := on)
      case Left => this.(left := on)
      case Right => this.(right := on)
    }
  }

  /** The initial `moveState`: nothing pressed. */
  const Idle := MoveState(false, false, false, false)

  /** `toLowerCase` on one character; only A-Z change (see README). */
  function LowerChar(c: char): char {
    if 'A' <= c <= 'Z' then (c as int + 32) as char else c
  }

  function ToLower(s: string): string {
    seq(|s|, i requires 0 <= i < |s| => LowerChar(s[i]))
  }

  /** The `switch` on `e.key.toLowerCase()` shared by both key handlers. */
  function KeyAction(key: string): Option<Move> {
    var k := ToLower(key);
    if k == "w" then Some(Forward)
    else if k == "s" then Some(Backward)
    else if k == "a" then Some(Left)
    else if k == "d" then Some(Right)
    else None
  }

  /** The key values that drive each flag: its letter in either case. */
  function Keys(m: Move): set<string> {
    match m
    case Forward => {"w", "W"}
    case Backward => {"s", "S"}
    case Left => {"a", "A"}
    case Right => {"d", "D"}
  }

  /** A key selects a movement exactly when it is one of that movement's keys. */
  lemma KeyActionMatchesKeys(key: string, m: Move)
    ensures KeyAction(key) == Some(m) <==> key in Keys(m)
  {
    var k := ToLower(key);
    if |key| == 1 {
      var c := key[0];
      assert key == [c];
      assert k == [LowerChar(c)];
      assert LowerChar(c) == 'w' <==> c == 'w' || c == 'W';
      assert LowerChar(c) == 's' <==> c == 's' || c == 'S';
      assert LowerChar(c) == 'a' <==> c == 'a' || c == 'A';
      assert LowerChar(c) == 'd' <==> c == 'd' || c == 'D';
    } else {
      assert |k| != 1;
    }
  }

  lemma KeyBindings(key: string)
    ensures forall m :: KeyAction(key) == Some(m) <==> key in Keys(m)
  {
    forall m: Move ensures KeyAction(key) == Some(m) <==> key in Keys(m) {
      KeyActionMatchesKeys(key, m);
    }
  }

  /**
   * The effect of one keydown (`down`) or keyup (`!down`) event on the flags:
   * the flag bound to the key takes the event's value, every other flag is kept.
   */
  function ApplyKey(ms: MoveState, key: string, down: bool): (r: MoveState)
    ensures forall m :: key in Keys(m) ==> r.Get(m) == down
    ensures forall m :: key !in Keys(m) ==> r.Get(m) == ms.Get(m)
  {
    KeyBindings(key);
    match KeyAction(key)
    case None => ms
    case Some(m) => ms.Set(m, down)
  }

  datatype KeyEvent = KeyDown(key: string) | KeyUp(key: string)

  /** The flags after a history of key events, oldest first. */
  function Replay(ms: MoveState, events: seq<KeyEvent>): MoveState
    decreases |events|
  {
    if events == [] then ms
    else
      var last := events[|events| - 1];
      ApplyKey(Replay(ms, events[..|events| - 1]), last.key, last.KeyDown?)
  }

  /** Whether the most recent event for one of `m`'s keys was a press, if any. */
  function LatestFor(events: seq<KeyEvent>, m: Move): Option<bool>
    decreases |events|
  {
    if events == [] then None
    else
      var last := events[|events| - 1];
      if last.key in Keys(m) then Some(last.KeyDown?)
      else LatestFor(events[..|events| - 1], m)
  }

  /**
   * Each flag reflects the most recent down/up event of its own keys; events
   * of other keys, mapped or not, never touch it.
   */
  lemma {:induction false} ReplayReflectsLatest(ms: MoveState, events: seq<KeyEvent>, m: Move)
    ensures Replay(ms, events).Get(m) ==
              match LatestFor(events, m)
              case Some(down) => down
              case None => ms.Get(m)
    decreases |events|
  {
    if events != [] {
      ReplayReflectsLatest(ms, events[..|events| - 1], m);
    }
  }

  // ---------------------------------------------------------------------
  // Mouse look
  // ---------------------------------------------------------------------

  /** Math.PI as the double literal the source compares against. */
  const Pi: real := 3.141592653589793
  const HalfPi: real := Pi / 2.0
  const Sensitivity: real := 0.002

  /** `Math.max(-Math.PI / 2, Math.min(Math.PI / 2, y))` */
  function ClampPitch(y: real): (r: real)
    ensures -HalfPi <= r <= HalfPi
    ensures -HalfPi <= y <= HalfPi ==> r == y
    ensures y < -HalfPi ==> r == -HalfPi
    ensures y > HalfPi ==> r == HalfPi
  {
    var upper := if HalfPi < y then HalfPi else y;
    if -HalfPi > upper then -HalfPi else upper
  }

  /** `mouseX` (yaw) and `mouseY` (pitch). */
  datatype Look = Look(yaw: real, pitch: real)

  /** `event.movementX` and `event.movementY` of one mousemove event. */
  datatype MouseMove = MouseMove(dx: real, dy: real)

  /**
   * One locked mousemove: yaw moves by exactly `-dx * 0.002`, pitch by
   * `dy * 0.002` and is then kept inside [-pi/2, pi/2].
   */
  function Turn(l: Look, e: MouseMove): (r: Look)
    ensures r.yaw == l.yaw - e.dx * Sensitivity
    ensures -HalfPi <= r.pitch <= HalfPi
    ensures -HalfPi <= l.pitch + e.dy * Sensitivity <= HalfPi ==> r.pitch == l.pitch + e.dy * Sensitivity
  {
    Look(l.yaw - e.dx * Sensitivity, ClampPitch(l.pitch + e.dy * Sensitivity))
  }

  /** The look angles after a history of locked mousemove events, oldest first. */
  function TurnAll(l: Look, moves: seq<MouseMove>): Look
    decreases |moves|
  {
    if moves == [] then l
    else Turn(TurnAll(l, moves[..|moves| - 1]), moves[|moves| - 1])
  }

  function TotalDx(moves: seq<MouseMove>): real
    decreases |moves|
  {
    if moves == [] then 0.0 else TotalDx(moves[..|moves| - 1]) + moves[|moves| - 1].dx
  }

  /**
   * However large the accumulated motion, pitch stays inside [-pi/2, pi/2],
   * while yaw is never clamped: it is the start yaw minus 0.002 times the
   * summed horizontal motion.
   */
  lemma {:induction false} TurnAllBounds(l: Look, moves: seq<MouseMove>)
    requires -HalfPi <= l.pitch <= HalfPi
    ensures TurnAll(l, moves).yaw == l.yaw - TotalDx(moves) * Sensitivity
    ensures -HalfPi <= TurnAll(l, moves).pitch <= HalfPi
    decreases |moves|
  {
    if moves != [] {
      TurnAllBounds(l, moves[..|moves| - 1]);
    }
  }
}
