/**
 * The agent's mouse-idle detector (client/Windows/mouse_tracker.py). Cursor positions and
 * clock readings are integers passed in; a failed cursor read is `None`.
 */
module Mouse {
  import opened Wrappers

  datatype Pos = Pos(x: int, y: int)

  /** The tracker's fields as a value. */
  datatype TrackerState = TrackerState(lastPos: Pos, lastMoveTime: int, idle: bool)

  function Abs(n: int): nat {
    if n < 0 then -n else n
  }

  /** The cursor moved: the squared distance is strictly above the squared threshold. */
  predicate Moved(last: Pos, current: Pos, threshold: int) {
    var dx := Abs(current.x - last.x);
    var dy := Abs(current.y - last.y);
    dx * dx + dy * dy > threshold * threshold
  }

  /** The specification of one `check_idle` call: the state afterwards. */
  function Step(s: TrackerState, idleMinutes: int, threshold: int, reading: Option<Pos>, now: int): TrackerState {
    match reading
    case None => s
    case Some(current) =>
      if Moved(s.lastPos, current, threshold) then TrackerState(current, now, false)
      else if now - s.lastMoveTime > idleMinutes * 60 then s.(idle := true)
      else s
  }

  class MouseTracker {
    /** `mouse_idle_time`, in minutes. */
    const idleMinutes: int
    /** `mouse_move_threshold`, in pixels. */
    const moveThreshold: int
    var lastMousePos: Pos
    var lastMouseMoveTime: int
    var isMouseIdle: bool

    function State(): TrackerState
      reads this
    {
      TrackerState(lastMousePos, lastMouseMoveTime, isMouseIdle)
    }

    /** `MouseTracker(idle_time_minutes, move_threshold)`, with the cursor and the clock read
        once each. The defaults are 5 minutes and 10 pixels. */
    constructor (idleTimeMinutes: int, threshold: int, pos: Pos, now: int)
      ensures idleMinutes == idleTimeMinutes && moveThreshold == threshold
      ensures State() == TrackerState(pos, now, false)
    {
      idleMinutes := idleTimeMinutes;
      moveThreshold := threshold;
      lastMousePos := pos;
      lastMouseMoveTime := now;
      isMouseIdle := false;
    }

    /** `check_idle`: the answer is always the idle flag as it stands after the call. */
    method CheckIdle(reading: Option<Pos>, now: int) returns (idle: bool)
      modifies this
      ensures State() == Step(old(State()), idleMinutes, moveThreshold, reading, now)
      ensures idle == isMouseIdle
    {
      if reading.None? {
        return isMouseIdle;
      }
      var current := reading.value;
      var dx := Abs(current.x - lastMousePos.x);
      var dy := Abs(current.y - lastMousePos.y);
      var distanceSquared := dx * dx + dy * dy;
      var thresholdSquared := moveThreshold * moveThreshold;
      if distanceSquared > thresholdSquared {
        lastMousePos := current;
        lastMouseMoveTime := now;
        if isMouseIdle {
          isMouseIdle := false;
        }
        return false;
      }
      var idleTime := now - lastMouseMoveTime;
      if idleTime > idleMinutes * 60 {
        if !isMouseIdle {
          isMouseIdle := true;
        }
        return true;
      }
      return isMouseIdle;
    }

    /** `reset`: a fresh position and time, and not idle. */
    method Reset(pos: Pos, now: int)
      modifies this
      ensures State() == TrackerState(pos, now, false)
    {
      lastMousePos := pos;
      lastMouseMoveTime := now;
      isMouseIdle := false;
    }
  }

  /** A movement above the threshold clears the idle flag and records the new position
      and time. */
  lemma MovementWakes(s: TrackerState, idleMinutes: int, threshold: int, current: Pos, now: int)
    requires Moved(s.lastPos, current, threshold)
    ensures Step(s, idleMinutes, threshold, Some(current), now) == TrackerState(current, now, false)
  {
  }

  /** A movement of exactly the threshold distance is not a movement. */
  lemma ThresholdIsNotMovement(last: Pos, current: Pos, threshold: int)
    requires (current.x - last.x) * (current.x - last.x) + (current.y - last.y) * (current.y - last.y)
      == threshold * threshold
    ensures !Moved(last, current, threshold)
  {
    assert Abs(current.x - last.x) * Abs(current.x - last.x) == (current.x - last.x) * (current.x - last.x);
    assert Abs(current.y - last.y) * Abs(current.y - last.y) == (current.y - last.y) * (current.y - last.y);
  }

  /** Without movement the tracker turns idle once more than `idleMinutes * 60` seconds have
      passed since the last movement, and otherwise keeps its flag. Position and time of the
      last movement stay as they were either way. */
  lemma StillnessTimesOut(s: TrackerState, idleMinutes: int, threshold: int, current: Pos, now: int)
    requires !Moved(s.lastPos, current, threshold)
    ensures var t := Step(s, idleMinutes, threshold, Some(current), now);
      && t.lastPos == s.lastPos && t.lastMoveTime == s.lastMoveTime
      && t.idle == (s.idle || now - s.lastMoveTime > idleMinutes * 60)
  {
  }

  /** A failed cursor read changes nothing. */
  lemma ReadErrorChangesNothing(s: TrackerState, idleMinutes: int, threshold: int, now: int)
    ensures Step(s, idleMinutes, threshold, None, now) == s
  {
  }

  /** Once idle, the tracker stays idle over any run of readings with no movement. */
  lemma {:induction false} IdleIsSticky(s: TrackerState, idleMinutes: int, threshold: int,
                                        readings: seq<Option<Pos>>, times: seq<int>)
    requires s.idle && |readings| == |times|
    requires forall k :: 0 <= k < |readings| && readings[k].Some? ==> !Moved(s.lastPos, readings[k].value, threshold)
    ensures StepAll(s, idleMinutes, threshold, readings, times).idle
    ensures StepAll(s, idleMinutes, threshold, readings, times).lastPos == s.lastPos
    decreases |readings|
  {
    if |readings| > 0 {
      var t := Step(s, idleMinutes, threshold, readings[0], times[0]);
      assert t.idle && t.lastPos == s.lastPos;
      IdleIsSticky(t, idleMinutes, threshold, readings[1..], times[1..]);
    }
  }

  /** A run of `check_idle` calls. */
  function StepAll(s: TrackerState, idleMinutes: int, threshold: int, readings: seq<Option<Pos>>, times: seq<int>)
    : TrackerState
    requires |readings| == |times|
    decreases |readings|
  {
    if |readings| == 0 then s
    else StepAll(Step(s, idleMinutes, threshold, readings[0], times[0]), idleMinutes, threshold, readings[1..], times[1..])
  }
}
