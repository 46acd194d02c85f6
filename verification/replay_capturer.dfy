/** Replay frame capture during gameplay.

    Once per update, the capturer appends frames to the replay being recorded:
    one when the pressed lanes change, one when the combo differs from the
    last recorded combo, and one each time the capture interval elapses.  The
    replay is only ever appended to.  The gameplay screen's fields that the
    capturer reads are passed in per call as a `Gameplay` value. */
module Replays {

  /** A key press state: the set of pressed lanes, numbered from 1.  It stands
      for the source's lane bitmask, with union in place of bitwise or. */
  type PressState = set<int>

  /** The flag of one lane. */
  function KeyLaneToPressState(lane: int): (s: PressState)
    ensures lane in s && |s| == 1
  {
    {lane}
  }

  datatype Frame = Frame(time: real, keyPressState: PressState)

  /** What the capturer reads from the gameplay screen on one update. */
  datatype Gameplay = Gameplay(
    isPaused: bool,
    failed: bool,
    isPlayComplete: bool,
    lastRecordedCombo: int,
    combo: int,
    currentTime: real,
    bindingsPressed: seq<bool>)

  /** The capturer's state: the replay's frames, the time since the last
      interval frame, and the last recorded press state. */
  datatype CaptureState = CaptureState(frames: seq<Frame>, timeSinceLastCapture: real, lastKeyPressState: PressState)

  /** The sample frame every replay starts with. */
  const InitialFrame := Frame(-10000.0, {})

  /** The lanes pressed in a binding store: lane i + 1 for each pressed binding i. */
  function PressedLanes(pressed: seq<bool>): (lanes: PressState)
    ensures forall lane :: lane in lanes <==> 1 <= lane <= |pressed| && pressed[lane - 1]
  {
    if pressed == [] then {}
    else
      var n := |pressed| - 1;
      PressedLanes(pressed[..n]) + (if pressed[n] then KeyLaneToPressState(n + 1) else {})
  }

  /** Converts a binding store to a key press state. */
  method BindingStoreToKeyPressState(pressed: seq<bool>) returns (state: PressState)
    ensures state == PressedLanes(pressed)
    ensures forall lane :: lane in state <==> 1 <= lane <= |pressed| && pressed[lane - 1]
    ensures (forall i :: 0 <= i < |pressed| ==> !pressed[i]) ==> state == {}
  {
    state := {};
    for i := 0 to |pressed|
      invariant state == PressedLanes(pressed[..i])
    {
      PressedLanesSnoc(pressed, i);
      if pressed[i] {
        state := state + KeyLaneToPressState(i + 1);
      }
    }
    assert pressed[..|pressed|] == pressed;
  }

  lemma PressedLanesSnoc(pressed: seq<bool>, i: nat)
    requires i < |pressed|
    ensures PressedLanes(pressed[..i + 1])
         == PressedLanes(pressed[..i]) + (if pressed[i] then KeyLaneToPressState(i + 1) else {})
  {
    assert pressed[..i + 1][..i] == pressed[..i];
  }

  /** A capture is skipped while the game is paused, failed or complete. */
  predicate Skipped(g: Gameplay)
  {
    g.isPaused || g.failed || g.isPlayComplete
  }

  /** The number of frames a non-skipped capture appends: one per condition that holds. */
  function FramesDue(s: CaptureState, dt: real, g: Gameplay, interval: real): nat
  {
    (if s.lastKeyPressState != PressedLanes(g.bindingsPressed) then 1 else 0)
    + (if g.lastRecordedCombo != g.combo then 1 else 0)
    + (if s.timeSinceLastCapture + dt >= interval then 1 else 0)
  }

  /** One update of the capturer, `dt` after the previous one. */
  function CaptureStep(s: CaptureState, dt: real, g: Gameplay, interval: real): (r: CaptureState)
    ensures Skipped(g) ==> r == s
    ensures !Skipped(g) ==>
      && s.frames <= r.frames
      && |r.frames| == |s.frames| + FramesDue(s, dt, g, interval) <= |s.frames| + 3
      && (forall i :: |s.frames| <= i < |r.frames| ==> r.frames[i] == Frame(g.currentTime, PressedLanes(g.bindingsPressed)))
      && r.lastKeyPressState == PressedLanes(g.bindingsPressed)
      && (s.timeSinceLastCapture + dt >= interval ==> r.timeSinceLastCapture == 0.0)
      && (s.timeSinceLastCapture + dt < interval ==> r.timeSinceLastCapture == s.timeSinceLastCapture + dt)
  {
    if Skipped(g) then s
    else
      var acc := s.timeSinceLastCapture + dt;
      var current := PressedLanes(g.bindingsPressed);
      var frame := Frame(g.currentTime, current);
      var f1 := if s.lastKeyPressState != current then s.frames + [frame] else s.frames;
      var f2 := if g.lastRecordedCombo != g.combo then f1 + [frame] else f1;
      var f3 := if acc >= interval then f2 + [frame] else f2;
      CaptureState(f3, if acc >= interval then 0.0 else acc, current)
  }

  /** The last frame records the last press state. */
  predicate Consistent(s: CaptureState)
  {
    |s.frames| > 0 && s.frames[|s.frames| - 1].keyPressState == s.lastKeyPressState
  }

  /** Frame times never decrease. */
  predicate Chronological(frames: seq<Frame>)
  {
    forall i, j :: 0 <= i < j < |frames| ==> frames[i].time <= frames[j].time
  }

  /** A press-state change is always recorded: after a non-skipped capture the
      last frame carries the current press state. */
  lemma CaptureStepConsistent(s: CaptureState, dt: real, g: Gameplay, interval: real)
    requires Consistent(s)
    ensures Consistent(CaptureStep(s, dt, g, interval))
    ensures !Skipped(g) ==> CaptureStep(s, dt, g, interval).frames[|CaptureStep(s, dt, g, interval).frames| - 1]
                            == if FramesDue(s, dt, g, interval) == 0 then s.frames[|s.frames| - 1]
                               else Frame(g.currentTime, PressedLanes(g.bindingsPressed))
  {
    var r := CaptureStep(s, dt, g, interval);
    if !Skipped(g) && FramesDue(s, dt, g, interval) == 0 {
      assert r.frames == s.frames;
    }
  }

  /** Frames stay in time order when the screen's clock does not go back. */
  lemma CaptureStepChronological(s: CaptureState, dt: real, g: Gameplay, interval: real)
    requires Chronological(s.frames)
    requires Skipped(g) || forall i :: 0 <= i < |s.frames| ==> s.frames[i].time <= g.currentTime
    ensures Chronological(CaptureStep(s, dt, g, interval).frames)
  {
  }

  /** The accumulator stays below a positive capture interval. */
  lemma CaptureStepAccumulatorBelowInterval(s: CaptureState, dt: real, g: Gameplay, interval: real)
    requires 0.0 < interval && s.timeSinceLastCapture < interval
    ensures CaptureStep(s, dt, g, interval).timeSinceLastCapture < interval
  {
  }

  /** One update: the time elapsed since the previous one and the screen's fields. */
  datatype Tick = Tick(dt: real, screen: Gameplay)

  /** The capturer's state after a sequence of updates. */
  function Run(s: CaptureState, ticks: seq<Tick>, interval: real): CaptureState
    decreases |ticks|
  {
    if ticks == [] then s
    else
      var n := |ticks| - 1;
      CaptureStep(Run(s, ticks[..n], interval), ticks[n].dt, ticks[n].screen, interval)
  }

  /** The state a new capturer starts in. */
  function Initial(): (s: CaptureState)
    ensures s.frames == [InitialFrame] && Consistent(s)
  {
    CaptureState([InitialFrame], 0.0, {})
  }

  /** Frames are only ever appended, at most three per update. */
  lemma {:induction false} RunAppendOnly(s: CaptureState, ticks: seq<Tick>, interval: real)
    ensures s.frames <= Run(s, ticks, interval).frames
    ensures |Run(s, ticks, interval).frames| <= |s.frames| + 3 * |ticks|
    decreases |ticks|
  {
    if ticks != [] {
      var n := |ticks| - 1;
      RunAppendOnly(s, ticks[..n], interval);
      var p := Run(s, ticks[..n], interval);
      assert p.frames <= CaptureStep(p, ticks[n].dt, ticks[n].screen, interval).frames;
    }
  }

  /** Every replay starts with the sample frame. */
  lemma RunKeepsInitialFrame(ticks: seq<Tick>, interval: real)
    ensures |Run(Initial(), ticks, interval).frames| >= 1
    ensures Run(Initial(), ticks, interval).frames[0] == InitialFrame
  {
    RunAppendOnly(Initial(), ticks, interval);
  }

  lemma {:induction false} RunConsistent(s: CaptureState, ticks: seq<Tick>, interval: real)
    requires Consistent(s)
    ensures Consistent(Run(s, ticks, interval))
    decreases |ticks|
  {
    if ticks != [] {
      var n := |ticks| - 1;
      RunConsistent(s, ticks[..n], interval);
      CaptureStepConsistent(Run(s, ticks[..n], interval), ticks[n].dt, ticks[n].screen, interval);
    }
  }

  lemma {:induction false} RunAccumulatorBelowInterval(s: CaptureState, ticks: seq<Tick>, interval: real)
    requires 0.0 < interval && s.timeSinceLastCapture < interval
    ensures Run(s, ticks, interval).timeSinceLastCapture < interval
    decreases |ticks|
  {
    if ticks != [] {
      var n := |ticks| - 1;
      RunAccumulatorBelowInterval(s, ticks[..n], interval);
      CaptureStepAccumulatorBelowInterval(Run(s, ticks[..n], interval), ticks[n].dt, ticks[n].screen, interval);
    }
  }

  /** Updates that are all skipped leave the capturer as it was. */
  lemma {:induction false} RunSkipped(s: CaptureState, ticks: seq<Tick>, interval: real)
    requires forall i :: 0 <= i < |ticks| ==> Skipped(ticks[i].screen)
    ensures Run(s, ticks, interval) == s
    decreases |ticks|
  {
    if ticks != [] {
      var n := |ticks| - 1;
      RunSkipped(s, ticks[..n], interval);
    }
  }

  /** The screen clocks of the non-skipped updates never go back and start no earlier than `t0`. */
  ghost predicate ClockFrom(t0: real, ticks: seq<Tick>)
  {
    && (forall i, j :: 0 <= i < j < |ticks| && !Skipped(ticks[i].screen) && !Skipped(ticks[j].screen)
                       ==> ticks[i].screen.currentTime <= ticks[j].screen.currentTime)
    && (forall i :: 0 <= i < |ticks| && !Skipped(ticks[i].screen) ==> t0 <= ticks[i].screen.currentTime)
  }

  /** With a clock that does not go back, the replay's frames are in time order
      and none is later than the last non-skipped update. */
  lemma {:induction false} RunChronological(s: CaptureState, t0: real, ticks: seq<Tick>, interval: real)
    requires Chronological(s.frames)
    requires forall i :: 0 <= i < |s.frames| ==> s.frames[i].time <= t0
    requires ClockFrom(t0, ticks)
    ensures Chronological(Run(s, ticks, interval).frames)
    ensures forall i :: 0 <= i < |Run(s, ticks, interval).frames| ==>
              Run(s, ticks, interval).frames[i].time <= t0
              || exists k :: 0 <= k < |ticks| && !Skipped(ticks[k].screen) && Run(s, ticks, interval).frames[i].time <= ticks[k].screen.currentTime
    decreases |ticks|
  {
    if ticks != [] {
      var n := |ticks| - 1;
      assert ClockFrom(t0, ticks[..n]);
      RunChronological(s, t0, ticks[..n], interval);
      var p := Run(s, ticks[..n], interval);
      var g := ticks[n].screen;
      if !Skipped(g) {
        forall i | 0 <= i < |p.frames|
          ensures p.frames[i].time <= g.currentTime
        {
          if p.frames[i].time > t0 {
            var k :| 0 <= k < n && !Skipped(ticks[..n][k].screen) && p.frames[i].time <= ticks[..n][k].screen.currentTime;
            assert ticks[k] == ticks[..n][k];
            assert ticks[k].screen.currentTime <= g.currentTime;
          } else {
            assert t0 <= g.currentTime;
          }
        }
      }
      CaptureStepChronological(p, ticks[n].dt, g, interval);
      var r := Run(s, ticks, interval);
      forall i | 0 <= i < |r.frames|
        ensures r.frames[i].time <= t0
                || exists k :: 0 <= k < |ticks| && !Skipped(ticks[k].screen) && r.frames[i].time <= ticks[k].screen.currentTime
      {
        if i < |p.frames| {
          assert r.frames[i] == p.frames[i];
          if p.frames[i].time > t0 {
            var k :| 0 <= k < n && !Skipped(ticks[..n][k].screen) && p.frames[i].time <= ticks[..n][k].screen.currentTime;
            assert ticks[k] == ticks[..n][k];
          }
        } else {
          assert !Skipped(g) && r.frames[i].time <= ticks[n].screen.currentTime;
        }
      }
    }
  }

  /** The capturer of one gameplay session. */
  class ReplayCapturer {
    const captureInterval: real
    var frames: seq<Frame>
    var timeSinceLastCapture: real
    var lastKeyPressState: PressState

    function State(): CaptureState
      reads this
    {
      CaptureState(frames, timeSinceLastCapture, lastKeyPressState)
    }

    /** The replay's frames start with the sample frame and end with the last recorded press state. */
    predicate Valid()
      reads this
    {
      Consistent(State()) && frames[0] == InitialFrame
    }

    constructor(captureInterval: real)
      ensures this.captureInterval == captureInterval
      ensures State() == Initial() && Valid()
    {
      this.captureInterval := captureInterval;
      frames := [];
      timeSinceLastCapture := 0.0;
      lastKeyPressState := {};
      new;
      AddFrame(InitialFrame.time, InitialFrame.keyPressState);
    }

    /** Records the frames due on this update. */
    method Capture(dt: real, g: Gameplay)
      requires Valid()
      modifies this
      ensures State() == CaptureStep(old(State()), dt, g, captureInterval)
      ensures Valid()
    {
      ghost var s := State();
      if g.isPaused || g.failed || g.isPlayComplete {
        return;
      }
      timeSinceLastCapture := timeSinceLastCapture + dt;
      var currentPressState := BindingStoreToKeyPressState(g.bindingsPressed);
      if lastKeyPressState != currentPressState {
        AddFrame(g.currentTime, currentPressState);
      }
      if g.lastRecordedCombo != g.combo {
        AddFrame(g.currentTime, currentPressState);
      }
      if timeSinceLastCapture >= captureInterval {
        AddFrame(g.currentTime, currentPressState);
        timeSinceLastCapture := 0.0;
      }
      lastKeyPressState := BindingStoreToKeyPressState(g.bindingsPressed);
      CaptureStepConsistent(s, dt, g, captureInterval);
    }

    /** Appends one frame to the replay. */
    method AddFrame(time: real, state: PressState)
      modifies this`frames
      ensures frames == old(frames) + [Frame(time, state)]
    {
      frames := frames + [Frame(time, state)];
    }
  }
}
