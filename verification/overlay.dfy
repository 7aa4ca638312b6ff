/**
 * The `useCoachingOverlay` hook of `apps/web/src/useCoachingOverlay.js` as a
 * state machine driven by two events: the tension prop changing (React
 * re-runs the effect, running the previous effect's cleanup first) and the
 * pending 2-second timeout firing.
 *
 * `timerRef` and the timeout it names are tracked separately, because the
 * effect's cleanup clears the timeout without resetting the ref.
 */
module Overlay {

  /** At or above this, a hold timer starts. */
  const HighTension: int := 70
  /** Below this, the overlay hides. */
  const LowTension: int := 50

  /** `tension` is the value the effect last ran for; `show` is `showOverlay`;
      `qualified` is `qualifiedRef.current`; `timerRef` is whether
      `timerRef.current` holds an id; `timerLive` is whether that timeout is
      still scheduled; `timersStarted` counts `setTimeout` calls. */
  datatype OverlayState = OverlayState(
    tension: int,
    show: bool,
    qualified: bool,
    timerRef: bool,
    timerLive: bool,
    timersStarted: nat)

  datatype OverlayEvent = TensionChanged(value: int) | TimerFired

  /** A scheduled timeout is always the one `timerRef` names: at most one is pending. */
  predicate Inv(s: OverlayState) {
    s.timerLive ==> s.timerRef
  }

  /** The effect body for tension `v`. */
  function Body(s: OverlayState, v: int): (r: OverlayState)
    ensures Inv(s) ==> Inv(r)
    // at or above 70 a ref is always held; a timer starts only if none was held
    ensures v >= HighTension ==> r.timerRef && (r.timerLive <==> s.timerLive || !s.timerRef)
    ensures r.timersStarted == s.timersStarted + (if v >= HighTension && !s.timerRef then 1 else 0)
    // below 70 the timer is cancelled and the ref reset
    ensures v < HighTension ==> !r.timerRef
    ensures Inv(s) && v < HighTension ==> !r.timerLive
    ensures v < LowTension ==> !r.show && !r.qualified
    ensures v >= LowTension ==> r.show == s.show && r.qualified == s.qualified
    ensures r.tension == s.tension
  {
    if v >= HighTension then
      if !s.timerRef then s.(timerRef := true, timerLive := true, timersStarted := s.timersStarted + 1) else s
    else
      var cancelled := if s.timerRef then s.(timerRef := false, timerLive := false) else s;
      if v < LowTension then cancelled.(qualified := false, show := false) else cancelled
  }

  /** The effect cleanup as written: clears the timeout, keeps the ref. */
  function Cleanup(s: OverlayState): (r: OverlayState)
    ensures Inv(s) ==> !r.timerLive
    // the ref survives the cleanup
    ensures r.timerRef == s.timerRef
    ensures r.(timerLive := s.timerLive) == s
  {
    if s.timerRef then s.(timerLive := false) else s
  }

  /** First render: the effect runs once for the initial tension. */
  function Mount(v: int): (r: OverlayState)
    ensures Inv(r) && !r.show
    ensures r.timerLive <==> v >= HighTension
  {
    Body(OverlayState(v, false, false, false, false, 0), v)
  }

  /** The hook's reaction to one event. */
  function Step(s: OverlayState, e: OverlayEvent): (r: OverlayState)
    ensures Inv(s) ==> Inv(r)
    // a new timer is only ever started when none is pending
    ensures Inv(s) && r.timersStarted != s.timersStarted ==> !s.timerLive && r.timersStarted == s.timersStarted + 1
    // the overlay appears only when the pending timer fires
    ensures !s.show && r.show ==> e.TimerFired? && s.timerLive
    ensures e.TimerFired? && s.timerLive ==> r.show && r.qualified && !r.timerRef && !r.timerLive
    // falling below 70 cancels any pending timer
    ensures Inv(s) && e.TensionChanged? && e.value != s.tension && e.value < HighTension ==> !r.timerRef && !r.timerLive
    // below 50 hides; between 50 and 70 visibility is kept (hysteresis)
    ensures e.TensionChanged? && e.value != s.tension && e.value < LowTension ==> !r.show && !r.qualified
    ensures e.TensionChanged? && e.value >= LowTension ==> r.show == s.show
    ensures e.TensionChanged? ==> r.tension == e.value
    // a change to 70 or above keeps a ref; a timer runs only if no ref was held before
    ensures Inv(s) && e.TensionChanged? && e.value != s.tension && e.value >= HighTension ==>
      && r.timerRef && (r.timerLive <==> !s.timerRef)
      && r.timersStarted == s.timersStarted + (if s.timerRef then 0 else 1)
  {
    match e
    case TensionChanged(v) =>
      if v == s.tension then s else Body(Cleanup(s).(tension := v), v)
    case TimerFired =>
      if s.timerLive then s.(qualified := true, show := true, timerRef := false, timerLive := false) else s
  }

  function Run(s: OverlayState, evs: seq<OverlayEvent>): OverlayState
    decreases |evs|
  {
    if |evs| == 0 then s else Run(Step(s, evs[0]), evs[1..])
  }

  /** No event in `evs` takes the tension below the high threshold. */
  predicate StaysHigh(evs: seq<OverlayEvent>) {
    forall i :: 0 <= i < |evs| ==> evs[i].TimerFired? || evs[i].value >= HighTension
  }

  /** As written: once a change while high has left a stale `timerRef`, no
      timer is pending and none can start until tension drops below 70, so
      the overlay stays as it was however long tension stays high. */
  lemma {:induction false} StaleRefBlocksOverlay(s: OverlayState, evs: seq<OverlayEvent>)
    requires s.timerRef && !s.timerLive
    requires StaysHigh(evs)
    ensures var r := Run(s, evs);
      r.show == s.show && r.timerRef && !r.timerLive && r.timersStarted == s.timersStarted
    decreases |evs|
  {
    if |evs| > 0 {
      assert evs[0].TimerFired? || evs[0].value >= HighTension;
      assert StaysHigh(evs[1..]) by {
        forall i | 0 <= i < |evs[1..]| ensures evs[1..][i].TimerFired? || evs[1..][i].value >= HighTension {
          assert evs[1..][i] == evs[i + 1];
        }
      }
      StaleRefBlocksOverlay(Step(s, evs[0]), evs[1..]);
    }
  }

  /** As written: tension 72, then 75 during the hold, then the 2 seconds
      pass -- and the overlay never shows. */
  lemma HighTensionChangeLosesTimer()
    ensures var s1 := Step(Mount(72), TensionChanged(75));
      && s1.timerRef && !s1.timerLive
      && !Step(s1, TimerFired).show
  {
  }

  // ----- Corrected hook: the timeout is cleared only on unmount -----

  /** The hook with the cleanup removed from the tension effect, so that a
      pending timer survives tension changes that stay at or above 70. */
  function StepFixed(s: OverlayState, e: OverlayEvent): (r: OverlayState)
    ensures Inv(s) ==> Inv(r)
    ensures Inv(s) && r.timersStarted != s.timersStarted ==> !s.timerLive && r.timersStarted == s.timersStarted + 1
    ensures !s.show && r.show ==> e.TimerFired? && s.timerLive
    ensures Inv(s) && e.TensionChanged? && e.value != s.tension && e.value < HighTension ==> !r.timerRef && !r.timerLive
    ensures e.TensionChanged? && e.value != s.tension && e.value < LowTension ==> !r.show && !r.qualified
    ensures e.TensionChanged? && e.value >= LowTension ==> r.show == s.show
    // a tension change at or above 70 never loses a pending timer
    ensures Inv(s) && e.TensionChanged? && e.value >= HighTension ==> r.timerLive == (s.timerLive || (s.tension != e.value && !s.timerRef))
  {
    match e
    case TensionChanged(v) =>
      if v == s.tension then s else Body(s.(tension := v), v)
    case TimerFired =>
      if s.timerLive then s.(qualified := true, show := true, timerRef := false, timerLive := false) else s
  }

  function RunFixed(s: OverlayState, evs: seq<OverlayEvent>): OverlayState
    decreases |evs|
  {
    if |evs| == 0 then s else RunFixed(StepFixed(s, evs[0]), evs[1..])
  }

  /** Corrected: once a hold timer is pending (or the overlay is up), tension
      that stays at or above 70 keeps it that way, so the overlay is up once
      the hold time has passed. */
  lemma {:induction false} FixedHoldSurvivesChanges(s: OverlayState, evs: seq<OverlayEvent>)
    requires Inv(s) && (s.timerLive || s.show)
    requires StaysHigh(evs)
    ensures var r := RunFixed(s, evs);
      Inv(r) && (r.timerLive || r.show)
    ensures RunFixed(s, evs + [TimerFired]).show
    decreases |evs|
  {
    if |evs| == 0 {
      assert evs + [TimerFired] == [TimerFired];
    } else {
      assert evs[0].TimerFired? || evs[0].value >= HighTension;
      assert StaysHigh(evs[1..]) by {
        forall i | 0 <= i < |evs[1..]| ensures evs[1..][i].TimerFired? || evs[1..][i].value >= HighTension {
          assert evs[1..][i] == evs[i + 1];
        }
      }
      assert (evs + [TimerFired])[0] == evs[0];
      assert (evs + [TimerFired])[1..] == evs[1..] + [TimerFired];
      FixedHoldSurvivesChanges(StepFixed(s, evs[0]), evs[1..]);
    }
  }

  /** Corrected: the scenario that loses the overlay as written now shows it. */
  lemma FixedHighTensionChangeKeepsTimer()
    ensures var s1 := StepFixed(Mount(72), TensionChanged(75));
      && s1.timerLive
      && StepFixed(s1, TimerFired).show
  {
  }
}
