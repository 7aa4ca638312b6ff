/**
 * The deterministic tension score of `apps/server/app/tension.py`: a stateful
 * function from one audio telemetry sample to an integer 0..100, and the
 * periodic loop that takes the oldest queued sample each tick and scores it,
 * or re-scores the sample it kept when nothing is queued.
 *
 * Python floats are modelled as exact reals; `int()` of the clamped,
 * non-negative score is `.Floor`.
 */
module Tension {
  import opened Wrappers
  import opened Numeric

  /** `AudioTelemetry`: one classified chunk of user audio. */
  datatype Telemetry = Telemetry(rms: real, isSilence: bool, isOverlap: bool, ts: real)

  /** `TensionState.silence_threshold_sec`, never overridden in the repository. */
  const SilenceThresholdSec: real := 2.5
  /** `TensionState.max_rms_history`, never overridden in the repository. */
  const MaxRmsHistory: nat := 30
  const VolumeGain: real := 1.5
  const OverlapGain: real := 0.2

  /** `TensionState` minus the two constant fields above. */
  datatype TensionState = TensionState(
    lastRms: real,
    silenceStart: Option<real>,
    overlapCount: nat,
    recentRms: seq<real>)

  /** `TensionState()` as the handler creates it. */
  const Initial: TensionState := TensionState(0.0, None, 0, [])

  /** The last `n` elements of `xs` (all of them when there are fewer). */
  function LastN<T>(xs: seq<T>, n: nat): (r: seq<T>)
    ensures |r| == if |xs| <= n then |xs| else n
    ensures r == xs[|xs| - |r|..]
  {
    if |xs| <= n then xs else xs[|xs| - n..]
  }

  /** Append to the bounded volume history, evicting the oldest entry when
      the bound is exceeded. */
  function Push(h: seq<real>, x: real): (r: seq<real>)
    ensures |h| <= MaxRmsHistory ==> r == LastN(h + [x], MaxRmsHistory)
    ensures |r| > 0 && r[|r| - 1] == x
  {
    var appended := h + [x];
    if |appended| > MaxRmsHistory then appended[1..] else appended
  }

  /** The state update at the top of `compute_tension_from_telemetry`. */
  function Update(t: Telemetry, s: TensionState): (r: TensionState)
    ensures r.lastRms == t.rms
    // silence_start is set exactly while the latest sample is silent ...
    ensures r.silenceStart.Some? <==> t.isSilence
    // ... and a silent sample never moves an episode's start
    ensures t.isSilence && s.silenceStart.Some? ==> r.silenceStart == s.silenceStart
    ensures t.isSilence && s.silenceStart.None? ==> r.silenceStart == Some(t.ts)
    ensures r.overlapCount == s.overlapCount + (if t.isOverlap then 1 else 0)
    ensures t.isSilence ==> r.recentRms == s.recentRms
    ensures !t.isSilence && |s.recentRms| <= MaxRmsHistory ==> r.recentRms == LastN(s.recentRms + [t.rms], MaxRmsHistory)
    ensures |s.recentRms| <= MaxRmsHistory ==> |r.recentRms| <= MaxRmsHistory
  {
    var start :=
      if !t.isSilence then None
      else if s.silenceStart.None? then Some(t.ts)
      else s.silenceStart;
    var history := if t.isSilence then s.recentRms else Push(s.recentRms, t.rms);
    TensionState(t.rms, start, s.overlapCount + (if t.isOverlap then 1 else 0), history)
  }

  /** Volume component, read from the updated state. */
  function VolumeScore(s: TensionState): (r: real)
    ensures r <= 1.0
    // no volume before any non-silent sample has been recorded
    ensures |s.recentRms| == 0 ==> r == 0.0
    ensures s.lastRms >= 0.0 ==> r >= 0.0
    // full scale from two thirds of the maximum RMS upwards
    ensures |s.recentRms| > 0 && s.lastRms * 3.0 >= 2.0 ==> r == 1.0
  {
    if |s.recentRms| > 0 then Min(1.0, s.lastRms * VolumeGain) else 0.0
  }

  /** Seconds of the current silence episode. Python tests `silence_start`
      for truthiness, so an episode that started at time 0.0 counts as none. */
  function SilenceSeconds(t: Telemetry, s: TensionState): (r: real)
    ensures s.silenceStart.None? ==> r == 0.0
    ensures s.silenceStart == Some(0.0) ==> r == 0.0
    ensures s.silenceStart.Some? && s.silenceStart.value <= t.ts ==> r >= 0.0
  {
    if s.silenceStart.Some? && s.silenceStart.value != 0.0 then t.ts - s.silenceStart.value else 0.0
  }

  /** Silence component, read from the updated state. */
  function SilenceScore(t: Telemetry, s: TensionState): (r: real)
    ensures r <= 1.0
    ensures !t.isSilence ==> r == 0.0
    ensures s.silenceStart.None? || s.silenceStart.value <= t.ts ==> r >= 0.0
    // saturates once the episode has lasted the threshold
    ensures t.isSilence && SilenceSeconds(t, s) >= SilenceThresholdSec ==> r == 1.0
  {
    if t.isSilence then Min(1.0, SilenceSeconds(t, s) / SilenceThresholdSec) else 0.0
  }

  /** Overlap component, read from the updated state. */
  function OverlapScore(s: TensionState): (r: real)
    ensures 0.0 <= r <= 1.0
    ensures s.overlapCount == 0 <==> r == 0.0
    // saturates from the fifth overlap on
    ensures s.overlapCount >= 5 <==> r == 1.0
  {
    Min(1.0, s.overlapCount as real * OverlapGain)
  }

  /** `int(min(100, max(0, combined * 100)))`. */
  function Combine(volume: real, silence: real, overlap: real): (score: int)
    ensures 0 <= score <= 100
    ensures volume <= 1.0 && silence <= 1.0 && overlap <= 1.0 && 0.0 <= volume && 0.0 <= silence && 0.0 <= overlap ==>
      score as real <= (0.5 * volume + 0.3 * silence + 0.2 * overlap) * 100.0 < score as real + 1.0
  {
    var combined := 0.5 * volume + 0.3 * silence + 0.2 * overlap;
    Trunc(Clamp(0.0, 100.0, combined * 100.0))
  }

  datatype Scored = Scored(score: int, state: TensionState)

  /** `compute_tension_from_telemetry`: the score and the updated state. */
  function Compute(t: Telemetry, s: TensionState): (r: Scored)
    ensures 0 <= r.score <= 100
    ensures r.state == Update(t, s)
  {
    var s' := Update(t, s);
    Scored(Combine(VolumeScore(s'), SilenceScore(t, s'), OverlapScore(s')), s')
  }

  /** Each component is at most 1; volume and overlap are never negative,
      and silence is negative only if time runs backwards within an episode. */
  lemma ComponentsBounded(t: Telemetry, s: TensionState)
    ensures var s' := Update(t, s);
      && VolumeScore(s') <= 1.0
      && SilenceScore(t, s') <= 1.0
      && 0.0 <= OverlapScore(s') <= 1.0
      && (t.rms >= 0.0 ==> VolumeScore(s') >= 0.0)
      && (s.silenceStart.Some? ==> (t.ts >= s.silenceStart.value ==> SilenceScore(t, s') >= 0.0))
  {
  }

  /** The volume component is zero until a non-silent sample has been seen,
      and from then on it is `min(1, 1.5 * rms)` of the CURRENT sample, even
      when that sample is silent. */
  lemma VolumeOfCurrentSample(t: Telemetry, s: TensionState)
    ensures var s' := Update(t, s);
      VolumeScore(s') == if t.isSilence && |s.recentRms| == 0 then 0.0 else Min(1.0, VolumeGain * t.rms)
  {
  }

  // ----- Replaying a sequence of samples -----

  /** The state after scoring `xs` in order, starting from `s`. */
  function Replay(s: TensionState, xs: seq<Telemetry>): (r: TensionState)
    ensures |xs| > 0 ==> r.lastRms == xs[|xs| - 1].rms
    ensures r.overlapCount >= s.overlapCount
    ensures |s.recentRms| <= MaxRmsHistory ==> |r.recentRms| <= MaxRmsHistory
    decreases |xs|
  {
    if |xs| == 0 then s else Update(xs[|xs| - 1], Replay(s, xs[..|xs| - 1]))
  }

  /** The scores `compute_tension_from_telemetry` returns for `xs` in order. */
  function Scores(s: TensionState, xs: seq<Telemetry>): (r: seq<int>)
    ensures |r| == |xs|
    ensures forall i :: 0 <= i < |r| ==> 0 <= r[i] <= 100
    decreases |xs|
  {
    if |xs| == 0 then []
    else Scores(s, xs[..|xs| - 1]) + [Compute(xs[|xs| - 1], Replay(s, xs[..|xs| - 1])).score]
  }

  /** The rms values of the non-silent samples of `xs`, in order. */
  function NonSilentRms(xs: seq<Telemetry>): seq<real>
    decreases |xs|
  {
    if |xs| == 0 then []
    else NonSilentRms(xs[..|xs| - 1]) + (if xs[|xs| - 1].isSilence then [] else [xs[|xs| - 1].rms])
  }

  /** The number of overlap samples in `xs`. */
  function CountOverlaps(xs: seq<Telemetry>): nat
    decreases |xs|
  {
    if |xs| == 0 then 0
    else CountOverlaps(xs[..|xs| - 1]) + (if xs[|xs| - 1].isOverlap then 1 else 0)
  }

  lemma LastNOfLastN<T>(a: seq<T>, x: T, n: nat)
    requires n > 0
    ensures LastN(LastN(a, n) + [x], n) == LastN(a + [x], n)
  {
  }

  /** The volume history is always the last 30 non-silent rms values seen. */
  lemma {:induction false} HistoryIsRecentNonSilent(s: TensionState, xs: seq<Telemetry>)
    requires |s.recentRms| <= MaxRmsHistory
    ensures Replay(s, xs).recentRms == LastN(s.recentRms + NonSilentRms(xs), MaxRmsHistory)
    ensures |Replay(s, xs).recentRms| <= MaxRmsHistory
    decreases |xs|
  {
    if |xs| > 0 {
      var init := xs[..|xs| - 1];
      var t := xs[|xs| - 1];
      HistoryIsRecentNonSilent(s, init);
      if !t.isSilence {
        LastNOfLastN(s.recentRms + NonSilentRms(init), t.rms, MaxRmsHistory);
        assert s.recentRms + NonSilentRms(xs) == (s.recentRms + NonSilentRms(init)) + [t.rms];
      } else {
        assert NonSilentRms(xs) == NonSilentRms(init);
      }
    }
  }

  /** `overlap_count` counts the overlap samples and never decreases. */
  lemma {:induction false} OverlapCountIsCount(s: TensionState, xs: seq<Telemetry>)
    ensures Replay(s, xs).overlapCount == s.overlapCount + CountOverlaps(xs)
    ensures Replay(s, xs).overlapCount >= s.overlapCount
    decreases |xs|
  {
    if |xs| > 0 {
      OverlapCountIsCount(s, xs[..|xs| - 1]);
    }
  }

  /** A silence episode starts at its first silent sample: after a non-silent
      sample (or from a state outside any episode) followed by silent samples
      only, `silence_start` is the timestamp of the first of them. */
  lemma {:induction false} SilenceEpisodeStart(s: TensionState, xs: seq<Telemetry>, i: nat)
    requires i < |xs|
    requires forall j :: i <= j < |xs| ==> xs[j].isSilence
    requires if i == 0 then s.silenceStart.None? else !xs[i - 1].isSilence
    ensures Replay(s, xs).silenceStart == Some(xs[i].ts)
    decreases |xs|
  {
    var init := xs[..|xs| - 1];
    if |xs| - 1 > i {
      SilenceEpisodeStart(s, init, i);
    } else if i > 0 {
      assert !init[i - 1].isSilence;
      assert Replay(s, init) == Update(init[i - 1], Replay(s, init[..i - 1]));
    } else {
      assert init == [];
    }
  }

  /** Silence accrual: within one silence episode whose timestamps do not
      decrease, the silence component never decreases and stays at most 1. */
  lemma SilenceAccrual(s: TensionState, xs: seq<Telemetry>, i: nat, j: nat, k: nat)
    requires i <= j <= k < |xs|
    requires forall m :: i <= m < |xs| ==> xs[m].isSilence
    requires forall m, n :: i <= m <= n < |xs| ==> xs[m].ts <= xs[n].ts
    requires if i == 0 then s.silenceStart.None? else !xs[i - 1].isSilence
    ensures var sj := Replay(s, xs[..j + 1]);
            var sk := Replay(s, xs[..k + 1]);
      SilenceScore(xs[j], sj) <= SilenceScore(xs[k], sk) <= 1.0
  {
    var pj := xs[..j + 1];
    var pk := xs[..k + 1];
    SilenceEpisodeStart(s, pj, i);
    SilenceEpisodeStart(s, pk, i);
    assert pj[j] == xs[j] && pk[k] == xs[k] && pj[i] == xs[i] && pk[i] == xs[i];
    var sj := Replay(s, pj);
    var sk := Replay(s, pk);
    assert SilenceSeconds(xs[j], sj) <= SilenceSeconds(xs[k], sk);
  }

  /** Quirk of the truthiness test: an episode that began at time 0.0 never
      accrues any silence, however long it lasts. */
  lemma SilenceFromTimeZeroScoresNothing(later: real)
    ensures var s1 := Update(Telemetry(0.0, true, false, 0.0), Initial);
            var t2 := Telemetry(0.0, true, false, later);
      SilenceScore(t2, Update(t2, s1)) == 0.0
  {
  }

  // ----- The scenarios of the unit tests -----

  /** Quiet speech (rms 0.1) scores low. */
  lemma ScenarioQuietSpeech()
    ensures Compute(Telemetry(0.1, false, false, 1000.0), Initial).score == 7
  {
  }

  /** rms 0.2 then 0.9 scores at least 40 (exactly 50: the volume component saturates). */
  lemma ScenarioLoudSpeech()
    ensures var s1 := Compute(Telemetry(0.2, false, false, 1000.0), Initial).state;
      Compute(Telemetry(0.9, false, false, 1001.0), s1).score == 50
  {
  }

  /** Silent samples at 1000 and 1003 score at least 20 (exactly 30: the
      silence component saturates, volume is zero). */
  lemma ScenarioLongSilence()
    ensures var s1 := Compute(Telemetry(0.02, true, false, 1000.0), Initial).state;
      Compute(Telemetry(0.02, true, false, 1003.0), s1).score == 30
  {
  }

  /** Four overlap samples then a plain one at rms 0.5 score at least 30
      (exactly 53 = 0.5 * 0.75 + 0.2 * 0.8). */
  lemma ScenarioRepeatedOverlap()
    ensures var o := Telemetry(0.5, false, true, 1000.0);
            var s4 := Replay(Initial, [o, o.(ts := 1001.0), o.(ts := 1002.0), o.(ts := 1003.0)]);
      && s4.overlapCount == 4
      && Compute(Telemetry(0.5, false, false, 1005.0), s4).score == 53
  {
    var o := Telemetry(0.5, false, true, 1000.0);
    var xs := [o, o.(ts := 1001.0), o.(ts := 1002.0), o.(ts := 1003.0)];
    assert xs[..3] == [o, o.(ts := 1001.0), o.(ts := 1002.0)];
    assert xs[..3][..2] == [o, o.(ts := 1001.0)];
    assert xs[..3][..2][..1] == [o];
    assert xs[..3][..2][..1][..0] == [];
    assert CountOverlaps(xs[..3][..2][..1]) == 1;
    assert CountOverlaps(xs[..3][..2]) == 2;
    assert CountOverlaps(xs[..3]) == 3;
    OverlapCountIsCount(Initial, xs);
    HistoryIsRecentNonSilent(Initial, xs);
  }

  // ----- compute_tension_loop, one tick at a time -----

  /** The loop's own state: the last telemetry taken from the queue, and the
      tension state it scores against. */
  datatype Loop = Loop(last: Option<Telemetry>, state: TensionState)

  const LoopStart: Loop := Loop(None, Initial)

  /** A tick either ends the loop (it popped the `None` sentinel) or goes on
      with the remaining queue, having called `on_tension` with at most one score. */
  datatype Tick = Exit | Continue(loop: Loop, queue: seq<Option<Telemetry>>, emitted: Option<int>)

  /** One iteration of `compute_tension_loop`'s `while True` body. */
  function TickStep(l: Loop, queue: seq<Option<Telemetry>>): (r: Tick)
    ensures r.Exit? <==> |queue| > 0 && queue[0].None?
    // at most one item is taken from the queue
    ensures r.Continue? ==> r.queue == if |queue| > 0 then queue[1..] else queue
    // the OLDEST queued telemetry is taken, the previous one kept when the queue is empty
    ensures r.Continue? ==> r.loop.last == if |queue| > 0 then queue[0] else l.last
    // no score before the first telemetry; otherwise exactly one: the tension of that telemetry
    ensures r.Continue? ==> (r.emitted.None? <==> r.loop.last.None?)
    ensures r.Continue? && r.emitted.Some? ==>
      && 0 <= r.emitted.value <= 100
      && r.emitted.value == Compute(r.loop.last.value, l.state).score
      && r.loop.state == Update(r.loop.last.value, l.state)
    ensures r.Continue? && r.emitted.None? ==> r.loop.state == l.state
  {
    if |queue| > 0 && queue[0].None? then Exit
    else
      var last := if |queue| > 0 then queue[0] else l.last;
      var rest := if |queue| > 0 then queue[1..] else queue;
      if last.None? then Continue(Loop(last, l.state), rest, None)
      else
        var scored := Compute(last.value, l.state);
        Continue(Loop(last, scored.state), rest, Some(scored.score))
  }

  /** `n` ticks during which nothing new arrives. */
  function IdleTicks(l: Loop, n: nat): Loop
    decreases n
  {
    if n == 0 then l
    else
      var r := TickStep(l, []);
      IdleTicks(r.loop, n - 1)
  }

  /** Quirk of re-scoring the retained sample: an overlap sample is counted
      again on every tick until a newer sample arrives. */
  lemma {:induction false} RetainedOverlapRecounted(l: Loop, n: nat)
    requires l.last.Some? && l.last.value.isOverlap
    ensures IdleTicks(l, n).state.overlapCount == l.state.overlapCount + n
    ensures IdleTicks(l, n).last == l.last
    decreases n
  {
    if n > 0 {
      RetainedOverlapRecounted(TickStep(l, []).loop, n - 1);
    }
  }

  /** Where `n` ticks leave the loop: its state, the remaining queue, the
      scores passed to `on_tension` in order, and whether it returned. */
  datatype Ticked = Ticked(loop: Loop, queue: seq<Option<Telemetry>>, scores: seq<int>, exited: bool)

  /** Up to `n` ticks of `compute_tension_loop` over `queue`, nothing new arriving. */
  function Ticks(l: Loop, queue: seq<Option<Telemetry>>, n: nat): (r: Ticked)
    ensures |r.scores| <= n
    ensures forall i :: 0 <= i < |r.scores| ==> 0 <= r.scores[i] <= 100
    // the loop never shortens the queue by more than one item per tick
    ensures |r.queue| + n >= |queue|
    decreases n
  {
    if n == 0 then Ticked(l, queue, [], false)
    else match TickStep(l, queue)
      case Exit => Ticked(l, queue, [], true)
      case Continue(l', q', e) =>
        var rest := Ticks(l', q', n - 1);
        rest.(scores := (if e.Some? then [e.value] else []) + rest.scores)
  }

  /** The queue items for the samples `xs`, in order. */
  function Queued(xs: seq<Telemetry>): (q: seq<Option<Telemetry>>)
    ensures |q| == |xs| && forall i :: 0 <= i < |xs| ==> q[i] == Some(xs[i])
  {
    seq(|xs|, i requires 0 <= i < |xs| => Some(xs[i]))
  }

  lemma {:induction false} ReplayCons(s: TensionState, x: Telemetry, xs: seq<Telemetry>)
    ensures Replay(s, [x] + xs) == Replay(Update(x, s), xs)
    decreases |xs|
  {
    if |xs| == 0 {
      assert ([x] + xs)[..0] == [];
    } else {
      var ys := [x] + xs;
      assert ys[..|ys| - 1] == [x] + xs[..|xs| - 1];
      assert ys[|ys| - 1] == xs[|xs| - 1];
      ReplayCons(s, x, xs[..|xs| - 1]);
    }
  }

  lemma {:induction false} ScoresCons(s: TensionState, x: Telemetry, xs: seq<Telemetry>)
    ensures Scores(s, [x] + xs) == [Compute(x, s).score] + Scores(Update(x, s), xs)
    decreases |xs|
  {
    if |xs| == 0 {
      assert ([x] + xs)[..0] == [];
      assert [x] + xs == [x];
    } else {
      var ys := [x] + xs;
      var init := xs[..|xs| - 1];
      assert ys[..|ys| - 1] == [x] + init;
      assert ys[|ys| - 1] == xs[|xs| - 1];
      ScoresCons(s, x, init);
      ReplayCons(s, x, init);
    }
  }

  /** Ticking once per queued sample scores the samples one by one, oldest
      first, exactly as `Scores` does: each score reflects a sample that
      arrived `k` ticks earlier when `k` samples were queued ahead of it. */
  lemma {:induction false} TicksScoreQueueInOrder(l: Loop, xs: seq<Telemetry>, rest: seq<Option<Telemetry>>)
    ensures var r := Ticks(l, Queued(xs) + rest, |xs|);
      && !r.exited
      && r.scores == Scores(l.state, xs)
      && r.loop.state == Replay(l.state, xs)
      && r.queue == rest
    decreases |xs|
  {
    var q := Queued(xs) + rest;
    if |xs| == 0 {
      assert q == rest;
    } else {
      var x := xs[0];
      assert q[0] == Some(x);
      assert q[1..] == Queued(xs[1..]) + rest;
      var l' := Loop(Some(x), Update(x, l.state));
      var step := TickStep(l, q);
      assert step == Continue(l', q[1..], Some(Compute(x, l.state).score));
      var tail := Ticks(l', q[1..], |xs| - 1);
      assert Ticks(l, q, |xs|) == tail.(scores := [Compute(x, l.state).score] + tail.scores);
      TicksScoreQueueInOrder(l', xs[1..], rest);
      assert xs == [x] + xs[1..];
      ScoresCons(l.state, x, xs[1..]);
      ReplayCons(l.state, x, xs[1..]);
    }
  }

  // ----- The tick the loop's documentation describes -----

  /** What draining the queue finds: the sentinel, or the newest telemetry. */
  datatype Drained = SentinelFound | Newest(last: Option<Telemetry>)

  /** Take every queued item, keeping the newest telemetry. */
  function Drain(last: Option<Telemetry>, queue: seq<Option<Telemetry>>): (r: Drained)
    ensures r.SentinelFound? <==> exists i :: 0 <= i < |queue| && queue[i].None?
    ensures r.Newest? && |queue| > 0 ==> r.last == queue[|queue| - 1]
    ensures r.Newest? && |queue| == 0 ==> r.last == last
    decreases |queue|
  {
    if |queue| == 0 then Newest(last)
    else if queue[0].None? then SentinelFound
    else
      var r := Drain(queue[0], queue[1..]);
      assert forall i :: 1 <= i < |queue| ==> queue[i] == queue[1..][i - 1];
      r
  }

  /** A tick that takes the LATEST telemetry, as the loop's documentation
      says: the queue is drained, the newest sample scored. */
  function TickStepLatest(l: Loop, queue: seq<Option<Telemetry>>): (r: Tick)
    ensures r.Exit? <==> exists i :: 0 <= i < |queue| && queue[i].None?
    // no backlog survives a tick
    ensures r.Continue? ==> r.queue == []
    // the newest telemetry is scored, the previous one when nothing arrived
    ensures r.Continue? ==> r.loop.last == if |queue| > 0 then queue[|queue| - 1] else l.last
    ensures r.Continue? ==> (r.emitted.None? <==> r.loop.last.None?)
    ensures r.Continue? && r.emitted.Some? ==>
      && r.emitted.value == Compute(r.loop.last.value, l.state).score
      && r.loop.state == Update(r.loop.last.value, l.state)
  {
    match Drain(l.last, queue)
    case SentinelFound => Exit
    case Newest(last) =>
      if last.None? then Continue(Loop(last, l.state), [], None)
      else
        var scored := Compute(last.value, l.state);
        Continue(Loop(last, scored.state), [], Some(scored.score))
  }

  /** As written, with two samples queued since the last tick, the tick
      scores the older one and leaves the newer queued; the documented tick
      scores the newer one and leaves nothing behind. */
  lemma OldestTelemetryScored(l: Loop, older: Telemetry, newer: Telemetry)
    ensures var r := TickStep(l, [Some(older), Some(newer)]);
      r.Continue? && r.loop.last == Some(older) && r.queue == [Some(newer)]
    ensures var r := TickStepLatest(l, [Some(older), Some(newer)]);
      r.Continue? && r.loop.last == Some(newer) && r.queue == []
  {
  }

  /** As written, the backlog never shrinks by more than one item per tick:
      after `n` ticks over a queue of `n + k` samples, `k` are still waiting. */
  lemma BacklogShrinksByOnePerTick(l: Loop, xs: seq<Telemetry>, n: nat)
    requires n <= |xs|
    ensures |Ticks(l, Queued(xs), n).queue| == |xs| - n
  {
    assert Queued(xs) == Queued(xs[..n]) + Queued(xs[n..]);
    TicksScoreQueueInOrder(l, xs[..n], Queued(xs[n..]));
  }
}
