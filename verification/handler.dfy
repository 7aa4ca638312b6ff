/**
 * The per-connection protocol of `apps/server/app/websocket_handler.py` as a
 * pure step function: each inbound frame takes the handler's state to a new
 * state and an ordered list of effects (messages to the browser, calls on the
 * live session, task spawns and cancellations, queue puts).
 *
 * The wall clock is the parameter `now` (seconds), JSON parsing is abstracted
 * to "an object, or not JSON", and strict base64 decoding of the audio field
 * to the decoded length (or its failure). `mock` is `MOCK_MODE` and
 * `threshold` is `BARGE_IN_RMS_THRESHOLD`, both read from the environment.
 */
module Handler {
  import opened Wrappers
  import opened Numeric
  import Text
  import Tension
  import LiveClient

  /** The asyncio tasks the handler may own. */
  datatype Task = TensionTask | EventsTask | AgentTask | MockTask

  /** Server-to-browser JSON messages. */
  datatype OutMsg =
    | Ready
    | Stopped
    | ErrorMsg(message: string)
    | Interrupted(ts: int)
    | TensionMsg(score: int, ts: int)
    | Whisper(text: string, move: string, ts: int)

  /** What a step does to the outside world, in order. `Cancel` includes
      awaiting the cancelled task. */
  datatype Effect =
    | Send(msg: OutMsg)
    | Connect
    | Spawn(task: Task)
    | Cancel(task: Task)
    | Enqueue(item: Option<Tension.Telemetry>)
    | Disconnect
    | StopGeneration
    | SendAudio(audio: string)
    | Terminate

  /** The handler's local variables: whether `session` is set, the
      `agent_output_started` flag, `running`, and which task variables hold a
      task (a task a later `start` overwrote is no longer tracked). */
  datatype HandlerState = HandlerState(session: bool, agentSpeaking: bool, running: bool, tasks: set<Task>)

  const Fresh: HandlerState := HandlerState(false, false, true, {})

  /** The `type` field of a JSON object: a string, or anything else (missing,
      `null`, a number...) shown the way Python formats it. */
  datatype TypeField = Str(s: string) | NonStr(shown: string)

  /** An inbound text frame. `base64` is `msg.get("base64") or ""`;
      `decodedLen` is the length of the strict base64 decoding of that field
      once stripped, `None` when decoding raises. */
  datatype Frame = InvalidJson | Object(typ: TypeField, base64: string, decodedLen: Option<nat>)

  /** A state together with the effects that led to it. */
  datatype Step = Step(state: HandlerState, effects: seq<Effect>)

  const DefaultBargeInThreshold: real := 0.15
  /** Chunks shorter than this many bytes count as silence. */
  const SilenceBytes: nat := 100
  /** The byte length that counts as full-scale volume. */
  const FullScaleBytes: nat := 1024

  /** `int(time.time() * 1000)`. */
  function Millis(now: real): int {
    Trunc(now * 1000.0)
  }

  /** The `AudioTelemetry` built for an audio chunk: the payload size stands in
      for its volume. */
  function DeriveTelemetry(byteLen: nat, agentSpeaking: bool, threshold: real, now: real): (t: Tension.Telemetry)
    ensures 0.0 <= t.rms <= 1.0
    ensures byteLen >= FullScaleBytes ==> t.rms == 1.0
    ensures byteLen < FullScaleBytes ==> t.rms * FullScaleBytes as real == byteLen as real
    ensures t.isSilence <==> byteLen < SilenceBytes
    ensures t.isOverlap <==> agentSpeaking && t.rms >= threshold
    ensures t.ts == now
  {
    var rms := if byteLen > 0 then Min(1.0, byteLen as real / FullScaleBytes as real) else 0.0;
    Tension.Telemetry(rms, byteLen < SilenceBytes, agentSpeaking && rms >= threshold, now)
  }

  /** A bigger chunk never reads as quieter. */
  lemma VolumeProxyMonotone(a: nat, b: nat, speaking: bool, threshold: real, now: real)
    requires a <= b
    ensures DeriveTelemetry(a, speaking, threshold, now).rms <= DeriveTelemetry(b, speaking, threshold, now).rms
  {
  }

  /** `start`. A session that exists rejects it; in mock mode `session` stays
      `None`, so every `start` is accepted and spawns its tasks again. */
  function OnStart(st: HandlerState, mock: bool): (r: Step)
    ensures st.session ==> r == Step(st, [Send(ErrorMsg("Already started"))])
    ensures !st.session ==> |r.effects| > 0 && r.effects[0] == Send(Ready)
    ensures !st.session ==> (Connect in r.effects <==> !mock)
    ensures !st.session ==> r.state.session == !mock && r.state.running == st.running
    ensures !st.session ==> Spawn(TensionTask) in r.effects && TensionTask in r.state.tasks
    ensures !st.session ==> (Spawn(MockTask) in r.effects <==> mock)
    // a real session is connected and both of its consumers start with the tension task
    ensures !st.session && !mock ==>
      && r.effects == [Send(Ready), Connect, Spawn(EventsTask), Spawn(AgentTask), Spawn(TensionTask)]
      && r.state.tasks == st.tasks + {EventsTask, AgentTask, TensionTask}
    // mock mode starts the tension and mock tasks only
    ensures !st.session && mock ==>
      && r.effects == [Send(Ready), Spawn(TensionTask), Spawn(MockTask)]
      && r.state.tasks == st.tasks + {TensionTask, MockTask}
    ensures r.state.agentSpeaking == st.agentSpeaking
    ensures Terminate !in r.effects
  {
    if st.session then Step(st, [Send(ErrorMsg("Already started"))])
    else if mock then
      Step(st.(tasks := st.tasks + {TensionTask, MockTask}),
           [Send(Ready), Spawn(TensionTask), Spawn(MockTask)])
    else
      Step(st.(session := true, tasks := st.tasks + {EventsTask, AgentTask, TensionTask}),
           [Send(Ready), Connect, Spawn(EventsTask), Spawn(AgentTask), Spawn(TensionTask)])
  }

  /** The teardown for one task: the tension task first gets the queue
      sentinel, then every task is cancelled and awaited. */
  function CancelIfOwned(st: HandlerState, t: Task): (r: seq<Effect>)
    ensures forall u :: Cancel(u) in r <==> u == t && t in st.tasks
    ensures forall e :: e in r ==> e.Cancel? || e == Enqueue(None)
  {
    if t !in st.tasks then []
    else if t == TensionTask then [Enqueue(None), Cancel(TensionTask)]
    else [Cancel(t)]
  }

  /** Everything `stop` does before its final message. */
  function Teardown(st: HandlerState): (r: seq<Effect>)
    ensures forall e :: e in r ==> e.Cancel? || e == Enqueue(None) || e == Disconnect
    ensures Disconnect in r <==> st.session
    ensures forall u :: Cancel(u) in r <==> u in st.tasks
    ensures TensionTask in st.tasks ==> |r| >= 2 && r[0] == Enqueue(None) && r[1] == Cancel(TensionTask)
  {
    var tension := CancelIfOwned(st, TensionTask);
    var disconnect := if st.session then [Disconnect] else [];
    var others := CancelIfOwned(st, AgentTask) + CancelIfOwned(st, EventsTask) + CancelIfOwned(st, MockTask);
    assert forall u :: Cancel(u) in others <==> u != TensionTask && u in st.tasks;
    tension + disconnect + others
  }

  lemma FinalMessageAfter(teardown: seq<Effect>)
    requires forall e :: e in teardown ==> e.Cancel? || e == Enqueue(None) || e == Disconnect
    ensures var effects := teardown + [Send(Stopped), Terminate];
      && (forall i :: 0 <= i < |effects| - 2 ==> !effects[i].Send? && !effects[i].Terminate?)
      && (forall e :: e in effects && (e.Cancel? || e.Disconnect? || e.Connect?) ==> e in teardown)
      && (forall e :: e in teardown ==> e in effects)
  {
    var effects := teardown + [Send(Stopped), Terminate];
    forall i | 0 <= i < |effects| - 2
      ensures !effects[i].Send? && !effects[i].Terminate?
    {
      assert effects[i] == teardown[i];
      assert teardown[i] in teardown;
    }
  }

  /** `stop`: stop running, tear down, say `stopped` last, and leave the loop. */
  function OnStop(st: HandlerState): (r: Step)
    ensures !r.state.running && !r.state.session
    ensures |r.effects| >= 2
    ensures r.effects[|r.effects| - 1] == Terminate
    ensures r.effects[|r.effects| - 2] == Send(Stopped)
    // `stopped` is the only message sent
    ensures forall i :: 0 <= i < |r.effects| - 2 ==> !r.effects[i].Send? && !r.effects[i].Terminate?
    ensures Disconnect in r.effects <==> st.session
    ensures forall u :: Cancel(u) in r.effects <==> u in st.tasks
    ensures TensionTask in st.tasks ==> r.effects[0] == Enqueue(None) && r.effects[1] == Cancel(TensionTask)
    ensures Connect !in r.effects
  {
    var teardown := Teardown(st);
    FinalMessageAfter(teardown);
    Step(st.(running := false, session := false), teardown + [Send(Stopped), Terminate])
  }

  /** `audio`. An empty or undecodable chunk does nothing. Otherwise the
      telemetry is queued for the tension loop and, when a real session
      exists, the chunk is forwarded; if the agent is speaking and the chunk
      is loud enough, generation is stopped and `interrupted` sent first. */
  function OnAudio(st: HandlerState, base64: string, decodedLen: Option<nat>, mock: bool, threshold: real, now: real): (r: Step)
    ensures var chunk := Text.Strip(base64, Text.Whitespace);
      chunk == [] || decodedLen.None? ==> r == Step(st, [])
    ensures var chunk := Text.Strip(base64, Text.Whitespace);
      chunk != [] && decodedLen.Some? ==>
        var t := DeriveTelemetry(decodedLen.value, st.agentSpeaking, threshold, now);
        var bargeIn := st.session && !mock && st.agentSpeaking && t.rms >= threshold;
        && |r.effects| > 0 && r.effects[0] == Enqueue(Some(t))
        && (bargeIn ==>
              && r.effects == [Enqueue(Some(t)), StopGeneration, Send(Interrupted(Millis(now))), SendAudio(chunk)]
              && r.state == st.(agentSpeaking := false))
        && (!bargeIn ==> r.state == st && StopGeneration !in r.effects && forall e :: e in r.effects ==> !e.Send?)
        && (st.session && !mock ==> r.effects[|r.effects| - 1] == SendAudio(chunk))
        && (!bargeIn && st.session && !mock ==> r.effects == [Enqueue(Some(t)), SendAudio(chunk)])
        && (!(st.session && !mock) ==> r.effects == [Enqueue(Some(t))])
    ensures Terminate !in r.effects && Connect !in r.effects
    ensures r.state.running == st.running && r.state.session == st.session
  {
    var chunk := Text.Strip(base64, Text.Whitespace);
    if chunk == [] then Step(st, [])
    else match decodedLen
      case None => Step(st, [])
      case Some(n) =>
        var t := DeriveTelemetry(n, st.agentSpeaking, threshold, now);
        if st.session && !mock then
          if st.agentSpeaking && t.rms >= threshold then
            Step(st.(agentSpeaking := false),
                 [Enqueue(Some(t)), StopGeneration, Send(Interrupted(Millis(now))), SendAudio(chunk)])
          else
            Step(st, [Enqueue(Some(t)), SendAudio(chunk)])
        else
          Step(st, [Enqueue(Some(t))])
  }

  /** Any other `type`. */
  function UnknownType(shown: string): string {
    "Unknown type: " + shown
  }

  predicate IsStop(f: Frame) {
    f.Object? && f.typ == Str("stop")
  }

  /** Frames the loop answers with an error and otherwise ignores. */
  predicate IsRejected(f: Frame) {
    || f.InvalidJson?
    || (f.Object? && f.typ.NonStr?)
    || (f.Object? && f.typ.Str? && f.typ.s != "start" && f.typ.s != "stop" && f.typ.s != "audio")
  }

  /** One iteration of the `while running` loop. */
  function Dispatch(st: HandlerState, f: Frame, mock: bool, threshold: real, now: real): (r: Step)
    // malformed JSON or an unknown type: exactly one error, nothing else changes
    ensures IsRejected(f) ==>
      && r.state == st
      && |r.effects| == 1 && r.effects[0].Send? && r.effects[0].msg.ErrorMsg?
    ensures f.InvalidJson? ==> r.effects == [Send(ErrorMsg("Invalid JSON"))]
  {
    match f
    case InvalidJson => Step(st, [Send(ErrorMsg("Invalid JSON"))])
    case Object(typ, base64, decodedLen) =>
      match typ
      case NonStr(shown) => Step(st, [Send(ErrorMsg(UnknownType(shown)))])
      case Str(s) =>
        if s == "start" then OnStart(st, mock)
        else if s == "stop" then OnStop(st)
        else if s == "audio" then OnAudio(st, base64, decodedLen, mock, threshold, now)
        else Step(st, [Send(ErrorMsg(UnknownType(s)))])
  }

  predicate IsStart(f: Frame) {
    f.Object? && f.typ == Str("start")
  }

  /** Only `stop` leaves the loop or stops running; only an accepted `start`
      outside mock mode connects, and only it sets the session. */
  lemma DispatchLifecycle(st: HandlerState, f: Frame, mock: bool, threshold: real, now: real)
    ensures var r := Dispatch(st, f, mock, threshold, now);
      && (Terminate in r.effects <==> IsStop(f))
      && (r.state.running <==> st.running && !IsStop(f))
      && (Connect in r.effects <==> IsStart(f) && !st.session && !mock)
      && (!IsStop(f) ==> r.state.session == (st.session || (IsStart(f) && !mock)))
  {
  }

  /** In mock mode without a session, no frame ever touches the live session. */
  lemma MockNeverTouchesSession(st: HandlerState, f: Frame, threshold: real, now: real)
    requires !st.session
    ensures var r := Dispatch(st, f, true, threshold, now);
      && !r.state.session
      && Connect !in r.effects && StopGeneration !in r.effects
      && forall e :: e in r.effects ==> !e.SendAudio?
  {
    var r := Dispatch(st, f, true, threshold, now);
    if IsStart(f) {
      assert r.effects == [Send(Ready), Spawn(TensionTask), Spawn(MockTask)];
    } else if IsStop(f) {
      assert r == OnStop(st);
      var teardown := Teardown(st);
      assert r.effects == teardown + [Send(Stopped), Terminate];
      assert forall e :: e in r.effects ==> e in teardown || e == Send(Stopped) || e == Terminate;
    } else if f.Object? && f.typ == Str("audio") {
      assert r == OnAudio(st, f.base64, f.decodedLen, true, threshold, now);
      assert |r.effects| <= 1 && forall e :: e in r.effects ==> e.Enqueue?;
    } else {
      assert IsRejected(f);
    }
  }

  /** A frame and the time it was handled. */
  datatype Arrival = Arrival(frame: Frame, now: real)

  /** The loop over a sequence of frames; frames after `stop` are never read. */
  function Run(st: HandlerState, arrivals: seq<Arrival>, mock: bool, threshold: real): (r: Step)
    ensures !st.running ==> r == Step(st, [])
    // the loop is left exactly when a running handler stops running
    ensures Terminate in r.effects <==> st.running && !r.state.running
    decreases |arrivals|
  {
    if |arrivals| == 0 || !st.running then Step(st, [])
    else
      DispatchLifecycle(st, arrivals[0].frame, mock, threshold, arrivals[0].now);
      var first := Dispatch(st, arrivals[0].frame, mock, threshold, arrivals[0].now);
      var rest := Run(first.state, arrivals[1..], mock, threshold);
      Step(rest.state, first.effects + rest.effects)
  }

  /** `Terminate` occurs at most once, as the last effect. */
  ghost predicate TerminatesLast(effs: seq<Effect>) {
    forall i :: 0 <= i < |effs| && effs[i] == Terminate ==> i == |effs| - 1
  }

  lemma TerminatesLastAppend(a: seq<Effect>, b: seq<Effect>)
    requires Terminate !in a && TerminatesLast(b)
    ensures TerminatesLast(a + b)
  {
    forall i | 0 <= i < |a + b| && (a + b)[i] == Terminate
      ensures i == |a + b| - 1
    {
      if i >= |a| {
        assert b[i - |a|] == Terminate;
      }
    }
  }

  /** Leaving the loop is the last thing the handler does. */
  lemma {:induction false} TerminateIsLast(st: HandlerState, arrivals: seq<Arrival>, mock: bool, threshold: real)
    ensures TerminatesLast(Run(st, arrivals, mock, threshold).effects)
    decreases |arrivals|
  {
    if |arrivals| > 0 && st.running {
      var f := arrivals[0].frame;
      var first := Dispatch(st, f, mock, threshold, arrivals[0].now);
      var rest := Run(first.state, arrivals[1..], mock, threshold);
      DispatchLifecycle(st, f, mock, threshold, arrivals[0].now);
      if IsStop(f) {
        assert rest.effects == [];
        assert first.effects + rest.effects == OnStop(st).effects;
      } else {
        TerminateIsLast(first.state, arrivals[1..], mock, threshold);
        TerminatesLastAppend(first.effects, rest.effects);
      }
    }
  }

  function CountConnects(effs: seq<Effect>): nat
    decreases |effs|
  {
    if |effs| == 0 then 0 else (if effs[0].Connect? then 1 else 0) + CountConnects(effs[1..])
  }

  lemma {:induction false} CountConnectsAppend(a: seq<Effect>, b: seq<Effect>)
    ensures CountConnects(a + b) == CountConnects(a) + CountConnects(b)
    decreases |a|
  {
    if |a| == 0 {
      assert a + b == b;
    } else {
      assert (a + b)[0] == a[0];
      assert (a + b)[1..] == a[1..] + b;
      CountConnectsAppend(a[1..], b);
    }
  }

  lemma CountConnectsNone(effs: seq<Effect>)
    requires Connect !in effs
    ensures CountConnects(effs) == 0
    decreases |effs|
  {
    if |effs| > 0 {
      assert effs[0] != Connect;
      assert forall e :: e in effs[1..] ==> e in effs;
      CountConnectsNone(effs[1..]);
    }
  }

  /** Outside mock mode a connection opens at most one live session, however
      many `start` frames arrive. */
  lemma {:induction false} AtMostOneConnect(st: HandlerState, arrivals: seq<Arrival>, threshold: real)
    ensures CountConnects(Run(st, arrivals, false, threshold).effects) <= (if st.session then 0 else 1)
    decreases |arrivals|
  {
    if |arrivals| > 0 && st.running {
      var f := arrivals[0].frame;
      var first := Dispatch(st, f, false, threshold, arrivals[0].now);
      var rest := Run(first.state, arrivals[1..], false, threshold);
      AtMostOneConnect(first.state, arrivals[1..], threshold);
      CountConnectsAppend(first.effects, rest.effects);
      DispatchLifecycle(st, f, false, threshold, arrivals[0].now);
      if IsStart(f) && !st.session {
        assert first.effects == [Send(Ready), Connect, Spawn(EventsTask), Spawn(AgentTask), Spawn(TensionTask)];
      } else {
        CountConnectsNone(first.effects);
      }
    }
  }

  /** A second `start` is rejected outside mock mode ... */
  lemma SecondStartRejected(threshold: real, t0: real, t1: real)
    ensures var start := Object(Str("start"), "", None);
            var first := Dispatch(Fresh, start, false, threshold, t0);
      Dispatch(first.state, start, false, threshold, t1) == Step(first.state, [Send(ErrorMsg("Already started"))])
  {
  }

  /** ... but accepted again in mock mode, where it spawns a second tension task. */
  lemma MockSecondStartAccepted(threshold: real, t0: real, t1: real)
    ensures var start := Object(Str("start"), "", None);
            var first := Dispatch(Fresh, start, true, threshold, t0);
      Dispatch(first.state, start, true, threshold, t1).effects == [Send(Ready), Spawn(TensionTask), Spawn(MockTask)]
  {
  }

  // ----- The background consumers -----

  /** A consumer either returns (the handler is no longer running) or handles
      the item with the given effects. */
  datatype Consumed = ConsumerExit | Consumed(state: HandlerState, effects: seq<Effect>)

  /** One iteration of `consume_recv_events`. */
  function ConsumeEvent(st: HandlerState, ev: LiveClient.LiveEvent): (r: Consumed)
    ensures r.ConsumerExit? <==> !st.running
    ensures r.Consumed? ==> r.state == st.(agentSpeaking := LiveClient.Observe(st.agentSpeaking, ev))
    ensures r.Consumed? && ev.kind == LiveClient.ErrorEvent ==>
      r.effects == [Send(ErrorMsg(if ev.message != "" then ev.message else ev.text))]
    ensures r.Consumed? && ev.kind != LiveClient.ErrorEvent ==> r.effects == []
  {
    if !st.running then ConsumerExit
    else match ev.kind
      case AgentOutputStarted => Consumed(st.(agentSpeaking := true), [])
      case AgentOutputStopped => Consumed(st.(agentSpeaking := false), [])
      case TranscriptDelta => Consumed(st, [])
      case ErrorEvent => Consumed(st, [Send(ErrorMsg(if ev.message != "" then ev.message else ev.text))])
  }

  /** The handler's state after its consumer has handled `evs` (unchanged once
      the handler has stopped running). */
  function ConsumeAll(st: HandlerState, evs: seq<LiveClient.LiveEvent>): (r: HandlerState)
    ensures r.running == st.running && r.session == st.session && r.tasks == st.tasks
    decreases |evs|
  {
    if |evs| == 0 then st
    else match ConsumeEvent(st, evs[0])
      case ConsumerExit => st
      case Consumed(st', _) => ConsumeAll(st', evs[1..])
  }

  lemma {:induction false} ConsumeAllTracksSpeaking(st: HandlerState, evs: seq<LiveClient.LiveEvent>)
    requires st.running
    ensures ConsumeAll(st, evs).agentSpeaking == LiveClient.SpeakingAfter(st.agentSpeaking, evs)
    decreases |evs|
  {
    if |evs| > 0 {
      ConsumeAllTracksSpeaking(ConsumeEvent(st, evs[0]).state, evs[1..]);
    }
  }

  /** The handler knows the agent is speaking whenever a transcript delta
      from a real session reaches it: `recv_events` always announces a turn
      before its first delta. */
  lemma HandlerSeesAgentSpeaking(st: HandlerState, s: LiveClient.RealSession, i: nat)
    requires st.running
    requires i < |LiveClient.RecvEvents(s)|
    requires LiveClient.RecvEvents(s)[i].kind == LiveClient.TranscriptDelta
    ensures ConsumeAll(st, LiveClient.RecvEvents(s)[..i]).agentSpeaking
  {
    var out := LiveClient.RecvEvents(s);
    LiveClient.DeltaArrivesWhileSpeaking(false, st.agentSpeaking, s.queue);
    ConsumeAllTracksSpeaking(st, out[..i]);
  }

  /** One iteration of `consume_agent_turns`: a turn with text becomes a whisper. */
  function ForwardTurn(st: HandlerState, turn: LiveClient.AgentTurn, now: real): (r: Consumed)
    ensures r.ConsumerExit? <==> !st.running
    ensures r.Consumed? ==> r.state == st
    ensures r.Consumed? && turn.text == "" ==> r.effects == []
    ensures r.Consumed? && turn.text != "" ==> r.effects == [Send(Whisper(turn.text, turn.move, Millis(now)))]
  {
    if !st.running then ConsumerExit
    else Consumed(st, if turn.text != "" then [Send(Whisper(turn.text, turn.move, Millis(now)))] else [])
  }

  /** One tick of the tension task with its `on_tension` callback: at most one
      `tension` message, always carrying a score in 0..100. */
  function TensionTick(l: Tension.Loop, queue: seq<Option<Tension.Telemetry>>, now: real): (r: (Tension.Tick, seq<Effect>))
    ensures r.0 == Tension.TickStep(l, queue)
    ensures |r.1| <= 1
    ensures |r.1| == 1 <==> r.0.Continue? && r.0.emitted.Some?
    ensures forall e :: e in r.1 ==> e.Send? && e.msg.TensionMsg? && 0 <= e.msg.score <= 100
    // the message carries the score the loop computed
    ensures |r.1| == 1 ==> r.1[0] == Send(TensionMsg(r.0.emitted.value, Millis(now)))
  {
    var tick := Tension.TickStep(l, queue);
    if tick.Continue? && tick.emitted.Some? then (tick, [Send(TensionMsg(tick.emitted.value, Millis(now)))])
    else (tick, [])
  }

  /** `n` ticks of the tension task, with the messages `on_tension` sends. */
  function TensionRun(l: Tension.Loop, queue: seq<Option<Tension.Telemetry>>, n: nat, now: real): (r: seq<Effect>)
    ensures |r| <= n
    ensures forall e :: e in r ==> e.Send? && e.msg.TensionMsg? && 0 <= e.msg.score <= 100
    decreases n
  {
    if n == 0 then []
    else
      var (tick, sent) := TensionTick(l, queue, now);
      match tick
      case Exit => sent
      case Continue(l', q', _) => sent + TensionRun(l', q', n - 1, now)
  }

  /** One `tension` message per score, in order. */
  function TensionMessages(scores: seq<int>, now: real): (r: seq<Effect>)
    ensures |r| == |scores|
    ensures forall i :: 0 <= i < |r| ==> r[i] == Send(TensionMsg(scores[i], Millis(now)))
  {
    seq(|scores|, i requires 0 <= i < |scores| => Send(TensionMsg(scores[i], Millis(now))))
  }

  /** The scores one tick passes to `on_tension`. */
  function Emitted(tick: Tension.Tick): seq<int> {
    if tick.Continue? && tick.emitted.Some? then [tick.emitted.value] else []
  }

  lemma TensionRunUnfold(l: Tension.Loop, queue: seq<Option<Tension.Telemetry>>, n: nat, now: real)
    requires n > 0 && Tension.TickStep(l, queue).Continue?
    ensures var tick := Tension.TickStep(l, queue);
      TensionRun(l, queue, n, now) == TensionMessages(Emitted(tick), now) + TensionRun(tick.loop, tick.queue, n - 1, now)
  {
    var tick := Tension.TickStep(l, queue);
    var sent := TensionTick(l, queue, now).1;
    assert sent == TensionMessages(Emitted(tick), now);
  }

  lemma TicksUnfold(l: Tension.Loop, queue: seq<Option<Tension.Telemetry>>, n: nat)
    requires n > 0 && Tension.TickStep(l, queue).Continue?
    ensures var tick := Tension.TickStep(l, queue);
      Tension.Ticks(l, queue, n).scores == Emitted(tick) + Tension.Ticks(tick.loop, tick.queue, n - 1).scores
  {
  }

  lemma TensionMessagesAppend(a: seq<int>, b: seq<int>, now: real)
    ensures TensionMessages(a + b, now) == TensionMessages(a, now) + TensionMessages(b, now)
  {
  }

  lemma {:induction false} TensionRunSendsTickScores(l: Tension.Loop, queue: seq<Option<Tension.Telemetry>>, n: nat, now: real)
    ensures TensionRun(l, queue, n, now) == TensionMessages(Tension.Ticks(l, queue, n).scores, now)
    decreases n
  {
    if n > 0 {
      var tick := Tension.TickStep(l, queue);
      if tick.Continue? {
        TensionRunUnfold(l, queue, n, now);
        TicksUnfold(l, queue, n);
        TensionRunSendsTickScores(tick.loop, tick.queue, n - 1, now);
        TensionMessagesAppend(Emitted(tick), Tension.Ticks(tick.loop, tick.queue, n - 1).scores, now);
      }
    }
  }

  /** The `tension` messages sent while the task works through queued
      samples are the scores of those samples, in arrival order. */
  lemma TensionMessagesFollowQueue(l: Tension.Loop, xs: seq<Tension.Telemetry>, rest: seq<Option<Tension.Telemetry>>, now: real)
    ensures TensionRun(l, Tension.Queued(xs) + rest, |xs|, now) == TensionMessages(Tension.Scores(l.state, xs), now)
  {
    TensionRunSendsTickScores(l, Tension.Queued(xs) + rest, |xs|, now);
    Tension.TicksScoreQueueInOrder(l, xs, rest);
  }

  /** `consume_agent_turns` over a sequence of turns. */
  function ForwardAll(st: HandlerState, turns: seq<LiveClient.AgentTurn>, now: real): (r: seq<Effect>)
    ensures !st.running ==> r == []
    ensures |r| <= |turns|
    ensures forall e :: e in r ==> e.Send? && e.msg.Whisper? && e.msg.text != ""
    decreases |turns|
  {
    if |turns| == 0 then []
    else match ForwardTurn(st, turns[0], now)
      case ConsumerExit => []
      case Consumed(st', sent) => sent + ForwardAll(st', turns[1..], now)
  }

  /** The turns that carry text, in order. */
  function WithText(turns: seq<LiveClient.AgentTurn>): (r: seq<LiveClient.AgentTurn>)
    ensures |r| <= |turns|
    ensures forall i :: 0 <= i < |r| ==> r[i].text != "" && r[i] in turns
    decreases |turns|
  {
    if |turns| == 0 then []
    else (if turns[0].text != "" then [turns[0]] else []) + WithText(turns[1..])
  }

  /** One whisper per turn, carrying its text and move. */
  function Whispers(turns: seq<LiveClient.AgentTurn>, now: real): (r: seq<Effect>)
    ensures |r| == |turns|
    ensures forall i :: 0 <= i < |r| ==> r[i] == Send(Whisper(turns[i].text, turns[i].move, Millis(now)))
  {
    seq(|turns|, i requires 0 <= i < |turns| => Send(Whisper(turns[i].text, turns[i].move, Millis(now))))
  }

  lemma {:induction false} ForwardAllWhispersTextTurns(st: HandlerState, turns: seq<LiveClient.AgentTurn>, now: real)
    requires st.running
    ensures ForwardAll(st, turns, now) == Whispers(WithText(turns), now)
    decreases |turns|
  {
    if |turns| > 0 {
      ForwardAllWhispersTextTurns(st, turns[1..], now);
      var head := if turns[0].text != "" then [turns[0]] else [];
      assert Whispers(head + WithText(turns[1..]), now) == Whispers(head, now) + Whispers(WithText(turns[1..]), now);
    }
  }

  /** While the handler runs, the whispers sent are exactly the stub
      session's queued turns that carry text, in order. */
  lemma AgentTurnsBecomeWhispers(st: HandlerState, s: LiveClient.StubSession, now: real)
    requires st.running
    ensures ForwardAll(st, LiveClient.StubAgentTurns(s), now) == Whispers(WithText(LiveClient.StubAgentTurns(s)), now)
  {
    ForwardAllWhispersTextTurns(st, LiveClient.StubAgentTurns(s), now);
  }

  // ----- Barge-in and the rest of the agent's turn -----

  /** A non-blank audio chunk, used with a decoded length of `FullScaleBytes`
      (passed separately), which gives full-scale volume. */
  const LoudChunk: string := "AAAA"

  /** A loud chunk while the agent speaks interrupts it and clears the flag. */
  lemma LoudChunkBargesIn(st: HandlerState, t: real)
    requires st.session && st.agentSpeaking
    ensures var r := OnAudio(st, LoudChunk, Some(FullScaleBytes), false, DefaultBargeInThreshold, t);
      StopGeneration in r.effects && r.state == st.(agentSpeaking := false)
  {
    Text.StripKeepsUntrimmed(LoudChunk, Text.Whitespace);
    var tel := DeriveTelemetry(FullScaleBytes, true, DefaultBargeInThreshold, t);
    assert tel.rms == 1.0;
  }

  /** A loud chunk while the handler believes the agent silent interrupts nothing. */
  lemma LoudChunkIgnoredWhenSilent(st: HandlerState, t: real)
    requires !st.agentSpeaking
    ensures StopGeneration !in OnAudio(st, LoudChunk, Some(FullScaleBytes), false, DefaultBargeInThreshold, t).effects
  {
    Text.StripKeepsUntrimmed(LoudChunk, Text.Whitespace);
  }

  /** As written: a barge-in clears the handler's flag, but `recv_events`
      keeps its own `agent_speaking`, so a further delta of the same turn
      comes without a new `agent_output_started`. The flag stays clear and a
      second loud chunk no longer interrupts the agent. */
  lemma BargeInLeavesTurnUnarmed(st: HandlerState, delta: LiveClient.LiveEvent, rest: seq<Option<LiveClient.LiveEvent>>, t0: real, t1: real)
    requires st.running && st.session && st.agentSpeaking
    requires delta.kind == LiveClient.TranscriptDelta
    ensures var loud := OnAudio(st, LoudChunk, Some(FullScaleBytes), false, DefaultBargeInThreshold, t0);
            var evs := LiveClient.Transduce(true, [Some(delta)] + rest);
            var after := ConsumeAll(loud.state, evs[..1]);
      && StopGeneration in loud.effects
      && evs[0] == delta
      && !after.agentSpeaking
      && StopGeneration !in OnAudio(after, LoudChunk, Some(FullScaleBytes), false, DefaultBargeInThreshold, t1).effects
  {
    LoudChunkBargesIn(st, t0);
    var loud := OnAudio(st, LoudChunk, Some(FullScaleBytes), false, DefaultBargeInThreshold, t0);
    var evs := LiveClient.Transduce(true, [Some(delta)] + rest);
    assert ([Some(delta)] + rest)[0] == Some(delta);
    assert evs[..1] == [delta];
    assert [delta][1..] == [];
    var after := ConsumeAll(loud.state, [delta]);
    assert after == ConsumeAll(loud.state, []);
    LoudChunkIgnoredWhenSilent(after, t1);
  }

  /** The corrected consumer: a transcript delta also marks the agent as
      speaking, so the flag a barge-in cleared is set again by the agent's
      next output. */
  function ConsumeEventFixed(st: HandlerState, ev: LiveClient.LiveEvent): (r: Consumed)
    ensures r.ConsumerExit? <==> !st.running
    ensures r.Consumed? && ev.kind == LiveClient.TranscriptDelta ==> r.state.agentSpeaking
    ensures r.Consumed? && ev.kind != LiveClient.TranscriptDelta ==> r == ConsumeEvent(st, ev)
  {
    if !st.running then ConsumerExit
    else if ev.kind == LiveClient.TranscriptDelta then Consumed(st.(agentSpeaking := true), [])
    else ConsumeEvent(st, ev)
  }

  function ConsumeAllFixed(st: HandlerState, evs: seq<LiveClient.LiveEvent>): (r: HandlerState)
    ensures r.running == st.running && r.session == st.session && r.tasks == st.tasks
    decreases |evs|
  {
    if |evs| == 0 then st
    else match ConsumeEventFixed(st, evs[0])
      case ConsumerExit => st
      case Consumed(st', _) => ConsumeAllFixed(st', evs[1..])
  }

  lemma {:induction false} ConsumeAllFixedAppendOne(st: HandlerState, evs: seq<LiveClient.LiveEvent>, ev: LiveClient.LiveEvent)
    requires st.running
    ensures ConsumeAllFixed(st, evs + [ev]) == ConsumeEventFixed(ConsumeAllFixed(st, evs), ev).state
    decreases |evs|
  {
    if |evs| == 0 {
      assert evs + [ev] == [ev];
      assert [ev][1..] == [];
    } else {
      assert (evs + [ev])[0] == evs[0];
      assert (evs + [ev])[1..] == evs[1..] + [ev];
      ConsumeAllFixedAppendOne(ConsumeEventFixed(st, evs[0]).state, evs[1..], ev);
    }
  }

  /** Corrected: whatever the flag was, once any transcript delta has been
      consumed the handler knows the agent is speaking. */
  lemma FixedFlagSetByDelta(st: HandlerState, evs: seq<LiveClient.LiveEvent>, i: nat)
    requires st.running && i < |evs| && evs[i].kind == LiveClient.TranscriptDelta
    ensures ConsumeAllFixed(st, evs[..i + 1]).agentSpeaking
  {
    assert evs[..i + 1] == evs[..i] + [evs[i]];
    ConsumeAllFixedAppendOne(st, evs[..i], evs[i]);
  }

  /** Corrected: after a barge-in, the next delta of the same turn arms
      barge-in again, so a second loud chunk interrupts the agent. */
  lemma FixedBargeInRearms(st: HandlerState, delta: LiveClient.LiveEvent, rest: seq<Option<LiveClient.LiveEvent>>, t0: real, t1: real)
    requires st.running && st.session && st.agentSpeaking
    requires delta.kind == LiveClient.TranscriptDelta
    ensures var loud := OnAudio(st, LoudChunk, Some(FullScaleBytes), false, DefaultBargeInThreshold, t0);
            var evs := LiveClient.Transduce(true, [Some(delta)] + rest);
            var after := ConsumeAllFixed(loud.state, evs[..1]);
      && StopGeneration in loud.effects
      && StopGeneration in OnAudio(after, LoudChunk, Some(FullScaleBytes), false, DefaultBargeInThreshold, t1).effects
  {
    LoudChunkBargesIn(st, t0);
    var loud := OnAudio(st, LoudChunk, Some(FullScaleBytes), false, DefaultBargeInThreshold, t0);
    var evs := LiveClient.Transduce(true, [Some(delta)] + rest);
    assert ([Some(delta)] + rest)[0] == Some(delta);
    assert evs[0] == delta;
    FixedFlagSetByDelta(loud.state, evs, 0);
    var after := ConsumeAllFixed(loud.state, evs[..1]);
    assert after.session && after.agentSpeaking;
    LoudChunkBargesIn(after, t1);
  }
}
