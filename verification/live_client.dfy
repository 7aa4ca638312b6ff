/**
 * The live voice-session client of `apps/server/app/gemini_live_client.py`:
 * the event stream `recv_events` derives from the session's event queue, the
 * guards of `send_audio` and `close`, and the stand-in session used in mock mode.
 *
 * A queue is the sequence of items put on it so far; `None` is the sentinel
 * that ends iteration.
 */
module LiveClient {
  import opened Wrappers

  /** `LiveEvent.kind`. */
  datatype EventKind = TranscriptDelta | AgentOutputStarted | AgentOutputStopped | ErrorEvent

  /** `LiveEvent`: one event from the live session. */
  datatype LiveEvent = LiveEvent(kind: EventKind, text: string, message: string)

  /** The event `recv_events` synthesizes when the agent starts a turn. */
  const StartedEvent: LiveEvent := LiveEvent(AgentOutputStarted, "", "")

  /** The events queued before the first sentinel. */
  function UntilSentinel(q: seq<Option<LiveEvent>>): (r: seq<LiveEvent>)
    ensures |r| <= |q|
    ensures forall i :: 0 <= i < |r| ==> q[i] == Some(r[i])
    ensures |r| < |q| ==> q[|r|].None?
    decreases |q|
  {
    if |q| == 0 || q[0].None? then [] else [q[0].value] + UntilSentinel(q[1..])
  }

  /** `RealGeminiLiveSession.recv_events` as a transducer over its queue:
      `speaking` is the generator's local `agent_speaking`. An
      `agent_output_started` is yielded before a transcript delta that finds
      the agent silent; `agent_output_stopped` makes it silent again. */
  function Transduce(speaking: bool, q: seq<Option<LiveEvent>>): (r: seq<LiveEvent>)
    // nothing is yielded exactly when the first item is the sentinel or the queue is empty
    ensures |r| == 0 <==> |q| == 0 || q[0].None?
    decreases |q|
  {
    if |q| == 0 || q[0].None? then []
    else
      var ev := q[0].value;
      var opens := ev.kind == TranscriptDelta && !speaking;
      (if opens then [StartedEvent, ev] else [ev]) + Transduce(Next(speaking, ev), q[1..])
  }

  /** The generator's `agent_speaking` after it has yielded `ev`: set by a
      transcript delta, cleared by `agent_output_stopped`. */
  function Next(speaking: bool, ev: LiveEvent): (r: bool)
    ensures ev.kind == AgentOutputStopped ==> !r
    ensures ev.kind == TranscriptDelta ==> r
    ensures ev.kind != TranscriptDelta && ev.kind != AgentOutputStopped ==> r == speaking
  {
    if ev.kind == AgentOutputStopped then false else speaking || ev.kind == TranscriptDelta
  }

  /** The generator's `agent_speaking` after it has consumed the queue items
      `q` (up to a sentinel). */
  function FlagAfter(speaking: bool, q: seq<Option<LiveEvent>>): bool
    decreases |q|
  {
    if |q| == 0 || q[0].None? then speaking else FlagAfter(Next(speaking, q[0].value), q[1..])
  }

  /** No sentinel among the items `q`. */
  predicate NoSentinel(q: seq<Option<LiveEvent>>) {
    forall j :: 0 <= j < |q| ==> q[j].Some?
  }

  /** The events that are not `agent_output_started`. */
  function WithoutStarted(evs: seq<LiveEvent>): (r: seq<LiveEvent>)
    ensures |r| <= |evs|
    ensures forall i :: 0 <= i < |r| ==> r[i].kind != AgentOutputStarted
    decreases |evs|
  {
    if |evs| == 0 then []
    else (if evs[0].kind == AgentOutputStarted then [] else [evs[0]]) + WithoutStarted(evs[1..])
  }

  lemma {:induction false} WithoutStartedAppend(a: seq<LiveEvent>, b: seq<LiveEvent>)
    ensures WithoutStarted(a + b) == WithoutStarted(a) + WithoutStarted(b)
    decreases |a|
  {
    if |a| == 0 {
      assert a + b == b;
    } else {
      assert (a + b)[0] == a[0];
      assert (a + b)[1..] == a[1..] + b;
      WithoutStartedAppend(a[1..], b);
    }
  }

  /** Nothing is lost, reordered or invented: apart from the synthesized
      `agent_output_started` events, the stream is the queue up to its
      first sentinel. */
  lemma {:induction false} StreamIsQueueUpToSentinel(speaking: bool, q: seq<Option<LiveEvent>>)
    ensures WithoutStarted(Transduce(speaking, q)) == WithoutStarted(UntilSentinel(q))
    decreases |q|
  {
    if |q| > 0 && q[0].Some? {
      var ev := q[0].value;
      var opens := ev.kind == TranscriptDelta && !speaking;
      var speaking' := Next(speaking, ev);
      var head := if opens then [StartedEvent, ev] else [ev];
      StreamIsQueueUpToSentinel(speaking', q[1..]);
      WithoutStartedAppend(head, Transduce(speaking', q[1..]));
      WithoutStartedAppend([ev], UntilSentinel(q[1..]));
      if opens {
        assert head == [StartedEvent] + [ev];
        WithoutStartedAppend([StartedEvent], [ev]);
      }
    }
  }

  /** A sentinel ends the stream: nothing queued after it is ever yielded. */
  lemma {:induction false} SentinelEndsStream(speaking: bool, q1: seq<Option<LiveEvent>>, q2: seq<Option<LiveEvent>>)
    ensures Transduce(speaking, q1 + [None] + q2) == Transduce(speaking, q1)
    decreases |q1|
  {
    if |q1| == 0 {
      assert (q1 + [None] + q2)[0] == None;
    } else {
      assert (q1 + [None] + q2)[0] == q1[0];
      assert (q1 + [None] + q2)[1..] == q1[1..] + [None] + q2;
      if q1[0].Some? {
        SentinelEndsStream(Next(speaking, q1[0].value), q1[1..], q2);
      }
    }
  }

  /** Every event before the sentinel is yielded, with at most one
      synthesized marker each. */
  lemma {:induction false} TransduceLength(speaking: bool, q: seq<Option<LiveEvent>>)
    ensures |UntilSentinel(q)| <= |Transduce(speaking, q)| <= 2 * |UntilSentinel(q)|
    decreases |q|
  {
    if |q| > 0 && q[0].Some? {
      TransduceLength(Next(speaking, q[0].value), q[1..]);
    }
  }

  /** What the generator yields for one queued event, then for the rest. */
  lemma TransduceStep(speaking: bool, ev: LiveEvent, rest: seq<Option<LiveEvent>>)
    ensures Transduce(speaking, [Some(ev)] + rest)
         == (if ev.kind == TranscriptDelta && !speaking then [StartedEvent, ev] else [ev]) + Transduce(Next(speaking, ev), rest)
  {
    assert ([Some(ev)] + rest)[1..] == rest;
  }

  /** The stream of a sentinel-free prefix followed by more items is the
      prefix's stream followed by the rest's, the generator carrying its
      `agent_speaking` across. */
  lemma {:induction false} TransduceAppend(speaking: bool, a: seq<Option<LiveEvent>>, b: seq<Option<LiveEvent>>)
    requires NoSentinel(a)
    ensures Transduce(speaking, a + b) == Transduce(speaking, a) + Transduce(FlagAfter(speaking, a), b)
    decreases |a|
  {
    if |a| == 0 {
      assert a + b == b;
      assert Transduce(speaking, a) == [] && FlagAfter(speaking, a) == speaking;
      assert [] + Transduce(speaking, b) == Transduce(speaking, b);
    } else {
      var ev := a[0].value;
      var next := Next(speaking, ev);
      var head := if ev.kind == TranscriptDelta && !speaking then [StartedEvent, ev] else [ev];
      var mid := Transduce(next, a[1..]);
      var tail := Transduce(FlagAfter(next, a[1..]), b);
      assert Transduce(speaking, a) == head + mid by {
        assert a == [Some(ev)] + a[1..];
        TransduceStep(speaking, ev, a[1..]);
      }
      assert FlagAfter(speaking, a) == FlagAfter(next, a[1..]);
      assert Transduce(speaking, a + b) == head + (mid + tail) by {
        assert a + b == [Some(ev)] + (a[1..] + b);
        TransduceStep(speaking, ev, a[1..] + b);
        assert NoSentinel(a[1..]) by {
          forall j | 0 <= j < |a[1..]| ensures a[1..][j].Some? {
            assert a[1..][j] == a[j + 1];
          }
        }
        TransduceAppend(next, a[1..], b);
      }
      assert head + (mid + tail) == (head + mid) + tail;
    }
  }

  /** A transcript delta anywhere in the queue gets a synthesized
      `agent_output_started` right before it exactly when the generator was
      not already speaking; everything yielded for earlier items comes first. */
  lemma StartedOnlyWhenSilent(speaking: bool, q: seq<Option<LiveEvent>>, i: nat)
    requires i < |q| && NoSentinel(q[..i])
    requires q[i].Some? && q[i].value.kind == TranscriptDelta
    ensures var pre := Transduce(speaking, q[..i]);
            var out := Transduce(speaking, q);
      && |out| > |pre|
      && out[..|pre|] == pre
      && (if FlagAfter(speaking, q[..i]) then out[|pre|] == q[i].value
          else |out| > |pre| + 1 && out[|pre|] == StartedEvent && out[|pre| + 1] == q[i].value)
  {
    assert q == q[..i] + q[i..];
    TransduceAppend(speaking, q[..i], q[i..]);
    assert q[i..][0] == q[i];
  }

  /** After `agent_output_stopped` anywhere in the queue, a transcript delta
      that follows it is again preceded by a fresh `agent_output_started`,
      whatever came before. */
  lemma FreshStartAfterStop(speaking: bool, q: seq<Option<LiveEvent>>, i: nat)
    requires i + 1 < |q| && NoSentinel(q[..i])
    requires q[i].Some? && q[i].value.kind == AgentOutputStopped
    requires q[i + 1].Some? && q[i + 1].value.kind == TranscriptDelta
    ensures var pre := Transduce(speaking, q[..i]);
            var out := Transduce(speaking, q);
      && |out| > |pre| + 2
      && out[..|pre|] == pre
      && out[|pre|] == q[i].value && out[|pre| + 1] == StartedEvent && out[|pre| + 2] == q[i + 1].value
  {
    assert q == q[..i] + q[i..];
    TransduceAppend(speaking, q[..i], q[i..]);
    assert q[i..][0] == q[i];
    assert q[i..][1..][0] == q[i + 1];
  }

  /** How a consumer that sets a flag on `agent_output_started` and clears it
      on `agent_output_stopped` reacts to one event. */
  function Observe(b: bool, ev: LiveEvent): (r: bool)
    ensures ev.kind == AgentOutputStarted ==> r
    ensures ev.kind == AgentOutputStopped ==> !r
    // deltas and errors leave the belief as it was
    ensures ev.kind == TranscriptDelta || ev.kind == ErrorEvent ==> r == b
  {
    match ev.kind
    case AgentOutputStarted => true
    case AgentOutputStopped => false
    case _ => b
  }

  /** Whether such a consumer believes the agent is speaking after `evs`. */
  function SpeakingAfter(b: bool, evs: seq<LiveEvent>): bool
    decreases |evs|
  {
    if |evs| == 0 then b else SpeakingAfter(Observe(b, evs[0]), evs[1..])
  }

  lemma {:induction false} SpeakingAfterAppend(b: bool, a: seq<LiveEvent>, c: seq<LiveEvent>)
    ensures SpeakingAfter(b, a + c) == SpeakingAfter(SpeakingAfter(b, a), c)
    decreases |a|
  {
    if |a| == 0 {
      assert a + c == c;
    } else {
      assert (a + c)[0] == a[0];
      assert (a + c)[1..] == a[1..] + c;
      SpeakingAfterAppend(Observe(b, a[0]), a[1..], c);
    }
  }

  lemma SpeakingAfterOne(b: bool, ev: LiveEvent)
    ensures SpeakingAfter(b, [ev]) == Observe(b, ev)
  {
    assert [ev][1..] == [];
  }

  /** Every transcript delta in `evs` arrives while a consumer that started
      out believing `b` believes the agent is speaking. */
  ghost predicate DeltasWhileSpeaking(b: bool, evs: seq<LiveEvent>) {
    forall i :: 0 <= i < |evs| && evs[i].kind == TranscriptDelta ==> SpeakingAfter(b, evs[..i])
  }

  lemma DeltasWhileSpeakingAppend(b: bool, a: seq<LiveEvent>, c: seq<LiveEvent>)
    requires DeltasWhileSpeaking(b, a)
    requires DeltasWhileSpeaking(SpeakingAfter(b, a), c)
    ensures DeltasWhileSpeaking(b, a + c)
  {
    var ac := a + c;
    forall i | 0 <= i < |ac| && ac[i].kind == TranscriptDelta
      ensures SpeakingAfter(b, ac[..i])
    {
      if i < |a| {
        assert ac[..i] == a[..i];
        assert a[i] == ac[i];
      } else {
        var j := i - |a|;
        assert ac[..i] == a + c[..j];
        assert c[j] == ac[i];
        SpeakingAfterAppend(b, a, c[..j]);
      }
    }
  }

  /** Every transcript delta in the stream arrives while a consumer tracking
      started/stopped events believes the agent is speaking, whatever that
      consumer believed at the start. */
  lemma {:induction false} DeltaArrivesWhileSpeaking(speaking: bool, b: bool, q: seq<Option<LiveEvent>>)
    requires speaking ==> b
    ensures DeltasWhileSpeaking(b, Transduce(speaking, q))
    decreases |q|
  {
    if |q| > 0 && q[0].Some? {
      var ev := q[0].value;
      var opens := ev.kind == TranscriptDelta && !speaking;
      var speaking' := Next(speaking, ev);
      var head := if opens then [StartedEvent, ev] else [ev];
      var rest := Transduce(speaking', q[1..]);
      assert Transduce(speaking, q) == head + rest;
      var b' := SpeakingAfter(b, head);
      if opens {
        SpeakingAfterAppend(b, [StartedEvent], [ev]);
        assert head == [StartedEvent] + [ev];
        SpeakingAfterOne(b, StartedEvent);
        SpeakingAfterOne(true, ev);
        assert head[..1] == [StartedEvent];
        assert head[..0] == [];
      } else {
        SpeakingAfterOne(b, ev);
        assert head[..0] == [];
      }
      assert DeltasWhileSpeaking(b, head);
      DeltaArrivesWhileSpeaking(speaking', b', q[1..]);
      DeltasWhileSpeakingAppend(b, head, rest);
    }
  }

  // ----- RealGeminiLiveSession -----

  /** The state of a real session that the guards read and write. */
  datatype RealSession = RealSession(closed: bool, interrupted: bool, queue: seq<Option<LiveEvent>>)

  /** What the upstream `send_realtime_input` call did. */
  datatype Upstream = Delivered | Raised(message: string)

  /** A session after `send_audio`, and whether the audio was handed upstream. */
  datatype SendOutcome = SendOutcome(session: RealSession, forwarded: bool)

  /** `send_audio`: `decodes` says whether strict base64 decoding of the chunk
      succeeds; `upstream` is the outcome of the upstream send, if attempted. */
  function SendAudio(s: RealSession, decodes: bool, upstream: Upstream): (r: SendOutcome)
    // a closed session, or undecodable audio, has no effect at all
    ensures s.closed || !decodes ==> r == SendOutcome(s, false)
    ensures !s.closed && decodes ==> r.forwarded
    // a failed send queues exactly one error event with the failure's message
    ensures !s.closed && decodes && upstream.Raised? ==>
      r.session == s.(queue := s.queue + [Some(LiveEvent(ErrorEvent, "", upstream.message))])
    ensures upstream.Delivered? ==> r.session == s
  {
    if s.closed || !decodes then SendOutcome(s, false)
    else
      match upstream
      case Delivered => SendOutcome(s, true)
      case Raised(m) => SendOutcome(s.(queue := s.queue + [Some(LiveEvent(ErrorEvent, "", m))]), true)
  }

  /** `stop_generation`: marks the session interrupted; failures of the
      upstream activity-end signal are swallowed. */
  function StopGeneration(s: RealSession): (r: RealSession)
    ensures r.interrupted && r.closed == s.closed && r.queue == s.queue
  {
    s.(interrupted := true)
  }

  /** `close` (and its alias `disconnect`): closed, with a sentinel queued. */
  function Close(s: RealSession): (r: RealSession)
    ensures r.closed
    ensures r.queue == s.queue + [None]
    ensures r.interrupted == s.interrupted
  {
    s.(closed := true, queue := s.queue + [None])
  }

  /** The events a fresh `recv_events` iteration yields from the current queue:
      none once the session is closed. */
  function RecvEvents(s: RealSession): (r: seq<LiveEvent>)
    ensures s.closed ==> r == []
    ensures WithoutStarted(r) == if s.closed then [] else WithoutStarted(UntilSentinel(s.queue))
  {
    if s.closed then []
    else
      StreamIsQueueUpToSentinel(false, s.queue);
      Transduce(false, s.queue)
  }

  /** The `finally` of the upstream receive loop: the session stays open and
      a sentinel is queued behind whatever the loop has already queued. */
  function UpstreamEnded(s: RealSession): (r: RealSession)
    ensures r.closed == s.closed && r.interrupted == s.interrupted
    ensures r.queue == s.queue + [None]
  {
    s.(queue := s.queue + [None])
  }

  /** When the upstream receive loop ends, a consumer still receives every
      event it queued, and then the stream ends. */
  lemma UpstreamEndKeepsQueuedEvents(s: RealSession)
    ensures RecvEvents(UpstreamEnded(s)) == RecvEvents(s)
  {
    SentinelEndsStream(false, s.queue, []);
    assert s.queue + [None] + [] == s.queue + [None];
  }

  /** `close` is final, unlike the upstream sentinel: the `_closed` guard
      comes first, so the stream yields nothing more, even for events queued
      before the close, and audio is no longer sent. */
  lemma ClosedSessionIsInert(s: RealSession, decodes: bool, upstream: Upstream)
    ensures RecvEvents(Close(s)) == []
    ensures SendAudio(Close(s), decodes, upstream) == SendOutcome(Close(s), false)
    ensures Close(Close(s)).closed && RecvEvents(Close(Close(s))) == []
  {
  }

  /** A failed upstream send surfaces as an error event, yielded after every
      event that was already queued. */
  lemma SendFailureSurfaces(s: RealSession, message: string)
    requires !s.closed && NoSentinel(s.queue)
    ensures var after := SendAudio(s, true, Raised(message)).session;
      RecvEvents(after) == RecvEvents(s) + [LiveEvent(ErrorEvent, "", message)]
  {
    var err := LiveEvent(ErrorEvent, "", message);
    TransduceAppend(false, s.queue, [Some(err)]);
    assert [Some(err)][1..] == [];
  }

  // ----- StubGeminiLiveSession -----

  /** `AgentTurn`. */
  datatype AgentTurn = AgentTurn(text: string, move: string, audioBase64: string, isFinal: bool)

  datatype StubSession = StubSession(closed: bool, turns: seq<Option<AgentTurn>>, events: seq<Option<LiveEvent>>)

  /** `inject_turn`: queues the turn only while the session is open. */
  function InjectTurn(s: StubSession, turn: AgentTurn): (r: StubSession)
    ensures r.closed == s.closed && r.events == s.events
    ensures !s.closed ==> r.turns == s.turns + [Some(turn)]
    ensures s.closed ==> r == s
  {
    if s.closed then s else s.(turns := s.turns + [Some(turn)])
  }

  /** The stub's `close`: closed, with a sentinel on the event queue. */
  function StubClose(s: StubSession): (r: StubSession)
    ensures r.closed && r.turns == s.turns && r.events == s.events + [None]
  {
    s.(closed := true, events := s.events + [None])
  }

  /** The stub's `recv_events`: the queue up to its sentinel, unchanged. */
  function StubRecvEvents(s: StubSession): (r: seq<LiveEvent>)
    ensures s.closed ==> r == []
    // open: the queued events in order, stopping exactly at the first sentinel
    ensures !s.closed ==> |r| <= |s.events| && forall i :: 0 <= i < |r| ==> s.events[i] == Some(r[i])
    ensures !s.closed && |r| < |s.events| ==> s.events[|r|].None?
  {
    if s.closed then [] else UntilSentinel(s.events)
  }

  /** `agent_turns`: the queued turns in order, up to the first sentinel;
      nothing once the session is closed. */
  function StubAgentTurns(s: StubSession): (r: seq<AgentTurn>)
    ensures s.closed ==> r == []
    ensures |r| <= |s.turns|
    ensures forall i :: 0 <= i < |r| ==> s.turns[i] == Some(r[i])
    // iteration runs until the sentinel or the end of the queue
    ensures !s.closed && |r| < |s.turns| ==> s.turns[|r|].None?
    decreases |s.turns|
  {
    if s.closed || |s.turns| == 0 || s.turns[0].None? then []
    else [s.turns[0].value] + StubAgentTurns(s.(turns := s.turns[1..]))
  }

  /** Injected turns are delivered in injection order. */
  lemma InjectedTurnDelivered(s: StubSession, turn: AgentTurn)
    requires !s.closed
    requires forall i :: 0 <= i < |s.turns| ==> s.turns[i].Some?
    ensures StubAgentTurns(InjectTurn(s, turn)) == StubAgentTurns(s) + [turn]
  {
    InjectedTurnsAppend(s, turn);
  }

  lemma {:induction false} InjectedTurnsAppend(s: StubSession, turn: AgentTurn)
    requires !s.closed
    requires forall i :: 0 <= i < |s.turns| ==> s.turns[i].Some?
    ensures StubAgentTurns(s.(turns := s.turns + [Some(turn)])) == StubAgentTurns(s) + [turn]
    decreases |s.turns|
  {
    var s' := s.(turns := s.turns + [Some(turn)]);
    if |s.turns| == 0 {
      assert s'.turns == [Some(turn)];
      assert s'.(turns := s'.turns[1..]).turns == [];
    } else {
      assert s'.turns[1..] == s.turns[1..] + [Some(turn)];
      InjectedTurnsAppend(s.(turns := s.turns[1..]), turn);
      assert s'.(turns := s'.turns[1..]) == s.(turns := s.turns[1..]).(turns := s.turns[1..] + [Some(turn)]);
    }
  }
}
