/**
 * Coaching moves of `apps/server/app/coaching.py`: the fixed catalog, the
 * trigger-to-move fallback table, lookup by id, and the decision in
 * `generate_coaching` to accept a generated whisper or fall back to the
 * catalog. The text generator itself is an input: it either fails (any
 * exception on the way, including a missing client) or returns a text.
 */
module Coaching {
  import opened Wrappers
  import Text

  /** One `{"move": ..., "text": ...}` entry. */
  datatype Move = Move(move: string, text: string)

  /** `COACHING_MOVES`, in order. */
  const Catalog: seq<Move> := [
    Move("reflect_back", "It sounds like this is really important to you right now."),
    Move("clarify_intent", "Would it help to say what you're hoping they take away?"),
    Move("slow_down", "Taking a breath before the next sentence can help."),
    Move("deescalate_tone", "A softer tone might make it easier for them to hear you."),
    Move("invite_perspective", "You could ask how they're seeing it so far.")
  ]

  /** `COACHING_MOVES[0]`, the last resort when a fallback id is not in the catalog. */
  const FirstMove: Move := Catalog[0]

  /** `FALLBACK_MOVES`: the catalog move to use for each trigger. */
  const FallbackMoves: map<string, string> := map[
    "tension_cross" := "slow_down",
    "barge_in" := "reflect_back",
    "post_escalation_silence" := "clarify_intent"
  ]

  /** The move used for a trigger `FALLBACK_MOVES` does not know. */
  const DefaultFallbackId: string := "slow_down"

  const MinWords: nat := 4
  const MaxWords: nat := 20
  /** How much of the transcript buffer goes into the prompt. */
  const TranscriptWindow: nat := 500

  /** The first entry of `moves` with the given id. */
  function FindMove(moves: seq<Move>, id: string): (r: Option<Move>)
    ensures r.None? <==> forall i :: 0 <= i < |moves| ==> moves[i].move != id
    ensures r.Some? ==> r.value in moves && r.value.move == id
    decreases |moves|
  {
    if |moves| == 0 then None
    else if moves[0].move == id then Some(moves[0])
    else FindMove(moves[1..], id)
  }

  /** `get_move_by_id`. */
  function GetMoveById(id: string): (r: Option<Move>)
    ensures r.None? <==> forall i :: 0 <= i < |Catalog| ==> Catalog[i].move != id
    ensures r.Some? ==> r.value in Catalog && r.value.move == id && r.value.text != ""
  {
    FindMove(Catalog, id)
  }

  /** Catalog ids are pairwise distinct, so a lookup is never ambiguous. */
  lemma CatalogIdsDistinct()
    ensures forall i, j :: 0 <= i < j < |Catalog| ==> Catalog[i].move != Catalog[j].move
  {
  }

  /** Looking up any catalog id returns exactly that entry, whose text is not empty. */
  lemma LookupFindsEveryEntry(i: nat)
    requires i < |Catalog|
    ensures GetMoveById(Catalog[i].move) == Some(Catalog[i])
    ensures |Catalog[i].text| > 0
  {
    CatalogIdsDistinct();
    var r := GetMoveById(Catalog[i].move);
    var k :| 0 <= k < |Catalog| && Catalog[k] == r.value;
    assert k == i;
  }

  /** An id outside the catalog is not found. */
  lemma UnknownIdNotFound(id: string)
    requires forall i :: 0 <= i < |Catalog| ==> Catalog[i].move != id
    ensures GetMoveById(id) == None
  {
  }

  /** Every fallback target, and the default, is a catalog move. */
  lemma FallbackTargetsInCatalog(trigger: string)
    ensures GetMoveById(FallbackId(trigger)).Some?
  {
    var id := FallbackId(trigger);
    if trigger in FallbackMoves {
      assert id == "slow_down" || id == "reflect_back" || id == "clarify_intent";
    }
    if id == "slow_down" {
      LookupFindsEveryEntry(2);
    } else if id == "reflect_back" {
      LookupFindsEveryEntry(0);
    } else {
      LookupFindsEveryEntry(1);
    }
  }

  /** `FALLBACK_MOVES.get(trigger, "slow_down")`. */
  function FallbackId(trigger: string): string {
    if trigger in FallbackMoves then FallbackMoves[trigger] else DefaultFallbackId
  }

  /** `get_move_by_id(fallback_id) or COACHING_MOVES[0]`: always the catalog
      entry of the fallback id, never the last-resort first entry. */
  function Fallback(trigger: string): (r: Move)
    ensures r in Catalog && |r.text| > 0
    ensures r.move == FallbackId(trigger)
    ensures GetMoveById(FallbackId(trigger)) == Some(r)
  {
    FallbackTargetsInCatalog(trigger);
    match GetMoveById(FallbackId(trigger))
    case Some(m) => m
    case None => FirstMove
  }

  /** `.strip().strip('"').strip("'")`. */
  function CleanText(raw: string): (r: string)
    ensures |r| <= |raw|
    // the cleaned text is a contiguous piece of the raw response ...
    ensures Text.IsInfix(r, raw)
    // ... that neither starts nor ends with a single quote
    ensures |r| > 0 ==> r[0] != '\'' && r[|r| - 1] != '\''
  {
    var noSpace := Text.Strip(raw, Text.Whitespace);
    var noDouble := Text.Strip(noSpace, Text.OneOf({'"'}));
    var r := Text.Strip(noDouble, Text.OneOf({'\''}));
    Text.StripIsInfix(raw, Text.Whitespace);
    Text.StripIsInfix(noSpace, Text.OneOf({'"'}));
    Text.StripIsInfix(noDouble, Text.OneOf({'\''}));
    Text.InfixOfInfix(noDouble, noSpace, raw);
    Text.InfixOfInfix(r, noDouble, raw);
    r
  }

  predicate Acceptable(text: string) {
    MinWords <= Text.WordCount(text) <= MaxWords
  }

  /** The generator's outcome: any failure, or the text of its response. */
  datatype GeneratorOutcome = Failed | Generated(text: string)

  /** `generate_coaching`: the generated whisper, tagged with the trigger, if
      it has 4 to 20 words once cleaned; otherwise the catalog fallback. */
  function GenerateCoaching(trigger: string, outcome: GeneratorOutcome): (r: Move)
    ensures outcome.Failed? ==> r == Fallback(trigger)
    ensures outcome.Generated? && Acceptable(CleanText(outcome.text)) ==> r == Move(trigger, CleanText(outcome.text))
    ensures outcome.Generated? && !Acceptable(CleanText(outcome.text)) ==> r == Fallback(trigger)
    // the result is always usable: a whisper of 4..20 words or a catalog entry
    ensures |r.text| > 0
    ensures r in Catalog || (r.move == trigger && Acceptable(r.text))
  {
    match outcome
    case Failed => Fallback(trigger)
    case Generated(raw) =>
      var text := CleanText(raw);
      if Acceptable(text) then Move(trigger, text) else Fallback(trigger)
  }

  /** `transcript_buffer[-500:]`: the prompt only sees the most recent 500 characters. */
  function TranscriptTail(buffer: string): (r: string)
    ensures |r| == if |buffer| < TranscriptWindow then |buffer| else TranscriptWindow
    ensures r == buffer[|buffer| - |r|..]
  {
    if |buffer| <= TranscriptWindow then buffer else buffer[|buffer| - TranscriptWindow..]
  }

  /** The fallbacks the unit tests expect. */
  lemma KnownFallbacks()
    ensures GenerateCoaching("tension_cross", Failed).move == "slow_down"
    ensures GenerateCoaching("barge_in", Failed).move == "reflect_back"
    ensures GenerateCoaching("post_escalation_silence", Failed).move == "clarify_intent"
  {
    assert FallbackId("tension_cross") == "slow_down";
    assert FallbackId("barge_in") == "reflect_back";
    assert FallbackId("post_escalation_silence") == "clarify_intent";
  }

  /** A trigger outside the table falls back to `slow_down`. */
  lemma UnknownTriggerFallsBackToSlowDown(trigger: string)
    requires trigger !in FallbackMoves
    ensures GenerateCoaching(trigger, Failed) == Catalog[2]
  {
    LookupFindsEveryEntry(2);
  }
}
