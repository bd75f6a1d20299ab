/** The critic node: rejects an over-length draft on its own, without asking
    the reviewing model; otherwise asks the model and falls back to a
    system-error critique when the call or the parse fails. The model's
    outcome is the input `reply` (None for a call or parse failure). */
module Critic {
  import opened Base
  import opened Text
  import opened DataTypes
  import opened State
  import opened Calls

  const MAX_POST_LENGTH := 280
  const TOO_LONG_SCORE := 2
  const SYSTEM_ERROR_SCORE := 1

  /** The pieces of the length rejection's feedback around the draft's
      length; the limit is written as the literal "280", not derived from
      MAX_POST_LENGTH. */
  const TOO_LONG_HEAD := "Too long! The draft is "
  const TOO_LONG_MIDDLE := " characters, but the limit is "
  const LIMIT_TEXT := "280"
  const TOO_LONG_TAIL := ". Shorten it significantly."

  /** The synthesized rejection of a draft of `length` characters. */
  function TooLongCritique(length: nat): Critique {
    Critique(
      TOO_LONG_SCORE,
      TOO_LONG_HEAD + (DecimalString(length) + (TOO_LONG_MIDDLE + (LIMIT_TEXT + TOO_LONG_TAIL))),
      false)
  }

  /** The synthesized rejection used when the reviewing model fails. */
  const SYSTEM_ERROR_CRITIQUE := Critique(SYSTEM_ERROR_SCORE, "System error during critique.", false)

  /** The length rejection is a valid rejecting critique whose feedback names
      the length violation, the draft's length and the limit. */
  lemma TooLongCritiqueStates(length: nat)
    ensures ValidCritique(TooLongCritique(length)) && !TooLongCritique(length).isApproved
    ensures TooLongCritique(length).score == 2
    ensures Occurs("Too long", TooLongCritique(length).feedback)
    ensures Occurs("280", TooLongCritique(length).feedback)
    ensures Occurs(DecimalString(length), TooLongCritique(length).feedback)
  {
    var digits := DecimalString(length);
    var limitOn := LIMIT_TEXT + TOO_LONG_TAIL;
    var middleOn := TOO_LONG_MIDDLE + limitOn;
    var digitsOn := digits + middleOn;
    assert "Too long" <= TOO_LONG_HEAD;
    OccursPrefix("Too long", TOO_LONG_HEAD);
    OccursLeft("Too long", TOO_LONG_HEAD, digitsOn);
    OccursPrefix(digits, digitsOn);
    OccursRight(digits, TOO_LONG_HEAD, digitsOn);
    OccursPrefix(LIMIT_TEXT, limitOn);
    OccursRight(LIMIT_TEXT, TOO_LONG_MIDDLE, limitOn);
    OccursRight(LIMIT_TEXT, digits, middleOn);
    OccursRight(LIMIT_TEXT, TOO_LONG_HEAD, digitsOn);
  }

  /** The system-error critique is a valid rejection with the minimum score. */
  lemma SystemErrorCritiqueStates()
    ensures ValidCritique(SYSTEM_ERROR_CRITIQUE) && !SYSTEM_ERROR_CRITIQUE.isApproved
    ensures SYSTEM_ERROR_CRITIQUE.score == MIN_SCORE
  {
  }

  /** The source material sent to the reviewer: the articles' markdown joined by blank lines. */
  function SourceText(articles: seq<Article>): (t: string)
    ensures forall i :: 0 <= i < |articles| ==> Occurs(ToMarkdown(articles[i]), t)
  {
    var parts := seq(|articles|, i requires 0 <= i < |articles| => ToMarkdown(articles[i]));
    var t := Join("\n\n", parts);
    assert forall i :: 0 <= i < |articles| ==> parts[i] == ToMarkdown(articles[i]) && Occurs(parts[i], t);
    t
  }

  function CriticNode(s: AgentState, reply: Option<Critique>): (r: Out)
    ensures s.draft.None? ==> r == Out(NoChange, [])
    ensures s.draft.Some? && |s.draft.value.content| > 280 ==>
      && r.calls == []
      && r.update == NoChange.(critiqueHistory := r.update.critiqueHistory)
      && |r.update.critiqueHistory| == 1
      && r.update.critiqueHistory[0].score == 2
      && !r.update.critiqueHistory[0].isApproved
      && Occurs("Too long", r.update.critiqueHistory[0].feedback)
      && Occurs("280", r.update.critiqueHistory[0].feedback)
    ensures s.draft.Some? && |s.draft.value.content| <= 280 ==>
      && r.calls == [ReviewDraft(SourceText(s.articles), s.draft.value.content, s.draft.value.reasoning)]
      && r.update == NoChange.(critiqueHistory := r.update.critiqueHistory)
      && |r.update.critiqueHistory| == 1
    ensures s.draft.Some? && |s.draft.value.content| <= 280 && reply.Some? && ValidCritique(reply.value) ==>
      r.update.critiqueHistory == [reply.value]
    ensures s.draft.Some? && |s.draft.value.content| <= 280 && (reply.None? || !ValidCritique(reply.value)) ==>
      r.update.critiqueHistory == [Critique(1, "System error during critique.", false)]
    ensures |r.update.critiqueHistory| <= 1
    ensures forall i :: 0 <= i < |r.update.critiqueHistory| ==> ValidCritique(r.update.critiqueHistory[i])
  {
    match s.draft
    case None =>
      Out(NoChange, [])
    case Some(d) =>
      if |d.content| > MAX_POST_LENGTH then
        TooLongCritiqueStates(|d.content|);
        Out(NoChange.(critiqueHistory := [TooLongCritique(|d.content|)]), [])
      else
        var call := ReviewDraft(SourceText(s.articles), d.content, d.reasoning);
        var verdict := match reply case Some(c) => ValidateCritique(c) case None => None;
        match verdict
        case Some(c) => Out(NoChange.(critiqueHistory := [c]), [call])
        case None => Out(NoChange.(critiqueHistory := [SYSTEM_ERROR_CRITIQUE]), [call])
  }

  /** A draft of exactly the limit passes the pre-check and goes to the reviewer. */
  lemma LimitLengthIsReviewed(s: AgentState, reply: Option<Critique>)
    requires s.draft.Some? && |s.draft.value.content| == MAX_POST_LENGTH
    ensures !NoReview(CriticNode(s, reply).calls)
  {
    assert CriticNode(s, reply).calls[0].ReviewDraft?;
  }

  /** An over-length draft is rejected whatever the reviewer would have said,
      and the reviewer is not asked. */
  lemma OverLengthIgnoresReviewer(s: AgentState, reply1: Option<Critique>, reply2: Option<Critique>)
    requires s.draft.Some? && |s.draft.value.content| > MAX_POST_LENGTH
    ensures CriticNode(s, reply1) == CriticNode(s, reply2)
    ensures NoReview(CriticNode(s, reply1).calls)
    ensures Merge(s, CriticNode(s, reply1).update).critiqueHistory
         == s.critiqueHistory + [TooLongCritique(|s.draft.value.content|)]
  {
  }
}
