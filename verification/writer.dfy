/** The writer node: drafts a tweet for the selected article, feeding back
    the last critique when there is one. The image download and the language
    model are collaborators; their outcomes are the inputs `imageDownloaded`
    and `reply` (None for a call or parse failure). */
module Writer {
  import opened Base
  import opened Text
  import opened DataTypes
  import opened State
  import opened Calls

  const TOO_LONG_MARKER := "Too long"

  /** The shortening instruction when the feedback mentions the length
      violation, the generic rewrite instruction otherwise. */
  function ChooseInstruction(feedback: string): (i: Instruction)
    ensures i == Shorten <==> Occurs("Too long", feedback)
    ensures i == Rewrite <==> !Occurs("Too long", feedback)
  {
    if Contains(feedback, TOO_LONG_MARKER) then Shorten else Rewrite
  }

  /** The feedback block built from the last critique, if any. */
  function FeedbackFor(s: AgentState): (f: Option<Feedback>)
    ensures f.None? <==> |s.critiqueHistory| == 0
    ensures f.Some? ==>
      var last := s.critiqueHistory[|s.critiqueHistory| - 1];
      f.value.score == last.score && f.value.text == last.feedback
      && f.value.previousDraft == (if s.draft.Some? then Some(s.draft.value.content) else None)
      && (f.value.instruction == Shorten <==> Occurs("Too long", last.feedback))
  {
    if |s.critiqueHistory| == 0 then
      None
    else
      var last := s.critiqueHistory[|s.critiqueHistory| - 1];
      var previous := match s.draft case Some(d) => Some(d.content) case None => None;
      Some(Feedback(last.score, previous, last.feedback, ChooseInstruction(last.feedback)))
  }

  /** The image is attached to the prompt when the article has one and the download succeeded. */
  predicate ImageAttached(a: Article, imageDownloaded: bool) {
    HasImage(a) && imageDownloaded
  }

  function WriterNode(s: AgentState, targetLength: int, imageDownloaded: bool, reply: Option<DraftReply>): (r: Out)
    ensures s.selectedArticle.None? ==> r == Out(NoChange.(draft := Put(None)), [])
    ensures s.selectedArticle.Some? && reply.None? ==> r.update == NoChange.(draft := Put(None))
    ensures s.selectedArticle.Some? && reply.Some? ==>
      var a := s.selectedArticle.value;
      && r.update == NoChange.(draft := r.update.draft, iterationCount := r.update.iterationCount)
      && r.update.draft.Put? && r.update.draft.value.Some?
      && r.update.draft.value.value.content == reply.value.content
      && r.update.draft.value.value.reasoning == reply.value.reasoning
      && r.update.draft.value.value.mediaFiles == (if ImageAttached(a, imageDownloaded) then [a.imageUrl.value] else [])
      && r.update.iterationCount.Put?
      && (r.update.iterationCount.value == s.iterationCount + 1 <==> |s.critiqueHistory| > 0)
      && (r.update.iterationCount.value == s.iterationCount <==> |s.critiqueHistory| == 0)
    ensures s.selectedArticle.Some? ==>
      var a := s.selectedArticle.value;
      && |r.calls| == (if HasImage(a) then 2 else 1)
      && (HasImage(a) ==> r.calls[0] == DownloadImage(a.imageUrl.value))
      && r.calls[|r.calls| - 1].WriteDraft?
      && r.calls[|r.calls| - 1].request.source == ToMarkdown(a)
      && r.calls[|r.calls| - 1].request.feedback == FeedbackFor(s)
      && (r.calls[|r.calls| - 1].request.image.Some? <==> ImageAttached(a, imageDownloaded))
  {
    var newIter := if |s.critiqueHistory| > 0 then s.iterationCount + 1 else s.iterationCount;
    match s.selectedArticle
    case None =>
      Out(NoChange.(draft := Put(None)), [])
    case Some(a) =>
      var attached := ImageAttached(a, imageDownloaded);
      var download := if HasImage(a) then [DownloadImage(a.imageUrl.value)] else [];
      var request := DraftRequest(ToMarkdown(a), if attached then a.imageUrl else None, FeedbackFor(s), targetLength);
      var calls := download + [WriteDraft(request)];
      match reply
      case None =>
        Out(NoChange.(draft := Put(None)), calls)
      case Some(fields) =>
        var d := DraftOf(fields).(mediaFiles := if attached then [a.imageUrl.value] else []);
        Out(NoChange.(draft := Put(Some(d)), iterationCount := Put(newIter)), calls)
  }

  /** Only the last critique reaches the writer: critiques before it never
      change what the writer asks or returns. */
  lemma WriterUsesLastCritiqueOnly(
    s: AgentState, earlier: seq<Critique>, targetLength: int, imageDownloaded: bool, reply: Option<DraftReply>)
    requires |s.critiqueHistory| > 0
    ensures WriterNode(s.(critiqueHistory := earlier + s.critiqueHistory), targetLength, imageDownloaded, reply)
         == WriterNode(s, targetLength, imageDownloaded, reply)
  {
    var s' := s.(critiqueHistory := earlier + s.critiqueHistory);
    assert s'.critiqueHistory[|s'.critiqueHistory| - 1] == s.critiqueHistory[|s.critiqueHistory| - 1];
  }
}
