/** The collector node: draws a rubric and fetches its fresh articles, then
    resets the per-run fields of the state. Rubric drawing and fetching are
    collaborators; their outcome is the `drawn` input. */
module Collector {
  import opened Base
  import opened DataTypes
  import opened State
  import opened Calls

  /** A drawn rubric: its name and the articles the fetch returned for it (possibly none). */
  datatype Rubric = Rubric(name: string, fetched: seq<Article>)

  const FALLBACK_TOPIC := "General AI"

  /** The collector's update and calls. It ignores the incoming state: it
      always draws a rubric, and fetches news only when one was drawn. */
  function CollectorNode(drawn: Option<Rubric>): (r: Out)
    ensures drawn.None? ==>
      var u := r.update;
      u.articles == Put([]) && u.topic == Put("General AI") && u.iterationCount == Put(0)
      && u.draft.Keep? && u.finalTweetId.Keep?
    ensures drawn.Some? ==>
      var u := r.update;
      u.topic == Put(drawn.value.name) && u.articles == Put(drawn.value.fetched)
      && u.iterationCount == Put(0) && u.draft == Put(None) && u.finalTweetId == Put(None)
    ensures r.update.critiqueHistory == [] && r.update.triedRubrics == [] && r.update.selectedArticle.Keep?
    ensures drawn.None? ==> r.calls == [DrawRubric]
    ensures drawn.Some? ==> r.calls == [DrawRubric, FetchNews(drawn.value.name)]
  {
    match drawn
    case None =>
      Out(NoChange.(articles := Put([]), topic := Put(FALLBACK_TOPIC), iterationCount := Put(0)), [DrawRubric])
    case Some(rubric) =>
      var u := NoChange.(
        topic := Put(rubric.name),
        articles := Put(rubric.fetched),
        iterationCount := Put(0),
        draft := Put(None),
        critiqueHistory := [],
        finalTweetId := Put(None));
      Out(u, [DrawRubric, FetchNews(rubric.name)])
  }

  /** After the collector the articles are the fetched list, the counter is 0,
      and the critique history is what it was: the `[]` in the update resets
      nothing, because the history accumulates by concatenation. */
  lemma CollectorMerge(s: AgentState, drawn: Option<Rubric>)
    ensures Merge(s, CollectorNode(drawn).update).critiqueHistory == s.critiqueHistory
    ensures Merge(s, CollectorNode(drawn).update).iterationCount == 0
    ensures Merge(s, CollectorNode(drawn).update).articles == (if drawn.Some? then drawn.value.fetched else [])
    ensures Merge(s, CollectorNode(drawn).update).selectedArticle == s.selectedArticle
    ensures drawn.Some? ==> Merge(s, CollectorNode(drawn).update).draft.None?
    ensures drawn.None? ==> Merge(s, CollectorNode(drawn).update).draft == s.draft
  {
  }
}
