/** The editor node: asks the selection model for the index of the best
    article and falls back to the first article on a bad index or a failure. */
module Editor {
  import opened Base
  import opened DataTypes
  import opened State
  import opened Calls

  /** `selection` is the parsed index from the model, or None when the call or
      the parse failed. */
  function EditorNode(s: AgentState, selection: Option<int>): (r: Out)
    ensures |s.articles| == 0 ==> r == Out(NoChange, [])
    ensures |s.articles| > 0 ==>
      r.calls == [SelectStory(s.articles)]
      && r.update.selectedArticle.Put? && r.update.selectedArticle.value.Some?
      && r.update == NoChange.(selectedArticle := r.update.selectedArticle)
    ensures |s.articles| > 0 && selection.Some? && 0 <= selection.value < |s.articles| ==>
      r.update.selectedArticle == Put(Some(s.articles[selection.value]))
    ensures |s.articles| > 0 && (selection.None? || selection.value < 0 || |s.articles| <= selection.value) ==>
      r.update.selectedArticle == Put(Some(s.articles[0]))
  {
    if |s.articles| == 0 then
      Out(NoChange, [])
    else
      var chosen :=
        match selection
        case Some(idx) => if 0 <= idx < |s.articles| then s.articles[idx] else s.articles[0]
        case None => s.articles[0];
      Out(NoChange.(selectedArticle := Put(Some(chosen))), [SelectStory(s.articles)])
  }

  /** Whatever the model answers, the editor picks one of the candidates. */
  lemma SelectionIsCandidate(s: AgentState, selection: Option<int>)
    requires |s.articles| > 0
    ensures Merge(s, EditorNode(s, selection).update).selectedArticle.Some?
    ensures Merge(s, EditorNode(s, selection).update).selectedArticle.value in s.articles
  {
  }
}
