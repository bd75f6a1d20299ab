/** The graph state and the rule by which a node's partial update is merged
    into it: the two annotated list fields accumulate by concatenation, every
    other field is overwritten when the update carries it. */
module State {
  import opened Base
  import opened DataTypes

  /** The shared state every node reads. An absent optional field reads as None. */
  datatype AgentState = AgentState(
    triedRubrics: seq<string>,
    topic: string,
    articles: seq<Article>,
    selectedArticle: Option<Article>,
    draft: Option<Draft>,
    critiqueHistory: seq<Critique>,
    iterationCount: int,
    finalTweetId: Option<string>)

  /** One key of a partial update: absent, or present with a value (which may itself be None). */
  datatype Field<+T> = Keep | Put(value: T)

  /** A node's partial update. The accumulating fields carry the list to append;
      an absent key and an empty list are the same update for them. */
  datatype Update = Update(
    triedRubrics: seq<string>,
    topic: Field<string>,
    articles: Field<seq<Article>>,
    selectedArticle: Field<Option<Article>>,
    draft: Field<Option<Draft>>,
    critiqueHistory: seq<Critique>,
    iterationCount: Field<int>,
    finalTweetId: Field<Option<string>>)

  /** The empty update `{}`. */
  const NoChange: Update := Update([], Keep, Keep, Keep, Keep, [], Keep, Keep)

  /** Last-value semantics of a plain key. */
  function Overwrite<T>(current: T, f: Field<T>): T {
    match f
    case Keep => current
    case Put(v) => v
  }

  /** The state after a node's update. */
  function Merge(s: AgentState, u: Update): (r: AgentState)
    ensures |r.critiqueHistory| == |s.critiqueHistory| + |u.critiqueHistory|
    ensures s.critiqueHistory <= r.critiqueHistory && r.critiqueHistory[|s.critiqueHistory|..] == u.critiqueHistory
    ensures s.triedRubrics <= r.triedRubrics && r.triedRubrics[|s.triedRubrics|..] == u.triedRubrics
    ensures u.topic.Keep? ==> r.topic == s.topic
    ensures u.topic.Put? ==> r.topic == u.topic.value
    ensures u.articles.Keep? ==> r.articles == s.articles
    ensures u.articles.Put? ==> r.articles == u.articles.value
    ensures u.selectedArticle.Keep? ==> r.selectedArticle == s.selectedArticle
    ensures u.selectedArticle.Put? ==> r.selectedArticle == u.selectedArticle.value
    ensures u.draft.Keep? ==> r.draft == s.draft
    ensures u.draft.Put? ==> r.draft == u.draft.value
    ensures u.iterationCount.Keep? ==> r.iterationCount == s.iterationCount
    ensures u.iterationCount.Put? ==> r.iterationCount == u.iterationCount.value
    ensures u.finalTweetId.Keep? ==> r.finalTweetId == s.finalTweetId
    ensures u.finalTweetId.Put? ==> r.finalTweetId == u.finalTweetId.value
  {
    AgentState(
      s.triedRubrics + u.triedRubrics,
      Overwrite(s.topic, u.topic),
      Overwrite(s.articles, u.articles),
      Overwrite(s.selectedArticle, u.selectedArticle),
      Overwrite(s.draft, u.draft),
      s.critiqueHistory + u.critiqueHistory,
      Overwrite(s.iterationCount, u.iterationCount),
      Overwrite(s.finalTweetId, u.finalTweetId))
  }

  /** The empty update leaves the state as it is. */
  lemma MergeNoChange(s: AgentState)
    ensures Merge(s, NoChange) == s
  {
  }

  /** An update whose critique list is empty (the collector's `[]` reset) keeps
      the existing critique history intact. */
  lemma EmptyCritiquesKeepHistory(s: AgentState, u: Update)
    requires u.critiqueHistory == []
    ensures Merge(s, u).critiqueHistory == s.critiqueHistory
  {
  }

  /** A later field value wins; an absent later field keeps the earlier one. */
  function ThenField<T>(first: Field<T>, second: Field<T>): Field<T> {
    if second.Put? then second else first
  }

  /** The single update equivalent to applying `u1` and then `u2`. */
  function Then(u1: Update, u2: Update): Update {
    Update(
      u1.triedRubrics + u2.triedRubrics,
      ThenField(u1.topic, u2.topic),
      ThenField(u1.articles, u2.articles),
      ThenField(u1.selectedArticle, u2.selectedArticle),
      ThenField(u1.draft, u2.draft),
      u1.critiqueHistory + u2.critiqueHistory,
      ThenField(u1.iterationCount, u2.iterationCount),
      ThenField(u1.finalTweetId, u2.finalTweetId))
  }

  /** Merging two updates in turn is merging their composition: the merge rule
      is an action of the update monoid on states. */
  lemma MergeThen(s: AgentState, u1: Update, u2: Update)
    ensures Merge(Merge(s, u1), u2) == Merge(s, Then(u1, u2))
  {
    assert s.critiqueHistory + u1.critiqueHistory + u2.critiqueHistory
        == s.critiqueHistory + (u1.critiqueHistory + u2.critiqueHistory);
    assert s.triedRubrics + u1.triedRubrics + u2.triedRubrics
        == s.triedRubrics + (u1.triedRubrics + u2.triedRubrics);
  }
}
