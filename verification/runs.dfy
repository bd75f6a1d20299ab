/** Properties of whole runs of the graph. */
module Runs {
  import opened Base
  import opened DataTypes
  import opened State
  import opened History
  import opened Calls
  import opened Collector
  import opened Writer
  import opened Critic
  import opened Workflow

  /** The state a session starts from. */
  const INITIAL_STATE := AgentState([], "", [], None, None, [], 0, None)

  function Initial(h: HistoryManager): Machine {
    Machine(CollectorStep, INITIAL_STATE, h)
  }

  ghost predicate AllValid(cs: seq<Critique>) {
    forall i :: 0 <= i < |cs| ==> ValidCritique(cs[i])
  }

  /** No critique yet and the counter at zero. */
  ghost predicate Fresh(s: AgentState) {
    s.critiqueHistory == [] && s.iterationCount == 0
  }

  /** A rejection is waiting for a rewrite: one more critique than rewrites so far. */
  ghost predicate Pending(s: AgentState) {
    && |s.critiqueHistory| == s.iterationCount + 1
    && 0 <= s.iterationCount < MAX_ITERATIONS
    && !s.critiqueHistory[|s.critiqueHistory| - 1].isApproved
  }

  /** The invariant of every reachable machine. */
  ghost predicate Inv(m: Machine) {
    var s := m.state;
    && AllValid(s.critiqueHistory)
    && (m.at != End ==> s.finalTweetId.None?)
    && match m.at
       case CollectorStep => Fresh(s)
       case EditorStep => Fresh(s)
       case WriterStep => Fresh(s) || Pending(s)
       case CriticStep =>
         || (s.draft.Some? && |s.critiqueHistory| == s.iterationCount && 0 <= s.iterationCount <= MAX_ITERATIONS)
         || (s.draft.None? && (Fresh(s) || Pending(s)))
       case PublisherStep => 1 <= |s.critiqueHistory| <= MAX_ITERATIONS + 1
       case End => |s.critiqueHistory| <= MAX_ITERATIONS + 1
  }

  lemma InitialInv(h: HistoryManager)
    ensures Inv(Initial(h))
  {
  }

  lemma AllValidAppend(cs: seq<Critique>, more: seq<Critique>)
    requires AllValid(cs) && AllValid(more)
    ensures AllValid(cs + more)
  {
  }

  lemma StepCollectorInv(cfg: Config, m: Machine, o: Outcomes)
    requires Inv(m) && m.at == CollectorStep
    ensures Inv(Step(cfg, m, o))
  {
    CollectorMerge(m.state, o.rubric);
  }

  lemma StepWriterInv(cfg: Config, m: Machine, o: Outcomes)
    requires Inv(m) && m.at == WriterStep
    ensures Inv(Step(cfg, m, o))
  {
    var out := WriterNode(m.state, cfg.writerTargetLength, o.imageDownloaded, o.draftReply);
    var s' := Merge(m.state, out.update);
    assert s'.critiqueHistory == m.state.critiqueHistory;
  }

  lemma StepCriticInv(cfg: Config, m: Machine, o: Outcomes)
    requires Inv(m) && m.at == CriticStep
    ensures Inv(Step(cfg, m, o))
  {
    var out := CriticNode(m.state, o.critiqueReply);
    var s' := Merge(m.state, out.update);
    AllValidAppend(m.state.critiqueHistory, out.update.critiqueHistory);
    if m.state.draft.None? {
      assert s' == m.state;
    }
  }

  /** Every step keeps the invariant. */
  lemma StepInv(cfg: Config, m: Machine, o: Outcomes)
    requires Inv(m) && m.at != End
    ensures Inv(Step(cfg, m, o))
  {
    match m.at
    case CollectorStep => StepCollectorInv(cfg, m, o);
    case EditorStep =>
    case WriterStep => StepWriterInv(cfg, m, o);
    case CriticStep => StepCriticInv(cfg, m, o);
    case PublisherStep =>
  }

  lemma {:induction false} RunInv(cfg: Config, m: Machine, os: seq<Outcomes>)
    requires Inv(m)
    ensures Inv(Run(cfg, m, os).final)
    decreases |os|
  {
    if m.at != End && |os| > 0 {
      StepInv(cfg, m, os[0]);
      RunInv(cfg, Step(cfg, m, os[0]), os[1..]);
    }
  }

  /** Whatever the collaborators do and however long a session runs, it holds
      at most MAX_ITERATIONS + 1 critiques, every one with a score in 1..10,
      and a tweet id is recorded only when the session has ended. */
  lemma SessionCritiqueBound(cfg: Config, h: HistoryManager, os: seq<Outcomes>)
    ensures var t := Run(cfg, Initial(h), os);
      && |t.final.state.critiqueHistory| <= MAX_ITERATIONS + 1
      && (forall i :: 0 <= i < |t.final.state.critiqueHistory| ==> 1 <= t.final.state.critiqueHistory[i].score <= 10)
      && (t.final.state.finalTweetId.Some? ==> t.final.at == End)
  {
    InitialInv(h);
    RunInv(cfg, Initial(h), os);
  }

  /** The writer succeeds and the critic rejects. */
  predicate RejectingRound(o: Outcomes) {
    o.draftReply.Some? && (o.critiqueReply.None? || !o.critiqueReply.value.isApproved)
  }

  /** `k` writer-critic rounds. */
  function Rounds(k: nat): (r: seq<Node>)
    ensures |r| == 2 * k
  {
    if k == 0 then [] else [WriterStep, CriticStep] + Rounds(k - 1)
  }

  /** A writer step that produces a draft hands it to the critic with the
      counter equal to the number of critiques so far. */
  lemma WriterSucceedsStep(cfg: Config, m: Machine, o: Outcomes)
    requires m.at == WriterStep && m.state.selectedArticle.Some? && o.draftReply.Some?
    requires Fresh(m.state) || Pending(m.state)
    ensures var m' := Step(cfg, m, o);
      && m'.at == CriticStep && m'.state.draft.Some?
      && m'.state.iterationCount == |m.state.critiqueHistory|
      && m'.state.critiqueHistory == m.state.critiqueHistory
      && m'.state.selectedArticle == m.state.selectedArticle
  {
  }

  /** A critic step that rejects a draft appends the rejection and sends the
      draft back to the writer while the counter is below the bound. */
  lemma CriticRejectsStep(cfg: Config, m: Machine, o: Outcomes)
    requires m.at == CriticStep && m.state.draft.Some? && RejectingRound(o)
    ensures var m' := Step(cfg, m, o);
      && |m'.state.critiqueHistory| == |m.state.critiqueHistory| + 1
      && !m'.state.critiqueHistory[|m'.state.critiqueHistory| - 1].isApproved
      && m'.state.iterationCount == m.state.iterationCount
      && m'.state.selectedArticle == m.state.selectedArticle
      && m'.at == (if m.state.iterationCount < MAX_ITERATIONS then WriterStep else End)
  {
    var c := CriticNode(m.state, o.critiqueReply).update.critiqueHistory;
    assert Step(cfg, m, o).state.critiqueHistory == m.state.critiqueHistory + c;
  }

  /** One step of a run. */
  lemma RunOneStep(cfg: Config, m: Machine, os: seq<Outcomes>)
    requires m.at != End && |os| >= 1
    ensures Run(cfg, m, os).final == Run(cfg, Step(cfg, m, os[0]), os[1..]).final
    ensures Run(cfg, m, os).visited == [m.at] + Run(cfg, Step(cfg, m, os[0]), os[1..]).visited
  {
  }

  lemma PrependTwo<X>(a: X, b: X, t: seq<X>)
    ensures [a] + ([b] + t) == [a, b] + t
  {
  }

  lemma PrependTwoTwo<X>(a: X, b: X, c: X, d: X, t: seq<X>)
    ensures [a, b] + ([c, d] + t) == [a, b, c, d] + t
  {
  }

  /** Two steps of a run. */
  lemma RunTwoSteps(cfg: Config, m: Machine, m1: Machine, m2: Machine, os: seq<Outcomes>)
    requires m.at != End && |os| >= 2
    requires m1 == Step(cfg, m, os[0]) && m1.at != End && m2 == Step(cfg, m1, os[1])
    ensures Run(cfg, m, os).final == Run(cfg, m2, os[2..]).final
    ensures Run(cfg, m, os).visited == [m.at, m1.at] + Run(cfg, m2, os[2..]).visited
  {
    var rest := os[1..];
    assert rest[0] == os[1] && rest[1..] == os[2..];
    RunOneStep(cfg, m, os);
    RunOneStep(cfg, m1, rest);
    var tail := Run(cfg, m2, os[2..]).visited;
    assert Run(cfg, m1, rest).visited == [m1.at] + tail;
    PrependTwo(m.at, m1.at, tail);
  }

  /** One rejecting writer-critic round of a run, seen from the run: it
      visits the writer and the critic and leaves one more rejection. */
  lemma RejectingRoundRun(cfg: Config, m: Machine, os: seq<Outcomes>) returns (m2: Machine)
    requires m.at == WriterStep && m.state.selectedArticle.Some?
    requires Fresh(m.state) || Pending(m.state)
    requires |os| >= 2 && RejectingRound(os[0]) && RejectingRound(os[1])
    ensures Run(cfg, m, os).final == Run(cfg, m2, os[2..]).final
    ensures Run(cfg, m, os).visited == [WriterStep, CriticStep] + Run(cfg, m2, os[2..]).visited
    ensures |m2.state.critiqueHistory| == |m.state.critiqueHistory| + 1
    ensures m2.state.iterationCount == |m.state.critiqueHistory|
    ensures m2.state.selectedArticle == m.state.selectedArticle
    ensures m2.state.iterationCount < MAX_ITERATIONS ==> m2.at == WriterStep && Pending(m2.state)
    ensures m2.state.iterationCount >= MAX_ITERATIONS ==> m2.at == End
  {
    var m1 := Step(cfg, m, os[0]);
    WriterSucceedsStep(cfg, m, os[0]);
    m2 := Step(cfg, m1, os[1]);
    CriticRejectsStep(cfg, m1, os[1]);
    RunTwoSteps(cfg, m, m1, m2, os);
  }

  /** When every draft is produced and every critique rejects, the loop runs
      until the counter reaches MAX_ITERATIONS: from a fresh start that is
      MAX_ITERATIONS + 1 = 4 drafts and 4 critiques, then the graph ends. */
  lemma {:induction false} AllRejectedRun(cfg: Config, m: Machine, os: seq<Outcomes>)
    requires m.at == WriterStep && m.state.selectedArticle.Some?
    requires Fresh(m.state) || Pending(m.state)
    requires |os| >= 2 * (MAX_ITERATIONS + 1 - |m.state.critiqueHistory|)
    requires forall i :: 0 <= i < |os| ==> RejectingRound(os[i])
    ensures var t := Run(cfg, m, os);
      && t.final.at == End
      && |t.final.state.critiqueHistory| == MAX_ITERATIONS + 1
      && t.final.state.iterationCount == MAX_ITERATIONS
      && t.visited == Rounds(MAX_ITERATIONS + 1 - |m.state.critiqueHistory|)
    decreases MAX_ITERATIONS + 1 - |m.state.critiqueHistory|
  {
    assert RejectingRound(os[0]) && RejectingRound(os[1]);
    var m2 := RejectingRoundRun(cfg, m, os);
    var k := MAX_ITERATIONS + 1 - |m.state.critiqueHistory|;
    if m2.state.iterationCount < MAX_ITERATIONS {
      AllRejectedRun(cfg, m2, os[2..]);
      assert Rounds(k) == [WriterStep, CriticStep] + Rounds(k - 1);
    } else {
      assert Run(cfg, m2, os[2..]) == Trace(m2, []);
      assert k == 1;
      assert Rounds(1) == [WriterStep, CriticStep];
    }
  }

  /** From the editor's hand-off with no critique yet, all-rejecting
      collaborators produce exactly four drafts and four critiques. */
  lemma FourDraftsThenEnd(cfg: Config, s: AgentState, h: HistoryManager, os: seq<Outcomes>)
    requires Fresh(s) && s.selectedArticle.Some?
    requires |os| >= 8
    requires forall i :: 0 <= i < |os| ==> RejectingRound(os[i])
    ensures var t := Run(cfg, Machine(WriterStep, s, h), os);
      && t.final.at == End
      && |t.final.state.critiqueHistory| == 4
      && t.visited == [WriterStep, CriticStep, WriterStep, CriticStep, WriterStep, CriticStep, WriterStep, CriticStep]
  {
    AllRejectedRun(cfg, Machine(WriterStep, s, h), os);
    FourRounds();
  }

  lemma FourRounds()
    ensures Rounds(4) == [WriterStep, CriticStep, WriterStep, CriticStep, WriterStep, CriticStep, WriterStep, CriticStep]
  {
    assert Rounds(1) == [WriterStep, CriticStep];
    assert Rounds(2) == [WriterStep, CriticStep] + Rounds(1);
    assert Rounds(3) == [WriterStep, CriticStep] + Rounds(2);
  }

  /** The critic's length rejection always makes the writer's next request
      carry the shortening instruction. */
  lemma TooLongLeadsToShorten(length: nat)
    ensures ChooseInstruction(TooLongCritique(length).feedback) == Shorten
  {
    TooLongCritiqueStates(length);
  }

  /** An over-length first draft is rejected without asking the reviewer, and
      the draft goes back to the writer with the shortening instruction. */
  lemma OverLengthFirstDraft(cfg: Config, m: Machine, o0: Outcomes, o1: Outcomes)
    requires m.at == WriterStep && Fresh(m.state) && m.state.selectedArticle.Some?
    requires o0.draftReply.Some? && |o0.draftReply.value.content| > MAX_POST_LENGTH
    ensures var m1 := Step(cfg, m, o0);
      var m2 := Step(cfg, m1, o1);
      && m1.at == CriticStep
      && NoReview(CriticNode(m1.state, o1.critiqueReply).calls)
      && m2.at == WriterStep
      && m2.state.critiqueHistory == [TooLongCritique(|o0.draftReply.value.content|)]
      && m2.state.iterationCount == 0
      && FeedbackFor(m2.state).Some?
      && FeedbackFor(m2.state).value.instruction == Shorten
  {
    var m1 := Step(cfg, m, o0);
    var n := |o0.draftReply.value.content|;
    assert m1.state.draft.Some? && |m1.state.draft.value.content| == n;
    OverLengthIgnoresReviewer(m1.state, o1.critiqueReply, o1.critiqueReply);
    TooLongLeadsToShorten(n);
  }

  /** A critic that finds no draft and no critique routes to itself: the state
      never changes again, whatever the collaborators do. */
  lemma {:induction false} CriticSelfLoop(cfg: Config, m: Machine, os: seq<Outcomes>)
    requires m.at == CriticStep && m.state.draft.None? && m.state.critiqueHistory == []
    ensures Run(cfg, m, os).final == m
    ensures Run(cfg, m, os).visited == seq(|os|, _ => CriticStep)
    decreases |os|
  {
    if |os| > 0 {
      MergeNoChange(m.state);
      assert Step(cfg, m, os[0]) == m;
      RunOneStep(cfg, m, os);
      CriticSelfLoop(cfg, m, os[1..]);
    }
  }

  /** After a rejection, a writer that keeps failing and a critic that then
      finds no draft send the graph back and forth without end: the counter
      and the critique history never change. */
  lemma {:induction false} WriterFailureLoop(cfg: Config, m: Machine, os: seq<Outcomes>)
    requires m.at == WriterStep && Pending(m.state)
    requires forall i :: 0 <= i < |os| ==> os[i].draftReply.None?
    ensures var t := Run(cfg, m, os);
      && (t.final.at == WriterStep || t.final.at == CriticStep)
      && |t.visited| == |os|
      && t.final.state.critiqueHistory == m.state.critiqueHistory
      && t.final.state.iterationCount == m.state.iterationCount
    decreases |os|
  {
    if |os| == 1 {
      RunOneStep(cfg, m, os);
    } else if |os| >= 2 {
      var m1 := Step(cfg, m, os[0]);
      assert m1.at == CriticStep && m1.state.draft.None?;
      assert m1.state.critiqueHistory == m.state.critiqueHistory;
      var m2 := Step(cfg, m1, os[1]);
      MergeNoChange(m1.state);
      assert m2.state == m1.state;
      assert m2.at == WriterStep;
      RunTwoSteps(cfg, m, m1, m2, os);
      assert forall i :: 0 <= i < |os[2..]| ==> os[2..][i] == os[i + 2];
      WriterFailureLoop(cfg, m2, os[2..]);
    }
  }

  /** With no rubric to draw, the collector routes to itself forever: the
      fallback topic is not "None", so the end route is never taken. */
  lemma {:induction false} NoRubricLoop(cfg: Config, m: Machine, os: seq<Outcomes>)
    requires m.at == CollectorStep
    requires forall i :: 0 <= i < |os| ==> os[i].rubric.None?
    ensures Run(cfg, m, os).final.at == CollectorStep
    ensures Run(cfg, m, os).visited == seq(|os|, _ => CollectorStep)
    decreases |os|
  {
    if |os| > 0 {
      var m1 := Step(cfg, m, os[0]);
      assert FALLBACK_TOPIC != "None";
      assert m1.at == CollectorStep;
      RunOneStep(cfg, m, os);
      assert forall i :: 0 <= i < |os[1..]| ==> os[1..][i] == os[i + 1];
      NoRubricLoop(cfg, m1, os[1..]);
    }
  }

  /** The collector's route ends the graph exactly when the drawn rubric is
      named "None" and has no fresh articles; the collector never sets that
      topic by itself. */
  lemma CollectorEndsOnlyForNoneRubric(cfg: Config, m: Machine, o: Outcomes)
    requires m.at == CollectorStep
    ensures Step(cfg, m, o).at == End <==> o.rubric == Some(Rubric("None", []))
  {
    assert FALLBACK_TOPIC != "None";
  }

  /** The collector draws a rubric with articles and the editor picks one of
      them: the writer runs next on a fresh state. */
  lemma SessionSelects(cfg: Config, h: HistoryManager, os: seq<Outcomes>) returns (m2: Machine)
    requires |os| >= 2 && os[0].rubric.Some? && |os[0].rubric.value.fetched| > 0
    ensures Run(cfg, Initial(h), os).final == Run(cfg, m2, os[2..]).final
    ensures Run(cfg, Initial(h), os).visited == [CollectorStep, EditorStep] + Run(cfg, m2, os[2..]).visited
    ensures m2.at == WriterStep && Fresh(m2.state) && m2.history == h
    ensures m2.state.selectedArticle.Some? && m2.state.selectedArticle.value in os[0].rubric.value.fetched
  {
    var m1 := Step(cfg, Initial(h), os[0]);
    CollectorMerge(INITIAL_STATE, os[0].rubric);
    m2 := Step(cfg, m1, os[1]);
    Editor.SelectionIsCandidate(m1.state, os[1].selection);
    RunTwoSteps(cfg, Initial(h), m1, m2, os);
  }

  /** A draft within the limit that the reviewer approves reaches the
      publisher with that single critique. */
  lemma SessionApproves(cfg: Config, m2: Machine, os: seq<Outcomes>) returns (m4: Machine)
    requires m2.at == WriterStep && Fresh(m2.state) && m2.state.selectedArticle.Some?
    requires |os| >= 2 && os[0].draftReply.Some? && |os[0].draftReply.value.content| <= MAX_POST_LENGTH
    requires os[1].critiqueReply.Some? && ValidCritique(os[1].critiqueReply.value) && os[1].critiqueReply.value.isApproved
    ensures Run(cfg, m2, os).final == Run(cfg, m4, os[2..]).final
    ensures Run(cfg, m2, os).visited == [WriterStep, CriticStep] + Run(cfg, m4, os[2..]).visited
    ensures m4.at == PublisherStep && m4.history == m2.history
    ensures m4.state.critiqueHistory == [os[1].critiqueReply.value] && m4.state.draft.Some?
    ensures m4.state.selectedArticle == m2.state.selectedArticle
  {
    var m3 := Step(cfg, m2, os[0]);
    WriterSucceedsStep(cfg, m2, os[0]);
    assert m3.state.draft.Some? && |m3.state.draft.value.content| <= MAX_POST_LENGTH;
    m4 := Step(cfg, m3, os[1]);
    RunTwoSteps(cfg, m2, m3, m4, os);
  }

  /** A successful post ends the session with the tweet id recorded and the
      chosen article's URL added to the history. */
  lemma SessionPosts(cfg: Config, m4: Machine, os: seq<Outcomes>)
    requires m4.at == PublisherStep && m4.state.draft.Some? && m4.state.selectedArticle.Some?
    requires m4.state.selectedArticle.value.url != ""
    requires |os| == 1 && Truthy(os[0].tweetId)
    ensures var t := Run(cfg, m4, os);
      && t.visited == [PublisherStep] && t.final.at == End && t.final.state.finalTweetId == os[0].tweetId
      && t.final.state.critiqueHistory == m4.state.critiqueHistory
      && t.final.state.selectedArticle == m4.state.selectedArticle
      && t.final.history == Add(m4.history, m4.state.selectedArticle.value.url)
  {
    var m5 := Step(cfg, m4, os[0]);
    RunOneStep(cfg, m4, os);
    assert Run(cfg, m5, os[1..]) == Trace(m5, []);
  }

  /** A session whose collaborators all succeed: a rubric with fresh
      articles, a short draft, an approving critique and a posted tweet. It
      visits every node once, records the tweet id and the chosen article's URL. */
  lemma PublishedSession(cfg: Config, h: HistoryManager, os: seq<Outcomes>)
    requires |os| == 5
    requires os[0].rubric.Some? && |os[0].rubric.value.fetched| > 0
    requires forall a :: a in os[0].rubric.value.fetched ==> a.url != ""
    requires os[2].draftReply.Some? && |os[2].draftReply.value.content| <= MAX_POST_LENGTH
    requires os[3].critiqueReply.Some? && ValidCritique(os[3].critiqueReply.value) && os[3].critiqueReply.value.isApproved
    requires Truthy(os[4].tweetId)
    ensures var t := Run(cfg, Initial(h), os);
      && t.visited == [CollectorStep, EditorStep, WriterStep, CriticStep, PublisherStep]
      && t.final.at == End
      && t.final.state.finalTweetId == os[4].tweetId
      && t.final.state.critiqueHistory == [os[3].critiqueReply.value]
      && t.final.state.selectedArticle.Some?
      && t.final.state.selectedArticle.value in os[0].rubric.value.fetched
      && IsProcessed(t.final.history, t.final.state.selectedArticle.value.url)
  {
    var m2 := SessionSelects(cfg, h, os);
    var later := os[2..];
    assert later[0] == os[2] && later[1] == os[3];
    var m4 := SessionApproves(cfg, m2, later);
    var last := later[2..];
    assert last[0] == os[4];
    SessionPosts(cfg, m4, last);
    PrependTwoTwo(CollectorStep, EditorStep, WriterStep, CriticStep, [PublisherStep]);
  }

  /** A failed post ends the session with nothing recorded: no tweet id and
      the processed-URL history as it was. */
  lemma PostFailureEndsUnrecorded(cfg: Config, m: Machine, o: Outcomes)
    requires Inv(m) && m.at == PublisherStep && !Truthy(o.tweetId)
    ensures var m' := Step(cfg, m, o);
      m'.at == End && m'.history == m.history && m'.state.finalTweetId.None?
  {
    if m.state.draft.Some? {
      assert !Publisher.PostSucceeded(o.tweetId);
    }
  }
}
