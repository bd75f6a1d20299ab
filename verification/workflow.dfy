/** The graph: the two routers, the fixed edges, one step of execution and a
    run bounded by the number of collaborator outcomes supplied. */
module Workflow {
  import opened Base
  import opened DataTypes
  import opened State
  import opened History
  import opened Calls
  import opened Collector
  import opened Editor
  import opened Writer
  import opened Critic
  import opened Publisher

  const MAX_ITERATIONS := 3

  datatype Node = CollectorStep | EditorStep | WriterStep | CriticStep | PublisherStep | End

  /** Router after the collector. */
  function CheckNewsAvailability(s: AgentState): (r: Node)
    ensures r == EditorStep || r == CollectorStep || r == End
    ensures r == EditorStep <==> |s.articles| > 0
    ensures r == End <==> |s.articles| == 0 && s.topic == "None"
    ensures r == CollectorStep <==> |s.articles| == 0 && s.topic != "None"
  {
    if |s.articles| > 0 then EditorStep
    else if s.topic == "None" then End
    else CollectorStep
  }

  /** Router after the critic. */
  function ShouldPublish(s: AgentState): (r: Node)
    ensures r == CriticStep || r == PublisherStep || r == WriterStep || r == End
    ensures r == CriticStep <==> |s.critiqueHistory| == 0
    ensures |s.critiqueHistory| > 0 ==>
      var last := s.critiqueHistory[|s.critiqueHistory| - 1];
      && (r == PublisherStep <==> last.isApproved)
      && (r == WriterStep <==> !last.isApproved && s.iterationCount < MAX_ITERATIONS)
      && (r == End <==> !last.isApproved && s.iterationCount >= MAX_ITERATIONS)
  {
    if |s.critiqueHistory| == 0 then CriticStep
    else if s.critiqueHistory[|s.critiqueHistory| - 1].isApproved then PublisherStep
    else if s.iterationCount < MAX_ITERATIONS then WriterStep
    else End
  }

  /** The route after the critic depends only on the last critique and the counter. */
  lemma ShouldPublishLastOnly(s: AgentState, earlier: seq<Critique>)
    requires |s.critiqueHistory| > 0
    ensures ShouldPublish(s.(critiqueHistory := earlier + s.critiqueHistory)) == ShouldPublish(s)
  {
    var s' := s.(critiqueHistory := earlier + s.critiqueHistory);
    assert s'.critiqueHistory[|s'.critiqueHistory| - 1] == s.critiqueHistory[|s.critiqueHistory| - 1];
  }

  /** The node that runs after `n`, given the state after `n`'s update. */
  function Successor(n: Node, s: AgentState): (r: Node)
    requires n != End
    ensures n == EditorStep ==> r == WriterStep
    ensures n == WriterStep ==> r == CriticStep
    ensures n == PublisherStep ==> r == End
    ensures n == CollectorStep ==> r == CheckNewsAvailability(s)
    ensures n == CriticStep ==> r == ShouldPublish(s)
  {
    match n
    case CollectorStep => CheckNewsAvailability(s)
    case EditorStep => WriterStep
    case WriterStep => CriticStep
    case CriticStep => ShouldPublish(s)
    case PublisherStep => End
  }

  /** The settings the nodes read that have no declared value. */
  datatype Config = Config(twitterMaxLength: int, writerTargetLength: int)

  /** Every collaborator outcome one step may consult; a step reads only the
      fields of the node it runs. */
  datatype Outcomes = Outcomes(
    rubric: Option<Rubric>,
    selection: Option<int>,
    imageDownloaded: bool,
    draftReply: Option<DraftReply>,
    critiqueReply: Option<Critique>,
    tweetId: Option<string>)

  /** The next node to run, the graph state and the processed-URL history. */
  datatype Machine = Machine(at: Node, state: AgentState, history: HistoryManager)

  /** The update and history effect of running node `n`. */
  function Execute(cfg: Config, n: Node, s: AgentState, h: HistoryManager, o: Outcomes): (r: Published)
    requires n != End
    ensures n != PublisherStep ==> r.history == h
    ensures n != CriticStep ==> r.out.update.critiqueHistory == []
    ensures n == CriticStep ==> |r.out.update.critiqueHistory| <= 1
    ensures forall i :: 0 <= i < |r.out.update.critiqueHistory| ==> ValidCritique(r.out.update.critiqueHistory[i])
    ensures r.out.update.triedRubrics == []
    ensures h.processedUrls <= r.history.processedUrls
    ensures n != PublisherStep && n != CollectorStep ==> r.out.update.finalTweetId.Keep?
  {
    match n
    case CollectorStep => Published(CollectorNode(o.rubric), h)
    case EditorStep => Published(EditorNode(s, o.selection), h)
    case WriterStep => Published(WriterNode(s, cfg.writerTargetLength, o.imageDownloaded, o.draftReply), h)
    case CriticStep => Published(CriticNode(s, o.critiqueReply), h)
    case PublisherStep => PublisherNode(s, h, cfg.twitterMaxLength, o.tweetId)
  }

  /** One step: run the current node, merge its update, follow the edge. */
  function Step(cfg: Config, m: Machine, o: Outcomes): (r: Machine)
    requires m.at != End
    ensures m.state.critiqueHistory <= r.state.critiqueHistory
    ensures |r.state.critiqueHistory| <= |m.state.critiqueHistory| + 1
    ensures m.at != CriticStep ==> r.state.critiqueHistory == m.state.critiqueHistory
    ensures r.state.triedRubrics == m.state.triedRubrics
    ensures m.history.processedUrls <= r.history.processedUrls
    ensures m.at != PublisherStep ==> r.history == m.history
  {
    var e := Execute(cfg, m.at, m.state, m.history, o);
    var s' := Merge(m.state, e.out.update);
    Machine(Successor(m.at, s'), s', e.history)
  }

  /** Where a run ended and the nodes it ran, in order. */
  datatype Trace = Trace(final: Machine, visited: seq<Node>)

  /** Runs from `m`, one step per outcome, until the graph ends or the outcomes
      run out. The graph has cycles without a deterministic bound (collector to
      collector, critic to critic, writer and critic after a writer failure), so
      the number of outcomes is the fuel. */
  function Run(cfg: Config, m: Machine, os: seq<Outcomes>): (t: Trace)
    ensures |t.visited| <= |os|
    ensures t.final.at != End ==> |t.visited| == |os|
    ensures m.at == End ==> t == Trace(m, [])
    ensures forall i :: 0 <= i < |t.visited| ==> t.visited[i] != End
    ensures m.state.critiqueHistory <= t.final.state.critiqueHistory
    ensures t.final.state.triedRubrics == m.state.triedRubrics
    ensures m.history.processedUrls <= t.final.history.processedUrls
    decreases |os|
  {
    if m.at == End || |os| == 0 then
      Trace(m, [])
    else
      var rest := Run(cfg, Step(cfg, m, os[0]), os[1..]);
      Trace(rest.final, [m.at] + rest.visited)
  }
}
