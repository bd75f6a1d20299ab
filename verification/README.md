# Content-agent control loop, modelled in Dafny

This project models the control loop of an autonomous news-to-tweet agent:
a **collector** draws a rubric and fetches fresh articles, an **editor** picks
one, a **writer** drafts a tweet, a **critic** judges it (rejecting an
over-long draft on its own), the draft goes back to the writer on rejection
until an iteration bound is reached, and a **publisher** trims, posts and
records the article URL in a processed-URL history.

The graph state is the record `State.AgentState`. Each node is a pure function
from the state (and the outcome of its collaborators) to a partial update
`State.Update` plus the list of external calls it issued (`Calls.Out`). The
update is merged with `State.Merge`: `critique_history` and `tried_rubrics`
accumulate by concatenation, every other key is overwritten when the update
carries it (`Field.Put`) and kept otherwise (`Field.Keep`). `Workflow.Step`
runs one node, merges, and follows the edges; `Workflow.Run` repeats it once
per supplied collaborator outcome.

Every language-model call, the rubric draw and feed fetch, the image download
and the tweet post are inputs (`Workflow.Outcomes`): the image download is a
`bool` saying whether it returned data, and every other outcome is an `Option`
value meaning "parsed value" or "call or parse failure". The two settings the code reads
but never declares, the tweet length cap and the writer's target length, are
the parameters `Workflow.Config`. String lengths are counts of Unicode scalar
values, as Python's `len` counts code points.

What the code does, as the model shows it:

- With all-rejecting critiques, `MAX_ITERATIONS = 3` yields four drafts and
  four critiques before the graph ends (`Runs.FourDraftsThenEnd`): the
  counter starts at 0, the first rewrite makes it 1, and the critic still
  routes back to the writer at counter 2.
- However the collaborators behave, a session never holds more than four
  critiques, all with scores in 1..10 (`Runs.SessionCritiqueBound`).
- A writer failure does not advance the counter. With no critique yet, the
  critic then routes to itself forever (`Runs.CriticSelfLoop`); after a
  rejection, writer and critic alternate without progress
  (`Runs.WriterFailureLoop`). Only the graph runtime's recursion limit, which
  is not modelled, stops these; `Run` is bounded by its fuel instead.
- The collector never sets the topic `"None"`, so with no rubric available the
  collector loops on itself (`Runs.NoRubricLoop`); the end route is taken only
  for a drawn rubric literally named `"None"` with no articles
  (`Runs.CollectorEndsOnlyForNoneRubric`).
- The collector's `critique_history: []` resets nothing, because that key
  accumulates (`Collector.CollectorMerge`). `tried_rubrics` is never written
  by any node (`Workflow.Run` keeps it unchanged).
- The truncation rules keep the cap and are idempotent only for a cap of at
  least 1. At a cap of 0 or below, `content[:max_length - 1]` drops characters
  from the end instead, so a second truncation shortens again and the result
  can exceed the cap (`Publisher.ZeroLimitCounterexample`). The cap is an
  undeclared setting, so the code does not rule this out.
- `is_processed` has no caller in the loop: the history is written by the
  publisher and read by nothing the graph runs.

## Model

| member | source | states |
|---|---|---|
| `Text.Contains` | src/content_agents/agents/writer.py:73 | Python's substring test holds exactly when the needle occurs at some index of the text |
| `Text.RFind` | src/content_agents/agents/publisher.py:20 | the result is -1 exactly when the character is absent, otherwise the index of its last occurrence |
| `Text.PyPrefix` | src/content_agents/agents/publisher.py:18-33 | Python's `s[:k]`: a prefix of the text of length k clipped to the text, or for negative k the text without its last -k characters (empty when -k exceeds the length) |
| `Text.Join` | src/content_agents/agents/critic.py:60 | every part occurs in the joined text, and a single part is returned as it is |
| `Text.DecimalString` | src/content_agents/agents/critic.py:53 | the rendered length is a non-empty digit string whose decimal value is the number and which starts with '0' only when it is exactly "0" |
| `DataTypes.ValidateCritique` | src/content_agents/schemas/data_types.py:33 | a parsed critique is accepted exactly when its score lies in 1..10, and is then returned unchanged |
| `DataTypes.DraftOf` | src/content_agents/schemas/data_types.py:22-27 | a draft keeps the reply's text and reasoning, and its media list defaults to empty |
| `DataTypes.ToMarkdownLayout` | src/content_agents/schemas/data_types.py:14-19 | the markdown starts with "# " and the title, contains source, link, title and content verbatim, and ends with the image line exactly when an image is set (else with the content), with the matching length |
| `State.Merge` | src/content_agents/graph/state.py:7-19 | the two annotated lists are extended by the update's lists; every other key takes the update's value when present and keeps its value when absent |
| `State.MergeNoChange` | src/content_agents/graph/state.py:7-19 | the empty update `{}` leaves the state unchanged |
| `State.EmptyCritiquesKeepHistory` | src/content_agents/graph/state.py:17 | an update carrying `critique_history: []` leaves the history as it was |
| `State.MergeThen` | src/content_agents/graph/state.py:7-19 | merging two updates in turn equals merging their composition (concatenate the lists, later value wins) |
| `History.Add` | src/content_agents/services/history.py:40-45 | a non-empty URL becomes processed; the set becomes the old set plus the URL (unchanged for ""), nothing is removed, and a save is issued exactly when the set grows |
| `History.IsProcessed` | src/content_agents/services/history.py:36-38 | a URL counts as processed exactly when it is in the set of processed URLs |
| `History.ProcessedAfterAdd` | src/content_agents/services/history.py:36-45 | after an add, a URL is processed exactly when it was before or it is the added URL and that URL is non-empty |
| `History.AddIdempotent` | src/content_agents/services/history.py:42-44 | adding the same URL twice is adding it once |
| `History.AddOnlyAddsUrl` | src/content_agents/services/history.py:36-45 | no URL other than the added one changes its processed status |
| `Collector.CollectorNode` | src/content_agents/agents/collector.py:16-44 | a rubric is always drawn; with no rubric: no fetch, empty articles, topic "General AI", counter 0 and nothing else; with a rubric: one fetch for it, its name as topic, exactly the fetched articles, counter 0, no draft, no tweet id, and the selected article untouched |
| `Collector.CollectorMerge` | src/content_agents/agents/collector.py:36-44 | after the merge the articles are the fetched list, the counter is 0 and the critique history is unchanged |
| `Editor.EditorNode` | src/content_agents/agents/editor.py:30-60 | with no articles nothing is asked or changed; otherwise the selection model is asked, an in-range index selects that article, a negative, too large or failed answer selects the first, and only the selected article changes |
| `Editor.SelectionIsCandidate` | src/content_agents/agents/editor.py:50-60 | for non-empty articles the selected article is always one of them |
| `Writer.ChooseInstruction` | src/content_agents/agents/writer.py:73-76 | the shortening instruction is chosen exactly when the feedback contains "Too long" |
| `Writer.FeedbackFor` | src/content_agents/agents/writer.py:65-91 | feedback is present exactly when a critique exists, and carries the last critique's score and text, the previous draft's text and the instruction the "Too long" test selects |
| `Writer.WriterNode` | src/content_agents/agents/writer.py:29-125 | no article or a failed reply gives only `draft: None` with the counter untouched; success gives the reply's draft with media `[image_url]` exactly when the image was attached (else `[]`) and a counter that rises by one exactly when a critique exists; the request carries the article's markdown and the last critique's feedback |
| `Writer.WriterUsesLastCritiqueOnly` | src/content_agents/agents/writer.py:66-69 | critiques before the last never change the writer's request or result |
| `Critic.TooLongCritiqueStates` | src/content_agents/agents/critic.py:46-56 | the length rejection is a valid, non-approving critique with score 2 whose feedback contains "Too long", the draft's length and "280" |
| `Critic.SystemErrorCritiqueStates` | src/content_agents/agents/critic.py:90-94 | the system-error critique is a valid rejection with the minimum score 1 |
| `Critic.SourceText` | src/content_agents/agents/critic.py:59-60 | the reviewer's source material contains every article's markdown |
| `Critic.CriticNode` | src/content_agents/agents/critic.py:33-94 | no draft gives `{}`; a draft over 280 characters gives one score-2 "Too long" rejection with no call; otherwise the reviewer is asked once and the result is its critique if valid, else the system-error critique; at most one valid critique is ever added and nothing else changes |
| `Critic.LimitLengthIsReviewed` | src/content_agents/agents/critic.py:46 | a draft of exactly 280 characters passes the pre-check and is sent to the reviewer |
| `Critic.OverLengthIgnoresReviewer` | src/content_agents/agents/critic.py:46-56 | an over-length draft gives the same result whatever the reviewer would answer, and the reviewer is not asked |
| `Publisher.SmartTruncate` | src/content_agents/agents/publisher.py:8-33 | text within the limit is returned unchanged; for a limit of at least 1 the result never exceeds it, and a truncated result ends in '.' after a prefix of the input |
| `Publisher.CutAtLastPeriod` | src/content_agents/agents/publisher.py:18-22 | with a period within the limit the result is the input up to and including the last such period |
| `Publisher.CutAtLastComma` | src/content_agents/agents/publisher.py:24-26 | with no period but a comma within the limit, the last such comma is replaced by a period and the rest dropped |
| `Publisher.CutAtLastSpace` | src/content_agents/agents/publisher.py:28-31 | with neither, the text is cut at the last space before the limit minus one and closed with a period |
| `Publisher.HardCut` | src/content_agents/agents/publisher.py:33 | with no period, comma or space, the first limit-minus-one characters are kept and a period added |
| `Publisher.SmartTruncateIdempotent` | src/content_agents/agents/publisher.py:15-16 | for a limit of at least 1, truncating twice equals truncating once |
| `Publisher.ZeroLimitCounterexample` | src/content_agents/agents/publisher.py:18-33 | at a limit of 0, "a b c d" becomes "a b c." and then "a b.", so truncation is not idempotent, and "ab" becomes "a.", longer than the limit |
| `Publisher.PostedText` | src/content_agents/agents/publisher.py:52-57 | the posted text is the draft's text within the cap and its truncation otherwise, which equals truncating unconditionally; for a cap of at least 1 it never exceeds the cap |
| `Publisher.PublisherNode` | src/content_agents/agents/publisher.py:36-82 | no draft posts nothing and changes nothing; otherwise one post of the truncated text, within the cap when the cap is at least 1 (unchanged if already within it); on a failed post `{}` and the history untouched; on success the tweet id is stored and the article URL added to the history only if it is non-empty |
| `Workflow.CheckNewsAvailability` | src/content_agents/graph/workflow.py:14-24 | non-empty articles route to the editor whatever the topic; empty articles end exactly when the topic is "None", else retry the collector |
| `Workflow.ShouldPublish` | src/content_agents/graph/workflow.py:27-37 | no critique routes to the critic; an approved last critique to the publisher regardless of the counter; a rejected one to the writer exactly when the counter is below 3, else to the end |
| `Workflow.ShouldPublishLastOnly` | src/content_agents/graph/workflow.py:33-37 | critiques before the last never affect the route |
| `Workflow.Successor` | src/content_agents/graph/workflow.py:48-74 | editor goes to writer, writer to critic, publisher to end; the collector follows `CheckNewsAvailability` and the critic `ShouldPublish`, so by their contracts the collector goes to the editor exactly with articles, ends exactly with no articles and topic "None", and otherwise retries itself; the critic's edge is the critic router: itself exactly with no critique, the publisher exactly on approval, the writer exactly on a rejection below 3 iterations, the end otherwise |
| `Workflow.Execute` | src/content_agents/graph/workflow.py:42-46 | only the publisher touches the history and only the critic adds critiques (at most one, all valid); no node writes `tried_rubrics` |
| `Workflow.Step` | src/content_agents/graph/workflow.py:40-76 | a step extends the critique history by at most one critique and only at the critic, never shrinks the processed set, changes it only at the publisher, and keeps `tried_rubrics` |
| `Workflow.Run` | src/content_agents/graph/workflow.py:40-76 | a run stops at the end node, never runs past it, keeps the critique history and processed set growing and `tried_rubrics` unchanged |
| `Runs.InitialInv` | src/content_agents/main.py:12-19 | the session's initial state satisfies the loop invariant |
| `Runs.StepInv` | src/content_agents/graph/workflow.py:27-37 | every step keeps the loop invariant: critiques valid, counter and history in step, no tweet id before the end |
| `Runs.RunInv` | src/content_agents/graph/workflow.py:50-74 | every run keeps the loop invariant |
| `Runs.SessionCritiqueBound` | src/content_agents/graph/workflow.py:35-37 | any session holds at most MAX_ITERATIONS + 1 critiques, each scored 1..10, and has a tweet id only once ended |
| `Runs.WriterSucceedsStep` | src/content_agents/agents/writer.py:32-35 | a successful writer step hands a draft to the critic with the counter equal to the number of critiques |
| `Runs.CriticRejectsStep` | src/content_agents/graph/workflow.py:35-37 | a rejecting critic step adds one rejection and routes to the writer exactly while the counter is below 3, else ends |
| `Runs.RejectingRoundRun` | src/content_agents/graph/workflow.py:60-72 | one writer-critic round with a produced draft and a rejection visits writer then critic, adds one rejection, keeps the chosen article, and continues to the writer exactly while the counter is below 3 |
| `Runs.AllRejectedRun` | src/content_agents/graph/workflow.py:35-37 | with every draft produced and rejected, the run alternates writer and critic until MAX_ITERATIONS + 1 critiques exist and the counter is MAX_ITERATIONS, then ends |
| `Runs.FourDraftsThenEnd` | src/content_agents/graph/workflow.py:11 | from a fresh hand-off, all-rejecting collaborators give exactly four drafts and four critiques, then the end |
| `Runs.TooLongLeadsToShorten` | src/content_agents/agents/writer.py:73-74 | the critic's length rejection always selects the writer's shortening instruction |
| `Runs.OverLengthFirstDraft` | src/content_agents/agents/critic.py:46-56 | an over-length first draft is rejected without asking the reviewer and returns to the writer with the shortening instruction and the counter still 0 |
| `Runs.CriticSelfLoop` | src/content_agents/graph/workflow.py:31-32 | with no draft and no critique, the critic routes to itself forever and the state never changes |
| `Runs.WriterFailureLoop` | src/content_agents/agents/writer.py:123-125 | after a rejection, a writer that keeps failing leaves counter and critique history unchanged, and the graph never ends |
| `Runs.NoRubricLoop` | src/content_agents/agents/collector.py:18-24 | with no rubric the collector routes to itself on every step |
| `Runs.CollectorEndsOnlyForNoneRubric` | src/content_agents/graph/workflow.py:19-24 | the collector's route ends the graph exactly for a drawn rubric named "None" with no articles |
| `Runs.SessionSelects` | src/content_agents/graph/workflow.py:48-60 | a drawn rubric with articles leads through collector and editor to the writer with a fresh state and a chosen article among those fetched |
| `Runs.SessionApproves` | src/content_agents/graph/workflow.py:61-68 | a draft within 280 characters that the reviewer approves visits writer and critic and reaches the publisher with that single critique |
| `Runs.SessionPosts` | src/content_agents/agents/publisher.py:67-79 | a successful post from the publisher ends the run with the tweet id set and the chosen article's URL, which must be non-empty, added to the history |
| `Runs.PublishedSession` | src/content_agents/graph/workflow.py:48-74 | with succeeding collaborators a session visits collector, editor, writer, critic and publisher once, records the tweet id and, when every fetched article has a non-empty URL, adds the chosen article's URL to the history |
| `Runs.PostFailureEndsUnrecorded` | src/content_agents/agents/publisher.py:81-82 | a failed post ends the session with no tweet id and the history unchanged |

## Left out

- Feed fetching, HTML cleaning, date parsing, the sources file and the weighted random rubric draw (`news_fetcher.py`): the collector receives the drawn rubric and its fetched articles as one optional input.
- The X client and its authentication (`twitter_client.py`): posting is an optional tweet id input; the mock id returned without credentials is one such input.
- The image download (`utils.py`): a boolean input saying whether the download returned data.
- The language-model client, settings and logging (`llm.py`, `config.py`, `logger.py`); the two undeclared settings are parameters.
- Prompt texts and temperatures: requests carry the material sent (article markdown, feedback fields, draft text), not the prompt strings.
- The command line, daemon loop and sleep, and the exception handler around a session (`main.py`).
- Loading and saving the history file: a save is counted and the file is not modelled; the history a session starts from is the parameter of `Runs.Initial`, standing for whatever was loaded.
- The graph runtime's recursion limit: runs are bounded by the number of outcomes supplied instead.
- Schema validation beyond the critique score range (missing or mistyped fields count as a failed parse).
- The critic's crash when `articles` is missing from the state: the model's state always holds a list.
- `DataTypes.ToMarkdownLayout`: states the heading, that each field occurs verbatim, the total length and the ending, not the exact separator text between fields.
