/** The external calls a node issues. Each node returns its state update
    together with the calls it made, in order, so that a property such as
    "the reviewer is never asked" is a statement about this list. */
module Calls {
  import opened Base
  import opened DataTypes
  import opened State

  /** The rewrite instruction the writer adds after a rejection. */
  datatype Instruction = Shorten | Rewrite

  /** The feedback block of a rewrite request: the last critique's score and
      feedback, the previous draft's text if any, and the chosen instruction. */
  datatype Feedback = Feedback(score: int, previousDraft: Option<string>, text: string, instruction: Instruction)

  /** What the writer sends to the language model. */
  datatype DraftRequest = DraftRequest(source: string, image: Option<string>, feedback: Option<Feedback>, targetLength: int)

  datatype Call =
    | DrawRubric
    | FetchNews(rubric: string)
    | SelectStory(candidates: seq<Article>)
    | DownloadImage(url: string)
    | WriteDraft(request: DraftRequest)
    | ReviewDraft(sourceText: string, draftText: string, reasoning: string)
    | PostTweet(text: string, media: seq<string>)

  /** A node's result: its partial update and the calls it issued. */
  datatype Out = Out(update: Update, calls: seq<Call>)

  /** The call list holds no request to the reviewing model. */
  predicate NoReview(calls: seq<Call>) {
    forall i :: 0 <= i < |calls| ==> !calls[i].ReviewDraft?
  }
}
