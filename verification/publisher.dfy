/** The publisher node: trims an over-long draft at a sentence, clause or word
    boundary, posts it, and on success records the source URL. Posting is a
    collaborator; its outcome is the input `tweetId`. */
module Publisher {
  import opened Base
  import opened Text
  import opened DataTypes
  import opened State
  import opened History
  import opened Calls

  /** Shortens `content` to at most `maxLength` characters: cut after the last
      period within the limit; failing that, replace the last comma by a period;
      failing that, cut at the last space and add a period; failing that, cut
      hard and add a period. A `maxLength` below 1 follows Python's slicing. */
  function SmartTruncate(content: string, maxLength: int): (r: string)
    ensures |content| <= maxLength ==> r == content
    ensures 1 <= maxLength ==> |r| <= maxLength
    ensures 1 <= maxLength < |content| ==> |r| >= 1 && r[|r| - 1] == '.' && r[..|r| - 1] <= content
  {
    if |content| <= maxLength then
      content
    else
      var candidate := PyPrefix(content, maxLength);
      var lastDot := RFind(candidate, '.');
      if lastDot != -1 then
        candidate[..lastDot + 1]
      else
        var lastComma := RFind(candidate, ',');
        if lastComma != -1 then
          ClosePeriod(candidate[..lastComma], content)
        else
          var safeSlice := PyPrefix(content, maxLength - 1);
          var lastSpace := RFind(safeSlice, ' ');
          if lastSpace != -1 then
            ClosePeriod(safeSlice[..lastSpace], content)
          else
            ClosePeriod(PyPrefix(content, maxLength - 1), content)
  }

  /** A kept prefix of `content` followed by the closing period. */
  function ClosePeriod(kept: string, content: string): (r: string)
    requires kept <= content
    ensures |r| == |kept| + 1 && r[|r| - 1] == '.' && r[..|r| - 1] == kept
  {
    var r := kept + ".";
    assert r[..|kept|] == kept;
    r
  }

  /** Rule 1: with a period among the first `maxLength` characters, the result
      is the input up to and including the last such period. */
  lemma CutAtLastPeriod(content: string, maxLength: int)
    requires 1 <= maxLength < |content| && '.' in content[..maxLength]
    ensures var r := SmartTruncate(content, maxLength);
      r <= content && r[|r| - 1] == '.' && '.' !in content[|r|..maxLength]
  {
    var candidate := content[..maxLength];
    var k := RFind(candidate, '.');
    assert candidate[k + 1..] == content[k + 1..maxLength];
  }

  /** Rule 2: with no period but a comma among the first `maxLength`
      characters, the last such comma becomes the closing period. */
  lemma CutAtLastComma(content: string, maxLength: int)
    requires 1 <= maxLength < |content| && '.' !in content[..maxLength] && ',' in content[..maxLength]
    ensures var r := SmartTruncate(content, maxLength);
      r == content[..|r| - 1] + "." && content[|r| - 1] == ',' && ',' !in content[|r|..maxLength]
  {
    var candidate := content[..maxLength];
    var k := RFind(candidate, ',');
    assert candidate[k + 1..] == content[k + 1..maxLength];
  }

  /** Rule 3: with neither, the text is cut at the last space among the first
      `maxLength - 1` characters and a period is added. */
  lemma CutAtLastSpace(content: string, maxLength: int)
    requires 1 <= maxLength < |content| && '.' !in content[..maxLength] && ',' !in content[..maxLength]
    requires ' ' in content[..maxLength - 1]
    ensures var r := SmartTruncate(content, maxLength);
      |r| < maxLength && r == content[..|r| - 1] + "." && content[|r| - 1] == ' '
      && ' ' !in content[|r|..maxLength - 1]
  {
    var safeSlice := content[..maxLength - 1];
    var k := RFind(safeSlice, ' ');
    assert safeSlice[k + 1..] == content[k + 1..maxLength - 1];
  }

  /** Rule 4: with no period, comma or space to cut at, the text is cut hard
      one character short of the limit and a period is added. */
  lemma HardCut(content: string, maxLength: int)
    requires 1 <= maxLength < |content| && '.' !in content[..maxLength] && ',' !in content[..maxLength]
    requires ' ' !in content[..maxLength - 1]
    ensures SmartTruncate(content, maxLength) == content[..maxLength - 1] + "."
  {
  }

  /** Truncating an already truncated text changes nothing. */
  lemma SmartTruncateIdempotent(content: string, maxLength: int)
    requires 1 <= maxLength
    ensures SmartTruncate(SmartTruncate(content, maxLength), maxLength) == SmartTruncate(content, maxLength)
  {
  }

  /** Below a limit of 1 the rules are not idempotent and the cap is not kept:
      `s[:max_length - 1]` then drops characters from the end instead. */
  lemma ZeroLimitCounterexample()
    ensures SmartTruncate("a b c d", 0) == "a b c."
    ensures SmartTruncate(SmartTruncate("a b c d", 0), 0) == "a b."
    ensures SmartTruncate("ab", 0) == "a."
  {
  }

  /** The text the publisher posts for draft `d`. The publisher's own length
      test is redundant: the truncation returns text within the cap as it is. */
  function PostedText(d: Draft, maxLength: int): (r: string)
    ensures r == SmartTruncate(d.content, maxLength)
    ensures |d.content| <= maxLength ==> r == d.content
    ensures 1 <= maxLength ==> |r| <= maxLength
  {
    if |d.content| > maxLength then SmartTruncate(d.content, maxLength) else d.content
  }

  datatype Published = Published(out: Out, history: HistoryManager)

  /** Posting succeeded: the client returned a non-empty id. */
  predicate PostSucceeded(tweetId: Option<string>) {
    Truthy(tweetId)
  }

  function PublisherNode(s: AgentState, h: HistoryManager, maxLength: int, tweetId: Option<string>): (r: Published)
    ensures s.draft.None? ==> r == Published(Out(NoChange, []), h)
    ensures s.draft.Some? ==> r.out.calls == [PostTweet(PostedText(s.draft.value, maxLength), s.draft.value.mediaFiles)]
    ensures s.draft.Some? && 1 <= maxLength ==> |r.out.calls[0].text| <= maxLength
    ensures s.draft.Some? && |s.draft.value.content| <= maxLength ==> r.out.calls[0].text == s.draft.value.content
    ensures s.draft.Some? && !PostSucceeded(tweetId) ==> r.out.update == NoChange && r.history == h
    ensures s.draft.Some? && PostSucceeded(tweetId) ==>
      r.out.update == NoChange.(finalTweetId := Put(tweetId))
      && r.history == (if s.selectedArticle.Some? && s.selectedArticle.value.url != ""
                       then Add(h, s.selectedArticle.value.url) else h)
    ensures r.history != h ==>
      s.draft.Some? && PostSucceeded(tweetId) && s.selectedArticle.Some?
      && IsProcessed(r.history, s.selectedArticle.value.url)
      && r.history.processedUrls == h.processedUrls + {s.selectedArticle.value.url}
  {
    match s.draft
    case None =>
      Published(Out(NoChange, []), h)
    case Some(d) =>
      var post := PostTweet(PostedText(d, maxLength), d.mediaFiles);
      if PostSucceeded(tweetId) then
        var h' := match s.selectedArticle
          case Some(a) => if a.url != "" then Add(h, a.url) else h
          case None => h;
        Published(Out(NoChange.(finalTweetId := Put(tweetId)), [post]), h')
      else
        Published(Out(NoChange, [post]), h)
  }
}
