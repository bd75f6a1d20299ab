/** The records the agents exchange: a news article, a tweet draft and a critique. */
module DataTypes {
  import opened Base
  import opened Text

  /** A news article as produced by the feed reader. */
  datatype Article = Article(
    title: string,
    content: string,
    url: string,
    source: string,
    publishedAt: string,
    imageUrl: Option<string>)

  /** A draft of a tweet; `mediaFiles` are the image references posted with it. */
  datatype Draft = Draft(content: string, mediaFiles: seq<string>, reasoning: string)

  /** An evaluation of a draft. The schema admits only scores 1 to 10. */
  datatype Critique = Critique(score: int, feedback: string, isApproved: bool)

  /** The fields a writer reply carries before it becomes a draft; the media
      list is optional in the reply. */
  datatype DraftReply = DraftReply(content: string, reasoning: string, mediaFiles: Option<seq<string>>)

  const MIN_SCORE := 1
  const MAX_SCORE := 10

  predicate ValidCritique(c: Critique) {
    MIN_SCORE <= c.score <= MAX_SCORE
  }

  /** Schema validation of a parsed critique: a score outside 1..10 is a
      parse error, reported as no critique at all. */
  function ValidateCritique(raw: Critique): (r: Option<Critique>)
    ensures r.Some? <==> 1 <= raw.score <= 10
    ensures r.Some? ==> r.value == raw && ValidCritique(r.value)
  {
    if MIN_SCORE <= raw.score <= MAX_SCORE then Some(raw) else None
  }

  /** Builds a draft from a writer reply; an absent media list defaults to empty. */
  function DraftOf(reply: DraftReply): (d: Draft)
    ensures d.content == reply.content && d.reasoning == reply.reasoning
    ensures reply.mediaFiles.None? ==> d.mediaFiles == []
    ensures reply.mediaFiles.Some? ==> d.mediaFiles == reply.mediaFiles.value
  {
    Draft(reply.content, match reply.mediaFiles case Some(m) => m case None => [], reply.reasoning)
  }

  /** The article's image reference is set (present and non-empty). */
  predicate HasImage(a: Article) {
    Truthy(a.imageUrl)
  }

  /** Length of the fixed text around the four article fields in the markdown. */
  const MARKDOWN_FRAME := 21
  /** Length of the fixed text around the image reference in the image line. */
  const IMAGE_FRAME := 12

  /** The markdown rendering of an article used as prompt material: a title
      heading, the source and link lines, the content, and an image line when
      the article has an image. */
  function ToMarkdown(a: Article): string {
    var md := "# " + a.title + "\n\nSource: " + a.source + "\nLink: " + a.url + "\n\n" + a.content;
    if HasImage(a) then md + "\n\n![Image](" + a.imageUrl.value + ")" else md
  }

  lemma OccursSelf(s: string)
    ensures Occurs(s, s)
  {
    OccursPrefix(s, s);
  }

  /** The rendering starts with the title heading and holds every field verbatim;
      it ends with the content when there is no image and with the image line
      when there is one. */
  lemma ToMarkdownLayout(a: Article)
    ensures |ToMarkdown(a)| >= 2 + |a.title| && ToMarkdown(a)[..2 + |a.title|] == "# " + a.title
    ensures Occurs(a.title, ToMarkdown(a)) && Occurs(a.source, ToMarkdown(a))
    ensures Occurs(a.url, ToMarkdown(a)) && Occurs(a.content, ToMarkdown(a))
    ensures !HasImage(a) ==>
      |ToMarkdown(a)| == MARKDOWN_FRAME + |a.title| + |a.source| + |a.url| + |a.content|
      && ToMarkdown(a)[|ToMarkdown(a)| - |a.content|..] == a.content
    ensures HasImage(a) ==>
      |ToMarkdown(a)| == MARKDOWN_FRAME + |a.title| + |a.source| + |a.url| + |a.content| + IMAGE_FRAME + |a.imageUrl.value|
      && ToMarkdown(a)[|ToMarkdown(a)| - (IMAGE_FRAME + |a.imageUrl.value|)..] == "\n\n![Image](" + a.imageUrl.value + ")"
  {
    var m1 := "# " + a.title;
    OccursSelf(a.title);
    OccursRight(a.title, "# ", a.title);
    var m2 := m1 + "\n\nSource: ";
    OccursLeft(a.title, m1, "\n\nSource: ");
    var m3 := m2 + a.source;
    OccursLeft(a.title, m2, a.source);
    OccursSelf(a.source);
    OccursRight(a.source, m2, a.source);
    var m4 := m3 + "\nLink: ";
    OccursLeft(a.title, m3, "\nLink: ");
    OccursLeft(a.source, m3, "\nLink: ");
    var m5 := m4 + a.url;
    OccursLeft(a.title, m4, a.url);
    OccursLeft(a.source, m4, a.url);
    OccursSelf(a.url);
    OccursRight(a.url, m4, a.url);
    var m6 := m5 + "\n\n";
    OccursLeft(a.title, m5, "\n\n");
    OccursLeft(a.source, m5, "\n\n");
    OccursLeft(a.url, m5, "\n\n");
    var md := m6 + a.content;
    OccursLeft(a.title, m6, a.content);
    OccursLeft(a.source, m6, a.content);
    OccursLeft(a.url, m6, a.content);
    OccursSelf(a.content);
    OccursRight(a.content, m6, a.content);
    assert md[..2 + |a.title|] == m1;
    if HasImage(a) {
      var line := "\n\n![Image](" + a.imageUrl.value + ")";
      assert ToMarkdown(a) == md + line;
      OccursLeft(a.title, md, line);
      OccursLeft(a.source, md, line);
      OccursLeft(a.url, md, line);
      OccursLeft(a.content, md, line);
      assert (md + line)[..2 + |a.title|] == m1;
    } else {
      assert ToMarkdown(a) == md;
    }
  }
}
