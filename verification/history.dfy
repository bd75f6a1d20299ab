/** The set of URLs already published. Persistence is abstracted to a count
    of save requests. */
module History {

  datatype HistoryManager = HistoryManager(processedUrls: set<string>, saves: nat)

  /** Whether `url` has been recorded. */
  predicate IsProcessed(h: HistoryManager, url: string) {
    url in h.processedUrls
  }

  /** Records `url` and requests a save, unless it is empty or already recorded. */
  function Add(h: HistoryManager, url: string): (r: HistoryManager)
    ensures url != "" ==> IsProcessed(r, url)
    ensures r.processedUrls == if url == "" then h.processedUrls else h.processedUrls + {url}
    ensures r.saves == h.saves + 1 <==> r.processedUrls != h.processedUrls
    ensures r.saves == h.saves <==> r.processedUrls == h.processedUrls
    ensures forall u :: IsProcessed(h, u) ==> IsProcessed(r, u)
  {
    if url != "" && url !in h.processedUrls then
      HistoryManager(h.processedUrls + {url}, h.saves + 1)
    else
      h
  }

  /** Adding a URL twice is adding it once. */
  lemma AddIdempotent(h: HistoryManager, url: string)
    ensures Add(Add(h, url), url) == Add(h, url)
  {
  }

  /** Only the added URL can become processed. */
  lemma AddOnlyAddsUrl(h: HistoryManager, url: string, other: string)
    requires other != url
    ensures IsProcessed(Add(h, url), other) <==> IsProcessed(h, other)
  {
  }

  /** After adding `url`, a URL counts as processed exactly when it did before
      or it is the added, non-empty URL. */
  lemma ProcessedAfterAdd(h: HistoryManager, url: string, other: string)
    ensures IsProcessed(Add(h, url), other) <==> IsProcessed(h, other) || (other == url && url != "")
  {
  }
}
