/** search_logic.py and model.py apply the same decision logic to the replies of
    their two Wikipedia requests. Given equal replies, they find the same page. The
    requests themselves differ: model.py asks only for the introduction
    (`exintro`), so on one query the two extracts normally differ. */
module SharedLookup {
  import opened Parens
  import opened WikiApi
  import opened SearchLogic
  import opened WikiService

  /** On the same replies, `search_wikipedia_summary` has a summary exactly when
      `wikipedia_fallback_search` has a source. The summary is then the cleaned
      content of that source. Both raise on the same replies. */
  lemma SummaryIffFallbackSource(query: string, replies: Replies)
    ensures SearchWikipediaSummary(replies).Escaped? <==> WikipediaFallback(query, replies).Escaped?
    ensures SearchWikipediaSummary(replies).Done? ==>
              (SearchWikipediaSummary(replies).value.Some? <==> WikipediaFallback(query, replies).value.sources != [])
    ensures SearchWikipediaSummary(replies).Done? && SearchWikipediaSummary(replies).value.Some? ==>
              SearchWikipediaSummary(replies).value.value == Cleanup(WikipediaFallback(query, replies).value.sources[0].content)
  {
  }
}
