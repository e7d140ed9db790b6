/** main.py: the `POST /search` endpoint runs `browser_search` on every query
    concurrently and shapes each `(sources, query)` pair into a record. */
module Api {
  import opened Outcomes
  import opened SearchLogic

  /** `search`: one record per query, in query order; the record of query `i` is
      the formatting of that query's own search: a summary record carrying the
      query and its sources unchanged, or the fixed error record when it found no
      source. An escaping search fails the whole request. */
  function Search(queries: seq<string>, world: string -> World): (r: Outcome<seq<Record>>)
    ensures r.Escaped? <==> exists i :: 0 <= i < |queries| && BrowserSearch(queries[i], world(queries[i])).Escaped?
    ensures r.Done? ==> |r.value| == |queries|
    ensures r.Done? ==> forall i :: 0 <= i < |queries| ==>
              var result := BrowserSearch(queries[i], world(queries[i])).value;
              && (r.value[i].ErrorRecord? <==> result.sources == [])
              && (r.value[i].SummaryRecord? ==> r.value[i].query == queries[i] && r.value[i].sources == result.sources)
              && (r.value[i].ErrorRecord? ==> r.value[i].error == NotFoundMessage)
  {
    assert forall i :: 0 <= i < |queries| ==> Searches(queries, world)[i] == BrowserSearch(queries[i], world(queries[i]));
    match GatherAll(Searches(queries, world))
    case Escaped => Escaped
    case Done(results) => Done(FormatResults(results))
  }
}
