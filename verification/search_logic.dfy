/** search_logic.py: the web search with its Wikipedia fallback (`browser_search`,
    `fetch_and_summarize_url`, `wikipedia_fallback_search`) and the shaping of the
    per-query results (`main_cli`). The DDGS search, the page fetches and the
    Wikipedia API calls are inputs; `asyncio.gather` is an ordered map. */
module SearchLogic {
  import opened Outcomes
  import opened Text
  import opened Sentences
  import opened WikiApi

  /** `{"url": url, "content": content}`. */
  datatype Source = Source(url: string, content: string)

  /** The `(sources, query)` pair returned by the search functions. */
  datatype Searched = Searched(sources: seq<Source>, query: string)

  /** The DDGS text search (`max_results=5`): the `href` of each hit in rank order,
      or an exception (a provider error, or the `KeyError` of a hit without
      `href`). */
  datatype WebSearch = WebSearchRaised | WebHits(hrefs: seq<string>)

  /** One page fetch: the page's plain text (after `strip_html_tags`), or the
      exception raised by the request, `raise_for_status` or the body decoding. */
  datatype Fetch = Fetched(text: string) | FetchFailed(failure: Failure)

  /** What the outside world answers for one query: the web search, the fetch of
      each URL, the replies of the first fallback lookup and those of a second one
      (reached only when the first fallback raises from inside the `try`). */
  datatype World = World(web: WebSearch, fetch: string -> Fetch, wiki: Replies, wikiRetry: Replies)

  /** `urls_to_fetch[:3]`. */
  const MaxFetched := 3

  const WikiPagePrefix := "https://en.wikipedia.org/wiki/"

  const NotFoundMessage := "Could not find a relevant answer for that query."

  /** `fetch_and_summarize_url`: a source holding the summary of the page on
      success, `None` on an `aiohttp.ClientError`; any other exception escapes. */
  function FetchAndSummarize(url: string, fetch: Fetch): (r: Outcome<Option<Source>>)
    ensures r == Done(None) <==> fetch == FetchFailed(RequestError)
    ensures r.Escaped? <==> fetch == FetchFailed(OtherError)
    ensures fetch.Fetched? ==> r == Done(Some(Source(url, Summarize(fetch.text))))
  {
    match fetch
    case Fetched(text) => Done(Some(Source(url, Summarize(text))))
    case FetchFailed(RequestError) => Done(None)
    case FetchFailed(OtherError) => Escaped
  }

  /** The URLs actually fetched: the first three, in rank order. */
  function TopUrls(urls: seq<string>): (top: seq<string>)
    ensures |top| <= MaxFetched
    ensures |top| == if |urls| < MaxFetched then |urls| else MaxFetched
    ensures top == urls[..|top|]
  {
    if |urls| > MaxFetched then urls[..MaxFetched] else urls
  }

  /** `[fetch_and_summarize_url(session, url) for url in urls]`, run to completion. */
  function Tasks(urls: seq<string>, fetch: string -> Fetch): seq<Outcome<Option<Source>>> {
    seq(|urls|, i requires 0 <= i < |urls| => FetchAndSummarize(urls[i], fetch(urls[i])))
  }

  /** `for result in results: if result: sources.append(result)`. */
  function KeepSources(results: seq<Option<Source>>): (kept: seq<Source>)
    ensures |kept| <= |results|
    ensures forall src :: src in kept <==> Some(src) in results
  {
    if results == [] then []
    else
      var rest := KeepSources(results[1..]);
      assert forall src :: Some(src) in results <==> results[0] == Some(src) || Some(src) in results[1..];
      (if results[0].Some? then [results[0].value] else []) + rest
  }

  /** Some fetch of `urls` raises an exception other than a `ClientError`, which
      makes `asyncio.gather` raise. */
  predicate FetchEscapes(urls: seq<string>, fetch: string -> Fetch) {
    exists i :: 0 <= i < |urls| && fetch(urls[i]) == FetchFailed(OtherError)
  }

  /** Reference definition: one source per URL whose fetch succeeded, in the order
      of `urls`, holding that URL and the summary of its text. */
  function Successful(urls: seq<string>, fetch: string -> Fetch): seq<Source> {
    if urls == [] then []
    else
      (match fetch(urls[0])
       case Fetched(text) => [Source(urls[0], Summarize(text))]
       case FetchFailed(_) => [])
      + Successful(urls[1..], fetch)
  }

  /** What `Successful` holds: no more sources than URLs; each source comes from a
      successful fetch of one of the URLs; each successful fetch gives a source. */
  lemma {:induction false} SuccessfulSources(urls: seq<string>, fetch: string -> Fetch)
    ensures |Successful(urls, fetch)| <= |urls|
    ensures forall src :: src in Successful(urls, fetch) ==>
              src.url in urls && fetch(src.url).Fetched? && src.content == Summarize(fetch(src.url).text)
    ensures forall i :: 0 <= i < |urls| && fetch(urls[i]).Fetched? ==>
              Source(urls[i], Summarize(fetch(urls[i]).text)) in Successful(urls, fetch)
  {
    if urls != [] {
      SuccessfulSources(urls[1..], fetch);
      forall i | 1 <= i < |urls|
        ensures urls[i] == urls[1..][i - 1]
      {
      }
    }
  }

  /** Gathering the fetches of `urls` in task order and keeping the successes gives
      the successful sources in rank order. */
  lemma {:induction false} GatherKeepsRankOrder(urls: seq<string>, fetch: string -> Fetch)
    requires GatherAll(Tasks(urls, fetch)).Done?
    ensures !FetchEscapes(urls, fetch)
    ensures KeepSources(GatherAll(Tasks(urls, fetch)).value) == Successful(urls, fetch)
  {
    var results := GatherAll(Tasks(urls, fetch)).value;
    if urls != [] {
      assert Tasks(urls, fetch)[1..] == Tasks(urls[1..], fetch);
      assert results[1..] == GatherAll(Tasks(urls[1..], fetch)).value;
      GatherKeepsRankOrder(urls[1..], fetch);
    }
  }

  /** The gather raises exactly when some fetch raises a non-`ClientError`. */
  lemma GatherEscapes(urls: seq<string>, fetch: string -> Fetch)
    ensures GatherAll(Tasks(urls, fetch)).Escaped? <==> FetchEscapes(urls, fetch)
  {
    if FetchEscapes(urls, fetch) {
      var i :| 0 <= i < |urls| && fetch(urls[i]) == FetchFailed(OtherError);
      assert !Tasks(urls, fetch)[i].Done?;
    }
  }

  /** `urls` without any occurrence of `u`. */
  function Without(urls: seq<string>, u: string): (r: seq<string>)
    ensures u !in r
  {
    if urls == [] then []
    else (if urls[0] == u then [] else [urls[0]]) + Without(urls[1..], u)
  }

  /** A `ClientError` on one URL drops that URL's source and nothing else: the
      sources are those of the other URLs under the unchanged fetches. */
  lemma {:induction false} ClientErrorIsolated(urls: seq<string>, fetch: string -> Fetch,
                                               fetch': string -> Fetch, u: string)
    requires fetch'(u) == FetchFailed(RequestError)
    requires forall v :: v != u ==> fetch'(v) == fetch(v)
    ensures Successful(urls, fetch') == Successful(Without(urls, u), fetch)
  {
    if urls != [] {
      ClientErrorIsolated(urls[1..], fetch, fetch', u);
      if urls[0] == u {
        assert Without(urls, u) == Without(urls[1..], u);
      } else {
        assert fetch'(urls[0]) == fetch(urls[0]);
        assert Without(urls, u) == [urls[0]] + Without(urls[1..], u);
        assert ([urls[0]] + Without(urls[1..], u))[1..] == Without(urls[1..], u);
      }
    }
  }

  /** The sources depend only on the fetches of the listed URLs. */
  lemma {:induction false} SuccessfulLocal(urls: seq<string>, fetch: string -> Fetch, fetch': string -> Fetch)
    requires forall i :: 0 <= i < |urls| ==> fetch'(urls[i]) == fetch(urls[i])
    ensures Successful(urls, fetch') == Successful(urls, fetch)
    ensures FetchEscapes(urls, fetch') == FetchEscapes(urls, fetch)
  {
    if urls != [] {
      SuccessfulLocal(urls[1..], fetch, fetch');
    }
  }

  /** `wikipedia_fallback_search`: at most one source, for the first search hit,
      whose URL is the article URL of its title and whose content is the page's
      extract (`""` when absent); no source when the lookup finds nothing or hits a
      `ClientError`. The query is returned unchanged. */
  function WikipediaFallback(query: string, replies: Replies): (r: Outcome<Searched>)
    ensures r.Escaped? <==> Lookup(replies).Escaped?
    ensures r.Done? ==> r.value.query == query && |r.value.sources| <= 1
    ensures r.Done? ==> (r.value.sources == [] <==> Lookup(replies).value.None?)
    ensures r.Done? && r.value.sources != [] ==>
              var src, page := r.value.sources[0], Lookup(replies).value.value;
              && src.url == WikiPagePrefix + ReplaceChar(page.title, ' ', '_')
              && src.content == page.extract
  {
    match Lookup(replies)
    case Escaped => Escaped
    case Done(None) => Done(Searched([], query))
    case Done(Some(page)) =>
      Done(Searched([Source(WikiPagePrefix + ReplaceChar(page.title, ' ', '_'), page.extract)], query))
  }

  /** One output record: `{"type": "summary", "query": ..., "sources": ...}`, or
      the fixed error record (which has no query field). */
  datatype Record = SummaryRecord(query: string, sources: seq<Source>) | ErrorRecord(error: string)

  /** The body of the formatting loop for one `(sources, query)` pair. */
  function FormatResult(result: Searched): (rec: Record)
    ensures rec.SummaryRecord? <==> result.sources != []
    ensures rec.SummaryRecord? ==> rec.query == result.query && rec.sources == result.sources
    ensures rec.ErrorRecord? ==> rec.error == NotFoundMessage
  {
    if result.sources != [] then SummaryRecord(result.query, result.sources)
    else ErrorRecord(NotFoundMessage)
  }

  /** `browser_search`. A failed web search, or a fetch raising something other
      than a `ClientError`, ends in the fallback, discarding any fetched source. No
      hit ends in the fallback too; since that call sits inside the `try`, an
      exception from it is caught and the fallback runs a second time. Otherwise
      the sources are the successful fetches of the first three URLs in rank
      order. */
  function BrowserSearch(query: string, world: World): (r: Outcome<Searched>)
    ensures r.Done? ==> r.value.query == query
    ensures r.Done? ==> |r.value.sources| <= MaxFetched
    ensures world.web.WebSearchRaised? ==> r == WikipediaFallback(query, world.wiki)
    ensures world.web == WebHits([]) ==>
              r == if WikipediaFallback(query, world.wiki).Done? then WikipediaFallback(query, world.wiki)
                   else WikipediaFallback(query, world.wikiRetry)
    ensures world.web.WebHits? && world.web.hrefs != [] ==>
              var top := TopUrls(world.web.hrefs);
              && (FetchEscapes(top, world.fetch) ==> r == WikipediaFallback(query, world.wiki))
              && (!FetchEscapes(top, world.fetch) ==> r == Done(Searched(Successful(top, world.fetch), query)))
  {
    match world.web
    case WebSearchRaised => WikipediaFallback(query, world.wiki)
    case WebHits(urls) =>
      if urls == [] then
        match WikipediaFallback(query, world.wiki)
        case Done(result) => Done(result)
        case Escaped => WikipediaFallback(query, world.wikiRetry)
      else
        var top := TopUrls(urls);
        GatherEscapes(top, world.fetch);
        match GatherAll(Tasks(top, world.fetch))
        case Escaped => WikipediaFallback(query, world.wiki)
        case Done(results) =>
          GatherKeepsRankOrder(top, world.fetch);
          SuccessfulSources(top, world.fetch);
          Done(Searched(KeepSources(results), query))
  }

  /** Only the first three URLs are fetched: fetch results for the other URLs do
      not change the outcome. */
  lemma OnlyTopUrlsFetched(query: string, world: World, fetch': string -> Fetch)
    requires world.web.WebHits?
    requires forall i :: 0 <= i < |TopUrls(world.web.hrefs)| ==>
               fetch'(TopUrls(world.web.hrefs)[i]) == world.fetch(TopUrls(world.web.hrefs)[i])
    ensures BrowserSearch(query, world.(fetch := fetch')) == BrowserSearch(query, world)
  {
    SuccessfulLocal(TopUrls(world.web.hrefs), world.fetch, fetch');
  }

  /** When a second fallback lookup would get the same replies as the first, no
      hit means exactly the fallback's outcome. */
  lemma NoHitsMeansFallback(query: string, world: World)
    requires world.web == WebHits([])
    requires world.wikiRetry == world.wiki
    ensures BrowserSearch(query, world) == WikipediaFallback(query, world.wiki)
  {
  }

  /** Hits whose fetches all fail with a `ClientError` give no source, without any
      fallback, and so the "not found" record. */
  lemma AllFetchesFailed(query: string, world: World)
    requires world.web.WebHits? && world.web.hrefs != []
    requires forall u :: u in TopUrls(world.web.hrefs) ==> world.fetch(u) == FetchFailed(RequestError)
    ensures BrowserSearch(query, world) == Done(Searched([], query))
    ensures FormatResult(BrowserSearch(query, world).value) == ErrorRecord(NotFoundMessage)
  {
    NothingFetchedNoSource(TopUrls(world.web.hrefs), world.fetch);
  }

  /** Without a successful fetch there is no source. */
  lemma {:induction false} NothingFetchedNoSource(urls: seq<string>, fetch: string -> Fetch)
    requires forall u :: u in urls ==> fetch(u) == FetchFailed(RequestError)
    ensures Successful(urls, fetch) == []
    ensures !FetchEscapes(urls, fetch)
  {
    if urls != [] {
      assert urls[0] in urls;
      NothingFetchedNoSource(urls[1..], fetch);
    }
  }

  /** The formatting loop: one record per result, in order. */
  function FormatResults(results: seq<Searched>): (recs: seq<Record>)
    ensures |recs| == |results|
    ensures forall i :: 0 <= i < |results| ==> recs[i] == FormatResult(results[i])
  {
    if results == [] then []
    else [FormatResult(results[0])] + FormatResults(results[1..])
  }

  /** `[browser_search(query) for query in queries]`, run to completion. */
  function Searches(queries: seq<string>, world: string -> World): seq<Outcome<Searched>> {
    seq(|queries|, i requires 0 <= i < |queries| => BrowserSearch(queries[i], world(queries[i])))
  }

  /** What `main_cli` prints: the usage line (exit status 1) when no query is given,
      the JSON list of records otherwise. */
  datatype CliOutput = Usage | Printed(records: seq<Record>)

  /** `main_cli`: one record per command-line query, in order, each the formatting
      of that query's search; an escaping search aborts the run. */
  function MainCli(args: seq<string>, world: string -> World): (r: Outcome<CliOutput>)
    ensures r == Done(Usage) <==> args == []
    ensures r.Escaped? <==> exists i :: 0 <= i < |args| && BrowserSearch(args[i], world(args[i])).Escaped?
    ensures r.Done? && r.value.Printed? ==>
              && |r.value.records| == |args|
              && forall i :: 0 <= i < |args| ==>
                   && r.value.records[i] == FormatResult(BrowserSearch(args[i], world(args[i])).value)
                   && (r.value.records[i].SummaryRecord? ==> r.value.records[i].query == args[i])
  {
    if args == [] then Done(Usage)
    else
      assert forall i :: 0 <= i < |args| ==> Searches(args, world)[i] == BrowserSearch(args[i], world(args[i]));
      match GatherAll(Searches(args, world))
      case Escaped => Escaped
      case Done(results) => Done(Printed(FormatResults(results)))
  }
}
