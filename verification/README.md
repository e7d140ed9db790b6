# omni_search — a Dafny model of its query-resolution rules

omni_search answers natural-language queries. It searches the web with DuckDuckGo
(DDGS), fetches the top result pages concurrently and summarises them, and falls
back to the Wikipedia API when the web search gives nothing or fails. A separate
microservice (model.py) answers one query intent precisely from Wikidata and
otherwise returns a cleaned Wikipedia introduction.

This project models the deterministic rules beneath that I/O as pure Dafny
functions:

- the sentence summariser `summarize_text` and its split regex (`Sentences`);
- the `fetch_and_summarize_url` / `browser_search` / `wikipedia_fallback_search`
  decision and aggregation logic (`SearchLogic`), with the decision logic of the
  two-step Wikipedia lookup, which model.py shares, in `WikiApi`;
- the per-query formatting in `main_cli` (`SearchLogic`) and in the `/search`
  endpoint of main.py (`Api`);
- the Wikidata trigger, the `\(.*?\)` cleanup and the answer priority of model.py
  (`WikiService`, `Parens`);
- the agreement of the two Wikipedia lookups on equal replies (`SharedLookup`).

Every network reply is an input datatype. A reply either carries its data or an
exception, which is a `Failure`. `RequestError` stands for the HTTP library's own
error class, which each file catches: `aiohttp.ClientError` in search_logic.py
and `requests.RequestException` in model.py. `OtherError` stands for any other
exception. A call's result is `Outcome<T>`: either `Done(value)` or `Escaped`,
meaning an exception propagated out of it. `asyncio.gather` is modelled as an
ordered map (`Outcomes.GatherAll`), because gather returns results in task order.

Assumptions:

- `\s`, `str.isspace` and `str.strip` use the ASCII whitespace set. That set is
  TAB, LF, VT, FF, CR, 0x1C–0x1F and SPACE.
- `\w` is `[A-Za-z0-9_]`.
- `str.lower` lower-cases only `A`–`Z`.
- JSON objects are `map<string, string>`.
- A SPARQL binding is flattened to a map from variable name to its `value`.
- A page fetch is an oracle `string -> Fetch`, so the same URL always gets the
  same outcome.
- `strip_html_tags` is not modelled: `Fetched(text)` carries its output.

Behaviour of the code that the model keeps:

- Sources come out in URL rank order, not in completion order, because `gather`
  keeps task order.
- The fetch tasks only summarise pages. They extract no precise answer and share
  no "answer found" flag, so each of the first three URLs is always fetched.
- A fetch that raises anything other than `aiohttp.ClientError` is not isolated.
  One example is the `asyncio.TimeoutError` of aiohttp's total timeout. Such an
  exception makes `gather` raise, the catch-all sends the whole query to the
  fallback, and the sources fetched so far are discarded.
- When the web search has no hit, the fallback is called inside the `try`
  (search_logic.py:57). If that call raises something other than a
  `ClientError`, the catch-all calls the fallback a second time
  (search_logic.py:71). `World.wikiRetry` holds the replies that second call
  receives.

## Model

| member | source | states |
|---|---|---|
| `Outcomes.GatherAll` | search_logic.py:64 | gather succeeds exactly when every task succeeded. Its results come in task order, one per task. |
| `Text.Lower` | model.py:16 | `str.lower()` keeps the length, maps each `A`–`Z` to its lower-case letter and keeps every other character. |
| `Text.LowerIdempotent` | model.py:16 | lower-casing a lower-cased string changes nothing. |
| `Text.ReplaceChar` | search_logic.py:102 | `title.replace(' ', '_')` keeps the length, puts `_` at every space and keeps every other character. |
| `Text.ContainsIffOccurs` | model.py:16 | Python's `pattern in s` holds exactly when the pattern occurs at some index of `s`. |
| `Text.Strip` | model.py:86 | `str.strip()` returns an infix of the input. Only whitespace lies outside that infix. The result neither starts nor ends with whitespace, and an already-stripped string is returned unchanged. |
| `Sentences.BoundariesFrom` | search_logic.py:15 | the split points are exactly the indices where the regex matches: whitespace after `.` or `?`, not after `\w\.\w.` or `[A-Z][a-z]\.`. They are listed in increasing order. |
| `Sentences.Split` | search_logic.py:15 | `re.split` returns one more piece than there are split points. Piece `k` is exactly the text strictly between the `k`-th and `(k+1)`-th cut, with the boundary characters removed. |
| `Sentences.InnerCutIsBoundary` | search_logic.py:15 | every inner cut of the split is a regex match: whitespace whose predecessor is `.` or `?`. |
| `Sentences.NoBoundaryInsidePiece` | search_logic.py:15 | no sentence contains a split point. |
| `Sentences.JoinPrefix` | search_logic.py:17-18 | joining the first `k` sentences with one space gives the original text up to the end of sentence `k`, with each boundary character replaced by a space. |
| `Sentences.Summarize` | search_logic.py:13-21 | with at most five sentences, the summary is the whole text with each boundary replaced by a space. With more, it is that text up to the end of the fifth sentence, followed by `...`. |
| `Sentences.ShortSummary` | search_logic.py:16-20 | with at most five sentences, the summary is all of them joined by single spaces, with no ellipsis. |
| `Sentences.LongSummary` | search_logic.py:16-20 | with more than five sentences, the summary is the first five joined by single spaces, followed by `...`. |
| `Sentences.NoBoundaryOnePiece` | search_logic.py:15-18 | text has no split point exactly when it splits into itself alone, and then it is its own summary. |
| `Sentences.ShortTextRoundTrip` | search_logic.py:15-18 | if every split point is a plain space and there are at most five sentences, the summary equals the text. |
| `SearchLogic.FetchAndSummarize` | search_logic.py:29-41 | a successful fetch yields `{url, summary of the page text}`. A `ClientError` yields `None`, and any other exception escapes. |
| `SearchLogic.TopUrls` | search_logic.py:59 | the fetched URLs are the first `min(3, n)` provider URLs, in rank order. |
| `SearchLogic.KeepSources` | search_logic.py:66-68 | the loop keeps no more entries than results. A source is kept exactly when it is one of the non-`None` results. |
| `SearchLogic.SuccessfulSources` | search_logic.py:63-68 | there are no more sources than URLs. Every source is `{u, summary}` for a listed URL `u` whose fetch succeeded, and every successful fetch gives such a source. |
| `SearchLogic.GatherKeepsRankOrder` | search_logic.py:63-68 | gathering the fetches and keeping the non-`None` results gives exactly the successful sources in URL rank order. |
| `SearchLogic.GatherEscapes` | search_logic.py:63-64 | gather raises exactly when some fetch raised an exception other than `ClientError`. |
| `SearchLogic.ClientErrorIsolated` | search_logic.py:38-41 | turning one URL's fetch into a `ClientError` removes that URL's source. Every other source stays as it was, in the same order. |
| `SearchLogic.SuccessfulLocal` | search_logic.py:63 | the sources and the escape decision depend only on the fetches of the listed URLs. |
| `WikiApi.Lookup` | search_logic.py:81-106 | the lookup finds nothing on a caught request error, on an empty hit list, or on an absent, empty or missing page. A missing `title` key or an uncaught exception escapes. Otherwise it finds the first hit's title with the first page's extract, defaulting to `""`. |
| `WikiApi.LookupReadsFirstOnly` | search_logic.py:91-98 | only the first search hit and the first page matter. Dropping every later hit and page leaves the lookup's outcome unchanged. |
| `SharedLookup.SummaryIffFallbackSource` | model.py:55-93 | on the same replies, model.py finds a summary exactly when search_logic.py's fallback finds a source, and the summary is that source's content after the cleanup. Both raise on the same replies. |
| `SearchLogic.WikipediaFallback` | search_logic.py:75-106 | the fallback returns at most one source and the query unchanged. A found page gives the URL `https://en.wikipedia.org/wiki/` plus the title with spaces replaced by `_`, and the raw extract as content. Otherwise there is no source. It escapes exactly when the lookup does. |
| `SearchLogic.BrowserSearch` | search_logic.py:43-73 | the query is returned unchanged, with at most three sources. A failed web search, or a fetch raising a non-`ClientError`, gives exactly the fallback's result and drops fetched sources. No hits gives the fallback's result, or a second fallback's if the first raised. Otherwise the sources are the successful fetches of the top three URLs in rank order. |
| `SearchLogic.OnlyTopUrlsFetched` | search_logic.py:52-63 | fetch outcomes of URLs beyond the first three never change the result. |
| `SearchLogic.NoHitsMeansFallback` | search_logic.py:56-57 | no web hits, with a repeat lookup getting the same replies, gives exactly the fallback's result. |
| `SearchLogic.AllFetchesFailed` | search_logic.py:61-73 | hits whose fetches all fail with `ClientError` give no sources and no fallback. The formatted output is the "not found" record. |
| `SearchLogic.FormatResult` | search_logic.py:119-124 | non-empty sources give a summary record carrying the query and the unchanged sources. Empty sources give exactly the fixed error message, with no query field. |
| `SearchLogic.FormatResults` | search_logic.py:118-124 | the output has one record per result, in the same order. |
| `SearchLogic.MainCli` | search_logic.py:108-126 | no argument gives the usage error. Otherwise there is one record per query, in order, each formatting that query's own search. The run aborts exactly when some search escapes. |
| `Api.Search` | main.py:12-33 | there is one record per query, in query order. Record `i` is a summary carrying query `i` and its sources unchanged, or exactly the error record when that query found no source. The request fails exactly when some search escapes. |
| `WikiService.AsksForIndianPm` | model.py:16 | the trigger holds exactly when `pm of india` or `prime minister of india` occurs at some index of the lower-cased query. |
| `WikiService.TriggerIgnoresCase` | model.py:16 | lower-casing the query before the check does not change the trigger. |
| `WikiService.CapitalisedKeywordTriggers` | model.py:16 | `Who is the PM of India` triggers the Wikidata request. |
| `WikiService.WikidataAnswer` | model.py:11-35 | there is no answer unless the trigger holds. When it holds, a first binding with `personLabel` gives exactly that label. No bindings gives `None`. A failed request, or a first binding without `personLabel`, escapes. |
| `Parens.FindClose` | model.py:86 | the `)` found after a `(` is the nearest one on the same line. When none is found, every later `)` is preceded by a newline. |
| `Parens.FindCloseIsLazyMatch` | model.py:86 | at a `(`, the lazy `\(.*?\)` matches exactly up to the `)` that `FindClose` finds. |
| `Parens.SpanUnique` | model.py:86 | a `(` starts at most one match: the nearest `)` on its line. |
| `Parens.RemoveParens` | model.py:86 | the substitution returns a subsequence of its input, leaving no `(` followed by a `)` on the same line. It leaves text without a match unchanged, and it never adds a `)` to a line prefix that had none. |
| `Parens.RemoveParensAtMatch` | model.py:86 | where a match starts at the first character, the substitution deletes exactly that match, through its `)`, and continues after it. |
| `Parens.RemoveParensKeeps` | model.py:86 | where no match starts at the first character, the substitution keeps that character and continues with the next. Together with `RemoveParensAtMatch`, this fixes the result on every input. |
| `Parens.RemoveParensExample` | model.py:86 | the substitution turns `a(b)c` into `ac`. |
| `Parens.RemoveParensIdentityIff` | model.py:86 | the substitution changes a text exactly when the pattern matches somewhere in it. |
| `Parens.Cleanup` | model.py:86 | the cleaned summary contains no match of the pattern and has no surrounding whitespace. It is a subsequence of the extract. Which characters go is fixed by `RemoveParensAtMatch` and `RemoveParensKeeps`, because the cleanup strips the substitution's result. |
| `Parens.CleanupIdempotent` | model.py:86 | cleaning a cleaned summary changes nothing. |
| `WikiService.SearchWikipediaSummary` | model.py:37-93 | the summary is `None` when the search has no hit, the page is absent, empty or missing, or a `RequestException` was raised. Otherwise it is the cleaned extract. Other exceptions escape. |
| `WikiService.Main` | model.py:95-123 | a missing argument gives the usage error. A non-empty precise answer always wins. The summary is used only when no precise answer exists. An empty or absent summary gives "not found", and every answer printed is non-empty. |

## Left out

- Network I/O is left out. That covers the DDGS search, the aiohttp and requests
  sessions, the Wikipedia and Wikidata HTTP calls, request headers and timeouts.
  Their results are the input datatypes `WebSearch`, `Fetch`, `WikiApi.Replies`
  and `SparqlReply`.
- `strip_html_tags` (search_logic.py:23-27) is left out. It wraps BeautifulSoup,
  whose behaviour is not part of this model, so `Fetched` carries its output.
- Concurrency is left out, both inside one query and across queries. Each
  `gather` is an ordered map, which matches gather's ordering of results.
  Because fetches are a per-URL oracle, a URL listed twice gets the same outcome
  both times. Likewise the world is a per-query oracle, so a query listed twice
  gets the same search and the same fetches. In main.py and search_logic.py those
  are two independent network runs.
- JSON parsing and printing are left out, as are `sys.argv` handling beyond
  "is there an argument", exit statuses, stderr logging, and the FastAPI and
  pydantic plumbing.
- Malformed replies are left out where a reply field is not a string or has the
  wrong shape, for example a `query.search` that is not a list. The one such
  failure modelled is a missing key, which raises `KeyError`: `title` in a search
  hit, `personLabel` in a binding, `href` in a DDGS hit.
- Unicode semantics of `\w`, `\s`, `str.strip` and `str.lower` are left out. The
  model uses only their ASCII parts.
- `SharedLookup.SummaryIffFallbackSource` compares the two lookups on equal replies
  only. model.py requests only the article's introduction (`exintro`), with a
  5-second timeout, while search_logic.py requests the whole article. On one query
  the two extracts therefore normally differ.
- `WikiApi.IsLivePage` treats a page as a non-empty map of string values. A page
  whose every value is a non-string, such as `{"pageid": 1}`, is truthy in Python.
  The model would count it as empty, because JSON values other than strings are
  not modelled.
- `WikiService.WikidataAnswer`: a binding whose `personLabel` lacks a `value` key
  is not modelled separately. The flattened binding treats it like a missing
  `personLabel`, which also escapes.
- The JSON response of the search flow also carries `indent=2` formatting. That
  formatting is left out, because only the records' content is modelled.
