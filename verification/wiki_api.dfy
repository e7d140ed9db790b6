/** The decision logic of the two-step MediaWiki lookup, which
    `wikipedia_fallback_search` (search_logic.py) and `search_wikipedia_summary`
    (model.py) share. The first step is a `list=search` request limited to one hit.
    The second is a `prop=extracts` request for that hit's title, for the
    introduction only in model.py. The HTTP calls are not modelled; their replies
    are inputs. */
module WikiApi {
  import opened Outcomes

  /** A JSON object of a reply. Every value the lookups read is a string, so an
      object is a map from keys to strings. */
  type JsonObject = map<string, string>

  /** Reply to the `list=search` request: the objects of `query.search`, or the
      exception the request, `raise_for_status` or the JSON decoding raised. A
      reply without `query.search` reads as no hits (`.get(..., [])`). */
  datatype SearchStep = SearchRaised(failure: Failure) | SearchHits(hits: seq<JsonObject>)

  /** Reply to the `prop=extracts` request: the values of `query.pages` in order, or
      the exception raised while obtaining them. */
  datatype ExtractStep = ExtractRaised(failure: Failure) | ExtractPages(pages: seq<JsonObject>)

  datatype Replies = Replies(search: SearchStep, extract: ExtractStep)

  /** The page found: its title and its plain-text extract. */
  datatype Page = Page(title: string, extract: string)

  /** `page and "missing" not in page` for `page = next(iter(pages.values()), None)`:
      there is a first page, it is a non-empty dict, and it is not marked missing. */
  predicate IsLivePage(pages: seq<JsonObject>) {
    |pages| > 0 && |pages[0]| > 0 && "missing" !in pages[0]
  }

  /** `page.get("extract", "")`. */
  function ExtractOf(page: JsonObject): string {
    if "extract" in page then page["extract"] else ""
  }

  /** The lookup: `None` on a caught request error, no hit or a missing page; the
      first hit's page otherwise. Any other exception, and the `KeyError` of a hit
      without a title, escapes. */
  function Lookup(replies: Replies): (r: Outcome<Option<Page>>)
    ensures r == Done(None) <==>
              || replies.search == SearchRaised(RequestError)
              || replies.search == SearchHits([])
              || (&& replies.search.SearchHits?
                  && |replies.search.hits| > 0
                  && "title" in replies.search.hits[0]
                  && (|| replies.extract == ExtractRaised(RequestError)
                      || (replies.extract.ExtractPages? && !IsLivePage(replies.extract.pages))))
    ensures r.Escaped? <==>
              || replies.search == SearchRaised(OtherError)
              || (&& replies.search.SearchHits?
                  && |replies.search.hits| > 0
                  && ("title" !in replies.search.hits[0] || replies.extract == ExtractRaised(OtherError)))
    ensures r.Done? && r.value.Some? ==>
              && replies.search.SearchHits?
              && |replies.search.hits| > 0
              && "title" in replies.search.hits[0]
              && replies.extract.ExtractPages?
              && IsLivePage(replies.extract.pages)
              && r.value.value == Page(replies.search.hits[0]["title"], ExtractOf(replies.extract.pages[0]))
  {
    match replies.search
    case SearchRaised(RequestError) => Done(None)
    case SearchRaised(OtherError) => Escaped
    case SearchHits(hits) =>
      if hits == [] then Done(None)
      else if "title" !in hits[0] then Escaped
      else
        match replies.extract
        case ExtractRaised(RequestError) => Done(None)
        case ExtractRaised(OtherError) => Escaped
        case ExtractPages(pages) =>
          if IsLivePage(pages) then Done(Some(Page(hits[0]["title"], ExtractOf(pages[0]))))
          else Done(None)
  }

  /** At most the first element of `xs`: `srlimit=1`, `next(iter(...))`. */
  function First<T>(xs: seq<T>): (f: seq<T>)
    ensures |f| <= 1 && f <= xs
    ensures xs != [] ==> f == [xs[0]]
  {
    if xs == [] then [] else [xs[0]]
  }

  /** Only the first search hit and the first page matter: dropping the others
      leaves the lookup unchanged. */
  lemma LookupReadsFirstOnly(hits: seq<JsonObject>, pages: seq<JsonObject>)
    ensures Lookup(Replies(SearchHits(hits), ExtractPages(pages)))
         == Lookup(Replies(SearchHits(First(hits)), ExtractPages(First(pages))))
  {
  }
}
