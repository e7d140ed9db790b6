/** model.py, the Wikipedia/Wikidata microservice: a precise answer from Wikidata
    for the one query intent it recognises, else the cleaned introduction of the
    best-matching Wikipedia article. The HTTP calls are not modelled; their
    replies are inputs. */
module WikiService {
  import opened Outcomes
  import opened Text
  import opened Parens
  import opened WikiApi

  const PmKeyword := "pm of india"
  const PrimeMinisterKeyword := "prime minister of india"

  /** The keyword trigger of `get_wikidata_answer`: one of the two keywords occurs
      somewhere in the lower-cased query. */
  function AsksForIndianPm(query: string): (asks: bool)
    ensures asks <==> exists at :: OccursAt(Lower(query), PmKeyword, at) || OccursAt(Lower(query), PrimeMinisterKeyword, at)
  {
    ContainsIffOccurs(Lower(query), PmKeyword);
    ContainsIffOccurs(Lower(query), PrimeMinisterKeyword);
    Contains(Lower(query), PmKeyword) || Contains(Lower(query), PrimeMinisterKeyword)
  }

  /** The Wikidata SPARQL reply: the result bindings, each reduced to a map from
      variable name to its `value`, or the exception raised by the request or the
      JSON decoding (none is caught in `get_wikidata_answer`). */
  datatype SparqlReply = SparqlRaised | SparqlRows(bindings: seq<JsonObject>)

  /** `get_wikidata_answer`. Without the trigger no request is made and the answer
      is `None`; with it, the answer is the first binding's `personLabel`, `None`
      when there is no binding, and an escaping exception when the reply raised or
      the first binding lacks `personLabel`. */
  function WikidataAnswer(query: string, reply: SparqlReply): (r: Outcome<Option<string>>)
    ensures !AsksForIndianPm(query) ==> r == Done(None)
    ensures AsksForIndianPm(query) && reply == SparqlRows([]) ==> r == Done(None)
    ensures AsksForIndianPm(query) && reply.SparqlRows? && |reply.bindings| > 0 && "personLabel" in reply.bindings[0] ==>
              r == Done(Some(reply.bindings[0]["personLabel"]))
    ensures r.Escaped? <==>
              && AsksForIndianPm(query)
              && (reply.SparqlRaised? || (|reply.bindings| > 0 && "personLabel" !in reply.bindings[0]))
    ensures r.Done? && r.value.Some? ==>
              && AsksForIndianPm(query)
              && reply.SparqlRows?
              && |reply.bindings| > 0
              && "personLabel" in reply.bindings[0]
              && r.value.value == reply.bindings[0]["personLabel"]
  {
    if !AsksForIndianPm(query) then Done(None)
    else
      match reply
      case SparqlRaised => Escaped
      case SparqlRows(bindings) =>
        if bindings == [] then Done(None)
        else if "personLabel" !in bindings[0] then Escaped
        else Done(Some(bindings[0]["personLabel"]))
  }

  /** The trigger ignores letter case: lower-casing the query first changes
      nothing. */
  lemma TriggerIgnoresCase(query: string)
    ensures AsksForIndianPm(Lower(query)) == AsksForIndianPm(query)
  {
    LowerIdempotent(query);
  }

  /** A keyword in capitals still triggers the Wikidata request. */
  lemma CapitalisedKeywordTriggers()
    ensures AsksForIndianPm("Who is the PM of India")
  {
    var q := "Who is the PM of India";
    assert Lower(q)[11..22] == PmKeyword;
    assert OccursAt(Lower(q), PmKeyword, 11);
  }

  /** `search_wikipedia_summary`: `None` when the search has no hit, the page is
      missing or a `RequestException` was raised; otherwise the page's extract
      after the parenthesis cleanup. */
  function SearchWikipediaSummary(replies: Replies): (r: Outcome<Option<string>>)
    ensures r.Escaped? <==> Lookup(replies).Escaped?
    ensures r.Done? ==> (r.value.None? <==> Lookup(replies).value.None?)
    ensures r.Done? && r.value.Some? ==>
              && r.value.value == Cleanup(Lookup(replies).value.value.extract)
              && NoSpan(r.value.value)
              && IsStripped(r.value.value)
  {
    match Lookup(replies)
    case Escaped => Escaped
    case Done(None) => Done(None)
    case Done(Some(page)) => Done(Some(Cleanup(page.extract)))
  }

  /** Python truthiness of an optional string: present and non-empty. */
  predicate Found(answer: Option<string>) {
    answer.Some? && answer.value != ""
  }

  /** How `main` ends: a usage error when no query is given (exit status 1), the
      printed `{"answer": ...}` (exit status 0), the "not found" error (exit status
      1), or an uncaught exception. */
  datatype ServiceReply = Usage | Answer(answer: string) | NotFound | Crashed

  /** `main`: the first command-line argument is the query. A non-empty precise
      answer wins; the Wikipedia summary is consulted only without one; an empty
      answer of either kind counts as not found. */
  function Main(args: seq<string>, sparql: SparqlReply, wiki: Replies): (r: ServiceReply)
    ensures r == Usage <==> args == []
    ensures r.Answer? ==> r.answer != ""
    ensures args != [] && WikidataAnswer(args[0], sparql).Done? && Found(WikidataAnswer(args[0], sparql).value) ==>
              r == Answer(WikidataAnswer(args[0], sparql).value.value)
    ensures r.Answer? && !(WikidataAnswer(args[0], sparql).Done? && Found(WikidataAnswer(args[0], sparql).value)) ==>
              SearchWikipediaSummary(wiki) == Done(Some(r.answer))
    ensures args != [] && WikidataAnswer(args[0], sparql).Done? && !Found(WikidataAnswer(args[0], sparql).value) ==>
              && (SearchWikipediaSummary(wiki).Done? && !Found(SearchWikipediaSummary(wiki).value) <==> r == NotFound)
              && (SearchWikipediaSummary(wiki).Escaped? <==> r == Crashed)
    ensures args != [] && WikidataAnswer(args[0], sparql).Escaped? ==> r == Crashed
  {
    if args == [] then Usage
    else
      match WikidataAnswer(args[0], sparql)
      case Escaped => Crashed
      case Done(precise) =>
        if Found(precise) then Answer(precise.value)
        else
          match SearchWikipediaSummary(wiki)
          case Escaped => Crashed
          case Done(summary) =>
            if Found(summary) then Answer(summary.value) else NotFound
  }
}
