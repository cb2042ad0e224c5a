/** The request handler: it answers anything but a POST with 405, asks the
    language model for search terms, falls back to the user's message when the
    answer is not JSON, searches the catalog once per term, and replies with the
    formatted products and a fixed sentence naming the terms. Every failure
    that escapes the steps above becomes one fixed 500 error. */
module Chat {

  import opened Options
  import opened JsValues
  import opened Catalog
  import opened Pipeline

  /** The parts of the HTTP request the handler reads: its method (`verb`)
      and the `message` field of its body. */
  datatype Request = Request(verb: string, message: string)

  /** The outcome of the chat completion call, as the handler sees it: the
      call failed (or its answer had no message to read), or it answered and
      `JSON.parse` of the answer gave a value or threw (`None`). */
  datatype Completion = Unavailable | Answered(parsed: Option<Json>)

  /** An external call the handler makes. */
  datatype Call = AskModel(message: string) | Search(url: string)

  /** What the handler sends: a plain text body, a JSON error, or the reply. */
  datatype Response =
    | Text(status: nat, text: string)
    | Failure(status: nat, error: string)
    | Reply(status: nat, aiReply: string, products: seq<Product>)

  /** The calls one request makes, in the order it issues them, and its response. */
  datatype Exchange = Exchange(calls: seq<Call>, response: Response)

  const NotAllowed := "Method not allowed"
  const ServerError := "Error conectando con la IA o VTEX"
  const ReplyPrefix := "Busqué productos para: "

  /** The value `searchTerms` holds after the parse: the parsed value, or a
      one-element list holding the user's message when the parse threw. */
  function SearchTerms(message: string, parsed: Option<Json>): Json {
    match parsed
    case None => JArray([JString(message)])
    case Some(v) => v
  }

  /** The URL searched for one term, or `None` when converting the term to a
      string throws, so that its callback rejects before it fetches. */
  function TermUrl(account: string, encode: string -> string, term: Json): (url: Option<string>)
    ensures url.Some? <==> ToJsString(term).Some?
    ensures url.Some? ==> EncodedTermOf(account, url.value) == Some(encode(ToJsString(term).value))
  {
    match ToJsString(term)
    case None => None
    case Some(s) =>
      SearchUrlRoundTrip(account, encode(s));
      Some(SearchUrl(account, encode(s)))
  }

  /** One URL per term, in term order, each carrying the escaped term; a term
      that cannot be converted gets none. */
  function SearchUrls(account: string, encode: string -> string, terms: seq<Json>): (urls: seq<Option<string>>)
    ensures |urls| == |terms|
    ensures forall i :: 0 <= i < |terms| ==> (urls[i].Some? <==> ToJsString(terms[i]).Some?)
    ensures forall i :: 0 <= i < |terms| && urls[i].Some? ==>
              EncodedTermOf(account, urls[i].value) == Some(encode(ToJsString(terms[i]).value))
  {
    seq(|terms|, i requires 0 <= i < |terms| => TermUrl(account, encode, terms[i]))
  }

  /** How each term's promise settles; `fetch(i, url)` is the outcome of the
      `i`-th term's request. A term without a URL rejects. */
  function Responses(urls: seq<Option<string>>, fetch: (nat, string) -> TermResponse): seq<TermResponse> {
    seq(|urls|, i requires 0 <= i < |urls| => if urls[i].Some? then fetch(i, urls[i].value) else Failed)
  }

  /** The calls made once the terms are known: the model call, then one
      search per URL, in term order, all issued before any is awaited. */
  function SearchCalls(message: string, urls: seq<Option<string>>): (calls: seq<Call>)
    ensures |calls| == |NonNull(urls)| + 1 && calls[0] == AskModel(message)
    ensures forall i :: 0 <= i < |NonNull(urls)| ==> calls[i + 1] == Search(NonNull(urls)[i])
  {
    var sent := NonNull(urls);
    [AskModel(message)] + seq(|sent|, i requires 0 <= i < |sent| => Search(sent[i]))
  }

  /** The response once the searches are settled. It is the reply exactly
      when every search resolved, every record left after flattening and
      filtering has the fields the projection reads, and the terms can be
      joined; the reply then holds one product per record, formatted from
      it. Anything else is the fixed error. */
  function Answer(settled: Option<seq<Body>>, terms: seq<Json>): (r: Response)
    ensures settled.None? ==> r == Failure(500, ServerError)
    ensures settled.Some? ==>
      var records := NonNull(Flat(settled.value));
      (r.Reply? <==> AllWellShaped(records) && Join(terms, ", ").Some?)
    ensures r.Reply? ==>
      && settled.Some? && Join(terms, ", ").Some?
      && r.status == 200 && r.aiReply == ReplyPrefix + Join(terms, ", ").value
      && var records := NonNull(Flat(settled.value));
         && |r.products| == |records|
         && forall j :: 0 <= j < |records| ==> FormattedFrom(records[j], r.products[j])
    ensures !r.Reply? ==> r == Failure(500, ServerError)
  {
    match settled
    case None => Failure(500, ServerError)
    case Some(results) =>
      match Products(results)
      case None =>
        assert FormatAll(NonNull(Flat(results))).None?;
        Failure(500, ServerError)
      case Some(products) =>
        match Join(terms, ", ")
        case None => Failure(500, ServerError)
        case Some(joined) => Reply(200, ReplyPrefix + joined, products)
  }

  function Handle(req: Request, account: string, encode: string -> string,
                  model: Completion, fetch: (nat, string) -> TermResponse): (x: Exchange)
    ensures req.verb != "POST" <==> x.response == Text(405, NotAllowed)
    ensures req.verb != "POST" ==> x.calls == []
    ensures req.verb == "POST" ==> |x.calls| > 0 && x.calls[0] == AskModel(req.message)
    ensures model.Unavailable? && req.verb == "POST" ==> x == Exchange([AskModel(req.message)], Failure(500, ServerError))
    ensures x.response.Failure? ==> x.response == Failure(500, ServerError)
    ensures x.response.Reply? ==> x.response.status == 200
    ensures x.response.Reply? ==> |ReplyPrefix| <= |x.response.aiReply| && x.response.aiReply[..|ReplyPrefix|] == ReplyPrefix
  {
    if req.verb != "POST" then Exchange([], Text(405, NotAllowed))
    else
      match model
      case Unavailable => Exchange([AskModel(req.message)], Failure(500, ServerError))
      case Answered(parsed) =>
        var terms := SearchTerms(req.message, parsed);
        if !terms.JArray? then Exchange([AskModel(req.message)], Failure(500, ServerError))
        else
          var urls := SearchUrls(account, encode, terms.elems);
          Exchange(SearchCalls(req.message, urls), Answer(Settle(Responses(urls, fetch)), terms.elems))
  }

  /** Unfolds `Handle` for a POST whose terms form a list. */
  lemma HandleSearches(req: Request, account: string, encode: string -> string,
                       parsed: Option<Json>, ts: seq<Json>, fetch: (nat, string) -> TermResponse)
    requires req.verb == "POST" && SearchTerms(req.message, parsed) == JArray(ts)
    ensures var urls := SearchUrls(account, encode, ts);
      Handle(req, account, encode, Answered(parsed), fetch)
        == Exchange(SearchCalls(req.message, urls), Answer(Settle(Responses(urls, fetch)), ts))
  {
  }

  /** When the model's answer is not JSON, the only term is the user's
      message: one search for it, and a reply naming exactly the message. */
  lemma FallbackSearchesMessage(req: Request, account: string, encode: string -> string,
                                fetch: (nat, string) -> TermResponse)
    requires req.verb == "POST"
    ensures var x := Handle(req, account, encode, Answered(None), fetch);
      && x.calls == [AskModel(req.message), Search(SearchUrl(account, encode(req.message)))]
      && (x.response.Reply? ==> x.response.aiReply == ReplyPrefix + req.message)
  {
    var terms := [JString(req.message)];
    HandleSearches(req, account, encode, None, terms, fetch);
    var urls := SearchUrls(account, encode, terms);
    assert urls == [Some(SearchUrl(account, encode(req.message)))];
    assert NonNull(urls) == [SearchUrl(account, encode(req.message))] + NonNull(urls[1..]);
    JoinOfStrings(terms, ", ");
    assert seq(1, i requires 0 <= i < 1 => terms[i].s) == [req.message];
  }

  /** When the answer parses to a list whose elements all convert to strings,
      the model call is followed by one search per element, in element order. */
  lemma ParsedListIsSearched(req: Request, account: string, encode: string -> string,
                             ts: seq<Json>, fetch: (nat, string) -> TermResponse)
    requires req.verb == "POST"
    requires forall i :: 0 <= i < |ts| ==> ToJsString(ts[i]).Some?
    ensures var x := Handle(req, account, encode, Answered(Some(JArray(ts))), fetch);
      && |x.calls| == |ts| + 1
      && forall i :: 0 <= i < |ts| ==> x.calls[i + 1] == Search(SearchUrl(account, encode(ToJsString(ts[i]).value)))
  {
    var urls := SearchUrls(account, encode, ts);
    NonNullAllPresent(urls);
  }

  /** A term whose conversion to a string throws is never searched, and its
      rejection fails the whole request. */
  lemma UnprintableTermFails(req: Request, account: string, encode: string -> string,
                             parsed: Option<Json>, ts: seq<Json>,
                             fetch: (nat, string) -> TermResponse, k: nat)
    requires req.verb == "POST" && SearchTerms(req.message, parsed) == JArray(ts)
    requires k < |ts| && ToJsString(ts[k]).None?
    ensures var x := Handle(req, account, encode, Answered(parsed), fetch);
      && x.response == Failure(500, ServerError)
      && |x.calls| <= |ts|
  {
    HandleSearches(req, account, encode, parsed, ts, fetch);
    var urls := SearchUrls(account, encode, ts);
    assert Responses(urls, fetch)[k].Failed?;
    NonNullCount(urls);
    assert urls[k] in multiset(urls);
  }

  /** An answer that parses to something other than a list cannot be mapped
      over: the request fails after the model call, with no search. */
  lemma ParsedNonListFails(req: Request, account: string, encode: string -> string,
                           v: Json, fetch: (nat, string) -> TermResponse)
    requires req.verb == "POST" && !v.JArray?
    ensures Handle(req, account, encode, Answered(Some(v)), fetch)
         == Exchange([AskModel(req.message)], Failure(500, ServerError))
  {
  }

  /** The request is answered exactly when `Promise.all` resolves and every
      record left after flattening and filtering has the fields the projection
      reads; product `j` is then formatted from record `j`. There is never a
      partial product list. */
  lemma SucceedsExactly(req: Request, account: string, encode: string -> string,
                        parsed: Option<Json>, ts: seq<Json>, fetch: (nat, string) -> TermResponse)
    requires req.verb == "POST" && SearchTerms(req.message, parsed) == JArray(ts)
    ensures var rs := Responses(SearchUrls(account, encode, ts), fetch);
      var x := Handle(req, account, encode, Answered(parsed), fetch);
      x.response.Reply? <==> Settle(rs).Some? && AllWellShaped(NonNull(Flat(Settle(rs).value)))
    ensures var rs := Responses(SearchUrls(account, encode, ts), fetch);
      var x := Handle(req, account, encode, Answered(parsed), fetch);
      x.response.Reply? ==>
        && Settle(rs).Some?
        && var records := NonNull(Flat(Settle(rs).value));
           && |x.response.products| == |records|
           && forall j :: 0 <= j < |records| ==> FormattedFrom(records[j], x.response.products[j])
  {
    HandleSearches(req, account, encode, parsed, ts, fetch);
    var settled := Settle(Responses(SearchUrls(account, encode, ts), fetch));
    var x := Handle(req, account, encode, Answered(parsed), fetch);
    assert x.response == Answer(settled, ts);
    if settled.Some? {
      SettledTermsPrint(account, encode, ts, fetch);
      JoinOfPrintable(ts, ", ");
    }
  }

  /** A reply means every term converted to a string, and its text is the
      prefix followed by the terms joined with ", ". */
  lemma ReplyNamesTerms(req: Request, account: string, encode: string -> string,
                        parsed: Option<Json>, ts: seq<Json>, fetch: (nat, string) -> TermResponse)
    requires req.verb == "POST" && SearchTerms(req.message, parsed) == JArray(ts)
    requires Handle(req, account, encode, Answered(parsed), fetch).response.Reply?
    ensures forall i :: 0 <= i < |ts| ==> ToJsString(ts[i]).Some?
    ensures Join(ts, ", ").Some?
    ensures Handle(req, account, encode, Answered(parsed), fetch).response.aiReply == ReplyPrefix + Join(ts, ", ").value
  {
    HandleSearches(req, account, encode, parsed, ts, fetch);
    SettledTermsPrint(account, encode, ts, fetch);
  }

  /** Every search resolving means every term converted to a string. */
  lemma SettledTermsPrint(account: string, encode: string -> string, ts: seq<Json>,
                          fetch: (nat, string) -> TermResponse)
    requires Settle(Responses(SearchUrls(account, encode, ts), fetch)).Some?
    ensures forall i :: 0 <= i < |ts| ==> ToJsString(ts[i]).Some?
  {
    var urls := SearchUrls(account, encode, ts);
    ResolvedHaveUrls(urls, fetch);
    forall i | 0 <= i < |ts|
      ensures ToJsString(ts[i]).Some?
    {
      assert urls[i].Some?;
    }
  }

  /** A term whose search is not ok loses only its own products: the
      products of the terms before it and after it stay, in order. */
  lemma NotOkTermLosesOnlyItsProducts(req: Request, account: string, encode: string -> string,
                                      parsed: Option<Json>, ts: seq<Json>,
                                      fetch: (nat, string) -> TermResponse, k: nat)
    requires req.verb == "POST" && SearchTerms(req.message, parsed) == JArray(ts) && k < |ts|
    requires Handle(req, account, encode, Answered(parsed), fetch).response.Reply?
    ensures Settle(Responses(SearchUrls(account, encode, ts), fetch)).Some?
    ensures var results := Settle(Responses(SearchUrls(account, encode, ts), fetch)).value;
      Products(results[..k]).Some? && Products([results[k]]).Some? && Products(results[k + 1..]).Some?
    ensures var results := Settle(Responses(SearchUrls(account, encode, ts), fetch)).value;
      var x := Handle(req, account, encode, Answered(parsed), fetch);
      var y := Handle(req, account, encode, Answered(parsed), NotOkAt(fetch, k));
      && x.response.products
         == Products(results[..k]).value + Products([results[k]]).value + Products(results[k + 1..]).value
      && y.calls == x.calls
      && y.response == Reply(200, x.response.aiReply,
                             Products(results[..k]).value + Products(results[k + 1..]).value)
  {
    HandleSearches(req, account, encode, parsed, ts, fetch);
    HandleSearches(req, account, encode, parsed, ts, NotOkAt(fetch, k));
    var urls := SearchUrls(account, encode, ts);
    var rs := Responses(urls, fetch);
    assert Settle(rs).Some?;
    assert !rs[k].Failed?;
    ResponsesWithNotOk(urls, fetch, k);
    SoftFailure(rs, k);
    ProductsByBlocks(Settle(rs).value, k);
  }

  /** The same searches, except that the `k`-th one is answered not ok. */
  function NotOkAt(fetch: (nat, string) -> TermResponse, k: nat): (nat, string) -> TermResponse {
    (i: nat, u: string) => if i == k then NotOk else fetch(i, u)
  }

  /** Every search resolving means every term had a URL. */
  lemma ResolvedHaveUrls(urls: seq<Option<string>>, fetch: (nat, string) -> TermResponse)
    requires Settle(Responses(urls, fetch)).Some?
    ensures forall i :: 0 <= i < |urls| ==> urls[i].Some?
  {
    var rs := Responses(urls, fetch);
    forall i | 0 <= i < |urls|
      ensures urls[i].Some?
    {
      assert !rs[i].Failed?;
      assert rs[i] == if urls[i].Some? then fetch(i, urls[i].value) else Failed;
    }
  }

  lemma ResponsesWithNotOk(urls: seq<Option<string>>, fetch: (nat, string) -> TermResponse, k: nat)
    requires k < |urls| && urls[k].Some?
    ensures Responses(urls, NotOkAt(fetch, k)) == Responses(urls, fetch)[k := NotOk]
  {
  }

  /** Searches where the first is not ok and every later one finds `good`. */
  function FirstNotOk(good: Record): (nat, string) -> TermResponse {
    (i: nat, u: string) => if i == 0 then NotOk else Ok(Many([Some(good)]))
  }

  /** One of two searches is not ok and the other finds one complete record:
      the request still succeeds, with exactly that product. */
  lemma OneFailedSearchStillAnswers(account: string, encode: string -> string, good: Record)
    requires WellShaped(good)
    ensures var terms := JArray([JString("carbon"), JString("chorizo")]);
      Handle(Request("POST", "quiero hacer un asado"), account, encode, Answered(Some(terms)), FirstNotOk(good)).response
        == Reply(200, "Busqué productos para: carbon, chorizo", [Project(good)])
  {
    var ts := [JString("carbon"), JString("chorizo")];
    HandleSearches(Request("POST", "quiero hacer un asado"), account, encode, Some(JArray(ts)), ts, FirstNotOk(good));
    var urls := SearchUrls(account, encode, ts);
    assert TermUrl(account, encode, ts[0]).Some? && TermUrl(account, encode, ts[1]).Some?;
    var rs := Responses(urls, FirstNotOk(good));
    assert rs[0] == NotOk && rs[1] == Ok(Many([Some(good)]));
    assert rs == [NotOk, Ok(Many([Some(good)]))];
    OneCompleteRecord(good);
    TwoTermReply();
    var results := [Many([]), Many([Some(good)])];
    assert Answer(Some(results), ts) == Reply(200, ReplyPrefix + "carbon, chorizo", [Project(good)]);
  }

  lemma TwoTermReply()
    ensures Join([JString("carbon"), JString("chorizo")], ", ") == Some("carbon, chorizo")
    ensures ReplyPrefix + "carbon, chorizo" == "Busqué productos para: carbon, chorizo"
  {
    var ts := [JString("carbon"), JString("chorizo")];
    JoinOfStrings(ts, ", ");
    var strs := ["carbon", "chorizo"];
    assert seq(|ts|, i requires 0 <= i < |ts| => ts[i].s) == strs;
    assert strs[1..] == ["chorizo"];
    assert JoinStrings(strs, ", ") == "carbon" + ", " + "chorizo";
    assert "carbon" + ", " + "chorizo" == "carbon, chorizo";
  }

  lemma OneCompleteRecord(good: Record)
    requires WellShaped(good)
    ensures Settle([NotOk, Ok(Many([Some(good)]))]) == Some([Many([]), Many([Some(good)])])
    ensures Products([Many([]), Many([Some(good)])]) == Some([Project(good)])
  {
    var rs := [NotOk, Ok(Many([Some(good)]))];
    var results := [Many([]), Many([Some(good)])];
    var last := [Ok(Many([Some(good)]))];
    assert Settle(last[1..]) == Some([]);
    assert [Settled(last[0])] + [] == [Many([Some(good)])];
    assert Settle(last) == Some([Many([Some(good)])]);
    assert rs[1..] == last;
    assert [Settled(rs[0])] + [Many([Some(good)])] == results;
    assert results[1..] == [Many([Some(good)])] && results[1..][1..] == [];
    assert Flat(results[1..]) == [Some(good)];
    assert Flat(results) == [Some(good)];
    assert NonNull([Some(good)]) == [good];
    assert FormatAll([good][1..]) == Some([]);
    assert [Project(good)] + [] == [Project(good)];
  }

  /** When every term is a string without a comma and there is at least one,
      the reply can be read back into the list of terms. */
  lemma ReplyListsTerms(req: Request, account: string, encode: string -> string,
                        parsed: Option<Json>, ts: seq<Json>, fetch: (nat, string) -> TermResponse)
    requires req.verb == "POST" && SearchTerms(req.message, parsed) == JArray(ts) && |ts| > 0
    requires forall i :: 0 <= i < |ts| ==> ts[i].JString? && Lacks(ts[i].s, ',')
    requires Handle(req, account, encode, Answered(parsed), fetch).response.Reply?
    ensures var reply := Handle(req, account, encode, Answered(parsed), fetch).response.aiReply;
      Split(reply[|ReplyPrefix|..], ", ") == seq(|ts|, i requires 0 <= i < |ts| => ts[i].s)
  {
    HandleSearches(req, account, encode, parsed, ts, fetch);
    var strs := seq(|ts|, i requires 0 <= i < |ts| => ts[i].s);
    JoinOfStrings(ts, ", ");
    SplitJoin(strs, ", ");
    var reply := Handle(req, account, encode, Answered(parsed), fetch).response.aiReply;
    assert reply == ReplyPrefix + JoinStrings(strs, ", ");
    assert reply[|ReplyPrefix|..] == JoinStrings(strs, ", ");
  }
}
