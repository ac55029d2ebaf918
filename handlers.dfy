/** The request-level decisions of the `/search`, `/match` and `/detail` routes: which
    requests are refused before any upstream call, what is fetched, and what is sent back. */
module Handlers {
  import opened Js
  import opened Http
  import opened Basisregister
  import opened Geolocation
  import opened AdresMatch

  const LOC_GEOPUNT_ENDPOINT: string := "https://geo.api.vlaanderen.be/geolocation/v4/Location"

  /** The characters JavaScript's `.` does not match. */
  predicate IsLineTerminator(c: char)
  {
    c == '\n' || c == '\r' || c == '\U{2028}' || c == '\U{2029}'
  }

  predicate LineFree(s: string)
  {
    forall i :: 0 <= i < |s| ==> !IsLineTerminator(s[i])
  }

  /** `x` between double quotes. */
  function Quote(x: string): string
  {
    "\"" + x + "\""
  }

  /** `phrase.replace(/^"(.*)"$/, '$1')`: the whole phrase matches when it starts and ends
      with a double quote and nothing in between is a line terminator; the greedy group then
      takes everything in between. */
  function StripQuotes(phrase: string): (r: string)
    ensures r == phrase || (phrase == Quote(r) && LineFree(r))
  {
    if 2 <= |phrase| && phrase[0] == '"' && phrase[|phrase| - 1] == '"' && LineFree(phrase[1..|phrase| - 1])
    then
      assert phrase == Quote(phrase[1..|phrase| - 1]);
      phrase[1..|phrase| - 1]
    else phrase
  }

  /** A quoted phrase without line terminators loses its quotes, and only one pair of them. */
  lemma StripQuotesOfQuoted(x: string)
    requires LineFree(x)
    ensures StripQuotes(Quote(x)) == x
    ensures StripQuotes(Quote(Quote(x))) == Quote(x)
  {
  }

  /** The phrase changes exactly when it is a quoted text without line terminators. */
  lemma StripQuotesChangesIff(phrase: string)
    ensures StripQuotes(phrase) != phrase <==> exists x :: phrase == Quote(x) && LineFree(x)
  {
  }

  /** A lone quote, and a phrase with a line terminator between its quotes, stay as they are. */
  lemma StripQuotesLeavesOthers()
    ensures StripQuotes("\"") == "\""
    ensures StripQuotes("\"a\nb\"") == "\"a\nb\""
  {
    assert IsLineTerminator("a\nb"[1]);
  }

  /** The body `/search` sends. */
  datatype SearchBody = SearchBody(adressen: seq<LocationValue>, totaalAantal: int)

  /** The geolocation request for a phrase; `encode` is `encodeURIComponent`. */
  function LocationsUrl(encode: string -> string, phrase: string): string
  {
    LOC_GEOPUNT_ENDPOINT + "?q=" + encode(phrase) + "&c=10&type=Housenumber"
  }

  /** `getLocations`: one request, then the geolocation normaliser. */
  function GetLocations(encode: string -> string, upstream: string -> Response<GeoBody<LocationValue>>, phrase: string)
    : (r: Run<seq<LocationValue>>)
    ensures r.fetches == [LocationsUrl(encode, phrase)]
    ensures r.outcome.Threw? <==> !upstream(LocationsUrl(encode, phrase)).Ok()
    ensures r.outcome.Threw? ==> r.outcome.status == upstream(LocationsUrl(encode, phrase)).status
    ensures r.outcome.Returned? ==> r.outcome.value == ProcessGeolocation(upstream(LocationsUrl(encode, phrase)).body)
  {
    FetchThen(upstream, LocationsUrl(encode, phrase), ProcessGeolocation)
  }

  /** The `/search` route. */
  function Search(query: Option<string>, encode: string -> string, upstream: string -> Response<GeoBody<LocationValue>>)
    : (x: Exchange<SearchBody>)
    ensures !Truthy(query) <==> x.reply.BadRequest?
    ensures !Truthy(query) ==> x.fetches == []
    ensures Truthy(query) ==> x.fetches == [LocationsUrl(encode, StripQuotes(query.value))]
    ensures x.reply.Sent? ==> x.reply.body.totaalAantal == |x.reply.body.adressen|
    ensures x.reply.Sent? ==> forall l :: l in x.reply.body.adressen ==>
      l.country == Some(DEFAULT_COUNTRY) && l.formattedAddress.Some? && EndsWith(l.formattedAddress.value, COUNTRY_SUFFIX)
    ensures Truthy(query) ==> (x.reply.Forwarded? <==> !upstream(x.fetches[0]).Ok())
    ensures Truthy(query) && !upstream(x.fetches[0]).Ok() ==> x.reply == Forwarded(upstream(x.fetches[0]).status)
    ensures Truthy(query) && upstream(x.fetches[0]).Ok() ==>
      var adressen := ProcessGeolocation(upstream(x.fetches[0]).body);
      x.reply == Sent(SearchBody(adressen, |adressen|))
  {
    if !Truthy(query) then Exchange([], BadRequest("Please, include ?query=your address"))
    else
      var run := GetLocations(encode, upstream, StripQuotes(query.value));
      match run.outcome
      case Returned(locations) => Exchange(run.fetches, Sent(SearchBody(locations, |locations|)))
      case Threw(status) => Exchange(run.fetches, Forwarded(status))
  }

  /** The `/match` route: never refused; with no populated field it sends an empty array
      without any upstream call. */
  function Match(nfd: string -> string, f: MatchFields, upstream: string -> Response<Body<AdresValue>>)
    : (x: Exchange<Processed<AdresValue>>)
    ensures NoneGiven(f) ==> x == Exchange([], Sent(List([])))
    ensures !NoneGiven(f) ==> x.fetches == [MatchUrl(nfd, f)]
    ensures !x.reply.BadRequest? && !x.reply.NotFound?
    ensures !NoneGiven(f) ==> (x.reply.Forwarded? <==> !upstream(MatchUrl(nfd, f)).Ok())
    ensures !NoneGiven(f) && !upstream(MatchUrl(nfd, f)).Ok() ==> x.reply == Forwarded(upstream(MatchUrl(nfd, f)).status)
    ensures !NoneGiven(f) && upstream(MatchUrl(nfd, f)).Ok() ==>
      x.reply == Sent(ProcessBasisregister(upstream(MatchUrl(nfd, f)).body))
  {
    var run := GetBasisregisterAdresMatch(nfd, f, upstream);
    match run.outcome
    case Returned(addresses) => Exchange(run.fetches, Sent(addresses))
    case Threw(status) => Exchange(run.fetches, Forwarded(status))
  }

  /** `getDetail`: the reference itself is fetched, then the register normaliser. */
  function GetDetail(upstream: string -> Response<Body<AdresValue>>, uri: string): (r: Run<Processed<AdresValue>>)
    ensures r.fetches == [uri]
    ensures r.outcome.Threw? <==> !upstream(uri).Ok()
    ensures r.outcome.Threw? ==> r.outcome.status == upstream(uri).status
    ensures r.outcome.Returned? ==> r.outcome.value == ProcessBasisregister(upstream(uri).body)
  {
    FetchThen(upstream, uri, ProcessBasisregister)
  }

  /** The `/detail` route as written: its 404 branch tests the normaliser's result for
      falsiness, which no result has, so it never answers "not found". */
  function Detail(uri: Option<string>, upstream: string -> Response<Body<AdresValue>>)
    : (x: Exchange<Processed<AdresValue>>)
    ensures !Truthy(uri) <==> x.reply.BadRequest?
    ensures !Truthy(uri) ==> x.fetches == []
    ensures Truthy(uri) ==> x.fetches == [uri.value]
    ensures !x.reply.NotFound?
    ensures Truthy(uri) ==> (x.reply.Forwarded? <==> !upstream(uri.value).Ok())
    ensures Truthy(uri) && !upstream(uri.value).Ok() ==> x.reply == Forwarded(upstream(uri.value).status)
    ensures Truthy(uri) && upstream(uri.value).Ok() ==> x.reply == Sent(ProcessBasisregister(upstream(uri.value).body))
  {
    if !Truthy(uri) then Exchange([], BadRequest("Please, include ?uri=http://foo"))
    else
      var u := uri.value;
      var run := GetDetail(upstream, u);
      match run.outcome
      case Threw(status) => Exchange(run.fetches, Forwarded(status))
      case Returned(result) =>
        if !IsTruthy(result) then Exchange(run.fetches, NotFound("Details not found for " + u))
        else Exchange(run.fetches, Sent(result))
  }

  /** An upstream that answers every request with 200 and an empty (`null`) body. */
  function EmptyUpstream(url: string): Response<Body<AdresValue>>
  {
    Response(200, Falsy)
  }

  /** When the upstream answers 200 with a `null` body, the route sends an empty array with
      status 200, not the 404 it was written to send. */
  lemma DetailOfEmptyBodyIsNotNotFound(uri: string)
    requires uri != ""
    ensures Detail(Some(uri), EmptyUpstream).reply == Sent(List([]))
  {
  }

  /** The `/detail` route as its 404 branch intends it: an empty upstream body is "not found". */
  function DetailIntended(uri: Option<string>, upstream: string -> Response<Body<AdresValue>>)
    : (x: Exchange<Processed<AdresValue>>)
    ensures !Truthy(uri) <==> x.reply.BadRequest?
    ensures !Truthy(uri) ==> x.fetches == []
    ensures x.reply.NotFound? <==> Truthy(uri) && upstream(uri.value).Ok() && upstream(uri.value).body.Falsy?
  {
    if !Truthy(uri) then Exchange([], BadRequest("Please, include ?uri=http://foo"))
    else
      var u := uri.value;
      var response := upstream(u);
      if !response.Ok() then Exchange([u], Forwarded(response.status))
      else if response.body.Falsy? then Exchange([u], NotFound("Details not found for " + u))
      else Exchange([u], Sent(ProcessBasisregister(response.body)))
  }

  /** The two agree on every request except one whose upstream body is empty. */
  lemma DetailAgreesExceptOnEmptyBody(uri: Option<string>, upstream: string -> Response<Body<AdresValue>>)
    requires !(Truthy(uri) && upstream(uri.value).Ok() && upstream(uri.value).body.Falsy?)
    ensures Detail(uri, upstream) == DetailIntended(uri, upstream)
  {
  }
}
