/** `getBasisregisterAdresMatch`: the structured address match. The populated fields, with
    their accents removed, become the query string of one request to the address register;
    with no populated field there is no request at all. */
module AdresMatch {
  import opened Js
  import opened Http
  import opened Accents
  import opened Basisregister

  const BASISREGISTER_ADRESMATCH: string := "https://basisregisters.vlaanderen.be/api/v2/adressen"

  /** The four optional query parameters of `/match`. */
  datatype MatchFields = MatchFields(
    municipality: Option<string>,
    zipcode: Option<string>,
    thoroughfareName: Option<string>,
    houseNumber: Option<string>)

  /** Every field is absent or empty. */
  predicate NoneGiven(f: MatchFields)
  {
    !Truthy(f.municipality) && !Truthy(f.zipcode) && !Truthy(f.thoroughfareName) && !Truthy(f.houseNumber)
  }

  /** One parameter as the builder appends it: `Key=value&`. */
  function Param(key: string, value: string): string
  {
    key + "=" + value + "&"
  }

  /** The (key, value) pair a field contributes: none when the field is falsy, its value with
      accents removed otherwise. */
  function FieldParam(nfd: string -> string, key: string, v: Option<string>): seq<(string, string)>
  {
    if Truthy(v) then [(key, ReplaceAccents(nfd, v.value))] else []
  }

  /** The parameters the builder emits, in its fixed order of keys. */
  function Populated(nfd: string -> string, f: MatchFields): seq<(string, string)>
  {
    FieldParam(nfd, "GemeenteNaam", f.municipality) +
    FieldParam(nfd, "Postcode", f.zipcode) +
    FieldParam(nfd, "Straatnaam", f.thoroughfareName) +
    FieldParam(nfd, "Huisnummer", f.houseNumber)
  }

  /** The parameters written out one after the other. */
  function Encode(ps: seq<(string, string)>): string
  {
    if ps == [] then "" else Param(ps[0].0, ps[0].1) + Encode(ps[1..])
  }

  /** The query string `getBasisregisterAdresMatch` builds. */
  function MatchQuery(nfd: string -> string, f: MatchFields): string
  {
    Encode(Populated(nfd, f))
  }

  lemma {:induction false} EncodeAppend(a: seq<(string, string)>, b: seq<(string, string)>)
    ensures Encode(a + b) == Encode(a) + Encode(b)
  {
    if a == [] {
      assert a + b == b;
    } else {
      assert (a + b)[1..] == a[1..] + b;
      EncodeAppend(a[1..], b);
    }
  }

  /** Appending a field's parameters to those already written appends its `Key=value&`,
      if any, to the query string. */
  lemma EncodeField(done: seq<(string, string)>, nfd: string -> string, key: string, v: Option<string>)
    ensures Encode(done + FieldParam(nfd, key, v)) ==
      Encode(done) + (if Truthy(v) then Param(key, ReplaceAccents(nfd, v.value)) else "")
  {
    EncodeAppend(done, FieldParam(nfd, key, v));
    if Truthy(v) {
      assert Encode(FieldParam(nfd, key, v)) == Param(key, ReplaceAccents(nfd, v.value)) + Encode([]);
    } else {
      assert done + [] == done;
    }
  }

  /** The builder: one `+=` per populated field, in the fixed order. */
  method BuildMatchQuery(nfd: string -> string, f: MatchFields) returns (queryParams: string)
    ensures queryParams == MatchQuery(nfd, f)
  {
    ghost var done: seq<(string, string)> := [];
    queryParams := "";

    if Truthy(f.municipality) {
      queryParams := queryParams + Param("GemeenteNaam", ReplaceAccents(nfd, f.municipality.value));
    }
    EncodeField(done, nfd, "GemeenteNaam", f.municipality);
    done := done + FieldParam(nfd, "GemeenteNaam", f.municipality);

    if Truthy(f.zipcode) {
      queryParams := queryParams + Param("Postcode", ReplaceAccents(nfd, f.zipcode.value));
    }
    EncodeField(done, nfd, "Postcode", f.zipcode);
    done := done + FieldParam(nfd, "Postcode", f.zipcode);

    if Truthy(f.thoroughfareName) {
      queryParams := queryParams + Param("Straatnaam", ReplaceAccents(nfd, f.thoroughfareName.value));
    }
    EncodeField(done, nfd, "Straatnaam", f.thoroughfareName);
    done := done + FieldParam(nfd, "Straatnaam", f.thoroughfareName);

    if Truthy(f.houseNumber) {
      queryParams := queryParams + Param("Huisnummer", ReplaceAccents(nfd, f.houseNumber.value));
    }
    EncodeField(done, nfd, "Huisnummer", f.houseNumber);
    done := done + FieldParam(nfd, "Huisnummer", f.houseNumber);
    assert done == Populated(nfd, f);
  }

  /** The query string is empty exactly when no field is populated; otherwise it ends with
      `&`. */
  lemma MatchQueryEmptyIff(nfd: string -> string, f: MatchFields)
    ensures MatchQuery(nfd, f) == "" <==> NoneGiven(f)
    ensures !NoneGiven(f) ==> EndsWith(MatchQuery(nfd, f), "&")
  {
    var ps := Populated(nfd, f);
    if NoneGiven(f) {
      assert ps == [];
    } else {
      assert ps != [];
      EncodeAppend(ps[..|ps| - 1], [ps[|ps| - 1]]);
      assert ps[..|ps| - 1] + [ps[|ps| - 1]] == ps;
      var last := Param(ps[|ps| - 1].0, ps[|ps| - 1].1);
      assert Encode([ps[|ps| - 1]]) == last + "";
      assert MatchQuery(nfd, f) == Encode(ps[..|ps| - 1]) + last;
    }
  }

  /** The position of a key in the builder's fixed order. */
  function KeyRank(key: string): int
  {
    if key == "GemeenteNaam" then 0
    else if key == "Postcode" then 1
    else if key == "Straatnaam" then 2
    else if key == "Huisnummer" then 3
    else 4
  }

  /** The value of the first parameter named `key`, if any. */
  function Lookup(ps: seq<(string, string)>, key: string): Option<string>
  {
    if ps == [] then None else if ps[0].0 == key then Some(ps[0].1) else Lookup(ps[1..], key)
  }

  function Stripped(nfd: string -> string, v: Option<string>): Option<string>
  {
    if Truthy(v) then Some(ReplaceAccents(nfd, v.value)) else None
  }

  lemma {:induction false} LookupAppend(a: seq<(string, string)>, b: seq<(string, string)>, key: string)
    ensures Lookup(a + b, key) == if Lookup(a, key).Some? then Lookup(a, key) else Lookup(b, key)
  {
    if a == [] {
      assert a + b == b;
    } else {
      assert (a + b)[1..] == a[1..] + b;
      LookupAppend(a[1..], b, key);
    }
  }

  lemma LookupPopulated(nfd: string -> string, f: MatchFields, key: string)
    ensures Lookup(Populated(nfd, f), key) ==
      if key == "GemeenteNaam" && Truthy(f.municipality) then Stripped(nfd, f.municipality)
      else if key == "Postcode" && Truthy(f.zipcode) then Stripped(nfd, f.zipcode)
      else if key == "Straatnaam" && Truthy(f.thoroughfareName) then Stripped(nfd, f.thoroughfareName)
      else if key == "Huisnummer" && Truthy(f.houseNumber) then Stripped(nfd, f.houseNumber)
      else None
  {
    var m := FieldParam(nfd, "GemeenteNaam", f.municipality);
    var z := FieldParam(nfd, "Postcode", f.zipcode);
    var t := FieldParam(nfd, "Straatnaam", f.thoroughfareName);
    var h := FieldParam(nfd, "Huisnummer", f.houseNumber);
    LookupAppend(m + z + t, h, key);
    LookupAppend(m + z, t, key);
    LookupAppend(m, z, key);
  }

  /** Exactly the populated fields are present, each under its own key, with its accents
      removed; keys follow the fixed order, so none appears twice. */
  lemma PopulatedParams(nfd: string -> string, f: MatchFields)
    ensures var ps := Populated(nfd, f);
      && Lookup(ps, "GemeenteNaam") == Stripped(nfd, f.municipality)
      && Lookup(ps, "Postcode") == Stripped(nfd, f.zipcode)
      && Lookup(ps, "Straatnaam") == Stripped(nfd, f.thoroughfareName)
      && Lookup(ps, "Huisnummer") == Stripped(nfd, f.houseNumber)
      && (forall i :: 0 <= i < |ps| ==> KeyRank(ps[i].0) < 4)
      && (forall i, j :: 0 <= i < j < |ps| ==> KeyRank(ps[i].0) < KeyRank(ps[j].0))
  {
    assert "GemeenteNaam"[0] != "Postcode"[0] && "GemeenteNaam"[0] != "Straatnaam"[0] && "GemeenteNaam"[0] != "Huisnummer"[0];
    assert "Postcode"[0] != "Straatnaam"[0] && "Postcode"[0] != "Huisnummer"[0] && "Straatnaam"[0] != "Huisnummer"[0];
    LookupPopulated(nfd, f, "GemeenteNaam");
    LookupPopulated(nfd, f, "Postcode");
    LookupPopulated(nfd, f, "Straatnaam");
    LookupPopulated(nfd, f, "Huisnummer");
  }

  /** The text of `s` before the first `sep`, or all of `s` if it has none. */
  function Before(s: string, sep: char): (r: string)
    ensures |r| <= |s| && r == s[..|r|]
    ensures sep !in r
    ensures |r| < |s| ==> s[|r|] == sep
  {
    if s == [] || s[0] == sep then [] else [s[0]] + Before(s[1..], sep)
  }

  /** A segment `key=value` split at its first `=`. */
  function SplitPair(segment: string): (string, string)
  {
    var key := Before(segment, '=');
    (key, if |key| < |segment| then segment[|key| + 1..] else "")
  }

  /** An idealised reader of a query string: `&`-separated segments, each split at its first
      `=`; the empty text after a trailing `&` is no parameter. It does not decode `%xx` or
      `+`, and it knows nothing of the `#` that would end the query inside a URL. */
  function ParseQuery(q: string): seq<(string, string)>
    decreases |q|
  {
    if q == [] then []
    else
      var segment := Before(q, '&');
      [SplitPair(segment)] + (if |segment| < |q| then ParseQuery(q[|segment| + 1..]) else [])
  }

  lemma {:induction false} BeforeSeparator(a: string, sep: char, b: string)
    requires sep !in a
    ensures Before(a + [sep] + b, sep) == a
  {
    if a != [] {
      assert (a + [sep] + b)[1..] == a[1..] + [sep] + b;
      BeforeSeparator(a[1..], sep, b);
    }
  }

  /** Parameters whose keys hold neither `=` nor `&` and whose values hold no `&` are read
      back exactly as they were written. */
  lemma {:induction false} ParseEncode(ps: seq<(string, string)>)
    requires forall i :: 0 <= i < |ps| ==> '=' !in ps[i].0 && '&' !in ps[i].0 && '&' !in ps[i].1
    ensures ParseQuery(Encode(ps)) == ps
  {
    if ps != [] {
      var (k, v) := ps[0];
      var rest := Encode(ps[1..]);
      assert Encode(ps) == (k + "=" + v) + ['&'] + rest;
      BeforeSeparator(k + "=" + v, '&', rest);
      assert k + "=" + v == k + ['='] + v;
      BeforeSeparator(k, '=', v);
      assert (k + "=" + v)[|k| + 1..] == v;
      assert Encode(ps)[|k + "=" + v| + 1..] == rest;
      ParseEncode(ps[1..]);
    }
  }

  /** Splitting the query string at `&` and `=` gives back exactly the populated fields,
      provided no value the builder emits contains `&`: the builder does not percent-encode
      values. */
  lemma MatchQueryRoundTrip(nfd: string -> string, f: MatchFields)
    requires forall v :: v in [f.municipality, f.zipcode, f.thoroughfareName, f.houseNumber] && Truthy(v) ==>
      '&' !in ReplaceAccents(nfd, v.value)
    ensures ParseQuery(MatchQuery(nfd, f)) == Populated(nfd, f)
  {
    var ps := Populated(nfd, f);
    forall i | 0 <= i < |ps|
      ensures '=' !in ps[i].0 && '&' !in ps[i].0 && '&' !in ps[i].1
    {
      assert ps[i].0 in ["GemeenteNaam", "Postcode", "Straatnaam", "Huisnummer"];
    }
    ParseEncode(ps);
  }

  /** The request the builder's query string leads to. */
  function MatchUrl(nfd: string -> string, f: MatchFields): string
  {
    BASISREGISTER_ADRESMATCH + "?" + MatchQuery(nfd, f)
  }

  /** `getBasisregisterAdresMatch`, on values: no request and an empty array when no field is
      populated, otherwise one request whose query string is the builder's. */
  function GetBasisregisterAdresMatch(nfd: string -> string, f: MatchFields, upstream: string -> Response<Body<AdresValue>>)
    : (r: Run<Processed<AdresValue>>)
    ensures NoneGiven(f) <==> r.fetches == []
    ensures NoneGiven(f) ==> r.outcome == Returned(List([]))
    ensures !NoneGiven(f) ==> r.fetches == [MatchUrl(nfd, f)]
    ensures !NoneGiven(f) ==> (r.outcome.Threw? <==> !upstream(MatchUrl(nfd, f)).Ok())
    ensures !NoneGiven(f) && !upstream(MatchUrl(nfd, f)).Ok() ==>
      r.outcome == Threw(upstream(MatchUrl(nfd, f)).status)
    ensures !NoneGiven(f) && upstream(MatchUrl(nfd, f)).Ok() ==>
      r.outcome == Returned(ProcessBasisregister(upstream(MatchUrl(nfd, f)).body))
  {
    var queryParams := MatchQuery(nfd, f);
    MatchQueryEmptyIff(nfd, f);
    if queryParams == "" then Run([], Returned(List([])))
    else FetchThen(upstream, BASISREGISTER_ADRESMATCH + "?" + queryParams, ProcessBasisregister)
  }
}
