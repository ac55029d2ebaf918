/** `processBasisregisterResponse` and `addDefaultCountryToBasisregisterAddress`: the
    normaliser for the address register's responses. Both update the parsed address objects
    in place; the class `Adres` carries those objects and the functions on `AdresValue`
    state what the updates compute. */
module Basisregister {
  import opened Js

  /** The part of one register address the normaliser reads or writes. `spelling` and `taal`
      are the fields of `volledigAdres.geografischeNaam`; `others` holds every other
      property (identificator, huisnummer, ...), which the normaliser passes through. */
  datatype AdresValue = AdresValue(spelling: string, taal: string, land: Option<string>, others: map<string, string>)

  /** A parsed register body, classified by the normaliser's tests: falsy (`!data`), an
      object whose `adressen` property is an array (a match listing), or any other object,
      which is taken to be one address. */
  datatype Body<A> = Falsy | Wrapped(adressen: seq<A>) | Bare(record: A)

  /** What the normaliser returns: an array, or one address object that is not wrapped in
      an array. */
  datatype Processed<A> = List(items: seq<A>) | Single(item: A)

  /** JavaScript truthiness of a normaliser result: every array, the empty one included, and
      every object are truthy. */
  predicate IsTruthy<A>(p: Processed<A>)
  {
    match p
    case List(_) => true
    case Single(_) => true
  }

  /** The update `addDefaultCountryToBasisregisterAddress` makes to one address. */
  function WithDefaultCountry(a: AdresValue): (r: AdresValue)
    ensures r.land == Some(DEFAULT_COUNTRY)
    ensures r.taal == a.taal && r.others == a.others
    ensures r.spelling == a.spelling + COUNTRY_SUFFIX <==> a.taal == "nl"
    ensures a.taal != "nl" ==> r.spelling == a.spelling
  {
    a.(spelling := if a.taal == "nl" then a.spelling + COUNTRY_SUFFIX else a.spelling,
       land := Some(DEFAULT_COUNTRY))
  }

  /** What `processBasisregisterResponse` returns, on values. */
  function ProcessBasisregister(data: Body<AdresValue>): (r: Processed<AdresValue>)
    ensures r.Single? <==> data.Bare?
    ensures data.Falsy? ==> r == List([])
    ensures data.Wrapped? ==>
      |r.items| == |data.adressen| &&
      forall i :: 0 <= i < |r.items| ==> r.items[i] == WithDefaultCountry(data.adressen[i])
    ensures data.Bare? ==> r.item == WithDefaultCountry(data.record)
  {
    match data
    case Falsy => List([])
    case Wrapped(xs) => List(seq(|xs|, i requires 0 <= i < |xs| => WithDefaultCountry(xs[i])))
    case Bare(a) => Single(WithDefaultCountry(a))
  }

  /** The addresses a result holds, whatever its shape. */
  function Addresses<A>(p: Processed<A>): seq<A>
  {
    match p
    case List(xs) => xs
    case Single(a) => [a]
  }

  /** Every address the normaliser hands back is in the default country, and a Dutch display
      name ends in that country. */
  lemma ProcessedAddressesCarryCountry(data: Body<AdresValue>)
    ensures forall a :: a in Addresses(ProcessBasisregister(data)) ==>
      a.land == Some(DEFAULT_COUNTRY) && (a.taal == "nl" ==> EndsWith(a.spelling, COUNTRY_SUFFIX))
  {
  }

  /** The result is always truthy: an empty body still yields an (empty) array. */
  lemma ProcessedIsTruthy(data: Body<AdresValue>)
    ensures IsTruthy(ProcessBasisregister(data))
    ensures data.Falsy? ==> Addresses(ProcessBasisregister(data)) == []
  {
  }

  /** `s` repeated `n` times. */
  function Repeat(s: string, n: nat): string
  {
    if n == 0 then "" else Repeat(s, n - 1) + s
  }

  /** The update applied `n` times to the same address. */
  function ApplyTimes(a: AdresValue, n: nat): AdresValue
  {
    if n == 0 then a else WithDefaultCountry(ApplyTimes(a, n - 1))
  }

  /** The update is not idempotent: each application to a Dutch name appends one more
      country suffix, and other names are never suffixed. */
  lemma {:induction false} RepeatedCountrySuffix(a: AdresValue, n: nat)
    ensures ApplyTimes(a, n).spelling == a.spelling + (if a.taal == "nl" then Repeat(COUNTRY_SUFFIX, n) else "")
    ensures ApplyTimes(a, n).taal == a.taal && ApplyTimes(a, n).others == a.others
    ensures n > 0 ==> ApplyTimes(a, n).land == Some(DEFAULT_COUNTRY)
  {
    if n > 0 {
      RepeatedCountrySuffix(a, n - 1);
      var b := ApplyTimes(a, n - 1);
      assert ApplyTimes(a, n) == WithDefaultCountry(b);
      if a.taal == "nl" {
        var k := Repeat(COUNTRY_SUFFIX, n - 1);
        assert b.spelling == a.spelling + k;
        assert Repeat(COUNTRY_SUFFIX, n) == k + COUNTRY_SUFFIX;
        assert (a.spelling + k) + COUNTRY_SUFFIX == a.spelling + (k + COUNTRY_SUFFIX);
      }
    }
  }

  /** Applying the update twice to a Dutch name suffixes it twice. */
  lemma DutchNameSuffixedTwice(a: AdresValue)
    requires a.taal == "nl"
    ensures WithDefaultCountry(WithDefaultCountry(a)).spelling == a.spelling + COUNTRY_SUFFIX + COUNTRY_SUFFIX
    ensures WithDefaultCountry(WithDefaultCountry(a)) != WithDefaultCountry(a)
  {
  }

  /** One parsed register address object. */
  class Adres {
    var spelling: string
    var taal: string
    var land: Option<string>
    var others: map<string, string>

    function Value(): AdresValue
      reads this
    {
      AdresValue(spelling, taal, land, others)
    }
  }

  /** `addDefaultCountryToBasisregisterAddress`: suffixes a Dutch display name, sets `land`,
      and returns the same object. */
  method AddDefaultCountry(address: Adres) returns (r: Adres)
    modifies address
    ensures r == address
    ensures address.Value() == WithDefaultCountry(old(address.Value()))
  {
    if address.taal == "nl" {
      address.spelling := address.spelling + COUNTRY_SUFFIX;
    }
    address.land := Some(DEFAULT_COUNTRY);
    r := address;
  }

  /** The address objects a body holds. */
  function Objects(data: Body<Adres>): set<Adres>
  {
    match data
    case Falsy => {}
    case Wrapped(xs) => set a | a in xs
    case Bare(a) => {a}
  }

  function ResultObjects(p: Processed<Adres>): set<Adres>
  {
    set a | a in Addresses(p)
  }

  function Values(xs: seq<Adres>): (vs: seq<AdresValue>)
    reads xs
    ensures |vs| == |xs| && forall i :: 0 <= i < |xs| ==> vs[i] == xs[i].Value()
  {
    seq(|xs|, i requires 0 <= i < |xs| reads xs => xs[i].Value())
  }

  function BodyValue(data: Body<Adres>): Body<AdresValue>
    reads Objects(data)
  {
    match data
    case Falsy => Falsy
    case Wrapped(xs) => Wrapped(Values(xs))
    case Bare(a) => Bare(a.Value())
  }

  function ProcessedValue(p: Processed<Adres>): Processed<AdresValue>
    reads ResultObjects(p)
  {
    match p
    case List(xs) => List(Values(xs))
    case Single(a) => Single(a.Value())
  }

  /** `processBasisregisterResponse`: updates every address of the body in place and returns
      them, as an array for a listing and as the object itself for a single address. */
  method ProcessBasisregisterResponse(data: Body<Adres>) returns (r: Processed<Adres>)
    requires data.Wrapped? ==> Distinct(data.adressen)
    modifies Objects(data)
    ensures data.Falsy? ==> r == List([])
    ensures data.Wrapped? ==> r == List(data.adressen)
    ensures data.Bare? ==> r == Single(data.record)
    ensures ProcessedValue(r) == ProcessBasisregister(old(BodyValue(data)))
  {
    match data
    case Falsy =>
      r := List([]);
    case Wrapped(xs) =>
      var out: seq<Adres> := [];
      for i := 0 to |xs|
        invariant out == xs[..i]
        invariant forall j :: 0 <= j < i ==> xs[j].Value() == WithDefaultCountry(old(xs[j].Value()))
        invariant forall j :: i <= j < |xs| ==> xs[j].Value() == old(xs[j].Value())
      {
        var a := AddDefaultCountry(xs[i]);
        out := out + [a];
      }
      assert out == xs;
      r := List(out);
    case Bare(a) =>
      var b := AddDefaultCountry(a);
      r := Single(b);
  }
}
