/** `processGeolocationResponse`: the normaliser for the geolocation service's responses.
    It updates every parsed location record in place; the class `Location` carries those
    records and the functions on `LocationValue` state what the update computes. */
module Geolocation {
  import opened Js

  /** The part of one `LocationResult` record the normaliser reads or writes; `others` holds
      every other property (ID, LocationType, Municipality, ...), which it passes through. */
  datatype LocationValue = LocationValue(formattedAddress: Option<string>, country: Option<string>, others: map<string, string>)

  /** A parsed geolocation body: falsy (`!data`), or an object whose `LocationResult` is
      absent or falsy (`None`) or an array of records. */
  datatype GeoBody<L> = GeoFalsy | GeoObject(locationResult: Option<seq<L>>)

  /** The records the normaliser maps over: none unless the body holds a `LocationResult`. */
  function Records<L>(data: GeoBody<L>): seq<L>
  {
    if data.GeoObject? && data.locationResult.Some? then data.locationResult.value else []
  }

  /** The update made to one record: `Country` is set first, and the display string is then
      extended with `, ` and that country. An absent display string renders as `undefined`. */
  function Geolocated(l: LocationValue): (r: LocationValue)
    ensures r.country == Some(DEFAULT_COUNTRY)
    ensures r.formattedAddress.Some? && EndsWith(r.formattedAddress.value, COUNTRY_SUFFIX)
    ensures r.formattedAddress.value[..|r.formattedAddress.value| - |COUNTRY_SUFFIX|] == Show(l.formattedAddress)
    ensures r.others == l.others
  {
    var country := Some(DEFAULT_COUNTRY);
    var shown := Show(l.formattedAddress) + ", " + Show(country);
    assert shown == Show(l.formattedAddress) + COUNTRY_SUFFIX;
    LocationValue(Some(shown), country, l.others)
  }

  /** What `processGeolocationResponse` returns, on values. */
  function ProcessGeolocation(data: GeoBody<LocationValue>): (r: seq<LocationValue>)
    ensures (data.GeoFalsy? || data.locationResult.None?) ==> r == []
    ensures |r| == |Records(data)|
    ensures forall i :: 0 <= i < |r| ==> r[i] == Geolocated(Records(data)[i])
  {
    var xs := Records(data);
    seq(|xs|, i requires 0 <= i < |xs| => Geolocated(xs[i]))
  }

  /** Every record handed back is in the default country and its display string is the old
      one followed by `, ` and that country, in the order of `LocationResult`. */
  lemma GeolocatedRecordsCarryCountry(data: GeoBody<LocationValue>)
    ensures forall l :: l in ProcessGeolocation(data) ==>
      l.country == Some(DEFAULT_COUNTRY) && l.formattedAddress.Some? &&
      EndsWith(l.formattedAddress.value, COUNTRY_SUFFIX)
  {
  }

  /** Like the register normaliser, this one is not idempotent: a second pass
      suffixes the display string again. */
  lemma GeolocatedTwice(l: LocationValue)
    ensures Geolocated(Geolocated(l)).formattedAddress == Some(Show(l.formattedAddress) + COUNTRY_SUFFIX + COUNTRY_SUFFIX)
    ensures Geolocated(Geolocated(l)) != Geolocated(l)
  {
    var once := Geolocated(l).formattedAddress.value;
    var twice := Geolocated(Geolocated(l)).formattedAddress.value;
    assert once == Show(l.formattedAddress) + COUNTRY_SUFFIX;
    assert twice == once + COUNTRY_SUFFIX;
    assert |twice| == |once| + |COUNTRY_SUFFIX|;
  }

  /** One parsed `LocationResult` record. */
  class Location {
    var formattedAddress: Option<string>
    var country: Option<string>
    var others: map<string, string>

    function Value(): LocationValue
      reads this
    {
      LocationValue(formattedAddress, country, others)
    }
  }

  function Values(xs: seq<Location>): (vs: seq<LocationValue>)
    reads xs
    ensures |vs| == |xs| && forall i :: 0 <= i < |xs| ==> vs[i] == xs[i].Value()
  {
    seq(|xs|, i requires 0 <= i < |xs| reads xs => xs[i].Value())
  }

  function BodyValue(data: GeoBody<Location>): (v: GeoBody<LocationValue>)
    reads Records(data)
    ensures Records(v) == Values(Records(data))
  {
    match data
    case GeoFalsy => GeoFalsy
    case GeoObject(None) => GeoObject(None)
    case GeoObject(Some(xs)) => GeoObject(Some(Values(xs)))
  }

  /** `processGeolocationResponse`: sets `Country` and extends `FormattedAddress` on every
      record of `LocationResult`, in place, and returns the same records in the same order. */
  method ProcessGeolocationResponse(data: GeoBody<Location>) returns (addresses: seq<Location>)
    requires Distinct(Records(data))
    modifies Records(data)
    ensures addresses == Records(data)
    ensures Values(addresses) == ProcessGeolocation(old(BodyValue(data)))
  {
    if data.GeoFalsy? || data.locationResult.None? {
      return [];
    }
    var xs := data.locationResult.value;
    addresses := [];
    for i := 0 to |xs|
      invariant addresses == xs[..i]
      invariant forall j :: 0 <= j < i ==> xs[j].Value() == Geolocated(old(xs[j].Value()))
      invariant forall j :: i <= j < |xs| ==> xs[j].Value() == old(xs[j].Value())
    {
      var address := xs[i];
      address.country := Some(DEFAULT_COUNTRY);
      address.formattedAddress := Some(Show(address.formattedAddress) + ", " + Show(address.country));
      addresses := addresses + [address];
    }
    assert addresses == xs;
  }
}
