# adressenregister-fuzzy-search-service: the core, modelled in Dafny

The service answers address look-ups for Flanders. It uses two upstream services: the
Flemish geolocation service and the Flemish address register (basisregisters). This project
models the deterministic part of `app.js`, which sits around those HTTP calls:

- the structured-match query builder (`getBasisregisterAdresMatch`). It turns up to four
  optional fields into a `Key=value&` query string. Accents are removed from each value first.
  When no field is populated, no request is made;
- accent removal (`replaceAccents`): NFD decomposition, then deletion of U+0300 to U+036F;
- the two response normalisers (`processGeolocationResponse`, `processBasisregisterResponse`
  and `addDefaultCountryToBasisregisterAddress`). They put every address in the default
  country `België`, and they update the parsed objects in place;
- the route decisions:
  - the quote stripping of the `/search` phrase;
  - the `totaalAantal` count;
  - the 400 answers for a missing `query` or `uri`;
  - the 404 branch of `/detail`, which can never fire.

Layout, one module per file:

| file | module | models |
|---|---|---|
| js.dfy | `Js` | absent values (`undefined`), truthiness of strings, template rendering, the default country |
| http.dfy | `Http` | `fetch` + `response.ok` + normaliser, helper outcomes, route replies |
| accents.dfy | `Accents` | `replaceAccents` |
| basisregister.dfy | `Basisregister` | `addDefaultCountryToBasisregisterAddress`, `processBasisregisterResponse` |
| geolocation.dfy | `Geolocation` | `processGeolocationResponse` |
| adres_match.dfy | `AdresMatch` | `getBasisregisterAdresMatch` |
| handlers.dfy | `Handlers` | `getLocations`, `getDetail`, the `/search`, `/match` and `/detail` routes |

How the model is built:

- The parsed records that the normalisers change in place are classes (`Basisregister.Adres`,
  `Geolocation.Location`). The in-place methods are proved against functions on values
  (`WithDefaultCountry`, `ProcessBasisregister`, `Geolocated`, `ProcessGeolocation`), and the
  lemmas are stated about those functions.
- The route functions work on values. They use the value-level normalisers.
- The network is a parameter `upstream` that maps a URL to a status and an already-parsed body.
  `String.prototype.normalize('NFD')` is a parameter `nfd`, and `encodeURIComponent` is a
  parameter `encode`.
- The one law assumed of `nfd` is `Accents.NfdLaws`: it leaves ASCII text unchanged.
  `Accents.LatinNfd`, a fragment of the decomposition table, shows that this law can be met.

Behaviour a reader might not expect; the model follows the code:

- The 404 reply `Details not found for <uri>` (app.js:44-45) announces a "not found" answer when
  the upstream yields nothing. The code answers 200 with `[]` instead (see Findings).
- The geolocation normaliser suffixes the display string again on every pass; the register
  normaliser does so for Dutch (`nl`) names only (`Geolocation.GeolocatedTwice`,
  `Basisregister.RepeatedCountrySuffix`).
- The quote stripping (app.js:17) removes exactly one surrounding pair of quotes, and only when
  the text between them has no line terminator.
- The comment at app.js:97-98 asks for letters "as simple as possible" for the register; the
  values are stripped of accents but not percent-encoded (see `AdresMatch.MatchQueryRoundTrip`).
- A search makes one geolocation request; nothing is merged or de-duplicated.

## Model

| member | source | states |
|---|---|---|
| `Accents.StripMarks` | app.js:204 | no combining mark (U+0300 to U+036F) is left in the result, which is no longer than the input |
| `Accents.StripMarksAppend` | app.js:204 | the deletion works character by character: it distributes over concatenation, so the kept characters stay in their order |
| `Accents.StripMarksKeepsUnmarked` | app.js:204 | a string without combining marks is returned unchanged |
| `Accents.StripMarksCounts` | app.js:204 | every character that is not a combining mark occurs in the result exactly as often as in the decomposed input |
| `Accents.ReplaceAccents` | app.js:203-205 | `replaceAccents` output contains no combining mark and is no longer than the NFD decomposition it filters |
| `Accents.ReplaceAccentsOnAscii` | app.js:203-205 | with a decomposition that fixes ASCII, ASCII input passes through `replaceAccents` unchanged |
| `Accents.LatinNfdObeysLaws` | app.js:204 | the law assumed of `normalize('NFD')` holds for a concrete fragment of the decomposition table |
| `Accents.ReplaceAccentsOfDefaultCountry` | app.js:97-98 | with that table, `België` loses its diaeresis and becomes `Belgie` |
| `AdresMatch.BuildMatchQuery` | app.js:106-118 | the successive `+=` build exactly the concatenation of `Key=replaceAccents(value)&` for the truthy fields, in the order GemeenteNaam, Postcode, Straatnaam, Huisnummer |
| `AdresMatch.MatchQueryEmptyIff` | app.js:106-120 | the query string is empty if and only if all four fields are absent or empty; otherwise it ends with `&` |
| `AdresMatch.PopulatedParams` | app.js:108-118 | each key is present exactly when its field is truthy, with that field's accent-free value; keys follow the fixed order, so none appears twice |
| `AdresMatch.MatchQueryRoundTrip` | app.js:106-122 | splitting the query string at `&` and `=` (an idealised reader that decodes nothing) gives back exactly the populated (key, value) pairs, provided no accent-free value of a populated field contains `&` |
| `AdresMatch.GetBasisregisterAdresMatch` | app.js:105-130 | no populated field: no request at all and `[]`; otherwise exactly one request, to the register URL followed by `?` and the built query string, which throws with the response status exactly when the response is not ok and otherwise returns `ProcessBasisregister` of the body |
| `Http.FetchThen` | app.js:124-129 | one request to the given URL; it throws with the response status exactly when `response.ok` is false, otherwise it returns the normaliser applied to the parsed body |
| `Basisregister.WithDefaultCountry` | app.js:188-195 | `land` is always `België`; the spelling gains `, België` if and only if `taal` is `nl` and is unchanged otherwise; `taal` and the other properties are untouched |
| `Basisregister.RepeatedCountrySuffix` | app.js:190-192 | applied n times, the update appends n suffixes to a Dutch name and none to any other: it is not idempotent |
| `Basisregister.DutchNameSuffixedTwice` | app.js:190-192 | calling it twice on an `nl` address suffixes twice, and the second call changes the address again |
| `Basisregister.AddDefaultCountry` | app.js:188-195 | the method changes the address object in place into `WithDefaultCountry` of its old value and returns that same object |
| `Basisregister.ProcessBasisregister` | app.js:171-181 | falsy data gives `[]`; a wrapped `adressen` array gives an array of the same length, each element updated; any other record gives one updated record, not wrapped in an array |
| `Basisregister.ProcessBasisregisterResponse` | app.js:171-181 | the method updates every address of the body in place, returns the same objects (the array for a listing, the object itself otherwise), and their new values are `ProcessBasisregister` of the old ones |
| `Basisregister.ProcessedAddressesCarryCountry` | app.js:171-194 | every returned address has `land` set to `België`, and a Dutch spelling ends in `, België` |
| `Basisregister.ProcessedIsTruthy` | app.js:171-174 | every result is truthy, including the empty array returned for falsy data |
| `Geolocation.Geolocated` | app.js:158-161 | `Country` becomes `België`; `FormattedAddress` becomes the old one (rendered `undefined` when absent) followed by `, België`; nothing else changes |
| `Geolocation.ProcessGeolocation` | app.js:155-164 | `[]` when data is falsy or has no `LocationResult`; otherwise the same number of records in the same order, each updated |
| `Geolocation.ProcessGeolocationResponse` | app.js:155-164 | the method updates every `LocationResult` record in place, returns the same objects in the same order, and their new values are `ProcessGeolocation` of the old ones |
| `Geolocation.GeolocatedRecordsCarryCountry` | app.js:155-163 | every returned record has country `België` and a display string ending in `, België` |
| `Geolocation.GeolocatedTwice` | app.js:159-160 | a second pass appends the suffix again |
| `Handlers.GetLocations` | app.js:85-93 | exactly one request, to the geolocation URL for the phrase; throws with the status exactly when the response is not ok, otherwise returns `ProcessGeolocation` of the body |
| `Handlers.GetDetail` | app.js:71-78 | exactly one request, to the uri itself; throws with the status exactly when the response is not ok, otherwise returns `ProcessBasisregister` of the body |
| `Handlers.StripQuotes` | app.js:17 | the phrase is either unchanged, or it is exactly the result between one pair of quotes and that result has no line terminator |
| `Handlers.StripQuotesOfQuoted` | app.js:17 | `"x"` with x free of line terminators becomes x, and `""x""` loses only the outer pair |
| `Handlers.StripQuotesChangesIff` | app.js:17 | the phrase changes if and only if it is a quoted text without line terminators |
| `Handlers.StripQuotesLeavesOthers` | app.js:17 | a lone `"` stays as it is, and so does a quoted text that contains a line feed |
| `Handlers.Search` | app.js:9-22 | a missing or empty query gets 400 before any request, and only then is there a 400; otherwise one request for the quote-stripped phrase, forwarded to the error handler exactly when the response is not ok, and otherwise answered with `adressen` = `ProcessGeolocation` of the body and `totaalAantal` its length; every address sent carries the country |
| `Handlers.Match` | app.js:24-33 | `/match` never answers 400 or 404; with no populated field it sends `[]` without any request; otherwise it forwards exactly when the response is not ok, and sends `ProcessBasisregister` of the body when it is ok |
| `Handlers.Detail` | app.js:35-51 | a missing or empty uri gets 400 before any request, and only then is there a 400; otherwise the uri itself is fetched, the request is forwarded exactly when the response is not ok, and `ProcessBasisregister` of the body is sent when it is ok; the 404 reply never happens |
| `Handlers.DetailOfEmptyBodyIsNotNotFound` | app.js:42-47 | an empty (`null`) upstream body is answered with status 200 and `[]` |
| `Handlers.DetailIntended` | app.js:44-46 | corrected route: "not found" exactly when the uri is given, the response is ok and its body is empty |
| `Handlers.DetailAgreesExceptOnEmptyBody` | app.js:42-47 | the corrected route differs from the route as written only on an empty upstream body |

## Left out

- Network I/O: `fetch`, `response.json()` and async/await. The network is the function
  parameter `upstream`, and bodies arrive already parsed, so a body that fails to parse is not
  modelled.
- The `mu` framework: routing, `res.status`/`res.send` and `errorHandler`. A thrown error
  becomes `Forwarded(status)`. The status code the error handler finally sends is not modelled.
- The welcome route `/`, and the route `/suggest-from-latlon` with `getAddressesFromLatLon`
  (app.js:53-62, 139-147). That route only builds a URL from its parameters and uses the same
  geolocation normaliser, which is modelled.
- `String.prototype.normalize('NFD')` and `encodeURIComponent` are parameters. The Unicode
  decomposition tables are not modelled; the model assumes only that NFD leaves ASCII unchanged.
- Strings are sequences of Unicode scalar values, whereas JavaScript strings are UTF-16 code
  units. The deleted range lies in the Basic Multilingual Plane, so mark deletion is the same
  either way. Unpaired surrogates are not represented.
- Query parameters that Express parses into arrays or objects (`?query=a&query=b`) are not
  modelled. On those, `replace` and `normalize` throw.
- Falsy parsed bodies (`null`, `false`, `0`, `""`) are one constructor. A `LocationResult`
  that is absent or falsy is `None`.
- Processing of a truthy `LocationResult` that is not an array is not modelled; `map` would
  throw on it.
- An absent `FormattedAddress` renders as `undefined`. A `null` one, which would render as
  `null`, is not distinguished from it.
- A register body without `volledigAdres.geografischeNaam` makes app.js:189 throw. Its
  presence is required by the type: `spelling` and `taal` are fields of every `Adres`.
- The normaliser methods require that no record object occurs twice (`Distinct`). This always
  holds for what `response.json()` builds, so aliasing between records is not modelled.
- `AdresMatch.MatchQueryRoundTrip` is stated for an idealised `&`/`=` splitter, and only when no
  accent-free value contains `&`. The builder does not percent-encode values, so what the register
  actually receives is not modelled: a `#` in a value (house number `1#A`) ends the query at the
  URL fragment, and a server that decodes the query turns `%xx` into one character and `+` into a
  space.
- An absent `spelling` or `taal` in `volledigAdres.geografischeNaam` is not modelled: both are
  fields of every `Adres`. In the code, an absent `spelling` on a Dutch name renders as
  `undefined, België`, and an absent `taal` skips the suffix (app.js:190-191).

## Findings

| source | as written | input that shows it | evidently intended | confidence | as-written member | corrected member |
|---|---|---|---|---|---|---|
| app.js:44-45 | `if (!result)` tests the normaliser's result, and that result is always truthy: `[]` for an empty body, an object otherwise. So the 404 branch can never run | `/detail?uri=u` where the upstream answers 200 with the body `null`: the reply is 200 with `[]` | answer 404 "Details not found" when the upstream yields nothing | medium, not executed | `Handlers.DetailOfEmptyBodyIsNotNotFound` | `Handlers.DetailIntended` |
