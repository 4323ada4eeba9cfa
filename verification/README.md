# Air-Carbon in Dafny

Air-Carbon is a browser extension that annotates flight-search result cards
with an estimate of the CO₂ emitted per passenger. Two scripts cooperate:

- The content script finds result cards. For each card without a
  `.pollution-info` marker, it reads the origin and destination airport codes
  and an optional flight code from the card's texts. It asks the background
  script for the route distance. Only once a live distance arrives does it ask
  for the aircraft type; otherwise it uses a route table and a default
  aircraft. It computes
  `((distance × 1.1) × 3.7 × 3 × fuelBurn) / (capacity × 0.85)` and appends
  the label `🌍 CO₂ : <x.y> kg/passager`.
- The background script answers `ping`, `fetchDistance` and `fetchAircraft`
  messages. The last two fetch a third-party page and pick a number or an
  aircraft designation out of its text with a regular expression.

This project models both scripts as pure functions and proves what they
compute.

| module | models |
|---|---|
| `Chars` | character classes of the regular expressions (`\b`, `\d`, `\s`, `[A-Z0-9\-]`), `parseInt` on a digit string, decimal rendering of a natural number, string length in UTF-16 code units |
| `Search` | leftmost index satisfying a predicate (the `for … break` loops and regex start positions) |
| `Regex` | the four patterns as match-at predicates and leftmost-match predicates, which act as the reference semantics; plus uniqueness of the capture at a start position |
| `Scanners` | executable leftmost matchers, proved equal to the reference semantics |
| `Fixed` | `Number.prototype.toFixed(1)` on an exact real |
| `Messages` | request and response shapes; the channel as a function `Request -> Option<Response>` |
| `Background` | the `onMessage` listener, its two parsers, the `startupLogged` flag |
| `Emissions` | `fetchDistance`/`fetchAircraftType` normalisation, the route and aircraft tables, `calculateCo2` |
| `Extraction` | the airport-code and flight-code loops of `addPollutionInfo` |
| `Annotation` | one pass of `addPollutionInfo` over the cards, and the two scripts wired together |

Two consequences of the code are worth stating:

- **The live distance is corrected twice.** The background script adds 10%
  to the distance it reads (`background.js:36`). The content script's formula
  multiplies by 1.1 again (`content.js:125`). A distance read from the page is
  therefore scaled by 1.21 in total (`Annotation.LiveEstimate`).
- **Fallback figures.** Paris to Luton without a live distance uses 366 km
  with the default aircraft and shows `146.0`. Luton to Paris is not in the
  route table, so it uses 800 km and shows `319.2`
  (`Emissions.FallbackExamples`).

## Model

| member | source | states |
|---|---|---|
| Scanners.AirportMatch | content.js:156 | `None` exactly when no position starts three capitals bounded by word boundaries; otherwise the capture is the three capitals at the leftmost such position |
| Scanners.AirportMatchIs | content.js:156 | if `i` is the leftmost airport-code position, the match is `t[i..i+3]` |
| Scanners.FlightMatch | content.js:175 | `None` exactly when no position starts two capitals and 1–4 digits between word boundaries; otherwise the capture comes from the leftmost such position and has 3–6 characters |
| Scanners.FlightMatchIs | content.js:175 | at the leftmost flight-code position the capture is the whole bounded code |
| Regex.DistanceDigitsUnique | background.js:35 | at one start position at most one digit count 2–5 is followed by " km", so backtracking cannot pick a different capture |
| Scanners.DistanceMatch | background.js:35 | `None` exactly when no position starts 2–5 digits followed by " km"; otherwise the capture is the digits at the leftmost such position |
| Scanners.DistanceMatchIs | background.js:35 | at the leftmost position the capture is exactly the digits before " km" |
| Regex.AircraftGroupUnique | background.js:58 | at one start position the designation group and the whitespace before "Aircraft Type" are determined uniquely |
| Scanners.AircraftMatch | background.js:58 | `None` exactly when no position starts a run of `[A-Z0-9-]`, whitespace and "Aircraft Type"; otherwise the capture is the non-empty designation at the leftmost such position |
| Scanners.AircraftMatchIs | background.js:58 | at the leftmost position the capture is the whole designation run |
| Chars.DigitsValueOfNatToString | content.js:126 | the integer digits written by the rendering read back as the same number |
| Background.ParseDistance | background.js:34-37 | no distance exactly when the pattern never matches; otherwise the leftmost captured digits, read as a number and scaled by 1.1, bounded by 99999 × 1.1 |
| Background.DistanceAnswer | background.js:29-41 | a distance request for a page whose leftmost distance reads `km` is answered with `km` × 1.1 |
| Background.DistanceLeftmostExample | background.js:35-36 | "123456 km" yields the capture "23456" and the distance 23456 × 1.1: no boundary on the left |
| Background.DistanceUnitExample | background.js:35-36 | "50 kmh" yields 55: nothing after "km" is checked |
| Background.Handle | background.js:22-69 | the channel stays open exactly when a fetch is issued, which is for `fetchDistance` and for `fetchAircraft` with a code of at least 3 UTF-16 code units; `ping` gets `{status: "ok"}`; a short or missing code gets `{aircraftType: null}`; a failed fetch gets `null`; an unknown action gets `null` |
| Background.NoFetchNoNetwork | background.js:22-69 | a reply that keeps no channel open is the same whatever the network would return |
| Background.AbsentFlightCodeRejected | background.js:49-53 | the empty code that a card without a flight code sends is rejected at once with a null aircraft type |
| Chars.Utf16Length | background.js:49 | the length lies between the number of characters and twice that number; it equals the number of characters exactly when none lies outside the Basic Multilingual Plane |
| Chars.Utf16LengthAppend | background.js:49 | appending a character adds two code units if it lies outside the Basic Multilingual Plane, one otherwise |
| Chars.Utf16LengthConcat | background.js:49 | the length of a concatenation is the sum of the lengths |
| Background.AstralCodeAccepted | background.js:49-55 | a two-character code whose second character is outside the Basic Multilingual Plane has length 3 and is fetched |
| Background.Receive | background.js:13-18 | after any message the startup flag is set, and the reply is the listener's reply |
| Background.Serve | background.js:4-18 | after a sequence of messages the flag is set exactly when it was set before or some message arrived; each reply is the listener's reply to its own message |
| Background.FirstPingSetsFlag | background.js:4-26 | a freshly loaded script has not logged; after one ping it has, and it answered `{status: "ok"}` without keeping the channel open |
| Fixed.NearestTenths | content.js:126 | the chosen number of tenths is within half a tenth of the value, the larger on a tie |
| Fixed.ToFixed1 | content.js:126 | the rendering has at least three characters, starts with "-" exactly for negative values, and has no leading zero before another digit |
| Fixed.ToFixed1IsNearestTenth | content.js:126 | a non-negative value renders as digits, a point and one digit, denoting a whole number of tenths within 0.05 of the value |
| Emissions.FallbackDistance | content.js:69-81 | the tabled distance of a known route, 800 km otherwise, never zero |
| Emissions.DistanceOf | content.js:40-47 | a live distance exists exactly when the reply carries a non-zero distance; a failed call, `null` or 0 is unavailable |
| Emissions.AircraftTypeOf | content.js:49-55 | a type exists exactly when the reply carries a non-empty type |
| Emissions.ProfileFor | content.js:88-122 | no type, or a type containing no table key, gives 5.0 kg/km and 180 seats; otherwise the profile of the first table key, in table order, that the type contains; the result is always the default or a table entry |
| Emissions.ProfilesBurnFuel | content.js:97-108 | every profile the lookup can return has a positive fuel burn |
| Emissions.ProfileExamples | content.js:97-117 | "A320-200" gives the A320 profile, "B737-800" the B737 profile, "E190" the default |
| Emissions.FallbackIgnoresAircraft | content.js:65-86 | without a live distance the estimate uses the route fallback and the default profile, whatever the flight code or the aircraft reply |
| Emissions.UnknownRoutesAgree | content.js:80-85 | every route missing from the table gets the same fallback estimate, the one for 800 km |
| Emissions.LivePath | content.js:88-126 | with a live distance, the estimate is the formula on that distance with the profile of the first table key the reported type contains; with no type, or a type containing no key, it uses the default profile |
| Emissions.LiveIgnoresRoute | content.js:88-126 | with a live distance, two routes given the same distance and the same aircraft reply get the same estimate: the route table and the 800 km default play no part |
| Emissions.FormulaOfCorrected | content.js:125 | applying the formula to a distance already scaled by 1.1 scales the raw distance by 1.21 |
| Emissions.Co2Positive | content.js:83-126 | the estimate is positive whenever the distance it uses is |
| Emissions.CalculateCo2 | content.js:61-127 | the result is never empty, so the annotation guard always passes |
| Emissions.CalculateCo2Rounds | content.js:124-126 | the shown figure has one decimal and is within half a tenth of the estimate |
| Emissions.FallbackExamples | content.js:69-85 | Paris to Luton without a live distance shows "146.0"; Luton to Paris is not tabled and shows "319.2" |
| Extraction.ScanRouteTakesFirstTwoCodes | content.js:152-165 | the airport loop ends with the first two codes found, one per text, in document order |
| Extraction.TwoCodesNeedTwoTexts | content.js:152-168 | two codes are found exactly when two distinct texts each carry one |
| Extraction.FirstTwoCodes | content.js:152-165 | the two codes are the leftmost code of the first two texts that carry one |
| Extraction.FlightCodeOf | content.js:172-180 | no flight code exactly when no text carries one; otherwise the leftmost code of the first text that carries one |
| Extraction.Extract | content.js:147-180 | a listing exists exactly when two distinct texts carry an airport code; it holds the codes of the first two such texts and the flight code searched over all texts |
| Extraction.SingleTextIsNotEnough | content.js:152-168 | one text with two airport codes yields no listing |
| Annotation.Visit | content.js:139-204 | a marked card, or one without two airport codes, is left as it was; any other card gets exactly one label carrying its estimate; its non-label texts never change |
| Annotation.Scan | content.js:135-139 | every card is visited on its own, with its own view of the channel, so two cards asking the same question may get different answers |
| Annotation.ScanAnnotatesEligibleCards | content.js:139-204 | an unmarked card ends up marked exactly when two of its texts carry airport codes, and then with one label |
| Annotation.ScanIdempotent | content.js:140-143 | a second scan changes nothing, whatever the channel answers each card the second time |
| Annotation.RepeatedScansAnnotateOnce | content.js:140-143 | any number of sequential scans leave the page as the first one did |
| Annotation.LiveDistanceReceived | background.js:34-37 | a page with `n` km delivered through the channel arrives as a live distance of n × 1.1 |
| Annotation.LiveEstimate | content.js:124-125 | a live distance of n × 1.1 yields the formula applied to n × 1.21 |
| Annotation.LiveDistanceCorrectedTwice | content.js:125 | a page with `n` km gives the formula on n × 1.1, so the 1.1 correction is applied once in each script |
| Annotation.ZeroDistanceFallsBack | content.js:46 | a page reporting "00 km" is read as 0 and falls back to the route table |
| Annotation.FailuresLookAlike | content.js:40-66 | a failed fetch, a page without a distance and a broken channel all give the same estimate |
| Annotation.ExtractedCodeIsFetched | background.js:49 | a flight code found on a card always passes the background's length check |
| Annotation.NoFlightCodeDefaultAircraft | content.js:184 | a card without a flight code sends "", which always leads to the default profile |

## Left out

- `safelyExecute` and `safeSendMessage` are transport only. Their effect, a reply or `null` on any failure, is the `Option` result of the channel.
- The `fetch` calls use the network. The listener takes the page the fetch would return (`Body` or `Failed`), and `fetchUrl` records the address it would request.
- The channel's answers are a parameter. The model does not say which background state produced them beyond the composition lemmas in `Annotation`.
- Timers, the `MutationObserver` and the `readyState` check are left out. They only decide when `addPollutionInfo` runs, and repeated runs are covered by `Annotation.RepeatedScansAnnotateOnce`.
- The async callbacks of one scan are taken to run in order with no interleaving. A second scan that starts before the first one's awaits resolve can add a second label in the real extension; that race is not modelled.
- Floating point is not modelled: arithmetic is on exact reals. `Fixed.ToFixed1` does not model the exponent form of `toFixed` for values ≥ 10²¹ or binary rounding of the products.
- DOM selectors, element styling and console logging are left out. A card is the trimmed texts of its own `span` and `div` elements, labels excluded, and the labels its own callback appended (`notes`).
- `Annotation.Card`: cards are taken as disjoint subtrees. The selectors of `content.js:135` can match a card and one of its ancestors. Both are then unmarked when the scan starts, so both get a label, and the outer one ends up with two `.pollution-info` descendants. The model does not cover that case.
- `Annotation.Visit`: a label is itself a `div`, so a later `querySelectorAll('span, div')` (`content.js:147`) also sees its text. The model keeps labels out of `texts`. This changes nothing for a marked card, because the marker check comes first, but "its texts never change" holds only of the texts the model tracks.
- Each card's `try/catch` is not modelled, because nothing in the model can throw.
- `handleFetchError` is modelled only by its effect: a `null` reply.
- `Emissions.CalculateCo2`: its contract states only that the result is non-empty. The rounding is stated by `Emissions.CalculateCo2Rounds`, for non-negative estimates, because the channel may in principle report a negative distance.
