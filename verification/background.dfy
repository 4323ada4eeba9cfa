/**
 * The background script: one message listener that answers pings and turns
 * two web pages into a route distance and an aircraft type, plus the flag
 * that records that a first message arrived.
 */
module Background {
  import opened Wrappers
  import opened Chars
  import opened Regex
  import opened Scanners
  import opened Messages

  /** The outcome of `fetch(url).then(r => r.text())`. */
  datatype Fetched = Body(text: string) | Failed

  /**
   * What the listener does with one message: the response it sends, whether
   * it returns `true` to keep the channel open, and the page it fetches.
   */
  datatype Reply = Reply(response: Response, keepOpen: bool, fetchUrl: Option<string>)

  /** The script's global state: the `startupLogged` flag. */
  datatype State = State(startupLogged: bool)

  const Loaded := State(false)

  const DistanceSite := "https://www.airmilescalculator.com/distance/"
  const StatusSite := "https://fr.trip.com/flights/status-"

  /** A template-literal substitution: a missing field prints as `undefined`. */
  function Show(field: Option<string>): string
  {
    field.GetOr("undefined")
  }

  function DistanceUrl(req: Request): string
  {
    DistanceSite + Show(req.depart) + "-to-" + Show(req.arrivee) + "/"
  }

  function StatusUrl(flightCode: string): string
  {
    StatusSite + flightCode + "/"
  }

  /**
   * The distance a page reports: the number before the leftmost " km" that
   * the pattern accepts, plus a 10% routing correction.
   */
  function ParseDistance(body: string): (km: Option<real>)
    ensures km.None? <==> forall i: nat, k: nat :: !DistanceAt(body, i, k)
    ensures km.Some? ==> exists i: nat, k: nat ::
              && FirstDistanceAt(body, i, k)
              && All(body[i..i + k], IsDigit)
              && km.value == DigitsValue(body[i..i + k]) as real * 1.1
    ensures km.Some? ==> 0.0 <= km.value <= 99999.0 * 1.1
  {
    match DistanceMatch(body)
    case None => None
    case Some(digits) =>
      assert DigitsValue(digits) < 100000 by {
        Pow10Monotone(|digits|, 5);
      }
      Some(DigitsValue(digits) as real * 1.1)
  }

  /** `!request.flightCode || request.flightCode.length < 3`, the length in UTF-16 code units. */
  predicate RejectsFlightCode(flightCode: Option<string>)
  {
    flightCode.None? || flightCode.value == "" || Utf16Length(flightCode.value) < 3
  }

  /** The listener body, given what the one fetch it may issue would return. */
  function Handle(req: Request, page: Fetched): (r: Reply)
    ensures r.keepOpen <==> r.fetchUrl.Some?
    ensures r.keepOpen <==>
              || req.action == "fetchDistance"
              || (req.action == "fetchAircraft" && !RejectsFlightCode(req.flightCode))
    ensures req.action == "ping" ==> r.response == Status("ok")
    ensures req.action == "fetchDistance" && page.Body? ==>
              r.response == Distance(ParseDistance(page.text))
    ensures req.action == "fetchAircraft" && !RejectsFlightCode(req.flightCode) && page.Body? ==>
              r.response == AircraftType(AircraftMatch(page.text))
    ensures req.action == "fetchAircraft" && RejectsFlightCode(req.flightCode) ==>
              r.response == AircraftType(None)
    ensures r.keepOpen && page.Failed? ==> r.response == Null
    ensures req.action !in {"ping", "fetchDistance", "fetchAircraft"} ==> r.response == Null
  {
    if req.action == "ping" then
      Reply(Status("ok"), false, None)
    else if req.action == "fetchDistance" then
      var response := match page
        case Body(text) => Distance(ParseDistance(text))
        case Failed => Null;
      Reply(response, true, Some(DistanceUrl(req)))
    else if req.action == "fetchAircraft" then
      if RejectsFlightCode(req.flightCode) then
        Reply(AircraftType(None), false, None)
      else
        var response := match page
          case Body(text) => AircraftType(AircraftMatch(text))
          case Failed => Null;
        Reply(response, true, Some(StatusUrl(req.flightCode.value)))
    else
      Reply(Null, false, None)
  }

  /** One delivery to the listener: the flag is set by the first message and stays set. */
  function Receive(s: State, req: Request, page: Fetched): (r: (State, Reply))
    ensures r.0.startupLogged
    ensures r.1 == Handle(req, page)
  {
    (State(true), Handle(req, page))
  }

  /** A sequence of deliveries, each with the page its fetch would return. */
  function Serve(s: State, inbox: seq<(Request, Fetched)>): (r: (State, seq<Reply>))
    ensures r.0.startupLogged <==> s.startupLogged || |inbox| > 0
    ensures |r.1| == |inbox|
    ensures forall k :: 0 <= k < |inbox| ==> r.1[k] == Handle(inbox[k].0, inbox[k].1)
    decreases |inbox|
  {
    if inbox == [] then
      (s, [])
    else
      var (s1, reply) := Receive(s, inbox[0].0, inbox[0].1);
      var (s2, replies) := Serve(s1, inbox[1..]);
      (s2, [reply] + replies)
  }

  /** A reply that issues no fetch does not depend on the network. */
  lemma NoFetchNoNetwork(req: Request, page1: Fetched, page2: Fetched)
    requires !Handle(req, page1).keepOpen
    ensures Handle(req, page1) == Handle(req, page2)
  {
  }

  /** The code the content script sends for a listing without one is always rejected. */
  lemma AbsentFlightCodeRejected(page: Fetched)
    ensures Handle(AircraftRequest(""), page) == Reply(AircraftType(None), false, None)
  {
  }

  /** From position 0 the digit run of "123456 km" is too long; from position 1 it fits. */
  lemma LeftmostDistanceInSixDigits()
    ensures FirstDistanceAt("123456 km", 1, 5)
  {
  }

  lemma ValueOf23456()
    ensures All("23456", IsDigit) && DigitsValue("23456") == 23456
  {
    DigitsValueAppend("", '2');
    assert "" + ['2'] == "2";
    DigitsValueAppend("2", '3');
    assert "2" + ['3'] == "23";
    DigitsValueAppend("23", '4');
    assert "23" + ['4'] == "234";
    DigitsValueAppend("234", '5');
    assert "234" + ['5'] == "2345";
    DigitsValueAppend("2345", '6');
    assert "2345" + ['6'] == "23456";
  }

  /** A page whose leftmost distance reads `km` is answered with `km` × 1.1. */
  lemma DistanceAnswer(depart: string, arrivee: string, body: string, km: nat)
    requires DistanceMatch(body).Some? && DigitsValue(DistanceMatch(body).value) == km
    ensures Handle(DistanceRequest(depart, arrivee), Body(body)).response == Distance(Some(km as real * 1.1))
  {
    assert DistanceRequest(depart, arrivee).action != "ping" by {
      assert |"fetchDistance"| != |"ping"|;
    }
    assert ParseDistance(body) == Some(km as real * 1.1);
  }

  /** Two characters pass the length check when one is written as a surrogate pair. */
  lemma AstralCodeAccepted(page: Fetched)
    ensures Handle(AircraftRequest("A\U{1F600}"), page).fetchUrl == Some(StatusUrl("A\U{1F600}"))
  {
    assert Utf16Length("A\U{1F600}") == 3 by {
      assert "A\U{1F600}"[..1] == "A";
    }
  }

  /** A freshly loaded script answers a ping and has logged its first message afterwards. */
  lemma FirstPingSetsFlag(page: Fetched)
    ensures Serve(Loaded, [(PingRequest(), page)]) == (State(true), [Reply(Status("ok"), false, None)])
    ensures Serve(Loaded, []).0 == Loaded && !Loaded.startupLogged
  {
    var r := Serve(Loaded, [(PingRequest(), page)]);
    assert r.0.startupLogged;
    assert r.1[0] == Handle(PingRequest(), page) == Reply(Status("ok"), false, None);
    assert r.1 == [r.1[0]];
  }

  /** The leftmost start wins and nothing bounds the number on the left: "123456 km" reads 23456. */
  lemma DistanceLeftmostExample()
    ensures DistanceMatch("123456 km") == Some("23456")
    ensures ParseDistance("123456 km") == Some(23456.0 * 1.1)
  {
    var t := "123456 km";
    LeftmostDistanceInSixDigits();
    DistanceMatchIs(t, 1, 5);
    assert t[1..6] == "23456";
    ValueOf23456();
  }

  /** Nothing is checked after "km": "50 kmh" reads 50. */
  lemma DistanceUnitExample()
    ensures ParseDistance("50 kmh") == Some(55.0)
  {
    var t := "50 kmh";
    assert FirstDistanceAt(t, 0, 2);
    DistanceMatchIs(t, 0, 2);
    assert t[0..2] == "50";
    DigitsValueAppend("", '5');
    DigitsValueAppend("5", '0');
    assert DigitsValue("50") == 50;
    assert ParseDistance(t) == Some(DigitsValue("50") as real * 1.1);
  }
}
