/**
 * One pass of `addPollutionInfo` over the page's result cards, taken as a
 * single atomic step, and the content script wired to the background script.
 */
module Annotation {
  import opened Wrappers
  import opened Chars
  import opened Scanners
  import opened Messages
  import opened Background
  import opened Emissions
  import opened Extraction

  /**
   * A result card: the trimmed texts of its own `span` and `div` elements,
   * labels excluded, and the labels its own callback appended. Cards are
   * disjoint subtrees: a card nested inside another is not modelled.
   */
  datatype Card = Card(texts: seq<string>, notes: seq<string>)

  /** `card.querySelector(".pollution-info")` finds an element. */
  predicate Marked(card: Card)
  {
    |card.notes| > 0
  }

  const LabelPrefix := "🌍 CO₂ : "
  const LabelSuffix := " kg/passager"

  function Label(emissions: string): string
  {
    LabelPrefix + emissions + LabelSuffix
  }

  /** The figure shown for a listing; a missing flight code is sent as "". */
  function Estimate(listing: Listing, ask: Channel): string
  {
    CalculateCo2(listing.origin, listing.destination, listing.flightCode.GetOr(""), ask)
  }

  /** The callback run for one card. */
  function Visit(card: Card, ask: Channel): (r: Card)
    ensures r.texts == card.texts
    ensures Marked(card) || Extract(card.texts).None? ==> r == card
    ensures !Marked(card) && Extract(card.texts).Some? ==>
              r.notes == [Label(Estimate(Extract(card.texts).value, ask))]
  {
    if Marked(card) then card
    else match Extract(card.texts)
      case None => card
      case Some(listing) =>
        var emissions := Estimate(listing, ask);
        if emissions != "" then Card(card.texts, card.notes + [Label(emissions)]) else card
  }

  /**
   * One scan over every card found on the page. Each card's callback sends
   * its own messages, so each card gets its own view of the channel: two
   * cards asking the same question may get different answers.
   */
  function Scan(cards: seq<Card>, asks: seq<Channel>): (r: seq<Card>)
    requires |asks| == |cards|
    ensures |r| == |cards|
    ensures forall k :: 0 <= k < |cards| ==> r[k] == Visit(cards[k], asks[k])
  {
    seq(|cards|, k requires 0 <= k < |cards| => Visit(cards[k], asks[k]))
  }

  /**
   * After a scan a card that had no marker carries one exactly when two of
   * its texts carry an airport code, and then exactly one label.
   */
  lemma ScanAnnotatesEligibleCards(cards: seq<Card>, asks: seq<Channel>, k: nat)
    requires |asks| == |cards|
    requires k < |cards| && !Marked(cards[k])
    ensures Marked(Scan(cards, asks)[k]) <==>
              exists i, j :: 0 <= i < j < |cards[k].texts| && HasCode(cards[k].texts[i]) && HasCode(cards[k].texts[j])
    ensures Marked(Scan(cards, asks)[k]) ==> |Scan(cards, asks)[k].notes| == 1
    ensures Scan(cards, asks)[k].texts == cards[k].texts
  {
  }

  /** A scan leaves marked cards alone, so a second scan adds nothing. */
  lemma ScanIdempotent(cards: seq<Card>, asks1: seq<Channel>, asks2: seq<Channel>)
    requires |asks1| == |cards| && |asks2| == |cards|
    ensures Scan(Scan(cards, asks1), asks2) == Scan(cards, asks1)
  {
    var once := Scan(cards, asks1);
    var twice := Scan(once, asks2);
    forall k | 0 <= k < |cards|
      ensures twice[k] == once[k]
    {
      if !Marked(cards[k]) && Extract(cards[k].texts).Some? {
        assert Marked(once[k]);
      }
    }
  }

  /** Every round gives one channel per card. */
  predicate OnePerCard(rounds: seq<seq<Channel>>, cards: seq<Card>)
  {
    forall r :: 0 <= r < |rounds| ==> |rounds[r]| == |cards|
  }

  /** Scans run one after another, each with whatever the channel answers at the time. */
  function Scans(cards: seq<Card>, rounds: seq<seq<Channel>>): seq<Card>
    requires OnePerCard(rounds, cards)
    decreases |rounds|
  {
    if rounds == [] then cards else Scans(Scan(cards, rounds[0]), rounds[1..])
  }

  /** Any number of sequential scans leaves the page as the first scan did. */
  lemma {:induction false} RepeatedScansAnnotateOnce(cards: seq<Card>, rounds: seq<seq<Channel>>)
    requires |rounds| >= 1 && OnePerCard(rounds, cards)
    ensures Scans(cards, rounds) == Scan(cards, rounds[0])
    decreases |rounds|
  {
    if |rounds| > 1 {
      var once := Scan(cards, rounds[0]);
      ScanIdempotent(cards, rounds[0], rounds[1]);
      assert rounds[1..][0] == rounds[1];
      RepeatedScansAnnotateOnce(once, rounds[1..]);
    }
  }

  /** The content script receives the background's corrected figure as a live distance. */
  lemma LiveDistanceReceived(depart: string, arrivee: string, ask: Channel, body: string, km: nat)
    requires ask(DistanceRequest(depart, arrivee)) == Some(Handle(DistanceRequest(depart, arrivee), Body(body)).response)
    requires DistanceMatch(body).Some? && DigitsValue(DistanceMatch(body).value) == km && km > 0
    ensures DistanceOf(ask(DistanceRequest(depart, arrivee))) == Some(km as real * 1.1)
  {
    DistanceAnswer(depart, arrivee, body, km);
  }

  /** A live distance the background has already corrected is corrected again: 1.21 × km in all. */
  lemma LiveEstimate(depart: string, arrivee: string, flightCode: string, ask: Channel, km: real, p: Profile)
    requires DistanceOf(ask(DistanceRequest(depart, arrivee))) == Some(km * 1.1)
    requires p == ProfileFor(AircraftTypeOf(ask(AircraftRequest(flightCode))))
    ensures Co2(depart, arrivee, flightCode, ask) ==
              ((km * 1.21) * 3.7 * 3.0 * p.fuelBurn) / (p.capacity as real * 0.85)
  {
    LiveBranch(depart, arrivee, flightCode, ask, km * 1.1);
    FormulaOfCorrected(km, p);
  }

  /**
   * A live distance of `km` km on the page is corrected by 1.1 twice, once in
   * each script: the estimate uses 1.21 × km.
   */
  lemma LiveDistanceCorrectedTwice(depart: string, arrivee: string, flightCode: string, ask: Channel,
                                   body: string, km: nat)
    requires ask(DistanceRequest(depart, arrivee)) == Some(Handle(DistanceRequest(depart, arrivee), Body(body)).response)
    requires DistanceMatch(body).Some? && DigitsValue(DistanceMatch(body).value) == km && km > 0
    ensures Co2(depart, arrivee, flightCode, ask) == Formula(km as real * 1.1, ProfileFor(AircraftTypeOf(ask(AircraftRequest(flightCode)))))
  {
    LiveDistanceReceived(depart, arrivee, ask, body, km);
    LiveBranch(depart, arrivee, flightCode, ask, km as real * 1.1);
  }

  /** A page reporting "00 km" reads as 0, which the content script treats as unavailable. */
  lemma ZeroDistanceFallsBack(depart: string, arrivee: string, flightCode: string, ask: Channel, body: string)
    requires ask(DistanceRequest(depart, arrivee)) == Some(Handle(DistanceRequest(depart, arrivee), Body(body)).response)
    requires DistanceMatch(body).Some? && DigitsValue(DistanceMatch(body).value) == 0
    ensures Co2(depart, arrivee, flightCode, ask) ==
              Formula(FallbackDistance(depart, arrivee) as real, DefaultProfile)
  {
    assert ParseDistance(body) == Some(0.0);
  }

  /** A failed fetch, a page without a distance and a broken channel give the same estimate. */
  lemma FailuresLookAlike(depart: string, arrivee: string, flightCode: string,
                          ask1: Channel, ask2: Channel, ask3: Channel, body: string)
    requires ask1(DistanceRequest(depart, arrivee)) == Some(Handle(DistanceRequest(depart, arrivee), Failed).response)
    requires ask2(DistanceRequest(depart, arrivee)) == Some(Handle(DistanceRequest(depart, arrivee), Body(body)).response)
    requires DistanceMatch(body).None?
    requires ask3(DistanceRequest(depart, arrivee)) == None
    ensures Co2(depart, arrivee, flightCode, ask1) == Co2(depart, arrivee, flightCode, ask2)
    ensures Co2(depart, arrivee, flightCode, ask1) == Co2(depart, arrivee, flightCode, ask3)
  {
  }

  /** A flight code found on a card always passes the background's length check. */
  lemma ExtractedCodeIsFetched(texts: seq<string>, page: Fetched)
    requires Extract(texts).Some? && Extract(texts).value.flightCode.Some?
    ensures Handle(AircraftRequest(Extract(texts).value.flightCode.value), page).keepOpen
  {
    var code := Extract(texts).value.flightCode.value;
    assert Extract(texts).value.flightCode == FlightCodeOf(texts);
    assert Utf16Length(code) >= |code| >= 3;
    assert !RejectsFlightCode(AircraftRequest(code).flightCode);
  }

  /** Without a flight code the live path always uses the default aircraft. */
  lemma NoFlightCodeDefaultAircraft(ask: Channel, page: Fetched)
    requires ask(AircraftRequest("")) == Some(Handle(AircraftRequest(""), page).response)
    ensures ProfileFor(AircraftTypeOf(ask(AircraftRequest("")))) == DefaultProfile
  {
  }
}
