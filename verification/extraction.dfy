/**
 * Recovering a flight's origin, destination and flight code from one result
 * card, given as the trimmed texts of its `span` and `div` elements in
 * document order.
 */
module Extraction {
  import opened Wrappers
  import opened Scanners
  import Search

  datatype Route = Route(origin: string, destination: string)

  datatype Listing = Listing(origin: string, destination: string, flightCode: Option<string>)

  /** The text carries a three-letter airport code. */
  predicate HasCode(text: string)
  {
    AirportMatch(text).Some?
  }

  /**
   * The airport loop: `depart` holds the first code seen; the next text that
   * carries a code gives the destination and ends the loop. Each text gives
   * at most its leftmost code.
   */
  function ScanRoute(texts: seq<string>, depart: Option<string>): Option<Route>
    decreases |texts|
  {
    if texts == [] then None
    else match AirportMatch(texts[0])
      case None => ScanRoute(texts[1..], depart)
      case Some(code) =>
        if depart.None? then ScanRoute(texts[1..], Some(code))
        else Some(Route(depart.value, code))
  }

  /** The leftmost airport code of each text that has one, in document order. */
  function Codes(texts: seq<string>): (codes: seq<string>)
    ensures |codes| <= |texts|
    ensures forall k :: 0 <= k < |codes| ==> |codes[k]| == 3
    decreases |texts|
  {
    if texts == [] then []
    else match AirportMatch(texts[0])
      case None => Codes(texts[1..])
      case Some(code) => [code] + Codes(texts[1..])
  }

  /** The loop stops at the second code it meets: origin and destination are the first two codes. */
  lemma {:induction false} ScanRouteTakesFirstTwoCodes(texts: seq<string>, depart: Option<string>)
    ensures depart.None? ==>
              ScanRoute(texts, depart) == (if |Codes(texts)| >= 2 then Some(Route(Codes(texts)[0], Codes(texts)[1])) else None)
    ensures depart.Some? ==>
              ScanRoute(texts, depart) == (if |Codes(texts)| >= 1 then Some(Route(depart.value, Codes(texts)[0])) else None)
    decreases |texts|
  {
    if texts != [] {
      match AirportMatch(texts[0])
      case None =>
        ScanRouteTakesFirstTwoCodes(texts[1..], depart);
      case Some(code) =>
        if depart.None? {
          ScanRouteTakesFirstTwoCodes(texts[1..], Some(code));
        }
    }
  }

  /** Texts without a code contribute nothing. */
  lemma {:induction false} CodesSkip(texts: seq<string>, i: nat)
    requires i <= |texts|
    requires forall m :: 0 <= m < i ==> !HasCode(texts[m])
    ensures Codes(texts) == Codes(texts[i..])
    decreases i
  {
    if i > 0 {
      CodesSkip(texts, i - 1);
      assert texts[i - 1..][1..] == texts[i..];
    }
  }

  /** A code exists exactly when some text carries one. */
  lemma {:induction false} SomeCodeNeedsSomeText(texts: seq<string>)
    ensures |Codes(texts)| >= 1 <==> exists i :: 0 <= i < |texts| && HasCode(texts[i])
    decreases |texts|
  {
    if texts != [] && !HasCode(texts[0]) {
      var rest := texts[1..];
      SomeCodeNeedsSomeText(rest);
      if exists i :: 0 <= i < |texts| && HasCode(texts[i]) {
        var i :| 0 <= i < |texts| && HasCode(texts[i]);
        assert HasCode(rest[i - 1]);
      }
      if |Codes(rest)| >= 1 {
        var i :| 0 <= i < |rest| && HasCode(rest[i]);
        assert HasCode(texts[i + 1]);
      }
    }
  }

  /** Two codes come from two different texts. */
  lemma {:induction false} TwoCodesComeFromTwoTexts(texts: seq<string>)
    requires |Codes(texts)| >= 2
    ensures exists i, j :: 0 <= i < j < |texts| && HasCode(texts[i]) && HasCode(texts[j])
    decreases |texts|
  {
    var rest := texts[1..];
    if HasCode(texts[0]) {
      SomeCodeNeedsSomeText(rest);
      var j :| 0 <= j < |rest| && HasCode(rest[j]);
      assert HasCode(texts[0]) && HasCode(texts[j + 1]);
    } else {
      TwoCodesComeFromTwoTexts(rest);
      var i, j :| 0 <= i < j < |rest| && HasCode(rest[i]) && HasCode(rest[j]);
      assert HasCode(texts[i + 1]) && HasCode(texts[j + 1]);
    }
  }

  /** Two different texts with a code give two codes. */
  lemma {:induction false} TwoTextsGiveTwoCodes(texts: seq<string>, i: nat, j: nat)
    requires i < j < |texts| && HasCode(texts[i]) && HasCode(texts[j])
    ensures |Codes(texts)| >= 2
    decreases |texts|
  {
    var rest := texts[1..];
    if HasCode(texts[0]) {
      SomeCodeNeedsSomeText(rest);
      assert HasCode(rest[j - 1]);
    } else {
      assert HasCode(rest[i - 1]) && HasCode(rest[j - 1]);
      TwoTextsGiveTwoCodes(rest, i - 1, j - 1);
    }
  }

  /** Two codes exist exactly when two different texts carry one. */
  lemma TwoCodesNeedTwoTexts(texts: seq<string>)
    ensures |Codes(texts)| >= 2 <==>
              exists i, j :: 0 <= i < j < |texts| && HasCode(texts[i]) && HasCode(texts[j])
  {
    if |Codes(texts)| >= 2 {
      TwoCodesComeFromTwoTexts(texts);
    }
    if exists i, j :: 0 <= i < j < |texts| && HasCode(texts[i]) && HasCode(texts[j]) {
      var i, j :| 0 <= i < j < |texts| && HasCode(texts[i]) && HasCode(texts[j]);
      TwoTextsGiveTwoCodes(texts, i, j);
    }
  }

  /** `i` and `j` are the first two texts that carry a code. */
  ghost predicate FirstTwo(texts: seq<string>, i: nat, j: nat)
  {
    && i < j < |texts|
    && HasCode(texts[i])
    && HasCode(texts[j])
    && (forall m :: 0 <= m < i ==> !HasCode(texts[m]))
    && (forall m :: i < m < j ==> !HasCode(texts[m]))
  }

  /** The first two codes are those of the first two texts that carry one. */
  lemma FirstTwoCodes(texts: seq<string>, i: nat, j: nat)
    requires FirstTwo(texts, i, j)
    ensures |Codes(texts)| >= 2
    ensures Codes(texts)[0] == AirportMatch(texts[i]).value
    ensures Codes(texts)[1] == AirportMatch(texts[j]).value
  {
    CodesSkip(texts, i);
    var after := texts[i + 1..];
    assert texts[i..][1..] == after;
    CodesSkip(after, j - i - 1);
    assert after[j - i - 1..][1..] == texts[j + 1..];
  }

  /** The flight-code loop: the leftmost flight code of the first text that has one. */
  function FlightCodeOf(texts: seq<string>): (code: Option<string>)
    ensures code.None? <==> forall k :: 0 <= k < |texts| ==> FlightMatch(texts[k]).None?
    ensures code.Some? ==> exists k :: && 0 <= k < |texts|
                                      && FlightMatch(texts[k]) == code
                                      && forall m :: 0 <= m < k ==> FlightMatch(texts[m]).None?
    ensures code.Some? ==> 3 <= |code.value| <= 6
  {
    var hit := (k: nat) => k < |texts| && FlightMatch(texts[k]).Some?;
    var found := Search.First(0, |texts|, hit);
    assert forall m :: 0 <= m < |texts| && (found.None? || m < found.value) ==> FlightMatch(texts[m]).None? by {
      forall m | 0 <= m < |texts| && (found.None? || m < found.value)
        ensures FlightMatch(texts[m]).None?
      {
        assert !hit(m);
      }
    }
    match found
    case None => None
    case Some(k) =>
      assert hit(k);
      FlightMatch(texts[k])
  }

  /**
   * What the card yields: nothing unless two texts carry an airport code;
   * the flight code is looked for only then, over every text from the start.
   */
  function Extract(texts: seq<string>): (listing: Option<Listing>)
    ensures listing.Some? <==>
              exists i, j :: 0 <= i < j < |texts| && HasCode(texts[i]) && HasCode(texts[j])
    ensures forall i: nat, j: nat :: FirstTwo(texts, i, j) ==>
              (listing == Some(Listing(AirportMatch(texts[i]).value, AirportMatch(texts[j]).value, FlightCodeOf(texts))))
  {
    ScanRouteTakesFirstTwoCodes(texts, None);
    TwoCodesNeedTwoTexts(texts);
    forall i: nat, j: nat | FirstTwo(texts, i, j) {
      FirstTwoCodes(texts, i, j);
    }
    match ScanRoute(texts, None)
    case None => None
    case Some(route) => Some(Listing(route.origin, route.destination, FlightCodeOf(texts)))
  }

  /** One element holding both codes is not enough. */
  lemma SingleTextIsNotEnough(text: string)
    ensures Extract([text]).None?
  {
  }
}
