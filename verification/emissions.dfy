/**
 * The content script's estimate of the CO₂ emitted per passenger: from the
 * live distance and aircraft type when the background script provides them,
 * from fixed tables otherwise.
 */
module Emissions {
  import opened Wrappers
  import opened Messages
  import opened Chars
  import opened Fixed
  import Search

  type Seats = n: nat | n > 0 witness 1

  /** Fuel burnt per kilometre and seats of an aircraft family. */
  datatype Profile = Profile(fuelBurn: real, capacity: Seats)

  const DefaultProfile := Profile(5.0, 180)

  /** The aircraft table in insertion order, the order `Object.entries` visits it in. */
  const AircraftTable: seq<(string, Profile)> := [
    ("A320", Profile(2.5, 180)),
    ("A321", Profile(2.7, 220)),
    ("A319", Profile(2.3, 140)),
    ("B737", Profile(2.4, 160)),
    ("B738", Profile(2.6, 180)),
    ("B739", Profile(2.8, 190)),
    ("A380", Profile(4.7, 550)),
    ("B777", Profile(3.8, 350)),
    ("B787", Profile(3.2, 290)),
    ("A350", Profile(3.1, 330))
  ]

  /** Raw distances in km of some routes out of Paris, keyed "DEP-ARR". */
  const RouteTable: map<string, nat> := map[
    "CDG-LTN" := 366,
    "CDG-LHR" := 379,
    "CDG-MAD" := 1062,
    "CDG-BCN" := 831,
    "CDG-MRS" := 661,
    "CDG-AMS" := 398,
    "CDG-FRA" := 450,
    "CDG-FCO" := 1107
  ]

  const DefaultDistance: nat := 800

  function RouteKey(depart: string, arrivee: string): string
  {
    depart + "-" + arrivee
  }

  /** `defaultDistances[routeKey] || 800`. */
  function FallbackDistance(depart: string, arrivee: string): (km: nat)
    ensures km > 0
    ensures RouteKey(depart, arrivee) in RouteTable ==> km == RouteTable[RouteKey(depart, arrivee)]
    ensures RouteKey(depart, arrivee) !in RouteTable ==> km == DefaultDistance
  {
    var key := RouteKey(depart, arrivee);
    if key in RouteTable && RouteTable[key] != 0 then RouteTable[key] else DefaultDistance
  }

  predicate OccursAt(s: string, part: string, i: nat)
  {
    i + |part| <= |s| && s[i..i + |part|] == part
  }

  /** `s.includes(part)`. */
  predicate Includes(s: string, part: string)
  {
    exists i: nat | i <= |s| :: OccursAt(s, part, i)
  }

  /** Entry `k` is the first whose key occurs in the aircraft type. */
  ghost predicate FirstKeyIn(aircraftType: string, k: nat)
  {
    && k < |AircraftTable|
    && Includes(aircraftType, AircraftTable[k].0)
    && forall m :: 0 <= m < k ==> !Includes(aircraftType, AircraftTable[m].0)
  }

  /** No key of the table occurs in the aircraft type. */
  ghost predicate NoKeyIn(aircraftType: string)
  {
    forall k :: 0 <= k < |AircraftTable| ==> !Includes(aircraftType, AircraftTable[k].0)
  }

  /** The profile of the first table entry whose key occurs in the type, else the default. */
  function ProfileFor(aircraftType: Option<string>): (p: Profile)
    ensures aircraftType.None? ==> p == DefaultProfile
    ensures aircraftType.Some? && NoKeyIn(aircraftType.value) ==> p == DefaultProfile
    ensures forall k: nat :: aircraftType.Some? && FirstKeyIn(aircraftType.value, k) ==> p == AircraftTable[k].1
    ensures p == DefaultProfile || exists k :: 0 <= k < |AircraftTable| && AircraftTable[k].1 == p
  {
    match aircraftType
    case None => DefaultProfile
    case Some(ty) =>
      var hit := (k: nat) => k < |AircraftTable| && Includes(ty, AircraftTable[k].0);
      var found := Search.First(0, |AircraftTable|, hit);
      assert forall k :: 0 <= k < |AircraftTable| && (found.None? || k < found.value) ==> !Includes(ty, AircraftTable[k].0) by {
        forall k | 0 <= k < |AircraftTable| && (found.None? || k < found.value)
          ensures !Includes(ty, AircraftTable[k].0)
        {
          assert !hit(k);
        }
      }
      match found
      case None => DefaultProfile
      case Some(k) =>
        assert hit(k);
        AircraftTable[k].1
  }

  /** `((distance * 1.1) * 3.7 * 3 * fuelBurn) / (capacity * 0.85)`. */
  function Formula(distance: real, p: Profile): real
  {
    ((distance * 1.1) * 3.7 * 3.0 * p.fuelBurn) / (p.capacity as real * 0.85)
  }

  /** `response?.distance || null`: a failed call, a null or a zero distance is unavailable. */
  function DistanceOf(reply: Option<Response>): (d: Option<real>)
    ensures d.Some? <==> exists x :: reply == Some(Distance(Some(x))) && x != 0.0
    ensures d.Some? ==> reply == Some(Distance(Some(d.value)))
  {
    match reply
    case Some(Distance(Some(x))) => if x != 0.0 then Some(x) else None
    case _ => None
  }

  /** `response?.aircraftType || null`: a failed call, a null or an empty type is unavailable. */
  function AircraftTypeOf(reply: Option<Response>): (ty: Option<string>)
    ensures ty.Some? <==> exists s :: reply == Some(AircraftType(Some(s))) && s != ""
    ensures ty.Some? ==> reply == Some(AircraftType(Some(ty.value)))
  {
    match reply
    case Some(AircraftType(Some(s))) => if s != "" then Some(s) else None
    case _ => None
  }

  /**
   * `calculateCo2` before its final `toFixed(1)`. The aircraft type is asked
   * for only once a live distance is known.
   */
  function Co2(depart: string, arrivee: string, flightCode: string, ask: Channel): real
  {
    match DistanceOf(ask(DistanceRequest(depart, arrivee)))
    case None => Formula(FallbackDistance(depart, arrivee) as real, DefaultProfile)
    case Some(distance) =>
      Formula(distance, ProfileFor(AircraftTypeOf(ask(AircraftRequest(flightCode)))))
  }

  /** `calculateCo2(depart, arrivee, flightCode)`: never empty, so always truthy. */
  function CalculateCo2(depart: string, arrivee: string, flightCode: string, ask: Channel): (s: string)
    ensures 3 <= |s|
  {
    ToFixed1(Co2(depart, arrivee, flightCode, ask))
  }

  /** A key whose first letter does not occur in the type does not occur in it. */
  lemma AbsentInitialNotIncluded(s: string, part: string)
    requires |part| > 0
    requires forall i :: 0 <= i < |s| ==> s[i] != part[0]
    ensures !Includes(s, part)
  {
    forall i: nat
      ensures !OccursAt(s, part, i)
    {
      if i + |part| <= |s| {
        assert s[i..i + |part|][0] != part[0];
      }
    }
  }

  /** First match in table order: "A320-200" is an A320, "B737-800" a B737, "E190" unknown. */
  lemma ProfileExamples()
    ensures ProfileFor(Some("A320-200")) == Profile(2.5, 180)
    ensures ProfileFor(Some("B737-800")) == Profile(2.4, 160)
    ensures ProfileFor(Some("E190")) == DefaultProfile
  {
    assert OccursAt("A320-200", "A320", 0);
    assert FirstKeyIn("A320-200", 0);
    var b := "B737-800";
    assert forall i :: 0 <= i < |b| ==> b[i] != 'A';
    AbsentInitialNotIncluded(b, "A320");
    AbsentInitialNotIncluded(b, "A321");
    AbsentInitialNotIncluded(b, "A319");
    assert OccursAt(b, "B737", 0);
    assert FirstKeyIn(b, 3);
    var e := "E190";
    assert forall i :: 0 <= i < |e| ==> e[i] != 'A' && e[i] != 'B';
    forall k | 0 <= k < |AircraftTable|
      ensures !Includes(e, AircraftTable[k].0)
    {
      AbsentInitialNotIncluded(e, AircraftTable[k].0);
    }
  }

  /** Without a live distance the flight code and the aircraft lookup play no part. */
  lemma FallbackIgnoresAircraft(depart: string, arrivee: string, code1: string, code2: string, ask1: Channel, ask2: Channel)
    requires ask1(DistanceRequest(depart, arrivee)) == ask2(DistanceRequest(depart, arrivee))
    requires DistanceOf(ask1(DistanceRequest(depart, arrivee))).None?
    ensures Co2(depart, arrivee, code1, ask1) == Co2(depart, arrivee, code2, ask2)
    ensures Co2(depart, arrivee, code1, ask1) == Formula(FallbackDistance(depart, arrivee) as real, DefaultProfile)
  {
  }

  /**
   * With a live distance the estimate uses the profile of the first table key
   * the reported type contains, or the default when there is no type or no key
   * occurs in it.
   */
  lemma LivePath(depart: string, arrivee: string, flightCode: string, ask: Channel, distance: real)
    requires DistanceOf(ask(DistanceRequest(depart, arrivee))) == Some(distance)
    ensures AircraftTypeOf(ask(AircraftRequest(flightCode))).None? ==>
              Co2(depart, arrivee, flightCode, ask) == Formula(distance, DefaultProfile)
    ensures AircraftTypeOf(ask(AircraftRequest(flightCode))).Some? &&
            NoKeyIn(AircraftTypeOf(ask(AircraftRequest(flightCode))).value) ==>
              Co2(depart, arrivee, flightCode, ask) == Formula(distance, DefaultProfile)
    ensures forall k: nat :: AircraftTypeOf(ask(AircraftRequest(flightCode))).Some? &&
                             FirstKeyIn(AircraftTypeOf(ask(AircraftRequest(flightCode))).value, k) ==>
              Co2(depart, arrivee, flightCode, ask) == Formula(distance, AircraftTable[k].1)
  {
  }

  /**
   * Only unfolds the live branch of `Co2`; it states no property of its own.
   * Callers that only know the distance reply use it to keep their proofs small.
   */
  lemma LiveBranch(depart: string, arrivee: string, flightCode: string, ask: Channel, distance: real)
    requires DistanceOf(ask(DistanceRequest(depart, arrivee))) == Some(distance)
    ensures Co2(depart, arrivee, flightCode, ask) ==
              Formula(distance, ProfileFor(AircraftTypeOf(ask(AircraftRequest(flightCode)))))
  {
  }

  /**
   * With a live distance the route plays no part beyond that distance: the
   * route table and the 800 km default are never consulted.
   */
  lemma LiveIgnoresRoute(d1: string, a1: string, d2: string, a2: string, flightCode: string,
                         ask1: Channel, ask2: Channel, distance: real)
    requires DistanceOf(ask1(DistanceRequest(d1, a1))) == Some(distance)
    requires DistanceOf(ask2(DistanceRequest(d2, a2))) == Some(distance)
    requires ask1(AircraftRequest(flightCode)) == ask2(AircraftRequest(flightCode))
    ensures Co2(d1, a1, flightCode, ask1) == Co2(d2, a2, flightCode, ask2)
  {
  }

  /** A distance already corrected by 1.1 is corrected again: 1.21 in all. */
  lemma FormulaOfCorrected(km: real, p: Profile)
    ensures Formula(km * 1.1, p) == ((km * 1.21) * 3.7 * 3.0 * p.fuelBurn) / (p.capacity as real * 0.85)
  {
    assert (km * 1.1) * 1.1 == km * 1.21;
  }

  /** Every route missing from the table, in either direction, gets the same estimate. */
  lemma UnknownRoutesAgree(d1: string, a1: string, d2: string, a2: string, code1: string, code2: string, ask: Channel)
    requires RouteKey(d1, a1) !in RouteTable && RouteKey(d2, a2) !in RouteTable
    requires DistanceOf(ask(DistanceRequest(d1, a1))).None? && DistanceOf(ask(DistanceRequest(d2, a2))).None?
    ensures Co2(d1, a1, code1, ask) == Co2(d2, a2, code2, ask) == Formula(800.0, DefaultProfile)
  {
  }

  /** Every profile the estimate can use burns fuel. */
  lemma ProfilesBurnFuel(aircraftType: Option<string>)
    ensures ProfileFor(aircraftType).fuelBurn > 0.0
  {
    var p := ProfileFor(aircraftType);
    if p != DefaultProfile {
      var k :| 0 <= k < |AircraftTable| && AircraftTable[k].1 == p;
      assert AircraftTable[k].1.fuelBurn > 0.0;
    }
  }

  lemma FormulaPositive(distance: real, p: Profile)
    requires distance > 0.0 && p.fuelBurn > 0.0
    ensures Formula(distance, p) > 0.0
  {
    assert (distance * 1.1) * 3.7 * 3.0 * p.fuelBurn > 0.0 by {
      assert distance * 1.1 * 3.7 * 3.0 > 0.0;
    }
    assert p.capacity as real * 0.85 > 0.0;
  }

  /** The estimate is positive whenever the distance used is. */
  lemma Co2Positive(depart: string, arrivee: string, flightCode: string, ask: Channel)
    requires DistanceOf(ask(DistanceRequest(depart, arrivee))).Some? ==>
               DistanceOf(ask(DistanceRequest(depart, arrivee))).value > 0.0
    ensures Co2(depart, arrivee, flightCode, ask) > 0.0
  {
    match DistanceOf(ask(DistanceRequest(depart, arrivee)))
    case None =>
      FormulaPositive(FallbackDistance(depart, arrivee) as real, DefaultProfile);
    case Some(distance) =>
      ProfilesBurnFuel(AircraftTypeOf(ask(AircraftRequest(flightCode))));
      FormulaPositive(distance, ProfileFor(AircraftTypeOf(ask(AircraftRequest(flightCode)))));
  }

  /**
   * The figure shown is the estimate rounded to one decimal: digits, a point
   * and one digit, within half a tenth of the estimate.
   */
  lemma CalculateCo2Rounds(depart: string, arrivee: string, flightCode: string, ask: Channel)
    requires DistanceOf(ask(DistanceRequest(depart, arrivee))).Some? ==>
               DistanceOf(ask(DistanceRequest(depart, arrivee))).value > 0.0
    ensures IsFixed1(CalculateCo2(depart, arrivee, flightCode, ask))
    ensures -0.05 < FixedValue(CalculateCo2(depart, arrivee, flightCode, ask)) - Co2(depart, arrivee, flightCode, ask) <= 0.05
  {
    Co2Positive(depart, arrivee, flightCode, ask);
    ToFixed1IsNearestTenth(Co2(depart, arrivee, flightCode, ask));
  }

  /** Paris to Luton falls back to 366 km; the reverse direction is not in the table. */
  lemma FallbackExamples(flightCode: string, ask: Channel)
    requires DistanceOf(ask(DistanceRequest("CDG", "LTN"))).None?
    requires DistanceOf(ask(DistanceRequest("LTN", "CDG"))).None?
    ensures CalculateCo2("CDG", "LTN", flightCode, ask) == "146.0"
    ensures CalculateCo2("LTN", "CDG", flightCode, ask) == "319.2"
  {
    assert RouteKey("CDG", "LTN") == "CDG-LTN";
    assert RouteKey("LTN", "CDG") == "LTN-CDG";
    var x := Co2("CDG", "LTN", flightCode, ask);
    assert x == Formula(366.0, DefaultProfile);
    assert NearestTenths(x) == 1460;
    assert Unsigned(x) == "146.0" by {
      assert NatToString(146) == "146";
    }
    var y := Co2("LTN", "CDG", flightCode, ask);
    assert y == Formula(800.0, DefaultProfile);
    assert NearestTenths(y) == 3192;
    assert Unsigned(y) == "319.2" by {
      assert NatToString(319) == "319";
    }
  }
}
