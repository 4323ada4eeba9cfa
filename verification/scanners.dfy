/**
 * Executable matchers for the four patterns of the extension. Each returns
 * what `text.match(pattern)` yields as its first group (or `null`), and is
 * proved against the reference semantics in `Regex`.
 */
module Scanners {
  import opened Wrappers
  import opened Chars
  import opened Regex
  import Search

  /** How far a greedy repetition of the class runs from `p`. */
  function Run(t: string, p: nat, inClass: char -> bool): (n: nat)
    requires p <= |t|
    ensures Within(t, p, p + n, inClass)
    ensures p + n == |t| || !inClass(t[p + n])
    decreases |t| - p
  {
    if p < |t| && inClass(t[p]) then 1 + Run(t, p + 1, inClass) else 0
  }

  /** A run followed by a character outside the class (or by the end) is the whole greedy run. */
  lemma RunEndsAt(t: string, p: nat, q: nat, inClass: char -> bool)
    requires Within(t, p, q, inClass)
    requires q == |t| || !inClass(t[q])
    ensures Run(t, p, inClass) == q - p
  {
  }

  /** The digit count with which the flight-code pattern matches at `i`, if it does. */
  function FlightDigitsAt(t: string, i: nat): (r: Option<nat>)
    ensures r.Some? ==> FlightAt(t, i, r.value)
    ensures forall k: nat :: FlightAt(t, i, k) ==> r == Some(k)
  {
    if i + 2 <= |t| && Boundary(t, i) && IsUpper(t[i]) && IsUpper(t[i + 1]) then
      var n := Run(t, i + 2, IsDigit);
      if 1 <= n <= 4 && Boundary(t, i + 2 + n) then Some(n) else None
    else None
  }

  /** The digit count with which the distance pattern matches at `i`, if it does. */
  function DistanceDigitsAt(t: string, i: nat): (r: Option<nat>)
    ensures r.Some? ==> DistanceAt(t, i, r.value)
    ensures forall k: nat :: DistanceAt(t, i, k) ==> r == Some(k)
  {
    if i <= |t| then
      var n := Run(t, i, IsDigit);
      assert forall k: nat | DistanceAt(t, i, k) :: n == k by {
        forall k: nat | DistanceAt(t, i, k) ensures n == k {
          RunEndsAt(t, i, i + k, IsDigit);
        }
      }
      if 2 <= n <= 5 && i + n + 3 <= |t| && t[i + n] == ' ' && t[i + n + 1] == 'k' && t[i + n + 2] == 'm'
      then Some(n) else None
    else None
  }

  /** A match at `i` spans the longest designation run and then the longest blank run. */
  lemma AircraftRuns(t: string, i: nat, e: nat, w: nat)
    requires AircraftAt(t, i, e, w)
    ensures e == i + Run(t, i, IsTypeChar)
    ensures w == e + Run(t, e, IsSpace)
  {
    assert IsSpace(t[e]);
    RunEndsAt(t, i, e, IsTypeChar);
    assert t[w] == AircraftTypeWords[0];
    RunEndsAt(t, e, w, IsSpace);
  }

  /** Where the group of the aircraft-type pattern ends when the pattern matches at `i`. */
  function AircraftGroupAt(t: string, i: nat): (r: Option<nat>)
    ensures r.Some? ==> exists w: nat :: AircraftAt(t, i, r.value, w)
    ensures forall e: nat, w: nat :: AircraftAt(t, i, e, w) ==> r == Some(e)
  {
    if i <= |t| then
      var e := i + Run(t, i, IsTypeChar);
      var w := e + Run(t, e, IsSpace);
      assert forall e': nat, w': nat | AircraftAt(t, i, e', w') :: e' == e && w' == w by {
        forall e': nat, w': nat | AircraftAt(t, i, e', w') ensures e' == e && w' == w {
          AircraftRuns(t, i, e', w');
        }
      }
      if i < e < w && w + |AircraftTypeWords| <= |t| && t[w..w + |AircraftTypeWords|] == AircraftTypeWords
      then assert AircraftAt(t, i, e, w); Some(e)
      else None
    else None
  }

  /** `t.match(/\b([A-Z]{3})\b/)`, its group. */
  function AirportMatch(t: string): (r: Option<string>)
    ensures r.None? <==> forall i: nat :: !AirportAt(t, i)
    ensures r.Some? ==> exists i: nat :: FirstAirportAt(t, i) && r.value == t[i..i + 3]
    ensures r.Some? ==> |r.value| == 3 && All(r.value, IsUpper)
  {
    var p := (i: nat) => AirportAt(t, i);
    var found := Search.First(0, |t|, p);
    assert forall j: nat | j < |t| && (found.None? || j < found.value) :: !AirportAt(t, j) by {
      forall j: nat | j < |t| && (found.None? || j < found.value) ensures !AirportAt(t, j) {
        assert !p(j);
      }
    }
    match found
    case None => None
    case Some(i) =>
      assert p(i);
      assert FirstAirportAt(t, i);
      Some(t[i..i + 3])
  }

  /** `t.match(/\b([A-Z]{2}[0-9]{1,4})\b/)`, its group. */
  function FlightMatch(t: string): (r: Option<string>)
    ensures r.None? <==> forall i: nat, k: nat :: !FlightAt(t, i, k)
    ensures r.Some? ==> exists i: nat, k: nat :: FirstFlightAt(t, i, k) && r.value == t[i..i + 2 + k]
    ensures r.Some? ==> 3 <= |r.value| <= 6
  {
    var p := (i: nat) => FlightDigitsAt(t, i).Some?;
    var found := Search.First(0, |t|, p);
    assert forall j: nat, k: nat | j < |t| && (found.None? || j < found.value) :: !FlightAt(t, j, k) by {
      forall j: nat, k: nat | j < |t| && (found.None? || j < found.value) ensures !FlightAt(t, j, k) {
        assert !p(j);
      }
    }
    match found
    case None => None
    case Some(i) =>
      assert p(i);
      var k := FlightDigitsAt(t, i).value;
      assert FirstFlightAt(t, i, k);
      Some(t[i..i + 2 + k])
  }

  /** `t.match(/(\d{2,5}) km/)`, its group. */
  function DistanceMatch(t: string): (r: Option<string>)
    ensures r.None? <==> forall i: nat, k: nat :: !DistanceAt(t, i, k)
    ensures r.Some? ==> exists i: nat, k: nat :: FirstDistanceAt(t, i, k) && r.value == t[i..i + k]
    ensures r.Some? ==> 2 <= |r.value| <= 5 && All(r.value, IsDigit)
  {
    var p := (i: nat) => DistanceDigitsAt(t, i).Some?;
    var found := Search.First(0, |t|, p);
    assert forall j: nat, k: nat | j < |t| && (found.None? || j < found.value) :: !DistanceAt(t, j, k) by {
      forall j: nat, k: nat | j < |t| && (found.None? || j < found.value) ensures !DistanceAt(t, j, k) {
        assert !p(j);
      }
    }
    match found
    case None => None
    case Some(i) =>
      assert p(i);
      var k := DistanceDigitsAt(t, i).value;
      assert FirstDistanceAt(t, i, k);
      var digits := t[i..i + k];
      assert All(digits, IsDigit) by {
        assert forall m :: 0 <= m < k ==> digits[m] == t[i + m];
      }
      Some(digits)
  }

  /** No position before `n` where the group search fails starts a match. */
  lemma AircraftAbsentBefore(t: string, n: nat)
    requires n <= |t|
    requires forall j: nat | j < n :: AircraftGroupAt(t, j).None?
    ensures forall j: nat, e: nat, w: nat | j < n :: !AircraftAt(t, j, e, w)
    ensures n == |t| ==> forall j: nat, e: nat, w: nat :: !AircraftAt(t, j, e, w)
  {
    forall j: nat, e: nat, w: nat | j < n
      ensures !AircraftAt(t, j, e, w)
    {
      assert AircraftGroupAt(t, j).None?;
    }
  }

  /** The group found at the first position where the pattern matches. */
  lemma AircraftFound(t: string, i: nat)
    requires i < |t| && AircraftGroupAt(t, i).Some?
    requires forall j: nat, e: nat, w: nat | j < i :: !AircraftAt(t, j, e, w)
    ensures i < AircraftGroupAt(t, i).value <= |t|
    ensures exists w: nat :: FirstAircraftAt(t, i, AircraftGroupAt(t, i).value, w)
    ensures All(t[i..AircraftGroupAt(t, i).value], IsTypeChar)
  {
    var e := AircraftGroupAt(t, i).value;
    var w :| AircraftAt(t, i, e, w);
    assert FirstAircraftAt(t, i, e, w);
  }

  /** `t.match(/([A-Z0-9\-]+)\s+Aircraft Type/)`, its group. */
  function AircraftMatch(t: string): (r: Option<string>)
    ensures r.None? <==> forall i: nat, e: nat, w: nat :: !AircraftAt(t, i, e, w)
    ensures r.Some? ==> exists i: nat, e: nat, w: nat :: FirstAircraftAt(t, i, e, w) && r.value == t[i..e]
    ensures r.Some? ==> 1 <= |r.value| && All(r.value, IsTypeChar)
  {
    var p := (i: nat) => AircraftGroupAt(t, i).Some?;
    var found := Search.First(0, |t|, p);
    var n := if found.None? then |t| else found.value;
    assert forall j: nat | j < n :: AircraftGroupAt(t, j).None? by {
      forall j: nat | j < n ensures AircraftGroupAt(t, j).None? {
        assert !p(j);
      }
    }
    AircraftAbsentBefore(t, n);
    match found
    case None => None
    case Some(i) =>
      assert p(i);
      AircraftFound(t, i);
      Some(t[i..AircraftGroupAt(t, i).value])
  }

  /** A match that no earlier position has is the one reported. */
  lemma AirportMatchIs(t: string, i: nat)
    requires FirstAirportAt(t, i)
    ensures AirportMatch(t) == Some(t[i..i + 3])
  {
    assert AirportMatch(t).Some?;
    var i': nat :| FirstAirportAt(t, i') && AirportMatch(t).value == t[i'..i' + 3];
    assert AirportAt(t, i');
    assert !(i < i');
    assert !(i' < i);
  }

  lemma FlightMatchIs(t: string, i: nat, k: nat)
    requires FirstFlightAt(t, i, k)
    ensures FlightMatch(t) == Some(t[i..i + 2 + k])
  {
    assert FlightMatch(t).Some?;
    var i': nat, k': nat :| FirstFlightAt(t, i', k') && FlightMatch(t).value == t[i'..i' + 2 + k'];
    assert FlightAt(t, i', k');
    assert !(i < i');
    assert !(i' < i);
    FlightDigitsUnique(t, i, k, k');
  }

  lemma DistanceMatchIs(t: string, i: nat, k: nat)
    requires FirstDistanceAt(t, i, k)
    ensures DistanceMatch(t) == Some(t[i..i + k])
  {
    assert DistanceMatch(t).Some?;
    var i': nat, k': nat :| FirstDistanceAt(t, i', k') && DistanceMatch(t).value == t[i'..i' + k'];
    assert DistanceAt(t, i', k');
    assert !(i < i');
    assert !(i' < i);
    DistanceDigitsUnique(t, i, k, k');
  }

  lemma AircraftMatchIs(t: string, i: nat, e: nat, w: nat)
    requires FirstAircraftAt(t, i, e, w)
    ensures AircraftMatch(t) == Some(t[i..e])
  {
    assert AircraftMatch(t).Some?;
    var i': nat, e': nat, w': nat :| FirstAircraftAt(t, i', e', w') && AircraftMatch(t).value == t[i'..e'];
    assert AircraftAt(t, i', e', w');
    assert !(i < i');
    assert !(i' < i);
    AircraftGroupUnique(t, i, e, w, e', w');
  }
}
