/**
 * What the four regular expressions of the extension match, stated the way
 * ECMAScript defines them: a pattern "matches at `i`" when some choice of
 * repetition counts makes every part of it succeed from `i`. A call of
 * `String.prototype.match` without the `g` flag reports the leftmost such `i`.
 */
module Regex {
  import opened Chars

  /** Every character of `t[lo..hi]` belongs to the class. */
  predicate Within(t: string, lo: nat, hi: nat, inClass: char -> bool)
  {
    lo <= hi <= |t| && forall k :: lo <= k < hi ==> inClass(t[k])
  }

  predicate WordBefore(t: string, p: nat) { 0 < p <= |t| && IsWordChar(t[p - 1]) }

  predicate WordAfter(t: string, p: nat) { p < |t| && IsWordChar(t[p]) }

  /** `\b` at `p`: exactly one of the two sides of `p` is a word character. */
  predicate Boundary(t: string, p: nat) { WordBefore(t, p) != WordAfter(t, p) }

  const AircraftTypeWords := "Aircraft Type"

  /** `/\b([A-Z]{3})\b/` matches at `i`. */
  predicate AirportAt(t: string, i: nat)
  {
    && i + 3 <= |t|
    && Boundary(t, i)
    && Within(t, i, i + 3, IsUpper)
    && Boundary(t, i + 3)
  }

  /** `/\b([A-Z]{2}[0-9]{1,4})\b/` matches at `i` with `k` digits. */
  predicate FlightAt(t: string, i: nat, k: nat)
  {
    && 1 <= k <= 4
    && i + 2 + k <= |t|
    && Boundary(t, i)
    && Within(t, i, i + 2, IsUpper)
    && Within(t, i + 2, i + 2 + k, IsDigit)
    && Boundary(t, i + 2 + k)
  }

  /** `/(\d{2,5}) km/` matches at `i` with `k` digits. */
  predicate DistanceAt(t: string, i: nat, k: nat)
  {
    && 2 <= k <= 5
    && i + k + 3 <= |t|
    && Within(t, i, i + k, IsDigit)
    && t[i + k] == ' ' && t[i + k + 1] == 'k' && t[i + k + 2] == 'm'
  }

  /**
   * `/([A-Z0-9\-]+)\s+Aircraft Type/` matches at `i`, the group spanning
   * `t[i..e]` and the blanks `t[e..w]`.
   */
  predicate AircraftAt(t: string, i: nat, e: nat, w: nat)
  {
    && i < e < w
    && w + |AircraftTypeWords| <= |t|
    && Within(t, i, e, IsTypeChar)
    && Within(t, e, w, IsSpace)
    && t[w..w + |AircraftTypeWords|] == AircraftTypeWords
  }

  /** Leftmost start positions: no earlier position matches at all. */

  ghost predicate FirstAirportAt(t: string, i: nat)
  {
    AirportAt(t, i) && forall j: nat :: j < i ==> !AirportAt(t, j)
  }

  ghost predicate FirstFlightAt(t: string, i: nat, k: nat)
  {
    FlightAt(t, i, k) && forall j: nat, k': nat :: j < i ==> !FlightAt(t, j, k')
  }

  ghost predicate FirstDistanceAt(t: string, i: nat, k: nat)
  {
    DistanceAt(t, i, k) && forall j: nat, k': nat :: j < i ==> !DistanceAt(t, j, k')
  }

  ghost predicate FirstAircraftAt(t: string, i: nat, e: nat, w: nat)
  {
    AircraftAt(t, i, e, w) && forall j: nat, e': nat, w': nat :: j < i ==> !AircraftAt(t, j, e', w')
  }

  /**
   * At a given start each pattern can succeed in only one way, so the
   * backtracking order of the greedy quantifiers never decides the capture.
   */
  lemma FlightDigitsUnique(t: string, i: nat, k1: nat, k2: nat)
    requires FlightAt(t, i, k1) && FlightAt(t, i, k2)
    ensures k1 == k2
  {
  }

  lemma DistanceDigitsUnique(t: string, i: nat, k1: nat, k2: nat)
    requires DistanceAt(t, i, k1) && DistanceAt(t, i, k2)
    ensures k1 == k2
  {
    // the character after the digits is the blank of " km"
    assert !IsDigit(t[i + k1]) && !IsDigit(t[i + k2]);
  }

  lemma AircraftGroupUnique(t: string, i: nat, e1: nat, w1: nat, e2: nat, w2: nat)
    requires AircraftAt(t, i, e1, w1) && AircraftAt(t, i, e2, w2)
    ensures e1 == e2 && w1 == w2
  {
    // a blank ends the group, and the `A` of the words ends the blanks
    assert IsSpace(t[e1]) && IsSpace(t[e2]);
    assert !IsTypeChar(t[e1]) && !IsTypeChar(t[e2]);
    assert t[w1] == AircraftTypeWords[0] && t[w2] == AircraftTypeWords[0];
    assert !IsSpace(t[w1]) && !IsSpace(t[w2]);
  }
}
