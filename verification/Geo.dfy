/**
 Geo samples and the choice of a location.  Distance is an uninterpreted number: each candidate
 carries its distance from the sample.
 */
module Geo {
  import opened Options
  import opened Schedule

  const SECOND: int := 1_000_000

  datatype Sample = Sample(accuracy: real, capturedAt: int, suspected: bool)

  datatype GeoCode = IntegrityFailed | AccuracyInsufficient | Stale | LocationNotAssigned | LocationNotAllowed

  /** An assigned location with its schedule, and the user's latest override there, if any. */
  datatype Candidate = Candidate(
    location: int, distance: real, radius: real, offset: int,
    scheduleActive: bool, windows: seq<Window>, override: Option<int>)

  /** validate_geo: a sample from the future is as stale as an old one. */
  function ValidateGeo(g: Sample, maxAccuracy: real, maxAgeSeconds: int, now: int): Option<GeoCode> {
    if g.suspected then Some(IntegrityFailed)
    else if g.accuracy > maxAccuracy then Some(AccuracyInsufficient)
    else if now < g.capturedAt || now - g.capturedAt > maxAgeSeconds * SECOND then Some(Stale)
    else None
  }

  predicate InReach(c: Candidate) { c.distance <= c.radius }

  /** The first of the nearest locations within reach. */
  predicate IsMatch(candidates: seq<Candidate>, k: int) {
    && 0 <= k < |candidates| && InReach(candidates[k])
    && (forall j :: 0 <= j < |candidates| && InReach(candidates[j]) ==>
       candidates[k].distance <= candidates[j].distance)
    && (forall j :: 0 <= j < k && InReach(candidates[j]) ==> candidates[k].distance < candidates[j].distance)
  }

  function Nearest(candidates: seq<Candidate>): (r: Option<int>)
    ensures r.Some? ==> IsMatch(candidates, r.value)
    ensures r.None? <==> forall j :: 0 <= j < |candidates| ==> !InReach(candidates[j])
  {
    if candidates == [] then None
    else
      var n := |candidates| - 1;
      var before := Nearest(candidates[..n]);
      if !InReach(candidates[n]) then before
      else if before.Some? && candidates[before.value].distance <= candidates[n].distance then before
      else Some(n)
  }

  function MatchLocation(candidates: seq<Candidate>): (r: Result<Candidate, GeoCode>)
    ensures r.Ok? ==> exists k :: IsMatch(candidates, k) && candidates[k] == r.value
    ensures r == Err(LocationNotAssigned) <==> candidates == []
    ensures r == Err(LocationNotAllowed) <==> candidates != [] && forall j :: 0 <= j < |candidates| ==>
              !InReach(candidates[j])
  {
    if candidates == [] then Err(LocationNotAssigned)
    else
      match Nearest(candidates)
      case None => Err(LocationNotAllowed)
      case Some(k) => Ok(candidates[k])
  }

  lemma MatchIsUnique(candidates: seq<Candidate>, k: int, j: int)
    requires IsMatch(candidates, k) && IsMatch(candidates, j)
    ensures k == j
  {}

  /** The indices within reach, in the order of the list. */
  predicate Reaches(candidates: seq<Candidate>, upTo: int, matches: seq<int>) {
    && (forall m :: 0 <= m < |matches| ==>
       0 <= matches[m] < upTo && matches[m] < |candidates| && InReach(candidates[matches[m]]))
    && (forall m, n :: 0 <= m < n < |matches| ==> matches[m] < matches[n])
    && (forall j :: 0 <= j < upTo && j < |candidates| && InReach(candidates[j]) ==> j in matches)
  }

  lemma ReachesOneMore(candidates: seq<Candidate>, i: int, matches: seq<int>)
    requires 0 <= i < |candidates| && Reaches(candidates, i, matches)
    ensures Reaches(candidates, i + 1, if InReach(candidates[i]) then matches + [i] else matches)
  {
    hide InReach;
    if InReach(candidates[i]) {
      ReachesNext(candidates, i, matches);
    }
  }

  lemma ReachesNext(candidates: seq<Candidate>, i: int, matches: seq<int>)
    requires 0 <= i < |candidates| && Reaches(candidates, i, matches) && InReach(candidates[i])
    ensures Reaches(candidates, i + 1, matches + [i])
  {
    hide InReach;
    var more := matches + [i];
    forall m | 0 <= m < |more| ensures 0 <= more[m] < i + 1 && InReach(candidates[more[m]]) {
      assert m < |matches| ==> more[m] == matches[m];
    }
    forall m, n | 0 <= m < n < |more| ensures more[m] < more[n] {
      assert more[m] == matches[m];
      assert n < |matches| ==> more[n] == matches[n];
    }
    forall j | 0 <= j < i + 1 && InReach(candidates[j]) ensures j in more {
      assert if j < i then j in matches else more[|matches|] == j;
    }
  }

  /** b is the first of the nearest of the first upTo locations of the list. */
  predicate FirstMinimum(candidates: seq<Candidate>, matches: seq<int>, upTo: int, b: int)
    requires Reaches(candidates, |candidates|, matches)
  {
    && 0 <= b < upTo <= |matches|
    && (forall n :: 0 <= n < upTo ==> candidates[matches[b]].distance <= candidates[matches[n]].distance)
    && (forall n :: 0 <= n < b ==> candidates[matches[b]].distance < candidates[matches[n]].distance)
  }

  lemma OneIsFirst(candidates: seq<Candidate>, matches: seq<int>)
    requires Reaches(candidates, |candidates|, matches) && matches != []
    ensures FirstMinimum(candidates, matches, 1, 0)
  {}

  lemma FirstMinimumOneMore(candidates: seq<Candidate>, matches: seq<int>, m: int, b: int)
    requires Reaches(candidates, |candidates|, matches) && FirstMinimum(candidates, matches, m, b) && m < |matches|
    ensures var nearer := candidates[matches[m]].distance < candidates[matches[b]].distance;
            FirstMinimum(candidates, matches, m + 1, if nearer then m else b)
  {}

  lemma FirstMinimumIsMatch(candidates: seq<Candidate>, matches: seq<int>, b: int)
    requires Reaches(candidates, |candidates|, matches) && FirstMinimum(candidates, matches, |matches|, b)
    ensures 0 <= b < |matches| && 0 <= matches[b] < |candidates|
    ensures MatchLocation(candidates) == Ok(candidates[matches[b]])
  {
    forall j | 0 <= j < |candidates| && InReach(candidates[j])
      ensures candidates[matches[b]].distance <= candidates[j].distance
      ensures j < matches[b] ==> candidates[matches[b]].distance < candidates[j].distance
    {
      var n :| 0 <= n < |matches| && matches[n] == j;
    }
    assert IsMatch(candidates, matches[b]);
    hide IsMatch, Reaches, FirstMinimum;
    assert InReach(candidates[matches[b]]);
    MatchIsUnique(candidates, matches[b], Nearest(candidates).value);
  }

  lemma NothingReaches(candidates: seq<Candidate>)
    requires candidates != [] && Reaches(candidates, |candidates|, [])
    ensures MatchLocation(candidates) == Err(LocationNotAllowed)
  {
    assert forall j :: 0 <= j < |candidates| ==> !InReach(candidates[j]);
    hide Reaches;
  }

  /** The filter of match_location. */
  method WithinReach(candidates: seq<Candidate>) returns (matches: seq<int>)
    ensures Reaches(candidates, |candidates|, matches)
  {
    matches := [];
    for i := 0 to |candidates|
      invariant Reaches(candidates, i, matches)
    {
      ReachesOneMore(candidates, i, matches);
      if InReach(candidates[i]) {
        matches := matches + [i];
      }
    }
  }

  /** min() over the locations within reach: the first of the nearest. */
  method FirstNearest(candidates: seq<Candidate>, matches: seq<int>) returns (b: int)
    requires Reaches(candidates, |candidates|, matches) && matches != []
    ensures FirstMinimum(candidates, matches, |matches|, b)
  {
    b := 0;
    OneIsFirst(candidates, matches);
    hide FirstMinimum;
    for m := 1 to |matches|
      invariant 0 <= b < m && FirstMinimum(candidates, matches, m, b)
    {
      FirstMinimumOneMore(candidates, matches, m, b);
      if candidates[matches[m]].distance < candidates[matches[b]].distance {
        b := m;
      }
    }
  }

  /** match_location as it runs: collect the locations within reach, then take the first minimum. */
  method FindLocation(candidates: seq<Candidate>) returns (r: Result<Candidate, GeoCode>)
    ensures r == MatchLocation(candidates)
  {
    if candidates == [] {
      return Err(LocationNotAssigned);
    }
    hide MatchLocation, FirstMinimum, Reaches;
    var matches := WithinReach(candidates);
    if matches == [] {
      NothingReaches(candidates);
      return Err(LocationNotAllowed);
    }
    var b := FirstNearest(candidates, matches);
    FirstMinimumIsMatch(candidates, matches, b);
    return Ok(candidates[matches[b]]);
  }
}
