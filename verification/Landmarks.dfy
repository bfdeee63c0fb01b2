/** Boundary parsing and landmark association (apps/api/src/v2/geo/geo.service.ts). The great-circle distance of a
    landmark from the point is given, not computed. */
module Landmarks {
  import opened Wrappers
  import opened RingGeometry

  // ---- Boundary --------------------------------------------------------------------

  datatype Json = JNull | JBool(b: bool) | JNumber(n: real) | JString(s: string) | JArray(items: seq<Json>)
                | JObject(keys: seq<string>)

  /** A coordinate pair, when an entry holds one; further items are ignored. */
  function PairOf(entry: Json): Option<Point> {
    if entry.JArray? && |entry.items| >= 2 && entry.items[0].JNumber? && entry.items[1].JNumber?
    then Some(Point(entry.items[0].n, entry.items[1].n)) else None
  }

  function Pairs(entries: seq<Json>): seq<Point> {
    if entries == [] then []
    else
      var n := |entries|;
      var pair := PairOf(entries[n - 1]);
      Pairs(entries[..n - 1]) + if pair.Some? then [pair.value] else []
  }

  /** Entries are read one by one: each is a point when it starts with two numbers, and nothing otherwise. */
  lemma {:induction false} PairsJoin(a: seq<Json>, b: seq<Json>)
    ensures Pairs(a + b) == Pairs(a) + Pairs(b)
  {
    if b == [] {
      assert a + b == a;
    } else {
      PairsJoin(a, b[..|b| - 1]);
      assert (a + b)[..|a + b| - 1] == a + b[..|b| - 1];
    }
  }

  lemma PairsOfOne(entry: Json)
    ensures Pairs([entry])
            == match entry
               case JArray(items) =>
                 if |items| >= 2 && items[0].JNumber? && items[1].JNumber? then [Point(items[0].n, items[1].n)] else []
               case _ => []
  {
    assert Pairs([entry][..0]) == [];
  }

  method ParseBoundary(value: Json) returns (ring: seq<Point>)
    ensures ring == if value.JArray? then Pairs(value.items) else []
  {
    ring := [];
    if !value.JArray? { return; }
    for i := 0 to |value.items|
      invariant ring == Pairs(value.items[..i])
    {
      var entry := value.items[i];
      assert value.items[..i + 1][..i] == value.items[..i];
      if entry.JArray? && |entry.items| >= 2 {
        if entry.items[0].JNumber? && entry.items[1].JNumber? {
          ring := ring + [Point(entry.items[0].n, entry.items[1].n)];
        }
      }
    }
    assert value.items[..|value.items|] == value.items;
  }

  function Encoded(ring: seq<Point>): seq<Json> {
    seq(|ring|, i requires 0 <= i < |ring| => JArray([JNumber(ring[i].x), JNumber(ring[i].y)]))
  }

  /** A stored ring is read back as it was written. */
  lemma {:induction false} BoundaryRoundTrip(ring: seq<Point>)
    ensures Pairs(Encoded(ring)) == ring
  {
    if ring == [] {
    } else {
      var front := ring[..|ring| - 1];
      BoundaryRoundTrip(front);
      assert Encoded(ring)[..|ring| - 1] == Encoded(front);
      assert ring == front + [ring[|ring| - 1]];
    }
  }

  // ---- Nearest landmark ---------------------------------------------------------------

  const MAX_ASSOCIATION_DISTANCE_M := 400.0

  datatype Landmark = Landmark(id: string, name: string, category: string, radiusM: real, distance: real)

  datatype Match = Match(id: string, name: string, category: string, distanceM: int)

  /** Math.round: halves go up. */
  function Round(x: real): int {
    (x + 0.5).Floor
  }

  function Reach(lm: Landmark): real {
    if lm.radiusM < MAX_ASSOCIATION_DISTANCE_M then lm.radiusM else MAX_ASSOCIATION_DISTANCE_M
  }

  predicate Eligible(lm: Landmark) {
    lm.distance <= Reach(lm)
  }

  function MatchOf(lm: Landmark): Match {
    Match(lm.id, lm.name, lm.category, Round(lm.distance))
  }

  /** No eligible landmark rounds to less than this one. */
  ghost predicate RoundsLeast(lms: seq<Landmark>, k: nat)
    requires k < |lms|
  {
    && Eligible(lms[k])
    && forall i :: 0 <= i < |lms| && Eligible(lms[i]) ==> Round(lms[k].distance) <= Round(lms[i].distance)
  }

  /** Which of the landmarks tied after rounding is kept: one whose distance is below the rounded value is displaced
      by a later such one; if there is none, the first of the tied stays. */
  ghost predicate Kept(lms: seq<Landmark>, k: nat)
    requires k < |lms|
  {
    && RoundsLeast(lms, k)
    && var r := Round(lms[k].distance);
       if lms[k].distance < r as real
       then forall i :: k < i < |lms| && Eligible(lms[i]) ==> lms[i].distance >= r as real
       else forall i :: 0 <= i < |lms| && Eligible(lms[i]) ==>
              lms[i].distance >= r as real && (i < k ==> Round(lms[i].distance) > r)
  }

  /** The landmark's own id, name and category, and its distance to the nearest metre, halves upwards; it is in reach
      when it is no farther than its own radius and 400 m. */
  predicate Describes(m: Match, lm: Landmark) {
    && m.id == lm.id && m.name == lm.name && m.category == lm.category
    && lm.distance - 0.5 < m.distanceM as real <= lm.distance + 0.5
    && lm.distance <= lm.radiusM && lm.distance <= 400.0
  }

  lemma EligibleMeans(lm: Landmark)
    ensures Eligible(lm) <==> lm.distance <= lm.radiusM && lm.distance <= 400.0
    ensures Eligible(lm) ==> Describes(MatchOf(lm), lm)
  {}

  ghost predicate Answers(lms: seq<Landmark>, best: Option<Match>) {
    if best.None? then forall i :: 0 <= i < |lms| ==> !Eligible(lms[i])
    else exists k :: 0 <= k < |lms| && Kept(lms, k) && best.value == MatchOf(lms[k])
  }

  /** The loop compares an unrounded distance with the rounded best. */
  method NearestLandmark(lms: seq<Landmark>) returns (best: Option<Match>)
    ensures Answers(lms, best)
    ensures best.Some? ==> exists k :: 0 <= k < |lms| && Kept(lms, k) && Describes(best.value, lms[k])
  {
    best := None;
    ghost var at: nat := 0;
    for i := 0 to |lms|
      invariant best.None? ==> forall j :: 0 <= j < i ==> !Eligible(lms[j])
      invariant best.Some? ==> at < i && Kept(lms[..i], at) && best.value == MatchOf(lms[at])
    {
      var distance := lms[i].distance;
      var limit := if lms[i].radiusM < MAX_ASSOCIATION_DISTANCE_M then lms[i].radiusM else MAX_ASSOCIATION_DISTANCE_M;
      if distance > limit {
        if best.Some? { KeptSkips(lms, i, at); }
        continue;
      }
      if best.None? || distance < best.value.distanceM as real {
        if best.Some? { KeptMoves(lms, i, at); }
        best := Some(Match(lms[i].id, lms[i].name, lms[i].category, Round(distance)));
        at := i;
      } else {
        KeptStays(lms, i, at);
      }
    }
    assert lms[..|lms|] == lms;
  }

  lemma RoundBounds(x: real)
    ensures Round(x) as real - 0.5 <= x < Round(x) as real + 0.5
  {}

  lemma RoundBelow(x: real, r: int)
    requires x < r as real
    ensures Round(x) <= r
  {
    RoundBounds(x);
  }

  lemma RoundNotBelow(x: real, r: int)
    requires x >= r as real
    ensures Round(x) >= r
  {
    RoundBounds(x);
  }

  lemma KeptSkips(lms: seq<Landmark>, i: nat, at: nat)
    requires at < i < |lms| && Kept(lms[..i], at) && !Eligible(lms[i])
    ensures Kept(lms[..i + 1], at)
  {
    assert forall j :: 0 <= j < i ==> lms[..i + 1][j] == lms[..i][j];
  }

  lemma KeptStays(lms: seq<Landmark>, i: nat, at: nat)
    requires at < i < |lms| && Kept(lms[..i], at)
    requires Eligible(lms[i]) && lms[i].distance >= Round(lms[at].distance) as real
    ensures Kept(lms[..i + 1], at)
  {
    assert forall j :: 0 <= j < i ==> lms[..i + 1][j] == lms[..i][j];
    RoundNotBelow(lms[i].distance, Round(lms[at].distance));
  }

  lemma KeptMoves(lms: seq<Landmark>, i: nat, at: nat)
    requires at < i < |lms| && Kept(lms[..i], at)
    requires Eligible(lms[i]) && lms[i].distance < Round(lms[at].distance) as real
    ensures Kept(lms[..i + 1], i)
  {
    var before, after := lms[..i], lms[..i + 1];
    assert forall j :: 0 <= j < i ==> after[j] == before[j];
    RoundBelow(lms[i].distance, Round(lms[at].distance));
    forall j | 0 <= j < i && Eligible(before[j])
      ensures Round(lms[i].distance) <= Round(before[j].distance)
      ensures lms[i].distance >= Round(lms[i].distance) as real ==>
                Round(before[j].distance) > Round(lms[i].distance)
    {
      RoundBounds(lms[i].distance);
    }
    forall j | 0 <= j < i && Eligible(before[j]) && lms[i].distance >= Round(lms[i].distance) as real
      ensures before[j].distance >= Round(lms[i].distance) as real
    {
      RoundBounds(before[j].distance);
    }
  }

  ghost predicate NearlyNearest(lms: seq<Landmark>, k: nat)
    requires k < |lms|
  {
    && Eligible(lms[k])
    && forall i :: 0 <= i < |lms| && Eligible(lms[i]) ==>
         Round(lms[k].distance) <= Round(lms[i].distance) && lms[k].distance < lms[i].distance + 1.0
  }

  /** Nothing is associated exactly when nothing is in reach; otherwise the reported distance is the least rounded
      distance in reach, and the landmark is less than a metre farther than the true nearest. */
  lemma NearestWithinOneMetre(lms: seq<Landmark>, best: Option<Match>)
    requires Answers(lms, best)
    ensures best.None? <==> forall i :: 0 <= i < |lms| ==> !Eligible(lms[i])
    ensures best.Some? ==> exists k :: 0 <= k < |lms| && NearlyNearest(lms, k) && best.value == MatchOf(lms[k])
  {
    if best.Some? {
      var k :| 0 <= k < |lms| && Kept(lms, k) && best.value == MatchOf(lms[k]);
      forall i | 0 <= i < |lms| && Eligible(lms[i])
        ensures Round(lms[k].distance) <= Round(lms[i].distance) && lms[k].distance < lms[i].distance + 1.0
      {
        RoundBounds(lms[k].distance);
        RoundBounds(lms[i].distance);
      }
      assert NearlyNearest(lms, k);
    }
  }

  /** `Kept` pins down one landmark, so two answers for the same landmarks are the same answer. */
  lemma AnswerIsUnique(lms: seq<Landmark>, a: Option<Match>, b: Option<Match>)
    requires Answers(lms, a) && Answers(lms, b)
    ensures a == b
  {
    if a.Some? && b.Some? {
      var k :| 0 <= k < |lms| && Kept(lms, k) && a.value == MatchOf(lms[k]);
      var l :| 0 <= l < |lms| && Kept(lms, l) && b.value == MatchOf(lms[l]);
      assert k == l;
    }
  }

  ghost predicate Nearest(lms: seq<Landmark>, k: nat)
    requires k < |lms|
  {
    Eligible(lms[k]) && forall i :: 0 <= i < |lms| && Eligible(lms[i]) ==> lms[k].distance <= lms[i].distance
  }

  predicate InReachAt(lm: Landmark, distance: real) {
    Eligible(lm) && lm.distance == distance
  }

  /** When the order of the landmarks lets a nearest one be kept. With the least distance below its rounded value,
      every farther landmark that is also below it must have a nearest one after it; otherwise every farther landmark
      that rounds alike must have a nearest one before it. */
  ghost predicate OrderFavoursNearest(lms: seq<Landmark>, least: real) {
    var r := Round(least);
    if least < r as real
    then forall i :: 0 <= i < |lms| && Eligible(lms[i]) && least < lms[i].distance < r as real ==>
           exists j :: i < j < |lms| && InReachAt(lms[j], least)
    else forall i :: 0 <= i < |lms| && Eligible(lms[i]) && least < lms[i].distance && Round(lms[i].distance) == r ==>
           exists j :: 0 <= j < i && InReachAt(lms[j], least)
  }

  /** The exact condition under which the landmark the loop keeps is a nearest one. */
  lemma KeptIsNearestIff(lms: seq<Landmark>, k: nat, n: nat)
    requires k < |lms| && Kept(lms, k)
    requires n < |lms| && Nearest(lms, n)
    ensures Nearest(lms, k) <==> OrderFavoursNearest(lms, lms[n].distance)
  {
    var least := lms[n].distance;
    RoundBounds(least);
    RoundBounds(lms[k].distance);
    assert InReachAt(lms[n], least);
    if Nearest(lms, k) {
      assert InReachAt(lms[k], least);
    }
  }

  /** The nearest can be displaced by a farther one in the same rounded metre. */
  lemma NearestCanBeDisplaced(a: Landmark, b: Landmark)
    requires Eligible(a) && Eligible(b) && a.distance == 9.6 && b.distance == 9.8
    ensures Kept([a, b], 1) && !Kept([a, b], 0)
  {
    assert Round(9.6) == 10 && Round(9.8) == 10;
    assert [a, b][1] == b && [a, b][0] == a;
  }

  // ---- The answer for one point ---------------------------------------------------------

  datatype GeoConfig = GeoConfig(displayName: string, boundary: Json)

  datatype Resolved = Resolved(insideCampus: Option<bool>, landmark: Option<Match>, suggestedAddress: Option<string>)

  method ResolveLocation(lat: real, lng: real, config: Option<GeoConfig>, landmarks: seq<Landmark>)
    returns (r: Resolved)
    ensures r.insideCampus ==
              if config.Some? && config.value.boundary.JArray? && |Pairs(config.value.boundary.items)| >= 3
              then Some(RingOdd(Point(lng, lat), Pairs(config.value.boundary.items))) else None
    ensures Answers(landmarks, r.landmark)
    ensures r.suggestedAddress.Some? <==>
              r.landmark.Some? || (r.insideCampus == Some(true) && config.value.displayName != "")
    ensures r.landmark.Some? && (config.None? || config.value.displayName == "") ==>
              r.suggestedAddress == Some(r.landmark.value.name)
    ensures r.landmark.Some? && config.Some? && config.value.displayName != "" ==>
              r.suggestedAddress == Some(r.landmark.value.name + ", " + config.value.displayName)
    ensures r.landmark.None? && r.suggestedAddress.Some? ==> r.suggestedAddress == Some(config.value.displayName)
  {
    var insideCampus := None;
    if config.Some? {
      var ring := ParseBoundary(config.value.boundary);
      if |ring| >= 3 {
        var inside := PointInRing(lat, lng, ring);
        insideCampus := Some(inside);
      }
    }
    var best := NearestLandmark(landmarks);
    var campusName := if config.Some? then config.value.displayName else "";
    var suggested: Option<string> :=
      if best.Some? then Some(if campusName != "" then best.value.name + ", " + campusName else best.value.name)
      else if insideCampus == Some(true) && campusName != "" then Some(campusName)
      else None;
    r := Resolved(insideCampus, best, suggested);
  }
}
