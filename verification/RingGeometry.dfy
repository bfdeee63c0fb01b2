/** Even-odd ray casting over a ring of vertices (apps/api/src/v2/geo/geo.service.ts), over exact reals. */
module RingGeometry {

  /** x is the longitude, y the latitude. */
  datatype Point = Point(x: real, y: real)

  /** Twice the signed area of p, a, b: positive when p lies left of the way from a to b. */
  function Side(p: Point, a: Point, b: Point): real {
    (a.x - p.x) * (b.y - p.y) - (b.x - p.x) * (a.y - p.y)
  }

  /** An edge that spans the point's latitude passes to the right of the point when the point lies left of the edge
      taken upwards. The lower end belongs to the edge, the upper end does not. */
  predicate Crosses(p: Point, a: Point, b: Point) {
    || (a.y <= p.y < b.y && Side(p, a, b) > 0.0)
    || (b.y <= p.y < a.y && Side(p, b, a) > 0.0)
  }

  /** Whether a path crosses the ray to the right of p an odd number of times. */
  predicate PathOdd(p: Point, path: seq<Point>) {
    if |path| < 2 then false
    else PathOdd(p, path[..|path| - 1]) != Crosses(p, path[|path| - 1], path[|path| - 2])
  }

  predicate RingOdd(p: Point, ring: seq<Point>) {
    ring != [] && PathOdd(p, ring) != Crosses(p, ring[0], ring[|ring| - 1])
  }

  predicate InRing(p: Point, ring: seq<Point>) {
    |ring| >= 3 && RingOdd(p, ring)
  }

  method PointInRing(lat: real, lng: real, ring: seq<Point>) returns (inside: bool)
    ensures inside == InRing(Point(lng, lat), ring)
  {
    if |ring| < 3 { return false; }
    inside := false;
    var i, j := 0, |ring| - 1;
    ghost var p := Point(lng, lat);
    while i < |ring|
      invariant 0 <= i <= |ring|
      invariant j == if i == 0 then |ring| - 1 else i - 1
      invariant inside == (i > 0 && (PathOdd(p, ring[..i]) != Crosses(p, ring[0], ring[|ring| - 1])))
    {
      var intersects := Intersects(lat, lng, ring[i].x, ring[i].y, ring[j].x, ring[j].y);
      if intersects { inside := !inside; }
      assert ring[..i + 1][..i] == ring[..i];
      j := i;
      i := i + 1;
    }
    assert ring[..i] == ring;
  }

  // ---- One edge ------------------------------------------------------------------

  /** The test written in the loop: where the edge meets the latitude, compared with the longitude. */
  method Intersects(lat: real, lng: real, xi: real, yi: real, xj: real, yj: real) returns (hit: bool)
    ensures hit == Crosses(Point(lng, lat), Point(xi, yi), Point(xj, yj))
  {
    hit := (yi > lat) != (yj > lat) && lng < (xj - xi) * (lat - yi) / (yj - yi) + xi;
    if (yi > lat) != (yj > lat) {
      ghost var u, n, d := lng - xi, (xj - xi) * (lat - yi), yj - yi;
      QuotientBound(u, n, d);
      SideExpanded(lat, lng, xi, yi, xj, yj);
      assert hit <==> u < n / d;
      assert Side(Point(lng, lat), Point(xi, yi), Point(xj, yj)) == n - u * d;
    }
  }

  lemma QuotientBound(u: real, n: real, d: real)
    requires d != 0.0
    ensures d > 0.0 ==> (u < n / d <==> u * d < n)
    ensures d < 0.0 ==> (u < n / d <==> u * d > n)
  {
    var q := n / d;
    assert q * d == n;
    assert u * d - n == (u - q) * d;
  }

  lemma SideExpanded(lat: real, lng: real, xi: real, yi: real, xj: real, yj: real)
    ensures (xj - xi) * (lat - yi) - (lng - xi) * (yj - yi) == Side(Point(lng, lat), Point(xi, yi), Point(xj, yj))
    ensures Side(Point(lng, lat), Point(xi, yi), Point(xj, yj)) == -Side(Point(lng, lat), Point(xj, yj), Point(xi, yi))
  {}

  /** Reversing an edge does not change the test. */
  lemma CrossesIsSymmetric(p: Point, a: Point, b: Point)
    ensures Crosses(p, a, b) == Crosses(p, b, a)
  {}

  // ---- Cutting and joining paths --------------------------------------------------

  lemma {:induction false} PathJoin(p: Point, a: seq<Point>, b: seq<Point>)
    requires a != [] && b != []
    ensures PathOdd(p, a + b) == (PathOdd(p, a) != (Crosses(p, b[0], a[|a| - 1]) != PathOdd(p, b)))
  {
    var ab := a + b;
    assert ab[..|ab| - 1] == a + b[..|b| - 1];
    if |b| == 1 {
      assert a + b[..0] == a;
    } else {
      PathJoin(p, a, b[..|b| - 1]);
    }
  }

  lemma {:induction false} PathReversed(p: Point, path: seq<Point>)
    ensures PathOdd(p, Reversed(path)) == PathOdd(p, path)
  {
    if |path| < 2 {
    } else {
      var front, last := path[..|path| - 1], path[|path| - 1];
      PathReversed(p, front);
      assert Reversed(front)[0] == front[|front| - 1];
      PathJoin(p, [last], Reversed(front));
      CrossesIsSymmetric(p, last, path[|path| - 2]);
    }
  }

  function Reversed(path: seq<Point>): (r: seq<Point>)
    ensures |r| == |path|
    ensures path != [] ==> r[0] == path[|path| - 1] && r[|r| - 1] == path[0]
  {
    if path == [] then [] else [path[|path| - 1]] + Reversed(path[..|path| - 1])
  }

  /** A ring too short to enclose anything is never crossed oddly, so the length guard changes no answer. */
  lemma ShortRingsAreEmpty(p: Point, ring: seq<Point>)
    ensures InRing(p, ring) == RingOdd(p, ring)
  {
    if |ring| == 2 {
      CrossesIsSymmetric(p, ring[0], ring[1]);
      assert PathOdd(p, ring[..1]) == false;
    }
  }

  // ---- What does not change the answer ----------------------------------------------

  lemma RotationInvariant(p: Point, ring: seq<Point>, k: nat)
    requires k <= |ring|
    ensures InRing(p, ring[k..] + ring[..k]) == InRing(p, ring)
  {
    if 0 < k < |ring| {
      PathJoin(p, ring[..k], ring[k..]);
      PathJoin(p, ring[k..], ring[..k]);
      assert ring == ring[..k] + ring[k..];
      CrossesIsSymmetric(p, ring[k], ring[k - 1]);
      CrossesIsSymmetric(p, ring[0], ring[|ring| - 1]);
    } else {
      assert ring[k..] + ring[..k] == ring;
    }
  }

  lemma ReversalInvariant(p: Point, ring: seq<Point>)
    ensures InRing(p, Reversed(ring)) == InRing(p, ring)
  {
    if ring != [] {
      PathReversed(p, ring);
      CrossesIsSymmetric(p, ring[0], ring[|ring| - 1]);
    }
  }

  /** Open or closed, a ring means the same. */
  lemma ClosingInvariant(p: Point, ring: seq<Point>)
    requires ring != []
    ensures InRing(p, ring + [ring[0]]) == InRing(p, ring)
  {
    PathJoin(p, ring, [ring[0]]);
    ShortRingsAreEmpty(p, ring);
    ShortRingsAreEmpty(p, ring + [ring[0]]);
  }

  // ---- Chords and fans ----------------------------------------------------------------

  /** The two halves on either side of the chord from the end of `head` to the end of `body`. */
  lemma ChordOnParts(p: Point, head: seq<Point>, body: seq<Point>, tail: seq<Point>)
    requires head != [] && body != []
    ensures var a, b := head[|head| - 1], body[|body| - 1];
            RingOdd(p, head + body + tail) == (RingOdd(p, [a] + body) != RingOdd(p, [b] + tail + head))
  {
    var a, b := head[|head| - 1], body[|body| - 1];
    PathJoin(p, head, body);
    PathJoin(p, [a], body);
    PathJoin(p, [b] + tail, head);
    CrossesIsSymmetric(p, a, b);
    if tail == [] {
      assert head + body + tail == head + body;
      assert [b] + tail == [b];
    } else {
      PathJoin(p, head + body, tail);
      PathJoin(p, [b], tail);
    }
  }

  /** Cutting a ring along any chord makes the answer the exclusive-or of the two halves' answers. */
  lemma ChordSplits(p: Point, ring: seq<Point>, i: nat, j: nat)
    requires i < j < |ring|
    ensures InRing(p, ring) == (InRing(p, ring[i..j + 1]) != InRing(p, ring[j..] + ring[..i + 1]))
  {
    var head, body, tail := ring[..i + 1], ring[i + 1..j + 1], ring[j + 1..];
    ChordOnParts(p, head, body, tail);
    assert ring == head + body + tail;
    assert ring[i..j + 1] == [head[i]] + body;
    assert ring[j..] == [body[j - i - 1]] + tail;
    ShortRingsAreEmpty(p, ring);
    ShortRingsAreEmpty(p, ring[i..j + 1]);
    ShortRingsAreEmpty(p, ring[j..] + ring[..i + 1]);
  }

  /** How many triangles of the fan around the first vertex the point is in. */
  function FanCount(p: Point, ring: seq<Point>): nat {
    if |ring| < 3 then 0
    else
      var n := |ring|;
      FanCount(p, ring[..n - 1]) + if InRing(p, [ring[0], ring[n - 2], ring[n - 1]]) then 1 else 0
  }

  /** The answer for any ring is the parity of the fan triangles that contain the point. */
  lemma {:induction false} FanParity(p: Point, ring: seq<Point>)
    ensures InRing(p, ring) <==> FanCount(p, ring) % 2 == 1
  {
    if |ring| < 3 {
    } else {
      var n := |ring|;
      FanParity(p, ring[..n - 1]);
      ChordSplits(p, ring, 0, n - 2);
      assert ring[0..n - 1] == ring[..n - 1];
      assert ring[n - 2..] + ring[..1] == [ring[n - 2], ring[n - 1], ring[0]];
      var t := [ring[0], ring[n - 2], ring[n - 1]];
      RotationInvariant(p, t, 1);
      assert t[1..] + t[..1] == [ring[n - 2], ring[n - 1], ring[0]];
    }
  }

  // ---- What a triangle's answer means ---------------------------------------------------

  predicate InOpenTriangle(p: Point, a: Point, b: Point, c: Point) {
    || (Side(p, a, b) > 0.0 && Side(p, b, c) > 0.0 && Side(p, c, a) > 0.0)
    || (Side(p, a, b) < 0.0 && Side(p, b, c) < 0.0 && Side(p, c, a) < 0.0)
  }

  predicate InClosedTriangle(p: Point, a: Point, b: Point, c: Point) {
    || (Side(p, a, b) >= 0.0 && Side(p, b, c) >= 0.0 && Side(p, c, a) >= 0.0)
    || (Side(p, a, b) <= 0.0 && Side(p, b, c) <= 0.0 && Side(p, c, a) <= 0.0)
  }

  lemma Barycentric(p: Point, a: Point, b: Point, c: Point)
    ensures Side(p, a, b) * (c.y - p.y) + Side(p, b, c) * (a.y - p.y) + Side(p, c, a) * (b.y - p.y) == 0.0
  {
    var x0, y0, x1, y1, x2, y2 := a.x - p.x, a.y - p.y, b.x - p.x, b.y - p.y, c.x - p.x, c.y - p.y;
    assert (x0 * y1 - x1 * y0) * y2 == x0 * y1 * y2 - x1 * y0 * y2;
    assert (x1 * y2 - x2 * y1) * y0 == x1 * y2 * y0 - x2 * y1 * y0;
    assert (x2 * y0 - x0 * y2) * y1 == x2 * y0 * y1 - x0 * y2 * y1;
  }

  lemma TriangleEdges(p: Point, a: Point, b: Point, c: Point)
    ensures InRing(p, [a, b, c]) == (Crosses(p, a, b) != (Crosses(p, b, c) != Crosses(p, c, a)))
  {
    PathJoin(p, [a], [b]);
    PathJoin(p, [a] + [b], [c]);
    assert [a] + [b] + [c] == [a, b, c];
  }

  /** A triangle's answer is true throughout its interior and false throughout its exterior;
      only points on its sides are settled by the half-open convention. */
  lemma TriangleMeansInside(p: Point, a: Point, b: Point, c: Point)
    ensures InOpenTriangle(p, a, b, c) ==> InRing(p, [a, b, c])
    ensures InRing(p, [a, b, c]) ==> InClosedTriangle(p, a, b, c)
  {
    TriangleEdges(p, a, b, c);
    Barycentric(p, a, b, c);
    Antisymmetric(p, a, b);
    Antisymmetric(p, b, c);
    Antisymmetric(p, c, a);
    TriangleCases(Side(p, a, b), Side(p, b, c), Side(p, c, a), a.y - p.y, b.y - p.y, c.y - p.y,
                  Crosses(p, a, b), Crosses(p, b, c), Crosses(p, c, a));
  }

  lemma Antisymmetric(p: Point, a: Point, b: Point)
    ensures Side(p, b, a) == -Side(p, a, b)
  {}

  /** The edge test in heights above the ray. */
  predicate Hit(side: real, from: real, to: real) {
    (from <= 0.0 < to && side > 0.0) || (to <= 0.0 < from && side < 0.0)
  }

  lemma TriangleCases(ab: real, bc: real, ca: real, ya: real, yb: real, yc: real, p: bool, q: bool, r: bool)
    requires ab * yc + bc * ya + ca * yb == 0.0
    requires ya == 0.0 && yb == 0.0 ==> ab == 0.0
    requires p == Hit(ab, ya, yb) && q == Hit(bc, yb, yc) && r == Hit(ca, yc, ya)
    ensures (ab > 0.0 && bc > 0.0 && ca > 0.0) || (ab < 0.0 && bc < 0.0 && ca < 0.0) ==> p != (q != r)
    ensures p != (q != r) ==> (ab >= 0.0 && bc >= 0.0 && ca >= 0.0) || (ab <= 0.0 && bc <= 0.0 && ca <= 0.0)
  {}

  predicate OffSides(p: Point, ring: seq<Point>, k: nat)
    requires 1 <= k < |ring| - 1
  {
    Side(p, ring[0], ring[k]) != 0.0 && Side(p, ring[k], ring[k + 1]) != 0.0 && Side(p, ring[k + 1], ring[0]) != 0.0
  }

  /** The point lies on no line through two vertices of a fan triangle. */
  ghost predicate OffFanLines(p: Point, ring: seq<Point>) {
    forall k :: 1 <= k < |ring| - 1 ==> OffSides(p, ring, k)
  }

  /** How many fan triangles contain the point in the plain geometric sense. */
  function FanDegree(p: Point, ring: seq<Point>): nat {
    if |ring| < 3 then 0
    else
      var n := |ring|;
      FanDegree(p, ring[..n - 1]) + if InOpenTriangle(p, ring[0], ring[n - 2], ring[n - 1]) then 1 else 0
  }

  /** Off the fan's lines the answer is the parity of the triangles that geometrically contain the point. */
  lemma {:induction false} InRingIsFanDegreeParity(p: Point, ring: seq<Point>)
    requires OffFanLines(p, ring)
    ensures FanCount(p, ring) == FanDegree(p, ring)
    ensures InRing(p, ring) <==> FanDegree(p, ring) % 2 == 1
  {
    FanParity(p, ring);
    if |ring| < 3 {
    } else {
      var n := |ring|;
      var front := ring[..n - 1];
      forall k | 1 <= k < |front| - 1
        ensures OffSides(p, front, k)
      {
        assert OffSides(p, ring, k);
      }
      InRingIsFanDegreeParity(p, front);
      TriangleMeansInside(p, ring[0], ring[n - 2], ring[n - 1]);
      assert OffSides(p, ring, n - 2);
    }
  }

  /** On an upright rectangle the answer is the plain test of the four sides, lower and left included. */
  lemma RectangleIsHalfOpen(p: Point, low: Point, high: Point)
    requires low.x < high.x && low.y < high.y
    ensures InRing(p, [low, Point(high.x, low.y), high, Point(low.x, high.y)])
            <==> low.x <= p.x < high.x && low.y <= p.y < high.y
  {
    var b, d := Point(high.x, low.y), Point(low.x, high.y);
    var ring := [low, b, high, d];
    assert ring[..3] == [low, b, high] && ring[..3][..2] == [low, b] && [low, b][..1] == [low];
    assert PathOdd(p, [low, b]) == Crosses(p, b, low);
    assert PathOdd(p, [low, b, high]) == (Crosses(p, b, low) != Crosses(p, high, b));
    assert PathOdd(p, ring) == (PathOdd(p, [low, b, high]) != Crosses(p, d, high));
    UprightEdge(p, b, high);
    UprightEdge(p, low, d);
  }

  lemma UprightEdge(p: Point, a: Point, b: Point)
    requires a.x == b.x && a.y < b.y
    ensures Crosses(p, a, b) <==> a.y <= p.y < b.y && p.x < a.x
    ensures Crosses(p, b, a) <==> Crosses(p, a, b)
  {
    var w, h := a.x - p.x, b.y - a.y;
    assert Side(p, a, b) == w * h;
    if w > 0.0 {
      assert w * h > 0.0;
    } else if w < 0.0 {
      var v := -w;
      assert v * h > 0.0;
      assert w * h == -(v * h);
    }
  }

  // ---- The bounding box ------------------------------------------------------------------

  ghost predicate AllBeyond(p: Point, path: seq<Point>, right: bool) {
    forall i :: 0 <= i < |path| ==> (path[i].x > p.x) == right
  }

  /** To the left of every vertex each spanning edge counts, so a path counts the changes of half-plane. */
  lemma {:induction false} LeftOfPath(p: Point, path: seq<Point>)
    requires path != [] && AllBeyond(p, path, true)
    ensures PathOdd(p, path) == ((path[0].y > p.y) != (path[|path| - 1].y > p.y))
  {
    if |path| < 2 {
    } else {
      var n := |path|;
      LeftOfPath(p, path[..n - 1]);
      LeftOfEdge(p, path[n - 1], path[n - 2]);
    }
  }

  lemma LeftOfEdge(p: Point, a: Point, b: Point)
    requires a.x > p.x && b.x > p.x
    ensures Crosses(p, a, b) == ((a.y > p.y) != (b.y > p.y))
  {
    var x0, y0, x1, y1 := a.x - p.x, a.y - p.y, b.x - p.x, b.y - p.y;
    if y0 <= 0.0 < y1 { assert x0 * y1 > 0.0 && x1 * y0 <= 0.0; }
    if y1 <= 0.0 < y0 { assert x1 * y0 > 0.0 && x0 * y1 <= 0.0; }
  }

  lemma RightOfEdge(p: Point, a: Point, b: Point)
    requires a.x <= p.x && b.x <= p.x
    ensures !Crosses(p, a, b)
  {
    var x0, y0, x1, y1 := a.x - p.x, a.y - p.y, b.x - p.x, b.y - p.y;
    if y0 <= 0.0 < y1 { assert x0 * y1 <= 0.0 && x1 * y0 >= 0.0; }
    if y1 <= 0.0 < y0 { assert x1 * y0 <= 0.0 && x0 * y1 >= 0.0; }
  }

  ghost predicate NeverCrossed(p: Point, path: seq<Point>) {
    forall i, j :: 0 <= i < |path| && 0 <= j < |path| ==> !Crosses(p, path[i], path[j])
  }

  lemma {:induction false} UncrossedPathIsEven(p: Point, path: seq<Point>)
    requires NeverCrossed(p, path)
    ensures !PathOdd(p, path)
  {
    if |path| < 2 {
    } else {
      UncrossedPathIsEven(p, path[..|path| - 1]);
    }
  }

  /** A point answered as inside lies in the half-open bounding box of the ring: lower and left bounds included,
      upper and right bounds excluded. */
  lemma InsideMeansInBox(p: Point, ring: seq<Point>)
    requires InRing(p, ring)
    ensures exists v :: v in ring && v.x <= p.x
    ensures exists v :: v in ring && v.x > p.x
    ensures exists v :: v in ring && v.y <= p.y
    ensures exists v :: v in ring && v.y > p.y
  {
    if forall v :: v in ring ==> v.x > p.x {
      LeftOfPath(p, ring);
      LeftOfEdge(p, ring[0], ring[|ring| - 1]);
      assert false;
    }
    if forall v :: v in ring ==> v.x <= p.x {
      forall i, j | 0 <= i < |ring| && 0 <= j < |ring|
        ensures !Crosses(p, ring[i], ring[j])
      {
        RightOfEdge(p, ring[i], ring[j]);
      }
      UncrossedPathIsEven(p, ring);
      assert false;
    }
    if forall v :: v in ring ==> v.y > p.y {
      UncrossedPathIsEven(p, ring);
      assert false;
    }
    if forall v :: v in ring ==> v.y <= p.y {
      UncrossedPathIsEven(p, ring);
      assert false;
    }
  }
}
