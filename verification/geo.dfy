/** Coordinates, longitude/latitude boxes, and the R-tree over residential points,
    modelled as the list of its entries and an intersection filter. */
module Geo {

  /** A position in degrees; the source keeps nodes as `(lat, lon)` pairs. */
  datatype Coord = Coord(lat: real, lon: real)

  /** An axis-aligned box in the R-tree's `(minx, miny, maxx, maxy)` order: x is longitude. */
  datatype Box = Box(minLon: real, minLat: real, maxLon: real, maxLat: real)

  /** The margin, in degrees, added on every side of a query box. */
  const Pad: real := 0.01

  function Abs(x: real): real {
    if x < 0.0 then -x else x
  }

  function Min(x: real, y: real): (m: real)
    ensures m <= x && m <= y && (m == x || m == y)
  {
    if x <= y then x else y
  }

  function Max(x: real, y: real): (m: real)
    ensures m >= x && m >= y && (m == x || m == y)
  {
    if x >= y then x else y
  }

  /** The point lies in the closed box. */
  predicate Contains(b: Box, p: Coord) {
    b.minLon <= p.lon <= b.maxLon && b.minLat <= p.lat <= b.maxLat
  }

  /** Two closed boxes share at least one point, the R-tree's `intersection` test. */
  predicate Intersects(a: Box, b: Box) {
    a.minLon <= b.maxLon && b.minLon <= a.maxLon && a.minLat <= b.maxLat && b.minLat <= a.maxLat
  }

  /** The degenerate box `(lon, lat, lon, lat)` a residential point is inserted with. */
  function PointBox(p: Coord): (b: Box)
    ensures Contains(b, p)
    ensures forall q :: Intersects(b, q) <==> Contains(q, p)
  {
    Box(p.lon, p.lat, p.lon, p.lat)
  }

  /** The query box around a point object: `Pad` degrees on each side. */
  function PadBox(c: Coord): (b: Box)
    ensures forall p :: Contains(b, p) <==> Abs(p.lon - c.lon) <= Pad && Abs(p.lat - c.lat) <= Pad
  {
    Box(c.lon - Pad, c.lat - Pad, c.lon + Pad, c.lat + Pad)
  }

  /** The query box around a line segment: the endpoints' bounding box grown by `Pad`. */
  function SegmentBox(a: Coord, c: Coord): (b: Box)
    ensures Contains(b, a) && Contains(b, c)
    ensures forall p :: Contains(PadBox(a), p) || Contains(PadBox(c), p) ==> Contains(b, p)
    ensures forall p :: Contains(b, p) <==>
      Min(a.lon, c.lon) - Pad <= p.lon <= Max(a.lon, c.lon) + Pad &&
      Min(a.lat, c.lat) - Pad <= p.lat <= Max(a.lat, c.lat) + Pad
  {
    Box(Min(a.lon, c.lon) - Pad, Min(a.lat, c.lat) - Pad, Max(a.lon, c.lon) + Pad, Max(a.lat, c.lat) + Pad)
  }

  /** The box of a segment does not depend on its direction, and a one-point segment gets a point's box. */
  lemma SegmentBoxShape(a: Coord, c: Coord)
    ensures SegmentBox(a, c) == SegmentBox(c, a)
    ensures SegmentBox(a, a) == PadBox(a)
  {
  }

  /** One R-tree entry: the position the point was inserted under, and its box. */
  datatype Entry = Entry(pos: nat, box: Box)

  /** The R-tree entries: every residential point inserted under its position with its degenerate box. */
  function BuildIndex(res: seq<Coord>): (ix: seq<Entry>)
    ensures |ix| == |res|
    ensures forall k :: 0 <= k < |ix| ==> ix[k].pos == k && ix[k].box == PointBox(res[k])
  {
    seq(|res|, k requires 0 <= k < |res| => Entry(k, PointBox(res[k])))
  }

  /** Entry positions strictly increase along the sequence. */
  predicate IncreasingPositions(ix: seq<Entry>) {
    forall a, b :: 0 <= a < b < |ix| ==> ix[a].pos < ix[b].pos
  }

  predicate Increasing(xs: seq<nat>) {
    forall a, b :: 0 <= a < b < |xs| ==> xs[a] < xs[b]
  }

  /** An R-tree intersection query: the positions of the entries whose box meets `q`,
      here in insertion order. */
  function Query(ix: seq<Entry>, q: Box): (r: seq<nat>)
    ensures |r| <= |ix|
    ensures forall p :: p in r <==> exists k :: 0 <= k < |ix| && ix[k].pos == p && Intersects(ix[k].box, q)
    ensures IncreasingPositions(ix) ==> Increasing(r)
    decreases |ix|
  {
    if |ix| == 0 then []
    else
      var rest := Query(ix[1..], q);
      assert forall k :: 0 < k < |ix| ==> ix[k] == ix[1..][k - 1];
      assert IncreasingPositions(ix) ==> IncreasingPositions(ix[1..]);
      assert IncreasingPositions(ix) ==> forall x :: x in rest ==> ix[0].pos < x;
      assert IncreasingPositions(ix) ==> Increasing([ix[0].pos] + rest) by {
        if IncreasingPositions(ix) {
          ConsIncreasing(ix[0].pos, rest);
        }
      }
      if Intersects(ix[0].box, q) then [ix[0].pos] + rest else rest
  }

  lemma ConsIncreasing(h: nat, rest: seq<nat>)
    requires Increasing(rest)
    requires forall x :: x in rest ==> h < x
    ensures Increasing([h] + rest)
  {
    var r := [h] + rest;
    forall a, b | 0 <= a < b < |r| ensures r[a] < r[b] {
      assert r[b] == rest[b - 1] && rest[b - 1] in rest;
      if a > 0 {
        assert r[a] == rest[a - 1];
      }
    }
  }

  /** The candidates of a query over the residential index: exactly the residential
      positions whose point lies in the box, each once, in increasing order. */
  function Candidates(res: seq<Coord>, q: Box): (r: seq<nat>)
    ensures forall i :: i in r <==> 0 <= i < |res| && Contains(q, res[i])
    ensures forall k :: 0 <= k < |r| ==> r[k] < |res|
    ensures Increasing(r)
  {
    var r := Query(BuildIndex(res), q);
    assert forall k :: 0 <= k < |r| ==> r[k] in r;
    r
  }

  /** No false negatives: a residential point within `Pad` degrees of a point object
      on both axes is among that object's candidates. */
  lemma CandidateSoundness(res: seq<Coord>, c: Coord, i: nat)
    requires i < |res|
    requires Abs(res[i].lon - c.lon) <= Pad && Abs(res[i].lat - c.lat) <= Pad
    ensures i in Candidates(res, PadBox(c))
  {
  }

  /** An empty index has no candidates for any query. */
  lemma EmptyIndex(q: Box)
    ensures Candidates([], q) == []
  {
  }
}
