/** Power lines: resolving a way's node ids to coordinates, and cutting the
    resulting polyline into consecutive segments. */
module Lines {
  import opened Geo

  /** The positions of `ids` whose id is a known node, in increasing order. */
  function Kept(ids: seq<int>, nodes: map<int, Coord>): (ks: seq<nat>)
    ensures forall p :: p in ks <==> 0 <= p < |ids| && ids[p] in nodes
    ensures forall k :: 0 <= k < |ks| ==> ks[k] < |ids| && ids[ks[k]] in nodes
    ensures Increasing(ks)
    decreases |ids|
  {
    if |ids| == 0 then []
    else
      var n := |ids| - 1;
      var front := Kept(ids[..n], nodes);
      assert forall k :: 0 <= k < |front| ==> front[k] in front;
      if ids[n] in nodes then front + [n] else front
  }

  /** The coordinates of a way's ids that are in the node table, in order; unknown ids are skipped. */
  function Resolve(ids: seq<int>, nodes: map<int, Coord>): (pts: seq<Coord>)
    ensures |pts| == |Kept(ids, nodes)| <= |ids|
    ensures forall k :: 0 <= k < |pts| ==> pts[k] == nodes[ids[Kept(ids, nodes)[k]]]
    decreases |ids|
  {
    if |ids| == 0 then []
    else
      var n := |ids| - 1;
      var front := Resolve(ids[..n], nodes);
      if ids[n] in nodes then front + [nodes[ids[n]]] else front
  }

  /** When every id is known nothing is dropped and the order is kept. */
  lemma {:induction false} ResolveAllKnown(ids: seq<int>, nodes: map<int, Coord>)
    requires forall k :: 0 <= k < |ids| ==> ids[k] in nodes
    ensures |Resolve(ids, nodes)| == |ids|
    ensures forall k :: 0 <= k < |ids| ==> Resolve(ids, nodes)[k] == nodes[ids[k]]
  {
    KeptAll(ids, nodes);
  }

  lemma {:induction false} KeptAll(ids: seq<int>, nodes: map<int, Coord>)
    requires forall k :: 0 <= k < |ids| ==> ids[k] in nodes
    ensures Kept(ids, nodes) == seq(|ids|, k requires 0 <= k < |ids| => k)
    decreases |ids|
  {
    if |ids| > 0 {
      KeptAll(ids[..|ids| - 1], nodes);
    }
  }

  /** A line whose ids are all unknown resolves to no points. */
  lemma ResolveNoneKnown(ids: seq<int>, nodes: map<int, Coord>)
    requires forall k :: 0 <= k < |ids| ==> ids[k] !in nodes
    ensures Resolve(ids, nodes) == []
  {
  }

  /** The straight piece of a polyline between two consecutive vertices. */
  datatype Segment = Segment(start: Coord, end: Coord)

  /** The segments joining each point of a polyline to the next one. */
  function Segments(pts: seq<Coord>): (segs: seq<Segment>)
    ensures |segs| == if |pts| == 0 then 0 else |pts| - 1
    ensures forall i :: 0 <= i < |segs| ==> segs[i] == Segment(pts[i], pts[i + 1])
    decreases |pts|
  {
    if |pts| < 2 then []
    else [Segment(pts[0], pts[1])] + Segments(pts[1..])
  }

  /** Each segment starts where the previous one ends. */
  predicate Chained(segs: seq<Segment>) {
    forall i :: 0 < i < |segs| ==> segs[i - 1].end == segs[i].start
  }

  /** The polyline a chain of segments walks through. */
  function Vertices(segs: seq<Segment>): (pts: seq<Coord>)
    requires |segs| > 0
    ensures |pts| == |segs| + 1
  {
    [segs[0].start] + seq(|segs|, i requires 0 <= i < |segs| => segs[i].end)
  }

  /** Cutting a polyline into segments loses nothing: the segments are chained and
      walking them gives the polyline back. */
  lemma SegmentsRoundTrip(pts: seq<Coord>)
    requires |pts| >= 2
    ensures Chained(Segments(pts))
    ensures Vertices(Segments(pts)) == pts
  {
    var vs := Vertices(Segments(pts));
    assert forall i :: 0 <= i < |pts| ==> vs[i] == pts[i];
  }

  /** Chained segments are exactly the segments of the polyline they walk. */
  lemma SegmentsOfVertices(segs: seq<Segment>)
    requires |segs| > 0
    requires Chained(segs)
    ensures Segments(Vertices(segs)) == segs
  {
    var vs := Vertices(segs);
    var ss := Segments(vs);
    forall i | 0 <= i < |segs| ensures ss[i] == segs[i] {
      assert vs[i + 1] == segs[i].end;
      if i > 0 {
        assert vs[i] == segs[i - 1].end == segs[i].start;
      }
    }
  }
}
