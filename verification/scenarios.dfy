/** Consequences of the detection contract for single hits, and three small runs
    worked out for any distance function that agrees with the stated distances. */
module Scenarios {
  import opened Wrappers
  import opened Geo
  import opened Lines
  import opened RiskPolicy
  import opened Overpass
  import opened Proximity

  /** A building inside an object's box is flagged exactly when its distance is at
      most the threshold; equality counts as a hit. */
  lemma PointRuleInclusive(nodes: map<int, Coord>, objs: seq<PowerObject>, ways: seq<Way>, res: seq<Coord>,
                           dist: Distance, hs: seq<Hit>, j: nat, i: nat)
    requires |nodes| > 0 && Detect(nodes, objs, ways, res, dist) == Success(hs)
    requires j < |objs| && objs[j].id in nodes && i < |res|
    requires Contains(PadBox(nodes[objs[j].id]), res[i])
    ensures Threshold(objs[j].kind).Some?
    ensures Hit(i, PointSource(j, objs[j].id, objs[j].kind), dist(nodes[objs[j].id], res[i])) in hs <==>
      dist(nodes[objs[j].id], res[i]) <= Threshold(objs[j].kind).value as real
  {
    assert HasNeighbour(res, PadBox(nodes[objs[j].id]));
    assert ObjectOk(objs[j], nodes, res);
  }

  /** A building inside a segment's box is flagged for that segment exactly when the
      nearer endpoint is within the line's thickness in metres. */
  lemma LineRule(nodes: map<int, Coord>, objs: seq<PowerObject>, ways: seq<Way>, res: seq<Coord>,
                 dist: Distance, hs: seq<Hit>, w: nat, s: nat, i: nat)
    requires |nodes| > 0 && Detect(nodes, objs, ways, res, dist) == Success(hs)
    requires w < |ways| && s + 1 < |Resolve(ways[w].nodeIds, nodes)| && i < |res|
    requires Contains(SegmentBox(Resolve(ways[w].nodeIds, nodes)[s], Resolve(ways[w].nodeIds, nodes)[s + 1]), res[i])
    ensures
      var pts := Resolve(ways[w].nodeIds, nodes);
      var d := Min(dist(pts[s], res[i]), dist(pts[s + 1], res[i]));
      Hit(i, LineSource(w, s), d) in hs <==> d <= Thickness(VoltageOf(ways[w])) as real
  {
    var pts := Resolve(ways[w].nodeIds, nodes);
    var seg := Segments(pts)[s];
    assert seg == Segment(pts[s], pts[s + 1]);
    var h := Hit(i, LineSource(w, s), SegmentDistance(seg, dist, res[i]));
    assert !IsPointHit(h, objs, nodes, res, dist);
    assert IsLineHit(h, ways, nodes, res, dist) <==> h.distance <= LineLimit(ways[w]);
  }

  /** Every flagged building was a candidate of the index query that found it. */
  lemma FlaggedAreCandidates(nodes: map<int, Coord>, objs: seq<PowerObject>, ways: seq<Way>, res: seq<Coord>,
                             dist: Distance, hs: seq<Hit>, h: Hit)
    requires |nodes| > 0 && Detect(nodes, objs, ways, res, dist) == Success(hs)
    requires h in hs
    ensures h.source.PointSource? ==>
      h.source.obj < |objs| && objs[h.source.obj].id in nodes &&
      h.resident in Candidates(res, PadBox(nodes[objs[h.source.obj].id]))
    ensures h.source.LineSource? ==>
      h.source.way < |ways| &&
      var segs := Segments(Resolve(ways[h.source.way].nodeIds, nodes));
      h.source.segment < |segs| &&
      h.resident in Candidates(res, SegmentBox(segs[h.source.segment].start, segs[h.source.segment].end))
  {
  }

  const Station: Coord := Coord(50.0, 40.0)

  /** A substation and a building about 5.6 m north of it: one hit. */
  lemma NearSubstation(dist: Distance)
    requires dist(Station, Coord(50.00005, 40.0)) <= 10.0
    ensures Detect(map[1 := Station], [PowerObject(1, "Substation")], [], [Coord(50.00005, 40.0)], dist)
      == Success([Hit(0, PointSource(0, 1, "Substation"), dist(Station, Coord(50.00005, 40.0)))])
  {
    var res := [Coord(50.00005, 40.0)];
    var nodes := map[1 := Station];
    var o := PowerObject(1, "Substation");
    var src := PointSource(0, 1, "Substation");
    var d := dist(Station, Coord(50.00005, 40.0));
    assert Candidates(res, PadBox(Station)) == [0] by {
      var c := Candidates(res, PadBox(Station));
      assert 0 in c;
    }
    assert Refine([0], res, p => dist(Station, p), 10.0, src) == [Hit(0, src, d)];
    assert ObjectHits(0, o, nodes, res, dist) == Success([Hit(0, src, d)]);
    assert PointPass([o], 1, nodes, res, dist) == Success([]);
    assert PointPass([o], 0, nodes, res, dist) == Success([Hit(0, src, d)]);
    assert LinePass([], 0, nodes, res, dist) == [];
  }

  /** The same substation and a building about 111 m north of it: no hit. */
  lemma FarSubstation(dist: Distance)
    requires dist(Station, Coord(50.001, 40.0)) > 10.0
    ensures Detect(map[1 := Station], [PowerObject(1, "Substation")], [], [Coord(50.001, 40.0)], dist)
      == Success([])
  {
    var res := [Coord(50.001, 40.0)];
    var nodes := map[1 := Station];
    var o := PowerObject(1, "Substation");
    var src := PointSource(0, 1, "Substation");
    assert Candidates(res, PadBox(Station)) == [0] by {
      assert 0 in Candidates(res, PadBox(Station));
    }
    assert Refine([0], res, p => dist(Station, p), 10.0, src) == [];
    var none: seq<Hit> := [];
    assert none + none == none;
    assert ObjectHits(0, o, nodes, res, dist) == Success([]);
    assert PointPass([o], 1, nodes, res, dist) == Success([]);
    assert PointPass([o], 0, nodes, res, dist) == Success([]);
    assert LinePass([], 0, nodes, res, dist) == [];
  }

  const LineEnd: Coord := Coord(50.001, 40.0)
  /** A building about 30 m east of `Station` (0.00042° of longitude at latitude 50°). */
  const NearHouse: Coord := Coord(50.0, 40.00042)

  /** The line of the third example: nodes 1 and 2, tagged 750 kV. */
  const HighLine: Way := Way(7, [1, 2], map["voltage" := "750000"])

  lemma HighLineGeometry()
    ensures Segments(Resolve(HighLine.nodeIds, map[1 := Station, 2 := LineEnd])) == [Segment(Station, LineEnd)]
    ensures Candidates([NearHouse], SegmentBox(Station, LineEnd)) == [0]
    ensures LineLimit(HighLine) == 40.0
  {
    HighLineResolved();
    assert 0 in Candidates([NearHouse], SegmentBox(Station, LineEnd));
    SingleVoltage();
  }

  lemma HighLineResolved()
    ensures Resolve(HighLine.nodeIds, map[1 := Station, 2 := LineEnd]) == [Station, LineEnd]
  {
    ResolveAllKnown(HighLine.nodeIds, map[1 := Station, 2 := LineEnd]);
  }

  /** The segment pass of the third example on its own. */
  lemma HighLineSegment(dist: Distance)
    requires dist(Station, NearHouse) == 30.0
    requires dist(LineEnd, NearHouse) >= 30.0
    ensures WayHits(0, [Segment(Station, LineEnd)], 0, 40.0, [NearHouse], dist) == [Hit(0, LineSource(0, 0), 30.0)]
  {
    HighLineGeometry();
    var res := [NearHouse];
    var seg := Segment(Station, LineEnd);
    var src := LineSource(0, 0);
    assert SegmentDistance(seg, dist, NearHouse) == 30.0;
    assert Refine([0], res, p => SegmentDistance(seg, dist, p), 40.0, src) == [Hit(0, src, 30.0)];
    assert SegmentHits(0, 0, seg, 40.0, res, dist) == [Hit(0, src, 30.0)];
    assert WayHits(0, [seg], 1, 40.0, res, dist) == [];
  }

  /** The line pass of the third example. */
  lemma HighLinePass(dist: Distance)
    requires dist(Station, NearHouse) == 30.0
    requires dist(LineEnd, NearHouse) >= 30.0
    ensures LinePass([HighLine], 0, map[1 := Station, 2 := LineEnd], [NearHouse], dist) == [Hit(0, LineSource(0, 0), 30.0)]
  {
    HighLineGeometry();
    HighLineSegment(dist);
    assert LinePass([HighLine], 1, map[1 := Station, 2 := LineEnd], [NearHouse], dist) == [];
  }

  /** A 750 kV line (thickness 40 m) and a building about 30 m east of its nearer endpoint: one hit on segment 0. */
  lemma NearLine(dist: Distance)
    requires dist(Station, NearHouse) == 30.0
    requires dist(LineEnd, NearHouse) >= 30.0
    ensures Detect(map[1 := Station, 2 := LineEnd], [], [HighLine], [NearHouse], dist)
      == Success([Hit(0, LineSource(0, 0), 30.0)])
  {
    var nodes := map[1 := Station, 2 := LineEnd];
    assert 1 in nodes;
    HighLinePass(dist);
    var none: seq<Hit> := [];
    assert PointPass([], 0, nodes, [NearHouse], dist) == Success(none);
    assert none + [Hit(0, LineSource(0, 0), 30.0)] == [Hit(0, LineSource(0, 0), 30.0)];
  }
}
