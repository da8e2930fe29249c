/** The detection run of `create_map_optimized`: every point object and every line
    segment queries the residential index with a padded box, and each candidate is
    flagged when its distance is within the object's threshold. The flagged
    buildings are returned as hits instead of being drawn as markers.

    The geodesic distance is a parameter `dist` about which nothing is assumed. */
module Proximity {
  import opened Wrappers
  import opened Geo
  import opened Lines
  import opened RiskPolicy
  import opened Overpass

  /** Distance in metres between two positions; the first is the infrastructure side. */
  type Distance = (Coord, Coord) -> real

  /** What a hit is near: point object number `obj`, or segment `segment` of way number `way`. */
  datatype Source =
    | PointSource(obj: nat, id: int, kind: string)
    | LineSource(way: nat, segment: nat)

  /** Residential point number `resident` is `distance` metres from `source`. */
  datatype Hit = Hit(resident: nat, source: Source, distance: real)

  /** Why a run stopped: `KeyError` on the distance table or on the node table. */
  datatype Error = UnknownKind(kind: string) | MissingNode(id: int)

  /** Keeps the candidates whose `measure` is at most `limit`, in candidate order. */
  function Refine(cands: seq<nat>, res: seq<Coord>, measure: Coord -> real, limit: real, src: Source): (hs: seq<Hit>)
    requires forall k :: 0 <= k < |cands| ==> cands[k] < |res|
    ensures forall h :: h in hs ==>
      h.source == src && h.resident in cands && h.resident < |res| &&
      h.distance == measure(res[h.resident]) && h.distance <= limit
    ensures forall k :: 0 <= k < |cands| && measure(res[cands[k]]) <= limit ==>
      Hit(cands[k], src, measure(res[cands[k]])) in hs
    decreases |cands|
  {
    if |cands| == 0 then []
    else
      var rest := Refine(cands[1..], res, measure, limit, src);
      assert forall k :: 0 < k < |cands| ==> cands[k] == cands[1..][k - 1];
      var d := measure(res[cands[0]]);
      if d <= limit then [Hit(cands[0], src, d)] + rest else rest
  }

  // ---------------------------------------------------------------- point objects

  /** Some residential point lies in box `b`. */
  predicate HasNeighbour(res: seq<Coord>, b: Box) {
    exists i :: 0 <= i < |res| && Contains(b, res[i])
  }

  /** Object `o` can be processed without an exception: its node is known, and its
      kind is in the distance table unless no residential point is near enough to
      make the loop look it up. */
  predicate ObjectOk(o: PowerObject, nodes: map<int, Coord>, res: seq<Coord>) {
    o.id in nodes && (HasNeighbour(res, PadBox(nodes[o.id])) ==> Threshold(o.kind).Some?)
  }

  /** The exception processing `o` raises when it is not `ObjectOk`. */
  function ObjectError(o: PowerObject, nodes: map<int, Coord>): Error {
    if o.id !in nodes then MissingNode(o.id) else UnknownKind(o.kind)
  }

  /** `e` is the error of the first object from number `j` on that is not `ObjectOk`. */
  predicate FirstFailure(objs: seq<PowerObject>, j: nat, nodes: map<int, Coord>, res: seq<Coord>, e: Error) {
    exists k :: j <= k < |objs| && !ObjectOk(objs[k], nodes, res) &&
      (forall i :: j <= i < k ==> ObjectOk(objs[i], nodes, res)) && e == ObjectError(objs[k], nodes)
  }

  /** Reference rule: `h` flags a residential point inside the padded box of object
      number `j`, at its geodesic distance, which is within the object's threshold. */
  predicate FlaggedByPoint(h: Hit, j: nat, o: PowerObject, nodes: map<int, Coord>, res: seq<Coord>, dist: Distance) {
    o.id in nodes && Threshold(o.kind).Some? &&
    h.source == PointSource(j, o.id, o.kind) &&
    h.resident < |res| &&
    Contains(PadBox(nodes[o.id]), res[h.resident]) &&
    h.distance == dist(nodes[o.id], res[h.resident]) &&
    h.distance <= Threshold(o.kind).value as real
  }

  predicate IsPointHit(h: Hit, objs: seq<PowerObject>, nodes: map<int, Coord>, res: seq<Coord>, dist: Distance) {
    h.source.PointSource? && h.source.obj < |objs| &&
    FlaggedByPoint(h, h.source.obj, objs[h.source.obj], nodes, res, dist)
  }

  /** The body of the loop over `power_objects` for object number `j`. */
  function ObjectHits(j: nat, o: PowerObject, nodes: map<int, Coord>, res: seq<Coord>, dist: Distance): (r: Result<seq<Hit>, Error>)
    ensures r.Success? <==> ObjectOk(o, nodes, res)
    ensures r.Failure? ==> r.error == ObjectError(o, nodes)
    ensures r.Success? ==> forall h :: h in r.value <==> FlaggedByPoint(h, j, o, nodes, res, dist)
  {
    if o.id !in nodes then Failure(MissingNode(o.id))
    else
      var c := nodes[o.id];
      var cands := Candidates(res, PadBox(c));
      assert HasNeighbour(res, PadBox(c)) <==> |cands| > 0 by {
        if HasNeighbour(res, PadBox(c)) {
          var i :| 0 <= i < |res| && Contains(PadBox(c), res[i]);
          assert i in cands;
        }
        if |cands| > 0 {
          assert cands[0] in cands;
        }
      }
      if |cands| == 0 then Success([])
      else
        match Threshold(o.kind)
        case None => Failure(UnknownKind(o.kind))
        case Some(t) => Success(Refine(cands, res, p => dist(c, p), t as real, PointSource(j, o.id, o.kind)))
  }

  /** The loop over `power_objects` from object number `j` on; the first failing object stops it. */
  function PointPass(objs: seq<PowerObject>, j: nat, nodes: map<int, Coord>, res: seq<Coord>, dist: Distance): (r: Result<seq<Hit>, Error>)
    requires j <= |objs|
    ensures r.Success? <==> forall k :: j <= k < |objs| ==> ObjectOk(objs[k], nodes, res)
    ensures r.Failure? ==> FirstFailure(objs, j, nodes, res, r.error)
    ensures r.Success? ==> forall h :: h in r.value <==> IsPointHit(h, objs, nodes, res, dist) && j <= h.source.obj
    decreases |objs| - j
  {
    if j == |objs| then Success([])
    else
      match ObjectHits(j, objs[j], nodes, res, dist)
      case Failure(e) => Failure(e)
      case Success(here) =>
        match PointPass(objs, j + 1, nodes, res, dist)
        case Failure(e) => Failure(e)
        case Success(later) => Success(here + later)
  }

  // ---------------------------------------------------------------- power lines

  /** The radius of a line: its thickness times the table's `power_line` factor. */
  function LineLimit(w: Way): (limit: real)
    ensures limit == Thickness(VoltageOf(w)) as real
  {
    (Thickness(VoltageOf(w)) * LineMultiplier()) as real
  }

  /** The distance the line pass uses: the nearer of the two endpoints, not the segment itself. */
  function SegmentDistance(s: Segment, dist: Distance, p: Coord): (d: real)
    ensures d <= dist(s.start, p) && d <= dist(s.end, p)
    ensures d == dist(s.start, p) || d == dist(s.end, p)
  {
    Min(dist(s.start, p), dist(s.end, p))
  }

  /** Reference rule: `h` flags a residential point inside the padded box of segment
      `s`, at its endpoint distance, which is within `limit`. */
  predicate NearSegment(h: Hit, s: Segment, limit: real, res: seq<Coord>, dist: Distance) {
    h.resident < |res| &&
    Contains(SegmentBox(s.start, s.end), res[h.resident]) &&
    h.distance == SegmentDistance(s, dist, res[h.resident]) &&
    h.distance <= limit
  }

  /** `h` is `NearSegment` for the segment of `segs` it names. */
  predicate OnSegment(h: Hit, segs: seq<Segment>, limit: real, res: seq<Coord>, dist: Distance) {
    h.source.LineSource? && h.source.segment < |segs| &&
    NearSegment(h, segs[h.source.segment], limit, res, dist)
  }

  predicate IsLineHit(h: Hit, ways: seq<Way>, nodes: map<int, Coord>, res: seq<Coord>, dist: Distance) {
    h.source.LineSource? && h.source.way < |ways| &&
    var w := ways[h.source.way];
    OnSegment(h, Segments(Resolve(w.nodeIds, nodes)), LineLimit(w), res, dist)
  }

  /** The body of the loop over segments, for segment `si` of way number `wi`. */
  function SegmentHits(wi: nat, si: nat, s: Segment, limit: real, res: seq<Coord>, dist: Distance): (hs: seq<Hit>)
    ensures forall h :: h in hs <==> h.source == LineSource(wi, si) && NearSegment(h, s, limit, res, dist)
  {
    var cands := Candidates(res, SegmentBox(s.start, s.end));
    Refine(cands, res, p => SegmentDistance(s, dist, p), limit, LineSource(wi, si))
  }

  /** The loop over the segments of way number `wi`, from segment `si` on. */
  function WayHits(wi: nat, segs: seq<Segment>, si: nat, limit: real, res: seq<Coord>, dist: Distance): (hs: seq<Hit>)
    requires si <= |segs|
    ensures forall h :: h in hs <==>
      OnSegment(h, segs, limit, res, dist) && h.source.way == wi && si <= h.source.segment
    decreases |segs| - si
  {
    if si == |segs| then []
    else SegmentHits(wi, si, segs[si], limit, res, dist) + WayHits(wi, segs, si + 1, limit, res, dist)
  }

  /** The loop over `ways` from way number `wi` on. */
  function LinePass(ways: seq<Way>, wi: nat, nodes: map<int, Coord>, res: seq<Coord>, dist: Distance): (hs: seq<Hit>)
    requires wi <= |ways|
    ensures forall h :: h in hs <==> IsLineHit(h, ways, nodes, res, dist) && wi <= h.source.way
    decreases |ways| - wi
  {
    if wi == |ways| then []
    else
      var w := ways[wi];
      var segs := Segments(Resolve(w.nodeIds, nodes));
      WayHits(wi, segs, 0, LineLimit(w), res, dist) + LinePass(ways, wi + 1, nodes, res, dist)
  }

  // ---------------------------------------------------------------- the whole run

  /** `create_map_optimized` without the drawing: nothing when the node table is empty,
      otherwise the point pass followed by the line pass. */
  function Detect(nodes: map<int, Coord>, objs: seq<PowerObject>, ways: seq<Way>, res: seq<Coord>, dist: Distance): (r: Result<seq<Hit>, Error>)
    ensures |nodes| == 0 ==> r == Success([])
    ensures |nodes| > 0 ==> (r.Success? <==> forall k :: 0 <= k < |objs| ==> ObjectOk(objs[k], nodes, res))
    ensures |nodes| > 0 && r.Failure? ==> FirstFailure(objs, 0, nodes, res, r.error)
    ensures |nodes| > 0 && r.Success? ==> forall h :: h in r.value <==>
      IsPointHit(h, objs, nodes, res, dist) || IsLineHit(h, ways, nodes, res, dist)
  {
    if |nodes| == 0 then Success([])
    else
      match PointPass(objs, 0, nodes, res, dist)
      case Failure(e) => Failure(e)
      case Success(ph) => Success(ph + LinePass(ways, 0, nodes, res, dist))
  }

  /** An error a run over classified elements can stop with: a `power` value whose
      capitalized form is not in the distance table. */
  predicate UnknownPowerTag(es: seq<Element>, e: Error) {
    e.UnknownKind? && Threshold(e.kind).None? &&
    exists k :: 0 <= k < |es| && es[k].NodeElem? && "power" in es[k].tags && e.kind == Capitalize(es[k].tags["power"])
  }

  /** Both queries of the source on freshly fetched data: classify the power
      elements, collect the building nodes, and detect. A node that is missing from
      the table can never stop such a run. */
  function Run(powerElems: seq<Element>, buildingElems: seq<Element>, dist: Distance): (r: Result<seq<Hit>, Error>)
    ensures r.Failure? ==> UnknownPowerTag(powerElems, r.error)
  {
    var c := Classify(powerElems);
    var res := Residential(buildingElems);
    var r := Detect(c.nodes, c.objects, c.ways, res, dist);
    if r.Success? then r
    else
      ClassifiedFailure(powerElems, res, r.error);
      r
  }

  lemma ClassifiedFailure(es: seq<Element>, res: seq<Coord>, e: Error)
    requires FirstFailure(ObjectsOf(es), 0, NodesOf(es), res, e)
    ensures UnknownPowerTag(es, e)
  {
    var objs := ObjectsOf(es);
    forall o | o in objs ensures o.id in NodesOf(es) {
      ClassifiedObject(es, o);
    }
    FailureWithKnownNodes(objs, NodesOf(es), res, e);
    var j :| 0 <= j < |objs| && e == UnknownKind(objs[j].kind) && Threshold(objs[j].kind).None?;
    assert objs[j] in objs;
    ClassifiedObject(es, objs[j]);
  }

  /** When every object's node is known, the only way to fail is an unknown kind. */
  lemma FailureWithKnownNodes(objs: seq<PowerObject>, nodes: map<int, Coord>, res: seq<Coord>, e: Error)
    requires FirstFailure(objs, 0, nodes, res, e)
    requires forall o :: o in objs ==> o.id in nodes
    ensures exists j :: 0 <= j < |objs| && e == UnknownKind(objs[j].kind) && Threshold(objs[j].kind).None?
  {
    var j :| 0 <= j < |objs| && !ObjectOk(objs[j], nodes, res) && e == ObjectError(objs[j], nodes);
    assert objs[j] in objs;
  }

  /** A classified power object has a known node, and unless it is a communication
      tower its kind is a capitalized `power` value. */
  lemma ClassifiedObject(es: seq<Element>, o: PowerObject)
    requires o in ObjectsOf(es)
    ensures o.id in NodesOf(es)
    ensures o.kind == CommunicationTower ||
      exists k :: 0 <= k < |es| && es[k].NodeElem? && "power" in es[k].tags && o.kind == Capitalize(es[k].tags["power"])
  {
    var k :| 0 <= k < |es| && es[k].NodeElem? && o in NodeObjects(es[k]);
    assert o.id == es[k].id;
  }
}
