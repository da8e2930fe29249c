/** The elements an Overpass query returns, and how they are sorted into the
    node table, the list of power objects, the list of ways and the residential points. */
module Overpass {
  import opened Geo
  import opened RiskPolicy

  type Tags = map<string, string>

  /** A power line as returned by the query: its node ids in order and its tags. */
  datatype Way = Way(id: int, nodeIds: seq<int>, tags: Tags)

  /** An element of the query result, discriminated by its `type` field. */
  datatype Element =
    | NodeElem(id: int, lat: real, lon: real, tags: Tags)
    | WayElem(way: Way)
    | OtherElem(id: int)

  /** A power object: the id of its node and its kind, such as `Substation`. */
  datatype PowerObject = PowerObject(id: int, kind: string)

  /** The way's `voltage` tag, or the empty string when the way has none. */
  function VoltageOf(w: Way): (v: string)
    ensures "voltage" in w.tags ==> v == w.tags["voltage"]
    ensures "voltage" !in w.tags ==> v == ""
  {
    if "voltage" in w.tags then w.tags["voltage"] else ""
  }

  predicate IsLower(c: char) {
    'a' <= c <= 'z'
  }

  predicate IsUpper(c: char) {
    'A' <= c <= 'Z'
  }

  function ToUpper(c: char): char {
    if IsLower(c) then (c as int - 32) as char else c
  }

  function ToLower(c: char): char {
    if IsUpper(c) then (c as int + 32) as char else c
  }

  /** Python's `str.capitalize` on ASCII text: the first letter upper case, the rest lower case. */
  function Capitalize(s: string): (r: string)
    ensures |r| == |s|
    ensures forall i :: 0 <= i < |s| ==> ToLower(r[i]) == ToLower(s[i])
    ensures |s| > 0 ==> !IsLower(r[0])
    ensures forall i :: 0 < i < |s| ==> !IsUpper(r[i])
  {
    if |s| == 0 then ""
    else [ToUpper(s[0])] + seq(|s| - 1, i requires 0 <= i < |s| - 1 => ToLower(s[i + 1]))
  }

  /** Capitalizing twice is capitalizing once. */
  lemma CapitalizeIdempotent(s: string)
    ensures Capitalize(Capitalize(s)) == Capitalize(s)
  {
    var c := Capitalize(s);
    var cc := Capitalize(c);
    forall i | 0 <= i < |s| ensures cc[i] == c[i] {
    }
  }

  /** The raw `power` values the query asks for capitalize to keys of the distance table. */
  lemma CapitalizePowerValues()
    ensures Capitalize("substation") == "Substation"
    ensures Capitalize("transformer") == "Transformer"
    ensures Capitalize("converter") == "Converter"
  {
    CapitalizeLower("substation");
    CapitalizeLower("transformer");
    CapitalizeLower("converter");
  }

  /** A lower-case word gets its first letter upper-cased and nothing else changed. */
  lemma CapitalizeLower(s: string)
    requires |s| > 0 && forall i :: 0 <= i < |s| ==> IsLower(s[i])
    ensures Capitalize(s) == [ToUpper(s[0])] + s[1..]
  {
    var r := Capitalize(s);
    forall i | 0 < i < |s| ensures r[i] == s[i] {
    }
  }

  /** The node has some `man_made` tag, whatever its value, and `tower:type` is `communication`. */
  predicate IsCommunicationTower(tags: Tags) {
    "man_made" in tags && "tower:type" in tags && tags["tower:type"] == "communication"
  }

  /** The power objects one node contributes: a communication tower, then its `power` kind. */
  function NodeObjects(e: Element): (os: seq<PowerObject>)
    requires e.NodeElem?
    ensures |os| == (if IsCommunicationTower(e.tags) then 1 else 0) + (if "power" in e.tags then 1 else 0)
    ensures forall o :: o in os <==>
      o.id == e.id &&
      ((IsCommunicationTower(e.tags) && o.kind == CommunicationTower) ||
       ("power" in e.tags && o.kind == Capitalize(e.tags["power"])))
  {
    (if IsCommunicationTower(e.tags) then [PowerObject(e.id, CommunicationTower)] else []) +
    (if "power" in e.tags then [PowerObject(e.id, Capitalize(e.tags["power"]))] else [])
  }

  /** A node carrying both tags yields two entries, the tower first. */
  lemma BothTags(e: Element)
    requires e.NodeElem? && IsCommunicationTower(e.tags) && "power" in e.tags
    ensures |NodeObjects(e)| == 2
    ensures NodeObjects(e)[0].kind == CommunicationTower
    ensures NodeObjects(e)[1].kind == Capitalize(e.tags["power"])
  {
  }

  /** The state `fetch_power_objects` fills in. */
  datatype Catalogue = Catalogue(nodes: map<int, Coord>, objects: seq<PowerObject>, ways: seq<Way>)

  /** No later node element reuses the id of element `k`. */
  predicate LastWithId(es: seq<Element>, k: nat)
    requires k < |es| && es[k].NodeElem?
  {
    forall j :: k < j < |es| && es[j].NodeElem? ==> es[j].id != es[k].id
  }

  /** The node table: every node element's coordinates stored under its id, in element order. */
  function NodesOf(es: seq<Element>): (nodes: map<int, Coord>)
    ensures forall id :: id in nodes <==> exists k :: 0 <= k < |es| && es[k].NodeElem? && es[k].id == id
    decreases |es|
  {
    if |es| == 0 then map[]
    else
      var n := |es| - 1;
      var front := NodesOf(es[..n]);
      assert forall k :: 0 <= k < n ==> es[..n][k] == es[k];
      if es[n].NodeElem? then front[es[n].id := Coord(es[n].lat, es[n].lon)] else front
  }

  /** Later elements overwrite earlier ones: an id maps to its last node element's coordinates. */
  lemma {:induction false} NodesOfLast(es: seq<Element>, k: nat)
    requires k < |es| && es[k].NodeElem? && LastWithId(es, k)
    ensures es[k].id in NodesOf(es)
    ensures NodesOf(es)[es[k].id] == Coord(es[k].lat, es[k].lon)
    decreases |es|
  {
    var n := |es| - 1;
    if k < n {
      var front := es[..n];
      assert front[k] == es[k];
      assert LastWithId(front, k) by {
        forall j | k < j < |front| && front[j].NodeElem? ensures front[j].id != front[k].id {
          assert front[j] == es[j];
        }
      }
      NodesOfLast(front, k);
      assert es[n].NodeElem? ==> es[n].id != es[k].id;
    }
  }

  /** The `power_objects` list: each node's contributions, in element order. */
  function ObjectsOf(es: seq<Element>): (os: seq<PowerObject>)
    ensures forall o :: o in os <==> exists k :: 0 <= k < |es| && es[k].NodeElem? && o in NodeObjects(es[k])
    decreases |es|
  {
    if |es| == 0 then []
    else
      var n := |es| - 1;
      var front := ObjectsOf(es[..n]);
      assert forall k :: 0 <= k < n ==> es[..n][k] == es[k];
      if es[n].NodeElem? then front + NodeObjects(es[n]) else front
  }

  /** The objects of a concatenation are the objects of each part, in order. */
  lemma {:induction false} ObjectsOfAppend(a: seq<Element>, b: seq<Element>)
    ensures ObjectsOf(a + b) == ObjectsOf(a) + ObjectsOf(b)
    decreases |b|
  {
    if |b| == 0 {
      assert a + b == a;
    } else {
      var n := |b| - 1;
      assert (a + b)[..|a + b| - 1] == a + b[..n];
      assert (a + b)[|a + b| - 1] == b[n];
      ObjectsOfAppend(a, b[..n]);
    }
  }

  /** One element contributes its node's entries, or nothing when it is not a node. */
  lemma ObjectsOfOne(e: Element)
    ensures ObjectsOf([e]) == if e.NodeElem? then NodeObjects(e) else []
  {
    assert [e][..0] == [];
  }

  /** The positions of the way elements of `es`, in increasing order. */
  function WayPositions(es: seq<Element>): (ps: seq<nat>)
    ensures forall p :: p in ps <==> 0 <= p < |es| && es[p].WayElem?
    ensures forall k :: 0 <= k < |ps| ==> ps[k] < |es| && es[ps[k]].WayElem?
    ensures Increasing(ps)
    decreases |es|
  {
    if |es| == 0 then []
    else
      var n := |es| - 1;
      var front := WayPositions(es[..n]);
      assert forall k :: 0 <= k < n ==> es[..n][k] == es[k];
      assert forall k :: 0 <= k < |front| ==> front[k] in front;
      if es[n].WayElem? then front + [n] else front
  }

  /** The `ways` list: the way elements, in element order, duplicates kept. */
  function WaysOf(es: seq<Element>): (ws: seq<Way>)
    ensures |ws| == |WayPositions(es)| <= |es|
    ensures forall k :: 0 <= k < |ws| ==> ws[k] == es[WayPositions(es)[k]].way
    ensures forall w :: w in ws <==> exists k :: 0 <= k < |es| && es[k] == WayElem(w)
    decreases |es|
  {
    if |es| == 0 then []
    else
      var n := |es| - 1;
      var front := WaysOf(es[..n]);
      assert forall k :: 0 <= k < n ==> es[..n][k] == es[k];
      if es[n].WayElem? then front + [es[n].way] else front
  }

  /** The loop of `fetch_power_objects` over the returned elements, from empty state.
      Every power object names a node that is in the node table. */
  function Classify(es: seq<Element>): (c: Catalogue)
    ensures forall o :: o in c.objects ==> o.id in c.nodes
  {
    var c := Catalogue(NodesOf(es), ObjectsOf(es), WaysOf(es));
    assert forall o :: o in c.objects ==> o.id in c.nodes by {
      forall o | o in c.objects ensures o.id in c.nodes {
        var k :| 0 <= k < |es| && es[k].NodeElem? && o in NodeObjects(es[k]);
        assert es[k].id == o.id;
      }
    }
    c
  }

  /** The positions of the node elements of `es`, in increasing order. */
  function NodePositions(es: seq<Element>): (ps: seq<nat>)
    ensures forall p :: p in ps <==> 0 <= p < |es| && es[p].NodeElem?
    ensures forall k :: 0 <= k < |ps| ==> ps[k] < |es| && es[ps[k]].NodeElem?
    ensures Increasing(ps)
    decreases |es|
  {
    if |es| == 0 then []
    else
      var n := |es| - 1;
      var front := NodePositions(es[..n]);
      assert forall k :: 0 <= k < n ==> es[..n][k] == es[k];
      assert forall k :: 0 <= k < |front| ==> front[k] in front;
      if es[n].NodeElem? then front + [n] else front
  }

  /** `fetch_buildings`: every node element of the building query, as a point, in
      element order, duplicates kept; building number k is node element number k. */
  function Residential(es: seq<Element>): (res: seq<Coord>)
    ensures |res| == |NodePositions(es)| <= |es|
    ensures forall k :: 0 <= k < |res| ==>
      res[k] == Coord(es[NodePositions(es)[k]].lat, es[NodePositions(es)[k]].lon)
    decreases |es|
  {
    if |es| == 0 then []
    else
      var n := |es| - 1;
      var front := Residential(es[..n]);
      assert forall k :: 0 <= k < n ==> es[..n][k] == es[k];
      var ps := NodePositions(es[..n]);
      assert NodePositions(es) == if es[n].NodeElem? then ps + [n] else ps;
      assert forall k :: 0 <= k < |front| ==> front[k] == Coord(es[ps[k]].lat, es[ps[k]].lon);
      if es[n].NodeElem? then front + [Coord(es[n].lat, es[n].lon)] else front
  }

  /** Every building node's point is listed, and every listed point comes from a building node. */
  lemma ResidentialMembers(es: seq<Element>)
    ensures forall k :: 0 <= k < |es| && es[k].NodeElem? ==> Coord(es[k].lat, es[k].lon) in Residential(es)
    ensures forall p :: p in Residential(es) ==>
      exists k :: 0 <= k < |es| && es[k].NodeElem? && p == Coord(es[k].lat, es[k].lon)
  {
    var res := Residential(es);
    var ps := NodePositions(es);
    forall k | 0 <= k < |es| && es[k].NodeElem? ensures Coord(es[k].lat, es[k].lon) in res {
      assert k in ps;
      var j :| 0 <= j < |ps| && ps[j] == k;
      assert res[j] == Coord(es[k].lat, es[k].lon);
    }
    forall p | p in res
      ensures exists k :: 0 <= k < |es| && es[k].NodeElem? && p == Coord(es[k].lat, es[k].lon)
    {
      var j :| 0 <= j < |res| && res[j] == p;
      var k := ps[j];
      assert es[k].NodeElem? && p == Coord(es[k].lat, es[k].lon);
    }
  }
}
