# Proximity detection of buildings near power infrastructure

This project models the detection core of a small web application that looks for
residential buildings standing too close to electrical infrastructure in a city.
The application fetches power objects, power lines and building nodes from the
Overpass map-data service. It puts every building node into an R-tree, then:

- for every point object (substation, transformer, converter, communication tower)
  it queries a box of ±0.01° around the object and flags each candidate whose
  geodesic distance is within the object's threshold (45 m for a communication
  tower, 10 m for the others);
- for every power line it resolves the way's node ids to coordinates and cuts the
  polyline into consecutive segments. It queries each segment's bounding box grown
  by 0.01° and flags each candidate whose distance to the nearer endpoint is within
  the line's thickness. The thickness comes from the `voltage` tag through a fixed
  ladder.

The model is functional. Inputs are immutable sequences and maps, and the flagged
buildings are returned as a sequence of `Hit` values instead of being drawn as
map markers. The geodesic distance is a parameter `dist: (Coord, Coord) -> real`,
and nothing is assumed about it: every rule is proved for every distance function.
The R-tree is modelled as its list of entries (position, degenerate box) plus an
intersection filter. Its candidates are exactly the points in the query box.

Modules, leaves first:

- `Wrappers`: `Option` and `Result`.
- `Voltage`: splitting at `;` like Python's `str.split`, an integer-literal parser
  standing in for `int()`, and `max`.
- `RiskPolicy`: the `distances` table, the `power_line` multiplier, the voltage
  ladder and `get_thickness`.
- `Geo`: coordinates, boxes, the residential index and its queries.
- `Lines`: resolving way node ids against the node table, and segments.
- `Overpass`: classification of the query's elements into the node table, the
  power-object list and the way list; `str.capitalize`; the building nodes.
- `Proximity`: the point pass, the line pass, `Detect` (one run of
  `create_map_optimized` without drawing) and `Run` (classification followed by
  detection).
- `Scenarios`: single-hit consequences of `Detect` and three worked example runs.

Behaviours of the code that a reader might not expect, all kept by the model:

- An unknown object kind is an error only when at least one building is a
  candidate of that object. The table lookup sits inside the candidate loop
  (app.py:119-124). With no candidate, the object is passed over silently.
- The communication-tower test checks only that a `man_made` key is present, not
  its value, together with `tower:type=communication` (app.py:48).
- A point object whose node is missing from the node table raises `KeyError`
  (app.py:107). It is not dropped. `Run` proves that this cannot happen for
  classified data.
- When the node table is empty, the map builder returns before any detection
  (app.py:90-95), so `Detect` returns no hits.

`Detect` is a pure function, so two runs on identical inputs give identical hits.

## Model

| member | source | states |
|---|---|---|
| `Voltage.Split` | app.py:136 | splitting yields at least one piece, and no piece contains the separator |
| `Voltage.JoinSplit` | app.py:136 | joining the pieces of a split with the separator gives the original tag back |
| `Voltage.SplitJoin` | app.py:136 | splitting a join of separator-free pieces gives those pieces back, empty ones included |
| `Voltage.ParseInt` | app.py:136 | a piece parses exactly when it is an optional sign followed by digits; the sign decides the sign of the value |
| `Voltage.ParseShowInt` | app.py:136 | every integer's decimal spelling is a literal that parses back to that integer |
| `Voltage.LiteralForms` | app.py:136 | a digit string denotes its decimal value, a leading `+` changes nothing, a leading `-` negates, and a leading zero changes nothing; with the syntax clause of `ParseInt` this fixes the value of every accepted literal |
| `Voltage.DigitsLeadingZero` | app.py:136 | a digit string with a zero in front is still a digit string and has the same value |
| `Voltage.NonCanonicalLiterals` | app.py:136 | "+5" reads as 5, "007" as 7 and "-0" as 0 |
| `Voltage.ParseAll` | app.py:136-139 | the list parses exactly when every piece does, and then holds each piece's value at the same place |
| `Voltage.MaxOf` | app.py:137 | the maximum is one of the values and no value exceeds it |
| `Voltage.MaxVoltage` | app.py:136-137 | for a well-formed tag, the largest parsed piece |
| `RiskPolicy.Threshold` | app.py:99 | 45 for a communication tower, 10 for substation, transformer and converter, and no value (the `KeyError`) for any other kind |
| `RiskPolicy.LineMultiplier` | app.py:178 | the `power_line` factor is 1 because the table has no such key |
| `RiskPolicy.Ladder` | app.py:140-156 | for each thickness, the exact set of maximum voltages that lead to it; 20 covers 110000 and every unlisted value from 20000 up |
| `RiskPolicy.Thickness` | app.py:132-156 | the result is one of 2, 10, 15, 20, 25, 30, 40, 55; 40 for an empty tag; 20 if any piece is not an integer; otherwise the ladder value of the largest voltage |
| `RiskPolicy.ThicknessDependsOnlyOnMax` | app.py:136-156 | two well-formed tags with the same largest voltage get the same thickness |
| `RiskPolicy.ThicknessOfList` | app.py:136-156 | any non-empty list of integers written with `;` gets the ladder value of its maximum |
| `RiskPolicy.EmptyVoltage` | app.py:133-134 | an absent or empty tag gives 40 |
| `RiskPolicy.SingleVoltage` | app.py:144-153 | "35000" gives 15 and "750000" gives 40 |
| `RiskPolicy.ListedVoltages` | app.py:136-147 | "110000;50000" gives 20, decided by its maximum 110000 |
| `RiskPolicy.MalformedVoltages` | app.py:135-139 | "abc" and "110000;" (an empty last piece) give 20 |
| `Geo.PointBox` | app.py:105 | a point's degenerate box meets a query box exactly when the box contains the point |
| `Geo.PadBox` | app.py:119 | a point is in an object's query box exactly when it is within 0.01° of the object on both axes |
| `Geo.SegmentBox` | app.py:165-168 | the box contains both endpoints and both endpoints' 0.01° boxes; it is exactly the endpoints' extent grown by 0.01° |
| `Geo.SegmentBoxShape` | app.py:165-168 | a segment's box does not depend on its direction, and a one-point segment gets a point object's box |
| `Geo.BuildIndex` | app.py:102-105 | one entry per building, at its position, with the building's degenerate box |
| `Geo.Query` | app.py:119 | a position is returned exactly when some entry with that position meets the query box; positions come out increasing when inserted increasing |
| `Geo.Candidates` | app.py:119 | the candidates are exactly the building positions whose point lies in the query box, each once |
| `Geo.CandidateSoundness` | app.py:119 | no false negatives: every building within 0.01° of an object on both axes is a candidate |
| `Geo.EmptyIndex` | app.py:101-105 | an index over no buildings returns nothing for any query |
| `Lines.Kept` | app.py:159 | the kept positions are exactly those whose id is in the node table, in increasing order |
| `Lines.Resolve` | app.py:159 | the resolved line is the coordinates at the kept positions, in the same order, and never longer than the id list |
| `Lines.ResolveAllKnown` | app.py:159 | when every id is known, nothing is dropped and point k is node k's coordinates |
| `Lines.ResolveNoneKnown` | app.py:159 | a line with only unknown ids resolves to no points |
| `Lines.Segments` | app.py:162-164 | n points give max(0, n-1) segments, and segment i joins point i to point i+1 |
| `Lines.SegmentsRoundTrip` | app.py:162-164 | the segments of a polyline are chained and walk back to that polyline |
| `Lines.SegmentsOfVertices` | app.py:162-164 | a chain of segments is exactly the segment list of the polyline it walks |
| `Overpass.VoltageOf` | app.py:176 | the `voltage` tag when present, and the empty string when not |
| `Overpass.Capitalize` | app.py:51 | same length and same letters ignoring case, first letter not lower case, the rest not upper case |
| `Overpass.CapitalizeIdempotent` | app.py:51 | capitalizing twice is capitalizing once |
| `Overpass.CapitalizeLower` | app.py:51 | a lower-case word gets its first letter upper-cased and keeps the rest |
| `Overpass.CapitalizePowerValues` | app.py:51 | "substation", "transformer" and "converter" become the table's keys |
| `Overpass.NodeObjects` | app.py:47-51 | a node yields one entry per matching tag: a communication tower and/or its capitalized `power` value, all under its own id |
| `Overpass.BothTags` | app.py:48-51 | a node with both tags yields two entries, the tower first |
| `Overpass.NodesOf` | app.py:44-46 | the node table's keys are exactly the node elements' ids |
| `Overpass.NodesOfLast` | app.py:44-46 | later elements overwrite earlier ones: an id maps to the coordinates of its last node element |
| `Overpass.ObjectsOf` | app.py:44-51 | the power objects are exactly the entries contributed by node elements |
| `Overpass.ObjectsOfAppend` | app.py:43-51 | the objects of two element lists in a row are the objects of the first followed by those of the second: element order and duplicates are kept |
| `Overpass.ObjectsOfOne` | app.py:44-51 | a single node element contributes exactly its own entries, and any other element contributes nothing |
| `Overpass.WayPositions` | app.py:43-52 | exactly the positions of the way elements, in increasing order |
| `Overpass.WaysOf` | app.py:52-53 | way number k is the way element at the k-th way position, so the list keeps element order and duplicates |
| `Overpass.Classify` | app.py:44-53 | every power object names a node in the node table |
| `Overpass.NodePositions` | app.py:73-74 | exactly the positions of the node elements, in increasing order |
| `Overpass.Residential` | app.py:73-76 | building number k is the point of the k-th node element, so the list keeps element order and duplicates |
| `Overpass.ResidentialMembers` | app.py:73-76 | every building node's point is listed, and every listed point comes from a building node |
| `Proximity.Refine` | app.py:120-124 | a candidate is kept exactly when its measured distance is within the limit, and the hit records that distance |
| `Proximity.ObjectHits` | app.py:106-124 | an object fails exactly when its node is missing, or when it has a candidate and an unknown kind; otherwise its hits are exactly the buildings in its box within its threshold, inclusive |
| `Proximity.PointPass` | app.py:106-124 | the pass succeeds exactly when every object can be processed; otherwise it stops with the first failing object's error; its hits are exactly the point-rule hits |
| `Proximity.LineLimit` | app.py:176-178 | a line's radius is its thickness in metres, unscaled |
| `Proximity.SegmentDistance` | app.py:172-175 | the distance is that of the nearer endpoint |
| `Proximity.SegmentHits` | app.py:165-178 | a segment's hits are exactly the buildings in its box whose nearer endpoint is within the limit |
| `Proximity.WayHits` | app.py:162-178 | a line's hits are exactly the segment-rule hits on its segments |
| `Proximity.LinePass` | app.py:158-178 | the hits are exactly the segment-rule hits over all resolved lines; the line pass never fails |
| `Proximity.Detect` | app.py:88-190 | no hits for an empty node table; otherwise success exactly when every object can be processed, the first failure's error otherwise, and the hits are exactly the point-rule hits and the segment-rule hits |
| `Proximity.Run` | app.py:208-214 | on fetched data a run can only stop on a `power` value whose capitalized form is not in the table |
| `Proximity.ClassifiedFailure` | app.py:44-51 | a first failure over classified data is an unknown kind coming from a `power` tag |
| `Proximity.FailureWithKnownNodes` | app.py:106-124 | when every object's node is known, a failure is always an unknown kind outside the table |
| `Proximity.ClassifiedObject` | app.py:46-51 | a classified object's node is in the table, and its kind is the tower label or a capitalized `power` value |
| `Scenarios.PointRuleInclusive` | app.py:124 | a building in an object's box is flagged exactly when its distance is at most the threshold |
| `Scenarios.LineRule` | app.py:172-178 | a building in a segment's box is flagged for it exactly when min(dist(start, r), dist(end, r)) is at most the thickness |
| `Scenarios.FlaggedAreCandidates` | app.py:119-124 | every flagged building is a candidate of the query that found it |
| `Scenarios.NearSubstation` | app.py:106-124 | a substation with a building within 10 m gives exactly one hit |
| `Scenarios.FarSubstation` | app.py:106-124 | the same substation with a building more than 10 m away gives no hit |
| `Scenarios.NearLine` | app.py:158-178 | a 750 kV line with a building 30 m from its nearer endpoint gives exactly one hit on segment 0 |

## Left out

- Flask routing, form handling, the query-type options and the map save (app.py:193-207, 210-211, 215-217): web request plumbing. `Run` keeps only the hand-over of the fetched lists to the map builder (app.py:208-214) and takes the two element lists as inputs; when no building query is made, the building list is empty.
- The Overpass HTTP requests, JSON decoding and query text (app.py:19-42, 58-71): network I/O and a payload for the external service.
- folium markers, circle markers, polylines, colours and the map-centre averaging (app.py:91-93, 98, 109-116, 125-129, 179-183, 188): rendering with no detection meaning. The hits are returned instead.
- The geodesic computation: foreign floating-point numerics. It is the parameter `dist`, with no symmetry, zero or triangle property assumed.
- The error `geodesic` raises for a latitude outside [-90, 90] (app.py:123, 173-174): `dist` is total, so the model measures such positions instead of stopping with `ValueError`.
- The R-tree's internals. Query results come out in insertion order; the library's own order is not modelled, and the properties are stated as membership.
- The `print` diagnostics, the thickness recomputed and discarded after the segment loop (app.py:185-186), and `debug=True` startup.
- Floating-point rounding: coordinates, the 0.01° padding and distances are exact reals.
- `Voltage.ParseInt`: accepts only an optional sign and ASCII digits. Python's `int()` also accepts surrounding whitespace, `_` between digits and non-ASCII digits; such tags get 20 here, while Python would parse them. In the other direction, Python 3.11 and later (and the security releases 3.7.14, 3.8.14, 3.9.14 and 3.10.7) raise `ValueError` for a literal of more than 4300 digits, so `get_thickness` returns 20 for it (app.py:136-139); the model has no length limit and reads such a piece as its value.
- `Overpass.Capitalize`: changes the case of ASCII letters only; Python's Unicode case mapping is not modelled.
- `Proximity.Detect`: the result is a sequence in a fixed order; only membership is specified, not how many times a hit repeats.
