/** The thresholds, in metres, that decide when a building is too close:
    a fixed table for point objects and a voltage ladder for power lines. */
module RiskPolicy {
  import opened Wrappers
  import opened Voltage

  const CommunicationTower: string := "Communication Tower"

  /** The `distances` table of the map builder, keyed by object kind. */
  const Distances: map<string, int> :=
    map[CommunicationTower := 45, "Substation" := 10, "Transformer" := 10, "Converter" := 10]

  /** The radius of a point object from the table, `None` where the lookup raises `KeyError`. */
  function Threshold(kind: string): (r: Option<int>)
    ensures r.Some? <==> kind in {CommunicationTower, "Substation", "Transformer", "Converter"}
    ensures kind == CommunicationTower ==> r == Some(45)
    ensures kind in {"Substation", "Transformer", "Converter"} ==> r == Some(10)
  {
    if kind in Distances then Some(Distances[kind]) else None
  }

  /** The factor a line's thickness is multiplied by: the table's `power_line` entry, 1 by default.
      The table has no `power_line` key, so the default is what is used. */
  function LineMultiplier(): (f: int)
    ensures f == 1
  {
    GetOr(Distances, "power_line", 1)
  }

  /** Python's `dict.get(key, default)`. */
  function GetOr(m: map<string, int>, key: string, default: int): (v: int)
    ensures key in m ==> v == m[key]
    ensures key !in m ==> v == default
  {
    if key in m then m[key] else default
  }

  /** The voltage ladder applied to the largest voltage of a line. */
  function Ladder(m: int): (t: int)
    ensures t == 2 <==> m < 1000
    ensures t == 10 <==> 1000 <= m < 20000
    ensures t == 15 <==> m == 35000
    ensures t == 25 <==> m in {150000, 220000}
    ensures t == 30 <==> m in {330000, 400000, 500000}
    ensures t == 40 <==> m == 750000
    ensures t == 55 <==> m == 1150000
    ensures t == 20 <==> 20000 <= m && m !in {35000, 150000, 220000, 330000, 400000, 500000, 750000, 1150000}
  {
    if m < 1000 then 2
    else if m < 20000 then 10
    else if m == 35000 then 15
    else if m == 110000 then 20
    else if m in {150000, 220000} then 25
    else if m in {330000, 400000, 500000} then 30
    else if m == 750000 then 40
    else if m == 1150000 then 55
    else 20
  }

  /** The thickness of a line: 40 for an empty tag, 20 when some `;`-piece is not an
      integer, otherwise the ladder value of the largest listed voltage. */
  function Thickness(v: string): (t: int)
    ensures t in {2, 10, 15, 20, 25, 30, 40, 55}
    ensures |v| == 0 ==> t == 40
    ensures |v| > 0 && (exists k :: 0 <= k < |Split(v, Separator)| && !IsIntLiteral(Split(v, Separator)[k])) ==> t == 20
    ensures WellFormed(v) ==> t == Ladder(MaxVoltage(v))
  {
    if |v| == 0 then 40
    else
      match ParseAll(Split(v, Separator))
      case None => 20
      case Some(vs) => Ladder(MaxOf(vs))
  }

  /** Two well-formed tags with the same largest voltage get the same thickness. */
  lemma ThicknessDependsOnlyOnMax(v: string, w: string)
    requires WellFormed(v) && WellFormed(w)
    requires MaxVoltage(v) == MaxVoltage(w)
    ensures Thickness(v) == Thickness(w)
  {
  }

  /** Any non-empty list of integers written out with `;` gets the ladder value of its maximum. */
  lemma {:induction false} ThicknessOfList(vs: seq<int>)
    requires |vs| > 0
    ensures Thickness(Join(ShowAll(vs), Separator)) == Ladder(MaxOf(vs))
  {
    var pieces := ShowAll(vs);
    var v := Join(pieces, Separator);
    ShowAllPieces(vs);
    SplitJoin(pieces, Separator);
    JoinNonEmpty(pieces, Separator);
    var parsed := ParseAll(pieces);
    assert parsed.Some?;
    assert parsed.value == vs by {
      forall k | 0 <= k < |vs| ensures parsed.value[k] == vs[k] {
        ParseShowInt(vs[k]);
      }
    }
  }

  /** `ShowInt` applied to each voltage. */
  function ShowAll(vs: seq<int>): (r: seq<string>)
    ensures |r| == |vs|
    ensures forall k :: 0 <= k < |vs| ==> r[k] == ShowInt(vs[k])
  {
    seq(|vs|, k requires 0 <= k < |vs| => ShowInt(vs[k]))
  }

  lemma ShowAllPieces(vs: seq<int>)
    ensures forall k :: 0 <= k < |vs| ==> IsIntLiteral(ShowAll(vs)[k]) && Separator !in ShowAll(vs)[k]
  {
    forall k | 0 <= k < |vs|
      ensures IsIntLiteral(ShowAll(vs)[k]) && Separator !in ShowAll(vs)[k]
    {
      ParseShowInt(vs[k]);
      var s := ShowInt(vs[k]);
      assert forall i :: 0 <= i < |s| ==> s[i] != Separator;
    }
  }

  lemma JoinNonEmpty(pieces: seq<string>, sep: char)
    requires |pieces| >= 1 && |pieces[0]| > 0
    ensures |Join(pieces, sep)| > 0
  {
    JoinCons(pieces, sep);
  }

  lemma EmptyVoltage()
    ensures Thickness("") == 40
  {
  }

  lemma SingleVoltage()
    ensures Thickness("35000") == 15
    ensures Thickness("750000") == 40
  {
    ThicknessOfList([35000]);
    assert ShowInt(35000) == "35000";
    ThicknessOfList([750000]);
    assert ShowInt(750000) == "750000";
  }

  lemma ListedVoltages()
    ensures Thickness("110000;50000") == 20
  {
    ThicknessOfList([110000, 50000]);
    assert ShowInt(110000) == "110000" && ShowInt(50000) == "50000";
    assert ShowAll([110000, 50000]) == ["110000", "50000"];
    assert Join(["110000", "50000"], Separator) == "110000;50000";
  }

  lemma MalformedVoltages()
    ensures Thickness("abc") == 20
    ensures Thickness("110000;") == 20
  {
    assert !IsIntLiteral(Split("abc", Separator)[0]);
    assert Split("110000;", Separator)[1] == "";
  }
}
