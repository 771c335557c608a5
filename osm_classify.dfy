/** The classification word `closeWay` gives a way and the point type
    `closeNode` gives a node: each tag that maps to a non-zero code replaces
    what the tags before it set, in a fixed order of keys. */
module Classify {
  import opened Header
  import RoadClass
  import Direction
  import BarrierTable
  import BuildingTable
  import LanduseTable
  import NaturalTable
  import RailWayTable
  import HighwayPointTable
  import RailwayPointTable
  import AmenityTable
  import ShopTable

  function Or(a: bv64, b: bv64): bv64 {
    a | b
  }

  /** `r` is the last non-zero entry of `s`, or 0 when every entry is 0. */
  predicate IsLastNonzero(s: seq<bv64>, r: bv64) {
    if r == 0 then forall i :: 0 <= i < |s| ==> s[i] == 0
    else exists i :: 0 <= i < |s| && s[i] == r && forall j :: i < j < |s| ==> s[j] == 0
  }

  /** A non-zero candidate replaces the word so far. */
  function Pick(t: bv64, w: bv64): bv64 {
    if w != 0 then w else t
  }

  lemma LastOfFive(a: bv64, b: bv64, c: bv64, d: bv64, e: bv64)
    ensures IsLastNonzero([a, b, c, d, e], Pick(Pick(Pick(Pick(Pick(0, a), b), c), d), e))
  {
    var s := [a, b, c, d, e];
    var r := Pick(Pick(Pick(Pick(Pick(0, a), b), c), d), e);
    var k := if e != 0 then 4 else if d != 0 then 3 else if c != 0 then 2 else if b != 0 then 1 else 0;
    assert s[k] == r;
    assert forall j :: k < j < 5 ==> s[j] == 0;
    if r == 0 {
      assert forall j :: 0 <= j < 5 ==> s[j] == 0;
    }
  }

  lemma LastOfSix(a: bv64, b: bv64, c: bv64, d: bv64, e: bv64, f: bv64)
    ensures IsLastNonzero([a, b, c, d, e, f], Pick(Pick(Pick(Pick(Pick(Pick(0, a), b), c), d), e), f))
  {
    var s := [a, b, c, d, e, f];
    var r := Pick(Pick(Pick(Pick(Pick(Pick(0, a), b), c), d), e), f);
    var k := if f != 0 then 5 else if e != 0 then 4 else if d != 0 then 3
             else if c != 0 then 2 else if b != 0 then 1 else 0;
    assert s[k] == r;
    assert forall j :: k < j < 6 ==> s[j] == 0;
    if r == 0 {
      assert forall j :: 0 <= j < 6 ==> s[j] == 0;
    }
  }

  // ------------------------------------------------------------ ways

  /** One `if(code) way.type = CATEGORY | code;` block of `closeWay`. */
  function Block(t: bv64, category: bv64, code: bv64): bv64 {
    if code != 0 then Or(category, code) else t
  }

  /** A block is a pick of the word it would set on its own: the category
      ORed with a non-zero code is never 0. */
  lemma BlockPicks(t: bv64, category: bv64, code: bv64)
    ensures Block(t, category, code) == Pick(t, Block(0, category, code))
  {
  }

  /** The codes the tables give for the tags of a way, 0 for an absent tag. */
  function HighwayCode(h: Consts, tags: map<string, string>): bv64 {
    if "highway" in tags then RoadClass.GetClass(h, tags["highway"]) else 0
  }

  function RailwayCode(tags: map<string, string>): bv64 {
    if "railway" in tags then RailWayTable.GetRailWayClass(tags["railway"]) else 0
  }

  /** A recognised barrier always gives the fixed road class 12. */
  function BarrierCode(h: Consts, tags: map<string, string>): bv64 {
    if "barrier" in tags && BarrierTable.GetBarrierClass(h, tags["barrier"]) != 0 then 12 else 0
  }

  function BuildingCode(h: Consts, tags: map<string, string>): bv64 {
    if "building" in tags then BuildingTable.GetBuildingClass(h, tags["building"]) else 0
  }

  function LanduseCode(h: Consts, tags: map<string, string>): bv64 {
    if "landuse" in tags then LanduseTable.GetLanduseClass(h, tags["landuse"]) else 0
  }

  function NaturalCode(h: Consts, tags: map<string, string>): bv64 {
    if "natural" in tags then NaturalTable.GetNaturalClass(h, tags["natural"]) else 0
  }

  /** The word each block would set on its own, in the order of `closeWay`. */
  function WayCandidates(h: Consts, tags: map<string, string>): seq<bv64> {
    [Block(0, h.types.TYPE_ROAD, HighwayCode(h, tags)),
     Block(0, h.types.TYPE_RAIL, RailwayCode(tags)),
     Block(0, h.types.TYPE_ROAD, BarrierCode(h, tags)),
     Block(0, h.types.TYPE_BUILDING, BuildingCode(h, tags)),
     Block(0, h.types.TYPE_LANDUSE, LanduseCode(h, tags)),
     Block(0, h.types.TYPE_NATURAL, NaturalCode(h, tags))]
  }

  /** `closeWay`'s chain of blocks, starting from 0. */
  function WayClass(h: Consts, tags: map<string, string>): bv64 {
    var t1 := Block(0, h.types.TYPE_ROAD, HighwayCode(h, tags));
    var t2 := Block(t1, h.types.TYPE_RAIL, RailwayCode(tags));
    var t3 := Block(t2, h.types.TYPE_ROAD, BarrierCode(h, tags));
    var t4 := Block(t3, h.types.TYPE_BUILDING, BuildingCode(h, tags));
    var t5 := Block(t4, h.types.TYPE_LANDUSE, LanduseCode(h, tags));
    Block(t5, h.types.TYPE_NATURAL, NaturalCode(h, tags))
  }

  /** The class is the last candidate that is not 0, in the order highway,
      railway, barrier, building, landuse, natural. */
  lemma WayClassLastWins(h: Consts, tags: map<string, string>)
    ensures IsLastNonzero(WayCandidates(h, tags), WayClass(h, tags))
  {
    var c := WayCandidates(h, tags);
    var t1 := Block(0, h.types.TYPE_ROAD, HighwayCode(h, tags));
    var t2 := Block(t1, h.types.TYPE_RAIL, RailwayCode(tags));
    var t3 := Block(t2, h.types.TYPE_ROAD, BarrierCode(h, tags));
    var t4 := Block(t3, h.types.TYPE_BUILDING, BuildingCode(h, tags));
    var t5 := Block(t4, h.types.TYPE_LANDUSE, LanduseCode(h, tags));
    BlockPicks(0, h.types.TYPE_ROAD, HighwayCode(h, tags));
    BlockPicks(t1, h.types.TYPE_RAIL, RailwayCode(tags));
    BlockPicks(t2, h.types.TYPE_ROAD, BarrierCode(h, tags));
    BlockPicks(t3, h.types.TYPE_BUILDING, BuildingCode(h, tags));
    BlockPicks(t4, h.types.TYPE_LANDUSE, LanduseCode(h, tags));
    BlockPicks(t5, h.types.TYPE_NATURAL, NaturalCode(h, tags));
    LastOfSix(c[0], c[1], c[2], c[3], c[4], c[5]);
  }

  /** Because the building table never yields 0, a `building` tag overrides
      whatever highway, railway or barrier set: only landuse and natural
      come after it. */
  lemma BuildingOverrides(h: Consts, tags: map<string, string>)
    requires AreaFlagSet(h) && "building" in tags
    ensures WayClass(h, tags) ==
              if NaturalCode(h, tags) != 0 then Or(h.types.TYPE_NATURAL, NaturalCode(h, tags))
              else if LanduseCode(h, tags) != 0 then Or(h.types.TYPE_LANDUSE, LanduseCode(h, tags))
              else Or(h.types.TYPE_BUILDING, BuildingTable.GetBuildingClass(h, tags["building"]))
  {
    BuildingTable.BuildingNeverZero(h, tags["building"]);
  }

  /** Without any classifying tag the class is 0. */
  lemma UnclassifiedWay(h: Consts, tags: map<string, string>)
    requires forall k :: k in tags ==> k != "highway" && k != "railway" && k != "barrier" &&
                                       k != "building" && k != "landuse" && k != "natural"
    ensures WayClass(h, tags) == 0
  {
    assert "highway" !in tags && "railway" !in tags && "barrier" !in tags;
    assert "building" !in tags && "landuse" !in tags && "natural" !in tags;
  }

  /** The code a direction tag contributes, 0 when the tag is absent. */
  function DirCode(tags: map<string, string>, key: string): (d: bv64)
    ensures d <= 2
    ensures key !in tags ==> d == 0
  {
    if key in tags then Direction.GetDir(tags[key]) else 0
  }

  /** The whole classification word of `closeWay`: the class, then the
      `oneway` direction, then the `junction` direction. */
  function WayType(h: Consts, tags: map<string, string>): bv64 {
    var t := WayClass(h, tags);
    var t1 := if "oneway" in tags then Direction.ApplyDir(t, Direction.GetDir(tags["oneway"])) else t;
    if "junction" in tags then Direction.ApplyDir(t1, Direction.GetDir(tags["junction"])) else t1
  }

  /** On a class whose direction bits are clear, the direction field holds
      the `oneway` code when that is not 0 and the `junction` code
      otherwise, and no other bit of the class changes. */
  lemma WayDirection(h: Consts, tags: map<string, string>)
    requires Direction.DirField(WayClass(h, tags)) == 0
    ensures Direction.DirField(WayType(h, tags)) ==
              if DirCode(tags, "oneway") != 0 then DirCode(tags, "oneway") else DirCode(tags, "junction")
    ensures Direction.OtherBits(WayType(h, tags)) == Direction.OtherBits(WayClass(h, tags))
  {
    var t := WayClass(h, tags);
    Direction.OnewayBeforeJunction(t, DirCode(tags, "oneway"), DirCode(tags, "junction"));
    ApplyNoDir(t);
    ApplyNoDir(Direction.ApplyDir(t, DirCode(tags, "oneway")));
  }

  /** A direction code of 0 changes nothing. */
  lemma ApplyNoDir(t: bv64)
    ensures Direction.ApplyDir(t, 0) == t
  {
  }

  // ---------------------------------------------------------- nodes

  /** The point codes of the tables, in the order `closeNode` tries them;
      0 for an absent tag. A barrier is looked up but sets nothing. */
  function PointCandidates(h: Consts, tags: map<string, string>): seq<bv64> {
    [ if "highway" in tags then HighwayPointTable.GetHighwayPointClass(h, tags["highway"]) else 0,
      if "railway" in tags then RailwayPointTable.GetRailwayPointClass(h, tags["railway"]) else 0,
      if "natural" in tags then NaturalTable.GetNaturalClass(h, tags["natural"]) else 0,
      if "amenity" in tags then AmenityTable.GetAmenityClass(h, tags["amenity"]) else 0,
      if "shop" in tags then ShopTable.GetShopClass(h, tags["shop"]) else 0 ]
  }

  /** `closeNode`'s chain: the type starts at 0 and each table with a
      non-zero code replaces it. */
  function PointClass(h: Consts, tags: map<string, string>): bv64 {
    var t1 := if "highway" in tags then Pick(0, HighwayPointTable.GetHighwayPointClass(h, tags["highway"])) else 0;
    var t2 := if "railway" in tags then Pick(t1, RailwayPointTable.GetRailwayPointClass(h, tags["railway"])) else t1;
    var t3 := if "natural" in tags then Pick(t2, NaturalTable.GetNaturalClass(h, tags["natural"])) else t2;
    var t4 := if "amenity" in tags then Pick(t3, AmenityTable.GetAmenityClass(h, tags["amenity"])) else t3;
    if "shop" in tags then Pick(t4, ShopTable.GetShopClass(h, tags["shop"])) else t4
  }

  /** The point type is the last non-zero candidate, in the order highway,
      railway, natural, amenity, shop. */
  lemma PointClassLastWins(h: Consts, tags: map<string, string>)
    ensures IsLastNonzero(PointCandidates(h, tags), PointClass(h, tags))
  {
    var c := PointCandidates(h, tags);
    LastOfFive(c[0], c[1], c[2], c[3], c[4]);
  }
}
