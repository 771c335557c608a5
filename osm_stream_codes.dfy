// The tag encoders of the stream walker: the road class of a `highway`
// value, the travel direction of `oneway` and `junction`, the packed lane
// word and the parking word assembled from the `parking:*` tags. In each
// module the string tests decide which case applies and a string-free
// function builds the bits, so that the facts about the bits are stated and
// proved on words alone.

/** `getClass`: the road class of a `highway` value. Ten fixed values name
    the minor classes 9-15; otherwise one of eight prefixes gives the
    ordinal 1-8, and a `_link` suffix adds the ramp flag. */
module RoadClass {
  import opened Text
  import opened Header

  /** The values that `getClass` matches exactly. */
  predicate IsMinorRoad(value: string) {
    value == "service" || value == "escape" || value == "bus_guideway" ||
    value == "track" || value == "path" || value == "bridleway" ||
    value == "footway" || value == "cycleway" || value == "steps" ||
    value == "pedestrian"
  }

  /** The values that start with one of the eight ranked road prefixes. */
  predicate HasRankedPrefix(value: string) {
    StartsWith(value, "motorway") || StartsWith(value, "trunk") ||
    StartsWith(value, "primary") || StartsWith(value, "secondary") ||
    StartsWith(value, "tertiary") || StartsWith(value, "unclassified") ||
    StartsWith(value, "residential") || StartsWith(value, "living_street")
  }

  function GetClass(h: Consts, value: string): (r: bv64)
    ensures value == "service" || value == "escape" || value == "bus_guideway" ==> r == 0x9
    ensures value == "track" ==> r == 0xA
    ensures value == "path" || value == "bridleway" ==> r == 0xB
    ensures value == "cycleway" ==> r == 0xC
    ensures value == "steps" ==> r == 0xD
    ensures value == "pedestrian" ==> r == 0xE
    ensures value == "footway" ==> r == 0xF
    ensures IsMinorRoad(value) ==> 9 <= r <= 0xF
    ensures !IsMinorRoad(value) && !HasRankedPrefix(value) ==> r == 0
  {
    if value == "service" then 0x9
    else if value == "escape" then 0x9
    else if value == "bus_guideway" then 0x9
    else if value == "track" then 0xA
    else if value == "path" then 0xB
    else if value == "bridleway" then 0xB
    else if value == "footway" then 0xF
    else if value == "cycleway" then 0xC
    else if value == "steps" then 0xD
    else if value == "pedestrian" then 0xE
    else RankedWord(h.flags.FLAG_RAMP, EndsWith(value, "_link"), RankOrdinal(value))
  }

  /** The ordinal of the first ranked prefix `value` starts with, 0 for none. */
  function RankOrdinal(value: string): (n: bv64)
    ensures n <= 8
    ensures n != 0 <==> HasRankedPrefix(value)
  {
    if StartsWith(value, "motorway") then 0x1
    else if StartsWith(value, "trunk") then 0x2
    else if StartsWith(value, "primary") then 0x3
    else if StartsWith(value, "secondary") then 0x4
    else if StartsWith(value, "tertiary") then 0x5
    else if StartsWith(value, "unclassified") then 0x6
    else if StartsWith(value, "residential") then 0x7
    else if StartsWith(value, "living_street") then 0x8
    else 0
  }

  /** A value that starts with a prefix shares its first two characters. */
  lemma PrefixChars(value: string, p: string)
    requires StartsWith(value, p) && |p| >= 2
    ensures value[0] == p[0] && value[1] == p[1]
  {
    assert value[..|p|][0] == value[0] && value[..|p|][1] == value[1];
  }

  /** Each ranked prefix has its own ordinal, from 1 for motorway to 8 for
      living_street. No value starts with two of the prefixes, since their
      first two characters differ, so each ordinal means exactly its
      prefix. */
  lemma RankOrdinals(value: string)
    ensures RankOrdinal(value) == 1 <==> StartsWith(value, "motorway")
    ensures RankOrdinal(value) == 2 <==> StartsWith(value, "trunk")
    ensures RankOrdinal(value) == 3 <==> StartsWith(value, "primary")
    ensures RankOrdinal(value) == 4 <==> StartsWith(value, "secondary")
    ensures RankOrdinal(value) == 5 <==> StartsWith(value, "tertiary")
    ensures RankOrdinal(value) == 6 <==> StartsWith(value, "unclassified")
    ensures RankOrdinal(value) == 7 <==> StartsWith(value, "residential")
    ensures RankOrdinal(value) == 8 <==> StartsWith(value, "living_street")
  {
    if StartsWith(value, "motorway") { PrefixChars(value, "motorway"); }
    if StartsWith(value, "trunk") { PrefixChars(value, "trunk"); }
    if StartsWith(value, "primary") { PrefixChars(value, "primary"); }
    if StartsWith(value, "secondary") { PrefixChars(value, "secondary"); }
    if StartsWith(value, "tertiary") { PrefixChars(value, "tertiary"); }
    if StartsWith(value, "unclassified") { PrefixChars(value, "unclassified"); }
    if StartsWith(value, "residential") { PrefixChars(value, "residential"); }
    if StartsWith(value, "living_street") { PrefixChars(value, "living_street"); }
  }

  /** The ranked half of `getClass`: the ramp flag, when the value is a
      link, over the ordinal; nothing when no prefix matched. */
  function RankedWord(flag: bv64, link: bool, n: bv64): bv64 {
    if n == 0 then 0 else (if link then flag else 0) | n
  }

  /** Every value other than the fixed ones is classified by its prefix. */
  lemma RankedFor(h: Consts, value: string)
    requires !IsMinorRoad(value)
    ensures GetClass(h, value) == RankedWord(h.flags.FLAG_RAMP, EndsWith(value, "_link"), RankOrdinal(value))
  {
  }

  /** With the ramp flag outside the class nibble, the nibble holds the
      ordinal and the flag is present exactly for a link. */
  lemma RankedBits(flag: bv64, link: bool, n: bv64)
    requires flag != 0 && flag & 0xF == 0 && n <= 8
    ensures RankedWord(flag, link, n) & 0xF == n
    ensures RankedWord(flag, link, n) & flag != 0 <==> link && n != 0
  {
  }

  lemma NibbleWithoutRamp(flag: bv64, r: bv64)
    requires flag & 0xF == 0 && 9 <= r <= 0xF
    ensures r & flag == 0
  {
  }

  /** A road class word carries the ramp flag only for a `_link` value with a
      ranked prefix, never for the fixed minor classes. */
  lemma RampOnlyOnLinks(h: Consts, value: string)
    requires RampOutsideNibble(h)
    ensures GetClass(h, value) & h.flags.FLAG_RAMP != 0 <==>
              !IsMinorRoad(value) && HasRankedPrefix(value) && EndsWith(value, "_link")
  {
    if IsMinorRoad(value) {
      NibbleWithoutRamp(h.flags.FLAG_RAMP, GetClass(h, value));
    } else {
      RankedFor(h, value);
      RankedBits(h.flags.FLAG_RAMP, EndsWith(value, "_link"), RankOrdinal(value));
    }
  }

  /** The class nibble is the ordinal for every value that is not a fixed
      one, so a value without a ranked prefix yields 0 even as a link. */
  lemma ClassNibble(h: Consts, value: string)
    requires RampOutsideNibble(h) && !IsMinorRoad(value)
    ensures GetClass(h, value) & 0xF == RankOrdinal(value)
    ensures !HasRankedPrefix(value) ==> GetClass(h, value) == 0
  {
    RankedFor(h, value);
    RankedBits(h.flags.FLAG_RAMP, EndsWith(value, "_link"), RankOrdinal(value));
  }
}

/** `getDir` and the way `closeWay` stores its code in bits 32-33 of the
    classification word. */
module Direction {

  predicate IsForwardValue(value: string) {
    value == "1" || value == "true" || value == "yes" || value == "roundabout" ||
    value == "mini_roundabout"
  }

  /** `getDir`: 1 one way along the drawing direction, 2 against it, 0 for
      both directions. */
  function GetDir(value: string): (d: bv64)
    ensures d == 1 <==> IsForwardValue(value)
    ensures d == 2 <==> value == "-1"
    ensures d == 0 <==> !IsForwardValue(value) && value != "-1"
  {
    if value == "1" then 1
    else if value == "true" then 1
    else if value == "yes" then 1
    else if value == "-1" then 2
    else if value == "roundabout" then 1
    else if value == "mini_roundabout" then 1
    else 0
  }

  /** One `oneway`/`junction` step of `closeWay`: the code is ORed in at bit
      32 only while bits 32-33 are clear. */
  function ApplyDir(t: bv64, d: bv64): bv64 {
    var one := d << 32;
    if (t >> 32) & 0x3 == 0 then t | one else t
  }

  /** The direction field of a word. */
  function DirField(t: bv64): bv64 {
    (t >> 32) & 0x3
  }

  /** Every bit of a word but the direction field. */
  function OtherBits(t: bv64): bv64 {
    t & 0xFFFF_FFFC_FFFF_FFFF
  }

  /** On a word whose direction field is clear, a code below 3 lands in the
      field and no other bit changes. */
  lemma SetDirection(t: bv64, d: bv64)
    requires DirField(t) == 0 && d <= 2
    ensures DirField(ApplyDir(t, d)) == d
    ensures OtherBits(ApplyDir(t, d)) == OtherBits(t)
  {
  }

  /** A direction already in the word is never replaced. */
  lemma DirectionKept(t: bv64, d: bv64)
    requires DirField(t) != 0
    ensures ApplyDir(t, d) == t
  {
  }

  /** `oneway` is applied before `junction`: on a word whose direction bits
      are clear the first non-zero code wins, and no other bit changes. */
  lemma OnewayBeforeJunction(t: bv64, oneway: bv64, junction: bv64)
    requires DirField(t) == 0 && oneway <= 2 && junction <= 2
    ensures DirField(ApplyDir(ApplyDir(t, oneway), junction)) ==
              if oneway != 0 then oneway else junction
    ensures OtherBits(ApplyDir(ApplyDir(t, oneway), junction)) == OtherBits(t)
  {
    SetDirection(t, oneway);
    var w := ApplyDir(t, oneway);
    if oneway == 0 {
      SetDirection(w, junction);
    } else {
      DirectionKept(w, junction);
    }
  }
}

/** `getLanes`: the lane counts of a way packed into one word, the total in
    bits 0-2, the forward count from bit 16 and the backward count from
    bit 24. */
module Lanes {
  import opened Text

  /** A lane tag as `getLanes` reads it: absent or unparsable is `None`. */
  function LaneTag(tags: map<string, string>, key: string): (r: Option<bv64>)
    ensures key !in tags ==> r.None?
    ensures key in tags && ParseULong(tags[key]).None? ==> r.None?
  {
    if key in tags then
      match ParseULong(tags[key])
      case Some(v) => Some(v as bv64)
      case None => None
    else None
  }

  /** The word built from the three lane tags. */
  function LaneWord(total: Option<bv64>, forward: Option<bv64>, backward: Option<bv64>): bv64 {
    (if total.Some? then total.value & 0x7 else 0) |
    (if forward.Some? then forward.value << 16 else 0) |
    (if backward.Some? then backward.value << 24 else 0)
  }

  function GetLanes(tags: map<string, string>): bv64 {
    LaneWord(LaneTag(tags, "lanes"), LaneTag(tags, "lanes:forward"), LaneTag(tags, "lanes:backward"))
  }

  function OrZero(v: Option<bv64>): bv64 {
    if v.Some? then v.value else 0
  }

  /** What each field of the word holds: the total is truncated to three
      bits, the forward count keeps its low byte in bits 16-23, and the
      rest of the forward count shares the high bits with the backward
      count. A missing or unparsable tag adds nothing. */
  lemma LaneFields(total: Option<bv64>, forward: Option<bv64>, backward: Option<bv64>)
    ensures LaneWord(total, forward, backward) & 0xFFFF == OrZero(total) & 0x7
    ensures (LaneWord(total, forward, backward) >> 16) & 0xFF == OrZero(forward) & 0xFF
    ensures LaneWord(total, forward, backward) >> 24 ==
              ((OrZero(forward) >> 8) | OrZero(backward)) & 0xFF_FFFF_FFFF
  {
  }

  /** For counts that fit their fields the word decodes to the counts. */
  lemma LaneRoundTrip(total: bv64, forward: bv64, backward: bv64)
    requires total < 8 && forward < 0x100 && backward < 0x100_0000_0000
    ensures LaneWord(Some(total), Some(forward), Some(backward)) & 0x7 == total
    ensures (LaneWord(Some(total), Some(forward), Some(backward)) >> 16) & 0xFF == forward
    ensures LaneWord(Some(total), Some(forward), Some(backward)) >> 24 == backward
  {
    LaneFields(Some(total), Some(forward), Some(backward));
  }

  /** The lane word `closeWay` stores: never 0. */
  function StoredLanes(tags: map<string, string>): (w: bv64)
    ensures w != 0
    ensures GetLanes(tags) != 0 ==> w == GetLanes(tags)
  {
    var lanes := GetLanes(tags);
    if lanes == 0 then 1 else lanes
  }
}

/** `parkingMode`, `parkingRes`, `parkingTest` and `getParking`: the parking
    word of a way. Every function here ORs header constants into a result,
    so each is modelled by the set of constants it ORs in, and the word is
    the OR of the constants in the set. The mode word of the source selects
    the right-hand side with bit 0 (`0x1`) and the left-hand side with
    bit 32 (`0x1_0000_0000`); `Mode` holds those two bits. */
module Parking {
  import opened Text
  import opened Header

  /** The parking constants of the header, by name: `V_PARK_NO_*`,
      `V_PARK_PARALLEL_*`, `V_PARK_DIAGONAL_*`, `V_PARK_PERPENDI_*` and
      the marking flags `FLAG_PARKING_*`. */
  datatype ParkBit =
    | NoR | NoL | ParallelR | ParallelL | DiagonalR | DiagonalL
    | PerpendicularR | PerpendicularL | MarkingR | MarkingL

  predicate IsLeft(b: ParkBit) {
    b == NoL || b == ParallelL || b == DiagonalL || b == PerpendicularL || b == MarkingL
  }

  predicate IsOrientation(b: ParkBit) {
    b == ParallelR || b == ParallelL || b == DiagonalR || b == DiagonalL ||
    b == PerpendicularR || b == PerpendicularL
  }

  /** What a parking bit says, whichever side it is for. */
  datatype ParkKind = NoParking | Parallel | Diagonal | Perpendicular | Marking

  function KindOf(b: ParkBit): ParkKind {
    match b
    case NoR => NoParking
    case NoL => NoParking
    case ParallelR => Parallel
    case ParallelL => Parallel
    case DiagonalR => Diagonal
    case DiagonalL => Diagonal
    case PerpendicularR => Perpendicular
    case PerpendicularL => Perpendicular
    case MarkingR => Marking
    case MarkingL => Marking
  }

  /** The same constant for the other side: the kind is kept and the side
      flips, which determines the bit. */
  function Mirror(b: ParkBit): (m: ParkBit)
    ensures KindOf(m) == KindOf(b)
    ensures IsLeft(m) <==> !IsLeft(b)
    ensures IsOrientation(m) <==> IsOrientation(b)
  {
    match b
    case NoR => NoL
    case NoL => NoR
    case ParallelR => ParallelL
    case ParallelL => ParallelR
    case DiagonalR => DiagonalL
    case DiagonalL => DiagonalR
    case PerpendicularR => PerpendicularL
    case PerpendicularL => PerpendicularR
    case MarkingR => MarkingL
    case MarkingL => MarkingR
  }

  /** Mirroring twice gives the bit back. */
  lemma MirrorTwice(b: ParkBit)
    ensures Mirror(Mirror(b)) == b
  {
  }

  /** The header constant a name stands for. */
  function BitValue(h: Consts, b: ParkBit): bv64 {
    match b
    case NoR => h.park.V_PARK_NO_R
    case NoL => h.park.V_PARK_NO_L
    case ParallelR => h.park.V_PARK_PARALLEL_R
    case ParallelL => h.park.V_PARK_PARALLEL_L
    case DiagonalR => h.park.V_PARK_DIAGONAL_R
    case DiagonalL => h.park.V_PARK_DIAGONAL_L
    case PerpendicularR => h.park.V_PARK_PERPENDI_R
    case PerpendicularL => h.park.V_PARK_PERPENDI_L
    case MarkingR => h.park.FLAG_PARKING_R
    case MarkingL => h.park.FLAG_PARKING_L
  }

  /** The side bits of a mode word. */
  datatype Mode = Mode(right: bool, left: bool)

  /** The mode word as the source holds it. */
  function ModeWord(m: Mode): (w: bv64)
    ensures w & 0x1 != 0 <==> m.right
    ensures w & 0x1_0000_0000 != 0 <==> m.left
  {
    (if m.right then 0x1 else 0) | (if m.left then 0x1_0000_0000 else 0)
  }

  /** `parkingMode`: the side segment of a key. `both`, `left` and `right`
      select their sides; any other segment selects none and fails. */
  function ParkingMode(part: string): (r: Option<Mode>)
    ensures r.None? <==> part != "both" && part != "left" && part != "right"
    ensures r.Some? ==> (r.value.right <==> part != "left") && (r.value.left <==> part != "right")
  {
    if part == "both" then Some(Mode(true, true))
    else if part == "left" then Some(Mode(false, true))
    else if part == "right" then Some(Mode(true, false))
    else None
  }

  /** The code word `parkingMode` ORs in for each side segment: bit 0 for
      `right`, bit 32 for `left`, both for `both`. */
  lemma ModeWords()
    ensures ModeWord(ParkingMode("both").value) == 0x1_0000_0001
    ensures ModeWord(ParkingMode("left").value) == 0x1_0000_0000
    ensures ModeWord(ParkingMode("right").value) == 0x1
  {
  }

  /** The right and the left constant of one kind, as far as the mode
      selects them. */
  function Sides(m: Mode, right: ParkBit, left: ParkBit): (r: set<ParkBit>)
    ensures forall b :: b in r ==> (b == right && m.right) || (b == left && m.left)
    ensures m.right ==> right in r
    ensures m.left ==> left in r
  {
    (if m.right then {right} else {}) + (if m.left then {left} else {})
  }

  predicate IsNoParkingValue(value: string) {
    value == "no" || value == "no_parking" || value == "no_stopping"
  }

  /** `parkingRes`: "no", "no_parking" and "no_stopping" forbid parking on
      the selected sides; every other value sets nothing. */
  function ParkingRes(value: string, m: Mode): (r: set<ParkBit>)
    ensures forall b :: b in r ==> b == NoR || b == NoL
    ensures NoR in r <==> IsNoParkingValue(value) && m.right
    ensures NoL in r <==> IsNoParkingValue(value) && m.left
  {
    if IsNoParkingValue(value) then Sides(m, NoR, NoL) else {}
  }

  /** The orientation constants of one value, on the selected sides. */
  function Orientations(value: string, m: Mode): (r: set<ParkBit>)
    ensures forall b :: b in r ==> IsOrientation(b) && (IsLeft(b) ==> m.left) && (!IsLeft(b) ==> m.right)
    ensures m == Mode(true, true) ==> forall b :: b in r ==> Mirror(b) in r
    ensures ParallelR in r || DiagonalR in r || PerpendicularR in r <==> IsOrientationValue(value) && m.right
    ensures ParallelL in r || DiagonalL in r || PerpendicularL in r <==> IsOrientationValue(value) && m.left
    ensures forall b :: b in r ==> KindOf(b) == (if value == "parallel" then Parallel else if value == "diagonal" then Diagonal else Perpendicular)
  {
    (if value == "parallel" then Sides(m, ParallelR, ParallelL) else {}) +
    (if value == "diagonal" then Sides(m, DiagonalR, DiagonalL) else {}) +
    (if value == "perpendicular" then Sides(m, PerpendicularR, PerpendicularL) else {})
  }

  predicate IsOrientationValue(value: string) {
    value == "parallel" || value == "diagonal" || value == "perpendicular"
  }

  /** `parkingTest`: under an `orientation` segment, "parallel", "diagonal"
      and "perpendicular" set their orientation constant on the selected
      sides and then add the marking flag of each selected side. */
  function ParkingTest(part: string, value: string, m: Mode): (r: set<ParkBit>)
    ensures forall b :: b in r ==> IsOrientation(b) || b == MarkingR || b == MarkingL
    ensures part != "orientation" || !IsOrientationValue(value) ==> r == {}
    ensures MarkingR in r <==> part == "orientation" && IsOrientationValue(value) && m.right
    ensures MarkingL in r <==> part == "orientation" && IsOrientationValue(value) && m.left
    ensures MarkingR in r <==> ParallelR in r || DiagonalR in r || PerpendicularR in r
    ensures MarkingL in r <==> ParallelL in r || DiagonalL in r || PerpendicularL in r
    ensures forall b :: b in r ==> (IsLeft(b) ==> m.left) && (!IsLeft(b) ==> m.right)
    ensures m == Mode(true, true) ==> forall b :: b in r ==> Mirror(b) in r
    ensures forall b :: b in r && IsOrientation(b) ==> KindOf(b) == (if value == "parallel" then Parallel else if value == "diagonal" then Diagonal else Perpendicular)
  {
    if part != "orientation" then {}
    else
      var ret := Orientations(value, m);
      if ret == {} then {} else ret + Sides(m, MarkingR, MarkingL)
  }

  /** The side a key selects: `None` unless it starts with "parking" and its
      second `:` segment is `both`, `left` or `right`. */
  function KeyMode(key: string): Option<Mode> {
    if StartsWith(key, "parking") then
      var parts := Split(key, ':');
      if |parts| > 1 then ParkingMode(parts[1]) else None
    else None
  }

  /** What a tag whose key selects the sides `m` adds, given the key
      segments after the side segment. */
  function SegmentBits(segments: seq<string>, value: string, m: Mode): (r: set<ParkBit>)
    ensures forall b :: b in r ==> (IsLeft(b) ==> m.left) && (!IsLeft(b) ==> m.right)
    ensures m == Mode(true, true) ==> forall b :: b in r ==> Mirror(b) in r
    ensures MarkingR in r <==> ParallelR in r || DiagonalR in r || PerpendicularR in r
    ensures MarkingL in r <==> ParallelL in r || DiagonalL in r || PerpendicularL in r
    ensures |segments| == 0 ==> r <= {NoR, NoL}
    ensures |segments| == 0 ==> (NoR in r <==> StartsWith(value, "no") && m.right)
    ensures |segments| == 0 ==> (NoL in r <==> StartsWith(value, "no") && m.left)
  {
    if |segments| > 0 then
      var res := if segments[0] == "restriction" then ParkingRes(value, m) else {};
      var test := ParkingTest(segments[0], value, m);
      assert forall b :: b in res ==> b == NoR || b == NoL;
      res + test
    else if StartsWith(value, "no") then Sides(m, NoR, NoL)
    else {}
  }

  /** With a third key segment, only `restriction` forbids parking, and
      only `orientation` sets orientation constants, each value its own:
      parallel, diagonal or perpendicular. */
  lemma SegmentKinds(segments: seq<string>, value: string, m: Mode)
    requires |segments| > 0
    ensures NoR in SegmentBits(segments, value, m) <==> segments[0] == "restriction" && IsNoParkingValue(value) && m.right
    ensures NoL in SegmentBits(segments, value, m) <==> segments[0] == "restriction" && IsNoParkingValue(value) && m.left
    ensures forall b :: b in SegmentBits(segments, value, m) && IsOrientation(b) ==>
              segments[0] == "orientation" && KindOf(b) == (if value == "parallel" then Parallel else if value == "diagonal" then Diagonal else Perpendicular)
  {
  }

  /** One pass of the loop of `getParking`: what the tag `key`=`value` adds. */
  function TagBits(key: string, value: string): set<ParkBit> {
    if !StartsWith(key, "parking") then {}
    else
      var parts := Split(key, ':');
      if |parts| <= 1 then {}
      else
        match ParkingMode(parts[1])
        case None => {}
        case Some(m) => SegmentBits(parts[2..], value, m)
  }

  /** A tag touches only the sides its key selects: a `right` key never
      sets a left-hand constant, a `left` key never a right-hand one, and
      a key whose side segment is not `left`, `right` or `both` (or that
      has none) sets nothing. */
  lemma TagSides(key: string, value: string)
    ensures KeyMode(key).None? ==> TagBits(key, value) == {}
    ensures KeyMode(key).Some? ==>
              forall b :: b in TagBits(key, value) ==>
                (IsLeft(b) ==> KeyMode(key).value.left) && (!IsLeft(b) ==> KeyMode(key).value.right)
  {
  }

  /** A `both` key sets each constant on both sides. */
  lemma BothSidesAlike(key: string, value: string)
    requires KeyMode(key) == Some(Mode(true, true))
    ensures forall b :: b in TagBits(key, value) ==> Mirror(b) in TagBits(key, value)
  {
  }

  /** A tag sets a marking flag exactly when it sets an orientation constant
      on that side. */
  lemma TagMarking(key: string, value: string)
    ensures MarkingR in TagBits(key, value) <==>
              ParallelR in TagBits(key, value) || DiagonalR in TagBits(key, value) ||
              PerpendicularR in TagBits(key, value)
    ensures MarkingL in TagBits(key, value) <==>
              ParallelL in TagBits(key, value) || DiagonalL in TagBits(key, value) ||
              PerpendicularL in TagBits(key, value)
  {
  }

  /** `parking:right:orientation=diagonal` sets the right-hand diagonal
      constant and the right-hand marking flag, and nothing else. */
  lemma RightDiagonal()
    ensures TagBits("parking:right:orientation", "diagonal") == {DiagonalR, MarkingR}
  {
    RightOrientationKey("diagonal");
    RightDiagonalBits();
  }

  /** The key `parking:right:orientation` selects the right side and leaves
      the segment `orientation`. */
  lemma RightOrientationKey(value: string)
    ensures TagBits("parking:right:orientation", value) == SegmentBits(["orientation"], value, Mode(true, false))
  {
    var parts := ["parking", "right", "orientation"];
    RightKeySplit();
    RightKeyPrefix();
    assert parts[2..] == ["orientation"];
    KeyParts("parking:right:orientation", parts, value);
  }

  lemma RightKeySplit()
    ensures Split("parking:right:orientation", ':') == ["parking", "right", "orientation"]
  {
    var parts := ["parking", "right", "orientation"];
    assert Join(parts, ':') == "parking:right:orientation";
    SplitJoin(parts, ':');
  }

  lemma RightKeyPrefix()
    ensures StartsWith("parking:right:orientation", "parking")
  {
    assert "parking:right:orientation"[..7] == "parking";
  }

  /** The steps of `TagBits` for a `parking` key with a side segment. */
  lemma KeyParts(key: string, parts: seq<string>, value: string)
    requires StartsWith(key, "parking") && Split(key, ':') == parts && |parts| > 1
    requires ParkingMode(parts[1]).Some?
    ensures TagBits(key, value) == SegmentBits(parts[2..], value, ParkingMode(parts[1]).value)
  {
  }

  lemma RightDiagonalBits()
    ensures SegmentBits(["orientation"], "diagonal", Mode(true, false)) == {DiagonalR, MarkingR}
  {
  }

  /** A two-segment key such as `parking:right` forbids parking on its sides
      exactly when its value starts with "no", and sets nothing else. */
  lemma TwoSegmentNo(key: string, value: string)
    requires KeyMode(key).Some? && |Split(key, ':')| == 2
    ensures TagBits(key, value) <= {NoR, NoL}
    ensures NoR in TagBits(key, value) <==> StartsWith(value, "no") && KeyMode(key).value.right
    ensures NoL in TagBits(key, value) <==> StartsWith(value, "no") && KeyMode(key).value.left
  {
  }

  /** The constants all tags of an element contribute. */
  function AllBits(tags: map<string, string>): (r: set<ParkBit>)
    ensures forall k :: k in tags ==> TagBits(k, tags[k]) <= r
  {
    set k, b | k in tags && b in TagBits(k, tags[k]) :: b
  }

  /** `getParking`: the loop over the tags, accumulating what each adds. */
  method GetParking(tags: map<string, string>) returns (ret: set<ParkBit>)
    ensures ret == AllBits(tags)
  {
    ret := {};
    var rest := tags.Keys;
    while rest != {}
      invariant rest <= tags.Keys
      invariant ret == set k, b | k in tags && k !in rest && b in TagBits(k, tags[k]) :: b
      decreases rest
    {
      var key :| key in rest;
      ret := ret + TagBits(key, tags[key]);
      rest := rest - {key};
    }
  }

  /** The word of a set of constants, ORed in the order of `order`. */
  function WordOf(h: Consts, s: set<ParkBit>, order: seq<ParkBit>): bv64 {
    if order == [] then 0
    else (if order[0] in s then BitValue(h, order[0]) else 0) | WordOf(h, s, order[1..])
  }

  const Order := [NoR, NoL, ParallelR, ParallelL, DiagonalR, DiagonalL,
                  PerpendicularR, PerpendicularL, MarkingR, MarkingL]

  /** The parking word of a set of constants. */
  function Word(h: Consts, s: set<ParkBit>): bv64 {
    WordOf(h, s, Order)
  }

  /** Every left-hand constant in the union comes from a tag whose key selects
      the left-hand side, and every right-hand one from a key selecting the
      right-hand side. */
  lemma UnionSides(tags: map<string, string>, b: ParkBit)
    requires b in AllBits(tags)
    ensures exists k :: k in tags && KeyMode(k).Some? &&
              (if IsLeft(b) then KeyMode(k).value.left else KeyMode(k).value.right)
  {
    var k :| k in tags && b in TagBits(k, tags[k]);
    TagSides(k, tags[k]);
  }

  /** The union holds a marking flag exactly when it holds an orientation
      constant of the same side. */
  lemma UnionMarking(tags: map<string, string>)
    ensures MarkingR in AllBits(tags) <==>
              ParallelR in AllBits(tags) || DiagonalR in AllBits(tags) || PerpendicularR in AllBits(tags)
    ensures MarkingL in AllBits(tags) <==>
              ParallelL in AllBits(tags) || DiagonalL in AllBits(tags) || PerpendicularL in AllBits(tags)
  {
    forall k | k in tags {
      TagMarking(k, tags[k]);
    }
  }

  /** Without a tag whose key starts with "parking" the word is 0. */
  lemma NoParkingTags(h: Consts, tags: map<string, string>)
    requires forall k :: k in tags ==> !StartsWith(k, "parking")
    ensures AllBits(tags) == {}
    ensures Word(h, AllBits(tags)) == 0
  {
    EmptyWord(h, Order);
  }

  lemma {:induction false} EmptyWord(h: Consts, order: seq<ParkBit>)
    ensures WordOf(h, {}, order) == 0
    decreases |order|
  {
    if order != [] {
      EmptyWord(h, order[1..]);
    }
  }
}
