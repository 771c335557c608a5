/** `TrImportOsmRel` and `Relation`: the sub-parser that reads one
    `<relation>` element from the reader the stream walker is using, and the
    multipolygon resolver that rewrites the classification words of the
    member ways in the walker's way map. */
module OsmRel {
  import opened Text
  import opened Xml
  import opened Header
  import opened OsmTypes
  import BuildingTable
  import NaturalTable
  import LanduseTable

  /** `flags & bit` is non-zero. */
  predicate Has(flags: bv64, bit: bv64) {
    flags & bit != 0
  }

  /** `a | b` */
  function Or(a: bv64, b: bv64): bv64 {
    a | b
  }

  lemma OrIntoZero(x: bv64)
    ensures Or(0, x) == x
  {
  }

  // ---------------------------------------------------------------- members

  /** The role flags `readMember` sets: "outer" and "inner" set their role
      flag, every other role sets none. */
  function RoleFlags(roles: RoleBits, role: string): (r: bv64)
    ensures role == "outer" ==> r == roles.REL_MEM_ROLE_OUT
    ensures role == "inner" ==> r == roles.REL_MEM_ROLE_IN
    ensures role != "outer" && role != "inner" ==> r == 0
  {
    if role == "outer" then roles.REL_MEM_ROLE_OUT
    else if role == "inner" then roles.REL_MEM_ROLE_IN
    else 0
  }

  /** `readMember`: the member a `<member>` element adds. Only a way member
      whose `ref` parses is kept. */
  function MemberOf(roles: RoleBits, attrs: map<string, string>): (r: Option<Member>)
    ensures r.Some? <==> Value(attrs, "type") == "way" && ParseULong(Value(attrs, "ref")).Some?
    ensures r.Some? ==> r.value.id == ParseULong(Value(attrs, "ref")).value
    ensures r.Some? ==> r.value.flags == RoleFlags(roles, Value(attrs, "role"))
  {
    if Value(attrs, "type") != "way" then None
    else
      match ParseULong(Value(attrs, "ref"))
      case None => None
      case Some(id) => Some(Member(id, RoleFlags(roles, Value(attrs, "role"))))
  }

  // ------------------------------------------- what a run of events yields

  /** The element that ends the relation being read. */
  predicate ClosesRelation(e: Event) {
    e.End? && e.name == "relation"
  }

  /** How far the relation sub-reader gets from position `i`: just past the
      first end element of the relation, or to the end of the events. */
  function StopAt(events: seq<Event>, i: nat): (r: nat)
    requires i <= |events|
    ensures i <= r <= |events|
    decreases |events| - i
  {
    if i == |events| then i
    else if ClosesRelation(events[i]) then i + 1
    else StopAt(events, i + 1)
  }

  /** One more event read: the sub-reader stops right after it when it is
      the end element, and otherwise where it would have stopped anyway. */
  lemma StopStep(events: seq<Event>, start: nat, p: nat)
    requires start <= p < |events| && StopAt(events, start) == StopAt(events, p)
    ensures ClosesRelation(events[p]) ==> StopAt(events, start) == p + 1
    ensures !ClosesRelation(events[p]) ==> StopAt(events, start) == StopAt(events, p + 1)
  {
  }

  /** A reader the sub-reader has run on from `i` stands either on the end
      element of the relation or on the end-of-stream token. */
  lemma StopToken(reader: Reader, i: nat)
    requires reader.Valid() && i <= |reader.events| && reader.pos == StopAt(reader.events, i)
    ensures ClosesRelation(reader.Current()) || reader.Current() == LastToken(reader.failed)
  {
    StopAtFirstClose(reader.events, i);
  }

  /** Whether the sub-reader stopped on the end element of the relation. */
  predicate StoppedOnClose(events: seq<Event>, i: nat, r: nat) {
    i < r <= |events| && ClosesRelation(events[r - 1])
  }

  /** The sub-reader stops on the first end element of the relation after
      `i`, and runs to the end of the events exactly when there is none. */
  lemma {:induction false} StopAtFirstClose(events: seq<Event>, i: nat)
    requires i <= |events|
    ensures StoppedOnClose(events, i, StopAt(events, i)) <==>
              exists k :: i <= k < |events| && ClosesRelation(events[k])
    ensures forall k :: i <= k < StopAt(events, i) - 1 ==> !ClosesRelation(events[k])
    ensures !StoppedOnClose(events, i, StopAt(events, i)) ==> StopAt(events, i) == |events|
    decreases |events| - i
  {
    if i < |events| && !ClosesRelation(events[i]) {
      StopAtFirstClose(events, i + 1);
      if exists k :: i <= k < |events| && ClosesRelation(events[k]) {
        var k :| i <= k < |events| && ClosesRelation(events[k]);
        assert k != i;
      }
    }
  }

  /** The private tag map after the `<tag>` elements of `events`, each
      entered by `readTag`. */
  function TagsOf(events: seq<Event>): map<string, string> {
    if events == [] then map[]
    else
      TagStep(TagsOf(events[..|events| - 1]), events[|events| - 1])
  }

  /** What one event does to the private tag map. */
  function TagStep(tags: map<string, string>, e: Event): map<string, string> {
    if e.Start? && e.name == "tag" then AddTag(tags, e.attrs) else tags
  }

  /** A key the tags of a prefix hold keeps its value however many tags
      follow: the first value of a repeated key wins. */
  lemma {:induction false} TagsOfKeepsFirst(a: seq<Event>, b: seq<Event>)
    ensures TagsOf(a).Keys <= TagsOf(a + b).Keys
    ensures forall k :: k in TagsOf(a) ==> TagsOf(a + b)[k] == TagsOf(a)[k]
    decreases |b|
  {
    if b == [] {
      assert a + b == a;
    } else {
      var c := b[..|b| - 1];
      assert (a + b)[..|a + b| - 1] == a + c;
      TagsOfKeepsFirst(a, c);
    }
  }

  /** The members list after the `<member>` elements of `events`. */
  function MembersOf(roles: RoleBits, events: seq<Event>): (r: seq<Member>)
    ensures |r| <= |events|
  {
    if events == [] then []
    else
      MemberStep(roles, MembersOf(roles, events[..|events| - 1]), events[|events| - 1])
  }

  /** What one event does to the member list. */
  function MemberStep(roles: RoleBits, members: seq<Member>, e: Event): (r: seq<Member>)
    ensures |r| <= |members| + 1
  {
    if e.Start? && e.name == "member" && MemberOf(roles, e.attrs).Some? then
      members + [MemberOf(roles, e.attrs).value]
    else members
  }

  /** Reading one more event is one step on what the events before it
      yield. */
  lemma ReadStep(roles: RoleBits, seen: seq<Event>, e: Event)
    ensures TagsOf(seen + [e]) == TagStep(TagsOf(seen), e)
    ensures MembersOf(roles, seen + [e]) == MemberStep(roles, MembersOf(roles, seen), e)
  {
    assert (seen + [e])[..|seen|] == seen;
  }

  /** Every collected member comes from a `<member>` element of type `way`
      whose `ref` is its id. */
  lemma {:induction false} MembersAreWays(roles: RoleBits, events: seq<Event>, j: nat)
    requires j < |MembersOf(roles, events)|
    ensures exists i :: 0 <= i < |events| && events[i].Start? && events[i].name == "member" &&
              MemberOf(roles, events[i].attrs) == Some(MembersOf(roles, events)[j])
    decreases |events|
  {
    var p := events[..|events| - 1];
    if j < |MembersOf(roles, p)| {
      MembersAreWays(roles, p, j);
      var i :| 0 <= i < |p| && p[i].Start? && p[i].name == "member" &&
                MemberOf(roles, p[i].attrs) == Some(MembersOf(roles, p)[j]);
      assert events[i] == p[i];
    } else {
      assert j == |events| - 1 || j == |MembersOf(roles, p)|;
    }
  }

  /** The members of a prefix of the events are a prefix of the members of
      all of them: reading on never drops or reorders a member. */
  lemma {:induction false} MembersOfPrefix(roles: RoleBits, a: seq<Event>, b: seq<Event>)
    ensures MembersOf(roles, a) <= MembersOf(roles, a + b)
    decreases |b|
  {
    if b == [] {
      assert a + b == a;
    } else {
      var c := b[..|b| - 1];
      MembersOfPrefix(roles, a, c);
      assert (a + b)[..|a + b| - 1] == a + c;
    }
  }

  /** Every `<member>` element that `readMember` accepts is recorded: the
      member it yields follows the members of the events before it. */
  lemma MembersRecorded(roles: RoleBits, events: seq<Event>, i: nat)
    requires i < |events| && events[i].Start? && events[i].name == "member"
    requires MemberOf(roles, events[i].attrs).Some?
    ensures |MembersOf(roles, events[..i])| < |MembersOf(roles, events)|
    ensures MembersOf(roles, events)[|MembersOf(roles, events[..i])|] == MemberOf(roles, events[i].attrs).value
  {
    ReadStep(roles, events[..i], events[i]);
    assert events[..i + 1] == events[..i] + [events[i]];
    MembersOfPrefix(roles, events[..i + 1], events[i + 1..]);
    assert events[..i + 1] + events[i + 1..] == events;
  }

  // ------------------------------------------------------ closeRelation

  /** The flags `closeRelation` starts from: the multipolygon flag for
      `type=multipolygon`, the route flag for `type=route`, else none. */
  function TypeFlags(h: Consts, tags: map<string, string>): (r: bv64)
    ensures "type" in tags && tags["type"] == "multipolygon" ==> r == h.flags.FLAG_MULTI_POLY
    ensures "type" in tags && tags["type"] == "route" ==> r == h.flags.FLAG_ROUTE
    ensures !("type" in tags && (tags["type"] == "multipolygon" || tags["type"] == "route")) ==> r == 0
  {
    if "type" in tags && tags["type"] == "multipolygon" then h.flags.FLAG_MULTI_POLY
    else if "type" in tags && tags["type"] == "route" then h.flags.FLAG_ROUTE
    else 0
  }

  /** The flags `handleMultiPoly` ORs in before its member loop, and whether
      it reaches the loop: `highway=pedestrian` stops it after the building
      flags and before the natural and landuse flags. */
  function PolyFlags(h: Consts, tags: map<string, string>, flags: bv64): (r: (bv64, bool))
    ensures !r.1 <==> "highway" in tags && tags["highway"] == "pedestrian"
  {
    var f1 := if "building" in tags then Or(flags, Or(h.types.TYPE_BUILDING, BuildingTable.GetBuildingClass(h, tags["building"]))) else flags;
    if "highway" in tags && tags["highway"] == "pedestrian" then (f1, false)
    else
      var f2 := if "natural" in tags then Or(f1, Or(h.types.TYPE_NATURAL, NaturalTable.GetNaturalClass(h, tags["natural"]))) else f1;
      var f3 := if "landuse" in tags then Or(f2, Or(h.types.TYPE_LANDUSE, LanduseTable.GetLanduseClass(h, tags["landuse"]))) else f2;
      (f3, true)
  }

  /** The flags `closeRelation` gives a relation whose tags are `seen`:
      the type flags, with the category flags of `handleMultiPoly` ORed in
      for a multipolygon. */
  function ClosedFlags(h: Consts, seen: map<string, string>): bv64 {
    var t := TypeFlags(h, seen);
    if Has(t, h.flags.FLAG_MULTI_POLY) then PolyFlags(h, seen, t).0 else t
  }

  /** The way map `closeRelation` leaves: retagged along the members for a
      multipolygon that is not a pedestrian area, else as it was. */
  function ClosedWays(h: Consts, seen: map<string, string>, members: seq<Member>,
                      before: map<nat, Way>): map<nat, Way>
  {
    var t := TypeFlags(h, seen);
    var flags := ClosedFlags(h, seen);
    if Has(t, h.flags.FLAG_MULTI_POLY) && PolyFlags(h, seen, t).1
    then RetagWays(before, members, flags, Has(flags, h.types.TYPE_BUILDING), Has(flags, h.types.TYPE_NATURAL), h.roles.REL_MEM_ROLE_IN)
    else before
  }

  /** Closing a relation changes nothing about any way but its word. */
  lemma ClosedKeepsShape(h: Consts, seen: map<string, string>, members: seq<Member>, before: map<nat, Way>)
    ensures OnlyTypesChanged(before, ClosedWays(h, seen, members, before))
  {
    var flags := ClosedFlags(h, seen);
    RetagKeepsShape(before, members, flags, Has(flags, h.types.TYPE_BUILDING), Has(flags, h.types.TYPE_NATURAL), h.roles.REL_MEM_ROLE_IN);
  }

  /** A relation that is not a multipolygon (a route, say) keeps its type
      flags and leaves every way as it was. */
  lemma OnlyPolygonsRetag(h: Consts, seen: map<string, string>, members: seq<Member>, before: map<nat, Way>)
    requires RelationFlagsDistinct(h)
    requires !("type" in seen && seen["type"] == "multipolygon")
    ensures ClosedFlags(h, seen) == TypeFlags(h, seen)
    ensures ClosedWays(h, seen, members, before) == before
  {
  }

  /** An inner ring of a building relation: the relation's word with its
      low nibble replaced by 5. */
  function BuildingInner(t: bv64): bv64 {
    (t & 0xFFFF_FFFF_FFFF_FFF0) | 0x5
  }

  lemma BuildingInnerBits(t: bv64)
    ensures BuildingInner(t) & 0xF == 5
    ensures BuildingInner(t) & 0xFFFF_FFFF_FFFF_FFF0 == t & 0xFFFF_FFFF_FFFF_FFF0
  {
  }

  /** An inner ring of a natural relation: the relation's word with its low
      nibble taken from its own low byte, or 3 when that byte is 0; so the
      word itself when its low byte is set, and the word with 3 ORed in
      otherwise. */
  function NaturalInner(t: bv64): bv64 {
    var cl := t & 0xFF;
    if cl == 0 then (t & 0xFFFF_FFFF_FFFF_FFF0) | 0x3
    else (t & 0xFFFF_FFFF_FFFF_FFF0) | cl
  }

  lemma NaturalInnerBits(t: bv64)
    ensures t & 0xFF != 0 ==> NaturalInner(t) == t
    ensures t & 0xFF == 0 ==> NaturalInner(t) == t | 0x3
  {
  }

  /** The classification word one pass of the member loop leaves on a way
      present in the map. */
  function NewType(typ: bv64, flags: bv64, building: bool, natural: bool, inner: bool): bv64 {
    var t := if building then (if inner then BuildingInner(flags) else flags) else typ;
    if natural then (if inner then NaturalInner(flags) else flags) else t
  }

  /** The way map after the member loop of `handleMultiPoly` has run over
      `members`. */
  function RetagWays(ways: map<nat, Way>, members: seq<Member>, flags: bv64,
                     building: bool, natural: bool, inRole: bv64): map<nat, Way>
  {
    if members == [] then ways
    else
      RetagOne(RetagWays(ways, members[..|members| - 1], flags, building, natural, inRole),
               members[|members| - 1], flags, building, natural, inRole)
  }

  /** One pass of the member loop. */
  function RetagOne(w: map<nat, Way>, m: Member, flags: bv64,
                    building: bool, natural: bool, inRole: bv64): map<nat, Way>
  {
    if (building || natural) && m.id in w then
      w[m.id := w[m.id].(typ := NewType(w[m.id].typ, flags, building, natural, Has(m.flags, inRole)))]
    else w
  }

  lemma RetagPrefix(ways: map<nat, Way>, members: seq<Member>, flags: bv64,
                    building: bool, natural: bool, inRole: bv64, i: nat)
    requires i < |members|
    ensures RetagWays(ways, members[..i + 1], flags, building, natural, inRole) ==
              RetagOne(RetagWays(ways, members[..i], flags, building, natural, inRole), members[i], flags, building, natural, inRole)
  {
    assert members[..i + 1][..i] == members[..i];
  }

  /** The member loop changes only classification words and adds no way. */
  lemma {:induction false} RetagKeepsShape(ways: map<nat, Way>, members: seq<Member>, flags: bv64,
                                           building: bool, natural: bool, inRole: bv64)
    ensures OnlyTypesChanged(ways, RetagWays(ways, members, flags, building, natural, inRole))
    decreases |members|
  {
    if members != [] {
      var p := members[..|members| - 1];
      RetagKeepsShape(ways, p, flags, building, natural, inRole);
      var w := RetagWays(ways, p, flags, building, natural, inRole);
      var m := members[|members| - 1];
      if m.id in w {
        RetypeOne(w, m.id, NewType(w[m.id].typ, flags, building, natural, Has(m.flags, inRole)));
        OnlyTypesChangedTrans(ways, w, RetagWays(ways, members, flags, building, natural, inRole));
      }
    }
  }

  /** A way that is no member keeps its word. */
  lemma {:induction false} RetagSkipsNonMembers(ways: map<nat, Way>, members: seq<Member>, flags: bv64,
                                                building: bool, natural: bool, inRole: bv64, k: nat)
    requires k in ways
    requires forall i :: 0 <= i < |members| ==> members[i].id != k
    ensures k in RetagWays(ways, members, flags, building, natural, inRole)
    ensures RetagWays(ways, members, flags, building, natural, inRole)[k] == ways[k]
    decreases |members|
  {
    if members != [] {
      RetagSkipsNonMembers(ways, members[..|members| - 1], flags, building, natural, inRole, k);
    }
  }

  /** A relation that is neither a building nor a natural area retags no
      way. */
  lemma {:induction false} RetagNeedsCategory(ways: map<nat, Way>, members: seq<Member>, flags: bv64, inRole: bv64)
    ensures RetagWays(ways, members, flags, false, false, inRole) == ways
    decreases |members|
  {
    if members != [] {
      RetagNeedsCategory(ways, members[..|members| - 1], flags, inRole);
    }
  }

  /** For a building or natural relation, a member way present in the map
      ends with the word its last occurrence in the member list gives it,
      whatever it had before. */
  lemma {:induction false} RetagLastMemberWins(ways: map<nat, Way>, members: seq<Member>, flags: bv64,
                                               building: bool, natural: bool, inRole: bv64, i: nat)
    requires building || natural
    requires i < |members| && members[i].id in ways
    requires forall j :: i < j < |members| ==> members[j].id != members[i].id
    ensures members[i].id in RetagWays(ways, members, flags, building, natural, inRole)
    ensures RetagWays(ways, members, flags, building, natural, inRole)[members[i].id].typ ==
              NewType(0, flags, building, natural, Has(members[i].flags, inRole))
    decreases |members|
  {
    var p := members[..|members| - 1];
    RetagKeepsShape(ways, p, flags, building, natural, inRole);
    var w := RetagWays(ways, p, flags, building, natural, inRole);
    var k := members[i].id;
    if i < |members| - 1 {
      RetagLastMemberWins(ways, p, flags, building, natural, inRole, i);
      assert p[i] == members[i];
      RetagOther(ways, members, flags, building, natural, inRole, k);
    } else {
      NewTypeIgnoresOld(w[k].typ, flags, building, natural, Has(members[i].flags, inRole));
    }
  }

  /** The last member of the list does not touch another way. */
  lemma RetagOther(ways: map<nat, Way>, members: seq<Member>, flags: bv64,
                   building: bool, natural: bool, inRole: bv64, k: nat)
    requires members != [] && members[|members| - 1].id != k
    requires k in RetagWays(ways, members[..|members| - 1], flags, building, natural, inRole)
    ensures k in RetagWays(ways, members, flags, building, natural, inRole)
    ensures RetagWays(ways, members, flags, building, natural, inRole)[k] ==
              RetagWays(ways, members[..|members| - 1], flags, building, natural, inRole)[k]
  {
  }

  lemma NewTypeIgnoresOld(typ: bv64, flags: bv64, building: bool, natural: bool, inner: bool)
    requires building || natural
    ensures NewType(typ, flags, building, natural, inner) == NewType(0, flags, building, natural, inner)
  {
  }

  // ----------------------------------------------- isMultiPolyRing, reset

  /** The number of members carrying the outer role flag. */
  function OuterCount(members: seq<Member>, outRole: bv64): (c: nat)
    ensures c <= |members|
    ensures c == 0 <==> forall i :: 0 <= i < |members| ==> !Has(members[i].flags, outRole)
  {
    if members == [] then 0
    else
      OuterCount(members[..|members| - 1], outRole) +
      (if Has(members[|members| - 1].flags, outRole) then 1 else 0)
  }

  /** The way map after `resetPolyRing` has cleared the area flag of the
      outer members in `members`. */
  function ClearOuter(ways: map<nat, Way>, members: seq<Member>, outRole: bv64, area: bv64): map<nat, Way> {
    if members == [] then ways
    else ClearOne(ClearOuter(ways, members[..|members| - 1], outRole, area), members[|members| - 1], outRole, area)
  }

  /** One pass of the loop of `resetPolyRing`. */
  function ClearOne(w: map<nat, Way>, m: Member, outRole: bv64, area: bv64): map<nat, Way> {
    if m.id in w && Has(m.flags, outRole) then
      w[m.id := w[m.id].(typ := WithoutBits(w[m.id].typ, area))]
    else w
  }

  lemma ClearPrefix(ways: map<nat, Way>, members: seq<Member>, outRole: bv64, area: bv64, i: nat)
    requires i < |members|
    ensures ClearOuter(ways, members[..i + 1], outRole, area) ==
              ClearOne(ClearOuter(ways, members[..i], outRole, area), members[i], outRole, area)
  {
    assert members[..i + 1][..i] == members[..i];
  }

  /** Some outer member of `members` has the id `k`. */
  predicate IsOuterId(members: seq<Member>, outRole: bv64, k: nat) {
    exists i :: 0 <= i < |members| && members[i].id == k && Has(members[i].flags, outRole)
  }

  lemma OuterIdStep(members: seq<Member>, outRole: bv64, k: nat)
    requires members != []
    ensures IsOuterId(members, outRole, k) <==>
              IsOuterId(members[..|members| - 1], outRole, k) ||
              (members[|members| - 1].id == k && Has(members[|members| - 1].flags, outRole))
  {
    var p := members[..|members| - 1];
    if IsOuterId(p, outRole, k) {
      var i :| 0 <= i < |p| && p[i].id == k && Has(p[i].flags, outRole);
      assert members[i] == p[i];
    }
    if IsOuterId(members, outRole, k) {
      var i :| 0 <= i < |members| && members[i].id == k && Has(members[i].flags, outRole);
      if i < |p| {
        assert p[i] == members[i];
      }
    }
  }

  /** A word with the bits of `area` cleared. */
  function WithoutBits(t: bv64, area: bv64): bv64 {
    t & !area
  }

  lemma ClearTwice(t: bv64, area: bv64)
    ensures WithoutBits(WithoutBits(t, area), area) == WithoutBits(t, area)
  {
  }

  /** `resetPolyRing` changes nothing about any way but its word, and adds
      none. */
  lemma {:induction false} ClearKeepsShape(ways: map<nat, Way>, members: seq<Member>, outRole: bv64, area: bv64)
    ensures OnlyTypesChanged(ways, ClearOuter(ways, members, outRole, area))
    decreases |members|
  {
    if members != [] {
      var p := members[..|members| - 1];
      ClearKeepsShape(ways, p, outRole, area);
      var w := ClearOuter(ways, p, outRole, area);
      var m := members[|members| - 1];
      if m.id in w && Has(m.flags, outRole) {
        RetypeOne(w, m.id, WithoutBits(w[m.id].typ, area));
        OnlyTypesChangedTrans(ways, w, ClearOuter(ways, members, outRole, area));
      }
    }
  }

  /** What the last member does to one way. */
  lemma ClearStep(ways: map<nat, Way>, members: seq<Member>, outRole: bv64, area: bv64, k: nat)
    requires members != []
    requires k in ClearOuter(ways, members[..|members| - 1], outRole, area)
    ensures k in ClearOuter(ways, members, outRole, area)
    ensures ClearOuter(ways, members, outRole, area)[k].typ ==
              var t := ClearOuter(ways, members[..|members| - 1], outRole, area)[k].typ;
              if members[|members| - 1].id == k && Has(members[|members| - 1].flags, outRole)
              then WithoutBits(t, area) else t
  {
  }

  /** `resetPolyRing` clears the area flag of exactly the outer member ways
      in the map and leaves every other word as it was. */
  lemma {:induction false} ClearOuterEffect(ways: map<nat, Way>, members: seq<Member>, outRole: bv64, area: bv64, k: nat)
    requires k in ways
    ensures k in ClearOuter(ways, members, outRole, area)
    ensures ClearOuter(ways, members, outRole, area)[k].typ ==
              if IsOuterId(members, outRole, k) then WithoutBits(ways[k].typ, area) else ways[k].typ
    decreases |members|
  {
    if members != [] {
      var p := members[..|members| - 1];
      var m := members[|members| - 1];
      ClearOuterEffect(ways, p, outRole, area, k);
      ClearStep(ways, members, outRole, area, k);
      OuterIdStep(members, outRole, k);
      var t := ways[k].typ;
      var before := ClearOuter(ways, p, outRole, area)[k].typ;
      var after := ClearOuter(ways, members, outRole, area)[k].typ;
      var here := m.id == k && Has(m.flags, outRole);
      if here {
        ClearTwice(t, area);
        assert after == WithoutBits(before, area);
        if IsOuterId(p, outRole, k) {
          assert before == WithoutBits(t, area);
        } else {
          assert before == t;
        }
      } else {
        assert after == before;
      }
    }
  }

  /** `Relation`: the flags and the members of the relation being read. */
  class Relation {
    var flags: bv64
    var members: seq<Member>

    constructor ()
      ensures flags == 0 && members == []
    {
      flags := 0;
      members := [];
    }

    /** `isMultiPolyRing`: the number of outer members of a multipolygon,
        and 0 for any other relation. */
    method IsMultiPolyRing(h: Consts) returns (count: nat)
      ensures count == if Has(flags, h.flags.FLAG_MULTI_POLY) then OuterCount(members, h.roles.REL_MEM_ROLE_OUT) else 0
    {
      count := 0;
      if Has(flags, h.flags.FLAG_MULTI_POLY) {
        var i := 0;
        while i < |members|
          invariant 0 <= i <= |members|
          invariant count == OuterCount(members[..i], h.roles.REL_MEM_ROLE_OUT)
        {
          assert members[..i + 1][..i] == members[..i];
          if Has(members[i].flags, h.roles.REL_MEM_ROLE_OUT) {
            count := count + 1;
          }
          i := i + 1;
        }
        assert members[..i] == members;
      }
    }

    /** `resetPolyRing`: for a multipolygon, clear the area flag of every
        outer member way in the map. */
    method ResetPolyRing(h: Consts, ways: WayList)
      modifies ways
      ensures ways.entries ==
                if Has(flags, h.flags.FLAG_MULTI_POLY)
                then ClearOuter(old(ways.entries), members, h.roles.REL_MEM_ROLE_OUT, h.flags.FLAG_FEATURE_AERA)
                else old(ways.entries)
    {
      if !Has(flags, h.flags.FLAG_MULTI_POLY) {
        return;
      }
      var i := 0;
      while i < |members|
        invariant 0 <= i <= |members|
        invariant ways.entries == ClearOuter(old(ways.entries), members[..i], h.roles.REL_MEM_ROLE_OUT, h.flags.FLAG_FEATURE_AERA)
      {
        ClearPrefix(old(ways.entries), members, h.roles.REL_MEM_ROLE_OUT, h.flags.FLAG_FEATURE_AERA, i);
        var m := members[i];
        var entries := ways.entries;
        if m.id in entries {
          if Has(m.flags, h.roles.REL_MEM_ROLE_OUT) {
            ways.entries := entries[m.id := entries[m.id].(typ := WithoutBits(entries[m.id].typ, h.flags.FLAG_FEATURE_AERA))];
          }
        }
        i := i + 1;
      }
      assert members[..i] == members;
    }
  }

  /** `TrImportOsmRel`: the private state of the relation sub-parser. */
  class RelationReader {
    /** `m_id` */
    var id: nat
    /** `m_tags`, private to the relation */
    var tags: map<string, string>

    constructor ()
      ensures id == 0 && tags == map[]
    {
      id := 0;
      tags := map[];
    }

    /** `readRelation`: forget earlier members and tags and take the id. */
    method ReadRelation(attrs: map<string, string>, rel: Relation)
      modifies this, rel`members
      ensures rel.members == [] && tags == map[]
      ensures id == if ParseULong(Value(attrs, "id")).Some? then ParseULong(Value(attrs, "id")).value else old(id)
    {
      rel.members := [];
      tags := map[];
      var parsed := ParseULong(Value(attrs, "id"));
      if parsed.Some? {
        id := parsed.value;
      }
    }

    /** `readMember` */
    method ReadMember(roles: RoleBits, attrs: map<string, string>, rel: Relation)
      modifies rel`members
      ensures rel.members == old(rel.members) + if MemberOf(roles, attrs).Some? then [MemberOf(roles, attrs).value] else []
    {
      var typ := Value(attrs, "type");
      if typ != "way" {
        return;
      }
      var parsed := ParseULong(Value(attrs, "ref"));
      if parsed.None? {
        return;
      }
      var member := Member(parsed.value, 0);
      var role := Value(attrs, "role");
      if role == "outer" {
        OrIntoZero(roles.REL_MEM_ROLE_OUT);
        member := member.(flags := Or(member.flags, roles.REL_MEM_ROLE_OUT));
      }
      if role == "inner" {
        OrIntoZero(roles.REL_MEM_ROLE_IN);
        member := member.(flags := Or(member.flags, roles.REL_MEM_ROLE_IN));
      }
      rel.members := rel.members + [member];
    }

    /** `readTag`: a repeated key keeps its first value. */
    method ReadTag(attrs: map<string, string>)
      modifies this`tags
      ensures tags == AddTag(old(tags), attrs)
    {
      var key := Value(attrs, "k");
      var value := Value(attrs, "v");
      if key !in tags {
        tags := tags[key := value];
      }
    }

    /** `handleMultiPoly`: OR in the category flags, then (unless the
        relation is a pedestrian area) retag every member way. */
    method HandleMultiPoly(h: Consts, ways: WayList, rel: Relation) returns (done: bool)
      modifies rel`flags, ways
      ensures (rel.flags, done) == PolyFlags(h, tags, old(rel.flags))
      ensures ways.entries ==
                if done
                then RetagWays(old(ways.entries), rel.members, rel.flags,
                               Has(rel.flags, h.types.TYPE_BUILDING), Has(rel.flags, h.types.TYPE_NATURAL), h.roles.REL_MEM_ROLE_IN)
                else old(ways.entries)
    {
      var flags;
      flags, done := PolyFlags(h, tags, rel.flags).0, PolyFlags(h, tags, rel.flags).1;
      rel.flags := flags;
      if !done {
        return;
      }
      RetagMembers(ways, rel.members, flags, Has(flags, h.types.TYPE_BUILDING), Has(flags, h.types.TYPE_NATURAL), h.roles.REL_MEM_ROLE_IN);
    }

    /** The member loop of `handleMultiPoly`: a building or natural
        relation gives each member way in the map its own word, adjusted
        for inner rings. */
    method RetagMembers(ways: WayList, members: seq<Member>, flags: bv64,
                        building: bool, natural: bool, inRole: bv64)
      modifies ways
      ensures ways.entries == RetagWays(old(ways.entries), members, flags, building, natural, inRole)
    {
      ghost var before := ways.entries;
      var i := 0;
      while i < |members|
        invariant 0 <= i <= |members|
        invariant ways.entries == RetagWays(before, members[..i], flags, building, natural, inRole)
      {
        RetagPrefix(before, members, flags, building, natural, inRole, i);
        var m := members[i];
        var entries := ways.entries;
        if (building || natural) && m.id in entries {
          var inner := Has(m.flags, inRole);
          ways.entries := entries[m.id := entries[m.id].(typ := NewType(entries[m.id].typ, flags, building, natural, inner))];
        }
        assert ways.entries == RetagOne(entries, m, flags, building, natural, inRole);
        i := i + 1;
      }
      assert members[..i] == members;
    }

    /** `closeRelation`: set the type flags, resolve a multipolygon, and clear
        the private tags. */
    method CloseRelation(h: Consts, ways: WayList, rel: Relation)
      modifies this`tags, rel`flags, ways
      ensures tags == map[]
      ensures rel.flags == ClosedFlags(h, old(tags))
      ensures ways.entries == ClosedWays(h, old(tags), rel.members, old(ways.entries))
    {
      rel.flags := TypeFlags(h, tags);
      if Has(rel.flags, h.flags.FLAG_MULTI_POLY) {
        var _ := HandleMultiPoly(h, ways, rel);
      }
      tags := map[];
    }

    /** `osmRelationRead`: read the events after `<relation>` up to its end
        element, collecting tags and way members; at the end element close
        the relation and report true, and report false when the events run
        out first. */
    method OsmRelationRead(h: Consts, reader: Reader, ways: WayList, rel: Relation) returns (found: bool)
      requires reader.Valid()
      modifies this, reader`pos, ways, rel
      ensures reader.Valid() && reader.pos == StopAt(reader.events, old(reader.pos))
      ensures found == StoppedOnClose(reader.events, old(reader.pos), reader.pos)
      ensures rel.members == MembersOf(h.roles, reader.events[old(reader.pos)..reader.pos])
      ensures id == if ParseULong(Value(Attributes(old(reader.Current())), "id")).Some?
                    then ParseULong(Value(Attributes(old(reader.Current())), "id")).value else old(id)
      ensures !found ==> tags == TagsOf(reader.events[old(reader.pos)..reader.pos]) &&
                         rel.flags == 0 && ways.entries == old(ways.entries)
      ensures found ==> tags == map[]
      ensures found ==> rel.flags == ClosedFlags(h, TagsOf(reader.events[old(reader.pos)..reader.pos]))
      ensures found ==> ways.entries == ClosedWays(h, TagsOf(reader.events[old(reader.pos)..reader.pos]),
                                                   rel.members, old(ways.entries))
    {
      rel.flags := 0;
      rel.members := [];
      var attrs := Attributes(reader.Current());
      tags := map[];
      ReadRelation(attrs, rel);
      found := ReadBody(h.roles, reader, rel);
      if found {
        CloseRelation(h, ways, rel);
      }
    }

    /** The loop of `osmRelationRead` up to the end element of the
        relation, which it reports by returning true; the end element
        itself adds no tag and no member. */
    method ReadBody(roles: RoleBits, reader: Reader, rel: Relation) returns (found: bool)
      requires reader.Valid() && tags == map[] && rel.members == []
      modifies this`tags, reader`pos, rel`members
      ensures reader.Valid() && reader.pos == StopAt(reader.events, old(reader.pos))
      ensures found == StoppedOnClose(reader.events, old(reader.pos), reader.pos)
      ensures tags == TagsOf(reader.events[old(reader.pos)..reader.pos])
      ensures rel.members == MembersOf(roles, reader.events[old(reader.pos)..reader.pos])
    {
      ghost var start := reader.pos;
      ghost var events := reader.events;
      ghost var p := start;
      ghost var seen: seq<Event> := [];
      found := false;
      while !found && !reader.AtEnd()
        invariant p == reader.pos && reader.Valid() && start <= p
        invariant seen == events[start..p]
        invariant found == (start < p && ClosesRelation(events[p - 1]))
        invariant StopAt(events, start) == if found then p else StopAt(events, p)
        invariant tags == TagsOf(seen) && rel.members == MembersOf(roles, seen)
        decreases |events| - p
      {
        StopStep(events, start, p);
        found := ReadOne(roles, reader, rel, seen);
        seen := seen + [events[p]];
        p := p + 1;
      }
    }

    /** One pass of the loop of `osmRelationRead`: read the next event, act
        on it, and report whether it ends the relation. `seen` are the
        events read before it. */
    method ReadOne(roles: RoleBits, reader: Reader, rel: Relation, ghost seen: seq<Event>) returns (closed: bool)
      requires reader.Valid() && !reader.AtEnd()
      requires tags == TagsOf(seen) && rel.members == MembersOf(roles, seen)
      modifies this`tags, reader`pos, rel`members
      ensures reader.Valid() && reader.pos == old(reader.pos) + 1
      ensures closed == ClosesRelation(reader.events[old(reader.pos)])
      ensures tags == TagsOf(seen + [reader.events[old(reader.pos)]])
      ensures rel.members == MembersOf(roles, seen + [reader.events[old(reader.pos)]])
    {
      reader.ReadNext();
      var e := reader.Current();
      ReadStep(roles, seen, e);
      ReadElement(roles, e, rel);
      closed := e.End? && Name(e) == "relation";
    }

    /** The start elements the loop of `osmRelationRead` acts on: `<tag>`
        and `<member>`. */
    method ReadElement(roles: RoleBits, e: Event, rel: Relation)
      modifies this`tags, rel`members
      ensures tags == TagStep(old(tags), e)
      ensures rel.members == MemberStep(roles, old(rel.members), e)
    {
      if e.Start? {
        if Name(e) == "tag" {
          ReadTag(Attributes(e));
        }
        if Name(e) == "member" {
          ReadMember(roles, Attributes(e), rel);
        }
      }
    }
  }
}
