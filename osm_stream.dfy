/** `TrImportOsmStream`: the walker over the XML tokens of an OSM file. It
    collects the attributes and tags of the element being read, turns each
    closed node and way into a record that it inserts first-wins into its
    id-keyed map, hands every relation to the relation sub-parser, and on
    `</osm>` copies both maps into the arrays of the world. */
module OsmStream {
  import opened Text
  import opened Xml
  import opened Header
  import opened OsmTypes
  import opened OsmWorld
  import Classify
  import Lanes
  import Parking
  import OsmRel

  /** The floating-point conversions of the importer, as functions of the
      attribute text: `coord` is the whole chain `toDouble`, times
      `TR_COOR_FACTOR`, times 100, truncated to `int32_t`; `width` is
      `toDouble` of a width followed by `(uint32_t)(w * 1000)`, `None` when
      the text does not parse. */
  datatype Conv = Conv(coord: string -> int, width: string -> Option<nat>)

  /** Insertion into `m_nodelist` and `m_waylist`: an id of 0 is never
      inserted, and an id that is already present keeps its first entry. */
  function InsertFirst<V>(m: map<nat, V>, k: nat, v: V): (r: map<nat, V>)
    ensures r.Keys == if k > 0 then m.Keys + {k} else m.Keys
    ensures forall j :: j in m ==> r[j] == m[j]
    ensures k > 0 && k !in m ==> r[k] == v
  {
    if k > 0 && k !in m then m[k := v] else m
  }

  // ------------------------------------------------ names of elements

  /** The name id an element gets: that of its `name` tag, or `fallback`
      when it has none. */
  function NameIdOf(names: map<string, NameSet>, next: nat, tags: map<string, string>, fallback: nat): nat {
    if "name" in tags then NameIdAfter(names, next, tags["name"]) else fallback
  }

  function NamesAfterTags(names: map<string, NameSet>, next: nat, tags: map<string, string>): map<string, NameSet> {
    if "name" in tags then NamesAfter(names, next, tags["name"]) else names
  }

  function NextAfterTags(names: map<string, NameSet>, next: nat, tags: map<string, string>): nat {
    if "name" in tags then NextAfter(names, next, tags["name"]) else next
  }

  /** Closing an element keeps the interner consistent, and a named element
      gets the id the interner now holds for its name. */
  lemma CloseKeepsNames(names: map<string, NameSet>, next: nat, tags: map<string, string>, fallback: nat)
    requires NamesValid(names, next)
    ensures NamesValid(NamesAfterTags(names, next, tags), NextAfterTags(names, next, tags))
    ensures "name" in tags ==>
              tags["name"] in NamesAfterTags(names, next, tags) &&
              NamesAfterTags(names, next, tags)[tags["name"]].id == NameIdOf(names, next, tags, fallback)
    ensures "name" !in tags ==> NameIdOf(names, next, tags, fallback) == fallback
  {
    if "name" in tags {
      InternKeepsValid(names, next, tags["name"]);
    }
  }

  // ------------------------------------------------------ way records

  /** The width `closeWay` stores: 0 without a `width` tag that parses. */
  function WidthOf(conv: Conv, tags: map<string, string>): nat {
    if "width" in tags && conv.width(tags["width"]).Some? then conv.width(tags["width"]).value else 0
  }

  /** `if(park_code) way.parking = (park_code >> 20);` */
  function Shifted(code: bv64): bv64 {
    if code != 0 then code >> 20 else 0
  }

  lemma ShiftedIsShift(code: bv64)
    ensures Shifted(code) == code >> 20
  {
  }

  /** The parking word `closeWay` stores. */
  function ParkingWord(h: Consts, tags: map<string, string>): bv64 {
    Shifted(Parking.Word(h, Parking.AllBits(tags)))
  }

  /** The stored parking word is the OR of all parking constants the tags
      select, shifted right by 20, and 0 when no key starts with "parking". */
  lemma StoredParking(h: Consts, tags: map<string, string>)
    ensures ParkingWord(h, tags) == Parking.Word(h, Parking.AllBits(tags)) >> 20
    ensures (forall k :: k in tags ==> !StartsWith(k, "parking")) ==> ParkingWord(h, tags) == 0
  {
    var code := Parking.Word(h, Parking.AllBits(tags));
    ShiftedIsShift(code);
    if forall k :: k in tags ==> !StartsWith(k, "parking") {
      Parking.NoParkingTags(h, tags);
      assert code == 0;
    }
  }

  /** The record of way `id` with the given name id. */
  function WayRecord(h: Consts, conv: Conv, id: nat, tags: map<string, string>, refs: seq<nat>, nameId: nat): Way {
    Way(id, Classify.WayType(h, tags), refs, |refs|, Lanes.StoredLanes(tags), WidthOf(conv, tags), nameId, ParkingWord(h, tags))
  }

  /** The record `closeWay` builds, with the name id the interner gives its
      `name` tag, or 0. */
  function ClosedWay(h: Consts, conv: Conv, id: nat, tags: map<string, string>, refs: seq<nat>,
                     names: map<string, NameSet>, next: nat): Way {
    WayRecord(h, conv, id, tags, refs, NameIdOf(names, next, tags, 0))
  }

  /** The record `closeNode` builds: a named point carries its name id in
      place of its OSM id. */
  function PointRecord(h: Consts, id: nat, x: int, y: int, tags: map<string, string>,
                       names: map<string, NameSet>, next: nat): Point {
    Point(NameIdOf(names, next, tags, id), x, y, Classify.PointClass(h, tags), 0)
  }

  /** A way record built from a positive id and positive references is a
      valid entry of the way map, whatever its tags. */
  lemma WayRecordValid(h: Consts, conv: Conv, ways: map<nat, Way>, id: nat, tags: map<string, string>,
                       refs: seq<nat>, nameId: nat)
    requires WayEntriesValid(ways)
    requires forall j :: 0 <= j < |refs| ==> refs[j] > 0
    ensures WayEntriesValid(InsertFirst(ways, id, WayRecord(h, conv, id, tags, refs, nameId)))
    ensures id > 0 && id !in ways ==>
              InsertFirst(ways, id, WayRecord(h, conv, id, tags, refs, nameId))[id].refs == refs &&
              InsertFirst(ways, id, WayRecord(h, conv, id, tags, refs, nameId))[id].lanes != 0
  {
    var r := InsertFirst(ways, id, WayRecord(h, conv, id, tags, refs, nameId));
    forall k | k in r
      ensures k > 0 && r[k].id == k && r[k].refCount == |r[k].refs|
      ensures forall j :: 0 <= j < |r[k].refs| ==> r[k].refs[j] > 0
    {
      if k !in ways {
        assert k == id && r[k] == WayRecord(h, conv, id, tags, refs, nameId);
      }
    }
  }

  // ---------------------------------------------- the walker's state

  /** A relation as `addRelation` keeps it: id 0, its member count, and it
      is a multipolygon with more than one outer ring. */
  predicate KeptRelation(h: Consts, r: Rel) {
    r.id == 0 && r.count == |r.members| && OsmRel.Has(r.flags, h.flags.FLAG_MULTI_POLY) &&
    OsmRel.OuterCount(r.members, h.roles.REL_MEM_ROLE_OUT) > 1
  }

  /** The record `addRelation` makes of the relation read from the tokens
      `seen`: id 0, the flags `closeRelation` gives it, its members. */
  function ClosedRel(h: Consts, seen: seq<Event>): Rel {
    var members := OsmRel.MembersOf(h.roles, seen);
    Rel(0, OsmRel.ClosedFlags(h, OsmRel.TagsOf(seen)), members, |members|)
  }

  /** The relations the `relation` branch appends: the closed relation when
      it was read up to its end element and is a multipolygon with more than
      one outer ring, else none. */
  function RelationsKept(h: Consts, seen: seq<Event>, found: bool): seq<Rel> {
    if found && KeptRelation(h, ClosedRel(h, seen)) then [ClosedRel(h, seen)] else []
  }

  /** The way map the `relation` branch leaves: untouched when the tokens ran
      out, as `closeRelation` leaves it, and for a kept relation with the
      area flag of its outer rings cleared. */
  function RelationWays(h: Consts, seen: seq<Event>, found: bool, before: map<nat, Way>): map<nat, Way> {
    if !found then before
    else
      var r := ClosedRel(h, seen);
      var closed := OsmRel.ClosedWays(h, OsmRel.TagsOf(seen), r.members, before);
      if KeptRelation(h, r)
      then OsmRel.ClearOuter(closed, r.members, h.roles.REL_MEM_ROLE_OUT, h.flags.FLAG_FEATURE_AERA)
      else closed
  }

  /** The relation branch as its steps leave it: the sub-parser's flags,
      members and way map, then the keep-or-drop step on that record. */
  lemma RelationOutcome(h: Consts, seen: seq<Event>, found: bool, flags: bv64, members: seq<Member>,
                        before: map<nat, Way>, closed: map<nat, Way>, after: map<nat, Way>,
                        rels0: seq<Rel>, rels1: seq<Rel>)
    requires members == OsmRel.MembersOf(h.roles, seen)
    requires found ==> flags == OsmRel.ClosedFlags(h, OsmRel.TagsOf(seen)) &&
                       closed == OsmRel.ClosedWays(h, OsmRel.TagsOf(seen), members, before)
    requires !found ==> closed == before
    requires var r := Rel(0, flags, members, |members|);
             rels1 == rels0 + (if found && KeptRelation(h, r) then [r] else []) &&
             after == if found && KeptRelation(h, r)
                      then OsmRel.ClearOuter(closed, members, h.roles.REL_MEM_ROLE_OUT, h.flags.FLAG_FEATURE_AERA)
                      else closed
    ensures rels1 == rels0 + RelationsKept(h, seen, found)
    ensures after == RelationWays(h, seen, found, before)
  {
  }

  /** A relation changes nothing about any way but its word, and a kept one
      satisfies the relation invariant. */
  lemma RelationWaysShape(h: Consts, seen: seq<Event>, found: bool, before: map<nat, Way>)
    ensures OnlyTypesChanged(before, RelationWays(h, seen, found, before))
    ensures forall i :: 0 <= i < |RelationsKept(h, seen, found)| ==> KeptRelation(h, RelationsKept(h, seen, found)[i])
  {
    if found {
      var r := ClosedRel(h, seen);
      OsmRel.ClosedKeepsShape(h, OsmRel.TagsOf(seen), r.members, before);
      var closed := OsmRel.ClosedWays(h, OsmRel.TagsOf(seen), r.members, before);
      OsmRel.ClearKeepsShape(closed, r.members, h.roles.REL_MEM_ROLE_OUT, h.flags.FLAG_FEATURE_AERA);
      OnlyTypesChangedTrans(before, closed, RelationWays(h, seen, found, before));
    }
  }

  /** No node was dropped or changed. */
  predicate NodesKept(before: map<nat, Point>, after: map<nat, Point>) {
    forall k :: k in before ==> k in after && after[k] == before[k]
  }

  /** No way was dropped, and no way changed anything but its type. */
  predicate WaysKept(before: map<nat, Way>, after: map<nat, Way>) {
    forall k :: k in before ==> k in after && SameShape(before[k], after[k])
  }

  lemma WaysKeptTrans(a: map<nat, Way>, b: map<nat, Way>, c: map<nat, Way>)
    requires WaysKept(a, b) && WaysKept(b, c)
    ensures WaysKept(a, c)
  {
    forall k | k in a
      ensures k in c && SameShape(a[k], c[k])
    {
      assert SameShape(a[k], b[k]) && SameShape(b[k], c[k]);
    }
  }

  lemma NodesKeptTrans(a: map<nat, Point>, b: map<nat, Point>, c: map<nat, Point>)
    requires NodesKept(a, b) && NodesKept(b, c)
    ensures NodesKept(a, c)
  {
  }

  /** `TrImportOsmStream`: the id, coordinates, tags and node references of
      the element being read (`m_id`, `m_point`, `m_tags`,
      `m_way_reflist`), and what has been collected (`m_nodelist`,
      `m_waylist`, `m_rellist`). */
  class Importer {
    var id: nat
    var x: int
    var y: int
    var tags: map<string, string>
    var refs: seq<nat>
    var nodes: map<nat, Point>
    const ways: WayList
    var rels: seq<Rel>

    /** What the walker keeps true: every way entry is valid, every node is
        keyed by a positive id, the pending references are positive, and
        every kept relation is a multipolygon with several outer rings. */
    predicate Valid(h: Consts)
      reads this, ways
    {
      WayEntriesValid(ways.entries) &&
      (forall k :: k in nodes ==> k > 0) &&
      (forall j :: 0 <= j < |refs| ==> refs[j] > 0) &&
      (forall i :: 0 <= i < |rels| ==> KeptRelation(h, rels[i]))
    }

    constructor ()
      ensures id == 0 && x == 0 && y == 0 && tags == map[] && refs == []
      ensures nodes == map[] && ways.entries == map[] && rels == [] && fresh(ways)
    {
      id := 0;
      x := 0;
      y := 0;
      tags := map[];
      refs := [];
      nodes := map[];
      ways := new WayList();
      rels := [];
    }

    /** `readTag`: the first value of a key wins. */
    method ReadTag(attrs: map<string, string>)
      modifies this`tags
      ensures tags == AddTag(old(tags), attrs)
    {
      var key := Value(attrs, "k");
      var value := Value(attrs, "v");
      if key !in tags {
        tags := tags[key := value];
      }
    }

    /** `readNodePoint`: the id (0 when it does not parse) and the
        converted coordinates. */
    method ReadNodePoint(conv: Conv, attrs: map<string, string>)
      modifies this`id, this`x, this`y
      ensures id == ParseULongOrZero(Value(attrs, "id"))
      ensures x == conv.coord(Value(attrs, "lon")) && y == conv.coord(Value(attrs, "lat"))
    {
      id := ParseULongOrZero(Value(attrs, "id"));
      x := conv.coord(Value(attrs, "lon"));
      y := conv.coord(Value(attrs, "lat"));
    }

    /** `readWay`: an empty reference list and the id of the way. */
    method ReadWay(attrs: map<string, string>)
      modifies this`refs, this`id
      ensures refs == [] && id == ParseULongOrZero(Value(attrs, "id"))
    {
      refs := [];
      id := ParseULongOrZero(Value(attrs, "id"));
    }

    /** The `nd` branch of `osmRead`: a reference is appended only when it
        parses to a positive number. */
    method ReadNd(attrs: map<string, string>)
      modifies this`refs
      ensures refs == old(refs) + if ParseULongOrZero(Value(attrs, "ref")) > 0
                                   then [ParseULongOrZero(Value(attrs, "ref"))] else []
    {
      var r := ParseULongOrZero(Value(attrs, "ref"));
      if r > 0 {
        refs := refs + [r];
      }
    }

    /** `closeNode`: classify the point, intern its name, insert it
        first-wins under its OSM id, and reset the element state. */
    method CloseNode(h: Consts, world: World)
      modifies this`id, this`x, this`y, this`tags, this`nodes
      modifies world`nameMap, world`nextName, world`pointNames
      ensures id == 0 && x == 0 && y == 0 && tags == map[]
      ensures nodes == InsertFirst(old(nodes), old(id),
                         PointRecord(h, old(id), old(x), old(y), old(tags), old(world.nameMap), old(world.nextName)))
      ensures world.nameMap == NamesAfterTags(old(world.nameMap), old(world.nextName), old(tags))
      ensures world.nextName == NextAfterTags(old(world.nameMap), old(world.nextName), old(tags))
      ensures world.pointNames ==
                if "name" in old(tags) && old(tags)["name"] !in old(world.nameMap)
                then old(world.pointNames)[old(world.nextName) := old(tags)["name"]]
                else old(world.pointNames)
    {
      var t := tags;
      var pointId := id;
      var ptType := Classify.PointClass(h, t);
      if "name" in t {
        var nid, isNew := world.Intern(t["name"]);
        pointId := nid;
        if isNew {
          world.pointNames := world.pointNames[nid := t["name"]];
        }
      }
      var point := Point(pointId, x, y, ptType, 0);
      if id > 0 {
        if id !in nodes {
          nodes := nodes[id := point];
        }
      }
      id := 0;
      x := 0;
      y := 0;
      tags := map[];
    }

    /** `closeWay`: build the record of the way, insert it first-wins, and
        reset the id and the tags. */
    method CloseWay(h: Consts, conv: Conv, world: World)
      modifies this`id, this`tags, ways, world`nameMap, world`nextName
      ensures id == 0 && tags == map[]
      ensures ways.entries == InsertFirst(old(ways.entries), old(id),
                ClosedWay(h, conv, old(id), old(tags), refs, old(world.nameMap), old(world.nextName)))
      ensures world.nameMap == NamesAfterTags(old(world.nameMap), old(world.nextName), old(tags))
      ensures world.nextName == NextAfterTags(old(world.nameMap), old(world.nextName), old(tags))
    {
      ghost var record := ClosedWay(h, conv, id, tags, refs, world.nameMap, world.nextName);
      var way := BuildWay(h, conv, world);
      assert way == record;
      ways.entries := InsertFirst(ways.entries, id, way);
      id := 0;
      tags := map[];
    }

    /** The record `closeWay` builds: the classification word, the width,
        the interned name, the parking word, the lane word (1 when there
        are no lane tags) and a copy of the references. */
    method BuildWay(h: Consts, conv: Conv, world: World) returns (way: Way)
      modifies world`nameMap, world`nextName
      ensures way == ClosedWay(h, conv, id, tags, refs, old(world.nameMap), old(world.nextName))
      ensures world.nameMap == NamesAfterTags(old(world.nameMap), old(world.nextName), tags)
      ensures world.nextName == NextAfterTags(old(world.nameMap), old(world.nextName), tags)
    {
      var t := tags;
      var width := 0;
      if "width" in t {
        var w := conv.width(t["width"]);
        if w.Some? {
          width := w.value;
        }
      }
      var nameId := 0;
      if "name" in t {
        var isNew;
        nameId, isNew := world.Intern(t["name"]);
      }
      var bits := Parking.GetParking(t);
      var parking := Shifted(Parking.Word(h, bits));
      var nd := CopyOut(refs, 0);
      way := Way(id, Classify.WayType(h, t), nd[..], |refs|, Lanes.StoredLanes(t), width, nameId, parking);
    }

    /** `closeOsm`: the way and node counts and arrays of the world, filled
        in ascending key order. A node entry keeps only its id and
        coordinates. */
    method CloseOsm(world: World)
      modifies world`ways, world`wayCount, world`nodes, world`nodeCount
      ensures world.wayCount == |ways.entries| && world.ways[..] == WayTable(ways.entries)
      ensures world.nodeCount == |nodes| && world.nodes[..] == NodeTable(nodes)
      ensures fresh(world.ways) && fresh(world.nodes)
    {
      world.wayCount := |ways.entries|;
      var wa := FillWays();
      world.ways := wa;
      world.nodeCount := |nodes|;
      var na := FillNodes();
      world.nodes := na;
    }

    /** The way half of `closeOsm`: a zeroed array that receives every way
        record in key order. */
    method FillWays() returns (wa: array<Way>)
      ensures fresh(wa) && wa[..] == WayTable(ways.entries)
    {
      var entries := ways.entries;
      ghost var keys := SortedKeys(entries.Keys);
      wa := new Way[|entries|](_ => ZeroWay);
      var rest := entries.Keys;
      var index := 0;
      while rest != {}
        invariant index + |rest| == |entries| == wa.Length
        invariant keys[index..] == SortedKeys(rest)
        invariant forall j :: 0 <= j < index ==> wa[j] == entries[keys[j]]
        decreases |rest|
      {
        KeyStep(entries.Keys, rest, index);
        var k := NextKey(rest);
        wa[index] := entries[k];
        rest := rest - {k};
        index := index + 1;
      }
      WayTableIs(entries, wa[..]);
    }

    /** The node half of `closeOsm`: a zeroed array that receives the id and
        the coordinates of each point in key order. */
    method FillNodes() returns (na: array<Point>)
      ensures fresh(na) && na[..] == NodeTable(nodes)
    {
      ghost var keys := SortedKeys(nodes.Keys);
      na := new Point[|nodes|](_ => ZeroPoint);
      var rest := nodes.Keys;
      var index := 0;
      while rest != {}
        invariant index + |rest| == |nodes| == na.Length
        invariant keys[index..] == SortedKeys(rest)
        invariant forall j :: 0 <= j < index ==> na[j] == Point(nodes[keys[j]].id, nodes[keys[j]].x, nodes[keys[j]].y, 0, 0)
        decreases |rest|
      {
        KeyStep(nodes.Keys, rest, index);
        var k := NextKey(rest);
        var node := nodes[k];
        na[index] := Point(node.id, node.x, node.y, 0, 0);
        rest := rest - {k};
        index := index + 1;
      }
      NodeTableIs(nodes, na[..]);
    }

    /** `setNodeIds`: the node entries get the keys of the node map as ids,
        in key order. The array must have room for every node. */
    method SetNodeIds(world: World)
      requires |nodes| <= world.nodes.Length
      modifies world.nodes
      ensures world.nodes[..] == WithNodeIds(old(world.nodes[..]), nodes)
    {
      var a := world.nodes;
      ghost var keys := SortedKeys(nodes.Keys);
      var rest := nodes.Keys;
      var index := 0;
      while rest != {}
        invariant index + |rest| == |nodes|
        invariant keys[index..] == SortedKeys(rest)
        invariant forall j :: 0 <= j < a.Length ==>
                    a[j] == if j < index then old(a[j]).(id := keys[j]) else old(a[j])
        decreases |rest|
      {
        KeyStep(nodes.Keys, rest, index);
        var k := NextKey(rest);
        a[index] := a[index].(id := k);
        rest := rest - {k};
        index := index + 1;
      }
      WithNodeIdsIs(old(a[..]), nodes, a[..]);
    }

    /** `addRelation`: a relation record with id 0, the relation's flags and
        a copy of its members, appended to the relation list. */
    method AddRelation(rel: OsmRel.Relation)
      modifies this`rels
      ensures rels == old(rels) + [Rel(0, rel.flags, rel.members, |rel.members|)]
    {
      var copied := CopyOut(rel.members, Member(0, 0));
      rels := rels + [Rel(0, rel.flags, copied[..], |rel.members|)];
    }

    /** The `relation` branch of `osmRead`: read the relation with a fresh
        sub-parser and keep it when it is a multipolygon with more than one
        outer ring, after clearing the area flag of those rings. The reader
        is left on the end element of the relation, or at the end of the
        stream. */
    method HandleRelation(h: Consts, reader: Reader)
      requires reader.Valid() && Valid(h)
      modifies this`rels, ways, reader`pos
      ensures reader.Valid() && reader.pos == OsmRel.StopAt(reader.events, old(reader.pos))
      ensures OsmRel.ClosesRelation(reader.Current()) || reader.Current() == LastToken(reader.failed)
      ensures Valid(h)
      ensures rels == old(rels) + RelationsKept(h, reader.events[old(reader.pos)..reader.pos],
                                                OsmRel.StoppedOnClose(reader.events, old(reader.pos), reader.pos))
      ensures ways.entries == RelationWays(h, reader.events[old(reader.pos)..reader.pos],
                                           OsmRel.StoppedOnClose(reader.events, old(reader.pos), reader.pos),
                                           old(ways.entries))
      ensures OnlyTypesChanged(old(ways.entries), ways.entries)
    {
      ghost var before := ways.entries;
      var rel := new OsmRel.Relation();
      var found := ReadRelation(h, reader, rel);
      ghost var seen := reader.events[old(reader.pos)..reader.pos];
      ghost var rels0, closed := rels, ways.entries;
      KeepRelation(h, rel, found);
      RelationOutcome(h, seen, found, rel.flags, rel.members, before, closed, ways.entries, rels0, rels);
      RelationWaysShape(h, seen, found, before);
      OnlyTypesChangedKeepsValid(before, ways.entries);
    }

    /** The tail of the `relation` branch: a relation read up to its end
        element that `isMultiPolyRing` counts more than one outer ring for
        has the area flag of those rings cleared and is appended. */
    method KeepRelation(h: Consts, rel: OsmRel.Relation, found: bool)
      modifies this`rels, ways
      ensures var r := Rel(0, rel.flags, rel.members, |rel.members|);
              rels == old(rels) + (if found && KeptRelation(h, r) then [r] else []) &&
              ways.entries == if found && KeptRelation(h, r)
                              then OsmRel.ClearOuter(old(ways.entries), rel.members, h.roles.REL_MEM_ROLE_OUT, h.flags.FLAG_FEATURE_AERA)
                              else old(ways.entries)
    {
      if found {
        var count := rel.IsMultiPolyRing(h);
        if count > 1 {
          rel.ResetPolyRing(h, ways);
          AddRelation(rel);
        }
      }
    }

    /** `rel_read.osmRelationRead(xml, m_waylist, rel)` with a fresh
        sub-parser: a relation read up to its end element is closed, one
        that runs out of tokens keeps flags 0 and leaves the ways alone. */
    method ReadRelation(h: Consts, reader: Reader, rel: OsmRel.Relation) returns (found: bool)
      requires reader.Valid()
      modifies reader`pos, ways, rel
      ensures reader.Valid() && reader.pos == OsmRel.StopAt(reader.events, old(reader.pos))
      ensures found == OsmRel.StoppedOnClose(reader.events, old(reader.pos), reader.pos)
      ensures rel.members == OsmRel.MembersOf(h.roles, reader.events[old(reader.pos)..reader.pos])
      ensures found ==> rel.flags == OsmRel.ClosedFlags(h, OsmRel.TagsOf(reader.events[old(reader.pos)..reader.pos]))
      ensures found ==> ways.entries == OsmRel.ClosedWays(h, OsmRel.TagsOf(reader.events[old(reader.pos)..reader.pos]),
                                                          rel.members, old(ways.entries))
      ensures !found ==> rel.flags == 0 && ways.entries == old(ways.entries)
      ensures OsmRel.ClosesRelation(reader.Current()) || reader.Current() == LastToken(reader.failed)
    {
      var relRead := new OsmRel.RelationReader();
      found := relRead.OsmRelationRead(h, reader, ways, rel);
      OsmRel.StopToken(reader, old(reader.pos));
    }

    /** The start-element branch of `osmRead` on the current token `e`.
        After a relation the reader stands on the relation's end element or
        at the end of the stream, and the `tag` and `nd` tests look at that
        token, which is neither. */
    method StartElement(h: Consts, conv: Conv, reader: Reader, world: World, e: Event)
      requires reader.Valid() && Valid(h) && e.Start? && e == reader.Current()
      modifies this`id, this`x, this`y, this`tags, this`refs, this`rels, ways, reader`pos, world`nextName
      ensures reader.Valid() && reader.pos >= old(reader.pos)
      ensures Valid(h)
      ensures nodes == old(nodes) && WaysKept(old(ways.entries), ways.entries)
      ensures |rels| >= |old(rels)| && rels[..|old(rels)|] == old(rels)
      ensures world.nextName == if e.name == "osm" then 1 else old(world.nextName)
      ensures e.name != "relation" ==> reader.pos == old(reader.pos) && rels == old(rels) && ways.entries == old(ways.entries)
      ensures e.name == "node" ==> id == ParseULongOrZero(Value(e.attrs, "id"))
      ensures e.name == "node" ==> x == conv.coord(Value(e.attrs, "lon")) && y == conv.coord(Value(e.attrs, "lat"))
      ensures e.name != "node" ==> x == old(x) && y == old(y)
      ensures e.name == "way" ==> refs == [] && id == ParseULongOrZero(Value(e.attrs, "id"))
      ensures e.name != "node" && e.name != "way" ==> id == old(id)
      ensures tags == if e.name == "tag" then AddTag(old(tags), e.attrs) else old(tags)
      ensures e.name == "nd" ==> refs == old(refs) + if ParseULongOrZero(Value(e.attrs, "ref")) > 0
                                                    then [ParseULongOrZero(Value(e.attrs, "ref"))] else []
      ensures e.name != "way" && e.name != "nd" ==> refs == old(refs)
    {
      StartOwn(h, conv, reader, world, e);
      var cur := reader.Current();
      assert e.name != "relation" ==> cur == e;
      assert Name(cur) == "tag" || Name(cur) == "nd" ==> cur == e;
      if Name(cur) == "tag" {
        ReadTag(Attributes(cur));
      } else if Name(cur) == "nd" {
        ReadNd(Attributes(cur));
      }
    }

    /** The tests of `osmRead` for the elements that have their own state:
        `osm`, `node`, `way` and `relation`. */
    method StartOwn(h: Consts, conv: Conv, reader: Reader, world: World, e: Event)
      requires reader.Valid() && Valid(h) && e.Start? && e == reader.Current()
      modifies this`id, this`x, this`y, this`refs, this`rels, ways, reader`pos, world`nextName
      ensures reader.Valid() && reader.pos >= old(reader.pos)
      ensures Valid(h)
      ensures WaysKept(old(ways.entries), ways.entries)
      ensures |rels| >= |old(rels)| && rels[..|old(rels)|] == old(rels)
      ensures world.nextName == if e.name == "osm" then 1 else old(world.nextName)
      ensures e.name != "relation" ==> reader.pos == old(reader.pos) && rels == old(rels) && ways.entries == old(ways.entries)
      ensures e.name == "relation" ==> Name(reader.Current()) == "relation" || Name(reader.Current()) == ""
      ensures e.name == "node" ==> id == ParseULongOrZero(Value(e.attrs, "id"))
      ensures e.name == "node" ==> x == conv.coord(Value(e.attrs, "lon")) && y == conv.coord(Value(e.attrs, "lat"))
      ensures e.name != "node" ==> x == old(x) && y == old(y)
      ensures e.name == "way" ==> refs == [] && id == ParseULongOrZero(Value(e.attrs, "id"))
      ensures e.name != "node" && e.name != "way" ==> id == old(id)
      ensures e.name != "way" ==> refs == old(refs)
    {
      if e.name == "osm" {
        world.nextName := 1;
      } else if e.name == "node" {
        ReadNodePoint(conv, e.attrs);
      } else if e.name == "way" {
        ReadWay(e.attrs);
      } else if e.name == "relation" {
        HandleRelation(h, reader);
      }
    }

    /** The end-element branch of `osmRead`. */
    method EndElement(h: Consts, conv: Conv, world: World, name: string)
      requires Valid(h)
      modifies this`id, this`x, this`y, this`tags, this`nodes, ways, world
      ensures Valid(h)
      ensures NodesKept(old(nodes), nodes) && WaysKept(old(ways.entries), ways.entries)
      ensures rels == old(rels)
    {
      if name == "osm" {
        CloseOsm(world);
      } else if name == "node" {
        CloseNode(h, world);
      } else if name == "way" {
        WayRecordValid(h, conv, ways.entries, id, tags, refs,
                       NameIdOf(world.nameMap, world.nextName, tags, 0));
        CloseWay(h, conv, world);
      }
    }

    /** `osmRead`: read every token, dispatching start and end elements.
        The result is false exactly when the reader stopped on an error.
        Nothing collected is ever dropped: nodes keep their first entry,
        ways change at most their type, and relations are only appended. */
    method OsmRead(h: Consts, conv: Conv, reader: Reader, world: World) returns (ok: bool)
      requires reader.Valid() && Valid(h)
      modifies this`id, this`x, this`y, this`tags, this`refs, this`nodes, this`rels, ways, world, reader`pos
      ensures reader.Valid() && reader.AtEnd()
      ensures ok == !reader.failed
      ensures Valid(h)
      ensures NodesKept(old(nodes), nodes) && WaysKept(old(ways.entries), ways.entries)
      ensures |rels| >= |old(rels)| && rels[..|old(rels)|] == old(rels)
    {
      while !reader.AtEnd()
        invariant reader.Valid() && Valid(h)
        invariant NodesKept(old(nodes), nodes) && WaysKept(old(ways.entries), ways.entries)
        invariant |rels| >= |old(rels)| && rels[..|old(rels)|] == old(rels)
        decreases |reader.events| - reader.pos
      {
        ghost var nodes0, ways0, rels0 := nodes, ways.entries, rels;
        reader.ReadNext();
        var e := reader.Current();
        if e.Start? {
          StartElement(h, conv, reader, world, e);
        }
        WaysKeptTrans(old(ways.entries), ways0, ways.entries);
        ghost var ways1 := ways.entries;
        var cur := reader.Current();
        if cur.End? {
          EndElement(h, conv, world, cur.name);
        }
        WaysKeptTrans(old(ways.entries), ways1, ways.entries);
        NodesKeptTrans(old(nodes), nodes0, nodes);
        assert rels[..|rels0|] == rels0;
        assert rels[..|old(rels)|] == rels0[..|old(rels)|];
      }
      ok := !reader.HasError();
    }
  }
}
