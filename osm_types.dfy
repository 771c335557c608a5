/** The records the importer builds (`Point_t`, `Way_t`, `RelMember_t`,
    `Rel_t`, `name_set`), the per-element tag accumulator, and the way map
    that the relation resolver edits in place. */
module OsmTypes {
  import opened Xml

  /** `Point_t`: `x` and `y` are the fixed-point coordinates, `ptType` the
      classification, `ptData` the unused auxiliary field. */
  datatype Point = Point(id: nat, x: int, y: int, ptType: bv64, ptData: nat)

  /** `Way_t`: `refs` is `nd_id` and `refCount` is `n_nd_id`. */
  datatype Way = Way(id: nat, typ: bv64, refs: seq<nat>, refCount: nat,
                     lanes: bv64, width: nat, nameId: nat, parking: bv64)

  /** `RelMember_t`: a member way and its role flags. */
  datatype Member = Member(id: nat, flags: bv64)

  /** `Rel_t`: a kept relation; `count` is `r_count`. */
  datatype Rel = Rel(id: nat, flags: bv64, members: seq<Member>, count: nat)

  /** `name_set`: the id a name was first given and how often it occurred. */
  datatype NameSet = NameSet(id: nat, number: nat)

  /** The zero record `memset` leaves in a freshly allocated way slot. */
  const ZeroWay := Way(0, 0, [], 0, 0, 0, 0, 0)

  /** The zero record `memset` leaves in a freshly allocated node slot. */
  const ZeroPoint := Point(0, 0, 0, 0, 0)

  /** `readTag`: the tag `k`=`v` enters the accumulator unless its key is
      already there, in which case the first value stays. */
  function AddTag(tags: map<string, string>, attrs: map<string, string>): (r: map<string, string>)
    ensures r.Keys == tags.Keys + {Value(attrs, "k")}
    ensures forall key :: key in tags ==> r[key] == tags[key]
    ensures Value(attrs, "k") !in tags ==> r[Value(attrs, "k")] == Value(attrs, "v")
  {
    var key := Value(attrs, "k");
    if key in tags then tags else tags[key := Value(attrs, "v")]
  }

  /** Two way records that differ at most in their classification word. */
  predicate SameShape(a: Way, b: Way) {
    a.id == b.id && a.refs == b.refs && a.refCount == b.refCount && a.lanes == b.lanes &&
    a.width == b.width && a.nameId == b.nameId && a.parking == b.parking
  }

  /** What every entry of the way map satisfies: it is keyed by its own
      non-zero id and holds a positive node reference list with its length. */
  predicate WayEntriesValid(ways: map<nat, Way>) {
    forall k :: k in ways ==>
      k > 0 && ways[k].id == k && ways[k].refCount == |ways[k].refs| &&
      forall j :: 0 <= j < |ways[k].refs| ==> ways[k].refs[j] > 0
  }

  /** The way map after an edit that changed only classification words. */
  predicate OnlyTypesChanged(before: map<nat, Way>, after: map<nat, Way>) {
    after.Keys == before.Keys &&
    forall k :: k in before ==> SameShape(before[k], after[k])
  }

  lemma OnlyTypesChangedKeepsValid(before: map<nat, Way>, after: map<nat, Way>)
    requires WayEntriesValid(before) && OnlyTypesChanged(before, after)
    ensures WayEntriesValid(after)
  {
    forall k | k in after
      ensures k > 0 && after[k].id == k && after[k].refCount == |after[k].refs|
      ensures forall j :: 0 <= j < |after[k].refs| ==> after[k].refs[j] > 0
    {
      assert SameShape(before[k], after[k]);
    }
  }

  /** Giving one way a new classification word changes only types. */
  lemma RetypeOne(ways: map<nat, Way>, k: nat, t: bv64)
    requires k in ways
    ensures OnlyTypesChanged(ways, ways[k := ways[k].(typ := t)])
  {
  }

  lemma OnlyTypesChangedTrans(a: map<nat, Way>, b: map<nat, Way>, c: map<nat, Way>)
    requires OnlyTypesChanged(a, b) && OnlyTypesChanged(b, c)
    ensures OnlyTypesChanged(a, c)
  {
  }

  /** `QMap<uint64_t, Way_t>`: the way map, shared by reference between the
      stream walker and the relation resolver. */
  class WayList {
    var entries: map<nat, Way>

    constructor ()
      ensures entries == map[]
    {
      entries := map[];
    }
  }
}
