/** `World_t`, the output of the importer: the name interner shared by nodes
    and ways, and the flat way and node arrays that `closeOsm` fills from
    the id-keyed maps in ascending key order. */
module OsmWorld {
  import opened OsmTypes

  // ------------------------------------------------------------ names

  /** The id a name gets: its existing id, or the next free one. */
  function NameIdAfter(names: map<string, NameSet>, next: nat, name: string): nat {
    if name in names then names[name].id else next
  }

  /** The name map after one more use of `name`. */
  function NamesAfter(names: map<string, NameSet>, next: nat, name: string): map<string, NameSet> {
    if name in names then names[name := names[name].(number := names[name].number + 1)]
    else names[name := NameSet(next, 1)]
  }

  /** The next free id after one more use of `name`. */
  function NextAfter(names: map<string, NameSet>, next: nat, name: string): nat {
    if name in names then next else next + 1
  }

  /** A consistent interner: every id is below the counter and at least 1,
      every use count is positive, and no two names share an id. */
  predicate NamesValid(names: map<string, NameSet>, next: nat) {
    next >= 1 &&
    (forall n :: n in names ==> 1 <= names[n].id < next && names[n].number >= 1) &&
    (forall a, b :: a in names && b in names && a != b ==> names[a].id != names[b].id)
  }

  /** Interning keeps the interner consistent, records the name under the id
      it returns, keeps the ids of all other names, and hands out a fresh id
      exactly for an unseen name. */
  lemma InternKeepsValid(names: map<string, NameSet>, next: nat, name: string)
    requires NamesValid(names, next)
    ensures NamesValid(NamesAfter(names, next, name), NextAfter(names, next, name))
    ensures name in NamesAfter(names, next, name)
    ensures NamesAfter(names, next, name)[name].id == NameIdAfter(names, next, name)
    ensures forall n :: n in names ==> n in NamesAfter(names, next, name) &&
                                       NamesAfter(names, next, name)[n].id == names[n].id
    ensures name !in names <==> forall n :: n in names ==> names[n].id != NameIdAfter(names, next, name)
  {
    if name !in names {
      var after := NamesAfter(names, next, name);
      assert after == names[name := NameSet(next, 1)];
      forall n | n in after
        ensures 1 <= after[n].id < next + 1 && after[n].number >= 1
      {
        if n != name {
          assert after[n] == names[n];
        }
      }
      forall a, b | a in after && b in after && a != b
        ensures after[a].id != after[b].id
      {
        if a == name {
          assert after[b] == names[b];
        } else if b == name {
          assert after[a] == names[a];
        }
      }
    }
  }

  /** Interning a list of names in turn, from a given interner state. */
  function InternAll(names: map<string, NameSet>, next: nat, s: seq<string>): (map<string, NameSet>, nat) {
    if s == [] then (names, next)
    else
      var p := InternAll(names, next, s[..|s| - 1]);
      (NamesAfter(p.0, p.1, s[|s| - 1]), NextAfter(p.0, p.1, s[|s| - 1]))
  }

  /** Starting from an empty interner, the map holds exactly the names used,
      each with the number of times it was used, and the ids are distinct. */
  lemma {:induction false} InternAllCounts(next: nat, s: seq<string>)
    requires next >= 1
    ensures NamesValid(InternAll(map[], next, s).0, InternAll(map[], next, s).1)
    ensures forall n :: n in InternAll(map[], next, s).0 <==> n in s
    ensures forall n :: n in InternAll(map[], next, s).0 ==> InternAll(map[], next, s).0[n].number == multiset(s)[n]
  {
    if s != [] {
      var p := s[..|s| - 1];
      var last := s[|s| - 1];
      InternAllCounts(next, p);
      var q := InternAll(map[], next, p);
      InternKeepsValid(q.0, q.1, last);
      assert s == p + [last];
      assert multiset(s) == multiset(p) + multiset{last};
      forall n
        ensures n in InternAll(map[], next, s).0 <==> n in s
      {
        assert n in s <==> n in p || n == last;
      }
    }
  }

  // ------------------------------------------------------- key order

  /** The smallest element of a non-empty set. */
  ghost function Min(s: set<nat>): (m: nat)
    requires s != {}
    ensures m in s && forall y :: y in s ==> m <= y
  {
    var x :| x in s;
    if s == {x} then x
    else
      var rest := Min(s - {x});
      assert forall y :: y in s ==> y == x || y in s - {x};
      if x < rest then x else rest
  }

  /** The keys of a map in the order a `QMap` iterator visits them. */
  ghost function SortedKeys(s: set<nat>): (r: seq<nat>)
    ensures |r| == |s|
    ensures forall i :: 0 <= i < |r| ==> r[i] in s
    ensures forall i, j :: 0 <= i < j < |r| ==> r[i] < r[j]
    decreases |s|
  {
    if s == {} then []
    else
      var m := Min(s);
      [m] + SortedKeys(s - {m})
  }

  /** Every key turns up in the iteration. */
  lemma {:induction false} SortedKeysCover(s: set<nat>, k: nat)
    requires k in s
    ensures exists i :: 0 <= i < |SortedKeys(s)| && SortedKeys(s)[i] == k
    decreases |s|
  {
    var m := Min(s);
    if k == m {
      assert SortedKeys(s)[0] == k;
    } else {
      SortedKeysCover(s - {m}, k);
      var i :| 0 <= i < |SortedKeys(s - {m})| && SortedKeys(s - {m})[i] == k;
      assert SortedKeys(s)[i + 1] == k;
    }
  }

  /** One step of an ordered walk over a key set: the key visited at
      position `i` is the smallest one not yet visited. */
  lemma KeyStep(s: set<nat>, rest: set<nat>, i: nat)
    requires rest != {} && i <= |SortedKeys(s)|
    requires SortedKeys(s)[i..] == SortedKeys(rest)
    ensures i < |SortedKeys(s)| && SortedKeys(s)[i] == Min(rest)
    ensures SortedKeys(s)[i + 1..] == SortedKeys(rest - {Min(rest)})
  {
    assert SortedKeys(rest) == [Min(rest)] + SortedKeys(rest - {Min(rest)});
    assert SortedKeys(s)[i + 1..] == SortedKeys(s)[i..][1..];
  }

  /** One step of the `QMap` iterator: the smallest key not yet visited. */
  method NextKey(rest: set<nat>) returns (k: nat)
    requires rest != {}
    ensures k == Min(rest)
  {
    ghost var least := Min(rest);
    k :| k in rest && forall y :: y in rest ==> k <= y;
    assert k <= least && least <= k;
  }

  // ------------------------------------------------------ the arrays

  /** The way array `closeOsm` builds: the map's entries in key order. */
  ghost function WayTable(m: map<nat, Way>): (r: seq<Way>)
    ensures |r| == |m|
  {
    var keys := SortedKeys(m.Keys);
    seq(|keys|, i requires 0 <= i < |keys| => m[keys[i]])
  }

  /** A sequence holding the map's entries in key order is its table. */
  lemma WayTableIs(m: map<nat, Way>, a: seq<Way>)
    requires |a| == |m|
    requires forall j :: 0 <= j < |a| ==> a[j] == m[SortedKeys(m.Keys)[j]]
    ensures a == WayTable(m)
  {
  }

  /** In a map of valid entries the array is ordered by strictly
      increasing way id. */
  lemma WayTableOrdered(m: map<nat, Way>)
    requires WayEntriesValid(m)
    ensures forall i, j :: 0 <= i < j < |WayTable(m)| ==> WayTable(m)[i].id < WayTable(m)[j].id
  {
    var keys := SortedKeys(m.Keys);
    assert forall i :: 0 <= i < |keys| ==> WayTable(m)[i].id == keys[i];
  }

  /** Every way of the map is in the array. */
  lemma WayTableComplete(m: map<nat, Way>, k: nat)
    requires k in m
    ensures exists i :: 0 <= i < |WayTable(m)| && WayTable(m)[i] == m[k]
  {
    SortedKeysCover(m.Keys, k);
    var i :| 0 <= i < |SortedKeys(m.Keys)| && SortedKeys(m.Keys)[i] == k;
    assert WayTable(m)[i] == m[k];
  }

  /** The node array `closeOsm` builds: only the id and the coordinates of
      each point are copied, the rest stays zero. */
  ghost function NodeTable(m: map<nat, Point>): (r: seq<Point>)
    ensures |r| == |m|
  {
    var keys := SortedKeys(m.Keys);
    seq(|keys|, i requires 0 <= i < |keys| => Point(m[keys[i]].id, m[keys[i]].x, m[keys[i]].y, 0, 0))
  }

  /** A sequence holding the id and coordinates of the map's points in key
      order is its table. */
  lemma NodeTableIs(m: map<nat, Point>, a: seq<Point>)
    requires |a| == |m|
    requires forall j :: 0 <= j < |a| ==>
               a[j] == Point(m[SortedKeys(m.Keys)[j]].id, m[SortedKeys(m.Keys)[j]].x, m[SortedKeys(m.Keys)[j]].y, 0, 0)
    ensures a == NodeTable(m)
  {
  }

  /** Every node of the map is in the array with its coordinates, its stored
      id and a zero type. */
  lemma NodeTableComplete(m: map<nat, Point>, k: nat)
    requires k in m
    ensures exists i :: 0 <= i < |NodeTable(m)| &&
              NodeTable(m)[i] == Point(m[k].id, m[k].x, m[k].y, 0, 0)
  {
    SortedKeysCover(m.Keys, k);
    var i :| 0 <= i < |SortedKeys(m.Keys)| && SortedKeys(m.Keys)[i] == k;
    assert NodeTable(m)[i] == Point(m[k].id, m[k].x, m[k].y, 0, 0);
  }

  /** The node array after `setNodeIds`: the entries before the map's size
      get the map's keys as ids, in key order. */
  ghost function WithNodeIds(a: seq<Point>, m: map<nat, Point>): (r: seq<Point>)
    requires |a| >= |m|
    ensures |r| == |a|
  {
    var keys := SortedKeys(m.Keys);
    seq(|a|, i requires 0 <= i < |a| => if i < |keys| then a[i].(id := keys[i]) else a[i])
  }

  lemma WithNodeIdsIs(a: seq<Point>, m: map<nat, Point>, b: seq<Point>)
    requires |a| >= |m| && |b| == |a|
    requires forall j :: 0 <= j < |b| ==>
               b[j] == if j < |m| then a[j].(id := SortedKeys(m.Keys)[j]) else a[j]
    ensures b == WithNodeIds(a, m)
  {
  }

  /** After `closeOsm` and `setNodeIds` every node of the map sits in the
      array under its own key, the array is sorted by id, and the
      coordinates are the ones stored for that key. */
  lemma NodeIdsRestored(m: map<nat, Point>)
    ensures forall i, j :: 0 <= i < j < |m| ==>
              WithNodeIds(NodeTable(m), m)[i].id < WithNodeIds(NodeTable(m), m)[j].id
    ensures forall i :: 0 <= i < |m| ==>
              WithNodeIds(NodeTable(m), m)[i].id in m &&
              WithNodeIds(NodeTable(m), m)[i].x == m[WithNodeIds(NodeTable(m), m)[i].id].x &&
              WithNodeIds(NodeTable(m), m)[i].y == m[WithNodeIds(NodeTable(m), m)[i].id].y
  {
    var keys := SortedKeys(m.Keys);
    assert forall i :: 0 <= i < |m| ==> WithNodeIds(NodeTable(m), m)[i].id == keys[i];
  }

  /** `malloc` and the element-by-element copy loop of a list into a new
      array. The array starts out as `zero` everywhere, as after `memset`. */
  method CopyOut<T>(s: seq<T>, zero: T) returns (a: array<T>)
    ensures fresh(a)
    ensures a[..] == s
  {
    a := new T[|s|](_ => zero);
    var i := 0;
    while i < |s|
      invariant 0 <= i <= |s|
      invariant forall j :: 0 <= j < i ==> a[j] == s[j]
    {
      a[i] := s[i];
      i := i + 1;
    }
  }

  /** `World_t`: the name interner (`m_name_map`, `act_name_idx`), the names
      of points (`m_point_name_map`), and the arrays of ways and nodes with
      their counts. */
  class World {
    var nameMap: map<string, NameSet>
    var nextName: nat
    var pointNames: map<nat, string>
    var ways: array<Way>
    var wayCount: nat
    var nodes: array<Point>
    var nodeCount: nat

    constructor ()
      ensures nameMap == map[] && nextName == 1 && pointNames == map[]
      ensures ways.Length == 0 && wayCount == 0 && nodes.Length == 0 && nodeCount == 0
    {
      nameMap := map[];
      nextName := 1;
      pointNames := map[];
      ways := new Way[0];
      wayCount := 0;
      nodes := new Point[0];
      nodeCount := 0;
    }

    /** The name branch of `closeNode` and `closeWay`: an unseen name gets
        the next id with a count of 1 and the counter moves on; a seen name
        keeps its id and its count goes up by one. */
    method Intern(name: string) returns (nid: nat, isNew: bool)
      modifies this`nameMap, this`nextName
      ensures isNew == (name !in old(nameMap))
      ensures nid == NameIdAfter(old(nameMap), old(nextName), name)
      ensures nameMap == NamesAfter(old(nameMap), old(nextName), name)
      ensures nextName == NextAfter(old(nameMap), old(nextName), name)
    {
      if name !in nameMap {
        nid := nextName;
        isNew := true;
        nameMap := nameMap[name := NameSet(nextName, 1)];
        nextName := nextName + 1;
      } else {
        isNew := false;
        nameMap := nameMap[name := nameMap[name].(number := nameMap[name].number + 1)];
        nid := nameMap[name].id;
      }
    }
  }
}
