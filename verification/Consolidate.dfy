/** Folding the nodes of a scale set into one entry, since identities are assigned to the scale set as a whole. */
module Consolidate {
  import opened Records
  import opened Diff
  import opened Plan

  function Merge(a: Track, b: Track): Track {
    Track(a.add + b.add, a.remove + b.remove, a.create + b.create, a.delete + b.delete, a.update + b.update, true)
  }

  /** The concatenation of the entries of `nodes`, in that order, after `acc`. */
  function MergeNodes(acc: Track, m: NodeMap, nodes: seq<string>): Track
    decreases nodes
  {
    if nodes == [] then acc else MergeNodes(Merge(acc, TrackAt(m, nodes[0])), m, nodes[1..])
  }

  /** The aggregation loop for one scale set: every node is merged, deleted, and the result stored under the short
      name. */
  function Absorb(m: NodeMap, name: string, nodes: seq<string>, acc: Track): NodeMap
    decreases nodes
  {
    if nodes == [] then m
    else
      var t := Merge(acc, TrackAt(m, nodes[0]));
      Absorb((m - {nodes[0]})[name := t], name, nodes[1..], t)
  }

  function Aggregate(m: NodeMap, order: seq<ScaleSet>, members: map<ScaleSet, seq<string>>): NodeMap
    requires forall v :: v in order ==> v in members
    decreases order
  {
    if order == [] then m
    else Aggregate(Absorb(m, order[0].name, members[order[0]], NOTHING), order[1..], members)
  }

  ghost predicate Distinct<T>(s: seq<T>) {
    forall i, j :: 0 <= i < j < |s| ==> s[i] != s[j]
  }

  /** vmssMap after the first loop: the nodes of each scale set outside `todo`. */
  ghost predicate Grouped(keys: set<string>, lookup: NodeLookup, members: map<ScaleSet, seq<string>>) {
    && (forall v :: v in members ==> members[v] != [] && Distinct(members[v]))
    && (forall v, n :: v in members && n in members[v] ==> n in keys && lookup(n) == InScaleSet(v))
    && (forall n :: n in keys && lookup(n).InScaleSet? ==> lookup(n).id in members && n in members[lookup(n).id])
  }

  lemma GroupedNext(keys: set<string>, lookup: NodeLookup, members: map<ScaleSet, seq<string>>, n: string)
    requires Grouped(keys, lookup, members) && n !in keys
    ensures !lookup(n).InScaleSet? ==> Grouped(keys + {n}, lookup, members)
    ensures lookup(n).InScaleSet? ==>
      var v := lookup(n).id;
      Grouped(keys + {n}, lookup, members[v := (if v in members then members[v] else []) + [n]])
  {
    if lookup(n).InScaleSet? {
      var v := lookup(n).id;
      var s := if v in members then members[v] else [];
      var more := members[v := s + [n]];
      assert n !in s;
      assert Distinct(s + [n]);
      forall u, x | u in more && x in more[u]
        ensures x in keys + {n} && lookup(x) == InScaleSet(u)
      {
        if u != v {
          assert u in members && x in members[u];
        }
      }
      forall x | x in keys + {n} && lookup(x).InScaleSet?
        ensures lookup(x).id in more && x in more[lookup(x).id]
      {
        if x != n {
          assert x in members[lookup(x).id];
        }
      }
    }
  }

  /** The entries of nodes that no longer exist. */
  function Missing(m: NodeMap, lookup: NodeLookup): NodeMap {
    map n | n in m && lookup(n).NotFound? :: m[n]
  }

  lemma MissingNext(m: NodeMap, lookup: NodeLookup, todo: set<string>, n: string, left: NodeMap)
    requires n in m && n in todo && todo <= m.Keys
    requires left == m - Missing(m - todo, lookup).Keys
    ensures var (g, g') := (Missing(m - todo, lookup), Missing(m - (todo - {n}), lookup));
      if lookup(n).NotFound? then g' == g[n := m[n]] && m - g'.Keys == left - {n} else g' == g
  {
    TakeOne(m, todo, n);
    var g := Missing(m - todo, lookup);
    if lookup(n).NotFound? {
      assert g[n := m[n]].Keys == g.Keys + {n};
      assert m - (g.Keys + {n}) == m - g.Keys - {n};
    }
  }

  /** The first loop of consolidateVMSSNodes: missing nodes leave for the cleanup, scale-set nodes are grouped. */
  method ClassifyNodes(nm: NodeTable, lookup: NodeLookup) returns (gone: NodeMap, members: map<ScaleSet, seq<string>>)
    modifies nm
    ensures gone == Missing(old(nm.m), lookup)
    ensures nm.m == old(nm.m) - gone.Keys
    ensures Grouped(old(nm.m.Keys), lookup, members)
  {
    var m := nm.m;
    gone, members := map[], map[];
    var todo := m.Keys;
    while todo != {}
      invariant todo <= m.Keys
      invariant gone == Missing(m - todo, lookup)
      invariant nm.m == m - gone.Keys
      invariant Grouped(m.Keys - todo, lookup, members)
      decreases todo
    {
      var n :| n in todo;
      MissingNext(m, lookup, todo, n, nm.m);
      GroupedNext(m.Keys - todo, lookup, members, n);
      assert m.Keys - (todo - {n}) == m.Keys - todo + {n};
      match lookup(n) {
        case NotFound =>
          gone := gone[n := m[n]];
          nm.m := nm.m - {n};
        case InScaleSet(v) =>
          members := members[v := (if v in members then members[v] else []) + [n]];
        case _ =>
      }
      todo := todo - {n};
    }
    assert m - {} == m && m.Keys - {} == m.Keys;
  }

  /** consolidateVMSSNodes. */
  method ConsolidateVMSSNodes(nm: NodeTable, lookup: NodeLookup)
    returns (gone: NodeMap, ghost order: seq<ScaleSet>, members: map<ScaleSet, seq<string>>)
    modifies nm
    ensures gone == Missing(old(nm.m), lookup)
    ensures Grouped(old(nm.m.Keys), lookup, members)
    ensures Distinct(order) && forall v :: v in order <==> v in members
    ensures nm.m == Aggregate(old(nm.m) - gone.Keys, order, members)
  {
    gone, members := ClassifyNodes(nm, lookup);
    ghost var start := nm.m;
    var todo := members.Keys;
    order := [];
    while todo != {}
      invariant todo <= members.Keys
      invariant Distinct(order) && forall v :: v in order <==> v in members && v !in todo
      invariant nm.m == Aggregate(start, order, members)
      decreases todo
    {
      var v :| v in todo;
      AggregateAppend(start, order, v, members);
      AbsorbNodes(nm, v.name, members[v]);
      order := order + [v];
      todo := todo - {v};
    }
  }

  method AbsorbNodes(nm: NodeTable, name: string, nodes: seq<string>)
    modifies nm
    ensures nm.m == Absorb(old(nm.m), name, nodes, NOTHING)
  {
    var acc := NOTHING;
    assert nodes[0..] == nodes;
    for i := 0 to |nodes|
      invariant Absorb(nm.m, name, nodes[i..], acc) == Absorb(old(nm.m), name, nodes, NOTHING)
    {
      assert nodes[i..][0] == nodes[i] && nodes[i..][1..] == nodes[i + 1..];
      acc := Merge(acc, TrackAt(nm.m, nodes[i]));
      nm.m := (nm.m - {nodes[i]})[name := acc];
    }
  }

  lemma {:induction false} AggregateAppend(m: NodeMap, order: seq<ScaleSet>, v: ScaleSet,
                                           members: map<ScaleSet, seq<string>>)
    requires v in members && forall u :: u in order ==> u in members
    ensures Aggregate(m, order + [v], members) == Absorb(Aggregate(m, order, members), v.name, members[v], NOTHING)
    decreases order
  {
    if order == [] {
      assert ([] + [v])[1..] == [];
    } else {
      assert (order + [v])[0] == order[0] && (order + [v])[1..] == order[1..] + [v];
      AggregateAppend(Absorb(m, order[0].name, members[order[0]], NOTHING), order[1..], v, members);
    }
  }

  // ------------------------------------------------------ conservation of work

  predicate SameName(a: NodeInfo, b: NodeInfo) {
    a.InScaleSet? && b.InScaleSet? && a.id.name == b.id.name
  }

  /** Scale sets with work have different short names, none of which is the name of a node with work. */
  ghost predicate NamesApart(keys: set<string>, lookup: NodeLookup) {
    && (forall n :: n in keys && lookup(n).InScaleSet? ==> lookup(n).id.name !in keys)
    && (forall a, b :: a in keys && b in keys && SameName(lookup(a), lookup(b)) ==> lookup(a) == lookup(b))
  }

  lemma {:induction false} MergeNodesFrame(acc: Track, m: NodeMap, m': NodeMap, nodes: seq<string>)
    requires forall n :: n in nodes ==> TrackAt(m, n) == TrackAt(m', n)
    ensures MergeNodes(acc, m, nodes) == MergeNodes(acc, m', nodes)
    decreases nodes
  {
    if nodes != [] {
      MergeNodesFrame(Merge(acc, TrackAt(m, nodes[0])), m, m', nodes[1..]);
    }
  }

  /** Absorbing the nodes of one scale set replaces their entries by the concatenation, if its name is not among
      them. */
  lemma {:induction false} AbsorbExact(m: NodeMap, name: string, nodes: seq<string>, acc: Track, x: string)
    requires name !in nodes && Distinct(nodes) && nodes != []
    ensures var r := Absorb(m, name, nodes, acc);
      && name in r && r[name] == MergeNodes(acc, m, nodes)
      && (x != name ==> (x in r <==> x in m && x !in nodes) && (x in r ==> r[x] == m[x]))
    decreases nodes
  {
    var t := Merge(acc, TrackAt(m, nodes[0]));
    var next := (m - {nodes[0]})[name := t];
    assert nodes[0] !in nodes[1..];
    MergeNodesFrame(t, m, next, nodes[1..]);
    if |nodes| > 1 {
      AbsorbExact(next, name, nodes[1..], t, x);
    } else {
      assert nodes[1..] == [];
    }
    assert x in nodes <==> x == nodes[0] || x in nodes[1..];
  }

  /** What the second loop works on: disjoint groups of tracked nodes, none named like a scale set. */
  ghost predicate Groups(m: NodeMap, order: seq<ScaleSet>, members: map<ScaleSet, seq<string>>) {
    && Distinct(order)
    && (forall v :: v in order ==> v in members && members[v] != [] && Distinct(members[v]))
    && (forall u, v :: u in order && v in order ==> v.name !in members[u])
    && (forall v, n :: v in order && n in members[v] ==> n in m)
    && (forall u, v, n :: u in order && v in order && n in members[u] && n in members[v] ==> u == v)
  }

  /** What NamesApart gives for the second loop. */
  ghost predicate Apart(m: NodeMap, order: seq<ScaleSet>, members: map<ScaleSet, seq<string>>) {
    && Groups(m, order, members)
    && (forall v :: v in order ==> v.name !in m)
    && (forall u, v :: u in order && v in order && u.name == v.name ==> u == v)
  }

  lemma GroupsNext(m: NodeMap, order: seq<ScaleSet>, members: map<ScaleSet, seq<string>>, next: NodeMap)
    requires Groups(m, order, members) && order != []
    requires next == Absorb(m, order[0].name, members[order[0]], NOTHING)
    ensures Groups(next, order[1..], members)
    ensures forall v, n :: v in order[1..] && n in members[v] ==> TrackAt(next, n) == TrackAt(m, n)
  {
    var v0 := order[0];
    forall x
      ensures x != v0.name ==> (x in next <==> x in m && x !in members[v0]) && (x in next ==> next[x] == m[x])
    {
      assert v0.name !in members[v0];
      AbsorbExact(m, v0.name, members[v0], NOTHING, x);
    }
    assert forall v :: v in order[1..] ==> v in order && v != v0;
  }

  ghost predicate AggregatedAt(m: NodeMap, order: seq<ScaleSet>, members: map<ScaleSet, seq<string>>, v: ScaleSet)
    requires forall u :: u in order ==> u in members
    requires v in members
  {
    var r := Aggregate(m, order, members);
    v.name in r && r[v.name] == MergeNodes(NOTHING, m, members[v])
  }

  ghost predicate KeptAt(m: NodeMap, order: seq<ScaleSet>, members: map<ScaleSet, seq<string>>, x: string)
    requires forall u :: u in order ==> u in members
  {
    var r := Aggregate(m, order, members);
    (x in r <==> x in m && forall v :: v in order ==> x !in members[v]) && (x in r ==> r[x] == m[x])
  }

  /** No later scale set has the short name of scale set number `i`. */
  ghost predicate LastOfName(order: seq<ScaleSet>, i: int) {
    0 <= i < |order| && forall j :: i < j < |order| ==> order[j].name != order[i].name
  }

  lemma {:induction false} LastIndex(order: seq<ScaleSet>, name: string) returns (i: nat)
    requires exists v :: v in order && v.name == name
    ensures LastOfName(order, i) && order[i].name == name
  {
    var n := |order| - 1;
    if order[n].name == name {
      i := n;
    } else {
      assert exists v :: v in order[..n] && v.name == name;
      i := LastIndex(order[..n], name);
      assert forall j :: i < j < n ==> order[..n][j] == order[j];
    }
  }

  /** Of the scale sets of one short name the last one gets the concatenation of its own nodes' entries. */
  lemma {:induction false} LastSetWins(m: NodeMap, order: seq<ScaleSet>, members: map<ScaleSet, seq<string>>, i: nat)
    requires Groups(m, order, members) && LastOfName(order, i)
    ensures AggregatedAt(m, order, members, order[i])
    decreases order
  {
    var v0 := order[0];
    var next := Absorb(m, v0.name, members[v0], NOTHING);
    GroupsNext(m, order, members, next);
    if i > 0 {
      assert order[1..][i - 1] == order[i];
      assert forall j :: i - 1 < j < |order[1..]| ==> order[1..][j] == order[j + 1];
      LastSetWins(next, order[1..], members, i - 1);
      MergeNodesFrame(NOTHING, m, next, members[order[i]]);
    } else {
      assert v0.name !in members[v0];
      AbsorbExact(m, v0.name, members[v0], NOTHING, v0.name);
      assert forall v :: v in order[1..] ==> v in order && v.name != v0.name;
      OthersKept(next, order[1..], members, v0.name);
    }
  }

  /** Entries that are not named like a scale set are dropped with their group, or else kept. */
  lemma {:induction false} OthersKept(m: NodeMap, order: seq<ScaleSet>, members: map<ScaleSet, seq<string>>, x: string)
    requires Groups(m, order, members) && forall v :: v in order ==> v.name != x
    ensures KeptAt(m, order, members, x)
    decreases order
  {
    if order != [] {
      var v0 := order[0];
      var next := Absorb(m, v0.name, members[v0], NOTHING);
      GroupsNext(m, order, members, next);
      OthersKept(next, order[1..], members, x);
      assert v0.name !in members[v0];
      AbsorbExact(m, v0.name, members[v0], NOTHING, x);
      assert order == [v0] + order[1..];
    }
  }

  /** With names apart, every scale set gets the concatenation of its nodes' entries and the rest is untouched. */
  lemma AggregateExact(m: NodeMap, order: seq<ScaleSet>, members: map<ScaleSet, seq<string>>)
    requires Apart(m, order, members)
    ensures forall v :: v in order ==> AggregatedAt(m, order, members, v)
    ensures forall x :: (forall v :: v in order ==> v.name != x) ==> KeptAt(m, order, members, x)
  {
    forall v | v in order
      ensures AggregatedAt(m, order, members, v)
    {
      var i :| 0 <= i < |order| && order[i] == v;
      assert LastOfName(order, i) by {
        assert forall j :: i < j < |order| ==> order[j] in order && order[j] != v;
      }
      LastSetWins(m, order, members, i);
    }
    forall x | forall v :: v in order ==> v.name != x
      ensures KeptAt(m, order, members, x)
    {
      OthersKept(m, order, members, x);
    }
  }

  // ------------------------------------------------------- the plan per host

  lemma MergeLists(s1: seq<AssignedID>, s2: seq<AssignedID>, m: AssignedMap, n1: set<string>, n2: set<string>)
    requires Lists(s1, m, n1) && Lists(s2, m, n2) && n1 !! n2
    ensures Lists(s1 + s2, m, n1 + n2)
  {
    var s := s1 + s2;
    forall i, j | 0 <= i < j < |s|
      ensures s[i].name != s[j].name
    {
      if i < |s1| <= j {
        assert s[i] in s1 && s[j] in s2;
      }
    }
    assert forall r :: r in s <==> r in s1 || r in s2;
  }

  lemma MergeListsIds(s1: seq<string>, s2: seq<string>, m: AssignedMap, n1: set<string>, n2: set<string>)
    requires ListsIds(s1, m, n1) && ListsIds(s2, m, n2)
    ensures ListsIds(s1 + s2, m, n1 + n2)
  {
    forall id
      ensures HasId(m, n1 + n2, id) <==> HasId(m, n1, id) || HasId(m, n2, id)
    {
    }
    assert forall id :: id in s1 + s2 <==> id in s1 || id in s2;
  }

  lemma MergePlanned(a: Track, b: Track, n1: set<string>, n2: set<string>, w: Work, assign: AssignedMap,
                     retire: AssignedMap)
    requires Planned(a, n1, w, assign, retire) && Planned(b, n2, w, assign, retire) && n1 !! n2
    ensures Planned(Merge(a, b), n1 + n2, w, assign, retire)
  {
    MergeLists(a.create, b.create, w.create, n1, n2);
    MergeLists(a.delete, b.delete, w.delete, n1, n2);
    MergeLists(a.update, b.update, w.after, n1, n2);
    MergeListsIds(a.add, b.add, assign, n1, n2);
    MergeListsIds(a.remove, b.remove, retire, n1, n2);
  }

  /** The concatenated entry is the plan for all its nodes together. */
  lemma {:induction false} MergeNodesPlanned(acc: Track, done: set<string>, m: NodeMap, nodes: seq<string>, w: Work,
                                             assign: AssignedMap, retire: AssignedMap)
    requires Planned(acc, done, w, assign, retire)
    requires forall n :: Planned(TrackAt(m, n), {n}, w, assign, retire)
    requires Distinct(nodes) && forall n :: n in nodes ==> n !in done
    ensures Planned(MergeNodes(acc, m, nodes), done + (set n | n in nodes), w, assign, retire)
    ensures nodes != [] ==> MergeNodes(acc, m, nodes).isvmss
    decreases nodes
  {
    if nodes == [] {
      assert done + (set n | n in nodes) == done;
    } else {
      var n0, t := nodes[0], Merge(acc, TrackAt(m, nodes[0]));
      MergePlanned(acc, TrackAt(m, n0), done, {n0}, w, assign, retire);
      MergeNodesPlanned(t, done + {n0}, m, nodes[1..], w, assign, retire);
      assert done + {n0} + (set n | n in nodes[1..]) == done + (set n | n in nodes);
    }
  }

  function NodesOn(keys: set<string>, lookup: NodeLookup, h: HostKey): set<string> {
    set n | n in keys && HostOf(lookup, n) == h
  }

  /** The goroutines of a cycle: one per entry of the consolidated map, one cleanup per missing node. */
  function HostsOf(m: NodeMap, gone: NodeMap): map<HostKey, Track> {
    map h | h in HostKeys(m, gone) :: EntryOf(m, gone, h)
  }

  function HostKeys(m: NodeMap, gone: NodeMap): set<HostKey> {
    (set k | k in m :: Vm(k)) + (set k | k in m :: Vmss(k)) + (set k | k in gone :: Gone(k))
      - (set k | k in m && m[k].isvmss :: Vm(k)) - (set k | k in m && !m[k].isvmss :: Vmss(k))
  }

  function EntryOf(m: NodeMap, gone: NodeMap, h: HostKey): Track {
    if h.Gone? then TrackAt(gone, h.name) else TrackAt(m, h.name)
  }

  lemma HostKeysAt(m: NodeMap, gone: NodeMap, n: string)
    ensures Gone(n) in HostKeys(m, gone) <==> n in gone
    ensures Vm(n) in HostKeys(m, gone) <==> n in m && !m[n].isvmss
    ensures Vmss(n) in HostKeys(m, gone) <==> n in m && m[n].isvmss
  {
  }

  /** Every host has exactly the work of its nodes. */
  ghost predicate PlannedPerHost(hosts: map<HostKey, Track>, keys: set<string>, lookup: NodeLookup, w: Work,
                                 assign: AssignedMap, retire: AssignedMap) {
    && (forall n :: n in keys ==> HostOf(lookup, n) in hosts && Busy(w, n))
    && (forall h :: h in hosts ==> Planned(hosts[h], NodesOn(keys, lookup, h), w, assign, retire))
    && (forall h :: h in hosts ==> NodesOn(keys, lookup, h) != {})
    && (forall n :: OnNode(w.create, n) || OnNode(w.delete, n) || OnNode(w.after, n) || OnNode(retire, n) ==> n in keys)
  }

  ghost predicate Consolidated(m: NodeMap, lookup: NodeLookup, order: seq<ScaleSet>,
                               members: map<ScaleSet, seq<string>>, r: NodeMap) {
    && Grouped(m.Keys, lookup, members)
    && Distinct(order) && (forall v :: v in order <==> v in members)
    && r == Aggregate(m - Missing(m, lookup).Keys, order, members)
  }

  lemma MemberName(keys: set<string>, lookup: NodeLookup, members: map<ScaleSet, seq<string>>, v: ScaleSet)
    requires Grouped(keys, lookup, members) && NamesApart(keys, lookup) && v in members
    ensures v.name !in keys && members[v][0] in keys && lookup(members[v][0]) == InScaleSet(v)
  {
    var n := members[v][0];
    assert n in members[v];
    assert n in keys && lookup(n) == InScaleSet(v);
  }

  /** No node of a scale set is named like a scale set. */
  ghost predicate SetsNotNodes(keys: set<string>, lookup: NodeLookup) {
    forall a, b :: a in keys && b in keys && lookup(a).InScaleSet? && lookup(b).InScaleSet? ==> lookup(a).id.name != b
  }

  lemma GroupedIsGroups(m: NodeMap, lookup: NodeLookup, order: seq<ScaleSet>, members: map<ScaleSet, seq<string>>)
    requires Grouped(m.Keys, lookup, members) && SetsNotNodes(m.Keys, lookup)
    requires Distinct(order) && (forall v :: v in order <==> v in members)
    ensures Groups(m - Missing(m, lookup).Keys, order, members)
  {
    forall u, v | u in order && v in order
      ensures v.name !in members[u]
    {
      var a := members[v][0];
      assert a in members[v];
      assert a in m.Keys && lookup(a) == InScaleSet(v);
      assert forall n :: n in members[u] ==> n in m.Keys && lookup(n) == InScaleSet(u);
    }
    forall u, v, n | u in order && v in order && n in members[u] && n in members[v]
      ensures u == v
    {
      assert lookup(n) == InScaleSet(u) && lookup(n) == InScaleSet(v);
    }
  }

  lemma NamesApartIsApart(m: NodeMap, lookup: NodeLookup, order: seq<ScaleSet>, members: map<ScaleSet, seq<string>>)
    requires Grouped(m.Keys, lookup, members) && NamesApart(m.Keys, lookup)
    requires Distinct(order) && (forall v :: v in order <==> v in members)
    ensures Apart(m - Missing(m, lookup).Keys, order, members)
  {
    GroupedIsGroups(m, lookup, order, members);
    forall v | v in order
      ensures v.name !in m
    {
      MemberName(m.Keys, lookup, members, v);
    }
    forall u, v | u in order && v in order && u.name == v.name
      ensures u == v
    {
      MemberName(m.Keys, lookup, members, u);
      MemberName(m.Keys, lookup, members, v);
      assert SameName(lookup(members[u][0]), lookup(members[v][0]));
    }
  }

  /** The consolidated map, entry by entry. */
  ghost predicate EntryByEntry(m: NodeMap, lookup: NodeLookup, members: map<ScaleSet, seq<string>>, r: NodeMap) {
    && Grouped(m.Keys, lookup, members) && NamesApart(m.Keys, lookup)
    && (forall v :: v in members ==> v.name in r && r[v.name] == MergeNodes(NOTHING, m, members[v]))
    && (forall n :: n in m ==>
          (n in r <==> !lookup(n).NotFound? && !lookup(n).InScaleSet?) && (n in r ==> r[n] == m[n]))
    && (forall k :: k in r ==> k in m || exists v :: v in members && v.name == k)
  }

  lemma ConsolidatedExact(m: NodeMap, lookup: NodeLookup, order: seq<ScaleSet>, members: map<ScaleSet, seq<string>>,
                          r: NodeMap)
    requires Consolidated(m, lookup, order, members, r) && NamesApart(m.Keys, lookup)
    ensures EntryByEntry(m, lookup, members, r)
  {
    var start := m - Missing(m, lookup).Keys;
    NamesApartIsApart(m, lookup, order, members);
    AggregateExact(start, order, members);
    forall v | v in members
      ensures v.name in r && r[v.name] == MergeNodes(NOTHING, m, members[v])
    {
      assert v in order && AggregatedAt(start, order, members, v);
      MergeNodesFrame(NOTHING, start, m, members[v]);
    }
    forall n | n in m
      ensures (n in r <==> !lookup(n).NotFound? && !lookup(n).InScaleSet?) && (n in r ==> r[n] == m[n])
    {
      NodeUnaffected(m, lookup, order, members, n);
      assert KeptAt(start, order, members, n);
    }
    forall k | k in r
      ensures k in m || exists v :: v in members && v.name == k
    {
      if forall v :: v in order ==> v.name != k {
        assert KeptAt(start, order, members, k);
      }
    }
  }

  /** A node with work is not the name of a scale set, and is a member of the one it belongs to. */
  lemma NodeUnaffected(m: NodeMap, lookup: NodeLookup, order: seq<ScaleSet>, members: map<ScaleSet, seq<string>>,
                       n: string)
    requires Grouped(m.Keys, lookup, members) && NamesApart(m.Keys, lookup) && n in m
    requires forall v :: v in order <==> v in members
    ensures forall v :: v in order ==> v.name != n
    ensures (forall v :: v in order ==> n !in members[v]) <==> !lookup(n).InScaleSet?
  {
    forall v | v in order
      ensures v.name != n
    {
      MemberName(m.Keys, lookup, members, v);
    }
  }

  lemma NothingPlanned(w: Work, assign: AssignedMap, retire: AssignedMap)
    ensures Planned(NOTHING, {}, w, assign, retire)
  {
  }

  /** Consolidation moves the work of every node to its host, and neither loses nor adds any. */
  lemma ConsolidationConservesWork(m: NodeMap, lookup: NodeLookup, order: seq<ScaleSet>,
                                   members: map<ScaleSet, seq<string>>, r: NodeMap,
                                   w: Work, assign: AssignedMap, retire: AssignedMap)
    requires PlannedPerNode(m, w, assign, retire) && WellFormed(w)
    requires Consolidated(m, lookup, order, members, r) && NamesApart(m.Keys, lookup)
    ensures PlannedPerHost(HostsOf(r, Missing(m, lookup)), m.Keys, lookup, w, assign, retire)
  {
    ConsolidatedExact(m, lookup, order, members, r);
    var gone := Missing(m, lookup);
    var hosts := HostsOf(r, gone);
    forall n | OnNode(w.create, n) || OnNode(w.delete, n) || OnNode(w.after, n) || OnNode(retire, n)
      ensures n in m
    {
      WorkIsTracked(m, w, assign, retire, n);
    }
    forall n | n in m
      ensures HostOf(lookup, n) in hosts
    {
      HostPresent(m, lookup, members, r, n);
    }
    forall h | h in hosts
      ensures Planned(hosts[h], NodesOn(m.Keys, lookup, h), w, assign, retire) && NodesOn(m.Keys, lookup, h) != {}
    {
      HostPlanned(m, lookup, members, r, h, w, assign, retire);
    }
  }

  lemma WorkIsTracked(m: NodeMap, w: Work, assign: AssignedMap, retire: AssignedMap, n: string)
    requires PlannedPerNode(m, w, assign, retire) && WellFormed(w)
    requires OnNode(w.create, n) || OnNode(w.delete, n) || OnNode(w.after, n) || OnNode(retire, n)
    ensures n in m
  {
    var t := TrackAt(m, n);
    assert Planned(t, {n}, w, assign, retire);
    if OnNode(w.create, n) {
      var k :| k in w.create && w.create[k].node == n;
      assert w.create[k] in t.create;
    } else if OnNode(w.delete, n) {
      var k :| k in w.delete && w.delete[k].node == n;
      assert w.delete[k] in t.delete;
    } else if OnNode(w.after, n) {
      var k :| k in w.after && w.after[k].node == n;
      assert w.after[k] in t.update;
    } else {
      var k :| k in retire && retire[k].node == n;
      assert HasId(retire, {n}, retire[k].identity.resourceID);
      assert retire[k].identity.resourceID in t.remove;
    }
  }

  lemma HostPresent(m: NodeMap, lookup: NodeLookup, members: map<ScaleSet, seq<string>>, r: NodeMap, n: string)
    requires EntryByEntry(m, lookup, members, r) && n in m && forall k :: k in m ==> !m[k].isvmss
    ensures HostOf(lookup, n) in HostsOf(r, Missing(m, lookup))
  {
    HostKeysAt(r, Missing(m, lookup), HostOf(lookup, n).name);
    match lookup(n) {
      case NotFound =>
        assert n in Missing(m, lookup);
      case InScaleSet(v) =>
        assert v in members && v.name in r;
        MergedIsVmss(NOTHING, m, members[v]);
      case _ =>
        assert n in r && !r[n].isvmss;
    }
  }

  lemma {:induction false} MergedIsVmss(acc: Track, m: NodeMap, nodes: seq<string>)
    requires nodes != [] || acc.isvmss
    ensures MergeNodes(acc, m, nodes).isvmss
    decreases nodes
  {
    if nodes != [] {
      MergedIsVmss(Merge(acc, TrackAt(m, nodes[0])), m, nodes[1..]);
    }
  }

  lemma HostPlanned(m: NodeMap, lookup: NodeLookup, members: map<ScaleSet, seq<string>>, r: NodeMap, h: HostKey,
                    w: Work, assign: AssignedMap, retire: AssignedMap)
    requires EntryByEntry(m, lookup, members, r) && h in HostsOf(r, Missing(m, lookup))
    requires PlannedPerNode(m, w, assign, retire)
    ensures Planned(HostsOf(r, Missing(m, lookup))[h], NodesOn(m.Keys, lookup, h), w, assign, retire)
    ensures NodesOn(m.Keys, lookup, h) != {}
  {
    HostKeysAt(r, Missing(m, lookup), h.name);
    match h {
      case Gone(n) =>
        SingleNode(m, lookup, n);
        assert Planned(TrackAt(m, n), {n}, w, assign, retire);
      case Vm(n) =>
        if n !in m {
          var v :| v in members && v.name == n;
          MergedIsVmss(NOTHING, m, members[v]);
        }
        SingleNode(m, lookup, n);
        assert Planned(TrackAt(m, n), {n}, w, assign, retire);
      case Vmss(name) =>
        assert name !in m;
        var v :| v in members && v.name == name;
        NothingPlanned(w, assign, retire);
        MergeNodesPlanned(NOTHING, {}, m, members[v], w, assign, retire);
        MemberNodes(m.Keys, lookup, members, v);
    }
  }

  lemma SingleNode(m: NodeMap, lookup: NodeLookup, n: string)
    requires n in m && !lookup(n).InScaleSet?
    ensures NodesOn(m.Keys, lookup, HostOf(lookup, n)) == {n}
  {
  }

  lemma MemberNodes(keys: set<string>, lookup: NodeLookup, members: map<ScaleSet, seq<string>>, v: ScaleSet)
    requires Grouped(keys, lookup, members) && NamesApart(keys, lookup) && v in members
    ensures NodesOn(keys, lookup, Vmss(v.name)) == {} + (set n | n in members[v])
    ensures NodesOn(keys, lookup, Vmss(v.name)) != {}
  {
    assert members[v][0] in members[v];
    forall n
      ensures n in NodesOn(keys, lookup, Vmss(v.name)) <==> n in members[v]
    {
      if n in NodesOn(keys, lookup, Vmss(v.name)) {
        assert SameName(lookup(n), lookup(members[v][0]));
      }
    }
  }

  // ------------------------------------------------------------ colliding names

  function RecordsOf(t: Track): seq<AssignedID> {
    t.create + t.delete + t.update
  }

  /** The entry of node `x` does not survive: a later scale set has the short name of the one of `x`, or `x` itself is
      named like a scale set. */
  ghost predicate Overwritten(order: seq<ScaleSet>, members: map<ScaleSet, seq<string>>, x: string) {
    || (exists i, j :: 0 <= i < j < |order| && order[j].name == order[i].name
          && order[i] in members && x in members[order[i]])
    || (exists v :: v in order && v.name == x)
  }

  /** The records of an aggregated entry are those of its own nodes. */
  lemma MergedRecords(m: NodeMap, nodes: seq<string>, w: Work, assign: AssignedMap, retire: AssignedMap,
                      rec: AssignedID)
    requires (forall n :: Planned(TrackAt(m, n), {n}, w, assign, retire)) && Distinct(nodes)
    requires rec in RecordsOf(TrackAt(m, rec.node))
    ensures rec in RecordsOf(MergeNodes(NOTHING, m, nodes)) <==> rec.node in nodes
  {
    NothingPlanned(w, assign, retire);
    MergeNodesPlanned(NOTHING, {}, m, nodes, w, assign, retire);
    assert Planned(TrackAt(m, rec.node), {rec.node}, w, assign, retire);
  }

  lemma KeptRecords(m: NodeMap, n: string, w: Work, assign: AssignedMap, retire: AssignedMap, rec: AssignedID)
    requires Planned(TrackAt(m, n), {n}, w, assign, retire) && rec in RecordsOf(TrackAt(m, n))
    ensures rec.node == n
  {
  }

  /** Where a record of the node map may be found after consolidation: in no entry, if its node is overwritten. */
  lemma OverwrittenIsLost(m: NodeMap, lookup: NodeLookup, order: seq<ScaleSet>, members: map<ScaleSet, seq<string>>,
                          r: NodeMap,
                          w: Work, assign: AssignedMap, retire: AssignedMap, rec: AssignedID, k: string)
    requires PlannedPerNode(m, w, assign, retire) && Consolidated(m, lookup, order, members, r)
    requires SetsNotNodes(m.Keys, lookup) && rec in RecordsOf(TrackAt(m, rec.node)) && k in r && rec in RecordsOf(r[k])
    ensures !Overwritten(order, members, rec.node)
  {
    var start := m - Missing(m, lookup).Keys;
    GroupedIsGroups(m, lookup, order, members);
    if v :| v in order && v.name == k {
      var i := LastIndex(order, k);
      LastSetWins(start, order, members, i);
      MergeNodesFrame(NOTHING, start, m, members[order[i]]);
      MergedRecords(m, members[order[i]], w, assign, retire, rec);
    } else {
      OthersKept(start, order, members, k);
      KeptRecords(m, k, w, assign, retire, rec);
    }
  }

  lemma OthersSurvive(m: NodeMap, lookup: NodeLookup, order: seq<ScaleSet>, members: map<ScaleSet, seq<string>>,
                      r: NodeMap,
                      w: Work, assign: AssignedMap, retire: AssignedMap, rec: AssignedID) returns (k: string)
    requires PlannedPerNode(m, w, assign, retire) && Consolidated(m, lookup, order, members, r)
    requires SetsNotNodes(m.Keys, lookup) && rec in RecordsOf(TrackAt(m, rec.node))
    requires rec.node in m && !lookup(rec.node).NotFound? && !Overwritten(order, members, rec.node)
    ensures k in r && rec in RecordsOf(r[k])
  {
    var start, x := m - Missing(m, lookup).Keys, rec.node;
    GroupedIsGroups(m, lookup, order, members);
    if v :| v in order && x in members[v] {
      var i :| 0 <= i < |order| && order[i] == v;
      k := v.name;
      LastSetWins(start, order, members, i);
      MergeNodesFrame(NOTHING, start, m, members[v]);
      MergedRecords(m, members[v], w, assign, retire, rec);
    } else {
      k := x;
      OthersKept(start, order, members, x);
    }
  }

  /** Short names that collide lose work: a record of an existing node is in the consolidated map if and only if the
      entry of its node is not overwritten. */
  lemma CollidingNamesLoseWork(m: NodeMap, lookup: NodeLookup, order: seq<ScaleSet>,
                               members: map<ScaleSet, seq<string>>,
                               r: NodeMap, w: Work, assign: AssignedMap, retire: AssignedMap, rec: AssignedID)
    requires PlannedPerNode(m, w, assign, retire) && Consolidated(m, lookup, order, members, r)
    requires SetsNotNodes(m.Keys, lookup) && rec in RecordsOf(TrackAt(m, rec.node))
    requires rec.node in m && !lookup(rec.node).NotFound?
    ensures (exists k :: k in r && rec in RecordsOf(r[k])) <==> !Overwritten(order, members, rec.node)
  {
    if k :| k in r && rec in RecordsOf(r[k]) {
      OverwrittenIsLost(m, lookup, order, members, r, w, assign, retire, rec, k);
    }
    if !Overwritten(order, members, rec.node) {
      var k := OthersSurvive(m, lookup, order, members, r, w, assign, retire, rec);
    }
  }

  /** An order in which the second loop may visit the scale sets. */
  ghost predicate OrderOf(order: seq<ScaleSet>, members: map<ScaleSet, seq<string>>) {
    Distinct(order) && forall v :: v in order <==> v in members
  }

  lemma {:induction false} EnumerateSets(sets: set<ScaleSet>) returns (order: seq<ScaleSet>)
    ensures Distinct(order) && forall v :: v in order <==> v in sets
    decreases sets
  {
    if sets == {} {
      order := [];
    } else {
      var v :| v in sets;
      var rest := EnumerateSets(sets - {v});
      order := rest + [v];
    }
  }

  lemma OrderStartingWith(members: map<ScaleSet, seq<string>>, u: ScaleSet) returns (order: seq<ScaleSet>)
    requires u in members
    ensures OrderOf(order, members) && order != [] && order[0] == u
  {
    var rest := EnumerateSets(members.Keys - {u});
    order := [u] + rest;
    forall v
      ensures v in order <==> v in members
    {
      assert v in order <==> v == u || v in rest;
    }
  }

  /** Another scale set with work has the short name of the one of node `x`, or one is named like `x`. */
  ghost predicate Exposed(members: map<ScaleSet, seq<string>>, x: string) {
    || (exists v :: v in members && v.name == x)
    || (exists u, v :: u in members && v in members && u != v && u.name == v.name && x in members[u])
  }

  lemma ExposedIsOverwritten(members: map<ScaleSet, seq<string>>, x: string) returns (order: seq<ScaleSet>)
    requires Exposed(members, x)
    ensures OrderOf(order, members) && Overwritten(order, members, x)
  {
    if v :| v in members && v.name == x {
      order := OrderStartingWith(members, v);
      assert v in order;
    } else {
      var u, v :| u in members && v in members && u != v && u.name == v.name && x in members[u];
      order := OrderStartingWith(members, u);
      assert v in order;
      var j :| 0 <= j < |order| && order[j] == v;
      assert 0 < j && order[0] == u;
    }
  }

  lemma OverwrittenIsExposed(members: map<ScaleSet, seq<string>>, x: string, order: seq<ScaleSet>)
    requires OrderOf(order, members) && Overwritten(order, members, x)
    ensures Exposed(members, x)
  {
    if i, j :| 0 <= i < j < |order| && order[j].name == order[i].name && order[i] in members && x in members[order[i]] {
      assert order[i] in order && order[j] in order && order[i] != order[j];
    }
  }

  /** With this order of the scale sets, the record is in no entry of the consolidated map. */
  ghost predicate Lost(m: NodeMap, lookup: NodeLookup, members: map<ScaleSet, seq<string>>, rec: AssignedID,
                       order: seq<ScaleSet>)
    requires forall v :: v in order ==> v in members
  {
    var r := Aggregate(m - Missing(m, lookup).Keys, order, members);
    forall k :: k in r ==> rec !in RecordsOf(r[k])
  }

  /** Whatever the order: some order of the scale sets loses a record of an existing node if and only if its node is
      exposed. */
  lemma SomeOrderLosesIff(m: NodeMap, lookup: NodeLookup, members: map<ScaleSet, seq<string>>, w: Work,
                          assign: AssignedMap, retire: AssignedMap, rec: AssignedID)
    requires PlannedPerNode(m, w, assign, retire) && Grouped(m.Keys, lookup, members) && SetsNotNodes(m.Keys, lookup)
    requires rec in RecordsOf(TrackAt(m, rec.node)) && rec.node in m && !lookup(rec.node).NotFound?
    ensures (exists order :: OrderOf(order, members) && Lost(m, lookup, members, rec, order))
            <==> Exposed(members, rec.node)
  {
    if Exposed(members, rec.node) {
      var order := ExposedIsOverwritten(members, rec.node);
      var r := Aggregate(m - Missing(m, lookup).Keys, order, members);
      CollidingNamesLoseWork(m, lookup, order, members, r, w, assign, retire, rec);
      assert Lost(m, lookup, members, rec, order);
    }
    if order :| OrderOf(order, members) && Lost(m, lookup, members, rec, order) {
      var r := Aggregate(m - Missing(m, lookup).Keys, order, members);
      CollidingNamesLoseWork(m, lookup, order, members, r, w, assign, retire, rec);
      OverwrittenIsExposed(members, rec.node, order);
    }
  }
}
