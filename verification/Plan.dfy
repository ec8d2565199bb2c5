/** The per-node work lists of a sync cycle: which records to write, which identities to add and remove. */
module Plan {
  import opened Records
  import opened ScaleSets
  import opened Diff

  /** trackUserAssignedMSIIds. */
  datatype Track = Track(
    add: seq<string>,
    remove: seq<string>,
    create: seq<AssignedID>,
    delete: seq<AssignedID>,
    update: seq<AssignedID>,
    isvmss: bool)

  const NOTHING := Track([], [], [], [], [], false)

  type NodeMap = map<string, Track>

  /** The node map of one cycle, passed by reference. */
  class NodeTable {
    var m: NodeMap

    constructor ()
      ensures m == map[]
    {
      m := map[];
    }
  }

  function TrackAt(m: NodeMap, node: string): Track {
    if node in m then m[node] else NOTHING
  }

  // ------------------------------------------------------ what lists contain

  /** `s` lists, once each and in any order, the records of `m` on `nodes`. */
  ghost predicate Lists(s: seq<AssignedID>, m: AssignedMap, nodes: set<string>) {
    && (forall i, j :: 0 <= i < j < |s| ==> s[i].name != s[j].name)
    && (forall r :: r in s <==> r.name in m && m[r.name] == r && r.node in nodes)
  }

  /** `s` holds exactly the resource IDs of the records of `m` on `nodes`. */
  ghost predicate ListsIds(s: seq<string>, m: AssignedMap, nodes: set<string>) {
    forall id :: id in s <==> HasId(m, nodes, id)
  }

  ghost predicate HasId(m: AssignedMap, nodes: set<string>, id: string) {
    exists k :: k in m && m[k].node in nodes && m[k].identity.resourceID == id
  }

  lemma ListsAppend(s: seq<AssignedID>, done: AssignedMap, nodes: set<string>, r: AssignedID)
    requires Lists(s, done, nodes) && r.name !in done && WellKeyed(done)
    ensures r.node in nodes ==> Lists(s + [r], done[r.name := r], nodes)
    ensures r.node !in nodes ==> Lists(s, done[r.name := r], nodes)
  {
    var more := done[r.name := r];
    assert forall x :: x in s ==> x.name != r.name;
    assert forall x :: x in s + [r] <==> x in s || x == r;
    forall x: AssignedID
      ensures x.name in more && more[x.name] == x <==> (x.name in done && done[x.name] == x) || x == r
    {
    }
  }

  lemma ListsIdsAppend(s: seq<string>, done: AssignedMap, nodes: set<string>, r: AssignedID)
    requires ListsIds(s, done, nodes) && r.name !in done
    ensures r.node in nodes ==> ListsIds(s + [r.identity.resourceID], done[r.name := r], nodes)
    ensures r.node !in nodes ==> ListsIds(s, done[r.name := r], nodes)
  {
    var more, rid := done[r.name := r], r.identity.resourceID;
    forall id
      ensures HasId(more, nodes, id) <==> HasId(done, nodes, id) || (r.node in nodes && id == rid)
    {
      if HasId(done, nodes, id) {
        var k :| k in done && done[k].node in nodes && done[k].identity.resourceID == id;
        assert k in more && more[k] == done[k];
      }
      if r.node in nodes && id == rid {
        assert r.name in more && more[r.name] == r;
      }
    }
  }

  // ------------------------------------------- convertAssignedIDListToMap

  datatype ListName = ToCreateList | ToDeleteList | ToUpdateList

  function ListOf(t: Track, l: ListName): seq<AssignedID> {
    match l
    case ToCreateList => t.create
    case ToDeleteList => t.delete
    case ToUpdateList => t.update
  }

  function WithList(t: Track, l: ListName, s: seq<AssignedID>): Track {
    match l
    case ToCreateList => t.(create := s)
    case ToDeleteList => t.(delete := s)
    case ToUpdateList => t.(update := s)
  }

  function Put(m: NodeMap, l: ListName, r: AssignedID): NodeMap {
    var t := TrackAt(m, r.node);
    m[r.node := WithList(t, l, ListOf(t, l) + [r])]
  }

  /** From `was` to `now`, the list `l` of node `n` has received its records of `m`, and nothing else changed there. */
  ghost predicate DistributedAt(was: NodeMap, now: NodeMap, l: ListName, m: AssignedMap, n: string) {
    && Lists(ListOf(TrackAt(now, n), l), m, {n})
    && TrackAt(now, n) == WithList(TrackAt(was, n), l, ListOf(TrackAt(now, n), l))
    && (n in now <==> n in was || OnNode(m, n))
  }

  /** From `was` to `now`, the list `l` of every node has received its records of `m`, and nothing else changed. */
  ghost predicate Distributed(was: NodeMap, now: NodeMap, l: ListName, m: AssignedMap) {
    forall n :: DistributedAt(was, now, l, m, n)
  }

  ghost predicate OnNode(m: AssignedMap, n: string) {
    exists k :: k in m && m[k].node == n
  }

  lemma OnNodeNext(done: AssignedMap, r: AssignedID, n: string)
    requires r.name !in done
    ensures OnNode(done[r.name := r], n) <==> OnNode(done, n) || r.node == n
  {
    var more := done[r.name := r];
    if OnNode(done, n) {
      var k :| k in done && done[k].node == n;
      assert k in more && more[k].node == n;
    }
    if r.node == n {
      assert r.name in more && more[r.name].node == n;
    }
  }

  lemma DistributeNextAt(was: NodeMap, now: NodeMap, l: ListName, done: AssignedMap, r: AssignedID, n: string)
    requires DistributedAt(was, now, l, done, n) && WellKeyed(done) && r.name !in done
    ensures DistributedAt(was, Put(now, l, r), l, done[r.name := r], n)
  {
    ListsAppend(ListOf(TrackAt(now, n), l), done, {n}, r);
    OnNodeNext(done, r, n);
  }

  lemma DistributeNext(was: NodeMap, now: NodeMap, l: ListName, done: AssignedMap, r: AssignedID)
    requires Distributed(was, now, l, done) && WellKeyed(done) && r.name !in done
    ensures Distributed(was, Put(now, l, r), l, done[r.name := r])
  {
    var next, more := Put(now, l, r), done[r.name := r];
    forall n
      ensures DistributedAt(was, next, l, more, n)
    {
      assert DistributedAt(was, now, l, done, n);
      DistributeNextAt(was, now, l, done, r, n);
    }
  }

  lemma DistributeTake(was: NodeMap, now: NodeMap, l: ListName, m: AssignedMap, todo: set<string>, k: string)
    requires WellKeyed(m) && todo <= m.Keys && k in todo && Distributed(was, now, l, m - todo)
    ensures Distributed(was, Put(now, l, m[k]), l, m - (todo - {k}))
  {
    DistributeNext(was, now, l, m - todo, m[k]);
    TakeOne(m, todo, k);
  }

  /** One of the three loops of convertAssignedIDListToMap. */
  method Distribute(nm: NodeTable, l: ListName, m: AssignedMap)
    requires WellKeyed(m)
    requires forall n :: ListOf(TrackAt(nm.m, n), l) == []
    modifies nm
    ensures Distributed(old(nm.m), nm.m, l, m)
  {
    ghost var was := nm.m;
    var todo := m.Keys;
    TakeNone(m);
    while todo != {}
      invariant todo <= m.Keys
      invariant Distributed(was, nm.m, l, m - todo)
      decreases todo
    {
      var k :| k in todo;
      DistributeTake(was, nm.m, l, m, todo, k);
      nm.m := Put(nm.m, l, m[k]);
      todo := todo - {k};
    }
  }

  // ------------------------------------------------ identities to add and remove

  datatype IdListName = AddList | RemoveList

  function IdsOf(t: Track, l: IdListName): seq<string> {
    if l.AddList? then t.add else t.remove
  }

  function WithIds(t: Track, l: IdListName, s: seq<string>): Track {
    if l.AddList? then t.(add := s) else t.(remove := s)
  }

  /** appendToAddListForNode and appendToRemoveListForNode. */
  function PutId(m: NodeMap, l: IdListName, r: AssignedID): NodeMap {
    var t := TrackAt(m, r.node);
    m[r.node := WithIds(t, l, IdsOf(t, l) + [r.identity.resourceID])]
  }

  /** From `was` to `now`, the list `l` of every node has received the resource IDs of its records of `m`. */
  ghost predicate Collected(was: NodeMap, now: NodeMap, l: IdListName, m: AssignedMap) {
    && (forall n :: ListsIds(IdsOf(TrackAt(now, n), l), m, {n}))
    && (forall n :: TrackAt(now, n) == WithIds(TrackAt(was, n), l, IdsOf(TrackAt(now, n), l)))
    && (forall n :: n in now <==> n in was || OnNode(m, n))
  }

  lemma CollectNext(was: NodeMap, now: NodeMap, l: IdListName, done: AssignedMap, r: AssignedID)
    requires Collected(was, now, l, done) && r.name !in done
    ensures Collected(was, PutId(now, l, r), l, done[r.name := r])
  {
    var next, more := PutId(now, l, r), done[r.name := r];
    forall n
      ensures ListsIds(IdsOf(TrackAt(next, n), l), more, {n})
      ensures TrackAt(next, n) == WithIds(TrackAt(was, n), l, IdsOf(TrackAt(next, n), l))
      ensures n in next <==> n in was || OnNode(more, n)
    {
      assert ListsIds(IdsOf(TrackAt(now, n), l), done, {n});
      ListsIdsAppend(IdsOf(TrackAt(now, n), l), done, {n}, r);
      OnNodeNext(done, r, n);
    }
  }

  /** shouldAssignID. */
  predicate NeedsAssignment(r: AssignedID) {
    r.IsMSI() && (r.status == NoState || r.status == Created)
  }

  function Assigning(m: AssignedMap): AssignedMap {
    map k | k in m && NeedsAssignment(m[k]) :: m[k]
  }

  /** The inputs of a cycle that do not change: node lookups, referenced nodes, immutable client IDs. */
  datatype Env = Env(lookup: NodeLookup, refs: set<string>, immutable: set<string>)

  /** shouldRemoveID: assigned, not shielded by another record, not immutable. */
  predicate Removable(env: Env, use: AssignedMap, x: AssignedID) {
    && x.IsMSI() && (x.status == Assigned || x.status == NoState)
    && x.identity.clientID !in env.immutable
    && !Shielded(env, use, x)
  }

  predicate Shielded(env: Env, use: AssignedMap, x: AssignedID) {
    exists k :: k in use && Shields(env.lookup, x, use[k])
  }

  function Retiring(env: Env, use: AssignedMap, m: AssignedMap): AssignedMap {
    map k | k in m && Removable(env, use, m[k]) :: m[k]
  }

  lemma PlusUpdate(p: AssignedMap, q: AssignedMap, k: string, r: AssignedID)
    ensures p + q[k := r] == (p + q)[k := r]
  {
  }

  lemma NothingPlus(q: AssignedMap)
    ensures map[] + q == q
  {
  }

  lemma PlusNothing(p: AssignedMap, q: AssignedMap)
    requires q == map[]
    ensures p + q == p
  {
  }

  lemma AssigningOne(d: AssignedMap, k: string, r: AssignedID)
    requires k !in d
    ensures Assigning(d[k := r]) == if NeedsAssignment(r) then Assigning(d)[k := r] else Assigning(d)
  {
  }

  lemma AssignTake(was: NodeMap, now: NodeMap, before: AssignedMap, m: AssignedMap, todo: set<string>, k: string)
    requires WellKeyed(m) && before.Keys !! m.Keys && todo <= m.Keys && k in todo
    requires Collected(was, now, AddList, before + Assigning(m - todo))
    ensures Collected(was, if NeedsAssignment(m[k]) then PutId(now, AddList, m[k]) else now, AddList,
                      before + Assigning(m - (todo - {k})))
  {
    TakeOne(m, todo, k);
    AssigningOne(m - todo, k, m[k]);
    PlusUpdate(before, Assigning(m - todo), k, m[k]);
    CollectNext(was, now, AddList, before + Assigning(m - todo), m[k]);
  }

  /** One of the two loops of getListOfIdsToAssign. */
  method AssignIds(nm: NodeTable, m: AssignedMap, ghost was: NodeMap, ghost before: AssignedMap)
    requires WellKeyed(m) && before.Keys !! m.Keys
    requires Collected(was, nm.m, AddList, before)
    modifies nm
    ensures Collected(was, nm.m, AddList, before + Assigning(m))
  {
    var todo := m.Keys;
    TakeNone(m);
    PlusNothing(before, Assigning(m - todo));
    while todo != {}
      invariant todo <= m.Keys
      invariant Collected(was, nm.m, AddList, before + Assigning(m - todo))
      decreases todo
    {
      var k :| k in todo;
      AssignTake(was, nm.m, before, m, todo, k);
      if m[k].IsMSI() && (m[k].status == NoState || m[k].status == Created) {
        nm.m := PutId(nm.m, AddList, m[k]);
      }
      todo := todo - {k};
    }
  }

  lemma RetiringOne(env: Env, use: AssignedMap, d: AssignedMap, k: string, r: AssignedID)
    requires k !in d
    ensures Retiring(env, use, d[k := r])
            == if Removable(env, use, r) then Retiring(env, use, d)[k := r] else Retiring(env, use, d)
  {
    var e := d[k := r];
    assert forall x :: x in e <==> x in d || x == k;
    assert forall x :: x in d ==> e[x] == d[x];
  }

  lemma RetireTake(was: NodeMap, now: NodeMap, env: Env, use: AssignedMap, before: AssignedMap, m: AssignedMap,
                   todo: set<string>, k: string)
    requires WellKeyed(m) && before.Keys !! m.Keys && todo <= m.Keys && k in todo
    requires Collected(was, now, RemoveList, before + Retiring(env, use, m - todo))
    ensures Collected(was, if Removable(env, use, m[k]) then PutId(now, RemoveList, m[k]) else now, RemoveList,
                      before + Retiring(env, use, m - (todo - {k})))
  {
    TakeOne(m, todo, k);
    RetiringOne(env, use, m - todo, k, m[k]);
    PlusUpdate(before, Retiring(env, use, m - todo), k, m[k]);
    CollectNext(was, now, RemoveList, before + Retiring(env, use, m - todo), m[k]);
  }

  /** shouldRemoveID. */
  method ShouldRemoveID(nm: NodeTable, env: Env, use: AssignedMap, ls: GroupList, x: AssignedID)
    requires ls.Valid(env.lookup) && Covers(ls, env.lookup, use)
    modifies nm, ls, ls.repr
    ensures ls.Valid(env.lookup) && Covers(ls, env.lookup, use) && fresh(ls.repr - old(ls.repr))
    ensures nm.m == if Removable(env, use, x) then PutId(old(nm.m), RemoveList, x) else old(nm.m)
  {
    var inUse, failed := CheckIfInUse(env.lookup, x, use, ls);
    if failed {
      return;
    }
    var isImmutable := x.identity.clientID in env.immutable;
    if x.status == Assigned || x.status == NoState {
      if !inUse && x.IsMSI() && !isImmutable {
        nm.m := PutId(nm.m, RemoveList, x);
      }
    }
  }

  /** One iteration of a loop of getListOfIdsToDelete. */
  method RemoveNext(nm: NodeTable, env: Env, use: AssignedMap, ls: GroupList, m: AssignedMap, ghost todo: set<string>,
                    k: string,
                    ghost was: NodeMap, ghost before: AssignedMap)
    requires WellKeyed(m) && before.Keys !! m.Keys && todo <= m.Keys && k in todo
    requires ls.Valid(env.lookup) && Covers(ls, env.lookup, use)
    requires Collected(was, nm.m, RemoveList, before + Retiring(env, use, m - todo))
    modifies nm, ls, ls.repr
    ensures ls.Valid(env.lookup) && Covers(ls, env.lookup, use) && fresh(ls.repr - old(ls.repr))
    ensures Collected(was, nm.m, RemoveList, before + Retiring(env, use, m - (todo - {k})))
  {
    RetireTake(was, nm.m, env, use, before, m, todo, k);
    ShouldRemoveID(nm, env, use, ls, m[k]);
  }

  /** One of the two loops of getListOfIdsToDelete. */
  method RemoveIds(nm: NodeTable, env: Env, use: AssignedMap, ls: GroupList, m: AssignedMap, ghost was: NodeMap,
                   ghost before: AssignedMap)
    requires WellKeyed(m) && before.Keys !! m.Keys
    requires ls.Valid(env.lookup) && Covers(ls, env.lookup, use)
    requires Collected(was, nm.m, RemoveList, before)
    modifies nm, ls, ls.repr
    ensures ls.Valid(env.lookup) && Covers(ls, env.lookup, use)
    ensures fresh(ls.repr - old(ls.repr))
    ensures Collected(was, nm.m, RemoveList, before + Retiring(env, use, m))
  {
    var todo := m.Keys;
    TakeNone(m);
    PlusNothing(before, Retiring(env, use, m - todo));
    while todo != {}
      invariant todo <= m.Keys
      invariant ls.Valid(env.lookup) && Covers(ls, env.lookup, use)
      invariant fresh(ls.repr - old(ls.repr))
      invariant Collected(was, nm.m, RemoveList, before + Retiring(env, use, m - todo))
      decreases todo
    {
      var k :| k in todo;
      RemoveNext(nm, env, use, ls, m, todo, k, was, before);
      todo := todo - {k};
    }
  }

  // ------------------------------------------------------- the plan per node

  /** consolidatedMapToCheck. */
  function UseMap(w: Work, des: AssignedMap): AssignedMap {
    des + w.after
  }

  predicate LookupsFail(env: Env) {
    exists n :: n in env.refs && env.lookup(n).Broken?
  }

  /** The records whose identity this cycle assigns. */
  function ToAssign(w: Work): AssignedMap {
    Assigning(w.create) + Assigning(w.after)
  }

  /** The records whose identity this cycle removes; none if the VMSS groups cannot be built. */
  function ToRetire(env: Env, w: Work, des: AssignedMap): AssignedMap {
    if LookupsFail(env) then map[]
    else Retiring(env, UseMap(w, des), w.delete) + Retiring(env, UseMap(w, des), w.before)
  }

  lemma RetireMember(env: Env, w: Work, des: AssignedMap, j: string)
    requires w.delete.Keys !! w.before.Keys
    ensures j in ToRetire(env, w, des) <==>
      && !LookupsFail(env)
      && ((j in w.delete && Removable(env, UseMap(w, des), w.delete[j]))
          || (j in w.before && Removable(env, UseMap(w, des), w.before[j])))
    ensures j in ToRetire(env, w, des) ==>
      ToRetire(env, w, des)[j] == if j in w.delete then w.delete[j] else w.before[j]
  {
  }

  ghost predicate WellFormed(w: Work) {
    && WellKeyed(w.create) && WellKeyed(w.delete) && WellKeyed(w.before) && WellKeyed(w.after)
    && w.create.Keys !! w.delete.Keys && w.create.Keys !! w.after.Keys && w.delete.Keys !! w.after.Keys
    && w.before.Keys == w.after.Keys
  }

  /** createDesiredAssignedIdentityList references the node of every desired record. */
  ghost predicate RefsCover(env: Env, des: AssignedMap) {
    forall k :: k in des ==> des[k].node in env.refs
  }

  /** `t` is the work of `w` for the nodes `nodes`. */
  ghost predicate Planned(t: Track, nodes: set<string>, w: Work, assign: AssignedMap, retire: AssignedMap) {
    && Lists(t.create, w.create, nodes)
    && Lists(t.delete, w.delete, nodes)
    && Lists(t.update, w.after, nodes)
    && ListsIds(t.add, assign, nodes)
    && ListsIds(t.remove, retire, nodes)
  }

  ghost predicate Busy(w: Work, n: string) {
    OnNode(w.create, n) || OnNode(w.delete, n) || OnNode(w.before, n) || OnNode(w.after, n)
  }

  /** The node map before consolidation. */
  ghost predicate PlannedPerNode(m: NodeMap, w: Work, assign: AssignedMap, retire: AssignedMap) {
    && (forall n :: Planned(TrackAt(m, n), {n}, w, assign, retire))
    && (forall n :: n in m ==> !m[n].isvmss && Busy(w, n))
  }

  /** The entry of node `n` before identities are collected. */
  ghost predicate Converted(t: Track, w: Work, n: string) {
    && Lists(t.create, w.create, {n}) && Lists(t.delete, w.delete, {n}) && Lists(t.update, w.after, {n})
    && t.add == [] && t.remove == [] && !t.isvmss
  }

  /** convertAssignedIDListToMap. */
  method ConvertAssignedIDListToMap(nm: NodeTable, w: Work)
    requires WellFormed(w) && nm.m == map[]
    modifies nm
    ensures forall n :: Converted(TrackAt(nm.m, n), w, n)
    ensures forall n :: n in nm.m ==> Busy(w, n)
  {
    Distribute(nm, ToCreateList, w.create);
    ghost var m1 := nm.m;
    forall n
      ensures ListOf(TrackAt(m1, n), ToDeleteList) == []
    {
      assert DistributedAt(map[], m1, ToCreateList, w.create, n);
    }
    Distribute(nm, ToDeleteList, w.delete);
    ghost var m2 := nm.m;
    forall n
      ensures ListOf(TrackAt(m2, n), ToUpdateList) == []
    {
      assert DistributedAt(map[], m1, ToCreateList, w.create, n) && DistributedAt(m1, m2, ToDeleteList, w.delete, n);
    }
    Distribute(nm, ToUpdateList, w.after);
    forall n {
      ThreeLists(m1, m2, nm.m, w, n);
    }
  }

  lemma ThreeLists(m1: NodeMap, m2: NodeMap, m3: NodeMap, w: Work, n: string)
    requires Distributed(map[], m1, ToCreateList, w.create) && Distributed(m1, m2, ToDeleteList, w.delete)
    requires Distributed(m2, m3, ToUpdateList, w.after)
    ensures Converted(TrackAt(m3, n), w, n) && (n in m3 ==> Busy(w, n))
  {
    assert DistributedAt(map[], m1, ToCreateList, w.create, n);
    assert DistributedAt(m1, m2, ToDeleteList, w.delete, n);
    assert DistributedAt(m2, m3, ToUpdateList, w.after, n);
  }

  /** getListOfIdsToDelete. */
  method GetListOfIdsToDelete(nm: NodeTable, env: Env, w: Work, des: AssignedMap)
    requires WellFormed(w) && RefsCover(env, UseMap(w, des))
    requires forall n :: TrackAt(nm.m, n).remove == []
    modifies nm
    ensures Collected(old(nm.m), nm.m, RemoveList, ToRetire(env, w, des))
  {
    var failed, ls := GetVMSSGroups(env.lookup, env.refs);
    CollectedNothing(nm.m, RemoveList);
    if failed {
      return;
    }
    var use := UseMap(w, des);
    assert Covers(ls, env.lookup, use);
    ghost var was := nm.m;
    RemoveIds(nm, env, use, ls, w.delete, was, map[]);
    NothingPlus(Retiring(env, use, w.delete));
    RemoveIds(nm, env, use, ls, w.before, was, Retiring(env, use, w.delete));
  }

  /** getListOfIdsToAssign. */
  method GetListOfIdsToAssign(nm: NodeTable, w: Work)
    requires WellFormed(w)
    requires forall n :: TrackAt(nm.m, n).add == []
    modifies nm
    ensures Collected(old(nm.m), nm.m, AddList, ToAssign(w))
  {
    ghost var was := nm.m;
    CollectedNothing(was, AddList);
    AssignIds(nm, w.create, was, map[]);
    NothingPlus(Assigning(w.create));
    AssignIds(nm, w.after, was, Assigning(w.create));
  }

  lemma NothingToRetire(env: Env, w: Work, des: AssignedMap)
    requires |w.delete| == 0 && |w.before| == 0
    ensures ToRetire(env, w, des) == map[]
  {
    assert w.delete == map[] && w.before == map[];
  }

  lemma NothingToAssign(w: Work)
    requires |w.create| == 0 && |w.after| == 0
    ensures ToAssign(w) == map[]
  {
    assert w.create == map[] && w.after == map[];
  }

  lemma AddsStillEmpty(m1: NodeMap, m2: NodeMap, w: Work, retire: AssignedMap)
    requires (forall n :: Converted(TrackAt(m1, n), w, n)) && Collected(m1, m2, RemoveList, retire)
    ensures forall n :: TrackAt(m2, n).add == []
  {
    forall n
      ensures TrackAt(m2, n).add == []
    {
      assert TrackAt(m2, n) == WithIds(TrackAt(m1, n), RemoveList, IdsOf(TrackAt(m2, n), RemoveList));
    }
  }

  /** The part of a sync cycle between the diff and the consolidation. */
  method PlanPerNode(env: Env, w: Work, des: AssignedMap) returns (nm: NodeTable)
    requires WellFormed(w) && RefsCover(env, UseMap(w, des))
    ensures fresh(nm)
    ensures PlannedPerNode(nm.m, w, ToAssign(w), ToRetire(env, w, des))
  {
    nm := new NodeTable();
    ConvertAssignedIDListToMap(nm, w);
    ghost var m1 := nm.m;
    if |w.delete| > 0 || |w.before| > 0 {
      GetListOfIdsToDelete(nm, env, w, des);
    } else {
      NothingToRetire(env, w, des);
      CollectedNothing(nm.m, RemoveList);
    }
    ghost var m2 := nm.m;
    AddsStillEmpty(m1, m2, w, ToRetire(env, w, des));
    if |w.create| > 0 || |w.after| > 0 {
      GetListOfIdsToAssign(nm, w);
    } else {
      NothingToAssign(w);
      CollectedNothing(nm.m, AddList);
    }
    PlanSources(env, w, des);
    PlanComposed(m1, m2, nm.m, w, ToAssign(w), ToRetire(env, w, des));
  }

  ghost predicate TakenFrom(m: AssignedMap, a: AssignedMap, b: AssignedMap) {
    forall k :: k in m ==> (k in a && m[k] == a[k]) || (k in b && m[k] == b[k])
  }

  lemma PlanSources(env: Env, w: Work, des: AssignedMap)
    ensures TakenFrom(ToRetire(env, w, des), w.delete, w.before)
    ensures TakenFrom(ToAssign(w), w.create, w.after)
  {
  }

  lemma CollectedNothing(m: NodeMap, l: IdListName)
    requires forall n :: IdsOf(TrackAt(m, n), l) == []
    ensures Collected(m, m, l, map[])
  {
    forall n
      ensures ListsIds(IdsOf(TrackAt(m, n), l), map[], {n})
      ensures TrackAt(m, n) == WithIds(TrackAt(m, n), l, IdsOf(TrackAt(m, n), l))
    {
    }
  }

  lemma PlanComposed(m1: NodeMap, m2: NodeMap, m3: NodeMap, w: Work, assign: AssignedMap, retire: AssignedMap)
    requires forall n :: Converted(TrackAt(m1, n), w, n)
    requires Collected(m1, m2, RemoveList, retire) && Collected(m2, m3, AddList, assign)
    requires forall n :: n in m1 ==> Busy(w, n)
    requires TakenFrom(retire, w.delete, w.before) && TakenFrom(assign, w.create, w.after)
    ensures PlannedPerNode(m3, w, assign, retire)
  {
    forall n
      ensures Planned(TrackAt(m3, n), {n}, w, assign, retire) && !TrackAt(m3, n).isvmss
      ensures n in m3 ==> Busy(w, n)
    {
      assert TrackAt(m2, n) == WithIds(TrackAt(m1, n), RemoveList, IdsOf(TrackAt(m2, n), RemoveList));
      assert TrackAt(m3, n) == WithIds(TrackAt(m2, n), AddList, IdsOf(TrackAt(m3, n), AddList));
      assert ListsIds(IdsOf(TrackAt(m2, n), RemoveList), retire, {n});
      assert ListsIds(IdsOf(TrackAt(m3, n), AddList), assign, {n});
    }
  }
}
