/** Which identities a sync cycle may take away from a host. */
module Safety {
  import opened Text
  import opened Records
  import opened ScaleSets
  import opened Diff
  import opened Plan
  import opened Consolidate

  /** What UpdateUserMSI may remove: the identities to remove that are not also to be added. */
  function Doomed(t: Track): set<string> {
    Fold(Elements(t.remove) - Elements(t.add))
  }

  /** The inputs of the planning part of a cycle, and its result. */
  datatype Cycle = Cycle(env: Env, cur: AssignedMap, des: AssignedMap, keys: set<string>, hosts: map<HostKey, Track>)
  {
    function Diff(): Work {
      DiffOf(cur, des)
    }

    function Host(r: AssignedID): HostKey {
      HostOf(env.lookup, r.node)
    }

    /** What the functions above establish about a planned cycle. */
    ghost predicate Valid() {
      && WellKeyed(cur) && WellKeyed(des)
      && (forall k :: k in des ==> des[k].status == NoState)
      && RefsCover(env, des)
      && PlannedPerHost(hosts, keys, env.lookup, Diff(), ToAssign(Diff()), ToRetire(env, Diff(), des))
    }

    /** Scale sets of stored and desired records are told apart by their short names. */
    ghost predicate ShortNamesUnique() {
      forall a, b ::
        a in Nodes() && b in Nodes() && SameName(env.lookup(a), env.lookup(b)) ==> env.lookup(a) == env.lookup(b)
    }

    ghost function Nodes(): set<string> {
      (set k | k in cur :: cur[k].node) + (set k | k in des :: des[k].node)
    }

    /** On host `h`, the same user-assigned identity is spelled one way and has one client ID. */
    ghost predicate CoherentOn(h: HostKey) {
      && (forall j, k :: j in cur && k in des && Host(cur[j]) == h && Host(des[k]) == h ==> OneSpelling(cur[j], des[k]))
      && (forall j, k :: j in cur && k in cur && Host(cur[j]) == h && Host(cur[k]) == h ==> OneSpelling(cur[j], cur[k]))
    }

    ghost predicate IdentitiesCoherent() {
      forall h :: CoherentOn(h)
    }

    /** Of two pods of the same name that use the same identity on one host, neither is changing. */
    ghost predicate PodNamesTellApart() {
      forall j, k :: j in cur && k in des && !Stays(cur, des, j) && Confusable(cur[j], des[k]) ==> j == k
    }

    predicate Confusable(x: AssignedID, y: AssignedID) {
      x.IsMSI() && y.IsMSI() && Host(x) == Host(y) && SameIdentity(x, y) && x.pod == y.pod
    }

    /** Stored record `j` goes or changes, and has the identity of desired record `k` on the host of `k`. */
    ghost predicate Departs(j: string, k: string) {
      && j in cur && k in des && !Stays(cur, des, j) && cur[j].IsMSI() && Host(cur[j]) == Host(des[k])
      && Lower(cur[j].identity.resourceID) == Lower(des[k].identity.resourceID)
    }

    /** The in-use check can tell that desired record `k` needs its identity, whichever record departs: both have the
        same spelling and client ID, are on one node or in one scale set, and are not mixed up by the name of their
        pods. */
    ghost predicate ClaimSeen(k: string)
      requires k in des
    {
      forall j :: Departs(j, k) ==>
        && SameIdentity(cur[j], des[k]) && Near(env.lookup, cur[j], des[k])
        && (cur[j].pod == des[k].pod ==> j == k)
    }
  }

  predicate SameIdentity(x: AssignedID, y: AssignedID) {
    x.identity.resourceID == y.identity.resourceID && x.identity.clientID == y.identity.clientID
  }

  predicate OneSpelling(x: AssignedID, y: AssignedID) {
    x.IsMSI() && y.IsMSI() && Lower(x.identity.resourceID) == Lower(y.identity.resourceID) ==> SameIdentity(x, y)
  }

  predicate Near(lookup: NodeLookup, x: AssignedID, y: AssignedID) {
    x.node == y.node || SameScaleSet(lookup, x.node, y.node)
  }

  lemma DiffIsWellFormed(cur: AssignedMap, des: AssignedMap)
    requires WellKeyed(cur) && WellKeyed(des)
    ensures WellFormed(DiffOf(cur, des))
  {
    DiffWellKeyed(cur, des);
    forall n {
      DiffShape(cur, des, n);
    }
  }

  /** The map the in-use check looks at agrees with the desired records on pod, node and identity. */
  lemma UseMapAgrees(c: Cycle, k: string)
    ensures k in UseMap(c.Diff(), c.des) <==> k in c.des
    ensures k in c.des ==>
      var y := UseMap(c.Diff(), c.des)[k];
      y.pod == c.des[k].pod && y.node == c.des[k].node && y.identity == c.des[k].identity
  {
    DiffShape(c.cur, c.des, k);
  }

  /** Being on the same host is what the in-use check tests. */
  lemma SameHostIsSeen(c: Cycle, j: string, k: string)
    requires c.ShortNamesUnique() && j in c.cur && k in c.des
    requires c.Host(c.cur[j]) == c.Host(c.des[k])
    ensures Near(c.env.lookup, c.cur[j], c.des[k])
  {
    var a, b := c.cur[j].node, c.des[k].node;
    assert a in c.Nodes() && b in c.Nodes();
    if c.env.lookup(a).InScaleSet? {
      assert SameName(c.env.lookup(a), c.env.lookup(b));
    }
  }

  /** A retiring record is stored, differs from what is desired under its name, and is shielded by no desired record. */
  lemma RetiringRecord(c: Cycle, j: string)
    requires c.Valid() && j in ToRetire(c.env, c.Diff(), c.des)
    ensures j in c.cur && ToRetire(c.env, c.Diff(), c.des)[j] == c.cur[j] && !Stays(c.cur, c.des, j)
    ensures c.cur[j].IsMSI() && !Shielded(c.env, UseMap(c.Diff(), c.des), c.cur[j])
  {
    DiffShape(c.cur, c.des, j);
    DiffIsWellFormed(c.cur, c.des);
    RetireMember(c.env, c.Diff(), c.des, j);
  }

  /** A changed record's identity is in the add list of its host. */
  lemma ChangedRecordIsAdded(c: Cycle, k: string)
    requires c.Valid() && k in c.des && k in c.cur && !Stays(c.cur, c.des, k) && c.des[k].IsMSI()
    ensures var h := c.Host(c.des[k]); h in c.hosts && c.des[k].identity.resourceID in c.hosts[h].add
  {
    DiffShape(c.cur, c.des, k);
    var w, n, h := c.Diff(), c.des[k].node, c.Host(c.des[k]);
    assert w.after[k].node == n && OnNode(w.after, n);
    assert k in ToAssign(w) && ToAssign(w)[k] == w.after[k];
    assert n in NodesOn(c.keys, c.env.lookup, h);
    assert HasId(ToAssign(w), NodesOn(c.keys, c.env.lookup, h), c.des[k].identity.resourceID);
    assert Planned(c.hosts[h], NodesOn(c.keys, c.env.lookup, h), w, ToAssign(w), ToRetire(c.env, w, c.des));
  }

  /** Cluster-wide conditions under which every claim on a host is seen. */
  lemma ClaimIsSeen(c: Cycle, k: string)
    requires c.ShortNamesUnique() && c.PodNamesTellApart() && k in c.des && c.des[k].IsMSI()
    requires c.CoherentOn(c.Host(c.des[k]))
    ensures c.ClaimSeen(k)
  {
    forall j | c.Departs(j, k)
      ensures SameIdentity(c.cur[j], c.des[k]) && Near(c.env.lookup, c.cur[j], c.des[k])
      ensures c.cur[j].pod == c.des[k].pod ==> j == k
    {
      assert OneSpelling(c.cur[j], c.des[k]);
      SameHostIsSeen(c, j, k);
    }
  }

  lemma SeenClaimShields(c: Cycle, j: string, k: string)
    requires c.Departs(j, k) && c.ClaimSeen(k) && c.cur[j].pod != c.des[k].pod
    ensures Shielded(c.env, UseMap(c.Diff(), c.des), c.cur[j])
  {
    UseMapAgrees(c, k);
    assert Shields(c.env.lookup, c.cur[j], UseMap(c.Diff(), c.des)[k]);
  }

  /** A record that retires although a seen claim is on its identity is the claiming record itself, changed. */
  lemma OnlyItselfRetires(c: Cycle, j: string, k: string)
    requires c.Valid() && j in ToRetire(c.env, c.Diff(), c.des) && c.Departs(j, k) && c.ClaimSeen(k)
    ensures j == k && c.cur[j].identity.resourceID == c.des[k].identity.resourceID
  {
    RetiringRecord(c, j);
    if c.cur[j].pod != c.des[k].pod {
      SeenClaimShields(c, j, k);
    }
  }

  /** Removal safety of the plan: the identity of a desired record whose claim is seen is not removed from its host. */
  lemma DesiredIdentityIsNotDoomed(c: Cycle, k: string)
    requires c.Valid() && k in c.des && c.des[k].IsMSI() && c.Host(c.des[k]) in c.hosts && c.ClaimSeen(k)
    ensures Lower(c.des[k].identity.resourceID) !in Doomed(c.hosts[c.Host(c.des[k])])
  {
    var d, h := c.des[k], c.Host(c.des[k]);
    var t, w := c.hosts[h], c.Diff();
    var retire, nodes := ToRetire(c.env, w, c.des), NodesOn(c.keys, c.env.lookup, h);
    if Lower(d.identity.resourceID) in Doomed(t) {
      var id :| id in Elements(t.remove) - Elements(t.add) && Lower(id) == Lower(d.identity.resourceID);
      assert Planned(t, nodes, w, ToAssign(w), retire);
      assert HasId(retire, nodes, id);
      var j :| j in retire && retire[j].node in nodes && retire[j].identity.resourceID == id;
      RetiringRecord(c, j);
      OnlyItselfRetires(c, j, k);
      ChangedRecordIsAdded(c, k);
      assert false;
    }
  }

  // ------------------------------------------------ exactly what a plan removes

  /** Record `y` of a pod of another name has the client ID of MSI record `x`, and is on its node or in its scale set,
      or the node of `x` cannot be looked up. */
  predicate Defends(at: NodeLookup, x: AssignedID, y: AssignedID) {
    && x.identity.kind == UserAssignedMSI && x.pod != y.pod && x.identity.clientID == y.identity.clientID
    && (x.node == y.node || at(x.node).Broken?
        || (at(x.node).InScaleSet? && at(y.node).InScaleSet? && at(x.node).id == at(y.node).id))
  }

  lemma DefendsIff(at: NodeLookup, x: AssignedID, y: AssignedID)
    ensures Defends(at, x, y) <==> Shields(at, x, y)
  {
  }

  /** Some desired record keeps the identity of stored record `j`. */
  ghost predicate Defended(c: Cycle, j: string)
    requires j in c.cur
  {
    exists k :: k in c.des && Defends(c.env.lookup, c.cur[j], c.des[k])
  }

  /** Stored record `j` is given up, and the in-use check finds nothing to keep its identity for. */
  ghost predicate GivenUp(c: Cycle, j: string) {
    && j in c.cur && !Stays(c.cur, c.des, j) && (forall n :: n in c.env.refs ==> !c.env.lookup(n).Broken?)
    && c.cur[j].identity.kind == UserAssignedMSI
    && (c.cur[j].status == Assigned || c.cur[j].status == NoState)
    && c.cur[j].identity.clientID !in c.env.immutable
    && !Defended(c, j)
  }

  lemma ShieldedIff(c: Cycle, j: string)
    requires j in c.cur
    ensures Shielded(c.env, UseMap(c.Diff(), c.des), c.cur[j]) <==> Defended(c, j)
  {
    var x, use := c.cur[j], UseMap(c.Diff(), c.des);
    if Shielded(c.env, use, x) {
      var k :| k in use && Shields(c.env.lookup, x, use[k]);
      UseMapAgrees(c, k);
      DefendsIff(c.env.lookup, x, c.des[k]);
      assert Shields(c.env.lookup, x, c.des[k]);
    }
    if Defended(c, j) {
      var k :| k in c.des && Defends(c.env.lookup, x, c.des[k]);
      UseMapAgrees(c, k);
      DefendsIff(c.env.lookup, x, c.des[k]);
      assert Shields(c.env.lookup, x, use[k]);
    }
  }

  lemma RemovableIff(c: Cycle, j: string)
    requires j in c.cur
    ensures Removable(c.env, UseMap(c.Diff(), c.des), c.cur[j]) <==>
      && c.cur[j].identity.kind == UserAssignedMSI
      && (c.cur[j].status == Assigned || c.cur[j].status == NoState)
      && c.cur[j].identity.clientID !in c.env.immutable && !Defended(c, j)
  {
    ShieldedIff(c, j);
  }

  lemma RetiredIff(c: Cycle, j: string)
    requires c.Valid()
    ensures j in ToRetire(c.env, c.Diff(), c.des) <==> GivenUp(c, j)
    ensures GivenUp(c, j) ==> ToRetire(c.env, c.Diff(), c.des)[j] == c.cur[j]
  {
    DiffShape(c.cur, c.des, j);
    DiffIsWellFormed(c.cur, c.des);
    RetireMember(c.env, c.Diff(), c.des, j);
    if j in c.cur {
      RemovableIff(c, j);
    }
  }

  /** No record on host `h` is new, changed or unfinished with resource ID `rid`. */
  ghost predicate Unassigned(c: Cycle, h: HostKey, rid: string) {
    forall k :: k in ToAssign(c.Diff()) && c.Host(ToAssign(c.Diff())[k]) == h
      ==> ToAssign(c.Diff())[k].identity.resourceID != rid
  }

  /** Stored record `j` of host `h` takes its identity away with it. */
  ghost predicate Takes(c: Cycle, h: HostKey, j: string) {
    GivenUp(c, j) && c.Host(c.cur[j]) == h && Unassigned(c, h, c.cur[j].identity.resourceID)
  }

  lemma RemovedIff(c: Cycle, h: HostKey, rid: string)
    requires c.Valid() && h in c.hosts
    ensures rid in c.hosts[h].remove && rid !in c.hosts[h].add
            <==> exists j :: Takes(c, h, j) && c.cur[j].identity.resourceID == rid
  {
    var w, t := c.Diff(), c.hosts[h];
    var assign, retire, nodes := ToAssign(w), ToRetire(c.env, w, c.des), NodesOn(c.keys, c.env.lookup, h);
    assert Planned(t, nodes, w, assign, retire);
    assert rid in t.remove <==> HasId(retire, nodes, rid);
    assert rid in t.add <==> HasId(assign, nodes, rid);
    OnHostIff(c, h, rid, retire);
    OnHostIff(c, h, rid, assign);
    if j :| Takes(c, h, j) && c.cur[j].identity.resourceID == rid {
      RetiredIff(c, j);
    }
    if j :| j in retire && c.Host(retire[j]) == h && retire[j].identity.resourceID == rid {
      RetiredIff(c, j);
    }
  }

  /** An identity is taken from a host exactly when a record that used it there is given up and no record there is new,
      changed or unfinished with this spelling of it. */
  lemma DoomedIff(c: Cycle, h: HostKey, id: string)
    requires c.Valid() && h in c.hosts
    ensures id in Doomed(c.hosts[h]) <==> exists j :: Takes(c, h, j) && Lower(c.cur[j].identity.resourceID) == id
  {
    var t := c.hosts[h];
    if id in Doomed(t) {
      var rid :| rid in Elements(t.remove) - Elements(t.add) && Lower(rid) == id;
      RemovedIff(c, h, rid);
    }
    if j :| Takes(c, h, j) && Lower(c.cur[j].identity.resourceID) == id {
      RemovedIff(c, h, c.cur[j].identity.resourceID);
      assert c.cur[j].identity.resourceID in Elements(t.remove) - Elements(t.add);
    }
  }

  lemma AssignNodesTracked(c: Cycle, k: string)
    requires c.Valid() && k in ToAssign(c.Diff())
    ensures ToAssign(c.Diff())[k].node in c.keys
  {
    var w := c.Diff();
    PlanSources(c.env, w, c.des);
    assert OnNode(w.create, ToAssign(w)[k].node) || OnNode(w.after, ToAssign(w)[k].node);
  }

  lemma RetireNodesTracked(c: Cycle, k: string)
    requires c.Valid() && k in ToRetire(c.env, c.Diff(), c.des)
    ensures ToRetire(c.env, c.Diff(), c.des)[k].node in c.keys
  {
    var m := ToRetire(c.env, c.Diff(), c.des);
    assert OnNode(m, m[k].node);
  }

  lemma OnHostIff(c: Cycle, h: HostKey, id: string, m: AssignedMap)
    requires c.Valid() && (m == ToAssign(c.Diff()) || m == ToRetire(c.env, c.Diff(), c.des))
    ensures HasId(m, NodesOn(c.keys, c.env.lookup, h), id)
            <==> exists k :: k in m && c.Host(m[k]) == h && m[k].identity.resourceID == id
  {
    forall k | k in m
      ensures m[k].node in c.keys
    {
      if m == ToAssign(c.Diff()) {
        AssignNodesTracked(c, k);
      } else {
        RetireNodesTracked(c, k);
      }
    }
  }

  /** Two records share a node and a resource ID, but the in-use check does not see it: the pods have the same name
      (in different namespaces), or the client IDs differ. When the first record goes away the identity is retired
      although the second still uses it, and nothing assigns it again. */
  lemma UnseenRecordLosesItsIdentity(env: Env, x: AssignedID, y: AssignedID)
    requires x.name != y.name && x.node == y.node && x.identity.resourceID == y.identity.resourceID
    requires x.pod == y.pod || x.identity.clientID != y.identity.clientID
    requires x.IsMSI() && x.status == Assigned && y.status == Assigned
    requires x.identity.clientID !in env.immutable && !LookupsFail(env)
    ensures var (cur, des) := (map[x.name := x, y.name := y], map[y.name := y.(status := NoState)]);
      ToRetire(env, DiffOf(cur, des), des) == map[x.name := x] && ToAssign(DiffOf(cur, des)) == map[]
  {
    var cur, des := map[x.name := x, y.name := y], map[y.name := y.(status := NoState)];
    var w := DiffOf(cur, des);
    UnseenDiff(x, y);
    assert UseMap(w, des) == des;
    assert !Shielded(env, des, x);
    assert Retiring(env, des, w.delete) == map[x.name := x];
  }

  lemma UnseenDiff(x: AssignedID, y: AssignedID)
    requires x.name != y.name && y.status == Assigned
    ensures DiffOf(map[x.name := x, y.name := y], map[y.name := y.(status := NoState)])
            == Work(map[], map[x.name := x], map[], map[])
  {
    var cur, des := map[x.name := x, y.name := y], map[y.name := y.(status := NoState)];
    var w := DiffOf(cur, des);
    forall n {
      DiffShape(cur, des, n);
    }
    assert w.create == map[] && w.after == map[] && w.before == map[] && w.delete == map[x.name := x];
  }

  /** ImmutableUserMSIsMap: configured client IDs are lower-cased, the cluster identity is taken as it is. */
  function ImmutableIds(items: seq<string>, clusterIdentity: string): set<string> {
    Fold(Elements(items)) + (if clusterIdentity != "" then {clusterIdentity} else {})
  }

  /** A client ID configured as immutable is recognised exactly when its record spells it in lower case. */
  lemma ImmutableIff(items: seq<string>, clusterIdentity: string, item: string, clientID: string)
    requires item in items && Lower(item) == Lower(clientID) && clientID != clusterIdentity
    ensures clientID in ImmutableIds(items, clusterIdentity) <==> Lower(clientID) == clientID
  {
    assert Lower(item) in Fold(Elements(items)) by {
      assert item in Elements(items);
    }
    FoldIsFolded(Elements(items));
  }
}
