/** reconcileIdentityAssignment: putting back identities that Assigned records say should be there. */
module Reconcile {
  import opened Text
  import opened Records
  import opened CloudUpdate

  type Hosts = map<HostKey, Host>

  ghost predicate ValidHosts(hosts: Hosts)
    reads hosts.Values
  {
    && (forall h :: h in hosts ==> hosts[h].Valid())
    && (forall a, b :: a in hosts && b in hosts && hosts[a] == hosts[b] ==> a == b)
  }

  /** Only records in state Assigned count; Created ones are still being worked on. */
  predicate Needed(r: AssignedID) {
    r.status == Assigned && r.IsMSI()
  }

  predicate Wants(lookup: NodeLookup, r: AssignedID, h: HostKey, id: string) {
    Needed(r) && HostOf(lookup, r.node) == h && r.identity.resourceID == id
  }

  /** The resource IDs that `records` want on host `h`, as they are spelled. */
  function WantedOn(lookup: NodeLookup, records: seq<AssignedID>, h: HostKey): set<string> {
    set r | r in records && Needed(r) && HostOf(lookup, r.node) == h :: r.identity.resourceID
  }

  function Spelled(p: IdMap): set<string> {
    if p.NilMap? then {} else p.m.Keys
  }

  /** GetUserMSIs. */
  method GetUserMSIs(hosts: Hosts, h: HostKey) returns (failed: bool, ids: set<string>)
    requires ValidHosts(hosts)
    ensures !failed ==> h in hosts && Fold(ids) == hosts[h].ids
  {
    if h !in hosts {
      return true, {};
    }
    var err, info := hosts[h].Get();
    if err.Some? {
      return true, {};
    }
    failed, ids := false, if info == null then {} else Spelled(info.userIds);
  }

  /** The state of one host, as both maps of generateIdentityAssignmentState hold it. */
  datatype View = View(current: set<string>, desired: set<string>)

  ghost predicate Viewed(lookup: NodeLookup, records: seq<AssignedID>, hosts: Hosts, views: map<HostKey, View>)
    reads hosts.Values
  {
    && (forall h :: h in views ==>
          h in hosts && Fold(views[h].current) == hosts[h].ids && views[h].desired == WantedOn(lookup, records, h))
    && (forall r :: r in records ==> HostOf(lookup, r.node) in views)
  }

  lemma WantedOnNext(lookup: NodeLookup, records: seq<AssignedID>, i: nat, h: HostKey)
    requires i < |records|
    ensures var r := records[i];
      WantedOn(lookup, records[..i + 1], h)
      == WantedOn(lookup, records[..i], h)
         + (if Needed(r) && HostOf(lookup, r.node) == h then {r.identity.resourceID} else {})
  {
    assert forall r :: r in records[..i + 1] <==> r in records[..i] || r == records[i];
  }

  lemma UnseenHost(lookup: NodeLookup, records: seq<AssignedID>, h: HostKey)
    requires forall r :: r in records ==> HostOf(lookup, r.node) != h
    ensures WantedOn(lookup, records, h) == {}
  {
  }

  /** The node of the record is gone or cannot be looked up. */
  predicate Unresolved(lookup: NodeLookup, r: AssignedID) {
    lookup(r.node).NotFound? || lookup(r.node).Broken?
  }

  /** The records seen so far: every host of theirs has its view, and no others. */
  ghost predicate Generating(lookup: NodeLookup, records: seq<AssignedID>, hosts: Hosts, views: map<HostKey, View>)
    reads hosts.Values
  {
    && Viewed(lookup, records, hosts, views)
    && (forall r :: r in records ==> !Unresolved(lookup, r))
    && (forall h :: h in views ==> exists r :: r in records && HostOf(lookup, r.node) == h)
  }

  /** The entry of the host of record `r`, with its identity if that is needed. */
  function AddView(views: map<HostKey, View>, h: HostKey, current: set<string>, r: AssignedID): map<HostKey, View> {
    var desired := if h in views then views[h].desired else {};
    views[h := View(current, if Needed(r) then desired + {r.identity.resourceID} else desired)]
  }

  lemma AddedView(lookup: NodeLookup, records: seq<AssignedID>, i: nat, views: map<HostKey, View>, current: set<string>,
                  g: HostKey)
    requires i < |records|
    requires forall r :: r in records[..i] ==> HostOf(lookup, r.node) in views
    requires g in views ==> views[g].desired == WantedOn(lookup, records[..i], g)
    ensures var h := HostOf(lookup, records[i].node);
      var next := AddView(views, h, current, records[i]);
      && (g in next ==> next[g].desired == WantedOn(lookup, records[..i + 1], g))
      && (g in next ==> next[g].current == if g == h then current else views[g].current)
  {
    WantedOnNext(lookup, records, i, g);
    if g !in views {
      UnseenHost(lookup, records[..i], g);
    }
  }

  lemma SourcesNext(lookup: NodeLookup, records: seq<AssignedID>, i: nat, views: map<HostKey, View>,
                    current: set<string>,
                    g: HostKey)
    requires i < |records| && g in AddView(views, HostOf(lookup, records[i].node), current, records[i])
    requires g in views ==> exists r :: r in records[..i] && HostOf(lookup, r.node) == g
    ensures exists r :: r in records[..i + 1] && HostOf(lookup, r.node) == g
  {
    if g in views {
      var r :| r in records[..i] && HostOf(lookup, r.node) == g;
      assert r in records[..i + 1];
    } else {
      assert records[i] in records[..i + 1];
    }
  }

  lemma GeneratingNext(lookup: NodeLookup, records: seq<AssignedID>, i: nat, hosts: Hosts, views: map<HostKey, View>,
                       current: set<string>)
    requires i < |records| && Generating(lookup, records[..i], hosts, views) && !Unresolved(lookup, records[i])
    requires var h := HostOf(lookup, records[i].node);
      h in hosts && Fold(current) == hosts[h].ids && (h in views ==> current == views[h].current)
    ensures var next := AddView(views, HostOf(lookup, records[i].node), current, records[i]);
      Generating(lookup, records[..i + 1], hosts, next)
  {
    var h := HostOf(lookup, records[i].node);
    var next := AddView(views, h, current, records[i]);
    forall r | r in records[..i + 1]
      ensures HostOf(lookup, r.node) in next && !Unresolved(lookup, r)
    {
      assert r in records[..i] || r == records[i];
    }
    forall g | g in next
      ensures g in hosts && Fold(next[g].current) == hosts[g].ids
      ensures next[g].desired == WantedOn(lookup, records[..i + 1], g)
      ensures exists r :: r in records[..i + 1] && HostOf(lookup, r.node) == g
    {
      AddedView(lookup, records, i, views, current, g);
      SourcesNext(lookup, records, i, views, current, g);
    }
  }

  /** generateIdentityAssignmentState: any node or GET that fails makes the whole reconciliation fail. */
  method GenerateState(lookup: NodeLookup, records: seq<AssignedID>, hosts: Hosts)
    returns (failed: bool, views: map<HostKey, View>)
    requires ValidHosts(hosts)
    ensures !failed ==> Viewed(lookup, records, hosts, views)
    ensures (exists r :: r in records && (Unresolved(lookup, r) || HostOf(lookup, r.node) !in hosts)) ==> failed
  {
    failed, views := false, map[];
    for i := 0 to |records|
      invariant !failed && Generating(lookup, records[..i], hosts, views)
    {
      var r := records[i];
      if lookup(r.node).NotFound? || lookup(r.node).Broken? {
        return true, views;
      }
      var h := HostOf(lookup, r.node);
      var current;
      if h in views {
        current := views[h].current;
      } else {
        failed, current := GetUserMSIs(hosts, h);
        if failed {
          return;
        }
      }
      GeneratingNext(lookup, records, i, hosts, views, current);
      views := AddView(views, h, current, r);
    }
    assert records[..|records|] == records;
  }

  method ToList(ids: set<string>) returns (s: seq<string>)
    ensures Elements(s) == ids && (ids != {} ==> s != [])
  {
    s := [];
    var todo := ids;
    while todo != {}
      invariant todo <= ids && Elements(s) == ids - todo
      decreases todo
    {
      var id :| id in todo;
      assert Elements(s + [id]) == Elements(s) + {id};
      s, todo := s + [id], todo - {id};
    }
  }

  /** What one host looks like before and after: nothing lost, nothing unwanted gained, and quiet if all was there. */
  ghost predicate HostReconciled(wanted: set<string>, before: set<string>, after: set<string>, silent: bool) {
    before <= after <= before + Fold(wanted) && (Fold(wanted) <= before ==> silent)
  }

  /** The diff and update of one host; spellings are compared exactly here, and folded in UpdateUserMSI. */
  method ReconcileHost(host: Host, isvmss: bool, view: View, policy: RetryPolicy) returns (err: Option<CloudError>)
    requires host.Valid() && Fold(view.current) == host.ids
    modifies host
    ensures host.Valid()
    ensures HostReconciled(view.desired, old(host.ids), host.ids, host.log == old(host.log))
    ensures err.None? ==> Fold(view.desired) <= host.ids
  {
    var toAssign := view.desired - view.current;
    assert Fold(view.desired) <= Fold(toAssign) + Fold(view.current);
    assert Fold(toAssign) <= Fold(view.desired);
    if toAssign == {} {
      return None;
    }
    var add := ToList(toAssign);
    assert add[0] in Elements(add) && Lower(add[0]) in Fold(toAssign);
    err := UpdateUserMSI(host, isvmss, add, [], policy);
    assert Fold(Elements([]) - Elements(add)) == {};
  }

  /** What Azure has of a host, and what it was sent. */
  datatype Snapshot = Snapshot(ids: set<string>, log: seq<IdMap>)

  ghost function Look(host: Host): Snapshot
    reads host
  {
    Snapshot(host.ids, host.log)
  }

  /** One iteration of the update loop; no other host changes. */
  method ReconcileOne(hosts: Hosts, h: HostKey, view: View, policy: RetryPolicy) returns (err: Option<CloudError>)
    requires ValidHosts(hosts) && h in hosts && Fold(view.current) == hosts[h].ids
    modifies hosts[h]
    ensures ValidHosts(hosts)
    ensures HostReconciled(view.desired, old(hosts[h].ids), hosts[h].ids, hosts[h].log == old(hosts[h].log))
    ensures err.None? ==> Fold(view.desired) <= hosts[h].ids
    ensures forall g :: g in hosts && g != h ==> Look(hosts[g]) == old(Look(hosts[g]))
  {
    err := ReconcileHost(hosts[h], h.Vmss?, view, policy);
  }

  /** A host is as the update loop leaves it, or still as it was. */
  ghost predicate Treated(wanted: set<string>, done: bool, was: Snapshot, now: Snapshot) {
    if done then HostReconciled(wanted, was.ids, now.ids, now.log == was.log) else now == was
  }

  /** The hosts outside `todo` have been treated, the others are as they were. */
  ghost predicate UpdatedSoFar(hosts: Hosts, views: map<HostKey, View>, was: map<HostKey, Snapshot>, todo: set<HostKey>,
                               ok: bool)
    reads hosts.Values
  {
    && ValidHosts(hosts) && todo <= views.Keys <= hosts.Keys && was.Keys == hosts.Keys
    && (forall h :: h in todo ==> Fold(views[h].current) == was[h].ids)
    && (forall h :: h in hosts ==>
          Treated(if h in views then views[h].desired else {}, h in views && h !in todo, was[h], Look(hosts[h])))
    && (ok ==> forall h :: h in views && h !in todo ==> Fold(views[h].desired) <= hosts[h].ids)
  }

  method UpdateNext(hosts: Hosts, views: map<HostKey, View>, policy: RetryPolicy, ghost was: map<HostKey, Snapshot>,
                    ghost todo: set<HostKey>, ghost soFar: bool, h: HostKey) returns (ok: bool)
    requires UpdatedSoFar(hosts, views, was, todo, soFar) && h in todo
    modifies hosts.Values
    ensures UpdatedSoFar(hosts, views, was, todo - {h}, soFar && ok)
  {
    assert Treated(views[h].desired, false, was[h], Look(hosts[h]));
    var err := ReconcileOne(hosts, h, views[h], policy);
    ok := err.None?;
  }

  /** The loop of reconcileIdentityAssignment over the hosts. */
  method UpdateHosts(hosts: Hosts, views: map<HostKey, View>, policy: RetryPolicy) returns (ok: bool)
    requires ValidHosts(hosts)
    requires forall h :: h in views ==> h in hosts && Fold(views[h].current) == hosts[h].ids
    modifies hosts.Values
    ensures ValidHosts(hosts)
    ensures forall h :: h in hosts ==>
      Treated(if h in views then views[h].desired else {}, h in views, old(Look(hosts[h])), Look(hosts[h]))
    ensures ok ==> forall h :: h in views ==> Fold(views[h].desired) <= hosts[h].ids
  {
    ok := true;
    ghost var was := map h | h in hosts :: Look(hosts[h]);
    var todo := views.Keys;
    while todo != {}
      invariant UpdatedSoFar(hosts, views, was, todo, ok)
      decreases todo
    {
      var h :| h in todo;
      var updated := UpdateNext(hosts, views, policy, was, todo, ok, h);
      ok, todo := ok && updated, todo - {h};
    }
  }

  /** The identity of every Assigned record of a user-assigned identity on host `h` is among `ids`. */
  ghost predicate AllThere(lookup: NodeLookup, records: seq<AssignedID>, h: HostKey, ids: set<string>) {
    forall r :: r in records && r.status == Assigned && r.identity.kind == UserAssignedMSI ==>
      (HostOf(lookup, r.node) == h ==> Lower(r.identity.resourceID) in ids)
  }

  /** reconcileIdentityAssignment. */
  method ReconcileIdentityAssignment(lookup: NodeLookup, records: seq<AssignedID>, hosts: Hosts, policy: RetryPolicy)
    returns (ok: bool)
    requires ValidHosts(hosts)
    modifies hosts.Values
    ensures ValidHosts(hosts)
    ensures forall h :: h in hosts ==>
      HostReconciled(WantedOn(lookup, records, h), old(hosts[h].ids), hosts[h].ids, hosts[h].log == old(hosts[h].log))
    ensures forall h :: h in hosts && AllThere(lookup, records, h, old(hosts[h].ids)) ==>
      hosts[h].log == old(hosts[h].log)
    ensures (exists r :: r in records && (lookup(r.node).NotFound? || lookup(r.node).Broken?)) ==>
      !ok && forall h :: h in hosts ==> hosts[h].ids == old(hosts[h].ids) && hosts[h].log == old(hosts[h].log)
    ensures ok ==> forall r :: r in records && r.status == Assigned && r.identity.kind == UserAssignedMSI ==>
      HostOf(lookup, r.node) in hosts && Lower(r.identity.resourceID) in hosts[HostOf(lookup, r.node)].ids
    ensures forall h, id :: h in hosts && id in hosts[h].ids && id !in old(hosts[h].ids) ==>
      exists r :: r in records && r.status == Assigned && r.identity.kind == UserAssignedMSI
        && HostOf(lookup, r.node) == h && Lower(r.identity.resourceID) == id
  {
    var failed, views := GenerateState(lookup, records, hosts);
    if failed {
      return false;
    }
    ok := UpdateHosts(hosts, views, policy);
    forall h | h in hosts
      ensures
        HostReconciled(WantedOn(lookup, records, h), old(hosts[h].ids), hosts[h].ids, hosts[h].log == old(hosts[h].log))
    {
      assert Treated(if h in views then views[h].desired else {}, h in views, old(Look(hosts[h])), Look(hosts[h]));
    }
    forall r | r in records && Needed(r)
      ensures ok ==>
        HostOf(lookup, r.node) in hosts && Lower(r.identity.resourceID) in hosts[HostOf(lookup, r.node)].ids
    {
      assert r.identity.resourceID in WantedOn(lookup, records, HostOf(lookup, r.node));
    }
  }
}
