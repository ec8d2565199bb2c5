/** A whole sync cycle: diff, plan, consolidation and the concurrent protocol, put together. */
module SyncCycle {
  import opened Text
  import opened Records
  import opened CloudUpdate
  import opened Diff
  import opened Plan
  import opened Consolidate
  import opened Safety
  import opened Protocol
  import opened Desired

  /** The sequential part of Sync, from the two record maps to the work of every host. */
  method PlanCycle(env: Env, current: Table, desired: Table)
    returns (hosts: map<HostKey, Track>, ghost keys: set<string>)
    requires current != desired && WellKeyed(current.m) && WellKeyed(desired.m) && RefsCover(env, desired.m)
    requires forall k :: k in desired.m ==> desired.m[k].status == NoState
    modifies current, desired
    ensures current.m == old(current.m) && desired.m == old(desired.m)
    ensures NamesApart(keys, env.lookup) ==> Cycle(env, current.m, desired.m, keys, hosts).Valid()
  {
    var add, del, before, after := ComputeDiff(current, desired);
    ghost var cur, des := current.m, desired.m;
    var w := Work(add.m, del.m, before.m, after.m);
    DiffCovered(env, cur, des);
    var nm := PlanPerNode(env, w, desired.m);
    ghost var m := nm.m;
    keys := m.Keys;
    var gone, order, members := ConsolidateVMSSNodes(nm, env.lookup);
    hosts := HostsOf(nm.m, gone);
    if NamesApart(keys, env.lookup) {
      ConsolidationConservesWork(m, env.lookup, order, members, nm.m, w, ToAssign(w), ToRetire(env, w, des));
    }
  }

  function RecordsByName(list: seq<AssignedID>): AssignedMap {
    if list == [] then map[]
    else
      var r := list[|list| - 1];
      RecordsByName(list[..|list| - 1])[r.name := r]
  }

  /** Record `i` is the last of its name. */
  ghost predicate LastOfItsName(list: seq<AssignedID>, i: int) {
    0 <= i < |list| && forall j :: i < j < |list| ==> list[j].name != list[i].name
  }

  /** The names listed are those of the map, and of several records of one name the last listed counts. */
  lemma {:induction false} LastListedWins(list: seq<AssignedID>)
    ensures WellKeyed(RecordsByName(list))
    ensures forall r :: r in list ==> r.name in RecordsByName(list)
    ensures forall k :: k in RecordsByName(list) ==> RecordsByName(list)[k] in list
    ensures forall i :: LastOfItsName(list, i) ==> RecordsByName(list)[list[i].name] == list[i]
  {
    if list != [] {
      var n := |list| - 1;
      LastListedWins(list[..n]);
      assert list == list[..n] + [list[n]];
      forall i | LastOfItsName(list, i)
        ensures RecordsByName(list)[list[i].name] == list[i]
      {
        assert i < n ==> LastOfItsName(list[..n], i) && list[..n][i] == list[i];
      }
    }
  }

  /** ListAssignedIDsInMap. */
  method ListAssignedIDsInMap(list: seq<AssignedID>) returns (m: AssignedMap)
    ensures m == RecordsByName(list)
  {
    m := map[];
    for n := 0 to |list|
      invariant m == RecordsByName(list[..n])
    {
      assert list[..n + 1][..n] == list[..n];
      m := m[list[n].name := list[n]];
    }
    assert list[..|list|] == list;
  }

  /** The sequential part of Sync from the listed resources to the work of every host. */
  method PlanSync(isNamespaced: bool, valid: ResourceCheck, pods: seq<Pod>, bs: seq<Binding>, ids: seq<AzureIdentity>,
                  stored: seq<AssignedID>, lookup: NodeLookup, immutable: set<string>)
    returns (hosts: map<HostKey, Track>, ghost cycle: Cycle)
    ensures cycle.des == DesiredOf(isNamespaced, IdMapOf(valid, ids), bs, pods)
    ensures cycle.cur == RecordsByName(stored) && RefsExact(bs, pods, cycle.env.refs)
    ensures cycle.hosts == hosts && cycle.env.lookup == lookup && cycle.env.immutable == immutable
    ensures NamesApart(cycle.keys, lookup) ==> cycle.Valid()
  {
    var idMap := ConvertIDListToMap(valid, ids);
    var cur := ListAssignedIDsInMap(stored);
    var des, refs := CreateDesired(isNamespaced, pods, bs, idMap);
    var env := Env(lookup, refs, immutable);
    DesiredIsPlannable(isNamespaced, idMap, bs, pods, refs, env);
    LastListedWins(stored);
    var current := new Table(cur);
    var desired := new Table(des);
    ghost var keys;
    hosts, keys := PlanCycle(env, current, desired);
    cycle := Cycle(env, cur, des, keys, hosts);
  }

  lemma DiffCovered(env: Env, cur: AssignedMap, des: AssignedMap)
    requires WellKeyed(cur) && WellKeyed(des) && RefsCover(env, des)
    ensures WellFormed(DiffOf(cur, des)) && RefsCover(env, UseMap(DiffOf(cur, des), des))
  {
    DiffIsWellFormed(cur, des);
    forall k | k in UseMap(DiffOf(cur, des), des)
      ensures UseMap(DiffOf(cur, des), des)[k].node in env.refs
    {
      DiffShape(cur, des, k);
    }
  }

  // ------------------------------------------- the plan prepares the protocol

  /** The record at a position of a job list: where it comes from and on which host it is. */
  lemma JobSource(c: Cycle, h: HostKey, i: nat)
    requires c.Valid() && h in c.hosts && i < |Jobs(c.hosts[h])|
    ensures var (r, w) := (Jobs(c.hosts[h])[i], c.Diff());
      && c.Host(r) == h
      && (if i < |c.hosts[h].create| then r.name in w.create && w.create[r.name] == r
          else r.name in w.after && w.after[r.name] == r)
  {
    var r, t, nodes := Jobs(c.hosts[h])[i], c.hosts[h], NodesOn(c.keys, c.env.lookup, h);
    assert Planned(t, nodes, c.Diff(), ToAssign(c.Diff()), ToRetire(c.env, c.Diff(), c.des));
    assert if i < |t.create| then r in t.create else r in t.update;
    assert r.node in nodes;
  }

  lemma DeletionSource(c: Cycle, h: HostKey, i: nat)
    requires c.Valid() && h in c.hosts && i < |c.hosts[h].delete|
    ensures var (r, w) := (c.hosts[h].delete[i], c.Diff());
      c.Host(r) == h && r.name in w.delete && w.delete[r.name] == r
  {
    var t, nodes := c.hosts[h], NodesOn(c.keys, c.env.lookup, h);
    assert Planned(t, nodes, c.Diff(), ToAssign(c.Diff()), ToRetire(c.env, c.Diff(), c.des));
    assert t.delete[i] in t.delete;
    assert t.delete[i].node in nodes;
  }

  lemma SameJob(c: Cycle, h: HostKey, g: HostKey, i: nat, j: nat, n: string)
    requires c.Valid() && IsJob(c.hosts, h, i, n) && IsJob(c.hosts, g, j, n)
    ensures h == g && i == j
  {
    JobSource(c, h, i);
    JobSource(c, g, j);
    DiffIsWellFormed(c.cur, c.des);
    var t, w := c.hosts[h], c.Diff();
    assert i < |t.create| <==> j < |c.hosts[g].create|;
    assert h == g;
    assert Planned(t, NodesOn(c.keys, c.env.lookup, h), w, ToAssign(w), ToRetire(c.env, w, c.des));
  }

  lemma SameDeletion(c: Cycle, h: HostKey, g: HostKey, i: nat, j: nat, n: string)
    requires c.Valid() && IsDeletion(c.hosts, h, i, n) && IsDeletion(c.hosts, g, j, n)
    ensures h == g && i == j
  {
    DeletionSource(c, h, i);
    DeletionSource(c, g, j);
    assert h == g;
    var w := c.Diff();
    assert Planned(c.hosts[h], NodesOn(c.keys, c.env.lookup, h), w, ToAssign(w), ToRetire(c.env, w, c.des));
  }

  lemma CycleNamesOwned(c: Cycle)
    requires c.Valid()
    ensures NamesOwned(c.hosts)
  {
    forall h, g, i: nat, j: nat, n | IsJob(c.hosts, h, i, n) && IsJob(c.hosts, g, j, n)
      ensures h == g && i == j
    {
      SameJob(c, h, g, i, j, n);
    }
    forall h, g, i: nat, j: nat, n | IsDeletion(c.hosts, h, i, n) && IsDeletion(c.hosts, g, j, n)
      ensures h == g && i == j
    {
      SameDeletion(c, h, g, i, j, n);
    }
    forall h, g, i: nat, j: nat, n | IsJob(c.hosts, h, i, n)
      ensures !IsDeletion(c.hosts, g, j, n)
    {
      JobSource(c, h, i);
      DiffIsWellFormed(c.cur, c.des);
      if IsDeletion(c.hosts, g, j, n) {
        DeletionSource(c, g, j);
      }
    }
  }

  /** A job is a desired record not yet written, or a stored one in state Created. */
  lemma JobStatus(c: Cycle, h: HostKey, i: nat)
    requires c.Valid() && h in c.hosts && i < |Jobs(c.hosts[h])|
    ensures var r := Jobs(c.hosts[h])[i];
      || r.status == NoState
      || (r.status == Created && r.name in c.cur && c.cur[r.name] == r)
    ensures var r := Jobs(c.hosts[h])[i]; r.IsMSI() ==> r.identity.resourceID in c.hosts[h].add
  {
    var r, w := Jobs(c.hosts[h])[i], c.Diff();
    JobSource(c, h, i);
    DiffShape(c.cur, c.des, r.name);
    DiffIsWellFormed(c.cur, c.des);
    if r.IsMSI() {
      assert NeedsAssignment(r);
      assert r.name in ToAssign(w) && ToAssign(w)[r.name] == r;
      OnHostIff(c, h, r.identity.resourceID, ToAssign(w));
      assert Planned(c.hosts[h], NodesOn(c.keys, c.env.lookup, h), w, ToAssign(w), ToRetire(c.env, w, c.des));
    }
  }

  /** Record `r` has the identity and the node of the desired or the stored record of name `k`. */
  ghost predicate TakenAfter(c: Cycle, k: string, r: AssignedID) {
    || (k in c.des && r.identity == c.des[k].identity && r.node == c.des[k].node)
    || (k in c.cur && r.identity == c.cur[k].identity && r.node == c.cur[k].node)
  }

  lemma AssignedSource(c: Cycle, k: string)
    requires c.Valid() && k in ToAssign(c.Diff())
    ensures ToAssign(c.Diff())[k].IsMSI() && TakenAfter(c, k, ToAssign(c.Diff())[k])
  {
    PlanSources(c.env, c.Diff(), c.des);
    DiffShape(c.cur, c.des, k);
  }

  lemma CoherentSpelling(c: Cycle, h: HostKey, j: string, k: string, r: AssignedID)
    requires c.CoherentOn(h) && j in c.cur && c.Host(c.cur[j]) == h && c.cur[j].IsMSI()
    requires TakenAfter(c, k, r) && c.Host(r) == h && r.IsMSI()
    ensures OneSpelling(c.cur[j], r)
  {
    assert k in c.des && c.Host(c.des[k]) == h ==> OneSpelling(c.cur[j], c.des[k]);
    assert k in c.cur && c.Host(c.cur[k]) == h ==> OneSpelling(c.cur[j], c.cur[k]);
  }

  /** On a coherent host, an added and a retired record of one identity have one spelling of it. */
  lemma AddedRetiredAgree(c: Cycle, h: HostKey, k: string, j: string)
    requires c.Valid() && c.CoherentOn(h) && k in ToAssign(c.Diff()) && j in ToRetire(c.env, c.Diff(), c.des)
    requires c.Host(ToAssign(c.Diff())[k]) == h && c.Host(ToRetire(c.env, c.Diff(), c.des)[j]) == h
    ensures OneSpelling(ToRetire(c.env, c.Diff(), c.des)[j], ToAssign(c.Diff())[k])
    ensures ToRetire(c.env, c.Diff(), c.des)[j].IsMSI() && ToAssign(c.Diff())[k].IsMSI()
  {
    RetiringRecord(c, j);
    AssignedSource(c, k);
    CoherentSpelling(c, h, j, k, ToAssign(c.Diff())[k]);
  }

  lemma CycleCompatible(c: Cycle, h: HostKey)
    requires c.Valid() && c.CoherentOn(h) && h in c.hosts
    ensures Compatible(Elements(c.hosts[h].add), Elements(c.hosts[h].remove))
  {
    var t, w := c.hosts[h], c.Diff();
    var nodes, assign, retire := NodesOn(c.keys, c.env.lookup, h), ToAssign(w), ToRetire(c.env, w, c.des);
    assert Planned(t, nodes, w, assign, retire);
    forall a, r | a in Elements(t.add) && r in Elements(t.remove) - Elements(t.add)
      ensures Lower(a) != Lower(r)
    {
      assert HasId(assign, nodes, a) && HasId(retire, nodes, r);
      var k :| k in assign && assign[k].node in nodes && assign[k].identity.resourceID == a;
      var j :| j in retire && retire[j].node in nodes && retire[j].identity.resourceID == r;
      AddedRetiredAgree(c, h, k, j);
    }
  }

  /** On a coherent host no identity of a job is disputed. */
  lemma CoherentIsUndisputed(c: Cycle, h: HostKey, i: nat)
    requires c.Valid() && h in c.hosts && i < |Jobs(c.hosts[h])| && Jobs(c.hosts[h])[i].IsMSI() && c.CoherentOn(h)
    ensures Undisputed(c.hosts[h], Jobs(c.hosts[h])[i])
  {
    CycleCompatible(c, h);
    JobStatus(c, h, i);
    assert Jobs(c.hosts[h])[i].identity.resourceID in Elements(c.hosts[h].add);
  }

  lemma CyclePrepared(c: Cycle)
    requires c.Valid()
    ensures Prepared(c.hosts, c.cur)
  {
    CycleNamesOwned(c);
    forall h | h in c.hosts
      ensures TrackSound(c.hosts[h])
    {
      forall r | r in Jobs(c.hosts[h])
        ensures r.status == NoState || r.status == Created
        ensures r.IsMSI() ==> r.identity.resourceID in c.hosts[h].add
      {
        var i :| 0 <= i < |Jobs(c.hosts[h])| && Jobs(c.hosts[h])[i] == r;
        JobStatus(c, h, i);
      }
    }
    forall h, i: nat, n | IsJob(c.hosts, h, i, n) && Jobs(c.hosts[h])[i].status == Created
      ensures n in c.cur && c.cur[n] == Jobs(c.hosts[h])[i]
    {
      JobStatus(c, h, i);
    }
  }

  lemma CycleFits(c: Cycle)
    requires c.Valid()
    ensures Fits(c.hosts, c.cur)
  {
    forall h, i: nat, n | IsJob(c.hosts, h, i, n) && Jobs(c.hosts[h])[i].status == NoState
      ensures n in c.cur <==> i >= |c.hosts[h].create|
    {
      JobSource(c, h, i);
      DiffShape(c.cur, c.des, n);
    }
    forall h, i: nat, n | IsDeletion(c.hosts, h, i, n)
      ensures n in c.cur
    {
      DeletionSource(c, h, i);
      DiffShape(c.cur, c.des, n);
    }
  }

  // ------------------------------------------------------------- the theorems

  /** Removal safety, end to end: through every run of the cycle, whatever fails and however it interleaves, a desired
      record's identity that was on its VM or scale set stays there, if the in-use check can tell that it is needed. */
  lemma DesiredIdentityStays(c: Cycle, cfg: Config, ws: seq<World>, es: seq<Event>, i: nat, k: string)
    requires c.Valid() && k in c.des && c.des[k].IsMSI() && c.ClaimSeen(k)
    requires cfg.batch >= 0 && Run(cfg, ws, es) && Initial(cfg, ws[0], c.hosts) && i < |ws|
    requires c.Host(c.des[k]) in ws[0].cloud && OnHost(c.des[k], ws[0].cloud[c.Host(c.des[k])])
    ensures c.Host(c.des[k]) in ws[i].cloud && OnHost(c.des[k], ws[i].cloud[c.Host(c.des[k])])
  {
    var h := c.Host(c.des[k]);
    if h in c.hosts {
      DesiredIdentityIsNotDoomed(c, k);
      OnlyDoomedIsRemoved(cfg, c.hosts, ws, es, i, h);
      RunDisciplined(cfg, c.hosts, ws, es, i);
    } else {
      IdleHostsUntouched(cfg, c.hosts, ws, es, i, h);
    }
  }

  /** A cycle about to run in world `w`. */
  ghost predicate Starts(c: Cycle, cfg: Config, w: World) {
    c.Valid() && cfg.batch >= 1 && Initial(cfg, w, c.hosts) && w.store == c.cur
  }

  /** The cycle takes identity `id` from host `h`: some stored record takes it away with it. */
  ghost predicate Loses(c: Cycle, h: HostKey, id: string) {
    h in c.hosts && !h.Gone? && exists j :: Takes(c, h, j) && Lower(c.cur[j].identity.resourceID) == id
  }

  lemma UntouchedStays(c: Cycle, cfg: Config, w: World, h: HostKey, id: string)
    requires Starts(c, cfg, w) && h in w.cloud && id in w.cloud[h] && (h in c.hosts ==> h.Gone?)
    ensures AlwaysOn(cfg, w, h, id)
  {
    forall v | Reaches(cfg, w, v)
      ensures h in v.cloud && id in v.cloud[h]
    {
      var ws: seq<World>, es: seq<Event>, i: int :| Passes(cfg, w, v, ws, es, i);
      if h in c.hosts {
        GoneHostsUntouched(cfg, c.hosts, ws, es, i, h);
      } else {
        IdleHostsUntouched(cfg, c.hosts, ws, es, i, h);
      }
    }
  }

  /** Removal safety, exactly and without hypotheses on the cluster: an identity of any host stays there through every
      run of the cycle if and only if no stored record takes it away with it. */
  lemma IdentityStaysIff(c: Cycle, cfg: Config, w: World, h: HostKey, id: string)
    requires Starts(c, cfg, w) && h in w.cloud && id in w.cloud[h]
    ensures AlwaysOn(cfg, w, h, id) <==> !Loses(c, h, id)
  {
    if h in c.hosts && !h.Gone? {
      CyclePrepared(c);
      CycleFits(c);
      StaysIffNotDoomed(cfg, c.hosts, w, h, id);
      DoomedIff(c, h, id);
    } else {
      UntouchedStays(c, cfg, w, h, id);
    }
  }

  /** Marking soundness, end to end: a record this cycle wrote and that is marked Assigned has its identity on its host,
      if that is not to be removed there under another spelling, as on every coherent host. */
  lemma CycleMarksSoundly(c: Cycle, cfg: Config, ws: seq<World>, es: seq<Event>, i: nat, h: HostKey, j: nat)
    requires c.Valid()
    requires cfg.batch >= 0 && Run(cfg, ws, es) && Initial(cfg, ws[0], c.hosts) && ws[0].store == c.cur && i < |ws|
    requires h in c.hosts && j < |Jobs(c.hosts[h])| && h in ws[i].procs && h in ws[i].cloud
    requires ws[i].procs[h].track == c.hosts[h] && Written(ws[i].procs[h], j)
    ensures var r := Jobs(c.hosts[h])[j];
      && c.Host(r) == h
      && r.name in ws[i].store && ws[i].store[r.name] == r.(status := ws[i].store[r.name].status)
      && (ws[i].store[r.name].status == Assigned && r.IsMSI() && (c.CoherentOn(h) || Undisputed(c.hosts[h], r)) ==>
            OnHost(r, ws[i].cloud[h]))
  {
    CyclePrepared(c);
    JobSource(c, h, j);
    MarkedIsAssigned(cfg, c.hosts, ws, es, i, h, j);
    if c.CoherentOn(h) && Jobs(c.hosts[h])[j].IsMSI() {
      CoherentIsUndisputed(c, h, j);
    }
  }

  /** Marking soundness, exactly: no run of the cycle leaves an MSI record it wrote Assigned without its identity if and
      only if no stored record takes the identity away with it. */
  lemma CycleMarksSoundlyIff(c: Cycle, cfg: Config, w: World, h: HostKey, j: nat)
    requires Starts(c, cfg, w) && h in c.hosts && !h.Gone? && j < |Jobs(c.hosts[h])| && Jobs(c.hosts[h])[j].IsMSI()
    ensures AlwaysMarkedRight(cfg, w, h, j) <==> !Loses(c, h, Lower(Jobs(c.hosts[h])[j].identity.resourceID))
  {
    CyclePrepared(c);
    CycleFits(c);
    MarkedRightIff(cfg, c.hosts, w, h, j);
    DoomedIff(c, h, Lower(Jobs(c.hosts[h])[j].identity.resourceID));
  }

  /** The records on host `h` spell the identity of stored record `k` as `k` does, and give it the same client ID. */
  ghost predicate SpelledLike(c: Cycle, h: HostKey, k: string)
    requires k in c.cur
  {
    forall j :: j in c.cur && c.Host(c.cur[j]) == h ==> OneSpelling(c.cur[j], c.cur[k])
  }

  /** Stored MSI records of immutable client IDs are never given up, so their identities stay where they are, whether or
      not anything still wants them there. */
  lemma ImmutableIsNotDoomed(c: Cycle, h: HostKey, k: string)
    requires c.Valid() && h in c.hosts && k in c.cur && c.cur[k].IsMSI() && SpelledLike(c, h, k)
    requires c.cur[k].identity.clientID in c.env.immutable
    ensures Lower(c.cur[k].identity.resourceID) !in Doomed(c.hosts[h])
  {
    var id := Lower(c.cur[k].identity.resourceID);
    forall j | Takes(c, h, j)
      ensures Lower(c.cur[j].identity.resourceID) != id
    {
      assert OneSpelling(c.cur[j], c.cur[k]);
    }
    DoomedIff(c, h, id);
  }

  /** An identity that is configured as immutable, and spelled in lower case in the records, is never taken from a
      host. */
  lemma ImmutableIdentityStays(c: Cycle, cfg: Config, ws: seq<World>, es: seq<Event>, i: nat, h: HostKey, k: string,
                               items: seq<string>, clusterIdentity: string)
    requires c.Valid() && c.env.immutable == ImmutableIds(items, clusterIdentity)
    requires cfg.batch >= 0 && Run(cfg, ws, es) && Initial(cfg, ws[0], c.hosts) && i < |ws|
    requires k in c.cur && c.cur[k].IsMSI() && SpelledLike(c, h, k)
    requires h in ws[0].cloud && OnHost(c.cur[k], ws[0].cloud[h])
    requires c.cur[k].identity.clientID == clusterIdentity != "" || c.cur[k].identity.clientID in Fold(Elements(items))
    ensures h in ws[i].cloud && OnHost(c.cur[k], ws[i].cloud[h])
  {
    if h in c.hosts {
      ImmutableIsNotDoomed(c, h, k);
      OnlyDoomedIsRemoved(cfg, c.hosts, ws, es, i, h);
      RunDisciplined(cfg, c.hosts, ws, es, i);
    } else {
      IdleHostsUntouched(cfg, c.hosts, ws, es, i, h);
    }
  }

  /** The host of a record of the diff lists it. */
  lemma RecordIsListed(c: Cycle, m: AssignedMap, n: string)
    requires c.Valid() && n in m && m[n].name == n
    requires m == c.Diff().create || m == c.Diff().after || m == c.Diff().delete
    ensures var h := c.Host(m[n]);
      && h in c.hosts
      && (m == c.Diff().create ==> m[n] in c.hosts[h].create)
      && (m == c.Diff().after ==> m[n] in c.hosts[h].update)
      && (m == c.Diff().delete ==> m[n] in c.hosts[h].delete)
  {
    var w, r := c.Diff(), m[n];
    var h := c.Host(r);
    assert OnNode(m, r.node);
    assert r.node in NodesOn(c.keys, c.env.lookup, h);
    assert Planned(c.hosts[h], NodesOn(c.keys, c.env.lookup, h), w, ToAssign(w), ToRetire(c.env, w, c.des));
  }

  lemma CreateIsJob(c: Cycle, n: string) returns (h: HostKey, i: nat)
    requires c.Valid() && n in c.Diff().create
    ensures IsJob(c.hosts, h, i, n) && i < |c.hosts[h].create|
  {
    DiffIsWellFormed(c.cur, c.des);
    var m := c.Diff().create;
    RecordIsListed(c, m, n);
    h := c.Host(m[n]);
    i :| 0 <= i < |c.hosts[h].create| && c.hosts[h].create[i] == m[n];
    assert Jobs(c.hosts[h])[i] == m[n];
  }

  lemma UpdateIndex(t: Track, u: nat)
    requires u < |t.update|
    ensures |t.create| + u < |Jobs(t)| && Jobs(t)[|t.create| + u] == t.update[u]
  {
  }

  lemma UpdateIsJob(c: Cycle, n: string) returns (h: HostKey, i: nat)
    requires c.Valid() && n in c.Diff().after
    ensures IsJob(c.hosts, h, i, n) && i >= |c.hosts[h].create|
  {
    DiffIsWellFormed(c.cur, c.des);
    var m := c.Diff().after;
    RecordIsListed(c, m, n);
    h := c.Host(m[n]);
    var u :| 0 <= u < |c.hosts[h].update| && c.hosts[h].update[u] == m[n];
    i := |c.hosts[h].create| + u;
    UpdateIndex(c.hosts[h], u);
  }

  lemma RecordIsDeletion(c: Cycle, n: string) returns (h: HostKey, i: nat)
    requires c.Valid() && n in c.Diff().delete
    ensures IsDeletion(c.hosts, h, i, n)
  {
    DiffIsWellFormed(c.cur, c.des);
    var m := c.Diff().delete;
    RecordIsListed(c, m, n);
    h := c.Host(m[n]);
    i :| 0 <= i < |c.hosts[h].delete| && c.hosts[h].delete[i] == m[n];
  }

  /** A record outside the diff is nobody's work. */
  lemma OtherRecordsUnowned(c: Cycle, n: string)
    requires c.Valid() && n !in c.Diff().create && n !in c.Diff().after && n !in c.Diff().delete
    ensures Unowned(c.hosts, n)
  {
    forall h, i: nat
      ensures !IsJob(c.hosts, h, i, n) && !IsDeletion(c.hosts, h, i, n)
    {
      if IsJob(c.hosts, h, i, n) {
        JobSource(c, h, i);
      }
      if IsDeletion(c.hosts, h, i, n) {
        DeletionSource(c, h, i);
      }
    }
  }

  /** A run of the cycle in which nothing fails, to its end. */
  ghost predicate CleanRun(c: Cycle, cfg: Config, ws: seq<World>, es: seq<Event>) {
    && cfg.batch >= 0 && Run(cfg, ws, es) && Initial(cfg, ws[0], c.hosts) && ws[0].store == c.cur
    && NoFailures(es) && AllStopped(ws[|es|])
  }

  ghost predicate NodesExist(c: Cycle) {
    forall k :: k in c.des ==> !c.env.lookup(c.des[k].node).NotFound?
  }

  /** A written record ends up Assigned. */
  lemma FinalJob(c: Cycle, cfg: Config, ws: seq<World>, es: seq<Event>, h: HostKey, i: nat)
    requires c.Valid() && CleanRun(c, cfg, ws, es)
    requires h in c.hosts && i < |Jobs(c.hosts[h])| && !h.Gone?
    ensures var r := Jobs(c.hosts[h])[i]; r.name in ws[|es|].store && ws[|es|].store[r.name] == r.(status := Assigned)
  {
    CyclePrepared(c);
    FinishedJobIsAssigned(cfg, c.hosts, ws, es, h, i);
  }

  /** Jobs of a cycle whose nodes exist are not on missing nodes. */
  lemma JobNotGone(c: Cycle, h: HostKey, i: nat)
    requires c.Valid() && NodesExist(c) && h in c.hosts && i < |Jobs(c.hosts[h])|
    ensures !h.Gone?
  {
    JobSource(c, h, i);
    DiffShape(c.cur, c.des, Jobs(c.hosts[h])[i].name);
  }

  lemma FinalDeletion(c: Cycle, cfg: Config, ws: seq<World>, es: seq<Event>, n: string)
    requires c.Valid() && CleanRun(c, cfg, ws, es) && n in c.Diff().delete
    ensures n !in ws[|es|].store
  {
    var h, i := RecordIsDeletion(c, n);
    DiffShape(c.cur, c.des, n);
    CycleNamesOwned(c);
    FinishedDeletionIsGone(cfg, c.hosts, ws, es, h, i);
  }

  lemma FinalWritten(c: Cycle, cfg: Config, ws: seq<World>, es: seq<Event>, h: HostKey, i: nat, n: string)
    requires c.Valid() && CleanRun(c, cfg, ws, es) && NodesExist(c)
    requires IsJob(c.hosts, h, i, n)
    ensures var w := c.Diff();
      && (if i < |c.hosts[h].create| then n in w.create else n in w.after)
      && n in ws[|es|].store
      && ws[|es|].store[n] == (if i < |c.hosts[h].create| then w.create[n] else w.after[n]).(status := Assigned)
  {
    JobSource(c, h, i);
    JobNotGone(c, h, i);
    FinalJob(c, cfg, ws, es, h, i);
  }

  /** What a run without failures leaves of a record. */
  lemma FinalRecord(c: Cycle, cfg: Config, ws: seq<World>, es: seq<Event>, n: string)
    requires c.Valid() && CleanRun(c, cfg, ws, es) && NodesExist(c)
    ensures SameAt(Final(c.cur, c.Diff()), ws[|es|].store, n)
  {
    var w := c.Diff();
    DiffShape(c.cur, c.des, n);
    if n in w.create {
      var h, i := CreateIsJob(c, n);
      FinalWritten(c, cfg, ws, es, h, i, n);
    } else if n in w.after {
      var h, i := UpdateIsJob(c, n);
      FinalWritten(c, cfg, ws, es, h, i, n);
    } else if n in w.delete {
      FinalDeletion(c, cfg, ws, es, n);
    } else {
      OtherRecordsUnowned(c, n);
      RunUnowned(cfg, c.hosts, ws, es, |es|, n);
    }
  }

  lemma SameEverywhere(a: AssignedMap, b: AssignedMap)
    requires forall n :: SameAt(a, b, n)
    ensures a == b
  {
    forall n
      ensures n in a <==> n in b
      ensures n in a ==> a[n] == b[n]
    {
      assert SameAt(a, b, n);
    }
  }

  lemma CycleEndsFinal(c: Cycle, cfg: Config, ws: seq<World>, es: seq<Event>)
    requires c.Valid() && CleanRun(c, cfg, ws, es) && NodesExist(c)
    ensures ws[|es|].store == Final(c.cur, c.Diff())
  {
    var f, store := Final(c.cur, c.Diff()), ws[|es|].store;
    forall n
      ensures SameAt(f, store, n)
    {
      FinalRecord(c, cfg, ws, es, n);
    }
    SameEverywhere(f, store);
  }

  /** Convergence: if nothing fails and every node exists, the cycle ends with the desired records in the store, and a
      cycle on the same inputs then has no work for any host, so makes no cloud call. */
  lemma CycleConverges(c: Cycle, cfg: Config, ws: seq<World>, es: seq<Event>, next: Cycle)
    requires c.Valid() && CleanRun(c, cfg, ws, es) && NodesExist(c)
    requires next.Valid() && next.cur == ws[|es|].store && next.des == c.des
    ensures ws[|es|].store == Final(c.cur, c.Diff())
    ensures ws[|es|].store.Keys == c.des.Keys && forall n :: n in c.des ==>
      && ws[|es|].store[n].binding.name == c.des[n].binding.name
      && ws[|es|].store[n].binding.resourceVersion == c.des[n].binding.resourceVersion
      && ws[|es|].store[n].identity.name == c.des[n].identity.name
      && ws[|es|].store[n].identity.resourceVersion == c.des[n].identity.resourceVersion
      && ws[|es|].store[n].pod == c.des[n].pod && ws[|es|].store[n].podNamespace == c.des[n].podNamespace
      && ws[|es|].store[n].node == c.des[n].node
    ensures next.Diff() == IDLE && next.hosts == map[]
  {
    CycleEndsFinal(c, cfg, ws, es);
    Converges(c.cur, c.des);
    IdleHasNoHosts(next);
  }

  /** Every planned cycle has a run in which nothing fails, from every start, so convergence is not an empty promise. */
  lemma CycleCanBeClean(c: Cycle, cfg: Config, w: World) returns (ws: seq<World>, es: seq<Event>)
    requires Starts(c, cfg, w)
    ensures ws != [] && ws[0] == w && CleanRun(c, cfg, ws, es)
    ensures NodesExist(c) ==> ws[|es|].store == Final(c.cur, c.Diff())
  {
    CyclePrepared(c);
    CycleFits(c);
    ws, es := CleanRunExists(cfg, c.hosts, w);
    if NodesExist(c) {
      CycleEndsFinal(c, cfg, ws, es);
    }
  }

  lemma IdleHasNoHosts(c: Cycle)
    requires c.Valid() && c.Diff() == IDLE
    ensures c.hosts == map[]
  {
    assert forall n :: n in c.keys ==> Busy(IDLE, n);
    assert c.keys == {};
  }

  /** A record that a cycle marked Unassigned but failed to delete: as long as it is not desired again, the next cycle
      deletes it and leaves the identities of its host alone. */
  lemma RetiredOnce(c: Cycle, cfg: Config, ws: seq<World>, es: seq<Event>, t: nat, h: HostKey, j: nat, ok: bool,
                    next: Cycle)
    requires c.Valid() && cfg.batch >= 0 && Run(cfg, ws, es) && Initial(cfg, ws[0], c.hosts)
    requires t < |es| && es[t] == Event(h, Finish(Retire(j), ok, true))
    requires next.Valid() && next.cur == ws[|es|].store
    ensures h in c.hosts && j < |c.hosts[h].delete|
    ensures var n := c.hosts[h].delete[j].name;
      && n in c.cur && n !in c.des
      && (n in next.cur ==> next.cur[n].status == Unassigned && n !in ToRetire(next.env, next.Diff(), next.des))
      && (n in next.cur && n !in next.des ==> n in next.Diff().delete && next.Diff().delete[n] == next.cur[n])
  {
    CycleNamesOwned(c);
    RetiredStaysUnassigned(cfg, c.hosts, ws, es, t, |es|, h, j, ok);
    DeletionIsStored(c, h, j);
    UnassignedIsOnlyDeleted(next, c.hosts[h].delete[j].name);
  }

  lemma DeletionIsStored(c: Cycle, h: HostKey, j: nat)
    requires c.Valid() && h in c.hosts && j < |c.hosts[h].delete|
    ensures c.hosts[h].delete[j].name in c.cur && c.hosts[h].delete[j].name !in c.des
  {
    DeletionSource(c, h, j);
    DiffShape(c.cur, c.des, c.hosts[h].delete[j].name);
  }

  lemma UnassignedIsOnlyDeleted(c: Cycle, n: string)
    requires c.Valid() && (n in c.cur ==> c.cur[n].status == Unassigned)
    ensures n !in ToRetire(c.env, c.Diff(), c.des)
    ensures n in c.cur && n !in c.des ==> n in c.Diff().delete && c.Diff().delete[n] == c.cur[n]
  {
    RetiredIff(c, n);
    DiffShape(c.cur, c.des, n);
  }

  // ----------------------------------------------- a failed update, marked anyway

  /** The work of a cycle that replaces the one stored record `x` by `y` on a VM. */
  function ReplacingTrack(x: AssignedID, y: AssignedID): Track {
    Track([y.identity.resourceID], [x.identity.resourceID], [], [], [Updated(x, y)], false)
  }

  function ReplacingCycle(env: Env, x: AssignedID, y: AssignedID): Cycle {
    Cycle(env, map[x.name := x], map[x.name := y], {x.node}, map[Vm(x.node) := ReplacingTrack(x, y)])
  }

  /** Record `x` of a pod on a VM is to get another identity. */
  ghost predicate Replaces(env: Env, x: AssignedID, y: AssignedID) {
    && x.name == y.name && x.node == y.node && x.pod == y.pod && x.IsMSI() && y.IsMSI() && !Matches(x, y)
    && (x.status == Assigned || x.status == NoState) && y.status == NoState
    && Lower(x.identity.resourceID) != Lower(y.identity.resourceID) && x.identity.clientID !in env.immutable
    && env.lookup(x.node).Standalone? && env.refs == {x.node}
  }

  /** What the diff has under each name. */
  lemma ReplacingAt(env: Env, x: AssignedID, y: AssignedID, n: string)
    requires Replaces(env, x, y)
    ensures var w := ReplacingCycle(env, x, y).Diff();
      && n !in w.create && n !in w.delete && (n in w.before <==> n == x.name) && (n in w.after <==> n == x.name)
      && (n == x.name ==> w.before[n] == x && w.after[n] == Updated(x, y))
  {
    DiffShape(map[x.name := x], map[x.name := y], n);
  }

  lemma ReplacingDiff(env: Env, x: AssignedID, y: AssignedID)
    requires Replaces(env, x, y)
    ensures ReplacingCycle(env, x, y).Diff() == Work(map[], map[], map[x.name := x], map[x.name := Updated(x, y)])
  {
    forall n {
      ReplacingAt(env, x, y, n);
    }
    var w := ReplacingCycle(env, x, y).Diff();
    assert w.create == map[] && w.delete == map[];
    assert w.before == map[x.name := x] && w.after == map[x.name := Updated(x, y)];
  }

  lemma ReplacingIds(env: Env, x: AssignedID, y: AssignedID)
    requires Replaces(env, x, y)
    ensures var (c, u) := (ReplacingCycle(env, x, y), Updated(x, y));
      ToAssign(c.Diff()) == map[x.name := u] && ToRetire(env, c.Diff(), c.des) == map[x.name := x]
  {
    ReplacingDiff(env, x, y);
    var u, none: AssignedMap := Updated(x, y), map[];
    AssigningOne(none, x.name, u);
    assert Assigning(none) == none;
    var use := UseMap(ReplacingCycle(env, x, y).Diff(), map[x.name := y]);
    assert use == map[x.name := u];
    RetiringOne(env, use, none, x.name, x);
    assert Retiring(env, use, none) == none;
  }

  lemma OneId(rid: string, r: AssignedID, nodes: set<string>)
    requires r.node in nodes && r.identity.resourceID == rid
    ensures ListsIds([rid], map[r.name := r], nodes)
  {
    var m := map[r.name := r];
    assert r.name in m && m[r.name] == r;
    assert forall id :: id in [rid] <==> id == rid;
  }

  lemma OneRecord(r: AssignedID, nodes: set<string>)
    requires r.node in nodes
    ensures Lists([r], map[r.name := r], nodes) && Lists([], map[], nodes)
  {
    assert forall x :: x in [r] <==> x == r;
  }

  lemma ReplacingIsCoherent(env: Env, x: AssignedID, y: AssignedID)
    requires Replaces(env, x, y)
    ensures ReplacingCycle(env, x, y).IdentitiesCoherent()
  {
  }

  lemma ReplacingIsPlanned(env: Env, x: AssignedID, y: AssignedID)
    requires Replaces(env, x, y)
    ensures ReplacingCycle(env, x, y).Valid()
  {
    var c, u := ReplacingCycle(env, x, y), Updated(x, y);
    var nodes := NodesOn(c.keys, env.lookup, Vm(x.node));
    assert nodes == {x.node};
    ReplacingDiff(env, x, y);
    ReplacingIds(env, x, y);
    OneRecord(u, nodes);
    OneId(y.identity.resourceID, u, nodes);
    OneId(x.identity.resourceID, x, nodes);
    var w, assign, retire := c.Diff(), ToAssign(c.Diff()), ToRetire(env, c.Diff(), c.des);
    assert Planned(ReplacingTrack(x, y), nodes, w, assign, retire);
    OnlyHostPlanned(c.hosts, x.node, env.lookup, w, assign, retire);
  }

  lemma OnlyHostPlanned(hosts: map<HostKey, Track>, n: string, lookup: NodeLookup, w: Work, assign: AssignedMap,
                        retire: AssignedMap)
    requires hosts.Keys == {HostOf(lookup, n)} && OnNode(w.before, n)
    requires Planned(hosts[HostOf(lookup, n)], NodesOn({n}, lookup, HostOf(lookup, n)), w, assign, retire)
    requires forall k ::
      OnNode(w.create, k) || OnNode(w.delete, k) || OnNode(w.after, k) || OnNode(retire, k) ==> k == n
    ensures PlannedPerHost(hosts, {n}, lookup, w, assign, retire)
  {
    assert n in NodesOn({n}, lookup, HostOf(lookup, n));
  }

  /** What host `h` and the store look like in world `w`. */
  ghost predicate Looks(w: World, h: HostKey, p: Proc, ids: set<string>, store: AssignedMap) {
    h in w.procs && h in w.cloud && w.procs[h] == p && w.cloud[h] == ids && w.store == store
  }

  lemma RunOn(cfg: Config, ws: seq<World>, es: seq<Event>, h: HostKey, p: Proc, ids: set<string>, store: AssignedMap,
              mv: Move) returns (ws': seq<World>, es': seq<Event>, q: Proc)
    requires Run(cfg, ws, es) && Looks(ws[|es|], h, p, ids, store) && CanMove(cfg, p, ids, store, mv)
    ensures Run(cfg, ws', es') && ws'[0] == ws[0] && q == MoveProc(cfg, p, mv)
    ensures Looks(ws'[|es'|], h, q, MoveCloud(ids, mv), MoveStore(cfg, p, store, mv))
  {
    RunExtended(cfg, ws, es, h, mv);
    ws', es', q := ws + [Step(cfg, ws[|es|], h, mv)], es + [Event(h, mv)], MoveProc(cfg, p, mv);
  }

  /** A host with one update, whose write fails, comes to its cloud call. */
  lemma FailedWriteRun(cfg: Config, w: World, h: HostKey, t: Track)
    returns (ws: seq<World>, es: seq<Event>, p: Proc)
    requires cfg.batch >= 1 && Initial(cfg, w, map[h := t]) && !h.Gone?
    requires |Jobs(t)| == 1 && Jobs(t)[0].status == NoState && Jobs(t)[0].name in w.store
    ensures Run(cfg, ws, es) && ws[0] == w && h in w.cloud && p.track == t && p.stage == Calling && p.flight == {}
    ensures Looks(ws[|es|], h, p, w.cloud[h], w.store)
  {
    var ids := w.cloud[h];
    p := w.procs[h];
    ws, es := [w], [];
    ws, es, p := RunOn(cfg, ws, es, h, p, ids, w.store, Spawn);
    assert p == Proc(t, Writing, 1, {Write(0)}, cfg.batch - 1, {});
    ws, es, p := RunOn(cfg, ws, es, h, p, ids, w.store, Finish(Write(0), false, false));
    assert p == Proc(t, Writing, 1, {}, cfg.batch, {});
    ws, es, p := RunOn(cfg, ws, es, h, p, ids, w.store, Barrier);
  }

  /** Its cloud call and its status write succeed. */
  lemma FailedUpdateRun(cfg: Config, w: World, h: HostKey, t: Track) returns (ws: seq<World>, es: seq<Event>)
    requires cfg.batch >= 1 && Initial(cfg, w, map[h := t]) && !h.Gone?
    requires |Jobs(t)| == 1 && Jobs(t)[0].status == NoState && Jobs(t)[0].name in w.store
    ensures Run(cfg, ws, es) && ws[0] == w && h in w.cloud
    ensures exists p :: Looks(ws[|es|], h, p, Asked(t, w.cloud[h]), SetStatus(w.store, Jobs(t)[0].name, Assigned))
  {
    var p;
    ws, es, p := FailedWriteRun(cfg, w, h, t);
    var ids, asked := w.cloud[h], Asked(t, w.cloud[h]);
    ws, es, p := RunOn(cfg, ws, es, h, p, ids, w.store, Call(true, asked, false));
    assert p.track == t && p.stage == Marking && p.next == 0 && p.permits == cfg.batch && p.flight == {};
    ws, es, p := RunOn(cfg, ws, es, h, p, asked, w.store, Spawn);
    assert p.track == t && p.flight == {Mark(0)};
    ws, es, p := RunOn(cfg, ws, es, h, p, asked, w.store, Finish(Mark(0), true, true));
  }

  /** Its cloud call reports an error, and the error path finds the new identity and marks the old record. */
  lemma FailedCallRun(cfg: Config, w: World, h: HostKey, t: Track) returns (ws: seq<World>, es: seq<Event>)
    requires cfg.batch >= 1 && Initial(cfg, w, map[h := t]) && !h.Gone?
    requires |Jobs(t)| == 1 && Jobs(t)[0].status == NoState && Jobs(t)[0].name in w.store
    requires h in w.cloud && OnHost(Jobs(t)[0], Asked(t, w.cloud[h]))
    ensures Run(cfg, ws, es) && ws[0] == w && h in w.cloud
    ensures exists p :: Looks(ws[|es|], h, p, Asked(t, w.cloud[h]), SetStatus(w.store, Jobs(t)[0].name, Assigned))
  {
    var p;
    ws, es, p := FailedWriteRun(cfg, w, h, t);
    var ids, asked := w.cloud[h], Asked(t, w.cloud[h]);
    ws, es, p := RunOn(cfg, ws, es, h, p, ids, w.store, Call(false, asked, true));
    assert p.track == t && p.stage == Recovering(asked) && p.next == 0;
    ws, es, p := RunOn(cfg, ws, es, h, p, asked, w.store, Recover(true));
  }

  lemma ReplacementIsThere(x: AssignedID, y: AssignedID, ids: set<string>)
    requires Lower(x.identity.resourceID) != Lower(y.identity.resourceID)
    ensures OnHost(y, Asked(ReplacingTrack(x, y), ids))
  {
    var t := ReplacingTrack(x, y);
    assert y.identity.resourceID in Elements(t.add);
    assert Doomed(t) <= {Lower(x.identity.resourceID)};
  }

  lemma ReplacedIsGone(x: AssignedID, y: AssignedID, ids: set<string>)
    requires Lower(x.identity.resourceID) != Lower(y.identity.resourceID)
    ensures !OnHost(x, Asked(ReplacingTrack(x, y), ids))
  {
    var t := ReplacingTrack(x, y);
    assert x.identity.resourceID in Elements(t.remove) - Elements(t.add);
  }

  lemma ReplacingRun(env: Env, cfg: Config, x: AssignedID, y: AssignedID, cloud: map<HostKey, set<string>>, ok: bool)
    returns (ws: seq<World>, es: seq<Event>)
    requires Replaces(env, x, y) && cfg.batch >= 1 && Vm(x.node) in cloud
    ensures Run(cfg, ws, es) && Initial(cfg, ws[0], ReplacingCycle(env, x, y).hosts)
    ensures ws[0].store == map[x.name := x] && ws[0].cloud == cloud
    ensures ws[|es|].store == SetStatus(map[x.name := x], x.name, Assigned)
    ensures Vm(x.node) in ws[|es|].cloud && !OnHost(x, ws[|es|].cloud[Vm(x.node)])
  {
    var h, t := Vm(x.node), ReplacingTrack(x, y);
    var w := World(map[x.name := x], cloud, map[h := Proc(t, Writing, 0, {}, cfg.batch, {})]);
    assert Jobs(t) == [Updated(x, y)];
    if ok {
      ws, es := FailedUpdateRun(cfg, w, h, t);
    } else {
      ReplacementIsThere(x, y, cloud[h]);
      ws, es := FailedCallRun(cfg, w, h, t);
    }
    ReplacedIsGone(x, y, cloud[h]);
  }

  lemma SetOnly(x: AssignedID, s: Status)
    ensures SetStatus(map[x.name := x], x.name, s) == map[x.name := x.(status := s)]
  {
  }

  /** Whenever the identity of a record changes and the write of the new record fails, the cycle may go on, whether the
      cloud call reports success (`ok`) or not, and leave the old record marked Assigned, while its identity has been
      taken from the host. */
  lemma FailedUpdateIsMarked(env: Env, cfg: Config, x: AssignedID, y: AssignedID, cloud: map<HostKey, set<string>>,
                             ok: bool)
    returns (c: Cycle, ws: seq<World>, es: seq<Event>)
    requires Replaces(env, x, y) && cfg.batch >= 1 && Vm(x.node) in cloud
    ensures c.Valid() && c.IdentitiesCoherent() && c.cur == map[x.name := x] && c.des == map[x.name := y]
    ensures Run(cfg, ws, es) && Initial(cfg, ws[0], c.hosts) && ws[0].store == c.cur && ws[0].cloud == cloud
    ensures ws[|es|].store == map[x.name := x.(status := Assigned)]
    ensures Vm(x.node) in ws[|es|].cloud && !OnHost(x, ws[|es|].cloud[Vm(x.node)])
  {
    c := ReplacingCycle(env, x, y);
    ReplacingIsPlanned(env, x, y);
    ReplacingIsCoherent(env, x, y);
    ws, es := ReplacingRun(env, cfg, x, y, cloud, ok);
    SetOnly(x, Assigned);
  }

  // --------------------------------------------------------- cycle after cycle

  /** A cycle with one of its runs. */
  datatype Episode = Episode(cycle: Cycle, cfg: Config, ws: seq<World>, es: seq<Event>)
  {
    ghost predicate Valid() {
      cycle.Valid() && cfg.batch >= 0 && Run(cfg, ws, es) && Initial(cfg, ws[0], cycle.hosts)
    }

    /** Some desired record of this cycle has identity `id` on host `h`, and the in-use check can tell. */
    ghost predicate Desires(h: HostKey, id: string) {
      exists k :: Claims(k, h, id)
    }

    ghost predicate Claims(k: string, h: HostKey, id: string) {
      && k in cycle.des && cycle.des[k].IsMSI() && cycle.Host(cycle.des[k]) == h
      && Lower(cycle.des[k].identity.resourceID) == id && cycle.ClaimSeen(k)
    }

    ghost predicate HasAt(i: nat, h: HostKey, id: string) {
      i < |ws| && h in ws[i].cloud && id in ws[i].cloud[h]
    }
  }

  /** Between cycles identities are only added, as reconciliation does. */
  ghost predicate OnlyGrows(episodes: seq<Episode>, h: HostKey, id: string) {
    forall i {:trigger At(i)} :: 0 < i < |episodes| && At(i) ==>
      (episodes[i - 1].HasAt(|episodes[i - 1].es|, h, id) ==> episodes[i].HasAt(0, h, id))
  }

  ghost predicate AllDesire(episodes: seq<Episode>, h: HostKey, id: string) {
    forall i {:trigger At(i)} :: 0 <= i < |episodes| && At(i) ==> episodes[i].Valid() && episodes[i].Desires(h, id)
  }

  lemma EpisodeKeeps(e: Episode, h: HostKey, id: string, i: nat)
    requires e.Valid() && e.Desires(h, id) && e.HasAt(0, h, id) && i < |e.ws|
    ensures e.HasAt(i, h, id)
  {
    var k :| e.Claims(k, h, id);
    DesiredIdentityStays(e.cycle, e.cfg, e.ws, e.es, i, k);
  }

  lemma EpisodeKeepsAt(episodes: seq<Episode>, h: HostKey, id: string, n: nat, i: nat)
    requires AllDesire(episodes, h, id) && n < |episodes| && i < |episodes[n].ws| && episodes[n].HasAt(0, h, id)
    ensures episodes[n].HasAt(i, h, id)
  {
    assert At(n);
    EpisodeKeeps(episodes[n], h, id, i);
  }

  lemma EpisodeEnds(episodes: seq<Episode>, h: HostKey, id: string, n: nat)
    requires AllDesire(episodes, h, id) && n < |episodes|
    ensures |episodes[n].ws| == |episodes[n].es| + 1
  {
    assert At(n);
  }

  /** Removal safety over any number of cycles: as long as every cycle desires an identity on a host, for whichever
      pods and under whatever failures, it stays there at every point of every run. */
  lemma {:induction false} DesiredIdentityStaysForever(episodes: seq<Episode>, h: HostKey, id: string, n: nat, i: nat)
    requires AllDesire(episodes, h, id) && OnlyGrows(episodes, h, id)
    requires n < |episodes| && i < |episodes[n].ws|
    requires episodes[0].HasAt(0, h, id)
    ensures episodes[n].HasAt(i, h, id)
    decreases n
  {
    if n > 0 {
      EpisodeEnds(episodes, h, id, n - 1);
      DesiredIdentityStaysForever(episodes, h, id, n - 1, |episodes[n - 1].es|);
      assert At(n);
    }
    EpisodeKeepsAt(episodes, h, id, n, i);
  }

  // ------------------------------------------------------ what clean cycles achieve

  /** The record is Assigned, and its identity, if it is a user-assigned one, is on its host. */
  predicate Served(r: AssignedID, lookup: NodeLookup, cloud: map<HostKey, set<string>>) {
    r.status == Assigned
    && (r.IsMSI() ==> HostOf(lookup, r.node) in cloud && OnHost(r, cloud[HostOf(lookup, r.node)]))
  }

  /** What a cycle may rely on: existing nodes, coherent identities, claims the in-use check can tell, and Kubernetes'
      resource versions, which tell apart different contents. */
  ghost predicate Orderly(c: Cycle) {
    && c.Valid() && NodesExist(c) && c.IdentitiesCoherent()
    && (forall k :: k in c.des && c.des[k].IsMSI() ==> c.ClaimSeen(k))
    && (forall n :: n in c.cur && n in c.des && c.cur[n].identity.name == c.des[n].identity.name
          && c.cur[n].identity.resourceVersion == c.des[n].identity.resourceVersion
          ==> c.cur[n].identity == c.des[n].identity)
  }

  /** After a cycle without failures, a coherent host has exactly what it had, without the identities that stored
      records take away, and with those of new and changed records. */
  lemma CycleCleanCloud(c: Cycle, cfg: Config, ws: seq<World>, es: seq<Event>, h: HostKey)
    requires c.Valid() && CleanRun(c, cfg, ws, es) && h in c.hosts && !h.Gone? && c.CoherentOn(h)
    ensures h in ws[0].cloud && h in ws[|es|].cloud
    ensures ws[|es|].cloud[h] == ws[0].cloud[h] - Doomed(c.hosts[h]) + Added(c.hosts[h])
  {
    CycleCompatible(c, h);
    FinishedCloud(cfg, c.hosts, ws, es, h);
  }

  /** A written record ends up served. */
  lemma FinalJobServed(c: Cycle, cfg: Config, ws: seq<World>, es: seq<Event>, h: HostKey, i: nat)
    requires c.Valid() && CleanRun(c, cfg, ws, es) && c.CoherentOn(h)
    requires h in c.hosts && i < |Jobs(c.hosts[h])| && !h.Gone?
    ensures var r := Jobs(c.hosts[h])[i];
      r.name in ws[|es|].store && Served(ws[|es|].store[r.name], c.env.lookup, ws[|es|].cloud)
  {
    var r := Jobs(c.hosts[h])[i];
    JobSource(c, h, i);
    FinalJob(c, cfg, ws, es, h, i);
    if r.IsMSI() {
      CycleCleanCloud(c, cfg, ws, es, h);
      JobStatus(c, h, i);
      assert r.identity.resourceID in Elements(c.hosts[h].add);
    }
  }

  lemma StayingRecordKept(c: Cycle, cfg: Config, ws: seq<World>, es: seq<Event>, n: string)
    requires c.Valid() && NodesExist(c) && CleanRun(c, cfg, ws, es)
    requires Stays(c.cur, c.des, n) && c.cur[n].status != Created
    ensures n in ws[|es|].store && ws[|es|].store[n] == c.cur[n]
  {
    DiffShape(c.cur, c.des, n);
    OtherRecordsUnowned(c, n);
    RunUnowned(cfg, c.hosts, ws, es, |es|, n);
  }

  lemma StayingIdentityKept(c: Cycle, cfg: Config, ws: seq<World>, es: seq<Event>, n: string)
    requires c.Valid() && CleanRun(c, cfg, ws, es) && Stays(c.cur, c.des, n) && c.des[n].IsMSI() && c.ClaimSeen(n)
    requires Served(c.des[n].(status := Assigned), c.env.lookup, ws[0].cloud)
    ensures Served(c.des[n].(status := Assigned), c.env.lookup, ws[|es|].cloud)
  {
    DesiredIdentityStays(c, cfg, ws, es, |es|, n);
  }

  /** A record that stays, and was served, still is. */
  lemma StayingRecordServed(c: Cycle, cfg: Config, ws: seq<World>, es: seq<Event>, n: string)
    requires Orderly(c) && CleanRun(c, cfg, ws, es) && Stays(c.cur, c.des, n) && c.cur[n].status != Created
    requires Served(c.cur[n], c.env.lookup, ws[0].cloud)
    ensures n in ws[|es|].store && ws[|es|].store[n] == c.cur[n]
    ensures Served(c.cur[n], c.env.lookup, ws[|es|].cloud)
  {
    StayingRecordKept(c, cfg, ws, es, n);
    assert c.cur[n].identity == c.des[n].identity && c.cur[n].node == c.des[n].node;
    if c.cur[n].IsMSI() {
      StayingIdentityKept(c, cfg, ws, es, n);
    }
  }

  lemma WrittenRecordServed(c: Cycle, cfg: Config, ws: seq<World>, es: seq<Event>, n: string)
    requires Orderly(c) && CleanRun(c, cfg, ws, es) && (n in c.Diff().create || n in c.Diff().after)
    ensures n in ws[|es|].store && Served(ws[|es|].store[n], c.env.lookup, ws[|es|].cloud)
  {
    var h, i;
    if n in c.Diff().create {
      h, i := CreateIsJob(c, n);
    } else {
      h, i := UpdateIsJob(c, n);
    }
    JobNotGone(c, h, i);
    assert c.CoherentOn(h);
    FinalJobServed(c, cfg, ws, es, h, i);
  }

  /** What stays is either served already or still to be finished. */
  ghost predicate StayingServed(c: Cycle, cloud: map<HostKey, set<string>>) {
    forall n :: Stays(c.cur, c.des, n) ==> c.cur[n].status == Created || Served(c.cur[n], c.env.lookup, cloud)
  }

  /** A store that holds exactly the desired records, with the desired identity, binding, pod and node, all served. */
  ghost predicate AllServed(c: Cycle, store: AssignedMap, cloud: map<HostKey, set<string>>) {
    store.Keys == c.des.Keys
    && forall n :: n in store ==>
         && store[n].identity == c.des[n].identity
         && store[n].binding.name == c.des[n].binding.name
         && store[n].binding.resourceVersion == c.des[n].binding.resourceVersion
         && store[n].pod == c.des[n].pod && store[n].podNamespace == c.des[n].podNamespace
         && store[n].node == c.des[n].node
         && Served(store[n], c.env.lookup, cloud)
  }

  /** With resource versions that tell contents apart, the final store has the desired identities. */
  lemma FinalIdentity(c: Cycle, n: string)
    requires Orderly(c) && n in Final(c.cur, c.Diff()) && n in c.des
    ensures Final(c.cur, c.Diff())[n].identity == c.des[n].identity
  {
    FinalRecordAt(c.cur, c.des, n);
  }

  /** A cycle without failures leaves exactly the desired records, all Assigned, every user-assigned identity on its
      host, if that was so for the records that stay. */
  lemma CleanCycleServes(c: Cycle, cfg: Config, ws: seq<World>, es: seq<Event>)
    requires Orderly(c) && CleanRun(c, cfg, ws, es) && StayingServed(c, ws[0].cloud)
    ensures AllServed(c, ws[|es|].store, ws[|es|].cloud)
  {
    CycleEndsFinal(c, cfg, ws, es);
    Converges(c.cur, c.des);
    var store := ws[|es|].store;
    forall n | n in store
      ensures store[n].identity == c.des[n].identity && Served(store[n], c.env.lookup, ws[|es|].cloud)
    {
      DiffShape(c.cur, c.des, n);
      FinalIdentity(c, n);
      if n in c.Diff().create || n in c.Diff().after {
        WrittenRecordServed(c, cfg, ws, es, n);
      } else {
        StayingRecordServed(c, cfg, ws, es, n);
      }
    }
  }

  ghost predicate CleanEpisode(e: Episode) {
    Orderly(e.cycle) && CleanRun(e.cycle, e.cfg, e.ws, e.es)
  }

  /** Cycle `f` starts from the records and the identities that `e` left; the nodes of records that stay have not
      moved. */
  ghost predicate Continues(e: Episode, f: Episode) {
    && |e.ws| == |e.es| + 1 && f.ws != [] && f.cycle.cur == e.ws[|e.es|].store
    && (forall h :: h in e.ws[|e.es|].cloud ==> h in f.ws[0].cloud && e.ws[|e.es|].cloud[h] <= f.ws[0].cloud[h])
    && (forall n :: Stays(f.cycle.cur, f.cycle.des, n) ==> e.cycle.Host(f.cycle.cur[n]) == f.cycle.Host(f.cycle.cur[n]))
  }

  ghost predicate CleanHistory(episodes: seq<Episode>) {
    && (forall n {:trigger At(n)} :: 0 <= n < |episodes| && At(n) ==> CleanEpisode(episodes[n]))
    && (forall n {:trigger At(n)} :: 0 < n < |episodes| && At(n) ==> Continues(episodes[n - 1], episodes[n]))
  }

  lemma ServedCarriesOver(e: Episode, f: Episode)
    requires Continues(e, f) && AllServed(e.cycle, e.ws[|e.es|].store, e.ws[|e.es|].cloud)
    ensures StayingServed(f.cycle, f.ws[0].cloud)
  {
    forall n | Stays(f.cycle.cur, f.cycle.des, n)
      ensures Served(f.cycle.cur[n], f.cycle.env.lookup, f.ws[0].cloud)
    {
      assert Served(f.cycle.cur[n], e.cycle.env.lookup, e.ws[|e.es|].cloud);
    }
  }

  lemma CleanEpisodeAt(episodes: seq<Episode>, n: nat)
    requires CleanHistory(episodes) && n < |episodes|
    requires |episodes[n].ws| > 0 && StayingServed(episodes[n].cycle, episodes[n].ws[0].cloud)
    ensures var e := episodes[n];
      |e.ws| == |e.es| + 1 && AllServed(e.cycle, e.ws[|e.es|].store, e.ws[|e.es|].cloud)
  {
    assert At(n);
    CleanCycleServes(episodes[n].cycle, episodes[n].cfg, episodes[n].ws, episodes[n].es);
  }

  /** After any number of cycles without failures, from a cluster without records or one in order, exactly the desired
      records are stored, all of them Assigned, and every user-assigned identity of them is on its VM or scale set. */
  lemma {:induction false} CleanCyclesServe(episodes: seq<Episode>, n: nat)
    requires CleanHistory(episodes) && n < |episodes|
    requires |episodes[0].ws| > 0 && StayingServed(episodes[0].cycle, episodes[0].ws[0].cloud)
    ensures var e := episodes[n];
      |e.ws| == |e.es| + 1 && AllServed(e.cycle, e.ws[|e.es|].store, e.ws[|e.es|].cloud)
    decreases n
  {
    if n > 0 {
      CleanCyclesServe(episodes, n - 1);
      assert Continues(episodes[n - 1], episodes[n]) by {
        assert At(n);
      }
      ServedCarriesOver(episodes[n - 1], episodes[n]);
    }
    CleanEpisodeAt(episodes, n);
  }
}
