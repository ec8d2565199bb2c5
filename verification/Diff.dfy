/** The difference between stored and desired records, computed on maps that may be shared. */
module Diff {
  import opened Records

  /** A Go map of records: a reference that several variables may hold. */
  class Table {
    var m: AssignedMap

    constructor (m: AssignedMap)
      ensures this.m == m
    {
      this.m := m;
    }
  }

  /** matchAssignedID. */
  predicate Matches(x: AssignedID, y: AssignedID) {
    && x.binding.name == y.binding.name
    && x.binding.resourceVersion == y.binding.resourceVersion
    && x.identity.name == y.identity.name
    && x.identity.resourceVersion == y.identity.resourceVersion
    && x.pod == y.pod
    && x.podNamespace == y.podNamespace
    && x.node == y.node
  }

  /** The stored record of this name is the desired one. */
  predicate Stays(cur: AssignedMap, des: AssignedMap, n: string) {
    n in cur && n in des && Matches(cur[n], des[n])
  }

  /** `cur` and `des` differ at `n`, or the assignment of `n` was never finished. */
  predicate Creates(cur: AssignedMap, des: AssignedMap, n: string) {
    n in des && (Stays(cur, des, n) ==> cur[n].status == Created)
  }

  function ToCreate(cur: AssignedMap, des: AssignedMap): AssignedMap {
    map n | n in des && Creates(cur, des, n) :: if Stays(cur, des, n) then cur[n] else des[n]
  }

  function ToDelete(cur: AssignedMap, des: AssignedMap): AssignedMap {
    map n | n in cur && !Stays(cur, des, n) :: cur[n]
  }

  /** The desired record under the metadata of the stored one, with the new label. */
  function Updated(stored: AssignedID, desired: AssignedID): AssignedID {
    desired.(namespace := stored.namespace, name := stored.name, resourceVersion := stored.resourceVersion)
  }

  datatype Work = Work(create: AssignedMap, delete: AssignedMap, before: AssignedMap, after: AssignedMap)

  function Before(add: AssignedMap, del: AssignedMap): AssignedMap {
    map n | n in add && n in del :: del[n]
  }

  function After(add: AssignedMap, del: AssignedMap): AssignedMap {
    map n | n in add && n in del :: Updated(del[n], add[n])
  }

  function DiffOf(cur: AssignedMap, des: AssignedMap): Work {
    var add, del := ToCreate(cur, des), ToDelete(cur, des);
    Work(add - del.Keys, del - add.Keys, Before(add, del), After(add, del))
  }

  /** getAzureAssignedIDsToCreate; with nothing stored it returns the desired map itself. */
  method GetToCreate(cur: Table, des: Table) returns (create: Table)
    ensures create.m == ToCreate(cur.m, des.m)
    ensures if cur.m == map[] then create == des else fresh(create)
  {
    if |cur.m| == 0 {
      return des;
    }
    var result: AssignedMap := map[];
    var todo := des.m.Keys;
    while todo != {}
      invariant todo <= des.m.Keys
      invariant forall n :: n in result <==> n !in todo && Creates(cur.m, des.m, n)
      invariant forall n :: n in result ==> result[n] == (if Stays(cur.m, des.m, n) then cur.m[n] else des.m[n])
      decreases todo
    {
      var n :| n in todo;
      var idMatch := n in cur.m && Matches(cur.m[n], des.m[n]);
      if idMatch && cur.m[n].status == Created {
        result := result[n := cur.m[n]];
      }
      if !idMatch {
        result := result[n := des.m[n]];
      }
      todo := todo - {n};
    }
    create := new Table(result);
  }

  /** getAzureAssignedIDsToDelete; with nothing desired it returns the stored map itself. */
  method GetToDelete(cur: Table, des: Table) returns (delete: Table)
    ensures delete.m == ToDelete(cur.m, des.m)
    ensures if cur.m != map[] && des.m == map[] then delete == cur else fresh(delete)
  {
    if |cur.m| == 0 {
      delete := new Table(map[]);
      return;
    }
    if |des.m| == 0 {
      return cur;
    }
    var result: AssignedMap := map[];
    var todo := cur.m.Keys;
    while todo != {}
      invariant todo <= cur.m.Keys
      invariant forall n :: n in result <==> n in cur.m && n !in todo && !Stays(cur.m, des.m, n)
      invariant forall n :: n in result ==> result[n] == cur.m[n]
      decreases todo
    {
      var n :| n in todo;
      todo := todo - {n};
      if n in des.m && Matches(cur.m[n], des.m[n]) {
        continue;
      }
      result := result[n := cur.m[n]];
    }
    delete := new Table(result);
  }

  /** Loop invariant of GetToUpdate: the names outside `todo` have been moved if they are in both maps. */
  ghost predicate Moving(a: AssignedMap, d: AssignedMap, todo: set<string>, w: Work) {
    && (forall n :: n in w.before <==> n in a && n in d && n !in todo)
    && (forall n :: n in w.after <==> n in a && n in d && n !in todo)
    && (forall n :: n in w.before ==> w.before[n] == d[n])
    && (forall n :: n in w.after ==> w.after[n] == Updated(d[n], a[n]))
    && w.create == a - w.before.Keys
    && w.delete == d - w.before.Keys
  }

  /** The loop body of GetToUpdate for a name in both maps. */
  function Move(w: Work, n: string): Work
    requires n in w.create && n in w.delete
  {
    Work(w.create - {n}, w.delete - {n}, w.before[n := w.delete[n]], w.after[n := Updated(w.delete[n], w.create[n])])
  }

  lemma MoveName(a: AssignedMap, d: AssignedMap, todo: set<string>, w: Work, n: string)
    requires Moving(a, d, todo, w) && n in todo && n in a && n in d
    ensures n in w.create && n in w.delete && Moving(a, d, todo - {n}, Move(w, n))
  {
    var b := w.before[n := d[n]];
    assert b.Keys == w.before.Keys + {n};
    assert a - b.Keys == w.create - {n};
    assert d - b.Keys == w.delete - {n};
  }

  lemma SkipName(a: AssignedMap, d: AssignedMap, todo: set<string>, w: Work, n: string)
    requires Moving(a, d, todo, w) && n in todo && n !in d
    ensures Moving(a, d, todo - {n}, w)
  {
  }

  lemma MoveDone(a: AssignedMap, d: AssignedMap, w: Work)
    requires Moving(a, d, {}, w)
    ensures w == Work(a - d.Keys, d - a.Keys, Before(a, d), After(a, d))
  {
    assert a - w.before.Keys == a - d.Keys;
    assert d - w.before.Keys == d - a.Keys;
    assert w.before == Before(a, d);
    assert w.after == After(a, d);
  }

  /** getAzureAssignedIdentitiesToUpdate: moves the names in both maps out of them, in place. */
  method GetToUpdate(add: Table, del: Table) returns (before: Table, after: Table)
    requires add != del
    modifies add, del
    ensures fresh(before) && fresh(after)
    ensures Work(add.m, del.m, before.m, after.m)
         == (var (a, d) := (old(add.m), old(del.m)); Work(a - d.Keys, d - a.Keys, Before(a, d), After(a, d)))
  {
    var a, d := add.m, del.m;
    var todo := add.m.Keys;
    var w := Work(a, d, map[], map[]);
    assert Moving(a, d, todo, w);
    while todo != {}
      invariant todo <= a.Keys
      invariant add.m == w.create && del.m == w.delete
      invariant Moving(a, d, todo, w)
      decreases todo
    {
      var n :| n in todo;
      assert n in w.delete <==> n in d;
      if n in del.m {
        MoveName(a, d, todo, w, n);
        w := Move(w, n);
        add.m := w.create;
        del.m := w.delete;
      } else {
        SkipName(a, d, todo, w, n);
      }
      todo := todo - {n};
    }
    MoveDone(a, d, w);
    before := new Table(w.before);
    after := new Table(w.after);
  }

  /** The diff of one sync cycle: neither input map is changed, although both may be handed on. */
  method ComputeDiff(current: Table, desired: Table) returns (add: Table, del: Table, before: Table, after: Table)
    requires current != desired
    modifies current, desired
    ensures current.m == old(current.m) && desired.m == old(desired.m)
    ensures Work(add.m, del.m, before.m, after.m) == DiffOf(current.m, desired.m)
  {
    add := GetToCreate(current, desired);
    del := GetToDelete(current, desired);
    before, after := GetToUpdate(add, del);
  }

  /** Every name is in at most one list: new or unfinished, no longer desired, or changed. */
  lemma DiffShape(cur: AssignedMap, des: AssignedMap, n: string)
    ensures var w := DiffOf(cur, des);
      && (n in w.create <==> n in des && (n !in cur || (Matches(cur[n], des[n]) && cur[n].status == Created)))
      && (n in w.create ==> w.create[n] == if n in cur then cur[n] else des[n])
      && (n in w.delete <==> n in cur && n !in des)
      && (n in w.delete ==> w.delete[n] == cur[n])
      && (n in w.before <==> n in cur && n in des && !Matches(cur[n], des[n]))
      && (n in w.before ==> w.before[n] == cur[n])
      && (n in w.after <==> n in w.before)
      && (n in w.after ==> w.after[n] == Updated(cur[n], des[n]))
  {
  }

  /** A record that differs from the desired one of its name in any of the seven compared fields is updated: the new
      record has the desired content and label, under the metadata of the stored one. */
  lemma ChangedIsUpdated(cur: AssignedMap, des: AssignedMap, n: string)
    requires n in cur && n in des
    ensures var (w, x, y) := (DiffOf(cur, des), cur[n], des[n]);
      n in w.before && n in w.after <==>
        || x.binding.name != y.binding.name || x.binding.resourceVersion != y.binding.resourceVersion
        || x.identity.name != y.identity.name || x.identity.resourceVersion != y.identity.resourceVersion
        || x.pod != y.pod || x.podNamespace != y.podNamespace || x.node != y.node
    ensures n in DiffOf(cur, des).before <==> n in DiffOf(cur, des).after
    ensures n in DiffOf(cur, des).after ==>
      var (was, now, y) := (DiffOf(cur, des).before[n], DiffOf(cur, des).after[n], des[n]);
      && was == cur[n]
      && now.namespace == cur[n].namespace && now.name == cur[n].name
      && now.resourceVersion == cur[n].resourceVersion && now.labelNode == y.labelNode && now.status == y.status
      && now.identity == y.identity && now.binding == y.binding
      && now.pod == y.pod && now.podNamespace == y.podNamespace && now.node == y.node
  {
    DiffShape(cur, des, n);
  }

  lemma DiffWellKeyed(cur: AssignedMap, des: AssignedMap)
    requires WellKeyed(cur) && WellKeyed(des)
    ensures var w := DiffOf(cur, des);
      WellKeyed(w.create) && WellKeyed(w.delete) && WellKeyed(w.before) && WellKeyed(w.after)
  {
    var w := DiffOf(cur, des);
    forall n {
      DiffShape(cur, des, n);
    }
  }

  function Finished(m: AssignedMap): AssignedMap {
    map n | n in m :: m[n].(status := Assigned)
  }

  /** The store after a cycle in which every write succeeds. */
  function Final(cur: AssignedMap, w: Work): AssignedMap {
    cur - w.delete.Keys + Finished(w.create) + Finished(w.after)
  }

  const IDLE := Work(map[], map[], map[], map[])

  lemma FinalAt(cur: AssignedMap, des: AssignedMap, n: string)
    ensures var f := Final(cur, DiffOf(cur, des));
      && (n in f <==> n in des)
      && (n in f ==> Matches(f[n], des[n]))
      && (n in f ==> f[n].status == if Stays(cur, des, n) && cur[n].status != Created then cur[n].status else Assigned)
  {
    DiffShape(cur, des, n);
    var w := DiffOf(cur, des);
    assert n in Final(cur, w) <==> (n in cur && n !in w.delete) || n in w.create || n in w.after;
  }

  /** Which record that is. */
  lemma FinalRecordAt(cur: AssignedMap, des: AssignedMap, n: string)
    requires n in des
    ensures var f := Final(cur, DiffOf(cur, des));
      n in f && f[n] ==
        if n !in cur then des[n].(status := Assigned)
        else if !Matches(cur[n], des[n]) then Updated(cur[n], des[n]).(status := Assigned)
        else if cur[n].status == Created then cur[n].(status := Assigned) else cur[n]
  {
    DiffShape(cur, des, n);
    var w := DiffOf(cur, des);
    FinalLookup(cur, w, n);
  }

  lemma FinalLookup(cur: AssignedMap, w: Work, n: string)
    requires n !in w.delete && (n in cur || n in w.create || n in w.after)
    ensures var f := Final(cur, w);
      n in f && f[n] == if n in w.after then w.after[n].(status := Assigned)
                        else if n in w.create then w.create[n].(status := Assigned) else cur[n]
  {
  }

  lemma IdleAt(cur: AssignedMap, des: AssignedMap, n: string)
    ensures var w := DiffOf(cur, des);
      n !in w.create && n !in w.delete && n !in w.before && n !in w.after <==>
      (n in cur <==> n in des) && (n in des ==> Matches(cur[n], des[n]) && cur[n].status != Created)
  {
    DiffShape(cur, des, n);
  }

  lemma IdleIffMatches(cur: AssignedMap, des: AssignedMap)
    ensures DiffOf(cur, des) == IDLE <==>
            cur.Keys == des.Keys && forall n :: n in des ==> Matches(cur[n], des[n]) && cur[n].status != Created
  {
    var w := DiffOf(cur, des);
    forall n {
      IdleAt(cur, des, n);
    }
    if cur.Keys == des.Keys && forall n :: n in des ==> Matches(cur[n], des[n]) && cur[n].status != Created {
      forall n
        ensures n !in w.create && n !in w.delete && n !in w.before && n !in w.after
      {
        assert n in cur.Keys <==> n in des.Keys;
      }
      assert w.create == map[] && w.delete == map[] && w.before == map[] && w.after == map[];
    }
  }

  /** A cycle has nothing to do exactly when the store holds the desired names, with the desired binding, identity, pod
      and node under each, and no record is unfinished. */
  lemma IdleIff(cur: AssignedMap, des: AssignedMap)
    ensures DiffOf(cur, des) == IDLE <==>
            cur.Keys == des.Keys && forall n :: n in des ==>
              && cur[n].binding.name == des[n].binding.name
              && cur[n].binding.resourceVersion == des[n].binding.resourceVersion
              && cur[n].identity.name == des[n].identity.name
              && cur[n].identity.resourceVersion == des[n].identity.resourceVersion
              && cur[n].pod == des[n].pod && cur[n].podNamespace == des[n].podNamespace && cur[n].node == des[n].node
              && cur[n].status != Created
  {
    IdleIffMatches(cur, des);
  }

  /** If every write of a cycle succeeds, the store has the desired names with what is desired under each, and the next
      cycle is idle. */
  lemma Converges(cur: AssignedMap, des: AssignedMap)
    ensures var f := Final(cur, DiffOf(cur, des));
      && f.Keys == des.Keys
      && (forall n :: n in des ==>
            && f[n].binding.name == des[n].binding.name
            && f[n].binding.resourceVersion == des[n].binding.resourceVersion
            && f[n].identity.name == des[n].identity.name
            && f[n].identity.resourceVersion == des[n].identity.resourceVersion
            && f[n].pod == des[n].pod && f[n].podNamespace == des[n].podNamespace && f[n].node == des[n].node)
      && DiffOf(f, des) == IDLE
  {
    var f := Final(cur, DiffOf(cur, des));
    forall n
      ensures n in f <==> n in des
      ensures n in f ==> Matches(f[n], des[n]) && f[n].status != Created
    {
      FinalAt(cur, des, n);
    }
    assert f.Keys == des.Keys;
    IdleIffMatches(f, des);
  }

  /** It is not promised that every desired record is then Assigned: a record that came back while it was
      Unassigned is left as it is. */
  lemma AllAssignedIff(cur: AssignedMap, des: AssignedMap)
    ensures var f := Final(cur, DiffOf(cur, des));
      (forall n :: n in f ==> f[n].status == Assigned)
      <==> (forall n :: Stays(cur, des, n) ==> cur[n].status == Created || cur[n].status == Assigned)
  {
    var f := Final(cur, DiffOf(cur, des));
    forall n
      ensures n in f <==> n in des
      ensures n in f ==> (f[n].status == Assigned <==>
                          (Stays(cur, des, n) ==> cur[n].status == Created || cur[n].status == Assigned))
    {
      FinalAt(cur, des, n);
    }
    if n :| Stays(cur, des, n) && cur[n].status != Created && cur[n].status != Assigned {
      assert n in f && f[n].status != Assigned;
    }
  }
}
