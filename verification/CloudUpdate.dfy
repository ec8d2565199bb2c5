/** The cloud provider: merge patches on the identities of a VM or scale set, batching and retry. */
module CloudUpdate {
  import opened Text
  import opened Records

  const MAX_IDENTITIES := 150

  // ---------------------------------------------------------------- patches

  /** UserAssignedIdentities: nil, or a map whose value is true for a non-nil and false for a nil entry. */
  datatype IdMap = NilMap | Entries(m: map<string, bool>)

  function Adds(m: map<string, bool>): set<string> {
    set k | k in m && m[k]
  }

  function Drops(m: map<string, bool>): set<string> {
    set k | k in m && !m[k]
  }

  function Size(p: IdMap): nat {
    if p.NilMap? then 0 else |p.m|
  }

  /** The folded identities of a map as GET returns it. */
  function Listed(p: IdMap): set<string> {
    if p.NilMap? then {} else Fold(p.m.Keys)
  }

  /** What a successful PATCH does: nil deletes, non-nil adds, and a nil map clears everything. */
  function Apply(host: set<string>, p: IdMap): set<string> {
    match p
    case NilMap => {}
    case Entries(m) => host - Drops(m) + Adds(m)
  }

  /** What a PATCH that reported an error may have done: any part of its work. */
  predicate Partial(before: set<string>, p: IdMap, after: set<string>) {
    match p
    case NilMap => after <= before
    case Entries(m) => before - Drops(m) <= after <= before + Adds(m)
  }

  /** An ARM error; `named` are the identities extractIdentitiesFromError finds in it. */
  datatype CloudError = CloudError(message: string, named: seq<string>)

  datatype Kind = Unset | NoIdentity | User | System | SystemAndUser | OtherKind(text: string)

  /** The Identity object that IdentityInfo and the update closure share. */
  class Identity {
    var kind: Kind
    var userIds: IdMap

    constructor (kind: Kind, userIds: IdMap)
      ensures this.kind == kind && this.userIds == userIds
    {
      this.kind, this.userIds := kind, userIds;
    }
  }

  /** Azure's side of one VM or scale set: its folded identities and the patches it was sent. */
  class Host {
    var ids: set<string>
    var log: seq<IdMap>

    ghost predicate Valid()
      reads this
    {
      IsFolded(ids)
    }

    /** Update followed by WaitForCompletionRef; either may fail. */
    method Patch(p: IdMap) returns (err: Option<CloudError>)
      requires Valid()
      requires p.Entries? ==> IsFolded(p.m.Keys)
      modifies this
      ensures Valid()
      ensures log == old(log) + [p]
      ensures Partial(old(ids), p, ids)
      ensures err.None? ==> ids == Apply(old(ids), p)
    {
      log := log + [p];
      if p.Entries? {
        assert forall k :: k in Adds(p.m) ==> k in p.m.Keys;
      }
      if * {
        ids := Apply(ids, p);
        err := None;
      } else {
        assert Partial(ids, p, ids);
        var after: set<string> :| Partial(ids, p, after) && IsFolded(after);
        ids := after;
        var e: CloudError := *;
        err := Some(e);
      }
    }

    /** GET; the spelling of the returned identities is Azure's own choice. */
    method Get() returns (err: Option<CloudError>, id: Identity?)
      requires Valid()
      ensures err.None? && id == null ==> ids == {}
      ensures err.None? && id != null ==> fresh(id) && ids == Listed(id.userIds)
    {
      var unavailable: bool := *;
      if unavailable {
        var e: CloudError := *;
        return Some(e), null;
      }
      err, id := None, null;
      var absent: bool, unset: bool := *, *;
      if ids == {} && absent {
        return;
      }
      var k: Kind := *;
      if ids == {} && unset {
        id := new Identity(k, NilMap);
      } else {
        var folded := map i | i in ids :: true;
        assert Fold(folded.Keys) == ids;
        var spelled: map<string, bool> :| Fold(spelled.Keys) == ids;
        id := new Identity(k, Entries(spelled));
      }
    }
  }

  // ------------------------------------------------------ SetUserIdentities

  /** The two locals of the loop of SetUserIdentities. */
  datatype Scan = Scan(node: set<string>, patch: map<string, bool>)

  function ScanStep(s: Scan, id: string, add: bool): Scan {
    var k := Lower(id);
    if k in s.node && !add then Scan(s.node - {k}, s.patch[k := false])
    else if k !in s.node && add then Scan(s.node + {k}, s.patch[k := true])
    else s
  }

  /** The loop over `ids` in the iteration order `order`. */
  function ScanAll(order: seq<string>, ids: map<string, bool>, cur: set<string>): Scan
    requires forall id :: id in order ==> id in ids
  {
    if order == [] then Scan(cur, map[])
    else
      var last := order[|order| - 1];
      ScanStep(ScanAll(order[..|order| - 1], ids, cur), last, ids[last])
  }

  /** `order` visits every key of `ids` once. */
  ghost predicate Enumerates(order: seq<string>, keys: set<string>) {
    && (forall id :: id in order <==> id in keys)
    && (forall i, j :: 0 <= i < j < |order| ==> order[i] != order[j])
  }

  function Wanted(ids: map<string, bool>): set<string> {
    Fold(Adds(ids))
  }

  function Unwanted(ids: map<string, bool>): set<string> {
    Fold(Drops(ids))
  }

  /** No identity is both to be added and to be removed under two spellings. */
  ghost predicate Consistent(ids: map<string, bool>) {
    Wanted(ids) !! Unwanted(ids)
  }

  /** The set the loop ends with is what its patch would produce, and every entry of the patch is asked for. */
  lemma {:induction false} ScanSound(order: seq<string>, ids: map<string, bool>, cur: set<string>)
    requires forall id :: id in order ==> id in ids
    ensures var s := ScanAll(order, ids, cur);
      && s.node == Apply(cur, Entries(s.patch))
      && Adds(s.patch) <= Wanted(ids) && Drops(s.patch) <= Unwanted(ids)
      && IsFolded(s.patch.Keys)
  {
    if order != [] {
      var last := order[|order| - 1];
      ScanSound(order[..|order| - 1], ids, cur);
      LowerIdempotent(last);
      var p := ScanAll(order[..|order| - 1], ids, cur);
      assert Lower(last) in (if ids[last] then Wanted(ids) else Unwanted(ids)) by {
        assert last in (if ids[last] then Adds(ids) else Drops(ids));
      }
      var s := ScanAll(order, ids, cur);
      assert s == ScanStep(p, last, ids[last]);
      assert Adds(s.patch) <= Adds(p.patch) + (if ids[last] then {Lower(last)} else {});
      assert Drops(s.patch) <= Drops(p.patch) + (if ids[last] then {} else {Lower(last)});
    }
  }

  /** Whichever spelling of an identity comes last decides about it. */
  lemma {:induction false} LastSpellingWins(order: seq<string>, ids: map<string, bool>, cur: set<string>, k: string)
    requires forall id :: id in order ==> id in ids
    ensures var s := ScanAll(order, ids, cur);
      || ((forall id :: id in order ==> Lower(id) != k) && (k in s.node <==> k in cur))
      || (exists i :: 0 <= i < |order| && Lower(order[i]) == k && (k in s.node <==> ids[order[i]])
            && forall j :: i < j < |order| ==> Lower(order[j]) != k)
  {
    if order != [] {
      var n := |order| - 1;
      if Lower(order[n]) == k {
        assert k in ScanAll(order, ids, cur).node <==> ids[order[n]];
      } else {
        LastSpellingWins(order[..n], ids, cur, k);
        if exists i :: 0 <= i < n && Lower(order[..n][i]) == k {
          assert k in ScanAll(order, ids, cur).node <==> k in ScanAll(order[..n], ids, cur).node;
        }
      }
    }
  }

  /** With contradictory spellings the result lies between the two readings; without them it is exact. */
  lemma ScanBounds(order: seq<string>, ids: map<string, bool>, cur: set<string>)
    requires Enumerates(order, ids.Keys)
    ensures var (s, a, r) := (ScanAll(order, ids, cur), Wanted(ids), Unwanted(ids));
      cur - r + (a - r) <= s.node <= cur - (r - a) + a
    ensures Consistent(ids) ==> ScanAll(order, ids, cur).node == cur - Unwanted(ids) + Wanted(ids)
  {
    var s, a, r := ScanAll(order, ids, cur), Wanted(ids), Unwanted(ids);
    forall k
      ensures k in cur - r + (a - r) ==> k in s.node
      ensures k in s.node ==> k in cur - (r - a) + a
    {
      LastSpellingWins(order, ids, cur, k);
      if id :| id in order && Lower(id) == k {
        assert id in (if ids[id] then Adds(ids) else Drops(ids));
      }
      if k in a {
        var id :| id in Adds(ids) && Lower(id) == k;
        assert id in order;
      }
      if k in r {
        var id :| id in Drops(ids) && Lower(id) == k;
        assert id in order;
      }
    }
  }

  lemma {:induction false} EnumerationEndingIn(keys: set<string>, last: string) returns (order: seq<string>)
    requires last in keys
    ensures Enumerates(order, keys) && order != [] && order[|order| - 1] == last
    decreases |keys|
  {
    if keys == {last} {
      order := [last];
    } else {
      assert keys == {last} + (keys - {last});
      var other :| other in keys - {last};
      var rest := EnumerationEndingIn(keys - {last}, other);
      order := rest + [last];
    }
  }

  lemma ConsistentIsOrderFree(ids: map<string, bool>, cur: set<string>, o1: seq<string>, o2: seq<string>)
    requires Consistent(ids) && Enumerates(o1, ids.Keys) && Enumerates(o2, ids.Keys)
    ensures ScanAll(o1, ids, cur).node == ScanAll(o2, ids, cur).node
  {
    ScanBounds(o1, ids, cur);
    ScanBounds(o2, ids, cur);
  }

  /** An order in which the spelling `id` comes last, and so decides. */
  lemma OrderDecidedBy(ids: map<string, bool>, cur: set<string>, id: string) returns (order: seq<string>)
    requires id in ids
    ensures Enumerates(order, ids.Keys) && (Lower(id) in ScanAll(order, ids, cur).node <==> ids[id])
  {
    order := EnumerationEndingIn(ids.Keys, id);
  }

  lemma ContradictionShows(ids: map<string, bool>, cur: set<string>) returns (o1: seq<string>, o2: seq<string>)
    requires !Consistent(ids)
    ensures Enumerates(o1, ids.Keys) && Enumerates(o2, ids.Keys)
    ensures ScanAll(o1, ids, cur).node != ScanAll(o2, ids, cur).node
  {
    var k :| k in Wanted(ids) && k in Unwanted(ids);
    var a :| a in Adds(ids) && Lower(a) == k;
    var b :| b in Drops(ids) && Lower(b) == k;
    o1 := OrderDecidedBy(ids, cur, a);
    o2 := OrderDecidedBy(ids, cur, b);
  }

  ghost predicate OrderFree(ids: map<string, bool>, cur: set<string>) {
    forall o1, o2 :: Enumerates(o1, ids.Keys) && Enumerates(o2, ids.Keys)
      ==> ScanAll(o1, ids, cur).node == ScanAll(o2, ids, cur).node
  }

  /** Map iteration order is invisible exactly when no identity is both added and removed. */
  lemma OrderIrrelevantIff(ids: map<string, bool>, cur: set<string>)
    ensures OrderFree(ids, cur) <==> Consistent(ids)
  {
    if Consistent(ids) {
      forall o1, o2 | Enumerates(o1, ids.Keys) && Enumerates(o2, ids.Keys)
        ensures ScanAll(o1, ids, cur).node == ScanAll(o2, ids, cur).node
      {
        ConsistentIsOrderFree(ids, cur, o1, o2);
      }
    } else {
      var o1, o2 := ContradictionShows(ids, cur);
    }
  }

  lemma Enumeration(keys: set<string>) returns (order: seq<string>)
    ensures Enumerates(order, keys)
  {
    if keys == {} {
      order := [];
    } else {
      var last :| last in keys;
      order := EnumerationEndingIn(keys, last);
    }
  }

  lemma RemovedLast(ids: map<string, bool>, cur: set<string>, adds: seq<string>, drops: seq<string>, k: string)
    requires Enumerates(adds, Adds(ids)) && Enumerates(drops, Drops(ids)) && k in Unwanted(ids)
    ensures k !in ScanAll(adds + drops, ids, cur).node
  {
    var order := adds + drops;
    LastSpellingWins(order, ids, cur, k);
    var id :| id in Drops(ids) && Lower(id) == k;
    var d :| 0 <= d < |drops| && drops[d] == id;
    assert order[|adds| + d] == id;
    forall i | |adds| <= i < |order|
      ensures order[i] in ids && !ids[order[i]]
    {
      assert order[i] == drops[i - |adds|] && drops[i - |adds|] in Drops(ids);
    }
  }

  lemma EnumeratesBoth(a: seq<string>, b: seq<string>, ka: set<string>, kb: set<string>)
    requires Enumerates(a, ka) && Enumerates(b, kb) && ka !! kb
    ensures Enumerates(a + b, ka + kb)
  {
    var order := a + b;
    forall i, j | 0 <= i < j < |order|
      ensures order[i] != order[j]
    {
      if i < |a| <= j {
        assert order[i] in a && order[j] == b[j - |a|] && order[j] in b;
      }
    }
  }

  /** Some map order lets every removal win: the lower bound on the result is reached. */
  lemma RemovalsMayWin(ids: map<string, bool>, cur: set<string>) returns (order: seq<string>)
    ensures Enumerates(order, ids.Keys)
    ensures ScanAll(order, ids, cur).node == cur - Unwanted(ids) + (Wanted(ids) - Unwanted(ids))
  {
    var adds := Enumeration(Adds(ids));
    var drops := Enumeration(Drops(ids));
    order := adds + drops;
    assert ids.Keys == Adds(ids) + Drops(ids);
    EnumeratesBoth(adds, drops, Adds(ids), Drops(ids));
    ScanBounds(order, ids, cur);
    forall k | k in Unwanted(ids)
      ensures k !in ScanAll(order, ids, cur).node
    {
      RemovedLast(ids, cur, adds, drops, k);
    }
  }

  // ---------------------------------------------------------- identity type

  /** getUpdatedResourceIdentityType. */
  function UpdatedKind(k: Kind): Kind {
    match k
    case Unset | NoIdentity | User => User
    case System | SystemAndUser => SystemAndUser
    case OtherKind(_) => NoIdentity
  }

  /** The type SetUserIdentities leaves behind; `emptied` when no identity remains. */
  function NextKind(k: Kind, emptied: bool): Kind {
    if !emptied then UpdatedKind(k) else if k == SystemAndUser then System else NoIdentity
  }

  predicate HasUser(k: Kind) {
    k == User || k == SystemAndUser
  }

  predicate HasSystem(k: Kind) {
    k == System || k == SystemAndUser
  }

  /** The type after a run of updates, given which of them left no identity. */
  function KindRun(k: Kind, run: seq<bool>): Kind
    decreases |run|
  {
    if run == [] then k else KindRun(NextKind(k, run[0]), run[1..])
  }

  /** No update of the run empties a host that has no user-assigned identity to begin with. */
  ghost predicate NeverEmptiedTwice(k: Kind, run: seq<bool>) {
    && (k == System && run != [] ==> !run[0])
    && forall i, j :: 0 <= i < j < |run| && j == i + 1 ==> !(run[i] && run[j])
  }

  /** What the first update does to the condition. */
  lemma NeverEmptiedTwiceNext(k: Kind, run: seq<bool>)
    requires run != []
    ensures HasSystem(k) && NeverEmptiedTwice(k, run) <==>
            HasSystem(NextKind(k, run[0])) && NeverEmptiedTwice(NextKind(k, run[0]), run[1..])
  {
    var rest, next := run[1..], NextKind(k, run[0]);
    assert run == [run[0]] + rest;
    assert HasSystem(k) && !(k == System && run[0]) <==> HasSystem(next);
    if HasSystem(next) && NeverEmptiedTwice(next, rest) {
      forall i, j | 0 <= i < j < |run| && j == i + 1
        ensures !(run[i] && run[j])
      {
        assert i > 0 ==> run[i] == rest[i - 1] && run[j] == rest[j - 1];
      }
    }
    if HasSystem(k) && NeverEmptiedTwice(k, run) {
      forall i, j | 0 <= i < j < |rest| && j == i + 1
        ensures !(rest[i] && rest[j])
      {
        assert !(run[i + 1] && run[j + 1]);
      }
    }
  }

  /** After any run of updates the type is one of those that say which identities there are, and no other, also from an
      unknown type, which the first update turns into "None". */
  lemma {:induction false} KindRunWellFormed(k: Kind, run: seq<bool>)
    requires run != []
    ensures !KindRun(k, run).OtherKind? && !KindRun(k, run).Unset?
    ensures k.OtherKind? && |run| == 1 ==> KindRun(k, run) == NoIdentity
    ensures !(k.OtherKind? && |run| == 1) ==> (HasUser(KindRun(k, run)) <==> !run[|run| - 1])
    ensures HasSystem(KindRun(k, run)) <==> HasSystem(k) && NeverEmptiedTwice(k, run)
    decreases |run|
  {
    NeverEmptiedTwiceNext(k, run);
    if |run| > 1 {
      KindRunWellFormed(NextKind(k, run[0]), run[1..]);
      assert run[1..][|run[1..]| - 1] == run[|run| - 1];
    }
  }

  lemma ScanAppend(order: seq<string>, id: string, ids: map<string, bool>, cur: set<string>)
    requires id in ids && forall i :: i in order ==> i in ids
    ensures ScanAll(order + [id], ids, cur) == ScanStep(ScanAll(order, ids, cur), id, ids[id])
  {
    assert (order + [id])[..|order|] == order;
  }

  /** The loop of SetUserIdentities, in whatever order the map is iterated. */
  method ScanIds(ids: map<string, bool>, cur: set<string>)
    returns (node: set<string>, patch: map<string, bool>, ghost order: seq<string>)
    ensures Enumerates(order, ids.Keys)
    ensures ScanAll(order, ids, cur) == Scan(node, patch)
  {
    node, patch, order := cur, map[], [];
    var todo := ids.Keys;
    while todo != {}
      invariant todo <= ids.Keys
      invariant Enumerates(order, ids.Keys - todo)
      invariant ScanAll(order, ids, cur) == Scan(node, patch)
      decreases todo
    {
      var id :| id in todo;
      var add, k := ids[id], Lower(id);
      var present := k in node;
      ScanAppend(order, id, ids, cur);
      if present && !add {
        patch := patch[k := false];
        node := node - {k};
      }
      if !present && add {
        patch := patch[k := true];
        node := node + {k};
      }
      order := order + [id];
      todo := todo - {id};
    }
  }

  /** SetUserIdentities: turns the GET result into a patch towards `ids`. */
  method SetUserIdentities(info: Identity, ids: map<string, bool>)
    returns (requiresUpdate: bool, ghost order: seq<string>)
    modifies info
    ensures Enumerates(order, ids.Keys)
    ensures var s := ScanAll(order, ids, Listed(old(info.userIds)));
      && info.userIds == (if s.node == {} then NilMap else Entries(s.patch))
      && info.kind == NextKind(old(info.kind), s.node == {})
      && requiresUpdate == (s.node == {} || s.patch != map[])
  {
    if info.userIds.NilMap? {
      info.userIds := Entries(map[]);
      assert Listed(info.userIds) == {};
    }
    var node, patch;
    node, patch, order := ScanIds(ids, Listed(info.userIds));
    if node == {} {
      info.userIds := NilMap;
      info.kind := if info.kind == SystemAndUser then System else NoIdentity;
      return true, order;
    }
    info.kind := UpdatedKind(info.kind);
    info.userIds := Entries(patch);
    requiresUpdate := |patch| > 0;
  }

  // --------------------------------------------------------------- batching

  lemma MoveEntry<K>(m: map<K, bool>, rest: map<K, bool>, k: K, m': map<K, bool>, rest': map<K, bool>)
    requires k in m && m.Keys !! rest.Keys
    requires m' == m - {k} && rest' == rest[k := m[k]]
    ensures m'.Keys == m.Keys - {k} && rest'.Keys == rest.Keys + {k}
    ensures |m'| == |m| - 1 && |rest'| == |rest| + 1
    ensures m' + rest' == m + rest
  {
    assert m'.Keys == m.Keys - {k} && rest'.Keys == rest.Keys + {k};
    assert |m'| == |m'.Keys| && |rest'| == |rest'.Keys| && |m| == |m.Keys| && |rest| == |rest.Keys|;
    MoveEntryUnion(m, rest, k, m', rest');
  }

  lemma MoveEntryUnion<K>(m: map<K, bool>, rest: map<K, bool>, k: K, m': map<K, bool>, rest': map<K, bool>)
    requires k in m && m.Keys !! rest.Keys
    requires m' == m - {k} && rest' == rest[k := m[k]]
    ensures m' + rest' == m + rest
  {
    assert (m' + rest').Keys == (m + rest).Keys;
    forall x | x in m.Keys + rest.Keys
      ensures (m' + rest')[x] == (m + rest)[x]
    {
    }
  }

  /** What Truncate has done when `seen` entries have been visited and `todo` are left. */
  ghost predicate Splitting<K>(all: map<K, bool>, m: map<K, bool>, rest: map<K, bool>, seen: int, todo: set<K>) {
    && todo <= m.Keys && 0 <= seen && seen + |todo| == |all|
    && m.Keys !! rest.Keys && m + rest == all && |m| + |rest| == |all|
    && |rest| == (if seen <= MAX_IDENTITIES then 0 else seen - MAX_IDENTITIES)
    && (seen <= MAX_IDENTITIES ==> m == all && rest == map[])
  }

  lemma SplittingStart<K>(all: map<K, bool>)
    ensures Splitting(all, all, map[], 0, all.Keys)
  {
    assert |all.Keys| == |all| && all + map[] == all;
  }

  lemma SplittingNext<K>(all: map<K, bool>, m: map<K, bool>, rest: map<K, bool>, seen: int, todo: set<K>, k: K)
    requires Splitting(all, m, rest, seen, todo) && k in todo
    ensures |todo - {k}| < |todo| && k in m
    ensures seen >= MAX_IDENTITIES ==> Splitting(all, m - {k}, rest[k := m[k]], seen + 1, todo - {k})
    ensures seen < MAX_IDENTITIES ==> Splitting(all, m, rest, seen + 1, todo - {k})
  {
    if seen >= MAX_IDENTITIES {
      MoveEntry(m, rest, k, m - {k}, rest[k := m[k]]);
    }
  }

  /** truncateVMIdentities and truncateVMSSIdentities. */
  method Truncate(ids: IdMap) returns (kept: IdMap, rest: map<string, bool>)
    ensures ids.NilMap? ==> kept == NilMap && rest == map[]
    ensures ids.Entries? ==>
      && kept.Entries? && kept.m.Keys !! rest.Keys && kept.m + rest == ids.m
      && |kept.m| + |rest| == |ids.m|
      && |kept.m| == (if |ids.m| <= MAX_IDENTITIES then |ids.m| else MAX_IDENTITIES)
      && (|ids.m| <= MAX_IDENTITIES ==> kept == ids && rest == map[])
  {
    rest := map[];
    if ids.NilMap? {
      return NilMap, rest;
    }
    var m, todo, i := ids.m, ids.m.Keys, 0;
    SplittingStart(m);
    while todo != {}
      invariant Splitting(ids.m, m, rest, i, todo)
      decreases todo
    {
      var k :| k in todo;
      SplittingNext(ids.m, m, rest, i, todo, k);
      if i >= MAX_IDENTITIES {
        rest := rest[k := m[k]];
        m := m - {k};
      }
      i, todo := i + 1, todo - {k};
    }
    kept := Entries(m);
  }

  /** The map all batches together amount to. */
  ghost function Union(batches: seq<IdMap>): map<string, bool>
    requires forall b :: b in batches ==> b.Entries?
  {
    if batches == [] then map[]
    else Union(batches[..|batches| - 1]) + batches[|batches| - 1].m
  }

  ghost function TotalSize(batches: seq<IdMap>): nat {
    if batches == [] then 0 else TotalSize(batches[..|batches| - 1]) + Size(batches[|batches| - 1])
  }

  /** Full batches, then one last batch; their sizes add up, so they are disjoint (`BatchesDisjoint`). */
  ghost predicate Splits(batches: seq<IdMap>, p: IdMap) {
    match p
    case NilMap => batches == [NilMap]
    case Entries(m) =>
      && (forall b :: b in batches ==> b.Entries? && |b.m| <= MAX_IDENTITIES)
      && Union(batches) == m && TotalSize(batches) == |m|
      && 1 <= |batches| && (|batches| - 1) * MAX_IDENTITIES <= |m| <= |batches| * MAX_IDENTITIES
      && (|batches| > 1 ==> (|batches| - 1) * MAX_IDENTITIES < |m|)
  }

  /** The number of batches, and their sizes. */
  lemma BatchCount(batches: seq<IdMap>, m: map<string, bool>)
    requires Splits(batches, Entries(m))
    ensures |batches| == if m == map[] then 1 else (|m| + 149) / 150
    ensures forall b :: b in batches ==> b.Entries? && |b.m| <= 150
  {
  }

  ghost predicate SubMap(a: map<string, bool>, b: map<string, bool>) {
    forall k :: k in a ==> k in b && a[k] == b[k]
  }

  /** Sending one more disjoint part of a patch. */
  lemma ApplyMore(before: set<string>, done: map<string, bool>, more: map<string, bool>)
    requires done.Keys !! more.Keys
    ensures Apply(Apply(before, Entries(done)), Entries(more)) == Apply(before, Entries(done + more))
  {
    var both := done + more;
    assert Adds(both) == Adds(done) + Adds(more);
    assert Drops(both) == Drops(done) + Drops(more);
  }

  lemma PartialMore(before: set<string>, done: map<string, bool>, more: map<string, bool>, all: map<string, bool>,
                    after: set<string>)
    requires done.Keys !! more.Keys && SubMap(done, all) && SubMap(more, all)
    requires Partial(Apply(before, Entries(done)), Entries(more), after)
    ensures Partial(before, Entries(all), after)
  {
    assert Adds(done) <= Adds(all) && Adds(more) <= Adds(all);
    assert Drops(done) <= Drops(all) && Drops(more) <= Drops(all);
    assert Adds(all) !! Drops(all);
  }

  lemma UnionAppend(batches: seq<IdMap>, b: IdMap)
    requires b.Entries? && forall x :: x in batches ==> x.Entries?
    ensures Union(batches + [b]) == Union(batches) + b.m
    ensures TotalSize(batches + [b]) == TotalSize(batches) + |b.m|
  {
    assert (batches + [b])[..|batches|] == batches;
  }

  lemma BatchedStep<K>(all: map<K, bool>, done: map<K, bool>, todo: map<K, bool>, kept: map<K, bool>,
                       rest: map<K, bool>)
    requires done.Keys !! todo.Keys && done + todo == all
    requires kept.Keys !! rest.Keys && kept + rest == todo
    ensures (done + kept).Keys !! rest.Keys && done + kept + rest == all
    ensures done.Keys !! kept.Keys
    ensures forall k :: k in kept ==> k in all && kept[k] == all[k]
    ensures forall k :: k in done ==> k in all && done[k] == all[k]
  {
    assert kept.Keys <= todo.Keys && rest.Keys <= todo.Keys;
    assert done + kept + rest == done + (kept + rest);
    assert forall k :: k in todo ==> k in all && todo[k] == all[k];
  }

  lemma AppendAssoc<T>(a: seq<T>, b: seq<T>, c: seq<T>)
    ensures a + b + c == a + (b + c)
  {
  }

  lemma {:induction false} UnionHas(batches: seq<IdMap>, i: nat)
    requires (forall b :: b in batches ==> b.Entries?) && i < |batches|
    ensures batches[i].m.Keys <= Union(batches).Keys
  {
    var n := |batches| - 1;
    if i < n {
      UnionHas(batches[..n], i);
    }
  }

  lemma {:induction false} UnionSize(batches: seq<IdMap>)
    requires forall b :: b in batches ==> b.Entries?
    ensures |Union(batches)| <= TotalSize(batches)
  {
    if batches != [] {
      var n := |batches| - 1;
      UnionSize(batches[..n]);
      SizeOfSum(Union(batches[..n]), batches[n].m);
    }
  }

  lemma SizeOfSum<K>(a: map<K, bool>, b: map<K, bool>)
    ensures |a + b| <= |a| + |b|
    ensures |a + b| == |a| + |b| ==> a.Keys !! b.Keys
  {
    assert (a + b).Keys == a.Keys + b.Keys;
    assert |a.Keys + b.Keys| == |a.Keys| + |b.Keys| - |a.Keys * b.Keys|;
    assert |(a + b).Keys| == |a + b| && |a.Keys| == |a| && |b.Keys| == |b|;
    if |a + b| == |a| + |b| {
      assert a.Keys * b.Keys == {};
      forall k
        ensures k !in a.Keys || k !in b.Keys
      {
        assert k !in a.Keys * b.Keys;
      }
    }
  }

  /** Batches whose sizes add up to the size of their union. */
  ghost predicate Exclusive(batches: seq<IdMap>) {
    (forall b :: b in batches ==> b.Entries?) && TotalSize(batches) == |Union(batches)|
  }

  lemma LastBatchApart(batches: seq<IdMap>)
    requires Exclusive(batches) && batches != []
    ensures var (rest, last) := (batches[..|batches| - 1], batches[|batches| - 1].m);
      Exclusive(rest) && Union(rest).Keys !! last.Keys
  {
    var rest, last := batches[..|batches| - 1], batches[|batches| - 1].m;
    UnionSize(rest);
    SizeOfSum(Union(rest), last);
    assert Union(batches) == Union(rest) + last;
  }

  lemma InOneBatch(batches: seq<IdMap>, i: nat, k: string)
    requires Exclusive(batches) && i < |batches| - 1 && k in batches[i].m
    ensures k !in batches[|batches| - 1].m
  {
    var rest := batches[..|batches| - 1];
    LastBatchApart(batches);
    UnionHas(rest, i);
    assert k in Union(rest).Keys;
  }

  /** No entry is in two batches of a split. */
  lemma {:induction false} BatchesDisjoint(batches: seq<IdMap>, i: nat, j: nat, k: string)
    requires Exclusive(batches) && i < j < |batches| && k in batches[i].m
    ensures k !in batches[j].m
  {
    var n := |batches| - 1;
    if j < n {
      LastBatchApart(batches);
      BatchesDisjoint(batches[..n], i, j, k);
    } else {
      InOneBatch(batches, i, k);
    }
  }

  /** What an update leaves in the shared Identity: the whole patch if nothing was sent, else the batch sent last. */
  ghost predicate LeftOver(p: IdMap, batches: seq<IdMap>, left: IdMap) {
    && left == (if batches == [] then p else batches[|batches| - 1])
    && (p.NilMap? ==> left == NilMap)
    && (p.Entries? ==> left.Entries? && SubMap(left.m, p.m) && |left.m| <= |p.m|)
    && (batches != [] ==> Size(left) <= MAX_IDENTITIES)
    && (Size(p) <= MAX_IDENTITIES ==> left == p)
  }

  lemma LeftOverNext(all: map<string, bool>, batches: seq<IdMap>, kept: map<string, bool>)
    requires SubMap(kept, all) && |kept| <= |all| && |kept| <= MAX_IDENTITIES
    requires |all| <= MAX_IDENTITIES ==> kept == all
    ensures LeftOver(Entries(all), batches + [Entries(kept)], Entries(kept))
  {
  }

  ghost predicate Counted(all: nat, count: nat, done: nat, rest: nat) {
    && done + rest == all
    && done <= count * MAX_IDENTITIES
    && (rest > 0 ==> done == count * MAX_IDENTITIES)
    && (count > 1 ==> (count - 1) * MAX_IDENTITIES < done)
  }

  /** Loop invariant of UpdateIdentities: `batches` took the host from `before` to `now`, `rest` is still to be sent. */
  ghost predicate Sending(all: map<string, bool>, batches: seq<IdMap>, rest: map<string, bool>, before: set<string>,
                          now: set<string>) {
    && (forall b :: b in batches ==> b.Entries? && |b.m| <= MAX_IDENTITIES)
    && Union(batches).Keys !! rest.Keys && Union(batches) + rest == all
    && Counted(|all|, |batches|, TotalSize(batches), |rest|)
    && now == Apply(before, Entries(Union(batches)))
  }

  lemma SendingStep(all: map<string, bool>, batches: seq<IdMap>, todo: map<string, bool>, before: set<string>,
                    now: set<string>,
                    kept: map<string, bool>, rest: map<string, bool>, after: set<string>)
    requires Sending(all, batches, todo, before, now) && (batches == [] || |todo| > 0)
    requires kept.Keys !! rest.Keys && kept + rest == todo && |kept| + |rest| == |todo|
    requires |kept| == (if |todo| <= MAX_IDENTITIES then |todo| else MAX_IDENTITIES)
    requires Partial(now, Entries(kept), after)
    ensures SubMap(kept, all) && Partial(before, Entries(all), after)
    ensures after == Apply(now, Entries(kept)) ==> Sending(all, batches + [Entries(kept)], rest, before, after)
  {
    BatchedStep(all, Union(batches), todo, kept, rest);
    UnionAppend(batches, Entries(kept));
    ApplyMore(before, Union(batches), kept);
    PartialMore(before, Union(batches), kept, all, after);
  }

  lemma SendingDone(all: map<string, bool>, batches: seq<IdMap>, before: set<string>, now: set<string>)
    requires Sending(all, batches, map[], before, now) && batches != []
    ensures Splits(batches, Entries(all)) && now == Apply(before, Entries(all)) && Partial(before, Entries(all), now)
  {
    assert Union(batches) == all;
  }

  /** The whole loop invariant: also what is left in the shared Identity and what Azure has been sent. */
  ghost predicate Batching(all: map<string, bool>, batches: seq<IdMap>, rest: map<string, bool>, before: set<string>,
                           now: set<string>, left: IdMap, log: seq<IdMap>, logged: seq<IdMap>) {
    && Sending(all, batches, rest, before, now)
    && LeftOver(Entries(all), batches, left) && logged == log + batches
    && (batches == [] ==> rest == all)
    && |rest| <= |all| && (batches != [] && |all| <= MAX_IDENTITIES ==> |rest| == 0)
  }

  lemma BatchingNext(all: map<string, bool>, batches: seq<IdMap>, todo: map<string, bool>, before: set<string>,
                     now: set<string>, left: IdMap, log: seq<IdMap>, logged: seq<IdMap>,
                     kept: map<string, bool>, rest: map<string, bool>, after: set<string>)
    requires Batching(all, batches, todo, before, now, left, log, logged) && (batches == [] || |todo| > 0)
    requires kept.Keys !! rest.Keys && kept + rest == todo && |kept| + |rest| == |todo|
    requires |kept| == (if |todo| <= MAX_IDENTITIES then |todo| else MAX_IDENTITIES)
    requires |todo| <= MAX_IDENTITIES ==> kept == todo
    requires Partial(now, Entries(kept), after)
    ensures Partial(before, Entries(all), after)
    ensures LeftOver(Entries(all), batches + [Entries(kept)], Entries(kept))
    ensures logged + [Entries(kept)] == log + (batches + [Entries(kept)])
    ensures after == Apply(now, Entries(kept)) ==>
      Batching(all, batches + [Entries(kept)], rest, before, after, Entries(kept), log, logged + [Entries(kept)])
  {
    SendingStep(all, batches, todo, before, now, kept, rest, after);
    AppendAssoc(log, batches, [Entries(kept)]);
    LeftOverNext(all, batches, kept);
  }

  /** One iteration of the batch loop of UpdateIdentities. */
  method SendNext(host: Host, info: Identity, todo: map<string, bool>, ghost all: map<string, bool>,
                  ghost batches: seq<IdMap>, ghost before: set<string>, ghost log: seq<IdMap>)
    returns (err: Option<CloudError>, ghost kept: IdMap, rest: map<string, bool>)
    requires host.Valid() && IsFolded(all.Keys)
    requires Batching(all, batches, todo, before, host.ids, info.userIds, log, host.log)
    requires batches == [] || |todo| > 0
    modifies host, info
    ensures host.Valid() && host.log == log + (batches + [kept]) && host.log == old(host.log) + [kept]
    ensures info.kind == old(info.kind) && info.userIds == kept && LeftOver(Entries(all), batches + [kept], kept)
    ensures Partial(before, Entries(all), host.ids)
    ensures |todo| > 0 ==> |rest| < |todo|
    ensures err.None? ==> Batching(all, batches + [kept], rest, before, host.ids, info.userIds, log, host.log)
  {
    var truncated;
    truncated, rest := Truncate(Entries(todo));
    ghost var kind, left := info.kind, info.userIds;
    info.userIds, kept := truncated, truncated;
    assert IsFolded(truncated.m.Keys) by {
      BatchedStep(all, Union(batches), todo, truncated.m, rest);
    }
    err := host.Patch(truncated);
    assert info.kind == kind && info.userIds == kept;
    BatchingNext(all, batches, todo, before, old(host.ids), left, log, old(host.log), kept.m, rest, host.ids);
  }

  /** The batch loop of UpdateIdentities. */
  method SendBatches(host: Host, info: Identity) returns (err: Option<CloudError>, ghost batches: seq<IdMap>)
    requires host.Valid() && info.userIds.Entries? && IsFolded(info.userIds.m.Keys)
    modifies host, info
    ensures host.Valid() && host.log == old(host.log) + batches
    ensures info.kind == old(info.kind) && LeftOver(old(info.userIds), batches, info.userIds)
    ensures Partial(old(host.ids), old(info.userIds), host.ids)
    ensures err.None? ==> Splits(batches, old(info.userIds)) && host.ids == Apply(old(host.ids), old(info.userIds))
  {
    ghost var all, before, log := info.userIds.m, host.ids, host.log;
    var hasUpdated, remaining := false, info.userIds.m;
    err, batches := None, [];
    assert Sending(all, batches, remaining, before, host.ids);
    while !hasUpdated || |remaining| > 0
      invariant host.Valid() && info.kind == old(info.kind) && (hasUpdated <==> batches != [])
      invariant Batching(all, batches, remaining, before, host.ids, info.userIds, log, host.log)
      decreases !hasUpdated, |remaining|
    {
      ghost var kept;
      err, kept, remaining := SendNext(host, info, remaining, all, batches, before, log);
      hasUpdated, batches := true, batches + [kept];
      if err.Some? {
        return;
      }
    }
    assert remaining == map[];
    SendingDone(all, batches, before, host.ids);
  }

  /** UpdateIdentities: sends the map of the shared Identity in batches, which it also truncates. */
  method UpdateIdentities(host: Host, info: Identity) returns (err: Option<CloudError>, ghost batches: seq<IdMap>)
    requires host.Valid()
    requires info.userIds.Entries? ==> IsFolded(info.userIds.m.Keys)
    modifies host, info
    ensures host.Valid() && host.log == old(host.log) + batches
    ensures info.kind == old(info.kind) && LeftOver(old(info.userIds), batches, info.userIds)
    ensures Partial(old(host.ids), old(info.userIds), host.ids)
    ensures err.None? ==> Splits(batches, old(info.userIds))
    ensures err.None? ==> host.ids == Apply(old(host.ids), old(info.userIds))
  {
    // The resource is being deleted, or the client is throttled.
    var refused: bool := *;
    if refused {
      var e: CloudError := *;
      return Some(e), [];
    }
    if info.userIds.NilMap? {
      // Truncating nil leaves nil and no rest, so the loop runs once.
      err := host.Patch(NilMap);
      return err, [NilMap];
    }
    err, batches := SendBatches(host, info);
  }

  // ------------------------------------------------------------------ retry

  datatype RetryPolicy = RetryPolicy(maxRetry: int, retriableErrors: set<string>)
  {
    predicate IsRetriable(e: CloudError) {
      exists r :: r in retriableErrors && Contains(e.message, r)
    }
  }

  /** One run of the update function: the map it was given, the batches that reached Azure, the map it left in the
      Identity, its error. */
  datatype Attempt = Attempt(sent: IdMap, batches: seq<IdMap>, left: IdMap, outcome: Option<CloudError>)

  function Without(p: IdMap, ids: set<string>): IdMap {
    if p.NilMap? then NilMap else Entries(p.m - ids)
  }

  function NamedBy(e: CloudError): set<string> {
    Fold(Elements(e.named))
  }

  /** shouldRetry: some of the named identities were in the map, and something remains without them. */
  predicate WorthRetrying(left: IdMap, named: set<string>) {
    left.Entries? && left.m.Keys * named != {} && left.m.Keys - named != {}
  }

  predicate RunsAgain(policy: RetryPolicy, a: Attempt) {
    a.outcome.Some? && policy.IsRetriable(a.outcome.value) && WorthRetrying(a.left, NamedBy(a.outcome.value))
  }

  /** Each run but the first follows from the error of the one before. */
  ghost predicate RetryChain(policy: RetryPolicy, first: IdMap, runs: seq<Attempt>) {
    && runs != [] && runs[0].sent == first
    && (forall i :: 0 <= i < |runs| ==> LeftOver(runs[i].sent, runs[i].batches, runs[i].left))
    && (forall i :: 0 <= i < |runs| - 1 ==> Follows(policy, runs[i], runs[i + 1]))
  }

  ghost predicate Follows(policy: RetryPolicy, a: Attempt, b: Attempt) {
    RunsAgain(policy, a) && b.sent == Without(a.left, NamedBy(a.outcome.value))
  }

  /** The runs Do makes: a chain within the limit, that ends only when it has to. */
  ghost predicate RetryTrace(policy: RetryPolicy, first: IdMap, runs: seq<Attempt>) {
    && RetryChain(policy, first, runs)
    && (|runs| > 1 ==> |runs| <= policy.maxRetry + 1)
    && (RunsAgain(policy, runs[|runs| - 1]) ==> |runs| > policy.maxRetry)
  }

  /** The error of the run contains one of the retriable errors anywhere in its message, and of the identities that the
      run left in the map some are named by the error, in any case, and some are not. */
  ghost predicate CallsForRetry(policy: RetryPolicy, a: Attempt) {
    && a.outcome.Some? && a.left.Entries?
    && (exists r, before, after :: r in policy.retriableErrors && a.outcome.value.message == before + r + after)
    && (exists name :: name in a.outcome.value.named && Lower(name) in a.left.m)
    && (exists id :: id in a.left.m && forall name :: name in a.outcome.value.named ==> Lower(name) != id)
  }

  lemma RetriableIff(policy: RetryPolicy, e: CloudError)
    ensures policy.IsRetriable(e)
            <==> exists r, before, after :: r in policy.retriableErrors && e.message == before + r + after
  {
    if policy.IsRetriable(e) {
      var r :| r in policy.retriableErrors && Contains(e.message, r);
      ContainedSplits(e.message, r);
      var before, after :| e.message == before + r + after;
    }
    if r, before, after :| r in policy.retriableErrors && e.message == before + r + after {
      ContainedSplits(e.message, r);
    }
  }

  lemma WorthRetryingIff(m: map<string, bool>, e: CloudError)
    ensures WorthRetrying(Entries(m), NamedBy(e)) <==>
      && (exists name :: name in e.named && Lower(name) in m)
      && (exists id :: id in m && forall name :: name in e.named ==> Lower(name) != id)
  {
    assert forall name :: name in e.named ==> name in Elements(e.named);
    assert forall id :: id in NamedBy(e) <==> exists name :: name in Elements(e.named) && Lower(name) == id;
    if m.Keys * NamedBy(e) != {} {
      var id :| id in m.Keys * NamedBy(e);
      var name :| name in Elements(e.named) && Lower(name) == id;
      assert name in e.named && Lower(name) in m;
    }
    if name :| name in e.named && Lower(name) in m {
      assert Lower(name) in m.Keys * NamedBy(e);
    }
    if id :| id in m.Keys - NamedBy(e) {
      assert id in m;
    }
    if id :| id in m && forall name :: name in e.named ==> Lower(name) != id {
      assert id in m.Keys - NamedBy(e);
    }
  }

  lemma CallsForRetryIff(policy: RetryPolicy, a: Attempt)
    ensures RunsAgain(policy, a) <==> CallsForRetry(policy, a)
  {
    if a.outcome.Some? {
      RetriableIff(policy, a.outcome.value);
      if a.left.Entries? {
        WorthRetryingIff(a.left.m, a.outcome.value);
      }
    }
  }

  /** A run is followed by another exactly if the limit allows it and its error calls for it. */
  lemma NextRunIff(policy: RetryPolicy, first: IdMap, runs: seq<Attempt>, k: nat)
    requires RetryTrace(policy, first, runs) && k < |runs|
    ensures k + 1 < |runs| <==> k < policy.maxRetry && CallsForRetry(policy, runs[k])
  {
    CallsForRetryIff(policy, runs[k]);
    if k + 1 < |runs| {
      assert Follows(policy, runs[k], runs[k + 1]);
    }
  }

  /** Every further run is strictly smaller, so an update is attempted at most once per entry. */
  lemma {:induction false} RetryShrinks(policy: RetryPolicy, first: IdMap, runs: seq<Attempt>, k: nat)
    requires RetryTrace(policy, first, runs) && k < |runs|
    ensures Size(runs[k].sent) + k <= Size(first)
    ensures k > 0 ==> Size(runs[k].sent) >= 1
  {
    if k > 0 {
      RetryShrinks(policy, first, runs, k - 1);
      var a := runs[k - 1];
      assert Follows(policy, a, runs[k]);
      var named := NamedBy(a.outcome.value);
      var left := a.left.m;
      assert (left - named).Keys == left.Keys - named;
      assert left.Keys == (left.Keys - named) + left.Keys * named;
      assert |left.Keys| == |left.Keys - named| + |left.Keys * named|;
    }
  }

  lemma RetryBound(policy: RetryPolicy, first: IdMap, runs: seq<Attempt>)
    requires RetryTrace(policy, first, runs)
    ensures |runs| == 1 || (|runs| <= policy.maxRetry + 1 && |runs| <= Size(first))
  {
    RetryShrinks(policy, first, runs, |runs| - 1);
  }

  /** Everything the runs sent to Azure. */
  ghost function AllSent(runs: seq<Attempt>): seq<IdMap> {
    if runs == [] then [] else AllSent(runs[..|runs| - 1]) + runs[|runs| - 1].batches
  }

  /** The identities named by the errors of all runs. */
  ghost function NamedByAll(runs: seq<Attempt>): set<string> {
    if runs == [] then {}
    else
      var a := runs[|runs| - 1];
      NamedByAll(runs[..|runs| - 1]) + (if a.outcome.Some? then NamedBy(a.outcome.value) else {})
  }

  /** A run that reached Azure leaves nothing but the batch it sent last: whatever is outside it is never sent again. */
  lemma {:induction false} RetryLosesOtherBatches(policy: RetryPolicy, first: IdMap, runs: seq<Attempt>,
                                                  i: nat, k: nat, id: string)
    requires RetryTrace(policy, first, runs) && i < k < |runs|
    requires runs[i].left.Entries? && id !in runs[i].left.m
    ensures runs[k].sent.Entries? && id !in runs[k].sent.m
  {
    if i + 1 < k {
      RetryLosesOtherBatches(policy, first, runs, i, k - 1, id);
    }
    assert Follows(policy, runs[k - 1], runs[k]);
  }

  /** A retry sends entries of the first patch, and none that an error named. */
  lemma {:induction false} RetrySendsLess(policy: RetryPolicy, first: IdMap, runs: seq<Attempt>, k: nat)
    requires RetryTrace(policy, first, runs) && 0 < k < |runs|
    ensures first.Entries? && runs[k].sent.Entries? && SubMap(runs[k].sent.m, first.m)
    ensures runs[k].sent.m.Keys !! NamedByAll(runs[..k])
  {
    if k > 1 {
      RetrySendsLess(policy, first, runs, k - 1);
    }
    assert Follows(policy, runs[k - 1], runs[k]);
    assert runs[..k][..k - 1] == runs[..k - 1];
    assert k == 1 ==> NamedByAll(runs[..0]) == {};
  }

  /** Nothing that matters was lost in a run: it sent nothing, or all in one batch, or what it lost was named. */
  ghost predicate Harmless(a: Attempt, named: set<string>) {
    || a.batches == []
    || Size(a.sent) <= MAX_IDENTITIES
    || (a.sent.Entries? && a.left.Entries? && forall id :: id in a.sent.m && id !in a.left.m ==> id in named)
  }

  lemma {:induction false} UnnamedIsSent(policy: RetryPolicy, first: IdMap, runs: seq<Attempt>, k: nat, id: string,
                                         named: set<string>)
    requires RetryTrace(policy, first, runs) && k < |runs| && first.Entries? && id in first.m && id !in named
    requires forall i :: 0 <= i < k ==> Harmless(runs[i], named)
    requires forall i :: 0 <= i < k && runs[i].outcome.Some? ==> NamedBy(runs[i].outcome.value) <= named
    ensures runs[k].sent.Entries? && id in runs[k].sent.m
  {
    if k > 0 {
      UnnamedIsSent(policy, first, runs, k - 1, id, named);
      assert Follows(policy, runs[k - 1], runs[k]) && Harmless(runs[k - 1], named);
    }
  }

  lemma {:induction false} NamedByAllHas(runs: seq<Attempt>, i: nat)
    requires i < |runs| && runs[i].outcome.Some?
    ensures NamedBy(runs[i].outcome.value) <= NamedByAll(runs)
  {
    var n := |runs| - 1;
    if i < n {
      NamedByAllHas(runs[..n], i);
    }
  }

  lemma SameBelow(all: map<string, bool>, part: map<string, bool>, named: set<string>)
    requires SubMap(part, all) && part.Keys !! named && forall id :: id in all && id !in named ==> id in part
    ensures part == all - named
  {
    assert part.Keys == (all - named).Keys;
  }

  lemma RetryExactIf(policy: RetryPolicy, first: IdMap, runs: seq<Attempt>, k: nat)
    requires RetryTrace(policy, first, runs) && 0 < k < |runs|
    requires forall i :: 0 <= i < k ==> Harmless(runs[i], NamedByAll(runs[..k]))
    ensures runs[k].sent == Without(first, NamedByAll(runs[..k]))
  {
    RetrySendsLess(policy, first, runs, k);
    var named := NamedByAll(runs[..k]);
    forall i | 0 <= i < k && runs[i].outcome.Some?
      ensures NamedBy(runs[i].outcome.value) <= named
    {
      NamedByAllHas(runs[..k], i);
    }
    var sent := runs[k].sent.m;
    forall id | id in first.m && id !in named
      ensures id in sent
    {
      UnnamedIsSent(policy, first, runs, k, id, named);
    }
    SameBelow(first.m, sent, named);
  }

  lemma RetryExactOnlyIf(policy: RetryPolicy, first: IdMap, runs: seq<Attempt>, k: nat, i: nat)
    requires RetryTrace(policy, first, runs) && i < k < |runs|
    requires runs[k].sent == Without(first, NamedByAll(runs[..k]))
    ensures Harmless(runs[i], NamedByAll(runs[..k]))
  {
    assert Follows(policy, runs[i], runs[i + 1]);
    if i > 0 {
      RetrySendsLess(policy, first, runs, i);
    }
    forall id | id in runs[i].sent.m && id !in runs[i].left.m
      ensures id in NamedByAll(runs[..k])
    {
      RetryLosesOtherBatches(policy, first, runs, i, k, id);
    }
  }

  /** A retry sends exactly what the errors so far did not name if and only if no earlier run lost anything else: each
      sent nothing, or had one batch only, or all entries outside its last batch were named. */
  lemma RetryExactIff(policy: RetryPolicy, first: IdMap, runs: seq<Attempt>, k: nat)
    requires RetryTrace(policy, first, runs) && 0 < k < |runs|
    ensures runs[k].sent == Without(first, NamedByAll(runs[..k]))
            <==> forall i :: 0 <= i < k ==> Harmless(runs[i], NamedByAll(runs[..k]))
  {
    if runs[k].sent == Without(first, NamedByAll(runs[..k])) {
      forall i | 0 <= i < k
        ensures Harmless(runs[i], NamedByAll(runs[..k]))
      {
        RetryExactOnlyIf(policy, first, runs, k, i);
      }
    } else if forall i :: 0 <= i < k ==> Harmless(runs[i], NamedByAll(runs[..k])) {
      RetryExactIf(policy, first, runs, k);
    }
  }

  /** A patch of one batch is retried exactly without the identities named so far. */
  lemma RetrySendsTheRest(policy: RetryPolicy, first: IdMap, runs: seq<Attempt>, k: nat)
    requires RetryTrace(policy, first, runs) && k < |runs| && Size(first) <= MAX_IDENTITIES
    ensures runs[k].sent == Without(first, NamedByAll(runs[..k]))
  {
    if k == 0 {
      assert first.Entries? ==> first.m - {} == first.m;
    } else {
      forall i | 0 <= i < k
        ensures Harmless(runs[i], NamedByAll(runs[..k]))
      {
        RetryShrinks(policy, first, runs, i);
      }
      RetryExactIf(policy, first, runs, k);
    }
  }

  lemma LargerHasMore(a: map<string, bool>, b: map<string, bool>) returns (k: string)
    requires |a| > |b|
    ensures k in a && k !in b
  {
    assert |a.Keys| == |a| && |b.Keys| == |b|;
    assert |b.Keys| == |b.Keys - a.Keys| + |b.Keys * a.Keys|;
    assert |a.Keys| == |a.Keys - b.Keys| + |a.Keys * b.Keys|;
    assert a.Keys * b.Keys == b.Keys * a.Keys;
    k :| k in a.Keys - b.Keys;
  }

  /** Once a run of more than one batch has reached Azure, some entry of it is in no later run. */
  lemma LargePatchLosesAnEntry(policy: RetryPolicy, first: IdMap, runs: seq<Attempt>, i: nat) returns (id: string)
    requires RetryTrace(policy, first, runs) && i < |runs| - 1
    requires runs[i].batches != [] && Size(runs[i].sent) > MAX_IDENTITIES
    ensures runs[i].sent.Entries? && id in runs[i].sent.m
    ensures forall k :: i < k < |runs| ==> runs[k].sent.Entries? && id !in runs[k].sent.m
  {
    var a := runs[i];
    assert LeftOver(a.sent, a.batches, a.left) && Follows(policy, a, runs[i + 1]);
    id := LargerHasMore(a.sent.m, a.left.m);
    forall k | i < k < |runs|
      ensures runs[k].sent.Entries? && id !in runs[k].sent.m
    {
      RetryLosesOtherBatches(policy, first, runs, i, k, id);
    }
  }

  lemma OneBadEntry(batch: map<string, bool>, bad: string, e: CloudError)
    requires bad in batch && |batch| > 1 && Lower(bad) == bad && e.named == [bad]
    ensures NamedBy(e) == {bad} && WorthRetrying(Entries(batch), {bad}) && |batch - {bad}| == |batch| - 1
  {
    assert Elements(e.named) == {bad};
    assert bad in batch.Keys * {bad};
    assert (batch - {bad}).Keys == batch.Keys - {bad};
    assert |batch| == |batch.Keys| && |batch - {bad}| == |(batch - {bad}).Keys|;
  }

  lemma NamedByTwo(a: Attempt, b: Attempt)
    requires a.outcome.Some? && b.outcome.None?
    ensures NamedByAll([a, b]) == NamedBy(a.outcome.value)
  {
    assert [a, b][..1] == [a] && [a][..0] == [];
    assert NamedByAll([a]) == NamedByAll([]) + NamedBy(a.outcome.value);
  }

  /** For instance: any patch of more than one batch whose first batch fails because of one entry of it. The retry
      sends the rest of that batch only, and an entry no error named is dropped. */
  lemma RetryDropsAnUnnamedEntry(policy: RetryPolicy, all: map<string, bool>, batch: map<string, bool>, bad: string,
                                 message: string) returns (runs: seq<Attempt>, id: string)
    requires SubMap(batch, all) && |batch| == MAX_IDENTITIES < |all| && bad in batch && Lower(bad) == bad
    requires policy.maxRetry >= 1 && policy.IsRetriable(CloudError(message, [bad]))
    ensures RetryTrace(policy, Entries(all), runs) && |runs| == 2 && runs[0].batches == [Entries(batch)]
    ensures runs[1].outcome.None? && runs[1].sent == Entries(batch - {bad})
    ensures id in all && id !in NamedByAll(runs) && id !in runs[1].sent.m
  {
    var e, rest := CloudError(message, [bad]), Entries(batch - {bad});
    OneBadEntry(batch, bad, e);
    runs := [Attempt(Entries(all), [Entries(batch)], Entries(batch), Some(e)), Attempt(rest, [rest], rest, None)];
    assert Follows(policy, runs[0], runs[1]);
    id := LargerHasMore(all, batch);
    NamedByTwo(runs[0], runs[1]);
  }

  /** One step of the loop of StripErroneous. */
  lemma StripNext(was: map<string, bool>, named: seq<string>, i: nat, m: map<string, bool>)
    requires i < |named| && m == was - Fold(Elements(named[..i]))
    ensures m - {Lower(named[i])} == was - Fold(Elements(named[..i + 1]))
    ensures Lower(named[i]) !in m ==> m - {Lower(named[i])} == m
    ensures was.Keys * Fold(Elements(named[..i + 1])) != {}
            <==> was.Keys * Fold(Elements(named[..i])) != {} || Lower(named[i]) in m
  {
    var k, before := Lower(named[i]), Fold(Elements(named[..i]));
    FoldNext(named, i);
    assert was - before - {k} == was - (before + {k});
    assert was.Keys * (before + {k}) == was.Keys * before + was.Keys * {k};
    assert k in was.Keys ==> k in was.Keys * {k};
  }

  /** RemoveUserIdentity for every erroneous identity, then shouldRetry's verdict. */
  method StripErroneous(info: Identity, named: seq<string>) returns (retry: bool)
    modifies info
    ensures info.kind == old(info.kind)
    ensures info.userIds == Without(old(info.userIds), Fold(Elements(named)))
    ensures retry <==> WorthRetrying(old(info.userIds), Fold(Elements(named)))
  {
    if info.userIds.NilMap? {
      return false;
    }
    var m, removedAny, i := info.userIds.m, false, 0;
    ghost var was := m;
    assert Fold(Elements(named[..0])) == {};
    while i < |named|
      invariant 0 <= i <= |named|
      invariant m == was - Fold(Elements(named[..i])) && info.kind == old(info.kind)
      invariant removedAny <==> was.Keys * Fold(Elements(named[..i])) != {}
    {
      var k := Lower(named[i]);
      StripNext(was, named, i, m);
      if k in m {
        m := m - {k};
        removedAny := true;
      }
      i := i + 1;
    }
    assert named[..i] == named;
    info.userIds := Entries(m);
    assert m.Keys == was.Keys - Fold(Elements(named));
    retry := removedAny && |m| > 0;
  }

  lemma FoldNext(ids: seq<string>, i: nat)
    requires i < |ids|
    ensures Fold(Elements(ids[..i + 1])) == Fold(Elements(ids[..i])) + {Lower(ids[i])}
  {
    assert Elements(ids[..i + 1]) == Elements(ids[..i]) + {ids[i]};
  }

  lemma PartialAgain(before: set<string>, p: IdMap, now: set<string>, q: IdMap, after: set<string>)
    requires Partial(before, p, now) && Partial(now, q, after)
    requires p.Entries? && q.Entries? && SubMap(q.m, p.m)
    ensures Partial(before, p, after)
  {
    assert Adds(q.m) <= Adds(p.m) && Drops(q.m) <= Drops(p.m);
  }

  lemma RetryChainAppend(policy: RetryPolicy, first: IdMap, runs: seq<Attempt>, a: Attempt)
    requires RetryChain(policy, first, runs) && Follows(policy, runs[|runs| - 1], a)
    requires LeftOver(a.sent, a.batches, a.left)
    ensures RetryChain(policy, first, runs + [a]) && AllSent(runs + [a]) == AllSent(runs) + a.batches
  {
    var more := runs + [a];
    assert more[..|runs|] == runs;
    forall i | 0 <= i < |more| - 1
      ensures Follows(policy, more[i], more[i + 1])
    {
      assert more[i] == runs[i];
    }
  }

  /** The shared map stays a part of the first patch, and the host within what that patch may do. */
  ghost predicate WithinPatch(p: IdMap, left: IdMap, before: set<string>, now: set<string>) {
    && Partial(before, p, now)
    && (p.NilMap? ==> left.NilMap?)
    && (p.Entries? ==> left.Entries? && SubMap(left.m, p.m) && IsFolded(left.m.Keys))
  }

  /** One iteration of Do: strip the named identities and, if that is worth it, run again. */
  method RunAgain(host: Host, info: Identity, e: CloudError, ghost p: IdMap, ghost before: set<string>)
    returns (retry: bool, rerr: Option<CloudError>, ghost run: Attempt)
    requires host.Valid() && WithinPatch(p, info.userIds, before, host.ids)
    modifies host, info
    ensures host.Valid() && WithinPatch(p, info.userIds, before, host.ids)
    ensures retry <==> WorthRetrying(old(info.userIds), NamedBy(e))
    ensures retry ==> run.sent == Without(old(info.userIds), NamedBy(e))
    ensures retry ==> run.left == info.userIds && run.outcome == rerr && LeftOver(run.sent, run.batches, run.left)
    ensures retry ==> host.log == old(host.log) + run.batches
    ensures !retry ==> host.log == old(host.log)
  {
    retry := StripErroneous(info, e.named);
    rerr := None;
    ghost var sent, now, batches := info.userIds, host.ids, [];
    if retry {
      rerr, batches := UpdateIdentities(host, info);
      PartialAgain(before, p, now, sent, host.ids);
    }
    run := Attempt(sent, batches, info.userIds, rerr);
  }

  /** retry.Do applied to the update function and the shouldRetry closure of UpdateUserMSI. */
  method RetryUpdate(host: Host, info: Identity, policy: RetryPolicy)
    returns (err: Option<CloudError>, ghost runs: seq<Attempt>)
    requires host.Valid()
    requires info.userIds.Entries? ==> IsFolded(info.userIds.m.Keys)
    modifies host, info
    ensures host.Valid()
    ensures RetryTrace(policy, old(info.userIds), runs) && err == runs[0].outcome
    ensures |runs| >= 2 <==> policy.maxRetry >= 1 && CallsForRetry(policy, runs[0])
    ensures host.log == old(host.log) + AllSent(runs)
    ensures Partial(old(host.ids), old(info.userIds), host.ids)
    ensures err.None? ==> |runs| == 1 && host.ids == Apply(old(host.ids), old(info.userIds))
  {
    ghost var p, before, batches := info.userIds, host.ids, [];
    err, batches := UpdateIdentities(host, info);
    runs := [Attempt(p, batches, info.userIds, err)];
    assert runs[..0] == [] && AllSent(runs) == [] + batches;
    if err.None? {
      return;
    }
    var i, rerr := 0, err;
    while i < policy.maxRetry
      invariant 0 <= i && |runs| == i + 1 && (i > 0 ==> i <= policy.maxRetry)
      invariant host.Valid() && RetryChain(policy, p, runs) && err == runs[0].outcome && rerr == runs[i].outcome
      invariant info.userIds == runs[i].left && WithinPatch(p, info.userIds, before, host.ids)
      invariant host.log == old(host.log) + AllSent(runs)
    {
      if rerr.None? || !policy.IsRetriable(rerr.value) {
        break;
      }
      ghost var run;
      var retry, next;
      retry, next, run := RunAgain(host, info, rerr.value, p, before);
      if !retry {
        break;
      }
      RetryChainAppend(policy, p, runs, run);
      AppendAssoc(old(host.log), AllSent(runs), run.batches);
      runs, i, rerr := runs + [run], i + 1, next;
    }
    NextRunIff(policy, p, runs, 0);
  }

  // ---------------------------------------------------------- UpdateUserMSI

  /** What UpdateUserMSI promises about a host, with and without an error. */
  predicate UpdateOutcome(add: set<string>, remove: set<string>, before: set<string>, after: set<string>, ok: bool) {
    var a, r := Fold(add), Fold(remove - add);
    if ok then before - r + (a - r) <= after <= before - (r - a) + a
    else before - r <= after <= before + a
  }

  /** No identity is to be added under one spelling and removed under another. */
  ghost predicate Compatible(add: set<string>, remove: set<string>) {
    Fold(add) !! Fold(remove - add)
  }

  /** Nothing to do: everything to add is there and nothing to remove is. */
  ghost predicate Settled(add: set<string>, remove: set<string>, host: set<string>) {
    host != {} && Fold(add) <= host && Fold(remove - add) !! host
  }

  lemma OutcomeExact(add: set<string>, remove: set<string>, before: set<string>, after: set<string>)
    requires UpdateOutcome(add, remove, before, after, true) && Compatible(add, remove)
    ensures after == before - Fold(remove - add) + Fold(add)
  {
    var a, r := Fold(add), Fold(remove - add);
    assert a - r == a && r - a == r;
  }

  lemma {:induction false} ScanSettled(order: seq<string>, ids: map<string, bool>, cur: set<string>)
    requires forall id :: id in order ==> id in ids
    requires Wanted(ids) <= cur && Unwanted(ids) !! cur
    ensures ScanAll(order, ids, cur) == Scan(cur, map[])
  {
    if order != [] {
      var last := order[|order| - 1];
      ScanSettled(order[..|order| - 1], ids, cur);
      assert last in (if ids[last] then Adds(ids) else Drops(ids));
      assert Lower(last) in (if ids[last] then Wanted(ids) else Unwanted(ids));
    }
  }

  /** The two loops that fill `ids`; an identity in both lists is added. */
  method CollectIds(add: seq<string>, remove: seq<string>) returns (ids: map<string, bool>)
    ensures Adds(ids) == Elements(add)
    ensures Drops(ids) == Elements(remove) - Elements(add)
  {
    ids := map[];
    for i := 0 to |remove|
      invariant ids.Keys == Elements(remove[..i])
      invariant forall k :: k in ids ==> !ids[k]
    {
      assert Elements(remove[..i + 1]) == Elements(remove[..i]) + {remove[i]};
      ids := ids[remove[i] := false];
    }
    assert remove[..|remove|] == remove;
    for i := 0 to |add|
      invariant ids.Keys == Elements(remove) + Elements(add[..i])
      invariant forall k :: k in ids ==> (ids[k] <==> k in Elements(add[..i]))
    {
      assert Elements(add[..i + 1]) == Elements(add[..i]) + {add[i]};
      ids := ids[add[i] := true];
    }
    assert add[..|add|] == add;
  }

  lemma PatchOutcome(order: seq<string>, ids: map<string, bool>, before: set<string>, add: set<string>,
                     remove: set<string>, p: IdMap, after: set<string>)
    requires Enumerates(order, ids.Keys) && Adds(ids) == add && Drops(ids) == remove - add
    requires var s := ScanAll(order, ids, before);
      p == (if s.node == {} then NilMap else Entries(s.patch)) && Partial(before, p, after)
    ensures UpdateOutcome(add, remove, before, after, false)
    ensures after == Apply(before, p) ==> UpdateOutcome(add, remove, before, after, true)
  {
    ScanSound(order, ids, before);
    ScanBounds(order, ids, before);
  }

  /** ResetIdentity of a VM and of a scale set. */
  method ResetIdentity(isvmss: bool) returns (info: Identity)
    ensures fresh(info) && Listed(info.userIds) == {} && !HasSystem(info.kind)
    ensures info.kind == (if isvmss then User else Unset)
    ensures info.userIds == (if isvmss then Entries(map[]) else NilMap)
  {
    if isvmss {
      info := new Identity(User, Entries(map[]));
    } else {
      info := new Identity(Unset, NilMap);
    }
  }

  /** UpdateUserMSI. */
  method UpdateUserMSI(host: Host, isvmss: bool, add: seq<string>, remove: seq<string>, policy: RetryPolicy)
    returns (err: Option<CloudError>)
    requires host.Valid()
    modifies host
    ensures host.Valid()
    ensures UpdateOutcome(Elements(add), Elements(remove), old(host.ids), host.ids, err.None?)
    ensures (add == [] && remove == []) || Settled(Elements(add), Elements(remove), old(host.ids))
      ==> host.log == old(host.log) && host.ids == old(host.ids)
  {
    if |add| == 0 && |remove| == 0 {
      return None;
    }
    var info: Identity?;
    err, info := host.Get();
    if err.Some? {
      return;
    }
    if info == null {
      info := ResetIdentity(isvmss);
    }
    var ids := CollectIds(add, remove);
    var requiresUpdate;
    ghost var order;
    ghost var before := host.ids;
    requiresUpdate, order := SetUserIdentities(info, ids);
    ScanSound(order, ids, before);
    if Settled(Elements(add), Elements(remove), before) {
      ScanSettled(order, ids, before);
    }
    if !requiresUpdate {
      PatchOutcome(order, ids, before, Elements(add), Elements(remove), info.userIds, host.ids);
      return None;
    }
    ghost var p := info.userIds;
    ghost var runs;
    err, runs := RetryUpdate(host, info, policy);
    PatchOutcome(order, ids, before, Elements(add), Elements(remove), p, host.ids);
  }
}
