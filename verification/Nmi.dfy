/** NMI's standard-mode lookup: waiting for MIC's records, the namespace filter, the choice of one identity. */
module Nmi {
  import opened Text
  import opened Records
  import opened Plan
  import opened Safety
  import opened Desired
  import opened Protocol
  import opened SyncCycle
  import Diff

  // ------------------------------------------------------------ listing records

  type Buckets = map<Status, seq<AzureIdentity>>

  function Bucket(m: Buckets, s: Status): seq<AzureIdentity> {
    if s in m then m[s] else []
  }

  /** The identities of a pod's records in state `s`, in list order. */
  function PodIds(list: seq<AssignedID>, podNamespace: string, pod: string, s: Status): seq<AzureIdentity> {
    if list == [] then []
    else
      var rest, r := PodIds(list[..|list| - 1], podNamespace, pod, s), list[|list| - 1];
      if OfPod(r, podNamespace, pod) && r.status == s then rest + [r.identity] else rest
  }

  /** ListPodIds. */
  method ListPodIds(list: seq<AssignedID>, podNamespace: string, pod: string) returns (m: Buckets)
    ensures forall s :: Bucket(m, s) == PodIds(list, podNamespace, pod, s)
  {
    m := map[];
    for i := 0 to |list|
      invariant forall s :: Bucket(m, s) == PodIds(list[..i], podNamespace, pod, s)
    {
      var r := list[i];
      assert list[..i + 1][..i] == list[..i];
      if r.pod == pod && r.podNamespace == podNamespace {
        m := m[r.status := Bucket(m, r.status) + [r.identity]];
      }
    }
    assert list[..|list|] == list;
  }

  // ----------------------------------------------------------- waiting for records

  /** The arguments of GetIdentities. */
  datatype Request = Request(podNamespace: string, pod: string, clientID: string, resourceID: string)
  {
    predicate Unspecified() {
      |clientID| == 0 && |resourceID| == 0
    }

    /** isRequestedIdentity: up to case. */
    predicate Wants(id: AzureIdentity) {
      || (|clientID| != 0 && Lower(clientID) == Lower(id.clientID))
      || (|resourceID| != 0 && Lower(resourceID) == Lower(id.resourceID))
    }

    /** Whether a bucket serves the request. */
    predicate ServedBy(bucket: seq<AzureIdentity>) {
      if Unspecified() then bucket != [] else exists i :: 0 <= i < |bucket| && Wants(bucket[i])
    }

    /** The pod's identities in state `s`. */
    function Ids(list: seq<AssignedID>, s: Status): seq<AzureIdentity> {
      PodIds(list, podNamespace, pod, s)
    }
  }

  /** One attempt: the records its list call saw, and whether the context was done before the next one. */
  datatype Attempt = Attempt(listing: Option<seq<AssignedID>>, cancelled: bool)

  datatype Answer = Found(ids: seq<AzureIdentity>) | NotInCreated | Cancelled | Exhausted

  /** What attempt number `n` decides, if anything; stateless records of old MIC versions come first. */
  function Verdict(rq: Request, a: Attempt, n: int, createdLimit: int): Option<Answer> {
    if a.listing.Some? && rq.ServedBy(rq.Ids(a.listing.value, NoState)) then
      Some(Found(rq.Ids(a.listing.value, NoState)))
    else if a.listing.Some? && rq.ServedBy(rq.Ids(a.listing.value, Assigned)) then
      Some(Found(rq.Ids(a.listing.value, Assigned)))
    else if a.listing.Some? && !rq.ServedBy(rq.Ids(a.listing.value, Created)) && n >= createdLimit then
      Some(NotInCreated)
    else if a.cancelled then Some(Cancelled)
    else None
  }

  // ------------------------------------------- the wait, in terms of the records

  /** Record `r` is the pod's, in state `s`, and has an identity that is asked for, up to case; a request without IDs
      asks for any. */
  predicate Requested(rq: Request, r: AssignedID, s: Status) {
    && r.pod == rq.pod && r.podNamespace == rq.podNamespace && r.status == s
    && (|| (rq.clientID == "" && rq.resourceID == "")
        || (rq.clientID != "" && Lower(r.identity.clientID) == Lower(rq.clientID))
        || (rq.resourceID != "" && Lower(r.identity.resourceID) == Lower(rq.resourceID)))
  }

  /** The list call of the attempt saw such a record. */
  ghost predicate Shows(rq: Request, a: Attempt, s: Status) {
    a.listing.Some? && exists r :: r in a.listing.value && Requested(rq, r, s)
  }

  /** Attempt number `n` does not end the wait: nothing is available, and from the Created limit on every list call that
      succeeds still sees a record in state Created. */
  ghost predicate Waits(rq: Request, a: Attempt, n: int, createdLimit: int) {
    && !Shows(rq, a, NoState) && !Shows(rq, a, Assigned) && !a.cancelled
    && (a.listing.Some? && n >= createdLimit ==> Shows(rq, a, Created))
  }

  /** Stateless records serve before Assigned ones. */
  ghost function Serving(rq: Request, a: Attempt): Status {
    if Shows(rq, a, NoState) then NoState else Assigned
  }

  /** What an attempt that ends the wait answers. */
  ghost predicate Answers(rq: Request, a: Attempt, n: int, createdLimit: int, answer: Answer) {
    match answer
    case Found(ids) => Shows(rq, a, Serving(rq, a)) && ids == rq.Ids(a.listing.value, Serving(rq, a))
    case NotInCreated =>
      && n >= createdLimit && a.listing.Some?
      && !Shows(rq, a, NoState) && !Shows(rq, a, Assigned) && !Shows(rq, a, Created)
    case Cancelled =>
      && a.cancelled && !Shows(rq, a, NoState) && !Shows(rq, a, Assigned)
      && (a.listing.Some? && n >= createdLimit ==> Shows(rq, a, Created))
    case Exhausted => false
  }

  lemma {:induction false} PodIdsExact(list: seq<AssignedID>, podNamespace: string, pod: string, s: Status,
                                       id: AzureIdentity)
    ensures id in PodIds(list, podNamespace, pod, s) <==>
      exists r :: r in list && r.pod == pod && r.podNamespace == podNamespace && r.status == s && r.identity == id
  {
    if list != [] {
      var n := |list| - 1;
      PodIdsExact(list[..n], podNamespace, pod, s, id);
      assert forall r :: r in list <==> r in list[..n] || r == list[n];
    }
  }

  lemma ServedIff(rq: Request, list: seq<AssignedID>, s: Status)
    ensures rq.ServedBy(rq.Ids(list, s)) <==> exists r :: r in list && Requested(rq, r, s)
  {
    var ids := rq.Ids(list, s);
    if rq.ServedBy(ids) {
      var i :| 0 <= i < |ids| && (rq.Unspecified() || rq.Wants(ids[i]));
      PodIdsExact(list, rq.podNamespace, rq.pod, s, ids[i]);
      var r :| r in list && r.pod == rq.pod && r.podNamespace == rq.podNamespace && r.status == s
        && r.identity == ids[i];
      assert Requested(rq, r, s);
    }
    if r :| r in list && Requested(rq, r, s) {
      PodIdsExact(list, rq.podNamespace, rq.pod, s, r.identity);
      assert r.identity in ids && (rq.Unspecified() || rq.Wants(r.identity));
    }
  }

  /** The verdict of an attempt depends on the pod's requested records in the states stateless, Assigned and Created, as
      described. */
  lemma VerdictExact(rq: Request, a: Attempt, n: int, createdLimit: int)
    ensures Verdict(rq, a, n, createdLimit) == None <==> Waits(rq, a, n, createdLimit)
    ensures forall x ::
      Verdict(rq, a, n, createdLimit) == Some(x) <==> Answers(rq, a, n, createdLimit, x)
  {
    if a.listing.Some? {
      ServedIff(rq, a.listing.value, NoState);
      ServedIff(rq, a.listing.value, Assigned);
      ServedIff(rq, a.listing.value, Created);
    }
  }

  /** Attempt `k` is the first that ends the wait. */
  ghost predicate Decides(rq: Request, env: seq<Attempt>, createdLimit: int, k: int) {
    && 0 <= k < |env| && !Waits(rq, env[k], k, createdLimit)
    && forall j :: 0 <= j < k ==> Waits(rq, env[j], j, createdLimit)
  }

  method AnyWanted(rq: Request, bucket: seq<AzureIdentity>) returns (found: bool)
    ensures found <==> exists i :: 0 <= i < |bucket| && rq.Wants(bucket[i])
  {
    for i := 0 to |bucket|
      invariant forall j :: 0 <= j < i ==> !rq.Wants(bucket[j])
    {
      if rq.Wants(bucket[i]) {
        return true;
      }
    }
    return false;
  }

  method Serves(rq: Request, bucket: seq<AzureIdentity>) returns (served: bool)
    ensures served <==> rq.ServedBy(bucket)
  {
    if rq.Unspecified() {
      return |bucket| != 0;
    }
    served := AnyWanted(rq, bucket);
  }

  /** The body of the loop of listPodIDsWithRetry after a list call that succeeded. */
  method JudgeListing(rq: Request, list: seq<AssignedID>, attempt: int, createdLimit: int)
    returns (answer: Option<Answer>)
    ensures answer == Verdict(rq, Attempt(Some(list), false), attempt, createdLimit)
  {
    var m := ListPodIds(list, rq.podNamespace, rq.pod);
    var served := Serves(rq, Bucket(m, NoState));
    if served {
      return Some(Found(Bucket(m, NoState)));
    }
    served := Serves(rq, Bucket(m, Assigned));
    if served {
      return Some(Found(Bucket(m, Assigned)));
    }
    served := Serves(rq, Bucket(m, Created));
    if !served && attempt >= createdLimit {
      return Some(NotInCreated);
    }
    return None;
  }

  /** listPodIDsWithRetry: `env` supplies the outcome of every attempt the limits allow. */
  method ListPodIDsWithRetry(createdLimit: int, assignedLimit: int, rq: Request, env: seq<Attempt>)
    returns (answer: Answer, calls: nat)
    requires createdLimit + assignedLimit <= |env|
    ensures calls == 0 || calls <= createdLimit + assignedLimit
    ensures answer.Exhausted? ==> calls >= createdLimit + assignedLimit
    ensures answer.Exhausted? <==>
      forall k :: 0 <= k < createdLimit + assignedLimit ==> Waits(rq, env[k], k, createdLimit)
    ensures !answer.Exhausted? ==> calls > 0 && Decides(rq, env, createdLimit, calls - 1)
    ensures !answer.Exhausted? ==> Answers(rq, env[calls - 1], calls - 1, createdLimit, answer)
  {
    var attempt := 0;
    while attempt < createdLimit + assignedLimit
      invariant 0 <= attempt && (attempt == 0 || attempt <= createdLimit + assignedLimit)
      invariant forall k :: 0 <= k < attempt ==> Waits(rq, env[k], k, createdLimit)
    {
      var a := env[attempt];
      VerdictExact(rq, a, attempt, createdLimit);
      if a.listing.Some? {
        var verdict := JudgeListing(rq, a.listing.value, attempt, createdLimit);
        if verdict.Some? {
          assert Verdict(rq, a, attempt, createdLimit) == verdict;
          return verdict.value, attempt + 1;
        }
      }
      attempt := attempt + 1;
      if a.cancelled {
        assert Verdict(rq, a, attempt - 1, createdLimit) == Some(Cancelled);
        return Cancelled, attempt;
      }
    }
    return Exhausted, attempt;
  }

  // -------------------------------------------------- choosing one identity

  /** What the server sees; Crash is the unguarded index into an empty list. */
  datatype Outcome = Identity(id: AzureIdentity) | Forbidden | NotReady | NoMatch | Crash

  /** The namespace filter. */
  predicate Visible(isNamespaced: bool, podNamespace: string, id: AzureIdentity) {
    isNamespaced || id.namespaced ==> id.namespace == podNamespace
  }

  function Filter(isNamespaced: bool, podNamespace: string, ids: seq<AzureIdentity>): seq<AzureIdentity> {
    if ids == [] then []
    else
      var rest, id := Filter(isNamespaced, podNamespace, ids[..|ids| - 1]), ids[|ids| - 1];
      if Visible(isNamespaced, podNamespace, id) then rest + [id] else rest
  }

  /** The final match is exact, unlike the one that ended the wait. */
  predicate Matches(rq: Request, id: AzureIdentity) {
    (|rq.clientID| != 0 && id.clientID == rq.clientID) || (|rq.resourceID| != 0 && id.resourceID == rq.resourceID)
  }

  /** The identity may be seen from the namespace of the pod and is exactly what is asked for. */
  predicate Suits(isNamespaced: bool, rq: Request, id: AzureIdentity) {
    && (isNamespaced || id.namespaced ==> id.namespace == rq.podNamespace)
    && (|| (rq.clientID == "" && rq.resourceID == "")
        || (rq.clientID != "" && id.clientID == rq.clientID)
        || (rq.resourceID != "" && id.resourceID == rq.resourceID))
  }

  /** `i` is the first position of `ids` that suits. */
  ghost predicate FirstSuiting(isNamespaced: bool, rq: Request, ids: seq<AzureIdentity>, i: nat) {
    i < |ids| && Suits(isNamespaced, rq, ids[i]) && forall j :: 0 <= j < i ==> !Suits(isNamespaced, rq, ids[j])
  }

  /** The two requests differ in upper and lower case only. */
  predicate SameUpToCase(a: Request, b: Request) {
    && a.podNamespace == b.podNamespace && a.pod == b.pod
    && Lower(a.clientID) == Lower(b.clientID) && Lower(a.resourceID) == Lower(b.resourceID)
  }

  lemma WantsIgnoresCase(a: Request, b: Request, bucket: seq<AzureIdentity>)
    requires SameUpToCase(a, b)
    ensures a.ServedBy(bucket) <==> b.ServedBy(bucket)
  {
    assert |a.clientID| == |b.clientID| && |a.resourceID| == |b.resourceID|;
    assert forall id :: a.Wants(id) <==> b.Wants(id);
  }

  /** The wait ignores case: every attempt has the same verdict for all spellings of a request. */
  lemma WaitIgnoresCase(a: Request, b: Request, attempt: Attempt, n: int, createdLimit: int)
    requires SameUpToCase(a, b)
    ensures Verdict(a, attempt, n, createdLimit) == Verdict(b, attempt, n, createdLimit)
  {
    if attempt.listing.Some? {
      WantsIgnoresCase(a, b, a.Ids(attempt.listing.value, NoState));
      WantsIgnoresCase(a, b, a.Ids(attempt.listing.value, Assigned));
      WantsIgnoresCase(a, b, a.Ids(attempt.listing.value, Created));
    }
  }

  /** The choice does not: of every request that is served some spelling is matched. */
  lemma SomeSpellingMatches(rq: Request, bucket: seq<AzureIdentity>) returns (other: Request, i: nat)
    requires rq.ServedBy(bucket) && !rq.Unspecified()
    ensures SameUpToCase(rq, other) && i < |bucket| && Matches(other, bucket[i])
  {
    i :| 0 <= i < |bucket| && rq.Wants(bucket[i]);
    if |rq.clientID| != 0 && Lower(rq.clientID) == Lower(bucket[i].clientID) {
      other := rq.(clientID := bucket[i].clientID);
      assert |Lower(rq.clientID)| == |rq.clientID| && |Lower(bucket[i].clientID)| == |bucket[i].clientID|;
    } else {
      other := rq.(resourceID := bucket[i].resourceID);
      assert |Lower(rq.resourceID)| == |rq.resourceID| && |Lower(bucket[i].resourceID)| == |bucket[i].resourceID|;
    }
  }

  /** The choice: the first identity that suits; without one, a crash if nothing in particular was asked for. */
  ghost predicate Chooses(isNamespaced: bool, rq: Request, ids: seq<AzureIdentity>, o: Outcome) {
    if o.Identity? then exists i: nat :: FirstSuiting(isNamespaced, rq, ids, i) && ids[i] == o.id
    else
      && o == (if rq.clientID == "" && rq.resourceID == "" then Crash else NoMatch)
      && forall j :: 0 <= j < |ids| ==> !Suits(isNamespaced, rq, ids[j])
  }

  /** `i` is the first position of the filtered `ids` that the loop returns. */
  predicate FirstMatch(rq: Request, ids: seq<AzureIdentity>, i: nat) {
    i < |ids| && Takes(rq, ids[i]) && forall j :: 0 <= j < i ==> !Takes(rq, ids[j])
  }

  predicate Takes(rq: Request, id: AzureIdentity) {
    rq.Unspecified() || Matches(rq, id)
  }

  lemma FirstMatchOfPrefix(rq: Request, prefix: seq<AzureIdentity>, ids: seq<AzureIdentity>, i: nat)
    requires prefix <= ids && FirstMatch(rq, ids, i)
    ensures if i < |prefix| then FirstMatch(rq, prefix, i) else forall id :: id in prefix ==> !Takes(rq, id)
  {
    assert forall j :: 0 <= j < |prefix| ==> prefix[j] == ids[j];
  }

  /** What passes the filter and matches suits, and the first remains the first. */
  lemma {:induction false} FilterFirst(isNamespaced: bool, rq: Request, ids: seq<AzureIdentity>, i: nat)
    returns (k: nat)
    requires FirstMatch(rq, Filter(isNamespaced, rq.podNamespace, ids), i)
    ensures FirstSuiting(isNamespaced, rq, ids, k) && ids[k] == Filter(isNamespaced, rq.podNamespace, ids)[i]
  {
    var n := |ids| - 1;
    var f, full := Filter(isNamespaced, rq.podNamespace, ids[..n]), Filter(isNamespaced, rq.podNamespace, ids);
    assert full == f || full == f + [ids[n]];
    FirstMatchOfPrefix(rq, f, full, i);
    if i < |f| {
      k := FilterFirst(isNamespaced, rq, ids[..n], i);
    } else {
      k := n;
      FilterExact(isNamespaced, rq.podNamespace, ids[..n]);
      forall j | 0 <= j < n
        ensures !Suits(isNamespaced, rq, ids[j])
      {
        assert ids[j] in ids[..n];
      }
    }
  }

  lemma FilterNone(isNamespaced: bool, rq: Request, ids: seq<AzureIdentity>)
    requires forall id :: id in Filter(isNamespaced, rq.podNamespace, ids) ==> !Takes(rq, id)
    ensures forall j :: 0 <= j < |ids| ==> !Suits(isNamespaced, rq, ids[j])
  {
    FilterExact(isNamespaced, rq.podNamespace, ids);
  }

  /** StandardClient.GetIdentities, after the wait. */
  method StandardGetIdentities(isNamespaced: bool, rq: Request, answer: Answer) returns (o: Outcome)
    ensures answer.NotInCreated? <==> o.Forbidden?
    ensures answer.Cancelled? || answer.Exhausted? <==> o.NotReady?
    ensures answer.Found? ==> Chooses(isNamespaced, rq, answer.ids, o)
  {
    var podNamespace := rq.podNamespace;
    match answer {
      case NotInCreated => return Forbidden;
      case Cancelled => return NotReady;
      case Exhausted => return NotReady;
      case Found(podIds) =>
        var ids := [];
        for i := 0 to |podIds|
          invariant ids == Filter(isNamespaced, podNamespace, podIds[..i])
        {
          assert podIds[..i + 1][..i] == podIds[..i];
          if !(isNamespaced || podIds[i].namespaced) || podIds[i].namespace == podNamespace {
            ids := ids + [podIds[i]];
          }
        }
        assert podIds[..|podIds|] == podIds;
        if |rq.clientID| == 0 && |rq.resourceID| == 0 {
          if ids == [] {
            FilterNone(isNamespaced, rq, podIds);
          } else {
            ghost var k := FilterFirst(isNamespaced, rq, podIds, 0);
          }
          return if |ids| == 0 then Crash else Identity(ids[0]);
        }
        for i := 0 to |ids|
          invariant forall j :: 0 <= j < i ==> !Matches(rq, ids[j])
        {
          if |rq.clientID| != 0 && ids[i].clientID == rq.clientID {
            ghost var k := FilterFirst(isNamespaced, rq, podIds, i);
            return Identity(ids[i]);
          }
          if |rq.resourceID| != 0 && ids[i].resourceID == rq.resourceID {
            ghost var k := FilterFirst(isNamespaced, rq, podIds, i);
            return Identity(ids[i]);
          }
        }
        FilterNone(isNamespaced, rq, podIds);
        return NoMatch;
    }
  }

  lemma {:induction false} FilterExact(isNamespaced: bool, podNamespace: string, ids: seq<AzureIdentity>)
    ensures forall id :: id in Filter(isNamespaced, podNamespace, ids) <==>
      id in ids && (isNamespaced || id.namespaced ==> id.namespace == podNamespace)
  {
    if ids != [] {
      FilterExact(isNamespaced, podNamespace, ids[..|ids| - 1]);
      assert ids == ids[..|ids| - 1] + [ids[|ids| - 1]];
    }
  }

  lemma {:induction false} FilterKeepsAll(isNamespaced: bool, podNamespace: string, ids: seq<AzureIdentity>)
    requires forall i :: 0 <= i < |ids| ==> Visible(isNamespaced, podNamespace, ids[i])
    ensures Filter(isNamespaced, podNamespace, ids) == ids
  {
    if ids != [] {
      FilterKeepsAll(isNamespaced, podNamespace, ids[..|ids| - 1]);
      assert ids == ids[..|ids| - 1] + [ids[|ids| - 1]];
    }
  }

  // --------------------------------------------- agreement with what MIC wrote

  /** A record as MIC makes it: namespaced identities belong to the namespace of the pod. */
  predicate Lawful(isNamespaced: bool, r: AssignedID) {
    isNamespaced || r.identity.namespaced ==> r.identity.namespace == r.podNamespace
  }

  lemma DesiredIsLawful(isNamespaced: bool, ids: IdentityMap, bs: seq<Binding>, pods: seq<Pod>, k: string)
    requires k in DesiredOf(isNamespaced, ids, bs, pods)
    ensures var r := DesiredOf(isNamespaced, ids, bs, pods)[k];
      isNamespaced || r.identity.namespaced ==> r.identity.namespace == r.podNamespace
  {
    DesiredIsSound(isNamespaced, ids, bs, pods);
    var m := DesiredOf(isNamespaced, ids, bs, pods);
    var pod, b :| pod in pods && b in bs && Justifies(isNamespaced, ids, pod, b, m[k]);
  }

  ghost predicate LawfulStore(isNamespaced: bool, store: AssignedMap) {
    forall n :: n in store ==> Lawful(isNamespaced, store[n])
  }

  /** Whatever a cycle does, and whatever fails, the stored records stay lawful. */
  lemma {:induction false} StoreStaysLawful(isNamespaced: bool, c: Config, hosts: map<HostKey, Track>, ws: seq<World>,
                                            es: seq<Event>, i: nat)
    requires c.batch >= 0 && Run(c, ws, es) && Initial(c, ws[0], hosts) && i < |ws|
    requires LawfulStore(isNamespaced, ws[0].store)
    requires LawfulJobs(isNamespaced, hosts)
    ensures LawfulStore(isNamespaced, ws[i].store)
  {
    if i > 0 {
      StoreStaysLawful(isNamespaced, c, hosts, ws, es, i - 1);
      RunDisciplined(c, hosts, ws, es, i - 1);
      assert At(i - 1);
      StepStaysLawful(isNamespaced, c, ws[i - 1], es[i - 1].host, es[i - 1].move, hosts);
    }
  }

  ghost predicate LawfulJobs(isNamespaced: bool, hosts: map<HostKey, Track>) {
    forall h, r :: h in hosts && r in Jobs(hosts[h]) ==> Lawful(isNamespaced, r)
  }

  lemma StepStaysLawful(isNamespaced: bool, c: Config, w: World, g: HostKey, mv: Move, hosts: map<HostKey, Track>)
    requires Tracks(w, hosts) && Enabled(c, w, g, mv) && LawfulStore(isNamespaced, w.store)
    requires LawfulJobs(isNamespaced, hosts)
    ensures LawfulStore(isNamespaced, Step(c, w, g, mv).store)
  {
    var p, store := w.procs[g], Step(c, w, g, mv).store;
    forall n | n in store
      ensures Lawful(isNamespaced, store[n])
    {
      if Target(p, mv) != Some(n) {
        OnlyTargetChanges(c, p, w.store, mv, n);
      } else if mv.Finish? && mv.task.Write? {
        var r := Jobs(p.track)[mv.task.i];
        assert r in Jobs(hosts[g]) && Lawful(isNamespaced, r);
      }
    }
  }

  lemma {:induction false} PodIdsVisible(isNamespaced: bool, list: seq<AssignedID>, podNamespace: string, pod: string,
                                         s: Status, id: AzureIdentity)
    requires forall r :: r in list ==> Lawful(isNamespaced, r)
    requires id in PodIds(list, podNamespace, pod, s)
    ensures Visible(isNamespaced, podNamespace, id)
  {
    var n := |list| - 1;
    if id in PodIds(list[..n], podNamespace, pod, s) {
      PodIdsVisible(isNamespaced, list[..n], podNamespace, pod, s, id);
    } else {
      assert list[n] in list && list[n].identity == id;
    }
  }

  /** With the same IsNamespaced flag NMI filters out nothing that MIC assigned, so its first element exists. */
  lemma FilterKeepsLawful(isNamespaced: bool, list: seq<AssignedID>, podNamespace: string, pod: string, s: Status)
    requires forall r :: r in list ==> Lawful(isNamespaced, r)
    ensures Filter(isNamespaced, podNamespace, PodIds(list, podNamespace, pod, s)) == PodIds(list, podNamespace, pod, s)
  {
    var ids := PodIds(list, podNamespace, pod, s);
    forall id | id in ids
      ensures Visible(isNamespaced, podNamespace, id)
    {
      PodIdsVisible(isNamespaced, list, podNamespace, pod, s, id);
    }
    FilterKeepsAll(isNamespaced, podNamespace, ids);
  }

  /** Every list call returns lawful records. */
  ghost predicate LawfulListings(isNamespaced: bool, env: seq<Attempt>) {
    forall a, r :: a in env && a.listing.Some? && r in a.listing.value ==> Lawful(isNamespaced, r)
  }

  /** Record `r` is the pod's, in state `s`, and has exactly the identity that is asked for. */
  predicate RequestedExactly(rq: Request, r: AssignedID, s: Status) {
    && r.pod == rq.pod && r.podNamespace == rq.podNamespace && r.status == s
    && (|| (rq.clientID == "" && rq.resourceID == "")
        || (rq.clientID != "" && r.identity.clientID == rq.clientID)
        || (rq.resourceID != "" && r.identity.resourceID == rq.resourceID))
  }

  ghost predicate FirstRecord(rq: Request, list: seq<AssignedID>, s: Status, i: nat) {
    i < |list| && RequestedExactly(rq, list[i], s) && forall j :: 0 <= j < i ==> !RequestedExactly(rq, list[j], s)
  }

  /** The identity of the first record that has what is asked for, among those in state `s`. */
  ghost predicate Picked(rq: Request, list: seq<AssignedID>, s: Status, o: Outcome) {
    || (o.Identity? && exists i: nat :: FirstRecord(rq, list, s, i) && list[i].identity == o.id)
    || (o == NoMatch && forall r :: r in list ==> !RequestedExactly(rq, r, s))
  }

  lemma {:induction false} FirstIsFirstRecord(isNamespaced: bool, rq: Request, list: seq<AssignedID>, s: Status, i: nat)
    returns (k: nat)
    requires FirstSuiting(isNamespaced, rq, rq.Ids(list, s), i) && forall r :: r in list ==> Lawful(isNamespaced, r)
    ensures FirstRecord(rq, list, s, k) && list[k].identity == rq.Ids(list, s)[i]
  {
    var n := |list| - 1;
    var ids := rq.Ids(list[..n], s);
    if i < |ids| {
      assert forall j :: 0 <= j <= i ==> ids[j] == rq.Ids(list, s)[j];
      k := FirstIsFirstRecord(isNamespaced, rq, list[..n], s, i);
    } else {
      k := n;
      assert forall m :: 0 <= m < |ids| ==> ids[m] == rq.Ids(list, s)[m] && !Suits(isNamespaced, rq, ids[m]);
      forall j | 0 <= j < n
        ensures !RequestedExactly(rq, list[j], s)
      {
        if RequestedExactly(rq, list[j], s) {
          assert list[j] in list[..n];
          RequestedIsListed(isNamespaced, rq, list[..n], s, list[j]);
        }
      }
    }
  }

  /** In lawful records, what is asked for suits. */
  lemma RequestedIsListed(isNamespaced: bool, rq: Request, list: seq<AssignedID>, s: Status, r: AssignedID)
    requires r in list && RequestedExactly(rq, r, s) && Lawful(isNamespaced, r)
    ensures exists i :: 0 <= i < |rq.Ids(list, s)| && Suits(isNamespaced, rq, rq.Ids(list, s)[i])
  {
    PodIdsExact(list, rq.podNamespace, rq.pod, s, r.identity);
    assert r.identity in rq.Ids(list, s);
  }

  lemma ChosenIsPicked(isNamespaced: bool, rq: Request, list: seq<AssignedID>, s: Status, o: Outcome)
    requires Chooses(isNamespaced, rq, rq.Ids(list, s), o) && forall r :: r in list ==> Lawful(isNamespaced, r)
    requires exists r :: r in list && Requested(rq, r, s)
    ensures Picked(rq, list, s, o)
  {
    if o.Identity? {
      var i: nat :| FirstSuiting(isNamespaced, rq, rq.Ids(list, s), i) && rq.Ids(list, s)[i] == o.id;
      var k := FirstIsFirstRecord(isNamespaced, rq, list, s, i);
    } else {
      forall r | r in list && RequestedExactly(rq, r, s)
        ensures false
      {
        RequestedIsListed(isNamespaced, rq, list, s, r);
      }
      var r :| r in list && Requested(rq, r, s);
      assert o == NoMatch;
    }
  }

  /** What the server sees of the attempt that ends the wait. */
  ghost predicate Outcomes(rq: Request, a: Attempt, n: int, createdLimit: int, o: Outcome) {
    if Shows(rq, a, NoState) then Picked(rq, a.listing.value, NoState, o)
    else if Shows(rq, a, Assigned) then Picked(rq, a.listing.value, Assigned, o)
    else if a.listing.Some? && n >= createdLimit && !Shows(rq, a, Created) then o == Forbidden
    else o == NotReady
  }

  lemma AnswerOutcome(isNamespaced: bool, rq: Request, a: Attempt, n: int, createdLimit: int, answer: Answer,
                      o: Outcome)
    requires Answers(rq, a, n, createdLimit, answer)
    requires a.listing.Some? ==> forall r :: r in a.listing.value ==> Lawful(isNamespaced, r)
    requires answer.NotInCreated? <==> o.Forbidden?
    requires answer.Cancelled? <==> o.NotReady?
    requires answer.Found? ==> Chooses(isNamespaced, rq, answer.ids, o)
    ensures Outcomes(rq, a, n, createdLimit, o)
  {
    if answer.Found? {
      ChosenIsPicked(isNamespaced, rq, a.listing.value, Serving(rq, a), o);
    }
  }

  /** Attempt `k` is within the limits and the first that ends the wait. */
  ghost predicate DecidedBy(rq: Request, env: seq<Attempt>, createdLimit: int, limit: int, k: int) {
    k < limit <= |env| && Decides(rq, env, createdLimit, k)
  }

  /** The outcome of a lookup, given what the list calls return: the first attempt that ends the wait decides. */
  ghost predicate LookedUp(rq: Request, env: seq<Attempt>, createdLimit: int, limit: int, o: Outcome)
    requires limit <= |env|
  {
    && ((forall k :: 0 <= k < limit ==> Waits(rq, env[k], k, createdLimit)) ==> o == NotReady)
    && (forall k :: DecidedBy(rq, env, createdLimit, limit, k) ==> Outcomes(rq, env[k], k, createdLimit, o))
  }

  lemma OneDecides(rq: Request, env: seq<Attempt>, createdLimit: int, k: int, l: int)
    requires Decides(rq, env, createdLimit, k) && Decides(rq, env, createdLimit, l)
    ensures k == l
  {
  }

  lemma DecidedOutcome(rq: Request, env: seq<Attempt>, createdLimit: int, limit: int, k: int, o: Outcome)
    requires DecidedBy(rq, env, createdLimit, limit, k) && Outcomes(rq, env[k], k, createdLimit, o)
    ensures LookedUp(rq, env, createdLimit, limit, o)
  {
    forall l | DecidedBy(rq, env, createdLimit, limit, l)
      ensures l == k
    {
      OneDecides(rq, env, createdLimit, k, l);
    }
  }

  lemma {:induction false} FirstDecides(rq: Request, env: seq<Attempt>, createdLimit: int, limit: nat) returns (k: int)
    requires limit <= |env| && exists j :: 0 <= j < limit && !Waits(rq, env[j], j, createdLimit)
    ensures DecidedBy(rq, env, createdLimit, limit, k)
  {
    if j :| 0 <= j < limit - 1 && !Waits(rq, env[j], j, createdLimit) {
      k := FirstDecides(rq, env, createdLimit, limit - 1);
    } else {
      k := limit - 1;
    }
  }

  lemma SomeOutcome(rq: Request, env: seq<Attempt>, createdLimit: int, limit: int, o: Outcome) returns (k: int)
    requires limit <= |env| && LookedUp(rq, env, createdLimit, limit, o) && o != NotReady
    ensures DecidedBy(rq, env, createdLimit, limit, k) && Outcomes(rq, env[k], k, createdLimit, o)
  {
    assert exists j :: 0 <= j < limit && !Waits(rq, env[j], j, createdLimit);
    k := FirstDecides(rq, env, createdLimit, limit);
  }

  /** Forbidden exactly if an attempt from the Created limit on lists no requested record of the pod that is stateless,
      Assigned or Created, and no attempt before it found one available, was cancelled, or did the same. */
  lemma ForbiddenIff(rq: Request, env: seq<Attempt>, createdLimit: int, limit: int, o: Outcome)
    requires limit <= |env| && LookedUp(rq, env, createdLimit, limit, o)
    ensures o == Forbidden <==> exists k :: (
      && createdLimit <= k && 0 <= k < limit && env[k].listing.Some?
      && (forall r :: r in env[k].listing.value ==>
            !Requested(rq, r, NoState) && !Requested(rq, r, Assigned) && !Requested(rq, r, Created))
      && forall j :: 0 <= j < k ==>
           && !env[j].cancelled && !Shows(rq, env[j], NoState) && !Shows(rq, env[j], Assigned)
           && (createdLimit <= j && env[j].listing.Some? ==> Shows(rq, env[j], Created)))
  {
    if o == Forbidden {
      var k := SomeOutcome(rq, env, createdLimit, limit, o);
    }
    if k :| createdLimit <= k && 0 <= k < limit && env[k].listing.Some? && !Shows(rq, env[k], NoState)
              && !Shows(rq, env[k], Assigned) && !Shows(rq, env[k], Created)
              && forall j :: 0 <= j < k ==> Waits(rq, env[j], j, createdLimit) {
      assert DecidedBy(rq, env, createdLimit, limit, k);
    }
  }

  /** While a requested record of the pod stays Created and none is available, the pod is told to come back: Created is
      never taken for missing. */
  lemma PendingIsNotReady(rq: Request, env: seq<Attempt>, createdLimit: int, limit: int, o: Outcome)
    requires limit <= |env| && LookedUp(rq, env, createdLimit, limit, o)
    requires forall k :: 0 <= k < limit && env[k].listing.Some? ==>
      && (exists r :: r in env[k].listing.value && Requested(rq, r, Created))
      && (forall r :: r in env[k].listing.value ==> !Requested(rq, r, NoState) && !Requested(rq, r, Assigned))
    ensures o == NotReady
  {
    if o != NotReady {
      var k := SomeOutcome(rq, env, createdLimit, limit, o);
    }
  }

  /** The identity is that of a record of the pod with exactly the requested IDs, which was stateless, or Assigned while
      no requested record was stateless, in the first listing that showed an available one. */
  ghost predicate RightIdentity(rq: Request, env: seq<Attempt>, createdLimit: int, limit: int, id: AzureIdentity) {
    exists k, r :: (
      && DecidedBy(rq, env, createdLimit, limit, k) && env[k].listing.Some? && r in env[k].listing.value
      && r.identity == id && r.pod == rq.pod && r.podNamespace == rq.podNamespace
      && (|| (rq.clientID == "" && rq.resourceID == "")
          || (rq.clientID != "" && id.clientID == rq.clientID)
          || (rq.resourceID != "" && id.resourceID == rq.resourceID))
      && (|| r.status == NoState
          || (r.status == Assigned && forall q :: q in env[k].listing.value ==> !Requested(rq, q, NoState))))
  }

  lemma IdentityIsRight(rq: Request, env: seq<Attempt>, createdLimit: int, limit: int, o: Outcome)
    requires limit <= |env| && LookedUp(rq, env, createdLimit, limit, o) && o.Identity?
    ensures RightIdentity(rq, env, createdLimit, limit, o.id)
  {
    var k := SomeOutcome(rq, env, createdLimit, limit, o);
    var s := Serving(rq, env[k]);
    var i: nat :| FirstRecord(rq, env[k].listing.value, s, i) && env[k].listing.value[i].identity == o.id;
    assert env[k].listing.value[i] in env[k].listing.value;
  }

  /** The deciding attempt has requested records available, but with the requested IDs in another case only. */
  ghost predicate WrongCase(rq: Request, env: seq<Attempt>, createdLimit: int, limit: int) {
    exists k :: DecidedBy(rq, env, createdLimit, limit, k) && Shows(rq, env[k], Serving(rq, env[k]))
      && forall r :: r in env[k].listing.value ==> !RequestedExactly(rq, r, Serving(rq, env[k]))
  }

  lemma NoMatchIff(rq: Request, env: seq<Attempt>, createdLimit: int, limit: int, o: Outcome)
    requires limit <= |env| && LookedUp(rq, env, createdLimit, limit, o)
    ensures o == NoMatch <==> WrongCase(rq, env, createdLimit, limit)
  {
    if o == NoMatch {
      var k := SomeOutcome(rq, env, createdLimit, limit, o);
      assert Shows(rq, env[k], Serving(rq, env[k]));
    }
    if WrongCase(rq, env, createdLimit, limit) {
      var k :| DecidedBy(rq, env, createdLimit, limit, k) && Shows(rq, env[k], Serving(rq, env[k]))
        && forall r :: r in env[k].listing.value ==> !RequestedExactly(rq, r, Serving(rq, env[k]));
      assert Outcomes(rq, env[k], k, createdLimit, o);
      var list := env[k].listing.value;
      assert forall i: nat :: i < |list| ==> list[i] in list;
    }
  }

  /** What the wait and the choice promise, put together. */
  lemma LookupFollows(isNamespaced: bool, rq: Request, env: seq<Attempt>, createdLimit: int, limit: int, answer: Answer,
                      calls: nat, o: Outcome)
    requires limit <= |env| && LawfulListings(isNamespaced, env)
    requires answer.Exhausted? ==> forall k :: 0 <= k < limit ==> Waits(rq, env[k], k, createdLimit)
    requires !answer.Exhausted? ==> 0 < calls <= limit && Decides(rq, env, createdLimit, calls - 1)
    requires !answer.Exhausted? ==> Answers(rq, env[calls - 1], calls - 1, createdLimit, answer)
    requires answer.NotInCreated? <==> o.Forbidden?
    requires answer.Cancelled? || answer.Exhausted? <==> o.NotReady?
    requires answer.Found? ==> Chooses(isNamespaced, rq, answer.ids, o)
    ensures LookedUp(rq, env, createdLimit, limit, o) && !o.Crash?
  {
    if !answer.Exhausted? {
      AnswerOutcome(isNamespaced, rq, env[calls - 1], calls - 1, createdLimit, answer, o);
      DecidedOutcome(rq, env, createdLimit, limit, calls - 1, o);
    }
  }

  /** The whole standard-mode lookup over lawful records: its outcome is that of the first attempt that ends the wait.
      It never crashes, an identity it returns is one of this pod's available ones and the requested one, and it finds
      nothing exactly if that attempt has the requested identity in another case only. */
  method StandardLookup(isNamespaced: bool, rq: Request, createdLimit: int, assignedLimit: int, env: seq<Attempt>)
    returns (o: Outcome)
    requires createdLimit + assignedLimit <= |env| && LawfulListings(isNamespaced, env)
    ensures LookedUp(rq, env, createdLimit, createdLimit + assignedLimit, o) && !o.Crash?
    ensures o.Identity? ==> RightIdentity(rq, env, createdLimit, createdLimit + assignedLimit, o.id)
    ensures o.NoMatch? <==> WrongCase(rq, env, createdLimit, createdLimit + assignedLimit)
  {
    var answer, calls := ListPodIDsWithRetry(createdLimit, assignedLimit, rq, env);
    o := StandardGetIdentities(isNamespaced, rq, answer);
    ghost var limit := createdLimit + assignedLimit;
    LookupFollows(isNamespaced, rq, env, createdLimit, limit, answer, calls, o);
    NoMatchIff(rq, env, createdLimit, limit, o);
    if o.Identity? {
      IdentityIsRight(rq, env, createdLimit, limit, o);
    }
  }

  // ------------------------------------------------- lookups beside a running MIC

  /** The jobs of a planned cycle are lawful if the stored records are. */
  lemma CycleJobsLawful(isNamespaced: bool, c: Cycle, ids: IdentityMap, bs: seq<Binding>, pods: seq<Pod>)
    requires c.Valid() && c.des == DesiredOf(isNamespaced, ids, bs, pods) && LawfulStore(isNamespaced, c.cur)
    ensures LawfulJobs(isNamespaced, c.hosts)
  {
    forall h, r | h in c.hosts && r in Jobs(c.hosts[h])
      ensures Lawful(isNamespaced, r)
    {
      var i :| 0 <= i < |Jobs(c.hosts[h])| && Jobs(c.hosts[h])[i] == r;
      JobSource(c, h, i);
      Diff.DiffShape(c.cur, c.des, r.name);
      if r.name in c.des {
        DesiredIsLawful(isNamespaced, ids, bs, pods, r.name);
      }
    }
  }

  /** A cycle of MIC, from whatever pods, bindings and identities, with one of its runs. */
  ghost predicate MicEpisode(isNamespaced: bool, e: Episode) {
    && e.cycle.Valid() && e.cfg.batch >= 0 && Run(e.cfg, e.ws, e.es) && Initial(e.cfg, e.ws[0], e.cycle.hosts)
    && e.ws[0].store == e.cycle.cur
    && exists ids, bs, pods :: e.cycle.des == DesiredOf(isNamespaced, ids, bs, pods)
  }

  /** Through every run of a planned cycle the stored records stay lawful. */
  lemma CycleStaysLawful(isNamespaced: bool, e: Episode, i: nat)
    requires MicEpisode(isNamespaced, e) && LawfulStore(isNamespaced, e.cycle.cur) && i < |e.ws|
    ensures LawfulStore(isNamespaced, e.ws[i].store)
  {
    var ids, bs, pods :| e.cycle.des == DesiredOf(isNamespaced, ids, bs, pods);
    CycleJobsLawful(isNamespaced, e.cycle, ids, bs, pods);
    StoreStaysLawful(isNamespaced, e.cfg, e.cycle.hosts, e.ws, e.es, i);
  }

  /** Cycle after cycle, each from the records the one before left. */
  ghost predicate MicHistory(isNamespaced: bool, episodes: seq<Episode>) {
    && (forall n {:trigger At(n)} :: 0 <= n < |episodes| && At(n) ==> MicEpisode(isNamespaced, episodes[n]))
    && (forall n {:trigger At(n)} :: 0 < n < |episodes| && At(n) && |episodes[n - 1].ws| == |episodes[n - 1].es| + 1 ==>
          episodes[n].cycle.cur == episodes[n - 1].ws[|episodes[n - 1].es|].store)
    && (episodes != [] ==> LawfulStore(isNamespaced, episodes[0].cycle.cur))
  }

  lemma MicEpisodeEnds(isNamespaced: bool, episodes: seq<Episode>, n: nat)
    requires MicHistory(isNamespaced, episodes) && n < |episodes|
    ensures |episodes[n].ws| == |episodes[n].es| + 1
  {
    assert At(n);
  }

  lemma CycleStaysLawfulAt(isNamespaced: bool, episodes: seq<Episode>, n: nat, i: nat)
    requires MicHistory(isNamespaced, episodes) && n < |episodes| && i < |episodes[n].ws|
    requires LawfulStore(isNamespaced, episodes[n].cycle.cur)
    ensures LawfulStore(isNamespaced, episodes[n].ws[i].store)
  {
    assert At(n);
    CycleStaysLawful(isNamespaced, episodes[n], i);
  }

  lemma {:induction false} HistoryStaysLawful(isNamespaced: bool, episodes: seq<Episode>, n: nat, i: nat)
    requires MicHistory(isNamespaced, episodes) && n < |episodes| && i < |episodes[n].ws|
    ensures LawfulStore(isNamespaced, episodes[n].ws[i].store)
    decreases n
  {
    if n > 0 {
      MicEpisodeEnds(isNamespaced, episodes, n - 1);
      HistoryStaysLawful(isNamespaced, episodes, n - 1, |episodes[n - 1].es|);
      assert At(n);
    }
    CycleStaysLawfulAt(isNamespaced, episodes, n, i);
  }

  /** The list call saw the store of some moment of the history. */
  ghost predicate ListedFrom(episodes: seq<Episode>, list: seq<AssignedID>, n: nat, i: nat) {
    n < |episodes| && i < |episodes[n].ws|
    && forall r :: r in list ==> r.name in episodes[n].ws[i].store && episodes[n].ws[i].store[r.name] == r
  }

  ghost predicate ListedFromHistory(episodes: seq<Episode>, env: seq<Attempt>) {
    forall a :: a in env && a.listing.Some? ==> exists n, i :: ListedFrom(episodes, a.listing.value, n, i)
  }

  lemma HistoryListingsLawful(isNamespaced: bool, episodes: seq<Episode>, env: seq<Attempt>)
    requires MicHistory(isNamespaced, episodes) && ListedFromHistory(episodes, env)
    ensures LawfulListings(isNamespaced, env)
  {
    forall a, r | a in env && a.listing.Some? && r in a.listing.value
      ensures Lawful(isNamespaced, r)
    {
      var n, i :| ListedFrom(episodes, a.listing.value, n, i);
      HistoryStaysLawful(isNamespaced, episodes, n, i);
    }
  }

  /** A lookup beside MIC with the same IsNamespaced flag, whatever cycles MIC goes through meanwhile and whatever
      fails: the list calls may each see the records at any moment, and the filter of NMI still drops nothing. */
  method LookupBesideMic(isNamespaced: bool, rq: Request, createdLimit: int, assignedLimit: int, env: seq<Attempt>,
                         ghost episodes: seq<Episode>) returns (o: Outcome)
    requires createdLimit + assignedLimit <= |env|
    requires MicHistory(isNamespaced, episodes) && ListedFromHistory(episodes, env)
    ensures LookedUp(rq, env, createdLimit, createdLimit + assignedLimit, o) && !o.Crash?
    ensures o.Identity? ==> RightIdentity(rq, env, createdLimit, createdLimit + assignedLimit, o.id)
    ensures o.NoMatch? <==> WrongCase(rq, env, createdLimit, createdLimit + assignedLimit)
  {
    HistoryListingsLawful(isNamespaced, episodes, env);
    o := StandardLookup(isNamespaced, rq, createdLimit, assignedLimit, env);
  }
}
