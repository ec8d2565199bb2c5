/** NMI's managed mode, which derives a pod's identities from the bindings without MIC. */
module Managed {
  import opened Text
  import opened Records
  import opened Desired
  import opened Nmi

  predicate Selects(b: Binding, namespace: string, selectorLabel: string) {
    b.selector == selectorLabel && b.namespace == namespace
  }

  /** Binding `b` names identity `id` for pods of `namespace` with this label. */
  predicate Names(b: Binding, namespace: string, selectorLabel: string, id: AzureIdentity) {
    Selects(b, namespace, selectorLabel) && b.azureIdentity == id.name && id.namespace == namespace
  }

  /** Position `i` of `ids` is an identity of the namespace that a binding of the namespace names for the label. */
  ghost predicate Eligible(bs: seq<Binding>, ids: seq<AzureIdentity>, namespace: string, selectorLabel: string,
                           i: int) {
    && 0 <= i < |ids| && ids[i].namespace == namespace
    && exists b :: b in bs && b.namespace == namespace && b.selector == selectorLabel && b.azureIdentity == ids[i].name
  }

  /** `at` are, in increasing order, all positions below `n` that are eligible, and `result` are the identities
      there. */
  ghost predicate Selected(bs: seq<Binding>, ids: seq<AzureIdentity>, namespace: string, selectorLabel: string, n: int,
                           result: seq<AzureIdentity>, at: seq<int>) {
    && |at| == |result|
    && (forall k :: 0 <= k < |at| ==> at[k] < n && Eligible(bs, ids, namespace, selectorLabel, at[k]))
    && (forall k :: 0 <= k < |at| ==> result[k] == ids[at[k]])
    && (forall k, l :: 0 <= k < l < |at| ==> at[k] < at[l])
    && (forall i :: i < n && Eligible(bs, ids, namespace, selectorLabel, i) ==> i in at)
  }

  /** The names that the bindings of the namespace have for the label. */
  method MatchingNames(bs: seq<Binding>, namespace: string, selectorLabel: string) returns (matching: set<string>)
    ensures forall n :: n in matching <==>
      exists b :: b in bs && b.namespace == namespace && b.selector == selectorLabel && b.azureIdentity == n
  {
    matching := {};
    for i := 0 to |bs|
      invariant forall n :: n in matching <==>
        exists b :: b in bs[..i] && b.namespace == namespace && b.selector == selectorLabel && b.azureIdentity == n
    {
      assert forall b :: b in bs[..i + 1] <==> b in bs[..i] || b == bs[i];
      if selectorLabel == bs[i].selector && bs[i].namespace == namespace {
        matching := matching + {bs[i].azureIdentity};
      }
    }
    assert bs[..|bs|] == bs;
  }

  /** GetPodIDsWithBinding: the identities come in the order they are listed in. */
  method GetPodIDsWithBinding(bs: seq<Binding>, ids: seq<AzureIdentity>, namespace: string, selectorLabel: string)
    returns (result: seq<AzureIdentity>, ghost at: seq<int>)
    ensures Selected(bs, ids, namespace, selectorLabel, |ids|, result, at)
    ensures forall id :: id in result <==> id in ids && exists b :: b in bs && Names(b, namespace, selectorLabel, id)
  {
    var matching := MatchingNames(bs, namespace, selectorLabel);
    result, at := [], [];
    for i := 0 to |ids|
      invariant Selected(bs, ids, namespace, selectorLabel, i, result, at)
    {
      assert Eligible(bs, ids, namespace, selectorLabel, i)
        <==> ids[i].name in matching && ids[i].namespace == namespace;
      if ids[i].name in matching && ids[i].namespace == namespace {
        result, at := result + [ids[i]], at + [i];
      }
    }
    SelectedMember(bs, ids, namespace, selectorLabel, result, at);
  }

  lemma SelectedMember(bs: seq<Binding>, ids: seq<AzureIdentity>, namespace: string, selectorLabel: string,
                       result: seq<AzureIdentity>, at: seq<int>)
    requires Selected(bs, ids, namespace, selectorLabel, |ids|, result, at)
    ensures forall id :: id in result <==> id in ids && exists b :: b in bs && Names(b, namespace, selectorLabel, id)
  {
    forall id | id in result
      ensures id in ids && exists b :: b in bs && Names(b, namespace, selectorLabel, id)
    {
      var k :| 0 <= k < |result| && result[k] == id;
      var b :| b in bs && b.namespace == namespace && b.selector == selectorLabel && b.azureIdentity == ids[at[k]].name;
      assert Names(b, namespace, selectorLabel, id);
    }
    forall id | id in ids && exists b :: b in bs && Names(b, namespace, selectorLabel, id)
      ensures id in result
    {
      var i :| 0 <= i < |ids| && ids[i] == id;
      var b :| b in bs && Names(b, namespace, selectorLabel, id);
      assert Eligible(bs, ids, namespace, selectorLabel, i);
      var k :| 0 <= k < |at| && at[k] == i;
    }
  }

  /** ManagedClient.GetIdentities: the first identity that matches, or None. */
  method ManagedGetIdentities(rq: Request, ids: seq<AzureIdentity>) returns (o: Option<AzureIdentity>)
    ensures o.Some? ==> exists i: nat :: FirstPick(rq, ids, i) && ids[i] == o.value
    ensures o.None? ==> forall j :: 0 <= j < |ids| ==> !Picks(rq, ids[j])
  {
    for i := 0 to |ids|
      invariant forall j :: 0 <= j < i ==> !Picks(rq, ids[j])
    {
      assert Picks(rq, ids[i]) ==> FirstPick(rq, ids, i);
      if |rq.clientID| != 0 && ids[i].clientID == rq.clientID {
        return Some(ids[i]);
      }
      if |rq.resourceID| != 0 && ids[i].resourceID == rq.resourceID {
        return Some(ids[i]);
      }
      if rq.Unspecified() && Lower(ids[i].namespace) == Lower(rq.podNamespace) {
        return Some(ids[i]);
      }
    }
    return None;
  }

  predicate Picks(rq: Request, id: AzureIdentity) {
    Nmi.Matches(rq, id) || (rq.Unspecified() && Lower(id.namespace) == Lower(rq.podNamespace))
  }

  predicate FirstPick(rq: Request, ids: seq<AzureIdentity>, i: nat) {
    i < |ids| && Picks(rq, ids[i]) && forall j :: 0 <= j < i ==> !Picks(rq, ids[j])
  }

  /** Position `i` is eligible and its identity has exactly the requested IDs; a request without IDs takes any. */
  ghost predicate Answering(bs: seq<Binding>, ids: seq<AzureIdentity>, selectorLabel: string, rq: Request, i: int) {
    && Eligible(bs, ids, rq.podNamespace, selectorLabel, i)
    && (|| (rq.clientID == "" && rq.resourceID == "")
        || (rq.clientID != "" && ids[i].clientID == rq.clientID)
        || (rq.resourceID != "" && ids[i].resourceID == rq.resourceID))
  }

  lemma PickAnswers(bs: seq<Binding>, ids: seq<AzureIdentity>, selectorLabel: string, rq: Request, i: int)
    requires Eligible(bs, ids, rq.podNamespace, selectorLabel, i)
    ensures Picks(rq, ids[i]) <==> Answering(bs, ids, selectorLabel, rq, i)
  {
  }

  /** The whole managed-mode lookup for a pod with this label: the first listed identity that is bound and has exactly
      the requested IDs, and the first bound one if none are requested. */
  method ManagedLookup(bs: seq<Binding>, ids: seq<AzureIdentity>, selectorLabel: string, rq: Request)
    returns (o: Option<AzureIdentity>)
    ensures o.None? <==> forall i :: 0 <= i < |ids| ==> !Answering(bs, ids, selectorLabel, rq, i)
    ensures o.Some? ==> exists i :: (
      && Answering(bs, ids, selectorLabel, rq, i) && ids[i] == o.value
      && forall j :: 0 <= j < i ==> !Answering(bs, ids, selectorLabel, rq, j))
  {
    var bound, at := GetPodIDsWithBinding(bs, ids, rq.podNamespace, selectorLabel);
    o := ManagedGetIdentities(rq, bound);
    forall i | Eligible(bs, ids, rq.podNamespace, selectorLabel, i)
      ensures exists k :: 0 <= k < |at| && at[k] == i
      ensures Picks(rq, ids[i]) <==> Answering(bs, ids, selectorLabel, rq, i)
    {
      PickAnswers(bs, ids, selectorLabel, rq, i);
    }
    if o.Some? {
      var k: nat :| FirstPick(rq, bound, k) && bound[k] == o.value;
      assert Eligible(bs, ids, rq.podNamespace, selectorLabel, at[k]);
      assert Answering(bs, ids, selectorLabel, rq, at[k]);
    }
  }

  // ------------------------------------------------- agreement with standard mode

  /** The inputs of both modes, as Kubernetes and Azure guarantee them. */
  ghost predicate Regular(valid: ResourceCheck, ids: seq<AzureIdentity>, bs: seq<Binding>, pods: seq<Pod>) {
    && (forall id :: id in ids ==> Accepted(valid, id) && '/' !in id.namespace)
    && (forall a, b :: a in ids && b in ids && a.namespace == b.namespace && a.name == b.name ==> a == b)
    && (forall b :: b in bs ==> '/' !in b.namespace)
    && (forall p, q :: p in pods && q in pods && p.namespace == q.namespace && p.name == q.name ==> p == q)
  }

  predicate SameAssignedName(p: Pod, a: AzureIdentity, q: Pod, b: AzureIdentity) {
    AssignedName(p.name, p.namespace, a.name) == AssignedName(q.name, q.namespace, b.name)
  }

  /** Managed mode offers identity `id` to the pod. */
  ghost predicate Manages(ids: seq<AzureIdentity>, bs: seq<Binding>, pod: Pod, id: AzureIdentity) {
    id in ids && exists b :: b in bs && Names(b, pod.namespace, pod.selectorLabel, id)
  }

  /** A labelled, scheduled pod and an identity bound to it. */
  ghost predicate Bound(ids: seq<AzureIdentity>, bs: seq<Binding>, pods: seq<Pod>, pod: Pod, id: AzureIdentity) {
    pod in pods && Considered(pod) && Manages(ids, bs, pod, id)
  }

  /** No two bound pairs have the same record name. */
  ghost predicate NamesTellApart(ids: seq<AzureIdentity>, bs: seq<Binding>, pods: seq<Pod>) {
    forall p, a, q, b ::
      Bound(ids, bs, pods, p, a) && Bound(ids, bs, pods, q, b) && SameAssignedName(p, a, q, b) ==> p == q && a == b
  }

  lemma {:induction false} IdMapSource(valid: ResourceCheck, ids: seq<AzureIdentity>, key: string)
    requires key in IdMapOf(valid, ids)
    ensures IdMapOf(valid, ids)[key] in ids
    ensures IdKey(IdMapOf(valid, ids)[key].namespace, IdMapOf(valid, ids)[key].name) == key
  {
    var n := |ids| - 1;
    assert ids != [];
    if key in IdMapOf(valid, ids[..n]) {
      IdMapSource(valid, ids[..n], key);
    }
  }

  lemma {:induction false} IdMapHas(valid: ResourceCheck, ids: seq<AzureIdentity>, id: AzureIdentity)
    requires id in ids && Accepted(valid, id)
    ensures IdKey(id.namespace, id.name) in IdMapOf(valid, ids)
  {
    var n := |ids| - 1;
    if id in ids[..n] {
      IdMapHas(valid, ids[..n], id);
    }
  }

  /** Under regular inputs the identity map is a plain lookup by namespace and name. */
  lemma IdMapExact(valid: ResourceCheck, ids: seq<AzureIdentity>, bs: seq<Binding>, pods: seq<Pod>, id: AzureIdentity)
    requires Regular(valid, ids, bs, pods) && id in ids
    ensures var m := IdMapOf(valid, ids); IdKey(id.namespace, id.name) in m && m[IdKey(id.namespace, id.name)] == id
  {
    IdMapHas(valid, ids, id);
    IdMapSource(valid, ids, IdKey(id.namespace, id.name));
    var other := IdMapOf(valid, ids)[IdKey(id.namespace, id.name)];
    JoinInjective(other.namespace, other.name, '/', id.namespace, id.name);
  }

  /** The identities standard mode assigns to a pod. */
  ghost predicate AssignsIt(des: AssignedMap, pod: Pod, id: AzureIdentity) {
    exists k :: k in des && OfPod(des[k], pod.namespace, pod.name) && des[k].identity == id
  }

  /** In namespaced mode, what justifies a record is a bound pair of a pod and an identity. */
  lemma JustifiedIsManaged(valid: ResourceCheck, ids: seq<AzureIdentity>, bs: seq<Binding>, pods: seq<Pod>, q: Pod,
                           b: Binding, r: AssignedID)
    requires Regular(valid, ids, bs, pods) && b in bs && Justifies(true, IdMapOf(valid, ids), q, b, r)
    ensures Manages(ids, bs, q, r.identity) && r.name == AssignedName(q.name, q.namespace, r.identity.name)
  {
    IdMapSource(valid, ids, IdKey(b.namespace, b.azureIdentity));
    JoinInjective(r.identity.namespace, r.identity.name, '/', b.namespace, b.azureIdentity);
    assert Names(b, q.namespace, q.selectorLabel, r.identity);
  }

  lemma ManagedIsAssigned(valid: ResourceCheck, ids: seq<AzureIdentity>, bs: seq<Binding>, pods: seq<Pod>, pod: Pod,
                          id: AzureIdentity)
    requires Regular(valid, ids, bs, pods) && NamesTellApart(ids, bs, pods) && pod in pods && Considered(pod)
    requires Manages(ids, bs, pod, id)
    ensures AssignsIt(DesiredOf(true, IdMapOf(valid, ids), bs, pods), pod, id)
  {
    var m := IdMapOf(valid, ids);
    var des := DesiredOf(true, m, bs, pods);
    var b :| b in bs && Names(b, pod.namespace, pod.selectorLabel, id);
    IdMapExact(valid, ids, bs, pods, id);
    assert Binds(true, m, pod, b);
    var k := RecordFor(true, m, pod, b).name;
    DesiredIsComplete(true, m, bs, pods, pod, b);
    DesiredIsSound(true, m, bs, pods);
    var q, b' :| q in pods && b' in bs && Justifies(true, m, q, b', des[k]);
    JustifiedIsManaged(valid, ids, bs, pods, q, b', des[k]);
    assert Bound(ids, bs, pods, pod, id) && Bound(ids, bs, pods, q, des[k].identity);
    assert SameAssignedName(q, des[k].identity, pod, id);
    assert OfPod(des[k], pod.namespace, pod.name) && des[k].identity == id;
  }

  lemma AssignedIsManaged(valid: ResourceCheck, ids: seq<AzureIdentity>, bs: seq<Binding>, pods: seq<Pod>, pod: Pod,
                          id: AzureIdentity)
    requires Regular(valid, ids, bs, pods) && pod in pods
    requires AssignsIt(DesiredOf(true, IdMapOf(valid, ids), bs, pods), pod, id)
    ensures Manages(ids, bs, pod, id)
  {
    var m := IdMapOf(valid, ids);
    var des := DesiredOf(true, m, bs, pods);
    var k :| k in des && OfPod(des[k], pod.namespace, pod.name) && des[k].identity == id;
    DesiredIsSound(true, m, bs, pods);
    var q, b :| q in pods && b in bs && Justifies(true, m, q, b, des[k]);
    JustifiedIsManaged(valid, ids, bs, pods, q, b, des[k]);
    assert q == pod;
  }

  lemma AssignedUnderItsName(valid: ResourceCheck, ids: seq<AzureIdentity>, bs: seq<Binding>, pods: seq<Pod>, pod: Pod,
                             id: AzureIdentity)
    requires Regular(valid, ids, bs, pods) && AssignsIt(DesiredOf(true, IdMapOf(valid, ids), bs, pods), pod, id)
    ensures var des := DesiredOf(true, IdMapOf(valid, ids), bs, pods);
      var n := AssignedName(pod.name, pod.namespace, id.name);
      n in des && OfPod(des[n], pod.namespace, pod.name) && des[n].identity == id
  {
    var m := IdMapOf(valid, ids);
    var des := DesiredOf(true, m, bs, pods);
    var k :| k in des && OfPod(des[k], pod.namespace, pod.name) && des[k].identity == id;
    DesiredIsSound(true, m, bs, pods);
    var q, b :| q in pods && b in bs && Justifies(true, m, q, b, des[k]);
  }

  /** Two bound pairs of one record name: one of them has no record. */
  lemma CollisionIsUnassigned(valid: ResourceCheck, ids: seq<AzureIdentity>, bs: seq<Binding>, pods: seq<Pod>,
                              p: Pod, a: AzureIdentity, q: Pod, b: AzureIdentity)
    requires Regular(valid, ids, bs, pods) && p in pods && q in pods && SameAssignedName(p, a, q, b) && (p, a) != (q, b)
    ensures var des := DesiredOf(true, IdMapOf(valid, ids), bs, pods);
      !AssignsIt(des, p, a) || !AssignsIt(des, q, b)
  {
    var des := DesiredOf(true, IdMapOf(valid, ids), bs, pods);
    if AssignsIt(des, p, a) && AssignsIt(des, q, b) {
      AssignedUnderItsName(valid, ids, bs, pods, p, a);
      AssignedUnderItsName(valid, ids, bs, pods, q, b);
      assert false;
    }
  }

  /** Managed mode gives every labelled, scheduled pod exactly the identities MIC would assign it. */
  ghost predicate ModesAgree(valid: ResourceCheck, ids: seq<AzureIdentity>, bs: seq<Binding>, pods: seq<Pod>) {
    forall pod, id :: pod in pods && Considered(pod) ==>
      (AssignsIt(DesiredOf(true, IdMapOf(valid, ids), bs, pods), pod, id) <==> Manages(ids, bs, pod, id))
  }

  /** In namespaced mode the two modes agree for every pod if and only if record names tell the bound pairs of pods and
      identities apart. */
  lemma ManagedModeAgrees(valid: ResourceCheck, ids: seq<AzureIdentity>, bs: seq<Binding>, pods: seq<Pod>)
    requires Regular(valid, ids, bs, pods)
    ensures ModesAgree(valid, ids, bs, pods) <==> NamesTellApart(ids, bs, pods)
  {
    var des := DesiredOf(true, IdMapOf(valid, ids), bs, pods);
    if NamesTellApart(ids, bs, pods) {
      forall pod, id | pod in pods && Considered(pod)
        ensures AssignsIt(des, pod, id) <==> Manages(ids, bs, pod, id)
      {
        if AssignsIt(des, pod, id) {
          AssignedIsManaged(valid, ids, bs, pods, pod, id);
        }
        if Manages(ids, bs, pod, id) {
          ManagedIsAssigned(valid, ids, bs, pods, pod, id);
        }
      }
    } else {
      var p, a, q, b :| Bound(ids, bs, pods, p, a) && Bound(ids, bs, pods, q, b) && SameAssignedName(p, a, q, b)
        && !(p == q && a == b);
      CollisionIsUnassigned(valid, ids, bs, pods, p, a, q, b);
    }
  }
}
