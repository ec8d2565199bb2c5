/** The desired AzureAssignedIdentity records of a cycle, from pods, bindings and identities. */
module Desired {
  import opened Text
  import opened Records
  import opened Plan

  type IdentityMap = map<string, AzureIdentity>

  function IdKey(namespace: string, name: string): string {
    Join(namespace, '/', name)
  }

  /** ValidateResourceID is a parameter: a syntactic test of resource IDs. */
  type ResourceCheck = string -> bool

  predicate Accepted(valid: ResourceCheck, id: AzureIdentity) {
    id.kind == UserAssignedMSI ==> valid(id.resourceID)
  }

  function IdMapOf(valid: ResourceCheck, ids: seq<AzureIdentity>): IdentityMap {
    if ids == [] then map[]
    else
      var m, id := IdMapOf(valid, ids[..|ids| - 1]), ids[|ids| - 1];
      if Accepted(valid, id) then m[IdKey(id.namespace, id.name) := id] else m
  }

  /** convertIDListToMap. */
  method ConvertIDListToMap(valid: ResourceCheck, ids: seq<AzureIdentity>) returns (m: IdentityMap)
    ensures m == IdMapOf(valid, ids)
  {
    m := map[];
    for i := 0 to |ids|
      invariant m == IdMapOf(valid, ids[..i])
    {
      assert ids[..i + 1][..i] == ids[..i];
      if ids[i].kind == UserAssignedMSI && !valid(ids[i].resourceID) {
        continue;
      }
      m := m[IdKey(ids[i].namespace, ids[i].name) := ids[i]];
    }
    assert ids[..|ids|] == ids;
  }

  /** Identity `i` is one that is kept, and has this key. */
  predicate KeptAs(valid: ResourceCheck, ids: seq<AzureIdentity>, key: string, i: int) {
    && 0 <= i < |ids| && ids[i].namespace + "/" + ids[i].name == key
    && (ids[i].kind == UserAssignedMSI ==> valid(ids[i].resourceID))
  }

  /** A key is in the map exactly if some identity of that namespace and name is kept, user-assigned ones only with a
      valid resource ID. */
  lemma {:induction false} KeptIff(valid: ResourceCheck, ids: seq<AzureIdentity>, key: string)
    ensures key in IdMapOf(valid, ids) <==> exists i :: KeptAs(valid, ids, key, i)
  {
    if ids != [] {
      var n := |ids| - 1;
      KeptIff(valid, ids[..n], key);
      KeptNext(valid, ids, key);
      if i :| KeptAs(valid, ids[..n], key, i) {
        assert KeptAs(valid, ids, key, i);
      }
      if i :| KeptAs(valid, ids, key, i) && i < n {
        assert KeptAs(valid, ids[..n], key, i);
      }
    }
  }

  /** And of several the last listed counts. */
  lemma {:induction false} LastKeptWins(valid: ResourceCheck, ids: seq<AzureIdentity>, key: string, i: nat)
    requires KeptAs(valid, ids, key, i) && forall j :: i < j < |ids| ==> !KeptAs(valid, ids, key, j)
    ensures key in IdMapOf(valid, ids) && IdMapOf(valid, ids)[key] == ids[i]
  {
    var n := |ids| - 1;
    KeptNext(valid, ids, key);
    if i < n {
      LastKeptWins(valid, ids[..n], key, i);
    }
  }

  lemma KeptNext(valid: ResourceCheck, ids: seq<AzureIdentity>, key: string)
    requires ids != []
    ensures var n := |ids| - 1;
      && (forall i :: 0 <= i < n ==> (KeptAs(valid, ids[..n], key, i) <==> KeptAs(valid, ids, key, i)))
      && (KeptAs(valid, ids, key, n) ==> key in IdMapOf(valid, ids) && IdMapOf(valid, ids)[key] == ids[n])
      && (!KeptAs(valid, ids, key, n) ==> (key in IdMapOf(valid, ids) <==> key in IdMapOf(valid, ids[..n])))
      && (!KeptAs(valid, ids, key, n) && key in IdMapOf(valid, ids[..n]) ==>
            IdMapOf(valid, ids)[key] == IdMapOf(valid, ids[..n])[key])
  {
    var id := ids[|ids| - 1];
    assert id.namespace + "/" + id.name == IdKey(id.namespace, id.name);
  }

  // ------------------------------------------------------------ binding order

  /** AzureIdentityBindings.Less. */
  predicate BindingLess(a: Binding, b: Binding) {
    if a.namespace == b.namespace then Less(a.name, b.name) else Less(a.namespace, b.namespace)
  }

  predicate SameKey(a: Binding, b: Binding) {
    a.namespace == b.namespace && a.name == b.name
  }

  lemma BindingOrder(a: Binding, b: Binding, c: Binding)
    ensures BindingLess(a, b) || SameKey(a, b) || BindingLess(b, a)
    ensures !(BindingLess(a, b) && BindingLess(b, a))
    ensures BindingLess(a, b) && BindingLess(b, c) ==> BindingLess(a, c)
  {
    LessTotal(a.namespace, b.namespace);
    LessTotal(a.name, b.name);
    if BindingLess(a, b) && BindingLess(b, c) {
      if a.namespace == b.namespace == c.namespace {
        LessTransitive(a.name, b.name, c.name);
      } else if a.namespace != b.namespace && b.namespace != c.namespace {
        LessTransitive(a.namespace, b.namespace, c.namespace);
        LessTotal(a.namespace, c.namespace);
      }
    }
  }

  /** What sort.Sort promises of its result. */
  ghost predicate InOrder(s: seq<Binding>) {
    forall i, j :: 0 <= i < j < |s| ==> !BindingLess(s[j], s[i])
  }

  /** Kubernetes keeps one binding per namespace and name. */
  ghost predicate KeysIdentify(s: seq<Binding>) {
    forall a, b :: a in s && b in s && SameKey(a, b) ==> a == b
  }

  function Insert(b: Binding, s: seq<Binding>): seq<Binding> {
    if s == [] || BindingLess(b, s[0]) then [b] + s else [s[0]] + Insert(b, s[1..])
  }

  function Sort(s: seq<Binding>): seq<Binding> {
    if s == [] then [] else Insert(s[0], Sort(s[1..]))
  }

  lemma {:induction false} InsertSorts(b: Binding, s: seq<Binding>)
    requires InOrder(s)
    ensures multiset(Insert(b, s)) == multiset([b] + s) && InOrder(Insert(b, s))
  {
    if s == [] {
    } else if BindingLess(b, s[0]) {
      forall j | 0 <= j < |s|
        ensures !BindingLess(s[j], b)
      {
        BindingOrder(s[j], b, s[0]);
      }
    } else {
      InsertSorts(b, s[1..]);
      var r := Insert(b, s[1..]);
      assert s == [s[0]] + s[1..];
      forall j | 0 <= j < |r|
        ensures !BindingLess(r[j], s[0])
      {
        assert r[j] in multiset(r);
        assert r[j] == b || r[j] in s[1..];
      }
    }
  }

  lemma {:induction false} SortSorts(s: seq<Binding>)
    ensures multiset(Sort(s)) == multiset(s) && InOrder(Sort(s))
  {
    if s != [] {
      SortSorts(s[1..]);
      InsertSorts(s[0], Sort(s[1..]));
      assert s == [s[0]] + s[1..];
    }
  }

  lemma SameElements<T>(s: seq<T>, t: seq<T>, x: T)
    requires multiset(s) == multiset(t)
    ensures x in s <==> x in t
  {
    assert x in s <==> x in multiset(s);
    assert x in t <==> x in multiset(t);
  }

  lemma SortedHeads(s: seq<Binding>, t: seq<Binding>)
    requires multiset(s) == multiset(t) && KeysIdentify(s) && InOrder(s) && InOrder(t) && s != [] && t != []
    ensures s[0] == t[0]
  {
    SameElements(s, t, s[0]);
    SameElements(s, t, t[0]);
    var i :| 0 <= i < |t| && t[i] == s[0];
    var j :| 0 <= j < |s| && s[j] == t[0];
    BindingOrder(s[0], t[0], t[0]);
  }

  /** There is only one way to sort bindings told apart by their keys, stable or not. */
  lemma {:induction false} SortedIsUnique(s: seq<Binding>, t: seq<Binding>)
    requires multiset(s) == multiset(t) && KeysIdentify(s) && InOrder(s) && InOrder(t)
    ensures s == t
  {
    assert |s| == |multiset(s)| == |multiset(t)| == |t|;
    if s != [] {
      SortedHeads(s, t);
      assert s == [s[0]] + s[1..] && t == [t[0]] + t[1..];
      assert multiset(s[1..]) == multiset(s) - multiset{s[0]};
      assert multiset(t[1..]) == multiset(t) - multiset{t[0]};
      SortedIsUnique(s[1..], t[1..]);
    }
  }

  function Matching(bs: seq<Binding>, selector: string): seq<Binding> {
    if bs == [] then []
    else
      var rest, b := Matching(bs[..|bs| - 1], selector), bs[|bs| - 1];
      if b.selector == selector then rest + [b] else rest
  }

  lemma {:induction false} MatchingCount(bs: seq<Binding>, selector: string, b: Binding)
    ensures multiset(Matching(bs, selector))[b] == if b.selector == selector then multiset(bs)[b] else 0
  {
    if bs != [] {
      MatchingCount(bs[..|bs| - 1], selector, b);
      assert bs == bs[..|bs| - 1] + [bs[|bs| - 1]];
    }
  }

  lemma MatchingMember(bs: seq<Binding>, selector: string, b: Binding)
    ensures b in Matching(bs, selector) <==> b in bs && b.selector == selector
  {
    MatchingCount(bs, selector, b);
    assert b in Matching(bs, selector) <==> b in multiset(Matching(bs, selector));
    assert b in bs <==> b in multiset(bs);
  }

  /** The bindings a pod is matched with, in processing order. */
  function Matched(bs: seq<Binding>, selector: string): seq<Binding> {
    Sort(Matching(bs, selector))
  }

  lemma MatchedMember(bs: seq<Binding>, selector: string, b: Binding)
    ensures b in Matched(bs, selector) <==> b in bs && b.selector == selector
  {
    SortSorts(Matching(bs, selector));
    SameElements(Matched(bs, selector), Matching(bs, selector), b);
    MatchingMember(bs, selector, b);
  }

  /** Whatever order the bindings are listed in, and however sort.Sort orders equal keys, the outcome is the same. */
  lemma MatchedIsOrderFree(bs: seq<Binding>, bs': seq<Binding>, selector: string, sorted: seq<Binding>)
    requires multiset(bs) == multiset(bs') && KeysIdentify(bs)
    requires multiset(sorted) == multiset(Matching(bs', selector)) && InOrder(sorted)
    ensures sorted == Matched(bs, selector)
  {
    var m, m' := Matching(bs, selector), Matching(bs', selector);
    forall b
      ensures multiset(m)[b] == multiset(m')[b]
    {
      MatchingCount(bs, selector, b);
      MatchingCount(bs', selector, b);
    }
    assert multiset(m) == multiset(m');
    SortSorts(m);
    assert KeysIdentify(Matched(bs, selector)) by {
      forall b | b in Matched(bs, selector)
        ensures b in bs
      {
        MatchedMember(bs, selector, b);
      }
    }
    SortedIsUnique(Matched(bs, selector), sorted);
  }

  // --------------------------------------------------------- desired records

  /** getAssignedIDName. */
  function AssignedName(pod: string, podNamespace: string, id: string): string {
    pod + "-" + podNamespace + "-" + id
  }

  /** Joining with dashes is not injective: a dash can be on either side of the border. */
  lemma DashesCollide(a: string, b: string, c: string, id: string)
    ensures AssignedName(a, b + "-" + c, id) == AssignedName(a + "-" + b, c, id)
  {
    assert a + "-" + (b + "-" + c) + "-" + id == a + "-" + b + "-" + c + "-" + id;
  }

  /** A pod's records of identities of different names have different names. */
  lemma NamesOfOnePodDiffer(pod: string, podNamespace: string, a: string, b: string)
    requires a != b
    ensures AssignedName(pod, podNamespace, a) != AssignedName(pod, podNamespace, b)
  {
    var p := pod + "-" + podNamespace + "-";
    assert AssignedName(pod, podNamespace, a)[|p|..] == a;
    assert AssignedName(pod, podNamespace, b)[|p|..] == b;
  }

  /** Where no dash is in the names of pods and namespaces, a record name identifies pod, namespace and identity. */
  lemma NamesInjective(p: string, m: string, a: string, q: string, n: string, b: string)
    requires '-' !in p && '-' !in m && '-' !in q && '-' !in n
    ensures AssignedName(p, m, a) == AssignedName(q, n, b) <==> p == q && m == n && a == b
  {
    assert AssignedName(p, m, a) == Join(p, '-', Join(m, '-', a));
    assert AssignedName(q, n, b) == Join(q, '-', Join(n, '-', b));
    if AssignedName(p, m, a) == AssignedName(q, n, b) {
      JoinInjective(p, Join(m, '-', a), '-', q, Join(n, '-', b));
      JoinInjective(m, a, '-', n, b);
    }
  }

  /** makeAssignedIDs. */
  function MakeAssignedID(isNamespaced: bool, id: AzureIdentity, b: Binding, pod: Pod): AssignedID {
    AssignedID(
      if isNamespaced || id.namespaced then id.namespace else "default",
      AssignedName(pod.name, pod.namespace, id.name), "", pod.node, id, b, pod.name, pod.namespace, pod.node, NoState)
  }

  /** Namespaced identities only reach pods and bindings of their own namespace. */
  predicate Permitted(isNamespaced: bool, id: AzureIdentity, b: Binding, pod: Pod) {
    isNamespaced || id.namespaced ==> id.namespace == b.namespace && b.namespace == pod.namespace
  }

  predicate Considered(pod: Pod) {
    pod.node != "" && pod.selectorLabel != ""
  }

  /** Whether binding `b` assigns an identity to `pod`. */
  predicate Binds(isNamespaced: bool, ids: IdentityMap, pod: Pod, b: Binding) {
    && IdKey(b.namespace, b.azureIdentity) in ids
    && Permitted(isNamespaced, ids[IdKey(b.namespace, b.azureIdentity)], b, pod)
  }

  function RecordFor(isNamespaced: bool, ids: IdentityMap, pod: Pod, b: Binding): AssignedID
    requires Binds(isNamespaced, ids, pod, b)
  {
    MakeAssignedID(isNamespaced, ids[IdKey(b.namespace, b.azureIdentity)], b, pod)
  }

  predicate Yields(isNamespaced: bool, ids: IdentityMap, pod: Pod, b: Binding, r: AssignedID) {
    Binds(isNamespaced, ids, pod, b) && r == RecordFor(isNamespaced, ids, pod, b)
  }

  /** The body of the inner loop: the first record of a name wins. */
  function AddBinding(isNamespaced: bool, ids: IdentityMap, pod: Pod, des: AssignedMap, b: Binding): AssignedMap {
    if Binds(isNamespaced, ids, pod, b) then
      var r := RecordFor(isNamespaced, ids, pod, b);
      if r.name in des then des else des[r.name := r]
    else des
  }

  function AddBindings(isNamespaced: bool, ids: IdentityMap, pod: Pod, des: AssignedMap,
                       bs: seq<Binding>): AssignedMap {
    if bs == [] then des
    else AddBinding(isNamespaced, ids, pod, AddBindings(isNamespaced, ids, pod, des, bs[..|bs| - 1]), bs[|bs| - 1])
  }

  function AddPod(isNamespaced: bool, ids: IdentityMap, bs: seq<Binding>, des: AssignedMap, pod: Pod): AssignedMap {
    if Considered(pod) then AddBindings(isNamespaced, ids, pod, des, Matched(bs, pod.selectorLabel)) else des
  }

  function DesiredOf(isNamespaced: bool, ids: IdentityMap, bs: seq<Binding>, pods: seq<Pod>): AssignedMap {
    if pods == [] then map[]
    else AddPod(isNamespaced, ids, bs, DesiredOf(isNamespaced, ids, bs, pods[..|pods| - 1]), pods[|pods| - 1])
  }

  /** Pod and binding give rise to record `r`: the pod is scheduled and has the label the binding selects, the binding
      names an identity of its own namespace, which must be that of the pod if the identity is namespaced. */
  predicate Justifies(isNamespaced: bool, ids: IdentityMap, pod: Pod, b: Binding, r: AssignedID) {
    && pod.node != "" && pod.selectorLabel != "" && b.selector == pod.selectorLabel
    && b.namespace + "/" + b.azureIdentity in ids && r.identity == ids[b.namespace + "/" + b.azureIdentity]
    && (isNamespaced || r.identity.namespaced ==>
          r.identity.namespace == pod.namespace && b.namespace == pod.namespace)
    && r.namespace == (if isNamespaced || r.identity.namespaced then r.identity.namespace else "default")
    && r.name == pod.name + "-" + pod.namespace + "-" + r.identity.name && r.binding == b
    && r.pod == pod.name && r.podNamespace == pod.namespace && r.node == pod.node && r.labelNode == pod.node
    && r.resourceVersion == "" && r.status == NoState
  }

  lemma JustifiesIff(isNamespaced: bool, ids: IdentityMap, pod: Pod, b: Binding, r: AssignedID)
    ensures Justifies(isNamespaced, ids, pod, b, r) <==>
      Considered(pod) && b.selector == pod.selectorLabel && Yields(isNamespaced, ids, pod, b, r)
  {
    assert b.namespace + "/" + b.azureIdentity == IdKey(b.namespace, b.azureIdentity);
  }

  /** Every record of `m` is justified by one of the pods and bindings. */
  ghost predicate Sound(isNamespaced: bool, ids: IdentityMap, bs: seq<Binding>, pods: seq<Pod>, m: AssignedMap) {
    forall k :: k in m ==>
      m[k].name == k && exists pod, b :: pod in pods && b in bs && Justifies(isNamespaced, ids, pod, b, m[k])
  }

  lemma {:induction false} AddBindingsKeeps(isNamespaced: bool, ids: IdentityMap, pod: Pod, des: AssignedMap,
                                            bs: seq<Binding>, k: string)
    ensures var r := AddBindings(isNamespaced, ids, pod, des, bs);
      && (k in des ==> k in r && r[k] == des[k])
      && (k in r && k !in des ==> r[k].name == k && exists b :: b in bs && Yields(isNamespaced, ids, pod, b, r[k]))
  {
    if bs != [] {
      var n := |bs| - 1;
      AddBindingsKeeps(isNamespaced, ids, pod, des, bs[..n], k);
      var before, r := AddBindings(isNamespaced, ids, pod, des, bs[..n]), AddBindings(isNamespaced, ids, pod, des, bs);
      if k in r && k !in before {
        assert bs[n] in bs && Yields(isNamespaced, ids, pod, bs[n], r[k]);
      } else if k in r && k !in des {
        var b :| b in bs[..n] && Yields(isNamespaced, ids, pod, b, before[k]);
        assert b in bs && Yields(isNamespaced, ids, pod, b, r[k]);
      }
    }
  }

  lemma {:induction false} AddBindingsComplete(isNamespaced: bool, ids: IdentityMap, pod: Pod, des: AssignedMap,
                                               bs: seq<Binding>, b: Binding)
    requires b in bs && Binds(isNamespaced, ids, pod, b)
    ensures RecordFor(isNamespaced, ids, pod, b).name in AddBindings(isNamespaced, ids, pod, des, bs)
  {
    if b in bs[..|bs| - 1] {
      AddBindingsComplete(isNamespaced, ids, pod, des, bs[..|bs| - 1], b);
    }
  }

  /** Soundness: a scheduled, labelled pod, a binding with that selector, and an identity permitted for both. */
  lemma {:induction false} DesiredIsSound(isNamespaced: bool, ids: IdentityMap, bs: seq<Binding>, pods: seq<Pod>)
    ensures Sound(isNamespaced, ids, bs, pods, DesiredOf(isNamespaced, ids, bs, pods))
  {
    if pods != [] {
      var n := |pods| - 1;
      var before := DesiredOf(isNamespaced, ids, bs, pods[..n]);
      DesiredIsSound(isNamespaced, ids, bs, pods[..n]);
      forall k | k in DesiredOf(isNamespaced, ids, bs, pods)
        ensures var m := DesiredOf(isNamespaced, ids, bs, pods);
          m[k].name == k && exists pod, b :: pod in pods && b in bs && Justifies(isNamespaced, ids, pod, b, m[k])
      {
        PodStepSound(isNamespaced, ids, bs, pods, k);
      }
    }
  }

  lemma PodStepSound(isNamespaced: bool, ids: IdentityMap, bs: seq<Binding>, pods: seq<Pod>, k: string)
    requires pods != [] && k in DesiredOf(isNamespaced, ids, bs, pods)
    requires Sound(isNamespaced, ids, bs, pods[..|pods| - 1], DesiredOf(isNamespaced, ids, bs, pods[..|pods| - 1]))
    ensures var m := DesiredOf(isNamespaced, ids, bs, pods);
      m[k].name == k && exists pod, b :: pod in pods && b in bs && Justifies(isNamespaced, ids, pod, b, m[k])
  {
    var n := |pods| - 1;
    var before, m, pod := DesiredOf(isNamespaced, ids, bs, pods[..n]), DesiredOf(isNamespaced, ids, bs, pods), pods[n];
    var matched := Matched(bs, pod.selectorLabel);
    AddBindingsKeeps(isNamespaced, ids, pod, before, matched, k);
    if k in before {
      var p, b :| p in pods[..n] && b in bs && Justifies(isNamespaced, ids, p, b, before[k]);
      assert p in pods && Justifies(isNamespaced, ids, p, b, m[k]);
    } else {
      var b :| b in matched && Yields(isNamespaced, ids, pod, b, m[k]);
      MatchedMember(bs, pod.selectorLabel, b);
      assert pod in pods && Justifies(isNamespaced, ids, pod, b, m[k]);
    }
  }

  function IdentityNamed(ids: IdentityMap, b: Binding): AzureIdentity
    requires b.namespace + "/" + b.azureIdentity in ids
  {
    ids[b.namespace + "/" + b.azureIdentity]
  }

  /** Pod and binding are matched, and the identity the binding names is permitted for both. */
  predicate BoundBy(isNamespaced: bool, ids: IdentityMap, bs: seq<Binding>, pod: Pod, b: Binding) {
    && b in bs && pod.node != "" && pod.selectorLabel != "" && b.selector == pod.selectorLabel
    && b.namespace + "/" + b.azureIdentity in ids
    && var id := IdentityNamed(ids, b);
      isNamespaced || id.namespaced ==> id.namespace == b.namespace && id.namespace == pod.namespace
  }

  lemma BoundByIff(isNamespaced: bool, ids: IdentityMap, bs: seq<Binding>, pod: Pod, b: Binding)
    ensures BoundBy(isNamespaced, ids, bs, pod, b) <==>
      b in bs && Considered(pod) && b.selector == pod.selectorLabel && Binds(isNamespaced, ids, pod, b)
  {
    assert b.namespace + "/" + b.azureIdentity == IdKey(b.namespace, b.azureIdentity);
  }

  /** Completeness: every such pod and binding has a record of its name. */
  lemma {:induction false} DesiredIsComplete(isNamespaced: bool, ids: IdentityMap, bs: seq<Binding>, pods: seq<Pod>,
                                             pod: Pod, b: Binding)
    requires pod in pods && BoundBy(isNamespaced, ids, bs, pod, b)
    ensures pod.name + "-" + pod.namespace + "-" + IdentityNamed(ids, b).name
            in DesiredOf(isNamespaced, ids, bs, pods)
  {
    BoundByIff(isNamespaced, ids, bs, pod, b);
    var n := |pods| - 1;
    var before := DesiredOf(isNamespaced, ids, bs, pods[..n]);
    if pod in pods[..n] {
      DesiredIsComplete(isNamespaced, ids, bs, pods[..n], pod, b);
      AddBindingsKeeps(isNamespaced, ids, pods[n], before, Matched(bs, pods[n].selectorLabel),
                       RecordFor(isNamespaced, ids, pod, b).name);
    } else {
      MatchedMember(bs, pod.selectorLabel, b);
      AddBindingsComplete(isNamespaced, ids, pod, before, Matched(bs, pod.selectorLabel), b);
    }
  }

  /** The order in which bindings are listed does not matter, not even for which identity wins a name. */
  lemma {:induction false} DesiredIsOrderFree(isNamespaced: bool, ids: IdentityMap, bs: seq<Binding>,
                                              bs': seq<Binding>, pods: seq<Pod>)
    requires multiset(bs) == multiset(bs') && KeysIdentify(bs)
    ensures DesiredOf(isNamespaced, ids, bs, pods) == DesiredOf(isNamespaced, ids, bs', pods)
  {
    if pods != [] {
      DesiredIsOrderFree(isNamespaced, ids, bs, bs', pods[..|pods| - 1]);
      var selector := pods[|pods| - 1].selectorLabel;
      SortSorts(Matching(bs', selector));
      MatchedIsOrderFree(bs, bs', selector, Matched(bs', selector));
    }
  }

  // ------------------------------------------------------- colliding names

  predicate OfPod(r: AssignedID, podNamespace: string, pod: string) {
    r.pod == pod && r.podNamespace == podNamespace
  }

  /** Binding `b` assigns `pod` an identity under the record name `n`. */
  predicate BindsAs(isNamespaced: bool, ids: IdentityMap, pod: Pod, b: Binding, n: string) {
    Binds(isNamespaced, ids, pod, b) && RecordFor(isNamespaced, ids, pod, b).name == n
  }

  /** Some binding assigns the pod an identity under the record name `n`. */
  ghost predicate Claims(isNamespaced: bool, ids: IdentityMap, bs: seq<Binding>, pod: Pod, n: string) {
    Considered(pod) && exists b :: b in bs && b.selector == pod.selectorLabel && BindsAs(isNamespaced, ids, pod, b, n)
  }

  /** `k` is the first position of `bs` whose binding claims `n`. */
  ghost predicate FirstClaim(isNamespaced: bool, ids: IdentityMap, pod: Pod, bs: seq<Binding>, n: string, k: nat) {
    && k < |bs| && BindsAs(isNamespaced, ids, pod, bs[k], n)
    && forall j :: 0 <= j < k ==> !BindsAs(isNamespaced, ids, pod, bs[j], n)
  }

  lemma {:induction false} Unclaimed(isNamespaced: bool, ids: IdentityMap, pod: Pod, des: AssignedMap, bs: seq<Binding>,
                                     n: string)
    requires n !in des && forall j :: 0 <= j < |bs| ==> !BindsAs(isNamespaced, ids, pod, bs[j], n)
    ensures n !in AddBindings(isNamespaced, ids, pod, des, bs)
  {
    if bs != [] {
      Unclaimed(isNamespaced, ids, pod, des, bs[..|bs| - 1], n);
    }
  }

  lemma {:induction false} FirstBindingWins(isNamespaced: bool, ids: IdentityMap, pod: Pod, des: AssignedMap,
                                            bs: seq<Binding>, n: string, k: nat)
    requires n !in des && FirstClaim(isNamespaced, ids, pod, bs, n, k)
    ensures var r := AddBindings(isNamespaced, ids, pod, des, bs);
      n in r && r[n] == RecordFor(isNamespaced, ids, pod, bs[k])
  {
    var l := |bs| - 1;
    if k < l {
      FirstBindingWins(isNamespaced, ids, pod, des, bs[..l], n, k);
    } else {
      Unclaimed(isNamespaced, ids, pod, des, bs[..l], n);
    }
  }

  lemma {:induction false} FirstClaimExists(isNamespaced: bool, ids: IdentityMap, pod: Pod, bs: seq<Binding>, n: string)
    returns (k: nat)
    requires exists b :: b in bs && BindsAs(isNamespaced, ids, pod, b, n)
    ensures FirstClaim(isNamespaced, ids, pod, bs, n, k)
  {
    var l := |bs| - 1;
    if exists b :: b in bs[..l] && BindsAs(isNamespaced, ids, pod, b, n) {
      k := FirstClaimExists(isNamespaced, ids, pod, bs[..l], n);
      assert forall j :: 0 <= j < k ==> bs[..l][j] == bs[j];
    } else {
      k := l;
      assert forall j :: 0 <= j < l ==> bs[j] in bs[..l];
    }
  }

  lemma RecordIsClaimed(isNamespaced: bool, ids: IdentityMap, bs: seq<Binding>, pods: seq<Pod>, n: string)
    returns (j: nat)
    requires n in DesiredOf(isNamespaced, ids, bs, pods)
    ensures j < |pods| && Claims(isNamespaced, ids, bs, pods[j], n)
  {
    var des := DesiredOf(isNamespaced, ids, bs, pods);
    DesiredIsSound(isNamespaced, ids, bs, pods);
    var pod, b :| pod in pods && b in bs && Justifies(isNamespaced, ids, pod, b, des[n]);
    assert BindsAs(isNamespaced, ids, pod, b, n);
    j :| 0 <= j < |pods| && pods[j] == pod;
  }

  /** The record of a name is decided by the first pod that claims it, and there by the first of its matched
      bindings. */
  lemma {:induction false} FirstPodWins(isNamespaced: bool, ids: IdentityMap, bs: seq<Binding>, pods: seq<Pod>, i: nat,
                                        n: string) returns (k: nat)
    requires i < |pods| && Claims(isNamespaced, ids, bs, pods[i], n)
    requires forall j :: 0 <= j < i ==> !Claims(isNamespaced, ids, bs, pods[j], n)
    ensures FirstClaim(isNamespaced, ids, pods[i], Matched(bs, pods[i].selectorLabel), n, k)
    ensures var des := DesiredOf(isNamespaced, ids, bs, pods);
      n in des && des[n] == RecordFor(isNamespaced, ids, pods[i], Matched(bs, pods[i].selectorLabel)[k])
  {
    var l := |pods| - 1;
    var before, matched := DesiredOf(isNamespaced, ids, bs, pods[..l]), Matched(bs, pods[l].selectorLabel);
    if i < l {
      k := FirstPodWins(isNamespaced, ids, bs, pods[..l], i, n);
      AddBindingsKeeps(isNamespaced, ids, pods[l], before, matched, n);
    } else {
      if n in before {
        var j := RecordIsClaimed(isNamespaced, ids, bs, pods[..l], n);
        assert false;
      }
      var b :| b in bs && b.selector == pods[l].selectorLabel && BindsAs(isNamespaced, ids, pods[l], b, n);
      MatchedMember(bs, pods[l].selectorLabel, b);
      k := FirstClaimExists(isNamespaced, ids, pods[l], matched, n);
      FirstBindingWins(isNamespaced, ids, pods[l], before, matched, n, k);
    }
  }

  /** Among the bindings of that pod that claim the name, the smallest by namespace and then by name decides. */
  lemma SmallestBindingWins(isNamespaced: bool, ids: IdentityMap, bs: seq<Binding>, pods: seq<Pod>, i: nat, n: string)
    returns (b: Binding)
    requires i < |pods| && Claims(isNamespaced, ids, bs, pods[i], n)
    requires forall j :: 0 <= j < i ==> !Claims(isNamespaced, ids, bs, pods[j], n)
    ensures b in bs && b.selector == pods[i].selectorLabel && BindsAs(isNamespaced, ids, pods[i], b, n)
    ensures var des := DesiredOf(isNamespaced, ids, bs, pods);
      n in des && des[n] == RecordFor(isNamespaced, ids, pods[i], b)
    ensures forall other :: (
      other in bs && other.selector == b.selector && BindsAs(isNamespaced, ids, pods[i], other, n) ==>
        || Less(b.namespace, other.namespace)
        || (b.namespace == other.namespace && (b.name == other.name || Less(b.name, other.name))))
  {
    var k := FirstPodWins(isNamespaced, ids, bs, pods, i, n);
    var matched := Matched(bs, pods[i].selectorLabel);
    b := matched[k];
    MatchedMember(bs, pods[i].selectorLabel, b);
    SortSorts(Matching(bs, pods[i].selectorLabel));
    forall other | other in bs && other.selector == b.selector && BindsAs(isNamespaced, ids, pods[i], other, n)
      ensures Less(b.namespace, other.namespace)
              || (b.namespace == other.namespace && (b.name == other.name || Less(b.name, other.name)))
    {
      MatchedMember(bs, pods[i].selectorLabel, other);
      var j :| 0 <= j < |matched| && matched[j] == other;
      BindingOrder(b, other, other);
    }
  }

  lemma BoundClaims(isNamespaced: bool, ids: IdentityMap, bs: seq<Binding>, pod: Pod, n: string)
    ensures Claims(isNamespaced, ids, bs, pod, n) <==> exists b :: (
      && BoundBy(isNamespaced, ids, bs, pod, b)
      && pod.name + "-" + pod.namespace + "-" + IdentityNamed(ids, b).name == n)
  {
    forall b {
      BoundByIff(isNamespaced, ids, bs, pod, b);
    }
    if b :| BoundBy(isNamespaced, ids, bs, pod, b)
            && pod.name + "-" + pod.namespace + "-" + IdentityNamed(ids, b).name == n {
      assert BindsAs(isNamespaced, ids, pod, b, n);
    }
    if b :| b in bs && b.selector == pod.selectorLabel && BindsAs(isNamespaced, ids, pod, b, n) {
      assert Considered(pod) ==> BoundBy(isNamespaced, ids, bs, pod, b);
    }
  }

  /** A pod's binding is not shadowed: no earlier pod claims the record name, and the pod's other bindings of that name
      name the same identity. */
  ghost predicate Unshadowed(isNamespaced: bool, ids: IdentityMap, bs: seq<Binding>, pods: seq<Pod>, i: nat, b: Binding)
    requires i < |pods| && BoundBy(isNamespaced, ids, bs, pods[i], b)
  {
    var id := IdentityNamed(ids, b);
    && (forall j :: 0 <= j < i ==>
          !Claims(isNamespaced, ids, bs, pods[j], pods[i].name + "-" + pods[i].namespace + "-" + id.name))
    && (forall other :: BoundBy(isNamespaced, ids, bs, pods[i], other)
          && IdentityNamed(ids, other).name == id.name
          ==> IdentityNamed(ids, other) == id)
  }

  /** Every identity that a pod is bound to gets a record of its own, so a pod may have several: shadowing apart, the
      pod has a desired record with the identity of the binding, and different records for identities of different
      names. */
  lemma EveryBoundIdentityIsDesired(isNamespaced: bool, ids: IdentityMap, bs: seq<Binding>, pods: seq<Pod>, i: nat,
                                    b: Binding)
    requires i < |pods| && BoundBy(isNamespaced, ids, bs, pods[i], b) && Unshadowed(isNamespaced, ids, bs, pods, i, b)
    ensures var (des, pod, id) := (DesiredOf(isNamespaced, ids, bs, pods), pods[i], IdentityNamed(ids, b));
      var n := pod.name + "-" + pod.namespace + "-" + id.name;
      && n in des && des[n].identity == id && des[n].pod == pod.name && des[n].podNamespace == pod.namespace
      && des[n].node == pod.node
    ensures forall other :: (
      BoundBy(isNamespaced, ids, bs, pods[i], other) && IdentityNamed(ids, other).name != IdentityNamed(ids, b).name ==>
        pods[i].name + "-" + pods[i].namespace + "-" + IdentityNamed(ids, other).name
        != pods[i].name + "-" + pods[i].namespace + "-" + IdentityNamed(ids, b).name)
  {
    var pod, id := pods[i], IdentityNamed(ids, b);
    var n := pod.name + "-" + pod.namespace + "-" + id.name;
    BoundClaims(isNamespaced, ids, bs, pod, n);
    var k := FirstPodWins(isNamespaced, ids, bs, pods, i, n);
    var first := Matched(bs, pod.selectorLabel)[k];
    MatchedMember(bs, pod.selectorLabel, first);
    BoundByIff(isNamespaced, ids, bs, pod, first);
    var other := IdentityNamed(ids, first);
    if other.name != id.name {
      NamesOfOnePodDiffer(pod.name, pod.namespace, other.name, id.name);
    }
    forall c | BoundBy(isNamespaced, ids, bs, pod, c) && IdentityNamed(ids, c).name != id.name
      ensures pod.name + "-" + pod.namespace + "-" + IdentityNamed(ids, c).name != n
    {
      NamesOfOnePodDiffer(pod.name, pod.namespace, IdentityNamed(ids, c).name, id.name);
    }
  }

  /** Of two pods that claim one record name the earlier gets the record, and the later one no record of this name. */
  lemma AssignedNamesCollide(isNamespaced: bool, ids: IdentityMap, bs: seq<Binding>, pods: seq<Pod>, i: nat, j: nat,
                             n: string)
    requires i < j < |pods| && Claims(isNamespaced, ids, bs, pods[i], n) && Claims(isNamespaced, ids, bs, pods[j], n)
    requires forall l :: 0 <= l < i ==> !Claims(isNamespaced, ids, bs, pods[l], n)
    requires pods[i].name != pods[j].name || pods[i].namespace != pods[j].namespace
    ensures var des := DesiredOf(isNamespaced, ids, bs, pods);
      && n in des && OfPod(des[n], pods[i].namespace, pods[i].name)
      && forall k :: k in des && des[k].name == n ==> !OfPod(des[k], pods[j].namespace, pods[j].name)
  {
    var k := FirstPodWins(isNamespaced, ids, bs, pods, i, n);
    DesiredIsSound(isNamespaced, ids, bs, pods);
  }

  // ---------------------------------------------------------------- the loops

  /** nodeRefs: the nodes of the pods that match some binding. */
  ghost predicate RefsExact(bs: seq<Binding>, pods: seq<Pod>, refs: set<string>) {
    forall n :: n in refs <==>
      n != "" && exists pod, b ::
        pod in pods && b in bs && pod.selectorLabel != "" && b.selector == pod.selectorLabel && pod.node == n
  }

  /** The loop over the bindings for one pod. */
  method MatchBindings(bs: seq<Binding>, selector: string) returns (matched: seq<Binding>)
    ensures matched == Matching(bs, selector)
  {
    matched := [];
    for i := 0 to |bs|
      invariant matched == Matching(bs[..i], selector)
    {
      assert bs[..i + 1][..i] == bs[..i];
      if bs[i].selector == selector {
        matched := matched + [bs[i]];
      }
    }
    assert bs[..|bs|] == bs;
  }

  /** The loop over the matched bindings of one pod. */
  method AssignMatched(isNamespaced: bool, ids: IdentityMap, pod: Pod, before: AssignedMap, sorted: seq<Binding>)
    returns (des: AssignedMap)
    ensures des == AddBindings(isNamespaced, ids, pod, before, sorted)
  {
    des := before;
    for j := 0 to |sorted|
      invariant des == AddBindings(isNamespaced, ids, pod, before, sorted[..j])
    {
      assert sorted[..j + 1][..j] == sorted[..j];
      var b := sorted[j];
      var key := IdKey(b.namespace, b.azureIdentity);
      if key in ids {
        var id := ids[key];
        if isNamespaced || id.namespaced {
          if !(id.namespace == b.namespace && b.namespace == pod.namespace) {
            continue;
          }
        }
        var r := MakeAssignedID(isNamespaced, id, b, pod);
        if r.name !in des {
          des := des[r.name := r];
        }
      }
    }
    assert sorted[..|sorted|] == sorted;
  }

  /** createDesiredAssignedIdentityList. */
  method CreateDesired(isNamespaced: bool, pods: seq<Pod>, bs: seq<Binding>, ids: IdentityMap)
    returns (des: AssignedMap, refs: set<string>)
    ensures des == DesiredOf(isNamespaced, ids, bs, pods)
    ensures forall pod, b :: pod in pods && BoundBy(isNamespaced, ids, bs, pod, b) ==>
      pod.name + "-" + pod.namespace + "-" + IdentityNamed(ids, b).name in des
    ensures RefsExact(bs, pods, refs)
  {
    des, refs := map[], {};
    for i := 0 to |pods|
      invariant des == DesiredOf(isNamespaced, ids, bs, pods[..i])
      invariant RefsExact(bs, pods[..i], refs)
    {
      var pod := pods[i];
      assert pods[..i + 1][..i] == pods[..i];
      RefsNext(bs, pods, i, refs);
      if pod.node == "" || pod.selectorLabel == "" {
        continue;
      }
      var matched := MatchBindings(bs, pod.selectorLabel);
      if |matched| == 0 {
        continue;
      }
      refs := refs + {pod.node};
      var sorted := Sort(matched);
      des := AssignMatched(isNamespaced, ids, pod, des, sorted);
    }
    assert pods[..|pods|] == pods;
    forall pod, b | pod in pods && BoundBy(isNamespaced, ids, bs, pod, b)
      ensures pod.name + "-" + pod.namespace + "-" + IdentityNamed(ids, b).name in des
    {
      DesiredIsComplete(isNamespaced, ids, bs, pods, pod, b);
    }
  }

  lemma RefsNext(bs: seq<Binding>, pods: seq<Pod>, i: nat, refs: set<string>)
    requires i < |pods| && RefsExact(bs, pods[..i], refs)
    ensures var (pod, matched) := (pods[i], Matching(bs, pods[i].selectorLabel));
      RefsExact(bs, pods[..i + 1], if Considered(pod) && matched != [] then refs + {pod.node} else refs)
  {
    var pod := pods[i];
    assert forall p :: p in pods[..i + 1] <==> p in pods[..i] || p == pod;
    forall b
      ensures b in Matching(bs, pod.selectorLabel) <==> b in bs && b.selector == pod.selectorLabel
    {
      MatchingMember(bs, pod.selectorLabel, b);
    }
    var m := Matching(bs, pod.selectorLabel);
    if m != [] {
      assert m[0] in m;
    }
  }

  /** What the planning part of a cycle requires of the desired records. */
  lemma DesiredIsPlannable(isNamespaced: bool, ids: IdentityMap, bs: seq<Binding>, pods: seq<Pod>, refs: set<string>,
                           env: Env)
    requires RefsExact(bs, pods, refs) && env.refs == refs
    ensures var des := DesiredOf(isNamespaced, ids, bs, pods);
      WellKeyed(des) && RefsCover(env, des) && forall k :: k in des ==> des[k].status == NoState
  {
    DesiredIsSound(isNamespaced, ids, bs, pods);
  }
}
