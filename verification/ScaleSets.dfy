/** The VMSS group cache and the in-use check that relies on it. */
module ScaleSets {
  import opened Records

  class Group {
    var nodes: set<string>

    constructor ()
      ensures nodes == {}
    {
      nodes := {};
    }

    predicate HasNode(ref: string)
      reads this
    {
      ref in nodes
    }
  }

  /** vmssGroupList: `groups` and `nodeIdx` share their Group objects. */
  class GroupList {
    var groups: map<ScaleSet, Group>
    var nodeIdx: map<string, Group>
    ghost var repr: set<Group>

    /** Nodes are indexed under their true scale set only, and share a group exactly when they share that. */
    ghost predicate Valid(lookup: NodeLookup)
      reads this, repr
    {
      && (forall v :: v in groups ==> groups[v] in repr)
      && (forall a, b :: a in groups && b in groups && groups[a] == groups[b] ==> a == b)
      && (forall n :: n in nodeIdx ==>
            lookup(n).InScaleSet? && lookup(n).id in groups && nodeIdx[n] == groups[lookup(n).id])
      && (forall n :: n in nodeIdx ==> nodeIdx[n] in repr && n in nodeIdx[n].nodes)
      && (forall v, n :: v in groups && n in groups[v].nodes ==> n in nodeIdx && nodeIdx[n] == groups[v])
    }

    constructor ()
      ensures groups == map[] && nodeIdx == map[] && repr == {}
    {
      groups, nodeIdx, repr := map[], map[], {};
    }

    method AddNode(ghost lookup: NodeLookup, v: ScaleSet, node: string)
      requires Valid(lookup) && lookup(node) == InScaleSet(v)
      modifies this, repr
      ensures Valid(lookup) && fresh(repr - old(repr))
      ensures v in groups && nodeIdx.Keys == old(nodeIdx.Keys) + {node} && nodeIdx[node] == groups[v]
    {
      if v !in groups {
        AddGroup(lookup, v);
      }
      IndexNode(lookup, v, node);
    }

    method IndexNode(ghost lookup: NodeLookup, v: ScaleSet, node: string)
      requires Valid(lookup) && lookup(node) == InScaleSet(v) && v in groups
      modifies this`nodeIdx, groups[v]
      ensures Valid(lookup)
      ensures nodeIdx.Keys == old(nodeIdx.Keys) + {node} && nodeIdx[node] == groups[v]
    {
      var g := groups[v];
      g.nodes := g.nodes + {node};
      nodeIdx := nodeIdx[node := g];
    }

    method AddGroup(ghost lookup: NodeLookup, v: ScaleSet)
      requires Valid(lookup) && v !in groups
      modifies this
      ensures Valid(lookup) && fresh(repr - old(repr)) && old(repr) <= repr
      ensures v in groups && nodeIdx == old(nodeIdx)
    {
      var g := new Group();
      groups := groups[v := g];
      repr := repr + {g};
    }

    /** getVMSSGroupFromPossiblyUnreferencedNode: caches the node it had to look up. */
    method GroupOfNode(lookup: NodeLookup, ref: string) returns (failed: bool, g: Group?)
      requires Valid(lookup)
      modifies this, repr
      ensures Valid(lookup) && fresh(repr - old(repr))
      ensures failed <==> lookup(ref).Broken?
      ensures g != null <==> lookup(ref).InScaleSet?
      ensures g != null ==> ref in nodeIdx && g == nodeIdx[ref]
      ensures nodeIdx.Keys == old(nodeIdx.Keys) + (if lookup(ref).InScaleSet? then {ref} else {})
    {
      if ref in nodeIdx {
        return false, nodeIdx[ref];
      }
      match lookup(ref) {
        case Broken =>
          return true, null;
        case InScaleSet(v) =>
          AddNode(lookup, v, ref);
          return false, groups[v];
        case _ =>
          return false, null;
      }
    }
  }

  /** getVMSSGroups. */
  method GetVMSSGroups(lookup: NodeLookup, refs: set<string>) returns (failed: bool, ls: GroupList)
    ensures fresh(ls) && fresh(ls.repr)
    ensures failed <==> exists n :: n in refs && lookup(n).Broken?
    ensures !failed ==> ls.Valid(lookup) && forall n :: n in ls.nodeIdx <==> n in refs && lookup(n).InScaleSet?
  {
    ls := new GroupList();
    var todo := refs;
    while todo != {}
      invariant todo <= refs && fresh(ls) && fresh(ls.repr)
      invariant ls.Valid(lookup)
      invariant forall n :: n in ls.nodeIdx <==> n in refs && n !in todo && lookup(n).InScaleSet?
      invariant forall n :: n in refs && n !in todo ==> !lookup(n).Broken?
      decreases todo
    {
      var ref :| ref in todo;
      match lookup(ref) {
        case Broken =>
          return true, ls;
        case InScaleSet(v) =>
          ls.AddNode(lookup, v, ref);
        case _ =>
      }
      todo := todo - {ref};
    }
    failed := false;
  }

  /** Two indexed nodes share a group object exactly when they are in the same scale set. */
  lemma SharedGroupIff(ls: GroupList, lookup: NodeLookup, a: string, b: string)
    requires ls.Valid(lookup) && a in ls.nodeIdx && b in ls.nodeIdx
    ensures ls.nodeIdx[a] == ls.nodeIdx[b] <==> SameScaleSet(lookup, a, b)
    ensures ls.nodeIdx[a].HasNode(b) <==> SameScaleSet(lookup, a, b)
  {
    assert b in ls.nodeIdx[b].nodes;
  }

  // ---------------------------------------------------------- in-use check

  predicate SameScaleSet(lookup: NodeLookup, a: string, b: string) {
    lookup(a).InScaleSet? && lookup(a) == lookup(b)
  }

  /** Another pod's record for the same user-assigned identity, by pod name and client ID. */
  predicate Rival(x: AssignedID, y: AssignedID) {
    x.IsMSI() && x.pod != y.pod && x.identity.clientID == y.identity.clientID
  }

  /** The simple specification of "in use": a rival on the same node or scale set. */
  predicate UsedBy(lookup: NodeLookup, x: AssignedID, y: AssignedID) {
    Rival(x, y) && (x.node == y.node || SameScaleSet(lookup, x.node, y.node))
  }

  /** When the node of `x` cannot be looked up, any rival stops the check with an error. */
  predicate Shields(lookup: NodeLookup, x: AssignedID, y: AssignedID) {
    UsedBy(lookup, x, y) || (Rival(x, y) && lookup(x.node).Broken?)
  }

  /** The node of `y` is indexed if it is in a scale set. */
  ghost predicate Indexed(ls: GroupList, lookup: NodeLookup, y: AssignedID)
    reads ls
  {
    lookup(y.node).InScaleSet? ==> y.node in ls.nodeIdx
  }

  ghost predicate Covers(ls: GroupList, lookup: NodeLookup, m: AssignedMap)
    reads ls
  {
    forall k :: k in m ==> Indexed(ls, lookup, m[k])
  }

  /** The body of the loop of checkIfInUse. */
  method CheckAgainst(lookup: NodeLookup, x: AssignedID, y: AssignedID, ls: GroupList)
    returns (inUse: bool, failed: bool)
    requires ls.Valid(lookup)
    modifies ls, ls.repr
    ensures ls.Valid(lookup) && fresh(ls.repr - old(ls.repr))
    ensures old(ls.nodeIdx.Keys) <= ls.nodeIdx.Keys
    ensures inUse ==> !failed && UsedBy(lookup, x, y)
    ensures failed ==> Rival(x, y) && lookup(x.node).Broken?
    ensures old(Indexed(ls, lookup, y)) ==> (inUse || failed <==> Shields(lookup, x, y))
  {
    if x.identity.kind != UserAssignedMSI || x.pod == y.pod || x.identity.clientID != y.identity.clientID {
      return false, false;
    }
    if x.node == y.node {
      return true, false;
    }
    var f, g := ls.GroupOfNode(lookup, x.node);
    if f {
      return false, true;
    }
    inUse, failed := g != null && g.HasNode(y.node), false;
  }

  /** checkIfInUse. */
  method CheckIfInUse(lookup: NodeLookup, x: AssignedID, m: AssignedMap, ls: GroupList)
    returns (inUse: bool, failed: bool)
    requires ls.Valid(lookup)
    modifies ls, ls.repr
    ensures ls.Valid(lookup) && fresh(ls.repr - old(ls.repr))
    ensures old(ls.nodeIdx.Keys) <= ls.nodeIdx.Keys
    ensures inUse ==> !failed && exists k :: k in m && UsedBy(lookup, x, m[k])
    ensures failed ==> lookup(x.node).Broken?
    ensures old(Covers(ls, lookup, m)) ==> (inUse || failed <==> exists k :: k in m && Shields(lookup, x, m[k]))
    ensures old(Covers(ls, lookup, m)) && !lookup(x.node).Broken? ==>
              !failed && (inUse <==> exists k :: k in m && UsedBy(lookup, x, m[k]))
  {
    inUse, failed := false, false;
    ghost var covers := Covers(ls, lookup, m);
    var todo := m.Keys;
    while todo != {}
      invariant todo <= m.Keys
      invariant ls.Valid(lookup) && fresh(ls.repr - old(ls.repr))
      invariant old(ls.nodeIdx.Keys) <= ls.nodeIdx.Keys
      invariant !inUse && !failed
      invariant covers ==> forall k :: k in m && k !in todo ==> !Shields(lookup, x, m[k])
      decreases todo
    {
      var k :| k in todo;
      inUse, failed := CheckAgainst(lookup, x, m[k], ls);
      if inUse || failed {
        return;
      }
      todo := todo - {k};
    }
  }
}
