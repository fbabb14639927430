/**
 * `getParentNodeObj` and its helpers `hasSameLineParent` and
 * `getNonNestableNodeObj`: from a markdown node to the rendered element that
 * anchors scroll computations for it. The DOM query by `data-nodeid` is the
 * injected map `bound` from node ids to element ids.
 */
module Resolver {
  import opened Wrappers
  import opened MdTree
  import opened ViewTree

  /** `{ mdNode, node }`; `node` may be null when a climbed-to node has no element. */
  datatype NodeObj = NodeObj(mdNode: NodeId, node: Option<ElemId>)

  /** The TypeErrors the JavaScript code would throw. */
  datatype Fault =
    | NoParent      // climbing past a node without a parent
    | NoElement     // `node.firstElementChild` on a null element
    | NoFirstChild  // `mdNode.type` on the null first child of a container

  const TableElementTagNames: seq<string> := ["TR", "TH", "TBODY", "TD"]

  /** The table test of the climb: it looks for TAG names among markdown node types. */
  predicate IsTableTagType(t: string) {
    t in TableElementTagNames
  }

  /** `document.querySelector('[data-nodeid="id"]')` */
  function Lookup(bound: map<NodeId, ElemId>, id: NodeId): Option<ElemId> {
    if id in bound then Some(bound[id]) else None
  }

  /** Every node without a parent, the document root in particular, has an element. */
  predicate RootsBound(doc: seq<MdNode>, bound: map<NodeId, ElemId>) {
    forall i: nat :: i < |doc| && doc[i].parent.None? ==> i in bound
  }

  predicate BindingsValid(bound: map<NodeId, ElemId>, els: seq<Element>) {
    forall id :: id in bound ==> bound[id] < |els|
  }

  /** `hasSameLineParent`: the parent exists, is not the document, and starts on the same line. */
  predicate HasSameLineParent(doc: seq<MdNode>, id: NodeId)
    requires WellFormedDoc(doc) && id < |doc|
  {
    match doc[id].parent
    case None => false
    case Some(p) =>
      assert NodeLinksOk(doc, id);
      doc[p].nodeType != "document" && doc[p].startLine == doc[id].startLine
  }

  /** Two trees that agree on everything but end lines. */
  predicate SameButEndLines(doc: seq<MdNode>, doc2: seq<MdNode>) {
    && |doc| == |doc2|
    && forall i :: 0 <= i < |doc| ==>
         && doc[i].nodeType == doc2[i].nodeType
         && doc[i].startLine == doc2[i].startLine
         && doc[i].parent == doc2[i].parent
         && doc[i].firstChild == doc2[i].firstChild
         && doc[i].lastChild == doc2[i].lastChild
  }

  /**
   * The same-line test compares start lines only: where nodes end never
   * decides whether a node collapses into its parent.
   */
  lemma SameLineParentIgnoresEndLines(doc: seq<MdNode>, doc2: seq<MdNode>, id: NodeId)
    requires WellFormedDoc(doc) && WellFormedDoc(doc2) && id < |doc|
    requires SameButEndLines(doc, doc2)
    ensures HasSameLineParent(doc, id) == HasSameLineParent(doc2, id)
  {
    assert NodeLinksOk(doc, id);
  }

  /** The condition of the second climbing loop. */
  predicate ClimbsPast(doc: seq<MdNode>, id: NodeId)
    requires WellFormedDoc(doc) && id < |doc|
  {
    IsTableTagType(doc[id].nodeType) || HasSameLineParent(doc, id)
  }

  /** `a` is reached from `d` by parent links through nodes (`a` excluded) that have no element. */
  predicate UnboundPath(doc: seq<MdNode>, bound: map<NodeId, ElemId>, d: NodeId, a: NodeId)
    requires WellFormedDoc(doc) && d < |doc|
    decreases d
  {
    || d == a
    || (&& d !in bound
        && match doc[d].parent
           case None => false
           case Some(p) =>
             assert NodeLinksOk(doc, d);
             UnboundPath(doc, bound, p, a))
  }

  /** `a` is reached from `d` by parent links through nodes (`a` excluded) the climb passes. */
  predicate CollapsePath(doc: seq<MdNode>, d: NodeId, a: NodeId)
    requires WellFormedDoc(doc) && d < |doc|
    decreases d
  {
    || d == a
    || (&& ClimbsPast(doc, d)
        && match doc[d].parent
           case None => false
           case Some(p) =>
             assert NodeLinksOk(doc, d);
             CollapsePath(doc, p, a))
  }

  lemma {:induction false} UnboundPathExtend(doc: seq<MdNode>, bound: map<NodeId, ElemId>, d: NodeId, a: NodeId)
    requires WellFormedDoc(doc) && d < |doc| && a < |doc|
    requires UnboundPath(doc, bound, d, a) && a !in bound && doc[a].parent.Some?
    ensures UnboundPath(doc, bound, d, doc[a].parent.value)
    decreases d
  {
    assert NodeLinksOk(doc, d) && NodeLinksOk(doc, a);
    if d != a {
      UnboundPathExtend(doc, bound, doc[d].parent.value, a);
    }
  }

  lemma {:induction false} CollapsePathExtend(doc: seq<MdNode>, d: NodeId, a: NodeId)
    requires WellFormedDoc(doc) && d < |doc| && a < |doc|
    requires CollapsePath(doc, d, a) && ClimbsPast(doc, a) && doc[a].parent.Some?
    ensures CollapsePath(doc, d, doc[a].parent.value)
    decreases d
  {
    assert NodeLinksOk(doc, d) && NodeLinksOk(doc, a);
    if d != a {
      CollapsePathExtend(doc, doc[d].parent.value, a);
    }
  }

  /** Only one bound node ends an unbound path: the nearest bound ancestor is unique. */
  lemma {:induction false} NearestBoundAncestorUnique(doc: seq<MdNode>, bound: map<NodeId, ElemId>, d: NodeId, a: NodeId, b: NodeId)
    requires WellFormedDoc(doc) && d < |doc|
    requires a in bound && UnboundPath(doc, bound, d, a)
    requires b in bound && UnboundPath(doc, bound, d, b)
    ensures a == b
    decreases d
  {
    if d != a && d != b {
      assert NodeLinksOk(doc, d);
      NearestBoundAncestorUnique(doc, bound, doc[d].parent.value, a, b);
    }
  }

  /** Only one node that the climb does not pass ends a collapse path: the second climb's stop is unique. */
  lemma {:induction false} CollapseEndUnique(doc: seq<MdNode>, d: NodeId, a: NodeId, b: NodeId)
    requires WellFormedDoc(doc) && d < |doc| && a < |doc| && b < |doc|
    requires CollapsePath(doc, d, a) && !ClimbsPast(doc, a)
    requires CollapsePath(doc, d, b) && !ClimbsPast(doc, b)
    ensures a == b
    decreases d
  {
    if d != a && d != b {
      assert NodeLinksOk(doc, d);
      CollapseEndUnique(doc, doc[d].parent.value, a, b);
    }
  }

  /** First loop of `getParentNodeObj`: climb to the nearest node that has an element. */
  method BoundAncestor(doc: seq<MdNode>, bound: map<NodeId, ElemId>, id: NodeId) returns (a: NodeId)
    requires WellFormedDoc(doc) && id < |doc| && RootsBound(doc, bound)
    ensures a <= id && a in bound
    ensures UnboundPath(doc, bound, id, a)
  {
    a := id;
    while a !in bound
      invariant a <= id && UnboundPath(doc, bound, id, a)
      decreases a
    {
      assert NodeLinksOk(doc, a);
      UnboundPathExtend(doc, bound, id, a);
      a := doc[a].parent.value;
    }
  }

  /** No markdown node carries one of the table tag names as its type (true of parsed documents). */
  predicate NoTableTagTypes(doc: seq<MdNode>) {
    forall i :: 0 <= i < |doc| ==> !IsTableTagType(doc[i].nodeType)
  }

  /**
   * Second loop of `getParentNodeObj`: climb while the node's type is a table
   * tag name or its parent starts on the same line.
   */
  method CollapseToBlock(doc: seq<MdNode>, a: NodeId) returns (r: Result<NodeId, Fault>)
    requires WellFormedDoc(doc) && a < |doc|
    ensures r.Success? ==> r.value <= a && CollapsePath(doc, a, r.value) && !ClimbsPast(doc, r.value)
    ensures r.Failure? ==>
      && r.error == NoParent
      && exists m :: 0 <= m <= a && CollapsePath(doc, a, m) && doc[m].parent.None? && IsTableTagType(doc[m].nodeType)
    ensures NoTableTagTypes(doc) ==> r.Success?
  {
    var m: NodeId := a;
    while ClimbsPast(doc, m)
      invariant m <= a && CollapsePath(doc, a, m)
      decreases m
    {
      if doc[m].parent.None? {
        assert IsTableTagType(doc[m].nodeType);
        return Failure(NoParent);
      }
      assert NodeLinksOk(doc, m);
      CollapsePathExtend(doc, a, m);
      m := doc[m].parent.value;
    }
    return Success(m);
  }

  /**
   * The element chain stays in step with the node chain: every container met
   * has an element and a first child.
   */
  predicate InSync(doc: seq<MdNode>, els: seq<Element>, m: NodeId, e: Option<ElemId>)
    requires WellFormedDoc(doc) && WellFormedView(els) && m < |doc| && (e.Some? ==> e.value < |els|)
    decreases |doc| - m
  {
    IsNestableType(doc[m].nodeType) ==>
      && e.Some?
      && doc[m].firstChild.Some?
      && (assert NodeLinksOk(doc, m) && ElementLinksOk(els, e.value);
          InSync(doc, els, doc[m].firstChild.value, els[e.value].firstElementChild))
  }

  /**
   * The pair reached from `(m, e)` by `k` lockstep steps through containers,
   * `k` being the depth of the first non-container on the first-child chain.
   */
  predicate LockstepFrom(doc: seq<MdNode>, els: seq<Element>, m: NodeId, e: Option<ElemId>, obj: NodeObj)
    requires WellFormedDoc(doc) && WellFormedView(els) && m < |doc| && (e.Some? ==> e.value < |els|)
  {
    var chain := Descent(doc, m, FirstChildLink);
    exists k ::
      && 0 <= k < |chain|
      && chain[k] == obj.mdNode
      && obj.node == FirstElementDescent(els, e, k)
      && ContainersBefore(doc, chain, k)
  }

  /** The first `k` nodes of `chain` are containers. */
  predicate ContainersBefore(doc: seq<MdNode>, chain: seq<NodeId>, k: nat)
    requires k <= |chain| && forall j :: 0 <= j < |chain| ==> chain[j] < |doc|
  {
    forall j :: 0 <= j < k ==> IsNestableType(doc[chain[j]].nodeType)
  }

  /**
   * `getNonNestableNodeObj`: while the node is a list or block quote, move to
   * its first child and the element to its first element child.
   */
  method NonNestableNodeObj(doc: seq<MdNode>, els: seq<Element>, m0: NodeId, e0: Option<ElemId>)
    returns (r: Result<NodeObj, Fault>)
    requires WellFormedDoc(doc) && WellFormedView(els) && m0 < |doc| && (e0.Some? ==> e0.value < |els|)
    ensures r.Success? <==> InSync(doc, els, m0, e0)
    ensures r.Failure? ==> r.error == NoElement || r.error == NoFirstChild
    ensures r.Success? ==>
      && r.value.mdNode < |doc|
      && IsNodeToBeCalculated(doc[r.value.mdNode])
      && LockstepFrom(doc, els, m0, e0, r.value)
    ensures IsNodeToBeCalculated(doc[m0]) ==> r == Success(NodeObj(m0, e0))
  {
    var chain := Descent(doc, m0, FirstChildLink);
    var m: NodeId := m0;
    var e := e0;
    ghost var k := 0;
    while IsNestableType(doc[m].nodeType)
      invariant 0 <= k < |chain| && chain[k] == m
      invariant e == FirstElementDescent(els, e0, k)
      invariant ContainersBefore(doc, chain, k)
      invariant InSync(doc, els, m0, e0) <==> InSync(doc, els, m, e)
      decreases |doc| - m
    {
      if e.None? {
        return Failure(NoElement);
      }
      assert NodeLinksOk(doc, m) && ElementLinksOk(els, e.value);
      var child := doc[m].firstChild;
      e := els[e.value].firstElementChild;
      if child.None? {
        return Failure(NoFirstChild);
      }
      m := child.value;
      k := k + 1;
    }
    assert LockstepFrom(doc, els, m0, e0, NodeObj(m, e));
    return Success(NodeObj(m, e));
  }

  /**
   * How `getParentNodeObj` gets from `id` to `obj`: up to the nearest bound
   * ancestor `a`, up past table and same-line nodes to `b`, then down in
   * lockstep from `b` and its element.
   */
  predicate ResolvesThrough(
    doc: seq<MdNode>, els: seq<Element>, bound: map<NodeId, ElemId>,
    id: NodeId, a: NodeId, b: NodeId, obj: NodeObj)
    requires WellFormedDoc(doc) && WellFormedView(els) && BindingsValid(bound, els) && id < |doc|
  {
    && b <= a <= id
    && a in bound && UnboundPath(doc, bound, id, a)
    && CollapsePath(doc, a, b) && !ClimbsPast(doc, b)
    && LockstepFrom(doc, els, b, Lookup(bound, b), obj)
  }

  /**
   * `getParentNodeObj`: the node and element that anchor scrolling for `id`.
   * The node returned is never a list or block quote.
   */
  method GetParentNodeObj(doc: seq<MdNode>, els: seq<Element>, bound: map<NodeId, ElemId>, id: NodeId)
    returns (r: Result<NodeObj, Fault>)
    requires WellFormedDoc(doc) && WellFormedView(els) && id < |doc|
    requires RootsBound(doc, bound) && BindingsValid(bound, els)
    ensures r.Success? ==>
      && r.value.mdNode < |doc|
      && IsNodeToBeCalculated(doc[r.value.mdNode])
      && exists a, b :: ResolvesThrough(doc, els, bound, id, a, b, r.value)
    ensures NoTableTagTypes(doc) && r.Failure? ==> r.error != NoParent
    ensures r.Failure? && r.error != NoParent ==>
      exists a: NodeId, b: NodeId ::
        && b <= a <= id
        && a in bound && UnboundPath(doc, bound, id, a)
        && CollapsePath(doc, a, b) && !ClimbsPast(doc, b)
        && !InSync(doc, els, b, Lookup(bound, b))
  {
    var a := BoundAncestor(doc, bound, id);
    var collapsed := CollapseToBlock(doc, a);
    if collapsed.Failure? {
      return Failure(collapsed.error);
    }
    var b := collapsed.value;
    r := NonNestableNodeObj(doc, els, b, Lookup(bound, b));
    if r.Success? {
      assert ResolvesThrough(doc, els, bound, id, a, b, r.value);
    }
  }
}
