/**
 * The rendered element tree as an arena: element `i` is `els[i]`, and the
 * `parentElement`, `firstElementChild` and `nextElementSibling` links are
 * indices into the same sequence. `getTotalOffsetTop` lives here.
 */
module ViewTree {
  import opened Wrappers

  type ElemId = nat

  /** A rendered element; `offsetTop` is relative to its offset parent, in whole pixels. */
  datatype Element = Element(
    tagName: string,
    offsetTop: int,
    parentElement: Option<ElemId>,
    firstElementChild: Option<ElemId>,
    nextElementSibling: Option<ElemId>)

  const NestableTagNames: seq<string> := ["UL", "OL", "BLOCKQUOTE"]

  /**
   * Links of element `i` point inside the arena, parents before children and
   * siblings in document order; a first child and a next sibling agree with
   * the parent links.
   */
  predicate ElementLinksOk(els: seq<Element>, i: nat)
    requires i < |els|
  {
    && (els[i].parentElement.Some? ==> els[i].parentElement.value < i)
    && (els[i].firstElementChild.Some? ==>
          var c := els[i].firstElementChild.value;
          i < c < |els| && els[c].parentElement == Some(i))
    && (els[i].nextElementSibling.Some? ==>
          var s := els[i].nextElementSibling.value;
          i < s < |els| && els[s].parentElement == els[i].parentElement)
  }

  predicate WellFormedView(els: seq<Element>) {
    forall i: nat :: i < |els| ==> ElementLinksOk(els, i)
  }

  predicate IsNestableTag(tagName: string) {
    tagName in NestableTagNames
  }

  /** What one element adds to a cumulative offset: nothing for list and quote containers. */
  function OwnOffset(e: Element): int {
    if IsNestableTag(e.tagName) then 0 else e.offsetTop
  }

  /** `a` is `d` or one of its ancestors. */
  predicate ElemAncestorOrSelf(els: seq<Element>, a: ElemId, d: ElemId)
    requires WellFormedView(els) && d < |els|
    decreases d
  {
    || d == a
    || match els[d].parentElement
       case None => false
       case Some(p) =>
         assert ElementLinksOk(els, d);
         ElemAncestorOrSelf(els, a, p)
  }

  /**
   * `el` followed by its ancestors, stopping before `root` or after the
   * topmost element when `root` is not an ancestor.
   */
  function AncestorsBelow(els: seq<Element>, el: ElemId, root: ElemId): (path: seq<ElemId>)
    requires WellFormedView(els) && el < |els|
    ensures el == root <==> path == []
    ensures el != root ==> path[0] == el
    ensures forall k :: 0 <= k < |path| ==> path[k] < |els| && path[k] != root
    ensures forall k :: 0 <= k < |path| - 1 ==> els[path[k]].parentElement == Some(path[k + 1])
    ensures |path| > 0 ==> var top := els[path[|path| - 1]].parentElement; top.None? || top == Some(root)
    decreases el
  {
    if el == root then []
    else
      match els[el].parentElement
      case None => [el]
      case Some(p) =>
        assert ElementLinksOk(els, el);
        [el] + AncestorsBelow(els, p, root)
  }

  function OffsetSum(els: seq<Element>, path: seq<ElemId>): int
    requires forall k :: 0 <= k < |path| ==> path[k] < |els|
  {
    if path == [] then 0 else OwnOffset(els[path[0]]) + OffsetSum(els, path[1..])
  }

  /**
   * `getTotalOffsetTop`: the offsets of `el` and its ancestors strictly below
   * `root` added up, list and quote containers contributing nothing.
   */
  function TotalOffsetTop(els: seq<Element>, el: ElemId, root: ElemId): (offset: int)
    requires WellFormedView(els) && el < |els|
    ensures el == root ==> offset == 0
    ensures offset == OffsetSum(els, AncestorsBelow(els, el, root))
    decreases el
  {
    if el == root then 0
    else
      OwnOffset(els[el]) +
        match els[el].parentElement
        case None => 0
        case Some(p) =>
          assert ElementLinksOk(els, el);
          TotalOffsetTop(els, p, root)
  }

  /** Two arenas with the same shape and tags whose offsets differ only on container elements. */
  predicate SameUpToContainerOffsets(a: seq<Element>, b: seq<Element>) {
    && |a| == |b|
    && forall i :: 0 <= i < |a| ==>
         && a[i].tagName == b[i].tagName
         && a[i].parentElement == b[i].parentElement
         && a[i].firstElementChild == b[i].firstElementChild
         && a[i].nextElementSibling == b[i].nextElementSibling
         && (!IsNestableTag(a[i].tagName) ==> a[i].offsetTop == b[i].offsetTop)
  }

  /** The offset of a `UL`, `OL` or `BLOCKQUOTE` never influences a cumulative offset. */
  lemma {:induction false} ContainerOffsetsIgnored(a: seq<Element>, b: seq<Element>, el: ElemId, root: ElemId)
    requires WellFormedView(a) && WellFormedView(b) && el < |a|
    requires SameUpToContainerOffsets(a, b)
    ensures TotalOffsetTop(a, el, root) == TotalOffsetTop(b, el, root)
    decreases el
  {
    if el != root {
      assert OwnOffset(a[el]) == OwnOffset(b[el]);
      match a[el].parentElement
      case None =>
      case Some(p) =>
        assert ElementLinksOk(a, el);
        ContainerOffsetsIgnored(a, b, p, root);
    }
  }

  /** `root > UL(50) > LI(10) > SPAN(5)`: the span sits 15 pixels below the root, not 65. */
  lemma NestedListOffsetExample()
    ensures var els := [
      Element("DIV", 0, None, Some(1), None),
      Element("UL", 50, Some(0), Some(2), None),
      Element("LI", 10, Some(1), Some(3), None),
      Element("SPAN", 5, Some(2), None, None)];
      WellFormedView(els) && TotalOffsetTop(els, 3, 0) == 15
  {
    var els := [
      Element("DIV", 0, None, Some(1), None),
      Element("UL", 50, Some(0), Some(2), None),
      Element("LI", 10, Some(1), Some(3), None),
      Element("SPAN", 5, Some(2), None, None)];
    assert ElementLinksOk(els, 0) && ElementLinksOk(els, 1) && ElementLinksOk(els, 2) && ElementLinksOk(els, 3);
    assert IsNestableTag("UL");
    assert TotalOffsetTop(els, 1, 0) == 0;
  }

  /** The element reached from `e` by following `firstElementChild` `k` times, if any. */
  function FirstElementDescent(els: seq<Element>, e: Option<ElemId>, k: nat): (d: Option<ElemId>)
    requires WellFormedView(els) && (e.Some? ==> e.value < |els|)
    ensures d.Some? ==> d.value < |els|
  {
    if k == 0 then e
    else
      match FirstElementDescent(els, e, k - 1)
      case None => None
      case Some(x) =>
        assert ElementLinksOk(els, x);
        els[x].firstElementChild
  }
}
