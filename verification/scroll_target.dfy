/**
 * `findAdjacentElementToScrollTop` and `findLastSiblingElementToScrollTop`:
 * the descent through the rendered tree towards the element at a scroll
 * position.
 */
module ScrollTarget {
  import opened Wrappers
  import opened ViewTree

  /** The sibling test: the element starts strictly above the scroll position. */
  predicate Passes(els: seq<Element>, e: ElemId, scrollTop: int, offsetTop: int)
    requires e < |els|
  {
    scrollTop > offsetTop + els[e].offsetTop
  }

  /** `first` and the siblings after it, in order. */
  function SiblingChain(els: seq<Element>, first: ElemId): (chain: seq<ElemId>)
    requires WellFormedView(els) && first < |els|
    ensures 1 <= |chain| && chain[0] == first
    ensures forall k :: 0 <= k < |chain| ==> first <= chain[k] < |els|
    ensures forall k :: 0 <= k < |chain| - 1 ==> els[chain[k]].nextElementSibling == Some(chain[k + 1])
    ensures els[chain[|chain| - 1]].nextElementSibling.None?
    decreases |els| - first
  {
    match els[first].nextElementSibling
    case None => [first]
    case Some(s) =>
      assert ElementLinksOk(els, first);
      [first] + SiblingChain(els, s)
  }

  /**
   * `findLastSiblingElementToScrollTop`: walks the siblings from `el` while
   * they pass the test and returns the last one that did; stops at the first
   * sibling that fails.
   */
  function FindLastSibling(els: seq<Element>, el: Option<ElemId>, scrollTop: int, offsetTop: int): (found: Option<ElemId>)
    requires WellFormedView(els) && (el.Some? ==> el.value < |els|)
    ensures found.None? <==> el.None? || !Passes(els, el.value, scrollTop, offsetTop)
    ensures found.Some? ==>
      && el.value <= found.value < |els|
      && Passes(els, found.value, scrollTop, offsetTop)
      && els[found.value].parentElement == els[el.value].parentElement
    decreases if el.Some? then |els| - el.value else 0
  {
    if el.Some? && Passes(els, el.value, scrollTop, offsetTop) then
      assert ElementLinksOk(els, el.value);
      match FindLastSibling(els, els[el.value].nextElementSibling, scrollTop, offsetTop)
      case Some(later) => Some(later)
      case None => el
    else None
  }

  /** The first `n` elements of `chain` all pass. */
  predicate PrefixPasses(els: seq<Element>, chain: seq<ElemId>, n: nat, scrollTop: int, offsetTop: int)
    requires n <= |chain| && forall k :: 0 <= k < |chain| ==> chain[k] < |els|
  {
    forall j :: 0 <= j < n ==> Passes(els, chain[j], scrollTop, offsetTop)
  }

  /** `r` is the last element of the longest prefix of `chain` whose elements all pass. */
  predicate LastOfPassingPrefix(els: seq<Element>, chain: seq<ElemId>, r: ElemId, scrollTop: int, offsetTop: int)
    requires forall k :: 0 <= k < |chain| ==> chain[k] < |els|
  {
    exists k ::
      && 0 <= k < |chain|
      && chain[k] == r
      && PrefixPasses(els, chain, k + 1, scrollTop, offsetTop)
      && (k + 1 < |chain| ==> !Passes(els, chain[k + 1], scrollTop, offsetTop))
  }

  /**
   * The sibling search returns the end of the longest passing prefix of the
   * sibling chain, and nothing when the first sibling already fails; no
   * sibling after the first failure can be the answer.
   */
  lemma {:induction false} FindLastSiblingIsEndOfPassingPrefix(els: seq<Element>, first: ElemId, scrollTop: int, offsetTop: int)
    requires WellFormedView(els) && first < |els|
    ensures match FindLastSibling(els, Some(first), scrollTop, offsetTop)
      case None => !Passes(els, first, scrollTop, offsetTop)
      case Some(r) => LastOfPassingPrefix(els, SiblingChain(els, first), r, scrollTop, offsetTop)
    decreases |els| - first
  {
    var chain := SiblingChain(els, first);
    if Passes(els, first, scrollTop, offsetTop) {
      assert ElementLinksOk(els, first);
      match els[first].nextElementSibling
      case None =>
        assert chain == [first];
        assert FindLastSibling(els, Some(first), scrollTop, offsetTop) == Some(first);
        assert LastOfPassingPrefix(els, chain, first, scrollTop, offsetTop) by {
          assert chain[0] == first;
        }
      case Some(s) =>
        var rest := SiblingChain(els, s);
        assert chain == [first] + rest;
        FindLastSiblingIsEndOfPassingPrefix(els, s, scrollTop, offsetTop);
        match FindLastSibling(els, Some(s), scrollTop, offsetTop)
        case None =>
          assert FindLastSibling(els, Some(first), scrollTop, offsetTop) == Some(first);
          assert chain[0] == first && chain[1] == s;
          assert LastOfPassingPrefix(els, chain, first, scrollTop, offsetTop);
        case Some(r) =>
          assert FindLastSibling(els, Some(first), scrollTop, offsetTop) == Some(r);
          PassingPrefixExtends(els, first, rest, r, scrollTop, offsetTop);
    }
  }

  /** Putting a passing element in front of a chain keeps the end of its passing prefix. */
  lemma PassingPrefixExtends(els: seq<Element>, first: ElemId, rest: seq<ElemId>, r: ElemId, scrollTop: int, offsetTop: int)
    requires first < |els| && forall k :: 0 <= k < |rest| ==> rest[k] < |els|
    requires Passes(els, first, scrollTop, offsetTop)
    requires LastOfPassingPrefix(els, rest, r, scrollTop, offsetTop)
    ensures LastOfPassingPrefix(els, [first] + rest, r, scrollTop, offsetTop)
  {
    var chain := [first] + rest;
    var k :| && 0 <= k < |rest|
             && rest[k] == r
             && PrefixPasses(els, rest, k + 1, scrollTop, offsetTop)
             && (k + 1 < |rest| ==> !Passes(els, rest[k + 1], scrollTop, offsetTop));
    assert chain[k + 1] == r;
    assert PrefixPasses(els, chain, k + 2, scrollTop, offsetTop) by {
      forall j | 0 <= j < k + 2
        ensures Passes(els, chain[j], scrollTop, offsetTop)
      {
        if j > 0 {
          assert chain[j] == rest[j - 1];
        }
      }
    }
    if k + 2 < |chain| {
      assert chain[k + 2] == rest[k + 1];
    }
  }

  /** An element other than the root entered by the descent: it passes the test below its parent. */
  predicate EnteredFromParent(els: seq<Element>, e: ElemId, scrollTop: int, root: ElemId)
    requires WellFormedView(els) && e < |els|
  {
    match els[e].parentElement
    case None => false
    case Some(p) =>
      assert ElementLinksOk(els, e);
      Passes(els, e, scrollTop, TotalOffsetTop(els, p, root))
  }

  /** The descent stops at `e`: it has no child, or its first child already fails the test. */
  predicate NoChildPasses(els: seq<Element>, e: ElemId, scrollTop: int, root: ElemId)
    requires WellFormedView(els) && e < |els|
  {
    match els[e].firstElementChild
    case None => true
    case Some(c) =>
      assert ElementLinksOk(els, e);
      !Passes(els, c, scrollTop, TotalOffsetTop(els, e, root))
  }

  /**
   * `e` lies on the path the descent takes: it is `root`, or its parent lies
   * on the path and `e` is the last passing sibling among the parent's children.
   */
  predicate OnDescent(els: seq<Element>, e: ElemId, scrollTop: int, root: ElemId)
    requires WellFormedView(els) && e < |els|
    decreases e
  {
    || e == root
    || match els[e].parentElement
       case None => false
       case Some(p) =>
         assert ElementLinksOk(els, e) && ElementLinksOk(els, p);
         && OnDescent(els, p, scrollTop, root)
         && FindLastSibling(els, els[p].firstElementChild, scrollTop, TotalOffsetTop(els, p, root)) == Some(e)
  }

  /** An element the descent can stand on: below `root` by a chain of passing steps. */
  predicate Reached(els: seq<Element>, e: ElemId, scrollTop: int, root: ElemId)
    requires WellFormedView(els)
  {
    && root <= e < |els|
    && ElemAncestorOrSelf(els, root, e)
    && (e != root ==> EnteredFromParent(els, e, scrollTop, root))
  }

  /**
   * `findAdjacentElementToScrollTop`: descends one child level per step into
   * the last passing sibling and returns the deepest element reached, or
   * nothing when that element is `root` itself. The element returned is on
   * that descent path and the descent stops there, which pins it down.
   */
  method FindAdjacentElementToScrollTop(els: seq<Element>, scrollTop: int, root: ElemId) returns (r: Option<ElemId>)
    requires WellFormedView(els) && root < |els|
    ensures r.None? <==> NoChildPasses(els, root, scrollTop, root)
    ensures r.Some? ==>
      && r.value != root
      && Reached(els, r.value, scrollTop, root)
      && OnDescent(els, r.value, scrollTop, root)
      && NoChildPasses(els, r.value, scrollTop, root)
  {
    var el: Option<ElemId> := Some(root);
    var prev: Option<ElemId> := None;
    while el.Some?
      invariant el.Some? ==> Reached(els, el.value, scrollTop, root) && OnDescent(els, el.value, scrollTop, root)
      invariant el.None? ==>
        && prev.Some? && Reached(els, prev.value, scrollTop, root) && OnDescent(els, prev.value, scrollTop, root)
        && NoChildPasses(els, prev.value, scrollTop, root)
      invariant NoChildPasses(els, root, scrollTop, root) ==>
        el == Some(root) || (el.None? && prev == Some(root))
      decreases if el.Some? then |els| + 1 - el.value else 0
    {
      var current := el.value;
      var firstElementChild := els[current].firstElementChild;
      if firstElementChild.None? {
        break;
      }
      assert ElementLinksOk(els, current);
      var lastSibling := FindLastSibling(els, firstElementChild, scrollTop, TotalOffsetTop(els, current, root));
      prev := el;
      el := lastSibling;
    }
    var adjacent := if el.Some? then el else prev;
    assert NoChildPasses(els, adjacent.value, scrollTop, root);
    r := if adjacent == Some(root) then None else adjacent;
  }
}
