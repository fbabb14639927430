/** `getAdditionalTopPos`: proportional placement of a scroll position inside a node. */
module Interpolate {

  /**
   * The fraction of the current node scrolled past, `(scrollTop - offsetTop) / currentNodeHeight`,
   * applied to the target node's height; from a fraction of 1 on, the whole target height.
   */
  function AdditionalTopPos(scrollTop: real, offsetTop: real, currentNodeHeight: real, targetNodeHeight: real): (pos: real)
    requires currentNodeHeight != 0.0
    ensures 0.0 < currentNodeHeight && offsetTop + currentNodeHeight <= scrollTop ==> pos == targetNodeHeight
    ensures 0.0 < currentNodeHeight && scrollTop < offsetTop + currentNodeHeight ==>
      pos * currentNodeHeight == (scrollTop - offsetTop) * targetNodeHeight
    ensures 0.0 < currentNodeHeight && 0.0 <= targetNodeHeight ==> pos <= targetNodeHeight
    ensures 0.0 < currentNodeHeight && 0.0 <= targetNodeHeight && offsetTop <= scrollTop ==> 0.0 <= pos
  {
    var diff := (scrollTop - offsetTop) / currentNodeHeight;
    assert diff * currentNodeHeight == scrollTop - offsetTop;
    assert 0.0 < currentNodeHeight && scrollTop < offsetTop + currentNodeHeight ==> diff < 1.0 by {
      if 0.0 < currentNodeHeight && 1.0 <= diff {
        assert currentNodeHeight <= diff * currentNodeHeight;
      }
    }
    if diff < 1.0 then diff * targetNodeHeight else targetNodeHeight
  }

  /** A further scroll position never maps to an earlier target position. */
  lemma AdditionalTopPosMonotone(s1: real, s2: real, offsetTop: real, currentNodeHeight: real, targetNodeHeight: real)
    requires 0.0 < currentNodeHeight && 0.0 <= targetNodeHeight && s1 <= s2
    ensures AdditionalTopPos(s1, offsetTop, currentNodeHeight, targetNodeHeight)
         <= AdditionalTopPos(s2, offsetTop, currentNodeHeight, targetNodeHeight)
  {
    var d1 := (s1 - offsetTop) / currentNodeHeight;
    var d2 := (s2 - offsetTop) / currentNodeHeight;
    assert d2 - d1 == (s2 - s1) / currentNodeHeight;
    assert d1 <= d2;
    if d2 < 1.0 {
      assert d1 * targetNodeHeight <= d2 * targetNodeHeight;
    }
  }
}
