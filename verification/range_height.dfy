/** `getCmRangeHeight`: the editor height a markdown node's source lines occupy. */
module RangeHeight {
  import opened MdTree
  import opened LineBuffer

  /**
   * Height of the editor lines from `start` up to the end line of the node's
   * last leaf, without the blank lines in between; when that is not
   * positive, the height of line `start` alone.
   */
  method CmRangeHeight(lines: seq<Line>, doc: seq<MdNode>, start: int, id: NodeId) returns (h: int)
    requires WellFormedDoc(doc) && id < |doc|
    requires 0 <= start < |lines|
    requires LastLeafEndLine(doc, id) <= start || LastLeafEndLine(doc, id) <= |lines|
    ensures LastLeafEndLine(doc, id) <= start ==> h == lines[start].height
    ensures start < LastLeafEndLine(doc, id) ==>
      var visible := SumHeights(lines, start, LastLeafEndLine(doc, id), NonBlankLines);
      h == if visible > 0 then visible else lines[start].height
    ensures lines[start].height > 0 ==> h > 0
  {
    var cmNodeHeight := lines[start].height;
    var end := doc[LastLeaf(doc, id)].endLine;
    var emptyHeight := EmptyLineHeight(lines, start, end);
    var height := HeightAtLine(lines, end) - HeightAtLine(lines, start) - emptyHeight;
    if end <= start {
      HeightAtLineDifference(lines, end, start);
      assert height <= 0;
    } else {
      HeightAtLineDifference(lines, start, end);
      SumHeightsPartition(lines, start, end);
      assert height == SumHeights(lines, start, end, NonBlankLines);
    }
    h := if height <= 0 then cmNodeHeight else height;
  }
}
