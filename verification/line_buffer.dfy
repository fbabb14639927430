/**
 * The CodeMirror line buffer as data: one `Line` per editor line, with its
 * text and its rendered height. `HeightAtLine` stands for
 * `cm.heightAtLine(n, 'local')`, the top of line `n` measured from the top of
 * the document.
 */
module LineBuffer {
  import Text

  datatype Line = Line(text: string, height: nat)

  /** Which lines a height sum takes into account. */
  datatype Selection = AllLines | BlankLines | NonBlankLines

  predicate Selected(line: Line, sel: Selection) {
    match sel
    case AllLines => true
    case BlankLines => Text.IsBlank(line.text)
    case NonBlankLines => !Text.IsBlank(line.text)
  }

  /** Sum of the heights of the selected lines with index in `[lo, hi)`. */
  function SumHeights(lines: seq<Line>, lo: int, hi: int, sel: Selection): nat
    requires 0 <= lo <= hi <= |lines|
    decreases hi - lo
  {
    if lo == hi then 0
    else SumHeights(lines, lo, hi - 1, sel) + (if Selected(lines[hi - 1], sel) then lines[hi - 1].height else 0)
  }

  function Clamp(n: int, hi: nat): (c: nat)
    ensures c <= hi
  {
    if n < 0 then 0 else if n > hi then hi else n
  }

  /**
   * `cm.heightAtLine(n, 'local')`: total height of the lines above line `n`;
   * a line number past the end gives the bottom of the document, one before
   * the start gives its top.
   */
  function HeightAtLine(lines: seq<Line>, n: int): nat {
    SumHeights(lines, 0, Clamp(n, |lines|), AllLines)
  }

  /** Sums over adjacent ranges add up. */
  lemma {:induction false} SumHeightsSplit(lines: seq<Line>, lo: int, mid: int, hi: int, sel: Selection)
    requires 0 <= lo <= mid <= hi <= |lines|
    ensures SumHeights(lines, lo, mid, sel) + SumHeights(lines, mid, hi, sel) == SumHeights(lines, lo, hi, sel)
    decreases hi - mid
  {
    if mid < hi {
      SumHeightsSplit(lines, lo, mid, hi - 1, sel);
    }
  }

  /** Every line is either blank or not: the two partial sums make up the whole. */
  lemma {:induction false} SumHeightsPartition(lines: seq<Line>, lo: int, hi: int)
    requires 0 <= lo <= hi <= |lines|
    ensures SumHeights(lines, lo, hi, BlankLines) + SumHeights(lines, lo, hi, NonBlankLines)
         == SumHeights(lines, lo, hi, AllLines)
    decreases hi - lo
  {
    if lo < hi {
      SumHeightsPartition(lines, lo, hi - 1);
    }
  }

  /** The distance between two line tops is the height of the lines in between; tops never go up. */
  lemma HeightAtLineDifference(lines: seq<Line>, a: int, b: int)
    requires a <= b
    ensures HeightAtLine(lines, a) <= HeightAtLine(lines, b)
    ensures 0 <= a && b <= |lines| ==>
      HeightAtLine(lines, b) - HeightAtLine(lines, a) == SumHeights(lines, a, b, AllLines)
  {
    SumHeightsSplit(lines, 0, Clamp(a, |lines|), Clamp(b, |lines|), AllLines);
  }

  /**
   * `getEmptyLineHeight`: the summed height of the whitespace-only lines in
   * `[start, end)`. The line `end` itself is never counted, and nothing but
   * the text is looked at (no image or code block check).
   */
  method EmptyLineHeight(lines: seq<Line>, start: int, end: int) returns (h: nat)
    requires end <= start || (0 <= start && end <= |lines|)
    ensures end <= start ==> h == 0
    ensures start < end ==> h == SumHeights(lines, start, end, BlankLines)
  {
    h := 0;
    if end <= start {
      return;
    }
    var i := start;
    while i < end
      invariant start <= i <= end
      invariant h == SumHeights(lines, start, i, BlankLines)
    {
      assert SumHeights(lines, start, i + 1, BlankLines)
          == h + (if Selected(lines[i], BlankLines) then lines[i].height else 0);
      if Text.IsBlank(lines[i].text) {
        h := h + lines[i].height;
      }
      i := i + 1;
    }
  }
}
