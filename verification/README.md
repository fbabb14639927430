# Scroll-sync geometry of the markdown editor

This project models `apps/editor/src/js/scroll/helper.js`, the helpers the
editor uses to keep the markdown source pane (a CodeMirror editor) and the
rendered preview scrolled to the same place. They connect three structures:

- the **markdown document tree**: nodes with a `type`, a `sourcepos`
  (start and end line), and `parent`, `firstChild` and `lastChild` links;
- the **rendered element tree**: elements with a `tagName`, an `offsetTop`
  and `parentElement`, `firstElementChild` and `nextElementSibling` links,
  some of them carrying the `data-nodeid` of a markdown node;
- the **CodeMirror line buffer**: per line, its text and its pixel height.

Both trees are immutable arenas (`seq`) indexed by id. Well-formedness
(`MdTree.WellFormedDoc`, `ViewTree.WellFormedView`) asks that a parent's id be
smaller than its children's ids and an element's id smaller than its next
sibling's id, as a pre-order numbering gives. So every chain of links ends,
and every loop and recursion decreases on an id. The element tree also asks
that a first child and a next sibling agree with the `parentElement` links.

Modules, one per concern of the source file:

- `Wrappers`: `Option` for `null`, `Result` for a thrown TypeError.
- `Text`: `String.prototype.trim` over the ECMAScript whitespace and
  line-terminator characters, and the test `!text.trim()`.
- `MdTree`: markdown nodes, the node-type predicates, `getLastLeafNode`.
  `getMdStartLine` and `getMdEndLine` are the node fields `startLine` and `endLine`.
- `LineBuffer`: lines, `cm.heightAtLine(n, 'local')`, `getEmptyLineHeight`.
- `RangeHeight`: `getCmRangeHeight`.
- `ViewTree`: elements and `getTotalOffsetTop`.
- `ScrollTarget`: `findLastSiblingElementToScrollTop` and
  `findAdjacentElementToScrollTop`.
- `Resolver`: `getParentNodeObj`, `hasSameLineParent` and `getNonNestableNodeObj`.
- `Interpolate`: `getAdditionalTopPos`.

Behaviours of the code that are easy to misread, modelled as written:

- The empty-line height looks only at the line text (`!text.trim()`). It does
  not apply the image/code-block check of `isEmptyLineNode`.
- The sibling search stops at the first sibling that fails the test. It does
  not look further for a later sibling that passes.
- The table skip in `getParentNodeObj` compares the markdown node's `type` with
  the tag names `TR`, `TH`, `TBODY` and `TD`. Parsed markdown types such as
  `tableCell` never equal these names, so table nodes are only climbed past when
  their parent starts on the same line. `Resolver.CollapseToBlock` models the
  comparison as written.
- `getCmRangeHeight` is guaranteed positive when the height of the start line
  is positive. Its fallback is that line's height, not a constant.
- A desynchronised lockstep descent throws a TypeError in the code. The model
  returns it as a `Failure` value.

## Model

| member | source | states |
|---|---|---|
| MdTree.HasImageOrCodeBlockNode | apps/editor/src/js/scroll/helper.js:8-16 | true exactly when some node on the first-child chain from the node (the node included) has type `image` or `codeBlock` |
| MdTree.MediaOffLeftmostChainNotDetected | apps/editor/src/js/scroll/helper.js:8-16 | an image that is the last child of a paragraph whose first child is text is not detected: only the leftmost chain is searched |
| MdTree.IsNodeToBeCalculated | apps/editor/src/js/scroll/helper.js:18-20 | false exactly for the container types `list` and `blockQuote`; every node `Resolver.GetParentNodeObj` returns satisfies it |
| MdTree.IsHtmlNode | apps/editor/src/js/scroll/helper.js:22-24 | true exactly for the types `htmlBlock` and `htmlInline` |
| MdTree.CodeBlockNeverEmptyLine | apps/editor/src/js/scroll/helper.js:87-89 | a code block is a multi-line node, and no text, blank or not, is an empty line of a code block |
| MdTree.IsEmptyLineNode | apps/editor/src/js/scroll/helper.js:75-77 | true exactly when every character of the text is whitespace and no image or code block lies on the node's first-child chain |
| Text.BlankIffAllWhitespace | apps/editor/src/js/scroll/helper.js:97 | `!text.trim()` holds exactly when every character of the text is whitespace (so the empty line is blank) |
| MdTree.LastLeaf | apps/editor/src/js/scroll/helper.js:104-109 | the result is the last node of the last-child chain: it has no last child, and it is the node itself exactly when the node has no last child |
| LineBuffer.EmptyLineHeight | apps/editor/src/js/scroll/helper.js:91-102 | the sum of the heights of the whitespace-only lines with index in `[start, end)`; the line `end` is never counted; 0 when `end <= start` |
| RangeHeight.CmRangeHeight | apps/editor/src/js/scroll/helper.js:64-73 | with `end` the end line of the node's last leaf: the summed height of the non-blank lines in `[start, end)` when that is positive, otherwise the height of line `start`; exactly the height of line `start` when `end <= start`; positive whenever line `start` has positive height |
| Interpolate.AdditionalTopPos | apps/editor/src/js/scroll/helper.js:26-30 | with a positive current height: the full target height once the scroll position reaches the end of the current node, otherwise the same fraction of the target height as of the current height; never above a non-negative target height, never negative when scrolled at or past the node's top |
| Interpolate.AdditionalTopPosMonotone | apps/editor/src/js/scroll/helper.js:26-30 | with a positive current height and a non-negative target height, a larger scroll position never gives a smaller result |
| ViewTree.TotalOffsetTop | apps/editor/src/js/scroll/helper.js:111-121 | 0 when the element is the root; otherwise the sum over the element and its ancestors strictly below the root (all its ancestors when the root is not one of them) of `offsetTop`, where `UL`, `OL` and `BLOCKQUOTE` elements count 0 |
| ViewTree.ContainerOffsetsIgnored | apps/editor/src/js/scroll/helper.js:115-117 | changing the `offsetTop` of `UL`, `OL` or `BLOCKQUOTE` elements never changes a cumulative offset |
| ViewTree.NestedListOffsetExample | apps/editor/src/js/scroll/helper.js:111-121 | in `root > UL(50) > LI(10) > SPAN(5)` the span's cumulative offset from the root is 15 |
| ScrollTarget.FindLastSibling | apps/editor/src/js/scroll/helper.js:148-154 | null exactly when the start element is null or fails `scrollTop > offsetTop + el.offsetTop` (strict, so equality fails); otherwise an element at or after the start that passes the test and has the same parent |
| ScrollTarget.FindLastSiblingIsEndOfPassingPrefix | apps/editor/src/js/scroll/helper.js:148-154 | the result is the last element of the longest prefix of the sibling chain whose elements all pass the test; no sibling after the first failing one is ever returned |
| ScrollTarget.FindAdjacentElementToScrollTop | apps/editor/src/js/scroll/helper.js:123-146 | null exactly when the root has no child or its first child fails the test; otherwise a proper descendant of the root on the descent path (every element on it, from the root down, is the last passing sibling among its parent's children, tested against the parent's cumulative offset) at which the descent stops (no child, or its first child fails) |
| Resolver.BoundAncestor | apps/editor/src/js/scroll/helper.js:33-38 | climbing from the node reaches a node that has an element, and every node passed on the way has none |
| Resolver.NearestBoundAncestorUnique | apps/editor/src/js/scroll/helper.js:35-38 | the node the first climb stops at is unique: the nearest ancestor-or-self that has an element |
| Resolver.CollapseToBlock | apps/editor/src/js/scroll/helper.js:40-54 | climbs only past nodes whose type is `TR`, `TH`, `TBODY` or `TD` or whose parent exists, is not the document and starts on the same line; stops at a node that is neither; fails only on reaching a parentless node of a table tag type, so never on a parsed document |
| Resolver.CollapseEndUnique | apps/editor/src/js/scroll/helper.js:40-43 | the node the second climb stops at is unique: the first node up the collapse path that is neither table-tag typed nor has a same-line parent |
| Resolver.SameLineParentIgnoresEndLines | apps/editor/src/js/scroll/helper.js:48-54 | the same-line test compares start lines only: trees that differ only in end lines give the same answer |
| Resolver.NonNestableNodeObj | apps/editor/src/js/scroll/helper.js:56-62 | succeeds exactly when every list or block quote met on the way down has an element and a first child; the node returned is not a list or block quote and sits k steps down the first-child chain, with the element k steps down the first-element-child chain; a non-container and its element are returned unchanged |
| Resolver.GetParentNodeObj | apps/editor/src/js/scroll/helper.js:32-46 | on success the node returned is never a list or block quote, and it is reached by the three phases: up to the nearest bound ancestor, up past table and same-line nodes, then down in lockstep from that node's element; on a parsed document it never fails for lack of a parent, and any other failure means the lockstep descent from the node the climbs stopped at is out of sync |

## Left out

- The DOM query `document.querySelector('[data-nodeid=…]')` is an injected map from node ids to element ids. Every node without a parent (the document root) must have an element, so the first climb never dereferences a null parent.
- CodeMirror is a sequence of lines, each with its text and a whole-pixel height. `cm.heightAtLine(n, 'local')` is the sum of the heights of the lines above `n`, with `n` clamped to the document. Line widgets, wrapped-line layout and fractional heights are not modelled.
- `getAdditionalTopPos` uses exact `real` arithmetic instead of floating point and requires a nonzero current height. Division by zero, `Infinity` and `NaN` are not modelled.
- The scroll position given to `findAdjacentElementToScrollTop` is an integer, like `offsetTop`.
- Reading a line outside the buffer (`cm.lineInfo` returning null) is excluded by preconditions of `LineBuffer.EmptyLineHeight` and `RangeHeight.CmRangeHeight`.
- `hasImageOrCodeBlockNode(null)`, `getTotalOffsetTop(null, root)` and `findAdjacentElementToScrollTop` with a null root are not modelled. The model always passes a node or an element.
- The `includes` utility is sequence membership (`in`).
