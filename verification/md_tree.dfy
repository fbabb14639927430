/**
 * The markdown document tree as an arena: node `i` is `doc[i]`, and the
 * `parent`, `firstChild` and `lastChild` links are indices into the same
 * sequence. Node-type predicates of `scroll/helper.js` live here.
 */
module MdTree {
  import opened Wrappers
  import Text

  type NodeId = nat

  /**
   * A markdown node. `nodeType` is the parser's type name (`"paragraph"`,
   * `"list"`, ...); `startLine` and `endLine` are the line parts of
   * `sourcepos[0]` and `sourcepos[1]`.
   */
  datatype MdNode = MdNode(
    nodeType: string,
    startLine: int,
    endLine: int,
    parent: Option<NodeId>,
    firstChild: Option<NodeId>,
    lastChild: Option<NodeId>)

  const NestableTypes: seq<string> := ["list", "blockQuote"]
  const HtmlTypes: seq<string> := ["htmlBlock", "htmlInline"]
  const MediaTypes: seq<string> := ["image", "codeBlock"]

  /** Links of node `i` point inside the arena, parents before children. */
  predicate NodeLinksOk(doc: seq<MdNode>, i: nat)
    requires i < |doc|
  {
    && (doc[i].parent.Some? ==> doc[i].parent.value < i)
    && (doc[i].firstChild.Some? ==> i < doc[i].firstChild.value < |doc|)
    && (doc[i].lastChild.Some? ==> i < doc[i].lastChild.value < |doc|)
  }

  /** A finite, acyclic tree: every parent chain and child chain ends. */
  predicate WellFormedDoc(doc: seq<MdNode>) {
    forall i: nat :: i < |doc| ==> NodeLinksOk(doc, i)
  }

  datatype Link = FirstChildLink | LastChildLink

  function Child(n: MdNode, link: Link): Option<NodeId> {
    match link
    case FirstChildLink => n.firstChild
    case LastChildLink => n.lastChild
  }

  /** The chain `id`, child of `id`, child of that, ... following one kind of child link to its end. */
  function Descent(doc: seq<MdNode>, id: NodeId, link: Link): (chain: seq<NodeId>)
    requires WellFormedDoc(doc) && id < |doc|
    ensures 1 <= |chain| && chain[0] == id
    ensures forall k :: 0 <= k < |chain| ==> id <= chain[k] < |doc|
    ensures forall k :: 0 <= k < |chain| - 1 ==> Child(doc[chain[k]], link) == Some(chain[k + 1])
    ensures Child(doc[chain[|chain| - 1]], link).None?
    decreases |doc| - id
  {
    match Child(doc[id], link)
    case None => [id]
    case Some(c) =>
      assert NodeLinksOk(doc, id);
      [id] + Descent(doc, c, link)
  }

  predicate IsMediaType(t: string) {
    t in MediaTypes
  }

  predicate IsNestableType(t: string) {
    t in NestableTypes
  }

  /**
   * `hasImageOrCodeBlockNode`: an image or code block lies on the leftmost
   * (first-child) chain from `id`. Nodes off that chain are not looked at.
   */
  function HasImageOrCodeBlockNode(doc: seq<MdNode>, id: NodeId): (found: bool)
    requires WellFormedDoc(doc) && id < |doc|
    ensures found <==> exists m :: m in Descent(doc, id, FirstChildLink) && IsMediaType(doc[m].nodeType)
    decreases |doc| - id
  {
    if IsMediaType(doc[id].nodeType) then true
    else
      match doc[id].firstChild
      case None => false
      case Some(c) =>
        assert NodeLinksOk(doc, id);
        HasImageOrCodeBlockNode(doc, c)
  }

  /** `isNodeToBeCalculated`: the node is not a list or block quote container. */
  predicate IsNodeToBeCalculated(n: MdNode)
    ensures IsNodeToBeCalculated(n) <==> n.nodeType != "list" && n.nodeType != "blockQuote"
  {
    !IsNestableType(n.nodeType)
  }

  /** `isHtmlNode` */
  predicate IsHtmlNode(n: MdNode)
    ensures IsHtmlNode(n) <==> n.nodeType == "htmlBlock" || n.nodeType == "htmlInline"
  {
    n.nodeType in HtmlTypes
  }

  /** `isMultiLineNode` */
  predicate IsMultiLineNode(n: MdNode) {
    n.nodeType == "codeBlock" || n.nodeType == "paragraph"
  }

  /**
   * `isEmptyLineNode`: the text is whitespace only and no image or code
   * block sits on the node's leftmost chain.
   */
  function IsEmptyLineNode(text: string, doc: seq<MdNode>, id: NodeId): (empty: bool)
    requires WellFormedDoc(doc) && id < |doc|
    ensures empty <==>
      && (forall i :: 0 <= i < |text| ==> Text.IsWhitespace(text[i]))
      && !(exists m :: m in Descent(doc, id, FirstChildLink) && IsMediaType(doc[m].nodeType))
  {
    Text.BlankIffAllWhitespace(text);
    Text.IsBlank(text) && !HasImageOrCodeBlockNode(doc, id)
  }

  /** `getLastLeafNode`: the end of the last-child chain from `id`. */
  function LastLeaf(doc: seq<MdNode>, id: NodeId): (leaf: NodeId)
    requires WellFormedDoc(doc) && id < |doc|
    ensures id <= leaf < |doc| && doc[leaf].lastChild.None?
    ensures leaf == id <==> doc[id].lastChild.None?
    ensures var chain := Descent(doc, id, LastChildLink); leaf == chain[|chain| - 1]
    decreases |doc| - id
  {
    match doc[id].lastChild
    case None => id
    case Some(c) =>
      assert NodeLinksOk(doc, id);
      LastLeaf(doc, c)
  }

  /** `getMdEndLine(getLastLeafNode(mdNode))`: the end line `getCmRangeHeight` measures to. */
  function LastLeafEndLine(doc: seq<MdNode>, id: NodeId): int
    requires WellFormedDoc(doc) && id < |doc|
  {
    doc[LastLeaf(doc, id)].endLine
  }

  /** A code block is multi-line and media, so no line is ever an empty line of it. */
  lemma CodeBlockNeverEmptyLine(doc: seq<MdNode>, id: NodeId, text: string)
    requires WellFormedDoc(doc) && id < |doc| && doc[id].nodeType == "codeBlock"
    ensures IsMultiLineNode(doc[id]) && !IsEmptyLineNode(text, doc, id)
  {
  }

  /**
   * Leftmost-only detection: an image that is the LAST child of a paragraph
   * whose first child is text is not found.
   */
  lemma MediaOffLeftmostChainNotDetected()
    ensures var doc := [
      MdNode("paragraph", 1, 1, None, Some(1), Some(2)),
      MdNode("text", 1, 1, Some(0), None, None),
      MdNode("image", 1, 1, Some(0), None, None)];
      WellFormedDoc(doc) && !HasImageOrCodeBlockNode(doc, 0)
  {
    var doc := [
      MdNode("paragraph", 1, 1, None, Some(1), Some(2)),
      MdNode("text", 1, 1, Some(0), None, None),
      MdNode("image", 1, 1, Some(0), None, None)];
    assert NodeLinksOk(doc, 0) && NodeLinksOk(doc, 1) && NodeLinksOk(doc, 2);
    assert Descent(doc, 1, FirstChildLink) == [1];
    assert Descent(doc, 0, FirstChildLink) == [0, 1];
  }
}
