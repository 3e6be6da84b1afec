/**
 * The part of the DOM the plugin reads and writes.
 *
 * The tree shape, the class names and the icon colour are fixed for the duration of one
 * callback of the plugin, so they are `const`; the host changes them between callbacks.
 * The only thing the plugin writes is the inline style of indicator nodes.
 */
module Dom {
  import opened Wrappers
  import opened Classify

  /** The two inline style properties the plugin writes; `None` is an unset property. */
  datatype Style = Style(backgroundColor: Option<string>, opacity: Option<real>)

  class Node {
    const parent: Node?
    /** `None` when `className` is not a string. */
    const className: Option<string>
    /** Whether the node is an `SVGElement`. */
    const isSvg: bool
    const childNodes: seq<Node>
    /** The first descendant matching `svg[role='img']`, the folder's icon. */
    const svgChild: Node?
    /** The first descendant matching `span[class^='expandedFolderBackground-']`, the indicator. */
    const background: Node?
    /** `style.color`; `None` stands for null or undefined (a browser reads an unset inline colour as `""`). */
    const iconColor: Option<string>
    var style: Style

    constructor (parent: Node?, className: Option<string>, isSvg: bool, childNodes: seq<Node>,
                 svgChild: Node?, background: Node?, iconColor: Option<string>)
      ensures this.parent == parent && this.className == className && this.isSvg == isSvg
      ensures this.childNodes == childNodes && this.svgChild == svgChild
      ensures this.background == background && this.iconColor == iconColor
      ensures style == Style(None, None)
    {
      this.parent := parent;
      this.className := className;
      this.isSvg := isSvg;
      this.childNodes := childNodes;
      this.svgChild := svgChild;
      this.background := background;
      this.iconColor := iconColor;
      style := Style(None, None);
    }
  }

  predicate IsWrapperNode(n: Node)
  {
    IsWrapperClass(n.className)
  }

  predicate IsListNode(n: Node)
  {
    IsListClass(n.className)
  }

  /** `isWrapperNode` and `isListNode` never both hold of a node. */
  lemma WrapperAndListExclusive(n: Node)
    ensures !(IsWrapperNode(n) && IsListNode(n))
    ensures n.className.None? ==> !IsWrapperNode(n) && !IsListNode(n)
  {
    ClassesExclusive(n.className);
  }

  /**
   * `chain` is the finite sequence of nodes visited by following `parentNode` from `start`:
   * `start` itself, its parent, and so on up to a node without a parent.
   * It is empty when `start` is null.
   */
  predicate ChainFrom(start: Node?, chain: seq<Node>)
  {
    && (if start == null then chain == []
        else |chain| > 0 && chain[0] == start && chain[|chain| - 1].parent == null)
    && forall i :: 0 <= i < |chain| - 1 ==> chain[i].parent == chain[i + 1]
  }

  /** The class names along a chain. */
  function ClassNames(chain: seq<Node>): (names: seq<Option<string>>)
    ensures |names| == |chain|
    ensures forall i :: 0 <= i < |chain| ==> names[i] == chain[i].className
  {
    seq(|chain|, i requires 0 <= i < |chain| => chain[i].className)
  }
}
