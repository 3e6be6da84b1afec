/**
 * Painting and resetting the indicator of a folder wrapper, one node at a time
 * (`updateFolderNode`, `resetFolderNode`) and over the direct children of the servers
 * container (the loops of `initServers` and `stop`).
 */
module Painting {
  import opened Wrappers
  import opened Dom

  /** The fixed opacity of a painted indicator. */
  const IndicatorOpacity: real := 0.5

  /** `svgNode.style.color ?? "transparent"`: the fallback applies to null and undefined only. */
  function PaintColour(iconColor: Option<string>): string
  {
    match iconColor
    case Some(c) => c
    case None => "transparent"
  }

  /** The indicator's style after a paint with the given icon colour. */
  function Painted(s: Style, iconColor: Option<string>): Style
  {
    s.(backgroundColor := Some(PaintColour(iconColor)), opacity := Some(IndicatorOpacity))
  }

  /** The indicator's style after a reset: the background colour is removed, the opacity stays. */
  function Cleared(s: Style): Style
  {
    s.(backgroundColor := None)
  }

  /** Painting copies the icon colour through, falls back to "transparent" only when the colour is unset
      (an empty string is copied as it is), and does not depend on the previous style. */
  lemma PaintedCopiesIconColour(s: Style, t: Style, c: Option<string>)
    ensures Painted(s, c).opacity == Some(0.5)
    ensures c.Some? ==> Painted(s, c).backgroundColor == c
    ensures c.None? ==> Painted(s, c).backgroundColor == Some("transparent")
    ensures Painted(s, Some("")).backgroundColor == Some("")
    ensures Painted(s, c) == Painted(t, c)
  {
  }

  /** A reset is idempotent, and undoes a paint's colour while keeping its opacity. */
  lemma ClearedIdempotent(s: Style, c: Option<string>)
    ensures Cleared(Cleared(s)) == Cleared(s)
    ensures Cleared(Painted(s, c)) == Style(None, Some(IndicatorOpacity))
  {
  }

  /** `updateFolderNode`: a no-op unless both the icon and the indicator are found. */
  method UpdateFolderNode(node: Node)
    modifies node.background
    ensures node.svgChild != null && node.background != null ==>
      node.background.style == Painted(old(node.background.style), node.svgChild.iconColor)
    ensures node.svgChild == null && node.background != null ==>
      node.background.style == old(node.background.style)
  {
    var svgNode := node.svgChild;
    var background := node.background;
    if svgNode == null || background == null {
      return;
    }
    var color := PaintColour(svgNode.iconColor);
    background.style := background.style.(backgroundColor := Some(color));
    background.style := background.style.(opacity := Some(IndicatorOpacity));
  }

  /** `resetFolderNode`: a no-op unless the indicator is found. */
  method ResetFolderNode(node: Node)
    modifies node.background
    ensures node.background != null ==> node.background.style == Cleared(old(node.background.style))
  {
    var background := node.background;
    if background == null {
      return;
    }
    background.style := background.style.(backgroundColor := None);
  }

  /** A node that `updateFolderNode` actually paints when it is a wrapper child. */
  predicate Paints(n: Node)
  {
    IsWrapperNode(n) && n.svgChild != null && n.background != null
  }

  /** The indicators of the wrapper nodes in `cs`: the only nodes the child loops may write. */
  function Indicators(cs: seq<Node>): set<Node>
  {
    set n | n in cs && IsWrapperNode(n) && n.background != null :: n.background
  }

  /** The index of the last node of `cs` that paints the indicator `b`, if any (the last write wins). */
  function LastPainter(cs: seq<Node>, b: Node): (r: Option<nat>)
    ensures r.Some? ==> r.value < |cs| && Paints(cs[r.value]) && cs[r.value].background == b
    ensures r.Some? ==> forall k :: r.value < k < |cs| ==> !(Paints(cs[k]) && cs[k].background == b)
    ensures r.None? ==> forall k :: 0 <= k < |cs| ==> !(Paints(cs[k]) && cs[k].background == b)
  {
    if cs == [] then None
    else if Paints(cs[|cs| - 1]) && cs[|cs| - 1].background == b then Some(|cs| - 1)
    else LastPainter(cs[..|cs| - 1], b)
  }

  /** The style of indicator `b`, previously `before`, after each wrapper in `cs` was painted in turn. */
  function PaintedBy(cs: seq<Node>, b: Node, before: Style): Style
  {
    match LastPainter(cs, b)
    case None => before
    case Some(i) => Painted(before, cs[i].svgChild.iconColor)
  }

  /** No two painting wrappers of `cs` share an indicator, as in a DOM tree, where sibling subtrees are disjoint. */
  predicate DistinctIndicators(cs: seq<Node>)
  {
    forall i, j :: 0 <= i < j < |cs| && Paints(cs[i]) && Paints(cs[j]) ==> cs[i].background != cs[j].background
  }

  /** With unshared indicators, each painting wrapper is the last (only) painter of its own indicator. */
  lemma OwnIndicator(cs: seq<Node>, i: nat)
    requires DistinctIndicators(cs)
    requires i < |cs| && Paints(cs[i])
    ensures LastPainter(cs, cs[i].background) == Some(i)
  {
  }

  /** The loop of `initServers`: paint every direct wrapper child, in order. */
  method PaintWrapperChildren(cs: seq<Node>)
    modifies Indicators(cs)
    ensures forall b :: b in Indicators(cs) ==> b.style == PaintedBy(cs, b, old(b.style))
    ensures DistinctIndicators(cs) ==>
      forall i :: 0 <= i < |cs| && Paints(cs[i]) ==>
        cs[i].background.style == Painted(old(cs[i].background.style), cs[i].svgChild.iconColor)
  {
    for k := 0 to |cs|
      invariant forall b :: b in Indicators(cs) ==> b.style == PaintedBy(cs[..k], b, old(b.style))
    {
      var child := cs[k];
      assert cs[..k + 1][..k] == cs[..k];
      if IsWrapperNode(child) {
        UpdateFolderNode(child);
      }
    }
    assert cs[..|cs|] == cs;
    if DistinctIndicators(cs) {
      forall i | 0 <= i < |cs| && Paints(cs[i])
        ensures cs[i].background.style == Painted(old(cs[i].background.style), cs[i].svgChild.iconColor)
      {
        OwnIndicator(cs, i);
      }
    }
  }

  /** The loop of `stop`: reset every direct wrapper child. */
  method ResetWrapperChildren(cs: seq<Node>)
    modifies Indicators(cs)
    ensures forall b :: b in Indicators(cs) ==> b.style == Cleared(old(b.style))
  {
    for k := 0 to |cs|
      invariant forall b :: b in Indicators(cs) ==>
        b.style == (if b in Indicators(cs[..k]) then Cleared(old(b.style)) else old(b.style))
    {
      var child := cs[k];
      IndicatorsSnoc(cs, k);
      if IsWrapperNode(child) {
        ResetFolderNode(child);
      }
    }
    assert cs[..|cs|] == cs;
  }

  lemma IndicatorsSnoc(cs: seq<Node>, k: nat)
    requires k < |cs|
    ensures Indicators(cs[..k + 1]) ==
      Indicators(cs[..k]) + (if IsWrapperNode(cs[k]) && cs[k].background != null then {cs[k].background} else {})
  {
    assert cs[..k + 1] == cs[..k] + [cs[k]];
  }
}
