/**
 * The folder ancestor search run on a style change of an icon: walk up the parent chain,
 * and return the nearest wrapper that lies strictly above the first list item on the chain.
 */
module FolderSearch {
  import opened Wrappers
  import opened Classify
  import opened Dom

  /** Index of the first list-item class name, if any. */
  function FirstListItem(names: seq<Option<string>>): (r: Option<nat>)
    ensures r.Some? ==> r.value < |names| && IsListClass(names[r.value])
    ensures r.Some? ==> forall k :: 0 <= k < r.value ==> !IsListClass(names[k])
    ensures r.None? ==> forall k :: 0 <= k < |names| ==> !IsListClass(names[k])
  {
    if names == [] then None
    else if IsListClass(names[0]) then Some(0)
    else match FirstListItem(names[1..])
      case None => None
      case Some(i) => Some(i + 1)
  }

  /** Index of the first wrapper class name at or after `from`, if any. */
  function FirstWrapperFrom(names: seq<Option<string>>, from: nat): (r: Option<nat>)
    ensures r.Some? ==> from <= r.value < |names| && IsWrapperClass(names[r.value])
    ensures r.Some? ==> forall k :: from <= k < r.value ==> !IsWrapperClass(names[k])
    ensures r.None? ==> forall k :: from <= k < |names| ==> !IsWrapperClass(names[k])
    decreases |names| - from
  {
    if from >= |names| then None
    else if IsWrapperClass(names[from]) then Some(from)
    else FirstWrapperFrom(names, from + 1)
  }

  /**
   * The position of the folder on a chain with class names `names`: the first wrapper
   * strictly after the first list item. Wrappers at or before the first list item are skipped.
   */
  function FolderIndex(names: seq<Option<string>>): (r: Option<nat>)
    ensures r.Some? ==> r.value < |names| && IsWrapperClass(names[r.value])
    ensures r.Some? ==> FirstListItem(names).Some? && FirstListItem(names).value < r.value
    ensures r.Some? ==> 0 < r.value && IsListClass(names[FirstListItem(names).value])
    ensures r.Some? ==> forall k :: FirstListItem(names).value < k < r.value ==> !IsWrapperClass(names[k])
    ensures r.None? <==>
      (|| FirstListItem(names).None?
       || forall k :: FirstListItem(names).value < k < |names| ==> !IsWrapperClass(names[k]))
  {
    match FirstListItem(names)
    case None => None
    case Some(i) => FirstWrapperFrom(names, i + 1)
  }

  /** The node `findFolderNode` returns for the chain above a start node, or null. */
  function FolderOf(chain: seq<Node>): (folder: Node?)
    ensures folder != null ==> IsWrapperNode(folder) && exists j :: 0 < j < |chain| && chain[j] == folder
  {
    match FolderIndex(ClassNames(chain))
    case None => null
    case Some(j) => chain[j]
  }

  /** The examples of a chain icon, list item, wrapper, root and of a wrapper met before any list item. */
  lemma FolderIndexExamples()
    ensures FolderIndex([None, Some("listItem-a"), Some("scroller-b"), Some("wrapper-c"), None]) == Some(3)
    ensures FolderIndex([None, Some("wrapper-a"), Some("listItem-b"), None]) == None
    ensures FolderIndex([Some("listItem-a"), Some("wrapper-b"), Some("wrapper-c")]) == Some(1)
    ensures FolderIndex([None, Some("wrapper-a")]) == None
  {
    assert IsListClass(Some("listItem-a")) by { assert "listItem-a"[..9] == ListItemPrefix; }
    assert IsListClass(Some("listItem-b")) by { assert "listItem-b"[..9] == ListItemPrefix; }
    assert IsWrapperClass(Some("wrapper-a")) by { assert "wrapper-a"[..8] == WrapperPrefix; }
    assert IsWrapperClass(Some("wrapper-b")) by { assert "wrapper-b"[..8] == WrapperPrefix; }
    assert IsWrapperClass(Some("wrapper-c")) by { assert "wrapper-c"[..8] == WrapperPrefix; }
    assert !IsListClass(Some("scroller-b")) by { assert "scroller-b"[0] != ListItemPrefix[0]; }
    assert !IsWrapperClass(Some("scroller-b")) by { assert "scroller-b"[0] != WrapperPrefix[0]; }
  }

  /**
   * `findFolderNode`: the loop up the parent chain. `foundGuild` becomes true at the first list
   * item; from the next node on, the first wrapper ends the loop.
   */
  method FindFolderNode(start: Node?, ghost chain: seq<Node>) returns (folder: Node?)
    requires ChainFrom(start, chain)
    ensures folder == FolderOf(chain)
    ensures folder != null ==> IsWrapperNode(folder) && exists j :: 0 < j < |chain| && chain[j] == folder
    ensures folder == null <==> FolderIndex(ClassNames(chain)).None?
  {
    ghost var names := ClassNames(chain);
    var node := start;
    var foundGuild := false;
    ghost var k := 0;
    while node != null && (!foundGuild || !IsWrapperNode(node))
      invariant 0 <= k <= |chain|
      invariant node == (if k < |chain| then chain[k] else null)
      invariant foundGuild <==> FirstListItem(names).Some? && FirstListItem(names).value < k
      invariant foundGuild ==> forall m :: FirstListItem(names).value < m < k ==> !IsWrapperClass(names[m])
      decreases |chain| - k
    {
      if !foundGuild {
        foundGuild := IsListNode(node);
      }
      node := node.parent;
      k := k + 1;
    }
    if node != null {
      assert FirstWrapperFrom(names, FirstListItem(names).value + 1) == Some(k);
    }
    folder := node;
  }
}
