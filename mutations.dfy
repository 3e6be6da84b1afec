/**
 * `mutate`: the mutation callback, turning each delivered record into paint actions.
 * A paint of a wrapper whose own children changed is deferred by a zero-delay timeout;
 * the others run at once. Scheduling itself is not modelled, only the actions in order.
 */
module Mutations {
  import opened Wrappers
  import opened Dom
  import opened FolderSearch

  datatype Action = Deferred(node: Node) | Immediate(node: Node)

  /** The three kinds of mutation record a DOM delivers. */
  datatype MutationType = ChildList | Attributes | CharacterData

  /** A mutation record; `addedNodes` and `attributeName` are `None` where the record holds null. */
  datatype MutationRecord = MutationRecord(
    kind: MutationType,
    target: Node,
    addedNodes: Option<seq<Node>>,
    attributeName: Option<string>)

  /** A change of the `style` attribute of an SVG element. */
  predicate IsStyleChange(m: MutationRecord)
  {
    m.kind == Attributes && m.target.isSvg && m.attributeName == Some("style")
  }

  /** Immediate paints of the wrappers among `added`, in their order. */
  function PaintAdded(added: seq<Node>): seq<Action>
  {
    if added == [] then []
    else
      var last := added[|added| - 1];
      PaintAdded(added[..|added| - 1]) + (if IsWrapperNode(last) then [Immediate(last)] else [])
  }

  /** The actions for one record; `folder` is what the folder search returns from its target. */
  function RecordActions(m: MutationRecord, folder: Node?): seq<Action>
  {
    var structural :=
      if m.kind != ChildList then []
      else if IsWrapperNode(m.target) then [Deferred(m.target)]
      else if m.addedNodes.Some? then PaintAdded(m.addedNodes.value)
      else [];
    var styled :=
      if IsStyleChange(m) && folder != null then [Immediate(folder)] else [];
    structural + styled
  }

  /** Every record's target comes with its parent chain. */
  predicate ChainsFor(records: seq<MutationRecord>, chains: seq<seq<Node>>)
  {
    |chains| == |records| && forall i :: 0 <= i < |records| ==> ChainFrom(records[i].target, chains[i])
  }

  /** The folder search's result for each chain. */
  function FoldersOf(chains: seq<seq<Node>>): (folders: seq<Node?>)
    ensures |folders| == |chains|
    ensures forall i :: 0 <= i < |chains| ==> folders[i] == FolderOf(chains[i])
  {
    seq(|chains|, i requires 0 <= i < |chains| => FolderOf(chains[i]))
  }

  /** Every folder found is a wrapper node. */
  predicate FoldersAreWrappers(folders: seq<Node?>)
  {
    forall i :: 0 <= i < |folders| && folders[i] != null ==> IsWrapperNode(folders[i])
  }

  /** The actions for a batch: each record's actions, in delivered order. */
  function Dispatch(records: seq<MutationRecord>, folders: seq<Node?>): seq<Action>
    requires |folders| == |records|
  {
    if records == [] then []
    else
      var n := |records| - 1;
      Dispatch(records[..n], folders[..n]) + RecordActions(records[n], folders[n])
  }

  lemma SplitLast<T>(xs: seq<T>, ys: seq<T>)
    requires ys != []
    ensures (xs + ys)[..|xs + ys| - 1] == xs + ys[..|ys| - 1]
    ensures (xs + ys)[|xs + ys| - 1] == ys[|ys| - 1]
  {
  }

  /** Unfolds `Dispatch` once at the last record. */
  lemma DispatchSnoc(records: seq<MutationRecord>, folders: seq<Node?>)
    requires |folders| == |records| && records != []
    ensures Dispatch(records, folders) ==
      Dispatch(records[..|records| - 1], folders[..|records| - 1]) + RecordActions(records[|records| - 1], folders[|records| - 1])
  {
  }

  /** What one record gives, case by case. */
  lemma RecordDispatchTable(m: MutationRecord, folder: Node?)
    ensures m.kind == ChildList && IsWrapperNode(m.target) ==> RecordActions(m, folder) == [Deferred(m.target)]
    ensures m.kind == ChildList && !IsWrapperNode(m.target) && m.addedNodes.None? ==> RecordActions(m, folder) == []
    ensures m.kind == ChildList && !IsWrapperNode(m.target) && m.addedNodes.Some? ==>
      RecordActions(m, folder) == PaintAdded(m.addedNodes.value)
    ensures IsStyleChange(m) ==>
      RecordActions(m, folder) == (if folder == null then [] else [Immediate(folder)])
    ensures m.kind != ChildList && !IsStyleChange(m) ==> RecordActions(m, folder) == []
  {
  }

  /** The paints of added nodes are exactly the paints of the added wrappers: every one an immediate
      paint of an added wrapper, and each added wrapper painted once per occurrence among the added nodes. */
  lemma {:induction false} PaintAddedExactly(added: seq<Node>)
    ensures |PaintAdded(added)| <= |added|
    ensures forall a :: a in PaintAdded(added) ==> a.Immediate? && a.node in added && IsWrapperNode(a.node)
    ensures forall n :: n in added && IsWrapperNode(n) ==> Immediate(n) in PaintAdded(added)
    ensures forall n :: multiset(PaintAdded(added))[Immediate(n)] == (if IsWrapperNode(n) then multiset(added)[n] else 0)
    decreases |added|
  {
    if added != [] {
      var init := added[..|added| - 1];
      var last := added[|added| - 1];
      PaintAddedExactly(init);
      assert added == init + [last];
      assert multiset(added) == multiset(init) + multiset{last};
      var tail := if IsWrapperNode(last) then [Immediate(last)] else [];
      assert PaintAdded(added) == PaintAdded(init) + tail;
      assert multiset(PaintAdded(added)) == multiset(PaintAdded(init)) + multiset(tail);
    }
  }

  /** Paints of added nodes respect their order: the actions for a concatenation are concatenated. */
  lemma {:induction false} PaintAddedAppend(xs: seq<Node>, ys: seq<Node>)
    ensures PaintAdded(xs + ys) == PaintAdded(xs) + PaintAdded(ys)
    decreases |ys|
  {
    if ys == [] {
      assert xs + ys == xs;
    } else {
      var n := |ys| - 1;
      assert (xs + ys)[..|xs + ys| - 1] == xs + ys[..n];
      PaintAddedAppend(xs, ys[..n]);
    }
  }

  /** Records are handled in delivered order: the actions for two batches in a row are concatenated. */
  lemma {:induction false} DispatchAppend(r1: seq<MutationRecord>, f1: seq<Node?>,
                                          r2: seq<MutationRecord>, f2: seq<Node?>)
    requires |f1| == |r1| && |f2| == |r2|
    ensures Dispatch(r1 + r2, f1 + f2) == Dispatch(r1, f1) + Dispatch(r2, f2)
    decreases |r2|
  {
    if r2 == [] {
      assert f2 == [] && Dispatch(r2, f2) == [];
      assert r1 + r2 == r1 && f1 + f2 == f1;
    } else {
      var n := |r2| - 1;
      calc {
        Dispatch(r1 + r2, f1 + f2);
        == { SplitLast(r1, r2); SplitLast(f1, f2); DispatchSnoc(r1 + r2, f1 + f2); }
        Dispatch(r1 + r2[..n], f1 + f2[..n]) + RecordActions(r2[n], f2[n]);
        == { DispatchAppend(r1, f1, r2[..n], f2[..n]); }
        Dispatch(r1, f1) + Dispatch(r2[..n], f2[..n]) + RecordActions(r2[n], f2[n]);
        == { DispatchSnoc(r2, f2); }
        Dispatch(r1, f1) + Dispatch(r2, f2);
      }
    }
  }

  /** Why an immediate paint of `n` follows from record `m` whose target's folder is `folder`. */
  predicate Causes(m: MutationRecord, folder: Node?, n: Node)
  {
    || (m.kind == ChildList && !IsWrapperNode(m.target) && m.addedNodes.Some? && n in m.addedNodes.value)
    || (IsStyleChange(m) && folder == n)
  }

  /** Every action of a batch paints a wrapper node; a deferred one paints the target of a
      child-list record; an immediate one paints an added node of a child-list record whose target
      is not a wrapper, or the folder found above the target of a style change. */
  lemma {:induction false} DispatchSound(records: seq<MutationRecord>, folders: seq<Node?>)
    requires |folders| == |records| && FoldersAreWrappers(folders)
    ensures forall a :: a in Dispatch(records, folders) ==> IsWrapperNode(a.node)
    ensures forall a :: a in Dispatch(records, folders) && a.Deferred? ==>
      exists i :: 0 <= i < |records| && records[i].kind == ChildList && records[i].target == a.node
    ensures forall a :: a in Dispatch(records, folders) && a.Immediate? ==>
      exists i :: 0 <= i < |records| && Causes(records[i], folders[i], a.node)
    decreases |records|
  {
    if records != [] {
      var n := |records| - 1;
      DispatchSound(records[..n], folders[..n]);
      var m := records[n];
      forall a | a in Dispatch(records, folders)
        ensures IsWrapperNode(a.node)
        ensures a.Deferred? ==>
          exists i :: 0 <= i < |records| && records[i].kind == ChildList && records[i].target == a.node
        ensures a.Immediate? ==> exists i :: 0 <= i < |records| && Causes(records[i], folders[i], a.node)
      {
        if a in Dispatch(records[..n], folders[..n]) {
          if a.Deferred? {
            var i :| 0 <= i < n && records[..n][i].kind == ChildList && records[..n][i].target == a.node;
            assert records[i] == records[..n][i];
          } else {
            var i :| 0 <= i < n && Causes(records[..n][i], folders[..n][i], a.node);
            assert records[i] == records[..n][i] && folders[i] == folders[..n][i];
          }
        } else {
          assert a in RecordActions(m, folders[n]);
          if m.addedNodes.Some? {
            PaintAddedExactly(m.addedNodes.value);
          }
        }
      }
    }
  }

  /** Every paint the records call for is in the batch's actions. */
  lemma {:induction false} DispatchComplete(records: seq<MutationRecord>, folders: seq<Node?>, i: nat)
    requires |folders| == |records| && i < |records|
    ensures records[i].kind == ChildList && IsWrapperNode(records[i].target) ==>
      Deferred(records[i].target) in Dispatch(records, folders)
    ensures records[i].kind == ChildList && !IsWrapperNode(records[i].target) && records[i].addedNodes.Some? ==>
      forall n :: n in records[i].addedNodes.value && IsWrapperNode(n) ==> Immediate(n) in Dispatch(records, folders)
    ensures IsStyleChange(records[i]) && folders[i] != null ==>
      Immediate(folders[i]) in Dispatch(records, folders)
    decreases |records|
  {
    var n := |records| - 1;
    if i < n {
      DispatchComplete(records[..n], folders[..n], i);
      assert records[..n][i] == records[i] && folders[..n][i] == folders[i];
    } else if records[i].addedNodes.Some? {
      PaintAddedExactly(records[i].addedNodes.value);
    }
  }

  /** The inner loop of `mutate`: an immediate paint of each added wrapper, in order. */
  method PaintAddedWrappers(added: seq<Node>) returns (acts: seq<Action>)
    ensures acts == PaintAdded(added)
  {
    acts := [];
    for j := 0 to |added|
      invariant acts == PaintAdded(added[..j])
    {
      assert added[..j + 1][..j] == added[..j];
      if IsWrapperNode(added[j]) {
        acts := acts + [Immediate(added[j])];
      }
    }
    assert added[..|added|] == added;
  }

  /**
   * `mutate`: for each record in delivered order, a child-list change on a wrapper defers a
   * paint of it; another child-list change paints each added wrapper at once; a style change
   * on an SVG paints the folder found above it, if any.
   */
  method Mutate(records: seq<MutationRecord>, ghost chains: seq<seq<Node>>) returns (actions: seq<Action>)
    requires ChainsFor(records, chains)
    ensures actions == Dispatch(records, FoldersOf(chains))
    ensures forall a :: a in actions ==> IsWrapperNode(a.node)
  {
    ghost var folders := FoldersOf(chains);
    actions := [];
    for i := 0 to |records|
      invariant actions == Dispatch(records[..i], folders[..i])
    {
      var mutation := records[i];
      var recordActions := [];
      if mutation.kind == ChildList {
        if IsWrapperNode(mutation.target) {
          recordActions := [Deferred(mutation.target)];
        } else if mutation.addedNodes.Some? {
          recordActions := PaintAddedWrappers(mutation.addedNodes.value);
        }
      }
      if mutation.kind == Attributes && mutation.target.isSvg && mutation.attributeName == Some("style") {
        var folderNode := FindFolderNode(mutation.target, chains[i]);
        if folderNode != null {
          recordActions := recordActions + [Immediate(folderNode)];
        }
      }
      assert recordActions == RecordActions(mutation, folders[i]);
      assert records[..i + 1][..i] == records[..i] && folders[..i + 1][..i] == folders[..i];
      DispatchSnoc(records[..i + 1], folders[..i + 1]);
      actions := actions + recordActions;
    }
    assert records[..|records|] == records && folders[..|folders|] == folders;
    assert FoldersAreWrappers(folders);
    DispatchSound(records, folders);
  }
}
