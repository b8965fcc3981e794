/** Splitting or defragmenting a full leaf (src/btree.c): the plan, the right node, the left node and the
    pending insertion, whose assertions never fire. */
module LeafSplit {
  import opened DataModel
  import opened LeafPage
  import opened LeafSpace
  import opened Leaf

  datatype SplittingPlan = SplittingPlan(splitIdx: nat, insertionGoesLeft: bool)

  /** The plan that sends the first m of the resulting entries left. */
  function PlanFor(m: nat, idx: nat, state: EntryState): SplittingPlan {
    SplittingPlan(if state.StillExists? || m <= idx then m else m - 1, idx < m)
  }

  /** plan_move_more_entries_to_left as a function: where it stops, and the bytes then on the left. */
  function MoveMore(es: seq<Tuple>, max: nat, total: nat, left: nat, i: nat): (r: (nat, nat))
    requires i <= max <= |es|
    ensures i <= r.0 <= max
    decreases max - i
  {
    if i < max && MostlyLeft(total, left, SLOT + Capacity(es[i]))
    then MoveMore(es, max, total, left + SLOT + Capacity(es[i]), i + 1)
    else (i, left)
  }

  method PlanMoveMoreEntriesToLeft(leaf: LeafNode, ghost es: seq<Tuple>, maxEntries: nat, totalBytes: nat,
                                   leftBytes: nat, splitIdx: nat)
    returns (newSplitIdx: nat, newLeftBytes: nat)
    requires leaf.Valid() && es == leaf.View() && splitIdx <= maxEntries <= leaf.numEntries
    ensures (newSplitIdx, newLeftBytes) == MoveMore(es, maxEntries, totalBytes, leftBytes, splitIdx)
  {
    hide Layout;
    newSplitIdx, newLeftBytes := splitIdx, leftBytes;
    while newSplitIdx < maxEntries
      invariant splitIdx <= newSplitIdx <= maxEntries
      invariant MoveMore(es, maxEntries, totalBytes, newLeftBytes, newSplitIdx)
             == MoveMore(es, maxEntries, totalBytes, leftBytes, splitIdx)
    {
      var entry := leaf.GetLeafEntry(newSplitIdx);
      if !MostlyLeft(totalBytes, newLeftBytes, SLOT + Capacity(entry)) {
        break;
      }
      newLeftBytes := newLeftBytes + SLOT + Capacity(entry);
      newSplitIdx := newSplitIdx + 1;
    }
  }

  /** The counting loop of btree_build_leaf_splitting_plan. */
  method CountBytes(leaf: LeafNode, spec: IncorporateSpec) returns (totalBytes: nat)
    requires leaf.Valid() && spec.For(leaf.numEntries)
    ensures totalBytes == SpaceSum(Incorporated(leaf.View(), spec.idx, spec.state, spec.tuple))
  {
    hide Layout, CapacitySum, Kept, Incorporated;
    ghost var es := leaf.View();
    ghost var removed := spec.Removed();
    NothingKept(es, removed);
    var numEntries := leaf.numEntries;
    totalBytes := Capacity(spec.tuple);
    var i := 0;
    while i < numEntries
      invariant i <= numEntries
      invariant totalBytes == Capacity(spec.tuple) + CapacitySum(Kept(es[..i], 0, removed))
    {
      if i != spec.idx || !spec.state.StillExists? {
        var entry := leaf.GetLeafEntry(i);
        totalBytes := totalBytes + Capacity(entry);
      }
      KeptGrows(es, i, removed);
      i := i + 1;
    }
    assert es[..i] == es;
    IncorporatedSpace(es, spec.idx, spec.state, spec.tuple);
    IncorporatedLength(es, spec.idx, spec.state, spec.tuple);
    var newNumEntries := numEntries + if spec.state.StillExists? then 0 else 1;
    totalBytes := totalBytes + newNumEntries * SLOT;
  }

  lemma NothingKept(es: seq<Tuple>, removed: int)
    ensures es[..0] == [] && CapacitySum(Kept([], 0, removed)) == 0
  {
  }

  lemma IncorporatedLength(es: seq<Tuple>, idx: nat, state: EntryState, t: Tuple)
    requires if state.StillExists? then idx < |es| else idx <= |es|
    ensures |Incorporated(es, idx, state, t)| == |es| + if state.StillExists? then 0 else 1
  {
  }

  /** The planning part of btree_build_leaf_splitting_plan, as a function of the entries. */
  function Plan(es: seq<Tuple>, idx: nat, inPlace: bool, entrySize: nat, total: nat): SplittingPlan
    requires if inPlace then idx < |es| else idx <= |es|
  {
    var (j, bytes) := MoveMore(es, idx, total, 0, 0);
    if j == idx && MostlyLeft(total, bytes, SLOT + entrySize)
    then
      SplittingPlan(MoveMore(es, |es|, total, bytes + SLOT + entrySize, if inPlace then idx + 1 else idx).0, true)
    else
      SplittingPlan(j, false)
  }

  method MakePlan(leaf: LeafNode, idx: nat, inPlace: bool, entrySize: nat, totalBytes: nat)
    returns (plan: SplittingPlan)
    requires leaf.Valid() && if inPlace then idx < leaf.numEntries else idx <= leaf.numEntries
    ensures plan == Plan(leaf.View(), idx, inPlace, entrySize, totalBytes)
  {
    hide Layout;
    ghost var es := leaf.View();
    var splitIdx, leftBytes := PlanMoveMoreEntriesToLeft(leaf, es, idx, totalBytes, 0, 0);
    if splitIdx == idx && MostlyLeft(totalBytes, leftBytes, SLOT + entrySize) {
      leftBytes := leftBytes + SLOT + entrySize;
      if inPlace {
        splitIdx := splitIdx + 1;
      }
      splitIdx, leftBytes := PlanMoveMoreEntriesToLeft(leaf, es, leaf.numEntries, totalBytes, leftBytes, splitIdx);
      plan := SplittingPlan(splitIdx, true);
    } else {
      plan := SplittingPlan(splitIdx, false);
    }
  }

  /** btree_build_leaf_splitting_plan: its three phases amount to one scan of the resulting entries. */
  method BuildLeafSplittingPlan(leaf: LeafNode, spec: IncorporateSpec) returns (plan: SplittingPlan)
    requires leaf.Valid() && spec.For(leaf.numEntries) && !spec.state.HasBeenRemoved?
    ensures var result := Incorporated(leaf.View(), spec.idx, spec.state, spec.tuple);
            plan == PlanFor(GreedySplit(result, SpaceSum(result), 0, 0), spec.idx, spec.state)
  {
    var totalBytes := CountBytes(leaf, spec);
    plan := MakePlan(leaf, spec.idx, spec.state.StillExists?, Capacity(spec.tuple), totalBytes);
    ThreePhases(leaf.View(), spec.idx, spec.state, spec.tuple, totalBytes);
  }

  lemma ThreePhases(es: seq<Tuple>, idx: nat, state: EntryState, t: Tuple, total: nat)
    requires if state.StillExists? then idx < |es| else idx <= |es|
    ensures Plan(es, idx, state.StillExists?, Capacity(t), total)
         == PlanFor(GreedySplit(Incorporated(es, idx, state, t), total, 0, 0), idx, state)
  {
    hide MostlyLeft, Capacity;
    var result := Incorporated(es, idx, state, t);
    FirstPhase(es, result, idx, total, 0, 0);
    var (j, bytes) := MoveMore(es, idx, total, 0, 0);
    if j == idx && MostlyLeft(total, bytes, SLOT + Capacity(t)) {
      var next := if state.StillExists? then idx + 1 else idx;
      LastPhase(es, result, total, bytes + SLOT + Capacity(t), next, idx + 1 - next);
    }
  }

  lemma KeptGrows(es: seq<Tuple>, i: nat, removed: int)
    requires i < |es|
    ensures CapacitySum(Kept(es[..i + 1], 0, removed))
         == CapacitySum(Kept(es[..i], 0, removed)) + if i == removed then 0 else Capacity(es[i])
  {
    if i == removed {
      assert Kept(es[..i + 1], 0, removed) == Kept(es[..i], 0, removed);
    } else {
      assert Kept(es[..i + 1], 0, removed) == Kept(es[..i], 0, removed) + [es[i]];
      CapacitySumConcat(Kept(es[..i], 0, removed), [es[i]]);
      CapacitySumSingle(es[i]);
    }
  }

  lemma IncorporatedSpace(es: seq<Tuple>, idx: nat, state: EntryState, t: Tuple)
    requires if state.StillExists? then idx < |es| else idx <= |es|
    ensures CapacitySum(Incorporated(es, idx, state, t))
         == Capacity(t) + CapacitySum(Kept(es, 0, if state.StillExists? then idx else -1))
  {
    var result := Incorporated(es, idx, state, t);
    CapacitySumAt(result, idx);
    assert result[..idx] == es[..idx];
    if state.StillExists? {
      assert result[idx + 1..] == es[idx + 1..];
      CapacitySumConcat(es[..idx], es[idx + 1..]);
    } else {
      assert result[idx + 1..] == es[idx..];
      CapacitySumSplit(es, idx);
    }
  }

  lemma {:induction false} FirstPhase(es: seq<Tuple>, result: seq<Tuple>, idx: nat, total: nat, left: nat, i: nat)
    requires i <= idx <= |es| && idx <= |result| && es[..idx] == result[..idx]
    ensures var (j, bytes) := MoveMore(es, idx, total, left, i);
      GreedySplit(result, total, left, i) == if j < idx then j else GreedySplit(result, total, bytes, idx)
    decreases idx - i
  {
    if i < idx {
      assert es[i] == es[..idx][i] == result[i];
      if MostlyLeft(total, left, SLOT + Capacity(es[i])) {
        FirstPhase(es, result, idx, total, left + SLOT + Capacity(es[i]), i + 1);
      }
    }
  }

  lemma {:induction false} LastPhase(es: seq<Tuple>, result: seq<Tuple>, total: nat, left: nat, i: nat, shift: nat)
    requires i <= |es| && |result| == |es| + shift
    requires forall k :: i <= k < |es| ==> result[k + shift] == es[k]
    ensures GreedySplit(result, total, left, i + shift) == MoveMore(es, |es|, total, left, i).0 + shift
    decreases |es| - i
  {
    if i < |es| && MostlyLeft(total, left, SLOT + Capacity(es[i])) {
      assert result[i + shift] == es[i];
      LastPhase(es, result, total, left + SLOT + Capacity(es[i]), i + 1, shift);
    }
  }

  // ----------------------------------------------------- splitting a leaf

  /** Bytes of a page that entries and slots can use. */
  function Space(leaf: LeafNode): nat
    requires HEADER <= leaf.page.Length
  {
    leaf.page.Length - HEADER
  }

  lemma ResultFits(es: seq<Tuple>, idx: nat, state: EntryState, t: Tuple)
    requires if state.StillExists? then idx < |es| else idx <= |es|
    ensures SpaceSum(Incorporated(es, idx, state, t)) <= SpaceSum(es) + SLOT + Capacity(t)
  {
    IncorporatedSpace(es, idx, state, t);
    KeptIsSmaller(es, 0, if state.StillExists? then idx else -1);
  }

  /** The entries copied to the right node, and what the insertion makes of them if it goes there. */
  lemma RightHalf(es: seq<Tuple>, idx: nat, state: EntryState, t: Tuple, m: nat)
    requires !state.HasBeenRemoved? && if state.StillExists? then idx < |es| else idx <= |es|
    requires m <= |Incorporated(es, idx, state, t)|
    ensures var plan := PlanFor(m, idx, state);
      && plan.splitIdx <= |es|
      && var right := Incorporated(es, idx, state, t)[m..];
         var kept := Kept(es, plan.splitIdx, if state.StillExists? then idx else -1);
         && (plan.insertionGoesLeft ==> kept == right)
         && (!plan.insertionGoesLeft ==>
              && plan.splitIdx <= idx && idx - plan.splitIdx <= |kept|
              && Incorporated(kept, idx - plan.splitIdx, HasBeenRemoved, t) == right
              && SpaceSum(right) == SpaceSum(kept) + SLOT + Capacity(t))
  {
    var plan := PlanFor(m, idx, state);
    var right := Incorporated(es, idx, state, t)[m..];
    var kept := Kept(es, plan.splitIdx, if state.StillExists? then idx else -1);
    if !plan.insertionGoesLeft {
      assert Incorporated(kept, idx - m, HasBeenRemoved, t) == right;
      IncorporatedSpace(kept, idx - m, HasBeenRemoved, t);
    }
  }

  /** The entries left in the old node, with or without the replaced one, and the insertion into them. */
  lemma LeftHalf(es: seq<Tuple>, idx: nat, state: EntryState, t: Tuple, m: nat)
    requires !state.HasBeenRemoved? && if state.StillExists? then idx < |es| else idx <= |es|
    requires m <= |Incorporated(es, idx, state, t)|
    ensures var plan := PlanFor(m, idx, state);
      && plan.splitIdx <= |es|
      && var left := Incorporated(es, idx, state, t)[..m];
         var stays := es[..plan.splitIdx];
         var kept := Kept(stays, 0, if state.StillExists? then idx else -1);
         && (!plan.insertionGoesLeft ==> stays == left)
         && (plan.insertionGoesLeft ==>
              && (if state.StillExists? then idx < |stays| else idx <= |stays|)
              && Incorporated(stays, idx, state, t) == left
              && idx <= |kept| && Incorporated(kept, idx, HasBeenRemoved, t) == left
              && SpaceSum(left) == SpaceSum(kept) + SLOT + Capacity(t))
  {
    var plan := PlanFor(m, idx, state);
    var left := Incorporated(es, idx, state, t)[..m];
    var stays := es[..plan.splitIdx];
    var kept := Kept(stays, 0, if state.StillExists? then idx else -1);
    if plan.insertionGoesLeft {
      assert Incorporated(stays, idx, state, t) == left;
      assert Incorporated(kept, idx, HasBeenRemoved, t) == left;
      IncorporatedSpace(kept, idx, HasBeenRemoved, t);
    }
  }

  lemma PageBounds(leaf: LeafNode)
    requires leaf.Valid()
    ensures HEADER <= leaf.page.Length < 65536
  {
  }

  /** An entry can be set exactly when it is no longer than the one it replaces, or fits in the gap between the table,
      with a slot for it, and the lowest entry. */
  lemma SetTaken(leaf: LeafNode, k: nat, t: Tuple)
    requires leaf.Valid()
    ensures var n := |leaf.View()|;
      leaf.CanSetLeafEntry(k, t)
      <==> (k < n && Capacity(t) <= Capacity(leaf.View()[k]))
           || (k <= n && HEADER + SLOT * (if k < n then n else n + 1) + Capacity(t) <= leaf.nextEntry)
  {
  }

  /** An insertion can be made in place exactly when it replaces an entry at least as long, or its entry fits in the gap
      that the table of the result leaves. */
  lemma PerformTaken(leaf: LeafNode, spec: IncorporateSpec)
    requires leaf.Valid() && spec.For(leaf.numEntries)
    ensures var es := leaf.View();
      leaf.CanPerform(spec)
      <==> (spec.state.StillExists? && Capacity(spec.tuple) <= Capacity(es[spec.idx]))
           || HEADER + SLOT * |Incorporated(es, spec.idx, spec.state, spec.tuple)| + Capacity(spec.tuple)
              <= leaf.nextEntry
  {
    SetTaken(leaf, if spec.state.StillExists? then spec.idx else leaf.numEntries, spec.tuple);
  }

  /** A packed page takes one more entry exactly when the total still fits. */
  lemma PackedTakes(leaf: LeafNode, t: Tuple)
    requires leaf.Valid() && leaf.Packed()
    ensures leaf.CanSetLeafEntry(leaf.numEntries, t)
        <==> SpaceSum(leaf.View()) + SLOT + Capacity(t) + HEADER <= leaf.page.Length
  {
  }

  /** btree_split_leaf_build_right_node */
  method BuildRightNode(left: LeafNode, leftAddr: nat, spec: IncorporateSpec, plan: SplittingPlan, right: LeafNode,
                        ghost m: nat)
    requires left.Valid() && spec.For(left.numEntries) && !spec.state.HasBeenRemoved?
    requires right != left && right.page != left.page && right.page.Length == left.page.Length
    requires var result := Incorporated(left.View(), spec.idx, spec.state, spec.tuple);
      m <= |result| && plan == PlanFor(m, spec.idx, spec.state) && SpaceSum(result[m..]) <= Space(left)
    modifies right, right.page, spec
    ensures right.Valid()
    ensures right.View() == old(Incorporated(left.View(), spec.idx, spec.state, spec.tuple))[m..]
    ensures right.prevAddr == leftAddr && right.nextAddr == left.nextAddr
    ensures plan.insertionGoesLeft ==> spec.idx == old(spec.idx) && spec.state == old(spec.state)
  {
    hide Layout, CapacitySum, Incorporated, Kept;
    PageBounds(left);
    RightHalf(left.View(), spec.idx, spec.state, spec.tuple, m);
    ghost var kept := Kept(left.View(), plan.splitIdx, spec.Removed());
    assert SpaceSum(kept) <= Space(left);
    right.generation, right.nextAddr, right.prevAddr := left.generation + 1, left.nextAddr, leftAddr;
    right.ResetNodeEntries();
    right.CopyEntries(left, plan.splitIdx, spec);
    if !plan.insertionGoesLeft {
      spec.idx := spec.idx - plan.splitIdx;
      AnyInsertion(kept, spec.idx, spec.state, spec.tuple);
      PackedTakes(right, spec.tuple);
      var incorporated := right.TryPerform(spec);
      assert incorporated;
    }
  }

  /** btree_split_leaf_cleanup_left_node: whatever it does, the pending insertion will then fit. */
  method CleanupLeftNode(left: LeafNode, spec: IncorporateSpec, plan: SplittingPlan, rightAddr: nat,
                         ghost result: seq<Tuple>, ghost m: nat)
    requires left.Valid() && plan.splitIdx <= left.numEntries && m <= |result|
    requires plan.insertionGoesLeft ==>
      && spec.For(left.numEntries) && !spec.state.HasBeenRemoved?
      && result == Incorporated(left.View(), spec.idx, spec.state, spec.tuple)
      && plan == PlanFor(m, spec.idx, spec.state) && SpaceSum(result[..m]) <= Space(left)
    modifies left, left.page, spec`state
    ensures left.Valid() && left.nextAddr == rightAddr && left.prevAddr == old(left.prevAddr)
    ensures !plan.insertionGoesLeft ==> left.View() == old(left.View())[..plan.splitIdx]
    ensures plan.insertionGoesLeft ==>
      && spec.For(left.numEntries) && left.CanPerform(spec)
      && Incorporated(left.View(), spec.idx, spec.state, spec.tuple) == result[..m]
  {
    hide Layout, CapacitySum, Incorporated, Kept;
    PageBounds(left);
    ghost var es, idx, state := left.View(), spec.idx, spec.state;
    left.nextAddr := rightAddr;
    left.TruncateLeaf(plan.splitIdx);
    left.generation := left.generation + 1;
    if plan.insertionGoesLeft {
      LeftHalf(es, idx, state, spec.tuple, m);
      if !left.CanPerform(spec) {
        left.DefragmentLeaf(spec);
        AnyInsertion(left.View(), idx, spec.state, spec.tuple);
        PackedTakes(left, spec.tuple);
      }
    }
  }

  lemma AnyInsertion(es: seq<Tuple>, idx: nat, state: EntryState, t: Tuple)
    requires idx <= |es| && !state.StillExists?
    ensures Incorporated(es, idx, state, t) == Incorporated(es, idx, HasBeenRemoved, t)
  {
  }

  /** The leaf part of btree_split_child_leaf.  The plan's split point leaves room for the insertion on
      whichever side it goes, so neither `incorporated` assertion can fail. */
  method SplitChildLeaf(cfg: DataConfig, left: LeafNode, leftAddr: nat, spec: IncorporateSpec, right: LeafNode,
                        rightAddr: nat)
    returns (pivot: Bytes)
    requires left.Valid() && spec.For(left.numEntries) && !spec.state.HasBeenRemoved?
    requires spec.state.StillExists? ==> cfg.rank(left.View()[spec.idx].key) == cfg.rank(spec.tuple.key)
    requires right != left && right.page != left.page && right.page.Length == left.page.Length
    requires left.numEntries > 0 && !(left.numEntries == 1 && spec.state.StillExists?)
    requires EntriesBounded(left.View() + [spec.tuple], Space(left))
    modifies left, left.page, right, right.page, spec
    ensures left.Valid() && right.Valid()
    ensures left.View() + right.View() == old(Incorporated(left.View(), spec.idx, spec.state, spec.tuple))
    ensures left.View() != [] && right.View() != []
    ensures cfg.rank(pivot) == cfg.rank(right.View()[0].key)
    ensures left.nextAddr == rightAddr && right.prevAddr == leftAddr
    ensures right.nextAddr == old(left.nextAddr) && left.prevAddr == old(left.prevAddr)
  {
    hide Layout, CapacitySum, Incorporated, SpaceSum, LeafNode.CanPerform;
    ghost var es, idx, state, t := left.View(), spec.idx, spec.state, spec.tuple;
    ghost var result := Incorporated(es, idx, state, t);
    LiveFits(left.page[..], left.cells, left.nextEntry);
    ghost var m := SplitPoint(es, idx, state, t, Space(left));
    var plan := BuildLeafSplittingPlan(left, spec);
    LeftHalf(es, idx, state, t, m);
    PivotIsFirstRight(es, idx, state, t, m);
    pivot := SplittingPivot(left, spec, plan);
    BuildRightNode(left, leftAddr, spec, plan, right, m);
    CleanupLeftNode(left, spec, plan, rightAddr, result, m);
    if plan.insertionGoesLeft {
      var incorporated := left.TryPerform(spec);
      assert incorporated;
    }
    assert result == result[..m] + result[m..];
  }

  /** The entry the pivot is read from is the right half's first, or the one it replaces. */
  lemma PivotIsFirstRight(es: seq<Tuple>, idx: nat, state: EntryState, t: Tuple, m: nat)
    requires !state.HasBeenRemoved? && if state.StillExists? then idx < |es| else idx <= |es|
    requires m < |Incorporated(es, idx, state, t)|
    ensures var plan, result := PlanFor(m, idx, state), Incorporated(es, idx, state, t);
      if plan.splitIdx == idx && !state.StillExists? && !plan.insertionGoesLeft then result[m] == t
      else plan.splitIdx < |es| && (result[m] == es[plan.splitIdx]
                                    || (state.StillExists? && result[m] == t && plan.splitIdx == idx))
  {
  }

  /** What the bound on entry sizes gives for the planned split. */
  lemma SplitPoint(es: seq<Tuple>, idx: nat, state: EntryState, t: Tuple, space: nat) returns (m: nat)
    requires if state.StillExists? then idx < |es| else idx <= |es|
    requires |es| > 0 && !(|es| == 1 && state.StillExists?)
    requires SpaceSum(es) <= space && EntriesBounded(es + [t], space)
    ensures var result := Incorporated(es, idx, state, t);
            && m == GreedySplit(result, SpaceSum(result), 0, 0)
            && SpaceSum(result[..m]) <= space && SpaceSum(result[m..]) <= space
            && 0 < m < |result|
  {
    var result := Incorporated(es, idx, state, t);
    m := GreedySplit(result, SpaceSum(result), 0, 0);
    ResultFits(es, idx, state, t);
    ResultBounded(es, idx, state, t, space);
    SplitFits(result, m, t, space);
    SplitProper(result, m);
  }

  lemma ResultBounded(es: seq<Tuple>, idx: nat, state: EntryState, t: Tuple, space: nat)
    requires if state.StillExists? then idx < |es| else idx <= |es|
    requires EntriesBounded(es + [t], space)
    ensures EntriesBounded(Incorporated(es, idx, state, t), space)
    ensures SLOT + Capacity(t) < space / 2
  {
    hide Capacity;
    var result := Incorporated(es, idx, state, t);
    assert (es + [t])[|es|] == t;
    forall i | 0 <= i < |result| ensures SLOT + Capacity(result[i]) < space / 2 {
      var j := if i == idx then |es| else if i < idx || state.StillExists? then i else i - 1;
      assert result[i] == (es + [t])[j];
    }
  }

  /** btree_splitting_pivot */
  method SplittingPivot(left: LeafNode, spec: IncorporateSpec, plan: SplittingPlan) returns (pivot: Bytes)
    requires left.Valid() && spec.For(left.numEntries)
    requires !(plan.splitIdx == spec.idx && !spec.state.StillExists? && !plan.insertionGoesLeft)
             ==> plan.splitIdx < left.numEntries
    ensures pivot == if plan.splitIdx == spec.idx && !spec.state.StillExists? && !plan.insertionGoesLeft
                     then spec.tuple.key else left.View()[plan.splitIdx].key
  {
    if plan.splitIdx == spec.idx && !spec.state.StillExists? && !plan.insertionGoesLeft {
      pivot := spec.tuple.key;
    } else {
      var t := left.GetLeafEntry(plan.splitIdx);
      pivot := t.key;
    }
  }
}
