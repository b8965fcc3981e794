/** The end of btree_insert on the bytes of the leaf (src/btree.c): what the page then holds is what the tree's leaf
    step stores, whether the message fits as it is, after defragmenting, or by a split. */
module BTreeLeafPages {
  import opened DataModel
  import opened LeafPage
  import opened LeafSpace
  import opened Leaf
  import opened LeafSplit
  import opened LeafInsert
  import opened BTreeShape
  import opened BTreeUpdate
  import opened BTreeSplit
  import opened BTreeStore
  import opened BTreeInsert

  /** The page holds the leaf of the tree, byte for byte. */
  ghost predicate Shows(page: LeafNode, nd: Node)
    reads page, page.page
  {
    page.Valid() && nd.Leaf? && page.View() == nd.entries && page.nextAddr == nd.next && page.prevAddr == nd.prev
  }

  /** The leaf that the descent is about to enter. */
  ghost predicate IsBelow(t: MemtableTree, parent: Addr, c: nat, child: Addr)
    reads t
  {
    && parent in t.store && t.store[parent].Index? && c < |t.store[parent].children|
    && t.store[parent].children[c] == child && child in t.store
  }

  /** btree_insert from the leaf on: `right` is the page that a split fills, at the next address the mini allocator
      gives. */
  method InsertIntoPage(t: MemtableTree, parent: Addr, c: nat, child: Addr, page: LeafNode, right: LeafNode, key: Bytes,
                        msg: Message, ghost pn: nat)
    returns (wasUnique: bool, didSplit: bool)
    requires t.Valid() && |key| <= t.pageSize / 8 && Ready(t.cfg, t.tree, 1, pn, parent, c, t.cfg.rank(key))
    requires IsBelow(t, parent, c, child) && Shows(page, t.store[child]) && page.numEntries > 0
    requires right != page && right.page != page.page && right.page.Length == page.page.Length == t.pageSize
    requires LegalTuples(page.View(), t.pageSize)
    requires LegalTuple(Tuple(key, Upserted(t.cfg, key, Find(t.cfg, page.View(), t.cfg.rank(key)), msg)), t.pageSize)
    modifies t, page, page.page, right, right.page
    ensures t.Valid() && UpsertOf(t.cfg, old(t.View()), t.View(), key, msg)
    ensures TakesMessage(t.cfg, old(t.View()), t.View(), key, msg)
    ensures wasUnique <==> Find(t.cfg, old(t.View()), t.cfg.rank(key)).None?
    ensures child in t.store && Shows(page, t.store[child])
    ensures didSplit ==> old(t.nextFree) in t.store && Shows(right, t.store[old(t.nextFree)])
  {
    hide Sound, IsTree, Holds, UpsertOf, TakesMessage, Layout, Incorporated, CapacitySum, Find;
    ghost var r := t.cfg.rank(key);
    ghost var n := t.FollowChildHere(0, pn, parent, c, r);
    t.Stored(0, n);
    KeysSorted(t.cfg, t.store[child]);
    t.OnlyLeafHere(n, r);
    var entries, a := t.store[child].entries, t.nextFree;
    var spec := CreateSpec(t.cfg, page, key, msg);
    var es := Incorporated(entries, spec.idx, spec.state, spec.tuple);
    wasUnique := !spec.state.StillExists?;
    KeysStaySmall(entries, spec.idx, spec.state, spec.tuple, t.pageSize);
    LegalWithOne(page.View(), spec.tuple, t.pageSize);
    var fits := page.TryPerform(spec);
    didSplit := false;
    if !fits {
      var pivot;
      didSplit, pivot := DefragmentOrSplitChildLeaf(t.cfg, page, child, spec, right, a);
    }
    if didSplit {
      var m := page.numEntries;
      assert es[..m] == page.View() && es[m..] == right.View();
      t.SplitChildLeaf(parent, c, child, es, m, key, msg, pn, n);
    } else {
      t.SetLeaf(child, es, key, msg, n);
    }
    UpsertTakes(t.cfg, old(t.View()), t.View(), key, msg);
  }

  lemma KeysStaySmall(es: seq<Tuple>, idx: nat, state: EntryState, t: Tuple, p: nat)
    requires SmallEntries(es, p) && |t.key| <= p / 8 && !state.HasBeenRemoved?
    requires if state.StillExists? then idx < |es| else idx <= |es|
    ensures SmallEntries(Incorporated(es, idx, state, t), p)
  {
  }

  lemma LegalWithOne(es: seq<Tuple>, t: Tuple, p: nat)
    requires LegalTuples(es, p) && LegalTuple(t, p)
    ensures LegalTuples(es + [t], p)
  {
  }
}
