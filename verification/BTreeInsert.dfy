/** btree_insert and btree_lookup, run alone (src/btree.c). What fits in a page is left open: wherever the
    code asks whether there is room, either answer is possible. */
module BTreeInsert {
  import opened DataModel
  import opened Concatenation
  import opened KeySearch
  import opened Meaning
  import opened Leaf
  import opened LeafInsert
  import opened BTreeShape
  import opened BTreeUpdate
  import opened BTreeSplit
  import opened BTreeStore

  // ----------------------------------------------------- searching a node

  /** btree_find_tuple, on the entries of a leaf */
  method FindEntry(cfg: DataConfig, es: seq<Tuple>, target: Bytes) returns (idx: int, found: bool)
    requires StrictlySorted(cfg, es)
    ensures Position(cfg, es, target, idx, found)
  {
    idx, found := FindKey(cfg, KeysOf(es), target);
    assert forall i :: 0 <= i < |es| ==> cfg.rank(es[i].key) == cfg.rank(KeysOf(es)[i]);
  }

  // --------------------------------------------- choosing an index split

  function IndexBytes(pivots: seq<Bytes>): (n: nat)
    ensures n >= INDEX_ENTRY * |pivots|
  {
    if |pivots| == 0 then 0
    else IndexBytes(pivots[..|pivots| - 1]) + INDEX_ENTRY + |pivots[|pivots| - 1]|
  }

  lemma IndexBytesStep(pivots: seq<Bytes>, i: nat)
    requires i < |pivots|
    ensures IndexBytes(pivots[..i + 1]) == IndexBytes(pivots[..i]) + INDEX_ENTRY + |pivots[i]|
  {
    assert pivots[..i + 1][..i] == pivots[..i];
  }

  /** btree_choose_index_split: of an index node that is worth splitting, neither half comes out empty. */
  method ChooseIndexSplit(pivots: seq<Bytes>, p: nat) returns (n: nat)
    requires LegalPageSize(p) && forall i :: 0 <= i < |pivots| ==> |pivots[i]| <= p / 8
    requires IndexBytes(pivots) + |pivots| * INDEX_ENTRY >= p / 2
    ensures 0 < n < |pivots|
    ensures IndexBytes(pivots[..n - 1]) < IndexBytes(pivots) / 2 <= IndexBytes(pivots[..n])
  {
    hide IndexBytes;
    var total, left := 0, 0;
    NoBytes(pivots);
    for i := 0 to |pivots|
      invariant total == IndexBytes(pivots[..i])
    {
      IndexBytesStep(pivots, i);
      total := total + INDEX_ENTRY + |pivots[i]|;
    }
    assert pivots[..|pivots|] == pivots;
    n := 0;
    while left < total / 2
      invariant n <= |pivots| && left == IndexBytes(pivots[..n])
      invariant n > 0 ==> IndexBytes(pivots[..n - 1]) < total / 2
      invariant n == |pivots| ==> left >= total / 2
      decreases |pivots| - n
    {
      IndexBytesStep(pivots, n);
      left := left + INDEX_ENTRY + |pivots[n]|;
      n := n + 1;
    }
    LastIsSmall(pivots, p);
  }

  lemma NoBytes(pivots: seq<Bytes>)
    ensures IndexBytes(pivots[..0]) == 0
  {
  }

  lemma LastIsSmall(pivots: seq<Bytes>, p: nat)
    requires LegalPageSize(p) && forall i :: 0 <= i < |pivots| ==> |pivots[i]| <= p / 8
    requires IndexBytes(pivots) + |pivots| * INDEX_ENTRY >= p / 2
    ensures |pivots| > 0 && IndexBytes(pivots) > 1
    ensures IndexBytes(pivots[..|pivots| - 1]) >= IndexBytes(pivots) / 2
  {
    assert |pivots| > 0;
    var last := |pivots[|pivots| - 1]|;
    assert IndexBytes(pivots) >= INDEX_ENTRY * |pivots| + last;
  }

  // ------------------------------------------------------------- the tree

  predicate SmallKeys(nd: Node, p: nat) {
    match nd
    case Leaf(es, _, _) => forall i :: 0 <= i < |es| ==> |es[i].key| <= p / 8
    case Index(ps, _) => forall i :: 0 <= i < |ps| ==> |ps[i]| <= p / 8
  }

  ghost predicate Sound(cfg: DataConfig, root: Addr, p: nat, store: map<Addr, Node>, tree: seq<Level>) {
    && IsTree(cfg, root, tree) && Holds(store, tree)
    && forall a :: a in store ==> SmallKeys(store[a], p)
  }

  /** The descent has come to node n of height h, stored at a, and is about to follow child c of it. */
  ghost predicate Arrived(cfg: DataConfig, tree: seq<Level>, h: int, n: int, a: Addr, c: nat, r: real) {
    && 0 < h && At(cfg, tree, h, n, r) && MinUpToDate(cfg, tree, h, n, r) && tree[h].addrs[n] == a
    && tree[h].nodes[n].Index? && |tree[h].nodes[n].pivots| == |tree[h].nodes[n].children|
    && Covers(Keys(cfg, tree[h].nodes[n]), c, r)
  }

  class MemtableTree {
    const cfg: DataConfig
    const pageSize: nat
    const root: Addr
    var height: nat
    var store: map<Addr, Node>
    var nextFree: Addr
    ghost var tree: seq<Level>

    ghost predicate Valid() reads this {
      && LegalPageSize(pageSize) && Sound(cfg, root, pageSize, store, tree) && |tree| == height + 1
      && nextFree > 0 && forall a :: a in store ==> a < nextFree
    }

    /** Everything stored, in key order. */
    ghost function View(): seq<Tuple> reads this requires Valid() { Contents(tree) }

    /** btree_create */
    constructor (cfg: DataConfig, pageSize: nat, root: Addr)
      requires LegalPageSize(pageSize) && root != 0
      ensures Valid() && View() == [] && this.cfg == cfg && this.pageSize == pageSize && this.root == root
    {
      this.cfg, this.pageSize, this.root, height, nextFree := cfg, pageSize, root, 0, root + 1;
      store := map[root := Leaf([], 0, 0)];
      tree := [Level([root], [Leaf([], 0, 0)])];
      new;
      FlatOfOne(KeyLists(cfg, tree[0].nodes));
      FlatOfOne(EntryLists(tree[0].nodes));
    }

    /** mini_alloc, as a page never handed out before */
    method Alloc() returns (a: Addr)
      requires Valid()
      modifies `nextFree
      ensures Valid() && a != 0 && a !in store && a == old(nextFree) && nextFree == a + 1
    {
      a := nextFree;
      nextFree := nextFree + 1;
    }

    lemma RootNode()
      requires Valid()
      ensures InTree(tree, height, 0) && |tree[height].nodes| == 1 && tree[height].addrs == [root]
      ensures root in store && store[root] == tree[height].nodes[0] && NodeOk(height, store[root])
    {
      hide Flat, Linked, Chained, Sorted;
      LevelsOk(cfg, root, tree, height);
      assert InTree(tree, height, 0);
    }

    lemma Stored(h: nat, n: nat)
      requires Valid() && InTree(tree, h, n)
      ensures var a := tree[h].addrs[n]; a in store && store[a] == tree[h].nodes[n] && a != 0
      ensures NodeOk(h, tree[h].nodes[n]) && SmallKeys(tree[h].nodes[n], pageSize)
      ensures Sorted(Keys(cfg, tree[h].nodes[n]))
    {
      hide IsTree;
      NodeShape(cfg, root, tree, h, n);
      NodeSorted(cfg, root, tree, h, n);
    }

    /** btree_grow_root */
    method GrowRoot() returns (child: Addr, pivot: Bytes)
      requires Valid() && root in store && |Keys(cfg, store[root])| > 0
      modifies this
      ensures Valid() && View() == old(View()) && height == old(height) + 1
      ensures tree == GrownTree(root, old(tree), child, pivot)
      ensures root in store && store[root] == Index([pivot], [child])
      ensures cfg.rank(pivot) == Keys(cfg, old(store[root]))[0]
    {
      hide IsTree, Holds, Contents, GrownTree;
      RootNode();
      ghost var before := tree;
      child := Alloc();
      var node := store[root];
      pivot := if node.Leaf? then node.entries[0].key else node.pivots[0];
      GrowHolds(store, tree, root, child, pivot);
      TreeGrow(cfg, root, tree, child, pivot);
      store := store[child := node];
      store := store[root := Index([pivot], [child])];
      height := height + 1;
      tree := GrownTree(root, tree, child, pivot);
      assert |tree| == height + 1 by { GrownHeight(root, before, child, pivot); }
    }

    /** Lowering pivot 0 of the leftmost node of a height (btree_set_index_entry on entry 0). */
    method SetMinKey(a: Addr, key: Bytes, ghost h: nat)
      requires Valid() && 0 < h && InTree(tree, h, 0) && a == tree[h].addrs[0] && |key| <= pageSize / 8
      requires |Keys(cfg, tree[h].nodes[0])| > 0 && cfg.rank(key) <= Keys(cfg, tree[h].nodes[0])[0]
      requires MinUpToDate(cfg, tree, h, 0, cfg.rank(key))
      modifies this
      ensures Valid() && View() == old(View()) && height == old(height)
      ensures old(tree[h].nodes[0].Index?) && |old(tree[h].nodes[0].pivots)| > 0
      ensures var nd := old(tree[h].nodes[0]);
        tree == old(tree)[h := SetNode(old(tree[h]), 0, Index(nd.pivots[0 := key], nd.children))]
    {
      hide IsTree, Holds, Contents;
      Stored(h, 0);
      var node := store[a];
      var node' := Index(node.pivots[0 := key], node.children);
      MinAbove(cfg, root, tree, h, cfg.rank(key));
      TreeSetMin(cfg, root, tree, h, key);
      SetHolds(store, tree, h, 0, node');
      SameLeaves(tree, h, node');
      store := store[a := node'];
      tree := tree[h := SetNode(tree[h], 0, node')];
    }

    /** btree_split_child_index: the child's upper pivots move to a new right sibling, and the parent gains a
        pivot. `next`, the child the target goes to, is followed into whichever half holds it. */
    method SplitChildIndex(parent: Addr, c: nat, child: Addr, next: nat, ghost h: nat, ghost pn: nat, ghost n: nat,
                           ghost r: real)
      returns (newChild: Addr, newNext: nat, ghost n': nat)
      requires Valid() && CanSplit(tree, h, n, pn, c) && parent == tree[h + 1].addrs[pn]
      requires n == Below(tree, h + 1, pn, c)
      requires Arrived(cfg, tree, h, n, child, next, r) && WorthSplitting(tree[h].nodes[n], pageSize)
      modifies this
      ensures Valid() && View() == old(View()) && height == old(height)
      ensures Arrived(cfg, tree, h, n', newChild, newNext, r) && (next == 0 ==> newNext == 0)
      ensures Keys(cfg, tree[h].nodes[n'])[newNext] == old(Keys(cfg, tree[h].nodes[n])[next])
    {
      hide Sound, Contents, SplitTree, SplitStore, Flat, Covers, MinUpToDate, SplitNodes, IsTree;
      hide Keys, IndexBytes, WithChild, LeftIndex, RightIndex, Below;
      Stored(h, n);
      Stored(h + 1, pn);
      var node, up := store[child], store[parent];
      var idx := ChooseIndexSplit(node.pivots, pageSize);
      var a := Alloc();
      var pivot := node.pivots[idx];
      var left, right := LeftIndex(node, idx), RightIndex(node, idx);
      ghost var was, before := store, tree;
      store := store[parent := WithChild(up, c + 1, pivot, a)];
      store := store[a := right];
      store := store[child := left];
      tree := SplitTree(tree, h, n, left, right, a, pn, c, pivot);
      if next < idx {
        newChild, newNext, n' := child, next, n;
      } else {
        newChild, newNext, n' := a, next - idx, n + 1;
      }
      IndexSplitStep(cfg, root, pageSize, was, before, h, pn, c, n, child, next, r, idx, a, left, right, pivot,
                     store, tree);
    }

    /** btree_split_child_leaf, from the point where the new contents `es` are known: the entries from m on go
        to a new leaf, which the parent, the child and the child's right neighbour come to point at. */
    method SplitChildLeaf(parent: Addr, c: nat, child: Addr, es: seq<Tuple>, m: nat, key: Bytes, msg: Message,
                          ghost pn: nat, ghost n: nat)
      requires Valid() && InTree(tree, 1, pn) && parent == tree[1].addrs[pn]
      requires CanSplit(tree, 0, n, pn, c) && n == Below(tree, 1, pn, c)
      requires At(cfg, tree, 0, n, cfg.rank(key)) && MinUpToDate(cfg, tree, 0, n, cfg.rank(key))
      requires tree[0].addrs[n] == child && tree[0].nodes[n].Leaf?
      requires UpsertOf(cfg, tree[0].nodes[n].entries, es, key, msg) && 0 < m < |es| && SmallEntries(es, pageSize)
      modifies this
      ensures Valid() && height == old(height) && UpsertOf(cfg, old(View()), View(), key, msg)
      ensures child in old(store) && old(store)[child].Leaf? && child in store && old(nextFree) in store
      ensures store[child] == Leaf(es[..m], old(store)[child].prev, old(nextFree))
      ensures store[old(nextFree)] == Leaf(es[m..], child, old(store)[child].next)
    {
      hide Sound, Contents, SplitTree, SplitStore, Flat, Covers, MinUpToDate, SplitNodes, IsTree, UpsertOf, Linked;
      Stored(0, n);
      Stored(1, pn);
      ChainedAt(n);
      var node, up := store[child], store[parent];
      var a := Alloc();
      var pivot := es[m].key;
      ghost var was, before := store, tree;
      store := store[parent := WithChild(up, c + 1, pivot, a)];
      if node.next != 0 {
        store := store[node.next := Relinked(store[node.next], a)];
      }
      var right := Leaf(es[m..], child, node.next);
      store := store[a := right];
      var left := Leaf(es[..m], node.prev, a);
      store := store[child := left];
      tree := SplitTree(tree, 0, n, left, right, a, pn, c, pivot);
      LeafSplitStore(cfg, root, pageSize, was, before, n, left, right, a, pn, c, pivot);
      LeafSplitStep(cfg, root, pageSize, was, before, pn, c, n, es, m, key, msg, a, left, right, store, tree);
    }

    /** The sibling pointers of a leaf. */
    lemma ChainedAt(n: nat)
      requires Valid() && InTree(tree, 0, n)
      ensures tree[0].nodes[n].Leaf?
      ensures tree[0].nodes[n].next == if n == |tree[0].nodes| - 1 then 0 else tree[0].addrs[n + 1]
      ensures n + 1 < |tree[0].nodes| ==> InTree(tree, 0, n + 1) && tree[0].addrs[n + 1] != 0
      ensures n + 1 < |tree[0].nodes| ==> tree[0].addrs[n + 1] in store
      ensures n + 1 < |tree[0].nodes| ==> store[tree[0].addrs[n + 1]] == tree[0].nodes[n + 1]
    {
      assert Chained(tree[0]);
      if n + 1 < |tree[0].nodes| {
        assert InTree(tree, 0, n + 1);
      }
    }

    /** btree_find_pivot on a stored index node */
    method ChooseChild(a: Addr, key: Bytes, ghost h: nat, ghost n: nat) returns (idx: int)
      requires Valid() && 0 < h && InTree(tree, h, n) && tree[h].addrs[n] == a
      ensures -1 <= idx && tree[h].nodes[n].Index? && |tree[h].nodes[n].pivots| == |tree[h].nodes[n].children|
      ensures a in store && store[a] == tree[h].nodes[n]
      ensures Covers(Keys(cfg, tree[h].nodes[n]), if idx < 0 then 0 else idx, cfg.rank(key))
      ensures if idx < 0 then cfg.rank(key) < Keys(cfg, tree[h].nodes[n])[0]
              else Keys(cfg, tree[h].nodes[n])[idx] <= cfg.rank(key)
    {
      hide Sound, IsTree, Holds;
      Stored(h, n);
      var node := store[a];
      KeysAreRanks(cfg, node);
      var found;
      idx, found := FindKey(cfg, node.pivots, key);
    }

    /** Lowering the minimum of a node whose keys are all above the one being inserted. */
    method LowerMin(a: Addr, key: Bytes, ghost h: nat, ghost n: nat)
      requires Valid() && |key| <= pageSize / 8 && Arrived(cfg, tree, h, n, a, 0, cfg.rank(key))
      requires cfg.rank(key) < Keys(cfg, tree[h].nodes[n])[0]
      modifies this
      ensures Valid() && View() == old(View()) && height == old(height)
      ensures Arrived(cfg, tree, h, n, a, 0, cfg.rank(key)) && Keys(cfg, tree[h].nodes[n])[0] <= cfg.rank(key)
      ensures forall g :: h < g < |tree| ==> tree[g] == old(tree)[g]
    {
      hide Sound, IsTree, Contents, Flat;
      BelowAllIsLeftmostHere(h, n, cfg.rank(key));
      ghost var before := tree;
      SetMinKey(a, key, h);
      KeysLowered(cfg, before[h].nodes[0], key);
    }

    lemma BelowAllIsLeftmostHere(h: nat, n: nat, r: real)
      requires Valid() && At(cfg, tree, h, n, r) && |Keys(cfg, tree[h].nodes[n])| > 0
      requires r < Keys(cfg, tree[h].nodes[n])[0]
      ensures n == 0
    {
      hide IsTree;
      BelowAllIsLeftmost(cfg, root, tree, h, n, r);
    }

    lemma FollowChildHere(h: nat, n: nat, a: Addr, c: nat, r: real) returns (m: nat)
      requires Valid() && Ready(cfg, tree, h + 1, n, a, c, r)
      ensures CanSplit(tree, h, m, n, c) && m == Below(tree, h + 1, n, c)
      ensures At(cfg, tree, h, m, r) && MinUpToDate(cfg, tree, h, m, r)
      ensures a in store && store[a] == tree[h + 1].nodes[n] && tree[h].addrs[m] == tree[h + 1].nodes[n].children[c]
    {
      hide IsTree, Flat, MinUpToDate;
      m := Below(tree, h + 1, n, c);
      Stored(h + 1, n);
      FollowChild(cfg, root, tree, h + 1, n, c, r);
    }

    /** The part of btree_insert's loop body that readies one index node on the way down: its minimum is lowered
        if the key is smaller, at once or after making room, and a full node is defragmented or split. */
    method PrepareIndex(parent: Addr, c: nat, key: Bytes, ghost h: nat, ghost pn: nat)
      returns (newParent: Addr, newIdx: nat, ghost n: nat)
      requires Valid() && |key| <= pageSize / 8 && 0 < h
      requires Ready(cfg, tree, h + 1, pn, parent, c, cfg.rank(key))
      modifies this
      ensures Valid() && View() == old(View()) && height == old(height)
      ensures Ready(cfg, tree, h, n, newParent, newIdx, cfg.rank(key))
    {
      hide Sound, Contents, Flat, Covers, IsTree, MinUpToDate, WorthSplitting, Keys;
      ghost var r := cfg.rank(key);
      n := FollowChildHere(h, pn, parent, c, r);
      var child := store[parent].children[c];
      var idx := ChooseChild(child, key, h, n);
      newParent, newIdx := child, if idx < 0 then 0 else idx;
      var needToSetMinKey := idx < 0;
      var roomToSetMinKey := *;
      if idx < 0 && roomToSetMinKey {
        LowerMin(child, key, h, n);
        needToSetMinKey := false;
      }
      var full := *;
      Stored(h, n);
      if full && WorthSplitting(store[child], pageSize) {
        newParent, newIdx, n := SplitChildIndex(parent, c, child, newIdx, h, pn, n, r);
      }
      if needToSetMinKey {
        LowerMin(newParent, key, h, n);
      }
    }

    /** The root's turn: a full root is moved down and replaced by a one-entry index above it. */
    method PrepareRoot(key: Bytes) returns (c: nat)
      requires Valid() && |key| <= pageSize / 8 && height > 0
      modifies this
      ensures Valid() && View() == old(View()) && height >= old(height)
      ensures Ready(cfg, tree, height, 0, root, c, cfg.rank(key))
    {
      hide Sound, Contents, Flat, IsTree, GrownTree;
      ghost var r := cfg.rank(key);
      RootNode();
      var idx := ChooseChild(root, key, height, 0);
      c := if idx < 0 then 0 else idx;
      var needToSetMinKey := idx < 0;
      var roomToSetMinKey := *;
      if idx < 0 && roomToSetMinKey {
        LowerMin(root, key, height, 0);
        needToSetMinKey := false;
      }
      var full := *;
      if full {
        Stored(height, 0);
        ghost var was := Keys(cfg, tree[height].nodes[0]);
        var child, pivot := GrowRoot();
        RootNode();
        KeysOfOne(cfg, pivot, child);
        c := 0;
      }
      if needToSetMinKey {
        LowerMin(root, key, height, 0);
      }
    }

    /** Writing the new contents into the leaf they belong to, in place or after defragmenting it. */
    method SetLeaf(a: Addr, es: seq<Tuple>, key: Bytes, msg: Message, ghost n: nat)
      requires Valid() && InTree(tree, 0, n) && tree[0].addrs[n] == a && tree[0].nodes[n].Leaf?
      requires At(cfg, tree, 0, n, cfg.rank(key)) && MinUpToDate(cfg, tree, 0, n, cfg.rank(key))
      requires UpsertOf(cfg, tree[0].nodes[n].entries, es, key, msg) && SmallEntries(es, pageSize)
      modifies this
      ensures Valid() && height == old(height) && UpsertOf(cfg, old(View()), View(), key, msg)
      ensures a in old(store) && old(store)[a].Leaf? && a in store && store[a] == old(store)[a].(entries := es)
    {
      hide IsTree, Holds, Contents, Flat, Covers, UpsertOf, SetNode;
      Stored(0, n);
      var node := store[a].(entries := es);
      TreeSetLeaf(cfg, root, tree, n, es, key, msg);
      SetHolds(store, tree, 0, n, node);
      store := store[a := node];
      tree := tree[0 := SetNode(tree[0], n, node)];
    }

    /** What the leaf will hold once the message is in (btree_create_leaf_incorporate_spec). */
    method NewEntries(a: Addr, key: Bytes, msg: Message, ghost n: nat) returns (es: seq<Tuple>, found: bool)
      requires Valid() && At(cfg, tree, 0, n, cfg.rank(key)) && tree[0].addrs[n] == a && |key| <= pageSize / 8
      ensures a in store && store[a] == tree[0].nodes[n] && store[a].Leaf?
      ensures UpsertOf(cfg, tree[0].nodes[n].entries, es, key, msg) && SmallEntries(es, pageSize) && |es| > 0
      ensures found <==> Find(cfg, View(), cfg.rank(key)).Some?
    {
      hide IsTree, Holds, Contents, Flat, Covers, Find;
      Stored(0, n);
      var entries := store[a].entries;
      KeysSorted(cfg, store[a]);
      var idx;
      idx, found := FindEntry(cfg, entries, key);
      FoundOrNot(cfg, entries, key, idx, found);
      OnlyLeaf(cfg, root, tree, n, cfg.rank(key));
      UpsertMeaning(cfg, entries, key, msg, idx, found);
      if found {
        es := Incorporated(entries, idx, StillExists, Tuple(key, MergeTuples(cfg, key, entries[idx].msg, msg)));
      } else {
        es := Incorporated(entries, idx + 1, DidNotExist, Tuple(key, msg));
      }
    }

    /** The end of btree_insert: the leaf below `parent` takes the message, or is split to take it. */
    method InsertIntoChild(parent: Addr, c: nat, key: Bytes, msg: Message, ghost pn: nat) returns (wasUnique: bool)
      requires Valid() && |key| <= pageSize / 8 && Ready(cfg, tree, 1, pn, parent, c, cfg.rank(key))
      modifies this
      ensures Valid() && height == old(height) && UpsertOf(cfg, old(View()), View(), key, msg)
      ensures wasUnique <==> Find(cfg, old(View()), cfg.rank(key)).None?
    {
      hide Sound, Contents, Flat, Covers, MinUpToDate, IsTree, UpsertOf, Find;
      ghost var n := FollowChildHere(0, pn, parent, c, cfg.rank(key));
      var child := store[parent].children[c];
      var es, found := NewEntries(child, key, msg, n);
      wasUnique := !found;
      var fits := *;
      if fits || |es| < 2 {
        SetLeaf(child, es, key, msg, n);
      } else {
        var m :| 0 < m < |es|;
        SplitChildLeaf(parent, c, child, es, m, key, msg, pn, n);
      }
    }

    /** btree_insert, run alone. `ok` is false for the keys and messages it rejects. */
    method Insert(key: Bytes, msg: Message) returns (ok: bool, wasUnique: bool)
      requires Valid()
      modifies this
      ensures Valid() && (ok <==> Accepted(key, msg, pageSize))
      ensures ok ==> UpsertOf(cfg, old(View()), View(), key, msg) && TakesMessage(cfg, old(View()), View(), key, msg)
      ensures ok ==> (wasUnique <==> Find(cfg, old(View()), cfg.rank(key)).None?)
      ensures !ok ==> View() == old(View()) && store == old(store)
    {
      hide Sound, Contents, Flat, Covers, IsTree, UpsertOf, TakesMessage, Find, GrownTree;
      if !Accepted(key, msg, pageSize) {
        return false, false;
      }
      ok := true;
      RootNode();
      if height == 0 {
        var es, found := NewEntries(root, key, msg, 0);
        var fits := *;
        if fits || |store[root].entries| == 0 {
          SetLeaf(root, es, key, msg, 0);
          UpsertTakes(cfg, old(View()), View(), key, msg);
          return true, !found;
        }
        var child, pivot := GrowRoot();
      }
      var c := PrepareRoot(key);
      var parent, h := root, height;
      ghost var pn := 0;
      while h > 1
        invariant Valid() && View() == old(View()) && 0 < h
        invariant Ready(cfg, tree, h, pn, parent, c, cfg.rank(key))
      {
        parent, c, pn := PrepareIndex(parent, c, key, h - 1, pn);
        h := h - 1;
      }
      wasUnique := InsertIntoChild(parent, c, key, msg, pn);
      UpsertTakes(cfg, old(View()), View(), key, msg);
    }

    /** btree_lookup (btree_lookup_node to height 0, then btree_find_tuple) */
    method Lookup(target: Bytes) returns (result: Option<Message>)
      requires Valid()
      ensures result == Find(cfg, View(), cfg.rank(target))
    {
      hide Sound, Contents, Flat, Covers, IsTree, Find;
      ghost var r := cfg.rank(target);
      RootNode();
      var a, h := root, height;
      ghost var n := 0;
      while h > 0
        invariant h <= height && At(cfg, tree, h, n, r) && tree[h].addrs[n] == a
      {
        var idx := ChooseChild(a, target, h, n);
        var c := if idx < 0 then 0 else idx;
        DownHere(h, n, c, r);
        a := store[a].children[c];
        n := Below(tree, h, n, c);
        h := h - 1;
      }
      Stored(0, n);
      KeysSorted(cfg, store[a]);
      OnlyLeafHere(n, r);
      var idx, found := FindEntry(cfg, store[a].entries, target);
      FoundOrNot(cfg, store[a].entries, target, idx, found);
      result := if found then Some(store[a].entries[idx].msg) else None;
    }

    lemma DownHere(h: nat, n: nat, c: nat, r: real)
      requires Valid() && 0 < h && At(cfg, tree, h, n, r) && Covers(Keys(cfg, tree[h].nodes[n]), c, r)
      ensures tree[h].nodes[n].Index? && c < |tree[h].nodes[n].children|
      ensures At(cfg, tree, h - 1, Below(tree, h, n, c), r)
      ensures tree[h].nodes[n].children[c] == tree[h - 1].addrs[Below(tree, h, n, c)]
    {
      hide IsTree, Flat;
      Stored(h, n);
      FollowChild(cfg, root, tree, h, n, c, r);
    }

    lemma OnlyLeafHere(n: nat, r: real)
      requires Valid() && At(cfg, tree, 0, n, r)
      ensures tree[0].nodes[n].Leaf? && Find(cfg, View(), r) == Find(cfg, tree[0].nodes[n].entries, r)
    {
      hide IsTree, Find, Contents, Flat;
      OnlyLeaf(cfg, root, tree, n, r);
    }
  }

  /** btree_insert's size and type checks */
  predicate Accepted(key: Bytes, msg: Message, p: nat) {
    LegalTuple(Tuple(key, msg), p) && !msg.kind.Invalid?
  }

  /** Only the leaf the descent leads to can hold the target. */
  lemma OnlyLeaf(cfg: DataConfig, root: Addr, tree: seq<Level>, n: nat, r: real)
    requires IsTree(cfg, root, tree) && At(cfg, tree, 0, n, r)
    ensures tree[0].nodes[n].Leaf? && Find(cfg, Contents(tree), r) == Find(cfg, tree[0].nodes[n].entries, r)
  {
    hide Flat, Find, LevelOk, Between, Covers;
    LevelsOk(cfg, root, tree, 0);
    LeafLevel(cfg, tree[0]);
    if |tree| == 1 {
      assert |tree[0].addrs| == 1;
      assert EntryLists(tree[0].nodes)[0] == tree[0].nodes[0].entries;
      FlatOfOne(EntryLists(tree[0].nodes));
    } else {
      LevelsOk(cfg, root, tree, 1);
      LevelSorted(cfg, 1, tree[1]);
      assert Linked(cfg, tree[1], tree[0]);
      FindInLeaf(cfg, Flat(KeyLists(cfg, tree[1].nodes)), tree[0].nodes, n, r);
    }
  }

  lemma KeysOfOne(cfg: DataConfig, pivot: Bytes, child: Addr)
    ensures Keys(cfg, Index([pivot], [child])) == [cfg.rank(pivot)]
  {
  }

  lemma KeysAreRanks(cfg: DataConfig, nd: Node)
    requires nd.Index? && Sorted(Keys(cfg, nd))
    ensures forall i, j :: 0 <= i < j < |nd.pivots| ==> cfg.rank(nd.pivots[i]) < cfg.rank(nd.pivots[j])
  {
    forall i, j | 0 <= i < j < |nd.pivots| ensures cfg.rank(nd.pivots[i]) < cfg.rank(nd.pivots[j]) {
      assert Keys(cfg, nd)[i] < Keys(cfg, nd)[j];
    }
  }

  lemma KeysLowered(cfg: DataConfig, nd: Node, key: Bytes)
    requires nd.Index? && |nd.pivots| > 0
    ensures Keys(cfg, Index(nd.pivots[0 := key], nd.children)) == Keys(cfg, nd)[0 := cfg.rank(key)]
  {
  }

  predicate SmallEntries(es: seq<Tuple>, p: nat) {
    forall i :: 0 <= i < |es| ==> |es[i].key| <= p / 8
  }

  /** What the pages and the tree look like after a leaf split. */
  lemma LeafSplitStep(cfg: DataConfig, root: Addr, p: nat, store: map<Addr, Node>, tree: seq<Level>, pn: nat, c: nat,
                      n: nat, es: seq<Tuple>, m: nat, key: Bytes, msg: Message, a: Addr, left: Node, right: Node,
                      store': map<Addr, Node>, tree': seq<Level>)
    requires Sound(cfg, root, p, store, tree) && a != 0 && a !in store
    requires CanSplit(tree, 0, n, pn, c) && n == Below(tree, 1, pn, c)
    requires At(cfg, tree, 0, n, cfg.rank(key)) && MinUpToDate(cfg, tree, 0, n, cfg.rank(key))
    requires tree[0].nodes[n].Leaf? && UpsertOf(cfg, tree[0].nodes[n].entries, es, key, msg)
    requires 0 < m < |es| && SmallEntries(es, p)
    requires left == Leaf(es[..m], tree[0].nodes[n].prev, a)
    requires right == Leaf(es[m..], tree[0].addrs[n], tree[0].nodes[n].next)
    requires tree' == SplitTree(tree, 0, n, left, right, a, pn, c, es[m].key)
    requires store' == SplitStore(store, tree, 0, n, left, right, a, pn, c, es[m].key)
    ensures Sound(cfg, root, p, store', tree') && |tree'| == |tree| > 0
    ensures UpsertOf(cfg, Contents(tree), Contents(tree'), key, msg)
  {
    hide IsTree, Holds, Contents, SplitTree, Flat, SplitNodes, Keys, Entries, SmallKeys, WithChild, UpsertOf, Covers;
    var nd := tree[0].nodes[n].(entries := es);
    var tree1 := tree[0 := SetNode(tree[0], n, nd)];
    TreeSetLeaf(cfg, root, tree, n, es, key, msg);
    LeafHalves(cfg, nd, left, right, m);
    SplitForgets(tree, tree1, 0, n, left, right, a, pn, c, es[m].key);
    TreeSplit(cfg, root, tree1, 0, n, left, right, a, pn, c, es[m].key);
    SplitHolds(store, tree, 0, n, left, right, a, pn, c, es[m].key);
        SplitTreeAt(tree, 0, n, left, right, a, pn, c, es[m].key);
    SmallAfterSplit(store, tree, n, left, right, a, pn, c, es, m, p);
  }

  /** A split of leaves writes four pages, the neighbour found through the sibling pointer. */
  lemma LeafSplitStore(cfg: DataConfig, root: Addr, p: nat, store: map<Addr, Node>, tree: seq<Level>, n: nat,
                       left: Node, right: Node, a: Addr, pn: nat, c: nat, pivot: Bytes)
    requires Sound(cfg, root, p, store, tree) && CanSplit(tree, 0, n, pn, c) && a !in store
    ensures tree[0].addrs[n] in store && tree[1].addrs[pn] in store
    ensures var parent, child := tree[1].addrs[pn], tree[0].addrs[n];
      var s1 := store[parent := WithChild(store[parent], c + 1, pivot, a)];
      var s2 := if n + 1 == |tree[0].nodes| then s1
                else s1[tree[0].addrs[n + 1] := Relinked(s1[tree[0].addrs[n + 1]], a)];
      s2[a := right][child := left] == SplitStore(store, tree, 0, n, left, right, a, pn, c, pivot)
  {
    hide IsTree, WithChild;
    assert InTree(tree, 0, n) && InTree(tree, 1, pn);
    NodeShape(cfg, root, tree, 1, pn);
    if n + 1 < |tree[0].nodes| {
      assert InTree(tree, 0, n + 1);
    }
  }

  lemma LeafHalves(cfg: DataConfig, nd: Node, left: Node, right: Node, m: nat)
    requires nd.Leaf? && left.Leaf? && right.Leaf? && 0 < m < |nd.entries|
    requires left.entries == nd.entries[..m] && right.entries == nd.entries[m..]
    ensures Halves(cfg, 0, nd, left, right) && Keys(cfg, right)[0] == cfg.rank(nd.entries[m].key)
  {
    assert Keys(cfg, left) + Keys(cfg, right) == Keys(cfg, nd);
  }

  /** A split does not look at what the split node held. */
  lemma SplitForgets(tree: seq<Level>, tree1: seq<Level>, h: nat, n: nat, left: Node, right: Node, a: Addr, pn: nat,
                     c: nat, pivot: Bytes)
    requires CanSplit(tree, h, n, pn, c) && exists nd :: tree1 == tree[h := SetNode(tree[h], n, nd)]
    ensures CanSplit(tree1, h, n, pn, c)
    ensures SplitTree(tree1, h, n, left, right, a, pn, c, pivot) == SplitTree(tree, h, n, left, right, a, pn, c, pivot)
  {
  }

  lemma SmallAfterSplit(store: map<Addr, Node>, tree: seq<Level>, n: nat, left: Node, right: Node, a: Addr, pn: nat,
                        c: nat, es: seq<Tuple>, m: nat, p: nat)
    requires Holds(store, tree) && CanSplit(tree, 0, n, pn, c) && m < |es| && SmallEntries(es, p)
    requires forall b :: b in store ==> SmallKeys(store[b], p)
    requires left.Leaf? && right.Leaf? && left.entries == es[..m] && right.entries == es[m..]
    ensures var store' := SplitStore(store, tree, 0, n, left, right, a, pn, c, es[m].key);
      forall b :: b in store' ==> SmallKeys(store'[b], p)
  {
    var up := tree[1].nodes[pn];
    assert SmallKeys(store[tree[1].addrs[pn]], p);
    assert SmallKeys(WithChild(up, c + 1, es[m].key, a), p);
    if n + 1 < |tree[0].nodes| {
      assert InTree(tree, 0, n + 1);
      assert SmallKeys(store[tree[0].addrs[n + 1]], p);
    }
  }

  /** btree_defragment_or_split_child_index: the live bytes reach the split threshold. */
  predicate WorthSplitting(nd: Node, p: nat) {
    nd.Index? && IndexBytes(nd.pivots) + |nd.pivots| * INDEX_ENTRY >= p / 2
  }

  function LeftIndex(nd: Node, idx: nat): Node
    requires nd.Index? && idx <= |nd.pivots| == |nd.children|
  {
    Index(nd.pivots[..idx], nd.children[..idx])
  }

  function RightIndex(nd: Node, idx: nat): Node
    requires nd.Index? && idx <= |nd.pivots| == |nd.children|
  {
    Index(nd.pivots[idx..], nd.children[idx..])
  }

  lemma IndexHalves(cfg: DataConfig, h: nat, nd: Node, idx: nat)
    requires h > 0 && NodeOk(h, nd) && 0 < idx < |nd.pivots|
    ensures Halves(cfg, h, nd, LeftIndex(nd, idx), RightIndex(nd, idx))
    ensures |Keys(cfg, LeftIndex(nd, idx))| == idx
    ensures Keys(cfg, RightIndex(nd, idx))[0] == cfg.rank(nd.pivots[idx])
    ensures forall i :: 0 <= i < idx ==> Keys(cfg, nd)[i] == Keys(cfg, LeftIndex(nd, idx))[i]
    ensures forall i :: idx <= i < |nd.pivots| ==> Keys(cfg, nd)[i] == Keys(cfg, RightIndex(nd, idx))[i - idx]
  {
  }

  /** What the pages, the tree and the descent look like after an index split. */
  lemma IndexSplitStep(cfg: DataConfig, root: Addr, p: nat, store: map<Addr, Node>, tree: seq<Level>, h: nat, pn: nat,
                       c: nat, n: nat, child: Addr, next: nat, r: real, idx: nat, a: Addr, left: Node, right: Node,
                       pivot: Bytes, store': map<Addr, Node>, tree': seq<Level>)
    requires Sound(cfg, root, p, store, tree) && a != 0 && a !in store
    requires CanSplit(tree, h, n, pn, c) && n == Below(tree, h + 1, pn, c)
    requires Arrived(cfg, tree, h, n, child, next, r) && 0 < idx < |tree[h].nodes[n].pivots|
    requires left == LeftIndex(tree[h].nodes[n], idx) && right == RightIndex(tree[h].nodes[n], idx)
    requires pivot == tree[h].nodes[n].pivots[idx] && tree' == SplitTree(tree, h, n, left, right, a, pn, c, pivot)
    requires store' == store[tree[h + 1].addrs[pn] := WithChild(tree[h + 1].nodes[pn], c + 1, pivot, a)]
                            [a := right][child := left]
    ensures Sound(cfg, root, p, store', tree') && |tree'| == |tree| > 0 && Contents(tree') == Contents(tree)
    ensures if next < idx then Arrived(cfg, tree', h, n, child, next, r)
            else Arrived(cfg, tree', h, n + 1, a, next - idx, r)
    ensures if next < idx then Keys(cfg, tree'[h].nodes[n])[next] == Keys(cfg, tree[h].nodes[n])[next]
            else Keys(cfg, tree'[h].nodes[n + 1])[next - idx] == Keys(cfg, tree[h].nodes[n])[next]
  {
    hide IsTree, Holds, Contents, SplitTree, SplitStore, Flat, SplitNodes, Keys, Entries, SmallKeys, MinUpToDate;
    hide LeftIndex, RightIndex, WithChild, Covers;
    var node, up := tree[h].nodes[n], tree[h + 1].nodes[pn];
    NodeShape(cfg, root, tree, h, n);
    NodeSorted(cfg, root, tree, h, n);
    IndexHalves(cfg, h, node, idx);
    TreeSplit(cfg, root, tree, h, n, left, right, a, pn, c, pivot);
    SplitHolds(store, tree, h, n, left, right, a, pn, c, pivot);
    SplitCursor(cfg, root, tree, h, n, left, right, a, pn, c, pivot, next, r);
    IndexSplitStore(cfg, root, store, tree, h, n, left, right, a, pn, c, pivot);
    SplitTreeAt(tree, h, n, left, right, a, pn, c, pivot);
    Addresses(store, tree);
    IndexPartsSmall(node, up, idx, c, a, p);
  }

  lemma IndexPartsSmall(node: Node, up: Node, idx: nat, c: nat, a: Addr, p: nat)
    requires SmallKeys(node, p) && SmallKeys(up, p) && node.Index? && up.Index?
    requires idx < |node.pivots| == |node.children| && c < |up.pivots| == |up.children|
    ensures SmallKeys(LeftIndex(node, idx), p) && SmallKeys(RightIndex(node, idx), p)
    ensures SmallKeys(WithChild(up, c + 1, node.pivots[idx], a), p)
  {
  }

  /** A split of index nodes writes three pages. */
  lemma IndexSplitStore(cfg: DataConfig, root: Addr, store: map<Addr, Node>, tree: seq<Level>, h: nat, n: nat,
                        left: Node, right: Node, a: Addr, pn: nat, c: nat, pivot: Bytes)
    requires IsTree(cfg, root, tree) && Holds(store, tree) && 0 < h && CanSplit(tree, h, n, pn, c) && a !in store
    ensures store[tree[h + 1].addrs[pn] := WithChild(tree[h + 1].nodes[pn], c + 1, pivot,
        a)][a := right][tree[h].addrs[n] := left]
         == SplitStore(store, tree, h, n, left, right, a, pn, c, pivot)
  {
    hide IsTree;
    if n + 1 < |tree[h].nodes| {
      assert InTree(tree, h, n + 1);
      NodeShape(cfg, root, tree, h, n + 1);
    }
  }

  lemma SplitTreeAt(tree: seq<Level>, h: nat, n: nat, left: Node, right: Node, a: Addr, pn: nat, c: nat, pivot: Bytes)
    requires CanSplit(tree, h, n, pn, c)
    ensures var t := SplitTree(tree, h, n, left, right, a, pn, c, pivot);
      && |t| == |tree| && InTree(t, h, n) && InTree(t, h, n + 1)
      && t[h].addrs[n] == tree[h].addrs[n] && t[h].addrs[n + 1] == a && t[h].nodes[n] == left
          && t[h].nodes[n + 1] == right
  {
  }

  lemma GrownHeight(root: Addr, tree: seq<Level>, child: Addr, pivot: Bytes)
    requires |tree| > 0
    ensures |GrownTree(root, tree, child, pivot)| == |tree| + 1
  {
  }

  lemma MinAbove(cfg: DataConfig, root: Addr, tree: seq<Level>, h: nat, r: real)
    requires IsTree(cfg, root, tree) && h < |tree| && MinUpToDate(cfg, tree, h, 0, r)
    ensures h + 1 < |tree| ==> |tree[h + 1].nodes| > 0 && |Keys(cfg, tree[h + 1].nodes[0])| > 0
    ensures h + 1 < |tree| ==> Keys(cfg, tree[h + 1].nodes[0])[0] <= r
  {
    hide Flat, Sorted, Between;
    if h + 1 < |tree| {
      LevelsOk(cfg, root, tree, h + 1);
      assert NodeOk(h + 1, tree[h + 1].nodes[0]);
      FirstOfFlat(KeyLists(cfg, tree[h + 1].nodes));
    }
  }

  lemma SameLeaves(tree: seq<Level>, h: nat, nd: Node)
    requires 0 < h < |tree| && |tree[h].nodes| > 0
    ensures Contents(tree[h := SetNode(tree[h], 0, nd)]) == Contents(tree)
  {
  }

  // ---------------------------------------------------------- whole runs

  /** What is left for target r after a history of insertions: the accepted messages for it, merged oldest
      first. */
  function Folded(cfg: DataConfig, p: nat, history: seq<(Bytes, Message)>, r: real): Option<Message> {
    if |history| == 0 then None
    else
      var (key, msg) := history[|history| - 1];
      var before := Folded(cfg, p, history[..|history| - 1], r);
      if Accepted(key, msg, p) && cfg.rank(key) == r then Some(Upserted(cfg, key, before, msg)) else before
  }

  /** What the accepted messages for target r make of x, the oldest applied first. */
  function Applied(cfg: DataConfig, apply: Apply, p: nat, history: seq<(Bytes, Message)>, r: real,
                   x: Option<Bytes>): Option<Bytes> {
    if |history| == 0 then x
    else
      var (key, msg) := history[|history| - 1];
      var before := Applied(cfg, apply, p, history[..|history| - 1], r, x);
      if Accepted(key, msg, p) && cfg.rank(key) == r then apply(key, msg, before) else before
  }

  /** What is stored does to every value what the messages do one after the other. */
  ghost predicate ActsAs(cfg: DataConfig, p: nat, history: seq<(Bytes, Message)>, stored: seq<Tuple>) {
    forall apply: Apply, key: Bytes, x: Option<Bytes> :: Lawful(cfg, apply) ==>
      Left(apply, key, Find(cfg, stored, cfg.rank(key)), x) == Applied(cfg, apply, p, history, cfg.rank(key), x)
  }

  lemma ActsMore(cfg: DataConfig, p: nat, history: seq<(Bytes, Message)>, before: seq<Tuple>, key: Bytes, msg: Message,
                 stored: seq<Tuple>)
    requires ActsAs(cfg, p, history, before)
    requires if Accepted(key, msg, p) then TakesMessage(cfg, before, stored, key, msg) else stored == before
    ensures ActsAs(cfg, p, history + [(key, msg)], stored)
  {
    hide Find, StrictlySorted, Accepted;
    var more, r := history + [(key, msg)], cfg.rank(key);
    assert more[..|history|] == history;
    forall apply: Apply, k: Bytes, x: Option<Bytes> | Lawful(cfg, apply)
      ensures Left(apply, k, Find(cfg, stored, cfg.rank(k)), x) == Applied(cfg, apply, p, more, cfg.rank(k), x)
    {
      var old', new' := Find(cfg, before, cfg.rank(k)), Find(cfg, stored, cfg.rank(k));
      assert Left(apply, k, old', x) == Applied(cfg, apply, p, history, cfg.rank(k), x);
      if Accepted(key, msg, p) && cfg.rank(k) == r {
        assert Left(apply, key, old', x) == Applied(cfg, apply, p, history, r, x);
        assert apply(key, new'.value, x) == apply(key, msg, Left(apply, key, old', x));
        assert apply(k, new'.value, x) == apply(key, new'.value, x);
      }
    }
  }

  /** Any run of insertions into a new tree stores, for every key, the fold of its messages: on every value it acts as
      they do. */
  method RunInsertions(cfg: DataConfig, p: nat, root: Addr, history: seq<(Bytes, Message)>) returns (t: MemtableTree)
    requires LegalPageSize(p) && root != 0
    ensures fresh(t) && t.Valid() && t.cfg == cfg && StrictlySorted(cfg, t.View())
    ensures forall r :: Find(cfg, t.View(), r) == Folded(cfg, p, history, r)
    ensures ActsAs(cfg, p, history, t.View())
  {
    hide Sound, Contents, IsTree, ActsAs, TakesMessage;
    t := new MemtableTree(cfg, p, root);
    NothingActs(cfg, p, t.View());
    for i := 0 to |history|
      invariant fresh(t) && t.Valid() && t.cfg == cfg && t.pageSize == p
      invariant forall r :: Find(cfg, t.View(), r) == Folded(cfg, p, history[..i], r)
      invariant ActsAs(cfg, p, history[..i], t.View())
    {
      assert history[..i + 1][..i] == history[..i];
      ghost var before := t.View();
      var ok, unique := t.Insert(history[i].0, history[i].1);
      ActsMore(cfg, p, history[..i], before, history[i].0, history[i].1, t.View());
      assert history[..i] + [(history[i].0, history[i].1)] == history[..i + 1];
    }
    assert history[..|history|] == history;
    ViewSorted(t);
  }

  lemma NothingActs(cfg: DataConfig, p: nat, stored: seq<Tuple>)
    requires stored == []
    ensures ActsAs(cfg, p, [], stored)
  {
  }

  lemma ViewSorted(t: MemtableTree)
    requires t.Valid()
    ensures StrictlySorted(t.cfg, t.View())
  {
    hide Flat;
    LevelsOk(t.cfg, t.root, t.tree, 0);
    LeafLevel(t.cfg, t.tree[0]);
  }

  /** Walking the leaves from the leftmost one along the sibling pointers meets everything stored, in order. */
  method WalkLeaves(t: MemtableTree) returns (all: seq<Tuple>)
    requires t.Valid()
    ensures all == t.View()
  {
    hide Sound, IsTree, Flat, Contents;
    t.RootNode();
    var a, h := t.root, t.height;
    while h > 0
      invariant h <= t.height && InTree(t.tree, h, 0) && t.tree[h].addrs[0] == a
    {
      t.Stored(h, 0);
      FirstChild(t, h);
      a := t.store[a].children[0];
      h := h - 1;
    }
    all := [];
    ghost var lists := EntryLists(t.tree[0].nodes);
    FlatEmpty(lists);
    ghost var i := 0;
    while a != 0
      invariant i <= |lists| && all == Flat(lists[..i])
      invariant if i == |lists| then a == 0 else a == t.tree[0].addrs[i] && InTree(t.tree, 0, i)
      decreases |lists| - i
    {
      t.Stored(0, i);
      t.ChainedAt(i);
      assert t.store[a].entries == lists[i];
      FlatAppend(lists, i);
      all := all + t.store[a].entries;
      a := t.store[a].next;
      i := i + 1;
    }
    NoNullLeaf(t);
    assert lists[..i] == lists;
    ViewIsFlat(t);
  }

  lemma FlatAppend<T>(xs: seq<seq<T>>, i: nat)
    requires i < |xs|
    ensures Flat(xs[..i + 1]) == Flat(xs[..i]) + xs[i]
  {
    assert xs[..i + 1][..i] == xs[..i];
  }

  lemma ViewIsFlat(t: MemtableTree)
    requires t.Valid()
    ensures t.View() == Flat(EntryLists(t.tree[0].nodes))
  {
  }

  lemma FirstChild(t: MemtableTree, h: nat)
    requires t.Valid() && 0 < h && InTree(t.tree, h, 0)
    ensures InTree(t.tree, h - 1, 0) && t.tree[h].nodes[0].Index? && |t.tree[h].nodes[0].children| > 0
    ensures t.tree[h].nodes[0].children[0] == t.tree[h - 1].addrs[0]
  {
    hide Flat, IsTree;
    t.Stored(h, 0);
    ChildAddress(t.cfg, t.root, t.tree, h, 0, 0);
    FlatEmpty(ChildLists(t.tree[h].nodes));
  }

  lemma NoNullLeaf(t: MemtableTree)
    requires t.Valid()
    ensures |t.tree[0].addrs| == |t.tree[0].nodes|
    ensures forall i :: 0 <= i < |t.tree[0].addrs| ==> InTree(t.tree, 0, i) && t.tree[0].addrs[i] != 0
  {
    hide IsTree;
    Addresses(t.store, t.tree);
  }
}
