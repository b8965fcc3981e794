/** The pages of a tree: which address holds which node. */
module BTreeStore {
  import opened DataModel
  import opened Concatenation
  import opened BTreeShape
  import opened BTreeUpdate
  import opened BTreeSplit

  ghost predicate InTree(tree: seq<Level>, h: int, n: int) {
    0 <= h < |tree| && 0 <= n < |tree[h].addrs| == |tree[h].nodes|
  }

  /** Every node of the tree is stored at its own address. */
  ghost predicate Holds(store: map<Addr, Node>, tree: seq<Level>) {
    && (forall h :: 0 <= h < |tree| ==> |tree[h].addrs| == |tree[h].nodes|)
    && (forall h, n :: InTree(tree, h, n) ==>
          tree[h].addrs[n] != 0 && tree[h].addrs[n] in store && store[tree[h].addrs[n]] == tree[h].nodes[n])
    && (forall h, n, g, m :: InTree(tree, h, n) && InTree(tree, g, m) && tree[h].addrs[n] == tree[g].addrs[m] ==>
          h == g && n == m)
  }

  lemma SetHolds(store: map<Addr, Node>, tree: seq<Level>, h: nat, n: nat, nd: Node)
    requires Holds(store, tree) && InTree(tree, h, n)
    ensures Holds(store[tree[h].addrs[n] := nd], tree[h := SetNode(tree[h], n, nd)])
  {
    var tree' := tree[h := SetNode(tree[h], n, nd)];
    assert forall g :: 0 <= g < |tree| ==> tree'[g].addrs == tree[g].addrs && |tree'[g].nodes| == |tree[g].nodes|;
    assert forall g, m :: InTree(tree', g, m) ==> InTree(tree, g, m);
  }

  function InsertNode(l: Level, n: nat, a: Addr, nd: Node): Level
    requires n <= |l.addrs| == |l.nodes|
  {
    Level(InsertAt(l.addrs, n, a), InsertAt(l.nodes, n, nd))
  }

  /** Where a node of the widened level came from. */
  function Origin(h: nat, n: nat, g: nat, m: nat): nat {
    if g == h && m > n then m - 1 else m
  }

  lemma InsertHolds(store: map<Addr, Node>, tree: seq<Level>, h: nat, n: nat, a: Addr, nd: Node)
    requires Holds(store, tree) && h < |tree| && n <= |tree[h].addrs| && a != 0 && a !in store
    ensures Holds(store[a := nd], tree[h := InsertNode(tree[h], n, a, nd)])
  {
    var tree' := tree[h := InsertNode(tree[h], n, a, nd)];
    forall g, m | InTree(tree', g, m)
      ensures g == h && m == n ==> tree'[g].addrs[m] == a && tree'[g].nodes[m] == nd
      ensures g != h || m != n ==> InTree(tree, g, Origin(h, n, g, m))
      ensures g != h || m != n ==> tree'[g].addrs[m] == tree[g].addrs[Origin(h, n, g, m)]
      ensures g != h || m != n ==> tree'[g].nodes[m] == tree[g].nodes[Origin(h, n, g, m)]
    {
    }
  }

  /** The pages after a split: the parent, the right neighbour of a leaf, the child and the new node. */
  ghost function SplitStore(store: map<Addr, Node>, tree: seq<Level>, h: nat, n: nat, left: Node, right: Node, a: Addr,
                            pn: nat, c: nat, pivot: Bytes): map<Addr, Node>
    requires CanSplit(tree, h, n, pn, c)
  {
    var s1 := store[tree[h + 1].addrs[pn] := WithChild(tree[h + 1].nodes[pn], c + 1, pivot, a)];
    var s2 := if n + 1 < |tree[h].nodes| then s1[tree[h].addrs[n + 1] := Relinked(tree[h].nodes[n + 1], a)] else s1;
    s2[tree[h].addrs[n] := left][a := right]
  }

  /** A split, one page at a time: the parent, the right neighbour, the child. */
  ghost function OldPagesSplit(tree: seq<Level>, h: nat, n: nat, left: Node, a: Addr, pn: nat, parent: Node): seq<Level>
    requires InTree(tree, h, n) && InTree(tree, h + 1, pn)
  {
    var t1 := tree[h + 1 := SetNode(tree[h + 1], pn, parent)];
    var t2 := if n + 1 < |tree[h].nodes| then t1[h := SetNode(t1[h], n + 1, Relinked(tree[h].nodes[n + 1], a))] else t1;
    t2[h := SetNode(t2[h], n, left)]
  }

  lemma SplitInSteps(tree: seq<Level>, h: nat, n: nat, left: Node, right: Node, a: Addr, pn: nat, c: nat, pivot: Bytes)
    requires CanSplit(tree, h, n, pn, c)
    ensures var t := OldPagesSplit(tree, h, n, left, a, pn, WithChild(tree[h + 1].nodes[pn], c + 1, pivot, a));
      && |t| == |tree| && |t[h].addrs| == |t[h].nodes| && n + 1 <= |t[h].nodes|
      && t[h := InsertNode(t[h], n + 1, a, right)] == SplitTree(tree, h, n, left, right, a, pn, c, pivot)
  {
    var t := OldPagesSplit(tree, h, n, left, a, pn, WithChild(tree[h + 1].nodes[pn], c + 1, pivot, a));
    assert InsertAt(t[h].nodes, n + 1, right) == SplitNodes(tree[h].nodes, n, left, right, a);
  }

  lemma SplitHolds(store: map<Addr, Node>, tree: seq<Level>, h: nat, n: nat, left: Node, right: Node, a: Addr,
                   pn: nat, c: nat, pivot: Bytes)
    requires Holds(store, tree) && CanSplit(tree, h, n, pn, c) && a != 0 && a !in store
    ensures Holds(SplitStore(store, tree, h, n, left, right, a, pn, c, pivot),
                  SplitTree(tree, h, n, left, right, a, pn, c, pivot))
  {
    hide Holds, SplitTree, InsertNode, WithChild, Relinked;
    var parent := WithChild(tree[h + 1].nodes[pn], c + 1, pivot, a);
    var s1, t1 := store[tree[h + 1].addrs[pn] := parent], tree[h + 1 := SetNode(tree[h + 1], pn, parent)];
    SetHolds(store, tree, h + 1, pn, parent);
    Addresses(store, tree);
    var s2, t2 := s1, t1;
    if n + 1 < |tree[h].nodes| {
      SetHolds(s1, t1, h, n + 1, Relinked(tree[h].nodes[n + 1], a));
      s2 := s1[t1[h].addrs[n + 1] := Relinked(tree[h].nodes[n + 1], a)];
      t2 := t1[h := SetNode(t1[h], n + 1, Relinked(tree[h].nodes[n + 1], a))];
    }
    SetHolds(s2, t2, h, n, left);
    var s3, t3 := s2[t2[h].addrs[n] := left], t2[h := SetNode(t2[h], n, left)];
    SplitInSteps(tree, h, n, left, right, a, pn, c, pivot);
    InsertHolds(s3, t3, h, n + 1, a, right);
  }

  lemma Addresses(store: map<Addr, Node>, tree: seq<Level>)
    requires Holds(store, tree)
    ensures forall h :: 0 <= h < |tree| ==> |tree[h].addrs| == |tree[h].nodes|
    ensures forall h, n :: InTree(tree, h, n) ==> tree[h].addrs[n] in store && tree[h].addrs[n] != 0
    ensures forall h, n :: InTree(tree, h, n) ==> store[tree[h].addrs[n]] == tree[h].nodes[n]
  {
  }

  lemma GrowHolds(store: map<Addr, Node>, tree: seq<Level>, root: Addr, child: Addr, pivot: Bytes)
    requires Holds(store, tree) && |tree| > 0 && tree[|tree| - 1].addrs == [root] && child != 0 && child !in store
    ensures Holds(store[child := tree[|tree| - 1].nodes[0]][root := Index([pivot], [child])],
                  GrownTree(root, tree, child, pivot))
  {
    var t := |tree| - 1;
    var tree' := GrownTree(root, tree, child, pivot);
    assert InTree(tree, t, 0);
    forall g, m | InTree(tree', g, m)
      ensures g < t ==> InTree(tree, g, m) && tree'[g] == tree[g]
      ensures g == t ==> m == 0 && tree'[g].addrs[m] == child
      ensures g == t + 1 ==> m == 0 && tree'[g].addrs[m] == root
      ensures g <= t + 1
    {
    }
  }

  // --------------------------------------------------------------- cursors

  /** Target r belongs in node n of height h, as far as the pivots above can tell. */
  ghost predicate At(cfg: DataConfig, tree: seq<Level>, h: int, n: int, r: real) {
    InTree(tree, h, n) && (h + 1 < |tree| ==> Covers(Flat(KeyLists(cfg, tree[h + 1].nodes)), n, r))
  }

  /** Moreover the pivot above the node is at most r. */
  ghost predicate MinUpToDate(cfg: DataConfig, tree: seq<Level>, h: nat, n: nat, r: real) {
    h + 1 < |tree| ==>
      n < |Flat(KeyLists(cfg, tree[h + 1].nodes))| && Flat(KeyLists(cfg, tree[h + 1].nodes))[n] <= r
  }

  /** The index, among the nodes one height down, of child c of node n. */
  ghost function Below(tree: seq<Level>, h: nat, n: nat, c: nat): nat
    requires InTree(tree, h, n)
  {
    Offset(ChildLists(tree[h].nodes), n) + c
  }

  lemma NodeShape(cfg: DataConfig, root: Addr, tree: seq<Level>, h: nat, n: nat)
    requires IsTree(cfg, root, tree) && InTree(tree, h, n)
    ensures NodeOk(h, tree[h].nodes[n])
  {
    assert LevelOk(cfg, h, tree[h]);
  }

  lemma LevelsMeet(cfg: DataConfig, root: Addr, tree: seq<Level>, h: nat)
    requires IsTree(cfg, root, tree) && 0 < h < |tree|
    ensures |tree[h - 1].addrs| == |tree[h - 1].nodes| == |Flat(KeyLists(cfg, tree[h].nodes))|
    ensures Flat(ChildLists(tree[h].nodes)) == tree[h - 1].addrs
    ensures forall i :: 0 <= i < |tree[h].nodes| ==> NodeOk(h, tree[h].nodes[i])
  {
    hide Flat, Sorted, Keys, NodeOk, KeyLists, ChildLists;
    assert LevelOk(cfg, h, tree[h]) && LevelOk(cfg, h - 1, tree[h - 1]) && Linked(cfg, tree[h], tree[h - 1]);
  }

  lemma ListsOf(cfg: DataConfig, nodes: seq<Node>, n: nat)
    requires n < |nodes|
    ensures |ChildLists(nodes)| == |KeyLists(cfg, nodes)| == |nodes|
    ensures ChildLists(nodes)[n] == Children(nodes[n]) && KeyLists(cfg, nodes)[n] == Keys(cfg, nodes[n])
  {
  }

  /** The pivots of one height name the nodes of the next. */
  lemma ChildAddress(cfg: DataConfig, root: Addr, tree: seq<Level>, h: nat, n: nat, c: nat)
    requires IsTree(cfg, root, tree) && 0 < h < |tree| && InTree(tree, h, n) && c < |Children(tree[h].nodes[n])|
    ensures InTree(tree, h - 1, Below(tree, h, n, c))
    ensures Children(tree[h].nodes[n])[c] == tree[h - 1].addrs[Below(tree, h, n, c)]
    ensures Below(tree, h, n, c) < |Flat(KeyLists(cfg, tree[h].nodes))|
    ensures c < |Keys(cfg, tree[h].nodes[n])|
    ensures Flat(KeyLists(cfg, tree[h].nodes))[Below(tree, h, n, c)] == Keys(cfg, tree[h].nodes[n])[c]
    ensures Below(tree, h, n, c) == Offset(KeyLists(cfg, tree[h].nodes), n) + c
  {
    hide Flat, IsTree, Keys, KeyLists, ChildLists;
    LevelsMeet(cfg, root, tree, h);
    NodeShape(cfg, root, tree, h, n);
    ListsOf(cfg, tree[h].nodes, n);
    OffsetsAgree(cfg, tree[h].nodes, n);
    FlatAround(ChildLists(tree[h].nodes), n);
    FlatAround(KeyLists(cfg, tree[h].nodes), n);
  }

  lemma FlatOfOne<T>(lists: seq<seq<T>>)
    requires |lists| == 1
    ensures Flat(lists) == lists[0] && Offset(lists, 0) == 0
  {
    assert lists == [lists[0]];
    FlatSingle(lists[0]);
    FlatEmpty(lists);
  }

  /** Following the chosen child leads to the node that covers r one height down. */
  lemma FollowChild(cfg: DataConfig, root: Addr, tree: seq<Level>, h: nat, n: nat, c: nat, r: real)
    requires IsTree(cfg, root, tree) && h > 0 && At(cfg, tree, h, n, r) && Covers(Keys(cfg, tree[h].nodes[n]), c, r)
    requires tree[h].nodes[n].Index? && |tree[h].nodes[n].pivots| == |tree[h].nodes[n].children|
    ensures At(cfg, tree, h - 1, Below(tree, h, n, c), r)
    ensures tree[h].nodes[n].children[c] == tree[h - 1].addrs[Below(tree, h, n, c)]
    ensures Keys(cfg, tree[h].nodes[n])[c] <= r ==> MinUpToDate(cfg, tree, h - 1, Below(tree, h, n, c), r)
  {
    hide Flat, Sorted, Between, LevelOk;
    var lists := KeyLists(cfg, tree[h].nodes);
    ChildAddress(cfg, root, tree, h, n, c);
    if h + 1 < |tree| {
      assert Linked(cfg, tree[h + 1], tree[h]);
      Descend(cfg, Flat(KeyLists(cfg, tree[h + 1].nodes)), lists, n, c, r);
    } else {
      assert lists[0] == Keys(cfg, tree[h].nodes[0]);
      FlatOfOne(lists);
    }
  }

  /** The descent stands at node n of height h, stored at a, about to follow child c, whose pivot is at most r. */
  ghost predicate Ready(cfg: DataConfig, tree: seq<Level>, h: nat, n: nat, a: Addr, c: nat, r: real) {
    && 0 < h && At(cfg, tree, h, n, r) && tree[h].addrs[n] == a
    && tree[h].nodes[n].Index? && |tree[h].nodes[n].pivots| == |tree[h].nodes[n].children|
    && Covers(Keys(cfg, tree[h].nodes[n]), c, r) && Keys(cfg, tree[h].nodes[n])[c] <= r
  }

  /** Which half of a split node the descent goes on in, and at which child. */
  lemma SplitCursor(cfg: DataConfig, root: Addr, tree: seq<Level>, h: nat, n: nat, left: Node, right: Node, a: Addr,
                    pn: nat, c: nat, pivot: Bytes, next: nat, r: real)
    requires IsTree(cfg, root, tree) && CanSplit(tree, h, n, pn, c)
    requires Below(tree, h + 1, pn, c) == n
    requires Keys(cfg, left) + Keys(cfg, right) == Keys(cfg, tree[h].nodes[n])
    requires |Keys(cfg, left)| > 0 && |Keys(cfg, right)| > 0 && cfg.rank(pivot) == Keys(cfg, right)[0]
    requires At(cfg, tree, h, n, r) && MinUpToDate(cfg, tree, h, n, r) && Covers(Keys(cfg, tree[h].nodes[n]), next, r)
    requires Sorted(Keys(cfg, tree[h].nodes[n]))
    ensures var tree' := SplitTree(tree, h, n, left, right, a, pn, c, pivot);
      if next < |Keys(cfg, left)| then
        At(cfg, tree', h, n, r) && MinUpToDate(cfg, tree', h, n, r) && Covers(Keys(cfg, left), next, r)
      else
        At(cfg, tree', h, n + 1, r) && MinUpToDate(cfg, tree', h, n + 1, r)
        && Covers(Keys(cfg, right), next - |Keys(cfg, left)|, r)
        && Keys(cfg, right)[next - |Keys(cfg, left)|] <= r
  {
    hide Flat, SplitNodes, IsTree;
    var ks := Flat(KeyLists(cfg, tree[h + 1].nodes));
    var all, m := Keys(cfg, tree[h].nodes[n]), |Keys(cfg, left)|;
    assert LevelOk(cfg, h + 1, tree[h + 1]) by { LevelsOk(cfg, root, tree, h + 1); }
    ParentFlats(cfg, h + 1, tree[h + 1], pn, c, pivot, a);
    assert forall i :: 0 <= i < m ==> all[i] == Keys(cfg, left)[i];
    assert forall i :: m <= i < |all| ==> all[i] == Keys(cfg, right)[i - m];
    if next < m {
      assert r < all[m];
    } else {
      assert all[m] <= all[next] <= r;
    }
  }

  lemma LevelsOk(cfg: DataConfig, root: Addr, tree: seq<Level>, h: nat)
    requires IsTree(cfg, root, tree) && h < |tree|
    ensures LevelOk(cfg, h, tree[h])
  {
  }

  /** The keys of one node are sorted. */
  lemma NodeSorted(cfg: DataConfig, root: Addr, tree: seq<Level>, h: nat, n: nat)
    requires IsTree(cfg, root, tree) && InTree(tree, h, n)
    ensures Sorted(Keys(cfg, tree[h].nodes[n]))
  {
    hide Flat;
    LevelsOk(cfg, root, tree, h);
    SortedPart(KeyLists(cfg, tree[h].nodes), n);
  }

  /** A target below every key of the node it belongs to belongs to the leftmost node. */
  lemma BelowAllIsLeftmost(cfg: DataConfig, root: Addr, tree: seq<Level>, h: nat, n: nat, r: real)
    requires IsTree(cfg, root, tree) && At(cfg, tree, h, n, r) && |Keys(cfg, tree[h].nodes[n])| > 0
    requires r < Keys(cfg, tree[h].nodes[n])[0]
    ensures n == 0
  {
    hide Flat, Sorted, LevelOk;
    if n > 0 {
      TopIsOne(cfg, root, tree, h, n);
      FirstIsPivot(cfg, root, tree, h, n);
    }
  }

  lemma FirstIsPivot(cfg: DataConfig, root: Addr, tree: seq<Level>, h: nat, n: nat)
    requires IsTree(cfg, root, tree) && InTree(tree, h, n) && n > 0 && h + 1 < |tree|
    ensures n < |Flat(KeyLists(cfg, tree[h + 1].nodes))| && |Keys(cfg, tree[h].nodes[n])| > 0
    ensures Flat(KeyLists(cfg, tree[h + 1].nodes))[n] == Keys(cfg, tree[h].nodes[n])[0]
  {
    hide Flat, Sorted, LevelOk;
    assert Linked(cfg, tree[h + 1], tree[h]);
    assert KeyLists(cfg, tree[h].nodes)[n] == Keys(cfg, tree[h].nodes[n]);
  }

  lemma TopIsOne(cfg: DataConfig, root: Addr, tree: seq<Level>, h: nat, n: nat)
    requires IsTree(cfg, root, tree) && InTree(tree, h, n) && n > 0
    ensures h + 1 < |tree|
  {
  }
}
