/** Splitting a node and growing a new root keep a tree a tree and change nothing it stores. */
module BTreeSplit {
  import opened DataModel
  import opened Concatenation
  import opened BTreeShape
  import opened BTreeUpdate

  /** The right neighbour of a split leaf points back to the new leaf. */
  function Relinked(nd: Node, a: Addr): Node {
    if nd.Leaf? then nd.(prev := a) else nd
  }

  function SplitNodes(nodes: seq<Node>, n: nat, left: Node, right: Node, a: Addr): (r: seq<Node>)
    requires n < |nodes|
    ensures |r| == |nodes| + 1
  {
    nodes[..n] + [left, right]
    + if n + 1 < |nodes| then [Relinked(nodes[n + 1], a)] + nodes[n + 2..] else []
  }

  function SplitLevel(l: Level, n: nat, left: Node, right: Node, a: Addr): Level
    requires n < |l.nodes| == |l.addrs|
  {
    Level(InsertAt(l.addrs, n + 1, a), SplitNodes(l.nodes, n, left, right, a))
  }

  /** The parent after gaining the pivot and address of a new child at position i. */
  function WithChild(nd: Node, i: nat, pivot: Bytes, a: Addr): Node
    requires nd.Index? && i <= |nd.pivots| == |nd.children|
  {
    Index(InsertAt(nd.pivots, i, pivot), InsertAt(nd.children, i, a))
  }

  /** s with element n replaced by a, b. */
  function Cut<T>(s: seq<T>, n: nat, a: T, b: T): (r: seq<T>)
    requires n < |s|
    ensures |r| == |s| + 1 && r[n] == a && r[n + 1] == b
    ensures (forall i :: 0 <= i < n ==> r[i] == s[i]) && (forall i :: n + 1 < i < |r| ==> r[i] == s[i - 1])
  {
    s[..n] + [a, b] + s[n + 1..]
  }

  /** left and right share out what nd holds, and neither is empty. */
  ghost predicate Halves(cfg: DataConfig, h: nat, nd: Node, left: Node, right: Node) {
    && NodeOk(h, left) && NodeOk(h, right)
    && |Keys(cfg, left)| > 0 && |Keys(cfg, right)| > 0
    && Keys(cfg, left) + Keys(cfg, right) == Keys(cfg, nd)
    && Children(left) + Children(right) == Children(nd)
    && Entries(left) + Entries(right) == Entries(nd)
  }

  /** The nodes agree on everything that a level spells out. */
  ghost predicate Alike(cfg: DataConfig, x: Node, y: Node) {
    Keys(cfg, x) == Keys(cfg, y) && Children(x) == Children(y) && Entries(x) == Entries(y)
  }

  lemma SplitNodesAt(cfg: DataConfig, nodes: seq<Node>, n: nat, left: Node, right: Node, a: Addr, i: nat)
    requires n < |nodes| && i < |nodes| + 1
    ensures i < n ==> Alike(cfg, SplitNodes(nodes, n, left, right, a)[i], nodes[i])
    ensures i == n ==> SplitNodes(nodes, n, left, right, a)[i] == left
    ensures i == n + 1 ==> SplitNodes(nodes, n, left, right, a)[i] == right
    ensures n + 1 < i ==> Alike(cfg, SplitNodes(nodes, n, left, right, a)[i], nodes[i - 1])
  {
  }

  lemma ListsAfterSplit(cfg: DataConfig, nodes: seq<Node>, n: nat, left: Node, right: Node, a: Addr)
    requires n < |nodes|
    ensures var nodes' := SplitNodes(nodes, n, left, right, a);
      && KeyLists(cfg, nodes') == Cut(KeyLists(cfg, nodes), n, Keys(cfg, left), Keys(cfg, right))
      && ChildLists(nodes') == Cut(ChildLists(nodes), n, Children(left), Children(right))
      && EntryLists(nodes') == Cut(EntryLists(nodes), n, Entries(left), Entries(right))
  {
    hide SplitNodes, Keys, Children, Entries;
    forall i | 0 <= i < |nodes| + 1
      ensures i < n ==> Alike(cfg, SplitNodes(nodes, n, left, right, a)[i], nodes[i])
      ensures i == n ==> SplitNodes(nodes, n, left, right, a)[i] == left
      ensures i == n + 1 ==> SplitNodes(nodes, n, left, right, a)[i] == right
      ensures n + 1 < i ==> Alike(cfg, SplitNodes(nodes, n, left, right, a)[i], nodes[i - 1])
    {
      SplitNodesAt(cfg, nodes, n, left, right, a, i);
    }
  }

  /** Cutting one node in two leaves every concatenation of its level as it was. */
  lemma SplitKeepsFlats(cfg: DataConfig, h: nat, nodes: seq<Node>, n: nat, left: Node, right: Node, a: Addr)
    requires n < |nodes| && Halves(cfg, h, nodes[n], left, right)
    ensures var nodes' := SplitNodes(nodes, n, left, right, a);
      && Flat(KeyLists(cfg, nodes')) == Flat(KeyLists(cfg, nodes))
      && Flat(ChildLists(nodes')) == Flat(ChildLists(nodes))
      && Flat(EntryLists(nodes')) == Flat(EntryLists(nodes))
  {
    hide Flat, SplitNodes;
    ListsAfterSplit(cfg, nodes, n, left, right, a);
    FlatSplit(KeyLists(cfg, nodes), n, Keys(cfg, left), Keys(cfg, right));
    FlatSplit(ChildLists(nodes), n, Children(left), Children(right));
    FlatSplit(EntryLists(nodes), n, Entries(left), Entries(right));
  }

  lemma SplitLevelOk(cfg: DataConfig, h: nat, l: Level, n: nat, left: Node, right: Node, a: Addr)
    requires LevelOk(cfg, h, l) && n < |l.nodes| && Halves(cfg, h, l.nodes[n], left, right)
    ensures LevelOk(cfg, h, SplitLevel(l, n, left, right, a))
  {
    hide Flat, Sorted;
    SplitKeepsFlats(cfg, h, l.nodes, n, left, right, a);
    assert forall i :: 0 <= i < |l.nodes| ==> NodeOk(h, l.nodes[i]);
  }

  lemma BetweenSplitAt(ks: seq<real>, lists: seq<seq<real>>, n: nat, a: seq<real>, b: seq<real>, i: nat, j: nat)
    requires Between(ks, lists) && n < |lists| && lists[n] == a + b && |a| > 0 && |b| > 0 && Sorted(lists[n])
    requires i < |lists| + 1 && j < |Cut(lists, n, a, b)[i]|
    ensures var ks', lists' := Cut(ks, n, ks[n], b[0]), Cut(lists, n, a, b);
      ks'[i] <= lists'[i][j] && (i + 1 < |lists'| ==> lists'[i][j] < ks'[i + 1])
  {
    hide Cut;
    if i == n {
      assert a[j] == lists[n][j] < lists[n][|a|] == b[0];
    } else if i == n + 1 {
      assert b[j] == lists[n][|a| + j];
      assert n + 1 < |lists| ==> lists[n][|a| + j] < ks[n + 1];
      assert b[0] == lists[n][|a|];
    }
  }

  /** The new pivot, the first key of the right half, separates the halves. */
  lemma BetweenSplit(ks: seq<real>, lists: seq<seq<real>>, n: nat, a: seq<real>, b: seq<real>)
    requires Between(ks, lists) && n < |lists| && lists[n] == a + b && |a| > 0 && |b| > 0 && Sorted(lists[n])
    ensures Between(Cut(ks, n, ks[n], b[0]), Cut(lists, n, a, b))
  {
    hide Cut, Sorted;
    var ks', lists' := Cut(ks, n, ks[n], b[0]), Cut(lists, n, a, b);
    forall i, j | 0 <= i < |lists'| && 0 <= j < |lists'[i]|
      ensures ks'[i] <= lists'[i][j] && (i + 1 < |lists'| ==> lists'[i][j] < ks'[i + 1])
    {
      BetweenSplitAt(ks, lists, n, a, b, i, j);
    }
    if n > 0 {
      assert ks[n] == lists[n][0] == a[0];
    }
  }

  lemma PivotsStaySorted(ks: seq<real>, n: nat, v: real)
    requires Sorted(ks) && n < |ks| && ks[n] < v && (n + 1 < |ks| ==> v < ks[n + 1])
    ensures Sorted(Cut(ks, n, ks[n], v))
  {
    hide Cut;
  }

  /** Keys and children of index nodes line up. */
  lemma {:induction false} OffsetsAgree(cfg: DataConfig, nodes: seq<Node>, n: nat)
    requires n <= |nodes|
    requires forall i :: 0 <= i < |nodes| ==> nodes[i].Index? && |nodes[i].pivots| == |nodes[i].children|
    ensures Offset(KeyLists(cfg, nodes), n) == Offset(ChildLists(nodes), n)
  {
    hide Flat;
    if n == 0 {
      FlatEmpty(KeyLists(cfg, nodes));
      FlatEmpty(ChildLists(nodes));
    } else {
      OffsetsAgree(cfg, nodes, n - 1);
      FlatAround(KeyLists(cfg, nodes), n - 1);
      FlatAround(ChildLists(nodes), n - 1);
    }
  }

  /** What the parent's level spells out once the new child is in it. */
  lemma ParentFlats(cfg: DataConfig, h: nat, u: Level, pn: nat, c: nat, pivot: Bytes, a: Addr)
    requires h > 0 && LevelOk(cfg, h, u) && pn < |u.nodes| && c < |u.nodes[pn].children|
    ensures var nodes, nodes' := u.nodes, u.nodes[pn := WithChild(u.nodes[pn], c + 1, pivot, a)];
      var at := Offset(ChildLists(nodes), pn) + c + 1;
      && at <= |Flat(KeyLists(cfg, nodes))| && at <= |Flat(ChildLists(nodes))|
      && Flat(KeyLists(cfg, nodes')) == InsertAt(Flat(KeyLists(cfg, nodes)), at, cfg.rank(pivot))
      && Flat(ChildLists(nodes')) == InsertAt(Flat(ChildLists(nodes)), at, a)
      && KeyLists(cfg, nodes') == KeyLists(cfg, nodes)[pn := InsertAt(KeyLists(cfg, nodes)[pn], c + 1, cfg.rank(pivot))]
  {
    hide Flat, Sorted;
    assert forall i :: 0 <= i < |u.nodes| ==> NodeOk(h, u.nodes[i]);
    var nd' := WithChild(u.nodes[pn], c + 1, pivot, a);
    ListsAfterSet(cfg, u.nodes, pn, nd');
    OffsetsAgree(cfg, u.nodes, pn);
    KeysInsert(cfg, u.nodes[pn], c + 1, pivot, a);
    FlatInsert(KeyLists(cfg, u.nodes), pn, c + 1, cfg.rank(pivot));
    FlatInsert(ChildLists(u.nodes), pn, c + 1, a);
  }

  lemma KeysInsert(cfg: DataConfig, nd: Node, i: nat, pivot: Bytes, a: Addr)
    requires nd.Index? && i <= |nd.pivots| == |nd.children|
    ensures Keys(cfg, WithChild(nd, i, pivot, a)) == InsertAt(Keys(cfg, nd), i, cfg.rank(pivot))
  {
  }

  /** Adding a key that is not first keeps a list between its pivots. */
  lemma BetweenInsert(ks: seq<real>, lists: seq<seq<real>>, n: nat, i: nat, v: real)
    requires Between(ks, lists) && n < |lists| && 0 < i <= |lists[n]|
    requires lists[n][0] <= v && (n + 1 < |lists| ==> v < ks[n + 1])
    ensures Between(ks, lists[n := InsertAt(lists[n], i, v)])
  {
    var l' := InsertAt(lists[n], i, v);
    assert forall j :: 0 <= j < |l'| ==>
      l'[j] == (if j < i then lists[n][j] else if j == i then v else lists[n][j - 1]);
  }

  /** Where the new key lies among the pivots one level further up. */
  lemma NewKeyBounds(top: seq<real>, lists: seq<seq<real>>, below: seq<seq<real>>, pn: nat, c: nat, n: nat, j: nat)
    requires Between(top, lists) && Between(Flat(lists), below) && Sorted(Flat(lists))
    requires pn < |lists| && c < |lists[pn]| && Offset(lists, pn) + c == n && n < |below| && j < |below[n]|
    ensures lists[pn][0] <= below[n][j] && (pn + 1 < |lists| ==> below[n][j] < top[pn + 1])
  {
    hide Flat;
    var ks, o := Flat(lists), Offset(lists, pn);
    FlatAround(lists, pn);
    assert ks[o + 0] == lists[pn][0] && ks[o + c] == lists[pn][c];
    assert ks[o] <= ks[n] <= below[n][j] by { SortedAt(ks, o, n); }
    if pn + 1 < |lists| {
      FlatAround(lists, pn + 1);
      var o' := o + |lists[pn]|;
      assert ks[o' + 0] == lists[pn + 1][0] == top[pn + 1];
      assert below[n][j] < ks[n + 1];
      SortedAt(ks, n + 1, o');
    }
  }

  lemma SortedAt(ks: seq<real>, i: nat, j: nat)
    requires Sorted(ks) && i <= j < |ks|
    ensures ks[i] <= ks[j]
  {
  }

  lemma CutIsInsert<T>(s: seq<T>, n: nat, v: T)
    requires n < |s|
    ensures Cut(s, n, s[n], v) == InsertAt(s, n + 1, v)
  {
  }

  /** The pivot and child added to a parent separate and name the two halves. */
  lemma LinkSplit(cfg: DataConfig, h: nat, u: Level, l: Level, n: nat, left: Node, right: Node, a: Addr,
                  pn: nat, c: nat, pivot: Bytes)
    requires LevelOk(cfg, h, l) && LevelOk(cfg, h + 1, u) && Linked(cfg, u, l)
    requires n < |l.nodes| && Halves(cfg, h, l.nodes[n], left, right) && cfg.rank(pivot) == Keys(cfg, right)[0]
    requires pn < |u.nodes| && c < |Children(u.nodes[pn])| && Offset(ChildLists(u.nodes), pn) + c == n
    requires u.nodes[pn].Index? && |u.nodes[pn].pivots| == |u.nodes[pn].children|
    ensures var u' := SetNode(u, pn, WithChild(u.nodes[pn], c + 1, pivot, a));
      LevelOk(cfg, h + 1, u') && Linked(cfg, u', SplitLevel(l, n, left, right, a))
  {
    hide Flat, Sorted, Between, SplitNodes, Cut;
    var ks, lists := Flat(KeyLists(cfg, u.nodes)), KeyLists(cfg, l.nodes);
    var v := cfg.rank(pivot);
    ParentFlats(cfg, h + 1, u, pn, c, pivot, a);
    ListsAfterSplit(cfg, l.nodes, n, left, right, a);
    SortedPart(lists, n);
    BetweenSplit(ks, lists, n, Keys(cfg, left), Keys(cfg, right));
    NewPivotFits(ks, lists, n, Keys(cfg, left), Keys(cfg, right));
    PivotsStaySorted(ks, n, v);
    CutIsInsert(ks, n, v);
    assert forall i :: 0 <= i < |u.nodes| ==> NodeOk(h + 1, u.nodes[i]);
  }

  lemma NewPivotFits(ks: seq<real>, lists: seq<seq<real>>, n: nat, a: seq<real>, b: seq<real>)
    requires Between(ks, lists) && n < |lists| && lists[n] == a + b && |a| > 0 && |b| > 0 && Sorted(lists[n])
    ensures n < |ks| && ks[n] < b[0] && (n + 1 < |ks| ==> b[0] < ks[n + 1])
  {
    assert ks[n] <= lists[n][0] < lists[n][|a|] == b[0];
  }

  lemma UpperLinkSplit(cfg: DataConfig, h: nat, top: Level, u: Level, l: Level, n: nat, right: Node, a: Addr,
                       pn: nat, c: nat, pivot: Bytes)
    requires LevelOk(cfg, h + 1, u) && Linked(cfg, u, l) && Linked(cfg, top, u)
    requires n < |l.nodes| && exists j ::
      0 <= j < |Keys(cfg, l.nodes[n])| && Keys(cfg, l.nodes[n])[j] == cfg.rank(pivot)
    requires pn < |u.nodes| && c < |Children(u.nodes[pn])| && Offset(ChildLists(u.nodes), pn) + c == n
    requires u.nodes[pn].Index? && |u.nodes[pn].pivots| == |u.nodes[pn].children|
    ensures Linked(cfg, top, SetNode(u, pn, WithChild(u.nodes[pn], c + 1, pivot, a)))
  {
    hide Flat, Sorted, Between;
    var j :| 0 <= j < |Keys(cfg, l.nodes[n])| && Keys(cfg, l.nodes[n])[j] == cfg.rank(pivot);
    var lists := KeyLists(cfg, u.nodes);
    ParentFlats(cfg, h + 1, u, pn, c, pivot, a);
    assert forall i :: 0 <= i < |u.nodes| ==> NodeOk(h + 1, u.nodes[i]);
    OffsetsAgree(cfg, u.nodes, pn);
    NewKeyBounds(Flat(KeyLists(cfg, top.nodes)), lists, KeyLists(cfg, l.nodes), pn, c, n, j);
    BetweenInsert(Flat(KeyLists(cfg, top.nodes)), lists, pn, c + 1, cfg.rank(pivot));
  }

  lemma ChainSplit(l: Level, n: nat, left: Node, right: Node, a: Addr)
    requires Chained(l) && n < |l.nodes| && left.Leaf? && right.Leaf?
    requires left.prev == l.nodes[n].prev && left.next == a && right.prev == l.addrs[n] && right.next == l.nodes[n].next
    ensures Chained(SplitLevel(l, n, left, right, a))
  {
    var l' := SplitLevel(l, n, left, right, a);
    forall i | 0 <= i < |l'.nodes|
      ensures l'.nodes[i].Leaf?
      ensures l'.nodes[i].prev == if i == 0 then 0 else l'.addrs[i - 1]
      ensures l'.nodes[i].next == if i == |l'.nodes| - 1 then 0 else l'.addrs[i + 1]
    {
      if n + 2 < i {
        assert l'.nodes[i] == l.nodes[i - 1];
      } else if i == n + 2 {
        assert l'.nodes[i] == l.nodes[n + 1].(prev := a);
      } else if i < n {
        assert l'.nodes[i] == l.nodes[i];
      }
    }
  }

  /** Node n of height h has parent pn, whose child c it could be. */
  ghost predicate CanSplit(tree: seq<Level>, h: nat, n: nat, pn: nat, c: nat) {
    && h + 1 < |tree| && n < |tree[h].nodes| == |tree[h].addrs| && pn < |tree[h + 1].nodes| == |tree[h + 1].addrs|
    && tree[h + 1].nodes[pn].Index? && c < |tree[h + 1].nodes[pn].pivots| == |tree[h + 1].nodes[pn].children|
  }

  ghost function SplitTree(tree: seq<Level>, h: nat, n: nat, left: Node, right: Node, a: Addr, pn: nat, c: nat,
                           pivot: Bytes): seq<Level>
    requires CanSplit(tree, h, n, pn, c)
  {
    var u := tree[h + 1];
    tree[h := SplitLevel(tree[h], n, left, right, a)]
        [h + 1 := SetNode(u, pn, WithChild(u.nodes[pn], c + 1, pivot, a))]
  }

  /** Splitting node n of level h and telling its parent keeps the tree a tree and its contents as they were. */
  lemma TreeSplit(cfg: DataConfig, root: Addr, tree: seq<Level>, h: nat, n: nat, left: Node, right: Node, a: Addr,
                  pn: nat, c: nat, pivot: Bytes)
    requires IsTree(cfg, root, tree) && CanSplit(tree, h, n, pn, c)
    requires Halves(cfg, h, tree[h].nodes[n], left, right) && cfg.rank(pivot) == Keys(cfg, right)[0]
    requires Offset(ChildLists(tree[h + 1].nodes), pn) + c == n
    requires h == 0 ==> left.Leaf? && right.Leaf? && tree[0].nodes[n].Leaf?
    requires h == 0 ==> left.prev == tree[0].nodes[n].prev && left.next == a
    requires h == 0 ==> right.prev == tree[0].addrs[n] && right.next == tree[0].nodes[n].next
    ensures IsTree(cfg, root, SplitTree(tree, h, n, left, right, a, pn, c, pivot))
    ensures Contents(SplitTree(tree, h, n, left, right, a, pn, c, pivot)) == Contents(tree)
  {
    hide Flat, Sorted, Between, LevelOk, SplitNodes, Chained;
    var tree' := SplitTree(tree, h, n, left, right, a, pn, c, pivot);
    var l := tree[h];
    assert LevelOk(cfg, h, tree[h]) && LevelOk(cfg, h + 1, tree[h + 1]) && Linked(cfg, tree[h + 1], tree[h]);
    SplitKeepsFlats(cfg, h, l.nodes, n, left, right, a);
    SplitLevelOk(cfg, h, l, n, left, right, a);
    LinkSplit(cfg, h, tree[h + 1], l, n, left, right, a, pn, c, pivot);
    if h + 2 < |tree| {
      assert Linked(cfg, tree[h + 2], tree[h + 1]);
      assert Keys(cfg, l.nodes[n])[|Keys(cfg, left)|] == cfg.rank(pivot);
      UpperLinkSplit(cfg, h, tree[h + 2], tree[h + 1], l, n, right, a, pn, c, pivot);
    }
    if h == 0 {
      ChainSplit(l, n, left, right, a);
    }
    SplitLevels(cfg, tree, tree', h);
  }

  lemma SplitLevels(cfg: DataConfig, tree: seq<Level>, tree': seq<Level>, h: nat)
    requires |tree'| == |tree| && h + 1 < |tree|
    requires forall g :: 0 <= g < |tree| && g != h && g != h + 1 ==> tree'[g] == tree[g]
    requires forall g :: 0 <= g < |tree| ==> LevelOk(cfg, g, tree[g])
    requires forall g :: 0 < g < |tree| ==> Linked(cfg, tree[g], tree[g - 1])
    requires LevelOk(cfg, h, tree'[h]) && LevelOk(cfg, h + 1, tree'[h + 1]) && Linked(cfg, tree'[h + 1], tree'[h])
    requires h + 2 < |tree| ==> Linked(cfg, tree[h + 2], tree'[h + 1])
    requires Flat(KeyLists(cfg, tree'[h].nodes)) == Flat(KeyLists(cfg, tree[h].nodes))
    requires Flat(ChildLists(tree'[h].nodes)) == Flat(ChildLists(tree[h].nodes))
    ensures forall g :: 0 <= g < |tree'| ==> LevelOk(cfg, g, tree'[g])
    ensures forall g :: 0 < g < |tree'| ==> Linked(cfg, tree'[g], tree'[g - 1])
  {
    hide Flat, LevelOk, Between;
    forall g | 0 < g < |tree'| ensures Linked(cfg, tree'[g], tree'[g - 1]) {
      assert Linked(cfg, tree[g], tree[g - 1]);
    }
  }

  // --------------------------------------------------------- a new root

  ghost function GrownTree(root: Addr, tree: seq<Level>, child: Addr, pivot: Bytes): seq<Level>
    requires |tree| > 0
  {
    tree[|tree| - 1 := Level([child], tree[|tree| - 1].nodes)] + [Level([root], [Index([pivot], [child])])]
  }

  /** The flat lists of one node are its own. */
  lemma FlatsOfOne(cfg: DataConfig, nd: Node)
    ensures KeyLists(cfg, [nd]) == [Keys(cfg, nd)] && ChildLists([nd]) == [Children(nd)]
    ensures Flat(KeyLists(cfg, [nd])) == Keys(cfg, nd) && Flat(ChildLists([nd])) == Children(nd)
  {
    hide Flat;
    FlatSingle(Keys(cfg, nd));
    FlatSingle(Children(nd));
    assert KeyLists(cfg, [nd]) == [Keys(cfg, nd)] && ChildLists([nd]) == [Children(nd)];
  }

  /** A one-entry index is linked to the one node it names. */
  lemma NewRoot(cfg: DataConfig, h: nat, root: Addr, child: Addr, nd: Node, pivot: Bytes)
    requires LevelOk(cfg, h, Level([child], [nd])) && |Keys(cfg, nd)| > 0 && cfg.rank(pivot) == Keys(cfg, nd)[0]
    ensures LevelOk(cfg, h + 1, Level([root], [Index([pivot], [child])]))
    ensures Linked(cfg, Level([root], [Index([pivot], [child])]), Level([child], [nd]))
  {
    hide Flat;
    var up := Index([pivot], [child]);
    assert Keys(cfg, up) == [cfg.rank(pivot)];
    FlatsOfOne(cfg, up);
    FlatsOfOne(cfg, nd);
  }

  /** Moving the root to a child page and putting a one-entry index above it. */
  lemma TreeGrow(cfg: DataConfig, root: Addr, tree: seq<Level>, child: Addr, pivot: Bytes)
    requires IsTree(cfg, root, tree)
    requires |tree[|tree| - 1].nodes| == 1
    requires var nd := tree[|tree| - 1].nodes[0];
      |Keys(cfg, nd)| > 0 && cfg.rank(pivot) == Keys(cfg, nd)[0]
    ensures IsTree(cfg, root, GrownTree(root, tree, child, pivot))
    ensures Contents(GrownTree(root, tree, child, pivot)) == Contents(tree)
  {
    hide Flat, Sorted, Between, Keys, KeyLists, NodeOk;
    var t := |tree| - 1;
    var tree' := GrownTree(root, tree, child, pivot);
    assert tree[t].nodes == [tree[t].nodes[0]];
    assert LevelOk(cfg, t, tree[t]);
    NewRoot(cfg, t, root, child, tree[t].nodes[0], pivot);
    forall g | 0 <= g < |tree'| ensures LevelOk(cfg, g, tree'[g]) {
      if g <= t {
        assert LevelOk(cfg, g, tree[g]);
      }
    }
    forall g | 0 < g < |tree'| ensures Linked(cfg, tree'[g], tree'[g - 1]) {
      if g <= t {
        assert Linked(cfg, tree[g], tree[g - 1]);
      }
    }
  }
}
