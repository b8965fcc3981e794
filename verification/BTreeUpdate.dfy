/** What the structural changes of btree_insert do to the shape of the tree: lowering the minimum key,
    rewriting a leaf, splitting a node, growing a new root. */
module BTreeUpdate {
  import opened DataModel
  import opened Concatenation
  import opened LeafInsert
  import opened BTreeShape

  function SetNode(l: Level, n: nat, nd: Node): Level
    requires n < |l.nodes|
  {
    Level(l.addrs, l.nodes[n := nd])
  }

  function InsertAt<T>(s: seq<T>, i: nat, v: T): seq<T>
    requires i <= |s|
  {
    s[..i] + [v] + s[i..]
  }

  lemma ListsAfterSet(cfg: DataConfig, nodes: seq<Node>, n: nat, nd: Node)
    requires n < |nodes|
    ensures KeyLists(cfg, nodes[n := nd]) == KeyLists(cfg, nodes)[n := Keys(cfg, nd)]
    ensures ChildLists(nodes[n := nd]) == ChildLists(nodes)[n := Children(nd)]
    ensures EntryLists(nodes[n := nd]) == EntryLists(nodes)[n := Entries(nd)]
  {
  }

  /** Replacing one node keeps a tree a tree when its children stay and its keys fit where the old ones did. */
  lemma TreeSetNode(cfg: DataConfig, root: Addr, tree: seq<Level>, h: nat, n: nat, nd: Node)
    requires IsTree(cfg, root, tree) && h < |tree| && n < |tree[h].nodes|
    requires NodeOk(h, nd) && Children(nd) == Children(tree[h].nodes[n])
    requires var l := SetNode(tree[h], n, nd);
      && Sorted(Flat(KeyLists(cfg, l.nodes)))
      && (h > 0 ==> Between(Flat(KeyLists(cfg, l.nodes)), KeyLists(cfg, tree[h - 1].nodes)))
      && (h + 1 < |tree| ==> Between(Flat(KeyLists(cfg, tree[h + 1].nodes)), KeyLists(cfg, l.nodes)))
      && (h == 0 ==> nd.prev == tree[h].nodes[n].prev && nd.next == tree[h].nodes[n].next)
    ensures IsTree(cfg, root, tree[h := SetNode(tree[h], n, nd)])
  {
    hide Flat, Sorted, Between;
    var l := SetNode(tree[h], n, nd);
    var tree' := tree[h := l];
    ListsAfterSet(cfg, tree[h].nodes, n, nd);
    assert ChildLists(l.nodes) == ChildLists(tree[h].nodes);
    forall g | 0 <= g < |tree'| ensures LevelOk(cfg, g, tree'[g]) {
      assert LevelOk(cfg, g, tree[g]);
    }
    forall g | 0 < g < |tree'| ensures Linked(cfg, tree'[g], tree'[g - 1]) {
      assert Linked(cfg, tree[g], tree[g - 1]);
    }
  }

  // ------------------------------------------------- lowering the minimum

  lemma LowerFirst(ks: seq<real>, r: real, lists: seq<seq<real>>)
    requires |ks| > 0 && r <= ks[0] && Sorted(ks)
    ensures Sorted(ks[0 := r])
    ensures Between(ks, lists) ==> Between(ks[0 := r], lists)
  {
  }

  /** Setting pivot 0 of the leftmost node of level h to a smaller key. */
  lemma TreeSetMin(cfg: DataConfig, root: Addr, tree: seq<Level>, h: nat, key: Bytes)
    requires IsTree(cfg, root, tree) && 0 < h < |tree|
    requires cfg.rank(key) <= Keys(cfg, tree[h].nodes[0])[0]
    requires h + 1 < |tree| ==> Keys(cfg, tree[h + 1].nodes[0])[0] <= cfg.rank(key)
    ensures var nd := tree[h].nodes[0];
            IsTree(cfg, root, tree[h := SetNode(tree[h], 0, Index(nd.pivots[0 := key], nd.children))])
  {
    hide Flat, Sorted, Between;
    var nd := tree[h].nodes[0];
    var nd' := Index(nd.pivots[0 := key], nd.children);
    var lists, r := KeyLists(cfg, tree[h].nodes), cfg.rank(key);
    assert LevelOk(cfg, h, tree[h]) && Linked(cfg, tree[h], tree[h - 1]);
    ListsAfterSet(cfg, tree[h].nodes, 0, nd');
    assert Keys(cfg, nd') == lists[0][0 := r];
    FlatLowered(lists, r);
    LowerFirst(Flat(lists), r, KeyLists(cfg, tree[h - 1].nodes));
    if h + 1 < |tree| {
      assert LevelOk(cfg, h + 1, tree[h + 1]) && Linked(cfg, tree[h + 1], tree[h]);
      FirstOfFlat(KeyLists(cfg, tree[h + 1].nodes));
      LowerInList(Flat(KeyLists(cfg, tree[h + 1].nodes)), lists, r);
    }
    TreeSetNode(cfg, root, tree, h, 0, nd');
  }

  lemma FlatLowered(lists: seq<seq<real>>, r: real)
    requires |lists| > 0 && |lists[0]| > 0
    ensures |Flat(lists)| > 0 && Flat(lists)[0] == lists[0][0]
    ensures Flat(lists[0 := lists[0][0 := r]]) == Flat(lists)[0 := r]
  {
    hide Flat;
    FirstOfFlat(lists);
    FlatUpdate(lists, 0, lists[0][0 := r]);
    FlatEmpty(lists);
    FlatAround(lists, 0);
  }

  lemma FirstOfFlat(lists: seq<seq<real>>)
    requires |lists| > 0 && |lists[0]| > 0
    ensures |Flat(lists)| > 0 && Flat(lists)[0] == lists[0][0]
  {
    FlatAround(lists, 0);
    FlatEmpty(lists);
  }

  lemma LowerInList(ks: seq<real>, lists: seq<seq<real>>, r: real)
    requires Between(ks, lists) && |lists| > 0 && ks[0] <= r <= lists[0][0]
    ensures Between(ks, lists[0 := lists[0][0 := r]])
  {
  }

  // ----------------------------------------------------- rewriting a leaf

  /** The target belongs to leaf n, and every pivot above it is at most the target. */
  ghost predicate LeafFor(cfg: DataConfig, tree: seq<Level>, n: nat, r: real)
    requires |tree| > 0
  {
    |tree| > 1 ==>
      var ks := Flat(KeyLists(cfg, tree[1].nodes));
      Covers(ks, n, r) && ks[n] <= r
  }

  lemma SetLeafAlone(cfg: DataConfig, l: Level, es: seq<Tuple>, key: Bytes, msg: Message)
    requires LevelOk(cfg, 0, l) && |l.addrs| == 1 && UpsertOf(cfg, l.nodes[0].entries, es, key, msg)
    ensures var l' := SetNode(l, 0, l.nodes[0].(entries := es));
      && Sorted(Flat(KeyLists(cfg, l'.nodes)))
      && UpsertOf(cfg, Flat(EntryLists(l.nodes)), Flat(EntryLists(l'.nodes)), key, msg)
  {
    hide Flat, Find, LevelOk;
    OneNode(cfg, l);
    var nd := l.nodes[0];
    var nd' := nd.(entries := es);
    assert l.nodes == [nd] && SetNode(l, 0, nd').nodes == [nd'];
    assert EntryLists([nd]) == [nd.entries] && EntryLists([nd']) == [es];
    assert KeyLists(cfg, [nd']) == [Keys(cfg, nd')];
    FlatSingle(nd.entries);
    FlatSingle(es);
    FlatSingle(Keys(cfg, nd'));
  }

  lemma SetLeafBelow(cfg: DataConfig, ks: seq<real>, l: Level, n: nat, es: seq<Tuple>, key: Bytes, msg: Message)
    requires LevelOk(cfg, 0, l) && n < |l.nodes| && UpsertOf(cfg, l.nodes[n].entries, es, key, msg)
    requires Sorted(ks) && Between(ks, KeyLists(cfg, l.nodes)) && Covers(ks, n, cfg.rank(key)) && ks[n] <= cfg.rank(key)
    ensures var l' := SetNode(l, n, l.nodes[n].(entries := es));
      && Sorted(Flat(KeyLists(cfg, l'.nodes))) && Between(ks, KeyLists(cfg, l'.nodes))
      && UpsertOf(cfg, Flat(EntryLists(l.nodes)), Flat(EntryLists(l'.nodes)), key, msg)
  {
    hide Flat, Find, LevelOk, Between, UpsertOf, Sorted, StrictlySorted, Covers;
    LeafLevel(cfg, l);
    var nodes' := l.nodes[n := l.nodes[n].(entries := es)];
    UpsertedLists(cfg, ks, l.nodes, n, es, key, msg);
    ListsAfterSet(cfg, l.nodes, n, l.nodes[n].(entries := es));
    SortedParts(ks, KeyLists(cfg, nodes'));
    LeafLevelBack(cfg, nodes');
    UpsertedContents(cfg, ks, l.nodes, n, es, key, msg);
  }

  /** Upserting into the covering leaf upserts into the whole tree. */
  lemma TreeSetLeaf(cfg: DataConfig, root: Addr, tree: seq<Level>, n: nat, es: seq<Tuple>, key: Bytes, msg: Message)
    requires IsTree(cfg, root, tree) && n < |tree[0].nodes|
    requires UpsertOf(cfg, tree[0].nodes[n].entries, es, key, msg)
    requires LeafFor(cfg, tree, n, cfg.rank(key))
    ensures var tree' := tree[0 := SetNode(tree[0], n, tree[0].nodes[n].(entries := es))];
            IsTree(cfg, root, tree') && UpsertOf(cfg, Contents(tree), Contents(tree'), key, msg)
  {
    hide Flat, LevelOk, Between, UpsertOf, Sorted, Covers;
    assert LevelOk(cfg, 0, tree[0]);
    LeafNodes(cfg, tree[0]);
    if |tree| == 1 {
      SetLeafAlone(cfg, tree[0], es, key, msg);
    } else {
      assert LevelOk(cfg, 1, tree[1]) && Linked(cfg, tree[1], tree[0]);
      LevelSorted(cfg, 1, tree[1]);
      SetLeafBelow(cfg, Flat(KeyLists(cfg, tree[1].nodes)), tree[0], n, es, key, msg);
    }
    TreeSetNode(cfg, root, tree, 0, n, tree[0].nodes[n].(entries := es));
  }

  lemma LeafNodes(cfg: DataConfig, l: Level)
    requires LevelOk(cfg, 0, l)
    ensures |l.addrs| == |l.nodes| && forall i :: 0 <= i < |l.nodes| ==> l.nodes[i].Leaf?
  {
    assert forall i :: 0 <= i < |l.nodes| ==> NodeOk(0, l.nodes[i]);
  }

  lemma LevelSorted(cfg: DataConfig, h: nat, l: Level)
    requires LevelOk(cfg, h, l)
    ensures Sorted(Flat(KeyLists(cfg, l.nodes)))
  {
  }

  lemma OneNode(cfg: DataConfig, l: Level)
    requires LevelOk(cfg, 0, l) && |l.addrs| == 1
    ensures |l.nodes| == 1 && l.nodes[0].Leaf?
  {
  }

  /** An upsert only adds its own key, and keeps the first key when it is the smaller one. */
  lemma UpsertKeys(cfg: DataConfig, es: seq<Tuple>, result: seq<Tuple>, key: Bytes, msg: Message)
    requires UpsertOf(cfg, es, result, key, msg) && StrictlySorted(cfg, es)
    ensures |result| > 0
    ensures forall j :: 0 <= j < |result| ==>
      cfg.rank(result[j].key) == cfg.rank(key) || HasRank(cfg, es, cfg.rank(result[j].key))
    ensures |es| > 0 && cfg.rank(es[0].key) <= cfg.rank(key) ==> cfg.rank(result[0].key) == cfg.rank(es[0].key)
  {
    hide Find;
    forall j | 0 <= j < |result|
      ensures cfg.rank(result[j].key) == cfg.rank(key) || HasRank(cfg, es, cfg.rank(result[j].key))
    {
      FindAt(cfg, result, j);
      FindRank(cfg, es, cfg.rank(result[j].key));
    }
    FindRank(cfg, result, cfg.rank(key));
    if |es| > 0 && cfg.rank(es[0].key) <= cfg.rank(key) {
      FindAt(cfg, es, 0);
      FindRank(cfg, result, cfg.rank(es[0].key));
      var i :| 0 <= i < |result| && cfg.rank(result[i].key) == cfg.rank(es[0].key);
      assert cfg.rank(result[0].key) <= cfg.rank(es[0].key);
    }
  }

  ghost predicate HasRank(cfg: DataConfig, es: seq<Tuple>, r: real) {
    exists i :: 0 <= i < |es| && cfg.rank(es[i].key) == r
  }

  lemma FindRank(cfg: DataConfig, es: seq<Tuple>, r: real)
    ensures Find(cfg, es, r).Some? ==> HasRank(cfg, es, r)
  {
    if !HasRank(cfg, es, r) {
      FindNowhere(cfg, es, r);
    }
  }

  lemma UpsertedLists(cfg: DataConfig, ks: seq<real>, nodes: seq<Node>, n: nat, es: seq<Tuple>, key: Bytes,
      msg: Message)
    requires n < |nodes| && nodes[n].Leaf? && Between(ks, KeyLists(cfg, nodes))
    requires Covers(ks, n, cfg.rank(key)) && ks[n] <= cfg.rank(key)
    requires StrictlySorted(cfg, nodes[n].entries) && UpsertOf(cfg, nodes[n].entries, es, key, msg)
    ensures Between(ks, KeyLists(cfg, nodes[n := nodes[n].(entries := es)]))
    ensures Sorted(Keys(cfg, nodes[n].(entries := es)))
  {
    hide Find;
    var nd' := nodes[n].(entries := es);
    var lists := KeyLists(cfg, nodes);
    var lists' := KeyLists(cfg, nodes[n := nd']);
    ListsAfterSet(cfg, nodes, n, nd');
    UpsertKeys(cfg, nodes[n].entries, es, key, msg);
    forall j | 0 <= j < |es|
      ensures ks[n] <= lists'[n][j] && (n + 1 < |ks| ==> lists'[n][j] < ks[n + 1])
    {
      if cfg.rank(es[j].key) != cfg.rank(key) {
        var i :| 0 <= i < |nodes[n].entries| && cfg.rank(nodes[n].entries[i].key) == cfg.rank(es[j].key);
        assert lists[n][i] == lists'[n][j];
      }
    }
    if n > 0 {
      assert lists[n][0] == ks[n];
    }
  }

  lemma UpsertedContents(cfg: DataConfig, ks: seq<real>, nodes: seq<Node>, n: nat, es: seq<Tuple>, key: Bytes,
                         msg: Message)
    requires n < |nodes| && (forall i :: 0 <= i < |nodes| ==> nodes[i].Leaf?) && Sorted(ks)
    requires var nodes' := nodes[n := nodes[n].(entries := es)];
      && Between(ks, KeyLists(cfg, nodes)) && Between(ks, KeyLists(cfg, nodes'))
      && StrictlySorted(cfg, Flat(EntryLists(nodes))) && StrictlySorted(cfg, Flat(EntryLists(nodes')))
      && forall i :: 0 <= i < |nodes| ==> StrictlySorted(cfg, nodes[i].entries)
    requires Covers(ks, n, cfg.rank(key)) && UpsertOf(cfg, nodes[n].entries, es, key, msg)
    ensures UpsertOf(cfg, Flat(EntryLists(nodes)), Flat(EntryLists(nodes[n := nodes[n].(entries := es)])), key, msg)
  {
    hide Flat, Find, Between;
    var nodes' := nodes[n := nodes[n].(entries := es)];
    var all, all' := Flat(EntryLists(nodes)), Flat(EntryLists(nodes'));
    forall r ensures Find(cfg, all', r)
                  == if r == cfg.rank(key) then Some(Upserted(cfg, key, Find(cfg, all, r), msg)) else Find(cfg, all, r)
    {
      var i := n;
      if !Covers(ks, n, r) {
        i := CoverExists(ks, r, |ks| - 1);
      }
      LengthOf(ks, KeyLists(cfg, nodes));
      FindInLeaf(cfg, ks, nodes, i, r);
      FindInLeaf(cfg, ks, nodes', i, r);
    }
  }

  lemma LengthOf(ks: seq<real>, lists: seq<seq<real>>)
    requires Between(ks, lists)
    ensures |ks| == |lists|
  {
  }

  /** The keys of a level of leaves are the keys of their entries. */
  lemma {:induction false} FlatKeys(cfg: DataConfig, nodes: seq<Node>)
    requires forall i :: 0 <= i < |nodes| ==> nodes[i].Leaf?
    ensures |Flat(KeyLists(cfg, nodes))| == |Flat(EntryLists(nodes))|
    ensures forall k :: 0 <= k < |Flat(EntryLists(nodes))| ==>
      Flat(KeyLists(cfg, nodes))[k] == cfg.rank(Flat(EntryLists(nodes))[k].key)
  {
    if |nodes| > 0 {
      var init := nodes[..|nodes| - 1];
      FlatKeys(cfg, init);
      assert KeyLists(cfg, nodes)[..|init|] == KeyLists(cfg, init);
      assert EntryLists(nodes)[..|init|] == EntryLists(init);
    }
  }

  lemma LeafLevel(cfg: DataConfig, l: Level)
    requires LevelOk(cfg, 0, l)
    ensures forall i :: 0 <= i < |l.nodes| ==> l.nodes[i].Leaf?
    ensures StrictlySorted(cfg, Flat(EntryLists(l.nodes)))
    ensures forall i :: 0 <= i < |l.nodes| ==> StrictlySorted(cfg, l.nodes[i].entries)
    ensures forall i :: 0 <= i < |l.nodes| ==> Sorted(KeyLists(cfg, l.nodes)[i])
  {
    hide Flat;
    assert forall i :: 0 <= i < |l.nodes| ==> NodeOk(0, l.nodes[i]);
    FlatKeys(cfg, l.nodes);
    forall i | 0 <= i < |l.nodes|
      ensures StrictlySorted(cfg, l.nodes[i].entries) && Sorted(KeyLists(cfg, l.nodes)[i])
    {
      SortedPart(KeyLists(cfg, l.nodes), i);
      KeysSorted(cfg, l.nodes[i]);
    }
  }

  /** Each list of a sorted concatenation is sorted. */
  lemma SortedPart(lists: seq<seq<real>>, i: nat)
    requires i < |lists| && Sorted(Flat(lists))
    ensures Sorted(lists[i])
  {
    hide Flat;
    FlatAround(lists, i);
    forall j, k | 0 <= j < k < |lists[i]| ensures lists[i][j] < lists[i][k] {
      assert Flat(lists)[Offset(lists, i) + j] == lists[i][j] && Flat(lists)[Offset(lists, i) + k] == lists[i][k];
    }
  }

  lemma KeysSorted(cfg: DataConfig, nd: Node)
    requires nd.Leaf? && Sorted(Keys(cfg, nd))
    ensures StrictlySorted(cfg, nd.entries)
  {
    forall j, k | 0 <= j < k < |nd.entries| ensures cfg.rank(nd.entries[j].key) < cfg.rank(nd.entries[k].key) {
      assert Keys(cfg, nd)[j] < Keys(cfg, nd)[k];
    }
  }

  lemma LeafLevelBack(cfg: DataConfig, nodes: seq<Node>)
    requires (forall i :: 0 <= i < |nodes| ==> nodes[i].Leaf?) && Sorted(Flat(KeyLists(cfg, nodes)))
    ensures StrictlySorted(cfg, Flat(EntryLists(nodes)))
  {
    hide Flat;
    FlatKeys(cfg, nodes);
  }
}
