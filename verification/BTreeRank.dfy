/** Rank queries on packed B-trees (src/btree.c). */
module BTreeRank {
  import opened DataModel
  import opened KeyOrder
  import opened Concatenation
  import opened PackedTree
  import opened KeySearch
  import LeafInsert
  import BTreeInsert

  function PivotKeys(pivots: seq<Pivot>): seq<Bytes> {
    seq(|pivots|, i requires 0 <= i < |pivots| => pivots[i].key)
  }

  /** The child a descent takes for the target. */
  ghost predicate Chosen(cfg: DataConfig, pivots: seq<Pivot>, target: Key, c: nat) {
    && c < |pivots|
    && (c > 0 ==> Le(cfg, User(pivots[c].key), target))
    && (c + 1 < |pivots| ==> Lt(cfg, target, User(pivots[c + 1].key)))
  }

  /** Where child c's tuples lie among its parent's. */
  lemma ChildSlice(nd: Node, h: nat, c: nat)
    requires TreeOk(nd, h) && nd.Index? && c < |nd.pivots|
    ensures var o := Offset(TupleLists(nd.pivots), c); var ts := Tuples(nd.pivots[c].child);
      && o + |ts| == Offset(TupleLists(nd.pivots), c + 1) <= |Tuples(nd)| && Tuples(nd)[o..o + |ts|] == ts
      && ts != [] && nd.pivots[c].key == Tuples(nd)[o].key && nd.pivots[c].stats == Total(ts)
  {
    hide Flat;
    var lists := TupleLists(nd.pivots);
    assert PivotOk(nd.pivots[c]);
    FlatAround(lists, c);
    assert Tuples(nd) == Flat(lists) && lists[c] == Tuples(nd.pivots[c].child);
  }

  lemma PivotsSorted(cfg: DataConfig, nd: Node, h: nat)
    requires TreeOk(nd, h) && nd.Index? && StrictlySorted(cfg, Tuples(nd))
    ensures var ks := PivotKeys(nd.pivots); forall i, j :: 0 <= i < j < |ks| ==> cfg.rank(ks[i]) < cfg.rank(ks[j])
  {
    var ks, lists := PivotKeys(nd.pivots), TupleLists(nd.pivots);
    forall i, j | 0 <= i < j < |ks| ensures cfg.rank(ks[i]) < cfg.rank(ks[j]) {
      ChildSlice(nd, h, i);
      ChildSlice(nd, h, j);
      OffsetMonotone(lists, i + 1, j);
      hide Flat, Tuples, TreeOk;
    }
  }

  /** The split point lies within the chosen child. */
  lemma ChosenHolds(cfg: DataConfig, nd: Node, h: nat, target: Key, c: nat, n: nat)
    requires TreeOk(nd, h) && nd.Index? && StrictlySorted(cfg, Tuples(nd))
    requires Chosen(cfg, nd.pivots, target, c) && Splits(cfg, Tuples(nd), target, n)
    ensures Offset(TupleLists(nd.pivots), c) <= n <= Offset(TupleLists(nd.pivots), c + 1)
  {
    var ts, lists := Tuples(nd), TupleLists(nd.pivots);
    var lo, hi := Offset(lists, c), Offset(lists, c + 1);
    ChildSlice(nd, h, c);
    if c + 1 < |nd.pivots| {
      ChildSlice(nd, h, c + 1);
    } else {
      assert lists[..c + 1] == lists;
    }
    if c == 0 {
      assert lists[..0] == [];
    }
    hide Flat, Tuples, TreeOk, TupleLists;
    if c > 0 {
      BelowPivot(cfg, ts, target, n, lo);
    }
    if c + 1 < |nd.pivots| {
      AbovePivot(cfg, ts, target, n, hi);
    }
  }

  lemma LtLe(cfg: DataConfig, a: Key, b: Key, c: Key)
    ensures Lt(cfg, a, b) && Le(cfg, b, c) ==> Lt(cfg, a, c)
    ensures Le(cfg, a, b) && Lt(cfg, b, c) ==> Lt(cfg, a, c)
    ensures Lt(cfg, a, b) <==> !Le(cfg, b, a)
  {
  }

  lemma BelowPivot(cfg: DataConfig, ts: seq<Tuple>, target: Key, n: nat, lo: nat)
    requires StrictlySorted(cfg, ts) && Splits(cfg, ts, target, n) && lo < |ts| && Le(cfg, User(ts[lo].key), target)
    ensures lo <= n
  {
    if lo > 0 {
      var i := lo - 1;
      LtLe(cfg, User(ts[i].key), User(ts[lo].key), target);
      SplitsAt(cfg, ts, target, n, i);
    }
  }

  lemma AbovePivot(cfg: DataConfig, ts: seq<Tuple>, target: Key, n: nat, hi: nat)
    requires StrictlySorted(cfg, ts) && Splits(cfg, ts, target, n) && hi < |ts| && Lt(cfg, target, User(ts[hi].key))
    ensures n <= hi
  {
    LtLe(cfg, target, User(ts[hi].key), target);
    LtLe(cfg, User(ts[hi].key), target, target);
  }

  /** Every target splits a sorted list. */
  lemma {:induction false} SplitExists(cfg: DataConfig, ts: seq<Tuple>, target: Key) returns (n: nat)
    requires StrictlySorted(cfg, ts)
    ensures Splits(cfg, ts, target, n)
  {
    if ts == [] {
      n := 0;
    } else {
      var m := |ts| - 1;
      var k := SplitExists(cfg, ts[..m], target);
      LeTotal(cfg, User(ts[m].key), target);
      LeTotal(cfg, target, User(ts[m].key));
      assert forall i :: 0 <= i < m ==> ts[..m][i] == ts[i];
      if Lt(cfg, User(ts[m].key), target) {
        n := m + 1;
        forall i | 0 <= i < m ensures Lt(cfg, User(ts[i].key), target) {
          LtLe(cfg, User(ts[i].key), User(ts[m].key), target);
        }
      } else {
        n := k;
      }
    }
  }

  // ------------------------------------------------------------------- queries

  lemma MeasuredFrom(stats: Stats, r: Stats, part: seq<Tuple>)
    requires r == Plus(stats, Total(part))
    ensures stats == NO_STATS ==> Measures(r, part)
  {
    hide Total, Measures;
    TotalMeasures(part);
  }

  /** The totals of the first c children. */
  method AccumulateNodeRanks(pivots: seq<Pivot>, c: nat, stats: Stats, ghost nd: Node, ghost h: nat, ghost all: Stats)
    returns (r: Stats)
    requires TreeOk(nd, h) && nd.Index? && nd.pivots == pivots && c <= |pivots|
    requires Known(all) && AtMost(Plus(stats, Total(Tuples(nd))), all)
    ensures Offset(TupleLists(pivots), c) <= |Tuples(nd)|
    ensures r == Plus(stats, Total(Tuples(nd)[..Offset(TupleLists(pivots), c)]))
    ensures stats == NO_STATS ==> Measures(r, Tuples(nd)[..Offset(TupleLists(pivots), c)])
  {
    hide Total, Flat, Tuples, TreeOk, TupleLists, Measures, PivotOk;
    ghost var ts, lists := Tuples(nd), TupleLists(pivots);
    r := stats;
    OffsetMonotone(lists, 0, c);
    assert lists[..0] == [] && ts[..0] == [];
    FlatOfNone<Tuple>();
    for i := 0 to c
      invariant Offset(lists, i) <= |ts| && r == Plus(stats, Total(ts[..Offset(lists, i)]))
    {
      ChildSlice(nd, h, i);
      TotalOfPart(ts, Offset(lists, i), Offset(lists, i + 1));
      TotalOfPart(ts, 0, Offset(lists, i + 1));
      assert ts[0..Offset(lists, i + 1)] == ts[..Offset(lists, i + 1)];
      AccumulateExact(r, pivots[i].stats);
      r := Accumulate(r, pivots[i].stats);
    }
    MeasuredFrom(stats, r, ts[..Offset(lists, c)]);
  }

  lemma FlatOfNone<T>()
    ensures Flat<T>([]) == [] && Total([]) == NO_STATS
  {
  }

  /** btree_find_pivot, with the first child standing in for none and the last for positive infinity */
  method ChooseChild(cfg: DataConfig, nd: Node, target: Key, ghost h: nat) returns (c: nat)
    requires TreeOk(nd, h) && nd.Index? && StrictlySorted(cfg, Tuples(nd))
    ensures Chosen(cfg, nd.pivots, target, c)
  {
    var ks := PivotKeys(nd.pivots);
    if target.PositiveInfinity? {
      c := |nd.pivots| - 1;
    } else if target.NegativeInfinity? {
      c := 0;
    } else {
      PivotsSorted(cfg, nd, h);
      var idx, found := FindKey(cfg, ks, target.bytes);
      c := if idx < 0 then 0 else idx;
      assert ks[c] == nd.pivots[c].key && (c + 1 < |ks| ==> ks[c + 1] == nd.pivots[c + 1].key);
    }
  }

  /** btree_find_tuple: how many of a leaf's tuples are below the target */
  method RankInLeaf(cfg: DataConfig, es: seq<Tuple>, target: Key) returns (n: nat)
    requires StrictlySorted(cfg, es)
    ensures Splits(cfg, es, target, n)
  {
    if target.PositiveInfinity? {
      n := |es|;
    } else if target.NegativeInfinity? {
      n := 0;
    } else {
      var idx, found := BTreeInsert.FindEntry(cfg, es, target.bytes);
      n := if found then idx else idx + 1;
    }
  }

  lemma PartSorted(cfg: DataConfig, all: seq<Tuple>, target: Key, n: nat, lo: nat, hi: nat)
    requires StrictlySorted(cfg, all) && Splits(cfg, all, target, n) && lo <= n <= hi <= |all|
    ensures StrictlySorted(cfg, all[lo..hi]) && Splits(cfg, all[lo..hi], target, n - lo)
  {
    var part := all[lo..hi];
    assert forall i :: 0 <= i < |part| ==> part[i] == all[lo + i];
  }

  lemma SplitsUnique(cfg: DataConfig, ts: seq<Tuple>, target: Key, n: nat, m: nat)
    requires Splits(cfg, ts, target, n) && Splits(cfg, ts, target, m)
    ensures n == m
  {
    hide Le, Lt;
    if n < |ts| {
      SplitsAt(cfg, ts, target, n, n);
      SplitsAt(cfg, ts, target, m, n);
    }
    if m < |ts| {
      SplitsAt(cfg, ts, target, n, m);
      SplitsAt(cfg, ts, target, m, m);
    }
  }

  lemma ChildOk(cfg: DataConfig, nd: Node, h: nat, c: nat)
    requires TreeOk(nd, h) && nd.Index? && c < |nd.pivots|
    ensures h > 0 && TreeOk(nd.pivots[c].child, h - 1)
  {
  }

  /** The totals up to child c, given those up to the node. */
  lemma RankAtChild(all: seq<Tuple>, lo: nat, nd: Node, o: nat)
    requires lo + |Tuples(nd)| <= |all| && all[lo..lo + |Tuples(nd)|] == Tuples(nd) && o <= |Tuples(nd)|
    ensures Total(all[..lo + o]) == Plus(Total(all[..lo]), Total(Tuples(nd)[..o]))
  {
    hide Total, Tuples;
    TotalOfPart(all, lo, lo + o);
    assert all[lo..lo + o] == Tuples(nd)[..o];
  }

  /** accumulate_node_ranks in a leaf */
  method AccumulateLeafRanks(es: seq<Tuple>, n: nat, stats: Stats, ghost all: Stats) returns (r: Stats)
    requires n <= |es| && Known(all) && AtMost(Plus(stats, Total(es)), all)
    ensures r == Plus(stats, Total(es[..n]))
  {
    hide Total;
    var keyBytes, messageBytes := stats.keyBytes, stats.messageBytes;
    assert es[..0] == [];
    FlatOfNone<Tuple>();
    for i := 0 to n
      invariant keyBytes == stats.keyBytes + Total(es[..i]).keyBytes
      invariant messageBytes == stats.messageBytes + Total(es[..i]).messageBytes
    {
      TotalAdds(es[..i], es[i]);
      assert es[..i] + [es[i]] == es[..i + 1];
      TotalOfPart(es, 0, i + 1);
      assert es[0..i + 1] == es[..i + 1];
      keyBytes := AddUnknown(keyBytes, |es[i].key|);
      messageBytes := AddUnknown(messageBytes, |es[i].msg.data|);
    }
    TotalCounts(es[..n]);
    r := Stats(stats.numKvs + n, keyBytes, messageBytes);
  }

  /** btree_get_rank: the totals of the tuples below the target. */
  method GetRank(cfg: DataConfig, root: Node, target: Key, ghost height: nat)
    returns (stats: Stats, ghost n: nat)
    requires TreeOk(root, height) && StrictlySorted(cfg, Tuples(root)) && Known(Total(Tuples(root)))
    ensures Splits(cfg, Tuples(root), target, n) && stats == Total(Tuples(root)[..n])
    ensures stats == Total(Within(cfg, Tuples(root), NegativeInfinity, target))
    ensures Measures(stats, Within(cfg, Tuples(root), NegativeInfinity, target))
  {
    hide Total, Flat, Tuples, TreeOk, Splits, StrictlySorted, TupleLists, Within, Measures, Known;
    ghost var all := Tuples(root);
    n := SplitExists(cfg, all, target);
    SplitsInside(cfg, all, target, n);
    BelowTarget(cfg, all, target, n);
    var node := root;
    ghost var h, lo: nat := height, 0;
    stats := NO_STATS;
    FlatOfNone<Tuple>();
    assert all[..0] == [] && all[0..|all|] == all;
    while node.Index?
      invariant TreeOk(node, h) && lo + |Tuples(node)| <= |all| && all[lo..lo + |Tuples(node)|] == Tuples(node)
      invariant lo <= n <= lo + |Tuples(node)| && stats == Total(all[..lo])
      decreases h
    {
      node, stats, h, lo := GoDown(cfg, node, target, stats, all, h, lo, n);
    }
    ghost var ts := Tuples(node);
    LeafTuples(node);
    PartSorted(cfg, all, target, n, lo, lo + |ts|);
    var m := RankInLeaf(cfg, node.entries, target);
    SplitsUnique(cfg, ts, target, n - lo, m);
    NodeTotals(all, lo, node);
    stats := AccumulateLeafRanks(node.entries, m, stats, Total(all));
    RankAtChild(all, lo, node, m);
  }

  /** One node of the descent. */
  method GoDown(cfg: DataConfig, node: Node, target: Key, stats: Stats, ghost all: seq<Tuple>, ghost h: nat,
                ghost lo: nat, ghost n: nat)
    returns (child: Node, stats': Stats, ghost h': nat, ghost lo': nat)
    requires node.Index? && TreeOk(node, h) && lo + |Tuples(node)| <= |all|
    requires all[lo..lo + |Tuples(node)|] == Tuples(node) && lo <= n <= lo + |Tuples(node)|
    requires stats == Total(all[..lo]) && Splits(cfg, all, target, n) && StrictlySorted(cfg, all) && Known(Total(all))
    ensures h' < h && TreeOk(child, h') && lo' + |Tuples(child)| <= |all|
    ensures all[lo'..lo' + |Tuples(child)|] == Tuples(child) && lo' <= n <= lo' + |Tuples(child)|
    ensures stats' == Total(all[..lo'])
  {
    hide Total, Flat, Tuples, TreeOk, Splits, StrictlySorted, TupleLists, Known, Measures;
    ghost var ts := Tuples(node);
    PartSorted(cfg, all, target, n, lo, lo + |ts|);
    var c := ChooseChild(cfg, node, target, h);
    ghost var o := Offset(TupleLists(node.pivots), c);
    ChosenHolds(cfg, node, h, target, c, n - lo);
    ChildSlice(node, h, c);
    NodeTotals(all, lo, node);
    stats' := AccumulateNodeRanks(node.pivots, c, stats, node, h, Total(all));
    RankAtChild(all, lo, node, o);
    ChildOk(cfg, node, h, c);
    SliceOfSlice(all, lo, ts, o, Tuples(node.pivots[c].child));
    child, lo', h' := node.pivots[c].child, lo + o, h - 1;
  }

  lemma NodeTotals(all: seq<Tuple>, lo: nat, node: Node)
    requires lo + |Tuples(node)| <= |all| && all[lo..lo + |Tuples(node)|] == Tuples(node)
    ensures AtMost(Plus(Total(all[..lo]), Total(Tuples(node))), Total(all))
  {
    hide Total, Tuples;
    var hi := lo + |Tuples(node)|;
    TotalOfPart(all, lo, hi);
    TotalOfPart(all, 0, hi);
    assert all[0..hi] == all[..hi];
  }

  /** The first n tuples are those below the target. */
  lemma BelowTarget(cfg: DataConfig, ts: seq<Tuple>, target: Key, n: nat)
    requires Splits(cfg, ts, target, n) && n <= |ts|
    ensures Within(cfg, ts, NegativeInfinity, target) == ts[..n]
    ensures Measures(Total(ts[..n]), Within(cfg, ts, NegativeInfinity, target))
  {
    hide Total, Measures, Splits;
    NothingBelow(cfg, ts);
    WithinIsSlice(cfg, ts, NegativeInfinity, target, 0, n);
    TotalMeasures(ts[..n]);
  }

  lemma NothingBelow(cfg: DataConfig, ts: seq<Tuple>)
    ensures Splits(cfg, ts, NegativeInfinity, 0)
  {
  }

  lemma SplitsInside(cfg: DataConfig, ts: seq<Tuple>, target: Key, n: nat)
    requires Splits(cfg, ts, target, n)
    ensures n <= |ts|
  {
  }

  lemma LeafTuples(nd: Node)
    requires nd.Leaf?
    ensures Tuples(nd) == nd.entries
  {
  }

  lemma SliceOfSlice(all: seq<Tuple>, lo: nat, ts: seq<Tuple>, o: nat, part: seq<Tuple>)
    requires lo + |ts| <= |all| && all[lo..lo + |ts|] == ts && o + |part| <= |ts| && ts[o..o + |part|] == part
    ensures all[lo + o..lo + o + |part|] == part
  {
    var x := all[lo + o..lo + o + |part|];
    forall i | 0 <= i < |part| ensures x[i] == part[i] {
      assert all[lo..lo + |ts|][o + i] == all[lo + o + i];
      assert ts[o..o + |part|][i] == ts[o + i];
    }
  }

  /** btree_count_in_range: exactly the tuples with minKey <= key < maxKey, and their bytes. */
  method CountInRange(cfg: DataConfig, root: Node, minKey: Key, maxKey: Key, ghost height: nat)
    returns (stats: Stats)
    requires TreeOk(root, height) && StrictlySorted(cfg, Tuples(root)) && Known(Total(Tuples(root)))
    ensures stats == Total(Within(cfg, Tuples(root), minKey, maxKey))
    ensures Measures(stats, Within(cfg, Tuples(root), minKey, maxKey))
  {
    hide Total, Tuples, TreeOk, Splits, StrictlySorted, Within, Measures;
    ghost var all := Tuples(root);
    ghost var a: nat, b: nat;
    var minStats;
    minStats, a := GetRank(cfg, root, minKey, height);
    stats, b := GetRank(cfg, root, maxKey, height);
    SplitsInside(cfg, all, minKey, a);
    SplitsInside(cfg, all, maxKey, b);
    WithinIsSlice(cfg, all, minKey, maxKey, a, b);
    TotalMeasures(Within(cfg, all, minKey, maxKey));
    TotalCounts(all[..a]);
    TotalCounts(all[..b]);
    FlatOfNone<Tuple>();
    if minStats.numKvs < stats.numKvs {
      TotalOfPart(all, a, b);
      stats := Stats(stats.numKvs - minStats.numKvs, stats.keyBytes - minStats.keyBytes,
                     stats.messageBytes - minStats.messageBytes);
    } else {
      stats := NO_STATS;
      assert a == b ==> all[a..b] == [];
    }
  }
}
