/** The shape of a B-tree, level by level: the child lists of one level spell out the level below, and the
    pivots of one level separate the keys of the level below. */
module BTreeShape {
  import opened DataModel
  import opened Concatenation
  import opened LeafInsert

  type Addr = nat  // 0 is the null address

  datatype Node =
    | Leaf(entries: seq<Tuple>, prev: Addr, next: Addr)
    | Index(pivots: seq<Bytes>, children: seq<Addr>)

  /** All nodes of one height, left to right. */
  datatype Level = Level(addrs: seq<Addr>, nodes: seq<Node>)

  function Keys(cfg: DataConfig, nd: Node): (ks: seq<real>)
    ensures |ks| == if nd.Leaf? then |nd.entries| else |nd.pivots|
  {
    if nd.Leaf? then seq(|nd.entries|, i requires 0 <= i < |nd.entries| => cfg.rank(nd.entries[i].key))
    else seq(|nd.pivots|, i requires 0 <= i < |nd.pivots| => cfg.rank(nd.pivots[i]))
  }

  function Children(nd: Node): seq<Addr> {
    if nd.Leaf? then [] else nd.children
  }

  function Entries(nd: Node): seq<Tuple> {
    if nd.Leaf? then nd.entries else []
  }

  function KeyLists(cfg: DataConfig, nodes: seq<Node>): (r: seq<seq<real>>)
    ensures |r| == |nodes|
  {
    seq(|nodes|, i requires 0 <= i < |nodes| => Keys(cfg, nodes[i]))
  }

  function ChildLists(nodes: seq<Node>): (r: seq<seq<Addr>>)
    ensures |r| == |nodes|
  {
    seq(|nodes|, i requires 0 <= i < |nodes| => Children(nodes[i]))
  }

  function EntryLists(nodes: seq<Node>): (r: seq<seq<Tuple>>)
    ensures |r| == |nodes|
  {
    seq(|nodes|, i requires 0 <= i < |nodes| => Entries(nodes[i]))
  }

  ghost predicate Sorted(ks: seq<real>) {
    forall i, j :: 0 <= i < j < |ks| ==> ks[i] < ks[j]
  }

  /** Pivot i is at most every key of list i, and equals its first key off the left spine; the next pivot is
      above every key of list i. */
  ghost predicate Between(ks: seq<real>, lists: seq<seq<real>>) {
    && |ks| == |lists|
    && (forall i :: 0 <= i < |lists| ==> |lists[i]| > 0)
    && (forall i :: 0 < i < |lists| ==> ks[i] == lists[i][0])
    && (forall i, j :: 0 <= i < |lists| && 0 <= j < |lists[i]| ==> ks[i] <= lists[i][j])
    && (forall i, j :: 0 <= i < |lists| - 1 && 0 <= j < |lists[i]| ==> lists[i][j] < ks[i + 1])
  }

  ghost predicate LevelOk(cfg: DataConfig, h: nat, l: Level) {
    && |l.addrs| == |l.nodes| > 0
    && (forall i :: 0 <= i < |l.nodes| ==> NodeOk(h, l.nodes[i]))
    && Sorted(Flat(KeyLists(cfg, l.nodes)))
  }

  ghost predicate NodeOk(h: nat, nd: Node) {
    if h == 0 then nd.Leaf? else nd.Index? && |nd.pivots| == |nd.children| > 0
  }

  ghost predicate Linked(cfg: DataConfig, upper: Level, lower: Level) {
    && Flat(ChildLists(upper.nodes)) == lower.addrs
    && Between(Flat(KeyLists(cfg, upper.nodes)), KeyLists(cfg, lower.nodes))
  }

  /** The sibling pointers of the leaves. */
  ghost predicate Chained(l: Level) {
    && |l.addrs| == |l.nodes|
    && forall i :: 0 <= i < |l.nodes| ==>
      && l.nodes[i].Leaf?
      && l.nodes[i].prev == (if i == 0 then 0 else l.addrs[i - 1])
      && l.nodes[i].next == (if i == |l.nodes| - 1 then 0 else l.addrs[i + 1])
  }

  ghost predicate IsTree(cfg: DataConfig, root: Addr, tree: seq<Level>) {
    && |tree| > 0 && tree[|tree| - 1].addrs == [root]
    && (forall h :: 0 <= h < |tree| ==> LevelOk(cfg, h, tree[h]))
    && (forall h :: 0 < h < |tree| ==> Linked(cfg, tree[h], tree[h - 1]))
    && Chained(tree[0])
  }

  /** Everything the tree stores, in key order. */
  ghost function Contents(tree: seq<Level>): seq<Tuple>
    requires |tree| > 0
  {
    Flat(EntryLists(tree[0].nodes))
  }

  // ------------------------------------------------------------- descent

  /** Target r belongs below pivot n of a level, or of a node: the first pivot also takes everything smaller. */
  ghost predicate Covers(ks: seq<real>, n: nat, r: real) {
    && n < |ks|
    && (n > 0 ==> ks[n] <= r)
    && (n + 1 < |ks| ==> r < ks[n + 1])
  }

  /** Choosing a child in the right node picks the right node one level down. */
  lemma Descend(cfg: DataConfig, above: seq<real>, lists: seq<seq<real>>, n: nat, c: nat, r: real)
    requires Between(above, lists) && Covers(above, n, r) && Covers(lists[n], c, r)
    ensures Covers(Flat(lists), Offset(lists, n) + c, r)
  {
    hide Flat;
    FlatAround(lists, n);
    var ks, g := Flat(lists), Offset(lists, n) + c;
    if c == 0 && n > 0 {
      assert ks[g] == lists[n][0] == above[n];
    } else if c == 0 {
      assert lists[..0] == [];
      assert Flat(lists[..0]) == [] by { FlatEmpty(lists); }
    }
    if g + 1 < |ks| && c + 1 == |lists[n]| {
      if n + 1 < |lists| {
        FlatAround(lists, n + 1);
        assert ks[g + 1] == lists[n + 1][0] == above[n + 1];
      } else {
        assert lists[n + 1..] == [];
        FlatNone(lists[n + 1..]);
      }
    }
  }

  lemma FlatEmpty<T>(xs: seq<seq<T>>)
    ensures Flat(xs[..0]) == []
  {
  }

  lemma FlatNone<T>(xs: seq<seq<T>>)
    requires |xs| == 0
    ensures Flat(xs) == []
  {
  }

  /** Only the covering leaf can hold the target. */
  lemma FindInLeaf(cfg: DataConfig, ks: seq<real>, nodes: seq<Node>, n: nat, r: real)
    requires Between(ks, KeyLists(cfg, nodes)) && Sorted(ks) && Covers(ks, n, r)
    requires forall i :: 0 <= i < |nodes| ==> nodes[i].Leaf?
    requires StrictlySorted(cfg, Flat(EntryLists(nodes))) && StrictlySorted(cfg, nodes[n].entries)
    ensures Find(cfg, Flat(EntryLists(nodes)), r) == Find(cfg, nodes[n].entries, r)
  {
    hide Flat, Find;
    var lists := EntryLists(nodes);
    var all := Flat(lists);
    FlatAround(lists, n);
    var here: seq<Tuple> := nodes[n].entries;
    if j :| 0 <= j < |here| && cfg.rank(here[j].key) == r {
      FindAt(cfg, lists[n], j);
      FindAt(cfg, all, Offset(lists, n) + j);
    } else {
      FindNowhere(cfg, lists[n], r);
      forall k | 0 <= k < |all| ensures cfg.rank(all[k].key) != r {
        var i, j := FlatSource(lists, k);
        assert KeyLists(cfg, nodes)[i][j] == cfg.rank(all[k].key);
        if i < n {
          assert KeyLists(cfg, nodes)[i][j] < ks[i + 1] <= ks[n];
        } else if n < i {
          assert r < ks[n + 1] <= ks[i] <= KeyLists(cfg, nodes)[i][j];
        }
      }
      FindNowhere(cfg, all, r);
    }
  }

  /** Some list covers any target. */
  lemma {:induction false} CoverExists(ks: seq<real>, r: real, k: nat) returns (n: nat)
    requires k < |ks| && (k + 1 < |ks| ==> r < ks[k + 1])
    ensures Covers(ks, n, r)
  {
    if k > 0 && r < ks[k] {
      n := CoverExists(ks, r, k - 1);
    } else {
      n := k;
    }
  }

  /** Lists that are sorted and separated make up a sorted list. */
  lemma SortedParts(ks: seq<real>, lists: seq<seq<real>>)
    requires Between(ks, lists) && Sorted(ks)
    requires forall i :: 0 <= i < |lists| ==> Sorted(lists[i])
    ensures Sorted(Flat(lists))
  {
    hide Flat;
    var all := Flat(lists);
    forall a, b | 0 <= a < b < |all| ensures all[a] < all[b] {
      var i, j := FlatSource(lists, a);
      var k, l := FlatSource(lists, b);
      if i < k {
        assert lists[i][j] < ks[i + 1] <= ks[k] <= lists[k][l];
      } else if k < i {
        OffsetMonotone(lists, k + 1, i);
        FlatAround(lists, k);
        assert false;
      }
    }
  }
}
