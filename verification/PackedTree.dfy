/** Packed B-trees: every pivot carries the number of tuples below it and their bytes (src/btree.c, src/btree.h).
    A linked child never changes again, so a pivot holds the child itself. */
module PackedTree {
  import opened DataModel
  import opened KeyOrder
  import opened Concatenation
  import opened KeySearch

  type Addr = nat  // 0 is the null address

  const BTREE_UNKNOWN_COUNTER: nat := 0x7fff_ffff

  /** Counters of 32 bits. */
  datatype Stats = Stats(numKvs: nat, keyBytes: nat, messageBytes: nat)

  datatype Pivot = Pivot(key: Bytes, child: Node, stats: Stats)
  datatype Node = Leaf(addr: Addr, entries: seq<Tuple>) | Index(addr: Addr, pivots: seq<Pivot>)

  const NO_STATS := Stats(0, 0, 0)

  function AddUnknown(a: nat, b: nat): nat {
    if a != BTREE_UNKNOWN_COUNTER && b != BTREE_UNKNOWN_COUNTER then (a + b) % 0x1_0000_0000
    else BTREE_UNKNOWN_COUNTER
  }

  /** btree_accumulate_pivot_stats */
  function Accumulate(dest: Stats, src: Stats): Stats {
    Stats(AddUnknown(dest.numKvs, src.numKvs), AddUnknown(dest.keyBytes, src.keyBytes),
          AddUnknown(dest.messageBytes, src.messageBytes))
  }

  // ------------------------------------------------------------- exact totals

  function Plus(a: Stats, b: Stats): Stats {
    Stats(a.numKvs + b.numKvs, a.keyBytes + b.keyBytes, a.messageBytes + b.messageBytes)
  }

  function OneTuple(t: Tuple): Stats {
    Stats(1, |t.key|, |t.msg.data|)
  }

  /** The number of tuples, the bytes of their keys and the bytes of their messages. */
  function Total(ts: seq<Tuple>): Stats {
    if ts == [] then NO_STATS else Plus(Total(ts[..|ts| - 1]), OneTuple(ts[|ts| - 1]))
  }

  predicate Known(s: Stats) {
    s.numKvs < BTREE_UNKNOWN_COUNTER && s.keyBytes < BTREE_UNKNOWN_COUNTER && s.messageBytes < BTREE_UNKNOWN_COUNTER
  }

  predicate AtMost(a: Stats, b: Stats) {
    a.numKvs <= b.numKvs && a.keyBytes <= b.keyBytes && a.messageBytes <= b.messageBytes
  }

  lemma {:induction false} TotalConcat(xs: seq<Tuple>, ys: seq<Tuple>)
    ensures Total(xs + ys) == Plus(Total(xs), Total(ys))
  {
    if ys == [] {
      assert xs + ys == xs;
    } else {
      var n := |ys| - 1;
      assert (xs + ys)[..|xs| + n] == xs + ys[..n];
      TotalConcat(xs, ys[..n]);
    }
  }

  function MessagesOf(ts: seq<Tuple>): (r: seq<Bytes>)
    ensures |r| == |ts|
  {
    seq(|ts|, i requires 0 <= i < |ts| => ts[i].msg.data)
  }

  /** The counters are the number of the tuples, the length of their keys laid end to end, and that of their message
      data. */
  ghost predicate Measures(s: Stats, ts: seq<Tuple>) {
    s.numKvs == |ts| && s.keyBytes == |Flat(KeysOf(ts))| && s.messageBytes == |Flat(MessagesOf(ts))|
  }

  lemma {:induction false} TotalMeasures(ts: seq<Tuple>)
    ensures Measures(Total(ts), ts)
  {
    if ts != [] {
      var init, t := ts[..|ts| - 1], ts[|ts| - 1];
      TotalMeasures(init);
      assert KeysOf(ts) == KeysOf(init) + [t.key] && MessagesOf(ts) == MessagesOf(init) + [t.msg.data];
      FlatConcat(KeysOf(init), [t.key]);
      FlatConcat(MessagesOf(init), [t.msg.data]);
      FlatSingle(t.key);
      FlatSingle(t.msg.data);
    }
  }

  lemma TotalAdds(xs: seq<Tuple>, t: Tuple)
    ensures Total(xs + [t]) == Plus(Total(xs), OneTuple(t))
  {
    assert (xs + [t])[..|xs|] == xs;
  }

  lemma {:induction false} TotalCounts(ts: seq<Tuple>)
    ensures Total(ts).numKvs == |ts|
  {
    if ts != [] {
      TotalCounts(ts[..|ts| - 1]);
    }
  }

  /** A part has no more than the whole. */
  lemma TotalOfPart(ts: seq<Tuple>, lo: nat, hi: nat)
    requires lo <= hi <= |ts|
    ensures AtMost(Total(ts[lo..hi]), Total(ts))
    ensures Total(ts[..hi]) == Plus(Total(ts[..lo]), Total(ts[lo..hi]))
  {
    hide Total;
    assert ts == ts[..hi] + ts[hi..] && ts[..hi] == ts[..lo] + ts[lo..hi];
    TotalConcat(ts[..hi], ts[hi..]);
    TotalConcat(ts[..lo], ts[lo..hi]);
  }

  /** Below the marker the counters are exact. */
  lemma AccumulateExact(a: Stats, b: Stats)
    requires Known(Plus(a, b))
    ensures Accumulate(a, b) == Plus(a, b)
  {
  }

  // ----------------------------------------------------------------- the tree

  /** Everything below a node, in order. */
  function Tuples(nd: Node): seq<Tuple> {
    match nd
    case Leaf(_, entries) => entries
    case Index(_, pivots) => Flat(TupleLists(pivots))
  }

  function TupleLists(pivots: seq<Pivot>): (r: seq<seq<Tuple>>)
    ensures |r| == |pivots|
  {
    seq(|pivots|, i requires 0 <= i < |pivots| => Tuples(pivots[i].child))
  }

  /** Every leaf is at height 0; each pivot has its child's first key and its totals. */
  ghost predicate TreeOk(nd: Node, h: nat) {
    match nd
    case Leaf(_, entries) => h == 0 && entries != []
    case Index(_, pivots) =>
      && h > 0 && pivots != []
      && forall i :: 0 <= i < |pivots| ==> TreeOk(pivots[i].child, h - 1) && PivotOk(pivots[i])
  }

  ghost predicate PivotOk(p: Pivot) {
    Tuples(p.child) != [] && p.key == Tuples(p.child)[0].key && p.stats == Total(Tuples(p.child))
  }

  /** All counters in the tree say what is below them. */
  ghost predicate Measured(nd: Node) {
    nd.Index? ==> forall i :: 0 <= i < |nd.pivots| ==>
      Measures(nd.pivots[i].stats, Tuples(nd.pivots[i].child)) && Measured(nd.pivots[i].child)
  }

  lemma {:induction false} TreeMeasured(nd: Node, h: nat)
    requires TreeOk(nd, h)
    ensures Measured(nd)
    decreases h
  {
    if nd.Index? {
      forall i | 0 <= i < |nd.pivots|
        ensures Measures(nd.pivots[i].stats, Tuples(nd.pivots[i].child)) && Measured(nd.pivots[i].child)
      {
        assert PivotOk(nd.pivots[i]);
        TotalMeasures(Tuples(nd.pivots[i].child));
        TreeMeasured(nd.pivots[i].child, h - 1);
      }
    }
  }

  lemma TreeNotEmpty(nd: Node, h: nat)
    requires TreeOk(nd, h)
    ensures Tuples(nd) != []
  {
    if nd.Index? {
      var lists := TupleLists(nd.pivots);
      assert PivotOk(nd.pivots[0]);
      FlatAround(lists, 0);
      assert lists[0] != [];
    }
  }

  // ------------------------------------------------------------- keys in a range

  predicate Lt(cfg: DataConfig, a: Key, b: Key) {
    DataKeyCompare(cfg, a, b) < 0
  }

  /** The tuples with lo <= key < hi. */
  function Within(cfg: DataConfig, ts: seq<Tuple>, lo: Key, hi: Key): seq<Tuple> {
    if ts == [] then []
    else
      var t := ts[|ts| - 1];
      Within(cfg, ts[..|ts| - 1], lo, hi)
      + if Le(cfg, lo, User(t.key)) && Lt(cfg, User(t.key), hi) then [t] else []
  }

  /** The first n tuples are those below the target. */
  ghost predicate Splits(cfg: DataConfig, ts: seq<Tuple>, target: Key, n: nat) {
    && n <= |ts|
    && (forall i :: 0 <= i < n ==> Lt(cfg, User(ts[i].key), target))
    && (forall i :: n <= i < |ts| ==> Le(cfg, target, User(ts[i].key)))
  }

  lemma SplitsAt(cfg: DataConfig, ts: seq<Tuple>, target: Key, n: nat, i: nat)
    requires Splits(cfg, ts, target, n) && i < |ts|
    ensures i < n <==> Lt(cfg, User(ts[i].key), target)
    ensures n <= i <==> Le(cfg, target, User(ts[i].key))
  {
    LeTotal(cfg, User(ts[i].key), target);
    LeTotal(cfg, target, User(ts[i].key));
  }

  lemma SplitsPrefix(cfg: DataConfig, ts: seq<Tuple>, target: Key, n: nat, m: nat)
    requires Splits(cfg, ts, target, n) && m <= |ts|
    ensures Splits(cfg, ts[..m], target, if n <= m then n else m)
  {
    assert forall i :: 0 <= i < m ==> ts[..m][i] == ts[i];
  }

  lemma {:induction false} WithinIsSlice(cfg: DataConfig, ts: seq<Tuple>, lo: Key, hi: Key, a: nat, b: nat)
    requires Splits(cfg, ts, lo, a) && Splits(cfg, ts, hi, b) && a <= |ts| && b <= |ts|
    ensures Within(cfg, ts, lo, hi) == if a <= b then ts[a..b] else []
    decreases |ts|
  {
    hide Splits, Lt, Le, DataKeyCompare;
    if ts != [] {
      var n := |ts| - 1;
      SplitsAt(cfg, ts, lo, a, n);
      SplitsAt(cfg, ts, hi, b, n);
      SplitsPrefix(cfg, ts, lo, a, n);
      SplitsPrefix(cfg, ts, hi, b, n);
      WithinIsSlice(cfg, ts[..n], lo, hi, if a <= n then a else n, if b <= n then b else n);
      SliceStep(ts, a, b);
      assert Within(cfg, ts, lo, hi)
          == Within(cfg, ts[..n], lo, hi) + if a <= n && b == n + 1 then [ts[n]] else [];
    }
  }

  lemma SliceStep(ts: seq<Tuple>, a: nat, b: nat)
    requires ts != [] && a <= |ts| && b <= |ts|
    ensures var n := |ts| - 1; var a', b' := if a <= n then a else n, if b <= n then b else n;
      (if a' <= b' then ts[..n][a'..b'] else []) + (if a <= n && b == n + 1 then [ts[n]] else [])
        == if a <= b then ts[a..b] else []
  {
    var n := |ts| - 1;
    if a <= n && b == n + 1 {
      assert ts[a..b] == ts[..n][a..n] + [ts[n]];
    } else if a <= b <= n {
      assert ts[..n][a..b] == ts[a..b];
    }
  }
}
