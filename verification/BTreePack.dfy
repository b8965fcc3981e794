/** Packing a B-tree from a sorted stream of tuples (src/btree.c). At every height the pages of the current extent are
    kept open on an edge; when the next page falls into another extent they are linked to their parents. What fits in
    a page and which pages share an extent are left open. */
module BTreePack {
  import opened DataModel
  import opened KeyOrder
  import opened Concatenation
  import opened PackedTree
  import opened BTreeRank

  /** A page on the edge and the totals below it. */
  datatype Edge = Edge(node: Node, stats: Stats)

  type Edges = seq<seq<Edge>>

  // ---------------------------------------------------------- what the edges hold

  function FirstKey(nd: Node): Bytes
    requires if nd.Leaf? then nd.entries != [] else nd.pivots != []
  {
    if nd.Leaf? then nd.entries[0].key else nd.pivots[0].key
  }

  /** The leaves below a node, in order. */
  function Leaves(nd: Node): seq<Node> {
    match nd
    case Leaf(_, _) => [nd]
    case Index(_, pivots) => Flat(LeafLists(pivots))
  }

  function LeafLists(pivots: seq<Pivot>): (r: seq<seq<Node>>)
    ensures |r| == |pivots|
  {
    seq(|pivots|, i requires 0 <= i < |pivots| => Leaves(pivots[i].child))
  }

  function Below(es: seq<Edge>): seq<Tuple> {
    if es == [] then [] else Below(es[..|es| - 1]) + Tuples(es[|es| - 1].node)
  }

  function LeavesBelow(es: seq<Edge>): seq<Node> {
    if es == [] then [] else LeavesBelow(es[..|es| - 1]) + Leaves(es[|es| - 1].node)
  }

  /** Everything on the edges from height k up: higher edges hold earlier tuples. */
  function Up(edge: Edges, k: nat): seq<Tuple>
    decreases |edge| - k
  {
    if k >= |edge| then [] else Up(edge, k + 1) + Below(edge[k])
  }

  function UpLeaves(edge: Edges, k: nat): seq<Node>
    decreases |edge| - k
  {
    if k >= |edge| then [] else UpLeaves(edge, k + 1) + LeavesBelow(edge[k])
  }

  lemma BelowMore(es: seq<Edge>, e: Edge)
    ensures Below(es + [e]) == Below(es) + Tuples(e.node)
    ensures LeavesBelow(es + [e]) == LeavesBelow(es) + Leaves(e.node)
  {
    hide Tuples, Leaves;
    assert (es + [e])[..|es|] == es;
  }

  lemma {:induction false} BelowConcat(xs: seq<Edge>, ys: seq<Edge>)
    ensures Below(xs + ys) == Below(xs) + Below(ys)
    ensures LeavesBelow(xs + ys) == LeavesBelow(xs) + LeavesBelow(ys)
  {
    hide Tuples, Leaves;
    if ys == [] {
      assert xs + ys == xs;
    } else {
      var init, last := ys[..|ys| - 1], ys[|ys| - 1];
      BelowConcat(xs, init);
      BelowMore(init, last);
      BelowMore(xs + init, last);
      assert ys == init + [last] && xs + ys == (xs + init) + [last];
      hide *;
      UpRegroup(Below(xs), Below(init), Tuples(last.node));
      LeavesRegroup(LeavesBelow(xs), LeavesBelow(init), Leaves(last.node));
    }
  }

  lemma BelowOne(e: Edge)
    ensures Below([e]) == Tuples(e.node) && LeavesBelow([e]) == Leaves(e.node)
  {
    assert [e][..0] == [];
  }

  /** The edges from k up do not depend on those below. */
  lemma {:induction false} UpSame(edge: Edges, edge': Edges, k: nat)
    requires |edge'| == |edge| && forall h :: k <= h < |edge| ==> edge'[h] == edge[h]
    ensures Up(edge', k) == Up(edge, k) && UpLeaves(edge', k) == UpLeaves(edge, k)
    decreases |edge| - k
  {
    if k < |edge| {
      UpSame(edge, edge', k + 1);
    }
  }

  /** A node with another address. */
  function Readdressed(nd: Node, a: Addr): Node {
    match nd
    case Leaf(_, entries) => Leaf(a, entries)
    case Index(_, pivots) => Index(a, pivots)
  }

  /** Appending a child to an index node. */
  lemma TuplesAppend(a: Addr, pivots: seq<Pivot>, p: Pivot)
    ensures Tuples(Index(a, pivots + [p])) == Tuples(Index(a, pivots)) + Tuples(p.child)
    ensures Leaves(Index(a, pivots + [p])) == Leaves(Index(a, pivots)) + Leaves(p.child)
  {
    var more := pivots + [p];
    assert TupleLists(more) == TupleLists(pivots) + [Tuples(p.child)];
    FlatConcat(TupleLists(pivots), [Tuples(p.child)]);
    FlatSingle(Tuples(p.child));
    assert LeafLists(more) == LeafLists(pivots) + [Leaves(p.child)];
    FlatConcat(LeafLists(pivots), [Leaves(p.child)]);
    FlatSingle(Leaves(p.child));
  }

  lemma TuplesOfOne(a: Addr, p: Pivot)
    ensures Tuples(Index(a, [p])) == Tuples(p.child) && Leaves(Index(a, [p])) == Leaves(p.child)
  {
    assert TupleLists([p]) == [Tuples(p.child)] && LeafLists([p]) == [Leaves(p.child)];
    FlatSingle(Tuples(p.child));
    FlatSingle(Leaves(p.child));
  }

  // -------------------------------------------------------------- invariants

  /** A page on an edge is a complete tree, with its totals. */
  ghost predicate EdgeOk(e: Edge, h: nat) {
    TreeOk(e.node, h) && e.stats == Total(Tuples(e.node))
  }

  ghost predicate EdgesOk(es: seq<Edge>, h: nat) {
    forall i :: 0 <= i < |es| ==> EdgeOk(es[i], h)
  }

  function LastPivots(es: seq<Edge>): nat {
    if es != [] && es[|es| - 1].node.Index? then |es[|es| - 1].node.pivots| else 0
  }

  /** How many pages a height has had, and how many of them are linked. A parent is closed with two children or
      more, so every height has fewer pages than the one below. */
  ghost predicate CountsOk(edge: Edges, created: seq<nat>, linked: seq<nat>, h: nat) {
    && h < |edge| == |created| == |linked| && linked[h] + |edge[h]| <= created[h]
    && (h + 1 < |edge| ==> ParentsFull(created[h], linked[h], created[h + 1], edge[h + 1]))
  }

  ghost predicate ParentsFull(created: nat, linked: nat, parents: nat, es: seq<Edge>) {
    created >= 2 && es != [] && 0 < LastPivots(es) && 2 * parents - 2 + LastPivots(es) <= linked
  }

  ghost predicate Above(edge: Edges, created: seq<nat>, linked: seq<nat>, k: nat) {
    && |edge| == |created| == |linked|
    && forall h :: k <= h < |edge| ==> EdgesOk(edge[h], h) && CountsOk(edge, created, linked, h)
  }

  lemma AboveLess(edge: Edges, created: seq<nat>, linked: seq<nat>, k: nat, m: nat)
    requires Above(edge, created, linked, k) && k <= m
    ensures Above(edge, created, linked, m)
  {
  }

  // ------------------------------------------------------------ sibling links

  /** The leaves are linked to their neighbours both ways, and the ends to nothing. */
  ghost predicate Chained(addrs: seq<Addr>, next: map<Addr, Addr>, prev: map<Addr, Addr>) {
    && (forall i, j :: 0 <= i < j < |addrs| ==> addrs[i] != addrs[j])
    && (forall i :: 0 <= i < |addrs| ==> Neighbours(addrs, i, next, prev))
    && (addrs != [] ==> addrs[|addrs| - 1] !in next && addrs[0] !in prev)
  }

  ghost predicate Neighbours(addrs: seq<Addr>, i: nat, next: map<Addr, Addr>, prev: map<Addr, Addr>) {
    i + 1 < |addrs| ==>
      addrs[i] in next && next[addrs[i]] == addrs[i + 1] && addrs[i + 1] in prev && prev[addrs[i + 1]] == addrs[i]
  }

  function Addrs(leaves: seq<Node>): seq<Addr> {
    seq(|leaves|, i requires 0 <= i < |leaves| => leaves[i].addr)
  }

  /** Addresses below the allocation point, and no index page among the leaves. */
  ghost predicate Allocated(edge: Edges, chain: seq<Addr>, next: map<Addr, Addr>, prev: map<Addr, Addr>, limit: Addr) {
    && 0 < limit && (forall a :: a in chain || a in next || a in prev ==> a < limit)
    && (forall h, i :: 0 <= h < |edge| && 0 <= i < |edge[h]| ==>
          edge[h][i].node.addr < limit && (h > 0 ==> edge[h][i].node.addr !in chain))
    && Chained(chain, next, prev)
  }

  lemma ChainGrows(chain: seq<Addr>, next: map<Addr, Addr>, prev: map<Addr, Addr>, a: Addr)
    requires Chained(chain, next, prev) && a !in chain && a !in next && a !in prev
    ensures chain == [] ==> Chained([a], next, prev)
    ensures chain != [] ==> var last := chain[|chain| - 1]; Chained(chain + [a], next[last := a], prev[a := last])
  {
    if chain != [] {
      var last := chain[|chain| - 1];
      var chain', next', prev' := chain + [a], next[last := a], prev[a := last];
      assert last in chain && chain[0] in chain && chain'[0] == chain[0];
      assert chain'[|chain'| - 1] == a && a !in next' && chain'[0] !in prev';
      forall i | 0 <= i < |chain'| ensures Neighbours(chain', i, next', prev') {
        if i < |chain| {
          assert Neighbours(chain, i, next, prev) && chain'[i] == chain[i];
          assert i + 1 < |chain| ==> chain'[i + 1] == chain[i + 1] && chain[i] != last && chain[i + 1] in chain;
        }
      }
    }
  }

  lemma ChainKept(chain: seq<Addr>, next: map<Addr, Addr>, prev: map<Addr, Addr>, a: Addr, b: Addr)
    requires Chained(chain, next, prev) && a !in chain && b !in chain
    ensures Chained(chain, next[a := b], prev[b := a])
  {
    forall i | 0 <= i < |chain| ensures chain[i] != a && chain[i] != b {
      assert chain[i] in chain;
    }
    var next', prev' := next[a := b], prev[b := a];
    forall i | 0 <= i < |chain| ensures Neighbours(chain, i, next', prev') {
      assert Neighbours(chain, i, next, prev);
    }
  }

  // ------------------------------------------------------------ the allocations

  /** A call of mini_alloc, for a page of height `batch` whose first key is `key`. */
  datatype Call = Call(batch: nat, key: Bytes)

  function CallsOf(calls: seq<Call>, h: nat): nat {
    if calls == [] then 0 else CallsOf(calls[..|calls| - 1], h) + if calls[|calls| - 1].batch == h then 1 else 0
  }

  /** Call i was made for a page whose first tuple is at[i]: later calls for a height read further on. */
  ghost predicate Increasing(calls: seq<Call>, at: seq<nat>) {
    && |at| == |calls|
    && forall i, j :: 0 <= i < j < |calls| && calls[i].batch == calls[j].batch ==> at[i] < at[j]
  }

  ghost predicate Reads(c: Call, n: nat, ts: seq<Tuple>) {
    n < |ts| && ts[n].key == c.key
  }

  /** The pages of height h are linked or on the edge, and at the top none is linked. */
  ghost predicate LoggedAt(calls: seq<Call>, at: seq<nat>, edge: Edges, linked: seq<nat>, h: nat)
    requires h < |edge| == |linked| && |at| == |calls|
  {
    && CallsOf(calls, h) == linked[h] + |edge[h]| && (h + 1 == |edge| ==> linked[h] == 0)
    && forall i :: 0 <= i < |calls| && calls[i].batch == h ==> Reads(calls[i], at[i], Up(edge, h))
  }

  ghost predicate Logged(calls: seq<Call>, at: seq<nat>, edge: Edges, linked: seq<nat>, k: nat) {
    && |edge| == |linked| && Increasing(calls, at)
    && (forall i :: 0 <= i < |calls| ==> calls[i].batch < |edge|)
    && (forall h :: k <= h < |edge| ==> LoggedAt(calls, at, edge, linked, h))
  }

  /** The same at height k, but for a page called for and not yet on the edge. */
  ghost predicate Pending(calls: seq<Call>, at: seq<nat>, edge: Edges, linked: seq<nat>, k: nat, key: Bytes) {
    && k < |edge| == |linked| && |at| == |calls|
    && CallsOf(calls, k) == linked[k] + |edge[k]| + 1 && (k + 1 == |edge| ==> linked[k] == 0)
    && forall i :: 0 <= i < |calls| && calls[i].batch == k ==>
         Reads(calls[i], at[i], Up(edge, k)) || (at[i] == |Up(edge, k)| && calls[i].key == key)
  }

  /** Calls have been added for height k and above. */
  ghost predicate Further(calls: seq<Call>, before: seq<Call>, k: nat) {
    && |before| <= |calls| && calls[..|before|] == before
    && forall i :: |before| <= i < |calls| ==> calls[i].batch >= k
  }

  lemma {:induction false} CallsBelow(calls: seq<Call>, before: seq<Call>, k: nat, h: nat)
    requires Further(calls, before, k) && h < k
    ensures CallsOf(calls, h) == CallsOf(before, h)
    decreases |calls|
  {
    if |before| == |calls| {
      assert calls == before;
    } else {
      assert calls[..|calls| - 1][..|before|] == before;
      CallsBelow(calls[..|calls| - 1], before, k, h);
    }
  }

  lemma {:induction false} NoCalls(calls: seq<Call>, h: nat)
    requires forall i :: 0 <= i < |calls| ==> calls[i].batch < h
    ensures CallsOf(calls, h) == 0
  {
    if calls != [] {
      NoCalls(calls[..|calls| - 1], h);
    }
  }

  lemma CallMore(calls: seq<Call>, c: Call, h: nat)
    ensures CallsOf(calls + [c], h) == CallsOf(calls, h) + if c.batch == h then 1 else 0
  {
    assert (calls + [c])[..|calls|] == calls;
  }

  /** A page is called for. */
  lemma CallLogged(calls: seq<Call>, at: seq<nat>, edge: Edges, linked: seq<nat>, k: nat, key: Bytes)
    requires Logged(calls, at, edge, linked, k) && k < |edge|
    ensures var calls', at' := calls + [Call(k, key)], at + [|Up(edge, k)|];
      Logged(calls', at', edge, linked, k + 1) && Pending(calls', at', edge, linked, k, key)
  {
    hide Up;
    var calls', at' := calls + [Call(k, key)], at + [|Up(edge, k)|];
    assert LoggedAt(calls, at, edge, linked, k);
    CallMore(calls, Call(k, key), k);
    forall h | k + 1 <= h < |edge| ensures LoggedAt(calls', at', edge, linked, h) {
      assert LoggedAt(calls, at, edge, linked, h);
      CallMore(calls, Call(k, key), h);
    }
  }

  /** The first page of a new height. */
  lemma CallHigher(calls: seq<Call>, at: seq<nat>, edge: Edges, linked: seq<nat>, key: Bytes)
    requires Logged(calls, at, edge, linked, |edge|)
    ensures var k := |edge|; var calls', at' := calls + [Call(k, key)], at + [|Up(edge, k)|];
      && Logged(calls', at', edge + [[]], linked + [0], k + 1)
      && Pending(calls', at', edge + [[]], linked + [0], k, key)
  {
    var k := |edge|;
    CallMore(calls, Call(k, key), k);
    NoCalls(calls, k);
  }

  lemma LogShape(calls: seq<Call>, at: seq<nat>, edge: Edges, linked: seq<nat>, k: nat)
    requires Logged(calls, at, edge, linked, k)
    ensures |at| == |calls| && |linked| == |edge|
  {
  }

  /** The page called for is still the one to come when those before it have been linked. */
  lemma StillPending(calls: seq<Call>, at: seq<nat>, edge: Edges, linked: seq<nat>, calls': seq<Call>, at': seq<nat>,
                     edge': Edges, linked': seq<nat>, k: nat, key: Bytes)
    requires Pending(calls, at, edge, linked, k, key) && k + 1 < |edge'| == |linked'|
    requires Further(calls', calls, k + 1) && |at'| == |calls'| && at'[..|at|] == at
    requires linked'[k] + |edge'[k]| == linked[k] + |edge[k]| && Up(edge', k) == Up(edge, k)
    ensures Pending(calls', at', edge', linked', k, key)
  {
    hide Up;
    CallsBelow(calls', calls, k + 1, k);
    forall i | 0 <= i < |calls'| && calls'[i].batch == k
      ensures Reads(calls'[i], at'[i], Up(edge', k)) || (at'[i] == |Up(edge', k)| && calls'[i].key == key)
    {
      assert i < |calls| && calls'[i] == calls[i] && at'[i] == at'[..|at|][i];
    }
  }

  /** The page is put on the edge. */
  lemma PutLogged(calls: seq<Call>, at: seq<nat>, edge: Edges, linked: seq<nat>, k: nat, key: Bytes, e: Edge)
    requires Logged(calls, at, edge, linked, k + 1) && Pending(calls, at, edge, linked, k, key)
    requires Tuples(e.node) != [] && Tuples(e.node)[0].key == key
    requires Up(edge[k := edge[k] + [e]], k) == Up(edge, k) + Tuples(e.node)
    ensures Logged(calls, at, edge[k := edge[k] + [e]], linked, k)
  {
    hide Tuples;
    var edge' := edge[k := edge[k] + [e]];
    forall h | k <= h < |edge'| ensures LoggedAt(calls, at, edge', linked, h) {
      if h > k {
        assert LoggedAt(calls, at, edge, linked, h);
        UpSame(edge, edge', h);
      }
    }
  }

  /** Every call was for a page that begins somewhere in what was read. */
  ghost predicate AllRead(calls: seq<Call>, at: seq<nat>, done: seq<Tuple>) {
    |at| == |calls| && forall i :: 0 <= i < |calls| ==> Reads(calls[i], at[i], done)
  }

  /** The calls made for a whole tree: one for the page at the top, and for every height later and later ones. */
  ghost predicate CallsComplete(calls: seq<Call>, at: seq<nat>, done: seq<Tuple>, top: nat) {
    && Increasing(calls, at) && AllRead(calls, at, done) && CallsOf(calls, top) == 1
    && forall i :: 0 <= i < |calls| ==> calls[i].batch <= top
  }

  lemma LessLogged(calls: seq<Call>, at: seq<nat>, edge: Edges, linked: seq<nat>, k: nat)
    requires Logged(calls, at, edge, linked, k)
    ensures Logged(calls, at, edge, linked, k + 1)
  {
  }

  lemma {:induction false} UpPrefix(edge: Edges, k: nat, h: nat)
    requires k <= h <= |edge|
    ensures Up(edge, h) <= Up(edge, k)
    decreases h
  {
    if k < h {
      UpPrefix(edge, k, h - 1);
      UpSplit(edge, h - 1);
    }
  }

  lemma ReadFurther(calls: seq<Call>, at: seq<nat>, calls': seq<Call>, at': seq<nat>, edge: Edges, linked: seq<nat>,
                    k: nat, done: seq<Tuple>)
    requires AllRead(calls, at, done) && Further(calls', calls, k) && at <= at'
    requires Logged(calls', at', edge, linked, k) && Up(edge, k) == done
    ensures AllRead(calls', at', done)
  {
    hide Up;
    forall i | 0 <= i < |calls'| ensures Reads(calls'[i], at'[i], done) {
      if i < |calls| {
        assert calls'[i] == calls'[..|calls|][i] && at'[i] == at[i];
      } else {
        var h := calls'[i].batch;
        assert LoggedAt(calls', at', edge, linked, h);
        UpPrefix(edge, k, h);
      }
    }
  }

  lemma TopOnce(calls: seq<Call>, at: seq<nat>, edge: Edges, linked: seq<nat>, top: nat, done: seq<Tuple>)
    requires Logged(calls, at, edge, linked, top) && |edge| == top + 1 && |edge[top]| == 1
    requires AllRead(calls, at, done)
    ensures CallsComplete(calls, at, done, top)
  {
    assert LoggedAt(calls, at, edge, linked, top);
  }

  /** Pages of height k have more below them, and nothing has been called for. */
  lemma StillLogged(calls: seq<Call>, at: seq<nat>, edge: Edges, linked: seq<nat>, edge': Edges, linked': seq<nat>,
                    k: nat, ts: seq<Tuple>)
    requires Logged(calls, at, edge, linked, k) && |edge'| == |edge| && |linked'| == |linked|
    requires forall h :: k < h < |edge| ==> edge'[h] == edge[h] && linked'[h] == linked[h]
    requires k < |edge| ==>
      |edge'[k]| == |edge[k]| && linked'[k] == linked[k] && Up(edge', k) == Up(edge, k) + ts
    ensures Logged(calls, at, edge', linked', k)
  {
    forall h | k <= h < |edge'| ensures LoggedAt(calls, at, edge', linked', h) {
      assert LoggedAt(calls, at, edge, linked, h);
      if h > k {
        UpSame(edge, edge', h);
      }
    }
  }

  // ------------------------------------------------------------------ the steps

  lemma CreatedMore(edge: Edges, created: seq<nat>, linked: seq<nat>, k: nat)
    requires Above(edge, created, linked, k) && k < |edge|
    ensures Above(edge, created[k := created[k] + 1], linked, k)
  {
    hide EdgesOk;
  }

  lemma HeightMore(edge: Edges, created: seq<nat>, linked: seq<nat>)
    requires |edge| == |created| == |linked|
    ensures Above(edge + [[]], created + [1], linked + [0], |edge|)
    ensures Up(edge + [[]], |edge|) == Up(edge, |edge|) && UpLeaves(edge + [[]], |edge|) == UpLeaves(edge, |edge|)
  {
    assert (edge + [[]])[|edge|] == [];
  }

  /** A page put on its edge. */
  lemma EdgeMore(edge: Edges, created: seq<nat>, linked: seq<nat>, k: nat, e: Edge)
    requires Above(edge, created, linked, k) && k < |edge| && EdgeOk(e, k)
    requires linked[k] + |edge[k]| < created[k]
    ensures var edge' := edge[k := edge[k] + [e]];
      && Above(edge', created, linked, k) && Up(edge', k) == Up(edge, k) + Tuples(e.node)
      && UpLeaves(edge', k) == UpLeaves(edge, k) + Leaves(e.node)
  {
    hide EdgeOk, Tuples, Leaves;
    var edge' := edge[k := edge[k] + [e]];
    UpSame(edge, edge', k + 1);
    BelowMore(edge[k], e);
    UpSplit(edge, k);
    UpSplit(edge', k);
    hide Up, UpLeaves, Below, LeavesBelow, LastPivots;
    forall h | k <= h < |edge'| ensures EdgesOk(edge'[h], h) && CountsOk(edge', created, linked, h) {
      AboveAt(edge, created, linked, k, h);
    }
    UpRegroup(Up(edge, k + 1), Below(edge[k]), Tuples(e.node));
    LeavesRegroup(UpLeaves(edge, k + 1), LeavesBelow(edge[k]), Leaves(e.node));
  }

  /** A page taken off the front of its edge. */
  lemma EdgeLess(edge: Edges, created: seq<nat>, linked: seq<nat>, k: nat)
    requires Above(edge, created, linked, k) && k < |edge| && edge[k] != []
    ensures var edge', linked' := edge[k := edge[k][1..]], linked[k := linked[k] + 1];
      && Above(edge', created, linked', k + 1)
      && Up(edge', k + 1) == Up(edge, k + 1) && UpLeaves(edge', k + 1) == UpLeaves(edge, k + 1)
    ensures Up(edge, k) == Up(edge, k + 1) + (Tuples(edge[k][0].node) + Below(edge[k][1..]))
    ensures UpLeaves(edge, k) == UpLeaves(edge, k + 1) + (Leaves(edge[k][0].node) + LeavesBelow(edge[k][1..]))
  {
    hide EdgesOk, Tuples, Leaves, CountsOk;
    var edge', linked' := edge[k := edge[k][1..]], linked[k := linked[k] + 1];
    UpSame(edge, edge', k + 1);
    assert edge[k] == [edge[k][0]] + edge[k][1..];
    BelowConcat([edge[k][0]], edge[k][1..]);
    BelowOne(edge[k][0]);
    PoppedAbove(edge, created, linked, k);
  }

  lemma PoppedAbove(edge: Edges, created: seq<nat>, linked: seq<nat>, k: nat)
    requires Above(edge, created, linked, k) && k < |edge| && edge[k] != []
    ensures Above(edge[k := edge[k][1..]], created, linked[k := linked[k] + 1], k + 1)
  {
    hide EdgesOk;
    var edge', linked' := edge[k := edge[k][1..]], linked[k := linked[k] + 1];
    forall h | k + 1 <= h < |edge'| ensures EdgesOk(edge'[h], h) && CountsOk(edge', created, linked', h) {
      assert EdgesOk(edge[h], h) && CountsOk(edge, created, linked, h);
    }
  }

  /** With its first page among the parents again, height k is as it should be. */
  lemma LinkedOne(before: Edges, after: Edges, created: seq<nat>, linked: seq<nat>, created': seq<nat>,
                  linked': seq<nat>, k: nat)
    requires Above(before, created, linked, k) && k < |before| <= |after| && before[k] != []
    requires Above(after, created', linked', k + 1) && k + 1 < |after|
    requires after[k] == before[k][1..] && created'[k] == created[k] && linked'[k] == linked[k] + 1
    requires ParentsFull(created[k], linked'[k], created'[k + 1], after[k + 1])
    requires Up(after, k + 1) == Up(before, k + 1) + Tuples(before[k][0].node)
    requires UpLeaves(after, k + 1) == UpLeaves(before, k + 1) + Leaves(before[k][0].node)
    ensures Above(after, created', linked', k)
    ensures Up(after, k) == Up(before, k) && UpLeaves(after, k) == UpLeaves(before, k)
  {
    LinkedAbove(before, after, created, linked, created', linked', k);
    EdgeLess(before, created, linked, k);
    UpSplit(after, k);
    hide *;
    UpRegroup(Up(before, k + 1), Tuples(before[k][0].node), Below(after[k]));
    LeavesRegroup(UpLeaves(before, k + 1), Leaves(before[k][0].node), LeavesBelow(after[k]));
  }

  lemma LinkedAbove(before: Edges, after: Edges, created: seq<nat>, linked: seq<nat>, created': seq<nat>,
                    linked': seq<nat>, k: nat)
    requires Above(before, created, linked, k) && k < |before| <= |after| && before[k] != []
    requires Above(after, created', linked', k + 1) && k + 1 < |after|
    requires after[k] == before[k][1..] && created'[k] == created[k] && linked'[k] == linked[k] + 1
    requires ParentsFull(created[k], linked'[k], created'[k + 1], after[k + 1])
    ensures Above(after, created', linked', k)
  {
    AboveAt(before, created, linked, k, k);
    RestOk(before[k], k);
    hide EdgesOk, ParentsFull;
  }

  lemma UpSplit(edge: Edges, k: nat)
    requires k < |edge|
    ensures Up(edge, k) == Up(edge, k + 1) + Below(edge[k])
    ensures UpLeaves(edge, k) == UpLeaves(edge, k + 1) + LeavesBelow(edge[k])
  {
  }

  lemma AboveAt(edge: Edges, created: seq<nat>, linked: seq<nat>, k: nat, h: nat)
    requires Above(edge, created, linked, k) && k <= h < |edge|
    ensures EdgesOk(edge[h], h) && CountsOk(edge, created, linked, h)
  {
  }

  lemma RestOk(es: seq<Edge>, h: nat)
    requires EdgesOk(es, h) && es != []
    ensures EdgesOk(es[1..], h)
  {
    hide EdgeOk;
  }

  lemma UpRegroup(a: seq<Tuple>, b: seq<Tuple>, c: seq<Tuple>)
    ensures (a + b) + c == a + (b + c)
  {
  }

  lemma LeavesRegroup(a: seq<Node>, b: seq<Node>, c: seq<Node>)
    ensures (a + b) + c == a + (b + c)
  {
  }

  lemma ReaddressedSame(nd: Node, h: nat, a: Addr)
    ensures TreeOk(nd, h) ==> TreeOk(Readdressed(nd, a), h)
    ensures Tuples(Readdressed(nd, a)) == Tuples(nd) && Readdressed(nd, a).addr == a
  {
  }

  /** Allocating a page of height k and linking it with the page before it. */
  lemma NewPage(edge: Edges, chain: seq<Addr>, next: map<Addr, Addr>, prev: map<Addr, Addr>, a: Addr, k: nat)
    requires Allocated(edge, chain, next, prev, a)
    requires k == 0 && |edge| > 0 && edge[0] == [] ==> chain == []
    requires k == 0 && |edge| > 0 && edge[0] != [] ==>
      chain != [] && chain[|chain| - 1] == edge[0][|edge[0]| - 1].node.addr
    requires k == 0 ==> |edge| > 0
    ensures var chain' := if k == 0 then chain + [a] else chain;
      && (k > 0 ==> a !in chain')
      && if k < |edge| && edge[k] != [] then
           var last := edge[k][|edge[k]| - 1].node.addr;
           Allocated(edge, chain', next[last := a], prev[a := last], a + 1)
         else Allocated(edge, chain', next, prev, a + 1)
  {
    ChainGrows(chain, next, prev, a);
    if k > 0 && k < |edge| && edge[k] != [] {
      ChainKept(chain, next, prev, edge[k][|edge[k]| - 1].node.addr, a);
    }
    hide Chained;
  }

  lemma HeightAllocated(edge: Edges, chain: seq<Addr>, next: map<Addr, Addr>, prev: map<Addr, Addr>, limit: Addr)
    requires Allocated(edge, chain, next, prev, limit)
    ensures Allocated(edge + [[]], chain, next, prev, limit)
  {
    hide Chained;
  }

  lemma EdgeIs(e: Edge, h: nat)
    requires TreeOk(e.node, h) && e.stats == Total(Tuples(e.node))
    ensures EdgeOk(e, h)
  {
  }

  lemma CountsAt(edge: Edges, created: seq<nat>, linked: seq<nat>, k: nat)
    requires Above(edge, created, linked, k) && k < |edge|
    ensures |edge| == |created| == |linked| && linked[k] + |edge[k]| <= created[k]
  {
    AboveAt(edge, created, linked, k, k);
  }

  /** Taking pages off an edge, or adding one that has been allocated. */
  lemma EdgeAllocated(edge: Edges, edge': Edges, chain: seq<Addr>, next: map<Addr, Addr>, prev: map<Addr, Addr>,
                      limit: Addr, k: nat, e: Edge)
    requires Allocated(edge, chain, next, prev, limit) && k < |edge| == |edge'|
    requires e.node.addr < limit && (k > 0 ==> e.node.addr !in chain)
    requires forall h :: 0 <= h < |edge| && h != k ==> edge'[h] == edge[h]
    requires forall i :: 0 <= i < |edge'[k]| ==> edge'[k][i] == e || edge'[k][i] in edge[k]
    ensures Allocated(edge', chain, next, prev, limit)
  {
    hide Chained;
    forall i | 0 <= i < |edge'[k]|
      ensures edge'[k][i].node.addr < limit && (k > 0 ==> edge'[k][i].node.addr !in chain)
    {
      if edge'[k][i] != e {
        var j :| 0 <= j < |edge[k]| && edge[k][j] == edge'[k][i];
      }
    }
  }

  /** The first page of an edge, its pivot and what is left above. */
  lemma TakeFirst(edge: Edges, created: seq<nat>, linked: seq<nat>, k: nat)
    requires Above(edge, created, linked, k) && k < |edge| && edge[k] != [] && Known(Total(Up(edge, k)))
    ensures var nd := edge[k][0].node;
      && (if nd.Leaf? then nd.entries != [] else nd.pivots != [])
      && TreeOk(nd, k) && PivotOk(Pivot(FirstKey(nd), nd, edge[k][0].stats))
    ensures Known(Total(Up(edge, k + 1) + Tuples(edge[k][0].node)))
    ensures k + 1 < |edge| ==> ParentsFull(created[k], linked[k], created[k + 1], edge[k + 1])
  {
    var nd := edge[k][0].node;
    assert EdgesOk(edge[k], k) && EdgeOk(edge[k][0], k) && CountsOk(edge, created, linked, k);
    TreeNotEmpty(nd, k);
    FirstKeyIs(nd, k);
    EdgeLess(edge, created, linked, k);
    var up, rest := Up(edge, k + 1) + Tuples(nd), Below(edge[k][1..]);
    assert Up(edge, k) == up + rest;
    hide Total, Tuples, TreeOk, Up, Below;
    TotalConcat(up, rest);
  }

  lemma FirstKeyIs(nd: Node, h: nat)
    requires TreeOk(nd, h)
    ensures if nd.Leaf? then nd.entries != [] else nd.pivots != []
    ensures Tuples(nd) != [] && FirstKey(nd) == Tuples(nd)[0].key
  {
    TreeNotEmpty(nd, h);
    if nd.Index? {
      ChildSlice(nd, h, 0);
      assert TupleLists(nd.pivots)[..0] == [];
      FlatOfNone<Tuple>();
      hide Flat;
      assert Offset(TupleLists(nd.pivots), 0) == 0 by { FlatOfNone<Tuple>(); }
    }
  }

  function Widened(p: Edge, pivot: Pivot): Edge
    requires p.node.Index?
  {
    Edge(Index(p.node.addr, p.node.pivots + [pivot]), Accumulate(p.stats, pivot.stats))
  }

  lemma WidenedOk(p: Edge, h: nat, pivot: Pivot)
    requires EdgeOk(p, h + 1) && TreeOk(pivot.child, h) && PivotOk(pivot)
    requires Known(Plus(Total(Tuples(p.node)), Total(Tuples(pivot.child))))
    ensures p.node.Index? && EdgeOk(Widened(p, pivot), h + 1)
    ensures Tuples(Widened(p, pivot).node) == Tuples(p.node) + Tuples(pivot.child)
    ensures Leaves(Widened(p, pivot).node) == Leaves(p.node) + Leaves(pivot.child)
  {
    TuplesAppend(p.node.addr, p.node.pivots, pivot);
    TotalConcat(Tuples(p.node), Tuples(pivot.child));
    AccumulateExact(p.stats, pivot.stats);
    hide Tuples, Leaves, Total;
  }

  /** The last page of an edge, seen apart. */
  lemma LastOfEdge(edge: Edges, k: nat)
    requires k < |edge| && edge[k] != []
    ensures var last := |edge[k]| - 1;
      && Up(edge, k) == Up(edge, k + 1) + Below(edge[k][..last]) + Tuples(edge[k][last].node)
      && UpLeaves(edge, k) == UpLeaves(edge, k + 1) + LeavesBelow(edge[k][..last]) + Leaves(edge[k][last].node)
  {
    hide Tuples, Leaves;
    var init, last := edge[k][..|edge[k]| - 1], edge[k][|edge[k]| - 1];
    BelowMore(init, last);
    assert init + [last] == edge[k];
    UpSplit(edge, k);
    hide *;
    UpRegroup(Up(edge, k + 1), Below(init), Tuples(last.node));
    LeavesRegroup(UpLeaves(edge, k + 1), LeavesBelow(init), Leaves(last.node));
  }

  /** Changing the last page of an edge. */
  lemma LastChanged(edge: Edges, created: seq<nat>, linked: seq<nat>, k: nat, e: Edge, ts: seq<Tuple>, ls: seq<Node>)
    requires Above(edge, created, linked, k) && k < |edge| && edge[k] != [] && EdgeOk(e, k)
    requires Tuples(e.node) == Tuples(edge[k][|edge[k]| - 1].node) + ts
    requires Leaves(e.node) == Leaves(edge[k][|edge[k]| - 1].node) + ls
    ensures var edge' := edge[k := edge[k][|edge[k]| - 1 := e]];
      && Above(edge', created, linked, k) && Up(edge', k) == Up(edge, k) + ts
      && UpLeaves(edge', k) == UpLeaves(edge, k) + ls
  {
    var last := |edge[k]| - 1;
    var edge' := edge[k := edge[k][last := e]];
    ChangedAbove(edge, created, linked, k, last, e);
    UpSame(edge, edge', k + 1);
    LastOfEdge(edge, k);
    LastOfEdge(edge', k);
    assert edge'[k][..last] == edge[k][..last];
    hide *;
    UpRegroup(Up(edge, k + 1) + Below(edge[k][..last]), Tuples(edge[k][last].node), ts);
    LeavesRegroup(UpLeaves(edge, k + 1) + LeavesBelow(edge[k][..last]), Leaves(edge[k][last].node), ls);
  }

  lemma ChangedAbove(edge: Edges, created: seq<nat>, linked: seq<nat>, k: nat, i: nat, e: Edge)
    requires Above(edge, created, linked, k) && k < |edge| && i < |edge[k]| && EdgeOk(e, k)
    ensures Above(edge[k := edge[k][i := e]], created, linked, k)
  {
    hide EdgeOk, LastPivots;
    var edge' := edge[k := edge[k][i := e]];
    forall h | k <= h < |edge'| ensures EdgesOk(edge'[h], h) && CountsOk(edge', created, linked, h) {
      AboveAt(edge, created, linked, k, h);
    }
  }

  /** The popped page goes under the last page of the next height. */
  lemma AddPivot(edge: Edges, created: seq<nat>, linked: seq<nat>, k: nat, pivot: Pivot)
    requires Above(edge, created, linked, k) && k + 1 < |edge| && edge[k] != [] && edge[k + 1] != []
    requires TreeOk(pivot.child, k) && PivotOk(pivot) && Known(Total(Up(edge, k + 1) + Tuples(pivot.child)))
    requires pivot.child == edge[k][0].node
    ensures var parents := edge[k + 1]; parents[|parents| - 1].node.Index?
    ensures var parents, linked' := edge[k + 1], linked[k := linked[k] + 1];
      var wider := Widened(parents[|parents| - 1], pivot);
      var after := edge[k := edge[k][1..]][k + 1 := parents[|parents| - 1 := wider]];
      && Above(after, created, linked', k + 1)
      && ParentsFull(created[k], linked'[k], created[k + 1], after[k + 1])
      && Up(after, k + 1) == Up(edge, k + 1) + Tuples(pivot.child)
      && UpLeaves(after, k + 1) == UpLeaves(edge, k + 1) + Leaves(pivot.child)
  {
    hide EdgeOk, TreeOk, PivotOk, Tuples, Leaves, Total, Known, Up, UpLeaves, Below, LeavesBelow, Accumulate;
    var parents, linked' := edge[k + 1], linked[k := linked[k] + 1];
    var init, p := parents[..|parents| - 1], parents[|parents| - 1];
    AboveAt(edge, created, linked, k, k);
    AboveAt(edge, created, linked, k, k + 1);
    EdgeLess(edge, created, linked, k);
    LastOfEdge(edge, k + 1);
    EdgeAt(parents, |parents| - 1, k + 1);
    PartKnown(Up(edge, k + 2) + Below(init), Tuples(p.node), Tuples(pivot.child));
    WidenedOk(p, k, pivot);
    var wider := Widened(p, pivot);
    LastChanged(edge[k := edge[k][1..]], created, linked', k + 1, wider, Tuples(pivot.child), Leaves(pivot.child));
    OneMorePivot(parents, wider);
    hide Above, Widened, LastPivots, EdgesOk;
  }

  lemma EdgeAt(es: seq<Edge>, i: nat, h: nat)
    requires EdgesOk(es, h) && i < |es|
    ensures EdgeOk(es[i], h)
  {
  }

  lemma OneMorePivot(es: seq<Edge>, e: Edge)
    requires es != [] && es[|es| - 1].node.Index? && e.node.Index?
    requires |e.node.pivots| == |es[|es| - 1].node.pivots| + 1
    ensures LastPivots(es[|es| - 1 := e]) == LastPivots(es) + 1
  {
  }

  lemma PartKnown(a: seq<Tuple>, b: seq<Tuple>, c: seq<Tuple>)
    requires Known(Total(a + b + c))
    ensures Known(Plus(Total(b), Total(c)))
  {
    hide Total;
    TotalConcat(a + b, c);
    TotalConcat(a, b);
  }

  /** The popped page starts a new parent; the last one, if any, is full. */
  lemma NewParent(edge: Edges, created: seq<nat>, linked: seq<nat>, k: nat, pivot: Pivot)
    requires Above(edge, created, linked, k) && k < |edge| && edge[k] != [] && pivot.child == edge[k][0].node
    requires TreeOk(pivot.child, k) && PivotOk(pivot) && Known(Total(Up(edge, k + 1) + Tuples(pivot.child)))
    ensures Above(edge[k := edge[k][1..]], created, linked[k := linked[k] + 1], k + 1)
    ensures Known(Total(Up(edge[k := edge[k][1..]], k + 1)))
    ensures Up(edge[k := edge[k][1..]], k + 1) == Up(edge, k + 1)
    ensures UpLeaves(edge[k := edge[k][1..]], k + 1) == UpLeaves(edge, k + 1)
    ensures TreeOk(Index(0, [pivot]), k + 1)
    ensures Accumulate(NO_STATS, pivot.stats) == Total(Tuples(Index(0, [pivot])))
    ensures Tuples(Index(0, [pivot])) == Tuples(pivot.child)
    ensures forall a :: Leaves(Index(a, [pivot])) == Leaves(pivot.child)
  {
    hide EdgeOk, TreeOk, PivotOk, Tuples, Leaves, Total, Up, UpLeaves, Below, LeavesBelow, Accumulate, Above;
    EdgeLess(edge, created, linked, k);
    TotalConcat(Up(edge, k + 1), Tuples(pivot.child));
    IndexOfOne(k, pivot);
  }

  lemma IndexOfOne(k: nat, pivot: Pivot)
    requires TreeOk(pivot.child, k) && PivotOk(pivot) && Known(Total(Tuples(pivot.child)))
    ensures TreeOk(Index(0, [pivot]), k + 1)
    ensures Accumulate(NO_STATS, pivot.stats) == Total(Tuples(Index(0, [pivot])))
    ensures Tuples(Index(0, [pivot])) == Tuples(pivot.child)
    ensures forall a :: Leaves(Index(a, [pivot])) == Leaves(pivot.child)
  {
    TuplesOfOne(0, pivot);
    forall a ensures Leaves(Index(a, [pivot])) == Leaves(pivot.child) {
      TuplesOfOne(a, pivot);
    }
    AccumulateExact(NO_STATS, pivot.stats);
    hide Tuples, Leaves, Total;
  }

  /** The counters of a leaf after one more tuple. */
  function Counted(s: Stats, t: Tuple): Stats {
    Stats((s.numKvs + 1) % 0x1_0000_0000, (s.keyBytes + |t.key|) % 0x1_0000_0000,
          (s.messageBytes + |t.msg.data|) % 0x1_0000_0000)
  }

  lemma FreshLeaf(t: Tuple)
    requires Known(OneTuple(t))
    ensures TreeOk(Leaf(0, [t]), 0) && Tuples(Leaf(0, [t])) == [t] && Counted(NO_STATS, t) == Total([t])
  {
    hide Total;
    TotalOne(t);
  }

  lemma LeafLeaves(nd: Node)
    requires nd.Leaf?
    ensures Leaves(nd) == [nd]
  {
  }

  function Fuller(e: Edge, t: Tuple): Edge
    requires e.node.Leaf?
  {
    Edge(Leaf(e.node.addr, e.node.entries + [t]), Counted(e.stats, t))
  }

  lemma FullerOk(e: Edge, t: Tuple)
    requires EdgeOk(e, 0) && Known(Plus(Total(Tuples(e.node)), OneTuple(t)))
    ensures e.node.Leaf? && EdgeOk(Fuller(e, t), 0) && Tuples(Fuller(e, t).node) == Tuples(e.node) + [t]
  {
    TotalAdds(Tuples(e.node), t);
    hide Total;
  }

  /** One more tuple in the current leaf. */
  lemma LeafGrows(edge: Edges, created: seq<nat>, linked: seq<nat>, t: Tuple)
    requires Above(edge, created, linked, 0) && |edge| > 0 && edge[0] != [] && Known(Total(Up(edge, 0) + [t]))
    ensures edge[0][|edge[0]| - 1].node.Leaf?
    ensures var edge' := edge[0 := edge[0][|edge[0]| - 1 := Fuller(edge[0][|edge[0]| - 1], t)]];
      && Above(edge', created, linked, 0) && Up(edge', 0) == Up(edge, 0) + [t]
      && Addrs(UpLeaves(edge', 0)) == Addrs(UpLeaves(edge, 0))
      && UpLeaves(edge, 0) != []
      && UpLeaves(edge', 0) == UpLeaves(edge, 0)[|UpLeaves(edge, 0)| - 1 := Fuller(edge[0][|edge[0]| - 1], t).node]
  {
    hide Tuples, Leaves, Total, Known, Up, UpLeaves, Below, LeavesBelow, EdgeOk, Counted;
    var last := |edge[0]| - 1;
    var e := edge[0][last];
    AboveAt(edge, created, linked, 0, 0);
    EdgeAt(edge[0], last, 0);
    LastOfEdge(edge, 0);
    TotalOne(t);
    PartKnown(Up(edge, 1) + Below(edge[0][..last]), Tuples(e.node), [t]);
    FullerOk(e, t);
    var edge' := edge[0 := edge[0][last := Fuller(e, t)]];
    ChangedAbove(edge, created, linked, 0, last, Fuller(e, t));
    UpSame(edge, edge', 1);
    LastOfEdge(edge', 0);
    assert edge'[0][..last] == edge[0][..last];
    LeafLeaves(e.node);
    LeafLeaves(Fuller(e, t).node);
    UpRegroup(Up(edge, 1) + Below(edge[0][..last]), Tuples(e.node), [t]);
  }

  lemma TotalOne(t: Tuple)
    ensures Total([t]) == OneTuple(t)
  {
    assert [t][..0] == [];
  }

  function Wider(edge: Edges, k: nat): (r: Edges)
    requires k <= |edge|
    ensures k < |r|
  {
    if k == |edge| then edge + [[]] else edge
  }

  /** The last of the leaves is the current one. */
  lemma LastLeaf(edge: Edges, created: seq<nat>, linked: seq<nat>)
    requires Above(edge, created, linked, 0) && |edge| > 0 && edge[0] != []
    ensures var e := edge[0][|edge[0]| - 1];
      e.node.Leaf? && e.node.entries != [] && UpLeaves(edge, 0) != []
      && UpLeaves(edge, 0)[|UpLeaves(edge, 0)| - 1] == e.node
  {
    hide Tuples, Leaves, Total, Known, Up, UpLeaves, Below, LeavesBelow;
    var last := |edge[0]| - 1;
    AboveAt(edge, created, linked, 0, 0);
    EdgeAt(edge[0], last, 0);
    LastOfEdge(edge, 0);
    LeafLeaves(edge[0][last].node);
  }

  lemma NoLeaves(edge: Edges)
    requires |edge| == 1 && edge[0] == []
    ensures UpLeaves(edge, 0) == []
  {
  }

  /** No leaf had room for the first tuple of the next. */
  ghost predicate Dense(fits: (seq<Tuple>, Tuple) -> bool, leaves: seq<Node>) {
    && (forall i :: 0 <= i < |leaves| ==> leaves[i].Leaf? && leaves[i].entries != [])
    && forall i :: 0 <= i < |leaves| - 1 ==> !fits(leaves[i].entries, leaves[i + 1].entries[0])
  }

  lemma DenseMore(fits: (seq<Tuple>, Tuple) -> bool, leaves: seq<Node>, nd: Node)
    requires Dense(fits, leaves) && nd.Leaf? && nd.entries != []
    requires leaves != [] ==> !fits(leaves[|leaves| - 1].entries, nd.entries[0])
    ensures Dense(fits, leaves + [nd])
  {
  }

  lemma DenseGrows(fits: (seq<Tuple>, Tuple) -> bool, leaves: seq<Node>, nd: Node)
    requires Dense(fits, leaves) && leaves != [] && nd.Leaf? && nd.entries != []
    requires nd.entries[0] == leaves[|leaves| - 1].entries[0]
    ensures Dense(fits, leaves[|leaves| - 1 := nd])
  {
  }

  /** In every node below nd each tuple, or pivot, had room behind the ones before it. */
  ghost predicate Fit(leafFits: (seq<Tuple>, Tuple) -> bool, indexFits: (seq<Pivot>, Pivot) -> bool, nd: Node) {
    match nd
    case Leaf(_, entries) => forall j :: 0 < j < |entries| ==> leafFits(entries[..j], entries[j])
    case Index(_, pivots) =>
      && (forall j :: 0 < j < |pivots| ==> indexFits(pivots[..j], pivots[j]))
      && forall i :: 0 <= i < |pivots| ==> Fit(leafFits, indexFits, pivots[i].child)
  }

  ghost predicate AllFit(leafFits: (seq<Tuple>, Tuple) -> bool, indexFits: (seq<Pivot>, Pivot) -> bool, edge: Edges) {
    forall h, i :: 0 <= h < |edge| && 0 <= i < |edge[h]| ==> Fit(leafFits, indexFits, edge[h][i].node)
  }

  lemma FitOfOne(leafFits: (seq<Tuple>, Tuple) -> bool, indexFits: (seq<Pivot>, Pivot) -> bool, a: Addr, t: Tuple)
    ensures Fit(leafFits, indexFits, Leaf(a, [t]))
  {
  }

  /** Taking the first node off an edge; alone below its parent it fits. */
  lemma PopFits(leafFits: (seq<Tuple>, Tuple) -> bool, indexFits: (seq<Pivot>, Pivot) -> bool, edge: Edges, k: nat,
                p: Pivot)
    requires AllFit(leafFits, indexFits, edge) && k < |edge| && edge[k] != [] && p.child == edge[k][0].node
    ensures AllFit(leafFits, indexFits, edge[k := edge[k][1..]])
    ensures Fit(leafFits, indexFits, p.child) && Fit(leafFits, indexFits, Index(0, [p]))
  {
    hide Fit;
    FitAt(leafFits, indexFits, edge, k, 0);
    StillFit(leafFits, indexFits, edge, edge[k := edge[k][1..]], k, edge[k][0]);
    FitOfIndex(leafFits, indexFits, p);
  }

  lemma FitOfIndex(leafFits: (seq<Tuple>, Tuple) -> bool, indexFits: (seq<Pivot>, Pivot) -> bool, p: Pivot)
    requires Fit(leafFits, indexFits, p.child)
    ensures Fit(leafFits, indexFits, Index(0, [p]))
  {
  }

  lemma ParentFits(leafFits: (seq<Tuple>, Tuple) -> bool, indexFits: (seq<Pivot>, Pivot) -> bool, edge: Edges, k: nat,
                   p: Pivot)
    requires AllFit(leafFits, indexFits, edge) && k < |edge| && edge[k] != [] && Fit(leafFits, indexFits, p.child)
    requires edge[k][|edge[k]| - 1].node.Index? && indexFits(edge[k][|edge[k]| - 1].node.pivots, p)
    ensures var last := |edge[k]| - 1;
      AllFit(leafFits, indexFits, edge[k := edge[k][last := Widened(edge[k][last], p)]])
  {
    hide Fit, Widened;
    var last := |edge[k]| - 1;
    FitAt(leafFits, indexFits, edge, k, last);
    FitWidened(leafFits, indexFits, edge[k][last], p);
    StillFit(leafFits, indexFits, edge, edge[k := edge[k][last := Widened(edge[k][last], p)]], k,
             Widened(edge[k][last], p));
  }

  lemma LeafFits(leafFits: (seq<Tuple>, Tuple) -> bool, indexFits: (seq<Pivot>, Pivot) -> bool, edge: Edges, t: Tuple)
    requires AllFit(leafFits, indexFits, edge) && 0 < |edge| && edge[0] != []
    requires edge[0][|edge[0]| - 1].node.Leaf? && leafFits(edge[0][|edge[0]| - 1].node.entries, t)
    ensures var last := |edge[0]| - 1;
      AllFit(leafFits, indexFits, edge[0 := edge[0][last := Fuller(edge[0][last], t)]])
  {
    hide Fit, Fuller;
    var last := |edge[0]| - 1;
    FitAt(leafFits, indexFits, edge, 0, last);
    FitFuller(leafFits, indexFits, edge[0][last], t);
    StillFit(leafFits, indexFits, edge, edge[0 := edge[0][last := Fuller(edge[0][last], t)]], 0,
             Fuller(edge[0][last], t));
  }

  lemma FitAnywhere(leafFits: (seq<Tuple>, Tuple) -> bool, indexFits: (seq<Pivot>, Pivot) -> bool, nd: Node, a: Addr)
    ensures Fit(leafFits, indexFits, Readdressed(nd, a)) <==> Fit(leafFits, indexFits, nd)
  {
  }

  lemma FitFuller(leafFits: (seq<Tuple>, Tuple) -> bool, indexFits: (seq<Pivot>, Pivot) -> bool, e: Edge, t: Tuple)
    requires e.node.Leaf? && Fit(leafFits, indexFits, e.node) && leafFits(e.node.entries, t)
    ensures Fit(leafFits, indexFits, Fuller(e, t).node)
  {
    var was, entries := e.node.entries, e.node.entries + [t];
    forall j | 0 < j < |entries| ensures leafFits(entries[..j], entries[j]) {
      assert entries[..j] == was[..j];
      assert was[..|was|] == was;
    }
  }

  lemma FitWidened(leafFits: (seq<Tuple>, Tuple) -> bool, indexFits: (seq<Pivot>, Pivot) -> bool, e: Edge, p: Pivot)
    requires e.node.Index? && Fit(leafFits, indexFits, e.node) && indexFits(e.node.pivots, p)
    requires Fit(leafFits, indexFits, p.child)
    ensures Fit(leafFits, indexFits, Widened(e, p).node)
  {
    var was, pivots := e.node.pivots, e.node.pivots + [p];
    forall j | 0 < j < |pivots| ensures indexFits(pivots[..j], pivots[j]) {
      assert pivots[..j] == was[..j];
      assert was[..|was|] == was;
    }
  }

  lemma FitAt(leafFits: (seq<Tuple>, Tuple) -> bool, indexFits: (seq<Pivot>, Pivot) -> bool, edge: Edges, h: nat,
              i: nat)
    requires AllFit(leafFits, indexFits, edge) && h < |edge| && i < |edge[h]|
    ensures Fit(leafFits, indexFits, edge[h][i].node)
  {
  }

  /** A change of one edge that adds, or puts in place of another, at most one node that fits. */
  lemma StillFit(leafFits: (seq<Tuple>, Tuple) -> bool, indexFits: (seq<Pivot>, Pivot) -> bool, edge: Edges,
                 edge': Edges, k: nat, e: Edge)
    requires AllFit(leafFits, indexFits, edge) && k < |edge'| && (|edge'| == |edge| || |edge'| == |edge| + 1 == k + 1)
    requires forall h :: 0 <= h < |edge| && h != k ==> edge'[h] == edge[h]
    requires forall i :: 0 <= i < |edge'[k]| ==> edge'[k][i] == e || (k < |edge| && edge'[k][i] in edge[k])
    requires e in edge'[k] ==> Fit(leafFits, indexFits, e.node)
    ensures AllFit(leafFits, indexFits, edge')
  {
    hide Fit;
    forall i | 0 <= i < |edge'[k]| ensures Fit(leafFits, indexFits, edge'[k][i].node) {
      if edge'[k][i] != e {
        var j :| 0 <= j < |edge[k]| && edge[k][j] == edge'[k][i];
      }
    }
  }

  function WiderCounts(linked: seq<nat>, k: nat): (r: seq<nat>)
    requires k <= |linked|
    ensures k < |r|
  {
    if k == |linked| then linked + [0] else linked
  }

  lemma EmptyEdges(edge: Edges, created: seq<nat>, linked: seq<nat>, chain: seq<Addr>, next: map<Addr, Addr>,
                   prev: map<Addr, Addr>, limit: Addr, calls: seq<Call>, at: seq<nat>)
    requires edge == [[]] && created == linked == [0] && chain == [] && next == prev == map[] && limit == 2
    requires calls == [] && at == []
    ensures Above(edge, created, linked, 0) && Allocated(edge, chain, next, prev, limit) && Up(edge, 0) == []
    ensures UpLeaves(edge, 0) == [] && Logged(calls, at, edge, linked, 0) && Known(Total([])) && Addrs([]) == []
  {
  }

  class PackRequest {
    const leafFits: (seq<Tuple>, Tuple) -> bool
    const indexFits: (seq<Pivot>, Pivot) -> bool
    const shareExtent: (Addr, Addr) -> bool
    const maxTuples: nat
    var rootAddr: Addr
    var height: nat
    var edge: Edges
    var nextAddr: Addr
    var next: map<Addr, Addr>
    var prev: map<Addr, Addr>
    var numTuples: nat
    var keyBytes: nat
    var messageBytes: nat
    /** The calls of mini_alloc, and where in what was read the page of each begins. */
    var calls: seq<Call>
    ghost var at: seq<nat>
    ghost var created: seq<nat>
    ghost var linked: seq<nat>
    ghost var chain: seq<Addr>

    /** An index page has room for two pivots at least. */
    ghost predicate Shape()
      reads this
    {
      && |edge| == |created| == |linked| == height + 1 && Allocated(edge, chain, next, prev, nextAddr)
      && AllFit(leafFits, indexFits, edge)
      && forall ps, p :: |ps| < 2 ==> indexFits(ps, p)
    }

    ghost function Created(k: nat): nat
      reads this
    {
      if k < |created| then created[k] else 0
    }

    /** Adds an allocated page to the edge of a height, the first of its height or not. */
    method PutOnEdge(k: nat, e: Edge)
      requires Shape() && k <= height + 1 && Above(edge, created, linked, k)
      requires TreeOk(e.node, k) && e.stats == Total(Tuples(e.node)) && Fit(leafFits, indexFits, e.node)
      requires e.node.addr < nextAddr && (k > 0 ==> e.node.addr !in chain)
      requires k <= height ==> linked[k] + |edge[k]| < created[k]
      modifies this`height, this`edge, this`created, this`linked
      ensures Shape() && height == (if old(height) < k then k else old(height)) && Above(edge, created, linked, k)
      ensures edge[..k] == old(edge[..k]) && created[..k] == old(created[..k]) && linked[..k] == old(linked[..k])
      ensures created[k] == if k <= old(height) then old(Created(k)) else 1
      ensures edge[k] != [] && edge[k][|edge[k]| - 1] == e
      ensures linked == WiderCounts(old(linked), k)
      ensures var wider := Wider(old(edge), k); edge == wider[k := wider[k] + [e]] && Up(wider, k) == old(Up(edge, k))
      ensures Up(edge, k) == old(Up(edge, k)) + Tuples(e.node)
      ensures UpLeaves(edge, k) == old(UpLeaves(edge, k)) + Leaves(e.node)
    {
      hide Above, Allocated, EdgeOk, Up, UpLeaves, Tuples, Leaves, TreeOk, Total, Fit, AllFit;
      if height < k {
        HeightMore(edge, created, linked);
        HeightAllocated(edge, chain, next, prev, nextAddr);
        StillFit(leafFits, indexFits, edge, edge + [[]], k, e);
        height := k;
        edge, created, linked := edge + [[]], created + [1], linked + [0];
      }
      EdgeIs(e, k);
      EdgeMore(edge, created, linked, k, e);
      ghost var edge' := edge[k := edge[k] + [e]];
      EdgeAllocated(edge, edge', chain, next, prev, nextAddr, k, e);
      StillFit(leafFits, indexFits, edge, edge', k, e);
      edge := edge[k := edge[k] + [e]];
    }

    method CallFor(k: nat, key: Bytes)
      requires |edge| == |linked| == height + 1 && k <= height + 1 && Logged(calls, at, edge, linked, k)
      modifies this`calls, this`at
      ensures Logged(calls, at, Wider(edge, k), WiderCounts(linked, k), k + 1)
      ensures Pending(calls, at, Wider(edge, k), WiderCounts(linked, k), k, key)
      ensures Further(calls, old(calls), k) && old(at) <= at
    {
      hide Up, Logged, Pending;
      if k <= height {
        CallLogged(calls, at, edge, linked, k, key);
      } else {
        CallHigher(calls, at, edge, linked, key);
      }
      calls, at := calls + [Call(k, key)], at + [|Up(edge, k)|];
    }

    /** Calls for a page of a height. If it falls into another extent than the page before it, the edge is linked
        first. */
    method AllocatePage(k: nat, key: Bytes) returns (a: Addr)
      requires Shape() && k <= height + 1 && Above(edge, created, linked, k) && Known(Total(Up(edge, k)))
      requires Logged(calls, at, edge, linked, k)
      requires k == 0 && edge[0] == [] ==> chain == []
      requires k == 0 && edge[0] != [] ==> chain != [] && chain[|chain| - 1] == edge[0][|edge[0]| - 1].node.addr
      modifies this`height, this`edge, this`nextAddr, this`next, this`prev, this`created, this`linked, this`chain
      modifies this`calls, this`at
      ensures Shape() && k <= height + 1 && old(height) <= height && Above(edge, created, linked, k)
      ensures (k <= height <==> k <= old(height)) && a < nextAddr && (k > 0 ==> a !in chain)
      ensures edge[..k] == old(edge[..k]) && created[..k] == old(created[..k]) && linked[..k] == old(linked[..k])
      ensures k <= height ==> linked[k] + |edge[k]| < created[k] == old(Created(k)) + 1
      ensures k > height ==> old(Created(k)) == 0
      ensures Up(edge, k) == old(Up(edge, k)) && UpLeaves(edge, k) == old(UpLeaves(edge, k))
      ensures chain == old(chain) + if k == 0 then [a] else []
      ensures old(nextAddr) <= nextAddr
      ensures Logged(calls, at, Wider(edge, k), WiderCounts(linked, k), k + 1)
      ensures Pending(calls, at, Wider(edge, k), WiderCounts(linked, k), k, key)
      ensures Further(calls, old(calls), k) && old(at) <= at
      decreases Created(k) + 1, 3
    {
      hide Above, Allocated, EdgeOk, Up, UpLeaves, Tuples, Leaves, TreeOk, Total, Known, Logged, Pending, Fit, AllFit;
      a := nextAddr;
      CallFor(k, key);
      NewPage(edge, chain, next, prev, a, k);
      nextAddr := a + 1;
      if k == 0 {
        chain := chain + [a];
      }
      if k <= height {
        CountsAt(edge, created, linked, k);
        CreatedMore(edge, created, linked, k);
        created := created[k := created[k] + 1];
        if edge[k] != [] {
          var oldAddr := edge[k][|edge[k]| - 1].node.addr;
          next, prev := next[oldAddr := a], prev[a := oldAddr];
          if !shareExtent(oldAddr, a) {
            LinkOld(k, key);
          }
        }
      }
    }

    /** Links the edge while a page of its height has been called for. */
    method LinkOld(k: nat, ghost key: Bytes)
      requires Shape() && k <= height && Above(edge, created, linked, k) && Known(Total(Up(edge, k)))
      requires created[k] >= 2 && edge[k] != []
      requires Logged(calls, at, edge, linked, k + 1) && Pending(calls, at, edge, linked, k, key)
      modifies this`height, this`edge, this`nextAddr, this`next, this`prev, this`created, this`linked, this`chain
      modifies this`calls, this`at
      ensures Shape() && old(height) <= height && k < height && Above(edge, created, linked, k)
      ensures edge[..k] == old(edge[..k]) && created[..k] == old(created[..k]) && linked[..k] == old(linked[..k])
      ensures created[k] == old(created[k]) && edge[k] == [] && linked[k] + |edge[k]| == old(linked[k] + |edge[k]|)
      ensures Up(edge, k) == old(Up(edge, k)) && UpLeaves(edge, k) == old(UpLeaves(edge, k)) && chain == old(chain)
      ensures old(nextAddr) <= nextAddr
      ensures Logged(calls, at, edge, linked, k + 1) && Pending(calls, at, edge, linked, k, key)
      ensures Further(calls, old(calls), k + 1) && old(at) <= at
      decreases created[k], 2
    {
      hide Above, Allocated, EdgeOk, Up, UpLeaves, Tuples, Leaves, TreeOk, Total, Known, Logged, Fit, AllFit;
      ghost var calls0, at0, edge0, linked0 := calls, at, edge, linked;
      LinkExtent(k);
      LogShape(calls, at, edge, linked, k + 1);
      StillPending(calls0, at0, edge0, linked0, calls, at, edge, linked, k, key);
    }

    /** Puts a page with its first entry on the edge of a height. */
    method CreateNextNode(k: nat, nd: Node, stats: Stats)
      requires Shape() && k <= height + 1 && Above(edge, created, linked, k) && Known(Total(Up(edge, k)))
      requires TreeOk(nd, k) && stats == Total(Tuples(nd)) && Logged(calls, at, edge, linked, k)
      requires Fit(leafFits, indexFits, nd)
      requires k == 0 && edge[0] == [] ==> chain == []
      requires k == 0 && edge[0] != [] ==> chain != [] && chain[|chain| - 1] == edge[0][|edge[0]| - 1].node.addr
      modifies this`height, this`edge, this`nextAddr, this`next, this`prev, this`created, this`linked, this`chain
      modifies this`calls, this`at
      ensures Shape() && k <= height && old(height) <= height && Above(edge, created, linked, k)
      ensures edge[..k] == old(edge[..k]) && created[..k] == old(created[..k]) && linked[..k] == old(linked[..k])
      ensures created[k] == old(Created(k)) + 1 && edge[k] != []
      ensures var e := edge[k][|edge[k]| - 1]; e.stats == stats && e.node == Readdressed(nd, e.node.addr)
      ensures Up(edge, k) == old(Up(edge, k)) + Tuples(nd)
      ensures UpLeaves(edge, k) == old(UpLeaves(edge, k)) + Leaves(edge[k][|edge[k]| - 1].node)
      ensures chain == old(chain) + if k == 0 then [edge[k][|edge[k]| - 1].node.addr] else []
      ensures old(nextAddr) <= nextAddr
      ensures Logged(calls, at, edge, linked, k) && Further(calls, old(calls), k) && old(at) <= at
      decreases Created(k) + 1, 4
    {
      hide Above, Allocated, EdgeOk, Up, UpLeaves, Tuples, Leaves, TreeOk, Total, Known, Readdressed, Logged, Pending,
           FirstKey, Further, Fit, AllFit;
      FirstKeyIs(nd, k);
      var key := FirstKey(nd);
      var a := AllocatePage(k, key);
      var newEdge := Edge(Readdressed(nd, a), stats);
      ReaddressedSame(nd, k, a);
      FitAnywhere(leafFits, indexFits, nd, a);
      ghost var edge1, linked1 := Wider(edge, k), WiderCounts(linked, k);
      PutOnEdge(k, newEdge);
      PutLogged(calls, at, edge1, linked1, k, key, newEdge);
    }

    /** Links every page on the edge of a height to its parent. */
    method LinkExtent(k: nat)
      requires Shape() && k <= height && Above(edge, created, linked, k) && Known(Total(Up(edge, k)))
      requires created[k] >= 2 && Logged(calls, at, edge, linked, k + 1)
      modifies this`height, this`edge, this`nextAddr, this`next, this`prev, this`created, this`linked, this`chain
      modifies this`calls, this`at
      ensures Shape() && old(height) <= height && Above(edge, created, linked, k)
      ensures edge[..k] == old(edge[..k]) && created[..k] == old(created[..k]) && linked[..k] == old(linked[..k])
      ensures created[k] == old(created[k]) && edge[k] == [] && (old(edge[k]) != [] ==> k < height)
      ensures linked[k] + |edge[k]| == old(linked[k] + |edge[k]|)
      ensures Up(edge, k) == old(Up(edge, k)) && UpLeaves(edge, k) == old(UpLeaves(edge, k)) && chain == old(chain)
      ensures old(nextAddr) <= nextAddr
      ensures Logged(calls, at, edge, linked, k + 1) && Further(calls, old(calls), k + 1) && old(at) <= at
      decreases created[k], 1
    {
      hide Above, Allocated, EdgeOk, Up, UpLeaves, Tuples, Leaves, TreeOk, Total, Known, Logged, Fit, AllFit;
      while edge[k] != []
        invariant Shape() && old(height) <= height && k <= height && Above(edge, created, linked, k)
        invariant edge[..k] == old(edge[..k]) && created[..k] == old(created[..k]) && linked[..k] == old(linked[..k])
        invariant created[k] == old(created[k]) && (edge[k] == old(edge[k]) || k < height)
        invariant linked[k] + |edge[k]| == old(linked[k] + |edge[k]|)
        invariant Up(edge, k) == old(Up(edge, k)) && UpLeaves(edge, k) == old(UpLeaves(edge, k)) && chain == old(chain)
        invariant old(nextAddr) <= nextAddr
        invariant Logged(calls, at, edge, linked, k + 1) && Further(calls, old(calls), k + 1) && old(at) <= at
        decreases |edge[k]|
      {
        LinkNode(k);
      }
    }

    /** Links the first page on the edge of a height to its parent, which it may have to create. */
    method LinkNode(k: nat)
      requires Shape() && k <= height && edge[k] != [] && Above(edge, created, linked, k)
      requires Known(Total(Up(edge, k))) && created[k] >= 2 && Logged(calls, at, edge, linked, k + 1)
      modifies this`height, this`edge, this`nextAddr, this`next, this`prev, this`created, this`linked, this`chain
      modifies this`calls, this`at
      ensures Shape() && old(height) <= height && k < height && Above(edge, created, linked, k)
      ensures edge[..k] == old(edge[..k]) && created[..k] == old(created[..k]) && linked[..k] == old(linked[..k])
      ensures created[k] == old(created[k]) && edge[k] == old(edge[k])[1..] && linked[k] == old(linked[k]) + 1
      ensures Up(edge, k) == old(Up(edge, k)) && UpLeaves(edge, k) == old(UpLeaves(edge, k)) && chain == old(chain)
      ensures old(nextAddr) <= nextAddr
      ensures Logged(calls, at, edge, linked, k + 1) && Further(calls, old(calls), k + 1) && old(at) <= at
      decreases created[k], 0
    {
      hide Above, Allocated, EdgeOk, Up, UpLeaves, Tuples, Leaves, TreeOk, Total, Known, Accumulate, PivotOk, Logged,
           Fit, AllFit;
      ghost var edge0, created0, linked0 := edge, created, linked;
      var e := edge[k][0];
      TakeFirst(edge, created, linked, k);
      var pivot := Pivot(FirstKey(e.node), e.node, e.stats);
      NewParent(edge, created, linked, k, pivot);
      PopAllocated(edge, chain, next, prev, nextAddr, k);
      PopFits(leafFits, indexFits, edge, k, pivot);
      edge := edge[k := edge[k][1..]];
      linked := linked[k := linked[k] + 1];
      StillLogged(calls, at, edge0, linked0, edge, linked, k + 1, []);
      if k + 1 <= height {
        AddPivot(edge0, created0, linked0, k, pivot);
      }
      if k + 1 <= height && edge[k + 1] != [] && indexFits(edge[k + 1][|edge[k + 1]| - 1].node.pivots, pivot) {
        var last := |edge[k + 1]| - 1;
        var wider := Widened(edge[k + 1][last], pivot);
        ParentAllocated(edge, chain, next, prev, nextAddr, k + 1, wider);
        ParentFits(leafFits, indexFits, edge, k + 1, pivot);
        ghost var narrow := edge;
        edge := edge[k + 1 := edge[k + 1][last := wider]];
        StillLogged(calls, at, narrow, linked, edge, linked, k + 1, Tuples(e.node));
      } else {
        FewParents(edge0, created0, linked0, k);
        CreateNextNode(k + 1, Index(0, [pivot]), Accumulate(NO_STATS, e.stats));
        OnePivot(edge[k + 1], pivot);
        assert edge[k] == edge[..k + 1][k] && created[k] == created[..k + 1][k] && linked[k] == linked[..k + 1][k];
      }
      LinkedOne(edge0, edge, created0, linked0, created, linked, k);
    }

    // ----------------------------------------------------------------- packing

    /** What is on the edges is what has been read. */
    ghost predicate Holds(done: seq<Tuple>)
      reads this
    {
      && Shape() && Above(edge, created, linked, 0) && Up(edge, 0) == done && Known(Total(done))
      && Stats(numTuples, keyBytes, messageBytes) == Total(done) && Addrs(UpLeaves(edge, 0)) == chain
      && (edge[0] == [] ==> height == 0 && chain == []) && Logged(calls, at, edge, linked, 0)
      && Dense(leafFits, UpLeaves(edge, 0))
      && (edge[0] != [] ==> chain != [] && chain[|chain| - 1] == edge[0][|edge[0]| - 1].node.addr)
    }

    constructor (leafFits: (seq<Tuple>, Tuple) -> bool, indexFits: (seq<Pivot>, Pivot) -> bool,
                 shareExtent: (Addr, Addr) -> bool, maxTuples: nat)
      requires forall ps, p :: |ps| < 2 ==> indexFits(ps, p)
      ensures Holds([]) && this.maxTuples == maxTuples && this.leafFits == leafFits && this.indexFits == indexFits
      ensures rootAddr > 0
    {
      this.leafFits, this.indexFits, this.shareExtent := leafFits, indexFits, shareExtent;
      this.maxTuples := maxTuples;
      height, edge, rootAddr, nextAddr, next, prev := 0, [[]], 1, 2, map[], map[];
      numTuples, keyBytes, messageBytes := 0, 0, 0;
      created, linked, chain := [0], [0], [];
      calls, at := [], [];
      new;
      hide *;
      NothingYet();
    }

    lemma NothingYet()
      requires forall ps, p :: |ps| < 2 ==> indexFits(ps, p)
      requires height == 0 && edge == [[]] && rootAddr == 1 && nextAddr == 2 && next == map[] && prev == map[]
      requires numTuples == 0 && keyBytes == 0 && messageBytes == 0
      requires created == [0] && linked == [0] && chain == [] && calls == [] && at == []
      ensures Holds([])
    {
      EmptyEdges(edge, created, linked, chain, next, prev, nextAddr, calls, at);
      hide Above, Allocated, Logged, Dense, AllFit, Up, UpLeaves, Known;
    }

    /** Puts a tuple into a leaf of its own. */
    method NewLeaf(t: Tuple, ghost done: seq<Tuple>)
      requires Holds(done) && Known(OneTuple(t))
      requires edge[0] != [] ==>
        edge[0][|edge[0]| - 1].node.Leaf? && !leafFits(edge[0][|edge[0]| - 1].node.entries, t)
      modifies this`height, this`edge, this`nextAddr, this`next, this`prev, this`created, this`linked, this`chain
      modifies this`calls, this`at
      ensures Shape() && Above(edge, created, linked, 0) && Up(edge, 0) == done + [t]
      ensures |edge| > 0 && edge[0] != [] && Addrs(UpLeaves(edge, 0)) == chain && Logged(calls, at, edge, linked, 0)
      ensures Dense(leafFits, UpLeaves(edge, 0))
      ensures chain != [] && chain[|chain| - 1] == edge[0][|edge[0]| - 1].node.addr
    {
      hide Above, Allocated, Up, UpLeaves, Tuples, Leaves, TreeOk, Total, Below, LeavesBelow, Counted, Logged, Dense;
      hide Fit, AllFit;
      FreshLeaf(t);
      FitOfOne(leafFits, indexFits, 0, t);
      ghost var leaves := UpLeaves(edge, 0);
      if edge[0] == [] {
        NoLeaves(edge);
      } else {
        LastLeaf(edge, created, linked);
      }
      CreateNextNode(0, Leaf(0, [t]), Counted(NO_STATS, t));
      LeafLeaves(edge[0][|edge[0]| - 1].node);
      DenseMore(leafFits, leaves, edge[0][|edge[0]| - 1].node);
    }

    /** Puts a tuple into the current leaf. */
    method GrowLeaf(t: Tuple, ghost done: seq<Tuple>)
      requires Holds(done) && edge[0] != [] && Known(Total(done + [t]))
      requires edge[0][|edge[0]| - 1].node.Leaf? && leafFits(edge[0][|edge[0]| - 1].node.entries, t)
      modifies this`edge
      ensures Shape() && Above(edge, created, linked, 0) && Up(edge, 0) == done + [t]
      ensures |edge| > 0 && edge[0] != [] && Addrs(UpLeaves(edge, 0)) == chain && Logged(calls, at, edge, linked, 0)
      ensures Dense(leafFits, UpLeaves(edge, 0))
      ensures chain != [] && chain[|chain| - 1] == edge[0][|edge[0]| - 1].node.addr
    {
      hide Above, Allocated, Up, UpLeaves, Tuples, Leaves, TreeOk, Total, Below, LeavesBelow, Logged, Dense, Counted;
      hide Fit, AllFit;
      LeafGrows(edge, created, linked, t);
      LastLeaf(edge, created, linked);
      DenseGrows(leafFits, UpLeaves(edge, 0), Fuller(edge[0][|edge[0]| - 1], t).node);
      var last := |edge[0]| - 1;
      var fuller := Fuller(edge[0][last], t);
      SameAddr(edge[0][last], t);
      ParentAllocated(edge, chain, next, prev, nextAddr, 0, fuller);
      LeafFits(leafFits, indexFits, edge, t);
      ghost var narrow := edge;
      edge := edge[0 := edge[0][last := fuller]];
      StillLogged(calls, at, narrow, linked, edge, linked, 0, [t]);
    }

    /** Puts a tuple into the current leaf, or into a new one if it does not fit. */
    method AddToLeaf(t: Tuple, ghost done: seq<Tuple>)
      requires Holds(done) && Known(OneTuple(t)) && Known(Total(done + [t]))
      modifies this`height, this`edge, this`nextAddr, this`next, this`prev, this`created, this`linked, this`chain
      modifies this`calls, this`at
      ensures Shape() && Above(edge, created, linked, 0) && Up(edge, 0) == done + [t]
      ensures |edge| > 0 && edge[0] != [] && Addrs(UpLeaves(edge, 0)) == chain && Logged(calls, at, edge, linked, 0)
      ensures Dense(leafFits, UpLeaves(edge, 0))
      ensures chain != [] && chain[|chain| - 1] == edge[0][|edge[0]| - 1].node.addr
    {
      hide Above, Allocated, Up, UpLeaves, Total, Addrs, Fuller, Logged, Dense, Fit, AllFit;
      if edge[0] != [] {
        LeafGrows(edge, created, linked, t);
      }
      if edge[0] == [] || !leafFits(edge[0][|edge[0]| - 1].node.entries, t) {
        NewLeaf(t, done);
      } else {
        GrowLeaf(t, done);
      }
    }

    lemma HoldsIs(done: seq<Tuple>)
      requires Shape() && Above(edge, created, linked, 0) && |edge| > 0 && Up(edge, 0) == done
      requires Known(Total(done)) && Stats(numTuples, keyBytes, messageBytes) == Total(done)
      requires Addrs(UpLeaves(edge, 0)) == chain && Logged(calls, at, edge, linked, 0)
      requires Dense(leafFits, UpLeaves(edge, 0))
      requires edge[0] != [] && chain != [] && chain[|chain| - 1] == edge[0][|edge[0]| - 1].node.addr
      ensures Holds(done)
    {
    }

    method AddCounted(t: Tuple, ghost done: seq<Tuple>)
      requires Holds(done) && Known(Total(done + [t]))
      modifies this`height, this`edge, this`nextAddr, this`next, this`prev, this`created, this`linked, this`chain
      modifies this`calls, this`at
      modifies this`numTuples, this`keyBytes, this`messageBytes
      ensures Holds(done + [t])
    {
      hide Holds, Above, Allocated, Up, UpLeaves, Total, Known, Addrs, Logged, Dense;
      KnownLast(done, t);
      CountsAre(done);
      AddToLeaf(t, done);
      numTuples, keyBytes, messageBytes := numTuples + 1, keyBytes + |t.key|, messageBytes + |t.msg.data|;
      HoldsIs(done + [t]);
    }

    lemma NumTuples(done: seq<Tuple>)
      requires Holds(done)
      ensures numTuples == |done|
    {
      TotalCounts(done);
    }

    lemma CountsAre(done: seq<Tuple>)
      requires Holds(done)
      ensures Stats(numTuples, keyBytes, messageBytes) == Total(done)
    {
    }

    /** btree_pack_loop: adds one tuple, unless its message is invalid. */
    method PackLoop(t: Tuple, ghost done: seq<Tuple>) returns (ok: bool)
      requires Holds(done) && Known(Total(done + [t]))
      modifies this`height, this`edge, this`nextAddr, this`next, this`prev, this`created, this`linked, this`chain
      modifies this`calls, this`at
      modifies this`numTuples, this`keyBytes, this`messageBytes
      ensures ok <==> !t.msg.kind.Invalid?
      ensures !ok ==> Holds(done)
      ensures ok ==> Holds(done + [t])
    {
      hide *;
      if t.msg.kind.Invalid? {
        return false;
      }
      AddCounted(t, done);
      ok := true;
    }

    /** btree_pack_post_loop: links every edge to its parents, up to the one page left at the top, whose copy is the
        root. An empty tree has none. */
    method PackPostLoop(ghost done: seq<Tuple>) returns (root: Option<Node>, ghost top: nat)
      requires Holds(done)
      modifies this`height, this`edge, this`nextAddr, this`next, this`prev, this`created, this`linked, this`chain
      modifies this`calls, this`at
      ensures root.None? <==> done == []
      ensures root.Some? ==> TreeOk(root.value, top) && Tuples(root.value) == done && root.value.addr == rootAddr
      ensures root.Some? && root.value.Index? ==> Chained(Addrs(Leaves(root.value)), next, prev)
      ensures root.Some? ==> CallsComplete(calls, at, done, top) && top == height
      ensures root.Some? && root.value.Index? ==> Dense(leafFits, Leaves(root.value))
      ensures root.Some? ==> Fit(leafFits, indexFits, root.value)
    {
      hide Above, Allocated, Up, UpLeaves, Tuples, Leaves, TreeOk, Total, Known, Below, LeavesBelow, Addrs, Chained;
      hide Readdressed, Logged, CallsComplete, Dense, Fit, AllFit;
      top := 0;
      NumTuples(done);
      if numTuples == 0 {
        return None, top;
      }
      NothingRead(edge, height);
      var h: nat := 0;
      ReadFurther([], [], calls, at, edge, linked, 0, done);
      while h < height || 1 < |edge[h]|
        invariant Shape() && h <= height && Above(edge, created, linked, h) && edge[h] != []
        invariant Up(edge, h) == done && Known(Total(done)) && Addrs(UpLeaves(edge, h)) == chain
        invariant Logged(calls, at, edge, linked, h) && AllRead(calls, at, done)
        invariant Dense(leafFits, UpLeaves(edge, h))
        decreases created[h]
      {
        BusyHeight(edge, created, linked, h);
        ghost var calls0, at0 := calls, at;
        LessLogged(calls, at, edge, linked, h);
        LinkExtent(h);
        HeightDone(edge, created, linked, h);
        h := h + 1;
        ReadFurther(calls0, at0, calls, at, edge, linked, h, done);
      }
      OneLeft(edge, created, linked, h);
      var node := edge[height][0].node;
      ChainOf(edge, chain, next, prev, nextAddr);
      RootCopied(node, h, rootAddr);
      FitAt(leafFits, indexFits, edge, height, 0);
      FitAnywhere(leafFits, indexFits, node, rootAddr);
      root, top := Some(Readdressed(node, rootAddr)), h;
      TopOnce(calls, at, edge, linked, h, done);
    }
  }

  lemma ChainOf(edge: Edges, chain: seq<Addr>, next: map<Addr, Addr>, prev: map<Addr, Addr>, limit: Addr)
    requires Allocated(edge, chain, next, prev, limit)
    ensures Chained(chain, next, prev)
  {
  }

  lemma NothingRead(edge: Edges, height: nat)
    requires |edge| == height + 1 && (edge[0] == [] ==> height == 0) && Up(edge, 0) != []
    ensures edge[0] != []
  {
  }

  /** A height that is not the top, or holds two pages or more, has had two. */
  lemma BusyHeight(edge: Edges, created: seq<nat>, linked: seq<nat>, h: nat)
    requires Above(edge, created, linked, h) && h < |edge| && (h + 1 < |edge| || 1 < |edge[h]|)
    ensures created[h] >= 2
  {
    AboveAt(edge, created, linked, h, h);
  }

  /** Once every page of a height is linked, everything is above, in fewer pages. */
  lemma HeightDone(edge: Edges, created: seq<nat>, linked: seq<nat>, h: nat)
    requires Above(edge, created, linked, h) && h + 1 < |edge| && edge[h] == []
    ensures Above(edge, created, linked, h + 1) && edge[h + 1] != [] && created[h + 1] < created[h]
    ensures Up(edge, h + 1) == Up(edge, h) && UpLeaves(edge, h + 1) == UpLeaves(edge, h)
  {
    AboveAt(edge, created, linked, h, h);
    AboveLess(edge, created, linked, h, h + 1);
    UpSplit(edge, h);
  }

  lemma OneLeft(edge: Edges, created: seq<nat>, linked: seq<nat>, h: nat)
    requires Above(edge, created, linked, h) && |edge| == h + 1 && |edge[h]| == 1
    ensures TreeOk(edge[h][0].node, h) && Up(edge, h) == Tuples(edge[h][0].node)
    ensures UpLeaves(edge, h) == Leaves(edge[h][0].node)
  {
    AboveAt(edge, created, linked, h, h);
    assert EdgeOk(edge[h][0], h);
    assert edge[h] == [edge[h][0]];
    BelowOne(edge[h][0]);
    UpSplit(edge, h);
    hide Tuples, Leaves, Below, LeavesBelow;
    assert Up(edge, h + 1) == [] && UpLeaves(edge, h + 1) == [];
  }

  lemma RootCopied(nd: Node, h: nat, a: Addr)
    requires TreeOk(nd, h)
    ensures var root := Readdressed(nd, a); TreeOk(root, h) && Tuples(root) == Tuples(nd) && root.addr == a
    ensures nd.Index? ==> Leaves(Readdressed(nd, a)) == Leaves(nd)
    ensures Readdressed(nd, a).Index? <==> nd.Index?
  {
  }

  // -------------------------------------------------------------------- packing

  datatype Outcome = Packed(root: Option<Node>) | LimitExceeded | InvalidState

  ghost predicate Valid(t: Tuple) {
    !t.msg.kind.Invalid?
  }

  /** btree_pack: the tree holds exactly the tuples read, in order, with exact totals. It fails on too many tuples and
      on an invalid message, whichever comes first. */
  method Pack(input: seq<Tuple>, leafFits: (seq<Tuple>, Tuple) -> bool, indexFits: (seq<Pivot>, Pivot) -> bool,
              shareExtent: (Addr, Addr) -> bool, maxTuples: nat)
    returns (outcome: Outcome, req: PackRequest, ghost height: nat)
    requires Known(Total(input)) && forall ps, p :: |ps| < 2 ==> indexFits(ps, p)
    ensures outcome.Packed? <==> |input| <= maxTuples && forall t :: t in input ==> Valid(t)
    ensures outcome.LimitExceeded? <==> maxTuples < |input| && forall t :: t in input[..maxTuples] ==> Valid(t)
    ensures outcome.Packed? ==> (outcome.root.None? <==> input == [])
    ensures outcome.Packed? && outcome.root.Some? ==>
      TreeOk(outcome.root.value, height) && Tuples(outcome.root.value) == input
    ensures outcome.Packed? && outcome.root.Some? && outcome.root.value.Index? ==>
      Chained(Addrs(Leaves(outcome.root.value)), req.next, req.prev)
    ensures outcome.Packed? && outcome.root.Some? ==>
      CallsComplete(req.calls, req.at, input, height) && req.height == height
    ensures outcome.Packed? && outcome.root.Some? && outcome.root.value.Index? ==>
      Dense(leafFits, Leaves(outcome.root.value))
    ensures outcome.Packed? && outcome.root.Some? ==> Fit(leafFits, indexFits, outcome.root.value)
    ensures outcome.Packed? && outcome.root.Some? ==> Measured(outcome.root.value)
    ensures outcome.Packed? ==> Measures(Stats(req.numTuples, req.keyBytes, req.messageBytes), input)
  {
    hide Total, Known, Tuples, TreeOk, Leaves, Chained, Addrs, CallsComplete, Measures, Measured,
         Dense, Fit;
    req := new PackRequest(leafFits, indexFits, shareExtent, maxTuples);
    height := 0;
    var i: nat := 0;
    assert input[..0] == [];
    while i < |input|
      invariant i <= |input| && i <= maxTuples && fresh(req) && req.maxTuples == maxTuples
      invariant req.Holds(input[..i]) && forall t :: t in input[..i] ==> Valid(t)
      decreases |input| - i
    {
      req.NumTuples(input[..i]);
      if !(req.numTuples < req.maxTuples) {
        return LimitExceeded, req, height;
      }
      assert input[..i] + [input[i]] == input[..i + 1];
      PrefixKnown(input, i + 1);
      var ok := req.PackLoop(input[i], input[..i]);
      if !ok {
        assert input[i] in input && (maxTuples < |input| ==> input[i] in input[..maxTuples]);
        return InvalidState, req, height;
      }
      i := i + 1;
    }
    assert input[..i] == input;
    req.CountsAre(input);
    TotalMeasures(input);
    var root;
    root, height := req.PackPostLoop(input);
    outcome := Packed(root);
    if root.Some? {
      TreeMeasured(root.value, height);
    }
  }

  lemma PrefixKnown(ts: seq<Tuple>, n: nat)
    requires Known(Total(ts)) && n <= |ts|
    ensures Known(Total(ts[..n]))
  {
    hide Total;
    TotalOfPart(ts, 0, n);
    assert ts[0..n] == ts[..n];
  }

  /** Packing and then counting: the answer is the number of tuples of the input in the range and their bytes. */
  method PackThenCount(cfg: DataConfig, input: seq<Tuple>, leafFits: (seq<Tuple>, Tuple) -> bool,
                       indexFits: (seq<Pivot>, Pivot) -> bool, shareExtent: (Addr, Addr) -> bool, maxTuples: nat,
                       minKey: Key, maxKey: Key)
    returns (stats: Stats)
    requires Known(Total(input)) && forall ps, p :: |ps| < 2 ==> indexFits(ps, p)
    requires StrictlySorted(cfg, input) && |input| <= maxTuples && forall t :: t in input ==> Valid(t)
    ensures stats == Total(Within(cfg, input, minKey, maxKey)) && Measures(stats, Within(cfg, input, minKey, maxKey))
  {
    hide Total, Tuples, TreeOk, Within, StrictlySorted, Leaves, Addrs, Chained, CallsComplete, Measures,
         Measured, Fit, Dense;
    ghost var height;
    var outcome, req;
    outcome, req, height := Pack(input, leafFits, indexFits, shareExtent, maxTuples);
    if outcome.root.None? {
      stats := NO_STATS;
      NothingWithin(cfg, minKey, maxKey);
      TotalMeasures(Within(cfg, input, minKey, maxKey));
    } else {
      stats := CountInRange(cfg, outcome.root.value, minKey, maxKey, height);
    }
  }

  lemma NothingWithin(cfg: DataConfig, lo: Key, hi: Key)
    ensures Total(Within(cfg, [], lo, hi)) == NO_STATS
  {
  }

  lemma KnownLast(done: seq<Tuple>, t: Tuple)
    requires Known(Total(done + [t]))
    ensures Known(OneTuple(t)) && Total(done + [t]) == Plus(Total(done), OneTuple(t))
  {
    TotalAdds(done, t);
  }

  lemma SameAddr(e: Edge, t: Tuple)
    requires e.node.Leaf?
    ensures Fuller(e, t).node.addr == e.node.addr
  {
  }

  lemma PopAllocated(edge: Edges, chain: seq<Addr>, next: map<Addr, Addr>, prev: map<Addr, Addr>, limit: Addr, k: nat)
    requires Allocated(edge, chain, next, prev, limit) && k < |edge| && edge[k] != []
    ensures Allocated(edge[k := edge[k][1..]], chain, next, prev, limit)
  {
    EdgeAllocated(edge, edge[k := edge[k][1..]], chain, next, prev, limit, k, edge[k][0]);
  }

  lemma ParentAllocated(edge: Edges, chain: seq<Addr>, next: map<Addr, Addr>, prev: map<Addr, Addr>, limit: Addr,
                        k: nat, e: Edge)
    requires Allocated(edge, chain, next, prev, limit) && k < |edge| && edge[k] != []
    requires e.node.addr == edge[k][|edge[k]| - 1].node.addr
    ensures Allocated(edge[k := edge[k][|edge[k]| - 1 := e]], chain, next, prev, limit)
  {
    EdgeAllocated(edge, edge[k := edge[k][|edge[k]| - 1 := e]], chain, next, prev, limit, k, e);
  }

  /** A full parent means many more children than parents. */
  lemma FewParents(edge: Edges, created: seq<nat>, linked: seq<nat>, k: nat)
    requires Above(edge, created, linked, k) && k < |edge| && edge[k] != [] && created[k] >= 2
    requires k + 1 < |edge| ==> LastPivots(edge[k + 1]) >= 2
    ensures (if k + 1 < |edge| then created[k + 1] else 0) + 1 < created[k]
    ensures k + 1 < |edge| ==> 2 * created[k + 1] <= linked[k]
  {
    AboveAt(edge, created, linked, k, k);
  }

  lemma OnePivot(es: seq<Edge>, pivot: Pivot)
    requires es != [] && es[|es| - 1].node == Readdressed(Index(0, [pivot]), es[|es| - 1].node.addr)
    ensures LastPivots(es) == 1 && es[|es| - 1].node == Index(es[|es| - 1].node.addr, [pivot])
  {
  }
}
