/** What a merge of several sorted runs of messages means (src/merge.h, src/merge.c). The runs are numbered from
    the oldest to the newest, as the sequence numbers of the ordered iterators are. */
module MergeCopies {
  import opened DataModel
  import opened Meaning

  type Runs = seq<seq<Tuple>>

  ghost predicate RunsSorted(cfg: DataConfig, runs: Runs) {
    forall k :: 0 <= k < |runs| ==> StrictlySorted(cfg, runs[k])
  }

  /** The tuples of one run whose key ranks at r. */
  ghost function At(cfg: DataConfig, ts: seq<Tuple>, r: real): seq<Tuple> {
    if ts == [] then []
    else (if cfg.rank(ts[0].key) == r then [ts[0]] else []) + At(cfg, ts[1..], r)
  }

  /** Every run's tuples at rank r, the newest run's first. */
  ghost function Copies(cfg: DataConfig, runs: Runs, r: real): seq<Tuple> {
    if runs == [] then []
    else At(cfg, runs[|runs| - 1], r) + Copies(cfg, runs[..|runs| - 1], r)
  }

  /** The copies of one key folded from the newest to the oldest; the key bytes are the oldest copy's. */
  function Fold(cfg: DataConfig, copies: seq<Tuple>): Tuple
    requires copies != []
  {
    var n := |copies| - 1;
    if n == 0 then copies[0]
    else
      var newer := Fold(cfg, copies[..n]);
      Tuple(copies[n].key, MergeTuples(cfg, newer.key, copies[n].msg, newer.msg))
  }

  /** A full merge treats the oldest copy as having nothing below it. */
  function Finished(cfg: DataConfig, full: bool, t: Tuple): Tuple {
    if full then Tuple(t.key, MergeTuplesFinal(cfg, t.key, t.msg)) else t
  }

  /** What a merge puts out for one key: a full merge leaves out keys that end deleted. */
  function Emits(cfg: DataConfig, full: bool, copies: seq<Tuple>): seq<Tuple> {
    if copies == [] then []
    else
      var t := Finished(cfg, full, Fold(cfg, copies));
      if full && t.msg.kind.Delete? then [] else [t]
  }

  /** out is the merge of the runs: increasing keys, and at every rank exactly what the copies there give. */
  ghost predicate IsMerge(cfg: DataConfig, full: bool, runs: Runs, out: seq<Tuple>) {
    StrictlySorted(cfg, out) && forall r: real :: At(cfg, out, r) == Emits(cfg, full, Copies(cfg, runs, r))
  }

  // --------------------------------------------------------- one run at a rank

  lemma {:induction false} AtNone(cfg: DataConfig, ts: seq<Tuple>, r: real)
    requires forall i :: 0 <= i < |ts| ==> cfg.rank(ts[i].key) != r
    ensures At(cfg, ts, r) == []
  {
    if ts != [] {
      assert cfg.rank(ts[0].key) != r;
      AtNone(cfg, ts[1..], r);
    }
  }

  /** The first tuple of a sorted run is its only one at its rank, and removing it changes no other rank. */
  lemma AtHead(cfg: DataConfig, ts: seq<Tuple>, r: real)
    requires ts != [] && StrictlySorted(cfg, ts)
    ensures r == cfg.rank(ts[0].key) ==> At(cfg, ts, r) == [ts[0]] && At(cfg, ts[1..], r) == []
    ensures r != cfg.rank(ts[0].key) ==> At(cfg, ts, r) == At(cfg, ts[1..], r)
    ensures r < cfg.rank(ts[0].key) ==> At(cfg, ts, r) == []
    ensures StrictlySorted(cfg, ts[1..])
  {
    if r <= cfg.rank(ts[0].key) {
      AtNone(cfg, ts[1..], r);
    }
  }

  lemma {:induction false} AtConcat(cfg: DataConfig, xs: seq<Tuple>, ys: seq<Tuple>, r: real)
    ensures At(cfg, xs + ys, r) == At(cfg, xs, r) + At(cfg, ys, r)
  {
    if xs == [] {
      assert xs + ys == ys;
    } else {
      assert (xs + ys)[1..] == xs[1..] + ys;
      AtConcat(cfg, xs[1..], ys, r);
    }
  }

  lemma {:induction false} AtRank(cfg: DataConfig, ts: seq<Tuple>, r: real)
    ensures forall t :: t in At(cfg, ts, r) ==> t in ts && cfg.rank(t.key) == r
  {
    if ts != [] {
      AtRank(cfg, ts[1..], r);
    }
  }

  /** A sorted output is fixed by what it holds at each rank, so a merge has one result. */
  lemma {:induction false} MergeUnique(cfg: DataConfig, full: bool, runs: Runs, xs: seq<Tuple>, ys: seq<Tuple>)
    requires IsMerge(cfg, full, runs, xs) && IsMerge(cfg, full, runs, ys)
    ensures xs == ys
  {
    forall r: real ensures At(cfg, xs, r) == At(cfg, ys, r) {
      assert At(cfg, xs, r) == Emits(cfg, full, Copies(cfg, runs, r));
    }
    SameAtEveryRank(cfg, xs, ys);
  }

  lemma OneEmpty(cfg: DataConfig, xs: seq<Tuple>, ys: seq<Tuple>)
    requires (xs == []) != (ys == [])
    ensures exists r: real :: At(cfg, xs, r) != At(cfg, ys, r)
  {
    var r := cfg.rank((if xs == [] then ys else xs)[0].key);
    assert At(cfg, xs, r) != At(cfg, ys, r);
  }

  lemma {:induction false} SameAtEveryRank(cfg: DataConfig, xs: seq<Tuple>, ys: seq<Tuple>)
    requires StrictlySorted(cfg, xs) && StrictlySorted(cfg, ys)
    requires forall r: real :: At(cfg, xs, r) == At(cfg, ys, r)
    ensures xs == ys
  {
    if xs == [] && ys == [] {
    } else if xs == [] || ys == [] {
      assert false by { OneEmpty(cfg, xs, ys); }
    } else {
      var p, q := cfg.rank(xs[0].key), cfg.rank(ys[0].key);
      assert At(cfg, xs, p) == At(cfg, ys, p) && At(cfg, xs, q) == At(cfg, ys, q);
      AtHead(cfg, xs, p); AtHead(cfg, xs, q); AtHead(cfg, ys, p); AtHead(cfg, ys, q);
      assert p == q && xs[0] == ys[0];
      forall r: real ensures At(cfg, xs[1..], r) == At(cfg, ys[1..], r) {
        AtHead(cfg, xs, r);
        AtHead(cfg, ys, r);
        assert At(cfg, xs, r) == At(cfg, ys, r);
      }
      SameAtEveryRank(cfg, xs[1..], ys[1..]);
      assert xs == [xs[0]] + xs[1..] && ys == [ys[0]] + ys[1..];
    }
  }

  // ------------------------------------------------------- all runs at a rank

  /** Run k starts with the least key, and with the newest copy of that key. */
  ghost predicate LeastHead(cfg: DataConfig, runs: Runs, k: nat) {
    && k < |runs| && runs[k] != []
    && forall j :: 0 <= j < |runs| && j != k && runs[j] != [] ==> HeadBefore(cfg, runs, k, j)
  }

  ghost predicate HeadBefore(cfg: DataConfig, runs: Runs, k: nat, j: nat)
    requires k < |runs| && j < |runs| && runs[k] != [] && runs[j] != []
  {
    var rk, rj := cfg.rank(runs[k][0].key), cfg.rank(runs[j][0].key);
    rk < rj || (rk == rj && k > j)
  }

  ghost function WithoutHead(runs: Runs, k: nat): Runs
    requires k < |runs| && runs[k] != []
  {
    runs[k := runs[k][1..]]
  }

  lemma SortedWithoutHead(cfg: DataConfig, runs: Runs, k: nat)
    requires k < |runs| && runs[k] != [] && RunsSorted(cfg, runs)
    ensures RunsSorted(cfg, WithoutHead(runs, k))
  {
    assert StrictlySorted(cfg, runs[k]);
  }

  /** Taking the least head takes the newest copy of the least key and nothing else. */
  lemma {:induction false} TakeHead(cfg: DataConfig, runs: Runs, k: nat, q: real)
    requires RunsSorted(cfg, runs) && LeastHead(cfg, runs, k)
    ensures q == cfg.rank(runs[k][0].key) ==>
      Copies(cfg, runs, q) == [runs[k][0]] + Copies(cfg, WithoutHead(runs, k), q)
    ensures q != cfg.rank(runs[k][0].key) ==> Copies(cfg, runs, q) == Copies(cfg, WithoutHead(runs, k), q)
    decreases |runs|
  {
    var n := |runs| - 1;
    var r := cfg.rank(runs[k][0].key);
    var less := WithoutHead(runs, k);
    assert StrictlySorted(cfg, runs[n]) && StrictlySorted(cfg, runs[k]);
    if k == n {
      AtHead(cfg, runs[n], q);
      assert less[..n] == runs[..n];
    } else {
      assert less[..n] == WithoutHead(runs[..n], k) && less[n] == runs[n];
      LeastOfPrefix(cfg, runs, k, n);
      TakeHead(cfg, runs[..n], k, q);
      if q == r && runs[n] != [] {
        assert HeadBefore(cfg, runs, k, n);
        AtHead(cfg, runs[n], q);
      }
    }
  }

  lemma LeastOfPrefix(cfg: DataConfig, runs: Runs, k: nat, n: nat)
    requires RunsSorted(cfg, runs) && LeastHead(cfg, runs, k) && k < n <= |runs|
    ensures RunsSorted(cfg, runs[..n]) && LeastHead(cfg, runs[..n], k)
  {
    forall j | 0 <= j < n && j != k && runs[..n][j] != [] ensures HeadBefore(cfg, runs[..n], k, j) {
      assert HeadBefore(cfg, runs, k, j);
    }
  }

  /** No copies at a rank below every head. */
  lemma {:induction false} NoCopies(cfg: DataConfig, runs: Runs, q: real)
    requires RunsSorted(cfg, runs)
    requires forall j :: 0 <= j < |runs| && runs[j] != [] ==> q < cfg.rank(runs[j][0].key)
    ensures Copies(cfg, runs, q) == []
    decreases |runs|
  {
    if runs != [] {
      var n := |runs| - 1;
      assert StrictlySorted(cfg, runs[n]);
      if runs[n] != [] {
        AtHead(cfg, runs[n], q);
      }
      NoCopies(cfg, runs[..n], q);
    }
  }

  lemma {:induction false} CopiesConcat(cfg: DataConfig, older: Runs, newer: Runs, r: real)
    ensures Copies(cfg, older + newer, r) == Copies(cfg, newer, r) + Copies(cfg, older, r)
    decreases |newer|
  {
    if newer == [] {
      assert older + newer == older;
    } else {
      var n := |newer| - 1;
      assert (older + newer)[..|older| + n] == older + newer[..n];
      CopiesConcat(cfg, older, newer[..n], r);
    }
  }

  lemma {:induction false} CopiesRank(cfg: DataConfig, runs: Runs, r: real)
    ensures forall t :: t in Copies(cfg, runs, r) ==> cfg.rank(t.key) == r
    decreases |runs|
  {
    if runs != [] {
      AtRank(cfg, runs[|runs| - 1], r);
      CopiesRank(cfg, runs[..|runs| - 1], r);
    }
  }

  ghost function TotalLength(runs: Runs): nat {
    if runs == [] then 0 else |runs[|runs| - 1]| + TotalLength(runs[..|runs| - 1])
  }

  lemma {:induction false} TotalDrops(runs: Runs, k: nat)
    requires k < |runs| && runs[k] != []
    ensures TotalLength(WithoutHead(runs, k)) < TotalLength(runs)
    decreases |runs|
  {
    var n := |runs| - 1;
    var less := WithoutHead(runs, k);
    if k == n {
      assert less[..n] == runs[..n];
    } else {
      assert less[..n] == WithoutHead(runs[..n], k);
      TotalDrops(runs[..n], k);
    }
  }

  // ------------------------------------------------------------ what it means

  /** The value left by applying the copies, given newest first, to x. */
  ghost function ApplyAll<V>(apply: (Bytes, Message, Option<V>) -> Option<V>, copies: seq<Tuple>,
                             x: Option<V>): Option<V> {
    if copies == [] then x else apply(copies[0].key, copies[0].msg, ApplyAll(apply, copies[1..], x))
  }

  lemma {:induction false} ApplyConcat<V>(apply: (Bytes, Message, Option<V>) -> Option<V>, xs: seq<Tuple>,
                                          ys: seq<Tuple>, x: Option<V>)
    ensures ApplyAll(apply, xs + ys, x) == ApplyAll(apply, xs, ApplyAll(apply, ys, x))
  {
    if xs == [] {
      assert xs + ys == ys;
    } else {
      assert (xs + ys)[1..] == xs[1..] + ys;
      ApplyConcat(apply, xs[1..], ys, x);
    }
  }

  lemma {:induction false} FoldMeaning<V(!new)>(cfg: DataConfig, apply: (Bytes, Message, Option<V>) -> Option<V>,
                                                copies: seq<Tuple>, r: real, x: Option<V>)
    requires Lawful(cfg, apply) && copies != [] && forall t :: t in copies ==> cfg.rank(t.key) == r
    ensures cfg.rank(Fold(cfg, copies).key) == r
    ensures ApplyAll(apply, [Fold(cfg, copies)], x) == ApplyAll(apply, copies, x)
    decreases |copies|
  {
    var n := |copies| - 1;
    var oldest := copies[n];
    assert oldest in copies;
    if n == 0 {
      assert copies == [oldest];
    } else {
      var newer := Fold(cfg, copies[..n]);
      var below := apply(oldest.key, oldest.msg, x);
      FoldMeaning(cfg, apply, copies[..n], r, below);
      ApplyConcat(apply, copies[..n], [oldest], x);
      assert copies[..n] + [oldest] == copies;
      ApplyOne(apply, oldest, x);
      ApplyOne(apply, newer, below);
      MergeMeaning(cfg, apply, newer.key, oldest.msg, newer.msg, x);
      ApplyOne(apply, Fold(cfg, copies), x);
    }
  }

  lemma ApplyOne<V>(apply: (Bytes, Message, Option<V>) -> Option<V>, t: Tuple, x: Option<V>)
    ensures ApplyAll(apply, [t], x) == apply(t.key, t.msg, x)
  {
    assert [t][1..] == [];
  }

  /** Merging loses nothing: at every rank the output acts on any older value as all the copies did. A full merge
      does so on an absent value, and what it puts out is all inserts. */
  lemma MergeKeepsMeaning<V(!new)>(cfg: DataConfig, apply: (Bytes, Message, Option<V>) -> Option<V>, full: bool,
                                   runs: Runs, out: seq<Tuple>, r: real, x: Option<V>)
    requires Lawful(cfg, apply) && IsMerge(cfg, full, runs, out)
    requires full ==> x == None
    ensures ApplyAll(apply, At(cfg, out, r), x) == ApplyAll(apply, Copies(cfg, runs, r), x)
    ensures full ==> forall t :: t in At(cfg, out, r) ==> t.msg.kind.Insert?
  {
    var copies := Copies(cfg, runs, r);
    assert At(cfg, out, r) == Emits(cfg, full, copies);
    if copies != [] {
      CopiesRank(cfg, runs, r);
      FoldMeaning(cfg, apply, copies, r, x);
      var t := Fold(cfg, copies);
      ApplyOne(apply, t, x);
      ApplyOne(apply, Finished(cfg, full, t), x);
    }
  }

  /** What a run makes of x: it has at most one tuple of a rank. */
  function ApplyRun<V>(cfg: DataConfig, apply: (Bytes, Message, Option<V>) -> Option<V>, run: seq<Tuple>, r: real,
                       x: Option<V>): Option<V> {
    if run == [] then x
    else if cfg.rank(run[0].key) == r then apply(run[0].key, run[0].msg, x)
    else ApplyRun(cfg, apply, run[1..], r, x)
  }

  /** What the runs make of x, one after the other, the oldest run, which is the first, before the newer ones. */
  function ApplyRuns<V>(cfg: DataConfig, apply: (Bytes, Message, Option<V>) -> Option<V>, runs: Runs, r: real,
                        x: Option<V>): Option<V> {
    if runs == [] then x else ApplyRuns(cfg, apply, runs[1..], r, ApplyRun(cfg, apply, runs[0], r, x))
  }

  lemma {:induction false} AtMeans<V>(cfg: DataConfig, apply: (Bytes, Message, Option<V>) -> Option<V>,
                                      run: seq<Tuple>, r: real, x: Option<V>)
    requires StrictlySorted(cfg, run)
    ensures ApplyAll(apply, At(cfg, run, r), x) == ApplyRun(cfg, apply, run, r, x)
  {
    if run != [] {
      if cfg.rank(run[0].key) == r {
        AtNone(cfg, run[1..], r);
        assert At(cfg, run, r) == [run[0]];
        ApplyOne(apply, run[0], x);
      } else {
        AtMeans(cfg, apply, run[1..], r, x);
        assert At(cfg, run, r) == At(cfg, run[1..], r);
      }
    }
  }

  lemma {:induction false} RunsMean<V>(cfg: DataConfig, apply: (Bytes, Message, Option<V>) -> Option<V>, runs: Runs,
                                       r: real, x: Option<V>)
    requires RunsSorted(cfg, runs)
    ensures ApplyAll(apply, Copies(cfg, runs, r), x) == ApplyRuns(cfg, apply, runs, r, x)
    decreases |runs|
  {
    if runs != [] {
      var first, rest := [runs[0]], runs[1..];
      assert first + rest == runs;
      CopiesConcat(cfg, first, rest, r);
      assert first[..0] == [];
      assert Copies(cfg, first, r) == At(cfg, runs[0], r);
      ApplyConcat(apply, Copies(cfg, rest, r), At(cfg, runs[0], r), x);
      AtMeans(cfg, apply, runs[0], r, x);
      RunsMean(cfg, apply, rest, r, ApplyRun(cfg, apply, runs[0], r, x));
    }
  }

  /** A merge of sorted runs does to every older value what the runs do, the oldest first. */
  lemma MergeActs<V(!new)>(cfg: DataConfig, apply: (Bytes, Message, Option<V>) -> Option<V>, full: bool, runs: Runs,
                           out: seq<Tuple>, r: real, x: Option<V>)
    requires Lawful(cfg, apply) && IsMerge(cfg, full, runs, out) && RunsSorted(cfg, runs)
    requires full ==> x == None
    ensures ApplyRun(cfg, apply, out, r, x) == ApplyRuns(cfg, apply, runs, r, x)
  {
    hide Lawful;
    MergeKeepsMeaning(cfg, apply, full, runs, out, r, x);
    AtMeans(cfg, apply, out, r, x);
    RunsMean(cfg, apply, runs, r, x);
  }

  /** Compaction: putting the merge of adjacent runs in their place changes no lookup through all the runs. */
  lemma CompactionKeepsLookups<V(!new)>(cfg: DataConfig, apply: (Bytes, Message, Option<V>) -> Option<V>,
                                        full: bool, older: Runs, merged: Runs, newer: Runs, out: seq<Tuple>,
                                        r: real)
    requires Lawful(cfg, apply) && IsMerge(cfg, full, merged, out)
    requires full ==> older == []
    ensures ApplyAll(apply, Copies(cfg, older + [out] + newer, r), None)
         == ApplyAll(apply, Copies(cfg, older + merged + newer, r), None)
  {
    hide IsMerge, Lawful;
    var base := ApplyAll(apply, Copies(cfg, older, r), None);
    CopiesConcat(cfg, older + [out], newer, r);
    CopiesConcat(cfg, older, [out], r);
    CopiesConcat(cfg, older + merged, newer, r);
    CopiesConcat(cfg, older, merged, r);
    assert [out][..0] == [];
    assert Copies(cfg, [out], r) == At(cfg, out, r);
    ApplyConcat(apply, Copies(cfg, newer, r), Copies(cfg, older + [out], r), None);
    ApplyConcat(apply, Copies(cfg, newer, r), Copies(cfg, older + merged, r), None);
    ApplyConcat(apply, At(cfg, out, r), Copies(cfg, older, r), None);
    ApplyConcat(apply, Copies(cfg, merged, r), Copies(cfg, older, r), None);
    MergeKeepsMeaning(cfg, apply, full, merged, out, r, base);
  }
}
