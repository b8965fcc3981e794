/** Whole runs of the merge iterator (src/merge.c, and the loop every consumer of an iterator has). */
module MergeRun {
  import opened DataModel
  import opened MergeCopies
  import opened MergeOrder
  import opened MergeIterators

  /** What has been put out when the iterator stands at rank `pos`: the whole merge below it, nothing from it on. */
  ghost predicate Collected(cfg: DataConfig, full: bool, runs: Runs, out: seq<Tuple>, pos: Option<real>) {
    && StrictlySorted(cfg, out)
    && (forall i :: 0 <= i < |out| && pos.Some? ==> cfg.rank(out[i].key) < pos.value)
    && (forall q: real :: pos.None? || q < pos.value ==> At(cfg, out, q) == Emits(cfg, full, Copies(cfg, runs, q)))
  }

  /** Reading a merge iterator to its end, as its consumers do, gives the merge of its children. */
  method MergeAll(cfg: DataConfig, itors: Runs, full: bool) returns (out: seq<Tuple>)
    requires RunsSorted(cfg, itors)
    ensures IsMerge(cfg, full, itors, out)
  {
    hide Copies, At, Emits, TotalLength, SameAbove, Collected, Landed;
    var itor := new MergeIterator(cfg, itors, full);
    out := [];
    CollectedNone(cfg, full, itors, itor.children[..], itor.Position(), itor.Output());
    while itor.canNext
      invariant itor.Usable() && fresh(itor) && fresh(itor.ordered) && fresh(itor.children)
      invariant itor.cfg == cfg && itor.finalizeUpdates == full
      invariant Collected(cfg, full, itors, out, itor.Position())
      invariant StandsAt(cfg, full, itors, itor.children[..], itor.Position(), itor.Output())
      decreases TotalLength(itor.children[..])
    {
      ghost var r, now: Runs := itor.Rank(), itor.children[..];
      var key, data := itor.MergeCurr();
      itor.MergeNext();
      CollectedMore(cfg, full, itors, out, Tuple(key, data), r, now, itor.children[..], itor.Position(),
                    itor.Output());
      out := out + [Tuple(key, data)];
    }
    CollectedAll(cfg, full, itors, out);
  }

  ghost predicate StandsAt(cfg: DataConfig, full: bool, runs: Runs, now: Runs, pos: Option<real>, out: seq<Tuple>) {
    pos.Some? ==> SameAbove(cfg, runs, now, pos.value) && out == Emits(cfg, full, Copies(cfg, runs, pos.value))
  }

  lemma CollectedNone(cfg: DataConfig, full: bool, runs: Runs, now: Runs, pos: Option<real>, out: seq<Tuple>)
    requires Landed(cfg, full, runs, None, now, pos, out)
    ensures Collected(cfg, full, runs, [], pos) && StandsAt(cfg, full, runs, now, pos, out)
  {
    hide Copies, Emits;
  }

  lemma CollectedMore(cfg: DataConfig, full: bool, runs: Runs, out: seq<Tuple>, t: Tuple, r: real, now: Runs,
                      now': Runs, pos': Option<real>, out': seq<Tuple>)
    requires Collected(cfg, full, runs, out, Some(r)) && StandsAt(cfg, full, runs, now, Some(r), [t])
    requires Landed(cfg, full, now, Some(r), now', pos', out')
    ensures Collected(cfg, full, runs, out + [t], pos') && StandsAt(cfg, full, runs, now', pos', out')
  {
    hide Copies, Emits, At;
    EmitsRank(cfg, full, runs, r);
    assert t in [t];
    forall q: real | pos'.None? || q < pos'.value
      ensures At(cfg, out + [t], q) == Emits(cfg, full, Copies(cfg, runs, q))
    {
      AtConcat(cfg, out, [t], q);
      AtOne(cfg, t, q);
      if q >= r {
        AtNone(cfg, out, q);
      }
      if q > r {
        assert Copies(cfg, now, q) == Copies(cfg, runs, q);
      }
    }
  }

  lemma AtOne(cfg: DataConfig, t: Tuple, q: real)
    ensures At(cfg, [t], q) == if cfg.rank(t.key) == q then [t] else []
  {
    assert [t][1..] == [];
  }

  lemma EmitsRank(cfg: DataConfig, full: bool, runs: Runs, r: real)
    ensures forall t :: t in Emits(cfg, full, Copies(cfg, runs, r)) ==> cfg.rank(t.key) == r
  {
    var copies := Copies(cfg, runs, r);
    if copies != [] {
      CopiesRank(cfg, runs, r);
      assert copies[|copies| - 1] in copies;
      FoldKey(cfg, copies);
    }
  }

  lemma FoldKey(cfg: DataConfig, copies: seq<Tuple>)
    requires copies != []
    ensures Fold(cfg, copies).key == copies[|copies| - 1].key
  {
  }

  lemma CollectedAll(cfg: DataConfig, full: bool, runs: Runs, out: seq<Tuple>)
    requires Collected(cfg, full, runs, out, None)
    ensures IsMerge(cfg, full, runs, out)
  {
  }
}
