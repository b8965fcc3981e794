/** Inserting one tuple into a leaf (src/btree.c): search, merge with the old message, and the choice
    between defragmenting and splitting when there is no room. */
module LeafInsert {
  import opened DataModel
  import opened LeafPage
  import opened LeafSpace
  import opened Leaf
  import opened LeafSplit
  import opened KeySearch
  import opened Meaning

  const INDEX_ENTRY: nat := 23  // sizeof(index_entry)

  /** Page sizes: 2048 is the smallest power of two that passes the assertion of btree_config_init, and
      node offsets are 16 bits wide. */
  predicate LegalPageSize(p: nat) { 2048 <= p < 65536 }

  /** MAX_INLINE_KEY_SIZE and MAX_INLINE_MESSAGE_SIZE */
  predicate LegalTuple(t: Tuple, p: nat) {
    |t.key| <= p / 8 && |t.msg.data| <= 35 * p / 100
  }

  ghost predicate LegalTuples(ts: seq<Tuple>, p: nat) {
    forall i :: 0 <= i < |ts| ==> LegalTuple(ts[i], p)
  }

  /** The assertion of btree_config_init, and a little more. */
  lemma LegalIsBounded(t: Tuple, p: nat)
    requires LegalPageSize(p) && LegalTuple(t, p)
    ensures SLOT + Capacity(t) < (p - HEADER) / 2 && Capacity(t) + INDEX_ENTRY < p / 2
  {
  }

  /** The message stored for a key, if any. */
  function Find(cfg: DataConfig, es: seq<Tuple>, r: real): Option<Message> {
    if |es| == 0 then None
    else if cfg.rank(es[|es| - 1].key) == r then Some(es[|es| - 1].msg)
    else Find(cfg, es[..|es| - 1], r)
  }

  lemma {:induction false} FindAt(cfg: DataConfig, es: seq<Tuple>, i: nat)
    requires StrictlySorted(cfg, es) && i < |es|
    ensures Find(cfg, es, cfg.rank(es[i].key)) == Some(es[i].msg)
  {
    if i < |es| - 1 {
      FindAt(cfg, es[..|es| - 1], i);
    }
  }

  lemma {:induction false} FindNowhere(cfg: DataConfig, es: seq<Tuple>, r: real)
    requires forall i :: 0 <= i < |es| ==> cfg.rank(es[i].key) != r
    ensures Find(cfg, es, r) == None
  {
    if |es| > 0 {
      FindNowhere(cfg, es[..|es| - 1], r);
    }
  }

  /** Where btree_find_tuple places a key among sorted entries. */
  ghost predicate Position(cfg: DataConfig, es: seq<Tuple>, key: Bytes, idx: int, found: bool) {
    KeyPosition(cfg, KeysOf(es), key, idx, found)
  }

  /** btree_find_tuple */
  method FindTuple(cfg: DataConfig, leaf: LeafNode, target: Bytes) returns (idx: int, found: bool)
    requires leaf.Valid() && StrictlySorted(cfg, leaf.View())
    ensures Position(cfg, leaf.View(), target, idx, found)
  {
    hide Layout;
    ghost var es := leaf.View();
    var lo, hi := 0, leaf.numEntries;
    while lo < hi
      invariant 0 <= lo <= hi <= leaf.numEntries
      invariant forall i :: 0 <= i < lo ==> cfg.rank(es[i].key) < cfg.rank(target)
      invariant forall i :: hi <= i < |es| ==> cfg.rank(target) < cfg.rank(es[i].key)
    {
      var mid := (lo + hi) / 2;
      var t := leaf.GetLeafEntry(mid);
      if cfg.rank(t.key) == cfg.rank(target) {
        return mid, true;
      } else if cfg.rank(t.key) < cfg.rank(target) {
        lo := mid + 1;
      } else {
        hi := mid;
      }
    }
    return lo - 1, false;
  }

  /** The message btree_insert leaves for the key: merged over the old one, or as given. */
  function Upserted(cfg: DataConfig, key: Bytes, older: Option<Message>, msg: Message): Message {
    match older case None => msg case Some(m) => MergeTuples(cfg, key, m, msg)
  }

  /** btree_create_leaf_incorporate_spec: carrying the spec out upserts the key and nothing else. */
  method CreateSpec(cfg: DataConfig, leaf: LeafNode, key: Bytes, msg: Message) returns (spec: IncorporateSpec)
    requires leaf.Valid() && StrictlySorted(cfg, leaf.View())
    ensures fresh(spec) && spec.For(leaf.numEntries) && !spec.state.HasBeenRemoved?
    ensures spec.tuple.key == key
    ensures spec.state.StillExists? ==> cfg.rank(leaf.View()[spec.idx].key) == cfg.rank(key)
    ensures var es, result := leaf.View(), Incorporated(leaf.View(), spec.idx, spec.state, spec.tuple);
      && spec.tuple.msg == Upserted(cfg, key, Find(cfg, es, cfg.rank(key)), msg)
      && (spec.state.StillExists? <==> Find(cfg, es, cfg.rank(key)).Some?)
      && UpsertOf(cfg, es, result, key, msg)
    ensures DoesBoth(cfg, key, Find(cfg, leaf.View(), cfg.rank(key)), msg, spec.tuple.msg)
    ensures TakesMessage(cfg, leaf.View(), Incorporated(leaf.View(), spec.idx, spec.state, spec.tuple), key, msg)
  {
    hide Layout;
    ghost var es := leaf.View();
    var idx, found := FindTuple(cfg, leaf, key);
    FoundOrNot(cfg, es, key, idx, found);
    if !found {
      spec := new IncorporateSpec(Tuple(key, msg), idx + 1, DidNotExist);
    } else {
      var entry := leaf.GetLeafEntry(idx);
      spec := new IncorporateSpec(Tuple(key, MergeTuples(cfg, key, entry.msg, msg)), idx, StillExists);
    }
    UpsertMeaning(cfg, es, key, msg, idx, found);
    UpsertTakes(cfg, es, Incorporated(es, spec.idx, spec.state, spec.tuple), key, msg);
    UpsertedDoesBoth(cfg, key, Find(cfg, es, cfg.rank(key)), msg);
  }

  lemma UpsertedDoesBoth(cfg: DataConfig, key: Bytes, older: Option<Message>, msg: Message)
    ensures DoesBoth(cfg, key, older, msg, Upserted(cfg, key, older, msg))
  {
    if older.Some? {
      forall apply: Apply, x: Option<Bytes> | Lawful(cfg, apply)
        ensures apply(key, Upserted(cfg, key, older, msg), x) == apply(key, msg, Left(apply, key, older, x))
      {
        MergeMeaning(cfg, apply, key, older.value, msg, x);
      }
    }
  }

  /** What is stored for the key does to every value what was stored before and then the message do; other keys keep
      their messages. */
  ghost predicate TakesMessage(cfg: DataConfig, es: seq<Tuple>, result: seq<Tuple>, key: Bytes, msg: Message) {
    var r := cfg.rank(key);
    && StrictlySorted(cfg, result)
    && Find(cfg, result, r).Some? && DoesBoth(cfg, key, Find(cfg, es, r), msg, Find(cfg, result, r).value)
    && forall q :: q != r ==> Find(cfg, result, q) == Find(cfg, es, q)
  }

  lemma UpsertTakes(cfg: DataConfig, es: seq<Tuple>, result: seq<Tuple>, key: Bytes, msg: Message)
    requires UpsertOf(cfg, es, result, key, msg)
    ensures TakesMessage(cfg, es, result, key, msg)
  {
    hide Find, Upserted, DoesBoth;
    UpsertedDoesBoth(cfg, key, Find(cfg, es, cfg.rank(key)), msg);
  }

  /** `result` is `es` with `msg` upserted at `key`: still sorted, and every other key keeps its message. */
  ghost predicate UpsertOf(cfg: DataConfig, es: seq<Tuple>, result: seq<Tuple>, key: Bytes, msg: Message) {
    && StrictlySorted(cfg, result)
    && forall r :: Find(cfg, result, r)
        == if r == cfg.rank(key) then Some(Upserted(cfg, key, Find(cfg, es, r), msg)) else Find(cfg, es, r)
  }

  lemma FoundOrNot(cfg: DataConfig, es: seq<Tuple>, key: Bytes, idx: int, found: bool)
    requires StrictlySorted(cfg, es) && Position(cfg, es, key, idx, found)
    ensures Find(cfg, es, cfg.rank(key)) == if found then Some(es[idx].msg) else None
  {
    if found {
      FindAt(cfg, es, idx);
    } else {
      FindNowhere(cfg, es, cfg.rank(key));
    }
  }

  lemma UpsertMeaning(cfg: DataConfig, es: seq<Tuple>, key: Bytes, msg: Message, idx: int, found: bool)
    requires StrictlySorted(cfg, es) && Position(cfg, es, key, idx, found)
    ensures var t := Tuple(key, Upserted(cfg, key, Find(cfg, es, cfg.rank(key)), msg));
      UpsertOf(cfg, es, Incorporated(es, if found then idx else idx + 1, if found then StillExists else DidNotExist, t),
               key, msg)
  {
    hide Find, Incorporated;
    FoundOrNot(cfg, es, key, idx, found);
    var t := Tuple(key, Upserted(cfg, key, Find(cfg, es, cfg.rank(key)), msg));
    var at := if found then idx else idx + 1;
    var result := Incorporated(es, at, if found then StillExists else DidNotExist, t);
    UpsertSorted(cfg, es, t, idx, found);
    forall r ensures Find(cfg, result, r) == if r == cfg.rank(key) then Some(t.msg) else Find(cfg, es, r) {
      FindUpserted(cfg, es, result, at, found, t, r);
    }
  }

  lemma UpsertSorted(cfg: DataConfig, es: seq<Tuple>, t: Tuple, idx: int, found: bool)
    requires StrictlySorted(cfg, es) && Position(cfg, es, t.key, idx, found)
    ensures StrictlySorted(cfg, Incorporated(es, if found then idx else idx + 1,
                                             if found then StillExists else DidNotExist, t))
  {
  }

  /** Entry by entry, what an upsert at position `at` does. */
  lemma UpsertIndices(es: seq<Tuple>, at: nat, found: bool, t: Tuple)
    requires if found then at < |es| else at <= |es|
    ensures var result := Incorporated(es, at, if found then StillExists else DidNotExist, t);
      && |result| == (if found then |es| else |es| + 1) && result[at] == t
      && (forall i :: 0 <= i < at ==> result[i] == es[i])
      && (forall i :: at < i < |result| ==> result[i] == es[if found then i else i - 1])
  {
  }

  lemma FindUpserted(cfg: DataConfig, es: seq<Tuple>, result: seq<Tuple>, at: nat, found: bool, t: Tuple, r: real)
    requires StrictlySorted(cfg, es) && StrictlySorted(cfg, result)
    requires if found then at < |es| else at <= |es|
    requires result == Incorporated(es, at, if found then StillExists else DidNotExist, t)
    requires found ==> cfg.rank(es[at].key) == cfg.rank(t.key)
    ensures Find(cfg, result, r) == if r == cfg.rank(t.key) then Some(t.msg) else Find(cfg, es, r)
  {
    hide Find, Incorporated;
    UpsertIndices(es, at, found, t);
    if r == cfg.rank(t.key) {
      FindAt(cfg, result, at);
    } else if i :| 0 <= i < |es| && cfg.rank(es[i].key) == r {
      FindAt(cfg, es, i);
      FindAt(cfg, result, if i < at || found then i else i + 1);
    } else {
      FindNowhere(cfg, es, r);
      forall j | 0 <= j < |result| ensures cfg.rank(result[j].key) != r {
        if j != at {
          assert result[j] == es[if j < at || found then j else j - 1];
        }
      }
      FindNowhere(cfg, result, r);
    }
  }

  // --------------------------------------------------- a leaf without room

  /** The counting loop of btree_defragment_or_split_child_leaf. */
  method LiveBytes(child: LeafNode, spec: IncorporateSpec) returns (liveBytes: nat)
    requires child.Valid() && spec.For(child.numEntries)
    ensures liveBytes == CapacitySum(Kept(child.View(), 0, spec.Removed()))
  {
    hide Layout;
    ghost var es, removed := child.View(), spec.Removed();
    liveBytes := 0;
    var i := 0;
    while i < child.numEntries
      invariant i <= child.numEntries
      invariant liveBytes == CapacitySum(Kept(es[..i], 0, removed))
    {
      if !spec.state.StillExists? || i != spec.idx {
        var entry := child.GetLeafEntry(i);
        liveBytes := liveBytes + Capacity(entry);
      }
      KeptGrows(es, i, removed);
      i := i + 1;
    }
    assert es[..i] == es;
  }

  /** The numbering of the old_entry_state enumeration. */
  function StateNumber(s: EntryState): nat {
    match s case DidNotExist => 0 case StillExists => 1 case HasBeenRemoved => 2
  }

  /** btree_defragment_or_split_child_leaf.  The table space is counted as written: the conditional takes
      `nentries + state == STILL_EXISTS` as its condition, so one index entry stands for the whole table.
      Half a page of entries leaves room for their slots all the same. */
  method DefragmentOrSplitChildLeaf(cfg: DataConfig, child: LeafNode, childAddr: nat, spec: IncorporateSpec,
                                    right: LeafNode, rightAddr: nat)
    returns (didSplit: bool, pivot: Bytes)
    requires child.Valid() && spec.For(child.numEntries) && !spec.state.HasBeenRemoved? && child.numEntries > 0
    requires spec.state.StillExists? ==> cfg.rank(child.View()[spec.idx].key) == cfg.rank(spec.tuple.key)
    requires right != child && right.page != child.page && right.page.Length == child.page.Length
    requires LegalPageSize(child.page.Length) && LegalTuples(child.View() + [spec.tuple], child.page.Length)
    modifies child, child.page, right, right.page, spec
    ensures child.Valid()
    ensures var result := old(Incorporated(child.View(), spec.idx, spec.state, spec.tuple));
      if didSplit then CapacitySum(result) + INDEX_ENTRY >= child.page.Length / 2
      else CapacitySum(result) < child.page.Length / 2
    ensures !didSplit ==>
      && child.View() == old(Incorporated(child.View(), spec.idx, spec.state, spec.tuple))
      && child.nextAddr == old(child.nextAddr) && child.prevAddr == old(child.prevAddr)
      && unchanged(right) && unchanged(right.page)
    ensures didSplit ==>
      && right.Valid()
      && child.View() + right.View() == old(Incorporated(child.View(), spec.idx, spec.state, spec.tuple))
      && child.View() != [] && right.View() != [] && cfg.rank(pivot) == cfg.rank(right.View()[0].key)
      && child.nextAddr == rightAddr && right.prevAddr == childAddr
      && right.nextAddr == old(child.nextAddr) && child.prevAddr == old(child.prevAddr)
  {
    hide Layout, Incorporated, CapacitySum;
    ghost var es, idx, state, t := child.View(), spec.idx, spec.state, spec.tuple;
    var liveBytes := LiveBytes(child, spec);
    var tableBytes := if child.numEntries + StateNumber(spec.state) == 1 then 0 else INDEX_ENTRY;
    var totalSpaceRequired := liveBytes + Capacity(spec.tuple) + tableBytes;
    pivot := [];
    IncorporatedSpace(es, idx, state, t);
    if totalSpaceRequired < child.page.Length / 2 {
      didSplit := false;
      child.DefragmentLeaf(spec);
      HalfPageFits(child, t);
      Reinserted(es, idx, state, t);
      var incorporated := child.TryPerform(spec);
      assert incorporated;
    } else {
      didSplit := true;
      AllBounded(es + [t], child.page.Length);
      SplitNeedsTwo(es, idx, state, t, liveBytes, child.page.Length);
      pivot := SplitChildLeaf(cfg, child, childAddr, spec, right, rightAddr);
    }
  }

  lemma HalfPageFits(leaf: LeafNode, t: Tuple)
    requires leaf.Valid() && leaf.Packed() && LegalPageSize(leaf.page.Length)
    requires CapacitySum(leaf.View()) + Capacity(t) < leaf.page.Length / 2
    ensures leaf.CanSetLeafEntry(leaf.numEntries, t)
  {
    SlotsAreSmall(leaf.View());
    PackedTakes(leaf, t);
  }

  lemma Reinserted(es: seq<Tuple>, idx: nat, state: EntryState, t: Tuple)
    requires !state.HasBeenRemoved? && if state.StillExists? then idx < |es| else idx <= |es|
    ensures var kept := Kept(es, 0, if state.StillExists? then idx else -1);
      && idx <= |kept|
      && Incorporated(kept, idx, if state.StillExists? then HasBeenRemoved else state, t)
         == Incorporated(es, idx, state, t)
  {
  }

  lemma AllBounded(ts: seq<Tuple>, p: nat)
    requires LegalPageSize(p) && LegalTuples(ts, p)
    ensures EntriesBounded(ts, p - HEADER)
  {
    forall i | 0 <= i < |ts| ensures SLOT + Capacity(ts[i]) < (p - HEADER) / 2 {
      LegalIsBounded(ts[i], p);
    }
  }

  /** One tuple alone is always small enough to be defragmented in, so a split shares out at least two. */
  lemma SplitNeedsTwo(es: seq<Tuple>, idx: nat, state: EntryState, t: Tuple, liveBytes: nat, p: nat)
    requires |es| > 0 && (state.StillExists? ==> idx < |es|) && LegalPageSize(p) && LegalTuples(es + [t], p)
    requires liveBytes == CapacitySum(Kept(es, 0, if state.StillExists? then idx else -1))
    requires liveBytes + Capacity(t) + INDEX_ENTRY >= p / 2
    ensures !(|es| == 1 && state.StillExists?)
  {
    if |es| == 1 && state.StillExists? {
      assert Kept(es, 0, idx) == [];
      assert (es + [t])[|es|] == t;
      LegalIsBounded(t, p);
      assert false;
    }
  }
}
