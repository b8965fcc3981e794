/** Binary search over sorted keys: the loop that btree_find_pivot and btree_find_tuple share (src/btree.c). */
module KeySearch {
  import opened DataModel

  function KeysOf(ts: seq<Tuple>): (keys: seq<Bytes>)
    ensures |keys| == |ts| && forall i :: 0 <= i < |ts| ==> keys[i] == ts[i].key
  {
    seq(|ts|, i requires 0 <= i < |ts| => ts[i].key)
  }

  /** The last of the keys that do not come after the target. */
  ghost predicate KeyPosition(cfg: DataConfig, keys: seq<Bytes>, target: Bytes, idx: int, found: bool) {
    && -1 <= idx < |keys|
    && (forall i :: 0 <= i <= idx ==> cfg.rank(keys[i]) <= cfg.rank(target))
    && (forall i :: idx < i < |keys| ==> cfg.rank(target) < cfg.rank(keys[i]))
    && (found <==> 0 <= idx && cfg.rank(keys[idx]) == cfg.rank(target))
  }

  method FindKey(cfg: DataConfig, keys: seq<Bytes>, target: Bytes) returns (idx: int, found: bool)
    requires forall i, j :: 0 <= i < j < |keys| ==> cfg.rank(keys[i]) < cfg.rank(keys[j])
    ensures KeyPosition(cfg, keys, target, idx, found)
  {
    var lo, hi := 0, |keys|;
    while lo < hi
      invariant 0 <= lo <= hi <= |keys|
      invariant forall i :: 0 <= i < lo ==> cfg.rank(keys[i]) < cfg.rank(target)
      invariant forall i :: hi <= i < |keys| ==> cfg.rank(target) < cfg.rank(keys[i])
    {
      var mid := (lo + hi) / 2;
      if cfg.rank(keys[mid]) == cfg.rank(target) {
        return mid, true;
      } else if cfg.rank(keys[mid]) < cfg.rank(target) {
        lo := mid + 1;
      } else {
        hi := mid;
      }
    }
    return lo - 1, false;
  }
}
