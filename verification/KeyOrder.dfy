/** Keys with the two infinities, and their order (src/data_internal.h). */
module KeyOrder {
  import opened DataModel

  datatype Key = NegativeInfinity | User(bytes: Bytes) | PositiveInfinity

  function DataKeyCompare(cfg: DataConfig, a: Key, b: Key): int {
    match (a, b)
    case (NegativeInfinity, NegativeInfinity) => 0
    case (NegativeInfinity, _) => -1
    case (_, NegativeInfinity) => 1
    case (PositiveInfinity, PositiveInfinity) => 0
    case (PositiveInfinity, _) => 1
    case (_, PositiveInfinity) => -1
    case (User(x), User(y)) => if cfg.rank(x) < cfg.rank(y) then -1 else if cfg.rank(x) == cfg.rank(y) then 0 else 1
  }

  predicate Le(cfg: DataConfig, a: Key, b: Key) {
    DataKeyCompare(cfg, a, b) <= 0
  }

  lemma LeTransitive(cfg: DataConfig, a: Key, b: Key, c: Key)
    requires Le(cfg, a, b) && Le(cfg, b, c)
    ensures Le(cfg, a, c)
  {
  }

  lemma LeTotal(cfg: DataConfig, a: Key, b: Key)
    ensures Le(cfg, a, b) || Le(cfg, b, a)
    ensures DataKeyCompare(cfg, a, b) < 0 <==> !Le(cfg, b, a)
  {
  }
}
