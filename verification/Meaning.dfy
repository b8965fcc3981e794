/** What messages do to values: the law of the user's callbacks (include/splinterdb/data.h), and merged messages under
    it. */
module Meaning {
  import opened DataModel

  /** The law the user's callbacks obey: applying a merged message is applying the older one and then the newer
      one, and finalising a message applies it to nothing. Keys that compare equal behave alike. */
  ghost predicate Lawful<V(!new)>(cfg: DataConfig, apply: (Bytes, Message, Option<V>) -> Option<V>) {
    && (forall k, k', m, x :: cfg.rank(k) == cfg.rank(k') ==> apply(k, m, x) == apply(k', m, x))
    && (forall k, m: Message, x, y :: Definitive(m) ==> apply(k, m, x) == apply(k, m, y))
    && (forall k, m: Message, x :: m.kind.Delete? ==> apply(k, m, x) == None)
    && (forall k, older: Message, newer: Message, x :: !Definitive(newer) && !older.kind.Delete? ==>
          apply(k, cfg.mergeTuples(k, older, newer), x) == apply(k, newer, apply(k, older, x)))
    && (forall k, newer: Message, x :: !Definitive(newer) ==>
          Definitive(cfg.mergeTuplesFinal(k, newer))
          && apply(k, cfg.mergeTuplesFinal(k, newer), x) == apply(k, newer, None))
  }

  /** Values are byte strings. */
  type Apply = (Bytes, Message, Option<Bytes>) -> Option<Bytes>

  lemma MergeMeaning<V(!new)>(cfg: DataConfig, apply: (Bytes, Message, Option<V>) -> Option<V>, key: Bytes,
                              older: Message, newer: Message, x: Option<V>)
    requires Lawful(cfg, apply)
    ensures apply(key, MergeTuples(cfg, key, older, newer), x) == apply(key, newer, apply(key, older, x))
  {
  }

  /** The value that the message, if any, leaves of x. */
  function Left(apply: Apply, key: Bytes, msg: Option<Message>, x: Option<Bytes>): Option<Bytes> {
    if msg.None? then x else apply(key, msg.value, x)
  }

  /** A message that does to every older value what the older message, if any, and then the newer one do. */
  ghost predicate DoesBoth(cfg: DataConfig, key: Bytes, older: Option<Message>, newer: Message, both: Message) {
    forall apply: Apply, x: Option<Bytes> {:trigger apply(key, both, x)} :: Lawful(cfg, apply) ==>
      apply(key, both, x) == apply(key, newer, Left(apply, key, older, x))
  }
}
