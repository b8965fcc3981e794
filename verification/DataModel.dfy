/** Keys, messages and the user callbacks that give them meaning
    (include/splinterdb/data.h, src/data_internal.h). */
module DataModel {

  type Byte = x: int | 0 <= x < 256
  type Bytes = seq<Byte>

  datatype MessageKind = Invalid | Insert | Update | Delete
  datatype Message = Message(kind: MessageKind, data: Bytes)
  datatype Tuple = Tuple(key: Bytes, msg: Message)

  datatype Option<+T> = None | Some(value: T)

  /** The user's callbacks. `rank` carries the key comparison: byte strings are countable, so every total
      order (or preorder) on them is the order of the reals through some ranking function. */
  datatype DataConfig = DataConfig(
    rank: Bytes -> real,
    mergeTuples: (Bytes, Message, Message) -> Message,
    mergeTuplesFinal: (Bytes, Message) -> Message)

  predicate Definitive(m: Message) {
    m.kind.Insert? || m.kind.Delete?
  }

  /** The message left in `newer` by merging the older message `older` under it. */
  function MergeTuples(cfg: DataConfig, key: Bytes, older: Message, newer: Message): Message {
    if Definitive(newer) then newer
    else if older.kind.Delete? then cfg.mergeTuplesFinal(key, newer)
    else cfg.mergeTuples(key, older, newer)
  }

  /** The message left in `oldest` when nothing older exists. */
  function MergeTuplesFinal(cfg: DataConfig, key: Bytes, oldest: Message): Message {
    if Definitive(oldest) then oldest else cfg.mergeTuplesFinal(key, oldest)
  }

  /** Keys strictly increase in the user's order. */
  ghost predicate StrictlySorted(cfg: DataConfig, ts: seq<Tuple>) {
    forall i, j :: 0 <= i < j < |ts| ==> cfg.rank(ts[i].key) < cfg.rank(ts[j].key)
  }
}
