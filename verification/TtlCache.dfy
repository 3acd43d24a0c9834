/** The part of the go-cache library the providers rely on: every item carries an absolute
    expiration, an expired item reads as absent, and a later sweep removes it. */
module TtlCache {

  datatype Option<+T> = None | Some(value: T)

  /** `expiration == 0` means that the item never expires. */
  datatype Item<+V> = Item(value: V, expiration: int)

  predicate ExpiredAt(expiration: int, now: int) {
    expiration > 0 && now > expiration
  }

  /** The expiration `Set` computes: a zero duration selects the cache's default, a negative one never expires. */
  function Deadline(now: nat, ttl: int, defaultTtl: int): int {
    var d := if ttl == 0 then defaultTtl else ttl;
    if d > 0 then now + d else 0
  }

  function ToSet<T>(s: seq<T>): set<T> {
    set x | x in s
  }

  predicate Live<K, V>(items: map<K, Item<V>>, k: K, now: int) {
    k in items && !ExpiredAt(items[k].expiration, now)
  }
}
