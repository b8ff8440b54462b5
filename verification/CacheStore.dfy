/**
 * The store contract every cache component is written against: a map from key to value
 * and expiry, read against an explicit clock in milliseconds. An expired entry is
 * invisible, whether or not it has been deleted yet.
 */
module CacheStore {
  import opened Options

  /** The sentinel a payload carries instead of "no expiry". */
  const FOREVER: nat := 9_999_999_999

  datatype Entry<V> = Entry(value: V, expires: nat)

  function ExpiresAt(now: nat, seconds: int): nat {
    if seconds <= 0 then FOREVER
    else if now / 1000 + seconds > FOREVER then FOREVER
    else now / 1000 + seconds
  }

  predicate Alive<V>(e: Entry<V>, now: nat) {
    e.expires == FOREVER || e.expires > now / 1000
  }

  predicate Has<K, V>(c: map<K, Entry<V>>, now: nat, key: K) {
    key in c && Alive(c[key], now)
  }

  function Get<K, V>(c: map<K, Entry<V>>, now: nat, key: K): Option<V> {
    if Has(c, now, key) then Some(c[key].value) else None
  }

  function Put<K, V>(c: map<K, Entry<V>>, now: nat, key: K, value: V, seconds: int): map<K, Entry<V>> {
    c[key := Entry(value, ExpiresAt(now, seconds))]
  }

  function Forget<K, V>(c: map<K, Entry<V>>, key: K): map<K, Entry<V>> {
    c - {key}
  }

  // ------------------------------------------------------------------ the repository's own rules

  /** `Repository.put` with a time to live: one already over is a delete. */
  function PutFor<K, V>(c: map<K, Entry<V>>, now: nat, key: K, value: V, seconds: int): map<K, Entry<V>> {
    if seconds <= 0 then Forget(c, key) else Put(c, now, key, value, seconds)
  }

  /** `Repository.add` with a time to live: one already over adds nothing. */
  predicate Adds<K, V>(c: map<K, Entry<V>>, now: nat, key: K, seconds: int) {
    seconds > 0 && !Has(c, now, key)
  }

  function AddFor<K, V>(c: map<K, Entry<V>>, now: nat, key: K, value: V, seconds: int): map<K, Entry<V>> {
    if Adds(c, now, key, seconds) then Put(c, now, key, value, seconds) else c
  }

  // ------------------------------------------------------------------ counters

  /** `increment`: a missing counter is created with no window, a live one keeps its own. */
  function Increment<K>(c: map<K, Entry<int>>, now: nat, key: K, amount: int): map<K, Entry<int>> {
    if Has(c, now, key) then c[key := Entry(c[key].value + amount, c[key].expires)]
    else Put(c, now, key, amount, 0)
  }

  /** `incrementWithin`: the window is set only when the counter is created. */
  function IncrementWithin<K>(c: map<K, Entry<int>>, now: nat, key: K, seconds: int, amount: int): map<K, Entry<int>> {
    if Has(c, now, key) then c[key := Entry(c[key].value + amount, c[key].expires)]
    else Put(c, now, key, amount, seconds)
  }
}
