/** Owner-token locks with expiry, as a map from name to holder read against a clock. */
module Locks {
  import opened Options

  type Owner = nat

  /** Whether the driver keeps an expiry to the millisecond, or in whole seconds rounded down. */
  datatype Clocking = Milliseconds | Seconds

  /** `until` is none for a lock taken without an expiry. */
  datatype Held = Held(owner: Owner, until: Option<nat>)

  predicate Expired(held: Held, now: nat) {
    held.until.Some? && held.until.value <= now
  }

  predicate IsFree(locks: map<nat, Held>, now: nat, name: nat) {
    name !in locks || Expired(locks[name], now)
  }

  /** Zero seconds means no expiry. */
  function Until(clocking: Clocking, now: nat, seconds: nat): Option<nat> {
    if seconds == 0 then None
    else if clocking.Seconds? then Some(1000 * (now / 1000 + seconds))
    else Some(now + 1000 * seconds)
  }

  /** The holder a successful `acquire` writes over whatever was there. */
  function Take(clocking: Clocking, locks: map<nat, Held>, now: nat, name: nat, owner: Owner,
                seconds: nat): map<nat, Held> {
    if IsFree(locks, now, name) then locks[name := Held(owner, Until(clocking, now, seconds))] else locks
  }

  /** `release` compares the token: it deletes a lock this owner still holds, and nothing else. */
  function Release(locks: map<nat, Held>, now: nat, name: nat, owner: Owner): map<nat, Held> {
    if !IsFree(locks, now, name) && locks[name].owner == owner then locks - {name} else locks
  }
}
