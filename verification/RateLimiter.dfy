/**
 * The fixed-window rate limiter: a counter and a timer that live and die together, a
 * one-step increment where the store has one and a four-step fallback where it has not.
 */
module RateLimiter {
  import opened Options
  import opened CacheStore

  /** The two entries of one limit: the cleaned key, and the same with `:timer` after it. */
  datatype Key = Counter(limit: nat) | Timer(limit: nat)
  type Cache = map<Key, Entry<int>>

  function AvailableAt(now: nat, seconds: int): int {
    now / 1000 + seconds
  }

  function Attempts(c: Cache, now: nat, limit: nat): int {
    var count := Get(c, now, Counter(limit));
    if count.Some? then count.value else 0
  }

  // ------------------------------------------------------------------ increment, both ways

  /** With `incrementWithin`: the first hit of a window writes the timer. */
  function FastIncrement(c: Cache, now: nat, limit: nat, decay: int, amount: int): (int, Cache) {
    var counted := IncrementWithin(c, now, Counter(limit), decay, amount);
    var hits := counted[Counter(limit)].value;
    (hits, if hits == amount then PutFor(counted, now, Timer(limit), AvailableAt(now, decay), decay) else counted)
  }

  /** Without it: add the timer, add the counter, increment, and put back a counter with no window. */
  function SlowIncrement(c: Cache, now: nat, limit: nat, decay: int, amount: int): (int, Cache) {
    var timed := AddFor(c, now, Timer(limit), AvailableAt(now, decay), decay);
    var added := Adds(timed, now, Counter(limit), decay);
    var counted := Increment(AddFor(timed, now, Counter(limit), 0, decay), now, Counter(limit), amount);
    var hits := counted[Counter(limit)].value;
    (hits, if !added && hits == amount then PutFor(counted, now, Counter(limit), amount, decay) else counted)
  }

  // ------------------------------------------------------------------ the coupling

  /**
   * Counter and timer are both alive with one expiry, which is also the moment the timer
   * names, or both gone.
   */
  ghost predicate Paired(c: Cache, now: nat, limit: nat) {
    && (Has(c, now, Counter(limit)) <==> Has(c, now, Timer(limit)))
    && (Has(c, now, Counter(limit)) ==>
          && c[Counter(limit)].expires == c[Timer(limit)].expires == c[Timer(limit)].value
          && c[Counter(limit)].expires < FOREVER)
  }

  /** Paired, and a live counter has counted something. */
  ghost predicate Coupled(c: Cache, now: nat, limit: nat) {
    Paired(c, now, limit) && (Has(c, now, Counter(limit)) ==> c[Counter(limit)].value > 0)
  }

  /**
   * From a paired state the two paths agree, in count and in store, exactly when a live
   * counter is not at zero, or the window is positive and a live one would end when the
   * new one does.
   */
  lemma FastRefinesSlow(c: Cache, now: nat, limit: nat, decay: int, amount: int)
    requires Paired(c, now, limit) && now / 1000 + decay < FOREVER
    ensures FastIncrement(c, now, limit, decay, amount) == SlowIncrement(c, now, limit, decay, amount)
       <==> (Has(c, now, Counter(limit)) && c[Counter(limit)].value != 0)
            || (decay > 0 && (Has(c, now, Counter(limit)) ==> c[Counter(limit)].expires == ExpiresAt(now, decay)))
  {
    var fast, slow := FastIncrement(c, now, limit, decay, amount), SlowIncrement(c, now, limit, decay, amount);
    var counter, timer := Counter(limit), Timer(limit);
    if Has(c, now, counter) {
      assert AddFor(c, now, timer, AvailableAt(now, decay), decay) == c;
      assert AddFor(c, now, counter, 0, decay) == c;
      var end := c[counter].expires;
      if c[counter].value == 0 && decay > 0 {
        assert slow.1[counter].expires == ExpiresAt(now, decay);
        assert fast.1[counter].expires == end;
        if end == ExpiresAt(now, decay) {
          assert fast.1 == slow.1;
        }
      } else if c[counter].value == 0 {
        assert counter !in slow.1 && counter in fast.1;
      }
    } else if decay > 0 {
      assert fast.1 == slow.1;
    } else {
      assert counter !in slow.1 && counter in fast.1;
    }
  }

  /**
   * A hit and a decrement leave a live counter at zero; a second later the next hit moves
   * the timer alone by one path, and the counter's own end by the other.
   */
  lemma DecrementToZeroPartsThePaths(limit: nat)
    ensures var hit := FastIncrement(map[], 0, limit, 60, 1).1;
            var back := FastIncrement(hit, 0, limit, 60, -1).1;
            && SlowIncrement(hit, 0, limit, 60, -1).1 == back
            && Paired(back, 1000, limit) && Has(back, 1000, Counter(limit)) && Attempts(back, 1000, limit) == 0
            && FastIncrement(back, 1000, limit, 60, 1).1 != SlowIncrement(back, 1000, limit, 60, 1).1
  {
    var hit := FastIncrement(map[], 0, limit, 60, 1).1;
    var back := FastIncrement(hit, 0, limit, 60, -1).1;
    assert hit[Counter(limit)] == Entry(1, 60) && back[Counter(limit)] == Entry(0, 60)
           && back[Timer(limit)] == Entry(60, 60);
    FastRefinesSlow(hit, 0, limit, 60, -1);
    FastRefinesSlow(back, 1000, limit, 60, 1);
    assert FastIncrement(back, 1000, limit, 60, 1).1[Counter(limit)].expires == 60;
    assert SlowIncrement(back, 1000, limit, 60, 1).1[Counter(limit)].expires == 61;
  }

  /** Every positive hit keeps the coupling, and only the first of a window chooses its end. */
  lemma IncrementKeepsCoupling(c: Cache, now: nat, limit: nat, decay: int, amount: int)
    requires Coupled(c, now, limit) && amount > 0 && decay > 0 && now / 1000 + decay < FOREVER
    ensures var (hits, after) := FastIncrement(c, now, limit, decay, amount);
            && Coupled(after, now, limit) && Has(after, now, Counter(limit))
            && hits == Attempts(c, now, limit) + amount == Attempts(after, now, limit)
            && after[Counter(limit)].expires
               == (if Has(c, now, Counter(limit)) then c[Counter(limit)].expires else now / 1000 + decay)
            && SlowIncrement(c, now, limit, decay, amount) == (hits, after)
  {
    FastRefinesSlow(c, now, limit, decay, amount);
  }

  // ------------------------------------------------------------------ tooManyAttempts

  predicate TooMany(c: Cache, now: nat, limit: nat, max: int) {
    Attempts(c, now, limit) >= max && Has(c, now, Timer(limit))
  }

  /** A counter found full without its timer is dropped. */
  function Checked(c: Cache, now: nat, limit: nat, max: int): Cache {
    if Attempts(c, now, limit) >= max && !Has(c, now, Timer(limit)) then Forget(c, Counter(limit)) else c
  }

  function AvailableIn(c: Cache, now: nat, limit: nat): int {
    var until := Get(c, now, Timer(limit));
    if until.None? || until.value - now / 1000 < 0 then 0 else until.value - now / 1000
  }

  lemma CheckKeepsCoupling(c: Cache, now: nat, limit: nat, max: int)
    requires Coupled(c, now, limit)
    ensures Coupled(Checked(c, now, limit, max), now, limit)
    ensures Attempts(Checked(c, now, limit, max), now, limit) == Attempts(c, now, limit)
  {}

  lemma TimeKeepsCoupling(c: Cache, now: nat, later: nat, limit: nat)
    requires Coupled(c, now, limit) && now <= later
    ensures Coupled(c, later, limit)
    ensures Attempts(c, later, limit) == 0 || Attempts(c, later, limit) == Attempts(c, now, limit)
  {
    assert now / 1000 <= later / 1000;
  }

  /**
   * `availableIn` is exact: a full limit left alone is refused for just that many more
   * whole seconds of the clock.
   */
  lemma RefusedForAvailableIn(c: Cache, now: nat, later: nat, limit: nat, max: int)
    requires Coupled(c, now, limit) && now <= later
    requires max > 0 && Attempts(c, now, limit) >= max
    ensures TooMany(c, later, limit, max) <==> later / 1000 < now / 1000 + AvailableIn(c, now, limit)
  {
    TimeKeepsCoupling(c, now, later, limit);
  }

  /**
   * From any cache at all, even one that lost a timer, whoever the check lets through is
   * counted within the limit, by either path; and the check touches no more than that counter.
   */
  lemma LetThroughIsWithinTheLimit(c: Cache, now: nat, limit: nat, decay: int, max: int)
    requires max > 0
    ensures var checked := Checked(c, now, limit, max);
            && (forall k :: k != Counter(limit) ==> (k in checked <==> k in c) && (k in c ==> checked[k] == c[k]))
            && (TooMany(c, now, limit, max) ==> checked == c)
            && (!TooMany(c, now, limit, max) ==>
                 && Attempts(checked, now, limit) < max
                 && FastIncrement(checked, now, limit, decay, 1).0 <= max
                 && SlowIncrement(checked, now, limit, decay, 1).0 <= max)
            && (Attempts(c, now, limit) < max ==> checked == c)
  {}

  // ------------------------------------------------------------------ windows under concurrency

  /**
   * One limit used by many callers. `inFlight` counts those between their check and their
   * hit; `windows` records how many hits each window so far has taken.
   */
  datatype Usage = Usage(cache: Cache, now: nat, inFlight: nat, windows: seq<nat>)

  datatype Step = Check | Hit(decay: int) | Tick(milliseconds: nat)

  /** At most `k` callers are let past the check before they hit. */
  ghost predicate Enabled(u: Usage, step: Step, k: nat) {
    match step
    case Check => u.inFlight < k
    case Hit(decay) => u.inFlight > 0 && decay > 0 && u.now / 1000 + decay < FOREVER
    case Tick(_) => true
  }

  function Next(u: Usage, step: Step, limit: nat, max: int): Usage
    requires step.Hit? ==> u.inFlight > 0
  {
    match step
    case Check =>
      u.(cache := Checked(u.cache, u.now, limit, max),
         inFlight := if TooMany(u.cache, u.now, limit, max) then u.inFlight else u.inFlight + 1)
    case Hit(decay) =>
      u.(cache := FastIncrement(u.cache, u.now, limit, decay, 1).1,
         inFlight := u.inFlight - 1,
         windows := if Has(u.cache, u.now, Counter(limit)) && u.windows != []
                    then u.windows[|u.windows| - 1 := u.windows[|u.windows| - 1] + 1]
                    else u.windows + [1])
    case Tick(milliseconds) => u.(now := u.now + milliseconds)
  }

  ghost predicate Runs(u: Usage, steps: seq<Step>, limit: nat, max: int, k: nat)
    decreases |steps|
  {
    steps != [] ==> Enabled(u, steps[0], k) && Runs(Next(u, steps[0], limit, max), steps[1..], limit, max, k)
  }

  function Run(u: Usage, steps: seq<Step>, limit: nat, max: int, k: nat): Usage
    requires Runs(u, steps, limit, max, k)
    decreases |steps|
  {
    if steps == [] then u else Run(Next(u, steps[0], limit, max), steps[1..], limit, max, k)
  }

  /** A limit of zero or less still lets the first caller of a window through. */
  function Bound(max: int, k: nat): int {
    (if max < 1 then 1 else max) + k - 1
  }

  ghost predicate Inv(u: Usage, limit: nat, max: int, k: nat) {
    && Coupled(u.cache, u.now, limit)
    && u.inFlight <= k
    && Attempts(u.cache, u.now, limit) + u.inFlight <= Bound(max, k)
    && (Has(u.cache, u.now, Counter(limit)) ==> u.windows != [])
    && (Has(u.cache, u.now, Counter(limit)) ==>
          u.windows[|u.windows| - 1] == Attempts(u.cache, u.now, limit))
    && (forall i :: 0 <= i < |u.windows| ==> u.windows[i] <= Bound(max, k))
  }

  lemma NextKeeps(u: Usage, step: Step, limit: nat, max: int, k: nat)
    requires Inv(u, limit, max, k) && Enabled(u, step, k)
    ensures Inv(Next(u, step, limit, max), limit, max, k)
  {
    match step
    case Check => CheckKeepsCoupling(u.cache, u.now, limit, max);
    case Hit(decay) => IncrementKeepsCoupling(u.cache, u.now, limit, decay, 1);
    case Tick(milliseconds) => TimeKeepsCoupling(u.cache, u.now, u.now + milliseconds, limit);
  }

  lemma {:induction false} RunKeeps(u: Usage, steps: seq<Step>, limit: nat, max: int, k: nat)
    requires Inv(u, limit, max, k) && Runs(u, steps, limit, max, k)
    ensures Inv(Run(u, steps, limit, max, k), limit, max, k)
    decreases |steps|
  {
    if steps != [] {
      NextKeeps(u, steps[0], limit, max, k);
      RunKeeps(Next(u, steps[0], limit, max), steps[1..], limit, max, k);
    }
  }

  /**
   * However checks and hits interleave, with at most `k` callers between the two, no
   * window takes more than max + k - 1 hits, or k where the limit is below one.
   */
  lemma WindowsAreBounded(now: nat, steps: seq<Step>, limit: nat, max: int, k: nat)
    requires k > 0 && Runs(Usage(map[], now, 0, []), steps, limit, max, k)
    ensures var u := Run(Usage(map[], now, 0, []), steps, limit, max, k);
            forall i :: 0 <= i < |u.windows| ==> u.windows[i] <= if max < 1 then k else max + k - 1
  {
    RunKeeps(Usage(map[], now, 0, []), steps, limit, max, k);
  }

  /**
   * The limit as its callers see it: the clock, when the last window opened ends, how many
   * hits it took, and how many callers are between check and hit.
   */
  datatype Window = Window(now: nat, until: int, hits: nat, inFlight: int) {
    predicate Open() {
      hits > 0 && now / 1000 < until
    }
  }

  /** A hit counts in the open window, or opens one of its own; a check lets through while that is not full. */
  function Sees(w: Window, step: Step, max: int): Window {
    match step
    case Check => if w.Open() && w.hits >= max then w else w.(inFlight := w.inFlight + 1)
    case Hit(decay) =>
      if w.Open() then w.(hits := w.hits + 1, inFlight := w.inFlight - 1)
      else w.(hits := 1, until := w.now / 1000 + decay, inFlight := w.inFlight - 1)
    case Tick(milliseconds) => w.(now := w.now + milliseconds)
  }

  function Seen(w: Window, steps: seq<Step>, max: int): Window
    decreases |steps|
  {
    if steps == [] then w else Seen(Sees(w, steps[0], max), steps[1..], max)
  }

  /** Counter and timer say just what the window does. */
  ghost predicate Shows(u: Usage, w: Window, limit: nat) {
    && Coupled(u.cache, u.now, limit) && u.now == w.now && u.inFlight == w.inFlight
    && (Has(u.cache, u.now, Counter(limit)) <==> w.Open())
    && (w.Open() ==> Attempts(u.cache, u.now, limit) == w.hits && u.cache[Counter(limit)].expires == w.until)
  }

  lemma NextShows(u: Usage, w: Window, step: Step, limit: nat, max: int, k: nat)
    requires Shows(u, w, limit) && Enabled(u, step, k)
    ensures Shows(Next(u, step, limit, max), Sees(w, step, max), limit)
  {
    match step
    case Check => CheckKeepsCoupling(u.cache, u.now, limit, max);
    case Hit(decay) => IncrementKeepsCoupling(u.cache, u.now, limit, decay, 1);
    case Tick(milliseconds) => TimeKeepsCoupling(u.cache, u.now, u.now + milliseconds, limit);
  }

  lemma {:induction false} RunShows(u: Usage, w: Window, steps: seq<Step>, limit: nat, max: int, k: nat)
    requires Shows(u, w, limit) && Runs(u, steps, limit, max, k)
    ensures Shows(Run(u, steps, limit, max, k), Seen(w, steps, max), limit)
    decreases |steps|
  {
    if steps != [] {
      NextShows(u, w, steps[0], limit, max, k);
      RunShows(Next(u, steps[0], limit, max), Sees(w, steps[0], max), steps[1..], limit, max, k);
    }
  }

  /**
   * In every run the two cache entries count exactly the hits of the open window; a caller
   * is refused exactly while that is full, and told the seconds left of it, or none.
   */
  lemma CacheShowsTheWindow(now: nat, steps: seq<Step>, limit: nat, max: int, k: nat)
    requires Runs(Usage(map[], now, 0, []), steps, limit, max, k)
    ensures var u := Run(Usage(map[], now, 0, []), steps, limit, max, k);
            var w := Seen(Window(now, 0, 0, 0), steps, max);
            && u.now == w.now && u.inFlight == w.inFlight
            && Attempts(u.cache, u.now, limit) == (if w.Open() then w.hits else 0)
            && AvailableIn(u.cache, u.now, limit) == (if w.Open() then w.until - w.now / 1000 else 0)
            && (TooMany(u.cache, u.now, limit, max) <==> w.Open() && w.hits >= max)
  {
    RunShows(Usage(map[], now, 0, []), Window(now, 0, 0, 0), steps, limit, max, k);
  }

  /** A single caller is refused exactly when its window has already taken max hits. */
  lemma RefusedExactlyWhenFull(c: Cache, now: nat, limit: nat, max: int)
    requires Coupled(c, now, limit)
    ensures TooMany(c, now, limit, max) <==> Attempts(c, now, limit) >= max && Attempts(c, now, limit) > 0
  {}

  // ------------------------------------------------------------------ the class

  class Limiter {
    var cache: Cache
    /** Whether the store offers `incrementWithin`. */
    const atomic: bool

    constructor (atomic: bool)
      ensures cache == map[] && this.atomic == atomic
    {
      this.atomic := atomic;
      cache := map[];
    }

    method TooManyAttempts(now: nat, limit: nat, max: int) returns (refused: bool)
      modifies this
      ensures refused == TooMany(old(cache), now, limit, max)
      ensures cache == Checked(old(cache), now, limit, max)
    {
      if Attempts(cache, now, limit) >= max {
        if Has(cache, now, Timer(limit)) {
          return true;
        }
        cache := Forget(cache, Counter(limit));
      }
      refused := false;
    }

    /** `increment`, by whichever path the store allows. */
    method IncrementBy(now: nat, limit: nat, decay: int, amount: int) returns (hits: int)
      modifies this
      ensures (hits, cache) == if atomic then FastIncrement(old(cache), now, limit, decay, amount)
                               else SlowIncrement(old(cache), now, limit, decay, amount)
    {
      if !atomic {
        cache := AddFor(cache, now, Timer(limit), AvailableAt(now, decay), decay);
        var added := Adds(cache, now, Counter(limit), decay);
        cache := AddFor(cache, now, Counter(limit), 0, decay);
        cache := Increment(cache, now, Counter(limit), amount);
        hits := cache[Counter(limit)].value;
        if !added && hits == amount {
          cache := PutFor(cache, now, Counter(limit), amount, decay);
        }
        return;
      }
      cache := IncrementWithin(cache, now, Counter(limit), decay, amount);
      hits := cache[Counter(limit)].value;
      if hits == amount {
        cache := PutFor(cache, now, Timer(limit), AvailableAt(now, decay), decay);
      }
    }

    /** `attempt` by one caller: the callback runs only below the limit, and then counts. */
    method Attempt(now: nat, limit: nat, max: int, decay: int) returns (ran: bool)
      requires Coupled(cache, now, limit) && decay > 0 && now / 1000 + decay < FOREVER
      modifies this
      ensures Coupled(cache, now, limit)
      ensures ran <==> Attempts(old(cache), now, limit) < max || Attempts(old(cache), now, limit) <= 0
      ensures Attempts(cache, now, limit) == Attempts(old(cache), now, limit) + (if ran then 1 else 0)
      ensures Has(old(cache), now, Counter(limit)) ==>
                Has(cache, now, Counter(limit)) && cache[Counter(limit)].expires == old(cache)[Counter(limit)].expires
    {
      RefusedExactlyWhenFull(cache, now, limit, max);
      CheckKeepsCoupling(cache, now, limit, max);
      var refused := TooManyAttempts(now, limit, max);
      ran := !refused;
      if ran {
        IncrementKeepsCoupling(cache, now, limit, decay, 1);
        var _ := IncrementBy(now, limit, decay, 1);
      }
    }
  }
}
