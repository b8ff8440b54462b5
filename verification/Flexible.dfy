/**
 * `Repository.flexible`: serve a stale value while one caller refreshes it behind a lock.
 *
 * The state is one cache key, the stamp kept beside it, the lock, and the refreshes of every
 * request: queued, waiting for the lock, holding it, computing. Every await is a separate
 * step, so the callers interleave freely. The lock is the default one, without expiry.
 */
module Flexible {
  import opened Options
  import opened CacheStore

  type Id = nat
  type Scope = nat

  /** A cached value, with the moment and the time to live it was written with. */
  datatype Item = Item(data: nat, at: nat, total: Option<int>)

  datatype Refresh = Refresh(created: nat, freshFor: int, total: Option<int>)

  datatype Phase = Waiting | Locked | Computing | Leaving | Over

  datatype State = State(
    now: nat,
    value: Option<Entry<Item>>,
    created: Option<Entry<nat>>,
    lock: Option<Id>,
    queue: map<Scope, Refresh>,
    refreshes: map<Id, Refresh>,
    phase: map<Id, Phase>,
    misses: map<Id, Option<int>>,
    wrote: set<Id>)

  // ------------------------------------------------------------------ reading and writing

  function Visible<V>(e: Option<Entry<V>>, now: nat): Option<V> {
    if e.Some? && Alive(e.value, now) then Some(e.value.value) else None
  }

  function Seconds(s: State): nat {
    s.now / 1000
  }

  /** `putMany` of the value and its stamp: one time to live for both, and a spent one forgets both. */
  function Written(s: State, data: nat, total: Option<int>): State {
    if total.Some? && total.value <= 0 then s.(value := None, created := None)
    else
      var expires := if total.None? then FOREVER else ExpiresAt(s.now, total.value);
      s.(value := Some(Entry(Item(data, s.now, total), expires)), created := Some(Entry(Seconds(s), expires)))
  }

  datatype Answer = Missed | Fresh(item: Item) | Stale(item: Item, created: nat)

  function Ask(s: State, freshFor: int): Answer {
    var value, created := Visible(s.value, s.now), Visible<nat>(s.created, s.now);
    if value.None? || created.None? then Missed
    else if created.value + freshFor > Seconds(s) then Fresh(value.value)
    else Stale(value.value, created.value)
  }

  /** A missing stamp compares as the number zero. */
  function Stamp(s: State): nat {
    var created := Visible<nat>(s.created, s.now);
    if created.Some? then created.value else 0
  }

  // ------------------------------------------------------------------ steps

  datatype Step =
    | Tick(milliseconds: nat)
    | Serve(scope: Scope, caller: Id, freshFor: int, total: Option<int>)
    | Flush(scope: Scope, id: Id)
    | Acquire(id: Id)
    | Check(id: Id)
    | Finish(id: Id, data: nat)
    | Throw(id: Id)
    | Release(id: Id)
    | FinishMiss(id: Id, data: nat)
    | ThrowMiss(id: Id)
    | ForgetValue
    | ForgetStamp

  predicate In(s: State, id: Id, phase: Phase) {
    id in s.phase && s.phase[id] == phase && id in s.refreshes
  }

  predicate Enabled(s: State, step: Step) {
    match step
    case Tick(_) => true
    case Serve(_, caller, freshFor, _) => caller !in s.misses
    case Flush(scope, id) => scope in s.queue && id !in s.phase && id !in s.refreshes
    case Acquire(id) => In(s, id, Waiting)
    case Check(id) => In(s, id, Locked)
    case Finish(id, _) => In(s, id, Computing)
    case Throw(id) => In(s, id, Computing)
    case Release(id) => In(s, id, Leaving)
    case FinishMiss(id, _) => id in s.misses
    case ThrowMiss(id) => id in s.misses
    case ForgetValue => true
    case ForgetStamp => true
  }

  /** A stale answer queues a refresh, once for the key within one request. */
  function Served(s: State, scope: Scope, caller: Id, freshFor: int, total: Option<int>): State {
    match Ask(s, freshFor)
    case Missed => s.(misses := s.misses[caller := total])
    case Fresh(_) => s
    case Stale(_, created) =>
      if scope in s.queue then s else s.(queue := s.queue[scope := Refresh(created, freshFor, total)])
  }

  function At(s: State, id: Id, phase: Phase): State {
    s.(phase := s.phase[id := phase])
  }

  function Next(s: State, step: Step): State
    requires Enabled(s, step)
  {
    match step
    case Tick(ms) => s.(now := s.now + ms)
    case Serve(scope, caller, freshFor, total) => Served(s, scope, caller, freshFor, total)
    case Flush(scope, id) =>
      At(s, id, Waiting).(refreshes := s.refreshes[id := s.queue[scope]], queue := s.queue - {scope})
    case Acquire(id) => if s.lock.None? then At(s, id, Locked).(lock := Some(id)) else At(s, id, Over)
    case Check(id) => At(s, id, if Stamp(s) != s.refreshes[id].created then Leaving else Computing)
    case Finish(id, data) => Written(At(s, id, Leaving), data, s.refreshes[id].total).(wrote := s.wrote + {id})
    case Throw(id) => At(s, id, Leaving)
    case Release(id) => At(s, id, Over).(lock := if s.lock == Some(id) then None else s.lock)
    case FinishMiss(id, data) => Written(s, data, s.misses[id]).(misses := s.misses - {id})
    case ThrowMiss(id) => s.(misses := s.misses - {id})
    case ForgetValue => s.(value := None)
    case ForgetStamp => s.(created := None)
  }

  ghost predicate Runs(s: State, steps: seq<Step>)
    decreases |steps|
  {
    steps == [] || (Enabled(s, steps[0]) && Runs(Next(s, steps[0]), steps[1..]))
  }

  ghost function Run(s: State, steps: seq<Step>): State
    requires Runs(s, steps)
    decreases |steps|
  {
    if steps == [] then s else Run(Next(s, steps[0]), steps[1..])
  }

  function Start(now: nat): State {
    State(now, None, None, None, map[], map[], map[], map[], {})
  }

  // ------------------------------------------------------------------ what every step keeps

  predicate Holding(p: Phase) {
    p == Locked || p == Computing || p == Leaving
  }

  /** Whoever is past the lock holds it, and nobody else does. */
  ghost predicate LockInv(s: State) {
    && (s.lock.Some? ==> s.lock.value in s.phase && Holding(s.phase[s.lock.value]))
    && (forall id :: id in s.phase && Holding(s.phase[id]) ==> s.lock == Some(id))
    && (forall id :: id in s.phase ==> id in s.refreshes)
    && s.wrote <= s.phase.Keys
    && (forall id :: id in s.wrote ==> s.phase[id] == Leaving || s.phase[id] == Over)
  }

  /** The value and its stamp come from one write. */
  ghost predicate PairInv(s: State) {
    && (s.created.Some? ==> s.created.value.value <= Seconds(s))
    && (s.value.Some? && s.created.Some? ==>
          && s.created.value.value == s.value.value.value.at / 1000
          && s.created.value.expires == s.value.value.expires)
    && (s.value.Some? ==>
          && s.value.value.value.at <= s.now
          && s.value.value.expires == Expiry(s.value.value.value))
  }

  function Expiry(item: Item): nat {
    if item.total.None? then FOREVER else ExpiresAt(item.at, item.total.value)
  }

  predicate ReadStale(s: State, r: Refresh) {
    r.created + r.freshFor <= Seconds(s)
  }

  /** Every refresh found its value stale, and the clock only moves on. */
  ghost predicate StaleInv(s: State) {
    && (forall q :: q in s.queue ==> ReadStale(s, s.queue[q]))
    && (forall id :: id in s.refreshes ==> ReadStale(s, s.refreshes[id]))
  }

  /** A refresh that takes part in the claim: one that allows a full second of freshness, and read a real stamp. */
  predicate Counts(s: State, id: Id) {
    id in s.refreshes && s.refreshes[id].freshFor >= 1 && s.refreshes[id].created > 0
  }

  predicate SameRead(s: State, a: Id, b: Id) {
    Counts(s, a) && Counts(s, b) && s.refreshes[a].created == s.refreshes[b].created
  }

  /** Once a refresh has written, the stamp it read is gone for good, and nobody who read it is left computing. */
  ghost predicate OnceInv(s: State) {
    && (forall id :: id in s.wrote && Counts(s, id) && s.created.Some? ==>
         s.created.value.value > s.refreshes[id].created)
    && (forall a, b :: a in s.wrote && In(s, b, Computing) ==> !SameRead(s, a, b))
    && (forall a, b :: a in s.wrote && b in s.wrote && a != b ==> !SameRead(s, a, b))
  }

  ghost predicate Inv(s: State) {
    LockInv(s) && PairInv(s) && StaleInv(s) && OnceInv(s)
  }

  lemma StartIsSound(now: nat)
    ensures Inv(Start(now))
  {}

  /** A refresh that moved on, with everybody else where they were. */
  ghost predicate Moves(s: State, t: State, id: Id, phase: Phase) {
    t.phase == s.phase[id := phase] && id in t.refreshes && forall k :: k in s.refreshes ==> k in t.refreshes
  }

  lemma MoveKeepsLock(s: State, t: State, id: Id, phase: Phase)
    requires LockInv(s) && Moves(s, t, id, phase)
    requires t.wrote == s.wrote || (t.wrote == s.wrote + {id} && phase == Leaving)
    requires id in s.wrote ==> phase == Over
    requires if Holding(phase) then t.lock == Some(id) && (s.lock == None || s.lock == Some(id))
             else (t.lock == s.lock && s.lock != Some(id)) || (t.lock == None && s.lock == Some(id))
    ensures LockInv(t)
  {}

  lemma StillKeepsLock(s: State, t: State)
    requires LockInv(s) && t.lock == s.lock && t.phase == s.phase && t.wrote == s.wrote && t.refreshes == s.refreshes
    ensures LockInv(t)
  {}

  lemma AcquireKeepsLock(s: State, id: Id)
    requires LockInv(s) && In(s, id, Waiting)
    ensures LockInv(Next(s, Acquire(id)))
  {
    MoveKeepsLock(s, Next(s, Acquire(id)), id, Next(s, Acquire(id)).phase[id]);
  }

  lemma ReleaseKeepsLock(s: State, id: Id)
    requires LockInv(s) && In(s, id, Leaving)
    ensures LockInv(Next(s, Release(id)))
  {
    MoveKeepsLock(s, Next(s, Release(id)), id, Over);
  }

  lemma FlushKeepsLock(s: State, scope: Scope, id: Id)
    requires LockInv(s) && Enabled(s, Flush(scope, id))
    ensures LockInv(Next(s, Flush(scope, id)))
  {
    MoveKeepsLock(s, Next(s, Flush(scope, id)), id, Waiting);
  }

  lemma FinishKeepsLock(s: State, id: Id, data: nat)
    requires LockInv(s) && In(s, id, Computing)
    ensures LockInv(Next(s, Finish(id, data)))
  {
    MoveKeepsLock(s, Next(s, Finish(id, data)), id, Leaving);
  }

  lemma LockKeeps(s: State, step: Step)
    requires LockInv(s) && Enabled(s, step)
    ensures LockInv(Next(s, step))
  {
    var t := Next(s, step);
    match step
    case Flush(scope, id) => FlushKeepsLock(s, scope, id);
    case Acquire(id) => AcquireKeepsLock(s, id);
    case Check(id) => MoveKeepsLock(s, t, id, t.phase[id]);
    case Finish(id, data) => FinishKeepsLock(s, id, data);
    case Throw(id) => MoveKeepsLock(s, t, id, Leaving);
    case Release(id) => ReleaseKeepsLock(s, id);
    case _ => StillKeepsLock(s, t);
  }

  lemma WrittenKeepsPair(s: State, data: nat, total: Option<int>)
    ensures PairInv(Written(s, data, total))
  {}

  lemma PairKeeps(s: State, step: Step)
    requires PairInv(s) && Enabled(s, step)
    ensures PairInv(Next(s, step))
  {
    match step
    case Finish(id, data) => WrittenKeepsPair(At(s, id, Leaving), data, s.refreshes[id].total);
    case FinishMiss(id, data) => WrittenKeepsPair(s, data, s.misses[id]);
    case _ =>
  }

  lemma StaleKeeps(s: State, step: Step)
    requires StaleInv(s) && Enabled(s, step)
    ensures StaleInv(Next(s, step))
  {}

  /** A write puts a stamp later than any that a counted refresh has read. */
  lemma WriteOutrunsReads(s: State, id: Id)
    requires StaleInv(s) && Counts(s, id)
    ensures s.refreshes[id].created < Seconds(s)
  {}

  /** No refresh forgets what it read, nobody starts computing or becomes a writer, and the stamp only moves up. */
  ghost predicate Calmer(s: State, t: State) {
    && (forall id :: id in s.refreshes ==> id in t.refreshes && t.refreshes[id] == s.refreshes[id])
    && t.wrote == s.wrote && t.wrote <= s.refreshes.Keys
    && (forall id :: In(t, id, Computing) ==> In(s, id, Computing))
  }

  lemma CalmKeepsOnce(s: State, t: State)
    requires OnceInv(s) && Calmer(s, t)
    requires forall id :: id in t.wrote && Counts(t, id) && t.created.Some? ==>
               t.created.value.value > t.refreshes[id].created
    ensures OnceInv(t)
  {
    forall a, b | a in t.wrote && In(t, b, Computing) ensures !SameRead(t, a, b) {
      assert In(s, b, Computing) && !SameRead(s, a, b);
    }
    forall a, b | a in t.wrote && b in t.wrote && a != b ensures !SameRead(t, a, b) {
      assert !SameRead(s, a, b);
    }
  }

  lemma FinishKeepsOnce(s: State, id: Id, data: nat)
    requires LockInv(s) && StaleInv(s) && OnceInv(s) && In(s, id, Computing)
    ensures OnceInv(Next(s, Finish(id, data)))
  {
    var t := Next(s, Finish(id, data));
    forall a | a in t.wrote && Counts(t, a) && t.created.Some? ensures t.created.value.value > t.refreshes[a].created {
      WriteOutrunsReads(s, a);
    }
    forall b: Id ensures !In(t, b, Computing) {
      assert In(s, b, Computing) ==> s.lock == Some(b);
    }
    forall a, b | a in t.wrote && b in t.wrote && a != b ensures !SameRead(t, a, b) {
      assert !SameRead(s, a, b) && !SameRead(s, b, a);
    }
  }

  lemma MissKeepsOnce(s: State, id: Id, data: nat)
    requires LockInv(s) && StaleInv(s) && OnceInv(s) && id in s.misses
    ensures OnceInv(Next(s, FinishMiss(id, data)))
  {
    var t := Next(s, FinishMiss(id, data));
    forall a | a in t.wrote && Counts(t, a) && t.created.Some? ensures t.created.value.value > t.refreshes[a].created {
      WriteOutrunsReads(s, a);
    }
    CalmKeepsOnce(s, t);
  }

  lemma CheckKeepsOnce(s: State, id: Id)
    requires LockInv(s) && OnceInv(s) && In(s, id, Locked)
    ensures OnceInv(Next(s, Check(id)))
  {
    var t := Next(s, Check(id));
    forall a, b | a in t.wrote && In(t, b, Computing) ensures !SameRead(t, a, b) {
      assert b != id ==> In(s, b, Computing) && !SameRead(s, a, b);
    }
    forall a, b | a in t.wrote && b in t.wrote && a != b ensures !SameRead(t, a, b) {
      assert !SameRead(s, a, b);
    }
  }

  lemma QuietIsCalm(s: State, step: Step)
    requires LockInv(s) && Enabled(s, step) && !step.Finish? && !step.FinishMiss? && !step.Check?
    ensures Calmer(s, Next(s, step)) && (Next(s, step).created == s.created || Next(s, step).created == None)
  {}

  /** The steps that write no stamp and pass no check. */
  lemma QuietKeepsOnce(s: State, step: Step)
    requires LockInv(s) && OnceInv(s) && Enabled(s, step) && !step.Finish? && !step.FinishMiss? && !step.Check?
    ensures OnceInv(Next(s, step))
  {
    var t := Next(s, step);
    QuietIsCalm(s, step);
    CalmKeepsOnce(s, t);
  }

  lemma NextKeeps(s: State, step: Step)
    requires Inv(s) && Enabled(s, step)
    ensures Inv(Next(s, step))
  {
    LockKeeps(s, step);
    PairKeeps(s, step);
    StaleKeeps(s, step);
    match step
    case Finish(id, data) => FinishKeepsOnce(s, id, data);
    case FinishMiss(id, data) => MissKeepsOnce(s, id, data);
    case Check(id) => CheckKeepsOnce(s, id);
    case _ => QuietKeepsOnce(s, step);
  }

  lemma {:induction false} RunKeeps(s: State, steps: seq<Step>)
    requires Inv(s) && Runs(s, steps)
    ensures Inv(Run(s, steps))
    decreases |steps|
  {
    if steps != [] {
      NextKeeps(s, steps[0]);
      RunKeeps(Next(s, steps[0]), steps[1..]);
    }
  }

  // ------------------------------------------------------------------ main results

  /**
   * Over every interleaving, of all refreshes that read the same stamp at most one writes a
   * new value: fewer than a second of freshness, or a stamp of zero, and two may.
   */
  lemma OneRefreshPerStamp(now: nat, steps: seq<Step>, a: Id, b: Id)
    requires Runs(Start(now), steps)
    requires var s := Run(Start(now), steps); a in s.wrote && b in s.wrote && Counts(s, a) && Counts(s, b) && a != b
    ensures var s := Run(Start(now), steps); s.refreshes[a].created != s.refreshes[b].created
  {
    StartIsSound(now);
    RunKeeps(Start(now), steps);
    assert !SameRead(Run(Start(now), steps), a, b);
  }

  /** No value is served once its age reaches its total time to live, and a fresh one is below the first limit. */
  lemma ServedBeforeTotal(now: nat, steps: seq<Step>, freshFor: int)
    requires Runs(Start(now), steps)
    requires !Ask(Run(Start(now), steps), freshFor).Missed?
    ensures var s, item := Run(Start(now), steps), Ask(Run(Start(now), steps), freshFor).item;
            && item.at <= s.now
            && (item.total.Some? && item.at / 1000 + item.total.value < FOREVER ==>
                 s.now - item.at < 1000 * item.total.value)
            && (Ask(s, freshFor).Fresh? <==> Seconds(s) - item.at / 1000 < freshFor)
  {
    StartIsSound(now);
    RunKeeps(Start(now), steps);
    var s := Run(Start(now), steps);
    var item := Ask(s, freshFor).item;
    assert s.value.value.value == item && s.created.value.value == item.at / 1000;
    if item.total.Some? && item.at / 1000 + item.total.value < FOREVER && item.total.value <= 0 {
      SpentIsNeverKept(now, steps);
    }
  }

  ghost predicate NoSpent(s: State) {
    s.value.Some? && s.value.value.value.total.Some? ==> s.value.value.value.total.value > 0
  }

  lemma {:induction false} NothingSpent(s: State, steps: seq<Step>)
    requires NoSpent(s) && Runs(s, steps)
    ensures NoSpent(Run(s, steps))
    decreases |steps|
  {
    if steps != [] {
      NothingSpent(Next(s, steps[0]), steps[1..]);
    }
  }

  /** A time to live that is already over is a delete, so no kept value has one. */
  lemma SpentIsNeverKept(now: nat, steps: seq<Step>)
    requires Runs(Start(now), steps)
    ensures NoSpent(Run(Start(now), steps))
  {
    NothingSpent(Start(now), steps);
  }

  lemma StaleServe(s: State, scope: Scope, caller: Id, freshFor: int, total: Option<int>, id: Id)
    requires StaleInv(s) && Enabled(s, Serve(scope, caller, freshFor, total)) && Ask(s, freshFor).Stale?
    requires id !in s.phase && id !in s.refreshes
    ensures var t := Next(s, Serve(scope, caller, freshFor, total));
            && scope in t.queue && ReadStale(t, t.queue[scope]) && Enabled(t, Flush(scope, id))
            && In(Next(t, Flush(scope, id)), id, Waiting) && Next(t, Flush(scope, id)).refreshes[id] == t.queue[scope]
            && scope !in Next(t, Flush(scope, id)).queue
  {
    assert scope in s.queue ==> ReadStale(s, s.queue[scope]);
  }

  /** A stale answer leaves one refresh queued for its request, and the flush starts that very refresh. */
  lemma StaleServeQueuesRefresh(now: nat, steps: seq<Step>, scope: Scope, caller: Id, freshFor: int,
                                total: Option<int>, id: Id)
    requires Runs(Start(now), steps)
    requires var s := Run(Start(now), steps);
             Enabled(s, Serve(scope, caller, freshFor, total))
             && Ask(s, freshFor).Stale? && id !in s.phase && id !in s.refreshes
    ensures var t := Next(Run(Start(now), steps), Serve(scope, caller, freshFor, total));
            && scope in t.queue && ReadStale(t, t.queue[scope]) && Enabled(t, Flush(scope, id))
            && In(Next(t, Flush(scope, id)), id, Waiting) && Next(t, Flush(scope, id)).refreshes[id] == t.queue[scope]
            && scope !in Next(t, Flush(scope, id)).queue
  {
    StartIsSound(now);
    RunKeeps(Start(now), steps);
    StaleServe(Run(Start(now), steps), scope, caller, freshFor, total, id);
  }

  /** Once a refresh has written, the next caller gets the new value as a fresh one. */
  lemma RefreshedIsFresh(now: nat, steps: seq<Step>, id: Id, data: nat, freshFor: int)
    requires Runs(Start(now), steps) && freshFor >= 1
    requires var s := Run(Start(now), steps);
             In(s, id, Computing) && (s.refreshes[id].total.Some? ==> s.refreshes[id].total.value > 0)
    ensures var s := Run(Start(now), steps);
            Ask(Next(s, Finish(id, data)), freshFor) == Answer.Fresh(Item(data, s.now, s.refreshes[id].total))
  {}

  // ------------------------------------------------------------------ where the claim stops

  ghost predicate Reaches(s: State, t: State) {
    exists steps :: Runs(s, steps) && Run(s, steps) == t
  }

  lemma {:induction false} RunThen(s: State, steps: seq<Step>, last: Step)
    requires Runs(s, steps) && Enabled(Run(s, steps), last)
    ensures Runs(s, steps + [last]) && Run(s, steps + [last]) == Next(Run(s, steps), last)
    decreases |steps|
  {
    if steps == [] {
      assert [] + [last] == [last] && [last][1..] == [];
      assert Runs(Next(s, last), []);
    } else {
      RunThen(Next(s, steps[0]), steps[1..], last);
      assert (steps + [last])[1..] == steps[1..] + [last];
    }
  }

  lemma Then(s: State, t: State, last: Step)
    requires Reaches(s, t) && Enabled(t, last)
    ensures Reaches(s, Next(t, last))
  {
    var steps :| Runs(s, steps) && Run(s, steps) == t;
    RunThen(s, steps, last);
  }

  lemma Starts(s: State, t: State, id: Id)
    requires Reaches(s, t) && In(t, id, Waiting) && t.lock.None?
    ensures Reaches(s, At(t, id, Locked).(lock := Some(id)))
  {
    Then(s, t, Acquire(id));
  }

  lemma Checks(s: State, t: State, id: Id)
    requires Reaches(s, t) && In(t, id, Locked) && Stamp(t) == t.refreshes[id].created
    ensures Reaches(s, At(t, id, Computing))
  {
    Then(s, t, Check(id));
  }

  lemma Finishes(s: State, t: State, id: Id, data: nat)
    requires Reaches(s, t) && In(t, id, Computing)
    ensures Reaches(s, Written(At(t, id, Leaving), data, t.refreshes[id].total).(wrote := t.wrote + {id}))
  {
    Then(s, t, Finish(id, data));
  }

  lemma Leaves(s: State, t: State, id: Id)
    requires Reaches(s, t) && In(t, id, Leaving) && t.lock == Some(id)
    ensures Reaches(s, At(t, id, Over).(lock := None))
  {
    Then(s, t, Release(id));
  }

  /** One refresh runs from the lock to its release with nobody in between. */
  lemma RefreshRuns(s: State, t: State, id: Id, data: nat) returns (end: State)
    requires Reaches(s, t) && In(t, id, Waiting) && t.lock.None? && Stamp(t) == t.refreshes[id].created
    ensures Reaches(s, end)
    ensures end == Written(At(t, id, Over), data, t.refreshes[id].total).(wrote := t.wrote + {id})
  {
    Starts(s, t, id);
    var a := At(t, id, Locked).(lock := Some(id));
    Checks(s, a, id);
    var b := At(a, id, Computing);
    Finishes(s, b, id, data);
    var c := Written(At(b, id, Leaving), data, t.refreshes[id].total).(wrote := t.wrote + {id});
    Leaves(s, c, id);
    end := At(c, id, Over).(lock := None);
    assert end.phase == t.phase[id := Over];
  }

  /** The state where a value was stored for good at `at`. */
  function Stocked(at: nat, now: nat, refreshes: map<Id, Refresh>, phase: map<Id, Phase>): State {
    State(now, Some(Entry(Item(1, at, None), FOREVER)), Some(Entry(at / 1000, FOREVER)), None, map[],
          refreshes, phase, map[], {})
  }

  lemma Stocks(now: nat, wait: nat)
    ensures Reaches(Start(now), Stocked(now, now + wait, map[], map[]))
  {
    var s := Start(now);
    assert Runs(s, []) && Run(s, []) == s;
    Then(s, s, Serve(0, 0, 0, None));
    var a := Served(s, 0, 0, 0, None);
    Then(s, a, FinishMiss(0, 1));
    var b := Written(a, 1, None).(misses := map[]);
    assert a.misses - {0} == map[];
    Then(s, b, Tick(wait));
  }

  /** A request finds the value stale and starts its refresh. */
  function Started(t: State, id: Id, freshFor: int): State {
    t.(refreshes := t.refreshes[id := Refresh(Stamp(t), freshFor, None)], phase := t.phase[id := Waiting])
  }

  lemma StaleStarts(s: State, t: State, id: Id, freshFor: int)
    requires Reaches(s, t) && Ask(t, freshFor).Stale? && t.queue == map[] && t.misses == map[]
    requires id !in t.phase && id !in t.refreshes
    ensures Reaches(s, Started(t, id, freshFor))
  {
    Then(s, t, Serve(id, id, freshFor, None));
    var u := Served(t, id, id, freshFor, None);
    Then(s, u, Flush(id, id));
    assert u.queue - {id} == map[];
  }

  /** Two refreshes, of freshness `f` and `g`, both read the stamp `c`, and both wrote a new value. */
  predicate BothWrote(s: State, a: Id, b: Id, f: int, g: int, c: nat) {
    && a != b && a in s.wrote && b in s.wrote && a in s.refreshes && b in s.refreshes
    && s.refreshes[a].created == c && s.refreshes[b].created == c
    && s.refreshes[a].freshFor == f && s.refreshes[b].freshFor == g
  }

  ghost predicate CanBothWrite(f: int, g: int, c: nat) {
    exists now: nat, end, a, b :: Reaches(Start(now), end) && BothWrote(end, a, b, f, g, c)
  }

  /** Without freshness the first refresh writes within the second it read, and leaves its stamp for the other. */
  lemma NoFreshnessWritesTwice(f: int, g: int, c: nat)
    requires f <= 0
    ensures CanBothWrite(f, g, c) && CanBothWrite(g, f, c)
  {
    var now, wait := 1000 * c, if g > 0 then 1000 * g else 0;
    var s := Start(now);
    Stocks(now, 0);
    var one := Stocked(now, now, map[], map[]);
    StaleStarts(s, one, 0, f);
    var two := RefreshRuns(s, Started(one, 0, f), 0, 2);
    Then(s, two, Tick(wait));
    var three := Next(two, Tick(wait));
    StaleStarts(s, three, 1, g);
    var end := RefreshRuns(s, Started(three, 1, g), 1, 3);
    assert BothWrote(end, 0, 1, f, g, c) && BothWrote(end, 1, 0, g, f, c);
  }

  /** With a stamp of zero a missing stamp passes for it, and the second refresh writes again. */
  lemma ZeroStampWritesTwice(f: int, g: int)
    requires f > 0 && g > 0
    ensures CanBothWrite(f, g, 0)
  {
    var wait := 1000 * (f + g);
    var s := Start(0);
    Stocks(0, wait);
    var one := Stocked(0, wait, map[], map[]);
    StaleStarts(s, one, 0, f);
    StaleStarts(s, Started(one, 0, f), 1, g);
    var two := RefreshRuns(s, Started(Started(one, 0, f), 1, g), 0, 2);
    Then(s, two, ForgetStamp);
    var end := RefreshRuns(s, Next(two, ForgetStamp), 1, 3);
    assert BothWrote(end, 0, 1, f, g, 0);
  }

  lemma NeverBothWrite(now: nat, end: State, a: Id, b: Id, f: int, g: int, c: nat)
    requires Reaches(Start(now), end) && f > 0 && g > 0 && c > 0
    ensures !BothWrote(end, a, b, f, g, c)
  {
    var steps :| Runs(Start(now), steps) && Run(Start(now), steps) == end;
    if BothWrote(end, a, b, f, g, c) {
      OneRefreshPerStamp(now, steps, a, b);
    }
  }

  /**
   * Two refreshes that read one stamp can both write a new value, in some run, exactly when
   * one of them allows no second of freshness or the stamp is zero.
   */
  lemma OneWriterExactlyWhen(f: int, g: int, c: nat)
    ensures CanBothWrite(f, g, c) <==> f <= 0 || g <= 0 || c == 0
  {
    if f <= 0 {
      NoFreshnessWritesTwice(f, g, c);
    } else if g <= 0 {
      NoFreshnessWritesTwice(g, f, c);
    } else if c == 0 {
      ZeroStampWritesTwice(f, g);
    } else {
      forall now: nat, end, a, b | Reaches(Start(now), end) ensures !BothWrote(end, a, b, f, g, c) {
        NeverBothWrite(now, end, a, b, f, g, c);
      }
    }
  }

  // ------------------------------------------------------------------ the class

  /** The cache of one key, the lock beside it, and the refresh each request has deferred. */
  class Repository {
    var now: nat
    var value: Option<Entry<Item>>
    var created: Option<Entry<nat>>
    var lock: Option<Id>
    var queue: map<Scope, Refresh>

    constructor (now: nat)
      ensures View() == Start(now)
    {
      this.now, value, created, lock, queue := now, None, None, None, map[];
    }

    /** What the cache shares with the machine above; the calls under way are the methods themselves. */
    function View(): State
      reads this
    {
      State(now, value, created, lock, queue, map[], map[], map[], {})
    }

    method Write(data: nat, total: Option<int>)
      modifies this
      ensures View() == Written(old(View()), data, total)
    {
      if total.Some? && total.value <= 0 {
        value, created := None, None;
      } else {
        var expires := if total.None? then FOREVER else ExpiresAt(now, total.value);
        value := Some(Entry(Item(data, now, total), expires));
        created := Some(Entry(now / 1000, expires));
      }
    }

    /** `computed` is what the callback would give, or nothing where it throws. */
    method Flexible(scope: Scope, freshFor: int, total: Option<int>,
                    computed: Option<nat>) returns (result: Option<nat>)
      modifies this
      ensures match Ask(old(View()), freshFor)
              case Missed =>
                result == computed
                && View() == if computed.Some? then Written(old(View()), computed.value, total) else old(View())
              case Fresh(item) => result == Some(item.data) && View() == old(View())
              case Stale(item, _) =>
                result == Some(item.data)
                && View() == Served(old(View()), scope, 0, freshFor, total)
    {
      if value.None? || !Alive(value.value, now) || created.None? || !Alive(created.value, now) {
        if computed.Some? {
          Write(computed.value, total);
        }
        return computed;
      }
      result := Some(value.value.value.data);
      if created.value.value + freshFor <= now / 1000 && scope !in queue {
        queue := queue[scope := Refresh(created.value.value, freshFor, total)];
      }
    }

    /**
     * The deferred refresh of one request, run with nobody in between: it writes exactly when
     * it gets the lock, finds the stamp it read and its callback succeeds, and it frees the
     * lock it took whatever happens.
     */
    method FlushDeferred(scope: Scope, owner: Id, computed: Option<nat>) returns (wrote: bool)
      requires scope in queue
      modifies this
      ensures wrote <==> old(lock).None? && Stamp(old(View())) == old(queue)[scope].created && computed.Some?
      ensures View() == (if wrote then Written(old(View()), computed.value, old(queue)[scope].total) else old(View()))
                        .(queue := old(queue) - {scope})
    {
      var refresh := queue[scope];
      queue := queue - {scope};
      wrote := false;
      if lock.Some? {
        return;
      }
      lock := Some(owner);
      var current := if created.Some? && Alive(created.value, now) then created.value.value else 0;
      if current == refresh.created && computed.Some? {
        Write(computed.value, refresh.total);
        wrote := true;
      }
      lock := None;
    }
  }
}
