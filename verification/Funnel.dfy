/**
 * `Funnel`: a semaphore of `size` owner-token locks. Callers scan the slots one acquire at
 * a time, so any number of them interleave; a callback that throws releases like one that
 * returns, and a lock taken for `lockFor` seconds frees itself when they are over.
 */
module Funnel {
  import opened Options
  import opened Locks

  type Caller = nat

  /** `Inside` keeps the slot and token of the lock taken, and when. */
  datatype Phase = Outside | Scanning(next: nat) | Inside(slot: nat, owner: Owner, since: nat)

  datatype Settings = Settings(size: nat, lockFor: nat, clocking: Clocking)

  datatype State = State(locks: map<nat, Held>, now: nat, phases: map<Caller, Phase>, nextOwner: Owner) {
    function PhaseOf(c: Caller): Phase {
      if c in phases then phases[c] else Outside
    }
  }

  datatype Step =
    | Enter(caller: Caller)
    | Try(caller: Caller)
    | Finish(caller: Caller)
    | Tick(milliseconds: nat)

  predicate Enabled(s: State, step: Step) {
    match step
    case Enter(c) => s.PhaseOf(c).Outside?
    case Try(c) => s.PhaseOf(c).Scanning?
    case Finish(c) => s.PhaseOf(c).Inside?
    case Tick(_) => true
  }

  /** One lock is tried, with a token of its own; past the last slot the caller gives up. */
  function Attempt(o: Settings, s: State, c: Caller, slot: nat): State {
    if slot > o.size then s.(phases := s.phases[c := Outside])
    else if IsFree(s.locks, s.now, slot) then
      State(Take(o.clocking, s.locks, s.now, slot, s.nextOwner, o.lockFor), s.now,
            s.phases[c := Inside(slot, s.nextOwner, s.now)], s.nextOwner + 1)
    else s.(phases := s.phases[c := Scanning(slot + 1)], nextOwner := s.nextOwner + 1)
  }

  function Next(o: Settings, s: State, step: Step): State
    requires Enabled(s, step)
  {
    match step
    case Enter(c) => s.(phases := s.phases[c := Scanning(1)])
    case Try(c) => Attempt(o, s, c, s.PhaseOf(c).next)
    case Finish(c) =>
      var p := s.PhaseOf(c);
      s.(locks := Locks.Release(s.locks, s.now, p.slot, p.owner), phases := s.phases[c := Outside])
    case Tick(milliseconds) => s.(now := s.now + milliseconds)
  }

  const EMPTY := State(map[], 0, map[], 0)

  ghost predicate Runs(o: Settings, s: State, steps: seq<Step>)
    decreases |steps|
  {
    steps != [] ==> Enabled(s, steps[0]) && Runs(o, Next(o, s, steps[0]), steps[1..])
  }

  function Run(o: Settings, s: State, steps: seq<Step>): State
    requires Runs(o, s, steps)
    decreases |steps|
  {
    if steps == [] then s else Run(o, Next(o, s, steps[0]), steps[1..])
  }

  // ------------------------------------------------------------------ one scan

  function Tries(c: Caller, steps: seq<Step>): nat {
    if steps == [] then 0 else Tries(c, steps[1..]) + if steps[0] == Try(c) then 1 else 0
  }

  lemma OneTry(o: Settings, s: State, c: Caller)
    requires s.PhaseOf(c).Scanning?
    ensures var slot, p := s.PhaseOf(c).next, Next(o, s, Try(c)).PhaseOf(c);
            if slot > o.size then p.Outside?
            else if IsFree(s.locks, s.now, slot) then p.Inside? && p.slot == slot && p.since == s.now
            else p == Scanning(slot + 1)
  {}

  lemma OthersLeaveThePhase(o: Settings, s: State, c: Caller, step: Step)
    requires Enabled(s, step) && (step.Tick? || step.caller != c)
    ensures Next(o, s, step).PhaseOf(c) == s.PhaseOf(c)
  {}

  /**
   * One caller's scan, whatever others do meanwhile: it tries slot after slot, ends inside
   * on the one it tried last, or outside when it has tried them all, and tries no further.
   */
  lemma {:induction false} ScanGoesSlotBySlot(o: Settings, s: State, c: Caller, steps: seq<Step>)
    requires Runs(o, s, steps) && Enter(c) !in steps && Finish(c) !in steps
    ensures var p, q, tries := s.PhaseOf(c), Run(o, s, steps).PhaseOf(c), Tries(c, steps);
            if !p.Scanning? then q == p && tries == 0
            else
              match q
              case Scanning(next) => next == p.next + tries
              case Inside(slot, _, _) => tries > 0 && slot == p.next + tries - 1 <= o.size
              case Outside => tries == if p.next <= o.size then o.size + 2 - p.next else 1
    decreases |steps|
  {
    if steps != [] {
      if steps[0] == Try(c) {
        OneTry(o, s, c);
      } else {
        OthersLeaveThePhase(o, s, c, steps[0]);
      }
      ScanGoesSlotBySlot(o, Next(o, s, steps[0]), c, steps[1..]);
    }
  }

  // ------------------------------------------------------------------ who is inside

  /** The time of a slot taken at `since` is over, as its driver counts it. */
  predicate Overdue(o: Settings, now: nat, since: nat) {
    var until := Until(o.clocking, since, o.lockFor);
    until.Some? && until.value <= now
  }

  function InsideCallers(s: State): set<Caller> {
    set c | c in s.phases && s.phases[c].Inside?
  }

  function TimelyCallers(o: Settings, s: State): set<Caller> {
    set c | c in s.phases && s.phases[c].Inside? && !Overdue(o, s.now, s.phases[c].since)
  }

  function Slots(size: nat): (slots: set<nat>)
    ensures forall n :: n in slots <==> 1 <= n <= size
    ensures |slots| == size
  {
    if size == 0 then {} else Slots(size - 1) + {size}
  }

  function FreeSlots(o: Settings, s: State): set<nat> {
    set n | n in Slots(o.size) && IsFree(s.locks, s.now, n)
  }

  /** A caller inside whose time is not over holds its slot's lock under its own token. */
  ghost predicate Holds(o: Settings, s: State, c: Caller) {
    var p := s.PhaseOf(c);
    p.Inside? ==>
      && 1 <= p.slot <= o.size && p.owner < s.nextOwner && p.since <= s.now
      && (!Overdue(o, s.now, p.since) ==>
           p.slot in s.locks && s.locks[p.slot] == Held(p.owner, Until(o.clocking, p.since, o.lockFor)))
  }

  /** This caller is inside on this slot, and wrote the lock that is on it. */
  ghost predicate Wrote(o: Settings, s: State, c: Caller, n: nat) {
    var p := s.PhaseOf(c);
    p.Inside? && p.slot == n && n in s.locks && s.locks[n] == Held(p.owner, Until(o.clocking, p.since, o.lockFor))
  }

  /** A lock that has not expired was written by somebody who is still inside. */
  ghost predicate Accounted(o: Settings, s: State, n: nat) {
    !IsFree(s.locks, s.now, n) ==> exists c :: Wrote(o, s, c, n)
  }

  ghost predicate TwoTokens(s: State, c: Caller, d: Caller) {
    s.PhaseOf(c).Inside? && s.PhaseOf(d).Inside? && c != d ==> s.PhaseOf(c).owner != s.PhaseOf(d).owner
  }

  ghost predicate Scans(s: State, c: Caller) {
    s.PhaseOf(c).Scanning? ==> s.PhaseOf(c).next >= 1
  }

  ghost predicate Inv(o: Settings, s: State) {
    && (forall c :: Holds(o, s, c) && Scans(s, c))
    && (forall n :: Accounted(o, s, n))
    && (forall c, d :: TwoTokens(s, c, d))
  }

  // ------------------------------------------------------------------ every step keeps it

  /** Somebody else's lock is still theirs. */
  lemma StillAccounted(o: Settings, s: State, t: State, n: nat, leaving: Caller)
    requires Accounted(o, s, n)
    requires n in t.locks && n in s.locks && t.locks[n] == s.locks[n] && s.now <= t.now
    requires forall d :: d != leaving ==> t.PhaseOf(d) == s.PhaseOf(d)
    requires !Wrote(o, s, leaving, n) || t.PhaseOf(leaving) == s.PhaseOf(leaving)
    ensures Accounted(o, t, n)
  {
    if !IsFree(t.locks, t.now, n) {
      var d :| Wrote(o, s, d, n);
      assert Wrote(o, t, d, n);
    }
  }

  /** Only this caller's phase changed, and not by going in: nobody's token is touched. */
  lemma QuietKeeps(o: Settings, s: State, t: State, c: Caller)
    requires Inv(o, s) && s.now <= t.now && s.nextOwner <= t.nextOwner && t.locks == s.locks
    requires forall d :: d != c ==> t.PhaseOf(d) == s.PhaseOf(d)
    requires t.PhaseOf(c) == s.PhaseOf(c) || (!s.PhaseOf(c).Inside? && !t.PhaseOf(c).Inside? && Scans(t, c))
    ensures Inv(o, t)
  {
    forall d ensures Holds(o, t, d) && Scans(t, d) {
      assert Holds(o, s, d) && Scans(s, d);
    }
    forall n ensures Accounted(o, t, n) {
      assert Accounted(o, s, n);
      if n in s.locks {
        StillAccounted(o, s, t, n, c);
      }
    }
    forall d, e ensures TwoTokens(t, d, e) {
      assert TwoTokens(s, d, e);
    }
  }

  /** A free slot is taken over; whoever had it is overdue, so loses nothing it was promised. */
  lemma TakeKeeps(o: Settings, s: State, c: Caller)
    requires Inv(o, s) && s.PhaseOf(c).Scanning?
    requires s.PhaseOf(c).next <= o.size && IsFree(s.locks, s.now, s.PhaseOf(c).next)
    ensures Inv(o, Next(o, s, Try(c)))
  {
    var slot := s.PhaseOf(c).next;
    var t := Next(o, s, Try(c));
    assert Scans(s, c);
    forall d ensures Holds(o, t, d) && Scans(t, d) {
      assert Holds(o, s, d) && Scans(s, d);
    }
    forall n ensures Accounted(o, t, n) {
      assert Accounted(o, s, n);
      if n == slot {
        assert Wrote(o, t, c, n);
      } else if n in s.locks {
        StillAccounted(o, s, t, n, c);
      }
    }
    forall d, e ensures TwoTokens(t, d, e) {
      assert TwoTokens(s, d, e) && Holds(o, s, d) && Holds(o, s, e);
    }
  }

  lemma FinishKeeps(o: Settings, s: State, c: Caller)
    requires Inv(o, s) && Enabled(s, Finish(c))
    ensures Inv(o, Next(o, s, Finish(c)))
  {
    var p := s.PhaseOf(c);
    var t := Next(o, s, Finish(c));
    assert Holds(o, s, c);
    forall d ensures Holds(o, t, d) && Scans(t, d) {
      assert Holds(o, s, d) && Scans(s, d) && TwoTokens(s, c, d);
    }
    forall n ensures Accounted(o, t, n) {
      assert Accounted(o, s, n);
      if n in t.locks {
        if Wrote(o, s, c, n) {
          assert IsFree(s.locks, s.now, n);
        } else {
          StillAccounted(o, s, t, n, c);
        }
      }
    }
    forall d, e ensures TwoTokens(t, d, e) {
      assert TwoTokens(s, d, e);
    }
  }

  lemma NextKeeps(o: Settings, s: State, step: Step)
    requires Inv(o, s) && Enabled(s, step)
    ensures Inv(o, Next(o, s, step))
  {
    match step
    case Enter(c) => QuietKeeps(o, s, Next(o, s, step), c);
    case Try(c) =>
      assert Scans(s, c);
      if s.PhaseOf(c).next <= o.size && IsFree(s.locks, s.now, s.PhaseOf(c).next) {
        TakeKeeps(o, s, c);
      } else {
        QuietKeeps(o, s, Next(o, s, step), c);
      }
    case Finish(c) => FinishKeeps(o, s, c);
    case Tick(_) => QuietKeeps(o, s, Next(o, s, step), 0);
  }

  lemma {:induction false} RunKeeps(o: Settings, s: State, steps: seq<Step>)
    requires Inv(o, s) && Runs(o, s, steps)
    ensures Inv(o, Run(o, s, steps))
    decreases |steps|
  {
    if steps != [] {
      NextKeeps(o, s, steps[0]);
      RunKeeps(o, Next(o, s, steps[0]), steps[1..]);
    }
  }

  // ------------------------------------------------------------------ counting

  ghost function SlotOf(s: State, c: Caller): nat {
    if s.PhaseOf(c).Inside? then s.PhaseOf(c).slot else 0
  }

  /** A one-to-one image has as many elements. */
  lemma {:induction false} ImageSize(s: State, callers: set<Caller>, slots: set<nat>)
    requires forall c, d :: c in callers && d in callers && c != d ==> SlotOf(s, c) != SlotOf(s, d)
    requires forall n :: n in slots <==> exists c :: c in callers && SlotOf(s, c) == n
    ensures |slots| == |callers|
    decreases callers
  {
    if callers == {} {
      assert slots == {};
    } else {
      var c :| c in callers;
      var n := SlotOf(s, c);
      forall m ensures m in slots - {n} <==> exists d :: d in callers - {c} && SlotOf(s, d) == m {
        if m in slots - {n} {
          var d :| d in callers && SlotOf(s, d) == m;
          assert d in callers - {c};
        }
      }
      ImageSize(s, callers - {c}, slots - {n});
      assert n in slots;
      assert |slots| == |slots - {n}| + 1;
      assert |callers| == |callers - {c}| + 1;
    }
  }

  lemma TakenByTimely(o: Settings, s: State)
    requires Inv(o, s)
    ensures forall n :: n in Slots(o.size) - FreeSlots(o, s)
              <==> exists c :: c in TimelyCallers(o, s) && SlotOf(s, c) == n
    ensures forall c, d :: c in TimelyCallers(o, s) && d in TimelyCallers(o, s) && c != d ==>
              SlotOf(s, c) != SlotOf(s, d)
  {
    var taken := Slots(o.size) - FreeSlots(o, s);
    forall n | n in taken ensures exists c :: c in TimelyCallers(o, s) && SlotOf(s, c) == n {
      assert Accounted(o, s, n);
      var c :| Wrote(o, s, c, n);
      assert c in TimelyCallers(o, s) && SlotOf(s, c) == n;
    }
    forall c | c in TimelyCallers(o, s) ensures SlotOf(s, c) in taken {
      assert Holds(o, s, c);
    }
    forall c, d | c in TimelyCallers(o, s) && d in TimelyCallers(o, s) && c != d ensures SlotOf(s, c) != SlotOf(s, d) {
      assert Holds(o, s, c) && Holds(o, s, d) && TwoTokens(s, c, d);
    }
  }

  // ------------------------------------------------------------------ the theorems

  /**
   * The law of the semaphore, in every run: free slots and callbacks inside on time always
   * add up to the size.
   */
  lemma SlotsAreConserved(o: Settings, steps: seq<Step>)
    requires Runs(o, EMPTY, steps)
    ensures var s := Run(o, EMPTY, steps);
            |FreeSlots(o, s)| + |TimelyCallers(o, s)| == o.size
  {
    RunKeeps(o, EMPTY, steps);
    var s := Run(o, EMPTY, steps);
    TakenByTimely(o, s);
    ImageSize(s, TimelyCallers(o, s), Slots(o.size) - FreeSlots(o, s));
    assert Slots(o.size) == FreeSlots(o, s) + (Slots(o.size) - FreeSlots(o, s));
  }

  /** If no callback outlives its slot, at most `size` are inside, and when none is all slots are free. */
  lemma AtMostSizeInside(o: Settings, steps: seq<Step>)
    requires Runs(o, EMPTY, steps)
    requires TimelyCallers(o, Run(o, EMPTY, steps)) == InsideCallers(Run(o, EMPTY, steps))
    ensures var s := Run(o, EMPTY, steps);
            |InsideCallers(s)| <= o.size && (InsideCallers(s) == {} <==> |FreeSlots(o, s)| == o.size)
  {
    SlotsAreConserved(o, steps);
  }

  /** Nobody inside at all leaves every slot free, however long the callbacks took. */
  lemma AllFreeWhenEmpty(o: Settings, steps: seq<Step>)
    requires Runs(o, EMPTY, steps) && InsideCallers(Run(o, EMPTY, steps)) == {}
    ensures |FreeSlots(o, Run(o, EMPTY, steps))| == o.size
  {
    SlotsAreConserved(o, steps);
    assert TimelyCallers(o, Run(o, EMPTY, steps)) <= InsideCallers(Run(o, EMPTY, steps));
  }

  /**
   * Finishing frees the caller's own slot when its time is not over and nothing when it
   * is, so a late release never frees a slot somebody else has retaken.
   */
  lemma FinishFreesOwnSlotOrNothing(o: Settings, steps: seq<Step>, c: Caller)
    requires Runs(o, EMPTY, steps) && Run(o, EMPTY, steps).PhaseOf(c).Inside?
    ensures var s := Run(o, EMPTY, steps);
            var p := s.PhaseOf(c);
            FreeSlots(o, Next(o, s, Finish(c)))
              == if Overdue(o, s.now, p.since) then FreeSlots(o, s) else FreeSlots(o, s) + {p.slot}
  {
    RunKeeps(o, EMPTY, steps);
    var s := Run(o, EMPTY, steps);
    var p := s.PhaseOf(c);
    var t := Next(o, s, Finish(c));
    assert Holds(o, s, c);
    if Overdue(o, s.now, p.since) {
      if !IsFree(s.locks, s.now, p.slot) {
        assert Accounted(o, s, p.slot);
        var d :| Wrote(o, s, d, p.slot);
        assert TwoTokens(s, c, d);
      }
      assert t.locks == s.locks;
    }
  }

  /**
   * In every run, more than `size` are inside exactly when there are more callbacks
   * overdue than slots free.
   */
  lemma SizeIsKeptExactlyWhen(o: Settings, steps: seq<Step>)
    requires Runs(o, EMPTY, steps)
    ensures var s := Run(o, EMPTY, steps);
            |InsideCallers(s)| <= o.size <==> |InsideCallers(s) - TimelyCallers(o, s)| <= |FreeSlots(o, s)|
  {
    SlotsAreConserved(o, steps);
    var s := Run(o, EMPTY, steps);
    assert TimelyCallers(o, s) <= InsideCallers(s);
    assert InsideCallers(s) == (InsideCallers(s) - TimelyCallers(o, s)) + TimelyCallers(o, s);
  }

  // ------------------------------------------------------------------ more than the size

  ghost predicate Reaches(o: Settings, s: State) {
    exists steps :: Runs(o, EMPTY, steps) && Run(o, EMPTY, steps) == s
  }

  lemma {:induction false} RunThen(o: Settings, s: State, steps: seq<Step>, last: Step)
    requires Runs(o, s, steps) && Enabled(Run(o, s, steps), last)
    ensures Runs(o, s, steps + [last]) && Run(o, s, steps + [last]) == Next(o, Run(o, s, steps), last)
    decreases |steps|
  {
    if steps == [] {
      assert [] + [last] == [last] && [last][1..] == [];
      assert Runs(o, Next(o, s, last), []);
    } else {
      RunThen(o, Next(o, s, steps[0]), steps[1..], last);
      assert (steps + [last])[1..] == steps[1..] + [last];
    }
  }

  lemma Then(o: Settings, s: State, step: Step)
    requires Reaches(o, s) && Enabled(s, step)
    ensures Reaches(o, Next(o, s, step))
  {
    var steps :| Runs(o, EMPTY, steps) && Run(o, EMPTY, steps) == s;
    RunThen(o, EMPTY, steps, step);
  }

  function Below(k: nat): (callers: set<Caller>)
    ensures forall c :: c in callers <==> 0 <= c < k
    ensures |callers| == k
  {
    if k == 0 then {} else Below(k - 1) + {k - 1}
  }

  /** For how many milliseconds, at the least, a slot stays taken. */
  function Guaranteed(o: Settings): nat
    requires o.lockFor > 0
  {
    if o.clocking.Seconds? then 1000 * o.lockFor - 999 else 1000 * o.lockFor
  }

  predicate WentIn(s: State, c: Caller) {
    c in s.phases && s.phases[c].Inside? && s.phases[c].since == 999
  }

  /** The slot is taken until the time a lock taken at 999 milliseconds runs to. */
  predicate Taken(o: Settings, s: State, n: nat) {
    n in s.locks && s.locks[n].until == Until(o.clocking, 999, o.lockFor)
  }

  ghost predicate PackedCallers(s: State, k: nat) {
    forall c: Caller :: (c in s.phases <==> c < k) && (c < k ==> WentIn(s, c))
  }

  ghost predicate PackedSlots(o: Settings, s: State, k: nat) {
    forall n: nat :: (n in s.locks <==> 1 <= n <= k) && (1 <= n <= k ==> Taken(o, s, n))
  }

  /** So many callers went in at the end of a second, one on each of the first slots. */
  ghost predicate Packed(o: Settings, s: State, k: nat) {
    s.now == 999 && PackedCallers(s, k) && PackedSlots(o, s, k)
  }

  /** A scan passes over every slot that is taken. */
  lemma {:induction false} ScansPast(o: Settings, s: State, c: Caller, next: nat, k: nat) returns (t: State)
    requires Reaches(o, s) && s.PhaseOf(c) == Scanning(next) && next <= k + 1 <= o.size + 1
    requires forall n :: next <= n <= k ==> !IsFree(s.locks, s.now, n)
    ensures Reaches(o, t) && t.locks == s.locks && t.now == s.now && t.phases == s.phases[c := Scanning(k + 1)]
    decreases k + 1 - next
  {
    if next == k + 1 {
      t := s;
      assert s.phases == s.phases[c := Scanning(k + 1)];
    } else {
      Then(o, s, Try(c));
      t := ScansPast(o, Next(o, s, Try(c)), c, next + 1, k);
    }
  }

  lemma PackedWithOneMore(o: Settings, s: State, t: State, k: nat, owner: Owner)
    requires Packed(o, s, k) && t.now == s.now && t.phases == s.phases[k := Inside(k + 1, owner, 999)]
    requires t.locks == s.locks[k + 1 := Held(owner, Until(o.clocking, 999, o.lockFor))]
    ensures Packed(o, t, k + 1)
  {
    forall c: Caller ensures (c in t.phases <==> c < k + 1) && (c < k + 1 ==> WentIn(t, c)) {
      assert c < k ==> WentIn(s, c);
    }
    forall n: nat ensures (n in t.locks <==> 1 <= n <= k + 1) && (1 <= n <= k + 1 ==> Taken(o, t, n)) {
      assert 1 <= n <= k ==> Taken(o, s, n);
    }
  }

  lemma PackedIsTaken(o: Settings, s: State, k: nat)
    requires Packed(o, s, k) && o.lockFor > 0
    ensures forall n :: 1 <= n <= k ==> !IsFree(s.locks, s.now, n)
    ensures IsFree(s.locks, s.now, k + 1) && s.PhaseOf(k).Outside?
  {
    forall n: nat | 1 <= n <= k ensures !IsFree(s.locks, s.now, n) {
      assert Taken(o, s, n);
    }
  }

  lemma TakesFreeSlot(o: Settings, s: State, c: Caller, slot: nat)
    requires s.PhaseOf(c) == Scanning(slot) && slot <= o.size && IsFree(s.locks, s.now, slot)
    ensures var t := Next(o, s, Try(c));
            && t.now == s.now && t.phases == s.phases[c := Inside(slot, s.nextOwner, s.now)]
            && t.locks == s.locks[slot := Held(s.nextOwner, Until(o.clocking, s.now, o.lockFor))]
  {}

  lemma LastPhase(phases: map<Caller, Phase>, c: Caller, first: Phase, second: Phase, last: Phase)
    ensures phases[c := first][c := second][c := last] == phases[c := last]
  {}

  lemma OneMorePacked(o: Settings, s: State, k: nat) returns (t: State)
    requires Reaches(o, s) && Packed(o, s, k) && k < o.size && o.lockFor > 0
    ensures Reaches(o, t) && Packed(o, t, k + 1)
  {
    PackedIsTaken(o, s, k);
    Then(o, s, Enter(k));
    var scanning := ScansPast(o, Next(o, s, Enter(k)), k, 1, k);
    Then(o, scanning, Try(k));
    t := Next(o, scanning, Try(k));
    TakesFreeSlot(o, scanning, k, k + 1);
    LastPhase(s.phases, k, Scanning(1), Scanning(k + 1), Inside(k + 1, scanning.nextOwner, 999));
    PackedWithOneMore(o, s, t, k, scanning.nextOwner);
  }

  lemma {:induction false} Packs(o: Settings, k: nat) returns (s: State)
    requires k <= o.size && o.lockFor > 0
    ensures Reaches(o, s) && Packed(o, s, k)
  {
    if k == 0 {
      assert Runs(o, EMPTY, []) && Run(o, EMPTY, []) == EMPTY;
      Then(o, EMPTY, Tick(999));
      s := Next(o, EMPTY, Tick(999));
    } else {
      var before := Packs(o, k - 1);
      s := OneMorePacked(o, before, k - 1);
    }
  }

  /** Callers inside that have been there for less than so many milliseconds. */
  function Recent(s: State, span: nat): set<Caller> {
    set c | c in s.phases && s.phases[c].Inside? && s.now - s.phases[c].since < span
  }

  /** All slots are taken, and given up together as soon as they can be: one caller more goes in. */
  lemma OneTooMany(o: Settings) returns (s: State)
    requires o.size >= 1 && o.lockFor > 0
    ensures Reaches(o, s) && InsideCallers(s) == Below(o.size + 1) && Recent(s, Guaranteed(o) + 1) == Below(o.size + 1)
  {
    var full := Packs(o, o.size);
    Then(o, full, Tick(Guaranteed(o)));
    var late := Next(o, full, Tick(Guaranteed(o)));
    assert Taken(o, full, 1) && IsFree(late.locks, late.now, 1);
    Then(o, late, Enter(o.size));
    var scanning := Next(o, late, Enter(o.size));
    Then(o, scanning, Try(o.size));
    s := Next(o, scanning, Try(o.size));
    EverybodyInside(o, full, s, scanning.nextOwner, Guaranteed(o) + 1);
  }

  lemma EachInside(o: Settings, full: State, s: State, owner: Owner, span: nat, c: Caller)
    requires PackedCallers(full, o.size) && s.now == 998 + span && span > 0
    requires s.phases == full.phases[o.size := Inside(1, owner, s.now)]
    ensures c in InsideCallers(s) <==> c < o.size + 1
    ensures c in Recent(s, span) <==> c < o.size + 1
  {
    assert c < o.size ==> WentIn(full, c);
  }

  lemma EverybodyInside(o: Settings, full: State, s: State, owner: Owner, span: nat)
    requires PackedCallers(full, o.size) && s.now == 998 + span && span > 0
    requires s.phases == full.phases[o.size := Inside(1, owner, s.now)]
    ensures InsideCallers(s) == Below(o.size + 1) && Recent(s, span) == Below(o.size + 1)
  {
    forall c: Caller
      ensures c in InsideCallers(s) <==> c in Below(o.size + 1)
      ensures c in Recent(s, span) <==> c in Below(o.size + 1)
    {
      EachInside(o, full, s, owner, span, c);
    }
  }

  /** Some run has more than `size` inside exactly when slots are taken with an expiry. */
  lemma SizeCanBeExceededExactlyWhen(o: Settings)
    requires o.size >= 1
    ensures (exists steps :: Runs(o, EMPTY, steps) && |InsideCallers(Run(o, EMPTY, steps))| > o.size) <==> o.lockFor > 0
  {
    if o.lockFor > 0 {
      var s := OneTooMany(o);
      var steps :| Runs(o, EMPTY, steps) && Run(o, EMPTY, steps) == s;
      assert |InsideCallers(Run(o, EMPTY, steps))| == o.size + 1;
    } else {
      forall steps | Runs(o, EMPTY, steps) ensures |InsideCallers(Run(o, EMPTY, steps))| <= o.size {
        AtMostSizeInside(o, steps);
      }
    }
  }

  lemma RecentAreTimely(o: Settings, steps: seq<Step>, span: nat)
    requires Runs(o, EMPTY, steps) && (o.lockFor == 0 || span <= Guaranteed(o))
    ensures |Recent(Run(o, EMPTY, steps), span)| <= o.size
  {
    RunKeeps(o, EMPTY, steps);
    SlotsAreConserved(o, steps);
    var s := Run(o, EMPTY, steps);
    forall c | c in Recent(s, span) ensures c in TimelyCallers(o, s) {
      assert Holds(o, s, c);
    }
    SubsetSize(Recent(s, span), TimelyCallers(o, s));
  }

  lemma SubsetSize(a: set<Caller>, b: set<Caller>)
    requires a <= b
    ensures |a| <= |b|
  {
    assert b == a + (b - a);
  }

  /**
   * What a caller may count on: never more than `size` callbacks younger than so many
   * milliseconds, if and only if slots do not expire or are kept at least as long. A driver
   * that keeps whole seconds gives slots up almost a second early.
   */
  lemma SizeIsKeptForExactly(o: Settings, span: nat)
    requires o.size >= 1
    ensures (forall steps :: Runs(o, EMPTY, steps) ==> |Recent(Run(o, EMPTY, steps), span)| <= o.size)
       <==> o.lockFor == 0 || span <= Guaranteed(o)
  {
    if o.lockFor == 0 || span <= Guaranteed(o) {
      forall steps | Runs(o, EMPTY, steps) ensures |Recent(Run(o, EMPTY, steps), span)| <= o.size {
        RecentAreTimely(o, steps, span);
      }
    } else {
      var s := OneTooMany(o);
      var steps :| Runs(o, EMPTY, steps) && Run(o, EMPTY, steps) == s;
      SubsetSize(Recent(s, Guaranteed(o) + 1), Recent(s, span));
      assert |Recent(Run(o, EMPTY, steps), span)| > o.size;
    }
  }

  // ------------------------------------------------------------------ waiting for a slot

  /**
   * `block`: scan, and while nothing was free and the deadline leaves room, sleep and scan
   * again. `free` says how each scan ends and `clock` what time it is after it.
   */
  method Block(seconds: nat, sleep: nat, free: nat -> bool, clock: nat -> nat, start: nat)
    returns (entered: bool, scans: nat)
    requires sleep > 0 && clock(0) >= start
    requires forall k: nat :: clock(k + 1) >= clock(k) + sleep
    ensures 1 <= scans <= 1000 * seconds / sleep + 1
    ensures forall k: nat :: k < scans - 1 ==> !free(k)
    ensures entered <==> free(scans - 1)
    ensures !entered ==> clock(scans - 1) + sleep > start + 1000 * seconds
  {
    var deadline := start + seconds * 1000;
    scans := 1;
    entered := free(0);
    while !entered
      invariant scans >= 1 && clock(scans - 1) >= start + (scans - 1) * sleep
      invariant (scans - 1) * sleep <= 1000 * seconds
      invariant forall k: nat :: k < scans - 1 ==> !free(k)
      invariant entered <==> free(scans - 1)
      decreases 1000 * seconds - (scans - 1) * sleep, !entered
    {
      if clock(scans - 1) + sleep > deadline {
        break;
      }
      assert clock(scans - 1 + 1) >= clock(scans - 1) + sleep;
      assert scans * sleep == (scans - 1) * sleep + sleep;
      entered := free(scans);
      scans := scans + 1;
    }
    ScansFit(scans - 1, sleep, 1000 * seconds);
  }

  lemma ScansFit(sleeps: nat, sleep: nat, room: nat)
    requires sleep > 0 && sleeps * sleep <= room
    ensures sleeps <= room / sleep
  {
    var whole := room / sleep;
    assert room < whole * sleep + sleep;
    assert (whole + 1 - sleeps) * sleep == whole * sleep + sleep - sleeps * sleep;
    PositiveFactor(whole + 1 - sleeps, sleep);
  }

  lemma PositiveFactor(a: int, b: nat)
    requires a * b > 0
    ensures a > 0
  {}

  // ------------------------------------------------------------------ the class

  /** The locks as the driver holds them, and one funnel's loops over its slots. */
  class Semaphore {
    var locks: map<nat, Held>
    var nextOwner: Owner
    const settings: Settings

    constructor (settings: Settings)
      ensures locks == map[] && this.settings == settings
    {
      this.settings := settings;
      locks, nextOwner := map[], 0;
    }

    /** `acquire`: the slots in order, each with a fresh token; the first free one is taken. */
    method Acquire(now: nat) returns (slot: Option<nat>, owner: Owner)
      modifies this
      ensures slot.None? <==> forall n :: 1 <= n <= settings.size ==> !IsFree(old(locks), now, n)
      ensures slot.None? ==> locks == old(locks)
      ensures slot.Some? ==>
                && 1 <= slot.value <= settings.size && IsFree(old(locks), now, slot.value)
                && (forall n :: 1 <= n < slot.value ==> !IsFree(old(locks), now, n))
                && locks == Take(settings.clocking, old(locks), now, slot.value, owner, settings.lockFor)
      ensures owner >= old(nextOwner) && nextOwner > owner
    {
      owner := nextOwner;
      for index := 1 to settings.size + 1
        invariant locks == old(locks) && nextOwner >= old(nextOwner)
        invariant forall n :: 1 <= n < index ==> !IsFree(locks, now, n)
      {
        owner := nextOwner;
        nextOwner := nextOwner + 1;
        if IsFree(locks, now, index) {
          locks := Take(settings.clocking, locks, now, index, owner, settings.lockFor);
          return Some(index), owner;
        }
      }
      slot, nextOwner := None, nextOwner + 1;
      owner := nextOwner - 1;
    }

    method ReleaseSlot(now: nat, slot: nat, owner: Owner)
      modifies this`locks
      ensures locks == Locks.Release(old(locks), now, slot, owner)
    {
      if !IsFree(locks, now, slot) && locks[slot].owner == owner {
        locks := locks - {slot};
      }
    }

    /** `then`, for a callback that takes until `later`: released whether it returns or throws. */
    method Then(now: nat, later: nat, throws: bool) returns (ran: bool, slot: Option<nat>)
      requires now <= later
      modifies this
      ensures ran <==> exists n :: 1 <= n <= settings.size && IsFree(old(locks), now, n)
      ensures ran ==> slot.Some? && IsFree(locks, later, slot.value)
      ensures forall n :: !IsFree(old(locks), now, n) ==> n in locks && locks[n] == old(locks)[n]
    {
      var owner;
      slot, owner := Acquire(now);
      ran := slot.Some?;
      if ran {
        ReleaseSlot(later, slot.value, owner);
      }
    }

    /** `free`: how many slots nobody holds. */
    method Free(now: nat) returns (free: nat)
      ensures free == |FreeSlots(settings, State(locks, now, map[], nextOwner))|
    {
      free := 0;
      ghost var found: set<nat> := {};
      for index := 1 to settings.size + 1
        invariant forall n :: n in found <==> 1 <= n < index && IsFree(locks, now, n)
        invariant free == |found|
      {
        if IsFree(locks, now, index) {
          found := found + {index};
          free := free + 1;
        }
      }
      assert found == FreeSlots(settings, State(locks, now, map[], nextOwner));
    }
  }
}
