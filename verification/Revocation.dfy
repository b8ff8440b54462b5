/**
 * Session revocation: one epoch per user in the cache, handed back as the version of a
 * cached session cookie. Cookies live `maxAge` seconds, epochs `ttl` seconds.
 */
module Revocation {
  import opened Options
  import opened CacheStore

  type User = nat

  /** `At(ms)` is a clock reading written as text, so the default '1' is `At(1)`. */
  datatype Version = At(ms: nat) | Unavailable(ticket: nat)
  const DEFAULT := At(1)

  type Epochs = map<User, Entry<Version>>

  datatype Cookie = Cookie(user: User, version: Version, issued: nat)

  /** The current epoch; with no store to read, a version nobody has seen before. */
  function Epoch(epochs: Epochs, now: nat, user: User, up: bool, ticket: nat): Version {
    if !up then Unavailable(ticket)
    else
      var held := Get(epochs, now, user);
      if held.Some? then held.value else DEFAULT
  }

  /** `revoke`: a store that refuses the write changes nothing. */
  function Revoke(epochs: Epochs, now: nat, user: User, up: bool, ttl: nat): Epochs {
    if up then PutFor(epochs, now, user, At(now), ttl) else epochs
  }

  // ------------------------------------------------------------------ runs

  datatype Settings = Settings(maxAge: nat, ttl: nat)

  /**
   * Every cookie ever issued, with whether a revoke of its user has since been written;
   * `last` is each user's latest written revoke.
   */
  datatype State = State(
    now: nat, epochs: Epochs, cookies: seq<Cookie>, revoked: set<nat>, last: map<User, nat>, ticket: nat)

  datatype Step =
    | Issue(user: User, up: bool)
    | DoRevoke(user: User, up: bool)
    | Tick(milliseconds: nat)

  /** Two revokes of one user are never written in the same millisecond. */
  predicate Enabled(s: State, step: Step) {
    step.DoRevoke? && step.up && step.user in s.last ==> s.last[step.user] < s.now
  }

  function Next(o: Settings, s: State, step: Step): State {
    match step
    case Issue(user, up) =>
      s.(cookies := s.cookies + [Cookie(user, Epoch(s.epochs, s.now, user, up, s.ticket), s.now)],
         ticket := s.ticket + 1)
    case DoRevoke(user, up) =>
      s.(epochs := Revoke(s.epochs, s.now, user, up, o.ttl),
         revoked := s.revoked + (set i | 0 <= i < |s.cookies| && up && s.cookies[i].user == user),
         last := if up then s.last[user := s.now] else s.last)
    case Tick(milliseconds) => s.(now := s.now + milliseconds)
  }

  function Start(now: nat): State {
    State(now, map[], [], {}, map[], 0)
  }

  ghost predicate Runs(o: Settings, s: State, steps: seq<Step>)
    decreases |steps|
  {
    steps != [] ==> Enabled(s, steps[0]) && Runs(o, Next(o, s, steps[0]), steps[1..])
  }

  function Run(o: Settings, s: State, steps: seq<Step>): State
    decreases |steps|
  {
    if steps == [] then s else Run(o, Next(o, s, steps[0]), steps[1..])
  }

  /** A cached cookie is trusted while it is young enough and its version is the epoch. */
  predicate Accepted(o: Settings, s: State, cookie: Cookie, up: bool) {
    s.now < cookie.issued + 1000 * o.maxAge && cookie.version == Epoch(s.epochs, s.now, cookie.user, up, s.ticket)
  }

  /** No cookie issued before a revoke of its user is accepted now. */
  ghost predicate NothingComesBack(o: Settings, s: State) {
    forall i, up :: i in s.revoked && 0 <= i < |s.cookies| ==> !Accepted(o, s, s.cookies[i], up)
  }

  // ------------------------------------------------------------------ the invariant

  /** A version already on a cookie is the default or an epoch no newer than the last revoke. */
  ghost predicate Dated(s: State, c: Cookie) {
    && c.issued <= s.now
    && (c.version.At? ==> c.version.ms == 1 || (c.user in s.last && c.version.ms <= s.last[c.user]))
    && (c.version.Unavailable? ==> c.version.ticket < s.ticket)
  }

  /** A revoked cookie is older than the revoke, and its version is older than the epoch. */
  ghost predicate Cut(s: State, c: Cookie) {
    && c.user in s.last && c.issued <= s.last[c.user]
    && (c.version.At? ==> c.version.ms < s.last[c.user])
  }

  /** The latest revoke is what the cache holds, until its own expiry. */
  ghost predicate Stored(o: Settings, s: State, user: User) {
    && user in s.last && s.last[user] <= s.now
    && user in s.epochs && s.epochs[user] == Entry(At(s.last[user]), ExpiresAt(s.last[user], o.ttl))
  }

  ghost predicate Inv(o: Settings, s: State) {
    && s.now > 1
    && (forall i :: 0 <= i < |s.cookies| ==> Dated(s, s.cookies[i]))
    && (forall i :: i in s.revoked ==> 0 <= i < |s.cookies| && Cut(s, s.cookies[i]))
    && (forall user :: user in s.last ==> Stored(o, s, user))
    && (forall user :: user in s.epochs ==> user in s.last)
  }

  lemma IssueKeeps(o: Settings, s: State, user: User, up: bool)
    requires Inv(o, s)
    ensures Inv(o, Next(o, s, Issue(user, up)))
  {
    var t := Next(o, s, Issue(user, up));
    forall i | 0 <= i < |t.cookies| ensures Dated(t, t.cookies[i]) {
      if i < |s.cookies| {
        assert Dated(s, s.cookies[i]);
      } else if user in s.epochs {
        assert Stored(o, s, user);
      }
    }
    forall i | i in t.revoked ensures 0 <= i < |t.cookies| && Cut(t, t.cookies[i]) {
      assert t.cookies[i] == s.cookies[i] && Cut(s, s.cookies[i]);
    }
    forall other | other in t.last ensures Stored(o, t, other) {
      assert Stored(o, s, other);
    }
  }

  lemma RevokeKeeps(o: Settings, s: State, user: User)
    requires o.ttl > 0 && Inv(o, s) && Enabled(s, DoRevoke(user, true))
    ensures Inv(o, Next(o, s, DoRevoke(user, true)))
  {
    var t := Next(o, s, DoRevoke(user, true));
    forall i | 0 <= i < |t.cookies| ensures Dated(t, t.cookies[i]) {
      assert Dated(s, s.cookies[i]);
      if user in s.last {
        assert Stored(o, s, user);
      }
    }
    forall i | i in t.revoked ensures 0 <= i < |t.cookies| && Cut(t, t.cookies[i]) {
      assert i in s.revoked || s.cookies[i].user == user;
      assert Dated(s, s.cookies[i]);
    }
    forall other | other in t.last ensures Stored(o, t, other) {
      assert other == user || Stored(o, s, other);
    }
  }

  lemma NextKeeps(o: Settings, s: State, step: Step)
    requires o.ttl > 0 && Inv(o, s) && Enabled(s, step)
    ensures Inv(o, Next(o, s, step))
  {
    match step
    case Issue(user, up) => IssueKeeps(o, s, user, up);
    case DoRevoke(user, up) =>
      if up {
        RevokeKeeps(o, s, user);
      }
    case Tick(_) =>
      var t := Next(o, s, step);
      forall i | 0 <= i < |t.cookies| ensures Dated(t, t.cookies[i]) {
        assert Dated(s, s.cookies[i]);
      }
      forall i | i in t.revoked ensures 0 <= i < |t.cookies| && Cut(t, t.cookies[i]) {
        assert Cut(s, s.cookies[i]);
      }
      forall user | user in t.last ensures Stored(o, t, user) {
        assert Stored(o, s, user);
      }
  }

  lemma {:induction false} RunKeeps(o: Settings, s: State, steps: seq<Step>)
    requires o.ttl > 0 && Inv(o, s) && Runs(o, s, steps)
    ensures Inv(o, Run(o, s, steps))
    decreases |steps|
  {
    if steps != [] {
      NextKeeps(o, s, steps[0]);
      RunKeeps(o, Next(o, s, steps[0]), steps[1..]);
    }
  }

  // ------------------------------------------------------------------ the theorems

  /** An epoch written at `at` is still there for as long as any cookie issued by then. */
  lemma EpochOutlivesCookies(at: nat, issued: nat, now: nat, o: Settings)
    requires o.ttl > o.maxAge && issued <= at <= now < issued + 1000 * o.maxAge
    ensures Alive(Entry(At(at), ExpiresAt(at, o.ttl)), now)
  {
    assert now < at + 1000 * o.maxAge;
    assert now / 1000 <= at / 1000 + o.maxAge;
  }

  lemma CutIsRefused(o: Settings, s: State, c: Cookie, up: bool)
    requires o.ttl > o.maxAge && Inv(o, s) && Dated(s, c) && Cut(s, c)
    ensures !Accepted(o, s, c, up)
  {
    assert Stored(o, s, c.user);
    if s.now < c.issued + 1000 * o.maxAge {
      EpochOutlivesCookies(s.last[c.user], c.issued, s.now, o);
    }
  }

  /** Expiry never undoes a revocation when epochs are kept longer than cookies. */
  lemma RevokedStaysRevoked(o: Settings, now: nat, steps: seq<Step>)
    requires o.ttl > o.maxAge && now > 1 && Runs(o, Start(now), steps)
    ensures NothingComesBack(o, Run(o, Start(now), steps))
  {
    RunKeeps(o, Start(now), steps);
    var s := Run(o, Start(now), steps);
    forall i, up | i in s.revoked && 0 <= i < |s.cookies| ensures !Accepted(o, s, s.cookies[i], up) {
      assert Dated(s, s.cookies[i]) && Cut(s, s.cookies[i]);
      CutIsRefused(o, s, s.cookies[i], up);
    }
  }

  /** The margin the provider adds is more than enough. */
  lemma ProviderMarginIsSafe(maxAge: nat, now: nat, steps: seq<Step>)
    requires now > 1 && Runs(Settings(maxAge, maxAge + 60), Start(now), steps)
    ensures NothingComesBack(Settings(maxAge, maxAge + 60), Run(Settings(maxAge, maxAge + 60), Start(now), steps))
  {
    RevokedStaysRevoked(Settings(maxAge, maxAge + 60), now, steps);
  }

  /** With a lifetime no longer than the cookie's, the second lost to rounding brings a cookie back. */
  lemma ShortEpochComesBack(o: Settings) returns (steps: seq<Step>)
    requires 0 < o.ttl <= o.maxAge && 2 + o.ttl < FOREVER
    ensures Runs(o, Start(2999), steps) && !NothingComesBack(o, Run(o, Start(2999), steps))
  {
    var tick := (2 + o.ttl) * 1000 - 2999;
    steps := [Issue(0, true), DoRevoke(0, true), Tick(tick)];
    var s0 := Start(2999);
    var s1 := Next(o, s0, steps[0]);
    var s2 := Next(o, s1, steps[1]);
    var s3 := Next(o, s2, steps[2]);
    assert steps[1..] == [DoRevoke(0, true), Tick(tick)] && steps[1..][1..] == [Tick(tick)];
    assert Runs(o, s3, []) && Runs(o, s2, steps[1..][1..]);
    assert Run(o, s2, steps[1..][1..]) == Run(o, s3, []) == s3;
    var cookie := Cookie(0, DEFAULT, 2999);
    assert s3.cookies == [cookie] && 0 in s3.revoked;
    assert s3.epochs[0] == Entry(At(2999), 2 + o.ttl);
    assert s3.now / 1000 == 2 + o.ttl;
    assert Accepted(o, s3, s3.cookies[0], true);
  }

  /** The guarantee holds over all runs exactly when epochs outlive cookies by a whole second. */
  lemma SafeExactlyWhenEpochsOutliveCookies(o: Settings)
    requires o.ttl > 0 && o.maxAge > 0 && 2 + o.ttl < FOREVER
    ensures o.ttl > o.maxAge
       <==> forall now: nat, steps :: now > 1 && Runs(o, Start(now), steps)
              ==> NothingComesBack(o, Run(o, Start(now), steps))
  {
    if o.ttl > o.maxAge {
      forall now: nat, steps | now > 1 && Runs(o, Start(now), steps)
        ensures NothingComesBack(o, Run(o, Start(now), steps))
      {
        RevokedStaysRevoked(o, now, steps);
      }
    } else {
      var steps := ShortEpochComesBack(o);
    }
  }

  /** Without a store nothing is trusted, and a cookie written then is never trusted later. */
  lemma FailsClosed(o: Settings, now: nat, steps: seq<Step>, i: nat, up: bool)
    requires o.ttl > 0 && now > 1 && Runs(o, Start(now), steps)
    requires i < |Run(o, Start(now), steps).cookies|
    requires !up || Run(o, Start(now), steps).cookies[i].version.Unavailable?
    ensures !Accepted(o, Run(o, Start(now), steps), Run(o, Start(now), steps).cookies[i], up)
  {
    RunKeeps(o, Start(now), steps);
    var s := Run(o, Start(now), steps);
    var c := s.cookies[i];
    assert Dated(s, c);
    if c.user in s.epochs {
      assert Stored(o, s, c.user);
    }
  }

  // ------------------------------------------------------------------ what is still trusted

  /** The user's latest revoke can still be read at this moment. */
  predicate Remembered(o: Settings, last: map<User, nat>, user: User, at: nat) {
    user in last && Alive(Entry(At(last[user]), ExpiresAt(last[user], o.ttl)), at)
  }

  /** A cookie that no revoke has cut carries the latest revoke that could be read when it was issued. */
  ghost predicate Stamped(o: Settings, s: State, i: nat)
    requires i < |s.cookies|
  {
    var c := s.cookies[i];
    c.version.At? && i !in s.revoked ==>
      c.version == if Remembered(o, s.last, c.user, c.issued) then At(s.last[c.user]) else DEFAULT
  }

  ghost predicate AllStamped(o: Settings, s: State) {
    forall i :: 0 <= i < |s.cookies| ==> Stamped(o, s, i)
  }

  lemma EpochIsLast(o: Settings, s: State, user: User, ticket: nat)
    requires Inv(o, s)
    ensures Epoch(s.epochs, s.now, user, true, ticket)
         == if Remembered(o, s.last, user, s.now) then At(s.last[user]) else DEFAULT
  {
    if user in s.last {
      assert Stored(o, s, user);
    }
  }

  lemma NextStamps(o: Settings, s: State, step: Step)
    requires Inv(o, s) && AllStamped(o, s)
    ensures AllStamped(o, Next(o, s, step))
  {
    var t := Next(o, s, step);
    forall i | 0 <= i < |t.cookies| ensures Stamped(o, t, i) {
      if i < |s.cookies| {
        assert Stamped(o, s, i);
      } else {
        EpochIsLast(o, s, step.user, s.ticket);
      }
    }
  }

  lemma {:induction false} RunStamps(o: Settings, s: State, steps: seq<Step>)
    requires o.ttl > 0 && Inv(o, s) && AllStamped(o, s) && Runs(o, s, steps)
    ensures AllStamped(o, Run(o, s, steps))
    decreases |steps|
  {
    if steps != [] {
      NextKeeps(o, s, steps[0]);
      NextStamps(o, s, steps[0]);
      RunStamps(o, Next(o, s, steps[0]), steps[1..]);
    }
  }

  /**
   * In every run a cookie issued with the store up is accepted exactly while it is young,
   * the store can be read, no revoke of its user has been written since, and the revoke
   * before it, if it could be read when the cookie was issued, has not expired.
   */
  lemma AcceptedExactlyWhen(o: Settings, now: nat, steps: seq<Step>, i: nat, up: bool)
    requires o.ttl > o.maxAge && now > 1 && Runs(o, Start(now), steps)
    requires i < |Run(o, Start(now), steps).cookies| && Run(o, Start(now), steps).cookies[i].version.At?
    ensures var s := Run(o, Start(now), steps);
            var c := s.cookies[i];
            Accepted(o, s, c, up)
            <==> && s.now < c.issued + 1000 * o.maxAge && up && i !in s.revoked
                 && (Remembered(o, s.last, c.user, c.issued) ==> Remembered(o, s.last, c.user, s.now))
  {
    RunKeeps(o, Start(now), steps);
    RunStamps(o, Start(now), steps);
    var s := Run(o, Start(now), steps);
    var c := s.cookies[i];
    assert Dated(s, c) && Stamped(o, s, i);
    EpochIsLast(o, s, c.user, s.ticket);
    if i in s.revoked {
      assert Cut(s, c);
      CutIsRefused(o, s, c, up);
    } else if c.user in s.last {
      assert Stored(o, s, c.user);
      LastIsNoDefault(o, now, steps, c.user);
    }
  }

  /** The clock starts past the default version, so no revoke is written under it. */
  lemma {:induction false} RevokesAreLate(o: Settings, s: State, steps: seq<Step>)
    requires s.now > 1 && forall user :: user in s.last ==> s.last[user] > 1
    ensures forall user :: user in Run(o, s, steps).last ==> Run(o, s, steps).last[user] > 1
    decreases |steps|
  {
    if steps != [] {
      RevokesAreLate(o, Next(o, s, steps[0]), steps[1..]);
    }
  }

  lemma LastIsNoDefault(o: Settings, now: nat, steps: seq<Step>, user: User)
    requires now > 1 && user in Run(o, Start(now), steps).last
    ensures At(Run(o, Start(now), steps).last[user]) != DEFAULT
  {
    RevokesAreLate(o, Start(now), steps);
  }

  /** A cookie issued with the store up carries a clock reading. */
  lemma IssuedWithAVersion(o: Settings, now: nat, steps: seq<Step>, user: User)
    requires o.ttl > 0 && now > 1 && Runs(o, Start(now), steps)
    ensures var s := Run(o, Start(now), steps);
            var t := Next(o, s, Issue(user, true));
            && |t.cookies| == |s.cookies| + 1 && t.cookies[|s.cookies|].version.At?
            && t.cookies[|s.cookies|].user == user && t.cookies[|s.cookies|].issued == s.now
            && |s.cookies| !in t.revoked
  {
    RunKeeps(o, Start(now), steps);
    var s := Run(o, Start(now), steps);
    EpochIsLast(o, s, user, s.ticket);
    assert forall i :: i in s.revoked ==> i < |s.cookies|;
  }

  // ------------------------------------------------------------------ the class

  class SessionRevocations {
    var epochs: Epochs
    /** How many unmatchable versions have been handed out. */
    var tickets: nat
    const ttl: nat

    constructor (ttl: nat)
      ensures epochs == map[] && tickets == 0 && this.ttl == ttl
    {
      this.ttl := ttl;
      epochs, tickets := map[], 0;
    }

    method CurrentEpoch(now: nat, user: User, up: bool) returns (version: Version)
      modifies this`tickets
      ensures version == Epoch(epochs, now, user, up, old(tickets))
      ensures tickets > old(tickets)
    {
      tickets := tickets + 1;
      if !up {
        return Unavailable(tickets - 1);
      }
      var held := Get(epochs, now, user);
      version := if held.Some? then held.value else DEFAULT;
    }

    method RevokeAll(now: nat, user: User, up: bool)
      modifies this`epochs
      ensures epochs == Revoke(old(epochs), now, user, up, ttl)
    {
      if up {
        epochs := PutFor(epochs, now, user, At(now), ttl);
      }
    }
  }
}
