/**
 * The browser's connection (`Echo`) against a server reached over a FIFO wire: held
 * channels, resubscription on open, the retry timer and its backoff.
 */
module Echo {
  import opened Options

  type Name = nat
  datatype Frame = Subscribe(name: Name) | Unsubscribe(name: Name)

  /**
   * The socket as the client can find it. `Open` carries the frames still on the wire, the
   * subscriptions the server holds for this socket and the authorisations it is waiting
   * for; a frame sent in any other state is dropped. `Closing` is a socket whose `close()`
   * was called and whose `onclose` is to come.
   *
   * `overtaken` remembers the names whose last frame served was an unsubscribe that found
   * an authorisation of that name still pending.
   */
  datatype Link =
    | Down
    | Connecting
    | Open(wire: seq<Frame>, server: set<Name>, pending: multiset<Name>, overtaken: set<Name>)
    | Closing

  datatype Settings = Settings(maxAttempts: Option<nat>, delay: real, maxDelay: real) {
    predicate Sane() {
      delay > 0.0 && maxDelay > 0.0
    }
  }

  /**
   * `timer` is the delay of the retry that is pending; `dials` counts sockets ever created
   * and `retries` the retries since a socket last dials.
   */
  datatype Client = Client(
    channels: seq<Name>, link: Link, closing: bool, attempts: nat, timer: Option<real>,
    dials: nat, retries: nat)

  const STARTED := Client([], Connecting, false, 0, None, 1, 0)

  function PowerOfTwo(n: nat): (p: real)
    ensures p >= 1.0
  {
    if n == 0 then 1.0 else 2.0 * PowerOfTwo(n - 1)
  }

  function Ceiling(o: Settings, attempts: nat): real {
    var backoff := o.delay * PowerOfTwo(attempts);
    if o.maxDelay < backoff then o.maxDelay else backoff
  }

  function Delay(o: Settings, attempts: nat, random: real): real {
    Jitter(Ceiling(o, attempts) / 2.0, random)
  }

  /** Half of the wait, and a random part of the other half. */
  function Jitter(half: real, random: real): real {
    half + random * half
  }

  // ------------------------------------------------------------------ the client

  function Held(channels: seq<Name>): set<Name> {
    set name | name in channels
  }

  function Remove(channels: seq<Name>, name: Name): seq<Name> {
    if channels == [] then []
    else if channels[0] == name then Remove(channels[1..], name)
    else [channels[0]] + Remove(channels[1..], name)
  }

  function Resubscribe(channels: seq<Name>): seq<Frame> {
    seq(|channels|, i requires 0 <= i < |channels| => Subscribe(channels[i]))
  }

  function Send(c: Client, frame: Frame): Client {
    if c.link.Open? then c.(link := c.link.(wire := c.link.wire + [frame])) else c
  }

  function Channel(c: Client, name: Name): Client {
    if name in c.channels then c else Send(c.(channels := c.channels + [name]), Subscribe(name))
  }

  function Leave(c: Client, name: Name): Client {
    Send(c.(channels := Remove(c.channels, name)), Unsubscribe(name))
  }

  function Connect(c: Client): Client {
    c.(link := Connecting, timer := None, dials := c.dials + 1)
  }

  /** A socket just opened, as the server sees it. */
  function Fresh(wire: seq<Frame>): Link {
    Open(wire, {}, multiset{}, {})
  }

  function OnOpen(c: Client): Client {
    c.(attempts := 0, retries := 0, link := Fresh(Resubscribe(c.channels)))
  }

  function Retry(o: Settings, c: Client, random: real): Client {
    if o.maxAttempts.Some? && c.attempts >= o.maxAttempts.value then c
    else c.(attempts := c.attempts + 1, timer := Some(Delay(o, c.attempts, random)), retries := c.retries + 1)
  }

  function OnClose(o: Settings, c: Client, random: real): Client {
    if c.closing then c.(link := Down) else Retry(o, c.(link := Down), random)
  }

  function Disconnect(c: Client): Client {
    c.(closing := true, timer := None, link := if c.link.Down? then Down else Closing)
  }

  // ------------------------------------------------------------------ the server

  /**
   * Frames are served in order. A subscribe waits for the channel's authorisation and
   * nobody waits for it: an unsubscribe is done at once.
   */
  function ServeFrame(link: Link): Link
    requires link.Open? && link.wire != []
  {
    var rest := link.wire[1..];
    match link.wire[0]
    case Subscribe(name) =>
      Open(rest, link.server, link.pending + multiset{name}, link.overtaken - {name})
    case Unsubscribe(name) =>
      Open(rest, link.server - {name}, link.pending,
           if name in link.pending then link.overtaken + {name} else link.overtaken - {name})
  }

  /** One pending authorisation is answered; only a granted one subscribes. */
  function Settle(granted: Name -> bool, link: Link, name: Name): Link
    requires link.Open? && name in link.pending
  {
    link.(pending := link.pending - multiset{name},
          server := if granted(name) then link.server + {name} else link.server)
  }

  /** One frame served where the authorisation does not wait. */
  function Serve(granted: Name -> bool, held: set<Name>, frame: Frame): set<Name> {
    match frame
    case Subscribe(name) => if granted(name) then held + {name} else held
    case Unsubscribe(name) => held - {name}
  }

  function Drain(granted: Name -> bool, held: set<Name>, wire: seq<Frame>): set<Name>
    decreases |wire|
  {
    if wire == [] then held else Drain(granted, Serve(granted, held, wire[0]), wire[1..])
  }

  // ------------------------------------------------------------------ runs

  datatype Step =
    | DoChannel(name: Name)
    | DoLeave(name: Name)
    | Opened
    | Closed(random: real)
    | Served
    | Settled(name: Name)
    | TimerFired
    | DoDisconnect

  predicate Enabled(c: Client, step: Step) {
    match step
    case DoChannel(_) => true
    case DoLeave(_) => true
    case Opened => c.link.Connecting?
    case Closed(random) => !c.link.Down? && 0.0 <= random < 1.0
    case Served => c.link.Open? && c.link.wire != []
    case Settled(name) => c.link.Open? && name in c.link.pending
    case TimerFired => c.timer.Some?
    case DoDisconnect => true
  }

  function Next(o: Settings, granted: Name -> bool, c: Client, step: Step): Client
    requires Enabled(c, step)
  {
    match step
    case DoChannel(name) => Channel(c, name)
    case DoLeave(name) => Leave(c, name)
    case Opened => OnOpen(c)
    case Closed(random) => OnClose(o, c, random)
    case Served => c.(link := ServeFrame(c.link))
    case Settled(name) => c.(link := Settle(granted, c.link, name))
    case TimerFired => Connect(c)
    case DoDisconnect => Disconnect(c)
  }

  ghost predicate Runs(o: Settings, granted: Name -> bool, c: Client, steps: seq<Step>)
    decreases |steps|
  {
    steps != [] ==> Enabled(c, steps[0]) && Runs(o, granted, Next(o, granted, c, steps[0]), steps[1..])
  }

  function Run(o: Settings, granted: Name -> bool, c: Client, steps: seq<Step>): Client
    requires Runs(o, granted, c, steps)
    decreases |steps|
  {
    if steps == [] then c else Run(o, granted, Next(o, granted, c, steps[0]), steps[1..])
  }

  // ------------------------------------------------------------------ the invariant

  /** The last frame on the wire about a name. */
  function LastAbout(wire: seq<Frame>, name: Name): Option<Frame> {
    if wire == [] then None
    else if wire[|wire| - 1].name == name then Some(wire[|wire| - 1])
    else LastAbout(wire[..|wire| - 1], name)
  }

  /**
   * The last frame on the wire about a name says whether the client holds it. With none
   * there, a granted name that is held, or whose unsubscribe was overtaken, is subscribed
   * or about to be, and any other is neither.
   */
  ghost predicate NameInStep(granted: Name -> bool, channels: seq<Name>, link: Link, name: Name)
    requires link.Open?
  {
    && (name in link.server ==> granted(name))
    && match LastAbout(link.wire, name)
       case Some(frame) => frame.Subscribe? <==> name in channels
       case None =>
         && (name in channels ==> name !in link.overtaken)
         && ((name in channels || name in link.overtaken) && granted(name) ==>
              name in link.pending || name in link.server)
         && (name !in channels && name !in link.overtaken ==> name !in link.pending && name !in link.server)
  }

  ghost predicate InStep(granted: Name -> bool, c: Client) {
    c.link.Open? ==> forall name :: NameInStep(granted, c.channels, c.link, name)
  }

  ghost predicate OneWayBack(o: Settings, c: Client) {
    && (c.timer.Some? ==> c.link.Down? && !c.closing)
    && (c.link.Down? && !c.closing && c.timer.None? ==> o.maxAttempts == Some(c.attempts))
  }

  ghost predicate Backoff(o: Settings, c: Client) {
    && c.attempts == c.retries
    && (o.maxAttempts.Some? ==> c.attempts <= o.maxAttempts.value)
    && (c.timer.Some? ==> c.attempts > 0)
    && (c.timer.Some? ==>
         var wait := Smaller(o.maxDelay, Doubled(o.delay, c.attempts - 1)); wait / 2.0 <= c.timer.value < wait)
  }

  ghost predicate Inv(o: Settings, granted: Name -> bool, c: Client) {
    InStep(granted, c) && OneWayBack(o, c) && Backoff(o, c)
  }

  lemma {:induction false} DrainLater(granted: Name -> bool, held: set<Name>, wire: seq<Frame>, frame: Frame)
    ensures Drain(granted, held, wire + [frame]) == Serve(granted, Drain(granted, held, wire), frame)
    decreases |wire|
  {
    if wire == [] {
      assert [frame][1..] == [];
      assert wire + [frame] == [frame];
    } else {
      assert (wire + [frame])[1..] == wire[1..] + [frame];
      DrainLater(granted, Serve(granted, held, wire[0]), wire[1..], frame);
    }
  }

  lemma {:induction false} RemoveDrops(channels: seq<Name>, name: Name)
    ensures forall other :: other in Remove(channels, name) <==> other in channels && other != name
  {
    if channels != [] {
      RemoveDrops(channels[1..], name);
      assert channels == [channels[0]] + channels[1..];
    }
  }

  /** Draining the resubscriptions of `onopen` gives the server what the client holds. */
  lemma {:induction false} ResubscribeDrains(granted: Name -> bool, channels: seq<Name>, held: set<Name>)
    ensures forall name :: name in Drain(granted, held, Resubscribe(channels))
              <==> name in held || (name in channels && granted(name))
    decreases |channels|
  {
    var wire := Resubscribe(channels);
    if channels == [] {
      assert wire == [];
    } else {
      assert wire[1..] == Resubscribe(channels[1..]);
      ResubscribeDrains(granted, channels[1..], Serve(granted, held, wire[0]));
      assert channels == [channels[0]] + channels[1..];
    }
  }

  /** Draining a wire leaves each name as the last frame about it says. */
  lemma {:induction false} DrainedByLast(granted: Name -> bool, held: set<Name>, wire: seq<Frame>, name: Name)
    requires name in held ==> granted(name)
    ensures name in Drain(granted, held, wire) <==>
              match LastAbout(wire, name)
              case Some(frame) => frame.Subscribe? && granted(name)
              case None => name in held
  {
    if wire != [] {
      var front, last := wire[..|wire| - 1], wire[|wire| - 1];
      assert wire == front + [last];
      DrainLater(granted, held, front, last);
      DrainedByLast(granted, held, front, name);
    }
  }

  lemma {:induction false} LastOfRest(wire: seq<Frame>, name: Name)
    requires wire != []
    ensures LastAbout(wire, name) == if LastAbout(wire[1..], name).Some? then LastAbout(wire[1..], name)
                                     else if wire[0].name == name then Some(wire[0]) else None
  {
    if |wire| > 1 {
      LastOfRest(wire[..|wire| - 1], name);
      assert wire[1..][..|wire| - 2] == wire[..|wire| - 1][1..];
    }
  }

  lemma LastOfLonger(wire: seq<Frame>, frame: Frame, name: Name)
    ensures LastAbout(wire + [frame], name) == if frame.name == name then Some(frame) else LastAbout(wire, name)
  {
    assert (wire + [frame])[..|wire|] == wire;
  }

  lemma {:induction false} LastOfResubscribe(channels: seq<Name>, name: Name)
    ensures LastAbout(Resubscribe(channels), name) == if name in channels then Some(Subscribe(name)) else None
  {
    if channels != [] {
      var front := channels[..|channels| - 1];
      assert Resubscribe(channels)[..|channels| - 1] == Resubscribe(front);
      assert channels == front + [channels[|channels| - 1]];
      LastOfResubscribe(front, name);
    }
  }

  function Smaller(a: real, b: real): real {
    if a < b then a else b
  }

  function Doubled(wait: real, times: nat): real {
    if times == 0 then wait else 2.0 * Doubled(wait, times - 1)
  }

  lemma DoubledProduct(a: real, b: real)
    ensures a * (2.0 * b) == 2.0 * (a * b)
  {}

  /** The ceiling is the first delay, doubled once for each attempt, as far as the maximum. */
  lemma {:induction false} CeilingDoubles(o: Settings, attempts: nat)
    ensures o.delay * PowerOfTwo(attempts) == Doubled(o.delay, attempts)
    ensures Ceiling(o, attempts) == Smaller(o.maxDelay, Doubled(o.delay, attempts))
  {
    if attempts == 0 {
      assert o.delay * 1.0 == o.delay;
    } else {
      CeilingDoubles(o, attempts - 1);
      DoubledProduct(o.delay, PowerOfTwo(attempts - 1));
    }
  }

  /** So it doubles with each attempt until it reaches the maximum, and stays there. */
  lemma CeilingSteps(o: Settings, attempts: nat)
    requires o.Sane()
    ensures Ceiling(o, 0) == Smaller(o.delay, o.maxDelay)
    ensures Ceiling(o, attempts + 1) == Smaller(o.maxDelay, 2.0 * Ceiling(o, attempts))
  {
    CeilingDoubles(o, 0);
    CeilingDoubles(o, attempts);
    CeilingDoubles(o, attempts + 1);
  }

  /** A delay is half of the ceiling and a random part of the other half. */
  lemma DelayIsBounded(o: Settings, attempts: nat, random: real)
    requires o.Sane() && 0.0 <= random < 1.0
    ensures var wait := Smaller(o.maxDelay, Doubled(o.delay, attempts));
            && Delay(o, attempts, random) == wait / 2.0 + random * (wait / 2.0)
            && wait / 2.0 <= Delay(o, attempts, random) < wait
  {
    CeilingDoubles(o, attempts);
    CeilingIsPositive(o, attempts);
    JitterIsBounded(Ceiling(o, attempts), Ceiling(o, attempts) / 2.0, random);
  }

  lemma CeilingIsPositive(o: Settings, attempts: nat)
    requires o.Sane()
    ensures Ceiling(o, attempts) > 0.0
  {
    ProductIsPositive(o.delay, PowerOfTwo(attempts));
  }

  lemma JitterIsBounded(wait: real, half: real, random: real)
    requires half == wait / 2.0 && wait > 0.0 && 0.0 <= random < 1.0
    ensures half <= Jitter(half, random) < wait
  {
    PartOf(half, random);
    assert half + half == wait;
  }

  lemma PartOf(half: real, random: real)
    requires half > 0.0 && 0.0 <= random < 1.0
    ensures 0.0 <= random * half < half
  {
    ProductIsPositive(1.0 - random, half);
    assert (1.0 - random) * half == half - random * half;
    if random > 0.0 {
      ProductIsPositive(random, half);
    }
  }

  lemma ProductIsPositive(a: real, b: real)
    requires a > 0.0 && b > 0.0
    ensures a * b > 0.0
  {}

  lemma ServedInStep(granted: Name -> bool, channels: seq<Name>, link: Link, name: Name)
    requires link.Open? && link.wire != [] && NameInStep(granted, channels, link, name)
    ensures NameInStep(granted, channels, ServeFrame(link), name)
  {
    LastOfRest(link.wire, name);
  }

  lemma SettledInStep(granted: Name -> bool, channels: seq<Name>, link: Link, settled: Name, name: Name)
    requires link.Open? && settled in link.pending && NameInStep(granted, channels, link, name)
    ensures NameInStep(granted, channels, Settle(granted, link, settled), name)
  {}

  /** A frame sent just as the client changes what it holds. */
  lemma SentInStep(granted: Name -> bool, before: seq<Name>, after: seq<Name>, link: Link, frame: Frame, name: Name)
    requires link.Open? && NameInStep(granted, before, link, name)
    requires if name == frame.name then frame.Subscribe? <==> name in after else name in after <==> name in before
    ensures NameInStep(granted, after, link.(wire := link.wire + [frame]), name)
  {
    LastOfLonger(link.wire, frame, name);
  }

  lemma NextInStep(o: Settings, granted: Name -> bool, c: Client, step: Step)
    requires InStep(granted, c) && Enabled(c, step)
    ensures InStep(granted, Next(o, granted, c, step))
  {
    var d := Next(o, granted, c, step);
    if d.link.Open? {
      forall name ensures NameInStep(granted, d.channels, d.link, name) {
        assert c.link.Open? ==> NameInStep(granted, c.channels, c.link, name);
        match step
        case DoChannel(other) =>
          if other !in c.channels {
            SentInStep(granted, c.channels, d.channels, c.link, Subscribe(other), name);
          }
        case DoLeave(other) =>
          RemoveDrops(c.channels, other);
          SentInStep(granted, c.channels, d.channels, c.link, Unsubscribe(other), name);
        case Opened => LastOfResubscribe(c.channels, name);
        case Served => ServedInStep(granted, c.channels, c.link, name);
        case Settled(other) => SettledInStep(granted, c.channels, c.link, other, name);
        case _ =>
      }
    }
  }

  lemma NextKeeps(o: Settings, granted: Name -> bool, c: Client, step: Step)
    requires o.Sane() && Inv(o, granted, c) && Enabled(c, step)
    ensures Inv(o, granted, Next(o, granted, c, step))
  {
    NextInStep(o, granted, c, step);
    if step.Closed? {
      DelayIsBounded(o, c.attempts, step.random);
    }
  }

  lemma {:induction false} RunKeeps(o: Settings, granted: Name -> bool, c: Client, steps: seq<Step>)
    requires o.Sane() && Inv(o, granted, c) && Runs(o, granted, c, steps)
    ensures Inv(o, granted, Run(o, granted, c, steps))
    decreases |steps|
  {
    if steps != [] {
      NextKeeps(o, granted, c, steps[0]);
      RunKeeps(o, granted, Next(o, granted, c, steps[0]), steps[1..]);
    }
  }

  // ------------------------------------------------------------------ the theorems

  /** Somebody granted left the name while its authorisation was pending, and nothing is on its way to correct it. */
  predicate Overtaken(granted: Name -> bool, link: Link, name: Name)
    requires link.Open?
  {
    granted(name) && name in link.overtaken && LastAbout(link.wire, name).None?
  }

  /**
   * In every run, while a socket is open and no authorisation is pending, the server
   * holds, once it has served what is on the wire, exactly the channels the client holds
   * and the server grants - if and only if no unsubscribe overtook its own authorisation.
   */
  lemma ResubscribedAfterEveryOpen(o: Settings, granted: Name -> bool, steps: seq<Step>)
    requires o.Sane() && Runs(o, granted, STARTED, steps)
    ensures var c := Run(o, granted, STARTED, steps);
            c.link.Open? && c.link.pending == multiset{} ==>
              (Drain(granted, c.link.server, c.link.wire) == (set name | name in Held(c.channels) && granted(name))
               <==> forall name :: !Overtaken(granted, c.link, name))
  {
    RunKeeps(o, granted, STARTED, steps);
    var c := Run(o, granted, STARTED, steps);
    if c.link.Open? && c.link.pending == multiset{} {
      var drained := Drain(granted, c.link.server, c.link.wire);
      forall name
        ensures name in drained <==> (name in c.channels && granted(name)) || Overtaken(granted, c.link, name)
        ensures Overtaken(granted, c.link, name) ==> name !in c.channels
      {
        assert NameInStep(granted, c.channels, c.link, name);
        DrainedByLast(granted, c.link.server, c.link.wire, name);
      }
      if name :| Overtaken(granted, c.link, name) {
        assert name in drained && name !in c.channels;
      }
    }
  }

  /** Where no unsubscribe is served while its own authorisation is pending, none is overtaken. */
  ghost predicate Waits(c: Client, step: Step) {
    step.Served? && c.link.Open? && c.link.wire != [] && c.link.wire[0].Unsubscribe? ==>
      c.link.wire[0].name !in c.link.pending
  }

  ghost predicate AllWait(o: Settings, granted: Name -> bool, c: Client, steps: seq<Step>)
    requires Runs(o, granted, c, steps)
    decreases |steps|
  {
    steps != [] ==> Waits(c, steps[0]) && AllWait(o, granted, Next(o, granted, c, steps[0]), steps[1..])
  }

  lemma {:induction false} NobodyOvertaken(o: Settings, granted: Name -> bool, c: Client, steps: seq<Step>)
    requires Runs(o, granted, c, steps) && AllWait(o, granted, c, steps) && (c.link.Open? ==> c.link.overtaken == {})
    ensures var d := Run(o, granted, c, steps); d.link.Open? ==> d.link.overtaken == {}
    decreases |steps|
  {
    if steps != [] {
      NobodyOvertaken(o, granted, Next(o, granted, c, steps[0]), steps[1..]);
    }
  }

  /** So a server that lets no unsubscribe overtake holds, in every run, just what the client holds. */
  lemma OrderlyServerIsInStep(o: Settings, granted: Name -> bool, steps: seq<Step>)
    requires o.Sane() && Runs(o, granted, STARTED, steps) && AllWait(o, granted, STARTED, steps)
    ensures var c := Run(o, granted, STARTED, steps);
            c.link.Open? && c.link.pending == multiset{} ==>
              Drain(granted, c.link.server, c.link.wire) == set name | name in Held(c.channels) && granted(name)
  {
    NobodyOvertaken(o, granted, STARTED, steps);
    ResubscribedAfterEveryOpen(o, granted, steps);
  }

  ghost predicate Reaches(o: Settings, granted: Name -> bool, c: Client) {
    exists steps :: Runs(o, granted, STARTED, steps) && Run(o, granted, STARTED, steps) == c
  }

  lemma {:induction false} RunThen(o: Settings, granted: Name -> bool, c: Client, steps: seq<Step>, last: Step)
    requires Runs(o, granted, c, steps) && Enabled(Run(o, granted, c, steps), last)
    ensures Runs(o, granted, c, steps + [last])
    ensures Run(o, granted, c, steps + [last]) == Next(o, granted, Run(o, granted, c, steps), last)
    decreases |steps|
  {
    if steps == [] {
      assert [] + [last] == [last] && [last][1..] == [];
      assert Runs(o, granted, Next(o, granted, c, last), []);
    } else {
      RunThen(o, granted, Next(o, granted, c, steps[0]), steps[1..], last);
      assert (steps + [last])[1..] == steps[1..] + [last];
    }
  }

  lemma Then(o: Settings, granted: Name -> bool, c: Client, step: Step, d: Client)
    requires Reaches(o, granted, c) && Enabled(c, step) && Next(o, granted, c, step) == d
    ensures Reaches(o, granted, d)
  {
    var steps :| Runs(o, granted, STARTED, steps) && Run(o, granted, STARTED, steps) == c;
    RunThen(o, granted, STARTED, steps, step);
  }

  /** The client asks for a channel on a fresh socket, and the server waits for its authorisation. */
  lemma AsksAndWaits(o: Settings, granted: Name -> bool, name: Name) returns (c: Client)
    ensures Reaches(o, granted, c) && c.link == Open([], {}, multiset{name}, {}) && c.channels == [name]
  {
    assert Runs(o, granted, STARTED, []) && Run(o, granted, STARTED, []) == STARTED;
    var begun := STARTED.(link := Fresh([]));
    var asked := begun.(channels := [name], link := Fresh([Subscribe(name)]));
    c := asked.(link := Open([], {}, multiset{name}, {}));
    assert begun.channels + [name] == [name] && begun.link.wire + [Subscribe(name)] == [Subscribe(name)];
    assert Resubscribe([]) == [] && ServeFrame(asked.link) == c.link;
    Then(o, granted, STARTED, Opened, begun);
    Then(o, granted, begun, DoChannel(name), asked);
    Then(o, granted, asked, Served, c);
  }

  /** Subscribe, leave while the authorisation is pending, and the server keeps what the client has left. */
  lemma LeaveOvertakesItsSubscribe(o: Settings, granted: Name -> bool, name: Name) returns (c: Client)
    requires granted(name)
    ensures Reaches(o, granted, c) && c.link == Open([], {name}, multiset{}, {name}) && c.channels == []
  {
    var asking := AsksAndWaits(o, granted, name);
    var left := asking.(channels := [], link := Open([Unsubscribe(name)], {}, multiset{name}, {}));
    var overtaken := left.(link := Open([], {}, multiset{name}, {name}));
    c := left.(link := Open([], {name}, multiset{}, {name}));
    assert Remove([name], name) == Remove([], name) == [];
    assert asking.link.wire + [Unsubscribe(name)] == [Unsubscribe(name)];
    assert ServeFrame(left.link) == overtaken.link && Settle(granted, overtaken.link, name) == c.link;
    Then(o, granted, asking, DoLeave(name), left);
    Then(o, granted, left, Served, overtaken);
    Then(o, granted, overtaken, Settled(name), c);
  }

  /**
   * Every pending retry waits less than the maximum and less than the first delay doubled
   * once for each retry before it, and at least half of the smaller of the two; there are
   * never more than `maxAttempts` of them between two opens, and a client with no way back
   * left has used all of them.
   */
  lemma RetriesBackOffAndStop(o: Settings, granted: Name -> bool, steps: seq<Step>)
    requires o.Sane() && Runs(o, granted, STARTED, steps)
    ensures var c := Run(o, granted, STARTED, steps);
            && (o.maxAttempts.Some? ==> c.retries <= o.maxAttempts.value)
            && (c.timer.Some? ==> c.retries > 0)
            && (c.timer.Some? ==>
                 && c.timer.value < o.maxDelay && c.timer.value < Doubled(o.delay, c.retries - 1)
                 && (c.timer.value >= o.maxDelay / 2.0 || c.timer.value >= Doubled(o.delay, c.retries - 1) / 2.0))
            && (c.link.Down? && !c.closing ==> c.timer.Some? || o.maxAttempts == Some(c.retries))
  {
    RunKeeps(o, granted, STARTED, steps);
  }

  predicate Closes(steps: seq<Step>) {
    exists i :: 0 <= i < |steps| && steps[i].Closed?
  }

  /**
   * After `disconnect`, no run opens another socket, and the link is down once the socket's
   * close is reported, or at once if there was none.
   */
  lemma {:induction false} DisconnectIsFinal(o: Settings, granted: Name -> bool, c: Client, steps: seq<Step>)
    requires o.Sane() && Inv(o, granted, c) && Runs(o, granted, Disconnect(c), steps)
    ensures var d := Run(o, granted, Disconnect(c), steps);
            d.dials == c.dials && d.timer.None? && d.link == if c.link.Down? || Closes(steps) then Down else Closing
  {
    StaysClosed(o, granted, Disconnect(c), steps);
  }

  lemma {:induction false} StaysClosed(o: Settings, granted: Name -> bool, c: Client, steps: seq<Step>)
    requires c.closing && c.timer.None? && (c.link.Down? || c.link.Closing?)
    requires Runs(o, granted, c, steps)
    ensures var d := Run(o, granted, c, steps);
            && d.closing && d.dials == c.dials && d.timer.None?
            && d.link == if c.link.Down? || Closes(steps) then Down else Closing
    decreases |steps|
  {
    if steps != [] {
      StaysClosed(o, granted, Next(o, granted, c, steps[0]), steps[1..]);
      assert steps == [steps[0]] + steps[1..];
      assert Closes(steps) <==> steps[0].Closed? || Closes(steps[1..]);
    }
  }

  /** Timers that went off: each of them, and nothing else but the start, dials a socket. */
  function Fired(steps: seq<Step>): nat {
    if steps == [] then 0 else Fired(steps[1..]) + if steps[0].TimerFired? then 1 else 0
  }

  lemma {:induction false} DialsAreCounted(o: Settings, granted: Name -> bool, c: Client, steps: seq<Step>)
    requires Runs(o, granted, c, steps)
    ensures Run(o, granted, c, steps).dials == c.dials + Fired(steps)
    decreases |steps|
  {
    if steps != [] {
      DialsAreCounted(o, granted, Next(o, granted, c, steps[0]), steps[1..]);
    }
  }

  // ------------------------------------------------------------------ what is held

  /** Since when the caller holds a name, by number of steps: asked for, and not left since. */
  function HeldSince(steps: seq<Step>, name: Name): Option<nat> {
    if steps == [] then None
    else
      var before, last := HeldSince(steps[..|steps| - 1], name), steps[|steps| - 1];
      if last == DoLeave(name) then None
      else if last == DoChannel(name) && before.None? then Some(|steps|)
      else before
  }

  /** The channels are those held, each once, in the order they were asked for. */
  ghost predicate HoldsInOrder(steps: seq<Step>, channels: seq<Name>) {
    && (forall name :: name in channels <==> HeldSince(steps, name).Some?)
    && (forall i, j :: 0 <= i < j < |channels| ==>
          && HeldSince(steps, channels[i]).Some? && HeldSince(steps, channels[j]).Some?
          && HeldSince(steps, channels[i]).value < HeldSince(steps, channels[j]).value)
  }

  lemma {:induction false} HeldBefore(steps: seq<Step>, name: Name)
    ensures HeldSince(steps, name).Some? ==> HeldSince(steps, name).value <= |steps|
  {
    if steps != [] {
      HeldBefore(steps[..|steps| - 1], name);
    }
  }

  lemma {:induction false} RemoveKeepsOrder(channels: seq<Name>, name: Name, i: nat, j: nat) returns (m: nat, n: nat)
    requires i < j < |Remove(channels, name)|
    ensures m < n < |channels| && channels[m] == Remove(channels, name)[i] && channels[n] == Remove(channels, name)[j]
  {
    if channels[0] == name {
      m, n := RemoveKeepsOrder(channels[1..], name, i, j);
      m, n := m + 1, n + 1;
    } else if i > 0 {
      m, n := RemoveKeepsOrder(channels[1..], name, i - 1, j - 1);
      m, n := m + 1, n + 1;
    } else {
      var rest := channels[1..];
      RemoveDrops(rest, name);
      var other := Remove(rest, name)[j - 1];
      assert other in Remove(rest, name) && other in rest;
      var k :| 0 <= k < |rest| && rest[k] == other;
      m, n := 0, k + 1;
    }
  }

  lemma HeldSnoc(steps: seq<Step>, step: Step, name: Name)
    ensures HeldSince(steps + [step], name)
         == if step == DoLeave(name) then None
            else if step == DoChannel(name) && HeldSince(steps, name).None? then Some(|steps| + 1)
            else HeldSince(steps, name)
  {
    assert (steps + [step])[..|steps|] == steps;
  }

  lemma HoldMore(steps: seq<Step>, channels: seq<Name>, name: Name)
    requires HoldsInOrder(steps, channels)
    ensures HoldsInOrder(steps + [DoChannel(name)], if name in channels then channels else channels + [name])
  {
    forall other
      ensures HeldSince(steps + [DoChannel(name)], other)
           == if other == name && HeldSince(steps, name).None? then Some(|steps| + 1) else HeldSince(steps, other)
      ensures HeldSince(steps, other).Some? ==> HeldSince(steps, other).value <= |steps|
    {
      HeldSnoc(steps, DoChannel(name), other);
      HeldBefore(steps, other);
    }
  }

  lemma HoldLess(steps: seq<Step>, channels: seq<Name>, name: Name)
    requires HoldsInOrder(steps, channels)
    ensures HoldsInOrder(steps + [DoLeave(name)], Remove(channels, name))
  {
    forall other
      ensures HeldSince(steps + [DoLeave(name)], other) == if other == name then None else HeldSince(steps, other)
    {
      HeldSnoc(steps, DoLeave(name), other);
    }
    RemoveDrops(channels, name);
    var left := Remove(channels, name);
    forall i, j | 0 <= i < j < |left|
      ensures HeldSince(steps, left[i]).Some? && HeldSince(steps, left[j]).Some?
              && HeldSince(steps, left[i]).value < HeldSince(steps, left[j]).value
    {
      var m, n := RemoveKeepsOrder(channels, name, i, j);
    }
  }

  lemma HoldSame(steps: seq<Step>, channels: seq<Name>, step: Step)
    requires HoldsInOrder(steps, channels) && !step.DoChannel? && !step.DoLeave?
    ensures HoldsInOrder(steps + [step], channels)
  {
    forall name ensures HeldSince(steps + [step], name) == HeldSince(steps, name) {
      HeldSnoc(steps, step, name);
    }
  }

  lemma NextHolds(o: Settings, granted: Name -> bool, c: Client, before: seq<Step>, step: Step)
    requires HoldsInOrder(before, c.channels) && Enabled(c, step)
    ensures HoldsInOrder(before + [step], Next(o, granted, c, step).channels)
  {
    match step
    case DoChannel(name) => HoldMore(before, c.channels, name);
    case DoLeave(name) => HoldLess(before, c.channels, name);
    case _ => HoldSame(before, c.channels, step);
  }

  lemma {:induction false} RunHolds(o: Settings, granted: Name -> bool, c: Client, before: seq<Step>, steps: seq<Step>)
    requires HoldsInOrder(before, c.channels) && Runs(o, granted, c, steps)
    ensures HoldsInOrder(before + steps, Run(o, granted, c, steps).channels)
    decreases |steps|
  {
    if steps == [] {
      assert before + steps == before;
    } else {
      NextHolds(o, granted, c, before, steps[0]);
      RunHolds(o, granted, Next(o, granted, c, steps[0]), before + [steps[0]], steps[1..]);
      assert before + [steps[0]] + steps[1..] == before + steps;
    }
  }

  /** In every run the client keeps the channels asked for and not left since, each once, in the order asked. */
  lemma KeepsWhatIsHeld(o: Settings, granted: Name -> bool, steps: seq<Step>)
    requires Runs(o, granted, STARTED, steps)
    ensures HoldsInOrder(steps, Run(o, granted, STARTED, steps).channels)
  {
    RunHolds(o, granted, STARTED, [], steps);
    assert [] + steps == steps;
  }

  // ------------------------------------------------------------------ the server's end of a socket

  /** Until it hangs up a socket is served as above; afterwards only its pending authorisations are left. */
  datatype End = Alive(link: Link) | Dead(held: set<Name>, pending: multiset<Name>)

  datatype Event = Arrived(frame: Frame) | Worked | Answered(name: Name) | HungUp

  predicate Possible(e: End, event: Event) {
    match event
    case Arrived(_) => e.Alive? && e.link.Open?
    case Worked => e.Alive? && e.link.Open? && e.link.wire != []
    case Answered(name) => if e.Alive? then e.link.Open? && name in e.link.pending else name in e.pending
    case HungUp => e.Alive? && e.link.Open?
  }

  /** Hanging up forgets every subscription, and interrupts no authorisation. */
  function HangUp(link: Link): End
    requires link.Open?
  {
    Dead({}, link.pending)
  }

  function After(granted: Name -> bool, e: End, event: Event): End
    requires Possible(e, event)
  {
    match event
    case Arrived(frame) => Alive(e.link.(wire := e.link.wire + [frame]))
    case Worked => Alive(ServeFrame(e.link))
    case Answered(name) =>
      if e.Alive? then Alive(Settle(granted, e.link, name))
      else Dead(if granted(name) then e.held + {name} else e.held, e.pending - multiset{name})
    case HungUp => HangUp(e.link)
  }

  ghost predicate Lives(granted: Name -> bool, e: End, events: seq<Event>)
    decreases |events|
  {
    events != [] ==> Possible(e, events[0]) && Lives(granted, After(granted, e, events[0]), events[1..])
  }

  function EndOf(granted: Name -> bool, e: End, events: seq<Event>): End
    requires Lives(granted, e, events)
    decreases |events|
  {
    if events == [] then e else EndOf(granted, After(granted, e, events[0]), events[1..])
  }

  /** A dead socket gains what is granted of the authorisations answered since, and loses nothing. */
  lemma {:induction false} DeadGainsAnswers(granted: Name -> bool, e: End, events: seq<Event>)
    requires e.Dead? && Lives(granted, e, events)
    ensures var end := EndOf(granted, e, events);
            && end.Dead? && end.pending <= e.pending
            && forall name :: name in end.held
                              <==> name in e.held || (granted(name) && end.pending[name] < e.pending[name])
    decreases |events|
  {
    if events != [] {
      DeadGainsAnswers(granted, After(granted, e, events[0]), events[1..]);
    }
  }

  /**
   * However a socket lived, once every authorisation pending at its end is answered the
   * server holds for it just what was granted of them: nothing is left behind if and only
   * if none was.
   */
  lemma NothingStaysExactlyWhen(granted: Name -> bool, link: Link, events: seq<Event>)
    requires link.Open? && Lives(granted, HangUp(link), events)
    ensures var end := EndOf(granted, HangUp(link), events);
            && end.Dead?
            && (end.pending == multiset{} ==>
                 && end.held == (set name | name in link.pending && granted(name))
                 && (end.held == {} <==> forall name :: name in link.pending ==> !granted(name)))
  {
    DeadGainsAnswers(granted, HangUp(link), events);
    var end := EndOf(granted, HangUp(link), events);
    if end.pending == multiset{} {
      assert forall name :: name in end.held <==> name in link.pending && granted(name);
    }
  }

  /** Subscribe, hang up while the authorisation is pending, and the dead socket is subscribed. */
  lemma DeadSocketIsSubscribed(granted: Name -> bool, name: Name)
    requires granted(name)
    ensures var events := [Arrived(Subscribe(name)), Worked, HungUp, Answered(name)];
            && Lives(granted, Alive(Fresh([])), events)
            && EndOf(granted, Alive(Fresh([])), events) == Dead({name}, multiset{})
  {
    var events := [Arrived(Subscribe(name)), Worked, HungUp, Answered(name)];
    var asked := Alive(Fresh([Subscribe(name)]));
    var pending := Alive(Open([], {}, multiset{name}, {}));
    assert [] + [Subscribe(name)] == [Subscribe(name)] && [Subscribe(name)][1..] == [];
    assert After(granted, Alive(Fresh([])), events[0]) == asked;
    assert After(granted, asked, Worked) == pending by {
      assert multiset{} + multiset{name} == multiset{name} && {} - {name} == {};
    }
    assert HangUp(pending.link) == Dead({}, multiset{name});
    assert events[1..] == [Worked, HungUp, Answered(name)] && events[1..][1..] == [HungUp, Answered(name)];
    assert events[1..][1..][1..] == [Answered(name)] && [Answered(name)][1..] == [];
    var end := After(granted, Dead({}, multiset{name}), Answered(name));
    assert end == Dead({name}, multiset{});
    Onwards(granted, end, []);
    Onwards(granted, Dead({}, multiset{name}), [Answered(name)]);
    Onwards(granted, pending, [HungUp, Answered(name)]);
    Onwards(granted, asked, [Worked, HungUp, Answered(name)]);
    Onwards(granted, Alive(Fresh([])), events);
  }

  lemma Onwards(granted: Name -> bool, e: End, events: seq<Event>)
    requires events != [] ==> Possible(e, events[0]) && Lives(granted, After(granted, e, events[0]), events[1..])
    ensures Lives(granted, e, events)
    ensures EndOf(granted, e, events)
            == if events == [] then e else EndOf(granted, After(granted, e, events[0]), events[1..])
  {}

  // ------------------------------------------------------------------ the class

  /** `Echo` with its own fields; `dials` and `retries` are counted for the contracts only. */
  class Connection {
    const settings: Settings
    var channels: seq<Name>
    var link: Link
    var closing: bool
    var attempts: nat
    var timer: Option<real>
    ghost var dials: nat
    ghost var retries: nat

    ghost function View(): Client
      reads this
    {
      Client(channels, link, closing, attempts, timer, dials, retries)
    }

    constructor (settings: Settings)
      ensures View() == STARTED && this.settings == settings
    {
      this.settings := settings;
      channels, link, closing, attempts, timer := [], Connecting, false, 0, None;
      dials, retries := 1, 0;
    }

    method SendFrame(frame: Frame)
      modifies this`link
      ensures View() == Send(old(View()), frame)
    {
      if link.Open? {
        link := link.(wire := link.wire + [frame]);
      }
    }

    /** Subscribe, or leave alone a channel already held. */
    method Hold(name: Name)
      modifies this
      ensures View() == Channel(old(View()), name)
    {
      if name !in channels {
        channels := channels + [name];
        SendFrame(Subscribe(name));
      }
    }

    method Drop(name: Name)
      modifies this
      ensures View() == Leave(old(View()), name)
    {
      channels := Remove(channels, name);
      SendFrame(Unsubscribe(name));
    }

    /** `onopen`: everything held is subscribed again, one frame at a time. */
    method SocketOpened()
      requires link.Connecting?
      modifies this
      ensures View() == OnOpen(old(View()))
    {
      attempts, retries := 0, 0;
      var wire: seq<Frame> := [];
      for i := 0 to |channels|
        invariant wire == Resubscribe(channels[..i])
        invariant View() == old(View()).(attempts := 0, retries := 0)
      {
        assert Resubscribe(channels[..i + 1]) == Resubscribe(channels[..i]) + [Subscribe(channels[i])];
        wire := wire + [Subscribe(channels[i])];
      }
      assert channels[..|channels|] == channels;
      link := Fresh(wire);
    }

    method SocketClosed(random: real)
      requires !link.Down?
      modifies this
      ensures View() == OnClose(settings, old(View()), random)
    {
      link := Down;
      if closing {
        return;
      }
      if settings.maxAttempts.Some? && attempts >= settings.maxAttempts.value {
        return;
      }
      timer := Some(Delay(settings, attempts, random));
      attempts, retries := attempts + 1, retries + 1;
    }

    method Reconnect()
      requires timer.Some?
      modifies this
      ensures View() == Connect(old(View()))
    {
      timer, link, dials := None, Connecting, dials + 1;
    }

    method Close()
      modifies this
      ensures View() == Disconnect(old(View()))
    {
      closing, timer := true, None;
      if !link.Down? {
        link := Closing;
      }
    }
  }
}
