/**
 * Who is sent what: a socket listens on a channel from a granted subscribe until it
 * unsubscribes or is forgotten, and over that time it is sent every application event of
 * the channel that does not except it, and no other.
 */
module Deliveries {
  import opened Options
  import opened Presence
  import opened PresenceProofs

  // ------------------------------------------------------------------ what a run says

  predicate Grants(step: Step, socket: Socket, channel: Channel) {
    step.DoSubscribe? && step.socket == socket && step.channel == channel && !step.answer.Refused?
  }

  predicate Ends(step: Step, socket: Socket, channel: Channel) {
    || (step.DoUnsubscribe? && step.socket == socket && step.channel == channel)
    || (step.DoForget? && step.socket == socket)
  }

  ghost predicate NeverEnds(steps: seq<Step>, socket: Socket, channel: Channel) {
    forall i :: 0 <= i < |steps| ==> !Ends(steps[i], socket, channel)
  }

  ghost predicate HoldsFrom(steps: seq<Step>, i: int, socket: Socket, channel: Channel) {
    0 <= i < |steps| && Grants(steps[i], socket, channel) && NeverEnds(steps[i + 1..], socket, channel)
  }

  /** A subscribe of this socket was granted, and nothing has ended it since. */
  ghost predicate Subscribed(steps: seq<Step>, socket: Socket, channel: Channel) {
    exists i :: HoldsFrom(steps, i, socket, channel)
  }

  /** The event of this step, for a socket that listens on its channel at that moment. */
  ghost function Owed(steps: seq<Step>, step: Step, socket: Socket): seq<Frame> {
    if step.DoBroadcast? && step.except != Some(socket) && Subscribed(steps, socket, step.frame.channel)
    then [step.frame] else []
  }

  /** Every event a socket is to be sent over a run, in order. */
  ghost function Due(steps: seq<Step>, socket: Socket): seq<Frame> {
    if steps == [] then []
    else
      var front := steps[..|steps| - 1];
      Due(front, socket) + Owed(front, steps[|steps| - 1], socket)
  }

  /** The application events of a trace. */
  function Events(trace: seq<Frame>): seq<Frame> {
    if trace == [] then []
    else
      var last := trace[|trace| - 1];
      Events(trace[..|trace| - 1]) + if last.Event? then [last] else []
  }

  // ------------------------------------------------------------------ listeners

  lemma {:induction false} RunThen(s: Server, steps: seq<Step>, last: Step)
    ensures Run(s, steps + [last]) == Take(Run(s, steps), last)
    decreases |steps|
  {
    if steps == [] {
      assert [] + [last] == [last] && [last][1..] == [];
      assert Run(Take(s, last), []) == Take(s, last);
    } else {
      assert (steps + [last])[1..] == steps[1..] + [last];
      RunThen(Take(s, steps[0]), steps[1..], last);
    }
  }

  lemma {:induction false} AllowedFront(c: Config, s: Server, steps: seq<Step>, last: Step)
    requires AllowedRun(c, s, steps + [last])
    ensures AllowedRun(c, s, steps) && Allowed(c, Run(s, steps), last)
    decreases |steps|
  {
    if steps == [] {
      assert [] + [last] == [last];
    } else {
      assert (steps + [last])[1..] == steps[1..] + [last];
      AllowedFront(c, Take(s, steps[0]), steps[1..], last);
    }
  }

  lemma SubscribeListens(s: Server, socket: Socket, channel: Channel, answer: Answer, other: Channel)
    ensures Subscribe(s, socket, channel, answer).Listeners(other)
         == if other == channel && !answer.Refused? then s.Listeners(other) + {socket} else s.Listeners(other)
  {
    if answer.Present? {
      JoinFacts(s, socket, channel, answer.member);
      JoinOnlyOn(s, socket, channel, answer.member);
    }
  }

  lemma StepListens(c: Config, s: Server, step: Step, socket: Socket, channel: Channel)
    requires Allowed(c, s, step)
    ensures socket in Take(s, step).Listeners(channel)
       <==> Grants(step, socket, channel) || (socket in s.Listeners(channel) && !Ends(step, socket, channel))
  {
    match step
    case DoSubscribe(x, other, answer) => SubscribeListens(s, x, other, answer, channel);
    case DoUnsubscribe(x, other) => ForgetDrops(s, x, [other], channel);
      assert Forget(s, x, [other]) == Unsubscribe(s, x, other) by {
        assert [other][1..] == [];
      }
    case DoForget(x, order) =>
      ForgetDrops(s, x, order, channel);
      assert channel in Visited(order) <==> channel in order;
    case DoBroadcast(_, _) =>
  }

  lemma SubscribedThen(steps: seq<Step>, last: Step, socket: Socket, channel: Channel)
    ensures Subscribed(steps + [last], socket, channel)
       <==> Grants(last, socket, channel) || (Subscribed(steps, socket, channel) && !Ends(last, socket, channel))
  {
    var all := steps + [last];
    if Subscribed(all, socket, channel) {
      var i: int :| HoldsFrom(all, i, socket, channel);
      if i < |steps| {
        assert all[i + 1..] == steps[i + 1..] + [last];
        assert all[i + 1..][|steps| - i - 1] == last;
        var tail := steps[i + 1..];
        forall j | 0 <= j < |tail| ensures !Ends(tail[j], socket, channel) {
          assert tail[j] == all[i + 1..][j];
        }
        assert HoldsFrom(steps, i, socket, channel);
      }
    }
    if Grants(last, socket, channel) {
      assert all[|steps|] == last && all[|steps| + 1..] == [] && HoldsFrom(all, |steps|, socket, channel);
    } else if Subscribed(steps, socket, channel) && !Ends(last, socket, channel) {
      var i: int :| HoldsFrom(steps, i, socket, channel);
      assert all[i] == steps[i] && all[i + 1..] == steps[i + 1..] + [last] && HoldsFrom(all, i, socket, channel);
    }
  }

  /** In every run, a socket listens exactly where a granted subscribe of it has not been ended. */
  lemma {:induction false} ListensExactlyWhenSubscribed(c: Config, steps: seq<Step>, socket: Socket, channel: Channel)
    requires AllowedRun(c, EMPTY_SERVER, steps)
    ensures socket in Run(EMPTY_SERVER, steps).Listeners(channel) <==> Subscribed(steps, socket, channel)
    decreases |steps|
  {
    if steps != [] {
      var front, last := steps[..|steps| - 1], steps[|steps| - 1];
      assert steps == front + [last];
      AllowedFront(c, EMPTY_SERVER, front, last);
      RunThen(EMPTY_SERVER, front, last);
      ListensExactlyWhenSubscribed(c, front, socket, channel);
      StepListens(c, Run(EMPTY_SERVER, front), last, socket, channel);
      SubscribedThen(front, last, socket, channel);
    }
  }

  // ------------------------------------------------------------------ events

  lemma EventsThen(trace: seq<Frame>, more: seq<Frame>)
    requires |more| <= 1
    ensures Events(trace + more) == Events(trace) + if more != [] && more[0].Event? then more else []
  {
    if more == [] {
      assert trace + more == trace;
    } else {
      assert (trace + more)[..|trace|] == trace && more == [more[0]];
    }
  }

  /** The presence frames of a step, among which there is no event, come and go unnoticed. */
  ghost predicate SameEvents(s: Server, t: Server) {
    forall x :: Events(t.Trace(x)) == Events(s.Trace(x))
  }

  lemma QuietDelivery(s: Server, frame: Frame, except: Option<Socket>)
    requires !frame.Event?
    ensures SameEvents(s, Deliver(s, frame, except))
  {
    DeliverTraces(s, frame, except);
    forall x ensures Events(Deliver(s, frame, except).Trace(x)) == Events(s.Trace(x)) {
      EventsThen(s.Trace(x), if x in Except(s.Listeners(frame.channel), except) then [frame] else []);
    }
  }

  lemma QuietWelcome(s: Server, socket: Socket, channel: Channel, member: Member)
    ensures SameEvents(s, Welcome(s, socket, channel, member))
  {
    var told := Welcome(s, socket, channel, member);
    WelcomeFacts(s, socket, channel, member);
    forall x ensures Events(told.Trace(x)) == Events(s.Trace(x)) {
      EventsThen(s.Trace(x), if x == socket then [Here(channel, PresenceOn(told, channel))] else []);
    }
  }

  lemma QuietJoin(s: Server, socket: Socket, channel: Channel, member: Member)
    ensures SameEvents(s, Join(s, socket, channel, member))
  {
    var told := Welcome(s, socket, channel, member);
    QuietWelcome(s, socket, channel, member);
    QuietDelivery(told, Joined(channel, member), Some(socket));
    StillQuiet(s, told, Deliver(told, Joined(channel, member), Some(socket)));
  }

  lemma StillQuiet(s: Server, t: Server, u: Server)
    requires SameEvents(s, t) && SameEvents(t, u)
    ensures SameEvents(s, u)
  {}

  lemma QuietSubscribe(s: Server, socket: Socket, channel: Channel, answer: Answer)
    ensures SameEvents(s, Subscribe(s, socket, channel, answer))
  {
    var listening := Listening(s, channel, s.Listeners(channel) + {socket});
    assert SameEvents(s, listening);
    if answer.Present? {
      QuietJoin(listening, socket, channel, answer.member);
      StillQuiet(s, listening, Join(listening, socket, channel, answer.member));
    }
  }

  lemma QuietUnsubscribe(s: Server, socket: Socket, channel: Channel)
    ensures SameEvents(s, Unsubscribe(s, socket, channel))
  {
    if channel in s.subscriptions {
      var listening := Listening(s, channel, s.subscriptions[channel] - {socket});
      var member := MemberOf(listening.Entries(channel), socket);
      if member.Some? {
        QuietDelivery(Drop(listening, socket, channel), Left(channel, member.value), None);
      }
    }
  }

  lemma {:induction false} QuietForget(s: Server, socket: Socket, channels: seq<Channel>)
    ensures SameEvents(s, Forget(s, socket, channels))
    decreases |channels|
  {
    if channels != [] {
      QuietUnsubscribe(s, socket, channels[0]);
      QuietForget(Unsubscribe(s, socket, channels[0]), socket, channels[1..]);
    }
  }

  lemma StepSends(c: Config, s: Server, step: Step, socket: Socket)
    requires Allowed(c, s, step)
    ensures Events(Take(s, step).Trace(socket))
         == Events(s.Trace(socket))
            + if step.DoBroadcast? && step.except != Some(socket) && socket in s.Listeners(step.frame.channel)
              then [step.frame] else []
  {
    match step
    case DoSubscribe(x, channel, answer) => QuietSubscribe(s, x, channel, answer);
    case DoUnsubscribe(x, channel) => QuietUnsubscribe(s, x, channel);
    case DoForget(x, order) => QuietForget(s, x, order);
    case DoBroadcast(frame, except) =>
      DeliverTraces(s, frame, except);
      EventsThen(s.Trace(socket), if socket in Except(s.Listeners(frame.channel), except) then [frame] else []);
  }

  /**
   * In every run, the application events a socket has been sent are those broadcast on a
   * channel while it was subscribed there, less the ones that except it, once each and in
   * their order.
   */
  lemma {:induction false} SentExactlyWhatIsDue(c: Config, steps: seq<Step>, socket: Socket)
    requires AllowedRun(c, EMPTY_SERVER, steps)
    ensures Events(Run(EMPTY_SERVER, steps).Trace(socket)) == Due(steps, socket)
    decreases |steps|
  {
    if steps != [] {
      var front, last := steps[..|steps| - 1], steps[|steps| - 1];
      assert steps == front + [last];
      AllowedFront(c, EMPTY_SERVER, front, last);
      RunThen(EMPTY_SERVER, front, last);
      SentExactlyWhatIsDue(c, front, socket);
      StepSends(c, Run(EMPTY_SERVER, front), last, socket);
      if last.DoBroadcast? {
        ListensExactlyWhenSubscribed(c, front, socket, last.frame.channel);
      }
    }
  }
}
