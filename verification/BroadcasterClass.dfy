/**
 * `Broadcaster` as the source has it: fields reassigned step by step, loops over the
 * sockets of a channel. Each method is proved to move `View()` by the function of the
 * same name in Presence, so the run theorems speak about this class.
 */
module BroadcasterClass {
  import opened Options
  import opened Presence

  /** `distinct`: one entry per id, kept in a map filled in a loop. */
  method DistinctMembers(members: seq<Member>) returns (kept: seq<Member>)
    ensures kept == Distinct(members)
  {
    kept := [];
    var byId: set<Id> := {};
    for i := 0 to |members|
      invariant kept == Distinct(members[..i])
      invariant byId == Ids(kept)
    {
      assert members[..i + 1][..i] == members[..i];
      assert members[..i + 1][i] == members[i];
      if members[i].id !in byId {
        byId := byId + {members[i].id};
        assert Ids(kept + [members[i]]) == Ids(kept) + {members[i].id} by {
          assert forall m :: m in kept + [members[i]] <==> m in kept || m == members[i];
        }
        kept := kept + [members[i]];
      }
    }
    assert members[..|members|] == members;
  }

  lemma AppendOneMore(sent: map<Socket, seq<Frame>>, to: set<Socket>, socket: Socket, frame: Frame)
    requires socket !in to
    ensures var before := Append(sent, to, frame);
            Append(sent, to + {socket}, frame)
              == before[socket := (if socket in before then before[socket] else []) + [frame]]
  {}

  lemma AppendNone(sent: map<Socket, seq<Frame>>, frame: Frame)
    ensures Append(sent, {}, frame) == sent
  {}

  /** `written` and `count` once every socket but the remaining ones has been served. */
  ghost predicate Served(sent: map<Socket, seq<Frame>>, sockets: set<Socket>, remaining: set<Socket>,
                         frame: Frame, except: Option<Socket>,
                         written: map<Socket, seq<Frame>>, count: nat) {
    && remaining <= sockets
    && written == Append(sent, Except(sockets - remaining, except), frame)
    && count == |Except(sockets - remaining, except)|
  }

  lemma ServedOneMore(sent: map<Socket, seq<Frame>>, sockets: set<Socket>, remaining: set<Socket>, socket: Socket,
                      frame: Frame, except: Option<Socket>, written: map<Socket, seq<Frame>>, count: nat)
    requires Served(sent, sockets, remaining, frame, except, written, count) && socket in remaining
    ensures if except == Some(socket) then Served(sent, sockets, remaining - {socket}, frame, except, written, count)
            else Served(sent, sockets, remaining - {socket}, frame, except,
                        written[socket := (if socket in written then written[socket] else []) + [frame]], count + 1)
  {
    ExceptOneMore(sockets, remaining, socket, except);
    if except != Some(socket) {
      AppendOneMore(sent, Except(sockets - remaining, except), socket, frame);
    }
  }

  lemma ExceptOneMore(sockets: set<Socket>, remaining: set<Socket>, socket: Socket, except: Option<Socket>)
    requires socket in remaining && remaining <= sockets
    ensures var before := Except(sockets - remaining, except);
            && socket !in before
            && Except(sockets - (remaining - {socket}), except)
               == if except == Some(socket) then before else before + {socket}
  {
    assert sockets - (remaining - {socket}) == (sockets - remaining) + {socket};
  }

  lemma ServedAll(sent: map<Socket, seq<Frame>>, sockets: set<Socket>, frame: Frame, except: Option<Socket>)
    ensures Served(sent, sockets, sockets, frame, except, sent, 0)
    ensures sockets - {} == sockets
  {
    assert Except(sockets - sockets, except) == {};
    AppendNone(sent, frame);
  }

  /** The loop of `deliver`: one write per socket, in some order, skipping `except`. */
  method WriteToEach(sent: map<Socket, seq<Frame>>, sockets: set<Socket>, frame: Frame, except: Option<Socket>)
    returns (written: map<Socket, seq<Frame>>, count: nat)
    ensures written == Append(sent, Except(sockets, except), frame)
    ensures count == |Except(sockets, except)|
  {
    written, count := sent, 0;
    var remaining := sockets;
    ServedAll(sent, sockets, frame, except);
    while remaining != {}
      invariant Served(sent, sockets, remaining, frame, except, written, count)
      decreases remaining
    {
      var socket :| socket in remaining;
      ServedOneMore(sent, sockets, remaining, socket, frame, except, written, count);
      if except != Some(socket) {
        written := written[socket := (if socket in written then written[socket] else []) + [frame]];
        count := count + 1;
      }
      remaining := remaining - {socket};
    }
  }

  class Broadcaster {
    var subscriptions: map<Channel, set<Socket>>
    var members: map<Channel, seq<Entry>>
    /** Everything written to each socket, standing for the sockets themselves. */
    var sent: map<Socket, seq<Frame>>
    ghost var announced: seq<Frame>

    ghost function View(): Server
      reads this
    {
      Server(subscriptions, members, sent, announced)
    }

    constructor ()
      ensures View() == EMPTY_SERVER
    {
      subscriptions, members, sent, announced := map[], map[], map[], [];
    }

    /** One entry per person on the channel, whatever number of sockets they hold. */
    method PresenceList(channel: Channel) returns (list: seq<Member>)
      ensures list == PresenceOn(View(), channel)
    {
      var entries := if channel in members then members[channel] else [];
      list := DistinctMembers(MembersOf(entries));
    }

    method Count(channel: Channel) returns (n: nat)
      ensures n == |View().Listeners(channel)|
    {
      n := if channel in subscriptions then |subscriptions[channel]| else 0;
    }

    method Write(socket: Socket, frame: Frame)
      modifies this`sent
      ensures View() == old(View()).(sent := Append(old(sent), {socket}, frame))
    {
      sent := sent[socket := (if socket in sent then sent[socket] else []) + [frame]];
      assert sent == Append(old(sent), {socket}, frame);
    }

    /** `broadcast` with no bus: a loop over the sockets, skipping `except`. */
    method Broadcast(frame: Frame, except: Option<Socket>) returns (count: nat)
      modifies this`sent, this`announced
      ensures View() == Deliver(old(View()), frame, except)
      ensures count == |Except(old(View()).Listeners(frame.channel), except)|
    {
      announced := announced + [frame];
      AppendNone(sent, frame);
      count := 0;
      if frame.channel in subscriptions {
        sent, count := WriteToEach(sent, subscriptions[frame.channel], frame, except);
      }
    }

    /** `join`: record, answer with the whole list, announce an arrival only if it is one. */
    method Join(socket: Socket, channel: Channel, member: Member)
      modifies this`members, this`sent, this`announced
      ensures View() == Presence.Join(old(View()), socket, channel, member)
    {
      var present := if channel in members then members[channel] else [];
      var alreadyPresent := member.id in PresentIds(present);
      members := members[channel := SetEntry(present, socket, member)];
      var list := PresenceList(channel);
      Write(socket, Here(channel, list));
      if !alreadyPresent {
        var _ := Broadcast(Joined(channel, member), Some(socket));
      }
    }

    /** The channel's callback has answered; only a refusal leaves everything as it was. */
    method Subscribe(socket: Socket, channel: Channel, answer: Answer) returns (allowed: bool)
      modifies this
      ensures View() == Presence.Subscribe(old(View()), socket, channel, answer)
      ensures allowed == !answer.Refused?
    {
      if answer.Refused? {
        return false;
      }
      var sockets := if channel in subscriptions then subscriptions[channel] else {};
      subscriptions := subscriptions[channel := sockets + {socket}];
      if answer.Present? {
        Join(socket, channel, answer.member);
      }
      allowed := true;
    }

    /** `leave`: drop the socket's member and announce it once the person's last socket is gone. */
    method Leave(socket: Socket, channel: Channel)
      modifies this`members, this`sent, this`announced
      ensures View() == Presence.Leave(old(View()), socket, channel)
    {
      if channel !in members {
        return;
      }
      var member := MemberOf(members[channel], socket);
      if member.None? {
        return;
      }
      var rest := DeleteEntry(members[channel], socket);
      if rest == [] {
        members := members - {channel};
      } else {
        members := members[channel := rest];
      }
      if member.value.id !in PresentIds(rest) {
        var _ := Broadcast(Left(channel, member.value), None);
      }
    }

    method Unsubscribe(socket: Socket, channel: Channel)
      modifies this
      ensures View() == Presence.Unsubscribe(old(View()), socket, channel)
    {
      if channel !in subscriptions {
        return;
      }
      var rest := subscriptions[channel] - {socket};
      subscriptions := subscriptions[channel := rest];
      Leave(socket, channel);
      if rest == {} {
        subscriptions := subscriptions - {channel};
      }
    }

    /** `forget`: unsubscribe from every channel held when it started, in some order. */
    method Forget(socket: Socket) returns (order: seq<Channel>)
      modifies this
      ensures Visited(order) == old(subscriptions).Keys
      ensures View() == Presence.Forget(old(View()), socket, order)
    {
      order := [];
      var remaining := subscriptions.Keys;
      while remaining != {}
        invariant Visited(order) + remaining == old(subscriptions).Keys
        invariant View() == Presence.Forget(old(View()), socket, order)
        decreases remaining
      {
        var channel :| channel in remaining;
        ForgetOneMore(old(View()), socket, order, channel);
        Unsubscribe(socket, channel);
        VisitedOneMore(order, channel);
        order := order + [channel];
        remaining := remaining - {channel};
      }
    }
  }

  lemma VisitedOneMore(order: seq<Channel>, channel: Channel)
    ensures Visited(order + [channel]) == Visited(order) + {channel}
  {
    assert forall ch :: ch in order + [channel] <==> ch in order || ch == channel;
  }

  lemma {:induction false} ForgetOneMore(s: Server, socket: Socket, order: seq<Channel>, channel: Channel)
    ensures Presence.Forget(s, socket, order + [channel])
         == Presence.Unsubscribe(Presence.Forget(s, socket, order), socket, channel)
    decreases |order|
  {
    if order == [] {
      assert order + [channel] == [channel];
      assert Presence.Forget(Presence.Unsubscribe(s, socket, channel), socket, [channel][1..])
          == Presence.Unsubscribe(s, socket, channel);
    } else {
      assert (order + [channel])[1..] == order[1..] + [channel];
      ForgetOneMore(Presence.Unsubscribe(s, socket, order[0]), socket, order[1..], channel);
    }
  }

  /** The browser's `Channel`: the list a page reads, changed by each frame. */
  class ChannelList {
    var members: seq<Member>

    constructor ()
      ensures members == []
    {
      members := [];
    }

    method ApplyPresence(frame: Frame)
      modifies this
      ensures members == Apply(old(members), frame)
    {
      if frame.Here? {
        members := frame.members;
      } else if frame.Joined? {
        if frame.member.id !in Ids(members) {
          members := members + [frame.member];
        }
      } else if frame.Left? {
        var list, kept: seq<Member> := members, [];
        for i := 0 to |list|
          invariant kept == Without(list[..i], frame.member.id)
        {
          WithoutOneMore(list[..i], list[i], frame.member.id);
          assert list[..i + 1] == list[..i] + [list[i]];
          if list[i].id != frame.member.id {
            kept := kept + [list[i]];
          }
        }
        assert list[..|list|] == list;
        members := kept;
      }
    }

    /** Feeding a whole trace leaves the list `Folded` describes. */
    method Receive(trace: seq<Frame>, channel: Channel)
      modifies this
      requires members == []
      ensures members == Folded(trace, channel)
    {
      for i := 0 to |trace|
        invariant members == Folded(trace[..i], channel)
      {
        assert trace[..i + 1][..i] == trace[..i] && trace[..i + 1][i] == trace[i];
        if trace[i].channel == channel {
          ApplyPresence(trace[i]);
        }
      }
      assert trace[..|trace|] == trace;
    }
  }

  lemma {:induction false} WithoutOneMore(list: seq<Member>, last: Member, id: Id)
    ensures Without(list + [last], id) == Without(list, id) + (if last.id == id then [] else [last])
  {
    if list == [] {
      assert list + [last] == [last];
    } else {
      assert (list + [last])[1..] == list[1..] + [last];
      WithoutOneMore(list[1..], last, id);
    }
  }
}
