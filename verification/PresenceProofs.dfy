/**
 * The presence theorems: in every run, every listener's folded list is exactly who is
 * present, and arrivals and departures alternate for each person.
 */
module PresenceProofs {
  import opened Options
  import opened Presence

  // ------------------------------------------------------------------ lists

  lemma FoldedStep(trace: seq<Frame>, frame: Frame, channel: Channel)
    ensures Folded(trace + [frame], channel)
         == if frame.channel == channel then Apply(Folded(trace, channel), frame) else Folded(trace, channel)
  {
    assert (trace + [frame])[..|trace|] == trace;
  }

  lemma ToldStep(announced: seq<Frame>, frame: Frame, channel: Channel, id: Id)
    ensures Told(announced + [frame], channel, id)
         == Told(announced, channel, id)
            + (if frame == Joined(channel, Member(id, if frame.Joined? then frame.member.info else 0)) then [true]
               else if frame == Left(channel, Member(id, if frame.Left? then frame.member.info else 0)) then [false]
               else [])
  {
    assert (announced + [frame])[..|announced|] == announced;
  }

  lemma IdsOfCons(head: Member, tail: seq<Member>)
    ensures Ids([head] + tail) == {head.id} + Ids(tail)
  {
    assert forall m :: m in [head] + tail <==> m == head || m in tail;
  }

  lemma {:induction false} WithoutDrops(list: seq<Member>, id: Id)
    ensures Ids(Without(list, id)) == Ids(list) - {id}
    ensures forall m :: m in Without(list, id) ==> m in list
    ensures NoDuplicates(list) ==> NoDuplicates(Without(list, id))
  {
    if list != [] {
      WithoutDrops(list[1..], id);
      assert list == [list[0]] + list[1..];
      IdsOfCons(list[0], list[1..]);
      IdsOfCons(list[0], Without(list[1..], id));
      if NoDuplicates(list) {
        assert NoDuplicates(list[1..]) by {
          forall i, j | 0 <= i < j < |list[1..]| ensures list[1..][i].id != list[1..][j].id {
            assert list[1..][i] == list[i + 1] && list[1..][j] == list[j + 1];
          }
        }
        var rest := Without(list[1..], id);
        if list[0].id != id {
          forall j | 0 <= j < |rest| ensures rest[j].id != list[0].id {
            assert rest[j] in list[1..];
          }
        }
      }
    }
  }

  /** A presence frame moves a duplicate-free list to the ids it announces. */
  lemma ApplyMoves(list: seq<Member>, frame: Frame)
    requires NoDuplicates(list)
    requires frame.Here? ==> NoDuplicates(frame.members)
    ensures NoDuplicates(Apply(list, frame))
    ensures Ids(Apply(list, frame)) ==
            match frame
            case Here(_, members) => Ids(members)
            case Joined(_, member) => Ids(list) + {member.id}
            case Left(_, member) => Ids(list) - {member.id}
            case Event(_, _) => Ids(list)
  {
    if frame.Left? {
      WithoutDrops(list, frame.member.id);
    }
  }

  // ------------------------------------------------------------------ entries

  /** With ids fixed by the socket, who is present is read off the sockets alone. */
  ghost predicate Keyed(c: Config, channel: Channel, entries: seq<Entry>) {
    forall e :: e in entries ==> e.member.id == c.id(channel, e.socket)
  }

  ghost function IdsOf(c: Config, channel: Channel, sockets: set<Socket>): set<Id> {
    set x | x in sockets :: c.id(channel, x)
  }

  lemma KeyedIds(c: Config, channel: Channel, entries: seq<Entry>)
    requires Keyed(c, channel, entries)
    ensures PresentIds(entries) == IdsOf(c, channel, Sockets(entries))
    ensures Ids(MembersOf(entries)) == PresentIds(entries)
  {
    var ms := MembersOf(entries);
    forall id | id in Ids(ms) ensures id in PresentIds(entries) {
      var i :| 0 <= i < |ms| && ms[i].id == id;
      assert entries[i] in entries;
    }
    forall e | e in entries ensures e.member.id in Ids(ms) {
      var i :| 0 <= i < |entries| && entries[i] == e;
      assert ms[i] in ms;
    }
  }

  lemma SocketsOfCons(head: Entry, tail: seq<Entry>)
    ensures Sockets([head] + tail) == {head.socket} + Sockets(tail)
  {
    assert forall e :: e in [head] + tail <==> e == head || e in tail;
  }

  lemma {:induction false} SetEntryKeyed(c: Config, channel: Channel, entries: seq<Entry>, socket: Socket,
                                         member: Member)
    requires Keyed(c, channel, entries) && member.id == c.id(channel, socket)
    ensures Keyed(c, channel, SetEntry(entries, socket, member))
  {
    if entries != [] && entries[0].socket != socket {
      SetEntryKeyed(c, channel, entries[1..], socket, member);
    }
  }

  lemma {:induction false} SetEntryUnique(entries: seq<Entry>, socket: Socket, member: Member)
    requires Unique(entries)
    ensures Unique(SetEntry(entries, socket, member))
  {
    if entries != [] && entries[0].socket != socket {
      var tail := entries[1..];
      assert Unique(tail);
      SetEntryUnique(tail, socket, member);
      var rest := SetEntry(tail, socket, member);
      forall j | 0 <= j < |rest| ensures rest[j].socket != entries[0].socket {
        assert rest[j] in rest && rest[j].socket in Sockets(rest);
      }
    }
  }

  /** A socket keeps one entry; setting it again swaps its member in place. */
  lemma {:induction false} SetEntryReplaces(entries: seq<Entry>, socket: Socket, member: Member)
    requires Unique(entries)
    ensures PresentIds(SetEntry(entries, socket, member)) == PresentIds(DeleteEntry(entries, socket)) + {member.id}
  {
    if entries == [] {
      assert SetEntry(entries, socket, member) == [Entry(socket, member)];
    } else {
      var head, tail := entries[0], entries[1..];
      if head.socket == socket {
        assert socket !in Sockets(tail);
        DeleteAbsent(tail, socket);
        IdsOfEntries(Entry(socket, member), tail);
      } else {
        assert Unique(tail);
        SetEntryReplaces(tail, socket, member);
        IdsOfEntries(head, SetEntry(tail, socket, member));
        IdsOfEntries(head, DeleteEntry(tail, socket));
      }
    }
  }

  lemma IdsOfEntries(head: Entry, tail: seq<Entry>)
    ensures PresentIds([head] + tail) == {head.member.id} + PresentIds(tail)
  {
    assert forall e :: e in [head] + tail <==> e == head || e in tail;
  }

  lemma {:induction false} DeleteAbsent(entries: seq<Entry>, socket: Socket)
    requires socket !in Sockets(entries)
    ensures DeleteEntry(entries, socket) == entries
  {
    if entries != [] {
      assert entries == [entries[0]] + entries[1..];
      assert entries[0] in entries;
      DeleteAbsent(entries[1..], socket);
    }
  }

  lemma {:induction false} DeleteEntryUnique(entries: seq<Entry>, socket: Socket)
    requires Unique(entries)
    ensures Unique(DeleteEntry(entries, socket))
    ensures forall e :: e in DeleteEntry(entries, socket) ==> e in entries
  {
    if entries != [] {
      var tail := entries[1..];
      assert Unique(tail);
      DeleteEntryUnique(tail, socket);
      var rest := DeleteEntry(tail, socket);
      forall j | 0 <= j < |rest| ensures rest[j].socket != entries[0].socket {
        assert rest[j] in tail;
      }
    }
  }

  lemma {:induction false} DeleteEntryDrops(c: Config, channel: Channel, entries: seq<Entry>, socket: Socket)
    requires Keyed(c, channel, entries)
    ensures Keyed(c, channel, DeleteEntry(entries, socket))
    ensures Sockets(DeleteEntry(entries, socket)) == Sockets(entries) - {socket}
    ensures MemberOf(entries, socket).Some? <==> socket in Sockets(entries)
    ensures MemberOf(entries, socket).Some? ==> MemberOf(entries, socket).value.id == c.id(channel, socket)
  {
    if entries != [] {
      DeleteEntryDrops(c, channel, entries[1..], socket);
      assert entries == [entries[0]] + entries[1..];
      SocketsOfCons(entries[0], entries[1..]);
      SocketsOfCons(entries[0], DeleteEntry(entries[1..], socket));
    }
  }

  // ------------------------------------------------------------------ one channel at a time

  /** Nothing about any channel but this one has changed. */
  ghost predicate OnlyOn(s: Server, t: Server, channel: Channel) {
    && (forall other :: other != channel ==>
          t.Listeners(other) == s.Listeners(other) && t.Entries(other) == s.Entries(other)
          && (other in t.members <==> other in s.members))
    && (forall other, socket :: other != channel ==>
          Folded(t.Trace(socket), other) == Folded(s.Trace(socket), other))
    && (forall other, id :: other != channel ==>
          Told(t.announced, other, id) == Told(s.announced, other, id))
  }

  lemma DeliverTraces(s: Server, frame: Frame, except: Option<Socket>)
    ensures OnlyOn(s, Deliver(s, frame, except), frame.channel)
    ensures var t := Deliver(s, frame, except);
            forall socket :: t.Trace(socket) == s.Trace(socket)
              + (if socket in Except(s.Listeners(frame.channel), except) then [frame] else [])
  {
    var t := Deliver(s, frame, except);
    var to := Except(s.Listeners(frame.channel), except);
    forall other, socket | other != frame.channel
      ensures Folded(t.Trace(socket), other) == Folded(s.Trace(socket), other)
    {
      assert t.Trace(socket) == if socket in to then s.Trace(socket) + [frame] else s.Trace(socket);
      FoldedStep(s.Trace(socket), frame, other);
    }
    forall other, id | other != frame.channel
      ensures Told(t.announced, other, id) == Told(s.announced, other, id)
    {
      ToldStep(s.announced, frame, other, id);
    }
  }

  /** What one announcement, or none, does to the set of people present. */
  ghost predicate Shifts(before: set<Id>, after: set<Id>, news: seq<Frame>) {
    if news == [] then after == before else |news| == 1 && Shift(before, after, news[0])
  }

  ghost predicate Shift(before: set<Id>, after: set<Id>, news: Frame) {
    match news
    case Here(_, _) => false
    case Joined(_, member) => member.id !in before && after == before + {member.id}
    case Left(_, member) => member.id in before && after == before - {member.id}
    case Event(_, _) => after == before
  }

  /** Every listener got the news, except a joiner, who got the whole list. */
  ghost predicate Heard(s: Server, t: Server, channel: Channel, news: seq<Frame>, joiner: Option<Socket>,
                        list: seq<Member>) {
    forall x :: x in t.Listeners(channel) ==>
      if joiner == Some(x) then t.Trace(x) == s.Trace(x) + [Here(channel, list)]
      else x in s.Listeners(channel) && t.Trace(x) == s.Trace(x) + news
  }

  lemma ShiftRecords(c: Config, s: Server, t: Server, channel: Channel)
    requires AllRecorded(c, s) && OnlyOn(s, t, channel) && Recorded(c, t, channel)
    ensures AllRecorded(c, t)
  {
    forall other ensures Recorded(c, t, other) {
      assert Recorded(c, s, other);
    }
  }

  lemma ListShifts(s: Server, t: Server, channel: Channel, news: seq<Frame>, x: Socket)
    requires Shows(s, x, channel) && (forall f :: f in news ==> f.channel == channel)
    requires Shifts(PresentIds(s.Entries(channel)), PresentIds(t.Entries(channel)), news)
    requires t.Trace(x) == s.Trace(x) + news
    ensures Shows(t, x, channel)
  {
    if news == [] {
      assert t.Trace(x) == s.Trace(x);
    } else {
      assert news == [news[0]];
      FoldedStep(s.Trace(x), news[0], channel);
      ApplyMoves(Folded(s.Trace(x), channel), news[0]);
    }
  }

  lemma ShiftShows(c: Config, s: Server, t: Server, channel: Channel,
                   news: seq<Frame>, joiner: Option<Socket>, list: seq<Member>)
    requires AllShow(c, s) && OnlyOn(s, t, channel)
    requires forall f :: f in news ==> f.channel == channel
    requires Shifts(PresentIds(s.Entries(channel)), PresentIds(t.Entries(channel)), news)
    requires c.presence(channel) ==> Heard(s, t, channel, news, joiner, list)
    requires joiner.Some? ==> NoDuplicates(list) && Ids(list) == PresentIds(t.Entries(channel))
    ensures AllShow(c, t)
  {
    forall other, x | c.presence(other) && x in t.Listeners(other) ensures Shows(t, x, other) {
      if other != channel {
        assert Shows(s, x, other);
      } else if joiner == Some(x) {
        FoldedStep(s.Trace(x), Here(channel, list), channel);
      } else {
        assert Shows(s, x, channel);
        ListShifts(s, t, channel, news, x);
      }
    }
  }

  lemma ShiftAnnounces(s: Server, t: Server, channel: Channel, news: seq<Frame>)
    requires AllAnnounced(s) && OnlyOn(s, t, channel)
    requires forall f :: f in news ==> f.channel == channel
    requires t.announced == s.announced + news
    requires Shifts(PresentIds(s.Entries(channel)), PresentIds(t.Entries(channel)), news)
    ensures AllAnnounced(t)
  {
    forall other, id ensures Announced(t, other, id) {
      assert Announced(s, other, id);
      if other == channel {
        ToldShifts(s, t, channel, news, id);
      }
    }
  }

  lemma ToldShifts(s: Server, t: Server, channel: Channel, news: seq<Frame>, id: Id)
    requires Announced(s, channel, id) && t.announced == s.announced + news
    requires Shifts(PresentIds(s.Entries(channel)), PresentIds(t.Entries(channel)), news)
    requires forall f :: f in news ==> f.channel == channel
    ensures Announced(t, channel, id)
  {
    if news == [] {
      assert t.announced == s.announced;
    } else {
      assert news == [news[0]];
      ToldStep(s.announced, news[0], channel, id);
    }
  }

  /** A change on one channel keeps the invariant when lists, announcements and members shift together. */
  lemma ShiftKeeps(c: Config, s: Server, t: Server, channel: Channel,
                   news: seq<Frame>, joiner: Option<Socket>, list: seq<Member>)
    requires Inv(c, s) && OnlyOn(s, t, channel) && Recorded(c, t, channel)
    requires forall f :: f in news ==> f.channel == channel
    requires t.announced == s.announced + news
    requires Shifts(PresentIds(s.Entries(channel)), PresentIds(t.Entries(channel)), news)
    requires c.presence(channel) ==> Heard(s, t, channel, news, joiner, list)
    requires joiner.Some? ==> NoDuplicates(list) && Ids(list) == PresentIds(t.Entries(channel))
    ensures Inv(c, t)
  {
    ShiftRecords(c, s, t, channel);
    ShiftShows(c, s, t, channel, news, joiner, list);
    ShiftAnnounces(s, t, channel, news);
  }

  // ------------------------------------------------------------------ subscribe

  lemma WelcomeFacts(s: Server, socket: Socket, channel: Channel, member: Member)
    ensures var t := Welcome(s, socket, channel, member);
            && OnlyOn(s, t, channel)
            && t.Listeners(channel) == s.Listeners(channel)
            && t.Entries(channel) == SetEntry(s.Entries(channel), socket, member)
            && t.announced == s.announced
            && (forall x :: t.Trace(x) == s.Trace(x)
                 + (if x == socket then [Here(channel, PresenceOn(t, channel))] else []))
  {
    var t := Welcome(s, socket, channel, member);
    var here := Here(channel, PresenceOn(t, channel));
    forall x ensures t.Trace(x) == s.Trace(x) + (if x == socket then [here] else []) {}
    forall other, x | other != channel ensures Folded(t.Trace(x), other) == Folded(s.Trace(x), other) {
      FoldedStep(s.Trace(x), here, other);
      assert t.Trace(x) == s.Trace(x) || t.Trace(x) == s.Trace(x) + [here];
    }
  }

  lemma OnlyOnTransitive(s: Server, t: Server, u: Server, channel: Channel)
    requires OnlyOn(s, t, channel) && OnlyOn(t, u, channel)
    ensures OnlyOn(s, u, channel)
  {}

  lemma JoinOnlyOn(s: Server, socket: Socket, channel: Channel, member: Member)
    ensures OnlyOn(s, Subscribe(s, socket, channel, Present(member)), channel)
  {
    var listening := Listening(s, channel, s.Listeners(channel) + {socket});
    var told := Welcome(listening, socket, channel, member);
    ListeningOnlyOn(s, channel, s.Listeners(channel) + {socket});
    WelcomeFacts(listening, socket, channel, member);
    OnlyOnTransitive(s, listening, told, channel);
    if member.id !in PresentIds(s.Entries(channel)) {
      DeliverTraces(told, Joined(channel, member), Some(socket));
      OnlyOnTransitive(s, told, Deliver(told, Joined(channel, member), Some(socket)), channel);
    }
  }

  lemma JoinFacts(s: Server, socket: Socket, channel: Channel, member: Member)
    ensures var t := Subscribe(s, socket, channel, Present(member));
            var news := if member.id in PresentIds(s.Entries(channel)) then [] else [Joined(channel, member)];
            && t.Listeners(channel) == s.Listeners(channel) + {socket}
            && t.Entries(channel) == SetEntry(s.Entries(channel), socket, member)
            && t.announced == s.announced + news
            && Heard(s, t, channel, news, Some(socket), PresenceOn(t, channel))
  {
    if member.id in PresentIds(s.Entries(channel)) {
      SecondTabFacts(s, socket, channel, member);
    } else {
      ArrivalFacts(s, socket, channel, member);
    }
  }

  /** The joiner alone is told anything, whoever else has the person's tabs open. */
  lemma SecondTabFacts(s: Server, socket: Socket, channel: Channel, member: Member)
    requires member.id in PresentIds(s.Entries(channel))
    ensures var t := Subscribe(s, socket, channel, Present(member));
            && t.Listeners(channel) == s.Listeners(channel) + {socket}
            && t.Entries(channel) == SetEntry(s.Entries(channel), socket, member)
            && t.announced == s.announced
            && Heard(s, t, channel, [], Some(socket), PresenceOn(t, channel))
  {
    var listening := Listening(s, channel, s.Listeners(channel) + {socket});
    var told := Welcome(listening, socket, channel, member);
    WelcomeFacts(listening, socket, channel, member);
    HearsJoin(s, told, told, socket, channel, []);
  }

  lemma ArrivalFacts(s: Server, socket: Socket, channel: Channel, member: Member)
    requires member.id !in PresentIds(s.Entries(channel))
    ensures var t := Subscribe(s, socket, channel, Present(member));
            && t.Listeners(channel) == s.Listeners(channel) + {socket}
            && t.Entries(channel) == SetEntry(s.Entries(channel), socket, member)
            && t.announced == s.announced + [Joined(channel, member)]
            && Heard(s, t, channel, [Joined(channel, member)], Some(socket), PresenceOn(t, channel))
  {
    var listening := Listening(s, channel, s.Listeners(channel) + {socket});
    var told := Welcome(listening, socket, channel, member);
    WelcomeFacts(listening, socket, channel, member);
    var t := Deliver(told, Joined(channel, member), Some(socket));
    DeliverTraces(told, Joined(channel, member), Some(socket));
    HearsJoin(s, told, t, socket, channel, [Joined(channel, member)]);
  }

  lemma HearsJoin(s: Server, told: Server, t: Server, socket: Socket, channel: Channel, news: seq<Frame>)
    requires told.Listeners(channel) == t.Listeners(channel) == s.Listeners(channel) + {socket}
    requires told.Entries(channel) == t.Entries(channel)
    requires forall x :: told.Trace(x) == s.Trace(x)
               + (if x == socket then [Here(channel, PresenceOn(told, channel))] else [])
    requires forall x :: t.Trace(x) == told.Trace(x) + (if x in told.Listeners(channel) - {socket} then news else [])
    ensures Heard(s, t, channel, news, Some(socket), PresenceOn(t, channel))
  {
    forall x | x in t.Listeners(channel)
      ensures if socket == x then t.Trace(x) == s.Trace(x) + [Here(channel, PresenceOn(t, channel))]
              else x in s.Listeners(channel) && t.Trace(x) == s.Trace(x) + news
    {
      assert told.Trace(x) + [] == told.Trace(x) && s.Trace(x) + [] == s.Trace(x);
    }
  }

  /** `join`: the joiner is shown everybody, everybody else hears of an arrival only if it is one. */
  lemma JoinKeeps(c: Config, s: Server, socket: Socket, channel: Channel, member: Member)
    requires Inv(c, s) && c.presence(channel) && member.id == c.id(channel, socket)
    ensures Inv(c, Subscribe(s, socket, channel, Present(member)))
  {
    JoinOnlyOn(s, socket, channel, member);
    JoinFacts(s, socket, channel, member);
    JoinConcludes(c, s, Subscribe(s, socket, channel, Present(member)), socket, channel, member);
  }

  /** The member is recorded, and the ids present shift as the news says. */
  lemma JoinShifts(c: Config, s: Server, t: Server, socket: Socket, channel: Channel, member: Member)
    requires Recorded(c, s, channel) && c.presence(channel) && member.id == c.id(channel, socket)
    requires t.Listeners(channel) == s.Listeners(channel) + {socket}
    requires t.Entries(channel) == SetEntry(s.Entries(channel), socket, member)
    ensures Recorded(c, t, channel)
    ensures PresentIds(t.Entries(channel)) == PresentIds(s.Entries(channel)) + {member.id}
    ensures NoDuplicates(PresenceOn(t, channel)) && Ids(PresenceOn(t, channel)) == PresentIds(t.Entries(channel))
  {
    SetEntryKeyed(c, channel, s.Entries(channel), socket, member);
    SetEntryUnique(s.Entries(channel), socket, member);
    KeyedIds(c, channel, s.Entries(channel));
    KeyedIds(c, channel, t.Entries(channel));
  }

  lemma JoinConcludes(c: Config, s: Server, t: Server, socket: Socket, channel: Channel, member: Member)
    requires Inv(c, s) && c.presence(channel) && member.id == c.id(channel, socket)
    requires var news := if member.id in PresentIds(s.Entries(channel)) then [] else [Joined(channel, member)];
             && OnlyOn(s, t, channel)
             && t.Listeners(channel) == s.Listeners(channel) + {socket}
             && t.Entries(channel) == SetEntry(s.Entries(channel), socket, member)
             && t.announced == s.announced + news
             && Heard(s, t, channel, news, Some(socket), PresenceOn(t, channel))
    ensures Inv(c, t)
  {
    var news := if member.id in PresentIds(s.Entries(channel)) then [] else [Joined(channel, member)];
    assert Recorded(c, s, channel);
    JoinShifts(c, s, t, socket, channel, member);
    ShiftKeeps(c, s, t, channel, news, Some(socket), PresenceOn(t, channel));
  }

  lemma ListenKeeps(c: Config, s: Server, socket: Socket, channel: Channel)
    requires Inv(c, s) && !c.presence(channel)
    ensures Inv(c, Subscribe(s, socket, channel, Listener))
  {
    assert Recorded(c, s, channel);
    ShiftKeeps(c, s, Subscribe(s, socket, channel, Listener), channel, [], None, []);
  }

  // ------------------------------------------------------------------ unsubscribe

  /** What leaving announces: a departure when no other socket of the person is left. */
  function Farewell(s: Server, socket: Socket, channel: Channel): seq<Frame> {
    match MemberOf(s.Entries(channel), socket)
    case None => []
    case Some(member) =>
      if member.id in PresentIds(DeleteEntry(s.Entries(channel), socket)) then [] else [Left(channel, member)]
  }

  lemma LeaveFacts(s: Server, socket: Socket, channel: Channel)
    ensures var t := Leave(s, socket, channel);
            var news := Farewell(s, socket, channel);
            var member := MemberOf(s.Entries(channel), socket);
            && t.subscriptions == s.subscriptions
            && (member.None? ==> t.members == s.members)
            && (member.Some? ==> t.Entries(channel) == DeleteEntry(s.Entries(channel), socket))
            && t.announced == s.announced + news
            && (forall x :: t.Trace(x) == s.Trace(x) + (if x in s.Listeners(channel) then news else []))
  {
    var member := MemberOf(s.Entries(channel), socket);
    if member.Some? {
      DeliverTraces(Drop(s, socket, channel), Left(channel, member.value), None);
    }
  }

  lemma LeaveOnlyOn(s: Server, socket: Socket, channel: Channel)
    ensures OnlyOn(s, Leave(s, socket, channel), channel)
  {
    var member := MemberOf(s.Entries(channel), socket);
    if member.Some? {
      var quiet := Drop(s, socket, channel);
      assert OnlyOn(s, quiet, channel);
      if member.value.id !in PresentIds(quiet.Entries(channel)) {
        var loud := Deliver(quiet, Left(channel, member.value), None);
        DeliverTraces(quiet, Left(channel, member.value), None);
        OnlyOnTransitive(s, quiet, loud, channel);
      }
    }
  }

  lemma UnsubscribeOnlyOn(s: Server, socket: Socket, channel: Channel)
    ensures OnlyOn(s, Unsubscribe(s, socket, channel), channel)
  {
    if channel in s.subscriptions {
      var rest := s.subscriptions[channel] - {socket};
      var listening := Listening(s, channel, rest);
      var left := Leave(listening, socket, channel);
      ListeningOnlyOn(s, channel, rest);
      LeaveOnlyOn(listening, socket, channel);
      OnlyOnTransitive(s, listening, left, channel);
      UnlistedOnlyOn(left, channel);
      OnlyOnTransitive(s, left, left.(subscriptions := left.subscriptions - {channel}), channel);
    }
  }

  lemma ListeningOnlyOn(s: Server, channel: Channel, sockets: set<Socket>)
    ensures OnlyOn(s, Listening(s, channel, sockets), channel)
  {}

  lemma UnlistedOnlyOn(s: Server, channel: Channel)
    ensures OnlyOn(s, s.(subscriptions := s.subscriptions - {channel}), channel)
  {}

  lemma UnsubscribeFacts(s: Server, socket: Socket, channel: Channel)
    requires channel in s.subscriptions
    ensures var t := Unsubscribe(s, socket, channel);
            var news := Farewell(s, socket, channel);
            var member := MemberOf(s.Entries(channel), socket);
            && t.Listeners(channel) == s.Listeners(channel) - {socket}
            && (member.None? ==> t.members == s.members)
            && (member.Some? ==> t.Entries(channel) == DeleteEntry(s.Entries(channel), socket))
            && t.announced == s.announced + news
            && Heard(s, t, channel, news, None, [])
  {
    var listening := Listening(s, channel, s.subscriptions[channel] - {socket});
    LeaveFacts(listening, socket, channel);
  }

  lemma UnsubscribeKeeps(c: Config, s: Server, socket: Socket, channel: Channel)
    requires Inv(c, s)
    ensures Inv(c, Unsubscribe(s, socket, channel))
  {
    if channel in s.subscriptions {
      UnsubscribeOnlyOn(s, socket, channel);
      UnsubscribeFacts(s, socket, channel);
      UnsubscribeConcludes(c, s, Unsubscribe(s, socket, channel), socket, channel);
    }
  }

  lemma UnsubscribeConcludes(c: Config, s: Server, t: Server, socket: Socket, channel: Channel)
    requires Inv(c, s) && OnlyOn(s, t, channel)
    requires t.Listeners(channel) == s.Listeners(channel) - {socket}
    requires MemberOf(s.Entries(channel), socket).None? ==> t.members == s.members
    requires MemberOf(s.Entries(channel), socket).Some? ==>
               t.Entries(channel) == DeleteEntry(s.Entries(channel), socket)
    requires t.announced == s.announced + Farewell(s, socket, channel)
    requires Heard(s, t, channel, Farewell(s, socket, channel), None, [])
    ensures Inv(c, t)
  {
    assert Recorded(c, s, channel);
    DepartureRecords(c, s, t, socket, channel);
    ShiftKeeps(c, s, t, channel, Farewell(s, socket, channel), None, []);
  }

  lemma DepartureRecords(c: Config, s: Server, t: Server, socket: Socket, channel: Channel)
    requires Recorded(c, s, channel)
    requires t.Listeners(channel) == s.Listeners(channel) - {socket}
    requires MemberOf(s.Entries(channel), socket).None? ==> t.members == s.members
    requires MemberOf(s.Entries(channel), socket).Some? ==>
               t.Entries(channel) == DeleteEntry(s.Entries(channel), socket)
    ensures Recorded(c, t, channel)
    ensures Shifts(PresentIds(s.Entries(channel)), PresentIds(t.Entries(channel)), Farewell(s, socket, channel))
  {
    var before := s.Entries(channel);
    DeleteEntryDrops(c, channel, before, socket);
    if MemberOf(before, socket).Some? {
      assert before != [] && channel in s.members;
      DeleteEntryUnique(before, socket);
      KeyedIds(c, channel, before);
      KeyedIds(c, channel, DeleteEntry(before, socket));
    }
  }

  lemma {:induction false} ForgetKeeps(c: Config, s: Server, socket: Socket, channels: seq<Channel>)
    requires Inv(c, s)
    ensures Inv(c, Forget(s, socket, channels))
    decreases |channels|
  {
    if channels != [] {
      UnsubscribeKeeps(c, s, socket, channels[0]);
      ForgetKeeps(c, Unsubscribe(s, socket, channels[0]), socket, channels[1..]);
    }
  }

  /** After `forget` the socket listens to nothing, and every other listener is untouched. */
  lemma {:induction false} ForgetDrops(s: Server, socket: Socket, channels: seq<Channel>, channel: Channel)
    ensures Forget(s, socket, channels).Listeners(channel)
         == if channel in channels then s.Listeners(channel) - {socket} else s.Listeners(channel)
    decreases |channels|
  {
    if channels != [] {
      var t := Unsubscribe(s, socket, channels[0]);
      assert t.Listeners(channel)
          == if channel == channels[0] then s.Listeners(channel) - {socket} else s.Listeners(channel);
      ForgetDrops(t, socket, channels[1..], channel);
    }
  }

  // ------------------------------------------------------------------ runs

  /** An application event reaches listeners without touching anybody's list. */
  lemma EventKeeps(c: Config, s: Server, frame: Frame, except: Option<Socket>)
    requires Inv(c, s) && frame.Event?
    ensures Inv(c, Deliver(s, frame, except))
  {
    DeliverTraces(s, frame, except);
    EventConcludes(c, s, Deliver(s, frame, except), frame);
  }

  lemma EventConcludes(c: Config, s: Server, t: Server, frame: Frame)
    requires Inv(c, s) && frame.Event?
    requires t.subscriptions == s.subscriptions && t.members == s.members
    requires t.announced == s.announced + [frame]
    requires forall x :: t.Trace(x) == s.Trace(x) || t.Trace(x) == s.Trace(x) + [frame]
    ensures Inv(c, t)
  {
    forall channel ensures Recorded(c, t, channel) {
      assert Recorded(c, s, channel);
    }
    forall channel, x | c.presence(channel) && x in t.Listeners(channel) ensures Shows(t, x, channel) {
      assert Shows(s, x, channel);
      FoldedStep(s.Trace(x), frame, channel);
    }
    forall channel, id ensures Announced(t, channel, id) {
      assert Announced(s, channel, id);
      ToldStep(s.announced, frame, channel, id);
    }
  }

  lemma TakeKeeps(c: Config, s: Server, step: Step)
    requires Inv(c, s) && Allowed(c, s, step)
    ensures Inv(c, Take(s, step))
  {
    match step
    case DoSubscribe(socket, channel, answer) =>
      match answer {
        case Refused =>
        case Listener => ListenKeeps(c, s, socket, channel);
        case Present(member) => JoinKeeps(c, s, socket, channel, member);
      }
    case DoUnsubscribe(socket, channel) => UnsubscribeKeeps(c, s, socket, channel);
    case DoForget(socket, order) => ForgetKeeps(c, s, socket, order);
    case DoBroadcast(frame, except) => EventKeeps(c, s, frame, except);
  }

  lemma {:induction false} RunKeeps(c: Config, s: Server, steps: seq<Step>)
    requires Inv(c, s) && AllowedRun(c, s, steps)
    ensures Inv(c, Run(s, steps))
    decreases |steps|
  {
    if steps != [] {
      TakeKeeps(c, s, steps[0]);
      RunKeeps(c, Take(s, steps[0]), steps[1..]);
    }
  }

  /**
   * After any run from an empty server, every socket listening on a presence channel
   * shows a duplicate-free list whose ids are exactly `presence(channel)`.
   */
  lemma EveryListShowsPresence(c: Config, steps: seq<Step>, channel: Channel, socket: Socket)
    requires AllowedRun(c, EMPTY_SERVER, steps)
    requires c.presence(channel)
    requires socket in Run(EMPTY_SERVER, steps).Listeners(channel)
    ensures var s := Run(EMPTY_SERVER, steps);
            var list := Folded(s.Trace(socket), channel);
            NoDuplicates(list) && Ids(list) == Ids(PresenceOn(s, channel))
  {
    FreshInv(c);
    RunKeeps(c, EMPTY_SERVER, steps);
    ShownIsPresent(c, Run(EMPTY_SERVER, steps), channel, socket);
  }

  /** Arrivals and departures of one person alternate, however many sockets that person holds. */
  lemma ArrivalsAlternate(c: Config, steps: seq<Step>, channel: Channel, id: Id)
    requires AllowedRun(c, EMPTY_SERVER, steps)
    ensures var s := Run(EMPTY_SERVER, steps);
            var told := Told(s.announced, channel, id);
            && (forall i :: 0 <= i < |told| ==> told[i] == (i % 2 == 0))
            && (id in Ids(PresenceOn(s, channel)) <==> told != [] && told[|told| - 1])
  {
    FreshInv(c);
    RunKeeps(c, EMPTY_SERVER, steps);
    ToldIsPresent(c, Run(EMPTY_SERVER, steps), channel, id);
  }

  lemma ShownIsPresent(c: Config, s: Server, channel: Channel, socket: Socket)
    requires AllRecorded(c, s) && AllShow(c, s) && c.presence(channel) && socket in s.Listeners(channel)
    ensures var list := Folded(s.Trace(socket), channel);
            NoDuplicates(list) && Ids(list) == Ids(PresenceOn(s, channel))
  {
    assert Recorded(c, s, channel) && Shows(s, socket, channel);
    KeyedIds(c, channel, s.Entries(channel));
  }

  lemma ToldIsPresent(c: Config, s: Server, channel: Channel, id: Id)
    requires AllRecorded(c, s) && AllAnnounced(s)
    ensures var told := Told(s.announced, channel, id);
            && (forall i :: 0 <= i < |told| ==> told[i] == (i % 2 == 0))
            && (id in Ids(PresenceOn(s, channel)) <==> told != [] && told[|told| - 1])
  {
    assert Announced(s, channel, id) && Recorded(c, s, channel);
    KeyedIds(c, channel, s.Entries(channel));
  }

  lemma FreshInv(c: Config)
    ensures Inv(c, EMPTY_SERVER)
  {
    forall channel, id ensures Announced(EMPTY_SERVER, channel, id) {
      assert Told([], channel, id) == [];
    }
    forall channel ensures Recorded(c, EMPTY_SERVER, channel) {}
  }

  /**
   * The id has to depend on nothing but channel and user. When a socket already listed
   * joins again under another id, the other listeners' lists stay right exactly when a
   * different socket still holds the old id: otherwise the old id is never announced gone.
   */
  lemma ChangedIdStaysListed(c: Config, s: Server, socket: Socket, channel: Channel,
                             held: Member, member: Member, other: Socket)
    requires Inv(c, s) && c.presence(channel)
    requires MemberOf(s.Entries(channel), socket) == Some(held) && held.id != member.id
    requires other != socket && other in s.Listeners(channel)
    ensures Shows(Subscribe(s, socket, channel, Present(member)), other, channel)
            <==> held.id in PresentIds(DeleteEntry(s.Entries(channel), socket))
  {
    assert Recorded(c, s, channel) && Shows(s, other, channel);
    JoinFacts(s, socket, channel, member);
    ChangedIdConcludes(s, Subscribe(s, socket, channel, Present(member)), socket, channel, held, member, other);
  }

  /** The other listener's list gains the new id, announced or known already, and loses none. */
  lemma ListGainsId(s: Server, t: Server, channel: Channel, member: Member, other: Socket)
    requires Shows(s, other, channel)
    requires t.Trace(other) == s.Trace(other)
             + (if member.id in PresentIds(s.Entries(channel)) then [] else [Joined(channel, member)])
    ensures var list := Folded(t.Trace(other), channel);
            NoDuplicates(list) && Ids(list) == PresentIds(s.Entries(channel)) + {member.id}
  {
    FoldedStep(s.Trace(other), Joined(channel, member), channel);
    ApplyMoves(Folded(s.Trace(other), channel), Joined(channel, member));
    assert s.Trace(other) + [] == s.Trace(other);
  }

  lemma ChangedIdConcludes(s: Server, t: Server, socket: Socket, channel: Channel,
                           held: Member, member: Member, other: Socket)
    requires Shows(s, other, channel) && Unique(s.Entries(channel))
    requires MemberOf(s.Entries(channel), socket) == Some(held) && held.id != member.id
    requires t.Entries(channel) == SetEntry(s.Entries(channel), socket, member)
    requires t.Trace(other) == s.Trace(other)
             + (if member.id in PresentIds(s.Entries(channel)) then [] else [Joined(channel, member)])
    ensures Shows(t, other, channel) <==> held.id in PresentIds(DeleteEntry(s.Entries(channel), socket))
  {
    SetEntryReplaces(s.Entries(channel), socket, member);
    HeldIsPresent(s.Entries(channel), socket, held);
    ListGainsId(s, t, channel, member, other);
  }

  lemma {:induction false} HeldIsPresent(entries: seq<Entry>, socket: Socket, held: Member)
    requires Unique(entries) && MemberOf(entries, socket) == Some(held)
    ensures PresentIds(entries) == PresentIds(DeleteEntry(entries, socket)) + {held.id}
  {
    var head, tail := entries[0], entries[1..];
    assert entries == [head] + tail;
    assert Unique(tail);
    IdsOfEntries(head, tail);
    if head.socket == socket {
      assert socket !in Sockets(tail);
      DeleteAbsent(tail, socket);
    } else {
      HeldIsPresent(tail, socket, held);
      IdsOfEntries(head, DeleteEntry(tail, socket));
    }
  }
}
