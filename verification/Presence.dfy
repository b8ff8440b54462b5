/**
 * Presence on one process: `Broadcaster` with the memory driver, and the list the
 * browser's `Echo.applyPresence` folds its frames into.
 *
 * The server side is a value, `Server`, and one function per operation; the class in
 * BroadcasterClass.dfy is proved to compute those functions.
 */
module Presence {
  import opened Options

  // Names, ids and bodies are only ever compared, so plain numbers stand for them.
  type Channel = nat
  type Socket = nat
  type Id = nat
  type Data = nat

  datatype Member = Member(id: Id, info: Data)
  datatype Entry = Entry(socket: Socket, member: Member)

  /** One frame written to a socket. `Event` is any application event, never a `presence.*` one. */
  datatype Frame =
    | Here(channel: Channel, members: seq<Member>)
    | Joined(channel: Channel, member: Member)
    | Left(channel: Channel, member: Member)
    | Event(channel: Channel, body: Data)

  /** What the channel's callback answered for one subscribe. */
  datatype Answer = Refused | Listener | Present(member: Member)

  /**
   * `subscriptions` and `members` are the broadcaster's two maps (a member map keeps
   * insertion order, so it is a sequence); `sent` is everything written to each socket;
   * `announced` is every message handed to `broadcast`, in order.
   */
  datatype Server = Server(
    subscriptions: map<Channel, set<Socket>>,
    members: map<Channel, seq<Entry>>,
    sent: map<Socket, seq<Frame>>,
    announced: seq<Frame>)
  {
    function Listeners(channel: Channel): set<Socket> {
      if channel in subscriptions then subscriptions[channel] else {}
    }

    function Entries(channel: Channel): seq<Entry> {
      if channel in members then members[channel] else []
    }

    function Trace(socket: Socket): seq<Frame> {
      if socket in sent then sent[socket] else []
    }
  }

  const EMPTY_SERVER := Server(map[], map[], map[], [])

  // ------------------------------------------------------------------ lists of members

  function Ids(members: seq<Member>): set<Id> {
    set m | m in members :: m.id
  }

  ghost predicate NoDuplicates(members: seq<Member>) {
    forall i, j :: 0 <= i < j < |members| ==> members[i].id != members[j].id
  }

  function MembersOf(entries: seq<Entry>): seq<Member> {
    seq(|entries|, i requires 0 <= i < |entries| => entries[i].member)
  }

  function Sockets(entries: seq<Entry>): set<Socket> {
    set e | e in entries :: e.socket
  }

  /** A JavaScript map holds each key once. */
  ghost predicate Unique(entries: seq<Entry>) {
    forall i, j :: 0 <= i < j < |entries| ==> entries[i].socket != entries[j].socket
  }

  function PresentIds(entries: seq<Entry>): set<Id> {
    set e | e in entries :: e.member.id
  }

  /** One entry per id, the first one seen. */
  function Distinct(members: seq<Member>): (d: seq<Member>)
    ensures NoDuplicates(d)
    ensures Ids(d) == Ids(members)
    ensures forall m :: m in d ==> m in members
  {
    if members == [] then []
    else
      var front := members[..|members| - 1];
      var last := members[|members| - 1];
      var d := Distinct(front);
      assert members == front + [last];
      assert Ids(members) == Ids(front) + {last.id};
      if last.id in Ids(d) then d
      else
        assert Ids(d + [last]) == Ids(d) + {last.id};
        d + [last]
  }

  /** `Map.set`: an existing socket keeps its place, a new one goes last. */
  function SetEntry(entries: seq<Entry>, socket: Socket, member: Member): (r: seq<Entry>)
    ensures Sockets(r) == Sockets(entries) + {socket}
  {
    if entries == [] then [Entry(socket, member)]
    else
      assert entries == [entries[0]] + entries[1..];
      assert Sockets(entries) == {entries[0].socket} + Sockets(entries[1..]);
      if entries[0].socket == socket then
        var r := [Entry(socket, member)] + entries[1..];
        assert Sockets(r) == {socket} + Sockets(entries[1..]);
        r
      else
        var rest := SetEntry(entries[1..], socket, member);
        assert Sockets([entries[0]] + rest) == {entries[0].socket} + Sockets(rest);
        [entries[0]] + rest
  }

  function DeleteEntry(entries: seq<Entry>, socket: Socket): seq<Entry> {
    if entries == [] then []
    else if entries[0].socket == socket then DeleteEntry(entries[1..], socket)
    else [entries[0]] + DeleteEntry(entries[1..], socket)
  }

  function MemberOf(entries: seq<Entry>, socket: Socket): Option<Member> {
    if entries == [] then None
    else if entries[0].socket == socket then Some(entries[0].member)
    else MemberOf(entries[1..], socket)
  }

  // ------------------------------------------------------------------ the broadcaster

  function Append(sent: map<Socket, seq<Frame>>, to: set<Socket>, frame: Frame): map<Socket, seq<Frame>> {
    map x | x in sent.Keys + to ::
      if x in to then (if x in sent then sent[x] else []) + [frame] else sent[x]
  }

  function Except(sockets: set<Socket>, except: Option<Socket>): set<Socket> {
    if except.Some? then sockets - {except.value} else sockets
  }

  /** `broadcast` without a bus: write to every listener but one. */
  function Deliver(s: Server, frame: Frame, except: Option<Socket>): Server {
    s.(sent := Append(s.sent, Except(s.Listeners(frame.channel), except), frame),
       announced := s.announced + [frame])
  }

  function PresenceOn(s: Server, channel: Channel): seq<Member> {
    Distinct(MembersOf(s.Entries(channel)))
  }

  /** The member is recorded and its socket is sent everybody, itself included. */
  function Welcome(s: Server, socket: Socket, channel: Channel, member: Member): Server {
    var recorded := s.(members := s.members[channel := SetEntry(s.Entries(channel), socket, member)]);
    recorded.(sent := Append(recorded.sent, {socket}, Here(channel, PresenceOn(recorded, channel))))
  }

  function Join(s: Server, socket: Socket, channel: Channel, member: Member): Server {
    var welcomed := Welcome(s, socket, channel, member);
    if member.id in PresentIds(s.Entries(channel)) then welcomed
    else Deliver(welcomed, Joined(channel, member), Some(socket))
  }

  function Listening(s: Server, channel: Channel, sockets: set<Socket>): Server {
    s.(subscriptions := s.subscriptions[channel := sockets])
  }

  function Subscribe(s: Server, socket: Socket, channel: Channel, answer: Answer): Server {
    if answer.Refused? then s
    else
      var listening := Listening(s, channel, s.Listeners(channel) + {socket});
      if answer.Listener? then listening else Join(listening, socket, channel, answer.member)
  }

  function Drop(s: Server, socket: Socket, channel: Channel): Server {
    var rest := DeleteEntry(s.Entries(channel), socket);
    s.(members := if rest == [] then s.members - {channel} else s.members[channel := rest])
  }

  function Leave(s: Server, socket: Socket, channel: Channel): Server {
    var member := MemberOf(s.Entries(channel), socket);
    if member.None? then s
    else
      var dropped := Drop(s, socket, channel);
      if member.value.id in PresentIds(dropped.Entries(channel)) then dropped
      else Deliver(dropped, Left(channel, member.value), None)
  }

  function Unsubscribe(s: Server, socket: Socket, channel: Channel): Server {
    if channel !in s.subscriptions then s
    else
      var rest := s.subscriptions[channel] - {socket};
      var left := Leave(Listening(s, channel, rest), socket, channel);
      if rest == {} then left.(subscriptions := left.subscriptions - {channel}) else left
  }

  function Visited(order: seq<Channel>): set<Channel> {
    set channel | channel in order
  }

  /** `forget` over the channels in the order the map lists them. */
  function Forget(s: Server, socket: Socket, channels: seq<Channel>): Server
    decreases |channels|
  {
    if channels == [] then s
    else Forget(Unsubscribe(s, socket, channels[0]), socket, channels[1..])
  }

  // ------------------------------------------------------------------ the browser

  /** `applyPresence` on the channel's list. */
  function Apply(list: seq<Member>, frame: Frame): seq<Member> {
    match frame
    case Here(_, members) => members
    case Joined(_, member) => if member.id in Ids(list) then list else list + [member]
    case Left(_, member) => Without(list, member.id)
    case Event(_, _) => list
  }

  function Without(list: seq<Member>, id: Id): seq<Member> {
    if list == [] then []
    else if list[0].id == id then Without(list[1..], id)
    else [list[0]] + Without(list[1..], id)
  }

  /** The list a browser holds for one channel after a trace of frames. */
  function Folded(trace: seq<Frame>, channel: Channel): seq<Member> {
    if trace == [] then []
    else
      var before := Folded(trace[..|trace| - 1], channel);
      var frame := trace[|trace| - 1];
      if frame.channel == channel then Apply(before, frame) else before
  }

  // ------------------------------------------------------------------ runs

  /**
   * What a run is told: which channels were declared with `presence()`, and the id the
   * callback gives one socket's user on one channel.
   */
  datatype Config = Config(presence: Channel -> bool, id: (Channel, Socket) -> Id)

  datatype Step =
    | DoSubscribe(socket: Socket, channel: Channel, answer: Answer)
    | DoUnsubscribe(socket: Socket, channel: Channel)
    | DoForget(socket: Socket, order: seq<Channel>)
    | DoBroadcast(frame: Frame, except: Option<Socket>)

  ghost predicate Allowed(c: Config, s: Server, step: Step) {
    match step
    case DoSubscribe(socket, channel, answer) =>
      (answer.Listener? ==> !c.presence(channel)) &&
      (answer.Present? ==> c.presence(channel) && answer.member.id == c.id(channel, socket))
    case DoUnsubscribe(_, _) => true
    case DoForget(_, order) => Visited(order) == s.subscriptions.Keys
    case DoBroadcast(frame, _) => frame.Event?
  }

  function Take(s: Server, step: Step): Server {
    match step
    case DoSubscribe(socket, channel, answer) => Subscribe(s, socket, channel, answer)
    case DoUnsubscribe(socket, channel) => Unsubscribe(s, socket, channel)
    case DoForget(socket, order) => Forget(s, socket, order)
    case DoBroadcast(frame, except) => Deliver(s, frame, except)
  }

  function Run(s: Server, steps: seq<Step>): Server
    decreases |steps|
  {
    if steps == [] then s else Run(Take(s, steps[0]), steps[1..])
  }

  ghost predicate AllowedRun(c: Config, s: Server, steps: seq<Step>)
    decreases |steps|
  {
    steps != [] ==> Allowed(c, s, steps[0]) && AllowedRun(c, Take(s, steps[0]), steps[1..])
  }

  // ------------------------------------------------------------------ the invariant

  /** The member map of one channel agrees with its subscriptions and with the config. */
  ghost predicate Recorded(c: Config, s: Server, channel: Channel) {
    && (channel in s.members ==> c.presence(channel))
    && Unique(s.Entries(channel))
    && (c.presence(channel) ==> Sockets(s.Entries(channel)) == s.Listeners(channel))
    && (forall e :: e in s.Entries(channel) ==> e.member.id == c.id(channel, e.socket))
  }

  /** The list one browser shows is duplicate-free and has exactly the ids present. */
  ghost predicate Shows(s: Server, socket: Socket, channel: Channel) {
    var list := Folded(s.Trace(socket), channel);
    NoDuplicates(list) && Ids(list) == PresentIds(s.Entries(channel))
  }

  /** What was announced about one person on one channel: true for arrived, false for gone. */
  function Told(announced: seq<Frame>, channel: Channel, id: Id): seq<bool> {
    if announced == [] then []
    else
      var before := Told(announced[..|announced| - 1], channel, id);
      var last := announced[|announced| - 1];
      if last.Joined? && last.channel == channel && last.member.id == id then before + [true]
      else if last.Left? && last.channel == channel && last.member.id == id then before + [false]
      else before
  }

  /** Arrivals and departures take turns, an arrival first. */
  ghost predicate Alternates(told: seq<bool>) {
    forall i :: 0 <= i < |told| ==> told[i] == (i % 2 == 0)
  }

  ghost predicate Announced(s: Server, channel: Channel, id: Id) {
    var told := Told(s.announced, channel, id);
    Alternates(told) && (id in PresentIds(s.Entries(channel)) <==> |told| % 2 == 1)
  }

  ghost predicate AllRecorded(c: Config, s: Server) {
    forall channel :: Recorded(c, s, channel)
  }

  ghost predicate AllShow(c: Config, s: Server) {
    forall channel, socket :: c.presence(channel) && socket in s.Listeners(channel) ==> Shows(s, socket, channel)
  }

  ghost predicate AllAnnounced(s: Server) {
    forall channel, id :: Announced(s, channel, id)
  }

  ghost predicate Inv(c: Config, s: Server) {
    AllRecorded(c, s) && AllShow(c, s) && AllAnnounced(s)
  }
}
