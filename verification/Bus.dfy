/**
 * Several processes on one totally ordered bus. A broadcast is only published; every
 * process, the publisher included, writes to its own sockets when the message comes back.
 */
module Bus {
  import opened Options
  import opened Presence

  datatype Message = Message(frame: Frame, except: Option<Socket>)

  /** One broadcaster per process, the log, and how far each process has read it. */
  datatype State = State(processes: seq<Server>, read: seq<nat>, log: seq<Message>)

  ghost predicate Valid(s: State) {
    && |s.read| == |s.processes|
    && (forall p :: 0 <= p < |s.read| ==> s.read[p] <= |s.log|)
    && (forall k :: 0 <= k < |s.log| ==> !s.log[k].frame.Here?)
  }

  /**
   * `Listen`, `Record`, `ShowList` and `Publish` are the pieces of `subscribe` and `join`,
   * which awaits between them; `Unlisten`, `Record` and `Publish` those of `unsubscribe`.
   */
  datatype Step =
    | Publish(message: Message)
    | Receive(process: nat)
    | Listen(process: nat, socket: Socket, channel: Channel)
    | Unlisten(process: nat, socket: Socket, channel: Channel)
    | Record(process: nat, channel: Channel, entries: seq<Entry>)
    | ShowList(process: nat, socket: Socket, channel: Channel, list: seq<Member>)

  ghost predicate Enabled(s: State, step: Step)
    requires Valid(s)
  {
    match step
    case Publish(message) => !message.frame.Here?
    case Receive(p) => p < |s.processes| && s.read[p] < |s.log|
    case Listen(p, _, _) => p < |s.processes|
    case Unlisten(p, _, _) => p < |s.processes|
    case Record(p, _, _) => p < |s.processes|
    case ShowList(p, _, _, _) => p < |s.processes|
  }

  function Next(s: State, step: Step): State
    requires Valid(s) && Enabled(s, step)
  {
    match step
    case Publish(message) => s.(log := s.log + [message])
    case Receive(p) =>
      var m := s.log[s.read[p]];
      s.(processes := s.processes[p := Deliver(s.processes[p], m.frame, m.except)],
         read := s.read[p := s.read[p] + 1])
    case Listen(p, x, ch) =>
      var server := s.processes[p];
      s.(processes := s.processes[p := Listening(server, ch, server.Listeners(ch) + {x})])
    case Unlisten(p, x, ch) =>
      var server := s.processes[p];
      s.(processes := s.processes[p := Listening(server, ch, server.Listeners(ch) - {x})])
    case Record(p, ch, entries) =>
      s.(processes := s.processes[p := s.processes[p].(members := s.processes[p].members[ch := entries])])
    case ShowList(p, x, ch, list) =>
      var server := s.processes[p];
      s.(processes := s.processes[p := server.(sent := Append(server.sent, {x}, Here(ch, list)))])
  }

  ghost predicate Trace(states: seq<State>, steps: seq<Step>) {
    && |states| == |steps| + 1
    && Valid(states[0])
    && (forall i {:trigger steps[i]} :: 0 <= i < |steps| ==>
          Valid(states[i]) && Enabled(states[i], steps[i]) && states[i + 1] == Next(states[i], steps[i]))
  }

  /** The broadcasts of one channel a socket has been written; a `here` list is not one. */
  function Broadcasts(trace: seq<Frame>, channel: Channel): seq<Frame> {
    if trace == [] then []
    else
      var last := trace[|trace| - 1];
      Broadcasts(trace[..|trace| - 1], channel)
        + (if last.channel == channel && !last.Here? then [last] else [])
  }

  /** What one message of the log says to a listener. */
  function News(m: Message, channel: Channel, socket: Socket): seq<Frame> {
    if m.frame.channel == channel && m.except != Some(socket) then [m.frame] else []
  }

  /** What a stretch of the log says to one listener of a channel. */
  function Wanted(log: seq<Message>, channel: Channel, socket: Socket): seq<Frame> {
    if log == [] then []
    else Wanted(log[..|log| - 1], channel, socket) + News(log[|log| - 1], channel, socket)
  }

  function Received(s: State, p: nat, channel: Channel, socket: Socket): seq<Frame>
    requires p < |s.processes|
  {
    Broadcasts(s.processes[p].Trace(socket), channel)
  }

  lemma BroadcastsStep(trace: seq<Frame>, frame: Frame, channel: Channel)
    ensures Broadcasts(trace + [frame], channel)
         == Broadcasts(trace, channel) + (if frame.channel == channel && !frame.Here? then [frame] else [])
  {
    assert (trace + [frame])[..|trace|] == trace;
  }

  lemma NextIsValid(s: State, step: Step)
    requires Valid(s) && Enabled(s, step)
    ensures Valid(Next(s, step)) && |Next(s, step).processes| == |s.processes|
    ensures s.log <= Next(s, step).log
  {}

  lemma DeliveredTrace(server: Server, m: Message, socket: Socket)
    ensures Deliver(server, m.frame, m.except).Trace(socket)
         == if socket in server.Listeners(m.frame.channel) && m.except != Some(socket)
            then server.Trace(socket) + [m.frame] else server.Trace(socket)
  {}

  lemma ShownTrace(server: Server, x: Socket, frame: Frame, socket: Socket)
    ensures server.(sent := Append(server.sent, {x}, frame)).Trace(socket)
         == if socket == x then server.Trace(socket) + [frame] else server.Trace(socket)
  {}

  /** Only receiving off the bus writes a broadcast to anybody, and only on that process. */
  lemma OnlyReceiptDelivers(s: State, step: Step, p: nat, channel: Channel, socket: Socket)
    requires Valid(s) && Enabled(s, step) && p < |s.processes|
    requires step != Receive(p)
    ensures Received(Next(s, step), p, channel, socket) == Received(s, p, channel, socket)
    ensures Next(s, step).read[p] == s.read[p]
  {
    if step.ShowList? && step.process == p {
      ShownTrace(s.processes[p], step.socket, Here(step.channel, step.list), socket);
      BroadcastsStep(s.processes[p].Trace(socket), Here(step.channel, step.list), channel);
    }
  }

  lemma ReceiptDelivers(s: State, p: nat, channel: Channel, socket: Socket)
    requires Valid(s) && Enabled(s, Receive(p)) && socket in s.processes[p].Listeners(channel)
    ensures Received(Next(s, Receive(p)), p, channel, socket)
         == Received(s, p, channel, socket) + News(s.log[s.read[p]], channel, socket)
  {
    var m := s.log[s.read[p]];
    DeliveredTrace(s.processes[p], m, socket);
    BroadcastsStep(s.processes[p].Trace(socket), m.frame, channel);
  }

  lemma WantedStep(log: seq<Message>, from: nat, to: nat, channel: Channel, socket: Socket)
    requires from <= to < |log|
    ensures Wanted(log[from..to + 1], channel, socket)
         == Wanted(log[from..to], channel, socket) + News(log[to], channel, socket)
  {
    assert log[from..to + 1][..to - from] == log[from..to];
  }

  ghost predicate ListensThroughout(states: seq<State>, i: nat, j: nat, p: nat, channel: Channel, socket: Socket)
    requires i <= j < |states|
  {
    forall k :: i <= k <= j ==> p < |states[k].processes| && socket in states[k].processes[p].Listeners(channel)
  }

  /** From `s` to `t` a socket was sent what its process read of the log, less what excepts it. */
  ghost predicate SentTheLog(s: State, t: State, p: nat, channel: Channel, socket: Socket) {
    && Valid(s) && Valid(t) && s.log <= t.log
    && p < |s.processes| && p < |t.processes| && s.read[p] <= t.read[p]
    && Received(t, p, channel, socket)
       == Received(s, p, channel, socket) + Wanted(t.log[s.read[p]..t.read[p]], channel, socket)
  }

  lemma OneMoreWanted(log: seq<Message>, from: nat, to: nat, channel: Channel, socket: Socket, before: seq<Frame>,
                      sent: seq<Frame>)
    requires from <= to < |log| && sent == before + Wanted(log[from..to], channel, socket)
    ensures sent + News(log[to], channel, socket) == before + Wanted(log[from..to + 1], channel, socket)
  {
    WantedStep(log, from, to, channel, socket);
    var wanted, news := Wanted(log[from..to], channel, socket), News(log[to], channel, socket);
    assert (before + wanted) + news == before + (wanted + news);
  }

  lemma SentAndOneMore(s: State, t: State, u: State, p: nat, channel: Channel, socket: Socket)
    requires SentTheLog(s, t, p, channel, socket) && t.read[p] < |t.log|
    requires Valid(u) && u.log == t.log && p < |u.processes| && u.read[p] == t.read[p] + 1
    requires Received(u, p, channel, socket)
          == Received(t, p, channel, socket) + News(t.log[t.read[p]], channel, socket)
    ensures SentTheLog(s, u, p, channel, socket)
  {
    OneMoreWanted(t.log, s.read[p], t.read[p], channel, socket, Received(s, p, channel, socket),
                  Received(t, p, channel, socket));
  }

  lemma SentByReceipt(s: State, t: State, p: nat, channel: Channel, socket: Socket)
    requires SentTheLog(s, t, p, channel, socket) && Enabled(t, Receive(p))
    requires socket in t.processes[p].Listeners(channel)
    ensures SentTheLog(s, Next(t, Receive(p)), p, channel, socket)
  {
    NextIsValid(t, Receive(p));
    ReceiptDelivers(t, p, channel, socket);
    SentAndOneMore(s, t, Next(t, Receive(p)), p, channel, socket);
  }

  lemma SentOneMore(s: State, t: State, step: Step, p: nat, channel: Channel, socket: Socket)
    requires SentTheLog(s, t, p, channel, socket) && Enabled(t, step)
    requires socket in t.processes[p].Listeners(channel)
    ensures SentTheLog(s, Next(t, step), p, channel, socket)
  {
    if step == Receive(p) {
      SentByReceipt(s, t, p, channel, socket);
    } else {
      NextIsValid(t, step);
      OnlyReceiptDelivers(t, step, p, channel, socket);
      assert Next(t, step).log[s.read[p]..t.read[p]] == t.log[s.read[p]..t.read[p]];
    }
  }

  /**
   * While a socket listens, what it is sent is what its process read of the log: the same
   * messages, in log order, less the ones that except it.
   */
  lemma {:induction false} ReceivesTheLog(states: seq<State>, steps: seq<Step>, i: nat, j: nat,
                                          p: nat, channel: Channel, socket: Socket)
    requires Trace(states, steps) && i <= j <= |steps|
    requires ListensThroughout(states, i, j, p, channel, socket)
    ensures SentTheLog(states[i], states[j], p, channel, socket)
    decreases j - i
  {
    if i == j {
      AllValid(states, steps, i);
      SentNothing(states[i], p, channel, socket);
    } else {
      ReceivesTheLog(states, steps, i, j - 1, p, channel, socket);
      assert Enabled(states[j - 1], steps[j - 1]);
      SentOneMore(states[i], states[j - 1], steps[j - 1], p, channel, socket);
    }
  }

  lemma SentNothing(s: State, p: nat, channel: Channel, socket: Socket)
    requires Valid(s) && p < |s.processes|
    ensures SentTheLog(s, s, p, channel, socket)
  {
    assert s.log[s.read[p]..s.read[p]] == [];
    var received := Received(s, p, channel, socket);
    assert received + [] == received;
  }

  lemma AllValid(states: seq<State>, steps: seq<Step>, i: nat)
    requires Trace(states, steps) && i <= |steps|
    ensures Valid(states[i])
  {
    if i > 0 {
      NextIsValid(states[i - 1], steps[i - 1]);
    }
  }

  lemma {:induction false} WantedByBoth(log: seq<Message>, channel: Channel, x: Socket, y: Socket)
    requires forall k :: 0 <= k < |log| ==> log[k].except != Some(x) && log[k].except != Some(y)
    ensures Wanted(log, channel, x) == Wanted(log, channel, y)
  {
    if log != [] {
      WantedByBoth(log[..|log| - 1], channel, x, y);
    }
  }

  /**
   * Two sockets on any two processes that listen while their processes read the same
   * stretch of the log are sent the same broadcasts in the same order, unless a message
   * there excepts one of them.
   */
  lemma SameStretchSameBroadcasts(states: seq<State>, steps: seq<Step>, channel: Channel,
                                  p: nat, x: Socket, i: nat, j: nat,
                                  q: nat, y: Socket, k: nat, l: nat)
    requires Trace(states, steps) && i <= j <= |steps| && k <= l <= |steps|
    requires ListensThroughout(states, i, j, p, channel, x) && ListensThroughout(states, k, l, q, channel, y)
    requires p < |states[i].read| && p < |states[j].read| && q < |states[k].read| && q < |states[l].read|
    requires states[i].read[p] == states[k].read[q] && states[j].read[p] == states[l].read[q]
    requires forall n :: states[i].read[p] <= n < states[j].read[p] && n < |states[|steps|].log| ==>
               states[|steps|].log[n].except != Some(x) && states[|steps|].log[n].except != Some(y)
    ensures exists news: seq<Frame> ::
              && Received(states[j], p, channel, x) == Received(states[i], p, channel, x) + news
              && Received(states[l], q, channel, y) == Received(states[k], q, channel, y) + news
  {
    ReceivesTheLog(states, steps, i, j, p, channel, x);
    ReceivesTheLog(states, steps, k, l, q, channel, y);
    LogGrows(states, steps, j, |steps|);
    LogGrows(states, steps, l, |steps|);
    var from, to := states[i].read[p], states[j].read[p];
    var stretch := states[|steps|].log[from..to];
    assert states[j].log[from..to] == stretch && states[l].log[from..to] == stretch;
    WantedByBoth(stretch, channel, x, y);
  }

  lemma {:induction false} LogGrows(states: seq<State>, steps: seq<Step>, i: nat, j: nat)
    requires Trace(states, steps) && i <= j <= |steps|
    ensures states[i].log <= states[j].log
    decreases j - i
  {
    if i < j {
      LogGrows(states, steps, i, j - 1);
      NextIsValid(states[j - 1], steps[j - 1]);
    }
  }

  // ------------------------------------------------------------------ what a run amounts to

  /** `n` processes that have read nothing of an empty log. */
  function Start(n: nat): State {
    State(seq(n, _ => EMPTY_SERVER), seq(n, _ => 0), [])
  }

  /** The log is what was published, in that order. */
  function Published(steps: seq<Step>): seq<Message> {
    if steps == [] then []
    else
      var last := steps[|steps| - 1];
      Published(steps[..|steps| - 1]) + if last.Publish? then [last.message] else []
  }

  function ReadBy(steps: seq<Step>, p: nat): nat {
    if steps == [] then 0
    else ReadBy(steps[..|steps| - 1], p) + if steps[|steps| - 1] == Receive(p) then 1 else 0
  }

  /** The last word about the socket and the channel there. */
  predicate Listens(steps: seq<Step>, p: nat, channel: Channel, socket: Socket) {
    if steps == [] then false
    else
      var last := steps[|steps| - 1];
      if last == Listen(p, socket, channel) then true
      else if last == Unlisten(p, socket, channel) then false
      else Listens(steps[..|steps| - 1], p, channel, socket)
  }

  function Recorded(steps: seq<Step>, p: nat, channel: Channel): seq<Entry> {
    if steps == [] then []
    else
      var last := steps[|steps| - 1];
      if last.Record? && last.process == p && last.channel == channel then last.entries
      else Recorded(steps[..|steps| - 1], p, channel)
  }

  /** What a step writes to a socket, after the steps before it. */
  function Written(front: seq<Step>, step: Step, p: nat, socket: Socket): seq<Frame> {
    if step == Receive(p) && ReadBy(front, p) < |Published(front)| then
      var m := Published(front)[ReadBy(front, p)];
      if Listens(front, p, m.frame.channel, socket) && m.except != Some(socket) then [m.frame] else []
    else if step.ShowList? && step.process == p && step.socket == socket then [Here(step.channel, step.list)]
    else []
  }

  function Sent(steps: seq<Step>, p: nat, socket: Socket): seq<Frame> {
    if steps == [] then []
    else
      var front := steps[..|steps| - 1];
      Sent(front, p, socket) + Written(front, steps[|steps| - 1], p, socket)
  }

  ghost predicate ServerStands(steps: seq<Step>, server: Server, p: nat) {
    && (forall channel, socket :: socket in server.Listeners(channel) <==> Listens(steps, p, channel, socket))
    && (forall channel :: server.Entries(channel) == Recorded(steps, p, channel))
    && (forall socket :: server.Trace(socket) == Sent(steps, p, socket))
  }

  ghost predicate Stands(steps: seq<Step>, s: State) {
    && Valid(s) && s.log == Published(steps)
    && (forall p :: 0 <= p < |s.read| ==> s.read[p] == ReadBy(steps, p))
    && (forall p :: 0 <= p < |s.processes| ==> ServerStands(steps, s.processes[p], p))
  }

  lemma Snoc(front: seq<Step>, step: Step, p: nat)
    ensures var steps := front + [step];
            && steps[..|steps| - 1] == front && steps[|steps| - 1] == step
            && Published(steps) == Published(front) + (if step.Publish? then [step.message] else [])
            && ReadBy(steps, p) == ReadBy(front, p) + if step == Receive(p) then 1 else 0
  {
    assert (front + [step])[..|front|] == front;
  }

  lemma ListensSnoc(front: seq<Step>, step: Step, p: nat, channel: Channel, socket: Socket)
    ensures Listens(front + [step], p, channel, socket)
       <==> step == Listen(p, socket, channel)
            || (step != Unlisten(p, socket, channel) && Listens(front, p, channel, socket))
  {
    Snoc(front, step, p);
  }

  lemma RecordedSnoc(front: seq<Step>, step: Step, p: nat, channel: Channel)
    ensures Recorded(front + [step], p, channel)
         == if step.Record? && step.process == p && step.channel == channel then step.entries
            else Recorded(front, p, channel)
  {
    Snoc(front, step, p);
  }

  lemma SentSnoc(front: seq<Step>, step: Step, p: nat, socket: Socket)
    ensures Sent(front + [step], p, socket) == Sent(front, p, socket) + Written(front, step, p, socket)
  {
    Snoc(front, step, p);
  }

  /** What a step writes to one socket of one process. */
  lemma WritesToSocket(front: seq<Step>, s: State, step: Step, p: nat, socket: Socket)
    requires Stands(front, s) && Enabled(s, step) && p < |s.processes|
    ensures Next(s, step).processes[p].Trace(socket) == Sent(front, p, socket) + Written(front, step, p, socket)
  {
    var sent := Sent(front, p, socket);
    assert s.processes[p].Trace(socket) == sent && sent + [] == sent;
    if step == Receive(p) {
      DeliveredTrace(s.processes[p], s.log[s.read[p]], socket);
    } else if step.ShowList? && step.process == p {
      ShownTrace(s.processes[p], step.socket, Here(step.channel, step.list), socket);
    }
  }

  lemma ChangesListeners(front: seq<Step>, s: State, step: Step, p: nat, channel: Channel, socket: Socket)
    requires Stands(front, s) && Enabled(s, step) && p < |s.processes|
    ensures socket in Next(s, step).processes[p].Listeners(channel) <==> Listens(front + [step], p, channel, socket)
    ensures Next(s, step).processes[p].Entries(channel) == Recorded(front + [step], p, channel)
  {
    ListensSnoc(front, step, p, channel, socket);
    RecordedSnoc(front, step, p, channel);
    assert socket in s.processes[p].Listeners(channel) <==> Listens(front, p, channel, socket);
    assert s.processes[p].Entries(channel) == Recorded(front, p, channel);
  }

  lemma NextStands(front: seq<Step>, s: State, step: Step)
    requires Stands(front, s) && Enabled(s, step)
    ensures Stands(front + [step], Next(s, step))
  {
    var t := Next(s, step);
    NextIsValid(s, step);
    Snoc(front, step, 0);
    forall p | 0 <= p < |t.read| ensures t.read[p] == ReadBy(front + [step], p) {
      Snoc(front, step, p);
    }
    forall p: nat | p < |t.processes| ensures ServerStands(front + [step], t.processes[p], p) {
      forall channel, socket
        ensures socket in t.processes[p].Listeners(channel) <==> Listens(front + [step], p, channel, socket)
        ensures t.processes[p].Entries(channel) == Recorded(front + [step], p, channel)
      {
        ChangesListeners(front, s, step, p, channel, socket);
      }
      forall socket ensures t.processes[p].Trace(socket) == Sent(front + [step], p, socket) {
        WritesToSocket(front, s, step, p, socket);
        SentSnoc(front, step, p, socket);
      }
    }
  }

  lemma {:induction false} TraceStands(states: seq<State>, steps: seq<Step>, n: nat, i: nat)
    requires Trace(states, steps) && states[0] == Start(n) && i <= |steps|
    ensures Stands(steps[..i], states[i])
  {
    if i > 0 {
      TraceStands(states, steps, n, i - 1);
      NextStands(steps[..i - 1], states[i - 1], steps[i - 1]);
      assert steps[..i] == steps[..i - 1] + [steps[i - 1]];
    }
  }

  /**
   * In every run of processes that start with nothing, the log is what was published, a
   * socket listens where the last word was that it should, and it was sent just the lists
   * shown to it and, as its process read them, the messages for channels it listened to.
   */
  lemma EverySocketIsSentItsOwn(states: seq<State>, steps: seq<Step>, n: nat, p: nat, channel: Channel, socket: Socket)
    requires Trace(states, steps) && states[0] == Start(n) && p < n
    ensures var s := states[|steps|];
            && s.log == Published(steps)
            && |s.processes| == |s.read| == n && s.read[p] == ReadBy(steps, p)
            && (socket in s.processes[p].Listeners(channel) <==> Listens(steps, p, channel, socket))
            && s.processes[p].Entries(channel) == Recorded(steps, p, channel)
            && s.processes[p].Trace(socket) == Sent(steps, p, socket)
  {
    TraceStands(states, steps, n, |steps|);
    assert steps[..|steps|] == steps;
    ProcessesStay(states, steps, |steps|);
  }

  lemma {:induction false} ProcessesStay(states: seq<State>, steps: seq<Step>, i: nat)
    requires Trace(states, steps) && i <= |steps|
    ensures |states[i].processes| == |states[0].processes|
  {
    if i > 0 {
      ProcessesStay(states, steps, i - 1);
      NextIsValid(states[i - 1], steps[i - 1]);
    }
  }
}
