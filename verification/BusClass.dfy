/**
 * A broadcaster with a bus: it publishes and leaves its own sockets alone, and writes to
 * them only when a message comes round on the log.
 */
module BusClass {
  import opened Options
  import opened Presence
  import opened Bus
  import opened BroadcasterClass

  /** The log every process publishes to and reads from. */
  class SharedLog {
    var messages: seq<Message>

    constructor ()
      ensures messages == []
    {
      messages := [];
    }
  }

  class Process {
    const log: SharedLog
    const local: Broadcaster
    var read: nat

    /** This process as the only one of a system. */
    ghost function View(): State
      reads this, log, local
    {
      State([local.View()], [read], log.messages)
    }

    ghost predicate Sound()
      reads this, log, local
    {
      Valid(View())
    }

    constructor (log: SharedLog, local: Broadcaster)
      ensures this.log == log && this.local == local && read == |log.messages|
    {
      this.log, this.local, read := log, local, |log.messages|;
    }

    /** Nothing is written here; what comes back counts nothing. */
    method Broadcast(message: Message) returns (count: nat)
      requires Sound() && Enabled(View(), Publish(message))
      modifies log
      ensures Sound() && View() == Next(old(View()), Publish(message)) && count == 0
    {
      NextIsValid(View(), Publish(message));
      log.messages := log.messages + [message];
      count := 0;
    }

    /** One message off the bus, whoever published it. */
    method Receive()
      requires Sound() && Enabled(View(), Bus.Receive(0))
      modifies `read, local
      ensures Sound() && View() == Next(old(View()), Bus.Receive(0))
    {
      NextIsValid(View(), Bus.Receive(0));
      var m := log.messages[read];
      read := read + 1;
      var _ := local.Broadcast(m.frame, m.except);
    }
  }
}
