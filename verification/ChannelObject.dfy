/** One end of the channel as relay/public/channel.js keeps it: the session, and the links of
    the two promise chains that have not run yet. */
module ChannelObject {
  import opened Hex
  import opened Noise
  import opened NoiseSession

  class ChannelEnd {
    const session: Session
    /** The socket's ready state is OPEN. */
    var open: bool
    var outgoing: seq<Bytes>
    var incoming: seq<Message>
    /** What `onFrame` was given. */
    var handed: seq<Bytes>
    var failed: bool
    ghost var calls: nat
    ghost var receiver: Receiver

    ghost predicate Valid()
      reads this, session, session.send, session.receive
    {
      && session.send != session.receive
      && session.send.n == Counter(calls)
      && session.Receives(receiver)
    }

    ghost function Far(): Opened
      reads this
    {
      Opened(receiver, handed, failed)
    }

    constructor (send: Key, receive: Key)
      ensures Valid() && fresh(session) && fresh(session.send) && fresh(session.receive)
      ensures session.send.key == send && calls == 0
      ensures Far() == Opened(NewReceiver(receive), [], false)
      ensures open && outgoing == [] && incoming == []
    {
      var s := new CipherState(send);
      var r := new CipherState(receive);
      session := new Session(s, r);
      open, failed := true, false;
      outgoing, incoming, handed := [], [], [];
      calls, receiver := 0, NewReceiver(receive);
    }

    method Send(frame: Bytes)
      requires Valid()
      modifies this`outgoing
      ensures Valid() && outgoing == old(outgoing) + [frame]
    {
      outgoing := outgoing + [frame];
    }

    /** The next link of the outgoing chain; what it seals goes out only on an open socket. */
    method RunOutgoing() returns (out: seq<Message>)
      requires Valid() && outgoing != []
      modifies this`outgoing, this`calls, session.send
      ensures Valid() && outgoing == old(outgoing)[1..]
      ensures calls == old(calls) + |Pieces(old(outgoing)[0])|
      ensures out == if open then SealAll(session.send.key, old(calls), Pieces(old(outgoing)[0])) else []
    {
      var frame := outgoing[0];
      outgoing := outgoing[1..];
      var messages := session.Seal(frame, calls);
      calls := calls + |Pieces(frame)|;
      out := if open then messages else [];
    }

    method MessageArrived(m: Message)
      requires Valid()
      modifies this`incoming
      ensures Valid() && incoming == old(incoming) + [m]
    {
      incoming := incoming + [m];
    }

    /** The next link of the incoming chain; a message that does not open closes the socket. */
    method RunIncoming()
      requires Valid() && incoming != []
      modifies this`incoming, this`handed, this`failed, this`open, this`receiver, session, session.receive
      ensures Valid() && incoming == old(incoming)[1..]
      ensures Far() == After(old(Far()), old(incoming)[0])
      ensures open == (old(open) && !Open(old(receiver), old(incoming)[0]).1.Failed?)
    {
      var m := incoming[0];
      incoming := incoming[1..];
      var o := session.OpenMessage(m, receiver);
      receiver := Open(receiver, m).0;
      match o
      case Frame(bytes) => handed := handed + [bytes];
      case Pending =>
      case Failed =>
        failed := true;
        open := false;
    }
  }
}
