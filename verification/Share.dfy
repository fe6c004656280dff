/** A shared tab from end to end: frames sealed by one side, carried by the room among whatever
    else happens in it, and opened by the other.

    `wire` gives a sealed message's bytes, and `read` what bytes are to the one who gets them. */
module Share {
  import opened Hex
  import opened RoomSafety
  import opened RoomFifo
  import Channel
  import Noise
  import Room

  type Wire = Noise.Message -> Bytes
  type Reading = Bytes -> Noise.Message

  /** The bytes of these messages are as long as the messages and are read as them again. */
  ghost predicate Carried(wire: Wire, read: Reading, messages: seq<Noise.Message>)
  {
    forall i :: 0 <= i < |messages| ==>
      |wire(messages[i])| == Noise.Length(messages[i]) && read(wire(messages[i])) == messages[i]
  }

  function Wires(wire: Wire, messages: seq<Noise.Message>): seq<Bytes>
  {
    seq(|messages|, i requires 0 <= i < |messages| => wire(messages[i]))
  }

  // ---- what either side hands the room -----------------------------------------------------------

  /** What a host's messages carry for the guest `id`, of any length. */
  function BodiesFor(sent: seq<Room.Message>, id: string): seq<Bytes>
  {
    if sent == [] then []
    else
      var m := sent[|sent| - 1];
      BodiesFor(sent[..|sent| - 1], id)
      + if m.Binary? && |m.body| >= Room.ID_BYTES && ToHex(m.body[..Room.ID_BYTES]) == id
        then [m.body[Room.ID_BYTES..]] else []
  }

  /** What a guest's messages carry; its texts carry nothing. */
  function Bodies(sent: seq<Room.Message>): seq<Bytes>
  {
    if sent == [] then []
    else
      var m := sent[|sent| - 1];
      Bodies(sent[..|sent| - 1]) + if m.Binary? then [m.body] else []
  }

  predicate Fit(bodies: seq<Bytes>) { forall i :: 0 <= i < |bodies| ==> 0 < |bodies[i]| <= Room.MAX_NOISE }

  function Datas(id: Bytes, bodies: seq<Bytes>): seq<Room.Note>
  {
    seq(|bodies|, i requires 0 <= i < |bodies| => Room.Data(id + bodies[i]))
  }

  lemma FitInit(bodies: seq<Bytes>, last: seq<Bytes>)
    requires Fit(bodies + last)
    ensures Fit(bodies) && Fit(last)
  {
    assert forall i :: 0 <= i < |bodies| ==> (bodies + last)[i] == bodies[i];
    assert forall i :: 0 <= i < |last| ==> (bodies + last)[|bodies| + i] == last[i];
  }

  lemma {:induction false} AddressedIsBodies(sent: seq<Room.Message>, id: string)
    requires Fit(BodiesFor(sent, id))
    ensures Addressed(sent, id) == Datas([], BodiesFor(sent, id))
  {
    if sent != [] {
      var init, m := sent[..|sent| - 1], sent[|sent| - 1];
      var last := if m.Binary? && |m.body| >= Room.ID_BYTES && ToHex(m.body[..Room.ID_BYTES]) == id
                  then [m.body[Room.ID_BYTES..]] else [];
      FitInit(BodiesFor(init, id), last);
      AddressedIsBodies(init, id);
      if last != [] {
        assert [] + last[0] == last[0];
        assert 0 < |last[0]| <= Room.MAX_NOISE;
      }
      assert Body(m, id) == Datas([], last);
    }
  }

  lemma {:induction false} TaggedIsBodies(sent: seq<Room.Message>, id: string)
    requires Fit(Bodies(sent))
    ensures Tagged(sent, id) == Datas(FromHex(id), Bodies(sent))
  {
    if sent != [] {
      var init, m := sent[..|sent| - 1], sent[|sent| - 1];
      var last := if m.Binary? then [m.body] else [];
      FitInit(Bodies(init), last);
      TaggedIsBodies(init, id);
      if last != [] {
        assert 0 < |last[0]| <= Room.MAX_NOISE;
      }
      assert Tag(m, id) == Datas(FromHex(id), last);
    }
  }

  // ---- what the other side makes of it --------------------------------------------------------------

  /** The messages among what a socket received, each without its first `skip` bytes. */
  function Reads(read: Reading, notes: seq<Room.Note>, skip: nat): seq<Noise.Message>
  {
    if notes == [] then []
    else
      var n := notes[|notes| - 1];
      Reads(read, notes[..|notes| - 1], skip)
      + if n.Data? && |n.bytes| >= skip then [read(n.bytes[skip..])] else []
  }

  lemma ReadsAppend(read: Reading, notes: seq<Room.Note>, n: Room.Note, skip: nat)
    ensures Reads(read, notes + [n], skip)
         == Reads(read, notes, skip) + if n.Data? && |n.bytes| >= skip then [read(n.bytes[skip..])] else []
  {
    assert (notes + [n])[..|notes|] == notes;
  }

  function ReadAll(read: Reading, bodies: seq<Bytes>): seq<Noise.Message>
  {
    seq(|bodies|, i requires 0 <= i < |bodies| => read(bodies[i]))
  }

  lemma DatasGrow(notes: seq<Room.Note>, id: Bytes, init: seq<Bytes>, b: Bytes)
    ensures notes + Datas(id, init + [b]) == notes + Datas(id, init) + [Room.Data(id + b)]
  {
    assert Datas(id, init + [b]) == Datas(id, init) + [Room.Data(id + b)];
  }

  lemma {:induction false} ReadsOfDatas(read: Reading, notes: seq<Room.Note>, id: Bytes, bodies: seq<Bytes>)
    requires Reads(read, notes, |id|) == []
    ensures Reads(read, notes + Datas(id, bodies), |id|) == ReadAll(read, bodies)
  {
    if bodies == [] {
      assert notes + Datas(id, bodies) == notes;
    } else {
      var init, b := bodies[..|bodies| - 1], bodies[|bodies| - 1];
      assert bodies == init + [b];
      ReadsOfDatas(read, notes, id, init);
      DatasGrow(notes, id, init, b);
      ReadsAppend(read, notes + Datas(id, init), Room.Data(id + b), |id|);
      assert (id + b)[|id|..] == b;
      assert ReadAll(read, bodies) == ReadAll(read, init) + [read(b)];
    }
  }

  lemma {:induction false} AllSealed(key: Noise.Key, frames: seq<Bytes>, i: nat)
    requires i < |Noise.Stream(key, frames)|
    ensures Noise.TAG < Noise.Length(Noise.Stream(key, frames)[i]) <= Noise.MAX_MESSAGE
    decreases |frames|
  {
    var init, last := frames[..|frames| - 1], frames[|frames| - 1];
    assert frames == init + [last];
    Noise.StreamGrows(key, init, last);
    var n := |Noise.AllPieces(init)|;
    if i < n {
      AllSealed(key, init, i);
    } else {
      Noise.SealedLengths(key, n, last, i - n);
    }
  }

  lemma WiresFit(wire: Wire, read: Reading, key: Noise.Key, frames: seq<Bytes>, messages: seq<Noise.Message>)
    requires Carried(wire, read, messages) && messages <= Noise.Stream(key, frames)
    ensures Fit(Wires(wire, messages))
  {
    forall i | 0 <= i < |messages|
      ensures 0 < |Wires(wire, messages)[i]| <= Room.MAX_NOISE
    {
      AllSealed(key, frames, i);
    }
  }

  // ---- end to end ---------------------------------------------------------------------------------------

  /** The frames a receiver takes out of some messages are the first ones of `frames`, and all
      that can be delivered once all messages are there. */
  ghost predicate Delivers(key: Noise.Key, frames: seq<Bytes>, messages: seq<Noise.Message>, all: bool)
  {
    var got := Noise.OpenAll(Noise.NewReceiver(key), messages);
    && got.frames <= Noise.Deliverable(frames) <= frames
    && (got.failed ==> exists f :: f in frames && |f| > Noise.MAX_FRAME)
    && (all ==> got.frames == Noise.Deliverable(frames))
  }

  lemma StreamDelivers(key: Noise.Key, frames: seq<Bytes>, j: nat)
    requires j <= |Noise.Stream(key, frames)|
    ensures Delivers(key, frames, Noise.Stream(key, frames)[..j], j == |Noise.Stream(key, frames)|)
  {
    Noise.OpenStream(key, frames, j);
    assert Noise.StreamOpens(key, frames, j, Noise.Stream(key, frames)[..j]);
  }

  function HostBodies(ws: seq<Room.Socket>, g: int): seq<Bytes>
    requires 0 <= g < |ws| && ws[g].role.Guest?
  {
    if ws[g].host < |ws| && ws[g].since <= |ws[ws[g].host].sent|
    then BodiesFor(ws[ws[g].host].sent[ws[g].since..], ws[g].role.id) else []
  }

  /** The frames of one direction and what was put on the way of them, by a run of its channel. */
  function SentBy(key: Noise.Key, actions: seq<Channel.Action>): seq<Bytes>
  {
    Channel.Run(key, actions).sender.sent
  }

  function PutBy(key: Noise.Key, actions: seq<Channel.Action>): seq<Noise.Message>
  {
    Channel.Run(key, actions).line.put
  }

  predicate AllPut(key: Noise.Key, actions: seq<Channel.Action>)
  {
    Channel.Run(key, actions).line.carried == |SentBy(key, actions)|
  }

  lemma PutDelivers(key: Noise.Key, actions: seq<Channel.Action>, j: nat)
    requires j <= |PutBy(key, actions)|
    ensures Delivers(key, SentBy(key, actions), PutBy(key, actions)[..j],
                     j == |PutBy(key, actions)| && AllPut(key, actions))
  {
    Channel.PutIsStream(key, actions);
    var stream, put := Noise.Stream(key, SentBy(key, actions)), PutBy(key, actions);
    assert put[..j] == stream[..j];
    StreamDelivers(key, SentBy(key, actions), j);
  }

  /** What comes after the first `n`. */
  function Past(messages: seq<Noise.Message>, n: nat): seq<Noise.Message>
  {
    if n <= |messages| then messages[n..] else []
  }

  /** Some bodies of the handshake and then messages: what is read of their first `j`. */
  lemma HelloRead(wire: Wire, read: Reading, hello: seq<Bytes>, messages: seq<Noise.Message>, j: nat)
    requires Carried(wire, read, messages) && j <= |hello| + |messages|
    ensures ReadAll(read, (hello + Wires(wire, messages))[..j]) == (ReadAll(read, hello) + messages)[..j]
  {
  }

  lemma FitTogether(a: seq<Bytes>, b: seq<Bytes>)
    requires Fit(a) && Fit(b)
    ensures Fit(a + b)
  {
  }

  /** Of its part of the handshake and the messages after it that its host handed the room, a
      guest reads the first, in order, and while it is connected all of them. */
  lemma GuestReads(events: seq<Room.Event>, g: int, hello: seq<Bytes>, messages: seq<Noise.Message>,
                   wire: Wire, read: Reading) returns (j: nat)
    requires DistinctIds(Room.Run(events).sockets) && IsGuest(Room.Run(events).sockets, g)
    requires Carried(wire, read, messages) && Fit(hello) && Fit(Wires(wire, messages))
    requires HostBodies(Room.Run(events).sockets, g) == hello + Wires(wire, messages)
    ensures j <= |hello| + |messages|
    ensures Reads(read, Room.Run(events).sockets[g].inbox, 0) == (ReadAll(read, hello) + messages)[..j]
    ensures Room.Run(events).sockets[g].phase.Open? ==> j == |hello| + |messages|
  {
    var ws := Room.Run(events).sockets;
    RoomIsFifo(events, g);
    var bodies := HostBodies(ws, g);
    FitTogether(hello, Wires(wire, messages));
    AddressedIsBodies(ws[ws[g].host].sent[ws[g].since..], ws[g].role.id);
    j := |ws[g].inbox|;
    assert ws[g].inbox == Datas([], bodies[..j]);
    ReadsOfDatas(read, [], [], bodies[..j]);
    assert [] + Datas([], bodies[..j]) == ws[g].inbox;
    HelloRead(wire, read, hello, messages, j);
  }

  /** And a host those of a guest. */
  lemma HostReads(events: seq<Room.Event>, g: int, hello: seq<Bytes>, messages: seq<Noise.Message>,
                  wire: Wire, read: Reading) returns (n: nat)
    requires DistinctIds(Room.Run(events).sockets) && IsGuest(Room.Run(events).sockets, g)
    requires Carried(wire, read, messages) && Fit(hello) && Fit(Wires(wire, messages))
    requires Bodies(Room.Run(events).sockets[g].sent) == hello + Wires(wire, messages)
    ensures var ws := Room.Run(events).sockets;
      IsHost(ws, ws[g].host)
      && n <= |hello| + |messages|
      && Reads(read, About(ws[ws[g].host].inbox, ws[g].role.id), Room.ID_BYTES)
           == (ReadAll(read, hello) + messages)[..n]
      && (ws[g].phase.Open? ==> n == |hello| + |messages|)
  {
    var ws := Room.Run(events).sockets;
    RoomIsFifo(events, g);
    RunKeeps(events);
    FitTogether(hello, Wires(wire, messages));
    TaggedIsBodies(ws[g].sent, ws[g].role.id);
    n :| Uplink(ws, g, n);
    UplinkReads(ws, g, n, read);
    HelloRead(wire, read, hello, messages, n);
  }

  lemma UplinkReads(ws: seq<Room.Socket>, g: int, n: nat, read: Reading)
    requires IsGuest(ws, g) && GuestsHaveHosts(ws) && Uplink(ws, g, n) && IsIdText(ws[g].role.id)
    requires Tagged(ws[g].sent, ws[g].role.id) == Datas(FromHex(ws[g].role.id), Bodies(ws[g].sent))
    ensures n <= |Bodies(ws[g].sent)|
    ensures Reads(read, About(ws[ws[g].host].inbox, ws[g].role.id), Room.ID_BYTES)
         == ReadAll(read, Bodies(ws[g].sent)[..n])
  {
    var id := ws[g].role.id;
    var tag, first := FromHex(id), Bodies(ws[g].sent)[..n];
    var told := About(ws[ws[g].host].inbox, id);
    var joined := [Room.Opened(id)];
    assert Tagged(ws[g].sent, id)[..n] == Datas(tag, first);
    assert joined[..0] == [];
    assert Reads(read, joined, |tag|) == [];
    ReadsOfDatas(read, joined, tag, first);
    ReadsAppend(read, joined + Datas(tag, first), Room.Closed(id), |tag|);
  }

  lemma PutFits(key: Noise.Key, actions: seq<Channel.Action>, k: nat, wire: Wire, read: Reading)
    requires k <= |PutBy(key, actions)| && Carried(wire, read, PutBy(key, actions)[..k])
    ensures Fit(Wires(wire, PutBy(key, actions)[..k]))
  {
    Channel.PutIsStream(key, actions);
    WiresFit(wire, read, key, SentBy(key, actions), PutBy(key, actions)[..k]);
  }

  /** What was read: the handshake first, then sealed messages that deliver the frames sent. */
  ghost predicate Session(read: Reading, taken: seq<Noise.Message>, hello: seq<Bytes>, key: Noise.Key,
                          frames: seq<Bytes>, open: bool, all: bool)
  {
    && (taken <= ReadAll(read, hello) || ReadAll(read, hello) <= taken)
    && (open ==> ReadAll(read, hello) <= taken)
    && Delivers(key, frames, Past(taken, |hello|), open && all)
  }

  function Beyond(j: nat, n: nat): nat { if j <= n then 0 else j - n }

  lemma FirstOfBoth(first: seq<Noise.Message>, more: seq<Noise.Message>, j: nat)
    requires j <= |first| + |more|
    ensures var taken := (first + more)[..j];
      && (taken <= first || first <= taken)
      && (j >= |first| ==> first <= taken)
      && Past(taken, |first|) == more[..Beyond(j, |first|)]
  {
  }

  lemma SessionDelivers(read: Reading, hello: seq<Bytes>, key: Noise.Key, actions: seq<Channel.Action>, k: nat, j: nat,
                        open: bool)
    requires k <= |PutBy(key, actions)| && j <= |hello| + k && (open ==> j == |hello| + k)
    ensures Session(read, (ReadAll(read, hello) + PutBy(key, actions)[..k])[..j], hello, key, SentBy(key, actions), open,
                    k == |PutBy(key, actions)| && AllPut(key, actions))
  {
    var first, more := ReadAll(read, hello), PutBy(key, actions)[..k];
    var n := Beyond(j, |hello|);
    FirstOfBoth(first, more, j);
    assert more[..n] == PutBy(key, actions)[..n];
    PutDelivers(key, actions, n);
  }

  /** Down: over every run of the host's channel and every run of the room in which the room has
      taken from the host, for the guest `g`, its part of the handshake and then the first `k`
      messages that channel put on the way: after the handshake the guest opens the first of the
      frames the host sent, and once all are there, while it is connected, every one that can
      be delivered. */
  lemma GuestGetsFrames(events: seq<Room.Event>, g: int, hello: seq<Bytes>, key: Noise.Key,
                        actions: seq<Channel.Action>, k: nat, wire: Wire, read: Reading)
    requires DistinctIds(Room.Run(events).sockets) && IsGuest(Room.Run(events).sockets, g)
    requires k <= |PutBy(key, actions)| && Carried(wire, read, PutBy(key, actions)[..k]) && Fit(hello)
    requires HostBodies(Room.Run(events).sockets, g) == hello + Wires(wire, PutBy(key, actions)[..k])
    ensures var w := Room.Run(events).sockets[g];
      Session(read, Reads(read, w.inbox, 0), hello, key, SentBy(key, actions), w.phase.Open?,
              k == |PutBy(key, actions)| && AllPut(key, actions))
  {
    PutFits(key, actions, k, wire, read);
    var j := GuestReads(events, g, hello, PutBy(key, actions)[..k], wire, read);
    SessionDelivers(read, hello, key, actions, k, j, Room.Run(events).sockets[g].phase.Open?);
  }

  /** Up: over every run of the guest's channel and every run of the room in which the room has
      taken from the guest its part of the handshake and then the first `k` messages that channel
      put on the way: after the handshake its host opens the first of the frames the guest sent,
      from what it was told of that guest, and once all are there, while the guest is connected,
      every one that can be delivered. */
  lemma HostGetsFrames(events: seq<Room.Event>, g: int, hello: seq<Bytes>, key: Noise.Key,
                       actions: seq<Channel.Action>, k: nat, wire: Wire, read: Reading)
    requires DistinctIds(Room.Run(events).sockets) && IsGuest(Room.Run(events).sockets, g)
    requires k <= |PutBy(key, actions)| && Carried(wire, read, PutBy(key, actions)[..k]) && Fit(hello)
    requires Bodies(Room.Run(events).sockets[g].sent) == hello + Wires(wire, PutBy(key, actions)[..k])
    ensures var ws := Room.Run(events).sockets;
      && IsHost(ws, ws[g].host)
      && Session(read, Reads(read, About(ws[ws[g].host].inbox, ws[g].role.id), Room.ID_BYTES), hello, key,
                 SentBy(key, actions), ws[g].phase.Open?, k == |PutBy(key, actions)| && AllPut(key, actions))
  {
    PutFits(key, actions, k, wire, read);
    var n := HostReads(events, g, hello, PutBy(key, actions)[..k], wire, read);
    SessionDelivers(read, hello, key, actions, k, n, Room.Run(events).sockets[g].phase.Open?);
  }
}
