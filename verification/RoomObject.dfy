/** The room as the object the runtime calls: each handler changes the fields in place,
    socket by socket, and comes out where the state machine says. */
module RoomObject {
  import opened Hex
  import opened Room

  class RelayRoom {
    var sockets: seq<Socket>
    var claim: Option<string>
    var ended: bool
    var alarm: bool

    ghost function View(): State
      reads this
    {
      State(sockets, claim, ended, alarm)
    }

    constructor ()
      ensures View() == EMPTY
    {
      sockets, claim, ended, alarm := [], None, false, false;
    }

    method FindOpenHost() returns (r: Option<nat>)
      ensures r == OpenHost(sockets)
    {
      var i := 0;
      while i < |sockets|
        invariant 0 <= i <= |sockets|
        invariant OpenHost(sockets) ==
                    var rest := OpenHost(sockets[i..]);
                    if rest.None? then None else Some(rest.value + i)
      {
        if IsOpenHost(sockets[i]) {
          return Some(i);
        }
        assert sockets[i..][1..] == sockets[i + 1..];
        i := i + 1;
      }
      return None;
    }

    method CountGuests() returns (n: nat)
      ensures n == |HeldGuests(sockets)|
    {
      n := 0;
      var i := 0;
      while i < |sockets|
        invariant 0 <= i <= |sockets|
        invariant n == |HeldGuests(sockets[..i])|
      {
        ghost var before, after := HeldGuests(sockets[..i]), HeldGuests(sockets[..i + 1]);
        if IsHeldGuest(sockets[i]) {
          assert after == before + {i};
          n := n + 1;
        } else {
          assert after == before;
        }
        i := i + 1;
      }
      assert sockets[..|sockets|] == sockets;
    }

    /** Runs over the sockets in place, one after the other. */
    method ForEach(f: Socket -> Socket)
      modifies this`sockets
      ensures sockets == Update(old(sockets), f)
    {
      var i := 0;
      while i < |sockets|
        invariant 0 <= i <= |sockets| == |old(sockets)|
        invariant forall k :: 0 <= k < i ==> sockets[k] == f(old(sockets)[k])
        invariant forall k :: i <= k < |sockets| ==> sockets[k] == old(sockets)[k]
      {
        sockets := sockets[i := f(sockets[i])];
        i := i + 1;
      }
    }

    method HostConnected(token: Option<Token>) returns (r: Response)
      modifies this
      ensures View() == Step(old(View()), HostConnect(token))
      ensures r == HostAnswer(old(View()), token)
    {
      if token.None? {
        return Unauthorized;
      }
      if token.value.owner {
        ended := false;
      } else {
        if ended {
          return Refused(ENDED);
        }
        if claim.Some? && claim.value != token.value.hash {
          return Forbidden;
        }
      }
      claim := Some(token.value.hash);
      alarm := false;
      ForEach((w: Socket) => if w.role.Host? then Shut(w, REPLACED) else w);
      ForEach((w: Socket) => if w.role.Guest? then Shut(w, HOST_LEFT) else w);
      assert sockets == Update(old(sockets), w => ForNewHost(w));
      sockets := sockets + [NewHost(|sockets|)];
      return Upgraded;
    }

    method GuestConnected(id: GuestId) returns (r: Response)
      modifies this
      ensures View() == Step(old(View()), GuestConnect(id))
      ensures r == GuestAnswer(old(View()))
    {
      if ended {
        return Refused(ENDED);
      }
      var host := FindOpenHost();
      if host.None? {
        return Refused(OFFLINE);
      }
      var held := CountGuests();
      if held >= MAX_GUESTS {
        return Refused(FULL);
      }
      var h := host.value;
      var guest := NewGuest(ToHex(id), h, |sockets[h].sent|);
      sockets := sockets + [guest];
      sockets := sockets[h := Send(sockets[h], Opened(guest.role.id))];
      return Upgraded;
    }

    method MessageArrived(from: nat, m: Message)
      modifies this
      ensures View() == Step(old(View()), Receive(from, m))
    {
      if from >= |sockets| || !sockets[from].phase.Open? {
        return;
      }
      sockets := sockets[from := Take(sockets[from], m)];
      var limit := if sockets[from].role.Host? then MAX_NOISE + ID_BYTES else MAX_NOISE;
      if m.Binary? && |m.body| > limit {
        sockets := sockets[from := Shut(sockets[from], TOO_BIG)];
        return;
      }
      if sockets[from].role.Host? {
        match m
        case Text(c) => Obey(c);
        case Binary(body) =>
          if |body| > ID_BYTES {
            var id := ToHex(body[..ID_BYTES]);
            ForEach((w: Socket) => if w.role == Guest(id) then Send(w, Data(body[ID_BYTES..])) else w);
            assert sockets == ToGuest(old(sockets)[from := Take(old(sockets)[from], m)], body);
          }
        return;
      }
      if m.Text? {
        return;
      }
      var host := FindOpenHost();
      if host.None? {
        sockets := sockets[from := Shut(sockets[from], OFFLINE)];
        return;
      }
      var out := FromHex(sockets[from].role.id) + m.body;
      sockets := sockets[host.value := Send(sockets[host.value], Data(out))];
    }

    method Obey(c: Command)
      modifies this
      ensures View() == OnCommand(old(View()), c)
    {
      match c
      case CloseGuest(id) =>
        ForEach((w: Socket) => if w.role == Guest(id) then Shut(w, CLOSED_BY_HOST) else w);
        assert sockets == Update(old(sockets), w => ShutGuest(w, id));
      case End =>
        ForEach(w => Shut(w, ENDED));
        assert sockets == Update(old(sockets), w => Shut(w, ENDED));
        claim, ended := None, true;
        alarm := true;
      case Other =>
    }

    method PeerDropped(ws: nat)
      modifies this
      ensures View() == Step(old(View()), Drop(ws))
    {
      if ws < |sockets| {
        sockets := sockets[ws := Shut(sockets[ws], PEER_GONE)];
      }
    }

    method Left(ws: nat)
      modifies this
      ensures View() == Step(old(View()), Leave(ws))
    {
      if ws >= |sockets| || sockets[ws].phase.Gone? {
        return;
      }
      sockets := sockets[ws := sockets[ws].(phase := Gone)];
      ghost var rest := sockets;
      var host := FindOpenHost();
      if sockets[ws].role.Guest? {
        if host.Some? {
          sockets := sockets[host.value := Send(sockets[host.value], Closed(sockets[ws].role.id))];
        }
        return;
      }
      if host.Some? {
        return;
      }
      ForEach((w: Socket) => if w.role.Guest? then Shut(w, OFFLINE) else w);
      assert sockets == Update(rest, w => ShutOffline(w));
      if claim.Some? {
        alarm := true;
      }
    }

    method AlarmWentOff()
      modifies this
      ensures View() == Step(old(View()), Alarm)
    {
      if !alarm {
        return;
      }
      alarm := false;
      var host := FindOpenHost();
      if host.None? {
        claim, ended := None, false;
      }
    }
  }
}
