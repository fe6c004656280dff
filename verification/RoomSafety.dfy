/** What every reachable room state keeps: who may be open at once, and that nothing
    stays in storage with nobody left to clear it. */
module RoomSafety {
  import opened Hex
  import opened Room

  ghost predicate IsHost(sockets: seq<Socket>, i: int) { 0 <= i < |sockets| && sockets[i].role.Host? }

  ghost predicate IsGuest(sockets: seq<Socket>, i: int) { 0 <= i < |sockets| && sockets[i].role.Guest? }

  /** Only the latest host connection can be open. */
  ghost predicate OneHost(sockets: seq<Socket>)
  {
    forall i, j :: 0 <= i < j && IsHost(sockets, i) && IsHost(sockets, j) ==> !sockets[i].phase.Open?
  }

  /** A guest names an earlier socket, a host, as the one that let it in. */
  ghost predicate GuestsHaveHosts(sockets: seq<Socket>)
  {
    forall g :: IsGuest(sockets, g) ==> sockets[g].host < g && IsHost(sockets, sockets[g].host)
  }

  /** An open guest was let in by the latest host connection, whose leave event has not
      been handled. */
  ghost predicate OpenGuestsAreCurrent(sockets: seq<Socket>)
    requires GuestsHaveHosts(sockets)
  {
    forall g :: IsGuest(sockets, g) && sockets[g].phase.Open? ==>
      && !sockets[sockets[g].host].phase.Gone?
      && forall j :: IsHost(sockets, j) ==> j <= sockets[g].host
  }

  /** A guest's id is eight bytes of hex. */
  ghost predicate IdsAreHex(sockets: seq<Socket>)
  {
    forall g :: IsGuest(sockets, g) ==> IsIdText(sockets[g].role.id)
  }

  ghost predicate IsIdText(id: string)
  {
    |FromHex(id)| == ID_BYTES && ToHex(FromHex(id)) == id
  }

  ghost predicate NoOpenSocket(sockets: seq<Socket>)
  {
    forall i :: 0 <= i < |sockets| ==> !sockets[i].phase.Open?
  }

  ghost predicate HostLeavePending(sockets: seq<Socket>)
  {
    exists i :: IsHost(sockets, i) && sockets[i].phase.Closing?
  }

  ghost predicate StorageIsTended(s: State)
  {
    && (s.claim.Some? || s.ended ==>
          OpenHost(s.sockets).Some? || HostLeavePending(s.sockets) || s.alarm)
    && (s.alarm ==> OpenHost(s.sockets).None?)
    && (s.ended ==> s.alarm && s.claim.None? && NoOpenSocket(s.sockets))
  }

  ghost predicate SocketsInv(sockets: seq<Socket>)
  {
    && OneHost(sockets)
    && GuestsHaveHosts(sockets)
    && OpenGuestsAreCurrent(sockets)
    && IdsAreHex(sockets)
    && |HeldGuests(sockets)| <= MAX_GUESTS
  }

  ghost predicate Inv(s: State)
  {
    SocketsInv(s.sockets) && StorageIsTended(s)
  }

  // ---- sockets that only move on -------------------------------------------------

  /** Every socket of `a` is in `b` under the same number, in the same role, and no
      nearer to being open. */
  ghost predicate MovedOn(a: seq<Socket>, b: seq<Socket>)
  {
    && |a| == |b|
    && forall i {:trigger b[i]} :: 0 <= i < |a| ==>
         && b[i].role == a[i].role && b[i].host == a[i].host
         && (b[i].phase.Open? ==> a[i].phase.Open?)
         && (a[i].phase.Gone? ==> b[i].phase.Gone?)
  }

  /** No guest is left open by a host whose leave event is handled. */
  ghost predicate GoneHostsLeaveNoGuest(sockets: seq<Socket>)
    requires GuestsHaveHosts(sockets)
  {
    forall g :: IsGuest(sockets, g) && sockets[g].phase.Open? ==> !sockets[sockets[g].host].phase.Gone?
  }

  lemma SubsetSize(a: set<int>, b: set<int>)
    requires a <= b
    ensures |a| <= |b|
  {
    assert b == a + (b - a);
  }

  lemma MovedOnKeeps(a: seq<Socket>, b: seq<Socket>)
    requires SocketsInv(a) && MovedOn(a, b)
    requires GuestsHaveHosts(b) ==> GoneHostsLeaveNoGuest(b)
    ensures SocketsInv(b)
  {
    forall g | IsGuest(b, g)
      ensures b[g].host < g && IsHost(b, b[g].host) && IsIdText(b[g].role.id)
    {
      assert IsGuest(a, g);
      assert IsHost(a, a[g].host);
    }
    forall g, j | IsGuest(b, g) && b[g].phase.Open? && IsHost(b, j)
      ensures j <= b[g].host
    {
      assert IsGuest(a, g) && IsHost(a, j);
    }
    forall i, j | 0 <= i < j && IsHost(b, i) && IsHost(b, j)
      ensures !b[i].phase.Open?
    {
      assert IsHost(a, i) && IsHost(a, j);
    }
    SubsetSize(HeldGuests(b), HeldGuests(a));
  }

  // ---- each step -----------------------------------------------------------------

  lemma HostConnectKeeps(s: State, token: Option<Token>)
    requires Inv(s)
    ensures Inv(OnHostConnect(s, token))
  {
    if token.Some? && HostAnswer(s, token) == Upgraded {
      var a := s.sockets;
      var b := Update(a, w => ForNewHost(w));
      forall i | 0 <= i < |b|
        ensures b[i] == ForNewHost(a[i])
      {
      }
      MovedOnKeeps(a, b);
      AppendHost(b);
      var c := b + [NewHost(|a|)];
      assert IsOpenHost(c[|a|]);
    }
  }

  lemma AppendHost(b: seq<Socket>)
    requires SocketsInv(b) && NoOpenSocket(b)
    ensures SocketsInv(b + [NewHost(|b|)])
  {
    var c := b + [NewHost(|b|)];
    forall g | IsGuest(c, g)
      ensures c[g].host < g && IsHost(c, c[g].host) && IsIdText(c[g].role.id) && !c[g].phase.Open?
    {
      assert IsGuest(b, g);
      assert IsHost(b, b[g].host);
    }
    assert HeldGuests(c) == HeldGuests(b);
  }

  lemma AppendedGuestsHaveHosts(b: seq<Socket>, id: GuestId, h: nat, since: nat)
    requires SocketsInv(b) && IsHost(b, h)
    ensures var c := b + [NewGuest(ToHex(id), h, since)]; GuestsHaveHosts(c) && IdsAreHex(c)
  {
    var c := b + [NewGuest(ToHex(id), h, since)];
    HexRoundTrip(id);
    forall g | IsGuest(c, g)
      ensures c[g].host < g && IsHost(c, c[g].host) && IsIdText(c[g].role.id)
    {
      if g < |b| {
        assert IsGuest(b, g);
        assert IsHost(b, b[g].host);
      }
    }
  }

  lemma AppendedGuestIsCurrent(b: seq<Socket>, id: GuestId, h: nat, since: nat)
    requires SocketsInv(b) && h < |b| && IsOpenHost(b[h])
    ensures var c := b + [NewGuest(ToHex(id), h, since)];
      GuestsHaveHosts(c) && OpenGuestsAreCurrent(c) && OneHost(c)
  {
    var c := b + [NewGuest(ToHex(id), h, since)];
    assert IsHost(b, h);
    AppendedGuestsHaveHosts(b, id, h, since);
    forall g | IsGuest(c, g) && c[g].phase.Open?
      ensures !c[c[g].host].phase.Gone? && forall j :: IsHost(c, j) ==> j <= c[g].host
    {
      if g < |b| {
        assert IsGuest(b, g);
      }
      forall j | IsHost(c, j)
        ensures j <= c[g].host
      {
        assert IsHost(b, j);
      }
    }
    forall i, j | 0 <= i < j && IsHost(c, i) && IsHost(c, j)
      ensures !c[i].phase.Open?
    {
      assert IsHost(b, i) && IsHost(b, j);
    }
  }

  lemma AppendedGuestIsHeld(b: seq<Socket>, id: GuestId, h: nat, since: nat)
    ensures |HeldGuests(b + [NewGuest(ToHex(id), h, since)])| == |HeldGuests(b)| + 1
  {
    assert HeldGuests(b + [NewGuest(ToHex(id), h, since)]) == HeldGuests(b) + {|b|};
  }

  lemma AppendGuest(b: seq<Socket>, id: GuestId, h: nat, since: nat)
    requires SocketsInv(b) && h < |b| && IsOpenHost(b[h])
    requires |HeldGuests(b)| < MAX_GUESTS
    ensures SocketsInv(b + [NewGuest(ToHex(id), h, since)])
  {
    var c := b + [NewGuest(ToHex(id), h, since)];
    assert IsHost(b, h);
    AppendedGuestsHaveHosts(b, id, h, since);
    AppendedGuestIsCurrent(b, id, h, since);
    AppendedGuestIsHeld(b, id, h, since);
  }

  lemma GuestConnectKeeps(s: State, id: GuestId)
    requires Inv(s)
    ensures Inv(OnGuestConnect(s, id))
  {
    if GuestAnswer(s) == Upgraded {
      var a := s.sockets;
      var h := OpenHost(a).value;
      var b := a[h := Send(a[h], Opened(ToHex(id)))];
      MovedOnStep(s, b);
      assert HeldGuests(b) == HeldGuests(a);
      AppendGuest(b, id, h, |a[h].sent|);
      var c := OnGuestConnect(s, id).sockets;
      assert IsOpenHost(c[h]);
    }
  }

  /** Storage stays tended when sockets move on and no host leaves. */
  lemma TendedWhenMovedOn(s: State, b: seq<Socket>)
    requires Inv(s) && MovedOn(s.sockets, b)
    requires HostsStay(s.sockets, b)
    ensures StorageIsTended(s.(sockets := b))
  {
    if (s.claim.Some? || s.ended) && !s.alarm && OpenHost(b).None? {
      var a := s.sockets;
      var i :| IsHost(a, i) && !a[i].phase.Gone?;
      assert !IsOpenHost(b[i]);
      assert IsHost(b, i) && b[i].phase.Closing?;
    }
    if OpenHost(b).Some? {
      assert IsOpenHost(s.sockets[OpenHost(b).value]);
    }
  }

  lemma MovedOnStep(s: State, b: seq<Socket>)
    requires Inv(s) && MovedOn(s.sockets, b)
    requires HostsStay(s.sockets, b)
    ensures Inv(s.(sockets := b))
  {
    if GuestsHaveHosts(b) {
      forall g | IsGuest(b, g) && b[g].phase.Open?
        ensures !b[b[g].host].phase.Gone?
      {
        assert IsGuest(s.sockets, g);
        assert IsHost(s.sockets, s.sockets[g].host);
      }
    }
    MovedOnKeeps(s.sockets, b);
    TendedWhenMovedOn(s, b);
  }

  lemma CommandKeeps(s: State, c: Command)
    requires Inv(s) && OpenHost(s.sockets).Some?
    ensures Inv(OnCommand(s, c))
  {
    match c
    case CloseGuest(id) => MovedOnStep(s, Update(s.sockets, w => ShutGuest(w, id)));
    case End =>
      var b := Update(s.sockets, w => Shut(w, ENDED));
      MovedOnStep(s, b);
      assert NoOpenSocket(b);
    case Other =>
  }

  /** Every host that had not left still has not. */
  ghost predicate HostsStay(a: seq<Socket>, b: seq<Socket>)
    requires |a| == |b|
  {
    forall i :: IsHost(a, i) && !a[i].phase.Gone? ==> !b[i].phase.Gone?
  }

  /** One socket changed without moving back. */
  lemma OneMovesOn(a: seq<Socket>, i: nat, w: Socket)
    requires i < |a| && w.role == a[i].role && w.host == a[i].host
    requires (w.phase.Open? ==> a[i].phase.Open?) && (w.phase.Gone? <==> a[i].phase.Gone?)
    ensures MovedOn(a, a[i := w]) && HostsStay(a, a[i := w])
  {
  }

  lemma TwoMoves(a: seq<Socket>, b: seq<Socket>, c: seq<Socket>)
    requires MovedOn(a, b) && HostsStay(a, b) && MovedOn(b, c) && HostsStay(b, c)
    ensures MovedOn(a, c) && HostsStay(a, c)
  {
    forall i | 0 <= i < |a|
      ensures c[i].role == a[i].role && c[i].host == a[i].host
      ensures (c[i].phase.Open? ==> a[i].phase.Open?) && (a[i].phase.Gone? ==> c[i].phase.Gone?)
    {
      assert b[i].role == a[i].role;
    }
    forall i | IsHost(a, i) && !a[i].phase.Gone?
      ensures !c[i].phase.Gone?
    {
      assert b[i].role == a[i].role && IsHost(b, i);
    }
  }

  lemma ToGuestMovesOn(a: seq<Socket>, body: Bytes)
    ensures MovedOn(a, ToGuest(a, body)) && HostsStay(a, ToGuest(a, body))
  {
  }

  /** Apart from a command, a message only fills inboxes and closes its sender. */
  lemma RoutingMovesOn(s: State, from: nat, m: Message)
    requires from < |s.sockets| && s.sockets[from].phase.Open?
    requires s.sockets[from].role.Guest? || m.Binary?
    ensures var t := OnMessage(s, from, m);
      MovedOn(s.sockets, t.sockets) && HostsStay(s.sockets, t.sockets) && t == s.(sockets := t.sockets)
  {
    var a, w := s.sockets, Take(s.sockets[from], m);
    var taken := a[from := w];
    OneMovesOn(a, from, w);
    if m.Binary? && |m.body| > Limit(w.role) {
      OneMovesOn(taken, from, Shut(w, TOO_BIG));
      TwoMoves(a, taken, taken[from := Shut(w, TOO_BIG)]);
    } else if w.role.Host? {
      ToGuestMovesOn(taken, m.body);
      TwoMoves(a, taken, ToGuest(taken, m.body));
    } else if m.Binary? {
      ToHostMovesOn(taken, from, m.body);
      TwoMoves(a, taken, ToHost(taken, from, m.body));
    }
  }

  lemma ToHostMovesOn(a: seq<Socket>, from: nat, body: Bytes)
    requires from < |a| && a[from].role.Guest?
    ensures MovedOn(a, ToHost(a, from, body)) && HostsStay(a, ToHost(a, from, body))
  {
    match OpenHost(a)
    case None => OneMovesOn(a, from, Shut(a[from], OFFLINE));
    case Some(h) => OneMovesOn(a, h, Send(a[h], Data(FromHex(a[from].role.id) + body)));
  }

  lemma MessageKeeps(s: State, from: nat, m: Message)
    requires Inv(s)
    ensures Inv(OnMessage(s, from, m))
  {
    if from < |s.sockets| && s.sockets[from].phase.Open? {
      if s.sockets[from].role.Host? && m.Text? {
        var taken := s.sockets[from := Take(s.sockets[from], m)];
        MovedOnStep(s, taken);
        assert IsOpenHost(taken[from]);
        CommandKeeps(s.(sockets := taken), m.command);
      } else {
        RoutingMovesOn(s, from, m);
        MovedOnStep(s, OnMessage(s, from, m).sockets);
      }
    }
  }

  /** A host leaves while a later one is open: that one's guests are not its own. */
  lemma OldHostLeaves(s: State, ws: nat, rest: seq<Socket>)
    requires Inv(s) && IsHost(s.sockets, ws) && rest == s.sockets[ws := s.sockets[ws].(phase := Gone)]
    requires OpenHost(rest).Some?
    ensures Inv(s.(sockets := rest))
  {
    var a, h := s.sockets, OpenHost(rest).value;
    assert IsHost(a, h) && IsOpenHost(a[h]);
    if GuestsHaveHosts(rest) {
      forall g | IsGuest(rest, g) && rest[g].phase.Open?
        ensures !rest[rest[g].host].phase.Gone?
      {
        assert IsGuest(a, g);
        assert h <= a[g].host;
        assert IsHost(a, a[g].host);
      }
    }
    MovedOnKeeps(a, rest);
  }

  lemma LastHostLeaves(s: State, ws: nat, rest: seq<Socket>)
    requires Inv(s) && IsHost(s.sockets, ws) && rest == s.sockets[ws := s.sockets[ws].(phase := Gone)]
    requires OpenHost(rest).None?
    ensures Inv(s.(sockets := Update(rest, w => ShutOffline(w)), alarm := s.alarm || s.claim.Some?))
  {
    var b := Update(rest, w => ShutOffline(w));
    forall i | 0 <= i < |b|
      ensures b[i] == ShutOffline(rest[i]) && !b[i].phase.Open?
    {
      assert !IsOpenHost(rest[i]);
      assert b[i] == ShutOffline(rest[i]);
    }
    MovedOnKeeps(s.sockets, b);
  }

  lemma GuestLeavesEffect(s: State, ws: nat)
    requires IsGuest(s.sockets, ws) && !s.sockets[ws].phase.Gone?
    ensures var t := OnLeave(s, ws);
      t == s.(sockets := t.sockets) && MovedOn(s.sockets, t.sockets) && HostsStay(s.sockets, t.sockets)
  {
  }

  lemma GuestLeaves(s: State, ws: nat)
    requires Inv(s) && IsGuest(s.sockets, ws)
    ensures Inv(OnLeave(s, ws))
  {
    if !s.sockets[ws].phase.Gone? {
      GuestLeavesEffect(s, ws);
      MovedOnStep(s, OnLeave(s, ws).sockets);
    }
  }

  lemma LeaveKeeps(s: State, ws: nat)
    requires Inv(s)
    ensures Inv(OnLeave(s, ws))
  {
    if ws < |s.sockets| && !s.sockets[ws].phase.Gone? {
      var rest := s.sockets[ws := s.sockets[ws].(phase := Gone)];
      if s.sockets[ws].role.Guest? {
        GuestLeaves(s, ws);
      } else if OpenHost(rest).Some? {
        OldHostLeaves(s, ws, rest);
      } else {
        LastHostLeaves(s, ws, rest);
      }
    }
  }

  lemma AlarmKeeps(s: State)
    requires Inv(s)
    ensures Inv(OnAlarm(s))
  {
  }

  lemma StepKeeps(s: State, e: Event)
    requires Inv(s)
    ensures Inv(Step(s, e))
  {
    match e
    case HostConnect(token) => HostConnectKeeps(s, token);
    case GuestConnect(id) => GuestConnectKeeps(s, id);
    case Receive(from, m) => MessageKeeps(s, from, m);
    case Drop(ws) =>
      if ws < |s.sockets| {
        MovedOnStep(s, OnDrop(s, ws).sockets);
      }
    case Leave(ws) => LeaveKeeps(s, ws);
    case Alarm => AlarmKeeps(s);
  }

  lemma {:induction false} RunKeeps(events: seq<Event>)
    ensures Inv(Run(events))
  {
    if events == [] {
      assert HeldGuests(EMPTY.sockets) == {};
    } else {
      RunKeeps(events[..|events| - 1]);
      StepKeeps(Run(events[..|events| - 1]), events[|events| - 1]);
    }
  }

  // ---- the promises, over every run ----------------------------------------------

  /** At most one host is open and sixteen guests are held; an open guest was let in by the
      latest host connection, which is still open or has its leave event still to come. */
  lemma WhoMayBeOpen(events: seq<Event>)
    ensures var ws := Run(events).sockets;
      && (forall i, j :: IsHost(ws, i) && IsHost(ws, j) && ws[i].phase.Open? && ws[j].phase.Open? ==> i == j)
      && |HeldGuests(ws)| <= MAX_GUESTS
      && (forall g :: IsGuest(ws, g) && ws[g].phase.Open? ==>
            && IsHost(ws, ws[g].host) && (forall j :: IsHost(ws, j) ==> j <= ws[g].host)
            && (ws[ws[g].host].phase.Open? || ws[ws[g].host].phase.Closing?))
  {
    RunKeeps(events);
  }

  /** Nothing is kept for nobody: while a claim or the ended mark is stored, a host is open,
      or one is about to leave, or the alarm is set. */
  lemma StorageNeverLeaks(events: seq<Event>)
    ensures StorageIsTended(Run(events))
  {
    RunKeeps(events);
  }

  /** A room that ended stays so until the owner's token comes back or the alarm goes off. */
  lemma EndedLasts(events: seq<Event>, e: Event)
    requires Run(events).ended && !Run(events + [e]).ended
    ensures e.Alarm? || (e.HostConnect? && e.token.Some? && e.token.value.owner)
  {
    RunKeeps(events);
    assert (events + [e])[..|events|] == events;
  }

  lemma MessageClaims(s: State, from: nat, m: Message)
    requires OnMessage(s, from, m).claim != s.claim
    ensures m == Text(End) && from < |s.sockets| && IsOpenHost(s.sockets[from])
  {
  }

  lemma LeaveClaims(s: State, ws: nat)
    ensures OnLeave(s, ws).claim == s.claim
  {
  }

  /** A claim is only given up to the owner's token, to an open host that ends the share, or
      to the alarm. */
  lemma ClaimLasts(events: seq<Event>, e: Event)
    requires Run(events).claim.Some? && Run(events + [e]).claim != Run(events).claim
    ensures
      || e.Alarm?
      || (e.HostConnect? && e.token.Some? && e.token.value.owner)
      || (e.Receive? && e.message == Text(End) && e.from < |Run(events).sockets|
          && IsOpenHost(Run(events).sockets[e.from]))
  {
    assert (events + [e])[..|events|] == events;
    var s := Run(events);
    if e.Receive? {
      MessageClaims(s, e.from, e.message);
    } else if e.Leave? {
      LeaveClaims(s, e.ws);
    }
  }

  // ---- why a socket was closed -------------------------------------------------------------

  ghost predicate FromOpenHost(s: State, e: Event, c: Command)
  {
    e.Receive? && e.from < |s.sockets| && IsOpenHost(s.sockets[e.from]) && e.message == Text(c)
  }

  ghost predicate TooBig(s: State, e: Event, i: nat)
    requires i < |s.sockets|
  {
    e.Receive? && e.from == i && e.message.Binary? && |e.message.body| > Limit(s.sockets[i].role)
  }

  ghost predicate NoOpenHost(s: State) { forall h :: 0 <= h < |s.sockets| ==> !IsOpenHost(s.sockets[h]) }

  /** The owner's token always gets in; another one while the room has not ended and nobody
      else holds it. */
  predicate LetIn(s: State, token: Option<Token>)
  {
    token.Some?
    && (token.value.owner || (!s.ended && (s.claim.None? || s.claim.value == token.value.hash)))
  }

  predicate Accepts(s: State, e: Event) { e.HostConnect? && LetIn(s, e.token) }

  /** A guest's message that could go to a host finds none. */
  ghost predicate WithoutHost(s: State, e: Event, i: nat)
  {
    e.Receive? && e.from == i && e.message.Binary? && |e.message.body| <= MAX_NOISE && NoOpenHost(s)
  }

  ghost predicate LastHostLeft(s: State, e: Event)
  {
    && e.Leave? && e.ws < |s.sockets| && s.sockets[e.ws].role.Host? && !s.sockets[e.ws].phase.Gone?
    && forall h :: 0 <= h < |s.sockets| && h != e.ws ==> !IsOpenHost(s.sockets[h])
  }

  /** What an open socket is closed with a code for. */
  ghost predicate Reason(s: State, e: Event, i: nat, code: nat)
    requires i < |s.sockets|
  {
    var role := s.sockets[i].role;
    if code == REPLACED then role.Host? && Accepts(s, e)
    else if code == HOST_LEFT then role.Guest? && Accepts(s, e)
    else if code == CLOSED_BY_HOST then role.Guest? && FromOpenHost(s, e, CloseGuest(role.id))
    else if code == OFFLINE then role.Guest? && (WithoutHost(s, e, i) || LastHostLeft(s, e))
    else if code == ENDED then FromOpenHost(s, e, End)
    else if code == TOO_BIG then TooBig(s, e, i)
    else code == PEER_GONE && e == Drop(i)
  }

  lemma MessageCloses(s: State, from: nat, m: Message, i: nat)
    requires i < |s.sockets| && s.sockets[i].phase.Open? && i < |OnMessage(s, from, m).sockets|
    requires OnMessage(s, from, m).sockets[i].phase.Closing?
    ensures Reason(s, Receive(from, m), i, OnMessage(s, from, m).sockets[i].phase.code)
  {
    var w := s.sockets[from];
    var taken := s.sockets[from := Take(w, m)];
    if m.Binary? && |m.body| > Limit(w.role) {
    } else if w.role.Host? {
    } else if m.Binary? {
      SameOpenHost(s.sockets, taken);
    }
  }

  lemma MessageIsClosed(s: State, from: nat, m: Message, i: nat, code: nat)
    requires i < |s.sockets| && s.sockets[i].phase.Open? && Reason(s, Receive(from, m), i, code)
    ensures i < |OnMessage(s, from, m).sockets| && OnMessage(s, from, m).sockets[i].phase == Closing(code)
  {
    var taken := s.sockets[from := Take(s.sockets[from], m)];
    if code == OFFLINE {
      SameOpenHost(s.sockets, taken);
    }
  }

  lemma {:induction false} SameOpenHost(a: seq<Socket>, b: seq<Socket>)
    requires |a| == |b|
    requires forall i :: 0 <= i < |a| ==> (IsOpenHost(a[i]) <==> IsOpenHost(b[i]))
    ensures OpenHost(a) == OpenHost(b)
  {
    if a != [] {
      assert IsOpenHost(a[0]) <==> IsOpenHost(b[0]);
      forall i | 0 <= i < |a[1..]|
        ensures IsOpenHost(a[1..][i]) <==> IsOpenHost(b[1..][i])
      {
        assert a[1..][i] == a[i + 1] && b[1..][i] == b[i + 1];
      }
      SameOpenHost(a[1..], b[1..]);
    }
  }

  lemma LeaveCloses(s: State, ws: nat, i: nat)
    requires i < |s.sockets| && s.sockets[i].phase.Open? && i < |OnLeave(s, ws).sockets|
    requires OnLeave(s, ws).sockets[i].phase.Closing?
    ensures Reason(s, Leave(ws), i, OnLeave(s, ws).sockets[i].phase.code)
  {
    var rest := s.sockets[ws := s.sockets[ws].(phase := Gone)];
    forall h | 0 <= h < |s.sockets| && h != ws && OpenHost(rest).None?
      ensures !IsOpenHost(s.sockets[h])
    {
      assert rest[h] == s.sockets[h];
    }
  }

  lemma LeaveIsClosed(s: State, ws: nat, i: nat, code: nat)
    requires i < |s.sockets| && s.sockets[i].phase.Open? && Reason(s, Leave(ws), i, code)
    ensures i < |OnLeave(s, ws).sockets| && OnLeave(s, ws).sockets[i].phase == Closing(code)
  {
    var rest := s.sockets[ws := s.sockets[ws].(phase := Gone)];
    assert forall h :: 0 <= h < |rest| ==> !IsOpenHost(rest[h]);
  }

  lemma AnswerIsLetIn(s: State, token: Option<Token>)
    ensures HostAnswer(s, token) == Upgraded <==> LetIn(s, token)
  {
  }

  lemma ClosesForReason(s: State, e: Event, i: nat, code: nat)
    requires i < |s.sockets| && s.sockets[i].phase.Open? && Reason(s, e, i, code)
    ensures i < |Step(s, e).sockets| && Step(s, e).sockets[i].phase == Closing(code)
  {
    match e
    case Receive(from, m) => MessageIsClosed(s, from, m, i, code);
    case Leave(ws) => LeaveIsClosed(s, ws, i, code);
    case HostConnect(token) => AnswerIsLetIn(s, token);
    case _ =>
  }

  lemma ClosedHasReason(s: State, e: Event, i: nat)
    requires i < |s.sockets| && s.sockets[i].phase.Open? && i < |Step(s, e).sockets|
    requires Step(s, e).sockets[i].phase.Closing?
    ensures Reason(s, e, i, Step(s, e).sockets[i].phase.code)
  {
    match e
    case Receive(from, m) => MessageCloses(s, from, m, i);
    case Leave(ws) => LeaveCloses(s, ws, i);
    case HostConnect(token) => AnswerIsLetIn(s, token);
    case _ =>
  }

  /** Whatever the event, only a leave event moves a socket that is closed, and only it ends
      one for good. */
  lemma LeaveIsLast(s: State, e: Event, i: nat)
    requires i < |s.sockets|
    ensures i < |Step(s, e).sockets|
    ensures e == Leave(i) ==> Step(s, e).sockets[i].phase.Gone?
    ensures e != Leave(i) && !s.sockets[i].phase.Open? ==> Step(s, e).sockets[i].phase == s.sockets[i].phase
    ensures e != Leave(i) && s.sockets[i].phase.Open? ==> !Step(s, e).sockets[i].phase.Gone?
  {
    if e.Receive? {
      MessageMoves(s, e.from, e.message, i);
    } else if e.Leave? {
      LeaveMoves(s, e.ws, i);
    }
  }

  lemma LeaveMoves(s: State, ws: nat, i: nat)
    requires i < |s.sockets|
    ensures var t := OnLeave(s, ws);
      && i < |t.sockets|
      && (i == ws ==> t.sockets[i].phase.Gone?)
      && (i != ws && !s.sockets[i].phase.Open? ==> t.sockets[i].phase == s.sockets[i].phase)
      && (i != ws && s.sockets[i].phase.Open? ==> !t.sockets[i].phase.Gone?)
  {
  }

  lemma MessageMoves(s: State, from: nat, m: Message, i: nat)
    requires i < |s.sockets|
    ensures var t := OnMessage(s, from, m);
      && i < |t.sockets|
      && (!s.sockets[i].phase.Open? ==> t.sockets[i].phase == s.sockets[i].phase)
      && (s.sockets[i].phase.Open? ==> !t.sockets[i].phase.Gone?)
  {
  }

  /** An open socket is closed with a code exactly when what the code stands for happened, and
      is gone exactly with its own leave event. */
  lemma CodesTellWhy(s: State, e: Event, i: nat)
    requires i < |s.sockets| && s.sockets[i].phase.Open?
    ensures i < |Step(s, e).sockets|
    ensures forall code :: Step(s, e).sockets[i].phase == Closing(code) <==> Reason(s, e, i, code)
    ensures Step(s, e).sockets[i].phase.Gone? <==> e == Leave(i)
  {
    LeaveIsLast(s, e, i);
    if Step(s, e).sockets[i].phase.Closing? {
      ClosedHasReason(s, e, i);
    }
    forall code | Reason(s, e, i, code)
      ensures Step(s, e).sockets[i].phase == Closing(code)
    {
      ClosesForReason(s, e, i, code);
    }
  }

  /** A closed socket stays closed with its code until its leave event, its last. */
  lemma ClosedForGood(s: State, e: Event, i: nat)
    requires i < |s.sockets| && !s.sockets[i].phase.Open?
    ensures i < |Step(s, e).sockets|
    ensures Step(s, e).sockets[i].phase == if e == Leave(i) then Gone else s.sockets[i].phase
  {
    LeaveIsLast(s, e, i);
  }
}
