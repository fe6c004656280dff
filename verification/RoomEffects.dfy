/** What each event does to a room, told socket by socket and not handler by handler: who is
    let in, what each socket hears, and what is stored. */
module RoomEffects {
  import opened Hex
  import opened Room
  import opened RoomSafety
  import opened RoomFifo

  // ---- who is let in -------------------------------------------------------------------

  /** Each answer to a host's token, exactly when it is given; and only a host that is let in
      gets a socket. */
  lemma HostIsLetIn(s: State, token: Option<Token>)
    ensures HostAnswer(s, token) == Upgraded <==> LetIn(s, token)
    ensures HostAnswer(s, token) == Unauthorized <==> token.None?
    ensures HostAnswer(s, token) == Refused(ENDED) <==> token.Some? && !token.value.owner && s.ended
    ensures HostAnswer(s, token) == Forbidden <==>
              token.Some? && !token.value.owner && !s.ended && s.claim.Some? && s.claim.value != token.value.hash
    ensures var t := Step(s, HostConnect(token));
      if LetIn(s, token) then |t.sockets| == |s.sockets| + 1 && IsOpenHost(t.sockets[|s.sockets|]) else t == s
  {
  }

  /** The guests that were let in and whose leave event is still to come. */
  ghost function Staying(s: State): set<int>
  {
    set i | 0 <= i < |s.sockets| && s.sockets[i].role.Guest? && !s.sockets[i].phase.Gone?
  }

  /** And to a guest. One that is let in comes to the open host. */
  lemma GuestIsLetIn(s: State, id: GuestId)
    ensures GuestAnswer(s) == Refused(ENDED) <==> s.ended
    ensures GuestAnswer(s) == Refused(OFFLINE) <==> !s.ended && NoOpenHost(s)
    ensures GuestAnswer(s) == Refused(FULL) <==> !s.ended && !NoOpenHost(s) && |Staying(s)| >= 16
    ensures GuestAnswer(s) == Upgraded <==> !s.ended && !NoOpenHost(s) && |Staying(s)| < 16
    ensures var t := Step(s, GuestConnect(id));
      if GuestAnswer(s) == Upgraded then
        && |t.sockets| == |s.sockets| + 1
        && var w := t.sockets[|s.sockets|];
          && w.role == Guest(ToHex(id)) && w.phase.Open? && w.inbox == [] && w.sent == []
          && w.host < |s.sockets| && IsOpenHost(s.sockets[w.host])
      else t == s
  {
    assert Staying(s) == HeldGuests(s.sockets);
    assert NoOpenHost(s) <==> OpenHost(s.sockets).None?;
  }

  lemma OthersAddNone(s: State, e: Event)
    requires !e.HostConnect? && !e.GuestConnect?
    ensures |Step(s, e).sockets| == |s.sockets|
  {
  }

  // ---- what is stored ------------------------------------------------------------------

  ghost predicate Forgets(s: State, e: Event) { e.Alarm? && s.alarm && NoOpenHost(s) }

  /** The alarm of a room nobody came back to forgets all of it, and a host that is let in ends
      what was kept; nothing else does. */
  lemma StorageChanges(s: State, e: Event)
    ensures var t, ends := Step(s, e), FromOpenHost(s, e, End);
      && t.claim == (if Accepts(s, e) then Some(e.token.value.hash) else if ends || Forgets(s, e) then None else s.claim)
      && (t.ended <==> ends || (s.ended && !Accepts(s, e) && !Forgets(s, e)))
      && (t.alarm <==> ends || (LastHostLeft(s, e) && s.claim.Some?) || (s.alarm && !Accepts(s, e) && !e.Alarm?))
  {
    if e.Leave? && e.ws < |s.sockets| && !s.sockets[e.ws].phase.Gone? {
      LeaveStores(s, e.ws);
    } else if e.Receive? {
      MessageStores(s, e.from, e.message);
    }
  }

  lemma MessageStores(s: State, from: nat, m: Message)
    ensures var t := OnMessage(s, from, m);
      if FromOpenHost(s, Receive(from, m), End) then t.claim == None && t.ended && t.alarm
      else t.claim == s.claim && t.ended == s.ended && t.alarm == s.alarm
  {
  }

  lemma LeaveStores(s: State, ws: nat)
    requires ws < |s.sockets| && !s.sockets[ws].phase.Gone?
    ensures var t := OnLeave(s, ws);
      && t.claim == s.claim && t.ended == s.ended
      && (t.alarm <==> s.alarm || (LastHostLeft(s, Leave(ws)) && s.claim.Some?))
  {
    var rest := s.sockets[ws := s.sockets[ws].(phase := Gone)];
    assert forall h :: 0 <= h < |rest| && h != ws ==> rest[h] == s.sockets[h];
    assert !IsOpenHost(rest[ws]);
  }

  // ---- what each socket hears -------------------------------------------------------------

  /** An event brings a note to the open socket `i`. */
  ghost predicate Comes(s: State, e: Event, i: nat, n: Note)
    requires i < |s.sockets|
  {
    match n
    case Opened(c) =>
      s.sockets[i].role.Host? && e.GuestConnect? && c == ToHex(e.id) && GuestAnswer(s) == Upgraded
    case Closed(c) =>
      s.sockets[i].role.Host? && e.Leave? && e.ws < |s.sockets| && s.sockets[e.ws].role == Guest(c)
      && !s.sockets[e.ws].phase.Gone?
    case Data(bytes) => Routed(s, e, i, bytes)
  }

  /** A guest's message goes to the host behind the guest's id, and a host's without the id it
      begins with to that guest. */
  ghost predicate Routed(s: State, e: Event, i: nat, bytes: Bytes)
    requires i < |s.sockets|
  {
    && e.Receive? && e.message.Binary? && e.from < |s.sockets| && s.sockets[e.from].phase.Open?
    && var body := e.message.body;
      match (s.sockets[e.from].role, s.sockets[i].role)
      case (Guest(id), Host) => |body| <= MAX_NOISE && bytes == FromHex(id) + body
      case (Host, Guest(id)) =>
        ID_BYTES < |body| <= MAX_NOISE + ID_BYTES && ToHex(body[..ID_BYTES]) == id && bytes == body[ID_BYTES..]
      case _ => false
  }

  ghost predicate HearsOnly(s: State, e: Event, i: nat, w: Socket)
    requires i < |s.sockets|
  {
    var v := s.sockets[i];
    && (w.inbox == v.inbox || (w.inbox != [] && w.inbox == v.inbox + [w.inbox[|w.inbox| - 1]]))
    && forall n :: w.inbox == v.inbox + [n] <==> v.phase.Open? && Comes(s, e, i, n)
  }

  lemma OneOpenHost(s: State, h: nat)
    requires SocketsInv(s.sockets) && h < |s.sockets| && IsOpenHost(s.sockets[h])
    ensures OpenHost(s.sockets) == Some(h)
  {
    var k := OpenHost(s.sockets).value;
    assert IsHost(s.sockets, h) && IsHost(s.sockets, k);
    assert !(h < k) && !(k < h);
  }

  lemma SameInbox(s: State, e: Event, i: nat, w: Socket)
    requires i < |s.sockets| && w.inbox == s.sockets[i].inbox
    requires forall n :: !(s.sockets[i].phase.Open? && Comes(s, e, i, n))
    ensures HearsOnly(s, e, i, w)
  {
    forall n
      ensures w.inbox != s.sockets[i].inbox + [n]
    {
      assert |s.sockets[i].inbox + [n]| == |w.inbox| + 1;
    }
  }

  lemma OneNote(s: State, e: Event, i: nat, w: Socket, n: Note)
    requires i < |s.sockets| && w.inbox == s.sockets[i].inbox + [n]
    requires s.sockets[i].phase.Open? && forall k :: Comes(s, e, i, k) <==> k == n
    ensures HearsOnly(s, e, i, w)
  {
    assert w.inbox[|w.inbox| - 1] == n;
    forall k
      ensures w.inbox == s.sockets[i].inbox + [k] <==> k == n
    {
      assert (s.sockets[i].inbox + [k])[|w.inbox| - 1] == k;
    }
  }

  lemma HearsOnMessage(s: State, from: nat, m: Message, i: nat)
    requires Inv(s) && i < |s.sockets| && i < |OnMessage(s, from, m).sockets|
    ensures HearsOnly(s, Receive(from, m), i, OnMessage(s, from, m).sockets[i])
  {
    var e, w := Receive(from, m), OnMessage(s, from, m).sockets[i];
    if n :| s.sockets[i].phase.Open? && Comes(s, e, i, n) {
      NoteArrives(s, from, m, i, n);
      OneNote(s, e, i, w, n);
    } else {
      NothingArrives(s, from, m, i);
      SameInbox(s, e, i, w);
    }
  }

  lemma NoteArrives(s: State, from: nat, m: Message, i: nat, n: Note)
    requires Inv(s) && i < |s.sockets| && s.sockets[i].phase.Open? && Comes(s, Receive(from, m), i, n)
    ensures i < |OnMessage(s, from, m).sockets|
    ensures OnMessage(s, from, m).sockets[i].inbox == s.sockets[i].inbox + [n]
    ensures forall k :: Comes(s, Receive(from, m), i, k) <==> k == n
  {
    var taken := s.sockets[from := Take(s.sockets[from], m)];
    if s.sockets[i].role.Host? {
      OneOpenHost(s, i);
      SameOpenHost(s.sockets, taken);
    }
  }

  lemma NothingArrives(s: State, from: nat, m: Message, i: nat)
    requires Inv(s) && i < |s.sockets| && i < |OnMessage(s, from, m).sockets|
    requires forall n :: !(s.sockets[i].phase.Open? && Comes(s, Receive(from, m), i, n))
    ensures OnMessage(s, from, m).sockets[i].inbox == s.sockets[i].inbox
  {
    if from < |s.sockets| && s.sockets[from].phase.Open? && m.Binary? && |m.body| <= Limit(s.sockets[from].role) {
      if s.sockets[from].role.Guest? {
        NotForwarded(s, from, m, i);
      } else {
        NotDelivered(s, from, m, i);
      }
    }
  }

  lemma NotForwarded(s: State, from: nat, m: Message, i: nat)
    requires i < |s.sockets| && i < |OnMessage(s, from, m).sockets|
    requires from < |s.sockets| && s.sockets[from].phase.Open? && s.sockets[from].role.Guest?
    requires m.Binary? && |m.body| <= MAX_NOISE
    requires !(s.sockets[i].phase.Open?
               && Comes(s, Receive(from, m), i, Data(FromHex(s.sockets[from].role.id) + m.body)))
    ensures OnMessage(s, from, m).sockets[i].inbox == s.sockets[i].inbox
  {
    SameOpenHost(s.sockets, s.sockets[from := Take(s.sockets[from], m)]);
  }

  lemma NotDelivered(s: State, from: nat, m: Message, i: nat)
    requires i < |s.sockets| && i < |OnMessage(s, from, m).sockets|
    requires from < |s.sockets| && s.sockets[from].phase.Open? && s.sockets[from].role.Host?
    requires m.Binary? && |m.body| <= MAX_NOISE + ID_BYTES
    requires |m.body| > ID_BYTES ==>
               !(s.sockets[i].phase.Open? && Comes(s, Receive(from, m), i, Data(m.body[ID_BYTES..])))
    ensures OnMessage(s, from, m).sockets[i].inbox == s.sockets[i].inbox
  {
  }

  lemma HearsOnLeave(s: State, ws: nat, i: nat)
    requires Inv(s) && i < |s.sockets| && i < |OnLeave(s, ws).sockets|
    ensures HearsOnly(s, Leave(ws), i, OnLeave(s, ws).sockets[i])
  {
    var e, w := Leave(ws), OnLeave(s, ws).sockets[i];
    if ws < |s.sockets| && s.sockets[ws].role.Guest? && !s.sockets[ws].phase.Gone? && IsOpenHost(s.sockets[i]) {
      var rest := s.sockets[ws := s.sockets[ws].(phase := Gone)];
      OneOpenHost(s, i);
      SameOpenHost(s.sockets, rest);
      OneNote(s, e, i, w, Closed(s.sockets[ws].role.id));
    } else {
      LeaveTellsNone(s, ws, i);
      SameInbox(s, e, i, w);
    }
  }

  lemma LeaveTellsNone(s: State, ws: nat, i: nat)
    requires i < |s.sockets| && i < |OnLeave(s, ws).sockets|
    requires ws < |s.sockets| && s.sockets[ws].role.Guest? && !s.sockets[ws].phase.Gone? ==> !IsOpenHost(s.sockets[i])
    ensures OnLeave(s, ws).sockets[i].inbox == s.sockets[i].inbox
  {
  }

  lemma HearsOnConnect(s: State, e: Event, i: nat)
    requires Inv(s) && i < |s.sockets| && i < |Step(s, e).sockets| && (e.HostConnect? || e.GuestConnect?)
    ensures HearsOnly(s, e, i, Step(s, e).sockets[i])
  {
    var w := Step(s, e).sockets[i];
    if e.GuestConnect? && GuestAnswer(s) == Upgraded && IsOpenHost(s.sockets[i]) {
      OneOpenHost(s, i);
      OneNote(s, e, i, w, Opened(ToHex(e.id)));
    } else {
      SameInbox(s, e, i, w);
    }
  }

  /** Over every run an event adds to a socket's inbox exactly the note it brings it, and to what
      the room took from a socket exactly the message it sent while open. */
  lemma InboxesTellAll(events: seq<Event>, e: Event, i: nat)
    requires i < |Run(events).sockets|
    ensures var s, t := Run(events), Step(Run(events), e);
      && i < |t.sockets|
      && HearsOnly(s, e, i, t.sockets[i])
      && t.sockets[i].sent == s.sockets[i].sent
           + (if e.Receive? && e.from == i && s.sockets[i].phase.Open? then [e.message] else [])
  {
    RunKeeps(events);
    StepHears(Run(events), e, i);
  }

  lemma StepHears(s: State, e: Event, i: nat)
    requires Inv(s) && i < |s.sockets|
    ensures var t := Step(s, e);
      && i < |t.sockets|
      && HearsOnly(s, e, i, t.sockets[i])
      && t.sockets[i].sent == s.sockets[i].sent
           + (if e.Receive? && e.from == i && s.sockets[i].phase.Open? then [e.message] else [])
  {
    LeaveIsLast(s, e, i);
    SentGrows(s, e, i);
    match e
    case Receive(from, m) => HearsOnMessage(s, from, m, i);
    case Leave(ws) => HearsOnLeave(s, ws, i);
    case HostConnect(_) => HearsOnConnect(s, e, i);
    case GuestConnect(_) => HearsOnConnect(s, e, i);
    case _ => SameInbox(s, e, i, Step(s, e).sockets[i]);
  }

  lemma SentGrows(s: State, e: Event, i: nat)
    requires i < |s.sockets| && i < |Step(s, e).sockets|
    ensures Step(s, e).sockets[i].sent == s.sockets[i].sent
         + (if e.Receive? && e.from == i && s.sockets[i].phase.Open? then [e.message] else [])
  {
    if e.Receive? {
      MessageSent(s, e.from, e.message, i);
    } else if e.Leave? {
      LeaveSent(s, e.ws, i);
    }
  }

  lemma LeaveSent(s: State, ws: nat, i: nat)
    requires i < |s.sockets| && i < |OnLeave(s, ws).sockets|
    ensures OnLeave(s, ws).sockets[i].sent == s.sockets[i].sent
  {
  }

  lemma MessageSent(s: State, from: nat, m: Message, i: nat)
    requires i < |s.sockets| && i < |OnMessage(s, from, m).sockets|
    ensures OnMessage(s, from, m).sockets[i].sent
         == s.sockets[i].sent + (if from == i && s.sockets[i].phase.Open? then [m] else [])
  {
  }

  // ---- a host that stays is told everything -----------------------------------------------

  /** What an open host was told of its guest: that it joined, every one of its messages, and
      that it left once it did. */
  ghost predicate ToldAll(ws: seq<Socket>, g: int)
    requires IsGuest(ws, g) && GuestsHaveHosts(ws)
  {
    var id := ws[g].role.id;
    About(ws[ws[g].host].inbox, id)
      == [Opened(id)] + Tagged(ws[g].sent, id) + LeftNote(ws[g])
  }

  lemma AboutGrows(a: seq<Note>, b: seq<Note>, id: string)
    requires b == a || (b != [] && b == a + [b[|b| - 1]])
    ensures About(b, id) == About(a, id) + if b == a then [] else Only(b[|b| - 1], id)
  {
    if b != a {
      AboutAppend(a, b[|b| - 1], id);
    }
  }

  /** What one event adds to it. */
  lemma NewsOfGuest(s: State, e: Event, g: nat)
    requires Inv(s) && DistinctIds(Step(s, e).sockets) && IsGuest(s.sockets, g)
    requires s.sockets[g].host < |s.sockets| && IsOpenHost(s.sockets[s.sockets[g].host])
    ensures var h, id := s.sockets[g].host, s.sockets[g].role.id;
      && h < |Step(s, e).sockets|
      && About(Step(s, e).sockets[h].inbox, id) == About(s.sockets[h].inbox, id)
           + Heard(s, e, g) + Left(s, e, g)
  {
    var h, id := s.sockets[g].host, s.sockets[g].role.id;
    StepHears(s, e, h);
    var a, b := s.sockets[h].inbox, Step(s, e).sockets[h].inbox;
    AboutGrows(a, b, id);
    if b == a {
      NoNews(s, e, g, h);
    } else {
      NewsIs(s, e, g, h, b[|b| - 1]);
    }
  }

  lemma NoNews(s: State, e: Event, g: nat, h: nat)
    requires IsGuest(s.sockets, g) && h < |s.sockets| && IsOpenHost(s.sockets[h])
    requires forall n :: !Comes(s, e, h, n)
    ensures Heard(s, e, g) == [] && Left(s, e, g) == []
  {
    var id := s.sockets[g].role.id;
    if e.Receive? && e.message.Binary? {
      assert !Comes(s, e, h, Data(FromHex(id) + e.message.body));
    }
    assert !Comes(s, e, h, Closed(id));
  }

  lemma NewsIs(s: State, e: Event, g: nat, h: nat, n: Note)
    requires Inv(s) && DistinctIds(Step(s, e).sockets) && IsGuest(s.sockets, g)
    requires h < |s.sockets| && IsOpenHost(s.sockets[h]) && Comes(s, e, h, n)
    ensures Only(n, s.sockets[g].role.id)
         == Heard(s, e, g) + Left(s, e, g)
  {
    var id, t := s.sockets[g].role.id, Step(s, e);
    StepExtends(s, e);
    assert IsGuest(t.sockets, g);
    match n
    case Opened(c) =>
      GuestIsLetIn(s, e.id);
      assert IsGuest(t.sockets, |s.sockets|);
    case Closed(c) =>
      assert IsGuest(t.sockets, e.ws);
    case Data(bytes) =>
      var from := e.from;
      assert IsGuest(s.sockets, from) && IsGuest(t.sockets, from);
      TagConcernsOne(s.sockets[from].role.id, id, e.message.body);
  }

  function Heard(s: State, e: Event, g: nat): seq<Note>
    requires IsGuest(s.sockets, g)
  {
    if e.Receive? && e.from == g && s.sockets[g].phase.Open? then Tag(e.message, s.sockets[g].role.id) else []
  }

  function Left(s: State, e: Event, g: nat): seq<Note>
    requires IsGuest(s.sockets, g)
  {
    if e == Leave(g) && !s.sockets[g].phase.Gone? then [Closed(s.sockets[g].role.id)] else []
  }

  function LeftNote(w: Socket): seq<Note>
    requires w.role.Guest?
  {
    if w.phase.Gone? then [Closed(w.role.id)] else []
  }

  lemma Regroup(j: seq<Note>, t: seq<Note>, c: seq<Note>, x: seq<Note>, y: seq<Note>)
    requires c == [] || x == []
    ensures j + t + c + x + y == j + (t + x) + (c + y)
  {
  }

  lemma SentIsTagged(s: State, e: Event, g: nat)
    requires IsGuest(s.sockets, g) && g < |Step(s, e).sockets|
    ensures Tagged(Step(s, e).sockets[g].sent, s.sockets[g].role.id)
         == Tagged(s.sockets[g].sent, s.sockets[g].role.id) + Heard(s, e, g)
  {
    var before, after := s.sockets[g].sent, Step(s, e).sockets[g].sent;
    SentGrows(s, e, g);
    if e.Receive? && e.from == g && s.sockets[g].phase.Open? {
      TaggedOneMore(before, after, e.message, s.sockets[g].role.id);
    } else {
      assert after == before;
    }
  }

  lemma TaggedOneMore(before: seq<Message>, after: seq<Message>, m: Message, id: string)
    requires after == before + [m]
    ensures Tagged(after, id) == Tagged(before, id) + Tag(m, id)
  {
    TaggedAppend(before, m, id);
  }

  lemma LeftIsNoted(s: State, e: Event, g: nat)
    requires IsGuest(s.sockets, g) && IsGuest(Step(s, e).sockets, g)
    requires Step(s, e).sockets[g].role == s.sockets[g].role
    ensures LeftNote(Step(s, e).sockets[g]) == LeftNote(s.sockets[g]) + Left(s, e, g)
    ensures LeftNote(s.sockets[g]) == [] || Heard(s, e, g) == []
  {
    LeaveIsLast(s, e, g);
  }

  lemma ToldAllStays(s: State, e: Event, g: nat)
    requires Inv(s) && DistinctIds(Step(s, e).sockets) && IsGuest(s.sockets, g) && ToldAll(s.sockets, g)
    requires IsHost(s.sockets, s.sockets[g].host) && IsOpenHost(s.sockets[s.sockets[g].host])
    requires IsGuest(Step(s, e).sockets, g) && GuestsHaveHosts(Step(s, e).sockets)
    requires Step(s, e).sockets[g].role == s.sockets[g].role && Step(s, e).sockets[g].host == s.sockets[g].host
    ensures ToldAll(Step(s, e).sockets, g)
  {
    var w := s.sockets[g];
    NewsOfGuest(s, e, g);
    SentIsTagged(s, e, g);
    LeftIsNoted(s, e, g);
    Regroup([Opened(w.role.id)], Tagged(w.sent, w.role.id), LeftNote(w), Heard(s, e, g), Left(s, e, g));
  }

  lemma HostsStayTheSame(s: State, e: Event, g: nat)
    requires g < |s.sockets|
    ensures g < |Step(s, e).sockets| && Step(s, e).sockets[g].host == s.sockets[g].host
    ensures Step(s, e).sockets[g].role == s.sockets[g].role
  {
    StepExtends(s, e);
    if e.Receive? {
      MessageSameHost(s, e.from, e.message, g);
    } else if e.Leave? {
      LeaveSameHost(s, e.ws, g);
    }
  }

  lemma MessageSameHost(s: State, from: nat, m: Message, g: nat)
    requires g < |s.sockets| && g < |OnMessage(s, from, m).sockets|
    ensures OnMessage(s, from, m).sockets[g].host == s.sockets[g].host
  {
  }

  lemma LeaveSameHost(s: State, ws: nat, g: nat)
    requires g < |s.sockets| && g < |OnLeave(s, ws).sockets|
    ensures OnLeave(s, ws).sockets[g].host == s.sockets[g].host
  {
  }

  lemma NewGuestJoins(s: State, e: Event, g: nat)
    requires g >= |s.sockets| && IsGuest(Step(s, e).sockets, g)
    ensures e.GuestConnect? && GuestAnswer(s) == Upgraded && g == |s.sockets|
    ensures var w := Step(s, e).sockets[g];
      && w.role == Guest(ToHex(e.id)) && w.sent == [] && w.phase.Open?
      && w.host < |s.sockets| && IsOpenHost(s.sockets[w.host])
  {
    if !e.HostConnect? && !e.GuestConnect? {
      OthersAddNone(s, e);
    } else if e.GuestConnect? {
      GuestIsLetIn(s, e.id);
    }
  }

  lemma NewIdIsNew(s: State, e: Event, g: nat)
    requires DistinctIds(Step(s, e).sockets) && g >= |s.sockets| && IsGuest(Step(s, e).sockets, g)
    ensures forall k :: IsGuest(s.sockets, k) ==> s.sockets[k].role.id != Step(s, e).sockets[g].role.id
  {
    StepExtends(s, e);
    forall k | IsGuest(s.sockets, k)
      ensures s.sockets[k].role.id != Step(s, e).sockets[g].role.id
    {
      assert IsGuest(Step(s, e).sockets, k);
    }
  }

  lemma ToldOfJoining(s: State, e: Event, g: nat)
    requires Inv(s) && DistinctIds(Step(s, e).sockets) && NotesAreKnown(s.sockets)
    requires g >= |s.sockets| && IsGuest(Step(s, e).sockets, g) && GuestsHaveHosts(Step(s, e).sockets)
    ensures ToldAll(Step(s, e).sockets, g)
  {
    NewGuestJoins(s, e, g);
    NewIdIsNew(s, e, g);
    var h, id := Step(s, e).sockets[g].host, ToHex(e.id);
    assert IsHost(s.sockets, h);
    FreshIsUntold(s.sockets, h, id);
    HostHearsJoin(s, e, h);
    AboutAppend(s.sockets[h].inbox, Opened(id), id);
  }

  lemma HostHearsJoin(s: State, e: Event, h: nat)
    requires Inv(s) && h < |s.sockets| && IsOpenHost(s.sockets[h]) && e.GuestConnect? && GuestAnswer(s) == Upgraded
    ensures h < |Step(s, e).sockets|
    ensures Step(s, e).sockets[h].inbox == s.sockets[h].inbox + [Opened(ToHex(e.id))]
  {
    StepHears(s, e, h);
    assert Comes(s, e, h, Opened(ToHex(e.id)));
  }

  lemma FirstIds(s: State, e: Event)
    requires DistinctIds(Step(s, e).sockets)
    ensures DistinctIds(s.sockets)
  {
    StepExtends(s, e);
    forall g, k | IsGuest(s.sockets, g) && IsGuest(s.sockets, k) && g != k
      ensures s.sockets[g].role.id != s.sockets[k].role.id
    {
      assert IsGuest(Step(s, e).sockets, g) && IsGuest(Step(s, e).sockets, k);
    }
  }

  /** Over every run with distinct ids: a host that is still connected was told of each of its
      guests that it joined, all of its messages, and, exactly when it has left, that it did. */
  lemma {:induction false} HostIsToldAll(events: seq<Event>, g: int)
    requires DistinctIds(Run(events).sockets) && IsGuest(Run(events).sockets, g)
    ensures GuestsHaveHosts(Run(events).sockets)
    ensures Run(events).sockets[Run(events).sockets[g].host].phase.Open? ==> ToldAll(Run(events).sockets, g)
  {
    RunKeeps(events);
    if events != [] {
      var before, e := events[..|events| - 1], events[|events| - 1];
      var s := Run(before);
      RunKeeps(before);
      FirstIds(s, e);
      RunIsLinked(before);
      var h := Run(events).sockets[g].host;
      assert IsHost(Run(events).sockets, h);
      if g >= |s.sockets| {
        ToldOfJoining(s, e, g);
      } else if Run(events).sockets[h].phase.Open? {
        HostsStayTheSame(s, e, g);
        assert IsGuest(s.sockets, g);
        HostsStayTheSame(s, e, h);
        HostIsToldAll(before, g);
        if !s.sockets[h].phase.Open? {
          LeaveIsLast(s, e, h);
        }
        ToldAllStays(s, e, g);
      }
    }
  }
}
