/** One shared tab's relay room (relay/src/room.ts) as a state machine: its sockets,
    what it keeps in storage, and one step per event the runtime hands it.

    A socket is its position in `sockets`, which only grows. Besides what the runtime
    keeps of it, it carries its history: every message the room took from it (`sent`),
    everything the room sent to it (`inbox`), and, for a guest, the host connection that
    let it in (`host`) with how much that host had sent by then (`since`). No step reads
    the history. */
module Room {
  import opened Hex

  const ID_BYTES := 8
  const MAX_GUESTS := 16
  const MAX_NOISE := 65535

  const REPLACED := 4000
  const HOST_LEFT := 4001
  const CLOSED_BY_HOST := 4003
  const OFFLINE := 4004
  const ENDED := 4010
  const FULL := 4029
  const TOO_BIG := 1009
  /** The code of a socket whose other end went away. */
  const PEER_GONE := 1005

  type GuestId = b: Bytes | |b| == ID_BYTES witness [0, 0, 0, 0, 0, 0, 0, 0]

  datatype Role = Host | Guest(id: string)

  /** Closing: no longer open, its leave event still to come. Gone: that event was handled. */
  datatype Phase = Open | Closing(code: nat) | Gone

  /** A host's text, as JSON reads it. */
  datatype Command = CloseGuest(id: string) | End | Other

  datatype Message = Text(command: Command) | Binary(body: Bytes)

  datatype Note = Opened(id: string) | Closed(id: string) | Data(bytes: Bytes)

  datatype Socket = Socket(role: Role, phase: Phase, host: nat, since: nat, inbox: seq<Note>, sent: seq<Message>)

  datatype State = State(sockets: seq<Socket>, claim: Option<string>, ended: bool, alarm: bool)

  datatype Token = Token(hash: string, owner: bool)

  datatype Event =
    | HostConnect(token: Option<Token>)
    | GuestConnect(id: GuestId)
    | Receive(from: nat, message: Message)
    | Drop(ws: nat)
    | Leave(ws: nat)
    | Alarm

  datatype Response = Upgraded | Unauthorized | Forbidden | Refused(code: nat)

  const EMPTY := State([], None, false, false)

  // ---- what the handlers do to one socket -------------------------------------

  function Shut(w: Socket, code: nat): Socket
  {
    if w.phase.Open? then w.(phase := Closing(code)) else w
  }

  /** A send reaches only an open socket. */
  function Send(w: Socket, n: Note): Socket
  {
    if w.phase.Open? then w.(inbox := w.inbox + [n]) else w
  }

  function Update(sockets: seq<Socket>, f: Socket -> Socket): seq<Socket>
  {
    seq(|sockets|, i requires 0 <= i < |sockets| => f(sockets[i]))
  }

  predicate IsOpenHost(w: Socket) { w.role.Host? && w.phase.Open? }

  predicate IsHeldGuest(w: Socket) { w.role.Guest? && !w.phase.Gone? }

  /** The first open host socket. */
  function OpenHost(sockets: seq<Socket>): (r: Option<nat>)
    ensures r.Some? ==> r.value < |sockets| && IsOpenHost(sockets[r.value])
    ensures r.None? ==> forall i :: 0 <= i < |sockets| ==> !IsOpenHost(sockets[i])
  {
    if sockets == [] then None
    else if IsOpenHost(sockets[0]) then Some(0)
    else
      var rest := OpenHost(sockets[1..]);
      if rest.None? then
        assert forall i :: 0 < i < |sockets| ==> sockets[i] == sockets[1..][i - 1];
        None
      else Some(rest.value + 1)
  }

  function HeldGuests(sockets: seq<Socket>): set<int>
  {
    set i | 0 <= i < |sockets| && IsHeldGuest(sockets[i])
  }

  // ---- the handlers -------------------------------------------------------------

  function HostAnswer(s: State, token: Option<Token>): Response
  {
    if token.None? then Unauthorized
    else if !token.value.owner && s.ended then Refused(ENDED)
    else if !token.value.owner && s.claim.Some? && s.claim.value != token.value.hash then Forbidden
    else Upgraded
  }

  function ForNewHost(w: Socket): Socket
  {
    Shut(w, if w.role.Host? then REPLACED else HOST_LEFT)
  }

  function NewHost(at: nat): Socket { Socket(Host, Open, at, 0, [], []) }

  function OnHostConnect(s: State, token: Option<Token>): State
  {
    if HostAnswer(s, token) != Upgraded || token.None? then s
    else
      State(Update(s.sockets, w => ForNewHost(w)) + [NewHost(|s.sockets|)], Some(token.value.hash), false, false)
  }

  function GuestAnswer(s: State): Response
  {
    if s.ended then Refused(ENDED)
    else if OpenHost(s.sockets).None? then Refused(OFFLINE)
    else if |HeldGuests(s.sockets)| >= MAX_GUESTS then Refused(FULL)
    else Upgraded
  }

  function NewGuest(id: string, host: nat, since: nat): Socket
  {
    Socket(Guest(id), Open, host, since, [], [])
  }

  function OnGuestConnect(s: State, id: GuestId): State
  {
    if GuestAnswer(s) != Upgraded then s
    else
      var h := OpenHost(s.sockets).value;
      var name := ToHex(id);
      s.(sockets := s.sockets[h := Send(s.sockets[h], Opened(name))]
                    + [NewGuest(name, h, |s.sockets[h].sent|)])
  }

  function Limit(role: Role): nat { if role.Host? then MAX_NOISE + ID_BYTES else MAX_NOISE }

  function Take(w: Socket, m: Message): Socket { w.(sent := w.sent + [m]) }

  /** One message from an open socket; the others deliver nothing. */
  function OnMessage(s: State, from: nat, m: Message): State
  {
    if from >= |s.sockets| || !s.sockets[from].phase.Open? then s
    else
      var taken := s.(sockets := s.sockets[from := Take(s.sockets[from], m)]);
      if m.Binary? && |m.body| > Limit(s.sockets[from].role) then
        taken.(sockets := taken.sockets[from := Shut(taken.sockets[from], TOO_BIG)])
      else if s.sockets[from].role.Host? then
        if m.Text? then OnCommand(taken, m.command) else taken.(sockets := ToGuest(taken.sockets, m.body))
      else if m.Text? then taken
      else taken.(sockets := ToHost(taken.sockets, from, m.body))
  }

  function Deliver(w: Socket, id: string, body: Bytes): Socket
  {
    if w.role == Guest(id) then Send(w, Data(body)) else w
  }

  function ToGuest(sockets: seq<Socket>, body: Bytes): seq<Socket>
  {
    if |body| <= ID_BYTES then sockets
    else Update(sockets, w => Deliver(w, ToHex(body[..ID_BYTES]), body[ID_BYTES..]))
  }

  function ToHost(sockets: seq<Socket>, from: nat, body: Bytes): seq<Socket>
    requires from < |sockets| && sockets[from].role.Guest?
  {
    match OpenHost(sockets)
    case None => sockets[from := Shut(sockets[from], OFFLINE)]
    case Some(h) => sockets[h := Send(sockets[h], Data(FromHex(sockets[from].role.id) + body))]
  }

  function ShutGuest(w: Socket, id: string): Socket
  {
    if w.role == Guest(id) then Shut(w, CLOSED_BY_HOST) else w
  }

  function OnCommand(s: State, c: Command): State
  {
    match c
    case CloseGuest(id) => s.(sockets := Update(s.sockets, w => ShutGuest(w, id)))
    case End => State(Update(s.sockets, w => Shut(w, ENDED)), None, true, true)
    case Other => s
  }

  /** The other end of a socket goes away; the leave event follows. */
  function OnDrop(s: State, ws: nat): State
  {
    if ws >= |s.sockets| then s
    else s.(sockets := s.sockets[ws := Shut(s.sockets[ws], PEER_GONE)])
  }

  function ShutOffline(w: Socket): Socket
  {
    if w.role.Guest? then Shut(w, OFFLINE) else w
  }

  /** The close or error event of a socket, its last. */
  function OnLeave(s: State, ws: nat): State
  {
    if ws >= |s.sockets| || s.sockets[ws].phase.Gone? then s
    else
      var rest := s.sockets[ws := s.sockets[ws].(phase := Gone)];
      match (s.sockets[ws].role, OpenHost(rest))
      case (Guest(id), Some(h)) => s.(sockets := rest[h := Send(rest[h], Closed(id))])
      case (Guest(_), None) => s.(sockets := rest)
      case (Host, Some(_)) => s.(sockets := rest)
      case (Host, None) => s.(sockets := Update(rest, w => ShutOffline(w)), alarm := s.alarm || s.claim.Some?)
  }

  function OnAlarm(s: State): State
  {
    if !s.alarm then s
    else if OpenHost(s.sockets).Some? then s.(alarm := false)
    else State(s.sockets, None, false, false)
  }

  function Step(s: State, e: Event): State
  {
    match e
    case HostConnect(token) => OnHostConnect(s, token)
    case GuestConnect(id) => OnGuestConnect(s, id)
    case Receive(from, m) => OnMessage(s, from, m)
    case Drop(ws) => OnDrop(s, ws)
    case Leave(ws) => OnLeave(s, ws)
    case Alarm => OnAlarm(s)
  }

  /** The state a new room is in after `events`, in order. */
  function Run(events: seq<Event>): State
  {
    if events == [] then EMPTY
    else Step(Run(events[..|events| - 1]), events[|events| - 1])
  }
}
