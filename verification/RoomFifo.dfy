/** The room as a set of independent first-in first-out channels: what a guest and the
    host connection that let it in receive from each other. */
module RoomFifo {
  import opened Hex
  import opened Room
  import opened RoomSafety

  /** The bodies a host's messages address to `id`, as that guest receives them. */
  function Addressed(sent: seq<Message>, id: string): seq<Note>
  {
    if sent == [] then []
    else Addressed(sent[..|sent| - 1], id) + Body(sent[|sent| - 1], id)
  }

  function Body(m: Message, id: string): seq<Note>
  {
    if m.Binary? && ID_BYTES < |m.body| <= MAX_NOISE + ID_BYTES && ToHex(m.body[..ID_BYTES]) == id
    then [Data(m.body[ID_BYTES..])] else []
  }

  /** The bodies a guest's messages carry, as its host receives them: with its id in front. */
  function Tagged(sent: seq<Message>, id: string): seq<Note>
  {
    if sent == [] then []
    else Tagged(sent[..|sent| - 1], id) + Tag(sent[|sent| - 1], id)
  }

  function Tag(m: Message, id: string): seq<Note>
  {
    if m.Binary? && |m.body| <= MAX_NOISE then [Data(FromHex(id) + m.body)] else []
  }

  /** What a host was told of the guest `id`. */
  function About(inbox: seq<Note>, id: string): seq<Note>
  {
    if inbox == [] then []
    else About(inbox[..|inbox| - 1], id) + Only(inbox[|inbox| - 1], id)
  }

  function Only(n: Note, id: string): seq<Note>
  {
    if Concerns(n, id) then [n] else []
  }

  predicate Concerns(n: Note, id: string)
  {
    match n
    case Opened(c) => c == id
    case Closed(c) => c == id
    case Data(bytes) => |bytes| >= ID_BYTES && ToHex(bytes[..ID_BYTES]) == id
  }

  /** What `g` received is what its host addressed to it since it was let in: all of it so
      far while it is open, and the first part of it once it is not. */
  ghost predicate Downlink(ws: seq<Socket>, g: int)
    requires IsGuest(ws, g) && GuestsHaveHosts(ws)
  {
    var h := ws[ws[g].host];
    && ws[g].since <= |h.sent|
    && ws[g].inbox <= Addressed(h.sent[ws[g].since..], ws[g].role.id)
    && (ws[g].phase.Open? ==> ws[g].inbox == Addressed(h.sent[ws[g].since..], ws[g].role.id))
  }

  /** What `g`'s host was told of it: that it joined, then the first `n` of its messages,
      then perhaps that it left. Only a message that found no open host, which closes the
      guest, can be missing. */
  ghost predicate Uplink(ws: seq<Socket>, g: int, n: nat)
    requires IsGuest(ws, g) && GuestsHaveHosts(ws)
  {
    var id := ws[g].role.id;
    var told := About(ws[ws[g].host].inbox, id);
    var tagged := Tagged(ws[g].sent, id);
    && |tagged| - 1 <= n <= |tagged|
    && (ws[g].phase.Open? ==> n == |tagged|)
    && (|| told == [Opened(id)] + tagged[..n]
        || (ws[g].phase.Gone? && told == [Opened(id)] + tagged[..n] + [Closed(id)]))
  }

  /** Another host connection hears of `g` at most that it left. */
  ghost predicate Elsewhere(ws: seq<Socket>, g: int, h: int)
    requires IsGuest(ws, g) && IsHost(ws, h)
  {
    var told := About(ws[h].inbox, ws[g].role.id);
    told == [] || (told == [Closed(ws[g].role.id)] && ws[g].phase.Gone? && h > ws[g].host)
  }

  ghost predicate DistinctIds(ws: seq<Socket>)
  {
    forall g, k :: IsGuest(ws, g) && IsGuest(ws, k) && g != k ==> ws[g].role.id != ws[k].role.id
  }

  ghost predicate Downlinks(ws: seq<Socket>)
    requires GuestsHaveHosts(ws)
  {
    forall g :: IsGuest(ws, g) ==> Downlink(ws, g)
  }

  ghost predicate UplinkOf(ws: seq<Socket>, g: int)
    requires IsGuest(ws, g) && GuestsHaveHosts(ws)
  {
    && (exists n: nat :: Uplink(ws, g, n))
    && (forall h :: IsHost(ws, h) && h != ws[g].host ==> Elsewhere(ws, g, h))
  }

  ghost predicate Uplinks(ws: seq<Socket>)
    requires GuestsHaveHosts(ws)
  {
    forall g :: IsGuest(ws, g) ==> UplinkOf(ws, g)
  }

  /** A host is told only of guests that were let in. */
  ghost predicate NotesAreKnown(ws: seq<Socket>)
  {
    forall h, k :: IsHost(ws, h) && 0 <= k < |ws[h].inbox| ==> IsKnown(ws, ws[h].inbox[k])
  }

  ghost predicate IsKnown(ws: seq<Socket>, n: Note)
  {
    exists g :: IsGuest(ws, g) && Concerns(n, ws[g].role.id)
  }

  // ---- one more message, one more note -------------------------------------------

  lemma AboutAppend(inbox: seq<Note>, n: Note, id: string)
    ensures About(inbox + [n], id) == About(inbox, id) + Only(n, id)
  {
    assert (inbox + [n])[..|inbox|] == inbox;
  }

  lemma TaggedAppend(sent: seq<Message>, m: Message, id: string)
    ensures Tagged(sent + [m], id) == Tagged(sent, id) + Tag(m, id)
  {
    assert (sent + [m])[..|sent|] == sent;
  }

  lemma AddressedAppend(sent: seq<Message>, m: Message, since: nat, id: string)
    requires since <= |sent|
    ensures Addressed((sent + [m])[since..], id) == Addressed(sent[since..], id) + Body(m, id)
  {
    var rest := sent[since..];
    assert (sent + [m])[since..] == rest + [m];
    assert (rest + [m])[..|rest|] == rest;
  }

  lemma {:induction false} UnknownIsUntold(inbox: seq<Note>, id: string)
    requires forall k :: 0 <= k < |inbox| ==> !Concerns(inbox[k], id)
    ensures About(inbox, id) == []
  {
    if inbox != [] {
      UnknownIsUntold(inbox[..|inbox| - 1], id);
    }
  }

  /** A forwarded message concerns the guest whose id it carries and no other. */
  lemma TagConcernsOne(id: string, other: string, body: Bytes)
    requires IsIdText(id)
    ensures Concerns(Data(FromHex(id) + body), other) <==> id == other
  {
    assert (FromHex(id) + body)[..ID_BYTES] == FromHex(id);
  }

  // ---- steps that change no log of one direction -----------------------------------

  ghost predicate SameShape(a: seq<Socket>, b: seq<Socket>)
  {
    && |a| == |b|
    && forall i {:trigger b[i]} :: 0 <= i < |a| ==>
         && b[i].role == a[i].role && b[i].host == a[i].host && b[i].since == a[i].since
         && (b[i].phase.Open? ==> a[i].phase.Open?)
         && (a[i].phase.Gone? ==> b[i].phase.Gone?)
  }

  /** No guest received anything and no host sent anything. */
  ghost predicate NothingDown(a: seq<Socket>, b: seq<Socket>)
  {
    && SameShape(a, b)
    && forall i {:trigger b[i]} :: 0 <= i < |a| ==>
         if a[i].role.Host? then b[i].sent == a[i].sent else b[i].inbox == a[i].inbox
  }

  /** No host received anything and no guest sent anything. */
  ghost predicate NothingUp(a: seq<Socket>, b: seq<Socket>)
  {
    && SameShape(a, b)
    && forall i {:trigger b[i]} :: 0 <= i < |a| ==>
         if a[i].role.Host? then b[i].inbox == a[i].inbox else b[i].sent == a[i].sent
  }

  lemma ShapeKeepsHosts(a: seq<Socket>, b: seq<Socket>)
    requires GuestsHaveHosts(a) && SameShape(a, b)
    ensures GuestsHaveHosts(b)
  {
    forall g | IsGuest(b, g)
      ensures b[g].host < g && IsHost(b, b[g].host)
    {
      assert IsGuest(a, g);
      assert IsHost(a, a[g].host);
    }
  }

  lemma NothingDownKeeps(a: seq<Socket>, b: seq<Socket>)
    requires GuestsHaveHosts(a) && Downlinks(a) && NothingDown(a, b)
    ensures GuestsHaveHosts(b) && Downlinks(b)
  {
    ShapeKeepsHosts(a, b);
    forall g | IsGuest(b, g)
      ensures Downlink(b, g)
    {
      assert IsGuest(a, g) && IsHost(a, a[g].host) && Downlink(a, g);
      assert b[b[g].host].sent == a[a[g].host].sent;
    }
  }

  ghost predicate UpInv(ws: seq<Socket>)
  {
    GuestsHaveHosts(ws) && Uplinks(ws) && NotesAreKnown(ws)
  }

  lemma KnownStays(a: seq<Socket>, b: seq<Socket>, n: Note)
    requires IsKnown(a, n) && |a| <= |b|
    requires forall i :: 0 <= i < |a| ==> b[i].role == a[i].role
    ensures IsKnown(b, n)
  {
    var g :| IsGuest(a, g) && Concerns(n, a[g].role.id);
    assert IsGuest(b, g);
  }

  lemma KnownKeeps(a: seq<Socket>, b: seq<Socket>)
    requires NotesAreKnown(a) && SameShape(a, b)
    requires forall h :: IsHost(a, h) ==> b[h].inbox == a[h].inbox
    ensures NotesAreKnown(b)
  {
    forall h, k | IsHost(b, h) && 0 <= k < |b[h].inbox|
      ensures IsKnown(b, b[h].inbox[k])
    {
      assert IsHost(a, h) && IsKnown(a, a[h].inbox[k]);
      KnownStays(a, b, a[h].inbox[k]);
    }
  }

  /** A guest that sent nothing, and of whom no host was told anything, is as before. */
  lemma UplinkStays(a: seq<Socket>, b: seq<Socket>, g: int)
    requires GuestsHaveHosts(a) && SameShape(a, b) && IsGuest(a, g) && UplinkOf(a, g)
    requires b[g].sent == a[g].sent
    requires forall h :: IsHost(a, h) ==> About(b[h].inbox, a[g].role.id) == About(a[h].inbox, a[g].role.id)
    ensures IsGuest(b, g) && GuestsHaveHosts(b) && UplinkOf(b, g)
  {
    ShapeKeepsHosts(a, b);
    assert IsHost(a, a[g].host);
    var n: nat :| Uplink(a, g, n);
    assert Uplink(b, g, n);
    forall h | IsHost(b, h) && h != b[g].host
      ensures Elsewhere(b, g, h)
    {
      assert IsHost(a, h) && Elsewhere(a, g, h);
    }
  }

  lemma NothingUpKeeps(a: seq<Socket>, b: seq<Socket>)
    requires UpInv(a) && NothingUp(a, b)
    ensures UpInv(b)
  {
    ShapeKeepsHosts(a, b);
    KnownKeeps(a, b);
    forall g | IsGuest(b, g)
      ensures UplinkOf(b, g)
    {
      assert IsGuest(a, g);
      UplinkStays(a, b, g);
    }
  }

  // ---- a host sends ------------------------------------------------------------------

  /** What a host's message leaves the sockets as: every open guest has the body meant for it. */
  ghost predicate HostSent(a: seq<Socket>, b: seq<Socket>, from: int, m: Message)
    requires IsHost(a, from)
  {
    && SameShape(a, b)
    && forall i {:trigger b[i]} :: 0 <= i < |a| ==>
         if a[i].role.Host? then b[i].sent == a[i].sent + (if i == from then [m] else [])
         else b[i].inbox == a[i].inbox + (if a[i].phase.Open? then Body(m, a[i].role.id) else [])
  }

  lemma HostSentToOne(a: seq<Socket>, b: seq<Socket>, from: int, m: Message, g: int)
    requires GuestsHaveHosts(a) && GuestsHaveHosts(b) && IsHost(a, from) && HostSent(a, b, from, m)
    requires IsGuest(a, g) && IsGuest(b, g) && Downlink(a, g)
    requires a[g].phase.Open? ==> a[g].host == from
    ensures Downlink(b, g)
  {
    var h := a[g].host;
    assert IsHost(a, h) && b[g].host == h && IsHost(b, h);
    if h == from {
      AddressedAppend(a[h].sent, m, a[g].since, a[g].role.id);
    } else {
      assert b[h].sent == a[h].sent;
    }
    if !a[g].phase.Open? {
      assert b[g].inbox == a[g].inbox;
    }
  }

  lemma HostSentKeeps(a: seq<Socket>, b: seq<Socket>, from: int, m: Message)
    requires SocketsInv(a) && Downlinks(a) && IsHost(a, from) && IsOpenHost(a[from])
    requires HostSent(a, b, from, m)
    ensures GuestsHaveHosts(b) && Downlinks(b)
  {
    ShapeKeepsHosts(a, b);
    forall g | IsGuest(b, g)
      ensures Downlink(b, g)
    {
      assert IsGuest(a, g) && IsHost(a, a[g].host) && Downlink(a, g);
      if a[g].phase.Open? {
        assert from <= a[g].host;
        assert a[g].host == from;
      }
      HostSentToOne(a, b, from, m, g);
    }
  }

  lemma HostDataSends(a: seq<Socket>, from: nat, m: Message)
    requires from < |a| && IsOpenHost(a[from]) && m.Binary? && |m.body| <= MAX_NOISE + ID_BYTES
    ensures var b := ToGuest(a[from := Take(a[from], m)], m.body);
      HostSent(a, b, from, m) && NothingUp(a, b)
  {
  }

  lemma HostCommandSends(s: State, from: nat, m: Message)
    requires from < |s.sockets| && IsOpenHost(s.sockets[from]) && m.Text?
    ensures var a := s.sockets; var b := OnCommand(s.(sockets := a[from := Take(a[from], m)]), m.command).sockets;
      HostSent(a, b, from, m) && NothingUp(a, b)
  {
  }

  lemma HostMessageSends(s: State, from: nat, m: Message)
    requires from < |s.sockets| && IsOpenHost(s.sockets[from])
    ensures var b := OnMessage(s, from, m).sockets;
      HostSent(s.sockets, b, from, m) && NothingUp(s.sockets, b)
  {
    if m.Text? {
      HostCommandSends(s, from, m);
    } else if |m.body| <= MAX_NOISE + ID_BYTES {
      HostDataSends(s.sockets, from, m);
    }
  }

  // ---- a host is told --------------------------------------------------------------------

  function Tell(ws: seq<Socket>, h: int, n: Note): seq<Socket>
    requires 0 <= h < |ws|
  {
    ws[h := ws[h].(inbox := ws[h].inbox + [n])]
  }

  /** A host told one thing about one guest: the others are as before. */
  lemma TellKeeps(a: seq<Socket>, b: seq<Socket>, h: int, n: Note, about: int)
    requires UpInv(a) && DistinctIds(a) && IsHost(a, h) && IsGuest(a, about) && SameShape(a, b)
    requires forall g :: IsGuest(a, g) ==> (Concerns(n, a[g].role.id) <==> g == about)
    requires forall j :: IsHost(a, j) ==> b[j].inbox == a[j].inbox + (if j == h then [n] else [])
    requires forall g :: IsGuest(a, g) && g != about ==> b[g].sent == a[g].sent
    requires IsGuest(b, about) && GuestsHaveHosts(b) ==> UplinkOf(b, about)
    ensures UpInv(b)
  {
    ShapeKeepsHosts(a, b);
    assert IsKnown(a, n);
    forall j, k | IsHost(b, j) && 0 <= k < |b[j].inbox|
      ensures IsKnown(b, b[j].inbox[k])
    {
      assert IsHost(a, j);
      if k == |a[j].inbox| {
        KnownStays(a, b, n);
      } else {
        assert b[j].inbox[k] == a[j].inbox[k];
        KnownStays(a, b, a[j].inbox[k]);
      }
    }
    forall g | IsGuest(b, g)
      ensures UplinkOf(b, g)
    {
      assert IsGuest(a, g);
      if g != about {
        forall j | IsHost(a, j)
          ensures About(b[j].inbox, a[g].role.id) == About(a[j].inbox, a[g].role.id)
        {
          if j == h {
            AboutAppend(a[h].inbox, n, a[g].role.id);
          } else {
            assert b[j].inbox == a[j].inbox;
          }
        }
        UplinkStays(a, b, g);
      }
    }
  }

  // ---- a guest sends -------------------------------------------------------------------

  /** The message of an open guest is its host's next note about it. */
  lemma ForwardedIsTold(a: seq<Socket>, b: seq<Socket>, g: int, m: Message, n: Note)
    requires GuestsHaveHosts(a) && GuestsHaveHosts(b) && SameShape(a, b) && IsGuest(a, g) && IsGuest(b, g)
    requires a[g].phase.Open? && UplinkOf(a, g)
    requires Tag(m, a[g].role.id) == [n] && Concerns(n, a[g].role.id)
    requires b[g].sent == a[g].sent + [m]
    requires forall j :: IsHost(a, j) ==> b[j].inbox == a[j].inbox + (if j == a[g].host then [n] else [])
    ensures UplinkOf(b, g)
  {
    var id, h := a[g].role.id, a[g].host;
    assert IsHost(a, h);
    var k: nat :| Uplink(a, g, k);
    AboutAppend(a[h].inbox, n, id);
    TaggedAppend(a[g].sent, m, id);
    var tagged := Tagged(a[g].sent, id);
    assert tagged[..k] == tagged && (tagged + [n])[..k + 1] == tagged + [n];
    assert [Opened(id)] + tagged + [n] == [Opened(id)] + (tagged + [n]);
    assert Uplink(b, g, k + 1);
    forall j | IsHost(b, j) && j != h
      ensures Elsewhere(b, g, j)
    {
      assert IsHost(a, j) && Elsewhere(a, g, j);
      assert b[j].inbox == a[j].inbox;
    }
  }

  /** A guest's message that no host receives: it is text, or too big, or finds the host gone. */
  lemma UnheardIsUntold(a: seq<Socket>, b: seq<Socket>, g: int, m: Message)
    requires GuestsHaveHosts(a) && GuestsHaveHosts(b) && SameShape(a, b) && IsGuest(a, g) && IsGuest(b, g)
    requires a[g].phase.Open? && UplinkOf(a, g)
    requires b[g].sent == a[g].sent + [m]
    requires b[g].phase.Open? ==> Tag(m, a[g].role.id) == []
    requires forall j :: IsHost(a, j) ==> b[j].inbox == a[j].inbox
    ensures UplinkOf(b, g)
  {
    var id := a[g].role.id;
    assert IsHost(a, a[g].host);
    var k: nat :| Uplink(a, g, k);
    TaggedAppend(a[g].sent, m, id);
    var tagged := Tagged(a[g].sent, id);
    assert (tagged + Tag(m, id))[..k] == tagged[..k];
    assert Uplink(b, g, k);
    forall j | IsHost(b, j) && j != b[g].host
      ensures Elsewhere(b, g, j)
    {
      assert IsHost(a, j) && Elsewhere(a, g, j);
    }
  }

  ghost predicate Linked(ws: seq<Socket>)
  {
    UpInv(ws) && Downlinks(ws)
  }

  /** The one open host is the one that let an open guest in. */
  lemma OpenHostIsOwn(ws: seq<Socket>, g: int, h: int)
    requires SocketsInv(ws) && IsGuest(ws, g) && ws[g].phase.Open?
    requires IsHost(ws, h) && ws[h].phase.Open?
    ensures h == ws[g].host
  {
    assert IsHost(ws, ws[g].host);
  }

  /** The open guest `from` sent `m`, and the host `h`, if any, was told `n`. */
  ghost predicate GuestSent(a: seq<Socket>, b: seq<Socket>, from: int, m: Message, h: Option<nat>, n: Note)
  {
    && SameShape(a, b)
    && (forall j :: IsHost(a, j) ==> b[j].inbox == a[j].inbox + (if Some(j) == h then [n] else []))
    && (forall g :: IsGuest(a, g) ==> b[g].sent == a[g].sent + (if g == from then [m] else []))
  }

  lemma UnheardKeeps(a: seq<Socket>, b: seq<Socket>, from: int, m: Message, n: Note)
    requires UpInv(a) && IsGuest(a, from) && a[from].phase.Open? && GuestSent(a, b, from, m, None, n)
    requires b[from].phase.Open? ==> Tag(m, a[from].role.id) == []
    ensures UpInv(b)
  {
    ShapeKeepsHosts(a, b);
    assert forall i :: IsHost(a, i) ==> b[i].inbox == a[i].inbox;
    KnownKeeps(a, b);
    forall g | IsGuest(b, g)
      ensures UplinkOf(b, g)
    {
      assert IsGuest(a, g);
      if g == from {
        UnheardIsUntold(a, b, g, m);
      } else {
        assert b[g].sent == a[g].sent;
        UplinkStays(a, b, g);
      }
    }
  }

  lemma HeardKeeps(a: seq<Socket>, b: seq<Socket>, from: int, m: Message, h: nat)
    requires SocketsInv(a) && UpInv(a) && DistinctIds(a)
    requires IsGuest(a, from) && a[from].phase.Open? && IsHost(a, h) && a[h].phase.Open?
    requires m.Binary? && |m.body| <= MAX_NOISE
    requires GuestSent(a, b, from, m, Some(h), Data(FromHex(a[from].role.id) + m.body))
    ensures UpInv(b)
  {
    var id := a[from].role.id;
    var n := Data(FromHex(id) + m.body);
    OpenHostIsOwn(a, from, h);
    ShapeKeepsHosts(a, b);
    forall g | IsGuest(a, g)
      ensures Concerns(n, a[g].role.id) <==> g == from
    {
      TagConcernsOne(id, a[g].role.id, m.body);
    }
    ForwardedIsTold(a, b, from, m, n);
    assert forall g :: IsGuest(a, g) && g != from ==> b[g].sent == a[g].sent;
    TellKeeps(a, b, h, n, from);
  }

  lemma GuestMessageEffect(s: State, from: nat, m: Message)
    requires IsGuest(s.sockets, from) && s.sockets[from].phase.Open?
    ensures var a, b := s.sockets, OnMessage(s, from, m).sockets;
      var h := if m.Binary? && |m.body| <= MAX_NOISE then OpenHost(a[from := Take(a[from], m)]) else None;
      && NothingDown(a, b)
      && GuestSent(a, b, from, m, h, Data(FromHex(a[from].role.id) + (if m.Binary? then m.body else [])))
      && (h.None? && b[from].phase.Open? ==> Tag(m, a[from].role.id) == [])
  {
    if m.Binary? && |m.body| <= MAX_NOISE {
      ForwardEffect(s.sockets, from, m);
    }
  }

  lemma ForwardEffect(a: seq<Socket>, from: nat, m: Message)
    requires IsGuest(a, from) && a[from].phase.Open? && m.Binary?
    ensures var taken := a[from := Take(a[from], m)]; var b := ToHost(taken, from, m.body);
      && NothingDown(a, b)
      && GuestSent(a, b, from, m, OpenHost(taken), Data(FromHex(a[from].role.id) + m.body))
      && (OpenHost(taken).None? ==> !b[from].phase.Open?)
  {
    ForwardsNothingDown(a, from, m);
  }

  lemma ForwardsNothingDown(a: seq<Socket>, from: nat, m: Message)
    requires IsGuest(a, from) && a[from].phase.Open? && m.Binary?
    ensures NothingDown(a, ToHost(a[from := Take(a[from], m)], from, m.body))
  {
  }

  lemma GuestMessageKeeps(s: State, from: nat, m: Message)
    requires SocketsInv(s.sockets) && Linked(s.sockets) && DistinctIds(s.sockets)
    requires IsGuest(s.sockets, from) && s.sockets[from].phase.Open?
    ensures Linked(OnMessage(s, from, m).sockets)
  {
    var a, b := s.sockets, OnMessage(s, from, m).sockets;
    GuestMessageEffect(s, from, m);
    NothingDownKeeps(a, b);
    var taken := a[from := Take(a[from], m)];
    if m.Binary? && |m.body| <= MAX_NOISE && OpenHost(taken).Some? {
      assert IsOpenHost(taken[OpenHost(taken).value]);
      HeardKeeps(a, b, from, m, OpenHost(taken).value);
    } else {
      UnheardKeeps(a, b, from, m, Data(FromHex(a[from].role.id) + (if m.Binary? then m.body else [])));
    }
  }

  lemma MessageKeepsLinks(s: State, from: nat, m: Message)
    requires Inv(s) && Linked(s.sockets) && DistinctIds(s.sockets)
    ensures Linked(OnMessage(s, from, m).sockets)
  {
    var a := s.sockets;
    if from < |a| && a[from].phase.Open? {
      if a[from].role.Host? {
        assert IsHost(a, from);
        HostMessageSends(s, from, m);
        HostSentKeeps(a, OnMessage(s, from, m).sockets, from, m);
        NothingUpKeeps(a, OnMessage(s, from, m).sockets);
      } else {
        GuestMessageKeeps(s, from, m);
      }
    }
  }

  // ---- a socket joins or leaves --------------------------------------------------------------

  lemma AppendKeeps(b: seq<Socket>, w: Socket, g: int)
    requires GuestsHaveHosts(b) && GuestsHaveHosts(b + [w]) && IsGuest(b, g) && w.inbox == []
    requires Downlink(b, g) && UplinkOf(b, g)
    ensures Downlink(b + [w], g) && UplinkOf(b + [w], g)
  {
    var c := b + [w];
    assert IsHost(b, b[g].host) && c[c[g].host] == b[b[g].host];
    var n: nat :| Uplink(b, g, n);
    assert Uplink(c, g, n);
    forall h | IsHost(c, h) && h != c[g].host
      ensures Elsewhere(c, g, h)
    {
      if h < |b| {
        assert IsHost(b, h) && Elsewhere(b, g, h);
      }
    }
  }

  lemma AppendKeepsKnown(b: seq<Socket>, w: Socket)
    requires forall h, k :: IsHost(b, h) && 0 <= k < |b[h].inbox| ==> IsKnown(b + [w], b[h].inbox[k])
    requires w.inbox == []
    ensures NotesAreKnown(b + [w])
  {
    var c := b + [w];
    forall h, k | IsHost(c, h) && 0 <= k < |c[h].inbox|
      ensures IsKnown(c, c[h].inbox[k])
    {
      assert IsHost(b, h);
    }
  }

  lemma NewHostKeeps(b: seq<Socket>)
    requires Linked(b) && GuestsHaveHosts(b + [NewHost(|b|)])
    ensures Linked(b + [NewHost(|b|)])
  {
    var c := b + [NewHost(|b|)];
    forall g | IsGuest(c, g)
      ensures Downlink(c, g) && UplinkOf(c, g)
    {
      assert IsGuest(b, g);
      AppendKeeps(b, NewHost(|b|), g);
    }
    forall h, k | IsHost(b, h) && 0 <= k < |b[h].inbox|
      ensures IsKnown(c, b[h].inbox[k])
    {
      KnownStays(b, c, b[h].inbox[k]);
    }
    AppendKeepsKnown(b, NewHost(|b|));
  }

  lemma NewHostEffect(a: seq<Socket>)
    ensures NothingDown(a, Update(a, w => ForNewHost(w))) && NothingUp(a, Update(a, w => ForNewHost(w)))
  {
  }

  lemma HostJoins(s: State, token: Option<Token>)
    requires Inv(s) && Linked(s.sockets)
    ensures Linked(OnHostConnect(s, token).sockets)
  {
    if token.Some? && HostAnswer(s, token) == Upgraded {
      var b := Update(s.sockets, w => ForNewHost(w));
      NewHostEffect(s.sockets);
      NothingDownKeeps(s.sockets, b);
      NothingUpKeeps(s.sockets, b);
      HostConnectKeeps(s, token);
      NewHostKeeps(b);
    }
  }

  /** No host has been told of an id nobody has had. */
  lemma FreshIsUntold(a: seq<Socket>, h: int, id: string)
    requires NotesAreKnown(a) && IsHost(a, h) && IdsAreHex(a)
    requires forall g :: IsGuest(a, g) ==> a[g].role.id != id
    ensures About(a[h].inbox, id) == []
  {
    forall k | 0 <= k < |a[h].inbox|
      ensures !Concerns(a[h].inbox[k], id)
    {
      assert IsKnown(a, a[h].inbox[k]);
    }
    UnknownIsUntold(a[h].inbox, id);
  }

  /** A guest joined with an id nobody has had, and the open host `h` was told. */
  ghost predicate Joined(a: seq<Socket>, c: seq<Socket>, h: int, name: string)
  {
    && IsHost(a, h)
    && c == Tell(a, h, Opened(name)) + [NewGuest(name, h, |a[h].sent|)]
    && forall g :: IsGuest(a, g) ==> a[g].role.id != name
  }

  lemma JoinedIsLinked(a: seq<Socket>, c: seq<Socket>, h: int, name: string)
    requires UpInv(a) && IdsAreHex(a) && Joined(a, c, h, name) && GuestsHaveHosts(c)
    ensures IsGuest(c, |a|) && Downlink(c, |a|) && UplinkOf(c, |a|)
  {
    FreshIsUntold(a, h, name);
    AboutAppend(a[h].inbox, Opened(name), name);
    assert c[h].inbox == a[h].inbox + [Opened(name)];
    assert Uplink(c, |a|, 0);
    forall j | IsHost(c, j) && j != h
      ensures Elsewhere(c, |a|, j)
    {
      assert IsHost(a, j);
      FreshIsUntold(a, j, name);
    }
  }

  lemma JoinKeepsOthers(a: seq<Socket>, c: seq<Socket>, h: int, name: string, g: int)
    requires UpInv(a) && Downlinks(a) && Joined(a, c, h, name) && GuestsHaveHosts(c) && IsGuest(a, g)
    ensures IsGuest(c, g) && Downlink(c, g) && UplinkOf(c, g)
  {
    var n := Opened(name);
    var b := Tell(a, h, n);
    assert NothingDown(a, b);
    NothingDownKeeps(a, b);
    AboutAppend(a[h].inbox, n, a[g].role.id);
    UplinkStays(a, b, g);
    assert Downlink(b, g);
    AppendKeeps(b, NewGuest(name, h, |a[h].sent|), g);
  }

  lemma JoinKeepsKnown(a: seq<Socket>, c: seq<Socket>, h: int, name: string)
    requires NotesAreKnown(a) && Joined(a, c, h, name)
    ensures NotesAreKnown(c)
  {
    var b := Tell(a, h, Opened(name));
    forall j, k | IsHost(b, j) && 0 <= k < |b[j].inbox|
      ensures IsKnown(c, b[j].inbox[k])
    {
      assert IsHost(a, j);
      if j == h && k == |a[h].inbox| {
        assert IsGuest(c, |a|) && Concerns(Opened(name), c[|a|].role.id);
      } else {
        assert b[j].inbox[k] == a[j].inbox[k];
        KnownStays(a, c, a[j].inbox[k]);
      }
    }
    AppendKeepsKnown(b, NewGuest(name, h, |a[h].sent|));
  }

  lemma GuestJoins(s: State, id: GuestId)
    requires Inv(s) && Linked(s.sockets) && DistinctIds(OnGuestConnect(s, id).sockets)
    ensures Linked(OnGuestConnect(s, id).sockets)
  {
    if GuestAnswer(s) == Upgraded {
      var a, c := s.sockets, OnGuestConnect(s, id).sockets;
      var h, name := OpenHost(a).value, ToHex(id);
      assert IsGuest(c, |a|);
      forall g | IsGuest(a, g)
        ensures a[g].role.id != name
      {
        assert IsGuest(c, g);
      }
      GuestConnectKeeps(s, id);
      assert Joined(a, c, h, name);
      JoinedIsLinked(a, c, h, name);
      JoinKeepsKnown(a, c, h, name);
      forall g | IsGuest(c, g)
        ensures Downlink(c, g) && UplinkOf(c, g)
      {
        if g < |a| {
          JoinKeepsOthers(a, c, h, name, g);
        }
      }
    }
  }

  /** The guest `g` is gone, and the open host `h` was told. */
  ghost predicate Parted(a: seq<Socket>, b: seq<Socket>, g: int, h: int)
    requires IsGuest(a, g)
  {
    && SameShape(a, b) && b[g].phase.Gone?
    && (forall j :: IsHost(a, j) ==> b[j].inbox == a[j].inbox + (if j == h then [Closed(a[g].role.id)] else []))
    && (forall k :: IsGuest(a, k) ==> b[k].sent == a[k].sent)
  }

  lemma PartedIsLinked(a: seq<Socket>, b: seq<Socket>, g: int, h: int)
    requires SocketsInv(a) && UpInv(a) && IsGuest(a, g) && !a[g].phase.Gone?
    requires IsHost(a, h) && a[h].phase.Open? && Parted(a, b, g, h)
    ensures IsGuest(b, g) && GuestsHaveHosts(b) && UplinkOf(b, g)
  {
    var id, own := a[g].role.id, a[g].host;
    ShapeKeepsHosts(a, b);
    assert IsHost(a, own);
    AboutAppend(a[h].inbox, Closed(id), id);
    assert h != own ==> b[own].inbox == a[own].inbox;
    var k: nat :| Uplink(a, g, k);
    assert Uplink(b, g, k);
    forall j | IsHost(b, j) && j != own
      ensures Elsewhere(b, g, j)
    {
      assert IsHost(a, j) && Elsewhere(a, g, j);
      assert j != h ==> b[j].inbox == a[j].inbox;
    }
  }

  lemma PartedKeeps(a: seq<Socket>, b: seq<Socket>, g: int, h: int)
    requires SocketsInv(a) && UpInv(a) && DistinctIds(a) && IsGuest(a, g) && !a[g].phase.Gone?
    requires IsHost(a, h) && a[h].phase.Open? && Parted(a, b, g, h)
    ensures UpInv(b)
  {
    PartedIsLinked(a, b, g, h);
    TellKeeps(a, b, h, Closed(a[g].role.id), g);
  }

  lemma GoneIsQuiet(a: seq<Socket>, ws: nat)
    requires ws < |a|
    ensures var rest := a[ws := a[ws].(phase := Gone)]; NothingDown(a, rest) && NothingUp(a, rest)
  {
  }

  lemma GuestPartsEffect(a: seq<Socket>, ws: nat, h: nat)
    requires IsGuest(a, ws) && OpenHost(a[ws := a[ws].(phase := Gone)]) == Some(h)
    ensures var rest := a[ws := a[ws].(phase := Gone)];
      var b := rest[h := Send(rest[h], Closed(a[ws].role.id))];
      h < |a| && NothingDown(a, b) && Parted(a, b, ws, h)
  {
    var rest := a[ws := a[ws].(phase := Gone)];
    assert h < |rest| && IsOpenHost(rest[h]);
  }

  lemma LeaveEffect(s: State, ws: nat)
    requires ws < |s.sockets| && !s.sockets[ws].phase.Gone?
    ensures var a, b := s.sockets, OnLeave(s, ws).sockets;
      var h := OpenHost(a[ws := a[ws].(phase := Gone)]);
      && NothingDown(a, b)
      && (if a[ws].role.Guest? && h.Some? then Parted(a, b, ws, h.value) else NothingUp(a, b))
  {
    var a := s.sockets;
    var h := OpenHost(a[ws := a[ws].(phase := Gone)]);
    if a[ws].role.Guest? && h.Some? {
      GuestPartsEffect(a, ws, h.value);
    } else if a[ws].role.Host? && h.None? {
      OfflineEffect(a, ws);
    } else {
      GoneIsQuiet(a, ws);
    }
  }

  lemma OfflineEffect(a: seq<Socket>, ws: nat)
    requires ws < |a|
    ensures var b := Update(a[ws := a[ws].(phase := Gone)], w => ShutOffline(w));
      NothingDown(a, b) && NothingUp(a, b)
  {
  }

  lemma LeaveKeepsLinks(s: State, ws: nat)
    requires SocketsInv(s.sockets) && Linked(s.sockets) && DistinctIds(s.sockets)
    ensures Linked(OnLeave(s, ws).sockets)
  {
    var a, b := s.sockets, OnLeave(s, ws).sockets;
    if ws < |a| && !a[ws].phase.Gone? {
      LeaveEffect(s, ws);
      NothingDownKeeps(a, b);
      var h := OpenHost(a[ws := a[ws].(phase := Gone)]);
      if a[ws].role.Guest? && h.Some? {
        assert IsHost(a, h.value);
        PartedKeeps(a, b, ws, h.value);
      } else {
        NothingUpKeeps(a, b);
      }
    }
  }

  lemma DropKeepsLinks(s: State, ws: nat)
    requires SocketsInv(s.sockets) && Linked(s.sockets)
    ensures Linked(OnDrop(s, ws).sockets)
  {
    if ws < |s.sockets| {
      NothingDownKeeps(s.sockets, OnDrop(s, ws).sockets);
      NothingUpKeeps(s.sockets, OnDrop(s, ws).sockets);
    }
  }

  lemma AlarmKeepsLinks(s: State)
    requires Linked(s.sockets)
    ensures Linked(OnAlarm(s).sockets)
  {
    assert OnAlarm(s).sockets == s.sockets;
  }

  lemma StepKeepsLinks(s: State, e: Event)
    requires Inv(s) && Linked(s.sockets) && DistinctIds(Step(s, e).sockets) && DistinctIds(s.sockets)
    ensures Linked(Step(s, e).sockets)
  {
    match e
    case HostConnect(token) => HostJoins(s, token);
    case GuestConnect(id) => GuestJoins(s, id);
    case Receive(from, m) => MessageKeepsLinks(s, from, m);
    case Drop(ws) => DropKeepsLinks(s, ws);
    case Leave(ws) => LeaveKeepsLinks(s, ws);
    case Alarm => AlarmKeepsLinks(s);
  }

  /** Sockets keep their number and role. */
  lemma StepExtends(s: State, e: Event)
    ensures |s.sockets| <= |Step(s, e).sockets|
    ensures forall i :: 0 <= i < |s.sockets| ==> Step(s, e).sockets[i].role == s.sockets[i].role
  {
    if e.Receive? && e.from < |s.sockets| && s.sockets[e.from].phase.Open? {
      if s.sockets[e.from].role.Host? {
        HostMessageSends(s, e.from, e.message);
      } else {
        GuestMessageEffect(s, e.from, e.message);
      }
    } else if e.Leave? && e.ws < |s.sockets| && !s.sockets[e.ws].phase.Gone? {
      LeaveEffect(s, e.ws);
    }
  }

  lemma {:induction false} RunIsLinked(events: seq<Event>)
    requires DistinctIds(Run(events).sockets)
    ensures Linked(Run(events).sockets)
  {
    if events != [] {
      var before, e := events[..|events| - 1], events[|events| - 1];
      var a, b := Run(before).sockets, Run(events).sockets;
      StepExtends(Run(before), e);
      forall g, k | IsGuest(a, g) && IsGuest(a, k) && g != k
        ensures a[g].role.id != a[k].role.id
      {
        assert IsGuest(b, g) && IsGuest(b, k);
      }
      RunIsLinked(before);
      RunKeeps(before);
      StepKeepsLinks(Run(before), e);
    }
  }

  /** Over every run in which no two guests drew the same id: each guest receives exactly
      what its host addressed to it, in order, and its host receives that it joined, then its
      messages under its id, in order. */
  lemma RoomIsFifo(events: seq<Event>, g: int)
    requires DistinctIds(Run(events).sockets) && IsGuest(Run(events).sockets, g)
    ensures GuestsHaveHosts(Run(events).sockets)
    ensures Downlink(Run(events).sockets, g)
    ensures exists n: nat :: Uplink(Run(events).sockets, g, n)
    ensures forall h :: IsHost(Run(events).sockets, h) && h != Run(events).sockets[g].host ==>
              Elsewhere(Run(events).sockets, g, h)
  {
    RunIsLinked(events);
    assert UplinkOf(Run(events).sockets, g);
  }
}
