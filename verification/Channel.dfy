/** One direction of an encrypted session (relay/public/channel.js): frames queue on the
    outgoing promise chain, are sealed piece by piece, carried in order, queue again on the
    incoming chain and are opened one by one. Every interleaving of those is a run. */
module Channel {
  import opened Hex
  import opened Noise
  import Room

  /** The outgoing chain: every frame given to `send`, the one being sealed (number `turn`)
      with its pieces so far, the nonces taken, and every message ever sealed. */
  datatype Sender = Sender(sent: seq<Bytes>, turn: nat, ready: seq<Message>, calls: nat, sealed: seq<Message>)

  /** What lies between: whether the socket is open, the messages on their way, those on the
      incoming chain, those already opened, how many frames were put on the way, and every
      message ever put there. */
  datatype Line = Line(
    open: bool, wire: seq<Message>, arrived: seq<Message>, taken: seq<Message>, carried: nat, put: seq<Message>)

  datatype Pipe = Pipe(key: Key, sender: Sender, line: Line, far: Opened)

  datatype Action =
    | Submit(frame: Bytes)
    | SealNext
    | Flush
    | Arrive
    | OpenNext
    | Cut(kept: nat)

  function Fresh(key: Key): Pipe
  {
    Pipe(key, Sender([], 0, [], 0, []), Line(true, [], [], [], 0, []), Opened(NewReceiver(key), [], false))
  }

  predicate HasPiece(s: Sender) { s.turn < |s.sent| && |s.ready| < |Pieces(s.sent[s.turn])| }

  predicate IsSealed(s: Sender) { s.turn < |s.sent| && |s.ready| == |Pieces(s.sent[s.turn])| }

  function SealPiece(key: Key, s: Sender): Sender
    requires HasPiece(s)
  {
    var m := SealOne(key, s.calls, Pieces(s.sent[s.turn])[|s.ready|]);
    s.(ready := s.ready + [m], sealed := s.sealed + [m], calls := s.calls + 1)
  }

  function SealNextPiece(key: Key, s: Sender): Sender { if HasPiece(s) then SealPiece(key, s) else s }

  function Put(line: Line, messages: seq<Message>): Line
  {
    if line.open then line.(wire := line.wire + messages, carried := line.carried + 1, put := line.put + messages)
    else line
  }

  function Step(p: Pipe, a: Action): Pipe
  {
    match a
    case Submit(frame) => p.(sender := p.sender.(sent := p.sender.sent + [frame]))
    case SealNext => p.(sender := SealNextPiece(p.key, p.sender))
    case Flush =>
      if IsSealed(p.sender) then
        p.(sender := p.sender.(turn := p.sender.turn + 1, ready := []), line := Put(p.line, p.sender.ready))
      else p
    case Arrive =>
      if p.line.wire == [] then p
      else p.(line := p.line.(wire := p.line.wire[1..], arrived := p.line.arrived + [p.line.wire[0]]))
    case OpenNext =>
      if p.line.arrived == [] then p
      else
        var m := p.line.arrived[0];
        p.(line := p.line.(arrived := p.line.arrived[1..], taken := p.line.taken + [m]), far := After(p.far, m))
    // The socket closes: what is sealed from now on is not sent, and part of what is on its
    // way is lost.
    case Cut(kept) =>
      p.(line := p.line.(open := false, wire := if kept <= |p.line.wire| then p.line.wire[..kept] else p.line.wire))
  }

  function Run(key: Key, actions: seq<Action>): Pipe
  {
    if actions == [] then Fresh(key)
    else Step(Run(key, actions[..|actions| - 1]), actions[|actions| - 1])
  }

  // ---- what every run keeps ------------------------------------------------------------

  /** What was sealed is the frames before `turn`, whole, and the first pieces of that one. */
  ghost predicate Sealing(key: Key, s: Sender)
  {
    && s.turn <= |s.sent|
    && s.sealed == Stream(key, s.sent[..s.turn]) + s.ready
    && s.calls == |s.sealed|
    && (s.turn == |s.sent| ==> s.ready == [])
    && (s.turn < |s.sent| ==> s.ready <= SealAll(key, |Stream(key, s.sent[..s.turn])|, Pieces(s.sent[s.turn])))
  }

  function OnLine(line: Line): seq<Message> { line.taken + line.arrived + line.wire }

  /** What was opened and what is still to be opened is the first part of what was sealed,
      and all of it while the socket is open. */
  ghost predicate Carrying(key: Key, sent: seq<Bytes>, turn: nat, line: Line)
  {
    && line.carried <= turn <= |sent|
    && line.put == Stream(key, sent[..line.carried])
    && OnLine(line) <= line.put
    && (line.open ==> line.carried == turn && OnLine(line) == line.put)
  }

  ghost predicate Inv(p: Pipe)
  {
    && Sealing(p.key, p.sender)
    && Carrying(p.key, p.sender.sent, p.sender.turn, p.line)
    && p.far == OpenAll(NewReceiver(p.key), p.line.taken)
  }

  lemma {:induction false} SealAt(key: Key, calls: nat, pieces: seq<Bytes>, i: nat)
    requires i < |pieces|
    ensures SealAll(key, calls, pieces)[i] == SealOne(key, calls + i, pieces[i])
    decreases i
  {
    if i > 0 {
      SealAt(key, calls + 1, pieces[1..], i - 1);
    }
  }

  lemma SubmitKeeps(key: Key, s: Sender, line: Line, frame: Bytes)
    requires Sealing(key, s) && Carrying(key, s.sent, s.turn, line)
    ensures Sealing(key, s.(sent := s.sent + [frame])) && Carrying(key, s.sent + [frame], s.turn, line)
  {
    var sent := s.sent + [frame];
    assert sent[..s.turn] == s.sent[..s.turn] && sent[..line.carried] == s.sent[..line.carried];
  }

  lemma NextIsSealed(key: Key, s: Sender)
    requires Sealing(key, s) && HasPiece(s)
    ensures var pieces := Pieces(s.sent[s.turn]);
      SealOne(key, s.calls, pieces[|s.ready|])
        == SealAll(key, |Stream(key, s.sent[..s.turn])|, pieces)[|s.ready|]
  {
    SealAt(key, |Stream(key, s.sent[..s.turn])|, Pieces(s.sent[s.turn]), |s.ready|);
  }

  lemma PrefixGrows<T>(part: seq<T>, all: seq<T>)
    requires part <= all && |part| < |all|
    ensures part + [all[|part|]] <= all
  {
  }

  lemma Regroup<T>(a: seq<T>, b: seq<T>, x: T)
    ensures a + b + [x] == a + (b + [x])
  {
  }

  lemma SealKeeps(key: Key, s: Sender)
    requires Sealing(key, s) && HasPiece(s)
    ensures Sealing(key, SealPiece(key, s))
  {
    var before := Stream(key, s.sent[..s.turn]);
    var all := SealAll(key, |before|, Pieces(s.sent[s.turn]));
    NextIsSealed(key, s);
    PrefixGrows(s.ready, all);
    Regroup(before, s.ready, all[|s.ready|]);
  }

  lemma SealedWhole(key: Key, s: Sender)
    requires Sealing(key, s) && IsSealed(s)
    ensures Stream(key, s.sent[..s.turn + 1]) == s.sealed
  {
    var init, last := s.sent[..s.turn], s.sent[s.turn];
    assert s.sent[..s.turn + 1] == init + [last];
    StreamGrows(key, init, last);
    assert s.ready == SealAll(key, |Stream(key, init)|, Pieces(last));
  }

  lemma FlushKeepsSealing(key: Key, s: Sender)
    requires Sealing(key, s) && IsSealed(s)
    ensures Sealing(key, s.(turn := s.turn + 1, ready := []))
  {
    SealedWhole(key, s);
    assert s.sealed + [] == s.sealed;
  }

  lemma FlushKeepsCarrying(key: Key, s: Sender, line: Line)
    requires Sealing(key, s) && Carrying(key, s.sent, s.turn, line) && IsSealed(s)
    ensures Carrying(key, s.sent, s.turn + 1, Put(line, s.ready))
  {
    if line.open {
      SealedWhole(key, s);
      PutAppends(line, s.ready);
    }
  }

  lemma PutAppends(line: Line, messages: seq<Message>)
    requires line.open
    ensures OnLine(Put(line, messages)) == OnLine(line) + messages
  {
  }

  lemma ArriveKeeps(key: Key, sent: seq<Bytes>, turn: nat, a: Line, b: Line)
    requires Carrying(key, sent, turn, a)
    requires b.carried == a.carried && b.put == a.put && b.open == a.open && OnLine(b) == OnLine(a)
    ensures Carrying(key, sent, turn, b)
  {
  }

  lemma CutKeeps(key: Key, sent: seq<Bytes>, turn: nat, a: Line, b: Line)
    requires Carrying(key, sent, turn, a)
    requires b.carried == a.carried && b.put == a.put && !b.open && OnLine(b) <= OnLine(a)
    ensures Carrying(key, sent, turn, b)
  {
  }

  /** Moving a message on along the line changes nothing of what is on it. */
  lemma ArriveMoves(line: Line)
    requires line.wire != []
    ensures OnLine(line.(wire := line.wire[1..], arrived := line.arrived + [line.wire[0]])) == OnLine(line)
  {
    assert line.wire == [line.wire[0]] + line.wire[1..];
  }

  lemma TakeMoves(line: Line)
    requires line.arrived != []
    ensures OnLine(line.(arrived := line.arrived[1..], taken := line.taken + [line.arrived[0]])) == OnLine(line)
  {
    assert line.arrived == [line.arrived[0]] + line.arrived[1..];
  }

  lemma LineKeeps(p: Pipe, a: Action)
    requires Inv(p) && (a.Arrive? || a.Cut?)
    ensures Inv(Step(p, a))
  {
    var line := Step(p, a).line;
    if a.Cut? {
      assert OnLine(line) <= OnLine(p.line);
      CutKeeps(p.key, p.sender.sent, p.sender.turn, p.line, line);
    } else if p.line.wire != [] {
      ArriveMoves(p.line);
      ArriveKeeps(p.key, p.sender.sent, p.sender.turn, p.line, line);
    }
  }

  lemma OpenKeeps(p: Pipe)
    requires Inv(p)
    ensures Inv(Step(p, OpenNext))
  {
    if p.line.arrived != [] {
      TakeMoves(p.line);
      ArriveKeeps(p.key, p.sender.sent, p.sender.turn, p.line, Step(p, OpenNext).line);
      OpenOneMore(NewReceiver(p.key), p.line.taken, p.line.arrived[0]);
    }
  }

  lemma SenderKeeps(p: Pipe, a: Action)
    requires Inv(p) && (a.Submit? || a.SealNext? || a.Flush?)
    ensures Inv(Step(p, a))
  {
    if a.Submit? {
      SubmitKeeps(p.key, p.sender, p.line, a.frame);
    } else if a.SealNext? && HasPiece(p.sender) {
      SealKeeps(p.key, p.sender);
    } else if a.Flush? && IsSealed(p.sender) {
      FlushKeepsSealing(p.key, p.sender);
      FlushKeepsCarrying(p.key, p.sender, p.line);
    }
  }

  lemma StepKeeps(p: Pipe, a: Action)
    requires Inv(p)
    ensures Inv(Step(p, a))
  {
    if a.Arrive? || a.Cut? {
      LineKeeps(p, a);
    } else if a.OpenNext? {
      OpenKeeps(p);
    } else {
      SenderKeeps(p, a);
    }
  }

  lemma StepKeepsKey(p: Pipe, a: Action)
    ensures Step(p, a).key == p.key
  {
  }

  lemma {:induction false} RunKeeps(key: Key, actions: seq<Action>)
    ensures Inv(Run(key, actions)) && Run(key, actions).key == key
  {
    if actions != [] {
      var before := Run(key, actions[..|actions| - 1]);
      RunKeeps(key, actions[..|actions| - 1]);
      StepKeeps(before, actions[|actions| - 1]);
      StepKeepsKey(before, actions[|actions| - 1]);
    }
  }

  // ---- one link of the outgoing chain -------------------------------------------------------

  function SealTimes(key: Key, s: Sender, n: nat): Sender
  {
    if n == 0 then s else SealNextPiece(key, SealTimes(key, s, n - 1))
  }

  /** One link of the chain run to its end, with nothing in between: once as many pieces as
      the next frame has are sealed it is ready to flush, and they are what `seal` gives. */
  lemma LinkIsSteps(key: Key, s: Sender)
    requires s.turn < |s.sent| && s.ready == []
    ensures var pieces := Pieces(s.sent[s.turn]);
      var messages := SealAll(key, s.calls, pieces);
      var done := SealTimes(key, s, |pieces|);
      IsSealed(done) && done == Sender(s.sent, s.turn, messages, s.calls + |pieces|, s.sealed + messages)
  {
    var pieces := Pieces(s.sent[s.turn]);
    SealSome(key, s, |pieces|);
    var messages := SealAll(key, s.calls, pieces);
    assert messages[..|pieces|] == messages;
  }

  lemma SealOneMore(key: Key, s: Sender, n: nat, all: seq<Message>)
    requires s.turn < |s.sent| && all == SealAll(key, s.calls, Pieces(s.sent[s.turn])) && n < |all|
    ensures SealNextPiece(key, Sender(s.sent, s.turn, all[..n], s.calls + n, s.sealed + all[..n])) ==
              Sender(s.sent, s.turn, all[..n + 1], s.calls + n + 1, s.sealed + all[..n + 1])
  {
    var pieces := Pieces(s.sent[s.turn]);
    var t := Sender(s.sent, s.turn, all[..n], s.calls + n, s.sealed + all[..n]);
    assert HasPiece(t);
    assert all[n] == SealOne(key, t.calls, pieces[n]) by {
      SealAt(key, s.calls, pieces, n);
    }
    assert SealPiece(key, t) == Sender(s.sent, s.turn, all[..n] + [all[n]], s.calls + n + 1, s.sealed + all[..n] + [all[n]]);
    assert all[..n + 1] == all[..n] + [all[n]];
    assert s.sealed + all[..n + 1] == s.sealed + all[..n] + [all[n]];
  }

  lemma {:induction false} SealSome(key: Key, s: Sender, n: nat)
    requires s.turn < |s.sent| && s.ready == [] && n <= |Pieces(s.sent[s.turn])|
    ensures var messages := SealAll(key, s.calls, Pieces(s.sent[s.turn]))[..n];
      SealTimes(key, s, n) == Sender(s.sent, s.turn, messages, s.calls + n, s.sealed + messages)
  {
    if n == 0 {
      assert s.sealed + [] == s.sealed;
    } else {
      SealSome(key, s, n - 1);
      SealOneMore(key, s, n - 1, SealAll(key, s.calls, Pieces(s.sent[s.turn])));
    }
  }

  // ---- the promises, over every run ------------------------------------------------------

  lemma {:induction false} DeliverablePrefix(frames: seq<Bytes>, n: nat)
    requires n <= |frames|
    ensures Deliverable(frames[..n]) <= Deliverable(frames)
    decreases |frames| - n
  {
    if n < |frames| {
      assert frames[..n + 1] == frames[..n] + [frames[n]];
      DeliverableGrows(frames[..n], frames[n]);
      DeliverablePrefix(frames, n + 1);
      assert frames[..n] <= frames[..n + 1];
    } else {
      assert frames[..n] == frames;
    }
  }

  /** What `OpenStream` says of the messages a line has let through so far. */
  lemma OpenTaken(key: Key, sent: seq<Bytes>, turn: nat, line: Line)
    requires Carrying(key, sent, turn, line)
    ensures |line.taken| <= |AllPieces(sent[..line.carried])|
    ensures StreamOpened(key, sent[..line.carried], |line.taken|, OpenAll(NewReceiver(key), line.taken))
  {
    var stream := Stream(key, sent[..line.carried]);
    assert line.taken <= OnLine(line);
    assert line.taken == stream[..|line.taken|];
    OpenStream(key, sent[..line.carried], |line.taken|);
  }

  /** The channel is a queue. The frames handed on are always the first ones sent, in order;
      only a frame over 16 MiB makes a message fail, and it and all behind it stay out. When
      nothing is left on the way of a socket that stayed open, every frame before the first
      such one has come out. */
  lemma ChannelIsFifo(key: Key, actions: seq<Action>)
    ensures var p := Run(key, actions);
      && p.far.frames <= Deliverable(p.sender.sent) <= p.sender.sent
      && (p.far.failed ==> exists f :: f in p.sender.sent && |f| > MAX_FRAME)
      && (p.line.open && p.sender.turn == |p.sender.sent| && p.line.wire == [] && p.line.arrived == [] ==>
            p.far.frames == Deliverable(p.sender.sent))
  {
    RunKeeps(key, actions);
    var p := Run(key, actions);
    var sent, line := p.sender.sent, p.line;
    OpenTaken(key, sent, p.sender.turn, line);
    DeliverablePrefix(sent, line.carried);
    if p.far.failed {
      var f :| f in sent[..line.carried] && |f| > MAX_FRAME;
      assert f in sent;
    }
    if line.open && p.sender.turn == |sent| && line.wire == [] && line.arrived == [] {
      assert OnLine(line) == line.taken;
      assert sent[..line.carried] == sent;
    }
  }

  lemma SealedMessages(key: Key, frames: seq<Bytes>, i: nat)
    requires i < |Stream(key, frames)|
    ensures var m := Stream(key, frames)[i];
      m.Sealed? && m.key == key && m.iv == Iv(Counter(i)) && TAG < Length(m) <= MAX_MESSAGE
  {
    SealAt(key, 0, AllPieces(frames), i);
    PieceSizes(frames, i);
  }

  lemma {:induction false} PieceSizes(frames: seq<Bytes>, i: nat)
    requires i < |AllPieces(frames)|
    ensures 1 <= |AllPieces(frames)[i]| <= PIECE + 1
    decreases |frames|
  {
    var init, last := frames[..|frames| - 1], frames[|frames| - 1];
    if i < |AllPieces(init)| {
      PieceSizes(init, i);
    } else {
      var k := i - |AllPieces(init)|;
      SealedLengths(Key(0), 0, last, k);
      SealAt(Key(0), 0, Pieces(last), k);
    }
  }

  /** What reaches the far end when nobody else can seal under its key: anything at all, but for
      messages that open under that key, which can only be some of those that were sealed. */
  ghost predicate Unforged(key: Key, frames: seq<Bytes>, messages: seq<Message>)
  {
    forall m :: m in messages && m.Sealed? && m.key == key ==> m in Stream(key, frames)
  }

  /** A message that does not fail is the next one sealed. */
  lemma AcceptedIsNext(key: Key, frames: seq<Bytes>, r: Receiver, m: Message)
    requires Unforged(key, frames, [m]) && |Stream(key, frames)| <= COUNT_LIMIT
    requires r.key == key && !Open(r, m).1.Failed?
    ensures r.calls < |Stream(key, frames)| && m == Stream(key, frames)[r.calls]
    ensures Open(r, m).0.calls == r.calls + 1 && Open(r, m).0.key == key
  {
    OpensExactly(r, m);
    var stream := Stream(key, frames);
    assert m in [m] && m.Sealed? && m.key == key && m.iv == Iv(Counter(r.calls));
    var j :| 0 <= j < |stream| && stream[j] == m;
    SealedMessages(key, frames, j);
    SameNonce(j, r.calls);
  }

  ghost predicate InTurn(key: Key, stream: seq<Message>, messages: seq<Message>, got: Opened)
  {
    !got.failed ==> messages <= stream && got.receiver.calls == |messages| && got.receiver.key == key
  }

  lemma OneMoreInTurn(key: Key, frames: seq<Bytes>, messages: seq<Message>, got: Opened, m: Message)
    requires Unforged(key, frames, [m]) && |Stream(key, frames)| <= COUNT_LIMIT
    requires InTurn(key, Stream(key, frames), messages, got)
    ensures InTurn(key, Stream(key, frames), messages + [m], After(got, m))
  {
    var (next, o) := Open(got.receiver, m);
    if !got.failed && !o.Failed? {
      AcceptedIsNext(key, frames, got.receiver, m);
    }
  }

  lemma {:induction false} AcceptedInTurn(key: Key, frames: seq<Bytes>, messages: seq<Message>)
    requires Unforged(key, frames, messages) && |Stream(key, frames)| <= COUNT_LIMIT
    ensures InTurn(key, Stream(key, frames), messages, OpenAll(NewReceiver(key), messages))
  {
    if messages != [] {
      var init, m := messages[..|messages| - 1], messages[|messages| - 1];
      AcceptedInTurn(key, frames, init);
      OneMoreInTurn(key, frames, init, OpenAll(NewReceiver(key), init), m);
      assert messages == init + [m];
      OpenOneMore(NewReceiver(key), init, m);
    }
  }

  lemma SameNonce(i: nat, j: nat)
    requires Iv(Counter(i)) == Iv(Counter(j)) && i < COUNT_LIMIT
    ensures i == j
  {
    if i < j {
      NoncesDiffer(i, j);
    } else if j < i {
      NoncesDiffer(j, i);
    }
  }

  /** Lost, repeated, reordered, cut short or made up: as long as no message failed to open, those
      that came are exactly the first ones sealed, and the frames they gave the first ones
      sent. */
  lemma OnlyInOrder(key: Key, frames: seq<Bytes>, messages: seq<Message>)
    requires Unforged(key, frames, messages) && |Stream(key, frames)| <= COUNT_LIMIT
    requires !OpenAll(NewReceiver(key), messages).failed
    ensures messages <= Stream(key, frames)
    ensures OpenAll(NewReceiver(key), messages).frames <= Deliverable(frames) <= frames
  {
    AcceptedInTurn(key, frames, messages);
    OpenStream(key, frames, |messages|);
    assert messages == Stream(key, frames)[..|messages|];
  }

  /** Message `i` of a sender: sealed under nonce `i`, and of a length every check lets by. */
  lemma SealedMessage(key: Key, s: Sender, i: nat)
    requires Sealing(key, s) && i < |s.sealed|
    ensures var m := s.sealed[i];
      m.Sealed? && m.iv == Iv(Counter(i)) && TAG < Length(m) <= MAX_MESSAGE
  {
    var init := s.sent[..s.turn];
    if i < |Stream(key, init)| {
      SealedMessages(key, init, i);
    } else {
      var last := s.sent[s.turn];
      StreamGrows(key, init, last);
      assert s.sealed <= Stream(key, init + [last]);
      SealedMessages(key, init + [last], i);
    }
  }

  lemma {:induction false} StreamPrefix(key: Key, frames: seq<Bytes>, n: nat)
    requires n <= |frames|
    ensures Stream(key, frames[..n]) <= Stream(key, frames)
    decreases |frames| - n
  {
    if n < |frames| {
      assert frames[..n + 1] == frames[..n] + [frames[n]];
      StreamGrows(key, frames[..n], frames[n]);
      StreamPrefix(key, frames, n + 1);
    } else {
      assert frames[..n] == frames;
    }
  }

  lemma TakenIsSealed(key: Key, s: Sender, line: Line)
    requires Sealing(key, s) && Carrying(key, s.sent, s.turn, line)
    ensures line.taken <= s.sealed
  {
    assert s.sent[..s.turn][..line.carried] == s.sent[..line.carried];
    StreamPrefix(key, s.sent[..s.turn], line.carried);
    assert line.taken <= OnLine(line);
  }

  lemma TakenCounts(key: Key, s: Sender, line: Line)
    requires Sealing(key, s) && Carrying(key, s.sent, s.turn, line)
    ensures OpenAll(NewReceiver(key), line.taken).receiver.calls == |line.taken|
  {
    TakenIsSealed(key, s, line);
    forall m | m in line.taken
      ensures TAG < Length(m) <= MAX_MESSAGE
    {
      var i :| 0 <= i < |line.taken| && line.taken[i] == m;
      SealedMessage(key, s, i);
    }
    CallsCount(NewReceiver(key), line.taken);
  }

  /** Both ends' nonces stay in step with the message count, and the messages opened are the
      first ones sealed. */
  lemma NoncesInStep(key: Key, actions: seq<Action>)
    ensures var p := Run(key, actions);
      && p.sender.calls == |p.sender.sealed| && p.far.receiver.calls == |p.line.taken|
      && p.line.taken <= p.sender.sealed
  {
    RunKeeps(key, actions);
    var p := Run(key, actions);
    TakenIsSealed(key, p.sender, p.line);
    TakenCounts(key, p.sender, p.line);
  }

  /** No two of the first 2^53 + 1 messages of a run are sealed under the same nonce. */
  lemma NoncesNeverRepeat(key: Key, actions: seq<Action>, i: nat, j: nat)
    requires i < j < |Run(key, actions).sender.sealed|
    ensures var sealed := Run(key, actions).sender.sealed;
      sealed[i].Sealed? && sealed[j].Sealed? && (sealed[i].iv != sealed[j].iv <==> i < COUNT_LIMIT)
  {
    RunKeeps(key, actions);
    var s := Run(key, actions).sender;
    SealedMessage(key, s, i);
    SealedMessage(key, s, j);
    NoncesDiffer(i, j);
  }

  /** No message of a run is turned away for its length: not by `open`, and not by the room,
      which takes one from a guest as it is and one from the host behind the guest's id. */
  lemma LengthsPass(key: Key, actions: seq<Action>, i: nat)
    requires i < |Run(key, actions).sender.sealed|
    ensures var n := Length(Run(key, actions).sender.sealed[i]);
      TAG < n <= MAX_MESSAGE && n <= Room.MAX_NOISE && Room.ID_BYTES + n <= Room.Limit(Room.Host)
  {
    RunKeeps(key, actions);
    SealedMessage(key, Run(key, actions).sender, i);
  }

  /** Over every run the messages put on the way are the first ones of all that carry the frames
      sent, and all of them once the last frame was put there. */
  lemma PutIsStream(key: Key, actions: seq<Action>)
    ensures var p := Run(key, actions);
      && p.line.put <= Stream(key, p.sender.sent)
      && (p.line.carried == |p.sender.sent| ==> p.line.put == Stream(key, p.sender.sent))
  {
    RunKeeps(key, actions);
    var p := Run(key, actions);
    StreamPrefix(key, p.sender.sent, p.line.carried);
    assert p.sender.sent[..|p.sender.sent|] == p.sender.sent;
  }

  // ---- nothing gets stuck ------------------------------------------------------------------

  predicate Moves(a: Action) { !a.Submit? && !a.Cut? }

  function ToSeal(s: Sender): nat
  {
    if HasPiece(s) then |Pieces(s.sent[s.turn])| - |s.ready| else 0
  }

  predicate Idle(p: Pipe) { p.sender.turn == |p.sender.sent| && p.line.wire == [] && p.line.arrived == [] }

  /** What is to be done next: seal, send, deliver or open. */
  function Due(p: Pipe): Action
  {
    if HasPiece(p.sender) then SealNext
    else if IsSealed(p.sender) then Flush
    else if p.line.wire != [] then Arrive
    else OpenNext
  }

  /** One thing less is to be done. */
  predicate Closer(p: Pipe, q: Pipe)
  {
    && q.line.open && q.sender.sent == p.sender.sent && q.sender.turn <= |q.sender.sent|
    && (|| q.sender.turn == p.sender.turn + 1
        || (q.sender.turn == p.sender.turn
            && (|| ToSeal(q.sender) < ToSeal(p.sender)
                || (ToSeal(q.sender) == ToSeal(p.sender)
                    && (|| |q.line.wire| < |p.line.wire|
                        || (|q.line.wire| == |p.line.wire| && |q.line.arrived| < |p.line.arrived|))))))
  }

  lemma DueMoves(p: Pipe)
    requires Inv(p) && p.line.open && !Idle(p)
    ensures Closer(p, Step(p, Due(p)))
  {
    var s := p.sender;
    if s.turn < |s.sent| {
      assert |s.ready| <= |SealAll(p.key, |Stream(p.key, s.sent[..s.turn])|, Pieces(s.sent[s.turn]))|;
    }
  }

  ghost predicate Reached(key: Key, actions: seq<Action>, p: Pipe) { p == Run(key, actions) }

  /** These steps, none of them a new frame, hand on all that can be delivered. */
  ghost predicate Drains(key: Key, actions: seq<Action>, more: seq<Action>, sent: seq<Bytes>)
  {
    && (forall a :: a in more ==> Moves(a))
    && Run(key, actions + more).line.open
    && Run(key, actions + more).far.frames == Deliverable(sent)
  }

  lemma RunOneMore(key: Key, actions: seq<Action>, a: Action)
    ensures Run(key, actions + [a]) == Step(Run(key, actions), a)
  {
    assert (actions + [a])[..|actions|] == actions;
  }

  lemma OneDue(key: Key, actions: seq<Action>, p: Pipe) returns (a: Action, q: Pipe)
    requires Reached(key, actions, p) && p.line.open && !Idle(p)
    ensures Moves(a) && Reached(key, actions + [a], q) && Closer(p, q)
  {
    RunKeeps(key, actions);
    DueMoves(p);
    a := Due(p);
    RunOneMore(key, actions, a);
    q := Step(p, a);
  }

  lemma IdleIsDrained(key: Key, actions: seq<Action>, p: Pipe)
    requires Reached(key, actions, p) && p.line.open && Idle(p)
    ensures Drains(key, actions, [], p.sender.sent)
  {
    ChannelIsFifo(key, actions);
    assert actions + [] == actions;
  }

  lemma DrainsFirst(key: Key, actions: seq<Action>, a: Action, rest: seq<Action>, sent: seq<Bytes>)
    requires Moves(a) && Drains(key, actions + [a], rest, sent)
    ensures Drains(key, actions, [a] + rest, sent)
  {
    assert actions + ([a] + rest) == actions + [a] + rest;
  }

  lemma {:induction false} DrainFrom(key: Key, actions: seq<Action>, p: Pipe) returns (more: seq<Action>)
    requires Reached(key, actions, p) && p.line.open && p.sender.turn <= |p.sender.sent|
    ensures Drains(key, actions, more, p.sender.sent)
    decreases |p.sender.sent| - p.sender.turn, ToSeal(p.sender), |p.line.wire|, |p.line.arrived|
  {
    if Idle(p) {
      more := [];
      IdleIsDrained(key, actions, p);
    } else {
      var a, q := OneDue(key, actions, p);
      var rest := DrainFrom(key, actions + [a], q);
      more := [a] + rest;
      DrainsFirst(key, actions, a, rest, p.sender.sent);
    }
  }

  /** From any moment of any run with the socket open, some steps, none of them a new frame, hand
      on every frame that can be delivered. */
  lemma CanDrain(key: Key, actions: seq<Action>) returns (more: seq<Action>)
    requires Run(key, actions).line.open
    ensures Drains(key, actions, more, Run(key, actions).sender.sent)
  {
    RunKeeps(key, actions);
    assert Sealing(key, Run(key, actions).sender);
    more := DrainFrom(key, actions, Run(key, actions));
  }
}
