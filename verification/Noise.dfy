/** A shared tab's session after its handshake (relay/public/noise.js): frames cut into
    flagged pieces, each sealed under the next nonce, and put together again.

    Encryption is symbolic: a sealed message is the key, nonce, associated data and
    plaintext it was made from, and opens only under the same key, nonce and data. */
module Noise {
  import opened Hex

  const TAG := 16
  const PIECE := 32 * 1024
  const MAX_FRAME := 16 * 1024 * 1024
  /** The largest Noise message (section 3 of the Noise Protocol Framework, revision 34). */
  const MAX_MESSAGE := 65535
  /** A JavaScript number counts no further: 2^53 + 1 is 2^53 again. */
  const COUNT_LIMIT := 0x20_0000_0000_0000

  datatype Key = Key(id: nat)

  datatype Message = Sealed(key: Key, iv: Bytes, ad: Bytes, plain: Bytes) | Junk(bytes: Bytes)

  function Length(m: Message): nat
  {
    match m
    case Sealed(_, _, _, plain) => |plain| + TAG
    case Junk(bytes) => |bytes|
  }

  // ---- nonces --------------------------------------------------------------------

  function BigEndian(n: nat, width: nat): (r: Bytes)
    ensures |r| == width
  {
    if width == 0 then [] else BigEndian(n / 256, width - 1) + [(n % 256) as byte]
  }

  /** The AES-GCM nonce (section 12.4): four zero bytes, then the counter big-endian. */
  function Iv(n: nat): Bytes
  {
    [0, 0, 0, 0] + BigEndian(n, 8)
  }

  function Advance(n: nat): nat { if n < COUNT_LIMIT then n + 1 else n }

  /** The counter once `calls` nonces were taken. */
  function Counter(calls: nat): (n: nat)
    ensures n == if calls < COUNT_LIMIT then calls else COUNT_LIMIT
  {
    if calls == 0 then 0 else Advance(Counter(calls - 1))
  }

  function Power256(width: nat): (p: nat)
    ensures p > 0
  {
    if width == 0 then 1 else 256 * Power256(width - 1)
  }

  /** Each byte of the big-endian form, the last one the lowest. */
  lemma {:induction false} BigEndianAt(n: nat, width: nat, i: nat)
    requires i < width
    ensures BigEndian(n, width)[i] as int == n / Power256(width - 1 - i) % 256
  {
    if i < width - 1 {
      BigEndianAt(n / 256, width - 1, i);
      DivideTwice(n, Power256(width - 2 - i));
    }
  }

  lemma DivideTwice(n: nat, p: nat)
    requires p > 0
    ensures n / 256 / p == n / (256 * p)
  {
    var q, r := n / 256 / p, n / 256 % p;
    assert n / 256 == q * p + r;
    assert n == 256 * (q * p + r) + n % 256;
    assert n == (256 * p) * q + (256 * r + n % 256);
    assert 0 <= 256 * r + n % 256 < 256 * p;
    Quotient(n, 256 * p, q, 256 * r + n % 256);
  }

  lemma Quotient(n: nat, d: nat, q: nat, r: nat)
    requires d > 0 && n == d * q + r && r < d
    ensures n / d == q
  {
    assert n == d * (n / d) + n % d;
    assert d * (n / d - q) == r - n % d;
    TimesWhole(d, n / d - q);
  }

  lemma TimesWhole(d: int, e: int)
    requires d >= 0
    ensures e > 0 ==> d * e >= d
    ensures e < 0 ==> d * e <= -d
  {
  }

  /** The nonce of a counter, byte by byte: four zeros and then the counter, its highest byte
      first. */
  lemma NonceBytes(n: nat, i: nat)
    requires i < 12
    ensures |Iv(n)| == 12
    ensures i < 4 ==> Iv(n)[i] == 0
    ensures i >= 4 ==> Iv(n)[i] as int == n / Power256(11 - i) % 256
  {
    if i >= 4 {
      BigEndianAt(n, 8, i - 4);
    }
  }

  lemma {:induction false} BigEndianInjective(m: nat, n: nat, width: nat)
    requires m < Power256(width) && n < Power256(width)
    requires BigEndian(m, width) == BigEndian(n, width)
    ensures m == n
  {
    if width > 0 {
      var a, b := BigEndian(m, width), BigEndian(n, width);
      assert a[..width - 1] == BigEndian(m / 256, width - 1) && b[..width - 1] == BigEndian(n / 256, width - 1);
      assert a[width - 1] == b[width - 1];
      BigEndianInjective(m / 256, n / 256, width - 1);
    }
  }

  /** No two of the first 2^53 + 1 nonces are the same, and every later one is the last of
      them again: that many messages may be sealed under a key and not one more. */
  lemma NoncesDiffer(i: nat, j: nat)
    requires i < j
    ensures Iv(Counter(i)) != Iv(Counter(j)) <==> i < COUNT_LIMIT
  {
    if i < COUNT_LIMIT && Iv(Counter(i)) == Iv(Counter(j)) {
      assert Iv(Counter(i))[4..] == BigEndian(Counter(i), 8) && Iv(Counter(j))[4..] == BigEndian(Counter(j), 8);
      assert Power256(8) == 0x1_0000_0000_0000_0000 by {
        assert Power256(4) == 0x1_0000_0000;
        assert Power256(6) == 0x1_0000_0000_0000;
      }
      BigEndianInjective(Counter(i), Counter(j), 8);
    }
  }

  // ---- sealing -------------------------------------------------------------------

  /** A frame's pieces, each behind its flag: 1 on the last, 0 on those before it. */
  function Pieces(frame: Bytes): (r: seq<Bytes>)
    ensures |r| >= 1
  {
    if |frame| <= PIECE then [[1] + frame]
    else [[0] + frame[..PIECE]] + Pieces(frame[PIECE..])
  }

  /** The pieces sealed in order, the first under the nonce taken after `calls` others. */
  function SealAll(key: Key, calls: nat, pieces: seq<Bytes>): (r: seq<Message>)
    ensures |r| == |pieces|
    decreases |pieces|
  {
    if pieces == [] then []
    else [SealOne(key, calls, pieces[0])] + SealAll(key, calls + 1, pieces[1..])
  }

  function SealOne(key: Key, calls: nat, plain: Bytes): Message
  {
    Sealed(key, Iv(Counter(calls)), [], plain)
  }

  // ---- opening -------------------------------------------------------------------

  /** The receiving half of a session; `calls` counts the nonces it has taken. */
  datatype Receiver = Receiver(key: Key, calls: nat, partial: seq<Bytes>, size: nat)

  datatype Outcome = Frame(bytes: Bytes) | Pending | Failed

  function Concat(parts: seq<Bytes>): Bytes
  {
    if parts == [] then [] else Concat(parts[..|parts| - 1]) + parts[|parts| - 1]
  }

  function Open(r: Receiver, m: Message): (Receiver, Outcome)
  {
    if Length(m) <= TAG || Length(m) > MAX_MESSAGE then (r, Failed)
    else
      var spent := r.(calls := r.calls + 1);
      if !Opens(r, m) then (spent, Failed)
      else if m.plain[0] != 0 && m.plain[0] != 1 then (spent, Failed)
      else
        var size := r.size + |m.plain| - 1;
        var parts := r.partial + [m.plain[1..]];
        if size > MAX_FRAME then (spent.(size := size), Failed)
        else if m.plain[0] == 0 then (spent.(size := size, partial := parts), Pending)
        else (spent.(size := 0, partial := []), Frame(Concat(parts)))
  }

  predicate Opens(r: Receiver, m: Message)
  {
    m.Sealed? && m.key == r.key && m.iv == Iv(Counter(r.calls)) && m.ad == []
  }

  /** A message opens exactly when it is a piece sealed under this key and this very nonce, of a
      size that fits, and does not make its frame too long; what is handed on is the frame's
      pieces together. */
  lemma OpensExactly(r: Receiver, m: Message)
    ensures !Open(r, m).1.Failed? <==>
              exists flag: byte, part: Bytes :: IsNext(r, m, flag, part)
    ensures forall flag: byte, part: Bytes :: IsNext(r, m, flag, part) ==>
              Open(r, m).1 == if flag == 1 then Frame(Concat(r.partial) + part) else Pending
  {
    if !Open(r, m).1.Failed? {
      assert m.plain == [m.plain[0]] + m.plain[1..];
      assert IsNext(r, m, m.plain[0], m.plain[1..]);
    }
    forall flag: byte, part: Bytes | IsNext(r, m, flag, part)
      ensures Open(r, m).1 == if flag == 1 then Frame(Concat(r.partial) + part) else Pending
    {
      assert ([flag] + part)[1..] == part;
      assert (r.partial + [part])[..|r.partial|] == r.partial;
    }
  }

  ghost predicate IsNext(r: Receiver, m: Message, flag: byte, part: Bytes)
  {
    && m == Sealed(r.key, Iv(Counter(r.calls)), [], [flag] + part) && flag <= 1
    && 1 + |part| + TAG <= MAX_MESSAGE && r.size + |part| <= MAX_FRAME
  }

  /** What a run of messages leaves: the receiver, the frames, and whether any failed. */
  datatype Opened = Opened(receiver: Receiver, frames: seq<Bytes>, failed: bool)

  function FrameOf(o: Outcome): seq<Bytes> { if o.Frame? then [o.bytes] else [] }

  function After(sofar: Opened, m: Message): Opened
  {
    var (next, o) := Open(sofar.receiver, m);
    Opened(next, sofar.frames + FrameOf(o), sofar.failed || o.Failed?)
  }

  /** Messages opened in order; a failed one does not stop those behind it. */
  function OpenAll(r: Receiver, messages: seq<Message>): Opened
  {
    if messages == [] then Opened(r, [], false)
    else After(OpenAll(r, messages[..|messages| - 1]), messages[|messages| - 1])
  }

  function Join(a: Opened, b: Opened): Opened
  {
    Opened(b.receiver, a.frames + b.frames, a.failed || b.failed)
  }

  lemma JoinAfter(a: Opened, b: Opened, m: Message)
    ensures After(Join(a, b), m) == Join(a, After(b, m))
  {
    var o := Open(b.receiver, m).1;
    assert a.frames + b.frames + FrameOf(o) == a.frames + (b.frames + FrameOf(o));
  }

  lemma OpenOneMore(r: Receiver, messages: seq<Message>, m: Message)
    ensures OpenAll(r, messages + [m]) == After(OpenAll(r, messages), m)
  {
    assert (messages + [m])[..|messages|] == messages;
  }

  lemma JoinNothing(a: Opened)
    ensures Join(a, Opened(a.receiver, [], false)) == a
  {
    assert a.frames + [] == a.frames;
  }

  /** One more message on top of what `a` and then some others came to. */
  lemma AppendOneMore(first: Opened, whole: Opened, more: Opened, m: Message)
    requires whole == Join(first, more)
    ensures After(whole, m) == Join(first, After(more, m))
  {
    JoinAfter(first, more, m);
  }

  lemma LastOf<T>(a: seq<T>, b: seq<T>)
    requires b != []
    ensures b[..|b| - 1] + [b[|b| - 1]] == b
    ensures (a + b[..|b| - 1]) + [b[|b| - 1]] == a + b
  {
  }

  lemma {:induction false} OpenAllAppend(r: Receiver, a: seq<Message>, b: seq<Message>)
    ensures OpenAll(r, a + b) == Join(OpenAll(r, a), OpenAll(OpenAll(r, a).receiver, b))
    decreases |b|
  {
    var first := OpenAll(r, a);
    if b == [] {
      assert a + b == a;
      JoinNothing(first);
    } else {
      var init, m := b[..|b| - 1], b[|b| - 1];
      OpenAllAppend(r, a, init);
      AppendOneMore(first, OpenAll(r, a + init), OpenAll(first.receiver, init), m);
      OpenOneMore(r, a + init, m);
      OpenOneMore(first.receiver, init, m);
      LastOf(a, b);
    }
  }

  // ---- a frame, whole and in part --------------------------------------------------

  /** The pieces a receiver holds are as long as it counts. */
  ghost predicate Counted(r: Receiver) { r.size == |Concat(r.partial)| }

  lemma ConcatAppend(parts: seq<Bytes>, part: Bytes)
    ensures Concat(parts + [part]) == Concat(parts) + part
  {
    assert (parts + [part])[..|parts|] == parts;
  }

  lemma OpenAllOne(r: Receiver, m: Message)
    ensures OpenAll(r, [m]) == Opened(Open(r, m).0, FrameOf(Open(r, m).1), Open(r, m).1.Failed?)
  {
    assert [m][..0] == [];
  }

  /** One piece of a frame, opened by the receiver it was sealed for. */
  lemma OpenPiece(r: Receiver, flag: byte, part: Bytes)
    requires (flag == 0 || flag == 1) && |part| <= PIECE
    ensures var size := r.size + |part|;
      Open(r, SealOne(r.key, r.calls, [flag] + part)) ==
        if size > MAX_FRAME then (Receiver(r.key, r.calls + 1, r.partial, size), Failed)
        else if flag == 0 then (Receiver(r.key, r.calls + 1, r.partial + [part], size), Pending)
        else (Receiver(r.key, r.calls + 1, [], 0), Frame(Concat(r.partial + [part])))
  {
    assert ([flag] + part)[1..] == part;
  }

  /** Once a frame has outgrown the limit the session is over: it gives no frame again. */
  lemma {:induction false} Overgrown(r: Receiver, messages: seq<Message>)
    requires r.size > MAX_FRAME
    ensures OpenAll(r, messages).frames == [] && OpenAll(r, messages).receiver.size > MAX_FRAME
  {
    if messages != [] {
      Overgrown(r, messages[..|messages| - 1]);
    }
  }

  lemma {:induction false} SealSplit(key: Key, calls: nat, a: seq<Bytes>, b: seq<Bytes>)
    ensures SealAll(key, calls, a + b) == SealAll(key, calls, a) + SealAll(key, calls + |a|, b)
    decreases |a|
  {
    if a == [] {
      assert a + b == b;
    } else {
      assert (a + b)[1..] == a[1..] + b;
      SealSplit(key, calls + 1, a[1..], b);
    }
  }

  /** What the first `j` messages of the rest of a frame come to: nothing before the last,
      which completes it exactly when it keeps within the limit. */
  ghost predicate RestOpened(r: Receiver, rest: Bytes, j: nat, got: Opened)
  {
    var fits := r.size + |rest| <= MAX_FRAME;
    && (j < |Pieces(rest)| || !fits ==> got.frames == [])
    && (got.failed ==> !fits)
    && (j == |Pieces(rest)| && !fits ==> got.failed && got.receiver.size > MAX_FRAME)
    && (j == |Pieces(rest)| && fits ==>
          && got.frames == [Concat(r.partial) + rest]
          && got.receiver == Receiver(r.key, r.calls + j, [], 0))
  }

  function Opening(r: Receiver, rest: Bytes, j: nat): Opened
    requires j <= |Pieces(rest)|
  {
    OpenAll(r, SealAll(r.key, r.calls, Pieces(rest))[..j])
  }

  /** The first of a frame's messages came to `one`, and the rest are opened after it. */
  ghost predicate FirstThen(r: Receiver, rest: Bytes, j: nat, next: Receiver, o: Outcome)
    requires 0 < j <= |Pieces(rest)|
  {
    var more := OpenAll(next, SealAll(r.key, r.calls + 1, Pieces(rest)[1..])[..j - 1]);
    Opening(r, rest, j) == Opened(more.receiver, FrameOf(o) + more.frames, o.Failed? || more.failed)
  }

  /** What opening one piece, sealed for this receiver, comes to. */
  ghost predicate ComesTo(r: Receiver, piece: Bytes, next: Receiver, o: Outcome)
  {
    Open(r, SealOne(r.key, r.calls, piece)) == (next, o)
  }

  lemma PieceOutgrows(r: Receiver, part: Bytes)
    requires |part| == PIECE && r.size + PIECE > MAX_FRAME
    ensures ComesTo(r, [0] + part, Receiver(r.key, r.calls + 1, r.partial, r.size + PIECE), Failed)
  {
    OpenPiece(r, 0, part);
  }

  lemma PieceIsKept(r: Receiver, part: Bytes)
    requires |part| == PIECE && r.size + PIECE <= MAX_FRAME
    ensures ComesTo(r, [0] + part, Receiver(r.key, r.calls + 1, r.partial + [part], r.size + PIECE), Pending)
  {
    OpenPiece(r, 0, part);
  }

  lemma ConsTake<T>(x: T, tail: seq<T>, j: nat)
    requires 0 < j <= |tail| + 1
    ensures ([x] + tail)[..j] == [x] + tail[..j - 1]
  {
  }

  lemma OpenCons(r: Receiver, m: Message, tail: seq<Message>, next: Receiver, o: Outcome)
    requires Open(r, m) == (next, o)
    ensures var more := OpenAll(next, tail);
      OpenAll(r, [m] + tail) == Opened(more.receiver, FrameOf(o) + more.frames, o.Failed? || more.failed)
  {
    OpenAllAppend(r, [m], tail);
    OpenAllOne(r, m);
  }

  lemma SealCons(key: Key, calls: nat, pieces: seq<Bytes>, j: nat)
    requires 0 < j <= |pieces|
    ensures SealAll(key, calls, pieces)[..j]
         == [SealOne(key, calls, pieces[0])] + SealAll(key, calls + 1, pieces[1..])[..j - 1]
  {
    ConsTake(SealOne(key, calls, pieces[0]), SealAll(key, calls + 1, pieces[1..]), j);
  }

  lemma OpenFirst(r: Receiver, rest: Bytes, j: nat, next: Receiver, o: Outcome)
    requires 0 < j <= |Pieces(rest)| && ComesTo(r, Pieces(rest)[0], next, o)
    ensures FirstThen(r, rest, j, next, o)
  {
    var pieces := Pieces(rest);
    SealCons(r.key, r.calls, pieces, j);
    OpenCons(r, SealOne(r.key, r.calls, pieces[0]), SealAll(r.key, r.calls + 1, pieces[1..])[..j - 1], next, o);
  }

  lemma OpenLast(r: Receiver, rest: Bytes, j: nat)
    requires Counted(r) && r.size <= MAX_FRAME && |rest| <= PIECE && j <= 1
    ensures RestOpened(r, rest, j, Opening(r, rest, j))
  {
    if j == 1 {
      OpenPiece(r, 1, rest);
      ConcatAppend(r.partial, rest);
      var one := Open(r, SealOne(r.key, r.calls, [1] + rest));
      assert Pieces(rest)[0] == [1] + rest;
      OpenFirst(r, rest, j, one.0, one.1);
      assert SealAll(r.key, r.calls + 1, Pieces(rest)[1..])[..0] == [];
    }
  }

  /** A frame's outcome from that of what follows its first piece. */
  lemma RestGrows(r: Receiver, next: Receiver, rest: Bytes, j: nat, more: Opened)
    requires |rest| > PIECE && 0 < j <= |Pieces(rest)|
    requires next == Receiver(r.key, r.calls + 1, r.partial + [rest[..PIECE]], r.size + PIECE)
    requires RestOpened(next, rest[PIECE..], j - 1, more)
    ensures RestOpened(r, rest, j, Opened(more.receiver, [] + more.frames, more.failed))
  {
    assert Pieces(rest)[1..] == Pieces(rest[PIECE..]);
    PartJoins(r.partial, rest);
  }

  lemma PartJoins(partial: seq<Bytes>, rest: Bytes)
    requires |rest| > PIECE
    ensures Concat(partial + [rest[..PIECE]]) + rest[PIECE..] == Concat(partial) + rest
  {
    ConcatAppend(partial, rest[..PIECE]);
    assert rest == rest[..PIECE] + rest[PIECE..];
  }

  lemma TooLongThen(r: Receiver, rest: Bytes, j: nat, over: Receiver)
    requires 0 < j <= |Pieces(rest)| && r.size + |rest| > MAX_FRAME && over.size > MAX_FRAME
    requires FirstThen(r, rest, j, over, Failed)
    ensures RestOpened(r, rest, j, Opening(r, rest, j))
  {
    Overgrown(over, SealAll(r.key, r.calls + 1, Pieces(rest)[1..])[..j - 1]);
  }

  lemma FirstOutgrows(r: Receiver, rest: Bytes)
    requires |rest| > PIECE && r.size + PIECE > MAX_FRAME
    ensures ComesTo(r, Pieces(rest)[0], Receiver(r.key, r.calls + 1, r.partial, r.size + PIECE), Failed)
  {
    HeadPiece(rest);
    PieceOutgrows(r, rest[..PIECE]);
  }

  lemma FirstIsKept(r: Receiver, rest: Bytes)
    requires |rest| > PIECE && r.size + PIECE <= MAX_FRAME
    ensures ComesTo(r, Pieces(rest)[0],
                    Receiver(r.key, r.calls + 1, r.partial + [rest[..PIECE]], r.size + PIECE), Pending)
  {
    HeadPiece(rest);
    PieceIsKept(r, rest[..PIECE]);
  }

  /** A piece that makes the frame too long: the rest of it comes to nothing. */
  lemma OpenTooLong(r: Receiver, rest: Bytes, j: nat)
    requires |rest| > PIECE && 0 < j <= |Pieces(rest)| && r.size <= MAX_FRAME < r.size + PIECE
    ensures RestOpened(r, rest, j, Opening(r, rest, j))
  {
    var over := Receiver(r.key, r.calls + 1, r.partial, r.size + PIECE);
    FirstOutgrows(r, rest);
    OpenFirst(r, rest, j, over, Failed);
    TooLongThen(r, rest, j, over);
  }

  lemma HeadPiece(rest: Bytes)
    requires |rest| > PIECE
    ensures Pieces(rest)[0] == [0] + rest[..PIECE] && Pieces(rest)[1..] == Pieces(rest[PIECE..])
  {
  }

  lemma KeptThen(r: Receiver, next: Receiver, rest: Bytes, j: nat)
    requires |rest| > PIECE && 0 < j <= |Pieces(rest)| && j - 1 <= |Pieces(rest[PIECE..])|
    requires next == Receiver(r.key, r.calls + 1, r.partial + [rest[..PIECE]], r.size + PIECE)
    requires FirstThen(r, rest, j, next, Pending)
    requires RestOpened(next, rest[PIECE..], j - 1, Opening(next, rest[PIECE..], j - 1))
    ensures RestOpened(r, rest, j, Opening(r, rest, j))
  {
    HeadPiece(rest);
    RestGrows(r, next, rest, j, Opening(next, rest[PIECE..], j - 1));
  }

  /** A piece that is kept: what follows decides. */
  lemma OpenKept(r: Receiver, rest: Bytes, j: nat)
    requires Counted(r) && |rest| > PIECE && 0 < j <= |Pieces(rest)| && r.size + PIECE <= MAX_FRAME
    requires var next := Receiver(r.key, r.calls + 1, r.partial + [rest[..PIECE]], r.size + PIECE);
      j - 1 <= |Pieces(rest[PIECE..])| && RestOpened(next, rest[PIECE..], j - 1, Opening(next, rest[PIECE..], j - 1))
    ensures RestOpened(r, rest, j, Opening(r, rest, j))
  {
    var next := Receiver(r.key, r.calls + 1, r.partial + [rest[..PIECE]], r.size + PIECE);
    FirstIsKept(r, rest);
    OpenFirst(r, rest, j, next, Pending);
    KeptThen(r, next, rest, j);
  }

  lemma {:induction false} OpenRest(r: Receiver, rest: Bytes, j: nat)
    requires Counted(r) && r.size <= MAX_FRAME && j <= |Pieces(rest)|
    ensures RestOpened(r, rest, j, Opening(r, rest, j))
    decreases |rest|
  {
    if |rest| <= PIECE {
      OpenLast(r, rest, j);
    } else if j > 0 {
      if r.size + PIECE > MAX_FRAME {
        OpenTooLong(r, rest, j);
      } else {
        var next := Receiver(r.key, r.calls + 1, r.partial + [rest[..PIECE]], r.size + PIECE);
        ConcatAppend(r.partial, rest[..PIECE]);
        OpenRest(next, rest[PIECE..], j - 1);
        OpenKept(r, rest, j);
      }
    }
  }

  /** Sealing a frame and opening its messages gives it back, if and only if it is no longer
      than 16 MiB. */
  lemma FrameRoundTrip(key: Key, calls: nat, frame: Bytes)
    ensures var r := Receiver(key, calls, [], 0);
      var got := OpenAll(r, SealAll(key, calls, Pieces(frame)));
      && (got.frames == [frame] && !got.failed <==> |frame| <= MAX_FRAME)
      && (|frame| <= MAX_FRAME ==> got.receiver == r.(calls := calls + |Pieces(frame)|))
  {
    var r := Receiver(key, calls, [], 0);
    var messages := SealAll(key, calls, Pieces(frame));
    assert messages[..|messages|] == messages;
    OpenRest(r, frame, |messages|);
    assert Concat([]) + frame == frame;
    assert OpenAll(r, messages) == Opening(r, frame, |messages|);
  }

  /** No message `seal` makes is turned away for its length, by `open` or by the room. */
  lemma {:induction false} SealedLengths(key: Key, calls: nat, frame: Bytes, i: nat)
    requires i < |Pieces(frame)|
    ensures TAG < Length(SealAll(key, calls, Pieces(frame))[i]) <= TAG + 1 + PIECE <= MAX_MESSAGE
    decreases |frame|
  {
    if i > 0 && |frame| > PIECE {
      assert Pieces(frame)[1..] == Pieces(frame[PIECE..]);
      SealedLengths(key, calls + 1, frame[PIECE..], i - 1);
    }
  }

  // ---- many frames -------------------------------------------------------------------

  function AllPieces(frames: seq<Bytes>): seq<Bytes>
  {
    if frames == [] then [] else AllPieces(frames[..|frames| - 1]) + Pieces(frames[|frames| - 1])
  }

  /** The messages that carry `frames`, sealed from the first nonce on. */
  function Stream(key: Key, frames: seq<Bytes>): seq<Message>
  {
    SealAll(key, 0, AllPieces(frames))
  }

  /** The frames before the first one that is too long to open. */
  function Deliverable(frames: seq<Bytes>): (r: seq<Bytes>)
    ensures r <= frames
    ensures r == frames <==> forall f :: f in frames ==> |f| <= MAX_FRAME
    ensures |r| < |frames| ==> |frames[|r|]| > MAX_FRAME
  {
    if frames == [] then []
    else
      var init, last := frames[..|frames| - 1], frames[|frames| - 1];
      assert frames == init + [last];
      if Deliverable(init) == init && |last| <= MAX_FRAME then frames else Deliverable(init)
  }

  function NewReceiver(key: Key): Receiver { Receiver(key, 0, [], 0) }

  /** What opening the first `j` messages of a stream comes to. */
  ghost predicate StreamOpened(key: Key, frames: seq<Bytes>, j: nat, got: Opened)
  {
    var all, good := j == |AllPieces(frames)|, Deliverable(frames);
    && got.frames <= good
    && (got.failed ==> good != frames)
    && (all ==> got.frames == good)
    && (all && good == frames ==> !got.failed && got.receiver == NewReceiver(key).(calls := j))
    && (all && good != frames ==> got.failed && got.receiver.size > MAX_FRAME)
  }

  lemma StreamGrows(key: Key, init: seq<Bytes>, last: Bytes)
    ensures Stream(key, init + [last]) ==
              Stream(key, init) + SealAll(key, |AllPieces(init)|, Pieces(last))
  {
    assert (init + [last])[..|init|] == init;
    SealSplit(key, 0, AllPieces(init), Pieces(last));
  }

  lemma DeliverableGrows(init: seq<Bytes>, last: Bytes)
    ensures Deliverable(init + [last]) ==
              if Deliverable(init) == init && |last| <= MAX_FRAME then init + [last] else Deliverable(init)
    ensures |AllPieces(init + [last])| == |AllPieces(init)| + |Pieces(last)|
  {
    assert (init + [last])[..|init|] == init;
  }

  /** One more frame after frames that all came out. */
  lemma GoodGrows(key: Key, init: seq<Bytes>, last: Bytes, i: nat, before: Opened, more: Opened)
    requires 0 < i <= |Pieces(last)| && Deliverable(init) == init
    requires StreamOpened(key, init, |AllPieces(init)|, before) && RestOpened(before.receiver, last, i, more)
    ensures StreamOpened(key, init + [last], |AllPieces(init)| + i, Join(before, more))
  {
    DeliverableGrows(init, last);
    assert Concat([]) + last == last;
  }

  /** One more frame after one that was too long. */
  lemma BadGrows(key: Key, init: seq<Bytes>, last: Bytes, i: nat, before: Opened, more: Opened)
    requires 0 < i <= |Pieces(last)| && Deliverable(init) != init
    requires StreamOpened(key, init, |AllPieces(init)|, before)
    requires more.frames == [] && more.receiver.size > MAX_FRAME
    ensures StreamOpened(key, init + [last], |AllPieces(init)| + i, Join(before, more))
  {
    DeliverableGrows(init, last);
    assert |Deliverable(init)| <= |init|;
  }

  lemma OpenLastFrame(key: Key, init: seq<Bytes>, last: Bytes, i: nat)
    requires 0 < i <= |Pieces(last)|
    requires StreamOpened(key, init, |AllPieces(init)|, OpenAll(NewReceiver(key), Stream(key, init)))
    ensures var n := |AllPieces(init)|;
      StreamOpened(key, init + [last], n + i,
        OpenAll(NewReceiver(key), Stream(key, init) + SealAll(key, n, Pieces(last))[..i]))
  {
    var n := |AllPieces(init)|;
    var tail := SealAll(key, n, Pieces(last))[..i];
    var before := OpenAll(NewReceiver(key), Stream(key, init));
    var more := OpenAll(before.receiver, tail);
    OpenAllAppend(NewReceiver(key), Stream(key, init), tail);
    if Deliverable(init) == init {
      OpenFresh(key, n, last, i);
      GoodGrows(key, init, last, i, before, more);
    } else {
      Overgrown(before.receiver, tail);
      BadGrows(key, init, last, i, before, more);
    }
  }

  lemma OpenFresh(key: Key, calls: nat, frame: Bytes, i: nat)
    requires i <= |Pieces(frame)|
    ensures var r := Receiver(key, calls, [], 0);
      RestOpened(r, frame, i, OpenAll(r, SealAll(key, calls, Pieces(frame))[..i]))
  {
    OpenRest(Receiver(key, calls, [], 0), frame, i);
  }

  lemma FewerOpened(key: Key, init: seq<Bytes>, last: Bytes, j: nat, got: Opened)
    requires j <= |AllPieces(init)| && StreamOpened(key, init, j, got)
    ensures StreamOpened(key, init + [last], j, got)
  {
    DeliverableGrows(init, last);
    assert init <= init + [last];
  }

  lemma TakeOfConcat<T>(a: seq<T>, b: seq<T>, i: nat)
    requires i <= |b|
    ensures (a + b)[..|a| + i] == a + b[..i]
    ensures forall j :: 0 <= j <= |a| ==> (a + b)[..j] == a[..j]
  {
  }

  lemma FrontOfStream(key: Key, init: seq<Bytes>, last: Bytes, j: nat)
    requires j <= |AllPieces(init)|
    ensures j <= |Stream(key, init + [last])| && Stream(key, init + [last])[..j] == Stream(key, init)[..j]
  {
    StreamGrows(key, init, last);
    TakeOfConcat(Stream(key, init), SealAll(key, |AllPieces(init)|, Pieces(last)), 0);
  }

  lemma BackOfStream(key: Key, init: seq<Bytes>, last: Bytes, i: nat)
    requires i <= |Pieces(last)|
    ensures var n := |AllPieces(init)|;
      && n + i <= |Stream(key, init + [last])|
      && Stream(key, init + [last])[..n + i] == Stream(key, init) + SealAll(key, n, Pieces(last))[..i]
  {
    StreamGrows(key, init, last);
    TakeOfConcat(Stream(key, init), SealAll(key, |AllPieces(init)|, Pieces(last)), i);
  }

  lemma WholeStream(key: Key, frames: seq<Bytes>)
    ensures Stream(key, frames)[..|AllPieces(frames)|] == Stream(key, frames)
  {
  }

  ghost predicate StreamOpens(key: Key, frames: seq<Bytes>, j: nat, messages: seq<Message>)
  {
    StreamOpened(key, frames, j, OpenAll(NewReceiver(key), messages))
  }

  lemma FrontOpens(key: Key, init: seq<Bytes>, last: Bytes, j: nat, messages: seq<Message>)
    requires j <= |AllPieces(init)| && StreamOpens(key, init, j, messages)
    ensures StreamOpens(key, init + [last], j, messages)
  {
    FewerOpened(key, init, last, j, OpenAll(NewReceiver(key), messages));
  }

  lemma BackOpens(key: Key, init: seq<Bytes>, last: Bytes, i: nat)
    requires 0 < i <= |Pieces(last)| && StreamOpens(key, init, |AllPieces(init)|, Stream(key, init))
    ensures var n := |AllPieces(init)|;
      StreamOpens(key, init + [last], n + i, Stream(key, init) + SealAll(key, n, Pieces(last))[..i])
  {
    OpenLastFrame(key, init, last, i);
  }

  lemma BackOpensTaken(key: Key, init: seq<Bytes>, last: Bytes, i: nat)
    requires 0 < i <= |Pieces(last)| && StreamOpens(key, init, |AllPieces(init)|, Stream(key, init))
    ensures var n := |AllPieces(init)|;
      && n + i <= |Stream(key, init + [last])|
      && StreamOpens(key, init + [last], n + i, Stream(key, init + [last])[..n + i])
  {
    BackOfStream(key, init, last, i);
    BackOpens(key, init, last, i);
  }

  lemma {:induction false} OpenStream(key: Key, frames: seq<Bytes>, j: nat)
    requires j <= |AllPieces(frames)|
    ensures StreamOpens(key, frames, j, Stream(key, frames)[..j])
  {
    if frames == [] {
      assert Stream(key, frames)[..j] == [];
    } else {
      var init, last := frames[..|frames| - 1], frames[|frames| - 1];
      assert frames == init + [last];
      var n := |AllPieces(init)|;
      if j <= n {
        FrontOfStream(key, init, last, j);
        OpenStream(key, init, j);
        FrontOpens(key, init, last, j, Stream(key, init)[..j]);
      } else {
        WholeStream(key, init);
        OpenStream(key, init, n);
        DeliverableGrows(init, last);
        BackOpensTaken(key, init, last, j - n);
      }
    }
  }

  /** Every message of the right size takes one nonce, opened or not. */
  lemma {:induction false} CallsCount(r: Receiver, messages: seq<Message>)
    requires forall m :: m in messages ==> TAG < Length(m) <= MAX_MESSAGE
    ensures OpenAll(r, messages).receiver.calls == r.calls + |messages|
  {
    if messages != [] {
      CallsCount(r, messages[..|messages| - 1]);
    }
  }
}
