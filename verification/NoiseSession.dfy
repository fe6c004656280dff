/** The session object of relay/public/noise.js: two cipher states whose counters move on
    with every call, and the pieces of the frame that is arriving. */
module NoiseSession {
  import opened Hex
  import opened Noise

  class CipherState {
    const key: Key
    var n: nat

    constructor (key: Key)
      ensures this.key == key && n == 0
    {
      this.key := key;
      n := 0;
    }

    method Params() returns (iv: Bytes)
      modifies this
      ensures iv == Iv(old(n)) && n == Advance(old(n))
    {
      iv := Iv(n);
      if n < COUNT_LIMIT {
        n := n + 1;
      }
    }

    method Encrypt(ad: Bytes, plain: Bytes) returns (m: Message)
      modifies this
      ensures m == Sealed(key, Iv(old(n)), ad, plain) && n == Advance(old(n))
    {
      var iv := Params();
      m := Sealed(key, iv, ad, plain);
    }

    /** A failed decrypt spends its nonce as well. */
    method Decrypt(ad: Bytes, m: Message) returns (plain: Option<Bytes>)
      modifies this
      ensures n == Advance(old(n))
      ensures plain ==
        if m.Sealed? && m.key == key && m.iv == Iv(old(n)) && m.ad == ad then Some(m.plain) else None
    {
      var iv := Params();
      plain := if m.Sealed? && m.key == key && m.iv == iv && m.ad == ad then Some(m.plain) else None;
    }
  }

  function PieceCount(length: nat): nat
  {
    if length == 0 then 1 else (length + PIECE - 1) / PIECE
  }

  /** The piece `subarray(i * PIECE, (i + 1) * PIECE)` takes. */
  function PieceAt(frame: Bytes, i: nat): Bytes
    requires i * PIECE <= |frame|
  {
    frame[i * PIECE..if (i + 1) * PIECE < |frame| then (i + 1) * PIECE else |frame|]
  }

  lemma CountFromFront(length: nat)
    requires length > PIECE
    ensures PieceCount(length) == PieceCount(length - PIECE) + 1
  {
    assert (length + PIECE - 1) / PIECE == (length - 1) / PIECE + 1;
  }

  lemma PieceFromRest(frame: Bytes, i: nat)
    requires |frame| > PIECE && i > 0 && i * PIECE <= |frame|
    ensures PieceAt(frame, i) == PieceAt(frame[PIECE..], i - 1)
  {
    var rest := frame[PIECE..];
    var lo := (i - 1) * PIECE;
    var hi := if i * PIECE < |rest| then i * PIECE else |rest|;
    assert i * PIECE == lo + PIECE;
    assert rest[lo..hi] == frame[PIECE + lo..PIECE + hi];
  }

  /** Counting pieces up front and slicing them out by number gives the pieces a frame falls
      into when cut from the front. */
  lemma {:induction false} PiecesByNumber(frame: Bytes, i: nat)
    requires i < PieceCount(|frame|)
    ensures |Pieces(frame)| == PieceCount(|frame|) && i * PIECE <= |frame|
    ensures Pieces(frame)[i] == [if i == PieceCount(|frame|) - 1 then 1 else 0] + PieceAt(frame, i)
    decreases |frame|
  {
    if |frame| > PIECE {
      var rest := frame[PIECE..];
      CountFromFront(|frame|);
      if i == 0 {
        PiecesByNumber(rest, 0);
      } else {
        PiecesByNumber(rest, i - 1);
        PieceFromRest(frame, i);
        assert Pieces(frame)[i] == Pieces(rest)[i - 1];
      }
    }
  }

  class Session {
    const send: CipherState
    const receive: CipherState
    var partial: seq<Bytes>
    var size: nat

    constructor (send: CipherState, receive: CipherState)
      ensures this.send == send && this.receive == receive && partial == [] && size == 0
    {
      this.send, this.receive := send, receive;
      partial, size := [], 0;
    }

    /** The receiving half, `calls` nonces in. */
    ghost predicate Receives(r: Receiver)
      reads this, receive
    {
      receive.key == r.key && receive.n == Counter(r.calls) && partial == r.partial && size == r.size
    }

    /** The messages that carry `frame`, with `calls` nonces taken before it. */
    method Seal(frame: Bytes, ghost calls: nat) returns (out: seq<Message>)
      requires send.n == Counter(calls)
      modifies send
      ensures out == SealAll(send.key, calls, Pieces(frame))
      ensures send.n == Counter(calls + |Pieces(frame)|)
    {
      var count := PieceCount(|frame|);
      PiecesByNumber(frame, 0);
      out := [];
      var i := 0;
      while i < count
        invariant 0 <= i <= count
        invariant out == SealAll(send.key, calls, Pieces(frame)[..i])
        invariant send.n == Counter(calls + i)
      {
        PiecesByNumber(frame, i);
        var piece := PieceAt(frame, i);
        var m := send.Encrypt([], [if i == count - 1 then 1 else 0] + piece);
        assert Pieces(frame)[..i + 1] == Pieces(frame)[..i] + [Pieces(frame)[i]];
        SealSplit(send.key, calls, Pieces(frame)[..i], [Pieces(frame)[i]]);
        out := out + [m];
        i := i + 1;
      }
      assert Pieces(frame)[..count] == Pieces(frame);
    }

    /** One Noise message in. */
    method OpenMessage(m: Message, ghost r: Receiver) returns (o: Outcome)
      requires Receives(r) && receive != send
      modifies this, receive
      ensures Receives(Open(r, m).0) && o == Open(r, m).1
    {
      if Length(m) <= TAG || Length(m) > MAX_MESSAGE {
        return Failed;
      }
      var plain := receive.Decrypt([], m);
      if plain.None? {
        return Failed;
      }
      var flag := plain.value[0];
      if flag != 0 && flag != 1 {
        return Failed;
      }
      size := size + |plain.value| - 1;
      if size > MAX_FRAME {
        return Failed;
      }
      partial := partial + [plain.value[1..]];
      if flag == 0 {
        return Pending;
      }
      o := Frame(Concat(partial));
      partial := [];
      size := 0;
    }
  }
}
