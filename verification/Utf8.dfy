/** Text as UTF-8 bytes, and back: the decoder takes only what the encoder writes. */
module Utf8 {
  import opened Hex

  function Tail(n: int): byte { (0x80 + n % 64) as byte }

  function EncodeChar(c: char): (r: Bytes)
    ensures 1 <= |r| <= 4
  {
    var n := c as int;
    if n < 0x80 then [n as byte]
    else if n < 0x800 then [(0xC0 + n / 64) as byte, Tail(n)]
    else if n < 0x10000 then [(0xE0 + n / 4096) as byte, Tail(n / 64), Tail(n)]
    else [(0xF0 + n / 262144) as byte, Tail(n / 4096), Tail(n / 64), Tail(n)]
  }

  function Encode(text: string): Bytes
  {
    if text == "" then [] else EncodeChar(text[0]) + Encode(text[1..])
  }

  predicate IsTail(b: byte) { 0x80 <= b < 0xC0 }

  function TailBits(b: byte): int { b as int - 0x80 }

  /** The number the first bytes stand for and how many they are. */
  function FirstNumber(bytes: Bytes): (r: Option<(int, nat)>)
    requires bytes != []
    ensures r.Some? ==> 1 <= r.value.1 <= |bytes| && r.value.1 <= 4
  {
    var b := bytes[0] as int;
    if b < 0x80 then Some((b, 1))
    else if b < 0xC0 || |bytes| < 2 || !IsTail(bytes[1]) then None
    else if b < 0xE0 then Some(((b - 0xC0) * 64 + TailBits(bytes[1]), 2))
    else if |bytes| < 3 || !IsTail(bytes[2]) then None
    else if b < 0xF0 then Some(((b - 0xE0) * 4096 + TailBits(bytes[1]) * 64 + TailBits(bytes[2]), 3))
    else if |bytes| < 4 || !IsTail(bytes[3]) || b >= 0xF8 then None
    else
      Some(((b - 0xF0) * 262144 + TailBits(bytes[1]) * 4096 + TailBits(bytes[2]) * 64 + TailBits(bytes[3]), 4))
  }

  /** The least number that needs so many bytes. */
  function Least(size: nat): int
  {
    if size == 1 then 0 else if size == 2 then 0x80 else if size == 3 then 0x800 else 0x10000
  }

  /** The first character of the bytes and how many it took: no surrogate, nothing past the
      last code point and nothing written longer than it has to be. */
  function DecodeFirst(bytes: Bytes): (r: Option<(char, nat)>)
    requires bytes != []
    ensures r.Some? ==> 1 <= r.value.1 <= |bytes| && r.value.1 <= 4
  {
    match FirstNumber(bytes)
    case None => None
    case Some((n, size)) =>
      if n < Least(size) || 0xD800 <= n < 0xE000 || n >= 0x110000 then None else Some((n as char, size))
  }

  function Decode(bytes: Bytes): Option<string>
    decreases |bytes|
  {
    if bytes == [] then Some("")
    else match DecodeFirst(bytes)
      case None => None
      case Some((c, size)) =>
        match Decode(bytes[size..])
        case None => None
        case Some(rest) => Some([c] + rest)
  }

  lemma CharRoundTrip(c: char, rest: Bytes)
    ensures DecodeFirst(EncodeChar(c) + rest) == Some((c, |EncodeChar(c)|))
  {
    var n := c as int;
    var bytes := EncodeChar(c);
    var all := bytes + rest;
    assert forall i :: 0 <= i < |bytes| ==> all[i] == bytes[i];
    if n < 0x80 {
    } else if n < 0x800 {
      assert TailBits(Tail(n)) == n % 64;
    } else if n < 0x10000 {
      assert n / 64 / 64 == n / 4096;
      assert TailBits(Tail(n)) == n % 64 && TailBits(Tail(n / 64)) == n / 64 % 64;
    } else {
      assert n / 64 / 64 == n / 4096 && n / 4096 / 64 == n / 262144;
      assert TailBits(Tail(n)) == n % 64 && TailBits(Tail(n / 64)) == n / 64 % 64;
      assert TailBits(Tail(n / 4096)) == n / 4096 % 64;
    }
    assert FirstNumber(all) == Some((n, |bytes|));
  }

  /** A number put together from its parts comes apart into them. */
  lemma Parts(hi: int, lo: int)
    requires 0 <= hi && 0 <= lo < 64
    ensures (hi * 64 + lo) / 64 == hi && (hi * 64 + lo) % 64 == lo
  {
  }

  lemma TailOf(n: int, b: byte)
    requires IsTail(b) && 0 <= n && n % 64 == TailBits(b)
    ensures Tail(n) == b
  {
  }

  lemma TwoCanonical(bytes: Bytes, n: int)
    requires bytes != [] && FirstNumber(bytes) == Some((n, 2)) && 0x80 <= n < 0x800
    ensures EncodeChar(n as char) == bytes[..2]
  {
    Parts(bytes[0] as int - 0xC0, TailBits(bytes[1]));
    TailOf(n, bytes[1]);
  }

  lemma ThreeCanonical(bytes: Bytes, n: int)
    requires bytes != [] && FirstNumber(bytes) == Some((n, 3)) && 0x800 <= n < 0x10000 && !(0xD800 <= n < 0xE000)
    ensures EncodeChar(n as char) == bytes[..3]
  {
    var hi := bytes[0] as int - 0xE0;
    var m := hi * 64 + TailBits(bytes[1]);
    assert n == m * 64 + TailBits(bytes[2]);
    Parts(hi, TailBits(bytes[1]));
    Parts(m, TailBits(bytes[2]));
    TailOf(n, bytes[2]);
    TailOf(m, bytes[1]);
  }

  lemma FourCanonical(bytes: Bytes, n: int)
    requires bytes != [] && FirstNumber(bytes) == Some((n, 4)) && 0x10000 <= n < 0x110000
    ensures EncodeChar(n as char) == bytes[..4]
  {
    var hi := bytes[0] as int - 0xF0;
    var k := hi * 64 + TailBits(bytes[1]);
    var m := k * 64 + TailBits(bytes[2]);
    assert n == m * 64 + TailBits(bytes[3]);
    Parts(hi, TailBits(bytes[1]));
    Parts(k, TailBits(bytes[2]));
    Parts(m, TailBits(bytes[3]));
    TailOf(n, bytes[3]);
    TailOf(m, bytes[2]);
    TailOf(k, bytes[1]);
  }

  lemma CharCanonical(bytes: Bytes)
    requires bytes != [] && DecodeFirst(bytes).Some?
    ensures EncodeChar(DecodeFirst(bytes).value.0) == bytes[..DecodeFirst(bytes).value.1]
  {
    var (n, size) := FirstNumber(bytes).value;
    if size == 1 {
      assert bytes[..1] == [n as byte];
    } else if size == 2 {
      assert bytes[0] < 0xE0;
      TwoCanonical(bytes, n);
    } else if size == 3 {
      assert bytes[0] < 0xF0;
      ThreeCanonical(bytes, n);
    } else {
      FourCanonical(bytes, n);
    }
  }

  /** Every text comes back from its bytes. */
  lemma {:induction false} TextRoundTrip(text: string)
    ensures Decode(Encode(text)) == Some(text)
  {
    if text != "" {
      var rest := Encode(text[1..]);
      CharRoundTrip(text[0], rest);
      assert (EncodeChar(text[0]) + rest)[|EncodeChar(text[0])|..] == rest;
      TextRoundTrip(text[1..]);
      assert text == [text[0]] + text[1..];
    }
  }

  lemma EncodeCons(bytes: Bytes, c: char, size: nat, rest: string)
    requires size <= |bytes| && EncodeChar(c) == bytes[..size] && Encode(rest) == bytes[size..]
    ensures Encode([c] + rest) == bytes
  {
    assert ([c] + rest)[1..] == rest;
    assert bytes == bytes[..size] + bytes[size..];
  }

  /** And bytes that decode are the bytes of the text they decode to. */
  lemma {:induction false} BytesRoundTrip(bytes: Bytes)
    ensures Decode(bytes).Some? ==> Encode(Decode(bytes).value) == bytes
    decreases |bytes|
  {
    if bytes != [] {
      var first := DecodeFirst(bytes);
      if first.Some? {
        var (c, size) := first.value;
        var rest := Decode(bytes[size..]);
        BytesRoundTrip(bytes[size..]);
        if rest.Some? {
          CharCanonical(bytes);
          EncodeCons(bytes, c, size, rest.value);
        }
      }
    }
  }
}
