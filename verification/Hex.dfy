/** Bytes, and the lower-case hex text both the relay and the CLI write them as. */
module Hex {

  newtype byte = b: int | 0 <= b < 256

  type Bytes = seq<byte>

  datatype Option<+T> = None | Some(value: T)

  function Digit(n: int): char
    requires 0 <= n < 16
  {
    "0123456789abcdef"[n]
  }

  /** The value of a hex digit of either case; None for any other character. */
  function DigitValue(c: char): (r: Option<int>)
    ensures r.Some? ==> 0 <= r.value < 16
  {
    if '0' <= c <= '9' then Some(c as int - '0' as int)
    else if 'a' <= c <= 'f' then Some(c as int - 'a' as int + 10)
    else if 'A' <= c <= 'F' then Some(c as int - 'A' as int + 10)
    else None
  }

  function ToHex(bytes: Bytes): string
  {
    if bytes == [] then ""
    else [Digit(bytes[0] as int / 16), Digit(bytes[0] as int % 16)] + ToHex(bytes[1..])
  }

  /** What `parseInt(pair, 16)` stored into a byte gives: it stops at the first
      character that is no digit, and no digit at all is stored as 0. */
  function ParsePair(c: char, d: char): byte
  {
    match (DigitValue(c), DigitValue(d))
    case (Some(hi), Some(lo)) => (16 * hi + lo) as byte
    case (Some(hi), None) => hi as byte
    case (None, _) => 0
  }

  /** Pairs of characters as bytes; an odd last character is left out. */
  function FromHex(hex: string): Bytes
  {
    if |hex| < 2 then []
    else [ParsePair(hex[0], hex[1])] + FromHex(hex[2..])
  }

  lemma DigitRoundTrip(n: int)
    requires 0 <= n < 16
    ensures DigitValue(Digit(n)) == Some(n)
  {
  }

  /** An id survives being kept as hex: the bytes come back unchanged. */
  lemma {:induction false} HexRoundTrip(bytes: Bytes)
    ensures FromHex(ToHex(bytes)) == bytes
    ensures |ToHex(bytes)| == 2 * |bytes|
  {
    if bytes != [] {
      var hi, lo := bytes[0] as int / 16, bytes[0] as int % 16;
      DigitRoundTrip(hi);
      DigitRoundTrip(lo);
      assert ToHex(bytes)[2..] == ToHex(bytes[1..]);
      HexRoundTrip(bytes[1..]);
    }
  }

  /** Every character of the hex form is a digit, so it carries no quote, space or newline. */
  lemma {:induction false} HexIsDigits(bytes: Bytes)
    ensures forall c :: c in ToHex(bytes) ==> '0' <= c <= '9' || 'a' <= c <= 'f'
  {
    if bytes != [] {
      HexIsDigits(bytes[1..]);
    }
  }
}
