/** The command lines sent to the app's socket and how the server takes them apart
    (cli/src/statussock.rs). */
module SocketLine {
  import opened Hex
  import Utf8

  // ---- quoting ---------------------------------------------------------------------------------

  /** The text with every single quote as a closed span, the quote in double quotes, and a
      span opened again. */
  function Escaped(s: string): string
  {
    if s == "" then ""
    else (if s[0] == '\'' then "'\"'\"'" else [s[0]]) + Escaped(s[1..])
  }

  function QuoteArg(s: string): string { "'" + Escaped(s) + "'" }

  predicate OneLine(s: string) { '\n' !in s && '\r' !in s }

  datatype Checked = Fine(quoted: string) | Refused

  function CheckedArg(s: string): Checked { if OneLine(s) then Fine(QuoteArg(s)) else Refused }

  function Flattened(s: string): string
  {
    if s == "" then "" else [if s[0] == '\n' || s[0] == '\r' then ' ' else s[0]] + Flattened(s[1..])
  }

  function LegacyText(s: string): string { QuoteArg(Flattened(s)) }

  function HexEncode(text: string): string { ToHex(Utf8.Encode(text)) }

  function HexOpt(name: string, value: string): string { "--" + name + "-hex=" + HexEncode(value) }

  function TextOpt(name: string, value: string): string
  {
    " " + ("--" + name + "=" + LegacyText(value)) + " " + HexOpt(name, value)
  }

  // ---- the server's side ----------------------------------------------------------------------------

  datatype Scan = Scan(parts: seq<string>, current: string, inSingle: bool, inDouble: bool)

  function Take(st: Scan, c: char): Scan
  {
    if c == '\'' && !st.inDouble then st.(inSingle := !st.inSingle)
    else if c == '"' && !st.inSingle then st.(inDouble := !st.inDouble)
    else if c == ' ' && !st.inSingle && !st.inDouble then
      if st.current != "" then st.(parts := st.parts + [st.current], current := "") else st
    else st.(current := st.current + [c])
  }

  function TakeAll(st: Scan, s: string): Scan
    decreases |s|
  {
    if s == "" then st else TakeAll(Take(st, s[0]), s[1..])
  }

  function Split(s: string): seq<string>
  {
    var st := TakeAll(Scan([], "", false, false), s);
    if st.current != "" then st.parts + [st.current] else st.parts
  }

  lemma {:induction false} TakeAllConcat(st: Scan, a: string, b: string)
    ensures TakeAll(st, a + b) == TakeAll(TakeAll(st, a), b)
    decreases |a|
  {
    if a == "" {
      assert a + b == b;
    } else {
      assert (a + b)[1..] == a[1..] + b;
      TakeAllConcat(Take(st, a[0]), a[1..], b);
    }
  }

  /** `shell_split`. */
  method ShellSplit(s: string) returns (parts: seq<string>)
    ensures parts == Split(s)
  {
    parts := [];
    var current := "";
    var inSingle, inDouble := false, false;
    var i := 0;
    while i < |s|
      invariant 0 <= i <= |s|
      invariant TakeAll(Scan(parts, current, inSingle, inDouble), s[i..]) == TakeAll(Scan([], "", false, false), s)
    {
      var c := s[i];
      assert s[i..][1..] == s[i + 1..];
      if c == '\'' && !inDouble {
        inSingle := !inSingle;
      } else if c == '"' && !inSingle {
        inDouble := !inDouble;
      } else if c == ' ' && !inSingle && !inDouble {
        if current != "" {
          parts := parts + [current];
          current := "";
        }
      } else {
        current := current + [c];
      }
      i := i + 1;
    }
    if current != "" {
      parts := parts + [current];
    }
  }

  // ---- what survives ------------------------------------------------------------------------------------

  lemma {:induction false} EscapedAddsText(st: Scan, s: string)
    requires st.inSingle && !st.inDouble
    ensures TakeAll(st, Escaped(s)) == st.(current := st.current + s)
    decreases |s|
  {
    if s == "" {
      assert st.current + "" == st.current;
    } else {
      var head := if s[0] == '\'' then "'\"'\"'" else [s[0]];
      HeadAddsChar(st, s[0]);
      TakeAllConcat(st, head, Escaped(s[1..]));
      EscapedAddsText(st.(current := st.current + [s[0]]), s[1..]);
      assert st.current + [s[0]] + s[1..] == st.current + s;
    }
  }

  lemma OneChar(st: Scan, c: char)
    ensures TakeAll(st, [c]) == Take(st, c)
  {
    assert [c][1..] == "";
  }

  lemma HeadAddsChar(st: Scan, c: char)
    requires st.inSingle && !st.inDouble
    ensures TakeAll(st, if c == '\'' then "'\"'\"'" else [c]) == st.(current := st.current + [c])
  {
    if c == '\'' {
      var text := "'\"'\"'";
      assert text == ['\''] + (['"'] + (['\''] + (['"'] + ['\''])));
      TakeAllConcat(st, ['\''], ['"'] + (['\''] + (['"'] + ['\''])));
      var a := Take(st, '\'');
      TakeAllConcat(a, ['"'], ['\''] + (['"'] + ['\'']));
      var b := Take(a, '"');
      TakeAllConcat(b, ['\''], ['"'] + ['\'']);
      TakeAllConcat(Take(b, '\''), ['"'], ['\'']);
      OneChar(st, '\'');
      OneChar(a, '"');
      OneChar(b, '\'');
      OneChar(Take(b, '\''), '"');
      OneChar(Take(Take(b, '\''), '"'), '\'');
    } else {
      OneChar(st, c);
    }
  }

  /** A quoted text adds itself, unchanged, to the word it stands in. */
  lemma QuoteAddsText(st: Scan, s: string)
    requires !st.inSingle && !st.inDouble
    ensures TakeAll(st, QuoteArg(s)) == st.(current := st.current + s)
  {
    var inside := st.(inSingle := true);
    TakeAllConcat(st, "'" + Escaped(s), "'");
    TakeAllConcat(st, "'", Escaped(s));
    assert "'"[1..] == "";
    assert TakeAll(st, "'") == inside;
    EscapedAddsText(inside, s);
  }

  /** A word is put together from plain parts, as in `--name=`, quoted ones, and ones a user
      wrote in double quotes. */
  datatype Piece = Plain(text: string) | Quoted(text: string) | Doubled(text: string)

  predicate Unquoted(s: string) { '\'' !in s && '"' !in s && ' ' !in s }

  predicate Good(piece: Piece)
  {
    (piece.Plain? ==> Unquoted(piece.text)) && (piece.Doubled? ==> '"' !in piece.text)
  }

  function RenderedPiece(piece: Piece): string
  {
    match piece
    case Plain(text) => text
    case Quoted(text) => QuoteArg(text)
    case Doubled(text) => "\"" + text + "\""
  }

  function Rendered(word: seq<Piece>): string
  {
    if word == [] then "" else RenderedPiece(word[0]) + Rendered(word[1..])
  }

  function Text(word: seq<Piece>): string
  {
    if word == [] then "" else word[0].text + Text(word[1..])
  }

  predicate GoodWord(word: seq<Piece>) { forall i :: 0 <= i < |word| ==> Good(word[i]) }

  predicate GoodWords(words: seq<seq<Piece>>) { forall i :: 0 <= i < |words| ==> GoodWord(words[i]) }

  /** The words of a line, one space between them. */
  function Line(words: seq<seq<Piece>>): string
  {
    if words == [] then ""
    else if |words| == 1 then Rendered(words[0])
    else Line(words[..|words| - 1]) + " " + Rendered(words[|words| - 1])
  }

  function Texts(words: seq<seq<Piece>>): seq<string>
  {
    if words == [] then [] else Texts(words[..|words| - 1]) + [Text(words[|words| - 1])]
  }

  function NonEmpty(texts: seq<string>): seq<string>
  {
    if texts == [] then []
    else NonEmpty(texts[..|texts| - 1]) + if texts[|texts| - 1] != "" then [texts[|texts| - 1]] else []
  }

  lemma {:induction false} PlainAddsText(st: Scan, s: string)
    requires !st.inSingle && !st.inDouble && Unquoted(s)
    ensures TakeAll(st, s) == st.(current := st.current + s)
    decreases |s|
  {
    if s == "" {
      assert st.current + "" == st.current;
    } else {
      assert s[0] in s;
      PlainAddsText(st.(current := st.current + [s[0]]), s[1..]);
      assert st.current + [s[0]] + s[1..] == st.current + s;
    }
  }

  /** Inside an open quote every character but that quote is the word's. */
  lemma {:induction false} InsideAddsText(st: Scan, q: char, s: string)
    requires (q == '\'' && st.inSingle && !st.inDouble) || (q == '"' && st.inDouble && !st.inSingle)
    requires q !in s
    ensures TakeAll(st, s) == st.(current := st.current + s)
    decreases |s|
  {
    if s == "" {
      assert st.current + "" == st.current;
    } else {
      assert s[0] in s;
      InsideAddsText(st.(current := st.current + [s[0]]), q, s[1..]);
      assert st.current + [s[0]] + s[1..] == st.current + s;
    }
  }

  lemma DoubledAddsText(st: Scan, s: string)
    requires !st.inSingle && !st.inDouble && '"' !in s
    ensures TakeAll(st, "\"" + s + "\"") == st.(current := st.current + s)
  {
    var inside := st.(inDouble := true);
    TakeAllConcat(st, "\"" + s, "\"");
    TakeAllConcat(st, "\"", s);
    OneChar(st, '"');
    InsideAddsText(inside, '"', s);
    OneChar(inside.(current := inside.current + s), '"');
  }

  lemma PieceAddsText(st: Scan, piece: Piece)
    requires !st.inSingle && !st.inDouble && Good(piece)
    ensures TakeAll(st, RenderedPiece(piece)) == st.(current := st.current + piece.text)
  {
    match piece
    case Plain(text) => PlainAddsText(st, text);
    case Quoted(text) => QuoteAddsText(st, text);
    case Doubled(text) => DoubledAddsText(st, text);
  }

  function Adding(st: Scan, s: string): Scan { st.(current := st.current + s) }

  lemma AddingTwice(st: Scan, a: string, b: string)
    ensures Adding(Adding(st, a), b) == Adding(st, a + b)
  {
    assert st.current + a + b == st.current + (a + b);
  }

  lemma {:induction false} WordAddsText(st: Scan, word: seq<Piece>)
    requires !st.inSingle && !st.inDouble && GoodWord(word)
    ensures TakeAll(st, Rendered(word)) == Adding(st, Text(word))
    decreases |word|
  {
    if word == [] {
      assert st.current + "" == st.current;
    } else {
      TakeAllConcat(st, RenderedPiece(word[0]), Rendered(word[1..]));
      PieceAddsText(st, word[0]);
      WordAddsText(Adding(st, word[0].text), word[1..]);
      AddingTwice(st, word[0].text, Text(word[1..]));
    }
  }

  lemma LineAppend(words: seq<seq<Piece>>, word: seq<Piece>)
    requires words != []
    ensures Line(words + [word]) == Line(words) + " " + Rendered(word)
    ensures Texts(words + [word]) == Texts(words) + [Text(word)]
  {
    assert (words + [word])[..|words|] == words;
  }

  lemma NonEmptyAppend(texts: seq<string>, t: string)
    ensures NonEmpty(texts + [t]) == NonEmpty(texts) + if t != "" then [t] else []
  {
    assert (texts + [t])[..|texts|] == texts;
  }

  /** A space ends a word, and the next one starts. */
  lemma NextWord(st: Scan, word: seq<Piece>)
    requires !st.inSingle && !st.inDouble && GoodWord(word)
    ensures TakeAll(st, " " + Rendered(word))
         == Scan(st.parts + (if st.current != "" then [st.current] else []), Text(word), false, false)
  {
    var next := Scan(st.parts + (if st.current != "" then [st.current] else []), "", false, false);
    TakeAllConcat(st, " ", Rendered(word));
    OneChar(st, ' ');
    assert Take(st, ' ').parts == next.parts;
    WordAddsText(next, word);
    assert "" + Text(word) == Text(word);
  }

  lemma Regroup<T>(a: seq<T>, b: seq<T>, c: seq<T>)
    ensures a + b + c == a + (b + c)
  {
  }

  const FRESH := Scan([], "", false, false)

  /** The scan at the end of a line: all words but the last are parts already. */
  function Scanned(words: seq<seq<Piece>>): Scan
    requires words != []
  {
    Scan(NonEmpty(Texts(words[..|words| - 1])), Text(words[|words| - 1]), false, false)
  }

  lemma ScannedGrows(words: seq<seq<Piece>>, last: seq<Piece>)
    requires words != [] && GoodWord(last) && TakeAll(FRESH, Line(words)) == Scanned(words)
    ensures TakeAll(FRESH, Line(words + [last])) == Scanned(words + [last])
  {
    var line, more := Line(words), " " + Rendered(last);
    LineAppend(words, last);
    Regroup(line, " ", Rendered(last));
    TakeAllConcat(FRESH, line, more);
    NextWord(Scanned(words), last);
    PartsGrow(words, last);
  }

  lemma PartsGrow(words: seq<seq<Piece>>, last: seq<Piece>)
    requires words != []
    ensures var st := Scanned(words);
      Scanned(words + [last])
        == Scan(st.parts + (if st.current != "" then [st.current] else []), Text(last), false, false)
  {
    var init, w := words[..|words| - 1], words[|words| - 1];
    assert words == init + [w];
    assert (words + [last])[..|words|] == words;
    assert Texts(words) == Texts(init) + [Text(w)];
    NonEmptyAppend(Texts(init), Text(w));
  }

  lemma {:induction false} LineScans(words: seq<seq<Piece>>)
    requires words != [] && GoodWords(words)
    ensures TakeAll(FRESH, Line(words)) == Scanned(words)
  {
    var last := words[|words| - 1];
    var before := words[..|words| - 1];
    if |words| == 1 {
      assert before == [];
      WordAddsText(FRESH, last);
      assert "" + Text(last) == Text(last);
    } else {
      LineScans(before);
      assert words == before + [last];
      ScannedGrows(before, last);
    }
  }

  /** The server gets every word of a line as it was meant, but for those that are empty. */
  lemma LineSplits(words: seq<seq<Piece>>)
    requires GoodWords(words)
    ensures Split(Line(words)) == NonEmpty(Texts(words))
  {
    if words != [] {
      LineScans(words);
    }
  }

  /** A quote that is never closed runs to the end of the line. */
  lemma OpenQuoteRuns(words: seq<seq<Piece>>, q: char, rest: string)
    requires words != [] && GoodWords(words) && (q == '\'' || q == '"') && q !in rest
    ensures Split(Line(words) + (" " + ([q] + rest))) == Split(Line(words)) + if rest != "" then [rest] else []
  {
    var st := Scanned(words);
    LineScans(words);
    LineSplits(words);
    TakeAllConcat(FRESH, Line(words), " " + ([q] + rest));
    TakeAllConcat(st, " ", [q] + rest);
    OneChar(st, ' ');
    var next := Take(st, ' ');
    TakeAllConcat(next, [q], rest);
    OneChar(next, q);
    InsideAddsText(Take(next, q), q, rest);
    assert "" + rest == rest;
  }

  function QuotedWords(args: seq<string>): seq<seq<Piece>>
  {
    seq(|args|, i requires 0 <= i < |args| => [Quoted(args[i])])
  }

  lemma {:induction false} QuotedTexts(args: seq<string>)
    ensures Texts(QuotedWords(args)) == args
  {
    if args != [] {
      var n := |args| - 1;
      assert QuotedWords(args)[..n] == QuotedWords(args[..n]);
      QuotedTexts(args[..n]);
      assert Text([Quoted(args[n])]) == args[n] + Text([]) == args[n];
      assert args == args[..n] + [args[n]];
    }
  }

  lemma {:induction false} NonEmptyKeepsAll(texts: seq<string>)
    ensures |NonEmpty(texts)| <= |texts|
    ensures NonEmpty(texts) == texts <==> "" !in texts
  {
    if texts != [] {
      var n := |texts| - 1;
      NonEmptyKeepsAll(texts[..n]);
      assert texts == texts[..n] + [texts[n]];
      if "" !in texts {
        assert "" !in texts[..n];
      } else if texts[n] != "" {
        assert NonEmpty(texts)[..|NonEmpty(texts[..n])|] == NonEmpty(texts[..n]);
      }
    }
  }

  /** Quoted arguments come back exactly when none is empty: an empty one is lost. */
  lemma QuotedArgsSurvive(args: seq<string>)
    ensures Split(Line(QuotedWords(args))) == NonEmpty(args)
    ensures Split(Line(QuotedWords(args))) == args <==> "" !in args
  {
    LineSplits(QuotedWords(args));
    QuotedTexts(args);
    NonEmptyKeepsAll(args);
  }

  // ---- one line ---------------------------------------------------------------------------------------------

  lemma {:induction false} EscapedOneLine(s: string)
    ensures OneLine(Escaped(s)) <==> OneLine(s)
  {
    if s != "" {
      EscapedOneLine(s[1..]);
      assert s == [s[0]] + s[1..];
    }
  }

  /** An identifier is refused exactly when it would end the line, and otherwise arrives as it
      is, unless it is empty. */
  lemma CheckedArgIsOneWord(s: string)
    ensures CheckedArg(s).Fine? <==> OneLine(QuoteArg(s))
    ensures CheckedArg(s).Fine? ==> Split(CheckedArg(s).quoted) == if s == "" then [] else [s]
  {
    QuotedIsOneLine(s);
    QuoteAddsText(Scan([], "", false, false), s);
    assert "" + s == s;
  }

  lemma {:induction false} FlattenedText(s: string)
    ensures OneLine(Flattened(s)) && |Flattened(s)| == |s|
    ensures forall i :: 0 <= i < |s| ==> Flattened(s)[i] == if s[i] == '\n' || s[i] == '\r' then ' ' else s[i]
    ensures OneLine(s) ==> Flattened(s) == s
  {
    if s != "" {
      FlattenedText(s[1..]);
      assert s == [s[0]] + s[1..];
    }
  }

  // ---- text options -------------------------------------------------------------------------------------------

  /** The server's `u8::from_str_radix(pair, 16)`: it also takes a plus sign. */
  function PairValue(c: byte, d: byte): Option<byte>
  {
    match (DigitValue(c as char), DigitValue(d as char))
    case (Some(hi), Some(lo)) => Some((16 * hi + lo) as byte)
    case (None, Some(lo)) => if c as char == '+' then Some(lo as byte) else None
    case (_, None) => None
  }

  function PairValues(bytes: Bytes): Option<Bytes>
    requires |bytes| % 2 == 0
  {
    if bytes == [] then Some([])
    else match (PairValue(bytes[0], bytes[1]), PairValues(bytes[2..]))
      case (Some(b), Some(rest)) => Some([b] + rest)
      case _ => None
  }

  function PairsOf(bytes: Bytes): Option<Bytes> { if |bytes| % 2 != 0 then None else PairValues(bytes) }

  function HexDecode(value: string): Option<string>
  {
    match PairsOf(Utf8.Encode(value))
    case Some(bytes) => Utf8.Decode(bytes)
    case None => None
  }

  /** A hex digit of either case. */
  predicate IsDigit(c: byte, n: int)
  {
    0 <= n < 16 && (c as char == "0123456789abcdef"[n] || c as char == "0123456789ABCDEF"[n])
  }

  lemma DigitIs(c: byte, n: int)
    ensures DigitValue(c as char) == Some(n) <==> IsDigit(c, n)
  {
    if 0 <= n < 16 {
      assert "0123456789abcdef"[n] == (if n < 10 then '0' + n as char else 'a' + (n - 10) as char);
      assert "0123456789ABCDEF"[n] == (if n < 10 then '0' + n as char else 'A' + (n - 10) as char);
    }
  }

  /** What the server takes a pair for: two digits, or a plus sign and one. */
  lemma PairIs(c: byte, d: byte, v: byte)
    ensures PairValue(c, d) == Some(v) <==>
              || (exists hi, lo :: IsDigit(c, hi) && IsDigit(d, lo) && v as int == 16 * hi + lo)
              || (c as char == '+' && IsDigit(d, v as int))
  {
    forall n
      ensures DigitValue(c as char) == Some(n) <==> IsDigit(c, n)
      ensures DigitValue(d as char) == Some(n) <==> IsDigit(d, n)
    {
      DigitIs(c, n);
      DigitIs(d, n);
    }
  }

  lemma PairRoundTrip(b: byte)
    ensures PairValue(Digit(b as int / 16) as byte, Digit(b as int % 16) as byte) == Some(b)
  {
    DigitRoundTrip(b as int / 16);
    DigitRoundTrip(b as int % 16);
  }

  lemma EncodeDigits(c: char, d: char, rest: string)
    requires c < 128 as char && d < 128 as char
    ensures Utf8.Encode([c, d] + rest) == [c as byte, d as byte] + Utf8.Encode(rest)
  {
    assert ([c, d] + rest)[1..] == [d] + rest && ([d] + rest)[1..] == rest;
    assert Utf8.EncodeChar(c) == [c as byte] && Utf8.EncodeChar(d) == [d as byte];
  }

  lemma PairsCons(c: byte, d: byte, b: byte, rest: Bytes, bytes: Bytes)
    requires PairValue(c, d) == Some(b) && PairsOf(rest) == Some(bytes)
    ensures PairsOf([c, d] + rest) == Some([b] + bytes)
  {
    assert ([c, d] + rest)[2..] == rest;
  }

  lemma {:induction false} HexPairs(bytes: Bytes)
    ensures PairsOf(Utf8.Encode(ToHex(bytes))) == Some(bytes)
  {
    if bytes != [] {
      var c, d := Digit(bytes[0] as int / 16), Digit(bytes[0] as int % 16);
      PairRoundTrip(bytes[0]);
      EncodeDigits(c, d, ToHex(bytes[1..]));
      HexPairs(bytes[1..]);
      PairsCons(c as byte, d as byte, bytes[0], Utf8.Encode(ToHex(bytes[1..])), bytes[1..]);
      assert [bytes[0]] + bytes[1..] == bytes;
    }
  }

  /** The hex twin carries any text at all. */
  lemma HexTextRoundTrip(text: string)
    ensures HexDecode(HexEncode(text)) == Some(text)
  {
    HexPairs(Utf8.Encode(text));
    Utf8.TextRoundTrip(text);
  }

  predicate GoodName(name: string) { OneLine(name) && Good(Plain(name)) }

  lemma HexIsPlain(text: string)
    ensures Good(Plain(HexEncode(text))) && OneLine(HexEncode(text))
  {
    HexIsDigits(Utf8.Encode(text));
  }

  function OptWords(name: string, value: string): seq<seq<Piece>>
  {
    [[Plain("--" + name + "="), Quoted(Flattened(value))], [Plain(HexOpt(name, value))]]
  }

  lemma SmallWords(p: Piece, q: Piece)
    ensures Rendered([p]) == RenderedPiece(p) && Text([p]) == p.text
    ensures Rendered([p, q]) == RenderedPiece(p) + RenderedPiece(q) && Text([p, q]) == p.text + q.text
  {
    assert [p, q][1..] == [q] && [q][1..] == [] && [p][1..] == [];
  }

  lemma OptIsTwoWords(words: seq<seq<Piece>>, name: string, value: string)
    requires words != []
    ensures Line(words) + TextOpt(name, value) == Line(words + OptWords(name, value))
    ensures Texts(words + OptWords(name, value))
         == Texts(words) + ["--" + name + "=" + Flattened(value)] + [HexOpt(name, value)]
  {
    var opt, hex := OptWords(name, value)[0], OptWords(name, value)[1];
    SmallWords(opt[0], opt[1]);
    SmallWords(hex[0], hex[0]);
    TwoMoreWords(words, opt, hex);
    assert OptWords(name, value) == [opt, hex];
  }

  lemma TwoMoreWords(words: seq<seq<Piece>>, v: seq<Piece>, w: seq<Piece>)
    requires words != []
    ensures Line(words + [v, w]) == Line(words) + (" " + Rendered(v) + " " + Rendered(w))
    ensures Texts(words + [v, w]) == Texts(words) + [Text(v)] + [Text(w)]
  {
    LineAppend(words, v);
    Regroup(words, [v], [w]);
    LineAppend(words + [v], w);
    assert [v, w] == [v] + [w];
    Regroup(Line(words), " " + Rendered(v), " " + Rendered(w));
    Regroup(" " + Rendered(v), " ", Rendered(w));
    Regroup(Line(words), " ", Rendered(v));
    Regroup(Line(words) + (" " + Rendered(v)), " ", Rendered(w));
  }

  lemma OneLineConcat(a: string, b: string)
    ensures OneLine(a + b) <==> OneLine(a) && OneLine(b)
  {
  }

  lemma QuotedIsOneLine(s: string)
    ensures OneLine(QuoteArg(s)) <==> OneLine(s)
  {
    EscapedOneLine(s);
    OneLineConcat("'" + Escaped(s), "'");
    OneLineConcat("'", Escaped(s));
  }

  lemma TextOptIsOneLine(name: string, value: string)
    requires OneLine(name)
    ensures OneLine(TextOpt(name, value))
  {
    HexIsPlain(value);
    FlattenedText(value);
    QuotedIsOneLine(Flattened(value));
    var plain, hex := "--" + name + "=" + LegacyText(value), HexOpt(name, value);
    OneLineConcat("--", name);
    OneLineConcat("--" + name, "=");
    OneLineConcat("--" + name + "=", LegacyText(value));
    OneLineConcat("--" + name, "-hex=");
    OneLineConcat("--" + name + "-hex=", HexEncode(value));
    OneLineConcat(" ", plain);
    OneLineConcat(" " + plain, " ");
    OneLineConcat(" " + plain + " ", hex);
  }

  lemma OptWordsAreGood(name: string, value: string)
    requires GoodName(name)
    ensures GoodWords(OptWords(name, value))
  {
    HexIsPlain(value);
  }

  /** The text with a space for every line break. */
  predicate IsFlat(flat: string, text: string)
  {
    && |flat| == |text|
    && forall i :: 0 <= i < |text| ==> flat[i] == if text[i] == '\n' || text[i] == '\r' then ' ' else text[i]
  }

  /** A text option after any line adds exactly two words and no line break: the plain copy, its
      line breaks as spaces, and the hex twin, from which the text comes back whole. */
  lemma TextOptArrives(words: seq<seq<Piece>>, name: string, value: string)
    requires words != [] && GoodWords(words) && GoodName(name)
    ensures exists flat, hex ::
              && IsFlat(flat, value) && HexDecode(hex) == Some(value)
              && Split(Line(words) + TextOpt(name, value))
                   == Split(Line(words)) + ["--" + name + "=" + flat] + ["--" + name + "-hex=" + hex]
    ensures OneLine(TextOpt(name, value))
  {
    OptIsTwoWords(words, name, value);
    LineSplits(words);
    OptWordsAreGood(name, value);
    LineSplits(words + OptWords(name, value));
    var a, b := "--" + name + "=" + Flattened(value), HexOpt(name, value);
    NonEmptyAppend(Texts(words) + [a], b);
    NonEmptyAppend(Texts(words), a);
    HexTextRoundTrip(value);
    TextOptIsOneLine(name, value);
    FlattenedText(value);
    assert IsFlat(Flattened(value), value) && HexDecode(HexEncode(value)) == Some(value);
  }
}
