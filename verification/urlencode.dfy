/**
 * The textual layer the client relies on when it builds a query string:
 * `str()` of the values it passes, `urllib.parse.urlencode` with its default
 * `quote_plus` escaping, the UTF-8 encoding applied before escaping and
 * before signing, and the lowercase hexadecimal form of a digest.
 */
module UrlEncode {

  import opened Results

  type Byte = b: int | 0 <= b < 256

  /** A parameter value as the client passes it: text, or an integer
      (order ids, limits, receive windows and the timestamp). */
  datatype Value = Text(s: string) | Int(n: int)

  // ---------------------------------------------------------------------
  // Decimal text of an integer (Python's str(int))
  // ---------------------------------------------------------------------

  predicate IsDigit(c: char) { '0' <= c <= '9' }

  function DigitChar(d: int): (c: char)
    requires 0 <= d < 10
    ensures IsDigit(c) && c as int - '0' as int == d
  {
    ('0' as int + d) as char
  }

  /** The decimal digits of `n`, most significant first, without leading zeros. */
  function Digits(n: nat): (r: string)
    ensures |r| >= 1
    ensures forall i :: 0 <= i < |r| ==> IsDigit(r[i])
    ensures |r| > 1 ==> r[0] != '0'
    decreases n
  {
    if n < 10 then [DigitChar(n)] else Digits(n / 10) + [DigitChar(n % 10)]
  }

  /** The value of a string of decimal digits (the reading direction of Digits). */
  function DigitsValue(s: string): nat
    requires forall i :: 0 <= i < |s| ==> IsDigit(s[i])
  {
    if s == [] then 0
    else
      var last := s[|s| - 1];
      assert IsDigit(last);
      DigitsValue(s[..|s| - 1]) * 10 + (last as int - '0' as int)
  }

  lemma {:induction false} DigitsRoundTrip(n: nat)
    ensures DigitsValue(Digits(n)) == n
    decreases n
  {
    if n >= 10 {
      var d := Digits(n / 10);
      assert (d + [DigitChar(n % 10)])[..|d|] == d;
      DigitsRoundTrip(n / 10);
    }
  }

  /** Python's str() of an int: an optional minus sign and the digits. */
  function DecimalString(n: int): string
  {
    if n < 0 then "-" + Digits(-n) else Digits(n)
  }

  /** Reading a decimal string back gives the integer it was made from. */
  lemma DecimalStringRoundTrip(n: int)
    ensures var s := DecimalString(n);
      if n < 0 then s[0] == '-' && DigitsValue(s[1..]) == -n
      else IsDigit(s[0]) && DigitsValue(s) == n
  {
    if n < 0 {
      var d := Digits(-n);
      assert DecimalString(n) == ['-'] + d;
      assert (['-'] + d)[1..] == d;
      DigitsRoundTrip(-n);
    } else {
      DigitsRoundTrip(n);
    }
  }

  /** Python's str() of a parameter value; `None` is rendered as "None". */
  function Str(v: Option<Value>): string
  {
    match v
    case None => "None"
    case Some(Text(s)) => s
    case Some(Int(n)) => DecimalString(n)
  }

  // ---------------------------------------------------------------------
  // UTF-8 (str.encode("utf8"), and the encoding quote_plus applies)
  // ---------------------------------------------------------------------

  /** The UTF-8 bytes of one Unicode scalar value. */
  function Utf8(c: char): (r: seq<Byte>)
    ensures 1 <= |r| <= 4
    ensures |r| == 1 <==> c as int < 0x80
    ensures c as int < 0x80 ==> r == [c as int]
    ensures c as int >= 0x80 ==> forall i :: 0 <= i < |r| ==> r[i] >= 0x80
  {
    var cp := c as int;
    if cp < 0x80 then [cp]
    else if cp < 0x800 then [0xC0 + cp / 0x40, 0x80 + cp % 0x40]
    else if cp < 0x1_0000 then [0xE0 + cp / 0x1000, 0x80 + (cp / 0x40) % 0x40, 0x80 + cp % 0x40]
    else [0xF0 + cp / 0x4_0000, 0x80 + (cp / 0x1000) % 0x40, 0x80 + (cp / 0x40) % 0x40, 0x80 + cp % 0x40]
  }

  /** The code point that a well-formed one-character UTF-8 sequence stands for. */
  function Utf8Decode(bs: seq<Byte>): int
  {
    if |bs| == 0 || |bs| > 4 then 0
    else
      var b: seq<int> := bs;
      if |b| == 1 then b[0]
      else if |b| == 2 then (b[0] - 0xC0) * 0x40 + (b[1] - 0x80)
      else if |b| == 3 then ((b[0] - 0xE0) * 0x40 + (b[1] - 0x80)) * 0x40 + (b[2] - 0x80)
      else (((b[0] - 0xF0) * 0x40 + (b[1] - 0x80)) * 0x40 + (b[2] - 0x80)) * 0x40 + (b[3] - 0x80)
  }

  lemma Utf8RoundTrip(c: char)
    ensures Utf8Decode(Utf8(c)) == c as int
  {
    var cp := c as int;
    if 0x800 <= cp < 0x1_0000 {
      ThreeByteSplit(cp);
    } else if cp >= 0x1_0000 {
      FourByteSplit(cp);
    }
  }

  /** The six-bit groups of a three-byte code point put back together. */
  lemma ThreeByteSplit(cp: int)
    requires 0x800 <= cp < 0x1_0000
    ensures ((cp / 0x1000) * 0x40 + (cp / 0x40) % 0x40) * 0x40 + cp % 0x40 == cp
  {
    assert cp / 0x40 == (cp / 0x1000) * 0x40 + (cp / 0x40) % 0x40;
  }

  /** The six-bit groups of a four-byte code point put back together. */
  lemma FourByteSplit(cp: int)
    requires cp >= 0x1_0000
    ensures (((cp / 0x4_0000) * 0x40 + (cp / 0x1000) % 0x40) * 0x40 + (cp / 0x40) % 0x40) * 0x40 + cp % 0x40 == cp
  {
    assert cp / 0x40 == (cp / 0x1000) * 0x40 + (cp / 0x40) % 0x40;
    assert cp / 0x1000 == (cp / 0x4_0000) * 0x40 + (cp / 0x1000) % 0x40;
  }

  /** The UTF-8 bytes of a string, character by character. */
  function Utf8Bytes(s: string): (r: seq<Byte>)
    ensures |r| >= |s|
  {
    if s == [] then [] else Utf8(s[0]) + Utf8Bytes(s[1..])
  }

  /** The length of the sequence a UTF-8 lead byte opens. */
  function Utf8Width(b: Byte): (n: nat)
    ensures 1 <= n <= 4
  {
    if b < 0x80 then 1 else if b < 0xE0 then 2 else if b < 0xF0 then 3 else 4
  }

  /** The character for a code point; anything that is not a Unicode scalar
      value becomes U+FFFD, the replacement character. */
  function CodePointChar(cp: int): char
  {
    if 0 <= cp < 0xD800 || 0xE000 <= cp < 0x11_0000 then cp as char else '\U{FFFD}'
  }

  /** bytes.decode("utf-8") of well-formed UTF-8, one lead byte at a time
      (a truncated final sequence reads as U+FFFD). */
  function Utf8Text(bs: seq<Byte>): string
    decreases |bs|
  {
    if bs == [] then []
    else
      var n := Utf8Width(bs[0]);
      if n > |bs| then ['\U{FFFD}']
      else [CodePointChar(Utf8Decode(bs[..n]))] + Utf8Text(bs[n..])
  }

  /** The lead byte of a character's encoding announces the encoding's length. */
  lemma Utf8LeadWidth(c: char)
    ensures Utf8Width(Utf8(c)[0]) == |Utf8(c)|
  {
  }

  /** Decoding the bytes of one character, followed by anything, reads that
      character first. */
  lemma Utf8TextStep(c: char, rest: seq<Byte>)
    ensures Utf8Text(Utf8(c) + rest) == [c] + Utf8Text(rest)
  {
    var u := Utf8(c);
    Utf8LeadWidth(c);
    Utf8RoundTrip(c);
    assert (u + rest)[0] == u[0];
    assert (u + rest)[..|u|] == u;
    assert (u + rest)[|u|..] == rest;
  }

  /** Decoding a string's UTF-8 bytes gives the string back. */
  lemma {:induction false} Utf8TextRoundTrip(s: string)
    ensures Utf8Text(Utf8Bytes(s)) == s
  {
    if s != [] {
      Utf8TextStep(s[0], Utf8Bytes(s[1..]));
      Utf8TextRoundTrip(s[1..]);
    }
  }

  // ---------------------------------------------------------------------
  // Hexadecimal digits (hexdigest() and the %XX escapes)
  // ---------------------------------------------------------------------

  predicate IsLowerHex(c: char) { '0' <= c <= '9' || 'a' <= c <= 'f' }

  /** The lowercase hexadecimal digit for a nibble. */
  function LowerHexDigit(d: int): (c: char)
    requires 0 <= d < 16
    ensures IsLowerHex(c)
  {
    if d < 10 then ('0' as int + d) as char else ('a' as int + d - 10) as char
  }

  /** The uppercase hexadecimal digit for a nibble, as used in "%XX". */
  function UpperHexDigit(d: int): (c: char)
    requires 0 <= d < 16
    ensures IsHexDigit(c) && HexValue(c) == d
    ensures '0' <= c <= '9' || 'A' <= c <= 'F'
  {
    if d < 10 then ('0' as int + d) as char else ('A' as int + d - 10) as char
  }

  /** hexdigest(): two lowercase hexadecimal digits per byte, high nibble first. */
  function HexLower(bs: seq<Byte>): (r: string)
    ensures |r| == 2 * |bs|
    ensures forall i :: 0 <= i < |r| ==> IsLowerHex(r[i])
  {
    if bs == [] then [] else [LowerHexDigit(bs[0] / 16), LowerHexDigit(bs[0] % 16)] + HexLower(bs[1..])
  }

  /** A hexadecimal digit of either case, as unquote accepts after '%'. */
  predicate IsHexDigit(c: char) { IsLowerHex(c) || 'A' <= c <= 'F' }

  function HexValue(c: char): (v: int)
    ensures 0 <= v < 16
  {
    if '0' <= c <= '9' then c as int - '0' as int
    else if 'a' <= c <= 'f' then c as int - 'a' as int + 10
    else if 'A' <= c <= 'F' then c as int - 'A' as int + 10
    else 0
  }

  /** Reads lowercase hexadecimal text two digits at a time. */
  function Unhex(s: string): seq<Byte>
  {
    if |s| < 2 then [] else [HexValue(s[0]) * 16 + HexValue(s[1])] + Unhex(s[2..])
  }

  /** hexdigest() loses nothing: the digest can be read back from its text. */
  lemma {:induction false} HexRoundTrip(bs: seq<Byte>)
    ensures Unhex(HexLower(bs)) == bs
  {
    if bs != [] {
      var h := HexLower(bs);
      assert h[2..] == HexLower(bs[1..]);
      assert HexValue(h[0]) == bs[0] / 16 && HexValue(h[1]) == bs[0] % 16;
      HexRoundTrip(bs[1..]);
    }
  }

  // ---------------------------------------------------------------------
  // quote_plus and urlencode
  // ---------------------------------------------------------------------

  /** The characters quote_plus never escapes (letters, digits and "_.-~"). */
  predicate IsUnreserved(c: char)
  {
    'A' <= c <= 'Z' || 'a' <= c <= 'z' || '0' <= c <= '9' || c == '_' || c == '.' || c == '-' || c == '~'
  }

  /** The characters that can appear in the output of quote_plus. */
  predicate IsQuotedChar(c: char)
  {
    IsUnreserved(c) || c == '%' || c == '+'
  }

  /** "%XX" with uppercase hexadecimal digits, once per byte. */
  function PercentEncode(bs: seq<Byte>): (r: string)
    ensures |r| == 3 * |bs|
    ensures forall i :: 0 <= i < |r| ==> IsQuotedChar(r[i])
  {
    if bs == [] then [] else ['%', UpperHexDigit(bs[0] / 16), UpperHexDigit(bs[0] % 16)] + PercentEncode(bs[1..])
  }

  /** quote_plus of one character: kept, a space becomes '+', anything else
      is percent-escaped byte by byte in UTF-8. */
  function QuoteChar(c: char): string
  {
    if IsUnreserved(c) then [c]
    else if c == ' ' then "+"
    else PercentEncode(Utf8(c))
  }

  /** urllib.parse.quote_plus(s, safe=''). Its output never contains the
      separators '&' and '=' that urlencode puts between keys and values. */
  function Quote(s: string): (r: string)
    ensures forall i :: 0 <= i < |r| ==> IsQuotedChar(r[i])
    ensures |r| >= |s|
  {
    if s == [] then [] else QuoteChar(s[0]) + Quote(s[1..])
  }

  /** A string made only of unreserved characters is left as it is. */
  lemma {:induction false} QuoteUnreserved(s: string)
    requires forall i :: 0 <= i < |s| ==> IsUnreserved(s[i])
    ensures Quote(s) == s
  {
    if s != [] {
      QuoteUnreserved(s[1..]);
    }
  }

  /** The byte level of urllib.parse.unquote_plus: '+' is a space, '%'
      followed by two hexadecimal digits is that byte, and any other
      character stands for its own UTF-8 bytes. */
  function UnquoteBytes(t: string): seq<Byte>
  {
    if t == [] then []
    else if t[0] == '+' then [0x20] + UnquoteBytes(t[1..])
    else if t[0] == '%' && |t| >= 3 && IsHexDigit(t[1]) && IsHexDigit(t[2]) then
      [HexValue(t[1]) * 16 + HexValue(t[2])] + UnquoteBytes(t[3..])
    else Utf8(t[0]) + UnquoteBytes(t[1..])
  }

  /** urllib.parse.unquote_plus(t), decoding the bytes as UTF-8. */
  function Unquote(t: string): string
  {
    Utf8Text(UnquoteBytes(t))
  }

  /** Each "%XX" escape reads back as its byte. */
  lemma {:induction false} UnquotePercent(bs: seq<Byte>, rest: string)
    ensures UnquoteBytes(PercentEncode(bs) + rest) == bs + UnquoteBytes(rest)
  {
    if bs != [] {
      var t := PercentEncode(bs) + rest;
      var tail := PercentEncode(bs[1..]) + rest;
      assert t == ['%', UpperHexDigit(bs[0] / 16), UpperHexDigit(bs[0] % 16)] + tail;
      assert t[0] == '%' && HexValue(t[1]) * 16 + HexValue(t[2]) == bs[0];
      assert t[3..] == tail;
      assert UnquoteBytes(t) == [bs[0]] + UnquoteBytes(tail);
      UnquotePercent(bs[1..], rest);
      assert [bs[0]] + bs[1..] == bs;
    } else {
      assert PercentEncode(bs) + rest == rest;
    }
  }

  /** The quoting of one character reads back as that character's UTF-8 bytes. */
  lemma UnquoteQuoteChar(c: char, rest: string)
    ensures UnquoteBytes(QuoteChar(c) + rest) == Utf8(c) + UnquoteBytes(rest)
  {
    if IsUnreserved(c) {
      assert ([c] + rest)[1..] == rest;
    } else if c == ' ' {
      assert ("+" + rest)[1..] == rest;
    } else {
      UnquotePercent(Utf8(c), rest);
    }
  }

  /** Unquoting the quoted text gives back the UTF-8 bytes of the original. */
  lemma {:induction false} UnquoteQuoteBytes(s: string)
    ensures UnquoteBytes(Quote(s)) == Utf8Bytes(s)
  {
    if s != [] {
      UnquoteQuoteChar(s[0], Quote(s[1..]));
      UnquoteQuoteBytes(s[1..]);
    }
  }

  /** quote_plus loses nothing: unquote_plus gives the original text back. */
  lemma QuoteRoundTrip(s: string)
    ensures Unquote(Quote(s)) == s
  {
    UnquoteQuoteBytes(s);
    Utf8TextRoundTrip(s);
  }

  /** One `key=value` item of urlencode: both sides are str()-ed and quoted. */
  function Pair(e: (string, Option<Value>)): (r: string)
  {
    Quote(e.0) + "=" + Quote(Str(e.1))
  }

  /** urllib.parse.urlencode of a dict's items, in their order: the items
      joined by '&'; no items give the empty string. */
  function Encode(es: seq<(string, Option<Value>)>): string
  {
    if |es| == 0 then ""
    else if |es| == 1 then Pair(es[0])
    else Encode(es[..|es| - 1]) + "&" + Pair(es[|es| - 1])
  }

  /** Concatenation is associative (stated once so that proofs about
      concrete separators need not rediscover it). */
  lemma ConcatAssoc<T>(a: seq<T>, b: seq<T>, c: seq<T>)
    ensures a + (b + c) == a + b + c
  {
  }

  lemma EncodeAppend(es: seq<(string, Option<Value>)>, e: (string, Option<Value>))
    ensures Encode(es + [e]) == if es == [] then Pair(e) else Encode(es) + "&" + Pair(e)
  {
    assert (es + [e])[..|es|] == es;
  }

  lemma EncodeTwo(x: (string, Option<Value>), y: (string, Option<Value>))
    ensures Encode([x, y]) == Pair(x) + "&" + Pair(y)
  {
    assert [x, y][..1] == [x];
  }

  // ---------------------------------------------------------------------
  // Reading a query string back into its items
  // ---------------------------------------------------------------------

  /** The pieces of `s` between '&' separators (Python's s.split("&")). */
  function Segments(s: string): (r: seq<string>)
    ensures |r| >= 1
  {
    if s == [] then [""]
    else
      var init := Segments(s[..|s| - 1]);
      if s[|s| - 1] == '&' then init + [""]
      else init[..|init| - 1] + [init[|init| - 1] + [s[|s| - 1]]]
  }

  lemma {:induction false} SegmentsAfterSeparator(a: string, b: string)
    requires forall i :: 0 <= i < |b| ==> b[i] != '&'
    ensures Segments(a + "&" + b) == Segments(a) + [b]
    decreases |b|
  {
    if b == [] {
      assert (a + "&" + b)[..|a|] == a;
    } else {
      var b' := b[..|b| - 1];
      assert (a + "&" + b)[..|a + "&" + b| - 1] == a + "&" + b';
      SegmentsAfterSeparator(a, b');
      assert b' + [b[|b| - 1]] == b;
    }
  }

  lemma {:induction false} SegmentsWithoutSeparator(b: string)
    requires forall i :: 0 <= i < |b| ==> b[i] != '&'
    ensures Segments(b) == [b]
    decreases |b|
  {
    if b != [] {
      var b' := b[..|b| - 1];
      SegmentsWithoutSeparator(b');
      assert b' + [b[|b| - 1]] == b;
    }
  }

  lemma PairHasNoSeparator(e: (string, Option<Value>))
    ensures forall i :: 0 <= i < |Pair(e)| ==> Pair(e)[i] != '&'
  {
    var k, v := Quote(e.0), Quote(Str(e.1));
    assert Pair(e) == k + "=" + v;
    forall i | 0 <= i < |Pair(e)| ensures Pair(e)[i] != '&' {
      if i < |k| { assert Pair(e)[i] == k[i]; }
      else if i > |k| { assert Pair(e)[i] == v[i - |k| - 1]; }
    }
  }

  /** The encoded items of a dict, in order. */
  function Pairs(es: seq<(string, Option<Value>)>): (r: seq<string>)
    ensures |r| == |es|
  {
    if es == [] then [] else Pairs(es[..|es| - 1]) + [Pair(es[|es| - 1])]
  }

  /** urlencode is unambiguous at the item level: splitting its output at
      '&' gives back exactly the encoded items, in order. */
  lemma {:induction false} EncodeSegments(es: seq<(string, Option<Value>)>)
    requires es != []
    ensures Segments(Encode(es)) == Pairs(es)
    decreases |es|
  {
    var last := es[|es| - 1];
    PairHasNoSeparator(last);
    if |es| == 1 {
      SegmentsWithoutSeparator(Pair(last));
    } else {
      var init := es[..|es| - 1];
      EncodeSegments(init);
      SegmentsAfterSeparator(Encode(init), Pair(last));
    }
  }
}
