/** Percent-encoding of text over UTF-8 (RFC 3986 section 2.1, RFC 3629), as `quote` with
    no safe characters does it, and its undoing. */
module PercentEncoding {
  import opened Options

  newtype Octet = n: int | 0 <= n < 256

  // ----- UTF-8 ----------------------------------------------------------------------------

  function Utf8(c: char): (bytes: seq<Octet>)
    ensures 1 <= |bytes| <= 4
  {
    var n := c as int;
    if n < 0x80 then [n as Octet]
    else if n < 0x800 then [(0xC0 + n / 64) as Octet, (0x80 + n % 64) as Octet]
    else if n < 0x10000 then [(0xE0 + n / 4096) as Octet, (0x80 + n / 64 % 64) as Octet, (0x80 + n % 64) as Octet]
    else [(0xF0 + n / 262144) as Octet, (0x80 + n / 4096 % 64) as Octet, (0x80 + n / 64 % 64) as Octet, (0x80 + n % 64) as Octet]
  }

  /** RFC 3629, section 3: as few bytes as the number needs, the first of which tells their
      count; every other one carries six bits. */
  lemma Utf8IsShortest(c: char)
    ensures var n, bytes := c as int, Utf8(c);
            && (|bytes| == 1 <==> n < 128) && (|bytes| <= 2 <==> n < 2048) && (|bytes| <= 3 <==> n < 65536)
            && (forall i | 0 < i < |bytes| :: 128 <= bytes[i] < 192)
            && match |bytes|
               case 1 => bytes[0] as int == n
               case 2 => bytes[0] as int - 192 == n / 64 < 32 && bytes[1] as int - 128 == n % 64
               case 3 => bytes[0] as int - 224 == n / 4096 < 16 && bytes[2] as int - 128 == n % 64 &&
                         n == n / 4096 * 4096 + (bytes[1] as int - 128) * 64 + n % 64
               case _ => bytes[0] as int - 240 == n / 262144 < 8 && bytes[3] as int - 128 == n % 64 &&
                         n == n / 262144 * 262144 + (bytes[1] as int - 128) * 4096 + (bytes[2] as int - 128) * 64 + n % 64
  {
    SixBitGroups(c as int);
  }

  function Encode(s: string): seq<Octet> {
    if s == "" then [] else Utf8(s[0]) + Encode(s[1..])
  }

  predicate Continuation(b: Octet) { 0x80 <= b < 0xC0 }

  /** The code point at the front and its length, read from the lead byte. */
  function Lead(bytes: seq<Octet>): Option<(int, nat)>
    requires bytes != []
  {
    var b := bytes[0] as int;
    if b < 0x80 then Some((b, 1))
    else if 0xC0 <= b < 0xE0 && |bytes| >= 2 && Continuation(bytes[1]) then
      Some(((b - 0xC0) * 64 + (bytes[1] as int - 0x80), 2))
    else if 0xE0 <= b < 0xF0 && |bytes| >= 3 && Continuation(bytes[1]) && Continuation(bytes[2]) then
      Some(((b - 0xE0) * 4096 + (bytes[1] as int - 0x80) * 64 + (bytes[2] as int - 0x80), 3))
    else if 0xF0 <= b < 0xF8 && |bytes| >= 4 && Continuation(bytes[1]) && Continuation(bytes[2]) && Continuation(bytes[3]) then
      Some(((b - 0xF0) * 262144 + (bytes[1] as int - 0x80) * 4096 + (bytes[2] as int - 0x80) * 64 + (bytes[3] as int - 0x80), 4))
    else None
  }

  predicate CodePoint(n: int) { 0 <= n < 0xD800 || 0xE000 <= n < 0x11_0000 }

  function Decode(bytes: seq<Octet>): Option<string> {
    if bytes == [] then Some("")
    else
      match Lead(bytes)
      case None => None
      case Some((n, size)) =>
        if !CodePoint(n) || size == 0 || size > |bytes| then None
        else
          match Decode(bytes[size..])
          case None => None
          case Some(rest) => Some([n as char] + rest)
  }

  lemma LeadReadsBack(c: char, rest: seq<Octet>)
    ensures Lead(Utf8(c) + rest) == Some((c as int, |Utf8(c)|))
  {
    var n := c as int;
    var bytes := Utf8(c) + rest;
    if n < 0x80 {
      assert bytes[0] as int == n;
    } else if n < 0x800 {
      assert bytes[0] as int == 0xC0 + n / 64 && bytes[1] as int == 0x80 + n % 64;
    } else if n < 0x10000 {
      assert bytes[0] as int == 0xE0 + n / 4096 && bytes[1] as int == 0x80 + n / 64 % 64 && bytes[2] as int == 0x80 + n % 64;
      SixBitGroups(n);
    } else {
      assert bytes[0] as int == 0xF0 + n / 262144 && bytes[1] as int == 0x80 + n / 4096 % 64;
      assert bytes[2] as int == 0x80 + n / 64 % 64 && bytes[3] as int == 0x80 + n % 64;
      SixBitGroups(n);
    }
  }

  /** The groups of six bits a number is made of. */
  lemma SixBitGroups(n: nat)
    ensures n == n / 4096 * 4096 + n / 64 % 64 * 64 + n % 64
    ensures n == n / 262144 * 262144 + n / 4096 % 64 * 4096 + n / 64 % 64 * 64 + n % 64
  {
    var a := n / 64;
    var b := a / 64;
    var c := b / 64;
    assert b == n / 4096 && c == n / 262144;
    assert n == a * 64 + n % 64 && a == b * 64 + a % 64 && b == c * 64 + b % 64;
  }

  lemma {:induction false} DecodeEncode(s: string)
    ensures Decode(Encode(s)) == Some(s)
  {
    if s != "" {
      LeadReadsBack(s[0], Encode(s[1..]));
      DecodeEncode(s[1..]);
      assert (Utf8(s[0]) + Encode(s[1..]))[|Utf8(s[0])|..] == Encode(s[1..]);
      assert s == [s[0]] + s[1..];
    }
  }

  // ----- percent-encoding -------------------------------------------------------------------

  predicate Unreserved(c: char) {
    'A' <= c <= 'Z' || 'a' <= c <= 'z' || '0' <= c <= '9' || c == '_' || c == '.' || c == '-' || c == '~'
  }

  function HexDigit(n: int): char
    requires 0 <= n < 16
  {
    if n < 10 then (n + 0x30) as char else (n - 10 + 0x41) as char
  }

  /** Both cases are read. */
  function HexValue(c: char): Option<int> {
    if '0' <= c <= '9' then Some(c as int - 0x30)
    else if 'A' <= c <= 'F' then Some(c as int - 0x41 + 10)
    else if 'a' <= c <= 'f' then Some(c as int - 0x61 + 10)
    else None
  }

  function QuoteByte(b: Octet): string {
    var n := b as int;
    if n < 0x80 && Unreserved(n as char) then [n as char] else ['%', HexDigit(n / 16), HexDigit(n % 16)]
  }

  function QuoteBytes(bytes: seq<Octet>): string {
    if bytes == [] then "" else QuoteByte(bytes[0]) + QuoteBytes(bytes[1..])
  }

  /** RFC 3986, sections 2.1 and 2.3: letters, digits and four marks stay; any other byte is
      written as a percent sign and two digits, in upper case. */
  lemma QuoteByteIs(b: Octet)
    ensures var c := b as char;
            if b < 128 && ('A' <= c <= 'Z' || 'a' <= c <= 'z' || '0' <= c <= '9' || c == '_' || c == '.' || c == '-' || c == '~')
            then QuoteByte(b) == [c]
            else QuoteByte(b) == ['%', "0123456789ABCDEF"[b as int / 16], "0123456789ABCDEF"[b as int % 16]]
  {
    var n := b as int;
    HexDigitIs(n / 16);
    HexDigitIs(n % 16);
  }

  lemma HexDigitIs(n: int)
    requires 0 <= n < 16
    ensures HexDigit(n) == "0123456789ABCDEF"[n]
  {
  }

  lemma {:induction false} QuoteBytesJoins(a: seq<Octet>, b: seq<Octet>)
    ensures QuoteBytes(a + b) == QuoteBytes(a) + QuoteBytes(b)
  {
    if a == [] {
      assert a + b == b;
    } else {
      assert (a + b)[1..] == a[1..] + b;
      QuoteBytesJoins(a[1..], b);
    }
  }

  lemma {:induction false} EncodeJoins(s: string, t: string)
    ensures Encode(s + t) == Encode(s) + Encode(t)
  {
    if s == "" {
      assert s + t == t;
    } else {
      assert (s + t)[1..] == s[1..] + t;
      EncodeJoins(s[1..], t);
    }
  }

  /** A text is encoded character by character, and a character byte by byte. */
  lemma QuoteJoins(s: string, c: char)
    ensures Quote(s + [c]) == Quote(s) + QuoteBytes(Utf8(c))
    ensures Quote("") == ""
  {
    EncodeJoins(s, [c]);
    assert [c][1..] == "" && Utf8(c) + [] == Utf8(c);
    QuoteBytesJoins(Encode(s), Utf8(c));
  }

  /** `quote(s, safe='')`. */
  function Quote(s: string): string { QuoteBytes(Encode(s)) }

  predicate Escape(s: string) {
    |s| >= 3 && s[0] == '%' && HexValue(s[1]).Some? && HexValue(s[2]).Some?
  }

  /** A `%` without two hexadecimal digits stands for itself. */
  function UnquoteBytes(s: string): seq<Octet> {
    if s == "" then []
    else if Escape(s) then [(HexValue(s[1]).value * 16 + HexValue(s[2]).value) as Octet] + UnquoteBytes(s[3..])
    else Utf8(s[0]) + UnquoteBytes(s[1..])
  }

  /** `unquote(s)`; None where the bytes are not UTF-8. */
  function Unquote(s: string): Option<string> { Decode(UnquoteBytes(s)) }

  lemma UnquoteOne(b: Octet, rest: string)
    ensures UnquoteBytes(QuoteByte(b) + rest) == [b] + UnquoteBytes(rest)
  {
    var n := b as int;
    var s := QuoteByte(b) + rest;
    if n < 0x80 && Unreserved(n as char) {
      assert s[0] == n as char && s[1..] == rest;
    } else {
      assert s[0] == '%' && s[1] == HexDigit(n / 16) && s[2] == HexDigit(n % 16) && s[3..] == rest;
      assert HexValue(HexDigit(n / 16)) == Some(n / 16) && HexValue(HexDigit(n % 16)) == Some(n % 16);
      assert n / 16 * 16 + n % 16 == n;
    }
  }

  lemma {:induction false} UnquoteQuoteBytes(bytes: seq<Octet>)
    ensures UnquoteBytes(QuoteBytes(bytes)) == bytes
  {
    if bytes != [] {
      UnquoteOne(bytes[0], QuoteBytes(bytes[1..]));
      UnquoteQuoteBytes(bytes[1..]);
    }
  }

  /** For every text. */
  lemma UnquoteQuote(s: string)
    ensures Unquote(Quote(s)) == Some(s)
  {
    UnquoteQuoteBytes(Encode(s));
    DecodeEncode(s);
  }

  /** What encoding can leave in a text: nothing that delimits the parts of a URL. */
  predicate Safe(s: string) {
    forall c | c in s :: c == '%' || Unreserved(c)
  }

  lemma {:induction false} QuoteBytesIsSafe(bytes: seq<Octet>)
    ensures Safe(QuoteBytes(bytes))
  {
    if bytes != [] {
      QuoteBytesIsSafe(bytes[1..]);
      var n := bytes[0] as int;
      assert Unreserved(HexDigit(n / 16)) && Unreserved(HexDigit(n % 16));
    }
  }
}
