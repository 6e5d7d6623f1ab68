/** Percent-encoding over UTF-8, as `quote(text, safe="")` and `unquote(text)` do it: the
    unreserved characters and upper-case digits of sections 2.1 and 2.3 of RFC 3986, and
    UTF-8 of section 3 of RFC 3629 with ill-formed input replaced by U+FFFD. */
module PercentEncoding {
  import opened Text

  // ---------- UTF-8 ----------

  const REPLACEMENT: char := '\U{FFFD}'

  function EncodeChar(c: char): (bs: seq<Byte>)
    ensures bs != []
  {
    var v := c as int;
    if v < 0x80 then [v]
    else if v < 0x800 then [0xC0 + v / 0x40, 0x80 + v % 0x40]
    else if v < 0x1_0000 then [0xE0 + v / 0x40 / 0x40, 0x80 + v / 0x40 % 0x40, 0x80 + v % 0x40]
    else [0xF0 + v / 0x40 / 0x40 / 0x40, 0x80 + v / 0x40 / 0x40 % 0x40, 0x80 + v / 0x40 % 0x40, 0x80 + v % 0x40]
  }

  function EncodeUtf8(s: string): seq<Byte> {
    if s == "" then [] else EncodeChar(s[0]) + EncodeUtf8(s[1..])
  }

  predicate Within(bs: seq<Byte>, i: nat, lo: Byte, hi: Byte) { i < |bs| && lo <= bs[i] <= hi }

  predicate Continues(bs: seq<Byte>, i: nat) { Within(bs, i, 0x80, 0xBF) }

  /** Six more bits, from the continuation byte at i. */
  function Bits(bs: seq<Byte>, i: nat, high: int): int
    requires i < |bs|
  {
    var low: int := bs[i];
    high * 0x40 + (low - 0x80)
  }

  /** The first character and the number of bytes it takes; of an ill-formed sequence the
      longest well-formed beginning is replaced. */
  function FirstChar(bs: seq<Byte>): (r: (char, nat))
    requires bs != []
    ensures 1 <= r.1 <= |bs|
  {
    var b: int := bs[0];
    if b < 0x80 then (b as char, 1)
    else if 0xC2 <= b <= 0xDF then
      if Continues(bs, 1) then (Bits(bs, 1, b - 0xC0) as char, 2) else (REPLACEMENT, 1)
    else if 0xE0 <= b <= 0xEF then
      if !Within(bs, 1, if b == 0xE0 then 0xA0 else 0x80, if b == 0xED then 0x9F else 0xBF) then (REPLACEMENT, 1)
      else if !Continues(bs, 2) then (REPLACEMENT, 2)
      else (Bits(bs, 2, Bits(bs, 1, b - 0xE0)) as char, 3)
    else if 0xF0 <= b <= 0xF4 then
      if !Within(bs, 1, if b == 0xF0 then 0x90 else 0x80, if b == 0xF4 then 0x8F else 0xBF) then (REPLACEMENT, 1)
      else if !Continues(bs, 2) then (REPLACEMENT, 2)
      else if !Continues(bs, 3) then (REPLACEMENT, 3)
      else (Bits(bs, 3, Bits(bs, 2, Bits(bs, 1, b - 0xF0))) as char, 4)
    else (REPLACEMENT, 1)
  }

  function DecodeUtf8(bs: seq<Byte>): string {
    if bs == [] then "" else [FirstChar(bs).0] + DecodeUtf8(bs[FirstChar(bs).1..])
  }

  lemma FirstCharOfEncoded(c: char, rest: seq<Byte>)
    ensures FirstChar(EncodeChar(c) + rest) == (c, |EncodeChar(c)|)
  {
    var v, e := c as int, EncodeChar(c);
    var bs := e + rest;
    assert forall i :: 0 <= i < |e| ==> bs[i] == e[i];
    if v >= 0x1_0000 {
      assert Bits(bs, 1, e[0] - 0xF0) == v / 0x40 / 0x40;
      assert Bits(bs, 2, v / 0x40 / 0x40) == v / 0x40;
    } else if v >= 0x800 {
      assert Bits(bs, 1, e[0] - 0xE0) == v / 0x40;
    }
  }

  lemma {:induction false} DecodeEncode(s: string)
    ensures DecodeUtf8(EncodeUtf8(s)) == s
  {
    if s != "" {
      var head, tail := EncodeChar(s[0]), EncodeUtf8(s[1..]);
      FirstCharOfEncoded(s[0], tail);
      assert (head + tail)[|head|..] == tail;
      DecodeEncode(s[1..]);
    }
  }

  // ---------- Percent-encoding ----------

  predicate Unreserved(c: char) {
    'a' <= c <= 'z' || 'A' <= c <= 'Z' || Digit(c) || c == '-' || c == '.' || c == '_' || c == '~'
  }

  const UPPER_HEX := "0123456789ABCDEF"

  function QuoteByte(b: Byte): (s: string)
    ensures s != ""
  {
    if b < 0x80 && Unreserved(b as char) then [b as char] else ['%', UPPER_HEX[b / 16], UPPER_HEX[b % 16]]
  }

  function QuoteBytes(bs: seq<Byte>): string {
    if bs == [] then "" else QuoteByte(bs[0]) + QuoteBytes(bs[1..])
  }

  /** `quote(s, safe="")`. */
  function Quote(s: string): string { QuoteBytes(EncodeUtf8(s)) }

  /** The value of a hexadecimal digit of either case, or -1. */
  function HexValue(c: char): int {
    if '0' <= c <= '9' then c as int - '0' as int
    else if 'A' <= c <= 'F' then c as int - 'A' as int + 10
    else if 'a' <= c <= 'f' then c as int - 'a' as int + 10
    else -1
  }

  /** `unquote_to_bytes` on ASCII text: a percent sign without two digits stands for itself. */
  function UnquoteBytes(s: string): seq<Byte>
    requires Ascii(s)
  {
    if s == "" then []
    else if s[0] == '%' && |s| >= 3 && HexValue(s[1]) >= 0 && HexValue(s[2]) >= 0 then
      [HexValue(s[1]) * 16 + HexValue(s[2])] + UnquoteBytes(s[3..])
    else
      [s[0] as int] + UnquoteBytes(s[1..])
  }

  /** The length of the longest ASCII beginning. */
  function AsciiRun(s: string): (n: nat)
    ensures n <= |s| && Ascii(s[..n])
    ensures n < |s| ==> s[n] as int >= 0x80
  {
    if s == "" || s[0] as int >= 0x80 then 0
    else
      assert s[..AsciiRun(s[1..]) + 1] == [s[0]] + s[1..][..AsciiRun(s[1..])];
      1 + AsciiRun(s[1..])
  }

  /** `unquote(s)`: every ASCII run is decoded by itself. */
  function Unquote(s: string): string
    decreases |s|
  {
    if s == "" then ""
    else if AsciiRun(s) == 0 then [s[0]] + Unquote(s[1..])
    else DecodeUtf8(UnquoteBytes(s[..AsciiRun(s)])) + Unquote(s[AsciiRun(s)..])
  }

  // ---------- Round trip ----------

  /** What quoting writes: unreserved characters and percent signs. */
  predicate PlainChar(c: char) { Unreserved(c) || c == '%' }

  predicate Plain(s: string) { forall i :: 0 <= i < |s| ==> PlainChar(s[i]) }

  lemma {:induction false} QuoteBytesIsPlain(bs: seq<Byte>)
    ensures Plain(QuoteBytes(bs))
  {
    if bs != [] { QuoteBytesIsPlain(bs[1..]); }
  }

  lemma PlainIsAscii(s: string)
    requires Plain(s)
    ensures Ascii(s)
  {
  }

  lemma UnquoteOneByte(b: Byte, rest: string)
    requires Ascii(rest) && Ascii(QuoteByte(b) + rest)
    ensures UnquoteBytes(QuoteByte(b) + rest) == [b] + UnquoteBytes(rest)
  {
    var s := QuoteByte(b) + rest;
    if b < 0x80 && Unreserved(b as char) {
      assert s[0] == b as char && s[1..] == rest;
    } else {
      assert s[1] == UPPER_HEX[b / 16] && s[2] == UPPER_HEX[b % 16] && s[3..] == rest;
      HexDigit(b / 16);
      HexDigit(b % 16);
    }
  }

  lemma HexDigit(d: int)
    requires 0 <= d < 16
    ensures HexValue(UPPER_HEX[d]) == d
  {
    assert UPPER_HEX == ['0', '1', '2', '3', '4', '5', '6', '7', '8', '9', 'A', 'B', 'C', 'D', 'E', 'F'];
  }

  lemma {:induction false} UnquoteQuoteBytes(bs: seq<Byte>)
    ensures Ascii(QuoteBytes(bs)) && UnquoteBytes(QuoteBytes(bs)) == bs
  {
    QuoteBytesIsPlain(bs);
    if bs != [] {
      UnquoteQuoteBytes(bs[1..]);
      UnquoteOneByte(bs[0], QuoteBytes(bs[1..]));
    }
  }

  lemma QuoteIsPlain(s: string)
    ensures Plain(Quote(s)) && Ascii(Quote(s))
    ensures Quote(s) == "" <==> s == ""
  {
    QuoteBytesIsPlain(EncodeUtf8(s));
  }

  lemma QuoteOneByte(c: char)
    requires c as int < 0x80
    ensures Quote([c]) == QuoteByte(c as int)
  {
    var b: Byte := c as int;
    assert [c][1..] == "" && EncodeUtf8([c]) == EncodeChar(c) + [] == [b];
    assert [b][1..] == [];
    assert QuoteBytes([b]) == QuoteByte([b][0]) + QuoteBytes([]);
  }

  /** An ASCII character is written as it is if it is a letter, a digit or one of the four marks,
      and otherwise as a percent sign and the two upper-case hexadecimal digits of its code. */
  lemma QuoteCharExact(c: char)
    requires c as int < 0x80
    ensures var hex := "0123456789ABCDEF";
      Quote([c]) ==
        if 'a' <= c <= 'z' || 'A' <= c <= 'Z' || '0' <= c <= '9' || c in "-._~" then [c]
        else ['%', hex[c as int / 16], hex[c as int % 16]]
  {
    QuoteOneByte(c);
    assert c in "-._~" <==> c == '-' || c == '.' || c == '_' || c == '~';
  }

  lemma {:induction false} EncodeConcat(s: string, t: string)
    ensures EncodeUtf8(s + t) == EncodeUtf8(s) + EncodeUtf8(t)
  {
    if s == "" {
      assert s + t == t;
    } else {
      EncodeConcat(s[1..], t);
      assert (s + t)[1..] == s[1..] + t && (s + t)[0] == s[0];
      Regroup(EncodeChar(s[0]), EncodeUtf8(s[1..]), EncodeUtf8(t));
    }
  }

  lemma Regroup<T>(a: seq<T>, b: seq<T>, c: seq<T>)
    ensures a + (b + c) == (a + b) + c
  {
  }

  lemma {:induction false} QuoteBytesConcat(a: seq<Byte>, b: seq<Byte>)
    ensures QuoteBytes(a + b) == QuoteBytes(a) + QuoteBytes(b)
  {
    if a == [] {
      assert a + b == b;
    } else {
      QuoteBytesConcat(a[1..], b);
      assert (a + b)[1..] == a[1..] + b && (a + b)[0] == a[0];
      Regroup(QuoteByte(a[0]), QuoteBytes(a[1..]), QuoteBytes(b));
    }
  }

  /** Texts are quoted character by character. */
  lemma QuoteConcat(s: string, t: string)
    ensures Quote(s + t) == Quote(s) + Quote(t)
  {
    EncodeConcat(s, t);
    QuoteBytesConcat(EncodeUtf8(s), EncodeUtf8(t));
  }

  /** Text of unreserved characters is its own quotation. */
  lemma {:induction false} QuoteUnreserved(s: string)
    requires forall i :: 0 <= i < |s| ==> Unreserved(s[i])
    ensures Quote(s) == s
  {
    if s != "" {
      assert s == [s[0]] + s[1..];
      QuoteConcat([s[0]], s[1..]);
      QuoteOneByte(s[0]);
      QuoteUnreserved(s[1..]);
    }
  }

  /** Unquoting what was quoted gives back any text. */
  lemma UnquoteQuote(s: string)
    ensures Unquote(Quote(s)) == s
  {
    QuoteIsPlain(s);
    var q := Quote(s);
    UnquoteQuoteBytes(EncodeUtf8(s));
    DecodeEncode(s);
    if q != "" {
      AsciiRunIsAll(q);
      assert q[..|q|] == q && q[|q|..] == "";
    }
  }

  lemma AsciiRunIsAll(s: string)
    requires Ascii(s)
    ensures AsciiRun(s) == |s|
  {
  }

  /** Unquoting anything else cannot be undone in general, but text without a percent sign
      stays as it is. */
  lemma {:induction false} UnquoteWithoutPercent(s: string)
    requires '%' !in s
    ensures Unquote(s) == s
    decreases |s|
  {
    if s != "" {
      var n := AsciiRun(s);
      if n == 0 {
        UnquoteWithoutPercent(s[1..]);
      } else {
        UnquoteWithoutPercent(s[n..]);
        UnquoteAscii(s[..n]);
        assert s == s[..n] + s[n..];
      }
    }
  }

  lemma {:induction false} UnquoteAscii(s: string)
    requires Ascii(s) && '%' !in s
    ensures DecodeUtf8(UnquoteBytes(s)) == s
  {
    if s != "" {
      UnquoteAscii(s[1..]);
      var rest := UnquoteBytes(s[1..]);
      assert ([s[0] as int] + rest)[1..] == rest;
    }
  }
}
