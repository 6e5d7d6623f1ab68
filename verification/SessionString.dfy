/** Session strings (backend/utils/tg_session.py): the packed record of a login as unpadded
    base64url (section 5 of RFC 4648), its export and its validity check.  Decoding is
    `binascii.a2b_base64` in its lenient mode, as `urlsafe_b64decode` calls it. */
module SessionString {
  import opened Options
  import opened Text

  // ---------- Base64url ----------

  type Sextet = v: int | 0 <= v < 64

  function Symbol(v: Sextet): char {
    if v < 26 then ('A' as int + v) as char
    else if v < 52 then ('a' as int + v - 26) as char
    else if v < 62 then ('0' as int + v - 52) as char
    else if v == 62 then '-'
    else '_'
  }

  /** The value of a data character, or -1: the translation to the standard alphabet leaves
      its own two symbols readable as well. */
  function Value(c: char): (v: int)
    ensures -1 <= v < 64
  {
    if 'A' <= c <= 'Z' then c as int - 'A' as int
    else if 'a' <= c <= 'z' then c as int - 'a' as int + 26
    else if '0' <= c <= '9' then c as int - '0' as int + 52
    else if c == '-' || c == '+' then 62
    else if c == '_' || c == '/' then 63
    else -1
  }

  function EncodeThree(a: Byte, b: Byte, c: Byte): string {
    [Symbol(a / 4), Symbol(a % 4 * 16 + b / 16), Symbol(b % 16 * 4 + c / 64), Symbol(c % 64)]
  }

  /** `urlsafe_b64encode`. */
  function Encode(bs: seq<Byte>): string {
    if bs == [] then ""
    else if |bs| == 1 then EncodeThree(bs[0], 0, 0)[..2] + "=="
    else if |bs| == 2 then EncodeThree(bs[0], bs[1], 0)[..3] + "="
    else EncodeThree(bs[0], bs[1], bs[2]) + Encode(bs[3..])
  }

  /** The decoder between two characters: place in the quad, left-over bits, pads seen in a
      row, bytes written, and whether padding has ended the input. */
  datatype Decoder = Decoder(place: nat, left: nat, pads: nat, out: seq<Byte>, ended: bool) {
    predicate Valid() {
      && place < 4
      && left < (if place == 1 then 64 else if place == 2 then 16 else if place == 3 then 4 else 1)
    }
  }

  const START := Decoder(0, 0, 0, [], false)

  function Feed(d: Decoder, c: char): (r: Decoder)
    requires d.Valid()
    ensures r.Valid()
  {
    if d.ended then d
    else if c == '=' then
      if d.place < 2 then d
      else d.(pads := d.pads + 1, ended := d.place + d.pads + 1 >= 4)
    else if Value(c) < 0 then d
    else
      var v := Value(c);
      if d.place == 0 then d.(place := 1, left := v, pads := 0)
      else if d.place == 1 then d.(place := 2, left := v % 16, pads := 0, out := d.out + [d.left * 4 + v / 16])
      else if d.place == 2 then d.(place := 3, left := v % 4, pads := 0, out := d.out + [d.left * 16 + v / 4])
      else d.(place := 0, left := 0, pads := 0, out := d.out + [d.left * 64 + v])
  }

  function FeedAll(d: Decoder, s: string): (r: Decoder)
    requires d.Valid()
    ensures r.Valid()
    decreases |s|
  {
    if s == "" then d else FeedAll(Feed(d, s[0]), s[1..])
  }

  /** None stands for the raised error. */
  function Decode(s: string): Option<seq<Byte>> {
    var d := FeedAll(START, s);
    if !Ascii(s) then None else if d.ended || d.place == 0 then Some(d.out) else None
  }

  function Pads(n: nat): string { seq(n, i => '=') }

  /** How many pads the caller adds to a text of n characters. */
  function Adds(n: nat): nat { (4 - n % 4) % 4 }

  /** `s + "=" * (-len(s) % 4)`. */
  function Padded(s: string): string { s + Pads(Adds(|s|)) }

  /** `rstrip("=")`. */
  function StripPads(s: string): string {
    if s != "" && s[|s| - 1] == '=' then StripPads(s[..|s| - 1]) else s
  }

  // ---------- Encoding is inverted ----------

  lemma ValueOfSymbol(v: Sextet)
    ensures Value(Symbol(v)) == v && Symbol(v) != '=' && Symbol(v) as int < 0x80
  {
  }

  /** The symbols are the capital letters, the small ones, the digits, the hyphen and the
      underscore, each row in its order; decoding takes the two marks of the standard alphabet
      for the last two values as well, and no other character. */
  lemma SymbolsExact(v: Sextet, c: char)
    ensures Symbol(0) == 'A' && Symbol(25) == 'Z' && Symbol(26) == 'a' && Symbol(51) == 'z'
    ensures Symbol(52) == '0' && Symbol(61) == '9' && Symbol(62) == '-' && Symbol(63) == '_'
    ensures v < 61 && v != 25 && v != 51 ==> Symbol(v + 1) as int == Symbol(v) as int + 1
    ensures Value(c) == v <==> c == Symbol(v) || (v == 62 && c == '+') || (v == 63 && c == '/')
  {
  }

  /** Four symbols carry the bits of three bytes, the most significant first. */
  lemma ThreeBytesExact(a: Byte, b: Byte, c: Byte)
    ensures var s := EncodeThree(a, b, c);
      |s| == 4 && Value(s[0]) * 262144 + Value(s[1]) * 4096 + Value(s[2]) * 64 + Value(s[3]) == a * 65536 + b * 256 + c
  {
    ValueOfSymbol(a / 4);
    ValueOfSymbol(a % 4 * 16 + b / 16);
    ValueOfSymbol(b % 16 * 4 + c / 64);
    ValueOfSymbol(c % 64);
  }

  lemma {:induction false} FeedConcat(d: Decoder, s: string, t: string)
    requires d.Valid()
    ensures FeedAll(d, s + t) == FeedAll(FeedAll(d, s), t)
    decreases |s|
  {
    if s == "" {
      assert s + t == t;
    } else {
      assert (s + t)[1..] == s[1..] + t;
      FeedConcat(Feed(d, s[0]), s[1..], t);
    }
  }

  /** Feeding the symbols of three bytes one by one. */
  lemma FeedFirst(d: Decoder, a: Byte, b: Byte, c: Byte)
    requires d.Valid() && d.place == 0 && !d.ended
    ensures var s := EncodeThree(a, b, c);
      && Feed(d, s[0]) == Decoder(1, a / 4, 0, d.out, false)
      && Feed(Feed(d, s[0]), s[1]) == Decoder(2, b / 16, 0, d.out + [a], false)
  {
    var v := a % 4 * 16 + b / 16;
    assert v / 16 == a % 4 && v % 16 == b / 16;
    ValueOfSymbol(a / 4);
    ValueOfSymbol(v);
  }

  lemma FeedSecond(d: Decoder, a: Byte, b: Byte, c: Byte)
    requires d == Decoder(2, b / 16, 0, d.out, false)
    ensures var s := EncodeThree(a, b, c);
      && Feed(d, s[2]) == Decoder(3, c / 64, 0, d.out + [b], false)
      && Feed(Feed(d, s[2]), s[3]) == Decoder(0, 0, 0, d.out + [b] + [c], false)
  {
    var v := b % 16 * 4 + c / 64;
    assert v / 4 == b % 16 && v % 4 == c / 64;
    ValueOfSymbol(v);
    ValueOfSymbol(c % 64);
  }

  lemma FeedChars(d: Decoder, s: string)
    requires d.Valid() && |s| >= 2
    ensures FeedAll(d, s) == FeedAll(Feed(Feed(d, s[0]), s[1]), s[2..])
  {
    assert s[1..][1..] == s[2..];
  }

  lemma FeedThree(d: Decoder, a: Byte, b: Byte, c: Byte)
    requires d.Valid() && d.place == 0 && !d.ended
    ensures FeedAll(d, EncodeThree(a, b, c)) == Decoder(0, 0, 0, d.out + [a, b, c], false)
  {
    var s := EncodeThree(a, b, c);
    FeedFirst(d, a, b, c);
    var e := Feed(Feed(d, s[0]), s[1]);
    FeedSecond(e, a, b, c);
    FeedChars(d, s);
    FeedChars(e, s[2..]);
    assert d.out + [a] + [b] + [c] == d.out + [a, b, c];
  }

  lemma FeedLastOne(d: Decoder, a: Byte)
    requires d.Valid() && d.place == 0 && !d.ended
    ensures var e := FeedAll(d, EncodeThree(a, 0, 0)[..2] + "==");
      e.ended && e.out == d.out + [a]
  {
    var s := EncodeThree(a, 0, 0)[..2] + "==";
    FeedFirst(d, a, 0, 0);
    FeedChars(d, s);
    FeedChars(Feed(Feed(d, s[0]), s[1]), s[2..]);
    assert s[2..][0] == '=' && s[2..][1] == '=' && s[2..][2..] == "";
  }

  lemma FeedLastTwo(d: Decoder, a: Byte, b: Byte)
    requires d.Valid() && d.place == 0 && !d.ended
    ensures var e := FeedAll(d, EncodeThree(a, b, 0)[..3] + "=");
      e.ended && e.out == d.out + [a, b]
  {
    var s := EncodeThree(a, b, 0)[..3] + "=";
    FeedFirst(d, a, b, 0);
    FeedChars(d, s);
    var e := Feed(Feed(d, s[0]), s[1]);
    FeedSecond(e, a, b, 0);
    FeedChars(e, s[2..]);
    assert s[2..][1] == '=' && s[2..][2..] == "";
    assert d.out + [a] + [b] == d.out + [a, b];
  }

  lemma FeedEncodedStep(d: Decoder, bs: seq<Byte>)
    requires d.Valid() && d.place == 0 && !d.ended && |bs| >= 3
    ensures var next := Decoder(0, 0, 0, d.out + bs[..3], false);
      FeedAll(d, Encode(bs)) == FeedAll(next, Encode(bs[3..]))
  {
    var s := EncodeThree(bs[0], bs[1], bs[2]);
    FeedThree(d, bs[0], bs[1], bs[2]);
    assert bs[..3] == [bs[0], bs[1], bs[2]];
    FeedConcat(d, s, Encode(bs[3..]));
  }

  lemma {:induction false} FeedEncoded(d: Decoder, bs: seq<Byte>)
    requires d.Valid() && d.place == 0 && !d.ended
    ensures var e := FeedAll(d, Encode(bs));
      (e.ended || e.place == 0) && e.out == d.out + bs
    decreases |bs|
  {
    if |bs| == 0 {
      assert d.out + bs == d.out;
    } else if |bs| == 1 {
      FeedLastOne(d, bs[0]);
      assert bs == [bs[0]];
    } else if |bs| == 2 {
      FeedLastTwo(d, bs[0], bs[1]);
      assert bs == [bs[0], bs[1]];
    } else {
      FeedEncodedStep(d, bs);
      FeedEncoded(Decoder(0, 0, 0, d.out + bs[..3], false), bs[3..]);
      assert d.out + bs[..3] + bs[3..] == d.out + bs;
    }
  }

  // ---------- Padding ----------

  predicate DataChar(c: char) { Value(c) >= 0 }
  predicate Data(s: string) { forall i :: 0 <= i < |s| ==> DataChar(s[i]) }

  /** The encoding without its padding. */
  function Unpadded(bs: seq<Byte>): string {
    if bs == [] then ""
    else if |bs| == 1 then EncodeThree(bs[0], 0, 0)[..2]
    else if |bs| == 2 then EncodeThree(bs[0], bs[1], 0)[..3]
    else EncodeThree(bs[0], bs[1], bs[2]) + Unpadded(bs[3..])
  }

  lemma ThreeIsData(a: Byte, b: Byte, c: Byte)
    ensures Data(EncodeThree(a, b, c))
  {
    ValueOfSymbol(a / 4);
    ValueOfSymbol(a % 4 * 16 + b / 16);
    ValueOfSymbol(b % 16 * 4 + c / 64);
    ValueOfSymbol(c % 64);
  }

  lemma {:induction false} UnpaddedIsData(bs: seq<Byte>)
    ensures Data(Unpadded(bs)) && |Unpadded(bs)| == (4 * |bs| + 2) / 3
    decreases |bs|
  {
    if bs != [] {
      ThreeIsData(bs[0], if |bs| >= 2 then bs[1] else 0, if |bs| >= 3 then bs[2] else 0);
      if |bs| >= 3 { UnpaddedIsData(bs[3..]); }
    }
  }

  function PadCount(n: nat): nat { (3 - n % 3) % 3 }

  lemma PadTexts()
    ensures Pads(0) == "" && Pads(1) == "=" && Pads(2) == "=="
  {
  }

  lemma Regroup(a: string, b: string, c: string)
    ensures a + (b + c) == a + b + c
  {
  }

  lemma {:induction false} EncodeIsPadded(bs: seq<Byte>)
    ensures Encode(bs) == Unpadded(bs) + Pads(PadCount(|bs|))
    decreases |bs|
  {
    if |bs| < 3 {
      PadTexts();
    } else {
      var head, tail, pads := EncodeThree(bs[0], bs[1], bs[2]), Unpadded(bs[3..]), Pads(PadCount(|bs|));
      EncodeIsPadded(bs[3..]);
      assert PadCount(|bs| - 3) == PadCount(|bs|);
      Regroup(head, tail, pads);
    }
  }

  lemma {:induction false} StripTail(s: string, n: nat)
    requires s == "" || s[|s| - 1] != '='
    ensures StripPads(s + Pads(n)) == s
  {
    var t := s + Pads(n);
    if n == 0 {
      assert t == s;
    } else {
      assert t[|t| - 1] == '=' && t[..|t| - 1] == s + Pads(n - 1);
      StripTail(s, n - 1);
    }
  }

  lemma DataIsAscii(s: string)
    requires Data(s)
    ensures Ascii(s) && '=' !in s
  {
    forall i | 0 <= i < |s| ensures s[i] as int < 0x80 && s[i] != '=' { assert DataChar(s[i]); }
  }

  lemma PaddedIsAscii(s: string, n: nat)
    requires Ascii(s)
    ensures Ascii(s + Pads(n))
  {
  }

  lemma StripEncoded(bs: seq<Byte>)
    ensures StripPads(Encode(bs)) == Unpadded(bs)
  {
    EncodeIsPadded(bs);
    UnpaddedIsData(bs);
    DataIsAscii(Unpadded(bs));
    StripTail(Unpadded(bs), PadCount(|bs|));
  }

  lemma PadCounts(n: nat)
    ensures (4 - (4 * n + 2) / 3 % 4) % 4 == PadCount(n)
  {
    var q, r := n / 3, n % 3;
    assert 4 * n + 2 == 3 * (4 * q) + (4 * r + 2);
    assert (4 * n + 2) / 3 == 4 * q + (4 * r + 2) / 3;
  }

  lemma PaddedUnpadded(bs: seq<Byte>)
    ensures Padded(Unpadded(bs)) == Encode(bs)
  {
    EncodeIsPadded(bs);
    UnpaddedIsData(bs);
    PadCounts(|bs|);
  }

  lemma EncodedIsAscii(bs: seq<Byte>)
    ensures Ascii(Encode(bs))
  {
    EncodeIsPadded(bs);
    UnpaddedIsData(bs);
    DataIsAscii(Unpadded(bs));
    PaddedIsAscii(Unpadded(bs), PadCount(|bs|));
  }

  /** For data of every length, stripping the padding and padding again is the identity, and
      the unpadded text decodes to the data. */
  lemma StripPadInverts(bs: seq<Byte>)
    ensures Padded(StripPads(Encode(bs))) == Encode(bs)
    ensures Decode(Padded(StripPads(Encode(bs)))) == Some(bs)
  {
    StripEncoded(bs);
    PaddedUnpadded(bs);
    EncodedIsAscii(bs);
    FeedEncoded(START, bs);
    assert [] + bs == bs;
  }

  // ---------- What the lenient decoder accepts ----------

  /** The number of data characters. */
  function Count(s: string): nat {
    if s == "" then 0 else Count(s[..|s| - 1]) + if DataChar(s[|s| - 1]) then 1 else 0
  }

  /** The pads after the last data character. */
  function PadsSince(s: string): nat {
    if s == "" || DataChar(s[|s| - 1]) then 0
    else PadsSince(s[..|s| - 1]) + if s[|s| - 1] == '=' then 1 else 0
  }

  /** The pads fill up the group of four that the data characters have begun. */
  predicate Complete(s: string) { Count(s) % 4 >= 2 && Count(s) % 4 + PadsSince(s) >= 4 }

  /** What the decoder reads: the text up to its first complete group with padding, or all. */
  function ReadPart(s: string): string {
    if s == "" then ""
    else
      var before := ReadPart(s[..|s| - 1]);
      if Complete(before) then before else s
  }

  /** The whole bytes in n sextets. */
  function WholeBytes(n: nat): nat { n - (n + 3) / 4 }

  lemma OneMoreSextet(n: nat)
    ensures WholeBytes(n + 1) == WholeBytes(n) + if n % 4 == 0 then 0 else 1
    ensures (n + 1) % 4 == if n % 4 == 3 then 0 else n % 4 + 1
  {
    var q, r := n / 4, n % 4;
    assert n == 4 * q + r && (n + 3) / 4 == q + (if r == 0 then 0 else 1) && (n + 4) / 4 == q + 1;
  }

  /** The decoder, still reading, after n data characters and p pads since the last one. */
  predicate Reading(d: Decoder, n: nat, p: nat) {
    && d.Valid() && !d.ended && d.place == n % 4 && |d.out| == WholeBytes(n)
    && d.pads == (if d.place >= 2 then p else 0)
  }

  lemma ReadOne(d: Decoder, n: nat, p: nat, c: char)
    requires Reading(d, n, p)
    ensures var r := Feed(d, c);
      if DataChar(c) then Reading(r, n + 1, 0)
      else if c != '=' then Reading(r, n, p)
      else if n % 4 >= 2 && n % 4 + p + 1 >= 4 then r.ended && r.out == d.out
      else Reading(r, n, p + 1)
  {
    OneMoreSextet(n);
  }

  lemma FeedSnoc(s: string, c: char)
    ensures FeedAll(START, s + [c]) == Feed(FeedAll(START, s), c)
  {
    FeedConcat(START, s, [c]);
    assert [c][1..] == "";
  }

  lemma {:induction false} FeedReads(s: string)
    ensures var d, u := FeedAll(START, s), ReadPart(s);
      if Complete(u) then d.ended && |d.out| == WholeBytes(Count(u))
      else u == s && Reading(d, Count(s), PadsSince(s))
    decreases |s|
  {
    if s != "" {
      var before, c := s[..|s| - 1], s[|s| - 1];
      FeedReads(before);
      FeedSnoc(before, c);
      assert before + [c] == s;
      if !Complete(ReadPart(before)) {
        ReadOne(FeedAll(START, before), Count(before), PadsSince(before), c);
        CountsOfLast(s);
      }
    }
  }

  lemma CountsOfLast(s: string)
    requires s != ""
    ensures var before, c := s[..|s| - 1], s[|s| - 1];
      && Count(s) == Count(before) + (if DataChar(c) then 1 else 0)
      && PadsSince(s) == (if DataChar(c) then 0 else if c == '=' then PadsSince(before) + 1 else PadsSince(before))
      && (!Complete(ReadPart(before)) ==> ReadPart(s) == s)
  {
  }

  /** Every text decodes exactly when it is ASCII and its data characters, counted up to the
      first complete padding, make whole groups or that padding is there; they alone decide
      the length, everything else is ignored. */
  lemma DecodesExactly(s: string)
    ensures var u := ReadPart(s);
      && (Decode(s).Some? <==> Ascii(s) && (Count(u) % 4 == 0 || Complete(u)))
      && (Decode(s).Some? ==> |Decode(s).value| == WholeBytes(Count(u)))
  {
    FeedReads(s);
  }

  // ---------- Pads at the end only ----------

  lemma {:induction false} NoPadsSince(s: string)
    requires '=' !in s
    ensures PadsSince(s) == 0 && ReadPart(s) == s
  {
    if s != "" { NoPadsSince(s[..|s| - 1]); }
  }

  lemma {:induction false} CountPadded(s: string, k: nat)
    requires '=' !in s
    ensures Count(s + Pads(k)) == Count(s) && PadsSince(s + Pads(k)) == k
  {
    if k == 0 {
      assert s + Pads(0) == s;
      NoPadsSince(s);
    } else {
      CountPadded(s, k - 1);
      PadsSnoc(s, k);
    }
  }

  lemma PadsSnoc(s: string, k: nat)
    requires k > 0
    ensures var t := s + Pads(k);
      t[..|t| - 1] == s + Pads(k - 1) && t[|t| - 1] == '='
  {
  }

  /** n data characters make whole groups with p pads after them. */
  predicate PadsFit(n: nat, p: nat) { n % 4 == 0 || (n % 4 >= 2 && n % 4 + p >= 4) }

  lemma {:induction false} ReadPadded(s: string, k: nat)
    requires '=' !in s
    ensures var u := ReadPart(s + Pads(k));
      && Count(u) == Count(s)
      && (Complete(u) <==> Count(s) % 4 >= 2 && Count(s) % 4 + k >= 4)
  {
    CountPadded(s, k);
    if k == 0 {
      assert s + Pads(0) == s;
      NoPadsSince(s);
    } else {
      ReadPadded(s, k - 1);
      PadsSnoc(s, k);
    }
  }

  lemma AsciiPadded(s: string, k: nat)
    ensures Ascii(s + Pads(k)) <==> Ascii(s)
  {
    if Ascii(s + Pads(k)) {
      forall i | 0 <= i < |s| ensures s[i] as int < 0x80 { assert (s + Pads(k))[i] == s[i]; }
    }
  }

  // ---------- The packed record ----------

  const KEY_SIZE := 256
  const RECORD_SIZE := 271          // ">BI?256sQ?"
  const OLD_RECORD_SIZE := 263      // ">B?256sI?"
  const OLD_RECORD_SIZE_64 := 267   // ">B?256sQ?"
  const OLD_STRING_SIZE := 351
  const OLD_STRING_SIZE_64 := 356

  datatype Fields = Fields(dcId: int, apiId: int, testMode: bool, authKey: seq<Byte>, userId: int, isBot: bool)

  function Power256(width: nat): nat { if width == 0 then 1 else 256 * Power256(width - 1) }

  /** Big-endian, most significant byte first. */
  function PackInt(n: nat, width: nat): (bs: seq<Byte>)
    ensures |bs| == width
  {
    if width == 0 then [] else PackInt(n / 256, width - 1) + [n % 256]
  }

  function UnpackInt(bs: seq<Byte>): nat {
    if bs == [] then 0 else 256 * UnpackInt(bs[..|bs| - 1]) + bs[|bs| - 1]
  }

  lemma {:induction false} UnpackPackInt(n: nat, width: nat)
    requires n < Power256(width)
    ensures UnpackInt(PackInt(n, width)) == n
  {
    if width > 0 {
      UnpackPackInt(n / 256, width - 1);
      var bs := PackInt(n, width);
      assert bs[..|bs| - 1] == PackInt(n / 256, width - 1);
    }
  }

  function PackBool(b: bool): Byte { if b then 1 else 0 }

  /** Zeros up to 256 bytes, or the first 256. */
  function FitKey(key: seq<Byte>): (k: seq<Byte>)
    ensures |k| == KEY_SIZE
  {
    if |key| < KEY_SIZE then key + seq(KEY_SIZE - |key|, i => 0) else key[..KEY_SIZE]
  }

  /** What `struct.pack` demands of the numbers. */
  predicate InRange(f: Fields) {
    0 <= f.dcId < Power256(1) && 0 <= f.apiId < Power256(4) && 0 <= f.userId < Power256(8)
  }

  function Pack(f: Fields): (bs: seq<Byte>)
    requires InRange(f) && |f.authKey| == KEY_SIZE
    ensures |bs| == RECORD_SIZE
  {
    PackInt(f.dcId, 1) + PackInt(f.apiId, 4) + [PackBool(f.testMode)] + f.authKey + PackInt(f.userId, 8) + [PackBool(f.isBot)]
  }

  /** `struct.unpack` of the current format. */
  function Unpack(bs: seq<Byte>): Option<Fields> {
    if |bs| != RECORD_SIZE then None
    else Some(Fields(UnpackInt(bs[..1]), UnpackInt(bs[1..5]), bs[5] != 0, bs[6..262], UnpackInt(bs[262..270]), bs[270] != 0))
  }

  /** The layout of the current record, byte by byte: data centre, API id, test mode, key, user
      id and bot flag, numbers with their most significant byte first. */
  lemma PackExact(f: Fields)
    requires InRange(f) && |f.authKey| == KEY_SIZE
    ensures var bs := Pack(f);
      && |bs| == 271 && bs[0] == f.dcId
      && BigEndian(bs[1], bs[2], bs[3], bs[4]) == f.apiId
      && bs[5] == (if f.testMode then 1 else 0) && bs[6..262] == f.authKey
      && UnpackInt(bs[262..270]) == f.userId && bs[270] == (if f.isBot then 1 else 0)
  {
    UnpackPack(f);
    var bs := Pack(f);
    FourBytes(bs[1..5]);
    assert UnpackInt(bs[..1]) == bs[0] && UnpackInt(bs[1..5]) == f.apiId;
    assert bs[6..262] == f.authKey && UnpackInt(bs[262..270]) == f.userId;
  }

  function BigEndian(a: int, b: int, c: int, d: int): int { ((a * 256 + b) * 256 + c) * 256 + d }

  lemma FourBytes(bs: seq<Byte>)
    requires |bs| == 4
    ensures UnpackInt(bs) == BigEndian(bs[0], bs[1], bs[2], bs[3])
  {
    assert bs[..3][..2] == bs[..2] && bs[..2][..1] == bs[..1] && bs[..1][..0] == [];
    assert UnpackInt(bs[..1]) == bs[0];
    assert UnpackInt(bs[..2]) == 256 * UnpackInt(bs[..1]) + bs[1];
    assert UnpackInt(bs[..3]) == 256 * UnpackInt(bs[..2]) + bs[2];
  }

  lemma UnpackPack(f: Fields)
    requires InRange(f) && |f.authKey| == KEY_SIZE
    ensures Unpack(Pack(f)) == Some(f)
  {
    var bs := Pack(f);
    assert bs[..1] == PackInt(f.dcId, 1);
    assert bs[1..5] == PackInt(f.apiId, 4);
    assert bs[6..262] == f.authKey;
    assert bs[262..270] == PackInt(f.userId, 8);
    UnpackPackInt(f.dcId, 1);
    UnpackPackInt(f.apiId, 4);
    UnpackPackInt(f.userId, 8);
  }

  // ---------- Validity and export ----------

  function RecordSizeFor(length: nat): nat {
    if length == OLD_STRING_SIZE then OLD_RECORD_SIZE
    else if length == OLD_STRING_SIZE_64 then OLD_RECORD_SIZE_64
    else RECORD_SIZE
  }

  /** `is_valid_session_string` on text. */
  predicate IsValid(text: string) {
    var s := Strip(text);
    var decoded := Decode(Padded(s));
    s != "" && decoded.Some? && |decoded.value| == RecordSizeFor(|s|)
  }

  /** `_export_session_string_from_file` after the row was read; `apiId` is 0 where the file
      has none. */
  function Export(row: Fields): Option<string> {
    if row.authKey == [] || row.userId == 0 then None
    else if !InRange(row) then None
    else
      var s := StripPads(Encode(Pack(row.(authKey := FitKey(row.authKey)))));
      if IsValid(s) then Some(s) else None
  }

  // ---------- Main results ----------

  lemma DataStays(s: string)
    requires Data(s)
    ensures Strip(s) == s
  {
    if s != "" {
      assert DataChar(s[0]) && DataChar(s[|s| - 1]);
    }
  }

  lemma {:induction false} CountOfData(s: string)
    requires Data(s)
    ensures Count(s) == |s|
  {
    if s != "" { CountOfData(s[..|s| - 1]); }
  }

  /** Every text is valid exactly when, trimmed and padded for its length, it is ASCII and the
      data characters that are read make the record its length selects. */
  lemma ValidExact(text: string)
    ensures var s := Strip(text);
      var u := ReadPart(Padded(s));
      IsValid(text) <==> s != "" && Ascii(s) && (Count(u) % 4 == 0 || Complete(u)) && WholeBytes(Count(u)) == RecordSizeFor(|s|)
  {
    TrimmedExact(text, Strip(text), Padded(Strip(text)));
  }

  lemma TrimmedExact(text: string, s: string, padded: string)
    requires s == Strip(text) && padded == Padded(s)
    ensures var u := ReadPart(padded);
      IsValid(text) <==> s != "" && Ascii(s) && (Count(u) % 4 == 0 || Complete(u)) && WholeBytes(Count(u)) == RecordSizeFor(|s|)
  {
    DecodesExactly(padded);
    AsciiPadded(s, Adds(|s|));
  }

  lemma PadsTwice(s: string, k: nat, m: nat)
    ensures s + Pads(k) + Pads(m) == s + Pads(k + m)
  {
  }

  /** With pads at its end only, its own and the added ones count alike, but its own count for
      its length as well. */
  lemma ValidPadded(t: string, s: string, k: nat)
    requires t == s + Pads(k) && '=' !in s && Strip(t) == t != ""
    ensures IsValid(t) <==> Ascii(s) && PadsFit(Count(s), k + Adds(|t|)) && WholeBytes(Count(s)) == RecordSizeFor(|t|)
  {
    PadsTwice(s, k, Adds(|t|));
    TrimmedExact(t, t, s + Pads(k + Adds(|t|)));
    AsciiPadded(s, k);
    ReadPadded(s, k + Adds(|t|));
  }

  /** So a text of base64url characters alone is valid exactly at the three known lengths. */
  lemma ValidLengths(s: string)
    requires Data(s)
    ensures IsValid(s) <==> |s| == 362 || |s| == OLD_STRING_SIZE || |s| == OLD_STRING_SIZE_64
  {
    if s == "" { return; }
    DataIsAscii(s);
    DataStays(s);
    CountOfData(s);
    assert s + Pads(0) == s;
    ValidPadded(s, s, 0);
  }

  lemma PaddedStays(s: string, k: nat)
    requires Data(s)
    ensures Strip(s + Pads(k)) == s + Pads(k)
  {
    var t := s + Pads(k);
    if t != "" {
      assert DataChar(t[0]) || t[0] == '=';
      assert DataChar(t[|t| - 1]) || t[|t| - 1] == '=';
    }
  }

  /** With any padding of its own it is valid exactly at the current length: a legacy string
      with its padding is refused. */
  lemma PaddedLengths(s: string, k: nat)
    requires Data(s) && k > 0
    ensures IsValid(s + Pads(k)) <==> |s| == 362
  {
    DataIsAscii(s);
    PaddedStays(s, k);
    CountOfData(s);
    ValidPadded(s + Pads(k), s, k);
  }

  /** Export succeeds exactly when key and user are there and the numbers are in range: the
      final check never refuses what was packed. */
  lemma ExportExact(row: Fields)
    ensures Export(row).Some? <==> row.authKey != [] && row.userId != 0 && InRange(row)
  {
    if row.authKey != [] && row.userId != 0 && InRange(row) {
      var bs := Pack(row.(authKey := FitKey(row.authKey)));
      StripEncoded(bs);
      UnpaddedIsData(bs);
      ValidLengths(Unpadded(bs));
    }
  }

  /** The exported string decodes to the same fields, the key padded or cut to 256 bytes; it
      is 362 base64url characters long, never of a legacy length. */
  lemma ExportRoundTrip(row: Fields)
    requires Export(row).Some?
    ensures var s := Export(row).value;
      && IsValid(s) && Data(s) && |s| == 362
      && Decode(Padded(s)).Some?
      && Unpack(Decode(Padded(s)).value) == Some(row.(authKey := FitKey(row.authKey)))
  {
    var f := row.(authKey := FitKey(row.authKey));
    StripPadInverts(Pack(f));
    StripEncoded(Pack(f));
    UnpaddedIsData(Pack(f));
    UnpackPack(f);
  }

  /** A version prefix of one character, as other libraries write it, is refused, before the
      current and before both legacy lengths. */
  lemma PrefixedIsRefused(s: string, prefix: char)
    requires Data(s) && DataChar(prefix) && (|s| == 362 || |s| == OLD_STRING_SIZE || |s| == OLD_STRING_SIZE_64)
    ensures !IsValid([prefix] + s)
  {
    assert Data([prefix] + s);
    ValidLengths([prefix] + s);
  }

  /** Truncation is noticed except at exactly two lengths, where the rest looks like a legacy
      string. */
  lemma TruncationExact(row: Fields, n: nat)
    requires Export(row).Some? && n < |Export(row).value|
    ensures IsValid(Export(row).value[..n]) <==> n == OLD_STRING_SIZE || n == OLD_STRING_SIZE_64
  {
    ExportRoundTrip(row);
    ValidLengths(Export(row).value[..n]);
  }
}
