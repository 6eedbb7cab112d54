/** Percent-encoding as the two runtimes do it: JavaScript's
    encodeURIComponent / decodeURIComponent (used by the store's query builder
    and by getCookie) and Python's urllib.parse.quote_plus (used by urlencode
    in the geojson view). Characters are Unicode scalar values; every other
    character is written as the %XX escapes of its UTF-8 bytes. */
module Uri {
  import opened Wrappers
  import opened Text

  /** The characters encodeURIComponent leaves unescaped. */
  predicate IsUriUnreserved(c: char) {
    ('A' <= c <= 'Z') || ('a' <= c <= 'z') || ('0' <= c <= '9')
    || c == '-' || c == '_' || c == '.' || c == '!' || c == '~'
    || c == '*' || c == '\'' || c == '(' || c == ')'
  }

  function HexDigit(d: nat): (c: char)
    requires d < 16
    ensures IsUriUnreserved(c)
  {
    if d < 10 then DigitChar(d) else (('A' as int) + d - 10) as char
  }

  function HexValue(c: char): (v: Option<nat>)
    ensures v.Some? ==> v.value < 16
  {
    if '0' <= c <= '9' then Some(c as int - '0' as int)
    else if 'A' <= c <= 'F' then Some(c as int - 'A' as int + 10)
    else if 'a' <= c <= 'f' then Some(c as int - 'a' as int + 10)
    else None
  }

  /** "%HH" for one byte, upper-case hex as both runtimes write it. */
  function Escape(b: nat): (e: string)
    requires b < 256
    ensures |e| == 3 && e[0] == '%'
  {
    ['%', HexDigit(b / 16), HexDigit(b % 16)]
  }

  predicate IsByteSeq(bs: seq<nat>) {
    forall k :: 0 <= k < |bs| ==> bs[k] < 256
  }

  /** The UTF-8 bytes of one Unicode scalar value. */
  function Utf8(c: char): (bs: seq<nat>)
    ensures 1 <= |bs| <= 4 && IsByteSeq(bs)
  {
    var cp := c as int;
    if cp < 0x80 then [cp]
    else if cp < 0x800 then [0xC0 + cp / 64, 0x80 + cp % 64]
    else if cp < 0x10000 then [0xE0 + cp / 64 / 64, 0x80 + (cp / 64) % 64, 0x80 + cp % 64]
    else [0xF0 + cp / 64 / 64 / 64, 0x80 + (cp / 64 / 64) % 64, 0x80 + (cp / 64) % 64, 0x80 + cp % 64]
  }

  function EscapeBytes(bs: seq<nat>): (e: string)
    requires IsByteSeq(bs)
    ensures |e| == 3 * |bs|
    ensures forall i :: 0 <= i < |e| ==> IsUriUnreserved(e[i]) || e[i] == '%'
    decreases |bs|
  {
    if bs == [] then "" else Escape(bs[0]) + EscapeBytes(bs[1..])
  }

  function EncodeChar(c: char): (e: string)
    ensures forall i :: 0 <= i < |e| ==> IsUriUnreserved(e[i]) || e[i] == '%'
  {
    if IsUriUnreserved(c) then [c] else EscapeBytes(Utf8(c))
  }

  /** encodeURIComponent: the result is made only of unreserved characters
      and '%', so it never holds '&', '=', ';' or a space. */
  function EncodeURIComponent(s: string): (r: string)
    ensures forall i :: 0 <= i < |r| ==> IsUriUnreserved(r[i]) || r[i] == '%'
    decreases |s|
  {
    if s == [] then "" else EncodeChar(s[0]) + EncodeURIComponent(s[1..])
  }

  /** The byte written by a "%HH" escape at the head of s, if there is one. */
  function EscapedByte(s: string): (b: Option<nat>)
    ensures b.Some? ==> |s| >= 3 && b.value < 256
  {
    if |s| >= 3 && s[0] == '%' then
      match (HexValue(s[1]), HexValue(s[2]))
      case (Some(h), Some(l)) => Some(h * 16 + l)
      case _ => None
    else None
  }

  /** How many bytes a UTF-8 sequence with lead byte b has; 0 when no
      sequence can start with b (a continuation byte or 0xF8 and above). */
  function LeadLength(b: nat): nat {
    if b < 0x80 then 1
    else if b < 0xC0 then 0
    else if b < 0xE0 then 2
    else if b < 0xF0 then 3
    else if b < 0xF8 then 4
    else 0
  }

  predicate IsContinuation(b: nat) {
    0x80 <= b < 0xC0
  }

  /** Reads k escapes of continuation bytes; returns the bytes and what follows. */
  function ContinuationBytes(s: string, k: nat): (r: Option<(seq<nat>, string)>)
    ensures r.Some? ==> |r.value.0| == k && |r.value.1| == |s| - 3 * k
    ensures r.Some? ==> forall j :: 0 <= j < k ==> IsContinuation(r.value.0[j])
    decreases k
  {
    if k == 0 then Some(([], s))
    else
      match EscapedByte(s)
      case None => None
      case Some(b) =>
        if !IsContinuation(b) then None
        else
          match ContinuationBytes(s[3..], k - 1)
          case None => None
          case Some(more) => Some(([b] + more.0, more.1))
  }

  /** The scalar value a lead byte and its continuation bytes spell. */
  function CodePoint(lead: nat, conts: seq<nat>): int
    requires 1 <= |conts| <= 3
  {
    var l: int := lead;
    if |conts| == 1 then (l - 0xC0) * 64 + (conts[0] as int - 0x80)
    else if |conts| == 2 then (l - 0xE0) * 4096 + (conts[0] as int - 0x80) * 64 + (conts[1] as int - 0x80)
    else (l - 0xF0) * 262144 + (conts[0] as int - 0x80) * 4096 + (conts[1] as int - 0x80) * 64 + (conts[2] as int - 0x80)
  }

  /** UTF-8 validity of an n-byte sequence's value: not overlong, not a
      surrogate, not beyond U+10FFFF. */
  predicate ValidCodePoint(n: nat, cp: int) {
    if n == 2 then 0x80 <= cp < 0x800
    else if n == 3 then 0x800 <= cp < 0x10000 && !(0xD800 <= cp < 0xE000)
    else n == 4 && 0x10000 <= cp < 0x110000
  }

  function Prepend(c: char, r: Option<string>): Option<string> {
    match r
    case Some(t) => Some([c] + t)
    case None => None
  }

  /** decodeURIComponent; None stands for the URIError it throws on a
      malformed escape or an invalid UTF-8 sequence. */
  function DecodeURIComponent(s: string): Option<string>
    decreases |s|
  {
    if s == [] then Some("")
    else if s[0] != '%' then Prepend(s[0], DecodeURIComponent(s[1..]))
    else
      match DecodeEscape(s)
      case None => None
      case Some(read) => Prepend(read.0, DecodeURIComponent(read.1))
  }

  /** The character spelled by the escapes at the head of s (one to four of
      them, as the first byte announces) and the text after them; None when
      the escapes are malformed or the bytes are not valid UTF-8. */
  function DecodeEscape(s: string): (r: Option<(char, string)>)
    ensures r.Some? ==> |r.value.1| < |s|
  {
    match EscapedByte(s)
    case None => None
    case Some(b) =>
      var n := LeadLength(b);
      if n == 0 then None
      else if n == 1 then Some((b as char, s[3..]))
      else
        match ContinuationBytes(s[3..], n - 1)
        case None => None
        case Some(read) =>
          var cp := CodePoint(b, read.0);
          if ValidCodePoint(n, cp) then Some((cp as char, read.1)) else None
  }

  lemma HexRoundTrip(d: nat)
    requires d < 16
    ensures HexValue(HexDigit(d)) == Some(d)
  {
  }

  lemma EscapedByteOfEscape(b: nat, rest: string)
    requires b < 256
    ensures EscapedByte(Escape(b) + rest) == Some(b)
    ensures (Escape(b) + rest)[3..] == rest
  {
    HexRoundTrip(b / 16);
    HexRoundTrip(b % 16);
  }

  lemma {:induction false} ContinuationOfEscapes(bs: seq<nat>, rest: string)
    requires IsByteSeq(bs)
    requires forall j :: 0 <= j < |bs| ==> IsContinuation(bs[j])
    ensures ContinuationBytes(EscapeBytes(bs) + rest, |bs|) == Some((bs, rest))
    decreases |bs|
  {
    if bs != [] {
      var s := EscapeBytes(bs) + rest;
      var tail := EscapeBytes(bs[1..]) + rest;
      assert s == Escape(bs[0]) + tail;
      EscapedByteOfEscape(bs[0], tail);
      assert EscapedByte(s) == Some(bs[0]) && s[3..] == tail;
      ContinuationOfEscapes(bs[1..], rest);
      assert ContinuationBytes(tail, |bs| - 1) == Some((bs[1..], rest));
      assert IsContinuation(bs[0]);
      assert ContinuationBytes(s, |bs|) == Some(([bs[0]] + bs[1..], rest));
      assert [bs[0]] + bs[1..] == bs;
    } else {
      assert EscapeBytes(bs) + rest == rest;
    }
  }

  /** The UTF-8 bytes of c announce their own length and spell c back. */
  lemma Utf8Decodes(c: char)
    ensures var bs := Utf8(c);
      LeadLength(bs[0]) == |bs|
      && (forall j :: 1 <= j < |bs| ==> IsContinuation(bs[j]))
      && (|bs| == 1 ==> bs[0] == c as int)
      && (|bs| > 1 ==> CodePoint(bs[0], bs[1..]) == c as int && ValidCodePoint(|bs|, c as int))
  {
    var cp := c as int;
    var bs := Utf8(c);
    if cp >= 0x10000 {
      FourBytes(cp);
      assert bs[1..] == [bs[1], bs[2], bs[3]];
    } else if cp >= 0x800 {
      ThreeBytes(cp);
      assert bs[1..] == [bs[1], bs[2]];
    } else if cp >= 0x80 {
      TwoBytes(cp);
      assert bs[1..] == [bs[1]];
    }
  }

  lemma TwoBytes(cp: int)
    requires 0x80 <= cp < 0x800
    ensures LeadLength(0xC0 + cp / 64) == 2 && IsContinuation(0x80 + cp % 64)
    ensures CodePoint(0xC0 + cp / 64, [0x80 + cp % 64]) == cp
  {
  }

  lemma ThreeBytes(cp: int)
    requires 0x800 <= cp < 0x10000
    ensures LeadLength(0xE0 + cp / 64 / 64) == 3
    ensures IsContinuation(0x80 + (cp / 64) % 64) && IsContinuation(0x80 + cp % 64)
    ensures CodePoint(0xE0 + cp / 64 / 64, [0x80 + (cp / 64) % 64, 0x80 + cp % 64]) == cp
    ensures ValidCodePoint(3, cp) <==> !(0xD800 <= cp < 0xE000)
  {
    var q1 := cp / 64;
    assert cp == q1 * 64 + cp % 64;
    assert q1 == (q1 / 64) * 64 + q1 % 64;
  }

  lemma FourBytes(cp: int)
    requires 0x10000 <= cp < 0x110000
    ensures LeadLength(0xF0 + cp / 64 / 64 / 64) == 4
    ensures IsContinuation(0x80 + (cp / 64 / 64) % 64) && IsContinuation(0x80 + (cp / 64) % 64)
    ensures IsContinuation(0x80 + cp % 64)
    ensures CodePoint(0xF0 + cp / 64 / 64 / 64, [0x80 + (cp / 64 / 64) % 64, 0x80 + (cp / 64) % 64, 0x80 + cp % 64]) == cp
  {
    var q1 := cp / 64;
    var q2 := q1 / 64;
    assert cp == q1 * 64 + cp % 64;
    assert q1 == q2 * 64 + q1 % 64;
    assert q2 == (q2 / 64) * 64 + q2 % 64;
  }

  lemma DecodeUtf8Escapes(c: char, rest: string)
    ensures DecodeURIComponent(EscapeBytes(Utf8(c)) + rest) == Prepend(c, DecodeURIComponent(rest))
  {
    var bs := Utf8(c);
    Utf8Decodes(c);
    var s := EscapeBytes(bs) + rest;
    var tail := EscapeBytes(bs[1..]) + rest;
    assert s == Escape(bs[0]) + tail;
    EscapedByteOfEscape(bs[0], tail);
    assert s[0] == '%' && EscapedByte(s) == Some(bs[0]) && s[3..] == tail;
    if |bs| == 1 {
      assert tail == rest;
      SingleByteEscape(s, bs[0], c);
    } else {
      ContinuationOfEscapes(bs[1..], rest);
      MultiByteEscape(s, bs[0], bs[1..], rest, c);
    }
  }

  lemma SingleByteEscape(s: string, b: nat, c: char)
    requires EscapedByte(s) == Some(b) && LeadLength(b) == 1 && b == c as int
    ensures DecodeEscape(s) == Some((c, s[3..]))
  {
  }

  lemma MultiByteEscape(s: string, b: nat, conts: seq<nat>, rest: string, c: char)
    requires EscapedByte(s) == Some(b)
    requires 1 <= |conts| <= 3 && LeadLength(b) == |conts| + 1
    requires ContinuationBytes(s[3..], |conts|) == Some((conts, rest))
    requires CodePoint(b, conts) == c as int && ValidCodePoint(|conts| + 1, c as int)
    ensures DecodeEscape(s) == Some((c, rest))
  {
    var n := LeadLength(b);
    assert ContinuationBytes(s[3..], n - 1) == Some((conts, rest));
    assert ValidCodePoint(n, CodePoint(b, conts));
  }

  lemma DecodeEncodeChar(c: char, rest: string)
    ensures DecodeURIComponent(EncodeChar(c) + rest) == Prepend(c, DecodeURIComponent(rest))
  {
    if IsUriUnreserved(c) {
      assert ([c] + rest)[1..] == rest;
    } else {
      DecodeUtf8Escapes(c, rest);
    }
  }

  /** decodeURIComponent undoes encodeURIComponent on every string. */
  lemma {:induction false} DecodeEncode(s: string)
    ensures DecodeURIComponent(EncodeURIComponent(s)) == Some(s)
    decreases |s|
  {
    if s != [] {
      DecodeEncodeChar(s[0], EncodeURIComponent(s[1..]));
      DecodeEncode(s[1..]);
      assert [s[0]] + s[1..] == s;
    }
  }

  /** The characters Python's quote_plus never escapes. */
  predicate IsPySafe(c: char) {
    ('A' <= c <= 'Z') || ('a' <= c <= 'z') || ('0' <= c <= '9')
    || c == '_' || c == '.' || c == '-' || c == '~'
  }

  function QuotePlusChar(c: char): (e: string)
    ensures forall i :: 0 <= i < |e| ==> IsUriUnreserved(e[i]) || e[i] == '%' || e[i] == '+'
  {
    if IsPySafe(c) then [c] else if c == ' ' then "+" else EscapeBytes(Utf8(c))
  }

  /** urllib.parse.quote_plus with safe='': never writes '&' or '='. */
  function QuotePlus(s: string): (r: string)
    ensures forall i :: 0 <= i < |r| ==> IsUriUnreserved(r[i]) || r[i] == '%' || r[i] == '+'
    decreases |s|
  {
    if s == [] then "" else QuotePlusChar(s[0]) + QuotePlus(s[1..])
  }
}
