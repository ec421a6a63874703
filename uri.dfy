/**
 * UTF-8 and the percent-encoding of ECMAScript's `encodeURIComponent` and
 * `decodeURIComponent` (section 19.2.6 of ECMA-262), on Dafny strings.
 * Dafny strings hold Unicode scalar values only, so the lone-surrogate
 * URIError of `encodeURIComponent` cannot arise here.
 */
module Uri {
  import opened Wrappers

  type Byte = b: int | 0 <= b < 256

  predicate IsContinuation(b: int) {
    0x80 <= b < 0xC0
  }

  /** The UTF-8 encoding of one scalar value. */
  function Utf8(c: char): (bs: seq<Byte>)
    ensures 1 <= |bs| <= 4
    ensures |bs| == 1 <==> c as int < 0x80
    ensures forall k :: 1 <= k < |bs| ==> IsContinuation(bs[k])
  {
    var n := c as int;
    if n < 0x80 then [n]
    else if n < 0x800 then [0xC0 + n / 64, 0x80 + n % 64]
    else if n < 0x10000 then [0xE0 + n / 64 / 64, 0x80 + (n / 64) % 64, 0x80 + n % 64]
    else [0xF0 + n / 64 / 64 / 64, 0x80 + (n / 64 / 64) % 64, 0x80 + (n / 64) % 64, 0x80 + n % 64]
  }

  predicate IsHexDigit(c: char) {
    ('0' <= c <= '9') || ('A' <= c <= 'F') || ('a' <= c <= 'f')
  }

  function HexValue(c: char): (d: nat)
    requires IsHexDigit(c)
    ensures d < 16
  {
    if '0' <= c <= '9' then c as int - '0' as int
    else if 'A' <= c <= 'F' then c as int - 'A' as int + 10
    else c as int - 'a' as int + 10
  }

  /** The upper-case hexadecimal digit for `d`. */
  function HexDigit(d: nat): (c: char)
    requires d < 16
    ensures IsHexDigit(c) && HexValue(c) == d
    ensures !('a' <= c <= 'f')
  {
    if d < 10 then (d + '0' as int) as char else (d - 10 + 'A' as int) as char
  }

  /** `%XY` with upper-case hexadecimal digits. */
  function Triplet(b: Byte): (t: string)
    ensures |t| == 3 && t[0] == '%' && IsHexDigit(t[1]) && IsHexDigit(t[2])
    ensures 16 * HexValue(t[1]) + HexValue(t[2]) == b
  {
    "%" + [HexDigit(b / 16), HexDigit(b % 16)]
  }

  /** Each byte written as a triplet. */
  function Percent(bs: seq<Byte>): (t: string)
    ensures |t| == 3 * |bs|
  {
    if bs == [] then "" else Triplet(bs[0]) + Percent(bs[1..])
  }

  /** The characters `encodeURIComponent` leaves as they are. */
  predicate IsUriUnreserved(c: char) {
    || ('A' <= c <= 'Z') || ('a' <= c <= 'z') || ('0' <= c <= '9')
    || c == '-' || c == '_' || c == '.' || c == '!' || c == '~'
    || c == '*' || c == '\'' || c == '(' || c == ')'
  }

  function EncodeChar(c: char): string {
    if IsUriUnreserved(c) then [c] else Percent(Utf8(c))
  }

  /** `encodeURIComponent(s)`. */
  function EncodeURIComponent(s: string): (r: string)
    ensures |r| >= |s|
  {
    if s == [] then "" else EncodeChar(s[0]) + EncodeURIComponent(s[1..])
  }

  /** The byte written as `%XY` (digits of either case) at the start of `s`. */
  function ByteAt(s: string): (b: Option<Byte>)
    ensures b.Some? ==> |s| >= 3
  {
    if |s| >= 3 && s[0] == '%' && IsHexDigit(s[1]) && IsHexDigit(s[2])
    then Some(16 * HexValue(s[1]) + HexValue(s[2]))
    else None
  }

  /** How many bytes a UTF-8 sequence led by `b` has; 0 when `b` cannot lead one. */
  function SequenceLength(b: Byte): (n: nat)
    ensures n <= 4
  {
    if b < 0x80 then 1
    else if 0xC0 <= b < 0xE0 then 2
    else if 0xE0 <= b < 0xF0 then 3
    else if 0xF0 <= b < 0xF8 then 4
    else 0
  }

  /** `count` more `%XY` bytes at the start of `s`, each a continuation byte. */
  function Continuations(s: string, count: nat): (r: Option<seq<Byte>>)
    ensures r.Some? ==> |r.value| == count && |s| >= 3 * count
    decreases count
  {
    if count == 0 then Some([])
    else
      match ByteAt(s)
      case None => None
      case Some(b) =>
        match Continuations(s[3..], count - 1)
        case None => None
        case Some(more) => if IsContinuation(b) then Some([b] + more) else None
  }

  /** The scalar value a 1- to 4-byte sequence spells, ignoring validity. */
  function CodePoint(bs: seq<Byte>): int
    requires 1 <= |bs| <= 4
  {
    var b0: int, rest := bs[0], seq(|bs| - 1, k requires 0 <= k < |bs| - 1 => bs[k + 1] as int - 0x80);
    if |bs| == 1 then b0
    else if |bs| == 2 then (b0 - 0xC0) * 64 + rest[0]
    else if |bs| == 3 then ((b0 - 0xE0) * 64 + rest[0]) * 64 + rest[1]
    else (((b0 - 0xF0) * 64 + rest[0]) * 64 + rest[1]) * 64 + rest[2]
  }

  /** An `n`-byte sequence spelling `cp` is the shortest one, and `cp` is a scalar value. */
  predicate WellFormedScalar(cp: int, n: nat) {
    || (n == 1 && 0 <= cp < 0x80)
    || (n == 2 && 0x80 <= cp < 0x800)
    || (n == 3 && 0x800 <= cp < 0x10000 && !(0xD800 <= cp < 0xE000))
    || (n == 4 && 0x10000 <= cp < 0x110000)
  }

  function Prepend(c: char, rest: Option<string>): (r: Option<string>)
    ensures r.Some? <==> rest.Some?
    ensures r.Some? ==> r.value == [c] + rest.value
  {
    match rest
    case None => None
    case Some(t) => Some([c] + t)
  }

  /** `decodeURIComponent(s)`; `None` is the URIError it throws on a
      malformed escape or an invalid UTF-8 sequence. */
  function DecodeURIComponent(s: string): (r: Option<string>)
    ensures r.Some? ==> |r.value| <= |s|
    decreases |s|
  {
    if s == [] then Some([])
    else if s[0] != '%' then Prepend(s[0], DecodeURIComponent(s[1..]))
    else
      match ByteAt(s)
      case None => None
      case Some(b) =>
        var n := SequenceLength(b);
        if n == 0 then None
        else
          match Continuations(s[3..], n - 1)
          case None => None
          case Some(more) =>
            var cp := CodePoint([b] + more);
            if !WellFormedScalar(cp, n) then None
            else Prepend(cp as char, DecodeURIComponent(s[3 * n..]))
  }

  lemma ByteAtTriplet(b: Byte, rest: string)
    ensures ByteAt(Triplet(b) + rest) == Some(b)
  {
    var t := Triplet(b) + rest;
    assert t[0] == '%' && t[1] == Triplet(b)[1] && t[2] == Triplet(b)[2];
  }

  lemma {:induction false} ContinuationsOfPercent(bs: seq<Byte>, rest: string)
    requires forall k :: 0 <= k < |bs| ==> IsContinuation(bs[k])
    ensures Continuations(Percent(bs) + rest, |bs|) == Some(bs)
  {
    if bs != [] {
      var s := Percent(bs) + rest;
      assert s == Triplet(bs[0]) + (Percent(bs[1..]) + rest);
      ByteAtTriplet(bs[0], Percent(bs[1..]) + rest);
      assert s[3..] == Percent(bs[1..]) + rest;
      ContinuationsOfPercent(bs[1..], rest);
      assert [bs[0]] + bs[1..] == bs;
    }
  }

  /** The bytes of `Utf8(c)` spell `c`, in the shortest form. */
  lemma CodePointOfUtf8(c: char)
    ensures CodePoint(Utf8(c)) == c as int
    ensures WellFormedScalar(c as int, |Utf8(c)|)
    ensures SequenceLength(Utf8(c)[0]) == |Utf8(c)|
  {
    var n := c as int;
    var q1 := n / 64;
    var q2 := q1 / 64;
    var q3 := q2 / 64;
    assert n == q1 * 64 + n % 64;
    assert q1 == q2 * 64 + q1 % 64;
    assert q2 == q3 * 64 + q2 % 64;
  }

  lemma DecodePercentUtf8(c: char, rest: string)
    ensures DecodeURIComponent(Percent(Utf8(c)) + rest) == Prepend(c, DecodeURIComponent(rest))
  {
    var bs := Utf8(c);
    var s := Percent(bs) + rest;
    assert s == Triplet(bs[0]) + (Percent(bs[1..]) + rest);
    ByteAtTriplet(bs[0], Percent(bs[1..]) + rest);
    assert s[3..] == Percent(bs[1..]) + rest;
    ContinuationsOfPercent(bs[1..], rest);
    CodePointOfUtf8(c);
    assert [bs[0]] + bs[1..] == bs;
    assert s[3 * |bs|..] == rest;
    assert s[0] == '%' && ByteAt(s) == Some(bs[0]) && SequenceLength(bs[0]) == |bs|;
    assert Continuations(s[3..], |bs| - 1) == Some(bs[1..]);
    assert CodePoint([bs[0]] + bs[1..]) == c as int;
  }

  /** Decoding undoes encoding, for every string. */
  lemma {:induction false} DecodeEncode(s: string)
    ensures DecodeURIComponent(EncodeURIComponent(s)) == Some(s)
  {
    if s != [] {
      var c := s[0];
      var tail := EncodeURIComponent(s[1..]);
      DecodeEncode(s[1..]);
      if IsUriUnreserved(c) {
        assert ([c] + tail)[1..] == tail;
      } else {
        DecodePercentUtf8(c, tail);
      }
      assert [c] + s[1..] == s;
    }
  }

  /** A character `encodeURIComponent` can write. */
  predicate IsUriOutput(c: char) {
    IsUriUnreserved(c) || c == '%' || IsHexDigit(c)
  }

  lemma {:induction false} PercentOutput(bs: seq<Byte>)
    ensures forall k :: 0 <= k < |Percent(bs)| ==> IsUriOutput(Percent(bs)[k])
  {
    if bs != [] {
      PercentOutput(bs[1..]);
      var t := Percent(bs);
      forall k | 3 <= k < |t|
        ensures IsUriOutput(t[k])
      {
        assert t[k] == Percent(bs[1..])[k - 3];
      }
    }
  }

  /** The encoding is no shorter than the text and uses only unreserved
      characters, `%` and hexadecimal digits. */
  lemma {:induction false} EncodedOutput(s: string)
    ensures |EncodeURIComponent(s)| >= |s|
    ensures forall k :: 0 <= k < |EncodeURIComponent(s)| ==> IsUriOutput(EncodeURIComponent(s)[k])
  {
    if s != [] {
      EncodedOutput(s[1..]);
      var head, tail := EncodeChar(s[0]), EncodeURIComponent(s[1..]);
      if !IsUriUnreserved(s[0]) {
        PercentOutput(Utf8(s[0]));
      }
      assert |head| >= 1;
      forall k | 0 <= k < |head + tail|
        ensures IsUriOutput((head + tail)[k])
      {
        if k >= |head| {
          assert (head + tail)[k] == tail[k - |head|];
        }
      }
    }
  }
}
