/**
 * src/utils/filename.ts: the stored-key sanitiser, the default display
 * name, and the `ext-value` encoder for `Content-Disposition`.
 */
module Filename {
  import opened JsString
  import opened Wrappers
  import opened Uri

  /** The class `[a-zA-Z0-9._-]` the sanitiser keeps. */
  predicate IsSafeFilenameChar(c: char) {
    ('a' <= c <= 'z') || ('A' <= c <= 'Z') || ('0' <= c <= '9') || c == '.' || c == '_' || c == '-'
  }

  predicate AllSafe(s: string) {
    forall k :: 0 <= k < |s| ==> IsSafeFilenameChar(s[k])
  }

  /** What the global replacement makes of one character.  The regular
      expression has no `u` flag, so it matches UTF-16 code units: a
      character outside the Basic Multilingual Plane is two units and
      becomes two underscores. */
  function SanitizeChar(c: char): (r: string)
    ensures Utf16Length(r) == Utf16Length([c])
    ensures AllSafe(r)
  {
    if IsSafeFilenameChar(c) then [c] else if c as int > 0xFFFF then "__" else "_"
  }

  /** `name.replace(/[^a-zA-Z0-9._-]/g, '_')`. */
  function SanitizeFilename(name: string): (r: string)
    ensures Utf16Length(r) == Utf16Length(name)
    ensures AllSafe(r)
    ensures '/' !in r && '\\' !in r
  {
    if name == [] then []
    else
      var head, tail := SanitizeChar(name[0]), SanitizeFilename(name[1..]);
      Utf16LengthAppend(head, tail);
      Utf16LengthAppend([name[0]], name[1..]);
      assert [name[0]] + name[1..] == name;
      head + tail
  }

  /** For text inside the Basic Multilingual Plane the replacement is one
      character for one: safe characters stay, every other becomes `_`. */
  lemma {:induction false} SanitizeFilenameBmp(name: string)
    requires forall k :: 0 <= k < |name| ==> name[k] as int <= 0xFFFF
    ensures |SanitizeFilename(name)| == |name|
    ensures forall k :: 0 <= k < |name| ==>
      SanitizeFilename(name)[k] == if IsSafeFilenameChar(name[k]) then name[k] else '_'
  {
    if name != [] {
      SanitizeFilenameBmp(name[1..]);
      var r := SanitizeFilename(name);
      assert r == SanitizeChar(name[0]) + SanitizeFilename(name[1..]);
      assert |SanitizeChar(name[0])| == 1;
      forall k | 1 <= k < |name|
        ensures r[k] == if IsSafeFilenameChar(name[k]) then name[k] else '_'
      {
        assert r[k] == SanitizeFilename(name[1..])[k - 1];
      }
    }
  }

  /** Text made of safe characters only is left as it is. */
  lemma {:induction false} SanitizeFilenameKeepsSafe(name: string)
    requires AllSafe(name)
    ensures SanitizeFilename(name) == name
  {
    if name != [] {
      SanitizeFilenameKeepsSafe(name[1..]);
      assert [name[0]] + name[1..] == name;
    }
  }

  lemma SanitizeFilenameIdempotent(name: string)
    ensures SanitizeFilename(SanitizeFilename(name)) == SanitizeFilename(name)
  {
    SanitizeFilenameKeepsSafe(SanitizeFilename(name));
  }

  /** `stripExtension`: the name before its last `.`, unless there is no
      `.` or the only one that counts is the first character. */
  function StripExtension(name: string): (r: string)
    ensures r == name || (0 < |r| < |name| && r == name[..|r|] && name[|r|] == '.' && '.' !in name[|r| + 1..])
    ensures r == name <==> forall k :: 0 < k < |name| ==> name[k] != '.'
  {
    var i := LastIndexOf(name, '.');
    if i <= 0 then name else name[..i]
  }

  // ---------------------------------------------------------------------
  // encodeRFC5987Value: encodeURIComponent followed by three replacements.

  /** The characters `escape` leaves unchanged. */
  predicate IsEscapeUnescaped(c: char) {
    ('A' <= c <= 'Z') || ('a' <= c <= 'z') || ('0' <= c <= '9')
    || c == '@' || c == '*' || c == '_' || c == '+' || c == '-' || c == '.' || c == '/'
  }

  /** `escape(c)` for a character below U+0100. */
  function Escape(c: char): string
    requires c as int < 256
  {
    if IsEscapeUnescaped(c) then [c] else Triplet(c as int)
  }

  predicate IsQuoteOrParen(c: char) {
    c == '\'' || c == '(' || c == ')'
  }

  /** `.replace(/['()]/g, escape)`. */
  function EscapeQuotesAndParens(t: string): string {
    if t == [] then [] else (if IsQuoteOrParen(t[0]) then Escape(t[0]) else [t[0]]) + EscapeQuotesAndParens(t[1..])
  }

  /** `.replace(/\*\/g, '%2A')`. */
  function EscapeStars(t: string): string {
    if t == [] then [] else (if t[0] == '*' then "%2A" else [t[0]]) + EscapeStars(t[1..])
  }

  /** `.replace(/%(7C|60|5E)/g, (match) => match.toLowerCase())`, scanning
      left to right and resuming after each match. */
  function LowerSomeEscapes(t: string): string
    decreases |t|
  {
    if |t| >= 3 && t[0] == '%' && (t[1..3] == "7C" || t[1..3] == "60" || t[1..3] == "5E") then
      (if t[1..3] == "7C" then "%7c" else if t[1..3] == "5E" then "%5e" else "%60") + LowerSomeEscapes(t[3..])
    else if t == [] then []
    else [t[0]] + LowerSomeEscapes(t[1..])
  }

  /** The four passes of `encodeRFC5987Value`; they agree with the
      character-by-character definition `ExtValue` below. */
  function EncodeRFC5987Value(value: string): (r: string)
    ensures r == ExtValue(value)
  {
    FirstPassesAreMidText(value);
    LowerSomeEscapesMidText(value);
    LowerSomeEscapes(EscapeStars(EscapeQuotesAndParens(EncodeURIComponent(value))))
  }

  // ---------------------------------------------------------------------
  // The same encoding stated character by character.

  /** The characters written literally: ALPHA, DIGIT and `-._!~`, all of
      them attr-char of section 3.2.1 of RFC 5987. */
  predicate IsLiteralAttrChar(c: char) {
    ('A' <= c <= 'Z') || ('a' <= c <= 'z') || ('0' <= c <= '9')
    || c == '-' || c == '.' || c == '_' || c == '!' || c == '~'
  }

  /** attr-char of section 3.2.1 of RFC 5987. */
  predicate IsAttrChar(c: char) {
    IsLiteralAttrChar(c) || c == '#' || c == '$' || c == '&' || c == '+' || c == '^' || c == '`' || c == '|'
  }

  /** One character of the `ext-value`: literal, or its UTF-8 bytes as
      upper-case triplets, except that `|` and `^` get lower-case ones. */
  function ExtValueChar(c: char): string {
    if IsLiteralAttrChar(c) then [c]
    else if c == '|' then "%7c"
    else if c == '^' then "%5e"
    else Percent(Utf8(c))
  }

  function ExtValue(s: string): string {
    if s == [] then [] else ExtValueChar(s[0]) + ExtValue(s[1..])
  }

  /** Text made of attr-char and `%HH` triplets only, the value-chars of
      section 3.2.1 of RFC 5987. */
  predicate IsValueChars(t: string)
    decreases |t|
  {
    || t == []
    || (IsAttrChar(t[0]) && IsValueChars(t[1..]))
    || (|t| >= 3 && t[0] == '%' && IsHexDigit(t[1]) && IsHexDigit(t[2]) && IsValueChars(t[3..]))
  }

  lemma {:induction false} EscapeQuotesAndParensAppend(a: string, b: string)
    ensures EscapeQuotesAndParens(a + b) == EscapeQuotesAndParens(a) + EscapeQuotesAndParens(b)
  {
    if a == [] {
      assert a + b == b;
    } else {
      assert (a + b)[1..] == a[1..] + b;
      EscapeQuotesAndParensAppend(a[1..], b);
    }
  }

  lemma {:induction false} EscapeStarsAppend(a: string, b: string)
    ensures EscapeStars(a + b) == EscapeStars(a) + EscapeStars(b)
  {
    if a == [] {
      assert a + b == b;
    } else {
      assert (a + b)[1..] == a[1..] + b;
      EscapeStarsAppend(a[1..], b);
    }
  }

  /** Triplets contain neither quotes, parentheses nor stars, so the two
      middle replacements leave them alone. */
  lemma {:induction false} PercentUntouched(bs: seq<Byte>)
    ensures EscapeQuotesAndParens(Percent(bs)) == Percent(bs)
    ensures EscapeStars(Percent(bs)) == Percent(bs)
  {
    if bs != [] {
      var t := Triplet(bs[0]);
      PercentUntouched(bs[1..]);
      EscapeQuotesAndParensAppend(t, Percent(bs[1..]));
      EscapeStarsAppend(t, Percent(bs[1..]));
      assert t == [t[0]] + [t[1]] + [t[2]];
      EscapeQuotesAndParensAppend([t[0]], [t[1]]);
      EscapeQuotesAndParensAppend([t[0]] + [t[1]], [t[2]]);
      EscapeStarsAppend([t[0]], [t[1]]);
      EscapeStarsAppend([t[0]] + [t[1]], [t[2]]);
    }
  }

  /** What the first three passes make of one character. */
  function MidChar(c: char): string {
    if IsLiteralAttrChar(c) then [c] else Percent(Utf8(c))
  }

  function MidText(s: string): string {
    if s == [] then [] else MidChar(s[0]) + MidText(s[1..])
  }

  lemma MidCharOfEncodeChar(c: char)
    ensures EscapeStars(EscapeQuotesAndParens(EncodeChar(c))) == MidChar(c)
  {
    if IsLiteralAttrChar(c) {
    } else if IsUriUnreserved(c) {
      assert Utf8(c) == [c as int];
      assert Percent(Utf8(c)) == Triplet(c as int);
      if c == '*' {
        assert EscapeQuotesAndParens([c]) == [c];
        assert EscapeStars([c]) == "%2A";
        assert Triplet(c as int) == "%2A";
      } else {
        assert EscapeQuotesAndParens([c]) == Triplet(c as int);
        PercentUntouched([c as int]);
      }
    } else {
      PercentUntouched(Utf8(c));
    }
  }

  lemma {:induction false} FirstPassesAreMidText(s: string)
    ensures EscapeStars(EscapeQuotesAndParens(EncodeURIComponent(s))) == MidText(s)
  {
    if s != [] {
      var head, tail := EncodeChar(s[0]), EncodeURIComponent(s[1..]);
      EscapeQuotesAndParensAppend(head, tail);
      EscapeStarsAppend(EscapeQuotesAndParens(head), EscapeQuotesAndParens(tail));
      MidCharOfEncodeChar(s[0]);
      FirstPassesAreMidText(s[1..]);
    }
  }

  /** The last pass on one triplet. */
  function LowerTriplet(b: Byte): string {
    if b == 0x7C then "%7c" else if b == 0x5E then "%5e" else Triplet(b)
  }

  lemma LowerSomeEscapesTriplet(b: Byte, rest: string)
    ensures LowerSomeEscapes(Triplet(b) + rest) == LowerTriplet(b) + LowerSomeEscapes(rest)
  {
    var t := Triplet(b);
    var s := t + rest;
    assert s[0] == '%' && s[1..3] == t[1..3] && s[3..] == rest;
    var d := t[1..3];
    assert d == [t[1], t[2]];
    if b == 0x7C {
      assert t == "%7C";
    } else if b == 0x5E {
      assert t == "%5E";
    } else if b == 0x60 {
      assert t == "%60";
    } else {
      assert d != "7C" && d != "60" && d != "5E" by {
        assert 16 * HexValue(d[0]) + HexValue(d[1]) == b;
      }
      assert LowerSomeEscapes(s) == [s[0]] + LowerSomeEscapes(s[1..]);
      assert s[1..][0] == t[1] && t[1] != '%';
      assert s[1..][1..] == s[2..];
      assert LowerSomeEscapes(s[1..]) == [t[1]] + LowerSomeEscapes(s[2..]);
      assert s[2..][0] == t[2] && t[2] != '%';
      assert s[2..][1..] == rest;
      assert LowerSomeEscapes(s[2..]) == [t[2]] + LowerSomeEscapes(rest);
      assert t == [t[0]] + [t[1]] + [t[2]];
    }
  }

  function LowerPercent(bs: seq<Byte>): string {
    if bs == [] then [] else LowerTriplet(bs[0]) + LowerPercent(bs[1..])
  }

  lemma {:induction false} LowerSomeEscapesPercent(bs: seq<Byte>, rest: string)
    ensures LowerSomeEscapes(Percent(bs) + rest) == LowerPercent(bs) + LowerSomeEscapes(rest)
  {
    if bs != [] {
      var t, more := Triplet(bs[0]), Percent(bs[1..]);
      assert Percent(bs) + rest == t + (more + rest);
      LowerSomeEscapesTriplet(bs[0], more + rest);
      LowerSomeEscapesPercent(bs[1..], rest);
      assert LowerPercent(bs) == LowerTriplet(bs[0]) + LowerPercent(bs[1..]);
      assert LowerSomeEscapes(Percent(bs) + rest)
          == LowerTriplet(bs[0]) + (LowerPercent(bs[1..]) + LowerSomeEscapes(rest));
    } else {
      assert Percent(bs) + rest == rest;
    }
  }

  lemma LowerSomeEscapesMidChar(c: char, rest: string)
    ensures LowerSomeEscapes(MidChar(c) + rest) == ExtValueChar(c) + LowerSomeEscapes(rest)
  {
    if IsLiteralAttrChar(c) {
      assert ([c] + rest)[1..] == rest;
    } else {
      assert MidChar(c) == Percent(Utf8(c));
      LowerSomeEscapesPercent(Utf8(c), rest);
      LowerPercentOfChar(c);
    }
  }

  /** The escapes of a character outside the literal set, after the
      lower-casing, are its `ExtValueChar`. */
  lemma LowerPercentOfChar(c: char)
    requires !IsLiteralAttrChar(c)
    ensures LowerPercent(Utf8(c)) == ExtValueChar(c)
  {
    var bs := Utf8(c);
    if |bs| == 1 {
      assert LowerPercent(bs) == LowerTriplet(bs[0]);
      assert Percent(bs) == Triplet(bs[0]);
    } else {
      assert bs[0] >= 0x80 && forall k :: 1 <= k < |bs| ==> bs[k] >= 0x80;
      LowerPercentHigh(bs);
    }
  }

  lemma {:induction false} LowerPercentHigh(bs: seq<Byte>)
    requires forall k :: 0 <= k < |bs| ==> bs[k] >= 0x80
    ensures LowerPercent(bs) == Percent(bs)
  {
    if bs != [] {
      LowerPercentHigh(bs[1..]);
    }
  }

  lemma {:induction false} LowerSomeEscapesMidText(s: string)
    ensures LowerSomeEscapes(MidText(s)) == ExtValue(s)
  {
    if s != [] {
      LowerSomeEscapesMidChar(s[0], MidText(s[1..]));
      LowerSomeEscapesMidText(s[1..]);
    }
  }

  lemma {:induction false} ValueCharsAppend(a: string, b: string)
    requires IsValueChars(a) && IsValueChars(b)
    ensures IsValueChars(a + b)
    decreases |a|
  {
    if a == [] {
      assert a + b == b;
    } else if IsAttrChar(a[0]) && IsValueChars(a[1..]) {
      ValueCharsAppend(a[1..], b);
      assert (a + b)[1..] == a[1..] + b;
    } else {
      ValueCharsAppend(a[3..], b);
      assert (a + b)[3..] == a[3..] + b;
    }
  }

  lemma {:induction false} PercentIsValueChars(bs: seq<Byte>)
    ensures IsValueChars(Percent(bs))
  {
    if bs != [] {
      var t := Triplet(bs[0]);
      PercentIsValueChars(bs[1..]);
      assert (t + Percent(bs[1..]))[3..] == Percent(bs[1..]);
    }
  }

  lemma {:induction false} ExtValueIsValueChars(s: string)
    ensures IsValueChars(ExtValue(s))
  {
    if s != [] {
      ExtValueIsValueChars(s[1..]);
      var c := s[0];
      if IsLiteralAttrChar(c) {
        assert IsValueChars([c]) by { assert [c][1..] == []; }
      } else if c == '|' || c == '^' {
        assert ExtValueChar(c)[3..] == [];
      } else {
        PercentIsValueChars(Utf8(c));
      }
      ValueCharsAppend(ExtValueChar(c), ExtValue(s[1..]));
    }
  }

  /** The encoder's output is made of attr-char and `%HH` triplets only. */
  lemma EncodedIsValueChars(value: string)
    ensures IsValueChars(EncodeRFC5987Value(value))
  {
    ExtValueIsValueChars(value);
  }

  /** No raw `'`, `(`, `)` or `*` remains; each of them is written as its triplet. */
  lemma {:induction false} ExtValueHasNoSpecials(s: string)
    ensures forall c :: c in ExtValue(s) ==> c != '\'' && c != '(' && c != ')' && c != '*'
  {
    if s != [] {
      ExtValueHasNoSpecials(s[1..]);
      var c := s[0];
      if !IsLiteralAttrChar(c) && c != '|' && c != '^' {
        PercentHasNoSpecials(Utf8(c));
      }
    }
  }

  lemma {:induction false} PercentHasNoSpecials(bs: seq<Byte>)
    ensures forall c :: c in Percent(bs) ==> c == '%' || IsHexDigit(c)
  {
    if bs != [] {
      PercentHasNoSpecials(bs[1..]);
      var t := Triplet(bs[0]);
      assert t == [t[0]] + [t[1]] + [t[2]];
    }
  }

  /** `'`, `(`, `)` and `*` are written as their upper-case triplets. */
  lemma SpecialsAsTriplets(c: char)
    requires IsQuoteOrParen(c) || c == '*'
    ensures ExtValueChar(c) == Triplet(c as int)
  {
    assert Utf8(c) == [c as int];
  }

  lemma NoSpecialsInEncoding(value: string)
    ensures forall c :: c in EncodeRFC5987Value(value) ==> c != '\'' && c != '(' && c != ')' && c != '*'
  {
    ExtValueHasNoSpecials(value);
  }

  lemma DecodeExtValueChar(c: char, rest: string)
    ensures DecodeURIComponent(ExtValueChar(c) + rest) == Prepend(c, DecodeURIComponent(rest))
  {
    if IsLiteralAttrChar(c) {
      assert ([c] + rest)[1..] == rest;
    } else if c == '|' || c == '^' {
      var s := ExtValueChar(c) + rest;
      assert s[3..] == rest;
      assert s[0] == '%' && s[1] == ExtValueChar(c)[1] && s[2] == ExtValueChar(c)[2];
    } else {
      DecodePercentUtf8(c, rest);
    }
  }

  lemma {:induction false} DecodeExtValue(s: string)
    ensures DecodeURIComponent(ExtValue(s)) == Some(s)
  {
    if s != [] {
      DecodeExtValue(s[1..]);
      DecodeExtValueChar(s[0], ExtValue(s[1..]));
      assert [s[0]] + s[1..] == s;
    }
  }

  /** Percent-decoding the header value gives back the display name exactly. */
  lemma DecodeEncodedValue(value: string)
    ensures DecodeURIComponent(EncodeRFC5987Value(value)) == Some(value)
  {
    DecodeExtValue(value);
  }
}
