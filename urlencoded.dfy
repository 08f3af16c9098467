/**
 * The application/x-www-form-urlencoded format of the WHATWG URL Standard,
 * which `new URLSearchParams({ redirectTo }).toString()` produces
 * (packages/workshop-utils/src/db.server.ts lines 135-136): the serializer
 * of section 5.2 and, as its partner, the parser of section 5.1.
 *
 * Strings are sequences of Unicode scalar values; they are UTF-8 encoded
 * before percent-encoding, as the standard requires.
 */
module FormUrlEncoded {
  import opened Wrappers

  newtype byte = x: int | 0 <= x < 256

  // ------------------------------------------------------------------ UTF-8

  /** The UTF-8 encoding of one scalar value: one to four bytes. */
  function Utf8Char(c: char): (r: seq<byte>)
    ensures 1 <= |r| <= 4
    ensures (c as int < 0x80) <==> |r| == 1
    ensures |r| == 1 ==> r[0] as int == c as int
    ensures |r| > 1 ==> forall i :: 0 <= i < |r| ==> r[i] >= 0x80
  {
    var n := c as int;
    if n < 0x80 then [n as byte]
    else if n < 0x800 then [(0xC0 + n / 0x40) as byte, (0x80 + n % 0x40) as byte]
    else if n < 0x1_0000 then
      [(0xE0 + n / 0x1000) as byte, (0x80 + (n / 0x40) % 0x40) as byte, (0x80 + n % 0x40) as byte]
    else
      [(0xF0 + n / 0x4_0000) as byte, (0x80 + (n / 0x1000) % 0x40) as byte,
       (0x80 + (n / 0x40) % 0x40) as byte, (0x80 + n % 0x40) as byte]
  }

  function Utf8(s: string): seq<byte>
  {
    if s == [] then [] else Utf8Char(s[0]) + Utf8(s[1..])
  }

  predicate IsContinuation(b: byte) { 0x80 <= b < 0xC0 }

  predicate IsScalar(n: int) { 0 <= n < 0xD800 || 0xE000 <= n < 0x11_0000 }

  /**
   * Decodes the first scalar value of `b` and says how many bytes it took;
   * None on a malformed, overlong or surrogate sequence.
   */
  function DecodeChar(b: seq<byte>): (r: Option<(char, nat)>)
    ensures r.Some? ==> 1 <= r.value.1 <= |b|
  {
    if b == [] then None
    else if b[0] < 0x80 then Some((b[0] as int as char, 1))
    else if 0xC2 <= b[0] < 0xE0 then
      if |b| < 2 || !IsContinuation(b[1]) then None
      else Some((((b[0] as int - 0xC0) * 0x40 + (b[1] as int - 0x80)) as char, 2))
    else if 0xE0 <= b[0] < 0xF0 then
      if |b| < 3 || !IsContinuation(b[1]) || !IsContinuation(b[2]) then None
      else
        var n := (b[0] as int - 0xE0) * 0x1000 + (b[1] as int - 0x80) * 0x40 + (b[2] as int - 0x80);
        if n < 0x800 || !IsScalar(n) then None else Some((n as char, 3))
    else if 0xF0 <= b[0] < 0xF5 then
      if |b| < 4 || !IsContinuation(b[1]) || !IsContinuation(b[2]) || !IsContinuation(b[3]) then None
      else
        var n := (b[0] as int - 0xF0) * 0x4_0000 + (b[1] as int - 0x80) * 0x1000
                 + (b[2] as int - 0x80) * 0x40 + (b[3] as int - 0x80);
        if n < 0x1_0000 || !IsScalar(n) then None else Some((n as char, 4))
    else None
  }

  /** Strict UTF-8 decoding: None when the bytes are not well-formed UTF-8. */
  function DecodeUtf8(b: seq<byte>): Option<string>
    decreases |b|
  {
    if b == [] then Some("")
    else match DecodeChar(b)
      case None => None
      case Some((c, k)) =>
        match DecodeUtf8(b[k..])
        case None => None
        case Some(rest) => Some([c] + rest)
  }

  lemma SplitBy64(n: int)
    requires n >= 0
    ensures n == (n / 0x40) * 0x40 + n % 0x40
    ensures n / 0x40 / 0x40 == n / 0x1000
    ensures n / 0x1000 / 0x40 == n / 0x4_0000
  {
  }

  /** Decoding the bytes of one encoded scalar value gives it back. */
  lemma DecodeCharOfUtf8(c: char, rest: seq<byte>)
    ensures DecodeChar(Utf8Char(c) + rest) == Some((c, |Utf8Char(c)|))
  {
    var n := c as int;
    if n < 0x80 {
    } else if n < 0x800 {
      DecodeTwoBytes(c, rest);
    } else if n < 0x1_0000 {
      DecodeThreeBytes(c, rest);
    } else {
      DecodeFourBytes(c, rest);
    }
  }

  lemma DecodeTwoBytes(c: char, rest: seq<byte>)
    requires 0x80 <= c as int < 0x800
    ensures DecodeChar(Utf8Char(c) + rest) == Some((c, 2))
  {
    var n := c as int;
    var b := Utf8Char(c) + rest;
    SplitBy64(n);
    assert b[0] as int - 0xC0 == n / 0x40;
    assert b[1] as int - 0x80 == n % 0x40;
  }

  lemma DecodeThreeBytes(c: char, rest: seq<byte>)
    requires 0x800 <= c as int < 0x1_0000
    ensures DecodeChar(Utf8Char(c) + rest) == Some((c, 3))
  {
    var n := c as int;
    var b := Utf8Char(c) + rest;
    SplitBy64(n);
    SplitBy64(n / 0x40);
    assert b[0] as int - 0xE0 == n / 0x1000;
    assert b[1] as int - 0x80 == (n / 0x40) % 0x40;
    assert b[2] as int - 0x80 == n % 0x40;
  }

  lemma DecodeFourBytes(c: char, rest: seq<byte>)
    requires 0x1_0000 <= c as int
    ensures DecodeChar(Utf8Char(c) + rest) == Some((c, 4))
  {
    var n := c as int;
    var b := Utf8Char(c) + rest;
    SplitBy64(n);
    SplitBy64(n / 0x40);
    SplitBy64(n / 0x1000);
    assert b[0] as int - 0xF0 == n / 0x4_0000;
    assert b[1] as int - 0x80 == (n / 0x1000) % 0x40;
    assert b[2] as int - 0x80 == (n / 0x40) % 0x40;
    assert b[3] as int - 0x80 == n % 0x40;
  }

  /** UTF-8 is injective on strings: decoding an encoding gives the string back. */
  lemma {:induction false} Utf8RoundTrip(s: string)
    ensures DecodeUtf8(Utf8(s)) == Some(s)
  {
    if s != [] {
      var head := Utf8Char(s[0]);
      DecodeCharOfUtf8(s[0], Utf8(s[1..]));
      var b := Utf8(s);
      assert b == head + Utf8(s[1..]);
      assert b[|head|..] == Utf8(s[1..]);
      Utf8RoundTrip(s[1..]);
      assert DecodeUtf8(b) == Some([s[0]] + s[1..]);
      assert [s[0]] + s[1..] == s;
    }
  }

  // ------------------------------------------------------------ serializer

  /**
   * The bytes that the application/x-www-form-urlencoded percent-encode set
   * leaves as they are: `*`, `-`, `.`, `_`, digits and ASCII letters.
   */
  predicate Unreserved(b: byte)
  {
    b == 0x2A || b == 0x2D || b == 0x2E || b == 0x5F
    || (0x30 <= b <= 0x39) || (0x41 <= b <= 0x5A) || (0x61 <= b <= 0x7A)
  }

  const HexDigits: string := "0123456789ABCDEF"

  /** One byte as section 5.2 writes it: space as `+`, unreserved as itself, anything else `%XX`. */
  function EncodeByte(b: byte): string
  {
    if b == 0x20 then "+"
    else if Unreserved(b) then [b as int as char]
    else ['%', HexDigits[b as int / 16], HexDigits[b as int % 16]]
  }

  function EncodeBytes(b: seq<byte>): string
  {
    if b == [] then "" else EncodeByte(b[0]) + EncodeBytes(b[1..])
  }

  /** Percent-encode after encoding with UTF-8, space as plus. */
  function EncodeComponent(s: string): string
  {
    EncodeBytes(Utf8(s))
  }

  function EncodePair(p: (string, string)): string
  {
    EncodeComponent(p.0) + "=" + EncodeComponent(p.1)
  }

  /** `URLSearchParams.prototype.toString`: the pairs encoded and joined with `&`. */
  function Serialize(pairs: seq<(string, string)>): string
  {
    if pairs == [] then ""
    else if |pairs| == 1 then EncodePair(pairs[0])
    else EncodePair(pairs[0]) + "&" + Serialize(pairs[1..])
  }

  // ---------------------------------------------------------------- parser

  /** Splits on every occurrence of `sep`; there is always at least one piece. */
  function Split(s: string, sep: char): (r: seq<string>)
    ensures |r| >= 1
  {
    if s == [] then [""]
    else
      var rest := Split(s[1..], sep);
      if s[0] == sep then [""] + rest else [[s[0]] + rest[0]] + rest[1..]
  }

  /** A sequence split at its first `=`; without one, all of it is the name and the value is empty. */
  function NameValue(s: string): (string, string)
  {
    if s == [] then ("", "")
    else if s[0] == '=' then ("", s[1..])
    else
      var nv := NameValue(s[1..]);
      ([s[0]] + nv.0, nv.1)
  }

  predicate IsHexDigit(c: char) { '0' <= c <= '9' || 'A' <= c <= 'F' || 'a' <= c <= 'f' }

  function HexValue(c: char): (r: int)
    requires IsHexDigit(c)
    ensures 0 <= r < 16
  {
    if c <= '9' then c as int - '0' as int
    else if c <= 'F' then c as int - 'A' as int + 10
    else c as int - 'a' as int + 10
  }

  function PlusToSpace(s: string): (r: string)
    ensures |r| == |s|
    ensures forall i :: 0 <= i < |s| ==> r[i] == if s[i] == '+' then ' ' else s[i]
  {
    if s == [] then [] else [if s[0] == '+' then ' ' else s[0]] + PlusToSpace(s[1..])
  }

  /**
   * Percent-decoding of the UTF-8 encoding of `s`. The decoder only looks at
   * ASCII bytes and no byte of a multi-byte UTF-8 sequence is ASCII, so
   * working character by character gives the same bytes.
   */
  function PercentDecode(s: string): seq<byte>
  {
    if s == [] then []
    else if s[0] == '%' && |s| >= 3 && IsHexDigit(s[1]) && IsHexDigit(s[2]) then
      [(HexValue(s[1]) * 16 + HexValue(s[2])) as byte] + PercentDecode(s[3..])
    else Utf8Char(s[0]) + PercentDecode(s[1..])
  }

  /**
   * One name or value as section 5.1 decodes it. The standard replaces
   * ill-formed UTF-8 by U+FFFD; this model reports it as None instead.
   */
  function DecodeComponent(s: string): Option<string>
  {
    DecodeUtf8(PercentDecode(PlusToSpace(s)))
  }

  function ParseSequences(seqs: seq<string>): Option<seq<(string, string)>>
  {
    if seqs == [] then Some([])
    else if seqs[0] == "" then ParseSequences(seqs[1..])
    else
      var nv := NameValue(seqs[0]);
      match (DecodeComponent(nv.0), DecodeComponent(nv.1), ParseSequences(seqs[1..]))
      case (Some(name), Some(value), Some(rest)) => Some([(name, value)] + rest)
      case _ => None
  }

  /** Section 5.1: split on `&`, skip empty pieces, split each at its first `=`, decode. */
  function Parse(s: string): Option<seq<(string, string)>>
  {
    ParseSequences(Split(s, '&'))
  }

  // ---------------------------------------------------------------- lemmas

  /** The characters a serialized component can contain. */
  predicate SafeChar(c: char)
  {
    c == '+' || c == '%' || c == '*' || c == '-' || c == '.' || c == '_'
    || ('0' <= c <= '9') || ('A' <= c <= 'Z') || ('a' <= c <= 'z')
  }

  lemma {:induction false} EncodeBytesIsSafe(b: seq<byte>)
    ensures forall i :: 0 <= i < |EncodeBytes(b)| ==> SafeChar(EncodeBytes(b)[i])
  {
    if b != [] {
      var e, r := EncodeByte(b[0]), EncodeBytes(b[1..]);
      EncodeByteIsSafe(b[0]);
      EncodeBytesIsSafe(b[1..]);
      assert EncodeBytes(b) == e + r;
      assert forall i :: 0 <= i < |e + r| ==> (e + r)[i] == if i < |e| then e[i] else r[i - |e|];
    }
  }

  lemma EncodeByteIsSafe(b: byte)
    ensures forall i :: 0 <= i < |EncodeByte(b)| ==> SafeChar(EncodeByte(b)[i])
  {
    if b != 0x20 && !Unreserved(b) {
      HexDigitIsSafe(b as int / 16);
      HexDigitIsSafe(b as int % 16);
    }
  }

  lemma HexDigitIsSafe(k: int)
    requires 0 <= k < 16
    ensures SafeChar(HexDigits[k])
  {
  }

  lemma {:induction false} PlusToSpaceAppend(a: string, b: string)
    ensures PlusToSpace(a + b) == PlusToSpace(a) + PlusToSpace(b)
  {
    if a == [] {
      assert a + b == b;
    } else {
      assert (a + b)[1..] == a[1..] + b;
      PlusToSpaceAppend(a[1..], b);
    }
  }

  lemma HexDigitsDecode(k: int)
    requires 0 <= k < 16
    ensures IsHexDigit(HexDigits[k]) && HexValue(HexDigits[k]) == k
  {
  }

  /** Decoding the encoding of one byte, followed by anything, yields that byte first. */
  lemma DecodeEncodedByte(b: byte, rest: string)
    ensures PercentDecode(PlusToSpace(EncodeByte(b)) + rest) == [b] + PercentDecode(rest)
  {
    var e := PlusToSpace(EncodeByte(b)) + rest;
    if b == 0x20 {
      assert e[0] == ' ' && e[1..] == rest;
    } else if Unreserved(b) {
      assert e[0] == b as int as char && e[1..] == rest;
    } else {
      DecodePercentEncoded(b, rest);
    }
  }

  /** A byte written as `%XX` decodes to itself. */
  lemma DecodePercentEncoded(b: byte, rest: string)
    requires b != 0x20 && !Unreserved(b)
    ensures PercentDecode(PlusToSpace(EncodeByte(b)) + rest) == [b] + PercentDecode(rest)
  {
    var hi, lo := b as int / 16, b as int % 16;
    HexDigitsDecode(hi);
    HexDigitsDecode(lo);
    var e := ['%', HexDigits[hi], HexDigits[lo]];
    assert EncodeByte(b) == e;
    HexDigitIsSafe(hi);
    HexDigitIsSafe(lo);
    assert PlusToSpace(e) == e;
    var s := e + rest;
    assert s[0] == '%' && s[1] == HexDigits[hi] && s[2] == HexDigits[lo] && s[3..] == rest;
    assert (HexValue(s[1]) * 16 + HexValue(s[2])) as byte == b;
  }

  /** Percent-decoding undoes the serializer's encoding of a byte string. */
  lemma {:induction false} DecodeEncodeBytes(b: seq<byte>)
    ensures PercentDecode(PlusToSpace(EncodeBytes(b))) == b
  {
    if b != [] {
      PlusToSpaceAppend(EncodeByte(b[0]), EncodeBytes(b[1..]));
      DecodeEncodedByte(b[0], PlusToSpace(EncodeBytes(b[1..])));
      DecodeEncodeBytes(b[1..]);
      assert [b[0]] + b[1..] == b;
    }
  }

  /** Every name and value comes back from its encoding. */
  lemma DecodeEncodeComponent(s: string)
    ensures DecodeComponent(EncodeComponent(s)) == Some(s)
  {
    DecodeEncodeBytes(Utf8(s));
    Utf8RoundTrip(s);
  }

  lemma {:induction false} SplitAtFirst(a: string, sep: char, b: string)
    requires sep !in a
    ensures Split(a + [sep] + b, sep) == [a] + Split(b, sep)
  {
    if a == [] {
      assert a + [sep] + b == [sep] + b;
    } else {
      assert (a + [sep] + b)[1..] == a[1..] + [sep] + b;
      SplitAtFirst(a[1..], sep, b);
      assert [a[0]] + a[1..] == a;
    }
  }

  lemma {:induction false} SplitWithout(a: string, sep: char)
    requires sep !in a
    ensures Split(a, sep) == [a]
  {
    if a != [] {
      SplitWithout(a[1..], sep);
      assert [a[0]] + a[1..] == a;
    }
  }

  lemma {:induction false} NameValueAtFirst(a: string, b: string)
    requires '=' !in a
    ensures NameValue(a + "=" + b) == (a, b)
  {
    if a == [] {
      assert a + "=" + b == "=" + b;
    } else {
      assert (a + "=" + b)[1..] == a[1..] + "=" + b;
      NameValueAtFirst(a[1..], b);
      assert [a[0]] + a[1..] == a;
    }
  }

  /** An encoded pair contains no `&` and has its first `=` right after the name. */
  lemma EncodedPairShape(p: (string, string))
    ensures '&' !in EncodePair(p)
    ensures '=' !in EncodeComponent(p.0)
    ensures EncodePair(p) != ""
  {
    EncodeBytesIsSafe(Utf8(p.0));
    EncodeBytesIsSafe(Utf8(p.1));
    var e := EncodePair(p);
    assert forall i :: 0 <= i < |e| ==> e[i] == '=' || SafeChar(e[i]);
  }

  lemma DecodeEncodedPair(p: (string, string))
    ensures NameValue(EncodePair(p)) == (EncodeComponent(p.0), EncodeComponent(p.1))
    ensures DecodeComponent(EncodeComponent(p.0)) == Some(p.0)
    ensures DecodeComponent(EncodeComponent(p.1)) == Some(p.1)
  {
    EncodedPairShape(p);
    NameValueAtFirst(EncodeComponent(p.0), EncodeComponent(p.1));
    DecodeEncodeComponent(p.0);
    DecodeEncodeComponent(p.1);
  }

  /** A serialized pair in front of other pieces is parsed back to the pair. */
  lemma ParseEncodedPairFirst(p: (string, string), seqs: seq<string>)
    ensures ParseSequences([EncodePair(p)] + seqs) ==
      if ParseSequences(seqs).Some? then Some([p] + ParseSequences(seqs).value) else None
  {
    EncodedPairShape(p);
    DecodeEncodedPair(p);
    var all := [EncodePair(p)] + seqs;
    assert all[0] != "" && all[1..] == seqs;
    assert (p.0, p.1) == p;
  }

  /** The parser of section 5.1 recovers exactly the pairs the serializer of section 5.2 was given. */
  lemma {:induction false} ParseSerialize(pairs: seq<(string, string)>)
    ensures Parse(Serialize(pairs)) == Some(pairs)
  {
    if pairs == [] {
      assert Split("", '&') == [""];
    } else {
      var p := pairs[0];
      EncodedPairShape(p);
      if |pairs| == 1 {
        SplitWithout(EncodePair(p), '&');
        ParseEncodedPairFirst(p, []);
        assert [EncodePair(p)] + [] == [EncodePair(p)];
        assert [p] + [] == pairs;
      } else {
        SplitAtFirst(EncodePair(p), '&', Serialize(pairs[1..]));
        assert Serialize(pairs) == EncodePair(p) + ['&'] + Serialize(pairs[1..]);
        ParseSerialize(pairs[1..]);
        ParseEncodedPairFirst(p, Split(Serialize(pairs[1..]), '&'));
        assert [p] + pairs[1..] == pairs;
      }
    }
  }

  /** Encoding works one character at a time; an ASCII character is encoded as its own byte. */
  lemma EncodeComponentCons(c: char, s: string)
    requires c as int < 0x80
    ensures EncodeComponent([c] + s) == EncodeByte(c as int as byte) + EncodeComponent(s)
  {
    assert ([c] + s)[1..] == s;
    EncodeBytesAppend([c as int as byte], Utf8(s));
  }

  lemma {:induction false} EncodeBytesAppend(a: seq<byte>, b: seq<byte>)
    ensures EncodeBytes(a + b) == EncodeBytes(a) + EncodeBytes(b)
  {
    if a == [] {
      assert a + b == b;
    } else {
      assert (a + b)[1..] == a[1..] + b;
      EncodeBytesAppend(a[1..], b);
    }
  }

  /** A string of unreserved ASCII characters is its own encoding (a parameter name such as `redirectTo`). */
  lemma {:induction false} UnreservedIsUnchanged(s: string)
    requires forall i :: 0 <= i < |s| ==> s[i] as int < 0x80 && Unreserved(s[i] as int as byte)
    ensures EncodeComponent(s) == s
  {
    if s != [] {
      EncodeComponentCons(s[0], s[1..]);
      UnreservedIsUnchanged(s[1..]);
      assert [s[0]] + s[1..] == s;
    }
  }

  lemma {:induction false} Utf8Append(a: string, b: string)
    ensures Utf8(a + b) == Utf8(a) + Utf8(b)
  {
    if a == [] {
      assert a + b == b;
    } else {
      assert (a + b)[1..] == a[1..] + b;
      Utf8Append(a[1..], b);
    }
  }

  /** Encoding a concatenation encodes the parts one after the other. */
  lemma EncodeComponentAppend(a: string, b: string)
    ensures EncodeComponent(a + b) == EncodeComponent(a) + EncodeComponent(b)
  {
    Utf8Append(a, b);
    EncodeBytesAppend(Utf8(a), Utf8(b));
  }
}
