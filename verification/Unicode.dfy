/**
 What the code calls text: the bytes that UTF-8 (RFC 3629) gives for a sequence of Unicode scalar values.
 The encoder is arithmetic on code points; the validator of `RequestLine` is proved to accept exactly its
 outputs.
 */
module Unicode {
  import opened MapTypes
  import opened RequestLine

  /** Every code point but the surrogates. */
  type Scalar = c: nat | c < 0xD800 || 0xE000 <= c < 0x110000

  /** The byte 10xxxxxx with the last six bits of `c`. */
  function Tail(c: nat): Byte {
    0x80 + c % 64
  }

  /** Six bits a byte, from the last one on; the first byte has what is left and says how many follow. */
  function Encoded(c: Scalar): Bytes {
    if c < 0x80 then [c]
    else if c < 0x800 then [0xC0 + c / 64, Tail(c)]
    else if c < 0x10000 then [0xE0 + c / 64 / 64, Tail(c / 64), Tail(c)]
    else [0xF0 + c / 64 / 64 / 64, Tail(c / 64 / 64), Tail(c / 64), Tail(c)]
  }

  function Text(cs: seq<Scalar>): Bytes {
    if cs == [] then [] else Encoded(cs[0]) + Text(cs[1..])
  }

  // ----- What is encoded is valid ------------------------------------------------------------

  lemma EncodedIsChar(c: Scalar)
    ensures BeginsChar(Encoded(c)) && CharLen(Encoded(c)[0]) == |Encoded(c)|
  {
  }

  lemma BeginsBefore(first: Bytes, x: Bytes)
    requires BeginsChar(first)
    ensures BeginsChar(first + x) && (first + x)[0] == first[0]
  {
  }

  lemma {:induction false} TextIsValid(cs: seq<Scalar>)
    ensures Utf8(Text(cs))
  {
    if cs != [] {
      var first, more := Encoded(cs[0]), Text(cs[1..]);
      TextIsValid(cs[1..]);
      EncodedIsChar(cs[0]);
      BeginsBefore(first, more);
      assert (first + more)[|first|..] == more;
    }
  }

  // ----- What is valid is encoded ------------------------------------------------------------

  /** Six more bits. */
  lemma SixBits(c: nat, b: Byte) returns (d: nat)
    requires Continuation(b)
    ensures d == 64 * c + (b - 0x80) && d / 64 == c && Tail(d) == b
  {
    d := 64 * c + (b - 0x80);
  }

  lemma OneByte(s: Bytes) returns (c: Scalar)
    requires BeginsChar(s) && s[0] < 0x80
    ensures Encoded(c) == s[..1]
  {
    c := s[0];
  }

  lemma TwoBytes(s: Bytes) returns (c: Scalar)
    requires BeginsChar(s) && 0xC2 <= s[0] < 0xE0
    ensures Encoded(c) == s[..2]
  {
    c := SixBits(s[0] - 0xC0, s[1]);
  }

  lemma ThreeByteRange(x: Byte, y: Byte, z: Byte, b: nat, c: nat)
    requires 0xE0 <= x < 0xF0 && SecondByte(x, y) && Continuation(z)
    requires b == 64 * (x - 0xE0) + (y - 0x80) && c == 64 * b + (z - 0x80)
    ensures 0x800 <= c < 0xD800 || 0xE000 <= c < 0x10000
  {
  }

  lemma ThreeBytes(s: Bytes) returns (c: Scalar)
    requires BeginsChar(s) && 0xE0 <= s[0] < 0xF0
    ensures Encoded(c) == s[..3]
  {
    var b := SixBits(s[0] - 0xE0, s[1]);
    var d := SixBits(b, s[2]);
    ThreeByteRange(s[0], s[1], s[2], b, d);
    c := d;
  }

  lemma FourByteRange(w: Byte, x: Byte, y: Byte, z: Byte, a: nat, b: nat, c: nat)
    requires 0xF0 <= w < 0xF5 && SecondByte(w, x) && Continuation(y) && Continuation(z)
    requires a == 64 * (w - 0xF0) + (x - 0x80) && b == 64 * a + (y - 0x80) && c == 64 * b + (z - 0x80)
    ensures 0x10000 <= c < 0x110000
  {
  }

  lemma FourBytes(s: Bytes) returns (c: Scalar)
    requires BeginsChar(s) && 0xF0 <= s[0]
    ensures Encoded(c) == s[..4]
  {
    var a := SixBits(s[0] - 0xF0, s[1]);
    var b := SixBits(a, s[2]);
    var d := SixBits(b, s[3]);
    FourByteRange(s[0], s[1], s[2], s[3], a, b, d);
    c := d;
  }

  /** Every character that the validator accepts is the encoding of a scalar value. */
  lemma CharIsEncoded(s: Bytes) returns (c: Scalar)
    requires BeginsChar(s)
    ensures Encoded(c) == s[..CharLen(s[0])]
  {
    if s[0] < 0x80 { c := OneByte(s); }
    else if s[0] < 0xE0 { c := TwoBytes(s); }
    else if s[0] < 0xF0 { c := ThreeBytes(s); }
    else { c := FourBytes(s); }
  }

  lemma TextFirst(c: Scalar, cs: seq<Scalar>)
    ensures Text([c] + cs) == Encoded(c) + Text(cs)
  {
    assert ([c] + cs)[1..] == cs;
  }

  lemma CharFirst(s: Bytes) returns (c: Scalar, more: Bytes)
    requires s != [] && Utf8(s)
    ensures s == Encoded(c) + more && Utf8(more) && |more| < |s|
  {
    c := CharIsEncoded(s);
    more := s[CharLen(s[0])..];
  }

  lemma {:induction false} ValidIsText(s: Bytes) returns (cs: seq<Scalar>)
    requires Utf8(s)
    ensures Text(cs) == s
    decreases |s|
  {
    if s == [] {
      cs := [];
    } else {
      var c, more := CharFirst(s);
      var rest := ValidIsText(more);
      TextFirst(c, rest);
      cs := [c] + rest;
    }
  }

  ghost predicate IsText(s: Bytes) {
    exists cs :: Text(cs) == s
  }

  /** The bytes that from_utf8 accepts are exactly the encodings of Unicode text. */
  lemma Utf8Exactly(s: Bytes)
    ensures Utf8(s) <==> IsText(s)
  {
    if Utf8(s) { var cs := ValidIsText(s); }
    forall cs | Text(cs) == s ensures Utf8(s) { TextIsValid(cs); }
  }

  ghost predicate TwoSpaces(req: Bytes) {
    exists i, j | 0 <= i < j < |req| :: req[i] == SP && req[j] == SP
  }

  lemma SpacesFound(req: Bytes)
    ensures ParseSiteNameIndices(req).Some? <==> TwoSpaces(req)
  {
    var p1 := Find(req, SP, 0);
    if p1.Some? {
      var p2 := Find(req, SP, p1.value + 1);
      if p2.Some? { assert req[p1.value] == SP && req[p2.value] == SP; }
    }
  }

  /** So for any bytes, remove_site_name refuses exactly what lacks a space or a line end or begins with no text. */
  lemma RefusedExactly(req: Bytes)
    ensures SiteNameRemoved(req).BadRequest? <==>
            !TwoSpaces(req) || LF !in req || !IsText(req[..Find(req, LF, 0).value + 1])
  {
    var lf := Find(req, LF, 0);
    RemovalOutcome(req);
    SpacesFound(req);
    if lf.Some? { Utf8Exactly(req[..lf.value + 1]); }
  }
}
