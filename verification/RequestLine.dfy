/**
 The first line of a request: finding the first slug of its target and taking it out.
 */
module RequestLine {
  import opened MapTypes

  type Byte = b: int | 0 <= b < 256
  type Bytes = seq<Byte>

  const LF: Byte := 10
  const CR: Byte := 13
  const SP: Byte := 32
  const SLASH: Byte := 47
  const COLON: Byte := 58

  predicate Without(s: Bytes, b: Byte) { b !in s }

  /** The bytes of an ASCII text. */
  predicate Spells(s: Bytes, text: string) {
    |s| == |text| && forall i | 0 <= i < |s| :: s[i] == text[i] as int
  }

  // ----- Searching ---------------------------------------------------------------------------

  /** Iterator::position, from an index on. */
  function Find(s: Bytes, b: Byte, from: nat): (r: Option<nat>)
    ensures r.Some? ==> from <= r.value < |s| && s[r.value] == b && forall j | from <= j < r.value :: s[j] != b
    ensures r == None ==> forall j | from <= j < |s| :: s[j] != b
    decreases |s| - from
  {
    if from >= |s| then None else if s[from] == b then Some(from) else Find(s, b, from + 1)
  }

  lemma FindIs(s: Bytes, b: Byte, from: nat, i: nat)
    requires from <= i < |s| && s[i] == b && forall j | from <= j < i :: s[j] != b
    ensures Find(s, b, from) == Some(i)
  {
  }

  lemma FindNothing(s: Bytes, b: Byte, from: nat)
    requires forall j | from <= j < |s| :: s[j] != b
    ensures Find(s, b, from) == None
  {
  }

  // ----- UTF-8 -------------------------------------------------------------------------------

  predicate Continuation(b: Byte) { 0x80 <= b < 0xC0 }

  /** The length of the character that a byte begins, 0 if it begins none. */
  function CharLen(b: Byte): nat {
    if b < 0x80 then 1
    else if 0xC2 <= b < 0xE0 then 2
    else if 0xE0 <= b < 0xF0 then 3
    else if 0xF0 <= b < 0xF5 then 4
    else 0
  }

  /** Second bytes exclude overlong forms, surrogates and what is beyond U+10FFFF. */
  predicate SecondByte(first: Byte, b: Byte) {
    && Continuation(b)
    && (first == 0xE0 ==> 0xA0 <= b)
    && (first == 0xED ==> b < 0xA0)
    && (first == 0xF0 ==> 0x90 <= b)
    && (first == 0xF4 ==> b < 0x90)
  }

  predicate BeginsChar(s: Bytes) {
    && s != []
    && var n := CharLen(s[0]);
       1 <= n <= |s|
       && (n >= 2 ==> SecondByte(s[0], s[1]))
       && (n >= 3 ==> Continuation(s[2]))
       && (n >= 4 ==> Continuation(s[3]))
  }

  /** String::from_utf8 accepts the bytes. */
  predicate Utf8(s: Bytes) {
    s == [] || (BeginsChar(s) && Utf8(s[CharLen(s[0])..]))
  }

  /** str::is_char_boundary */
  predicate Boundary(s: Bytes, i: nat) {
    i == |s| || (i < |s| && !Continuation(s[i]))
  }

  /** An ASCII byte separates: text is valid exactly when both sides of it are. */
  lemma {:induction false} Utf8Split(a: Bytes, c: Byte, z: Bytes)
    requires c < 0x80
    ensures Utf8(a + [c] + z) <==> Utf8(a) && Utf8(z)
  {
    var s := a + [c] + z;
    if a == [] {
      assert s[1..] == z;
    } else {
      var n := CharLen(a[0]);
      assert s[0] == a[0];
      if n <= |a| {
        assert BeginsChar(s) == BeginsChar(a);
        if n > 0 {
          assert s[n..] == a[n..] + [c] + z;
          Utf8Split(a[n..], c, z);
        }
      } else {
        assert s[|a|] == c && !BeginsChar(s);
      }
    }
  }

  // ----- The code ----------------------------------------------------------------------------

  /** Start and end of the first slug, without slashes around it; None is a 400 response. */
  function ParseSiteNameIndices(req: Bytes): (r: Option<(nat, nat)>)
    ensures r.Some? ==> 1 <= r.value.0 <= r.value.1 < |req|
    ensures r.Some? ==> (req[r.value.0 - 1] == SP || req[r.value.0 - 1] == SLASH)
    ensures r.Some? ==> (req[r.value.1] == SLASH || req[r.value.1] == SP)
  {
    var p1 := Find(req, SP, 0);
    if p1 == None then None else
    var i1 := p1.value + 1;
    var p2 := Find(req, SP, i1);
    if p2 == None then None else
    var j1 := if req[i1] == SLASH then i1 + 1 else i1;
    var i2 := Find(req[..p2.value], SLASH, j1);
    Some((j1, if i2.Some? then i2.value else p2.value))
  }

  datatype Removal =
    | Removed(name: Bytes, line: Bytes)
    | BadRequest
    | Panic // replace_range with a range that leaves the line

  /** The end of what is cut out: the slug and the slash behind it, if there is one. */
  function CutEnd(req: Bytes, i2: nat): nat
    requires i2 < |req|
  {
    if req[i2] == SLASH then i2 + 1 else i2
  }

  function SiteNameRemoved(req: Bytes): Removal {
    var ix := ParseSiteNameIndices(req);
    if ix == None then BadRequest else
    var (i1, i2) := ix.value;
    var lf := Find(req, LF, 0);
    if lf == None then BadRequest else
    var line := req[..lf.value + 1];
    if !Utf8(line) then BadRequest
    else if !Boundary(line, i1) || !Boundary(line, CutEnd(req, i2)) then Panic
    else if !Utf8(req[i1..i2]) then BadRequest
    else Removed(req[i1..i2], line[..i1] + line[CutEnd(req, i2)..])
  }

  /** remove_site_name edits a copy of the line in place. */
  method RemoveSiteName(req: Bytes) returns (r: Removal)
    ensures r == SiteNameRemoved(req)
  {
    var ix := ParseSiteNameIndices(req);
    if ix == None { return BadRequest; }
    var (i1, i2) := ix.value;
    var lf := Find(req, LF, 0);
    if lf == None { return BadRequest; }
    var line := req[..lf.value + 1];
    if !Utf8(line) { return BadRequest; }
    var end := i2;
    if req[i2] == SLASH { end := i2 + 1; }
    if !Boundary(line, i1) || !Boundary(line, end) { return Panic; }
    line := line[..i1] + line[end..];
    var name := req[i1..i2];
    if !Utf8(name) { return BadRequest; }
    return Removed(name, line);
  }

  // ----- When it succeeds --------------------------------------------------------------------

  /** Behind an ASCII byte valid text may be cut, and what is cut off is valid. */
  lemma CutBehindAscii(s: Bytes, i: nat)
    requires Utf8(s) && 1 <= i <= |s| && s[i - 1] < 0x80
    ensures Boundary(s, i) && Utf8(s[i..]) && Utf8(s[..i - 1])
  {
    assert s == s[..i - 1] + [s[i - 1]] + s[i..];
    Utf8Split(s[..i - 1], s[i - 1], s[i..]);
  }

  lemma CutAtAscii(s: Bytes, i: nat)
    requires Utf8(s) && i < |s| && s[i] < 0x80
    ensures Boundary(s, i) && Utf8(s[..i])
  {
    CutBehindAscii(s, i + 1);
  }

  lemma Slices(s: Bytes, start: nat, end: nat)
    requires start <= end <= |s|
    ensures s[start..][..end - start] == s[start..end] && s[start..][end - start..] == s[end..]
  {
  }

  lemma SlugIsText(line: Bytes, i1: nat, i2: nat)
    requires Utf8(line) && 1 <= i1 <= i2 < |line| && line[i1 - 1] < 0x80 && line[i2] < 0x80
    ensures Utf8(line[i1..i2])
  {
    CutBehindAscii(line, i1);
    var z, k := line[i1..], i2 - i1;
    assert z[k] == line[i2];
    CutAtAscii(z, k);
    Slices(line, i1, i2);
  }

  /**
   Exactly when remove_site_name succeeds, for any bytes at all. It is a 400 response without two
   spaces, without a line end, or when the first line is not text; otherwise it panics exactly when
   the slug with its slash reaches over the end of that line.
   */
  lemma RemovalOutcome(req: Bytes)
    ensures var ix, lf := ParseSiteNameIndices(req), Find(req, LF, 0);
      if ix == None || lf == None || !Utf8(req[..lf.value + 1]) then SiteNameRemoved(req).BadRequest?
      else if CutEnd(req, ix.value.1) > lf.value + 1 then SiteNameRemoved(req).Panic?
      else SiteNameRemoved(req) == Removed(req[ix.value.0..ix.value.1],
                                           req[..ix.value.0] + req[CutEnd(req, ix.value.1)..lf.value + 1])
  {
    var ix, lf := ParseSiteNameIndices(req), Find(req, LF, 0);
    if ix.Some? && lf.Some? && Utf8(req[..lf.value + 1]) {
      var (i1, i2) := ix.value;
      var line := req[..lf.value + 1];
      if CutEnd(req, i2) <= |line| {
        CutsAreFine(req, line, i1, i2);
        CutsAgree(req, |line|, i1, CutEnd(req, i2));
      }
    }
  }

  lemma CutsAgree(req: Bytes, n: nat, i: nat, end: nat)
    requires i <= end <= n <= |req|
    ensures req[..n][..i] == req[..i] && req[..n][end..] == req[end..n]
  {
  }

  lemma SlugFine(line: Bytes, i1: nat, i2: nat)
    requires Utf8(line) && 1 <= i1 <= i2 <= |line| && line[i1 - 1] < 0x80 && (i2 < |line| ==> line[i2] < 0x80)
    ensures Boundary(line, i1) && Utf8(line[i1..i2])
  {
    CutBehindAscii(line, i1);
    if i2 < |line| { SlugIsText(line, i1, i2); } else { assert line[i1..i2] == line[i1..]; }
  }

  lemma EndFine(line: Bytes, i2: nat, end: nat)
    requires Utf8(line) && (end == i2 || end == i2 + 1) && end <= |line| && (i2 < |line| ==> line[i2] < 0x80)
    ensures Boundary(line, end)
  {
    if i2 < |line| {
      CutAtAscii(line, i2);
      CutBehindAscii(line, i2 + 1);
    }
  }

  /** In valid text both cuts are at character boundaries, and the slug between them is valid. */
  lemma CutsAreFine(req: Bytes, line: Bytes, i1: nat, i2: nat)
    requires Utf8(line) && line <= req && 1 <= i1 <= i2 < |req| && CutEnd(req, i2) <= |line|
    requires req[i1 - 1] < 0x80 && req[i2] < 0x80
    ensures Boundary(line, i1) && Boundary(line, CutEnd(req, i2)) && Utf8(req[i1..i2])
  {
    assert line[i1 - 1] == req[i1 - 1] && req[i1..i2] == line[i1..i2];
    SlugFine(line, i1, i2);
    EndFine(line, i2, CutEnd(req, i2));
  }

  // ----- What it does to a request line ------------------------------------------------------

  /** Method, target and version, up to the first line end. */
  predicate Parts(m: Bytes, t: Bytes, v: Bytes) {
    Without(m, SP) && Without(m, LF) && Without(t, SP) && Without(t, LF) && Without(v, LF)
  }

  function Line(m: Bytes, t: Bytes, v: Bytes): Bytes {
    m + [SP] + t + [SP] + v + [LF]
  }

  function SlugStart(t: Bytes): nat {
    if t != [] && t[0] == SLASH then 1 else 0
  }

  function SlugEnd(t: Bytes): (e: nat)
    ensures SlugStart(t) <= e <= |t|
  {
    var i := Find(t, SLASH, SlugStart(t));
    if i.Some? then i.value else |t|
  }

  function Slug(t: Bytes): Bytes {
    t[SlugStart(t)..SlugEnd(t)]
  }

  /** The target without its slug and the slash behind it. */
  function Stripped(t: Bytes): Bytes {
    t[..SlugStart(t)] + if SlugEnd(t) < |t| then t[SlugEnd(t) + 1..] else []
  }

  lemma LineSlices(m: Bytes, t: Bytes, v: Bytes, line: Bytes)
    requires line == Line(m, t, v)
    ensures line[0..|m|] == m && line[|m|] == SP
    ensures line[|m| + 1..|m| + 1 + |t|] == t && line[|m| + 1 + |t|] == SP
  {
  }

  lemma SlicePrefix(line: Bytes, req: Bytes, i: nat, j: nat)
    requires line <= req && i <= j < |line|
    ensures req[i..j] == line[i..j] && req[j] == line[j]
  {
  }

  lemma FindPast(s: Bytes, a: Bytes, b: Byte, from: nat)
    requires Without(a, b) && from + |a| < |s| && s[from..from + |a|] == a && s[from + |a|] == b
    ensures Find(s, b, from) == Some(from + |a|)
  {
    assert forall j | from <= j < from + |a| :: s[j] == s[from..from + |a|][j - from];
    FindIs(s, b, from, from + |a|);
  }

  /** A method and a target, with a space behind each. */
  predicate Opening(m: Bytes, t: Bytes, req: Bytes) {
    && |m| + |t| + 1 < |req|
    && req[0..|m|] == m && req[|m|] == SP
    && req[|m| + 1..|m| + 1 + |t|] == t && req[|m| + 1 + |t|] == SP
  }

  lemma LineOpens(m: Bytes, t: Bytes, v: Bytes, line: Bytes, req: Bytes)
    requires line == Line(m, t, v) && line <= req
    ensures Opening(m, t, req)
  {
    LineSlices(m, t, v, line);
    SlicePrefix(line, req, 0, |m|);
    SlicePrefix(line, req, |m| + 1, |m| + 1 + |t|);
  }

  lemma Spaces(m: Bytes, t: Bytes, req: Bytes)
    requires Without(m, SP) && Without(t, SP) && Opening(m, t, req)
    ensures Find(req, SP, 0) == Some(|m|) && Find(req, SP, |m| + 1) == Some(|m| + 1 + |t|)
  {
    FindPast(req, m, SP, 0);
    FindPast(req, t, SP, |m| + 1);
  }

  lemma SlashIn(req: Bytes, at: nat, t: Bytes)
    requires at + |t| <= |req| && req[at..at + |t|] == t
    ensures Find(req[..at + |t|], SLASH, at + SlugStart(t)) == if SlugEnd(t) < |t| then Some(at + SlugEnd(t)) else None
  {
    var cut, j1, e := req[..at + |t|], at + SlugStart(t), SlugEnd(t);
    assert forall j | at <= j < at + |t| :: cut[j] == req[at..at + |t|][j - at];
    if e < |t| { FindIs(cut, SLASH, j1, at + e); } else { FindNothing(cut, SLASH, j1); }
  }

  lemma ParseLine(m: Bytes, t: Bytes, v: Bytes, req: Bytes)
    requires Parts(m, t, v) && Line(m, t, v) <= req
    ensures ParseSiteNameIndices(req) == Some((|m| + 1 + SlugStart(t), |m| + 1 + SlugEnd(t)))
  {
    LineOpens(m, t, v, Line(m, t, v), req);
    Spaces(m, t, req);
    SlashIn(req, |m| + 1, t);
    assert t != [] ==> req[|m| + 1..|m| + 1 + |t|][0] == req[|m| + 1];
  }

  lemma LineEnd(m: Bytes, t: Bytes, v: Bytes, req: Bytes)
    requires Parts(m, t, v) && Line(m, t, v) <= req
    ensures Find(req, LF, 0) == Some(|Line(m, t, v)| - 1)
  {
    var line := Line(m, t, v);
    assert forall j | 0 <= j < |line| :: req[j] == line[j];
    FindIs(req, LF, 0, |line| - 1);
  }

  /** The slug, and the line without the slug and the slash behind it. */
  function Cut(line: Bytes, i1: nat, i2: nat): Removal
    requires i1 <= i2 < |line|
  {
    Removed(line[i1..i2], line[..i1] + line[CutEnd(line, i2)..])
  }

  lemma CutMiddle(a: Bytes, t: Bytes, z: Bytes, p: nat, e: nat, q: nat)
    requires p <= e <= q <= |t|
    ensures (a + t + z)[|a| + p..|a| + e] == t[p..e]
    ensures (a + t + z)[..|a| + p] + (a + t + z)[|a| + q..] == a + (t[..p] + t[q..]) + z
  {
  }

  lemma LineAround(m: Bytes, t: Bytes, v: Bytes)
    ensures Line(m, t, v) == (m + [SP]) + t + ([SP] + v + [LF])
  {
  }

  lemma StrippedIs(t: Bytes, q: nat)
    requires q == if SlugEnd(t) < |t| then SlugEnd(t) + 1 else |t|
    ensures Stripped(t) == t[..SlugStart(t)] + t[q..]
  {
  }

  lemma CutEndIs(m: Bytes, t: Bytes, v: Bytes, e: nat)
    requires e <= |t| && (e < |t| ==> t[e] == SLASH)
    ensures |m| + 1 + e < |Line(m, t, v)|
    ensures CutEnd(Line(m, t, v), |m| + 1 + e) == |m| + 1 + if e < |t| then e + 1 else |t|
  {
    assert Line(m, t, v)[|m| + 1 + e] == if e < |t| then SLASH else SP;
  }

  lemma CutLineAt(m: Bytes, t: Bytes, v: Bytes, line: Bytes, p: nat, e: nat, q: nat)
    requires line == Line(m, t, v) && p <= e <= |t| && (e < |t| ==> t[e] == SLASH)
    requires q == if e < |t| then e + 1 else |t|
    ensures |m| + 1 + e < |line|
    ensures Cut(line, |m| + 1 + p, |m| + 1 + e) == Removed(t[p..e], Line(m, t[..p] + t[q..], v))
  {
    CutEndIs(m, t, v, e);
    LineAround(m, t, v);
    LineAround(m, t[..p] + t[q..], v);
    CutMiddle(m + [SP], t, [SP] + v + [LF], p, e, q);
  }

  lemma CutLine(m: Bytes, t: Bytes, v: Bytes, line: Bytes, i1: nat, i2: nat)
    requires line == Line(m, t, v) && i1 == |m| + 1 + SlugStart(t) && i2 == |m| + 1 + SlugEnd(t)
    ensures i1 <= i2 < |line| && Cut(line, i1, i2) == Removed(Slug(t), Line(m, Stripped(t), v))
  {
    var p, e := SlugStart(t), SlugEnd(t);
    var q := if e < |t| then e + 1 else |t|;
    CutLineAt(m, t, v, line, p, e, q);
    StrippedIs(t, q);
  }

  lemma CutWithin(req: Bytes, line: Bytes, i1: nat, i2: nat)
    requires line <= req && i1 <= i2 < |line|
    ensures req[i1..i2] == line[i1..i2] && CutEnd(req, i2) == CutEnd(line, i2)
    ensures req[..i1] == line[..i1] && req[CutEnd(line, i2)..|line|] == line[CutEnd(line, i2)..]
  {
  }

  lemma RemovalWithin(req: Bytes, line: Bytes, i1: nat, i2: nat)
    requires line <= req && Utf8(line) && Find(req, LF, 0) == Some(|line| - 1)
    requires ParseSiteNameIndices(req) == Some((i1, i2)) && i1 <= i2 < |line|
    ensures SiteNameRemoved(req) == Cut(line, i1, i2)
  {
    assert req[..|line|] == line;
    RemovalOutcome(req);
    CutWithin(req, line, i1, i2);
  }

  /**
   For every request line that is text, whatever follows it: the answer is the first slug of the
   target, and the line with just that slug and the slash behind it cut out.
   */
  lemma RemovalOnRequestLine(m: Bytes, t: Bytes, v: Bytes, req: Bytes)
    requires Parts(m, t, v) && Utf8(Line(m, t, v)) && Line(m, t, v) <= req
    ensures SiteNameRemoved(req) == Removed(Slug(t), Line(m, Stripped(t), v))
  {
    var line, i1, i2 := Line(m, t, v), |m| + 1 + SlugStart(t), |m| + 1 + SlugEnd(t);
    ParseLine(m, t, v, req);
    LineEnd(m, t, v, req);
    CutLine(m, t, v, line, i1, i2);
    RemovalWithin(req, line, i1, i2);
  }

  /** A line end between the two spaces: the slug reaches over it, and the cut leaves the line. */
  lemma PanicExample()
    ensures SiteNameRemoved([71, SP, SLASH, 97, LF, 98, 99, SP, 100]).Panic? // G /a\nbc d
  {
    var req: Bytes := [71, SP, SLASH, 97, LF, 98, 99, SP, 100];
    FindIs(req, SP, 0, 1);
    FindIs(req, SP, 2, 7);
    FindNothing(req[..7], SLASH, 3);
    FindIs(req, LF, 0, 4);
    var line := req[..5];
    assert Utf8(line[4..]) && line[3..][1..] == line[4..] && Utf8(line[3..]);
    assert line[2..][1..] == line[3..] && Utf8(line[2..]);
    assert line[1..][1..] == line[2..] && Utf8(line[1..]);
    RemovalOutcome(req);
  }

  // ----- Slugs, one after another ------------------------------------------------------------

  lemma LineIsText(m: Bytes, t: Bytes, v: Bytes)
    ensures Utf8(Line(m, t, v)) <==> Utf8(m) && Utf8(t) && Utf8(v)
  {
    assert Line(m, t, v) == m + [SP] + (t + [SP] + (v + [LF] + []));
    Utf8Split(m, SP, t + [SP] + (v + [LF] + []));
    Utf8Split(t, SP, v + [LF] + []);
    Utf8Split(v, LF, []);
  }

  lemma StrippedIsText(t: Bytes)
    requires Utf8(t)
    ensures Utf8(Stripped(t))
  {
    var e := SlugEnd(t);
    var z := if e < |t| then t[e + 1..] else [];
    if e < |t| { CutBehindAscii(t, e + 1); }
    if SlugStart(t) == 1 {
      assert t[..1] == [SLASH] && Stripped(t) == [] + [SLASH] + z;
      Utf8Split([], SLASH, z);
    } else {
      assert Stripped(t) == z;
    }
  }

  predicate SlugOk(s: Bytes) { Without(s, SP) && Without(s, SLASH) && Without(s, LF) }

  /** s1/s2/../sn/tail */
  function Joined(slugs: seq<Bytes>, tail: Bytes): Bytes {
    if slugs == [] then tail else slugs[0] + [SLASH] + Joined(slugs[1..], tail)
  }

  function Path(slugs: seq<Bytes>, tail: Bytes): Bytes {
    [SLASH] + Joined(slugs, tail)
  }

  lemma StripFirst(slug: Bytes, z: Bytes)
    requires SlugOk(slug)
    ensures var t := [SLASH] + (slug + [SLASH] + z);
            Slug(t) == slug && Stripped(t) == [SLASH] + z
  {
    var t := [SLASH] + (slug + [SLASH] + z);
    assert forall j | 1 <= j < 1 + |slug| :: t[j] == slug[j - 1];
    FindIs(t, SLASH, 1, 1 + |slug|);
  }

  lemma {:induction false} PathParts(m: Bytes, slugs: seq<Bytes>, tail: Bytes, v: Bytes)
    requires Parts(m, tail, v) && forall s | s in slugs :: SlugOk(s)
    ensures Parts(m, Joined(slugs, tail), v) && Parts(m, Path(slugs, tail), v)
  {
    if slugs != [] {
      assert slugs[0] in slugs;
      PathParts(m, slugs[1..], tail, v);
    }
  }

  /** What is taken out of a line, and where: a slug, and the slash behind it if there is one. */
  datatype Piece = Piece(at: nat, name: Bytes, slash: bool)

  function PieceOf(line: Bytes): Piece
    requires SiteNameRemoved(line).Removed?
  {
    var (i1, i2) := ParseSiteNameIndices(line).value;
    Piece(i1, line[i1..i2], line[i2] == SLASH)
  }

  /** The piece put back where it was. */
  function PutBack(line: Bytes, p: Piece): Bytes {
    if p.at <= |line| then line[..p.at] + (p.name + if p.slash then [SLASH] else []) + line[p.at..] else line
  }

  /** remove_site_name as a step: what it takes out, and the line it leaves. */
  function StripOnce(line: Bytes): Option<(Piece, Bytes)> {
    var r := SiteNameRemoved(line);
    if r.Removed? then Some((PieceOf(line), r.line)) else None
  }

  type Stripper = Bytes -> Option<(Piece, Bytes)>

  /** A step applied `n` times, each time to the line the time before left. */
  function StripAll(strip: Stripper, line: Bytes, n: nat): Option<(seq<Piece>, Bytes)>
    decreases n
  {
    if n == 0 then Some(([], line)) else
    var r := strip(line);
    if r == None then None else
    var more := StripAll(strip, r.value.1, n - 1);
    if more == None then None else Some(([r.value.0] + more.value.0, more.value.1))
  }

  /** The pieces put back, the last one first. */
  function PutAllBack(line: Bytes, pieces: seq<Piece>): Bytes {
    if pieces == [] then line else PutBack(PutAllBack(line, pieces[1..]), pieces[0])
  }

  lemma PutBackCut(s: Bytes, i: nat, k: nat, end: nat, slash: bool)
    requires i <= k <= |s| && end == (if slash then k + 1 else k) <= |s| && (slash ==> s[k] == SLASH)
    ensures PutBack(s[..i] + s[end..], Piece(i, s[i..k], slash)) == s
  {
    var cut := s[..i] + s[end..];
    assert cut[..i] == s[..i] && cut[i..] == s[end..];
    assert s[k..end] == if slash then [SLASH] else [];
    assert s == s[..i] + (s[i..k] + s[k..end]) + s[end..];
  }

  lemma PieceBack(req: Bytes, n: nat, i: nat, k: nat, end: nat, slash: bool)
    requires i <= k <= n <= |req| && end == (if slash then k + 1 else k) <= n && (slash ==> req[k] == SLASH)
    ensures PutBack(req[..i] + req[end..n], Piece(i, req[i..k], slash)) == req[..n]
  {
    var s := req[..n];
    CutsAgree(req, n, i, end);
    assert s[i..k] == req[i..k];
    PutBackCut(s, i, k, end, slash);
  }

  /**
   For every request that remove_site_name accepts: its answer is the piece it took out, and with
   that put back into the line it answers, the first line of the request is there again.
   */
  lemma StripIsReversible(req: Bytes)
    requires SiteNameRemoved(req).Removed?
    ensures Find(req, LF, 0).Some? && SiteNameRemoved(req).name == PieceOf(req).name
    ensures PutBack(SiteNameRemoved(req).line, PieceOf(req)) == req[..Find(req, LF, 0).value + 1]
  {
    RemovalOutcome(req);
    var (i1, i2) := ParseSiteNameIndices(req).value;
    PieceBack(req, Find(req, LF, 0).value + 1, i1, i2, CutEnd(req, i2), req[i2] == SLASH);
  }

  /** A line end at its very end at most. */
  predicate SingleLine(line: Bytes) {
    forall j | 0 <= j < |line| - 1 :: line[j] != LF
  }

  lemma CutIsSingle(line: Bytes, i: nat, end: nat)
    requires SingleLine(line) && i <= end <= |line|
    ensures SingleLine(line[..i] + line[end..])
  {
  }

  lemma SingleEnd(line: Bytes)
    requires SingleLine(line) && Find(line, LF, 0).Some?
    ensures Find(line, LF, 0).value + 1 == |line|
  {
  }

  lemma StripStep(line: Bytes)
    requires SingleLine(line) && StripOnce(line).Some?
    ensures PutBack(StripOnce(line).value.1, StripOnce(line).value.0) == line && SingleLine(StripOnce(line).value.1)
  {
    StripIsReversible(line);
    RemovalOutcome(line);
    SingleEnd(line);
    var (i1, i2) := ParseSiteNameIndices(line).value;
    var n, end := |line|, CutEnd(line, i2);
    assert line[..n] == line && line[end..n] == line[end..];
    CutIsSingle(line, i1, end);
  }

  ghost predicate Reversible(strip: Stripper) {
    forall line {:trigger strip(line)} :: SingleLine(line) && strip(line).Some? ==>
      PutBack(strip(line).value.1, strip(line).value.0) == line && SingleLine(strip(line).value.1)
  }

  lemma {:induction false} UndoAll(strip: Stripper, line: Bytes, n: nat)
    requires Reversible(strip) && SingleLine(line) && StripAll(strip, line, n).Some?
    ensures PutAllBack(StripAll(strip, line, n).value.1, StripAll(strip, line, n).value.0) == line
    decreases n
  {
    if n > 0 {
      var (p, next) := strip(line).value;
      UndoAll(strip, next, n - 1);
      var pieces := StripAll(strip, next, n - 1).value.0;
      assert ([p] + pieces)[1..] == pieces;
    }
  }

  /** Stripping is undone by putting the pieces back, on every line and however often it is stripped. */
  lemma StrippingIsReversible(line: Bytes, n: nat)
    requires SingleLine(line) && StripAll(StripOnce, line, n).Some?
    ensures PutAllBack(StripAll(StripOnce, line, n).value.1, StripAll(StripOnce, line, n).value.0) == line
  {
    forall l | SingleLine(l) && StripOnce(l).Some?
      ensures PutBack(StripOnce(l).value.1, StripOnce(l).value.0) == l && SingleLine(StripOnce(l).value.1)
    {
      StripStep(l);
    }
    UndoAll(StripOnce, line, n);
  }

  /** The pieces a path is made of, all taken out at the same place. */
  function PiecesAt(slugs: seq<Bytes>, at: nat): seq<Piece> {
    if slugs == [] then [] else [Piece(at, slugs[0], true)] + PiecesAt(slugs[1..], at)
  }

  lemma FirstPiece(m: Bytes, slug: Bytes, z: Bytes, v: Bytes, t: Bytes)
    requires SlugOk(slug) && t == [SLASH] + (slug + [SLASH] + z) && Parts(m, t, v)
    requires SiteNameRemoved(Line(m, t, v)).Removed?
    ensures PieceOf(Line(m, t, v)) == Piece(|m| + 2, slug, true)
  {
    var line := Line(m, t, v);
    ParseLine(m, t, v, line);
    StripFirst(slug, z);
    var (i1, i2) := ParseSiteNameIndices(line).value;
    CutLine(m, t, v, line, i1, i2);
    CutEndIs(m, t, v, SlugEnd(t));
  }

  lemma StripOne(m: Bytes, slugs: seq<Bytes>, tail: Bytes, v: Bytes)
    requires slugs != [] && Parts(m, tail, v) && (forall s | s in slugs :: SlugOk(s))
    requires Utf8(Line(m, Path(slugs, tail), v))
    ensures StripOnce(Line(m, Path(slugs, tail), v)) ==
            Some((Piece(|m| + 2, slugs[0], true), Line(m, Path(slugs[1..], tail), v)))
    ensures Utf8(Line(m, Path(slugs[1..], tail), v))
  {
    var t := Path(slugs, tail);
    assert slugs[0] in slugs;
    PathParts(m, slugs, tail, v);
    StripFirst(slugs[0], Joined(slugs[1..], tail));
    RemovalOnRequestLine(m, t, v, Line(m, t, v));
    FirstPiece(m, slugs[0], Joined(slugs[1..], tail), v, t);
    LineIsText(m, t, v);
    StrippedIsText(t);
    LineIsText(m, Stripped(t), v);
  }

  /** Stripping yields the slugs of a path in order, and leaves its tail. */
  lemma {:induction false} SlugsComeOffInOrder(m: Bytes, slugs: seq<Bytes>, tail: Bytes, v: Bytes)
    requires Parts(m, tail, v) && (forall s | s in slugs :: SlugOk(s))
    requires Utf8(Line(m, Path(slugs, tail), v))
    ensures StripAll(StripOnce, Line(m, Path(slugs, tail), v), |slugs|) ==
            Some((PiecesAt(slugs, |m| + 2), Line(m, Path([], tail), v)))
  {
    if slugs != [] {
      StripOne(m, slugs, tail, v);
      SlugsComeOffInOrder(m, slugs[1..], tail, v);
    }
  }

  lemma LineIsSingle(m: Bytes, t: Bytes, v: Bytes)
    requires Parts(m, t, v)
    ensures SingleLine(Line(m, t, v))
  {
  }

  /** And with each slug and its slash back in front of the tail, the path is there again. */
  lemma PathRoundTrip(m: Bytes, slugs: seq<Bytes>, tail: Bytes, v: Bytes)
    requires Parts(m, tail, v) && (forall s | s in slugs :: SlugOk(s))
    requires Utf8(Line(m, Path(slugs, tail), v))
    ensures PutAllBack(Line(m, Path([], tail), v), PiecesAt(slugs, |m| + 2)) == Line(m, Path(slugs, tail), v)
  {
    SlugsComeOffInOrder(m, slugs, tail, v);
    PathParts(m, slugs, tail, v);
    LineIsSingle(m, Path(slugs, tail), v);
    StrippingIsReversible(Line(m, Path(slugs, tail), v), |slugs|);
  }

  /** The line of the bare root is a fixed point, with an empty slug. */
  lemma RootIsFixed(m: Bytes, v: Bytes)
    requires Parts(m, [SLASH], v) && Utf8(Line(m, [SLASH], v))
    ensures SiteNameRemoved(Line(m, [SLASH], v)) == Removed([], Line(m, [SLASH], v))
  {
    FindNothing([SLASH], SLASH, 1);
    assert Slug([SLASH]) == [] && Stripped([SLASH]) == [SLASH];
    RemovalOnRequestLine(m, [SLASH], v, Line(m, [SLASH], v));
  }
}
