/**
 What a server that reads what the proxy has written finds in the header section: a reader of header
 fields (section 3.2 of RFC 7230) that knows nothing of the writer, and what it reads behind the proxy.
 */
module HeaderFields {
  import opened MapTypes
  import opened RequestLine
  import opened RequestWriter

  const TAB: Byte := 9

  // ----- Reading a field ---------------------------------------------------------------------

  datatype Field = Field(name: Bytes, value: Bytes)

  predicate IsBlank(b: Byte) { b == SP || b == TAB }

  function TrimmedLeft(s: Bytes): Bytes {
    if s != [] && IsBlank(s[0]) then TrimmedLeft(s[1..]) else s
  }

  function TrimmedRight(s: Bytes): Bytes {
    if s != [] && IsBlank(s[|s| - 1]) then TrimmedRight(s[..|s| - 1]) else s
  }

  /** Without the optional white space around it. */
  function Trimmed(s: Bytes): Bytes {
    TrimmedLeft(TrimmedRight(s))
  }

  /** A line without its line end. */
  function Unended(line: Bytes): Bytes {
    var n := |line|;
    if n >= 2 && line[n - 2] == CR && line[n - 1] == LF then line[..n - 2]
    else if n >= 1 && line[n - 1] == LF then line[..n - 1]
    else line
  }

  /** The name up to the first colon, and the value behind it. */
  function FieldOf(line: Bytes): Option<Field> {
    var l := Unended(line);
    var c := Find(l, COLON, 0);
    if c == None then None else Some(Field(l[..c.value], Trimmed(l[c.value + 1..])))
  }

  // ----- The proxy's own field ---------------------------------------------------------------

  /** A letter and its capital. */
  predicate IsCapitalOf(c: Byte, letter: Byte) {
    97 <= letter <= 122 && c + 32 == letter
  }

  /** The name rusty-proxy-path, in whatever case. */
  predicate IsProxyName(n: Bytes) {
    |n| == 16 && forall i | 0 <= i < 16 :: n[i] == HEADER_NAME[i] || IsCapitalOf(n[i], HEADER_NAME[i])
  }

  predicate HasProxyName(line: Bytes) {
    FieldOf(line).Some? && IsProxyName(FieldOf(line).value.name)
  }

  lemma ConstantsSpelled()
    ensures Spells(HEADER_NAME, "rusty-proxy-path") && Spells(SEPARATOR, ", ") && Spells(CRLF, "\r\n")
  {
  }

  lemma SameUpToCase(have: Byte, i: nat)
    requires i < 16
    ensures Upper(have) == Upper(HEADER_NAME[i]) <==> have == HEADER_NAME[i] || IsCapitalOf(have, HEADER_NAME[i])
  {
  }

  lemma NoColonInName(n: Bytes)
    requires IsProxyName(n)
    ensures Without(n, COLON)
  {
  }

  lemma ColonKept(line: Bytes, i: nat)
    requires i < |line| && line[i] == COLON
    ensures i < |Unended(line)|
  {
  }

  /**
   For every line: the writer takes it for the proxy's header exactly when its field name is the
   proxy's, letter for letter up to case. A field of any other name is no proxy header.
   */
  lemma HeaderLineExactly(line: Bytes)
    ensures IsHttpHeader(line, HEADER_NAME) <==> HasProxyName(line)
  {
    var l := Unended(line);
    forall i: nat | i < 16 && i < |line|
      ensures Upper(line[i]) == Upper(HEADER_NAME[i]) <==>
              line[i] == HEADER_NAME[i] || IsCapitalOf(line[i], HEADER_NAME[i])
    {
      SameUpToCase(line[i], i);
    }
    if IsHttpHeader(line, HEADER_NAME) {
      ColonKept(line, 16);
      assert IsProxyName(l[..16]);
      NoColonInName(l[..16]);
      assert forall j | 0 <= j < 16 :: l[j] == l[..16][j];
      FindIs(l, COLON, 0, 16);
    } else if HasProxyName(line) {
      var n := FieldOf(line).value.name;
      assert forall j | 0 <= j < 16 :: n[j] == line[j];
    }
  }

  // ----- The section as it is read -----------------------------------------------------------

  /** The complete lines before the first line of two bytes. */
  function HeadLines(rest: Bytes): seq<Bytes>
    decreases |rest|
  {
    var lf := Find(rest, LF, 0);
    if lf == None then [] else
    var n := lf.value + 1;
    if n == 2 then [] else [rest[..n]] + HeadLines(rest[n..])
  }

  lemma HeadLinesFirst(rest: Bytes, line: Bytes, more: Bytes)
    requires Begins(rest, line, more)
    ensures HeadLines(rest) == if |line| == 2 then [] else [line] + HeadLines(more)
  {
  }

  /** Any line of the section that carries the proxy's name. */
  predicate AlreadyThere(rest: Bytes) {
    exists l | l in HeadLines(rest) :: HasProxyName(l)
  }

  lemma FirstOrLater(line: Bytes, rest: Bytes, more: Bytes)
    requires HeadLines(rest) == [line] + HeadLines(more)
    ensures AlreadyThere(rest) <==> HasProxyName(line) || AlreadyThere(more)
  {
    assert forall l :: l in HeadLines(rest) <==> l == line || l in HeadLines(more);
  }

  lemma {:induction false} CountedExactly(rest: Bytes)
    ensures ProxyHeaders(rest) > 0 <==> AlreadyThere(rest)
    decreases |rest|
  {
    if Find(rest, LF, 0) != None {
      var line, more := Peel(rest);
      HeadLinesFirst(rest, line, more);
      ProxyHeadersFirst(rest, line, more);
      HeaderLineExactly(line);
      if |line| != 2 {
        CountedExactly(more);
        FirstOrLater(line, rest, more);
      }
    }
  }

  // ----- What the added line says ------------------------------------------------------------

  lemma {:induction false} TrimmedSpace(s: Bytes)
    ensures Trimmed([SP] + s) == Trimmed(s)
    decreases |s|
  {
    var t := [SP] + s;
    if s == [] {
      assert t[..0] == [];
    } else if IsBlank(s[|s| - 1]) {
      assert t[..|t| - 1] == [SP] + s[..|s| - 1];
      TrimmedSpace(s[..|s| - 1]);
    } else {
      assert t[1..] == s;
    }
  }

  /** Nothing is trimmed off a name exactly when no blank is at either end of it. */
  lemma TrimmedExactly(s: Bytes)
    ensures Trimmed(s) == s <==> s == [] || (!IsBlank(s[0]) && !IsBlank(s[|s| - 1]))
  {
    TrimmedShorter(s);
  }

  lemma {:induction false} LeftShorter(s: Bytes)
    ensures |TrimmedLeft(s)| <= |s|
  {
    if s != [] && IsBlank(s[0]) { LeftShorter(s[1..]); }
  }

  lemma {:induction false} RightShorter(s: Bytes)
    ensures |TrimmedRight(s)| <= |s|
  {
    if s != [] && IsBlank(s[|s| - 1]) { RightShorter(s[..|s| - 1]); }
  }

  lemma TrimmedShorter(s: Bytes)
    ensures s != [] && (IsBlank(s[0]) || IsBlank(s[|s| - 1])) ==> |Trimmed(s)| < |s|
  {
    if s != [] {
      LeftShorter(TrimmedRight(s));
      RightShorter(s);
      if IsBlank(s[|s| - 1]) { RightShorter(s[..|s| - 1]); } else { LeftShorter(s[1..]); }
    }
  }

  lemma AddedEnds(name: Bytes)
    ensures Unended(Added(name)) == HEADER_START + name
  {
    var a := Added(name);
    assert a[|a| - 2] == CR && a[|a| - 1] == LF;
    assert a[..|a| - 2] == HEADER_START + name;
  }

  /** HEADER_START up to its colon. */
  const OWN_NAME: Bytes := [82, 117, 115, 116, 121, 45, 80, 114, 111, 120, 121, 45, 80, 97, 116, 104]

  lemma NameOfStart()
    ensures HEADER_START == OWN_NAME + [COLON, SP] && Without(OWN_NAME, COLON) && Without(OWN_NAME, LF)
    ensures Spells(OWN_NAME, "Rusty-Proxy-Path")
  {
  }

  lemma StartOfAdded(name: Bytes)
    ensures var l := HEADER_START + name;
            Find(l, COLON, 0) == Some(16) && l[..16] == OWN_NAME && l[17..] == [SP] + name
  {
    NameOfStart();
    ColonBehind(HEADER_START + name, OWN_NAME, [SP] + name);
  }

  lemma ColonBehind(l: Bytes, n: Bytes, x: Bytes)
    requires l == n + [COLON] + x && Without(n, COLON)
    ensures Find(l, COLON, 0) == Some(|n|) && l[..|n|] == n && l[|n| + 1..] == x
  {
    assert forall j | 0 <= j < |n| :: l[j] == n[j];
    FindIs(l, COLON, 0, |n|);
  }

  /** A reader finds the proxy's field in the added line, spelled so, and the name as its value. */
  lemma AddedSays(name: Bytes)
    ensures FieldOf(Added(name)).Some?
    ensures Spells(FieldOf(Added(name)).value.name, "Rusty-Proxy-Path")
    ensures FieldOf(Added(name)).value.value == Trimmed(name)
    ensures FieldOf(Added(name)).value.value == name <==>
            name == [] || (!IsBlank(name[0]) && !IsBlank(name[|name| - 1]))
  {
    TrimmedExactly(name);
    AddedEnds(name);
    StartOfAdded(name);
    NameOfStart();
    TrimmedSpace(name);
  }

  lemma {:induction false} HeadLinesOut(rest: Bytes, name: Bytes)
    requires Without(name, LF) && HeadEnd(rest) < |rest|
    ensures HeadLines(WithHeader(rest, name)) == HeadLines(rest) + [Added(name)]
    decreases |rest|
  {
    HeadInside(rest);
    var line, more := FirstLineOf(rest);
    HeadEndFirst(rest, line, more);
    HeadLinesFirst(rest, line, more);
    WithBlankFirst(rest, line, more, Blank(false, name));
    if |line| == 2 {
      AddedThenBlank(name, more);
    } else {
      HeadLinesOut(more, name);
      OneMoreLine(line, WithHeader(more, name), HeadLines(more), Added(name));
    }
  }

  lemma OneMoreLine(line: Bytes, x: Bytes, lines: seq<Bytes>, last: Bytes)
    requires OneLine(line) && |line| != 2 && HeadLines(x) == lines + [last]
    ensures HeadLines(line + x) == [line] + lines + [last]
  {
    FirstLine(line, x);
    HeadLinesFirst(line + x, line, x);
    assert [line] + (lines + [last]) == [line] + lines + [last];
  }

  lemma AddedThenBlank(name: Bytes, x: Bytes)
    requires Without(name, LF)
    ensures HeadLines(Blank(false, name) + x) == [Added(name)]
  {
    assert Blank(false, name) + x == Added(name) + (CRLF + x);
    AddedIsOneLine(name);
    FirstLine(Added(name), CRLF + x);
    HeadLinesFirst(Added(name) + (CRLF + x), Added(name), CRLF + x);
    FindIs(CRLF, LF, 0, 1);
    FirstLine(CRLF, x);
    HeadLinesFirst(CRLF + x, CRLF, x);
  }

  /**
   A request line of text and a header section that ends in the buffer, as a server reads them behind
   the proxy: the lines that were there, and one more whose field is called Rusty-Proxy-Path and has
   the slug as its value. It panics exactly when one of the lines is called so already.
   */
  lemma ForwardAddsField(m: Bytes, t: Bytes, v: Bytes, rest: Bytes, lossy: Bytes -> Bytes) returns (added: Bytes)
    requires Parts(m, t, v) && Utf8(Line(m, t, v)) && HeadEnd(rest) < |rest|
    ensures var w := Written(Arriving(m, t, v, rest), Slug(t), Line(m, Stripped(t), v), lossy);
            && (w.Panicked? <==> AlreadyThere(rest))
            && (w.Sent? ==> Line(m, Stripped(t), v) <= w.out
                            && HeadLines(w.out[|Line(m, Stripped(t), v)|..]) == HeadLines(rest) + [added])
    ensures FieldOf(added).Some? && Spells(FieldOf(added).value.name, "Rusty-Proxy-Path")
    ensures FieldOf(added).value.value == Trimmed(Slug(t))
  {
    added := Added(Slug(t));
    ForwardExact(m, t, v, rest, lossy);
    CountedExactly(rest);
    StrippedParts(m, t, v);
    HeadLinesOut(rest, Slug(t));
    AddedSays(Slug(t));
    LineThen(Line(m, Stripped(t), v), WithHeader(rest, Slug(t)));
  }

  lemma LineThen(line: Bytes, x: Bytes)
    ensures line <= line + x && (line + x)[|line|..] == x
  {
  }

  // ----- The section as it is built ----------------------------------------------------------

  /** The line of a field, its value as it stands, blanks included. */
  function FieldLine(f: Field): Bytes {
    f.name + [COLON] + f.value + CRLF
  }

  function Section(fields: seq<Field>): Bytes {
    if fields == [] then [] else FieldLine(fields[0]) + Section(fields[1..])
  }

  predicate WellFormed(f: Field) {
    Without(f.name, COLON) && Without(f.name, LF) && Without(f.value, LF)
  }

  lemma FieldLineIsOne(f: Field)
    requires WellFormed(f)
    ensures OneLine(FieldLine(f)) && |FieldLine(f)| > 2 && (HasProxyName(FieldLine(f)) <==> IsProxyName(f.name))
  {
    var l := FieldLine(f);
    assert l == (f.name + [COLON] + f.value + [CR]) + [LF];
    assert forall j | 0 <= j < |l| - 1 :: l[j] != LF;
    FindIs(l, LF, 0, |l| - 1);
    FieldLineName(f);
  }

  lemma FieldLineName(f: Field)
    requires WellFormed(f)
    ensures FieldOf(FieldLine(f)) == Some(Field(f.name, Trimmed(f.value)))
  {
    var l, u := FieldLine(f), f.name + [COLON] + f.value;
    assert l[|l| - 2] == CR && l[|l| - 1] == LF && l[..|l| - 2] == u;
    ColonBehind(u, f.name, f.value);
  }

  predicate Named(fields: seq<Field>) {
    exists f | f in fields :: IsProxyName(f.name)
  }

  /** A section of these fields with the blank line and a body behind it. */
  function Built(fields: seq<Field>, body: Bytes): Bytes {
    Section(fields) + (CRLF + body)
  }

  lemma SectionSplits(fields: seq<Field>, line: Bytes, more: Bytes, x: Bytes)
    requires fields != [] && line == FieldLine(fields[0]) && more == Section(fields[1..])
    ensures Section(fields) + x == line + (more + x)
  {
    assert Section(fields) == line + more;
  }

  lemma BuiltNext(fields: seq<Field>, body: Bytes)
    requires fields != [] && WellFormed(fields[0])
    ensures Begins(Built(fields, body), FieldLine(fields[0]), Built(fields[1..], body))
    ensures Built(fields, body) == FieldLine(fields[0]) + Built(fields[1..], body)
  {
    var line, more := FieldLine(fields[0]), fields[1..];
    FieldLineIsOne(fields[0]);
    SectionSplits(fields, line, Section(more), CRLF + body);
    FirstLine(line, Section(more) + (CRLF + body));
  }

  lemma BlankBegins(body: Bytes)
    ensures Begins(Built([], body), CRLF, body)
  {
    FindIs(CRLF, LF, 0, 1);
    FirstLine(CRLF, body);
    assert Built([], body) == CRLF + body;
  }

  lemma FirstNamed(f: Field, more: seq<Field>, fields: seq<Field>)
    requires fields == [f] + more
    ensures Named(fields) <==> IsProxyName(f.name) || Named(more)
  {
    assert forall g :: g in fields <==> g == f || g in more;
  }

  lemma {:induction false} BuiltCounts(fields: seq<Field>, body: Bytes)
    requires forall f | f in fields :: WellFormed(f)
    ensures ProxyHeaders(Built(fields, body)) > 0 <==> Named(fields)
  {
    if fields == [] {
      BlankBegins(body);
      ProxyHeadersFirst(Built([], body), CRLF, body);
    } else {
      var line, more := FieldLine(fields[0]), fields[1..];
      BuiltNext(fields, body);
      BuiltCounts(more, body);
      FieldLineIsOne(fields[0]);
      HeaderLineExactly(line);
      ProxyHeadersFirst(Built(fields, body), line, Built(more, body));
      FirstNamed(fields[0], more, fields);
    }
  }

  /** The proxy's field for a slug. */
  function ProxyField(name: Bytes): Field {
    Field(OWN_NAME, [SP] + name)
  }

  lemma AddedIsFieldLine(name: Bytes)
    ensures FieldLine(ProxyField(name)) == Added(name)
  {
    NameOfStart();
  }

  lemma SectionNext(f: Field, more: seq<Field>)
    ensures Section([f] + more) == FieldLine(f) + Section(more)
  {
    assert ([f] + more)[1..] == more;
  }

  lemma OneMoreField(name: Bytes, body: Bytes)
    ensures Built([ProxyField(name)], body) == Blank(false, name) + body
  {
    AddedIsFieldLine(name);
    SectionNext(ProxyField(name), []);
    assert [ProxyField(name)] + [] == [ProxyField(name)];
    assert Section([ProxyField(name)]) == Added(name);
    assert Added(name) + (CRLF + body) == (Added(name) + CRLF) + body;
  }

  lemma {:induction false} BuiltWithHeader(fields: seq<Field>, body: Bytes, name: Bytes)
    requires forall f | f in fields :: WellFormed(f)
    ensures WithHeader(Built(fields, body), name) == Built(fields + [ProxyField(name)], body)
  {
    if fields == [] {
      BlankBegins(body);
      WithBlankFirst(Built([], body), CRLF, body, Blank(false, name));
      OneMoreField(name, body);
      assert [] + [ProxyField(name)] == [ProxyField(name)];
    } else {
      var line, more := FieldLine(fields[0]), fields[1..];
      BuiltNext(fields, body);
      FieldLineIsOne(fields[0]);
      BuiltWithHeader(more, body, name);
      WithBlankFirst(Built(fields, body), line, Built(more, body), Blank(false, name));
      var all := fields + [ProxyField(name)];
      assert all[0] == fields[0] && all[1..] == more + [ProxyField(name)];
      BuiltNext(all, body);
    }
  }

  /**
   The law of forwarding, on every request built from a request line of text, any well-formed fields
   and any body: exactly when no field has the proxy's name, in whatever case, it comes out with the
   slug taken from its target and one field added behind the others, all else as it was. Else it panics.
   */
  lemma ForwardFields(m: Bytes, t: Bytes, v: Bytes, fields: seq<Field>, body: Bytes, lossy: Bytes -> Bytes)
    requires Parts(m, t, v) && Utf8(Line(m, t, v)) && forall f | f in fields :: WellFormed(f)
    ensures Written(Line(m, t, v) + Built(fields, body), Slug(t), Line(m, Stripped(t), v), lossy) ==
            if Named(fields) then Panicked
            else Sent(Line(m, Stripped(t), v) + Built(fields + [ProxyField(Slug(t))], body))
    ensures Spells(ProxyField(Slug(t)).name, "Rusty-Proxy-Path") && ProxyField(Slug(t)).value == [SP] + Slug(t)
  {
    ForwardExact(m, t, v, Built(fields, body), lossy);
    BuiltCounts(fields, body);
    BuiltWithHeader(fields, body, Slug(t));
    NameOfStart();
  }

  // ----- An instance, byte for byte ----------------------------------------------------------

  /** Its name begins with the letter that the proxy's begins with. */
  const REFERER: Field :=
    Field([82, 101, 102, 101, 114, 101, 114], [SP, 104, 116, 116, 112, COLON, SLASH, SLASH, 104, SLASH])

  lemma RefererIsFine()
    ensures WellFormed(REFERER) && !IsProxyName(REFERER.name)
    ensures Spells(FieldLine(REFERER), "Referer: http://h/\r\n")
  {
  }

  lemma {:induction false} AsciiIsText(s: Bytes)
    requires forall i | 0 <= i < |s| :: s[i] < 0x80
    ensures Utf8(s)
  {
    if s != [] { AsciiIsText(s[1..]); }
  }

  lemma LineOfInstance()
    ensures Parts([71], [SLASH, 97], [86]) && Utf8(Line([71], [SLASH, 97], [86]))
    ensures Slug([SLASH, 97]) == [97] && Stripped([SLASH, 97]) == [SLASH]
    ensures Spells(Line([71], [SLASH, 97], [86]), "G /a V\n") && Spells(Line([71], [SLASH], [86]), "G / V\n")
  {
    AsciiIsText(Line([71], [SLASH, 97], [86]));
    FindNothing([SLASH, 97], SLASH, 1);
  }

  lemma FieldOfInstance()
    ensures Spells(FieldLine(ProxyField([97])), "Rusty-Proxy-Path: a\r\n")
  {
    AddedIsFieldLine([97]);
  }

  /** What is said of each part of a message, in order. */
  lemma SpellsBoth(a: Bytes, b: Bytes, x: string, y: string)
    requires Spells(a, x) && Spells(b, y)
    ensures Spells(a + b, x + y)
  {
  }

  lemma SpelledOnce(a: Bytes, b: Bytes, text: string)
    requires Spells(a, text) && Spells(b, text)
    ensures a == b
  {
  }

  lemma InstanceIn(req: Bytes)
    requires Spells(req, "G /a V\n" + ("Referer: http://h/\r\n" + "\r\n"))
    ensures req == Line([71], [SLASH, 97], [86]) + Built([REFERER], [])
  {
    var line, field := Line([71], [SLASH, 97], [86]), FieldLine(REFERER);
    LineOfInstance();
    RefererIsFine();
    SpellsBoth(field, CRLF, "Referer: http://h/\r\n", "\r\n");
    SpellsBoth(line, field + CRLF, "G /a V\n", "Referer: http://h/\r\n" + "\r\n");
    SectionNext(REFERER, []);
    SpelledOnce(req, line + (field + CRLF), "G /a V\n" + ("Referer: http://h/\r\n" + "\r\n"));
    assert [REFERER] + [] == [REFERER];
  }

  lemma InstanceOut(out: Bytes)
    requires out == Line([71], [SLASH], [86]) + Built([REFERER, ProxyField([97])], [])
    ensures Spells(out, "G / V\n" + ("Referer: http://h/\r\n" + ("Rusty-Proxy-Path: a\r\n" + "\r\n")))
  {
    var line, field, own := Line([71], [SLASH], [86]), FieldLine(REFERER), FieldLine(ProxyField([97]));
    LineOfInstance();
    RefererIsFine();
    FieldOfInstance();
    SpellsBoth(own, CRLF, "Rusty-Proxy-Path: a\r\n", "\r\n");
    SpellsBoth(field, own + CRLF, "Referer: http://h/\r\n", "Rusty-Proxy-Path: a\r\n" + "\r\n");
    SpellsBoth(line, field + (own + CRLF), "G / V\n", "Referer: http://h/\r\n" + ("Rusty-Proxy-Path: a\r\n" + "\r\n"));
    InstanceSection();
  }

  lemma InstanceSection()
    ensures Built([REFERER, ProxyField([97])], []) == FieldLine(REFERER) + (FieldLine(ProxyField([97])) + CRLF)
  {
    SectionNext(ProxyField([97]), []);
    SectionNext(REFERER, [ProxyField([97])]);
    assert [ProxyField([97])] + [] == [ProxyField([97])];
    assert [REFERER] + [ProxyField([97])] == [REFERER, ProxyField([97])];
  }

  lemma Forwarded(m: Bytes, t: Bytes, v: Bytes, fields: seq<Field>, req: Bytes, slug: Bytes, line: Bytes, out: Bytes,
                  lossy: Bytes -> Bytes)
    requires Parts(m, t, v) && Utf8(Line(m, t, v)) && !Named(fields) && forall f | f in fields :: WellFormed(f)
    requires req == Line(m, t, v) + Built(fields, []) && slug == Slug(t) && line == Line(m, Stripped(t), v)
    requires out == line + Built(fields + [ProxyField(slug)], [])
    ensures SiteNameRemoved(req) == Removed(slug, line) && Written(req, slug, line, lossy) == Sent(out)
  {
    ForwardFields(m, t, v, fields, [], lossy);
    ForwardExact(m, t, v, Built(fields, []), lossy);
  }

  /** A request with a Referer field goes out with the proxy's field behind it, spelled out in full. */
  lemma RefererPasses(req: Bytes, line: Bytes, lossy: Bytes -> Bytes) returns (out: Bytes)
    requires Spells(req, "G /a V\n" + ("Referer: http://h/\r\n" + "\r\n")) && Spells(line, "G / V\n")
    ensures SiteNameRemoved(req) == Removed([97], line)
    ensures Written(req, [97], line, lossy) == Sent(out)
    ensures Spells(out, "G / V\n" + ("Referer: http://h/\r\n" + ("Rusty-Proxy-Path: a\r\n" + "\r\n")))
  {
    InstanceIn(req);
    LineOfInstance();
    RefererIsFine();
    SpelledOnce(line, Line([71], [SLASH], [86]), "G / V\n");
    assert [REFERER] + [ProxyField([97])] == [REFERER, ProxyField([97])];
    out := line + Built([REFERER, ProxyField([97])], []);
    Forwarded([71], [SLASH, 97], [86], [REFERER], req, [97], line, out, lossy);
    InstanceOut(out);
  }
}
