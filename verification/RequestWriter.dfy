/**
 Forwarding a request: its lines go out as they came, with the proxy's own header added at the end of
 the header section, and the body must be found again where it was.
 */
module RequestWriter {
  import opened MapTypes
  import opened RequestLine

  const CRLF: Bytes := [CR, LF]
  /** rusty-proxy-path */
  const HEADER_NAME: Bytes := [114, 117, 115, 116, 121, 45, 112, 114, 111, 120, 121, 45, 112, 97, 116, 104]
  /** Rusty-Proxy-Path, a colon and a space */
  const HEADER_START: Bytes := [82, 117, 115, 116, 121, 45, 80, 114, 111, 120, 121, 45, 80, 97, 116, 104, 58, 32]
  /** A comma and a space */
  const SEPARATOR: Bytes := [44, 32]

  function Upper(b: Byte): Byte {
    if 97 <= b <= 122 then b - 32 else b
  }

  predicate IsHttpHeader(have: Bytes, want: Bytes) {
    && |have| > |want|
    && (forall i | 0 <= i < |want| :: Upper(have[i]) == Upper(want[i]))
    && have[|want|] == COLON
  }

  // ----- Writing -----------------------------------------------------------------------------

  datatype Outcome = Sent(out: Bytes) | Panicked

  function Then(before: Bytes, o: Outcome): Outcome {
    if o.Sent? then Sent(before + o.out) else Panicked
  }

  /** The header line that write_req adds. */
  function Added(name: Bytes): Bytes {
    HEADER_START + name + CRLF
  }

  /** What the empty line becomes. */
  function Blank(added: bool, name: Bytes): Bytes {
    if added then CRLF else Added(name) + CRLF
  }

  /** What an existing header line becomes; `start` counts from the start of the request. */
  function Merged(line: Bytes, start: nat, name: Bytes, lossy: Bytes -> Bytes): Outcome
    requires |line| >= 2
  {
    if start + |line| - 2 > |line| then Panicked
    else Sent(lossy(line[..start + |line| - 2]) + SEPARATOR + name + CRLF)
  }

  predicate IsOld(line: Bytes, added: bool) {
    !added && IsHttpHeader(line, HEADER_NAME)
  }

  /** What the loop does with one line: write this and go on, or stop with that. */
  datatype Next = Go(emitted: Bytes) | Stop(o: Outcome)

  /** The line that begins at `start`; `more` is what follows it. */
  function NextOf(line: Bytes, start: nat, added: bool, name: Bytes, lossy: Bytes -> Bytes, more: Bytes): Next {
    if |line| == 2 then Stop(Sent(Blank(added, name) + more))
    else if !IsOld(line, added) then Go(line)
    else match Merged(line, start, name, lossy) case Panicked => Stop(Panicked) case Sent(m) => Go(m)
  }

  function Follow(next: Next, rest: Outcome): Outcome {
    match next case Stop(o) => o case Go(b) => Then(b, rest)
  }

  /** The loop of write_req from the line at `start` on; `rest` is the request from there. */
  function WriteLines(rest: Bytes, start: nat, added: bool, name: Bytes, lossy: Bytes -> Bytes): Outcome
    decreases |rest|
  {
    var lf := Find(rest, LF, 0);
    if lf == None then Sent(rest) else
    var n := lf.value + 1;
    var (line, more) := (rest[..n], rest[n..]);
    Follow(NextOf(line, start, added, name, lossy, more),
           WriteLines(more, start + n, added || IsOld(line, added), name, lossy))
  }

  function Written(req: Bytes, name: Bytes, firstLine: Bytes, lossy: Bytes -> Bytes): Outcome {
    var lf := Find(req, LF, 0);
    Then(firstLine, if lf == None then Sent(req) else LinesFrom(req, lf.value + 1, false, name, lossy))
  }

  function LinesFrom(req: Bytes, start: nat, added: bool, name: Bytes, lossy: Bytes -> Bytes): Outcome
    requires start <= |req|
  {
    WriteLines(req[start..], start, added, name, lossy)
  }

  lemma ThenThen(a: Bytes, b: Bytes, o: Outcome)
    ensures Then(a, Then(b, o)) == Then(a + b, o)
  {
    if o.Sent? { assert a + (b + o.out) == a + b + o.out; }
  }

  lemma FindShift(req: Bytes, b: Byte, from: nat)
    requires from <= |req|
    ensures Find(req, b, from) == match Find(req[from..], b, 0) case None => None case Some(i) => Some(from + i)
  {
    var r := Find(req[from..], b, 0);
    if r.Some? {
      assert forall j | from <= j < from + r.value :: req[j] == req[from..][j - from];
      FindIs(req, b, from, from + r.value);
    } else {
      assert forall j | from <= j < |req| :: req[j] == req[from..][j - from];
      FindNothing(req, b, from);
    }
  }

  /** A buffer whose first line is `line`. */
  predicate Begins(rest: Bytes, line: Bytes, more: Bytes) {
    Find(rest, LF, 0) == Some(|line| - 1) && rest[..|line|] == line && rest[|line|..] == more
  }

  lemma Peel(rest: Bytes) returns (line: Bytes, more: Bytes)
    requires Find(rest, LF, 0).Some?
    ensures Begins(rest, line, more) && line != [] && |more| < |rest|
  {
    var n := Find(rest, LF, 0).value + 1;
    line, more := rest[..n], rest[n..];
  }

  lemma BeginsAt(req: Bytes, start: nat, end: nat)
    requires start < end <= |req| && Find(req, LF, start) == Some(end - 1)
    ensures Begins(req[start..], req[start..end], req[end..])
  {
    FindShift(req, LF, start);
    Slices(req, start, end);
  }

  lemma LinesUnfold(rest: Bytes, line: Bytes, more: Bytes, start: nat, added: bool, name: Bytes, lossy: Bytes -> Bytes)
    requires Begins(rest, line, more)
    ensures WriteLines(rest, start, added, name, lossy) ==
            Follow(NextOf(line, start, added, name, lossy, more),
                   WriteLines(more, start + |line|, added || IsOld(line, added), name, lossy))
  {
  }

  /** One round of the loop, in terms of indices into the whole request. */
  lemma WriteStep(req: Bytes, start: nat, end: nat, line: Bytes, added: bool, name: Bytes, lossy: Bytes -> Bytes)
    requires start < end <= |req| && line == req[start..end] && Find(req, LF, start) == Some(end - 1)
    ensures LinesFrom(req, start, added, name, lossy) ==
            Follow(NextOf(line, start, added, name, lossy, req[end..]),
                   LinesFrom(req, end, added || IsOld(line, added), name, lossy))
  {
    BeginsAt(req, start, end);
    LinesUnfold(req[start..], line, req[end..], start, added, name, lossy);
  }

  lemma WriteLast(req: Bytes, start: nat, added: bool, name: Bytes, lossy: Bytes -> Bytes)
    requires start <= |req| && Find(req, LF, start) == None
    ensures LinesFrom(req, start, added, name, lossy) == Sent(req[start..])
  {
    FindShift(req, LF, start);
  }

  /** The invariant of the loop: what is written and what is still to come make up the whole. */
  lemma WriteOn(out: Bytes, req: Bytes, start: nat, end: nat, line: Bytes, added: bool, name: Bytes,
                lossy: Bytes -> Bytes, next: Next)
    requires start < end <= |req| && line == req[start..end] && Find(req, LF, start) == Some(end - 1)
    requires next == NextOf(line, start, added, name, lossy, req[end..])
    ensures Then(out, LinesFrom(req, start, added, name, lossy)) ==
            match next
            case Stop(o) => Then(out, o)
            case Go(b) => Then(out + b, LinesFrom(req, end, added || IsOld(line, added), name, lossy))
  {
    WriteStep(req, start, end, line, added, name, lossy);
    if next.Go? { ThenThen(out, next.emitted, LinesFrom(req, end, added || IsOld(line, added), name, lossy)); }
  }

  method WriteLine(line: Bytes, start: nat, added: bool, name: Bytes, lossy: Bytes -> Bytes, more: Bytes)
    returns (next: Next, now: bool)
    ensures next == NextOf(line, start, added, name, lossy, more) && now == (added || IsOld(line, added))
  {
    now := added;
    var end := start + |line|;
    if end - start == 2 {
      if !added { return Stop(Sent(Added(name) + CRLF + more)), false; }
      return Stop(Sent(CRLF + more)), true;
    }
    if !added && IsHttpHeader(line, HEADER_NAME) {
      if end - 2 > |line| { return Stop(Panicked), true; }
      return Go(lossy(line[..end - 2]) + SEPARATOR + name + CRLF), true;
    }
    return Go(line), added;
  }

  /** The loop over the lines behind the first, which end at `from`; `before` is written already. */
  method WriteRest(req: Bytes, from: nat, before: Bytes, name: Bytes, lossy: Bytes -> Bytes) returns (r: Outcome)
    requires from <= |req|
    ensures r == Then(before, LinesFrom(req, from, false, name, lossy))
  {
    var out, start, added := before, from, false;
    var lf := Find(req, LF, start);
    while lf.Some?
      invariant start <= |req| && lf == Find(req, LF, start)
      invariant Then(out, LinesFrom(req, start, added, name, lossy)) ==
                Then(before, LinesFrom(req, from, false, name, lossy))
      decreases |req| - start
    {
      var end := lf.value + 1;
      var line := req[start..end];
      var next, now := WriteLine(line, start, added, name, lossy, req[end..]);
      WriteOn(out, req, start, end, line, added, name, lossy, next);
      if next.Stop? { return Then(out, next.o); }
      out, start, added := out + next.emitted, end, now;
      lf := Find(req, LF, start);
    }
    WriteLast(req, start, added, name, lossy);
    return Sent(out + req[start..]);
  }

  method WriteReq(req: Bytes, name: Bytes, firstLine: Bytes, lossy: Bytes -> Bytes) returns (r: Outcome)
    ensures r == Written(req, name, firstLine, lossy)
  {
    var lf := Find(req, LF, 0);
    if lf == None { return Sent(firstLine + req); }
    r := WriteRest(req, lf.value + 1, firstLine, name, lossy);
  }

  // ----- Finding the body --------------------------------------------------------------------

  /** What is left behind the first line that is just CR LF; nothing when that is empty. */
  function Body(rest: Bytes): Option<Bytes>
    decreases |rest|
  {
    var lf := Find(rest, LF, 0);
    if lf == None then None else
    var n := lf.value + 1;
    if rest[..n] == CRLF then (if n == |rest| then None else Some(rest[n..])) else Body(rest[n..])
  }

  /** A line that is just CR LF ends at `e`. */
  predicate BlankLineEnds(req: Bytes, e: nat) {
    2 <= e <= |req| && req[e - 2] == CR && req[e - 1] == LF && (e == 2 || req[e - 3] == LF)
  }

  predicate LineStarts(req: Bytes, start: nat) {
    start <= |req| && (start == 0 || req[start - 1] == LF)
  }

  /** The line from `start` to `end` is the only one that may end between the two. */
  lemma BlankLineIs(req: Bytes, start: nat, end: nat, e: nat)
    requires LineStarts(req, start) && Find(req, LF, start) == Some(end - 1) && start < end && start < e <= end
    ensures BlankLineEnds(req, e) <==> e == end && req[start..end] == CRLF
  {
    if req[start..end] == CRLF {
      assert end == start + 2 && req[start..end][0] == CR && req[start..end][1] == LF;
    }
  }

  /** The body starts behind the first line that is just CR LF, unless that ends the request. */
  method FindBodyStart(req: Bytes) returns (r: Option<nat>)
    ensures r.Some? ==> r.value < |req| && BlankLineEnds(req, r.value)
    ensures r.Some? ==> forall e: nat | e < r.value :: !BlankLineEnds(req, e)
    ensures r == None ==> forall e: nat | e < |req| :: !BlankLineEnds(req, e)
    ensures Body(req) == if r.Some? then Some(req[r.value..]) else None
  {
    var start := 0;
    assert req[0..] == req;
    var next := Find(req, LF, 0);
    while next.Some?
      invariant LineStarts(req, start) && next == Find(req, LF, start)
      invariant forall e: nat | e <= start :: !BlankLineEnds(req, e)
      invariant Body(req) == Body(req[start..])
      decreases |req| - start
    {
      var end := next.value + 1;
      BodyStep(req, start, end);
      forall e: nat | start < e <= end ensures BlankLineEnds(req, e) <==> e == end && req[start..end] == CRLF {
        BlankLineIs(req, start, end, e);
      }
      if req[start..end] == CRLF {
        if end == |req| { return None; }
        return Some(end);
      }
      start := end;
      next := Find(req, LF, start);
    }
    FindShift(req, LF, start);
    return None;
  }

  lemma BodyStep(req: Bytes, start: nat, end: nat)
    requires start < end <= |req| && Find(req, LF, start) == Some(end - 1)
    ensures Body(req[start..]) ==
            if req[start..end] == CRLF then (if end == |req| then None else Some(req[end..])) else Body(req[end..])
  {
    FindShift(req, LF, start);
    Slices(req, start, end);
  }

  // ----- What is written ---------------------------------------------------------------------

  /** Where the first line of just two bytes begins, the end of the buffer if there is none. */
  function HeadEnd(rest: Bytes): (h: nat)
    ensures h == |rest| || h + 2 <= |rest|
    decreases |rest|
  {
    var lf := Find(rest, LF, 0);
    if lf == None then |rest| else
    var n := lf.value + 1;
    if n == 2 then 0 else n + HeadEnd(rest[n..])
  }

  /** How many complete lines before that are the proxy's own header. */
  function ProxyHeaders(rest: Bytes): nat
    decreases |rest|
  {
    var lf := Find(rest, LF, 0);
    if lf == None then 0 else
    var n := lf.value + 1;
    if n == 2 then 0
    else (if IsHttpHeader(rest[..n], HEADER_NAME) then 1 else 0) + ProxyHeaders(rest[n..])
  }

  /** Where the first of them begins. */
  function FirstProxyHeader(rest: Bytes): nat
    requires ProxyHeaders(rest) > 0
    decreases |rest|
  {
    var n := Find(rest, LF, 0).value + 1;
    if IsHttpHeader(rest[..n], HEADER_NAME) then 0 else n + FirstProxyHeader(rest[n..])
  }

  /** Two bytes at `h` replaced, if they are there. */
  function Replaced(s: Bytes, h: nat, mid: Bytes): Bytes
    requires h == |s| || h + 2 <= |s|
  {
    s[..h] + if h < |s| then mid + s[h + 2..] else []
  }

  lemma ReplacedBehind(s: Bytes, n: nat, h: nat, mid: Bytes)
    requires n <= |s| && (h == |s| - n || n + h + 2 <= |s|)
    ensures Replaced(s, n + h, mid) == s[..n] + Replaced(s[n..], h, mid)
  {
    assert s[..n + h] == s[..n] + s[n..][..h];
    if n + h < |s| { assert s[n + h + 2..] == s[n..][h + 2..]; }
  }

  /** The lines behind the first with the header added. */
  function WithHeader(rest: Bytes, name: Bytes): Bytes {
    WithBlank(rest, Blank(false, name))
  }

  /** The lines with the first two-byte line replaced. */
  function WithBlank(rest: Bytes, blank: Bytes): Bytes {
    Replaced(rest, HeadEnd(rest), blank)
  }

  lemma WithBlankFirst(rest: Bytes, line: Bytes, more: Bytes, blank: Bytes)
    requires Begins(rest, line, more)
    ensures |line| == 2 ==> HeadEnd(rest) == 0 && WithBlank(rest, blank) == blank + more
    ensures |line| != 2 ==>
      HeadEnd(rest) == |line| + HeadEnd(more) && WithBlank(rest, blank) == line + WithBlank(more, blank)
  {
    if |line| == 2 {
      assert rest[..0] == [] && [] + (blank + more) == blank + more;
    } else {
      ReplacedBehind(rest, |line|, HeadEnd(more), blank);
    }
  }

  lemma ProxyHeadersFirst(rest: Bytes, line: Bytes, more: Bytes)
    requires Begins(rest, line, more)
    ensures ProxyHeaders(rest) ==
            if |line| == 2 then 0 else (if IsHttpHeader(line, HEADER_NAME) then 1 else 0) + ProxyHeaders(more)
    ensures ProxyHeaders(rest) > 0 ==>
      FirstProxyHeader(rest) == if IsHttpHeader(line, HEADER_NAME) then 0 else |line| + FirstProxyHeader(more)
  {
  }

  lemma NothingReplaced(rest: Bytes, blank: Bytes)
    requires HeadEnd(rest) == |rest|
    ensures WithBlank(rest, blank) == rest
  {
  }

  /** With the header written, the loop only looks for the blank line, and never panics. */
  lemma {:induction false} WriteAdded(rest: Bytes, start: nat, name: Bytes, lossy: Bytes -> Bytes)
    ensures WriteLines(rest, start, true, name, lossy) == Sent(WithBlank(rest, CRLF))
    decreases |rest|
  {
    if Find(rest, LF, 0) == None {
      NothingReplaced(rest, CRLF);
    } else {
      var line, more := Peel(rest);
      LinesUnfold(rest, line, more, start, true, name, lossy);
      WithBlankFirst(rest, line, more, CRLF);
      if |line| != 2 { WriteAdded(more, start + |line|, name, lossy); }
    }
  }

  /** What WriteExact says, for use as its own induction hypothesis. */
  predicate Exact(rest: Bytes, start: nat, name: Bytes, lossy: Bytes -> Bytes) {
    var w := WriteLines(rest, start, false, name, lossy);
    if ProxyHeaders(rest) == 0 then w == Sent(WithHeader(rest, name))
    else w.Panicked? <==> start + FirstProxyHeader(rest) > 2
  }

  lemma ExactBlank(rest: Bytes, line: Bytes, more: Bytes, start: nat, name: Bytes, lossy: Bytes -> Bytes)
    requires Begins(rest, line, more) && |line| == 2
    ensures Exact(rest, start, name, lossy)
  {
    LinesUnfold(rest, line, more, start, false, name, lossy);
    WithBlankFirst(rest, line, more, Blank(false, name));
    ProxyHeadersFirst(rest, line, more);
  }

  lemma ExactHeader(rest: Bytes, line: Bytes, more: Bytes, start: nat, name: Bytes, lossy: Bytes -> Bytes)
    requires Begins(rest, line, more) && |line| != 2 && IsHttpHeader(line, HEADER_NAME)
    ensures Exact(rest, start, name, lossy)
  {
    LinesUnfold(rest, line, more, start, false, name, lossy);
    ProxyHeadersFirst(rest, line, more);
    WriteAdded(more, start + |line|, name, lossy);
  }

  lemma ExactOther(rest: Bytes, line: Bytes, more: Bytes, start: nat, name: Bytes, lossy: Bytes -> Bytes)
    requires Begins(rest, line, more) && line != [] && |line| != 2 && !IsHttpHeader(line, HEADER_NAME)
    requires Exact(more, start + |line|, name, lossy)
    ensures Exact(rest, start, name, lossy)
  {
    LinesUnfold(rest, line, more, start, false, name, lossy);
    ProxyHeadersFirst(rest, line, more);
    WithBlankFirst(rest, line, more, Blank(false, name));
  }

  lemma {:induction false} ExactAlways(rest: Bytes, start: nat, name: Bytes, lossy: Bytes -> Bytes)
    ensures Exact(rest, start, name, lossy)
    decreases |rest|
  {
    if Find(rest, LF, 0) == None {
      NothingReplaced(rest, Blank(false, name));
    } else {
      var line, more := Peel(rest);
      if |line| == 2 {
        ExactBlank(rest, line, more, start, name, lossy);
      } else if IsHttpHeader(line, HEADER_NAME) {
        ExactHeader(rest, line, more, start, name, lossy);
      } else {
        ExactAlways(more, start + |line|, name, lossy);
        ExactOther(rest, line, more, start, name, lossy);
      }
    }
  }

  /**
   What write_req makes of the lines behind the first, which end at `start`. Without a proxy header
   it changes nothing but the first two-byte line, which becomes header and CR LF. With one it panics
   exactly when the first such header begins above index 2 of the request.
   */
  lemma WriteExact(rest: Bytes, start: nat, name: Bytes, lossy: Bytes -> Bytes)
    ensures ProxyHeaders(rest) == 0 ==> WriteLines(rest, start, false, name, lossy) == Sent(WithHeader(rest, name))
    ensures ProxyHeaders(rest) > 0 ==>
      (WriteLines(rest, start, false, name, lossy).Panicked? <==> start + FirstProxyHeader(rest) > 2)
  {
    ExactAlways(rest, start, name, lossy);
  }

  /** What the merged header line and all behind it come out as: `line` begins at `at` in the request. */
  function MergedOut(line: Bytes, at: nat, more: Bytes, name: Bytes, lossy: Bytes -> Bytes): Bytes
    requires 2 <= |line| && at <= 2
  {
    lossy(line[..at + |line| - 2]) + SEPARATOR + name + CRLF + WithBlank(more, CRLF)
  }

  type Writer = (Bytes, nat) -> Outcome

  /** `w` is the loop before a header is written; the trigger keeps its definition out of the induction. */
  ghost predicate Writes(w: Writer, name: Bytes, lossy: Bytes -> Bytes) {
    forall rest, start {:trigger WriteLines(rest, start, false, name, lossy)} ::
      w(rest, start) == WriteLines(rest, start, false, name, lossy)
  }

  /** The loop comes upon the header `line` at `f`, and `more` behind it, and merges it. */
  predicate MergedAt(w: Writer, rest: Bytes, f: nat, start: nat, line: Bytes, more: Bytes, name: Bytes,
                     lossy: Bytes -> Bytes) {
    && f <= |rest| && Begins(rest[f..], line, more) && 2 < |line| && IsHttpHeader(line, HEADER_NAME) && start + f <= 2
    && w(rest, start) == Sent(rest[..f] + MergedOut(line, start + f, more, name, lossy))
  }

  lemma MergeHere(w: Writer, rest: Bytes, line: Bytes, more: Bytes, start: nat, name: Bytes, lossy: Bytes -> Bytes)
    requires Writes(w, name, lossy)
    requires Begins(rest, line, more) && IsHttpHeader(line, HEADER_NAME) && start <= 2
    ensures MergedAt(w, rest, 0, start, line, more, name, lossy)
  {
    LinesUnfold(rest, line, more, start, false, name, lossy);
    WriteAdded(more, start + |line|, name, lossy);
    assert rest[0..] == rest && rest[..0] == [];
  }

  lemma MergeLater(w: Writer, rest: Bytes, first: Bytes, behind: Bytes, f: nat, start: nat, line: Bytes, more: Bytes,
                   name: Bytes, lossy: Bytes -> Bytes)
    requires Writes(w, name, lossy)
    requires Begins(rest, first, behind) && first != [] && |first| != 2 && !IsHttpHeader(first, HEADER_NAME)
    requires MergedAt(w, behind, f, start + |first|, line, more, name, lossy)
    ensures MergedAt(w, rest, |first| + f, start, line, more, name, lossy)
  {
    var out := MergedOut(line, start + |first| + f, more, name, lossy);
    LinesUnfold(rest, first, behind, start, false, name, lossy);
    SplitBehind(rest, first, behind, f, out);
  }

  lemma SplitBehind(rest: Bytes, first: Bytes, behind: Bytes, f: nat, out: Bytes)
    requires Begins(rest, first, behind) && first != [] && f <= |behind|
    ensures |first| + f <= |rest| && rest[|first| + f..] == behind[f..]
    ensures rest[..|first| + f] + out == first + (behind[..f] + out)
  {
    assert rest == first + behind;
    TakeBehind(first, behind, f, out);
  }

  lemma HeaderComes(rest: Bytes, f: nat) returns (first: Bytes, behind: Bytes, g: nat)
    requires ProxyHeaders(rest) > 0 && f == FirstProxyHeader(rest)
    ensures Begins(rest, first, behind) && first != [] && |first| != 2 && |behind| < |rest|
    ensures if IsHttpHeader(first, HEADER_NAME) then f == 0
            else ProxyHeaders(behind) > 0 && g == FirstProxyHeader(behind) && f == |first| + g
  {
    first, behind := Peel(rest);
    ProxyHeadersFirst(rest, first, behind);
    g := f - if IsHttpHeader(first, HEADER_NAME) then 0 else |first|;
  }

  lemma {:induction false} MergesFirst(w: Writer, rest: Bytes, f: nat, start: nat, name: Bytes, lossy: Bytes -> Bytes)
    returns (line: Bytes, more: Bytes)
    requires Writes(w, name, lossy) && ProxyHeaders(rest) > 0 && f == FirstProxyHeader(rest) && start + f <= 2
    ensures MergedAt(w, rest, f, start, line, more, name, lossy)
    decreases |rest|
  {
    var first, behind, g := HeaderComes(rest, f);
    if IsHttpHeader(first, HEADER_NAME) {
      line, more := first, behind;
      MergeHere(w, rest, line, more, start, name, lossy);
    } else {
      line, more := MergesFirst(w, behind, g, start + |first|, name, lossy);
      MergeLater(w, rest, first, behind, g, start, line, more, name, lossy);
    }
  }

  /**
   The other half of WriteExact: a header that begins at index 2 or below, right behind empty lines at
   the very start, is merged, but with the wrong end cut off it.
   */
  lemma WriteMerged(rest: Bytes, f: nat, start: nat, name: Bytes, lossy: Bytes -> Bytes)
    returns (line: Bytes, more: Bytes)
    requires ProxyHeaders(rest) > 0 && f == FirstProxyHeader(rest) && start + f <= 2
    ensures f <= |rest| && Begins(rest[f..], line, more) && 2 < |line| && IsHttpHeader(line, HEADER_NAME)
    ensures WriteLines(rest, start, false, name, lossy) ==
            Sent(rest[..f] + MergedOut(line, start + f, more, name, lossy))
  {
    var w: Writer := (r: Bytes, at: nat) => WriteLines(r, at, false, name, lossy);
    line, more := MergesFirst(w, rest, f, start, name, lossy);
  }

  /** What is left of a request behind its first line end: all of it, if there is none. */
  function Behind(req: Bytes): (rest: Bytes)
    ensures |rest| <= |req| && req[|req| - |rest|..] == rest
  {
    var lf := Find(req, LF, 0);
    if lf == None then req else req[lf.value + 1..]
  }

  lemma NoLineEnd(req: Bytes, name: Bytes)
    requires Find(req, LF, 0) == None
    ensures ProxyHeaders(req) == 0 && WithHeader(req, name) == req
  {
    NothingReplaced(req, Blank(false, name));
  }

  /**
   write_req as a whole, on any bytes: the first line it is given goes out for the first line there
   was, then the rest with the header added; or it panics, exactly as WriteExact says.
   */
  lemma WrittenExactly(req: Bytes, rest: Bytes, name: Bytes, firstLine: Bytes, lossy: Bytes -> Bytes)
    requires rest == Behind(req)
    ensures ProxyHeaders(rest) == 0 ==> Written(req, name, firstLine, lossy) == Sent(firstLine + WithHeader(rest, name))
    ensures ProxyHeaders(rest) > 0 ==>
      (Written(req, name, firstLine, lossy).Panicked? <==> |req| - |rest| + FirstProxyHeader(rest) > 2)
  {
    if Find(req, LF, 0) == None { NoLineEnd(req, name); }
    WriteExact(rest, |req| - |rest|, name, lossy);
  }

  // ----- Line by line ------------------------------------------------------------------------

  predicate OneLine(line: Bytes) {
    Find(line, LF, 0) == Some(|line| - 1)
  }

  lemma FirstLine(line: Bytes, x: Bytes)
    requires OneLine(line)
    ensures Begins(line + x, line, x)
  {
    var s := line + x;
    assert forall j | 0 <= j < |line| :: s[j] == line[j];
    FindIs(s, LF, 0, |line| - 1);
  }

  lemma FirstLineOf(rest: Bytes) returns (line: Bytes, more: Bytes)
    requires Find(rest, LF, 0).Some?
    ensures Begins(rest, line, more) && OneLine(line) && rest == line + more
  {
    var n := Find(rest, LF, 0).value + 1;
    line, more := rest[..n], rest[n..];
    assert forall j | 0 <= j < n :: line[j] == rest[j];
    FindIs(line, LF, 0, n - 1);
  }

  lemma TakeBehind(a: Bytes, s: Bytes, h: nat, x: Bytes)
    requires h <= |s|
    ensures (a + s)[..|a| + h] + x == a + (s[..h] + x)
  {
    assert (a + s)[..|a| + h] == a + s[..h];
  }

  lemma BodyBehindLine(line: Bytes, x: Bytes)
    requires OneLine(line) && line != CRLF
    ensures Body(line + x) == Body(x)
  {
    FirstLine(line, x);
  }

  lemma HeadEndFirst(rest: Bytes, line: Bytes, more: Bytes)
    requires Begins(rest, line, more)
    ensures HeadEnd(rest) == if |line| == 2 then 0 else |line| + HeadEnd(more)
  {
  }

  lemma BodyBehindNext(rest: Bytes, h: nat, line: Bytes, more: Bytes, g: nat, x: Bytes)
    requires OneLine(line) && line != CRLF && rest == line + more && h == |line| + g && g <= |more|
    ensures Body(rest[..h] + x) == Body(more[..g] + x)
  {
    BodyBehindLine(line, more[..g] + x);
    TakeBehind(line, more, g, x);
  }

  lemma HeadInside(rest: Bytes)
    requires HeadEnd(rest) < |rest|
    ensures Find(rest, LF, 0).Some?
  {
  }

  lemma HeadParts(rest: Bytes, h: nat) returns (line: Bytes, more: Bytes, g: nat)
    requires 0 < h == HeadEnd(rest) < |rest|
    ensures OneLine(line) && line != CRLF && rest == line + more && h == |line| + g && g == HeadEnd(more) < |more|
    ensures |more| < |rest|
  {
    HeadInside(rest);
    line, more := FirstLineOf(rest);
    HeadEndFirst(rest, line, more);
    g := h - |line|;
  }

  /** Lines that are not of two bytes hold no body start: only what follows them counts. */
  lemma {:induction false} BodyBehindHead(rest: Bytes, h: nat, x: Bytes)
    requires h == HeadEnd(rest) < |rest|
    ensures Body(rest[..h] + x) == Body(x)
    decreases |rest|
  {
    if h == 0 {
      assert rest[..0] + x == x;
    } else {
      var line, more, g := HeadParts(rest, h);
      BodyBehindHead(more, g, x);
      BodyBehindNext(rest, h, line, more, g, x);
    }
  }

  lemma {:induction false} NoBody(rest: Bytes)
    requires HeadEnd(rest) == |rest|
    ensures Body(rest) == None
    decreases |rest|
  {
    var lf := Find(rest, LF, 0);
    if lf.Some? { NoBody(rest[lf.value + 1..]); }
  }

  lemma {:induction false} BodyIsShorter(x: Bytes)
    ensures Body(x).Some? ==> |Body(x).value| < |x|
    decreases |x|
  {
    var lf := Find(x, LF, 0);
    if lf.Some? { BodyIsShorter(x[lf.value + 1..]); }
  }

  /** All that follows, as find_body_start would report it. */
  function Payload(x: Bytes): Option<Bytes> {
    if x == [] then None else Some(x)
  }

  lemma BodyBehindBlank(x: Bytes)
    ensures Body(CRLF + x) == Payload(x)
  {
    FindIs(CRLF, LF, 0, 1);
    FirstLine(CRLF, x);
  }

  lemma {:induction false} TwoBytes(rest: Bytes)
    requires HeadEnd(rest) < |rest|
    ensures var h := HeadEnd(rest); rest[h] != LF && rest[h + 1] == LF
    decreases |rest|
  {
    var n := Find(rest, LF, 0).value + 1;
    if n != 2 { TwoBytes(rest[n..]); }
  }

  lemma AddedIsOneLine(name: Bytes)
    requires Without(name, LF)
    ensures OneLine(Added(name)) && |Added(name)| > 2 && IsHttpHeader(Added(name), HEADER_NAME)
  {
    var a := Added(name);
    assert forall j | 0 <= j < 18 :: a[j] == HEADER_START[j];
    assert forall j | 18 <= j < 18 + |name| :: a[j] == name[j - 18];
    assert forall j | 0 <= j < 18 :: HEADER_START[j] != LF;
    FindIs(a, LF, 0, |a| - 1);
  }

  // ----- What forwarding keeps ---------------------------------------------------------------

  lemma BodyBehindTwoBytes(line: Bytes, x: Bytes)
    requires |line| == 2 && line[0] != LF && line[1] == LF
    ensures Body(line + x) == if line[0] == CR then Payload(x) else Body(x)
  {
    FindIs(line, LF, 0, 1);
    if line[0] == CR { assert line == CRLF; BodyBehindBlank(x); } else { BodyBehindLine(line, x); }
  }

  lemma SplitAtTwoBytes(s: Bytes, h: nat)
    requires h + 2 <= |s|
    ensures s == s[..h] + ([s[h], s[h + 1]] + s[h + 2..])
  {
  }

  /** The body of what came in, whatever its first two-byte line is. */
  lemma BodyIn(rest: Bytes, h: nat)
    requires h == HeadEnd(rest) < |rest|
    ensures Body(rest) == if rest[h] == CR then Payload(rest[h + 2..]) else Body(rest[h + 2..])
  {
    TwoBytes(rest);
    SplitAtTwoBytes(rest, h);
    BodyBehindTwoBytes([rest[h], rest[h + 1]], rest[h + 2..]);
    BodyBehindHead(rest, h, [rest[h], rest[h + 1]] + rest[h + 2..]);
  }

  lemma BodyBehindHeader(x: Bytes, name: Bytes)
    requires Without(name, LF)
    ensures Body(Blank(false, name) + x) == Payload(x)
  {
    assert Blank(false, name) + x == Added(name) + (CRLF + x);
    AddedIsOneLine(name);
    BodyBehindLine(Added(name), CRLF + x);
    BodyBehindBlank(x);
  }

  lemma HeaderAt(rest: Bytes, h: nat, name: Bytes)
    requires h == HeadEnd(rest) < |rest|
    ensures WithHeader(rest, name) == rest[..h] + (Blank(false, name) + rest[h + 2..])
  {
  }

  lemma BodyOut(rest: Bytes, h: nat, name: Bytes)
    requires h == HeadEnd(rest) < |rest| && Without(name, LF)
    ensures Body(WithHeader(rest, name)) == Payload(rest[h + 2..])
  {
    var x := rest[h + 2..];
    HeaderAt(rest, h, name);
    BodyBehindHeader(x, name);
    BodyBehindHead(rest, h, Blank(false, name) + x);
  }

  /** The first two-byte line, if there is one, is CR LF, or nothing follows it. */
  predicate BlankLineIsCrlf(rest: Bytes) {
    var h := HeadEnd(rest);
    h == |rest| || rest[h] == CR || h + 2 == |rest|
  }

  /** The body survives exactly when the first two-byte line is a real blank line. */
  lemma BodyKept(rest: Bytes, name: Bytes)
    requires Without(name, LF)
    ensures Body(WithHeader(rest, name)) == Body(rest) <==> BlankLineIsCrlf(rest)
  {
    var h := HeadEnd(rest);
    if h == |rest| {
      NoBody(rest);
      NothingReplaced(rest, Blank(false, name));
    } else {
      BodyIn(rest, h);
      BodyOut(rest, h, name);
      BodyIsShorter(rest[h + 2..]);
    }
  }

  lemma HeaderFirst(x: Bytes, name: Bytes)
    requires Without(name, LF)
    ensures ProxyHeaders(Blank(false, name) + x) == 1
  {
    assert Blank(false, name) + x == Added(name) + (CRLF + x);
    AddedIsOneLine(name);
    FirstLine(Added(name), CRLF + x);
    ProxyHeadersFirst(Added(name) + (CRLF + x), Added(name), CRLF + x);
    FindIs(CRLF, LF, 0, 1);
    FirstLine(CRLF, x);
    ProxyHeadersFirst(CRLF + x, CRLF, x);
  }

  /** One header line when the header section ends in the buffer, none otherwise. */
  lemma {:induction false} HeadersOut(rest: Bytes, name: Bytes)
    requires Without(name, LF)
    ensures ProxyHeaders(WithHeader(rest, name)) ==
            ProxyHeaders(rest) + if HeadEnd(rest) < |rest| then 1 else 0
    decreases |rest|
  {
    if Find(rest, LF, 0) == None {
      NothingReplaced(rest, Blank(false, name));
    } else {
      var line, more := FirstLineOf(rest);
      ProxyHeadersFirst(rest, line, more);
      WithBlankFirst(rest, line, more, Blank(false, name));
      if |line| == 2 {
        HeaderFirst(more, name);
      } else {
        HeadersOut(more, name);
        FirstLine(line, WithHeader(more, name));
        ProxyHeadersFirst(line + WithHeader(more, name), line, WithHeader(more, name));
      }
    }
  }

  // ----- More behind it ----------------------------------------------------------------------

  lemma BeginsMore(rest: Bytes, line: Bytes, more: Bytes, x: Bytes)
    requires Begins(rest, line, more)
    ensures Begins(rest + x, line, more + x)
  {
    assert forall j | 0 <= j < |line| :: (rest + x)[j] == rest[j];
    FindIs(rest + x, LF, 0, |line| - 1);
  }

  /** A header section that has ended stays as it is, whatever is read behind it. */
  lemma {:induction false} HeadEndMore(rest: Bytes, x: Bytes)
    requires HeadEnd(rest) < |rest|
    ensures HeadEnd(rest + x) == HeadEnd(rest)
    decreases |rest|
  {
    HeadInside(rest);
    var line, more := Peel(rest);
    BeginsMore(rest, line, more, x);
    HeadEndFirst(rest, line, more);
    HeadEndFirst(rest + x, line, more + x);
    if |line| != 2 { HeadEndMore(more, x); }
  }

  lemma ReplacedMore(s: Bytes, h: nat, mid: Bytes, x: Bytes)
    requires h + 2 <= |s|
    ensures Replaced(s + x, h, mid) == Replaced(s, h, mid) + x
  {
    assert (s + x)[..h] == s[..h] && (s + x)[h + 2..] == s[h + 2..] + x;
  }

  lemma ReplacedLength(s: Bytes, h: nat, mid: Bytes)
    requires h == |s| || h + 2 <= |s|
    ensures |Replaced(s, h, mid)| == if h < |s| then |s| + |mid| - 2 else |s|
  {
  }

  /**
   Adding the header to what was read first, and then the rest as it is, makes the same as adding it
   to the whole, exactly when the header section ended in what was read first or does not end at all.
   */
  lemma HeaderOnFirstRead(rest: Bytes, x: Bytes, name: Bytes)
    ensures WithHeader(rest, name) + x == WithHeader(rest + x, name) <==>
            HeadEnd(rest) < |rest| || HeadEnd(rest + x) == |rest + x|
  {
    var mid := Blank(false, name);
    ReplacedLength(rest, HeadEnd(rest), mid);
    ReplacedLength(rest + x, HeadEnd(rest + x), mid);
    if HeadEnd(rest) < |rest| {
      HeadEndMore(rest, x);
      ReplacedMore(rest, HeadEnd(rest), mid, x);
    } else {
      NothingReplaced(rest, mid);
      if HeadEnd(rest + x) == |rest + x| { NothingReplaced(rest + x, mid); }
    }
  }

  lemma SameBehind(a: Bytes, x: Bytes, y: Bytes, z: Bytes)
    ensures a + x + z == a + y <==> x + z == y
  {
    assert (a + x + z)[|a|..] == x + z && (a + y)[|a|..] == y;
    assert a + x + z == a + (x + z);
  }

  lemma HeaderOnFirstPiece(line: Bytes, rest: Bytes, x: Bytes, name: Bytes)
    ensures line + WithHeader(rest, name) + x == line + WithHeader(rest + x, name) <==>
            HeadEnd(rest) < |rest| || HeadEnd(rest + x) == |rest + x|
  {
    HeaderOnFirstRead(rest, x, name);
    SameBehind(line, WithHeader(rest, name), WithHeader(rest + x, name), x);
  }

  // ----- Whole requests ----------------------------------------------------------------------

  lemma LineIsOne(m: Bytes, t: Bytes, v: Bytes)
    requires Parts(m, t, v)
    ensures OneLine(Line(m, t, v)) && |Line(m, t, v)| > 2
  {
    LineEnd(m, t, v, Line(m, t, v));
  }

  lemma StrippedParts(m: Bytes, t: Bytes, v: Bytes)
    requires Parts(m, t, v)
    ensures Parts(m, Stripped(t), v) && Without(Slug(t), LF)
  {
  }

  lemma WrittenBehind(line: Bytes, rest: Bytes, name: Bytes, firstLine: Bytes, lossy: Bytes -> Bytes)
    requires OneLine(line) && |line| > 2
    ensures Written(line + rest, name, firstLine, lossy) ==
            if ProxyHeaders(rest) > 0 then Panicked else Sent(firstLine + WithHeader(rest, name))
  {
    FirstLine(line, rest);
    WriteExact(rest, |line|, name, lossy);
  }

  // ----- Whatever remove_site_name accepts ---------------------------------------------------

  /**
   An accepted request, taken apart: its first line, what is behind it, and where the slug is. The
   slug ends inside the line, or with it; then a space follows.
   */
  predicate Accepted(req: Bytes, line: Bytes, rest: Bytes, i1: nat, i2: nat) {
    && SiteNameRemoved(req).Removed? && req == line + rest && OneLine(line)
    && 1 <= i1 <= i2 <= |line| && i1 < |line| && line[i1 - 1] != CR && line[i1 - 1] != LF
    && SiteNameRemoved(req).name == line[i1..i2]
    && if i2 < |line| then
         i2 + 1 < |line| && SiteNameRemoved(req).line == line[..i1] + line[CutEnd(line, i2)..]
       else
         SiteNameRemoved(req).line == line[..i1] && rest != [] && rest[0] == SP
  }

  /** Indices of a slug, in a line that ends at `lf`. */
  lemma SlugInLine(req: Bytes, i1: nat, i2: nat, lf: nat)
    requires ParseSiteNameIndices(req) == Some((i1, i2)) && Find(req, LF, 0) == Some(lf) && CutEnd(req, i2) <= lf + 1
    ensures i1 <= lf && (i2 < lf || (i2 == lf + 1 && req[i2] == SP)) && req[i1 - 1] != CR && req[i1 - 1] != LF
  {
  }

  lemma SplitAt(req: Bytes, n: nat, i1: nat, i2: nat, end: nat)
    requires i1 <= i2 <= end <= n <= |req| && (i2 < n ==> end == CutEnd(req, i2))
    ensures var line := req[..n];
            req == line + req[n..] && req[i1..i2] == line[i1..i2] && req[..i1] == line[..i1]
            && req[end..n] == line[end..] && (i2 < n ==> end == CutEnd(line, i2))
  {
  }

  lemma AcceptedIs(req: Bytes) returns (line: Bytes, rest: Bytes, i1: nat, i2: nat)
    requires SiteNameRemoved(req).Removed?
    ensures Accepted(req, line, rest, i1, i2) && Find(req, LF, 0) == Some(|line| - 1) && rest == req[|line|..]
  {
    RemovalOutcome(req);
    var lf := Find(req, LF, 0).value;
    i1, i2 := ParseSiteNameIndices(req).value.0, ParseSiteNameIndices(req).value.1;
    SlugInLine(req, i1, i2, lf);
    SplitAt(req, lf + 1, i1, i2, CutEnd(req, i2));
    line, rest := FirstLineOf(req);
  }

  lemma LinesExact(rest: Bytes, start: nat, name: Bytes, firstLine: Bytes, lossy: Bytes -> Bytes)
    requires ProxyHeaders(rest) > 0 ==> start + FirstProxyHeader(rest) > 2
    ensures Then(firstLine, WriteLines(rest, start, false, name, lossy)) ==
            if ProxyHeaders(rest) > 0 then Panicked else Sent(firstLine + WithHeader(rest, name))
  {
    WriteExact(rest, start, name, lossy);
  }

  lemma WrittenIs(req: Bytes, start: nat, rest: Bytes, name: Bytes, firstLine: Bytes, lossy: Bytes -> Bytes)
    requires 0 < start <= |req| && rest == req[start..] && Find(req, LF, 0) == Some(start - 1)
    ensures Written(req, name, firstLine, lossy) == Then(firstLine, WriteLines(rest, start, false, name, lossy))
  {
  }

  lemma WrittenFrom(req: Bytes, start: nat, rest: Bytes, name: Bytes, firstLine: Bytes, lossy: Bytes -> Bytes)
    requires 0 < start <= |req| && rest == req[start..] && Find(req, LF, 0) == Some(start - 1)
    requires ProxyHeaders(rest) > 0 ==> start + FirstProxyHeader(rest) > 2
    ensures Written(req, name, firstLine, lossy) ==
            if ProxyHeaders(rest) > 0 then Panicked else Sent(firstLine + WithHeader(rest, name))
  {
    WrittenIs(req, start, rest, name, firstLine, lossy);
    LinesExact(rest, start, name, firstLine, lossy);
  }

  /** A line that begins with a space is no proxy header. */
  lemma SpaceIsNoHeader(rest: Bytes)
    requires rest != [] && rest[0] == SP && ProxyHeaders(rest) > 0
    ensures FirstProxyHeader(rest) > 0
  {
    var line, more := Peel(rest);
    assert line[0] == SP;
    ProxyHeadersFirst(rest, line, more);
  }

  /** No header can begin within the first three bytes of an accepted request. */
  lemma AcceptedFirst(req: Bytes, line: Bytes, rest: Bytes, i1: nat, i2: nat)
    requires Accepted(req, line, rest, i1, i2)
    ensures ProxyHeaders(rest) > 0 ==> |line| + FirstProxyHeader(rest) > 2
  {
    if |line| == 2 && ProxyHeaders(rest) > 0 { SpaceIsNoHeader(rest); }
  }

  lemma AcceptedRest(req: Bytes, lf: nat, rest: Bytes)
    requires SiteNameRemoved(req).Removed? && Find(req, LF, 0) == Some(lf) && rest == req[lf + 1..]
    ensures ProxyHeaders(rest) > 0 ==> lf + 1 + FirstProxyHeader(rest) > 2
  {
    var line, more, i1, i2 := AcceptedIs(req);
    AcceptedFirst(req, line, more, i1, i2);
  }

  /** Whatever remove_site_name accepts, write_req panics exactly when a proxy header is in it. */
  lemma AcceptedExact(req: Bytes, lf: nat, rest: Bytes, name: Bytes, firstLine: Bytes, lossy: Bytes -> Bytes)
    requires SiteNameRemoved(req).Removed? && Find(req, LF, 0) == Some(lf) && rest == req[lf + 1..]
    ensures Written(req, name, firstLine, lossy) ==
            if ProxyHeaders(rest) > 0 then Panicked else Sent(firstLine + WithHeader(rest, name))
  {
    AcceptedRest(req, lf, rest);
    WrittenFrom(req, lf + 1, rest, name, firstLine, lossy);
  }

  lemma CutIsOneLine(line: Bytes, i: nat, end: nat)
    requires OneLine(line) && 1 <= i <= end < |line| && line[i - 1] != CR && line[i - 1] != LF
    ensures OneLine(line[..i] + line[end..]) && line[..i] + line[end..] != CRLF
  {
    var cut := line[..i] + line[end..];
    assert forall j | 0 <= j < |cut| - 1 :: cut[j] != LF;
    FindIs(cut, LF, 0, |cut| - 1);
    assert cut[i - 1] == line[i - 1];
  }

  /** The first line changed, the header added. */
  lemma BodyKeptBehind(line: Bytes, out: Bytes, rest: Bytes, name: Bytes)
    requires OneLine(line) && line != CRLF && OneLine(out) && out != CRLF && Without(name, LF)
    ensures Body(out + WithHeader(rest, name)) == Body(line + rest) <==> BlankLineIsCrlf(rest)
  {
    BodyBehindLine(out, WithHeader(rest, name));
    BodyBehindLine(line, rest);
    BodyKept(rest, name);
  }

  /** A line that has lost its end joins the line behind it. */
  lemma Joins(out: Bytes, j: nat, line: Bytes, x: Bytes)
    requires Without(out, LF) && j < |out| && out[j] != CR && OneLine(line)
    ensures Body(out + (line + x)) == Body(x)
  {
    var both := out + line;
    FindIs(both, LF, 0, |both| - 1);
    assert both[j] == out[j];
    assert out + (line + x) == both + x;
    BodyBehindLine(both, x);
  }

  lemma JoinsHead(out: Bytes, j: nat, rest: Bytes, h: nat, x: Bytes)
    requires Without(out, LF) && j < |out| && out[j] != CR && 0 < h == HeadEnd(rest) < |rest|
    ensures Body(out + (rest[..h] + x)) == Body(x)
  {
    var line, more, g := HeadParts(rest, h);
    TakeBehind(line, more, g, x);
    Joins(out, j, line, more[..g] + x);
    BodyBehindHead(more, g, x);
  }

  lemma JoinsNothing(out: Bytes, j: nat, rest: Bytes)
    requires Without(out, LF) && j < |out| && out[j] != CR && HeadEnd(rest) == |rest|
    ensures Body(out + rest) == None
  {
    if Find(rest, LF, 0) == None {
      FindNothing(out + rest, LF, 0);
    } else {
      var line, more := FirstLineOf(rest);
      HeadEndFirst(rest, line, more);
      Joins(out, j, line, more);
      NoBody(more);
    }
  }

  lemma HeaderStartIsOneLine(name: Bytes)
    requires OneLine(name)
    ensures OneLine(HEADER_START + name) && HEADER_START + name != CRLF
  {
    var l := HEADER_START + name;
    assert forall j | 0 <= j < 18 :: l[j] == HEADER_START[j] && HEADER_START[j] != LF;
    assert forall j | 18 <= j < |l| :: l[j] == name[j - 18];
    FindIs(l, LF, 0, |l| - 1);
  }

  /** A name that ends its line: the line end behind the header is a blank line already. */
  lemma BrokenHeader(name: Bytes, x: Bytes)
    requires OneLine(name)
    ensures Blank(false, name) + x == HEADER_START + name + (CRLF + (CRLF + x))
    ensures Body(Blank(false, name) + x) == Some(CRLF + x)
  {
    HeaderStartIsOneLine(name);
    BodyBehindLine(HEADER_START + name, CRLF + (CRLF + x));
    BodyBehindBlank(CRLF + x);
  }

  lemma BodyMoved(out: Bytes, j: nat, rest: Bytes, h: nat, name: Bytes)
    requires Without(out, LF) && j < |out| && out[j] != CR && OneLine(name) && h == HeadEnd(rest) < |rest|
    ensures Body(out + WithHeader(rest, name)) == Some(CRLF + rest[h + 2..])
  {
    var x := rest[h + 2..];
    BrokenHeader(name, x);
    if h > 0 {
      JoinsHead(out, j, rest, h, Blank(false, name) + x);
    } else {
      HeaderStartIsOneLine(name);
      assert WithHeader(rest, name) == Blank(false, name) + x;
      Joins(out, j, HEADER_START + name, CRLF + (CRLF + x));
      BodyBehindBlank(CRLF + x);
    }
  }

  lemma BodyMovedBehind(line: Bytes, out: Bytes, j: nat, rest: Bytes, name: Bytes)
    requires OneLine(line) && line != CRLF && Without(out, LF) && j < |out| && out[j] != CR && OneLine(name)
    ensures Body(out + WithHeader(rest, name)) == Body(line + rest) <==> HeadEnd(rest) == |rest|
  {
    var h := HeadEnd(rest);
    BodyBehindLine(line, rest);
    if h == |rest| {
      NothingReplaced(rest, Blank(false, name));
      JoinsNothing(out, j, rest);
      NoBody(rest);
    } else {
      BodyMoved(out, j, rest, h, name);
      BodyIn(rest, h);
      BodyIsShorter(rest[h + 2..]);
    }
  }

  lemma SlugParts(line: Bytes, i1: nat, i2: nat)
    requires OneLine(line) && 1 <= i1 <= i2 <= |line| && i1 < |line|
    ensures Without(line[..i1], LF) && (i2 < |line| ==> Without(line[i1..i2], LF))
    ensures i2 == |line| ==> OneLine(line[i1..i2]) && !Without(line[i1..i2], LF)
  {
    if i2 == |line| {
      var name := line[i1..i2];
      assert name[|name| - 1] == line[|line| - 1];
      FindIs(name, LF, 0, |name| - 1);
    }
  }

  lemma KeepsBodyBehind(line: Bytes, rest: Bytes, i1: nat, i2: nat, name: Bytes, out: Bytes)
    requires OneLine(line) && 1 <= i1 <= i2 <= |line| && i1 < |line| && line[i1 - 1] != CR && line[i1 - 1] != LF
    requires name == line[i1..i2]
    requires if i2 < |line| then CutEnd(line, i2) < |line| && out == line[..i1] + line[CutEnd(line, i2)..]
             else out == line[..i1]
    ensures Body(out + WithHeader(rest, name)) == Body(line + rest) <==>
            if Without(name, LF) then BlankLineIsCrlf(rest) else HeadEnd(rest) == |rest|
  {
    SlugParts(line, i1, i2);
    if i2 < |line| {
      CutIsOneLine(line, i1, CutEnd(line, i2));
      BodyKeptBehind(line, out, rest, name);
    } else {
      BodyMovedBehind(line, out, i1 - 1, rest, name);
    }
  }

  /**
   Whatever remove_site_name accepts: the body of what is forwarded is the body that came in exactly
   when the first two-byte line is a real blank line. If the slug runs over the end of its line, the
   header is broken in two, and the body is kept only where no header is added.
   */
  lemma AcceptedKeepsBody(req: Bytes, lf: nat)
    requires SiteNameRemoved(req).Removed? && Find(req, LF, 0) == Some(lf)
    ensures var r, rest := SiteNameRemoved(req), req[lf + 1..];
            Body(r.line + WithHeader(rest, r.name)) == Body(req) <==>
            if Without(r.name, LF) then BlankLineIsCrlf(rest) else HeadEnd(rest) == |rest|
  {
    var r := SiteNameRemoved(req);
    var line, rest, i1, i2 := AcceptedIs(req);
    KeepsBodyBehind(line, rest, i1, i2, r.name, r.line);
  }

  lemma RewrittenLength(line: Bytes, rest: Bytes, out: Bytes, i1: nat, i2: nat, name: Bytes)
    requires i1 < i2 <= |line| && |name| == i2 - i1
    requires |out| == if i2 < |line| then |line| - (CutEnd(line, i2) - i1) else i1
    ensures |out + WithHeader(rest, name)| != |line + rest|
  {
    ReplacedLength(rest, HeadEnd(rest), Blank(false, name));
  }

  lemma WrittenLength(req: Bytes, line: Bytes, rest: Bytes, name: Bytes, out: Bytes, i1: nat, i2: nat,
                      lossy: Bytes -> Bytes)
    requires OneLine(line) && req == line + rest && Find(req, LF, 0) == Some(|line| - 1) && rest == req[|line|..]
    requires ProxyHeaders(rest) > 0 ==> |line| + FirstProxyHeader(rest) > 2
    requires i1 < i2 <= |line| && |name| == i2 - i1
    requires |out| == if i2 < |line| then |line| - (CutEnd(line, i2) - i1) else i1
    ensures Written(req, name, out, lossy) != Sent(req)
  {
    WrittenFrom(req, |line|, rest, name, out, lossy);
    RewrittenLength(line, rest, out, i1, i2, name);
  }

  /** A request for a named site never goes out as it came in. */
  lemma NeverUnchanged(req: Bytes, lossy: Bytes -> Bytes)
    requires SiteNameRemoved(req).Removed? && SiteNameRemoved(req).name != []
    ensures var r := SiteNameRemoved(req); Written(req, r.name, r.line, lossy) != Sent(req)
  {
    var r := SiteNameRemoved(req);
    var line, rest, i1, i2 := AcceptedIs(req);
    AcceptedFirst(req, line, rest, i1, i2);
    WrittenLength(req, line, rest, r.name, r.line, i1, i2, lossy);
  }

  // ----- Requests with a request line --------------------------------------------------------

  /** A request as it arrives, and as it leaves for the site its slug names. */
  function Arriving(m: Bytes, t: Bytes, v: Bytes, rest: Bytes): Bytes {
    Line(m, t, v) + rest
  }

  function Leaving(m: Bytes, t: Bytes, v: Bytes, rest: Bytes): Bytes {
    Line(m, Stripped(t), v) + WithHeader(rest, Slug(t))
  }

  /**
   remove_site_name then write_req, on every request whose first line is a request line of text:
   the slug leaves the target, one header line carries it, nothing else changes. Only a header that
   is already there makes it panic.
   */
  lemma ForwardExact(m: Bytes, t: Bytes, v: Bytes, rest: Bytes, lossy: Bytes -> Bytes)
    requires Parts(m, t, v) && Utf8(Line(m, t, v))
    ensures SiteNameRemoved(Arriving(m, t, v, rest)) == Removed(Slug(t), Line(m, Stripped(t), v))
    ensures Written(Arriving(m, t, v, rest), Slug(t), Line(m, Stripped(t), v), lossy) ==
            if ProxyHeaders(rest) > 0 then Panicked else Sent(Leaving(m, t, v, rest))
  {
    var line := Line(m, t, v);
    assert line <= line + rest;
    RemovalOnRequestLine(m, t, v, line + rest);
    LineIsOne(m, t, v);
    WrittenBehind(line, rest, Slug(t), Line(m, Stripped(t), v), lossy);
  }

  lemma BodiesAround(m: Bytes, t: Bytes, v: Bytes, rest: Bytes)
    requires Parts(m, t, v)
    ensures Body(Arriving(m, t, v, rest)) == Body(rest)
    ensures Body(Leaving(m, t, v, rest)) == Body(WithHeader(rest, Slug(t)))
  {
    StrippedParts(m, t, v);
    LineIsOne(m, t, v);
    LineIsOne(m, Stripped(t), v);
    BodyBehindLine(Line(m, t, v), rest);
    BodyBehindLine(Line(m, Stripped(t), v), WithHeader(rest, Slug(t)));
  }

  /** The body arrives unchanged, by the code's own way to find it, exactly when the blank line is real. */
  lemma ForwardKeepsBody(m: Bytes, t: Bytes, v: Bytes, rest: Bytes)
    requires Parts(m, t, v)
    ensures Body(Leaving(m, t, v, rest)) == Body(Arriving(m, t, v, rest)) <==> BlankLineIsCrlf(rest)
  {
    StrippedParts(m, t, v);
    BodiesAround(m, t, v, rest);
    BodyKept(rest, Slug(t));
  }

  /** What one proxy has completed makes a second one behind it panic, whatever path it serves. */
  lemma SecondProxyPanics(m: Bytes, t: Bytes, v: Bytes, rest: Bytes, name: Bytes, line: Bytes, lossy: Bytes -> Bytes)
    requires Parts(m, t, v) && ProxyHeaders(rest) == 0
    ensures Written(Leaving(m, t, v, rest), name, line, lossy).Panicked? <==> HeadEnd(rest) < |rest|
  {
    StrippedParts(m, t, v);
    LineIsOne(m, Stripped(t), v);
    HeadersOut(rest, Slug(t));
    WrittenBehind(Line(m, Stripped(t), v), WithHeader(rest, Slug(t)), name, line, lossy);
  }

  /** The smallest request with the header in it; the code means to append to that header. */
  lemma HeaderPresentExample(m: Bytes, t: Bytes, v: Bytes, lossy: Bytes -> Bytes)
    requires Parts(m, t, v) && Utf8(Line(m, t, v))
    ensures Written(Arriving(m, t, v, Added([97]) + CRLF), Slug(t), Line(m, Stripped(t), v), lossy).Panicked?
  {
    AddedIsOneLine([97]);
    FirstLine(Added([97]), CRLF);
    ForwardExact(m, t, v, Added([97]) + CRLF, lossy);
  }

  lemma BodyOfExample()
    ensures Body([121, CR, LF] + (CRLF + [122])) == Some([122])
  {
    var l: Bytes := [121, CR, LF];
    FindIs(l, LF, 0, 2);
    BodyBehindLine(l, CRLF + [122]);
    BodyBehindBlank([122]);
  }

  lemma RestOfExample(rest: Bytes, name: Bytes)
    requires rest == [120, LF] + ([121, CR, LF] + (CRLF + [122])) && Without(name, LF)
    ensures ProxyHeaders(rest) == 0 && Body(rest) == Some([122])
    ensures Body(WithHeader(rest, name)) == Some([121, CR, LF] + (CRLF + [122]))
  {
    FindIs(rest, LF, 0, 1);
    assert rest[2..] == [121, CR, LF] + (CRLF + [122]);
    BodyOut(rest, 0, name);
    BodyIn(rest, 0);
    BodyOfExample();
  }

  /**
   A request with a two-byte line that is not CR LF, in front of a header line and the real blank
   line: what is forwarded has that header line in its body.
   */
  lemma BodyLostExample(m: Bytes, t: Bytes, v: Bytes, rest: Bytes)
    requires Parts(m, t, v) && Slug(t) != []
    requires rest == [120, LF] + ([121, CR, LF] + (CRLF + [122])) // x\ny\r\n\r\nz
    ensures ProxyHeaders(rest) == 0 && Body(Arriving(m, t, v, rest)) == Some([122])
    ensures Body(Leaving(m, t, v, rest)) == Some([121, CR, LF] + (CRLF + [122]))
  {
    StrippedParts(m, t, v);
    BodiesAround(m, t, v, rest);
    RestOfExample(rest, Slug(t));
  }
}
