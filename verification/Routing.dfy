/**
 The loops that serve an HTTP connection: an outer one for requests and the sites they name, and one
 inside it for a session, both reading into the same buffer.
 */
module Routing {
  import opened RequestLine
  import opened RequestWriter
  import opened RoutingSpec

  const BUFFER_SIZE: nat := 1024

  // ----- Reading -----------------------------------------------------------------------------

  method ReadInto(buf: array<Byte>, at: nat, data: Bytes)
    requires at + |data| <= buf.Length
    modifies buf
    ensures buf[..at + |data|] == old(buf[..at]) + data
  {
    for j := 0 to |data|
      invariant buf[..at] == old(buf[..at])
      invariant buf[at..at + j] == data[..j]
    {
      buf[at + j] := data[j];
    }
  }

  /** A read that overwrites the front of the buffer; what was behind it stays there. */
  method Receive(buf: array<Byte>, data: Bytes) returns (l: nat)
    requires |data| <= buf.Length
    modifies buf
    ensures l == |data| && buf[..l] == data
  {
    ReadInto(buf, 0, data);
    l := |data|;
  }

  predicate FitsBuffer(inputs: seq<Input>) {
    forall j | 0 <= j < |inputs| && inputs[j].Read? :: |inputs[j].data| <= BUFFER_SIZE
  }

  // ----- Gluing logs together ----------------------------------------------------------------

  lemma Assoc(a: seq<Event>, b: seq<Event>, c: seq<Event>)
    ensures a + (b + c) == a + b + c
  {
  }

  lemma RunNext(h: Handler, mode: Mode, inputs: seq<Input>, next: nat)
    requires next < |inputs|
    ensures var step := h(mode, inputs[next]);
            Run(h, mode, inputs[next..]) == step.events + Run(h, step.mode, inputs[next + 1..])
  {
    assert inputs[next..][1..] == inputs[next + 1..];
  }

  /** `log` and the rest of the run together, one chunk further on. */
  lemma Advance(h: Handler, log: seq<Event>, mode: Mode, inputs: seq<Input>, next: nat, step: Step)
    requires Orderly(h) && next < |inputs| && step == h(mode, inputs[next])
    ensures log + Run(h, mode, inputs[next..]) == log + step.events + Run(h, step.mode, inputs[next + 1..])
    ensures step == Step([], Stopped) ==> log + Run(h, mode, inputs[next..]) == log
  {
    RunNext(h, mode, inputs, next);
    Assoc(log, step.events, Run(h, step.mode, inputs[next + 1..]));
    StoppedIsSilent(h, inputs[next + 1..]);
  }

  // ----- A session ---------------------------------------------------------------------------

  /** How the client future of a session ends. */
  datatype End =
    | Switch(bytesRead: nat) // the chunk in the buffer names another site
    | Closed
    | WriteError

  /** What is left to do for the outer loop. */
  ghost function After(h: Handler, end: End, inputs: seq<Input>, next: nat): seq<Event>
    requires next <= |inputs| && (end.Switch? ==> next > 0)
  {
    match end
    case Switch(_) => Run(h, Idle, inputs[next - 1..])
    case Closed => []
    case WriteError => [Local(Status500)] + Run(h, Idle, inputs[next..])
  }

  datatype Verdict = Pass(event: Event) | Leave(end: End)

  /** One chunk of a session, `req` in the buffer. */
  method Relay(site: Bytes, req: Bytes, i: Input, lossy: Bytes -> Bytes, ghost h: Handler) returns (v: Verdict)
    requires Serves(h, lossy) && i.Read? && i.data == req && req != []
    ensures v.Pass? ==> h(Session(site), i) == Step([v.event], Session(site))
    ensures v == Leave(Closed) ==> h(Session(site), i) == Step([], Stopped)
    ensures v == Leave(WriteError) ==> h(Session(site), i) == Step([Local(Status500)], Idle)
    ensures v.Leave? && v.end.Switch? ==> v.end.bytesRead == |req| && h(Session(site), i) == h(Idle, i)
  {
    ghost var stays, opens := Handle(Session(site), i, lossy), Handle(Idle, i, lossy);
    var r := RemoveSiteName(req);
    match r
    case Panic => return Leave(Closed);
    case BadRequest =>
      if !i.writes { return Leave(WriteError); }
      return Pass(ToServer(site, req));
    case Removed(name, line) =>
      if name == FAVICON { return Pass(Local(Status404)); }
      if name != site { return Leave(Switch(|req|)); }
      var w := WriteReq(req, name, line, lossy);
      if w.Panicked? { return Leave(Closed); }
      if !i.writes { return Leave(WriteError); }
      return Pass(ToServer(name, w.out));
  }

  /** The end of a session at its chunk `next`, and what the outer loop has then left. */
  lemma Ended(h: Handler, site: Bytes, inputs: seq<Input>, next: nat, end: End)
    requires Orderly(h) && next < |inputs|
    requires end.Closed? ==> h(Session(site), inputs[next]) == Step([], Stopped)
    requires end.WriteError? ==> h(Session(site), inputs[next]) == Step([Local(Status500)], Idle)
    requires end.Switch? ==> h(Session(site), inputs[next]) == h(Idle, inputs[next])
    ensures Run(h, Session(site), inputs[next..]) == After(h, end, inputs, next + 1)
  {
    RunNext(h, Session(site), inputs, next);
    StoppedIsSilent(h, inputs[next + 1..]);
    if end.Switch? { RunNext(h, Idle, inputs, next); }
  }

  /** Nothing more comes from the client. */
  lemma EndOfClient(h: Handler, lossy: Bytes -> Bytes, site: Bytes, i: Input)
    requires Serves(h, lossy) && (i.Failed? || i.data == [])
    ensures h(Session(site), i) == Step([], Stopped)
  {
    var step := Handle(Session(site), i, lossy);
  }

  /** The session's loop. The buffer keeps the chunk that names another site. */
  method ClientFuture(site: Bytes, buf: array<Byte>, inputs: seq<Input>, from: nat, lossy: Bytes -> Bytes,
                      ghost h: Handler)
    returns (log: seq<Event>, next: nat, end: End)
    requires Serves(h, lossy) && from <= |inputs| && buf.Length == BUFFER_SIZE && FitsBuffer(inputs)
    modifies buf
    ensures from <= next <= |inputs|
    ensures end.Switch? ==> next > from && 0 < end.bytesRead <= BUFFER_SIZE
    ensures end.Switch? ==> inputs[next - 1].Read? && inputs[next - 1].data == buf[..end.bytesRead]
    ensures Run(h, Session(site), inputs[from..]) == log + After(h, end, inputs, next)
  {
    log, next := [], from;
    while next < |inputs|
      invariant from <= next <= |inputs|
      invariant Run(h, Session(site), inputs[from..]) == log + Run(h, Session(site), inputs[next..])
    {
      var i := inputs[next];
      if i.Failed? || i.data == [] {
        EndOfClient(h, lossy, site, i);
        Ended(h, site, inputs, next, Closed);
        return log, next + 1, Closed;
      }
      var l := Receive(buf, i.data);
      var v := Relay(site, buf[..l], i, lossy, h);
      if v.Leave? {
        Ended(h, site, inputs, next, v.end);
        return log, next + 1, v.end;
      }
      Advance(h, log, Session(site), inputs, next, Step([v.event], Session(site)));
      log, next := log + [v.event], next + 1;
    }
    end := Closed;
  }

  // ----- The connection ----------------------------------------------------------------------

  /** One chunk outside a session, up to the first write to the server it opens. */
  method Open(req: Bytes, i: Input, lossy: Bytes -> Bytes, ghost h: Handler) returns (step: Step)
    requires Serves(h, lossy) && i.Read? && i.data == req
    ensures step == h(Idle, i)
  {
    ghost var opens := Handle(Idle, i, lossy);
    var r := RemoveSiteName(req);
    match r
    case BadRequest => return Step([Local(Status400)], Stopped);
    case Panic => return Step([], Stopped);
    case Removed(name, line) =>
      if name == [] { return Step([Local(HomePage)], Idle); }
      if name == FAVICON { return Step([Local(Status404)], Idle); }
      if !i.registered { return Step([Local(Status404)], Idle); }
      if !i.connects { return Step([Local(Status500)], Idle); }
      var w := WriteReq(req, name, line, lossy);
      if w.Panicked? { return Step([], Stopped); }
      if !i.writes { return Step([Local(Status500)], Idle); }
      return Step([ToServer(name, w.out)], Session(name));
  }

  /** A session's part of the log joined to what came before, and what follows it. */
  lemma Joined(h: Handler, log: seq<Event>, more: seq<Event>, site: Bytes, inputs: seq<Input>, next: nat, n: nat,
               end: End, apology: seq<Event>)
    requires next <= n <= |inputs| && (end.Switch? ==> n > 0) && apology == [Local(Status500)]
    requires Run(h, Session(site), inputs[next..]) == more + After(h, end, inputs, n)
    ensures end.Switch? ==> log + Run(h, Session(site), inputs[next..]) == log + more + Run(h, Idle, inputs[n - 1..])
    ensures end.Closed? ==> log + Run(h, Session(site), inputs[next..]) == log + more
    ensures end.WriteError? ==>
      log + Run(h, Session(site), inputs[next..]) == log + more + apology + Run(h, Idle, inputs[n..])
  {
    Assoc(log, more, After(h, end, inputs, n));
    if end.WriteError? { Assoc(log + more, apology, Run(h, Idle, inputs[n..])); }
  }

  lemma FailedStep(h: Handler, lossy: Bytes -> Bytes, i: Input)
    requires Serves(h, lossy) && i.Failed?
    ensures h(Idle, i) == Step([], Stopped)
  {
    var step := Handle(Idle, i, lossy);
  }

  /** What one turn of the outer loop does once a session is open; `before` is the log so far. */
  method ServeSession(site: Bytes, buf: array<Byte>, inputs: seq<Input>, from: nat, before: seq<Event>,
                      lossy: Bytes -> Bytes, ghost h: Handler)
    returns (log: seq<Event>, next: nat, bytesRead: nat, over: bool, ghost todo: seq<Event>)
    requires Serves(h, lossy) && from <= |inputs| && buf.Length == BUFFER_SIZE && FitsBuffer(inputs)
    modifies buf
    ensures from <= next <= |inputs| && bytesRead <= BUFFER_SIZE
    ensures before + Run(h, Session(site), inputs[from..]) == log + todo
    ensures over ==> todo == []
    ensures !over && bytesRead == 0 ==> todo == Run(h, Idle, inputs[next..])
    ensures !over && bytesRead > 0 ==>
      next > from && inputs[next - 1].Read? && inputs[next - 1].data == buf[..bytesRead]
      && todo == Run(h, Idle, inputs[next - 1..])
  {
    var more, n, end := ClientFuture(site, buf, inputs, from, lossy, h);
    var apology := [Local(Status500)];
    Joined(h, before, more, site, inputs, from, n, end, apology);
    log, next, bytesRead, over, todo := before + more, n, 0, false, [];
    match end
    case Closed => over := true;
    case WriteError => log, todo := log + apology, Run(h, Idle, inputs[n..]);
    case Switch(l) => bytesRead, todo := l, Run(h, Idle, inputs[n - 1..]);
  }

  /** The outer loop, from the first chunk in the buffer on. */
  method ServeClient(buf: array<Byte>, read: nat, inputs: seq<Input>, lossy: Bytes -> Bytes, ghost h: Handler)
    returns (log: seq<Event>)
    requires Serves(h, lossy) && buf.Length == BUFFER_SIZE && 0 < read <= BUFFER_SIZE && FitsBuffer(inputs)
    requires inputs != [] && inputs[0].Read? && inputs[0].data == buf[..read]
    modifies buf
    ensures log == Run(h, Idle, inputs)
  {
    var next, bytesRead := 1, read;
    log := [];
    ghost var todo := Run(h, Idle, inputs);
    assert inputs[0..] == inputs;
    while true
      invariant next <= |inputs| && 0 <= bytesRead <= BUFFER_SIZE
      invariant bytesRead > 0 ==> next > 0 && inputs[next - 1].Read? && inputs[next - 1].data == buf[..bytesRead]
      invariant log + todo == Run(h, Idle, inputs)
      invariant bytesRead > 0 ==> todo == Run(h, Idle, inputs[next - 1..])
      invariant bytesRead == 0 ==> todo == Run(h, Idle, inputs[next..])
      decreases |inputs| - next + if bytesRead > 0 then 1 else 0, bytesRead
    {
      if bytesRead == 0 {
        if next == |inputs| { return; }
        if inputs[next].Failed? {
          FailedStep(h, lossy, inputs[next]);
          Advance(h, log, Idle, inputs, next, Step([], Stopped));
          return;
        }
        bytesRead := Receive(buf, inputs[next].data);
        next := next + 1;
      }
      var step := Open(buf[..bytesRead], inputs[next - 1], lossy, h);
      Advance(h, log, Idle, inputs, next - 1, step);
      log, bytesRead, todo := log + step.events, 0, Run(h, step.mode, inputs[next..]);
      if step.mode.Stopped? { StoppedIsSilent(h, inputs[next..]); return; }
      if step.mode.Session? {
        var over;
        log, next, bytesRead, over, todo := ServeSession(step.mode.site, buf, inputs, next, log, lossy, h);
        if over { return; }
      }
    }
  }

  /** The four bytes read to tell the kind of connection come before the first chunk. */
  function WithFirst(first: Bytes, inputs: seq<Input>): (r: seq<Input>)
    ensures |r| == |inputs|
  {
    if inputs == [] || inputs[0].Failed? then inputs
    else [inputs[0].(data := first + inputs[0].data)] + inputs[1..]
  }

  lemma DataFirst(i: Input, more: seq<Input>)
    requires i.Read?
    ensures DataOf([i] + more) == i.data + DataOf(more)
  {
    assert ([i] + more)[1..] == more;
  }

  lemma JoinsOn(a: Bytes, b: Bytes, c: Bytes)
    ensures a + b + c == a + (b + c)
  {
  }

  lemma FirstIsPut(first: Bytes, i: Input, more: seq<Input>)
    requires i.Read?
    ensures WithFirst(first, [i] + more) == [i.(data := first + i.data)] + more
  {
    assert ([i] + more)[1..] == more;
  }

  /** The stream of bytes from the client is as it came: nothing lost, nothing twice, in order. */
  lemma StreamKept(first: Bytes, i: Input, more: seq<Input>)
    requires i.Read?
    ensures DataOf(WithFirst(first, [i] + more)) == first + DataOf([i] + more)
    ensures WithFirst(first, [i] + more)[1..] == more
  {
    var j := i.(data := first + i.data);
    FirstIsPut(first, i, more);
    DataFirst(j, more);
    DataFirst(i, more);
    JoinsOn(first, i.data, DataOf(more));
  }

  /** The request arrives with its first four bytes read apart from the others. */
  predicate ArrivesCut(r: Request, first: Bytes, inputs: seq<Input>) {
    && Proper(r) && inputs != [] && inputs[0].Read?
    && inputs[0].registered && inputs[0].connects && inputs[0].writes
    && first + inputs[0].data == Arriving(r.m, r.t, r.v, r.rest)
  }

  /** It reaches its server as if it had come in one piece. */
  lemma CutReaches(h: Handler, r: Request, first: Bytes, inputs: seq<Input>, lossy: Bytes -> Bytes)
    requires Serves(h, lossy) && ArrivesCut(r, first, inputs)
    ensures var log := Run(h, Idle, WithFirst(first, inputs)); log != [] && log[0] == Reaches(r)
  {
    ProperStep(h, Idle, r, lossy);
    RunMore(h, Idle, Arrives(r), inputs[1..]);
    assert WithFirst(first, inputs) == [Arrives(r)] + inputs[1..];
  }

  lemma ReadsFit(first: Bytes, inputs: seq<Input>)
    requires inputs != [] && inputs[0].Read? && FitsBuffer(WithFirst(first, inputs))
    ensures |first| + |inputs[0].data| <= BUFFER_SIZE
  {
    assert WithFirst(first, inputs)[0].data == first + inputs[0].data;
  }

  /** The nested loops do to each chunk what the proxy's handler does, in order. */
  method HandleHttp(first: Bytes, inputs: seq<Input>, lossy: Bytes -> Bytes) returns (log: seq<Event>)
    requires |first| == 4 && FitsBuffer(WithFirst(first, inputs))
    ensures log == Run(Proxy(lossy), Idle, WithFirst(first, inputs))
    ensures forall r | ArrivesCut(r, first, inputs) :: log != [] && log[0] == Reaches(r)
  {
    ghost var h := Proxy(lossy);
    ProxyServes(lossy);
    forall r | ArrivesCut(r, first, inputs)
      ensures Run(h, Idle, WithFirst(first, inputs)) != []
      ensures Run(h, Idle, WithFirst(first, inputs))[0] == Reaches(r)
    {
      CutReaches(h, r, first, inputs, lossy);
    }
    if inputs == [] { return []; }
    if inputs[0].Failed? {
      FailedStep(h, lossy, inputs[0]);
      StoppedIsSilent(h, inputs[1..]);
      return [];
    }
    var buf := new Byte[BUFFER_SIZE];
    var all := WithFirst(first, inputs);
    ReadsFit(first, inputs);
    ReadInto(buf, 0, first);
    ReadInto(buf, 4, inputs[0].data);
    log := ServeClient(buf, 4 + |inputs[0].data|, all, lossy, h);
  }
}
