/**
 What the proxy does with the chunks of an HTTP connection, one at a time: each is answered by the
 proxy itself, rewritten to the server its slug names, or, inside a session, passed to its server.
 */
module RoutingSpec {
  import opened RequestLine
  import opened RequestWriter

  /** favicon.ico */
  const FAVICON: Bytes := [102, 97, 118, 105, 99, 111, 110, 46, 105, 99, 111]

  /**
   One read from the client. What the proxy would meet while it deals with the chunk comes with it:
   whether its slug is registered, a connection to that server can be made, and a write succeeds.
   */
  datatype Input =
    | Read(data: Bytes, registered: bool, connects: bool, writes: bool)
    | Failed // an error, or no data in time

  datatype Answer = HomePage | Status404 | Status400 | Status500

  datatype Event =
    | Local(answer: Answer)
    | ToServer(site: Bytes, bytes: Bytes)

  datatype Mode = Idle | Session(site: Bytes) | Stopped

  datatype Step = Step(events: seq<Event>, mode: Mode)

  type Handler = (Mode, Input) -> Step

  // ----- Runs of any handler -----------------------------------------------------------------

  /** Every chunk is handled on its own; all that is kept from one to the next is the mode. */
  function Run(h: Handler, mode: Mode, inputs: seq<Input>): seq<Event>
    decreases |inputs|
  {
    if inputs == [] then [] else
    var step := h(mode, inputs[0]);
    step.events + Run(h, step.mode, inputs[1..])
  }

  /** The mode in which the chunk at `n` is handled. */
  function ModeAt(h: Handler, mode: Mode, inputs: seq<Input>, n: nat): Mode
    requires n <= |inputs|
  {
    if n == 0 then mode else h(ModeAt(h, mode, inputs, n - 1), inputs[n - 1]).mode
  }

  ghost predicate Orderly(h: Handler) {
    && (forall i {:trigger h(Stopped, i)} :: h(Stopped, i) == Step([], Stopped))
    && (forall m, i {:trigger h(m, i)} :: |h(m, i).events| <= 1 && (h(m, i).events == [] ==> h(m, i).mode == Stopped))
  }

  lemma {:induction false} StoppedIsSilent(h: Handler, inputs: seq<Input>)
    requires Orderly(h)
    ensures Run(h, Stopped, inputs) == []
    decreases |inputs|
  {
    if inputs != [] { StoppedIsSilent(h, inputs[1..]); }
  }

  lemma RunFirst(h: Handler, mode: Mode, inputs: seq<Input>, step: Step, log: seq<Event>)
    requires Orderly(h) && inputs != [] && step == h(mode, inputs[0]) && log == Run(h, mode, inputs)
    ensures if log == [] then step == Step([], Stopped)
            else step.events == [log[0]] && log[1..] == Run(h, step.mode, inputs[1..])
  {
    if step.events == [] { StoppedIsSilent(h, inputs[1..]); }
  }

  lemma {:induction false} NoMoreThanRead(h: Handler, mode: Mode, inputs: seq<Input>)
    requires Orderly(h)
    ensures |Run(h, mode, inputs)| <= |inputs|
    decreases |inputs|
  {
    if inputs != [] { NoMoreThanRead(h, h(mode, inputs[0]).mode, inputs[1..]); }
  }

  lemma {:induction false} ModeShift(h: Handler, mode: Mode, inputs: seq<Input>, n: nat)
    requires n < |inputs|
    ensures ModeAt(h, h(mode, inputs[0]).mode, inputs[1..], n) == ModeAt(h, mode, inputs, n + 1)
  {
    if n > 0 {
      ModeShift(h, mode, inputs, n - 1);
    } else {
      assert ModeAt(h, mode, inputs, 0) == mode;
    }
  }

  lemma {:induction false} StaysStopped(h: Handler, mode: Mode, inputs: seq<Input>, n: nat)
    requires Orderly(h) && n < |inputs| && h(mode, inputs[0]).mode == Stopped
    ensures ModeAt(h, mode, inputs, n + 1) == Stopped
  {
    if n > 0 { StaysStopped(h, mode, inputs, n - 1); } else { assert ModeAt(h, mode, inputs, 0) == mode; }
  }

  /** A run is one event for each chunk, in order, up to a chunk that ends it. */
  lemma {:induction false} EachChunkOnce(h: Handler, mode: Mode, inputs: seq<Input>, k: nat)
    requires Orderly(h) && k < |inputs|
    ensures h(ModeAt(h, mode, inputs, k), inputs[k]).events ==
            if k < |Run(h, mode, inputs)| then [Run(h, mode, inputs)[k]] else []
    decreases |inputs|
  {
    var step, log := h(mode, inputs[0]), Run(h, mode, inputs);
    RunFirst(h, mode, inputs, step, log);
    if k == 0 {
      assert ModeAt(h, mode, inputs, 0) == mode;
    } else if log == [] {
      StaysStopped(h, mode, inputs, k - 1);
    } else {
      EachChunkOnce(h, step.mode, inputs[1..], k - 1);
      assert k < |log| ==> log[1..][k - 1] == log[k];
      ModeShift(h, mode, inputs, k - 1);
    }
  }

  lemma RunsUpTo(h: Handler, inputs: seq<Input>, n: nat)
    requires Orderly(h) && n <= |inputs| && ModeAt(h, Idle, inputs, n) != Stopped
    ensures n <= |Run(h, Idle, inputs)| <= |inputs|
  {
    NoMoreThanRead(h, Idle, inputs);
    if n > 0 { EachChunkOnce(h, Idle, inputs, n - 1); }
  }

  lemma NothingBehindStop(h: Handler, inputs: seq<Input>, n: nat)
    requires Orderly(h) && n <= |inputs| && ModeAt(h, Idle, inputs, n) == Stopped
    ensures |Run(h, Idle, inputs)| <= n
  {
    if n == |inputs| { NoMoreThanRead(h, Idle, inputs); } else { EachChunkOnce(h, Idle, inputs, n); }
  }

  lemma RunStopsAt(h: Handler, inputs: seq<Input>, k: nat, mode: Mode, step: Step)
    requires Orderly(h) && k < |inputs| && mode == ModeAt(h, Idle, inputs, k) && mode != Stopped
    requires step == h(mode, inputs[k]) && step.mode == Stopped
    ensures |Run(h, Idle, inputs)| == k + |step.events|
  {
    RunsUpTo(h, inputs, k);
    EachChunkOnce(h, Idle, inputs, k);
    NothingBehindStop(h, inputs, k + 1);
  }

  type Test = (Mode, Input) -> bool

  ghost predicate StopsOnlyWhen(h: Handler, ends: Test) {
    forall m, i {:trigger ends(m, i)} :: m != Stopped && !ends(m, i) ==> h(m, i).mode != Stopped
  }

  lemma {:induction false} RunsOn(h: Handler, ends: Test, inputs: seq<Input>, n: nat)
    requires StopsOnlyWhen(h, ends) && n <= |inputs|
    requires forall k: nat | k < n :: !ends(ModeAt(h, Idle, inputs, k), inputs[k])
    ensures ModeAt(h, Idle, inputs, n) != Stopped
  {
    if n > 0 { RunsOn(h, ends, inputs, n - 1); }
  }

  // ----- The proxy's handler -----------------------------------------------------------------

  function Forward(name: Bytes, line: Bytes, i: Input, lossy: Bytes -> Bytes): Step
    requires i.Read?
  {
    match Written(i.data, name, line, lossy)
    case Panicked => Step([], Stopped)
    case Sent(out) => if i.writes then Step([ToServer(name, out)], Session(name)) else Step([Local(Status500)], Idle)
  }

  /** A chunk outside a session. */
  function Fresh(i: Input, lossy: Bytes -> Bytes): Step
    requires i.Read?
  {
    match SiteNameRemoved(i.data)
    case BadRequest => Step([Local(Status400)], Stopped)
    case Panic => Step([], Stopped)
    case Removed(name, line) =>
      if name == [] then Step([Local(HomePage)], Idle)
      else if name == FAVICON || !i.registered then Step([Local(Status404)], Idle)
      else if !i.connects then Step([Local(Status500)], Idle)
      else Forward(name, line, i, lossy)
  }

  /** A chunk inside a session. */
  function Stay(site: Bytes, i: Input, lossy: Bytes -> Bytes): Step
    requires i.Read?
  {
    if i.data == [] then Step([], Stopped) else
    match SiteNameRemoved(i.data)
    case BadRequest =>
      if i.writes then Step([ToServer(site, i.data)], Session(site)) else Step([Local(Status500)], Idle)
    case Panic => Step([], Stopped)
    case Removed(name, line) =>
      if name == FAVICON then Step([Local(Status404)], Session(site))
      else if name == site then Forward(name, line, i, lossy)
      else Fresh(i, lossy)
  }

  function Handle(mode: Mode, i: Input, lossy: Bytes -> Bytes): Step {
    if i.Failed? then Step([], Stopped) else
    match mode
    case Idle => Fresh(i, lossy)
    case Session(site) => Stay(site, i, lossy)
    case Stopped => Step([], Stopped)
  }

  function Proxy(lossy: Bytes -> Bytes): Handler {
    (mode, i) => Handle(mode, i, lossy)
  }

  /** `h` is the proxy's handler; the trigger keeps its definition out of proofs about whole runs. */
  ghost predicate Serves(h: Handler, lossy: Bytes -> Bytes) {
    && Orderly(h)
    && forall m, i {:trigger Handle(m, i, lossy)} :: h(m, i) == Handle(m, i, lossy)
  }

  lemma ProxyServes(lossy: Bytes -> Bytes)
    ensures Serves(Proxy(lossy), lossy)
  {
    forall m, i
      ensures var step := Handle(m, i, lossy); |step.events| <= 1 && (step.events == [] ==> step.mode == Stopped)
    {
    }
    forall i: Input ensures Handle(Stopped, i, lossy) == Step([], Stopped) {
    }
  }

  // ----- Where chunks go ---------------------------------------------------------------------

  predicate Names(i: Input, site: Bytes) {
    i.Read? && SiteNameRemoved(i.data).Removed? && SiteNameRemoved(i.data).name == site
  }

  predicate Unparsable(i: Input) {
    i.Read? && SiteNameRemoved(i.data).BadRequest?
  }

  /** What write_req makes of the chunk for the site its own slug names. */
  predicate Rewritten(i: Input, site: Bytes, bytes: Bytes, lossy: Bytes -> Bytes) {
    Names(i, site) && Written(i.data, site, SiteNameRemoved(i.data).line, lossy) == Sent(bytes)
  }

  /** write_req gets through with the chunk, for the site it names. */
  predicate Writable(i: Input, lossy: Bytes -> Bytes) {
    && i.Read?
    && var r := SiteNameRemoved(i.data);
       r.Removed? && Written(i.data, r.name, r.line, lossy).Sent?
  }

  /** A chunk that opens a session: its server is known and can be reached, and it is written there. */
  predicate Opens(i: Input, site: Bytes, lossy: Bytes -> Bytes) {
    && Names(i, site) && site != [] && site != FAVICON
    && i.registered && i.connects && i.writes && Writable(i, lossy)
  }

  /** A chunk that leaves a session open: answered as a favicon, or written to the session's server. */
  predicate Keeps(i: Input, site: Bytes, lossy: Bytes -> Bytes) {
    && i.Read? && i.data != []
    && (Names(i, FAVICON) || (i.writes && (Unparsable(i) || (Names(i, site) && Writable(i, lossy)))))
  }

  /** The chunk at `j` opened a session to `site`, and all behind it up to the one at `k` left it open. */
  predicate InSession(inputs: seq<Input>, j: nat, k: nat, site: Bytes, lossy: Bytes -> Bytes) {
    && j <= k < |inputs| && Opens(inputs[j], site, lossy)
    && forall l | j < l <= k :: Keeps(inputs[l], site, lossy)
  }

  lemma FreshOpens(i: Input, site: Bytes, lossy: Bytes -> Bytes)
    requires i.Read?
    ensures Fresh(i, lossy).mode == Session(site) <==> Opens(i, site, lossy)
  {
  }

  lemma StayKeeps(current: Bytes, i: Input, site: Bytes, lossy: Bytes -> Bytes)
    requires i.Read?
    ensures Stay(current, i, lossy).mode == Session(site) <==>
            Opens(i, site, lossy) || (current == site && Keeps(i, site, lossy))
  {
    FreshOpens(i, site, lossy);
  }

  lemma SessionStep(h: Handler, mode: Mode, i: Input, site: Bytes, lossy: Bytes -> Bytes)
    requires Serves(h, lossy) && mode != Stopped
    ensures h(mode, i).mode == Session(site) <==>
            Opens(i, site, lossy) || (mode == Session(site) && Keeps(i, site, lossy))
  {
    var step := Handle(mode, i, lossy);
    if i.Read? {
      match mode
      case Idle => FreshOpens(i, site, lossy);
      case Session(current) => StayKeeps(current, i, site, lossy);
    }
  }

  lemma ToServerStep(h: Handler, mode: Mode, i: Input, site: Bytes, bytes: Bytes, lossy: Bytes -> Bytes)
    requires Serves(h, lossy) && h(mode, i).events == [ToServer(site, bytes)]
    ensures mode != Stopped && h(mode, i).mode == Session(site)
    ensures Rewritten(i, site, bytes, lossy) || (Unparsable(i) && bytes == i.data)
  {
    var step := Handle(mode, i, lossy);
  }

  lemma StillInSession(inputs: seq<Input>, j: nat, k: nat, site: Bytes, lossy: Bytes -> Bytes)
    requires 0 < k < |inputs| && InSession(inputs, j, k - 1, site, lossy) && Keeps(inputs[k], site, lossy)
    ensures InSession(inputs, j, k, site, lossy)
  {
  }

  lemma StoppedBefore(h: Handler, inputs: seq<Input>, k: nat)
    requires Orderly(h) && 0 < k <= |inputs| && ModeAt(h, Idle, inputs, k) != Stopped
    ensures ModeAt(h, Idle, inputs, k - 1) != Stopped
  {
  }

  lemma SessionAt(h: Handler, inputs: seq<Input>, k: nat, site: Bytes, lossy: Bytes -> Bytes) returns (began: bool)
    requires Serves(h, lossy) && k < |inputs| && ModeAt(h, Idle, inputs, k + 1) == Session(site)
    ensures if began then InSession(inputs, k, k, site, lossy)
            else k > 0 && ModeAt(h, Idle, inputs, k) == Session(site) && Keeps(inputs[k], site, lossy)
  {
    StoppedBefore(h, inputs, k + 1);
    SessionStep(h, ModeAt(h, Idle, inputs, k), inputs[k], site, lossy);
    began := Opens(inputs[k], site, lossy);
  }

  lemma {:induction false} SessionBegan(h: Handler, inputs: seq<Input>, k: nat, site: Bytes, lossy: Bytes -> Bytes)
    returns (j: nat)
    requires Serves(h, lossy) && k < |inputs| && ModeAt(h, Idle, inputs, k + 1) == Session(site)
    ensures InSession(inputs, j, k, site, lossy)
  {
    var began := SessionAt(h, inputs, k, site, lossy);
    if began {
      j := k;
    } else {
      j := SessionBegan(h, inputs, k - 1, site, lossy);
      StillInSession(inputs, j, k, site, lossy);
    }
  }

  lemma {:induction false} SessionLasts(h: Handler, inputs: seq<Input>, j: nat, k: nat, site: Bytes,
                                        lossy: Bytes -> Bytes)
    requires Serves(h, lossy) && InSession(inputs, j, k, site, lossy) && ModeAt(h, Idle, inputs, j) != Stopped
    ensures ModeAt(h, Idle, inputs, k + 1) == Session(site)
  {
    if j < k { SessionLasts(h, inputs, j, k - 1, site, lossy); }
    SessionStep(h, ModeAt(h, Idle, inputs, k), inputs[k], site, lossy);
  }

  lemma {:induction false} RunningBefore(h: Handler, inputs: seq<Input>, j: nat, k: nat)
    requires Orderly(h) && j <= k <= |inputs| && ModeAt(h, Idle, inputs, k) != Stopped
    ensures ModeAt(h, Idle, inputs, j) != Stopped
  {
    if j < k {
      StoppedBefore(h, inputs, k);
      RunningBefore(h, inputs, j, k - 1);
    }
  }

  lemma SessionIff(h: Handler, inputs: seq<Input>, k: nat, site: Bytes, lossy: Bytes -> Bytes)
    requires Serves(h, lossy) && k < |inputs| && ModeAt(h, Idle, inputs, k) != Stopped
    ensures ModeAt(h, Idle, inputs, k + 1) == Session(site) <==> exists j :: InSession(inputs, j, k, site, lossy)
  {
    if ModeAt(h, Idle, inputs, k + 1) == Session(site) { var j := SessionBegan(h, inputs, k, site, lossy); }
    forall j | InSession(inputs, j, k, site, lossy) ensures ModeAt(h, Idle, inputs, k + 1) == Session(site) {
      RunningBefore(h, inputs, j, k);
      SessionLasts(h, inputs, j, k, site, lossy);
    }
  }

  /** A connection is in a session to a server exactly when the chunks read so far say so. */
  lemma SessionsAreExact(inputs: seq<Input>, k: nat, site: Bytes, lossy: Bytes -> Bytes)
    requires k < |inputs| && ModeAt(Proxy(lossy), Idle, inputs, k) != Stopped
    ensures ModeAt(Proxy(lossy), Idle, inputs, k + 1) == Session(site) <==>
            exists j :: InSession(inputs, j, k, site, lossy)
  {
    ProxyServes(lossy);
    SessionIff(Proxy(lossy), inputs, k, site, lossy);
  }

  /**
   Whatever is written to a server was the chunk at the same place, in an open session to that very
   server: rewritten if it names the server by its own slug, and unchanged if it cannot be parsed.
   */
  lemma ServerGetsItsOwn(inputs: seq<Input>, k: nat, site: Bytes, bytes: Bytes, lossy: Bytes -> Bytes)
    requires k < |Run(Proxy(lossy), Idle, inputs)| && Run(Proxy(lossy), Idle, inputs)[k] == ToServer(site, bytes)
    ensures k < |inputs| && ModeAt(Proxy(lossy), Idle, inputs, k + 1) == Session(site)
    ensures exists j :: InSession(inputs, j, k, site, lossy)
    ensures Rewritten(inputs[k], site, bytes, lossy) || (Unparsable(inputs[k]) && bytes == inputs[k].data)
  {
    var h := Proxy(lossy);
    ProxyServes(lossy);
    NoMoreThanRead(h, Idle, inputs);
    EachChunkOnce(h, Idle, inputs, k);
    ToServerStep(h, ModeAt(h, Idle, inputs, k), inputs[k], site, bytes, lossy);
    var j := SessionBegan(h, inputs, k, site, lossy);
  }

  // ----- When a connection ends --------------------------------------------------------------

  /** A chunk that is to be rewritten for a server, in this mode. */
  predicate ToBeWritten(mode: Mode, i: Input) {
    && i.Read?
    && var r := SiteNameRemoved(i.data);
       && r.Removed? && r.name != FAVICON
       && (mode == Session(r.name) || (r.name != [] && i.registered && i.connects))
  }

  /** A chunk that makes remove_site_name or write_req panic. */
  predicate Crashes(mode: Mode, i: Input, lossy: Bytes -> Bytes) {
    i.Read? && (SiteNameRemoved(i.data).Panic? || (ToBeWritten(mode, i) && !Writable(i, lossy)))
  }

  /** A chunk that cannot be parsed while there is no server to pass it to. */
  predicate Rejected(mode: Mode, i: Input) {
    mode == Idle && Unparsable(i)
  }

  predicate Ends(mode: Mode, i: Input, lossy: Bytes -> Bytes) {
    i.Failed? || i.data == [] || Rejected(mode, i) || Crashes(mode, i, lossy)
  }

  /** The connection ends exactly there; only a rejected chunk is answered, with a 400 response. */
  lemma EndStep(h: Handler, mode: Mode, i: Input, lossy: Bytes -> Bytes)
    requires Serves(h, lossy) && mode != Stopped
    ensures h(mode, i).mode == Stopped <==> Ends(mode, i, lossy)
    ensures Ends(mode, i, lossy) ==> h(mode, i).events == if Rejected(mode, i) then [Local(Status400)] else []
  {
    var step := Handle(mode, i, lossy);
  }

  function Ending(lossy: Bytes -> Bytes): Test {
    (mode, i) => Ends(mode, i, lossy)
  }

  lemma EndingStops(lossy: Bytes -> Bytes)
    ensures StopsOnlyWhen(Proxy(lossy), Ending(lossy))
  {
    ProxyServes(lossy);
    forall m: Mode, i: Input | m != Stopped && !Ends(m, i, lossy) ensures Handle(m, i, lossy).mode != Stopped {
      EndStep(Proxy(lossy), m, i, lossy);
    }
  }

  predicate EndsAt(inputs: seq<Input>, k: nat, lossy: Bytes -> Bytes) {
    k < |inputs| && Ending(lossy)(ModeAt(Proxy(lossy), Idle, inputs, k), inputs[k])
  }

  /** A run is as long as this: every chunk before the one that ends it, and that one if it is rejected. */
  lemma RunLength(inputs: seq<Input>, k: nat, mode: Mode, lossy: Bytes -> Bytes)
    requires EndsAt(inputs, k, lossy) && forall l: nat | l < k :: !EndsAt(inputs, l, lossy)
    requires mode == ModeAt(Proxy(lossy), Idle, inputs, k)
    ensures |Run(Proxy(lossy), Idle, inputs)| == k + if Rejected(mode, inputs[k]) then 1 else 0
  {
    ProxyServes(lossy);
    EndingStops(lossy);
    forall l: nat | l < k ensures !Ending(lossy)(ModeAt(Proxy(lossy), Idle, inputs, l), inputs[l]) {
      assert !EndsAt(inputs, l, lossy);
    }
    RunsOn(Proxy(lossy), Ending(lossy), inputs, k);
    EndStep(Proxy(lossy), mode, inputs[k], lossy);
    RunStopsAt(Proxy(lossy), inputs, k, mode, Proxy(lossy)(mode, inputs[k]));
  }

  /** Without such a chunk none is lost, whatever is registered, connected or fails. */
  lemma NothingLost(inputs: seq<Input>, lossy: Bytes -> Bytes)
    requires forall k: nat | k < |inputs| :: !EndsAt(inputs, k, lossy)
    ensures |Run(Proxy(lossy), Idle, inputs)| == |inputs|
  {
    ProxyServes(lossy);
    EndingStops(lossy);
    forall l: nat | l < |inputs| ensures !Ending(lossy)(ModeAt(Proxy(lossy), Idle, inputs, l), inputs[l]) {
      assert !EndsAt(inputs, l, lossy);
    }
    RunsOn(Proxy(lossy), Ending(lossy), inputs, |inputs|);
    RunsUpTo(Proxy(lossy), inputs, |inputs|);
  }

  // ----- When nothing goes wrong -------------------------------------------------------------

  datatype Request = Request(m: Bytes, t: Bytes, v: Bytes, rest: Bytes)

  /** A request line of text, for a site of its own, without the proxy's header. */
  predicate Proper(r: Request) {
    && Parts(r.m, r.t, r.v) && Utf8(Line(r.m, r.t, r.v))
    && Slug(r.t) != [] && Slug(r.t) != FAVICON && ProxyHeaders(r.rest) == 0
  }

  function Arrives(r: Request): Input {
    Read(Arriving(r.m, r.t, r.v, r.rest), true, true, true)
  }

  function Reaches(r: Request): Event {
    ToServer(Slug(r.t), Leaving(r.m, r.t, r.v, r.rest))
  }

  predicate AllProper(reqs: seq<Request>, inputs: seq<Input>) {
    && |inputs| == |reqs|
    && forall k | 0 <= k < |reqs| :: Proper(reqs[k]) && inputs[k] == Arrives(reqs[k])
  }

  lemma ProperStep(h: Handler, mode: Mode, r: Request, lossy: Bytes -> Bytes)
    requires Serves(h, lossy) && Proper(r) && mode != Stopped
    ensures h(mode, Arrives(r)) == Step([Reaches(r)], Session(Slug(r.t)))
  {
    ForwardExact(r.m, r.t, r.v, r.rest, lossy);
    assert Arriving(r.m, r.t, r.v, r.rest) != [];
    var step := Handle(mode, Arrives(r), lossy);
  }

  lemma {:induction false} ProperRunsOn(h: Handler, reqs: seq<Request>, inputs: seq<Input>, n: nat,
                                        lossy: Bytes -> Bytes)
    requires Serves(h, lossy) && AllProper(reqs, inputs) && n <= |inputs|
    ensures ModeAt(h, Idle, inputs, n) != Stopped
  {
    if n > 0 {
      ProperRunsOn(h, reqs, inputs, n - 1, lossy);
      ProperStep(h, ModeAt(h, Idle, inputs, n - 1), reqs[n - 1], lossy);
    }
  }

  /**
   With every site known and every server up, each request reaches the server its slug names, with
   just the slug taken out and the header put in, however sessions open and switch along the way.
   */
  lemma AllForwarded(reqs: seq<Request>, inputs: seq<Input>, lossy: Bytes -> Bytes)
    requires AllProper(reqs, inputs)
    ensures |Run(Proxy(lossy), Idle, inputs)| == |reqs|
    ensures forall k | 0 <= k < |reqs| :: Run(Proxy(lossy), Idle, inputs)[k] == Reaches(reqs[k])
  {
    var h := Proxy(lossy);
    ProxyServes(lossy);
    ProperRunsOn(h, reqs, inputs, |inputs|, lossy);
    RunsUpTo(h, inputs, |inputs|);
    forall k: nat | k < |reqs| ensures Run(h, Idle, inputs)[k] == Reaches(reqs[k]) {
      ProperRunsOn(h, reqs, inputs, k, lossy);
      EachChunkOnce(h, Idle, inputs, k);
      ProperStep(h, ModeAt(h, Idle, inputs, k), reqs[k], lossy);
    }
  }

  // ----- A request read in pieces ------------------------------------------------------------

  /** A further piece of a request: it cannot be parsed itself, and the server can be written to. */
  predicate IsPiece(i: Input) {
    Unparsable(i) && i.data != [] && i.writes
  }

  /**
   Exactly these are passed on unchanged to the server of the session. What can be parsed is never:
   it is taken for a request of its own.
   */
  lemma PassedOnExactly(h: Handler, site: Bytes, i: Input, lossy: Bytes -> Bytes)
    requires Serves(h, lossy) && i.Read? && site != []
    ensures h(Session(site), i).events == [ToServer(site, i.data)] <==> IsPiece(i)
  {
    var step := Handle(Session(site), i, lossy);
    if Names(i, site) { NeverUnchanged(i.data, lossy); }
  }

  function DataOf(pieces: seq<Input>): Bytes {
    if pieces == [] then [] else (if pieces[0].Read? then pieces[0].data else []) + DataOf(pieces[1..])
  }

  /** All bytes written to servers, in order. */
  function BytesOf(log: seq<Event>): Bytes {
    if log == [] then [] else (if log[0].ToServer? then log[0].bytes else []) + BytesOf(log[1..])
  }

  predicate AllTo(log: seq<Event>, site: Bytes) {
    forall e | e in log :: e.ToServer? && e.site == site
  }

  lemma PieceStep(h: Handler, site: Bytes, i: Input, lossy: Bytes -> Bytes)
    requires Serves(h, lossy) && IsPiece(i)
    ensures h(Session(site), i) == Step([ToServer(site, i.data)], Session(site))
  {
    var step := Handle(Session(site), i, lossy);
  }

  lemma RunMore(h: Handler, mode: Mode, i: Input, more: seq<Input>)
    ensures Run(h, mode, [i] + more) == h(mode, i).events + Run(h, h(mode, i).mode, more)
  {
    assert ([i] + more)[1..] == more;
  }

  lemma WrittenMore(site: Bytes, bytes: Bytes, log: seq<Event>)
    requires AllTo(log, site)
    ensures AllTo([ToServer(site, bytes)] + log, site) && BytesOf([ToServer(site, bytes)] + log) == bytes + BytesOf(log)
  {
    assert ([ToServer(site, bytes)] + log)[1..] == log;
  }

  lemma {:induction false} PiecesRun(h: Handler, site: Bytes, pieces: seq<Input>, lossy: Bytes -> Bytes)
    requires Serves(h, lossy) && forall i | i in pieces :: IsPiece(i)
    ensures var log := Run(h, Session(site), pieces);
            |log| == |pieces| && AllTo(log, site) && BytesOf(log) == DataOf(pieces)
    decreases |pieces|
  {
    if pieces != [] {
      var i, more := pieces[0], pieces[1..];
      PieceStep(h, site, i, lossy);
      PiecesRun(h, site, more, lossy);
      WrittenMore(site, i.data, Run(h, Session(site), more));
    }
  }

  lemma FirstPieceRun(h: Handler, mode: Mode, r: Request, pieces: seq<Input>, lossy: Bytes -> Bytes)
    requires Serves(h, lossy) && Proper(r) && mode != Stopped && forall i | i in pieces :: IsPiece(i)
    ensures var log := Run(h, mode, [Arrives(r)] + pieces);
            |log| == 1 + |pieces| && AllTo(log, Slug(r.t))
            && BytesOf(log) == Leaving(r.m, r.t, r.v, r.rest) + DataOf(pieces)
  {
    var site, out := Slug(r.t), Leaving(r.m, r.t, r.v, r.rest);
    ProperStep(h, mode, r, lossy);
    PiecesRun(h, site, pieces, lossy);
    RunMore(h, mode, Arrives(r), pieces);
    WrittenMore(site, out, Run(h, Session(site), pieces));
  }

  /**
   A request that takes several reads, in whatever mode it comes: all pieces are written to the
   server its slug names, and nothing else. What they make up there is what the whole request would
   be rewritten to in one read, exactly when its header section ended in the first piece or does not
   end at all.
   */
  lemma PiecesMakeUpRequest(mode: Mode, r: Request, pieces: seq<Input>, lossy: Bytes -> Bytes)
    requires Proper(r) && mode != Stopped && forall i | i in pieces :: IsPiece(i)
    ensures var log, whole := Run(Proxy(lossy), mode, [Arrives(r)] + pieces), r.rest + DataOf(pieces);
            && |log| == 1 + |pieces| && AllTo(log, Slug(r.t))
            && (BytesOf(log) == Leaving(r.m, r.t, r.v, whole) <==>
                HeadEnd(r.rest) < |r.rest| || HeadEnd(whole) == |whole|)
  {
    ProxyServes(lossy);
    FirstPieceRun(Proxy(lossy), mode, r, pieces, lossy);
    LeavingMore(r.m, r.t, r.v, r.rest, DataOf(pieces));
  }

  lemma LeavingMore(m: Bytes, t: Bytes, v: Bytes, rest: Bytes, x: Bytes)
    ensures Leaving(m, t, v, rest) + x == Leaving(m, t, v, rest + x) <==>
            HeadEnd(rest) < |rest| || HeadEnd(rest + x) == |rest + x|
  {
    HeaderOnFirstPiece(Line(m, Stripped(t), v), rest, x, Slug(t));
  }

  lemma NoLines(name: Bytes)
    ensures WithHeader([], name) == [] && WithHeader(CRLF, name) == Added(name) + CRLF
  {
    FindIs(CRLF, LF, 0, 1);
  }

  /** A header section in two reads: the blank line comes second, and the header is never added. */
  lemma HeaderMissedExample(r: Request, piece: Input, lossy: Bytes -> Bytes)
    requires Proper(r) && r.rest == [] && piece == Read(CRLF, true, true, true)
    ensures BytesOf(Run(Proxy(lossy), Idle, [Arrives(r)] + [piece])) == Line(r.m, Stripped(r.t), r.v) + CRLF
    ensures Leaving(r.m, r.t, r.v, CRLF) == Line(r.m, Stripped(r.t), r.v) + (Added(Slug(r.t)) + CRLF)
  {
    FindNothing(CRLF, SP, 0);
    ProxyServes(lossy);
    FirstPieceRun(Proxy(lossy), Idle, r, [piece], lossy);
    NoLines(Slug(r.t));
    assert DataOf([piece]) == CRLF + DataOf([]);
  }

  lemma ParsedPiece()
    ensures SiteNameRemoved([97, SP, 98, SP, 99, LF]).Removed? // a b c\n
    ensures SiteNameRemoved([97, SP, 98, SP, 99, LF]).name == [98]
  {
    var m: Bytes, t: Bytes, v: Bytes := [97], [98], [99];
    assert Line(m, t, v) == [97, SP, 98, SP, 99, LF];
    assert m[1..] == [] && t[1..] == [] && v[1..] == [];
    LineIsText(m, t, v);
    FindNothing(t, SLASH, 0);
    RemovalOnRequestLine(m, t, v, Line(m, t, v));
  }

  lemma FreshStep(h: Handler, site: Bytes, i: Input, name: Bytes, lossy: Bytes -> Bytes)
    requires Serves(h, lossy) && Names(i, name) && name != site && name != [] && name != FAVICON && !i.registered
    ensures h(Session(site), i) == Step([Local(Status404)], Idle)
  {
    var step := Handle(Session(site), i, lossy);
  }

  /** More of a body that reads like a request line: it is taken for a request for another site. */
  lemma BodyTakenForRequestExample(r: Request, piece: Input, lossy: Bytes -> Bytes)
    requires Proper(r) && Slug(r.t) != [98] && piece == Read([97, SP, 98, SP, 99, LF], false, true, true)
    ensures Run(Proxy(lossy), Idle, [Arrives(r)] + [piece]) == [Reaches(r)] + [Local(Status404)]
  {
    var h := Proxy(lossy);
    ProxyServes(lossy);
    ProperStep(h, Idle, r, lossy);
    RunMore(h, Idle, Arrives(r), [piece]);
    ParsedPiece();
    FreshStep(h, Slug(r.t), piece, [98], lossy);
    RunMore(h, Session(Slug(r.t)), piece, []);
    assert [piece] + [] == [piece];
  }
}
