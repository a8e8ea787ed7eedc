/**
 Which chunk of a connection gets which answer of the proxy's own, and which bytes go to which server:
 each said by the mode of the connection and what the chunk names, exactly.
 */
module RoutingAnswers {
  import opened RequestLine
  import opened RequestWriter
  import opened RoutingSpec

  lemma FaviconSpelled()
    ensures Spells(FAVICON, "favicon.ico")
  {
  }

  // ----- By mode and chunk -------------------------------------------------------------------

  /** A session has a server. */
  predicate ProperMode(mode: Mode) {
    mode.Session? ==> mode.site != [] && mode.site != FAVICON
  }

  /** The chunk names a site, and that is not the server of the session it comes in. */
  predicate NamesAnother(mode: Mode, i: Input) {
    && i.Read? && SiteNameRemoved(i.data).Removed?
    && var name := SiteNameRemoved(i.data).name;
       name != [] && name != FAVICON && mode != Session(name)
  }

  /** The favicon, and a site that no one has registered. */
  predicate NotFound(mode: Mode, i: Input) {
    Names(i, FAVICON) || (NamesAnother(mode, i) && !i.registered)
  }

  /** A server that cannot be reached, or written to, when the chunk would go to it. */
  predicate Unreachable(mode: Mode, i: Input, lossy: Bytes -> Bytes) {
    || (NamesAnother(mode, i) && i.registered && (!i.connects || (Writable(i, lossy) && !i.writes)))
    || (mode.Session? && i.Read? && i.data != [] && !i.writes
        && (Unparsable(i) || (Names(i, mode.site) && Writable(i, lossy))))
  }

  /** What goes to a server: the chunk rewritten for the site it names, or as it is if it names none. */
  predicate GoesTo(mode: Mode, i: Input, site: Bytes, bytes: Bytes, lossy: Bytes -> Bytes) {
    && i.Read? && i.writes && site != [] && site != FAVICON
    && ((Rewritten(i, site, bytes, lossy) && (mode == Session(site) || (i.registered && i.connects)))
        || (mode == Session(site) && Unparsable(i) && i.data != [] && bytes == i.data))
  }

  /** By mode and chunk, when an answer of the proxy's own is given. */
  predicate Answered(mode: Mode, i: Input, a: Answer, lossy: Bytes -> Bytes) {
    match a
    case HomePage => mode != Stopped && Names(i, [])
    case Status404 => mode != Stopped && NotFound(mode, i)
    case Status400 => mode == Idle && Unparsable(i)
    case Status500 => mode != Stopped && Unreachable(mode, i, lossy)
  }

  lemma IdleLocal(h: Handler, i: Input, a: Answer, lossy: Bytes -> Bytes)
    requires Serves(h, lossy)
    ensures h(Idle, i).events == [Local(a)] <==> Answered(Idle, i, a, lossy)
  {
    var step := Handle(Idle, i, lossy);
  }

  lemma SessionLocalNamed(h: Handler, site: Bytes, i: Input, a: Answer, lossy: Bytes -> Bytes)
    requires Serves(h, lossy) && ProperMode(Session(site)) && i.Read? && SiteNameRemoved(i.data).Removed?
    ensures h(Session(site), i).events == [Local(a)] <==> Answered(Session(site), i, a, lossy)
  {
    var step := Handle(Session(site), i, lossy);
  }

  lemma SessionLocalOther(h: Handler, site: Bytes, i: Input, a: Answer, lossy: Bytes -> Bytes)
    requires Serves(h, lossy) && !(i.Read? && SiteNameRemoved(i.data).Removed?)
    ensures h(Session(site), i).events == [Local(a)] <==> Answered(Session(site), i, a, lossy)
  {
    var step := Handle(Session(site), i, lossy);
  }

  lemma SessionLocal(h: Handler, site: Bytes, i: Input, a: Answer, lossy: Bytes -> Bytes)
    requires Serves(h, lossy) && ProperMode(Session(site))
    ensures h(Session(site), i).events == [Local(a)] <==> Answered(Session(site), i, a, lossy)
  {
    if i.Read? && SiteNameRemoved(i.data).Removed? {
      SessionLocalNamed(h, site, i, a, lossy);
    } else {
      SessionLocalOther(h, site, i, a, lossy);
    }
  }

  lemma LocalStep(h: Handler, mode: Mode, i: Input, a: Answer, lossy: Bytes -> Bytes)
    requires Serves(h, lossy) && ProperMode(mode)
    ensures h(mode, i).events == [Local(a)] <==> Answered(mode, i, a, lossy)
  {
    match mode
    case Idle => IdleLocal(h, i, a, lossy);
    case Session(site) => SessionLocal(h, site, i, a, lossy);
    case Stopped =>
  }

  lemma IdleServer(h: Handler, i: Input, site: Bytes, bytes: Bytes, lossy: Bytes -> Bytes)
    requires Serves(h, lossy)
    ensures h(Idle, i).events == [ToServer(site, bytes)] <==> GoesTo(Idle, i, site, bytes, lossy)
  {
    var step := Handle(Idle, i, lossy);
  }

  lemma SessionServerNamed(h: Handler, current: Bytes, i: Input, site: Bytes, bytes: Bytes, lossy: Bytes -> Bytes)
    requires Serves(h, lossy) && ProperMode(Session(current)) && i.Read? && SiteNameRemoved(i.data).Removed?
    ensures h(Session(current), i).events == [ToServer(site, bytes)] <==>
            GoesTo(Session(current), i, site, bytes, lossy)
  {
    var step := Handle(Session(current), i, lossy);
  }

  lemma SessionServerOther(h: Handler, current: Bytes, i: Input, site: Bytes, bytes: Bytes, lossy: Bytes -> Bytes)
    requires Serves(h, lossy) && ProperMode(Session(current)) && !(i.Read? && SiteNameRemoved(i.data).Removed?)
    ensures h(Session(current), i).events == [ToServer(site, bytes)] <==>
            GoesTo(Session(current), i, site, bytes, lossy)
  {
    var step := Handle(Session(current), i, lossy);
  }

  lemma SessionServer(h: Handler, current: Bytes, i: Input, site: Bytes, bytes: Bytes, lossy: Bytes -> Bytes)
    requires Serves(h, lossy) && ProperMode(Session(current))
    ensures h(Session(current), i).events == [ToServer(site, bytes)] <==>
            GoesTo(Session(current), i, site, bytes, lossy)
  {
    if i.Read? && SiteNameRemoved(i.data).Removed? {
      SessionServerNamed(h, current, i, site, bytes, lossy);
    } else {
      SessionServerOther(h, current, i, site, bytes, lossy);
    }
  }

  lemma ServerStep(h: Handler, mode: Mode, i: Input, site: Bytes, bytes: Bytes, lossy: Bytes -> Bytes)
    requires Serves(h, lossy) && ProperMode(mode)
    ensures h(mode, i).events == [ToServer(site, bytes)] <==> mode != Stopped && GoesTo(mode, i, site, bytes, lossy)
  {
    match mode
    case Idle => IdleServer(h, i, site, bytes, lossy);
    case Session(current) => SessionServer(h, current, i, site, bytes, lossy);
    case Stopped =>
  }

  // ----- Over runs ---------------------------------------------------------------------------

  lemma {:induction false} ModesAreProper(h: Handler, inputs: seq<Input>, k: nat, lossy: Bytes -> Bytes)
    requires Serves(h, lossy) && k <= |inputs|
    ensures ProperMode(ModeAt(h, Idle, inputs, k))
  {
    if k > 0 && ModeAt(h, Idle, inputs, k).Session? {
      ModesAreProper(h, inputs, k - 1, lossy);
      StoppedBefore(h, inputs, k);
      SessionStep(h, ModeAt(h, Idle, inputs, k - 1), inputs[k - 1], ModeAt(h, Idle, inputs, k).site, lossy);
    }
  }

  predicate EventAt(log: seq<Event>, k: nat, e: Event) {
    k < |log| && log[k] == e
  }

  lemma EventIs(h: Handler, inputs: seq<Input>, k: nat, mode: Mode, e: Event)
    requires Orderly(h) && k < |inputs| && mode == ModeAt(h, Idle, inputs, k)
    ensures EventAt(Run(h, Idle, inputs), k, e) <==> h(mode, inputs[k]).events == [e]
  {
    EachChunkOnce(h, Idle, inputs, k);
  }

  /**
   For every chunk of every connection, exactly when each answer of the proxy's own is what it gets:
   the home page for the empty slug; not found for the favicon, and for a site that is not registered
   and not the one of the session; bad request for what cannot be parsed, outside a session; an
   internal error when the server meant cannot be reached or written to.
   */
  lemma AnswersAreExact(inputs: seq<Input>, k: nat, mode: Mode, a: Answer, lossy: Bytes -> Bytes)
    requires k < |inputs| && mode == ModeAt(Proxy(lossy), Idle, inputs, k)
    ensures EventAt(Run(Proxy(lossy), Idle, inputs), k, Local(a)) <==> Answered(mode, inputs[k], a, lossy)
  {
    var h := Proxy(lossy);
    ProxyServes(lossy);
    ModesAreProper(h, inputs, k, lossy);
    EventIs(h, inputs, k, mode, Local(a));
    LocalStep(h, mode, inputs[k], a, lossy);
  }

  /** And exactly when it is written to a server, to which, and as what. */
  lemma WritesAreExact(inputs: seq<Input>, k: nat, mode: Mode, site: Bytes, bytes: Bytes, lossy: Bytes -> Bytes)
    requires k < |inputs| && mode == ModeAt(Proxy(lossy), Idle, inputs, k)
    ensures EventAt(Run(Proxy(lossy), Idle, inputs), k, ToServer(site, bytes)) <==>
            mode != Stopped && GoesTo(mode, inputs[k], site, bytes, lossy)
  {
    var h := Proxy(lossy);
    ProxyServes(lossy);
    ModesAreProper(h, inputs, k, lossy);
    EventIs(h, inputs, k, mode, ToServer(site, bytes));
    ServerStep(h, mode, inputs[k], site, bytes, lossy);
  }
}
