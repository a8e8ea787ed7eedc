/**
 The two models of the map agree: an operation that runs undisturbed in the step system ends in the
 state, and with the answer, that the sequential specification gives it.
 */
module SyncMapSolo {
  import opened MapTypes
  import opened SyncMapModel
  import Invariant = SyncMapInvariant
  import Progress = SyncMapProgress
  import Runs = SyncMapRuns
  import S = SyncMapSpec
  import C = SyncMapCalls

  // ----- The image of a state ----------------------------------------------------------------

  function SlotOf(p: Content): S.Slot<Box> {
    match p
    case Null => S.Null
    case Expunged => S.Expunged
    case Ptr(b) => S.Stored(b)
  }

  function CellsOf(cells: seq<Content>): seq<S.Slot<Box>> {
    seq(|cells|, e requires 0 <= e < |cells| => SlotOf(cells[e]))
  }

  function OwnersOf(meta: seq<Meta>): seq<Key> {
    seq(|meta|, e requires 0 <= e < |meta| => meta[e].key)
  }

  function Image(sh: Shared): S.Maps<Box> {
    S.Maps(sh.read.m, sh.read.amended, sh.dirty, sh.misses, CellsOf(sh.cells), OwnersOf(sh.meta), 0, 0, 0)
  }

  /** The step system does not keep the three counters of work. */
  function WithoutCounters(s: S.Maps<Box>): S.Maps<Box> {
    s.(copied := 0, missed := 0, scanned := 0)
  }

  predicate HasImage(sh: Shared, s: S.Maps<Box>) {
    sh.taken == None && Image(sh) == s
  }

  lemma ImageAt(sh: Shared, e: CellId)
    ensures S.At(Image(sh), e) == SlotOf(At(sh, e))
  {
  }

  lemma ImageSet(sh: Shared, e: CellId, p: Content)
    ensures Image(SetCell(sh, e, p)) == S.SetCell(Image(sh), e, SlotOf(p))
  {
    if e < |sh.cells| { assert CellsOf(sh.cells[e := p]) == CellsOf(sh.cells)[e := SlotOf(p)]; }
  }

  lemma ImageAdd(sh: Shared, k: Key, b: Box)
    ensures Image(AddEntry(sh, k, b)) == S.AddEntry(Image(sh), k, b)
  {
    assert CellsOf(sh.cells + [Ptr(b)]) == CellsOf(sh.cells) + [S.Stored(b)];
    assert OwnersOf(sh.meta + [Meta(k, None)]) == OwnersOf(sh.meta) + [k];
  }

  lemma ImageRemove(sh: Shared, k: Key, t: Tid)
    requires k in sh.dirty
    ensures Image(RemoveEntry(sh, k, t)) == S.Removed(Image(sh), k)
  {
    assert OwnersOf(RemoveEntry(sh, k, t).meta) == OwnersOf(sh.meta);
  }

  /** Whenever the lock is free, the image meets the invariant of the sequential specification. */
  lemma QuietImage(sh: Shared)
    requires Invariant.Wf(sh) && Invariant.Quiet(sh)
    ensures S.Quiet(Image(sh))
  {
    assert forall e: CellId :: S.At(Image(sh), e) == SlotOf(At(sh, e));
  }

  // ----- What is right at each control point -------------------------------------------------

  function CallOf(op: Op): C.Call<Box> {
    match op
    case Load(k) => C.CallLoad(k)
    case Store(k, b) => C.CallStore(k, b)
    case LoadOrStore(k, b) => C.CallLoadOrStore(k, b)
    case LoadAndDelete(k) => C.CallLoadAndDelete(k)
    case Scan => C.CallKeyValues
  }

  /** The state the operation must end in, when it began in `s`. */
  function SpecifiedEnd(s: S.Maps<Box>, op: Op): S.Maps<Box> {
    WithoutCounters(C.StateAfter(CallOf(op), s))
  }

  /** ... and the answer it must give. */
  ghost predicate Answers(s: S.Maps<Box>, op: Op, r: Result) {
    match op
    case Load(k) => r == Got(S.View(s, k))
    case Store(_, _) => r == Unit
    case LoadOrStore(k, b) => r == Got(S.LoadOrStoreResult(s, k, b))
    case LoadAndDelete(k) => r == Got(S.View(s, k))
    case Scan => r.Listing? && forall k :: Get(r.entries, k) == S.View(s, k)
  }

  predicate InSnap(s: S.Maps<Box>, op: Op, e: CellId) {
    HasKey(op) && op.key in s.readM && s.readM[op.key] == e
  }

  predicate Absent(s: S.Maps<Box>, op: Op) {
    HasBox(op) && op.key !in s.readM && op.key !in s.dirty
  }

  /** The lock-free path does not do. */
  predicate Slow(s: S.Maps<Box>, op: Op) {
    if op.Scan? then s.amended
    else if Reads(op) then op.key !in s.readM && s.amended
    else op.key in s.readM ==> S.At(s, s.readM[op.key]) == S.Expunged
  }

  predicate Misses(s: S.Maps<Box>, op: Op) {
    || (Reads(op) && op.key !in s.readM && s.amended)
    || (op.LoadOrStore? && op.key !in s.readM && op.key in s.dirty)
  }

  /** What a miss is counted in: a load_and_delete has taken its entry out already. */
  function Base(s: S.Maps<Box>, op: Op): S.Maps<Box> {
    if op.LoadAndDelete? && op.key in s.dirty then S.Removed(s, op.key) else s
  }

  function Missed(s: S.Maps<Box>, op: Op): S.Maps<Box> {
    WithoutCounters(S.Miss(Base(s, op)))
  }

  predicate MissThen(s: S.Maps<Box>, op: Op, th: Then) {
    && Misses(s, op)
    && if op.LoadOrStore? then th == ThenDone(Got(S.View(s, op.key)))
       else if op.key in s.dirty then th == ThenEntry(s.dirty[op.key])
       else th == ThenDone(Got(None))
  }

  predicate Held(s: S.Maps<Box>, op: Op, e: CellId, sh: Shared) {
    || (InSnap(s, op, e) && HasImage(sh, s))
    || (Reads(op) && Misses(s, op) && Get(s.dirty, op.key) == Some(e) && HasImage(sh, Missed(s, op)))
  }

  predicate HeldLocked(s: S.Maps<Box>, op: Op, e: CellId, inDirty: bool, sh: Shared) {
    && HasBox(op)
    && if inDirty then op.key !in s.readM && Get(s.dirty, op.key) == Some(e) && HasImage(sh, s)
       else InSnap(s, op, e) && S.At(s, e) == S.Expunged && HasImage(sh, S.Revive(s, op.key))
  }

  /** What is about to be promoted. */
  predicate AboutToPromote(s: S.Maps<Box>, op: Op, th: Then, full: S.Maps<Box>) {
    if op.Scan? then s.amended && th == ThenReload && full == s
    else
      && MissThen(s, op, th) && Base(s, op).misses + 1 >= |Base(s, op).dirty|
      && full == WithoutCounters(S.Counted(Base(s, op)))
  }

  predicate Promoting(s: S.Maps<Box>, op: Op, th: Then, sh: Shared) {
    sh.taken.Some? && sh.dirty == map[] && AboutToPromote(s, op, th, Image(sh.(dirty := sh.taken.value)))
  }

  ghost predicate Resetting(s: S.Maps<Box>, op: Op, th: Then, sh: Shared) {
    exists full :: AboutToPromote(s, op, th, full) && HasImage(sh.(misses := 0), S.Promote(full))
  }

  ghost predicate Releasing(s: S.Maps<Box>, op: Op, th: Then, sh: Shared) {
    || (MissThen(s, op, th) && HasImage(sh, Missed(s, op)))
    || (th.ThenDone? && HasImage(sh, SpecifiedEnd(s, op)) && Answers(s, op, th.r))
    || (op.Scan? && th == ThenScan(sh.read.m) && HasImage(sh, SpecifiedEnd(s, op)))
  }

  ghost predicate Rebuilding(s: S.Maps<Box>, op: Op, rb: Rebuild, sh: Shared) {
    && Absent(s, op) && !s.amended && rb.snap == s.readM && rb.it == s.readM
    && sh.taken == None && Image(sh).(cells := s.cells) == s
    && S.SweptSoFar(s, rb.todo, CellsOf(sh.cells), rb.acc)
  }

  predicate Scanning(s: S.Maps<Box>, op: Op, m: map<Key, CellId>, todo: set<Key>, acc: map<Key, Box>, sh: Shared) {
    && op.Scan? && HasImage(sh, SpecifiedEnd(s, op)) && m == sh.read.m && todo <= m.Keys
    && (forall k | k in acc :: k in m && k !in todo)
    && (forall k | k in m && k !in todo :: Get(acc, k) == Value(At(sh, m[k])))
  }

  ghost predicate Solo(s: S.Maps<Box>, op: Op, pc: Pc, sh: Shared) {
    match pc
    case Idle => false
    case ReadSnap(_) => HasImage(sh, s)
    case AtEntry(_, e) => Held(s, op, e, sh)
    case Cas(_, e, x) =>
      && Held(s, op, e, sh) && x == At(sh, e) && x != Expunged && !op.Load?
      && (op.LoadOrStore? ==> x == Null) && (op.LoadAndDelete? ==> x.Ptr?)
    case WaitLock(_) => HasImage(sh, s) && Slow(s, op)
    case Locked(_) => HasImage(sh, s) && Slow(s, op)
    case DirtyLookup(_) => HasImage(sh, s) && Reads(op) && Misses(s, op)
    case Unexpunge(_, e) => HasImage(sh, s) && HasBox(op) && InSnap(s, op, e) && S.At(s, e) == S.Expunged
    case InsertShared(_, e) =>
      HasImage(sh, S.SetCell(s, e, S.Null)) && HasBox(op) && InSnap(s, op, e) && S.At(s, e) == S.Expunged
    case LockedEntry(_, e, d) => HeldLocked(s, op, e, d, sh)
    case LockedCas(_, e, d) => HeldLocked(s, op, e, d, sh) && op.LoadOrStore? && !d && At(sh, e) == Null
    case MissCount(_, th) => MissThen(s, op, th) && HasImage(sh, Base(s, op))
    case Take(_, th) => sh.taken == None && AboutToPromote(s, op, th, Image(sh))
    case PromotePublish(_, th) => Promoting(s, op, th, sh)
    case MissReset(_, th) => Resetting(s, op, th, sh)
    case RebuildStart(_, m) => HasImage(sh, s) && Absent(s, op) && !s.amended && m == s.readM
    case RebuildNext(_, rb) => Rebuilding(s, op, rb, sh)
    case RebuildLoad(_, rb, k) => Rebuilding(s, op, rb, sh) && k in rb.todo
    case RebuildCas(_, rb, k) => Rebuilding(s, op, rb, sh) && k in rb.todo && k in rb.it && At(sh, rb.it[k]) == Null
    case Publish(_, m) => HasImage(sh, WithoutCounters(S.Rebuild(s))) && Absent(s, op) && !s.amended && m == s.readM
    case Insert(_) => HasImage(sh, WithoutCounters(S.Amend(s))) && Absent(s, op)
    case Release(_, th) => Releasing(s, op, th, sh)
    case ScanNext(_, m, todo, acc) => Scanning(s, op, m, todo, acc, sh)
    case Done(_, r) => HasImage(sh, SpecifiedEnd(s, op)) && Answers(s, op, r)
  }

  // ----- Each step ---------------------------------------------------------------------------

  /** A state to begin in. */
  ghost predicate Begun(s: S.Maps<Box>) {
    S.Quiet(s) && WithoutCounters(s) == s
  }

  lemma SnapStep(s: S.Maps<Box>, op: Op, sh: Shared)
    requires Begun(s) && Solo(s, op, ReadSnap(op), sh)
    ensures Solo(s, op, AfterSnap(sh.read, op), sh)
  {
    if HasKey(op) && op.key in s.readM { ImageAt(sh, s.readM[op.key]); }
  }

  lemma MissKeepsCells(s: S.Maps<Box>, op: Op)
    ensures Missed(s, op).cells == s.cells
  {
  }

  lemma HeldCell(s: S.Maps<Box>, op: Op, e: CellId, sh: Shared)
    requires Held(s, op, e, sh)
    ensures SlotOf(At(sh, e)) == S.At(s, e) && HasKey(op) && S.CellAt(s, op.key) == Some(e)
  {
    ImageAt(sh, e);
    MissKeepsCells(s, op);
  }

  lemma HeldValue(s: S.Maps<Box>, op: Op, e: CellId, sh: Shared)
    requires Begun(s) && Held(s, op, e, sh)
    ensures SlotOf(At(sh, e)) == S.At(s, e) && Value(At(sh, e)) == S.View(s, op.key)
    ensures !InSnap(s, op, e) ==> At(sh, e).Ptr?
  {
    HeldCell(s, op, e, sh);
  }

  lemma EntryStepLoad(s: S.Maps<Box>, op: Op, e: CellId, sh: Shared)
    requires Begun(s) && Held(s, op, e, sh) && op.Load?
    ensures Solo(s, op, AfterEntry(op, e, At(sh, e)), sh)
  {
    HeldValue(s, op, e, sh);
  }

  lemma EntryStepDelete(s: S.Maps<Box>, op: Op, e: CellId, sh: Shared)
    requires Begun(s) && Held(s, op, e, sh) && op.LoadAndDelete?
    ensures Solo(s, op, AfterEntry(op, e, At(sh, e)), sh)
  {
    HeldValue(s, op, e, sh);
  }

  lemma EntryStepStore(s: S.Maps<Box>, op: Op, e: CellId, sh: Shared)
    requires Begun(s) && Held(s, op, e, sh) && op.Store?
    ensures Solo(s, op, AfterEntry(op, e, At(sh, e)), sh)
  {
    HeldValue(s, op, e, sh);
  }

  lemma EntryStepLoadOrStore(s: S.Maps<Box>, op: Op, e: CellId, sh: Shared)
    requires Begun(s) && Held(s, op, e, sh) && op.LoadOrStore?
    ensures Solo(s, op, AfterEntry(op, e, At(sh, e)), sh)
  {
    HeldValue(s, op, e, sh);
  }

  lemma EntryStep(s: S.Maps<Box>, op: Op, e: CellId, sh: Shared)
    requires Begun(s) && Held(s, op, e, sh)
    ensures Solo(s, op, AfterEntry(op, e, At(sh, e)), sh)
  {
    match op
    case Load(_) => EntryStepLoad(s, op, e, sh);
    case LoadAndDelete(_) => EntryStepDelete(s, op, e, sh);
    case Store(_, _) => EntryStepStore(s, op, e, sh);
    case LoadOrStore(_, _) => EntryStepLoadOrStore(s, op, e, sh);
    case Scan =>
  }

  lemma CasSnapEnds(s: S.Maps<Box>, op: Op, e: CellId, x: Content)
    requires Begun(s) && InSnap(s, op, e) && SlotOf(x) == S.At(s, e) && x != Expunged && !op.Load?
    requires (op.LoadOrStore? ==> x == Null) && (op.LoadAndDelete? ==> x.Ptr?)
    ensures S.SetCell(s, e, SlotOf(Written(op))) == SpecifiedEnd(s, op) && Answers(s, op, CasResult(op, x))
  {
  }

  lemma CasDirtyEnds(s: S.Maps<Box>, op: Op, e: CellId)
    requires op.LoadAndDelete? && Misses(s, op) && Get(s.dirty, op.key) == Some(e)
    ensures S.SetCell(Missed(s, op), e, S.Null) == SpecifiedEnd(s, op)
  {
  }

  lemma CasStep(s: S.Maps<Box>, op: Op, e: CellId, x: Content, sh: Shared)
    requires Begun(s) && Held(s, op, e, sh) && x == At(sh, e) && x != Expunged && !op.Load?
    requires (op.LoadOrStore? ==> x == Null) && (op.LoadAndDelete? ==> x.Ptr?)
    ensures HasImage(SetCell(sh, e, Written(op)), SpecifiedEnd(s, op)) && Answers(s, op, CasResult(op, x))
  {
    HeldValue(s, op, e, sh);
    ImageSet(sh, e, Written(op));
    if InSnap(s, op, e) { CasSnapEnds(s, op, e, x); } else { CasDirtyEnds(s, op, e); }
  }

  lemma LockedStep(s: S.Maps<Box>, op: Op, sh: Shared)
    requires Begun(s) && Solo(s, op, Locked(op), sh)
    ensures Solo(s, op, AfterLocked(sh, op), sh)
  {
  }

  lemma LookupStep(s: S.Maps<Box>, op: Op, sh: Shared)
    requires Begun(s) && Solo(s, op, DirtyLookup(op), sh) && !(op.LoadAndDelete? && op.key in sh.dirty)
    ensures var th := if KeyOf(op) in sh.dirty then ThenEntry(sh.dirty[KeyOf(op)]) else ThenDone(Got(None));
            Solo(s, op, MissCount(op, th), sh)
  {
  }

  lemma RemoveStep(s: S.Maps<Box>, op: Op, sh: Shared, t: Tid)
    requires Begun(s) && Solo(s, op, DirtyLookup(op), sh) && op.LoadAndDelete? && op.key in sh.dirty
    ensures Solo(s, op, MissCount(op, ThenEntry(sh.dirty[op.key])), RemoveEntry(sh, op.key, t))
  {
    ImageRemove(sh, op.key, t);
  }

  lemma UnexpungeStep(s: S.Maps<Box>, op: Op, e: CellId, sh: Shared)
    requires Begun(s) && Solo(s, op, Unexpunge(op, e), sh)
    ensures At(sh, e) == Expunged && Solo(s, op, InsertShared(op, e), SetCell(sh, e, Null))
  {
    ImageAt(sh, e);
    ImageSet(sh, e, Null);
  }

  lemma InsertSharedStep(s: S.Maps<Box>, op: Op, e: CellId, sh: Shared)
    requires Begun(s) && Solo(s, op, InsertShared(op, e), sh)
    ensures Solo(s, op, LockedEntry(op, e, false), sh.(dirty := sh.dirty[KeyOf(op) := e]))
  {
  }

  lemma LockedValue(s: S.Maps<Box>, op: Op, e: CellId, d: bool, sh: Shared)
    requires Begun(s) && HeldLocked(s, op, e, d, sh)
    ensures if d then At(sh, e).Ptr? else At(sh, e) == Null
    ensures Value(At(sh, e)) == S.View(s, op.key)
  {
    ImageAt(sh, e);
  }

  lemma StoreLockedEnds(s: S.Maps<Box>, op: Op, e: CellId, d: bool, sh: Shared)
    requires HeldLocked(s, op, e, d, sh) && op.Store?
    ensures S.SetCell(Image(sh), e, S.Stored(op.box)) == S.StoredAt(s, op.key, op.box)
  {
  }

  lemma StoreLockedStep(s: S.Maps<Box>, op: Op, e: CellId, d: bool, sh: Shared)
    requires Begun(s) && HeldLocked(s, op, e, d, sh) && op.Store?
    ensures Releasing(s, op, ThenDone(Unit), SetCell(sh, e, Ptr(op.box)))
  {
    StoreLockedEnds(s, op, e, d, sh);
    ImageSet(sh, e, Ptr(op.box));
  }

  lemma LoadLockedStep(s: S.Maps<Box>, op: Op, e: CellId, d: bool, sh: Shared)
    requires Begun(s) && Solo(s, op, LockedEntry(op, e, d), sh) && op.LoadOrStore?
    ensures var p := At(sh, e);
            Solo(s, op, if p.Null? then LockedCas(op, e, d) else AfterLoadOrStore(op, d, Got(Value(p))), sh)
  {
    LockedValue(s, op, e, d, sh);
  }

  lemma FillEnds(s: S.Maps<Box>, op: Op, e: CellId, sh: Shared)
    requires Begun(s) && HeldLocked(s, op, e, false, sh) && op.LoadOrStore?
    ensures S.SetCell(Image(sh), e, S.Stored(op.box)) == SpecifiedEnd(s, op) && Answers(s, op, Got(None))
  {
  }

  lemma FillStep(s: S.Maps<Box>, op: Op, e: CellId, sh: Shared)
    requires Begun(s) && HeldLocked(s, op, e, false, sh) && op.LoadOrStore?
    ensures Releasing(s, op, ThenDone(Got(None)), SetCell(sh, e, Ptr(op.box)))
  {
    FillEnds(s, op, e, sh);
    ImageSet(sh, e, Ptr(op.box));
  }

  lemma CountFull(s: S.Maps<Box>, op: Op, th: Then, sh: Shared)
    requires MissThen(s, op, th) && HasImage(sh, Base(s, op)) && sh.misses + 1 >= |sh.dirty|
    ensures AboutToPromote(s, op, th, Image(sh.(misses := sh.misses + 1)))
  {
  }

  lemma CountOnly(s: S.Maps<Box>, op: Op, th: Then, sh: Shared)
    requires Begun(s) && MissThen(s, op, th) && HasImage(sh, Base(s, op)) && sh.misses + 1 < |sh.dirty|
    ensures Releasing(s, op, th, sh.(misses := sh.misses + 1))
  {
    assert HasImage(sh.(misses := sh.misses + 1), Missed(s, op));
  }

  lemma CountStep(s: S.Maps<Box>, op: Op, th: Then, sh: Shared)
    requires Begun(s) && MissThen(s, op, th) && HasImage(sh, Base(s, op))
    ensures var sh' := sh.(misses := sh.misses + 1);
            if sh.misses + 1 >= |sh.dirty| then sh'.taken == None && AboutToPromote(s, op, th, Image(sh'))
            else Releasing(s, op, th, sh')
  {
    if sh.misses + 1 >= |sh.dirty| { CountFull(s, op, th, sh); } else { CountOnly(s, op, th, sh); }
  }

  lemma TakeStep(s: S.Maps<Box>, op: Op, th: Then, sh: Shared)
    requires sh.taken == None && AboutToPromote(s, op, th, Image(sh))
    ensures Promoting(s, op, th, sh.(taken := Some(sh.dirty), dirty := map[]))
  {
  }

  lemma PromoteStep(s: S.Maps<Box>, op: Op, th: Then, sh: Shared)
    requires Promoting(s, op, th, sh)
    ensures Resetting(s, op, th, sh.(read := Snap(Pending(sh), false), taken := None))
  {
    var full := Image(sh.(dirty := sh.taken.value));
    var sh' := sh.(read := Snap(Pending(sh), false), taken := None);
    assert HasImage(sh'.(misses := 0), S.Promote(full));
  }

  lemma PromotedEnds(s: S.Maps<Box>, op: Op, th: Then, full: S.Maps<Box>)
    requires Begun(s) && AboutToPromote(s, op, th, full)
    ensures S.Promote(full) == if op.Scan? then SpecifiedEnd(s, op) else Missed(s, op)
  {
  }

  lemma ResetStep(s: S.Maps<Box>, op: Op, th: Then, sh: Shared)
    requires Begun(s) && Resetting(s, op, th, sh)
    ensures Releasing(s, op, if th.ThenReload? then ThenScan(sh.read.m) else th, sh.(misses := 0))
  {
    var full :| AboutToPromote(s, op, th, full) && HasImage(sh.(misses := 0), S.Promote(full));
    PromotedEnds(s, op, th, full);
  }

  /** A miss that found nothing, or a load_or_store that found its value, is complete. */
  lemma MissEnds(s: S.Maps<Box>, op: Op, r: Result)
    requires Begun(s) && MissThen(s, op, ThenDone(r))
    ensures Missed(s, op) == SpecifiedEnd(s, op) && Answers(s, op, r)
  {
  }

  lemma ScanBegins(s: S.Maps<Box>, op: Op, sh: Shared)
    requires op.Scan? && HasImage(sh, SpecifiedEnd(s, op))
    ensures Scanning(s, op, sh.read.m, sh.read.m.Keys, map[], sh)
  {
  }

  lemma ReleaseDone(s: S.Maps<Box>, op: Op, r: Result, sh: Shared)
    requires Begun(s) && Releasing(s, op, ThenDone(r), sh)
    ensures HasImage(sh, SpecifiedEnd(s, op)) && Answers(s, op, r)
  {
    if MissThen(s, op, ThenDone(r)) { MissEnds(s, op, r); }
  }

  lemma ReleaseEntry(s: S.Maps<Box>, op: Op, e: CellId, sh: Shared)
    requires Releasing(s, op, ThenEntry(e), sh)
    ensures Held(s, op, e, sh)
  {
  }

  lemma Unlocked(s: S.Maps<Box>, op: Op, th: Then, sh: Shared)
    requires Releasing(s, op, th, sh)
    ensures Releasing(s, op, th, sh.(lock := None))
  {
    assert Image(sh.(lock := None)) == Image(sh);
  }

  lemma ResumeEntry(s: S.Maps<Box>, op: Op, e: CellId, sh: Shared)
    requires Releasing(s, op, ThenEntry(e), sh)
    ensures Solo(s, op, AtEntry(op, e), sh)
  {
    ReleaseEntry(s, op, e, sh);
  }

  lemma ResumeDone(s: S.Maps<Box>, op: Op, r: Result, sh: Shared)
    requires Begun(s) && Releasing(s, op, ThenDone(r), sh)
    ensures Solo(s, op, Done(op, r), sh)
  {
    ReleaseDone(s, op, r, sh);
  }

  lemma ResumeScan(s: S.Maps<Box>, op: Op, m: map<Key, CellId>, sh: Shared)
    requires Releasing(s, op, ThenScan(m), sh)
    ensures Solo(s, op, ScanNext(op, m, m.Keys, map[]), sh)
  {
    ScanBegins(s, op, sh);
  }

  lemma ResumeStep(s: S.Maps<Box>, op: Op, th: Then, sh: Shared)
    requires Begun(s) && Releasing(s, op, th, sh)
    ensures Solo(s, op, Resume(op, th), sh)
  {
    match th
    case ThenDone(r) => ResumeDone(s, op, r, sh);
    case ThenScan(m) => ResumeScan(s, op, m, sh);
    case ThenEntry(e) => ResumeEntry(s, op, e, sh);
    case ThenReload =>
  }

  lemma ReleaseStep(s: S.Maps<Box>, op: Op, th: Then, sh: Shared)
    requires Begun(s) && Releasing(s, op, th, sh)
    ensures Solo(s, op, Resume(op, th), sh.(lock := None))
  {
    Unlocked(s, op, th, sh);
    ResumeStep(s, op, th, sh.(lock := None));
  }

  // ----- The rebuild -------------------------------------------------------------------------

  lemma RebuildStartStep(s: S.Maps<Box>, op: Op, m: map<Key, CellId>, sh: Shared)
    requires Begun(s) && Solo(s, op, RebuildStart(op, m), sh)
    ensures sh.dirty == map[] && Solo(s, op, RebuildNext(op, Rebuild(m, sh.read.m, map[], sh.read.m.Keys)), sh)
  {
  }

  lemma RebuildLoadStep(s: S.Maps<Box>, op: Op, rb: Rebuild, k: Key, sh: Shared)
    requires Rebuilding(s, op, rb, sh) && k in rb.todo
    ensures k in rb.it
    ensures At(sh, rb.it[k]) == Expunged ==> Rebuilding(s, op, Dropped(rb, k), sh)
    ensures At(sh, rb.it[k]).Ptr? ==> Rebuilding(s, op, Kept(rb, k), sh)
  {
    var cells := CellsOf(sh.cells);
    ImageAt(sh, rb.it[k]);
    if At(sh, rb.it[k]) != Null { S.SweepNext(s, rb.todo, cells, rb.acc, k, cells); }
  }

  lemma ExpungeStep(s: S.Maps<Box>, op: Op, rb: Rebuild, k: Key, sh: Shared)
    requires Rebuilding(s, op, rb, sh) && k in rb.todo && k in rb.it && At(sh, rb.it[k]) == Null
    ensures Rebuilding(s, op, Dropped(rb, k), SetCell(sh, rb.it[k], Expunged))
  {
    var e, cells := rb.it[k], CellsOf(sh.cells);
    ImageAt(sh, e);
    ImageSet(sh, e, Expunged);
    S.SweepNext(s, rb.todo, cells, rb.acc, k, cells[e := S.Expunged]);
  }

  lemma BuiltStep(s: S.Maps<Box>, op: Op, rb: Rebuild, sh: Shared)
    requires Rebuilding(s, op, rb, sh) && rb.todo == {}
    ensures HasImage(sh.(dirty := rb.acc), WithoutCounters(S.Rebuild(s)))
  {
    S.SweepDone(s, CellsOf(sh.cells), rb.acc);
  }

  lemma PublishStep(s: S.Maps<Box>, m: map<Key, CellId>, sh: Shared)
    requires HasImage(sh, WithoutCounters(S.Rebuild(s))) && !s.amended && m == s.readM
    ensures HasImage(sh.(read := Snap(m, true)), WithoutCounters(S.Amend(s)))
  {
  }

  lemma InsertStep(s: S.Maps<Box>, op: Op, sh: Shared)
    requires HasImage(sh, WithoutCounters(S.Amend(s))) && Absent(s, op)
    ensures Releasing(s, op, ThenDone(if op.Store? then Unit else Got(Some(op.box))), AddEntry(sh, op.key, op.box))
  {
    ImageAdd(sh, op.key, op.box);
  }

  // ----- The scan ----------------------------------------------------------------------------

  lemma ScanStep(s: S.Maps<Box>, op: Op, m: map<Key, CellId>, todo: set<Key>, acc: map<Key, Box>, sh: Shared, k: Key)
    requires Scanning(s, op, m, todo, acc, sh) && k in todo
    ensures Scanning(s, op, m, todo - {k}, if At(sh, m[k]).Ptr? then acc[k := At(sh, m[k]).box] else acc, sh)
  {
  }

  /** Promotion leaves every reader its value, and nothing pending. */
  lemma ScannedView(s: S.Maps<Box>, k: Key)
    requires Begun(s)
    ensures S.Scanned(s).dirty == map[] && S.View(S.Scanned(s), k) == S.View(s, k)
  {
  }

  lemma SnapshotView(sh: Shared, s: S.Maps<Box>, k: Key)
    requires HasImage(sh, s) && s.dirty == map[]
    ensures S.View(s, k) == if k in sh.read.m then Value(At(sh, sh.read.m[k])) else None
  {
    if k in sh.read.m { ImageAt(sh, sh.read.m[k]); }
  }

  lemma EndOfScan(s: S.Maps<Box>, op: Op, k: Key)
    requires Begun(s) && op.Scan?
    ensures SpecifiedEnd(s, op).dirty == map[] && S.View(SpecifiedEnd(s, op), k) == S.View(s, k)
  {
    ScannedView(s, k);
  }

  lemma ScanFinds(s: S.Maps<Box>, op: Op, m: map<Key, CellId>, acc: map<Key, Box>, sh: Shared, k: Key)
    requires Begun(s) && Scanning(s, op, m, {}, acc, sh)
    ensures Get(acc, k) == S.View(s, k)
  {
    EndOfScan(s, op, k);
    SnapshotView(sh, SpecifiedEnd(s, op), k);
  }

  lemma ScanEnds(s: S.Maps<Box>, op: Op, m: map<Key, CellId>, acc: map<Key, Box>, sh: Shared)
    requires Begun(s) && Scanning(s, op, m, {}, acc, sh)
    ensures HasImage(sh, SpecifiedEnd(s, op)) && Answers(s, op, Listing(acc))
  {
    forall k ensures Get(acc, k) == S.View(s, k) { ScanFinds(s, op, m, acc, sh, k); }
  }

  // ----- A whole operation -------------------------------------------------------------------

  lemma LookOutside(s: S.Maps<Box>, op: Op, sh: Shared, pc: Pc, pc': Pc)
    requires Begun(s) && Solo(s, op, pc, sh) && pc.op == op && LookStep(sh, pc, pc')
    requires pc.ReadSnap? || pc.AtEntry? || pc.Cas? || pc.ScanNext?
    ensures Solo(s, op, pc', sh)
  {
    match pc
    case ReadSnap(_) => SnapStep(s, op, sh);
    case AtEntry(_, e) => EntryStep(s, op, e, sh);
    case Cas(_, _, _) =>
    case ScanNext(_, m, todo, acc) =>
      if todo == {} {
        ScanEnds(s, op, m, acc, sh);
      } else {
        var k :| k in todo && k in m && pc'.todo == todo - {k}
                 && pc'.acc == if At(sh, m[k]).Ptr? then acc[k := At(sh, m[k]).box] else acc;
        ScanStep(s, op, m, todo, acc, sh, k);
      }
    case _ =>
  }

  lemma LookMaps(s: S.Maps<Box>, op: Op, sh: Shared, pc: Pc, pc': Pc)
    requires Begun(s) && Solo(s, op, pc, sh) && pc.op == op && LookStep(sh, pc, pc')
    requires pc.Locked? || pc.DirtyLookup?
    ensures Solo(s, op, pc', sh)
  {
    match pc
    case Locked(_) => LockedStep(s, op, sh);
    case DirtyLookup(_) => LookupStep(s, op, sh);
    case _ =>
  }

  lemma LookUnexpunge(s: S.Maps<Box>, op: Op, e: CellId, sh: Shared, pc': Pc)
    requires Begun(s) && Solo(s, op, Unexpunge(op, e), sh)
    ensures !LookStep(sh, Unexpunge(op, e), pc')
  {
    UnexpungeStep(s, op, e, sh);
  }

  lemma LookLocked(s: S.Maps<Box>, op: Op, e: CellId, d: bool, sh: Shared, pc: Pc, pc': Pc)
    requires Begun(s) && Solo(s, op, pc, sh) && LookStep(sh, pc, pc')
    requires pc == LockedEntry(op, e, d) || pc == LockedCas(op, e, d)
    ensures Solo(s, op, pc', sh)
  {
    if pc.LockedEntry? { LoadLockedStep(s, op, e, d, sh); }
  }

  lemma LookBuilding(s: S.Maps<Box>, op: Op, rb: Rebuild, sh: Shared, k: Key, pc': Pc)
    requires Rebuilding(s, op, rb, sh) && k in rb.todo && LookStep(sh, RebuildLoad(op, rb, k), pc')
    ensures Solo(s, op, pc', sh)
  {
    RebuildLoadStep(s, op, rb, k, sh);
  }

  lemma LookRebuild(s: S.Maps<Box>, op: Op, sh: Shared, pc: Pc, pc': Pc)
    requires Begun(s) && Solo(s, op, pc, sh) && pc.op == op && LookStep(sh, pc, pc')
    requires pc.RebuildStart? || pc.RebuildNext? || pc.RebuildLoad? || pc.RebuildCas?
    ensures Solo(s, op, pc', sh)
  {
    match pc
    case RebuildStart(_, m) => RebuildStartStep(s, op, m, sh);
    case RebuildLoad(_, rb, k) => LookBuilding(s, op, rb, sh, k, pc');
    case _ =>
  }

  lemma WriteDirty(s: S.Maps<Box>, op: Op, sh: Shared, pc: Pc, sh': Shared, pc': Pc, t: Tid)
    requires Begun(s) && Solo(s, op, pc, sh) && pc.op == op && HolderStep(sh, pc, sh', pc', t)
    requires pc.DirtyLookup? || pc.InsertShared?
    ensures Solo(s, op, pc', sh')
  {
    match pc
    case DirtyLookup(_) => RemoveStep(s, op, sh, t);
    case InsertShared(_, e) => InsertSharedStep(s, op, e, sh);
    case _ =>
  }

  lemma WriteNew(s: S.Maps<Box>, op: Op, sh: Shared, pc: Pc, sh': Shared, pc': Pc, t: Tid)
    requires pc.Insert? && Solo(s, op, pc, sh) && pc.op == op && HolderStep(sh, pc, sh', pc', t)
    ensures Solo(s, op, pc', sh')
  {
    InsertStep(s, op, sh);
  }

  lemma WriteCell(s: S.Maps<Box>, op: Op, sh: Shared, pc: Pc, sh': Shared, pc': Pc, t: Tid)
    requires Begun(s) && Solo(s, op, pc, sh) && pc.op == op && HolderStep(sh, pc, sh', pc', t)
    requires pc.Unexpunge? || pc.LockedEntry? || pc.LockedCas?
    ensures Solo(s, op, pc', sh')
  {
    match pc
    case Unexpunge(_, e) => UnexpungeStep(s, op, e, sh);
    case LockedEntry(_, e, d) => StoreLockedStep(s, op, e, d, sh);
    case LockedCas(_, e, _) => FillStep(s, op, e, sh);
    case _ =>
  }

  lemma CountMiss(s: S.Maps<Box>, op: Op, sh: Shared, th: Then, sh': Shared, pc': Pc, t: Tid)
    requires Begun(s) && Solo(s, op, MissCount(op, th), sh) && HolderStep(sh, MissCount(op, th), sh', pc', t)
    ensures Solo(s, op, pc', sh')
  {
    CountStep(s, op, th, sh);
  }

  lemma MoveTaken(s: S.Maps<Box>, op: Op, th: Then, sh: Shared, pc: Pc, sh': Shared, pc': Pc, t: Tid)
    requires pc == Take(op, th) && sh.taken == None && AboutToPromote(s, op, th, Image(sh))
    requires HolderStep(sh, pc, sh', pc', t)
    ensures Solo(s, op, pc', sh')
  {
    TakeStep(s, op, th, sh);
  }

  lemma MovePublished(s: S.Maps<Box>, op: Op, th: Then, sh: Shared, pc: Pc, sh': Shared, pc': Pc, t: Tid)
    requires pc == PromotePublish(op, th) && Promoting(s, op, th, sh)
    requires HolderStep(sh, pc, sh', pc', t)
    ensures Solo(s, op, pc', sh')
  {
    PromoteStep(s, op, th, sh);
  }

  lemma MoveMaps(s: S.Maps<Box>, op: Op, sh: Shared, pc: Pc, sh': Shared, pc': Pc, t: Tid)
    requires Solo(s, op, pc, sh) && (pc.Take? || pc.PromotePublish?)
    requires pc.op == op && HolderStep(sh, pc, sh', pc', t)
    ensures Solo(s, op, pc', sh')
  {
    match pc
    case Take(_, th) => MoveTaken(s, op, th, sh, pc, sh', pc', t);
    case PromotePublish(_, th) => MovePublished(s, op, th, sh, pc, sh', pc', t);
    case _ =>
  }

  lemma ResetOrRelease(s: S.Maps<Box>, op: Op, sh: Shared, pc: Pc, sh': Shared, pc': Pc, t: Tid)
    requires Begun(s) && Solo(s, op, pc, sh) && pc.op == op && HolderStep(sh, pc, sh', pc', t)
    requires pc.MissReset? || pc.Release?
    ensures Solo(s, op, pc', sh')
  {
    match pc
    case MissReset(_, th) => ResetStep(s, op, th, sh);
    case Release(_, th) => ReleaseStep(s, op, th, sh);
    case _ =>
  }

  lemma BuildAndPublish(s: S.Maps<Box>, op: Op, sh: Shared, pc: Pc, sh': Shared, pc': Pc, t: Tid)
    requires Begun(s) && Solo(s, op, pc, sh) && pc.op == op && HolderStep(sh, pc, sh', pc', t)
    requires pc.RebuildNext? || pc.RebuildCas? || pc.Publish?
    ensures Solo(s, op, pc', sh')
  {
    match pc
    case RebuildNext(_, rb) => BuiltStep(s, op, rb, sh);
    case RebuildCas(_, rb, k) => ExpungeStep(s, op, rb, k, sh);
    case Publish(_, m) => PublishStep(s, m, sh);
    case _ =>
  }

  lemma FastSolo(s: S.Maps<Box>, op: Op, sh: Shared, pc: Pc, sh': Shared, pc': Pc, t: Tid)
    requires Begun(s) && Solo(s, op, pc, sh) && pc.op == op && FastStep(sh, pc, sh', pc', t)
    ensures Solo(s, op, pc', sh')
  {
    match pc
    case Cas(_, e, x) => CasStep(s, op, e, x, sh);
    case WaitLock(_) => assert Image(sh') == Image(sh);
    case _ =>
  }

  lemma SoloStep(s: S.Maps<Box>, op: Op, sh: Shared, pc: Pc, sh': Shared, pc': Pc, t: Tid)
    requires Begun(s) && Solo(s, op, pc, sh) && pc.op == op && Trans(sh, pc, sh', pc', t) && !pc'.Idle?
    ensures Solo(s, op, pc', sh')
  {
    if FastStep(sh, pc, sh', pc', t) {
      FastSolo(s, op, sh, pc, sh', pc', t);
    } else if HolderStep(sh, pc, sh', pc', t) {
      HolderSolo(s, op, sh, pc, sh', pc', t);
    } else {
      LookSolo(s, op, sh, pc, pc');
    }
  }

  lemma HolderSolo(s: S.Maps<Box>, op: Op, sh: Shared, pc: Pc, sh': Shared, pc': Pc, t: Tid)
    requires Begun(s) && Solo(s, op, pc, sh) && pc.op == op && HolderStep(sh, pc, sh', pc', t)
    ensures Solo(s, op, pc', sh')
  {
    if pc.DirtyLookup? || pc.InsertShared? {
      WriteDirty(s, op, sh, pc, sh', pc', t);
    } else if pc.Insert? {
      WriteNew(s, op, sh, pc, sh', pc', t);
    } else if pc.Unexpunge? || pc.LockedEntry? || pc.LockedCas? {
      WriteCell(s, op, sh, pc, sh', pc', t);
    } else if pc.MissCount? {
      CountMiss(s, op, sh, pc.then_, sh', pc', t);
    } else if pc.Take? || pc.PromotePublish? {
      MoveMaps(s, op, sh, pc, sh', pc', t);
    } else if pc.MissReset? || pc.Release? {
      ResetOrRelease(s, op, sh, pc, sh', pc', t);
    } else {
      BuildAndPublish(s, op, sh, pc, sh', pc', t);
    }
  }

  lemma LookSolo(s: S.Maps<Box>, op: Op, sh: Shared, pc: Pc, pc': Pc)
    requires Begun(s) && Solo(s, op, pc, sh) && pc.op == op && LookStep(sh, pc, pc') && !pc'.Idle?
    ensures Solo(s, op, pc', sh)
  {
    if pc.ReadSnap? || pc.AtEntry? || pc.Cas? || pc.ScanNext? {
      LookOutside(s, op, sh, pc, pc');
    } else if pc.Locked? || pc.DirtyLookup? {
      LookMaps(s, op, sh, pc, pc');
    } else if pc.Unexpunge? {
      LookUnexpunge(s, op, pc.e, sh, pc');
    } else if pc.LockedEntry? || pc.LockedCas? {
      LookLocked(s, op, pc.e, pc.inDirty, sh, pc, pc');
    } else {
      LookRebuild(s, op, sh, pc, pc');
    }
  }

  /** `t` runs one operation, from just behind its start to index `n`, and no one else makes a step. */
  ghost predicate Undisturbed(b: Run, m: nat, n: nat, t: Tid, op: Op) {
    && Valid(b) && m <= n < |b.states|
    && t in b.states[m].pcs && b.states[m].pcs[t] == ReadSnap(op) && b.states[m].sh.lock == None
    && (forall i | m <= i < n :: b.who[i] == t)
    && (forall i | m <= i <= n :: Runs.Running(b, i, t))
  }

  lemma SoloBegins(b: Run, m: nat, s: S.Maps<Box>)
    requires Valid(b) && m < |b.states| && b.states[m].sh.lock == None && s == Image(b.states[m].sh)
    ensures Begun(s) && HasImage(b.states[m].sh, s)
  {
    Runs.Invariant(b, m);
    QuietImage(b.states[m].sh);
  }

  lemma SoloNext(b: Run, i: nat, t: Tid, op: Op, s: S.Maps<Box>)
    requires Valid(b) && i < |b.who| && b.who[i] == t && Runs.Running(b, i, t) && Runs.Running(b, i + 1, t)
    requires Begun(s) && Runs.OpAt(b, i, t) == op && Solo(s, op, b.states[i].pcs[t], b.states[i].sh)
    ensures Runs.OpAt(b, i + 1, t) == op && Solo(s, op, b.states[i + 1].pcs[t], b.states[i + 1].sh)
  {
    assert StepAt(b, i);
    var x, y := b.states[i], b.states[i + 1];
    Runs.StepMoves(x.sh, x.pcs[t], y.sh, y.pcs[t], t);
    SoloStep(s, op, x.sh, x.pcs[t], y.sh, y.pcs[t], t);
  }

  lemma {:induction false} SoloRun(b: Run, m: nat, n: nat, t: Tid, op: Op, s: S.Maps<Box>)
    requires Undisturbed(b, m, n, t, op) && s == Image(b.states[m].sh)
    ensures Runs.Running(b, n, t) && Runs.OpAt(b, n, t) == op
    ensures Begun(s) && Solo(s, op, b.states[n].pcs[t], b.states[n].sh)
  {
    assert Runs.Running(b, n, t);
    if n == m {
      SoloBegins(b, m, s);
    } else {
      SoloRun(b, m, n - 1, t, op, s);
      SoloNext(b, n - 1, t, op, s);
    }
  }

  /**
   The two models agree: an operation that runs undisturbed from a state with the lock free ends in
   the very state that the sequential specification gives for it, and with its answer.
   */
  lemma SoloRefines(b: Run, m: nat, n: nat, t: Tid, op: Op, r: Result)
    requires Undisturbed(b, m, n, t, op) && t in b.states[n].pcs && b.states[n].pcs[t] == Done(op, r)
    ensures Image(b.states[n].sh) == WithoutCounters(C.StateAfter(CallOf(op), Image(b.states[m].sh)))
    ensures Answers(Image(b.states[m].sh), op, r)
  {
    SoloRun(b, m, n, t, op, Image(b.states[m].sh));
  }

  // ----- It gets there -----------------------------------------------------------------------

  /** More steps than an operation that began in `s` has left behind the lock. */
  function Tail(s: S.Maps<Box>): nat {
    |s.readM| + |s.dirty| + 3
  }

  function LockedRank(s: S.Maps<Box>): nat {
    4 * |s.readM| + 11 + Tail(s)
  }

  /** How many steps an undisturbed operation that began in `s` is away from its end, at most. */
  function SoloRank(s: S.Maps<Box>, op: Op, sh: Shared, pc: Pc): nat {
    if Invariant.Holds(pc) then Progress.Rank(sh, pc) + Tail(s) else
    match pc
    case ReadSnap(_) => LockedRank(s) + 3
    case AtEntry(_, _) => if Reads(op) then 2 else LockedRank(s) + 2
    case Cas(_, _, _) => 1
    case WaitLock(_) => LockedRank(s) + 1
    case ScanNext(_, _, todo, _) => |todo| + 1
    case _ => 0
  }

  lemma SnapDrops(s: S.Maps<Box>, op: Op, sh: Shared)
    requires HasImage(sh, s)
    ensures !AfterSnap(sh.read, op).Idle?
    ensures SoloRank(s, op, sh, AfterSnap(sh.read, op)) < SoloRank(s, op, sh, ReadSnap(op))
  {
    assert !Invariant.Holds(ReadSnap(op)) && !Invariant.Holds(AfterSnap(sh.read, op));
  }

  lemma ReaderDrops(s: S.Maps<Box>, op: Op, e: CellId, p: Content, sh: Shared)
    requires Reads(op)
    ensures SoloRank(s, op, sh, AfterEntry(op, e, p)) <= 1
  {
  }

  lemma WriterDrops(s: S.Maps<Box>, op: Op, e: CellId, p: Content, sh: Shared)
    requires HasBox(op)
    ensures SoloRank(s, op, sh, AfterEntry(op, e, p)) <= LockedRank(s) + 1
  {
  }

  lemma EntryDrops(s: S.Maps<Box>, op: Op, e: CellId, p: Content, sh: Shared)
    requires HasKey(op)
    ensures !AfterEntry(op, e, p).Idle?
    ensures SoloRank(s, op, sh, AfterEntry(op, e, p)) < SoloRank(s, op, sh, AtEntry(op, e))
  {
    if Reads(op) { ReaderDrops(s, op, e, p, sh); } else { WriterDrops(s, op, e, p, sh); }
  }

  lemma WaitDrops(s: S.Maps<Box>, op: Op, sh: Shared, sh': Shared)
    requires sh'.read.m == s.readM
    ensures SoloRank(s, op, sh', Locked(op)) < SoloRank(s, op, sh, WaitLock(op))
  {
  }

  /** Only a loaded content is expected in a cell, so undisturbed no compare-exchange fails. */
  lemma CasSucceeds(op: Op, e: CellId, sh: Shared, pc: Pc, sh': Shared, pc': Pc, t: Tid)
    requires Trans(sh, pc, sh', pc', t) && pc == Cas(op, e, At(sh, e))
    ensures pc'.Done?
  {
  }

  lemma HeadDrops(s: S.Maps<Box>, op: Op, sh: Shared, pc: Pc, sh': Shared, pc': Pc, t: Tid)
    requires HasImage(sh, s) && Trans(sh, pc, sh', pc', t) && (pc == ReadSnap(op) || pc == WaitLock(op))
    ensures !pc'.Idle? && SoloRank(s, op, sh', pc') < SoloRank(s, op, sh, pc)
  {
    if pc.ReadSnap? { SnapDrops(s, op, sh); } else { WaitDrops(s, op, sh, sh'); }
  }

  lemma CellDrops(s: S.Maps<Box>, op: Op, sh: Shared, pc: Pc, sh': Shared, pc': Pc, t: Tid)
    requires pc.AtEntry? || (pc.Cas? && pc.expected == At(sh, pc.e))
    requires HasKey(op) && Trans(sh, pc, sh', pc', t) && pc.op == op
    ensures !pc'.Idle? && SoloRank(s, op, sh', pc') < SoloRank(s, op, sh, pc)
  {
    if pc.AtEntry? {
      EntryDrops(s, op, pc.e, At(sh, pc.e), sh);
    } else {
      CasSucceeds(op, pc.e, sh, pc, sh', pc', t);
    }
  }

  lemma ScanShrinks(sh: Shared, pc: Pc, pc': Pc)
    requires pc.ScanNext? && LookStep(sh, pc, pc')
    ensures pc'.Done? || (pc'.ScanNext? && |pc'.todo| < |pc.todo|)
  {
  }

  lemma ScanDrops(s: S.Maps<Box>, op: Op, sh: Shared, pc: Pc, sh': Shared, pc': Pc, t: Tid)
    requires pc.ScanNext? && Trans(sh, pc, sh', pc', t)
    ensures !pc'.Idle? && SoloRank(s, op, sh', pc') < SoloRank(s, op, sh, pc)
  {
    assert LookStep(sh, pc, pc');
    ScanShrinks(sh, pc, pc');
  }

  /** Whoever goes on to a cell behind the lock only reads it, and a scan goes through at most both maps. */
  lemma ReleaseIsNear(s: S.Maps<Box>, op: Op, th: Then, sh: Shared)
    requires Releasing(s, op, th, sh)
    ensures !th.ThenReload? && (th.ThenEntry? ==> Reads(op))
    ensures th.ThenScan? ==> |th.m| <= |s.readM| + |s.dirty|
  {
  }

  lemma ReleaseDrops(s: S.Maps<Box>, op: Op, th: Then, sh: Shared, sh': Shared)
    requires !th.ThenReload? && (th.ThenEntry? ==> Reads(op))
    requires th.ThenScan? ==> |th.m| <= |s.readM| + |s.dirty|
    ensures !Resume(op, th).Idle? && !Invariant.Holds(Resume(op, th))
    ensures SoloRank(s, op, sh', Resume(op, th)) < SoloRank(s, op, sh, Release(op, th))
  {
    assert Invariant.Holds(Release(op, th));
    if th.ThenScan? { assert |th.m.Keys| == |th.m|; }
  }

  lemma StaysInside(sh: Shared, pc: Pc, sh': Shared, pc': Pc, t: Tid)
    requires Trans(sh, pc, sh', pc', t) && Invariant.Holds(pc) && !pc.Release?
    ensures Invariant.Holds(pc')
  {
    Runs.StepMoves(sh, pc, sh', pc', t);
  }

  lemma GoesOn(sh: Shared, op: Op, th: Then, sh': Shared, pc': Pc, t: Tid)
    requires Trans(sh, Release(op, th), sh', pc', t)
    ensures pc' == Resume(op, th)
  {
  }

  lemma InsideDrops(s: S.Maps<Box>, op: Op, sh: Shared, pc: Pc, sh': Shared, pc': Pc)
    requires Invariant.Holds(pc) && Invariant.Holds(pc') && Progress.Rank(sh', pc') < Progress.Rank(sh, pc)
    ensures !pc'.Idle? && SoloRank(s, op, sh', pc') < SoloRank(s, op, sh, pc)
  {
  }

  lemma HolderDrops(s: S.Maps<Box>, op: Op, sh: Shared, pc: Pc, sh': Shared, pc': Pc, t: Tid)
    requires pc.Release? ==> pc.op == op && Releasing(s, op, pc.then_, sh)
    requires Trans(sh, pc, sh', pc', t) && Invariant.Holds(pc) && Progress.Rank(sh', pc') < Progress.Rank(sh, pc)
    ensures !pc'.Idle? && SoloRank(s, op, sh', pc') < SoloRank(s, op, sh, pc)
  {
    if pc.Release? {
      GoesOn(sh, op, pc.then_, sh', pc', t);
      ReleaseIsNear(s, op, pc.then_, sh);
      ReleaseDrops(s, op, pc.then_, sh, sh');
    } else {
      StaysInside(sh, pc, sh', pc', t);
      InsideDrops(s, op, sh, pc, sh', pc');
    }
  }

  lemma StepDrops(s: S.Maps<Box>, op: Op, sh: Shared, pc: Pc, sh': Shared, pc': Pc, t: Tid)
    requires Begun(s) && Solo(s, op, pc, sh) && pc.op == op && Trans(sh, pc, sh', pc', t) && !pc.Done?
    requires Invariant.Holds(pc) ==> Progress.Rank(sh', pc') < Progress.Rank(sh, pc)
    ensures !pc'.Idle? && SoloRank(s, op, sh', pc') < SoloRank(s, op, sh, pc)
  {
    if Invariant.Holds(pc) {
      HolderDrops(s, op, sh, pc, sh', pc', t);
    } else if pc.ScanNext? {
      ScanDrops(s, op, sh, pc, sh', pc', t);
    } else if pc.ReadSnap? || pc.WaitLock? {
      HeadDrops(s, op, sh, pc, sh', pc', t);
    } else {
      CellDrops(s, op, sh, pc, sh', pc', t);
    }
  }

  lemma RunDrops(b: Run, i: nat, t: Tid, op: Op, s: S.Maps<Box>)
    requires Valid(b) && i < |b.who| && b.who[i] == t && Runs.Running(b, i, t) && !b.states[i].pcs[t].Done?
    requires Begun(s) && Runs.OpAt(b, i, t) == op && Solo(s, op, b.states[i].pcs[t], b.states[i].sh)
    ensures Runs.Running(b, i + 1, t)
    ensures SoloRank(s, op, b.states[i + 1].sh, b.states[i + 1].pcs[t]) <
            SoloRank(s, op, b.states[i].sh, b.states[i].pcs[t])
  {
    assert StepAt(b, i);
    var x, y := b.states[i], b.states[i + 1];
    if Invariant.Holds(x.pcs[t]) { Progress.RankDrops(b, i); }
    StepDrops(s, op, x.sh, x.pcs[t], y.sh, y.pcs[t], t);
  }

  lemma SomeRank(s: S.Maps<Box>, op: Op, sh: Shared, pc: Pc)
    requires !pc.Done? && !pc.Idle?
    ensures SoloRank(s, op, sh, pc) > 0
  {
  }

  function RankAt(b: Run, i: nat, t: Tid, op: Op, s: S.Maps<Box>): nat
    requires i < |b.states| && t in b.states[i].pcs
  {
    SoloRank(s, op, b.states[i].sh, b.states[i].pcs[t])
  }

  lemma OneMoreStep(b: Run, m: nat, i: nat, t: Tid, op: Op, s: S.Maps<Box>)
    requires Undisturbed(b, m, i, t, op) && s == Image(b.states[m].sh) && t in b.states[i].pcs
    requires i < |b.who| && b.who[i] == t && !b.states[i].pcs[t].Done?
    ensures Undisturbed(b, m, i + 1, t, op) && t in b.states[i + 1].pcs
    ensures RankAt(b, i + 1, t, op, s) < RankAt(b, i, t, op, s)
  {
    SoloRun(b, m, i, t, op, s);
    RunDrops(b, i, t, op, s);
  }

  lemma RankLeft(b: Run, m: nat, i: nat, t: Tid, op: Op, s: S.Maps<Box>)
    requires Undisturbed(b, m, i, t, op) && t in b.states[i].pcs && !b.states[i].pcs[t].Done?
    ensures RankAt(b, i, t, op, s) > 0
  {
    assert Runs.Running(b, i, t);
    SomeRank(s, op, b.states[i].sh, b.states[i].pcs[t]);
  }

  /** An operation that runs undisturbed for as many steps as its rank says is done by then. */
  lemma {:induction false} SoloFinishes(b: Run, m: nat, i: nat, n: nat, t: Tid, op: Op, s: S.Maps<Box>) returns (d: nat)
    requires Undisturbed(b, m, i, t, op) && s == Image(b.states[m].sh) && t in b.states[i].pcs
    requires i + RankAt(b, i, t, op, s) <= n < |b.states| && forall j | i <= j < n :: b.who[j] == t
    ensures i <= d <= n && Undisturbed(b, m, d, t, op) && t in b.states[d].pcs && b.states[d].pcs[t].Done?
    decreases n - i
  {
    d := i;
    if !b.states[i].pcs[t].Done? {
      RankLeft(b, m, i, t, op, s);
      OneMoreStep(b, m, i, t, op, s);
      d := SoloFinishes(b, m, i + 1, n, t, op, s);
    }
  }

  /**
   An operation begun with the lock free that runs undisturbed is done within a number of steps
   linear in the sizes of the snapshot and of `dirty`, in the specified state, with the specified answer.
   */
  lemma SoloCompletes(b: Run, m: nat, n: nat, t: Tid, op: Op) returns (d: nat, r: Result)
    requires Valid(b) && m <= n < |b.states| && t in b.states[m].pcs && b.states[m].pcs[t] == ReadSnap(op)
    requires b.states[m].sh.lock == None && forall i | m <= i < n :: b.who[i] == t
    requires n == m + 5 * |b.states[m].sh.read.m| + |b.states[m].sh.dirty| + 17
    ensures m <= d <= n && t in b.states[d].pcs && b.states[d].pcs[t] == Done(op, r)
    ensures Image(b.states[d].sh) == WithoutCounters(C.StateAfter(CallOf(op), Image(b.states[m].sh)))
    ensures Answers(Image(b.states[m].sh), op, r)
  {
    var s := Image(b.states[m].sh);
    assert Undisturbed(b, m, m, t, op);
    d := SoloFinishes(b, m, m, n, t, op, s);
    SoloRun(b, m, d, t, op, s);
    r := b.states[d].pcs[t].r;
    SoloRefines(b, m, d, t, op, r);
  }
}
