/**
 The concurrent map as a small-step interleaving system: any number of threads, each step one
 atomic action (a load of the snapshot, a load or compare-exchange of one entry cell, taking or
 releasing the mutex, or one action on the data the mutex protects).

 Cells and snapshots are garbage collected and memory is sequentially consistent.
 */
module SyncMapModel {
  import opened MapTypes

  type Tid = nat
  type CellId = nat
  // The address of a boxed value. The map never looks inside a box, so the address stands for it.
  type Box = nat

  /** What an entry cell points at: nothing, the EXPUNGED sentinel, or a box. */
  datatype Content = Null | Expunged | Ptr(box: Box)

  /** The published, immutable snapshot. */
  datatype Snap = Snap(m: map<Key, CellId>, amended: bool)

  /** Auxiliary: the key a cell was allocated for, and the thread that removed it from `dirty`. */
  datatype Meta = Meta(key: Key, remover: Option<Tid>)

  datatype Shared = Shared(
    read: Snap,
    dirty: map<Key, CellId>,
    taken: Option<map<Key, CellId>>, // the lock holder's local `m` between mem::replace and the store
    misses: nat,
    lock: Option<Tid>,
    cells: seq<Content>,
    meta: seq<Meta>,  // auxiliary: no step reads it
    boxes: seq<Tid>)  // auxiliary: who allocated each box

  datatype Op =
    | Load(key: Key)
    | Store(key: Key, box: Box)
    | LoadOrStore(key: Key, box: Box)
    | LoadAndDelete(key: Key)
    | Scan // keys, values and key_values

  datatype Result = Unit | Got(found: Option<Box>) | Listing(entries: map<Key, Box>)

  /** What the lock holder does once it has released the lock. */
  datatype Then =
    | ThenEntry(e: CellId)
    | ThenDone(r: Result)
    | ThenReload
    | ThenScan(m: map<Key, CellId>)

  /** Locals of a rebuild: the snapshot to republish, the map iterated, what is kept, what is left. */
  datatype Rebuild = Rebuild(snap: map<Key, CellId>, it: map<Key, CellId>, acc: map<Key, CellId>, todo: set<Key>)

  datatype Pc =
    | Idle
    | ReadSnap(op: Op)
    | AtEntry(op: Op, e: CellId)
    | Cas(op: Op, e: CellId, expected: Content)
    | WaitLock(op: Op)
    | Locked(op: Op)
    | DirtyLookup(op: Op)
    | Unexpunge(op: Op, e: CellId)
    | InsertShared(op: Op, e: CellId)
    | LockedEntry(op: Op, e: CellId, inDirty: bool)
    | LockedCas(op: Op, e: CellId, inDirty: bool)
    | MissCount(op: Op, then_: Then)
    | Take(op: Op, then_: Then)
    | PromotePublish(op: Op, then_: Then)
    | MissReset(op: Op, then_: Then)
    | RebuildStart(op: Op, m: map<Key, CellId>)
    | RebuildNext(op: Op, rb: Rebuild)
    | RebuildLoad(op: Op, rb: Rebuild, k: Key)
    | RebuildCas(op: Op, rb: Rebuild, k: Key)
    | Publish(op: Op, m: map<Key, CellId>)
    | Insert(op: Op)
    | Release(op: Op, then_: Then)
    | ScanNext(op: Op, m: map<Key, CellId>, todo: set<Key>, acc: map<Key, Box>)
    | Done(op: Op, r: Result)

  datatype State = State(sh: Shared, pcs: map<Tid, Pc>)

  // ----- Reading the shared state ------------------------------------------------------------

  predicate HasKey(op: Op) { !op.Scan? }

  predicate HasBox(op: Op) { op.Store? || op.LoadOrStore? }

  predicate Reads(op: Op) { op.Load? || op.LoadAndDelete? }

  function KeyOf(op: Op): Key {
    if HasKey(op) then op.key else ""
  }

  function BoxOf(op: Op): Box {
    if HasBox(op) then op.box else 0
  }

  function At(sh: Shared, e: CellId): Content {
    if e < |sh.cells| then sh.cells[e] else Null
  }

  function Value(p: Content): Option<Box> {
    if p.Ptr? then Some(p.box) else None
  }

  /** The newer map: `dirty`, or the lock holder's local while it is between two homes. */
  function Pending(sh: Shared): map<Key, CellId> {
    if sh.taken.Some? then sh.taken.value else sh.dirty
  }

  /** The current cell of a key. */
  function CellAt(sh: Shared, k: Key): Option<CellId> {
    if k in sh.read.m then Some(sh.read.m[k]) else Get(Pending(sh), k)
  }

  /** The abstract map, at one key. Null and expunged cells both mean absent. */
  function View(sh: Shared, k: Key): Option<Box> {
    var c := CellAt(sh, k);
    if c.Some? then Value(At(sh, c.value)) else None
  }

  /** The abstract map as a whole. */
  function AbsMap(sh: Shared): map<Key, Box> {
    map k | k in sh.read.m.Keys + Pending(sh).Keys && View(sh, k).Some? :: View(sh, k).value
  }

  // ----- Writing it --------------------------------------------------------------------------

  function SetCell(sh: Shared, e: CellId, p: Content): Shared {
    if e < |sh.cells| then sh.(cells := sh.cells[e := p]) else sh
  }

  function AddEntry(sh: Shared, k: Key, box: Box): Shared {
    sh.(dirty := sh.dirty[k := |sh.cells|],
    cells := sh.cells + [Ptr(box)],
    meta := sh.meta + [Meta(k, None)])
  }

  function RemoveEntry(sh: Shared, k: Key, t: Tid): Shared
    requires k in sh.dirty
  {
    var e := sh.dirty[k];
    sh.(dirty := sh.dirty - {k},
    meta := if e < |sh.meta| then sh.meta[e := Meta(sh.meta[e].key, Some(t))] else sh.meta)
  }

  // ----- Control flow ------------------------------------------------------------------------

  /** After the lock-free load of the snapshot: the heads of load, store, ..., keys. */
  function AfterSnap(r: Snap, op: Op): Pc {
    if op.Scan? then
      if r.amended then WaitLock(op) else ScanNext(op, r.m, r.m.Keys, map[])
    else if op.key in r.m then AtEntry(op, r.m[op.key])
    else if Reads(op) && !r.amended then Done(op, Got(None))
    else WaitLock(op)
  }

  /** After the load of a cell in Entry::load, try_store, try_load_or_store or delete. */
  function AfterEntry(op: Op, e: CellId, p: Content): Pc {
    match op
    case Load(_) => Done(op, Got(Value(p)))
    case Store(_, _) => if p.Expunged? then WaitLock(op) else Cas(op, e, p)
    case LoadOrStore(_, _) =>
      (match p
       case Expunged => WaitLock(op)
       case Null => Cas(op, e, Null)
       case Ptr(b) => Done(op, Got(Some(b))))
    case LoadAndDelete(_) => if p.Ptr? then Cas(op, e, p) else Done(op, Got(None))
    case Scan => AtEntry(op, e) // a scan never holds a single entry
  }

  /** What a successful compare-exchange of the operation leaves in the cell. */
  function Written(op: Op): Content {
    if HasBox(op) then Ptr(op.box) else Null
  }

  function CasResult(op: Op, expected: Content): Result {
    if op.Store? then Unit
    else if op.LoadOrStore? then Got(None)
    else Got(Value(expected))
  }

  /** After the second load of the snapshot, under the lock. */
  function AfterLocked(sh: Shared, op: Op): Pc {
    if op.Scan? then
      if sh.read.amended then Take(op, ThenReload) else Release(op, ThenScan(sh.read.m))
    else if Reads(op) then
      if op.key in sh.read.m then Release(op, ThenEntry(sh.read.m[op.key]))
      else if sh.read.amended then DirtyLookup(op)
      else Release(op, ThenDone(Got(None)))
    else if op.key in sh.read.m then Unexpunge(op, sh.read.m[op.key])
    else if op.key in sh.dirty then LockedEntry(op, sh.dirty[op.key], true)
    else if !sh.read.amended then RebuildStart(op, sh.read.m)
    else Insert(op)
  }

  /** load_or_store counts a miss when it found its entry in `dirty`. */
  function AfterLoadOrStore(op: Op, inDirty: bool, r: Result): Pc {
    if inDirty then MissCount(op, ThenDone(r)) else Release(op, ThenDone(r))
  }

  function Resume(op: Op, th: Then): Pc {
    match th
    case ThenEntry(e) => AtEntry(op, e)
    case ThenDone(r) => Done(op, r)
    case ThenScan(m) => ScanNext(op, m, m.Keys, map[])
    case ThenReload => Idle // resolved before the lock is released
  }

  function Kept(rb: Rebuild, k: Key): Rebuild
    requires k in rb.it
  {
    rb.(acc := rb.acc[k := rb.it[k]], todo := rb.todo - {k})
  }

  function Dropped(rb: Rebuild, k: Key): Rebuild {
    rb.(todo := rb.todo - {k})
  }

  // ----- The step relation -------------------------------------------------------------------

  predicate Invoke(sh: Shared, op: Op, sh': Shared, t: Tid) {
    if HasBox(op) then op.box == |sh.boxes| && sh' == sh.(boxes := sh.boxes + [t])
    else sh' == sh
  }

  /** Steps that only look at the shared state and move the thread's control point. */
  predicate LookStep(sh: Shared, pc: Pc, pc': Pc) {
    match pc
    case ReadSnap(op) => pc' == AfterSnap(sh.read, op)
    case AtEntry(op, e) => pc' == AfterEntry(op, e, At(sh, e))
    case Cas(op, e, expected) => At(sh, e) != expected && pc' == AtEntry(op, e)
    case Locked(op) => pc' == AfterLocked(sh, op)
    case DirtyLookup(op) =>
      && !(op.LoadAndDelete? && KeyOf(op) in sh.dirty)
      && pc' == MissCount(op, if KeyOf(op) in sh.dirty then ThenEntry(sh.dirty[KeyOf(op)]) else ThenDone(Got(None)))
    case Unexpunge(op, e) => At(sh, e) != Expunged && pc' == LockedEntry(op, e, false)
    case LockedEntry(op, e, inDirty) =>
      && !op.Store?
      && pc' == (if At(sh, e).Null? then LockedCas(op, e, inDirty)
                 else AfterLoadOrStore(op, inDirty, Got(Value(At(sh, e)))))
    case LockedCas(op, e, inDirty) => At(sh, e) != Null && pc' == LockedEntry(op, e, inDirty)
    case RebuildStart(op, m) =>
      pc' == if sh.dirty == map[] then RebuildNext(op, Rebuild(m, sh.read.m, map[], sh.read.m.Keys)) else Publish(op, m)
    case RebuildNext(op, rb) =>
      rb.todo != {} && pc'.RebuildLoad? && pc'.op == op && pc'.rb == rb && pc'.k in rb.todo
    case RebuildLoad(op, rb, k) =>
      && k in rb.it
      && pc' == (match At(sh, rb.it[k])
                 case Null => RebuildCas(op, rb, k)
                 case Expunged => RebuildNext(op, Dropped(rb, k))
                 case Ptr(_) => RebuildNext(op, Kept(rb, k)))
    case RebuildCas(op, rb, k) => k in rb.it && At(sh, rb.it[k]) != Null && pc' == RebuildLoad(op, rb, k)
    case ScanNext(op, m, todo, acc) =>
      if todo == {} then pc' == Done(op, Listing(acc))
      else
        && pc'.ScanNext? && pc'.op == op && pc'.m == m
        && exists k | k in todo ::
             && k in m
             && pc'.todo == todo - {k}
             && pc'.acc == (if At(sh, m[k]).Ptr? then acc[k := At(sh, m[k]).box] else acc)
    case Done(op, r) => pc' == Idle
    case _ => false
  }

  /** Steps of the lock-free paths that write, and taking the lock. */
  predicate FastStep(sh: Shared, pc: Pc, sh': Shared, pc': Pc, t: Tid) {
    match pc
    case Idle => pc'.ReadSnap? && Invoke(sh, pc'.op, sh', t)
    case Cas(op, e, expected) =>
      && At(sh, e) == expected
      && sh' == SetCell(sh, e, Written(op))
      && pc' == Done(op, CasResult(op, expected))
    case WaitLock(op) => sh.lock == None && sh' == sh.(lock := Some(t)) && pc' == Locked(op)
    case _ => false
  }

  /** Steps of the lock holder that write. */
  predicate HolderStep(sh: Shared, pc: Pc, sh': Shared, pc': Pc, t: Tid) {
    match pc
    case DirtyLookup(op) =>
      && op.LoadAndDelete? && op.key in sh.dirty
      && sh' == RemoveEntry(sh, op.key, t)
      && pc' == MissCount(op, ThenEntry(sh.dirty[op.key]))
    case Unexpunge(op, e) =>
      At(sh, e) == Expunged && sh' == SetCell(sh, e, Null) && pc' == InsertShared(op, e)
    case InsertShared(op, e) =>
      sh' == sh.(dirty := sh.dirty[KeyOf(op) := e]) && pc' == LockedEntry(op, e, false)
    case LockedEntry(op, e, inDirty) =>
      op.Store? && sh' == SetCell(sh, e, Ptr(op.box)) && pc' == Release(op, ThenDone(Unit))
    case LockedCas(op, e, inDirty) =>
      && At(sh, e) == Null
      && sh' == SetCell(sh, e, Written(op))
      && pc' == AfterLoadOrStore(op, inDirty, Got(None))
    case MissCount(op, th) =>
      && sh' == sh.(misses := sh.misses + 1)
      && pc' == if sh.misses + 1 >= |sh.dirty| then Take(op, th) else Release(op, th)
    case Take(op, th) =>
      sh' == sh.(taken := Some(sh.dirty), dirty := map[]) && pc' == PromotePublish(op, th)
    case PromotePublish(op, th) =>
      sh' == sh.(read := Snap(Pending(sh), false), taken := None) && pc' == MissReset(op, th)
    case MissReset(op, th) =>
      && sh' == sh.(misses := 0)
      && pc' == Release(op, if th.ThenReload? then ThenScan(sh.read.m) else th)
    case RebuildNext(op, rb) => rb.todo == {} && sh' == sh.(dirty := rb.acc) && pc' == Publish(op, rb.snap)
    case RebuildCas(op, rb, k) =>
      && k in rb.it && At(sh, rb.it[k]) == Null
      && sh' == SetCell(sh, rb.it[k], Expunged)
      && pc' == RebuildNext(op, Dropped(rb, k))
    case Publish(op, m) => sh' == sh.(read := Snap(m, true)) && pc' == Insert(op)
    case Insert(op) =>
      && sh' == AddEntry(sh, KeyOf(op), BoxOf(op))
      && pc' == Release(op, ThenDone(if op.Store? then Unit else Got(Some(BoxOf(op)))))
    case Release(op, th) => sh' == sh.(lock := None) && pc' == Resume(op, th)
    case _ => false
  }

  predicate Trans(sh: Shared, pc: Pc, sh': Shared, pc': Pc, t: Tid) {
    || (sh' == sh && LookStep(sh, pc, pc'))
    || FastStep(sh, pc, sh', pc', t)
    || HolderStep(sh, pc, sh', pc', t)
  }

  predicate Next(s: State, s': State, t: Tid) {
    && t in s.pcs && s'.pcs.Keys == s.pcs.Keys
    && (forall u | u in s.pcs :: u != t ==> s'.pcs[u] == s.pcs[u])
    && Trans(s.sh, s.pcs[t], s'.sh, s'.pcs[t], t)
  }

  const EMPTY := Shared(Snap(map[], false), map[], None, 0, None, [], [], [])

  predicate Init(s: State) {
    s.sh == EMPTY && forall t | t in s.pcs :: s.pcs[t] == Idle
  }

  /** A run: the states passed through and the thread that made each step. */
  datatype Run = Run(states: seq<State>, who: seq<Tid>)

  ghost predicate StepAt(b: Run, i: nat)
    requires |b.states| == |b.who| + 1 && i < |b.who|
  {
    Next(b.states[i], b.states[i + 1], b.who[i])
  }

  ghost predicate Valid(b: Run) {
    && |b.states| == |b.who| + 1
    && Init(b.states[0])
    && forall i | 0 <= i < |b.who| :: StepAt(b, i)
  }
}
