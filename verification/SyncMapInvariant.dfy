/**
 What holds between two atomic steps of the concurrent map: the shared invariant, the weaker form
 the lock holder leaves at each of its control points, what each thread may rely on, and what each
 step guarantees to the others.
 */
module SyncMapInvariant {
  import opened MapTypes
  import opened SyncMapModel

  // ----- Shared state ------------------------------------------------------------------------

  ghost predicate Owned(sh: Shared, m: map<Key, CellId>) {
    && |sh.meta| == |sh.cells|
    && forall k | k in m :: m[k] < |sh.cells| && sh.meta[m[k]] == Meta(k, None)
  }

  /** No two cells ever hold the same box. */
  ghost predicate UniqueBoxes(sh: Shared) {
    && (forall c | 0 <= c < |sh.cells| && sh.cells[c].Ptr? :: sh.cells[c].box < |sh.boxes|)
    && forall c, d | 0 <= c < d < |sh.cells| && sh.cells[c].Ptr? :: sh.cells[c] != sh.cells[d]
  }

  ghost predicate Wf(sh: Shared) {
    && Owned(sh, sh.read.m)
    && Owned(sh, Pending(sh))
    && (sh.taken.Some? ==> sh.dirty == map[])
    && (!sh.read.amended ==> Pending(sh).Keys <= sh.read.m.Keys)
    && UniqueBoxes(sh)
  }

  predicate InRead(sh: Shared, k: Key, e: CellId) {
    k in sh.read.m && sh.read.m[k] == e
  }

  /** `d` shares exactly the unexpunged cells of `read.m`; its other cells hold values. Key `x` is excused. */
  ghost predicate Coupled(sh: Shared, d: map<Key, CellId>, x: Option<Key>) {
    && (forall k | k in sh.read.m && Some(k) != x :: k in d <==> At(sh, sh.read.m[k]) != Expunged)
    && (forall k | k in sh.read.m && k in d :: d[k] == sh.read.m[k])
    && (forall k | k in d && k !in sh.read.m :: At(sh, d[k]).Ptr?)
  }

  ghost predicate Clean(sh: Shared) {
    forall k | k in sh.read.m :: At(sh, sh.read.m[k]) != Expunged
  }

  /** The invariant of every state in which no one is in the middle of a locked update. */
  ghost predicate Quiet(sh: Shared) {
    && sh.taken == None
    && if sh.read.amended then
         Coupled(sh, sh.dirty, None) && sh.misses < |sh.dirty|
       else
         Clean(sh) && sh.dirty == map[] && sh.misses == 0
  }

  ghost predicate Rebuilding(sh: Shared, rb: Rebuild) {
    && !sh.read.amended && sh.taken == None && sh.dirty == map[] && sh.misses == 0
    && rb.snap == rb.it == sh.read.m
    && rb.todo <= rb.it.Keys
    && (forall k | k in rb.acc :: k in rb.it && k !in rb.todo && rb.acc[k] == rb.it[k])
    && (forall k | k in rb.it :: k !in rb.acc ==> (k in rb.todo <==> At(sh, rb.it[k]) != Expunged))
    && (forall k | k in rb.acc :: At(sh, rb.acc[k]) != Expunged)
  }

  /** A key that the lock holder is about to insert as a fresh one. */
  ghost predicate Absent(sh: Shared, op: Op) {
    HasBox(op) && op.key !in sh.read.m && op.key !in sh.dirty
  }

  predicate Holds(pc: Pc) {
    match pc
    case Idle => false
    case ReadSnap(_) => false
    case AtEntry(_, _) => false
    case Cas(_, _, _) => false
    case WaitLock(_) => false
    case ScanNext(_, _, _, _) => false
    case Done(_, _) => false
    case _ => true
  }

  /** The invariant that the lock holder keeps at each of its control points. */
  ghost predicate LockInv(sh: Shared, pc: Pc) {
    match pc
    case Locked(_) => Quiet(sh)
    case DirtyLookup(op) => Quiet(sh) && sh.read.amended && Reads(op) && op.key !in sh.read.m
    case Unexpunge(op, e) => Quiet(sh) && HasBox(op) && InRead(sh, op.key, e)
    case InsertShared(op, e) =>
      && sh.read.amended && sh.taken == None && sh.misses < |sh.dirty|
      && HasBox(op) && InRead(sh, op.key, e) && op.key !in sh.dirty && At(sh, e) != Expunged
      && Coupled(sh, sh.dirty, Some(op.key))
    case LockedEntry(op, e, inDirty) =>
      && Quiet(sh) && HasBox(op) && At(sh, e) != Expunged
      && if inDirty then op.key !in sh.read.m && Get(sh.dirty, op.key) == Some(e) else InRead(sh, op.key, e)
    case LockedCas(op, e, inDirty) =>
      Quiet(sh) && op.LoadOrStore? && !inDirty && At(sh, e) != Expunged && InRead(sh, op.key, e)
    case MissCount(op, th) =>
      && (Reads(op) || (op.LoadOrStore? && th.ThenDone?)) && op.key !in sh.read.m
      && sh.read.amended && sh.taken == None && Coupled(sh, sh.dirty, None) && sh.misses <= |sh.dirty|
    case Take(_, _) => sh.read.amended && sh.taken == None && Coupled(sh, sh.dirty, None)
    case PromotePublish(_, _) => sh.read.amended && sh.taken.Some? && Coupled(sh, sh.taken.value, None)
    case MissReset(_, _) => !sh.read.amended && sh.taken == None && sh.dirty == map[] && Clean(sh)
    case RebuildStart(op, m) => Quiet(sh) && !sh.read.amended && m == sh.read.m && Absent(sh, op)
    case RebuildNext(op, rb) => Rebuilding(sh, rb) && Absent(sh, op)
    case RebuildLoad(op, rb, k) => Rebuilding(sh, rb) && Absent(sh, op) && k in rb.todo
    case RebuildCas(op, rb, k) => Rebuilding(sh, rb) && Absent(sh, op) && k in rb.todo
    case Publish(op, m) =>
      && !sh.read.amended && sh.taken == None && sh.misses == 0 && m == sh.read.m
      && sh.dirty.Keys <= sh.read.m.Keys && Coupled(sh, sh.dirty, None) && Absent(sh, op)
    case Insert(op) =>
      && sh.read.amended && sh.taken == None && sh.misses <= |sh.dirty|
      && Coupled(sh, sh.dirty, None) && Absent(sh, op)
    case Release(_, th) => Quiet(sh) && !th.ThenReload?
    case _ => true
  }

  // ----- Each thread -------------------------------------------------------------------------

  /** One change a thread made to the abstract map, at the key it works on. */
  datatype Effect = Effect(before: Option<Box>, after: Option<Box>)

  /** The abstract values seen so far, key by key. */
  type Seen = iset<(Key, Option<Box>)>

  ghost function Views(sh: Shared): Seen {
    iset k: Key :: (k, View(sh, k))
  }

  /** An allocated box that no cell holds yet. */
  ghost predicate Unpublished(sh: Shared, t: Tid, b: Box) {
    && b < |sh.boxes| && sh.boxes[b] == t
    && forall c | 0 <= c < |sh.cells| :: sh.cells[c] != Ptr(b)
  }

  ghost predicate Pristine(sh: Shared, t: Tid, op: Op, eff: seq<Effect>) {
    eff == [] && (HasBox(op) ==> Unpublished(sh, t, op.box))
  }

  ghost predicate CellOf(sh: Shared, k: Key, e: CellId) {
    e < |sh.cells| == |sh.meta| && sh.meta[e].key == k
  }

  /** A cell from a snapshot: unless expunged, it is still the published cell of its key. */
  ghost predicate FromSnapshot(sh: Shared, k: Key, e: CellId) {
    CellOf(sh, k, e) && (sh.cells[e] == Expunged || InRead(sh, k, e))
  }

  /** Reading the cell now gives a value its key had since the operation began. */
  ghost predicate Readable(sh: Shared, k: Key, e: CellId, seen: Seen) {
    && CellOf(sh, k, e)
    && (CellAt(sh, k) == Some(e) || ((k, Value(sh.cells[e])) in seen && (k, None) in seen))
  }

  /** A cell this thread removed from `dirty`: no one else can change it. */
  ghost predicate Frozen(sh: Shared, t: Tid, k: Key, e: CellId) {
    e < |sh.cells| == |sh.meta| && sh.meta[e] == Meta(k, Some(t)) && sh.cells[e].Ptr?
  }

  /** Holding an entry cell outside the lock. */
  ghost predicate EntryOk(sh: Shared, t: Tid, op: Op, e: CellId, seen: Seen, eff: seq<Effect>) {
    match op
    case Load(k) => Readable(sh, k, e, seen) && eff == []
    case Store(k, _) => FromSnapshot(sh, k, e) && Pristine(sh, t, op, eff)
    case LoadOrStore(k, _) => FromSnapshot(sh, k, e) && Pristine(sh, t, op, eff)
    case LoadAndDelete(k) =>
      || (FromSnapshot(sh, k, e) && Readable(sh, k, e, seen) && eff == [])
      || (Frozen(sh, t, k, e) && eff == [Effect(Some(sh.cells[e].box), None)])
    case Scan => false
  }

  /** The sequential specification: what the operation may answer, given what it saw and did. */
  ghost predicate ResultOk(op: Op, r: Result, seen: Seen, eff: seq<Effect>) {
    match op
    case Load(k) => r.Got? && (k, r.found) in seen && eff == []
    case Store(_, b) => r == Unit && |eff| == 1 && eff[0].after == Some(b)
    case LoadOrStore(k, b) =>
      && r.Got?
      && ((eff == [] && r.found.Some? && (k, r.found) in seen)
          || (eff == [Effect(None, Some(b))] && (r.found == None || r.found == Some(b))))
    case LoadAndDelete(k) =>
      && r.Got?
      && ((r.found == None && eff == [] && (k, None) in seen)
          || (r.found.Some? && eff == [Effect(r.found, None)]))
    case Scan => r.Listing? && eff == [] && forall k :: (k, Get(r.entries, k)) in seen
  }

  ghost predicate ScanOk(sh: Shared, m: map<Key, CellId>, todo: set<Key>, acc: map<Key, Box>, seen: Seen) {
    && (forall k | k in todo :: k in m && k !in acc && Readable(sh, k, m[k], seen))
    && (forall k | k !in todo :: (k, Get(acc, k)) in seen)
  }

  ghost predicate ThenOk(sh: Shared, t: Tid, op: Op, th: Then, seen: Seen, eff: seq<Effect>) {
    match th
    case ThenEntry(e) => EntryOk(sh, t, op, e, seen, eff)
    case ThenDone(r) => ResultOk(op, r, seen, eff)
    case ThenReload => op.Scan? && eff == []
    case ThenScan(m) => op.Scan? && eff == [] && ScanOk(sh, m, m.Keys, map[], seen)
  }

  ghost predicate LocalInv(sh: Shared, t: Tid, pc: Pc, seen: Seen, eff: seq<Effect>) {
    && (!pc.Idle? ==> Views(sh) <= seen)
    && match pc
       case Idle => true
       case AtEntry(op, e) => EntryOk(sh, t, op, e, seen, eff)
       case Cas(op, e, x) =>
         && EntryOk(sh, t, op, e, seen, eff) && !op.Load? && x != Expunged
         && (op.LoadOrStore? ==> x == Null) && (op.LoadAndDelete? ==> x.Ptr?)
       case MissCount(op, th) => ThenOk(sh, t, op, th, seen, eff)
       case Take(op, th) => ThenOk(sh, t, op, th, seen, eff)
       case PromotePublish(op, th) => ThenOk(sh, t, op, th, seen, eff)
       case MissReset(op, th) => ThenOk(sh, t, op, th, seen, eff)
       case Release(op, th) => ThenOk(sh, t, op, th, seen, eff)
       case ScanNext(op, m, todo, acc) => op.Scan? && eff == [] && ScanOk(sh, m, todo, acc, seen)
       case Done(op, r) => ResultOk(op, r, seen, eff)
       case _ => Pristine(sh, t, pc.op, eff)
  }

  // ----- What a step promises ----------------------------------------------------------------

  ghost predicate Current(sh: Shared, c: CellId) {
    c < |sh.meta| && CellAt(sh, sh.meta[c].key) == Some(c)
  }

  /** What every step of thread `t` guarantees to all other threads. */
  ghost predicate Guarantee(sh: Shared, sh': Shared, t: Tid) {
    && |sh.cells| == |sh.meta| <= |sh'.cells| == |sh'.meta|
    && sh.boxes <= sh'.boxes
       // Cells keep their key, and a removed cell its remover.
    && (forall c | 0 <= c < |sh.meta| ::
          sh'.meta[c] == sh.meta[c] || (sh.meta[c].remover == None && sh'.meta[c] == Meta(sh.meta[c].key, Some(t))))
       // Only current cells change, except that a remover may empty the cell it removed.
    && (forall c | 0 <= c < |sh.cells| ::
          || sh'.cells[c] == sh.cells[c]
          || (Current(sh, c) && Current(sh', c))
          || (sh.meta[c].remover == Some(t) && sh'.cells[c] == Null))
       // A thread writes only boxes of its own.
    && (forall c | 0 <= c < |sh'.cells| && sh'.cells[c].Ptr? ::
          || (c < |sh.cells| && sh.cells[c] == sh'.cells[c])
          || (sh'.cells[c].box < |sh'.boxes| && sh'.boxes[sh'.cells[c].box] == t))
       // A new cell is current at once.
    && (forall c | |sh.cells| <= c < |sh'.cells| :: Current(sh', c))
       // A published cell stays published until it is expunged, and only published cells come back.
    && (forall k | k in sh.read.m :: InRead(sh', k, sh.read.m[k]) || At(sh', sh.read.m[k]) == Expunged)
    && (forall c | 0 <= c < |sh.cells| && sh.cells[c] == Expunged ::
          sh'.cells[c] == Expunged || (InRead(sh, sh.meta[c].key, c) && InRead(sh', sh.meta[c].key, c)))
    && (forall k | k in sh'.read.m :: InRead(sh, k, sh'.read.m[k]) || At(sh, sh'.read.m[k]) != Expunged)
       // When a cell stops being current, it is untouched and its key is absent.
    && (forall k | CellAt(sh, k).Some? && CellAt(sh', k) != CellAt(sh, k) ::
          At(sh', CellAt(sh, k).value) == At(sh, CellAt(sh, k).value) && View(sh', k) == None)
  }

  /** What a step of a thread without the lock leaves alone. */
  ghost predicate OutsideLock(sh: Shared, sh': Shared) {
    && sh'.read == sh.read && sh'.dirty == sh.dirty && sh'.taken == sh.taken && sh'.misses == sh.misses
    && |sh'.cells| == |sh.cells|
    && (forall c :: At(sh', c) == Expunged <==> At(sh, c) == Expunged)
    && (forall k | k in Pending(sh) && k !in sh.read.m :: At(sh', Pending(sh)[k]) == At(sh, Pending(sh)[k]))
  }

  /** The abstract map changes at most at `k`. */
  ghost predicate OnlyAt(sh: Shared, sh': Shared, k: Key) {
    forall k2 | k2 != k :: View(sh', k2) == View(sh, k2)
  }

  /** The effects of a thread after it made this step. */
  ghost function Record(sh: Shared, sh': Shared, k: Key, eff: seq<Effect>): seq<Effect> {
    if View(sh', k) == View(sh, k) then eff else eff + [Effect(View(sh, k), View(sh', k))]
  }

  // ----- Stability ---------------------------------------------------------------------------

  lemma GuaranteeRefl(sh: Shared, t: Tid)
    requires Wf(sh)
    ensures Guarantee(sh, sh, t) && OutsideLock(sh, sh) && OnlyAt(sh, sh, "")
  {
  }

  /** The lock holder's invariant survives the steps of the others. */
  lemma LockInvStable(sh: Shared, sh': Shared, pc: Pc)
    requires LockInv(sh, pc) && OutsideLock(sh, sh')
    ensures LockInv(sh', pc)
  {
  }

  lemma QuietStable(sh: Shared, sh': Shared)
    requires Quiet(sh) && OutsideLock(sh, sh')
    ensures Quiet(sh')
  {
  }

  lemma UnpublishedStable(sh: Shared, sh': Shared, t: Tid, u: Tid, b: Box)
    requires Guarantee(sh, sh', t) && t != u && Unpublished(sh, u, b)
    ensures Unpublished(sh', u, b)
  {
  }

  lemma FromSnapshotStable(sh: Shared, sh': Shared, t: Tid, k: Key, e: CellId)
    requires Guarantee(sh, sh', t) && FromSnapshot(sh, k, e)
    ensures FromSnapshot(sh', k, e)
  {
    assert sh'.meta[e].key == sh.meta[e].key;
  }

  /** Hindsight: a cell that stops being current still answers with a value its key had meanwhile. */
  lemma ReadableStable(sh: Shared, sh': Shared, t: Tid, k: Key, e: CellId, seen: Seen)
    requires Guarantee(sh, sh', t) && Readable(sh, k, e, seen) && Views(sh) <= seen
    ensures Readable(sh', k, e, seen + Views(sh'))
  {
    assert (k, View(sh, k)) in Views(sh) && (k, View(sh', k)) in Views(sh');
    assert sh'.meta[e].key == sh.meta[e].key;
    if CellAt(sh', k) != Some(e) && CellAt(sh, k) == Some(e) {
      assert sh'.cells[e] == sh.cells[e];
    }
  }

  lemma FrozenStable(sh: Shared, sh': Shared, t: Tid, u: Tid, k: Key, e: CellId)
    requires Wf(sh) && Guarantee(sh, sh', t) && t != u && Frozen(sh, u, k, e)
    ensures Frozen(sh', u, k, e) && sh'.cells[e] == sh.cells[e]
  {
    assert !Current(sh, e);
  }

  lemma EntryOkStable(sh: Shared, sh': Shared, t: Tid, u: Tid, op: Op, e: CellId, seen: Seen, eff: seq<Effect>)
    requires Wf(sh) && Guarantee(sh, sh', t) && t != u && Views(sh) <= seen && EntryOk(sh, u, op, e, seen, eff)
    ensures EntryOk(sh', u, op, e, seen + Views(sh'), eff)
  {
    match op
    case Load(k) => ReadableStable(sh, sh', t, k, e, seen);
    case Store(k, b) => FromSnapshotStable(sh, sh', t, k, e); UnpublishedStable(sh, sh', t, u, b);
    case LoadOrStore(k, b) => FromSnapshotStable(sh, sh', t, k, e); UnpublishedStable(sh, sh', t, u, b);
    case LoadAndDelete(k) =>
      if Frozen(sh, u, k, e) && eff == [Effect(Some(sh.cells[e].box), None)] {
        FrozenStable(sh, sh', t, u, k, e);
      } else {
        FromSnapshotStable(sh, sh', t, k, e);
        ReadableStable(sh, sh', t, k, e, seen);
      }
    case Scan =>
  }

  lemma ScanOkStable(sh: Shared, sh': Shared, t: Tid, m: map<Key, CellId>, todo: set<Key>, acc: map<Key, Box>,
                     seen: Seen)
    requires Guarantee(sh, sh', t) && Views(sh) <= seen && ScanOk(sh, m, todo, acc, seen)
    ensures ScanOk(sh', m, todo, acc, seen + Views(sh'))
  {
    forall k | k in todo ensures Readable(sh', k, m[k], seen + Views(sh')) {
      ReadableStable(sh, sh', t, k, m[k], seen);
    }
  }

  lemma ResultOkStable(op: Op, r: Result, seen: Seen, more: Seen, eff: seq<Effect>)
    requires ResultOk(op, r, seen, eff)
    ensures ResultOk(op, r, seen + more, eff)
  {
  }

  lemma ThenOkStable(sh: Shared, sh': Shared, t: Tid, u: Tid, op: Op, th: Then, seen: Seen, eff: seq<Effect>)
    requires Wf(sh) && Guarantee(sh, sh', t) && t != u && Views(sh) <= seen && ThenOk(sh, u, op, th, seen, eff)
    ensures ThenOk(sh', u, op, th, seen + Views(sh'), eff)
  {
    match th
    case ThenEntry(e) => EntryOkStable(sh, sh', t, u, op, e, seen, eff);
    case ThenDone(r) => ResultOkStable(op, r, seen, Views(sh'), eff);
    case ThenReload =>
    case ThenScan(m) => ScanOkStable(sh, sh', t, m, m.Keys, map[], seen);
  }

  /** What a thread relies on survives the steps of the others. */
  lemma LocalInvStable(sh: Shared, sh': Shared, t: Tid, u: Tid, pc: Pc, seen: Seen, eff: seq<Effect>)
    requires Wf(sh) && Guarantee(sh, sh', t) && t != u && LocalInv(sh, u, pc, seen, eff)
    ensures LocalInv(sh', u, pc, seen + Views(sh'), eff)
  {
    match pc
    case Idle =>
    case AtEntry(op, e) => EntryOkStable(sh, sh', t, u, op, e, seen, eff);
    case Cas(op, e, x) => EntryOkStable(sh, sh', t, u, op, e, seen, eff);
    case MissCount(op, th) => ThenOkStable(sh, sh', t, u, op, th, seen, eff);
    case Take(op, th) => ThenOkStable(sh, sh', t, u, op, th, seen, eff);
    case PromotePublish(op, th) => ThenOkStable(sh, sh', t, u, op, th, seen, eff);
    case MissReset(op, th) => ThenOkStable(sh, sh', t, u, op, th, seen, eff);
    case Release(op, th) => ThenOkStable(sh, sh', t, u, op, th, seen, eff);
    case ScanNext(op, m, todo, acc) => ScanOkStable(sh, sh', t, m, todo, acc, seen);
    case Done(op, r) => ResultOkStable(op, r, seen, Views(sh'), eff);
    case _ => if HasBox(pc.op) { UnpublishedStable(sh, sh', t, u, pc.op.box); }
  }
}
