/** Every atomic step of the concurrent map keeps the invariant and its promise to the other threads. */
module SyncMapSteps {
  import opened MapTypes
  import opened SyncMapModel
  import opened SyncMapInvariant

  function OpOf(pc: Pc, pc': Pc): Op {
    if !pc.Idle? then pc.op else if !pc'.Idle? then pc'.op else Scan
  }

  /** What a thread is entitled to assume when it makes a step. */
  ghost predicate Before(sh: Shared, pc: Pc, t: Tid, seen: Seen, eff: seq<Effect>) {
    && Wf(sh)
    && LocalInv(sh, t, pc, seen, eff)
    && (pc.Idle? ==> seen == iset{} && eff == [])
    && (Holds(pc) ==> LockInv(sh, pc))
  }

  /** What it leaves behind for the others ... */
  ghost predicate AfterShared(sh: Shared, sh': Shared, k: Key, t: Tid) {
    Wf(sh') && Guarantee(sh, sh', t) && OnlyAt(sh, sh', k)
  }

  /** ... and for itself. */
  ghost predicate AfterPrivate(sh: Shared, sh': Shared, k: Key, pc': Pc, t: Tid, seen: Seen, eff: seq<Effect>) {
    && (Holds(pc') ==> LockInv(sh', pc'))
    && LocalInv(sh', t, pc', seen + Views(sh'), Record(sh, sh', k, eff))
  }

  ghost predicate After(sh: Shared, pc: Pc, sh': Shared, pc': Pc, t: Tid, seen: Seen, eff: seq<Effect>) {
    var k := KeyOf(OpOf(pc, pc'));
    && AfterShared(sh, sh', k, t)
    && AfterPrivate(sh, sh', k, pc', t, seen, eff)
    && (pc.Release? ==> Quiet(sh'))
    && (!Holds(pc) && !pc.WaitLock? ==> OutsideLock(sh, sh'))
  }

  // ----- Steps that only look ----------------------------------------------------------------

  lemma LookSnap(sh: Shared, op: Op, t: Tid, seen: Seen, eff: seq<Effect>)
    requires Before(sh, ReadSnap(op), t, seen, eff)
    ensures LocalInv(sh, t, AfterSnap(sh.read, op), seen, eff)
  {
    if !sh.read.amended {
      forall k | k !in sh.read.m ensures (k, None) in seen {
        assert (k, View(sh, k)) in Views(sh);
      }
    }
  }

  lemma LookEntry(sh: Shared, op: Op, e: CellId, t: Tid, seen: Seen, eff: seq<Effect>)
    requires Before(sh, AtEntry(op, e), t, seen, eff)
    ensures LocalInv(sh, t, AfterEntry(op, e, At(sh, e)), seen, eff)
  {
    assert (KeyOf(op), View(sh, KeyOf(op))) in Views(sh);
  }

  lemma LookOutside(sh: Shared, pc: Pc, pc': Pc, t: Tid, seen: Seen, eff: seq<Effect>)
    requires Before(sh, pc, t, seen, eff) && LookStep(sh, pc, pc') && !Holds(pc) && !pc.ScanNext?
    ensures !Holds(pc') && LocalInv(sh, t, pc', seen, eff)
  {
    match pc
    case ReadSnap(op) => LookSnap(sh, op, t, seen, eff);
    case AtEntry(op, e) => LookEntry(sh, op, e, t, seen, eff);
    case _ =>
  }

  lemma LookScan(sh: Shared, pc: Pc, pc': Pc, t: Tid, seen: Seen, eff: seq<Effect>)
    requires Before(sh, pc, t, seen, eff) && LookStep(sh, pc, pc') && pc.ScanNext?
    ensures !Holds(pc') && LocalInv(sh, t, pc', seen, eff)
  {
    if pc.todo != {} {
      var k :| k in pc.todo && k in pc.m
        && pc'.todo == pc.todo - {k}
        && pc'.acc == (if At(sh, pc.m[k]).Ptr? then pc.acc[k := At(sh, pc.m[k]).box] else pc.acc);
      assert (k, View(sh, k)) in Views(sh);
      assert Get(pc'.acc, k) == Value(At(sh, pc.m[k]));
      forall k2 | k2 !in pc'.todo ensures (k2, Get(pc'.acc, k2)) in seen {
        if k2 != k { assert Get(pc'.acc, k2) == Get(pc.acc, k2); }
      }
    }
  }

  lemma LookLockedScan(sh: Shared, op: Op, t: Tid, seen: Seen, eff: seq<Effect>)
    requires Before(sh, Locked(op), t, seen, eff) && op.Scan?
    ensures var pc' := AfterLocked(sh, op);
            Holds(pc') && LockInv(sh, pc') && LocalInv(sh, t, pc', seen, eff)
  {
    if !sh.read.amended {
      forall k | k !in sh.read.m ensures (k, None) in seen {
        assert (k, View(sh, k)) in Views(sh);
      }
    }
  }

  lemma LookLockedReader(sh: Shared, op: Op, t: Tid, seen: Seen, eff: seq<Effect>)
    requires Before(sh, Locked(op), t, seen, eff) && Reads(op)
    ensures var pc' := AfterLocked(sh, op);
            Holds(pc') && LockInv(sh, pc') && LocalInv(sh, t, pc', seen, eff)
  {
    assert (op.key, View(sh, op.key)) in Views(sh);
  }

  lemma LookLockedWriter(sh: Shared, op: Op, t: Tid, seen: Seen, eff: seq<Effect>)
    requires Before(sh, Locked(op), t, seen, eff) && HasBox(op)
    ensures var pc' := AfterLocked(sh, op);
            Holds(pc') && LockInv(sh, pc') && LocalInv(sh, t, pc', seen, eff)
  {
  }

  lemma LookLocked(sh: Shared, op: Op, t: Tid, seen: Seen, eff: seq<Effect>)
    requires Before(sh, Locked(op), t, seen, eff)
    ensures var pc' := AfterLocked(sh, op);
            Holds(pc') && LockInv(sh, pc') && LocalInv(sh, t, pc', seen, eff)
  {
    if op.Scan? { LookLockedScan(sh, op, t, seen, eff); }
    else if Reads(op) { LookLockedReader(sh, op, t, seen, eff); }
    else { LookLockedWriter(sh, op, t, seen, eff); }
  }

  lemma LookDirty(sh: Shared, op: Op, pc': Pc, t: Tid, seen: Seen, eff: seq<Effect>)
    requires Before(sh, DirtyLookup(op), t, seen, eff) && LookStep(sh, DirtyLookup(op), pc')
    ensures pc'.MissCount? && LockInv(sh, pc') && LocalInv(sh, t, pc', seen, eff)
  {
    assert (op.key, View(sh, op.key)) in Views(sh);
  }

  lemma LookLockedEntry(sh: Shared, op: Op, e: CellId, inDirty: bool, pc': Pc, t: Tid, seen: Seen, eff: seq<Effect>)
    requires Before(sh, LockedEntry(op, e, inDirty), t, seen, eff)
    requires LookStep(sh, LockedEntry(op, e, inDirty), pc')
    ensures Holds(pc') && LockInv(sh, pc') && LocalInv(sh, t, pc', seen, eff)
  {
    assert (op.key, View(sh, op.key)) in Views(sh);
  }

  lemma LookRebuild(sh: Shared, pc: Pc, pc': Pc, t: Tid, seen: Seen, eff: seq<Effect>)
    requires Before(sh, pc, t, seen, eff) && LookStep(sh, pc, pc')
    requires pc.RebuildStart? || pc.RebuildNext? || pc.RebuildLoad? || pc.RebuildCas?
    ensures Holds(pc') && LockInv(sh, pc') && LocalInv(sh, t, pc', seen, eff)
  {
  }

  lemma LookFailed(sh: Shared, pc: Pc, pc': Pc, t: Tid, seen: Seen, eff: seq<Effect>)
    requires Before(sh, pc, t, seen, eff) && LookStep(sh, pc, pc') && (pc.Unexpunge? || pc.LockedCas?)
    ensures Holds(pc') && LockInv(sh, pc') && LocalInv(sh, t, pc', seen, eff)
  {
  }

  predicate InRebuild(pc: Pc) { pc.RebuildStart? || pc.RebuildNext? || pc.RebuildLoad? || pc.RebuildCas? }

  lemma LookHolder(sh: Shared, pc: Pc, pc': Pc, t: Tid, seen: Seen, eff: seq<Effect>)
    requires Before(sh, pc, t, seen, eff) && LookStep(sh, pc, pc') && Holds(pc) && !InRebuild(pc)
    ensures Holds(pc') && LockInv(sh, pc') && LocalInv(sh, t, pc', seen, eff)
  {
    match pc
    case Locked(op) => LookLocked(sh, op, t, seen, eff);
    case DirtyLookup(op) => LookDirty(sh, op, pc', t, seen, eff);
    case LockedEntry(op, e, inDirty) => LookLockedEntry(sh, op, e, inDirty, pc', t, seen, eff);
    case Unexpunge(_, _) => LookFailed(sh, pc, pc', t, seen, eff);
    case LockedCas(_, _, _) => LookFailed(sh, pc, pc', t, seen, eff);
    case _ =>
  }

  lemma LookStepOk(sh: Shared, pc: Pc, pc': Pc, t: Tid, seen: Seen, eff: seq<Effect>)
    requires Before(sh, pc, t, seen, eff) && LookStep(sh, pc, pc')
    ensures After(sh, pc, sh, pc', t, seen, eff)
  {
    GuaranteeRefl(sh, t);
    assert Views(sh) <= seen;
    assert seen + Views(sh) == seen;
    if InRebuild(pc) { LookRebuild(sh, pc, pc', t, seen, eff); }
    else if Holds(pc) { LookHolder(sh, pc, pc', t, seen, eff); }
    else if pc.ScanNext? { LookScan(sh, pc, pc', t, seen, eff); }
    else { LookOutside(sh, pc, pc', t, seen, eff); }
  }

  // ----- Writing one cell --------------------------------------------------------------------

  /** A write that some step makes to a cell: to a current one, or by its remover to a removed one. */
  ghost predicate Writable(sh: Shared, e: CellId, p: Content, t: Tid) {
    && Wf(sh) && e < |sh.cells|
    && (Current(sh, e) || (sh.meta[e].remover == Some(t) && p == Null))
    && (sh.cells[e] == Expunged || p == Expunged ==> InRead(sh, sh.meta[e].key, e))
    && (p.Ptr? ==> Unpublished(sh, t, p.box))
  }

  lemma SetCellWf(sh: Shared, e: CellId, p: Content, t: Tid)
    requires Writable(sh, e, p, t)
    ensures Wf(SetCell(sh, e, p))
  {
    var sh' := SetCell(sh, e, p);
    assert forall c | 0 <= c < |sh.cells| && c != e :: sh'.cells[c] == sh.cells[c];
  }

  lemma SetCellViews(sh: Shared, e: CellId, p: Content, t: Tid)
    requires Writable(sh, e, p, t)
    ensures forall k :: CellAt(SetCell(sh, e, p), k) == CellAt(sh, k)
    ensures OnlyAt(sh, SetCell(sh, e, p), sh.meta[e].key)
    ensures View(SetCell(sh, e, p), sh.meta[e].key)
            == if Current(sh, e) then Value(p) else View(sh, sh.meta[e].key)
  {
    var sh' := SetCell(sh, e, p);
    forall k | k != sh.meta[e].key ensures View(sh', k) == View(sh, k) {
      if CellAt(sh, k).Some? { assert sh.meta[CellAt(sh, k).value].key == k; }
    }
  }

  lemma SetCellPromise(sh: Shared, e: CellId, p: Content, t: Tid, sh': Shared)
    requires Writable(sh, e, p, t) && sh' == SetCell(sh, e, p)
    requires forall k :: CellAt(sh', k) == CellAt(sh, k)
    ensures Guarantee(sh, sh', t)
  {
    assert forall c | 0 <= c < |sh.cells| && c != e :: sh'.cells[c] == sh.cells[c];
  }

  lemma SetCellGuarantee(sh: Shared, e: CellId, p: Content, t: Tid)
    requires Writable(sh, e, p, t)
    ensures AfterShared(sh, SetCell(sh, e, p), sh.meta[e].key, t)
    ensures View(SetCell(sh, e, p), sh.meta[e].key)
            == if Current(sh, e) then Value(p) else View(sh, sh.meta[e].key)
  {
    SetCellWf(sh, e, p, t);
    SetCellViews(sh, e, p, t);
    SetCellPromise(sh, e, p, t, SetCell(sh, e, p));
  }

  /** Cells swapped for a non-expunged content keep every coupling of the two maps. */
  lemma SetCellOutside(sh: Shared, e: CellId, p: Content, t: Tid)
    requires Writable(sh, e, p, t) && sh.cells[e] != Expunged && p != Expunged
    requires InRead(sh, sh.meta[e].key, e) || sh.meta[e].remover.Some?
    ensures OutsideLock(sh, SetCell(sh, e, p))
  {
  }

  lemma InvokeOk(sh: Shared, sh': Shared, pc': Pc, t: Tid)
    requires Before(sh, Idle, t, iset{}, []) && FastStep(sh, Idle, sh', pc', t)
    ensures After(sh, Idle, sh', pc', t, iset{}, [])
  {
    assert forall k :: CellAt(sh', k) == CellAt(sh, k);
    assert forall k :: View(sh', k) == View(sh, k);
  }

  /** What the compare-exchange of an operation outside the lock may touch. */
  lemma CasWritable(sh: Shared, op: Op, e: CellId, x: Content, t: Tid, seen: Seen, eff: seq<Effect>)
    requires Before(sh, Cas(op, e, x), t, seen, eff) && At(sh, e) == x
    ensures Writable(sh, e, Written(op), t) && sh.cells[e] == x && sh.meta[e].key == op.key && x != Expunged
    ensures InRead(sh, op.key, e) || sh.meta[e].remover.Some?
  {
  }

  lemma CasOk(sh: Shared, op: Op, e: CellId, x: Content, sh': Shared, pc': Pc, t: Tid, seen: Seen, eff: seq<Effect>)
    requires Before(sh, Cas(op, e, x), t, seen, eff) && FastStep(sh, Cas(op, e, x), sh', pc', t)
    ensures After(sh, Cas(op, e, x), sh', pc', t, seen, eff)
  {
    CasWritable(sh, op, e, x, t, seen, eff);
    SetCellGuarantee(sh, e, Written(op), t);
    SetCellOutside(sh, e, Written(op), t);
    assert (op.key, View(sh, op.key)) in Views(sh);
    if Current(sh, e) {
      assert View(sh, op.key) == Value(x);
      assert !Frozen(sh, t, op.key, e);
    }
  }

  // ----- The lock holder's steps -------------------------------------------------------------

  /** A pending answer survives the holder's own moves of the maps. */
  lemma ThenOkKept(sh: Shared, sh': Shared, t: Tid, op: Op, th: Then, seen: Seen, eff: seq<Effect>)
    requires Guarantee(sh, sh', t) && sh'.cells == sh.cells && sh'.meta == sh.meta && sh'.boxes == sh.boxes
    requires Views(sh) <= seen && ThenOk(sh, t, op, th, seen, eff)
    ensures ThenOk(sh', t, op, th, seen + Views(sh'), eff)
  {
    match th
    case ThenEntry(e) =>
      if HasBox(op) {
        FromSnapshotStable(sh, sh', t, op.key, e);
      } else if op.Load? {
        ReadableStable(sh, sh', t, op.key, e, seen);
      } else if !Frozen(sh, t, KeyOf(op), e) {
        FromSnapshotStable(sh, sh', t, op.key, e);
        ReadableStable(sh, sh', t, op.key, e, seen);
      }
    case ThenDone(r) => ResultOkStable(op, r, seen, Views(sh'), eff);
    case ThenReload =>
    case ThenScan(m) => ScanOkStable(sh, sh', t, m, m.Keys, map[], seen);
  }

  lemma RemoveViews(sh: Shared, k: Key, t: Tid, sh': Shared)
    requires Wf(sh) && sh.taken == None && k in sh.dirty && k !in sh.read.m && sh' == RemoveEntry(sh, k, t)
    ensures CellAt(sh', k) == None && forall k2 | k2 != k :: CellAt(sh', k2) == CellAt(sh, k2)
    ensures Wf(sh')
  {
    assert sh.meta[sh.dirty[k]] == Meta(k, None);
  }

  lemma RemoveGuarantee(sh: Shared, k: Key, t: Tid)
    requires Wf(sh) && sh.taken == None && k in sh.dirty && k !in sh.read.m
    ensures var sh' := RemoveEntry(sh, k, t);
            Wf(sh') && Guarantee(sh, sh', t) && OnlyAt(sh, sh', k) && View(sh', k) == None
  {
    var sh' := RemoveEntry(sh, k, t);
    RemoveViews(sh, k, t, sh');
    assert sh.meta[sh.dirty[k]] == Meta(k, None);
  }

  lemma RemoveCoupled(sh: Shared, k: Key, t: Tid)
    requires Wf(sh) && sh.taken == None && k in sh.dirty && k !in sh.read.m && Coupled(sh, sh.dirty, None)
    ensures var sh' := RemoveEntry(sh, k, t);
            Coupled(sh', sh'.dirty, None) && |sh'.dirty| == |sh.dirty| - 1
  {
    var sh' := RemoveEntry(sh, k, t);
    assert sh'.dirty.Keys == sh.dirty.Keys - {k};
  }

  lemma RemovePrivate(sh: Shared, op: Op, t: Tid, seen: Seen, eff: seq<Effect>)
    requires Wf(sh) && LockInv(sh, DirtyLookup(op)) && Pristine(sh, t, op, eff)
    requires op.LoadAndDelete? && op.key in sh.dirty
    ensures var sh' := RemoveEntry(sh, op.key, t);
            LocalInv(sh', t, MissCount(op, ThenEntry(sh.dirty[op.key])), seen + Views(sh'),
                     Record(sh, sh', op.key, eff))
  {
    assert sh.meta[sh.dirty[op.key]] == Meta(op.key, None);
    assert View(RemoveEntry(sh, op.key, t), op.key) == None;
  }

  lemma InsertSharedGuarantee(sh: Shared, k: Key, e: CellId, t: Tid)
    requires Wf(sh) && sh.taken == None && InRead(sh, k, e) && k !in sh.dirty && sh.read.amended
    ensures var sh' := sh.(dirty := sh.dirty[k := e]);
            AfterShared(sh, sh', "", t) && View(sh', "") == View(sh, "")
  {
    var sh' := sh.(dirty := sh.dirty[k := e]);
    assert forall k2 :: CellAt(sh', k2) == CellAt(sh, k2);
  }

  lemma InsertSharedCoupled(sh: Shared, sh': Shared, k: Key, e: CellId)
    requires sh' == sh.(dirty := sh.dirty[k := e])
    requires InRead(sh, k, e) && At(sh, e) != Expunged && Coupled(sh, sh.dirty, Some(k))
    ensures Coupled(sh', sh'.dirty, None)
  {
    assert forall c: CellId :: At(sh', c) == At(sh, c);
  }

  lemma InsertSharedPrivate(sh: Shared, sh': Shared, op: Op, e: CellId)
    requires LockInv(sh, InsertShared(op, e)) && sh' == sh.(dirty := sh.dirty[op.key := e])
    ensures LockInv(sh', LockedEntry(op, e, false))
  {
    InsertSharedCoupled(sh, sh', op.key, e);
    assert sh'.dirty.Keys == sh.dirty.Keys + {op.key};
  }

  /** Filling or overwriting a live cell under the lock leaves the maps coupled. */
  lemma SetCellQuiet(sh: Shared, e: CellId, p: Content)
    requires Wf(sh) && Quiet(sh) && At(sh, e) != Expunged && p.Ptr?
    ensures Quiet(SetCell(sh, e, p))
  {
  }

  lemma UnexpungeCoupled(sh: Shared, sh': Shared, k: Key, e: CellId)
    requires Owned(sh, sh.read.m) && Owned(sh, sh.dirty) && Coupled(sh, sh.dirty, None)
    requires InRead(sh, k, e) && At(sh, e) == Expunged && sh' == SetCell(sh, e, Null)
    ensures Coupled(sh', sh'.dirty, Some(k)) && k !in sh.dirty && At(sh', e) == Null
  {
    assert sh.meta[e].key == k;
    assert forall c: CellId | c != e :: At(sh', c) == At(sh, c);
  }

  lemma UnexpungePrivate(sh: Shared, sh': Shared, op: Op, e: CellId)
    requires Wf(sh) && LockInv(sh, Unexpunge(op, e)) && At(sh, e) == Expunged && sh' == SetCell(sh, e, Null)
    ensures LockInv(sh', InsertShared(op, e))
  {
    UnexpungeCoupled(sh, sh', op.key, e);
  }

  /** The key of an expunged cell is absent before and after. */
  lemma UnexpungeShared(sh: Shared, sh': Shared, k: Key, e: CellId, t: Tid)
    requires Wf(sh) && InRead(sh, k, e) && At(sh, e) == Expunged && sh' == SetCell(sh, e, Null)
    ensures AfterShared(sh, sh', k, t) && View(sh', k) == View(sh, k)
    ensures |sh'.cells| == |sh.cells| && sh'.boxes == sh.boxes
  {
    SetCellGuarantee(sh, e, Null, t);
  }

  lemma PristineKept(sh: Shared, sh': Shared, e: CellId, p: Content, t: Tid, op: Op, eff: seq<Effect>)
    requires sh' == SetCell(sh, e, p) && !p.Ptr? && Pristine(sh, t, op, eff)
    ensures Pristine(sh', t, op, eff)
  {
  }

  lemma MissesGuarantee(sh: Shared, misses: nat, t: Tid)
    requires Wf(sh)
    ensures var sh' := sh.(misses := misses);
            AfterShared(sh, sh', "", t) && View(sh', "") == View(sh, "")
  {
    assert forall k :: CellAt(sh.(misses := misses), k) == CellAt(sh, k);
  }

  lemma TakeGuarantee(sh: Shared, t: Tid)
    requires Wf(sh) && sh.taken == None
    ensures var sh' := sh.(taken := Some(sh.dirty), dirty := map[]);
            AfterShared(sh, sh', "", t) && View(sh', "") == View(sh, "")
  {
    assert forall k :: CellAt(sh.(taken := Some(sh.dirty), dirty := map[]), k) == CellAt(sh, k);
  }

  lemma PromoteViews(sh: Shared, sh': Shared)
    requires Wf(sh) && sh.taken.Some? && Coupled(sh, sh.taken.value, None)
    requires sh' == sh.(read := Snap(sh.taken.value, false), taken := None)
    ensures forall k :: View(sh', k) == View(sh, k)
    ensures forall k :: CellAt(sh', k) == CellAt(sh, k) || View(sh', k) == None
  {
    forall k ensures View(sh', k) == View(sh, k) && (CellAt(sh', k) == CellAt(sh, k) || View(sh', k) == None) {
    }
  }

  lemma PromotePromise(sh: Shared, t: Tid, sh': Shared)
    requires Wf(sh) && sh.taken.Some? && Coupled(sh, sh.taken.value, None)
    requires sh' == sh.(read := Snap(sh.taken.value, false), taken := None)
    requires forall k :: CellAt(sh', k) == CellAt(sh, k) || View(sh', k) == None
    ensures Guarantee(sh, sh', t)
  {
  }

  /** Promotion keeps the meaning: what it drops is expunged, what it keeps are the same cells. */
  lemma PromoteGuarantee(sh: Shared, t: Tid)
    requires Wf(sh) && sh.taken.Some? && Coupled(sh, sh.taken.value, None)
    ensures var sh' := sh.(read := Snap(sh.taken.value, false), taken := None);
            AfterShared(sh, sh', "", t) && View(sh', "") == View(sh, "") && Clean(sh')
  {
    var sh' := sh.(read := Snap(sh.taken.value, false), taken := None);
    PromoteViews(sh, sh');
    PromotePromise(sh, t, sh');
  }

  lemma BuiltGuarantee(sh: Shared, acc: map<Key, CellId>, t: Tid)
    requires Wf(sh) && sh.taken == None && sh.dirty == map[]
    requires forall k | k in acc :: k in sh.read.m && acc[k] == sh.read.m[k]
    ensures var sh' := sh.(dirty := acc);
            AfterShared(sh, sh', "", t) && View(sh', "") == View(sh, "")
  {
    assert forall k :: CellAt(sh.(dirty := acc), k) == CellAt(sh, k);
  }

  lemma PublishGuarantee(sh: Shared, t: Tid)
    requires Wf(sh)
    ensures var sh' := sh.(read := Snap(sh.read.m, true));
            AfterShared(sh, sh', "", t) && View(sh', "") == View(sh, "")
  {
    assert forall k :: CellAt(sh.(read := Snap(sh.read.m, true)), k) == CellAt(sh, k);
  }

  lemma AddViews(sh: Shared, k: Key, b: Box)
    requires Wf(sh) && sh.taken == None && k !in sh.read.m && k !in sh.dirty
    ensures View(sh, k) == None && View(AddEntry(sh, k, b), k) == Some(b)
    ensures OnlyAt(sh, AddEntry(sh, k, b), k)
  {
    var sh' := AddEntry(sh, k, b);
    assert forall k2 | k2 != k :: CellAt(sh', k2) == CellAt(sh, k2);
    assert forall k2 | k2 != k :: View(sh', k2) == View(sh, k2);
  }

  lemma AddWf(sh: Shared, k: Key, b: Box, t: Tid, sh': Shared)
    requires Wf(sh) && sh.taken == None && sh.read.amended && k !in sh.read.m && k !in sh.dirty && Unpublished(sh, t, b)
    requires sh' == AddEntry(sh, k, b)
    ensures Wf(sh')
  {
    assert forall c | 0 <= c < |sh.cells| :: sh'.cells[c] == sh.cells[c];
  }

  lemma AddCells(sh: Shared, k: Key, b: Box, sh': Shared)
    requires sh.taken == None && k !in sh.read.m && k !in sh.dirty && sh' == AddEntry(sh, k, b)
    ensures CellAt(sh, k) == None && CellAt(sh', k) == Some(|sh.cells|)
    ensures forall k2 | k2 != k :: CellAt(sh', k2) == CellAt(sh, k2)
    ensures forall c | 0 <= c < |sh.cells| :: sh'.cells[c] == sh.cells[c]
  {
  }

  lemma AddPromise(sh: Shared, k: Key, b: Box, t: Tid, sh': Shared)
    requires Wf(sh) && Unpublished(sh, t, b) && sh' == AddEntry(sh, k, b)
    requires CellAt(sh, k) == None && CellAt(sh', k) == Some(|sh.cells|)
    requires forall k2 | k2 != k :: CellAt(sh', k2) == CellAt(sh, k2)
    requires forall c | 0 <= c < |sh.cells| :: sh'.cells[c] == sh.cells[c]
    ensures Guarantee(sh, sh', t)
  {
    assert forall c | 0 <= c < |sh.meta| :: sh'.meta[c] == sh.meta[c];
  }

  lemma AddGuarantee(sh: Shared, k: Key, b: Box, t: Tid)
    requires Wf(sh) && sh.taken == None && sh.read.amended && k !in sh.read.m && k !in sh.dirty && Unpublished(sh, t, b)
    ensures var sh' := AddEntry(sh, k, b);
            AfterShared(sh, sh', k, t) && View(sh, k) == None && View(sh', k) == Some(b)
  {
    AddViews(sh, k, b);
    AddWf(sh, k, b, t, AddEntry(sh, k, b));
    AddCells(sh, k, b, AddEntry(sh, k, b));
    AddPromise(sh, k, b, t, AddEntry(sh, k, b));
  }

  lemma AddCoupled(sh: Shared, k: Key, b: Box)
    requires Wf(sh) && sh.taken == None && Coupled(sh, sh.dirty, None) && k !in sh.read.m && k !in sh.dirty
    ensures Coupled(AddEntry(sh, k, b), AddEntry(sh, k, b).dirty, None)
  {
    var sh' := AddEntry(sh, k, b);
    assert forall c: CellId | c < |sh.cells| :: At(sh', c) == At(sh, c);
  }

  lemma AddQuiet(sh: Shared, op: Op)
    requires Wf(sh) && LockInv(sh, Insert(op))
    ensures Quiet(AddEntry(sh, op.key, op.box))
  {
    AddCoupled(sh, op.key, op.box);
    assert AddEntry(sh, op.key, op.box).dirty.Keys == sh.dirty.Keys + {op.key};
  }

  lemma LockGuarantee(sh: Shared, lock: Option<Tid>, t: Tid)
    requires Wf(sh)
    ensures var sh' := sh.(lock := lock);
            AfterShared(sh, sh', "", t) && View(sh', "") == View(sh, "")
  {
    assert forall k :: CellAt(sh.(lock := lock), k) == CellAt(sh, k);
  }

  /** A step of the holder that moves maps, not cells, and leaves the abstract map alone. */
  ghost predicate Silent(sh: Shared, sh': Shared, t: Tid) {
    && AfterShared(sh, sh', "", t) && View(sh', "") == View(sh, "")
    && sh'.cells == sh.cells && sh'.meta == sh.meta && sh'.boxes == sh.boxes
  }

  lemma SilentPristine(sh: Shared, sh': Shared, pc: Pc, pc': Pc, t: Tid, seen: Seen, eff: seq<Effect>)
    requires Silent(sh, sh', t) && !pc.Idle? && LocalInv(sh, t, pc, seen, eff)
    requires pc'.LockedEntry? || pc'.Publish? || pc'.Insert? || pc'.Locked?
    requires pc'.op == pc.op && Pristine(sh, t, pc.op, eff)
    ensures AfterShared(sh, sh', KeyOf(pc.op), t)
    ensures LocalInv(sh', t, pc', seen + Views(sh'), Record(sh, sh', KeyOf(pc.op), eff))
  {
    assert forall k :: View(sh', k) == View(sh, k);
  }

  lemma SilentThen(sh: Shared, sh': Shared, op: Op, pc': Pc, t: Tid, th: Then, seen: Seen, eff: seq<Effect>)
    requires Silent(sh, sh', t) && Views(sh) <= seen && ThenOk(sh, t, op, th, seen, eff)
    requires pc' == Take(op, th) || pc' == PromotePublish(op, th) || pc' == MissReset(op, th) || pc' == Release(op, th)
    ensures AfterShared(sh, sh', KeyOf(op), t)
    ensures LocalInv(sh', t, pc', seen + Views(sh'), Record(sh, sh', KeyOf(op), eff))
  {
    ThenOkKept(sh, sh', t, op, th, seen, eff);
    assert forall k :: View(sh', k) == View(sh, k);
  }

  lemma LockQuiet(sh: Shared, lock: Option<Tid>)
    requires Quiet(sh)
    ensures Quiet(sh.(lock := lock))
  {
  }

  lemma AcquireOk(sh: Shared, op: Op, sh': Shared, pc': Pc, t: Tid, seen: Seen, eff: seq<Effect>)
    requires Quiet(sh) && Before(sh, WaitLock(op), t, seen, eff) && FastStep(sh, WaitLock(op), sh', pc', t)
    ensures After(sh, WaitLock(op), sh', pc', t, seen, eff)
  {
    LockGuarantee(sh, Some(t), t);
    LockQuiet(sh, Some(t));
    SilentPristine(sh, sh', WaitLock(op), pc', t, seen, eff);
  }

  lemma RemoveOk(sh: Shared, op: Op, sh': Shared, pc': Pc, t: Tid, seen: Seen, eff: seq<Effect>)
    requires Before(sh, DirtyLookup(op), t, seen, eff) && HolderStep(sh, DirtyLookup(op), sh', pc', t)
    ensures After(sh, DirtyLookup(op), sh', pc', t, seen, eff)
  {
    RemoveGuarantee(sh, op.key, t);
    RemoveCoupled(sh, op.key, t);
    RemovePrivate(sh, op, t, seen, eff);
  }

  lemma UnexpungeOk(sh: Shared, op: Op, e: CellId, sh': Shared, pc': Pc, t: Tid, seen: Seen, eff: seq<Effect>)
    requires Before(sh, Unexpunge(op, e), t, seen, eff) && HolderStep(sh, Unexpunge(op, e), sh', pc', t)
    ensures After(sh, Unexpunge(op, e), sh', pc', t, seen, eff)
  {
    UnexpungeShared(sh, sh', op.key, e, t);
    UnexpungePrivate(sh, sh', op, e);
    PristineKept(sh, sh', e, Null, t, op, eff);
  }

  lemma InsertSharedOk(sh: Shared, op: Op, e: CellId, sh': Shared, pc': Pc, t: Tid, seen: Seen, eff: seq<Effect>)
    requires Before(sh, InsertShared(op, e), t, seen, eff) && HolderStep(sh, InsertShared(op, e), sh', pc', t)
    ensures After(sh, InsertShared(op, e), sh', pc', t, seen, eff)
  {
    InsertSharedGuarantee(sh, op.key, e, t);
    InsertSharedPrivate(sh, sh', op, e);
    SilentPristine(sh, sh', InsertShared(op, e), pc', t, seen, eff);
  }

  /** The cell that store_locked and the locked try_load_or_store work on is the current one. */
  lemma LockedCurrent(sh: Shared, op: Op, e: CellId, d: bool)
    requires Wf(sh) && (LockInv(sh, LockedEntry(op, e, d)) || LockInv(sh, LockedCas(op, e, d)))
    ensures e < |sh.cells| && HasKey(op) && sh.meta[e].key == op.key && Current(sh, e) && At(sh, e) != Expunged
  {
  }

  lemma StoreLockedPrivate(sh: Shared, op: Op, e: CellId, t: Tid, seen: Seen, eff: seq<Effect>)
    requires Wf(sh) && Current(sh, e) && At(sh, e) != Expunged
    requires op.Store? && sh.meta[e].key == op.key && Pristine(sh, t, op, eff)
    ensures var sh' := SetCell(sh, e, Ptr(op.box));
            LocalInv(sh', t, Release(op, ThenDone(Unit)), seen + Views(sh'), Record(sh, sh', op.key, eff))
  {
    assert View(sh, op.key) != Some(op.box);
    SetCellGuarantee(sh, e, Ptr(op.box), t);
  }

  lemma StoreLockedOk(sh: Shared, op: Op, e: CellId, d: bool, sh': Shared, pc': Pc, t: Tid, seen: Seen,
                      eff: seq<Effect>)
    requires Before(sh, LockedEntry(op, e, d), t, seen, eff) && HolderStep(sh, LockedEntry(op, e, d), sh', pc', t)
    ensures After(sh, LockedEntry(op, e, d), sh', pc', t, seen, eff)
  {
    LockedCurrent(sh, op, e, d);
    SetCellGuarantee(sh, e, Ptr(op.box), t);
    SetCellQuiet(sh, e, Ptr(op.box));
    StoreLockedPrivate(sh, op, e, t, seen, eff);
  }

  lemma FillLockedPrivate(sh: Shared, op: Op, e: CellId, t: Tid, seen: Seen, eff: seq<Effect>)
    requires Wf(sh) && Current(sh, e) && At(sh, e) == Null
    requires op.LoadOrStore? && sh.meta[e].key == op.key && Pristine(sh, t, op, eff)
    ensures var sh' := SetCell(sh, e, Ptr(op.box));
            LocalInv(sh', t, Release(op, ThenDone(Got(None))), seen + Views(sh'), Record(sh, sh', op.key, eff))
  {
    SetCellGuarantee(sh, e, Ptr(op.box), t);
  }

  lemma FillLockedOk(sh: Shared, op: Op, e: CellId, d: bool, sh': Shared, pc': Pc, t: Tid, seen: Seen, eff: seq<Effect>)
    requires Before(sh, LockedCas(op, e, d), t, seen, eff) && HolderStep(sh, LockedCas(op, e, d), sh', pc', t)
    ensures After(sh, LockedCas(op, e, d), sh', pc', t, seen, eff)
  {
    LockedCurrent(sh, op, e, d);
    SetCellGuarantee(sh, e, Ptr(op.box), t);
    SetCellQuiet(sh, e, Ptr(op.box));
    FillLockedPrivate(sh, op, e, t, seen, eff);
  }

  lemma CountPrivate(sh: Shared, op: Op, th: Then)
    requires LockInv(sh, MissCount(op, th)) && !th.ThenReload?
    ensures var sh' := sh.(misses := sh.misses + 1);
            LockInv(sh', if sh.misses + 1 >= |sh.dirty| then Take(op, th) else Release(op, th))
  {
  }

  lemma CountSilent(sh: Shared, sh': Shared, op: Op, th: Then, pc': Pc, t: Tid, seen: Seen, eff: seq<Effect>)
    requires Wf(sh) && sh' == sh.(misses := sh.misses + 1) && (pc' == Take(op, th) || pc' == Release(op, th))
    requires Views(sh) <= seen && ThenOk(sh, t, op, th, seen, eff)
    ensures AfterShared(sh, sh', KeyOf(op), t)
    ensures LocalInv(sh', t, pc', seen + Views(sh'), Record(sh, sh', KeyOf(op), eff))
  {
    MissesGuarantee(sh, sh.misses + 1, t);
    SilentThen(sh, sh', op, pc', t, th, seen, eff);
  }

  lemma CountOk(sh: Shared, op: Op, th: Then, sh': Shared, pc': Pc, t: Tid, seen: Seen, eff: seq<Effect>)
    requires Before(sh, MissCount(op, th), t, seen, eff) && HolderStep(sh, MissCount(op, th), sh', pc', t)
    ensures After(sh, MissCount(op, th), sh', pc', t, seen, eff)
  {
    CountPrivate(sh, op, th);
    CountSilent(sh, sh', op, th, pc', t, seen, eff);
  }

  lemma TakePrivate(sh: Shared, op: Op, th: Then)
    requires LockInv(sh, Take(op, th))
    ensures LockInv(sh.(taken := Some(sh.dirty), dirty := map[]), PromotePublish(op, th))
  {
  }

  lemma TakeOk(sh: Shared, op: Op, th: Then, sh': Shared, pc': Pc, t: Tid, seen: Seen, eff: seq<Effect>)
    requires Before(sh, Take(op, th), t, seen, eff) && HolderStep(sh, Take(op, th), sh', pc', t)
    ensures After(sh, Take(op, th), sh', pc', t, seen, eff)
  {
    TakeGuarantee(sh, t);
    TakePrivate(sh, op, th);
    SilentThen(sh, sh', op, pc', t, th, seen, eff);
  }

  lemma PromoteOk(sh: Shared, op: Op, th: Then, sh': Shared, pc': Pc, t: Tid, seen: Seen, eff: seq<Effect>)
    requires Before(sh, PromotePublish(op, th), t, seen, eff) && HolderStep(sh, PromotePublish(op, th), sh', pc', t)
    ensures After(sh, PromotePublish(op, th), sh', pc', t, seen, eff)
  {
    PromoteGuarantee(sh, t);
    SilentThen(sh, sh', op, pc', t, th, seen, eff);
  }

  lemma ScanStart(sh: Shared, t: Tid, seen: Seen)
    requires Wf(sh) && Views(sh) <= seen && !sh.read.amended
    ensures ScanOk(sh, sh.read.m, sh.read.m.Keys, map[], seen)
  {
    forall k | k !in sh.read.m ensures (k, None) in seen {
      assert (k, View(sh, k)) in Views(sh);
    }
  }

  lemma ResetOk(sh: Shared, op: Op, th: Then, sh': Shared, pc': Pc, t: Tid, seen: Seen, eff: seq<Effect>)
    requires Before(sh, MissReset(op, th), t, seen, eff) && HolderStep(sh, MissReset(op, th), sh', pc', t)
    ensures After(sh, MissReset(op, th), sh', pc', t, seen, eff)
  {
    MissesGuarantee(sh, 0, t);
    ScanStart(sh, t, seen);
    SilentThen(sh, sh', op, pc', t, if th.ThenReload? then ThenScan(sh.read.m) else th, seen, eff);
  }

  lemma BuiltPrivate(sh: Shared, op: Op, rb: Rebuild)
    requires LockInv(sh, RebuildNext(op, rb)) && rb.todo == {}
    ensures LockInv(sh.(dirty := rb.acc), Publish(op, rb.snap))
  {
  }

  lemma BuiltOk(sh: Shared, op: Op, rb: Rebuild, sh': Shared, pc': Pc, t: Tid, seen: Seen, eff: seq<Effect>)
    requires Before(sh, RebuildNext(op, rb), t, seen, eff) && HolderStep(sh, RebuildNext(op, rb), sh', pc', t)
    ensures After(sh, RebuildNext(op, rb), sh', pc', t, seen, eff)
  {
    BuiltGuarantee(sh, rb.acc, t);
    BuiltPrivate(sh, op, rb);
    SilentPristine(sh, sh', RebuildNext(op, rb), pc', t, seen, eff);
  }

  /** Expunging one cell of the iterated snapshot. */
  lemma ExpungePrivate(sh: Shared, sh': Shared, rb: Rebuild, k: Key)
    requires Owned(sh, sh.read.m) && Rebuilding(sh, rb) && k in rb.todo && At(sh, rb.it[k]) == Null
    requires sh' == SetCell(sh, rb.it[k], Expunged)
    ensures Rebuilding(sh', Dropped(rb, k))
  {
    assert sh.meta[rb.it[k]].key == k;
    assert forall k2 | k2 in rb.it && k2 != k :: At(sh', rb.it[k2]) == At(sh, rb.it[k2]) by {
      assert forall k2 | k2 in rb.it && k2 != k :: sh.meta[rb.it[k2]].key == k2;
    }
  }

  /** The key of a cell without a value is absent before and after. */
  lemma ExpungeShared(sh: Shared, sh': Shared, k: Key, e: CellId, t: Tid)
    requires Wf(sh) && InRead(sh, k, e) && At(sh, e) == Null && sh' == SetCell(sh, e, Expunged)
    ensures Wf(sh') && Guarantee(sh, sh', t) && forall k2 :: View(sh', k2) == View(sh, k2)
  {
    assert sh.meta[e].key == k;
    SetCellGuarantee(sh, e, Expunged, t);
  }

  lemma ExpungeOk(sh: Shared, op: Op, rb: Rebuild, k: Key, sh': Shared, pc': Pc, t: Tid, seen: Seen, eff: seq<Effect>)
    requires Before(sh, RebuildCas(op, rb, k), t, seen, eff) && HolderStep(sh, RebuildCas(op, rb, k), sh', pc', t)
    ensures After(sh, RebuildCas(op, rb, k), sh', pc', t, seen, eff)
  {
    ExpungeShared(sh, sh', k, rb.it[k], t);
    ExpungePrivate(sh, sh', rb, k);
    PristineKept(sh, sh', rb.it[k], Expunged, t, op, eff);
  }

  lemma PublishPrivate(sh: Shared, op: Op, m: map<Key, CellId>)
    requires LockInv(sh, Publish(op, m))
    ensures LockInv(sh.(read := Snap(m, true)), Insert(op))
  {
  }

  lemma PublishOk(sh: Shared, op: Op, m: map<Key, CellId>, sh': Shared, pc': Pc, t: Tid, seen: Seen, eff: seq<Effect>)
    requires Before(sh, Publish(op, m), t, seen, eff) && HolderStep(sh, Publish(op, m), sh', pc', t)
    ensures After(sh, Publish(op, m), sh', pc', t, seen, eff)
  {
    PublishGuarantee(sh, t);
    PublishPrivate(sh, op, m);
    SilentPristine(sh, sh', Publish(op, m), pc', t, seen, eff);
  }

  lemma InsertResult(op: Op, seen: Seen)
    requires HasBox(op)
    ensures ResultOk(op, if op.Store? then Unit else Got(Some(op.box)), seen, [Effect(None, Some(op.box))])
  {
  }

  lemma DoneInv(sh: Shared, t: Tid, op: Op, r: Result, seen: Seen, eff: seq<Effect>)
    requires ResultOk(op, r, seen, eff) && Views(sh) <= seen
    ensures LocalInv(sh, t, Release(op, ThenDone(r)), seen, eff)
  {
  }

  lemma AddRecord(sh: Shared, k: Key, b: Box)
    requires Wf(sh) && sh.taken == None && k !in sh.read.m && k !in sh.dirty
    ensures Record(sh, AddEntry(sh, k, b), k, []) == [Effect(None, Some(b))]
  {
    AddViews(sh, k, b);
  }

  lemma AddPrivate(sh: Shared, op: Op, sh': Shared, pc': Pc, t: Tid, seen: Seen, eff: seq<Effect>)
    requires Wf(sh) && LockInv(sh, Insert(op)) && Pristine(sh, t, op, eff) && HolderStep(sh, Insert(op), sh', pc', t)
    ensures LocalInv(sh', t, pc', seen + Views(sh'), Record(sh, sh', op.key, eff))
  {
    AddRecord(sh, op.key, op.box);
    InsertResult(op, seen + Views(sh'));
    DoneInv(sh', t, op, if op.Store? then Unit else Got(Some(op.box)), seen + Views(sh'), [Effect(None, Some(op.box))]);
  }

  lemma AddShared(sh: Shared, op: Op, sh': Shared, pc': Pc, t: Tid, eff: seq<Effect>)
    requires Wf(sh) && LockInv(sh, Insert(op)) && Pristine(sh, t, op, eff) && HolderStep(sh, Insert(op), sh', pc', t)
    ensures AfterShared(sh, sh', op.key, t) && Quiet(sh') && pc'.Release? && !pc'.then_.ThenReload?
  {
    AddGuarantee(sh, op.key, op.box, t);
    AddQuiet(sh, op);
  }

  lemma AddOk(sh: Shared, op: Op, sh': Shared, pc': Pc, t: Tid, seen: Seen, eff: seq<Effect>)
    requires Before(sh, Insert(op), t, seen, eff) && HolderStep(sh, Insert(op), sh', pc', t)
    ensures After(sh, Insert(op), sh', pc', t, seen, eff)
  {
    AddShared(sh, op, sh', pc', t, eff);
    AddPrivate(sh, op, sh', pc', t, seen, eff);
  }

  lemma ResumePrivate(sh: Shared, op: Op, th: Then, t: Tid, seen: Seen, eff: seq<Effect>)
    requires LocalInv(sh, t, Release(op, th), seen, eff) && !th.ThenReload?
    ensures LocalInv(sh, t, Resume(op, th), seen, eff) && !Holds(Resume(op, th)) && !Resume(op, th).Idle?
  {
  }

  lemma ReleaseOk(sh: Shared, op: Op, th: Then, sh': Shared, pc': Pc, t: Tid, seen: Seen, eff: seq<Effect>)
    requires Before(sh, Release(op, th), t, seen, eff) && HolderStep(sh, Release(op, th), sh', pc', t)
    ensures After(sh, Release(op, th), sh', pc', t, seen, eff)
  {
    LockGuarantee(sh, None, t);
    LockQuiet(sh, None);
    SilentThen(sh, sh', op, Release(op, th), t, th, seen, eff);
    ResumePrivate(sh', op, th, t, seen + Views(sh'), Record(sh, sh', KeyOf(op), eff));
  }

  // ----- All together ------------------------------------------------------------------------

  lemma FastStepOk(sh: Shared, pc: Pc, sh': Shared, pc': Pc, t: Tid, seen: Seen, eff: seq<Effect>)
    requires Before(sh, pc, t, seen, eff) && FastStep(sh, pc, sh', pc', t)
    requires sh.lock == None ==> Quiet(sh)
    ensures After(sh, pc, sh', pc', t, seen, eff)
  {
    match pc
    case Idle => InvokeOk(sh, sh', pc', t);
    case Cas(op, e, x) => CasOk(sh, op, e, x, sh', pc', t, seen, eff);
    case WaitLock(op) => AcquireOk(sh, op, sh', pc', t, seen, eff);
    case _ =>
  }

  lemma MoveStepOk(sh: Shared, pc: Pc, sh': Shared, pc': Pc, t: Tid, seen: Seen, eff: seq<Effect>)
    requires Before(sh, pc, t, seen, eff) && HolderStep(sh, pc, sh', pc', t)
    requires pc.MissCount? || pc.Take? || pc.PromotePublish? || pc.MissReset? || pc.RebuildNext? || pc.Publish?
             || pc.Release?
    ensures After(sh, pc, sh', pc', t, seen, eff)
  {
    match pc
    case MissCount(op, th) => CountOk(sh, op, th, sh', pc', t, seen, eff);
    case Take(op, th) => TakeOk(sh, op, th, sh', pc', t, seen, eff);
    case PromotePublish(op, th) => PromoteOk(sh, op, th, sh', pc', t, seen, eff);
    case MissReset(op, th) => ResetOk(sh, op, th, sh', pc', t, seen, eff);
    case RebuildNext(op, rb) => BuiltOk(sh, op, rb, sh', pc', t, seen, eff);
    case Publish(op, m) => PublishOk(sh, op, m, sh', pc', t, seen, eff);
    case Release(op, th) => ReleaseOk(sh, op, th, sh', pc', t, seen, eff);
    case _ =>
  }

  lemma EditStepOk(sh: Shared, pc: Pc, sh': Shared, pc': Pc, t: Tid, seen: Seen, eff: seq<Effect>)
    requires Before(sh, pc, t, seen, eff) && HolderStep(sh, pc, sh', pc', t)
    requires pc.DirtyLookup? || pc.Unexpunge? || pc.InsertShared? || pc.LockedEntry? || pc.LockedCas? || pc.RebuildCas?
             || pc.Insert?
    ensures After(sh, pc, sh', pc', t, seen, eff)
  {
    match pc
    case DirtyLookup(op) => RemoveOk(sh, op, sh', pc', t, seen, eff);
    case Unexpunge(op, e) => UnexpungeOk(sh, op, e, sh', pc', t, seen, eff);
    case InsertShared(op, e) => InsertSharedOk(sh, op, e, sh', pc', t, seen, eff);
    case LockedEntry(op, e, d) => StoreLockedOk(sh, op, e, d, sh', pc', t, seen, eff);
    case LockedCas(op, e, d) => FillLockedOk(sh, op, e, d, sh', pc', t, seen, eff);
    case RebuildCas(op, rb, k) => ExpungeOk(sh, op, rb, k, sh', pc', t, seen, eff);
    case Insert(op) => AddOk(sh, op, sh', pc', t, seen, eff);
    case _ =>
  }

  /** Every step of every thread. */
  lemma StepOk(sh: Shared, pc: Pc, sh': Shared, pc': Pc, t: Tid, seen: Seen, eff: seq<Effect>)
    requires Before(sh, pc, t, seen, eff) && Trans(sh, pc, sh', pc', t)
    requires sh.lock == None ==> Quiet(sh)
    ensures After(sh, pc, sh', pc', t, seen, eff)
  {
    if FastStep(sh, pc, sh', pc', t) {
      FastStepOk(sh, pc, sh', pc', t, seen, eff);
    } else if HolderStep(sh, pc, sh', pc', t) {
      if pc.DirtyLookup? || pc.Unexpunge? || pc.InsertShared? || pc.LockedEntry? || pc.LockedCas? || pc.RebuildCas?
         || pc.Insert? {
        EditStepOk(sh, pc, sh', pc', t, seen, eff);
      } else {
        MoveStepOk(sh, pc, sh', pc', t, seen, eff);
      }
    } else {
      LookStepOk(sh, pc, pc', t, seen, eff);
    }
  }
}
