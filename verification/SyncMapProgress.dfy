/** Progress: no thread gets stuck, the lock is released, and retries are the work of others. */
module SyncMapProgress {
  import opened MapTypes
  import opened SyncMapModel
  import opened SyncMapInvariant
  import opened SyncMapSteps
  import opened SyncMapRuns

  // ----- No thread is stuck ------------------------------------------------------------------

  ghost predicate CanStep(sh: Shared, pc: Pc, t: Tid) {
    exists sh': Shared, pc': Pc :: Trans(sh, pc, sh', pc', t)
  }

  lemma LookerCanStep(sh: Shared, pc: Pc, t: Tid, pc': Pc)
    requires LookStep(sh, pc, pc')
    ensures CanStep(sh, pc, t)
  {
    assert Trans(sh, pc, sh, pc', t);
  }

  lemma WriterCanStep(sh: Shared, pc: Pc, t: Tid, sh': Shared, pc': Pc)
    requires FastStep(sh, pc, sh', pc', t) || HolderStep(sh, pc, sh', pc', t)
    ensures CanStep(sh, pc, t)
  {
    assert Trans(sh, pc, sh', pc', t);
  }

  lemma OutsiderCanStep(sh: Shared, pc: Pc, t: Tid, seen: Seen, eff: seq<Effect>)
    requires LocalInv(sh, t, pc, seen, eff) && !Holds(pc) && (pc.WaitLock? ==> sh.lock == None)
    ensures CanStep(sh, pc, t)
  {
    match pc
    case Idle => WriterCanStep(sh, pc, t, sh, ReadSnap(Scan));
    case ReadSnap(op) => LookerCanStep(sh, pc, t, AfterSnap(sh.read, op));
    case AtEntry(op, e) => LookerCanStep(sh, pc, t, AfterEntry(op, e, At(sh, e)));
    case Cas(op, e, x) =>
      if At(sh, e) == x { WriterCanStep(sh, pc, t, SetCell(sh, e, Written(op)), Done(op, CasResult(op, x))); }
      else { LookerCanStep(sh, pc, t, AtEntry(op, e)); }
    case WaitLock(op) => WriterCanStep(sh, pc, t, sh.(lock := Some(t)), Locked(op));
    case ScanNext(op, m, todo, acc) =>
      if todo == {} {
        LookerCanStep(sh, pc, t, Done(op, Listing(acc)));
      } else {
        var k :| k in todo;
        var acc' := if At(sh, m[k]).Ptr? then acc[k := At(sh, m[k]).box] else acc;
        LookerCanStep(sh, pc, t, ScanNext(op, m, todo - {k}, acc'));
      }
    case Done(op, r) => LookerCanStep(sh, pc, t, Idle);
    case _ =>
  }

  lemma EditorCanStep(sh: Shared, pc: Pc, t: Tid)
    requires pc.Locked? || pc.DirtyLookup? || pc.Unexpunge? || pc.InsertShared? || pc.LockedEntry? || pc.LockedCas?
             || pc.Insert?
    ensures CanStep(sh, pc, t)
  {
    match pc
    case Locked(op) => LookerCanStep(sh, pc, t, AfterLocked(sh, op));
    case DirtyLookup(op) =>
      if op.LoadAndDelete? && op.key in sh.dirty {
        WriterCanStep(sh, pc, t, RemoveEntry(sh, op.key, t), MissCount(op, ThenEntry(sh.dirty[op.key])));
      } else {
        var th := if KeyOf(op) in sh.dirty then ThenEntry(sh.dirty[KeyOf(op)]) else ThenDone(Got(None));
        LookerCanStep(sh, pc, t, MissCount(op, th));
      }
    case Unexpunge(op, e) =>
      if At(sh, e) == Expunged { WriterCanStep(sh, pc, t, SetCell(sh, e, Null), InsertShared(op, e)); }
      else { LookerCanStep(sh, pc, t, LockedEntry(op, e, false)); }
    case InsertShared(op, e) =>
      WriterCanStep(sh, pc, t, sh.(dirty := sh.dirty[KeyOf(op) := e]), LockedEntry(op, e, false));
    case LockedEntry(op, e, d) =>
      if op.Store? { WriterCanStep(sh, pc, t, SetCell(sh, e, Ptr(op.box)), Release(op, ThenDone(Unit))); }
      else if At(sh, e) == Null { LookerCanStep(sh, pc, t, LockedCas(op, e, d)); }
      else { LookerCanStep(sh, pc, t, AfterLoadOrStore(op, d, Got(Value(At(sh, e))))); }
    case LockedCas(op, e, d) =>
      if At(sh, e) == Null {
        WriterCanStep(sh, pc, t, SetCell(sh, e, Written(op)), AfterLoadOrStore(op, d, Got(None)));
      } else {
        LookerCanStep(sh, pc, t, LockedEntry(op, e, d));
      }
    case Insert(op) =>
      WriterCanStep(sh, pc, t, AddEntry(sh, KeyOf(op), BoxOf(op)),
        Release(op, ThenDone(if op.Store? then Unit else Got(Some(BoxOf(op))))));
    case _ =>
  }

  lemma MoverCanStep(sh: Shared, pc: Pc, t: Tid)
    requires pc.MissCount? || pc.Take? || pc.PromotePublish? || pc.MissReset? || pc.Publish? || pc.Release?
    ensures CanStep(sh, pc, t)
  {
    match pc
    case MissCount(op, th) =>
      WriterCanStep(sh, pc, t, sh.(misses := sh.misses + 1),
                    if sh.misses + 1 >= |sh.dirty| then Take(op, th) else Release(op, th));
    case Take(op, th) => WriterCanStep(sh, pc, t, sh.(taken := Some(sh.dirty), dirty := map[]), PromotePublish(op, th));
    case PromotePublish(op, th) =>
      WriterCanStep(sh, pc, t, sh.(read := Snap(Pending(sh), false), taken := None), MissReset(op, th));
    case MissReset(op, th) =>
      WriterCanStep(sh, pc, t, sh.(misses := 0), Release(op, if th.ThenReload? then ThenScan(sh.read.m) else th));
    case Publish(op, m) => WriterCanStep(sh, pc, t, sh.(read := Snap(m, true)), Insert(op));
    case Release(op, th) => WriterCanStep(sh, pc, t, sh.(lock := None), Resume(op, th));
    case _ =>
  }

  lemma RebuilderCanStep(sh: Shared, pc: Pc, t: Tid)
    requires InRebuild(pc) && LockInv(sh, pc)
    ensures CanStep(sh, pc, t)
  {
    match pc
    case RebuildStart(op, m) =>
      var rb := Rebuild(m, sh.read.m, map[], sh.read.m.Keys);
      LookerCanStep(sh, pc, t, if sh.dirty == map[] then RebuildNext(op, rb) else Publish(op, m));
    case RebuildNext(op, rb) =>
      if rb.todo == {} {
        WriterCanStep(sh, pc, t, sh.(dirty := rb.acc), Publish(op, rb.snap));
      } else {
        var k :| k in rb.todo;
        LookerCanStep(sh, pc, t, RebuildLoad(op, rb, k));
      }
    case RebuildLoad(op, rb, k) =>
      LookerCanStep(sh, pc, t, match At(sh, rb.it[k])
                               case Null => RebuildCas(op, rb, k)
                               case Expunged => RebuildNext(op, Dropped(rb, k))
                               case Ptr(_) => RebuildNext(op, Kept(rb, k)));
    case RebuildCas(op, rb, k) =>
      if At(sh, rb.it[k]) == Null {
        WriterCanStep(sh, pc, t, SetCell(sh, rb.it[k], Expunged), RebuildNext(op, Dropped(rb, k)));
      } else {
        LookerCanStep(sh, pc, t, RebuildLoad(op, rb, k));
      }
    case _ =>
  }

  /** No thread is ever stuck, except that it may wait for the lock; and the lock's holder is not stuck either. */
  lemma NeverStuck(b: Run, n: nat, t: Tid)
    requires Valid(b) && n < |b.states| && t in b.states[n].pcs
    ensures CanStep(ShAt(b, n), b.states[n].pcs[t], t) || (b.states[n].pcs[t].WaitLock? && ShAt(b, n).lock.Some?)
    ensures ShAt(b, n).lock.Some? ==>
              var h := ShAt(b, n).lock.value;
              h in b.states[n].pcs && CanStep(ShAt(b, n), b.states[n].pcs[h], h)
  {
    Invariant(b, n);
    var s := b.states[n];
    CanStepIn(b, n, t);
    if s.sh.lock.Some? { CanStepIn(b, n, s.sh.lock.value); }
  }

  lemma CanStepIn(b: Run, n: nat, t: Tid)
    requires n < |b.states| == |b.who| + 1 && InvAt(b, n) && t in b.states[n].pcs
    ensures CanStep(ShAt(b, n), b.states[n].pcs[t], t) || (b.states[n].pcs[t].WaitLock? && ShAt(b, n).lock.Some?)
  {
    var sh, pc := ShAt(b, n), b.states[n].pcs[t];
    if !Holds(pc) {
      if !(pc.WaitLock? && sh.lock.Some?) { OutsiderCanStep(sh, pc, t, SeenUpTo(b, n, t), EffectsUpTo(b, n, t)); }
    } else if InRebuild(pc) {
      RebuilderCanStep(sh, pc, t);
    } else if pc.MissCount? || pc.Take? || pc.PromotePublish? || pc.MissReset? || pc.Publish? || pc.Release? {
      MoverCanStep(sh, pc, t);
    } else {
      EditorCanStep(sh, pc, t);
    }
  }

  // ----- The lock is released ----------------------------------------------------------------

  /** How many steps of its own the lock holder is away from having released the lock, at most. */
  function Rank(sh: Shared, pc: Pc): nat {
    match pc
    case Locked(_) => 4 * |sh.read.m| + 11
    case Unexpunge(_, _) => 10
    case InsertShared(_, _) => 9
    case LockedEntry(_, e, _) => if At(sh, e) == Null then 8 else 6
    case LockedCas(_, _, _) => 7
    case DirtyLookup(_) => 6
    case MissCount(_, _) => 5
    case Take(_, _) => 4
    case PromotePublish(_, _) => 3
    case MissReset(_, _) => 2
    case RebuildStart(_, _) => 4 * |sh.read.m| + 5
    case RebuildNext(_, rb) => 4 * |rb.todo| + 4
    case RebuildLoad(_, rb, k) => 4 * |rb.todo| + if k in rb.it && At(sh, rb.it[k]) == Null then 3 else 1
    case RebuildCas(_, rb, _) => 4 * |rb.todo| + 2
    case Publish(_, _) => 3
    case Insert(_) => 2
    case Release(_, _) => 1
    case _ => 0
  }

  lemma LoadRankDrops(sh: Shared, op: Op, rb: Rebuild, k: Key, pc': Pc)
    requires LookStep(sh, RebuildLoad(op, rb, k), pc') && k in rb.todo
    ensures Rank(sh, pc') < Rank(sh, RebuildLoad(op, rb, k))
  {
    assert |rb.todo - {k}| == |rb.todo| - 1;
  }

  lemma RebuildRankDrops(sh: Shared, pc: Pc, pc': Pc)
    requires LookStep(sh, pc, pc') && (pc.RebuildStart? || pc.RebuildNext? || pc.RebuildCas?)
    ensures Rank(sh, pc') < Rank(sh, pc)
  {
  }

  lemma LookRankDrops(sh: Shared, pc: Pc, pc': Pc)
    requires LookStep(sh, pc, pc') && Holds(pc) && LockInv(sh, pc)
    ensures Rank(sh, pc') < Rank(sh, pc)
  {
    if pc.RebuildLoad? { LoadRankDrops(sh, pc.op, pc.rb, pc.k, pc'); }
    else if pc.RebuildStart? || pc.RebuildNext? || pc.RebuildCas? { RebuildRankDrops(sh, pc, pc'); }
  }

  lemma HolderRankDrops(sh: Shared, pc: Pc, sh': Shared, pc': Pc, t: Tid)
    requires HolderStep(sh, pc, sh', pc', t) && LockInv(sh, pc)
    ensures Rank(sh', pc') < Rank(sh, pc)
  {
    if pc.RebuildCas? { ExpungeRankDrops(sh, pc.op, pc.rb, pc.k); }
    else { WriteRankDrops(sh, pc, sh', pc', t); }
  }

  lemma ExpungeRankDrops(sh: Shared, op: Op, rb: Rebuild, k: Key)
    requires LockInv(sh, RebuildCas(op, rb, k))
    ensures Rank(SetCell(sh, rb.it[k], Expunged), RebuildNext(op, Dropped(rb, k))) < Rank(sh, RebuildCas(op, rb, k))
  {
  }

  lemma WriteRankDrops(sh: Shared, pc: Pc, sh': Shared, pc': Pc, t: Tid)
    requires HolderStep(sh, pc, sh', pc', t) && !pc.RebuildCas?
    ensures Rank(sh', pc') < Rank(sh, pc)
  {
  }

  /** Each step of the holder brings it closer; only others' writes to a cell can set it back. */
  lemma RankDrops(b: Run, n: nat)
    requires Valid(b) && n < |b.who|
    requires b.who[n] in b.states[n].pcs && Holds(b.states[n].pcs[b.who[n]])
    ensures b.who[n] in b.states[n + 1].pcs
    ensures Rank(ShAt(b, n + 1), b.states[n + 1].pcs[b.who[n]]) < Rank(ShAt(b, n), b.states[n].pcs[b.who[n]])
  {
    assert StepAt(b, n);
    Invariant(b, n);
    var s, s', t := b.states[n], b.states[n + 1], b.who[n];
    if HolderStep(s.sh, s.pcs[t], s'.sh, s'.pcs[t], t) {
      HolderRankDrops(s.sh, s.pcs[t], s'.sh, s'.pcs[t], t);
    } else {
      LookRankDrops(s.sh, s.pcs[t], s'.pcs[t]);
    }
  }

  /** A lock holder that runs alone releases the lock within as many steps as its rank says. */
  lemma {:induction false} LockIsReleased(b: Run, m: nat, n: nat, t: Tid) returns (i: nat)
    requires Valid(b) && m < |b.states| && t in b.states[m].pcs && Holds(b.states[m].pcs[t])
    requires n == m + Rank(ShAt(b, m), b.states[m].pcs[t]) < |b.states| && forall j | m <= j < n :: b.who[j] == t
    ensures m < i <= n && ShAt(b, i).lock == None
    decreases n - m
  {
    RankDrops(b, m);
    LockKept(b, m);
    i := m + 1;
    if Holds(b.states[i].pcs[t]) {
      i := LockIsReleased(b, m + 1, m + 1 + Rank(ShAt(b, m + 1), b.states[m + 1].pcs[t]), t);
    }
  }

  lemma LockKept(b: Run, n: nat)
    requires Valid(b) && n < |b.who| && b.who[n] in b.states[n].pcs && Holds(b.states[n].pcs[b.who[n]])
    ensures b.who[n] in b.states[n + 1].pcs
    ensures !Holds(b.states[n + 1].pcs[b.who[n]]) ==> ShAt(b, n + 1).lock == None
  {
    assert StepAt(b, n);
    var s, s', t := b.states[n], b.states[n + 1], b.who[n];
    StepMoves(s.sh, s.pcs[t], s'.sh, s'.pcs[t], t);
  }

  // ----- A failed compare-exchange -----------------------------------------------------------

  /** The cell a thread is about to compare and exchange, and the content it expects there. */
  function Awaited(pc: Pc): Option<(CellId, Content)> {
    match pc
    case Cas(_, e, x) => Some((e, x))
    case LockedCas(_, e, _) => Some((e, Null))
    case RebuildCas(_, rb, k) => if k in rb.it then Some((rb.it[k], Null)) else None
    case _ => None
  }

  /** A thread comes to a compare-exchange only by loading from the cell what it then expects. */
  lemma JustLoaded(sh: Shared, pc: Pc, sh': Shared, pc': Pc, t: Tid)
    requires Trans(sh, pc, sh', pc', t) && Awaited(pc').Some?
    ensures sh' == sh && At(sh, Awaited(pc').value.0) == Awaited(pc').value.1
  {
    if LookStep(sh, pc, pc') { LookedAndLoaded(sh, pc, pc'); }
    if HolderStep(sh, pc, sh', pc', t) { HolderDoesNot(sh, pc, sh', pc', t); }
  }

  lemma LookedAndLoaded(sh: Shared, pc: Pc, pc': Pc)
    requires LookStep(sh, pc, pc') && Awaited(pc').Some?
    ensures At(sh, Awaited(pc').value.0) == Awaited(pc').value.1
  {
  }

  lemma HolderDoesNot(sh: Shared, pc: Pc, sh': Shared, pc': Pc, t: Tid)
    requires HolderStep(sh, pc, sh', pc', t)
    ensures Awaited(pc') == None
  {
  }

  lemma OthersStep(b: Run, i: nat, t: Tid)
    requires Valid(b) && i < |b.who| && t in b.states[i + 1].pcs && Awaited(b.states[i + 1].pcs[t]).Some?
    requires var (e, x) := Awaited(b.states[i + 1].pcs[t]).value; At(ShAt(b, i + 1), e) != x
    ensures b.who[i] != t && t in b.states[i].pcs && b.states[i].pcs[t] == b.states[i + 1].pcs[t]
  {
    assert StepAt(b, i);
    var s, s' := b.states[i], b.states[i + 1];
    if b.who[i] == t { JustLoaded(s.sh, s.pcs[t], s'.sh, s'.pcs[t], t); }
  }

  /**
   A compare-exchange is about to fail only because some other thread has changed that very cell
   since this thread loaded it: every retry is another thread's progress.
   */
  lemma {:induction false} FailureIsInterference(b: Run, n: nat, t: Tid) returns (i: nat)
    requires Valid(b) && n < |b.states| && t in b.states[n].pcs && Awaited(b.states[n].pcs[t]).Some?
    requires var (e, x) := Awaited(b.states[n].pcs[t]).value; At(ShAt(b, n), e) != x
    ensures i < n && b.who[i] != t
    ensures var (e, x) := Awaited(b.states[n].pcs[t]).value;
            At(ShAt(b, i), e) == x && At(ShAt(b, i + 1), e) != x
    ensures forall j | i <= j <= n :: t in b.states[j].pcs && b.states[j].pcs[t] == b.states[n].pcs[t]
  {
    assert n > 0;
    i := n - 1;
    OthersStep(b, i, t);
    var (e, x) := Awaited(b.states[n].pcs[t]).value;
    if At(ShAt(b, i), e) != x { i := FailureIsInterference(b, i, t); }
  }
}
