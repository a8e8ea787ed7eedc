/**
 Which steps count a miss, whatever the other threads do: none for a key that the snapshot holds, and
 no more than one for each operation.
 */
module SyncMapMisses {
  import opened SyncMapModel
  import opened SyncMapInvariant
  import opened SyncMapRuns

  /** Where a thread is; one that does not exist is idle. */
  function PcAt(b: Run, n: nat, t: Tid): Pc
    requires n < |b.states|
  {
    if t in b.states[n].pcs then b.states[n].pcs[t] else Idle
  }

  // ----- One step ----------------------------------------------------------------------------

  lemma HolderMisses(sh: Shared, pc: Pc, sh': Shared, pc': Pc, t: Tid)
    requires HolderStep(sh, pc, sh', pc', t)
    ensures sh'.misses == if pc.MissCount? then sh.misses + 1 else if pc.MissReset? then 0 else sh.misses
  {
  }

  lemma OtherMisses(sh: Shared, pc: Pc, sh': Shared, pc': Pc, t: Tid)
    requires FastStep(sh, pc, sh', pc', t) || (sh' == sh && LookStep(sh, pc, pc'))
    ensures sh'.misses == sh.misses && !pc.MissCount? && !pc.MissReset?
  {
  }

  lemma MissesMove(sh: Shared, pc: Pc, sh': Shared, pc': Pc, t: Tid)
    requires Trans(sh, pc, sh', pc', t)
    ensures sh'.misses == if pc.MissCount? then sh.misses + 1 else if pc.MissReset? then 0 else sh.misses
  {
    if HolderStep(sh, pc, sh', pc', t) { HolderMisses(sh, pc, sh', pc', t); }
    else { OtherMisses(sh, pc, sh', pc', t); }
  }

  /** Its key is not in the snapshot, other keys are pending, and it is not a plain store. */
  predicate LooksOutside(sh: Shared, op: Op) {
    (Reads(op) || op.LoadOrStore?) && op.key !in sh.read.m && sh.read.amended
  }

  lemma HolderInv(b: Run, n: nat, t: Tid)
    requires Valid(b) && n < |b.states| && Holds(PcAt(b, n, t))
    ensures LockInv(b.states[n].sh, PcAt(b, n, t))
  {
    Invariant(b, n);
  }

  lemma RunStep(b: Run, n: nat, t: Tid)
    requires Valid(b) && n < |b.who|
    ensures var x, y, pc, pc' := ShAt(b, n), ShAt(b, n + 1), PcAt(b, n, t), PcAt(b, n + 1, t);
            if b.who[n] == t then Trans(x, pc, y, pc', t) else pc' == pc
  {
    assert StepAt(b, n);
  }

  /**
   In every run a step adds one to the misses exactly when it is the count of an operation whose key is
   not in the published snapshot, sets them to zero when a promotion has left nothing pending, and else
   leaves them alone.
   */
  lemma MissesCounted(b: Run, n: nat)
    requires Valid(b) && n < |b.who|
    ensures var x, y, pc := ShAt(b, n), ShAt(b, n + 1), PcAt(b, n, b.who[n]);
      && y.misses == (if pc.MissCount? then x.misses + 1 else if pc.MissReset? then 0 else x.misses)
      && (pc.MissCount? ==> LooksOutside(x, pc.op))
      && (pc.MissReset? ==> x.dirty == map[] && !x.read.amended)
  {
    var t := b.who[n];
    RunStep(b, n, t);
    MissesMove(ShAt(b, n), PcAt(b, n, t), ShAt(b, n + 1), PcAt(b, n + 1, t), t);
    if Holds(PcAt(b, n, t)) { HolderInv(b, n, t); }
  }

  // ----- One operation -----------------------------------------------------------------------

  predicate Leaves(op: Op, th: Then) {
    th.ThenEntry? ==> Reads(op)
  }

  /** From here on the operation counts no miss any more. */
  predicate Past(pc: Pc) {
    match pc
    case Take(op, th) => Leaves(op, th)
    case PromotePublish(op, th) => Leaves(op, th)
    case MissReset(op, th) => Leaves(op, th)
    case Release(op, th) => Leaves(op, th)
    case AtEntry(op, _) => Reads(op)
    case Cas(op, _, _) => Reads(op)
    case ScanNext(_, _, _, _) => true
    case Done(_, _) => true
    case _ => false
  }

  lemma HolderStaysPast(sh: Shared, pc: Pc, sh': Shared, pc': Pc, t: Tid)
    requires HolderStep(sh, pc, sh', pc', t) && !pc'.Idle? && Past(pc)
    ensures Past(pc')
  {
  }

  lemma OtherStaysPast(sh: Shared, pc: Pc, sh': Shared, pc': Pc, t: Tid)
    requires FastStep(sh, pc, sh', pc', t) || LookStep(sh, pc, pc')
    requires !pc'.Idle? && Past(pc)
    ensures Past(pc')
  {
  }

  lemma StaysPast(sh: Shared, pc: Pc, sh': Shared, pc': Pc, t: Tid)
    requires Trans(sh, pc, sh', pc', t) && !pc'.Idle? && Past(pc)
    ensures Past(pc')
  {
    if HolderStep(sh, pc, sh', pc', t) { HolderStaysPast(sh, pc, sh', pc', t); }
    else { OtherStaysPast(sh, pc, sh', pc', t); }
  }

  lemma CountedIsPast(sh: Shared, op: Op, th: Then, sh': Shared, pc': Pc, t: Tid)
    requires HolderStep(sh, MissCount(op, th), sh', pc', t) && LockInv(sh, MissCount(op, th))
    ensures Past(pc')
  {
  }

  lemma PastNext(b: Run, n: nat, t: Tid)
    requires Valid(b) && n < |b.who| && Running(b, n + 1, t) && Past(PcAt(b, n, t))
    ensures Past(PcAt(b, n + 1, t))
  {
    RunStep(b, n, t);
    if b.who[n] == t { StaysPast(ShAt(b, n), PcAt(b, n, t), ShAt(b, n + 1), PcAt(b, n + 1, t), t); }
  }

  lemma PastAfterCount(b: Run, m: nat, t: Tid)
    requires Valid(b) && m < |b.who| && b.who[m] == t && PcAt(b, m, t).MissCount?
    ensures Past(PcAt(b, m + 1, t))
  {
    var pc := PcAt(b, m, t);
    RunStep(b, m, t);
    HolderInv(b, m, t);
    CountedIsPast(ShAt(b, m), pc.op, pc.then_, ShAt(b, m + 1), PcAt(b, m + 1, t), t);
  }

  lemma {:induction false} PastFrom(b: Run, m: nat, n: nat, t: Tid)
    requires Valid(b) && m < n < |b.states| && forall i | m <= i <= n :: Running(b, i, t)
    requires b.who[m] == t && PcAt(b, m, t).MissCount?
    ensures Past(PcAt(b, n, t))
  {
    if n == m + 1 {
      PastAfterCount(b, m, t);
    } else {
      PastFrom(b, m, n - 1, t);
      assert Running(b, n, t);
      PastNext(b, n - 1, t);
    }
  }

  /** An operation that has counted a miss never comes to count a second one. */
  lemma CountsOnce(b: Run, m: nat, n: nat, t: Tid)
    requires Valid(b) && m < n < |b.states| && forall i | m <= i <= n :: Running(b, i, t)
    requires b.who[m] == t && PcAt(b, m, t).MissCount?
    ensures !PcAt(b, n, t).MissCount?
  {
    PastFrom(b, m, n, t);
  }
}
