/** The invariant holds in every state of every run, whatever the interleaving. */
module SyncMapRuns {
  import opened MapTypes
  import opened SyncMapModel
  import opened SyncMapInvariant
  import opened SyncMapSteps

  ghost function ShAt(b: Run, n: nat): Shared
    requires n < |b.states|
  {
    b.states[n].sh
  }

  predicate Running(b: Run, n: nat, t: Tid)
    requires n < |b.states|
  {
    t in b.states[n].pcs && !b.states[n].pcs[t].Idle?
  }

  function OpAt(b: Run, n: nat, t: Tid): Op
    requires n < |b.states| && Running(b, n, t)
  {
    b.states[n].pcs[t].op
  }

  /** The abstract values every key had since the operation `t` is running began. */
  ghost function SeenUpTo(b: Run, n: nat, t: Tid): Seen
    requires n < |b.states|
  {
    if n == 0 || !Running(b, n, t) then iset{} else SeenUpTo(b, n - 1, t) + Views(ShAt(b, n))
  }

  /** The changes `t` has made to the abstract map since the operation it is running began. */
  ghost function EffectsUpTo(b: Run, n: nat, t: Tid): seq<Effect>
    requires n < |b.states| == |b.who| + 1
  {
    if n == 0 || !Running(b, n, t) then []
    else if b.who[n - 1] != t then EffectsUpTo(b, n - 1, t)
    else Record(ShAt(b, n - 1), ShAt(b, n), KeyOf(OpAt(b, n, t)), EffectsUpTo(b, n - 1, t))
  }

  // ----- The invariant -----------------------------------------------------------------------

  ghost predicate LockOk(s: State) {
    && (s.sh.lock == None ==> Quiet(s.sh))
    && (forall t | t in s.pcs && Holds(s.pcs[t]) :: s.sh.lock == Some(t) && LockInv(s.sh, s.pcs[t]))
    && (s.sh.lock.Some? ==> s.sh.lock.value in s.pcs && Holds(s.pcs[s.sh.lock.value]))
  }

  ghost predicate ThreadsOk(b: Run, n: nat)
    requires n < |b.states| == |b.who| + 1
  {
    var s := b.states[n];
    forall t | t in s.pcs :: LocalInv(s.sh, t, s.pcs[t], SeenUpTo(b, n, t), EffectsUpTo(b, n, t))
  }

  ghost predicate InvAt(b: Run, n: nat)
    requires n < |b.states| == |b.who| + 1
  {
    Wf(ShAt(b, n)) && LockOk(b.states[n]) && ThreadsOk(b, n)
  }

  /** Control flow: the lock is taken and released at one point each, and the operation never changes. */
  ghost predicate Moves(sh: Shared, pc: Pc, sh': Shared, pc': Pc, t: Tid) {
    && (pc.WaitLock? ==> sh.lock == None && sh'.lock == Some(t) && Holds(pc'))
    && (pc.Release? ==> sh'.lock == None && !Holds(pc'))
    && (!pc.WaitLock? && !pc.Release? ==> sh'.lock == sh.lock && (Holds(pc') <==> Holds(pc)))
    && (!pc'.Idle? ==> if pc.Idle? then pc'.ReadSnap? else pc'.op == pc.op)
  }

  lemma LookMoves(sh: Shared, pc: Pc, pc': Pc, t: Tid)
    requires LookStep(sh, pc, pc')
    ensures Moves(sh, pc, sh, pc', t)
  {
  }

  lemma HolderMoves(sh: Shared, pc: Pc, sh': Shared, pc': Pc, t: Tid)
    requires HolderStep(sh, pc, sh', pc', t)
    ensures Moves(sh, pc, sh', pc', t)
  {
  }

  lemma StepMoves(sh: Shared, pc: Pc, sh': Shared, pc': Pc, t: Tid)
    requires Trans(sh, pc, sh', pc', t)
    ensures Moves(sh, pc, sh', pc', t)
  {
    if HolderStep(sh, pc, sh', pc', t) { HolderMoves(sh, pc, sh', pc', t); }
    else if !FastStep(sh, pc, sh', pc', t) { LookMoves(sh, pc, pc', t); }
  }

  lemma InitInv(b: Run)
    requires Valid(b)
    ensures InvAt(b, 0)
  {
  }

  lemma StepLock(s: State, s': State, t: Tid)
    requires Wf(s.sh) && LockOk(s) && Next(s, s', t)
    requires var pc, pc' := s.pcs[t], s'.pcs[t];
      && (Holds(pc') ==> LockInv(s'.sh, pc')) && (pc.Release? ==> Quiet(s'.sh))
      && (!Holds(pc) && !pc.WaitLock? ==> OutsideLock(s.sh, s'.sh))
    ensures LockOk(s')
  {
    var pc, pc' := s.pcs[t], s'.pcs[t];
    StepMoves(s.sh, pc, s'.sh, pc', t);
    if !Holds(pc) && !pc.WaitLock? {
      if s.sh.lock.Some? { LockInvStable(s.sh, s'.sh, s.pcs[s.sh.lock.value]); }
      else { QuietStable(s.sh, s'.sh); }
    }
  }

  lemma StepThreads(b: Run, n: nat)
    requires Valid(b) && n < |b.who| && StepAt(b, n) && Wf(ShAt(b, n)) && ThreadsOk(b, n)
    requires var s, s', t := b.states[n], b.states[n + 1], b.who[n];
      After(s.sh, s.pcs[t], s'.sh, s'.pcs[t], t, SeenUpTo(b, n, t), EffectsUpTo(b, n, t))
    ensures ThreadsOk(b, n + 1)
  {
    var s, s', t := b.states[n], b.states[n + 1], b.who[n];
    forall u | u in s'.pcs
      ensures LocalInv(s'.sh, u, s'.pcs[u], SeenUpTo(b, n + 1, u), EffectsUpTo(b, n + 1, u))
    {
      if u != t {
        LocalInvStable(s.sh, s'.sh, t, u, s.pcs[u], SeenUpTo(b, n, u), EffectsUpTo(b, n, u));
      } else {
        StepMoves(s.sh, s.pcs[t], s'.sh, s'.pcs[t], t);
      }
    }
  }

  lemma StepAfter(b: Run, n: nat)
    requires Valid(b) && n < |b.who| && InvAt(b, n)
    ensures StepAt(b, n)
    ensures var s, s', t := b.states[n], b.states[n + 1], b.who[n];
      After(s.sh, s.pcs[t], s'.sh, s'.pcs[t], t, SeenUpTo(b, n, t), EffectsUpTo(b, n, t))
  {
    assert StepAt(b, n);
    var s, s', t := b.states[n], b.states[n + 1], b.who[n];
    StepOk(s.sh, s.pcs[t], s'.sh, s'.pcs[t], t, SeenUpTo(b, n, t), EffectsUpTo(b, n, t));
  }

  lemma InvStep(b: Run, n: nat)
    requires Valid(b) && n < |b.who| && InvAt(b, n)
    ensures InvAt(b, n + 1)
  {
    StepAfter(b, n);
    StepThreads(b, n);
    StepLock(b.states[n], b.states[n + 1], b.who[n]);
  }

  /** In every state of every run. */
  lemma {:induction false} Invariant(b: Run, n: nat)
    requires Valid(b) && n < |b.states|
    ensures InvAt(b, n)
  {
    if n == 0 {
      InitInv(b);
    } else {
      Invariant(b, n - 1);
      InvStep(b, n - 1);
    }
  }
}
