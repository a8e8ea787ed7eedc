/**
 The results about the concurrent map that its users rely on, for every interleaving of any number
 of threads: each operation takes effect at one instant between its start and its end, and answers
 as a plain map would at that instant.
 */
module SyncMapLinearizability {
  import opened MapTypes
  import opened SyncMapModel
  import opened SyncMapInvariant
  import opened SyncMapRuns
  import Steps = SyncMapSteps

  // ----- The sequential specification --------------------------------------------------------

  /** What an operation on one key may do to a plain map, and answer. */
  ghost predicate Spec(op: Op, m: map<Key, Box>, r: Result, m': map<Key, Box>) {
    match op
    case Load(k) => m' == m && r == Got(Get(m, k))
    case Store(k, b) => m' == m[k := b] && r == Unit
    case LoadOrStore(k, b) =>
      if k in m then m' == m && r == Got(Some(m[k]))
      else m' == m[k := b] && (r == Got(None) || r == Got(Some(b)))
    case LoadAndDelete(k) => m' == m - {k} && r == Got(Get(m, k))
    case Scan => m' == m && r == Listing(m)
  }

  /** The thread is running one and the same operation from index `m` to index `n`. */
  predicate Throughout(b: Run, m: nat, n: nat, t: Tid)
    requires n < |b.states|
  {
    m <= n && forall i | m <= i <= n :: Running(b, i, t)
  }

  ghost predicate SameMap(sh: Shared, sh': Shared) {
    AbsMap(sh') == AbsMap(sh)
  }

  // ----- Every step --------------------------------------------------------------------------

  lemma ViewsDetermineMap(sh: Shared, sh': Shared, k: Key)
    requires OnlyAt(sh, sh', k)
    ensures View(sh', k) == View(sh, k) ==> AbsMap(sh') == AbsMap(sh)
    ensures View(sh', k).Some? ==> AbsMap(sh') == AbsMap(sh)[k := View(sh', k).value]
    ensures View(sh', k) == None ==> AbsMap(sh') == AbsMap(sh) - {k}
  {
    assert forall k2 :: Get(AbsMap(sh), k2) == View(sh, k2);
    assert forall k2 :: Get(AbsMap(sh'), k2) == View(sh', k2);
    assert forall k2 | k2 != k :: Get(AbsMap(sh'), k2) == Get(AbsMap(sh), k2);
  }

  lemma MapIsView(sh: Shared, k: Key)
    ensures Get(AbsMap(sh), k) == View(sh, k)
  {
  }

  /** The only change an operation may make to the abstract map. */
  ghost predicate EffectOk(op: Op, e: Effect) {
    match op
    case Store(_, box) => e.after == Some(box)
    case LoadOrStore(_, box) => e == Effect(None, Some(box))
    case LoadAndDelete(_) => e.before.Some? && e.after == None
    case _ => false
  }

  lemma EffectsOk(sh: Shared, t: Tid, pc: Pc, seen: Seen, eff: seq<Effect>)
    requires LocalInv(sh, t, pc, seen, eff) && !pc.Idle?
    ensures eff == [] || (|eff| == 1 && EffectOk(pc.op, eff[0]))
  {
  }

  /** How an operation may change the abstract map: always to what it specifies, never a no-op. */
  ghost predicate ChangedBy(op: Op, m: map<Key, Box>, m': map<Key, Box>) {
    match op
    case Store(k, b) => m' == m[k := b]
    case LoadOrStore(k, b) => k !in m && m' == m[k := b]
    case LoadAndDelete(k) => k in m && m' == m - {k}
    case _ => false
  }

  /** Step `n` is the one step of its thread's operation that changes the abstract map. */
  ghost predicate EffectiveStep(b: Run, n: nat, t: Tid)
    requires |b.states| == |b.who| + 1 && n < |b.who|
  {
    && b.who[n] == t && Running(b, n, t) && Running(b, n + 1, t)
    && OpAt(b, n, t) == OpAt(b, n + 1, t)
    && EffectsUpTo(b, n, t) == [] && |EffectsUpTo(b, n + 1, t)| == 1
    && ChangedBy(OpAt(b, n, t), AbsMap(ShAt(b, n)), AbsMap(ShAt(b, n + 1)))
  }

  lemma IdleStepKeeps(sh: Shared, pc: Pc, sh': Shared, pc': Pc, t: Tid)
    requires Trans(sh, pc, sh', pc', t) && (pc.Idle? || pc'.Idle?)
    ensures sh'.read == sh.read && sh'.dirty == sh.dirty && sh'.taken == sh.taken && sh'.cells == sh.cells
  {
  }

  lemma SameStoreSameMap(sh: Shared, sh': Shared)
    requires sh'.read == sh.read && sh'.dirty == sh.dirty && sh'.taken == sh.taken && sh'.cells == sh.cells
    ensures SameMap(sh, sh')
  {
    assert forall k :: View(sh', k) == View(sh, k);
  }

  lemma ChangingStepRuns(sh: Shared, pc: Pc, sh': Shared, pc': Pc, t: Tid)
    requires Trans(sh, pc, sh', pc', t) && !SameMap(sh, sh')
    ensures !pc.Idle? && !pc'.Idle?
  {
    if pc.Idle? || pc'.Idle? {
      IdleStepKeeps(sh, pc, sh', pc', t);
      SameStoreSameMap(sh, sh');
    }
  }

  lemma RecordedChange(sh: Shared, sh': Shared, t: Tid, pc': Pc, seen: Seen, eff: seq<Effect>)
    requires !pc'.Idle? && OnlyAt(sh, sh', KeyOf(pc'.op)) && !SameMap(sh, sh')
    requires LocalInv(sh', t, pc', seen, Record(sh, sh', KeyOf(pc'.op), eff))
    ensures eff == [] && |Record(sh, sh', KeyOf(pc'.op), eff)| == 1
    ensures ChangedBy(pc'.op, AbsMap(sh), AbsMap(sh'))
  {
    var k := KeyOf(pc'.op);
    var eff' := Record(sh, sh', k, eff);
    ViewsDetermineMap(sh, sh', k);
    EffectsOk(sh', t, pc', seen, eff');
    assert eff'[|eff|] == Effect(View(sh, k), View(sh', k));
    MapIsView(sh, k);
  }

  /** What a step that changes the map means for the thread that makes it. */
  lemma ChangeIsSpecified(sh: Shared, pc: Pc, sh': Shared, pc': Pc, t: Tid, seen: Seen, eff: seq<Effect>)
    requires Trans(sh, pc, sh', pc', t) && !SameMap(sh, sh')
    requires OnlyAt(sh, sh', KeyOf(Steps.OpOf(pc, pc')))
    requires LocalInv(sh', t, pc', seen, Record(sh, sh', KeyOf(Steps.OpOf(pc, pc')), eff))
    ensures !pc.Idle? && !pc'.Idle? && pc'.op == pc.op && eff == []
    ensures |Record(sh, sh', KeyOf(pc.op), eff)| == 1 && ChangedBy(pc.op, AbsMap(sh), AbsMap(sh'))
  {
    StepMoves(sh, pc, sh', pc', t);
    ChangingStepRuns(sh, pc, sh', pc', t);
    RecordedChange(sh, sh', t, pc', seen, eff);
  }

  lemma StepRecorded(b: Run, n: nat)
    requires Valid(b) && n < |b.who|
    ensures StepAt(b, n)
    ensures var x, y, t := b.states[n], b.states[n + 1], b.who[n];
            var k := KeyOf(Steps.OpOf(x.pcs[t], y.pcs[t]));
            OnlyAt(x.sh, y.sh, k)
            && LocalInv(y.sh, t, y.pcs[t], SeenUpTo(b, n, t) + Views(y.sh), Record(x.sh, y.sh, k, EffectsUpTo(b, n, t)))
  {
    Invariant(b, n);
    StepAfter(b, n);
  }

  lemma StepSpecified(b: Run, n: nat, eff: seq<Effect>)
    requires Valid(b) && n < |b.who| && eff == EffectsUpTo(b, n, b.who[n]) && !SameMap(ShAt(b, n), ShAt(b, n + 1))
    ensures StepAt(b, n)
    ensures var x, y, t := b.states[n], b.states[n + 1], b.who[n];
            && !x.pcs[t].Idle? && !y.pcs[t].Idle? && y.pcs[t].op == x.pcs[t].op && eff == []
            && |Record(x.sh, y.sh, KeyOf(x.pcs[t].op), eff)| == 1
            && ChangedBy(x.pcs[t].op, AbsMap(x.sh), AbsMap(y.sh))
  {
    StepRecorded(b, n);
    var x, y, t := b.states[n], b.states[n + 1], b.who[n];
    ChangeIsSpecified(x.sh, x.pcs[t], y.sh, y.pcs[t], t, SeenUpTo(b, n, t) + Views(y.sh), eff);
  }

  /**
   Each atomic step either leaves the abstract map alone or changes it exactly as the operation of
   the thread that makes it specifies; an operation makes at most one such step.
   */
  lemma StepEffect(b: Run, n: nat)
    requires Valid(b) && n < |b.who|
    ensures SameMap(ShAt(b, n), ShAt(b, n + 1)) || EffectiveStep(b, n, b.who[n])
  {
    if !SameMap(ShAt(b, n), ShAt(b, n + 1)) { StepSpecified(b, n, EffectsUpTo(b, n, b.who[n])); }
  }

  // ----- Whole operations --------------------------------------------------------------------

  /** What was seen was so, at some instant of the operation. */
  lemma {:induction false} SeenWitness(b: Run, n: nat, t: Tid, k: Key, x: Option<Box>) returns (m: nat)
    requires n < |b.states| && (k, x) in SeenUpTo(b, n, t)
    ensures m <= n && Throughout(b, m, n, t) && View(ShAt(b, m), k) == x
  {
    if (k, x) in Views(ShAt(b, n)) {
      m := n;
    } else {
      m := SeenWitness(b, n - 1, t, k, x);
    }
  }

  ghost predicate EffectAt(b: Run, m: nat, n: nat, t: Tid)
    requires |b.states| == |b.who| + 1 && m < n < |b.states|
  {
    && Throughout(b, m, n, t) && EffectiveStep(b, m, t)
    && var k := KeyOf(OpAt(b, m, t));
       EffectsUpTo(b, n, t) == [Effect(View(ShAt(b, m), k), View(ShAt(b, m + 1), k))]
  }

  lemma FreshEffect(b: Run, n: nat, t: Tid)
    requires Valid(b) && n < |b.who| && b.who[n] == t
    requires |EffectsUpTo(b, n + 1, t)| == 1 && EffectsUpTo(b, n, t) != EffectsUpTo(b, n + 1, t)
    ensures EffectAt(b, n, n + 1, t)
  {
    StepEffect(b, n);
    var k := KeyOf(OpAt(b, n + 1, t));
    MapIsView(ShAt(b, n), k);
    MapIsView(ShAt(b, n + 1), k);
    assert View(ShAt(b, n + 1), k) != View(ShAt(b, n), k);
  }

  /** A recorded effect is a step of this very operation. */
  lemma {:induction false} EffectWitness(b: Run, n: nat, t: Tid) returns (m: nat)
    requires Valid(b) && n < |b.states| && |EffectsUpTo(b, n, t)| == 1
    ensures m < n && EffectAt(b, m, n, t)
  {
    if EffectsUpTo(b, n - 1, t) == EffectsUpTo(b, n, t) {
      m := EffectWitness(b, n - 1, t);
    } else {
      m := n - 1;
      FreshEffect(b, m, t);
    }
  }

  /** Within one operation effects are never forgotten. */
  lemma {:induction false} EffectsGrow(b: Run, m: nat, n: nat, t: Tid)
    requires Valid(b) && n < |b.states| && Throughout(b, m, n, t)
    ensures EffectsUpTo(b, m, t) <= EffectsUpTo(b, n, t)
  {
    if m < n { EffectsGrow(b, m, n - 1, t); }
  }

  lemma {:induction false} SameOp(b: Run, m: nat, n: nat, t: Tid)
    requires Valid(b) && n < |b.states| && Throughout(b, m, n, t)
    ensures OpAt(b, m, t) == OpAt(b, n, t)
  {
    if m < n {
      SameOp(b, m, n - 1, t);
      var s, s', u := b.states[n - 1], b.states[n], b.who[n - 1];
      assert StepAt(b, n - 1);
      assert Running(b, n - 1, t) && Running(b, n, t);
      StepMoves(s.sh, s.pcs[u], s'.sh, s'.pcs[u], u);
    }
  }

  /** No step of the thread's running operation, other than `m`, changes the abstract map. */
  ghost predicate OnlyEffect(b: Run, m: nat, n: nat, t: Tid)
    requires |b.states| == |b.who| + 1 && n < |b.states|
  {
    forall i | 0 <= i < n && i != m && b.who[i] == t && Throughout(b, i, n, t) :: SameMap(ShAt(b, i), ShAt(b, i + 1))
  }

  /** A step with an effect leaves it in all later effects of its operation, so there is no other. */
  lemma EffectStays(b: Run, i: nat, n: nat, t: Tid)
    requires Valid(b) && i < n < |b.states| && Throughout(b, i, n, t) && |EffectsUpTo(b, i + 1, t)| == 1
    ensures EffectsUpTo(b, n, t) != []
  {
    assert Throughout(b, i + 1, n, t);
    EffectsGrow(b, i + 1, n, t);
  }

  lemma NoOtherEffect(b: Run, m: nat, n: nat, t: Tid, i: nat)
    requires Valid(b) && n < |b.states| && i < n && i != m && b.who[i] == t && Throughout(b, i, n, t)
    requires EffectsUpTo(b, n, t) == [] || (m < n && EffectAt(b, m, n, t))
    ensures !EffectiveStep(b, i, t)
  {
    if EffectiveStep(b, i, t) {
      EffectStays(b, i, n, t);
      if i < m { EffectStays(b, i, m, t); } else { EffectStays(b, m, i, t); }
    }
  }

  lemma EffectsMeanOnly(b: Run, m: nat, n: nat, t: Tid)
    requires Valid(b) && n < |b.states|
    requires EffectsUpTo(b, n, t) == [] || (m < n && EffectAt(b, m, n, t))
    ensures OnlyEffect(b, m, n, t)
  {
    forall i | 0 <= i < n && i != m && b.who[i] == t && Throughout(b, i, n, t)
      ensures SameMap(ShAt(b, i), ShAt(b, i + 1))
    {
      StepEffect(b, i);
      NoOtherEffect(b, m, n, t, i);
    }
  }

  /** The step made at `m` is the operation: it is the only one with an effect, and it is as specified. */
  ghost predicate ActsAt(b: Run, m: nat, n: nat, t: Tid, op: Op, r: Result)
    requires |b.states| == |b.who| + 1 && m < n < |b.states|
  {
    && b.who[m] == t
    && Spec(op, AbsMap(ShAt(b, m)), r, AbsMap(ShAt(b, m + 1)))
    && OnlyEffect(b, m, n, t)
  }

  /** The operation has no effect at all, and its answer is right for the map as it was at `m`. */
  ghost predicate ObservesAt(b: Run, m: nat, n: nat, t: Tid, op: Op, r: Result)
    requires |b.states| == |b.who| + 1 && m <= n < |b.states|
  {
    && Spec(op, AbsMap(ShAt(b, m)), r, AbsMap(ShAt(b, m)))
    && OnlyEffect(b, n, n, t)
  }

  /** The operation of `t` that ends at `n` with answer `r` took effect at the instant `m`. */
  ghost predicate LinearizedAt(b: Run, m: nat, n: nat, t: Tid, op: Op, r: Result)
    requires |b.states| == |b.who| + 1 && n < |b.states|
  {
    && Throughout(b, m, n, t) && OpAt(b, m, t) == op
    && ((m < n && ActsAt(b, m, n, t, op, r)) || ObservesAt(b, m, n, t, op, r))
  }

  lemma ObservedWhenSeen(b: Run, n: nat, t: Tid, op: Op, r: Result, x: Option<Box>) returns (m: nat)
    requires Valid(b) && n < |b.states| && Running(b, n, t) && OpAt(b, n, t) == op && HasKey(op)
    requires EffectsUpTo(b, n, t) == [] && (op.key, x) in SeenUpTo(b, n, t)
    requires r == Got(x) && (op.Load? || (op.LoadOrStore? && x.Some?) || (op.LoadAndDelete? && x == None))
    ensures m <= n && LinearizedAt(b, m, n, t, op, r)
  {
    m := SeenWitness(b, n, t, op.key, x);
    SameOp(b, m, n, t);
    EffectsMeanOnly(b, n, n, t);
    MapIsView(ShAt(b, m), op.key);
  }

  lemma ActedWhenRecorded(b: Run, n: nat, t: Tid, op: Op, r: Result) returns (m: nat)
    requires Valid(b) && n < |b.states| && Running(b, n, t) && OpAt(b, n, t) == op && HasKey(op)
    requires |EffectsUpTo(b, n, t)| == 1 && !op.Load?
    requires op.Store? ==> r == Unit
    requires op.LoadOrStore? ==> r == Got(None) || r == Got(Some(op.box))
    requires op.LoadAndDelete? ==> r == Got(EffectsUpTo(b, n, t)[0].before)
    ensures m < n && LinearizedAt(b, m, n, t, op, r) && EffectiveStep(b, m, t)
  {
    m := EffectWitness(b, n, t);
    SameOp(b, m, n, t);
    EffectsMeanOnly(b, m, n, t);
    MapIsView(ShAt(b, m), op.key);
  }

  /**
   Linearizability: in every run, every completed load, store, load_or_store, load_and_delete or
   delete has an instant between its start and its end at which it acts on the map, or looks at it,
   exactly as a plain map would, and no other step of it changes the map. A store always acts.
   */
  lemma Linearizable(b: Run, n: nat, t: Tid) returns (m: nat)
    requires Valid(b) && n < |b.states| && t in b.states[n].pcs
    requires b.states[n].pcs[t].Done? && !b.states[n].pcs[t].op.Scan?
    ensures m <= n && LinearizedAt(b, m, n, t, b.states[n].pcs[t].op, b.states[n].pcs[t].r)
    ensures b.states[n].pcs[t].op.Store? ==> m < n && EffectiveStep(b, m, t)
  {
    var op, r := b.states[n].pcs[t].op, b.states[n].pcs[t].r;
    Invariant(b, n);
    assert ResultOk(op, r, SeenUpTo(b, n, t), EffectsUpTo(b, n, t));
    if EffectsUpTo(b, n, t) == [] {
      m := ObservedWhenSeen(b, n, t, op, r, r.found);
    } else {
      m := ActedWhenRecorded(b, n, t, op, r);
    }
  }

  /**
   A scan is not a snapshot, but each of its entries is true of some instant of the scan, and so is
   the absence of each key it does not list; it changes nothing.
   */
  lemma ScanIsTruthful(b: Run, n: nat, t: Tid, k: Key) returns (m: nat)
    requires Valid(b) && n < |b.states| && t in b.states[n].pcs
    requires b.states[n].pcs[t].Done? && b.states[n].pcs[t].op.Scan?
    ensures b.states[n].pcs[t].r.Listing?
    ensures m <= n && Throughout(b, m, n, t)
    ensures Get(AbsMap(ShAt(b, m)), k) == Get(b.states[n].pcs[t].r.entries, k)
    ensures OnlyEffect(b, n, n, t)
  {
    Invariant(b, n);
    var r := b.states[n].pcs[t].r;
    m := SeenWitness(b, n, t, k, Get(r.entries, k));
    EffectsMeanOnly(b, n, n, t);
    MapIsView(ShAt(b, m), k);
  }
}
