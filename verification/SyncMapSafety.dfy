/** Safety of the protocol between the two maps and the life cycle of their entry cells. */
module SyncMapSafety {
  import opened MapTypes
  import opened SyncMapModel
  import opened SyncMapInvariant
  import opened SyncMapRuns
  import opened SyncMapLinearizability

  // ----- Between operations ------------------------------------------------------------------

  /**
   Whenever the lock is free: without `amended` nothing is pending and nothing is expunged; with it,
   a published key is pending (as the same cell) exactly when its cell is not expunged, a key that is
   only pending holds a value, and fewer misses were counted than there are pending keys.
   */
  lemma LockFree(b: Run, n: nat)
    requires Valid(b) && n < |b.states| && ShAt(b, n).lock == None
    ensures var sh := ShAt(b, n);
      if sh.read.amended then
        && (forall k | k in sh.read.m ::
              Get(sh.dirty, k) == if At(sh, sh.read.m[k]) == Expunged then None else Some(sh.read.m[k]))
        && (forall k | k in sh.dirty && k !in sh.read.m :: k in AbsMap(sh))
        && sh.misses < |sh.dirty|
      else
        && (forall k | k in sh.read.m :: At(sh, sh.read.m[k]) != Expunged)
        && sh.dirty == map[] && sh.misses == 0
  {
    Invariant(b, n);
    var sh := ShAt(b, n);
    if sh.read.amended {
      forall k | k in sh.dirty && k !in sh.read.m ensures k in AbsMap(sh) {
        MapIsView(sh, k);
      }
    }
  }

  /** Distinct keys never share a cell, in either map. */
  lemma CellsNotShared(b: Run, n: nat, k: Key, k': Key)
    requires Valid(b) && n < |b.states|
    requires CellAt(ShAt(b, n), k).Some? && CellAt(ShAt(b, n), k) == CellAt(ShAt(b, n), k')
    ensures k == k'
  {
    Invariant(b, n);
  }

  // ----- Cells over time ---------------------------------------------------------------------

  lemma StepGuarantee(b: Run, n: nat)
    requires Valid(b) && n < |b.who|
    ensures Wf(ShAt(b, n)) && Wf(ShAt(b, n + 1)) && Guarantee(ShAt(b, n), ShAt(b, n + 1), b.who[n])
  {
    Invariant(b, n);
    StepAfter(b, n);
  }

  /**
   A cell that was ever published for a key is, unless expunged, still the published cell of that
   key: writing through an arbitrarily old snapshot writes to the live map.
   */
  lemma {:induction false} StaleSnapshotIsLive(b: Run, i: nat, n: nat, k: Key)
    requires Valid(b) && i <= n < |b.states| && k in ShAt(b, i).read.m
    ensures FromSnapshot(ShAt(b, n), k, ShAt(b, i).read.m[k])
  {
    if i == n {
      Invariant(b, n);
    } else {
      StaleSnapshotIsLive(b, i, n - 1, k);
      StepGuarantee(b, n - 1);
      FromSnapshotStable(ShAt(b, n - 1), ShAt(b, n), b.who[n - 1], k, ShAt(b, i).read.m[k]);
    }
  }

  /** An expunged cell that is out of the published snapshot. */
  ghost predicate Dead(sh: Shared, c: CellId) {
    c < |sh.cells| == |sh.meta| && sh.cells[c] == Expunged && !InRead(sh, sh.meta[c].key, c)
  }

  /** It stays so for ever: only published cells are unexpunged. */
  lemma {:induction false} DeadStaysDead(b: Run, i: nat, n: nat, c: CellId)
    requires Valid(b) && i <= n < |b.states| && Dead(ShAt(b, i), c)
    ensures Dead(ShAt(b, n), c)
  {
    if i < n {
      DeadStaysDead(b, i, n - 1, c);
      StepGuarantee(b, n - 1);
      var sh, sh' := ShAt(b, n - 1), ShAt(b, n);
      assert sh'.meta[c].key == sh.meta[c].key;
    }
  }

  /**
   An entry cell that load_and_delete took out of `dirty` is frozen: however many steps the other
   threads make, it keeps the value it holds.
   */
  lemma {:induction false} RemovedIsFrozen(b: Run, i: nat, n: nat, t: Tid, k: Key, e: CellId)
    requires Valid(b) && i <= n < |b.states| && Frozen(ShAt(b, i), t, k, e)
    requires forall j | i <= j < n :: b.who[j] != t
    ensures Frozen(ShAt(b, n), t, k, e) && At(ShAt(b, n), e) == At(ShAt(b, i), e)
  {
    if i < n {
      RemovedIsFrozen(b, i, n - 1, t, k, e);
      StepGuarantee(b, n - 1);
      FrozenStable(ShAt(b, n - 1), ShAt(b, n), b.who[n - 1], t, k, e);
    }
  }

  /**
   The remover, about to empty such a cell, still finds in it the value its key had at the instant
   `m` of the removal, whatever was stored under that key since.
   */
  lemma RemoverFindsOldValue(b: Run, n: nat, t: Tid) returns (m: nat)
    requires Valid(b) && n < |b.states| && Running(b, n, t) && OpAt(b, n, t).LoadAndDelete?
    requires EffectsUpTo(b, n, t) != []
    requires b.states[n].pcs[t].AtEntry? || b.states[n].pcs[t].Cas?
    ensures m < n && EffectAt(b, m, n, t)
    ensures var e := b.states[n].pcs[t].e;
            Frozen(ShAt(b, n), t, OpAt(b, n, t).key, e)
            && Get(AbsMap(ShAt(b, m)), OpAt(b, n, t).key) == Value(At(ShAt(b, n), e))
  {
    Invariant(b, n);
    m := EffectWitness(b, n, t);
    SameOp(b, m, n, t);
    MapIsView(ShAt(b, m), OpAt(b, n, t).key);
  }

  // ----- Boxes -------------------------------------------------------------------------------

  ghost predicate Hidden(sh: Shared, x: Box) {
    forall k :: View(sh, k) != Some(x)
  }

  /** An operation that brought the box `x` and has not stored it. */
  ghost predicate Brings(b: Run, n: nat, t: Tid, x: Box)
    requires |b.states| == |b.who| + 1 && n < |b.states|
  {
    Running(b, n, t) && HasBox(OpAt(b, n, t)) && OpAt(b, n, t).box == x && EffectsUpTo(b, n, t) == []
  }

  /** Whoever brings a box brought it a step ago, or has just allocated it. */
  lemma BringsStep(b: Run, n: nat, t: Tid, x: Box)
    requires Valid(b) && n < |b.who| && Brings(b, n + 1, t, x)
    ensures Brings(b, n, t, x)
            || (b.who[n] == t && x == |ShAt(b, n).boxes|
                && ShAt(b, n + 1) == ShAt(b, n).(boxes := ShAt(b, n).boxes + [t]))
  {
    assert StepAt(b, n);
    var s, s', u := b.states[n], b.states[n + 1], b.who[n];
    StepMoves(s.sh, s.pcs[u], s'.sh, s'.pcs[u], u);
    if Running(b, n, t) { EffectsGrow(b, n, n + 1, t); }
  }

  lemma OwnStepHides(sh: Shared, sh': Shared, t: Tid, x: Box)
    requires Wf(sh) && Wf(sh') && Guarantee(sh, sh', t) && Unpublished(sh, t, x)
    requires SameMap(sh, sh')
    ensures Unpublished(sh', t, x)
  {
    forall c | 0 <= c < |sh'.cells| ensures sh'.cells[c] != Ptr(x) {
      if sh'.cells[c] == Ptr(x) {
        assert Current(sh', c);
        MapIsView(sh, sh'.meta[c].key);
        MapIsView(sh', sh'.meta[c].key);
      }
    }
  }

  lemma StillUnpublished(b: Run, n: nat, t: Tid, x: Box)
    requires Valid(b) && n < |b.who| && Brings(b, n, t, x) && Brings(b, n + 1, t, x)
    requires Unpublished(ShAt(b, n), t, x)
    ensures Unpublished(ShAt(b, n + 1), t, x)
  {
    StepGuarantee(b, n);
    var sh, sh', u := ShAt(b, n), ShAt(b, n + 1), b.who[n];
    if u != t {
      UnpublishedStable(sh, sh', u, t, x);
    } else {
      StepEffect(b, n);
      OwnStepHides(sh, sh', t, x);
    }
  }

  /** As long as an operation has not stored its box, no cell holds that box. */
  lemma {:induction false} BroughtIsUnpublished(b: Run, n: nat, t: Tid, x: Box)
    requires Valid(b) && n < |b.states| && Brings(b, n, t, x)
    ensures Unpublished(ShAt(b, n), t, x)
  {
    assert n > 0;
    BringsStep(b, n - 1, t, x);
    if Brings(b, n - 1, t, x) {
      BroughtIsUnpublished(b, n - 1, t, x);
      StillUnpublished(b, n - 1, t, x);
    } else {
      StepGuarantee(b, n - 1);
    }
  }

  /** A box that the map no longer shows and that no operation is still going to store. */
  ghost predicate Retired(b: Run, n: nat, x: Box)
    requires |b.states| == |b.who| + 1 && n < |b.states|
  {
    x < |ShAt(b, n).boxes| && Hidden(ShAt(b, n), x) && forall t :: !Brings(b, n, t, x)
  }

  lemma HiddenStep(b: Run, n: nat, x: Box)
    requires Valid(b) && n < |b.who| && Hidden(ShAt(b, n), x) && !Brings(b, n, b.who[n], x)
    ensures Hidden(ShAt(b, n + 1), x)
  {
    StepEffect(b, n);
    var sh, sh' := ShAt(b, n), ShAt(b, n + 1);
    forall k ensures View(sh', k) != Some(x) {
      MapIsView(sh, k);
      MapIsView(sh', k);
    }
  }

  lemma {:induction false} RetiredForever(b: Run, m: nat, n: nat, x: Box)
    requires Valid(b) && m <= n < |b.states| && Retired(b, m, x)
    ensures Retired(b, n, x)
  {
    if m < n {
      RetiredForever(b, m, n - 1, x);
      HiddenStep(b, n - 1, x);
      StepGuarantee(b, n - 1);
      forall t ensures !Brings(b, n, t, x) {
        if Brings(b, n, t, x) { BringsStep(b, n - 1, t, x); }
      }
    }
  }

  /** A box sits in one cell, so taking its key out hides it. */
  lemma RemovalHides(sh: Shared, sh': Shared, key: Key, x: Box)
    requires Wf(sh) && View(sh, key) == Some(x) && AbsMap(sh') == AbsMap(sh) - {key}
    ensures Hidden(sh', x) && x < |sh.boxes|
  {
    forall k ensures View(sh', k) != Some(x) {
      MapIsView(sh, k);
      MapIsView(sh', k);
      if k != key && View(sh, k) == Some(x) {
        assert CellAt(sh, k) == CellAt(sh, key);
      }
    }
  }

  /** No operation is still to store a box that the map shows. */
  lemma ShownIsNotBrought(b: Run, m: nat, u: Tid, key: Key, x: Box)
    requires Valid(b) && m < |b.who| && View(ShAt(b, m), key) == Some(x) && x < |ShAt(b, m).boxes|
    ensures !Brings(b, m + 1, u, x)
  {
    if Brings(b, m + 1, u, x) {
      BringsStep(b, m, u, x);
      BroughtIsUnpublished(b, m, u, x);
      UnpublishedIsHidden(ShAt(b, m), u, x);
    }
  }

  lemma NoBringers(b: Run, m: nat, n: nat, key: Key, x: Box)
    requires Valid(b) && m < |b.who| && n == m + 1 && View(ShAt(b, m), key) == Some(x) && x < |ShAt(b, m).boxes|
    ensures forall u :: !Brings(b, n, u, x)
  {
    forall u ensures !Brings(b, n, u, x) {
      ShownIsNotBrought(b, m, u, key, x);
    }
  }

  lemma HiddenAfter(b: Run, m: nat, key: Key, x: Box)
    requires Valid(b) && m < |b.who| && View(ShAt(b, m), key) == Some(x)
    requires AbsMap(ShAt(b, m + 1)) == AbsMap(ShAt(b, m)) - {key}
    ensures Hidden(ShAt(b, m + 1), x) && x < |ShAt(b, m).boxes| <= |ShAt(b, m + 1).boxes|
  {
    StepGuarantee(b, m);
    RemovalHides(ShAt(b, m), ShAt(b, m + 1), key, x);
  }

  lemma RemovalRetires(b: Run, m: nat, key: Key, x: Box)
    requires Valid(b) && m < |b.who| && View(ShAt(b, m), key) == Some(x)
    requires AbsMap(ShAt(b, m + 1)) == AbsMap(ShAt(b, m)) - {key}
    ensures Retired(b, m + 1, x)
  {
    HiddenAfter(b, m, key, x);
    NoBringers(b, m, m + 1, key, x);
  }

  /** A box that a load_and_delete takes out of the map is retired by that very step. */
  lemma DeletionRetires(b: Run, m: nat, t: Tid, x: Box)
    requires Valid(b) && m < |b.who| && EffectiveStep(b, m, t) && OpAt(b, m, t).LoadAndDelete?
    requires View(ShAt(b, m), OpAt(b, m, t).key) == Some(x)
    ensures Retired(b, m + 1, x)
  {
    RemovalRetires(b, m, OpAt(b, m, t).key, x);
  }

  lemma UnpublishedIsHidden(sh: Shared, t: Tid, x: Box)
    requires Unpublished(sh, t, x)
    ensures Hidden(sh, x)
  {
  }

  predicate DeletedBox(b: Run, n: nat, t: Tid, x: Box)
    requires n < |b.states|
  {
    && t in b.states[n].pcs && b.states[n].pcs[t].Done?
    && b.states[n].pcs[t].op.LoadAndDelete? && b.states[n].pcs[t].r == Got(Some(x))
  }

  lemma DeletionPoint(b: Run, n: nat, t: Tid, x: Box) returns (m: nat)
    requires Valid(b) && n < |b.states| && DeletedBox(b, n, t, x)
    ensures m < n && EffectAt(b, m, n, t) && OpAt(b, m, t).LoadAndDelete?
    ensures View(ShAt(b, m), OpAt(b, m, t).key) == Some(x)
  {
    Invariant(b, n);
    assert ResultOk(OpAt(b, n, t), Got(Some(x)), SeenUpTo(b, n, t), EffectsUpTo(b, n, t));
    m := EffectWitness(b, n, t);
    SameOp(b, m, n, t);
  }

  /** No two delete operations ever return the same stored value. */
  lemma DeletersDisjoint(b: Run, n1: nat, t1: Tid, n2: nat, t2: Tid, x: Box)
    requires Valid(b) && n1 <= n2 < |b.states|
    requires DeletedBox(b, n1, t1, x) && DeletedBox(b, n2, t2, x)
    ensures t1 == t2 && Throughout(b, n1, n2, t1) // it is one and the same operation
  {
    var m1 := DeletionPoint(b, n1, t1, x);
    var m2 := DeletionPoint(b, n2, t2, x);
    if m1 < m2 {
      DeletionRetires(b, m1, t1, x);
      RetiredForever(b, m1 + 1, m2, x);
    } else if m2 < m1 {
      DeletionRetires(b, m2, t2, x);
      RetiredForever(b, m2 + 1, m1, x);
    }
  }
}
