/**
 The map used by one caller at a time, as values: what each operation does to the two hash maps and
 their shared entry cells, and that all of them together behave as one plain map.
 */
module SyncMapSpec {
  import opened MapTypes

  datatype Slot<V> = Null | Expunged | Stored(v: V)

  datatype Maps<V> = Maps(
    readM: map<Key, nat>,
    amended: bool,
    dirty: map<Key, nat>,
    misses: nat,
    cells: seq<Slot<V>>,
    owner: seq<Key>, // auxiliary: the key each cell was made for
    copied: nat,     // auxiliary: entries iterated by all rebuilds of `dirty`
    missed: nat,     // auxiliary: misses counted
    scanned: nat)    // auxiliary: entries iterated by keys, values and key_values

  function At<V>(s: Maps<V>, e: nat): Slot<V> {
    if e < |s.cells| then s.cells[e] else Null
  }

  function Value<V>(p: Slot<V>): Option<V> {
    if p.Stored? then Some(p.v) else None
  }

  function CellAt<V>(s: Maps<V>, k: Key): Option<nat> {
    if k in s.readM then Some(s.readM[k]) else Get(s.dirty, k)
  }

  /** What a reader of `k` finds. */
  function View<V>(s: Maps<V>, k: Key): Option<V> {
    if CellAt(s, k).Some? then Value(At(s, CellAt(s, k).value)) else None
  }

  /** The two maps and their cells stand for the plain map `m`. */
  ghost predicate Means<V>(s: Maps<V>, m: map<Key, V>) {
    forall k :: Get(m, k) == View(s, k)
  }

  // ----- Invariant ---------------------------------------------------------------------------

  /** A cell belongs to one key. */
  ghost predicate Owned<V>(s: Maps<V>, m: map<Key, nat>) {
    |s.owner| == |s.cells| && forall k | k in m :: m[k] < |s.cells| && s.owner[m[k]] == k
  }

  ghost predicate Coupled<V>(s: Maps<V>) {
    && (forall k | k in s.readM :: k in s.dirty <==> At(s, s.readM[k]) != Expunged)
    && (forall k | k in s.readM && k in s.dirty :: s.dirty[k] == s.readM[k])
    && (forall k | k in s.dirty && k !in s.readM :: At(s, s.dirty[k]).Stored?)
  }

  ghost predicate Clean<V>(s: Maps<V>) {
    s.dirty == map[] && forall k | k in s.readM :: At(s, s.readM[k]) != Expunged
  }

  ghost predicate WellOwned<V>(s: Maps<V>) {
    Owned(s, s.readM) && Owned(s, s.dirty)
  }

  /** Between two operations: promotion comes before there are as many misses as pending keys. */
  ghost predicate Quiet<V>(s: Maps<V>) {
    && WellOwned(s)
    && if s.amended then Coupled(s) && s.misses < |s.dirty| else Clean(s) && s.misses == 0
  }

  /** Every entry a rebuild has copied, or the next one will, was paid for by a miss or a scan. */
  predicate Paid<V>(s: Maps<V>) {
    s.copied + (if s.amended then s.misses else |s.readM|) <= s.missed + s.scanned
  }

  // ----- Moving the maps ---------------------------------------------------------------------

  function SetCell<V>(s: Maps<V>, e: nat, p: Slot<V>): Maps<V> {
    if e < |s.cells| then s.(cells := s.cells[e := p]) else s
  }

  function Promote<V>(s: Maps<V>): Maps<V> {
    s.(readM := s.dirty, amended := false, dirty := map[], misses := 0)
  }

  function Counted<V>(s: Maps<V>): Maps<V> {
    s.(misses := s.misses + 1, missed := s.missed + 1)
  }

  function Miss<V>(s: Maps<V>): Maps<V> {
    if s.misses + 1 >= |s.dirty| then Promote(Counted(s)) else Counted(s)
  }

  /** The rebuild turns exactly the null cells of the snapshot into expunged ones ... */
  function Swept<V>(s: Maps<V>): seq<Slot<V>> {
    seq(|s.cells|, e requires 0 <= e < |s.cells| =>
      if s.cells[e] == Null && e in s.readM.Values then Expunged else s.cells[e])
  }

  /** ... and shares exactly the others with the new `dirty`. */
  function Kept<V>(s: Maps<V>): map<Key, nat> {
    map k | k in s.readM && At(s, s.readM[k]).Stored? :: s.readM[k]
  }

  /** A rebuild of `s` that has yet to look at the keys `todo`. */
  ghost predicate SweptSoFar<V>(s: Maps<V>, todo: set<Key>, cells: seq<Slot<V>>, acc: map<Key, nat>) {
    && Owned(s, s.readM) && |cells| == |s.cells| && todo <= s.readM.Keys
    && (forall k | k in s.readM ::
          cells[s.readM[k]] == if k !in todo && s.cells[s.readM[k]] == Null then Expunged else s.cells[s.readM[k]])
    && (forall e | 0 <= e < |cells| && e !in s.readM.Values :: cells[e] == s.cells[e])
    && (forall k :: k in acc <==> k in s.readM && k !in todo && s.cells[s.readM[k]].Stored?)
    && (forall k | k in acc :: acc[k] == s.readM[k])
  }

  /** try_expunge_locked on the cell of one more key, which is kept if that fails. */
  lemma SweepNext<V>(s: Maps<V>, todo: set<Key>, cells: seq<Slot<V>>, acc: map<Key, nat>, k: Key, cells': seq<Slot<V>>)
    requires SweptSoFar(s, todo, cells, acc) && k in todo
    requires cells' == if cells[s.readM[k]].Stored? then cells else cells[s.readM[k] := Expunged]
    ensures SweptSoFar(s, todo - {k}, cells', if cells[s.readM[k]].Stored? then acc[k := s.readM[k]] else acc)
  {
    assert s.owner[s.readM[k]] == k;
  }

  lemma SweepDone<V>(s: Maps<V>, cells: seq<Slot<V>>, acc: map<Key, nat>)
    requires SweptSoFar(s, {}, cells, acc)
    ensures cells == Swept(s) && acc == Kept(s)
  {
  }

  function Rebuild<V>(s: Maps<V>): Maps<V> {
    s.(dirty := Kept(s), cells := Swept(s), copied := s.copied + |s.readM|)
  }

  /** `dirty` made current before a key that neither map knows goes in. */
  function Amend<V>(s: Maps<V>): Maps<V> {
    if s.amended then s else Rebuild(s).(amended := true)
  }

  function AddEntry<V>(s: Maps<V>, k: Key, v: V): Maps<V> {
    s.(dirty := s.dirty[k := |s.cells|], cells := s.cells + [Stored(v)], owner := s.owner + [k])
  }

  /** Under the lock, an expunged cell of the snapshot comes back to both maps. */
  function Revive<V>(s: Maps<V>, k: Key): Maps<V>
    requires k in s.readM
  {
    if At(s, s.readM[k]) == Expunged then SetCell(s.(dirty := s.dirty[k := s.readM[k]]), s.readM[k], Null) else s
  }

  // ----- The operations ----------------------------------------------------------------------

  function Loaded<V>(s: Maps<V>, k: Key): Maps<V> {
    if k !in s.readM && s.amended then Miss(s) else s
  }

  function StoredAt<V>(s: Maps<V>, k: Key, v: V): Maps<V> {
    if k in s.readM then SetCell(Revive(s, k), s.readM[k], Stored(v))
    else if k in s.dirty then SetCell(s, s.dirty[k], Stored(v))
    else AddEntry(Amend(s), k, v)
  }

  function LoadedOrStored<V>(s: Maps<V>, k: Key, v: V): Maps<V> {
    if k in s.readM then (if At(s, s.readM[k]).Stored? then s else SetCell(Revive(s, k), s.readM[k], Stored(v)))
    else if k in s.dirty then Miss(s)
    else AddEntry(Amend(s), k, v)
  }

  /** The answer of load_or_store: a fresh insertion answers with the new value, a refill with nothing. */
  function LoadOrStoreResult<V>(s: Maps<V>, k: Key, v: V): Option<V> {
    if k in s.readM || k in s.dirty then View(s, k) else Some(v)
  }

  function Deleted<V>(s: Maps<V>, k: Key): Maps<V> {
    if k in s.readM then (if At(s, s.readM[k]).Stored? then SetCell(s, s.readM[k], Null) else s)
    else if s.amended && k in s.dirty then SetCell(Miss(Removed(s, k)), s.dirty[k], Null)
    else if s.amended then Miss(s)
    else s
  }

  function Removed<V>(s: Maps<V>, k: Key): Maps<V> {
    s.(dirty := s.dirty - {k})
  }

  /** What a scan goes through: the snapshot, once a pending `dirty` has become it. */
  function Settled<V>(s: Maps<V>): Maps<V> {
    if s.amended then Promote(s) else s
  }

  function Scanned<V>(s: Maps<V>): Maps<V> {
    var c := Settled(s);
    c.(scanned := c.scanned + |c.readM|)
  }

  // ----- They act as one plain map -----------------------------------------------------------

  lemma MeaningIsUnique<V>(s: Maps<V>, m: map<Key, V>, m': map<Key, V>)
    requires Means(s, m) && Means(s, m')
    ensures m == m'
  {
    assert forall k :: Get(m, k) == Get(m', k);
    assert forall k :: (k in m <==> Get(m, k).Some?) && (k in m' <==> Get(m', k).Some?);
  }

  /** Promotion keeps the meaning: what it drops is expunged, what it keeps are the same cells. */
  lemma PromoteQuiet<V>(s: Maps<V>, m: map<Key, V>)
    requires WellOwned(s) && Coupled(s) && Means(s, m)
    ensures Quiet(Promote(s)) && Means(Promote(s), m)
  {
    forall k ensures View(Promote(s), k) == View(s, k) {
    }
  }

  lemma CountQuiet<V>(s: Maps<V>, m: map<Key, V>)
    requires WellOwned(s) && Coupled(s) && Means(s, m)
    ensures WellOwned(Counted(s)) && Coupled(Counted(s)) && Means(Counted(s), m)
  {
    assert forall k :: View(Counted(s), k) == View(s, k);
  }

  lemma MissQuiet<V>(s: Maps<V>, m: map<Key, V>)
    requires WellOwned(s) && s.amended && Coupled(s) && s.misses <= |s.dirty| && Means(s, m)
    ensures Quiet(Miss(s)) && Means(Miss(s), m)
  {
    CountQuiet(s, m);
    var c := Counted(s);
    if s.misses + 1 >= |s.dirty| { PromoteQuiet(c, m); }
    else { assert c.amended && c.misses < |c.dirty|; }
  }

  lemma MissPaid<V>(s: Maps<V>)
    requires Paid(s) && s.amended
    ensures Paid(Miss(s))
  {
  }

  lemma RebuildCoupled<V>(s: Maps<V>, m: map<Key, V>)
    requires Quiet(s) && !s.amended && Means(s, m)
    ensures WellOwned(Amend(s)) && Coupled(Amend(s)) && Means(Amend(s), m)
    ensures Amend(s).misses <= |Amend(s).dirty| && Amend(s).amended && Amend(s).dirty.Keys <= s.readM.Keys
  {
    var s' := Amend(s);
    forall k ensures View(s', k) == View(s, k) {
    }
  }

  function Put<V>(m: map<Key, V>, k: Key, x: Option<V>): map<Key, V> {
    if x.Some? then m[k := x.value] else m - {k}
  }

  /** A state whose readers differ at most at `k` means the map that differs at most at `k`. */
  lemma MeansPut<V>(s: Maps<V>, s': Maps<V>, m: map<Key, V>, k: Key)
    requires Means(s, m) && forall l | l != k :: View(s', l) == View(s, l)
    ensures Means(s', Put(m, k, View(s', k)))
  {
    var m' := Put(m, k, View(s', k));
    forall l ensures Get(m', l) == View(s', l) {
      assert Get(m, l) == View(s, l);
    }
  }

  /** Writing the current cell of `k` writes the plain map at `k` and nowhere else. */
  lemma SetCellMeans<V>(s: Maps<V>, k: Key, p: Slot<V>, m: map<Key, V>)
    requires WellOwned(s) && Means(s, m) && CellAt(s, k).Some?
    ensures Means(SetCell(s, CellAt(s, k).value, p), Put(m, k, Value(p)))
  {
    var s' := SetCell(s, CellAt(s, k).value, p);
    forall l | l != k ensures View(s', l) == View(s, l) {
      if CellAt(s, l).Some? { assert s.owner[CellAt(s, l).value] == l; }
    }
    MeansPut(s, s', m, k);
  }

  /** ... and a live cell stays coupled, as long as no key is left to `dirty` alone without a value. */
  lemma SetCellQuiet<V>(s: Maps<V>, k: Key, p: Slot<V>)
    requires Quiet(s) && CellAt(s, k).Some? && At(s, CellAt(s, k).value) != Expunged
    requires p != Expunged && (k !in s.readM ==> p.Stored?)
    ensures Quiet(SetCell(s, CellAt(s, k).value, p))
  {
    var e := CellAt(s, k).value;
    var s' := SetCell(s, e, p);
    assert forall d: nat | d != e :: At(s', d) == At(s, d);
    assert s.owner[e] == k;
  }

  lemma ReviveQuiet<V>(s: Maps<V>, k: Key, m: map<Key, V>)
    requires Quiet(s) && k in s.readM && Means(s, m)
    ensures Quiet(Revive(s, k)) && Means(Revive(s, k), m)
    ensures At(Revive(s, k), s.readM[k]) != Expunged && Revive(s, k).readM == s.readM
  {
    var e := s.readM[k];
    var s' := Revive(s, k);
    if At(s, e) == Expunged {
      assert s.owner[e] == k;
      assert forall d: nat | d != e :: At(s', d) == At(s, d);
      assert s'.dirty.Keys == s.dirty.Keys + {k};
      ReviveMeans(s, k, m);
    }
  }

  lemma ReviveMeans<V>(s: Maps<V>, k: Key, m: map<Key, V>)
    requires WellOwned(s) && k in s.readM && Means(s, m)
    ensures Means(Revive(s, k), m)
  {
    forall l ensures View(Revive(s, k), l) == View(s, l) {
      if CellAt(s, l).Some? { assert s.owner[CellAt(s, l).value] == l; }
    }
  }

  lemma AddCoupled<V>(s: Maps<V>, k: Key, v: V)
    requires WellOwned(s) && Coupled(s) && k !in s.readM
    ensures Coupled(AddEntry(s, k, v))
  {
    var s' := AddEntry(s, k, v);
    assert forall d: nat | d < |s.cells| :: At(s', d) == At(s, d);
  }

  lemma AddOwned<V>(s: Maps<V>, k: Key, v: V)
    requires WellOwned(s)
    ensures WellOwned(AddEntry(s, k, v))
  {
  }

  lemma AddedSize<V>(s: Maps<V>, k: Key, v: V)
    requires k !in s.dirty
    ensures |AddEntry(s, k, v).dirty| == |s.dirty| + 1
  {
    assert AddEntry(s, k, v).dirty.Keys == s.dirty.Keys + {k};
  }

  lemma AddQuiet<V>(s: Maps<V>, k: Key, v: V)
    requires WellOwned(s) && s.amended && Coupled(s) && s.misses <= |s.dirty| && k !in s.readM && k !in s.dirty
    ensures Quiet(AddEntry(s, k, v))
  {
    AddCoupled(s, k, v);
    AddOwned(s, k, v);
    AddedSize(s, k, v);
  }

  lemma AddMeans<V>(s: Maps<V>, k: Key, v: V, m: map<Key, V>)
    requires WellOwned(s) && k !in s.readM && k !in s.dirty && Means(s, m)
    ensures Means(AddEntry(s, k, v), m[k := v]) && k !in m
  {
    var s' := AddEntry(s, k, v);
    assert Get(m, k) == View(s, k);
    forall l | l != k ensures View(s', l) == View(s, l) {
      assert CellAt(s', l) == CellAt(s, l);
    }
    MeansPut(s, s', m, k);
  }

  // ----- The operations ----------------------------------------------------------------------

  lemma LoadRefines<V>(s: Maps<V>, k: Key, m: map<Key, V>)
    requires Quiet(s) && Means(s, m)
    ensures Quiet(Loaded(s, k)) && Means(Loaded(s, k), m) && View(s, k) == Get(m, k)
  {
    assert Get(m, k) == View(s, k);
    if k !in s.readM && s.amended { MissQuiet(s, m); }
  }

  lemma InsertRefines<V>(s: Maps<V>, k: Key, v: V, m: map<Key, V>)
    requires Quiet(s) && Means(s, m) && k !in s.readM && k !in s.dirty
    ensures Quiet(AddEntry(Amend(s), k, v)) && Means(AddEntry(Amend(s), k, v), m[k := v]) && k !in m
  {
    if !s.amended { RebuildCoupled(s, m); }
    AddQuiet(Amend(s), k, v);
    AddMeans(Amend(s), k, v, m);
  }

  lemma RefillRefines<V>(s: Maps<V>, k: Key, v: V, m: map<Key, V>)
    requires Quiet(s) && Means(s, m) && k in s.readM
    ensures Quiet(SetCell(Revive(s, k), s.readM[k], Stored(v)))
    ensures Means(SetCell(Revive(s, k), s.readM[k], Stored(v)), m[k := v])
  {
    ReviveQuiet(s, k, m);
    SetCellQuiet(Revive(s, k), k, Stored(v));
    SetCellMeans(Revive(s, k), k, Stored(v), m);
  }

  lemma StoreRefines<V>(s: Maps<V>, k: Key, v: V, m: map<Key, V>)
    requires Quiet(s) && Means(s, m)
    ensures Quiet(StoredAt(s, k, v)) && Means(StoredAt(s, k, v), m[k := v])
  {
    if k in s.readM {
      RefillRefines(s, k, v, m);
    } else if k in s.dirty {
      SetCellQuiet(s, k, Stored(v));
      SetCellMeans(s, k, Stored(v), m);
    } else {
      InsertRefines(s, k, v, m);
    }
  }

  /** load_or_store never overwrites, and answers with what is there, or with nothing or its own value. */
  lemma LoadOrStoreRefines<V>(s: Maps<V>, k: Key, v: V, m: map<Key, V>)
    requires Quiet(s) && Means(s, m)
    ensures Quiet(LoadedOrStored(s, k, v))
    ensures Means(LoadedOrStored(s, k, v), if k in m then m else m[k := v])
    ensures LoadOrStoreResult(s, k, v)
            == if k in m then Some(m[k]) else if k in s.readM then None else Some(v)
  {
    assert Get(m, k) == View(s, k);
    if k in s.readM {
      if !At(s, s.readM[k]).Stored? { RefillRefines(s, k, v, m); }
    } else if k in s.dirty {
      MissQuiet(s, m);
    } else {
      InsertRefines(s, k, v, m);
    }
  }

  lemma DeleteRefines<V>(s: Maps<V>, k: Key, m: map<Key, V>)
    requires Quiet(s) && Means(s, m)
    ensures Quiet(Deleted(s, k)) && Means(Deleted(s, k), m - {k}) && View(s, k) == Get(m, k)
  {
    assert Get(m, k) == View(s, k);
    if k in s.readM {
      if At(s, s.readM[k]).Stored? {
        SetCellQuiet(s, k, Null);
        SetCellMeans(s, k, Null, m);
      }
    } else if s.amended {
      DeletePendingRefines(s, k, m);
    }
  }

  lemma RemoveCoupled<V>(s: Maps<V>, k: Key)
    requires WellOwned(s) && Coupled(s) && k in s.dirty && k !in s.readM
    ensures WellOwned(Removed(s, k)) && Coupled(Removed(s, k)) && |Removed(s, k).dirty| == |s.dirty| - 1
  {
    assert Removed(s, k).dirty.Keys == s.dirty.Keys - {k};
  }

  lemma RemoveMeans<V>(s: Maps<V>, k: Key, m: map<Key, V>)
    requires Means(s, m) && k !in s.readM
    ensures Means(Removed(s, k), m - {k})
  {
    var c := Removed(s, k);
    forall l | l != k ensures View(c, l) == View(s, l) { assert CellAt(c, l) == CellAt(s, l); }
    assert View(c, k) == None;
    MeansPut(s, c, m, k);
  }

  /** A cell of neither map can be emptied without anyone noticing. */
  lemma OrphanQuiet<V>(c: Maps<V>, k: Key, e: nat, m: map<Key, V>)
    requires Quiet(c) && Means(c, m) && k !in c.readM && k !in c.dirty && e < |c.cells| && c.owner[e] == k
    ensures Quiet(SetCell(c, e, Null)) && Means(SetCell(c, e, Null), m)
  {
    var c' := SetCell(c, e, Null);
    assert forall d: nat | d != e :: At(c', d) == At(c, d);
    forall l ensures View(c', l) == View(c, l) {
      if CellAt(c, l).Some? { assert c.owner[CellAt(c, l).value] == l; }
    }
  }

  /** Removing an entry that only `dirty` holds, then emptying its orphaned cell. */
  lemma DeletePendingRefines<V>(s: Maps<V>, k: Key, m: map<Key, V>)
    requires Quiet(s) && Means(s, m) && s.amended && k !in s.readM
    ensures Quiet(Deleted(s, k)) && Means(Deleted(s, k), m - {k})
  {
    if k in s.dirty {
      RemoveCoupled(s, k);
      RemoveMeans(s, k, m);
      var c := Removed(s, k);
      MissQuiet(c, m - {k});
      OrphanQuiet(Miss(c), k, s.dirty[k], m - {k});
    } else {
      MissQuiet(s, m);
      assert Get(m, k) == View(s, k);
      assert m - {k} == m;
    }
  }

  lemma SettleRefines<V>(s: Maps<V>, m: map<Key, V>)
    requires Quiet(s) && Means(s, m)
    ensures Quiet(Settled(s)) && Means(Settled(s), m) && !Settled(s).amended
  {
    if s.amended { PromoteQuiet(s, m); }
  }

  lemma ScanRefines<V>(s: Maps<V>, m: map<Key, V>)
    requires Quiet(s) && Means(s, m)
    ensures Quiet(Scanned(s)) && Means(Scanned(s), m) && !Scanned(s).amended
  {
    SettleRefines(s, m);
    forall k ensures Get(m, k) == View(Scanned(s), k) { assert Get(m, k) == View(Settled(s), k); }
  }

  /** The snapshot on its own is exactly the plain map `m`. */
  ghost predicate Snapshot<V>(s: Maps<V>, m: map<Key, V>) {
    && (forall k | k in s.readM :: s.readM[k] < |s.cells| && Get(m, k) == Value(s.cells[s.readM[k]]))
    && m.Keys <= s.readM.Keys
  }

  /** So it is after the promotion at the head of a scan: nothing is pending, nothing expunged. */
  lemma SnapshotIsPlain<V>(s: Maps<V>, m: map<Key, V>)
    requires Quiet(s) && Means(s, m) && !s.amended
    ensures Snapshot(s, m)
  {
    forall k ensures Get(m, k) == if k in s.readM then Value(At(s, s.readM[k])) else None {
      assert Get(m, k) == View(s, k);
    }
  }

  /** The present keys a scan has met so far. */
  function Met<V>(m: map<Key, V>, todo: set<Key>): set<Key> {
    set k | k in m && k !in todo
  }

  lemma MeetNext<V>(m: map<Key, V>, todo: set<Key>, k: Key)
    requires k in todo
    ensures multiset(Met(m, todo - {k})) == multiset(Met(m, todo)) + if k in m then multiset{k} else multiset{}
  {
    if k in m {
      assert Met(m, todo - {k}) == Met(m, todo) + {k};
    } else {
      assert Met(m, todo - {k}) == Met(m, todo);
    }
  }

  /** `ks` are the present keys met so far, each once, and `vs` their values. */
  ghost predicate Gathered<V>(m: map<Key, V>, todo: set<Key>, ks: seq<Key>, vs: seq<V>) {
    && multiset(ks) == multiset(Met(m, todo)) && |vs| == |ks|
    && forall i | 0 <= i < |vs| :: Get(m, ks[i]) == Some(vs[i])
  }

  lemma GatherNext<V>(m: map<Key, V>, todo: set<Key>, ks: seq<Key>, vs: seq<V>, k: Key)
    requires Gathered(m, todo, ks, vs) && k in todo
    ensures if k in m then Gathered(m, todo - {k}, ks + [k], vs + [m[k]]) else Gathered(m, todo - {k}, ks, vs)
  {
    MeetNext(m, todo, k);
  }

  lemma GatherDone<V>(m: map<Key, V>, ks: seq<Key>, vs: seq<V>)
    requires Gathered(m, {}, ks, vs)
    ensures multiset(ks) == multiset(m.Keys)
  {
    assert m.Keys == Met(m, {});
  }

  ghost predicate GatheredPairs<V>(m: map<Key, V>, todo: set<Key>, ks: seq<Key>, kvs: seq<(Key, V)>) {
    && multiset(ks) == multiset(Met(m, todo)) && |kvs| == |ks|
    && forall i | 0 <= i < |kvs| :: kvs[i].0 == ks[i] && Get(m, ks[i]) == Some(kvs[i].1)
  }

  lemma GatherPairsNext<V>(m: map<Key, V>, todo: set<Key>, ks: seq<Key>, kvs: seq<(Key, V)>, k: Key)
    requires GatheredPairs(m, todo, ks, kvs) && k in todo
    ensures if k in m then GatheredPairs(m, todo - {k}, ks + [k], kvs + [(k, m[k])])
            else GatheredPairs(m, todo - {k}, ks, kvs)
  {
    MeetNext(m, todo, k);
  }

  lemma GatherPairsDone<V>(m: map<Key, V>, ks: seq<Key>, kvs: seq<(Key, V)>)
    requires GatheredPairs(m, {}, ks, kvs)
    ensures multiset(ks) == multiset(m.Keys)
  {
    assert m.Keys == Met(m, {});
  }

  // ----- Work --------------------------------------------------------------------------------

  /** No operation spends more on copying than misses and scans have paid for. */
  lemma AmendPaid<V>(s: Maps<V>, k: Key, v: V)
    requires Quiet(s) && Paid(s)
    ensures Paid(AddEntry(Amend(s), k, v))
  {
  }

  lemma LoadPaid<V>(s: Maps<V>, k: Key)
    requires Paid(s)
    ensures Paid(Loaded(s, k))
  {
  }

  lemma StorePaid<V>(s: Maps<V>, k: Key, v: V)
    requires Quiet(s) && Paid(s)
    ensures Paid(StoredAt(s, k, v))
  {
    AmendPaid(s, k, v);
  }

  lemma LoadOrStorePaid<V>(s: Maps<V>, k: Key, v: V)
    requires Quiet(s) && Paid(s)
    ensures Paid(LoadedOrStored(s, k, v))
  {
    AmendPaid(s, k, v);
    if k in s.dirty && k !in s.readM { MissPaid(s); }
  }

  lemma DeletePaid<V>(s: Maps<V>, k: Key)
    requires Paid(s)
    ensures Paid(Deleted(s, k))
  {
    if s.amended { MissPaid(s); MissPaid(Removed(s, k)); }
  }

  lemma ScanPaid<V>(s: Maps<V>)
    requires Paid(s)
    ensures Paid(Scanned(s))
  {
  }

  lemma ScanReady<V>(s: Maps<V>, m: map<Key, V>)
    requires Quiet(s) && Paid(s) && Means(s, m)
    ensures Snapshot(Settled(s), m) && Quiet(Scanned(s)) && Paid(Scanned(s)) && Means(Scanned(s), m)
  {
    SettleRefines(s, m);
    SnapshotIsPlain(Settled(s), m);
    ScanRefines(s, m);
    ScanPaid(s);
  }

  /** So many entries copied, misses counted and entries scanned on the way from `s` to `t`. */
  predicate Spent<V>(s: Maps<V>, t: Maps<V>, copied: nat, missed: nat, scanned: nat) {
    t.copied == s.copied + copied && t.missed == s.missed + missed && t.scanned == s.scanned + scanned
  }

  lemma StoreSpends<V>(s: Maps<V>, k: Key, v: V)
    ensures Spent(s, StoredAt(s, k, v),
                  if k !in s.readM && k !in s.dirty && !s.amended then |s.readM| else 0, 0, 0)
  {
  }

  lemma LoadOrStoreSpends<V>(s: Maps<V>, k: Key, v: V)
    ensures Spent(s, LoadedOrStored(s, k, v),
                  if k !in s.readM && k !in s.dirty && !s.amended then |s.readM| else 0,
                  if k !in s.readM && k in s.dirty then 1 else 0, 0)
  {
  }

  lemma DeleteSpends<V>(s: Maps<V>, k: Key)
    ensures Spent(s, Deleted(s, k), 0, if s.amended && k !in s.readM then 1 else 0, 0)
  {
  }

  lemma ScanSpends<V>(s: Maps<V>)
    ensures Spent(s, Scanned(s), 0, 0, |Scanned(s).readM|)
  {
  }

  // ----- Promotion comes ---------------------------------------------------------------------

  function LoadAll<V>(s: Maps<V>, ks: seq<Key>): Maps<V> {
    if ks == [] then s else Loaded(LoadAll(s, ks[..|ks| - 1]), ks[|ks| - 1])
  }

  /**
   Loads of keys outside the snapshot only count, until there were as many misses as entries in
   `dirty`; exactly then `dirty` is promoted.
   */
  lemma {:induction false} PromotionComes<V>(s: Maps<V>, ks: seq<Key>)
    requires Quiet(s) && s.amended && |ks| <= |s.dirty| - s.misses
    requires forall k | k in ks :: k !in s.readM
    ensures LoadAll(s, ks) == if |ks| < |s.dirty| - s.misses
                              then s.(misses := s.misses + |ks|, missed := s.missed + |ks|)
                              else Promote(s).(missed := s.missed + |ks|)
  {
    if ks != [] {
      var before := ks[..|ks| - 1];
      assert forall k | k in before :: k in ks;
      PromotionComes(s, before);
      assert ks[|ks| - 1] in ks;
    }
  }
}
