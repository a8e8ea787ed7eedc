/**
 The map as a data structure used by one caller at a time. Its methods follow the code branch by
 branch, compare-exchange loops included; each is proved to do what the specification says to the
 two maps and their cells, and so to act on `contents` as on one plain map.
 */
module SyncMapClass {
  import opened MapTypes
  import opened SyncMapSpec
  import opened SyncMapCalls

  class SyncMap<V(==)> {
    var readM: map<Key, nat>
    var amended: bool
    var dirty: map<Key, nat>
    var misses: nat
    var cells: seq<Slot<V>> // the entry cells, shared by both maps

    ghost var owner: seq<Key>
    ghost var copied: nat
    ghost var missed: nat
    ghost var scanned: nat
    ghost var contents: map<Key, V> // the plain map it all stands for

    ghost function S(): Maps<V>
      reads this
    {
      Maps(readM, amended, dirty, misses, cells, owner, copied, missed, scanned)
    }

    ghost predicate Valid()
      reads this
    {
      Quiet(S()) && Paid(S()) && Means(S(), contents)
    }

    constructor ()
      ensures Valid() && contents == map[]
      ensures S() == Start()
    {
      readM, amended, dirty, misses := map[], false, map[], 0;
      cells, owner, contents := [], [], map[];
      copied, missed, scanned := 0, 0, 0;
    }

    // ----- Entry cells -----------------------------------------------------------------------

    method CompareExchange(e: nat, expected: Slot<V>, next: Slot<V>) returns (ok: bool)
      requires e < |cells|
      modifies this`cells
      ensures ok == (old(cells)[e] == expected)
      ensures cells == if ok then old(cells)[e := next] else old(cells)
    {
      ok := cells[e] == expected;
      if ok { cells := cells[e := next]; }
    }

    method TryStore(e: nat, v: V) returns (stored: bool)
      requires e < |cells|
      modifies this`cells
      ensures stored == (old(cells)[e] != Expunged)
      ensures cells == if stored then old(cells)[e := Stored(v)] else old(cells)
    {
      stored := false;
      while !stored
        invariant stored ==> old(cells)[e] != Expunged
        invariant cells == if stored then old(cells)[e := Stored(v)] else old(cells)
        decreases !stored
      {
        var p := cells[e];
        if p.Expunged? { return false; }
        stored := CompareExchange(e, p, Stored(v));
      }
    }

    method UnexpungeLocked(e: nat) returns (was: bool)
      requires e < |cells|
      modifies this`cells
      ensures was == (old(cells)[e] == Expunged)
      ensures cells == if was then old(cells)[e := Null] else old(cells)
    {
      was := CompareExchange(e, Expunged, Null);
    }

    method StoreLocked(e: nat, v: V)
      requires e < |cells|
      modifies this`cells
      ensures cells == old(cells)[e := Stored(v)]
    {
      cells := cells[e := Stored(v)];
    }

    method TryExpungeLocked(e: nat) returns (expunged: bool)
      requires e < |cells|
      modifies this`cells
      ensures expunged == !old(cells)[e].Stored?
      ensures cells == if expunged then old(cells)[e := Expunged] else old(cells)
    {
      var p := cells[e];
      while p.Null?
        invariant |cells| == |old(cells)| && p == cells[e]
        invariant cells == old(cells) || (old(cells)[e] == Null && cells == old(cells)[e := Expunged])
        decreases p.Null?
      {
        var _ := CompareExchange(e, Null, Expunged);
        p := cells[e];
      }
      expunged := p.Expunged?;
    }

    /** (None, false) when expunged, (None, true) when filled, (Some, true) when there was a value. */
    method TryLoadOrStore(e: nat, v: V) returns (found: Option<V>, ok: bool)
      requires e < |cells|
      modifies this`cells
      ensures ok == (old(cells)[e] != Expunged)
      ensures found == Value(old(cells)[e])
      ensures cells == if old(cells)[e] == Null then old(cells)[e := Stored(v)] else old(cells)
    {
      var filled := false;
      while !filled
        invariant cells == if filled then old(cells)[e := Stored(v)] else old(cells)
        invariant filled ==> old(cells)[e] == Null
        decreases !filled
      {
        var p := cells[e];
        if p.Expunged? { return None, false; }
        if p.Stored? { return Some(p.v), true; }
        filled := CompareExchange(e, Null, Stored(v));
      }
      return None, true;
    }

    method DeleteEntry(e: nat) returns (found: Option<V>)
      requires e < |cells|
      modifies this`cells
      ensures found == Value(old(cells)[e])
      ensures cells == if found.Some? then old(cells)[e := Null] else old(cells)
    {
      found := None;
      while found == None
        invariant found != None ==> found == Value(old(cells)[e])
        invariant cells == if found.Some? then old(cells)[e := Null] else old(cells)
        decreases found == None
      {
        var p := cells[e];
        if !p.Stored? { return None; }
        var ok := CompareExchange(e, p, Null);
        if ok { found := Some(p.v); }
      }
    }

    // ----- Moving the maps -------------------------------------------------------------------

    /** The block missLocked. */
    method MissLocked()
      modifies this`readM, this`amended, this`dirty, this`misses, this`missed
      ensures S() == Miss(old(S()))
    {
      missed := missed + 1;
      misses := misses + 1;
      if misses >= |dirty| {
        readM, amended, dirty := dirty, false, map[];
        misses := 0;
      }
    }

    /** The loop of dirtyLocked: expunge the null cells of the snapshot, collect the others. Each turn counts. */
    method Sweep() returns (acc: map<Key, nat>)
      requires Owned(S(), readM)
      modifies this`cells, this`copied
      ensures cells == Swept(old(S())) && acc == Kept(old(S())) && copied == old(copied) + |readM|
    {
      ghost var s := S();
      var todo := readM.Keys;
      acc := map[];
      while todo != {}
        invariant SweptSoFar(s, todo, cells, acc) && copied + |todo| == s.copied + |readM|
        decreases |todo|
      {
        copied := copied + 1;
        var k :| k in todo;
        ghost var before := cells;
        var expunged := TryExpungeLocked(readM[k]);
        SweepNext(s, todo, before, acc, k, cells);
        if !expunged { acc := acc[k := readM[k]]; }
        todo := todo - {k};
      }
      SweepDone(s, cells, acc);
    }

    /** The block dirtyLocked. */
    method DirtyLocked()
      requires Owned(S(), readM)
      modifies this`dirty, this`cells, this`copied
      ensures S() == if old(dirty) == map[] then Rebuild(old(S())) else old(S())
    {
      if dirty == map[] {
        dirty := Sweep();
      }
    }

    // ----- The operations --------------------------------------------------------------------

    method Load(key: Key) returns (found: Option<V>)
      requires Valid()
      modifies this`readM, this`amended, this`dirty, this`misses, this`missed
      ensures Valid() && found == Get(contents, key)
      ensures S() == Loaded(old(S()), key)
    {
      LoadRefines(S(), key, contents);
      LoadPaid(S(), key);
      if key in readM {
        found := Value(cells[readM[key]]);
      } else if amended {
        found := if key in dirty then Value(cells[dirty[key]]) else None;
        MissLocked();
      } else {
        found := None;
      }
    }

    /** store and load_or_store, for a key that neither map knows. */
    method StoreNew(key: Key, value: V)
      requires WellOwned(S()) && (!amended ==> dirty == map[])
      modifies this`amended, this`dirty, this`cells, this`owner, this`copied
      ensures S() == AddEntry(Amend(old(S())), key, value)
    {
      if !amended {
        DirtyLocked();
        amended := true;
      }
      dirty := dirty[key := |cells|];
      cells, owner := cells + [Stored(value)], owner + [key];
    }

    /** Both of them, for a key of the snapshot under the lock: make sure its cell is in both maps. */
    method ReviveLocked(key: Key)
      requires WellOwned(S()) && key in readM
      modifies this`dirty, this`cells
      ensures S() == Revive(old(S()), key)
    {
      var e := readM[key];
      var was := UnexpungeLocked(e);
      if was { dirty := dirty[key := e]; }
    }

    method StoreBody(key: Key, value: V)
      requires Quiet(S())
      modifies this`amended, this`dirty, this`cells, this`owner, this`copied
      ensures S() == StoredAt(old(S()), key, value)
    {
      if key in readM {
        var stored := TryStore(readM[key], value);
        if stored { return; }
      }
      if key in readM {
        ReviveLocked(key);
        StoreLocked(readM[key], value);
      } else if key in dirty {
        StoreLocked(dirty[key], value);
      } else {
        StoreNew(key, value);
      }
    }

    method Store(key: Key, value: V)
      requires Valid()
      modifies this
      ensures Valid() && contents == old(contents)[key := value]
      ensures S() == StoredAt(old(S()), key, value)
    {
      StoreRefines(S(), key, value, contents);
      StorePaid(S(), key, value);
      StoreBody(key, value);
      contents := contents[key := value];
    }

    method LoadOrStoreBody(key: Key, value: V) returns (found: Option<V>)
      requires Quiet(S())
      modifies this`readM, this`amended, this`dirty, this`misses, this`cells, this`owner, this`copied, this`missed
      ensures S() == LoadedOrStored(old(S()), key, value)
      ensures found == LoadOrStoreResult(old(S()), key, value)
    {
      if key in readM {
        var ok;
        found, ok := TryLoadOrStore(readM[key], value);
        if ok { return; }
      }
      if key in readM {
        ReviveLocked(key);
        var ok;
        found, ok := TryLoadOrStore(readM[key], value);
      } else if key in dirty {
        var ok;
        found, ok := TryLoadOrStore(dirty[key], value);
        MissLocked();
      } else {
        StoreNew(key, value);
        found := Some(value);
      }
    }

    /** Never overwrites; answers None only when it refills a cell that the snapshot still knows. */
    method LoadOrStore(key: Key, value: V) returns (found: Option<V>)
      requires Valid()
      modifies this
      ensures Valid() && contents == old(if key in contents then contents else contents[key := value])
      ensures found == old(if key in contents then Some(contents[key]) else if key in readM then None else Some(value))
      ensures S() == LoadedOrStored(old(S()), key, value)
    {
      LoadOrStoreRefines(S(), key, value, contents);
      LoadOrStorePaid(S(), key, value);
      found := LoadOrStoreBody(key, value);
      contents := if key in contents then contents else contents[key := value];
    }

    /** Under the lock: take the entry out of `dirty`, if it is there, and count the miss. */
    method RemoveLocked(key: Key) returns (e: Option<nat>)
      modifies this`readM, this`amended, this`dirty, this`misses, this`missed
      ensures e == Get(old(dirty), key)
      ensures S() == Miss(if e.Some? then Removed(old(S()), key) else old(S()))
    {
      ghost var s := S();
      e := Get(dirty, key);
      dirty := dirty - {key};
      assert S() == if e.Some? then Removed(s, key) else s;
      MissLocked();
    }

    method LoadAndDeleteBody(key: Key) returns (found: Option<V>)
      requires Quiet(S())
      modifies this`readM, this`amended, this`dirty, this`misses, this`cells, this`missed
      ensures S() == Deleted(old(S()), key) && found == View(old(S()), key)
    {
      if key in readM {
        found := DeleteEntry(readM[key]);
      } else if amended {
        var e := RemoveLocked(key);
        if e.Some? { found := DeleteEntry(e.value); } else { found := None; }
      } else {
        found := None;
      }
    }

    method LoadAndDelete(key: Key) returns (found: Option<V>)
      requires Valid()
      modifies this
      ensures Valid() && contents == old(contents) - {key} && found == Get(old(contents), key)
      ensures S() == Deleted(old(S()), key)
    {
      DeleteRefines(S(), key, contents);
      DeletePaid(S(), key);
      found := LoadAndDeleteBody(key);
      contents := contents - {key};
    }

    method Delete(key: Key)
      requires Valid()
      modifies this
      ensures Valid() && contents == old(contents) - {key}
      ensures S() == Deleted(old(S()), key)
    {
      var _ := LoadAndDelete(key);
    }

    /** The head of keys, values and key_values: promote a pending `dirty`, and iterate the snapshot. */
    method Settle()
      modifies this`readM, this`amended, this`dirty, this`misses
      ensures S() == Settled(old(S())) && !amended
    {
      if amended {
        readM, amended, dirty := dirty, false, map[];
        misses := 0;
      }
    }

    /** The loop of keys: every present key of the snapshot, exactly once, and no deleted one. Each turn counts. */
    method CollectKeys(ghost s: Maps<V>) returns (ks: seq<Key>)
      requires Snapshot(s, contents) && s.readM == readM && s.cells == cells
      modifies this`scanned
      ensures multiset(ks) == multiset(contents.Keys) && scanned == old(scanned) + |readM|
    {
      ks := [];
      ghost var m := contents;
      var todo := readM.Keys;
      assert Met(m, todo) == {};
      while todo != {}
        invariant todo <= readM.Keys && scanned + |todo| == old(scanned) + |readM|
        invariant multiset(ks) == multiset(Met(m, todo))
        decreases |todo|
      {
        scanned := scanned + 1;
        var k :| k in todo;
        MeetNext(m, todo, k);
        if cells[readM[k]].Stored? { ks := ks + [k]; }
        todo := todo - {k};
      }
      assert m.Keys == Met(m, todo);
    }

    method Keys() returns (ks: seq<Key>)
      requires Valid()
      modifies this`readM, this`amended, this`dirty, this`misses, this`scanned
      ensures Valid() && S() == Scanned(old(S()))
      ensures multiset(ks) == multiset(contents.Keys)
    {
      ghost var s := S();
      ScanReady(s, contents);
      Settle();
      ks := CollectKeys(Settled(s));
      assert S() == Scanned(s);
    }

    /** The loop of values: their values, for some order of the keys. */
    method CollectValues(ghost s: Maps<V>) returns (vs: seq<V>, ghost ks: seq<Key>)
      requires Snapshot(s, contents) && s.readM == readM && s.cells == cells
      modifies this`scanned
      ensures Lists(contents, ks, vs) && scanned == old(scanned) + |readM|
    {
      vs, ks := [], [];
      ghost var m := contents;
      var todo := readM.Keys;
      assert Met(m, todo) == {};
      while todo != {}
        invariant todo <= readM.Keys && scanned + |todo| == old(scanned) + |readM|
        invariant Gathered(m, todo, ks, vs)
        decreases |todo|
      {
        scanned := scanned + 1;
        var k :| k in todo;
        GatherNext(m, todo, ks, vs, k);
        var found := cells[readM[k]];
        if found.Stored? { vs, ks := vs + [found.v], ks + [k]; }
        todo := todo - {k};
      }
      GatherDone(m, ks, vs);
    }

    method Values() returns (vs: seq<V>, ghost ks: seq<Key>)
      requires Valid()
      modifies this`readM, this`amended, this`dirty, this`misses, this`scanned
      ensures Valid() && S() == Scanned(old(S()))
      ensures Lists(contents, ks, vs)
    {
      ghost var s := S();
      ScanReady(s, contents);
      Settle();
      vs, ks := CollectValues(Settled(s));
      assert S() == Scanned(s);
    }

    /** The loop of key_values: both together. */
    method CollectKeyValues(ghost s: Maps<V>) returns (kvs: seq<(Key, V)>, ghost ks: seq<Key>)
      requires Snapshot(s, contents) && s.readM == readM && s.cells == cells
      modifies this`scanned
      ensures ListsPairs(contents, ks, kvs) && scanned == old(scanned) + |readM|
    {
      kvs, ks := [], [];
      ghost var m := contents;
      var todo := readM.Keys;
      assert Met(m, todo) == {};
      while todo != {}
        invariant todo <= readM.Keys && scanned + |todo| == old(scanned) + |readM|
        invariant GatheredPairs(m, todo, ks, kvs)
        decreases |todo|
      {
        scanned := scanned + 1;
        var k :| k in todo;
        GatherPairsNext(m, todo, ks, kvs, k);
        var found := cells[readM[k]];
        if found.Stored? { kvs, ks := kvs + [(k, found.v)], ks + [k]; }
        todo := todo - {k};
      }
      GatherPairsDone(m, ks, kvs);
    }

    method KeyValues() returns (kvs: seq<(Key, V)>, ghost ks: seq<Key>)
      requires Valid()
      modifies this`readM, this`amended, this`dirty, this`misses, this`scanned
      ensures Valid() && S() == Scanned(old(S()))
      ensures ListsPairs(contents, ks, kvs)
    {
      ghost var s := S();
      ScanReady(s, contents);
      Settle();
      kvs, ks := CollectKeyValues(Settled(s));
      assert S() == Scanned(s);
    }
  }

  // ----- Whole runs --------------------------------------------------------------------------

  method AnswerKeys<V(==)>(sm: SyncMap<V>) returns (r: Reply<V>)
    requires sm.Valid()
    modifies sm
    ensures sm.Valid() && sm.contents == old(sm.contents) && PlainReply(CallKeys, sm.contents, r)
    ensures sm.S() == StateAfter(CallKeys, old(sm.S()))
  {
    var ks := sm.Keys();
    r := Listed(ks);
  }

  method AnswerValues<V(==)>(sm: SyncMap<V>) returns (r: Reply<V>)
    requires sm.Valid()
    modifies sm
    ensures sm.Valid() && sm.contents == old(sm.contents) && PlainReply(CallValues, sm.contents, r)
    ensures sm.S() == StateAfter(CallValues, old(sm.S()))
  {
    ghost var ks;
    var vs;
    vs, ks := sm.Values();
    assert Lists(sm.contents, ks, vs);
    r := Valued(vs);
  }

  method AnswerKeyValues<V(==)>(sm: SyncMap<V>) returns (r: Reply<V>)
    requires sm.Valid()
    modifies sm
    ensures sm.Valid() && sm.contents == old(sm.contents) && PlainReply(CallKeyValues, sm.contents, r)
    ensures sm.S() == StateAfter(CallKeyValues, old(sm.S()))
  {
    ghost var ks;
    var kvs;
    kvs, ks := sm.KeyValues();
    assert ListsPairs(sm.contents, ks, kvs);
    r := Paired(kvs);
  }

  method Answer<V(==)>(sm: SyncMap<V>, c: Call<V>) returns (r: Reply<V>)
    requires sm.Valid()
    modifies sm
    ensures sm.Valid() && sm.contents == PlainAfter(c, old(sm.contents)) && PlainReply(c, old(sm.contents), r)
    ensures sm.S() == StateAfter(c, old(sm.S()))
  {
    r := Nothing;
    match c {
      case CallLoad(k) => var x := sm.Load(k); r := Found(x);
      case CallStore(k, v) => sm.Store(k, v);
      case CallLoadOrStore(k, v) => var x := sm.LoadOrStore(k, v); r := Found(x);
      case CallLoadAndDelete(k) => var x := sm.LoadAndDelete(k); r := Found(x);
      case CallDelete(k) => sm.Delete(k);
      case CallKeys => r := AnswerKeys(sm);
      case CallValues => r := AnswerValues(sm);
      case CallKeyValues => r := AnswerKeyValues(sm);
    }
  }

  /** Call `n` of a run, and the map and the states after it. */
  method AnswerNext<V(==)>(sm: SyncMap<V>, calls: seq<Call<V>>, n: nat) returns (r: Reply<V>)
    requires n < |calls| && sm.Valid() && sm.contents == PlainRun(calls, n) && sm.S() == StateRun(calls, n)
    modifies sm
    ensures sm.Valid() && sm.contents == PlainRun(calls, n + 1) && sm.S() == StateRun(calls, n + 1)
    ensures AnswerOk(calls, n, r)
  {
    r := Answer(sm, calls[n]);
  }

  /** Any run of calls on a new map is answered as one plain map would, and goes through the states of EveryRun. */
  method RunCalls<V(==)>(calls: seq<Call<V>>) returns (replies: seq<Reply<V>>, ghost end: Maps<V>)
    ensures |replies| == |calls| && AnsweredAsPlain(calls, replies)
    ensures end == StateRun(calls, |calls|)
  {
    var sm := new SyncMap<V>();
    replies := [];
    for n := 0 to |calls|
      invariant n == |replies| && fresh(sm) && sm.Valid() && AnsweredAsPlain(calls, replies)
      invariant sm.contents == PlainRun(calls, n) && sm.S() == StateRun(calls, n)
    {
      var r := AnswerNext(sm, calls, n);
      OneMoreAnswer(calls, replies, r, n);
      replies := replies + [r];
    }
    end := sm.S();
  }
}
