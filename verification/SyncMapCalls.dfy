/**
 Whole runs of calls on the map by one caller at a time: the states they go through, and the plain
 map that the same calls would build.
 */
module SyncMapCalls {
  import opened MapTypes
  import opened SyncMapSpec

  /** `vs` are the values of all keys of `m`, each key once, in the order `ks`. */
  ghost predicate Lists<V>(m: map<Key, V>, ks: seq<Key>, vs: seq<V>) {
    && multiset(ks) == multiset(m.Keys) && |vs| == |ks|
    && forall i | 0 <= i < |vs| :: Get(m, ks[i]) == Some(vs[i])
  }

  ghost predicate ListsPairs<V>(m: map<Key, V>, ks: seq<Key>, kvs: seq<(Key, V)>) {
    && multiset(ks) == multiset(m.Keys) && |kvs| == |ks|
    && forall i | 0 <= i < |kvs| :: kvs[i].0 == ks[i] && Get(m, ks[i]) == Some(kvs[i].1)
  }

  datatype Call<V> =
    | CallLoad(key: Key)
    | CallStore(key: Key, value: V)
    | CallLoadOrStore(key: Key, value: V)
    | CallLoadAndDelete(key: Key)
    | CallDelete(key: Key)
    | CallKeys
    | CallValues
    | CallKeyValues

  datatype Reply<V> =
    | Nothing
    | Found(found: Option<V>)
    | Listed(keys: seq<Key>)
    | Valued(values: seq<V>)
    | Paired(pairs: seq<(Key, V)>)

  /** What a call makes of a plain map ... */
  function PlainAfter<V>(c: Call<V>, m: map<Key, V>): map<Key, V> {
    match c
    case CallStore(k, v) => m[k := v]
    case CallLoadOrStore(k, v) => if k in m then m else m[k := v]
    case CallLoadAndDelete(k) => m - {k}
    case CallDelete(k) => m - {k}
    case _ => m
  }

  /** ... and answers. A load_or_store of an absent key may answer with nothing or its own value. */
  ghost predicate PlainReply<V>(c: Call<V>, m: map<Key, V>, r: Reply<V>) {
    match c
    case CallLoad(k) => r == Found(Get(m, k))
    case CallLoadOrStore(k, v) => if k in m then r == Found(Some(m[k])) else r == Found(None) || r == Found(Some(v))
    case CallLoadAndDelete(k) => r == Found(Get(m, k))
    case CallKeys => r.Listed? && multiset(r.keys) == multiset(m.Keys)
    case CallValues => r.Valued? && exists ks :: Lists(m, ks, r.values)
    case CallKeyValues => r.Paired? && exists ks :: ListsPairs(m, ks, r.pairs)
    case _ => r == Nothing
  }

  /** The plain map after the first `n` calls. */
  function PlainRun<V>(calls: seq<Call<V>>, n: nat): map<Key, V>
    requires n <= |calls|
  {
    if n == 0 then map[] else PlainAfter(calls[n - 1], PlainRun(calls, n - 1))
  }

  /** The answer to call `i` of the run. */
  ghost predicate AnswerOk<V>(calls: seq<Call<V>>, i: nat, r: Reply<V>) {
    i < |calls| && PlainReply(calls[i], PlainRun(calls, i), r)
  }

  ghost predicate AnsweredAsPlain<V>(calls: seq<Call<V>>, replies: seq<Reply<V>>) {
    forall i: nat {:trigger replies[i]} | i < |replies| :: AnswerOk(calls, i, replies[i])
  }

  lemma OneMoreAnswer<V>(calls: seq<Call<V>>, replies: seq<Reply<V>>, r: Reply<V>, n: nat)
    requires AnsweredAsPlain(calls, replies) && n == |replies| && AnswerOk(calls, n, r)
    ensures AnsweredAsPlain(calls, replies + [r])
  {
    var more := replies + [r];
    forall i: nat {:trigger more[i]} | i < |more| ensures AnswerOk(calls, i, more[i]) {
      if i < n { assert more[i] == replies[i]; } else { assert more[i] == r && i == n; }
    }
  }

  // ----- The states of a run -----------------------------------------------------------------

  function StateAfter<V>(c: Call<V>, s: Maps<V>): Maps<V> {
    match c
    case CallLoad(k) => Loaded(s, k)
    case CallStore(k, v) => StoredAt(s, k, v)
    case CallLoadOrStore(k, v) => LoadedOrStored(s, k, v)
    case CallLoadAndDelete(k) => Deleted(s, k)
    case CallDelete(k) => Deleted(s, k)
    case CallKeys => Scanned(s)
    case CallValues => Scanned(s)
    case CallKeyValues => Scanned(s)
  }

  /** What new() makes. */
  function Start<V>(): Maps<V> {
    Maps(map[], false, map[], 0, [], [], 0, 0, 0)
  }

  function StateRun<V>(calls: seq<Call<V>>, n: nat): Maps<V>
    requires n <= |calls|
  {
    if n == 0 then Start() else StateAfter(calls[n - 1], StateRun(calls, n - 1))
  }

  lemma CallRefines<V>(c: Call<V>, s: Maps<V>, m: map<Key, V>)
    requires Quiet(s) && Means(s, m)
    ensures Quiet(StateAfter(c, s)) && Means(StateAfter(c, s), PlainAfter(c, m))
  {
    match c
    case CallLoad(k) => LoadRefines(s, k, m);
    case CallStore(k, v) => StoreRefines(s, k, v, m);
    case CallLoadOrStore(k, v) => LoadOrStoreRefines(s, k, v, m);
    case CallLoadAndDelete(k) => DeleteRefines(s, k, m);
    case CallDelete(k) => DeleteRefines(s, k, m);
    case CallKeys => ScanRefines(s, m);
    case CallValues => ScanRefines(s, m);
    case CallKeyValues => ScanRefines(s, m);
  }

  lemma CallPaid<V>(c: Call<V>, s: Maps<V>)
    requires Quiet(s) && Paid(s)
    ensures Paid(StateAfter(c, s))
  {
    match c
    case CallLoad(k) => LoadPaid(s, k);
    case CallStore(k, v) => StorePaid(s, k, v);
    case CallLoadOrStore(k, v) => LoadOrStorePaid(s, k, v);
    case CallLoadAndDelete(k) => DeletePaid(s, k);
    case CallDelete(k) => DeletePaid(s, k);
    case CallKeys => ScanPaid(s);
    case CallValues => ScanPaid(s);
    case CallKeyValues => ScanPaid(s);
  }

  /**
   In every state of every run: the two maps stand for the plain map, fewer misses were counted than
   there are pending keys, and all rebuilds so far copied no more entries than there were misses
   counted and entries scanned.
   */
  lemma {:induction false} EveryRun<V>(calls: seq<Call<V>>, n: nat)
    requires n <= |calls|
    ensures Quiet(StateRun(calls, n)) && Means(StateRun(calls, n), PlainRun(calls, n))
    ensures StateRun(calls, n).copied <= StateRun(calls, n).missed + StateRun(calls, n).scanned
    ensures Paid(StateRun(calls, n))
  {
    if n > 0 {
      EveryRun(calls, n - 1);
      CallRefines(calls[n - 1], StateRun(calls, n - 1), PlainRun(calls, n - 1));
      CallPaid(calls[n - 1], StateRun(calls, n - 1));
    }
  }

  // ----- Promotion comes ---------------------------------------------------------------------

  /** A store or load_or_store of a key that `dirty` does not hold: only these add to it. */
  predicate Inserts<V>(c: Call<V>, s: Maps<V>) {
    match c
    case CallStore(k, _) => k !in s.dirty
    case CallLoadOrStore(k, _) => k !in s.dirty
    case _ => false
  }

  /** A call that looks for its key outside the snapshot, under the lock, and not to insert it. */
  predicate Misses<V>(c: Call<V>, s: Maps<V>) {
    match c
    case CallLoad(k) => s.amended && k !in s.readM
    case CallLoadAndDelete(k) => s.amended && k !in s.readM
    case CallDelete(k) => s.amended && k !in s.readM
    case CallLoadOrStore(k, _) => k !in s.readM && k in s.dirty
    case _ => false
  }

  predicate Scans<V>(c: Call<V>) { c.CallKeys? || c.CallValues? || c.CallKeyValues? }

  /** A store or load_or_store of a key that is in neither map. */
  predicate InsertsFresh<V>(c: Call<V>, s: Maps<V>) {
    Inserts(c, s) && c.key !in s.readM
  }

  /**
   The work of each call, exactly: the whole snapshot is gone through to rebuild `dirty` just when a
   key that neither map holds goes in and nothing is pending; one miss is counted just by a call that
   looks for its key outside the snapshot; a scan goes through the snapshot that it leaves.
   */
  lemma WorkExactly<V>(c: Call<V>, s: Maps<V>)
    ensures Spent(s, StateAfter(c, s),
                  if InsertsFresh(c, s) && !s.amended then |s.readM| else 0,
                  if Misses(c, s) then 1 else 0,
                  if Scans(c) then |StateAfter(c, s).readM| else 0)
  {
    match c
    case CallLoad(k) =>
    case CallStore(k, v) => StoreSpends(s, k, v);
    case CallLoadOrStore(k, v) => LoadOrStoreSpends(s, k, v);
    case CallLoadAndDelete(k) => DeleteSpends(s, k);
    case CallDelete(k) => DeleteSpends(s, k);
    case CallKeys => ScanSpends(s);
    case CallValues => ScanSpends(s);
    case CallKeyValues => ScanSpends(s);
  }

  /** How many more misses `dirty` waits for. */
  function Remaining<V>(s: Maps<V>): int {
    |s.dirty| - s.misses
  }

  lemma DeletedRemaining<V>(s: Maps<V>, k: Key)
    requires Quiet(s) && s.amended && k !in s.readM
    ensures Deleted(s, k).missed == s.missed + 1
    ensures Deleted(s, k).amended ==> Remaining(Deleted(s, k)) < Remaining(s)
  {
    if k in s.dirty { RemoveCoupled(s, k); }
  }

  /** While `dirty` stays pending and gains no key, each miss uses up one of those it waits for. */
  lemma CallRemaining<V>(c: Call<V>, s: Maps<V>)
    requires Quiet(s) && !Inserts(c, s)
    ensures var s', miss := StateAfter(c, s), if Misses(c, s) then 1 else 0;
      && s'.missed == s.missed + miss
      && (s.amended && s'.amended ==> Remaining(s') + miss <= Remaining(s))
  {
    match c
    case CallLoadAndDelete(k) => if s.amended && k !in s.readM { DeletedRemaining(s, k); }
    case CallDelete(k) => if s.amended && k !in s.readM { DeletedRemaining(s, k); }
    case _ =>
  }

  predicate PendingAt<V>(calls: seq<Call<V>>, j: nat) {
    j <= |calls| && StateRun(calls, j).amended
  }

  predicate InsertsAt<V>(calls: seq<Call<V>>, j: nat) {
    j < |calls| && Inserts(calls[j], StateRun(calls, j))
  }

  /** What `dirty` waits for after `j` calls, and all the misses counted by then. */
  function Budget<V>(calls: seq<Call<V>>, j: nat): int {
    if j <= |calls| then Remaining(StateRun(calls, j)) + StateRun(calls, j).missed else 0
  }

  lemma PendingStep<V>(calls: seq<Call<V>>, n: nat)
    requires n < |calls| && PendingAt(calls, n) && PendingAt(calls, n + 1) && !InsertsAt(calls, n)
    ensures Budget(calls, n + 1) <= Budget(calls, n)
  {
    EveryRun(calls, n);
    CallRemaining(calls[n], StateRun(calls, n));
  }

  lemma {:induction false} Descends(f: nat -> int, i: nat, n: nat)
    requires i <= n && forall j, k | i <= j < k <= n && k == j + 1 :: f(k) <= f(j)
    ensures f(n) <= f(i)
  {
    if i < n { Descends(f, i, n - 1); }
  }

  function BudgetOf<V>(calls: seq<Call<V>>): nat -> int {
    (j: nat) => Budget(calls, j)
  }

  lemma BudgetFalls<V>(calls: seq<Call<V>>, f: nat -> int, j: nat)
    requires f == BudgetOf(calls)
    requires j < |calls| && PendingAt(calls, j) && PendingAt(calls, j + 1) && !InsertsAt(calls, j)
    ensures f(j + 1) <= f(j)
  {
    PendingStep(calls, j);
  }

  lemma BudgetLeft<V>(calls: seq<Call<V>>, f: nat -> int, i: nat, n: nat)
    requires f == BudgetOf(calls) && i <= n <= |calls| && PendingAt(calls, n) && f(n) <= f(i)
    ensures var s, s' := StateRun(calls, i), StateRun(calls, n);
            0 < Remaining(s') <= Remaining(s) - (s'.missed - s.missed)
  {
    EveryRun(calls, n);
  }

  /**
   The promotion measure, over every run and every kind of call: as long as `dirty` is pending and
   gains no key, the misses counted since stay below those it was waiting for.
   */
  lemma PendingIsBounded<V>(calls: seq<Call<V>>, i: nat, n: nat)
    requires i <= n <= |calls|
    requires forall j: nat | i <= j <= n :: PendingAt(calls, j)
    requires forall j: nat | i <= j < n :: !InsertsAt(calls, j)
    ensures var s, s' := StateRun(calls, i), StateRun(calls, n);
            0 < Remaining(s') <= Remaining(s) - (s'.missed - s.missed)
  {
    var f := BudgetOf(calls);
    forall j: nat, k: nat | i <= j < k <= n && k == j + 1 ensures f(k) <= f(j) {
      BudgetFalls(calls, f, j);
    }
    Descends(f, i, n);
    BudgetLeft(calls, f, i, n);
  }

  /** So after that many misses without an insertion `dirty` has been promoted. */
  lemma PromotionFollows<V>(calls: seq<Call<V>>, i: nat, n: nat) returns (j: nat)
    requires i <= n <= |calls| && PendingAt(calls, i)
    requires forall l: nat | i <= l < n :: !InsertsAt(calls, l)
    requires StateRun(calls, n).missed - StateRun(calls, i).missed >= Remaining(StateRun(calls, i))
    ensures i < j <= n && !PendingAt(calls, j)
  {
    if forall l: nat | i <= l <= n :: PendingAt(calls, l) {
      PendingIsBounded(calls, i, n);
      assert false;
    }
    j :| i <= j <= n && !PendingAt(calls, j);
  }
}
