# Verification of the concurrent map and of request rewriting

A Dafny model of the two parts of this repository that carry its correctness, with proofs.

**The concurrent map** (`src/sync_map.rs`), a map with a published immutable snapshot that is read
without a lock, a mutex-guarded `dirty` map with newer keys, and entry cells shared by both.

- `SyncMapModel` is a small-step interleaving system: any number of threads, one atomic action a
  step. `SyncMapInvariant` has the invariant, indexed by the control point of the lock holder, and
  what each step promises the other threads; `SyncMapSteps` proves it step by step, `SyncMapRuns`
  for all runs. `SyncMapLinearizability` and `SyncMapSafety` hold the results.
- `SyncMapMisses` says which steps count a miss, under any interference.
- `SyncMapProgress` has what each thread can count on: it is not stuck, the lock is released, and a
  retry is the work of another thread.
- `SyncMapClass` is the same map as a class used by one caller at a time, method by method, with its
  compare-exchange loops. `SyncMapSpec` says what each method does to the two maps and proves that
  together they act as one plain map; `SyncMapCalls` carries that over whole runs. `SyncMapSolo`
  ties the two models together: an operation alone in the step system does what `SyncMapSpec` says.

**Request rewriting** (`src/proxy.rs`), on bytes.

- `RequestLine`: the first slug of a request target is found and cut out of the first line (section
  3.1.1 of RFC 7230). Text is UTF-8, defined in full, since `from_utf8` and `replace_range` decide
  between success, a 400 response and a panic; `Unicode` proves that definition against the encoder
  (RFC 3629).
- `RequestWriter`: the rest of the request is written with one header field added (section 3.2 of
  RFC 7230), and the body is found again. `HeaderFields` reads what comes out with a reader of its own.
- `RoutingSpec` and `Routing`: the client side of `handle_http`, as a transducer of one chunk at a
  time, and as the two nested loops over one buffer that implement it. `RoutingAnswers` says which
  chunk gets which answer, and which goes where.

## Where the code decides

- `load_or_store` answers `None` when it fills a null cell of the snapshot and the new value when it
  inserts a fresh key (`src/sync_map.rs:126`, `src/sync_map.rs:182`). The specification allows both
  for an absent key; the sequential contract says which one happens when.
- `write_req` takes the end of the headers to be any line of two bytes, while its comment and
  `find_body_start` mean CR LF. The body is kept exactly when that makes no difference (`BodyKept`);
  `BodyLostExample` shows where it does.
- For a header that is already there `write_req` slices the line with an index that counts from the
  start of the request (`src/proxy.rs:553-558`), so on whatever `remove_site_name` accepts it panics
  instead of appending; `AcceptedExact` says exactly when, `HeaderPresentExample` gives a request.
- `remove_site_name` panics when the slug reaches over the end of the first line; `RemovalOutcome`
  says exactly when, `PanicExample` gives an input.
- A session passes what does not parse on as it is. A request read in pieces therefore reaches its
  server rewritten only if its header section ended in the first read: else no header is added
  (`PiecesMakeUpRequest`, `HeaderMissedExample`). A piece of a body that does parse is taken for a
  request of its own (`PassedOnExactly`, `BodyTakenForRequestExample`).
- `remove_site_name` accepts a slug that runs over the end of the first line up to a space right
  behind it. The header line is then broken in two and the body found too early (`AcceptedKeepsBody`).
- At the end of the input outside a session `handle_http` answers with a 400 response, since the
  empty chunk does not parse; inside a session it closes silently.

## Model

| member | source | states |
|---|---|---|
| `SyncMapModel.AfterSnap` | src/sync_map.rs:42-82 | which branch each operation takes after its lock-free load of the snapshot |
| `SyncMapModel.AfterEntry` | src/sync_map.rs:322-435 | which branch each entry operation takes on a null, an expunged and a filled cell |
| `SyncMapModel.AfterLocked` | src/sync_map.rs:83-111 | which branch each operation takes after loading the snapshot again under the lock |
| `SyncMapModel.AfterLoadOrStore` | src/sync_map.rs:143-161 | load_or_store counts a miss exactly when it found its entry in `dirty` |
| `SyncMapModel.LookStep` | src/sync_map.rs:42-276 | the atomic steps that only read shared state, retries of failed compare-exchanges included |
| `SyncMapModel.FastStep` | src/sync_map.rs:331-435 | starting an operation, a successful lock-free compare-exchange, taking the lock |
| `SyncMapModel.HolderStep` | src/sync_map.rs:50-112 | the atomic steps of the lock holder: remove, unexpunge, insert, count, take, publish, reset, expunge one cell |
| `SyncMapInvariant.ReadableStable` | src/sync_map.rs:42-73 | a cell a reader holds keeps answering with a value its key had since the read began, through removal, expunging and promotion |
| `SyncMapInvariant.FromSnapshotStable` | src/sync_map.rs:78-82 | a cell taken from a snapshot stays, unless expunged, the published cell of its key under every step of another thread |
| `SyncMapInvariant.FrozenStable` | src/sync_map.rs:196-219 | a step of any other thread leaves a removed cell and its content alone |
| `SyncMapInvariant.LockInvStable` | src/sync_map.rs:83-112 | what the lock holder has established survives every step made outside the lock |
| `SyncMapInvariant.LocalInvStable` | src/sync_map.rs:42-276 | what a thread relies on at any of its control points survives every step of the others |
| `SyncMapSteps.SetCellGuarantee` | src/sync_map.rs:331-368 | a write to the current cell of a key, or by its remover to a removed cell, changes the abstract map at that key only |
| `SyncMapSteps.RemoveGuarantee` | src/sync_map.rs:196-198 | taking an entry out of `dirty` makes exactly that key absent and disturbs no other thread |
| `SyncMapSteps.InsertSharedGuarantee` | src/sync_map.rs:86-88 | putting an unexpunged cell back into `dirty` leaves the abstract map alone |
| `SyncMapSteps.PromoteGuarantee` | src/sync_map.rs:58-60 | publishing `dirty` as the snapshot keeps every key's value: what it drops is expunged, what it keeps are the same cells |
| `SyncMapSteps.ExpungePrivate` | src/sync_map.rs:371-385 | expunging one null cell keeps the half-done rebuild consistent while `amended` is still false |
| `SyncMapSteps.BuiltGuarantee` | src/sync_map.rs:95-104 | installing the rebuilt `dirty` leaves the abstract map alone |
| `SyncMapSteps.PublishGuarantee` | src/sync_map.rs:106-109 | publishing the same snapshot as amended leaves the abstract map alone |
| `SyncMapSteps.AddGuarantee` | src/sync_map.rs:111 | inserting a new entry makes exactly that absent key present |
| `SyncMapSteps.AddQuiet` | src/sync_map.rs:93-111 | after the insertion the two maps are coupled again and fewer misses are counted than keys pending |
| `SyncMapSteps.StepOk` | src/sync_map.rs:42-276 | every atomic step of every thread keeps the shared invariant, its own, and its promise to the others |
| `SyncMapRuns.Invariant` | src/sync_map.rs:24-276 | the invariant, indexed by the lock holder's control point, holds in every state of every interleaving |
| `SyncMapLinearizability.StepEffect` | src/sync_map.rs:75-113 | each atomic step leaves the abstract map alone or changes it exactly as its operation specifies, and no operation does so twice |
| `SyncMapLinearizability.Linearizable` | src/sync_map.rs:42-225 | every completed load, store, load_or_store, load_and_delete or delete acts at one instant between its start and its end as on a plain map; a store has exactly one effective step |
| `SyncMapLinearizability.ScanIsTruthful` | src/sync_map.rs:227-276 | under concurrency each entry listed by a scan, and each absence, is true of some instant of the scan, which changes nothing |
| `SyncMapSafety.LockFree` | src/sync_map.rs:24-28 | whenever the lock is free: not amended means nothing pending, no misses and nothing expunged; amended means shared exactly when not expunged, keys only in `dirty` are live, misses below the size of `dirty` |
| `SyncMapSafety.CellsNotShared` | src/sync_map.rs:306-320 | in every reachable state distinct keys have distinct cells |
| `SyncMapSafety.StaleSnapshotIsLive` | src/sync_map.rs:78-82 | a cell that was ever published for a key is, unless expunged, still its published cell at any later time |
| `SyncMapSafety.DeadStaysDead` | src/sync_map.rs:352-358 | an expunged cell that is out of the published snapshot stays expunged for ever |
| `SyncMapSafety.RemovedIsFrozen` | src/sync_map.rs:196-219 | a cell removed from `dirty` keeps its content however many steps other threads make |
| `SyncMapSafety.RemoverFindsOldValue` | src/sync_map.rs:198-219 | the remover later finds in it the value its key had at the instant of the removal |
| `SyncMapSafety.DeletersDisjoint` | src/sync_map.rs:417-435 | two deletes that return the same stored value are one and the same operation |
| `SyncMapSafety.DeletionRetires` | src/sync_map.rs:186-220 | the step that deletes a value takes it out of the map for ever: no key shows it and no one is still to store it |
| `SyncMapSafety.RetiredForever` | src/sync_map.rs:186-220 | a value so retired never comes back, in any continuation |
| `SyncMapMisses.MissesCounted` | src/sync_map.rs:48-62 | under any interference: a step changes the misses only by counting one for an operation whose key is not in the published snapshot, or by a promotion that leaves nothing pending |
| `SyncMapMisses.CountsOnce` | src/sync_map.rs:48-62 | no operation counts a second miss |
| `SyncMapProgress.NeverStuck` | src/sync_map.rs:50-62 | in every reachable state every thread can step or waits for a lock whose holder can step |
| `SyncMapProgress.RankDrops` | src/sync_map.rs:84-112 | each step of the lock holder brings it closer to releasing the lock |
| `SyncMapProgress.LockIsReleased` | src/sync_map.rs:84-112 | a lock holder that runs alone releases the lock within a number of steps linear in the size of the snapshot |
| `SyncMapProgress.FailureIsInterference` | src/sync_map.rs:331-434 | a compare-exchange fails only because another thread changed that very cell since it was loaded |
| `SyncMapSpec.MeaningIsUnique` | src/sync_map.rs:24-28 | the two maps and their cells stand for at most one plain map |
| `SyncMapSpec.PromoteQuiet` | src/sync_map.rs:57-61 | promotion restores the invariant and keeps the plain map the structure stands for |
| `SyncMapSpec.MissQuiet` | src/sync_map.rs:146-154 | counting a miss, promoting or not, keeps the plain map and leaves fewer misses than keys pending |
| `SyncMapSpec.SweepNext` | src/sync_map.rs:371-385 | one turn of the rebuild loop: exactly the cells visited so far that held null are expunged, the others kept |
| `SyncMapSpec.SweepDone` | src/sync_map.rs:96-103 | the finished rebuild expunged exactly the null cells of the snapshot and shares exactly the others |
| `SyncMapSpec.RebuildCoupled` | src/sync_map.rs:93-110 | rebuild and publishing re-establish the coupling of the two maps and keep the plain map |
| `SyncMapSpec.ReviveQuiet` | src/sync_map.rs:85-88 | unexpunging and reinserting a cell keeps the invariant and the plain map |
| `SyncMapSpec.LoadRefines` | src/sync_map.rs:42-73 | load answers as the plain map and does not change it, though it may promote |
| `SyncMapSpec.StoreRefines` | src/sync_map.rs:75-113 | store changes the plain map at its key only, on all four paths |
| `SyncMapSpec.LoadOrStoreRefines` | src/sync_map.rs:115-184 | load_or_store never overwrites a present value; Some(w) means the key maps to w afterwards, None that it was absent and now maps to the given value |
| `SyncMapSpec.DeleteRefines` | src/sync_map.rs:186-220 | deletion removes its key only and answers with the value it had |
| `SyncMapSpec.DeletePendingRefines` | src/sync_map.rs:196-219 | removing an entry only `dirty` holds, counting the miss and emptying the orphaned cell is one removal from the plain map |
| `SyncMapSpec.ScanRefines` | src/sync_map.rs:227-238 | the head of a scan promotes without changing the plain map |
| `SyncMapSpec.SnapshotIsPlain` | src/sync_map.rs:239-243 | after it the snapshot alone is exactly the plain map, null cells standing for absent keys |
| `SyncMapSpec.PromotionComes` | src/sync_map.rs:53-61 | exactly when: loads of keys outside the snapshot promote `dirty` with the miss that makes up its size, never earlier |
| `SyncMapCalls.CallRemaining` | src/sync_map.rs:53-61 | every kind of call: a miss uses up at least one of those `dirty` waits for, and no call that adds no key to `dirty` gives one back |
| `SyncMapCalls.PendingIsBounded` | src/sync_map.rs:53-61 | over any stretch of any run in which `dirty` stays pending and gains no key, the misses counted stay below the size of `dirty` less the misses counted before |
| `SyncMapCalls.PromotionFollows` | src/sync_map.rs:146-154 | so after that many misses of any calls without an insertion `dirty` has been promoted |
| `SyncMapCalls.EveryRun` | src/sync_map.rs:31-276 | in every state of every run from new(): the invariant, the plain map, and copying paid for by misses and scans |
| `SyncMapCalls.WorkExactly` | src/sync_map.rs:53-113 | the work of each call, exactly: entries copied only where a key that neither map holds goes in with nothing pending, and then all of the snapshot; misses counted; entries scanned |
| `SyncMapCalls.CallPaid` | src/sync_map.rs:95-104 | no operation copies more entries than misses and scans before it have paid for |
| `SyncMapClass.SyncMap.constructor` | src/sync_map.rs:31-40 | a new map is the empty plain map |
| `SyncMapClass.SyncMap.TryStore` | src/sync_map.rs:331-350 | stores unless the cell is expunged, and says which |
| `SyncMapClass.SyncMap.UnexpungeLocked` | src/sync_map.rs:352-358 | turns expunged into null and nothing else |
| `SyncMapClass.SyncMap.StoreLocked` | src/sync_map.rs:360-368 | replaces the content of the cell |
| `SyncMapClass.SyncMap.TryExpungeLocked` | src/sync_map.rs:371-385 | true exactly when the cell holds no value, and then it ends expunged |
| `SyncMapClass.SyncMap.TryLoadOrStore` | src/sync_map.rs:390-415 | fills a null cell only; answers the value it found, and false only for an expunged cell |
| `SyncMapClass.SyncMap.DeleteEntry` | src/sync_map.rs:417-434 | empties a filled cell and answers what it held |
| `SyncMapClass.SyncMap.MissLocked` | src/sync_map.rs:55-62 | counts the miss and promotes at the threshold |
| `SyncMapClass.SyncMap.Sweep` | src/sync_map.rs:371-385 | the loop takes one turn for each entry of the snapshot and yields the rebuilt map |
| `SyncMapClass.SyncMap.DirtyLocked` | src/sync_map.rs:94-105 | rebuilds exactly when `dirty` is empty |
| `SyncMapClass.SyncMap.Load` | src/sync_map.rs:42-73 | answers as the plain map `contents`, which stays |
| `SyncMapClass.SyncMap.Store` | src/sync_map.rs:75-113 | `contents` gains or replaces exactly the given key |
| `SyncMapClass.SyncMap.LoadOrStore` | src/sync_map.rs:115-184 | `contents` gains the key only if absent; answers None only when it refills a cell of the snapshot |
| `SyncMapClass.SyncMap.LoadAndDelete` | src/sync_map.rs:186-220 | `contents` loses exactly the key; answers its old value |
| `SyncMapClass.SyncMap.Delete` | src/sync_map.rs:222-225 | `contents` loses exactly the key |
| `SyncMapClass.SyncMap.Settle` | src/sync_map.rs:228-238 | a pending `dirty` becomes the snapshot, and nothing is pending |
| `SyncMapClass.SyncMap.CollectKeys` | src/sync_map.rs:239-242 | the loop lists every present key exactly once and no deleted one |
| `SyncMapClass.SyncMap.Keys` | src/sync_map.rs:227-243 | every present key exactly once, `contents` unchanged |
| `SyncMapClass.SyncMap.Values` | src/sync_map.rs:245-258 | the current value of every present key exactly once |
| `SyncMapClass.SyncMap.KeyValues` | src/sync_map.rs:260-276 | every present key exactly once with its current value |
| `SyncMapClass.RunCalls` | src/sync_map.rs:30-276 | any run of calls on a new map is answered as one plain map would answer it |
| `SyncMapSolo.QuietImage` | src/sync_map.rs:24-28 | whenever the lock is free, the state of the step system meets the invariant of the sequential specification |
| `SyncMapSolo.SoloRefines` | src/sync_map.rs:42-276 | any operation that runs undisturbed in the step system ends in the state, and with the answer, of the sequential specification |
| `SyncMapSolo.SoloCompletes` | src/sync_map.rs:42-276 | and it does end: begun with the lock free, it is done within a number of steps linear in the sizes of the snapshot and of `dirty`, in that state and with that answer |
| `RequestLine.Utf8Split` | src/proxy.rs:609-610 | text cut on both sides of an ASCII byte is valid exactly when both sides are |
| `RequestLine.ParseSiteNameIndices` | src/proxy.rs:623-644 | a first slug found lies between a space or slash and a space or slash, inside the bytes |
| `RequestLine.SiteNameRemoved` | src/proxy.rs:601-618 | the outcome of remove_site_name with its error and panic branches |
| `RequestLine.RemoveSiteName` | src/proxy.rs:601-618 | editing the copied line in place yields that outcome |
| `RequestLine.RemovalOutcome` | src/proxy.rs:601-618 | for any bytes: exactly when the answer is a 400, exactly when the range leaves the first line and replace_range panics, and otherwise the slug and the line without it; the slug itself is never the cause of a 400 |
| `RequestLine.PanicExample` | src/proxy.rs:611-615 | an input whose slug reaches over the line end, on which it panics |
| `RequestLine.RemovalOnRequestLine` | src/proxy.rs:598-618 | for every request line of text, whatever follows it: the first slug of the target, and the line with just it and the slash behind it cut out |
| `RequestLine.StripIsReversible` | src/proxy.rs:601-618 | for every request it accepts: with the slug and its consumed slash put back at the same index into the line it answers, the first line of the request is there again |
| `RequestLine.StrippingIsReversible` | src/proxy.rs:601-618 | the same for any number of applications to any line, the pieces put back in reverse order |
| `Unicode.Utf8Exactly` | src/proxy.rs:608-617 | the bytes that count as text are exactly the UTF-8 encodings of sequences of Unicode scalar values |
| `Unicode.RefusedExactly` | src/proxy.rs:601-618 | for any bytes: the answer is a 400 exactly without two spaces, without a line end, or when the first line is not such an encoding |
| `RequestLine.SlugsComeOffInOrder` | src/proxy.rs:598-618 | n applications to a path of n slugs yield the slugs in order, all from the same index, and leave the tail |
| `RequestLine.PathRoundTrip` | src/proxy.rs:598-618 | putting the slugs of a path back in front of its tail restores the line |
| `RequestLine.RootIsFixed` | src/proxy.rs:635-642 | the line of the bare root is a fixed point with an empty slug |
| `HeaderFields.HeaderLineExactly` | src/proxy.rs:589-596 | for every line: it is taken for the proxy's header exactly when its field name, read up to the first colon, is rusty-proxy-path, each letter small or capital |
| `RequestWriter.WriteLines` | src/proxy.rs:539-565 | what write_req makes of the lines behind the first, index confusion included |
| `RequestWriter.WriteLine` | src/proxy.rs:540-562 | one turn of the loop: what it emits, whether it stops, and that the header is written from then on |
| `RequestWriter.WriteRest` | src/proxy.rs:539-565 | the loop emits exactly what `WriteLines` says, behind what is emitted before |
| `RequestWriter.WriteReq` | src/proxy.rs:522-567 | the first line given, then the rest of the request so written |
| `RequestWriter.WriteExact` | src/proxy.rs:539-565 | without a proxy header nothing changes but the first two-byte line, which becomes header and blank line; with one it panics exactly when the first such line begins above index 2 of the request |
| `RequestWriter.WrittenExactly` | src/proxy.rs:522-567 | write_req as a whole, on any bytes at all, without a line end too: the given line for the first one, then the rest with the header added, or a panic, exactly when |
| `RequestWriter.WriteMerged` | src/proxy.rs:552-559 | the other half: a first header line at index 2 or below is merged with the name, the end cut off at the wrong index, and the lines behind it come out with no second header |
| `RequestWriter.WriteAdded` | src/proxy.rs:539-565 | once the header is written, the loop replaces the first two-byte line by CR LF, changes nothing else and never panics |
| `RequestWriter.AcceptedExact` | src/proxy.rs:522-567 | for whatever request remove_site_name accepts: it panics exactly when a proxy header is there, else it adds one and changes nothing else |
| `RequestWriter.HeadersOut` | src/proxy.rs:541-551 | one proxy header line more when the header section ends in the buffer, none otherwise |
| `RequestWriter.FindBodyStart` | src/proxy.rs:570-587 | the index behind the first line that is just CR LF; None exactly when there is none with bytes behind it |
| `RequestWriter.BodyKept` | src/proxy.rs:541-551 | the rewritten request has the same body exactly when its first two-byte line, if any, is CR LF or ends the buffer |
| `RequestWriter.ForwardExact` | src/proxy.rs:522-618 | remove_site_name then write_req on any request line: the slug leaves the target, one header carries it, nothing else changes, and only an existing header makes it panic |
| `HeaderFields.ConstantsSpelled` | src/proxy.rs:552-556 | the header name, the separator and the line end are these texts |
| `HeaderFields.CountedExactly` | src/proxy.rs:552 | it meets a proxy header exactly when a line of the header section has a field of that name |
| `HeaderFields.AddedSays` | src/proxy.rs:541-546 | a reader of header fields finds in the added line the name Rusty-Proxy-Path, letter for letter, and as its value the name given, blanks around it trimmed |
| `HeaderFields.ForwardAddsField` | src/proxy.rs:522-618 | whatever header section ends in the buffer: behind the proxy a reader finds its lines and one more, whose field is Rusty-Proxy-Path with the slug as value; a panic exactly when a line has that name already |
| `HeaderFields.ForwardFields` | src/proxy.rs:522-618 | on every request built from a request line, fields and a body: exactly when no field has the proxy's name it comes out with the slug taken out of the target and the one field behind the others, all else as it was; else a panic |
| `HeaderFields.RefererPasses` | src/proxy.rs:522-618 | one request with a Referer field and what is made of it, spelled out in full |
| `RequestWriter.ForwardKeepsBody` | src/proxy.rs:522-587 | the body behind the rewriting is the body before it, exactly under that condition |
| `RequestWriter.AcceptedKeepsBody` | src/proxy.rs:522-618 | the same for whatever request remove_site_name accepts; if the slug runs over the end of its line, the body is kept exactly when no header is added |
| `RequestWriter.HeaderOnFirstRead` | src/proxy.rs:541-551 | rewriting the part of a request that was read first and sending the rest as it is makes the same as rewriting it whole, exactly when the header section ended in that part or does not end at all |
| `RequestWriter.NeverUnchanged` | src/proxy.rs:522-618 | an accepted request that names a site is never written as it came in |
| `RequestWriter.BodyLostExample` | src/proxy.rs:541-551 | whole requests, for any site, whose bare two-byte line moves a header line into the forwarded body |
| `RequestWriter.HeaderPresentExample` | src/proxy.rs:553-558 | a request with the header, on which it panics |
| `RequestWriter.SecondProxyPanics` | src/proxy.rs:553-558 | what one proxy forwards makes a second one panic, exactly when its header section ended in the buffer |
| `RoutingAnswers.FaviconSpelled` | src/proxy.rs:255 | the name answered as a favicon is this text |
| `RoutingAnswers.AnswersAreExact` | src/proxy.rs:233-416 | for every chunk of every connection, by mode and by what it names, exactly when it gets the home page, not found, bad request or an internal error |
| `RoutingAnswers.WritesAreExact` | src/proxy.rs:233-362 | and exactly when it is written to a server, to which one, and as what bytes |
| `RoutingSpec.EachChunkOnce` | src/proxy.rs:215-416 | each chunk read has exactly one event, in order, up to a chunk that ends the connection, and none behind it |
| `RoutingSpec.SessionsAreExact` | src/proxy.rs:329-362 | a connection is in a session to a server exactly when an earlier chunk opened it and every chunk since was answered as a favicon or written to that server |
| `RoutingSpec.ServerGetsItsOwn` | src/proxy.rs:329-362 | whatever is written to a server is the chunk at that place, in a session to that server that is still open: rewritten if its own slug names the server, unchanged if it is unparsable |
| `RoutingSpec.EndStep` | src/proxy.rs:215-362 | by mode and chunk, exactly when the connection ends: a failed read, no data, an unparsable chunk outside a session, a panic; only the unparsable one is answered |
| `RoutingSpec.RunLength` | src/proxy.rs:215-416 | a connection has an event for every chunk before the first that ends it, and for that one only if it is rejected |
| `RoutingSpec.NothingLost` | src/proxy.rs:215-416 | no chunk goes without an event as long as none ends the connection, whatever is registered, reachable or fails |
| `RoutingSpec.PassedOnExactly` | src/proxy.rs:333-357 | in a session a chunk is written to the server unchanged exactly when it holds data, does not parse and can be written; what parses never is |
| `RoutingSpec.PiecesMakeUpRequest` | src/proxy.rs:329-360 | a request that takes several reads: all its pieces go to the server of its slug and nothing else does; together they are the whole request rewritten, exactly when its header section ended in the first read or does not end at all |
| `RoutingSpec.HeaderMissedExample` | src/proxy.rs:349-357 | a request whose blank line comes with the second read, which reaches its server without the added header |
| `RoutingSpec.BodyTakenForRequestExample` | src/proxy.rs:333-347 | more of a body that parses as a request line, which is taken for a request and never reaches the server |
| `RoutingSpec.AllForwarded` | src/proxy.rs:215-416 | with all sites known and reachable each request reaches the server of its slug, rewritten exactly, however sessions switch |
| `Routing.ReadInto` | src/proxy.rs:193-198 | a read fills the buffer from an index on and keeps what is before it |
| `Routing.Relay` | src/proxy.rs:333-358 | one chunk of a session is handled as specified |
| `Routing.ClientFuture` | src/proxy.rs:329-362 | the session loop; when it breaks off, the chunk that names another site is still in the buffer, unprocessed |
| `Routing.Open` | src/proxy.rs:233-316 | the statements of the outer loop up to the first write give the step of the proxy's handler |
| `Routing.ServeClient` | src/proxy.rs:215-416 | the outer loop with the session loop inside, over one buffer, is the chunk-by-chunk run |
| `Routing.StreamKept` | src/proxy.rs:193-213 | the four bytes read first and the chunks behind them make up the stream that came: nothing lost, in order |
| `Routing.HandleHttp` | src/proxy.rs:179-416 | the same from the first four bytes on; a request cut behind its fourth byte reaches its server as if in one piece |

## Left out

- Reclamation: raw pointers, `Box::from_raw` and `Drop`. Cells and snapshots are garbage collected, EXPUNGED is a tag of its own, and a box keeps its address for ever, so the reuse of an address between a load and a compare-exchange does not occur in the model.
- Weak memory orderings: every atomic action is sequentially consistent. The file marks its orderings as unfinished.
- `AtomicValue` and `AtomicValueUnchecked`: the published snapshot is one atomic register.
- The lookup in a loaded snapshot is one step with its load, since a snapshot never changes; a second or third load of the snapshot under the lock is likewise one with the first where no one else can have published in between.
- A poisoned mutex, and operations that panic while they hold it.
- Atomicity of keys, values and key_values under concurrency: they are not a consistent snapshot there. `ScanIsTruthful` states what they are; the exact contracts are sequential.
- `SyncMapClass.SyncMap.Keys`: iterates in any order, as a hash map may. In this class the entry cells are one numbered field rather than one object each: a cell's number is its identity, and writing a cell updates that field.
- Sockets, TLS, timeouts, short writes, flushing, logging, JSON and HTML: a write appends to a log, a read is an input, and a route lookup, a connection and a write that fails are parts of the input.
- `Routing.HandleHttp`: does not model the server-side future of a session, which may end it as well, nor the choice `select!` makes between the two; a favicon request inside a session is answered at once instead of through a channel. When writing to the client fails there, the code keeps the old `bytes_read` and handles the buffer again; that path is not modelled.
- `serve_base` is one answer: `add_server` and `delete_server` are clients of the map. `handle_connect` and `handle_tunnel` are unfinished in the code.
- `from_utf8_lossy` is a parameter of `write_req`.
- `SpecialReqHeader`, the `Server` builder and `to_link`, and `src/old/`, which the current files supersede: they would add easy members only.
