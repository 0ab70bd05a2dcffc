# MiniStore engine: a verified model

A Dafny model of MiniStore's store engine as one stack, from the linked structures at the bottom to the
append-only file, the snapshots and the reply stream at the top, with proofs of what each layer promises.
`dafny verify dfyconfig.toml` checks the whole project.

The imperative parts keep their form: classes with the original's fields, updated in place, loops with invariants,
and the asynchronous functions cut at their awaits. Each class method is proved to change the whole abstract state,
and to answer, as a specification function says; the laws over whole runs are then proved about those functions.
For the store the specification is a table (`StoreSpec.Meaning`): lazy expiry first, then an effect that depends only
on the key's own value and deadline, then its commit with or without making room.

| file | what it models |
|---|---|
| `Options.dfy`, `Sequences.dfy`, `OrderedMap.dfy` | option type, duplicate-free sequences, the insertion-ordered map that a JavaScript `Map` is |
| `LRUTracker.dfy` | the doubly linked list with its hash index, refining a recency sequence |
| `ExpiryManager.dfy` | deadlines, dense array, position index, rotating cursor |
| `StoreSpec.dfy`, `StoreFacts.dfy`, `StoreRelations.dfy` | the store's operations as a table, the lockstep invariant, comparing two stores |
| `InMemoryStore.dfy`, `RecencyWalk.dfy` | the store as an object, and what its recency listing yields |
| `Laws.dfy` | what the data commands mean to a client, as laws between commands in the text of their replies |
| `LruInclusion.dfy`, `WorkingSet.dfy`, `Sweeps.dfy`, `Conservation.dfy` | laws over whole runs of the store |
| `Text.dfy`, `CommandParser.dfy`, `Spelling.dfy` | decimal numbers, tokens, command lines, and how they may be spelled |
| `Replies.dfy`, `ReplyParser.dfy`, `ReplyRoundTrip.dfy` | the wire format, the incremental parser, and what a client hears of what is sent |
| `Printing.dfy`, `AofSteps.dfy`, `Dumping.dfy` | the lines a store is printed as; the writer and its rewrite as a step machine; dumps and saves |
| `Execution.dfy`, `Transactions.dfy` | what a command does, logs and answers; MULTI, EXEC, DISCARD over interleaved connections |
| `Guarding.dfy`, `Access.dfy`, `CommandHandler.dfy` | password, disabled commands, restricted subscribers, and what they change; the handler as an object |
| `Services.dfy`, `Answers.dfy` | subscriptions and snapshots of the running server; what its clients hear |
| `LogReplay.dfy`, `Compaction.dfy`, `Rebuild.dfy` | replaying the log; printing the store and rebuilding it |
| `EngineRuns.dfy`, `AofRewrite.dfy`, `AofWriter.dfy` | runs of store and writer together; what the file replays to; the writer as an object over files |
| `Recovery.dfy`, `Disk.dfy` | recovery after a crash, for whatever the connections send; the same from the text on disk |
| `Persistence.dfy`, `Restore.dfy`, `PersistenceManager.dfy` | the mutation count and the dump; restoring; the manager as an object |
| `Startup.dfy` | the append-only file replayed on top of the snapshot |
| `PubSub.dfy`, `PubSubManager.dfy` | the two subscription indexes; the manager as an object |

## Conventions

- The clock is an argument, read once per operation; the code reads it several times. Laws that need it say that it
  does not run backwards.
- A `Map` is an insertion-ordered map, a `Set` a duplicate-free sequence. Files are sequences of lines;
  `Disk.ReadWritten` and `Disk.TextReplays` connect them with their text.
- The listeners and the connections' `write` are recorded as the sequence of their calls.
- Errors thrown are results: a refused save or rewrite, a write to a closed descriptor.

## Where the code and its documentation differ

The model follows the code.

- The documentation promises to recover the exact state from before a crash (`README.md`, line 115). An HSET that only
  overwrites fields is not logged, nor is an expiry or an eviction: `LogReplay.CommandStep` says for every command exactly
  when replay still agrees (`LogReplay.ExpiryExact`, `LogReplay.EvictionExact` and `LogReplay.PurgeExact` are its
  hard cases), and `AofRewrite.FileStepExact` does for every event of the running engine.
- Replaying the file on top of a snapshot appends to its lists and keeps its further keys and fields: `Startup.StartupExact`.
- A line logged between detaching the rewrite buffer and reopening the file is not in the new file:
  `AofRewrite.RewrittenFile`, `AofRewrite.GapWrite`. A failed rename leaves the writer without a file for good:
  `AofRewrite.FailedRenameSticks`.
- A line with a carriage return (or another line terminator) between its words is one line to the server and two in the
  file: `Disk.LineLost`.
- A list whose first element is `message`, `subscribe` or `unsubscribe` is taken for a push when LRANGE answers it:
  `ReplyRoundTrip.PushExactly`.
- Creating a list does not count as a mutation, so the timer may skip a snapshot: `Persistence.StepDirty`,
  `Persistence.MissedCreation`.
- `restore` is documented to bypass the capacity; it does not: `Restore.RestoreWindow`.
- A key or field named `__proto__` does not survive a dump: `Restore.RoundTripExact`.
- The recency listing stops at the first expired key: `RecencyWalk.WalkComplete`.
- An array with elements inside an EXEC reply is misread by the client's parser, and no other part that is clean by itself:
  `ReplyRoundTrip.ExecFaithful`, `ReplyRoundTrip.NestedArrayMisread`.

## Model

| member | source | states |
|---|---|---|
| `LRU.LRUTracker.Touch` | store-engine/src/store/LRUTracker.ts:40-51 | The recency order becomes the key in front of the order without it, for a new key and for a known one; the nodes stay one acyclic, doubly linked chain whose keys are the index's. |
| `LRU.LRUTracker.Delete` | store-engine/src/store/LRUTracker.ts:58-64 | Exactly that key leaves the order, the answer says whether it was there, and the unlinked node no longer leads anywhere. |
| `LRU.LRUTracker.PeekLRU` | store-engine/src/store/LRUTracker.ts:67-69 | The last key of the order, none if it is empty. |
| `LRU.LRUTracker.EvictLRU` | store-engine/src/store/LRUTracker.ts:75-81 | The last key of the order is removed and returned; the rest keeps its order. |
| `LRU.LRUTracker.KeysMRU` | store-engine/src/store/LRUTracker.ts:84-90 | The walk along the links ends and yields the whole recency order. |
| `LRU.LRUTracker.PushFront` | store-engine/src/store/LRUTracker.ts:92-102 | Linking a node in front keeps the chain linked both ways and puts its key first. |
| `LRU.LRUTracker.Unlink` | store-engine/src/store/LRUTracker.ts:104-118 | Cutting out the i-th node leaves the chain of all others, in order, and clears the node's own links. |
| `LRU.LRUTracker.Size` | store-engine/src/store/LRUTracker.ts:27-29 | The size of the index is the length of the recency order. |
| `LRU.LRUTracker.Has` | store-engine/src/store/LRUTracker.ts:32-34 | Membership in the index is membership in the recency order. |
| `LRU.LRUTracker.RecencyIndexed` | store-engine/src/store/LRUTracker.ts:22-24 | In every valid state the order has no duplicates and holds exactly the indexed keys. |
| `LRU.LRUTracker.constructor` | store-engine/src/store/LRUTracker.ts:21-24 | A new tracker is valid and empty. |
| `LRU.PromoteKeys` | store-engine/src/store/LRUTracker.ts:42-46 | Moving the i-th node of a chain to the front is moving its key to the front of the order; for the head nothing changes. |
| `Expiry.ExpiryManager.Set` | store-engine/src/store/ExpiryManager.ts:37-45 | The deadline map is updated at that key, a new key goes to the end of the dense array, and array and position index stay mutual inverses. |
| `Expiry.ExpiryManager.Clear` | store-engine/src/store/ExpiryManager.ts:48-61 | Swap-remove: the key leaves the deadline map, the last key of the array takes its position, the inverse is kept; the answer says whether there was a deadline. |
| `Expiry.ExpiryManager.CollectExpired` | store-engine/src/store/ExpiryManager.ts:82-96 | One sampling round returns the due keys at the positions the cursor visits, and only the cursor moves. |
| `Expiry.ExpiryManager.Examine` | store-engine/src/store/ExpiryManager.ts:87-93 | The loop examines consecutive positions from the cursor, wrapping at the end. |
| `Expiry.ExpiryManager.IsExpired` | store-engine/src/store/ExpiryManager.ts:64-67 | Expired means that there is a deadline and it is at or before now. |
| `Expiry.ExpiryManager.RemainingMs` | store-engine/src/store/ExpiryManager.ts:70-74 | The time left, 0 once it has passed, none without a deadline. |
| `Expiry.ExpiryManager.Size` | store-engine/src/store/ExpiryManager.ts:27-29 | As many deadlines as entries of the dense array. |
| `Expiry.ExpiryManager.Has` | store-engine/src/store/ExpiryManager.ts:32-34 | Whether there is a deadline. |
| `Expiry.ExpiryManager.constructor` | store-engine/src/store/ExpiryManager.ts:16-24 | A new manager is valid and empty. |
| `Expiry.InverseSwapRemove` | store-engine/src/store/ExpiryManager.ts:53-59 | Swap-remove together with the re-indexing of the moved key keeps array and position index mutual inverses and drops exactly one key. |
| `Expiry.ClearValid` | store-engine/src/store/ExpiryManager.ts:48-61 | Whatever the swap does to the order, the key set loses exactly the cleared key. |
| `Expiry.CollectSound` | store-engine/src/store/ExpiryManager.ts:76-96 | A round returns only expired keys, none twice, examines distinct positions and leaves the cursor inside the array. |
| `Expiry.SetThenClear` | store-engine/src/store/ExpiryManager.ts:37-61 | A deadline set and cleared again leaves deadlines, order and cursor as they were; one that is set anew only changes. |
| `Expiry.CollectExactly` | store-engine/src/store/ExpiryManager.ts:82-96 | A round of `limit` looks at that many keys, or all if there are fewer, from the cursor on and around; it returns exactly those of them that are due, and the cursor stops behind the last one. |
| `Expiry.RoundsCover` | store-engine/src/store/ExpiryManager.ts:82-96 | Cursor coverage: with nothing set or cleared in between, m successive rounds of `limit` keys, m * limit at least the number of keys, return every due key and no other, from any cursor, even one past the end. |
| `Expiry.SweepsProgress` | store-engine/src/store/ExpiryManager.ts:48-96 | If some key is due, enough rounds with removal in between clear at least one due key, although swap-remove moves keys behind the cursor. |
| `Expiry.SweepLiveness` | store-engine/src/store/ExpiryManager.ts:48-96 | With the clock fixed, n deadlines, E of them due, and samples of `limit`: after E * ceil(n / limit) sweeps none is due. |
| `StoreFacts.StepValid` | store-engine/src/store/InMemoryStore.ts:40-44 | Every public operation keeps the lockstep invariant: value keys are the recency keys, deadlines a subset, at most `maxKeys` keys, the eviction counter is the number of eviction calls. |
| `StoreFacts.RunValid` | store-engine/src/store/InMemoryStore.ts:40-44 | The same over every run of operations at any times. |
| `StoreFacts.GateValid` | store-engine/src/store/InMemoryStore.ts:377-388 | After the lazy-expiry gate the key is not past its deadline, and the invariant holds. |
| `StoreFacts.ReserveValid` | store-engine/src/store/InMemoryStore.ts:370-405 | Making room leaves a held key alone, and leaves room for a new one without adding keys. |
| `StoreFacts.RemoveKeyValid` | store-engine/src/store/InMemoryStore.ts:407-415 | Removing a key takes it out of all structures and touches no other key. |
| `StoreFacts.ScanStep` | store-engine/src/store/InMemoryStore.ts:129-139 | One step of the key listing: the keys passed so far stay listed in insertion order and the ones to come stay behind them, although expired keys vanish under the iteration. |
| `StoreFacts.MatchingAll` | store-engine/src/store/InMemoryStore.ts:129-139 | The pattern `*` lists every key, in order. |
| `StoreFacts.GlobLiteral` | store-engine/src/store/InMemoryStore.ts:130-134 | A pattern without `*` matches itself only, whatever other special characters it holds. |
| `StoreFacts.GlobStar` | store-engine/src/store/InMemoryStore.ts:130-134 | A leading `*` stands for any characters, none included. |
| `StoreFacts.GlobPrefix` | store-engine/src/store/InMemoryStore.ts:130-134 | A literal beginning of a pattern stands for itself. |
| `StoreSpec.Matching` | store-engine/src/store/InMemoryStore.ts:130-137 | The listing holds exactly the keys that the pattern matches. |
| `Memory.InMemoryStore.constructor` | store-engine/src/store/InMemoryStore.ts:60-68 | A new store is the empty state. |
| `Memory.Create` | store-engine/src/store/InMemoryStore.ts:60-63 | A capacity below 1 is refused; any other gives an empty store of that capacity. |
| `Memory.InMemoryStore.RemoveKey` | store-engine/src/store/InMemoryStore.ts:407-415 | The whole state changes as one removal from all three structures. |
| `Memory.InMemoryStore.ExpireIfNeeded` | store-engine/src/store/InMemoryStore.ts:377-388 | The gate: true exactly when a held key was past its deadline, which is then gone and reported. |
| `Memory.InMemoryStore.MakeRoomForNewKey` | store-engine/src/store/InMemoryStore.ts:390-405 | The least recently used key goes, reported as an expiry if it was past its deadline and as an eviction otherwise. |
| `Memory.InMemoryStore.ReserveSlotFor` | store-engine/src/store/InMemoryStore.ts:370-375 | Room is made only for a new key at capacity. |
| `Memory.InMemoryStore.Get` | store-engine/src/store/InMemoryStore.ts:72-78 | New state and answer are those of the table for GET: a string counts as used, anything else is a miss that leaves recency alone. |
| `Memory.InMemoryStore.Set` | store-engine/src/store/InMemoryStore.ts:80-91 | New state is the table's for SET: the value replaces any kind, the deadline is set or dropped, room is made first. |
| `Memory.InMemoryStore.Delete` | store-engine/src/store/InMemoryStore.ts:93-98 | New state and answer are the table's for DEL; an expired key counts as absent. |
| `Memory.InMemoryStore.Expire` | store-engine/src/store/InMemoryStore.ts:100-107 | New state and answer are the table's for EXPIRE: deadline, use and mutation count together or not at all. |
| `Memory.InMemoryStore.Exists` | store-engine/src/store/InMemoryStore.ts:109-111 | The answer is the table's for EXISTS and only the gate changes the state. |
| `Memory.InMemoryStore.Ttl` | store-engine/src/store/InMemoryStore.ts:113-118 | -2 for a missing key, -1 without a deadline, otherwise the seconds left, rounded up. |
| `Memory.InMemoryStore.Persist` | store-engine/src/store/InMemoryStore.ts:120-127 | New state and answer are the table's for PERSIST: only a held key with a deadline changes. |
| `Memory.InMemoryStore.KeyType` | store-engine/src/store/InMemoryStore.ts:143-146 | The kind of a live key, none otherwise, without a use. |
| `Memory.InMemoryStore.MatchingKeys` | store-engine/src/store/InMemoryStore.ts:129-139 | Every expired key is reclaimed in the course of the iteration, and the live keys that match are listed in insertion order. |
| `Memory.InMemoryStore.PushNewList` | store-engine/src/store/InMemoryStore.ts:342-350 | Creating a list from pushed values: room is made, the values stand in reverse, no mutation is counted. |
| `Memory.InMemoryStore.PushNewListTail` | store-engine/src/store/InMemoryStore.ts:352-360 | The same with the values in order. |
| `Memory.InMemoryStore.CreateHash` | store-engine/src/store/InMemoryStore.ts:362-368 | A slot is made free and an empty hash stands at the key. |
| `Memory.InMemoryStore.LPush` | store-engine/src/store/InMemoryStore.ts:150-159 | New state and answer are the table's for LPUSH, type mismatch included. |
| `Memory.InMemoryStore.RPush` | store-engine/src/store/InMemoryStore.ts:191-200 | New state and answer are the table's for RPUSH. |
| `Memory.InMemoryStore.LPop` | store-engine/src/store/InMemoryStore.ts:161-174 | New state and answer are the table's for LPOP: the head goes, and the key with the last element. |
| `Memory.InMemoryStore.RPop` | store-engine/src/store/InMemoryStore.ts:202-215 | The same at the tail. |
| `Memory.InMemoryStore.LRange` | store-engine/src/store/InMemoryStore.ts:176-189 | The answer is the inclusive slice with negative bounds counted from the end and clamped. |
| `Memory.InMemoryStore.LLen` | store-engine/src/store/InMemoryStore.ts:217-224 | The length, as a use of the key. |
| `Memory.InMemoryStore.HSet` | store-engine/src/store/InMemoryStore.ts:228-241 | New state and answer are the table's for HSET: the answer is the number of fields that were not there before. |
| `Memory.InMemoryStore.HGet` | store-engine/src/store/InMemoryStore.ts:243-250 | The field's value as a use of the key. |
| `Memory.InMemoryStore.HDel` | store-engine/src/store/InMemoryStore.ts:252-268 | New state and answer are the table's for HDEL. |
| `Memory.InMemoryStore.HGetAll` | store-engine/src/store/InMemoryStore.ts:270-281 | Fields and values alternate in insertion order. |
| `Memory.InMemoryStore.HLen` | store-engine/src/store/InMemoryStore.ts:283-290 | The number of fields, as a use of the key. |
| `Memory.InMemoryStore.SweepExpired` | store-engine/src/store/InMemoryStore.ts:292-305 | The sampled due keys are removed and reported, and counted in the answer. |
| `Memory.InMemoryStore.Size` | store-engine/src/store/InMemoryStore.ts:307-310 | The number of keys, never above the capacity. |
| `Memory.InMemoryStore.KeysMRU` | store-engine/src/store/InMemoryStore.ts:331-338 | The generator goes on over the tracker's links after each key; because the removal of the first expired key has cleared that node's links, it yields the keys before it, reclaims it, and ends there. |
| `Memory.PushHead` | store-engine/src/store/InMemoryStore.ts:155-155 | The loop of `unshift`s leaves the pushed values in reverse in front of the list. |
| `Memory.PushTail` | store-engine/src/store/InMemoryStore.ts:196-196 | The loop of `push`es appends the values in order. |
| `Memory.SetFields` | store-engine/src/store/InMemoryStore.ts:233-237 | Setting pairs in order is the fold of single updates, and the count is the growth of the field set. |
| `Memory.DeleteFields` | store-engine/src/store/InMemoryStore.ts:257-260 | Deleting fields in order is the fold of single removals, and the count is the shrinkage; a count of 0 leaves the hash as it was. |
| `Memory.Entries` | store-engine/src/store/InMemoryStore.ts:276-280 | The loop lists all fields and values, alternating. |
| `RecencyWalk.WalkComplete` | store-engine/src/store/InMemoryStore.ts:331-338 | The recency listing is all live keys if and only if no live key comes after the first expired one. |
| `RecencyWalk.WalkReclaims` | store-engine/src/store/InMemoryStore.ts:331-338 | The listing reclaims the first expired key it meets, reports it, and changes nothing else about any key. |
| `Laws.SetThenGet` | store-engine/src/store/InMemoryStore.ts:72-91 | SET answers OK, and GET at any other time the value, unless the seconds given with it have passed by then. |
| `Laws.GetActs` | store-engine/src/server/CommandHandler.ts:135-140 | GET of a live string is its text and a use of it, of a live list or hash a type error, of anything else nil; nothing else about the key changes. |
| `Laws.OnMissing` | store-engine/src/store/InMemoryStore.ts:93-127 | A key that is missing or past its deadline answers nil to GET, 0 to DEL, EXISTS, EXPIRE and PERSIST, and -2 to TTL. |
| `Laws.OnLive` | store-engine/src/store/InMemoryStore.ts:93-127 | A live key answers 1 to EXISTS; DEL answers 1 and removes it; EXPIRE answers 1 and sets exactly that deadline; PERSIST answers 1 if and only if there was a deadline, and there is none afterwards; both leave the value. |
| `Laws.TtlAnswers` | store-engine/src/store/InMemoryStore.ts:113-118 | TTL of a live key is -1 without a deadline and otherwise the seconds left, a begun one counted whole. |
| `Laws.ExpireThenTtl` | store-engine/src/store/InMemoryStore.ts:100-118 | EXPIRE, then TTL at any time: what is left of the seconds given, or -2 once they have passed. |
| `Laws.DeadlineStays` | store-engine/src/store/InMemoryStore.ts:72-290 | No command but SET, EXPIRE and PERSIST moves the deadline of a key that stays. |
| `Laws.UseMoves` | store-engine/src/store/InMemoryStore.ts:72-290 | Command by command, which ones count as a use of a live key: after those it is the most recently used key, after the others the order is as before. |
| `Laws.WrongKind` | store-engine/src/server/CommandHandler.ts:135-244 | A command for another kind of value is answered WRONGTYPE and changes neither the key's value, nor its deadline, nor the order of use. |
| `Laws.ListMissing` | store-engine/src/store/InMemoryStore.ts:161-224 | Pops of a missing key answer nil, LLEN 0, LRANGE an empty array. |
| `Laws.PushOnMissing` | store-engine/src/store/InMemoryStore.ts:150-200 | A push on a missing key answers the number of values and begins a list without a deadline: RPUSH in order, LPUSH backwards. |
| `Laws.PushOnLive` | store-engine/src/store/InMemoryStore.ts:150-200 | A push on a live list answers the new length; RPUSH appends in order, LPUSH puts the values backwards in front. |
| `Laws.ListLive` | store-engine/src/store/InMemoryStore.ts:161-224 | LPOP answers the first element and leaves the others, RPOP the last; the key goes with the only one; LLEN counts. |
| `Laws.QueueAndStack` | store-engine/src/store/InMemoryStore.ts:150-215 | What RPUSH has put on a missing key, as many LPOPs at any times answer in the same order and RPOPs backwards, LPUSH the other way about, and then the key is gone. |
| `Laws.PushThenPop` | store-engine/src/store/InMemoryStore.ts:150-174 | LPUSH of a value, then LPOP: that value, and the list with its deadline as before. |
| `Laws.PushThenPopTail` | store-engine/src/store/InMemoryStore.ts:191-215 | RPUSH of a value, then RPOP: that value, and the list with its deadline as before. |
| `Laws.RangeAnswers` | store-engine/src/store/InMemoryStore.ts:176-189 | LRANGE answers exactly the elements from one bound to the other, in order; negative bounds count from the end, and bounds beyond the ends are the ends. |
| `Laws.HashMissing` | store-engine/src/store/InMemoryStore.ts:243-290 | HGET of a missing key answers nil, HDEL and HLEN 0, HGETALL an empty array. |
| `Laws.SetThenGetField` | store-engine/src/store/InMemoryStore.ts:228-250 | HSET of any pairs, then HGET of any field: the last value given to it, else the one it had, else nil. |
| `Laws.SetCountsFields` | store-engine/src/store/InMemoryStore.ts:228-290 | HSET answers by how much HLEN has grown. |
| `Laws.FieldsRemoved` | store-engine/src/store/InMemoryStore.ts:252-268 | HDEL answers how many of the fields there were, removes exactly those, keeps the others with their values, and removes the key with the last one. |
| `Laws.HashLive` | store-engine/src/store/InMemoryStore.ts:243-290 | HGET answers the field's value or nil, HLEN the number of fields, HGETALL fields and values in turn in field order. |
| `Laws.KeysAnswers` | store-engine/src/store/InMemoryStore.ts:129-139 | KEYS answers exactly the live keys that match, each once, in insertion order. |
| `Laws.LoggedExactly` | store-engine/src/server/CommandHandler.ts:128-244 | Exactly which data commands are logged: SET always, the others when the key, the deadline, an element or a field was there to change, and HSET only if it adds a field. |
| `Laws.CountedExactly` | store-engine/src/store/InMemoryStore.ts:72-290 | Exactly what the mutation count counts: every key that expires or is evicted, and of the commands SET, a push on a live list, an HSET with pairs, and whatever else takes away a key, a deadline, an element or a field or sets a deadline; a push that begins a list is not counted. |
| `Laws.SweepAnswers` | store-engine/src/store/InMemoryStore.ts:292-305 | A sweep answers how many keys it has reclaimed; exactly those are reported and counted, and each was due; every other key keeps value and deadline. |
| `Laws.ArraySpelled` | protocol/src/replies.ts:35-41 | The text of an array: its number of items behind an asterisk, then a dollar line for each. |
| `LruInclusion.RunInside` | store-engine/src/store/InMemoryStore.ts:72-139 | LRU inclusion: over any run without sweeps and without pushes or HSETs, at capacities c <= C, the small store's keys are keys of the large one with equal values, deadlines and relative recency, and the difference in size never exceeds C - c. |
| `LruInclusion.NoLostHit` | store-engine/src/store/InMemoryStore.ts:72-139 | A larger `maxKeys` never turns a hit into a miss: what the small store answers about a live key, the large one answers too. |
| `LruInclusion.GrowthInside` | store-engine/src/store/InMemoryStore.ts:150-241 | LPUSH, RPUSH and HSET keep the inclusion when the key is live in both stores or in neither. |
| `LruInclusion.PushInclusion` | store-engine/src/store/InMemoryStore.ts:150-200 | A push keeps the inclusion if and only if the small store still holds the key live or the large one does not either. |
| `LruInclusion.HSetInclusion` | store-engine/src/store/InMemoryStore.ts:228-241 | HSET keeps the inclusion if and only if the small store still holds the key live, or the large one does not either, or the large one's hash has no deadline and becomes exactly the hash that the pairs alone make. |
| `WorkingSet.WorkingSetGuarantee` | store-engine/src/store/InMemoryStore.ts:370-405 | When the last operation of any run evicts a key, at least `maxKeys` distinct other keys have been used since that key's last use. |
| `WorkingSet.EvictionCause` | store-engine/src/store/InMemoryStore.ts:394-405 | An eviction happens only when a new key is written into a full store, and its victim is the last key by recency, still live. |
| `WorkingSet.WriteSparesOthers` | store-engine/src/store/InMemoryStore.ts:370-415 | A write spares every key but the victim: value, deadline and relative recency. |
| `WorkingSet.CoveredRun` | store-engine/src/store/LRUTracker.ts:40-51 | At every point of a run, each key of the recency order has been used, and every key before it has been used since. |
| `Sweeps.SweepsInvisible` | store-engine/src/store/InMemoryStore.ts:292-305 | Inserting sweeps of any size anywhere into a run that never inserts a new key at capacity changes no reply, the order of KEYS included. |
| `Sweeps.RunPruned` | store-engine/src/store/InMemoryStore.ts:377-388 | The swept store is the unswept one without some expired keys, at every point of the run. |
| `Sweeps.SweepSavesVictim` | store-engine/src/store/InMemoryStore.ts:390-405 | The capacity condition is needed: when SET brings a new key to a full store whose least recently used key is live, EXISTS of that key answers 0; after a sweep at the same instant it answers 1 if and only if the sweep samples some expired key. |
| `Sweeps.SweepsCatchUp` | store-engine/src/store/InMemoryStore.ts:292-305 | In the store, after E * ceil(n / limit) sweeps at one instant no key is past its deadline. |
| `Conservation.RunAccounted` | store-engine/src/store/InMemoryStore.ts:161-415 | Key by key over any run: creations are presence now, plus expiry reports, plus eviction reports, plus deletions, plus drops of emptied lists and hashes. |
| `Conservation.RunCounts` | store-engine/src/store/InMemoryStore.ts:382-415 | The same as a count, with `evictions` the number of eviction reports. |
| `Conservation.StepAccounted` | store-engine/src/store/InMemoryStore.ts:161-415 | One operation balances: what it creates, removes and reports. |
| `Conservation.RunNonempty` | store-engine/src/store/InMemoryStore.ts:167-268 | When pushes and HSETs carry an item, no list and no hash is ever empty. |
| `Text.TokensAreWords` | protocol/src/CommandParser.ts:10-10 | Trimming, splitting at whitespace and dropping empty pieces yields exactly the maximal space-free runs of the line, and trimming first changes nothing. |
| `Text.TrimExactly` | store-engine/src/store/AofWriter.ts:59-59 | Trimming takes the whitespace at both ends of a line and nothing else. |
| `Text.TokensJoin` | protocol/src/CommandParser.ts:10-10 | Tokens joined by single spaces read back as those tokens. |
| `Text.PositiveRoundTrip` | protocol/src/CommandParser.ts:216-222 | A printed TTL within bounds parses to itself. |
| `Text.SignedRoundTrip` | protocol/src/CommandParser.ts:224-231 | A printed index within the safe integers parses to itself. |
| `Text.DecimalValue` | protocol/src/CommandParser.ts:217-222 | The decimal text of a number has that number as its value. |
| `CommandParser.ParseHset` | protocol/src/CommandParser.ts:141-150 | The loop pairs fields with values; odd or missing arguments are an arity error. |
| `CommandParser.ParsedWellFormed` | protocol/src/CommandParser.ts:9-109 | Every parsed data command carries tokens only, TTLs within bounds and non-empty argument lists. |
| `Text.TrimJoin` | store-engine/src/store/AofWriter.ts:59-59 | A line printed from tokens has nothing to trim. |
| `CommandParser.PrintParses` | protocol/src/CommandParser.ts:9-211 | Every command within the parser's bounds, of every kind, is what its printed line parses to. |
| `CommandParser.ParsedIsPrinted` | protocol/src/CommandParser.ts:9-231 | Nothing else parses: a line that does is, token by token, the printed command, up to the case of the command word and of EX (the letters outside ASCII whose upper case is ASCII included) and to the spelling of numbers. |
| `Spelling.SpelledParses` | protocol/src/CommandParser.ts:9-231 | And conversely: every line whose words agree with a printed command, the command word and EX letter by letter up to ASCII case, numbers up to leading zeros, everything else exactly, parses to that command. |
| `Spelling.UpperSpelled` | protocol/src/CommandParser.ts:15-15 | A word in ASCII is upper-cased to a word of capitals if and only if the two agree letter by letter up to case. |
| `Spelling.KeyLines` | protocol/src/CommandParser.ts:15-108 | The lines of GET, DEL and EXISTS. |
| `Spelling.MoreKeyLines` | protocol/src/CommandParser.ts:15-108 | Those of TTL, PERSIST, KEYS and SET. |
| `Spelling.ListLines` | protocol/src/CommandParser.ts:15-108 | Those of LPOP, RPOP and LLEN. |
| `Spelling.PushLines` | protocol/src/CommandParser.ts:15-108 | Those of LPUSH and RPUSH. |
| `Spelling.HashLines` | protocol/src/CommandParser.ts:15-108 | Those of HGETALL and HLEN. |
| `Spelling.OneFieldLines` | protocol/src/CommandParser.ts:15-108 | Those of HGET and HDEL. |
| `Spelling.FieldLine` | protocol/src/CommandParser.ts:141-150 | That of HSET. |
| `Spelling.ServerLines` | protocol/src/CommandParser.ts:15-108 | Those of BGSAVE, BGREWRITEAOF, MULTI, EXEC, DISCARD and AUTH. |
| `Spelling.SubscriptionLines` | protocol/src/CommandParser.ts:15-108 | Those of SUBSCRIBE, UNSUBSCRIBE and PUBLISH. |
| `Spelling.TtlBound` | protocol/src/CommandParser.ts:213-222 | A TTL is accepted exactly from 1 to 9999999999 seconds, in EXPIRE and in SET. |
| `Spelling.RangeBound` | protocol/src/CommandParser.ts:224-231 | A bound of LRANGE is accepted exactly from -9007199254740991 to 9007199254740991. |
| `Spelling.Refused` | protocol/src/CommandParser.ts:11-243 | Every complaint of the parser, by line: an empty line, a word that is none, a number or EX that is none, and in every other case the number of arguments, with the command word in small letters. |
| `Spelling.StrangeWord` | protocol/src/CommandParser.ts:15-15 | A word that holds anything but ASCII letters, dotless i, long s and the two ligatures of s and t is no command word. |
| `Spelling.DotlessWord` | protocol/src/CommandParser.ts:15-15 | Dotless i and either ligature do make a command word, as upper-casing turns them into ASCII letters. |
| `Spelling.LongWord` | protocol/src/CommandParser.ts:15-15 | So does long s. |
| `Spelling.Separates` | protocol/src/CommandParser.ts:10-10 | A character between command word and key separates them if and only if it is one of the listed whitespace characters. |
| `Text.DecimalSpelled` | protocol/src/replies.ts:22-24 | The decimal text of a number, digit by digit. |
| `CommandParser.NameIsWord` | protocol/src/CommandParser.ts:15-108 | Each of the command names is recognised as its own word. |
| `CommandParser.WordIsName` | protocol/src/CommandParser.ts:15-108 | And no other name is. |
| `CommandParser.ParseJoined` | protocol/src/CommandParser.ts:9-109 | A line printed from tokens parses as those tokens. |
| `CommandParser.ParseTrimmed` | protocol/src/CommandParser.ts:10-10 | A line and its trimmed form parse alike. |
| `CommandParser.TransactionWords` | protocol/src/CommandParser.ts:193-206 | The lines MULTI, EXEC and DISCARD parse to those commands. |
| `Replies.Array` | protocol/src/replies.ts:35-41 | The loop prints a header with the number of items and one bulk line per item. |
| `Replies.RawArray` | protocol/src/replies.ts:47-53 | The loop prints a header with the number of replies and the replies as they are. |
| `ReplyStream.FeedSplit` | protocol/src/ReplyParser.ts:18-35 | Feeding two chunks emits the same events and leaves the same state as feeding their concatenation. |
| `ReplyStream.FeedConcat` | protocol/src/ReplyParser.ts:18-35 | The same for any number of chunks. |
| `ReplyRoundTrip.StreamRoundTrip` | protocol/src/ReplyParser.ts:18-100 | Encode any sequence of replies without CRLF in their payloads, EXEC arrays included, cut the text anywhere, feed the pieces: the parser is idle again; the replies come out as meant, in order and pushes told apart, if and only if no value is "(nil)" and no EXEC wraps an array with elements; and there is one event a reply if and only if no EXEC does. |
| `ReplyRoundTrip.StreamHeard` | protocol/src/ReplyParser.ts:18-100 | What the client hears of any such sequence, event by event: a "(nil)" is heard as no value, and of an EXEC reply as many lines as it wraps replies become the array and the rest replies of their own. |
| `ReplyRoundTrip.HeardExactly` | protocol/src/ReplyParser.ts:37-100 | A single reply is heard as meant if and only if it is clean, and as one event if and only if it is no EXEC that wraps an array with elements. |
| `ReplyRoundTrip.PumpReply` | protocol/src/ReplyParser.ts:37-95 | One encoded reply of any kind in front of the buffer is consumed whole, and exactly its events are emitted. |
| `ReplyRoundTrip.ValueFaithful` | protocol/src/ReplyParser.ts:97-100 | A bulk value comes through if and only if it holds no CRLF and is not "(nil)". |
| `ReplyRoundTrip.ExecFaithful` | protocol/src/ReplyParser.ts:37-95 | The reply of EXEC, whatever one-line replies and arrays it wraps, leaves the parser idle, and comes through as one event if and only if no part is an array with elements. |
| `ReplyRoundTrip.NestedArrayMisread` | protocol/src/ReplyParser.ts:37-60 | A witness of the other half: with one array of elements inside, the inner header becomes an element and the inner items become replies of their own. |
| `ReplyRoundTrip.PushExactly` | protocol/src/ReplyParser.ts:50-60 | An array arrives as a push if and only if it has a first item and that is message, subscribe or unsubscribe, and as a reply otherwise; the reply of EXEC does if and only if the first line it wraps reads as one of those words behind its type character. |
| `ReplyRoundTrip.StrayLine` | protocol/src/ReplyParser.ts:61-94 | Lines that no server sends: an empty one is passed over, one of no known kind is reported as an error, a number that cannot be read is heard as none, and an array whose length cannot be read takes every line that follows as an element. |
| `ReplyRoundTrip.StrayItem` | protocol/src/ReplyParser.ts:37-58 | Whatever line stands where an item of an array is expected: its first character is dropped unseen, an empty line is an empty item, and only the nil marker is none. |
| `ReplyRoundTrip.NumberRead` | protocol/src/ReplyParser.ts:75-82 | Whatever whitespace stands before a printed number, whatever sign, and whatever but a digit behind it, that number is read; a sign alone is no number. |
| `ReplyRoundTrip.PushesArrive` | protocol/src/replies.ts:67-77 | A published message and the confirmations of subscribing arrive as pushes, with kind, channel and payload. |
| `ReplyRoundTrip.ParseIntText` | protocol/src/ReplyParser.ts:75-82 | A printed integer is parsed back. |
| `ReplyStream.ReplyParser.Append` | protocol/src/ReplyParser.ts:18-21 | The new state and the emitted events are those of feeding the chunk. |
| `ReplyStream.ReplyParser.RunPump` | protocol/src/ReplyParser.ts:23-35 | The loop consumes every complete line, in order, and stops at the first incomplete one. |
| `ReplyStream.ReplyParser.Process` | protocol/src/ReplyParser.ts:37-95 | One line changes the array state and emits as specified, in every branch. |
| `Execution.ExecuteValid` | store-engine/src/server/CommandHandler.ts:128-283 | Every command of a handler with a store alone keeps the store's invariant and capacity (for the engine with its writer see `EngineRuns.RunHealthy`). |
| `Execution.ThrownExactly` | store-engine/src/store/AofWriter.ts:56-60 | A command throws exactly if its line must be logged and the descriptor is closed, and then its change has been made. |
| `Transactions.QueuesIsolated` | store-engine/src/server/CommandHandler.ts:91-125 | What the handler holds for a connection depends on that connection's own lines only. |
| `Transactions.InputRunsJob` | store-engine/src/server/CommandHandler.ts:62-126 | A line changes store and writer by its own command, or at EXEC by its whole queue, run on the spot, or not at all, and is answered accordingly. |
| `Transactions.Serializable` | store-engine/src/server/CommandHandler.ts:91-125 | For every interleaving of lines from any connections with sweeps, snapshots and the steps of rewrites: store, file, pending rewrite and the answers to the executing lines are those of the serial run of jobs, each transaction at its EXEC; a write that throws abandons the rest of its queue. |
| `Transactions.ContiguousEquivalent` | store-engine/src/server/CommandHandler.ts:91-125 | The trace with each transaction's lines moved together to its EXEC ends in the same store, file and pending rewrite, and its executing lines get the same answers. |
| `Transactions.DiscardLeavesNoTrace` | store-engine/src/server/CommandHandler.ts:114-118 | A transaction that ends in DISCARD leaves no trace, whatever comes between its lines: taking its lines out of any trace leaves the same handler, store and files, and the same answers to all executing lines. A MULTI or a line that does not parse inside it changes nothing of that. |
| `Transactions.SilentLeaves` | store-engine/src/server/CommandHandler.ts:91-125 | More generally, a connection whose lines execute nothing leaves, in any trace, no trace but its own queue. |
| `Transactions.ControlAnswers` | store-engine/src/server/CommandHandler.ts:95-123 | What MULTI, EXEC, DISCARD and a queued line are answered, inside a transaction and outside, in the text of the replies. |
| `Transactions.QueueLines` | store-engine/src/server/CommandHandler.ts:93-123 | Inside a transaction lines other than MULTI, EXEC and DISCARD only queue, in order. |
| `Transactions.ControlLines` | store-engine/src/server/CommandHandler.ts:93-118 | MULTI opens an empty queue, a nested MULTI keeps the queue, DISCARD drops it, EXEC runs it and closes it. |
| `Access.AuthenticatedExactly` | store-engine/src/server/CommandHandler.ts:70-80 | The connections that count as authenticated are exactly those that have sent AUTH with the password. |
| `Access.GuardedIsBare` | store-engine/src/server/CommandHandler.ts:70-91 | A server with a password, disabled commands and restricted subscribers is, in store, files, snapshots, subscriptions and transactions, the server without them on exactly those lines that come after their connection's password, are not disabled, and are SUBSCRIBE or UNSUBSCRIBE if the connection holds a channel. |
| `Access.GuardedAnswers` | store-engine/src/server/CommandHandler.ts:62-91 | What any line is answered, case by case: a parse error before all else; from a connection that has not sent the password OK, a wrong password or the want of it; then a disabled command; then the restriction of subscribers; and otherwise what the bare server answers. |
| `Access.AdmittedExactly` | store-engine/src/server/CommandHandler.ts:86-91 | Over every trace, a permitted line of a known connection is let through if and only if its command is SUBSCRIBE or UNSUBSCRIBE, or the connection's last word on no channel is a subscription. |
| `Access.UnsubscribeFrees` | store-engine/src/server/CommandHandler.ts:86-91 | UNSUBSCRIBE without channels, outside a transaction, leaves the connection with no channel, and its next permitted line is let through. |
| `Access.PermittedWord` | store-engine/src/server/CommandHandler.ts:82-84 | The name by which a line may be disabled is the command word it carries, in capitals. |
| `Access.DisabledNeverRuns` | store-engine/src/server/CommandHandler.ts:82-84 | No job ever run, and so no queued transaction, holds a disabled command. |
| `Access.StrangersLeaveNoTrace` | store-engine/src/server/CommandHandler.ts:70-80 | Taking out every line of a connection that never sends the password changes nothing of store, file and transactions. |
| `Access.GuardedRecovery` | store-engine/src/index.ts:45-63 | The recovery theorem holds for the guarded server, whatever is sent to it. |
| `Access.GuardedDiskRecovery` | store-engine/src/index.ts:45-63 | And recovery from the text on disk. |
| `Server.CommandHandler.HandleLine` | store-engine/src/server/CommandHandler.ts:62-126 | New store, files, snapshot, subscriptions, pushes, transactions, authenticated connections and answer are those of the specified reaction to the line, refusals included. |
| `Server.CommandHandler.ExecuteAll` | store-engine/src/server/CommandHandler.ts:101-112 | The EXEC loop runs the queue in order with nothing in between and collects the replies; a write that throws ends it. |
| `Server.CommandHandler.ExecuteCommand` | store-engine/src/server/CommandHandler.ts:128-283 | One command of any kind: store, files, snapshot, subscriptions, pushes and answer. |
| `Server.CommandHandler.Dispatch` | store-engine/src/server/CommandHandler.ts:93-125 | Transaction control, queueing, or execution on the spot. |
| `Server.CommandHandler.ExecuteService` | store-engine/src/server/CommandHandler.ts:246-272 | BGSAVE and BGREWRITEAOF print and purge the store on the spot unless one is pending; SUBSCRIBE, UNSUBSCRIBE and PUBLISH act on the subscriptions and answer with confirmations or the number of receivers. |
| `Server.CommandHandler.ExecuteKey` | store-engine/src/server/CommandHandler.ts:130-204 | SET, DEL, EXPIRE, EXISTS, TTL and PERSIST with their replies and the condition for logging. |
| `Server.CommandHandler.ExecuteGetCommand` | store-engine/src/server/CommandHandler.ts:135-140 | GET asks for the kind first: another kind is a type error, a missing key is nil. |
| `Server.CommandHandler.ExecuteList` | store-engine/src/server/CommandHandler.ts:157-228 | The list commands with their replies and the condition for logging. |
| `Server.CommandHandler.ExecuteHash` | store-engine/src/server/CommandHandler.ts:178-244 | The hash commands with their replies; HSET is logged only if it added a field. |
| `Answers.AnswersEncoded` | store-engine/src/server/CommandHandler.ts:62-126 | After any trace, everything sent for a connection's lines, unless it asks for subscriptions, is the encoding of one reply a line, refusals, parse errors and internal errors included, and no payload holds a CRLF. |
| `Answers.ClientHears` | protocol/src/ReplyParser.ts:18-100 | So such a client, feeding what it is sent to its parser in any pieces, ends idle, gets exactly one event a line if and only if no EXEC has wrapped an array with elements, and hears each reply as meant if and only if moreover no value is "(nil)". |
| `LogReplay.CommandStep` | store-engine/src/server/CommandHandler.ts:128-283 | For every command of a handler with a store alone, in every state of store and replica: the replica that replays exactly the logged lines keeps the same values, insertion order and deadline-bearing keys if and only if the key was not expired or was SET and last in insertion order; a write that evicts picks the same victim in both; KEYS found no expired key; and no HSET only overwrites fields and changes one. For the engine see `AofRewrite.TrackCommand`. |
| `LogReplay.DataStep` | store-engine/src/server/CommandHandler.ts:128-244 | The same for a data command. |
| `LogReplay.ExpiryExact` | store-engine/src/store/InMemoryStore.ts:382-388 | An expiry is not logged: a command on an expired key agrees after replay if and only if it is a SET of the key that is last in insertion order. |
| `LogReplay.EvictionExact` | store-engine/src/store/InMemoryStore.ts:390-405 | An eviction is not logged: replaying the command that caused it agrees if and only if the replica's least recently used key is the same. |
| `LogReplay.PurgeExact` | store-engine/src/store/InMemoryStore.ts:129-139 | Listing the keys keeps replica and store together if and only if no held key has expired. |
| `LogReplay.EvictionAgrees` | store-engine/src/store/InMemoryStore.ts:390-405 | The same as `EvictionExact` for the effect of any write of a new key. |
| `LogReplay.HarmlessExact` | store-engine/src/server/CommandHandler.ts:128-244 | A logged command leaves the data as it was if and only if it sets the value that is there with a deadline kept or kept away, or expires a key that already had a deadline. |
| `LogReplay.LoggedLine` | store-engine/src/store/AofWriter.ts:56-60 | The trimmed line that is logged replays as the command it was logged for. |
| `LogReplay.UnloggedLeaves` | store-engine/src/server/CommandHandler.ts:178-185 | What is not logged leaves values and deadlines alone, except an HSET that adds no field. |
| `Compaction.ExecuteStorable` | protocol/src/CommandParser.ts:213-222 | One parsed command keeps the store printable: everything held is a token and every TTL one the parser accepts. |
| `Compaction.ParseSetLine` | store-engine/src/store/AofWriter.ts:88-93 | The printed SET line parses to the SET it stands for. |
| `Compaction.ParseSetExLine` | store-engine/src/store/AofWriter.ts:88-93 | The printed SET line with its TTL parses to the SET with that TTL. |
| `Compaction.ParsePushLine` | store-engine/src/store/AofWriter.ts:94-99 | The printed RPUSH line parses to the push of the whole list. |
| `Compaction.ParseHashLine` | store-engine/src/store/AofWriter.ts:100-106 | The printed HSET line parses to the fields and values in order. |
| `Compaction.ParseExpireLine` | store-engine/src/store/AofWriter.ts:99-105 | The printed EXPIRE line parses to that EXPIRE. |
| `Compaction.HashRebuilt` | store-engine/src/store/AofWriter.ts:100-106 | Setting a hash's fields in order into an empty hash rebuilds it, order included. |
| `Rebuild.CompactionRoundTrip` | store-engine/src/store/AofWriter.ts:79-107 | Print a store at one instant, replay the lines at any instant into an empty store of the same capacity: same values, list order, field order and insertion order, the recency order the live store has after the rewrite, no eviction, and every remaining time r becomes r' with r <= r' < r + 1000 ms. |
| `Rebuild.CompactionSameData` | store-engine/src/store/AofWriter.ts:79-107 | In particular the replayed store holds the same data, and none of its deadlines has passed. |
| `Rebuild.AllTouched` | store-engine/src/store/AofWriter.ts:82-107 | Reading every key in insertion order leaves the recency order as its reverse. |
| `Rebuild.CompactedValid` | store-engine/src/store/AofWriter.ts:79-107 | A rewrite leaves a valid store of the same capacity. |
| `EngineRuns.RunHealthy` | protocol/src/CommandParser.ts:9-222 | Every run of parsed commands, sweeps, snapshots and rewrites with a clock that does not run back keeps the store printable, its lists and hashes non-empty and its structures in lockstep. |
| `Recovery.TraceHealthy` | store-engine/src/server/CommandHandler.ts:62-126 | The same after every trace of lines from any connections, transactions included. |
| `Recovery.TraceIsRun` | store-engine/src/server/CommandHandler.ts:62-126 | The handler after any trace is the engine after its executed commands and background steps, one at a time; a queue stops at the command that throws. |
| `Recovery.JobsAreEvents` | store-engine/src/server/CommandHandler.ts:101-126 | The same for any serial schedule of jobs. |
| `Recovery.CrashRecovery` | store-engine/src/index.ts:45-63 | Whatever lines the connections send, transactions, BGREWRITEAOF and BGSAVE included, and whatever sweeps, timed snapshots, steps of rewrites and lost connections come in between: after every input, replaying the file at the path into an empty store of the same capacity gives the live data, while nothing expires or is evicted, no HSET only overwrites, and nothing is logged in the gap of a rewrite. |
| `Recovery.CrashRecoveryFromBlank` | store-engine/src/index.ts:45-63 | In particular from an empty store and an empty file. |
| `AofRewrite.StepExact` | store-engine/src/store/AofWriter.ts:56-128 | Both files, the one at the path and the one a pending rewrite would leave, track the data after an event if and only if, read off the state before: a logged line that misses a file was harmless, every other command is one that the file's record keeps up with, and nothing beside the commands reclaims a key. The end of an await, good or bad, never breaks it. |
| `AofRewrite.AlwaysCurrentExact` | store-engine/src/store/AofWriter.ts:56-128 | So over every run both files replay to the live data at every point if and only if each event is of that kind. |
| `AofRewrite.FileStepExact` | store-engine/src/store/AofWriter.ts:56-128 | For every event in every state of the engine, smooth or not: the file at the path still replays to the live data afterwards if and only if the condition read off the state before it holds. At the end of a rename that condition is that the pending file tracks the data; how it comes to do so is the subject of `AofRewrite.StepExact`, `AofRewrite.RewrittenFile` and `AofRewrite.GapWrite`. |
| `AofRewrite.TrackCommand` | store-engine/src/server/CommandHandler.ts:128-283 | For every command of the running engine: the record extended by the command's line, if it is logged, tracks the data exactly when the replica keeps up; a BGSAVE or BGREWRITEAOF that starts must moreover find no held key expired. |
| `AofRewrite.LogRecordsRun` | store-engine/src/server/CommandHandler.ts:128-244 | Without a rewrite the file is what it was and every line logged since, in order, and replaying it gives what running everything has given. |
| `AofRewrite.CompactedExact` | store-engine/src/store/AofWriter.ts:79-107 | Printing the whole store changes the data if and only if a held key has expired. |
| `AofRewrite.SweepExact` | store-engine/src/store/InMemoryStore.ts:292-305 | A sweep changes the data if and only if it reclaims a key. |
| `AofRewrite.FileAlwaysCurrent` | store-engine/src/store/AofWriter.ts:56-128 | After every event of a run in which nothing expires or is evicted, no HSET only overwrites and no line is logged in the gap or after a failed rename, the file at the path replays to the live data, and so does the file a pending rewrite would leave; rewrites may succeed or fail at any await. |
| `AofRewrite.BlankCurrent` | store-engine/src/store/AofWriter.ts:20-23 | A new engine on an empty file satisfies that invariant. |
| `AofRewrite.RewrittenFile` | store-engine/src/store/AofWriter.ts:109-123 | The rewritten file is the compacted snapshot followed by exactly the lines logged before the buffer was detached, in order; it misses no logged line if and only if none was logged between detaching the buffer and reopening the file. |
| `AofSteps.RewriteUnopened` | store-engine/src/store/AofWriter.ts:120-123 | A rewrite of a file that was never opened ends with the new file at the path, open for the lines that follow; with the file closed for good it is given up before the rename. |
| `AofRewrite.GapWrite` | store-engine/src/store/AofWriter.ts:112-123 | A command logged in that gap is lost to the new file: that file tracks the live data afterwards if and only if the command set the value that was there already, deadline or none as before, or expired a key that had a deadline. |
| `AofRewrite.FailedRenameSticks` | store-engine/src/store/AofWriter.ts:121-127 | After a rename that failed, no later line is written and no later rewrite succeeds: the file never changes again. |
| `AofRewrite.TrackCompact` | store-engine/src/store/AofWriter.ts:79-107 | A rewrite starts from a file that replays to the data it leaves in the store. |
| `Disk.LinesApart` | store-engine/src/index.ts:49-60 | A character stands between two lines of the file if and only if it is a line feed, a carriage return, a line separator or a paragraph separator. |
| `Disk.ReadWritten` | store-engine/src/index.ts:49-60 | Lines written one behind the other are the lines read if and only if none holds a line terminator. |
| `Disk.CompactReadsBack` | store-engine/src/store/AofWriter.ts:112-112 | The text of the compacted file, read line by line, is the lines it was printed from. |
| `Disk.TextAppended` | store-engine/src/store/AofWriter.ts:59-60 | What writing a line, or appending the detached buffer, adds to the text of the file. |
| `Disk.TraceOrdinary` | store-engine/src/store/AofWriter.ts:56-128 | After any trace whose lines hold no terminator, everything the writer holds is a data command on a line of its own, in every phase of a rewrite. |
| `Disk.TransactionReplays` | store-engine/src/index.ts:49-60 | Lines behind a MULTI do nothing until an EXEC, which does what replaying them does, and nothing at all after a DISCARD; outside a transaction EXEC and DISCARD are ignored. |
| `Disk.TextReplays` | store-engine/src/index.ts:49-60 | The handler that recovers, transactions and skipped lines included, makes of such a text what its lines replay to. |
| `Disk.DiskRecovery` | store-engine/src/index.ts:45-63 | Recovery stated on the text on disk: after every input of any such trace, reading the file into an empty store gives the live data back, under the conditions of `Recovery.CrashRecovery`. |
| `Disk.LineLost` | store-engine/src/index.ts:49-60 | Lines without terminators are needed: a SET whose words are separated by a carriage return is executed and logged, and the file recovers to nothing. |
| `Aof.AofWriter.Write` | store-engine/src/store/AofWriter.ts:56-70 | Without a descriptor nothing happens; with a closed one the write throws and the line is nowhere; otherwise it is in the file and, during a rewrite, in the buffer. |
| `Aof.AofWriter.Rewrite` | store-engine/src/store/AofWriter.ts:73-108 | A second rewrite is refused; otherwise the store has been printed whole, is left as compacted, and the buffer is attached. |
| `Aof.AofWriter.Resumed` | store-engine/src/store/AofWriter.ts:109-127 | From one await to the next: temporary file, detached buffer, closing, rename, reopening. |
| `Aof.AofWriter.CloseFile` | store-engine/src/store/AofWriter.ts:121-121 | The old file is closed before the rename; closing it twice ends the rewrite. |
| `Aof.AofWriter.Failed` | store-engine/src/store/AofWriter.ts:124-127 | A failed await resets the flags and nothing else. |
| `Aof.AofWriter.Start` | store-engine/src/store/AofWriter.ts:20-23 | Opening the file once. |
| `Aof.BuildCommands` | store-engine/src/store/AofWriter.ts:79-107 | The loop over keys, kinds, TTLs and contents yields the compacted lines and leaves the store with every expired key gone and every key used. |
| `Aof.PrintKey` | store-engine/src/store/AofWriter.ts:82-107 | The lines of one key, and its use. |
| `Aof.PrintingCalls` | store-engine/src/store/AofWriter.ts:83-105 | What the calls that print a live key answer, and that they change nothing but its recency. |
| `Persistence.StepDirty` | store-engine/src/store/InMemoryStore.ts:80-415 | The mutation count never goes down, and an operation that leaves it unchanged leaves all values and deadlines unchanged if and only if it is not a push that creates its list (or an HSET of nothing that creates its hash). |
| `Persistence.FileFresh` | store-engine/src/store/PersistenceManager.ts:49-114 | Over any run of operations, with saves that begin, complete or fail, and lists created only by counted operations: whenever the count equals the one last saved, the file describes the live store. |
| `Persistence.MissedCreation` | store-engine/src/store/InMemoryStore.ts:342-360 | Right after the creation of a list the count still equals the saved one and the file no longer describes the store. |
| `Persistence.CompactedDumped` | store-engine/src/store/PersistenceManager.ts:67-108 | What a save leaves of the store is described by the dump it takes. |
| `Services.SaveCompletes` | store-engine/src/store/PersistenceManager.ts:58-113 | A save begun by BGSAVE, or by the timer when the count has moved, with none pending: once it ends well, whatever has happened in between, the file is the dump of the store it began with, expired keys reclaimed, the recorded count is that store's, and nothing is pending; if it ends badly, file and count are as before. |
| `Services.NothingElseSaves` | store-engine/src/store/PersistenceManager.ts:49-53 | Nothing else touches file, count or pending save; the timer does not while the count is the one last saved. |
| `Services.NothingToSave` | store-engine/src/store/PersistenceManager.ts:20-53 | A new server has nothing to save: the timer leaves it alone, and it meets the condition from which the file stays fresh. |
| `Services.DumpFresh` | store-engine/src/store/PersistenceManager.ts:49-114 | An unmoved count means a current file, for the running server too: after any trace, transactions, rewrites, timed and commanded saves included. |
| `Restore.RestoreWindow` | store-engine/src/store/PersistenceManager.ts:115-158 | Restoring entries of distinct keys into an empty store leaves the last `maxKeys` of them, in the order they were read, each with its value and a full deadline; the earlier ones are evicted. |
| `Restore.DumpRestored` | store-engine/src/store/PersistenceManager.ts:67-158 | Restoring a dump, in whatever order entries and properties are read, gives every live key but "__proto__" back with its value. |
| `Restore.RestoredTtl` | store-engine/src/store/PersistenceManager.ts:99-103 | Each remaining time comes back rounded up by less than a second. |
| `Restore.RoundTripExact` | store-engine/src/store/PersistenceManager.ts:84-101 | Everything comes back, hashes compared as maps, if and only if no key and no field is called "__proto__". |
| `Restore.DumpStable` | store-engine/src/store/PersistenceManager.ts:67-158 | Dumping what was restored gives the same dump. |
| `Restore.RestoredSynced` | store-engine/src/store/PersistenceManager.ts:149-149 | A manager that has just restored satisfies the freshness invariant. |
| `Restore.EntryTaken` | store-engine/src/store/PersistenceManager.ts:126-148 | An entry with 0 seconds left or fewer is passed over; any other is live once it has been read. |
| `Restore.RestoreKept` | store-engine/src/store/PersistenceManager.ts:127-130 | Entries with a TTL of 0 or less leave no trace. |
| `Snapshots.PersistenceManager.Save` | store-engine/src/store/PersistenceManager.ts:58-108 | A save in progress refuses another; otherwise the count is taken before the data, and the dump is that of the purged store. |
| `Snapshots.PersistenceManager.CheckAndSave` | store-engine/src/store/PersistenceManager.ts:49-53 | The timer saves exactly when the count has moved. |
| `Snapshots.PersistenceManager.Saved` | store-engine/src/store/PersistenceManager.ts:104-113 | Completing a save puts the dump at the path and records the count taken before. |
| `Snapshots.PersistenceManager.SaveFailed` | store-engine/src/store/PersistenceManager.ts:111-113 | A failed save changes neither file nor count. |
| `Snapshots.PersistenceManager.Restore` | store-engine/src/store/PersistenceManager.ts:121-158 | Without a file nothing happens; otherwise the entries are restored in order and the count becomes the saved one. |
| `Snapshots.PersistenceManager.RestoreOne` | store-engine/src/store/PersistenceManager.ts:126-148 | One entry: skipped if its TTL is 0 or less, else written with its kind and TTL. |
| `Snapshots.BuildDump` | store-engine/src/store/PersistenceManager.ts:67-106 | The loop yields the dump of the store it leaves. |
| `Snapshots.SerializeKey` | store-engine/src/store/PersistenceManager.ts:72-105 | One key's entry: contents and remaining seconds. |
| `Snapshots.ToObject` | store-engine/src/store/PersistenceManager.ts:84-90 | Assigning field by field yields the hash as a map, without the one name an assignment cannot create. |
| `Startup.StartupExact` | store-engine/src/index.ts:39-63 | Replaying the compacted file of one store on top of any other store, such as a snapshot from another time, with room for both: strings are overwritten, fields merged, lists appended to, a key of another kind and a key the file has not stay as they were; the data is that of the compacted store if and only if every key that was there is in the file, not as a list, and as a hash only over a hash with no further field. |
| `Startup.RestartExact` | store-engine/src/index.ts:33-63 | The same from the two files themselves, the dump of one store and the compacted file of another, for a dump without the name "__proto__". |
| `Startup.OwnAbsorbed` | store-engine/src/index.ts:39-63 | For a dump and a compacted file of the same store: if and only if no key holds a list. |
| `Services.BareAnswers` | store-engine/src/server/CommandHandler.ts:245-276 | A handler with a store alone, like the one that replays the file, refuses snapshots, rewrites and subscriptions, and answers AUTH with OK; the store stays as it is and nothing is logged. |
| `Services.ServiceAnswers` | store-engine/src/server/CommandHandler.ts:245-277 | BGSAVE, BGREWRITEAOF and AUTH answer OK, pending or not; SUBSCRIBE and UNSUBSCRIBE answer one confirmation a channel and change nothing but the subscriptions. |
| `Services.RegistryIsRun` | store-engine/src/server/CommandHandler.ts:259-270 | The subscriptions of the running server are those its executed commands and lost connections have asked for, in order. |
| `Services.TraceTwoWay` | store-engine/src/server/CommandHandler.ts:86-91 | After any trace both indexes hold exactly the pairs whose last word is a subscription, and exactly the connections that hold one are restricted. |
| `Services.PublishReaches` | store-engine/src/server/CommandHandler.ts:269-273 | After any trace PUBLISH writes the message, with its kind and channel, once to every connection whose last word on the channel is a subscription, to nobody else, and answers their number. |
| `PubSub.RunTwoWay` | store-engine/src/server/PubSubManager.ts:4-116 | After any subscribing (with at least one channel), unsubscribing and disconnecting, both indexes hold exactly the pairs whose last word is a subscription, and neither holds an empty set. |
| `PubSub.SubscribePairs` | store-engine/src/server/PubSubManager.ts:14-33 | Subscribing adds exactly the named pairs; it leaves an empty set behind if and only if no channel is named and the connection was unknown. |
| `PubSub.UnsubscribePairs` | store-engine/src/server/PubSubManager.ts:40-70 | Unsubscribing takes exactly the named channels, or all if none is named; duplicates and unknown channels change nothing more. |
| `PubSub.DisconnectIsUnsubscribe` | store-engine/src/server/PubSubManager.ts:94-108 | Losing a connection is unsubscribing it from everything. |
| `PubSub.AnswersAt` | store-engine/src/server/PubSubManager.ts:14-70 | For known and unknown connections alike, the i-th answer to SUBSCRIBE and to UNSUBSCRIBE names the i-th channel and counts the channels held by then; UNSUBSCRIBE without channels answers for those held. |
| `PubSub.DeliveredOnce` | store-engine/src/server/PubSubManager.ts:77-89 | A message is written once to every subscriber and to nobody else, and the count is the number of subscribers. |
| `PubSub.SubscribeReplyAt` | store-engine/src/server/PubSubManager.ts:22-31 | The i-th confirmation counts the channels held by then, each once. |
| `PubSub.UnsubscribeReplyAt` | store-engine/src/server/PubSubManager.ts:53-64 | The i-th confirmation counts the channels still held, each once. |
| `Broker.PubSubManager.Subscribe` | store-engine/src/server/PubSubManager.ts:14-33 | New indexes and confirmations are the specified ones. |
| `Broker.PubSubManager.Unsubscribe` | store-engine/src/server/PubSubManager.ts:40-71 | New indexes and confirmations are the specified ones, for known and unknown connections, with and without channels. |
| `Broker.PubSubManager.Publish` | store-engine/src/server/PubSubManager.ts:77-89 | The writes, in the order of the channel's set, and their number. |
| `Broker.PubSubManager.RemoveConnection` | store-engine/src/server/PubSubManager.ts:94-108 | New indexes are those of the disconnection. |
| `Broker.PubSubManager.IsSubscribed` | store-engine/src/server/PubSubManager.ts:113-116 | True exactly if the connection holds some channel. |

## Left out

- Several clock readings within one operation: a key that expires between two of them is not modelled.
- In-place mutation of list arrays and hash maps: a payload is changed by a loop on a value and written back to its key.
- Resetting `dirtyCount` from outside: nothing in the engine does it.
- Numbers beyond 2^53; lone surrogates in strings.
- `recentActivity`: display only.
- AofRewrite.FailedRenameSticks: assumes that the number of the closed descriptor is not reused for another file.
- Reopening the file failing after the rename has succeeded.
- fsync, timers, signals, and `stop` of the writer.
- The dump's JSON text and the reordering of integer-like property names: a dump is a map, read back in any order.
- Dump entries of an unknown kind, and a dump file that is not valid JSON.
- Startup.StartupExact: for a compacted file with no lines appended behind it, where the keys of both stores fit together.
- Startup.RestartExact: likewise.
- Answers.ClientHears: for a client that asks for no subscription; a subscriber's stream mixes pushes with confirmations.
- An unknown reply prefix is an event here; without a listener the emitter would throw.
- TCP and WebSocket servers, the statistics server, the CLI, the dashboard, the benchmark.
