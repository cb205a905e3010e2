# Regatta, verified in Dafny

Regatta is a replicated key-value store. A leader cluster applies a Raft log to ordered tables;
follower clusters pull that log, propose its commands to tables of their own, and fall back to a
snapshot when the leader has compacted the log. This project models the parts of the repository
that carry those guarantees and proves them, for every input and every run:

* **Replication.** In every run of leader appends, applies and compactions, follower polls (which
  may stop after any chunk), snapshot recoveries and resets, the follower's table is the fold of
  the leader's log up to the leader index it stores, and that index never passes the leader's
  applied index (`Replication.Replicated`). The poll itself is built from the log server, the log
  cache, the worker's proposals and the state machine (`Poll.Do`), and so is the recovery
  (`Rebuild.RecoverTable`).
* **State machine.** A call of `FSM.Update` over an encoded, batched store refines plain
  sequential application to a map, for every split of a log into calls (`Update`, `Fsm`, `Table`).
* **Replay, log cache, log server, wire codec, key encoding, range reads, read-only
  transactions, snapshot and restore, leases, table IDs, gossip, and the crash-safe switch of the
  database directory**, each with the law its code is there for.

Imperative code of the repository is a method or a class with loops and invariants, proved against
a function on values; protocols are step systems whose invariants hold in every state of every run.
The storage engine is a map of encoded keys with a batch of pending operations, a Raft log is a
list of numbered entries of which only a suffix can be read, proposals are atomic steps, clocks and
the choices of the scheduler are nondeterministic, and JSON is the identity. Where a method can fail
for reasons outside of it, a parameter `faults` says whether it may, so that its contract also says
what it does when nothing fails.

`dafny verify dfyconfig.toml` checks the whole project.

## Layout

| files | part |
|---|---|
| `ByteStrings`, `Lists`, `LittleEndian`, `Messages` | byte strings and their order, messages |
| `Keys`, `Store` | key encoding, bounds, storage engine |
| `Varint`, `Wire`, `Codec`, `CommandCodec`, `Writer`, `MarshalTxn`, `Unmarshal`, `Marshal`, `Formats` | Protocol Buffers encoding |
| `Table`, `Query`, `Fsm`, `Update`, `ReadOnlyTxn`, `Replay`, `Branches`, `Answers` | the table's state machine |
| `RaftLog`, `LogCache`, `LogReader`, `Replicate`, `Worker` | the log and its readers |
| `Snapshot`, `Restore`, `Restored`, `Similar` | snapshots and loading them |
| `Pipeline`, `Replication`, `Poll`, `Rebuild` | the replication pipeline |
| `MetaStore`, `Leases`, `TableIds` | the metadata store and its protocols |
| `Gossip` | shard views |
| `DbDir`, `CrashSafety`, `Recovery` | database directory and crash safety |

## Where the code falls short of the obvious law

Each of these is shown by a lemma or a method, at a concrete input or for a whole family of them.
Where it concerns a law the code is there for, another one says exactly when the law holds.

* A put that asks for the previous pair of an absent key makes the state machine index an empty
  list (`Table.PutCanFault`; exactly when a log faults: `Replay.SequenceOkExact` without
  transactions, `Branches.LogOkExact` with them).
* A delete of one key that is not there reports one key, and a range delete that returns previous
  pairs reports only those that fit one read (`Table.MissingKeyCounted`,
  `Table.LargePairsUncounted`; exactly: `Table.DeleteCountExact`).
* `More` is not set when the last matching key is the first one left out (`Table.OneLeftOut`;
  exactly: `Table.MoreMissesOne`, and `Table.MoreMissesLimit` for reads that only the limit stops).
* A read of one key and the read of the range that holds nothing else can answer differently: a pair
  that fills a response is shown by the former only, and a request for both keys and count only shows
  the key in the latter only (exactly: `Answers.SingleIsRange`).
* An entry without leader index overwrites the one of an earlier entry of the same call with nil,
  so the stored leader index depends on how entries are grouped (`Update.LeaderIndexCanVanish`;
  exactly: `Update.LeaderIndexExact`).
* Range ends that are present but empty do not survive the encoding of a transaction, so the logged
  path of a read-only transaction can answer differently from the fast path
  (`ReadOnlyTxn.FastPathDiffers`; exactly: `CommandCodec.RoundTripExact`,
  `ReadOnlyTxn.LoggedReadExact`).
* Replaying a log can crash or diverge (`Replay.ReplayCanCrash`, `Replay.TxnReplayDiverges`;
  exactly, without transactions: `Replay.ReplayExact`; with them, as long as each takes the branch
  it took before: `Branches.ReplaySameBranches`).
* The streaming key decoder cuts keys longer than 1019 bytes (`Keys.LongKeyCut`; exactly:
  `Keys.DecodeStreamEncode`).
* A cached log query answers nothing when its end is the smallest cached index, or when its first
  entry is cached and alone reaches the size limit (`LogReader.EmptyAnswers`; exactly, for ranges
  that start in the cache: `LogReader.QueryShard`). A stream then ends early although it reports
  no error; with small entries only when entries past the applied index are cached, by another
  stream or from before (`Replicate.Replicate`).
* A restore that flushes loses the record it flushes at (`Restored.FlushLosesRecord`; exactly:
  `Restore.RestoreExact`). When the marker flushes, the leader index can be lost
  (`Restored.FlushLosesIndex`; exactly: `Restored.RestoredIndexExact`). The marker adds an empty
  key (`Restored.SmallRestore`), which is harmless unless a transaction compares from the empty key
  on (`Similar.SimApply`, `Similar.LookingAtEmptyDiverges`; exactly when its comparisons decide
  alike: `Similar.SimCompareAllExact`). A record larger than the read buffer crashes the reader
  (exactly: `Restore.Recover`).
* A current file that fails its checksum reads as an empty name without an error, and a cleanup
  then removes every database (`DbDir.WrongChecksumLosesAll`; exactly: `DbDir.CleanupExact`). The
  error of the directory sync before the rename is ignored; without that sync a crash can lose the
  database (`CrashSafety.UnsyncedRenameUnsafe`).
* When the directory sync behind the rename fails, or the process is killed before it, the cleanup of
  the next start removes the old database while the rename is not durable, and a power loss can then
  leave a current file that still names the old one (`CrashSafety.RestartLosesDatabase`; exactly:
  `CrashSafety.CrashExact` for a state, `CrashSafety.CrashSafeExact` for a run, `Recovery.Reopen`
  for a start).

## Model

| member | source | states |
|---|---|---|
| Replication.Replicated | replication/worker.go:206-313 | in every state of every run the stored leader index is at most the leader's applied index, and a follower that is not repeating entries after a reset holds the fold of the leader's log up to it: exactly before any recovery, up to the empty key after one |
| Replication.ReplicatedExactly | replication/worker.go:206-313 | without resets and recoveries the follower's map is the fold of the log at its index in every state of every run |
| Replication.RunKeeps | replication/worker.go:93-190 | the pipeline invariant holds in every state of every run |
| Replication.StepKeeps | replication/worker.go:206-361 | every step (append, apply, compact, poll, recover, reset) keeps the pipeline invariant |
| Replication.PollKeeps | replication/worker.go:206-313 | a poll that gets through any number of chunks, grouped into any calls, never crashes the follower, moves its index by exactly the entries proposed and keeps the invariant |
| Replication.AdvancePast | storage/table/fsm/command_sequence.go:13-23 | past its highest index the follower does what the leader did |
| Replication.AdvanceBehind | storage/table/fsm/command_sequence.go:13-23 | behind its highest index, after a reset, repeating entries succeeds and still leads to the leader's table |
| Replication.ResetEffect | storage/table/table.go:230-243 | a reset proposal sets the leader index to zero and keeps the data |
| Replication.ResetKeeps | storage/table/table.go:230-243 | after a reset, replaying a log without transactions from its start leads to the leader's table at the highest index reached before |
| Replication.Overwrite | storage/table/table.go:230-243 | if applying a suffix to a map gives the table of the whole log, so does applying the whole log |
| Replication.RecoverKeeps | replication/worker.go:315-361 | a table restored from a snapshot that fits one batch, however often its proposal is retried, is the leader's at the index it stores, up to the empty key |
| Rebuild.RecoverTable | replication/worker.go:315-361 | streaming a snapshot of the leader's store, loading it, and applying the log of the new table in calls of any length is a recovery step of the pipeline; without faults it is always done when no record and no proposal is too large |
| Rebuild.ApplyLog | storage/table/manager.go:690-709 | the new table's state machine applies whatever reached its log, in calls of any length, without a fault |
| Poll.Do | replication/worker.go:206-272 | one poll, from reading the index to the last accepted proposal, is a poll step of the pipeline; the leader is reported behind if and only if it is; a poll that ends as tailing or lagging has reached the index the leader answered up to unless the log cache, a run of the log of at most its size, starved it, which with small entries takes unapplied entries that are cached, by another stream or from before; lagging means progress and an index below the one reported last; recovery is asked for only when the follower's next entry may be compacted, and with the plain reader always when it was before the poll; without faults the result is known |
| Poll.ProposeAll | replication/worker.go:218-257 | the receiving loop proposes a prefix of the streamed commands, all of them unless a proposal fails, which without faults takes one that is too large |
| Poll.ProposeMessage | replication/worker.go:229-233 | one message is proposed up to the first failing chunk, which may still go through |
| Poll.Propose | replication/worker.go:279-300 | an accepted proposal applies exactly its chunk to the follower's store |
| Poll.ReadLeaderIndex | replication/worker.go:259-272 | the index a poll starts from is the leader index of the follower's store |
| Pipeline.PollEffect | replication/worker.go:274-313 | proposing a log segment in any chunks and any calls applies exactly its commands and stores the index of its last entry |
| Pipeline.ChunksApply | storage/table/fsm/command_sequence.go:13-23 | a list of sequence commands does what the concatenation of their commands does |
| Pipeline.ProposalRoundTrip | replication/worker.go:279-300 | a proposal made of decoded commands survives its encoding |
| Pipeline.LeaderIsFold | storage/table/fsm/fsm.go:261-302 | the leader's own state machine holds the fold of its log, and its local index is that of the last application entry, where the fold already has that value |
| Worker.ProposeBatch | replication/worker.go:274-313 | the chunks are non-empty, consecutive, cut at the first command reaching the desired size, and concatenate to a prefix of the commands, all of them unless a proposal fails, which without faults takes one that is too large; the result is the leader index of the last chunk that succeeded |
| Replicate.Replicate | regattaserver/replication.go:137-212 | the stream ends, and what was sent is in order and without gap or repetition a prefix of the segment from the requested index to the applied one; a finished stream is complete with the plain reader, and with the cache complete or starved by what the cache, a run of the log, held at the last query; with small entries it is complete when the whole log is applied, and when no other stream uses the cache and nothing ahead is cached; the leader is reported behind if and only if the request is past the applied index; a snapshot is asked for only below the highest compaction point, and by the plain reader always below the lowest; without faults only an undecodable entry cuts the stream short |
| Replicate.StarvedWhen | storage/logreader/cache.go:82-123 | with small entries a query is starved only by a cached run that reaches past its range |
| Replicate.EntryToCommand | regattaserver/replication.go:226-235 | Raft's own entries become dummies, other entries the decoded command; each carries its log index and nothing else changes; undecodable entries fail |
| Replicate.ToCommands | regattaserver/replication.go:187-195 | all entries of an answer are converted in order, or none when one cannot be decoded |
| Replicate.QueryReader | regattaserver/replication.go:163-173 | a query of either reader answers with a run from its first index, with nothing only at the end of the range or when the cache starves it, and fails only below the compaction point, there always with the plain reader |
| RaftLog.ReadLog | storage/logreader/logreader.go:148-169 | the log is behind if and only if the range starts past its end, ahead if and only if it starts below the compaction point, unavailable if and only if it ends outside; otherwise a non-empty run from the first index, or nothing exactly behind the end of the log |
| RaftLog.SimpleQuery | storage/logreader/logreader.go:60-66 | the same, and nothing for an empty range |
| LogReader.Cached.QueryRaftLog | storage/logreader/logreader.go:75-134 | fails only where a plain read fails, inside the log with the same reason, or when the shard is unknown; otherwise returns a run of the log from the first index inside the range; returns nothing only in the stated corners; every cache stays a gap-free window of its log |
| LogReader.QueryShard | storage/logreader/logreader.go:87-134 | the query of one shard, and exactly when an answer that starts in the cache is empty |
| LogReader.QueryHead | storage/logreader/logreader.go:92-111 | reading the part in front of the cached entries; cached entries without their missing head are never returned |
| LogReader.QueryTail | storage/logreader/logreader.go:113-131 | reading the part behind the cached entries |
| LogReader.FromCache | storage/logreader/logreader.go:133-133 | an answer from the cache alone |
| LogReader.EmptyAnswers | storage/logreader/cache.go:94-123 | two queries inside a log of ten small entries that the cache answers with nothing |
| LogReader.FixSize | storage/logreader/logreader.go:171-180 | the longest prefix of which every part stays below the limit; empty exactly when there is nothing or the first entry reaches the limit |
| LogReader.TotalSizeConcat | storage/logreader/logreader.go:171-180 | the size of entries is the sum of theirs |
| LogReader.Cached.NodeDeleted | storage/logreader/logreader.go:136-138 | removes the cache of one shard |
| LogReader.Cached.NodeReady | storage/logreader/logreader.go:140-142 | adds an empty cache unless there is one |
| LogReader.Cached.LogCompacted | storage/logreader/logreader.go:144-146 | replaces the cache of one shard by an empty one |
| LogReader.Play | storage/logreader/logreader.go:75-146 | after any sequence of events every cache is a gap-free window of its log with at most its size, and every answer was a run of the log |
| LogCache.Cache.Put | storage/logreader/cache.go:33-57 | keeps the cache a gap-free window of the log of at most its size, with exactly the new entries added, also when one read is larger than the cache |
| LogCache.Cache.MakeRoomAndAppend | storage/logreader/cache.go:59-64 | appends and keeps the latest entries |
| LogCache.FindIndex | storage/logreader/cache.go:66-80 | the short cuts and the binary search split ascending entries at a bound |
| LogCache.Cache.Get | storage/logreader/cache.go:82-123 | the cached entries of a range and the ranges in front and behind that have to be read |
| LogCache.NewPart | storage/logreader/cache.go:44-56 | the part of new entries behind the largest cached index |
| Update.Machine.Update | storage/table/fsm/fsm.go:261-302 | one call leaves the store with the user map, local index and leader index of the sequential run and returns its results; an entry that fails leaves the store as it was |
| Update.CallsAgree | storage/table/fsm/fsm.go:261-302 | for every split of a log into non-empty calls, success, user map and local index are those of one-by-one application |
| Update.ResultsAgree | storage/table/fsm/fsm.go:261-302 | for every split into calls the results returned are those of one-by-one application |
| Answers.ResultsExact | storage/table/fsm/fsm.go:280-292 | a run that works has one result per entry; it is a success unless the entry is a transaction whose comparisons fail on the table the entries before it leave, and it holds the entry's index with the responses of its command on that table, or no data when there are none |
| Update.UniformCallsAgree | storage/table/fsm/command.go:62-70 | when all entries carry a leader index, or none does, the whole state is independent of the split |
| Update.LeaderIndexExact | storage/table/fsm/command.go:62-70 | for every split into non-empty calls, one call over all entries gives the same state if and only if the last entry carries a leader index, or the calls store none, or the one they store last is the one stored before |
| Update.StoredLeader | storage/table/fsm/command.go:37-53 | after any calls the leader index is the one of the last call whose last entry carries one, or unchanged |
| Update.LeaderIndexCanVanish | storage/table/fsm/command.go:62-70 | two dummies whose leader index is stored or lost depending on the split |
| Update.LastLeaderStays | storage/table/fsm/command.go:37-53 | a leader index on the last entry is the one stored, for every split |
| Update.RunIsSequence | storage/table/fsm/command_sequence.go:13-23 | running entries one by one is applying their commands as one sequence |
| Update.Commit | storage/table/fsm/command.go:37-53 | the commit applies the batch and writes both index records and nothing else |
| Update.ParseCommand | storage/table/fsm/command.go:62-70 | decodes the entry and overwrites index and leader index, also with nil |
| Fsm.UpdateContext.Handle | storage/table/fsm/command.go:72-90 | every kind of command, nested sequences included, does to the user map of the batch's view what the plain semantics says, with its responses, and never touches an index record |
| Answers.CommandExact | storage/table/fsm/command.go:72-90 | what every kind of command answers, told from the table it finds, and when it succeeds |
| Fsm.UpdateContext.HandlePut | storage/table/fsm/command_put.go:31-54 | a put and its previous pair, and the crash when that is missing |
| Answers.PutExact | storage/table/fsm/command_put.go:31-54 | a put fails exactly when it asks for the previous pair of a missing key, answers the pair stored before if asked, and changes its key alone |
| Table.PutCanFault | storage/table/fsm/command_put.go:40-50 | a put on an empty table that asks for the previous pair crashes |
| Fsm.UpdateContext.HandlePutBatch | storage/table/fsm/command_put.go:56-92 | a batch of puts in order |
| Fsm.UpdateContext.HandleDelete | storage/table/fsm/command_delete.go:33-92 | single, range and wildcard deletes with their counts and previous pairs |
| Answers.PreviousPairsExact | storage/table/fsm/command_delete.go:33-92 | from the tables before and after: no pair is returned unless asked for, else pairs of removed keys in ascending order, and all of them if and only if the delete is of one key or its pairs fit one read |
| Answers.DeleteExact | storage/table/fsm/command_delete.go:33-92 | the pairs are those of the first removed keys up to the one that fills the response, with the number reported |
| Fsm.UpdateContext.HandleDeleteBatch | storage/table/fsm/command_delete.go:94-129 | a batch of deletes in order |
| Fsm.UpdateContext.HandleTxn | storage/table/fsm/command_txn.go:30-44 | the branch is chosen by the comparisons on the view before the operations |
| Fsm.UpdateContext.HandleTxnOps | storage/table/fsm/command_txn.go:46-75 | operations see the effects of those before them |
| Answers.TxnExact | storage/table/fsm/command_txn.go:46-75 | one response for every operation that is set, in order, of its kind, with the read, the previous pair or the deleted pairs on the table that the operations before it leave key by key |
| Fsm.UpdateContext.HandleRequest | storage/table/fsm/command_txn.go:50-72 | one operation of a transaction |
| Fsm.UpdateContext.HandleSequence | storage/table/fsm/command_sequence.go:13-23 | the commands in order, on one shared batch, with their responses concatenated |
| Answers.SequenceExact | storage/table/fsm/command_sequence.go:13-23 | the responses of a sequence are those of its commands, one after the other |
| Fsm.UpdateContext.EnsureIndexed | storage/table/fsm/command.go:21-35 | turning the batch into an indexed one keeps its operations |
| Query.LookupAny | storage/table/fsm/query.go:88-93 | a lookup on encoded keys answers like the plain lookup on the user map |
| Query.LookupRange | storage/table/fsm/query.go:95-117 | the same for ranges |
| Query.LookupSingle | storage/table/fsm/query.go:119-153 | the same for one key; a missing key is an empty response |
| Answers.ReadExact | storage/table/fsm/query.go:88-217 | the answers of all reads, of one key and of ranges, in terms of the table: count, `More`, keys and values, and nothing else is such an answer |
| Answers.SingleIsRange | storage/table/fsm/query.go:119-153 | the read of one key is the read of the range up to its successor if and only if the key is missing, or its entry fits and not both keys and count only are asked for |
| Query.Iterate | storage/table/fsm/query.go:163-180 | the loop takes the longest prefix of the matching keys before the limit or the size stops it |
| Query.TxnCompare | storage/table/fsm/command_txn.go:77-140 | the comparisons on encoded keys decide like those on the user map |
| Query.TxnCompareRange | storage/table/fsm/command_txn.go:85-104 | a range comparison holds if and only if the range has a key and all its keys compare |
| Table.CompareOrders | storage/table/fsm/command_txn.go:142-158 | exactly one of equal, greater and less holds, not-equal is the negation, greater and less follow the byte order |
| Table.RangeLookupExact | storage/table/fsm/query.go:95-217 | a range read returns the first matching keys in order within the limit, its encoding stays below 4 MiB, and `More` holds if and only if at least two matching keys are left out |
| Table.LeftOutForCause | storage/table/fsm/query.go:163-217 | keys are left out only when the limit is reached or the next entry would fill the response |
| Table.MoreMissesOne | storage/table/fsm/query.go:163-180 | `More` fails to tell whether keys are left out if and only if the limit or the size stops the read at the last matching key and at none before |
| Table.MoreMissesLimit | storage/table/fsm/query.go:172-175 | for a read that the size does not stop, if and only if there is exactly one matching key more than the limit |
| Table.OneLeftOut | storage/table/fsm/query.go:172-175 | two keys, limit one: one is left out and `More` is not set |
| Table.CountsAll | storage/table/fsm/query.go:209-217 | a counting read without limit counts every matching key |
| Table.DeleteCountExact | storage/table/fsm/command_delete.go:41-88 | a delete that reports a number reports the number of keys it removes if and only if it is of one key that exists, of a range that is only counted, or of a range whose pairs fit one read |
| Table.MissingKeyCounted | storage/table/fsm/command_delete.go:74-88 | deleting one key that is not there reports one |
| Table.LargePairsUncounted | storage/table/fsm/command_delete.go:41-52 | deleting three keys with 2 MiB values and their previous pairs reports one |
| ReadOnlyTxn.IsReadOnly | storage/table/table.go:199-212 | true if and only if both branches hold only range reads |
| ReadOnlyTxn.LookupTxn | storage/table/fsm/fsm.go:196-226 | the fast path chooses the branch and answers its reads on one snapshot |
| ReadOnlyTxn.FastPathAgrees | storage/table/table.go:164-197 | applying the transaction as a command gives the same branch and answers and changes no user key |
| ReadOnlyTxn.LoggedReadExact | storage/table/table.go:164-197 | through the encoding, the logged path agrees with the fast path if and only if no comparison's empty range end changes the branch and no read of the branch has an empty range end on an existing key |
| ReadOnlyTxn.ComparesNormalExact | storage/table/fsm/command_txn.go:77-140 | exactly when dropping empty range ends keeps the branch |
| ReadOnlyTxn.LookupNormalExact | storage/table/fsm/query.go:88-93 | exactly when dropping an empty range end keeps a read's answer |
| ReadOnlyTxn.FastPathDiffers | storage/table/table.go:164-197 | a transaction the two paths answer differently |
| Replay.ReplayHarmless | storage/table/fsm/command_sequence.go:13-23 | on a log without transactions and without puts asking for previous values, re-applying entries a to b on any state between gives exactly the state at b |
| Replay.FullReplayHarmless | storage/table/table.go:230-243 | from the start of the log even puts asking for previous values are harmless: a reset table that replays everything converges |
| Replay.ReplayGivesState | storage/table/fsm/command_delete.go:33-92 | whenever the replay of a log without transactions succeeds it ends in the state at b |
| Replay.ReplayExact | storage/table/fsm/command_put.go:31-54 | a replay of a log without transactions reaches the state at b if and only if no put asks for a previous value that is missing on the way, key by key |
| Replay.SequenceOkExact | storage/table/fsm/command_put.go:31-54 | a log without transactions faults if and only if a command has an unknown kind or lacks its pair, or a put asks for a previous value that neither the table nor the commands before it have |
| Replay.ReplayCanCrash | storage/table/fsm/command_put.go:31-54 | a log whose partial replay crashes |
| Replay.TxnReplayDiverges | storage/table/fsm/command_txn.go:30-44 | a log with a transaction whose replay diverges |
| Branches.TakenAllSame | storage/table/fsm/command_txn.go:30-75 | on any table a log does what the log does that has, in place of every transaction at any depth, the operations of the branch it takes |
| Branches.LogOkExact | storage/table/fsm/command_txn.go:30-75 | any log faults if and only if one of the operations it performs is not sound or a put among them asks for a previous value that neither the table nor the operations before it have |
| Branches.ReplaySameBranches | storage/table/fsm/command_txn.go:30-75 | if every transaction met takes the branch it took the first time, the replay of any log works if and only if no missing previous value is asked for, and then reaches the state at b |
| Replay.OnKeyShape | storage/table/fsm/command_delete.go:33-92 | on every key a command without transactions is the identity or a constant |
| Replay.ApplyOnKey | storage/table/fsm/command.go:72-90 | the key-wise description is what the state machine does |
| Keys.EncodingKeepsOrder | storage/table/key/v1.go:44-49 | encoding preserves the byte order of keys |
| Keys.BoundsExact | storage/table/fsm/iter.go:11-39 | the encoded bounds of a range select exactly the user keys it means |
| Keys.WildcardIsEnd | storage/table/fsm/iter.go:11-39 | the end `[0]` means no end, every other end is exclusive |
| Keys.BoundsExcludeSystem | storage/table/fsm/iter.go:11-39 | and never an index record |
| Keys.IterOptionsForBounds | storage/table/fsm/iter.go:11-39 | the computed bounds have both properties, for all keys |
| Keys.WildcardBound | storage/table/fsm/fsm.go:27-42 | the wildcard bound is the smallest system key of full length |
| Keys.UserBelowSystem | storage/table/key/v1.go:23-37 | every user key lies below every system key |
| Keys.IncrementAddsOne | storage/table/fsm/fsm.go:441-452 | the increment with carry adds one to the big-endian number |
| Keys.IncrementRightmostByte | storage/table/fsm/fsm.go:441-452 | the in-place loop computes that increment, growing by a byte on overflow |
| Keys.PrependByte | storage/table/fsm/fsm.go:454-459 | shifts the bytes and puts one in front |
| Keys.DecodeBytesEncode | storage/table/key/key.go:113-151 | decoding returns the key, and its kind if and only if the key is not empty |
| Keys.DecodeStreamEncode | storage/table/key/key.go:74-101 | the streaming decoder inverts the encoder if and only if the key has at most 1019 bytes |
| Keys.LongKeyCut | storage/table/key/v1.go:51-62 | a key of 1020 bytes comes back without its last byte |
| Store.IteratorMatches | storage/table/fsm/iter.go:11-39 | an iterator over the encoded bounds walks over exactly the matching user keys in their order |
| Store.RemoveUserRange | storage/table/fsm/command_delete.go:41-72 | a range deletion on encoded keys removes exactly the user keys of the range |
| Store.UserOpsKeepSystem | storage/table/fsm/command_delete.go:41-72 | no operation on user keys touches an index record |
| Varint.EncodeVarint | regattapb/mvcc_vtproto.pb.go:948-958 | writes the varint into the bytes before the offset, exactly `sov` of them |
| Varint.EncodeLength | regattapb/mvcc_vtproto.pb.go:1368-1370 | the encoding has exactly `sov` bytes |
| Varint.RoundTrip | regattapb/mvcc_vtproto.pb.go:948-958 | every 64-bit value survives, whatever follows it |
| Varint.DecodeVarint | regattapb/mvcc_vtproto.pb.go:1374-1400 | the shifting loop decodes as the reference does, with its overflow and end cases |
| Wire.ParseEncode | regattapb/mvcc_vtproto.pb.go:1374-1725 | parsing the encoding of any list of fields returns the list |
| Wire.SignedRoundTrip | regattapb/mvcc_vtproto.pb.go:909-946 | signed numbers survive as unsigned varints |
| Codec.KeyValueSize | regattapb/mvcc_vtproto.pb.go:1344-1366 | `SizeVT` of a pair is the length of its encoding |
| Codec.KeyValueRoundTrip | regattapb/mvcc_vtproto.pb.go:3312-3468 | every pair survives the round trip |
| Codec.TxnSize | regattapb/mvcc_vtproto.pb.go:1054-1201 | `SizeVT` of a transaction is the length of its encoding |
| Codec.TxnRoundTrip | regattapb/mvcc_vtproto.pb.go:1830-1982 | every transaction survives up to empty range ends |
| Codec.RequestRoundTrip | regattapb/mvcc_vtproto.pb.go:2459-2625 | every operation survives up to empty range ends |
| Codec.CompareRoundTrip | regattapb/mvcc_vtproto.pb.go:3122-3311 | every comparison survives up to empty range ends |
| CommandCodec.CommandSize | regattapb/mvcc_vtproto.pb.go:985-1033 | `SizeVT` of a recursively nested command is the length of its encoding |
| CommandCodec.CommandRoundTrip | regattapb/mvcc_vtproto.pb.go:1374-1725 | every recursively nested command survives up to empty range ends inside its transactions |
| CommandCodec.RoundTripExact | regattapb/mvcc_vtproto.pb.go:40-141 | a command survives unchanged if and only if no transaction in it, at any depth, has an empty range end |
| CommandCodec.NormalIsCanonical | regattapb/mvcc_vtproto.pb.go:1374-1725 | what decoding returns survives any further round trip |
| Formats.CommandBytes | regattapb/mvcc_vtproto.pb.go:40-141 | the bytes of a command with its single fields |
| Formats.ListBytes | regattapb/mvcc_vtproto.pb.go:40-141 | the bytes of a command with a batch, a transaction and a sequence |
| Formats.TxnBytes | regattapb/mvcc_vtproto.pb.go:211-260 | the bytes of a transaction from those of its parts |
| Formats.RequestBytes | regattapb/mvcc_vtproto.pb.go:280-556 | the bytes of an operation from those of its fields |
| Formats.RangeBytes | regattapb/mvcc_vtproto.pb.go:280-556 | the bytes of a concrete range read |
| Formats.PutBytes | regattapb/mvcc_vtproto.pb.go:280-556 | the bytes of a concrete put |
| Formats.DeleteBytes | regattapb/mvcc_vtproto.pb.go:280-556 | the bytes of a concrete delete |
| Formats.CompareBytes | regattapb/mvcc_vtproto.pb.go:827-889 | the bytes of a concrete comparison |
| Formats.KeyValueBytes | regattapb/mvcc_vtproto.pb.go:909-946 | the bytes of a concrete pair |
| Formats.VarintBytes | regattapb/mvcc_vtproto.pb.go:948-958 | the bytes of concrete varints |
| Formats.KeyBytes | storage/table/key/v1.go:44-49 | the bytes of every user and system key |
| Formats.NumberBytes | storage/table/fsm/query.go:72-86 | the eight bytes of an index start with the least significant one |
| Formats.ResponseSize | regattapb/mvcc_vtproto.pb.go:1203-1223 | the size range reads keep below their limit is the length of the encoded response |
| Marshal.MarshalVT | regattapb/mvcc_vtproto.pb.go:22-33 | allocates `SizeVT` bytes and fills exactly those with the encoding |
| Marshal.MarshalCommand | regattapb/mvcc_vtproto.pb.go:40-141 | fills the buffer backwards, nested commands and transactions included, ending at the right offset |
| MarshalTxn.MarshalTxn | regattapb/mvcc_vtproto.pb.go:211-260 | fills the buffer backwards with the comparisons and both lists of operations |
| MarshalTxn.MarshalRequest | regattapb/mvcc_vtproto.pb.go:280-556 | writes the operation that is set as a sub-message, nothing when none is |
| MarshalTxn.MarshalCompare | regattapb/mvcc_vtproto.pb.go:827-889 | writes a comparison with the two-byte tag of its range end |
| Marshal.MarshalKeyValue | regattapb/mvcc_vtproto.pb.go:909-946 | the same for a pair |
| Marshal.UnmarshalCommand | regattapb/mvcc_vtproto.pb.go:1374-1725 | the field loop decodes as the reference does, nested commands and transactions included, failures included |
| Unmarshal.UnmarshalTxn | regattapb/mvcc_vtproto.pb.go:1830-1982 | the same for a transaction, whose lists grow field by field |
| Unmarshal.UnmarshalRequest | regattapb/mvcc_vtproto.pb.go:2459-2625 | the same for an operation, where a repeated variant is read into the one before |
| Unmarshal.UnmarshalPlain | regattapb/mvcc_vtproto.pb.go:3312-3468 | the same for a message without inner messages, such as a pair |
| Unmarshal.ReadField | regattapb/mvcc_vtproto.pb.go:1378-1440 | reads one field, skipping unknown ones |
| Unmarshal.SkipGroup | regattapb/mvcc_vtproto.pb.go:3470-3547 | skips nested groups as the reference does |
| LittleEndian.RoundTrip | storage/table/fsm/query.go:72-86 | every index survives its eight bytes |
| Snapshot.CommandSnapshot | storage/table/fsm/query.go:18-70 | the file holds one framed put for every pair with a non-empty key, in key order, and the result is the local index, unless it is stopped |
| Snapshot.Stream | regattaserver/replication.go:55-105 | the chunks together are the framed records followed by the marker with the index |
| Snapshot.SnapshotNames | storage/table/fsm/query.go:27-46 | the walk over raw keys finds exactly the table's non-empty keys in order |
| Snapshot.SnapshotFile.Write | replication/snapshot/snapshot.go:155-171 | appends the frame of a record, nothing for an empty one |
| Snapshot.SnapshotFile.Read | replication/snapshot/snapshot.go:143-153 | reads the next frame, with the end and the broken cases |
| Snapshot.SendChunks | replication/snapshot/snapshot.go:25-47 | the chunks are non-empty, bounded and concatenate to the file |
| Snapshot.ReceiveChunks | replication/snapshot/snapshot.go:80-102 | writes the concatenation of the chunks |
| Snapshot.FramingRoundTrip | replication/snapshot/snapshot.go:143-171 | framed records are read back as written for any chunking if they all fit the read buffer, and not at all otherwise |
| Restore.ReadIntoTable | storage/table/manager.go:644-717 | what reaches the log of the new table, with retries and late attempts, are proposals of the file's records only, and all of them when the load ends well; a read failure means the file is malformed, a failed proposal takes a fault |
| Restore.Recover | replication/worker.go:315-361 | receiving and loading a snapshot stream puts the proposals of the leader's table into the log of the new one; without faults it ends well if and only if no record is larger than the 4 MiB read buffer |
| Restore.RestoreExact | storage/table/manager.go:644-717 | the new table has the same pairs with non-empty keys if and only if there are none or their records together stay below half of the limit |
| Restore.RecordsRebuild | storage/table/fsm/query.go:18-70 | applied as a log to an empty table, the commands of a snapshot rebuild the table, its empty key aside |
| Restored.RestoredTable | storage/table/manager.go:644-717 | the same for every order and number of attempts that reached the log and every grouping of its entries by the state machine |
| Restored.RestoredIndex | storage/table/manager.go:669-690 | with retries, the new table gets the snapshot's index if some call ends with an entry that carries it, and zero otherwise |
| Restored.RestoredIndexExact | storage/table/manager.go:669-690 | without retries, the index is kept if the marker fits a batch or the last proposal is in a call of its own, and is zero otherwise |
| Restored.FlushLosesRecord | storage/table/manager.go:675-690 | a one-key table whose only record flushes and is lost |
| Restored.FlushLosesIndex | storage/table/manager.go:669-690 | a marker that flushes: its index is lost in one call and kept in two |
| Restored.RetriedApplies | storage/table/manager.go:692-709 | a log with every proposal in it, in any order and number, builds the same table |
| Restored.SmallRestore | storage/table/manager.go:644-717 | a snapshot below the limit is one proposal that, however often tried and however grouped, rebuilds the table with its index, plus an empty key from the marker |
| Restored.LoadLeader | storage/table/manager.go:669-690 | which proposal carries the last record's leader index, and that no other carries one |
| Restore.LoadApplies | storage/table/manager.go:644-717 | the proposals together put exactly the records that did not flush |
| Restore.KeyLost | storage/table/manager.go:675-690 | as soon as the estimate reaches the limit some key is missing |
| Restore.StreamReadBack | replication/snapshot/snapshot.go:143-153 | the records of a stream decode to the commands written if they all fit the read buffer, and not at all otherwise |
| Similar.SimApply | storage/table/fsm/command.go:72-90 | a command works on a table with an extra empty key as on the original and keeps them similar, unless a transaction compares from the empty key on |
| Similar.SimTxn | storage/table/fsm/command_txn.go:30-44 | so does any transaction whose comparisons decide alike on the two tables |
| Similar.SimCompareExact | storage/table/fsm/command_txn.go:77-140 | a comparison decides alike if and only if it does not look at the empty key, fails on another key, or finds alike at the empty key |
| Similar.SimCompareAllExact | storage/table/fsm/command_txn.go:77-83 | the comparisons of a transaction decide alike if and only if one that does not look at the empty key fails, or those that do decide alike |
| Similar.LookingAtEmptyDiverges | storage/table/fsm/command_txn.go:77-140 | such a transaction tells them apart for good |
| MetaStore.Lfsm.Update | storage/kv/raft.go:40-80 | compare-and-set entry by entry: an absent key accepts any version, a new version is the entry's index, mismatches change nothing, an undecodable entry stops the loop |
| MetaStore.RepliesExact | storage/kv/raft.go:40-80 | one reply per entry up to the first undecodable one: a mismatch if and only if the key is there under another version, with what is stored and nothing changed, else the entry's index, under which a set value is stored, or by which a deleted key is gone; no other key changes |
| Leases.LeaseHeld | storage/table/manager.go:98-161 | in every run an unexpired lease stays as it is until a proposal of its own holder is applied, whatever others have read and however late their proposals arrive |
| Leases.StepSafe | storage/table/manager.go:98-161 | a step that replaces or removes a lease is its holder's, or the lease has expired |
| Leases.StepKeeps | storage/kv/raft.go:40-80 | every pending proposal that can still succeed is its author's to make |
| Leases.TakeAndReturn | storage/table/manager.go:98-161 | a lease is granted if and only if it is free, own or expired; taking then returning frees the table, and nobody else can return it |
| Leases.AppliedLease | storage/table/manager.go:110-126 | an accepted acquisition makes its node the only holder and leaves other tables alone |
| TableIds.IdsIncrease | storage/table/manager.go:415-436 | in every run every ID given out lies above 10000 and later ones are higher |
| TableIds.NoSharedIds | storage/table/manager.go:570-642 | in every state of every run no two stored tables share a nonzero ID in either role |
| TableIds.RecordIds | storage/table/manager.go:570-642 | in every state of every run every stored record is its table's, uses no ID for both roles and only IDs above 10000 |
| TableIds.StepKeeps | storage/table/manager.go:174-211 | every interleaving of create, delete and restore keeps the ownership of IDs |
| TableIds.NextId | storage/kv/raft.go:40-80 | an accepted increment is the successor of the last ID |
| TableIds.CreateAndRestore | storage/table/manager.go:570-616 | a created table has its ID; a restore first adds the ID to recover into and then makes it the table's |
| TableIds.DiffTables | storage/table/manager.go:456-488 | exactly the shards above the reserved range that a table uses and that do not run are started, and those that run unused are stopped, each once |
| Gossip.SameNewsSameView | storage/cluster/view.go:56-67 | in every run nodes that have heard the same updates, through any other nodes, in any order and repetition, hold equal views |
| Gossip.OrderDoesNotMatter | storage/cluster/view.go:56-67 | views depend only on the set of updates |
| Gossip.Merge | storage/cluster/view.go:26-40 | config index and known term never decrease |
| Gossip.MergeSummaries | storage/cluster/view.go:26-40 | merging two summaries summarizes both sets of updates: highest config index, highest term with a leader |
| Gossip.ReceiveAll | storage/cluster/cluster.go:396-407 | taking in another node's view is taking in all that it has heard |
| Gossip.StepGoesForward | storage/cluster/view.go:26-40 | no step of any node takes a view back |
| Gossip.TwoLeadersDiverge | storage/cluster/view.go:26-40 | with two leaders in one term the order matters |
| Gossip.ShardView.Update | storage/cluster/view.go:56-67 | the loop merges the updates in order |
| Gossip.ShardView.Copy | storage/cluster/view.go:69-78 | the copy lists exactly the shards of the view |
| CrashSafety.CrashSafe | storage/table/fsm/snapshot_snapshot.go:92-179 | from an opened database on, through recoveries, failing syncs, errors, restarts, cleanups and crashes, a crash at any step, keeping any part of the unsynced changes, leaves a current file naming a complete database that the next cleanup keeps, as long as every rename is durable before a cleanup removes the database named before it |
| CrashSafety.CrashSafeExact | pebble/dir.go:70-168 | a run survives a crash at every step if and only if no cleanup in it removes the previously named database while the rename is not durable |
| CrashSafety.CrashExact | pebble/dir.go:70-168 | a reachable state survives every crash if and only if no removal of the database named on the disk is pending |
| CrashSafety.ExposedSwitching | pebble/dir.go:144-168 | such a removal can only be pending behind a rename that is not durable |
| CrashSafety.CleanedExact | pebble/dir.go:144-168 | after a cleanup a state survives every crash if and only if the current file on the disk names what programs see it name |
| CrashSafety.RestartLosesDatabase | pebble/dir.go:70-77 | every run that has come to a rename that is not durable goes on by a restart, a cleanup step and a crash to a current file that names a missing database |
| CrashSafety.RunToRename | storage/table/fsm/snapshot_snapshot.go:92-166 | from every good directory there is such a run |
| CrashSafety.CrashGood | storage/table/fsm/snapshot_snapshot.go:157-178 | the database named after a crash is the one named on the disk or the one programs saw named |
| CrashSafety.StepKeeps | storage/table/fsm/snapshot_snapshot.go:92-179 | every step of recovery, failure, restart and cleanup keeps the invariant, and so does a crash out of a state without such a removal |
| CrashSafety.ExposedStep | pebble/dir.go:144-168 | a step makes a state unsafe if and only if it removes the previously named database before the rename is durable |
| CrashSafety.UnsyncedRenameUnsafe | pebble/dir.go:80-104 | without the directory sync before the rename a crash can leave the current file naming a missing database |
| DbDir.CleanupExact | pebble/dir.go:144-168 | a database survives a cleanup if and only if a current file with matching checksum names it |
| DbDir.WrongChecksumLosesAll | pebble/dir.go:107-168 | a current file with a wrong checksum: the cleanup succeeds and removes the only database |
| DbDir.CleanupKeeps | pebble/dir.go:144-168 | a cleanup keeps a good directory good |
| DbDir.NameRoundTrip | pebble/dir.go:80-133 | the saved name is read back |
| DbDir.Disk.SaveCurrentDBDirName | pebble/dir.go:80-104 | the updating file is written in steps, any of which may fail where there are faults; on success it holds the name, and all changes are durable if the final directory sync works |
| DbDir.Disk.ReplaceCurrentDBFile | pebble/dir.go:70-77 | the rename is done and durable, or where there are faults may fail and change nothing or be done and not durable |
| DbDir.Disk.CleanupNodeDataDir | pebble/dir.go:144-168 | leaves exactly the current file and the database it names, and only removes |
| Recovery.Recover | storage/table/fsm/snapshot_snapshot.go:92-179 | ends with the new database and the current file naming it, or stopped with the old ones, or where there are faults with an error, a rename that is not durable included; it may then be called again; when the unchecked directory sync works all its file operations are a path of the step system, and unless it starts behind a rename that is not durable a crash at any point is harmless; a stopped one leaves a state that survives every crash if and only if there was no such rename |
| Recovery.Reopen | storage/table/fsm/fsm.go:150-163 | the start of a state machine cleans up and finds the named database; a crash is harmless afterwards if and only if the rename it saw was durable |
| Recovery.SwitchTo | storage/table/fsm/snapshot_snapshot.go:157-166 | saving the name, renaming and syncing as steps, with their failures |
| Recovery.TraceSafe | storage/table/fsm/snapshot_snapshot.go:92-179 | every state on a path that starts without a pending rename survives every crash |

## Left out

- Library layers: Pebble, Dragonboat, gRPC, memberlist, snappy and JSON are the small abstract objects described above.
- Error values: kinds of errors are merged where no caller tells them apart; an error or a crash of the state machine is `Fault`, a failed decoding `None`.
- Codec.TxnRoundTrip: unknown fields are dropped by decoding instead of being kept, because no caller reads them.
- CommandCodec.CommandRoundTrip: holds of commands whose encoding is shorter than 2^63 bytes, the largest length Go can hold.
- Replication.Replicated: assumes one active worker per table, proposals that are settled before the index is read again, and a leader shard that is not created anew; resets are allowed when the log has no transactions, recoveries when snapshots stay below half of the in-memory limit and no transaction compares from the empty key on, because the law fails otherwise.
- Metadata protocols: operations of the manager are steps between single accesses of the store instead of methods, because other nodes act in between.
- Snapshot.Stream: lengths of records and names fit 63 bits, as every length in Go does.
- Restore.Recover: the crash of the reader at a record larger than its buffer is a failed read.
- Leases.LeaseHeld: the nodes share one clock that does not go back.
- CrashSafety.CrashSafe: the directory sync before the rename works and a cleanup waits for the rename to be durable, because the law fails otherwise; the first run before a database exists is excluded.
- Gossip.SameNewsSameView: assumes one leader per term, as Election Safety in section 5.2 of the Raft paper gives, and one membership per config index.
- TableIds.NoSharedIds: IDs are unbounded numbers, and table names contain no slash.
- LogReader.Cached.QueryRaftLog: slices are values; sharing of backing arrays and of buffer pools is not modelled.
- Worker mutual exclusion through the leased flag, reconcile and cleanup loops of the manager, metrics, tickers, timeouts and rate limits.
- The checkpoint form of state machine snapshots, table hashes, key listing and path matching of the metadata store.
- Request validation of the API servers, REST, certificates, logging and the command line.
