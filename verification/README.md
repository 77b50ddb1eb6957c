# pgpool-II: a verified model of its core

A Dafny model of the parts of pgpool-II (connection pooler, load balancer and
failover manager for PostgreSQL) whose correctness is hardest to see from the code:
the failover manager, SCRAM-SHA-256 authentication on both ends, MD5, query routing
with its session bookkeeping, the authentication-file tokenizer, the lookahead filter
of the SQL parser, and the configuration table.  `dafny verify dfyconfig.toml` checks
the whole project.

Code that updates state in place is modelled by classes, arrays and loops.  Each such
method is proved equal to a function on values, and the properties are proved about
those functions over all inputs, all runs or all interleavings.

| file | what it models |
|---|---|
| RequestRing, FailoverProtocol, FailoverCoverage, FailoverProgress | the shared request queue, and the interleaving of registering processes with the draining main process |
| Failover, FailoverEffects, FailoverManager | one node request as a transition of statuses, roles, master and primary; what it does field by field; the drain loop over objects |
| SplitBrain | the search for the primary and the detachment of false primaries |
| Bytes, Base64, Scram, ScramExchange, ScramSoundness, ScramEngine | base64, SCRAM messages, the two exchange state machines, their soundness, and the cursor-and-buffer code |
| Md5Sine, Md5Spec, Md5 | the sine table, sections 3.1 to 3.5 of RFC 1321, and the unrolled implementation |
| TempTables, SentMessages, MessageLookup, SentMessageList | temporary-table list, sent-message list with shared query contexts |
| Statements, QueryRouting, RoutingEffects, QueryContexts | classification of statements, destination maps, inheritance by EXECUTE and DEALLOCATE, the write mark |
| ConfigTable, ConfigVariables, ConfigStore | sorting and lookup of configuration records, SET and RESET ALL |
| HbaTokens, Lookahead | tokens of the authentication file; one-token lookahead |
| Options, Strings | small shared definitions |

## What the proofs found

Properties that turned out false of the code are stated with a concrete run or input
and with the exact condition under which they hold.

- A request registered while the main process is still INITIALIZING can be left in the
  queue with nobody due to look at it (`StrandedDuringStartup`).  `NoLostRequestIff` says
  exactly which runs do this; after initialization none does, and whatever the
  scheduling, everything accepted is dequeued before the processes come to rest
  (`EveryScheduleDrains`).
- `failover()` compares only the first node id of a request with the primary.  A request
  naming a standby before the primary leaves a dead primary recorded
  (`StandbyNamedFirst`); `DownKeepsPrimaryIff` says exactly when a request for several
  nodes leaves a usable primary.
- Two primaries under one host and port both stay primary (`TwoPrimariesStay`);
  `UniquePrimaryIff` is the exact condition for one.
- Adding an unnamed message that shares its context with nothing but the unnamed message
  it replaces leaves a destroyed context in use (`AddLosesContext`, `AddSafeIff`).
- A temporary-table name of 128 or more characters is truncated when stored but not when
  compared, so it can be stored twice (`LongNameTwice`, `AddKeepsDistinctIff`).
- Aborting a transaction that dropped a temporary table forgets the table although it is
  still there (`AbortedStates`).
- Adding an unnamed message removes the first of its kind, open or closed.  With a closed
  one in front the old open one stays and keeps being found (`StaleUnnamed`,
  `UnnamedReplacesIff`).
- A COPY TO of a SELECT that locks rows, deletes in its WITH clause or calls a writing
  function is classified and balanced like a read (`CopySlipsThrough` for the first two);
  `WritesArePrimaryIff` and `ChangeLeavesPrimaryIff` say exactly which writes can reach a
  standby.
- A multi-statement string that begins with EXECUTE follows the prepared statement to a
  standby, whatever stands after the semicolon (`MultiExecuteStrays`,
  `MultiGoesToPrimaryIff`).
- RESET ALL undoes a session's changes exactly where the value before the session was
  also the value to reset to (`ResetAllRestoresIff`); a reloaded value is lost
  (`ReloadedValueLost`), and from the second RESET ALL on the recorded source reads
  "file" (`SourceAfterReset`).

Where code and comments disagree the code is followed: the comment above
`pool_temp_tables_delete` says that a requested state of DROP_COMMITTED also removes an
entry, but only the stored state is tested; `SET transaction_read_only TO 1` counts as a
change to read-write, `TO 0` does not; `BEGIN READ WRITE` is sent
to both, as either branch returns.

## Model

| member | source | states |
|---|---|---|
| `RequestRing.Slot.Write` | src/main/pgpool_main.c:541-550 | copying a request into a slot makes the slot read back as that request and leaves the stale node ids past its count alone |
| `RequestRing.SlotsDistinct` | src/include/pool.h:466 | two counters less than ten apart use different slots |
| `RequestRing.WriteKeepsWindow` | src/main/pgpool_main.c:529-551 | writing at the bumped tail appends to the queue and touches no pending entry |
| `RequestRing.RequestInfo.Register` | src/main/pgpool_main.c:519-563 | accepted exactly when fewer than ten are pending, then appended last; rejected leaves the queue as it was; returns the `switching` flag it read under the lock |
| `RequestRing.RequestInfo.Drain` | src/main/pgpool_main.c:1715-1731 | takes exactly the oldest request, unchanged; on an empty queue clears `switching` and takes nothing |
| `RequestRing.RequestInfo.constructor` | src/main/pgpool_main.c:3645-3646 | an empty queue with both counters at -1 |
| `FailoverProtocol.StepControl` | src/main/pgpool_main.c:519-563 | every enabled atomic step of any process keeps the lock, ring and main-process invariants |
| `FailoverCoverage.StepCoveredIff` | src/main/pgpool_main.c:1602-1616 | a step of any process leaves pending requests covered (drain loop active, a signal still to come, or the flag set with a look at it due) if and only if it is not the processor clearing the reason while INITIALIZING with nothing to make up for it |
| `FailoverProtocol.RunControl` | src/main/pgpool_main.c:1694-1731 | the control invariants hold over every interleaving |
| `FailoverProtocol.RingIsFifo` | src/main/pgpool_main.c:529-551 | in every interleaving what was dequeued is a prefix of what was accepted, in order and unchanged; at most ten are pending and each is intact in its slot |
| `FailoverCoverage.RunCoveredIff` | src/main/pgpool_main.c:519-563 | from any covered state, requests stay covered at every point of a run if and only if the run has no such abandoning step |
| `FailoverCoverage.NoLostRequestIff` | src/main/pgpool_main.c:1541-1616 | the same over every interleaving from start-up: coverage is lost exactly at the first abandoning step |
| `FailoverCoverage.NoLostRequest` | src/main/pgpool_main.c:1541-1616 | once initialization is over no step abandons, so from a covered state every run stays covered throughout |
| `FailoverCoverage.LoopEndCovers` | src/main/pgpool_main.c:1715-1731 | when the drain loop stops, the queue is empty at that instant |
| `FailoverCoverage.InitialControl` | src/main/pgpool_main.c:3590-3713 | the initial shared memory meets every invariant |
| `FailoverCoverage.StrandedDuringStartup` | src/main/pgpool_main.c:1602-1616 | a run from start-up with an abandoning step: the request signalled stays in the queue uncovered |
| `FailoverProgress.StepWorks` | src/main/pgpool_main.c:1541-1616 | every step other than a new registration, a foreign pipe byte or the start of a sleep strictly lowers the work outstanding; those three raise it by a fixed amount |
| `FailoverProgress.RunIsBounded` | src/main/pgpool_main.c:519-563 | the length of any run, under any scheduling, is at most the work outstanding at its start plus what new events add |
| `FailoverProgress.RestsOrMoves` | src/main/pgpool_main.c:1694-1731 | unless every process is idle, one can go on with what it has begun: no deadlock |
| `FailoverProgress.DrainedWhenIdle` | src/main/pgpool_main.c:1694-1731 | wherever a run reaches a point at which only new events could go on, every accepted request has been dequeued, in order |
| `FailoverProgress.EveryScheduleDrains` | src/main/pgpool_main.c:519-563 | once no new event comes, no scheduling goes on for longer than the work outstanding, and where it cannot go on the queue has been drained |
| `FailoverProgress.PendingIsDequeued` | src/main/pgpool_main.c:519-563 | every such run can be carried on to that end |
| `FailoverProgress.RunHistory` | src/main/pgpool_main.c:1715-1731 | acceptance and dequeue histories only grow |
| `Failover.NextMasterFrom` | src/main/pgpool_main.c:1487-1516 | the least live node from a start on, or -1 exactly when none is live |
| `Failover.NextMasterSame` | src/main/pgpool_main.c:1487-1516 | the master depends only on which nodes are live |
| `Failover.ProcessKeepsMaster` | src/main/pgpool_main.c:1757-2213 | after each request, of any kind and any number of nodes, the master is the least live node whenever one is live |
| `Failover.ProcessKeepsPrimary` | src/main/pgpool_main.c:2071-2213 | after each single-node request in streaming or logical mode the primary id is negative or names a live node |
| `Failover.RunKeepsInvariant` | src/main/pgpool_main.c:1757-2213 | both invariants over any sequence of single-node requests and connection events, with any answers of the primary search |
| `Failover.TakeDownAllEffect` | src/main/pgpool_main.c:1869-1927 | the loop over a node set takes down exactly the named live nodes, keeps roles and all other nodes, and re-reads a quarantined former primary |
| `Failover.DownKeepsPrimaryIff` | src/main/pgpool_main.c:2075-2122 | a request for several nodes leaves a usable primary if and only if the primary is not among them or is the first one named |
| `Failover.StandbyNamedFirst` | src/main/pgpool_main.c:2084-2122 | naming a standby before the primary leaves a dead primary although a third node is live |
| `Failover.QuarantineEffect` | src/main/pgpool_main.c:2075-2096 | quarantining a live node empties the primary id exactly if it was the primary, keeps its role, and changes no other node |
| `Failover.UpdateEffect` | src/main/pgpool_main.c:1785-1838 | failing a node back with the update flag makes it live and primary again exactly if it held that role and no primary is recorded |
| `Failover.QuarantineUndone` | src/main/pgpool_main.c:1785-2213 | quarantine followed by update restores primary, master and the set of live nodes, for every node and whatever the searches in between answer |
| `FailoverEffects.DownEffect` | src/main/pgpool_main.c:1869-2213 | in streaming and logical mode the whole cluster after one node goes down, field by field: a standby leaves the primary alone, the primary is replaced by the answer of the search among the nodes left, the others follow exactly as configured, the master is the least live node |
| `FailoverEffects.NewPrimaryElected` | src/main/pgpool_main.c:2099-2118 | when the primary goes down and the search answers m, m is the primary, live and in that role |
| `FailoverEffects.DownIgnored` | src/main/pgpool_main.c:1876-1927 | a request for a node neither live nor quarantined changes nothing |
| `FailoverEffects.FailbackEffect` | src/main/pgpool_main.c:1757-1852 | failback without the update flag makes the node live and takes the answer of the search as primary; nothing else changes |
| `FailoverEffects.FailbackIgnored` | src/main/pgpool_main.c:1759-1774 | failback of a live node or of an invalid id changes nothing |
| `FailoverEffects.UpdateWhole` | src/main/pgpool_main.c:1785-1838 | the whole cluster after failback with the update flag |
| `FailoverEffects.PromoteEffect` | src/main/pgpool_main.c:1853-2213 | promotion makes a live node primary and in streaming mode takes every other configured node down; of any other node it changes nothing |
| `FailoverEffects.QuarantineWhole` | src/main/pgpool_main.c:1885-2096 | the whole cluster after a quarantine, with mark and remembered role |
| `FailoverEffects.DownElsewhere` | src/main/pgpool_main.c:2119-2124 | in replication and Slony mode the primary after a node went down is the answer of the search |
| `FailoverEffects.QuarantineElsewhere` | src/main/pgpool_main.c:2075-2096 | there a quarantine keeps the choice an earlier request of the same call made |
| `FailoverEffects.RawDown` | src/main/pgpool_main.c:1876-1929 | in raw mode exactly the named node goes down, if live, quarantined or master, and the master moves to the least live node |
| `FailoverEffects.RawUp` | src/main/pgpool_main.c:1757-1784 | in raw mode a node comes back unless it is the master and not down |
| `FailoverManager.Manager.GetNextMasterNode` | src/main/pgpool_main.c:1487-1516 | the loop finds the least live node |
| `FailoverManager.Manager.CheckAllBackendDown` | src/main/pgpool_main.c:1620-1638 | true exactly when every configured node is down or unused |
| `FailoverManager.Manager.Failback` | src/main/pgpool_main.c:1757-1852 | the in-place update for a node coming up is the transition's first half |
| `FailoverManager.Manager.TakeNodesDown` | src/main/pgpool_main.c:1869-1927 | the in-place loop over a node set, its count and its search flag are those of the transition |
| `FailoverManager.Manager.SelectPrimary` | src/main/pgpool_main.c:2071-2122 | the choice of the new primary as the transition makes it |
| `FailoverManager.Manager.FollowNewPrimary` | src/main/pgpool_main.c:2128-2182 | follow degeneration takes down every configured node but the new primary |
| `FailoverManager.Manager.Publish` | src/main/pgpool_main.c:2190-2213 | master and primary are published as the transition does |
| `FailoverManager.Manager.HandleNext` | src/main/pgpool_main.c:1715-2213 | one turn of the loop removes the oldest request and applies exactly its transition; on an empty queue nothing changes but `switching` |
| `FailoverManager.Manager.HandleAll` | src/main/pgpool_main.c:1694-2340 | the whole routine drains the queue and leaves the state of the value-level run over its requests in order |
| `SplitBrain.OwnedCount` | src/main/pgpool_main.c:3271-3350 | a primary's count of owned standbys equals the number of standbys if and only if each of them streams from it |
| `SplitBrain.VerifyBackendNodeStatus` | src/main/pgpool_main.c:3119-3381 | the counting loops give every node exactly the declarative verdict |
| `SplitBrain.CountOwners` | src/main/pgpool_main.c:3271-3350 | for each primary the number of standbys it owns, and a true primary is reported if and only if one owns all |
| `SplitBrain.DetachFalsePrimaries` | src/main/pgpool_main.c:3353-3381 | a primary becomes invalid exactly when it does not own all standbys and another does |
| `SplitBrain.KeepFirstPrimary` | src/main/pgpool_main.c:3176-3219 | without standbys only the first of several primaries stays |
| `SplitBrain.FindPrimaryNode` | src/main/pgpool_main.c:3398-3495 | the first always-master node, otherwise the last node whose verdict is primary |
| `SplitBrain.FoundIsValid` | src/main/pgpool_main.c:3466-3494 | without an always-master flag the node found was reachable and not in recovery |
| `SplitBrain.SplitBrainResolved` | src/main/pgpool_main.c:3250-3381 | if some primary owns all standbys and no connection string is ambiguous, that node alone keeps primary status, the others become invalid, and the search returns it |
| `SplitBrain.UniquePrimaryIff` | src/main/pgpool_main.c:3250-3381 | exactly when one given node alone keeps primary status |
| `SplitBrain.TwoPrimariesStay` | src/main/pgpool_main.c:3271-3381 | two primaries under one host and port both own the standby streaming from there, both stay primary, and the later one is found |
| `SplitBrain.StandbyDecides` | src/main/pgpool_main.c:3327-3381 | of two primaries the one whose host and port the standby streams from stays and is found; an empty host stands for a local socket; both stay if the standby tells them not apart |
| `SplitBrain.OldServersKeepAll` | src/main/pgpool_main.c:3247-3266 | before version 9.6 nobody is detached |
| `SplitBrain.FirstPrimaryStays` | src/main/pgpool_main.c:3176-3219 | without standbys the first of several primaries stays, the others are invalid or unused as detaching is on or off |
| `SplitBrain.AlwaysMasterFound` | src/main/pgpool_main.c:3398-3465 | the first node flagged as always master is the answer |
| `SplitBrain.FindPrimaryNodeRepeatedly` | src/main/pgpool_main.c:3498-3548 | the retry loop returns the first success, or -1 at the timeout; with timeout 0 it goes on until an attempt succeeds |
| `SplitBrain.LongerSearchAgrees` | src/main/pgpool_main.c:3525-3546 | a success within one limit is the answer under every larger one, so the unlimited search returns it too |
| `SplitBrain.SearchIsFirst` | src/main/pgpool_main.c:3498-3548 | the answer of the first successful attempt, and -1 exactly without one before the limit, without a live node, or outside streaming and logical mode |
| `SplitBrain.SearchFinds` | src/main/pgpool_main.c:3498-3548 | the search answers -1 or a configured live node, which is what the transitions assume of it |
| `Bytes.XorAt` | src/auth/auth-scram.c:970-972 | exclusive or, bit by bit |
| `Bytes.XorCancel` | src/auth/auth-scram.c:970-972 | xor with the same byte twice is the identity |
| `Bytes.XorSeqCancel` | src/auth/auth-scram.c:970-972 | the same for keys, so the server recovers the client key from the proof |
| `Base64.EncodeLoop` | src/utils/base64.c:45-83 | the shifting loop produces the encoding of the whole input with its padding |
| `Base64.DecodeLoop` | src/utils/base64.c:92-167 | the decoding loop accepts exactly the inputs the reference decoder accepts, with the same bytes |
| `Base64.RoundTrip` | src/utils/base64.c:45-167 | decoding an encoding gives the bytes back, for every byte string |
| `Base64.EncodedPrintable` | src/utils/base64.c:45-83 | encodings contain no comma and only printable characters |
| `Base64.KnownAnswers` | src/utils/base64.c:45-83 | the examples of section 10 of RFC 4648, before any further text |
| `Base64.RefusesForeign` | src/utils/base64.c:92-167 | a character outside the alphabet anywhere is refused |
| `Base64.EarlyPaddingRefused` | src/utils/base64.c:92-167 | padding at the first or second place of a group is refused |
| `Scram.FieldLenIsFirstComma` | src/auth/auth-scram.c:630-663 | an attribute value extends to the first comma or the end |
| `ScramExchange.AttrRoundTrip` | src/auth/auth-scram.c:630-663 | an attribute whose value has no comma is read back, alone or before others |
| `ScramExchange.ClientFirstRoundTrip` | src/auth/auth-scram.c:1369-1401 | the server's parser recovers flag, signed part and nonce of what the client printed |
| `ScramExchange.NumberRoundTrip` | src/auth/auth-scram.c:1493-1506 | a printed iteration count of at least 1 is read back |
| `ScramExchange.ServerFirstRoundTrip` | src/auth/auth-scram.c:1453-1512 | the client's parser recovers nonce, salt and iteration count of the server's challenge |
| `ScramExchange.ClientFinalRoundTrip` | src/auth/auth-scram.c:1042-1122 | the server's parser recovers nonce, proof and signed part of the client's final message |
| `ScramExchange.ServerFinalRoundTrip` | src/auth/auth-scram.c:1518-1558 | the client's parser recovers the server signature |
| `ScramExchange.HonestRun` | src/auth/auth-scram.c:332-447 | for every password, salt, iteration count from 1 and comma-free printable nonces the four messages, written out literally, are exchanged; both ends sign first message, challenge and final part joined by commas; the server succeeds and the client accepts |
| `ScramSoundness.ClientFinalExact` | src/auth/auth-scram.c:1042-1122 | an accepted final message is exactly the signed part, ",p=", the proof and at most one comma, and starts with the binding and the nonce |
| `ScramSoundness.SuccessMeans` | src/auth/auth-scram.c:370-438 | success implies not doomed, matching binding, the nonce being client then server nonce, and a proof that, freed of the signature of first message, challenge and final part, hashes to the stored key; the answer is the server signature of the same text |
| `ScramSoundness.SuccessOnce` | src/auth/auth-scram.c:332-447 | over every sequence of inputs success is returned at most once |
| `ScramSoundness.SuccessHistory` | src/auth/auth-scram.c:332-447 | behind every success lies an earlier accepted first message, and the proof signs that message, the challenge sent for it (nonces, salt, count) and the signed part of the final one, all written out |
| `ScramSoundness.DoomedNeverSucceeds` | src/auth/auth-scram.c:415-434 | a doomed exchange never succeeds, whatever is sent |
| `ScramSoundness.ClientFirstExact` | src/auth/auth-scram.c:763-919 | an accepted first message is flag, two commas and the signed part, which starts with a name and a printable nonce |
| `ScramSoundness.GarbageRefused` | src/auth/auth-scram.c:890-919 | anything but attributes after the nonce is refused |
| `ScramSoundness.ServerFirstExact` | src/auth/auth-scram.c:1453-1512 | the client accepts only a challenge whose nonce continues its own, with salt and a positive count |
| `ScramSoundness.ServerFinalExact` | src/auth/auth-scram.c:1518-1558 | the last message carries a signature or is refused |
| `ScramSoundness.ClientProofMeans` | src/auth/auth-scram.c:1565-1601 | the proof sent, freed of the signature of the whole exchange, is the client key |
| `ScramSoundness.ClientDoneIff` | src/auth/auth-scram.c:1608-1635 | the client ends with success exactly on the server key's signature of that same text |
| `ScramEngine.ScanAttrValue` | src/auth/auth-scram.c:630-663 | the cursor loop returns the value and position the parser function gives, or its error |
| `ScramEngine.ScanAnyAttr` | src/auth/auth-scram.c:711-754 | the same for an attribute of any name |
| `ScramEngine.IsScramPrintable` | src/auth/auth-scram.c:666-683 | true exactly when every character is printable and not a comma |
| `ScramEngine.ParseClientFirst` | src/auth/auth-scram.c:763-919 | the cursor code accepts and extracts exactly as the parser function |
| `ScramEngine.ParseClientFinal` | src/auth/auth-scram.c:1042-1122 | the same for the final message, including skipped attributes before the proof |
| `ScramEngine.ParseServerFirst` | src/auth/auth-scram.c:1453-1512 | the same for the challenge on the client's side |
| `ScramEngine.ParseServerFinal` | src/auth/auth-scram.c:1518-1558 | the same for the server's final message |
| `ScramEngine.XorLoop` | src/auth/auth-scram.c:970-972 | the byte loop computes the xor of the keys |
| `ScramEngine.VerifyFinalNonce` | src/auth/auth-scram.c:926-940 | true exactly when the nonce is the client nonce followed by the server nonce |
| `ScramEngine.VerifyClientProof` | src/auth/auth-scram.c:947-981 | true exactly when the recovered client key hashes to the stored key |
| `ScramEngine.CalculateClientProof` | src/auth/auth-scram.c:1565-1601 | the proof is the client key xor its signature of the signed text |
| `ScramEngine.BackendExchange.Exchange` | src/auth/auth-scram.c:332-447 | one call on the state object is one step of the server machine |
| `ScramEngine.FrontendExchange.Exchange` | src/auth/auth-scram.c:1269-1363 | one call on the state object is one step of the client machine |
| `Md5Sine.SineOfOne` | src/auth/md5.c:85-98 | the sine of 1 to sixteen places, between two sums of its power series |
| `Md5Sine.CosineOfOne` | src/auth/md5.c:85-98 | the cosine of 1 likewise |
| `Md5.TableIsSine` | src/auth/md5.c:85-98 | every entry of the table is the integer part of 2^32 times the absolute sine of its number |
| `Md5Spec.MixAt` | src/auth/md5.c:54-57 | every bit of F, G, H and I, as a choice, a choice, a parity and a difference |
| `Md5.MacroMixes` | src/auth/md5.c:54-57 | the macros' and, or, complement and exclusive or give those bits |
| `Md5Spec.ZeroCountIsLeast` | src/auth/md5.c:110-163 | the number of zero bytes is the least that brings the length to 56 modulo 64 |
| `Md5Spec.PadIsBlocks` | src/auth/md5.c:110-163 | a padded message is a whole number of 64-byte blocks |
| `Md5Spec.StepsByRound` | src/auth/md5.c:165-251 | the table-driven 64 steps are four rounds of sixteen |
| `Md5Spec.SameBlocks` | src/auth/md5.c:254-316 | engines that agree step by step give the same digest of every block sequence |
| `Md5.ShiftOrRotates` | src/auth/md5.c:59-59 | two shifts joined by a bitwise or are the rotation of the standard |
| `Md5.MacroCombine` | src/auth/md5.c:56-84 | the macros' nested additions modulo 2 to the 32 and their rotation equal the standard's step |
| `Md5.RoundsAreSteps` | src/auth/md5.c:165-251 | the four unrolled rounds equal the 64 steps of the table |
| `Md5.DoTheRounds` | src/auth/md5.c:166-251 | the unrolled code updates the state words by one block digest |
| `Md5.CreatePaddedCopyWithLength` | src/auth/md5.c:111-163 | the buffer is the message, 0x80, the least zero padding and the 64-bit little-endian bit count |
| `Md5.DecodeBlock` | src/auth/md5.c:285-297 | the work buffer is the block's words in little-endian order |
| `Md5.CalculateDigestFromBuffer` | src/auth/md5.c:254-316 | the sum is the RFC 1321 digest of every message whose padded length plus one block fits in 32 bits |
| `TempTables.TableList.Add` | src/context/pool_session_context.c:1858-1884 | an existing name only changes state; a new one is appended, truncated to 127 characters |
| `TempTables.TableList.Delete` | src/context/pool_session_context.c:1914-1950 | an entry stored as DROP_COMMITTED is removed, any other takes the requested state, and nothing else changes |
| `TempTables.TableList.CommitPending` | src/context/pool_session_context.c:1957-1993 | the loop that restarts after each removal ends and equals one pass |
| `TempTables.TableList.RemovePending` | src/context/pool_session_context.c:2000-2030 | the same on abort |
| `TempTables.CommittedMembers` | src/context/pool_session_context.c:1957-1993 | commit drops exactly the DROPPING entries and turns CREATING into CREATE_COMMITTED |
| `TempTables.AbortedMembers` | src/context/pool_session_context.c:2000-2030 | abort drops exactly the CREATING and DROPPING entries |
| `TempTables.CommitSettles` | src/context/pool_session_context.c:1957-2030 | after commit or abort nothing is pending |
| `TempTables.RunKeepsDistinct` | src/context/pool_session_context.c:1857-2030 | over any run, names too short to be truncated stay distinct |
| `TempTables.AddKeepsDistinctIff` | src/context/pool_session_context.c:1858-1884 | an addition keeps names distinct if and only if the name is present or its truncation is not |
| `TempTables.AddedStates` | src/context/pool_session_context.c:1858-1884 | adding gives the name the state and touches no other |
| `TempTables.DeletedStates` | src/context/pool_session_context.c:1914-1950 | deleting removes an entry whose drop is committed, gives any other the state, and touches no other name |
| `TempTables.CommittedStates` | src/context/pool_session_context.c:1957-1993 | the state of each name after commit |
| `TempTables.AbortedStates` | src/context/pool_session_context.c:2000-2030 | the state of each name after abort: a creation is undone, and a table whose drop is undone is forgotten |
| `TempTables.LongNameTwice` | src/context/pool_session_context.c:1858-1906 | a name of 128 characters or more is stored twice |
| `SentMessages.IndexOf` | src/context/pool_session_context.c:367-400 | the first message of a kind and name, whatever its state |
| `SentMessages.IndexIn` | src/context/pool_session_context.c:630-649 | the first message of a kind and name in a given state |
| `SentMessages.UsedOnce` | src/context/pool_session_context.c:1015-1061 | the count of users is at most one exactly when no other message has the context |
| `SentMessages.DestroyIsWithout` | src/context/pool_session_context.c:427-472 | destroying one message destroys its context exactly when nothing else refers to it, and keeps flag and current query otherwise |
| `SentMessages.WithoutStages` | src/context/pool_session_context.c:406-421 | removing messages one by one or together destroys the same contexts |
| `SentMessages.DestroyedIff` | src/context/pool_session_context.c:427-472 | a context dies if and only if its last message goes and nothing pending refers to it |
| `SentMessages.AddSafeIff` | src/context/pool_session_context.c:562-624 | an addition leaves no dangling reference if and only if it does not share its context with only the unnamed message it replaces |
| `SentMessages.AddLosesContext` | src/context/pool_session_context.c:562-624 | a run from the empty session after which such an addition leaves its own message with a destroyed context |
| `MessageLookup.NamedStays` | src/context/pool_session_context.c:562-624 | while a named message is open another of the name is not recorded; otherwise the new one is found |
| `MessageLookup.UnnamedReplacesIff` | src/context/pool_session_context.c:596-608 | an unnamed message takes the place of the open one if and only if no closed one stands before it |
| `MessageLookup.StaleUnnamed` | src/context/pool_session_context.c:596-608 | otherwise look-ups go on finding the old one |
| `SentMessages.FinishSafe` | src/protocol/CommandComplete.c:215-245 | destroying the current context at the end of a command leaves no dangling reference |
| `SentMessages.FinishDestroysIff` | src/protocol/CommandComplete.c:215-245 | exactly when the end of a command destroys the current context |
| `SentMessages.RunSafe` | src/context/pool_session_context.c:367-488 | over any run no message, pending message or current-query pointer names a destroyed context |
| `SentMessageList.SessionContext.GetSentMessage` | src/context/pool_session_context.c:630-649 | the array search finds the first message of kind, name and state |
| `SentMessageList.SessionContext.CanQueryContextDestroy` | src/context/pool_session_context.c:1015-1061 | true exactly when at most one message and no pending message uses the context |
| `SentMessageList.SessionContext.RemoveSentMessage` | src/context/pool_session_context.c:367-400 | the array loses exactly the first match, in place, and its context dies under that rule |
| `SentMessageList.SessionContext.RemoveSentMessages` | src/context/pool_session_context.c:406-421 | the loop that stays put after a removal removes exactly the messages of a kind |
| `SentMessageList.SessionContext.ClearSentMessageList` | src/context/pool_session_context.c:478-488 | the list ends empty and every context not pending is gone |
| `SentMessageList.SessionContext.AddSentMessage` | src/context/pool_session_context.c:562-624 | named duplicates are refused, unnamed ones replace, the array doubles when full, and nothing else changes |
| `Statements.SelectWritesIff` | src/utils/pool_select_walker.c:165-183 | a SELECT may write exactly if it has an INTO or locking clause anywhere, a write in its WITH clause, or one in the WITH clause of a SELECT below it |
| `Statements.WritesArePrimaryIff` | src/context/pool_query_context.c:1101-1470 | a statement that may write, under any nesting of PREPARE, is classified for the primary if and only if it is not a COPY TO of a SELECT that writes, locks or stores, nor a SELECT with only a concealed write |
| `Statements.ReadsAreEitherIff` | src/context/pool_query_context.c:1101-1470 | what may be balanced is exactly what asks for data and cannot change any, together with those missed writes |
| `QueryRouting.LeavesPrimaryIff` | src/context/pool_query_context.c:472-635 | a single statement leaves the primary, for the load balance node alone, exactly if it only reads or is a missed write and neither configuration, write mark, transaction nor the tables it uses hold it back |
| `QueryRouting.ChangeLeavesPrimaryIff` | src/context/pool_query_context.c:472-635 | a statement that changes data, by itself or through a function, leaves the primary if and only if it is a COPY TO of such a SELECT, or a SELECT with only a concealed write, and load balancing applies |
| `QueryRouting.CopySlipsThrough` | src/context/pool_query_context.c:1262-1275 | COPY (SELECT FOR UPDATE) TO and COPY (WITH DELETE SELECT) TO are sent to the load balance node |
| `QueryRouting.PrepareStaysOnPrimary` | src/protocol/pool_process_query.c:1064-1187 | PREPARE itself is never balanced, so only a Parse message puts a prepared statement on a standby |
| `RoutingEffects.ReplicationWritesEverywhere` | src/context/pool_query_context.c:637-698 | in replication mode whatever is not a plain read goes to exactly the live configured nodes |
| `RoutingEffects.ReplicationReadsOnce` | src/context/pool_query_context.c:639-692 | a plain read goes to one node, the load balance node or the master, exactly as configuration and transaction say |
| `RoutingEffects.RawGoesToMaster` | src/context/pool_query_context.c:448-451 | in raw mode the master alone |
| `RoutingEffects.CommentDecides` | src/context/pool_query_context.c:429-443 | the NO LOAD BALANCE comment overrides everything |
| `RoutingEffects.BothIffSessionState` | src/context/pool_query_context.c:1277-1420 | exactly transaction control, weak locks, DISCARD and harmless SETs are for all nodes |
| `RoutingEffects.SessionStateEverywhere` | src/context/pool_query_context.c:212-239 | such a statement reaches exactly the nodes the session uses |
| `RoutingEffects.DeallocateUnknown` | src/context/pool_query_context.c:1474-1499 | DEALLOCATE ALL or of an unknown name reaches the primary and every node the session uses |
| `RoutingEffects.ReadWriteSpellings` | src/context/pool_query_context.c:1335-1362 | which values of transaction_read_only confine SET to the primary |
| `RoutingEffects.SerializableSpellings` | src/context/pool_query_context.c:1550-1601 | which SETs of the isolation level do |
| `RoutingEffects.CopyToFileStays` | src/protocol/pool_process_query.c:1116-1133 | COPY to a server file stays on the primary, to the client it may be balanced |
| `QueryRouting.Recorded` | src/context/pool_query_context.c:706-733 | a recorded PREPARE, else a recorded Parse; none exactly if no open message has the name |
| `QueryRouting.ConfinedGoesToPrimary` | src/context/pool_query_context.c:450-487 | in master/slave mode a write or multi-statement string not starting with EXECUTE or DEALLOCATE reaches exactly the primary |
| `QueryRouting.MultiGoesToPrimaryIff` | src/context/pool_query_context.c:454-733 | a multi-statement string reaches exactly the primary if and only if no EXECUTE or DEALLOCATE at its head brings other nodes in |
| `QueryRouting.MultiExecuteStrays` | src/context/pool_query_context.c:454-716 | a session in which a Parse went to a standby, after which a multi-statement string headed by its EXECUTE goes there too |
| `QueryRouting.MarkedStaysOnPrimary` | src/context/pool_query_context.c:494-635 | with the write mark set no SELECT leaves the primary inside a transaction, and under ALWAYS no readable statement at all |
| `QueryRouting.OpKeeps` | src/context/pool_session_context.c:562-649 | routing, re-routing, re-parsing, recording, removing, closing and finishing keep every message tied to the context of the statement it was made for |
| `QueryRouting.ReparseKeeps` | src/protocol/pool_proto_modules.c:3380-3485 | when Bind sends a Parse to the primary under a copied context, its message stays tied to the statement it was made for |
| `QueryRouting.RunKeeps` | src/context/pool_query_context.c:414-736 | that invariant over any run of a session |
| `QueryRouting.RoutedAgain` | src/protocol/pool_proto_modules.c:1452-1464 | without streaming or logical replication Bind's second routing gives all live nodes for a statement meant for all, and the primary otherwise |
| `QueryRouting.PreparedGoesWhereItWasPrepared` | src/context/pool_query_context.c:706-733 | over any run EXECUTE or DEALLOCATE of a recorded name goes to exactly the nodes its statement was last sent to, even when memory of destroyed contexts is reused: those of its PREPARE or Parse, or the primary once Bind has sent it again (a statement meant for all nodes, or naming another, is routed afresh outside streaming and logical mode); a write the classification does not miss goes to the primary alone |
| `QueryRouting.MarkPersists` | src/context/pool_session_context.c:690-729 | only the named operations clear the mark, and none does under ALWAYS |
| `QueryRouting.ReadAfterWrite` | src/protocol/pool_proto_modules.c:3930-4003 | after a write in a transaction every later SELECT inside a transaction goes to the primary alone until the mark is cleared; under ALWAYS every readable statement does, for the rest of the session |
| `RoutingEffects.MarkedIff` | src/protocol/pool_proto_modules.c:3930-4003 | exactly when the write mark is set after a command |
| `RoutingEffects.BalancedAfterCommit` | src/protocol/pool_proto_modules.c:3938-3962 | with the usual setting the end of a transaction lets the next SELECT be balanced again |
| `RoutingEffects.InternalBeginClears` | src/protocol/pool_process_query.c:3975-3990 | an internal transaction clears the mark except under ALWAYS |
| `QueryContexts.RoutingSession.UnsetWritingTransaction` | src/context/pool_session_context.c:690-702 | clears the mark except under ALWAYS |
| `QueryContexts.RoutingSession.SetWritingTransaction` | src/context/pool_session_context.c:708-720 | sets the mark except under OFF |
| `QueryContexts.RoutingSession.AtCommandSuccess` | src/protocol/pool_proto_modules.c:3930-4003 | the mark after a successful command is the one the run-level transition gives |
| `QueryContexts.QueryContext.SetNode` | src/context/pool_query_context.c:164-176 | adds exactly that node, or fails out of range with the map unchanged |
| `QueryContexts.QueryContext.Clear` | src/context/pool_query_context.c:200-206 | the map is empty |
| `QueryContexts.QueryContext.SetAll` | src/context/pool_query_context.c:212-239 | adds exactly the live nodes, in streaming and logical mode only primary and load balance node |
| `QueryContexts.QueryContext.CopyFrom` | src/context/pool_session_context.c:912-915 | the map becomes the other one, even if it is the same array |
| `QueryContexts.QueryContext.ElectVirtualMaster` | src/context/pool_query_context.c:723-733 | the virtual master is the least configured node of the map, unchanged if there is none |
| `QueryContexts.QueryContext.FinishMap` | src/context/pool_query_context.c:704-721 | EXECUTE and DEALLOCATE replace the map by the recorded one; DEALLOCATE ALL or of an unknown name adds all nodes |
| `QueryContexts.QueryContext.WhereToSend` | src/context/pool_query_context.c:414-736 | the in-place decision in every mode gives the map, load balance node and error of the routing function, and a virtual master least in the map |
| `ConfigTable.SortConfigVars` | src/config/pool_config_variables.c:2371-2395 | the exchange sort leaves a permutation in descending name length |
| `ConfigTable.FindOption` | src/config/pool_config_variables.c:2853-2881 | the loop returns the first matching record |
| `ConfigTable.SortedFindsLongest` | src/config/pool_config_variables.c:2365-2395 | on a sorted table the lookup returns a record of maximal name length among all matches, and its name is the only one of that length |
| `ConfigTable.LongestIff` | src/config/pool_config_variables.c:2365-2395 | the lookup is a longest match for every name if and only if no array record stands before a longer record extending its name |
| `ConfigTable.GetIndexInVarName` | src/config/pool_config_variables.c:2821-2846 | no index gives -1, a non-digit is refused, digits give their 32-bit value |
| `ConfigTable.AtoiWraps` | src/config/pool_config_variables.c:2844-2844 | the index is the value modulo 2 to the 32 as a signed number, -1 beyond 63 bits |
| `ConfigTable.IndexedNameResolves` | src/config/pool_config_variables.c:2821-2881 | an array name with a decimal index resolves to that array unless a longer record matches, and to that index if and only if it fits in 31 bits |
| `ConfigVariables.EnumLookup` | src/config/pool_config_variables.c:2890-2906 | the value of the first option equal to the text without regard to case, if there is one |
| `ConfigVariables.PermitsIff` | src/config/pool_config_variables.c:3028-3102 | a variable may be set in its own context and in any earlier one |
| `ConfigVariables.TooLate` | src/config/pool_config_variables.c:3028-3102 | later settings are passed over by a reload and refused otherwise |
| `ConfigVariables.SetInstalls` | src/config/pool_config_variables.c:3150-3706 | what a SET in a session installs for each type, and when it is refused |
| `ConfigVariables.SetDefaultResets` | src/config/pool_config_variables.c:3150-3706 | SET TO DEFAULT goes back to the reset value |
| `ConfigVariables.SetOptionEffect` | src/config/pool_config_variables.c:2935-2983 | SET changes at most the longest matching record |
| `ConfigVariables.StartUpSettles` | src/config/pool_config_variables.c:2401-2464 | after start-up every variable equals its reset value |
| `ConfigVariables.ResetAllEffect` | src/config/pool_config_variables.c:4898-4961 | RESET ALL never stops early and resets exactly the variables last set by the session |
| `ConfigVariables.ResetAllSpares` | src/config/pool_config_variables.c:4911-4913 | exempted variables and those the session did not set stay as they are |
| `ConfigVariables.RunTracks` | src/config/pool_config_variables.c:3022-3706 | over any run of accepted and rejected SETs and RESET ALLs reset values do not move and a changed variable is recorded as set by the session |
| `ConfigVariables.DiffersOnlyInSession` | src/config/pool_config_variables.c:3022-3706 | at any point of any session a variable differs from its reset value only while recorded as set by the session |
| `ConfigVariables.ResetAllRestores` | src/config/pool_config_variables.c:4898-4961 | whatever is configured at start and set in a session, RESET ALL gives every scalar variable its configured value |
| `ConfigVariables.ResetAllRestoresIff` | src/config/pool_config_variables.c:4898-4961 | from any state before a session the old value comes back if and only if it was untouched or equal to the reset value |
| `ConfigVariables.ReloadedValueLost` | src/config/pool_config_variables.c:3193-3238 | a value brought in by reload is replaced by the start-up value |
| `ConfigVariables.SourceAfterReset` | src/config/pool_config_variables.c:3695-3706 | the first RESET ALL restores the source, the second reports the file |
| `ConfigStore.Variable.constructor` | src/config/pool_config_variables.c:2401-2464 | a record starts with its compiled-in value as value and reset value |
| `ConfigStore.Variable.SetConfigOptionVar` | src/config/pool_config_variables.c:3022-3706 | the in-place assignment on a scalar is the value-level one, with all its refusals |
| `ConfigStore.Store.SetConfigOption` | src/config/pool_config_variables.c:2935-2983 | exactly the record found by name changes |
| `ConfigStore.Store.ResetAllVariables` | src/config/pool_config_variables.c:4898-4961 | the loop over the table is the value-level RESET ALL |
| `HbaTokens.SkipGap` | src/auth/pool_hba.c:1800-1802 | what remains starts with neither blank nor comma |
| `HbaTokens.NextTokenSuffix` | src/auth/pool_hba.c:1784-1871 | what a call leaves is a tail of its input, so the terminator is never passed |
| `HbaTokens.NextTokenAdvances` | src/auth/pool_hba.c:1784-1871 | every call on non-empty input moves on |
| `HbaTokens.CommaIsLeft` | src/auth/pool_hba.c:1835-1870 | a token ended by a comma leaves that comma in front |
| `HbaTokens.ScanToken` | src/auth/pool_hba.c:1784-1871 | the flag-and-buffer loops compute the token function, stay inside line and buffer, and advance |
| `HbaTokens.QuoteRoundTripIff` | src/auth/pool_hba.c:1784-1871 | a string with quotes doubled and wrapped in quotes is read back, marked quoted, if and only if it has at most 254 characters; a longer one is the too-long error |
| `HbaTokens.WordRoundTripIff` | src/auth/pool_hba.c:1804-1871 | a plain word is read as it stands, not marked as quoted, if and only if it has at most 255 characters, 254 before a comma |
| `HbaTokens.JoinedRoundTripIff` | src/auth/pool_hba.c:1804-1871 | quotes beginning inside a token join on without marking it |
| `HbaTokens.Separators` | src/auth/pool_hba.c:1606-1610 | space, tab, carriage return and comma end a word |
| `HbaTokens.CommentIsSkipped` | src/auth/pool_hba.c:1812-1818 | a comment alone gives no token and ends the line |
| `HbaTokens.IncludeExpands` | src/auth/pool_hba.c:1742-1748 | a plain @name stands for the tokens of that file, quoted for itself |
| `HbaTokens.ScanField` | src/auth/pool_hba.c:1729-1753 | the loop over a comma list returns its tokens, those of included files in place of @names, stops at an error, moves on and ends |
| `HbaTokens.FieldRoundTrip` | src/auth/pool_hba.c:1729-1753 | any comma list of quoted and plain tokens is read back |
| `HbaTokens.StrippedExact` | src/auth/pool_hba.c:1674-1677 | what goes at the end of a line is line breaks and carriage returns, all of them |
| `HbaTokens.StripLine` | src/auth/pool_hba.c:1674-1677 | the loop computes exactly that |
| `HbaTokens.TokenizeLine` | src/auth/pool_hba.c:1663-1692 | the field loop ends and yields the fields of the stripped line up to the first error; a line filling the buffer is refused |
| `HbaTokens.LineRoundTrip` | src/auth/pool_hba.c:1680-1692 | any list of fields, each token quoted or plain, is written to a line and read back unchanged |
| `HbaTokens.FileLineRoundTripIff` | src/auth/pool_hba.c:1650-1692 | written to a line of the file they are read back if and only if the line with its break leaves room in the buffer; otherwise the line is refused |
| `Lookahead.CoreScanner.CoreYylex` | src/parser/parser.c:257-284 | the lexer undoes its last cut and cuts after the token it returns |
| `Lookahead.Filter.Take` | src/parser/parser.c:227-238 | the current token is the next one of the stream, and the text is cut after it and nowhere else |
| `Lookahead.Filter.LookAhead` | src/parser/parser.c:257-289 | one token is fetched ahead and the cut after the current one is put back |
| `Lookahead.Filter.BaseYylex` | src/parser/parser.c:218-332 | the n-th call returns the n-th core token, value and location, replaced as its successor asks, with the text intact up to its end and cut there |
| `Lookahead.PrefixIsCoreTokens` | src/parser/parser.c:291-331 | the results are the core tokens one for one and in order, and differ from them exactly at the stated pairs |

## Left out

- Watchdog consensus and watchdog synchronization, which can nest inside the sleeps of the failover routine.
- Sockets, fork, signals as operating-system objects, shell commands and PCP restart: only the flags they set are kept.
- `degenerate_backend_set_ex` and `send_failback_request`: permission and quorum checks in front of registering a request.
- FailoverProgress.EveryScheduleDrains: speaks of runs in which new registrations, foreign pipe bytes and sleeps cease; fairness between an endless stream of them and the drain is not assumed and nothing is claimed about it.
- Failover.RunKeepsInvariant: is for requests naming one node to take down, because of StandbyNamedFirst; requests naming several are covered by DownKeepsPrimaryIff and ProcessKeepsMaster.
- RequestRing.RequestInfo.Register: does not model overflow of the two 32-bit counters that only grow.
- SHA-256, HMAC and the salted password are function parameters of the exchange; parsing of the stored verifier and mock authentication for unknown users are not modelled, only the doomed flag they set; what a client computes after a salt that does not decode, where the code goes on with length -1, is a function left open.
- ScramEngine.FrontendExchange.Exchange: sizes the first message in a signed char as the code does, so nonces there have at most 118 characters; the exchange functions have no such bound.
- Errors of the server side end the exchange without a next state.
- The hexadecimal output and the salted forms around the MD5 digest.
- QueryRouting.PreparedGoesWhereItWasPrepared: takes the primary as fixed for the session, since a failover ends it.
- The special routing of pg_terminate_backend, and the temporary widening of maps while messages are sent.
- What the catalog says (system, temporary and unlogged tables, which functions write), query patterns and the text of a query are answers supplied from outside; the results on routing hold for any answers unless they ask for truthful ones.
- The query context's own copy of the load balance node.
- Pending messages are kept only as references to query contexts.
- ConfigVariables.ResetAllRestores: covers scalar variables without the flag that exempts them from RESET ALL; array variables, their index-free defaults, groups, list variables and post-processing are not modelled, nor assign functions, which in the table only array records have.
- ConfigStore.Store.SetConfigOption: leaves the table alone for array records.
- Reading files: what an included file contributes is a parameter, and read errors are left out.
- Lookahead.Filter.BaseYylex: takes the core lexer's tokens as given in order, non-empty before the end of the text, and with the keyword lengths the code hard-wires.
- Memory contexts and logging, except which query contexts are alive.
