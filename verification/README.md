# Doki, modelled and proved in Dafny

Doki is a replicated key-value store: replicas of a shard elect a leader and
replicate writes by quorum, every replica keeps a write-ahead log and rotated
snapshots on disk, a bounded log lets followers catch up, a coordinator hands
out shard leadership and moves shards between nodes, and a small SQL compiler
runs statements on top of the key-value map. This project models these five
parts and proves what they promise.

- **Elections and replication** (`Quorum`, `NodeModel`, `Replica`, `Protocol`,
  `ProtocolSteps`, `ProtocolSafety`, `ProtocolLimits`). Each message handler is
  a method of a replica object proved equal to a function on replica state; the
  protocol is a state machine over those functions with messages lost, delayed,
  reordered and repeated at will. Main results: what each step of a run does,
  told from the states alone, so that an election is won only in the term it was
  asked in (`ElectionEndsExactly`) and a later term makes everyone who hears of
  it a follower (`LaterTermIsAdopted`); two wins in one term are by the same
  replica (`ElectionSafety`); a later winner has every version committed with
  enough live peers (`LeaderCompleteness`), and the exact number of live peers
  for which that holds (`CompletenessExactly`). Snapshots may be installed in
  these runs, older ones too, and replicas may restart, as long as that takes
  back no promise; otherwise it breaks the invariant (`InstallKeepsInvExactly`,
  `RestartKeepsInvExactly`).
- **Disk** (`DiskModel`, `DiskRotation`, `DiskEvents`, `DiskCuts`,
  `DiskDurability`, `DiskKeys`, `DiskState`, `ShardHost`). Every file effect is
  one step and a crash may fall between any two, or into a line of the log. What
  a run of events should come to is told from the events alone; what it does
  come to is worked out on the disk. Main results: without a harmful event the
  two agree in data, version and term, in memory and after a restart
  (`CrashDurability`); a run can be trusted at every point if and only if it has
  no harmful event (`DurableExactly`); of every key, memory and a restart know
  what the last event about it says (`KeysSurvive`); start-up picks the newest
  completed snapshot at a cut if and only if the cut leaves it in a scanned slot
  (`RotationBound`). The state machine and disk objects, rebuilt from the disk
  after every crash, make exactly these runs (`ShardHost.Live`).
- **State machine, replication log, recovery** (`ReplicationLog`,
  `StateMachine`, `Recovery`, `Replica`). A state machine carries the history of
  what it has applied; in every state its data is the replay of that history and
  its bounded log a window of it (`StateMachine.Valid`, kept by every method),
  and a key is in the data exactly when the last entry about it is a put
  (`DataTells`). A leader answers with entries exactly when all that is lacking
  is in its log (`RespondExactly`). A recovery between two replicas on one
  history meets no gap and leaves the follower on that history, with its replay
  as data (`Recovery.DoIncrementalRecovery`).
- **SQL** (`Sql*`). Lexer and parser objects proved against positional
  functions; a text lexes to some tokens exactly when they, white space and
  comments make it up (`LexExactly`), and parses to a statement exactly when it
  begins with a sentence of the grammar that means it (`ParseExactly`); parsing
  undoes printing for every well-formed statement and every spelling of its
  keywords (`ParseUndoesPrint`), and with words behind the statement if and only
  if the first of them does not continue it (`TrailingWordsExactly`); every
  accepted text parses to a well-formed statement, whose print says the same
  (`ReprintSaysTheSame`). Analyzer, planner and executor on keys simulate a
  relational database through every run of statement texts (`RunRefines`, for
  all statements whatever). For each of four rules about rows, a run keeps it
  throughout if and only if every text says what the rule asks
  (`RunObeysExactly`). A point lookup is a filtered scan if and only if the keys
  in the rows are read back apart (`PointLookupExactly`, `PointLookupInRuns`).
- **Coordinator** (`ShardMaps`, `CoordinatorModel`, `Leadership`,
  `MigrationModel`, `Migration`, `Coordinator`, `CoordinatorCalls`,
  `MigrationRuns`). A run is a configuration and a list of calls, each doing
  what its relation says; the objects make such runs (`Server.Serve`), and what
  each call does to each shard is told from request, heartbeats and states alone
  (`RoundExactly` and its neighbours). In every run leaders are replicas, terms
  never fall, no shard and term are given two leaders and every change raises
  the map version (`LeadershipOverRuns`, `OneLeaderPerTerm`); a migration stays
  as it was started, with old and new replicas, until it is started anew or a
  round finds its target alive with data, and then leaves the target replicas
  with a live leader among them (`MigrationOverRuns`, `MigrationEnds`).

Counters are natural numbers; 64-bit wrap-around is not modelled. A `char` of a
statement text is one byte. Clocks, liveness and the order in which maps are
iterated are parameters or arbitrary choices. All lemmas are proved without
automatic induction.

Where the code departs from its own description, the code is followed:

- `hasLiveQuorum` is never false, so the early refusal of a write is dead code
  (`Quorum.PlanQuorum`).
- `ApplySnapshot` can allow a second vote in a term: by lowering a replica's
  term below that of a vote, or back to that of a vote it has forgotten since,
  for a replica forgets its vote on hearing of a later term.
  `Protocol.InstallAllowsSecondVoteExactly` says exactly when.
  `ProtocolLimits.LoweringInstallElectsTwo` and
  `ProtocolLimits.ForgottenVoteElectsTwo` give, for either case, a run of three
  replicas that elect two leaders in one term, with snapshots that a leader
  sent.
- Votes and adopted terms are not on disk, so a restarted replica can vote again
  in a term; `Protocol.RestartKeepsInvExactly` says which restarts are harmless,
  `ProtocolLimits.RestartElectsTwo` gives a run with two leaders in one term.
- A snapshot rotation cut by a crash, repeated, moves the newest snapshot out of
  the slots start-up scans; `DiskCuts.CutKeepsExactly` says exactly when,
  `DiskCuts.TwoCrashesLoseTheNewest` gives the case.
- A line appended behind one without its newline cannot be read back
  (`DiskModel.AppendReadableExactly`), so an acknowledged write after a crash
  that tore a line is lost at the next restart
  (`DiskDurability.TornLineLosesWrite`); if the crash took the newline only, the
  entry it had left readable is lost as well
  (`DiskDurability.BareLineLosesBoth`). The log's documentation promises that an
  acknowledged write survives.
- An unknown operation gets its write-ahead line before it is refused, and the
  next write has the same version, so a restart skips that write
  (`DiskDurability.RefusedLineLosesWrite`). A refused operation that was logged,
  a write behind a torn line and any write behind a bare one are the only
  harmful events (`DiskDurability.DurableExactly`).
- A leader's snapshot takes term and version from the write it follows and the
  data from the moment it is taken, outside the replica's lock; version and data
  fit if and only if no other write came between
  (`DiskDurability.LateSnapshotFitsExactly`).
- Entries of a term below the follower's own stop an incremental recovery, and
  nothing else does (`Recovery.DoIncrementalRecovery`).
- The parser does not look at tokens after a complete statement
  (`SqlTextRoundTrip.JunkIsIgnored`).
- `NULL` counts as a number in type checks (`SqlKeys.AdmitsExactly`), `INSERT`
  replaces an existing row, an `UPDATE` from a column fails only if there is a
  row to change, and a `DELETE` reports one changed row even if there was none.
- `NOT NULL` is not enforced: a null or a missing value is stored
  (`SqlIntegrity.NullIsInserted`).
- An `UPDATE` of the primary key and an `INSERT` that names it twice leave a row
  under another row's key (`SqlIntegrity.KeyIsUpdated`,
  `SqlFailingRuns.KeyNamedTwiceExactly`).
- Stored numbers come back as floating-point values: exactly the multiples of
  the distance between such values survive (`SqlJson.DoubleIsExact`), and
  9007199254740993 does not (`SqlIntegrity.BigNumberIsRounded`,
  `SqlFailingRuns.RoundedKeyExactly`). For the last three,
  `SqlIntegrity.IntegrityExactly` says exactly when they happen.
- The configuration does not check that an initial leader is a replica;
  `Coordinator.ConfiguredExactly` says what depends on it.

## Model

| member | source | states |
|---|---|---|
| `Quorum.PlanQuorum` | node/quorum.go:22-49 | the plan counts exactly the peers heard from within the window, and its live quorum is always reachable |
| `Quorum.WriteQuorumIsMajority` | node/quorum.go:22-45 | the leader and enough acknowledging peers are a strict majority of the eligible set, for every size |
| `Quorum.WriteQuorumsMeet` | node/quorum.go:22-45 | two write quorums over one eligible set share a replica |
| `Quorum.AllPeersLiveReachesElections` | node/quorum.go:22-45 | with all peers live the write quorum reaches every election |
| `Quorum.WriteMeetsElection` | node/election.go:168-228 | a large enough write quorum and any election quorum share a replica |
| `Quorum.WriteMeetsElectionExactly` | node/quorum.go:22-45 | every write meets every election if and only if enough peers were counted live |
| `NodeModel.VoteGrantedExactly` | node/grpc.go:194-230 | a vote is granted if and only if the candidate is up to date and the term is not spoken for |
| `NodeModel.HandlersMonotone` | node/grpc.go:61-259 | no handler, tally, heartbeat answer or shard map lowers a term or a version, and only an entry moves the version |
| `NodeModel.AckMeansApplied` | node/grpc.go:71-122 | an acknowledging follower is in the leader's term and at least at the acknowledged version |
| `NodeModel.TallyExactly` | node/election.go:168-218 | votes are counted exactly when no answer has a later term, and the count is the granted ones and the own |
| `Replica.ReplicaState.RequestVote` | node/grpc.go:194-230 | the vote handler is the vote function of the model |
| `Replica.ReplicaState.LeaderHeartbeat` | node/grpc.go:232-259 | a heartbeat of an older term is refused, of a newer one adopted |
| `Replica.ReplicaState.Replicate` | node/grpc.go:61-122 | a replicated write is applied, recognised as a duplicate, or refused without touching the data; a gap empties the log; the next version of a current term, and nothing else, gets its line on disk, even if its operation is then refused |
| `Replica.ReplicaState.ForceRecover` | node/grpc.go:176-192 | the replica is no longer ready and its log is empty |
| `Replica.ReplicaState.BeginElection` | node/election.go:133-153 | a non-leader enters the next term and votes for itself |
| `Replica.ReplicaState.FinishElection` | node/election.go:168-243 | the loop over the answers tallies votes and steps down on a higher term; it wins exactly when the replica is still in the term it asked in and does not lead, no answer has a later term, and the granted votes and its own are a majority |
| `Replica.ReplicaState.HeartbeatAnswered` | node/election.go:373-390 | a leader steps down on a higher term |
| `Replica.ReplicaState.ApplyShardMap` | node/server.go:1064-1076 | the shard map flips role and leader, and readiness unless the data of the split shard is still to come, and neither term nor vote |
| `Replica.ReplicaState.PrepareWrite` | node/server.go:590-626 | only a ready leader with the current shard map prepares a write, at the next version |
| `Replica.ReplicaState.CommitWrite` | node/server.go:677-694 | a write is committed if and only if enough peers acknowledged it and it still applies |
| `Replica.ReplicaState.Recover` | node/grpc.go:124-174 | only a leader answers a recovery request: with the entries lacking exactly when the asker is level or all of them are in the log, and with its whole state otherwise |
| `Replica.ReplicaState.BeginRecovery` | node/recovery.go:34-45 | the own shard from the own version, or the source of a split from the start |
| `Replica.ReplicaState.DoIncrementalRecovery` | node/recovery.go:33-128 | answer and application, however much later: only a leader answers; a snapshot comes exactly when entries are out of reach, and otherwise the version does not fall; on one history there is no gap and the follower ends on it; readiness and the end of a split exactly on success |
| `Replica.HigherTermEnds` | node/election.go:199-213 | the first answer of a higher term ends the election |
| `Protocol.TallyCountsGranters` | node/election.go:168-218 | the vote count is the number of distinct granters and the candidate |
| `Protocol.StepKeepsInv` | node/grpc.go:61-259 | every protocol step keeps the invariant of votes, elections, acknowledgements and commits |
| `Protocol.InstallKeepsInvExactly` | node/statemachine.go:114-125 | in every state that satisfies the invariant, installing any snapshot keeps it if and only if the snapshot takes back no vote, no acknowledgement and no commit of the replica |
| `Protocol.RestartKeepsInvExactly` | node/server.go:141-213 | in every such state, a restart at any term and version, in any role, keeps the invariant if and only if every vote of the replica is in an older term and nothing it acknowledged or committed is past them |
| `Protocol.InstallAllowsSecondVoteExactly` | node/grpc.go:206-230 | in every such state, a replica that installs a snapshot could grant a second vote in a term if and only if one of its votes is in a later term than the snapshot, or in the same term and no longer remembered |
| `ProtocolSteps.ElectionEndsExactly` | node/election.go:168-243 | in every run, an election is recorded as won and its candidate turns leader, in the term it asked in, if and only if the candidate is in that term and does not lead, no answer has a later term, and a majority granted; the first later term makes it a follower there, and nothing else happens |
| `ProtocolSteps.LaterTermIsAdopted` | node/grpc.go:61-259 | in every run a message moves its receiver to the later of both terms; one that moved does not lead, and a leader gives up on a heartbeat answer of a later term |
| `ProtocolSteps.HeartbeatStepExactly` | node/grpc.go:232-259 | in every run a heartbeat that is not of an older term sets the leader, and the answer bears the receiver's term |
| `ProtocolSteps.VoteStepExactly` | node/grpc.go:194-230 | in every run a vote is given, recorded and remembered if and only if the candidate is not behind and the vote is free; a refusal in a later term forgets the vote |
| `ProtocolSteps.StartStepExactly` | node/election.go:133-153 | in every run a candidate asks in the next term at its version, and has its own vote |
| `ProtocolSteps.ReplicateStepExactly` | node/grpc.go:61-122 | in every run a write is acknowledged if and only if its term is not an older one and it is there already or next and known; only the next one moves the version, a hole ends readiness |
| `ProtocolSteps.BeginStepExactly` | node/server.go:590-672 | in every run a write begins at a ready leader in its term at the next version, and is sent if there are live peers |
| `ProtocolSteps.CommitStepExactly` | node/server.go:672-704 | in every run an acknowledged write is committed if and only if it is still next for a leader that is in no later term, with a majority of the live replicas |
| `ProtocolSteps.MapStepExactly` | node/server.go:1064-1076 | in every run a shard map makes exactly the named replica leader and touches neither term, version nor vote |
| `ProtocolSteps.InstallStepExactly` | node/statemachine.go:114-125 | in every run an installed snapshot sets term, version and readiness alone |
| `ProtocolSteps.RecoverStepExactly` | node/recovery.go:77-92 | in every run a recovered entry counts if and only if it is the next one and of no older term |
| `ProtocolSteps.RestartStepExactly` | node/server.go:141-213 | in every run a restarted replica has the state of its disk, the role of the shard map, no vote and nothing under way |
| `ProtocolSafety.RunKeepsInv` | node/election.go:133-243 | the invariant holds in every state of every run |
| `ProtocolSafety.RunIsMonotone` | node/grpc.go:61-259 | over any stretch of a run a replica's term and version fall only if it installed an older snapshot or came back at an older state in it |
| `ProtocolSafety.PromisesBind` | node/grpc.go:61-230 | in every run, whatever was installed or restarted, a replica is in the term of every vote it gave or a later one, and at the term and version of everything it acknowledged or committed or past it |
| `ProtocolSafety.VotesAreUnique` | node/grpc.go:206-230 | all votes of a replica in one term, its own included, went to one candidate |
| `ProtocolSafety.ElectionSafety` | node/election.go:133-243 | in every run two wins in one term are by the same replica |
| `ProtocolSafety.LeaderCompleteness` | node/server.go:611-704 | in every run, whoever wins a later term asked for votes with at least the version committed with enough live peers |
| `ProtocolSafety.LeaderCompletenessAllLive` | node/server.go:611-704 | the same with all peers counted live, without a size condition |
| `ProtocolLimits.CompletenessExactly` | node/quorum.go:22-45 | leader completeness holds for a live set if and only if its write quorum reaches every election, a losing run being given otherwise |
| `ProtocolLimits.LoweringInstallElectsTwo` | node/statemachine.go:114-125 | with a snapshot of an older term, asked for and sent by the leader of that term, any three replicas can elect two leaders in one term |
| `ProtocolLimits.ForgottenVoteElectsTwo` | node/grpc.go:206-216 | so can they with a snapshot of the very term of the vote, if the vote was forgotten on hearing of a later term |
| `ProtocolLimits.RestartElectsTwo` | node/replica.go:120-135 | so can they with a replica that restarts at its version and the term it had last written |
| `DiskModel.AppendReadableExactly` | internal/wal/wal.go:53-116 | an appended line is read back, behind all that was read before, if and only if no torn line precedes it and the last line has its newline |
| `DiskModel.ReplayBounds` | node/diskstate.go:99-124 | replay ends no lower than the snapshot and no lower than any log entry |
| `DiskModel.ReadAllExactly` | internal/wal/wal.go:91-116 | reading yields the entries of all lines before the first that cannot be decoded |
| `DiskModel.ReplayOverTells` | node/diskstate.go:107-124 | of every key, a replay says what the last entry about it says that is newer than all before it, and without one what the snapshot says |
| `DiskRotation.RotateKeeps` | node/diskstate.go:245-267 | at every cut of a rotation the newest snapshot is in its slot or the next one |
| `DiskRotation.RotateShifts` | node/diskstate.go:245-267 | a completed rotation moves every slot up by one |
| `DiskRotation.RotationKeepsNewestExactly` | node/diskstate.go:132-153 | start-up finds the newest snapshot at every cut of a rotation if and only if it is not in the last slot |
| `DiskRotation.SaveBecomesNewest` | node/diskstate.go:202-218 | a saved snapshot that is not older becomes the one start-up picks |
| `DiskDurability.StepIsDurable` | node/diskstate.go:178-267 | every event that is not harmful, cut or complete, takes memory and disk to what the event amounts to, term included |
| `DiskDurability.CrashDurability` | node/diskstate.go:77-130 | after any run without a harmful event, memory is what the events amount to, and a restart loads exactly that with the term last written: every completed operation, and a cut one only if its last write was through |
| `DiskDurability.DurableExactly` | node/statemachine.go:86-112 | a restart loads what the events amount to at every point of a run if and only if no event is harmful: a refused operation that was logged, a write behind a torn line, or a write, even one cut by a crash, behind a line that lacks its newline |
| `DiskDurability.HarmShows` | internal/wal/wal.go:53-63 | after a harmful event a restart is at another version than the events amount to |
| `DiskDurability.RefusedLineLosesWrite` | node/statemachine.go:86-112 | a refused operation, then an acknowledged put: a restart is at the put's version without its key |
| `DiskDurability.TornLineLosesWrite` | internal/wal/wal.go:51-63 | a line torn by a crash, then an acknowledged put: a restart is empty |
| `DiskDurability.BareLineLosesBoth` | internal/wal/wal.go:51-63 | a crash between a line and its newline, a restart that recovers the line, then an acknowledged put: the next restart is empty |
| `DiskDurability.RunIsSound` | node/diskstate.go:178-267 | in every run, harmful events included, the log is readable and in order, and the newest snapshot is where start-up looks |
| `DiskDurability.TornTailIsIgnoredExactly` | internal/wal/wal.go:91-116 | in every run, a line torn by a crash does not change what a restart loads if and only if it is not written behind a bare line newer than all before it |
| `DiskDurability.RotationBound` | node/diskstate.go:202-267 | in every run: once saved, start-up picks the new snapshot; before, it picks the newest completed one if and only if the cut does not push it out of the last slot |
| `DiskDurability.FewRotationsAllowEveryCut` | node/diskstate.go:245-267 | while fewer rotations are open than there are slots, every cut is harmless |
| `DiskDurability.LateSnapshotFitsExactly` | node/server.go:653-660 | in every run, a snapshot with the version of an earlier write and the data of now is loaded at the version in memory if and only if that write is the last one |
| `DiskKeys.OutcomeTells` | node/statemachine.go:86-125 | what the events amount to for a key is what the last event says that settles it: a put its value, a delete nothing, an installed snapshot what it holds |
| `DiskKeys.KeysSurvive` | node/diskstate.go:77-130 | after any run without a harmful event, memory and a restart know exactly that of every key |
| `DiskCuts.CutKeepsExactly` | node/diskstate.go:245-267 | a cut before the save leaves the newest snapshot to start-up if and only if it was not in the last slot or fewer than two file effects were done |
| `DiskCuts.InstallTakesEffectExactly` | node/diskstate.go:222-238 | an installed snapshot is the one start-up picks if and only if no newer one stays in the scanned slots |
| `DiskCuts.TwoCrashesLoseTheNewest` | node/diskstate.go:245-267 | with two slots, two cut rotations lose the newest snapshot |
| `DiskState.DiskState.Open` | node/diskstate.go:46-68 | fails exactly when a setting is not positive; otherwise the settings are taken over, the counter starts at 0 and nothing changes on disk |
| `DiskState.DiskState.LoadLatestSnapshot` | node/diskstate.go:132-153 | the loop finds the first snapshot of highest version among the scanned slots |
| `DiskState.DiskState.ReadWal` | internal/wal/wal.go:91-116 | the entries of the lines up to the first that cannot be decoded |
| `DiskState.DiskState.EnsureMonotonicWal` | node/diskstate.go:162-174 | accepts exactly the logs whose versions do not fall |
| `DiskState.DiskState.Load` | node/diskstate.go:77-130 | the snapshot with the newer log entries replayed over it; fresh exactly without a snapshot and an entry, an error exactly for a log whose versions fall |
| `DiskState.DiskState.ReplayEntries` | node/diskstate.go:107-124 | the loop replays the entries newer than the snapshot, raising version and term, and leaves of every key what the last of them about it says |
| `DiskState.DiskState.AppendWal` | node/diskstate.go:178-186 | one line more in the log, one more entry since the last snapshot |
| `DiskState.DiskState.RotateSlot` | node/diskstate.go:249-265 | one slot of the rotation, file effect by file effect |
| `DiskState.DiskState.RotateSnapshots` | node/diskstate.go:245-267 | the loop produces exactly the effects of a rotation, in order |
| `DiskState.DiskState.SaveSnapshot` | internal/snapshot/snapshot.go:28-48 | a snapshot is written aside and then renamed into place |
| `DiskState.DiskState.TakeSnapshot` | node/diskstate.go:202-238 | rotate, save, truncate, in this order |
| `DiskState.DiskState.MaybeSnapshot` | node/diskstate.go:190-198 | a snapshot is taken exactly when the interval is reached |
| `ShardHost.Start` | node/server.go:183-213 | start-up puts into memory what the disk loads to, or nothing without a disk layer or a readable disk |
| `ShardHost.Write` | node/server.go:644-660 | a write is the apply event, and with the interval reached the snapshot event with the write's term; a refused one is neither |
| `ShardHost.Crash` | node/diskstate.go:202-238 | a crash leaves a prefix of the file effects the snapshot operation performs |
| `ShardHost.Perform` | node/statemachine.go:86-125 | state machine and disk objects take every event to the next state of the run; after a crash they are new ones, built from the disk |
| `ShardHost.Live` | node/server.go:183-213 | from an empty disk through any run of events the objects hold what the run comes to, and without a harmful event what its events amount to |
| `ReplicationLog.Log.constructor` | internal/replicationlog/replicationlog.go:34-42 | an empty log of the given size, or the default one |
| `ReplicationLog.Log.Append` | internal/replicationlog/replicationlog.go:48-57 | the newest entries, no more than fit |
| `ReplicationLog.Log.Since` | internal/replicationlog/replicationlog.go:70-88 | the entries newer than a version, or a report that some are gone |
| `ReplicationLog.Log.Reset` | internal/replicationlog/replicationlog.go:98-102 | an empty log |
| `ReplicationLog.AppendMovesWindow` | internal/replicationlog/replicationlog.go:48-57 | an append moves the window along the history |
| `ReplicationLog.FollowsOneMore` | node/statemachine.go:86-112 | one entry more, applied and logged, is one entry more of the history behind data and log |
| `ReplicationLog.UpdateTakes` | node/statemachine.go:100-107 | a put sets its key, a delete removes it, and no other key is touched |
| `ReplicationLog.ReplayTells` | node/statemachine.go:86-112 | a key is in the replay of a history if and only if the last entry about it is a put, with the value put |
| `ReplicationLog.NewerIsSuffix` | internal/replicationlog/replicationlog.go:70-88 | over consecutive entries the answer is a suffix of known length |
| `ReplicationLog.EvictedExactly` | internal/replicationlog/replicationlog.go:70-88 | a gap is reported if and only if a wanted entry has been evicted |
| `ReplicationLog.NewerIsHistory` | internal/replicationlog/replicationlog.go:70-88 | the answer is exactly that part of the history |
| `StateMachine.StateMachine.constructor` | node/statemachine.go:56-64 | an empty state at version 0 with an empty history |
| `StateMachine.StateMachine.Apply` | node/statemachine.go:86-112 | the next entry of no older term and a known operation, and nothing else, is applied: a put sets its key, a delete removes it; log, disk and history follow; anything else leaves the state as it was; data stays the replay of the history and the log its window |
| `StateMachine.StateMachine.Commit` | node/statemachine.go:100-111 | data, version, term, log and history move together; a put sets its key and a delete removes it |
| `StateMachine.StateMachine.ApplySnapshot` | node/statemachine.go:114-125 | the snapshot replaces data, term, version and the history behind them, empties the log, and is persisted if wanted |
| `StateMachine.StateMachine.EntriesSince` | node/statemachine.go:127-129 | exactly the entries after a version, or a report that some are gone |
| `StateMachine.StateMachine.ResetLog` | node/statemachine.go:131-133 | an empty log, nothing else changed |
| `StateMachine.DataTells` | node/statemachine.go:86-125 | in every state with a known history a key is in the data if and only if the last entry about it is a put, with its value |
| `Recovery.RespondExactly` | node/grpc.go:146-173 | the answer is entries if and only if the asker is level, or behind by no more than the log holds, and then exactly those lacking; otherwise the leader's state |
| `Recovery.Recover` | node/grpc.go:135-173 | the leader answers with the entries lacking if and only if they are in its log or there are none, and with its whole state otherwise |
| `Recovery.CheckContinues` | node/recovery.go:67-76 | the first pass accepts a list, in any order and with repeats, exactly when its newer entries continue the version without a hole |
| `Recovery.ApplyResponse` | node/recovery.go:62-120 | a gap changes nothing; a snapshot replaces everything, on disk too; otherwise exactly the newer entries are applied in order, to memory, disk and history, up to the first of a falling term or an unknown operation, if there is one |
| `Recovery.ApplyEntries` | node/recovery.go:77-92 | the second pass applies all newer entries if and only if no term falls and every operation is known, and else those before the first that is refused |
| `Recovery.ApplyAllAddsUp` | node/recovery.go:77-92 | what the second pass adds up to: data, the term reached, version, log, a line on disk for each entry, history |
| `Recovery.RespondIsHistory` | node/grpc.go:135-173 | whatever the leader answers is its own history |
| `Recovery.RecoveryFollowsHistory` | node/recovery.go:62-92 | entries sent from the leader's history pass the gap check and extend the follower's part of it to the later of the two versions, also if it moved on meanwhile; a follower ahead gets a snapshot |
| `Recovery.OnHistoryMeans` | node/statemachine.go:86-125 | a state machine on a history has its replay as data and a window of it as log |
| `Recovery.DoIncrementalRecovery` | node/recovery.go:62-120 | a snapshot exactly when entries are out of reach, and otherwise the version does not fall; on one history: never a gap; whatever the result the follower's data is the replay of the history at its version and its log a window; without error it is at the leader's version or was past it; the only error is an entry of a falling term |
| `Recovery.BranchesAgree` | node/recovery.go:62-120 | for a follower that is not ahead both branches end at the leader's version and data |
| `SqlLexer.Lexer.Tokenize` | internal/sql/lexer.go:41-133 | the scanning loop yields exactly the tokens of the lexing function, on every text |
| `SqlLexer.Lexer.SkipWhitespaceAndComments` | internal/sql/lexer.go:136-153 | the position moves to the end of blanks and comments |
| `SqlLexer.Lexer.LexIdentOrKeyword` | internal/sql/lexer.go:156-167 | the longest word, as a keyword in any case or an identifier |
| `SqlLexer.Lexer.LexNumber` | internal/sql/lexer.go:170-176 | the longest run of digits |
| `SqlLexer.Lexer.LexString` | internal/sql/lexer.go:179-201 | the text between quotes, doubled quotes made single, or an error at the end |
| `SqlLexerFacts.LexIsFaithful` | internal/sql/lexer.go:41-201 | on every accepted text the tokens, spelled out, and blanks and comments make up the whole text, and words and numbers are maximal |
| `SqlLexerFacts.PositionsIncrease` | internal/sql/lexer.go:41-133 | token positions strictly increase and no token reaches into the next |
| `SqlLexerFacts.EveryTokenStands` | internal/sql/lexer.go:41-213 | every token stands in the text as spelled; an identifier is letters and digits only |
| `SqlLexerFacts.LexUndoesRender` | internal/sql/lexer.go:41-201 | lexing the written form of any writable words gives those words back |
| `SqlLexerExact.LexExactly` | internal/sql/lexer.go:41-213 | a text lexes to a list of tokens if and only if they, white space and comments make it up, every word, number and string taken whole; otherwise it is in error |
| `SqlLexerExact.SymbolCodes` | internal/sql/lexer.go:65-127 | which characters stand for which symbol, the longer one first |
| `SqlKeywords.CharacterCodes` | internal/sql/lexer.go:203-213 | which characters are letters, digits and white space, and how case is folded |
| `SqlKeywords.LowerIsKeyword` | internal/sql/lexer.go:156-167 | every keyword is found under its lower-case spelling |
| `SqlKeywords.AnyCaseIsKeyword` | internal/sql/lexer.go:156-167 | a word that spells a keyword in any case is that keyword |
| `SqlParser.Parser.Expect` | internal/sql/parser.go:42-48 | consumes a token of the wanted type or fails |
| `SqlParser.Parser.ParsePrimary` | internal/sql/parser.go:416-461 | the method finds what the production yields and stands behind it |
| `SqlParser.Parser.ParseCompare` | internal/sql/parser.go:395-413 | likewise for one comparison at most |
| `SqlParser.Parser.ParseExpr` | internal/sql/parser.go:372-392 | the loop joins comparisons to the left |
| `SqlParser.Parser.ParseColumnDef` | internal/sql/parser.go:126-180 | name, type and constraints in any order |
| `SqlParser.Parser.ParseProjection` | internal/sql/parser.go:251-267 | `*` alone or a list of primaries |
| `SqlParser.Parser.ParseCreateTable` | internal/sql/parser.go:86-123 | the method computes the production |
| `SqlParser.Parser.ParseInsert` | internal/sql/parser.go:183-243 | the method computes the production |
| `SqlParser.Parser.ParseSelect` | internal/sql/parser.go:246-292 | the method computes the production |
| `SqlParser.Parser.ParseUpdate` | internal/sql/parser.go:295-341 | the method computes the production |
| `SqlParser.Parser.ParseDelete` | internal/sql/parser.go:344-369 | the method computes the production |
| `SqlParser.Parser.ParseStatement` | internal/sql/parser.go:67-83 | the first token selects the production |
| `SqlParser.ParseText` | internal/sql/parser.go:10-22 | lexing and parsing a text, errors included |
| `SqlRoundTrip.PrimaryReads` | internal/sql/parser.go:416-461 | a printed expression is read as one primary, whatever follows |
| `SqlRoundTrip.BareReads` | internal/sql/parser.go:372-413 | a binary expression without its own parentheses is read as itself |
| `SqlRoundTrip.ChainGroupsLeft` | internal/sql/parser.go:372-392 | an unparenthesised chain of AND and OR of any length groups to the left at one level |
| `SqlRoundTrip.ExprReadsExactly` | internal/sql/parser.go:372-461 | a printed expression is read as itself if and only if no operator follows |
| `SqlStatementRoundTrip.StatementReads` | internal/sql/parser.go:67-369 | the words of any well-formed statement, with any tokens behind them, are read as that statement if and only if the next token does not continue it |
| `SqlTextRoundTrip.ParseUndoesPrint` | internal/sql/parser.go:10-461 | parsing the text of any well-formed statement, keywords in any case, gives exactly that statement |
| `SqlTextRoundTrip.TrailingWordsExactly` | internal/sql/parser.go:10-17 | followed by any words, a statement parses to itself if and only if the next word is no WHERE behind a bare SELECT and no operator behind a condition |
| `SqlTextRoundTrip.JunkIsIgnored` | internal/sql/parser.go:10-17 | an identifier behind any statement, and all that follows it, goes unnoticed |
| `SqlTextRoundTrip.ParsedTableIsIdentifier` | internal/sql/lexer.go:156-167 | the table of every parsed statement is an identifier |
| `SqlTextRoundTrip.OperatorIsToken` | internal/sql/parser.go:380-409 | an operator is its token's literal, in upper case for AND and OR |
| `SqlGrammarReads.SentenceReads` | internal/sql/parser.go:67-461 | every sentence of the grammar, in any bracketing and with constraints in any order, is read as what it means, unless the next token continues it |
| `SqlGrammarTrees.StatementTree` | internal/sql/parser.go:67-461 | whatever is read begins with a sentence of the grammar that means it and is not continued |
| `SqlGrammarTrees.ParseExactly` | internal/sql/parser.go:10-461 | a text is parsed to a statement if and only if its tokens begin with a sentence of the grammar that means it and is not continued by what follows |
| `SqlParsed.ParsedIsWellFormed` | internal/sql/parser.go:10-461 | every statement the parser accepts is one the grammar can express: identifiers that are no keywords, 64-bit numbers, no empty list, a WHERE where it is demanded |
| `SqlParsed.ReprintSaysTheSame` | internal/sql/parser.go:10-461 | for every accepted text, printing what it was parsed to and parsing the print gives the same statement |
| `SqlJson.DoubleTwice` | internal/sql/catalog.go:97-113 | rounding a number a second time changes nothing |
| `SqlJson.DoubleIsExact` | internal/sql/catalog.go:97-113 | a number is read back as it is if and only if it is a multiple of the distance between floating-point values around it |
| `SqlJson.UnitExactly` | internal/sql/catalog.go:97-113 | the distance between floating-point values around a number is the least power of two that leaves no more than 2 to the 53 steps |
| `SqlJson.DoubleIsNearest` | internal/sql/catalog.go:97-113 | a number is read back as the nearest such value, the even one of two equally near |
| `SqlJson.SmallSurvives` | internal/sql/catalog.go:97-113 | all numbers up to 2 to the 53 are, and the next one is read back as 2 to the 53 |
| `SqlJson.DecodeExactly` | internal/sql/catalog.go:97-113 | a row is read back as it is if and only if all its numbers are |
| `SqlJson.DecodeTwice` | internal/sql/catalog.go:97-113 | a row that was read back and stored again reads the same |
| `SqlCatalog.Catalog.CreateTable` | internal/sql/catalog.go:56-65 | a definition is added under a new name only |
| `SqlCatalog.Catalog.GetTable` | internal/sql/catalog.go:69-78 | the definition or its absence |
| `SqlCatalog.SearchColumn` | internal/sql/analyzer.go:392-399 | the first column of that name |
| `SqlAnalyzer.CheckNames` | internal/sql/analyzer.go:92-98 | the loop accepts exactly the lists without a repeated name |
| `SqlAnalyzer.CreateTableDef` | internal/sql/analyzer.go:90-123 | a definition comes out exactly for distinct names and one primary key, which it names, with all the columns and the table's name |
| `SqlAnalyzer.ResolveNames` | internal/sql/analyzer.go:137-143 | all names resolved in order, or none |
| `SqlAnalyzer.CheckValues` | internal/sql/analyzer.go:146-162 | one value of the right type for each column, or an error |
| `SqlAnalyzer.ResolveSelectList` | internal/sql/analyzer.go:178-204 | `*` alone or existing columns, in order |
| `SqlAnalyzer.ResolveSets` | internal/sql/analyzer.go:228-243 | assignments to existing columns with values of their type |
| `SqlAnalyzer.Analyze` | internal/sql/analyzer.go:73-280 | the analyzer computes the resolution function for every statement and catalog |
| `SqlPlanner.FindPkValue` | internal/sql/planner.go:184-191 | the value of the first mention of the primary key |
| `SqlPlanner.BuildRow` | internal/sql/planner.go:102-109 | the row of the values, if all are literals |
| `SqlPlanner.MakePlan` | internal/sql/planner.go:72-157 | the planner computes the plan function |
| `SqlExecutor.Kv.Scan` | internal/sql/executor.go:12-17 | the entries under a prefix, each once, in any order |
| `SqlExecutor.ProjectFields` | internal/sql/executor.go:181-187 | the wanted fields; one the row lacks is null |
| `SqlExecutor.ProjectAll` | internal/sql/executor.go:102-109 | every scanned row, read back and projected, in scan order |
| `SqlExecutor.Assign` | internal/sql/executor.go:131-138 | all assignments in order, or an error if one is no literal |
| `SqlExecutor.Execute` | internal/sql/executor.go:33-156 | new catalog, new store and result of every plan |
| `SqlKeys.AdmitsExactly` | internal/sql/analyzer.go:351-377 | a literal has the type of a column exactly when the column may hold it: numbers and null, texts, truth values |
| `SqlKeys.KeyTextInjective` | internal/sql/planner.go:161-181 | the key text is injective on the literals admitted for one column type |
| `SqlKeys.KeyTextLosesType` | internal/sql/planner.go:161-181 | across types it is not |
| `SqlKeys.RowKeyInjective` | internal/sql/catalog.go:93-95 | a row key determines table and key text, for names without a slash |
| `SqlKeys.PrefixExactly` | internal/sql/planner.go:124-127 | a table's scan prefix covers exactly its own rows, also when one name is a prefix of another |
| `SqlRefinement.Run` | internal/sql/executor.go:33-50 | analyze, plan and execute in turn, stopping at the first error |
| `SqlRefinement.InsertAgrees` | internal/sql/planner.go:89-113 | an INSERT has a plan if and only if the relational reading accepts it, and then puts its row under its key |
| `SqlRefinement.WhereAgrees` | internal/sql/analyzer.go:283-320 | a condition passes analysis and planning if and only if it is a key of the table |
| `SqlRefinement.UpdateAgrees` | internal/sql/executor.go:117-149 | updating the stored row and updating the row give the same row when read back |
| `SqlRefinement.SimPut` | internal/sql/executor.go:59-68 | writing a row under its key changes that row only |
| `SqlRefinement.SimRemove` | internal/sql/executor.go:151-156 | removing a key removes that row only |
| `SqlRefinement.ProjectedIsShown` | internal/sql/executor.go:181-187 | a projected row shows the wanted columns as they are read back, null where the row has none |
| `SqlSimulation.DefsAgree` | internal/sql/analyzer.go:90-123 | the analyzer's definition is the relational one: no repeated name, one marked column, all columns kept |
| `SqlSimulation.StatementRefines` | internal/sql/executor.go:33-156 | every statement errs exactly when its relational meaning does, then changing nothing, and otherwise answers and moves on as its meaning says |
| `SqlSimulation.StoredExactly` | internal/sql/catalog.go:93-95 | a key is in the store if and only if the row is in the table |
| `SqlSimulation.ScanLists` | internal/sql/executor.go:93-115 | a scan lists every row of the table once |
| `SqlRuns.RunFollows` | internal/sql/executor.go:33-156 | through every run of texts the store and the catalog hold exactly the relational database |
| `SqlRuns.RunRefines` | internal/sql/executor.go:33-156 | every text of every run answers as the relational model says; an error changes neither store nor catalog |
| `SqlRuns.CreateInRuns` | internal/sql/analyzer.go:90-123 | in every run a CREATE TABLE errs if and only if two columns share a name, not exactly one is marked as primary key, or the table exists; otherwise database and catalog have the table with all its columns and the marked one as key |
| `SqlIntegrity.IntegrityExactly` | internal/sql/planner.go:89-157 | a statement that succeeds leaves every row with its key, under its own key, read back as written, or without nulls in NOT NULL columns, if and only if it says what that rule asks |
| `SqlIntegrity.RunObeysExactly` | internal/sql/executor.go:33-156 | a rule holds of every row all through a run of any texts if and only if every text keeps it |
| `SqlIntegrity.RowsHaveKeys` | internal/sql/planner.go:89-113 | in every run every row has a value for its primary key |
| `SqlIntegrity.NullIsInserted` | internal/sql/analyzer.go:351-377 | a null given to, or left out for, a NOT NULL column is stored |
| `SqlIntegrity.BigNumberIsRounded` | internal/sql/catalog.go:97-113 | an INSERT of 9007199254740993 stores a row that is not read back as written |
| `SqlIntegrity.KeyIsUpdated` | internal/sql/executor.go:117-149 | an UPDATE of the primary key leaves the row under its old key |
| `SqlLookups.PointLookupExactly` | internal/sql/planner.go:115-127 | a point lookup answers like a scan filtered by key, for all columns asked for, if and only if the row of the key, and no other, shows that key when read back |
| `SqlLookups.PointLookupInRuns` | internal/sql/executor.go:70-115 | that equivalence in every run of any texts, and its condition in every run whose texts keep keys and numbers |
| `SqlLookups.BigKeyIsMissed` | internal/sql/catalog.go:97-113 | a row under the key 9007199254740993 is not told apart |
| `SqlFailingRuns.CanBeSaid` | internal/sql/parser.go:10-22 | the two statements of the next rows have texts, for any two identifiers |
| `SqlFailingRuns.KeyNamedTwiceExactly` | internal/sql/planner.go:89-113 | after the texts of CREATE TABLE and an INSERT that names the key twice, the row is under its first value and holds the second, so it holds its own key if and only if they are equal |
| `SqlFailingRuns.RoundedKeyExactly` | internal/sql/executor.go:70-115 | after the texts of CREATE TABLE and an INSERT of key n, in every run of them, a lookup of n is the filtered scan if and only if n is read back as it was written; 9007199254740993 is not |
| `ShardMaps.ShardMap.AddShard` | internal/shardmap/shardmap.go:94-104 | a new shard and a higher version, or an error for a name already there |
| `ShardMaps.ShardMap.SetLeader` | internal/shardmap/shardmap.go:108-129 | only a replica becomes leader |
| `ShardMaps.ShardMap.SetReplicas` | internal/shardmap/shardmap.go:134-157 | the replicas are replaced, a leader outside them is dropped, nothing else changes, and the version rises; an error exactly for an unknown shard |
| `ShardMaps.ShardMap.SetIncomingReplicas` | internal/shardmap/shardmap.go:161-171 | the target of a migration is recorded |
| `ShardMaps.ShardMap.ClearBootstrapSource` | internal/shardmap/shardmap.go:175-188 | the source is cleared; nothing happens if there is none |
| `CoordinatorModel.LeadKeeps` | coordinator/leader.go:112-136 | a new leader in a higher term keeps the invariant and the growth of terms, grants and versions |
| `CoordinatorModel.ChangeKeeps` | internal/shardmap/shardmap.go:131-188 | a change that keeps or drops the leader does so too |
| `CoordinatorModel.AddedExactly` | coordinator/leader.go:35-52 | adding a shard keeps the invariant if and only if its leader is none or a replica |
| `Leadership.LeaderManager.InitFromConfig` | coordinator/leader.go:35-52 | the configured shards, each in term 1, up to the first duplicate, and an error exactly if there is one |
| `Leadership.LeaderManager.InitTerm` | coordinator/leader.go:57-63 | term 1 for a shard without a term |
| `Leadership.LeaderManager.PickCandidate` | coordinator/leader.go:141-166 | a live replica other than the leader that no other such replica exceeds in version, and the next term; none exactly when there is none |
| `Leadership.LeaderManager.CheckAndReassign` | coordinator/leader.go:75-110 | every shard without a live leader gets the best candidate and the next term, every other shard is left alone, the map version rises by the number of changes and the leaders given are recorded, whatever the order |
| `Leadership.ReassignsKeeps` | coordinator/leader.go:75-110 | such a round keeps leaders among replicas and one leader per term |
| `Leadership.LeaderManager.NotifyLeader` | coordinator/leader.go:116-136 | an election result is accepted if and only if its term is higher and the winner is a replica |
| `Leadership.ReassignedIsAlive` | coordinator/leader.go:75-110 | after reassignment a shard with a live replica has a live leader |
| `MigrationModel.UnionIsUnion` | coordinator/migration.go:53-63 | the widened replica list is the union, without repeats when neither side has any |
| `MigrationModel.StartKeeps` | coordinator/migration.go:47-80 | the step that starts a migration keeps the leader and the invariant and widens the replicas to the union; `MigrationRuns.MigrationOverRuns` carries this to the end of the migration |
| `MigrationModel.FinaliseDone` | coordinator/migration.go:152-172 | a finished migration has the target as replicas and a live leader in it: the old one if it is there, else one of highest version in a higher term |
| `Migration.MigrationManager.Widen` | coordinator/migration.go:53-63 | the loop computes the union |
| `Migration.MigrationManager.StartMigration` | coordinator/migration.go:47-80 | the new state in full, or an error for an unknown shard |
| `Migration.MigrationManager.CheckReady` | coordinator/migration.go:125-148 | exactly when there are replicas and each is alive and has reported a version past 0 |
| `Migration.MigrationManager.FinaliseMigration` | coordinator/migration.go:152-172 | narrowed to the target, leaders reassigned, the record gone |
| `Migration.MigrationManager.CheckMigrations` | coordinator/migration.go:87-122 | in any order, every ready migration ends, every other stays pending, and a ready split shard drops its source and has a live leader; the round is a chain of such steps |
| `MigrationModel.RoundKeeps` | coordinator/migration.go:87-172 | a round of checks keeps the invariant and the growth of terms, grants and versions |
| `Coordinator.ConfiguredExactly` | coordinator/leader.go:35-52 | a configured coordinator satisfies the invariant if and only if every initial leader is none or a replica |
| `Coordinator.Server.Init` | coordinator/leader.go:35-52 | the configured state, or the part before a duplicate and an error |
| `Coordinator.Server.Split` | coordinator/server.go:491-520 | a new leaderless shard in term 1 with its source, or an error for an empty request, an unknown source or a name already there |
| `Coordinator.Server.Migrate` | coordinator/server.go:463-479 | the migration starts, or an error for an empty request or an unknown shard |
| `Coordinator.NextKeeps` | coordinator/server.go:363-390 | every call keeps the invariant and the growth of terms, grants and versions |
| `Coordinator.Server.Serve` | coordinator/server.go:363-390 | configuring and then any calls, with any liveness in between, make a run |
| `Coordinator.LeadershipOverRuns` | coordinator/leader.go:35-136 | in every run from a configuration leaders are replicas, terms never fall, a term has one leader and every change of the map raises its version |
| `Coordinator.OneLeaderPerTerm` | coordinator/leader.go:75-136 | in every run no shard and term are ever given two leaders, inside calls included |
| `Coordinator.LeadersAreGranted` | coordinator/leader.go:75-136 | in every run a leader was given its shard in the present term |
| `CoordinatorCalls.StartIsConfigured` | coordinator/leader.go:35-52 | every run starts with exactly the configured shards, as configured and of different names, each in term 1 |
| `CoordinatorCalls.ReassignExactly` | coordinator/leader.go:75-110 | in every run a shard gets a new leader if and only if its own is missing or dead and another replica is alive; the new one is alive and nobody alive has reported more, in the next term; otherwise nothing changes |
| `CoordinatorCalls.NotifyExactly` | coordinator/leader.go:116-136 | in every run an election result counts if and only if its term is later and the winner a replica |
| `CoordinatorCalls.StartExactly` | coordinator/migration.go:47-80 | in every run a migration starts if and only if the shard is known and the target not empty; the replicas are then the union, the target is marked, and leader and term stay |
| `CoordinatorCalls.SplitExactly` | coordinator/server.go:491-520 | in every run a shard is split off if and only if its name is new, its source known and its replicas not empty, without a leader and in term 1 |
| `CoordinatorCalls.RoundExactly` | coordinator/migration.go:87-172 | in every run a round ends a migration if and only if every node of the target is alive and has reported data, leaving a leader with data; a split shard forgets its source if and only if all its replicas are; everything else stays but for dead leaders |
| `MigrationRuns.MigrationOverRuns` | coordinator/migration.go:47-122 | in every run, from an accepted start until the shard is migrated anew or a round finds the target alive with data, the migration is pending, its target is marked and the replicas are the union of the old ones and the target |
| `MigrationRuns.MigrationEnds` | coordinator/migration.go:87-172 | the next round ends it if and only if the target is not empty and each of its nodes is alive and has reported a version past 0: the replicas are the target, a live one with data leads, the old leader if it is among them and else one of highest version; otherwise it stays on its way |
| `MigrationRuns.LeaderChangesExactly` | coordinator/leader.go:75-136 | a call changes a shard's leader only by an accepted election result, a dead or missing leader, or the end of a migration the leader is not part of, always to the stated successor in a higher term; all of these do change it, except that a round that ends no migration of the shard need not |
| `MigrationRuns.LeaderOverRuns` | coordinator/leader.go:75-136 | between two states of a run with different leaders of a shard there is such a call |

## Left out

- The unrouted HTTP twins of the message handlers, request routing, metrics, logging and configuration parsing.
- Timers: when an election, a heartbeat or a check happens is arbitrary.
- A snapshot installation or a restart that takes back a vote, an acknowledgement or a commit is not a step of the runs that safety is claimed for; `InstallKeepsInvExactly` and `RestartKeepsInvExactly` say that no other is left out, `LoweringInstallElectsTwo`, `ForgottenVoteElectsTwo` and `RestartElectsTwo` show what such a one breaks.
- Writes between a leader's write and the snapshot that follows it: in a disk run the snapshot has the version of the moment it is taken, and only its term may be older; `LateSnapshotFitsExactly` says what another version does.
- Installing a snapshot older than memory, and a cut that loses the newest snapshot, are no events of a disk run; `InstallTakesEffectExactly` and `CutKeepsExactly` say what becomes of them.
- Log matching: a duplicate is recognised by version alone, so completeness is claimed for versions, not contents.
- Input and output errors of files, the size limit of a log line, and JSON as text; a torn line stands for any unreadable one.
- Recovery status fields, and which address is asked during a recovery.
- Text that is not UTF-8 and would be altered by JSON; a stored text is modelled as it is, a stored number up to what it is read back as.
- Linearizable reads, `GetStatus` and the conversion of messages.
- Interleaving of coordinator calls: each public call is one step.
- `RemoveShard`, which nothing calls, and `TableDef.ShardID`, which nothing reads.
- SqlExecutor.Kv.Scan: the Doki repository implements the interface in a test only; any answer that lists the matching entries once is allowed.
