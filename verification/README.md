# GideonDB: a verified model of its consensus, storage, index and placement cores

GideonDB is a sharded vector database. This project models, in Dafny, the four places where its correctness is hard, and
proves what each of them is for.

**Metadata consensus.** Cluster metadata is replicated by a durable Raft store. `RaftSpec` gives every store operation as a
function from a store to a store, whether it was written to disk, and the reply; `RaftStore` has the same operations as
methods that update fields and loop over entries, each proved equal to its function, on an object that knows which operations
made its memory and which of them its file. `RaftCluster` puts stores on a network that loses, repeats and reorders messages,
with restarts. `FullLog` is a reference protocol whose logs are never compacted; its safety is proved by an invariant
(`FullLogSafety`, `FullLogInduction`), `RaftRefinement` shows that a compacted log answers like the whole one,
`RaftSimulation` shows that every cluster step is a reference step, and `RaftSafety` draws the theorems about every run.
`RaftAnswers` tells every answer of a store, grant or refusal, from its whole log, and `RaftElection` shows that any majority
can always elect a leader.
`RaftClamp` decides exactly when a follower's commit clamp is safe and `RaftDivergence` is a run in
which it is not, `RaftReopen` shows when a store accepts the state it wrote, `RaftCheck` exactly which files it accepts, `RaftQuorum` treats membership changes.

**Shard storage and recovery.** A shard is a map held as an immutable base, tombstones and a mutable segment (`ShardLayers`,
searched by `ShardSearch`), backed by a stack of delta segments (`Segments`) and a write-ahead log (`WalBytes`). `Recovery` is
the state machine of all durable actions with a crash between any two of them, `TornRecovery` the same with a crash after any
byte of an append, `Engine` the operations step by step, each durable action recorded as a step of that machine.
`RecoveryFailure` are the runs in which a checkpoint publishes what cannot be read back. `Replica` adds a leader, a
follower and a network. `Idempotency` is the ledger of idempotent batches.

**Indexes that must agree with a scan.** `Bitmaps`, `Postings`, `Numerics`, `Columns` and `FilterIndex` are the metadata
filter; `FilterFile` its file; `Lexical` the inverted index of sparse vectors and text; `SegmentIndex` the segment that
keeps them in step; `TopK` the bounded heap that merges shard results.

**Placement and rebalancing.** `Placement` is rendezvous placement with capacities, `Rebalance` the ordered movement plan,
`ActionNames` the names its actions are printed under, `RebalanceExecution` its validation and resumable journal,
`CapacityRebalance` the path from a capacity change to a plan. `Collections` and `Strings` hold what all of them share.

Seven of the properties one would expect hold only under a condition. Each has its condition proved exact and an input or a
run that shows the failure.

- A follower clamps the leader's commit index to its own last index rather than to the end of the batch. A request is safe for
  every follower if and only if, nowhere between the end of its batch and its commit index, an older leader could have left
  another entry, which takes a term that the leader's log skips from there on; in particular if the batch reaches the commit
  index (`RaftClamp.ClampSafeIff`). The followers it ranges over are given by `Follows`, conditions on the follower's log and
  the leader's that every state of the reference protocol meets (`RaftClamp.ReachableFollows`); that a run leads to each of
  them is not shown. `RaftDivergence.UncoveredRequestDiverges` is a run for every batch limit k: one full batch of k entries
  from the first index on, among requests that all reach their commit index, makes two nodes commit different entries at index
  k + 1 and serve different views under one epoch; `RaftDivergence.FullBatchDiverges` is the one with the 128 entries the
  replication loop reads (`internal/cluster/raft_runtime.go:523`). The leader reads from the first index once the follower has
  answered without success, as it does while it does not know its peers (`raft_runtime.go:193-199`), and the leader has gone
  back one index after the other (`raft_runtime.go:538-546`); that loop itself is not modelled.
- A checkpoint that finds neither a changed record nor a tombstone writes no segment, though the log may have moved on since
  the last one. Its manifest is then at a position that no segment has, and is saved; but such a manifest is refused when it is
  read, so the shard does not open, and every later checkpoint and snapshot install fails (`Recovery.NeverAgain`). A
  checkpoint's manifest is accepted if and only if a delta was written or the stack already ended at the log's last position,
  which is so if and only if nothing was appended since the last checkpoint or some key touched since then was there at that
  time or is there now (`Recovery.ReachesIff`). `RecoveryFailure.CameAndWent` puts and checkpoints one ordinary record, puts
  and deletes another, and checkpoints.
- A checkpoint publishes its manifest and resets the log before it reads back the filter file it has written, and a filter file
  with an empty field name is refused (`FilterFile.EmptyNameRefused`). The file of any records loads if and only if none of
  them has an indexed value under the empty name (`FilterFile.RoundTrip`). `RecoveryFailure.EmptyNameLost` puts one such
  record, checkpoints and cannot reopen; `RecoveryFailure.DeletedComesBack` goes on until a deleted record is back in memory.
  With the condition before: every state of a run recovers if and only if no checkpoint and no snapshot install publishes such
  a record and every checkpoint's manifest is accepted (`Recovery.RecoveryIff`, and `Recovery.CleanRecordsRecover` for what the
  shard takes in).
- An entry of the current term that a quorum holds is committed if and only if the log up to it replays
  (`RaftAnswers.CommitAnswer`). A leader that proposes two views for one epoch, the first without reaching a quorum, leaves a
  log that does not (`RaftAnswers.ProposedTwice`), and from then on nothing past the second view can be committed on that log
  (`RaftAnswers.SecondViewBlocks`).
- A Raft state file reopens to what was written unless it has outgrown the 8 MiB that are read of it
  (`RaftSafety.RestartsFromOwnFile`), or a snapshot was installed that is not newer than the bootstrap epoch or that arrived
  between the two entries of a membership change (`RaftReopen.InstallReopensIff`, `RaftReopen.HalfChangeRefused`).
- A replica snapshot is published before the log is reset: a crash in between leaves the right next position if and only if the
  leftover log is empty or ends at the snapshot (`Replica.WindowExact`, with a run in `Replica.WindowUnderstates`, and
  `Replica.WindowHeals` for how it heals).
- The quorums of a membership change always share a voter if and only if two bare majorities of the old and the new set do not
  fit into their union, which one joining or leaving node guarantees and two need not (`RaftQuorum.ChangeSafeIff`,
  `RaftQuorum.TwoNodeChangeCanSplit`).

Assumptions, all visible in the definitions: a disk write either succeeds or the process stops; a node appends, commits and
sends only in a term it won, though it may have dropped the leader role since, the lines that raise the term and drop the role
being one step; a snapshot request carries the term its sender is in; in the run-wide Raft theorems every append request
reaches the commit index it announces and there is one fixed voter set, and a node may restart whatever the length of its file;
the files of a replica snapshot, its manifest and the log reset are one step in the run theorems; counters are unbounded except
in the log's byte format; SHA-256, CRC-32C and JSON are injective, arbitrary and, for texts that are valid UTF-8, lossless;
segment files are read back as they were written; namespaces and identifiers hold no NUL, so the joined key identifies a
record; collection names are distinct; a filter file is written from records in a fixed way, so the manifest stands for it by
their metadata. Membership in a list stands for the source's binary search in a sorted list, and strings compare by character.

## Model

| member | source | states |
|---|---|---|
| RaftSafety.StateMachineSafety | internal/cluster/raft.go:254-565 | In every run, also with leaders that lost the role but still append and commit in their term, any two nodes that at any two moments both committed index k hold the same entry at k |
| RaftSafety.EpochDeterminesView | internal/cluster/raft.go:512-565 | In every run, nodes with equal applied epoch serve equal views, and equal commit index means equal epoch, view and voters |
| RaftSafety.ElectionSafety | internal/cluster/raft_runtime.go:221-273 | In every run, two nodes that lead the same term, or ever won it, are the same node |
| RaftElection.LeaderElectable | internal/cluster/raft_runtime.go:221-273 | From the end of every run and for every majority, the run can go on by steps of that majority alone until one of its members leads a term it has won |
| RaftSafety.RestartsFromOwnFile | internal/cluster/raft.go:106-140 | At every moment of every run a node's file, compacted or installed, is accepted on open if and only if it is no longer than the 8 MiB that are read, and then gives back exactly what the node held in memory |
| RaftSafety.AppendNeverFails | internal/cluster/raft.go:385-442 | A leader's append request is never answered with an error at any follower in any reachable state, and memory equals the file |
| RaftSafety.Simulate | internal/cluster/raft.go:254-565 | Every step of a cluster of compacting stores is matched by a step of the reference protocol that keeps the relation and the invariant |
| FullLogSafety.LeaderCompleteness | internal/cluster/raft.go:355-383 | Whatever a quorum committed in a term starts the log of every later leader, by induction on the term |
| FullLogSafety.LogMatching | internal/cluster/raft.go:385-442 | Logs with equal terms at one index are equal up to it |
| FullLogSafety.CommittedAgree | internal/cluster/raft.go:491-510 | Two nodes agree on everything both have committed, in every state that satisfies the invariant |
| FullLogInduction.NextKeeps | internal/cluster/raft.go:340-565 | Every step of the reference protocol (votes, appends, commits, snapshots, restarts) keeps the invariant |
| FullLogInduction.OneWinner | internal/cluster/raft_runtime.go:221-273 | Whoever gathers a majority of votes in a decided term is its leader |
| RaftClamp.ClampSafeIff | internal/cluster/raft.go:431-437 | An append request cut from a leader's log makes no follower, of those whose log stands to the leader's as two logs of one group do, commit anything else if and only if at no index between batch end and commit index an older term fits that the leader's log skips from there on; in particular if the batch reaches the commit index |
| RaftClamp.ReachableFollows | internal/cluster/raft.go:385-442 | In every state of the reference protocol, the log of any node of no later term and the log of any elected leader stand to each other as that condition says |
| RaftDivergence.UncoveredRequestDiverges | internal/cluster/raft.go:385-442 | In every group of three and for every batch limit k there is a run in which all requests but one reach their commit index, that one is a full batch from the first index on, and afterwards two nodes hold different committed entries at index k + 1 and different views under one epoch |
| RaftDivergence.FullBatchDiverges | internal/cluster/raft_runtime.go:516-551 | Such a run exists with requests of at most the 128 entries the replication loop reads |
| RaftRefinement.CompactionInvisible | internal/cluster/raft.go:313-338 | Compaction leaves the whole log and every last-log and term answer at or above the new snapshot unchanged |
| RaftRefinement.VoteRefines | internal/cluster/raft.go:355-383 | A compacted store votes, replies and changes exactly as the whole log would |
| RaftAnswers.VoteAnswer | internal/cluster/raft.go:355-383 | A vote is granted if and only if the request is current and from a voter, its log is up to date for the voter's whole log, and the vote of its term is free or already the candidate's; the term is adopted and the vote stored or forgotten accordingly |
| RaftAnswers.UpToDateTotal | internal/cluster/raft.go:371-372 | Of any two logs one is up to date for the other, both only if they end in the same term at the same index, and a later last term always is |
| RaftAnswers.ElectionAnswer | internal/cluster/raft.go:340-353 | Exactly an active voter starts an election, in the next term, with its own vote and a request that stands for its whole log |
| RaftAnswers.ConfigureAnswer | internal/cluster/raft.go:180-195 | Voters are set once, to a non-empty list of valid distinct nodes with the own one among them, and afterwards only confirmed |
| RaftAnswers.AppendAnswer | internal/cluster/raft.go:385-442 | A request that contradicts nothing committed succeeds if and only if it is current, from a voter, and matches the retained log at its previous index; the whole log is then the merge, committed as far as the leader says and the log reaches, and a refusal leaves the log alone |
| RaftAnswers.CommandAnswer | internal/cluster/raft.go:444-468 | A valid command is appended exactly by who voted for itself in the current term, and once while it is the uncommitted end of the log |
| RaftAnswers.CommitAnswer | internal/cluster/raft.go:491-565 | An index is committed if and only if a quorum acknowledged it, it holds an entry of the current term above the snapshot, and the log up to it replays |
| RaftAnswers.CountAnswer | internal/cluster/raft.go:470-489 | Commit by counts asks the same of the log, outside a membership change, with more than half of the count |
| RaftAnswers.CompactAnswer | internal/cluster/raft.go:313-338 | Compaction succeeds exactly outside a membership change and leaves exactly the entries above the commit index, with the replayed metadata as the snapshot |
| RaftAnswers.InstallAnswer | internal/cluster/raft.go:254-300 | Exactly which snapshot requests are errors, refused or taken, and the whole log, commit index, metadata and vote afterwards |
| RaftAnswers.AdvanceApplies | internal/cluster/raft.go:526-538 | The next epoch always applies outside a membership change; repeated it changes nothing, with another view it is refused |
| RaftAnswers.JointApplies | internal/cluster/raft.go:539-558 | A membership change from the voters in force applies, and its end with the same lists and the next epoch always applies and leaves the new voters |
| RaftAnswers.JointExcludes | internal/cluster/raft.go:524-560 | During a membership change exactly its own end applies |
| RaftAnswers.SecondViewBlocks | internal/cluster/raft.go:512-565 | With two different views for the next epoch above the commit index, no index past the second can be committed, whatever follows and whoever acknowledges |
| RaftAnswers.ProposedTwice | internal/cluster/raft.go:444-468 | Two proposals for the next epoch with different views and no commit in between leave such a log |
| RaftRefinement.AppendRefines | internal/cluster/raft.go:385-442 | An append accepted by a compacted store is accepted by the whole log with the same reply, and from the snapshot index on both end in the same log |
| RaftRefinement.BatchRefines | internal/cluster/raft.go:151-167 | A batch read above the snapshot is the one the whole log gives; at or below it there is none |
| RaftRefinement.LoopMerges | internal/cluster/raft.go:411-430 | The append loop on valid entries that contradict nothing committed is the reference merge: keep what matches, cut at the first conflict |
| RaftRefinement.SameEpochSameView | internal/cluster/raft.go:512-565 | Two prefixes of one log that replay to the same epoch replay to the same view |
| RaftQuorum.MajorityIsQuorum | internal/cluster/raft.go:773-781 | The counting loop decides exactly the strict majority of the voter set |
| RaftQuorum.MajoritiesMeetIff | internal/cluster/raft.go:773-781 | All majorities of two non-empty sets meet if and only if two bare majorities do not fit into the union, disjoint ones existing otherwise |
| RaftQuorum.ChangeSafeIff | internal/cluster/raft.go:217-225 | Acknowledgement sets accepted under the old, joint or new configuration always share a voter if and only if that holds of the two voter sets, and it does when at most one node changes |
| RaftQuorum.ChangeQuorumsMeet | internal/cluster/raft.go:217-225 | Two stores anywhere in a one-node change never accept acknowledgements without a common voter |
| RaftQuorum.TwoNodeChangeCanSplit | internal/cluster/raft.go:783-797 | Replacing the only voter changes two nodes and accepts disjoint sets |
| RaftReopen.NormalizeExact | internal/cluster/raft.go:680-706 | Normalizing succeeds exactly on non-empty lists of valid distinct identifiers and returns them sorted |
| RaftReopen.PerformKeeps | internal/cluster/raft.go:180-195 | Every store operation on any argument keeps the conditions the reopening check tests, except for installing a snapshot that does not fit, which never does |
| RaftReopen.InstallReopensIff | internal/cluster/raft.go:254-301 | After an installed snapshot the state reopens if and only if the snapshot is newer than the bootstrap epoch and no membership change is half done |
| RaftReopen.HalfChangeRefused | internal/cluster/raft.go:262-301 | Two operations after which the written file is refused: the begin of a membership change, and a newer snapshot |
| RaftReopen.ReopensOwnState | internal/cluster/raft.go:584-674 | After any sequence of operations, membership changes and fitting snapshots included, the persisted state passes the check and its whole-log replay recomputes the same state |
| RaftCheck.ReplayExact | internal/cluster/raft.go:617-655 | Committed entries replay if and only if each command may follow the one before it, and end with the epoch, view, voters and membership change the last commands say |
| RaftCheck.ReopenIff | internal/cluster/raft.go:584-674 | A state file is accepted if and only if it is well formed, every committed command may follow the one before it, and its epoch, view, voters and membership change are what the last commands say; a missing view is filled in |
| RaftStore.VoterMajority | internal/cluster/raft.go:773-781 | The loop returns whether the acknowledging voters are more than half |
| RaftStore.VoterSetDifference | internal/cluster/raft.go:783-797 | The loops count the symmetric difference of two voter lists |
| RaftStore.RaftStore.ObserveTermNow | internal/cluster/raft.go:169-178 | The method does what the term-observation function says, in memory, file and reply, is recorded, and leaves a file that reopens to exactly itself if every installed snapshot fitted |
| RaftStore.RaftStore.ConfigureVotersNow | internal/cluster/raft.go:180-195 | The method does what the configuration function says, in memory, file and reply, is recorded, and leaves a file that reopens to exactly itself if every installed snapshot fitted |
| RaftStore.RaftStore.BeginElectionNow | internal/cluster/raft.go:340-353 | The method does what the election function says, in memory, file and reply, is recorded, and leaves a file that reopens to exactly itself if every installed snapshot fitted |
| RaftStore.RaftStore.RequestVoteNow | internal/cluster/raft.go:355-383 | The method does what the vote function says, in memory, file and reply, is recorded, and leaves a file that reopens to exactly itself if every installed snapshot fitted |
| RaftStore.RaftStore.WalkBatch | internal/cluster/raft.go:411-430 | The loop that truncates and extends the log in place leaves the log of the append-loop function, and reports whether it ran through |
| RaftStore.RaftStore.AppendEntriesNow | internal/cluster/raft.go:385-442 | The method does what the append function says, in memory, file and reply, is recorded, and leaves a file that reopens to exactly itself if every installed snapshot fitted |
| RaftStore.RaftStore.AppendCommandNow | internal/cluster/raft.go:444-468 | The method does what the command function says, in memory, file and reply, is recorded, and leaves a file that reopens to exactly itself if every installed snapshot fitted |
| RaftStore.RaftStore.ApplyThroughNow | internal/cluster/raft.go:512-565 | The apply loop reaches the state of applying the entries up to the target one after the other, or leaves the error |
| RaftStore.RaftStore.CommitWithVoterAcksNow | internal/cluster/raft.go:491-510 | The method does what the commit function says, in memory, file and reply, is recorded, and leaves a file that reopens to exactly itself if every installed snapshot fitted |
| RaftStore.RaftStore.CompactCommittedNow | internal/cluster/raft.go:313-338 | The method does what the compaction function says, in memory, file and reply, is recorded, and leaves a file that reopens to exactly itself if every installed snapshot fitted |
| RaftStore.RaftStore.InstallSnapshotNow | internal/cluster/raft.go:254-301 | The method does what the snapshot function says, in memory, file and reply, is recorded, and leaves a file that reopens to exactly itself if every installed snapshot fitted |
| RaftStore.RaftStore.Open | internal/cluster/raft.go:584-674 | Opening returns a store exactly when the reopening check accepts the file |
| RaftStore.RaftStore.RestartNow | internal/cluster/raft.go:106-140 | A restart succeeds exactly when the file is not too long and the check accepts it; if every snapshot fitted, exactly when it is not too long, and it then leaves exactly the operations the file held |
| Recovery.CrashRecovery | internal/engine/engine.go:914-1163 | Wherever a run of appends, applies, publications, log resets, installs, snapshots and crashes stops, before a checkpoint failed to load or after a later snapshot: reopening succeeds if and only if the manifest is accepted and no checkpointed record has an indexed value under the empty name, and then shows exactly the replay of all appended mutations with the next position one above the last appended; between operations memory shows and counts the same map |
| Recovery.RecoveryIff | internal/engine/engine.go:1263-1307 | Every state of a run, failed checkpoints included, reopens to the replay of all appended mutations if and only if no checkpoint and no snapshot install publishes a record with an indexed value under the empty name and every checkpoint writes a delta or finds the stack at the log's last position |
| Recovery.CleanRecordsRecover | internal/engine/engine.go:914-1163 | If no appended or installed record has an indexed value under the empty name, every state of the run reopens to the replay of all appended mutations if and only if every checkpoint writes a delta or finds the stack at the log's last position, as is so if nothing is ever deleted |
| Recovery.PublishedReadable | internal/storage/segmentfile/segmentfile.go:160-183 | The manifest a checkpoint publishes is accepted if and only if the checkpoint writes a delta or finds the stack at the log's last position |
| Recovery.ReachesIff | internal/engine/engine.go:1214-1255 | A checkpoint over an acceptable manifest writes a delta or finds the stack at the log's last position if and only if nothing was appended since the last one or some key touched since was there then or is there now |
| Recovery.NeverAgain | internal/engine/engine.go:1218-1222 | Once the manifest on disk is not accepted, no later checkpoint, install or restart happens and the manifest stays as it is |
| RecoveryFailure.CameAndWent | internal/storage/segmentfile/segmentfile.go:181-183 | For any two ordinary records: put and checkpoint one, put and delete the other, checkpoint; the checkpoint succeeds and memory is right, but from its publication on the shard is refused, although every state before recovers |
| RecoveryFailure.EmptyNameLost | internal/engine/engine.go:1297-1307 | For every record with an indexed value under the empty name: put it and checkpoint, and the shard that reopened everywhere before is refused |
| RecoveryFailure.DeletedComesBack | internal/engine/engine.go:1202-1342 | That run goes on: the checkpoint fails, the record is deleted, and the next checkpoint leaves a shard whose manifest is not accepted and, with the flat index, a memory that shows the deleted record again |
| TornRecovery.CrashInsideAppend | internal/wal/wal.go:137-165 | In every run, a shard stopped after any byte of an append reopens, from the bytes alone, if and only if the manifest is accepted and no checkpointed record has an indexed value under the empty name, and then to the replay without that mutation until its last byte is written and to the replay with it from then on |
| Recovery.FilesNeverOverwritten | internal/engine/engine.go:1249-1262 | In every run a checkpoint writes under no file name the manifest on disk refers to, the delta that is merged away at once included |
| Recovery.SnapshotRewrites | internal/engine/engine.go:622-641 | A snapshot install writes under a file name of the manifest on disk only if the snapshot is of the shard's own position and that file its whole stack; the file then keeps its map exactly if the snapshot shows what the shard's history gives, and its very records if both are in key order |
| Recovery.NextKeeps | internal/engine/engine.go:1202-1342 | Every durable action and every crash, but for the failure to load what was published, keeps the recovery invariant |
| Recovery.ExtendedShows | internal/engine/engine.go:1230-1257 | The old stack with the new delta on top shows exactly what memory shows |
| Recovery.ReplayLogSeen | internal/engine/engine.go:929-969 | Replaying the log above the checkpoint over the loaded stack gives the replay of the whole history |
| Recovery.ContiguousExact | internal/wal/wal.go:226-283 | The log that is accepted on open has, from its first position on, every position once and in order, and only valid batches |
| Engine.ApplyMutation | internal/engine/engine.go:938-968 | The record loop and the delete act on the layered shard as the mutation acts on the plain map |
| Engine.LoadFilter | internal/engine/engine.go:1036-1045 | The filter file of a manifest is accepted exactly when it was written for the manifest's record count from records without an indexed value under the empty name, and then is the index of their metadata |
| Engine.CheckManifest | internal/storage/segmentfile/segmentfile.go:139-188 | The loop accepts a checkpoint's manifest exactly if it lists 1 to 16 segments at rising positions up to its own, the last one at it |
| Engine.LoadStack | internal/engine/engine.go:1003-1074 | The stack loads exactly when the manifest is accepted, its record count is the manifest's and the filter file loads, and then shows the fold of its segments |
| Engine.ReplayWal | internal/engine/engine.go:930-969 | The log is accepted exactly when it is contiguous and well formed; records above the checkpoint are applied in order and their payloads kept |
| Engine.Open | internal/engine/engine.go:914-1163 | Opening a disk gives exactly the memory the recovery model reopens to, or refuses when it does |
| Engine.ShardEngine.AppendLog | internal/wal/wal.go:137-165 | The change is durable at the next position before it is visible |
| Engine.ShardEngine.BatchUpsert | internal/engine/engine.go:246-300 | A batch of 1 to 10000 records extends the history by one mutation at the returned position and acts on the map the shard shows, any other is refused; unless a checkpoint has failed to load, the shard shows the replay of the history |
| Engine.ShardEngine.Remove | internal/engine/engine.go:753-778 | A present key is removed under the next position, a missing one is reported and nothing is appended; unless a checkpoint has failed to load, present means present in the replay of the history |
| Engine.ShardEngine.PlanManifest | internal/engine/engine.go:1214-1262 | Planning is refused exactly at the segment cap with no run to merge; otherwise the manifest built from the delta and a compaction is one the model may publish, and its stack shows what memory shows |
| Engine.ShardEngine.Checkpoint | internal/engine/engine.go:1202-1342 | Exactly when a checkpoint ends in each way. It changes no visible record and keeps the history. It refuses exactly when the manifest on disk is not accepted, is done at once if the last checkpoint covers the history, stops exactly when the extended stack is at the cap with no run to merge, and otherwise publishes and empties the log: done, if the records are fit for a filter file, with the whole history in the stack and a disk that reopens if and only if it wrote a delta or found the stack at the log's last position; failed, if not, with memory as it was and a disk that does not reopen |
| Engine.ShardEngine.ApplyReplicaChange | internal/engine/engine.go:421-542 | The reply is the one of the follower protocol; only an exact next position is appended, applied and remembered, every other answer leaves the state as it was |
| Engine.ShardEngine.InstallReplicaSnapshot | internal/engine/engine.go:581-689 | A snapshot is installed exactly when its position is positive and not older than the log, its keys are distinct and the manifest on disk is accepted; then the shard, also one whose checkpoint had failed, shows its records under its position, and if it is a prefix of the leader's log the history is that prefix |
| Replica.ReplicaPrefix | internal/engine/engine.go:421-689 | Through every loss, repetition, reordering, checkpoint and crash, until a checkpoint fails to load, the follower is the replay of the leader's log up to the follower's last position; it reopens if and only if its manifest is accepted and no record it has checkpointed has an indexed value under the empty name, and then to that replay |
| Replica.StorableReplicaRecovers | internal/engine/engine.go:421-689 | If no record the leader appended has an indexed value under the empty name, no checkpoint of either shard fails to load and the follower reopens to the replay of its history if and only if its manifest is accepted, as it is if each of its checkpoints wrote a delta or found the stack at the log's last position |
| Replica.FollowerReplies | internal/engine/engine.go:459-487 | Each possible reply to any change from anyone, invalid ones included, is given exactly when the leader's log, the follower's checkpoint and its position say so; a retained position is never replaced |
| Replica.ExportTruthful | internal/engine/engine.go:546-561 | An exported snapshot is the replay of the log up to the position it carries |
| Replica.WindowExact | internal/engine/engine.go:663-668 | Between publication and reset the shard reopens if and only if the snapshot's records are fit for a filter file; it then shows the snapshot, and its next position is right if and only if the leftover log is empty or ends at the snapshot |
| Replica.WindowHeals | internal/engine/engine.go:459-487 | A follower that reopens in that window accepts every change of the leader from its position on, and after those up to the snapshot shows the leader's state, expects the position after it and would reopen to the same |
| Replica.WindowUnderstates | internal/wal/wal.go:121-124 | A run of the follower and a snapshot of position 2 after which the reopened follower expects position 2 again |
| Idempotency.SameAnswer | internal/engine/engine.go:349-361 | Two successful calls with one key, at any times and across crashes, had the same request and got the same records and sequence |
| Idempotency.AppendsNothingMore | internal/engine/engine.go:357-359 | After a success nothing is appended for the key again, and the answered position holds the answered records |
| Idempotency.OnePayload | internal/engine/idempotency.go:77-103 | All log records ever written for a key carry the same prepared records, however often crashes made it retry |
| Idempotency.AnswerStays | internal/engine/engine.go:353-359 | Once a key has been answered, the ledger holds exactly that answer at every later time |
| Idempotency.ConflictIff | internal/engine/engine.go:349-361 | Stopped at any moment of any history, a key can be taken up for a request if and only if the ledger does not hold it for another one |
| Idempotency.ReservedFinishes | internal/engine/engine.go:360-361 | A reservation left behind by a stop at any moment of any history is finished by the same request: its records are appended once more and answered under that position |
| Idempotency.NewKeyStored | internal/engine/engine.go:362-416 | A key without a reservation, at any moment of any history, is reserved, appended once and answered |
| Idempotency.LedgerEngine.BatchUpsertIdempotent | internal/engine/engine.go:329-416 | A call is rejected exactly if malformed and a conflict exactly if the ledger holds the key for another request; otherwise it is stored: a completed one answered from the ledger, a reserved one with its reserved records and a new one with the prepared records, by one append, under whose position the entry is completed; a key answered before gets the same answer or a conflict |
| Segments.CompactionPreserves | internal/engine/multisegment.go:137-177 | Replacing a run by its merged records and retained tombstones leaves the view unchanged over every older base and under every newer segment |
| Segments.Materialize | internal/engine/multisegment.go:34-72 | The loops return the folded records in key order and exactly the keys whose last mention is a tombstone |
| Segments.ResolveMapped | internal/engine/multisegment.go:74-110 | The same records in the same order, each with a location that holds it |
| Segments.Select | internal/storage/compaction/policy.go:35-69 | Of the segments sorted by position: the first run of four similar ones within the byte budget; without one, nothing below the cap and the longest affordable prefix, or a refusal, at it |
| Segments.SortedAlready | internal/storage/compaction/policy.go:39-40 | A stack in log order is the only sorting of itself, so the chosen run is a run of the stack |
| Segments.ExceedsExact | internal/storage/compaction/policy.go:71-73 | The quotient and remainder test decides whether a size exceeds the ratio times the minimum |
| Segments.Compact | internal/engine/multisegment.go:137-177 | The result is the stack or the stack with one run merged, in log order, and shows the same over every base; it is refused exactly with eight or more segments, no eligible run and the two oldest over the byte budget, and otherwise gets shorter at the cap |
| Records.ListingUnique | internal/engine/multisegment.go:63-66 | A map has one listing in key order, so both readers return the same one |
| Records.List | internal/shard/shard.go:197-223 | Collecting and sorting the values of a map gives its listing |
| Strings.LessExact | internal/shard/shard.go:213-215 | A string is before another exactly if it is a proper beginning of it or smaller where they first differ |
| ShardLayers.UpsertSeen | internal/shard/shard.go:68-84 | An upsert is a map update and keeps active keys and tombstones disjoint and the count right |
| ShardLayers.DeleteSeen | internal/shard/shard.go:100-129 | A delete removes the key and nothing else and keeps the layers sound |
| ShardLayers.DeltaOverBase | internal/shard/shard.go:225-235 | The checkpoint delta applied to the base is exactly what readers see |
| ShardLayers.InstallInvisible | internal/shard/shard.go:241-263 | Installing what readers see as the new base changes nothing visible |
| ShardSearch.SearchShard | internal/shard/shard.go:139-164 | Given the k best of the active segment and of the base without shadowed records, joining, sorting and cutting gives the k best of everything a reader sees: by falling score and rising identifier, and nothing left out has a higher score or the same score and an earlier identifier |
| ShardSearch.LayersSplit | internal/shard/shard.go:146-151 | Scanning the active segment and the base without active keys and tombstones finds what scanning the visible records finds, each once |
| ShardLayers.Shard.Put | internal/shard/shard.go:68-84 | The method updates the shown map at the key and adjusts the count |
| ShardLayers.Shard.Get | internal/shard/shard.go:86-98 | The method returns the shown record or none |
| ShardLayers.Shard.Remove | internal/shard/shard.go:100-129 | The method reports whether the key was shown and removes it |
| ShardLayers.Shard.RecordsNow | internal/shard/shard.go:197-223 | The method lists the shown map, as many records as the count |
| ShardLayers.Shard.CheckpointDelta | internal/shard/shard.go:225-235 | The method lists the active records and the tombstones, which together turn the base into the shown map |
| ShardLayers.Shard.InstallImmutable | internal/shard/shard.go:241-263 | The method shows the new base under a new generation, and closes the old one exactly when no snapshot reads it |
| ShardLayers.Shard.PinSnapshot | internal/shard/shard.go:265-277 | The method counts a reader of the current generation; the counters are those of the open snapshots, and a generation is closed exactly when replaced and unread |
| ShardLayers.Shard.HasPinnedReaders | internal/shard/shard.go:279-283 | True exactly when some generation has a reader |
| ShardLayers.Shard.Release | internal/shard/shard.go:285-299 | A generation is closed by its last reader, and only once retired; the counters stay those of the open snapshots |
| WalBytes.TornTail | internal/wal/wal.go:226-283 | Cut the file of any appended sequence after any number of bytes: recovery succeeds and returns exactly the whole records, in order, and the end of the last |
| WalBytes.AcceptsOnlyEncodings | internal/wal/wal.go:231-282 | Whatever the bytes, an accepted file's kept part is exactly the encoding of the records read from it |
| WalBytes.RecoverFile | internal/wal/wal.go:226-283 | The loop returns the recovered outcome: last position, kept bytes and the records above the replay bound |
| WalBytes.HeadOfHeader | internal/wal/wal.go:285-296 | Reading an encoded header gives back its length, position, operation and checksum |
| WalBytes.HeaderOfHead | internal/wal/wal.go:240-273 | A header that passes every check is the encoding of its own fields |
| WalBytes.FillHeader | internal/wal/wal.go:285-296 | The byte array filled field by field is the encoded header |
| WalBytes.Log.Append | internal/wal/wal.go:137-165 | A known operation with a payload within bounds is framed at the next position; anything else writes nothing |
| WalBytes.Log.Reset | internal/wal/wal.go:184-201 | The file is emptied and the next position set, unless it is zero |
| WalBytes.TornAppend | internal/wal/wal.go:105-116 | Stopping anywhere inside an append leaves a file that reopens to the records before it |
| FilterIndex.EvaluateAfter | internal/metadata/filter.go:391-463 | After any history of upserts and deletes, evaluating any expression gives exactly the live ids a scan selects |
| FilterIndex.Index.Upsert | internal/metadata/filter.go:391-418 | The index is afterwards the index of the records with this one replaced |
| FilterIndex.Index.Delete | internal/metadata/filter.go:420-435 | The index is afterwards the index of the records without this one |
| FilterIndex.Index.Evaluate | internal/metadata/filter.go:437-463 | The recursion returns exactly the ids whose current metadata satisfies the expression |
| Columns.PassingIds | internal/metadata/filter.go:577-630 | Every test on one field, through postings, presence, numeric ranges or a scan, selects exactly the ids whose value passes it |
| Columns.Put | internal/metadata/filter.go:398-416 | Entering a value keeps postings, presence and numbers the ones of the values |
| Columns.Drop | internal/metadata/filter.go:422-434 | Dropping an id keeps postings, presence and numbers the ones of the values |
| Filters.CanonicalSeparates | internal/metadata/filter.go:721-768 | Two values share a posting exactly when they are equal or numbers that print alike |
| Filters.ComparesExact | internal/metadata/filter.go:770-790 | Exactly two numbers or two texts compare; below and above are the order of amounts and of texts, exclude each other, and each has its complement |
| Filters.WordsExact | internal/metadata/filter.go:564-575 | A text passes exactly if the wanted words are among its own |
| Numerics.Range | internal/metadata/filter.go:656-684 | Base and delta together give exactly the ids whose current value lies in the range, stale entries notwithstanding |
| Numerics.Insert | internal/metadata/filter.go:632-641 | Inserting, with or without a merge, updates the current value and keeps the field sound: what is held beyond the current values is exactly what is counted as stale, and that count and the unordered part stay below the limit |
| Numerics.Delete | internal/metadata/filter.go:643-654 | Deleting, with or without a merge, drops the value if it is the current one and keeps the field sound |
| Numerics.MergeIfNeeded | internal/metadata/filter.go:686-704 | Merging changes no current value and happens exactly at the limit, after which nothing is unordered or stale |
| Numerics.Search | internal/metadata/filter.go:662-672 | Binary search finds the first reading above, or at, the target |
| Postings.Include | internal/metadata/filter.go:304-335 | Adding an id adds it and nothing else, through every change of representation, with the right count |
| Postings.Exclude | internal/metadata/filter.go:337-363 | Removing an id removes it and nothing else, through every change of representation, with the right count |
| Postings.ToBitmap | internal/metadata/filter.go:365-381 | The bitmap has exactly the posting's ids |
| Bitmaps.Add | internal/metadata/filter.go:77-87 | Setting a bit, growing the words if needed, adds the ordinal and counts it once |
| Bitmaps.Remove | internal/metadata/filter.go:89-98 | Clearing a bit removes the ordinal and counts it once |
| Bitmaps.Union | internal/metadata/filter.go:837-850 | Word-wise or is the union, with the recounted size |
| Bitmaps.Intersect | internal/metadata/filter.go:851-862 | Word-wise and over the shorter length is the intersection, with the recounted size |
| Bitmaps.Difference | internal/metadata/filter.go:863-873 | Word-wise and-not is the difference, with the recounted size |
| Bitmaps.Recount | internal/metadata/filter.go:874-879 | Adding up the one bits of the words counts the ordinals |
| Bitmaps.ListIds | internal/metadata/persistence.go:178-188 | Lowest bit first, word by word: the ordinals in increasing order, each once |
| FilterFile.RoundTrip | internal/metadata/persistence.go:12-176 | The file of any records loads if and only if none has an indexed value under the empty name, and then the loaded index answers every expression as a scan of the records does |
| FilterFile.EmptyNameRefused | internal/metadata/persistence.go:105-108 | No file that describes records with an indexed value under the empty name is accepted |
| FilterFile.EmptyNameExample | internal/metadata/filter.go:391-418 | One record with a text under the empty name is such a list; a list or object under it is not indexed and does no harm |
| FilterFile.MarshalRecords | internal/metadata/persistence.go:12-89 | The file of any records describes exactly their indexed values, has a field for exactly the names with one, is well formed but for an empty name, and is acceptable if and only if no record has an indexed value under the empty name |
| FilterFile.LoadField | internal/metadata/persistence.go:105-174 | A stored field is accepted exactly when its values, postings and numbers are consistent and complete, and then, if its numbers are sorted, gives a sound column of its values |
| FilterFile.LoadBinary | internal/metadata/persistence.go:92-176 | A file is accepted exactly when version, count, names and fields are valid, and one that describes some records loads as their index |
| FilterFile.AcceptedDescribes | internal/metadata/persistence.go:92-176 | An accepted file is the index of the records it tells of, if and only if its numbers are in order, which is not looked at: ordinals are in range, values are scalars, names and ordinals are met once |
| FilterFile.StoreField | internal/metadata/persistence.go:59-86 | A stored column of any name satisfies everything the loader checks but the name, and has the column's values and sorted numbers |
| Lexical.Add | internal/segment/lexical.go:39-79 | Adding a record turns the index of some records into the index with it |
| Lexical.Remove | internal/segment/lexical.go:81-103 | Removing a record turns the index of some records into the index without it |
| Lexical.IndexUnique | internal/segment/lexical.go:24-37 | Records have exactly one index: postings, norms, lengths and total |
| Lexical.Accumulate | internal/segment/lexical.go:117-125 | Term at a time, every record's accumulator ends at its dot product with the query |
| Lexical.SparseProducts | internal/segment/lexical.go:112-135 | Every allowed record with a nonzero dot product is reported with that product, and nothing is reported with another |
| Lexical.SearchSparse | internal/segment/lexical.go:112-135 | The result is by falling score and rising ordinal and at most limit long; each score times the lengths of query and record is their dot product; every allowed record with a nonzero product is in it, or the result is full and wholly above it |
| Lexical.CosineExact | internal/segment/lexical.go:112-135 | The score times both lengths is the sum, over the shared terms, of the products of the weights, also where a length is zero |
| Lexical.TopScoredTops | internal/segment/lexical.go:195-203 | Sorting and cutting keeps, by falling score and rising ordinal, the results that are above all others |
| SegmentIndex.Segment.Upsert | internal/segment/segment.go:294-325 | The shown records change at the key only, and ordinals, lexical and metadata indexes stay those of the records |
| SegmentIndex.Segment.Delete | internal/segment/segment.go:346-366 | A known key is removed everywhere, an unknown one is reported |
| SegmentIndex.Segment.Rebuild | internal/segment/lexical.go:39-103 | Building the lexical index from the surviving records gives the one kept through the history |
| TopK.MergeTopK | internal/collection/collection.go:324-341 | For k > 0 the result is a part of the inputs of size min(k, total), by falling score and among equal scores by rising identifier, and nothing left out has a higher score than anything kept, or the same score and an earlier identifier |
| TopK.ShardBestsSuffice | internal/collection/collection.go:324-341 | The k best of lists that each hold their shard's k best are the k best of everything |
| TopK.Push | internal/collection/collection.go:347-358 | Sifting up restores the heap over the same results and the new one |
| TopK.FixRoot | internal/collection/collection.go:360-377 | Sifting the root down restores the heap over the same results |
| TopK.SortResults | internal/collection/collection.go:379-389 | The insertion sort in place puts the same results by falling score and among equal scores by rising identifier |
| TopK.NotWorseTransitive | internal/collection/collection.go:343-345 | Score and identifier order results consistently |
| Placement.NodeScore | internal/cluster/placement.go:109-118 | The loop returns one of the node's tickets, and none is higher |
| Placement.FindOwner | internal/cluster/placement.go:87-96 | The running best over the sorted nodes is better than every other member |
| Placement.GatherNodes | internal/cluster/placement.go:50-79 | The inputs are accepted exactly when valid, and the nodes are the members in identifier order |
| Placement.MembersExact | internal/cluster/placement.go:57-78 | The members are the node itself and its identified peers with their capacities, whatever their order and health |
| Placement.PlanPlacement | internal/cluster/placement.go:50-100 | The table exists exactly for valid inputs and gives every shard of every collection its best member |
| Placement.PlanReplicas | internal/cluster/replicas.go:33-69 | The table exists exactly for valid inputs and factors and gives every shard the first members of the score order, the first of them leading |
| Placement.OrderUnique | internal/cluster/replicas.go:54-60 | There is one order of the members |
| Placement.ReplicaTablesAgree | internal/cluster/replicas.go:33-69 | Two calls that know the same nodes, each itself and its peers in any order and of any health, and the same collections in any order, are both refused or return equal replica tables |
| Placement.OwnerTablesAgree | internal/cluster/placement.go:50-100 | The same for the table of owners |
| Placement.KnownDecides | internal/cluster/placement.go:50-79 | Whether the inputs are accepted and which members result depends only on who is known |
| Placement.SortConfigsAgree | internal/cluster/placement.go:80-81 | Two orders of collections with distinct names are sorted into one |
| Placement.OwnersAreLeaders | internal/cluster/replicas.go:61-65 | The single-owner table is the leader column of the replica table |
| Placement.RaiseAddsOnlyIt | internal/cluster/placement.go:109-118 | Raising a node's capacity adds only that node to any replica set |
| Placement.LowerRemovesOnlyIt | internal/cluster/placement.go:109-118 | Lowering a node's capacity removes only that node from any replica set |
| Placement.TableMovesOnlyIt | internal/cluster/rebalance.go:12-60 | The same for every row of two tables that differ in one capacity |
| Placement.SortConfigsOrdered | internal/cluster/placement.go:80-81 | Collections are taken in name order |
| Rebalance.BuildActions | internal/cluster/rebalance.go:115-148 | The loops build the copies and catch-ups, the transfer, the commit and the removals of the movement, with their dependencies |
| Rebalance.ActionsPlanned | internal/cluster/rebalance.go:115-148 | Exactly which actions a movement has |
| Rebalance.NeverUnsafe | internal/cluster/rebalance.go:87-89 | At every moment of every execution that respects dependencies: no source replica is removed before the commit, all target replicas serve from the commit on, and the acting leader serves |
| Rebalance.EndsAtTarget | internal/cluster/rebalance.go:87-155 | After all actions, in any such order, exactly the target replicas are left |
| Rebalance.PlanRebalance | internal/cluster/rebalance.go:90-155 | A plan exists exactly for a newer epoch, an equal factor and the same distinct shards; exactly the shards whose replicas or leader change have a movement, one each, from their current row to their target row, by collection and shard |
| Rebalance.PlanNeverUnsafe | internal/cluster/rebalance.go:87-155 | At every moment of every interleaved execution of a whole plan, every shard keeps its source replicas until its commit, has its target replicas from then on, and its acting leader serves |
| Rebalance.PlanEndsAtTarget | internal/cluster/rebalance.go:87-155 | After all actions of the plan every shard, moved or not, is served by exactly its target replicas and led by its target leader |
| Rebalance.SortRowsOrdered | internal/cluster/rebalance.go:105-108 | Target rows are taken by collection and shard |
| RebalanceExecution.ValidatePlan | internal/cluster/rebalance_execution.go:190-228 | Validation accepts exactly the non-authoritative next-epoch plans with distinct names, sound data movements and known dependencies, and collects the data movements |
| RebalanceExecution.PlannedPlansValid | internal/cluster/rebalance_execution.go:190-228 | Every plan made from tables with distinct valid replicas that contain their leader passes validation, its printed action names are distinct, and it never needs a data movement before it is listed |
| ActionNames.PrintInjective | internal/cluster/rebalance.go:120-145 | Action names made of valid nodes and any collection names print differently |
| RebalanceExecution.Executor.RunAction | internal/cluster/rebalance_execution.go:107-135 | Exactly when an action is blocked by a missing dependency, fails with its data movement, or is done; only then it is recorded, last in the journal, after all it depends on |
| RebalanceExecution.Executor.Prepare | internal/cluster/rebalance_execution.go:86-148 | Resumed after any failures, preparation is ready only when every copy and catch-up has succeeded, fails only with a data movement and is blocked only by a missing dependency, loses no progress, refuses a valid plan other than the journal's and leaves the journal as it was, as it does for an invalid plan, and completes a planned plan whose movements succeed |
| RebalanceExecution.Executor.ResetCommitted | internal/cluster/rebalance_execution.go:152-166 | The journal is cleared exactly when ready and its epoch is committed |
| RebalanceExecution.Executor.Ready | internal/cluster/rebalance_execution.go:76-84 | A plan is reported ready only if it is the journal's and all its data movements have succeeded |
| CapacityRebalance.PlanCapacityRebalance | internal/cluster/rebalance.go:12-60 | The transition exists exactly for valid inputs and a real change of a member's capacity; its plan moves exactly the shards whose replicas or leader change, is valid, takes data only to a raised node and removes it only from a lowered one |
| CapacityRebalance.ChangeCapacity | internal/cluster/rebalance.go:23-48 | The changed inputs stand for the same members with the one capacity replaced |

## Left out

- Transport, REST, gRPC, MCP, SDKs, TLS, configuration and the dashboard: no hard invariant of their own.
- Timers, randomized election timeouts, scheduling and liveness: every locked method is one step and only safety is proved.
- The retry loop that replicates to one peer: its requests are steps of the cluster model, its progress and its bookkeeping of next indexes are not, and a snapshot it sends under an older term than the store's is not.
- Raft snapshot installation together with membership change in the run-wide theorems: the snapshot pairs an old index with the current voters, so only the single store is treated with both.
- Failed disk writes that leave memory ahead of the disk.
- Search index internals (flat, HNSW, DiskANN, product quantization) and vector files: records carry an abstract body.
- Geographic filters: they need trigonometric bounds on floating point numbers.
- Floating point: scores, weights and numbers are reals and square roots are exact; BM25 values, dense distances and hybrid fusion are not modelled.
- Parsing of filter expressions, tokenizing and word splitting: expressions come parsed, and splitters are arbitrary functions.
- Legacy checkpoint formats and unowned shards: disks hold the formats written by snapshots and checkpoints.
- Several shards at once, routing, versions and timestamps: one shard is modelled and records arrive prepared.
- The asynchronous log mode, orphan clean-up, idempotency files on disk as JSON and the journal's file: a durable write is one step, and the journal stays within the 8 MiB that are read of it.
- Write barriers, discovery health, caches, rate limiters and backups: smaller state machines.
- Bitmaps.Add: words are sets of bit positions rather than machine integers, so shifts and masks are not modelled as arithmetic.
- FilterIndex.Index.Upsert: postings, bitmaps and numeric fields are values held in one map per index, so aliasing between them is not captured.
- Idempotency.LedgerEngine.BatchUpsertIdempotent: the log is the list of all appended mutations, checkpoints of it being the subject of the recovery model.
- Engine.ShardEngine.Checkpoint: a second checkpoint after one that failed to load, without a snapshot install in between, is a step of the recovery model but not of this method, because its delta can repeat a file name of the manifest and the model has segments as values, not files rewritten in place.
- Engine.ShardEngine.PlanManifest: the same, as part of a checkpoint.
- Engine.ShardEngine.InstallReplicaSnapshot: with a DiskANN index the source also reads the filter file back after publication, and fails there like a checkpoint.
- Engine.LoadFilter: a manifest without a filter file, as older versions wrote, is not modelled.
- RebalanceExecution.Executor.Prepare: cancellation of the context is one of the ways a data movement can fail.
