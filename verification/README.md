# A model of RDMA_Paxos in Dafny

RDMA_Paxos replicates a TCP server.  The leader hooks `accept`, `read` and `close`
of the server, turns each call into a request, and writes the request by one-sided
RDMA into the logs of the other nodes.  A replica polls its own log memory, stores
what it finds, acknowledges it by an RDMA write back into the leader's copy of the
entry, and replays committed requests against its local server.  Beside that runs a
leader election over RDMA-written vote cells, and a check that compares hashes of
the servers' outputs and restores nodes that diverge.

The project models this down to bytes in memory and single reads and writes of
shared variables, and proves what it promises for every run.

| part | modules |
|---|---|
| words, bytes and stamps | `Options`, `Bytes`, `Words`, `Bitmaps`, `ViewStamps`, `Quorums` |
| the log entry in memory, torn writes | `EntryLayout` |
| replication as a system of steps | `Consensus`, `ConsensusInvariant`, `ConsensusReplicas`, `ConsensusSafety`, `ConsensusReplies`, `ConsensusFirstPass`, `ConsensusScan`, `ConsensusNextRequest`, `ConsensusTornQuorum` |
| the code inside the steps | `LogThreads`, `Signalling` |
| the event manager and replay | `Hooks`, `HookReads`, `HookRaces`, `HookRaceRuns`, `EventManager`, `Replay`, `Checkpoint` |
| leader election | `Sids`, `VoteScan`, `Election`, `ElectionSafety`, `ElectionStaleVotes`, `ElectionGroupSize`, `VoteLanding` |
| output checking | `Crc64Table`, `Crc64`, `Output`, `Decision`, `Verdict`, `VerdictRuns` |
| data structures | `HashTable`, `HashHandles`, `AdList` |

How the pieces connect:

- `Consensus` is the whole protocol as interleaved steps.  Any number of leader
  threads run through the critical section, the unlocked snapshot of the commit
  counter, the store, the posting loop, the recheck loop over the acknowledgement
  slots, the spin, and the separate read and write of the counter.  RDMA writes land
  one byte per step.  Replicas poll, accept and execute.  `ConsensusInvariant` and
  `ConsensusReplicas` prove an invariant step by step, and `ConsensusSafety` draws
  the theorems from it.
- `LogThreads` has the same replica code as a class over an `array` with a loop, and
  proves that one round of it is a sequence of steps of `Consensus`.
- `Replay` continues where `Consensus` ends: from executed records to the bytes that
  the local server of a replica gets.  `Hooks` puts the hooks of the leader's server
  threads on top, interleaved with each other and with every step of the protocol: a
  look-up in the connection table is one step and the submission that uses it a later
  one.  It proves that every state of the hooks lies over a run of `Consensus` whose
  requests name known connections.  `HookReads` and `HookRaces` compare what the
  leader's server has read on a connection with what the server of a replica gets.
  `EventManager` has the connection tables of both sides as classes.
- Beside safety stands what the steps get done: `ConsensusScan` says what a round of the
  recheck loop counts in any state, and `ConsensusNextRequest` builds runs step by step
  and byte by byte, on top of any run that has committed its requests, up to the commit
  of the next one.  `ConsensusTornQuorum`, `HookRaceRuns` and `VerdictRuns` take their
  failing runs from it.
- `Election` is a second system of steps, built on the array-scanning method of
  `VoteScan`.  A vote request lands in full or in part; `VoteLanding` reads the slot
  byte by byte, with clears by scans in between, and proves that what it holds on the
  way is what those steps allow.
- `Verdict` joins `Output` (block hashes by the CRC of `Crc64`), `Decision`, and the
  acknowledgement slots as `Consensus` has them, each landed as far as it is.
- `HashTable` is what a hash table stands for, on sequences.  `HashHandles` has the
  same table as handles on the heap with all four links, and proves the relinking.

Where a promise does not hold of the code as it is, the code is kept and the exact
condition is proved:

- A vote carries no term, and a server that raises its term keeps the votes it has
  got.  So one leader per term holds in groups of up to four servers and in no larger
  group (`ElectionGroupSize.OneLeaderExact`), and because the initial leader never votes
  somebody can be elected exactly in groups of three or more
  (`ElectionGroupSize.ElectableExact`).  In any group, two leaders that each
  have a majority behind them in their own term are the same
  (`ElectionSafety.OneLeaderPerTerm`).
- An acknowledgement whose stamp has landed and whose sender has not counts for
  node 0, and later for its sender too.  So commits are durable in every run exactly
  when the leader is node 0 or the group has at most three nodes
  (`ConsensusTornQuorum.DurableExact`); in all groups at most one holder is missing.
  What one slot counts is right exactly when the leader is node 0 or the group has at
  most two nodes (`EntryLayout.TornAckSound`).  All else is proved for every leader.
- The vote scan picks a Pareto-best request for all words exactly when the ranks of
  the slots have no dip (`VoteScan.ParetoExact`), and it keeps its own candidacy only
  above every pending request exactly when no equal rank follows a worse one
  (`VoteScan.KeepsOwnExact`).  The ranks that servers send meet both conditions.
- The output check waits for a quorum and then reads all hashes, also those that are
  still landing.  So streams that agree cause no restore, whatever they are, exactly
  when some hash has not begun to land or all have landed in full
  (`Verdict.NoFalseRestore`); `Verdict.CutHashRestores` has three nodes that agree and
  a hash of one byte that restores its node, or two that restore everybody.  Every
  other progress, as it is at one moment, is reached by a run that commits the check
  (`VerdictRuns.FalseRestoreReached`).
- When all hashes have landed, the restores go to exactly the nodes that differ, if
  and only if each of these is named by its own slot (`Verdict.TargetsExact`): if and
  only if the leader is node 0 or is not one of them, because its own slot is never
  written and so names node 0 (`Verdict.TargetsLeader`).  For the same reason the
  decision reports the leader as restored exactly when the leader is not node 0 or
  differs from the majority (`Verdict.CheckOutput`).
- The sockets of a replica are non-blocking and what a write returns is ignored; and a
  send behind the close of its connection is dropped.  So the bytes on a connection are
  the payloads that were submitted exactly when every write was taken in full and no
  bytes were submitted behind the close (`Replay.WrittenExact`).
- A read hook looks its connection up and submits later.  Call a state calm if no
  connection with bytes to be submitted has had its close looked up, and reads under way
  on one connection commute as byte strings.  In a run of calm states the server of a
  replica gets the bytes read, in order (`HookReads.CalmSuffices`).  From every state
  that is not calm, with room in the log, there is a way to lose or turn around bytes
  (`HookRaces.StormBreaks`), and after that no replica's server ever has exactly the
  bytes read (`HookRaces.NeverAgain`).  `HookRaceRuns` has both races from the start, in
  groups of every size.
- A replica looks the connection of an output check up before it has executed what the
  entry commits.  It finds it exactly when it has executed the connect and no close; it
  has executed the connect whenever an earlier entry is about the same connection
  (`Replay.OutputConnection`).
- A vote request that is the first of its sender reads as sent once the first byte of
  its term is in, and not before (`VoteLanding.FirstRank`).  Until then a server outbids
  the fixed leader, which it would have supported (`VoteLanding.CutRequestOutbid`), so
  `VoteScan.ScanVerdict` survives cut requests once the ranks have landed
  (`VoteLanding.TornScan`).  `ElectionGroupSize.OneLeaderExact` survives all of them:
  its runs have them, also those whose low byte a scan has cleared, which then name
  server 0.
- The leader builds an entry where it posts it exactly while the log does not wrap
  (`LogThreads.DareLog.AddEntry`).  A replica that has taken all entries finds nothing
  more exactly as long as the last one leaves room for a header; otherwise it goes back
  to the start and takes the first entry again (`ConsensusFirstPass.FirstPassExact`).
- A new candidacy grows the word of a server exactly while the term counter is not
  exhausted (`Sids.CandidacyGrows`).
- A shutdown is safe as long as the restore flag is not up between an approval and
  the end of its call, and can go wrong whenever it is; raising the flag after a
  refused request leads there (`Checkpoint`).

Assumptions about the environment: one view and one fixed leader; RDMA writes land
in increasing byte order, those of one sender to one place in the order of posting; a
poll sees the memory as it is at one moment, and so does the read of one field of a
slot; the reply to an output check ends with the hash that the replica has for the
index; the database is a map, the put of a replica succeeds and that of the leader may
fail; the kernel does not hand out a descriptor that is still open; a server uses a
descriptor when its accept has returned; request ids do not wrap.

Where source and comments disagree the model follows the code.  An entry header takes
216 bytes, not the 168 that its comment says.  The CRC register starts with the value
that the caller passes, which is 0.  `config.idx` is declared as a pointer and
compared as a value; it is a value here.

## Model

| member | source | states |
|---|---|---|
| `ViewStamps.LongRoundTrip` | RDMA/src/util/common-structure.c:21-35 | `ltovs` undoes `vstol` on every stamp, and `vstol` undoes `ltovs` on every 64-bit key |
| `ViewStamps.LongOrder` | RDMA/src/util/common-structure.c:4-26 | the keys are ordered exactly as `view_stamp_comp` orders the stamps, and are equal only for equal stamps |
| `ViewStamps.LongSuccessor` | RDMA/src/consensus/consensus.c:349-354 | adding one to a key of a view gives the key of the next request, so the execute loop skips no stamp |
| `Bytes.LERoundTrip` | RDMA/src/include/consensus/consensus-msg.h:6-12 | an integer that fits a field reads back as stored |
| `Bytes.LEMonotone` | RDMA/src/include/rdma/dare_log.h:16-25 | a field some of whose bytes have not landed never reads larger than the full one |
| `Bytes.LECut` | RDMA/src/include/consensus/consensus-msg.h:6-12 | a field of which the first b bytes have landed over zeros reads as the value modulo 256^b |
| `Bytes.LEMixed` | RDMA/src/include/rdma/dare_log.h:9-14 | a field of which the first b bytes have landed over another value reads as the low bytes of the one below the high bytes of the other |
| `Bytes.MixedReads` | RDMA/src/include/rdma/dare_log.h:9-14 | while a larger value lands over a smaller one the field never reads larger; over the same value it never changes; after the last byte it reads as written |
| `Bitmaps.OrBitSets` | RDMA/src/consensus/consensus.c:224 | or-ing in one bit sets this bit and changes no other |
| `Bitmaps.PopcountOr` | RDMA/src/consensus/consensus.c:106-113 | the population count grows by one for a new bit and not at all for an old one |
| `Bitmaps.PopcountCounts` | RDMA/src/consensus/consensus.c:106-113 | the population count is the number of distinct positions set |
| `Quorums.MajoritiesMeet` | RDMA/src/consensus/consensus.c:106-113 | any two sets of size group/2+1 share a node |
| `EntryLayout.DecodeEncoded` | RDMA/src/include/rdma/dare_log.h:16-25 | from an entry that is there in full, every field reads back as written, the poll succeeds, and the record cut out of it is the record of the request |
| `EntryLayout.RecordRoundTrip` | RDMA/src/include/replica-sys/replica.h:7-13 | size, type, client and payload lie at the offsets of the record, and decoding it gives type, client and exactly the submitted payload: the +1 on the size and the -1 at replay cancel |
| `EntryLayout.TornSize` | RDMA/src/consensus/consensus.c:271-276 | a partly landed size field reads at most the real size; it is zero before its first byte and exact after its last |
| `EntryLayout.TornWrite` | RDMA/src/consensus/consensus.c:271-276 | for every landed prefix, also one that cuts the size field, the poll succeeds if and only if the whole entry has landed |
| `EntryLayout.TornAck` | RDMA/src/consensus/consensus.c:310-315 | the sender of a partly landed acknowledgement reads as the sender or as node 0, and its stamp is right once eight bytes are there |
| `EntryLayout.TornAckSound` | RDMA/src/consensus/consensus.c:220-226 | for all stamps, senders and landed prefixes the scan counts only the leader or the real sender, if and only if the leader is node 0 or the group has at most two nodes |
| `EntryLayout.TornHash` | RDMA/src/include/consensus/consensus-msg.h:6-12 | the hash of a partly landed acknowledgement is what its landed bytes spell: zero up to byte 16, the hash cut after each byte, the hash after byte 24 |
| `ConsensusSafety.InvariantHolds` | RDMA/src/consensus/consensus.c:115-365 | every state of every run satisfies the invariant of the protocol |
| `ConsensusSafety.ExecutesLeaderOrder` | RDMA/src/consensus/consensus.c:347-356 | in every state of every run, what a replica has executed is exactly a prefix of the leader's order: each request once, in order, with its record |
| `ConsensusSafety.OrderGrows` | RDMA/src/consensus/consensus.c:130-151 | the leader's order at a later moment extends the order at an earlier one |
| `ConsensusSafety.StateMachineSafety` | RDMA/src/consensus/consensus.c:347-356 | of any two replicas, seen at any two moments of a run, one has executed a prefix of what the other has |
| `ConsensusSafety.BitmapCounts` | RDMA/src/consensus/consensus.c:205-226 | the population count of a bitmap is the number of nodes counted, however often the scan has run; each of them holds the record, except that node 0 may stand for another holder |
| `ConsensusSafety.DurableCommit` | RDMA/src/consensus/consensus.c:193-239 | every request below the commit counter, and every request that some replica has executed, is in the databases of a majority if the leader is node 0 or the group has at most three nodes, and of at most one node less in any group |
| `ConsensusSafety.MajorityHolds` | RDMA/src/consensus/consensus.c:193-239 | so in these groups every majority of nodes contains a holder of it |
| `ConsensusScan.ScanRound` | RDMA/src/consensus/consensus.c:205-231 | from every state of every run, a round of scan steps of a thread adds exactly the senders that the slots with the stamp of its own request name, keeps every earlier bit, changes nothing else, and ends in the spin if that makes a quorum and at the first slot if not |
| `ConsensusScan.QuorumSeen` | RDMA/src/consensus/consensus.c:205-231 | in every state of every run, if the acknowledgements of a request by a set of nodes have landed beyond the sender, a round of its thread counts all of them and the leader; if that is a quorum the thread goes on to the spin |
| `ConsensusNextRequest.CommitsNext` | RDMA/src/consensus/consensus.c:115-239 | on top of any run that has committed all its requests, one more request, sent to any nodes that have taken the earlier ones and are a quorum with the leader, can be committed with the acknowledgement of each of them landed to any point beyond the sender |
| `ConsensusNextRequest.CommitsAll` | RDMA/src/consensus/consensus.c:115-365 | every sequence of requests that fits the log can be committed one after the other by any such set of nodes, and each of these nodes has then taken all of them and executed all but the last |
| `ConsensusTornQuorum.LosesQuorum` | RDMA/src/consensus/consensus.c:205-231 | for every other leader and group there is a run, byte by byte, that commits a request which no majority holds |
| `ConsensusTornQuorum.DurableExact` | RDMA/src/consensus/consensus.c:205-231 | commits are durable in every run if and only if the leader is node 0 or the group has at most three nodes |
| `ConsensusSafety.CounterStep` | RDMA/src/consensus/consensus.c:227-231 | a step leaves the commit counter alone, or it is the write of the thread that owns the next request, which has seen a quorum, and moves it by exactly one |
| `ConsensusSafety.CounterExact` | RDMA/src/consensus/consensus.c:193-231 | a request is below the counter if and only if its thread has committed it; the counter never passes a request whose store failed |
| `ConsensusSafety.FailedForEver` | RDMA/src/consensus/consensus.c:193-197 | once a store has failed at the leader, no later state of the run commits this request or any behind it |
| `ConsensusSafety.PiggybackBelow` | RDMA/src/consensus/consensus.c:179-180 | the commit point on a posted entry, read without the lock, is committed and strictly below the entry |
| `ConsensusSafety.ExecutesStored` | RDMA/src/consensus/consensus.c:302-356 | what a replica executes it has accepted before, and the record is the one in its database |
| `ConsensusSafety.PredecessorExecuted` | RDMA/src/ev_mgr/ev_mgr.c:144-146 | a replica that is done with a request has executed the one its caller submitted before it: the NOP carries the CLOSE through |
| `ConsensusSafety.SnapshotExecuted` | RDMA/src/consensus/consensus.c:179-180 | a replica that is done with a request has executed everything that was committed when the thread of the request read the commit counter |
| `ConsensusSafety.SenderRead` | RDMA/src/consensus/consensus.c:318-345 | in every state of every run, a complete entry that a replica polls names the leader as the node to acknowledge to |
| `ConsensusReplies.RepliesStay` | RDMA/src/consensus/consensus.c:310-345 | in every state of every run, every acknowledgement that a replica has posted lies, byte by byte, in its own copy of the entry, from which it is sent |
| `ConsensusSafety.LeaderOffsets` | RDMA/src/consensus/consensus.c:142-151 | entry n starts at the sum of the lengths before it, where it is built and where it is posted, and tail plus the last length is end |
| `ConsensusSafety.ReplicaOffsets` | RDMA/src/consensus/consensus.c:271-308 | a replica that has taken m entries polls at the sum of the first m lengths, and its tail plus length is its end |
| `ConsensusSafety.SlotsApart` | RDMA/src/consensus/consensus.c:310-315 | in every state of every run, slots of different replicas or entries do not overlap, and none reaches into the body of an entry |
| `ConsensusSafety.StaysInBuffer` | RDMA/src/include/rdma/dare_log.h:91-116 | no reservation, landing write, acknowledgement or successful poll of a run leaves the buffer |
| `ConsensusFirstPass.FirstPassExact` | RDMA/src/consensus/consensus.c:265-308 | in every state of every run, for every further entry that fits the buffer: a replica that has taken it too finds nothing more if and only if it leaves room for a header; otherwise it polls at offset 0 and finds the first entry complete again |
| `LogThreads.DareLog.constructor` | RDMA/src/include/rdma/dare_log.h:62-76 | an empty log has end and tail at the length of the buffer |
| `LogThreads.DareLog.AddEntry` | RDMA/src/consensus/consensus.c:142-151 | tail plus length is end, and the place where the entry is built is the place it is posted to if and only if the log is empty or a header still fits |
| `LogThreads.DareLog.GetEntry` | RDMA/src/include/rdma/dare_log.h:109-116 | the offset polled is the one at which the leader would reserve |
| `LogThreads.ScanAcks` | RDMA/src/consensus/consensus.c:221-227 | one pass adds exactly the senders that the slots with the awaited stamp name, and keeps every earlier bit, as a round of scan steps does |
| `LogThreads.ReplicaThread.Take` | RDMA/src/consensus/consensus.c:294-316 | storing, advancing and replying on the array is the accept step of the protocol |
| `LogThreads.ReplicaThread.ExecuteUpTo` | RDMA/src/consensus/consensus.c:347-356 | the execute loop is the execute steps of the protocol, run to their end |
| `LogThreads.ReplicaThread.HandleAccept` | RDMA/src/consensus/consensus.c:265-365 | one round on the array is an accept step with all its execute steps if a complete entry is there, and otherwise moves end only |
| `LogThreads.RoundIsSteps` | RDMA/src/consensus/consensus.c:265-365 | from every state of every run in which a replica thread polls, that round is a sequence of steps of the protocol |
| `Signalling.MaskedCounter` | RDMA/src/consensus/consensus.c:160-170 | the masked 32-bit counter is the number of posts modulo 4096, also after it has wrapped |
| `Signalling.Endpoint.Send` | RDMA/src/rdma/dare_ibv_rc.c:407-450 | posting in the order of the counter, for ever: a poll has exactly one completion to take, at most one is unpolled, and at most 8190 writes are not known complete |
| `Signalling.CompletionsBounded` | RDMA/src/consensus/consensus.c:156-217 | posting in any order: never more unpolled completions than one plus the writes reserved and not yet posted |
| `Signalling.SomeWriteProceeds` | RDMA/src/consensus/consensus.c:156-217 | posting in any order: as long as writes are pending one of them can be posted, so the polls do not deadlock |
| `Replay.ConnectsOwnStamps` | RDMA/src/consensus/consensus.c:132-136 | in every state of every run a connect is keyed by its own stamp, so stamps of connections are unique, and a NOP by none |
| `Replay.DisciplinedNext` | RDMA/src/ev_mgr/ev_mgr.c:71-150 | a request whose connection is an earlier connect, or which is a connect under its own stamp, keeps the requests disciplined |
| `Replay.RunDisciplined` | RDMA/src/ev_mgr/ev_mgr.c:71-260 | in every run whose submissions carry the stamp of a reserved connect, every request is about an earlier connect |
| `Replay.ReplayNext` | RDMA/src/ev_mgr/ev_mgr.c:422-469 | replaying one more record, whatever its write takes, keeps a replica's connections the connects minus the closes, and its bytes what was taken of the payloads so far |
| `Replay.ReplayPrefix` | RDMA/src/ev_mgr/ev_mgr.c:422-469 | replaying any prefix of the leader's order never meets a missing record and ends in these sessions |
| `Replay.WrittenExact` | RDMA/src/ev_mgr/ev_mgr.c:332-345 | the bytes on a connection are all payloads submitted on it, in order, if and only if every write on it was taken in full and no bytes were submitted behind its close; what is left out is never made good |
| `Replay.ReplicaSeesLeader` | RDMA/src/ev_mgr/ev_mgr.c:262-345 | in every state of every run whose submissions name reserved connects, whatever the sockets take: a replica's open connections are the leader's connects minus closes in its executed prefix, and its server has got per connection what was taken of the payloads submitted before the close, in order; these are all the payloads submitted if and only if every write was taken in full and none was submitted behind the close |
| `Replay.OutputConnection` | RDMA/src/ev_mgr/ev_mgr.c:412-420 | at the entry of an output check the look-up of its connection succeeds if and only if the replica has executed the connect and no close of it; it has executed the connect if an earlier entry is about the same connection |
| `Hooks.HooksOverProtocol` | RDMA/src/ev_mgr/ev_mgr.c:71-260 | every state of every interleaving of the hooks lies over a run of the protocol whose submissions carry the stamp of a reserved connect, and keeps the table one to one with connections |
| `Hooks.OpenConnections` | RDMA/src/ev_mgr/ev_mgr.c:71-150 | in every such state the connects minus the closes are the connections in the table and those whose close is under way |
| `Hooks.ClosesFollowed` | RDMA/src/ev_mgr/ev_mgr.c:127-150 | in every interleaving, each close among the requests has its NOP behind it, submitted after it by the same caller, or the hook is about to submit it |
| `Hooks.CloseCarried` | RDMA/src/ev_mgr/ev_mgr.c:144-146 | a replica that is done with the NOP of a close has executed the close, with its record |
| `Hooks.ServerSeesServer` | RDMA/src/ev_mgr/ev_mgr.c:71-345 | the same over every interleaving of hooks and protocol, with no condition on the requests: connections and bytes at a replica against what the hooks have submitted |
| `HookReads.ReadsHold` | RDMA/src/ev_mgr/ev_mgr.c:243-260 | in every interleaving, what is submitted on a connection and what is still to be submitted is as much as its server has read; if all states before were calm it is the bytes read, in order, and nothing is behind the close |
| `HookReads.CalmSuffices` | RDMA/src/ev_mgr/ev_mgr.c:71-345 | end to end, in every run of calm states: if its writes are taken in full, the server of a replica has got a prefix of the bytes that the leader's server has read on the connection; and exactly these bytes, if and only if the writes were taken in full, once all requests are executed and no read is under way |
| `HookRaces.CalmKept` | RDMA/src/ev_mgr/ev_mgr.c:127-260 | in a run of calm states the payloads submitted on a connection are a prefix of the bytes read on it, and none is behind its close |
| `HookRaces.StormBreaks` | RDMA/src/ev_mgr/ev_mgr.c:127-260 | from every state of every run that is not calm on a connection, with room in the log, the hooks can go on to a state in which bytes read on it are behind the close or out of order |
| `HookRaces.NeverAgain` | RDMA/src/ev_mgr/ev_mgr.c:262-345 | once that has happened, in no later state of the run has the server of any replica got exactly the bytes read on the connection, whatever its writes take |
| `HookRaceRuns.ReadAndClose` | RDMA/src/ev_mgr/ev_mgr.c:127-260 | in every group there is a run that commits a connect and then submits the close of the connection before a byte that was read earlier, which is lost |
| `HookRaceRuns.ReadAndRead` | RDMA/src/ev_mgr/ev_mgr.c:243-260 | in every group there is a run in which two threads read a byte each and submit them in the other order |
| `EventManager.LeaderEvents.RsmOp` | RDMA/src/consensus/consensus.c:130-151 | a request is appended under the next stamp, a connect keyed by that stamp and a NOP by none |
| `EventManager.LeaderEvents.OnAccept` | RDMA/src/ev_mgr/ev_mgr.c:71-85 | the descriptor gets the stamp of its connect, and the table stays one to one with the open connections |
| `EventManager.LeaderEvents.OnRead` | RDMA/src/ev_mgr/ev_mgr.c:243-260 | the bytes are submitted under the stamp of the descriptor; without one nothing is |
| `EventManager.LeaderEvents.OnClose` | RDMA/src/ev_mgr/ev_mgr.c:127-150 | a known descriptor leaves the table, its CLOSE is submitted, and behind it a NOP of the same caller; an unknown one changes nothing |
| `EventManager.RemoveValue` | RDMA/src/ev_mgr/ev_mgr.c:141-142 | dropping a descriptor from a one-to-one table drops exactly its connection |
| `EventManager.ReplicaEvents.Connect` | RDMA/src/ev_mgr/ev_mgr.c:277-306 | the connection has both descriptors and is accepted, all other connections are as before, and what was sent on it before is kept |
| `EventManager.ReplicaEvents.MappingFd` | RDMA/src/ev_mgr/ev_mgr.c:412-420 | the server's end of a known connection |
| `EventManager.ReplicaEvents.Send` | RDMA/src/ev_mgr/ev_mgr.c:332-345 | what the write takes of the payload is appended to what was sent on a known connection; for an unknown one all is dropped |
| `EventManager.ReplicaEvents.Close` | RDMA/src/ev_mgr/ev_mgr.c:262-275 | exactly the connection leaves the table, if it is there |
| `EventManager.ReplicaEvents.UpdateState` | RDMA/src/ev_mgr/ev_mgr.c:422-469 | acting on a record is one replay step, whatever its write takes; connect and close change exactly their connection in the table, other records none; without a record nothing changes |
| `Checkpoint.RunInv` | RDMA/src/ev_mgr/ev_mgr.c:363-410 | what every interleaving keeps, and that the replica thread stays parked through an approved call while the restore flag has not been up early |
| `Checkpoint.LateFlagSuffices` | RDMA/src/ev_mgr/ev_mgr.c:363-410 | with any controller, a shutdown runs while the replica thread is parked and has no connections, as long as the flag has not been up early |
| `Checkpoint.EarlyFlagBreaks` | RDMA/src/ev_mgr/ev_mgr.c:392-403 | every run that reaches a state with the flag up early can go on to an unsafe shutdown |
| `Checkpoint.ShutdownSafe` | RDMA/src/ev_mgr/ev_mgr.c:347-410 | with one raise after each successful shutdown, every shutdown of every run is safe |
| `Checkpoint.IdleCallMeansFailure` | RDMA/src/ev_mgr/ev_mgr.c:363-390 | a call finds the flag set, and returns 0 without a shutdown, if and only if an earlier shutdown has failed; from then on no call shuts RDMA down |
| `Checkpoint.RaiseAfterRefusal` | RDMA/src/ev_mgr/ev_mgr.c:347-410 | a run in which one raise after a refused request lets RDMA be shut down under a working replica with a connection |
| `Sids.PackFields` | RDMA/src/include/rdma/dare_server.h:11-27 | every 64-bit word is the packing of its three fields, and packed fields read back |
| `Sids.PackOrder` | RDMA/src/include/rdma/dare_server.h:11-27 | words are ordered by term, then leader flag, then index |
| `Sids.Setters` | RDMA/src/include/rdma/dare_server.h:18-27 | each setter changes its own field and no other |
| `Sids.CandidacyGrows` | RDMA/src/rdma/dare_server.c:248-262 | a new candidacy is a larger word, of the next term, if and only if the term counter is not exhausted |
| `VoteScan.DropSmaller` | RDMA/src/rdma/dare_server.c:369-390 | the first pass, in place, keeps exactly the requests larger than all before them and finds the largest word |
| `VoteScan.ChooseBest` | RDMA/src/rdma/dare_server.c:402-427 | the second pass, in place, finds the winner among them, clears all slots but those it found worse, and finds the highest term |
| `VoteScan.PollVoteRequests` | RDMA/src/rdma/dare_server.c:356-446 | the two passes in place come to the verdict and leave the slots that the election steps use |
| `VoteScan.WinnerIsChoice` | RDMA/src/rdma/dare_server.c:402-427 | the winner has the best log among the survivors, the last such, no worse than the own; without a winner the own log beats every survivor |
| `VoteScan.ParetoExact` | RDMA/src/rdma/dare_server.c:369-427 | for all words, no pending request has a larger word and a log as good as the winner's, if and only if the ranks of the slots have no dip |
| `VoteScan.SentRanksNoDip` | RDMA/src/rdma/dare_ibv_rc.c:69-72 | the ranks that servers send have none |
| `VoteScan.KeepsOwnExact` | RDMA/src/rdma/dare_server.c:402-446 | for all words, a server that keeps its own candidacy beats every pending request, if and only if no rank as good as its own follows a worse one |
| `VoteScan.SentRanksNoLateEqual` | RDMA/src/rdma/dare_ibv_rc.c:69-72 | in the ranks that servers send none does |
| `VoteScan.SurvivesExact` | RDMA/src/rdma/dare_server.c:369-390 | the first pass keeps exactly the pending requests that are larger than all before them |
| `VoteScan.StaysExact` | RDMA/src/rdma/dare_server.c:402-427 | the second pass leaves exactly those of them that the own log or an earlier one of them beats |
| `VoteScan.ClearedExact` | RDMA/src/rdma/dare_server.c:356-427 | with a leader known no slot is touched; otherwise every word is cleared but those of such requests, and the own one if nothing is pending; ranks are never touched, and the supported request is cleared |
| `VoteScan.IgnoreExact` | RDMA/src/rdma/dare_server.c:362-393 | the requests are ignored if and only if a leader is known or none is above the own word with the flag up |
| `VoteScan.SupportExact` | RDMA/src/rdma/dare_server.c:402-446 | otherwise, on ranks as they are sent, somebody is supported if and only if some pending request is not beaten by the own log |
| `VoteScan.RaiseExact` | RDMA/src/rdma/dare_server.c:396-442 | a raised term is the highest of the pending terms |
| `VoteScan.ScanVerdict` | RDMA/src/rdma/dare_server.c:356-446 | on requests as they are sent, a supported candidate is the last survivor with the best log, is Pareto-best and of a strictly higher term; a raised term is strictly higher with the own log ahead of every request; and the scan is silent only if a leader is known or nothing is pending |
| `VoteLanding.StoredLoaded` | RDMA/src/include/rdma/dare_log.h:9-14 | a request that has landed in full reads as it was sent, and before its first byte the slot reads as before |
| `VoteLanding.TornRequest` | RDMA/src/rdma/dare_ibv_rc.c:69-84 | over any earlier request of the sender, for every interleaving of landing bytes with clears by scans, the slot holds what a landing of the election allows: the index of the same candidate or 0, a word and a rank no better, and the rank as sent if it was there before or all bytes are in; without clears it ends as the request |
| `VoteLanding.ClearedSlot` | RDMA/src/rdma/dare_server.c:370-392 | a clear between landing bytes takes whatever has landed of the word and leaves the rank |
| `VoteLanding.TornScan` | RDMA/src/rdma/dare_server.c:356-446 | the same verdict on requests that are still landing, cleared in between or not, but whose ranks are in |
| `VoteLanding.FirstRank` | RDMA/src/include/rdma/dare_log.h:9-14 | the first request of a sender has its word after eight bytes, and reads with the rank that was sent if and only if more than sixteen have landed |
| `VoteLanding.CutRequestOutbid` | RDMA/src/rdma/dare_server.c:402-446 | a server whose only request is the first one of the fixed leader supports it if more than sixteen bytes have landed, and raises its own term instead otherwise |
| `VoteLanding.TornVote` | RDMA/src/rdma/dare_server.c:302-323 | a vote that lands over a cleared cell counts as a reply if and only if its landed bytes differ from those of the mark for "no reply", and reads as sent when all are in |
| `Election.TallyVotes` | RDMA/src/rdma/dare_server.c:302-323 | the counting loop wins if and only if the candidate and the servers with a reply are a majority, and its 8-bit count does not overflow |
| `ElectionSafety.InvariantHolds` | RDMA/src/rdma/dare_server.c:248-457 | every state of every run keeps the words, slots, messages and claims consistent with what servers have backed |
| `ElectionSafety.WordsGrow` | RDMA/src/rdma/dare_server.c:493-499 | over any stretch of a run the word of a server does not decrease, and within one term it keeps its index |
| `ElectionSafety.WordChange` | RDMA/src/rdma/dare_server.c:493-499 | a change makes the word strictly larger, and raises the term unless a server flags its own candidacy |
| `ElectionSafety.TimeoutExact` | RDMA/src/rdma/dare_server.c:248-300 | in every state of every run, a timeout makes a candidacy of the next term, forgets all replies, and sends the request noted in the own slot to exactly the servers other than itself and the initial leader |
| `ElectionSafety.PollExact` | RDMA/src/rdma/dare_server.c:356-460 | in every state of every run, a scan that supports takes over the word and sends its candidate exactly one vote, with the given offset; one that raises takes its own candidacy to the raised term and sends none; one that ignores changes neither |
| `ElectionSafety.DeliverExact` | RDMA/src/rdma/dare_ibv_rc.c:59-121 | a message that lands changes the slot or the cell of its sender at its receiver, and nothing else |
| `ElectionSafety.CountExact` | RDMA/src/rdma/dare_server.c:302-347 | in every state of every run, a candidate that counts claims its term if and only if it and the servers with a reply are a majority; the claim is new, the word of the server becomes that of the leader of the term, and nothing else changes |
| `ElectionSafety.WinnersLead` | RDMA/src/rdma/dare_server.c:341-347 | in every state of every run, a server that has claimed a term has its index and the leader flag in a word of that term, or a word of a later term |
| `ElectionSafety.FreshVotesSuffice` | RDMA/src/rdma/dare_server.c:302-347 | a winner that has counted only votes of its own term has a majority that backed it in this term |
| `ElectionSafety.OneLeaderPerTerm` | RDMA/src/rdma/dare_server.c:302-347 | two claims of one term with such majorities, made anywhere in a run, are by one server |
| `ElectionStaleVotes.TwoLeadersOneTerm` | RDMA/src/rdma/dare_server.c:434-445 | in every group of five or more there is a run in which servers 1 and 2 both claim term 4 |
| `ElectionStaleVotes.FixedLeaderWins` | RDMA/src/rdma/dare_server.c:302-347 | in every group of three or more there is a run that elects the fixed leader |
| `ElectionGroupSize.OnlyFixedLeader` | RDMA/src/rdma/dare_server.c:302-347 | in a group of up to four only the fixed leader is ever elected |
| `ElectionGroupSize.OneLeaderExact` | RDMA/src/rdma/dare_server.c:302-446 | one leader per term, whatever votes are counted, if and only if the group has at most four servers |
| `ElectionGroupSize.ElectableExact` | RDMA/src/rdma/dare_ibv_rc.c:76-78 | somebody is elected in some run if and only if the group has at least three servers |
| `Crc64Table.Reflected` | RDMA/src/output/crc64.c:3-11 | the polynomial used is the Jones polynomial with its bits reversed |
| `Crc64Table.TableCorrect` | RDMA/src/output/crc64.c:42-171 | each of the 256 table entries is what feeding its index bit by bit yields |
| `Crc64.Crc64` | RDMA/src/output/crc64.c:173-181 | the loop over the table computes the bit-at-a-time checksum of the bytes, for every start value |
| `Crc64.OneBitLinear` | RDMA/src/output/crc64.c:3-11 | feeding a bit is linear |
| `Crc64.OneBitUndone` | RDMA/src/output/crc64.c:3-11 | feeding a bit can be undone |
| `Crc64.UndoneRedone` | RDMA/src/output/crc64.c:3-11 | every register comes from another one by feeding a bit |
| `Crc64.ByteByTable` | RDMA/src/output/crc64.c:176-179 | one step of the loop is eight bits of the definition |
| `Crc64.ChecksumConcat` | RDMA/src/output/crc64.c:173-181 | a stream may be hashed piece by piece |
| `Crc64.ChecksumInjective` | RDMA/src/output/crc64.c:173-181 | different registers stay different over any stream |
| `Crc64.ChecksumWord` | RDMA/src/output/crc64.c:173-181 | up to eight bytes act on the register as one word |
| `Crc64.WindowDetected` | RDMA/src/output/crc64.c:173-181 | two streams of one length that differ only inside a window of at most eight bytes have different checksums |
| `Crc64.EveryChecksum` | RDMA/src/output/crc64.c:173-181 | behind any stream, eight bytes can lead to any checksum |
| `Output.HashesPrefix` | RDMA/src/output/output.c:152-205 | a hash depends only on the bytes before its end |
| `Output.HashesGrow` | RDMA/src/output/output.c:152-205 | more bytes add hashes and change none |
| `Output.OutputHandler.HashBlock` | RDMA/src/output/output.c:180-198 | a full buffer becomes one more hash of the stream and an empty buffer |
| `Output.OutputHandler.StoreOutput` | RDMA/src/output/output.c:152-205 | the bytes are appended to the stream, the return value is the number of hashes completed, and the buffer is never full on return |
| `Output.OutputHandler.ListIsHashes` | RDMA/src/output/output.c:152-205 | entry k of the list is the checksum of the first 1024(k+1) bytes, and the count is the number of full blocks |
| `Output.ChunkIndependent` | RDMA/src/output/output.c:152-205 | two handlers with the same bytes agree on list, hash and buffer, however the bytes were cut into calls |
| `Output.OutputHandler.DetermineOutput` | RDMA/src/output/output.c:207-231 | every tenth call gives the index five hashes back, and -1 otherwise or when there are not five |
| `Output.OutputHandler.OnCheck` | RDMA/src/ev_mgr/ev_mgr.c:177-200 | every tenth call that completes a hash proposes the index five hashes back, which is in the list, so the other branch is never taken, and proposals lie at least ten apart |
| `Output.OutputHandler.GetValByIndex` | RDMA/src/output/output.c:234-251 | the walk gives the entry at the index, and 0 outside the list |
| `Output.OutputHandler.GetOutputHash` | RDMA/src/output/output.c:253-270 | the checksum of the first blocks of the stream, and 0 while it has not got that far |
| `Decision.CountHash` | RDMA/src/output/decision.c:16-31 | the number of slots with a given hash |
| `Decision.MajorCountHash` | RDMA/src/output/decision.c:33-47 | a hash that no other is held more often than, and how often |
| `Decision.GetMasterHash` | RDMA/src/output/decision.c:49-59 | the hash of the first slot that names the leader, and 0 if none does |
| `Decision.DoRestore` | RDMA/src/output/decision.c:119-138 | a restore for each slot with another hash, in order; for every slot if the aim is zero |
| `Decision.DoDecision` | RDMA/src/output/decision.c:140-228 | a missing hash stops it; a strict majority restores exactly the slots that differ from it, and the result is 2 if and only if the slot of the leader does not hold the majority hash, and otherwise 0 or 1 as all agree or not; only without a majority everybody is restored; nothing is sent if and only if a hash is missing or all are the same |
| `Decision.OneMajority` | RDMA/src/output/decision.c:140-228 | there is at most one majority hash, and it is not the zero that stands for everybody |
| `Decision.RestoresExact` | RDMA/src/output/decision.c:119-138 | with a non-zero aim the restores name exactly the slots that disagree |
| `Decision.RestoresCount` | RDMA/src/output/decision.c:119-138 | and there are as many as there are such slots |
| `Decision.RestoresAll` | RDMA/src/output/decision.c:119-138 | with aim zero every slot is restored, in order |
| `Decision.MinorityRestored` | RDMA/src/output/decision.c:140-228 | a majority verdict restores at most (group-1)/2 |
| `Verdict.PreparePeers` | RDMA/src/ev_mgr/ev_mgr.c:152-175 | the peers are sender and hash of each slot as they are in memory when they are read, with the leader's own hash filled in |
| `Verdict.SlotInRun` | RDMA/src/consensus/consensus.c:310-315 | in every state of every run each slot of an entry holds the first bytes of the acknowledgement of its replica, and the leader's own slot none |
| `Verdict.SlotRead` | RDMA/src/ev_mgr/ev_mgr.c:160-168 | reading slots that have landed so far gives the reported hash cut there, and the sender or node 0 |
| `Verdict.SameReports` | RDMA/src/ev_mgr/ev_mgr.c:177-212 | nodes whose streams agree up to the end of a block report the same hash for it, once they have one |
| `Verdict.AgreeQuiet` | RDMA/src/ev_mgr/ev_mgr.c:152-212 | if all streams agree and some hash has not begun to land or all have landed, the decision does nothing |
| `Verdict.UnsettledRestores` | RDMA/src/ev_mgr/ev_mgr.c:152-212 | for every other progress of the slots there are streams that agree and cause a restore |
| `Verdict.NoFalseRestore` | RDMA/src/ev_mgr/ev_mgr.c:152-212 | agreeing streams never cause a restore, if and only if some replica slot has landed at most 16 bytes or every one has landed all 24 |
| `Verdict.CutHashRestores` | RDMA/src/ev_mgr/ev_mgr.c:152-212 | three nodes that agree: a slot with 17 bytes gets its node restored, and slots with 17 and 18 bytes everybody |
| `VerdictRuns.SlotsReached` | RDMA/src/consensus/consensus.c:205-324 | for all streams, and for every progress of the slots beyond the sender, there is a run that ends with the output check committed and its slots just there |
| `VerdictRuns.FalseRestoreReached` | RDMA/src/ev_mgr/ev_mgr.c:152-212 | every progress, as it is at one moment, at which agreement is not safe is reached like that, by streams that agree and cause a restore |
| `VerdictRuns.CutHashReached` | RDMA/src/ev_mgr/ev_mgr.c:152-212 | three nodes that agree: a run ends with the check committed and slots of 24 and 17 bytes, and node 2 is restored |
| `Verdict.TargetMeaning` | RDMA/src/ev_mgr/ev_mgr.c:152-175 | a node gets a restore if and only if it is named by a slot whose hash, as far as it has landed, differs |
| `Verdict.TargetsExact` | RDMA/src/ev_mgr/ev_mgr.c:152-212 | when all hashes have landed the restores go to exactly the nodes that differ, if and only if each of these is named by its own slot |
| `Verdict.TargetsLeader` | RDMA/src/ev_mgr/ev_mgr.c:152-212 | with the senders read landed too, if and only if the leader is node 0 or does not differ |
| `Verdict.CheckOutput` | RDMA/src/ev_mgr/ev_mgr.c:193-208 | from the bytes in the slots to the restores, however far they have landed: nothing is sent if and only if a hash reads zero or all read the same; agreeing streams cause no restore once the hashes have settled; a majority verdict restores at most a minority, and exactly the nodes that differ when all has landed and the leader is node 0 or agrees; its result is 2 if and only if the leader is not node 0 or its own report differs from the majority; everybody is restored if and only if there is no majority |
| `Verdict.DivergenceSeen` | RDMA/src/ev_mgr/ev_mgr.c:152-212 | streams that differ only inside eight bytes before the end of a block report different hashes for it |
| `Words.MaskAndShift` | RDMA/src/include/ev_mgr/uthash.h:207-210 | masking with one less than a power of two is the remainder, and shifting the quotient |
| `HashTable.IdealIsCeiling` | RDMA/src/include/ev_mgr/uthash.h:687-689 | the shift and mask formula is the number of items per bucket rounded up, and zero only without items |
| `HashHandles.Append` | RDMA/src/include/ev_mgr/uthash.h:189-197 | the order list gets the handle at its end, linked both ways, and head and tail follow |
| `HashHandles.Detach` | RDMA/src/include/ev_mgr/uthash.h:234-250 | exactly the given handle leaves the order list, links both ways are patched, and head and tail follow when it was first or last |
| `HashHandles.Push` | RDMA/src/include/ev_mgr/uthash.h:621-627 | the handle becomes the head of its chain, linked both ways |
| `HashHandles.Unchain` | RDMA/src/include/ev_mgr/uthash.h:635-646 | exactly the given handle leaves its chain, links both ways are patched, and the head follows when it was first |
| `HashHandles.MoveChain` | RDMA/src/include/ev_mgr/uthash.h:694-709 | the inner loop relinks every handle of an old chain into its new one, both ways, and counts those beyond the ideal length |
| `HashHandles.Redistribute` | RDMA/src/include/ev_mgr/uthash.h:676-711 | twice the buckets hold exactly the same handles, each in the linked chain of its hash; the excess count and every multiplier are exact |
| `HashHandles.Table.Find` | RDMA/src/include/ev_mgr/uthash.h:103-114 | walking the links gives the handle with the key, and null if and only if the map that the table stands for does not have it |
| `HashHandles.Table.Count` | RDMA/src/include/ev_mgr/uthash.h:887-888 | the number of keys of that map |
| `HashHandles.Table.Expand` | RDMA/src/include/ev_mgr/uthash.h:676-722 | doubling keeps order list and map, relinks the chains, and switches expansion off after two ineffective doublings in a row |
| `HashHandles.Table.MakeTable` | RDMA/src/include/ev_mgr/uthash.h:150-167 | 32 empty buckets that hold no handle |
| `HashHandles.Table.Link` | RDMA/src/include/ev_mgr/uthash.h:182-205 | order list, chains and count stay in step when a handle is linked in, into an empty table too |
| `HashHandles.Table.Add` | RDMA/src/include/ev_mgr/uthash.h:182-205 | the map gains the key, the order list the handle at its end; the buckets double if and only if the chain of the key has reached its limit and expansion is on; all links stay intact |
| `HashHandles.Table.Delete` | RDMA/src/include/ev_mgr/uthash.h:224-257 | the map loses the key and the order list exactly its handle, all links stay intact, and the last handle takes the table with it |
| `AdList.List.AddNodeHead` | RDMA/src/output/adlist.c:85-103 | a new node with the value before all others, links intact both ways |
| `AdList.List.AddNodeTail` | RDMA/src/output/adlist.c:111-129 | a new node with the value behind all others, links intact both ways |
| `AdList.List.InsertNode` | RDMA/src/output/adlist.c:131-158 | a new node right behind or right before the given one |
| `AdList.List.DelNode` | RDMA/src/output/adlist.c:164-177 | exactly the given node leaves the sequence |
| `AdList.RemovalUndoes` | RDMA/src/output/adlist.c:131-177 | an inserted node stands where it was put and the others keep their order; removing it undoes the insertion, and putting a removed one back undoes the removal |
| `AdList.List.Rotate` | RDMA/src/output/adlist.c:333-346 | the last node comes first, the others keep their order |
| `AdList.RotationCycles` | RDMA/src/output/adlist.c:333-346 | as many rotations as there are nodes bring back the first order |
| `AdList.List.Index` | RDMA/src/output/adlist.c:318-330 | the node at the index from the head, or from the tail for a negative one, and null out of range |
| `AdList.List.SearchKey` | RDMA/src/output/adlist.c:290-311 | the first node that matches, and null if and only if none does |
| `AdList.List.Dup` | RDMA/src/output/adlist.c:247-279 | a list of new nodes with the copied values in order, and null if and only if a copy fails; the original stays |
| `AdList.List.Release` | RDMA/src/output/adlist.c:63-77 | counting the length down visits every node once, in order |
| `AdList.ListIter.Next` | RDMA/src/output/adlist.c:226-237 | the node under the iterator, which moves to its neighbour in its direction |
| `AdList.ListIter.NextThenDelete` | RDMA/src/output/adlist.c:212-237 | after the removal of the node just returned, the list is intact without it and the iterator stands on the node that would have come next, in either direction |

## Left out

- Log wrap: the runs of `Consensus` stay on the first pass of the buffer, because behind a wrap the leader builds an entry at another place than it posts it to and a replica takes old entries again; `LogThreads.DareLog.AddEntry` and `ConsensusFirstPass.FirstPassExact` state when.
- View change: nothing in the code changes the view or the leader of a running log.
- Signalling.Endpoint.Send: counts writes in the order of the counter; the bound of 8190 is not proved for writes posted in another order, for which `CompletionsBounded` and `SomeWriteProceeds` hold.
- Completion flags of heartbeat and vote writes: they share the queue pair, and are not counted by `send_count`.
- A vote whose sender has an empty log: it carries the length of the log and so reads as no reply; the step that sends votes takes any offset, this one included.
- VoteScan.PollVoteRequests: reads each slot once; a request that lands between its two passes is not modelled.  It takes the own slot to hold no newer word than the server's own, as `ElectionSafety.InvariantHolds` proves of every run.
- LogThreads.ReplicaThread.HandleAccept: takes a complete entry to lie inside the buffer, as `ConsensusSafety.StaysInBuffer` proves of every run.
- EventManager.ReplicaEvents.Connect: the socket call and the wait for the accept hook are one step, with the descriptors as parameters.
- Checkpoint: more than one disconnecting thread at a time, and what shutting down and launching RDMA do.
- Data races inside one operation on a connection table: an insertion, a look-up and a removal are one step each in `Hooks`, though no lock makes them so.
- Hooks.ServerSeesServer: a hook that finds no entry for its descriptor, or one whose connect has not returned yet, is not a step; the read hook and the output check would dereference a null pointer.
- HookRaces.StormBreaks: takes room in the log for the submissions under way, because on the first pass a full log blocks them.
- HashHandles.Table.Add: takes a key that is not in the table, which is what the callers give it (an unused descriptor, or a stamp that was looked up first); of two handles with one key a look-up finds the newer one, until a doubling turns the chain around.  Sorting, selection and the Bloom filter are left out, and any function of the key stands for the hash functions.
- AdList.List.AddNodeTail: allocation does not fail; the free callback is not called.
- The table of output handlers by descriptor: it would add only lookups; a handler is modelled on its own.
- UDP connections: their stamps are not assigned at submission, so they are not unique keys.
- InfiniBand devices, queue pair set-up, multicast and the SYN exchange; heartbeats, timers and the event loop, where a timeout is a step that may happen at any time.
- Berkeley DB, configuration files, log files, latency clocks and CPU affinity.
- `spec_hooks.cpp` and the wrappers of libc, `shared_memory/`, `guard.py`, `checkpoint/`, `eval/` and `apps/`.
