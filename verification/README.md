# A verified model of the cpp-raft server

cpp-raft is a Raft variant in C++: election, heartbeat and log handlers over one server
record, a TCP layer that shares nodes between threads, and hand-written containers under
both.  This project models the hard parts of it in Dafny and proves what they keep.

* **The server** (`RaftTypes`, `RaftLogger`, `RaftNode`, `ServerSteps`, `RaftServer`).
  Every handler of `raft_server.cpp` is a method of the class `RaftServer`, proved to do to
  the fields exactly what a pure step function in `ServerSteps` does to a value.  The step
  functions carry the theorems: the effect of each handler (`ServerTheorems`, and `Handlers`
  with the whole outcome of every one, said of keys, flags, terms and positions), runs of one
  server (`Responses`, `Delivery`, `DoubleVotes`, `Timing`), and behaviours of a whole cluster
  whose network may lose, duplicate, delay and reorder (`Cluster`, `Elections`, `Quorum`).
  Exceptions thrown by the log are results, random draws and elapsed milliseconds are
  parameters.
* **The worker pool** (`JobPool`, `PoolRuns`, `Fifo`): producers, job queue, semaphore, workers,
  reader/writer lock, per-node lock counts and mark-then-wait deletion as an interleaving
  transition system with any number of threads and nodes; and the linked queue it uses.
* **The registry** (`Sequences`, `ListSpecial`, `TableSize`, `HashTable`, `Registry`,
  `Membership`): the intrusive list and the chained hash table on the heap, the pair of them
  that must always describe the same members, and the join snapshot built from it.
* **Recycled resources** (`FifoFast`, `Handles`): the bounded queue with a stock of spare
  entries, and socket handles that share a descriptor through a chain of links.

The reference for the protocol is Ongaro and Ousterhout, "In Search of an Understandable
Consensus Algorithm", sections 5.1 to 5.4.

## What turned out not to hold

Some properties one would expect are false of the code.  The code is modelled as it is, the
exact condition is proved for all inputs, and `Witnesses` holds inputs at which they fail.

* No entry is ever replicated: the call in `send_appendentries` passes the next index in the
  place of the previous term, so every AppendEntries has previous index 0 and no entries, and
  a log is what clients gave to that very server (`Elections.LogsAreLocal`;
  `Witnesses.EntryStaysLocal`).
* A follower does not apply its log in order: the commit block jumps over entries and applies
  others that the leader has not committed.  What the state machine was given is the applied
  prefix all along if and only if every accepted AppendEntries, when its commit block fires,
  found the tail's id equal to the applied index, and sent again what it cut off
  (`Delivery.DeliveryInOrder`; `Witnesses.LostEntries`).
* The commit index falls, exactly when the commit block fires over a kept log that is shorter
  than the index with a smaller tail id (`Delivery.CommitFalls`; `Witnesses.LostEntries`).
* The commit rule of section 5.3 is followed by a firing commit block exactly when the leader
  has committed at least the kept prefix and the tail's id, capped by the leader commit, does
  not point beyond that prefix
  (`ServerTheorems.CommitRuleOfThePaper`; `Witnesses.LostEntries`).
* A voter can grant two candidates in one term: exactly when at the second request its own
  term is still behind, or is that term and the vote was taken back in between, and not cast
  again, by winning an election, stepping down, or refusing a request of a larger term
  (`DoubleVotes.SecondVoteInOneTerm`; `Witnesses.DoubleVote` in a fresh cluster of three,
  `Witnesses.VoteTakenBack`).
* In a cluster of two, the other member's reply elects exactly when it grants and the server
  has no vote of its own, so a candidate cannot win with both votes
  (`ServerTheorems.TwoMembersElect`; `Witnesses.PairElects` is the election that does happen).
* With an even number of members two accepted voter sets can be disjoint
  (`Quorum.OverlapIffOdd`; `Witnesses.DisjointQuorums`).
* A success response throws out of the handler exactly when the range to mark leaves the log,
  or it marks nothing and points beyond a log that is acknowledged to its end without that id
  (`Responses.ResponseThrows`; `Witnesses.ThrowingResponse` in a fresh cluster of two).
* A leader can be kept silent: any AppendEntries that comes in, even a stale one that it
  refuses, restarts the clock its heartbeats run by.  It sends one during a stretch of its
  leadership exactly when the ticks since the last restart reach the request timeout
  (`Timing.HeartbeatsExactly`; `Witnesses.SilencedLeader`).
* A worker can delete the node of the very job it is handling and keep the pointer: the node
  is gone exactly when that worker has deleted it in its present exclusive section
  (`JobPool.OwnJobNode`; `PoolWitness.OwnNodeFreed`).
* A join reproduces the sender's table exactly when at most one member is flagged as leader
  (`Membership.JoinRoundTrip`; `Witnesses.TwoFlagJoin`).
* Moving all members reads a key from a freed buffer exactly when both registries have members
  (`Registries.Registry.MoveContentToOtherList`; `Witnesses.MoveBothFull`); moving one leaves
  the target sound exactly when the target did not have its key
  (`Registries.Registry.MoveItemToOtherList`; `Witnesses.MoveOntoTaken`); removing a node reads
  its key from a freed buffer exactly when that buffer was freed before, as it is by a removal
  (`Registries.Registry.RemoveData`; `Witnesses.RemoveTwice`).
* Assigning to a handle is safe exactly when the handle holds nothing to close
  (`Handles.Process.Assign`; `Witnesses.AssignOverOpen`); taking a descriptor out of a handle
  is safe exactly when nobody shares it (`Handles.Process.GetAndResetSocket`;
  `Witnesses.ResetShared`).

## Model

| member | source | states |
|---|---|---|
| RaftLog.LogGet | raft_logger.cpp:22-28 | A lookup succeeds exactly for the positions 1 to the length, with the entry there; otherwise it throws. |
| RaftLog.RaftLogger.Append | raft_logger.cpp:12-20 | An entry with id 0 is refused and changes nothing; any other goes to the end with its counter at 0. |
| RaftLog.RaftLogger.GetFromIdx | raft_logger.cpp:22-28 | The vector access is the 1-based lookup. |
| RaftLog.RaftLogger.PeekTail | raft_logger.cpp:40-47 | The last entry, or the exception on an empty log. |
| RaftLog.RaftLogger.MarkNodeHasCommitted | raft_logger.cpp:58-62 | One more acknowledgement on that entry and on no other; throws exactly outside the log. |
| RaftServers.RaftServer.SendAppendEntriesToOthers | raft_server.cpp:147-159 | Walking the members sends to all but itself (and the flagged leader when skipped), in order. |
| RaftServers.RaftServer.SendRequestVoteToOthers | raft_server.cpp:445-453 | A vote request with the own term and index goes to every member but itself and the flagged leader, in order. |
| RaftServers.RaftServer.BecomeLeader | raft_server.cpp:170-181 | The new state and packets are those of the election step: next indices set, vote cleared, everyone but self and old leader told. |
| RaftServers.RaftServer.BecomeCandidate | raft_server.cpp:183-200 | The new state and packets are those of a campaign: larger term, own vote, requests sent. |
| RaftServers.RaftServer.Periodic | raft_server.cpp:210-239 | Does to fields and members exactly the timer step. |
| RaftServers.RaftServer.RecvAppendAccepted | raft_server.cpp:245-284 | Does exactly the success-response step, including where it throws half-way. |
| RaftServers.RaftServer.MarkCommitted | raft_server.cpp:257-258 | The marking loop over the log is the range marking, up to where it throws. |
| RaftServers.RaftServer.AdvanceCommit | raft_server.cpp:260-272 | The commit loop over the fields is the commit loop of the step, with its payloads and its exception. |
| RaftServers.RaftServer.RecvAppendRefused | raft_server.cpp:245-284 | A refusal changes nothing and sends that member a heartbeat again. |
| RaftServers.RaftServer.RecvAppendEntries | raft_server.cpp:286-374 | Does exactly the AppendEntries step: refusals, truncation, commit block, appends, reply. |
| RaftServers.RaftServer.TakeLeaderCommit | raft_server.cpp:336-346 | The commit block over the fields is that of the step, with its payloads. |
| RaftServers.RaftServer.AppendMessageEntries | raft_server.cpp:354-364 | The append loop over the fields is that of the step, stopping at the first refused entry. |
| RaftServers.RaftServer.RecvRequestVote | raft_server.cpp:376-400 | Does exactly the vote-request step, including clearing a vote and then refusing. |
| RaftServers.RaftServer.RecvVoteReply | raft_server.cpp:402-419 | Does exactly the vote-reply step: the flag, the count over the members, the promotion. |
| RaftServers.RaftServer.RecvEntry | raft_server.cpp:436-442 | Does exactly the client-entry step: append, reply, heartbeats to the others. |
| RaftServers.RaftServer.AppendEntry | raft_server.cpp:455-462 | Appends and counts the index up, or refuses id 0 and changes nothing. |
| RaftServers.RaftServer.ApplyEntry | raft_server.cpp:464-481 | Hands over the next entry and moves both indices, or stops at the end of the log. |
| RaftServers.RaftServer.SendAppendEntriesAll | raft_server.cpp:500-503 | Timer restarted and heartbeats to all others. |
| RaftServers.RaftServer.GetVotesForMe | raft_server.cpp:520-537 | The count of the walk is the number of recorded votes. |
| ServerTheorems.AppendManyEffect | raft_server.cpp:354-364 | The append loop takes the entries before the first one with id 0, under the server's term, and succeeds exactly if there is none. |
| ServerTheorems.ApplyAllEffect | raft_server.cpp:341-342 | Applying to exhaustion hands over everything behind the applied index, once and in order, and moves both indices to the end. |
| ServerTheorems.CommitFromLeaderEffect | raft_server.cpp:336-346 | When the commit block fires both indices become max(min(tail id, leader commit), entries kept); exactly the entries from that minimum on are handed over, and those between the old index and the minimum are skipped. |
| ServerTheorems.AppendEntriesAccepted | raft_server.cpp:286-374 | An accepted AppendEntries leaves the kept prefix followed by the message's entries under its term, the commit point above, its term, and a follower; the reply is a success exactly if every entry was appended. |
| ServerTheorems.AppendEntriesRefused | raft_server.cpp:300-332 | A message that is not accepted leaves log, term and indices untouched and is answered no. |
| ServerTheorems.CommitRuleOfThePaper | raft_server.cpp:336-342 | For any ids, an AppendEntries whose commit block fires leaves section 5.3's minimum as commit index if and only if the kept length is at most the leader commit and the tail's id, capped by it, is at most the kept length. |
| ServerTheorems.RequestVoteDecides | raft_server.cpp:376-400 | A vote is granted exactly when none of the three refusals applies, and only the vote can change. |
| ServerTheorems.VotesAreSupporters | raft_server.cpp:520-537 | The vote count is the number of distinct members on record, self included when self-voted, plus one for a server that has no node of its own and has not voted. |
| ServerTheorems.VoteReplyElects | raft_server.cpp:402-419 | A reply elects if and only if it grants and that count is at least half of the others plus one, yet less than the members. |
| ServerTheorems.TwoMembersElect | raft_server.cpp:402-415 | With two members, the reply of one that is not the server elects a server that does not lead if and only if it grants, the server has no vote of its own, and the second member, unless it is the server, is not on record. |
| ServerTheorems.TimerEffect | raft_server.cpp:210-239 | For agreeing indices a tick only counts, or sends every other member a heartbeat, or campaigns in a larger term with a request to every other member that is not the flagged leader. |
| Handlers.TimerExact | raft_server.cpp:210-239 | The whole outcome of a tick in any state: a lagging follower applies one entry or stops there; a due leader tells every other member, once each and in list order, with the leader commit counted up; any other due server asks every member but itself and the flagged leader, in the larger term; anyone else only counts. |
| Handlers.VoteReplyExact | raft_server.cpp:402-419 | The whole outcome of a vote reply: a leader ignores it; otherwise that member's flag alone changes; on a win exactly one AppendEntries, without entries and with previous index 0, goes in list order to each member that is neither the server nor flagged leader, and exactly their next indices become the index plus one. |
| Handlers.AppendEntriesExact | raft_server.cpp:286-374 | The whole outcome of an AppendEntries: refused, with log, term and indices as they were, if and only if its term is stale or, for a non-zero previous index, the log has no entry there or one of another term; otherwise the old entries up to that index, the last of them with the previous term, followed by the message's entries. |
| Handlers.RefusalExact | raft_server.cpp:274-281 | A refusal changes nothing and sends that member, with its own next index, a heartbeat. |
| Handlers.ClientEntryExact | raft_server.cpp:436-442 | The submitter is told first, yes if and only if the log grew by that entry under the current term; then every other member gets one heartbeat, in list order, and nothing else is sent. |
| Handlers.NextIndexLaw | raft_server.cpp:170-258 | Over every run a member's next index is that of its last success response, or the server's index plus one at the last election won that it was told of, whichever came later. |
| ServerTheorems.StepKeepsSound | raft_server.cpp:210-462 | Every event keeps the invariants below, never lowers term or index, and moves the index by exactly the entries it appends. |
| ServerTheorems.RunIsSound | raft_server.cpp:210-462 | In every run from the initial state: commit equals applied (the catch-up of the timer is dead code), entry terms ascend and are bounded by the current term, the index is one plus all appends ever made. |
| ServerTheorems.RunMovesForward | raft_server.cpp:210-462 | Between any two states of a run the term and index do not decrease and the members stay. |
| DoubleVotes.VoteStep | raft_server.cpp:170-419 | Every event casts the vote, takes it back or leaves it, by guards read off the state and the event. |
| DoubleVotes.SecondVoteInOneTerm | raft_server.cpp:376-400 | Over every run, after a grant for a term a later request of that term with a long enough log is granted if and only if the voter's term is still behind, or equal with the vote taken back and not cast again in between. |
| Responses.MarkRangeExact | raft_server.cpp:257-258 | For any range: marking throws exactly when the range leaves the log, and, thrown or not, adds one to exactly the covered entries the log has. |
| Responses.CommitLoopExact | raft_server.cpp:260-272 | For any target: everything passed has half the acknowledgements, the target id is not passed, nothing lets the loop go further, it hands over exactly what it passed, and throws exactly if only the end of the log stopped it. |
| Responses.CommitLoopTakesMaximalRun | raft_server.cpp:260-272 | With ids equal to positions it commits the maximal acknowledged run up to the response's index. |
| Responses.ResponseThrows | raft_server.cpp:245-284 | Any success response throws if and only if its range leaves the log, or it covers nothing and runs out of log. |
| Responses.ResponseEffect | raft_server.cpp:253-272 | Any success response, thrown or not: the sender's next index becomes the response's index and no other member changes; one acknowledgement per covered entry; then the commit loop over the new counters unless the marking threw, with the right payloads. |
| Delivery.DeliveryInOrder | raft_server.cpp:210-481 | Over every run, with elections, ticks and responses of any shape: the state machine was given exactly the applied prefix of the log, in order and once each, all along, if and only if every accepted AppendEntries was orderly. |
| Delivery.CommitBlockInOrder | raft_server.cpp:336-346 | With the applied prefix given so far, a firing commit block keeps that if and only if the tail's id is the applied index. |
| Delivery.AcceptingInOrder | raft_server.cpp:286-374 | The same for a whole accepted AppendEntries: it must also send again, unchanged, the applied entries it cuts off. |
| Delivery.CommitFalls | raft_server.cpp:336-342 | Of all events only an AppendEntries whose commit block fires over a shorter kept log with a smaller tail id lowers the commit index, and it always does. |
| Responses.CountersAreExact | raft_server.cpp:253-258 | In every run an entry's counter is the number of responses that covered it since it was appended. |
| Timing.NormaliseTimeouts | tcp/raft_tcp_server.cpp:186-195 | The timeouts satisfy the ratios and are the least that do, above what was configured. |
| Timing.FedServerNeverCampaigns | raft_server.cpp:210-239 | With these timeouts a server that gets an AppendEntries at least every ten ticks never starts an election, over runs of any length. |
| Timing.HeartbeatsExactly | raft_server.cpp:210-239 | A leader that is not alone broadcasts during any stretch of its leadership if and only if at some tick the ticks since the last AppendEntries, of whatever term, add up to the request timeout. |
| Timing.LeaderHeartbeats | raft_server.cpp:226-230 | While no AppendEntries comes in, a leader sends every other member a heartbeat at least once in any stretch of ceil(request timeout / period) ticks. |
| Quorum.OverlapWithoutOldLeader | raft_server.cpp:635-643 | Two voter sets accepted for count - 1, both without the old leader, share a voter. |
| Quorum.OverlapIffOdd | raft_server.cpp:635-643 | Among all members, any two accepted voter sets share a voter if and only if the count is odd. |
| Cluster.EverySendIsAccountable | raft_server.cpp:376-503 | Whatever a handler sends is borne out by the state: heartbeats without entries, requests with own term and index, grants only for requests not refused. |
| Cluster.TraceIsHealthy | raft_server.cpp:245-462 | In every behaviour of the cluster each server is sound and knows exactly the members, and every packet ever sent is still borne out by its sender. |
| Cluster.NothingUndeliverable | raft_server.cpp:257-258 | No packet in flight can make its receiver ask for log index 0. |
| Cluster.TraceMovesForward | raft_server.cpp:286-462 | Terms and indices never decrease anywhere, over every behaviour. |
| Elections.EveryVoteIsBacked | raft_server.cpp:376-419 | Every granted reply in flight and every vote flag, however stale, goes back to a grant by a voter whose index and term were at most the candidate's present ones. |
| Elections.LeaderHasElectorate | raft_server.cpp:402-419 | Whenever a server becomes leader, at least (N-1)/2+1 distinct members stand behind it, each but itself by an earlier grant as above. |
| Elections.ElectionsShareASupporter | raft_server.cpp:402-419 | With an odd number of members any two elections of one behaviour have a common supporter. |
| Elections.LogsAreLocal | raft_server.cpp:483-498 | In every behaviour a server's log is exactly the usable entries clients handed to that server. |
| JobPool.StepKeepsInv | tcp/raft_tcp_server.cpp:1259-1328 | Every action of every thread keeps lock counts, liveness of references, lock exclusion, wake-ups and queue order. |
| JobPool.NodeLifetime | tcp/raft_tcp_server.cpp:742-809 | Over every interleaving a node's lock count is the queued jobs naming it plus the counted references, and nothing a job names or a thread may touch up to the end of its exclusive section was deleted, save by that thread in that section. |
| JobPool.OwnJobNode | tcp/raft_tcp_server.cpp:1112-1128 | The node of the job handled in an exclusive section is gone if and only if the handling thread deleted it in that section. |
| JobPool.FreeFindsNoClaim | raft_server.cpp:79-90 | The step that deletes a node finds no queued job, no counted reference and no other thread that may touch it. |
| JobPool.MarkedNodeDrains | raft_server.cpp:79-90 | From marking to deletion the lock count waited for never grows. |
| PoolRuns.MarkedByAMark | raft_node.cpp:22-43 | Over every interleaving a live node is marked for deletion if and only if an earlier step marked it. |
| PoolRuns.MarkedJobsAreSkipped | tcp/raft_tcp_server.cpp:1298-1304 | An extracted job is skipped if and only if an earlier step marked its node. |
| PoolRuns.SemaphoreCounts | tcp/raft_tcp_server.cpp:1284-1295 | Over every interleaving the semaphore holds the posts, those of the stop included, less the waits. |
| PoolRuns.ThreadOrder | tcp/raft_tcp_server.cpp:742-1328 | Over every interleaving consecutive steps of one thread follow the order of the source; the exclusive lock is taken at once exactly for a message; a counted job names the node that was checked; a job without node is a connection exactly if its producer holds no lock. |
| PoolRuns.ComposerReturns | tcp/raft_tcp_server.cpp:1259-1286 | A thread that composes, adds and posts a job is afterwards where it was, with the same lock and node at hand. |
| PoolRuns.CheckerReturns | tcp/raft_tcp_server.cpp:783-809 | The same for a thread that checks and counts a node first. |
| PoolRuns.OnlyAStopEnds | tcp/raft_tcp_server.cpp:1294-1297 | Jobs are dropped and workers leave only after a stop. |
| JobPool.NoLostWakeUp | tcp/raft_tcp_server.cpp:1284-1328 | If the semaphore is zero and no post or woken worker is outstanding, the queue is empty, also after the early exit for marked nodes. |
| JobPool.JobsInOrder | tcp/raft_tcp_server.cpp:1283-1297 | Over every interleaving the jobs workers found themselves with are those producers added, in that order, none lost, none twice. |
| Fifos.Fifo.AddElement | include/common/impl.lists.hpp:160-168 | The doubly linked queue refines a sequence: the element goes to the back, in an item of its own. |
| Fifos.Fifo.Extract | include/common/impl.lists.hpp:185-202 | Takes the oldest element exactly when there is one, and deletes its item. |
| Fifos.Fifo.Clear | include/common/impl.lists.hpp:94-100 | Every live item is deleted. |
| TableSize.RoundedSize | include/common/impl.common_hashtbl.hpp:176-194 | The shifting loop yields the least power of two not below the requested size, the default for 0. |
| TableSize.MaskIsRemainder | include/common/impl.common_hashtbl.hpp:236-254 | Masking with the size less one is the remainder, so every bucket index is in range. |
| HashTables.HashTbl.constructor | include/common/impl.common_hashtbl.hpp:176-194 | An empty table whose size is the least power of two not below the request, the default for 0. |
| HashTables.HashTbl.FindEntry | include/common/impl.common_hashtbl.hpp:289-306 | Finds the newest entry of the key, or nothing exactly if there is none. |
| HashTables.HashTbl.AddEntry2 | include/common/impl.common_hashtbl.hpp:236-254 | Pushes a new entry, which owns a copy of the key, on the key's stack and leaves the stack of every other key, same chain or not. |
| HashTables.HashTbl.RemoveEntry2 | include/common/impl.common_hashtbl.hpp:265-286 | Pops the key's newest entry, exposing the older one; that entry's key buffer, and no other, is freed; every other key is left. |
| HashTables.HashTbl.MoveContentToEmptyHash | include/common/impl.common_hashtbl.hpp:309-324 | The empty table gets every stack and the other is empty afterwards. |
| LinkedLists.ListSpecial.AddDataRaw | include/common/impl.lists.hpp:42-51 | The list, spelled out forwards and backwards, gains the node at its end. |
| LinkedLists.ListSpecial.RemoveDataRaw | include/common/impl.lists.hpp:54-63 | The list loses exactly that node and its successor is answered. |
| LinkedLists.ListSpecial.MoveContentToOtherList | include/common/impl.lists.hpp:66-75 | The other list continues with this one's nodes in order; this one is empty. |
| LinkedLists.ListSpecial.MoveItemToOtherList | include/common/impl.lists.hpp:78-83 | One node goes from its place to the end of the other list. |
| Registries.Registry.KeysDistinct | include/common/impl.listspecialandhashtbl.hpp:23-35 | In a registry whose list and table agree no key occurs twice. |
| Registries.Registry.KeysAreReadable | include/common/impl.listspecialandhashtbl.hpp:23-35 | The key of every listed node lies in the live buffer of its own hash entry. |
| Registries.Registry.FindEntry | include/common/impl.listspecialandhashtbl.hpp:59-63 | Finds a node exactly when it is listed with the key. |
| Registries.Registry.AddData | include/common/impl.listspecialandhashtbl.hpp:23-35 | Adds at the end exactly when the key is new; list, table and count go on describing the same nodes. |
| Registries.Registry.RemoveData | include/common/impl.listspecialandhashtbl.hpp:38-45 | Defined if and only if the node's key is not in a freed buffer; a listed node leaves both, its key is freed, its successor is answered; the registry stays sound if and only if the node was listed or its key was nobody's. |
| Registries.Registry.RemoveDataByKey | include/common/impl.listspecialandhashtbl.hpp:48-56 | The same for the node with the key; nothing changes if there is none. |
| Registries.Registry.MoveItemToOtherList | include/common/impl.listspecialandhashtbl.hpp:84-91 | Conserves the nodes and keys of both registries; the receiving one stays sound if and only if it did not have the key. |
| Registries.Registry.MoveContentToOtherList | include/common/impl.listspecialandhashtbl.hpp:66-81 | Appends all nodes in order and leaves both registries sound and apart, unless both had members: then, and only then, the next key is read from a buffer just freed. |
| Membership.AddNode | raft_server.cpp:99-112 | A fresh unflagged member at the end exactly when the key is new. |
| Membership.RemoveNode | raft_server.cpp:79-90 | The member with the key leaves the registry and the others keep their order. |
| Membership.ClearAllNodes | raft_server.cpp:133-144 | Following the answered successors empties the registry. |
| Membership.CollectAllNodesData | tcp/raft_tcp_server.cpp:361-383 | The keys in list order and the position of the last flagged member, or -1. |
| Membership.RebuildTable | tcp/raft_tcp_server.cpp:1573-1589 | Adds the snapshot's unknown keys in order and flags the leader's; a leader is answered exactly if its key was unknown. |
| Membership.JoinRoundTrip | tcp/raft_tcp_server.cpp:1573-1589 | Rebuilding from what was collected gives the same members in the same order with the same flag, if and only if at most one is flagged. |
| FifoFasts.FifoFast.constructor | include/common/impl.common_fifofast.hpp:102-118 | An empty queue with a full stock of distinct entries. |
| FifoFasts.FifoFast.AddElement | include/common/impl.common_fifofast.hpp:140-162 | Adds at the back exactly below the maximum; the stock holds max(0, stock size - elements) entries, disjoint from the queued ones. |
| FifoFasts.FifoFast.Extract | include/common/impl.common_fifofast.hpp:232-261 | Takes the front exactly when there is one; the stock never overflows and no live entry is lost. |
| FifoFasts.FifoFast.Destroy | include/common/impl.common_fifofast.hpp:121-137 | Every live entry is deleted, and each only once. |
| FifoFasts.FifoFast.MemoryHeld | include/common/impl.common_fifofast.hpp:140-261 | The entries held are always max(stock size, elements) in number. |
| Handles.Process.NewSocket | common/common_socketbase.cpp:34-38 | A new handle is closed, unlinked and leaves all accounts as they were. |
| Handles.Process.CloseC | common/common_iodevice.cpp:27-39 | The other handles are linked as before, past this one, and stay chains; the descriptor is closed, once, exactly if the handle shares it with no other. |
| Handles.Process.SetNewSocketDescriptor | common/common_socketbase.cpp:129-133 | Closes what the handle had and makes it the only holder of the new descriptor. |
| Handles.Process.Assign | common/common_iodevice.cpp:42-58 | Joins the other handle's sharers; links stay chains and every descriptor accounted for if and only if the target held nothing to close. |
| Handles.Process.GetAndResetSocket | common/common_socketbase.cpp:143-149 | Hands the descriptor over unclosed; links stay chains if and only if it was shared with nobody. |
| Handles.Process.UnsharedIsLast | common/common_iodevice.cpp:27-39 | With one chain holding the descriptor, a handle is unlinked exactly when no other handle has it, so the close falls to the last sharer. |
| Handles.Process.OpenIsNotClosed | common/common_iodevice.cpp:27-58 | A descriptor adopted once is not closed while any handle has it. |
| Handles.Process.AllClosed | common/common_socketbase.cpp:41-69 | When all handles are closed every positive descriptor was closed as often as it was adopted. |
| Witnesses.DoubleVote | raft_server.cpp:376-400 | A behaviour of a fresh cluster of three in which one member grants two candidates of one term. |
| Witnesses.VoteTakenBack | raft_server.cpp:379-390 | A run in which a member whose term is not behind grants two candidates of that term. |
| Witnesses.PairElects | raft_server.cpp:402-415 | A behaviour of a fresh cluster of two that elects a leader whose own vote was taken back. |
| Witnesses.ThrowingResponse | raft_server.cpp:253-258 | A behaviour of a fresh cluster of two whose last response throws. |
| Witnesses.EntryStaysLocal | raft_server.cpp:483-498 | A behaviour in which an entry is appended, its heartbeat arrives, and the receiver's log stays empty. |
| Witnesses.LostEntries | raft_server.cpp:336-342 | A run that applies three entries and hands over one, then lowers the commit index. |
| Witnesses.DisjointQuorums | raft_server.cpp:635-643 | Four members with two disjoint accepted voter sets. |
| Witnesses.TwoFlagJoin | tcp/raft_tcp_server.cpp:1573-1589 | A join that drops one of two leader flags. |
| Witnesses.AssignOverOpen | common/common_socketbase.cpp:109-114 | An assignment that loses an open descriptor. |
| PoolWitness.OwnNodeFreed | tcp/raft_tcp_server.cpp:1117-1126 | An interleaving of one producer and one worker that ends with the worker holding a pointer to the node it deleted. |
| Witnesses.SilencedLeader | raft_server.cpp:286-305 | A run whose leader, refusing one stale AppendEntries between two ticks, stays leader and sends nothing although the ticks add up to the request timeout. |
| Witnesses.MoveBothFull | include/common/impl.listspecialandhashtbl.hpp:71-79 | Moving one member to a registry that has another reads a freed key. |
| Witnesses.MoveOntoTaken | include/common/impl.listspecialandhashtbl.hpp:84-91 | Moving a member to a registry that has its key spoils that registry. |
| Witnesses.RemoveTwice | include/common/impl.listspecialandhashtbl.hpp:38-45 | Removing a node a second time reads its freed key. |
| Witnesses.ResetShared | common/common_socketbase.cpp:143-149 | Taking a shared descriptor out of one handle leaves the other linked to it. |

## Left out

- Sockets, name resolution, signals, thread creation, files and printing; byte swapping and the wire layout.
- The TCP subclass's own `become_leader` and `become_candidate`, and its leader pointer outside the table rebuild; in the pool a worker may remove any node.
- Textbook Election Safety, at most one vote per term and Leader Completeness: these handlers do not establish them.
- Liveness: that the wait in `RemoveNode1` ends, that elections end.
- The shared-lock phase after a worker's exclusive section, where the code holds no counted reference; exceptions thrown inside workers.
- Overflow of terms, indices and counts: integers are unbounded.
- Log index 0 on a non-empty log, which passes the source's guard and reads before the vector: lookups exclude it, and `Cluster.NothingUndeliverable` shows that no cluster message asks for it.
- The 64-entry cap of a message and allocation failure.
- The hash is an arbitrary function of the key; `HashTblRaw`, `SimpleStack` and `FifoAndStack`, which the server does not use.
- `AddElement2`, `AddElementMv` and `ExtractMv`, which differ from their siblings only in moving the value; the mutexes of the queues.
- JobPool.JobsInOrder: the pool holds its queue as a sequence, which `Fifos.Fifo` refines one call at a time.
- Registries.Registry.MoveContentToOtherList: promises nothing after a key was read from a freed buffer.
- Registries.Registry.RemoveData: promises nothing after a key was read from a freed buffer, and for an unlisted node with a member's key it stops at the deleted hash entry; the unlinking of that node from no list is not modelled.
- Handles.Process.CloseC: descriptor 0 counts as open but is never closed by the source, so the accounts are about positive descriptors.
- Membership.RemoveNode: the marking and the wait for the lock count are in JobPool.
