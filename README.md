# poncho-raft core in Dafny

A model of the core of poncho-raft, a minimal Raft-inspired server written in
Rust. Each process is a LEADER or a FOLLOWER. It keeps three blobs in a
key-value store: the pending queue of APPEND_ENTRY requests (`msg_queue`),
the replicated log (`raft_log`) and the peer list (`peers`).

- `raft_log.dfy` (module `RaftLog`) holds the log entry and the validation
  rules of `src/log.rs`. Rule 1 is "no holes", rule 2 is prev-term
  continuity, rule 3 is duplicate detection. They are chained in that order,
  and the first rule that fails decides. The module also holds the
  stale-term test, its replacement, and the non-mutating append.
- `messages.dfy` (module `Messages`) holds the message shapes of
  `src/message.rs` and the vote-request payload. It also specifies one
  `process_next_message` cycle (`ProcessNext`) and a run of cycles (`Drain`).
  The lemmas about `Drain` are proved by induction.
- `server.dfy` (module `Server`) holds the fixed address pool, the peer
  filter, the election countdown and the choice of background task from
  `src/server.rs`.
- `connections.dfy` (module `Connections`) specifies `connection_handler`
  after the socket read. It runs three independent substring tests, in
  order, and it builds the always-granted vote reply.
- `node.dfy` (module `Nodes`) holds class `Node`. Its fields `queue`, `log`
  and `peers` are the three blobs, and `isLeader` is the role flag set at
  startup. Its methods are the imperative code: the drain cycle, the leader
  loop, the dispatcher, the APPEND_ENTRY enqueue, the peer loop, the
  countdown-then-broadcast, and startup. Each method is proved against the
  specification functions above.

Behaviour the model keeps as written:

- On a non-empty log, a drain cycle only reports the verdict and never
  appends. So the drain can add at most one entry, the bootstrap entry, to a
  log that starts empty (`DrainBootstrapsOnce`, `DrainKeepsNonEmptyLog`).
- Rule 1 accepts only `prevIndex <= |log| - 2`. A one-entry log rejects every
  `prevIndex >= 0`. An entry that names the current last index as its
  predecessor is always rejected (`SuccessorOfLastIsRejected`).
- The stale-term replacement returns exactly `[entry]`. It drops the whole
  old log, not a suffix. Nothing in the validation path calls it.
- The dispatcher's tests are three independent `if`s. A text with two tags
  runs two handlers.
- A REQUEST_VOTE is always granted, and the request's term is echoed back.
- `setup_tcp_listener` calls `init_election_timer` on the main thread. That
  function joins its timer thread and then calls itself again. So a
  FOLLOWER never reaches the accept loop, unless a timer round panics: then
  the join fails, the nested calls return, and startup goes on to accept. The model has one timer round and
  does not model this restart.

Values the process gets from outside become parameters:
- what the socket read returned, and what JSON decoding of that text yields
  (`Inbound`);
- the listener's local address and its hash (`local`, `localId`);
- the bound port;
- the number of drain rounds.

Output to the socket and the console becomes a result value: the `Effect`
list of the dispatcher, the `Outcome` of a drain cycle, and the list of
`VoteRequest`s of a broadcast.

## Model

| member | source | states |
|---|---|---|
| `RaftLog.CheckNoHolesAllowed` | src/log.rs:66-73 | passes iff `prevIndex + 1 < |log|`; needs `prevIndex < i32::MAX` because the `+ 1` is an `i32` addition |
| `RaftLog.OneEntryLogRejectsNonNegativeIndex` | src/log.rs:167-189 | a one-entry log fails rule 1 for every `prevIndex >= 0` (5 included), and validation returns `InvalidPrevIndex` |
| `RaftLog.SuccessorOfLastIsRejected` | src/log.rs:63-73 | an entry whose `prevIndex` is the log's last index is always rejected by rule 1 |
| `RaftLog.CheckPrevTerm` | src/log.rs:79-87 | on a non-empty log, passes iff the entry's `prevTerm` equals the last entry's `prevTerm` |
| `RaftLog.PrevTermReadsOnlyPrevTerm` | src/log.rs:220-242 | two entries with equal `prevTerm` get the same rule-2 answer, whatever their leader terms and indices |
| `RaftLog.CheckEmptyLog` | src/log.rs:93-95 | true iff the log is empty |
| `RaftLog.IsDuplicateEntry` | src/log.rs:101-111 | the flag loop returns true iff some existing entry equals the new one field for field; false on an empty log |
| `RaftLog.ValidateLogEntry` | src/log.rs:36-50 | the verdict is that of the first failing check, in the order no-holes, prev-term, duplicate; a later check decides only if the earlier ones pass; `Valid` iff all three pass; needs a non-empty log unless `prevIndex >= -1` |
| `RaftLog.EmptyLogRejectsAtFirstCheck` | src/log.rs:36-43 | on an empty log every entry with `prevIndex >= -1` is rejected by rule 1, so the panicking prev-term check is never reached |
| `RaftLog.RepeatedEntryIsRejected` | src/log.rs:98-111 | an entry is never accepted by a log that already ends with it: it fails rule 1 or rule 3 |
| `RaftLog.AcceptedEntryIsFresh` | src/log.rs:36-50 | an accepted entry is absent from the log, its `prevIndex` is at most `|log| - 2`, and its `prevTerm` matches the last entry |
| `RaftLog.AppendEntry` | src/log.rs:52-61 | always `Ok`; the length grows by one, the old entries are an unchanged prefix, and the new entry is last |
| `RaftLog.IsEntryEarlierTerm` | src/log.rs:118-124 | on a non-empty log, true iff the entry's leader term is below the last entry's leader term |
| `RaftLog.ReplaceExistingEntriesEarlierTerm` | src/log.rs:125-129 | the new log is exactly the one new entry, whatever the prior log held |
| `RaftLog.ReplacedLogIsNotStale` | src/log.rs:113-129 | after the replacement the new entry is not stale against its own log; another entry is stale iff its term is lower |
| `Messages.GenerateRequestVotePayload` | src/message.rs:130-145 | an empty log gives `{0, 0, 1}`; otherwise the last entry's commit index and term; the proposed term is always one above `lastLogTerm` |
| `Messages.VotePayloadDependsOnLastEntry` | src/message.rs:137-144 | only the last entry of the log decides the payload |
| `Messages.GetHealthcheckRespMsg` | src/message.rs:154-159 | type HEALTHCHECK with payload `"ok"` |
| `Messages.ProcessNext` | src/message.rs:88-122 | an empty queue changes nothing; otherwise the front is popped; an empty log becomes exactly `[front entry]`; a non-empty log is unchanged whether validation accepts or rejects, and the verdict is reported |
| `Messages.Drain` | src/leader.rs:66-79 | `n` drain cycles in a row report `n` outcomes |
| `Messages.DrainPopsFront` | src/message.rs:95-98 | after `n` cycles the queue is the old queue without its first `min(n, |queue|)` messages |
| `Messages.DrainKeepsNonEmptyLog` | src/message.rs:114-121 | a non-empty log is never changed by any number of cycles |
| `Messages.DrainBootstrapsOnce` | src/message.rs:100-112 | draining into an empty log leaves exactly the first queued entry in it |
| `Messages.DrainVisitsInOrder` | src/message.rs:90-100 | cycle `i` handles queued message `i`, once and in FIFO order; cycles after the queue runs dry report an empty queue |
| `Messages.PushThenPopReturnsMessage` | src/message.rs:207-225 | a message pushed onto an empty queue is the one the next cycle pops, and the queue is then empty |
| `Messages.PushCommutesWithPop` | src/message.rs:88-98 | pushing at the back of a non-empty queue does not change what the next cycle pops or does to the log |
| `Connections.RequestVoteReply` | src/connection_handler.rs:76-88 | always `granted`, the term echoed from the request, type REQUEST_VOTE, sent from the local address |
| `Connections.EveryCandidateIsGranted` | src/connection_handler.rs:77-82 | two different candidates asking for the same term both get an identical granted reply |
| `Connections.Dispatch` | src/connection_handler.rs:16-50 | a failed read only shuts down; no tag means no effect and no queue change; the queue changes only when the APPEND_ENTRY handler runs, by pushing the decoded message at the back; the ack is sent iff the text has the HEALTHCHECK tag or the APPEND_ENTRY handler runs, and it always precedes the queue store; HEALTHCHECK replies first when tagged; a vote reply is sent iff the REQUEST_VOTE handler runs; every vote reply grants; a panic occurs iff a tagged APPEND_ENTRY or REQUEST_VOTE text fails to decode, and it ends the trace; a successful read never shuts down; a vote reply is always the last effect; after a successful read the trace length is one for the HEALTHCHECK tag, two when the APPEND_ENTRY handler runs, one when the REQUEST_VOTE handler runs, and one for a panic (which effects these are is stated by `Connections.DispatchAcksThenStores`) |
| `Connections.DispatchAcksThenStores` | src/connection_handler.rs:25-43 | every healthcheck response written is the canned "ok" ack; when the APPEND_ENTRY handler runs, its ack and then its store come right after the HEALTHCHECK ack (if any), so a text with both tags is acknowledged twice; a panic is the last effect, so there is at most one |
| `Connections.AllTagsRunAllHandlers` | src/connection_handler.rs:25-43 | a text with all three tags runs all three handlers in order: ack, ack, queue store, vote reply |
| `Connections.EnqueuedMessageHandledAfterBacklog` | src/connection_handler.rs:64-73 | a message enqueued behind `k` others is handled by drain cycle `k` |
| `Server.AddressPool` | src/server.rs:50-56 | five addresses; address `k` is 127.0.0.1 with port `8001 + k` |
| `Server.Peers` | src/server.rs:21-31 | every peer is in the pool and does not have the bound port; every pool address with another port is a peer |
| `Server.PeersKeepPoolOrder` | src/server.rs:26-30 | any two peers appear in the same order as they do in the pool |
| `Server.PeersDropOnlyBoundAddress` | src/server.rs:26-31 | with distinct ports, the peer list is the pool minus the one address with the bound port, if it has one |
| `Server.FixedPoolLeavesFourPeers` | src/server.rs:50-61 | a listener bound to one of the five pool ports has exactly four peers, none with its port |
| `Server.ElectionCountdown` | src/server.rs:111-123 | the countdown from 10 by steps of 1 to 0 runs exactly 10 rounds |
| `Server.StartupTask` | src/server.rs:78-83 | a leader starts the workload loop, and a follower starts the election timer |
| `Nodes.Node.constructor` | src/server.rs:45-47 | the role flag is fixed once from the startup argument |
| `Nodes.Node.InitMessageQueue` | src/message.rs:81-85 | the stored queue becomes empty; the log and peers are untouched |
| `Nodes.Node.InitializeRaftLog` | src/log.rs:23-29 | the stored log becomes empty |
| `Nodes.Node.WriteNewMessageQueue` | src/message.rs:124-127 | the stored queue becomes the given queue |
| `Nodes.Node.GetMessageQueue` | src/connection_handler.rs:113-116 | returns the stored queue |
| `Nodes.StoredQueueRoundTrip` | src/message.rs:124-127 | a load after a store returns the stored queue |
| `Nodes.Node.ProcessNextMessage` | src/message.rs:88-122 | the new queue, log and report are those of `ProcessNext` on the old queue and log; peers are untouched |
| `Nodes.Node.DoLeaderWorkload` | src/leader.rs:66-79 | a leader's rounds leave queue, log and reports equal to `Drain`; a follower runs none |
| `Nodes.Node.AppendEntryHandler` | src/connection_handler.rs:64-73 | sends the "ok" ack, then stores the loaded queue with the message at the back; nothing else changes |
| `Nodes.Node.ConnectionHandler` | src/connection_handler.rs:16-50 | effects and new queue are those of `Dispatch` on the old queue; the log and peers are untouched |
| `Nodes.Node.SetRaftClusterPeers` | src/server.rs:21-38 | the stored peer list becomes `Peers(pool, boundPort)` |
| `Nodes.Node.BroadcastRequestVote` | src/server.rs:141-154 | one vote request per peer, in peer order, each carrying the payload of the current log; none with no peers |
| `Nodes.Node.InitElectionTimer` | src/server.rs:109-128 | 10 countdown rounds, then one broadcast round |
| `Nodes.Node.SetupTcpListener` | src/server.rs:45-83 | empty queue and log, four peers from the fixed pool, and the task chosen by the role |

## Left out

- TCP plumbing is not modelled. This covers connect, accept, read, write and
  shutdown, the 1024-byte read buffer, and UTF-8 decoding with its `expect`.
  A read becomes an `Inbound` value and writes become `Effect`s.
- serde_json is not modelled. Serialization is treated as a lossless round
  trip, and a decode failure is the `None` case of `Inbound`.
- The derived hashes (`calculate_hash`) are not modelled. Equal hashes are
  treated as structural equality, so hash collisions are not modelled.
- `src_id` is the hash of a socket address. For replies it is the `localId`
  parameter.
- Threads and sleeps are not modelled: the thread per connection, the
  ten-second and one-second sleeps, and the threads joined per peer.
- The race on the stored blobs is not modelled. Concurrent load-then-store
  can lose an update.
- The election timer's recursive restart is not modelled. One round is
  modelled, as `InitElectionTimer`.
- Nodes.Node.DoLeaderWorkload runs a given number of cycles. `do_leader_workload` loops
  forever while the node is the leader.
- RaftLog.CheckNoHolesAllowed does not model the `as i32` cast of a log
  length of 2^31 or more.
- The `i32` additions `prevIndex + 1` and `leaderTerm + 1` panic in a debug
  build and wrap in a release build at `i32::MAX`; the model excludes both by
  `requires`.
- `pop_back().unwrap()` on an empty log is a precondition, not modelled as
  an error.
- `setup_tcp_listener` panics when no pool address is free to bind. This is
  a precondition: the bound port is one of the pool's ports.
- `src/kv_store.rs` (pickledb) is replaced by the three `Node` fields. The
  `"Bad-Key!"` value for an absent key can only cause a decode panic, and
  it cannot arise once the fields exist.
- The client side is not modelled: `src/cmd.rs`, `src/main.rs`,
  `send_healthcheck_message`, `append_entry_request`, `handle_resp`, and the
  dummy request builders. `request_vote` is modelled only as the
  `VoteRequest` it sends.
- The `state::Container` global is not modelled. `IS_LEADER` becomes the
  constant field `isLeader`.
