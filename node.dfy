/**
 * One server process and the three blobs it keeps in its key-value store:
 * the pending queue (`msg_queue`), the replicated log (`raft_log`) and the
 * peer list (`peers`). Each blob is only ever loaded whole and stored whole,
 * so each is a field that the methods below reassign. The role flag is set
 * once, when the process starts.
 */
module Nodes {
  import opened RaftLog
  import opened Messages
  import opened Server
  import opened Connections

  class Node {
    const isLeader: bool
    var queue: seq<AppendEntryRequestMessage>
    var log: seq<LogEntry>
    var peers: seq<Addr>

    /** A process with the role from its startup argument, over whatever its
        store file already holds. */
    constructor (isLeader: bool, storedQueue: seq<AppendEntryRequestMessage>,
                 storedLog: seq<LogEntry>, storedPeers: seq<Addr>)
      ensures this.isLeader == isLeader
      ensures queue == storedQueue && log == storedLog && peers == storedPeers
    {
      this.isLeader := isLeader;
      queue, log, peers := storedQueue, storedLog, storedPeers;
    }

    /** The queue and the log, the two blobs a drain cycle touches. */
    function Stored(): Persisted
      reads this
    {
      Persisted(queue, log)
    }

    /** `init_message_queue` (src/message.rs): store an empty queue. */
    method InitMessageQueue()
      modifies this
      ensures queue == [] && log == old(log) && peers == old(peers)
    {
      queue := [];
    }

    /** `initialize_raft_log` (src/log.rs): store an empty log. */
    method InitializeRaftLog()
      modifies this
      ensures log == [] && CheckEmptyLog(log)
      ensures queue == old(queue) && peers == old(peers)
    {
      log := [];
    }

    /** `write_new_message_queue`: replace the stored queue. */
    method WriteNewMessageQueue(deque: seq<AppendEntryRequestMessage>)
      modifies this
      ensures queue == deque && log == old(log) && peers == old(peers)
    {
      queue := deque;
    }

    /** `get_message_queue`: load the stored queue. */
    method GetMessageQueue() returns (deque: seq<AppendEntryRequestMessage>)
      ensures deque == queue
    {
      deque := queue;
    }

    /** `process_next_message`: one drain cycle. The shortened queue is
        stored before the log is even loaded; an empty log receives the
        popped entry, a non-empty one is only validated. */
    method ProcessNextMessage() returns (outcome: Outcome)
      requires CycleSafe(Stored())
      modifies this
      ensures Cycle(Stored(), outcome) == ProcessNext(old(Stored()))
      ensures peers == old(peers)
    {
      var deque := GetMessageQueue();
      if deque == [] {
        outcome := QueueEmpty;
        return;
      }
      var nextMessage := deque[0];
      deque := deque[1..];
      WriteNewMessageQueue(deque);

      var entry := nextMessage.payload.logEntry;
      var raftLog := log;
      if raftLog == [] {
        raftLog := raftLog + [entry];
        log := raftLog;
        outcome := LogBootstrapped(entry);
        return;
      }
      var verdict := ValidateLogEntry(entry, raftLog);
      outcome := Checked(entry, verdict);
    }

    /** `do_leader_workload`: while the process is the leader, run drain
        cycles; here `rounds` of them (the ten-second sleeps are not
        modelled). A follower runs none. */
    method DoLeaderWorkload(rounds: nat) returns (outcomes: seq<Outcome>)
      requires isLeader ==> DrainSafe(Stored(), rounds)
      modifies this
      ensures isLeader ==> Run(Stored(), outcomes) == Drain(old(Stored()), rounds)
      ensures !isLeader ==> outcomes == [] && Stored() == old(Stored())
      ensures peers == old(peers)
    {
      ghost var start := Stored();
      outcomes := [];
      var i := 0;
      while isLeader && i < rounds
        invariant 0 <= i <= rounds
        invariant !isLeader ==> i == 0 && outcomes == [] && Stored() == start
        invariant isLeader ==> DrainSafe(Stored(), rounds - i)
        invariant isLeader ==>
          (Drain(start, rounds) ==
           Run(Drain(Stored(), rounds - i).store, outcomes + Drain(Stored(), rounds - i).outcomes))
        invariant peers == old(peers)
      {
        ghost var before := Stored();
        DrainSafeStep(before, rounds - i);
        var outcome := ProcessNextMessage();
        assert Drain(before, rounds - i).outcomes == [outcome] + Drain(Stored(), rounds - i - 1).outcomes;
        outcomes := outcomes + [outcome];
        i := i + 1;
      }
    }

    /** `append_entry_handler`: acknowledge, then store the queue that was
        loaded before the call with the message pushed at the back. */
    method AppendEntryHandler(deque: seq<AppendEntryRequestMessage>,
                              message: AppendEntryRequestMessage)
      returns (effects: seq<Effect>)
      modifies this
      ensures queue == deque + [message]
      ensures effects == [SendHealthcheck(GetHealthcheckRespMsg()), StoreQueue(queue)]
      ensures log == old(log) && peers == old(peers)
    {
      effects := [SendHealthcheck(GetHealthcheckRespMsg())];
      var updated := deque + [message];
      WriteNewMessageQueue(updated);
      effects := effects + [StoreQueue(updated)];
    }

    /** `connection_handler` after the socket read: shut down on a failed
        read, otherwise run each handler whose tag occurs in the text. */
    method ConnectionHandler(inbound: Inbound, local: Addr, localId: u64)
      returns (effects: seq<Effect>)
      modifies this
      ensures Handled(effects, queue) == Dispatch(inbound, old(queue), local, localId)
      ensures log == old(log) && peers == old(peers)
    {
      if inbound.ReadFailed? {
        effects := [Shutdown];
        return;
      }
      var text := inbound.text;
      effects := [];
      if Contains(text, Tag(Healthcheck)) {
        effects := effects + [SendHealthcheck(GetHealthcheckRespMsg())];
      }
      if Contains(text, Tag(AppendEntry)) {
        if inbound.asAppendEntry.None? {
          effects := effects + [Panic];
          return;
        }
        var deque := GetMessageQueue();
        var handled := AppendEntryHandler(deque, inbound.asAppendEntry.value);
        effects := effects + handled;
      }
      if Contains(text, Tag(RequestVote)) {
        if inbound.asRequestVote.None? {
          effects := effects + [Panic];
          return;
        }
        effects := effects + [SendVoteReply(RequestVoteReply(inbound.asRequestVote.value, local, localId))];
      }
    }

    /** `set_raft_cluster_peers`: walk the pool and push every address whose
        port is not the bound one, then store the list. */
    method SetRaftClusterPeers(pool: seq<Addr>, boundPort: u16)
      modifies this
      ensures peers == Peers(pool, boundPort)
      ensures queue == old(queue) && log == old(log)
    {
      var clusterPeers: seq<Addr> := [];
      for i := 0 to |pool|
        invariant clusterPeers == Peers(pool[..i], boundPort)
      {
        assert pool[..i + 1][..i] == pool[..i];
        if pool[i].port != boundPort {
          clusterPeers := clusterPeers + [pool[i]];
        }
      }
      assert pool[..|pool|] == pool;
      peers := clusterPeers;
    }

    /** `broadcast_request_vote`: one vote request per stored peer, in
        order, each built from the stored log. */
    method BroadcastRequestVote() returns (sent: seq<VoteRequest>)
      requires peers != [] && log != [] ==> Last(log).leaderTerm < MaxInt32
      ensures peers == [] ==> sent == []
      ensures peers != [] ==> IsBroadcast(sent, peers, log)
    {
      sent := [];
      for i := 0 to |peers|
        invariant |sent| == i
        invariant forall k :: 0 <= k < i ==>
          sent[k] == VoteRequest(peers[k], GenerateRequestVotePayload(log))
      {
        var raftLog := log;
        var payload := GenerateRequestVotePayload(raftLog);
        sent := sent + [VoteRequest(peers[i], payload)];
      }
    }

    /** One round of `init_election_timer`: count down ten steps, then
        broadcast. */
    method InitElectionTimer() returns (rounds: nat, sent: seq<VoteRequest>)
      requires peers != [] && log != [] ==> Last(log).leaderTerm < MaxInt32
      ensures rounds == 10
      ensures peers == [] ==> sent == []
      ensures peers != [] ==> IsBroadcast(sent, peers, log)
    {
      rounds := ElectionCountdown();
      sent := BroadcastRequestVote();
    }

    /** `setup_tcp_listener` up to the accept loop, for a listener bound to
        `boundPort`, one of the pool's ports: empty queue and log, the peer
        list of the fixed pool, and the background task of the role. */
    method SetupTcpListener(boundPort: u16) returns (task: Task)
      requires 8001 <= boundPort <= 8005
      modifies this
      ensures queue == [] && log == []
      ensures peers == Peers(AddressPool(), boundPort) && |peers| == 4
      ensures task == StartupTask(isLeader)
    {
      InitMessageQueue();
      InitializeRaftLog();
      SetRaftClusterPeers(AddressPool(), boundPort);
      FixedPoolLeavesFourPeers(boundPort);
      task := StartupTask(isLeader);
    }
  }

  /** What a caller can rely on: the queue loaded after a store is the one
      stored. */
  method StoredQueueRoundTrip(node: Node, deque: seq<AppendEntryRequestMessage>)
    returns (loaded: seq<AppendEntryRequestMessage>)
    modifies node
    ensures loaded == deque
  {
    node.WriteNewMessageQueue(deque);
    loaded := node.GetMessageQueue();
  }
}
