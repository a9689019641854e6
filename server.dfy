/**
 * Node bookkeeping from src/server.rs: the fixed address pool, the peer
 * set computed from it, the election countdown and the startup role.
 */
module Server {
  import RaftLog
  import opened Messages

  /** The five candidate addresses, 127.0.0.1:8001 to 127.0.0.1:8005. */
  function AddressPool(): (pool: seq<Addr>)
    ensures |pool| == 5
    ensures forall k :: 0 <= k < 5 ==> pool[k] == Addr(Ipv4(127, 0, 0, 1), (8001 + k) as u16)
  {
    var localhost := Ipv4(127, 0, 0, 1);
    [Addr(localhost, 8001), Addr(localhost, 8002), Addr(localhost, 8003),
     Addr(localhost, 8004), Addr(localhost, 8005)]
  }

  /** The peer list: the pool's addresses, in pool order, whose port differs
      from the port the listener is bound to. Written from the back, as the
      `set_raft_cluster_peers` builds it with `push_back`. */
  function Peers(pool: seq<Addr>, boundPort: u16): (peers: seq<Addr>)
    ensures forall a :: a in peers ==> a in pool && a.port != boundPort
    ensures forall a :: a in pool && a.port != boundPort ==> a in peers
    ensures |peers| <= |pool|
    decreases |pool|
  {
    if pool == [] then
      []
    else
      var earlier := Peers(pool[..|pool| - 1], boundPort);
      var address := pool[|pool| - 1];
      if address.port != boundPort then earlier + [address] else earlier
  }

  /** Peer order follows pool order: two peers appear in the same relative
      order as some two distinct positions of the pool. */
  lemma {:induction false} PeersKeepPoolOrder(pool: seq<Addr>, boundPort: u16, i: nat, j: nat)
    requires i < j < |Peers(pool, boundPort)|
    ensures exists p, q ::
      && 0 <= p < q < |pool|
      && pool[p] == Peers(pool, boundPort)[i]
      && pool[q] == Peers(pool, boundPort)[j]
    decreases |pool|
  {
    var n := |pool|;
    var front := pool[..n - 1];
    var earlier := Peers(front, boundPort);
    var peers := Peers(pool, boundPort);
    assert peers == (if pool[n - 1].port != boundPort then earlier + [pool[n - 1]] else earlier);
    if j < |earlier| {
      PeersKeepPoolOrder(front, boundPort, i, j);
      var p, q :| 0 <= p < q < |front| && front[p] == earlier[i] && front[q] == earlier[j];
      assert pool[p] == front[p] && pool[q] == front[q];
    } else {
      assert peers[i] == earlier[i];
      assert earlier[i] in front;
      var p :| 0 <= p < |front| && front[p] == earlier[i];
      assert pool[p] == peers[i] && pool[n - 1] == peers[j];
    }
  }

  predicate DistinctPorts(pool: seq<Addr>)
  {
    forall i, j :: 0 <= i < j < |pool| ==> pool[i].port != pool[j].port
  }

  predicate HasPort(pool: seq<Addr>, port: u16)
  {
    exists k :: 0 <= k < |pool| && pool[k].port == port
  }

  /** Splitting off the last address of a pool: distinct ports stay
      distinct, and the bound port occurs in the pool iff it occurs in the
      front part or on the last address, never both. */
  lemma PortsOfFrontAndLast(pool: seq<Addr>, boundPort: u16)
    requires pool != [] && DistinctPorts(pool)
    ensures DistinctPorts(pool[..|pool| - 1])
    ensures HasPort(pool, boundPort) <==>
      HasPort(pool[..|pool| - 1], boundPort) || pool[|pool| - 1].port == boundPort
    ensures !(HasPort(pool[..|pool| - 1], boundPort) && pool[|pool| - 1].port == boundPort)
  {
    var n := |pool|;
    var front := pool[..n - 1];
    forall i, j | 0 <= i < j < |front| ensures front[i].port != front[j].port {
      assert front[i] == pool[i] && front[j] == pool[j];
    }
    if HasPort(pool, boundPort) {
      var k :| 0 <= k < n && pool[k].port == boundPort;
      if k < n - 1 {
        assert front[k] == pool[k];
      }
    }
    if HasPort(front, boundPort) {
      var k :| 0 <= k < |front| && front[k].port == boundPort;
      assert pool[k] == front[k];
    }
  }

  /** With pairwise distinct ports, filtering drops exactly the one address
      that carries the bound port, if any. */
  lemma {:induction false} PeersDropOnlyBoundAddress(pool: seq<Addr>, boundPort: u16)
    requires DistinctPorts(pool)
    ensures |Peers(pool, boundPort)| == |pool| - (if HasPort(pool, boundPort) then 1 else 0)
    decreases |pool|
  {
    if pool != [] {
      var front := pool[..|pool| - 1];
      var last := pool[|pool| - 1];
      var earlier := Peers(front, boundPort);
      assert Peers(pool, boundPort) == (if last.port != boundPort then earlier + [last] else earlier);
      PortsOfFrontAndLast(pool, boundPort);
      PeersDropOnlyBoundAddress(front, boundPort);
    }
  }

  /** A listener bound to one of the five pool ports has exactly four peers,
      and its own port is not among them. */
  lemma FixedPoolLeavesFourPeers(boundPort: u16)
    requires 8001 <= boundPort <= 8005
    ensures |Peers(AddressPool(), boundPort)| == 4
    ensures forall a :: a in Peers(AddressPool(), boundPort) ==> a.port != boundPort
  {
    var pool := AddressPool();
    assert forall k :: 0 <= k < 5 ==> pool[k].port as int == 8001 + k;
    assert pool[(boundPort - 8001) as int].port == boundPort;
    PeersDropOnlyBoundAddress(pool, boundPort);
  }

  /** The election timer's parameters: start at 10, stop at 0, step 1. */
  const TimerStart := 10
  const TimerEnd := 0
  const TimerStep := 1

  /** The countdown of `init_election_timer`: subtract one step per round
      (one second of sleep each, not modelled) while above the end value.
      Returns the number of rounds run before the broadcast. */
  method ElectionCountdown() returns (rounds: nat)
    ensures rounds == 10
  {
    var i := TimerStart;
    rounds := 0;
    while i > TimerEnd
      invariant TimerEnd <= i <= TimerStart
      invariant rounds == TimerStart - i
    {
      i := i - TimerStep;
      rounds := rounds + 1;
    }
  }

  /** The background task a process starts, chosen once from its role. */
  datatype Task = LeaderWorkload | ElectionTimer

  function StartupTask(isLeader: bool): (t: Task)
    ensures t == LeaderWorkload <==> isLeader
    ensures t == ElectionTimer <==> !isLeader
  {
    if isLeader then LeaderWorkload else ElectionTimer
  }

  /** One outgoing REQUEST_VOTE: the peer it is sent to and its payload. */
  datatype VoteRequest = VoteRequest(dest: Addr, payload: RequestVotePayload)

  /** The vote requests of one broadcast round: one per peer, in peer-list
      order, each carrying the payload built from the current log. */
  predicate IsBroadcast(sent: seq<VoteRequest>, peers: seq<Addr>, log: seq<RaftLog.LogEntry>)
    requires log != [] ==> RaftLog.Last(log).leaderTerm < RaftLog.MaxInt32
  {
    |sent| == |peers| &&
    forall k :: 0 <= k < |sent| ==> sent[k] == VoteRequest(peers[k], GenerateRequestVotePayload(log))
  }
}
