/**
 * Message shapes and the pending-queue drain (src/message.rs).
 *
 * The wire format (JSON) and the derived hashes are not modelled: a message
 * is its datatype value. Addresses are (IPv4, port) pairs.
 */
module Messages {
  import opened RaftLog

  newtype byte = x: int | 0 <= x < 0x100
  newtype u16 = x: int | 0 <= x < 0x1_0000
  newtype u64 = x: int | 0 <= x < 0x1_0000_0000_0000_0000

  datatype Ipv4 = Ipv4(a: byte, b: byte, c: byte, d: byte)

  datatype Addr = Addr(ip: Ipv4, port: u16)

  datatype MessageType = Healthcheck | AppendEntry | RequestVote

  /** The name a message type is serialized under, the text the dispatcher
      looks for. */
  function Tag(t: MessageType): string
  {
    match t
    case Healthcheck => "HEALTHCHECK"
    case AppendEntry => "APPEND_ENTRY"
    case RequestVote => "REQUEST_VOTE"
  }

  datatype Message = Message(srcId: u64, srcAddr: Addr, msgType: MessageType, payload: string)

  datatype HealthcheckResponse = HealthcheckResponse(msgType: MessageType, payload: string)

  datatype AppendEntryRequest = AppendEntryRequest(logEntry: LogEntry, entries: seq<LogEntry>)

  datatype AppendEntryRequestMessage = AppendEntryRequestMessage(
    srcId: u64, srcAddr: Addr, msgType: MessageType, payload: AppendEntryRequest)

  datatype RequestVotePayload = RequestVotePayload(lastLogIndex: int32, lastLogTerm: int32, term: int32)

  datatype RequestVoteMessage = RequestVoteMessage(
    srcId: u64, srcAddr: Addr, msgType: MessageType, payload: RequestVotePayload)

  datatype RequestVoteReplyPayload = RequestVoteReplyPayload(term: int32, granted: bool)

  datatype RequestVoteReplyMessage = RequestVoteReplyMessage(
    srcId: u64, srcAddr: Addr, msgType: MessageType, payload: RequestVoteReplyPayload)

  /** The payload of an outgoing vote request, built from the last log
      entry: its commit index, its term, and the next term (an `i32`
      addition: at `i32::MAX` it panics in a debug build and wraps in a
      release build; the model excludes both by `requires`). */
  function GenerateRequestVotePayload(log: seq<LogEntry>): (r: RequestVotePayload)
    requires log != [] ==> Last(log).leaderTerm < MaxInt32
    ensures log == [] ==> r == RequestVotePayload(0, 0, 1)
    ensures log != [] ==>
      && r.lastLogIndex == log[|log| - 1].leaderCommitIndex
      && r.lastLogTerm == log[|log| - 1].leaderTerm
    ensures r.term as int == r.lastLogTerm as int + 1
  {
    if log == [] then
      RequestVotePayload(0, 0, 1)
    else
      var lastLog := Last(log);
      RequestVotePayload(lastLog.leaderCommitIndex, lastLog.leaderTerm, lastLog.leaderTerm + 1)
  }

  /** The canned acknowledgement sent for HEALTHCHECK and APPEND_ENTRY. */
  function GetHealthcheckRespMsg(): (r: HealthcheckResponse)
    ensures r.msgType == Healthcheck && r.payload == "ok"
  {
    HealthcheckResponse(Healthcheck, "ok")
  }

  /** Only the last entry of a log decides the vote request built from it. */
  lemma VotePayloadDependsOnLastEntry(log: seq<LogEntry>, entry: LogEntry)
    requires entry.leaderTerm < MaxInt32
    ensures GenerateRequestVotePayload(log + [entry]) == GenerateRequestVotePayload([entry])
  {
    assert Last(log + [entry]) == entry;
  }

  // ---------------------------------------------------------------------
  // The pending queue and one drain cycle
  // ---------------------------------------------------------------------

  /** The two stored blobs a drain cycle reads and writes. */
  datatype Persisted = Persisted(queue: seq<AppendEntryRequestMessage>, log: seq<LogEntry>)

  /** What a drain cycle reports (`process_next_message` prints it). */
  datatype Outcome =
    | QueueEmpty
    | LogBootstrapped(entry: LogEntry)
    | Checked(entry: LogEntry, verdict: Verdict)

  datatype Cycle = Cycle(store: Persisted, outcome: Outcome)

  /** The cycle does not panic: an entry that reaches validation (queue and
      log both non-empty) has a `prevIndex` whose successor fits an `i32`. */
  predicate CycleSafe(s: Persisted)
  {
    s.queue != [] && s.log != [] ==> s.queue[0].payload.logEntry.prevIndex < MaxInt32
  }

  /** `process_next_message` on the stored values: pop the front of the
      queue and store the shorter queue; then an empty log receives the
      popped entry, and a non-empty log is only validated, the verdict
      reported and the log left as it was, accepted or not. */
  function ProcessNext(s: Persisted): (r: Cycle)
    requires CycleSafe(s)
    ensures s.queue == [] ==> r.store == s && r.outcome == QueueEmpty
    ensures s.queue != [] ==> r.store.queue == s.queue[1..]
    ensures s.queue != [] && s.log == [] ==>
      r.store.log == [s.queue[0].payload.logEntry] &&
      r.outcome == LogBootstrapped(s.queue[0].payload.logEntry)
    ensures s.log != [] ==> r.store.log == s.log
    ensures s.queue != [] && s.log != [] ==>
      r.outcome == Checked(s.queue[0].payload.logEntry,
                           ValidateLogEntry(s.queue[0].payload.logEntry, s.log))
  {
    if s.queue == [] then
      Cycle(s, QueueEmpty)
    else
      var next := s.queue[0];
      var entry := next.payload.logEntry;
      if s.log == [] then
        Cycle(Persisted(s.queue[1..], s.log + [entry]), LogBootstrapped(entry))
      else
        Cycle(Persisted(s.queue[1..], s.log), Checked(entry, ValidateLogEntry(entry, s.log)))
  }

  /** The drain cycles of the first `n` rounds do not panic: every queued
      message that will be validated (all but a first one that bootstraps an
      empty log) has a `prevIndex` below `i32::MAX`. */
  predicate DrainSafe(s: Persisted, n: nat)
  {
    forall i :: 0 <= i < |s.queue| && i < n && (i > 0 || s.log != []) ==>
      s.queue[i].payload.logEntry.prevIndex < MaxInt32
  }

  /** A safe run of `n` cycles starts with a safe cycle and continues with a
      safe run of `n - 1`. */
  lemma DrainSafeStep(s: Persisted, n: nat)
    requires n > 0 && DrainSafe(s, n)
    ensures CycleSafe(s) && DrainSafe(ProcessNext(s).store, n - 1)
  {
    var next := ProcessNext(s).store;
    forall i | 0 <= i < |next.queue| && i < n - 1 && (i > 0 || next.log != [])
      ensures next.queue[i].payload.logEntry.prevIndex < MaxInt32
    {
      assert next.queue[i] == s.queue[i + 1];
    }
  }

  datatype Run = Run(store: Persisted, outcomes: seq<Outcome>)

  /** `n` drain cycles in a row, with what each reported. */
  function Drain(s: Persisted, n: nat): (r: Run)
    requires DrainSafe(s, n)
    ensures |r.outcomes| == n
    decreases n
  {
    if n == 0 then
      Run(s, [])
    else
      DrainSafeStep(s, n);
      var c := ProcessNext(s);
      var rest := Drain(c.store, n - 1);
      Run(rest.store, [c.outcome] + rest.outcomes)
  }

  function Min(a: nat, b: nat): nat { if a < b then a else b }

  /** After `n` cycles exactly the first `min(n, |queue|)` messages are gone
      from the front of the queue and the rest are still queued, in order. */
  lemma {:induction false} DrainPopsFront(s: Persisted, n: nat)
    requires DrainSafe(s, n)
    ensures Drain(s, n).store.queue == s.queue[Min(n, |s.queue|)..]
    decreases n
  {
    if n > 0 {
      var c := ProcessNext(s);
      DrainPopsFront(c.store, n - 1);
    }
  }

  /** A non-empty stored log is never changed by the drain, whatever the
      verdicts: accepted entries are not appended. */
  lemma {:induction false} DrainKeepsNonEmptyLog(s: Persisted, n: nat)
    requires DrainSafe(s, n) && s.log != []
    ensures Drain(s, n).store.log == s.log
    decreases n
  {
    if n > 0 {
      DrainKeepsNonEmptyLog(ProcessNext(s).store, n - 1);
    }
  }

  /** Draining into an empty log leaves exactly the first queued entry in
      it: the bootstrap append is the only append the drain ever makes. */
  lemma DrainBootstrapsOnce(s: Persisted, n: nat)
    requires DrainSafe(s, n) && s.log == [] && s.queue != [] && n >= 1
    ensures Drain(s, n).store.log == [s.queue[0].payload.logEntry]
    ensures Drain(s, n).outcomes[0] == LogBootstrapped(s.queue[0].payload.logEntry)
  {
    var c := ProcessNext(s);
    DrainKeepsNonEmptyLog(c.store, n - 1);
  }

  /** Cycle `i` handles the `i`-th queued message, once and in FIFO order;
      a rejected message is not retried. Cycles after the queue ran dry
      report an empty queue. */
  lemma {:induction false} DrainVisitsInOrder(s: Persisted, n: nat, i: nat)
    requires DrainSafe(s, n) && i < n
    ensures i < |s.queue| ==>
      !Drain(s, n).outcomes[i].QueueEmpty? &&
      Drain(s, n).outcomes[i].entry == s.queue[i].payload.logEntry
    ensures i >= |s.queue| ==> Drain(s, n).outcomes[i] == QueueEmpty
    decreases n
  {
    var c := ProcessNext(s);
    if i > 0 {
      DrainVisitsInOrder(c.store, n - 1, i - 1);
      if i < |s.queue| {
        assert c.store.queue[i - 1] == s.queue[i];
      }
    }
  }

  /** FIFO round trip: a message pushed onto an empty queue is the one the
      next cycle pops, and the queue is empty again afterwards. */
  lemma PushThenPopReturnsMessage(m: AppendEntryRequestMessage, log: seq<LogEntry>)
    requires CycleSafe(Persisted([] + [m], log))
    ensures ProcessNext(Persisted([] + [m], log)).store.queue == []
    ensures ProcessNext(Persisted([] + [m], log)).outcome.entry == m.payload.logEntry
  {
  }

  /** Pushing at the back commutes with popping at the front of a non-empty
      queue: the popped message and the log are the same either way. */
  lemma PushCommutesWithPop(q: seq<AppendEntryRequestMessage>, m: AppendEntryRequestMessage,
                            log: seq<LogEntry>)
    requires q != [] && CycleSafe(Persisted(q, log))
    ensures CycleSafe(Persisted(q + [m], log))
    ensures ProcessNext(Persisted(q + [m], log)).store ==
      Persisted(ProcessNext(Persisted(q, log)).store.queue + [m],
                ProcessNext(Persisted(q, log)).store.log)
    ensures ProcessNext(Persisted(q + [m], log)).outcome == ProcessNext(Persisted(q, log)).outcome
  {
    assert (q + [m])[0] == q[0];
    assert (q + [m])[1..] == q[1..] + [m];
  }
}
