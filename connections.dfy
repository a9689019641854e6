/**
 * Classification and handling of one inbound connection
 * (src/connection_handler.rs), as a function of what was read and of the
 * stored queue. Socket reads and writes become values: what was read is an
 * `Inbound`, and what the handler does is a list of `Effect`s in the order
 * it does them.
 */
module Connections {
  import opened Wrappers
  import opened RaftLog
  import opened Messages

  /** `t` occurs in `s` starting at position `i`. */
  predicate OccursAt(s: string, t: string, i: nat)
  {
    i + |t| <= |s| && s[i..i + |t|] == t
  }

  /** `s.contains(t)` for the message text. */
  predicate Contains(s: string, t: string)
  {
    exists i: nat | i <= |s| :: OccursAt(s, t, i)
  }

  /** The result of the single socket read. For a successful read the text
      is given together with what decoding it as an APPEND_ENTRY or a
      REQUEST_VOTE message yields (`None` where the JSON decoder fails). */
  datatype Inbound =
    | ReadFailed
    | Received(text: string,
               asAppendEntry: Option<AppendEntryRequestMessage>,
               asRequestVote: Option<RequestVoteMessage>)

  datatype Effect =
    | Shutdown                                           // both directions closed
    | SendHealthcheck(response: HealthcheckResponse)     // written to the socket
    | StoreQueue(queue: seq<AppendEntryRequestMessage>)  // `msg_queue` rewritten
    | SendVoteReply(reply: RequestVoteReplyMessage)      // written to the socket
    | Panic                                              // a decode `unwrap` failed

  datatype Handled = Handled(effects: seq<Effect>, queue: seq<AppendEntryRequestMessage>)

  /** The reply of `request_vote_handler`: always granted, echoing the
      request's term, sent from the local address of the socket. */
  function RequestVoteReply(request: RequestVoteMessage, local: Addr, localId: u64)
    : (r: RequestVoteReplyMessage)
    ensures r.payload.granted
    ensures r.payload.term == request.payload.term
    ensures r.msgType == RequestVote && r.srcAddr == local && r.srcId == localId
  {
    RequestVoteReplyMessage(localId, local, RequestVote,
                            RequestVoteReplyPayload(request.payload.term, true))
  }

  predicate AppendEntryPanics(inbound: Inbound)
  {
    inbound.Received? && Contains(inbound.text, Tag(AppendEntry)) && inbound.asAppendEntry.None?
  }

  /** The APPEND_ENTRY handler ran to completion: its tag was found and the
      text decoded. */
  predicate AppendEntryRuns(inbound: Inbound)
  {
    inbound.Received? && Contains(inbound.text, Tag(AppendEntry)) && inbound.asAppendEntry.Some?
  }

  /** The REQUEST_VOTE handler ran to completion: the thread was still alive
      after the APPEND_ENTRY test, its tag was found and the text decoded. */
  predicate RequestVoteRuns(inbound: Inbound)
  {
    inbound.Received? && !AppendEntryPanics(inbound) &&
    Contains(inbound.text, Tag(RequestVote)) && inbound.asRequestVote.Some?
  }

  /** `connection_handler` after the read: three independent tag tests, in
      the order HEALTHCHECK, APPEND_ENTRY, REQUEST_VOTE. The APPEND_ENTRY
      handler acknowledges first and then stores the loaded queue with the
      message pushed at the back. A failed decode ends the thread. */
  function Dispatch(inbound: Inbound, queue: seq<AppendEntryRequestMessage>,
                    local: Addr, localId: u64): (r: Handled)
    ensures inbound.ReadFailed? ==> r == Handled([Shutdown], queue)
    ensures (&& inbound.Received?
             && !Contains(inbound.text, Tag(Healthcheck))
             && !Contains(inbound.text, Tag(AppendEntry))
             && !Contains(inbound.text, Tag(RequestVote)))
      ==> r == Handled([], queue)
    ensures AppendEntryRuns(inbound) ==> r.queue == queue + [inbound.asAppendEntry.value]
    ensures !AppendEntryRuns(inbound) ==> r.queue == queue
    ensures StoreQueue(r.queue) in r.effects <==> AppendEntryRuns(inbound)
    ensures forall k :: 0 <= k < |r.effects| && r.effects[k].StoreQueue? ==>
      k > 0 && r.effects[k - 1] == SendHealthcheck(GetHealthcheckRespMsg())
    ensures inbound.Received? && Contains(inbound.text, Tag(Healthcheck)) ==>
      |r.effects| > 0 && r.effects[0] == SendHealthcheck(GetHealthcheckRespMsg())
    ensures inbound.Received? && inbound.asRequestVote.Some? ==>
      (SendVoteReply(RequestVoteReply(inbound.asRequestVote.value, local, localId)) in r.effects
       <==> RequestVoteRuns(inbound))
    ensures inbound.Received? ==>
      (SendHealthcheck(GetHealthcheckRespMsg()) in r.effects <==>
       Contains(inbound.text, Tag(Healthcheck)) || AppendEntryRuns(inbound))
    ensures inbound.Received? ==>
      (Panic in r.effects <==>
       AppendEntryPanics(inbound) ||
       (Contains(inbound.text, Tag(RequestVote)) && inbound.asRequestVote.None?))
    ensures (exists e :: e in r.effects && e.SendVoteReply?) <==> RequestVoteRuns(inbound)
    ensures forall e :: e in r.effects && e.SendVoteReply? ==> e.reply.payload.granted
    ensures inbound.Received? ==> Shutdown !in r.effects
    ensures forall k :: 0 <= k < |r.effects| && r.effects[k].SendVoteReply? ==> k == |r.effects| - 1
    ensures inbound.Received? ==>
      |r.effects| ==
        (if Contains(inbound.text, Tag(Healthcheck)) then 1 else 0) +
        (if AppendEntryRuns(inbound) then 2 else 0) +
        (if RequestVoteRuns(inbound) then 1 else 0) +
        (if AppendEntryPanics(inbound) ||
            (Contains(inbound.text, Tag(RequestVote)) && inbound.asRequestVote.None?)
         then 1 else 0)
    ensures Panic in r.effects ==> r.effects[|r.effects| - 1] == Panic
  {
    match inbound
    case ReadFailed =>
      Handled([Shutdown], queue)
    case Received(text, asAppendEntry, asRequestVote) =>
      var ack := SendHealthcheck(GetHealthcheckRespMsg());
      var healthcheck := if Contains(text, Tag(Healthcheck)) then [ack] else [];
      if !Contains(text, Tag(AppendEntry)) then
        Handled(healthcheck + VoteStep(text, asRequestVote, local, localId), queue)
      else if asAppendEntry.None? then
        Handled(healthcheck + [Panic], queue)
      else
        var stored := queue + [asAppendEntry.value];
        Handled(healthcheck + [ack, StoreQueue(stored)] + VoteStep(text, asRequestVote, local, localId),
                stored)
  }

  /** The REQUEST_VOTE test of `connection_handler`: nothing without the tag,
      a granted reply when the text decodes, a panic when it does not. */
  function VoteStep(text: string, asRequestVote: Option<RequestVoteMessage>,
                    local: Addr, localId: u64): (v: seq<Effect>)
    ensures |v| <= 1 && (v == [] <==> !Contains(text, Tag(RequestVote)))
    ensures v == [Panic] <==> Contains(text, Tag(RequestVote)) && asRequestVote.None?
    ensures forall e :: e in v ==> e == Panic || (e.SendVoteReply? && e.reply.payload.granted)
  {
    if !Contains(text, Tag(RequestVote)) then []
    else if asRequestVote.None? then [Panic]
    else [SendVoteReply(RequestVoteReply(asRequestVote.value, local, localId))]
  }

  /** Which effects `Dispatch` performs, not only how many: every healthcheck
      response written is the canned ack; when the APPEND_ENTRY handler runs,
      its ack and its store come right after the HEALTHCHECK ack (if any), so
      a text with both tags is acknowledged twice; and a panic is the last
      effect, so there is at most one. */
  lemma DispatchAcksThenStores(inbound: Inbound, queue: seq<AppendEntryRequestMessage>,
                               local: Addr, localId: u64)
    ensures forall e :: e in Dispatch(inbound, queue, local, localId).effects && e.SendHealthcheck? ==>
      e == SendHealthcheck(GetHealthcheckRespMsg())
    ensures AppendEntryRuns(inbound) ==>
      var r := Dispatch(inbound, queue, local, localId);
      var s := if Contains(inbound.text, Tag(Healthcheck)) then 1 else 0;
      (&& |r.effects| >= s + 2
       && r.effects[s] == SendHealthcheck(GetHealthcheckRespMsg())
       && r.effects[s + 1] == StoreQueue(r.queue))
    ensures var r := Dispatch(inbound, queue, local, localId);
      forall k :: 0 <= k < |r.effects| && r.effects[k] == Panic ==> k == |r.effects| - 1
  {
  }

  /** The tests are independent `if`s, not a chain: a text carrying all three
      tags runs all three handlers, in order, so the sender is acknowledged
      twice before its vote reply. */
  lemma AllTagsRunAllHandlers(text: string, m: AppendEntryRequestMessage, v: RequestVoteMessage,
                              queue: seq<AppendEntryRequestMessage>, local: Addr, localId: u64)
    requires Contains(text, Tag(Healthcheck))
    requires Contains(text, Tag(AppendEntry))
    requires Contains(text, Tag(RequestVote))
    ensures Dispatch(Received(text, Some(m), Some(v)), queue, local, localId) ==
      Handled([SendHealthcheck(GetHealthcheckRespMsg()),
               SendHealthcheck(GetHealthcheckRespMsg()),
               StoreQueue(queue + [m]),
               SendVoteReply(RequestVoteReply(v, local, localId))],
              queue + [m])
  {
  }

  /** No per-term vote bookkeeping: two different candidates asking for the
      same term are both granted it. */
  lemma EveryCandidateIsGranted(r1: RequestVoteMessage, r2: RequestVoteMessage,
                                local: Addr, localId: u64)
    requires r1.payload.term == r2.payload.term && r1.srcAddr != r2.srcAddr
    ensures RequestVoteReply(r1, local, localId).payload == RequestVoteReply(r2, local, localId).payload
    ensures RequestVoteReply(r1, local, localId).payload.granted
  {
  }

  /** An APPEND_ENTRY accepted onto a queue that already holds `|queue|`
      messages is handled by the drain only after all of them: it is the
      message of cycle number `|queue|` (counting from 0). */
  lemma EnqueuedMessageHandledAfterBacklog(inbound: Inbound, queue: seq<AppendEntryRequestMessage>,
                                           log: seq<LogEntry>, local: Addr, localId: u64, n: nat)
    requires AppendEntryRuns(inbound) && |queue| < n
    requires DrainSafe(Persisted(Dispatch(inbound, queue, local, localId).queue, log), n)
    ensures !Drain(Persisted(Dispatch(inbound, queue, local, localId).queue, log), n).outcomes[|queue|].QueueEmpty?
    ensures Drain(Persisted(Dispatch(inbound, queue, local, localId).queue, log), n).outcomes[|queue|].entry
      == inbound.asAppendEntry.value.payload.logEntry
  {
    var s := Persisted(Dispatch(inbound, queue, local, localId).queue, log);
    DrainVisitsInOrder(s, n, |queue|);
    assert s.queue[|queue|] == inbound.asAppendEntry.value;
  }
}
