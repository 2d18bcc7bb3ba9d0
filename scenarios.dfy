/** Consequences of Op.cc as written that its state diagrams and comments do
    not show, and what a caller of poll() can rely on, each exhibited on the
    imperative model of the manager. */
module Scenarios {
  import opened Protocol
  import opened Messages
  import opened Op
  import R = RemoteLifecycle
  import S = ServerLifecycle

  /** A detached op that fails while detached: one sweep moves it from
      InProgress to Failed and erases it at once, so the request is never
      failed back to its sender (the Failed branch of makeProgress(), which
      would call fail(), only runs for an op that was Failed before the
      sweep). */
  method FailedWhileDetached(t: OpManager)
    requires t.Valid() && |t.detachedServerOps| == 1
    requires t.detachedServerOps[0].state == S.InProgress
    requires t.detachedServerOps[0].request != null && !t.detachedServerOps[0].request.isDropped
    requires t.detachedServerOps[0].response != null && t.detachedServerOps[0].response.status == Failed
    modifies t, t.detachedServerOps, t.DetachedRequests(), t.DetachedResponses()
    ensures t.detachedServerOps == []
    ensures var op := old(t.detachedServerOps[0]);
      && op.state == S.Failed && op.request == old(op.request) && op.request != null
      && op.request.failures == old(op.request.failures)
  {
    ghost var op := t.detachedServerOps[0];
    t.SweepDetached();
    assert Advanced(op, true);
  }

  /** A response that arrives for an op isReady() has already declared Failed
      still completes it: the drain does not look at the op's state, and
      Completed and Failed are both terminal. */
  method LateResponseAfterFailure(t: OpManager, op: RemoteOp, d: Delivery)
    requires t.Valid() && t.Unowned(d.message) && t.Unanswered(d.message)
    requires op.opId in t.remoteOps && t.remoteOps[op.opId] == op && op.state == R.Failed
    requires IsResponse(d.header) && d.header.opId == op.opId
    modifies t`pendingServerOps, d.message`releases, op, op.request
    ensures op.state == R.Completed && op.response == d.message
  {
    t.Deliver(d);
    assert Answered(t.remoteOps[op.opId], ResponseTo(d, op.opId));
  }

  /** Two responses for one op in one drain: the second overwrites the
      first, the request is cancelled twice, and neither message is released.
      The first is then held by nothing: ~RemoteOp() releases only the
      response it holds (RemoteOp.Destroy), so the first is never released. */
  method SecondResponseOverwritesFirst(t: OpManager, op: RemoteOp, d1: Delivery, d2: Delivery)
    requires t.Valid() && t.Arriving([d1, d2])
    requires op.opId in t.remoteOps && t.remoteOps[op.opId] == op
    requires IsResponse(d1.header) && d1.header.opId == op.opId
    requires IsResponse(d2.header) && d2.header.opId == op.opId
    modifies t`pendingServerOps, d1.message`releases, d2.message`releases, t.remoteOps.Values, t.RegisteredRequests()
    ensures op.response == d2.message && op.response != d1.message
    ensures op.request.cancellations == old(op.request.cancellations) + 2
    ensures d1.message.releases == old(d1.message.releases) && d2.message.releases == old(d2.message.releases)
  {
    t.Drain([d1, d2]);
    BothResponses(d1, d2, op.opId);
    assert Answered(t.remoteOps[op.opId], ResponsesFor([d1, d2], op.opId));
  }

  /** The responses to `k` among two deliveries that both answer it. */
  lemma BothResponses(d1: Delivery, d2: Delivery, k: OpId)
    requires IsResponse(d1.header) && d1.header.opId == k
    requires IsResponse(d2.header) && d2.header.opId == k
    ensures ResponsesFor([d1, d2], k) == [d1.message, d2.message]
  {
    assert ResponsesFor([d1], k) == [d1.message] by {
      assert [d1][..0] == [];
    }
    assert [d1, d2][..1] == [d1];
  }

  /** An op that was never sent carries the default id; destroying it erases
      that id from the registry, which removes the entry of the live op that
      was sent under it (possible when the transport id is 0 and the counter
      started at 0). */
  method UnsentDestroyErasesLiveEntry(t: OpManager, live: RemoteOp, unsent: RemoteOp)
    requires t.Valid() && DEFAULT_OP_ID in t.remoteOps && t.remoteOps[DEFAULT_OP_ID] == live
    requires unsent.transport == t && unsent.state == R.NotStarted && unsent.opId == DEFAULT_OP_ID
    modifies unsent.request`releases, unsent.response, t`remoteOps
    ensures live.state != R.NotStarted && DEFAULT_OP_ID !in t.remoteOps
  {
    unsent.Destroy();
  }

  /** poll() changes a drained message only in its release count: its frame
      names the drained messages' release counts and the detached ops'
      requests, and receive() never hands out a detached op's request. */
  method PollSparesDrained(t: OpManager, incoming: seq<Delivery>)
    requires t.Valid() && t.Arriving(incoming)
    modifies t, MessagesOf(incoming)`releases, t.remoteOps.Values, t.RegisteredRequests(),
             t.detachedServerOps, t.DetachedRequests(), t.DetachedResponses()
    ensures forall m | m in MessagesOf(incoming) ::
      m.isDropped == old(m.isDropped) && m.acknowledgements == old(m.acknowledgements) && m.failures == old(m.failures)
  {
    t.ArrivingApart(incoming);
    t.Poll(incoming);
  }
}
