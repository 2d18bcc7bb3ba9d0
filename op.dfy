/** The operation layer: RemoteOp (a client call), ServerOp (one stage of a
    server-side call) and the OpManager that correlates inbound messages with
    them. The lock and the atomics of the source are plain field reads and
    writes here; the transport is represented by the messages it hands out. */
module Op {
  import opened Protocol
  import opened Messages
  import R = RemoteLifecycle
  import S = ServerLifecycle

  /** One message drained from the transport's receive(), with its header
      already read and stripped. */
  datatype Delivery = Delivery(header: Header, message: InMessage)

  /** Every field of a ServerOp, as one value. */
  datatype Fields = Fields(request: InMessage?, response: OutMessage?, transport: OpManager?,
                           state: S.State, detached: bool, opId: OpId, stageId: nat,
                           replyAddress: Address, delegated: bool)

  /** The fields of an empty op: a default-constructed or moved-from ServerOp. */
  const EMPTY: Fields := Fields(null, null, null, S.NotStarted, false, DEFAULT_OP_ID, 0, 0, false)

  /** The op poll() builds for an inbound request. */
  function Adopted(d: Delivery): Fields
  {
    Fields(d.message, null, null, S.NotStarted, false, d.header.opId, d.header.stageId,
           d.header.replyAddress, false)
  }

  /** The deliveries poll() turns into new ServerOps, in arrival order. */
  function RequestsOf(ds: seq<Delivery>): seq<Delivery>
  {
    if ds == [] then []
    else RequestsOf(ds[..|ds| - 1]) + (if IsResponse(ds[|ds| - 1].header) then [] else [ds[|ds| - 1]])
  }

  /** The response message `d` carries for operation `k`, if any. */
  function ResponseTo(d: Delivery, k: OpId): seq<InMessage>
  {
    if IsResponse(d.header) && d.header.opId == k then [d.message] else []
  }

  /** The response messages among `ds` addressed to operation `k`, in arrival order. */
  function ResponsesFor(ds: seq<Delivery>, k: OpId): seq<InMessage>
  {
    if ds == [] then [] else ResponsesFor(ds[..|ds| - 1], k) + ResponseTo(ds[|ds| - 1], k)
  }

  /** Two ops that share neither identity nor a message. */
  predicate Disjoint(a: ServerOp, b: ServerOp)
    reads a`request, a`response, b`request, b`response
  {
    a != b && a.request != b.request && (a.response == null || b.response == null || a.response != b.response)
  }

  /** No two ops of the list share an identity or a message. */
  ghost predicate Exclusive(ops: seq<ServerOp>)
    reads ops
  {
    forall i, j {:trigger Disjoint(ops[i], ops[j])} :: 0 <= i < j < |ops| ==> Disjoint(ops[i], ops[j])
  }

  /** No op of one list shares an identity or a message with an op of the other. */
  ghost predicate Apart(a: seq<ServerOp>, b: seq<ServerOp>)
    reads a, b
  {
    forall i, j {:trigger Disjoint(a[i], b[j])} :: 0 <= i < |a| && 0 <= j < |b| ==> Disjoint(a[i], b[j])
  }

  /** The detached ops the sweep keeps: those still InProgress, in list order. */
  function Kept(ops: seq<ServerOp>): seq<ServerOp>
    reads ops
  {
    if ops == [] then []
    else Kept(ops[..|ops| - 1]) + (if ops[|ops| - 1].state == S.InProgress then [ops[|ops| - 1]] else [])
  }

  /** The sweep keeps exactly the ops that are InProgress. */
  lemma {:induction false} KeptMembers(ops: seq<ServerOp>)
    ensures forall x :: x in Kept(ops) ==> x in ops && x.state == S.InProgress
    ensures forall x :: x in ops && x.state == S.InProgress ==> x in Kept(ops)
  {
    if ops != [] {
      KeptMembers(ops[..|ops| - 1]);
      assert forall x :: x in ops <==> x in ops[..|ops| - 1] || x == ops[|ops| - 1];
    }
  }

  /** Keeping a part of a list of ops that share nothing keeps them sharing nothing. */
  lemma {:induction false} KeptExclusive(ops: seq<ServerOp>)
    requires Exclusive(ops)
    ensures Exclusive(Kept(ops))
  {
    if ops != [] {
      var front := ops[..|ops| - 1];
      var last := ops[|ops| - 1];
      assert Exclusive(front) by {
        assert forall i :: 0 <= i < |front| ==> front[i] == ops[i];
      }
      KeptExclusive(front);
      KeptMembers(front);
      if last.state == S.InProgress {
        var k := Kept(ops);
        assert k == Kept(front) + [last];
        forall i, j | 0 <= i < j < |k| ensures Disjoint(k[i], k[j]) {
          if j == |k| - 1 {
            assert k[i] == Kept(front)[i];
            assert k[i] in front;
            var m :| 0 <= m < |front| && front[m] == k[i];
            assert Disjoint(ops[m], ops[|ops| - 1]);
          } else {
            assert k[i] == Kept(front)[i] && k[j] == Kept(front)[j];
          }
        }
      }
    }
  }

  /** Keeping a part of a list keeps it apart from any list the whole was apart from. */
  lemma KeptApart(a: seq<ServerOp>, ops: seq<ServerOp>)
    requires Apart(a, ops)
    ensures Apart(a, Kept(ops))
  {
    KeptMembers(ops);
    forall i, j | 0 <= i < |a| && 0 <= j < |Kept(ops)| ensures Disjoint(a[i], Kept(ops)[j]) {
      assert Kept(ops)[j] in Kept(ops);
      assert Kept(ops)[j] in ops;
      var m :| 0 <= m < |ops| && ops[m] == Kept(ops)[j];
      assert Disjoint(a[i], ops[m]);
    }
  }

  /** Erasing one op from a list of ops that share nothing keeps them sharing nothing. */
  lemma ExclusiveErased(ops: seq<ServerOp>, at: nat)
    requires Exclusive(ops) && at < |ops|
    ensures Exclusive(ops[..at] + ops[at + 1..])
  {
    var rest := ops[..at] + ops[at + 1..];
    forall i, j | 0 <= i < j < |rest| ensures Disjoint(rest[i], rest[j]) {
      var i', j' := if i < at then i else i + 1, if j < at then j else j + 1;
      assert rest[i] == ops[i'] && rest[j] == ops[j'];
      assert Disjoint(ops[i'], ops[j']);
    }
  }

  /** Erasing one op from a list keeps it apart from any list the whole was apart from. */
  lemma ApartErased(a: seq<ServerOp>, ops: seq<ServerOp>, at: nat)
    requires Apart(a, ops) && at < |ops|
    ensures Apart(a, ops[..at] + ops[at + 1..])
  {
    var rest := ops[..at] + ops[at + 1..];
    forall i, j | 0 <= i < |a| && 0 <= j < |rest| ensures Disjoint(a[i], rest[j]) {
      var j' := if j < at then j else j + 1;
      assert rest[j] == ops[j'];
      assert Disjoint(a[i], ops[j']);
    }
  }

  /** The ops of `ops` whose flag is set, in list order. */
  function Filter(ops: seq<ServerOp>, keep: seq<bool>): seq<ServerOp>
    requires |keep| == |ops|
  {
    if ops == [] then []
    else Filter(ops[..|ops| - 1], keep[..|keep| - 1]) + (if keep[|keep| - 1] then [ops[|ops| - 1]] else [])
  }

  /** Filtering one more op of a list. */
  lemma FilterStep(ops: seq<ServerOp>, keep: seq<bool>, n: nat, b: bool)
    requires |keep| == n < |ops|
    ensures Filter(ops[..n + 1], keep + [b]) == Filter(ops[..n], keep) + (if b then [ops[n]] else [])
  {
    assert ops[..n + 1][..n] == ops[..n];
    assert (keep + [b])[..n] == keep;
  }

  /** The shape of the detached list in the middle of the sweep: the ops kept
      so far, then the ops not yet visited. */
  lemma SplitAt(done: seq<ServerOp>, all: seq<ServerOp>, n: nat)
    requires n < |all|
    ensures (done + all[n..])[|done|] == all[n]
    ensures (done + all[n..])[..|done|] + (done + all[n..])[|done| + 1..] == done + all[n + 1..]
    ensures done + all[n..] == (done + [all[n]]) + all[n + 1..]
  {
    assert (done + all[n..])[..|done|] == done;
    assert (done + all[n..])[|done| + 1..] == all[n + 1..];
  }

  /** The position of each element of a sequence without repetitions. */
  lemma {:induction false} Positions<T>(s: seq<T>) returns (at: map<T, nat>)
    requires forall a, b :: 0 <= a < b < |s| ==> s[a] != s[b]
    ensures forall j :: 0 <= j < |s| ==> s[j] in at && at[s[j]] == j
  {
    if s == [] {
      at := map[];
    } else {
      var front := s[..|s| - 1];
      at := Positions(front);
      at := at[s[|s| - 1] := |s| - 1];
      assert forall j :: 0 <= j < |s| - 1 ==> front[j] == s[j];
    }
  }

  /** Flags that say which ops are InProgress filter out what Kept keeps. */
  lemma {:induction false} FilterKept(ops: seq<ServerOp>, keep: seq<bool>)
    requires |keep| == |ops|
    requires forall j :: 0 <= j < |ops| ==> (keep[j] <==> ops[j].state == S.InProgress)
    ensures Filter(ops, keep) == Kept(ops)
  {
    if ops != [] {
      FilterKept(ops[..|ops| - 1], keep[..|keep| - 1]);
    }
  }

  /** A ServerOp together with what its messages record: every value one
      makeProgress() call reads or changes. Without a message its part holds
      the defaults. */
  datatype View = View(fields: Fields,
                       dropped: bool, acknowledgements: nat, failures: nat, requestReleases: nat,
                       status: Status, prepended: seq<Header>, sentTo: seq<Address>,
                       cancellations: nat, responseReleases: nat)

  function ViewOf(op: ServerOp): View
    reads op, op.request, op.response
  {
    var q := op.request;
    var p := op.response;
    View(op.Snapshot(),
         q != null && q.isDropped,
         if q != null then q.acknowledgements else 0,
         if q != null then q.failures else 0,
         if q != null then q.releases else 0,
         if p != null then p.status else NotStarted,
         if p != null then p.prepended else [],
         if p != null then p.sentTo else [],
         if p != null then p.cancellations else 0,
         if p != null then p.releases else 0)
  }

  /** The views of a list of ops, in list order. */
  ghost function ViewsOf(ops: seq<ServerOp>): (vs: seq<View>)
    reads ops, set o | o in ops :: o.request, set o | o in ops :: o.response
    ensures |vs| == |ops| && forall j :: 0 <= j < |ops| ==> vs[j] == ViewOf(ops[j])
  {
    if ops == [] then [] else ViewsOf(ops[..|ops| - 1]) + [ViewOf(ops[|ops| - 1])]
  }

  /** `op` now shows what one makeProgress() call on an op that looked like
      `before` leaves behind, each message of it released once more when
      `released` holds; nothing else about it differs. */
  predicate AdvancedFrom(op: ServerOp, before: View, released: bool)
    reads op, op.request, op.response
  {
    var f := before.fields;
    var o := S.Progress(f.state, before.dropped, before.status, f.delegated, f.stageId, f.detached);
    var extra := if released then 1 else 0;
    ViewOf(op) == before.(fields := f.(state := o.state),
                          acknowledgements := before.acknowledgements + (if o.acknowledge then 1 else 0),
                          failures := before.failures + (if o.fail then 1 else 0),
                          requestReleases := before.requestReleases + (if f.request != null then extra else 0),
                          cancellations := before.cancellations + (if o.cancel then 1 else 0),
                          responseReleases := before.responseReleases + (if f.response != null then extra else 0))
  }

  /** What one makeProgress() call did to `op` and its messages since the old
      state, and whether the op was then also released (erased from the
      detached list). */
  twostate predicate Advanced(op: ServerOp, released: bool)
    reads op, op.request, op.response
  {
    AdvancedFrom(op, old(ViewOf(op)), released)
  }

  /** The sets of messages the ops of a list hold. */
  function RequestsHeld(ops: seq<ServerOp>): set<InMessage?>
    reads ops
  {
    set o | o in ops :: o.request
  }

  function ResponsesHeld(ops: seq<ServerOp>): set<OutMessage?>
    reads ops
  {
    set o | o in ops :: o.response
  }

  /** Each op of `all`, and each message recorded in its view, has one position. */
  predicate Placed(all: seq<ServerOp>, before: seq<View>, opAt: map<ServerOp, nat>,
                   requestAt: map<InMessage?, nat>, responseAt: map<OutMessage?, nat>)
  {
    && |before| == |all|
    && forall j :: 0 <= j < |all| ==>
         && all[j] in opAt && opAt[all[j]] == j
         && before[j].fields.request != null && before[j].fields.response != null
         && before[j].fields.request in requestAt && requestAt[before[j].fields.request] == j
         && before[j].fields.response in responseAt && responseAt[before[j].fields.response] == j
  }

  /** Ops and the messages of their views that are pairwise distinct each
      have one position. */
  lemma Place(all: seq<ServerOp>, before: seq<View>)
    returns (opAt: map<ServerOp, nat>, requestAt: map<InMessage?, nat>, responseAt: map<OutMessage?, nat>)
    requires |before| == |all|
    requires forall j :: 0 <= j < |all| ==> before[j].fields.request != null && before[j].fields.response != null
    requires forall a, b :: 0 <= a < b < |all| ==>
      && all[a] != all[b] && before[a].fields.request != before[b].fields.request
      && before[a].fields.response != before[b].fields.response
    ensures Placed(all, before, opAt, requestAt, responseAt)
  {
    opAt := Positions(all);
    var requests := seq(|all|, j requires 0 <= j < |all| => before[j].fields.request);
    var responses := seq(|all|, j requires 0 <= j < |all| => before[j].fields.response);
    requestAt := Positions(requests);
    responseAt := Positions(responses);
    assert forall j :: 0 <= j < |all| ==> requests[j] == before[j].fields.request && responses[j] == before[j].fields.response;
  }

  /** The fields of each op of `ops`, in order. */
  ghost function SnapshotsOf(ops: seq<ServerOp>): seq<Fields>
    reads ops
  {
    seq(|ops|, j requires 0 <= j < |ops| reads ops => ops[j].Snapshot())
  }

  /** The queue's adopted tail after one more delivery, on fields alone. */
  lemma AdoptedGrow(olds: seq<Fields>, news: seq<Fields>, n0: nat, before: seq<Delivery>, d: Delivery)
    requires |olds| == n0 + |before|
    requires forall j :: n0 <= j < |olds| ==> olds[j] == Adopted(before[j - n0])
    requires |news| == |olds| + (if IsResponse(d.header) then 0 else 1) && news[..|olds|] == olds
    requires !IsResponse(d.header) ==> news[|olds|] == Adopted(d)
    ensures var after := before + (if IsResponse(d.header) then [] else [d]);
      forall j :: n0 <= j < |news| ==> news[j] == Adopted(after[j - n0])
  {
    var after := before + (if IsResponse(d.header) then [] else [d]);
    forall j | n0 <= j < |news| ensures news[j] == Adopted(after[j - n0]) {
      if j < |olds| {
        assert news[j] == news[..|olds|][j];
      }
    }
  }

  /** Each op of `all` still holds the messages recorded in its view. */
  ghost predicate Holding(all: seq<ServerOp>, before: seq<View>)
    reads all
  {
    |before| == |all|
    && forall j :: 0 <= j < |all| ==>
         all[j].request == before[j].fields.request && all[j].response == before[j].fields.response
  }

  /** The first `n` ops of `all` have made progress once since their views
      were taken, and were released when their flag is clear, which is exactly
      when they are no longer InProgress. */
  ghost predicate Visited(all: seq<ServerOp>, before: seq<View>, n: nat, flags: seq<bool>)
    reads all, RequestsHeld(all), ResponsesHeld(all)
  {
    n <= |all| == |before| && |flags| == n
    && forall j :: 0 <= j < n ==>
         AdvancedFrom(all[j], before[j], !flags[j]) && (flags[j] <==> all[j].state == S.InProgress)
  }

  /** The ops of `all` from `n` on still look as their views say. */
  ghost predicate Unvisited(all: seq<ServerOp>, before: seq<View>, n: nat)
    reads all, RequestsHeld(all), ResponsesHeld(all)
  {
    n <= |all| == |before|
    && forall j :: n <= j < |all| ==> ViewOf(all[j]) == before[j]
  }

  /** One step of the sweep as VisitedStep sees it: the ops and their views,
      the position visited, the flags so far and whether that op was kept. */
  datatype Visiting = Visiting(all: seq<ServerOp>, before: seq<View>, n: nat, flags: seq<bool>, keep: bool)

  /** When `all[n]` made progress (and was released unless kept) while every
      other op and its messages stayed as they were, one more op is visited. */
  twostate lemma VisitedStep(c: Visiting)
    requires c.n < |c.all| && old(Holding(c.all, c.before))
    requires old(Visited(c.all, c.before, c.n, c.flags)) && old(Unvisited(c.all, c.before, c.n))
    requires forall j :: 0 <= j < |c.all| && j != c.n ==>
      && unchanged(c.all[j])
      && (c.all[j].request != null ==> unchanged(c.all[j].request))
      && (c.all[j].response != null ==> unchanged(c.all[j].response))
    requires Advanced(c.all[c.n], !c.keep) && (c.keep <==> c.all[c.n].state == S.InProgress)
    ensures Holding(c.all, c.before)
    ensures Visited(c.all, c.before, c.n + 1, c.flags + [c.keep]) && Unvisited(c.all, c.before, c.n + 1)
  {
    var all, before, n, flags := c.all, c.before, c.n, c.flags;
    forall j | 0 <= j < n
      ensures AdvancedFrom(all[j], before[j], !flags[j]) && (flags[j] <==> all[j].state == S.InProgress)
    {
      assert old(AdvancedFrom(all[j], before[j], !flags[j]));
    }
    forall j | n < j < |all| ensures ViewOf(all[j]) == before[j] {
      assert old(ViewOf(all[j])) == before[j];
    }
  }

  /** A RemoteOp together with what its request records: every value the
      drain loop of poll() reads or changes. */
  datatype RemoteView = RemoteView(opId: OpId, state: R.State, response: InMessage?,
                                   status: Status, prepended: seq<Header>, sentTo: seq<Address>,
                                   cancellations: nat, releases: nat)

  function RemoteViewOf(op: RemoteOp): RemoteView
    reads op, op.request
  {
    RemoteView(op.opId, op.state, op.response, op.request.status, op.request.prepended, op.request.sentTo,
               op.request.cancellations, op.request.releases)
  }

  /** `op` now shows what the drain loop does to an op that looked like `v`
      when the responses addressed to it were `responses`: the last one
      becomes its response and completes it, each one cancels the request
      once, and nothing else changes. */
  predicate AnsweredFrom(op: RemoteOp, v: RemoteView, responses: seq<InMessage>)
    reads op, op.request
  {
    RemoteViewOf(op) == AnswerView(v, responses)
  }

  /** The view of an op that looked like `v` once `responses` have answered it. */
  function AnswerView(v: RemoteView, responses: seq<InMessage>): RemoteView
  {
    if responses == [] then v
    else v.(state := R.Completed, response := responses[|responses| - 1],
            cancellations := v.cancellations + |responses|)
  }

  /** An op answered by the responses among the first `t` deliveries, and
      then by the one at `t`, has been answered by the first `t + 1`. */
  lemma AnsweredOneMore(base: RemoteView, ds: seq<Delivery>, t: nat, k: OpId, mid: RemoteView, now: RemoteView)
    requires t < |ds| && mid == AnswerView(base, ResponsesFor(ds[..t], k))
    requires now == AnswerView(mid, ResponseTo(ds[t], k))
    ensures now == AnswerView(base, ResponsesFor(ds[..t + 1], k))
  {
    DeliveredOne(ds, t, k);
    AnswerViewAppend(base, ResponsesFor(ds[..t], k), ResponseTo(ds[t], k));
  }

  /** The view of each op of a registry. */
  ghost function RemoteViewsOf(ops: map<OpId, RemoteOp>): map<OpId, RemoteView>
    reads ops.Values, set op | op in ops.Values :: op.request
  {
    map k | k in ops :: RemoteViewOf(ops[k])
  }

  /** AnsweredOneMore for every op of a registry at once. */
  lemma AnsweredAllOneMore(base: map<OpId, RemoteView>, ds: seq<Delivery>, t: nat,
                           mids: map<OpId, RemoteView>, nows: map<OpId, RemoteView>)
    requires t < |ds| && mids.Keys == base.Keys == nows.Keys
    requires forall k :: k in base ==> mids[k] == AnswerView(base[k], ResponsesFor(ds[..t], k))
    requires forall k :: k in base ==> nows[k] == AnswerView(mids[k], ResponseTo(ds[t], k))
    ensures forall k :: k in base ==> nows[k] == AnswerView(base[k], ResponsesFor(ds[..t + 1], k))
  {
    forall k | k in base ensures nows[k] == AnswerView(base[k], ResponsesFor(ds[..t + 1], k)) {
      AnsweredOneMore(base[k], ds, t, k, mids[k], nows[k]);
    }
  }

  /** Answering in two instalments is answering once with both. */
  lemma AnswerViewAppend(v: RemoteView, first: seq<InMessage>, second: seq<InMessage>)
    ensures AnswerView(AnswerView(v, first), second) == AnswerView(v, first + second)
  {
    if first != [] && second != [] {
      assert (first + second)[|first + second| - 1] == second[|second| - 1];
    } else if second == [] {
      assert first + second == first;
    } else {
      assert first + second == second;
    }
  }

  /** What the drain loop did to `op` since the old state. */
  twostate predicate Answered(op: RemoteOp, responses: seq<InMessage>)
    reads op, op.request
  {
    AnsweredFrom(op, old(RemoteViewOf(op)), responses)
  }

  /** The messages of a sequence of deliveries. */
  function MessagesOf(ds: seq<Delivery>): set<InMessage>
  {
    set d | d in ds :: d.message
  }

  /** The ghost bookkeeping of poll()'s drain loop: the deliveries, how many
      have been handled, the pending queue, the registered ops' views and the
      messages' release counts it started with, and where each message sits. */
  datatype Drainage = Drainage(incoming: seq<Delivery>, t: nat, pending0: seq<ServerOp>,
                               base: map<OpId, RemoteView>, released0: seq<nat>,
                               messageAt: map<InMessage, nat>)

  /** Where each delivered message sits in the sequence. */
  predicate Numbered(ds: seq<Delivery>, messageAt: map<InMessage, nat>)
  {
    forall i :: 0 <= i < |ds| ==> ds[i].message in messageAt && messageAt[ds[i].message] == i
  }

  /** Taking one more delivery into account. */
  lemma DeliveredOne(ds: seq<Delivery>, t: nat, k: OpId)
    requires t < |ds|
    ensures RequestsOf(ds[..t + 1]) == RequestsOf(ds[..t]) + (if IsResponse(ds[t].header) then [] else [ds[t]])
    ensures ResponsesFor(ds[..t + 1], k) == ResponsesFor(ds[..t], k) + ResponseTo(ds[t], k)
  {
    assert ds[..t + 1][..t] == ds[..t];
  }


  /** The first `n` messages of `ms` have been released once more than `r0`
      records, and the others exactly as often. */
  ghost predicate RequestsReleased(ms: seq<InMessage>, r0: seq<nat>, n: nat)
    reads ms
  {
    |ms| == |r0| && forall j :: 0 <= j < |ms| ==> ms[j].releases == r0[j] + (if j < n then 1 else 0)
  }

  ghost predicate ResponsesReleased(ms: seq<OutMessage>, r0: seq<nat>, n: nat)
    reads ms
  {
    |ms| == |r0| && forall j :: 0 <= j < |ms| ==> ms[j].releases == r0[j] + (if j < n then 1 else 0)
  }

  /** The messages the manager's ops hold when its destructor starts: the
      pending requests, the detached requests and responses, where each sits,
      and how often each had been released. */
  datatype Holdings = Holdings(pq: seq<InMessage>, dq: seq<InMessage>, dr: seq<OutMessage>,
                               requestAt: map<InMessage, nat>, responseAt: map<OutMessage, nat>,
                               pr0: seq<nat>, dq0: seq<nat>, dr0: seq<nat>)

  /** Each held message has one position: the pending requests first, then
      the detached ones; the responses on their own. */
  predicate Sited(h: Holdings)
  {
    && |h.dq| == |h.dr|
    && (forall j :: 0 <= j < |h.pq| ==> h.pq[j] in h.requestAt && h.requestAt[h.pq[j]] == j)
    && (forall j :: 0 <= j < |h.dq| ==>
          && h.dq[j] in h.requestAt && h.requestAt[h.dq[j]] == |h.pq| + j
          && h.dr[j] in h.responseAt && h.responseAt[h.dr[j]] == j)
  }

  /** Messages that are pairwise distinct each have one position. */
  lemma Site(pq: seq<InMessage>, dq: seq<InMessage>, dr: seq<OutMessage>)
    returns (requestAt: map<InMessage, nat>, responseAt: map<OutMessage, nat>)
    requires |dq| == |dr|
    requires forall a, b :: 0 <= a < b < |pq| ==> pq[a] != pq[b]
    requires forall a, b :: 0 <= a < b < |dq| ==> dq[a] != dq[b] && dr[a] != dr[b]
    requires forall a, b :: 0 <= a < |pq| && 0 <= b < |dq| ==> pq[a] != dq[b]
    ensures forall j :: 0 <= j < |pq| ==> pq[j] in requestAt && requestAt[pq[j]] == j
    ensures forall j :: 0 <= j < |dq| ==>
      && dq[j] in requestAt && requestAt[dq[j]] == |pq| + j
      && dr[j] in responseAt && responseAt[dr[j]] == j
  {
    var all := pq + dq;
    forall a, b | 0 <= a < b < |all| ensures all[a] != all[b] {
      if b < |pq| {
      } else if |pq| <= a {
        assert all[a] == dq[a - |pq|] && all[b] == dq[b - |pq|];
      } else {
        assert all[b] == dq[b - |pq|];
      }
    }
    requestAt := Positions(all);
    responseAt := Positions(dr);
    assert forall j :: 0 <= j < |pq| ==> all[j] == pq[j];
    assert forall j :: 0 <= j < |dq| ==> all[|pq| + j] == dq[j];
  }

  /** How often each message of the lists has been released so far. */
  lemma Counts(pq: seq<InMessage>, dq: seq<InMessage>, dr: seq<OutMessage>)
    returns (pr0: seq<nat>, dq0: seq<nat>, dr0: seq<nat>)
    ensures RequestsReleased(pq, pr0, 0) && RequestsReleased(dq, dq0, 0) && ResponsesReleased(dr, dr0, 0)
  {
    pr0 := seq(|pq|, j requires 0 <= j < |pq| reads pq => pq[j].releases);
    dq0 := seq(|dq|, j requires 0 <= j < |dq| reads dq => dq[j].releases);
    dr0 := seq(|dr|, j requires 0 <= j < |dr| reads dr => dr[j].releases);
  }

  /** A client call (RemoteOp). */
  class RemoteOp {
    const request: OutMessage
    var response: InMessage?
    const transport: OpManager
    var opId: OpId
    var state: R.State

    /** RemoteOp(OpManager*): allocates the request; the op is not started. */
    constructor (transport: OpManager)
      ensures this.transport == transport && fresh(request) && request.IsBlank()
      ensures response == null && opId == DEFAULT_OP_ID && state == R.NotStarted
    {
      request := new OutMessage();
      response := null;
      this.transport := transport;
      opId := DEFAULT_OP_ID;
      state := R.NotStarted;
    }

    /** ~RemoteOp(): releases both messages and erases the registry entry for
        `opId` (the default id if the op was never sent). */
    method Destroy()
      modifies request`releases, response, transport`remoteOps
      ensures request.releases == old(request.releases) + 1
      ensures response != null ==> response.releases == old(response.releases) + 1
      ensures response != null ==> unchanged(response`isDropped, response`acknowledgements, response`failures)
      ensures transport.remoteOps == old(transport.remoteOps) - {opId}
      ensures old(transport.Valid()) ==> transport.Valid()
    {
      request.Release();
      if response != null {
        response.Release();
      }
      transport.remoteOps := transport.remoteOps - {opId};
      if old(transport.Valid()) {
        transport.EntryErased();
      }
    }

    /** send(destination): draws the next op id, prepends the initial-request
        header, registers the op and transmits the request. Callers send an op
        at most once. */
    method Send(destination: Address)
      requires state == R.NotStarted
      requires transport.Valid() && transport.Accepts(this)
      modifies this`state, this`opId, request`prepended, request`sentTo,
               transport`nextOpSequenceNumber, transport`remoteOps
      ensures state == R.InProgress
      ensures opId == OpId(transport.transportId, old(transport.nextOpSequenceNumber))
      ensures transport.nextOpSequenceNumber == old(transport.nextOpSequenceNumber) + 1
      // the id was never handed out before, and now it has been
      ensures opId !in old(transport.Issued())
      ensures transport.Issued() == old(transport.Issued()) + {opId}
      ensures transport.remoteOps == old(transport.remoteOps)[opId := this]
      ensures request.prepended == [Header(opId, INITIAL_REQUEST_ID, transport.localAddress)] + old(request.prepended)
      ensures request.sentTo == old(request.sentTo) + [destination]
      ensures transport.Valid()
    {
      // a registered op is started, so this one is not registered yet
      assert this !in transport.remoteOps.Values;
      state := R.InProgress;
      var replyAddress := transport.localAddress;
      opId := OpId(transport.transportId, transport.nextOpSequenceNumber);
      transport.nextOpSequenceNumber := transport.nextOpSequenceNumber + 1;
      var outboundHeader := Header(opId, INITIAL_REQUEST_ID, replyAddress);
      request.Prepend(outboundHeader);
      assert opId !in transport.remoteOps;
      transport.remoteOps := transport.remoteOps[opId := this];
      request.Send(destination);
      transport.EntryAdded(this);
      assert transport.Issued() == old(transport.Issued()) + {opId} by {
        forall x | x in transport.Issued() ensures x in old(transport.Issued()) + {opId} {
          if x != opId {
            assert x.sequence < old(transport.nextOpSequenceNumber);
          }
        }
      }
    }

    /** The matched-response branch of poll()'s drain loop: the message becomes
        the response, the request is cancelled and the op is Completed. */
    method Complete(m: InMessage)
      modifies this`response, this`state, request`cancellations
      ensures response == m && state == R.Completed
      ensures request.cancellations == old(request.cancellations) + 1
    {
      response := m;
      request.Cancel();
      state := R.Completed;
    }

    /** isReady(): an in-flight op whose request failed becomes Failed; the
        answer is whether the op is finished. */
    method IsReady() returns (ready: bool)
      modifies this`state
      ensures R.Check(state, ready) == R.IsReady(old(state), request.status)
      ensures old(transport.Valid()) ==> transport.Valid()
    {
      var copyOfState := state;
      match copyOfState
      case NotStarted =>
        ready := false;
      case InProgress =>
        if request.status == Failed {
          state := R.Failed;
          ready := true;
        } else {
          ready := false;
        }
      case Completed =>
        ready := true;
      case Failed =>
        ready := true;
    }
  }

  /** One stage of a server-side call (ServerOp): a move-only handle. */
  class ServerOp {
    var request: InMessage?
    var response: OutMessage?
    var transport: OpManager?
    var state: S.State
    var detached: bool
    var opId: OpId
    var stageId: nat
    var replyAddress: Address
    var delegated: bool

    function Snapshot(): Fields
      reads this
    {
      Fields(request, response, transport, state, detached, opId, stageId, replyAddress, delegated)
    }

    /** Whether destruction moves the op into the manager's detached list. */
    predicate AutoDetaches()
      reads this
    {
      transport != null && !detached && state != S.NotStarted
    }

    /** How poll() leaves a new op in the pending queue: it holds only its request. */
    ghost predicate IsPending()
      reads this
    {
      request != null && response == null && transport == null && state == S.NotStarted
      && !detached && !delegated
    }

    /** How an op sits in `m`'s detached list. */
    ghost predicate IsDetachedBy(m: OpManager)
      reads this
    {
      request != null && response != null && transport == m && detached && state != S.NotStarted
    }

    /** ServerOp(): the empty op. */
    constructor ()
      ensures Snapshot() == EMPTY
    {
      request := null;
      response := null;
      transport := null;
      state := S.NotStarted;
      detached := false;
      opId := DEFAULT_OP_ID;
      stageId := 0;
      replyAddress := 0;
      delegated := false;
    }

    /** ServerOp(ServerOp&&): takes every field of `other` and leaves it empty. */
    constructor MoveFrom(other: ServerOp)
      modifies other
      ensures Snapshot() == old(other.Snapshot())
      ensures other.Snapshot() == EMPTY
    {
      request := other.request;
      response := other.response;
      transport := other.transport;
      state := other.state;
      detached := other.detached;
      opId := other.opId;
      stageId := other.stageId;
      replyAddress := other.replyAddress;
      delegated := other.delegated;
      new;
      other.request := null;
      other.response := null;
      other.transport := null;
      other.state := S.NotStarted;
      other.detached := false;
      other.opId := DEFAULT_OP_ID;
      other.stageId := 0;
      other.replyAddress := 0;
      other.delegated := false;
    }

    /** operator=(ServerOp&&): takes every field of `other` and leaves it empty.
        Like the source, it does not release what this op held before. */
    method MoveAssign(other: ServerOp)
      modifies this, other
      ensures other != this ==> Snapshot() == old(other.Snapshot())
      ensures other.Snapshot() == EMPTY
    {
      request := other.request;
      response := other.response;
      transport := other.transport;
      state := other.state;
      detached := other.detached;
      opId := other.opId;
      stageId := other.stageId;
      replyAddress := other.replyAddress;
      delegated := other.delegated;

      other.request := null;
      other.response := null;
      other.transport := null;
      other.state := S.NotStarted;
      other.detached := false;
      other.opId := DEFAULT_OP_ID;
      other.stageId := 0;
      other.replyAddress := 0;
      other.delegated := false;
    }

    /** operator bool: whether the op holds a request. */
    method IsNonEmpty() returns (b: bool)
      ensures b <==> request != null
      ensures Snapshot() == EMPTY ==> !b
    {
      if request != null {
        b := true;
      } else {
        b := false;
      }
    }

    /** makeProgress(): one step of the state machine; returns the new state. */
    method MakeProgress() returns (result: S.State)
      requires state == S.InProgress ==> request != null
      requires state == S.Failed && detached ==> request != null
      modifies this`state, request, response
      ensures Advanced(this, false)
      ensures result == state
    {
      var copyOfState := state;
      var outState := NotStarted;
      if response != null {
        outState := response.status;
      }
      if copyOfState == S.NotStarted {
        // nothing to do
      } else if copyOfState == S.InProgress {
        if request.isDropped {
          state := S.Dropped;
        } else if outState == Completed || (outState == Sent && !delegated) {
          state := S.Completed;
          if stageId != INITIAL_REQUEST_ID {
            request.Acknowledge();
          }
        } else if outState == Failed {
          state := S.Failed;
          response.Cancel();
        }
      } else if copyOfState == S.Completed {
        // nothing to do
      } else if copyOfState == S.Dropped {
        // nothing to do
      } else if copyOfState == S.Failed {
        if detached {
          request.Fail();
        }
      }
      result := state;
    }

    /** The last steps of receiveServerOp(): a fresh response, the manager,
        and the InProgress state. */
    method Start(manager: OpManager)
      modifies this
      ensures fresh(response) && response.IsBlank()
      ensures Snapshot() == old(Snapshot()).(response := response, transport := manager, state := S.InProgress)
    {
      response := new OutMessage();
      transport := manager;
      state := S.InProgress;
    }

    /** The header reply() prepends. */
    function ReplyHeader(): Header
      reads this
    {
      Header(opId, ULTIMATE_RESPONSE_ID, replyAddress)
    }

    /** The header delegate() prepends: the same op and reply address, the next stage. */
    function DelegateHeader(): Header
      reads this
    {
      Header(opId, DelegatedStage(stageId), replyAddress)
    }

    /** reply(): sends the response to the original sender under the
        ultimate-response stage id; on an empty op nothing is sent. */
    method Reply()
      requires request != null ==> response != null
      modifies response
      ensures request != null ==> Transmitted(response, ReplyHeader(), replyAddress)
      ensures request == null && response != null ==> unchanged(response)
    {
      if request != null {
        var header := Header(opId, ULTIMATE_RESPONSE_ID, replyAddress);
        response.Prepend(header);
        response.Send(replyAddress);
      }
    }

    /** delegate(destination): forwards the call to the next stage at
        `destination` and marks the op delegated; on an empty op nothing happens. */
    method Delegate(destination: Address)
      requires request != null ==> response != null
      modifies this`delegated, response
      ensures request != null ==> delegated && Transmitted(response, old(DelegateHeader()), destination)
      ensures request == null ==> delegated == old(delegated)
      ensures request == null && response != null ==> unchanged(response)
    {
      if request != null {
        delegated := true;
        var header := Header(opId, stageId + 1, replyAddress);
        response.Prepend(header);
        response.Send(destination);
      }
    }

    /** ~ServerOp(): an op that has a manager, is not yet detached and was
        started is moved into the manager's detached list and nothing is
        released; otherwise each message it holds is released once. */
    method Destroy()
      requires AutoDetaches() ==> transport.Valid() && transport.CanAdopt(this)
      modifies this, transport, request, response
      ensures old(AutoDetaches()) ==>
        var t := old(transport);
        && Snapshot() == EMPTY
        && |t.detachedServerOps| == |old(t.detachedServerOps)| + 1
        && t.detachedServerOps[..|old(t.detachedServerOps)|] == old(t.detachedServerOps)
        && fresh(t.detachedServerOps[|old(t.detachedServerOps)|])
        && t.detachedServerOps[|old(t.detachedServerOps)|].Snapshot() == old(Snapshot()).(detached := true)
        && t.pendingServerOps == old(t.pendingServerOps)
        && t.remoteOps == old(t.remoteOps)
        && t.nextOpSequenceNumber == old(t.nextOpSequenceNumber)
        && t.Valid()
        && unchanged(old(request), old(response))
      ensures !old(AutoDetaches()) ==> unchanged(this) && (transport != null ==> unchanged(transport))
      ensures !old(AutoDetaches()) && request != null ==>
        && request.releases == old(request.releases) + 1
        && unchanged(request`isDropped, request`acknowledgements, request`failures)
      ensures !old(AutoDetaches()) && response != null ==>
        && response.releases == old(response.releases) + 1
        && unchanged(response`status, response`cancellations, response`prepended, response`sentTo)
    {
      if transport != null && !detached && state != S.NotStarted {
        var t := transport;
        // neither a pending op (not started) nor a detached one (detached)
        assert forall i :: 0 <= i < |t.pendingServerOps| ==> t.pendingServerOps[i] != this;
        assert forall i :: 0 <= i < |t.detachedServerOps| ==> t.detachedServerOps[i] != this;
        detached := true;
        var entry := new ServerOp.MoveFrom(this);
        t.detachedServerOps := t.detachedServerOps + [entry];
        t.DetachedAppended(entry);
        t.RegisteredKept();
        t.SeparatedAppended(entry);
        t.AnswersDetached(entry);
      } else {
        if request != null {
          request.Release();
        }
        if response != null {
          response.Release();
        }
      }
    }
  }

  /** The per-transport registry (OpManager). */
  class OpManager {
    const transportId: nat
    /** The driver's local address, written into the header of every request. */
    const localAddress: Address
    /** The counter's first value. */
    const firstSequenceNumber: nat
    var nextOpSequenceNumber: nat
    var remoteOps: map<OpId, RemoteOp>
    var pendingServerOps: seq<ServerOp>
    var detachedServerOps: seq<ServerOp>

    /** OpManager(driver, transportId): empty registry. */
    constructor (transportId: nat, localAddress: Address, firstSequenceNumber: nat)
      ensures this.transportId == transportId && this.localAddress == localAddress
      ensures this.firstSequenceNumber == firstSequenceNumber
      ensures nextOpSequenceNumber == firstSequenceNumber
      ensures remoteOps == map[] && pendingServerOps == [] && detachedServerOps == []
      ensures Valid() && Issued() == {}
    {
      this.transportId := transportId;
      this.localAddress := localAddress;
      this.firstSequenceNumber := firstSequenceNumber;
      nextOpSequenceNumber := firstSequenceNumber;
      remoteOps := map[];
      pendingServerOps := [];
      detachedServerOps := [];
    }

    /** The op ids handed out so far. */
    function Issued(): set<OpId>
      reads this
    {
      set s: nat | firstSequenceNumber <= s < nextOpSequenceNumber :: OpId(transportId, s)
    }

    /** The default id that an op carries until it is sent is one of the ids
        this manager hands out exactly when its transport id is 0, its counter
        started at 0 and it has sent an op. */
    lemma DefaultIdIssued()
      ensures DEFAULT_OP_ID in Issued() <==> transportId == 0 && firstSequenceNumber == 0 < nextOpSequenceNumber
    {
      if transportId == 0 && firstSequenceNumber == 0 < nextOpSequenceNumber {
        assert OpId(transportId, 0) in Issued();
      }
    }

    /** Every registry entry maps an id this manager issued to a started op
        that carries that id and owns its own request. */
    ghost predicate Registered()
      reads this`remoteOps, this`nextOpSequenceNumber, remoteOps.Values
    {
      && firstSequenceNumber <= nextOpSequenceNumber
      && (forall k :: k in remoteOps ==>
            && k.transportId == transportId
            && firstSequenceNumber <= k.sequence < nextOpSequenceNumber
            && remoteOps[k].opId == k
            && remoteOps[k].transport == this
            && remoteOps[k].state != R.NotStarted)
      && (forall k, k' :: k in remoteOps && k' in remoteOps && k != k' ==>
            remoteOps[k].request != remoteOps[k'].request)
    }

    /** Pending ops hold only their request; detached ops are started, belong
        to this manager and hold both messages; no two ops share a message. */
    ghost predicate Lists()
      reads this`pendingServerOps, this`detachedServerOps, pendingServerOps, detachedServerOps
    {
      && (forall i :: 0 <= i < |pendingServerOps| ==> pendingServerOps[i].IsPending())
      && (forall i :: 0 <= i < |detachedServerOps| ==> detachedServerOps[i].IsDetachedBy(this))
      && Exclusive(pendingServerOps) && Exclusive(detachedServerOps)
      && Apart(pendingServerOps, detachedServerOps)
    }

    /** Lists() depends only on the two lists and the ops in them. */
    twostate lemma ListsKept()
      requires old(Lists())
      requires unchanged(this`pendingServerOps, this`detachedServerOps)
      requires unchanged(old(pendingServerOps)) && unchanged(old(detachedServerOps))
      ensures Lists()
    {
    }

    /** A request appended to the pending queue as a new op keeps Lists(). */
    twostate lemma PendingAppended(new entry: ServerOp)
      requires old(Lists())
      requires pendingServerOps == old(pendingServerOps) + [entry]
      requires unchanged(this`detachedServerOps)
      requires unchanged(old(pendingServerOps)) && unchanged(old(detachedServerOps))
      requires entry.IsPending()
      requires forall i :: 0 <= i < |old(pendingServerOps)| ==>
        old(pendingServerOps)[i] != entry && old(pendingServerOps)[i].request != entry.request
      requires forall i :: 0 <= i < |detachedServerOps| ==>
        detachedServerOps[i] != entry && detachedServerOps[i].request != entry.request
      ensures Lists()
    {
      var ps := pendingServerOps;
      assert forall i :: 0 <= i < |old(pendingServerOps)| ==> ps[i] == old(pendingServerOps)[i];
    }

    /** Popping the front of the pending queue keeps Lists(). */
    twostate lemma PendingPopped()
      requires old(Lists()) && old(pendingServerOps) != []
      requires pendingServerOps == old(pendingServerOps)[1..]
      requires unchanged(this`detachedServerOps)
      requires unchanged(pendingServerOps) && unchanged(detachedServerOps)
      ensures Lists()
    {
      var ps := pendingServerOps;
      assert forall i :: 0 <= i < |ps| ==> ps[i] == old(pendingServerOps)[i + 1];
    }

    /** An op appended to the detached list keeps Lists(). */
    twostate lemma DetachedAppended(new entry: ServerOp)
      requires old(Lists())
      requires detachedServerOps == old(detachedServerOps) + [entry]
      requires unchanged(this`pendingServerOps)
      requires unchanged(old(pendingServerOps)) && unchanged(old(detachedServerOps))
      requires entry.IsDetachedBy(this)
      requires forall i :: 0 <= i < |pendingServerOps| ==>
        pendingServerOps[i] != entry && pendingServerOps[i].request != entry.request
      requires forall i :: 0 <= i < |old(detachedServerOps)| ==>
        && old(detachedServerOps)[i] != entry && old(detachedServerOps)[i].request != entry.request
        && old(detachedServerOps)[i].response != entry.response
      ensures Lists()
    {
      var ds := detachedServerOps;
      assert forall i :: 0 <= i < |old(detachedServerOps)| ==> ds[i] == old(detachedServerOps)[i];
    }

    /** Registered() survives any change that keeps the registry, the counter,
        and each registered op's id, and leaves every registered op started. */
    twostate lemma RegisteredKept()
      requires old(Registered())
      requires unchanged(this`remoteOps, this`nextOpSequenceNumber)
      requires forall k :: k in remoteOps ==>
        remoteOps[k].opId == old(remoteOps[k].opId) && remoteOps[k].state != R.NotStarted
      ensures Registered()
    {
    }

    /** An op appended to the detached list whose response is no registered
        request keeps Separated(). */
    twostate lemma SeparatedAppended(new entry: ServerOp)
      requires old(Separated())
      requires unchanged(this`remoteOps) && detachedServerOps == old(detachedServerOps) + [entry]
      requires unchanged(old(detachedServerOps))
      requires forall k :: k in remoteOps ==> remoteOps[k].request != entry.response
      ensures Separated()
    {
      var ds := detachedServerOps;
      assert forall i :: 0 <= i < |old(detachedServerOps)| ==> ds[i] == old(detachedServerOps)[i];
    }

    /** Separated() survives any change that keeps the registry, the detached
        list and the detached ops' responses. */
    twostate lemma SeparatedKept()
      requires old(Separated())
      requires unchanged(this`remoteOps, this`detachedServerOps)
      requires forall i :: 0 <= i < |detachedServerOps| ==>
        detachedServerOps[i].response == old(detachedServerOps[i].response)
      ensures Separated()
    {
    }

    /** Registering a started op, which has no response yet, under the id
        just drawn from the counter keeps the invariant. */
    twostate lemma EntryAdded(op: RemoteOp)
      requires old(Valid()) && old(Accepts(op)) && op !in old(remoteOps.Values)
      requires nextOpSequenceNumber == old(nextOpSequenceNumber) + 1
      requires op.opId == OpId(transportId, old(nextOpSequenceNumber)) && remoteOps == old(remoteOps)[op.opId := op]
      requires op.transport == this && op.state != R.NotStarted && op.response == null
      requires unchanged(this`pendingServerOps, this`detachedServerOps)
      requires unchanged(old(remoteOps.Values)) && unchanged(old(pendingServerOps)) && unchanged(old(detachedServerOps))
      ensures Valid()
    {
      ListsKept();
      forall k | k in remoteOps
        ensures remoteOps[k].response == null || (k in old(remoteOps) && remoteOps[k].response == old(remoteOps[k].response))
      {
        if k != op.opId {
          assert remoteOps[k] == old(remoteOps)[k] && remoteOps[k] in old(remoteOps.Values);
        }
      }
      AnswersKept();
    }

    /** Erasing registry entries keeps the invariant. */
    twostate lemma EntryErased()
      requires old(Valid())
      requires unchanged(this`nextOpSequenceNumber, this`pendingServerOps, this`detachedServerOps)
      requires forall k :: k in remoteOps ==> k in old(remoteOps) && remoteOps[k] == old(remoteOps[k])
      requires unchanged(old(remoteOps.Values)) && unchanged(pendingServerOps) && unchanged(detachedServerOps)
      ensures Valid()
    {
    }

    /** No detached op's response is a registered op's request. */
    ghost predicate Separated()
      reads this`remoteOps, this`detachedServerOps, remoteOps.Values, detachedServerOps
    {
      forall k, i :: k in remoteOps && 0 <= i < |detachedServerOps| ==>
        remoteOps[k].request != detachedServerOps[i].response
    }

    /** Each registered op's response is its own: no two registered ops share
        one, and no op in the lists holds it as its request. */
    ghost predicate Answers()
      reads this, remoteOps.Values, pendingServerOps, detachedServerOps
    {
      && (forall k, k' :: k in remoteOps && k' in remoteOps && k != k' && remoteOps[k].response != null ==>
            remoteOps[k].response != remoteOps[k'].response)
      && (forall k, i :: k in remoteOps && 0 <= i < |pendingServerOps| && remoteOps[k].response != null ==>
            remoteOps[k].response != pendingServerOps[i].request)
      && (forall k, i :: k in remoteOps && 0 <= i < |detachedServerOps| && remoteOps[k].response != null ==>
            remoteOps[k].response != detachedServerOps[i].request)
    }

    /** Answers() survives any change that leaves the lists and their ops'
        requests alone and gives each registered op its old response or none. */
    twostate lemma AnswersKept()
      requires old(Answers())
      requires unchanged(this`pendingServerOps, this`detachedServerOps)
      requires forall i :: 0 <= i < |pendingServerOps| ==> pendingServerOps[i].request == old(pendingServerOps[i].request)
      requires forall i :: 0 <= i < |detachedServerOps| ==>
        detachedServerOps[i].request == old(detachedServerOps[i].request)
      requires forall k :: k in remoteOps ==>
        remoteOps[k].response == null || (k in old(remoteOps) && remoteOps[k].response == old(remoteOps[k].response))
      ensures Answers()
    {
    }

    /** A delivered response that becomes the response of the op it names
        keeps Answers() when no op held it before. */
    twostate lemma AnswersCompleted(d: Delivery)
      requires old(Answers()) && old(Unowned(d.message)) && old(Unanswered(d.message))
      requires unchanged(this`pendingServerOps, this`detachedServerOps)
      requires unchanged(old(pendingServerOps)) && unchanged(old(detachedServerOps))
      requires forall k :: k in remoteOps ==>
        k in old(remoteOps) && remoteOps[k].response == (if ResponseTo(d, k) != [] then d.message else old(remoteOps[k].response))
      ensures Answers()
    {
    }

    /** Leaving the registry and its ops' responses alone while one list
        changes: the part of Answers() about each list. */
    twostate predicate ResponsesKept()
      reads this`remoteOps, remoteOps.Values
    {
      && unchanged(this`remoteOps)
      && forall k :: k in remoteOps ==> remoteOps[k].response == old(remoteOps[k].response)
    }

    /** A new pending op whose request is no registered response keeps Answers(). */
    twostate lemma AnswersEnqueued(new entry: ServerOp)
      requires old(Answers()) && ResponsesKept()
      requires pendingServerOps == old(pendingServerOps) + [entry]
      requires unchanged(this`detachedServerOps) && unchanged(old(pendingServerOps)) && unchanged(detachedServerOps)
      requires forall k :: k in remoteOps ==> remoteOps[k].response != entry.request
      ensures Answers()
    {
      var ps := pendingServerOps;
      assert forall i :: 0 <= i < |old(pendingServerOps)| ==> ps[i] == old(pendingServerOps)[i];
    }

    /** Popping the front of the pending queue keeps Answers(). */
    twostate lemma AnswersPopped()
      requires old(Answers()) && ResponsesKept() && old(pendingServerOps) != []
      requires pendingServerOps == old(pendingServerOps)[1..]
      requires unchanged(this`detachedServerOps) && unchanged(pendingServerOps) && unchanged(detachedServerOps)
      ensures Answers()
    {
      var ps := pendingServerOps;
      assert forall i :: 0 <= i < |ps| ==> ps[i] == old(pendingServerOps)[i + 1];
    }

    /** A new detached op whose request is no registered response keeps Answers(). */
    twostate lemma AnswersDetached(new entry: ServerOp)
      requires old(Answers()) && ResponsesKept()
      requires detachedServerOps == old(detachedServerOps) + [entry]
      requires unchanged(this`pendingServerOps) && unchanged(pendingServerOps) && unchanged(old(detachedServerOps))
      requires forall k :: k in remoteOps ==> remoteOps[k].response != entry.request
      ensures Answers()
    {
      var ds := detachedServerOps;
      assert forall i :: 0 <= i < |old(detachedServerOps)| ==> ds[i] == old(detachedServerOps)[i];
    }

    /** Erasing the detached op at `at` keeps Answers(). */
    twostate lemma AnswersErased(at: nat)
      requires old(Answers()) && ResponsesKept() && at < |old(detachedServerOps)|
      requires detachedServerOps == old(detachedServerOps[..at] + detachedServerOps[at + 1..])
      requires unchanged(this`pendingServerOps) && unchanged(pendingServerOps) && unchanged(detachedServerOps)
      ensures Answers()
    {
      var ds := detachedServerOps;
      assert forall i :: 0 <= i < |ds| ==> ds[i] == old(detachedServerOps)[if i < at then i else i + 1];
    }

    /** Valid() depends only on the manager and its ops, not on their messages. */
    twostate lemma ValidFramed()
      requires old(Valid())
      requires unchanged(this) && unchanged(old(remoteOps.Values)) && unchanged(old(pendingServerOps)) && unchanged(old(detachedServerOps))
      ensures Valid()
    {
    }

    /** A delivered response that becomes the response of the op it names,
        and changes nothing else the invariant reads, keeps the invariant. */
    twostate lemma ValidCompleted(d: Delivery)
      requires old(Valid()) && old(Unowned(d.message)) && old(Unanswered(d.message))
      requires unchanged(this`remoteOps, this`nextOpSequenceNumber, this`pendingServerOps, this`detachedServerOps)
      requires unchanged(old(pendingServerOps)) && unchanged(old(detachedServerOps))
      requires forall k :: k in remoteOps ==>
        remoteOps[k].opId == old(remoteOps[k].opId) && remoteOps[k].state != R.NotStarted
      requires forall k :: k in remoteOps ==>
        remoteOps[k].response == (if ResponseTo(d, k) != [] then d.message else old(remoteOps[k].response))
      ensures Valid()
    {
      RegisteredKept();
      ListsKept();
      SeparatedKept();
      AnswersCompleted(d);
    }

    /** A new pending op holding a request no op holds or has received keeps
        the invariant. */
    twostate lemma ValidEnqueued(new entry: ServerOp)
      requires old(Valid()) && pendingServerOps == old(pendingServerOps) + [entry]
      requires unchanged(this`remoteOps, this`nextOpSequenceNumber, this`detachedServerOps)
      requires unchanged(old(remoteOps.Values)) && unchanged(old(pendingServerOps)) && unchanged(old(detachedServerOps))
      requires entry.IsPending()
      requires forall i :: 0 <= i < |old(pendingServerOps)| ==>
        old(pendingServerOps)[i] != entry && old(pendingServerOps)[i].request != entry.request
      requires forall i :: 0 <= i < |detachedServerOps| ==>
        detachedServerOps[i] != entry && detachedServerOps[i].request != entry.request
      requires forall k :: k in remoteOps ==> remoteOps[k].response != entry.request
      ensures Valid()
    {
      PendingAppended(entry);
      RegisteredKept();
      SeparatedKept();
      AnswersEnqueued(entry);
    }

    /** Erasing one op from the detached list, and changing nothing else,
        keeps the invariant. */
    twostate lemma DetachedErased(at: nat)
      requires old(Valid()) && at < |old(detachedServerOps)|
      requires detachedServerOps == old(detachedServerOps[..at] + detachedServerOps[at + 1..])
      requires unchanged(this`remoteOps, this`nextOpSequenceNumber, this`pendingServerOps)
      requires unchanged(old(remoteOps.Values)) && unchanged(old(pendingServerOps)) && unchanged(old(detachedServerOps))
      ensures Valid()
    {
      var before := old(detachedServerOps);
      var op := before[at];
      assert Exclusive(before) && Apart(pendingServerOps, before);
      forall j | 0 <= j < |before| && j != at
        ensures before[j] != op
      {
        if j < at {
          assert Disjoint(before[j], op);
        } else {
          assert Disjoint(op, before[j]);
        }
      }
      ExclusiveErased(before, at);
      ApartErased(pendingServerOps, before, at);
      assert forall j :: 0 <= j < |detachedServerOps| ==> detachedServerOps[j] == before[if j < at then j else j + 1];
      AnswersErased(at);
    }

    /** The manager's invariant. */
    ghost predicate Valid()
      reads this, remoteOps.Values, pendingServerOps, detachedServerOps
    {
      Registered() && Lists() && Separated() && Answers()
    }

    /** `op` may be registered: its request is its own, and, as it was never
        sent, it has no response yet. */
    ghost predicate Accepts(op: RemoteOp)
      reads this, remoteOps.Values, detachedServerOps, op
    {
      && op.response == null
      && (forall k :: k in remoteOps ==> remoteOps[k].request != op.request)
      && (forall i :: 0 <= i < |detachedServerOps| ==> detachedServerOps[i].response != op.request)
    }

    /** `op` may join the detached list: it holds both messages and shares
        neither with an op the manager holds or a registered request. */
    ghost predicate CanAdopt(op: ServerOp)
      reads this, remoteOps.Values, pendingServerOps, detachedServerOps, op
    {
      && op.request != null && op.response != null
      && (forall i :: 0 <= i < |pendingServerOps| ==> pendingServerOps[i].request != op.request)
      && (forall i :: 0 <= i < |detachedServerOps| ==>
            detachedServerOps[i].request != op.request && detachedServerOps[i].response != op.response)
      && (forall k :: k in remoteOps ==> remoteOps[k].request != op.response && remoteOps[k].response != op.request)
    }

    /** `m` is held by no op in the manager's lists. */
    ghost predicate Unowned(m: InMessage)
      reads this`pendingServerOps, this`detachedServerOps, pendingServerOps, detachedServerOps
    {
      && (forall i :: 0 <= i < |pendingServerOps| ==> pendingServerOps[i].request != m)
      && (forall i :: 0 <= i < |detachedServerOps| ==> detachedServerOps[i].request != m)
    }

    /** `m` is no registered op's response. */
    ghost predicate Unanswered(m: InMessage)
      reads this`remoteOps, remoteOps.Values
    {
      forall k :: k in remoteOps ==> remoteOps[k].response != m
    }

    /** What receive() hands out: each message once, none already held. */
    ghost predicate Arriving(incoming: seq<Delivery>)
      reads this, remoteOps.Values, pendingServerOps, detachedServerOps
    {
      && (forall i, j :: 0 <= i < j < |incoming| ==> incoming[i].message != incoming[j].message)
      && (forall i :: 0 <= i < |incoming| ==> Unowned(incoming[i].message) && Unanswered(incoming[i].message))
    }

    /** A response whose op is not registered: poll() releases it. */
    predicate Orphan(d: Delivery)
      reads this`remoteOps
    {
      IsResponse(d.header) && d.header.opId !in remoteOps
    }

    function RegisteredRequests(): set<OutMessage>
      reads this`remoteOps, remoteOps.Values
    {
      set op | op in remoteOps.Values :: op.request
    }

    function DetachedRequests(): set<InMessage?>
      reads this, detachedServerOps
    {
      set op | op in detachedServerOps :: op.request
    }

    function DetachedResponses(): set<OutMessage?>
      reads this, detachedServerOps
    {
      set op | op in detachedServerOps :: op.response
    }

    function PendingRequests(): set<InMessage?>
      reads this, pendingServerOps
    {
      set op | op in pendingServerOps :: op.request
    }

    /** receiveServerOp(): pops the oldest pending op, gives it a fresh response
        and this manager, and starts it; an empty op when nothing is pending. */
    method ReceiveServerOp() returns (op: ServerOp)
      requires Valid()
      modifies this`pendingServerOps, pendingServerOps[..(if pendingServerOps == [] then 0 else 1)]
      ensures Valid() && fresh(op)
      ensures old(pendingServerOps) == [] ==> pendingServerOps == [] && op.Snapshot() == EMPTY
      ensures old(pendingServerOps) != [] ==>
        && pendingServerOps == old(pendingServerOps)[1..]
        && fresh(op.response) && op.response.IsBlank()
        && op.Snapshot() == old(pendingServerOps[0].Snapshot()).(response := op.response, transport := this,
                                                                  state := S.InProgress)
        && old(pendingServerOps[0]).Snapshot() == EMPTY
        && CanAdopt(op)
    {
      op := new ServerOp();
      if pendingServerOps != [] {
        var front := pendingServerOps[0];
        ghost var rest := pendingServerOps[1..];
        assert forall i :: 0 <= i < |rest| ==> Disjoint(front, pendingServerOps[i + 1]) && rest[i] == pendingServerOps[i + 1];
        assert forall i :: 0 <= i < |detachedServerOps| ==> Disjoint(front, detachedServerOps[i]);
        TakeFront(op);
        PendingPopped();
        RegisteredKept();
        SeparatedKept();
        AnswersPopped();
      }
    }

    /** The critical section of receiveServerOp() once the queue is known to be
        non-empty: move the front op into `op`, pop (and so destroy) the
        moved-from front, then start `op`. */
    method TakeFront(op: ServerOp)
      requires pendingServerOps != [] && op != pendingServerOps[0]
      modifies this`pendingServerOps, op, pendingServerOps[0]
      ensures pendingServerOps == old(pendingServerOps)[1..]
      ensures fresh(op.response) && op.response.IsBlank()
      ensures op.Snapshot() == old(pendingServerOps[0].Snapshot()).(response := op.response, transport := this,
                                                                   state := S.InProgress)
      ensures old(pendingServerOps[0]).Snapshot() == EMPTY
    {
      var front := pendingServerOps[0];
      op.MoveAssign(front);
      pendingServerOps := pendingServerOps[1..];
      front.Destroy();
      op.Start(this);
    }

    /** What the drain loop does to the pending queue for delivery `d`: a
        response leaves it alone; a request adds a new op for it at the back. */
    twostate predicate PendingGrew(d: Delivery)
      reads this`pendingServerOps, pendingServerOps
    {
      if IsResponse(d.header) then pendingServerOps == old(pendingServerOps)
      else
        && |pendingServerOps| == |old(pendingServerOps)| + 1
        && pendingServerOps[..|old(pendingServerOps)|] == old(pendingServerOps)
        && fresh(pendingServerOps[|old(pendingServerOps)|])
        && pendingServerOps[|old(pendingServerOps)|].Snapshot() == Adopted(d)
    }

    /** The body of poll()'s drain loop for one message: a response completes
        its registered op or is released; a request becomes a pending op at
        the back of the queue. */
    method Deliver(d: Delivery)
      requires Valid() && Unowned(d.message) && Unanswered(d.message)
      modifies this`pendingServerOps, d.message`releases,
               if IsResponse(d.header) && d.header.opId in remoteOps
               then {remoteOps[d.header.opId], remoteOps[d.header.opId].request} else {}
      ensures Valid()
      ensures remoteOps == old(remoteOps) && detachedServerOps == old(detachedServerOps)
      ensures unchanged(old(pendingServerOps)) && unchanged(detachedServerOps)
      ensures forall k :: k in remoteOps ==> Answered(remoteOps[k], ResponseTo(d, k))
      ensures d.message.releases == old(d.message.releases) + (if Orphan(d) then 1 else 0)
      ensures forall x: InMessage | old(allocated(x)) && x != d.message :: x.releases == old(x.releases)
      ensures PendingGrew(d)
    {
      var h, m := d.header, d.message;
      if h.stageId == ULTIMATE_RESPONSE_ID {
        if h.opId in remoteOps {
          var op := remoteOps[h.opId];
          op.Complete(m);
          forall k | k in remoteOps && k != h.opId
            ensures unchanged(remoteOps[k], remoteOps[k].request)
          {
            assert remoteOps[k].opId != op.opId && remoteOps[k].request != op.request;
          }
          ValidCompleted(d);
        } else {
          m.Release();
          ValidFramed();
        }
      } else {
        ghost var ps := pendingServerOps;
        var entry := Enqueue(h, m);
        assert forall i :: 0 <= i < |ps| ==> pendingServerOps[i] == ps[i];
        ValidEnqueued(entry);
      }
    }

    /** The request branch of poll()'s drain loop: a new op holding the message
        and the header's fields is moved to the back of the pending queue, and
        the moved-from local op is destroyed. */
    method Enqueue(h: Header, m: InMessage) returns (entry: ServerOp)
      modifies this`pendingServerOps
      ensures fresh(entry) && pendingServerOps == old(pendingServerOps) + [entry]
      ensures entry.Snapshot() == Adopted(Delivery(h, m))
      ensures unchanged(m)
    {
      var op := new ServerOp();
      op.request := m;
      op.opId := h.opId;
      op.stageId := h.stageId;
      op.replyAddress := h.replyAddress;
      entry := new ServerOp.MoveFrom(op);
      pendingServerOps := pendingServerOps + [entry];
      op.Destroy();
    }

    /** One step of poll()'s sweep of the detached list: makeProgress() on the
        op at `i`; an op that is no longer InProgress is erased (and so
        destroyed, which releases its messages). */
    method Visit(i: nat) returns (kept: bool)
      requires Valid() && i < |detachedServerOps|
      modifies this, detachedServerOps[i], detachedServerOps[i].request, detachedServerOps[i].response
      ensures Valid()
      ensures remoteOps == old(remoteOps) && pendingServerOps == old(pendingServerOps)
      ensures nextOpSequenceNumber == old(nextOpSequenceNumber)
      ensures Advanced(old(detachedServerOps[i]), !kept)
      ensures kept <==> old(detachedServerOps[i]).state == S.InProgress
      ensures kept ==> detachedServerOps == old(detachedServerOps)
      ensures !kept ==> detachedServerOps == old(detachedServerOps[..i] + detachedServerOps[i + 1..])
    {
      var op := detachedServerOps[i];
      DetachedApart(i);
      var state := op.MakeProgress();
      assert state != S.NotStarted;
      StepKept(op);
      if state == S.InProgress {
        kept := true;
      } else {
        kept := false;
        Erase(i);
      }
    }

    /** detachedServerOps.erase(it): removes the op at `i` from the list and
        destroys it, which releases both of its messages. */
    method Erase(i: nat)
      requires Valid() && i < |detachedServerOps|
      modifies this, detachedServerOps[i], detachedServerOps[i].request, detachedServerOps[i].response
      ensures Valid()
      ensures remoteOps == old(remoteOps) && pendingServerOps == old(pendingServerOps)
      ensures nextOpSequenceNumber == old(nextOpSequenceNumber)
      ensures detachedServerOps == old(detachedServerOps[..i] + detachedServerOps[i + 1..])
      ensures unchanged(old(detachedServerOps))
      ensures var op := old(detachedServerOps[i]);
        && unchanged(op)
        && op.request.releases == old(op.request.releases) + 1
        && unchanged(op.request`isDropped, op.request`acknowledgements, op.request`failures)
        && op.response.releases == old(op.response.releases) + 1
        && unchanged(op.response`status, op.response`cancellations, op.response`prepended, op.response`sentTo)
    {
      var op := detachedServerOps[i];
      detachedServerOps := detachedServerOps[..i] + detachedServerOps[i + 1..];
      DetachedErased(i);
      label Erased:
      op.Destroy();
      ValidFramed@Erased();
    }

    /** The op at `i` of the detached list is no other op of either list. */
    lemma DetachedApart(i: nat)
      requires Valid() && i < |detachedServerOps|
      ensures forall j :: 0 <= j < |detachedServerOps| && j != i ==> detachedServerOps[j] != detachedServerOps[i]
      ensures forall j :: 0 <= j < |pendingServerOps| ==> pendingServerOps[j] != detachedServerOps[i]
    {
      var op := detachedServerOps[i];
      forall j | 0 <= j < |detachedServerOps| && j != i
        ensures detachedServerOps[j] != op
      {
        if j < i {
          assert Disjoint(detachedServerOps[j], op);
        } else {
          assert Disjoint(op, detachedServerOps[j]);
        }
      }
      assert forall j :: 0 <= j < |pendingServerOps| ==> Disjoint(pendingServerOps[j], op);
    }

    /** Valid() survives a change of state, to a started one, of one detached
        op, when nothing else the invariant reads changes. */
    twostate lemma StepKept(op: ServerOp)
      requires old(Valid()) && op in old(detachedServerOps)
      requires unchanged(this) && unchanged(remoteOps.Values) && unchanged(pendingServerOps)
      requires forall j :: 0 <= j < |detachedServerOps| && detachedServerOps[j] != op ==> unchanged(detachedServerOps[j])
      requires op.Snapshot() == old(op.Snapshot()).(state := op.state) && op.state != S.NotStarted
      ensures Valid()
    {
    }

    /** Where each detached op, and each of its messages, sits in the list:
        they are pairwise distinct, so each has one position. */
    lemma SweepPositions(all: seq<ServerOp>, before: seq<View>)
      returns (opAt: map<ServerOp, nat>, requestAt: map<InMessage?, nat>, responseAt: map<OutMessage?, nat>)
      requires Valid() && all == detachedServerOps && before == ViewsOf(all)
      ensures Placed(all, before, opAt, requestAt, responseAt)
      ensures forall j :: 0 <= j < |all| ==>
        before[j].fields.request in DetachedRequests() && before[j].fields.response in DetachedResponses()
    {
      forall a, b | 0 <= a < b < |all|
        ensures all[a] != all[b] && before[a].fields.request != before[b].fields.request
        ensures before[a].fields.response != before[b].fields.response
      {
        assert Disjoint(all[a], all[b]);
        assert all[a].IsDetachedBy(this) && all[b].IsDetachedBy(this);
      }
      forall j | 0 <= j < |all|
        ensures before[j].fields.request != null && before[j].fields.response != null
        ensures before[j].fields.request in DetachedRequests() && before[j].fields.response in DetachedResponses()
      {
        assert all[j] in detachedServerOps && before[j] == ViewOf(all[j]) && all[j].IsDetachedBy(this);
      }
      opAt, requestAt, responseAt := Place(all, before);
    }

    /** The list part of the state of poll()'s sweep after visiting the first
        `n` of the ops `all` it started with: the ops kept so far (those whose
        flag is set) come first, then the ops not yet visited. */
    ghost predicate SweepShape(all: seq<ServerOp>, n: nat, flags: seq<bool>, kept: seq<ServerOp>)
      reads this, remoteOps.Values, pendingServerOps, detachedServerOps
    {
      && n <= |all| && |flags| == n
      && detachedServerOps == kept + all[n..]
      && kept == Filter(all[..n], flags)
      && Valid()
    }

    /** The detached list after visiting `all[n]`: the ops kept so far, that
        op when it was kept, then the ops not yet visited. */
    lemma ShapeNext(all: seq<ServerOp>, n: nat, flags: seq<bool>, kept: seq<ServerOp>, keep: bool)
      requires Valid() && n < |all| && |flags| == n && kept == Filter(all[..n], flags)
      requires keep ==> detachedServerOps == kept + all[n..]
      requires !keep ==> detachedServerOps == (kept + all[n..])[..|kept|] + (kept + all[n..])[|kept| + 1..]
      ensures SweepShape(all, n + 1, flags + [keep], kept + (if keep then [all[n]] else []))
    {
      SplitAt(kept, all, n);
      FilterStep(all, flags, n, keep);
    }

    /** The sweep starts with nothing visited and nothing kept. */
    lemma SweepStarts(all: seq<ServerOp>, before: seq<View>)
      requires Valid() && all == detachedServerOps && before == ViewsOf(all)
      ensures SweepShape(all, 0, [], []) && Holding(all, before)
      ensures Visited(all, before, 0, []) && Unvisited(all, before, 0)
    {
      assert all[0..] == all;
    }

    /** Once every op is visited, the list holds exactly the kept ops, and
        each op has made progress once since its view was taken. */
    lemma SweepEnds(all: seq<ServerOp>, before: seq<View>, flags: seq<bool>, kept: seq<ServerOp>)
      requires SweepShape(all, |all|, flags, kept) && Visited(all, before, |all|, flags)
      ensures detachedServerOps == Kept(all)
      ensures forall j :: 0 <= j < |all| ==> AdvancedFrom(all[j], before[j], all[j].state != S.InProgress)
    {
      assert all[..|all|] == all;
      FilterKept(all, flags);
    }

    /** One iteration of the sweep: makeProgress() on the next unvisited op,
        which is erased when it is no longer InProgress. */
    method SweepStep(i: nat, ghost all: seq<ServerOp>, ghost before: seq<View>, ghost n: nat, ghost flags: seq<bool>,
                     ghost kept: seq<ServerOp>, ghost opAt: map<ServerOp, nat>, ghost requestAt: map<InMessage?, nat>,
                     ghost responseAt: map<OutMessage?, nat>)
      returns (keep: bool)
      requires i == |kept| && n < |all| && SweepShape(all, n, flags, kept)
      requires Placed(all, before, opAt, requestAt, responseAt) && Holding(all, before)
      requires Visited(all, before, n, flags) && Unvisited(all, before, n)
      modifies this, all[n], all[n].request, all[n].response
      ensures SweepShape(all, n + 1, flags + [keep], kept + (if keep then [all[n]] else []))
      ensures Holding(all, before)
      ensures Visited(all, before, n + 1, flags + [keep]) && Unvisited(all, before, n + 1)
      ensures remoteOps == old(remoteOps) && pendingServerOps == old(pendingServerOps)
      ensures nextOpSequenceNumber == old(nextOpSequenceNumber)
    {
      SplitAt(kept, all, n);
      keep := Visit(i);
      ShapeNext(all, n, flags, kept, keep);
      forall j | 0 <= j < |all| && j != n
        ensures unchanged(all[j]) && unchanged(all[j].request) && unchanged(all[j].response)
      {
        assert opAt[all[j]] != opAt[all[n]];
        assert requestAt[before[j].fields.request] != requestAt[before[n].fields.request];
        assert responseAt[before[j].fields.response] != responseAt[before[n].fields.response];
      }
      VisitedStep(Visiting(all, before, n, flags, keep));
    }

    /** poll()'s sweep of the detached list: every detached op makes progress
        once; those no longer InProgress are erased, the rest keep their order. */
    method SweepDetached()
      requires Valid()
      modifies this, detachedServerOps, DetachedRequests(), DetachedResponses()
      ensures Valid()
      ensures remoteOps == old(remoteOps) && pendingServerOps == old(pendingServerOps)
      ensures nextOpSequenceNumber == old(nextOpSequenceNumber)
      ensures detachedServerOps == Kept(old(detachedServerOps))
      ensures forall j :: 0 <= j < |old(detachedServerOps)| ==>
        Advanced(old(detachedServerOps)[j], old(detachedServerOps)[j].state != S.InProgress)
    {
      ghost var all := detachedServerOps;
      ghost var before := ViewsOf(all);
      ghost var opAt, requestAt, responseAt := SweepPositions(all, before);
      SweepStarts(all, before);
      var i := 0;
      ghost var n := 0;
      ghost var flags: seq<bool> := [];
      ghost var kept: seq<ServerOp> := [];
      while i < |detachedServerOps|
        invariant i == |kept|
        invariant SweepShape(all, n, flags, kept)
        invariant Holding(all, before)
        invariant Visited(all, before, n, flags) && Unvisited(all, before, n)
        invariant remoteOps == old(remoteOps) && pendingServerOps == old(pendingServerOps)
        invariant nextOpSequenceNumber == old(nextOpSequenceNumber)
        decreases |all| - n
      {
        assert all[n].request == before[n].fields.request && all[n].response == before[n].fields.response;
        assert all[n] in old(detachedServerOps);
        var keep := SweepStep(i, all, before, n, flags, kept, opAt, requestAt, responseAt);
        kept := kept + (if keep then [all[n]] else []);
        if keep {
          i := i + 1;
        }
        flags := flags + [keep];
        n := n + 1;
      }
      SweepEnds(all, before, flags, kept);
    }

    /** pendingServerOps.erase(begin()): the oldest pending op leaves the
        queue and is destroyed; as it was never started, that releases its
        request. */
    method ErasePending()
      requires Valid() && pendingServerOps != []
      modifies this`pendingServerOps, pendingServerOps[0], pendingServerOps[0].request
      ensures Valid()
      ensures pendingServerOps == old(pendingServerOps[1..])
      ensures unchanged(old(pendingServerOps)) && unchanged(detachedServerOps)
      ensures var m := old(pendingServerOps[0].request); m != null && m.releases == old(m.releases) + 1
    {
      var op := pendingServerOps[0];
      pendingServerOps := pendingServerOps[1..];
      op.Destroy();
      PendingPopped();
      RegisteredKept();
      SeparatedKept();
      AnswersPopped();
    }

    /** What the pending and the detached ops hold when the destructor starts:
        the messages are pairwise distinct, so each has one position. */
    lemma HeldMessages() returns (h: Holdings)
      requires Valid()
      ensures Sited(h)
      ensures |h.pq| == |pendingServerOps| && HoldsDetached(h)
      ensures forall j :: 0 <= j < |h.pq| ==> pendingServerOps[j].request == h.pq[j] && h.pq[j] in PendingRequests()
      ensures forall j :: 0 <= j < |h.dq| ==> h.dq[j] in DetachedRequests() && h.dr[j] in DetachedResponses()
      ensures RequestsReleased(h.pq, h.pr0, 0) && RequestsReleased(h.dq, h.dq0, 0)
      ensures ResponsesReleased(h.dr, h.dr0, 0)
    {
      var ps, ds := pendingServerOps, detachedServerOps;
      assert forall j :: 0 <= j < |ps| ==> ps[j].IsPending();
      assert forall j :: 0 <= j < |ds| ==> ds[j].IsDetachedBy(this);
      var pq: seq<InMessage> := seq(|ps|, j requires 0 <= j < |ps| reads ps => ps[j].request);
      var dq: seq<InMessage> := seq(|ds|, j requires 0 <= j < |ds| reads ds => ds[j].request);
      var dr: seq<OutMessage> := seq(|ds|, j requires 0 <= j < |ds| reads ds => ds[j].response);
      forall a, b | 0 <= a < b < |pq| ensures pq[a] != pq[b] {
        assert Disjoint(ps[a], ps[b]);
      }
      forall a, b | 0 <= a < b < |dq| ensures dq[a] != dq[b] && dr[a] != dr[b] {
        assert Disjoint(ds[a], ds[b]);
      }
      forall a, b | 0 <= a < |pq| && 0 <= b < |dq| ensures pq[a] != dq[b] {
        assert Disjoint(ps[a], ds[b]);
      }
      forall j | 0 <= j < |ps| ensures pq[j] in PendingRequests() {
        assert ps[j] in pendingServerOps;
      }
      forall j | 0 <= j < |ds| ensures dq[j] in DetachedRequests() && dr[j] in DetachedResponses() {
        assert ds[j] in detachedServerOps;
      }
      var requestAt, responseAt := Site(pq, dq, dr);
      var pr0, dq0, dr0 := Counts(pq, dq, dr);
      h := Holdings(pq, dq, dr, requestAt, responseAt, pr0, dq0, dr0);
    }

    /** The detached ops still hold the messages `h` recorded for them. */
    ghost predicate HoldsDetached(h: Holdings)
      reads this`detachedServerOps, detachedServerOps
    {
      && |h.dq| == |h.dr| == |detachedServerOps|
      && forall j :: 0 <= j < |detachedServerOps| ==>
           detachedServerOps[j].request == h.dq[j] && detachedServerOps[j].response == h.dr[j]
    }

    /** One iteration of the first loop: erases the front pending op, the one
        at `n` in the queue the loop started with. */
    method ClearPendingFront(ghost h: Holdings, ghost pending0: seq<ServerOp>, ghost n: nat) returns (ghost next: nat)
      requires Valid() && Sited(h) && HoldsDetached(h)
      requires n < |pending0| == |h.pq| && pendingServerOps == pending0[n..] && pending0[n].request == h.pq[n]
      requires RequestsReleased(h.pq, h.pr0, n) && RequestsReleased(h.dq, h.dq0, 0)
      requires ResponsesReleased(h.dr, h.dr0, 0)
      modifies this`pendingServerOps, pending0, h.pq
      ensures next == n + 1 && Valid() && HoldsDetached(h)
      ensures pendingServerOps == pending0[next..] && unchanged(pending0)
      ensures RequestsReleased(h.pq, h.pr0, next) && RequestsReleased(h.dq, h.dq0, 0)
      ensures ResponsesReleased(h.dr, h.dr0, 0)
    {
      next := n + 1;
      forall j | 0 <= j < |h.pq| && j != n ensures h.pq[j] != h.pq[n] {
        assert h.requestAt[h.pq[j]] != h.requestAt[h.pq[n]];
      }
      forall j | 0 <= j < |h.dq| ensures h.dq[j] != h.pq[n] {
        assert h.requestAt[h.dq[j]] != h.requestAt[h.pq[n]];
      }
      ErasePending();
    }

    /** The first loop of ~OpManager(): erases the pending ops from the front. */
    method ClearPending(ghost h: Holdings)
      requires Valid() && Sited(h) && HoldsDetached(h)
      requires |h.pq| == |pendingServerOps|
      requires forall j :: 0 <= j < |h.pq| ==> pendingServerOps[j].request == h.pq[j]
      requires RequestsReleased(h.pq, h.pr0, 0) && RequestsReleased(h.dq, h.dq0, 0)
      requires ResponsesReleased(h.dr, h.dr0, 0)
      modifies this`pendingServerOps, pendingServerOps, h.pq
      ensures Valid() && pendingServerOps == [] && HoldsDetached(h)
      ensures RequestsReleased(h.pq, h.pr0, |h.pq|) && RequestsReleased(h.dq, h.dq0, 0)
      ensures ResponsesReleased(h.dr, h.dr0, 0)
    {
      ghost var pending0 := pendingServerOps;
      ghost var n := 0;
      while pendingServerOps != []
        invariant Valid() && HoldsDetached(h)
        invariant n <= |pending0| && pendingServerOps == pending0[n..] && unchanged(pending0)
        invariant RequestsReleased(h.pq, h.pr0, n) && RequestsReleased(h.dq, h.dq0, 0)
        invariant ResponsesReleased(h.dr, h.dr0, 0)
        decreases |pendingServerOps|
      {
        n := ClearPendingFront(h, pending0, n);
      }
    }

    /** One iteration of the second loop: erases the front detached op, the
        one at `m` in the list the loop started with. */
    method ClearDetachedFront(ghost h: Holdings, ghost detached0: seq<ServerOp>, ghost m: nat) returns (ghost next: nat)
      requires Valid() && Sited(h)
      requires m < |detached0| == |h.dq| && detachedServerOps == detached0[m..]
      requires detached0[m].request == h.dq[m] && detached0[m].response == h.dr[m]
      requires RequestsReleased(h.pq, h.pr0, |h.pq|) && RequestsReleased(h.dq, h.dq0, m)
      requires ResponsesReleased(h.dr, h.dr0, m)
      modifies this, detached0, h.dq, h.dr
      ensures next == m + 1 && Valid()
      ensures detachedServerOps == detached0[next..] && unchanged(detached0)
      ensures remoteOps == old(remoteOps) && pendingServerOps == old(pendingServerOps)
      ensures RequestsReleased(h.pq, h.pr0, |h.pq|) && RequestsReleased(h.dq, h.dq0, next)
      ensures ResponsesReleased(h.dr, h.dr0, next)
    {
      next := m + 1;
      forall j | 0 <= j < |h.pq| ensures h.pq[j] != h.dq[m] {
        assert h.requestAt[h.pq[j]] != h.requestAt[h.dq[m]];
      }
      forall j | 0 <= j < |h.dq| && j != m ensures h.dq[j] != h.dq[m] && h.dr[j] != h.dr[m] {
        assert h.requestAt[h.dq[j]] != h.requestAt[h.dq[m]];
        assert h.responseAt[h.dr[j]] != h.responseAt[h.dr[m]];
      }
      Erase(0);
      assert detachedServerOps == detached0[next..];
    }

    /** The second loop of ~OpManager(): erases the detached ops from the front. */
    method ClearDetached(ghost h: Holdings)
      requires Valid() && Sited(h) && HoldsDetached(h)
      requires RequestsReleased(h.pq, h.pr0, |h.pq|) && RequestsReleased(h.dq, h.dq0, 0)
      requires ResponsesReleased(h.dr, h.dr0, 0)
      modifies this, detachedServerOps, h.dq, h.dr
      ensures Valid() && detachedServerOps == []
      ensures remoteOps == old(remoteOps) && pendingServerOps == old(pendingServerOps)
      ensures RequestsReleased(h.pq, h.pr0, |h.pq|) && RequestsReleased(h.dq, h.dq0, |h.dq|)
      ensures ResponsesReleased(h.dr, h.dr0, |h.dr|)
    {
      ghost var detached0 := detachedServerOps;
      ghost var m := 0;
      while detachedServerOps != []
        invariant Valid() && m <= |detached0| && detachedServerOps == detached0[m..] && unchanged(detached0)
        invariant remoteOps == old(remoteOps) && pendingServerOps == old(pendingServerOps)
        invariant RequestsReleased(h.pq, h.pr0, |h.pq|) && RequestsReleased(h.dq, h.dq0, m)
        invariant ResponsesReleased(h.dr, h.dr0, m)
        decreases |detachedServerOps|
      {
        m := ClearDetachedFront(h, detached0, m);
      }
    }

    /** ~OpManager(): clears the registry, then erases the pending ops and
        then the detached ops, front to back; each erased op is destroyed,
        so every message the manager's ops hold is released exactly once. */
    method Destroy()
      requires Valid()
      modifies this, pendingServerOps, PendingRequests(), detachedServerOps, DetachedRequests(), DetachedResponses()
      ensures Valid()
      ensures remoteOps == map[] && pendingServerOps == [] && detachedServerOps == []
      ensures forall j :: 0 <= j < |old(pendingServerOps)| ==>
        var q := old(pendingServerOps[j].request); q != null && q.releases == old(q.releases) + 1
      ensures forall j :: 0 <= j < |old(detachedServerOps)| ==>
        var q, p := old(detachedServerOps[j].request), old(detachedServerOps[j].response);
        && q != null && q.releases == old(q.releases) + 1
        && p != null && p.releases == old(p.releases) + 1
    {
      ghost var h := HeldMessages();
      remoteOps := map[];
      ClearPending(h);
      ClearDetached(h);
    }

    /** poll(): drains the transport in arrival order (see Drain), then gives
        every detached op one makeProgress() call (see SweepDetached). */
    method Poll(incoming: seq<Delivery>)
      requires Valid() && Arriving(incoming)
      modifies this, MessagesOf(incoming)`releases, remoteOps.Values, RegisteredRequests(),
               detachedServerOps, DetachedRequests(), DetachedResponses()
      ensures Valid()
      ensures remoteOps == old(remoteOps) && nextOpSequenceNumber == old(nextOpSequenceNumber)
      ensures |pendingServerOps| == |old(pendingServerOps)| + |RequestsOf(incoming)|
      ensures pendingServerOps[..|old(pendingServerOps)|] == old(pendingServerOps)
      ensures detachedServerOps == Kept(old(detachedServerOps))
    {
      Drain(incoming);
      SweepDetached();
    }

    /** No message receive() hands out is a detached op's request, so Poll's
        frame leaves everything but the release count of each drained message
        alone. */
    lemma ArrivingApart(incoming: seq<Delivery>)
      requires Arriving(incoming)
      ensures MessagesOf(incoming) !! DetachedRequests()
    {
      forall i | 0 <= i < |incoming| ensures incoming[i].message !in DetachedRequests() {
        assert Unowned(incoming[i].message);
      }
    }

    /** The queue part of the state of poll()'s drain loop after the first
        `t` deliveries: the pending queue it started with, followed by a new
        op for each request so far. */
    ghost predicate DrainShape(incoming: seq<Delivery>, t: nat, pending0: seq<ServerOp>)
      reads this`pendingServerOps, pendingServerOps
    {
      && t <= |incoming|
      && |pendingServerOps| == |pending0| + |RequestsOf(incoming[..t])|
      && pendingServerOps[..|pending0|] == pending0
      && (forall j :: |pending0| <= j < |pendingServerOps| ==>
            pendingServerOps[j].Snapshot() == Adopted(RequestsOf(incoming[..t])[j - |pending0|]))
    }

    /** Each registered op has been answered by the responses so far. */
    ghost predicate Answering(incoming: seq<Delivery>, t: nat, base: map<OpId, RemoteView>)
      reads this`remoteOps, remoteOps.Values, RegisteredRequests()
    {
      && t <= |incoming|
      && remoteOps.Keys == base.Keys
      && (forall k :: k in remoteOps ==> AnsweredFrom(remoteOps[k], base[k], ResponsesFor(incoming[..t], k)))
    }

    /** Each orphan so far was released once; no other message was released. */
    ghost predicate Releasing(incoming: seq<Delivery>, t: nat, released0: seq<nat>)
      reads this`remoteOps, MessagesOf(incoming)
    {
      && t <= |incoming| == |released0|
      && (forall i :: 0 <= i < |incoming| ==>
            incoming[i].message.releases == released0[i] + (if i < t && Orphan(incoming[i]) then 1 else 0))
    }

    /** The messages still to come are held by no op. */
    ghost predicate Unclaimed(incoming: seq<Delivery>, t: nat)
      reads this`pendingServerOps, this`detachedServerOps, pendingServerOps, detachedServerOps,
            this`remoteOps, remoteOps.Values
    {
      forall i :: t <= i < |incoming| ==> Unowned(incoming[i].message) && Unanswered(incoming[i].message)
    }

    /** The drain loop starts with nothing handled. */
    lemma DrainStarts(incoming: seq<Delivery>) returns (c: Drainage)
      requires Valid() && Arriving(incoming)
      ensures c.incoming == incoming && c.t == 0 && c.pending0 == pendingServerOps
      ensures c.base == map k | k in remoteOps :: RemoteViewOf(remoteOps[k])
      ensures |c.released0| == |incoming|
      ensures forall i :: 0 <= i < |incoming| ==> c.released0[i] == incoming[i].message.releases
      ensures Numbered(incoming, c.messageAt)
      ensures DrainShape(incoming, 0, c.pending0) && Answering(incoming, 0, c.base)
      ensures Releasing(incoming, 0, c.released0) && Unclaimed(incoming, 0)
    {
      var base := map k | k in remoteOps :: RemoteViewOf(remoteOps[k]);
      var released0 := seq(|incoming|, i requires 0 <= i < |incoming| reads MessagesOf(incoming)
                                          => incoming[i].message.releases);
      var messages: seq<InMessage> := seq(|incoming|, i requires 0 <= i < |incoming| => incoming[i].message);
      var messageAt := Positions(messages);
      assert Numbered(incoming, messageAt) by {
        assert forall i :: 0 <= i < |incoming| ==> messages[i] == incoming[i].message;
      }
      c := Drainage(incoming, 0, pendingServerOps, base, released0, messageAt);
      assert incoming[..0] == [];
      assert pendingServerOps[..|c.pending0|] == c.pending0;
    }

    /** At the end of the drain loop every delivery has been handled. */
    twostate lemma DrainEnds(c: Drainage)
      requires c.t == |c.incoming| && c.pending0 == old(pendingServerOps)
      requires c.base == old(map k | k in remoteOps :: RemoteViewOf(remoteOps[k]))
      requires |c.released0| == |c.incoming|
      requires forall i :: 0 <= i < |c.incoming| ==> c.released0[i] == old(c.incoming[i].message.releases)
      requires DrainShape(c.incoming, c.t, c.pending0) && Answering(c.incoming, c.t, c.base)
      requires Releasing(c.incoming, c.t, c.released0) && remoteOps == old(remoteOps)
      ensures |pendingServerOps| == |old(pendingServerOps)| + |RequestsOf(c.incoming)|
      ensures pendingServerOps[..|old(pendingServerOps)|] == old(pendingServerOps)
      ensures forall j :: |old(pendingServerOps)| <= j < |pendingServerOps| ==>
        pendingServerOps[j].Snapshot() == Adopted(RequestsOf(c.incoming)[j - |old(pendingServerOps)|])
      ensures forall k :: k in remoteOps ==> Answered(remoteOps[k], ResponsesFor(c.incoming, k))
      ensures forall i :: 0 <= i < |c.incoming| ==>
        c.incoming[i].message.releases == old(c.incoming[i].message.releases) + (if Orphan(c.incoming[i]) then 1 else 0)
    {
      assert c.incoming[..c.t] == c.incoming;
    }

    /** DrainShape() after the delivery at `t`. */
    twostate lemma ShapeStep(c: Drainage)
      requires c.t < |c.incoming| && old(DrainShape(c.incoming, c.t, c.pending0))
      requires unchanged(old(pendingServerOps)) && PendingGrew(c.incoming[c.t])
      ensures DrainShape(c.incoming, c.t + 1, c.pending0)
    {
      SnapshotsGrew(c.incoming[c.t]);
      ShapeAppended(c);
    }

    /** DrainShape() after the delivery at `t`, from the fields of the queue's
        ops before and after it. */
    twostate lemma ShapeAppended(c: Drainage)
      requires c.t < |c.incoming| && old(DrainShape(c.incoming, c.t, c.pending0))
      requires |pendingServerOps| == |SnapshotsOf(pendingServerOps)|
        == |old(pendingServerOps)| + (if IsResponse(c.incoming[c.t].header) then 0 else 1)
      requires pendingServerOps[..|old(pendingServerOps)|] == old(pendingServerOps)
      requires SnapshotsOf(pendingServerOps)[..|old(pendingServerOps)|] == old(SnapshotsOf(pendingServerOps))
      requires !IsResponse(c.incoming[c.t].header) ==>
        SnapshotsOf(pendingServerOps)[|old(pendingServerOps)|] == Adopted(c.incoming[c.t])
      ensures DrainShape(c.incoming, c.t + 1, c.pending0)
    {
      var incoming, t, pending0, ps := c.incoming, c.t, c.pending0, old(pendingServerOps);
      DeliveredOne(incoming, t, DEFAULT_OP_ID);
      var before, after := RequestsOf(incoming[..t]), RequestsOf(incoming[..t + 1]);
      var n0 := |pending0|;
      var olds, news := old(SnapshotsOf(pendingServerOps)), SnapshotsOf(pendingServerOps);
      assert pendingServerOps[..n0] == pending0 by {
        assert ps[..n0] == pending0;
        assert pendingServerOps[..n0] == pendingServerOps[..|ps|][..n0];
      }
      AdoptedGrow(olds, news, n0, before, incoming[t]);
      forall j | n0 <= j < |pendingServerOps|
        ensures pendingServerOps[j].Snapshot() == Adopted(after[j - n0])
      {
        assert news[j] == pendingServerOps[j].Snapshot();
      }
    }

    /** The queue's fields after one delivery: the old ops' fields, then the
        new op's if there is one. */
    twostate lemma SnapshotsGrew(d: Delivery)
      requires unchanged(old(pendingServerOps)) && PendingGrew(d)
      ensures |pendingServerOps| == |SnapshotsOf(pendingServerOps)|
        == |old(pendingServerOps)| + (if IsResponse(d.header) then 0 else 1)
      ensures pendingServerOps[..|old(pendingServerOps)|] == old(pendingServerOps)
      ensures SnapshotsOf(pendingServerOps)[..|old(pendingServerOps)|] == old(SnapshotsOf(pendingServerOps))
      ensures !IsResponse(d.header) ==> SnapshotsOf(pendingServerOps)[|old(pendingServerOps)|] == Adopted(d)
    {
      var ps, olds, news := old(pendingServerOps), old(SnapshotsOf(pendingServerOps)), SnapshotsOf(pendingServerOps);
      forall j | 0 <= j < |ps| ensures news[j] == olds[j] {
        assert pendingServerOps[j] == pendingServerOps[..|ps|][j];
      }
    }

    /** Answering() after the delivery at `t`. */
    twostate lemma AnsweringStep(c: Drainage)
      requires c.t < |c.incoming| && remoteOps == old(remoteOps)
      requires old(Answering(c.incoming, c.t, c.base))
      requires forall k :: k in remoteOps ==> Answered(remoteOps[k], ResponseTo(c.incoming[c.t], k))
      ensures Answering(c.incoming, c.t + 1, c.base)
    {
      AnsweredAllOneMore(c.base, c.incoming, c.t, old(RemoteViewsOf(remoteOps)), RemoteViewsOf(remoteOps));
    }

    /** Releasing() after the delivery at `t`: only its message's count moved. */
    twostate lemma ReleasingStep(c: Drainage)
      requires c.t < |c.incoming| && Numbered(c.incoming, c.messageAt)
      requires old(Releasing(c.incoming, c.t, c.released0)) && remoteOps == old(remoteOps)
      requires forall x: InMessage | old(allocated(x)) && x != c.incoming[c.t].message :: x.releases == old(x.releases)
      requires c.incoming[c.t].message.releases ==
        old(c.incoming[c.t].message.releases) + (if Orphan(c.incoming[c.t]) then 1 else 0)
      ensures Releasing(c.incoming, c.t + 1, c.released0)
    {
      forall i | 0 <= i < |c.incoming| && i != c.t
        ensures c.incoming[i].message.releases == old(c.incoming[i].message.releases)
      {
        assert c.messageAt[c.incoming[i].message] != c.messageAt[c.incoming[c.t].message];
      }
    }

    /** Unclaimed() after the delivery at `t`: only its message was taken. */
    twostate lemma UnclaimedStep(c: Drainage)
      requires c.t < |c.incoming| && Numbered(c.incoming, c.messageAt)
      requires old(Unclaimed(c.incoming, c.t))
      requires detachedServerOps == old(detachedServerOps)
      requires unchanged(old(pendingServerOps)) && unchanged(old(detachedServerOps))
      requires PendingGrew(c.incoming[c.t])
      requires remoteOps == old(remoteOps)
      requires forall k :: k in remoteOps ==> Answered(remoteOps[k], ResponseTo(c.incoming[c.t], k))
      ensures Unclaimed(c.incoming, c.t + 1)
    {
      var ps, m := old(pendingServerOps), c.incoming[c.t].message;
      forall i | c.t < i < |c.incoming| ensures Unowned(c.incoming[i].message) {
        var x := c.incoming[i].message;
        assert c.messageAt[x] != c.messageAt[m];
        assert old(Unowned(x));
        forall j | 0 <= j < |pendingServerOps| ensures pendingServerOps[j].request != x {
          if j < |ps| {
            assert pendingServerOps[j] == ps[j];
          } else {
            assert pendingServerOps[j].request == m;
          }
        }
        assert old(Unanswered(x));
        forall k | k in remoteOps ensures remoteOps[k].response != x {
          assert RemoteViewOf(remoteOps[k]).response == AnswerView(old(RemoteViewOf(remoteOps[k])), ResponseTo(c.incoming[c.t], k)).response;
        }
      }
    }

    /** One iteration of poll()'s drain loop: the delivery at `t` is handled. */
    method DrainStep(incoming: seq<Delivery>, t: nat, ghost pending0: seq<ServerOp>, ghost base: map<OpId, RemoteView>,
                     ghost released0: seq<nat>, ghost messageAt: map<InMessage, nat>) returns (next: nat)
      requires t < |incoming| && Numbered(incoming, messageAt)
      requires Valid() && DrainShape(incoming, t, pending0) && Answering(incoming, t, base)
      requires Releasing(incoming, t, released0) && Unclaimed(incoming, t)
      modifies this`pendingServerOps, MessagesOf(incoming)`releases, remoteOps.Values, RegisteredRequests()
      ensures next == t + 1
      ensures Valid() && DrainShape(incoming, next, pending0) && Answering(incoming, next, base)
      ensures Releasing(incoming, next, released0) && Unclaimed(incoming, next)
      ensures remoteOps == old(remoteOps) && detachedServerOps == old(detachedServerOps)
      ensures PendingGrew(incoming[t])
    {
      next := t + 1;
      ghost var c := Drainage(incoming, t, pending0, base, released0, messageAt);
      Deliver(incoming[t]);
      ShapeStep(c);
      AnsweringStep(c);
      ReleasingStep(c);
      UnclaimedStep(c);
    }

    /** poll()'s drain of the transport, in arrival order: a response whose op
        is registered completes that op, a response whose op is not
        registered is released, and every other message becomes a new op at
        the back of the pending queue. */
    method Drain(incoming: seq<Delivery>)
      requires Valid() && Arriving(incoming)
      modifies this`pendingServerOps, MessagesOf(incoming)`releases, remoteOps.Values, RegisteredRequests()
      ensures Valid()
      ensures remoteOps == old(remoteOps) && detachedServerOps == old(detachedServerOps)
      ensures |pendingServerOps| == |old(pendingServerOps)| + |RequestsOf(incoming)|
      ensures pendingServerOps[..|old(pendingServerOps)|] == old(pendingServerOps)
      ensures forall j :: |old(pendingServerOps)| <= j < |pendingServerOps| ==>
        pendingServerOps[j].Snapshot() == Adopted(RequestsOf(incoming)[j - |old(pendingServerOps)|])
      ensures forall k :: k in remoteOps ==> Answered(remoteOps[k], ResponsesFor(incoming, k))
      ensures forall i :: 0 <= i < |incoming| ==>
        incoming[i].message.releases == old(incoming[i].message.releases) + (if Orphan(incoming[i]) then 1 else 0)
      // of the drained messages only the release counts change
      ensures forall i :: 0 <= i < |incoming| ==>
        unchanged(incoming[i].message`isDropped, incoming[i].message`acknowledgements, incoming[i].message`failures)
    {
      ghost var c := DrainStarts(incoming);
      DrainRun(incoming, c);
    }

    /** Drain once its ghost bookkeeping is set up. */
    method DrainRun(incoming: seq<Delivery>, ghost c: Drainage)
      requires c.incoming == incoming && c.t == 0 && Numbered(incoming, c.messageAt)
      requires c.pending0 == pendingServerOps && c.base == map k | k in remoteOps :: RemoteViewOf(remoteOps[k])
      requires |c.released0| == |incoming|
      requires forall i :: 0 <= i < |incoming| ==> c.released0[i] == incoming[i].message.releases
      requires Valid() && DrainShape(incoming, 0, c.pending0) && Answering(incoming, 0, c.base)
      requires Releasing(incoming, 0, c.released0) && Unclaimed(incoming, 0)
      modifies this`pendingServerOps, MessagesOf(incoming)`releases, remoteOps.Values, RegisteredRequests()
      ensures Valid()
      ensures remoteOps == old(remoteOps) && detachedServerOps == old(detachedServerOps)
      ensures |pendingServerOps| == |old(pendingServerOps)| + |RequestsOf(incoming)|
      ensures pendingServerOps[..|old(pendingServerOps)|] == old(pendingServerOps)
      ensures forall j :: |old(pendingServerOps)| <= j < |pendingServerOps| ==>
        pendingServerOps[j].Snapshot() == Adopted(RequestsOf(incoming)[j - |old(pendingServerOps)|])
      ensures forall k :: k in remoteOps ==> Answered(remoteOps[k], ResponsesFor(incoming, k))
      ensures forall i :: 0 <= i < |incoming| ==>
        incoming[i].message.releases == old(incoming[i].message.releases) + (if Orphan(incoming[i]) then 1 else 0)
      ensures forall i :: 0 <= i < |incoming| ==>
        unchanged(incoming[i].message`isDropped, incoming[i].message`acknowledgements, incoming[i].message`failures)
    {
      DrainLoop(incoming, c);
      DrainEnds(c.(t := |incoming|));
    }

    /** The loop of Drain: each delivery in turn is handled by DrainStep. */
    method DrainLoop(incoming: seq<Delivery>, ghost c: Drainage)
      requires c.incoming == incoming && Numbered(incoming, c.messageAt)
      requires Valid() && DrainShape(incoming, 0, c.pending0) && Answering(incoming, 0, c.base)
      requires Releasing(incoming, 0, c.released0) && Unclaimed(incoming, 0)
      modifies this`pendingServerOps, MessagesOf(incoming)`releases, remoteOps.Values, RegisteredRequests()
      ensures Valid() && DrainShape(incoming, |incoming|, c.pending0) && Answering(incoming, |incoming|, c.base)
      ensures Releasing(incoming, |incoming|, c.released0)
      ensures remoteOps == old(remoteOps) && detachedServerOps == old(detachedServerOps)
      ensures forall i :: 0 <= i < |incoming| ==>
        unchanged(incoming[i].message`isDropped, incoming[i].message`acknowledgements, incoming[i].message`failures)
    {
      var t := 0;
      while t < |incoming|
        invariant t <= |incoming|
        invariant Valid() && DrainShape(incoming, t, c.pending0) && Answering(incoming, t, c.base)
        invariant Releasing(incoming, t, c.released0) && Unclaimed(incoming, t)
        invariant remoteOps == old(remoteOps) && detachedServerOps == old(detachedServerOps)
      {
        t := DrainStep(incoming, t, c.pending0, c.base, c.released0, c.messageAt);
      }
    }
  }
}
