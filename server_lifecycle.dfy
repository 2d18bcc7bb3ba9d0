/** The server-side state machine of a ServerOp:
    NotStarted -> InProgress -> {Completed, Dropped, Failed},
    and what ServerOp::makeProgress() does on each call. */
module ServerLifecycle {
  import M = Messages
  import opened Protocol

  /** ServerOp::State. */
  datatype State = NotStarted | InProgress | Completed | Dropped | Failed

  /** Position in the lifecycle; a transition never lowers it. */
  function Rank(s: State): nat
  {
    match s
    case NotStarted => 0
    case InProgress => 1
    case Completed => 2
    case Dropped => 2
    case Failed => 2
  }

  predicate Terminal(s: State)
  {
    s == Completed || s == Dropped || s == Failed
  }

  /** The result of one makeProgress() call: the state it stores (and returns)
      and which of acknowledge() on the request, cancel() on the response and
      fail() on the request it calls. */
  datatype Outcome = Outcome(state: State, acknowledge: bool, cancel: bool, fail: bool)

  /** ServerOp::makeProgress() as a function of what it reads: the stored state,
      the request's dropped() flag, the response's status (NotStarted when there
      is no response), and the op's delegated flag, stage id and detached flag. */
  function Progress(s: State, dropped: bool, response: M.Status, delegated: bool,
                    stageId: nat, detached: bool): (r: Outcome)
    // outside InProgress the state never changes
    ensures s != InProgress ==> r.state == s
    // states only move forward, and NotStarted is never re-entered
    ensures Rank(s) <= Rank(r.state)
    ensures r.state == NotStarted <==> s == NotStarted
    // a dropped request wins over any response status
    ensures s == InProgress && dropped ==> r.state == Dropped
    // completion: a completed response, or a sent one when the op was not delegated
    ensures s == InProgress && !dropped ==>
      (r.state == Completed <==> (response == M.Completed || (response == M.Sent && !delegated)))
    ensures s == InProgress && !dropped ==> (r.state == Failed <==> response == M.Failed)
    // the side effects
    ensures r.acknowledge <==> (s == InProgress && r.state == Completed && stageId != INITIAL_REQUEST_ID)
    ensures r.cancel <==> (s == InProgress && r.state == Failed)
    ensures r.fail <==> (s == Failed && detached)
  {
    match s
    case NotStarted => Outcome(s, false, false, false)
    case InProgress =>
      if dropped then Outcome(Dropped, false, false, false)
      else if response == M.Completed || (response == M.Sent && !delegated) then
        Outcome(Completed, stageId != INITIAL_REQUEST_ID, false, false)
      else if response == M.Failed then Outcome(Failed, false, true, false)
      else Outcome(s, false, false, false)
    case Completed => Outcome(s, false, false, false)
    case Dropped => Outcome(s, false, false, false)
    case Failed => Outcome(s, false, false, detached)
  }

  /** What the transport reports at the moment of one makeProgress() call. */
  datatype Observation = Observation(dropped: bool, response: M.Status)

  /** An observation that ends an in-flight op with the given delegated flag. */
  predicate Decisive(o: Observation, delegated: bool)
  {
    o.dropped || o.response == M.Completed || o.response == M.Failed
    || (o.response == M.Sent && !delegated)
  }

  /** The state after successive makeProgress() calls, one per observation
      (as the detached sweep of successive poll() calls performs them). */
  function Run(s: State, delegated: bool, stageId: nat, detached: bool, obs: seq<Observation>): State
    decreases |obs|
  {
    if obs == [] then s
    else Run(Progress(s, obs[0].dropped, obs[0].response, delegated, stageId, detached).state,
             delegated, stageId, detached, obs[1..])
  }

  /** Over any number of calls the state only moves forward, and a terminal
      state is never left. */
  lemma {:induction false} RunForwardOnly(s: State, delegated: bool, stageId: nat, detached: bool,
                                          obs: seq<Observation>)
    ensures Rank(s) <= Rank(Run(s, delegated, stageId, detached, obs))
    ensures Terminal(s) ==> Run(s, delegated, stageId, detached, obs) == s
    decreases |obs|
  {
    if obs != [] {
      var next := Progress(s, obs[0].dropped, obs[0].response, delegated, stageId, detached).state;
      RunForwardOnly(next, delegated, stageId, detached, obs[1..]);
    }
  }

  /** An in-flight op stays InProgress exactly as long as no observation was
      decisive for it. */
  lemma {:induction false} RunStaysInProgress(delegated: bool, stageId: nat, detached: bool,
                                              obs: seq<Observation>)
    ensures Run(InProgress, delegated, stageId, detached, obs) == InProgress
        <==> forall i :: 0 <= i < |obs| ==> !Decisive(obs[i], delegated)
    decreases |obs|
  {
    if obs != [] {
      var next := Progress(InProgress, obs[0].dropped, obs[0].response, delegated, stageId, detached).state;
      RunStaysInProgress(delegated, stageId, detached, obs[1..]);
      if Decisive(obs[0], delegated) {
        assert Terminal(next);
        RunForwardOnly(next, delegated, stageId, detached, obs[1..]);
      } else {
        assert next == InProgress;
        assert forall i :: 1 <= i < |obs| ==> obs[i] == obs[1..][i - 1];
      }
    }
  }

  /** The first decisive observation fixes the outcome of an in-flight op. */
  lemma {:induction false} RunFirstDecisiveWins(delegated: bool, stageId: nat, detached: bool,
                                                obs: seq<Observation>, k: nat)
    requires k < |obs| && Decisive(obs[k], delegated)
    requires forall i :: 0 <= i < k ==> !Decisive(obs[i], delegated)
    ensures Run(InProgress, delegated, stageId, detached, obs)
         == Progress(InProgress, obs[k].dropped, obs[k].response, delegated, stageId, detached).state
    decreases k
  {
    if k == 0 {
      var next := Progress(InProgress, obs[0].dropped, obs[0].response, delegated, stageId, detached).state;
      RunForwardOnly(next, delegated, stageId, detached, obs[1..]);
    } else {
      assert !Decisive(obs[0], delegated);
      assert forall i :: 0 <= i < k - 1 ==> obs[1..][i] == obs[i + 1];
      RunFirstDecisiveWins(delegated, stageId, detached, obs[1..], k - 1);
    }
  }

  /** After delegate(), a response the transport reports only as Sent (or not
      yet sent) never completes the op, however often it is polled; without
      delegation a single Sent report completes it. */
  lemma DelegatedSentIsNotEnough(stageId: nat, detached: bool, obs: seq<Observation>)
    requires forall i :: 0 <= i < |obs| ==>
      !obs[i].dropped && (obs[i].response == M.Sent || obs[i].response == M.InProgress || obs[i].response == M.NotStarted)
    ensures Run(InProgress, true, stageId, detached, obs) == InProgress
    ensures |obs| > 0 && obs[0].response == M.Sent ==> Run(InProgress, false, stageId, detached, obs) == Completed
  {
    RunStaysInProgress(true, stageId, detached, obs);
    if |obs| > 0 && obs[0].response == M.Sent {
      RunFirstDecisiveWins(false, stageId, detached, obs, 0);
    }
  }

  /** How many times a detached op's request gets fail() over successive
      sweeps of the detached list, one makeProgress() call per sweep and
      observation, when `step` is makeProgress(): the sweep erases the op
      after the first call that leaves it outside InProgress, so it sees no
      later call. */
  function DetachedFailures(s: State, delegated: bool, stageId: nat, obs: seq<Observation>): nat
    decreases |obs|
  {
    if obs == [] then 0
    else
      var o := Progress(s, obs[0].dropped, obs[0].response, delegated, stageId, true);
      (if o.fail then 1 else 0)
      + (if o.state == InProgress then DetachedFailures(o.state, delegated, stageId, obs[1..]) else 0)
  }

  /** As written, only an op that was already Failed when it was detached is
      failed back to its sender, once; an op that fails while detached is
      erased by the same sweep that moved it to Failed, without fail(). */
  lemma {:induction false} DetachedFailuresAsWritten(s: State, delegated: bool, stageId: nat,
                                                     obs: seq<Observation>)
    ensures DetachedFailures(s, delegated, stageId, obs) == (if s == Failed && |obs| > 0 then 1 else 0)
    decreases |obs|
  {
    if obs != [] && s == InProgress {
      var o := Progress(s, obs[0].dropped, obs[0].response, delegated, stageId, true);
      if o.state == InProgress {
        DetachedFailuresAsWritten(o.state, delegated, stageId, obs[1..]);
      }
    }
  }

  /** The input that shows it: a detached, in-flight op whose response the
      transport reports Failed ends Failed after one sweep, and its sender
      never hears of it. */
  lemma DetachedFailureLost()
    ensures Run(InProgress, false, INITIAL_REQUEST_ID, true, [Observation(false, M.Failed)]) == Failed
    ensures DetachedFailures(InProgress, false, INITIAL_REQUEST_ID, [Observation(false, M.Failed)]) == 0
  {
  }

  /** makeProgress() as its own comment on the Failed branch intends it: a
      detached op that the server has given up on fails its request back to
      the sender, both when it was Failed already and when this very call
      moves it to Failed. Everything else is as in Progress. */
  function ProgressReported(s: State, dropped: bool, response: M.Status, delegated: bool,
                            stageId: nat, detached: bool): (r: Outcome)
    ensures r.state == Progress(s, dropped, response, delegated, stageId, detached).state
    ensures r.acknowledge == Progress(s, dropped, response, delegated, stageId, detached).acknowledge
    ensures r.cancel == Progress(s, dropped, response, delegated, stageId, detached).cancel
    ensures r.fail <==> detached && (s == Failed || (s == InProgress && r.state == Failed))
  {
    var o := Progress(s, dropped, response, delegated, stageId, detached);
    o.(fail := detached && (s == Failed || (s == InProgress && o.state == Failed)))
  }

  /** DetachedFailures with ProgressReported in place of makeProgress(). */
  function DetachedFailuresReported(s: State, delegated: bool, stageId: nat, obs: seq<Observation>): nat
    decreases |obs|
  {
    if obs == [] then 0
    else
      var o := ProgressReported(s, obs[0].dropped, obs[0].response, delegated, stageId, true);
      (if o.fail then 1 else 0)
      + (if o.state == InProgress then DetachedFailuresReported(o.state, delegated, stageId, obs[1..]) else 0)
  }

  /** With the intended makeProgress(), a detached op that was in flight or
      Failed is failed back to its sender exactly once when it ends Failed,
      and never otherwise. */
  lemma {:induction false} DetachedFailuresExactlyOnce(s: State, delegated: bool, stageId: nat,
                                                       obs: seq<Observation>)
    requires s == InProgress || s == Failed
    ensures DetachedFailuresReported(s, delegated, stageId, obs)
         == (if |obs| > 0 && Run(s, delegated, stageId, true, obs) == Failed then 1 else 0)
    decreases |obs|
  {
    if obs != [] {
      var o := ProgressReported(s, obs[0].dropped, obs[0].response, delegated, stageId, true);
      RunForwardOnly(o.state, delegated, stageId, true, obs[1..]);
      if o.state == InProgress {
        DetachedFailuresExactlyOnce(o.state, delegated, stageId, obs[1..]);
        if obs[1..] == [] {
          assert Run(s, delegated, stageId, true, obs) == InProgress;
        }
      }
    }
  }
}
