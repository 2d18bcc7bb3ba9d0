/** The client-side state machine of a RemoteOp:
    NotStarted -> InProgress -> {Completed, Failed}. */
module RemoteLifecycle {
  import M = Messages

  /** RemoteOp::State. */
  datatype State = NotStarted | InProgress | Completed | Failed

  /** Position in the lifecycle; a transition never lowers it. */
  function Rank(s: State): nat
  {
    match s
    case NotStarted => 0
    case InProgress => 1
    case Completed => 2
    case Failed => 2
  }

  predicate Terminal(s: State)
  {
    s == Completed || s == Failed
  }

  /** What one isReady() call leaves behind: the stored state and the answer. */
  datatype Check = Check(state: State, ready: bool)

  /** RemoteOp::isReady() as a function of the stored state and the request's
      transport status. */
  function IsReady(s: State, request: M.Status): (r: Check)
    // the answer is true exactly when the op is now finished
    ensures r.ready <==> Terminal(r.state)
    // the only change is an in-flight op whose request failed, and it becomes Failed
    ensures r.state != s <==> (s == InProgress && request == M.Failed)
    ensures r.state != s ==> r.state == Failed
    ensures Rank(s) <= Rank(r.state)
  {
    match s
    case NotStarted => Check(s, false)
    case InProgress => if request == M.Failed then Check(Failed, true) else Check(s, false)
    case Completed => Check(s, true)
    case Failed => Check(s, true)
  }

  /** Once isReady() has answered true it answers true on every later call,
      whatever the request's status has become, and the state stays put. */
  lemma ReadyIsStable(s: State, first: M.Status, later: M.Status)
    requires IsReady(s, first).ready
    ensures IsReady(IsReady(s, first).state, later) == Check(IsReady(s, first).state, true)
  {
  }
}
