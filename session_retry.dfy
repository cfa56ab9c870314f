/** The session retry loop of ui/screens/gate/GateViewModel.kt
    (`scheduleRetrySession`): while the retrying flag is set and the stream
    is not connected, ask for a new session id; on success store it, clear
    the flag and start the stream. Time is not modelled: each iteration's
    connection check and session request are given as one `Poll`. */
module SessionRetry {
  import opened Wrappers

  /** What one iteration observes: whether the stream reports connected when
      the loop condition is checked, and what `getSessionId` returned. */
  datatype Poll = Poll(connected: bool, attempt: Result<string>)

  /** The session fields of the view model, and how many times the stream
      has been started. */
  datatype SessionState = SessionState(sessionId: string, retrying: bool, streamStarts: nat)

  /** The retry loop from `s` over the iterations `polls`. */
  function RetryRun(s: SessionState, polls: seq<Poll>): SessionState
    decreases |polls|
  {
    if !s.retrying || polls == [] || polls[0].connected then s
    else match polls[0].attempt
      case Success(id) => RetryRun(SessionState(id, false, s.streamStarts + 1), polls[1..])
      case Failure(_) => RetryRun(s, polls[1..])
  }

  /** Failing attempts while disconnected never give up: the loop is still
      retrying and nothing changed. */
  lemma {:induction false} RetryKeepsTrying(s: SessionState, polls: seq<Poll>)
    requires forall i :: 0 <= i < |polls| ==> !polls[i].connected && polls[i].attempt.Failure?
    ensures RetryRun(s, polls) == s
    decreases |polls|
  {
    if s.retrying && polls != [] {
      RetryKeepsTrying(s, polls[1..]);
    }
  }

  /** After any number of failed attempts, the first successful one stores
      its session id, clears the flag and starts the stream exactly once,
      whatever follows. */
  lemma {:induction false} RetryConverges(s: SessionState, failed: seq<Poll>, id: string, later: seq<Poll>)
    requires s.retrying
    requires forall i :: 0 <= i < |failed| ==> !failed[i].connected && failed[i].attempt.Failure?
    ensures RetryRun(s, failed + [Poll(false, Success(id))] + later)
         == SessionState(id, false, s.streamStarts + 1)
    decreases |failed|
  {
    var polls := failed + [Poll(false, Success(id))] + later;
    if failed == [] {
      assert polls[0] == Poll(false, Success(id));
    } else {
      assert polls[1..] == failed[1..] + [Poll(false, Success(id))] + later;
      RetryConverges(s, failed[1..], id, later);
    }
  }

  /** The loop starts the stream at most once, and exactly when it ends a
      retry by clearing the flag; the session id changes only then. */
  lemma {:induction false} RetryStartsOnce(s: SessionState, polls: seq<Poll>)
    ensures var r := RetryRun(s, polls);
      && r.streamStarts == s.streamStarts + (if s.retrying && !r.retrying then 1 else 0)
      && (r.sessionId != s.sessionId ==> s.retrying && !r.retrying)
    decreases |polls|
  {
    if s.retrying && polls != [] && !polls[0].connected {
      match polls[0].attempt
      case Success(id) =>
      case Failure(_) => RetryStartsOnce(s, polls[1..]);
    }
  }

  /** When the loop stops because the stream reports connected, the flag
      stays set: no later disconnection schedules another retry until
      `initSession` runs again. */
  lemma RetryStopsConnected(s: SessionState, polls: seq<Poll>)
    requires s.retrying && polls != [] && polls[0].connected
    ensures RetryRun(s, polls).retrying
  {
  }
}
