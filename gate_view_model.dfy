/** The gate view model of ui/screens/gate/GateViewModel.kt: the queue of
    players waiting at the gates, the last state seen per gate position, the
    border feedback, the last handled player and the session fields. Its
    methods are the class's operations with the coroutines taken out: every
    network result, connection check and permission check is a parameter. */
module GateViewModels {
  import opened Wrappers
  import opened Players
  import opened GateQueue
  import opened SessionRetry

  /** One message from the stream, with what the repository decodes from it
      and whether the notification permission is granted when it arrives. */
  datatype Incoming = Incoming(
    text: string,
    permitted: bool,
    player: Option<PlayerPayload>,
    gates: Option<seq<GateEntry>>)

  /** The fields the stream handlers change. */
  datatype StreamFields = StreamFields(
    queue: seq<PlayerResponse>,
    lastGateStates: map<string, string>,
    borderState: BorderState)

  /** Handling one message: the `when` of the collector and the handler it
      routes to, with the handler's outcome. */
  function Handle(f: StreamFields, m: Incoming): (StreamFields, Outcome) {
    match RouteOf(m.text, m.permitted)
    case Dropped => (f, Completed)
    case ToPlayerHandler =>
      var a := Arrive(f.queue, m.player);
      (f.(queue := QueueAfterArrival(f.queue, m.player), borderState := BorderAfterArrival(f.borderState, a)),
       if a.Malformed? then Aborted else Completed)
    case ToGateHandler =>
      if m.gates.None? then (f, Aborted)
      else
        (f.(queue := QueueAfterBatch(f.queue, m.gates.value),
            lastGateStates := RecordStates(f.lastGateStates, m.gates.value)),
         Completed)
  }

  /** Where a collection of the stream ended: the fields, how many messages
      were handled and whether the last of them aborted. */
  datatype Collection = Collection(fields: StreamFields, handled: nat, aborted: bool)

  /** Collecting a stream: each message is handled in turn, and the first
      one whose handler aborts ends the collection. */
  function CollectRun(f: StreamFields, stream: seq<Incoming>): Collection
    decreases |stream|
  {
    if stream == [] then Collection(f, 0, false)
    else
      var (g, outcome) := Handle(f, stream[0]);
      if outcome == Aborted then Collection(g, 1, true)
      else
        var r := CollectRun(g, stream[1..]);
        Collection(r.fields, r.handled + 1, r.aborted)
  }

  /** A collection handles every message unless it aborts, and an aborted
      one handled at least the message that aborted. */
  lemma {:induction false} CollectCount(f: StreamFields, stream: seq<Incoming>)
    ensures CollectRun(f, stream).handled <= |stream|
    ensures !CollectRun(f, stream).aborted ==> CollectRun(f, stream).handled == |stream|
    ensures CollectRun(f, stream).aborted ==> CollectRun(f, stream).handled >= 1
    decreases |stream|
  {
    if stream != [] {
      CollectCount(Handle(f, stream[0]).0, stream[1..]);
    }
  }

  /** Messages after an abort are never handled; after a collection that
      did not abort, the next messages are collected from where it ended. */
  lemma {:induction false} CollectAppend(f: StreamFields, a: seq<Incoming>, b: seq<Incoming>)
    ensures CollectRun(f, a).aborted ==> CollectRun(f, a + b) == CollectRun(f, a)
    ensures !CollectRun(f, a).aborted ==>
      var r := CollectRun(CollectRun(f, a).fields, b);
      CollectRun(f, a + b) == Collection(r.fields, |a| + r.handled, r.aborted)
    decreases |a|
  {
    if a == [] {
      assert a + b == b;
    } else {
      assert (a + b)[0] == a[0] && (a + b)[1..] == a[1..] + b;
      CollectAppend(Handle(f, a[0]).0, a[1..], b);
    }
  }

  /** An aborted collection stopped at its first aborting message: the
      messages before it all completed, and handling the last one aborted
      and left the final fields. */
  lemma {:induction false} CollectStopsAtFirstAbort(f: StreamFields, stream: seq<Incoming>)
    requires CollectRun(f, stream).aborted
    ensures var n := CollectRun(f, stream).handled;
      && 1 <= n <= |stream|
      && !CollectRun(f, stream[..n - 1]).aborted
      && CollectRun(f, stream[..n - 1]).handled == n - 1
      && Handle(CollectRun(f, stream[..n - 1]).fields, stream[n - 1])
         == (CollectRun(f, stream).fields, Aborted)
    decreases |stream|
  {
    CollectCount(f, stream);
    var (g, outcome) := Handle(f, stream[0]);
    var n := CollectRun(f, stream).handled;
    if outcome == Aborted {
      assert stream[..n - 1] == [];
    } else {
      CollectStopsAtFirstAbort(g, stream[1..]);
      assert stream[..n - 1] == [stream[0]] + stream[1..][..n - 2];
      assert ([stream[0]] + stream[1..][..n - 2])[1..] == stream[1..][..n - 2];
      assert stream[1..][n - 2] == stream[n - 1];
    }
  }

  /** Handling a message keeps the queue's ids unique. */
  lemma HandleKeepsUniqueIds(f: StreamFields, m: Incoming)
    requires UniqueIds(f.queue)
    ensures UniqueIds(Handle(f, m).0.queue)
  {
    match RouteOf(m.text, m.permitted)
    case ToPlayerHandler => ArrivalKeepsUniqueIds(f.queue, m.player);
    case ToGateHandler => if m.gates.Some? { BatchKeepsUniqueIds(f.queue, m.gates.value); }
    case Dropped =>
  }

  /** A whole collection keeps the queue's ids unique. */
  lemma {:induction false} CollectKeepsUniqueIds(f: StreamFields, stream: seq<Incoming>)
    requires UniqueIds(f.queue)
    ensures UniqueIds(CollectRun(f, stream).fields.queue)
    decreases |stream|
  {
    if stream != [] {
      HandleKeepsUniqueIds(f, stream[0]);
      CollectKeepsUniqueIds(Handle(f, stream[0]).0, stream[1..]);
    }
  }

  class GateViewModel {
    var queue: seq<PlayerResponse>
    var lastGateStates: map<string, string>
    var lastHandledPlayer: Option<LastPlayer>
    var sessionId: string
    var borderState: BorderState
    var retryingSession: bool
    /** How many times `startSseStream` has run. */
    ghost var streamStarts: nat
    /** How many retry loops have been launched. */
    ghost var retryLoops: nat

    ghost function Session(): SessionState
      reads this
    {
      SessionState(sessionId, retryingSession, streamStarts)
    }

    ghost function Fields(): StreamFields
      reads this
    {
      StreamFields(queue, lastGateStates, borderState)
    }

    /** The initial state, then `initSession` with the first session
        request's result. */
    constructor (firstAttempt: Result<string>)
      ensures queue == [] && lastGateStates == map[] && lastHandledPlayer == None
      ensures borderState == Neutral
      ensures firstAttempt.Success? ==>
        sessionId == firstAttempt.value && !retryingSession && streamStarts == 1 && retryLoops == 0
      ensures firstAttempt.Failure? ==>
        sessionId == "" && retryingSession && streamStarts == 0 && retryLoops == 1
    {
      queue := [];
      lastGateStates := map[];
      lastHandledPlayer := None;
      sessionId := "";
      borderState := Neutral;
      retryingSession := false;
      streamStarts := 0;
      retryLoops := 0;
      new;
      InitSession(firstAttempt);
    }

    // ----- Queue operations -----

    method EnQueue(player: PlayerResponse)
      modifies this`queue
      ensures queue == old(queue) + [player]
    {
      queue := queue + [player];
    }

    method RemoveByPosition(position: string)
      modifies this`queue
      ensures queue == Without(old(queue), position)
    {
      queue := Without(queue, position);
    }

    method ClearQueue()
      modifies this`queue
      ensures queue == []
    {
      queue := [];
    }

    // ----- Session -----

    /** Starting the stream's collection (and its connection monitor). */
    method StartSseStream()
      modifies this`streamStarts
      ensures streamStarts == old(streamStarts) + 1
    {
      streamStarts := streamStarts + 1;
    }

    /** `initSession`: clear the retrying flag, then store the new id and
        start the stream, or schedule a retry. Because the flag is cleared
        first, a failure always launches a retry loop. */
    method InitSession(result: Result<string>)
      modifies this`sessionId, this`retryingSession, this`streamStarts, this`retryLoops
      ensures result.Success? ==>
        && sessionId == result.value && !retryingSession
        && streamStarts == old(streamStarts) + 1 && retryLoops == old(retryLoops)
      ensures result.Failure? ==>
        && sessionId == old(sessionId) && retryingSession
        && streamStarts == old(streamStarts) && retryLoops == old(retryLoops) + 1
    {
      retryingSession := false;
      match result
      case Success(id) =>
        sessionId := id;
        StartSseStream();
      case Failure(_) =>
        var launched := ScheduleRetrySession();
        assert launched;
    }

    /** `scheduleRetrySession`'s guard: nothing when a retry is already in
        progress, otherwise set the flag and launch the retry loop
        (`RetryLoop`). */
    method ScheduleRetrySession() returns (launched: bool)
      modifies this`retryingSession, this`retryLoops
      ensures launched == !old(retryingSession)
      ensures retryingSession
      ensures retryLoops == old(retryLoops) + (if launched then 1 else 0)
    {
      launched := !retryingSession;
      if launched {
        retryingSession := true;
        retryLoops := retryLoops + 1;
      }
    }

    /** The loop the retry coroutine runs, one `Poll` per iteration; it also
        ends when the polls run out. */
    method RetryLoop(polls: seq<Poll>) returns (iterations: nat)
      modifies this`sessionId, this`retryingSession, this`streamStarts
      ensures Session() == RetryRun(old(Session()), polls)
      ensures iterations <= |polls|
    {
      iterations := 0;
      while retryingSession && iterations < |polls| && !polls[iterations].connected
        invariant iterations <= |polls|
        invariant RetryRun(Session(), polls[iterations..]) == RetryRun(old(Session()), polls)
      {
        match polls[iterations].attempt {
          case Success(id) =>
            sessionId := id;
            retryingSession := false;
            StartSseStream();
          case Failure(_) =>
        }
        iterations := iterations + 1;
      }
    }

    /** One check of the connection monitor: when the stream is not
        connected and no retry is in progress, schedule one. */
    method MonitorTick(connected: bool) returns (scheduled: bool)
      modifies this`retryingSession, this`retryLoops
      ensures scheduled == (!connected && !old(retryingSession))
      ensures retryingSession == (old(retryingSession) || !connected)
      ensures retryLoops == old(retryLoops) + (if scheduled then 1 else 0)
    {
      scheduled := false;
      if !connected && !retryingSession {
        scheduled := ScheduleRetrySession();
      }
    }

    // ----- Decisions -----

    /** The common body of `setStatusAccepted` (`granted`) and
        `setStatusDenied`. Returns the access event sent, if any, and, when
        the server confirmed it, how long the feedback stays before
        `RevertFeedback`. The queue is never changed. */
    method SetStatus(granted: bool, sent: SendOutcome) returns (request: Option<AccessRequest>, revertAfterMs: Option<nat>)
      modifies this`lastHandledPlayer, this`borderState
      ensures request == HeadRequest(queue, sessionId, granted)
      ensures request.Some? && sent == Responded(true) ==>
        && lastHandledPlayer == Some(LastPlayer(FullName(queue[0].player), queue[0].player.isBlacklisted, granted))
        && borderState == DecisionBorder(granted)
        && revertAfterMs == Some(DwellMs(granted))
      ensures !(request.Some? && sent == Responded(true)) ==>
        && lastHandledPlayer == old(lastHandledPlayer)
        && borderState == old(borderState)
        && revertAfterMs == None
    {
      revertAfterMs := None;
      if queue == [] {
        // `_queue.value[0]` throws; the exception is caught and logged
        request := None;
        return;
      }
      var currentPlayer := queue[0];
      var fullName := FullName(currentPlayer.player);
      request := Some(AccessRequest(sessionId, currentPlayer.position, granted));
      match sent
      case Responded(isSuccessful) =>
        if isSuccessful {
          lastHandledPlayer := Some(LastPlayer(fullName, currentPlayer.player.isBlacklisted, granted));
          borderState := if granted then Green else Red;
          revertAfterMs := Some(if granted then AcceptDwellMs else DenyDwellMs);
        }
      case Threw =>
    }

    method SetStatusAccepted(sent: SendOutcome) returns (request: Option<AccessRequest>, revertAfterMs: Option<nat>)
      modifies this`lastHandledPlayer, this`borderState
      ensures request == HeadRequest(queue, sessionId, true)
      ensures request.Some? && sent == Responded(true) ==>
        && lastHandledPlayer == Some(LastPlayer(FullName(queue[0].player), queue[0].player.isBlacklisted, true))
        && borderState == Green && revertAfterMs == Some(3000)
      ensures !(request.Some? && sent == Responded(true)) ==>
        lastHandledPlayer == old(lastHandledPlayer) && borderState == old(borderState) && revertAfterMs == None
    {
      request, revertAfterMs := SetStatus(true, sent);
    }

    method SetStatusDenied(sent: SendOutcome) returns (request: Option<AccessRequest>, revertAfterMs: Option<nat>)
      modifies this`lastHandledPlayer, this`borderState
      ensures request == HeadRequest(queue, sessionId, false)
      ensures request.Some? && sent == Responded(true) ==>
        && lastHandledPlayer == Some(LastPlayer(FullName(queue[0].player), queue[0].player.isBlacklisted, false))
        && borderState == Red && revertAfterMs == Some(5000)
      ensures !(request.Some? && sent == Responded(true)) ==>
        lastHandledPlayer == old(lastHandledPlayer) && borderState == old(borderState) && revertAfterMs == None
    {
      request, revertAfterMs := SetStatus(false, sent);
    }

    /** What the decision coroutine does once its delay has passed. */
    method RevertFeedback()
      modifies this`lastHandledPlayer, this`borderState
      ensures lastHandledPlayer == None && borderState == Neutral
    {
      lastHandledPlayer := None;
      borderState := Neutral;
    }

    // ----- Stream handlers -----

    /** `handlePlayerData` on the decoded payload. */
    method HandlePlayerData(payload: Option<PlayerPayload>) returns (outcome: Outcome)
      modifies this`queue, this`borderState
      ensures queue == QueueAfterArrival(old(queue), payload)
      ensures borderState == BorderAfterArrival(old(borderState), Arrive(old(queue), payload))
      ensures outcome == if Arrive(old(queue), payload).Malformed? then Aborted else Completed
    {
      outcome := Completed;
      if payload.Some? && payload.value.hasData == Some(true) {
        var p := payload.value;
        if p.kind == Some(GateType) {
          var playerId := p.playerId.GetOr(MissingPlayerId);
          var isDuplicate := exists e :: e in queue && e.playerId == playerId;
          if !isDuplicate {
            if p.passphotos.None? || |p.passphotos.value| == 0 {
              // no `passphotos` array, or no element 0 in it: the handler throws
              return Aborted;
            }
            var passphotos := p.passphotos.value;
            var photoObject := if |passphotos| > 1 then passphotos[1] else passphotos[0];
            if photoObject.data.None? {
              return Aborted;
            }
            var isBlacklisted := p.isBlacklisted == Some(true);
            var (first, second, last, last2) := Names(p.player);
            var response := PlayerResponse(
              p.position.GetOr(""),
              playerId,
              Player(first, second, last, last2, Image(photoObject.data.value), isBlacklisted));
            if isBlacklisted {
              borderState := Red;
            }
            EnQueue(response);
          }
        }
      }
    }

    /** Removing the entries at a resolved position, as both loops of
        `handleGateData` do, guarded by whether any entry is there. */
    method RemoveIfQueued(position: string, ghost q0: seq<PlayerResponse>, ghost removed: set<string>)
      requires queue == WithoutAll(q0, removed)
      modifies this`queue
      ensures queue == WithoutAll(q0, removed + {position})
    {
      WithoutAllTwice(q0, removed, {position});
      if exists e :: e in queue && e.position == position {
        RemoveByPosition(position);
      } else {
        WithoutAllNoMatch(queue, {position});
      }
    }

    /** The `forEach` of `handleGateData`: record each gate's state and, on
        a change to a resolving state, remove the entries at its position.
        `removed` is the set of positions it removed. */
    method RecordGates(gates: seq<GateEntry>) returns (ghost removed: set<string>)
      modifies this`queue, this`lastGateStates
      ensures lastGateStates == RecordStates(old(lastGateStates), gates)
      ensures removed <= ResolvedPositions(gates)
      ensures queue == WithoutAll(old(queue), removed)
    {
      removed := {};
      WithoutAllNoMatch(queue, removed);
      var i := 0;
      while i < |gates|
        invariant 0 <= i <= |gates|
        invariant lastGateStates == RecordStates(old(lastGateStates), gates[..i])
        invariant removed <= ResolvedPositions(gates[..i])
        invariant queue == WithoutAll(old(queue), removed)
      {
        var gatePosition := PositionOf(gates[i]);
        var gateState := StateOf(gates[i]);
        assert gates[..i + 1][..i] == gates[..i];
        if gatePosition in lastGateStates && lastGateStates[gatePosition] == gateState {
          // unchanged state: skip this gate
          assert lastGateStates[gatePosition := gateState] == lastGateStates;
        } else {
          lastGateStates := lastGateStates[gatePosition := gateState];
          if Resolves(gateState) {
            RemoveIfQueued(gatePosition, old(queue), removed);
            removed := removed + {gatePosition};
          }
        }
        i := i + 1;
      }
      assert gates[..|gates|] == gates;
    }

    /** The second loop of `handleGateData`: remove the entries at every
        position the batch resolves, whatever was recorded before. */
    method RemoveResolved(gates: seq<GateEntry>)
      modifies this`queue
      ensures queue == WithoutAll(old(queue), ResolvedPositions(gates))
    {
      WithoutAllNoMatch(queue, {});
      var j := 0;
      while j < |gates|
        invariant 0 <= j <= |gates|
        invariant queue == WithoutAll(old(queue), ResolvedPositions(gates[..j]))
      {
        var gateState := StateOf(gates[j]);
        var gatePosition := PositionOf(gates[j]);
        assert gates[..j + 1][..j] == gates[..j];
        assert ResolvedPositions(gates[..j + 1])
            == ResolvedPositions(gates[..j]) + (if Resolves(gateState) then {gatePosition} else {});
        if Resolves(gateState) {
          RemoveIfQueued(gatePosition, old(queue), ResolvedPositions(gates[..j]));
        } else {
          assert ResolvedPositions(gates[..j + 1]) == ResolvedPositions(gates[..j]);
        }
        j := j + 1;
      }
      assert gates[..|gates|] == gates;
    }

    /** `handleGateData` on the decoded gate list: record the states, then
        either every gate is ReadyForUse and the queue is cleared, or the
        entries at every resolved position are removed. A missing list makes
        the `!!` of the second loop throw after a first loop that did
        nothing. */
    method HandleGateData(list: Option<seq<GateEntry>>) returns (outcome: Outcome)
      modifies this`queue, this`lastGateStates
      ensures list.None? ==>
        outcome == Aborted && queue == old(queue) && lastGateStates == old(lastGateStates)
      ensures list.Some? ==>
        && outcome == Completed
        && queue == QueueAfterBatch(old(queue), list.value)
        && lastGateStates == RecordStates(old(lastGateStates), list.value)
    {
      if list.None? {
        return Aborted;
      }
      var gates := list.value;
      ghost var removed := RecordGates(gates);
      if !AllReadyForUse(gates) {
        RemoveResolved(gates);
        WithoutAllTwice(old(queue), removed, ResolvedPositions(gates));
        assert removed + ResolvedPositions(gates) == ResolvedPositions(gates);
      } else {
        ClearQueue();
      }
      outcome := Completed;
    }

    /** The collector of `startSseStream`: route one message by its tags. */
    method OnMessage(message: Incoming) returns (outcome: Outcome)
      modifies this`queue, this`lastGateStates, this`borderState
      ensures (Fields(), outcome) == Handle(old(Fields()), message)
    {
      match RouteOf(message.text, message.permitted)
      case ToPlayerHandler =>
        outcome := HandlePlayerData(message.player);
      case ToGateHandler =>
        outcome := HandleGateData(message.gates);
      case Dropped =>
        outcome := Completed;
    }

    /** Collecting the stream: messages are handled one at a time, in order,
        until one handler throws, which ends the collection. */
    method Collect(stream: seq<Incoming>) returns (handled: nat, aborted: bool)
      modifies this`queue, this`lastGateStates, this`borderState
      ensures Collection(Fields(), handled, aborted) == CollectRun(old(Fields()), stream)
      ensures old(UniqueIds(queue)) ==> UniqueIds(queue)
    {
      handled, aborted := 0, false;
      ghost var start := Fields();
      while handled < |stream| && !aborted
        invariant handled <= |stream|
        invariant !aborted ==>
          var r := CollectRun(Fields(), stream[handled..]);
          CollectRun(start, stream) == Collection(r.fields, handled + r.handled, r.aborted)
        invariant aborted ==> CollectRun(start, stream) == Collection(Fields(), handled, true)
      {
        var message := stream[handled];
        assert stream[handled..][0] == message && stream[handled..][1..] == stream[handled + 1..];
        var outcome := OnMessage(message);
        handled := handled + 1;
        aborted := outcome == Aborted;
      }
      if UniqueIds(start.queue) {
        CollectKeepsUniqueIds(start, stream);
      }
    }
  }
}
