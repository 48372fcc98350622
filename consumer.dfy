/**
 * The telemetry consumer's lifecycle (app/services/iothub/iothub_consumer.py):
 * the `_started` guard, the stop flag, the Event Hub client, and the calls the
 * service makes on the SDK (receive, close, checkpoint).
 *
 * `start()` blocks inside `receive()` while the SDK delivers events on the
 * same service and another thread may call `stop()`. The model runs those
 * interleaved calls in the order they happen: `Start` takes the list of
 * actions that occur while it is receiving and how `receive()` ends.
 */
module EventHubConsumer {
  import opened Wrappers

  /** An event as the SDK hands it over: an identity, and whether its body decodes as UTF-8. */
  datatype Event = Event(id: nat, decodes: bool)

  /** A call the service makes on the SDK, naming the client (numbered in creation order) or the event. */
  datatype Call = Receive(client: nat) | Close(client: nat) | Checkpoint(event: nat)

  /** Something that happens while `receive()` blocks: another thread stops the service, or an event arrives. */
  datatype Action = StopCalled | EventArrived(event: Event)

  /** How `receive()` ends: it returns, or raises. */
  datatype ReceiveEnd = Returned | Raised(error: string)

  /** How `start()` ends. */
  datatype StartOutcome =
    | AlreadyStarted          // the guard returned at once
    | Stopped                 // receive ended and nothing escaped
    | Failed(error: string)   // receive raised while no stop was requested: re-raised
    | CreateFailed(error: string)  // the client could not be created

  /** How `on_event` ends. */
  datatype EventOutcome = Ignored | Checkpointed | DecodeRaised

  /** The service's fields: `_started`, the stop flag, `client`, and the SDK calls made so far. */
  datatype ConsumerState = ConsumerState(started: bool, stopRequested: bool, client: Option<nat>,
                                         clientsCreated: nat, calls: seq<Call>)

  const Initial: ConsumerState := ConsumerState(false, false, None, 0, [])

  /** `stop()`: set the flag and close the client, unless the flag was already set. */
  function StopStep(st: ConsumerState): (r: ConsumerState)
    ensures r.stopRequested
    ensures r.started == st.started && r.client == st.client && r.clientsCreated == st.clientsCreated
  {
    if st.stopRequested then st
    else
      var s := st.(stopRequested := true);
      if s.client.Some? then s.(calls := s.calls + [Close(s.client.value)]) else s
  }

  /** `on_event`: nothing once stopped; otherwise decode the body and checkpoint the event. */
  function EventStep(st: ConsumerState, e: Event): (r: (EventOutcome, ConsumerState))
    ensures r.1.calls == st.calls || r.1.calls == st.calls + [Checkpoint(e.id)]
    ensures r.1 == st || r.1 == st.(calls := st.calls + [Checkpoint(e.id)])
  {
    if st.stopRequested then (Ignored, st)
    else if !e.decodes then (DecodeRaised, st)
    else (Checkpointed, st.(calls := st.calls + [Checkpoint(e.id)]))
  }

  /** The state after the actions that happen while `receive()` blocks. */
  function RunActions(st: ConsumerState, actions: seq<Action>): (r: ConsumerState)
    ensures r.started == st.started && r.client == st.client && r.clientsCreated == st.clientsCreated
    ensures st.stopRequested ==> r.stopRequested
    ensures |st.calls| <= |r.calls| && r.calls[..|st.calls|] == st.calls
  {
    if actions == [] then st
    else
      var n := |actions| - 1;
      var s := RunActions(st, actions[..n]);
      match actions[n]
      case StopCalled => StopStep(s)
      case EventArrived(e) => EventStep(s, e).1
  }

  /**
   * `start()`: the guard, then set `_started` and clear the stop flag, create
   * the client (outside the `try`), receive until the client is closed, close
   * it again on leaving the `with` block, re-raise unless a stop was
   * requested, and finally clear `_started`.
   */
  function StartStep(st: ConsumerState, createError: Option<string>, during: seq<Action>, end: ReceiveEnd)
    : (r: (StartOutcome, ConsumerState))
    ensures !st.started && createError.None? ==>
              && r.1.client == Some(st.clientsCreated) && r.1.clientsCreated == st.clientsCreated + 1
              && |st.calls| + 2 <= |r.1.calls| && r.1.calls[..|st.calls|] == st.calls
              && r.1.calls[|st.calls|] == Receive(st.clientsCreated)
              && r.1.calls[|r.1.calls| - 1] == Close(st.clientsCreated)
    ensures st.started || createError.Some? ==>
              r.1.client == st.client && r.1.clientsCreated == st.clientsCreated && r.1.calls == st.calls
    ensures r.0.Failed? ==> createError.None? && end.Raised? && r.0.error == end.error
  {
    if st.started then (AlreadyStarted, st)
    else
      var s1 := st.(started := true, stopRequested := false);
      if createError.Some? then (CreateFailed(createError.value), s1)
      else
        var h := s1.clientsCreated;
        var s2 := s1.(client := Some(h), clientsCreated := h + 1, calls := s1.calls + [Receive(h)]);
        var s3 := RunActions(s2, during);
        var s4 := s3.(calls := s3.calls + [Close(h)]);
        var outcome := if end.Raised? && !s4.stopRequested then Failed(end.error) else Stopped;
        (outcome, s4.(started := false))
  }

  /** `EventHubConsumerService`, with the SDK calls it makes recorded in `calls`. */
  class ConsumerService {
    var started: bool
    var stopRequested: bool
    var client: Option<nat>
    var clientsCreated: nat
    var calls: seq<Call>

    constructor()
      ensures State() == Initial
    {
      started := false;
      stopRequested := false;
      client := None;
      clientsCreated := 0;
      calls := [];
    }

    function State(): ConsumerState
      reads this
    {
      ConsumerState(started, stopRequested, client, clientsCreated, calls)
    }

    method Stop()
      modifies this
      ensures State() == StopStep(old(State()))
    {
      if stopRequested {
        return;
      }
      stopRequested := true;
      if client.Some? {
        calls := calls + [Close(client.value)];
      }
    }

    method OnEvent(e: Event) returns (outcome: EventOutcome)
      modifies this
      ensures (outcome, State()) == EventStep(old(State()), e)
    {
      if stopRequested {
        return Ignored;
      }
      if !e.decodes {
        return DecodeRaised;
      }
      calls := calls + [Checkpoint(e.id)];
      outcome := Checkpointed;
    }

    /** The SDK's delivery of events, and other threads' `stop()` calls, while `receive()` blocks. */
    method WhileReceiving(during: seq<Action>)
      modifies this
      ensures State() == RunActions(old(State()), during)
    {
      ghost var st0 := State();
      for i := 0 to |during|
        invariant State() == RunActions(st0, during[..i])
      {
        assert during[..i + 1][..i] == during[..i];
        match during[i]
        case StopCalled =>
          Stop();
        case EventArrived(e) =>
          var _ := OnEvent(e);
      }
      assert during[..|during|] == during;
    }

    method Start(createError: Option<string>, during: seq<Action>, end: ReceiveEnd) returns (outcome: StartOutcome)
      modifies this
      ensures (outcome, State()) == StartStep(old(State()), createError, during, end)
    {
      if started {
        return AlreadyStarted;
      }
      started := true;
      stopRequested := false;
      if createError.Some? {
        return CreateFailed(createError.value);
      }
      var h := clientsCreated;
      client := Some(h);
      clientsCreated := h + 1;
      calls := calls + [Receive(h)];
      WhileReceiving(during);
      calls := calls + [Close(h)];
      if end.Raised? && !stopRequested {
        outcome := Failed(end.error);
      } else {
        outcome := Stopped;
      }
      started := false;
    }
  }

  // ---------------------------------------------------------------- lemmas

  /** While started, `start()` returns at once without touching anything. */
  lemma StartWhileStartedIsNoOp(st: ConsumerState, createError: Option<string>, during: seq<Action>, end: ReceiveEnd)
    requires st.started
    ensures StartStep(st, createError, during, end) == (AlreadyStarted, st)
  {
  }

  /** A `stop()` that came before `start()` is forgotten: start clears the flag, so a receive error escapes. */
  lemma StopBeforeStartIsForgotten(st: ConsumerState, error: string)
    requires !st.started
    ensures StartStep(StopStep(st), None, [], Raised(error)).0 == Failed(error)
  {
  }

  /** Once the client exists, `start()` ends with `_started` cleared, however `receive()` ends. */
  lemma StartEndsNotStarted(st: ConsumerState, during: seq<Action>, end: ReceiveEnd)
    requires !st.started
    ensures !StartStep(st, None, during, end).1.started
    ensures StartStep(st, None, during, end).0 != AlreadyStarted
  {
  }

  /** A client that cannot be created leaves `_started` set, so every later `start()` is refused. */
  lemma CreateFailureBlocksRestart(st: ConsumerState, error: string, createError: Option<string>,
                                   during: seq<Action>, end: ReceiveEnd)
    requires !st.started
    ensures var r := StartStep(st, Some(error), [], Returned);
            && r.0 == CreateFailed(error)
            && r.1.started
            && StartStep(r.1, createError, during, end) == (AlreadyStarted, r.1)
  {
  }

  /** An exception from `receive()` escapes exactly when no stop was requested while receiving. */
  lemma ReceiveErrorEscapesIffNotStopped(st: ConsumerState, during: seq<Action>, error: string)
    requires !st.started
    ensures var r := StartStep(st, None, during, Raised(error));
            (r.0 == Failed(error) <==> !r.1.stopRequested) && (r.0 != Failed(error) ==> r.0 == Stopped)
  {
  }

  /** A receive that returns normally never makes `start()` raise. */
  lemma ReturnedReceiveStops(st: ConsumerState, during: seq<Action>)
    requires !st.started
    ensures StartStep(st, None, during, Returned).0 == Stopped
  {
  }

  /** `stop()` twice is `stop()` once. */
  lemma StopIdempotent(st: ConsumerState)
    ensures StopStep(StopStep(st)) == StopStep(st)
  {
  }

  /** `stop()` closes the client exactly when it sets the flag and a client exists. */
  lemma StopClosesOnlyExistingClient(st: ConsumerState)
    ensures !st.stopRequested && st.client.Some? ==> StopStep(st).calls == st.calls + [Close(st.client.value)]
    ensures st.stopRequested || st.client.None? ==> StopStep(st).calls == st.calls
  {
  }

  /** `on_event` checkpoints exactly the event it was given, once, unless the service is stopping. */
  lemma EventCheckpointedOnce(st: ConsumerState, e: Event)
    ensures st.stopRequested ==> EventStep(st, e) == (Ignored, st)
    ensures !st.stopRequested && e.decodes ==> EventStep(st, e) == (Checkpointed, st.(calls := st.calls + [Checkpoint(e.id)]))
  {
  }

  /** Once stop is requested, nothing that happens while receiving changes the service. */
  lemma {:induction false} StoppedServiceIsInert(st: ConsumerState, actions: seq<Action>)
    requires st.stopRequested
    ensures RunActions(st, actions) == st
  {
    if actions != [] {
      StoppedServiceIsInert(st, actions[..|actions| - 1]);
    }
  }

  /** No checkpoint is taken after a stop: every checkpoint of a run comes from the actions before the first stop. */
  lemma {:induction false} NoCheckpointAfterStop(st: ConsumerState, before: seq<Action>, after: seq<Action>)
    ensures RunActions(st, before + [StopCalled] + after) == StopStep(RunActions(st, before))
  {
    var s := StopStep(RunActions(st, before));
    assert (before + [StopCalled])[..|before|] == before;
    StoppedServiceIsInert(s, after);
    RunActionsAppend(st, before + [StopCalled], after);
  }

  /** Running two lists of actions one after the other is running their concatenation. */
  lemma {:induction false} RunActionsAppend(st: ConsumerState, xs: seq<Action>, ys: seq<Action>)
    ensures RunActions(st, xs + ys) == RunActions(RunActions(st, xs), ys)
  {
    if ys == [] {
      assert xs + ys == xs;
    } else {
      var n := |ys| - 1;
      RunActionsAppend(st, xs, ys[..n]);
      assert (xs + ys)[..|xs + ys| - 1] == xs + ys[..n];
    }
  }

  /** The service starts idle: not started, no stop requested, no client. */
  lemma InitialIsIdle()
    ensures !Initial.started && !Initial.stopRequested && Initial.client.None?
    ensures StartStep(Initial, None, [], Returned) == (Stopped, ConsumerState(false, false, Some(0), 1, [Receive(0), Close(0)]))
  {
    var s2 := ConsumerState(true, false, Some(0), 1, [Receive(0)]);
    assert [] + [Receive(0)] == [Receive(0)];
    assert RunActions(s2, []) == s2;
    assert [Receive(0)] + [Close(0)] == [Receive(0), Close(0)];
  }
}
