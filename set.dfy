/** The set facade: result mapping of the unary calls, the Elements and Watch
    stream pumps (Close is `Primitive.Close`). Each RPC is an outcome passed in; each stream is
    a trace of `Recv()` outcomes. */
module SetPrimitive {
  import opened Errors
  import opened Pump
  import opened SetOptions
  import Primitive

  /** `set.Type`. */
  const SetType: Primitive.Type := "Set"

  /** `EventType`, whose string constants are "add", "remove" and "replay". */
  datatype EventType = EventAdd | EventRemove | EventReplay

  datatype Event = Event(eventType: EventType, value: string)

  /** What a facade call returns: a result and a nil or non-nil error. */
  datatype Reply<T> = Reply(result: T, err: Option<ErrorKind>)

  /** `response.Size_`, taken to be an unsigned 32-bit count. */
  newtype uint32 = x: int | 0 <= x < 0x1_0000_0000

  // ----- Unary calls -----

  /** Add: the value was added; an AlreadyExists failure is softened to a
      `false` result without error; every other failure is returned. */
  function Add(rpc: RpcOutcome<()>): (r: Reply<bool>)
    ensures r.result <==> rpc.Success?
    ensures r.err.None? <==> rpc.Success? || rpc.kind == AlreadyExists
    ensures r.err.Some? ==> r.err.value == rpc.kind && r.err.value != AlreadyExists
  {
    match rpc
    case Success(_) => Reply(true, None)
    case Failure(k) => if k == AlreadyExists then Reply(false, None) else Reply(false, Some(k))
  }

  /** Remove: the value was removed; a NotFound failure is softened to a
      `false` result without error; every other failure is returned. */
  function Remove(rpc: RpcOutcome<()>): (r: Reply<bool>)
    ensures r.result <==> rpc.Success?
    ensures r.err.None? <==> rpc.Success? || rpc.kind == NotFound
    ensures r.err.Some? ==> r.err.value == rpc.kind && r.err.value != NotFound
  {
    match rpc
    case Success(_) => Reply(true, None)
    case Failure(k) => if k == NotFound then Reply(false, None) else Reply(false, Some(k))
  }

  /** The answer a server holding `contents` gives to an Add or a Remove of
      `v`, as the interface comments describe the two calls. */
  function AddOutcome(contents: set<string>, v: string): RpcOutcome<()>
  {
    if v in contents then Failure(AlreadyExists) else Success(())
  }

  function RemoveOutcome(contents: set<string>, v: string): RpcOutcome<()>
  {
    if v in contents then Success(()) else Failure(NotFound)
  }

  /** Against such a server, Add never fails and says whether `v` was new,
      and Remove never fails and says whether the set contained `v`. */
  lemma SoftFailuresReportMembership(contents: set<string>, v: string)
    ensures Add(AddOutcome(contents, v)) == Reply(v !in contents, None)
    ensures Remove(RemoveOutcome(contents, v)) == Reply(v in contents, None)
  {
  }

  /** Contains: the server's answer, or `false` with the translated error. */
  function Contains(rpc: RpcOutcome<bool>): (r: Reply<bool>)
    ensures r.err.None? <==> rpc.Success?
    ensures rpc.Success? ==> r.result == rpc.response
    ensures rpc.Failure? ==> r == Reply(false, Some(rpc.kind))
  {
    match rpc
    case Success(contains) => Reply(contains, None)
    case Failure(k) => Reply(false, Some(k))
  }

  /** Len: `int(response.Size_)`, exact for a 64-bit `int`, or 0 with the
      translated error. */
  function Len(rpc: RpcOutcome<uint32>): (r: Reply<int>)
    ensures r.err.None? <==> rpc.Success?
    ensures rpc.Success? ==> r.result == rpc.response as int && 0 <= r.result < 0x1_0000_0000
    ensures rpc.Failure? ==> r == Reply(0, Some(rpc.kind))
  {
    match rpc
    case Success(size) => Reply(size as int, None)
    case Failure(k) => Reply(0, Some(k))
  }

  /** Clear: nil on success, the translated error otherwise. */
  function Clear(rpc: RpcOutcome<()>): (err: Option<ErrorKind>)
    ensures err.None? <==> rpc.Success?
    ensures rpc.Failure? ==> err == Some(rpc.kind)
  {
    match rpc
    case Success(_) => None
    case Failure(k) => Some(k)
  }


  // ----- Elements -----

  /** `api.ElementsResponse`, reduced to the element's value. */
  datatype ElementsResponse = ElementsResponse(value: string)

  function ElementValue(r: ElementsResponse): Option<string>
  {
    Some(r.value)
  }

  /** The goroutine of Elements: forwards every element value, stops at the
      first EOF or error (logging only an unexpected one), and closes the
      channel by its one deferred call. */
  method ElementsPump(trace: seq<Recv<ElementsResponse>>) returns (log: seq<Effect<string>>)
    ensures log == Log(trace, false, false, 0, ElementValue)
  {
    log := [];
    var i := 0;
    while i < |trace|
      invariant 0 <= i <= |trace|
      invariant forall j :: 0 <= j < i ==> trace[j].Received?
      invariant log == Log(trace[..i], false, false, 0, ElementValue)
    {
      if !trace[i].Received? {
        ExitAt(trace, i, false, false, 0, ElementValue);
        var exit := Exit<ElementsResponse, string>(trace[i], false, false);
        log := log + exit;
        return;
      }
      MessageAt(trace, i, false, false, 0, ElementValue);
      log := log + [Send(trace[i].msg.value)];
      i := i + 1;
    }
    assert trace[..i] == trace;
  }

  /** `Elements(ctx, ch)`: a failed Elements RPC is returned and no goroutine
      starts; otherwise nil is returned and the pump runs over the stream. */
  method Elements(rpc: RpcOutcome<()>, trace: seq<Recv<ElementsResponse>>) returns (err: Option<ErrorKind>, log: seq<Effect<string>>)
    ensures rpc.Failure? ==> err == Some(rpc.kind) && log == []
    ensures rpc.Success? ==> err == None && log == Log(trace, false, false, 0, ElementValue)
  {
    if rpc.Failure? {
      return Some(rpc.kind), [];
    }
    err := None;
    log := ElementsPump(trace);
  }

  // ----- Watch -----

  /** The switch on `response.Event.Type`: ADD, REMOVE and REPLAY map to the
      event type of the same name with the element's value; any other tag
      maps to nothing. */
  function ToEvent(r: EventsResponse): (e: Option<Event>)
    ensures e.Some? <==> !r.event.eventType.WireOther?
    ensures e.Some? ==> e.value.value == r.event.value
    ensures r.event.eventType == WireAdd ==> e == Some(Event(EventAdd, r.event.value))
    ensures r.event.eventType == WireRemove ==> e == Some(Event(EventRemove, r.event.value))
    ensures r.event.eventType == WireReplay ==> e == Some(Event(EventReplay, r.event.value))
  {
    match r.event.eventType
    case WireAdd => Some(Event(EventAdd, r.event.value))
    case WireRemove => Some(Event(EventRemove, r.event.value))
    case WireReplay => Some(Event(EventReplay, r.event.value))
    case WireOther(_) => None
  }
  /** The hook loop `for i := range opts { opts[i].afterWatch(response) }`
      run on one received message. */
  method RunAfterWatch(opts: seq<WatchOption>, response: EventsResponse) returns (hooked: EventsResponse, hooks: seq<Effect<Event>>)
    ensures hooked == response
    ensures hooks == Hooks(|opts|)
  {
    hooked, hooks := response, [];
    for j := 0 to |opts|
      invariant hooked == response
      invariant hooks == Hooks(j)
    {
      hooked := AfterWatch(opts[j], hooked);
      hooks := hooks + [AfterHook(j)];
    }
  }

  /** The goroutine of Watch: the `open` flag, the one-time close of the
      gate on the first message, the after-hooks on every message, the event
      mapping, and the deferred calls (gate, then channel) on exit. */
  method WatchPump(opts: seq<WatchOption>, trace: seq<Recv<EventsResponse>>) returns (log: seq<Effect<Event>>)
    ensures log == Log(trace, true, false, |opts|, ToEvent)
  {
    log := [];
    var open := false;
    var i := 0;
    while i < |trace|
      invariant 0 <= i <= |trace|
      invariant open <==> i > 0
      invariant forall j :: 0 <= j < i ==> trace[j].Received?
      invariant log == Log(trace[..i], true, false, |opts|, ToEvent)
    {
      if !trace[i].Received? {
        ExitAt(trace, i, true, false, |opts|, ToEvent);
        var exit := Exit<EventsResponse, Event>(trace[i], true, open);
        log := log + exit;
        return;
      }
      var msg := trace[i].msg;
      MessageAt(trace, i, true, false, |opts|, ToEvent);
      var gate: seq<Effect<Event>> := [];
      if !open {
        gate := [ReleaseGate];
        open := true;
      }
      var response, hooks := RunAfterWatch(opts, msg);
      var sends := Deliver(ToEvent(response));
      assert gate + hooks + sends == Release(true, i > 0) + Hooks(|opts|) + Deliver(ToEvent(msg));
      log := log + (gate + hooks + sends);
      i := i + 1;
    }
    assert trace[..i] == trace;
  }

  /** `Watch(ctx, ch, opts...)`: the before-hooks prepare the request in
      option order; a failed Events RPC is returned at once with no pump;
      otherwise the pump runs and the call returns as the `select` between
      the gate and the context decides. */
  method Watch(opts: seq<WatchOption>, rpc: RpcOutcome<()>, trace: seq<Recv<EventsResponse>>, ctxDoneFirst: Option<ContextCause>)
    returns (ret: CallReturn, replay: bool, log: seq<Effect<Event>>)
    ensures replay == RequestsReplay(opts)
    ensures rpc.Failure? ==> ret == Returned(Some(RpcError(rpc.kind))) && log == []
    ensures rpc.Success? ==> log == Log(trace, true, false, |opts|, ToEvent)
    ensures rpc.Success? ==> ret == AwaitGate(|trace| > 0, ctxDoneFirst)
  {
    var request := new EventsRequest();
    RunBeforeWatch(opts, request);
    replay := request.replay;
    if rpc.Failure? {
      return Returned(Some(RpcError(rpc.kind))), replay, [];
    }
    log := WatchPump(opts, trace);
    GateReleasedOnce(trace, true, false, |opts|, ToEvent);
    ret := AwaitGate(Count(log, GateTag) > 0, ctxDoneFirst);
  }

  /** The stream of the replay scenario: a set holding "a" and "b" replays
      both, then an external add of "c" arrives, then the stream ends. */
  const ReplayTrace: seq<Recv<EventsResponse>> := [
    Received(EventsResponse(WireEvent(WireReplay, "a"))),
    Received(EventsResponse(WireEvent(WireReplay, "b"))),
    Received(EventsResponse(WireEvent(WireAdd, "c"))),
    EndOfStream]

  /** Over that stream, a pump with one hook sends the three events in
      order and closes `ch` last. */
  lemma ReplayTraceEvents()
    ensures Sent(Log(ReplayTrace, true, false, 1, ToEvent))
         == [Event(EventReplay, "a"), Event(EventReplay, "b"), Event(EventAdd, "c")]
    ensures var log := Log(ReplayTrace, true, false, 1, ToEvent);
      |log| > 0 && log[|log| - 1] == CloseChannel
  {
    var trace := ReplayTrace;
    SentAreMappedMessages(trace, true, false, 1, ToEvent);
    ClosedOnceAtExit(trace, true, false, 1, ToEvent);
    assert trace[1..][1..][1..][1..] == [];
    var msgs := ReceivedMessages(trace);
    assert msgs == [
      EventsResponse(WireEvent(WireReplay, "a")),
      EventsResponse(WireEvent(WireReplay, "b")),
      EventsResponse(WireEvent(WireAdd, "c"))];
    assert FilterMap(msgs[2..], ToEvent) == [Event(EventAdd, "c")] by {
      assert msgs[2..][1..] == [];
    }
    assert FilterMap(msgs[1..], ToEvent) == [Event(EventReplay, "b"), Event(EventAdd, "c")] by {
      assert msgs[1..][1..] == msgs[2..];
    }
  }

  /** The replay scenario: Watch with WithReplay over that stream asks for
      replay, returns nil, delivers the three events in that order and
      closes the channel last. */
  method ReplayScenario() returns (ret: CallReturn, replay: bool, delivered: seq<Event>, closedLast: bool)
    ensures replay
    ensures ret == Returned(None)
    ensures delivered == [Event(EventReplay, "a"), Event(EventReplay, "b"), Event(EventAdd, "c")]
    ensures closedLast
  {
    var log;
    assert [WithReplay()][0] == WithReplay();
    ret, replay, log := Watch([WithReplay()], Success(()), ReplayTrace, None);
    ReplayTraceEvents();
    delivered := Sent(log);
    closedLast := |log| > 0 && log[|log| - 1] == CloseChannel;
  }
}
