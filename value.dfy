/** The value facade: Set with its option hooks, Get and the Watch stream
    pump (Close is `Primitive.Close`). Each RPC is an outcome passed in; the stream is a trace of
    `Recv()` outcomes. `meta.FromProto` is foreign and is taken to carry the
    object metadata across unchanged. */
module ValuePrimitive {
  import opened Errors
  import opened Pump
  import Primitive

  /** `value.Type`. */
  const ValueType: Primitive.Type := "Value"

  newtype byte = b: int | 0 <= b < 256

  /** `meta.ObjectMeta`, reduced to the revision the options compare. */
  datatype ObjectMeta = ObjectMeta(revision: nat)

  /** `meta.ObjectMeta{}`. */
  const ZeroMeta := ObjectMeta(0)

  /** `api.Object`: a value with its metadata. */
  datatype Object = Object(meta: ObjectMeta, value: seq<byte>)

  /** `EventType`, whose one string constant is "update". */
  datatype EventType = EventUpdate

  datatype Event = Event(meta: ObjectMeta, eventType: EventType, value: seq<byte>)

  // ----- Set and its options -----

  /** `api.Precondition` holding object metadata, reduced to its revision. */
  datatype Precondition = MetadataPrecondition(revision: nat)

  /** A `SetOption`: `IfMatch(meta)` makes the Set conditional on the
      revision of `meta`. */
  datatype SetOption = IfMatch(meta: ObjectMeta)

  /** `api.SetRequest`, which the before-hooks update in place. */
  class SetRequest {
    var value: seq<byte>
    var preconditions: seq<Precondition>

    /** `&api.SetRequest{Value: api.Object{Value: value}}`. */
    constructor (value: seq<byte>)
      ensures this.value == value && preconditions == []
    {
      this.value := value;
      preconditions := [];
    }
  }

  /** `o.beforeSet(request)`: IfMatch adds a precondition on its revision
      after those already present and changes nothing else. */
  method BeforeSet(o: SetOption, request: SetRequest)
    modifies request
    ensures request.preconditions == old(request.preconditions) + [MetadataPrecondition(o.meta.revision)]
    ensures request.value == old(request.value)
  {
    request.preconditions := request.preconditions + [MetadataPrecondition(o.meta.revision)];
  }

  /** The preconditions the before-hooks of `opts` add, in option order. */
  function PreconditionsOf(opts: seq<SetOption>): (ps: seq<Precondition>)
    ensures |ps| == |opts|
    ensures forall i :: 0 <= i < |opts| ==> ps[i] == MetadataPrecondition(opts[i].meta.revision)
  {
    if opts == [] then []
    else PreconditionsOf(opts[..|opts| - 1]) + [MetadataPrecondition(opts[|opts| - 1].meta.revision)]
  }

  /** `api.SetResponse`. */
  datatype SetResponse = SetResponse(value: Object)

  /** `o.afterSet(response)`: IfMatch leaves the response as it was. */
  function AfterSet(o: SetOption, response: SetResponse): (r: SetResponse)
    ensures r == response
  {
    match o
    case IfMatch(_) => response
  }

  /** Which hook ran, by option index. */
  datatype SetHook = RanBeforeSet(index: nat) | RanAfterSet(index: nat)

  function BeforeSetRuns(n: nat): (h: seq<SetHook>)
    ensures |h| == n && forall i :: 0 <= i < n ==> h[i] == RanBeforeSet(i)
  {
    if n == 0 then [] else BeforeSetRuns(n - 1) + [RanBeforeSet(n - 1)]
  }

  function AfterSetRuns(n: nat): (h: seq<SetHook>)
    ensures |h| == n && forall i :: 0 <= i < n ==> h[i] == RanAfterSet(i)
  {
    if n == 0 then [] else AfterSetRuns(n - 1) + [RanAfterSet(n - 1)]
  }

  /** The request the Set RPC is sent. */
  datatype SentSet = SentSet(value: seq<byte>, preconditions: seq<Precondition>)

  /** `Set(ctx, value, opts...)`: every before-hook runs in option order
      before the RPC; on failure the zero metadata and the translated error
      are returned and no after-hook runs; on success every after-hook runs
      in option order and the new object's metadata is returned. */
  method Set(value: seq<byte>, opts: seq<SetOption>, rpc: RpcOutcome<SetResponse>)
    returns (result: ObjectMeta, err: Option<ErrorKind>, sent: SentSet, hooks: seq<SetHook>)
    ensures sent == SentSet(value, PreconditionsOf(opts))
    ensures rpc.Failure? ==> hooks == BeforeSetRuns(|opts|)
    ensures rpc.Success? ==> hooks == BeforeSetRuns(|opts|) + AfterSetRuns(|opts|)
    ensures rpc.Failure? ==> result == ZeroMeta && err == Some(rpc.kind)
    ensures rpc.Success? ==> result == rpc.response.value.meta && err == None
  {
    var request := new SetRequest(value);
    hooks := [];
    for i := 0 to |opts|
      invariant request.value == value
      invariant request.preconditions == PreconditionsOf(opts[..i])
      invariant hooks == BeforeSetRuns(i)
    {
      BeforeSet(opts[i], request);
      hooks := hooks + [RanBeforeSet(i)];
      assert opts[..i + 1][..i] == opts[..i];
    }
    assert opts[..|opts|] == opts;
    sent := SentSet(request.value, request.preconditions);
    if rpc.Failure? {
      return ZeroMeta, Some(rpc.kind), sent, hooks;
    }
    var response := rpc.response;
    ghost var before := hooks;
    for i := 0 to |opts|
      invariant response == rpc.response
      invariant hooks == before + AfterSetRuns(i)
    {
      response := AfterSet(opts[i], response);
      hooks := hooks + [RanAfterSet(i)];
    }
    result, err := response.value.meta, None;
  }

  /** The options test: IfMatch with revision 1, applied to an empty request,
      puts revision 1 into the first precondition. */
  method IfMatchPutsRevision() returns (revision: nat)
    ensures revision == 1
  {
    var request := new SetRequest([]);
    BeforeSet(IfMatch(ObjectMeta(1)), request);
    revision := request.preconditions[0].revision;
  }

  // ----- Get -----

  /** `api.GetResponse`. */
  datatype GetResponse = GetResponse(value: Object)

  /** What Get returns; a nil byte slice is the empty sequence. */
  datatype GetReply = GetReply(value: seq<byte>, meta: ObjectMeta, err: Option<ErrorKind>)

  /** Get: the stored value and its metadata, or no value, the zero metadata
      and the translated error. */
  function Get(rpc: RpcOutcome<GetResponse>): (r: GetReply)
    ensures r.err.None? <==> rpc.Success?
    ensures rpc.Success? ==> r.value == rpc.response.value.value && r.meta == rpc.response.value.meta
    ensures rpc.Failure? ==> r == GetReply([], ZeroMeta, Some(rpc.kind))
  {
    match rpc
    case Success(response) => GetReply(response.value.value, response.value.meta, None)
    case Failure(k) => GetReply([], ZeroMeta, Some(k))
  }

  // ----- Watch -----

  datatype WireEventType = WireUpdate | WireOther(code: int)
  datatype WireEvent = WireEvent(eventType: WireEventType, value: Object)

  /** `api.EventsResponse`. */
  datatype EventsResponse = EventsResponse(event: WireEvent)

  /** The switch on `response.Event.Type`: only UPDATE maps to an event,
      carrying the message's value and metadata. */
  function ToEvent(r: EventsResponse): (e: Option<Event>)
    ensures e.Some? <==> r.event.eventType == WireUpdate
    ensures e.Some? ==> e.value == Event(r.event.value.meta, EventUpdate, r.event.value.value)
  {
    match r.event.eventType
    case WireUpdate => Some(Event(r.event.value.meta, EventUpdate, r.event.value.value))
    case WireOther(_) => None
  }

  /** The goroutine of Watch: the `open` flag, the one-time close of the
      gate on the first message, the UPDATE mapping, and the deferred calls
      (gate, then channel) on exit. */
  method WatchPump(trace: seq<Recv<EventsResponse>>) returns (log: seq<Effect<Event>>)
    ensures log == Log(trace, true, false, 0, ToEvent)
  {
    log := [];
    var open := false;
    var i := 0;
    while i < |trace|
      invariant 0 <= i <= |trace|
      invariant open <==> i > 0
      invariant forall j :: 0 <= j < i ==> trace[j].Received?
      invariant log == Log(trace[..i], true, false, 0, ToEvent)
    {
      if !trace[i].Received? {
        ExitAt(trace, i, true, false, 0, ToEvent);
        var exit := Exit<EventsResponse, Event>(trace[i], true, open);
        log := log + exit;
        return;
      }
      var response := trace[i].msg;
      MessageAt(trace, i, true, false, 0, ToEvent);
      var gate: seq<Effect<Event>> := [];
      if !open {
        gate := [ReleaseGate];
        open := true;
      }
      var sends := Deliver(ToEvent(response));
      assert gate + sends == Release(true, i > 0) + Hooks(0) + Deliver(ToEvent(response));
      log := log + (gate + sends);
      i := i + 1;
    }
    assert trace[..i] == trace;
  }

  /** `Watch(ctx, ch)`: a failed Events RPC is returned at once with no
      pump; otherwise the pump runs and the call returns as the `select`
      between the gate and the context decides. */
  method Watch(rpc: RpcOutcome<()>, trace: seq<Recv<EventsResponse>>, ctxDoneFirst: Option<ContextCause>)
    returns (ret: CallReturn, log: seq<Effect<Event>>)
    ensures rpc.Failure? ==> ret == Returned(Some(RpcError(rpc.kind))) && log == []
    ensures rpc.Success? ==> log == Log(trace, true, false, 0, ToEvent)
    ensures rpc.Success? ==> ret == AwaitGate(|trace| > 0, ctxDoneFirst)
  {
    if rpc.Failure? {
      return Returned(Some(RpcError(rpc.kind))), [];
    }
    log := WatchPump(trace);
    GateReleasedOnce(trace, true, false, 0, ToEvent);
    ret := AwaitGate(Count(log, GateTag) > 0, ctxDoneFirst);
  }
}
