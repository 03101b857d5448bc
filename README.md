# atomix-go-client: set and value facades, watch pumps, primitive lookup

This project models the client-side core of the Atomix Go client. That core is
three pieces:
- the `Set` and `Value` facades over a remote coordination service;
- the goroutines ("pumps") that drain the `Elements` and `Events` server streams
  into a caller's channel;
- the package-level `Get*` functions that choose the primitive ID a client
  connects under.

Every remote call is an outcome passed in as a parameter (`RpcOutcome`: a
response or a translated error kind). A stream is a finite trace of
`stream.Recv()` results: a message, EOF or an error. Each pump is a loop method
over that trace. It returns the ordered log of what it did that others can
observe:
- closing the `openCh` gate;
- running an `afterWatch` hook;
- sending on `ch`;
- logging an error;
- closing `ch`.

Every pump is proved equal to one specification function, `Pump.Log`. The
watch protocol's guarantees are lemmas about that function:
- the gate is released exactly once;
- the delivered events are the mapped messages, in receipt order;
- unknown tags are skipped;
- the loop stops at the first error;
- only unexpected failures are logged;
- the channel is closed exactly once, as the last effect.

A trace that ends without EOF or an error stands for a pump still blocked in
`Recv()`. None of its deferred calls has run. The caller's `select` between
the gate and `ctx.Done()` is `Pump.AwaitGate`. Which case wins is an input.

Modules: `Errors` (error kinds, outcomes), `Pump` (the shared pump
specification), `Primitive` (session handle, primitive options, the shared `Close`), `SetOptions`
(`set/options.go`), `SetPrimitive` (`set/set.go`), `ValuePrimitive`
(`value/value.go`), `Atomix` (`atomix.go`).

## Model

| member | source | states |
|---|---|---|
| SetPrimitive.Add | pkg/atomix/set/set.go:127-135 | result is true iff the RPC succeeded; no error iff success or AlreadyExists; any error returned is the RPC's own kind and never AlreadyExists |
| SetPrimitive.Remove | pkg/atomix/set/set.go:144-152 | result is true iff the RPC succeeded; no error iff success or NotFound; any error returned is the RPC's own kind and never NotFound |
| SetPrimitive.SoftFailuresReportMembership | pkg/atomix/set/set.go:44-49 | against a server whose Add and Remove answers follow set membership, Add reports whether the value was new and Remove whether it was present, and neither returns an error |
| SetPrimitive.Contains | pkg/atomix/set/set.go:161-165 | no error iff success; on success the server's answer; on failure false with the error |
| SetPrimitive.Len | pkg/atomix/set/set.go:170-174 | no error iff success; on success the size converted to an int, taking Go's int as 64 bits so that the unsigned 32-bit size converts exactly and is non-negative; on failure 0 with the error |
| SetPrimitive.Clear | pkg/atomix/set/set.go:179-183 | nil iff the RPC succeeded; otherwise the RPC's error |
| Primitive.Close | pkg/atomix/set/set.go:285-294 | Close of both facades (value.go:184-193 has the same body): the CloseSession request carries the handle's own session ID; nil iff success; otherwise the RPC's error |
| SetPrimitive.ElementsPump | pkg/atomix/set/set.go:193-211 | the loop's effect log is `Log` of the trace with no gate and no hooks, each element value forwarded |
| SetPrimitive.Elements | pkg/atomix/set/set.go:186-213 | a failed Elements RPC is returned and nothing is pumped; otherwise nil is returned and the pump log follows the trace |
| SetPrimitive.ToEvent | pkg/atomix/set/set.go:257-273 | ADD, REMOVE and REPLAY map to the event type of the same name carrying the element's value; any other tag maps to no event |
| SetPrimitive.RunAfterWatch | pkg/atomix/set/set.go:253-255 | the hooks run once each in option order, and the response reaches the mapping unchanged |
| SetPrimitive.WatchPump | pkg/atomix/set/set.go:226-275 | the loop's effect log is `Log` of the trace with the gate closed, one hook per option and the event mapping |
| SetPrimitive.Watch | pkg/atomix/set/set.go:215-283 | the request asks for replay iff some option is WithReplay, set before the RPC; a failed Events RPC is returned at once with no pump effects; otherwise the pump log follows the trace and the call returns as the gate/context race decides |
| SetPrimitive.ReplayTraceEvents | pkg/atomix/set/set.go:227-275 | a pump with one hook over the stream replaying "a" and "b", then adding "c", then EOF, sends Replay("a"), Replay("b"), Add("c") in that order and closes `ch` last |
| SetPrimitive.ReplayScenario | pkg/atomix/set/set.go:215-283 | with WithReplay over a stream replaying "a" and "b", then adding "c", then EOF: the request asks for replay, Watch returns nil, the three events arrive in that order, and closing `ch` is last |
| SetOptions.EventsRequest.constructor | pkg/atomix/set/set.go:216 | a fresh request does not ask for replay |
| SetOptions.WithReplay | pkg/atomix/set/options.go:56-58 | the option returned is the replay option |
| SetOptions.BeforeWatch | pkg/atomix/set/options.go:62-64 | the replay flag is true afterwards |
| SetOptions.RunBeforeWatch | pkg/atomix/set/set.go:217-219 | after the hook loop the request asks for replay iff it did before or some option is WithReplay |
| SetOptions.RequestsReplayDoubled | pkg/atomix/set/options.go:62-64 | an option list asks for replay iff its doubled copy does |
| SetOptions.ReplayIdempotent | pkg/atomix/set/options.go:62-64 | running the before-hooks twice on one fresh request, or the doubled list once on another, leaves the same replay flag as running them once, namely whether some option is WithReplay |
| SetOptions.AfterWatch | pkg/atomix/set/options.go:66-68 | the response is left as it was |
| SetOptions.WithCodec | pkg/atomix/set/options.go:34-38 | the option carries the supplied codec |
| SetOptions.NewSetOptions.constructor | pkg/atomix/set/set.go:94 | fresh creation options have no codec |
| SetOptions.ApplyNewSet | pkg/atomix/set/options.go:45-47 | the options' codec becomes the option's codec |
| SetOptions.LastCodecWins | pkg/atomix/set/options.go:34-47 | folding codec options in order leaves the last one supplied, or the starting codec for none |
| SetOptions.NewSetOptionsFrom | pkg/atomix/set/set.go:94-99 | the creation loop yields the fold of the options, hence the last codec supplied, or none |
| Pump.Log | pkg/atomix/set/set.go:227-275 | the specification of all three pump goroutines (set.go:193-211, set.go:227-275, value.go:139-174): an empty trace has no effect, and a stream that ends at once releases the gate if the pump has a closed one and then closes `ch`; every other guarantee is a lemma about it below |
| Pump.Exit | pkg/atomix/set/set.go:228-247 | the loop's return on EOF or an error is exactly `Stop`: the log line for an unexpected failure, then the deferred gate release, then the close of `ch` |
| Pump.HooksInOptionOrder | pkg/atomix/set/set.go:253-255 | the hook runs for one message are one per option, in option order |
| Pump.AwaitGate | pkg/atomix/set/set.go:277-282 | the call stays blocked iff the gate is not released and the context is live; it returns nil iff the gate is released first; a context that ends first yields the context's error |
| Pump.SentAreMappedMessages | pkg/atomix/set/set.go:257-273 | the events sent are exactly the received messages that map to an event, mapped, in receipt order |
| Pump.UnmappedMessageSkipped | pkg/atomix/set/set.go:257-274 | inserting a message with no event changes neither the events sent nor how the loop ends |
| Pump.GateReleasedOnce | pkg/atomix/set/set.go:229-252 | a gated pump that starts closed closes `openCh` exactly once when Recv has returned anything, there being no release on an empty trace; a pump already open, or with no gate, never closes it |
| Pump.GateOpensFirst | pkg/atomix/set/set.go:249-255 | when any hook or send happens, releasing the gate is the first effect of the log |
| Pump.HooksRunOncePerMessage | pkg/atomix/set/set.go:253-255 | each after-hook runs exactly once per received message |
| Pump.StopsAtFirstTerminal | pkg/atomix/set/set.go:236-247 | whatever follows the first EOF or error in the trace has no effect |
| Pump.ClosedOnceAtExit | pkg/atomix/set/set.go:228 | `ch` is closed exactly once if the loop exited and never while it is still receiving, and closing it is the last effect |
| Pump.NothingAfterClose | pkg/atomix/set/set.go:228 | no effect follows the close of `ch` |
| Pump.LoggedOnlyUnexpectedFailure | pkg/atomix/set/set.go:237-246 | an error kind is logged exactly once if it ended the loop and is not Canceled or Timeout, and never otherwise; EOF is never logged |
| ValuePrimitive.SetRequest.constructor | pkg/atomix/value/value.go:104-108 | the request carries the value and no preconditions |
| ValuePrimitive.BeforeSet | pkg/atomix/value/options_test.go:16-17 | IfMatch appends a precondition with the metadata's revision and leaves the value alone |
| ValuePrimitive.PreconditionsOf | pkg/atomix/value/value.go:109-111 | one precondition per option, in option order, each with that option's revision |
| ValuePrimitive.AfterSet | pkg/atomix/value/value.go:116-118 | the response is left as it was |
| ValuePrimitive.Set | pkg/atomix/value/value.go:103-120 | the request sent holds the value and the before-hooks' preconditions in option order; after-hooks run in option order only on success; failure gives the zero metadata and the RPC's error; success gives the response's metadata and no error |
| ValuePrimitive.IfMatchPutsRevision | pkg/atomix/value/options_test.go:14-18 | IfMatch with revision 1 on an empty request puts revision 1 in the first precondition |
| ValuePrimitive.Get | pkg/atomix/value/value.go:122-129 | no error iff success; on success the stored value and its metadata; on failure an empty value, the zero metadata and the error |
| ValuePrimitive.ToEvent | pkg/atomix/value/value.go:165-172 | only UPDATE maps to an event, an EventUpdate carrying the message's metadata and value |
| ValuePrimitive.WatchPump | pkg/atomix/value/value.go:138-174 | the loop's effect log is `Log` of the trace with the gate closed, no hooks and the UPDATE mapping |
| ValuePrimitive.Watch | pkg/atomix/value/value.go:131-182 | a failed Events RPC is returned at once with no pump effects; otherwise the pump log follows the trace and the call returns as the gate/context race decides |
| Atomix.NewPrimitiveID | pkg/atomix/atomix.go:111-116 | the ID's type is the type's string and its name is the name, unchanged |
| Atomix.GetPrimitiveOpts | pkg/atomix/atomix.go:118-120 | length is one more than the caller's list; first the session-ID option with the client ID; then the caller's options unchanged, in order |
| Atomix.TypeOf | pkg/atomix/set/set.go:30 | the set kind's type is "Set" and the value kind's "Value" (value.go:31); every type name is non-empty |
| Atomix.TypeOfInjective | pkg/atomix/set/set.go:30 | no two primitive kinds share a type name |
| Atomix.GetVia | pkg/atomix/atomix.go:33-38 | a connect error is returned under the ID it was made for; otherwise New gets the name and the session-ID option followed by the caller's options |
| Atomix.ConnectIDAsWritten | pkg/atomix/atomix.go:34 | every kind connects under the counter type with the requested name |
| Atomix.GetAsWritten | pkg/atomix/atomix.go:31-109 | every Get* connects under the counter type and the name; a connect error is returned |
| Atomix.AsWrittenSetConnectsAsCounter | pkg/atomix/atomix.go:94 | a set and a counter of the same name get the same ID, which does not carry the set's type |
| Atomix.ConnectID | pkg/atomix/atomix.go:94 | each kind connects under its own type with the requested name |
| Atomix.ConnectIDDistinguishesKinds | pkg/atomix/atomix.go:111-116 | with each kind's own type, two IDs agree iff kind and name agree |
| Atomix.Get | pkg/atomix/atomix.go:31-109 | each Get* connects under its own kind's type and the name; a connect error is returned |
| Atomix.GetAgreesExceptForID | pkg/atomix/atomix.go:31-109 | the corrected and as-written gets agree on everything but the ID, and on the ID only for counters |

## Left out

- Network I/O is not modelled: the gRPC connection, the unary RPCs, `Events`/`Elements` stream setup, `OpenSession`/`CloseSession`, `getClient` and `client.connect`. Each is an outcome parameter.
- `errors.From` and the `errors.Is*` predicates: a closed enum of translated kinds stands in for them.
- `meta.FromProto`: the model takes it to carry the metadata across unchanged. The codec types and the generated `api` messages are reduced to the fields the core reads.
- The goroutines are modelled as sequential loops. The `select` race is an input to `AwaitGate`. Channel blocking and backpressure are not modelled. A full consumer channel would hold a pump inside a send; the log shows no such state.
- `log.Errorf` becomes one `LogError` effect; the message text is not modelled.
- `New` of the value primitive is not modelled at all: its `applyNewValue` option loop (value.go:75-80), `OpenSession` and `primitive.NewClient`. `New` of the set primitive is modelled only as its codec loop (`NewSetOptionsFrom`); its `OpenSession` and `primitive.NewClient` are not modelled.
- SetOptions.NewSetOptionsFrom: does not model the `opt.(Option)` type assertion at set.go:96. Every option in the model is already a set option, because Go's generic interfaces have no Dafny counterpart.
- SetPrimitive.Len: assumes Go's `int` is 64 bits wide and that `response.Size_` is an unsigned 32-bit count. The source does not show the type of `Size_`. On a platform with a 32-bit `int`, a size of 2^31 or more would convert to a negative number; the model does not capture that.
- ValuePrimitive.Get: a nil byte slice (value.go:126) and a non-nil empty slice are both the empty sequence. The model does not tell a failed Get's nil value from an empty stored value.
- The event types are modelled as enums. Their string constants ("add", "remove", "replay", "update") appear only in comments.
- SetOptions.BeforeWatch: `api.EventsRequest` is reduced to its `Replay` field. "Changes no other field" holds because there is no other field.
- ValuePrimitive.BeforeSet: `IfMatch` and the value package's `SetOption` are not part of this model. The test is the only evidence, so IfMatch is taken to append one metadata precondition, and its `afterSet` is taken to change nothing.
- Atomix.TypeOf: only `set.Type` ("Set") and `value.Type` ("Value") appear in the source. The other packages' `Type` constants are taken to be the kind's name; they are distinct, like every real primitive's.
- Hook side effects on the shared request and response pointers beyond the fields above are not modelled.
- The source files import different versions of the `api` packages: `set/v1` in set.go, and unversioned `set` in options.go. The model uses one shape of each message.

## Findings

| source | as written | input that shows it | evidently intended | confidence | as-written member | corrected member |
|---|---|---|---|---|---|---|
| pkg/atomix/atomix.go:94 | every `Get*` (lines 34, 44, 54, 64, 74, 84, 94, 104) passes `newPrimitiveID(counter.Type, name)` to `connect` | `GetSet(ctx, "s")` and `GetCounter(ctx, "s")` connect under the same ID, typed as a counter | each `Get*` passes its own package's `Type` | not executed | Atomix.AsWrittenSetConnectsAsCounter | Atomix.ConnectIDDistinguishesKinds |
