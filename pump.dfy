/** The stream pump shared by Set.Watch, Set.Elements and Value.Watch.

    The goroutine that drains a server stream is modelled as a sequential loop
    over a finite trace of `stream.Recv()` outcomes. What the goroutine does
    that someone else can observe is recorded, in order, as an effect log:
    closing the open gate, running an `afterWatch` hook, sending on the
    delivery channel, logging an error and closing the delivery channel.
    A trace that ends without EOF or an error means the goroutine is still
    blocked in `Recv()`: none of its deferred calls has run yet.

    `Log` below is the specification of every pump loop; the lemmas state the
    protocol's guarantees about it. */
module Pump {
  import opened Errors

  /** What one call of `stream.Recv()` returns. */
  datatype Recv<M> = Received(msg: M) | EndOfStream | RecvFailed(kind: ErrorKind)

  /** One observable step of a pump goroutine. */
  datatype Effect<E> =
    | ReleaseGate            // close(openCh)
    | AfterHook(index: nat)  // opts[index].afterWatch(response)
    | Send(event: E)         // ch <- event
    | LogError(kind: ErrorKind)
    | CloseChannel           // close(ch)

  /** How a trace leaves the goroutine. */
  datatype Ending = StillReceiving | CleanEnd | StreamFailed(kind: ErrorKind)

  /** Selects one kind of effect, for counting. */
  datatype Tag = GateTag | HookTag(index: nat) | LogTag(kind: ErrorKind) | CloseTag

  predicate Matches<E>(e: Effect<E>, t: Tag)
  {
    match t
    case GateTag => e.ReleaseGate?
    case HookTag(i) => e.AfterHook? && e.index == i
    case LogTag(k) => e.LogError? && e.kind == k
    case CloseTag => e.CloseChannel?
  }

  /** The hook loop `for i := range opts { opts[i].afterWatch(response) }`. */
  function Hooks<E>(n: nat): (h: seq<Effect<E>>)
  {
    if n == 0 then [] else Hooks(n - 1) + [AfterHook(n - 1)]
  }

  /** The hooks run in option order, each exactly once. */
  lemma {:induction false} HooksInOptionOrder<E>(n: nat)
    ensures |Hooks<E>(n)| == n
    ensures forall i :: 0 <= i < n ==> Hooks<E>(n)[i] == AfterHook(i)
  {
    if n > 0 {
      HooksInOptionOrder<E>(n - 1);
    }
  }

  /** `if !open { close(openCh) }`, for a pump that has an open gate at all. */
  function Release<E>(gated: bool, open: bool): seq<Effect<E>>
  {
    if gated && !open then [ReleaseGate] else []
  }

  /** The send of the domain event a message maps to, if it maps to one. */
  function Deliver<E>(event: Option<E>): seq<Effect<E>>
  {
    match event
    case Some(e) => [Send(e)]
    case None => []
  }

  /** The loop's `return` on a Recv error: the log line for a failure that is
      not EOF, Canceled or Timeout, then the deferred calls in reverse order of
      registration (the gate, then the delivery channel). */
  function Stop<M, E>(r: Recv<M>, gated: bool, open: bool): seq<Effect<E>>
    requires !r.Received?
  {
    (if r.RecvFailed? && !IsTeardown(r.kind) then [LogError(r.kind)] else [])
    + Release(gated, open) + [CloseChannel]
  }

  /** The effect log of a pump that starts with the gate flag `open` and runs
      over `trace`; `hooks` after-hooks run on every message and `deliver`
      maps a message to the event sent for it. */
  function Log<M, E>(trace: seq<Recv<M>>, gated: bool, open: bool, hooks: nat, deliver: M -> Option<E>): (l: seq<Effect<E>>)
    ensures trace == [] ==> l == []
    ensures |trace| > 0 && trace[0].EndOfStream? ==> l == Release(gated, open) + [CloseChannel]
    decreases |trace|
  {
    if trace == [] then []
    else match trace[0]
      case Received(m) =>
        Release(gated, open) + Hooks(hooks) + Deliver(deliver(m))
        + Log(trace[1..], gated, true, hooks, deliver)
      case _ => Stop(trace[0], gated, open)
  }

  // ----- Reference views of traces and logs -----

  /** The messages the pump takes from the stream: those before the first
      EOF or error. */
  function ReceivedMessages<M>(trace: seq<Recv<M>>): seq<M>
  {
    if trace == [] || !trace[0].Received? then []
    else [trace[0].msg] + ReceivedMessages(trace[1..])
  }

  /** The first EOF or error of the trace, if there is one. */
  function EndingOf<M>(trace: seq<Recv<M>>): Ending
  {
    if trace == [] then StillReceiving
    else match trace[0]
      case Received(_) => EndingOf(trace[1..])
      case EndOfStream => CleanEnd
      case RecvFailed(k) => StreamFailed(k)
  }

  /** Each message mapped by `f`, those mapped to `None` dropped, order kept. */
  function FilterMap<M, E>(msgs: seq<M>, f: M -> Option<E>): seq<E>
  {
    if msgs == [] then []
    else (match f(msgs[0]) case Some(e) => [e] case None => []) + FilterMap(msgs[1..], f)
  }

  /** The events sent on the delivery channel, in order. */
  function Sent<E>(log: seq<Effect<E>>): seq<E>
  {
    if log == [] then []
    else (if log[0].Send? then [log[0].event] else []) + Sent(log[1..])
  }

  /** How many effects of the log carry tag `t`. */
  function Count<E>(log: seq<Effect<E>>, t: Tag): nat
  {
    if log == [] then 0
    else (if Matches(log[0], t) then 1 else 0) + Count(log[1..], t)
  }

  /** The caller's `select` between `<-openCh` and `<-ctx.Done()`.
      `released` says whether the pump closed the gate; `ctxDoneFirst` is the
      context error when the context ended before the gate was closed. */
  datatype CallReturn = Returned(err: Option<CallError>) | Waiting

  function AwaitGate(released: bool, ctxDoneFirst: Option<ContextCause>): (r: CallReturn)
    ensures r == Waiting <==> !released && ctxDoneFirst.None?
    ensures r == Returned(None) <==> released && ctxDoneFirst.None?
    ensures ctxDoneFirst.Some? ==> r == Returned(Some(ContextError(ctxDoneFirst.value)))
  {
    match ctxDoneFirst
    case Some(cause) => Returned(Some(ContextError(cause)))
    case None => if released then Returned(None) else Waiting
  }

  // ----- Small facts about the views -----

  lemma Associative<E>(a: seq<Effect<E>>, b: seq<Effect<E>>, c: seq<Effect<E>>)
    ensures (a + b) + c == a + (b + c)
  {
  }

  lemma {:induction false} SentConcat<E>(a: seq<Effect<E>>, b: seq<Effect<E>>)
    ensures Sent(a + b) == Sent(a) + Sent(b)
  {
    if a == [] {
      assert a + b == b;
    } else {
      assert (a + b)[0] == a[0] && (a + b)[1..] == a[1..] + b;
      SentConcat(a[1..], b);
      assert Sent(a + b) == (if a[0].Send? then [a[0].event] else []) + (Sent(a[1..]) + Sent(b));
    }
  }

  lemma {:induction false} CountConcat<E>(a: seq<Effect<E>>, b: seq<Effect<E>>, t: Tag)
    ensures Count(a + b, t) == Count(a, t) + Count(b, t)
  {
    if a == [] {
      assert a + b == b;
    } else {
      assert (a + b)[1..] == a[1..] + b;
      CountConcat(a[1..], b, t);
    }
  }

  lemma {:induction false} CountZero<E>(log: seq<Effect<E>>, t: Tag)
    ensures Count(log, t) == 0 <==> forall j :: 0 <= j < |log| ==> !Matches(log[j], t)
  {
    if log != [] {
      CountZero(log[1..], t);
      assert forall j :: 1 <= j < |log| ==> log[j] == log[1..][j - 1];
    }
  }

  lemma {:induction false} HooksSendNothing<E>(n: nat)
    ensures Sent(Hooks<E>(n)) == []
  {
    if n > 0 {
      SentConcat(Hooks<E>(n - 1), [AfterHook(n - 1)]);
      HooksSendNothing<E>(n - 1);
    }
  }

  lemma {:induction false} HooksCount<E>(n: nat, t: Tag)
    ensures Count(Hooks<E>(n), t) == if t.HookTag? && t.index < n then 1 else 0
  {
    if n > 0 {
      CountConcat(Hooks<E>(n - 1), [AfterHook(n - 1)], t);
      HooksCount<E>(n - 1, t);
    }
  }

  /** The effects one message contributes, and what they contain. */
  lemma StepFacts<E>(gated: bool, open: bool, hooks: nat, event: Option<E>, t: Tag)
    ensures Sent(Release<E>(gated, open) + Hooks(hooks) + Deliver(event))
         == (match event case Some(e) => [e] case None => [])
    ensures Count(Release<E>(gated, open) + Hooks(hooks) + Deliver(event), t)
         == (if t == GateTag && gated && !open then 1 else 0)
          + (if t.HookTag? && t.index < hooks then 1 else 0)
  {
    var r, h, d := Release<E>(gated, open), Hooks<E>(hooks), Deliver(event);
    SentConcat(r + h, d);
    SentConcat(r, h);
    HooksSendNothing<E>(hooks);
    CountConcat(r + h, d, t);
    CountConcat(r, h, t);
    HooksCount<E>(hooks, t);
  }

  lemma StopFacts<M, E>(r: Recv<M>, gated: bool, open: bool, t: Tag)
    requires !r.Received?
    ensures Sent(Stop<M, E>(r, gated, open)) == []
    ensures Count(Stop<M, E>(r, gated, open), t)
         == (if t == CloseTag then 1 else 0)
          + (if t == GateTag && gated && !open then 1 else 0)
          + (if t.LogTag? && r.RecvFailed? && t.kind == r.kind && !IsTeardown(r.kind) then 1 else 0)
    ensures Stop<M, E>(r, gated, open)[|Stop<M, E>(r, gated, open)| - 1] == CloseChannel
  {
    var l: seq<Effect<E>> := if r.RecvFailed? && !IsTeardown(r.kind) then [LogError(r.kind)] else [];
    var g := Release<E>(gated, open);
    SentConcat(l + g, [CloseChannel]);
    SentConcat(l, g);
    CountConcat(l + g, [CloseChannel], t);
    CountConcat(l, g, t);
  }

  /** Extending a trace of messages by one more message adds that message's
      effects at the end of the log. */
  lemma {:induction false} LogAppendMessage<M, E>(pre: seq<Recv<M>>, m: M, gated: bool, open: bool, hooks: nat, deliver: M -> Option<E>)
    requires forall i :: 0 <= i < |pre| ==> pre[i].Received?
    ensures Log(pre + [Received(m)], gated, open, hooks, deliver)
         == Log(pre, gated, open, hooks, deliver) + (Release(gated, open || |pre| > 0) + Hooks(hooks) + Deliver(deliver(m)))
    decreases |pre|
  {
    var step := Release<E>(gated, open || |pre| > 0) + Hooks(hooks) + Deliver(deliver(m));
    if pre == [] {
      assert pre + [Received(m)] == [Received(m)];
      assert [Received(m)][1..] == [];
    } else {
      assert (pre + [Received(m)])[0] == pre[0];
      assert (pre + [Received(m)])[1..] == pre[1..] + [Received(m)];
      LogAppendMessage(pre[1..], m, gated, true, hooks, deliver);
      var first := Release<E>(gated, open) + Hooks(hooks) + Deliver(deliver(pre[0].msg));
      Associative(first, Log(pre[1..], gated, true, hooks, deliver), step);
    }
  }

  /** Extending a trace of messages by an EOF or an error adds the loop's
      exit at the end of the log. */
  lemma {:induction false} LogAppendStop<M, E>(pre: seq<Recv<M>>, r: Recv<M>, gated: bool, open: bool, hooks: nat, deliver: M -> Option<E>)
    requires forall i :: 0 <= i < |pre| ==> pre[i].Received?
    requires !r.Received?
    ensures Log(pre + [r], gated, open, hooks, deliver)
         == Log(pre, gated, open, hooks, deliver) + Stop(r, gated, open || |pre| > 0)
    decreases |pre|
  {
    if pre == [] {
      assert pre + [r] == [r];
    } else {
      assert (pre + [r])[0] == pre[0];
      assert (pre + [r])[1..] == pre[1..] + [r];
      LogAppendStop(pre[1..], r, gated, true, hooks, deliver);
      var first := Release<E>(gated, open) + Hooks(hooks) + Deliver(deliver(pre[0].msg));
      Associative(first, Log(pre[1..], gated, true, hooks, deliver), Stop<M, E>(r, gated, true));
    }
  }

  /** The log of a trace whose first EOF or error is at `i`: the log of the
      messages before it, then the loop's exit. */
  lemma ExitAt<M, E>(trace: seq<Recv<M>>, i: nat, gated: bool, open: bool, hooks: nat, deliver: M -> Option<E>)
    requires i < |trace| && !trace[i].Received?
    requires forall j :: 0 <= j < i ==> trace[j].Received?
    ensures Log(trace, gated, open, hooks, deliver)
         == Log(trace[..i], gated, open, hooks, deliver) + Stop(trace[i], gated, open || i > 0)
  {
    assert trace[..i + 1] == trace[..i] + [trace[i]];
    LogAppendStop(trace[..i], trace[i], gated, open, hooks, deliver);
    assert trace == trace[..i] + [trace[i]] + trace[i + 1..];
    StopsAtFirstTerminal(trace[..i], trace[i], trace[i + 1..], gated, open, hooks, deliver);
  }

  /** The log of the trace up to a message at `i`: the log before it, then
      that message's effects. */
  lemma MessageAt<M, E>(trace: seq<Recv<M>>, i: nat, gated: bool, open: bool, hooks: nat, deliver: M -> Option<E>)
    requires i < |trace| && trace[i].Received?
    requires forall j :: 0 <= j < i ==> trace[j].Received?
    ensures Log(trace[..i + 1], gated, open, hooks, deliver)
         == Log(trace[..i], gated, open, hooks, deliver)
            + (Release(gated, open || i > 0) + Hooks(hooks) + Deliver(deliver(trace[i].msg)))
  {
    assert trace[..i + 1] == trace[..i] + [Received(trace[i].msg)];
    LogAppendMessage(trace[..i], trace[i].msg, gated, open, hooks, deliver);
  }

  /** The loop's `return` on EOF or an error: the log line for an unexpected
      failure, then the deferred calls, the gate (when the pump has one and
      it is still closed) before the delivery channel. */
  method Exit<M, E>(r: Recv<M>, gated: bool, open: bool) returns (effects: seq<Effect<E>>)
    requires !r.Received?
    ensures effects == Stop(r, gated, open)
  {
    effects := [];
    if r.RecvFailed? && !IsTeardown(r.kind) {
      effects := [LogError(r.kind)];
    }
    if gated && !open {
      effects := effects + [ReleaseGate];
    }
    effects := effects + [CloseChannel];
  }

  // ----- The pump's guarantees -----

  /** Order preservation and unknown-tag tolerance: the events sent are the
      received messages that map to an event, mapped, in receipt order. */
  lemma {:induction false} SentAreMappedMessages<M, E>(trace: seq<Recv<M>>, gated: bool, open: bool, hooks: nat, deliver: M -> Option<E>)
    ensures Sent(Log(trace, gated, open, hooks, deliver)) == FilterMap(ReceivedMessages(trace), deliver)
    decreases |trace|
  {
    if trace != [] {
      if trace[0].Received? {
        var step := Release<E>(gated, open) + Hooks(hooks) + Deliver(deliver(trace[0].msg));
        var rest := Log(trace[1..], gated, true, hooks, deliver);
        SentConcat(step, rest);
        StepFacts(gated, open, hooks, deliver(trace[0].msg), GateTag);
        SentAreMappedMessages(trace[1..], gated, true, hooks, deliver);
        assert [trace[0].msg] + ReceivedMessages(trace[1..]) == ReceivedMessages(trace);
        assert ([trace[0].msg] + ReceivedMessages(trace[1..]))[1..] == ReceivedMessages(trace[1..]);
      } else {
        StopFacts<M, E>(trace[0], gated, open, GateTag);
      }
    }
  }

  /** The open gate is closed exactly once as soon as `Recv()` has returned
      anything (a message, EOF or an error), and never before; a pump that
      has already opened it, or has none, never closes it. */
  lemma {:induction false} GateReleasedOnce<M, E>(trace: seq<Recv<M>>, gated: bool, open: bool, hooks: nat, deliver: M -> Option<E>)
    ensures Count(Log(trace, gated, open, hooks, deliver), GateTag)
         == if gated && !open && |trace| > 0 then 1 else 0
    decreases |trace|
  {
    if trace != [] {
      if trace[0].Received? {
        var step := Release<E>(gated, open) + Hooks(hooks) + Deliver(deliver(trace[0].msg));
        CountConcat(step, Log(trace[1..], gated, true, hooks, deliver), GateTag);
        StepFacts(gated, open, hooks, deliver(trace[0].msg), GateTag);
        GateReleasedOnce(trace[1..], gated, true, hooks, deliver);
      } else {
        StopFacts<M, E>(trace[0], gated, open, GateTag);
      }
    }
  }

  /** The delivery channel is closed exactly once when the loop exits (EOF or
      an error), never while it is still receiving, and closing it is the
      last thing the pump does. */
  lemma {:induction false} ClosedOnceAtExit<M, E>(trace: seq<Recv<M>>, gated: bool, open: bool, hooks: nat, deliver: M -> Option<E>)
    ensures Count(Log(trace, gated, open, hooks, deliver), CloseTag)
         == if EndingOf(trace) == StillReceiving then 0 else 1
    ensures EndingOf(trace) != StillReceiving ==>
      var log := Log(trace, gated, open, hooks, deliver);
      |log| > 0 && log[|log| - 1] == CloseChannel
    decreases |trace|
  {
    if trace != [] {
      if trace[0].Received? {
        var step := Release<E>(gated, open) + Hooks(hooks) + Deliver(deliver(trace[0].msg));
        var rest := Log(trace[1..], gated, true, hooks, deliver);
        CountConcat(step, rest, CloseTag);
        StepFacts(gated, open, hooks, deliver(trace[0].msg), CloseTag);
        ClosedOnceAtExit(trace[1..], gated, true, hooks, deliver);
        assert Log(trace, gated, open, hooks, deliver) == step + rest;
      } else {
        StopFacts<M, E>(trace[0], gated, open, CloseTag);
      }
    }
  }

  /** Channel closure is terminal: no effect follows `close(ch)`. */
  lemma NothingAfterClose<M, E>(trace: seq<Recv<M>>, gated: bool, open: bool, hooks: nat, deliver: M -> Option<E>)
    ensures var log := Log(trace, gated, open, hooks, deliver);
      forall j :: 0 <= j < |log| && log[j].CloseChannel? ==> j == |log| - 1
  {
    var log := Log(trace, gated, open, hooks, deliver);
    ClosedOnceAtExit(trace, gated, open, hooks, deliver);
    if EndingOf(trace) == StillReceiving {
      CountZero(log, CloseTag);
    } else {
      var n := |log|;
      assert log == log[..n - 1] + [log[n - 1]];
      CountConcat(log[..n - 1], [log[n - 1]], CloseTag);
      CountZero(log[..n - 1], CloseTag);
      assert forall j :: 0 <= j < n - 1 ==> log[j] == log[..n - 1][j];
    }
  }

  /** Only a stream failure other than EOF, Canceled and Timeout is logged,
      once, and only when it is the error that ended the loop. */
  lemma {:induction false} LoggedOnlyUnexpectedFailure<M, E>(trace: seq<Recv<M>>, gated: bool, open: bool, hooks: nat, deliver: M -> Option<E>, k: ErrorKind)
    ensures Count(Log(trace, gated, open, hooks, deliver), LogTag(k))
         == if EndingOf(trace) == StreamFailed(k) && !IsTeardown(k) then 1 else 0
    decreases |trace|
  {
    if trace != [] {
      if trace[0].Received? {
        var step := Release<E>(gated, open) + Hooks(hooks) + Deliver(deliver(trace[0].msg));
        CountConcat(step, Log(trace[1..], gated, true, hooks, deliver), LogTag(k));
        StepFacts(gated, open, hooks, deliver(trace[0].msg), LogTag(k));
        LoggedOnlyUnexpectedFailure(trace[1..], gated, true, hooks, deliver, k);
      } else {
        StopFacts<M, E>(trace[0], gated, open, LogTag(k));
      }
    }
  }

  /** Every after-hook runs once per received message. */
  lemma {:induction false} HooksRunOncePerMessage<M, E>(trace: seq<Recv<M>>, gated: bool, open: bool, hooks: nat, deliver: M -> Option<E>, i: nat)
    requires i < hooks
    ensures Count(Log(trace, gated, open, hooks, deliver), HookTag(i)) == |ReceivedMessages(trace)|
    decreases |trace|
  {
    if trace != [] {
      if trace[0].Received? {
        var step := Release<E>(gated, open) + Hooks(hooks) + Deliver(deliver(trace[0].msg));
        CountConcat(step, Log(trace[1..], gated, true, hooks, deliver), HookTag(i));
        StepFacts(gated, open, hooks, deliver(trace[0].msg), HookTag(i));
        HooksRunOncePerMessage(trace[1..], gated, true, hooks, deliver, i);
      } else {
        StopFacts<M, E>(trace[0], gated, open, HookTag(i));
      }
    }
  }

  /** The gate is released before anything else happens to a message: when
      the first message arrives, closing `openCh` is the first effect, ahead
      of every hook and every send. */
  lemma GateOpensFirst<M, E>(trace: seq<Recv<M>>, hooks: nat, deliver: M -> Option<E>)
    ensures var log := Log(trace, true, false, hooks, deliver);
      forall j :: 0 <= j < |log| && (log[j].AfterHook? || log[j].Send?) ==> log[0] == ReleaseGate
  {
    var log := Log(trace, true, false, hooks, deliver);
    if trace != [] && !trace[0].Received? {
      var l: seq<Effect<E>> := if trace[0].RecvFailed? && !IsTeardown(trace[0].kind) then [LogError(trace[0].kind)] else [];
      assert log == l + [ReleaseGate] + [CloseChannel];
    }
  }

  /** The loop stops at the first EOF or error: nothing after it in the trace
      is received or has any effect. */
  lemma {:induction false} StopsAtFirstTerminal<M, E>(pre: seq<Recv<M>>, r: Recv<M>, post: seq<Recv<M>>, gated: bool, open: bool, hooks: nat, deliver: M -> Option<E>)
    requires forall i :: 0 <= i < |pre| ==> pre[i].Received?
    requires !r.Received?
    ensures Log(pre + [r] + post, gated, open, hooks, deliver) == Log(pre + [r], gated, open, hooks, deliver)
    decreases |pre|
  {
    if pre == [] {
      assert (pre + [r] + post)[0] == r;
      assert (pre + [r])[0] == r;
    } else {
      assert (pre + [r] + post)[0] == pre[0] && (pre + [r])[0] == pre[0];
      assert (pre + [r] + post)[1..] == pre[1..] + [r] + post;
      assert (pre + [r])[1..] == pre[1..] + [r];
      StopsAtFirstTerminal(pre[1..], r, post, gated, true, hooks, deliver);
    }
  }

  lemma {:induction false} MessagesThenRest<M>(pre: seq<Recv<M>>, rest: seq<Recv<M>>)
    requires forall i :: 0 <= i < |pre| ==> pre[i].Received?
    ensures |ReceivedMessages(pre)| == |pre|
    ensures ReceivedMessages(pre + rest) == ReceivedMessages(pre) + ReceivedMessages(rest)
    ensures EndingOf(pre + rest) == EndingOf(rest)
    decreases |pre|
  {
    if pre == [] {
      assert pre + rest == rest;
    } else {
      assert (pre + rest)[1..] == pre[1..] + rest;
      MessagesThenRest(pre[1..], rest);
    }
  }

  lemma {:induction false} FilterMapConcat<M, E>(a: seq<M>, b: seq<M>, f: M -> Option<E>)
    ensures FilterMap(a + b, f) == FilterMap(a, f) + FilterMap(b, f)
  {
    if a == [] {
      assert a + b == b;
    } else {
      assert (a + b)[1..] == a[1..] + b;
      FilterMapConcat(a[1..], b, f);
    }
  }

  /** A message that maps to no event is skipped: it changes neither what is
      sent nor how the loop ends, and the loop goes on after it. */
  lemma UnmappedMessageSkipped<M, E>(pre: seq<Recv<M>>, m: M, post: seq<Recv<M>>, gated: bool, open: bool, hooks: nat, deliver: M -> Option<E>)
    requires forall i :: 0 <= i < |pre| ==> pre[i].Received?
    requires deliver(m).None?
    ensures Sent(Log(pre + [Received(m)] + post, gated, open, hooks, deliver))
         == Sent(Log(pre + post, gated, open, hooks, deliver))
    ensures EndingOf(pre + [Received(m)] + post) == EndingOf(pre + post)
  {
    var withM := pre + [Received(m)] + post;
    assert withM == pre + ([Received(m)] + post);
    SentAreMappedMessages(withM, gated, open, hooks, deliver);
    SentAreMappedMessages(pre + post, gated, open, hooks, deliver);
    MessagesThenRest(pre, [Received(m)] + post);
    MessagesThenRest(pre, post);
    assert ([Received(m)] + post)[1..] == post;
    assert ReceivedMessages([Received(m)] + post) == [m] + ReceivedMessages(post);
    FilterMapConcat(ReceivedMessages(pre), [m] + ReceivedMessages(post), deliver);
    FilterMapConcat(ReceivedMessages(pre), ReceivedMessages(post), deliver);
    assert ([m] + ReceivedMessages(post))[1..] == ReceivedMessages(post);
  }
}
