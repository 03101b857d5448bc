/** Options of the set primitive: the codec option applied when a set is
    created and the replay option applied around a Watch call. */
module SetOptions {
  import opened Errors

  // ----- Watch options -----

  /** A `WatchOption`. `replayOption` is the only one the package defines. */
  datatype WatchOption = ReplayOption

  /** `WithReplay()`: the replay option. */
  function WithReplay(): (o: WatchOption)
    ensures o == ReplayOption
  {
    ReplayOption
  }

  /** `api.EventsRequest`, which the before-hooks update in place. */
  class EventsRequest {
    var replay: bool

    /** `&api.EventsRequest{}`: every field at its zero value. */
    constructor ()
      ensures !replay
    {
      replay := false;
    }
  }

  /** `o.beforeWatch(request)`. */
  method BeforeWatch(o: WatchOption, request: EventsRequest)
    modifies request
    ensures request.replay
  {
    match o
    case ReplayOption => request.replay := true;
  }

  /** Whether a list of watch options asks for replay. */
  predicate RequestsReplay(opts: seq<WatchOption>)
  {
    exists i :: 0 <= i < |opts| && opts[i] == WithReplay()
  }

  /** The request flag after the before-hooks of `opts` ran on a request whose
      flag was `replay`. */
  predicate ReplayAfter(opts: seq<WatchOption>, replay: bool)
  {
    replay || RequestsReplay(opts)
  }

  /** The hook loop `for i := range opts { opts[i].beforeWatch(request) }`:
      the request asks for replay afterwards iff it did before or some option
      is WithReplay. */
  method RunBeforeWatch(opts: seq<WatchOption>, request: EventsRequest)
    modifies request
    ensures request.replay == ReplayAfter(opts, old(request.replay))
  {
    ghost var start := request.replay;
    for i := 0 to |opts|
      invariant request.replay == ReplayAfter(opts[..i], start)
    {
      BeforeWatch(opts[i], request);
      assert opts[..i + 1][i] == WithReplay();
    }
    assert opts[..|opts|] == opts;
  }

  /** A list asks for replay when its doubled copy does, and the reverse. */
  lemma RequestsReplayDoubled(opts: seq<WatchOption>)
    ensures RequestsReplay(opts + opts) == RequestsReplay(opts)
  {
    if RequestsReplay(opts + opts) {
      var i :| 0 <= i < |opts + opts| && (opts + opts)[i] == WithReplay();
      assert opts[if i < |opts| then i else i - |opts|] == WithReplay();
    }
    if RequestsReplay(opts) {
      var i :| 0 <= i < |opts| && opts[i] == WithReplay();
      assert (opts + opts)[i] == WithReplay();
    }
  }

  /** The before-hooks are idempotent: running them twice on one fresh
      request, or running the doubled option list once, leaves the replay
      flag as running them once does, the flag being whether some option is
      WithReplay. */
  method ReplayIdempotent(opts: seq<WatchOption>) returns (twice: bool, once: bool, doubled: bool)
    ensures twice == once && doubled == once
    ensures once == RequestsReplay(opts)
  {
    var a := new EventsRequest();
    RunBeforeWatch(opts, a);
    RunBeforeWatch(opts, a);
    var b := new EventsRequest();
    RunBeforeWatch(opts, b);
    var c := new EventsRequest();
    RunBeforeWatch(opts + opts, c);
    RequestsReplayDoubled(opts);
    twice, once, doubled := a.replay, b.replay, c.replay;
  }

  /** The response an after-hook hands to the event mapping. */
  datatype WireEventType = WireAdd | WireRemove | WireReplay | WireOther(code: int)
  datatype WireEvent = WireEvent(eventType: WireEventType, value: string)
  datatype EventsResponse = EventsResponse(event: WireEvent)

  /** `o.afterWatch(response)`: the replay option inspects nothing and
      leaves the response as it was. */
  function AfterWatch(o: WatchOption, response: EventsResponse): (r: EventsResponse)
    ensures r == response
  {
    match o
    case ReplayOption => response
  }

  // ----- Creation options -----

  /** `newSetOptions[E]`; a nil codec is `None`. */
  class NewSetOptions<C> {
    var elementCodec: Option<C>

    /** `newSetOptions{}`. */
    constructor ()
      ensures elementCodec == None
    {
      elementCodec := None;
    }
  }

  /** `codecOption[E]`, the only creation option of the package. */
  datatype SetOption<C> = CodecOption(elementCodec: C)

  /** `WithCodec(elementCodec)`: an option that carries the codec. */
  function WithCodec<C>(elementCodec: C): (o: SetOption<C>)
    ensures o.elementCodec == elementCodec
  {
    CodecOption(elementCodec)
  }

  /** `o.applyNewSet(options)`: sets the codec and nothing else. */
  method ApplyNewSet<C>(o: SetOption<C>, options: NewSetOptions<C>)
    modifies options
    ensures options.elementCodec == Some(o.elementCodec)
  {
    options.elementCodec := Some(o.elementCodec);
  }

  /** The codec after applying `opts` one after the other, starting from `codec`. */
  function FoldCodecs<C>(opts: seq<SetOption<C>>, codec: Option<C>): Option<C>
    decreases |opts|
  {
    if opts == [] then codec else FoldCodecs(opts[1..], Some(opts[0].elementCodec))
  }

  /** The last codec option supplied wins. */
  lemma {:induction false} LastCodecWins<C>(opts: seq<SetOption<C>>, codec: Option<C>)
    ensures FoldCodecs(opts, codec) == if opts == [] then codec else Some(opts[|opts| - 1].elementCodec)
    decreases |opts|
  {
    if opts != [] {
      LastCodecWins(opts[1..], Some(opts[0].elementCodec));
    }
  }

  /** The creation loop `for _, opt := range opts { opt.applyNewSet(&options) }`
      of `New`, starting from `newSetOptions{}`. */
  method NewSetOptionsFrom<C>(opts: seq<SetOption<C>>) returns (options: NewSetOptions<C>)
    ensures options.elementCodec == FoldCodecs(opts, None)
    ensures options.elementCodec == if opts == [] then None else Some(opts[|opts| - 1].elementCodec)
  {
    options := new NewSetOptions();
    for i := 0 to |opts|
      invariant FoldCodecs(opts[i..], options.elementCodec) == FoldCodecs(opts, None)
    {
      assert opts[i..][1..] == opts[i + 1..];
      ApplyNewSet(opts[i], options);
    }
    assert opts[|opts|..] == [];
    LastCodecWins(opts, None);
  }
}
