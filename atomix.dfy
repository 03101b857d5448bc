/** The package-level entry points: the primitive ID each `Get*` passes to
    the client's `connect`, and the option list each hands to the
    primitive's `New`. The global client (`getClient()`), the connection it
    opens and the `New` functions are outside this model; the outcome of
    `connect` is a parameter. */
module Atomix {
  import opened Errors
  import Primitive
  import SetPrimitive
  import ValuePrimitive

  /** `primitiveapi.PrimitiveId`. */
  datatype PrimitiveId = PrimitiveId(primitiveType: string, name: string)

  /** `newPrimitiveID(t, name)`: the type's string and the name. */
  function NewPrimitiveID(t: Primitive.Type, name: string): (id: PrimitiveId)
    ensures id.primitiveType == t && id.name == name
  {
    PrimitiveId(t, name)
  }

  /** `clientOptions`, reduced to the field the core reads. */
  datatype ClientOptions = ClientOptions(clientID: string)

  /** `getPrimitiveOpts(clientOpts, primitiveOpts...)`: the session-ID option
      built from the client ID, then the caller's options in their order. */
  function GetPrimitiveOpts(clientOpts: ClientOptions, primitiveOpts: seq<Primitive.PrimitiveOption>)
    : (r: seq<Primitive.PrimitiveOption>)
    ensures |r| == |primitiveOpts| + 1
    ensures r[0] == Primitive.WithSessionID(clientOpts.clientID)
    ensures r[1..] == primitiveOpts
    ensures forall i :: 0 <= i < |primitiveOpts| ==> r[i + 1] == primitiveOpts[i]
  {
    [Primitive.WithSessionID(clientOpts.clientID)] + primitiveOpts
  }

  /** The eight kinds of primitive the package can get. */
  datatype Kind = CounterKind | ElectionKind | IndexedMapKind | ListKind
                | LockKind | MapKind | SetKind | ValueKind

  /** Each kind's `Type` constant. The set and value constants are those of
      their packages; the others are taken to be the kind's name. */
  function TypeOf(k: Kind): (t: Primitive.Type)
    ensures k == SetKind ==> t == "Set"
    ensures k == ValueKind ==> t == "Value"
    ensures |t| > 0
  {
    match k
    case CounterKind => "Counter"
    case ElectionKind => "Election"
    case IndexedMapKind => "IndexedMap"
    case ListKind => "List"
    case LockKind => "Lock"
    case MapKind => "Map"
    case SetKind => SetPrimitive.SetType
    case ValueKind => ValuePrimitive.ValueType
  }

  /** No two kinds share a type name. */
  lemma TypeOfInjective(a: Kind, b: Kind)
    ensures TypeOf(a) == TypeOf(b) <==> a == b
  {
    if a != b {
      assert TypeOf(a)[0] != TypeOf(b)[0] || |TypeOf(a)| != |TypeOf(b)|
          || TypeOf(a)[1] != TypeOf(b)[1];
    }
  }

  // ----- The ID selection as written -----

  /** The ID every `Get*` passes to `connect`: each one calls
      `newPrimitiveID(counter.Type, name)`, whatever its kind. */
  function ConnectIDAsWritten(k: Kind, name: string): (id: PrimitiveId)
    ensures id.primitiveType == TypeOf(CounterKind) && id.name == name
  {
    NewPrimitiveID(TypeOf(CounterKind), name)
  }

  /** As written, a set and a counter of the same name connect under the
      same ID, and that ID does not carry the set's type. */
  lemma AsWrittenSetConnectsAsCounter()
    ensures ConnectIDAsWritten(SetKind, "s") == ConnectIDAsWritten(CounterKind, "s")
    ensures ConnectIDAsWritten(SetKind, "s").primitiveType != TypeOf(SetKind)
  {
    TypeOfInjective(SetKind, CounterKind);
  }

  // ----- The ID selection as intended -----

  /** The ID a `Get*` of kind `k` is evidently meant to pass: its own type. */
  function ConnectID(k: Kind, name: string): (id: PrimitiveId)
    ensures id.primitiveType == TypeOf(k) && id.name == name
  {
    NewPrimitiveID(TypeOf(k), name)
  }

  /** With each kind's own type, two gets connect under the same ID exactly
      when they ask for the same kind and the same name. */
  lemma ConnectIDDistinguishesKinds(a: Kind, n: string, b: Kind, m: string)
    ensures ConnectID(a, n) == ConnectID(b, m) <==> a == b && n == m
  {
    TypeOfInjective(a, b);
  }

  // ----- The Get* functions -----

  /** Where a `Get*` call ends inside this package: `connect` failed and its
      error is returned, or `New` is called with the ID's connection, the
      name and the options. */
  datatype GetStep =
    | ConnectFailed(id: PrimitiveId, err: ErrorKind)
    | NewCalled(id: PrimitiveId, name: string, newOpts: seq<Primitive.PrimitiveOption>)

  /** The body shared by the eight `Get*` functions, given the ID it
      connects under. */
  function GetVia(id: PrimitiveId, name: string, clientOpts: ClientOptions,
                  opts: seq<Primitive.PrimitiveOption>, connect: Option<ErrorKind>): (s: GetStep)
    ensures s.id == id
    ensures connect.Some? <==> s.ConnectFailed?
    ensures connect.Some? ==> s.err == connect.value
    ensures s.NewCalled? ==> s.name == name
                             && s.newOpts == [Primitive.WithSessionID(clientOpts.clientID)] + opts
  {
    match connect
    case Some(k) => ConnectFailed(id, k)
    case None => NewCalled(id, name, GetPrimitiveOpts(clientOpts, opts))
  }

  /** `GetCounter`, `GetElection`, ... `GetValue` as written. */
  function GetAsWritten(k: Kind, name: string, clientOpts: ClientOptions,
                        opts: seq<Primitive.PrimitiveOption>, connect: Option<ErrorKind>): (s: GetStep)
    ensures s.id == PrimitiveId(TypeOf(CounterKind), name)
    ensures connect.Some? <==> s.ConnectFailed?
  {
    GetVia(ConnectIDAsWritten(k, name), name, clientOpts, opts, connect)
  }

  /** The same functions with each kind's own type. */
  function Get(k: Kind, name: string, clientOpts: ClientOptions,
               opts: seq<Primitive.PrimitiveOption>, connect: Option<ErrorKind>): (s: GetStep)
    ensures s.id == PrimitiveId(TypeOf(k), name)
    ensures connect.Some? <==> s.ConnectFailed?
  {
    GetVia(ConnectID(k, name), name, clientOpts, opts, connect)
  }

  /** The corrected gets differ from the ones as written only in the ID, and
      agree on it for counters alone. */
  lemma GetAgreesExceptForID(k: Kind, name: string, clientOpts: ClientOptions,
                             opts: seq<Primitive.PrimitiveOption>, connect: Option<ErrorKind>)
    ensures Get(k, name, clientOpts, opts, connect) == GetAsWritten(k, name, clientOpts, opts, connect)
            <==> k == CounterKind
    ensures Get(k, name, clientOpts, opts, connect).(id := PrimitiveId("", ""))
            == GetAsWritten(k, name, clientOpts, opts, connect).(id := PrimitiveId("", ""))
  {
    TypeOfInjective(k, CounterKind);
  }
}
