/** A Retrofit call-adapter factory that makes a successful response whose
    body is null carry the empty collection instead, when the declared body
    type is a List, a Set or a Map. Java types, the delegate factory and the
    calls it wraps are abstracted to datatypes: the delegate factory's answer
    and the delegate call's outcomes are inputs. */
module CoerceNullCollections {
  import opened Wrappers

  const LIST: string := "java.util.List"
  const SET: string := "java.util.Set"
  const MAP: string := "java.util.Map"
  const CALL: string := "retrofit2.Call"

  /** A class with the names of the classes and interfaces it is assignable
      to besides itself. */
  datatype Class = Class(name: string, supertypes: set<string>)

  /** A reflective Java type: a plain class, a parameterized type, a wildcard
      with its upper bound, or any other kind (type variable, generic array)
      with the class it erases to. */
  datatype Type =
    | Plain(cls: Class)
    | Parameterized(raw: Class, args: seq<Type>)
    | Wildcard(upper: Type)
    | OtherType(erasure: Class)

  /** `target.class.isAssignableFrom(c)`. */
  predicate AssignableTo(c: Class, target: string)
  {
    c.name == target || target in c.supertypes
  }

  /** Retrofit's getRawType: the class a type erases to. */
  function RawType(t: Type): Class
  {
    match t
    case Plain(c) => c
    case Parameterized(raw, _) => raw
    case Wildcard(upper) => RawType(upper)
    case OtherType(c) => c
  }

  /** Retrofit's getParameterUpperBound: the type argument at index, or the
      upper bound of a wildcard there; an index out of range is an error. */
  function ParameterUpperBound(index: nat, args: seq<Type>): (r: Option<Type>)
    ensures r.None? <==> index >= |args|
    ensures r.Some? && !args[index].Wildcard? ==> r.value == args[index]
    ensures r.Some? && args[index].Wildcard? ==> r.value == args[index].upper
  {
    if index >= |args| then None
    else match args[index]
      case Wildcard(upper) => Some(upper)
      case t => Some(t)
  }

  /** The empty collection a defaulting adapter substitutes. */
  datatype Default = EmptyList | EmptySet | EmptyMap

  /** A response body: one of the empty defaults or some other value. */
  datatype Body = DefaultBody(kind: Default) | Value(id: nat)

  /** The call adapters involved: the one the delegate factory returned,
      the pass-through used when it returned none, and the defaulting one. */
  datatype Adapter =
    | Delegated(id: nat, responseType: Type)
    | PassThrough(responseType: Type)
    | DefaultingOnNull(delegate: Adapter, default: Default)

  datatype GetError =
    | NotParameterized(returnType: Type)     // SafeIllegalStateException
    | NoTypeArgument(returnType: Type)       // from getParameterUpperBound
    | NotCall(returnType: Type)              // Preconditions.checkState

  /** The default for a raw body class: first match of List, Set, Map. */
  function DefaultFor(c: Class): (r: Option<Default>)
    ensures r == Some(EmptyList) <==> AssignableTo(c, LIST)
    ensures r == Some(EmptySet) <==> !AssignableTo(c, LIST) && AssignableTo(c, SET)
    ensures r == Some(EmptyMap) <==> !AssignableTo(c, LIST) && !AssignableTo(c, SET) && AssignableTo(c, MAP)
    ensures r.None? <==> !AssignableTo(c, LIST) && !AssignableTo(c, SET) && !AssignableTo(c, MAP)
  {
    if AssignableTo(c, LIST) then Some(EmptyList)
    else if AssignableTo(c, SET) then Some(EmptySet)
    else if AssignableTo(c, MAP) then Some(EmptyMap)
    else None
  }

  /** The adapter factory's `get`, given what the delegate factory returns
      for the same return type. */
  function Get(returnType: Type, fromDelegate: Option<Adapter>): (r: Result<Adapter, GetError>)
    ensures !returnType.Parameterized? ==> r == Err(NotParameterized(returnType))
    ensures returnType.Parameterized? && returnType.args == [] ==> r == Err(NoTypeArgument(returnType))
    ensures returnType.Parameterized? && returnType.args != [] ==>
      (r.Err? <==> fromDelegate.None? && returnType.raw.name != CALL)
    ensures r.Ok? ==> returnType.Parameterized? && returnType.args != []
    ensures r.Ok? ==>
      var base := if fromDelegate.Some? then fromDelegate.value
                  else PassThrough(ParameterUpperBound(0, returnType.args).value);
      match DefaultFor(RawType(ParameterUpperBound(0, returnType.args).value))
      case Some(d) => r.value == DefaultingOnNull(base, d)
      case None => r.value == base
  {
    if !returnType.Parameterized? then Err(NotParameterized(returnType))
    else
      match ParameterUpperBound(0, returnType.args)
      case None => Err(NoTypeArgument(returnType))
      case Some(inner) =>
        match DelegateOrPassThrough(returnType, inner, fromDelegate)
        case Err(e) => Err(e)
        case Ok(base) =>
          match DefaultFor(RawType(inner))
          case Some(d) => Ok(DefaultingOnNull(base, d))
          case None => Ok(base)
  }

  /** The delegate's adapter, or a pass-through for a plain `Call` return
      type when the delegate has none. */
  function DelegateOrPassThrough(returnType: Type, inner: Type, fromDelegate: Option<Adapter>)
    : (r: Result<Adapter, GetError>)
    requires returnType.Parameterized?
    ensures fromDelegate.Some? ==> r == Ok(fromDelegate.value)
    ensures fromDelegate.None? && returnType.raw.name == CALL ==> r == Ok(PassThrough(inner))
    ensures fromDelegate.None? && returnType.raw.name != CALL ==> r == Err(NotCall(returnType))
  {
    match fromDelegate
    case Some(a) => Ok(a)
    case None =>
      if RawType(returnType).name == CALL then Ok(PassThrough(inner))
      else Err(NotCall(returnType))
  }

  /** The body type an adapter reports: a defaulting adapter reports its
      delegate's. */
  function ResponseType(a: Adapter): Type
  {
    match a
    case Delegated(_, t) => t
    case PassThrough(t) => t
    case DefaultingOnNull(d, _) => ResponseType(d)
  }

  /** An HTTP response as the transport produced it. */
  datatype RawResponse = RawResponse(code: int, id: nat)

  /** A Retrofit response: the raw response and the deserialised body, which
      may be null. */
  datatype Response = Response(raw: RawResponse, body: Option<Body>)

  predicate IsSuccessful(r: Response)
  {
    200 <= r.raw.code < 300
  }

  /** A successful response with a null body gets the default body and keeps
      its raw response; every other response is returned unchanged. */
  function AdaptResponse(d: Default, r: Response): (out: Response)
    ensures IsSuccessful(r) && r.body.None? ==> out == Response(r.raw, Some(DefaultBody(d)))
    ensures !(IsSuccessful(r) && r.body.None?) ==> out == r
    ensures out.raw == r.raw && IsSuccessful(out) == IsSuccessful(r)
    ensures out.body.Some? || !IsSuccessful(out)
  {
    if IsSuccessful(r) && r.body.None? then Response(r.raw, Some(DefaultBody(d))) else r
  }

  lemma {:induction false} AdaptResponseIdempotent(d: Default, r: Response)
    ensures AdaptResponse(d, AdaptResponse(d, r)) == AdaptResponse(d, r)
  {
  }

  /** A call: the one Retrofit built, a clone of a call, or a defaulting call
      wrapping another. */
  datatype Call =
    | Origin(id: nat)
    | CloneOf(original: Call)
    | DefaultingCall(delegate: Call, default: Default)

  /** What an adapter turns a call into: the pass-through hands it on, a
      defaulting adapter wraps it before handing it to its delegate, and a
      delegate's adapter is opaque. */
  datatype Adapted = AsIs(call: Call) | ByDelegate(id: nat, call: Call)

  function Adapt(a: Adapter, c: Call): (r: Adapted)
    ensures a.DefaultingOnNull? && !a.delegate.DefaultingOnNull? ==> r.call == DefaultingCall(c, a.default)
    ensures a.PassThrough? ==> r == AsIs(c)
    ensures !a.DefaultingOnNull? ==> r.call == c
    ensures a.Delegated? ==> r == ByDelegate(a.id, c)
    ensures a.DefaultingOnNull? && a.delegate.Delegated? ==> r == ByDelegate(a.delegate.id, DefaultingCall(c, a.default))
    ensures a.DefaultingOnNull? && a.delegate.PassThrough? ==> r == AsIs(DefaultingCall(c, a.default))
  {
    match a
    case Delegated(id, _) => ByDelegate(id, c)
    case PassThrough(_) => AsIs(c)
    case DefaultingOnNull(d, def) => Adapt(d, DefaultingCall(c, def))
  }

  /** `clone` on a defaulting call clones the delegate and keeps the default. */
  function Clone(c: Call): (r: Call)
    ensures c.DefaultingCall? ==>
              r.DefaultingCall? && r.default == c.default && r.delegate == Clone(c.delegate)
  {
    match c
    case DefaultingCall(d, def) => DefaultingCall(Clone(d), def)
    case _ => CloneOf(c)
  }

  /** What a callback is handed when an enqueued call finishes. */
  datatype Outcome = OnResponse(response: Response) | OnFailure(error: nat)

  /** The callback a defaulting call installs on its delegate: a failure is
      passed on unchanged, a response only after AdaptResponse. */
  function Deliver(d: Default, o: Outcome): (r: Outcome)
    ensures o.OnFailure? ==> r == o
    ensures o.OnResponse? ==> r == OnResponse(AdaptResponse(d, o.response))
  {
    match o
    case OnFailure(_) => o
    case OnResponse(resp) => OnResponse(AdaptResponse(d, resp))
  }

  /** The outcome a callback sees when a call with the given outer defaults
      finishes with o from the origin: each defaulting layer applies its own
      coercion. */
  function DeliverThrough(c: Call, o: Outcome): Outcome
  {
    match c
    case DefaultingCall(inner, d) => Deliver(d, DeliverThrough(inner, o))
    case _ => o
  }

  /** A clone of a call delivers the same outcome for the same delegate
      outcome: cloning keeps every default supplier. */
  lemma {:induction false} CloneDeliversAlike(c: Call, o: Outcome)
    ensures DeliverThrough(Clone(c), o) == DeliverThrough(c, o)
  {
    match c
    case DefaultingCall(inner, d) => CloneDeliversAlike(inner, o);
    case _ =>
  }

  /** A successful response comes out of a defaulting call with a body
      whatever defaulting layers it passes, and failures and unsuccessful
      responses come out unchanged. */
  lemma {:induction false} DeliveredThroughDefaulting(c: Call, o: Outcome)
    requires c.DefaultingCall?
    ensures o.OnFailure? ==> DeliverThrough(c, o) == o
    ensures o.OnResponse? && !IsSuccessful(o.response) ==> DeliverThrough(c, o) == o
    ensures o.OnResponse? && IsSuccessful(o.response) ==>
      DeliverThrough(c, o).OnResponse? && DeliverThrough(c, o).response.body.Some?
      && DeliverThrough(c, o).response.raw == o.response.raw
  {
    PassesUnchanged(c, o);
    if o.OnResponse? && IsSuccessful(o.response) {
      PreservesRaw(c.delegate, o);
    }
  }

  lemma {:induction false} PassesUnchanged(c: Call, o: Outcome)
    ensures o.OnFailure? || (o.OnResponse? && !IsSuccessful(o.response)) ==> DeliverThrough(c, o) == o
  {
    match c
    case DefaultingCall(inner, d) => PassesUnchanged(inner, o);
    case _ =>
  }

  lemma {:induction false} PreservesRaw(c: Call, o: Outcome)
    requires o.OnResponse?
    ensures DeliverThrough(c, o).OnResponse? && DeliverThrough(c, o).response.raw == o.response.raw
  {
    match c
    case DefaultingCall(inner, d) => PreservesRaw(inner, o);
    case _ =>
  }

  /** `get` coerces exactly the collection body types: it wraps the base
      adapter (the delegate's, or the pass-through when there is none) iff
      the first type argument erases to a List, Set or Map class, and the
      adapter always reports the base adapter's body type. */
  lemma {:induction false} GetDefaultsExactlyCollections(returnType: Type, fromDelegate: Option<Adapter>)
    requires Get(returnType, fromDelegate).Ok?
    ensures var inner := ParameterUpperBound(0, returnType.args).value;
      var base := if fromDelegate.Some? then fromDelegate.value else PassThrough(inner);
      && (Get(returnType, fromDelegate).value != base <==>
            AssignableTo(RawType(inner), LIST) || AssignableTo(RawType(inner), SET) || AssignableTo(RawType(inner), MAP))
      && ResponseType(Get(returnType, fromDelegate).value) == ResponseType(base)
  {
    var inner := ParameterUpperBound(0, returnType.args).value;
    var base := if fromDelegate.Some? then fromDelegate.value else PassThrough(inner);
    match DefaultFor(RawType(inner))
    case Some(d) =>
      assert base < DefaultingOnNull(base, d);
    case None =>
  }
}
