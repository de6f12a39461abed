/** Reading a request into values (web/codec.go, web/codec_struct.go): codecs, and
    how they combine by pairs and into structs. */
module Codecs {
  import opened Strings

  datatype Location = InPath | InQuery | InHeader

  datatype Parameter = Parameter(name: string, place: Location, description: string, required: bool)

  datatype Content = Content(mediaType: string, shape: string)

  /** What a codec can see of a request. A query or header lookup finds nothing when
      the value was not given. */
  datatype Request = Request(
    captures: map<string, string>,
    query: string -> Option<string>,
    header: string -> Option<string>,
    body: string)

  datatype Error =
    | Missing(parameter: Parameter)
    | Refused(parameter: Parameter, reason: string)
    | Failed(reason: string)

  datatype Outcome<+A> = Ok(value: A) | Err(error: Error)

  datatype Fault = ZeroCodec | TwoEntities | TwoReaders(place: Location, name: string) | Mistake(what: string)

  datatype Codec<!A> = Codec(
    parameters: seq<Parameter>,
    entity: Option<Content>,
    decode: Option<Request -> Outcome<A>>,
    fault: Option<Fault>)

  /** ValidateCodec: the declaration mistake, if there is one. */
  function Validate<A>(codec: Codec<A>): Option<Fault>
  {
    if codec.fault.Some? then codec.fault else if codec.decode.None? then Some(ZeroCodec) else None
  }

  function Decode<A>(codec: Codec<A>, request: Request): Outcome<A>
    requires Validate(codec).None?
  {
    codec.decode.value(request)
  }

  // ---- Two readers of one parameter ----

  function LocationText(place: Location): string
  {
    match place case InPath => "path" case InQuery => "query" case InHeader => "header"
  }

  function Key(parameter: Parameter): string { LocationText(parameter.place) + " " + parameter.name }

  /** The key of a parameter tells both where it is and what it is called. */
  lemma KeySeparates(a: Parameter, b: Parameter)
    ensures Key(a) == Key(b) <==> a.place == b.place && a.name == b.name
  {
    if Key(a) == Key(b) {
      assert Key(a)[0] == LocationText(a.place)[0] && Key(b)[0] == LocationText(b.place)[0];
      var n := |LocationText(a.place)| + 1;
      assert Key(a)[n..] == a.name && Key(b)[n..] == b.name;
    }
  }

  ghost predicate Distinct(parameters: seq<Parameter>)
  {
    forall i, j :: 0 <= i < j < |parameters| ==>
      parameters[i].place != parameters[j].place || parameters[i].name != parameters[j].name
  }

  predicate SameKey(parameters: seq<Parameter>, i: nat, j: nat)
    requires i < |parameters| && j < |parameters|
  {
    Key(parameters[i]) == Key(parameters[j])
  }

  function DuplicateFault(parameters: seq<Parameter>): Option<Fault>
  {
    DuplicateFrom(parameters, 0)
  }

  function DuplicateFrom(parameters: seq<Parameter>, at: nat): Option<Fault>
    requires at <= |parameters|
    decreases |parameters| - at
  {
    if at == |parameters| then None
    else if exists i :: 0 <= i < at && SameKey(parameters, i, at)
    then Some(TwoReaders(parameters[at].place, parameters[at].name))
    else DuplicateFrom(parameters, at + 1)
  }

  /** duplicateParameterFault: a pass over the parameters with the keys seen. */
  method FindDuplicate(parameters: seq<Parameter>) returns (r: Option<Fault>)
    ensures r == DuplicateFault(parameters)
  {
    var seen: set<string> := {};
    for at := 0 to |parameters|
      invariant DuplicateFault(parameters) == DuplicateFrom(parameters, at)
      invariant forall key :: key in seen <==> exists i :: 0 <= i < at && Key(parameters[i]) == key
    {
      var key := Key(parameters[at]);
      if key in seen {
        var i :| 0 <= i < at && Key(parameters[i]) == key;
        assert SameKey(parameters, i, at);
        return Some(TwoReaders(parameters[at].place, parameters[at].name));
      }
      assert forall i :: 0 <= i < at ==> !SameKey(parameters, i, at);
      seen := seen + {key};
    }
    r := None;
  }

  lemma {:induction false} DuplicateFromIff(parameters: seq<Parameter>, at: nat)
    requires at <= |parameters|
    ensures DuplicateFrom(parameters, at).None? <==>
      forall i, j :: 0 <= i < j < |parameters| && at <= j ==> !SameKey(parameters, i, j)
    decreases |parameters| - at
  {
    if at < |parameters| { DuplicateFromIff(parameters, at + 1); }
  }

  /** No fault exactly when no parameter is read twice. */
  lemma DuplicateIff(parameters: seq<Parameter>)
    ensures DuplicateFault(parameters).None? <==> Distinct(parameters)
  {
    DuplicateFromIff(parameters, 0);
    forall i, j | 0 <= i < j < |parameters|
      ensures SameKey(parameters, i, j) <==>
        parameters[i].place == parameters[j].place && parameters[i].name == parameters[j].name {
      KeySeparates(parameters[i], parameters[j]);
    }
  }

  /** A parameter read before it, and none before that one is. */
  ghost predicate FirstReadAgain(parameters: seq<Parameter>, at: nat)
  {
    && at < |parameters| && !Distinct(parameters[..at + 1]) && Distinct(parameters[..at])
  }

  lemma {:induction false} DuplicateFromIs(parameters: seq<Parameter>, from: nat)
    requires from <= |parameters| && Distinct(parameters[..from]) && DuplicateFrom(parameters, from).Some?
    ensures exists at: nat ::
      FirstReadAgain(parameters, at)
        && DuplicateFrom(parameters, from) == Some(TwoReaders(parameters[at].place, parameters[at].name))
    decreases |parameters| - from
  {
    DuplicateIff(parameters[..from + 1]);
    var more := parameters[..from + 1];
    assert more[..from] == parameters[..from];
    forall i, j | 0 <= i < j < |more|
      ensures SameKey(more, i, j) <==> more[i].place == more[j].place && more[i].name == more[j].name {
      KeySeparates(more[i], more[j]);
    }
    if i :| 0 <= i < from && SameKey(parameters, i, from) {
      assert SameKey(more, i, from);
      assert FirstReadAgain(parameters, from);
    } else {
      assert Distinct(more) by {
        forall i, j | 0 <= i < j < |more| ensures more[i].place != more[j].place || more[i].name != more[j].name {
          if j == from {
            assert !SameKey(parameters, i, from);
          } else {
            assert parameters[..from][i] == more[i] && parameters[..from][j] == more[j];
          }
        }
      }
      DuplicateFromIs(parameters, from + 1);
    }
  }

  /** The fault names the first parameter that was read before. */
  lemma DuplicateNames(parameters: seq<Parameter>)
    requires DuplicateFault(parameters).Some?
    ensures exists at: nat ::
      FirstReadAgain(parameters, at)
        && DuplicateFault(parameters) == Some(TwoReaders(parameters[at].place, parameters[at].name))
  {
    DuplicateFromIs(parameters, 0);
  }

  // ---- Zip and Convert ----

  function FirstEntity(first: Option<Content>, second: Option<Content>): Option<Content>
  {
    if first.Some? then first else second
  }

  function FirstCodecFault<A, B>(first: Codec<A>, second: Codec<B>): Option<Fault>
  {
    if Validate(first).Some? then Validate(first)
    else if Validate(second).Some? then Validate(second)
    else if first.entity.Some? && second.entity.Some? then Some(TwoEntities)
    else DuplicateFault(first.parameters + second.parameters)
  }

  function ReadBoth<A, B>(
      first: Request -> Outcome<A>, second: Request -> Outcome<B>, request: Request): Outcome<(A, B)>
  {
    match first(request)
    case Err(error) => Err(error)
    case Ok(value) =>
      match second(request)
      case Err(error) => Err(error)
      case Ok(also) => Ok((value, also))
  }

  function Zip<A, B>(first: Codec<A>, second: Codec<B>): Codec<(A, B)>
  {
    var fault := FirstCodecFault(first, second);
    Codec(
      first.parameters + second.parameters,
      FirstEntity(first.entity, second.entity),
      if fault.Some? then None else Some(request => ReadBoth(first.decode.value, second.decode.value, request)),
      fault)
  }

  function ReadThen<A, B>(decode: Request -> Outcome<A>, to: A -> Outcome<B>, request: Request): Outcome<B>
  {
    match decode(request)
    case Err(error) => Err(error)
    case Ok(value) => to(value)
  }

  function Convert<A, B>(inner: Codec<A>, to: A -> Outcome<B>): Codec<B>
  {
    var fault := Validate(inner);
    Codec(
      inner.parameters,
      inner.entity,
      if fault.Some? then None else Some(request => ReadThen(inner.decode.value, to, request)),
      fault)
  }

  // ---- Struct ----

  /** One codec's value, assigned to a field of S. */
  datatype Field<!S> = Field(
    parameters: seq<Parameter>,
    entity: Option<Content>,
    fault: Option<Fault>,
    decode: (Request, S) -> Outcome<S>)

  function ReadInto<S, A>(codec: Codec<A>, assign: (S, A) -> S, request: Request, into: S): Outcome<S>
  {
    if codec.decode.None? then Err(Failed("nil decode"))
    else
      match codec.decode.value(request)
      case Err(error) => Err(error)
      case Ok(value) => Ok(assign(into, value))
  }

  function FieldOf<S, A>(codec: Codec<A>, assign: (S, A) -> S): Field<S>
  {
    Field(codec.parameters, codec.entity, Validate(codec), (request, into) => ReadInto(codec, assign, request, into))
  }

  function Or(first: Option<Fault>, second: Option<Fault>): Option<Fault> { if first.Some? then first else second }

  function SecondEntityFault(first: Option<Content>, second: Option<Content>): Option<Fault>
  {
    if first.Some? && second.Some? then Some(TwoEntities) else None
  }

  function ReadFields<S>(fields: seq<Field<S>>, request: Request, into: S): Outcome<S>
    decreases |fields|
  {
    if fields == [] then Ok(into)
    else
      match fields[0].decode(request, into)
      case Err(error) => Err(error)
      case Ok(next) => ReadFields(fields[1..], request, next)
  }

  /** What the loop of Struct has gathered: parameters, entity and fault. */
  function Gathered<S>(fields: seq<Field<S>>): (seq<Parameter>, Option<Content>, Option<Fault>)
    decreases |fields|
  {
    if fields == [] then ([], None, None)
    else
      var (parameters, entity, fault) := Gathered(fields[..|fields| - 1]);
      var last := fields[|fields| - 1];
      (parameters + last.parameters, FirstEntity(entity, last.entity),
        Or(Or(fault, last.fault), SecondEntityFault(entity, last.entity)))
  }

  function Struct<S>(fields: seq<Field<S>>, zero: S): Codec<S>
  {
    var (parameters, entity, gathered) := Gathered(fields);
    var fault := Or(gathered, DuplicateFault(parameters));
    Codec(parameters, entity, if fault.Some? then None else Some(FieldReader(fields, zero)), fault)
  }

  function FieldReader<S>(fields: seq<Field<S>>, zero: S): Request -> Outcome<S>
  {
    request => ReadFields(fields, request, zero)
  }

  method MakeStruct<S>(fields: seq<Field<S>>, zero: S) returns (codec: Codec<S>)
    ensures codec == Struct(fields, zero)
  {
    codec := Codec([], None, None, None);
    for i := 0 to |fields|
      invariant codec.decode == None && (codec.parameters, codec.entity, codec.fault) == Gathered(fields[..i])
    {
      assert fields[..i + 1][..i] == fields[..i];
      var field := fields[i];
      codec := codec.(
        parameters := codec.parameters + field.parameters,
        fault := Or(Or(codec.fault, field.fault), SecondEntityFault(codec.entity, field.entity)),
        entity := FirstEntity(codec.entity, field.entity));
    }
    assert fields[..|fields|] == fields;
    var duplicate := FindDuplicate(codec.parameters);
    codec := codec.(fault := Or(codec.fault, duplicate));
    if codec.fault.None? {
      codec := codec.(decode := Some(FieldReader(fields, zero)));
    }
  }
}
