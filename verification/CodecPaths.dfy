/** Codecs and the paths they are served at (web/codec_parameter.go,
    web/endpoint_validation.go): in a declared endpoint no request that was
    dispatched lacks a path parameter. */
module CodecPaths {
  import opened Strings
  import opened Patterns
  import opened RouteSpec
  import opened Surfaces
  import opened Codecs
  import TreeNodes
  import Filling
  import CodecTrees

  /** A value read from a request. */
  datatype Value = Nothing | Scalar(text: string) | Pair(first: Value, second: Value) | Record(fields: seq<Value>)

  /** A codec as a program writes it down. A schema is what it makes of a text, and
      says whether it is itself fit to use. */
  datatype Expr =
    | Unread
    | Required(place: Location, name: string, sound: bool, schema: string -> Option<Value>)
    | Optional(place: Location, name: string, sound: bool, schema: string -> Option<Value>)
    | Body(content: Content, sound: bool, parse: string -> Option<Value>)
    | Zipped(first: Expr, second: Expr)
    | Converted(inner: Expr, to: Value -> Option<Value>)
    | Described(inner: Expr, doc: string)
    | Fields(parts: seq<Expr>)

  // ---- The parameter codecs ----

  function Lookup(place: Location, name: string, request: Request): Option<string>
  {
    match place
    case InPath => if name in request.captures then Some(request.captures[name]) else None
    case InQuery => request.query(name)
    case InHeader => request.header(name)
  }

  function ParameterFault(name: string, sound: bool): Option<Fault>
  {
    if IsBlank(name) then Some(Mistake("a parameter has no name"))
    else if !sound then Some(Mistake("declare the parameter"))
    else None
  }

  function ReadText(parameter: Parameter, schema: string -> Option<Value>, text: string): Outcome<Value>
  {
    match schema(text) case None => Err(Error.Refused(parameter, "schema")) case Some(value) => Ok(value)
  }

  function ReadParameter(parameter: Parameter, schema: string -> Option<Value>, request: Request): Outcome<Value>
  {
    match Lookup(parameter.place, parameter.name, request)
    case None => if parameter.required then Err(Missing(parameter)) else Ok(Nothing)
    case Some(text) => ReadText(parameter, schema, text)
  }

  /** requiredParameter and optionalParameter. */
  function ParameterCodec(parameter: Parameter, sound: bool, schema: string -> Option<Value>): Codec<Value>
  {
    var fault := ParameterFault(parameter.name, sound);
    Codec(
      [parameter],
      None,
      if fault.Some? then None else Some(request => ReadParameter(parameter, schema, request)),
      fault)
  }

  function ReadBody(parse: string -> Option<Value>, request: Request): Outcome<Value>
  {
    match parse(request.body) case None => Err(Failed("body")) case Some(value) => Ok(value)
  }

  function BodyCodec(content: Content, sound: bool, parse: string -> Option<Value>): Codec<Value>
  {
    if !sound then Codec([], Some(content), None, Some(Mistake("declare the request body")))
    else Codec([], Some(content), Some(request => ReadBody(parse, request)), None)
  }

  function WithDescription(codec: Codec<Value>, doc: string): Codec<Value>
  {
    if |codec.parameters| != 1 then codec.(fault := Some(Mistake("prose applies to one parameter")))
    else codec.(parameters := [codec.parameters[0].(description := doc)])
  }

  function Converting(to: Value -> Option<Value>): Value -> Outcome<Value>
  {
    value => match to(value) case None => Err(Failed("convert")) case Some(other) => Ok(other)
  }

  function Appending(): (seq<Value>, Value) -> seq<Value> { (values, value) => values + [value] }

  function CodecOf(e: Expr): Codec<Value>
    decreases e
  {
    match e
    case Unread => Codec([], None, Some((request: Request) => Ok(Nothing)), None)
    case Required(place, name, sound, schema) => ParameterCodec(Parameter(name, place, "", true), sound, schema)
    case Optional(place, name, sound, schema) => ParameterCodec(Parameter(name, place, "", false), sound, schema)
    case Body(content, sound, parse) => BodyCodec(content, sound, parse)
    case Zipped(first, second) =>
      Convert(Zip(CodecOf(first), CodecOf(second)), (both: (Value, Value)) => Ok(Pair(both.0, both.1)))
    case Converted(inner, to) => Convert(CodecOf(inner), Converting(to))
    case Described(inner, doc) => WithDescription(CodecOf(inner), doc)
    case Fields(parts) => Convert(Struct(FieldsOf(parts), []), (values: seq<Value>) => Ok(Record(values)))
  }

  function FieldsOf(parts: seq<Expr>): seq<Field<seq<Value>>>
    decreases parts
  {
    if parts == [] then []
    else FieldsOf(parts[..|parts| - 1]) + [FieldOf(CodecOf(parts[|parts| - 1]), Appending())]
  }

  // ---- What a codec reads ----

  /** What the schema makes of the text that was given, or of none having been. */
  ghost predicate Answers(
      given: Option<string>, parameter: Parameter, schema: string -> Option<Value>, absent: Outcome<Value>,
      r: Outcome<Value>)
  {
    match given
    case None => r == absent
    case Some(text) =>
      r == if schema(text).Some? then Ok(schema(text).value) else Err(Error.Refused(parameter, "schema"))
  }

  /** A parameter codec is usable exactly when it has a name and a sound schema, and
      then reads the captured segment, the query value or the header its place says.
      One that is not given is missing when it is required and nothing when it is
      optional. */
  lemma ParameterReads(
      place: Location, name: string, sound: bool, schema: string -> Option<Value>, request: Request)
    ensures var required, optional :=
        CodecOf(Required(place, name, sound, schema)), CodecOf(Optional(place, name, sound, schema));
      && (Validate(required).None? <==> !IsBlank(name) && sound)
      && (Validate(optional).None? <==> !IsBlank(name) && sound)
      && (!IsBlank(name) && sound ==>
        var given := match place
          case InPath => (if name in request.captures then Some(request.captures[name]) else None)
          case InQuery => request.query(name)
          case InHeader => request.header(name);
        var must, may := Parameter(name, place, "", true), Parameter(name, place, "", false);
        && Answers(given, must, schema, Err(Missing(must)), Decode(required, request))
        && Answers(given, may, schema, Ok(Nothing), Decode(optional, request)))
  {
    var must, may := Parameter(name, place, "", true), Parameter(name, place, "", false);
    if !IsBlank(name) && sound {
      assert Decode(CodecOf(Required(place, name, sound, schema)), request) == ReadParameter(must, schema, request);
      assert Decode(CodecOf(Optional(place, name, sound, schema)), request) == ReadParameter(may, schema, request);
    }
  }

  /** What a written codec means, with no codec in sight. */
  function Meaning(e: Expr, request: Request): Outcome<Value>
    decreases e
  {
    match e
    case Unread => Ok(Nothing)
    case Required(place, name, _, schema) => ReadParameter(Parameter(name, place, "", true), schema, request)
    case Optional(place, name, _, schema) => ReadParameter(Parameter(name, place, "", false), schema, request)
    case Body(_, _, parse) =>
      if parse(request.body).Some? then Ok(parse(request.body).value) else Err(Failed("body"))
    case Zipped(first, second) =>
      (match Meaning(first, request)
       case Err(error) => Err(error)
       case Ok(value) =>
         match Meaning(second, request)
         case Err(error) => Err(error)
         case Ok(also) => Ok(Pair(value, also)))
    case Converted(inner, to) =>
      (match Meaning(inner, request)
       case Err(error) => Err(error)
       case Ok(value) => if to(value).Some? then Ok(to(value).value) else Err(Failed("convert")))
    case Described(inner, _) => Meaning(inner, request)
    case Fields(parts) =>
      match MeaningOfEach(parts, request)
      case Err(error) => Err(error)
      case Ok(values) => Ok(Record(values))
  }

  /** The values in turn, or the first error. */
  function MeaningOfEach(parts: seq<Expr>, request: Request): Outcome<seq<Value>>
    decreases parts
  {
    if parts == [] then Ok([])
    else
      match MeaningOfEach(parts[..|parts| - 1], request)
      case Err(error) => Err(error)
      case Ok(values) =>
        match Meaning(parts[|parts| - 1], request)
        case Err(error) => Err(error)
        case Ok(value) => Ok(values + [value])
  }

  /** The parameters a written codec declares. */
  function Declares(e: Expr): seq<Parameter>
    decreases e
  {
    match e
    case Required(place, name, _, _) => [Parameter(name, place, "", true)]
    case Optional(place, name, _, _) => [Parameter(name, place, "", false)]
    case Zipped(first, second) => Declares(first) + Declares(second)
    case Converted(inner, _) => Declares(inner)
    case Described(inner, doc) =>
      if |Declares(inner)| == 1 then [Declares(inner)[0].(description := doc)] else Declares(inner)
    case Fields(parts) => DeclaredByEach(parts)
    case _ => []
  }

  function DeclaredByEach(parts: seq<Expr>): seq<Parameter>
    decreases parts
  {
    if parts == [] then [] else DeclaredByEach(parts[..|parts| - 1]) + Declares(parts[|parts| - 1])
  }

  predicate ReadsBody(e: Expr)
    decreases e
  {
    match e
    case Body(_, _, _) => true
    case Zipped(first, second) => ReadsBody(first) || ReadsBody(second)
    case Converted(inner, _) => ReadsBody(inner)
    case Described(inner, _) => ReadsBody(inner)
    case Fields(parts) => exists i :: 0 <= i < |parts| && ReadsBody(parts[i])
    case _ => false
  }

  /** Every parameter has a name and a sound schema, and every body one; what is
      combined reads the body at most once and no parameter twice; and prose is put
      to one parameter. */
  ghost predicate Usable(e: Expr)
    decreases e
  {
    match e
    case Unread => true
    case Required(_, name, sound, _) => !IsBlank(name) && sound
    case Optional(_, name, sound, _) => !IsBlank(name) && sound
    case Body(_, sound, _) => sound
    case Zipped(first, second) =>
      && Usable(first) && Usable(second) && !(ReadsBody(first) && ReadsBody(second)) && Distinct(Declares(e))
    case Converted(inner, _) => Usable(inner)
    case Described(inner, _) => Usable(inner) && |Declares(inner)| == 1
    case Fields(parts) => AllUsable(parts) && Distinct(Declares(e))
  }

  ghost predicate AllUsable(parts: seq<Expr>)
    decreases parts
  {
    && (forall i :: 0 <= i < |parts| ==> Usable(parts[i]))
    && (forall i, j :: 0 <= i < j < |parts| ==> !(ReadsBody(parts[i]) && ReadsBody(parts[j])))
  }

  /** Which codecs can be used, and what each declares, can be read off how it is
      written. */
  lemma {:induction false} UsableIff(e: Expr)
    ensures Validate(CodecOf(e)).None? <==> Usable(e)
    ensures CodecOf(e).parameters == Declares(e) && (CodecOf(e).entity.Some? <==> ReadsBody(e))
    decreases e
  {
    match e
    case Zipped(first, second) =>
      UsableIff(first);
      UsableIff(second);
      DuplicateIff(Declares(first) + Declares(second));
    case Converted(inner, _) => UsableIff(inner);
    case Described(inner, _) => UsableIff(inner);
    case Fields(parts) =>
      GatheredUsable(parts);
      DuplicateIff(DeclaredByEach(parts));
    case _ =>
  }

  lemma {:induction false} GatheredUsable(parts: seq<Expr>)
    ensures var (parameters, entity, fault) := Gathered(FieldsOf(parts));
      && parameters == DeclaredByEach(parts)
      && (entity.Some? <==> exists i :: 0 <= i < |parts| && ReadsBody(parts[i]))
      && (fault.None? <==> AllUsable(parts))
    decreases parts
  {
    if parts != [] {
      var init, last := parts[..|parts| - 1], parts[|parts| - 1];
      assert parts == init + [last];
      GatheredUsable(init);
      UsableIff(last);
      assert FieldsOf(parts)[..|FieldsOf(init)|] == FieldsOf(init);
      BodiesMore(init, last);
    }
  }

  lemma BodiesMore(init: seq<Expr>, last: Expr)
    ensures (exists i :: 0 <= i < |init + [last]| && ReadsBody((init + [last])[i])) <==>
      ReadsBody(last) || exists i :: 0 <= i < |init| && ReadsBody(init[i])
    ensures AllUsable(init + [last]) <==>
      AllUsable(init) && Usable(last) && !(ReadsBody(last) && exists i :: 0 <= i < |init| && ReadsBody(init[i]))
  {
    var parts := init + [last];
    assert parts[|init|] == last && forall i :: 0 <= i < |init| ==> parts[i] == init[i];
  }

  /** A usable codec decodes every request to what was written down. */
  lemma {:induction false} DecodesMeaning(e: Expr, request: Request)
    requires Validate(CodecOf(e)).None?
    ensures Decode(CodecOf(e), request) == Meaning(e, request)
    decreases e
  {
    match e
    case Zipped(first, second) =>
      DecodesMeaning(first, request);
      DecodesMeaning(second, request);
      ZippedReads(first, second, request);
    case Converted(inner, _) => DecodesMeaning(inner, request);
    case Described(inner, _) => DecodesMeaning(inner, request);
    case Fields(parts) =>
      GatheredUsable(parts);
      FieldsMean(parts, request);
    case _ =>
  }

  lemma ZippedReads(first: Expr, second: Expr, request: Request)
    requires Validate(CodecOf(Zipped(first, second))).None?
    ensures Validate(CodecOf(first)).None? && Validate(CodecOf(second)).None?
    ensures Decode(CodecOf(Zipped(first, second)), request) ==
      match Decode(CodecOf(first), request)
      case Err(error) => Err(error)
      case Ok(value) =>
        match Decode(CodecOf(second), request)
        case Err(error) => Err(error)
        case Ok(also) => Ok(Pair(value, also))
  {}

  lemma {:induction false} ReadFieldsMore<S>(fields: seq<Field<S>>, last: Field<S>, request: Request, into: S)
    ensures ReadFields(fields + [last], request, into) ==
      match ReadFields(fields, request, into)
      case Err(error) => Err(error)
      case Ok(next) => last.decode(request, next)
    decreases |fields|
  {
    var all := fields + [last];
    if fields == [] {
      assert all[0] == last && all[1..] == [];
    } else {
      assert all[1..] == fields[1..] + [last];
      var first := fields[0].decode(request, into);
      if first.Ok? { ReadFieldsMore(fields[1..], last, request, first.value); }
    }
  }

  lemma {:induction false} FieldsMean(parts: seq<Expr>, request: Request)
    requires AllUsable(parts)
    ensures ReadFields(FieldsOf(parts), request, []) == MeaningOfEach(parts, request)
    decreases parts
  {
    if parts != [] {
      var init, last := parts[..|parts| - 1], parts[|parts| - 1];
      assert parts == init + [last];
      BodiesMore(init, last);
      FieldsMean(init, request);
      UsableIff(last);
      DecodesMeaning(last, request);
      ReadFieldsMore(FieldsOf(init), FieldOf(CodecOf(last), Appending()), request, []);
    }
  }

  // ---- No path parameter is absent ----

  predicate LacksPath<A>(outcome: Outcome<A>)
  {
    outcome.Err? && outcome.error.Missing? && outcome.error.parameter.place == InPath
  }

  /** Every path parameter there is a name for has been captured. */
  ghost predicate Bound(parameters: seq<Parameter>, request: Request)
  {
    forall i :: 0 <= i < |parameters| && parameters[i].place == InPath ==> parameters[i].name in request.captures
  }

  ghost predicate Safe<A>(codec: Codec<A>, request: Request)
  {
    codec.decode.Some? && Bound(codec.parameters, request) ==> !LacksPath(codec.decode.value(request))
  }

  ghost predicate FieldSafe<S(!new)>(field: Field<S>, request: Request)
  {
    Bound(field.parameters, request) ==> forall into :: !LacksPath(field.decode(request, into))
  }

  lemma BoundParts(a: seq<Parameter>, b: seq<Parameter>, request: Request)
    ensures Bound(a + b, request) <==> Bound(a, request) && Bound(b, request)
  {
    var both := a + b;
    assert forall i :: 0 <= i < |a| ==> both[i] == a[i];
    assert forall i :: 0 <= i < |b| ==> both[|a| + i] == b[i];
  }

  lemma ZipSafe<A, B>(first: Codec<A>, second: Codec<B>, request: Request)
    requires Safe(first, request) && Safe(second, request)
    ensures Safe(Zip(first, second), request)
  {
    BoundParts(first.parameters, second.parameters, request);
  }

  lemma {:induction false} FieldsSafe<S(!new)>(fields: seq<Field<S>>, request: Request, into: S)
    requires forall i :: 0 <= i < |fields| ==> FieldSafe(fields[i], request) && Bound(fields[i].parameters, request)
    ensures !LacksPath(ReadFields(fields, request, into))
    decreases |fields|
  {
    if fields != [] {
      assert FieldSafe(fields[0], request);
      var first := fields[0].decode(request, into);
      if first.Ok? { FieldsSafe(fields[1..], request, first.value); }
    }
  }

  lemma {:induction false} GatheredBound<S(!new)>(fields: seq<Field<S>>, request: Request)
    requires Bound(Gathered(fields).0, request)
    ensures forall i :: 0 <= i < |fields| ==> Bound(fields[i].parameters, request)
    decreases |fields|
  {
    if fields != [] {
      var init, last := fields[..|fields| - 1], fields[|fields| - 1];
      BoundParts(Gathered(init).0, last.parameters, request);
      GatheredBound(init, request);
      forall i | 0 <= i < |fields| ensures Bound(fields[i].parameters, request) {
        if i < |init| { assert fields[i] == init[i]; }
      }
    }
  }

  lemma StructSafe<S(!new)>(fields: seq<Field<S>>, zero: S, request: Request)
    requires forall i :: 0 <= i < |fields| ==> FieldSafe(fields[i], request)
    ensures Safe(Struct(fields, zero), request)
  {
    if Bound(Gathered(fields).0, request) {
      GatheredBound(fields, request);
      FieldsSafe(fields, request, zero);
    }
  }

  lemma {:induction false} CodecSafe(e: Expr, request: Request)
    ensures Safe(CodecOf(e), request)
    decreases e
  {
    match e
    case Zipped(first, second) =>
      CodecSafe(first, request);
      CodecSafe(second, request);
      ZipSafe(CodecOf(first), CodecOf(second), request);
    case Converted(inner, to) => CodecSafe(inner, request);
    case Described(inner, doc) =>
      CodecSafe(inner, request);
      var codec := CodecOf(inner);
      if |codec.parameters| == 1 {
        assert codec.parameters == [codec.parameters[0]];
        DescribedBound(codec.parameters[0], doc, request);
      }
    case Fields(parts) =>
      PartsSafe(parts, request);
      StructSafe(FieldsOf(parts), [], request);
    case Required(place, name, _, _) => ParameterBound(Parameter(name, place, "", true), request);
    case _ =>
  }

  lemma DescribedBound(p: Parameter, doc: string, request: Request)
    ensures Bound([p], request) <==> Bound([p.(description := doc)], request)
  {
    ParameterBound(p, request);
    ParameterBound(p.(description := doc), request);
  }

  lemma ParameterBound(p: Parameter, request: Request)
    ensures Bound([p], request) <==> (p.place == InPath ==> p.name in request.captures)
  {
    var one := [p];
    assert one[0] == p;
  }

  lemma {:induction false} PartsSafe(parts: seq<Expr>, request: Request)
    ensures forall i :: 0 <= i < |FieldsOf(parts)| ==> FieldSafe(FieldsOf(parts)[i], request)
    decreases parts
  {
    if parts != [] {
      PartsSafe(parts[..|parts| - 1], request);
      CodecSafe(parts[|parts| - 1], request);
    }
  }

  /** No codec so built reads one parameter twice and is still usable. */
  lemma {:induction false} BuiltDistinct(e: Expr)
    requires Validate(CodecOf(e)).None?
    ensures Distinct(CodecOf(e).parameters)
    decreases e
  {
    match e
    case Zipped(first, second) => DuplicateIff(CodecOf(first).parameters + CodecOf(second).parameters);
    case Converted(inner, _) => BuiltDistinct(inner);
    case Fields(parts) => DuplicateIff(Gathered(FieldsOf(parts)).0);
    case _ =>
  }

  /** Over codecs a program can make, Struct and any nest of Zips are usable for the
      same lists. */
  lemma StructValidAsZip<S>(tree: CodecTrees.Tree<Value>, assigns: seq<(S, Value) -> S>, zero: S)
    requires |assigns| == |CodecTrees.Leaves(tree)| && (tree.Leaf? ==> exists e :: tree.codec == CodecOf(e))
    ensures Validate(Struct(CodecTrees.Fields(CodecTrees.Leaves(tree), assigns), zero)).None? <==>
      Validate(CodecTrees.Nested(tree)).None?
  {
    CodecTrees.StructDeclaresAsZip(tree, assigns, zero);
    if tree.Leaf? && Validate(tree.codec).None? {
      var e :| tree.codec == CodecOf(e);
      BuiltDistinct(e);
    }
  }

  // ---- Endpoints ----

  ghost predicate Captures(segments: seq<Segment>, name: string)
  {
    exists i :: 0 <= i < |segments| && segments[i].kind != Literal && segments[i].text == name
  }

  /** Every path parameter is captured by the path. */
  ghost predicate AllCaptured(segments: seq<Segment>, parameters: seq<Parameter>)
  {
    forall j :: 0 <= j < |parameters| && parameters[j].place == InPath ==> Captures(segments, parameters[j].name)
  }

  ghost predicate FirstUncaptured(segments: seq<Segment>, parameters: seq<Parameter>, name: string, j: nat)
    requires j < |parameters|
  {
    && parameters[j].place == InPath && parameters[j].name == name
    && !Captures(segments, name) && AllCaptured(segments, parameters[..j])
  }

  /** validateCaptures: the first path parameter the path does not capture. */
  method ValidateCaptures(segments: seq<Segment>, parameters: seq<Parameter>) returns (uncaptured: Option<string>)
    ensures uncaptured.None? <==> AllCaptured(segments, parameters)
    ensures uncaptured.Some? ==>
      exists j :: 0 <= j < |parameters| && FirstUncaptured(segments, parameters, uncaptured.value, j)
  {
    var captured: set<string> := {};
    for i := 0 to |segments|
      invariant forall name :: name in captured <==> Captures(segments[..i], name)
    {
      CapturesMore(segments, i);
      if segments[i].kind != Literal {
        captured := captured + {segments[i].text};
      }
    }
    assert segments[..|segments|] == segments;
    for j := 0 to |parameters|
      invariant AllCaptured(segments, parameters[..j])
    {
      if parameters[j].place == InPath && parameters[j].name !in captured {
        assert FirstUncaptured(segments, parameters, parameters[j].name, j);
        return Some(parameters[j].name);
      }
      assert forall k :: 0 <= k < j ==> parameters[..j + 1][k] == parameters[..j][k];
    }
    assert parameters[..|parameters|] == parameters;
    uncaptured := None;
  }

  lemma CapturesMore(segments: seq<Segment>, i: nat)
    requires i < |segments|
    ensures forall name :: Captures(segments[..i + 1], name) <==>
      Captures(segments[..i], name) || (segments[i].kind != Literal && segments[i].text == name)
  {
    var more, some := segments[..i + 1], segments[..i];
    forall name ensures Captures(more, name) <==>
      Captures(some, name) || (segments[i].kind != Literal && segments[i].text == name) {
      if k :| 0 <= k < |more| && more[k].kind != Literal && more[k].text == name {
        assert k < i ==> some[k] == more[k];
      }
      if k :| 0 <= k < |some| && some[k].kind != Literal && some[k].text == name { assert more[k] == some[k]; }
      assert more[i] == segments[i];
    }
  }

  /** What an endpoint answers with, as far as declaring it goes. */
  datatype Output = Output(fault: Option<Fault>, encodes: bool, status: int)

  datatype Declaration =
    | Fine
    | NamelessMethod
    | BadPath(mistake: Patterns.Mistake)
    | BadInput(fault: Fault)
    | BadOutput(fault: Fault)
    | NoOutput
    | Unstatused
    | Uncaptured(name: string)

  /** The one verdict on a declaration: the first thing wrong with it, in this order,
      or that nothing is. */
  ghost predicate Rightly(
    r: Declaration, verb: string, pattern: Parsed<seq<Segment>>, input: Codec<Value>, output: Output)
  {
    var named := verb != "" && pattern.Accepted?;
    var readable := named && Validate(input).None?;
    var answering := readable && output.fault.None? && output.encodes;
    var stated := answering && 100 <= output.status <= 599;
    match r
    case NamelessMethod => verb == ""
    case BadPath(mistake) => verb != "" && pattern == Parsed.Refused(mistake)
    case BadInput(fault) => named && Validate(input) == Some(fault)
    case BadOutput(fault) => readable && output.fault == Some(fault)
    case NoOutput => readable && output.fault.None? && !output.encodes
    case Unstatused => answering && !stated
    case Uncaptured(name) =>
      stated && exists j :: 0 <= j < |input.parameters| && FirstUncaptured(pattern.value, input.parameters, name, j)
    case Fine => stated && AllCaptured(pattern.value, input.parameters)
  }

  lemma FirstIsFirst(
    segments: seq<Segment>, parameters: seq<Parameter>, a: string, i: nat, b: string, j: nat)
    requires i < |parameters| && j < |parameters|
    requires FirstUncaptured(segments, parameters, a, i) && FirstUncaptured(segments, parameters, b, j)
    ensures i <= j
  {
  }

  /** No declaration gets two verdicts. */
  lemma OneVerdict(
    r: Declaration, q: Declaration, verb: string, pattern: Parsed<seq<Segment>>, input: Codec<Value>, output: Output)
    requires Rightly(r, verb, pattern, input, output) && Rightly(q, verb, pattern, input, output)
    ensures r == q
  {
    if r.Uncaptured? && q.Uncaptured? {
      var i :| 0 <= i < |input.parameters| && FirstUncaptured(pattern.value, input.parameters, r.name, i);
      var j :| 0 <= j < |input.parameters| && FirstUncaptured(pattern.value, input.parameters, q.name, j);
      FirstIsFirst(pattern.value, input.parameters, r.name, i, q.name, j);
      FirstIsFirst(pattern.value, input.parameters, q.name, j, r.name, i);
    }
  }

  /** firstEndpointFault. */
  method FirstEndpointFault(verb: string, pattern: Parsed<seq<Segment>>, input: Codec<Value>, output: Output)
    returns (r: Declaration)
    ensures Rightly(r, verb, pattern, input, output)
  {
    if verb == "" {
      return NamelessMethod;
    }
    if !pattern.Accepted? {
      return BadPath(pattern.why);
    }
    var fault := Validate(input);
    if fault.Some? {
      return BadInput(fault.value);
    }
    if output.fault.Some? {
      return BadOutput(output.fault.value);
    }
    if !output.encodes {
      return NoOutput;
    }
    if output.status < 100 || output.status > 599 {
      return Unstatused;
    }
    var uncaptured := ValidateCaptures(pattern.value, input.parameters);
    r := if uncaptured.Some? then Uncaptured(uncaptured.value) else Fine;
  }

  /** What a valid endpoint is, once it is a route: its path was parsed and captures
      what its codec reads. */
  ghost predicate Served(route: Route<Expr>)
  {
    && WellFormed(route.segments) && Validate(CodecOf(route.handler)).None?
    && AllCaptured(route.segments, CodecOf(route.handler).parameters)
  }

  /** An endpoint with nothing wrong makes such a route. */
  lemma FineServes(verb: string, path: string, e: Expr, output: Output)
    requires Rightly(Fine, verb, Parse(path), CodecOf(e), output)
    ensures Served(Route(Parse(path).value, verb, e))
  {
    ParseIffRender(path, Parse(path).value);
  }

  lemma MatchBinds(segments: seq<Segment>, parts: seq<string>, name: string)
    requires WellFormed(segments) && Matches(segments, parts)
    ensures name in TreeNodes.Values(Bindings(segments, parts)) <==> Captures(segments, name)
  {
    var bound := Bindings(segments, parts);
    Filling.BindingNames(segments, parts);
    Filling.NamesDistinct(segments);
    forall i, j | 0 <= i < j < |bound| ensures bound[i].name != bound[j].name {
      assert Filling.NamesOf(bound)[i] == bound[i].name && Filling.NamesOf(bound)[j] == bound[j].name;
    }
    Filling.ValuesCarry(bound);
  }

  /** A request that the surface dispatched to a valid endpoint, with the captures
      of its match, is never refused for want of a path parameter. */
  lemma DispatchedHasItsPath(
      routes: seq<Route<Expr>>, path: string, verb: string, answer: Response<Expr>, request: Request)
    requires forall i :: 0 <= i < |routes| ==> Served(routes[i])
    requires Right(answer, routes, path, verb) && answer.Handled? && request.captures == answer.captures
    ensures Validate(CodecOf(answer.handler)).None? && !LacksPath(Decode(CodecOf(answer.handler), request))
  {
    var parts := PathSegments(path);
    var w :| w in routes && Wins(w, routes, parts, verb) && w.handler == answer.handler
             && answer.captures == TreeNodes.Values(Bindings(w.segments, parts));
    assert Served(w);
    var codec := CodecOf(w.handler);
    forall j | 0 <= j < |codec.parameters| && codec.parameters[j].place == InPath
      ensures codec.parameters[j].name in request.captures {
      MatchBinds(w.segments, parts, codec.parameters[j].name);
    }
    CodecSafe(w.handler, request);
  }

  // ---- From declaration to decoding ----

  /** An endpoint as it is declared, and whether it was given a handler. */
  datatype Endpoint = Endpoint(verb: string, path: string, input: Expr, output: Output, handled: bool)

  /** The route of an endpoint: one that was not parsed has no segments, and is faulty. */
  function RouteOf(endpoint: Endpoint): Route<Expr>
  {
    var pattern := Parse(endpoint.path);
    Route(if pattern.Accepted? then pattern.value else [], endpoint.verb, endpoint.input)
  }

  ghost function EndpointRoutes(endpoints: seq<Endpoint>): (r: seq<Route<Expr>>)
    ensures |r| == |endpoints| && forall i :: 0 <= i < |r| ==> r[i] == RouteOf(endpoints[i])
  {
    seq(|endpoints|, i requires 0 <= i < |endpoints| => RouteOf(endpoints[i]))
  }

  /** firstRouteFault finds nothing: the endpoint is fit and has a handler. */
  ghost predicate IsFine(endpoint: Endpoint)
  {
    endpoint.handled && Rightly(Fine, endpoint.verb, Parse(endpoint.path), CodecOf(endpoint.input), endpoint.output)
  }

  method DeclareOne(endpoint: Endpoint) returns (declared: Declared<Expr>)
    ensures declared.route == RouteOf(endpoint) && (declared.faulty <==> !IsFine(endpoint))
  {
    var pattern := ParsePattern(endpoint.path);
    var verdict := FirstEndpointFault(endpoint.verb, pattern, CodecOf(endpoint.input), endpoint.output);
    if IsFine(endpoint) {
      OneVerdict(verdict, Fine, endpoint.verb, pattern, CodecOf(endpoint.input), endpoint.output);
    }
    declared := Declared(RouteOf(endpoint), verdict != Fine || !endpoint.handled);
  }

  /** The endpoints as routes, each with whether its declaration is at fault. */
  method Declare(endpoints: seq<Endpoint>) returns (declared: seq<Declared<Expr>>)
    ensures |declared| == |endpoints|
    ensures forall i :: 0 <= i < |endpoints| ==>
      declared[i].route == RouteOf(endpoints[i]) && (declared[i].faulty <==> !IsFine(endpoints[i]))
  {
    declared := [];
    for i := 0 to |endpoints|
      invariant |declared| == i
      invariant forall k :: 0 <= k < i ==>
        declared[k].route == RouteOf(endpoints[k]) && (declared[k].faulty <==> !IsFine(endpoints[k]))
    {
      var one := DeclareOne(endpoints[i]);
      declared := declared + [one];
    }
  }

  datatype Reply =
    | NotAssembled(why: AssemblyError)
    | NotDispatched(answer: Response<Expr>)
    | Read(outcome: Outcome<Value>)

  /** The reply is what the winning endpoint's codec means, read from a request with
      the captures of its match. */
  ghost predicate ReadsRightly(
    outcome: Outcome<Value>, routes: seq<Route<Expr>>, path: string, verb: string,
    query: string -> Option<string>, header: string -> Option<string>, body: string)
  {
    var parts := PathSegments(path);
    exists w :: w in routes && Wins(w, routes, parts, verb)
      && outcome == Meaning(w.handler, Request(TreeNodes.Values(Bindings(w.segments, parts)), query, header, body))
  }

  /** Declaring endpoints, assembling them, dispatching a request and decoding it: if
      it comes to decoding, the endpoint that wins is read as it was declared and no
      path parameter is missing; if it does not, nothing serves the request; and it
      fails to be assembled only for want of endpoints, for a fault or for a
      conflict. */
  method Respond(
    endpoints: seq<Endpoint>, path: string, verb: string,
    query: string -> Option<string>, header: string -> Option<string>, body: string)
    returns (reply: Reply)
    ensures reply.Read? ==> !LacksPath(reply.outcome)
    ensures reply.Read? ==>
      ReadsRightly(reply.outcome, EndpointRoutes(endpoints), path, verb, query, header, body)
    ensures reply.NotDispatched? ==>
      !reply.answer.Handled? && Right(reply.answer, EndpointRoutes(endpoints), path, verb)
    ensures reply.NotAssembled? <==>
      || endpoints == [] || (exists i :: 0 <= i < |endpoints| && !IsFine(endpoints[i]))
      || !Compatible(EndpointRoutes(endpoints))
  {
    var declared := Declare(endpoints);
    ghost var routes := RoutesOf(declared);
    assert routes == EndpointRoutes(endpoints);
    FineIffCompatible(declared);
    var surface := NewRoutes(true, declared);
    RefusedIff(declared, surface);
    if surface.Refusal? {
      return NotAssembled(surface.why);
    }
    var answer := Handle(surface.tree, routes, path, verb);
    if !answer.Handled? {
      return NotDispatched(answer);
    }
    var request := Request(answer.captures, query, header, body);
    forall i | 0 <= i < |routes| ensures Served(routes[i]) {
      FineServes(endpoints[i].verb, endpoints[i].path, endpoints[i].input, endpoints[i].output);
    }
    DispatchedHasItsPath(routes, path, verb, answer, request);
    DecodesMeaning(answer.handler, request);
    reply := Read(Decode(CodecOf(answer.handler), request));
  }
}
