/** Reading by pairs and reading into a struct, over one list of codecs: they
    accept the same lists, declare the same, and read the same. */
module CodecTrees {
  import opened Strings
  import opened Codecs

  // ---- What a list of codecs reads, however it is combined ----

  function AllParameters<A>(codecs: seq<Codec<A>>): seq<Parameter>
  {
    if codecs == [] then [] else AllParameters(codecs[..|codecs| - 1]) + codecs[|codecs| - 1].parameters
  }

  function EntityOf<A>(codecs: seq<Codec<A>>): Option<Content>
  {
    if codecs == [] then None else FirstEntity(EntityOf(codecs[..|codecs| - 1]), codecs[|codecs| - 1].entity)
  }

  ghost predicate AllValid<A>(codecs: seq<Codec<A>>) { forall i :: 0 <= i < |codecs| ==> Validate(codecs[i]).None? }

  ghost predicate OneEntity<A>(codecs: seq<Codec<A>>)
  {
    forall i, j :: 0 <= i < j < |codecs| ==> codecs[i].entity.None? || codecs[j].entity.None?
  }

  /** The codecs can be read side by side. */
  ghost predicate Sound<A>(codecs: seq<Codec<A>>)
  {
    AllValid(codecs) && OneEntity(codecs) && Distinct(AllParameters(codecs))
  }

  /** The values in turn, or the first error. */
  function ReadEach<A>(codecs: seq<Codec<A>>, request: Request): Outcome<seq<A>>
    requires forall i :: 0 <= i < |codecs| ==> Validate(codecs[i]).None?
  {
    if codecs == [] then Ok([])
    else
      match Decode(codecs[0], request)
      case Err(error) => Err(error)
      case Ok(value) =>
        match ReadEach(codecs[1..], request)
        case Err(error) => Err(error)
        case Ok(values) => Ok([value] + values)
  }

  lemma {:induction false} ParametersConcat<A>(a: seq<Codec<A>>, b: seq<Codec<A>>)
    ensures AllParameters(a + b) == AllParameters(a) + AllParameters(b)
  {
    if b == [] {
      assert a + b == a;
    } else {
      var init, last := b[..|b| - 1], b[|b| - 1];
      assert (a + b)[..|a + b| - 1] == a + init;
      ParametersConcat(a, init);
    }
  }

  lemma {:induction false} EntityConcat<A>(a: seq<Codec<A>>, b: seq<Codec<A>>)
    ensures EntityOf(a + b) == FirstEntity(EntityOf(a), EntityOf(b))
  {
    if b == [] {
      assert a + b == a;
    } else {
      var init, last := b[..|b| - 1], b[|b| - 1];
      assert (a + b)[..|a + b| - 1] == a + init;
      EntityConcat(a, init);
    }
  }

  lemma {:induction false} EntitySomewhere<A>(codecs: seq<Codec<A>>)
    ensures EntityOf(codecs).Some? <==> exists i :: 0 <= i < |codecs| && codecs[i].entity.Some?
  {
    if codecs != [] {
      var init := codecs[..|codecs| - 1];
      EntitySomewhere(init);
      if i :| 0 <= i < |codecs| && codecs[i].entity.Some? {
        assert i < |init| ==> init[i].entity.Some?;
      }
      if i :| 0 <= i < |init| && init[i].entity.Some? { assert codecs[i].entity.Some?; }
    }
  }

  lemma OneEntityConcat<A>(a: seq<Codec<A>>, b: seq<Codec<A>>)
    ensures OneEntity(a + b) <==> OneEntity(a) && OneEntity(b) && (EntityOf(a).None? || EntityOf(b).None?)
  {
    EntitySomewhere(a);
    EntitySomewhere(b);
    var both := a + b;
    assert forall i :: 0 <= i < |a| ==> both[i] == a[i];
    assert forall i :: 0 <= i < |b| ==> both[|a| + i] == b[i];
  }

  lemma {:induction false} ReadEachConcat<A>(a: seq<Codec<A>>, b: seq<Codec<A>>, request: Request)
    requires AllValid(a) && AllValid(b)
    ensures AllValid(a + b)
    ensures ReadEach(a + b, request) ==
      (match ReadEach(a, request)
       case Err(error) => Err(error)
       case Ok(first) => (match ReadEach(b, request) case Err(error) => Err(error) case Ok(rest) => Ok(first + rest)))
  {
    if a == [] {
      assert a + b == b;
      assert ReadEach(b, request).Ok? ==> [] + ReadEach(b, request).value == ReadEach(b, request).value;
    } else {
      assert (a + b)[1..] == a[1..] + b;
      ReadEachConcat(a[1..], b, request);
      if Decode(a[0], request).Ok? && ReadEach(a[1..], request).Ok? && ReadEach(b, request).Ok? {
        var v, s, t := Decode(a[0], request).value, ReadEach(a[1..], request).value, ReadEach(b, request).value;
        assert [v] + (s + t) == ([v] + s) + t;
      }
    }
  }

  lemma Alone<A>(codec: Codec<A>)
    ensures AllParameters([codec]) == codec.parameters && EntityOf([codec]) == codec.entity
    ensures AllValid([codec]) <==> Validate(codec).None?
  {
    var one := [codec];
    assert one[..0] == [] && one[0] == codec;
  }

  // ---- By pairs ----

  /** A way of nesting Zips over a list of codecs. */
  datatype Tree<!A> = Leaf(codec: Codec<A>) | Node(left: Tree<A>, right: Tree<A>)

  /** The nest of products such a way yields; one type for all of them. */
  datatype Nest<A> = One(value: A) | Two(first: Nest<A>, second: Nest<A>)

  function Leaves<A>(tree: Tree<A>): (r: seq<Codec<A>>)
    ensures r != []
  {
    match tree
    case Leaf(codec) => [codec]
    case Node(left, right) => Leaves(left) + Leaves(right)
  }

  function Flat<A>(nest: Nest<A>): seq<A>
  {
    match nest
    case One(value) => [value]
    case Two(first, second) => Flat(first) + Flat(second)
  }

  function Nested<A>(tree: Tree<A>): Codec<Nest<A>>
  {
    match tree
    case Leaf(codec) => Convert(codec, (value: A) => Ok(One(value)))
    case Node(left, right) =>
      Convert(Zip(Nested(left), Nested(right)), (both: (Nest<A>, Nest<A>)) => Ok(Two(both.0, both.1)))
  }

  lemma {:induction false} NestedDeclares<A>(tree: Tree<A>)
    ensures Nested(tree).parameters == AllParameters(Leaves(tree))
    ensures Nested(tree).entity == EntityOf(Leaves(tree))
  {
    match tree
    case Leaf(codec) =>
      Alone(codec);
    case Node(left, right) =>
      NestedDeclares(left);
      NestedDeclares(right);
      ParametersConcat(Leaves(left), Leaves(right));
      EntityConcat(Leaves(left), Leaves(right));
  }

  /** A lone codec is not checked for reading a parameter twice; anything zipped is. */
  lemma {:induction false} NestedValidIff<A>(tree: Tree<A>)
    ensures Validate(Nested(tree)).None? <==>
      AllValid(Leaves(tree)) && OneEntity(Leaves(tree)) && (tree.Node? ==> Distinct(AllParameters(Leaves(tree))))
  {
    match tree
    case Leaf(codec) => assert Leaves(tree)[0] == codec;
    case Node(left, right) =>
      NestedValidIff(left);
      NestedValidIff(right);
      NestedDeclares(left);
      NestedDeclares(right);
      OneEntityConcat(Leaves(left), Leaves(right));
      ParametersConcat(Leaves(left), Leaves(right));
      DuplicateIff(Nested(left).parameters + Nested(right).parameters);
      ValidConcat(Leaves(left), Leaves(right));
      DistinctParts(AllParameters(Leaves(left)), AllParameters(Leaves(right)));
  }

  lemma ValidConcat<A>(a: seq<Codec<A>>, b: seq<Codec<A>>)
    ensures AllValid(a + b) <==> AllValid(a) && AllValid(b)
  {
    assert forall i :: 0 <= i < |a| ==> (a + b)[i] == a[i];
    assert forall i :: 0 <= i < |b| ==> (a + b)[|a| + i] == b[i];
  }

  lemma DistinctParts(a: seq<Parameter>, b: seq<Parameter>)
    ensures Distinct(a + b) ==> Distinct(a) && Distinct(b)
  {
    var both := a + b;
    assert forall i :: 0 <= i < |a| ==> both[i] == a[i];
    assert forall i :: 0 <= i < |b| ==> both[|a| + i] == b[i];
  }

  /** What a nest of Zips reads is what its codecs read in turn. */
  lemma {:induction false} NestedReads<A>(tree: Tree<A>, request: Request)
    requires Validate(Nested(tree)).None?
    ensures AllValid(Leaves(tree))
    ensures match ReadEach(Leaves(tree), request)
      case Err(error) => Decode(Nested(tree), request) == Err(error)
      case Ok(values) => Decode(Nested(tree), request).Ok? && Flat(Decode(Nested(tree), request).value) == values
  {
    NestedValidIff(tree);
    match tree
    case Leaf(codec) => assert Leaves(tree) == [codec] && Leaves(tree)[1..] == [];
    case Node(left, right) =>
      NestedReads(left, request);
      NestedReads(right, request);
      ReadEachConcat(Leaves(left), Leaves(right), request);
  }

  // ---- Into a struct ----

  function Fields<S, A>(codecs: seq<Codec<A>>, assigns: seq<(S, A) -> S>): (r: seq<Field<S>>)
    requires |codecs| == |assigns|
    ensures |r| == |codecs| && forall i :: 0 <= i < |r| ==> r[i] == FieldOf(codecs[i], assigns[i])
  {
    seq(|codecs|, i requires 0 <= i < |codecs| => FieldOf(codecs[i], assigns[i]))
  }

  /** Each value assigned in turn. */
  function Assembled<S, A>(assigns: seq<(S, A) -> S>, values: seq<A>, into: S): S
    requires |values| == |assigns|
  {
    if assigns == [] then into else Assembled(assigns[1..], values[1..], assigns[0](into, values[0]))
  }

  lemma {:induction false} GatheredIs<S, A>(codecs: seq<Codec<A>>, assigns: seq<(S, A) -> S>)
    requires |codecs| == |assigns|
    ensures var (parameters, entity, fault) := Gathered(Fields(codecs, assigns));
      && parameters == AllParameters(codecs) && entity == EntityOf(codecs)
      && (fault.None? <==> AllValid(codecs) && OneEntity(codecs))
  {
    if codecs != [] {
      var init, last := codecs[..|codecs| - 1], codecs[|codecs| - 1];
      GatheredIs(init, assigns[..|codecs| - 1]);
      assert Fields(codecs, assigns)[..|codecs| - 1] == Fields(init, assigns[..|codecs| - 1]);
      assert codecs == init + [last];
      ValidConcat(init, [last]);
      OneEntityConcat(init, [last]);
      Alone(last);
    }
  }

  lemma {:induction false} FieldsRead<S, A>(codecs: seq<Codec<A>>, assigns: seq<(S, A) -> S>, request: Request, into: S)
    requires |codecs| == |assigns| && AllValid(codecs)
    ensures ReadEach(codecs, request).Ok? ==> |ReadEach(codecs, request).value| == |codecs|
    ensures ReadFields(Fields(codecs, assigns), request, into) ==
      match ReadEach(codecs, request)
      case Err(error) => Err(error)
      case Ok(values) => Ok(Assembled(assigns, values, into))
  {
    if codecs != [] {
      var fields := Fields(codecs, assigns);
      assert fields[1..] == Fields(codecs[1..], assigns[1..]);
      var first := Decode(codecs[0], request);
      assert fields[0].decode(request, into) == ReadInto(codecs[0], assigns[0], request, into);
      if first.Ok? {
        FieldsRead(codecs[1..], assigns[1..], request, assigns[0](into, first.value));
        var rest := ReadEach(codecs[1..], request);
        if rest.Ok? { assert ([first.value] + rest.value)[1..] == rest.value; }
      } else {
        FieldsRead(codecs[1..], assigns[1..], request, into);
      }
    }
  }

  lemma StructValidIff<S, A>(codecs: seq<Codec<A>>, assigns: seq<(S, A) -> S>, zero: S)
    requires |codecs| == |assigns|
    ensures Validate(Struct(Fields(codecs, assigns), zero)).None? <==> Sound(codecs)
  {
    GatheredIs(codecs, assigns);
    DuplicateIff(AllParameters(codecs));
  }

  /** Struct and any nest of Zips over the same codecs declare the same parameters in
      the same order and the same entity, and are usable for the same lists; a lone
      codec is the exception, when it reads a parameter twice itself. */
  lemma StructDeclaresAsZip<S, A>(tree: Tree<A>, assigns: seq<(S, A) -> S>, zero: S)
    requires |assigns| == |Leaves(tree)|
    ensures var s, z := Struct(Fields(Leaves(tree), assigns), zero), Nested(tree);
      && s.parameters == z.parameters && s.entity == z.entity
      && ((Validate(s).None? <==> Validate(z).None?) <==>
          (tree.Leaf? && Validate(tree.codec).None? ==> Distinct(tree.codec.parameters)))
  {
    GatheredIs(Leaves(tree), assigns);
    NestedDeclares(tree);
    NestedValidIff(tree);
    StructValidIff(Leaves(tree), assigns, zero);
    if tree.Leaf? {
      assert Leaves(tree)[0] == tree.codec;
      assert Nested(tree).parameters == tree.codec.parameters;
    }
  }

  /** The values of one are those of the other, each assigned in turn; or both end
      in the one error. */
  ghost predicate SameReading<S, A>(nested: Outcome<Nest<A>>, read: Outcome<S>, assigns: seq<(S, A) -> S>, zero: S)
  {
    if nested.Err? then read == Err(nested.error)
    else |Flat(nested.value)| == |assigns| && read == Ok(Assembled(assigns, Flat(nested.value), zero))
  }

  /** On every request they give the same values, or the same first error. */
  lemma StructReadsAsZip<S, A>(tree: Tree<A>, assigns: seq<(S, A) -> S>, zero: S, request: Request)
    requires |assigns| == |Leaves(tree)|
    requires Validate(Struct(Fields(Leaves(tree), assigns), zero)).None?
    ensures Validate(Nested(tree)).None?
    ensures SameReading(Decode(Nested(tree), request), Decode(Struct(Fields(Leaves(tree), assigns), zero), request),
      assigns, zero)
  {
    StructValidIff(Leaves(tree), assigns, zero);
    NestedValidIff(tree);
    NestedReads(tree, request);
    FieldsRead(Leaves(tree), assigns, request, zero);
  }

  // ---- Which fault is reported ----

  /** The codec at i is at fault, and those before it can be read side by side. */
  ghost predicate FirstFaulty<A>(codecs: seq<Codec<A>>, i: nat)
  {
    i < |codecs| && Validate(codecs[i]).Some? && Sound(codecs[..i])
  }

  lemma {:induction false} NestReportsFirst<A>(tree: Tree<A>, i: nat)
    requires FirstFaulty(Leaves(tree), i)
    ensures Validate(Nested(tree)) == Validate(Leaves(tree)[i])
  {
    match tree
    case Leaf(codec) =>
    case Node(left, right) =>
      var a, b := Leaves(left), Leaves(right);
      if i < |a| {
        assert (a + b)[..i] == a[..i];
        NestReportsFirst(left, i);
      } else {
        var before := b[..i - |a|];
        assert (a + b)[..i] == a + before;
        ValidConcat(a, before);
        OneEntityConcat(a, before);
        ParametersConcat(a, before);
        DistinctParts(AllParameters(a), AllParameters(before));
        NestedValidIff(left);
        NestReportsFirst(right, i - |a|);
      }
  }

  lemma {:induction false} StructReportsFirst<S, A>(codecs: seq<Codec<A>>, assigns: seq<(S, A) -> S>, i: nat)
    requires |codecs| == |assigns| && FirstFaulty(codecs, i)
    ensures Gathered(Fields(codecs, assigns)).2 == Validate(codecs[i])
  {
    var n := |codecs| - 1;
    assert Fields(codecs, assigns)[..n] == Fields(codecs[..n], assigns[..n]);
    if i < n {
      assert codecs[..n][..i] == codecs[..i];
      StructReportsFirst(codecs[..n], assigns[..n], i);
    } else {
      GatheredIs(codecs[..n], assigns[..n]);
    }
  }

  /** The first codec at fault, when those before it can be read side by side, is what
      both are refused for. */
  lemma FaultIsFirst<S, A>(tree: Tree<A>, assigns: seq<(S, A) -> S>, zero: S, i: nat)
    requires |assigns| == |Leaves(tree)| && FirstFaulty(Leaves(tree), i)
    ensures Validate(Nested(tree)) == Validate(Leaves(tree)[i])
      == Validate(Struct(Fields(Leaves(tree), assigns), zero))
  {
    NestReportsFirst(tree, i);
    StructReportsFirst(Leaves(tree), assigns, i);
  }
}
