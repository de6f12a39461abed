/** Message headers to and from a protocol's own values: the field tables of
    0-9-1 (amqp091/field_values.go) and the application properties of 1.0
    (amqp10/property_values.go), which differ in the kinds they know. */
module FieldValues {
  import opened Strings

  datatype Protocol = Amqp091 | Amqp10

  // ---- The universal representation ----

  datatype Field = Field(name: string, value: Value)

  datatype Value =
    | Absent
    | Boolean(truth: bool)
    | Integer(number: int)
    | Number(amount: real)
    | Text(text: string)
    | Bytes(bytes: seq<int>)
    | Timestamp(instant: int)
    | Object(fields: seq<Field>)
    | List(elements: seq<Value>)

  // ---- What a library holds ----

  datatype Width = I8 | I16 | I32 | I64 | Int | U8 | U16 | U32 | U64

  datatype Precision = F32 | F64

  /** A value behind the top type. A table of the 0-9-1 library's own named type is
      named; a nil table and an empty one read the same and are one here. */
  datatype Raw =
    | Nil
    | RawBool(truth: bool)
    | RawInt(width: Width, number: int)
    | RawFloat(precision: Precision, amount: real)
    | RawString(text: string)
    | RawUuid(text: string)
    | RawBytes(bytes: seq<int>)
    | RawTime(instant: int)
    | RawTable(named: bool, entries: map<string, Raw>)
    | RawList(elements: seq<Raw>)
    | RawOther(kind: string)

  datatype Result<+T> = Ok(value: T) | Unsupported

  predicate Knows(p: Protocol, width: Width)
  {
    match width
    case U8 => p == Amqp10
    case U16 => p == Amqp10
    case U32 => p == Amqp10
    case U64 => false
    case _ => true
  }

  // ---- Out: fieldOf and propertyOf ----

  function Encoded(p: Protocol, v: Value): Raw
    decreases v
  {
    match v
    case Absent => Nil
    case Boolean(truth) => RawBool(truth)
    case Integer(number) => RawInt(I64, number)
    case Number(amount) => RawFloat(F64, amount)
    case Text(text) => RawString(text)
    case Bytes(bytes) => RawBytes(bytes)
    case Timestamp(instant) => RawTime(instant)
    case Object(fields) => RawTable(p == Amqp091, EncodedFields(p, fields))
    case List(elements) => RawList(EncodedList(p, elements))
  }

  /** A later field of the same name takes the place of an earlier one. */
  function EncodedFields(p: Protocol, fields: seq<Field>): map<string, Raw>
    decreases fields
  {
    if fields == [] then map[]
    else
      var last := fields[|fields| - 1];
      EncodedFields(p, fields[..|fields| - 1])[last.name := Encoded(p, last.value)]
  }

  function EncodedList(p: Protocol, elements: seq<Value>): seq<Raw>
    decreases elements
  {
    if elements == [] then []
    else EncodedList(p, elements[..|elements| - 1]) + [Encoded(p, elements[|elements| - 1])]
  }

  // ---- In: fieldValue and propertyValue ----

  /** The names of a table, in order. */
  ghost function InOrder(names: set<string>): (r: seq<string>)
    ensures IsSorted(r) && multiset(r) == multiset(names)
  {
    if names == {} then []
    else
      var name :| name in names;
      assert multiset(names) == multiset(names - {name}) + multiset{name};
      Insert(name, InOrder(names - {name}))
  }

  ghost function Decoded(p: Protocol, raw: Raw): Result<Value>
    decreases raw, 1, 0
  {
    match raw
    case Nil => Ok(Absent)
    case RawBool(truth) => Ok(Boolean(truth))
    case RawInt(width, number) => if Knows(p, width) then Ok(Integer(number)) else Unsupported
    case RawFloat(_, amount) => Ok(Number(amount))
    case RawString(text) => Ok(Text(text))
    case RawUuid(text) => if p == Amqp10 then Ok(Text(text)) else Unsupported
    case RawBytes(bytes) => Ok(Bytes(bytes))
    case RawTime(instant) => Ok(Timestamp(instant))
    case RawTable(named, entries) =>
      if named && p == Amqp10 then Unsupported else DecodedTable(p, raw)
    case RawList(elements) =>
      (match DecodedList(p, elements)
       case Ok(values) => Ok(List(values))
       case Unsupported => Unsupported)
    case RawOther(_) => Unsupported
  }

  ghost function DecodedTable(p: Protocol, raw: Raw): Result<Value>
    requires raw.RawTable?
    decreases raw, 0, |InOrder(raw.entries.Keys)| + 1
  {
    InOrderHolds(raw.entries.Keys);
    match DecodedNames(p, raw, InOrder(raw.entries.Keys))
    case Ok(fields) => Ok(Object(fields))
    case Unsupported => Unsupported
  }

  lemma InOrderHolds(names: set<string>)
    ensures forall name :: name in InOrder(names) <==> name in names
  {
    forall name ensures name in InOrder(names) <==> name in names {
      assert name in InOrder(names) <==> name in multiset(InOrder(names));
    }
  }

  ghost function DecodedNames(p: Protocol, raw: Raw, names: seq<string>): Result<seq<Field>>
    requires raw.RawTable? && forall name :: name in names ==> name in raw.entries
    decreases raw, 0, |names|
  {
    if names == [] then Ok([])
    else
      var last := names[|names| - 1];
      match DecodedNames(p, raw, names[..|names| - 1])
      case Unsupported => Unsupported
      case Ok(fields) =>
        match Decoded(p, raw.entries[last])
        case Unsupported => Unsupported
        case Ok(value) => Ok(fields + [Field(last, value)])
  }

  ghost function DecodedList(p: Protocol, elements: seq<Raw>): Result<seq<Value>>
    decreases elements, 0, 0
  {
    if elements == [] then Ok([])
    else
      match DecodedList(p, elements[..|elements| - 1])
      case Unsupported => Unsupported
      case Ok(values) =>
        match Decoded(p, elements[|elements| - 1])
        case Unsupported => Unsupported
        case Ok(value) => Ok(values + [value])
  }

  // ---- The recursive normal form ----

  predicate Before(a: string, b: string) { a != b && AtMost(a, b) }

  ghost predicate Ascending(fields: seq<Field>)
  {
    forall i, j :: 0 <= i < j < |fields| ==> Before(fields[i].name, fields[j].name)
  }

  /** A field in its place by name, instead of any of the same name. */
  function Put(fields: seq<Field>, one: Field): seq<Field>
  {
    if fields == [] then [one]
    else if one.name == fields[0].name then [one] + fields[1..]
    else if AtMost(one.name, fields[0].name) then [one] + fields
    else [fields[0]] + Put(fields[1..], one)
  }

  function Normal(v: Value): Value
    decreases v
  {
    match v
    case Object(fields) => Object(NormalFields(fields))
    case List(elements) => List(NormalList(elements))
    case _ => v
  }

  function NormalFields(fields: seq<Field>): seq<Field>
    decreases fields
  {
    if fields == [] then []
    else
      var last := fields[|fields| - 1];
      Put(NormalFields(fields[..|fields| - 1]), Field(last.name, Normal(last.value)))
  }

  function NormalList(elements: seq<Value>): seq<Value>
    decreases elements
  {
    if elements == [] then []
    else NormalList(elements[..|elements| - 1]) + [Normal(elements[|elements| - 1])]
  }

  /** Sorted by name and free of duplicates, at every level. */
  ghost predicate IsNormal(v: Value)
    decreases v
  {
    match v
    case Object(fields) => Ascending(fields) && forall i :: 0 <= i < |fields| ==> IsNormal(fields[i].value)
    case List(elements) => forall i :: 0 <= i < |elements| ==> IsNormal(elements[i])
    case _ => true
  }

  // ---- Putting a field in its place ----

  lemma {:induction false} PutHolds(fields: seq<Field>, one: Field, f: Field)
    requires Ascending(fields)
    ensures f in Put(fields, one) <==> f == one || (f in fields && f.name != one.name)
  {
    if fields != [] && one.name != fields[0].name && !AtMost(one.name, fields[0].name) {
      PutHolds(fields[1..], one, f);
    }
    if fields != [] {
      assert fields == [fields[0]] + fields[1..];
      if AtMost(one.name, fields[0].name) && one.name != fields[0].name && f in fields {
        NoneEqual(fields, one.name, f);
      }
    }
  }

  lemma NoneEqual(fields: seq<Field>, name: string, f: Field)
    requires Ascending(fields) && fields != [] && Before(name, fields[0].name) && f in fields
    ensures f.name != name
  {
    var i :| 0 <= i < |fields| && fields[i] == f;
    if i > 0 && f.name == name { AtMostAntisymmetric(name, fields[0].name); }
  }

  lemma {:induction false} PutAscends(fields: seq<Field>, one: Field)
    requires Ascending(fields)
    ensures Ascending(Put(fields, one))
  {
    if fields != [] {
      AtMostTotal(one.name, fields[0].name);
      if one.name != fields[0].name && !AtMost(one.name, fields[0].name) {
        PutAscends(fields[1..], one);
        var rest := Put(fields[1..], one);
        forall j | 0 <= j < |rest| ensures Before(fields[0].name, rest[j].name) {
          PutHolds(fields[1..], one, rest[j]);
        }
      } else if one.name != fields[0].name {
        forall j | 0 <= j < |fields| ensures Before(one.name, fields[j].name) {
          if j > 0 { BeforeTransitive(one.name, fields[0].name, fields[j].name); }
        }
      }
    }
  }

  lemma BeforeTransitive(a: string, b: string, c: string)
    requires Before(a, b) && Before(b, c)
    ensures Before(a, c)
  {
    AtMostTransitive(a, b, c);
    if a == c { AtMostAntisymmetric(a, b); }
  }

  lemma {:induction false} PutLast(fields: seq<Field>, one: Field)
    requires forall i :: 0 <= i < |fields| ==> Before(fields[i].name, one.name)
    ensures Put(fields, one) == fields + [one]
  {
    if fields != [] {
      if AtMost(one.name, fields[0].name) { AtMostAntisymmetric(one.name, fields[0].name); }
      PutLast(fields[1..], one);
      assert fields == [fields[0]] + fields[1..];
    }
  }

  // ---- Normal forms ----

  lemma {:induction false} NormalIsNormal(v: Value)
    ensures IsNormal(Normal(v))
    decreases v
  {
    match v
    case Object(fields) => NormalFieldsAre(fields);
    case List(elements) => NormalListIs(elements);
    case _ =>
  }

  lemma {:induction false} NormalFieldsAre(fields: seq<Field>)
    ensures Ascending(NormalFields(fields)) && forall f :: f in NormalFields(fields) ==> IsNormal(f.value)
    decreases fields
  {
    if fields != [] {
      var init, last := fields[..|fields| - 1], fields[|fields| - 1];
      NormalFieldsAre(init);
      NormalIsNormal(last.value);
      var one := Field(last.name, Normal(last.value));
      PutAscends(NormalFields(init), one);
      forall f | f in NormalFields(fields) ensures IsNormal(f.value) { PutHolds(NormalFields(init), one, f); }
    }
  }

  lemma {:induction false} NormalListIs(elements: seq<Value>)
    ensures |NormalList(elements)| == |elements|
    ensures forall i :: 0 <= i < |elements| ==> IsNormal(NormalList(elements)[i])
    decreases elements
  {
    if elements != [] {
      NormalListIs(elements[..|elements| - 1]);
      NormalIsNormal(elements[|elements| - 1]);
    }
  }

  /** Normal forms are left alone. */
  lemma {:induction false} NormalFixed(v: Value)
    requires IsNormal(v)
    ensures Normal(v) == v
    decreases v
  {
    match v
    case Object(fields) => NormalFieldsFixed(fields);
    case List(elements) => NormalListFixed(elements);
    case _ =>
  }

  lemma {:induction false} NormalFieldsFixed(fields: seq<Field>)
    requires Ascending(fields) && forall i :: 0 <= i < |fields| ==> IsNormal(fields[i].value)
    ensures NormalFields(fields) == fields
    decreases fields
  {
    if fields != [] {
      var init, last := fields[..|fields| - 1], fields[|fields| - 1];
      NormalFieldsFixed(init);
      NormalFixed(last.value);
      PutLast(init, last);
      assert fields == init + [last];
    }
  }

  lemma {:induction false} NormalListFixed(elements: seq<Value>)
    requires forall i :: 0 <= i < |elements| ==> IsNormal(elements[i])
    ensures NormalList(elements) == elements
    decreases elements
  {
    if elements != [] {
      var init, last := elements[..|elements| - 1], elements[|elements| - 1];
      NormalListFixed(init);
      NormalFixed(last);
      assert elements == init + [last];
    }
  }

  /** The last field of its name, normalised, is f. */
  ghost predicate LastIs(fields: seq<Field>, f: Field, i: nat)
  {
    && i < |fields| && fields[i].name == f.name && Normal(fields[i].value) == f.value
    && forall j :: i < j < |fields| ==> fields[j].name != f.name
  }

  /** The fields of a normal object: one per name, the value that of the last field
      so named. */
  lemma {:induction false} NormalKeepsLast(fields: seq<Field>, f: Field)
    ensures f in NormalFields(fields) <==> exists i: nat :: LastIs(fields, f, i)
    decreases |fields|
  {
    if fields != [] {
      var init, last := fields[..|fields| - 1], fields[|fields| - 1];
      NormalKeepsLast(init, f);
      NormalFieldsAre(init);
      PutHolds(NormalFields(init), Field(last.name, Normal(last.value)), f);
      LastOfMore(init, last, f);
      assert fields == init + [last];
    }
  }

  lemma LastOfMore(init: seq<Field>, last: Field, f: Field)
    ensures (exists i: nat :: LastIs(init + [last], f, i)) <==>
      f == Field(last.name, Normal(last.value)) || (f.name != last.name && exists i: nat :: LastIs(init, f, i))
  {
    var fields := init + [last];
    if i: nat :| LastIs(fields, f, i) && i < |init| {
      assert fields[|init|] == last;
      assert LastIs(init, f, i) by { assert forall j :: i < j < |init| ==> fields[j] == init[j]; }
    }
    if f == Field(last.name, Normal(last.value)) { assert LastIs(fields, f, |init|); }
    if i: nat :| LastIs(init, f, i) && f.name != last.name { assert LastIs(fields, f, i); }
  }

  // ---- Out and back in ----

  function NamesOf(fields: seq<Field>): (r: seq<string>)
    ensures |r| == |fields| && forall i :: 0 <= i < |r| ==> r[i] == fields[i].name
  {
    seq(|fields|, i requires 0 <= i < |fields| => fields[i].name)
  }

  /** A table and an ascending list of fields that say the same. */
  ghost predicate Reads(p: Protocol, entries: map<string, Raw>, fields: seq<Field>)
  {
    && Ascending(fields)
    && (forall name :: name in entries <==> name in NamesOf(fields))
    && (forall f :: f in fields ==> ReadsAt(p, entries, f))
  }

  ghost predicate ReadsAt(p: Protocol, entries: map<string, Raw>, f: Field)
  {
    f.name in entries && Decoded(p, entries[f.name]) == Ok(f.value)
  }

  lemma AscendingIsInOrder(fields: seq<Field>, names: set<string>)
    requires Ascending(fields) && forall name :: name in names <==> name in NamesOf(fields)
    ensures InOrder(names) == NamesOf(fields)
  {
    var a := NamesOf(fields);
    forall i, j | 0 <= i < j < |a| ensures AtMost(a[i], a[j]) && a[i] != a[j] {
      assert Before(fields[i].name, fields[j].name);
    }
    DistinctIsSet(a, names);
    SortedUnique(InOrder(names), a);
  }

  lemma {:induction false} DistinctIsSet(a: seq<string>, names: set<string>)
    requires forall i, j :: 0 <= i < j < |a| ==> a[i] != a[j]
    requires forall name :: name in names <==> name in a
    ensures multiset(a) == multiset(names)
  {
    if a == [] {
      assert names == {};
    } else {
      var init, last := a[..|a| - 1], a[|a| - 1];
      assert a == init + [last];
      DistinctIsSet(init, names - {last});
      assert multiset(a) == multiset(init) + multiset{last};
      assert multiset(names) == multiset(names - {last}) + multiset{last};
    }
  }

  lemma {:induction false} ReadsByName(p: Protocol, raw: Raw, fields: seq<Field>)
    requires raw.RawTable?
    requires forall f :: f in fields ==> ReadsAt(p, raw.entries, f)
    ensures (forall name :: name in NamesOf(fields) ==> name in raw.entries)
      && DecodedNames(p, raw, NamesOf(fields)) == Ok(fields)
  {
    if fields != [] {
      var init, last := fields[..|fields| - 1], fields[|fields| - 1];
      assert fields == init + [last] && last in fields;
      ReadsByName(p, raw, init);
      assert NamesOf(fields)[..|fields| - 1] == NamesOf(init);
    }
    forall name | name in NamesOf(fields) ensures name in raw.entries {
      var i :| 0 <= i < |fields| && fields[i].name == name;
    }
  }

  lemma ReadsDecodes(p: Protocol, named: bool, entries: map<string, Raw>, fields: seq<Field>)
    requires Reads(p, entries, fields)
    ensures DecodedTable(p, RawTable(named, entries)) == Ok(Object(fields))
  {
    AscendingIsInOrder(fields, entries.Keys);
    ReadsByName(p, RawTable(named, entries), fields);
  }

  lemma RoundTripScalar(p: Protocol, v: Value)
    requires !v.Object? && !v.List?
    ensures Decoded(p, Encoded(p, v)) == Ok(v)
  {
  }

  /** Headers(Table(o)) is the normal form of o. */
  lemma {:induction false} RoundTrip(p: Protocol, v: Value)
    ensures Decoded(p, Encoded(p, v)) == Ok(Normal(v))
    decreases v
  {
    if v.Object? {
      RoundTripFields(p, v.fields);
      ReadsDecodes(p, p == Amqp091, EncodedFields(p, v.fields), NormalFields(v.fields));
    } else if v.List? {
      RoundTripList(p, v.elements);
    } else {
      RoundTripScalar(p, v);
    }
  }

  lemma {:induction false} RoundTripFields(p: Protocol, fields: seq<Field>)
    ensures Reads(p, EncodedFields(p, fields), NormalFields(fields))
    decreases fields
  {
    if fields != [] {
      var init, last := fields[..|fields| - 1], fields[|fields| - 1];
      RoundTripFields(p, init);
      RoundTrip(p, last.value);
      PutReads(p, EncodedFields(p, init), NormalFields(init), Field(last.name, Normal(last.value)),
        Encoded(p, last.value));
    }
  }

  lemma PutReads(p: Protocol, entries: map<string, Raw>, fields: seq<Field>, one: Field, raw: Raw)
    requires Reads(p, entries, fields) && Decoded(p, raw) == Ok(one.value)
    ensures Reads(p, entries[one.name := raw], Put(fields, one))
  {
    PutAscends(fields, one);
    forall name ensures name in NamesOf(Put(fields, one)) <==> name == one.name || name in NamesOf(fields) {
      PutNames(fields, one, name);
    }
    forall f | f in Put(fields, one) ensures ReadsAt(p, entries[one.name := raw], f) {
      PutHolds(fields, one, f);
      assert f == one || ReadsAt(p, entries, f);
    }
  }

  lemma PutNames(fields: seq<Field>, one: Field, name: string)
    requires Ascending(fields)
    ensures name in NamesOf(Put(fields, one)) <==> name == one.name || name in NamesOf(fields)
  {
    var more := Put(fields, one);
    NamesHold(more, name);
    NamesHold(fields, name);
    if f :| f in more && f.name == name { PutHolds(fields, one, f); }
    if name == one.name { PutHolds(fields, one, one); }
    else if f :| f in fields && f.name == name { PutHolds(fields, one, f); }
  }

  lemma NamesHold(fields: seq<Field>, name: string)
    ensures name in NamesOf(fields) <==> exists f :: f in fields && f.name == name
  {
    if name in NamesOf(fields) {
      var i :| 0 <= i < |fields| && NamesOf(fields)[i] == name;
      assert fields[i] in fields;
    }
    if f :| f in fields && f.name == name {
      var i :| 0 <= i < |fields| && fields[i] == f;
      assert NamesOf(fields)[i] == name;
    }
  }

  lemma {:induction false} RoundTripList(p: Protocol, elements: seq<Value>)
    ensures DecodedList(p, EncodedList(p, elements)) == Ok(NormalList(elements))
    decreases elements
  {
    if elements != [] {
      var init := elements[..|elements| - 1];
      RoundTripList(p, init);
      RoundTrip(p, elements[|elements| - 1]);
      assert EncodedList(p, elements)[..|EncodedList(p, init)|] == EncodedList(p, init);
    }
  }

  // ---- What can be read ----

  /** Nothing inside is of a kind the protocol's reader does not know. */
  ghost predicate Supported(p: Protocol, raw: Raw)
    decreases raw
  {
    match raw
    case RawInt(width, _) => width in {I8, I16, I32, I64, Int} || (p == Amqp10 && width in {U8, U16, U32})
    case RawUuid(_) => p == Amqp10
    case RawTable(named, entries) =>
      (named ==> p == Amqp091) && forall name :: name in entries ==> Supported(p, entries[name])
    case RawList(elements) => forall i :: 0 <= i < |elements| ==> Supported(p, elements[i])
    case RawOther(_) => false
    case _ => true
  }

  /** Reading fails exactly when there is something it cannot carry. */
  lemma {:induction false} ReadsIffSupported(p: Protocol, raw: Raw)
    ensures Decoded(p, raw).Ok? <==> Supported(p, raw)
    decreases raw, 1, 0
  {
    if raw.RawTable? {
      InOrderHolds(raw.entries.Keys);
      NamesReadIff(p, raw, InOrder(raw.entries.Keys));
    } else if raw.RawList? {
      ListReadsIff(p, raw.elements);
    }
  }

  lemma {:induction false} NamesReadIff(p: Protocol, raw: Raw, names: seq<string>)
    requires raw.RawTable? && forall name :: name in names ==> name in raw.entries
    ensures DecodedNames(p, raw, names).Ok? <==> forall name :: name in names ==> Supported(p, raw.entries[name])
    decreases raw, 0, |names|
  {
    if names != [] {
      var init, last := names[..|names| - 1], names[|names| - 1];
      assert names == init + [last];
      NamesReadIff(p, raw, init);
      ReadsIffSupported(p, raw.entries[last]);
    }
  }

  lemma {:induction false} ListReadsIff(p: Protocol, elements: seq<Raw>)
    ensures DecodedList(p, elements).Ok? <==> forall i :: 0 <= i < |elements| ==> Supported(p, elements[i])
    decreases elements, 0, 0
  {
    if elements != [] {
      ListReadsIff(p, elements[..|elements| - 1]);
      ReadsIffSupported(p, elements[|elements| - 1]);
      assert elements == elements[..|elements| - 1] + [elements[|elements| - 1]];
    }
  }

  lemma {:induction false} NamesRead(p: Protocol, raw: Raw, names: seq<string>)
    requires raw.RawTable? && (forall name :: name in names ==> name in raw.entries) && DecodedNames(p, raw, names).Ok?
    ensures NamesOf(DecodedNames(p, raw, names).value) == names
    ensures forall f :: f in DecodedNames(p, raw, names).value ==> ReadsAt(p, raw.entries, f)
    decreases |names|
  {
    if names != [] { NamesRead(p, raw, names[..|names| - 1]); }
  }

  /** A table that can be read loses no key: its object has the table's names, each
      once and in order, with the value read from that entry. */
  lemma HeadersDropNothing(p: Protocol, raw: Raw)
    requires raw.RawTable? && DecodedTable(p, raw).Ok?
    ensures DecodedTable(p, raw).value.Object? && Reads(p, raw.entries, DecodedTable(p, raw).value.fields)
  {
    var names := InOrder(raw.entries.Keys);
    InOrderHolds(raw.entries.Keys);
    NamesRead(p, raw, names);
    var fields := DecodedNames(p, raw, names).value;
    forall i, j | 0 <= i < j < |fields| ensures Before(fields[i].name, fields[j].name) {
      InOrderDistinct(raw.entries.Keys, i, j);
      assert NamesOf(fields)[i] == names[i] && NamesOf(fields)[j] == names[j];
    }
  }

  lemma InOrderDistinct(names: set<string>, i: nat, j: nat)
    requires i < j < |InOrder(names)|
    ensures InOrder(names)[i] != InOrder(names)[j]
  {
    var r := InOrder(names);
    if r[i] == r[j] { CountedTwice(r, i, j); }
  }

  // ---- In and back out ----

  /** The same value at the widest width, a UUID as its text, and every table of
      the protocol's own table type. */
  function Widened(p: Protocol, raw: Raw): Raw
    decreases raw
  {
    match raw
    case RawInt(_, number) => RawInt(I64, number)
    case RawFloat(_, amount) => RawFloat(F64, amount)
    case RawUuid(text) => RawString(text)
    case RawTable(_, entries) => RawTable(p == Amqp091, map name | name in entries :: Widened(p, entries[name]))
    case RawList(elements) => RawList(seq(|elements|, i requires 0 <= i < |elements| => Widened(p, elements[i])))
    case _ => raw
  }

  lemma ForwardedScalar(p: Protocol, raw: Raw)
    requires Decoded(p, raw).Ok? && !raw.RawTable? && !raw.RawList?
    ensures Encoded(p, Decoded(p, raw).value) == Widened(p, raw)
  {
  }

  lemma ForwardedTable(p: Protocol, raw: Raw, names: seq<string>, fields: seq<Field>)
    requires raw.RawTable? && forall name :: name in names <==> name in raw.entries
    requires Decoded(p, raw) == Ok(Object(fields))
    requires EncodedFields(p, fields) == map name | name in names :: Widened(p, raw.entries[name])
    ensures Encoded(p, Object(fields)) == Widened(p, raw)
  {
    assert EncodedFields(p, fields) == map name | name in raw.entries :: Widened(p, raw.entries[name]);
  }

  /** Forwarding what was read sends what was received. */
  lemma {:induction false} Forwarded(p: Protocol, raw: Raw)
    requires Decoded(p, raw).Ok?
    ensures Encoded(p, Decoded(p, raw).value) == Widened(p, raw)
    decreases raw, 1, 0
  {
    if raw.RawTable? {
      InOrderHolds(raw.entries.Keys);
      var names := InOrder(raw.entries.Keys);
      ForwardedNames(p, raw, names);
      ForwardedTable(p, raw, names, DecodedNames(p, raw, names).value);
    } else if raw.RawList? {
      ForwardedList(p, raw.elements);
    } else {
      ForwardedScalar(p, raw);
    }
  }

  lemma {:induction false} ForwardedNames(p: Protocol, raw: Raw, names: seq<string>)
    requires raw.RawTable? && (forall name :: name in names ==> name in raw.entries) && DecodedNames(p, raw, names).Ok?
    ensures EncodedFields(p, DecodedNames(p, raw, names).value) ==
      map name | name in names :: Widened(p, raw.entries[name])
    decreases raw, 0, |names|
  {
    if names != [] {
      var init, last := names[..|names| - 1], names[|names| - 1];
      ForwardedNames(p, raw, init);
      Forwarded(p, raw.entries[last]);
      assert names == init + [last];
      var fields := DecodedNames(p, raw, names).value;
      assert fields[..|fields| - 1] == DecodedNames(p, raw, init).value;
    }
  }

  lemma {:induction false} ForwardedList(p: Protocol, elements: seq<Raw>)
    requires DecodedList(p, elements).Ok?
    ensures EncodedList(p, DecodedList(p, elements).value) ==
      seq(|elements|, i requires 0 <= i < |elements| => Widened(p, elements[i]))
    decreases elements, 0, 0
  {
    if elements != [] {
      var init := elements[..|elements| - 1];
      ForwardedList(p, init);
      Forwarded(p, elements[|elements| - 1]);
      var values := DecodedList(p, elements).value;
      assert values[..|values| - 1] == DecodedList(p, init).value;
    }
  }
}
