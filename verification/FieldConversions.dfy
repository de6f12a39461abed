/** The conversions of message headers as the program runs them: loops that fill
    maps and lists, calling one another on what is nested. */
module FieldConversions {
  import opened Strings
  import opened FieldValues

  /** Table and Properties. */
  method Table(p: Protocol, fields: seq<Field>) returns (entries: map<string, Raw>)
    ensures entries == EncodedFields(p, fields)
    decreases fields, 0
  {
    entries := map[];
    for i := 0 to |fields|
      invariant entries == EncodedFields(p, fields[..i])
    {
      var field := FieldOf(p, fields[i].value);
      assert fields[..i + 1][..i] == fields[..i];
      entries := entries[fields[i].name := field];
    }
    assert fields[..|fields|] == fields;
  }

  method FieldOf(p: Protocol, v: Value) returns (raw: Raw)
    ensures raw == Encoded(p, v)
    decreases v, 1
  {
    match v {
      case Absent => raw := Nil;
      case Boolean(truth) => raw := RawBool(truth);
      case Integer(number) => raw := RawInt(I64, number);
      case Number(amount) => raw := RawFloat(F64, amount);
      case Text(text) => raw := RawString(text);
      case Bytes(bytes) => raw := RawBytes(bytes);
      case Timestamp(instant) => raw := RawTime(instant);
      case Object(fields) =>
        var entries := Table(p, fields);
        raw := RawTable(p == Amqp091, entries);
      case List(elements) =>
        var items := FieldsOf(p, elements);
        raw := RawList(items);
    }
  }

  method FieldsOf(p: Protocol, elements: seq<Value>) returns (items: seq<Raw>)
    ensures items == EncodedList(p, elements)
    decreases elements, 0
  {
    items := [];
    for i := 0 to |elements|
      invariant items == EncodedList(p, elements[..i])
    {
      var item := FieldOf(p, elements[i]);
      assert elements[..i + 1][..i] == elements[..i];
      items := items + [item];
    }
    assert elements[..|elements|] == elements;
  }

  /** The names of a table, whatever order the map is ranged over in. */
  method NameOrder(entries: map<string, Raw>) returns (names: seq<string>)
    ensures names == InOrder(entries.Keys)
  {
    names := [];
    var left := entries.Keys;
    while left != {}
      invariant left <= entries.Keys
      invariant multiset(names) + multiset(left) == multiset(entries.Keys)
      decreases left
    {
      var name :| name in left;
      assert multiset(left) == multiset(left - {name}) + multiset{name};
      names := names + [name];
      left := left - {name};
    }
    names := Sort(names);
    SortedUnique(names, InOrder(entries.Keys));
  }

  /** Headers and ReadProperties. */
  method Headers(p: Protocol, raw: Raw) returns (r: Result<Value>)
    requires raw.RawTable?
    ensures r == DecodedTable(p, raw)
    decreases raw, 0, 1
  {
    var names := NameOrder(raw.entries);
    InOrderHolds(raw.entries.Keys);
    var fields := ReadAll(p, raw, names);
    r := if fields.Ok? then Ok(Object(fields.value)) else Unsupported;
  }

  /** The loop of Headers. */
  method ReadAll(p: Protocol, raw: Raw, names: seq<string>) returns (r: Result<seq<Field>>)
    requires raw.RawTable? && forall name :: name in names ==> name in raw.entries
    ensures r == DecodedNames(p, raw, names)
    decreases raw, 0, 0
  {
    var fields := [];
    for i := 0 to |names|
      invariant DecodedNames(p, raw, names[..i]) == Ok(fields)
    {
      assert names[..i + 1][..i] == names[..i];
      var value := FieldValue(p, raw.entries[names[i]]);
      if value.Unsupported? {
        NamesRefused(p, raw, names, i + 1);
        return Unsupported;
      }
      fields := fields + [Field(names[i], value.value)];
    }
    assert names[..|names|] == names;
    r := Ok(fields);
  }

  lemma {:induction false} NamesRefused(p: Protocol, raw: Raw, names: seq<string>, i: nat)
    requires raw.RawTable? && (forall name :: name in names ==> name in raw.entries) && i <= |names|
    requires DecodedNames(p, raw, names[..i]).Unsupported?
    ensures DecodedNames(p, raw, names).Unsupported?
    decreases |names| - i
  {
    if i < |names| {
      assert names[..i + 1][..i] == names[..i];
      NamesRefused(p, raw, names, i + 1);
    } else {
      assert names[..i] == names;
    }
  }

  method FieldValue(p: Protocol, raw: Raw) returns (r: Result<Value>)
    ensures r == Decoded(p, raw)
    decreases raw, 1, 0
  {
    match raw {
      case Nil => r := Ok(Absent);
      case RawBool(truth) => r := Ok(Boolean(truth));
      case RawInt(width, number) => r := if Knows(p, width) then Ok(Integer(number)) else Unsupported;
      case RawFloat(_, amount) => r := Ok(Number(amount));
      case RawString(text) => r := Ok(Text(text));
      case RawUuid(text) => r := if p == Amqp10 then Ok(Text(text)) else Unsupported;
      case RawBytes(bytes) => r := Ok(Bytes(bytes));
      case RawTime(instant) => r := Ok(Timestamp(instant));
      case RawTable(named, _) =>
        if named && p == Amqp10 {
          r := Unsupported;
        } else {
          r := Headers(p, raw);
        }
      case RawList(elements) =>
        var values := Elements(p, elements);
        r := if values.Ok? then Ok(List(values.value)) else Unsupported;
      case RawOther(_) => r := Unsupported;
    }
  }

  method Elements(p: Protocol, elements: seq<Raw>) returns (r: Result<seq<Value>>)
    ensures r == DecodedList(p, elements)
    decreases elements, 0, 0
  {
    var values := [];
    for i := 0 to |elements|
      invariant DecodedList(p, elements[..i]) == Ok(values)
    {
      assert elements[..i + 1][..i] == elements[..i];
      var value := FieldValue(p, elements[i]);
      if value.Unsupported? {
        ListReadsIff(p, elements);
        ReadsIffSupported(p, elements[i]);
        return Unsupported;
      }
      values := values + [value.value];
    }
    assert elements[..|elements|] == elements;
    r := Ok(values);
  }
}
