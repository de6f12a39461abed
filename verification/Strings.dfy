/** The text operations the models share: splitting and joining on '/', and the
    order and sort of names. A string is a sequence of Unicode code points, and
    comparing code points orders names as comparing their UTF-8 bytes does. */
module Strings {

  datatype Option<+T> = None | Some(value: T)

  /** strings.Split(s, "/"). */
  function Split(s: string): (parts: seq<string>)
    ensures |parts| >= 1
    ensures forall i :: 0 <= i < |parts| ==> '/' !in parts[i]
  {
    if s == "" then [""]
    else
      var rest := Split(s[1..]);
      if s[0] == '/' then [""] + rest else [[s[0]] + rest[0]] + rest[1..]
  }

  /** strings.Join(parts, "/"). */
  function Join(parts: seq<string>): string
  {
    if |parts| == 0 then ""
    else if |parts| == 1 then parts[0]
    else parts[0] + "/" + Join(parts[1..])
  }

  lemma {:induction false} JoinSplit(s: string)
    ensures Join(Split(s)) == s
  {
    if s != "" {
      JoinSplit(s[1..]);
      var rest := Split(s[1..]);
      if s[0] == '/' {
        assert ([""] + rest)[1..] == rest;
      } else if |rest| > 1 {
        assert ([[s[0]] + rest[0]] + rest[1..])[1..] == rest[1..];
      }
    }
  }

  /** Splitting a part that holds no separator, and one followed by a separator. */
  lemma {:induction false} SplitPart(part: string, rest: string)
    requires '/' !in part
    ensures Split(part) == [part]
    ensures Split(part + "/" + rest) == [part] + Split(rest)
  {
    if part == "" {
      assert part + "/" + rest == "/" + rest;
      assert ("/" + rest)[1..] == rest;
    } else {
      SplitPart(part[1..], rest);
      assert (part + "/" + rest)[1..] == part[1..] + "/" + rest;
      assert [part[0]] + part[1..] == part;
    }
  }

  lemma {:induction false} SplitJoin(parts: seq<string>)
    requires |parts| >= 1
    requires forall i :: 0 <= i < |parts| ==> '/' !in parts[i]
    ensures Split(Join(parts)) == parts
  {
    if |parts| == 1 {
      SplitPart(parts[0], "");
    } else {
      SplitPart(parts[0], Join(parts[1..]));
      SplitJoin(parts[1..]);
    }
  }

  /** The order sort.Strings and slices.Sorted sort by. */
  predicate AtMost(a: string, b: string)
  {
    a == "" || (b != "" && (a[0] < b[0] || (a[0] == b[0] && AtMost(a[1..], b[1..]))))
  }

  /** It is the order of the dictionary: a beginning comes first, and otherwise the
      first characters that differ decide. */
  lemma {:induction false} AtMostIff(a: string, b: string)
    ensures AtMost(a, b) <==> a <= b || exists i: nat :: Differ(a, b, i) && a[i] < b[i]
  {
    if a != "" && b != "" {
      AtMostIff(a[1..], b[1..]);
      assert a == [a[0]] + a[1..] && b == [b[0]] + b[1..];
      if i: nat :| Differ(a[1..], b[1..], i) && a[1..][i] < b[1..][i] && a[0] == b[0] {
        assert a[..i + 1] == [a[0]] + a[1..][..i] && b[..i + 1] == [b[0]] + b[1..][..i];
        assert Differ(a, b, i + 1);
      }
      if i: nat :| Differ(a, b, i) && a[i] < b[i] && i > 0 {
        assert a[0] == a[..i][0] == b[..i][0] == b[0];
        assert a[1..][..i - 1] == a[..i][1..] && b[1..][..i - 1] == b[..i][1..];
        assert a[1..][i - 1] == a[i] && b[1..][i - 1] == b[i];
        assert Differ(a[1..], b[1..], i - 1);
      }
      if a[0] < b[0] { assert Differ(a, b, 0); }
    }
  }

  ghost predicate Differ(a: string, b: string, i: nat)
  {
    i < |a| && i < |b| && a[..i] == b[..i] && a[i] != b[i]
  }

  lemma {:induction false} AtMostTotal(a: string, b: string)
    ensures AtMost(a, b) || AtMost(b, a)
  {
    if a != "" && b != "" { AtMostTotal(a[1..], b[1..]); }
  }

  lemma {:induction false} AtMostAntisymmetric(a: string, b: string)
    requires AtMost(a, b) && AtMost(b, a)
    ensures a == b
  {
    if a != "" && b != "" {
      AtMostAntisymmetric(a[1..], b[1..]);
      assert a == [a[0]] + a[1..] && b == [b[0]] + b[1..];
    }
  }

  lemma {:induction false} AtMostTransitive(a: string, b: string, c: string)
    requires AtMost(a, b) && AtMost(b, c)
    ensures AtMost(a, c)
  {
    if a != "" && a[0] == b[0] == c[0] { AtMostTransitive(a[1..], b[1..], c[1..]); }
  }

  ghost predicate IsSorted(names: seq<string>)
  {
    forall i, j :: 0 <= i < j < |names| ==> AtMost(names[i], names[j])
  }

  function Insert(name: string, names: seq<string>): (r: seq<string>)
    ensures multiset(r) == multiset(names) + multiset{name}
    ensures IsSorted(names) ==> IsSorted(r)
  {
    if names == [] then [name]
    else if AtMost(name, names[0]) then
      InsertFront(name, names);
      assert multiset([name] + names) == multiset(names) + multiset{name};
      [name] + names
    else
      assert names == [names[0]] + names[1..];
      var rest := Insert(name, names[1..]);
      InsertRest(name, names, rest);
      [names[0]] + rest
  }

  lemma InsertFront(name: string, names: seq<string>)
    requires names != [] && AtMost(name, names[0])
    ensures IsSorted(names) ==> IsSorted([name] + names)
  {
    if IsSorted(names) {
      forall j | 0 <= j < |names| ensures AtMost(name, names[j]) {
        if j > 0 { AtMostTransitive(name, names[0], names[j]); }
      }
    }
  }

  lemma InsertRest(name: string, names: seq<string>, rest: seq<string>)
    requires names != [] && !AtMost(name, names[0])
    requires multiset(rest) == multiset(names[1..]) + multiset{name}
    requires IsSorted(names[1..]) ==> IsSorted(rest)
    ensures IsSorted(names) ==> IsSorted([names[0]] + rest)
    ensures multiset([names[0]] + rest) == multiset(names) + multiset{name}
  {
    assert names == [names[0]] + names[1..];
    AtMostTotal(name, names[0]);
    if IsSorted(names) {
      forall j | 0 <= j < |rest| ensures AtMost(names[0], rest[j]) {
        assert rest[j] in multiset(rest);
        if rest[j] != name {
          assert rest[j] in names[1..];
        }
      }
    }
  }

  /** sort.Strings and slices.Sorted: the names in order. */
  function Sort(names: seq<string>): (r: seq<string>)
    ensures IsSorted(r)
    ensures multiset(r) == multiset(names)
  {
    if names == [] then [] else
      assert names == [names[0]] + names[1..];
      Insert(names[0], Sort(names[1..]))
  }

  lemma SortedHead(a: seq<string>, b: seq<string>)
    requires IsSorted(a) && IsSorted(b) && multiset(a) == multiset(b) && a != []
    ensures b != [] && a[0] == b[0]
  {
    assert a[0] in multiset(a) && a[0] in multiset(b);
    assert b[0] in multiset(b) && b[0] in multiset(a);
    var i :| 0 <= i < |a| && a[i] == b[0];
    var j :| 0 <= j < |b| && b[j] == a[0];
    if i != 0 && j != 0 { AtMostAntisymmetric(a[0], b[0]); }
  }

  lemma TailMultiset(a: seq<string>)
    requires a != []
    ensures multiset(a[1..]) == multiset(a) - multiset{a[0]}
  {
    assert a == [a[0]] + a[1..];
  }

  /** A sorted sequence is determined by what it holds, so sorting forgets the
      order in which a map was ranged over. */
  lemma {:induction false} SortedUnique(a: seq<string>, b: seq<string>)
    requires IsSorted(a) && IsSorted(b) && multiset(a) == multiset(b)
    ensures a == b
  {
    if a == [] {
      assert |multiset(b)| == |b|;
    } else {
      SortedHead(a, b);
      TailMultiset(a);
      TailMultiset(b);
      SortedUnique(a[1..], b[1..]);
      assert a == [a[0]] + a[1..] && b == [b[0]] + b[1..];
    }
  }

  // ---- Cutting and counting ----

  /** A text is cut in one way only at the first of a character ... */
  lemma CutFirst(c: char, a: string, b: string, x: string, y: string)
    requires c !in a && c !in x && a + [c] + b == x + [c] + y
    ensures a == x && b == y
  {
    var s := a + [c] + b;
    assert s[|a|] == c && s[|x|] == c;
    assert forall i :: 0 <= i < |a| ==> s[i] == a[i];
    assert forall i :: 0 <= i < |x| ==> s[i] == x[i];
    assert |a| == |x|;
    assert a == s[..|a|] && x == s[..|x|] && b == s[|a| + 1..] && y == s[|x| + 1..];
  }

  /** ... and at the last. */
  lemma CutLast(c: char, a: string, b: string, x: string, y: string)
    requires c !in b && c !in y && a + [c] + b == x + [c] + y
    ensures a == x && b == y
  {
    var s := a + [c] + b;
    assert s[|a|] == c && s[|x|] == c;
    assert forall i :: |a| < i < |s| ==> s[i] in b;
    assert forall i :: |x| < i < |s| ==> s[i] in y;
    assert |a| == |x|;
    assert a == s[..|a|] && x == s[..|x|] && b == s[|a| + 1..] && y == s[|x| + 1..];
  }

  lemma CountedTwice<T>(xs: seq<T>, i: nat, j: nat)
    requires i < j < |xs| && xs[i] == xs[j]
    ensures multiset(xs)[xs[i]] >= 2
  {
    var a, b := xs[..j], xs[j..];
    assert xs == a + b && a[i] in multiset(a) && b[0] in multiset(b);
  }
}
