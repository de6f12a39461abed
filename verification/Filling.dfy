/** fillPattern (web/call.go): the calling side of a pattern, and the proof that
    matching and filling undo each other. */
module Filling {
  import opened Strings
  import opened Patterns
  import opened RouteSpec
  import opened TreeNodes
  import opened Surfaces

  datatype Filled = Path(text: string) | Unpatterned | NothingGivenFor(name: string)

  datatype Parts = Parts(parts: seq<string>) | Lacking(name: string)

  function FillParts(segments: seq<Segment>, captures: map<string, string>): Parts
  {
    if segments == [] then Parts([])
    else if segments[0].kind != Literal && segments[0].text !in captures then Lacking(segments[0].text)
    else
      var part := if segments[0].kind == Literal then segments[0].text else captures[segments[0].text];
      match FillParts(segments[1..], captures)
      case Lacking(name) => Lacking(name)
      case Parts(rest) => Parts([part] + rest)
  }

  function Fill(segments: seq<Segment>, captures: map<string, string>): Filled
  {
    if segments == [] then Unpatterned
    else
      match FillParts(segments, captures)
      case Lacking(name) => NothingGivenFor(name)
      case Parts(parts) => Path("/" + Join(parts))
  }

  /** The first name nothing is given for. */
  ghost predicate FirstLacking(segments: seq<Segment>, captures: map<string, string>, name: string, i: nat)
  {
    && i < |segments| && segments[i].kind != Literal && segments[i].text == name && name !in captures
    && forall j :: 0 <= j < i ==> segments[j].kind == Literal || segments[j].text in captures
  }

  ghost predicate Lacks(segments: seq<Segment>, captures: map<string, string>, name: string)
  {
    exists i: nat :: FirstLacking(segments, captures, name, i)
  }

  /** What goes in the place of a segment. */
  predicate FillsIn(part: string, segment: Segment, captures: map<string, string>)
  {
    if segment.kind == Literal then part == segment.text
    else segment.text in captures && part == captures[segment.text]
  }

  lemma {:induction false} FillPartsAre(segments: seq<Segment>, captures: map<string, string>)
    ensures match FillParts(segments, captures)
      case Lacking(name) => Lacks(segments, captures, name)
      case Parts(parts) =>
        |parts| == |segments| && forall i :: 0 <= i < |parts| ==> FillsIn(parts[i], segments[i], captures)
  {
    if segments == [] {
    } else if segments[0].kind != Literal && segments[0].text !in captures {
      assert FillParts(segments, captures) == Lacking(segments[0].text);
      assert FirstLacking(segments, captures, segments[0].text, 0);
    } else {
      var tail := segments[1..];
      FillPartsAre(tail, captures);
      var rest := FillParts(tail, captures);
      if rest.Lacking? {
        var i: nat :| FirstLacking(tail, captures, rest.name, i);
        LackingLater(segments, captures, rest.name, i);
      }
    }
  }

  lemma LackingLater(segments: seq<Segment>, captures: map<string, string>, name: string, i: nat)
    requires segments != [] && FirstLacking(segments[1..], captures, name, i)
    requires segments[0].kind == Literal || segments[0].text in captures
    ensures FirstLacking(segments, captures, name, i + 1)
  {
    assert forall j :: 0 < j <= i + 1 ==> segments[j] == segments[1..][j - 1];
  }

  /** Filling fails for a pattern of no segments, and for one that captures something
      nothing is given for, and then names the first such capture; otherwise every
      segment is written in its place, a literal as it is and a capture as what was
      given for it. */
  lemma FillAnswers(segments: seq<Segment>, captures: map<string, string>)
    ensures match Fill(segments, captures)
      case Unpatterned => segments == []
      case NothingGivenFor(name) => Lacks(segments, captures, name)
      case Path(text) => segments != [] && exists parts: seq<string> ::
        && |parts| == |segments| && (forall i :: 0 <= i < |parts| ==> FillsIn(parts[i], segments[i], captures))
        && text == "/" + Join(parts)
  {
    FillPartsAre(segments, captures);
  }

  method FillPattern(segments: seq<Segment>, captures: map<string, string>) returns (r: Filled)
    ensures r == Fill(segments, captures)
  {
    if |segments| == 0 {
      return Unpatterned;
    }
    var parts: seq<string> := [];
    assert segments[0..] == segments;
    assert forall rest: seq<string> :: parts + rest == rest;
    for i := 0 to |segments|
      invariant |parts| == i
      invariant FillParts(segments, captures) ==
                match FillParts(segments[i..], captures)
                case Lacking(name) => Lacking(name)
                case Parts(rest) => Parts(parts + rest)
    {
      assert segments[i..][1..] == segments[i + 1..];
      ghost var before := parts;
      if segments[i].kind == Literal {
        parts := parts + [segments[i].text];
      } else if segments[i].text !in captures {
        return NothingGivenFor(segments[i].text);
      } else {
        parts := parts + [captures[segments[i].text]];
      }
      assert forall rest: seq<string> :: before + ([parts[i]] + rest) == parts + rest;
    }
    assert parts + [] == parts;
    r := Path("/" + Join(parts));
  }

  /** The captures give each binding its value. */
  ghost predicate Carries(captures: map<string, string>, bindings: seq<Binding>)
  {
    forall i :: 0 <= i < |bindings| ==> bindings[i].name in captures && captures[bindings[i].name] == bindings[i].value
  }

  lemma {:induction false} FillMatched(segments: seq<Segment>, path: seq<string>, captures: map<string, string>)
    requires Matches(segments, path) && Carries(captures, Bindings(segments, path))
    ensures FillParts(segments, captures).Parts?
    ensures |FillParts(segments, captures).parts| == 0 <==> path == []
    ensures Join(FillParts(segments, captures).parts) == Join(path)
  {
    if segments != [] {
      var bound := Bindings(segments, path);
      match segments[0].kind
      case Literal =>
        FillMatched(segments[1..], path[1..], captures);
      case Capture =>
        assert bound[0] == Binding(segments[0].text, path[0]);
        assert forall i :: 0 <= i < |bound[1..]| ==> bound[1..][i] == bound[i + 1];
        FillMatched(segments[1..], path[1..], captures);
      case Wildcard =>
        assert bound[0] == Binding(segments[0].text, Join(path));
        assert FillParts(segments[1..], captures) == Parts([]);
    }
  }

  /** The names a pattern binds, in order. */
  function Names(segments: seq<Segment>): seq<string>
  {
    if segments == [] then []
    else (if segments[0].kind != Literal then [segments[0].text] else []) + Names(segments[1..])
  }

  function NamesOf(bindings: seq<Binding>): (r: seq<string>)
    ensures |r| == |bindings| && forall i :: 0 <= i < |r| ==> r[i] == bindings[i].name
  {
    seq(|bindings|, i requires 0 <= i < |bindings| => bindings[i].name)
  }

  lemma {:induction false} BindingNames(segments: seq<Segment>, path: seq<string>)
    requires Matches(segments, path)
    ensures NamesOf(Bindings(segments, path)) == Names(segments)
  {
    if segments != [] {
      match segments[0].kind
      case Wildcard =>
        assert segments[1..] == [] && Names(segments[1..]) == [];
      case Literal =>
        BindingNames(segments[1..], path[1..]);
        assert Names(segments) == Names(segments[1..]);
      case Capture =>
        BindingNames(segments[1..], path[1..]);
        NamesOfCons(Binding(segments[0].text, path[0]), Bindings(segments[1..], path[1..]));
    }
  }

  lemma NamesOfCons(first: Binding, rest: seq<Binding>)
    ensures NamesOf([first] + rest) == [first.name] + NamesOf(rest)
  {}

  lemma {:induction false} NamesDistinct(segments: seq<Segment>)
    requires DistinctNames(segments)
    ensures forall i, j :: 0 <= i < j < |Names(segments)| ==> Names(segments)[i] != Names(segments)[j]
    ensures forall n :: n in Names(segments) <==>
      exists i :: 0 <= i < |segments| && segments[i].kind != Literal && segments[i].text == n
  {
    if segments != [] {
      var tail := segments[1..];
      NamesDistinct(tail);
      forall n ensures n in Names(segments) <==>
        exists i :: 0 <= i < |segments| && segments[i].kind != Literal && segments[i].text == n {
        if i :| 0 <= i < |segments| && segments[i].kind != Literal && segments[i].text == n {
          if i > 0 { assert tail[i - 1] == segments[i]; }
        }
        if i :| 0 <= i < |tail| && tail[i].kind != Literal && tail[i].text == n { assert segments[i + 1] == tail[i]; }
        assert n in Names(segments) <==> (segments[0].kind != Literal && n == segments[0].text) || n in Names(tail);
      }
      assert forall i :: 0 <= i < |tail| ==> tail[i] == segments[i + 1];
      assert segments[0].kind != Literal ==> segments[0].text !in Names(tail);
    }
  }

  lemma {:induction false} ValuesCarry(bindings: seq<Binding>)
    requires forall i, j :: 0 <= i < j < |bindings| ==> bindings[i].name != bindings[j].name
    ensures Carries(Values(bindings), bindings)
    ensures forall n :: n in Values(bindings) <==> n in NamesOf(bindings)
  {
    if bindings != [] {
      var init, last := bindings[..|bindings| - 1], bindings[|bindings| - 1];
      ValuesCarry(init);
      forall i | 0 <= i < |bindings|
        ensures bindings[i].name in Values(bindings) && Values(bindings)[bindings[i].name] == bindings[i].value {
        if i < |init| { assert init[i] == bindings[i]; }
      }
      assert NamesOf(bindings) == NamesOf(init) + [last.name];
    }
  }

  /** Filling a pattern with what it captured from a path gives the path back. */
  lemma MatchThenFill(segments: seq<Segment>, path: string)
    requires WellFormed(segments) && StartsWith(path, '/') && Matches(segments, PathSegments(path))
    ensures Fill(segments, Values(Bindings(segments, PathSegments(path)))) == Path(path)
  {
    var parts := PathSegments(path);
    BindingNames(segments, parts);
    NamesDistinct(segments);
    ValuesCarry(Bindings(segments, parts));
    FillMatched(segments, parts, Values(Bindings(segments, parts)));
    assert TrimSlash(path) == path[1..];
    JoinSplit(path[1..]);
    assert path == "/" + path[1..];
  }

  /** A surface hands a handler captures that, filled into the pattern of the
      route that won, spell the path that was asked for. */
  lemma HandledPathRefills<H>(r: Response<H>, routes: seq<Route<H>>, path: string, verb: string)
    requires r.Handled? && Right(r, routes, path, verb) && StartsWith(path, '/')
    requires forall w :: w in routes ==> WellFormed(w.segments)
    ensures exists w ::
      w in routes && Wins(w, routes, PathSegments(path), verb) && w.handler == r.handler
        && Fill(w.segments, r.captures) == Path(path)
  {
    var parts := PathSegments(path);
    var w :| w in routes && Wins(w, routes, parts, verb) && w.handler == r.handler
      && r.captures == Values(Bindings(w.segments, parts));
    MatchThenFill(w.segments, path);
  }

  /** The path segments a filled pattern reads as. */
  function FilledSegments(segments: seq<Segment>, captures: map<string, string>): seq<string>
    requires forall i :: 0 <= i < |segments| && segments[i].kind != Literal ==> segments[i].text in captures
  {
    if segments == [] then []
    else
      match segments[0].kind
      case Literal => [segments[0].text] + FilledSegments(segments[1..], captures)
      case Capture => [captures[segments[0].text]] + FilledSegments(segments[1..], captures)
      case Wildcard => Split(captures[segments[0].text]) + FilledSegments(segments[1..], captures)
  }

  /** What a caller must supply: a value for every name, without a slash where
      the name is one segment's. */
  ghost predicate Supplies(captures: map<string, string>, segments: seq<Segment>)
  {
    forall i :: 0 <= i < |segments| && segments[i].kind != Literal ==>
      segments[i].text in captures && (segments[i].kind == Capture ==> '/' !in captures[segments[i].text])
  }

  ghost predicate Shaped(segments: seq<Segment>)
  {
    forall i :: 0 <= i < |segments| ==>
      (segments[i].kind == Wildcard ==> i == |segments| - 1)
        && (segments[i].kind == Literal ==> '/' !in segments[i].text)
  }

  lemma {:induction false} FillSplits(segments: seq<Segment>, captures: map<string, string>)
    requires segments != [] && Shaped(segments) && Supplies(captures, segments)
    ensures FillParts(segments, captures).Parts? && FillParts(segments, captures).parts != []
    ensures Split(Join(FillParts(segments, captures).parts)) == FilledSegments(segments, captures)
  {
    var tail := segments[1..];
    assert forall i :: 0 <= i < |tail| ==> tail[i] == segments[i + 1];
    var part := if segments[0].kind == Literal then segments[0].text else captures[segments[0].text];
    if tail == [] {
      assert FillParts(tail, captures) == Parts([]) && FilledSegments(tail, captures) == [];
      assert FillParts(segments, captures).parts == [part];
      assert Split(part) + [] == Split(part);
      if segments[0].kind != Wildcard { SplitPart(part, ""); }
    } else {
      FillSplits(tail, captures);
      var rest := FillParts(tail, captures).parts;
      assert ([part] + rest)[1..] == rest;
      SplitPart(part, Join(rest));
    }
  }

  lemma {:induction false} FilledMatches(segments: seq<Segment>, captures: map<string, string>)
    requires Shaped(segments) && Supplies(captures, segments)
    ensures Matches(segments, FilledSegments(segments, captures))
    ensures Carries(captures, Bindings(segments, FilledSegments(segments, captures)))
  {
    if segments != [] {
      var tail := segments[1..];
      assert forall i :: 0 <= i < |tail| ==> tail[i] == segments[i + 1];
      var path := FilledSegments(segments, captures);
      if segments[0].kind == Wildcard {
        assert segments[0 + 0].kind == Wildcard && tail == [];
        JoinSplit(captures[segments[0].text]);
        assert path == Split(captures[segments[0].text]) + [] == Split(captures[segments[0].text]);
      } else {
        FilledMatches(tail, captures);
        assert path[1..] == FilledSegments(tail, captures);
      }
    }
  }

  /** A pattern filled with any supplied values is matched by that pattern, and
      the match binds exactly the values that were filled in. */
  lemma FillThenMatch(segments: seq<Segment>, captures: map<string, string>)
    requires WellFormed(segments) && Supplies(captures, segments)
    ensures Fill(segments, captures).Path?
    ensures var parts := PathSegments(Fill(segments, captures).text);
            && Matches(segments, parts)
            && Values(Bindings(segments, parts)) == (map n | n in captures && n in Names(segments) :: captures[n])
  {
    FillSplits(segments, captures);
    var text := Join(FillParts(segments, captures).parts);
    assert ("/" + text)[1..] == text;
    FilledMatches(segments, captures);
    BoundExactly(segments, FilledSegments(segments, captures), captures);
  }

  lemma BoundExactly(segments: seq<Segment>, parts: seq<string>, captures: map<string, string>)
    requires DistinctNames(segments) && Matches(segments, parts) && Carries(captures, Bindings(segments, parts))
    ensures Values(Bindings(segments, parts)) == map n | n in captures && n in Names(segments) :: captures[n]
  {
    BindingNames(segments, parts);
    NamesDistinct(segments);
    ValuesExactly(Bindings(segments, parts), Names(segments), captures);
  }

  lemma ValuesExactly(bindings: seq<Binding>, names: seq<string>, captures: map<string, string>)
    requires names == NamesOf(bindings) && Carries(captures, bindings)
    requires forall i, j :: 0 <= i < j < |names| ==> names[i] != names[j]
    ensures Values(bindings) == map n | n in captures && n in names :: captures[n]
  {
    ValuesCarry(bindings);
    forall n | n in names ensures n in captures && Values(bindings)[n] == captures[n] {
      var i :| 0 <= i < |names| && names[i] == n;
      assert bindings[i].name == n;
    }
  }
}
