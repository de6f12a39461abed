/** Path patterns (web/path.go): what a pattern is, how it is read and how it is
    written back out. */
module Patterns {
  import opened Strings

  datatype Kind = Literal | Capture | Wildcard

  /** One part of a pattern: the literal text, or the name a capture binds. */
  datatype Segment = Segment(kind: Kind, text: string)

  datatype Mistake =
    | UnrootedPath | PartialCapture | UnclosedCapture | WildcardNotLast | NamelessCapture | CapturedTwice

  datatype Parsed<+T> = Accepted(value: T) | Refused(why: Mistake)

  predicate StartsWith(s: string, c: char) { s != "" && s[0] == c }

  predicate EndsWith(s: string, c: char) { s != "" && s[|s| - 1] == c }

  predicate HasSuffix(s: string, suffix: string)
  {
    |suffix| <= |s| && s[|s| - |suffix|..] == suffix
  }

  /** unicode.IsSpace. */
  predicate IsSpace(c: char)
  {
    || '\t' <= c <= '\r' || c == ' ' || c == '\U{0085}' || c == '\U{00A0}' || c == '\U{1680}'
    || '\U{2000}' <= c <= '\U{200A}' || c == '\U{2028}' || c == '\U{2029}' || c == '\U{202F}'
    || c == '\U{205F}' || c == '\U{3000}'
  }

  /** strings.TrimSpace(s) == "". */
  predicate IsBlank(s: string) { forall i :: 0 <= i < |s| ==> IsSpace(s[i]) }

  function TrimLeft(s: string): string { if s != "" && IsSpace(s[0]) then TrimLeft(s[1..]) else s }

  function TrimRight(s: string): string
  {
    if s != "" && IsSpace(s[|s| - 1]) then TrimRight(s[..|s| - 1]) else s
  }

  lemma {:induction false} TrimLeftBlank(s: string)
    ensures TrimLeft(s) == "" <==> IsBlank(s)
    ensures TrimLeft(s) != "" ==> !IsSpace(TrimLeft(s)[0])
  {
    if s != "" && IsSpace(s[0]) {
      TrimLeftBlank(s[1..]);
      assert s == [s[0]] + s[1..];
    }
  }

  lemma {:induction false} TrimRightKeeps(s: string)
    requires s != "" && !IsSpace(s[0])
    ensures TrimRight(s) != ""
  {
    if IsSpace(s[|s| - 1]) { TrimRightKeeps(s[..|s| - 1]); }
  }

  /** strings.TrimSpace leaves nothing of exactly the blank texts. */
  lemma BlankIff(s: string)
    ensures IsBlank(s) <==> TrimRight(TrimLeft(s)) == ""
  {
    TrimLeftBlank(s);
    if TrimLeft(s) != "" { TrimRightKeeps(TrimLeft(s)); }
  }

  function TrimSlash(path: string): string
  {
    if StartsWith(path, '/') then path[1..] else path
  }

  function NewCapture(kind: Kind, name: string): Parsed<Segment>
  {
    if IsBlank(name) then Refused(NamelessCapture) else Accepted(Segment(kind, name))
  }

  function ParseSegment(part: string, last: bool): Parsed<Segment>
  {
    if !StartsWith(part, '{') then
      if '{' in part || '}' in part then Refused(PartialCapture) else Accepted(Segment(Literal, part))
    else if !EndsWith(part, '}') then Refused(UnclosedCapture)
    else
      var name := part[1..|part| - 1];
      if HasSuffix(name, "...") then
        if !last then Refused(WildcardNotLast) else NewCapture(Wildcard, name[..|name| - 3])
      else NewCapture(Capture, name)
  }

  /** The loop of parsePattern from some part on, given the names captured so far. */
  function ParseParts(parts: seq<string>, captured: set<string>): Parsed<seq<Segment>>
  {
    if parts == [] then Accepted([])
    else
      match ParseSegment(parts[0], |parts| == 1)
      case Refused(why) => Refused(why)
      case Accepted(element) =>
        if element.kind != Literal && element.text in captured then Refused(CapturedTwice)
        else
          var taken := if element.kind != Literal then captured + {element.text} else captured;
          match ParseParts(parts[1..], taken)
          case Refused(why) => Refused(why)
          case Accepted(rest) => Accepted([element] + rest)
  }

  function Parse(path: string): Parsed<seq<Segment>>
  {
    if !StartsWith(path, '/') then Refused(UnrootedPath) else ParseParts(Split(TrimSlash(path)), {})
  }

  method ParsePattern(path: string) returns (r: Parsed<seq<Segment>>)
    ensures r == Parse(path)
  {
    if !StartsWith(path, '/') {
      return Refused(UnrootedPath);
    }
    var parts := Split(TrimSlash(path));
    var segments: seq<Segment> := [];
    var captured: set<string> := {};
    assert parts[0..] == parts;
    assert forall rest: seq<Segment> :: segments + rest == rest;
    for index := 0 to |parts|
      invariant ParseParts(parts, {}) ==
                match ParseParts(parts[index..], captured)
                case Refused(why) => Refused(why)
                case Accepted(rest) => Accepted(segments + rest)
    {
      assert parts[index..][1..] == parts[index + 1..];
      var element := ParseSegment(parts[index], index == |parts| - 1);
      if element.Refused? {
        return Refused(element.why);
      }
      if element.value.kind != Literal {
        if element.value.text in captured {
          return Refused(CapturedTwice);
        }
        captured := captured + {element.value.text};
      }
      ghost var before := segments;
      segments := segments + [element.value];
      assert forall rest: seq<Segment> :: before + ([element.value] + rest) == segments + rest;
    }
    assert segments + [] == segments;
    r := Accepted(segments);
  }

  // ---- Why a path is refused ----

  /** What can be wrong with one part of a path on its own. */
  ghost predicate PartMistaken(part: string, last: bool, why: Mistake)
  {
    match why
    case PartialCapture => !StartsWith(part, '{') && ('{' in part || '}' in part)
    case UnclosedCapture => StartsWith(part, '{') && !EndsWith(part, '}')
    case WildcardNotLast => !last && exists name :: part == "{" + name + "...}"
    case NamelessCapture =>
      exists name :: IsBlank(name) && (part == "{" + name + "}" || (last && part == "{" + name + "...}"))
    case _ => false
  }

  lemma PartRefusedIff(part: string, last: bool, why: Mistake)
    ensures ParseSegment(part, last) == Refused(why) <==> PartMistaken(part, last, why)
  {
    if StartsWith(part, '{') && EndsWith(part, '}') {
      var name := part[1..|part| - 1];
      assert part == "{" + name + "}";
      if HasSuffix(name, "...") {
        DottedRefusedIff(part, name, name[..|name| - 3], last, why);
      } else {
        NamedRefusedIff(part, name, last, why);
      }
    }
  }

  lemma DottedRefusedIff(part: string, name: string, rest: string, last: bool, why: Mistake)
    requires part == "{" + name + "}" && part[1..|part| - 1] == name
    requires HasSuffix(name, "...") && rest == name[..|name| - 3]
    ensures ParseSegment(part, last) == Refused(why) <==> PartMistaken(part, last, why)
  {
    assert name == rest + "..." && part == "{" + rest + "...}";
    assert !IsBlank(name) by { assert name[|name| - 1] == '.'; }
    SameBraces(part, name, rest);
    assert why.NamelessCapture? ==> (PartMistaken(part, last, why) <==> last && IsBlank(rest));
  }

  lemma NamedRefusedIff(part: string, name: string, last: bool, why: Mistake)
    requires part == "{" + name + "}" && part[1..|part| - 1] == name && !HasSuffix(name, "...")
    ensures ParseSegment(part, last) == Refused(why) <==> PartMistaken(part, last, why)
  {
    SameBraces(part, name, "");
    DotsInside(part, name);
    assert why.NamelessCapture? ==> (PartMistaken(part, last, why) <==> IsBlank(name));
  }

  /** What is between the braces is determined. */
  lemma SameBraces(part: string, name: string, rest: string)
    requires part == "{" + name + "}"
    ensures forall other :: part == "{" + other + "}" ==> other == name
    ensures name == rest + "..." ==> forall other :: part == "{" + other + "...}" ==> other == rest
  {
    forall other | part == "{" + other + "}" ensures other == name {
      assert other == part[1..|part| - 1] && name == part[1..|part| - 1];
    }
    if name == rest + "..." {
      forall other | part == "{" + other + "...}" ensures other == rest {
        assert other == part[1..|part| - 4] && rest == part[1..|part| - 4];
      }
    }
  }

  lemma DotsInside(part: string, name: string)
    requires part == "{" + name + "}"
    ensures (exists other :: part == "{" + other + "...}") ==> HasSuffix(name, "...")
  {
    if other :| part == "{" + other + "...}" {
      assert name == part[1..|part| - 1] && other + "..." == part[1..|part| - 1];
      assert name[|name| - 3..] == "...";
    }
  }

  function Element(parts: seq<string>, j: nat): Parsed<Segment>
    requires j < |parts|
  {
    ParseSegment(parts[j], j == |parts| - 1)
  }

  /** Part j captures under a name already taken, or used by an earlier part. */
  ghost predicate Repeats(parts: seq<string>, captured: set<string>, j: nat)
    requires j < |parts|
  {
    && Element(parts, j).Accepted? && Element(parts, j).value.kind != Literal
    && (Element(parts, j).value.text in captured || exists k :: 0 <= k < j && SameName(parts, k, j))
  }

  ghost predicate SameName(parts: seq<string>, k: nat, j: nat)
    requires k < |parts| && j < |parts| && Element(parts, j).Accepted?
  {
    && Element(parts, k).Accepted? && Element(parts, k).value.kind != Literal
    && Element(parts, k).value.text == Element(parts, j).value.text
  }

  /** Part i is the first with something wrong, and this is wrong with it. */
  ghost predicate RefusedAt(parts: seq<string>, captured: set<string>, i: nat, why: Mistake)
  {
    && i < |parts|
    && (forall j: nat :: j < i ==> Element(parts, j).Accepted? && !Repeats(parts, captured, j))
    && (PartMistaken(parts[i], i == |parts| - 1, why) || (why == CapturedTwice && Repeats(parts, captured, i)))
  }

  lemma ElementTail(parts: seq<string>, j: nat)
    requires 0 < j < |parts|
    ensures Element(parts[1..], j - 1) == Element(parts, j)
  {}

  lemma SameNameTail(parts: seq<string>, k: nat, j: nat)
    requires 0 < k < |parts| && 0 < j < |parts| && Element(parts, j).Accepted?
    ensures Element(parts[1..], j - 1) == Element(parts, j)
    ensures SameName(parts[1..], k - 1, j - 1) <==> SameName(parts, k, j)
  {
    ElementTail(parts, k);
    ElementTail(parts, j);
  }

  lemma RepeatsTail(parts: seq<string>, captured: set<string>, taken: set<string>, j: nat)
    requires 0 < j < |parts| && Element(parts, 0).Accepted?
    requires taken == if Element(parts, 0).value.kind != Literal then captured + {Element(parts, 0).value.text}
      else captured
    ensures Element(parts[1..], j - 1) == Element(parts, j)
    ensures Repeats(parts[1..], taken, j - 1) <==> Repeats(parts, captured, j)
  {
    var tail, m := parts[1..], j - 1;
    ElementTail(parts, j);
    if Element(parts, j).Accepted? {
      if k :| 0 <= k < j && SameName(parts, k, j) && k > 0 { SameNameTail(parts, k, j); }
      if k :| 0 <= k < m && SameName(tail, k, m) { SameNameTail(parts, k + 1, j); }
      assert SameName(parts, 0, j) <==>
        Element(parts, 0).value.kind != Literal && Element(parts, 0).value.text == Element(parts, j).value.text;
    }
  }

  lemma {:induction false} PartsRefusedIff(parts: seq<string>, captured: set<string>, why: Mistake)
    ensures ParseParts(parts, captured) == Refused(why) <==> exists i: nat :: RefusedAt(parts, captured, i, why)
  {
    if parts != [] {
      PartRefusedIff(parts[0], |parts| == 1, why);
      if Element(parts, 0).Refused? || Repeats(parts, captured, 0) {
        assert RefusedAt(parts, captured, 0, why) <==> ParseParts(parts, captured) == Refused(why);
      } else {
        var element, tail := Element(parts, 0).value, parts[1..];
        var taken := if element.kind != Literal then captured + {element.text} else captured;
        PartsRefusedIff(tail, taken, why);
        forall j: nat | 0 < j < |parts|
          ensures Element(tail, j - 1) == Element(parts, j)
          ensures Repeats(tail, taken, j - 1) <==> Repeats(parts, captured, j) {
          RepeatsTail(parts, captured, taken, j);
        }
        if i: nat :| RefusedAt(tail, taken, i, why) {
          assert forall j: nat :: j < i + 1 && j > 0 ==> Element(tail, j - 1) == Element(parts, j);
          assert RefusedAt(parts, captured, i + 1, why);
        }
        if i: nat :| RefusedAt(parts, captured, i, why) && i > 0 {
          forall j: nat | j < i - 1 ensures Element(tail, j).Accepted? && !Repeats(tail, taken, j) {
            assert Element(parts, j + 1).Accepted? && !Repeats(parts, captured, j + 1);
            RepeatsTail(parts, captured, taken, j + 1);
          }
          assert RefusedAt(tail, taken, i - 1, why);
        }
      }
    }
  }

  ghost predicate FirstRefused(parts: seq<string>, why: Mistake)
  {
    exists i: nat :: RefusedAt(parts, {}, i, why)
  }

  /** A path is refused for what is wrong with it first: for not beginning with a
      slash, and otherwise for the first of its parts with something wrong, or whose
      capture an earlier part has made. */
  lemma ParseRefusedIff(path: string, why: Mistake)
    ensures Parse(path) == Refused(why) <==>
      if !StartsWith(path, '/') then why == UnrootedPath else FirstRefused(Split(path[1..]), why)
  {
    if StartsWith(path, '/') { PartsRefusedIff(Split(path[1..]), {}, why); }
  }

  function PathSegments(path: string): seq<string> { Split(TrimSlash(path)) }

  function RenderSegment(part: Segment): string
  {
    match part.kind
    case Capture => "{" + part.text + "}"
    case Wildcard => "{" + part.text + "...}"
    case Literal => part.text
  }

  function RenderParts(segments: seq<Segment>): (r: seq<string>)
    ensures |r| == |segments|
  {
    if segments == [] then [] else [RenderSegment(segments[0])] + RenderParts(segments[1..])
  }

  function Render(segments: seq<Segment>): string { "/" + Join(RenderParts(segments)) }

  method RenderPattern(segments: seq<Segment>) returns (path: string)
    ensures path == Render(segments)
  {
    var parts: seq<string> := [];
    assert segments[0..] == segments;
    for i := 0 to |segments|
      invariant RenderParts(segments) == parts + RenderParts(segments[i..])
    {
      assert segments[i..][1..] == segments[i + 1..];
      ghost var before, rest := parts, RenderParts(segments[i + 1..]);
      match segments[i].kind {
        case Capture => parts := parts + ["{" + segments[i].text + "}"];
        case Wildcard => parts := parts + ["{" + segments[i].text + "...}"];
        case Literal => parts := parts + [segments[i].text];
      }
      assert before + ([RenderSegment(segments[i])] + rest) == (before + [RenderSegment(segments[i])]) + rest;
    }
    assert RenderParts(segments) == parts;
    path := "/" + Join(parts);
  }

  /** What a segment list must be to be the reading of some pattern. */
  predicate WellFormedSegment(part: Segment, last: bool)
  {
    && '/' !in part.text
    && match part.kind
       case Literal => '{' !in part.text && '}' !in part.text
       case Capture => !IsBlank(part.text) && !HasSuffix(part.text, "...")
       case Wildcard => !IsBlank(part.text) && last
  }

  predicate DistinctNames(segments: seq<Segment>)
  {
    forall i, j :: 0 <= i < j < |segments| && segments[i].kind != Literal && segments[j].kind != Literal ==>
      segments[i].text != segments[j].text
  }

  predicate WellFormed(segments: seq<Segment>)
  {
    && |segments| >= 1
    && (forall i :: 0 <= i < |segments| ==> WellFormedSegment(segments[i], i == |segments| - 1))
    && DistinctNames(segments)
  }

  lemma ParseSegmentIff(part: string, last: bool, element: Segment)
    requires '/' !in part
    ensures ParseSegment(part, last) == Accepted(element) <==>
            WellFormedSegment(element, last) && RenderSegment(element) == part
  {
    if ParseSegment(part, last) == Accepted(element) { ParsedSegmentRenders(part, last, element); }
    if WellFormedSegment(element, last) && RenderSegment(element) == part {
      RenderedSegmentParses(part, last, element);
    }
  }

  lemma ParsedSegmentRenders(part: string, last: bool, element: Segment)
    requires '/' !in part
    requires ParseSegment(part, last) == Accepted(element)
    ensures WellFormedSegment(element, last) && RenderSegment(element) == part
  {
    if element.kind != Literal {
      var name := part[1..|part| - 1];
      assert part == "{" + name + "}";
      assert element.kind == Wildcard ==> name == element.text + "...";
    }
  }

  lemma RenderedSegmentParses(part: string, last: bool, element: Segment)
    requires WellFormedSegment(element, last) && RenderSegment(element) == part
    ensures ParseSegment(part, last) == Accepted(element)
  {
    match element.kind
    case Literal =>
    case Capture =>
      assert part[1..|part| - 1] == element.text;
    case Wildcard =>
      var name := element.text + "...";
      assert part[1..|part| - 1] == name;
      assert name[|name| - 3..] == "..." && name[..|name| - 3] == element.text;
  }

  ghost predicate FreshNames(segments: seq<Segment>, captured: set<string>)
  {
    && (forall i :: 0 <= i < |segments| && segments[i].kind != Literal ==> segments[i].text !in captured)
    && DistinctNames(segments)
  }

  ghost predicate WellFormedFrom(segments: seq<Segment>, captured: set<string>)
  {
    && (forall i :: 0 <= i < |segments| ==> WellFormedSegment(segments[i], i == |segments| - 1))
    && FreshNames(segments, captured)
  }

  lemma {:induction false} ParsePartsIff(parts: seq<string>, captured: set<string>, segments: seq<Segment>)
    requires forall i :: 0 <= i < |parts| ==> '/' !in parts[i]
    ensures ParseParts(parts, captured) == Accepted(segments) <==>
            WellFormedFrom(segments, captured) && RenderParts(segments) == parts
  {
    if parts != [] && segments != [] {
      var head, tail := segments[0], segments[1..];
      var taken := if head.kind != Literal then captured + {head.text} else captured;
      ParseSegmentIff(parts[0], |parts| == 1, head);
      ParsePartsIff(parts[1..], taken, tail);
      assert segments == [head] + tail && parts == [parts[0]] + parts[1..];
      WellFormedCons(head, tail, captured);
    }
  }

  lemma WellFormedCons(head: Segment, tail: seq<Segment>, captured: set<string>)
    ensures WellFormedFrom([head] + tail, captured) <==>
            && WellFormedSegment(head, |tail| == 0)
            && (head.kind != Literal ==> head.text !in captured)
            && WellFormedFrom(tail, if head.kind != Literal then captured + {head.text} else captured)
  {
    var whole := [head] + tail;
    var taken := if head.kind != Literal then captured + {head.text} else captured;
    if WellFormedFrom(whole, captured) {
      assert whole[0] == head;
      assert forall i :: 0 <= i < |tail| ==> tail[i] == whole[i + 1];
    }
    if WellFormedSegment(head, |tail| == 0) && (head.kind != Literal ==> head.text !in captured)
      && WellFormedFrom(tail, taken) {
      assert forall i :: 0 < i < |whole| ==> whole[i] == tail[i - 1];
    }
  }

  /** Reading and writing a pattern are inverse, in both directions and at once:
      a path reads as a segment list exactly when that list is well formed and is
      written as that path. */
  lemma ParseIffRender(path: string, segments: seq<Segment>)
    ensures Parse(path) == Accepted(segments) <==> WellFormed(segments) && Render(segments) == path
  {
    var parts := Split(TrimSlash(path));
    ParsePartsIff(parts, {}, segments);
    if StartsWith(path, '/') {
      assert path == "/" + path[1..];
      JoinSplit(path[1..]);
    }
    if WellFormed(segments) && Render(segments) == path {
      RenderSlashFree(segments);
      SplitJoin(RenderParts(segments));
      assert path[1..] == Join(RenderParts(segments));
    }
  }

  lemma {:induction false} RenderSlashFree(segments: seq<Segment>)
    requires forall i :: 0 <= i < |segments| ==> '/' !in segments[i].text
    ensures forall i :: 0 <= i < |segments| ==> '/' !in RenderParts(segments)[i]
  {
    if segments != [] { RenderSlashFree(segments[1..]); }
  }

  /** Reading a pattern that was accepted and writing it again changes nothing;
      writing a well-formed list and reading it again changes nothing; so two
      patterns with the same reading are the same pattern. */
  lemma PatternRoundTrips(path: string, other: string, segments: seq<Segment>)
    ensures Parse(path).Accepted? ==> WellFormed(Parse(path).value) && Render(Parse(path).value) == path
    ensures WellFormed(segments) ==> Parse(Render(segments)) == Accepted(segments)
    ensures Parse(path).Accepted? && Parse(path) == Parse(other) ==> path == other
  {
    if Parse(path).Accepted? {
      ParseIffRender(path, Parse(path).value);
      ParseIffRender(other, Parse(path).value);
    }
    ParseIffRender(Render(segments), segments);
  }
}
