/** What routing means, over the flat list of routes and with no tree in sight:
    which paths a pattern matches, what it binds, which of several matching
    routes wins, and which routes cannot be served side by side. */
module RouteSpec {
  import opened Strings
  import opened Patterns

  datatype Binding = Binding(name: string, value: string)

  datatype Route<H> = Route(segments: seq<Segment>, verb: string, handler: H)

  predicate Matches(segments: seq<Segment>, path: seq<string>)
  {
    if segments == [] then path == []
    else if path == [] then false
    else
      match segments[0].kind
      case Literal => segments[0].text == path[0] && Matches(segments[1..], path[1..])
      case Capture => Matches(segments[1..], path[1..])
      case Wildcard => |segments| == 1
  }

  /** What a match binds, in path order; a wildcard binds the joined rest. */
  function Bindings(segments: seq<Segment>, path: seq<string>): seq<Binding>
    requires Matches(segments, path)
  {
    if segments == [] then []
    else
      match segments[0].kind
      case Literal => Bindings(segments[1..], path[1..])
      case Capture => [Binding(segments[0].text, path[0])] + Bindings(segments[1..], path[1..])
      case Wildcard => [Binding(segments[0].text, Join(path))]
  }

  function Rank(kind: Kind): nat
  {
    match kind case Literal => 0 case Capture => 1 case Wildcard => 2
  }

  /** Lexicographic order of the kinds of two patterns: literal before capture
      before wildcard, at the first position where they differ. */
  predicate AtLeastAsSpecific(a: seq<Segment>, b: seq<Segment>)
  {
    a == [] || (b != [] &&
    (Rank(a[0].kind) < Rank(b[0].kind) ||
    (a[0].kind == b[0].kind && AtLeastAsSpecific(a[1..], b[1..]))))
  }

  predicate Serves<H>(route: Route<H>, path: seq<string>, verb: string)
  {
    route.verb == verb && Matches(route.segments, path)
  }

  /** The route a request belongs to: one of those that serve it, and none that
      serves it is more specific. */
  ghost predicate Wins<H>(route: Route<H>, routes: seq<Route<H>>, path: seq<string>, verb: string)
  {
    && route in routes
    && Serves(route, path, verb)
    && forall other :: other in routes && Serves(other, path, verb) ==>
         AtLeastAsSpecific(route.segments, other.segments)
  }

  /** The methods of the routes whose pattern matches, one entry per route. */
  ghost function MethodsAt<H>(routes: seq<Route<H>>, path: seq<string>): multiset<string>
  {
    if routes == [] then multiset{}
    else
      (if Matches(routes[0].segments, path) then multiset{routes[0].verb} else multiset{})
      + MethodsAt(routes[1..], path)
  }

  lemma {:induction false} MethodsAtAppend<H>(routes: seq<Route<H>>, route: Route<H>, path: seq<string>)
    ensures MethodsAt(routes + [route], path) ==
            MethodsAt(routes, path) + (if Matches(route.segments, path) then multiset{route.verb} else multiset{})
  {
    if routes == [] {
      assert routes + [route] == [route];
    } else {
      assert (routes + [route])[1..] == routes[1..] + [route];
      MethodsAtAppend(routes[1..], route, path);
    }
  }

  lemma {:induction false} MethodsAtMember<H>(routes: seq<Route<H>>, path: seq<string>, verb: string)
    ensures verb in MethodsAt(routes, path) <==> exists r :: r in routes && Serves(r, path, verb)
  {
    if routes != [] {
      MethodsAtMember(routes[1..], path, verb);
      if r :| r in routes && Serves(r, path, verb) {
        assert r == routes[0] || r in routes[1..];
      }
      if Serves(routes[0], path, verb) { assert routes[0] in routes; }
      if r :| r in routes[1..] && Serves(r, path, verb) { assert r in routes; }
    }
  }

  /** Where a segment leads: by its text for a literal, by its kind otherwise. */
  datatype Edge = Text(text: string) | Captured | Rest

  function EdgeOf(part: Segment): Edge
  {
    match part.kind case Literal => Text(part.text) case Capture => Captured case Wildcard => Rest
  }

  predicate SameShape(a: seq<Segment>, b: seq<Segment>)
  {
    |a| == |b| && forall i :: 0 <= i < |a| ==> EdgeOf(a[i]) == EdgeOf(b[i])
  }

  /** At position k the two patterns reach the same capture or wildcard and call
      it by different names. */
  predicate NamesDiffer(a: seq<Segment>, b: seq<Segment>, k: nat)
  {
    k < |a| && k < |b| && SameShape(a[..k + 1], b[..k + 1]) && a[k].text != b[k].text
  }

  /** Two routes that may not be assembled into one surface. */
  ghost predicate Conflict<H>(a: Route<H>, b: Route<H>)
  {
    (a.verb == b.verb && SameShape(a.segments, b.segments)) || exists k: nat :: NamesDiffer(a.segments, b.segments, k)
  }

  ghost predicate Compatible<H>(routes: seq<Route<H>>)
  {
    forall i, j :: 0 <= i < j < |routes| ==> !Conflict(routes[i], routes[j])
  }

  function Tail<H>(route: Route<H>): Route<H>
    requires route.segments != []
  {
    route.(segments := route.segments[1..])
  }

  lemma SameShapeCons(a: seq<Segment>, b: seq<Segment>)
    requires a != [] && b != []
    ensures SameShape(a, b) <==> EdgeOf(a[0]) == EdgeOf(b[0]) && SameShape(a[1..], b[1..])
  {
    if EdgeOf(a[0]) == EdgeOf(b[0]) && SameShape(a[1..], b[1..]) {
      forall i | 0 <= i < |a| ensures EdgeOf(a[i]) == EdgeOf(b[i]) {
        if i > 0 { assert a[i] == a[1..][i - 1] && b[i] == b[1..][i - 1]; }
      }
    }
    if SameShape(a, b) {
      forall i | 0 <= i < |a[1..]| ensures EdgeOf(a[1..][i]) == EdgeOf(b[1..][i]) {
        assert a[1..][i] == a[i + 1] && b[1..][i] == b[i + 1];
      }
    }
  }

  lemma NamesDifferCons(a: seq<Segment>, b: seq<Segment>, k: nat)
    requires a != [] && b != []
    ensures NamesDiffer(a, b, 0) <==> EdgeOf(a[0]) == EdgeOf(b[0]) && a[0].text != b[0].text
    ensures NamesDiffer(a, b, k + 1) <==> EdgeOf(a[0]) == EdgeOf(b[0]) && NamesDiffer(a[1..], b[1..], k)
  {
    if k + 1 < |a| && k + 1 < |b| {
      assert a[..k + 2][1..] == a[1..][..k + 1] && b[..k + 2][1..] == b[1..][..k + 1];
      SameShapeCons(a[..k + 2], b[..k + 2]);
    }
  }

  /** Conflict, read one segment at a time: the way a tree meets it. */
  lemma ConflictCons<H>(a: Route<H>, b: Route<H>)
    requires a.segments != [] && b.segments != []
    ensures Conflict(a, b) <==>
            && EdgeOf(a.segments[0]) == EdgeOf(b.segments[0])
            && (a.segments[0].text != b.segments[0].text || Conflict(Tail(a), Tail(b)))
  {
    var s, t := a.segments, b.segments;
    SameShapeCons(s, t);
    NamesDifferCons(s, t, 0);
    if k: nat :| NamesDiffer(s, t, k) {
      if k > 0 { NamesDifferCons(s, t, k - 1); }
    }
    if EdgeOf(s[0]) == EdgeOf(t[0]) {
      if k: nat :| NamesDiffer(s[1..], t[1..], k) {
        NamesDifferCons(s, t, k);
      }
    }
  }

  lemma ConflictSymmetric<H>(a: Route<H>, b: Route<H>)
    ensures Conflict(a, b) <==> Conflict(b, a)
  {
    if k: nat :| NamesDiffer(a.segments, b.segments, k) { assert NamesDiffer(b.segments, a.segments, k); }
    if k: nat :| NamesDiffer(b.segments, a.segments, k) { assert NamesDiffer(a.segments, b.segments, k); }
  }

  /** Equally specific patterns that match one path have the same shape, so
      routes that may stand side by side never tie. */
  lemma {:induction false} TieSameShape(a: seq<Segment>, b: seq<Segment>, path: seq<string>)
    requires Matches(a, path) && Matches(b, path)
    requires AtLeastAsSpecific(a, b) && AtLeastAsSpecific(b, a)
    ensures SameShape(a, b)
  {
    if a != [] && b != [] {
      if a[0].kind != Wildcard { TieSameShape(a[1..], b[1..], path[1..]); }
      SameShapeCons(a, b);
    }
  }

  lemma WinnerUnique<H>(routes: seq<Route<H>>, path: seq<string>, verb: string, r: Route<H>, q: Route<H>)
    requires Compatible(routes)
    requires Wins(r, routes, path, verb) && Wins(q, routes, path, verb)
    ensures r == q
  {
    TieSameShape(r.segments, q.segments, path);
    assert Conflict(r, q);
    ConflictSymmetric(r, q);
    var i :| 0 <= i < |routes| && routes[i] == r;
    var j :| 0 <= j < |routes| && routes[j] == q;
    assert i == j;
  }
}
