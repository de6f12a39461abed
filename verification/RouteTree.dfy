/** The segment tree of web/route_tree.go as a value: insertion, the walk with
    backtracking, and the proof that both agree with the flat list of routes. */
module RouteTree {
  import opened Strings
  import opened Patterns
  import opened RouteSpec

  datatype Tree<H> = Tree(
    name: string,
    literals: map<string, Tree<H>>,
    capture: Option<Tree<H>>,
    wildcard: Option<Tree<H>>,
    handlers: map<string, H>,
    patterns: map<string, string>)

  function Empty<H>(name: string): Tree<H> { Tree(name, map[], None, None, map[], map[]) }

  function Child<H>(t: Tree<H>, e: Edge): Option<Tree<H>>
  {
    match e
    case Text(text) => if text in t.literals then Some(t.literals[text]) else None
    case Captured => t.capture
    case Rest => t.wildcard
  }

  function WithChild<H>(t: Tree<H>, e: Edge, child: Tree<H>): (r: Tree<H>)
    ensures forall f :: Child(r, f) == if f == e then Some(child) else Child(t, f)
    ensures r.handlers == t.handlers && r.patterns == t.patterns && r.name == t.name
  {
    match e
    case Text(text) => t.(literals := t.literals[text := child])
    case Captured => t.(capture := Some(child))
    case Rest => t.(wildcard := Some(child))
  }

  lemma WithChildTwice<H>(t: Tree<H>, e: Edge, a: Tree<H>, b: Tree<H>)
    ensures WithChild(WithChild(t, e, a), e, b) == WithChild(t, e, b)
  {}

  /** The node a segment leads to, made if it is missing; nothing when the slot
      is already claimed under another name. */
  function ChildFor<H>(t: Tree<H>, part: Segment): Option<Tree<H>>
  {
    var e := EdgeOf(part);
    match Child(t, e)
    case None => Some(Empty(if part.kind == Literal then "" else part.text))
    case Some(child) => if part.kind != Literal && child.name != part.text then None else Some(child)
  }

  function Insert<H>(t: Tree<H>, segments: seq<Segment>, verb: string, handler: H, pattern: string): Option<Tree<H>>
    decreases |segments|
  {
    if segments == [] then
      if verb in t.patterns then None
      else Some(t.(handlers := t.handlers[verb := handler], patterns := t.patterns[verb := pattern]))
    else
      match ChildFor(t, segments[0])
      case None => None
      case Some(child) =>
        match Insert(child, segments[1..], verb, handler, pattern)
        case None => None
        case Some(grown) => Some(WithChild(t, EdgeOf(segments[0]), grown))
  }

  datatype Resolution<H> = Found(handler: H, captures: seq<Binding>) | Missed(methods: multiset<string>)

  ghost function Here<H>(t: Tree<H>, verb: string, bindings: seq<Binding>): Resolution<H>
  {
    if verb in t.handlers then Found(t.handlers[verb], bindings) else Missed(multiset(t.handlers.Keys))
  }

  /** One branch of the walk, and what is tried next when it found nothing. */
  ghost function OrElse<H>(first: Resolution<H>, second: Resolution<H>): Resolution<H>
  {
    match first
    case Found(_, _) => first
    case Missed(ms) =>
      match second
      case Found(_, _) => second
      case Missed(ns) => Missed(ms + ns)
  }

  lemma OrElseAssociative<H>(a: Resolution<H>, b: Resolution<H>, c: Resolution<H>)
    ensures OrElse(OrElse(a, b), c) == OrElse(a, OrElse(b, c))
  {}

  ghost function Resolve<H>(t: Tree<H>, path: seq<string>, verb: string, bindings: seq<Binding>): Resolution<H>
    decreases |path|, 1
  {
    if path == [] then Here(t, verb, bindings)
    else
      OrElse(OrElse(Branch(t, Text(path[0]), path, verb, bindings),
                    Branch(t, Captured, path, verb, bindings)),
             Branch(t, Rest, path, verb, bindings))
  }

  /** One edge of the walk: nothing where there is no child, one segment further
      down a literal or a capture, and the end of the path at a wildcard. */
  ghost function Branch<H>(t: Tree<H>, e: Edge, path: seq<string>, verb: string, bindings: seq<Binding>): Resolution<H>
    requires path != []
    decreases |path|, 0
  {
    match Child(t, e)
    case None => Missed(multiset{})
    case Some(child) =>
      var bound := bindings + Bound(e, child.name, path);
      if e.Rest? then Here(child, verb, bound) else Resolve(child, path[1..], verb, bound)
  }

  /** What taking an edge binds. */
  function Bound(e: Edge, name: string, path: seq<string>): seq<Binding>
    requires path != []
  {
    match e
    case Text(_) => []
    case Captured => [Binding(name, path[0])]
    case Rest => [Binding(name, Join(path))]
  }

  /** The routes that leave a node by one edge, with that edge taken off. */
  ghost function Under<H>(routes: seq<Route<H>>, e: Edge): seq<Route<H>>
  {
    if routes == [] then []
    else
      (if routes[0].segments != [] && EdgeOf(routes[0].segments[0]) == e then [Tail(routes[0])] else []) +
        Under(routes[1..], e)
  }

  lemma {:induction false} UnderAppend<H>(routes: seq<Route<H>>, route: Route<H>, e: Edge)
    ensures Under(routes + [route], e) ==
            Under(routes, e) + (if route.segments != [] && EdgeOf(route.segments[0]) == e then [Tail(route)] else [])
  {
    if routes == [] {
      assert routes + [route] == [route];
    } else {
      assert (routes + [route])[1..] == routes[1..] + [route];
      UnderAppend(routes[1..], route, e);
      var first := if routes[0].segments != [] && EdgeOf(routes[0].segments[0]) == e then [Tail(routes[0])] else [];
      var last := if route.segments != [] && EdgeOf(route.segments[0]) == e then [Tail(route)] else [];
      assert first + (Under(routes[1..], e) + last) == (first + Under(routes[1..], e)) + last;
    }
  }

  lemma {:induction false} UnderMember<H>(routes: seq<Route<H>>, e: Edge)
    ensures forall r :: r in routes && r.segments != [] && EdgeOf(r.segments[0]) == e ==> Tail(r) in Under(routes, e)
    ensures forall q :: q in Under(routes, e) ==>
      exists r :: r in routes && r.segments != [] && EdgeOf(r.segments[0]) == e && Tail(r) == q
  {
    if routes != [] {
      UnderMember(routes[1..], e);
      forall q | q in Under(routes, e)
        ensures exists r :: r in routes && r.segments != [] && EdgeOf(r.segments[0]) == e && Tail(r) == q
      {
        if q in Under(routes[1..], e) {
          var r :| r in routes[1..] && r.segments != [] && EdgeOf(r.segments[0]) == e && Tail(r) == q;
          assert r in routes;
        } else {
          assert routes[0] in routes && Tail(routes[0]) == q;
        }
      }
    }
  }

  /** Every route that claims this slot calls it by this name. */
  ghost predicate NamedAs<H>(routes: seq<Route<H>>, e: Edge, name: string)
  {
    forall r :: r in routes && r.segments != [] && EdgeOf(r.segments[0]) == e && !e.Text? ==> r.segments[0].text == name
  }

  ghost predicate HoldsHere<H>(t: Tree<H>, routes: seq<Route<H>>)
  {
    && t.patterns.Keys == t.handlers.Keys
    && (forall m :: MethodsAt(routes, [])[m] == if m in t.handlers then 1 else 0)
    && forall r :: r in routes && r.segments == [] ==> r.verb in t.handlers && t.handlers[r.verb] == r.handler
  }

  /** The tree holds exactly these routes: no node and no handler besides. */
  ghost predicate Holds<H>(t: Tree<H>, routes: seq<Route<H>>)
    decreases t, 1
  {
    HoldsHere(t, routes) && forall e :: HoldsEdge(t, routes, e)
  }

  ghost predicate HoldsEdge<H>(t: Tree<H>, routes: seq<Route<H>>, e: Edge)
    decreases t, 0
  {
    match Child(t, e)
    case None => Under(routes, e) == []
    case Some(child) => Under(routes, e) != [] && Holds(child, Under(routes, e)) && NamedAs(routes, e, child.name)
  }

  lemma EmptyHolds<H>(name: string)
    ensures Holds(Empty<H>(name), [])
  {
    assert forall e :: Under<H>([], e) == [];
    assert forall e :: HoldsEdge(Empty<H>(name), [], e);
  }

  /** A fresh node refuses nothing, so an insertion that fails met only nodes
      that were already there and created none. */
  lemma {:induction false} EmptyAccepts<H>(
      name: string, segments: seq<Segment>, verb: string, handler: H, pattern: string)
    ensures Insert(Empty(name), segments, verb, handler, pattern).Some?
    decreases |segments|
  {
    if segments != [] {
      EmptyAccepts(if segments[0].kind == Literal then "" else segments[0].text, segments[1..], verb, handler, pattern);
    }
  }

  /** Insertion succeeds exactly when the new route conflicts with none of those
      the tree holds, and then the tree holds one route more. */
  lemma {:induction false} InsertHolds<H>(t: Tree<H>, routes: seq<Route<H>>, route: Route<H>, pattern: string)
    requires Holds(t, routes)
    ensures Insert(t, route.segments, route.verb, route.handler, pattern).Some? <==>
            forall q :: q in routes ==> !Conflict(q, route)
    ensures Insert(t, route.segments, route.verb, route.handler, pattern).Some? ==>
            Holds(Insert(t, route.segments, route.verb, route.handler, pattern).value, routes + [route])
    decreases |route.segments|
  {
    if route.segments == [] {
      InsertHere(t, routes, route, pattern);
    } else {
      var e := EdgeOf(route.segments[0]);
      ConflictUnder(routes, route);
      UnderMember(routes, e);
      match ChildFor(t, route.segments[0]) {
        case None =>
          SlotRefused(t, routes, route);
        case Some(child) =>
          SlotNamed(t, routes, route, child);
          InsertHolds(child, Under(routes, e), Tail(route), pattern);
          match Insert(child, route.segments[1..], route.verb, route.handler, pattern) {
            case None =>
            case Some(grown) =>
              InsertName(child, route.segments[1..], route.verb, route.handler, pattern);
              GraftHolds(t, routes, route, grown);
          }
      }
    }
  }

  lemma InsertHere<H>(t: Tree<H>, routes: seq<Route<H>>, route: Route<H>, pattern: string)
    requires Holds(t, routes) && route.segments == []
    ensures Insert(t, [], route.verb, route.handler, pattern).Some? <==> forall q :: q in routes ==> !Conflict(q, route)
    ensures Insert(t, [], route.verb, route.handler, pattern).Some? ==>
            Holds(Insert(t, [], route.verb, route.handler, pattern).value, routes + [route])
  {
    MethodsAtMember(routes, [], route.verb);
    if route.verb in t.patterns {
      var q :| q in routes && Serves(q, [], route.verb);
      assert Conflict(q, route);
    } else {
      forall q | q in routes ensures !Conflict(q, route) {
        assert !Serves(q, [], route.verb);
      }
      SettleHere(t, routes, route, pattern);
    }
  }

  lemma SettleHere<H>(t: Tree<H>, routes: seq<Route<H>>, route: Route<H>, pattern: string)
    requires Holds(t, routes) && route.segments == [] && route.verb !in t.patterns
    requires forall q :: q in routes ==> !Serves(q, [], route.verb)
    ensures Holds(Insert(t, [], route.verb, route.handler, pattern).value, routes + [route])
  {
    var grown := Insert(t, [], route.verb, route.handler, pattern).value;
    HandlerAdded(t, routes, route, grown);
    forall e ensures Under(routes + [route], e) == Under(routes, e) {
      UnderAppend(routes, route, e);
      assert Under(routes, e) + [] == Under(routes, e);
    }
    forall e ensures HoldsEdge(grown, routes + [route], e) {
      assert HoldsEdge(t, routes, e);
      assert Child(grown, e) == Child(t, e);
    }
  }

  lemma HandlerAdded<H>(t: Tree<H>, routes: seq<Route<H>>, route: Route<H>, grown: Tree<H>)
    requires HoldsHere(t, routes) && route.segments == [] && route.verb !in t.handlers
    requires grown.handlers == t.handlers[route.verb := route.handler] && grown.patterns.Keys == grown.handlers.Keys
    ensures HoldsHere(grown, routes + [route])
  {
    MethodsAtAppend(routes, route, []);
  }

  /** The new route conflicts with a route exactly when they leave by one edge
      and differ in its name or conflict below it. */
  lemma ConflictUnder<H>(routes: seq<Route<H>>, route: Route<H>)
    requires route.segments != []
    ensures var e := EdgeOf(route.segments[0]);
            (forall q :: q in routes ==> !Conflict(q, route)) <==>
            && (forall q :: q in routes && q.segments != [] && EdgeOf(q.segments[0]) == e ==>
              q.segments[0].text == route.segments[0].text)
            && (forall q :: q in Under(routes, e) ==> !Conflict(q, Tail(route)))
  {
    var e := EdgeOf(route.segments[0]);
    UnderMember(routes, e);
    forall q | q in routes
      ensures Conflict(q, route) <==>
              && q.segments != [] && EdgeOf(q.segments[0]) == e
              && (q.segments[0].text != route.segments[0].text || Conflict(Tail(q), Tail(route)))
    {
      if q.segments != [] { ConflictCons(q, route); }
    }
  }

  lemma SlotRefused<H>(t: Tree<H>, routes: seq<Route<H>>, route: Route<H>)
    requires Holds(t, routes) && route.segments != [] && ChildFor(t, route.segments[0]).None?
    ensures exists q :: q in routes && Conflict(q, route)
  {
    var e := EdgeOf(route.segments[0]);
    assert HoldsEdge(t, routes, e);
    UnderMember(routes, e);
    assert Under(routes, e)[0] in Under(routes, e);
    var q :| q in routes && q.segments != [] && EdgeOf(q.segments[0]) == e && Tail(q) == Under(routes, e)[0];
    ConflictCons(q, route);
  }

  lemma SlotNamed<H>(t: Tree<H>, routes: seq<Route<H>>, route: Route<H>, child: Tree<H>)
    requires Holds(t, routes) && route.segments != [] && ChildFor(t, route.segments[0]) == Some(child)
    ensures Holds(child, Under(routes, EdgeOf(route.segments[0])))
    ensures NamedAs(routes + [route], EdgeOf(route.segments[0]), child.name)
    ensures forall q :: q in routes && q.segments != [] && EdgeOf(q.segments[0]) == EdgeOf(route.segments[0]) ==>
      q.segments[0].text == route.segments[0].text
  {
    var e := EdgeOf(route.segments[0]);
    assert HoldsEdge(t, routes, e);
    if Child(t, e).None? {
      UnderMember(routes, e);
      EmptyHolds<H>(child.name);
    }
  }

  lemma InsertName<H>(t: Tree<H>, segments: seq<Segment>, verb: string, handler: H, pattern: string)
    requires Insert(t, segments, verb, handler, pattern).Some?
    ensures Insert(t, segments, verb, handler, pattern).value.name == t.name
  {}

  lemma GraftHolds<H>(t: Tree<H>, routes: seq<Route<H>>, route: Route<H>, grown: Tree<H>)
    requires Holds(t, routes) && route.segments != []
    requires Holds(grown, Under(routes, EdgeOf(route.segments[0])) + [Tail(route)])
    requires NamedAs(routes + [route], EdgeOf(route.segments[0]), grown.name)
    ensures Holds(WithChild(t, EdgeOf(route.segments[0]), grown), routes + [route])
  {
    MethodsAtAppend(routes, route, []);
    forall f ensures HoldsEdge(WithChild(t, EdgeOf(route.segments[0]), grown), routes + [route], f) {
      GraftEdge(t, routes, route, grown, f);
    }
  }

  lemma GraftEdge<H>(t: Tree<H>, routes: seq<Route<H>>, route: Route<H>, grown: Tree<H>, f: Edge)
    requires HoldsEdge(t, routes, f) && route.segments != []
    requires Holds(grown, Under(routes, EdgeOf(route.segments[0])) + [Tail(route)])
    requires NamedAs(routes + [route], EdgeOf(route.segments[0]), grown.name)
    ensures HoldsEdge(WithChild(t, EdgeOf(route.segments[0]), grown), routes + [route], f)
  {
    UnderAppend(routes, route, f);
    if f != EdgeOf(route.segments[0]) { assert Under(routes, f) + [] == Under(routes, f); }
  }

  /** What a walk must answer, said of the flat list. */
  ghost predicate Answers<H>(
      r: Resolution<H>, routes: seq<Route<H>>, path: seq<string>, verb: string, bindings: seq<Binding>)
  {
    match r
    case Found(handler, captures) =>
      exists w :: w in routes && Explains(w, routes, path, verb, bindings, handler, captures)
    case Missed(methods) => methods == MethodsAt(routes, path) && verb !in methods
  }

  ghost predicate Explains<H>(
      w: Route<H>, routes: seq<Route<H>>, path: seq<string>, verb: string, bindings: seq<Binding>,
                              handler: H, captures: seq<Binding>)
  {
    Wins(w, routes, path, verb) && w.handler == handler && captures == bindings + Bindings(w.segments, path)
  }

  /** The walk, with its backtracking, finds the winning route and its captures,
      or else exactly the methods of the routes that match. */
  lemma {:induction false} ResolveAnswers<H>(
      t: Tree<H>, routes: seq<Route<H>>, path: seq<string>, verb: string, bindings: seq<Binding>)
    requires Holds(t, routes)
    ensures Answers(Resolve(t, path, verb, bindings), routes, path, verb, bindings)
    decreases |path|, 1
  {
    if path == [] {
      HereAnswers(t, routes, verb, bindings);
    } else {
      BranchAnswers(t, routes, Text(path[0]), path, verb, bindings);
      BranchAnswers(t, routes, Captured, path, verb, bindings);
      BranchAnswers(t, routes, Rest, path, verb, bindings);
      SplitMethods(routes, path);
      ServesBelow(routes, path, verb);
      JoinBranches(routes, path, verb, bindings, Branch(t, Text(path[0]), path, verb, bindings),
                   Branch(t, Captured, path, verb, bindings), Branch(t, Rest, path, verb, bindings));
    }
  }

  /** What one branch must answer: a winner among the routes that leave by its
      edge, bound as the whole route binds it, or the methods below the edge. */
  ghost predicate AnswersEdge<H>(
      r: Resolution<H>, routes: seq<Route<H>>, e: Edge, path: seq<string>, verb: string, bindings: seq<Binding>)
    requires path != []
  {
    match r
    case Found(handler, captures) =>
      exists w :: w in routes && ExplainsEdge(w, routes, e, path, verb, bindings, handler, captures)
    case Missed(methods) => methods == EdgeMethods(routes, e, path) && verb !in methods
  }

  ghost predicate ExplainsEdge<H>(w: Route<H>, routes: seq<Route<H>>, e: Edge, path: seq<string>, verb: string,
                                  bindings: seq<Binding>, handler: H, captures: seq<Binding>)
    requires path != []
  {
    WinsEdge(w, routes, e, path, verb) && w.handler == handler && captures == bindings + Bindings(w.segments, path)
  }

  /** The methods of the matching routes that leave by one edge. */
  ghost function EdgeMethods<H>(routes: seq<Route<H>>, e: Edge, path: seq<string>): multiset<string>
    requires path != []
  {
    MethodsAt(Under(routes, e), Below(path, e))
  }

  ghost predicate WinsEdge<H>(w: Route<H>, routes: seq<Route<H>>, e: Edge, path: seq<string>, verb: string)
    requires path != []
  {
    && w in routes && w.segments != [] && EdgeOf(w.segments[0]) == e && Serves(w, path, verb)
    && forall q :: q in routes && q.segments != [] && EdgeOf(q.segments[0]) == e && Serves(q, path, verb) ==>
         AtLeastAsSpecific(w.segments, q.segments)
  }

  lemma {:induction false} BranchAnswers<H>(
      t: Tree<H>, routes: seq<Route<H>>, e: Edge, path: seq<string>, verb: string, bindings: seq<Binding>)
    requires Holds(t, routes) && path != [] && Leads(e, path)
    ensures AnswersEdge(Branch(t, e, path, verb, bindings), routes, e, path, verb, bindings)
    decreases |path|, 0
  {
    assert HoldsEdge(t, routes, e);
    match Child(t, e)
    case None =>
    case Some(child) =>
      var bound := bindings + Bound(e, child.name, path);
      if e.Rest? {
        HereAnswers(child, Under(routes, e), verb, bound);
      } else {
        ResolveAnswers(child, Under(routes, e), path[1..], verb, bound);
      }
      LiftEdge(routes, e, child.name, path, verb, bindings, Branch(t, e, path, verb, bindings));
  }

  lemma LiftEdge<H>(
      routes: seq<Route<H>>, e: Edge, name: string, path: seq<string>, verb: string, bindings: seq<Binding>,
        r: Resolution<H>)
    requires path != [] && Leads(e, path) && NamedAs(routes, e, name)
    requires Answers(r, Under(routes, e), Below(path, e), verb, bindings + Bound(e, name, path))
    ensures AnswersEdge(r, routes, e, path, verb, bindings)
  {
    if r.Found? {
      var under, below := Under(routes, e), Below(path, e);
      var w :| w in under && Explains(w, under, below, verb, bindings + Bound(e, name, path), r.handler, r.captures);
      UnderMember(routes, e);
      var full :| full in routes && full.segments != [] && EdgeOf(full.segments[0]) == e && Tail(full) == w;
      LiftWinner(routes, e, path, verb, full);
      BindingsBelow(full.segments, path, name);
      Associative(bindings, Bound(e, name, path), Bindings(w.segments, below));
      assert ExplainsEdge(full, routes, e, path, verb, bindings, r.handler, r.captures);
    }
  }

  lemma Associative(a: seq<Binding>, b: seq<Binding>, c: seq<Binding>)
    ensures (a + b) + c == a + (b + c)
  {}

  lemma BindingsBelow(segments: seq<Segment>, path: seq<string>, name: string)
    requires path != [] && segments != [] && Matches(segments, path)
    requires segments[0].kind != Literal ==> segments[0].text == name
    ensures Matches(segments[1..], Below(path, EdgeOf(segments[0])))
    ensures Bindings(segments, path) ==
            Bound(EdgeOf(segments[0]), name, path) + Bindings(segments[1..], Below(path, EdgeOf(segments[0])))
  {
    MatchesBelow(segments, path);
  }

  lemma LiftWinner<H>(routes: seq<Route<H>>, e: Edge, path: seq<string>, verb: string, full: Route<H>)
    requires path != [] && Leads(e, path)
    requires full in routes && full.segments != [] && EdgeOf(full.segments[0]) == e
    requires Wins(Tail(full), Under(routes, e), Below(path, e), verb)
    ensures WinsEdge(full, routes, e, path, verb)
  {
    MatchesBelow(full.segments, path);
    UnderMember(routes, e);
    forall q | q in routes && q.segments != [] && EdgeOf(q.segments[0]) == e && Serves(q, path, verb)
      ensures AtLeastAsSpecific(full.segments, q.segments)
    {
      MatchesBelow(q.segments, path);
      assert Tail(q) in Under(routes, e) && Serves(Tail(q), Below(path, e), verb);
    }
  }

  /** Trying the edges in order and stopping at the first that serves picks the
      most specific route of all. */
  lemma JoinBranches<H>(routes: seq<Route<H>>, path: seq<string>, verb: string, bindings: seq<Binding>,
                        literal: Resolution<H>, capture: Resolution<H>, wildcard: Resolution<H>)
    requires path != []
    requires AnswersEdge(literal, routes, Text(path[0]), path, verb, bindings)
    requires AnswersEdge(capture, routes, Captured, path, verb, bindings)
    requires AnswersEdge(wildcard, routes, Rest, path, verb, bindings)
    requires MethodsAt(routes, path) ==
             EdgeMethods(routes, Text(path[0]), path) + EdgeMethods(routes, Captured, path) +
               EdgeMethods(routes, Rest, path)
    requires forall q :: q in routes && Serves(q, path, verb) ==> ServedVia(q, routes, path)
    ensures Answers(OrElse(OrElse(literal, capture), wildcard), routes, path, verb, bindings)
  {
    var result := OrElse(OrElse(literal, capture), wildcard);
    if literal.Found? {
      PromoteWinner(routes, Text(path[0]), path, verb, bindings, literal);
      assert result == literal;
    } else if capture.Found? {
      PromoteWinner(routes, Captured, path, verb, bindings, capture);
      assert result == capture;
    } else if wildcard.Found? {
      PromoteWinner(routes, Rest, path, verb, bindings, wildcard);
      assert result == wildcard;
    } else {
      assert result == Missed(literal.methods + capture.methods + wildcard.methods);
    }
  }

  /** The route leaves by an edge the walk tries, and is counted below it. */
  ghost predicate ServedVia<H>(q: Route<H>, routes: seq<Route<H>>, path: seq<string>)
    requires path != []
  {
    && q.segments != [] && Leads(EdgeOf(q.segments[0]), path)
    && q.verb in EdgeMethods(routes, EdgeOf(q.segments[0]), path)
  }

  lemma PromoteWinner<H>(
      routes: seq<Route<H>>, e: Edge, path: seq<string>, verb: string, bindings: seq<Binding>, r: Resolution<H>)
    requires path != [] && r.Found? && AnswersEdge(r, routes, e, path, verb, bindings)
    requires Leads(e, path)
    requires forall q :: q in routes && Serves(q, path, verb) ==> ServedVia(q, routes, path)
    requires EdgeRank(e) > 0 ==> verb !in EdgeMethods(routes, Text(path[0]), path)
    requires EdgeRank(e) > 1 ==> verb !in EdgeMethods(routes, Captured, path)
    ensures Answers(r, routes, path, verb, bindings)
  {
    forall q | q in routes && Serves(q, path, verb) && EdgeOf(q.segments[0]) != e
      ensures EdgeRank(e) < EdgeRank(EdgeOf(q.segments[0]))
    {
      assert ServedVia(q, routes, path);
    }
    var w :| w in routes && ExplainsEdge(w, routes, e, path, verb, bindings, r.handler, r.captures);
    assert Wins(w, routes, path, verb);
    assert Explains(w, routes, path, verb, bindings, r.handler, r.captures);
  }

  lemma HereAnswers<H>(t: Tree<H>, routes: seq<Route<H>>, verb: string, bindings: seq<Binding>)
    requires Holds(t, routes)
    ensures Answers(Here(t, verb, bindings), routes, [], verb, bindings)
  {
    MethodsAtMember(routes, [], verb);
    if verb in t.handlers {
      var w :| w in routes && Serves(w, [], verb);
      assert bindings == bindings + Bindings(w.segments, []);
      assert Explains(w, routes, [], verb, bindings, t.handlers[verb], bindings);
    } else {
      assert MethodsAt(routes, []) == multiset(t.handlers.Keys);
    }
  }

  /** The path that remains below an edge. */
  function Below(path: seq<string>, e: Edge): seq<string>
    requires path != []
  {
    if e.Rest? then [] else path[1..]
  }

  predicate Leads(e: Edge, path: seq<string>)
    requires path != []
  {
    e == Text(path[0]) || e == Captured || e == Rest
  }

  lemma MatchesBelow(segments: seq<Segment>, path: seq<string>)
    requires path != []
    ensures Matches(segments, path) <==>
            segments != [] && Leads(EdgeOf(segments[0]), path)
              && Matches(segments[1..], Below(path, EdgeOf(segments[0])))
  {}

  /** A matching route leaves by the literal, the capture or the wildcard edge,
      and by exactly one of them. */
  lemma {:induction false} SplitMethods<H>(routes: seq<Route<H>>, path: seq<string>)
    requires path != []
    ensures MethodsAt(routes, path) ==
            EdgeMethods(routes, Text(path[0]), path) + EdgeMethods(routes, Captured, path) +
              EdgeMethods(routes, Rest, path)
  {
    if routes != [] {
      SplitMethods(routes[1..], path);
      EdgeMethodsCons(routes, Text(path[0]), path);
      EdgeMethodsCons(routes, Captured, path);
      EdgeMethodsCons(routes, Rest, path);
      MatchesBelow(routes[0].segments, path);
    }
  }

  lemma EdgeMethodsCons<H>(routes: seq<Route<H>>, e: Edge, path: seq<string>)
    requires path != [] && routes != [] && Leads(e, path)
    ensures EdgeMethods(routes, e, path) == EdgeMethods(routes[1..], e, path) +
            var s := routes[0].segments;
            if s != [] && EdgeOf(s[0]) == e && Matches(s, path) then multiset{routes[0].verb} else multiset{}
  {
    MatchesBelow(routes[0].segments, path);
    if routes[0].segments != [] && EdgeOf(routes[0].segments[0]) == e {
      assert Under(routes, e)[1..] == Under(routes[1..], e);
    } else {
      assert Under(routes, e) == Under(routes[1..], e);
    }
  }

  lemma ServesBelow<H>(routes: seq<Route<H>>, path: seq<string>, verb: string)
    requires path != []
    ensures forall q :: q in routes && Serves(q, path, verb) ==> ServedVia(q, routes, path)
  {
    forall q | q in routes && Serves(q, path, verb) ensures ServedVia(q, routes, path) {
      MatchesBelow(q.segments, path);
      var e := EdgeOf(q.segments[0]);
      UnderMember(routes, e);
      assert Serves(Tail(q), Below(path, e), verb);
      MethodsAtMember(Under(routes, e), Below(path, e), verb);
    }
  }

  function EdgeRank(e: Edge): nat
  {
    match e case Text(_) => 0 case Captured => 1 case Rest => 2
  }
}
