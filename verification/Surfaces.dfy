/** Assembly and dispatch (web/routes.go): which lists of routes make a surface,
    what a surface answers, and the rebuilds that cannot fail. */
module Surfaces {
  import opened Strings
  import opened Patterns
  import opened RouteSpec
  import opened TreeNodes
  import T = RouteTree

  /** A route as a caller hands it over: it may carry a declaration mistake. */
  datatype Declared<H> = Declared(route: Route<H>, faulty: bool)

  datatype AssemblyError = NoRejection | NoRoutes | RouteFault(index: nat) | Ambiguous(index: nat)

  datatype Assembled<H> = Surface(tree: Node?<H>, routes: seq<Declared<H>>) | Refusal(why: AssemblyError)

  ghost function RoutesOf<H>(declared: seq<Declared<H>>): (r: seq<Route<H>>)
    ensures |r| == |declared| && forall i :: 0 <= i < |r| ==> r[i] == declared[i].route
  {
    seq(|declared|, i requires 0 <= i < |declared| => declared[i].route)
  }

  /** The route at i conflicts with one before it. */
  ghost predicate Clashes<H>(routes: seq<Route<H>>, i: nat)
    requires i < |routes|
  {
    exists j :: 0 <= j < i && Conflict(routes[j], routes[i])
  }

  /** Nothing is wrong with the first n routes, alone or together. */
  ghost predicate FineUpTo<H>(declared: seq<Declared<H>>, n: nat)
    requires n <= |declared|
  {
    forall i :: 0 <= i < n ==> !declared[i].faulty && !Clashes(RoutesOf(declared), i)
  }

  /** What assembly must answer. */
  ghost predicate Verdict<H>(hasRejection: bool, declared: seq<Declared<H>>, r: Assembled<H>)
  {
    match r
    case Surface(_, routes) => hasRejection && declared != [] && FineUpTo(declared, |declared|) && routes == declared
    case Refusal(NoRejection) => !hasRejection
    case Refusal(NoRoutes) => hasRejection && declared == []
    case Refusal(RouteFault(i)) => hasRejection && i < |declared| && FineUpTo(declared, i) && declared[i].faulty
    case Refusal(Ambiguous(i)) =>
      hasRejection && i < |declared| && FineUpTo(declared, i) && !declared[i].faulty && Clashes(RoutesOf(declared), i)
  }

  /** NewRoutesWithRejection. */
  method NewRoutes<H>(hasRejection: bool, declared: seq<Declared<H>>) returns (r: Assembled<H>)
    ensures Verdict(hasRejection, declared, r)
    ensures r.Surface? ==>
      r.tree != null && r.tree.Valid() && fresh(r.tree.Repr) && T.Holds(r.tree.View, RoutesOf(declared))
  {
    if !hasRejection {
      return Refusal(NoRejection);
    }
    if |declared| == 0 {
      return Refusal(NoRoutes);
    }
    var tree, at := InsertAll(declared);
    GrownVerdict(declared, at);
    if at == |declared| {
      GrownHolds(RoutesOf(declared), at);
      assert RoutesOf(declared)[..at] == RoutesOf(declared);
      r := Surface(tree, declared);
    } else if declared[at].faulty {
      r := Refusal(RouteFault(at));
    } else {
      r := Refusal(Ambiguous(at));
    }
  }

  /** The loop of NewRoutesWithRejection: insert each route, up to the first that
      is faulty or refused. */
  method InsertAll<H>(declared: seq<Declared<H>>) returns (tree: Node<H>, at: nat)
    ensures tree.Valid() && fresh(tree.Repr)
    ensures at <= |declared| && (forall i :: 0 <= i < at ==> !declared[i].faulty)
    ensures Grown(RoutesOf(declared), at) == Some(tree.View)
    ensures at < |declared| ==> declared[at].faulty || Grown(RoutesOf(declared), at + 1) == None
  {
    tree := new Node<H>("");
    at := 0;
    ghost var routes := RoutesOf(declared);
    while at < |declared|
      invariant at <= |declared| && (forall i :: 0 <= i < at ==> !declared[i].faulty)
      invariant tree.Valid() && fresh(tree.Repr) && Grown(routes, at) == Some(tree.View)
    {
      if declared[at].faulty {
        return;
      }
      var route := declared[at].route;
      var pattern := RenderPattern(route.segments);
      var ok := tree.Insert(route.segments, route.verb, route.handler, pattern);
      if !ok {
        return;
      }
      at := at + 1;
    }
  }

  lemma GrownVerdict<H>(declared: seq<Declared<H>>, at: nat)
    requires at <= |declared| && (forall i :: 0 <= i < at ==> !declared[i].faulty)
    requires Grown(RoutesOf(declared), at).Some?
    ensures FineUpTo(declared, at)
    ensures at < |declared| && Grown(RoutesOf(declared), at + 1) == None ==> Clashes(RoutesOf(declared), at)
  {
    var routes := RoutesOf(declared);
    GrownIff(routes, at);
    if at < |declared| { GrownIff(routes, at + 1); }
  }

  lemma GrownIff<H>(routes: seq<Route<H>>, n: nat)
    requires n <= |routes|
    ensures Grown(routes, n).Some? <==> forall i :: 0 <= i < n ==> !Clashes(routes, i)
  {
    GrownHolds(routes, n);
  }

  /** The tree after the first n insertions, if none was refused. */
  ghost function Grown<H>(routes: seq<Route<H>>, n: nat): Option<T.Tree<H>>
    requires n <= |routes|
  {
    if n == 0 then Some(T.Empty(""))
    else
      match Grown(routes, n - 1)
      case None => None
      case Some(t) =>
        T.Insert(t, routes[n - 1].segments, routes[n - 1].verb, routes[n - 1].handler, Render(routes[n - 1].segments))
  }

  /** Insertions succeed as long as no route clashes with an earlier one, and
      then the tree holds exactly what was inserted. */
  lemma {:induction false} GrownHolds<H>(routes: seq<Route<H>>, n: nat)
    requires n <= |routes|
    ensures Grown(routes, n).Some? <==> forall i :: 0 <= i < n ==> !Clashes(routes, i)
    ensures Grown(routes, n).Some? ==> T.Holds(Grown(routes, n).value, routes[..n])
  {
    if n == 0 {
      T.EmptyHolds<H>("");
      assert routes[..0] == [];
    } else {
      GrownHolds(routes, n - 1);
      if Grown(routes, n - 1).Some? {
        T.InsertHolds(Grown(routes, n - 1).value, routes[..n - 1], routes[n - 1], Render(routes[n - 1].segments));
        assert routes[..n] == routes[..n - 1] + [routes[n - 1]];
        EarlierRoutes(routes, n - 1);
      }
    }
  }

  lemma EarlierRoutes<H>(routes: seq<Route<H>>, i: nat)
    requires i < |routes|
    ensures Clashes(routes, i) <==> exists q :: q in routes[..i] && Conflict(q, routes[i])
  {
    if j :| 0 <= j < i && Conflict(routes[j], routes[i]) { assert routes[..i][j] == routes[j]; }
    if q :| q in routes[..i] && Conflict(q, routes[i]) {
      var j :| 0 <= j < |routes[..i]| && routes[..i][j] == q;
      assert routes[j] == q;
    }
  }

  /** No route clashes with an earlier one exactly when no two conflict at all. */
  lemma FineIffCompatible<H>(declared: seq<Declared<H>>)
    ensures FineUpTo(declared, |declared|) <==>
            (forall i :: 0 <= i < |declared| ==> !declared[i].faulty) && Compatible(RoutesOf(declared))
  {
    var routes := RoutesOf(declared);
    if FineUpTo(declared, |declared|) {
      forall i, j | 0 <= i < j < |routes| ensures !Conflict(routes[i], routes[j]) {
        assert !Clashes(routes, j);
      }
    }
  }

  /** What a request is answered with. */
  datatype Response<H> =
    | Handled(handler: H, captures: map<string, string>)
    | MethodNotAllowed(allow: seq<string>)
    | NotFound

  /** The right answer to a request, over the flat list of routes. */
  ghost predicate Right<H>(r: Response<H>, routes: seq<Route<H>>, path: string, verb: string)
  {
    var parts := PathSegments(path);
    match r
    case Handled(handler, captures) =>
      exists w :: w in routes && Wins(w, routes, parts, verb) && w.handler == handler
        && captures == Values(Bindings(w.segments, parts))
    case MethodNotAllowed(allow) =>
      && (forall w :: w in routes ==> !Serves(w, parts, verb))
      && (exists w :: w in routes && Matches(w.segments, parts))
      && IsSorted(allow) && multiset(allow) == MethodsAt(routes, parts)
    case NotFound => forall w :: w in routes ==> !Matches(w.segments, parts)
  }

  /** Routes.Handler: resolve the path and answer from what the walk found. */
  method Handle<H>(tree: Node<H>, ghost routes: seq<Route<H>>, path: string, verb: string) returns (r: Response<H>)
    requires tree.Valid() && T.Holds(tree.View, routes)
    ensures Right(r, routes, path, verb)
  {
    var parts := PathSegments(path);
    var none := new Binding[0];
    var m := tree.Resolve(parts, verb, Slice(none, 0));
    T.ResolveAnswers(tree.View, routes, parts, verb, []);
    MethodsAtMember(routes, parts, verb);
    if m.Hit? {
      var values := CaptureValues(m.captures);
      r := Handled(m.handler, values);
      ghost var w :| w in routes && T.Explains(w, routes, parts, verb, [], m.handler, Seen(m.captures));
      assert Seen(m.captures) == [] + Bindings(w.segments, parts) == Bindings(w.segments, parts);
    } else if |m.methods| > 0 {
      r := MethodNotAllowed(Sort(m.methods));
      assert m.methods[0] in MethodsAt(routes, parts);
      MethodsAtMember(routes, parts, m.methods[0]);
    } else {
      r := NotFound;
      forall w | w in routes ensures !Matches(w.segments, parts) {
        MethodsAtMember(routes, parts, w.verb);
        assert w.verb in MethodsAt(routes, parts) ==> |MethodsAt(routes, parts)| > 0;
        assert !Serves(w, parts, w.verb);
      }
    }
  }

  lemma {:induction false} MethodsAtConcat<H>(a: seq<Route<H>>, b: seq<Route<H>>, path: seq<string>)
    ensures MethodsAt(a + b, path) == MethodsAt(a, path) + MethodsAt(b, path)
  {
    if a == [] {
      assert a + b == b;
    } else {
      assert (a + b)[1..] == a[1..] + b;
      MethodsAtConcat(a[1..], b, path);
    }
  }

  lemma MethodsAtWithout<H>(routes: seq<Route<H>>, i: nat, rest: seq<Route<H>>, path: seq<string>)
    requires i < |routes| && rest == routes[..i] + routes[i + 1..]
    ensures multiset(rest) == multiset(routes) - multiset{routes[i]}
    ensures MethodsAt(routes, path) == MethodsAt([routes[i]], path) + MethodsAt(rest, path)
  {
    assert routes == routes[..i] + ([routes[i]] + routes[i + 1..]);
    MethodsAtConcat(routes[..i], [routes[i]] + routes[i + 1..], path);
    MethodsAtConcat([routes[i]], routes[i + 1..], path);
    MethodsAtConcat(routes[..i], routes[i + 1..], path);
  }

  lemma {:induction false} MethodsAtPermuted<H>(a: seq<Route<H>>, b: seq<Route<H>>, path: seq<string>)
    requires multiset(a) == multiset(b)
    ensures MethodsAt(a, path) == MethodsAt(b, path)
  {
    if a == [] {
      assert |multiset(b)| == |b|;
    } else {
      var first, rest := a[0], a[1..];
      assert first in multiset(a);
      assert first in b;
      var i :| 0 <= i < |b| && b[i] == first;
      var others := b[..i] + b[i + 1..];
      assert a[..0] + rest == rest;
      MethodsAtWithout(a, 0, rest, path);
      MethodsAtWithout(b, i, others, path);
      MethodsAtPermuted(rest, others, path);
    }
  }

  /** Compatibility is a property of the collection and not of its order. */
  ghost predicate CompatibleCollection<H>(routes: multiset<Route<H>>)
  {
    && (forall r :: r in routes ==> routes[r] == 1)
    && (forall r, q :: r in routes && q in routes && r != q ==> !Conflict(r, q))
  }

  lemma CompatibleAsCollection<H>(routes: seq<Route<H>>)
    ensures Compatible(routes) <==> CompatibleCollection(multiset(routes))
  {
    if Compatible(routes) {
      forall r | r in multiset(routes) ensures multiset(routes)[r] == 1 {
        CompatibleOnce(routes, r);
      }
      forall r, q | r in multiset(routes) && q in multiset(routes) && r != q ensures !Conflict(r, q) {
        var i :| 0 <= i < |routes| && routes[i] == r;
        var j :| 0 <= j < |routes| && routes[j] == q;
        ConflictSymmetric(r, q);
      }
    }
    if CompatibleCollection(multiset(routes)) {
      forall i, j | 0 <= i < j < |routes| ensures !Conflict(routes[i], routes[j]) {
        if routes[i] == routes[j] { CountedTwice(routes, i, j); }
        assert routes[i] in multiset(routes) && routes[j] in multiset(routes);
      }
    }
  }

  lemma {:induction false} CompatibleOnce<H>(routes: seq<Route<H>>, r: Route<H>)
    requires Compatible(routes) && r in routes
    ensures multiset(routes)[r] == 1
  {
    var init, last := routes[..|routes| - 1], routes[|routes| - 1];
    assert routes == init + [last];
    if r in init {
      var i :| 0 <= i < |init| && init[i] == r;
      assert Conflict(r, r) && routes[i] == r;
      CompatibleOnce(init, r);
    } else {
      assert r !in multiset(init);
    }
  }

  /** Neither the order the routes are declared in nor the order a map is ranged
      over shows in an answer: a compatible collection of routes has one right
      answer to each request. */
  lemma AnswerUnique<H>(
      routes: seq<Route<H>>, others: seq<Route<H>>, path: string, verb: string, a: Response<H>, b: Response<H>)
    requires Compatible(routes) && multiset(routes) == multiset(others)
    requires Right(a, routes, path, verb) && Right(b, others, path, verb)
    ensures Compatible(others) && a == b
  {
    var parts := PathSegments(path);
    CompatibleAsCollection(routes);
    CompatibleAsCollection(others);
    assert forall r :: r in routes <==> r in multiset(routes);
    assert forall r :: r in others <==> r in multiset(others);
    if a.Handled? && b.Handled? {
      var w :| w in routes && Wins(w, routes, parts, verb) && w.handler == a.handler
        && a.captures == Values(Bindings(w.segments, parts));
      var v :| v in others && Wins(v, others, parts, verb) && v.handler == b.handler
        && b.captures == Values(Bindings(v.segments, parts));
      assert Wins(v, routes, parts, verb);
      WinnerUnique(routes, parts, verb, w, v);
    } else if a.MethodNotAllowed? && b.MethodNotAllowed? {
      MethodsAtPermuted(routes, others, parts);
      SortedUnique(a.allow, b.allow);
    }
  }

  /** The routes of a surface with every handler replaced and nothing else. */
  ghost function Rewrapped<H>(routes: seq<Route<H>>, wrap: Route<H> -> H): (r: seq<Route<H>>)
    ensures |r| == |routes| && forall i :: 0 <= i < |r| ==> r[i] == routes[i].(handler := wrap(routes[i]))
  {
    seq(|routes|, i requires 0 <= i < |routes| => routes[i].(handler := wrap(routes[i])))
  }

  lemma RewrappedCompatible<H>(routes: seq<Route<H>>, wrap: Route<H> -> H)
    ensures Compatible(Rewrapped(routes, wrap)) <==> Compatible(routes)
  {
    forall a: Route<H>, b: Route<H> | a in routes && b in routes
      ensures Conflict(a.(handler := wrap(a)), b.(handler := wrap(b))) <==> Conflict(a, b)
    {}
  }

  lemma RewrappedMembers<H>(routes: seq<Route<H>>, wrap: Route<H> -> H)
    ensures forall q :: q in routes ==> q.(handler := wrap(q)) in Rewrapped(routes, wrap)
    ensures forall q :: q in Rewrapped(routes, wrap) ==> exists p :: p in routes && q == p.(handler := wrap(p))
  {
    var again := Rewrapped(routes, wrap);
    forall q | q in routes ensures q.(handler := wrap(q)) in again {
      var j :| 0 <= j < |routes| && routes[j] == q;
      assert again[j] == q.(handler := wrap(q));
    }
    forall q | q in again ensures exists p :: p in routes && q == p.(handler := wrap(p)) {
      var j :| 0 <= j < |again| && again[j] == q;
      assert routes[j] in routes;
    }
  }

  lemma RewrappedWins<H>(routes: seq<Route<H>>, wrap: Route<H> -> H, parts: seq<string>, verb: string, w: Route<H>)
    requires w in routes
    ensures Wins(w.(handler := wrap(w)), Rewrapped(routes, wrap), parts, verb) <==> Wins(w, routes, parts, verb)
  {
    var again := Rewrapped(routes, wrap);
    RewrappedMembers(routes, wrap);
    if Wins(w.(handler := wrap(w)), again, parts, verb) {
      forall q | q in routes && Serves(q, parts, verb) ensures AtLeastAsSpecific(w.segments, q.segments) {
        assert q.(handler := wrap(q)) in again && Serves(q.(handler := wrap(q)), parts, verb);
      }
    }
  }

  /** A rebuilt surface answers every request as before, save that the winning
      route's handler is the wrapped one. */
  lemma RebuiltAnswers<H>(
      routes: seq<Route<H>>, wrap: Route<H> -> H, path: string, verb: string, a: Response<H>, b: Response<H>)
    requires Compatible(routes) && Right(a, routes, path, verb) && Right(b, Rewrapped(routes, wrap), path, verb)
    ensures !a.Handled? ==> a == b
    ensures a.Handled? ==> b.Handled? && a.captures == b.captures
    ensures a.Handled? ==>
      exists w :: w in routes && Wins(w, routes, PathSegments(path), verb) && a.handler == w.handler
        && b.handler == wrap(w)
  {
    var parts, again := PathSegments(path), Rewrapped(routes, wrap);
    RewrappedMembers(routes, wrap);
    RewrappedMethods(routes, wrap, parts);
    if a.Handled? {
      var w :| w in routes && Wins(w, routes, parts, verb) && w.handler == a.handler
        && a.captures == Values(Bindings(w.segments, parts));
      RewrappedWins(routes, wrap, parts, verb, w);
      RewrappedCompatible(routes, wrap);
      var again' := w.(handler := wrap(w));
      assert again' in again && Serves(again', parts, verb);
      var v :| v in again && Wins(v, again, parts, verb) && v.handler == b.handler
        && b.captures == Values(Bindings(v.segments, parts));
      WinnerUnique(again, parts, verb, again', v);
    } else if a.MethodNotAllowed? {
      var w :| w in routes && Matches(w.segments, parts);
      assert w.(handler := wrap(w)) in again;
      if b.MethodNotAllowed? { SortedUnique(a.allow, b.allow); }
    }
  }

  lemma {:induction false} RewrappedMethods<H>(routes: seq<Route<H>>, wrap: Route<H> -> H, path: seq<string>)
    ensures MethodsAt(Rewrapped(routes, wrap), path) == MethodsAt(routes, path)
  {
    if routes != [] {
      assert Rewrapped(routes, wrap)[1..] == Rewrapped(routes[1..], wrap);
      RewrappedMethods(routes[1..], wrap, path);
    }
  }

  /** WithMiddleware, withPhases and WithNaming: copies of the routes, rebuilt.
      The error branch, which would answer with the old surface, is never taken;
      a surface of no routes stays itself. */
  method Rebuild<H>(surface: Assembled<H>, wrap: Route<H> -> H) returns (r: Assembled<H>)
    requires surface.Surface? && FineUpTo(surface.routes, |surface.routes|)
    ensures r.Surface? && (surface.routes == [] ==> r == surface)
    ensures surface.routes != [] ==>
      && r.tree != null && r.tree.Valid() && fresh(r.tree.Repr)
      && T.Holds(r.tree.View, Rewrapped(RoutesOf(surface.routes), wrap))
    ensures FineUpTo(r.routes, |r.routes|) && RoutesOf(r.routes) == Rewrapped(RoutesOf(surface.routes), wrap)
  {
    if |surface.routes| == 0 {
      return surface;
    }
    var copies: seq<Declared<H>> := [];
    ghost var routes := RoutesOf(surface.routes);
    for i := 0 to |surface.routes|
      invariant |copies| == i
      invariant forall j :: 0 <= j < i ==>
        copies[j] == Declared(routes[j].(handler := wrap(routes[j])), surface.routes[j].faulty)
    {
      var route := surface.routes[i].route;
      copies := copies + [Declared(route.(handler := wrap(route)), surface.routes[i].faulty)];
    }
    assert RoutesOf(copies) == Rewrapped(routes, wrap);
    RewrappedCompatible(routes, wrap);
    FineIffCompatible(surface.routes);
    FineIffCompatible(copies);
    r := NewRoutes(true, copies);
    RefusedIff(copies, r);
    if r.Refusal? {
      r := surface;
    }
  }

  lemma RefusedIff<H>(declared: seq<Declared<H>>, r: Assembled<H>)
    requires Verdict(true, declared, r)
    ensures r.Refusal? <==> declared == [] || !FineUpTo(declared, |declared|)
  {}
}
