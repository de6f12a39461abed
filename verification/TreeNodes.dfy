/** The tree of web/route_tree.go as the program holds it: nodes on the heap that
    insertion changes in place, and a walk whose captures are slices that share
    and overwrite one backing array. */
module TreeNodes {
  import opened Strings
  import opened Patterns
  import opened RouteSpec
  import T = RouteTree

  /** A slice header: a backing array and how much of it this slice can see. */
  datatype Slice = Slice(data: array<Binding>, len: nat)

  ghost predicate IsSlice(s: Slice) { s.len <= s.data.Length }

  ghost function Seen(s: Slice): seq<Binding>
    requires IsSlice(s)
    reads s.data
  {
    s.data[..s.len]
  }

  /** append: in place while the capacity lasts, whoever else shares the array,
      and into a larger array of whatever capacity the runtime picks after that. */
  method Bind(bindings: Slice, name: string, value: string) returns (r: Slice)
    requires IsSlice(bindings)
    modifies bindings.data
    ensures IsSlice(r) && Seen(r) == old(Seen(bindings)) + [Binding(name, value)]
    ensures r.data == bindings.data || fresh(r.data)
    ensures Seen(bindings) == old(Seen(bindings))
  {
    if bindings.len < bindings.data.Length {
      bindings.data[bindings.len] := Binding(name, value);
      r := Slice(bindings.data, bindings.len + 1);
    } else {
      var capacity: nat :| bindings.len < capacity;
      var grown := new Binding[capacity];
      for i := 0 to bindings.len
        invariant grown[..i] == bindings.data[..i]
        modifies grown
      {
        grown[i] := bindings.data[i];
      }
      grown[bindings.len] := Binding(name, value);
      r := Slice(grown, bindings.len + 1);
    }
  }

  /** captureValues: the bindings as a request carries them. */
  method CaptureValues(bindings: Slice) returns (values: map<string, string>)
    requires IsSlice(bindings)
    ensures values == Values(Seen(bindings))
  {
    values := map[];
    for i := 0 to bindings.len
      invariant values == Values(bindings.data[..i])
    {
      values := values[bindings.data[i].name := bindings.data[i].value];
      assert bindings.data[..i + 1] == bindings.data[..i] + [bindings.data[i]];
    }
  }

  function Values(bindings: seq<Binding>): map<string, string>
  {
    if bindings == [] then map[]
    else
      var last := bindings[|bindings| - 1];
      Values(bindings[..|bindings| - 1])[last.name := last.value]
  }

  /** What a walk over the nodes returns. */
  datatype Match<H> = Hit(handler: H, captures: Slice) | Miss(methods: seq<string>)

  /** The walk over the nodes answered as the walk over the tree they stand for. */
  ghost predicate Agrees<H>(m: Match<H>, r: T.Resolution<H>)
    reads if m.Hit? then {m.captures.data} else {}
  {
    match m
    case Hit(handler, captures) => IsSlice(captures) && r == T.Found(handler, Seen(captures))
    case Miss(methods) => r == T.Missed(multiset(methods))
  }

  class Node<H> {
    var literals: map<string, Node<H>>
    var capture: Node?<H>
    var wildcard: Node?<H>
    var name: string
    var handlers: map<string, H>
    var patterns: map<string, string>

    ghost var Repr: set<Node<H>>
    ghost var View: T.Tree<H>

    ghost function At(e: Edge): Node?<H>
      reads this
    {
      match e
      case Text(text) => if text in literals then literals[text] else null
      case Captured => capture
      case Rest => wildcard
    }

    ghost predicate Valid()
      reads this, Repr
      decreases Repr, 1
    {
      && this in Repr
      && (forall e :: ValidAt(e))
      && (forall e, f :: Apart(e, f))
      && View.name == name && View.handlers == handlers && View.patterns == patterns
    }

    ghost predicate ValidAt(e: Edge)
      requires this in Repr
      reads this, Repr
      decreases Repr, 0
    {
      if At(e) == null then T.Child(View, e) == None
      else
        && At(e) in Repr && At(e) in At(e).Repr && At(e).Repr <= Repr && this !in At(e).Repr && At(e).Valid()
        && T.Child(View, e) == Some(At(e).View)
    }

    ghost predicate Apart(e: Edge, f: Edge)
      reads this, Repr
    {
      e != f && At(e) != null && At(f) != null ==> At(e) in Repr && At(f) in Repr && At(e).Repr !! At(f).Repr
    }

    constructor (name: string)
      ensures Valid() && Repr == {this} && View == T.Empty(name)
    {
      this.name := name;
      literals, capture, wildcard, handlers, patterns := map[], null, null, map[], map[];
      Repr, View := {this}, T.Empty(name);
      new;
      forall e ensures At(e) == null {}
      forall e, f ensures Apart(e, f) {}
    }

    /** Put a fresh node where a segment leads and nothing was. */
    method Link(part: Segment) returns (child: Node<H>)
      requires Valid() && At(EdgeOf(part)) == null
      modifies this
      ensures Valid() && fresh(child) && Repr == old(Repr) + {child}
      ensures child == At(EdgeOf(part)) && child.View == T.Empty(if part.kind == Literal then "" else part.text)
      ensures View == T.WithChild(old(View), EdgeOf(part), child.View)
    {
      child := new Node<H>(if part.kind == Literal then "" else part.text);
      match part.kind {
        case Literal => literals := literals[part.text := child];
        case Capture => capture := child;
        case Wildcard => wildcard := child;
      }
      ghost var e := EdgeOf(part);
      Repr, View := Repr + {child}, T.WithChild(View, e, child.View);
      assert forall f :: At(f) == if f == e then child else old(At(f));
      forall f ensures ValidAt(f) {
        assert old(ValidAt(f));
      }
      forall f, g ensures Apart(f, g) {
        assert old(ValidAt(f)) && old(ValidAt(g)) && old(Apart(f, g));
      }
    }

    /** childFor and claimSlot: find or make the node a segment leads to, or
        refuse a slot that is claimed under another name and change nothing. */
    method ChildFor(part: Segment) returns (child: Node?<H>)
      requires Valid()
      modifies this
      ensures Valid() && fresh(Repr - old(Repr)) && old(Repr) <= Repr
      ensures child == null ==> T.ChildFor(old(View), part) == None && View == old(View)
      ensures child != null ==>
        && child == At(EdgeOf(part)) && T.ChildFor(old(View), part) == Some(child.View)
        && View == (if T.Child(old(View), EdgeOf(part)) == None then T.WithChild(old(View), EdgeOf(part), child.View)
          else old(View))
    {
      assert ValidAt(EdgeOf(part));
      match part.kind
      case Literal =>
        if part.text !in literals {
          child := Link(part);
        } else {
          child := literals[part.text];
        }
      case Capture =>
        if capture == null {
          child := Link(part);
        } else if capture.name != part.text {
          assert capture.Valid();
          child := null;
        } else {
          assert capture.Valid();
          child := capture;
        }
      case Wildcard =>
        if wildcard == null {
          child := Link(part);
        } else if wildcard.name != part.text {
          assert wildcard.Valid();
          child := null;
        } else {
          assert wildcard.Valid();
          child := wildcard;
        }
    }

    /** A node whose one child has grown is valid again, once its own record of
        the child is brought up to date. */
    twostate lemma Regrown(e: Edge)
      requires old(Valid()) && old(At(e)) != null && (forall f :: At(f) == old(At(f)))
      requires At(e).Valid() && old(At(e).Repr) <= At(e).Repr && fresh(At(e).Repr - old(At(e).Repr))
      requires forall n :: n in old(Repr) && n != this && n !in old(At(e).Repr) ==> unchanged(n)
      requires Repr == old(Repr) + At(e).Repr && handlers == old(handlers) && patterns == old(patterns)
        && name == old(name)
      requires View.name == name && View.handlers == handlers && View.patterns == patterns
      requires forall f :: T.Child(View, f) == if f == e then Some(At(e).View) else T.Child(old(View), f)
      ensures Valid()
    {
      assert old(ValidAt(e));
      forall f ensures ValidAt(f) {
        assert old(ValidAt(f)) && old(Apart(e, f));
      }
      forall f, g ensures Apart(f, g) {
        assert old(ValidAt(f)) && old(ValidAt(g));
        assert old(Apart(f, g)) && old(Apart(e, f)) && old(Apart(e, g));
      }
    }

    /** The end of an insertion: one handler per method, and the first stays. */
    method Serve(verb: string, handler: H, pattern: string) returns (ok: bool)
      requires Valid()
      modifies this
      ensures Valid() && Repr == old(Repr)
      ensures ok <==> T.Insert(old(View), [], verb, handler, pattern).Some?
      ensures View == if ok then T.Insert(old(View), [], verb, handler, pattern).value else old(View)
    {
      if verb in patterns {
        return false;
      }
      handlers, patterns := handlers[verb := handler], patterns[verb := pattern];
      View := View.(handlers := handlers, patterns := patterns);
      forall e ensures ValidAt(e) { assert old(ValidAt(e)); }
      forall e, f ensures Apart(e, f) { assert old(Apart(e, f)); }
      ok := true;
    }

    /** insert: a route added in place, or refused with the tree as it was. */
    method Insert(segments: seq<Segment>, verb: string, handler: H, pattern: string) returns (ok: bool)
      requires Valid()
      modifies Repr
      ensures Valid() && fresh(Repr - old(Repr)) && old(Repr) <= Repr
      ensures ok <==> T.Insert(old(View), segments, verb, handler, pattern).Some?
      ensures View == if ok then T.Insert(old(View), segments, verb, handler, pattern).value else old(View)
      decreases |segments|
    {
      if segments == [] {
        ok := Serve(verb, handler, pattern);
        return;
      }
      ghost var e := EdgeOf(segments[0]);
      var child := ChildFor(segments[0]);
      if child == null {
        return false;
      }
      assert ValidAt(e);
      label found:
      ok := child.Insert(segments[1..], verb, handler, pattern);
      Repr := Repr + child.Repr;
      if ok {
        T.WithChildTwice(old(View), e, old@found(child.View), child.View);
        View := T.WithChild(View, e, child.View);
      } else {
        T.EmptyAccepts(child.name, segments[1..], verb, handler, pattern);
      }
      Regrown@found(e);
    }

    /** here: the handler for a path that ends at this node, or the methods it
        has, in whatever order the map is ranged over. */
    method Here(verb: string, bindings: Slice) returns (m: Match<H>)
      requires Valid() && IsSlice(bindings)
      ensures Agrees(m, T.Here(View, verb, Seen(bindings)))
      ensures m.Hit? ==> m.captures == bindings
    {
      if verb in handlers {
        return Hit(handlers[verb], bindings);
      }
      var methods: seq<string> := [];
      var left := handlers.Keys;
      while left != {}
        invariant left <= handlers.Keys
        invariant multiset(methods) == multiset(handlers.Keys - left)
        decreases left
      {
        var key :| key in left;
        assert handlers.Keys - (left - {key}) == (handlers.Keys - left) + {key};
        left, methods := left - {key}, methods + [key];
      }
      assert handlers.Keys - left == handlers.Keys;
      m := Miss(methods);
    }

    /** What every branch of the walk promises: the answer of the same branch of
        the tree, and an untouched view of the bindings it was given. */
    twostate predicate Branched(e: Edge, path: seq<string>, verb: string, bindings: Slice, new m: Match<H>)
      requires path != [] && IsSlice(bindings)
      reads this, bindings.data, if m.Hit? then {m.captures.data} else {}
    {
      && Agrees(m, T.Branch(View, e, path, verb, old(Seen(bindings))))
      && Seen(bindings) == old(Seen(bindings))
    }

    method TryLiteral(path: seq<string>, verb: string, bindings: Slice) returns (m: Match<H>)
      requires Valid() && IsSlice(bindings) && path != []
      modifies bindings.data
      ensures Branched(Text(path[0]), path, verb, bindings, m)
      ensures m.Hit? ==> m.captures.data == bindings.data || fresh(m.captures.data)
      decreases |path|, 0
    {
      assert ValidAt(Text(path[0])) && Seen(bindings) + [] == Seen(bindings);
      if path[0] in literals {
        m := literals[path[0]].Resolve(path[1..], verb, bindings);
      } else {
        m := Miss([]);
      }
    }

    method TryCapture(path: seq<string>, verb: string, bindings: Slice) returns (m: Match<H>)
      requires Valid() && IsSlice(bindings) && path != []
      modifies bindings.data
      ensures Branched(Captured, path, verb, bindings, m)
      ensures m.Hit? ==> m.captures.data == bindings.data || fresh(m.captures.data)
      decreases |path|, 0, 0
    {
      assert ValidAt(Captured);
      if capture != null {
        var bound := Bind(bindings, capture.name, path[0]);
        m := capture.Resolve(path[1..], verb, bound);
        if bound.data == bindings.data { Prefix(bindings, bound); }
      } else {
        m := Miss([]);
      }
    }

    method TryWildcard(path: seq<string>, verb: string, bindings: Slice) returns (m: Match<H>)
      requires Valid() && IsSlice(bindings) && path != []
      modifies bindings.data
      ensures Branched(Rest, path, verb, bindings, m)
      ensures m.Hit? ==> m.captures.data == bindings.data || fresh(m.captures.data)
    {
      assert ValidAt(Rest);
      if wildcard != null {
        var bound := Bind(bindings, wildcard.name, Join(path));
        m := wildcard.Here(verb, bound);
      } else {
        m := Miss([]);
      }
    }

    /** resolve: the walk that backtracks. Every branch may write into the array
        the others share; what a successful branch returns, and what the caller
        still sees, is as if each had copied. */
    method Resolve(path: seq<string>, verb: string, bindings: Slice) returns (m: Match<H>)
      requires Valid() && IsSlice(bindings)
      modifies bindings.data
      ensures Agrees(m, T.Resolve(View, path, verb, old(Seen(bindings))))
      ensures Seen(bindings) == old(Seen(bindings))
      ensures m.Hit? ==> m.captures.data == bindings.data || fresh(m.captures.data)
      decreases |path|, 1
    {
      if path == [] {
        m := Here(verb, bindings);
        return;
      }
      m := TryLiteral(path, verb, bindings);
      if m.Miss? {
        var methods := m.methods;
        m := TrySlots(path, verb, bindings);
        if m.Miss? {
          m := Miss(methods + m.methods);
        }
      }
      T.OrElseAssociative(T.Branch(View, Text(path[0]), path, verb, Seen(bindings)),
                          T.Branch(View, Captured, path, verb, Seen(bindings)),
                            T.Branch(View, Rest, path, verb, Seen(bindings)));
    }

    /** The capture, and the wildcard after it. */
    method TrySlots(path: seq<string>, verb: string, bindings: Slice) returns (m: Match<H>)
      requires Valid() && IsSlice(bindings) && path != []
      modifies bindings.data
      ensures Agrees(m,
        T.OrElse(T.Branch(View, Captured, path, verb, old(Seen(bindings))),
          T.Branch(View, Rest, path, verb, old(Seen(bindings)))))
      ensures Seen(bindings) == old(Seen(bindings))
      ensures m.Hit? ==> m.captures.data == bindings.data || fresh(m.captures.data)
      decreases |path|, 0, 1
    {
      m := TryCapture(path, verb, bindings);
      if m.Miss? {
        var methods := m.methods;
        m := TryWildcard(path, verb, bindings);
        if m.Miss? {
          m := Miss(methods + m.methods);
        }
      }
    }
  }

  /** What a slice sees is a prefix of what a slice appended to it saw. */
  lemma Prefix(s: Slice, t: Slice)
    requires IsSlice(s) && IsSlice(t) && s.len <= t.len && s.data == t.data
    ensures Seen(s) == Seen(t)[..s.len]
  {}
}
