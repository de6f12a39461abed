/** The in-process AMQP 0-9-1 broker (amqp091/inprocess): its state, and each thing
    it does under one lock or by one channel operation as a function of that state. */
module Broker091 {

  datatype Kind = Direct | Fanout | Other

  datatype Binding = Binding(exchange: string, queue: string, key: string)

  datatype Target = Target(exchange: string, key: string)

  datatype Message = Message(body: string, contentType: string, headers: string)

  datatype Delivery = Delivery(
    body: string, contentType: string, headers: string,
    exchange: string, key: string, tag: nat, redelivered: bool)

  datatype Placement = Placement(queue: string, delivery: Delivery)

  /** A queue's channel and the deliveries handed out and not settled. */
  datatype Queue = Queue(backlog: seq<Delivery>, unsettled: map<nat, Delivery>)

  datatype Error = NoSuchQueue | NoSuchExchange | NotRoutable | UnknownTag | QueueFull

  datatype Result<+T> = Ok(value: T) | Err(error: Error)

  const CAPACITY := 1024

  datatype State = State(
    exchanges: map<string, Kind>,
    queues: map<string, Queue>,
    bindings: seq<Binding>,
    tag: nat,
    acks: seq<nat>,
    discards: seq<nat>,
    requeues: seq<nat>)

  const EMPTY := State(map[], map[], [], 0, [], [], [])

  function Routed(bindings: seq<Binding>, kind: Kind, target: Target): seq<string>
  {
    if bindings == [] then []
    else
      var first := bindings[0];
      (if first.exchange == target.exchange && (kind == Fanout || first.key == target.key) then [first.queue] else [])
      + Routed(bindings[1..], kind, target)
  }

  predicate Leads(binding: Binding, kind: Kind, target: Target)
  {
    binding.exchange == target.exchange && (kind != Fanout ==> binding.key == target.key)
  }

  function RouteTargets(b: State, target: Target): Result<seq<string>>
  {
    if target.exchange == "" then Ok([target.key])
    else if target.exchange !in b.exchanges then Err(NoSuchExchange)
    else if b.exchanges[target.exchange] == Other then Err(NotRoutable)
    else Ok(Routed(b.bindings, b.exchanges[target.exchange], target))
  }

  /** The binding at this place is of the target's exchange and, when that is a direct
      one, by its key. */
  ghost predicate LetsThrough(b: State, target: Target, i: nat)
    requires i < |b.bindings|
  {
    && b.bindings[i].exchange == target.exchange && target.exchange in b.exchanges
    && (b.exchanges[target.exchange] == Direct ==> b.bindings[i].key == target.key)
  }

  ghost predicate Rising(at: seq<nat>, n: nat)
  {
    (forall k :: 0 <= k < |at| ==> at[k] < n) && (forall k, l :: 0 <= k < l < |at| ==> at[k] < at[l])
  }

  /** These are, in order, the places below n of the bindings that let it through. */
  ghost predicate LeadingAt(b: State, target: Target, at: seq<nat>, n: nat)
    requires n <= |b.bindings|
  {
    Rising(at, n) && forall i: nat :: i < n ==> (i in at <==> LetsThrough(b, target, i))
  }

  /** The queues the bindings at these places lead to. */
  ghost predicate NamedBy(bindings: seq<Binding>, at: seq<nat>, names: seq<string>)
  {
    |names| == |at| && forall k :: 0 <= k < |names| ==> at[k] < |bindings| && names[k] == bindings[at[k]].queue
  }

  /** What a target reaches: from the default exchange the queue of the key, from a
      direct or a fanout exchange one queue per binding that lets it through, in the
      order they were bound. */
  ghost predicate Reaches(b: State, target: Target, r: Result<seq<string>>)
  {
    match r
    case Ok(names) =>
      if target.exchange == "" then names == [target.key]
      else
        && target.exchange in b.exchanges && b.exchanges[target.exchange] in {Direct, Fanout}
        && exists at :: LeadingAt(b, target, at, |b.bindings|) && NamedBy(b.bindings, at, names)
    case Err(NoSuchExchange) => target.exchange != "" && target.exchange !in b.exchanges
    case Err(NotRoutable) =>
      target.exchange != "" && target.exchange in b.exchanges && b.exchanges[target.exchange] == Other
    case Err(_) => false
  }

  lemma {:induction false} RoutedMore(bindings: seq<Binding>, binding: Binding, kind: Kind, target: Target)
    ensures Routed(bindings + [binding], kind, target) ==
      Routed(bindings, kind, target) + if Leads(binding, kind, target) then [binding.queue] else []
  {
    if bindings == [] {
      assert bindings + [binding] == [binding];
    } else {
      assert (bindings + [binding])[1..] == bindings[1..] + [binding];
      RoutedMore(bindings[1..], binding, kind, target);
    }
  }

  /** Those places, found one binding at a time. */
  ghost function Places(b: State, target: Target, n: nat): seq<nat>
    requires n <= |b.bindings|
  {
    if n == 0 then [] else Places(b, target, n - 1) + if LetsThrough(b, target, n - 1) then [n - 1] else []
  }

  lemma {:induction false} PlacesLead(b: State, target: Target, n: nat)
    requires n <= |b.bindings|
    ensures LeadingAt(b, target, Places(b, target, n), n)
  {
    if n > 0 {
      PlacesLead(b, target, n - 1);
      LeadingMore(b, target, Places(b, target, n - 1), n);
    }
  }

  lemma LeadingMore(b: State, target: Target, before: seq<nat>, n: nat)
    requires 0 < n <= |b.bindings| && LeadingAt(b, target, before, n - 1)
    ensures LeadingAt(b, target, before + if LetsThrough(b, target, n - 1) then [n - 1] else [], n)
  {
    assert forall i: nat :: i in before + [n - 1] <==> i in before || i == n - 1;
    assert forall i: nat :: i in before ==> i < n - 1;
    assert before + [] == before;
  }

  lemma {:induction false} PlacesNamed(b: State, target: Target, n: nat)
    requires target.exchange in b.exchanges && b.exchanges[target.exchange] != Other && n <= |b.bindings|
    ensures NamedBy(b.bindings, Places(b, target, n), Routed(b.bindings[..n], b.exchanges[target.exchange], target))
  {
    if n > 0 {
      PlacesNamed(b, target, n - 1);
      assert b.bindings[..n] == b.bindings[..n - 1] + [b.bindings[n - 1]];
      RoutedMore(b.bindings[..n - 1], b.bindings[n - 1], b.exchanges[target.exchange], target);
    }
  }

  /** Routing answers with what the target reaches. */
  lemma RouteTargetsReach(b: State, target: Target)
    ensures Reaches(b, target, RouteTargets(b, target))
  {
    if target.exchange != "" && target.exchange in b.exchanges && b.exchanges[target.exchange] != Other {
      PlacesLead(b, target, |b.bindings|);
      PlacesNamed(b, target, |b.bindings|);
      assert b.bindings[..|b.bindings|] == b.bindings;
    }
  }

  lemma RisingEnds(at: seq<nat>, n: nat)
    requires n > 0 && Rising(at, n)
    ensures n - 1 in at ==> at != [] && at[|at| - 1] == n - 1
    ensures n - 1 !in at ==> Rising(at, n - 1)
  {
    if n - 1 in at {
      var k :| 0 <= k < |at| && at[k] == n - 1;
      assert at[k] <= at[|at| - 1];
    }
  }

  lemma RisingInit(init: seq<nat>, last: nat, n: nat)
    requires Rising(init + [last], n)
    ensures Rising(init, last)
    ensures forall i: nat :: i in init <==> i in init + [last] && i != last
  {
    var at := init + [last];
    forall k | 0 <= k < |init| ensures init[k] < last { assert at[k] < at[|init|]; }
    forall k, l | 0 <= k < l < |init| ensures init[k] < init[l] { assert at[k] < at[l]; }
  }

  lemma {:induction false} LeadingUnique(b: State, target: Target, at: seq<nat>, n: nat)
    requires n <= |b.bindings| && LeadingAt(b, target, at, n)
    ensures at == Places(b, target, n)
  {
    if n > 0 {
      RisingEnds(at, n);
      if LetsThrough(b, target, n - 1) {
        var init := at[..|at| - 1];
        assert at == init + [n - 1];
        RisingInit(init, n - 1, n);
        LeadingUnique(b, target, init, n - 1);
      } else {
        LeadingUnique(b, target, at, n - 1);
      }
    }
  }

  /** A target reaches one list of queues only. */
  lemma ReachesUnique(b: State, target: Target, r: Result<seq<string>>, q: Result<seq<string>>)
    requires Reaches(b, target, r) && Reaches(b, target, q)
    ensures r == q
  {
    if r.Ok? && q.Ok? && target.exchange != "" {
      var at :| LeadingAt(b, target, at, |b.bindings|) && NamedBy(b.bindings, at, r.value);
      var others :| LeadingAt(b, target, others, |b.bindings|) && NamedBy(b.bindings, others, q.value);
      LeadingUnique(b, target, at, |b.bindings|);
      LeadingUnique(b, target, others, |b.bindings|);
      assert r.value == q.value;
    }
  }

  /** Through a direct or a fanout exchange a queue is reached exactly when one of its
      bindings to that exchange lets the message through, by any key from a fanout
      and by the message's own from a direct exchange. */
  lemma RoutedIff(b: State, target: Target, name: string)
    requires target.exchange != "" && RouteTargets(b, target).Ok?
    ensures name in RouteTargets(b, target).value <==>
      exists i :: 0 <= i < |b.bindings| && b.bindings[i].exchange == target.exchange && b.bindings[i].queue == name
        && (b.exchanges[target.exchange] == Direct ==> b.bindings[i].key == target.key)
  {
    RouteTargetsReach(b, target);
    var names := RouteTargets(b, target).value;
    var at :| LeadingAt(b, target, at, |b.bindings|) && NamedBy(b.bindings, at, names);
    if i: nat :| i < |b.bindings| && LetsThrough(b, target, i) && b.bindings[i].queue == name {
      var k :| 0 <= k < |at| && at[k] == i;
      assert names[k] == name;
    }
    if k :| 0 <= k < |names| && names[k] == name { assert at[k] in at && LetsThrough(b, target, at[k]); }
  }

  function Stamp(target: Target, message: Message, tag: nat): Delivery
  {
    Delivery(message.body, message.contentType, message.headers, target.exchange, target.key, tag, false)
  }

  /** The loop of queuesFor: a tag and a copy per queue, and the tag it got to
      even when a queue turns out not to be there. */
  function PlaceAll(
      b: State, names: seq<string>, target: Target, message: Message, tag: nat): (nat, Result<seq<Placement>>)
    decreases |names|
  {
    if names == [] then (tag, Ok([]))
    else if names[0] !in b.queues then (tag, Err(NoSuchQueue))
    else
      var (last, rest) := PlaceAll(b, names[1..], target, message, tag + 1);
      match rest
      case Err(error) => (last, Err(error))
      case Ok(placements) => (last, Ok([Placement(names[0], Stamp(target, message, tag + 1))] + placements))
  }

  function QueuesFor(b: State, target: Target, message: Message): (State, Result<seq<Placement>>)
  {
    match RouteTargets(b, target)
    case Err(error) => (b, Err(error))
    case Ok(names) =>
      var (last, placements) := PlaceAll(b, names, target, message, b.tag);
      (b.(tag := last), placements)
  }

  function WithQueue(b: State, name: string, queue: Queue): State { b.(queues := b.queues[name := queue]) }

  /** offer: onto the channel, or not at all when it is full. */
  function Offer(b: State, name: string, delivery: Delivery): (State, Result<()>)
    requires name in b.queues
  {
    var queue := b.queues[name];
    if |queue.backlog| < CAPACITY then (WithQueue(b, name, queue.(backlog := queue.backlog + [delivery])), Ok(()))
    else (b, Err(QueueFull))
  }

  /** The loop of Publish: the placements in turn, until one finds its queue full. */
  function OfferAll(b: State, placements: seq<Placement>): (State, Result<()>)
    requires forall i :: 0 <= i < |placements| ==> placements[i].queue in b.queues
    decreases |placements|
  {
    if placements == [] then (b, Ok(()))
    else
      var (after, r) := Offer(b, placements[0].queue, placements[0].delivery);
      if r.Err? then (after, r) else OfferAll(after, placements[1..])
  }

  lemma PlacedAreDeclared(b: State, names: seq<string>, target: Target, message: Message, tag: nat)
    ensures var r := PlaceAll(b, names, target, message, tag).1;
      r.Ok? ==> forall i :: 0 <= i < |r.value| ==> r.value[i].queue in b.queues
    decreases |names|
  {
    if names != [] { PlacedAreDeclared(b, names[1..], target, message, tag + 1); }
  }

  /** Publish with nobody in between: queuesFor and then its placements. */
  function Publish(b: State, target: Target, message: Message): (State, Result<()>)
  {
    var (tagged, r) := QueuesFor(b, target, message);
    match r
    case Err(error) => (tagged, Err(error))
    case Ok(placements) =>
      PlacedAreDeclared(b, RouteTargets(b, target).value, target, message, b.tag);
      OfferAll(tagged, placements)
  }

  /** The receive of Next: the front of the channel. */
  function Take(b: State, name: string): (State, Delivery)
    requires name in b.queues && b.queues[name].backlog != []
  {
    var queue := b.queues[name];
    (WithQueue(b, name, queue.(backlog := queue.backlog[1..])), queue.backlog[0])
  }

  /** The rest of Next, under the lock. */
  function Record(b: State, name: string, delivery: Delivery): State
    requires name in b.queues
  {
    WithQueue(b, name, b.queues[name].(unsettled := b.queues[name].unsettled[delivery.tag := delivery]))
  }

  datatype Decision = Acked | Discarded | Requeued

  /** settle, with what the caller decided. */
  function Settle(b: State, name: string, tag: nat, decision: Decision): (State, Result<Delivery>)
    requires name in b.queues
  {
    var queue := b.queues[name];
    if tag !in queue.unsettled then (b, Err(UnknownTag))
    else
      var rest := WithQueue(b, name, queue.(unsettled := queue.unsettled - {tag}));
      (match decision
       case Acked => rest.(acks := rest.acks + [tag])
       case Discarded => rest.(discards := rest.discards + [tag])
       case Requeued => rest.(requeues := rest.requeues + [tag]),
       Ok(if decision == Requeued then queue.unsettled[tag].(redelivered := true) else queue.unsettled[tag]))
  }

  /** Requeue with nobody in between. */
  function Requeue(b: State, name: string, tag: nat): (State, Result<()>)
    requires name in b.queues
  {
    var (settled, r) := Settle(b, name, tag, Requeued);
    match r
    case Err(error) => (settled, Err(error))
    case Ok(again) => Offer(settled, name, again)
  }

  function DeclareQueue(b: State, name: string): State
  {
    if name in b.queues then b else WithQueue(b, name, Queue([], map[]))
  }

  function Bind(b: State, binding: Binding): (State, Result<()>)
  {
    if binding.exchange !in b.exchanges then (b, Err(NoSuchExchange))
    else if binding.queue !in b.queues then (b, Err(NoSuchQueue))
    else (b.(bindings := b.bindings + [binding]), Ok(()))
  }

  // ---- What declaring and binding are for ----

  /** A queue that was declared is there, and takes what is published to it by name
      through the default exchange: at the end of its backlog when there is room. Every
      other queue is as it was, and so is one that was there before. */
  lemma DeclaredReceives(b: State, name: string, message: Message)
    ensures var after := DeclareQueue(b, name);
      && name in after.queues && after == b.(queues := after.queues)
      && (name in b.queues ==> after == b)
      && (name !in b.queues ==> after.queues == b.queues[name := Queue([], map[])])
      && var (published, r) := Publish(after, Target("", name), message);
        var backlog := after.queues[name].backlog;
        && (r == Ok(()) <==> |backlog| < 1024)
        && published == after.(tag := b.tag + 1, queues := published.queues)
        && (r == Ok(()) ==> published.queues == after.queues[name := after.queues[name].(
             backlog := backlog + [Stamp(Target("", name), message, b.tag + 1)])])
        && (r != Ok(()) ==> r == Err(QueueFull) && published.queues == after.queues)
  {
    var after, target := DeclareQueue(b, name), Target("", name);
    var one := Placement(name, Stamp(target, message, b.tag + 1));
    assert [name][1..] == [] && [one] + [] == [one];
    assert PlaceAll(after, [name], target, message, b.tag) == (b.tag + 1, Ok([one]));
    var tagged := after.(tag := b.tag + 1);
    var offered := Offer(tagged, name, one.delivery);
    assert [one][1..] == [];
    assert OfferAll(tagged, [one]) == offered;
  }

  /** Binding fails for want of the exchange or of the queue, and then changes nothing;
      otherwise a message the binding lets through reaches its queue after those it
      reached before, and every other message reaches what it did. */
  lemma BoundIsReached(b: State, binding: Binding, target: Target)
    ensures var (after, r) := Bind(b, binding);
      && (r == Err(NoSuchExchange) <==> binding.exchange !in b.exchanges)
      && (r == Err(NoSuchQueue) <==> binding.exchange in b.exchanges && binding.queue !in b.queues)
      && (r == Ok(()) <==> binding.exchange in b.exchanges && binding.queue in b.queues)
      && (r.Err? ==> after == b)
      && (r.Ok? && target.exchange != "" && RouteTargets(b, target).Ok? ==>
           RouteTargets(after, target) == Ok(RouteTargets(b, target).value +
             if binding.exchange == target.exchange
               && (b.exchanges[target.exchange] == Direct ==> binding.key == target.key)
             then [binding.queue] else []))
  {
    if target.exchange != "" && RouteTargets(b, target).Ok? {
      RoutedMore(b.bindings, binding, b.exchanges[target.exchange], target);
    }
  }
}
