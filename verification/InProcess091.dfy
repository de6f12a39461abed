/** The in-process AMQP 0-9-1 broker as the program holds it: an object whose
    methods change its fields, each method one locked or channel operation. */
module InProcess091 {
  import opened Strings
  import opened Broker091
  import B = Broker091

  /** The broker as the program holds it. A queue is never replaced once it is
      declared, so its name stands for what a subscription holds on to. */
  class Broker {
    var exchanges: map<string, Kind>
    var queues: map<string, Queue>
    var bindings: seq<Binding>
    var tag: nat
    var acks: seq<nat>
    var discards: seq<nat>
    var requeues: seq<nat>

    ghost function Holds(): State
      reads this
    {
      State(exchanges, queues, bindings, tag, acks, discards, requeues)
    }

    constructor ()
      ensures Holds() == EMPTY
    {
      exchanges, queues, bindings, tag := map[], map[], [], 0;
      acks, discards, requeues := [], [], [];
    }

    method DeclareExchange(name: string, kind: Kind)
      modifies this
      ensures Holds() == old(Holds()).(exchanges := old(exchanges)[name := kind])
    {
      exchanges := exchanges[name := kind];
    }

    method DeclareQueue(name: string)
      modifies this
      ensures Holds() == B.DeclareQueue(old(Holds()), name)
    {
      if name !in queues {
        queues := queues[name := Queue([], map[])];
      }
    }

    method Bind(binding: Binding) returns (r: Result<()>)
      modifies this
      ensures (Holds(), r) == B.Bind(old(Holds()), binding)
    {
      if binding.exchange !in exchanges {
        return Err(NoSuchExchange);
      }
      if binding.queue !in queues {
        return Err(NoSuchQueue);
      }
      bindings := bindings + [binding];
      r := Ok(());
    }

    method RouteTargets(target: Target) returns (r: Result<seq<string>>)
      ensures r == B.RouteTargets(Holds(), target) && Reaches(Holds(), target, r)
    {
      RouteTargetsReach(Holds(), target);
      if target.exchange == "" {
        return Ok([target.key]);
      }
      if target.exchange !in exchanges {
        return Err(NoSuchExchange);
      }
      var kind := exchanges[target.exchange];
      if kind != Direct && kind != Fanout {
        return Err(NotRoutable);
      }
      var names := RoutedBy(kind, target);
      r := Ok(names);
    }

    /** The loop of routeTargets. */
    method RoutedBy(kind: Kind, target: Target) returns (names: seq<string>)
      ensures names == Routed(bindings, kind, target)
    {
      names := [];
      for i := 0 to |bindings|
        invariant names == Routed(bindings[..i], kind, target)
      {
        assert bindings[..i + 1] == bindings[..i] + [bindings[i]];
        RoutedMore(bindings[..i], bindings[i], kind, target);
        if bindings[i].exchange == target.exchange && (kind == Fanout || bindings[i].key == target.key) {
          names := names + [bindings[i].queue];
        }
      }
      assert bindings[..|bindings|] == bindings;
    }

    method QueuesFor(target: Target, message: Message) returns (r: Result<seq<Placement>>)
      modifies this`tag
      ensures (Holds(), r) == B.QueuesFor(old(Holds()), target, message)
    {
      var names := RouteTargets(target);
      if names.Err? {
        return Err(names.error);
      }
      var placements: seq<Placement> := [];
      ghost var before := Holds();
      ghost var all := PlaceAll(before, names.value, target, message, before.tag);
      assert names.value[0..] == names.value;
      PrefixedNone(all);
      for i := 0 to |names.value|
        invariant Holds() == before.(tag := tag)
        invariant all == Prefixed(placements, PlaceAll(before, names.value[i..], target, message, tag))
      {
        assert names.value[i..][1..] == names.value[i + 1..];
        if names.value[i] !in queues {
          return Err(NoSuchQueue);
        }
        PrefixedMore(placements, Placement(names.value[i], Stamp(target, message, tag + 1)),
                     PlaceAll(before, names.value[i + 1..], target, message, tag + 1));
        tag := tag + 1;
        placements := placements + [Placement(names.value[i], Stamp(target, message, tag))];
      }
      assert placements + [] == placements;
      r := Ok(placements);
    }

    method Publish(target: Target, message: Message) returns (r: Result<()>)
      modifies this`tag, this`queues
      ensures (Holds(), r) == B.Publish(old(Holds()), target, message)
    {
      ghost var before := Holds();
      var placed := QueuesFor(target, message);
      if placed.Err? {
        return Err(placed.error);
      }
      var placements := placed.value;
      PlacedAreDeclared(before, B.RouteTargets(before, target).value, target, message, before.tag);
      assert placements[0..] == placements;
      ghost var tagged := Holds();
      for i := 0 to |placements|
        invariant Holds() == tagged.(queues := queues) && queues.Keys == tagged.queues.Keys
        invariant B.OfferAll(tagged, placements) == B.OfferAll(Holds(), placements[i..])
      {
        assert placements[i..][0] == placements[i] && placements[i..][1..] == placements[i + 1..];
        r := Offer(placements[i].queue, placements[i].delivery);
        if r.Err? {
          return;
        }
      }
      r := Ok(());
    }

    method Offer(name: string, delivery: Delivery) returns (r: Result<()>)
      requires name in queues
      modifies this`queues
      ensures (Holds(), r) == B.Offer(old(Holds()), name, delivery)
      ensures r == (if |old(queues)[name].backlog| < 1024 then Ok(()) else Err(QueueFull))
    {
      var queue := queues[name];
      if |queue.backlog| < CAPACITY {
        queues := queues[name := queue.(backlog := queue.backlog + [delivery])];
        r := Ok(());
      } else {
        r := Err(QueueFull);
      }
    }

    method Take(name: string) returns (delivery: Delivery)
      requires name in queues && queues[name].backlog != []
      modifies this`queues
      ensures (Holds(), delivery) == B.Take(old(Holds()), name)
    {
      var queue := queues[name];
      delivery := queue.backlog[0];
      queues := queues[name := queue.(backlog := queue.backlog[1..])];
    }

    method Record(name: string, delivery: Delivery)
      requires name in queues
      modifies this`queues
      ensures Holds() == B.Record(old(Holds()), name, delivery)
    {
      queues := queues[name := queues[name].(unsettled := queues[name].unsettled[delivery.tag := delivery])];
    }

    method Settle(name: string, settled: nat, decision: Decision) returns (r: Result<Delivery>)
      requires name in queues
      modifies this
      ensures (Holds(), r) == B.Settle(old(Holds()), name, settled, decision)
    {
      var queue := queues[name];
      if settled !in queue.unsettled {
        return Err(UnknownTag);
      }
      var delivery := queue.unsettled[settled];
      queues := queues[name := queue.(unsettled := queue.unsettled - {settled})];
      match decision {
        case Acked => acks := acks + [settled];
        case Discarded => discards := discards + [settled];
        case Requeued => requeues, delivery := requeues + [settled], delivery.(redelivered := true);
      }
      r := Ok(delivery);
    }

    /** Next: the select takes a message when it finds one, or ends with nothing when
        the consumer was cancelled, be it before a message came or in its stead. */
    method Next(name: string, cancelled: bool) returns (r: Option<Delivery>)
      requires name in queues
      modifies this`queues
      ensures cancelled || old(queues)[name].backlog == [] ==> r == None && Holds() == old(Holds())
      ensures !cancelled && old(queues)[name].backlog != [] ==>
        var (taken, d) := B.Take(old(Holds()), name); r == Some(d) && Holds() == B.Record(taken, name, d)
    {
      if cancelled || queues[name].backlog == [] {
        return None;
      }
      var delivery := Take(name);
      Record(name, delivery);
      r := Some(delivery);
    }

    method Ack(name: string, settled: nat) returns (r: Result<Delivery>)
      requires name in queues
      modifies this
      ensures (Holds(), r) == B.Settle(old(Holds()), name, settled, Acked)
    {
      r := Settle(name, settled, Acked);
    }

    method Discard(name: string, settled: nat) returns (r: Result<Delivery>)
      requires name in queues
      modifies this
      ensures (Holds(), r) == B.Settle(old(Holds()), name, settled, Discarded)
    {
      r := Settle(name, settled, Discarded);
    }

    method Requeue(name: string, settled: nat) returns (r: Result<()>)
      requires name in queues
      modifies this
      ensures (Holds(), r) == B.Requeue(old(Holds()), name, settled)
    {
      var again := Settle(name, settled, Requeued);
      if again.Err? {
        return Err(again.error);
      }
      r := Offer(name, again.value);
    }
  }

  ghost function Prefixed(
      placements: seq<Placement>, rest: (nat, Result<seq<Placement>>)): (nat, Result<seq<Placement>>)
  {
    match rest.1
    case Err(error) => rest
    case Ok(more) => (rest.0, Ok(placements + more))
  }

  lemma PrefixedNone(rest: (nat, Result<seq<Placement>>))
    ensures Prefixed([], rest) == rest
  {
    if rest.1.Ok? { assert [] + rest.1.value == rest.1.value; }
  }

  lemma PrefixedMore(placements: seq<Placement>, one: Placement, rest: (nat, Result<seq<Placement>>))
    ensures Prefixed(placements, Prefixed([one], rest)) == Prefixed(placements + [one], rest)
  {
    if rest.1.Ok? { assert placements + ([one] + rest.1.value) == (placements + [one]) + rest.1.value; }
  }
}
