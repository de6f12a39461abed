/** The 0-9-1 broker under every interleaving of publishers and consumers. The
    lock is released between taking a message and recording it, so a delivery in
    the hands of a goroutine is at a site of its own. */
module Broker091Runs {
  import opened Broker091
  import Ledger

  /** The broker, what each goroutine holds between two of its operations, and,
      for the record, the copies that were settled for good or dropped and each
      copy as it was first stamped. */
  datatype World = World(
    broker: State,
    offers: map<nat, seq<Placement>>,
    taken: map<nat, Placement>,
    requeuing: map<nat, Placement>,
    acked: seq<Delivery>,
    discarded: seq<Delivery>,
    dropped: seq<Delivery>,
    issued: seq<Delivery>)

  const START := World(Broker091.EMPTY, map[], map[], map[], [], [], [], [])

  datatype Site =
    | AwaitingOffer(g: nat)
    | Backlog(queue: string)
    | Received(g: nat)
    | Unsettled(queue: string, tag: nat)
    | AwaitingRequeue(g: nat)
    | WasAcked
    | WasDiscarded
    | WasDropped

  function Deliveries(placements: seq<Placement>): (r: seq<Delivery>)
    ensures |r| == |placements| && forall i :: 0 <= i < |r| ==> r[i] == placements[i].delivery
  {
    seq(|placements|, i requires 0 <= i < |placements| => placements[i].delivery)
  }

  function BacklogOf(queues: map<string, Queue>, name: string): seq<Delivery>
  {
    if name in queues then queues[name].backlog else []
  }

  function UnsettledOf(queues: map<string, Queue>, name: string, tag: nat): seq<Delivery>
  {
    if name in queues && tag in queues[name].unsettled then [queues[name].unsettled[tag]] else []
  }

  function InHand(held: map<nat, Placement>, g: nat): seq<Delivery> { if g in held then [held[g].delivery] else [] }

  function Contents(w: World, s: Site): seq<Delivery>
  {
    match s
    case AwaitingOffer(g) => if g in w.offers then Deliveries(w.offers[g]) else []
    case Backlog(name) => BacklogOf(w.broker.queues, name)
    case Received(g) => InHand(w.taken, g)
    case Unsettled(name, tag) => UnsettledOf(w.broker.queues, name, tag)
    case AwaitingRequeue(g) => InHand(w.requeuing, g)
    case WasAcked => w.acked
    case WasDiscarded => w.discarded
    case WasDropped => w.dropped
  }

  // ---- The steps ----

  datatype Step =
    | DeclareExchangeStep(name: string, kind: Kind)
    | DeclareQueueStep(name: string)
    | BindStep(binding: Binding)
    | PublishStep(g: nat, target: Target, message: Message)
    | OfferStep(g: nat)
    | TakeStep(g: nat, name: string)
    | RecordStep(g: nat)
    | SettleStep(g: nat, name: string, tag: nat, decision: Decision)
    | ReofferStep(g: nat)

  predicate Enabled(w: World, step: Step)
  {
    match step
    case DeclareExchangeStep(_, _) => true
    case DeclareQueueStep(_) => true
    case BindStep(_) => true
    case PublishStep(g, _, _) => g !in w.offers
    case OfferStep(g) => g in w.offers && w.offers[g] != [] && w.offers[g][0].queue in w.broker.queues
    case TakeStep(g, name) => g !in w.taken && name in w.broker.queues && w.broker.queues[name].backlog != []
    case RecordStep(g) => g in w.taken && w.taken[g].queue in w.broker.queues
    case SettleStep(g, name, _, _) => name in w.broker.queues && g !in w.requeuing
    case ReofferStep(g) => g in w.requeuing && w.requeuing[g].queue in w.broker.queues
  }

  /** What a goroutine still has to offer; it is done when there is nothing. */
  function StillToOffer(offers: map<nat, seq<Placement>>, g: nat, placements: seq<Placement>): map<nat, seq<Placement>>
  {
    if placements == [] then offers - {g} else offers[g := placements]
  }

  /** queuesFor, under the lock; the placements it made are then offered one by one. */
  function AfterPublish(w: World, g: nat, target: Target, message: Message): World
  {
    var (b, r) := QueuesFor(w.broker, target, message);
    match r
    case Err(_) => w.(broker := b)
    case Ok(placements) =>
      w.(broker := b, offers := StillToOffer(w.offers, g, placements), issued := w.issued + Deliveries(placements))
  }

  /** One offer of a publish: a full queue ends the publish, and this copy and
      those still to come are dropped. */
  function AfterOffer(w: World, g: nat): World
    requires Enabled(w, OfferStep(g))
  {
    var first := w.offers[g][0];
    var (b, r) := Offer(w.broker, first.queue, first.delivery);
    match r
    case Ok(_) => w.(broker := b, offers := StillToOffer(w.offers, g, w.offers[g][1..]))
    case Err(_) => w.(broker := b, offers := w.offers - {g}, dropped := w.dropped + Deliveries(w.offers[g]))
  }

  function AfterTake(w: World, g: nat, name: string): World
    requires Enabled(w, TakeStep(g, name))
  {
    var (b, delivery) := Take(w.broker, name);
    w.(broker := b, taken := w.taken[g := Placement(name, delivery)])
  }

  function AfterRecord(w: World, g: nat): World
    requires Enabled(w, RecordStep(g))
  {
    w.(broker := Record(w.broker, w.taken[g].queue, w.taken[g].delivery), taken := w.taken - {g})
  }

  function AfterSettle(w: World, g: nat, name: string, tag: nat, decision: Decision): World
    requires Enabled(w, SettleStep(g, name, tag, decision))
  {
    var (b, r) := Settle(w.broker, name, tag, decision);
    match r
    case Err(_) => w.(broker := b)
    case Ok(delivery) =>
      match decision
      case Acked => w.(broker := b, acked := w.acked + [delivery])
      case Discarded => w.(broker := b, discarded := w.discarded + [delivery])
      case Requeued => w.(broker := b, requeuing := w.requeuing[g := Placement(name, delivery)])
  }

  function AfterReoffer(w: World, g: nat): World
    requires Enabled(w, ReofferStep(g))
  {
    var again := w.requeuing[g];
    var (b, r) := Offer(w.broker, again.queue, again.delivery);
    match r
    case Ok(_) => w.(broker := b, requeuing := w.requeuing - {g})
    case Err(_) => w.(broker := b, requeuing := w.requeuing - {g}, dropped := w.dropped + [again.delivery])
  }

  function Next(w: World, step: Step): World
    requires Enabled(w, step)
  {
    match step
    case DeclareExchangeStep(name, kind) => w.(broker := w.broker.(exchanges := w.broker.exchanges[name := kind]))
    case DeclareQueueStep(name) => w.(broker := DeclareQueue(w.broker, name))
    case BindStep(binding) => w.(broker := Bind(w.broker, binding).0)
    case PublishStep(g, target, message) => AfterPublish(w, g, target, message)
    case OfferStep(g) => AfterOffer(w, g)
    case TakeStep(g, name) => AfterTake(w, g, name)
    case RecordStep(g) => AfterRecord(w, g)
    case SettleStep(g, name, tag, decision) => AfterSettle(w, g, name, tag, decision)
    case ReofferStep(g) => AfterReoffer(w, g)
  }

  ghost predicate Run(w: World, steps: seq<Step>, v: World)
    decreases |steps|
  {
    if steps == [] then w == v else Enabled(w, steps[0]) && Run(Next(w, steps[0]), steps[1..], v)
  }

  // ---- What every step keeps ----

  ghost function Held(w: World): Site -> seq<Delivery> { s => Contents(w, s) }

  const TAG_OF: Delivery -> nat := (d: Delivery) => d.tag

  function TagsOf(deliveries: seq<Delivery>): set<nat> { set i | 0 <= i < |deliveries| :: deliveries[i].tag }

  /** Every tag issued is at exactly one site, once, and no other tag is anywhere. */
  ghost predicate Conserved(w: World) { Ledger.OneSpotEach(Held(w), TAG_OF, TagsOf(w.issued)) }

  /** A delivery is the copy issued under its tag, marked redelivered exactly when
      it has been requeued. */
  ghost predicate Genuine(issued: seq<Delivery>, requeues: seq<nat>, delivery: Delivery)
  {
    && 1 <= delivery.tag <= |issued|
    && delivery == issued[delivery.tag - 1].(redelivered := delivery.tag in requeues)
  }

  ghost predicate GenuineAt(w: World, s: Site)
  {
    forall i :: 0 <= i < |Contents(w, s)| ==> Genuine(w.issued, w.broker.requeues, Contents(w, s)[i])
  }

  /** The tags a list of deliveries bears. */
  ghost predicate Tagged(tags: seq<nat>, deliveries: seq<Delivery>)
  {
    |tags| == |deliveries| && forall i :: 0 <= i < |tags| ==> tags[i] == deliveries[i].tag
  }

  /** The record is right: copies were stamped in turn, and the outcome lists are
      the tags of what was settled. */
  ghost predicate Kept(w: World)
  {
    && |w.issued| == w.broker.tag
    && (forall i :: 0 <= i < |w.issued| ==> w.issued[i].tag == i + 1 && !w.issued[i].redelivered)
    && (forall t :: t in w.broker.requeues ==> 1 <= t <= w.broker.tag)
    && Tagged(w.broker.acks, w.acked)
    && Tagged(w.broker.discards, w.discarded)
  }

  ghost predicate AllGenuine(w: World) { forall s :: GenuineAt(w, s) }

  ghost predicate AllIn(placements: seq<Placement>, names: set<string>)
  {
    forall i :: 0 <= i < |placements| ==> placements[i].queue in names
  }

  ghost predicate HeldIn(held: map<nat, Placement>, names: set<string>)
  {
    forall g :: g in held ==> held[g].queue in names
  }

  ghost predicate FiledByTag(unsettled: map<nat, Delivery>) { forall t :: t in unsettled ==> unsettled[t].tag == t }

  /** The unsettled map files each delivery under its own tag, and whatever is in
      hand is meant for a queue that exists. */
  ghost predicate Filed(w: World)
  {
    && (forall q :: q in w.broker.queues ==> FiledByTag(w.broker.queues[q].unsettled))
    && (forall i :: 0 <= i < |w.broker.bindings| ==> w.broker.bindings[i].queue in w.broker.queues)
    && (forall g :: g in w.offers ==> w.offers[g] != [] && AllIn(w.offers[g], w.broker.queues.Keys))
    && HeldIn(w.taken, w.broker.queues.Keys)
    && HeldIn(w.requeuing, w.broker.queues.Keys)
  }

  ghost predicate Inv(w: World) { Conserved(w) && Kept(w) && AllGenuine(w) && Filed(w) }

  // ---- Where each step takes things ----

  /** The first n at one site now stand at the end of another. */
  ghost predicate Moved(w: World, v: World, from: Site, to: Site, n: nat, s: Site)
    requires n <= |Contents(w, from)|
  {
    Contents(v, s) == if s == from then Contents(w, from)[n..]
                      else if s == to then Contents(w, to) + Contents(w, from)[..n]
                      else Contents(w, s)
  }

  ghost predicate Moves(w: World, v: World, from: Site, to: Site, n: nat)
  {
    && from != to && n <= |Contents(w, from)| && (forall s :: Moved(w, v, from, to, n, s))
    && v.issued == w.issued && v.broker.tag == w.broker.tag
  }

  lemma MovesTransfer(w: World, v: World, from: Site, to: Site, n: nat)
    requires Moves(w, v, from, to, n)
    ensures Ledger.Transferred(Held(w), Held(v), TAG_OF, from, to, n)
  {
    var moved := Contents(w, from)[..n];
    forall s ensures Ledger.TransferredAt(Held(w), Held(v), from, to, moved, s) { assert Moved(w, v, from, to, n, s); }
    Ledger.TransferredEverywhere(Held(w), Held(v), TAG_OF, from, to, moved);
  }

  lemma MovesConserve(w: World, v: World, from: Site, to: Site, n: nat)
    requires Conserved(w) && Moves(w, v, from, to, n)
    ensures Conserved(v)
  {
    MovesTransfer(w, v, from, to, n);
    Ledger.TransferKeeps(Held(w), Held(v), TAG_OF, TagsOf(w.issued), from, to, n);
  }

  lemma MovesGenuine(w: World, v: World, from: Site, to: Site, n: nat)
    requires AllGenuine(w) && Moves(w, v, from, to, n) && v.broker.requeues == w.broker.requeues
    ensures AllGenuine(v)
  {
    forall s ensures GenuineAt(v, s) {
      assert GenuineAt(w, s) && GenuineAt(w, from) && Moved(w, v, from, to, n, s);
    }
  }

  lemma OfferMoves(w: World, g: nat, v: World, s: Site)
    requires Enabled(w, OfferStep(g)) && v == AfterOffer(w, g)
    ensures var full := |w.broker.queues[w.offers[g][0].queue].backlog| >= CAPACITY;
      var to, n := if full then WasDropped else Backlog(w.offers[g][0].queue), if full then |w.offers[g]| else 1;
      Moved(w, v, AwaitingOffer(g), to, n, s)
  {
  }

  lemma TakeMoves(w: World, g: nat, name: string, v: World, s: Site)
    requires Enabled(w, TakeStep(g, name)) && v == AfterTake(w, g, name)
    ensures Moved(w, v, Backlog(name), Received(g), 1, s)
  {
  }

  lemma RecordMoves(w: World, g: nat, v: World, s: Site)
    requires Enabled(w, RecordStep(g)) && v == AfterRecord(w, g)
    requires w.taken[g].delivery.tag !in w.broker.queues[w.taken[g].queue].unsettled
    ensures Moved(w, v, Received(g), Unsettled(w.taken[g].queue, w.taken[g].delivery.tag), 1, s)
  {
  }

  lemma SettleMoves(w: World, g: nat, name: string, tag: nat, decision: Decision, v: World, s: Site)
    requires Enabled(w, SettleStep(g, name, tag, decision)) && v == AfterSettle(w, g, name, tag, decision)
    requires tag in w.broker.queues[name].unsettled && decision != Requeued
    ensures Moved(w, v, Unsettled(name, tag), if decision == Acked then WasAcked else WasDiscarded, 1, s)
  {
  }

  lemma ReofferMoves(w: World, g: nat, v: World, s: Site)
    requires Enabled(w, ReofferStep(g)) && v == AfterReoffer(w, g)
    ensures var full := |w.broker.queues[w.requeuing[g].queue].backlog| >= CAPACITY;
      Moved(w, v, AwaitingRequeue(g), if full then WasDropped else Backlog(w.requeuing[g].queue), 1, s)
  {
  }

  /** Requeuing: out of the unsettled map into a goroutine's hands, marked. */
  lemma RequeueMoves(w: World, g: nat, name: string, tag: nat, v: World, s: Site)
    requires Enabled(w, SettleStep(g, name, tag, Requeued)) && v == AfterSettle(w, g, name, tag, Requeued)
    requires tag in w.broker.queues[name].unsettled
    ensures Contents(v, s) == (if s == Unsettled(name, tag) then []
                               else if s == AwaitingRequeue(g)
                               then [w.broker.queues[name].unsettled[tag].(redelivered := true)]
                               else Contents(w, s))
  {
  }

  lemma RequeueConserves(w: World, g: nat, name: string, tag: nat, v: World)
    requires Enabled(w, SettleStep(g, name, tag, Requeued)) && v == AfterSettle(w, g, name, tag, Requeued)
    requires tag in w.broker.queues[name].unsettled && Conserved(w)
    ensures Conserved(v)
  {
    var from, to, d := Unsettled(name, tag), AwaitingRequeue(g), w.broker.queues[name].unsettled[tag];
    assert Ledger.Transferred(Held(w), Held(v), TAG_OF, from, to, 1) by {
      forall s ensures Held(v)(s) == if s == from then [] else if s == to then [d.(redelivered := true)]
        else Held(w)(s) {
        RequeueMoves(w, g, name, tag, v, s);
      }
    }
    Ledger.TransferKeeps(Held(w), Held(v), TAG_OF, TagsOf(w.issued), from, to, 1);
  }

  lemma StillGenuine(issued: seq<Delivery>, requeues: seq<nat>, tag: nat, d: Delivery)
    requires Genuine(issued, requeues, d)
    ensures d.tag != tag ==> Genuine(issued, requeues + [tag], d)
    ensures d.tag == tag ==> Genuine(issued, requeues + [tag], d.(redelivered := true))
  {
  }

  lemma NotHere(w: World, tag: nat, from: Site, s: Site, i: nat)
    requires Conserved(w) && Ledger.Spot(Held(w), TAG_OF, tag, from, 0) && s != from && i < |Contents(w, s)|
    ensures Contents(w, s)[i].tag != tag
  {
    assert !Ledger.Spot(Held(w), TAG_OF, tag, s, i);
    assert Held(w)(s) == Contents(w, s);
  }

  /** Only one spot holds the tag, so nothing else has to be marked with it. */
  lemma RequeueGenuine(w: World, g: nat, name: string, tag: nat, v: World, s: Site)
    requires Enabled(w, SettleStep(g, name, tag, Requeued)) && v == AfterSettle(w, g, name, tag, Requeued)
    requires tag in w.broker.queues[name].unsettled && w.broker.queues[name].unsettled[tag].tag == tag
    requires Conserved(w) && GenuineAt(w, s) && GenuineAt(w, Unsettled(name, tag))
    ensures GenuineAt(v, s)
  {
    RequeueMoves(w, g, name, tag, v, s);
    var from, d := Unsettled(name, tag), w.broker.queues[name].unsettled[tag];
    assert Contents(w, from)[0] == d;
    if s == AwaitingRequeue(g) {
      StillGenuine(w.issued, w.broker.requeues, tag, d);
    } else if s != from {
      assert Ledger.Spot(Held(w), TAG_OF, tag, from, 0);
      var held := Contents(w, s);
      forall i: nat | i < |held| ensures Genuine(w.issued, w.broker.requeues + [tag], held[i]) {
        NotHere(w, tag, from, s, i);
        StillGenuine(w.issued, w.broker.requeues, tag, held[i]);
      }
    }
  }

  // ---- Publishing ----

  lemma PlaceAllStamps(b: State, names: seq<string>, target: Target, message: Message, tag: nat)
    requires forall i :: 0 <= i < |names| ==> names[i] in b.queues
    ensures var (last, r) := PlaceAll(b, names, target, message, tag);
      && last == tag + |names| && r.Ok? && |r.value| == |names|
      && forall i :: 0 <= i < |names| ==> r.value[i] == Placement(names[i], Stamp(target, message, tag + 1 + i))
  {
    if names != [] {
      PlaceAllStamps(b, names[1..], target, message, tag + 1);
    }
  }

  lemma RoutedDeclared(bindings: seq<Binding>, kind: Kind, target: Target, names: set<string>)
    requires forall i :: 0 <= i < |bindings| ==> bindings[i].queue in names
    ensures forall i :: 0 <= i < |Routed(bindings, kind, target)| ==> Routed(bindings, kind, target)[i] in names
  {
  }

  function QueuesOf(placements: seq<Placement>): (r: seq<string>)
    ensures |r| == |placements| && forall i :: 0 <= i < |r| ==> r[i] == placements[i].queue
  {
    seq(|placements|, i requires 0 <= i < |placements| => placements[i].queue)
  }

  /** A copy of the message, as it is when first stamped. */
  ghost predicate IsCopy(placement: Placement, target: Target, message: Message, tag: nat)
  {
    placement.delivery ==
      Delivery(message.body, message.contentType, message.headers, target.exchange, target.key, tag, false)
  }

  /** One copy per queue the target is routed to, in order, each with the next tag. A
      publish that fails has issued no tag: bindings only name queues that exist,
      so the one name that can be missing is the first. */
  lemma PublishPlaces(w: World, target: Target, message: Message)
    requires Filed(w)
    ensures var (b, r) := QueuesFor(w.broker, target, message);
      match r
      case Err(error) =>
        b == w.broker
        && (error == NoSuchQueue || Reaches(w.broker, target, Err(error)))
        && (error == NoSuchQueue ==> target.exchange == "" && target.key !in w.broker.queues)
      case Ok(placements) =>
        && b == w.broker.(tag := w.broker.tag + |placements|) && AllIn(placements, w.broker.queues.Keys)
        && Reaches(w.broker, target, Ok(QueuesOf(placements)))
        && forall i :: 0 <= i < |placements| ==>
          IsCopy(placements[i], target, message, w.broker.tag + 1 + i)
  {
    RouteTargetsReach(w.broker, target);
    var routed := RouteTargets(w.broker, target);
    if routed.Ok? {
      if target.exchange != "" {
        RoutedDeclared(w.broker.bindings, w.broker.exchanges[target.exchange], target, w.broker.queues.Keys);
      }
      if forall i :: 0 <= i < |routed.value| ==> routed.value[i] in w.broker.queues {
        PlaceAllStamps(w.broker, routed.value, target, message, w.broker.tag);
        assert QueuesOf(PlaceAll(w.broker, routed.value, target, message, w.broker.tag).1.value) == routed.value;
      }
    }
  }

  lemma PublishConserves(w: World, g: nat, v: World, placements: seq<Placement>)
    requires g !in w.offers && Conserved(w) && Kept(w)
    requires v.offers == StillToOffer(w.offers, g, placements) && v.issued == w.issued + Deliveries(placements)
    requires v == w.(broker := w.broker.(tag := w.broker.tag + |placements|), offers := v.offers, issued := v.issued)
    requires forall i :: 0 <= i < |placements| ==> placements[i].delivery.tag == w.broker.tag + 1 + i
    ensures Conserved(v)
  {
    var to, made := AwaitingOffer(g), Deliveries(placements);
    var more := TagsOf(made);
    forall s | s != to ensures Held(v)(s) == Held(w)(s) { }
    assert Held(v)(to) == Held(w)(to) + made;
    forall k | k in more ensures exists i: nat :: Ledger.Keyed(made, TAG_OF, k, i) {
      var i: nat :| i < |placements| && made[i].tag == k;
      assert Ledger.Keyed(made, TAG_OF, k, i);
    }
    assert TagsOf(v.issued) == TagsOf(w.issued) + more by { TagsOfConcat(w.issued, made); }
    Ledger.IssueKeeps(Held(w), Held(v), TAG_OF, TagsOf(w.issued), more, to, made);
  }

  lemma TagsOfConcat(a: seq<Delivery>, b: seq<Delivery>)
    ensures TagsOf(a + b) == TagsOf(a) + TagsOf(b)
  {
    forall t | t in TagsOf(a) + TagsOf(b) ensures t in TagsOf(a + b) {
      if t in TagsOf(a) {
        var i :| 0 <= i < |a| && a[i].tag == t;
        assert (a + b)[i].tag == t;
      } else {
        var i :| 0 <= i < |b| && b[i].tag == t;
        assert (a + b)[|a| + i].tag == t;
      }
    }
  }

  lemma PublishGenuine(w: World, g: nat, v: World, placements: seq<Placement>)
    requires g !in w.offers && AllGenuine(w) && Kept(w)
    requires v.offers == StillToOffer(w.offers, g, placements) && v.issued == w.issued + Deliveries(placements)
    requires v == w.(broker := w.broker.(tag := w.broker.tag + |placements|), offers := v.offers, issued := v.issued)
    requires forall i :: 0 <= i < |placements| ==>
      placements[i].delivery.tag == w.broker.tag + 1 + i && !placements[i].delivery.redelivered
    ensures AllGenuine(v) && Kept(v)
  {
    forall s ensures GenuineAt(v, s) {
      assert GenuineAt(w, s);
      if s == AwaitingOffer(g) {
        forall i | 0 <= i < |placements| ensures Genuine(v.issued, v.broker.requeues, placements[i].delivery) {
          assert v.issued[w.broker.tag + i] == placements[i].delivery;
        }
      } else {
        assert Contents(v, s) == Contents(w, s);
      }
    }
  }

  // ---- Every step ----

  lemma TopologyKeeps(w: World, step: Step)
    requires Inv(w) && Enabled(w, step) && (step.DeclareExchangeStep? || step.DeclareQueueStep? || step.BindStep?)
    ensures Inv(Next(w, step))
  {
    var v := Next(w, step);
    forall s ensures Contents(v, s) == Contents(w, s) { }
    Ledger.SameKeeps(Held(w), Held(v), TAG_OF, TagsOf(w.issued));
    forall s ensures GenuineAt(v, s) { assert GenuineAt(w, s); }
  }

  lemma PublishKeeps(w: World, g: nat, target: Target, message: Message)
    requires Inv(w) && Enabled(w, PublishStep(g, target, message))
    ensures Inv(AfterPublish(w, g, target, message))
  {
    PublishPlaces(w, target, message);
    var (b, r) := QueuesFor(w.broker, target, message);
    if r.Ok? {
      var v := AfterPublish(w, g, target, message);
      forall i | 0 <= i < |r.value|
        ensures r.value[i].delivery.tag == w.broker.tag + 1 + i && !r.value[i].delivery.redelivered {
        assert IsCopy(r.value[i], target, message, w.broker.tag + 1 + i);
      }
      PublishConserves(w, g, v, r.value);
      PublishGenuine(w, g, v, r.value);
    }
  }

  lemma OfferKeeps(w: World, g: nat)
    requires Inv(w) && Enabled(w, OfferStep(g))
    ensures Inv(AfterOffer(w, g))
  {
    var v, name := AfterOffer(w, g), w.offers[g][0].queue;
    var full := |w.broker.queues[name].backlog| >= CAPACITY;
    var from, to, n := AwaitingOffer(g), if full then WasDropped else Backlog(name), if full then |w.offers[g]| else 1;
    forall s ensures Moved(w, v, from, to, n, s) { OfferMoves(w, g, v, s); }
    MovesConserve(w, v, from, to, n);
    MovesGenuine(w, v, from, to, n);
  }

  lemma TakeKeeps(w: World, g: nat, name: string)
    requires Inv(w) && Enabled(w, TakeStep(g, name))
    ensures Inv(AfterTake(w, g, name))
  {
    var v := AfterTake(w, g, name);
    forall s ensures Moved(w, v, Backlog(name), Received(g), 1, s) { TakeMoves(w, g, name, v, s); }
    MovesConserve(w, v, Backlog(name), Received(g), 1);
    MovesGenuine(w, v, Backlog(name), Received(g), 1);
  }

  lemma RecordKeeps(w: World, g: nat)
    requires Inv(w) && Enabled(w, RecordStep(g))
    ensures Inv(AfterRecord(w, g))
  {
    var v, name, tag := AfterRecord(w, g), w.taken[g].queue, w.taken[g].delivery.tag;
    var from, to := Received(g), Unsettled(name, tag);
    assert Ledger.Spot(Held(w), TAG_OF, tag, from, 0);
    assert !Ledger.Spot(Held(w), TAG_OF, tag, to, 0);
    forall s ensures Moved(w, v, from, to, 1, s) { RecordMoves(w, g, v, s); }
    MovesConserve(w, v, from, to, 1);
    MovesGenuine(w, v, from, to, 1);
  }

  lemma RequeueKeeps(w: World, g: nat, name: string, tag: nat)
    requires Inv(w) && Enabled(w, SettleStep(g, name, tag, Requeued)) && tag in w.broker.queues[name].unsettled
    ensures Inv(AfterSettle(w, g, name, tag, Requeued))
  {
    var v := AfterSettle(w, g, name, tag, Requeued);
    RequeueConserves(w, g, name, tag, v);
    assert GenuineAt(w, Unsettled(name, tag));
    forall s ensures GenuineAt(v, s) {
      assert GenuineAt(w, s);
      RequeueGenuine(w, g, name, tag, v, s);
    }
    assert Genuine(w.issued, w.broker.requeues, Contents(w, Unsettled(name, tag))[0]);
  }

  lemma SettleKeeps(w: World, g: nat, name: string, tag: nat, decision: Decision)
    requires Inv(w) && Enabled(w, SettleStep(g, name, tag, decision)) && decision != Requeued
    requires tag in w.broker.queues[name].unsettled
    ensures Inv(AfterSettle(w, g, name, tag, decision))
  {
    var v := AfterSettle(w, g, name, tag, decision);
    var from, to := Unsettled(name, tag), if decision == Acked then WasAcked else WasDiscarded;
    forall s ensures Moved(w, v, from, to, 1, s) { SettleMoves(w, g, name, tag, decision, v, s); }
    MovesConserve(w, v, from, to, 1);
    MovesGenuine(w, v, from, to, 1);
  }

  lemma ReofferKeeps(w: World, g: nat)
    requires Inv(w) && Enabled(w, ReofferStep(g))
    ensures Inv(AfterReoffer(w, g))
  {
    var v, name := AfterReoffer(w, g), w.requeuing[g].queue;
    var full := |w.broker.queues[name].backlog| >= CAPACITY;
    var from, to := AwaitingRequeue(g), if full then WasDropped else Backlog(name);
    forall s ensures Moved(w, v, from, to, 1, s) { ReofferMoves(w, g, v, s); }
    MovesConserve(w, v, from, to, 1);
    MovesGenuine(w, v, from, to, 1);
  }

  lemma StepKeepsInv(w: World, step: Step)
    requires Inv(w) && Enabled(w, step)
    ensures Inv(Next(w, step))
  {
    match step
    case PublishStep(g, target, message) => PublishKeeps(w, g, target, message);
    case OfferStep(g) => OfferKeeps(w, g);
    case TakeStep(g, name) => TakeKeeps(w, g, name);
    case RecordStep(g) => RecordKeeps(w, g);
    case SettleStep(g, name, tag, decision) =>
      if tag in w.broker.queues[name].unsettled {
        if decision == Requeued { RequeueKeeps(w, g, name, tag); } else { SettleKeeps(w, g, name, tag, decision); }
      }
    case ReofferStep(g) => ReofferKeeps(w, g);
    case _ => TopologyKeeps(w, step);
  }

  // ---- Every run ----

  lemma StartInv()
    ensures Inv(START)
  {
    forall s ensures Contents(START, s) == [] { }
    assert TagsOf(START.issued) == {};
  }

  lemma {:induction false} RunKeepsInv(w: World, steps: seq<Step>, v: World)
    requires Inv(w) && Run(w, steps, v)
    ensures Inv(v)
    decreases |steps|
  {
    if steps != [] {
      StepKeepsInv(w, steps[0]);
      RunKeepsInv(Next(w, steps[0]), steps[1..], v);
    }
  }

  ghost predicate Reachable(w: World) { exists steps :: Run(START, steps, w) }

  lemma ReachableInv(w: World)
    requires Reachable(w)
    ensures Inv(w)
  {
    StartInv();
    var steps :| Run(START, steps, w);
    RunKeepsInv(START, steps, w);
  }

  ghost predicate Holds(w: World, tag: nat, s: Site, i: nat) { i < |Contents(w, s)| && Contents(w, s)[i].tag == tag }

  /** A tag has been issued exactly when it is somewhere, and then it is at one
      site, once. */
  lemma TagAtOneSite(w: World, tag: nat)
    requires Reachable(w)
    ensures 1 <= tag <= w.broker.tag <==> exists s, i: nat :: Holds(w, tag, s, i)
    ensures forall s, i: nat, t, j: nat :: Holds(w, tag, s, i) && Holds(w, tag, t, j) ==> s == t && i == j
  {
    ReachableInv(w);
    forall s, i: nat ensures Holds(w, tag, s, i) <==> Ledger.Spot(Held(w), TAG_OF, tag, s, i) { }
    if 1 <= tag <= w.broker.tag {
      assert w.issued[tag - 1].tag == tag;
      assert Ledger.Somewhere(Held(w), TAG_OF, tag);
      var s, i: nat :| Ledger.Spot(Held(w), TAG_OF, tag, s, i);
      assert Holds(w, tag, s, i);
    }
    if s, i: nat :| Holds(w, tag, s, i) {
      assert Ledger.Spot(Held(w), TAG_OF, tag, s, i);
    }
  }

  /** Over acks and discards together no tag comes twice. */
  lemma SettledForGoodOnce(w: World)
    requires Reachable(w)
    ensures var settled := w.broker.acks + w.broker.discards;
      forall i, j :: 0 <= i < j < |settled| ==> settled[i] != settled[j]
  {
    var a := |w.broker.acks|;
    var settled := w.broker.acks + w.broker.discards;
    ReachableInv(w);
    forall i, j | 0 <= i < j < |settled| ensures settled[i] != settled[j] {
      if settled[i] == settled[j] {
        TagAtOneSite(w, settled[i]);
        assert Holds(w, settled[i], if i < a then WasAcked else WasDiscarded, if i < a then i else i - a);
        assert Holds(w, settled[j], if j < a then WasAcked else WasDiscarded, if j < a then j else j - a);
      }
    }
  }

  /** Wherever a delivery is, it is the copy that was published, except that a
      requeued one says so. */
  lemma DeliveryIsOriginal(w: World, s: Site, i: nat)
    requires Reachable(w) && i < |Contents(w, s)|
    ensures var d := Contents(w, s)[i];
      1 <= d.tag <= |w.issued| && d == w.issued[d.tag - 1].(redelivered := d.tag in w.broker.requeues)
  {
    ReachableInv(w);
    assert GenuineAt(w, s);
  }

  /** What a goroutine has in hand it can always put down: an offer, a record and a
      requeue never find their queue missing. */
  lemma InHandCanGoOn(w: World, g: nat)
    requires Reachable(w)
    ensures g in w.offers ==> Enabled(w, OfferStep(g))
    ensures g in w.taken ==> Enabled(w, RecordStep(g))
    ensures g in w.requeuing ==> Enabled(w, ReofferStep(g))
  {
    ReachableInv(w);
  }

  // ---- The object's methods, undisturbed, are runs ----

  lemma {:induction false} OffersAreARun(
      w: World, g: nat, placements: seq<Placement>) returns (steps: seq<Step>, v: World)
    requires AllIn(placements, w.broker.queues.Keys)
    requires if placements == [] then g !in w.offers else g in w.offers && w.offers[g] == placements
    ensures Run(w, steps, v) && v.broker == OfferAll(w.broker, placements).0
    ensures v.taken == w.taken && v.requeuing == w.requeuing
    decreases |placements|
  {
    if placements == [] {
      steps, v := [], w;
    } else {
      var next := AfterOffer(w, g);
      if |w.broker.queues[placements[0].queue].backlog| >= CAPACITY {
        steps, v := [OfferStep(g)], next;
        assert Run(next, steps[1..], v);
      } else {
        assert next.broker.queues.Keys == w.broker.queues.Keys;
        var rest;
        rest, v := OffersAreARun(next, g, placements[1..]);
        steps := [OfferStep(g)] + rest;
        assert steps[1..] == rest;
      }
    }
  }

  /** Publish, as a method of the object, leaves the broker as a run of its steps does. */
  lemma PublishIsARun(w: World, g: nat, target: Target, message: Message) returns (steps: seq<Step>, v: World)
    requires Enabled(w, PublishStep(g, target, message))
    ensures Run(w, steps, v) && v.broker == Publish(w.broker, target, message).0
    ensures v.taken == w.taken && v.requeuing == w.requeuing
  {
    var next := AfterPublish(w, g, target, message);
    var (b, r) := QueuesFor(w.broker, target, message);
    var rest: seq<Step> := [];
    v := next;
    if r.Ok? {
      PlacedAreDeclared(w.broker, RouteTargets(w.broker, target).value, target, message, w.broker.tag);
      rest, v := OffersAreARun(next, g, r.value);
    }
    steps := [PublishStep(g, target, message)] + rest;
    assert steps[1..] == rest;
  }

  lemma RequeueIsARun(w: World, g: nat, name: string, tag: nat) returns (steps: seq<Step>, v: World)
    requires Enabled(w, SettleStep(g, name, tag, Requeued))
    ensures Run(w, steps, v) && v.broker == Requeue(w.broker, name, tag).0
  {
    var next := AfterSettle(w, g, name, tag, Requeued);
    if tag in w.broker.queues[name].unsettled {
      v := AfterReoffer(next, g);
      steps := [SettleStep(g, name, tag, Requeued), ReofferStep(g)];
      assert steps[1..] == [ReofferStep(g)] && steps[1..][1..] == [];
      assert Run(v, [], v) && Run(next, steps[1..], v);
    } else {
      v := next;
      steps := [SettleStep(g, name, tag, Requeued)];
      assert Run(next, steps[1..], v);
    }
  }

  lemma NextIsARun(w: World, g: nat, name: string) returns (steps: seq<Step>, v: World)
    requires Enabled(w, TakeStep(g, name))
    ensures Run(w, steps, v)
    ensures var (taken, d) := Take(w.broker, name); v.broker == Record(taken, name, d)
    ensures v.requeuing == w.requeuing
  {
    var next := AfterTake(w, g, name);
    v := AfterRecord(next, g);
    steps := [TakeStep(g, name), RecordStep(g)];
    assert steps[1..] == [RecordStep(g)] && steps[1..][1..] == [];
    assert Run(v, [], v) && Run(next, steps[1..], v);
  }

  /** So does every method that is one step: declaring, binding and settling for good. */
  lemma OneStepIsARun(w: World, g: nat, name: string, kind: Kind, binding: Binding, tag: nat)
    ensures Run(w, [DeclareExchangeStep(name, kind)], Next(w, DeclareExchangeStep(name, kind)))
      && Next(w, DeclareExchangeStep(name, kind)).broker == w.broker.(exchanges := w.broker.exchanges[name := kind])
    ensures Run(w, [DeclareQueueStep(name)], Next(w, DeclareQueueStep(name)))
      && Next(w, DeclareQueueStep(name)).broker == DeclareQueue(w.broker, name)
    ensures Run(w, [BindStep(binding)], Next(w, BindStep(binding)))
      && Next(w, BindStep(binding)).broker == Bind(w.broker, binding).0
    ensures name in w.broker.queues && g !in w.requeuing ==>
      && Run(w, [SettleStep(g, name, tag, Acked)], AfterSettle(w, g, name, tag, Acked))
      && AfterSettle(w, g, name, tag, Acked).broker == Settle(w.broker, name, tag, Acked).0
      && Run(w, [SettleStep(g, name, tag, Discarded)], AfterSettle(w, g, name, tag, Discarded))
      && AfterSettle(w, g, name, tag, Discarded).broker == Settle(w.broker, name, tag, Discarded).0
  {
    forall v: World, step | Enabled(w, step) && v == Next(w, step) ensures Run(w, [step], v) {
      assert Run(v, [step][1..], v);
    }
  }

  lemma {:induction false} RunConcat(w: World, first: seq<Step>, v: World, second: seq<Step>, u: World)
    requires Run(w, first, v) && Run(v, second, u)
    ensures Run(w, first + second, u)
    decreases |first|
  {
    if first == [] {
      assert first + second == second;
    } else {
      assert (first + second)[1..] == first[1..] + second;
      RunConcat(Next(w, first[0]), first[1..], v, second, u);
    }
  }

  lemma TakenAndAcked(b: State, name: string, d: Delivery)
    requires name in b.queues && b.queues[name] == Queue([d], map[])
    ensures var (taken, delivery) := Take(b, name);
      var recorded := Record(taken, name, delivery);
      && name in recorded.queues && d.tag in recorded.queues[name].unsettled
      && Settle(recorded, name, d.tag, Acked).0 ==
           b.(queues := b.queues[name := Queue([], map[])], acks := b.acks + [d.tag])
  {
    var (taken, delivery) := Take(b, name);
    assert taken.queues[name] == Queue([], map[]);
    assert Record(taken, name, delivery).queues[name].unsettled - {d.tag} == map[];
  }

  lemma PublishedFirst(name: string, message: Message) returns (steps: seq<Step>, v: World)
    ensures Run(START, steps, v) && v.taken == map[] && v.requeuing == map[]
    ensures v.broker == Broker091.EMPTY.(
      tag := 1, queues := map[name := Queue([Stamp(Target("", name), message, 1)], map[])])
  {
    var declared := Next(START, DeclareQueueStep(name));
    OneStepIsARun(START, 0, name, Direct, Binding("", "", ""), 1);
    DeclaredReceives(START.broker, name, message);
    assert declared.broker == Broker091.EMPTY.(queues := map[name := Queue([], map[])]);
    var d := Stamp(Target("", name), message, 1);
    assert [] + [d] == [d];
    assert declared.broker.queues[name := Queue([d], map[])] == map[name := Queue([d], map[])];
    steps, v := PublishIsARun(declared, 0, Target("", name), message);
    RunConcat(START, [DeclareQueueStep(name)], declared, steps, v);
    steps := [DeclareQueueStep(name)] + steps;
  }

  lemma ReceivedAndAcked(w: World, name: string, d: Delivery) returns (steps: seq<Step>, v: World)
    requires w.taken == map[] && w.requeuing == map[]
    requires name in w.broker.queues && w.broker.queues[name] == Queue([d], map[])
    ensures Run(w, steps, v)
    ensures v.broker == w.broker.(queues := w.broker.queues[name := Queue([], map[])], acks := w.broker.acks + [d.tag])
  {
    TakenAndAcked(w.broker, name, d);
    var received;
    steps, received := NextIsARun(w, 0, name);
    OneStepIsARun(received, 0, name, Direct, Binding("", "", ""), d.tag);
    v := AfterSettle(received, 0, name, d.tag, Acked);
    RunConcat(w, steps, received, [SettleStep(0, name, d.tag, Acked)], v);
    steps := steps + [SettleStep(0, name, d.tag, Acked)];
  }

  /** There are such runs from the start: a message published to a queue that was
      declared is received and acked, and then there is nothing else. */
  lemma MessageGetsThrough(name: string, message: Message) returns (steps: seq<Step>, v: World)
    ensures Run(START, steps, v)
    ensures v.broker == Broker091.EMPTY.(tag := 1, queues := map[name := Queue([], map[])], acks := [1])
  {
    var publishing, published := PublishedFirst(name, message);
    var receiving;
    receiving, v := ReceivedAndAcked(published, name, Stamp(Target("", name), message, 1));
    RunConcat(START, publishing, published, receiving, v);
    steps := publishing + receiving;
    assert published.broker.queues[name := Queue([], map[])] == map[name := Queue([], map[])];
  }
}
