/** The 1.0 broker under every interleaving of its links. Each link has a lock of
    its own beside the broker's, so a message is in a goroutine's hands between a
    pop and its recording, and between its claiming and the decision on it. */
module Broker10Runs {
  import opened Strings
  import opened Broker10
  import Ledger

  datatype Link = Link(address: string, unsettled: Unsettled, detached: bool)

  datatype Outgoing = Outgoing(address: string, message: Message)

  datatype Popped = Popped(link: nat, delivery: Delivery)

  datatype Settling = Settling(link: nat, tag: string, delivery: Delivery, disposition: Disposition)

  datatype Sent = Sent(address: string, delivery: Delivery)

  /** The broker, its links and what each goroutine holds between two locks; and,
      for the record, every message as it was sent, the tag of every message taken
      from a node, and the messages accepted and rejected. */
  datatype World = World(
    broker: State,
    senders: map<nat, Link>,
    receivers: map<nat, Link>,
    sending: map<nat, Outgoing>,
    reading: map<nat, nat>,
    popped: map<nat, Popped>,
    settling: map<nat, Settling>,
    sent: seq<Sent>,
    receipts: seq<string>,
    accepted: seq<Delivery>,
    rejected: seq<Delivery>)

  const START := World(Broker10.EMPTY, map[], map[], map[], map[], map[], map[], [], [], [], [])

  datatype Site =
    | Backlog(address: string)
    | InHand(g: nat)
    | HandedOut(link: nat, tag: string)
    | Deciding(g: nat)
    | WasAccepted
    | WasRejected

  function HandedOutBy(receivers: map<nat, Link>, link: nat, tag: string): seq<Delivery>
  {
    if link in receivers && tag in receivers[link].unsettled then [receivers[link].unsettled[tag]] else []
  }

  function Contents(w: World, s: Site): seq<Delivery>
  {
    match s
    case Backlog(address) => if address in w.broker.nodes then w.broker.nodes[address] else []
    case InHand(g) => if g in w.popped then [w.popped[g].delivery] else []
    case HandedOut(link, tag) => HandedOutBy(w.receivers, link, tag)
    case Deciding(g) => if g in w.settling then [w.settling[g].delivery] else []
    case WasAccepted => w.accepted
    case WasRejected => w.rejected
  }

  // ---- The steps ----

  /** What a sending link does before it has a message to its name. */
  datatype SenderMove =
    | AttachSender(address: string)
    | DetachSender
    | BeginSend(g: nat, message: Message)

  datatype ReceiverMove =
    | AttachReceiver(address: string)
    | DetachReceiver
    | BeginReceive(g: nat)

  datatype Step =
    | DeclareStep(address: string)
    | SenderStep(link: nat, sends: SenderMove)
    | ReceiverStep(link: nat, receives: ReceiverMove)
    | EnqueueStep(g: nat)
    | PopStep(g: nat)
    | KeepStep(g: nat)
    | ClaimStep(g: nat, link: nat, tag: string, disposition: Disposition)
    | DecideStep(g: nat)

  predicate Enabled(w: World, step: Step)
  {
    match step
    case DeclareStep(_) => true
    case SenderStep(link, AttachSender(_)) => link !in w.senders
    case SenderStep(link, DetachSender) => link in w.senders
    case SenderStep(link, BeginSend(g, _)) => link in w.senders && g !in w.sending
    case ReceiverStep(link, AttachReceiver(_)) => link !in w.receivers
    case ReceiverStep(link, DetachReceiver) => link in w.receivers
    case ReceiverStep(link, BeginReceive(g)) => link in w.receivers && g !in w.reading
    case EnqueueStep(g) => g in w.sending
    case PopStep(g) => g in w.reading && g !in w.popped && w.reading[g] in w.receivers
    case KeepStep(g) => g in w.popped && w.popped[g].link in w.receivers
    case ClaimStep(g, link, _, _) => g !in w.settling && link in w.receivers
    case DecideStep(g) => g in w.settling && w.settling[g].link in w.receivers
  }

  function AfterEnqueue(w: World, g: nat): World
    requires Enabled(w, EnqueueStep(g))
  {
    var out := w.sending[g];
    var (b, r) := Enqueue(w.broker, out.address, out.message);
    match r
    case Err(_) => w.(broker := b, sending := w.sending - {g})
    case Ok(_) => w.(broker := b, sending := w.sending - {g},
      sent := w.sent + [Sent(out.address, Stamp(out.address, out.message, b.tag))])
  }

  function AfterPop(w: World, g: nat): World
    requires Enabled(w, PopStep(g))
  {
    var link := w.reading[g];
    var (b, r) := Pop(w.broker, w.receivers[link].address);
    match r
    case Ok(Some(delivery)) =>
      w.(broker := b, reading := w.reading - {g}, popped := w.popped[g := Popped(link, delivery)],
        receipts := w.receipts + [delivery.tag])
    case _ => w.(broker := b, reading := w.reading - {g})
  }

  function Keeping(link: Link, delivery: Delivery): Link
  {
    link.(unsettled := link.unsettled[delivery.tag := delivery])
  }

  function AfterKeep(w: World, g: nat): World
    requires Enabled(w, KeepStep(g))
  {
    var held := w.popped[g];
    w.(receivers := w.receivers[held.link := Keeping(w.receivers[held.link], held.delivery)], popped := w.popped - {g})
  }

  function Without(link: Link, tag: string): Link { link.(unsettled := link.unsettled - {tag}) }

  /** The start of settle: an unknown tag ends it there. */
  function AfterClaim(w: World, g: nat, id: nat, tag: string, disposition: Disposition): World
    requires Enabled(w, ClaimStep(g, id, tag, disposition))
  {
    var link := w.receivers[id];
    if tag !in link.unsettled then w
    else w.(receivers := w.receivers[id := Without(link, tag)],
            settling := w.settling[g := Settling(id, tag, link.unsettled[tag], disposition)])
  }

  /** The goroutine's hands are empty, and what is settled for good is on record. */
  function Decided(w: World, g: nat, b: State): World
    requires g in w.settling
  {
    var held := w.settling[g];
    w.(broker := b, settling := w.settling - {g},
       accepted := if held.disposition.Accept? then w.accepted + [held.delivery] else w.accepted,
       rejected := if held.disposition.Reject? then w.rejected + [held.delivery] else w.rejected)
  }

  function AfterDecide(w: World, g: nat): World
    requires Enabled(w, DecideStep(g))
  {
    var held := w.settling[g];
    Decided(w, g, Decide(w.broker, w.receivers[held.link].address, held.tag, held.delivery, held.disposition))
  }

  function AfterSender(w: World, id: nat, sends: SenderMove): World
    requires Enabled(w, SenderStep(id, sends))
  {
    match sends
    case AttachSender(address) =>
      if address !in w.broker.nodes then w else w.(senders := w.senders[id := Link(address, map[], false)])
    case DetachSender => w.(senders := w.senders[id := w.senders[id].(detached := true)])
    case BeginSend(g, message) =>
      if w.senders[id].detached then w else w.(sending := w.sending[g := Outgoing(w.senders[id].address, message)])
  }

  function AfterReceiver(w: World, id: nat, receives: ReceiverMove): World
    requires Enabled(w, ReceiverStep(id, receives))
  {
    match receives
    case AttachReceiver(address) =>
      if address !in w.broker.nodes then w else w.(receivers := w.receivers[id := Link(address, map[], false)])
    case DetachReceiver => w.(receivers := w.receivers[id := w.receivers[id].(detached := true)])
    case BeginReceive(g) => if w.receivers[id].detached then w else w.(reading := w.reading[g := id])
  }

  function Next(w: World, step: Step): World
    requires Enabled(w, step)
  {
    match step
    case EnqueueStep(g) => AfterEnqueue(w, g)
    case PopStep(g) => AfterPop(w, g)
    case KeepStep(g) => AfterKeep(w, g)
    case ClaimStep(g, link, tag, disposition) => AfterClaim(w, g, link, tag, disposition)
    case DecideStep(g) => AfterDecide(w, g)
    case SenderStep(link, sends) => AfterSender(w, link, sends)
    case ReceiverStep(link, receives) => AfterReceiver(w, link, receives)
    case DeclareStep(address) => w.(broker := Declare(w.broker, address))
  }

  ghost predicate Run(w: World, steps: seq<Step>, v: World)
    decreases |steps|
  {
    if steps == [] then w == v else Enabled(w, steps[0]) && Run(Next(w, steps[0]), steps[1..], v)
  }

  // ---- Counting ----

  function Count(tags: seq<string>, tag: string): nat { multiset(tags)[tag] }

  function Rejections(all: seq<Rejection>, tag: string): nat
  {
    if all == [] then 0 else Rejections(all[..|all| - 1], tag) + if all[|all| - 1].tag == tag then 1 else 0
  }

  function Modifications(all: seq<Modification>, tag: string): nat
  {
    if all == [] then 0 else Modifications(all[..|all| - 1], tag) + if all[|all| - 1].tag == tag then 1 else 0
  }

  /** The modifications of a message that say it may still be delivered here. */
  function Attempts(all: seq<Modification>, tag: string): nat
  {
    if all == [] then 0
    else
      var last := all[|all| - 1];
      Attempts(all[..|all| - 1], tag) + if last.tag == tag && !last.change.undeliverableHere then 1 else 0
  }

  /** How often a message has been settled, one way or another. */
  function Settlements(b: State, tag: string): nat
  {
    Count(b.accepted, tag) + Rejections(b.rejected, tag) + Count(b.released, tag) + Modifications(b.modified, tag)
  }

  lemma NotedCounts(b: State, named: string, disposition: Disposition, tag: string)
    ensures Settlements(Noted(b, named, disposition), tag) == Settlements(b, tag) + if named == tag then 1 else 0
    ensures Attempts(Noted(b, named, disposition).modified, tag) ==
      Attempts(b.modified, tag) + if named == tag && disposition.Modify?
        && !disposition.change.undeliverableHere then 1 else 0
  {
    match disposition
    case Accept => CountMore(b.accepted, named, tag);
    case Release => CountMore(b.released, named, tag);
    case Reject(reason) => assert (b.rejected + [Rejection(named, reason)])[..|b.rejected|] == b.rejected;
    case Modify(change) => assert (b.modified + [Modification(named, change)])[..|b.modified|] == b.modified;
  }

  // ---- What every step keeps ----

  ghost function Held(w: World): Site -> seq<Delivery> { s => Contents(w, s) }

  const TAG_OF: Delivery -> string := (d: Delivery) => d.tag

  function TagsOf(sent: seq<Sent>): set<string> { set i | 0 <= i < |sent| :: sent[i].delivery.tag }

  /** Every tag sent is at exactly one site, once, and no other tag is anywhere. */
  ghost predicate Conserved(w: World) { Ledger.OneSpotEach(Held(w), TAG_OF, TagsOf(w.sent)) }

  ghost predicate StampedInTurn(sent: seq<Sent>, tag: nat)
  {
    && |sent| == tag
    && forall i :: 0 <= i < |sent| ==>
      sent[i].delivery.tag == TagName(sent[i].address, i + 1) && sent[i].delivery.attempts == 0
  }

  /** The address whose message may be at a site; what is settled for good may have
      been sent to any. */
  function AddressOf(w: World, s: Site): Option<string>
  {
    match s
    case Backlog(address) => Some(address)
    case InHand(g) =>
      if g in w.popped && w.popped[g].link in w.receivers then Some(w.receivers[w.popped[g].link].address) else None
    case HandedOut(link, _) => if link in w.receivers then Some(w.receivers[link].address) else None
    case Deciding(g) =>
      if g in w.settling && w.settling[g].link in w.receivers then Some(w.receivers[w.settling[g].link].address)
        else None
    case _ => None
  }

  predicate IsOut(s: Site) { s.InHand? || s.HandedOut? || s.Deciding? }

  /** The i-th message sent, its attempts counted up. */
  ghost predicate IsCopy(
      sent: seq<Sent>, modified: seq<Modification>, address: Option<string>, delivery: Delivery, i: nat)
  {
    && i < |sent| && (address.Some? ==> address.value == sent[i].address)
    && delivery == sent[i].delivery.(attempts := Attempts(modified, delivery.tag) % WRAP)
  }

  /** A delivery is a message that was sent, at its own address; it has been settled
      as often as it was received, but for the receipt that is still out. */
  ghost predicate Genuine(w: World, s: Site, delivery: Delivery)
  {
    && (exists i: nat :: IsCopy(w.sent, w.broker.modified, AddressOf(w, s), delivery, i))
    && Count(w.receipts, delivery.tag) == Settlements(w.broker, delivery.tag) + if IsOut(s) then 1 else 0
  }

  ghost predicate GenuineAt(w: World, s: Site)
  {
    forall i :: 0 <= i < |Contents(w, s)| ==> Genuine(w, s, Contents(w, s)[i])
  }

  ghost predicate AllGenuine(w: World) { forall s :: GenuineAt(w, s) }

  ghost predicate FiledByTag(unsettled: Unsettled) { forall t :: t in unsettled ==> unsettled[t].tag == t }

  ghost predicate ReceiversFit(receivers: map<nat, Link>, nodes: set<string>)
  {
    forall l :: l in receivers ==> receivers[l].address in nodes && FiledByTag(receivers[l].unsettled)
  }

  ghost predicate SendersFit(senders: map<nat, Link>, nodes: set<string>)
  {
    forall l :: l in senders ==> senders[l].address in nodes
  }

  ghost predicate SendingFits(sending: map<nat, Outgoing>, nodes: set<string>)
  {
    forall g :: g in sending ==> sending[g].address in nodes
  }

  ghost predicate ReadingFits(reading: map<nat, nat>, links: set<nat>)
  {
    forall g :: g in reading ==> reading[g] in links
  }

  ghost predicate PoppedFits(popped: map<nat, Popped>, links: set<nat>)
  {
    forall g :: g in popped ==> popped[g].link in links
  }

  ghost predicate SettlingFits(settling: map<nat, Settling>, links: set<nat>)
  {
    forall g :: g in settling ==> settling[g].link in links && settling[g].tag == settling[g].delivery.tag
  }

  /** Links are attached to nodes that exist, and file what they handed out under
      its tag; goroutines work for links that exist. */
  ghost predicate Attached(w: World)
  {
    && ReceiversFit(w.receivers, w.broker.nodes.Keys)
    && SendersFit(w.senders, w.broker.nodes.Keys)
    && SendingFits(w.sending, w.broker.nodes.Keys)
    && ReadingFits(w.reading, w.receivers.Keys)
    && PoppedFits(w.popped, w.receivers.Keys)
    && SettlingFits(w.settling, w.receivers.Keys)
  }

  ghost predicate Recorded(tags: seq<string>, deliveries: seq<Delivery>)
  {
    |tags| == |deliveries| && forall i :: 0 <= i < |tags| ==> tags[i] == deliveries[i].tag
  }

  ghost predicate RejectedAs(rejections: seq<Rejection>, deliveries: seq<Delivery>)
  {
    |rejections| == |deliveries| && forall i :: 0 <= i < |rejections| ==> rejections[i].tag == deliveries[i].tag
  }

  ghost predicate Kept(w: World)
  {
    && StampedInTurn(w.sent, w.broker.tag)
    && Recorded(w.broker.accepted, w.accepted)
    && RejectedAs(w.broker.rejected, w.rejected)
  }

  /** A tag nothing has been said about. */
  ghost predicate Unheard(receipts: seq<string>, b: State, tag: string)
  {
    Count(receipts, tag) == 0 && Settlements(b, tag) == 0
  }

  /** Nothing is received or settled that was not sent. */
  ghost predicate NoneInvented(w: World) { forall t :: t !in TagsOf(w.sent) ==> Unheard(w.receipts, w.broker, t) }

  ghost predicate Inv(w: World) { Conserved(w) && Kept(w) && AllGenuine(w) && NoneInvented(w) && Attached(w) }

  lemma {:induction false} AttemptsAreModifications(all: seq<Modification>, tag: string)
    ensures Attempts(all, tag) <= Modifications(all, tag)
  {
    if all != [] { AttemptsAreModifications(all[..|all| - 1], tag); }
  }

  // ---- One delivery moving ----

  /** The first at one site now stands, perhaps changed, at the end of another. */
  ghost predicate Moved(w: World, v: World, from: Site, to: Site, again: Delivery, s: Site)
    requires Contents(w, from) != []
  {
    Contents(v, s) == if s == from then Contents(w, from)[1..]
                      else if s == to then Contents(w, to) + [again]
                      else Contents(w, s)
  }

  ghost predicate Moves(w: World, v: World, from: Site, to: Site, again: Delivery)
  {
    && from != to && v.sent == w.sent
    && Contents(w, from) != [] && again.tag == Contents(w, from)[0].tag
    && forall s :: Moved(w, v, from, to, again, s)
  }

  lemma MovesTransfer(w: World, v: World, from: Site, to: Site, again: Delivery)
    requires Moves(w, v, from, to, again)
    ensures Ledger.Transferred(Held(w), Held(v), TAG_OF, from, to, 1)
  {
    forall s ensures Ledger.TransferredAt(Held(w), Held(v), from, to, [again], s) {
      assert Moved(w, v, from, to, again, s);
    }
    Ledger.TransferredEverywhere(Held(w), Held(v), TAG_OF, from, to, [again]);
  }

  lemma MovesConserve(w: World, v: World, from: Site, to: Site, again: Delivery)
    requires Conserved(w) && Moves(w, v, from, to, again)
    ensures Conserved(v)
  {
    MovesTransfer(w, v, from, to, again);
    Ledger.TransferKeeps(Held(w), Held(v), TAG_OF, TagsOf(w.sent), from, to, 1);
  }

  /** Nothing was said about a tag. */
  ghost predicate Untouched(w: World, v: World, t: string)
  {
    && Count(v.receipts, t) == Count(w.receipts, t)
    && Settlements(v.broker, t) == Settlements(w.broker, t)
    && Attempts(v.broker.modified, t) == Attempts(w.broker.modified, t)
  }

  lemma UntouchedGenuine(w: World, v: World, s: Site, d: Delivery)
    requires Genuine(w, s, d) && Untouched(w, v, d.tag) && AddressOf(v, s) == AddressOf(w, s)
    requires |w.sent| <= |v.sent| && forall i :: 0 <= i < |w.sent| ==> v.sent[i] == w.sent[i]
    ensures Genuine(v, s, d)
  {
    var i: nat :| IsCopy(w.sent, w.broker.modified, AddressOf(w, s), d, i);
    assert IsCopy(v.sent, v.broker.modified, AddressOf(v, s), d, i);
  }

  /** The tag that was spoken of is at one spot, so what is at another is untouched. */
  lemma ElsewhereGenuine(w: World, v: World, tag: string, from: Site, s: Site, j: nat)
    requires Conserved(w) && Ledger.Spot(Held(w), TAG_OF, tag, from, 0)
    requires j < |Contents(w, s)| && Genuine(w, s, Contents(w, s)[j]) && (s == from ==> j > 0)
    requires forall t :: t != tag ==> Untouched(w, v, t)
    requires AddressOf(v, s) == AddressOf(w, s) && v.sent == w.sent
    ensures Genuine(v, s, Contents(w, s)[j])
  {
    assert !Ledger.Spot(Held(w), TAG_OF, tag, s, j);
    assert TAG_OF(Held(w)(s)[j]) == Contents(w, s)[j].tag;
    UntouchedGenuine(w, v, s, Contents(w, s)[j]);
  }

  lemma MovesGenuineAt(w: World, v: World, from: Site, to: Site, again: Delivery, s: Site)
    requires Conserved(w) && GenuineAt(w, s) && Moves(w, v, from, to, again)
    requires forall t :: t != again.tag ==> Untouched(w, v, t)
    requires |Contents(w, s)| > (if s == from then 1 else 0) ==> AddressOf(v, s) == AddressOf(w, s)
    requires Genuine(v, to, again)
    ensures GenuineAt(v, s)
  {
    var was, now := Contents(w, s), Contents(v, s);
    assert now == if s == from then was[1..] else if s == to then was + [again] else was by {
      assert Moved(w, v, from, to, again, s);
    }
    assert Ledger.Spot(Held(w), TAG_OF, again.tag, from, 0);
    forall j: nat | j < |was| && (s == from ==> j > 0) ensures Genuine(v, s, was[j]) {
      ElsewhereGenuine(w, v, again.tag, from, s, j);
    }
  }

  // ---- Each step ----

  lemma PopMoves(w: World, g: nat, address: string, v: World, s: Site)
    requires Enabled(w, PopStep(g)) && v == AfterPop(w, g) && address == w.receivers[w.reading[g]].address
    requires address in w.broker.nodes && w.broker.nodes[address] != []
    ensures Moved(w, v, Backlog(address), InHand(g), w.broker.nodes[address][0], s)
    ensures Contents(w, s) != [] ==> AddressOf(v, s) == AddressOf(w, s)
  {
  }

  lemma KeepMoves(w: World, g: nat, v: World, s: Site)
    requires Enabled(w, KeepStep(g)) && v == AfterKeep(w, g)
    requires w.popped[g].delivery.tag !in w.receivers[w.popped[g].link].unsettled
    ensures Moved(w, v, InHand(g), HandedOut(w.popped[g].link, w.popped[g].delivery.tag), w.popped[g].delivery, s)
    ensures s != InHand(g) && Contents(w, s) != [] ==> AddressOf(v, s) == AddressOf(w, s)
  {
  }

  lemma ClaimMoves(w: World, g: nat, id: nat, tag: string, disposition: Disposition, v: World, s: Site)
    requires Enabled(w, ClaimStep(g, id, tag, disposition)) && v == AfterClaim(w, g, id, tag, disposition)
    requires tag in w.receivers[id].unsettled
    ensures Moved(w, v, HandedOut(id, tag), Deciding(g), w.receivers[id].unsettled[tag], s)
    ensures Contents(w, s) != [] ==> AddressOf(v, s) == AddressOf(w, s)
  {
  }

  function DecidedTo(address: string, disposition: Disposition): Site
  {
    match disposition
    case Accept => WasAccepted
    case Reject(_) => WasRejected
    case _ => Backlog(address)
  }

  function DecidedAs(delivery: Delivery, disposition: Disposition): (again: Delivery)
    ensures again.tag == delivery.tag
  {
    var back := PutBack(delivery, disposition);
    if back == [] then delivery else back[0]
  }

  lemma GivenBackMoves(w: World, g: nat, address: string, again: Delivery, v: World, s: Site)
    requires g in w.settling && address in w.broker.nodes
    requires v.broker.nodes == w.broker.nodes[address := w.broker.nodes[address] + [again]]
    requires v == w.(broker := v.broker, settling := w.settling - {g})
    ensures Moved(w, v, Deciding(g), Backlog(address), again, s)
  {
  }

  lemma FinalMoves(w: World, g: nat, d: Delivery, to: Site, v: World, s: Site)
    requires g in w.settling && w.settling[g].delivery == d && v.broker.nodes == w.broker.nodes
    requires to == WasAccepted || to == WasRejected
    requires v == w.(broker := v.broker, settling := w.settling - {g},
                     accepted := if to == WasAccepted then w.accepted + [d] else w.accepted,
                     rejected := if to == WasRejected then w.rejected + [d] else w.rejected)
    ensures Moved(w, v, Deciding(g), to, d, s)
  {
  }

  lemma DecideMoves(w: World, g: nat, held: Settling, address: string, v: World, s: Site)
    requires Enabled(w, DecideStep(g)) && v == AfterDecide(w, g) && held == w.settling[g]
    requires address == w.receivers[held.link].address && address in w.broker.nodes
    ensures Moved(
      w, v, Deciding(g), DecidedTo(address, held.disposition), DecidedAs(held.delivery, held.disposition), s)
  {
    if held.disposition.Accept? || held.disposition.Reject? {
      FinalMoves(w, g, held.delivery, DecidedTo(address, held.disposition), v, s);
    } else {
      GivenBackMoves(w, g, address, DecidedAs(held.delivery, held.disposition), v, s);
    }
  }

  // ---- Every step ----

  /** Nothing was moved and nothing was said. */
  ghost predicate Quiet(w: World, v: World, s: Site)
  {
    Contents(v, s) == Contents(w, s) && (Contents(w, s) != [] ==> AddressOf(v, s) == AddressOf(w, s))
  }

  ghost predicate SameRecord(w: World, v: World)
  {
    && v.sent == w.sent && v.receipts == w.receipts && v.accepted == w.accepted && v.rejected == w.rejected
    && v.broker == w.broker.(nodes := v.broker.nodes)
  }

  lemma QuietKeeps(w: World, v: World)
    requires Inv(w) && SameRecord(w, v) && Attached(v) && forall s :: Quiet(w, v, s)
    ensures Inv(v)
  {
    forall s ensures Held(v)(s) == Held(w)(s) { assert Quiet(w, v, s); }
    Ledger.SameKeeps(Held(w), Held(v), TAG_OF, TagsOf(w.sent));
    forall s ensures GenuineAt(v, s) {
      assert Quiet(w, v, s) && GenuineAt(w, s);
      forall i: nat | i < |Contents(w, s)| ensures Genuine(v, s, Contents(w, s)[i]) {
        assert Untouched(w, v, Contents(w, s)[i].tag);
        UntouchedGenuine(w, v, s, Contents(w, s)[i]);
      }
    }
    forall t | t !in TagsOf(v.sent) ensures Unheard(v.receipts, v.broker, t) {
      assert Unheard(w.receipts, w.broker, t);
    }
  }

  lemma DeclareKeeps(w: World, address: string)
    requires Inv(w)
    ensures Inv(w.(broker := Declare(w.broker, address)))
  {
    var v := w.(broker := Declare(w.broker, address));
    forall s ensures Quiet(w, v, s) { }
    QuietKeeps(w, v);
  }

  ghost predicate SendersGrown(w: World, v: World)
  {
    && (forall l :: l in v.senders ==>
         if l in w.senders then v.senders[l].address == w.senders[l].address
           else v.senders[l].address in w.broker.nodes)
    && (forall g :: g in v.sending ==>
         if g in w.sending then v.sending[g] == w.sending[g]
         else exists l :: l in w.senders && v.sending[g].address == w.senders[l].address)
  }

  lemma SenderShape(w: World, id: nat, sends: SenderMove, v: World)
    requires Enabled(w, SenderStep(id, sends)) && v == AfterSender(w, id, sends)
    ensures v.broker == w.broker && v.receivers == w.receivers && v.reading == w.reading && v.popped == w.popped
      && v.settling == w.settling
    ensures SameRecord(w, v) && SendersGrown(w, v)
  {
  }

  lemma SenderAttached(w: World, v: World)
    requires v.broker == w.broker && v.receivers == w.receivers && v.reading == w.reading && v.popped == w.popped
      && v.settling == w.settling
    requires Attached(w) && SendersGrown(w, v)
    ensures Attached(v)
  {
  }

  lemma SenderKeeps(w: World, id: nat, sends: SenderMove, v: World)
    requires Inv(w) && Enabled(w, SenderStep(id, sends)) && v == AfterSender(w, id, sends)
    ensures Inv(v)
  {
    SenderShape(w, id, sends, v);
    SenderAttached(w, v);
    forall s ensures Quiet(w, v, s) { SameSitesQuiet(w, v, s); }
    QuietKeeps(w, v);
  }

  lemma SameSitesQuiet(w: World, v: World, s: Site)
    requires v.broker == w.broker && v.receivers == w.receivers && v.popped == w.popped && v.settling == w.settling
    requires v.accepted == w.accepted && v.rejected == w.rejected
    ensures Quiet(w, v, s)
  {
  }

  lemma ReceiverQuiet(w: World, id: nat, receives: ReceiverMove, s: Site)
    requires Attached(w) && Enabled(w, ReceiverStep(id, receives))
    ensures Quiet(w, AfterReceiver(w, id, receives), s)
  {
  }

  ghost predicate ReceiversGrown(w: World, v: World)
  {
    && w.receivers.Keys <= v.receivers.Keys
    && (forall l :: l in v.receivers ==>
         if l in w.receivers then v.receivers[l].(detached := w.receivers[l].detached) == w.receivers[l]
         else v.receivers[l].unsettled == map[] && v.receivers[l].address in w.broker.nodes)
    && (forall g :: g in v.reading ==>
      if g in w.reading then v.reading[g] == w.reading[g] else v.reading[g] in v.receivers)
  }

  lemma ReceiverShape(w: World, id: nat, receives: ReceiverMove, v: World)
    requires Enabled(w, ReceiverStep(id, receives)) && v == AfterReceiver(w, id, receives)
    ensures v == w.(receivers := v.receivers, reading := v.reading)
  {
  }

  lemma ReceiverGrows(w: World, id: nat, receives: ReceiverMove, v: World)
    requires Enabled(w, ReceiverStep(id, receives)) && v == AfterReceiver(w, id, receives)
    ensures ReceiversGrown(w, v)
  {
    match receives
    case AttachReceiver(address) =>
      var link := Link(address, map[], false);
      assert v.reading == w.reading && (address !in w.broker.nodes || v.receivers == w.receivers[id := link]);
    case DetachReceiver =>
      var link := w.receivers[id].(detached := true);
      assert v.reading == w.reading && v.receivers == w.receivers[id := link];
    case BeginReceive(g) =>
      assert v.receivers == w.receivers && (v.reading == w.reading || v.reading == w.reading[g := id]);
  }

  lemma ReceiverAttached(w: World, v: World)
    requires v.broker == w.broker && v.senders == w.senders && v.sending == w.sending && v.popped == w.popped
      && v.settling == w.settling
    requires Attached(w) && ReceiversGrown(w, v)
    ensures Attached(v)
  {
  }

  lemma ReceiverKeeps(w: World, id: nat, receives: ReceiverMove, v: World)
    requires Inv(w) && Enabled(w, ReceiverStep(id, receives)) && v == AfterReceiver(w, id, receives)
    ensures Inv(v)
  {
    ReceiverShape(w, id, receives, v);
    ReceiverGrows(w, id, receives, v);
    ReceiverAttached(w, v);
    forall s ensures Quiet(w, v, s) { ReceiverQuiet(w, id, receives, s); }
    QuietKeeps(w, v);
  }

  /** The same address, wherever something stays. */
  ghost predicate Steady(w: World, v: World, from: Site, s: Site)
  {
    |Contents(w, s)| > (if s == from then 1 else 0) ==> AddressOf(v, s) == AddressOf(w, s)
  }

  /** Moving one delivery, and saying nothing about any other. */
  lemma MoveKeeps(w: World, v: World, from: Site, to: Site, again: Delivery)
    requires Inv(w) && Kept(v) && Attached(v)
    requires Moves(w, v, from, to, again) && Genuine(v, to, again)
    requires forall t :: t != again.tag ==> Untouched(w, v, t)
    requires forall s :: Steady(w, v, from, s)
    ensures Inv(v)
  {
    MovesConserve(w, v, from, to, again);
    forall s ensures GenuineAt(v, s) {
      assert GenuineAt(w, s) && Steady(w, v, from, s);
      MovesGenuineAt(w, v, from, to, again, s);
    }
    GenuineIsSent(v, to, again);
    forall t | t !in TagsOf(v.sent) ensures Unheard(v.receipts, v.broker, t) {
      assert Unheard(w.receipts, w.broker, t) && Untouched(w, v, t);
    }
  }

  lemma GenuineIsSent(w: World, s: Site, d: Delivery)
    requires Genuine(w, s, d)
    ensures d.tag in TagsOf(w.sent)
  {
    var i: nat :| IsCopy(w.sent, w.broker.modified, AddressOf(w, s), d, i);
    assert w.sent[i].delivery.tag == d.tag;
  }

  lemma CountMore(tags: seq<string>, tag: string, t: string)
    ensures Count(tags + [tag], t) == Count(tags, t) + if t == tag then 1 else 0
  {
  }

  lemma PopGenuine(w: World, v: World, address: string, g: nat, d: Delivery)
    requires Contents(w, Backlog(address)) != [] && Contents(w, Backlog(address))[0] == d
      && GenuineAt(w, Backlog(address))
    requires AddressOf(v, InHand(g)) == Some(address) && v.sent == w.sent && v.receipts == w.receipts + [d.tag]
    requires v.broker == w.broker.(nodes := v.broker.nodes)
    ensures Genuine(v, InHand(g), d)
    ensures forall t :: t != d.tag ==> Untouched(w, v, t)
  {
    assert Genuine(w, Backlog(address), d);
    var i: nat :| IsCopy(w.sent, w.broker.modified, AddressOf(w, Backlog(address)), d, i);
    assert IsCopy(v.sent, v.broker.modified, AddressOf(v, InHand(g)), d, i);
    forall t ensures Count(v.receipts, t) == Count(w.receipts, t) + if t == d.tag then 1 else 0 {
      CountMore(w.receipts, d.tag, t);
    }
  }

  ghost predicate SameLinks(w: World, v: World)
  {
    v.senders == w.senders && v.receivers == w.receivers && v.sending == w.sending
  }

  lemma PopShape(w: World, g: nat, v: World)
    requires Enabled(w, PopStep(g)) && v == AfterPop(w, g)
    ensures SameLinks(w, v) && v.reading == w.reading - {g} && v.settling == w.settling
    ensures v.popped == w.popped || exists d :: v.popped == w.popped[g := Popped(w.reading[g], d)]
  {
  }

  lemma PopAttached(w: World, g: nat, v: World)
    requires Attached(w) && Enabled(w, PopStep(g)) && SameLinks(w, v) && v.broker.nodes.Keys == w.broker.nodes.Keys
    requires v.reading == w.reading - {g} && v.settling == w.settling
    requires v.popped == w.popped || exists d :: v.popped == w.popped[g := Popped(w.reading[g], d)]
    ensures Attached(v)
  {
  }

  lemma PopNothing(w: World, g: nat, v: World)
    requires Inv(w) && Enabled(w, PopStep(g)) && v == AfterPop(w, g)
    requires w.broker.nodes[w.receivers[w.reading[g]].address] == []
    ensures Inv(v)
  {
    PopShape(w, g, v);
    PopNodes(w.broker, w.receivers[w.reading[g]].address);
    PopAttached(w, g, v);
    forall s ensures Quiet(w, v, s) { SameSitesQuiet(w, v, s); }
    QuietKeeps(w, v);
  }

  lemma PopKeeps(w: World, g: nat, address: string, d: Delivery, v: World)
    requires Inv(w) && Enabled(w, PopStep(g)) && v == AfterPop(w, g) && address == w.receivers[w.reading[g]].address
    requires w.broker.nodes[address] != [] && w.broker.nodes[address][0] == d
    ensures Inv(v)
  {
    var from, to := Backlog(address), InHand(g);
    assert GenuineAt(w, from);
    PopGenuine(w, v, address, g, d);
    PopShape(w, g, v);
    PopNodes(w.broker, w.receivers[w.reading[g]].address);
    PopAttached(w, g, v);
    forall s ensures Moved(w, v, from, to, d, s) && Steady(w, v, from, s) { PopMoves(w, g, address, v, s); }
    MoveKeeps(w, v, from, to, d);
  }

  /** From hand to hand, with nothing said. */
  lemma CarriedGenuine(w: World, v: World, from: Site, to: Site, d: Delivery)
    requires AllGenuine(w) && Contents(w, from) != [] && Contents(w, from)[0] == d && IsOut(from) && IsOut(to)
    requires AddressOf(v, to) == AddressOf(w, from) && v.sent == w.sent && v.receipts == w.receipts
    requires v.broker == w.broker
    ensures Genuine(v, to, d)
  {
    assert GenuineAt(w, from);
    assert Genuine(w, from, d);
    var i: nat :| IsCopy(w.sent, w.broker.modified, AddressOf(w, from), d, i);
    assert IsCopy(v.sent, v.broker.modified, AddressOf(v, to), d, i);
  }

  lemma KeepAttached(w: World, g: nat, v: World)
    requires Attached(w) && Enabled(w, KeepStep(g)) && v == AfterKeep(w, g)
    ensures Attached(v)
  {
  }

  lemma KeepKeeps(w: World, g: nat, v: World)
    requires Inv(w) && Enabled(w, KeepStep(g)) && v == AfterKeep(w, g)
    ensures Inv(v)
  {
    var held := w.popped[g];
    var from, to, d := InHand(g), HandedOut(held.link, held.delivery.tag), held.delivery;
    assert Ledger.Spot(Held(w), TAG_OF, d.tag, from, 0);
    assert !Ledger.Spot(Held(w), TAG_OF, d.tag, to, 0);
    CarriedGenuine(w, v, from, to, d);
    KeepAttached(w, g, v);
    forall s ensures Moved(w, v, from, to, d, s) && Steady(w, v, from, s) { KeepMoves(w, g, v, s); }
    MoveKeeps(w, v, from, to, d);
  }

  lemma ClaimAttached(w: World, g: nat, id: nat, tag: string, disposition: Disposition, v: World)
    requires Attached(w) && Enabled(w, ClaimStep(g, id, tag, disposition))
      && v == AfterClaim(w, g, id, tag, disposition)
    ensures Attached(v)
  {
    if tag in w.receivers[id].unsettled {
      assert FiledByTag(w.receivers[id].unsettled) && FiledByTag(Without(w.receivers[id], tag).unsettled);
    }
  }

  lemma ClaimKeeps(w: World, g: nat, id: nat, tag: string, disposition: Disposition, v: World)
    requires Inv(w) && Enabled(w, ClaimStep(g, id, tag, disposition)) && tag in w.receivers[id].unsettled
    requires v == AfterClaim(w, g, id, tag, disposition)
    ensures Inv(v)
  {
    var from, to, d := HandedOut(id, tag), Deciding(g), w.receivers[id].unsettled[tag];
    CarriedGenuine(w, v, from, to, d);
    ClaimAttached(w, g, id, tag, disposition, v);
    forall s ensures Moved(w, v, from, to, d, s) && Steady(w, v, from, s) {
      ClaimMoves(w, g, id, tag, disposition, v, s);
    }
    MoveKeeps(w, v, from, to, d);
  }

  lemma DecideAddress(w: World, g: nat, v: World, s: Site)
    requires v.receivers == w.receivers && v.popped == w.popped && v.settling == w.settling - {g}
    ensures Steady(w, v, Deciding(g), s)
  {
  }

  lemma DecideCounts(w: World, held: Settling, address: string, b: State)
    requires b == Decide(w.broker, address, held.tag, held.delivery, held.disposition)
    ensures forall t :: t != held.tag ==>
      Settlements(b, t) == Settlements(w.broker, t) && Attempts(b.modified, t) == Attempts(w.broker.modified, t)
    ensures Settlements(b, held.tag) == Settlements(w.broker, held.tag) + 1
    ensures Attempts(b.modified, held.tag) == Attempts(w.broker.modified, held.tag)
      + if held.disposition.Modify? && !held.disposition.change.undeliverableHere then 1 else 0
  {
    var noted := Noted(w.broker, held.tag, held.disposition);
    forall t ensures Settlements(noted, t) == Settlements(w.broker, t) + (if held.tag == t then 1 else 0)
      && (t != held.tag ==> Attempts(noted.modified, t) == Attempts(w.broker.modified, t)) {
      NotedCounts(w.broker, held.tag, held.disposition, t);
    }
    NotedCounts(w.broker, held.tag, held.disposition, held.tag);
    assert forall t :: Settlements(b, t) == Settlements(noted, t);
  }

  lemma AttemptsCounted(n: nat)
    ensures (n % WRAP + 1) % WRAP == (n + 1) % WRAP
  {
  }

  lemma DecideGenuine(w: World, g: nat, held: Settling, address: string, v: World, to: Site, again: Delivery)
    requires AddressOf(w, Deciding(g)) == Some(address) && Genuine(w, Deciding(g), held.delivery)
    requires held.tag == held.delivery.tag && again == DecidedAs(held.delivery, held.disposition)
    requires to == Backlog(address) || to == WasAccepted || to == WasRejected
    requires v.broker == Decide(w.broker, address, held.tag, held.delivery, held.disposition)
    requires v.sent == w.sent && v.receipts == w.receipts
    ensures Genuine(v, to, again)
  {
    DecideCounts(w, held, address, v.broker);
    var i: nat :| IsCopy(w.sent, w.broker.modified, Some(address), held.delivery, i);
    DecidedCopy(w, held, address, v, AddressOf(v, to), i);
  }

  lemma DecidedCopy(w: World, held: Settling, address: string, v: World, at: Option<string>, i: nat)
    requires held.tag == held.delivery.tag && IsCopy(w.sent, w.broker.modified, Some(address), held.delivery, i)
    requires at == Some(address) || at == None
    requires v.sent == w.sent && Attempts(v.broker.modified, held.tag) == Attempts(w.broker.modified, held.tag)
      + if held.disposition.Modify? && !held.disposition.change.undeliverableHere then 1 else 0
    ensures IsCopy(v.sent, v.broker.modified, at, DecidedAs(held.delivery, held.disposition), i)
  {
    AttemptsCounted(Attempts(w.broker.modified, held.tag));
  }

  lemma FrontGenuine(w: World, s: Site)
    requires AllGenuine(w) && Contents(w, s) != []
    ensures Genuine(w, s, Contents(w, s)[0])
  {
    assert GenuineAt(w, s);
  }

  lemma DecideShape(w: World, g: nat, v: World)
    requires g in w.settling && v == Decided(w, g, v.broker)
    ensures SameLinks(w, v) && v.reading == w.reading && v.popped == w.popped && v.settling == w.settling - {g}
    ensures v.sent == w.sent && v.receipts == w.receipts
  {
  }

  lemma DecideAttached(w: World, g: nat, v: World)
    requires Attached(w) && SameLinks(w, v) && v.broker.nodes.Keys == w.broker.nodes.Keys
    requires v.reading == w.reading && v.popped == w.popped && v.settling == w.settling - {g}
    ensures Attached(v)
  {
  }

  lemma DecideKept(w: World, g: nat, held: Settling, v: World)
    requires Kept(w) && Enabled(w, DecideStep(g)) && v == AfterDecide(w, g)
    requires held == w.settling[g] && held.tag == held.delivery.tag
    ensures Kept(v)
  {
    match held.disposition
    case Accept => assert Recorded(w.broker.accepted + [held.tag], w.accepted + [held.delivery]);
    case Reject(reason) =>
      assert RejectedAs(w.broker.rejected + [Rejection(held.tag, reason)], w.rejected + [held.delivery]);
    case _ =>
  }

  /** What deciding says about tags, and where it takes the delivery. */
  lemma DecideEffect(w: World, g: nat, held: Settling, address: string, v: World, to: Site, again: Delivery)
    requires Attached(w) && AllGenuine(w) && Enabled(w, DecideStep(g)) && v == AfterDecide(w, g)
    requires held == w.settling[g] && address == w.receivers[held.link].address
    requires to == DecidedTo(address, held.disposition) && again == DecidedAs(held.delivery, held.disposition)
    ensures Moves(w, v, Deciding(g), to, again) && Genuine(v, to, again)
    ensures forall t :: t != again.tag ==> Untouched(w, v, t)
  {
    FrontGenuine(w, Deciding(g));
    DecideGenuine(w, g, held, address, v, to, again);
    DecideCounts(w, held, address, v.broker);
    forall s ensures Moved(w, v, Deciding(g), to, again, s) { DecideMoves(w, g, held, address, v, s); }
  }

  lemma DecideKeeps(w: World, g: nat, held: Settling, address: string, v: World)
    requires Inv(w) && Enabled(w, DecideStep(g)) && v == AfterDecide(w, g)
    requires held == w.settling[g] && address == w.receivers[held.link].address
    ensures Inv(v)
  {
    var to, again := DecidedTo(address, held.disposition), DecidedAs(held.delivery, held.disposition);
    DecideShape(w, g, v);
    DecideNodes(w.broker, address, held.tag, held.delivery, held.disposition);
    DecideAttached(w, g, v);
    DecideKept(w, g, held, v);
    DecideEffect(w, g, held, address, v, to, again);
    forall s ensures Steady(w, v, Deciding(g), s) { DecideAddress(w, g, v, s); }
    MoveKeeps(w, v, Deciding(g), to, again);
  }

  // ---- Sending ----

  lemma TagIsNew(sent: seq<Sent>, address: string, n: nat)
    requires StampedInTurn(sent, n)
    ensures TagName(address, n + 1) !in TagsOf(sent)
  {
    forall i | 0 <= i < |sent| ensures sent[i].delivery.tag != TagName(address, n + 1) {
      if TagName(sent[i].address, i + 1) == TagName(address, n + 1) {
        TagNameInjective(sent[i].address, i + 1, address, n + 1);
      }
    }
  }

  lemma TagsOfMore(sent: seq<Sent>, one: Sent)
    ensures TagsOf(sent + [one]) == TagsOf(sent) + {one.delivery.tag}
  {
    var more := sent + [one];
    assert more[|sent|] == one;
    forall t | t in TagsOf(sent) ensures t in TagsOf(more) {
      var i :| 0 <= i < |sent| && sent[i].delivery.tag == t;
      assert more[i].delivery.tag == t;
    }
  }

  lemma EnqueueSites(w: World, address: string, d: Delivery, v: World, s: Site)
    requires address in w.broker.nodes && v.broker.nodes == w.broker.nodes[address := w.broker.nodes[address] + [d]]
    requires v == w.(broker := v.broker, sending := v.sending, sent := v.sent)
    ensures Contents(v, s) == if s == Backlog(address) then Contents(w, s) + [d] else Contents(w, s)
    ensures AddressOf(v, s) == AddressOf(w, s)
  {
  }

  lemma EnqueueConserves(w: World, address: string, d: Delivery, v: World)
    requires Conserved(w) && d.tag !in TagsOf(w.sent) && v.sent == w.sent + [Sent(address, d)]
    requires address in w.broker.nodes && v.broker.nodes == w.broker.nodes[address := w.broker.nodes[address] + [d]]
    requires v == w.(broker := v.broker, sending := v.sending, sent := v.sent)
    ensures Conserved(v)
  {
    var c, e, to, made, more := Held(w), Held(v), Backlog(address), [d], {d.tag};
    forall s ensures e(s) == if s == to then c(s) + made else c(s) { EnqueueSites(w, address, d, v, s); }
    TagsOfMore(w.sent, Sent(address, d));
    assert Ledger.Keyed(made, TAG_OF, d.tag, 0);
    Ledger.IssueKeeps(c, e, TAG_OF, TagsOf(w.sent), more, to, made);
  }

  lemma EnqueuedGenuine(w: World, address: string, d: Delivery, v: World)
    requires Unheard(w.receipts, w.broker, d.tag) && d.attempts == 0 && v.sent == w.sent + [Sent(address, d)]
    requires v.receipts == w.receipts && v.broker == w.broker.(nodes := v.broker.nodes, tag := v.broker.tag)
    ensures Genuine(v, Backlog(address), d)
  {
    AttemptsAreModifications(v.broker.modified, d.tag);
    assert AddressOf(v, Backlog(address)) == Some(address);
    assert IsCopy(v.sent, v.broker.modified, AddressOf(v, Backlog(address)), d, |w.sent|);
  }

  lemma EnqueueGenuine(w: World, address: string, d: Delivery, v: World, s: Site)
    requires GenuineAt(w, s) && Genuine(v, Backlog(address), d) && v.sent == w.sent + [Sent(address, d)]
    requires v.receipts == w.receipts && v.broker == w.broker.(nodes := v.broker.nodes, tag := v.broker.tag)
    requires Contents(v, s) == if s == Backlog(address) then Contents(w, s) + [d] else Contents(w, s)
    requires AddressOf(v, s) == AddressOf(w, s)
    ensures GenuineAt(v, s)
  {
    forall i: nat | i < |Contents(w, s)| ensures Genuine(v, s, Contents(w, s)[i]) {
      assert Untouched(w, v, Contents(w, s)[i].tag);
      UntouchedGenuine(w, v, s, Contents(w, s)[i]);
    }
  }

  lemma EnqueueAllGenuine(w: World, address: string, d: Delivery, v: World)
    requires AllGenuine(w) && Unheard(w.receipts, w.broker, d.tag) && d.attempts == 0
      && v.sent == w.sent + [Sent(address, d)]
    requires address in w.broker.nodes && v.broker.nodes == w.broker.nodes[address := w.broker.nodes[address] + [d]]
    requires v == w.(broker := v.broker, sending := v.sending, sent := v.sent)
      && v.broker == w.broker.(nodes := v.broker.nodes, tag := v.broker.tag)
    ensures AllGenuine(v)
  {
    EnqueuedGenuine(w, address, d, v);
    forall s ensures GenuineAt(v, s) {
      assert GenuineAt(w, s);
      EnqueueSites(w, address, d, v, s);
      EnqueueGenuine(w, address, d, v, s);
    }
  }

  lemma EnqueueKeeps(w: World, g: nat, address: string, d: Delivery, v: World)
    requires Inv(w) && Enabled(w, EnqueueStep(g)) && v == AfterEnqueue(w, g)
    requires address == w.sending[g].address && d == Stamp(address, w.sending[g].message, w.broker.tag + 1)
    ensures Inv(v)
  {
    assert v.sent == w.sent + [Sent(address, d)];
    assert v.broker.nodes == w.broker.nodes[address := w.broker.nodes[address] + [d]]
      && v.broker.nodes.Keys == w.broker.nodes.Keys;
    TagIsNew(w.sent, address, w.broker.tag);
    EnqueueConserves(w, address, d, v);
    EnqueueAllGenuine(w, address, d, v);
    TagsOfMore(w.sent, Sent(address, d));
    forall t | t !in TagsOf(v.sent) ensures Unheard(v.receipts, v.broker, t) {
      assert Unheard(w.receipts, w.broker, t);
    }
  }

  lemma StepKeepsInv(w: World, step: Step)
    requires Inv(w) && Enabled(w, step)
    ensures Inv(Next(w, step))
  {
    var v := Next(w, step);
    match step
    case DeclareStep(address) => DeclareKeeps(w, address);
    case SenderStep(link, sends) => SenderKeeps(w, link, sends, v);
    case ReceiverStep(link, receives) => ReceiverKeeps(w, link, receives, v);
    case EnqueueStep(g) =>
      EnqueueKeeps(w, g, w.sending[g].address, Stamp(w.sending[g].address, w.sending[g].message, w.broker.tag + 1), v);
    case PopStep(g) =>
      var address := w.receivers[w.reading[g]].address;
      if w.broker.nodes[address] == [] {
        PopNothing(w, g, v);
      } else {
        PopKeeps(w, g, address, w.broker.nodes[address][0], v);
      }
    case KeepStep(g) => KeepKeeps(w, g, v);
    case ClaimStep(g, link, tag, disposition) =>
      if tag in w.receivers[link].unsettled { ClaimKeeps(w, g, link, tag, disposition, v); }
    case DecideStep(g) => DecideKeeps(w, g, w.settling[g], w.receivers[w.settling[g].link].address, v);
  }

  // ---- Every run ----

  lemma StartInv()
    ensures Inv(START)
  {
    forall s ensures Contents(START, s) == [] { }
    assert TagsOf(START.sent) == {};
  }

  lemma {:induction false} RunKeepsInv(w: World, steps: seq<Step>, v: World)
    requires Inv(w) && Run(w, steps, v)
    ensures Inv(v)
    decreases |steps|
  {
    if steps != [] {
      StepKeepsInv(w, steps[0]);
      RunKeepsInv(Next(w, steps[0]), steps[1..], v);
    }
  }

  ghost predicate Reachable(w: World) { exists steps :: Run(START, steps, w) }

  lemma ReachableInv(w: World)
    requires Reachable(w)
    ensures Inv(w)
  {
    StartInv();
    var steps :| Run(START, steps, w);
    RunKeepsInv(START, steps, w);
  }

  ghost predicate Holds(w: World, tag: string, s: Site, i: nat) { i < |Contents(w, s)| && Contents(w, s)[i].tag == tag }

  /** The tags of different sends differ, whatever their addresses, and each is at
      one site, once. */
  lemma TagAtOneSite(w: World, n: nat)
    requires Reachable(w) && n < |w.sent|
    ensures forall m: nat :: m < |w.sent| && m != n ==> w.sent[m].delivery.tag != w.sent[n].delivery.tag
    ensures exists s, i: nat :: Holds(w, w.sent[n].delivery.tag, s, i)
    ensures forall s, i: nat, t, j: nat ::
      Holds(w, w.sent[n].delivery.tag, s, i) && Holds(w, w.sent[n].delivery.tag, t, j) ==> s == t && i == j
  {
    ReachableInv(w);
    var tag := w.sent[n].delivery.tag;
    forall m: nat | m < |w.sent| && m != n ensures w.sent[m].delivery.tag != tag {
      if TagName(w.sent[m].address, m + 1) == TagName(w.sent[n].address, n + 1) {
        TagNameInjective(w.sent[m].address, m + 1, w.sent[n].address, n + 1);
      }
    }
    forall s, i: nat ensures Holds(w, tag, s, i) <==> Ledger.Spot(Held(w), TAG_OF, tag, s, i) { }
    assert tag in TagsOf(w.sent);
    assert Ledger.Somewhere(Held(w), TAG_OF, tag);
    var s, i: nat :| Ledger.Spot(Held(w), TAG_OF, tag, s, i);
    assert Holds(w, tag, s, i);
  }

  /** Wherever a message is, it is one that was sent, at the node it was sent to; it
      has as many attempts, modulo 2^32, as there were modifications that left it
      deliverable here; and its receipts are its settlements and the one still out. */
  lemma MessageIsOriginal(w: World, s: Site, i: nat)
    requires Reachable(w) && i < |Contents(w, s)|
    ensures var d := Contents(w, s)[i];
      && (exists n: nat ::
        n < |w.sent| && d == w.sent[n].delivery.(attempts := Attempts(w.broker.modified, d.tag) % 0x1_0000_0000)
                           && (s.Backlog? ==> s.address == w.sent[n].address))
      && Count(w.receipts, d.tag) == Settlements(w.broker, d.tag) + if IsOut(s) then 1 else 0
  {
    ReachableInv(w);
    assert GenuineAt(w, s);
    var d := Contents(w, s)[i];
    var n: nat :| IsCopy(w.sent, w.broker.modified, AddressOf(w, s), d, n);
  }

  /** Over acceptances and rejections together no tag comes twice. */
  lemma SettledForGoodOnce(w: World, i: nat, j: nat)
    requires Reachable(w)
    ensures i < j < |w.broker.accepted| ==> w.broker.accepted[i] != w.broker.accepted[j]
    ensures i < j < |w.broker.rejected| ==> w.broker.rejected[i].tag != w.broker.rejected[j].tag
    ensures i < |w.broker.accepted| && j < |w.broker.rejected| ==> w.broker.accepted[i] != w.broker.rejected[j].tag
  {
    ReachableInv(w);
    var c := Held(w);
    assert c(WasAccepted) == w.accepted && c(WasRejected) == w.rejected;
    if i < |w.accepted| { assert Ledger.Spot(c, TAG_OF, w.accepted[i].tag, WasAccepted, i); }
    if j < |w.accepted| { assert Ledger.Spot(c, TAG_OF, w.accepted[j].tag, WasAccepted, j); }
    if i < |w.rejected| { assert Ledger.Spot(c, TAG_OF, w.rejected[i].tag, WasRejected, i); }
    if j < |w.rejected| { assert Ledger.Spot(c, TAG_OF, w.rejected[j].tag, WasRejected, j); }
  }

  /** No step in progress ever finds its link or node missing, so nothing given
      back is lost. */
  lemma NodesStay(w: World, g: nat)
    requires Reachable(w)
    ensures g in w.sending ==> w.sending[g].address in w.broker.nodes
    ensures g in w.reading && g !in w.popped ==>
      Enabled(w, PopStep(g)) && w.receivers[w.reading[g]].address in w.broker.nodes
    ensures g in w.popped ==> Enabled(w, KeepStep(g))
    ensures g in w.settling ==> Enabled(w, DecideStep(g)) && w.receivers[w.settling[g].link].address in w.broker.nodes
  {
    ReachableInv(w);
  }

  // ---- The objects' methods, undisturbed, are runs ----

  lemma SendIsARun(w: World, g: nat, id: nat, message: Message) returns (v: World)
    requires Enabled(w, SenderStep(id, BeginSend(g, message))) && !w.senders[id].detached
    ensures Run(w, [SenderStep(id, BeginSend(g, message)), EnqueueStep(g)], v)
    ensures v.broker == Enqueue(w.broker, w.senders[id].address, message).0
    ensures v == w.(broker := v.broker, sending := w.sending, sent := v.sent)
  {
    var steps := [SenderStep(id, BeginSend(g, message)), EnqueueStep(g)];
    var begun := Next(w, steps[0]);
    v := AfterEnqueue(begun, g);
    assert steps[1..] == [EnqueueStep(g)] && steps[1..][1..] == [];
    assert Run(v, [], v) && Run(begun, steps[1..], v);
  }

  /** Settling a receipt that is out: the link forgets it and the broker decides. */
  lemma SettleIsARun(w: World, g: nat, id: nat, tag: string, disposition: Disposition) returns (v: World)
    requires Enabled(w, ClaimStep(g, id, tag, disposition)) && tag in w.receivers[id].unsettled
    ensures Run(w, [ClaimStep(g, id, tag, disposition), DecideStep(g)], v)
    ensures v.broker == Decide(w.broker, w.receivers[id].address, tag, w.receivers[id].unsettled[tag], disposition)
    ensures v.receivers == w.receivers[id := Without(w.receivers[id], tag)]
  {
    var steps := [ClaimStep(g, id, tag, disposition), DecideStep(g)];
    var claimed := AfterClaim(w, g, id, tag, disposition);
    v := AfterDecide(claimed, g);
    assert steps[1..] == [DecideStep(g)] && steps[1..][1..] == [];
    assert Run(v, [], v) && Run(claimed, steps[1..], v);
  }

  lemma ReceiveIsARun(w: World, g: nat, id: nat) returns (v: World)
    requires Enabled(w, ReceiverStep(id, BeginReceive(g))) && !w.receivers[id].detached && g !in w.popped
    requires Pop(w.broker, w.receivers[id].address).1.Ok? && Pop(w.broker, w.receivers[id].address).1.value.Some?
    ensures Run(w, [ReceiverStep(id, BeginReceive(g)), PopStep(g), KeepStep(g)], v)
    ensures var (b, r) := Pop(w.broker, w.receivers[id].address);
      v.broker == b && v.receivers == w.receivers[id := Keeping(w.receivers[id], r.value.value)]
    ensures v.settling == w.settling
  {
    var steps := [ReceiverStep(id, BeginReceive(g)), PopStep(g), KeepStep(g)];
    var begun := Next(w, steps[0]);
    var popped := AfterPop(begun, g);
    v := AfterKeep(popped, g);
    assert steps[1..] == [PopStep(g), KeepStep(g)] && steps[1..][1..] == [KeepStep(g)] && steps[1..][1..][1..] == [];
    assert Run(v, [], v) && Run(popped, [KeepStep(g)], v);
    assert Run(begun, steps[1..], v);
  }

  lemma {:induction false} RunConcat(w: World, first: seq<Step>, v: World, second: seq<Step>, u: World)
    requires Run(w, first, v) && Run(v, second, u)
    ensures Run(w, first + second, u)
    decreases |first|
  {
    if first == [] {
      assert first + second == second;
    } else {
      assert (first + second)[1..] == first[1..] + second;
      RunConcat(Next(w, first[0]), first[1..], v, second, u);
    }
  }

  lemma Opened(address: string) returns (steps: seq<Step>, v: World)
    ensures Run(START, steps, v)
    ensures v == START.(
      broker := Broker10.EMPTY.(nodes := map[address := []]),
      senders := map[0 := Link(address, map[], false)], receivers := map[0 := Link(address, map[], false)])
  {
    var attachSender, attachReceiver := SenderStep(0, AttachSender(address)), ReceiverStep(0, AttachReceiver(address));
    steps := [DeclareStep(address), attachSender, attachReceiver];
    var declared := Next(START, DeclareStep(address));
    var sending := Next(declared, attachSender);
    v := Next(sending, attachReceiver);
    assert steps[1..] == [attachSender, attachReceiver] && steps[1..][1..] == [attachReceiver];
    assert steps[1..][1..][1..] == [] && Run(v, [], v);
    assert Run(sending, steps[1..][1..], v) && Run(declared, steps[1..], v);
  }

  lemma ReceivedAndAccepted(w: World, address: string, d: Delivery) returns (steps: seq<Step>, v: World)
    requires w.reading == map[] && w.popped == map[] && w.settling == map[]
    requires 0 in w.receivers && w.receivers[0] == Link(address, map[], false)
    requires address in w.broker.nodes && w.broker.nodes[address] == [d]
    ensures Run(w, steps, v)
    ensures v.broker == w.broker.(
      nodes := w.broker.nodes[address := []], accepted := w.broker.accepted + [d.tag])
    ensures v.receivers == w.receivers
  {
    var received := ReceiveIsARun(w, 0, 0);
    assert [d][1..] == [] && Pop(w.broker, address) == (w.broker.(nodes := w.broker.nodes[address := []]), Ok(Some(d)));
    assert received.receivers[0].unsettled == map[d.tag := d];
    v := SettleIsARun(received, 0, 0, d.tag, Accept);
    assert v.broker == Decide(received.broker, address, d.tag, d, Accept) == Noted(received.broker, d.tag, Accept);
    steps := [ReceiverStep(0, BeginReceive(0)), PopStep(0), KeepStep(0)];
    RunConcat(w, steps, received, [ClaimStep(0, 0, d.tag, Accept), DecideStep(0)], v);
    steps := steps + [ClaimStep(0, 0, d.tag, Accept), DecideStep(0)];
    assert v.receivers[0] == w.receivers[0];
  }

  /** There are such runs from the start: a message sent over a link to a node that
      was declared is received over another and accepted, and then there is nothing
      else at the node and nothing unsettled. */
  lemma MessageGetsThrough(address: string, message: Message) returns (steps: seq<Step>, v: World)
    ensures Run(START, steps, v)
    ensures v.broker == Broker10.EMPTY.(
      tag := 1, nodes := map[address := []], accepted := [TagName(address, 1)])
    ensures v.receivers == map[0 := Link(address, map[], false)]
  {
    var open;
    steps, open := Opened(address);
    var sent := SendIsARun(open, 0, 0, message);
    var d := Stamp(address, message, 1);
    assert [] + [d] == [d] && [] + [d.tag] == [d.tag];
    RunConcat(START, steps, open, [SenderStep(0, BeginSend(0, message)), EnqueueStep(0)], sent);
    var receiving;
    receiving, v := ReceivedAndAccepted(sent, address, d);
    steps := steps + [SenderStep(0, BeginSend(0, message)), EnqueueStep(0)];
    RunConcat(START, steps, sent, receiving, v);
    steps := steps + receiving;
    assert sent.broker.nodes[address := []] == map[address := []];
  }

  predicate IsDetached(links: map<nat, Link>, id: nat) { id in links && links[id].detached }

  lemma LinksElsewhere(w: World, step: Step)
    requires Enabled(w, step)
    ensures !step.SenderStep? ==> Next(w, step).senders == w.senders
    ensures !step.ReceiverStep? && !step.KeepStep? && !step.ClaimStep? ==> Next(w, step).receivers == w.receivers
  {
    match step
    case EnqueueStep(g) => assert Next(w, step) == AfterEnqueue(w, g);
    case PopStep(g) => assert Next(w, step) == AfterPop(w, g);
    case KeepStep(g) => assert Next(w, step) == AfterKeep(w, g);
    case ClaimStep(g, link, tag, disposition) => assert Next(w, step) == AfterClaim(w, g, link, tag, disposition);
    case DecideStep(g) => assert Next(w, step) == AfterDecide(w, g);
    case _ =>
  }

  lemma StepLeavesDetached(w: World, step: Step, id: nat)
    requires Enabled(w, step)
    ensures IsDetached(w.senders, id) ==> IsDetached(Next(w, step).senders, id)
    ensures IsDetached(w.receivers, id) ==> IsDetached(Next(w, step).receivers, id)
  {
    LinksElsewhere(w, step);
    match step
    case SenderStep(link, sends) => assert Next(w, step) == AfterSender(w, link, sends);
    case ReceiverStep(link, receives) => assert Next(w, step) == AfterReceiver(w, link, receives);
    case KeepStep(g) => assert Next(w, step) == AfterKeep(w, g);
    case ClaimStep(g, link, tag, disposition) => assert Next(w, step) == AfterClaim(w, g, link, tag, disposition);
    case _ =>
  }

  /** A link that was detached stays so whatever happens. */
  lemma {:induction false} DetachedForGood(w: World, steps: seq<Step>, v: World, id: nat)
    requires Run(w, steps, v)
    ensures IsDetached(w.senders, id) ==> IsDetached(v.senders, id)
    ensures IsDetached(w.receivers, id) ==> IsDetached(v.receivers, id)
    decreases |steps|
  {
    if steps != [] {
      StepLeavesDetached(w, steps[0], id);
      DetachedForGood(Next(w, steps[0]), steps[1..], v, id);
    }
  }

  /** Detaching closes that link alone. A link begins a send or a receipt exactly when
      it is not detached. */
  lemma BeginsIffAttached(w: World, id: nat, g: nat, message: Message)
    ensures id in w.senders ==>
      Next(w, SenderStep(id, DetachSender)) == w.(senders := w.senders[id := w.senders[id].(detached := true)])
    ensures id in w.receivers ==>
      Next(w, ReceiverStep(id, DetachReceiver)) ==
        w.(receivers := w.receivers[id := w.receivers[id].(detached := true)])
    ensures id in w.senders && g !in w.sending ==>
      var v := Next(w, SenderStep(id, BeginSend(g, message)));
      (g in v.sending <==> !IsDetached(w.senders, id)) && (g !in v.sending ==> v == w)
    ensures id in w.receivers && g !in w.reading ==>
      var v := Next(w, ReceiverStep(id, BeginReceive(g)));
      (g in v.reading <==> !IsDetached(w.receivers, id)) && (g !in v.reading ==> v == w)
  {
  }
}
