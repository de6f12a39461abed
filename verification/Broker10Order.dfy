/** The 1.0 broker hands messages out for the first time in the order they were
    sent to their node, under every interleaving of its links. */
module Broker10Order {
  import opened Strings
  import opened Broker10
  import opened Broker10Runs
  import Ledger

  /** The message with this tag is the n-th that was sent. */
  ghost predicate Numbered(sent: seq<Sent>, tag: string, n: nat) { n < |sent| && sent[n].delivery.tag == tag }

  ghost predicate Unreceived(receipts: seq<string>, tag: string) { Count(receipts, tag) == 0 }

  /** Two messages in a backlog that nobody has received stand as they were sent. */
  ghost predicate InTurn(sent: seq<Sent>, receipts: seq<string>, first: Delivery, second: Delivery)
  {
    Unreceived(receipts, first.tag) && Unreceived(receipts, second.tag) ==>
      forall m: nat, n: nat :: Numbered(sent, first.tag, m) && Numbered(sent, second.tag, n) ==> m < n
  }

  ghost predicate BacklogInTurn(sent: seq<Sent>, receipts: seq<string>, backlog: seq<Delivery>)
  {
    forall i, j :: 0 <= i < j < |backlog| ==> InTurn(sent, receipts, backlog[i], backlog[j])
  }

  ghost predicate AllInTurn(w: World)
  {
    forall a :: a in w.broker.nodes ==> BacklogInTurn(w.sent, w.receipts, w.broker.nodes[a])
  }

  // ---- What every step keeps ----

  lemma TakenInTurn(sent: seq<Sent>, receipts: seq<string>, tag: string, backlog: seq<Delivery>)
    requires BacklogInTurn(sent, receipts, backlog)
    ensures BacklogInTurn(sent, receipts + [tag], backlog)
    ensures backlog != [] ==> BacklogInTurn(sent, receipts + [tag], backlog[1..])
  {
    forall i, j | 0 <= i < j < |backlog| ensures InTurn(sent, receipts + [tag], backlog[i], backlog[j]) {
      assert InTurn(sent, receipts, backlog[i], backlog[j]);
    }
  }

  /** What has been received before may stand anywhere. */
  lemma GivenBackInTurn(sent: seq<Sent>, receipts: seq<string>, backlog: seq<Delivery>, again: Delivery)
    requires BacklogInTurn(sent, receipts, backlog) && !Unreceived(receipts, again.tag)
    ensures BacklogInTurn(sent, receipts, backlog + [again])
  {
  }

  /** What was sent last stands last. */
  lemma SentInTurn(sent: seq<Sent>, receipts: seq<string>, backlog: seq<Delivery>, one: Sent)
    requires BacklogInTurn(sent, receipts, backlog) && one.delivery.tag !in TagsOf(sent)
    requires forall i :: 0 <= i < |backlog| ==> backlog[i].tag in TagsOf(sent)
    ensures BacklogInTurn(sent + [one], receipts, backlog)
    ensures BacklogInTurn(sent + [one], receipts, backlog + [one.delivery])
  {
    var more := sent + [one];
    forall tag, n: nat | Numbered(more, tag, n) && tag in TagsOf(sent) ensures Numbered(sent, tag, n) { }
    forall n: nat | Numbered(more, one.delivery.tag, n) ensures n == |sent| { }
    forall i, j | 0 <= i < j < |backlog| ensures InTurn(more, receipts, backlog[i], backlog[j]) {
      assert InTurn(sent, receipts, backlog[i], backlog[j]);
    }
  }

  lemma BacklogIsSent(w: World, a: string)
    requires AllGenuine(w) && a in w.broker.nodes
    ensures forall i :: 0 <= i < |w.broker.nodes[a]| ==> w.broker.nodes[a][i].tag in TagsOf(w.sent)
  {
    assert GenuineAt(w, Backlog(a)) && Contents(w, Backlog(a)) == w.broker.nodes[a];
    forall i | 0 <= i < |w.broker.nodes[a]| ensures w.broker.nodes[a][i].tag in TagsOf(w.sent) {
      GenuineIsSent(w, Backlog(a), w.broker.nodes[a][i]);
    }
  }

  lemma EnqueueInTurn(w: World, g: nat, v: World)
    requires Inv(w) && AllInTurn(w) && Enabled(w, EnqueueStep(g)) && v == AfterEnqueue(w, g)
    ensures AllInTurn(v)
  {
    var address := w.sending[g].address;
    var one := Sent(address, Stamp(address, w.sending[g].message, w.broker.tag + 1));
    TagIsNew(w.sent, address, w.broker.tag);
    assert v.sent == w.sent + [one] && v.receipts == w.receipts;
    forall a | a in v.broker.nodes ensures BacklogInTurn(v.sent, v.receipts, v.broker.nodes[a]) {
      BacklogIsSent(w, a);
      SentInTurn(w.sent, w.receipts, w.broker.nodes[a], one);
    }
  }

  lemma PopInTurn(w: World, g: nat, v: World)
    requires AllInTurn(w) && Enabled(w, PopStep(g)) && v == AfterPop(w, g)
    ensures AllInTurn(v)
  {
    var address := w.receivers[w.reading[g]].address;
    if address in w.broker.nodes && w.broker.nodes[address] != [] {
      var tag := w.broker.nodes[address][0].tag;
      forall a | a in v.broker.nodes ensures BacklogInTurn(v.sent, v.receipts, v.broker.nodes[a]) {
        TakenInTurn(w.sent, w.receipts, tag, w.broker.nodes[a]);
      }
    }
  }

  lemma DecideInTurn(w: World, g: nat, held: Settling, address: string, v: World)
    requires Inv(w) && AllInTurn(w) && Enabled(w, DecideStep(g)) && v == AfterDecide(w, g)
    requires held == w.settling[g] && address == w.receivers[held.link].address
    ensures AllInTurn(v)
  {
    FrontGenuine(w, Deciding(g));
    DecidePutsBack(w.broker, address, held.tag, held.delivery, held.disposition);
    DecideElsewhere(w.broker, address, held.tag, held.delivery, held.disposition);
    forall a | a in v.broker.nodes ensures BacklogInTurn(v.sent, v.receipts, v.broker.nodes[a]) {
      var back := PutBack(held.delivery, held.disposition);
      if a == address && back != [] {
        GivenBackInTurn(w.sent, w.receipts, w.broker.nodes[a], back[0]);
        assert v.broker.nodes[a] == w.broker.nodes[a] + [back[0]];
      } else {
        assert v.broker.nodes[a] == w.broker.nodes[a];
      }
    }
  }

  lemma DecideElsewhere(b: State, address: string, tag: string, delivery: Delivery, disposition: Disposition)
    ensures var after := Decide(b, address, tag, delivery, disposition);
      after.nodes.Keys == b.nodes.Keys && forall a :: a in b.nodes && a != address ==> after.nodes[a] == b.nodes[a]
  {
  }

  lemma StepInTurn(w: World, step: Step)
    requires Inv(w) && AllInTurn(w) && Enabled(w, step)
    ensures AllInTurn(Next(w, step))
  {
    var v := Next(w, step);
    match step
    case EnqueueStep(g) => EnqueueInTurn(w, g, v);
    case PopStep(g) => PopInTurn(w, g, v);
    case DecideStep(g) => DecideInTurn(w, g, w.settling[g], w.receivers[w.settling[g].link].address, v);
    case DeclareStep(address) => DeclareInTurn(w, address);
    case SenderStep(link, sends) => SenderShape(w, link, sends, v); SameInTurn(w, v);
    case ReceiverStep(link, receives) => ReceiverShape(w, link, receives, v); SameInTurn(w, v);
    case KeepStep(g) => KeepInTurn(w, g);
    case ClaimStep(g, link, tag, disposition) => ClaimInTurn(w, g, link, tag, disposition);
  }

  lemma DeclareInTurn(w: World, address: string)
    requires AllInTurn(w)
    ensures AllInTurn(w.(broker := Declare(w.broker, address)))
  {
    var v := w.(broker := Declare(w.broker, address));
    forall a | a in v.broker.nodes ensures BacklogInTurn(v.sent, v.receipts, v.broker.nodes[a]) {
      assert a !in w.broker.nodes ==> v.broker.nodes[a] == [];
    }
  }

  lemma KeepInTurn(w: World, g: nat)
    requires AllInTurn(w) && Enabled(w, KeepStep(g))
    ensures AllInTurn(AfterKeep(w, g))
  {
    SameInTurn(w, AfterKeep(w, g));
  }

  lemma ClaimInTurn(w: World, g: nat, link: nat, tag: string, disposition: Disposition)
    requires AllInTurn(w) && Enabled(w, ClaimStep(g, link, tag, disposition))
    ensures AllInTurn(AfterClaim(w, g, link, tag, disposition))
  {
    SameInTurn(w, AfterClaim(w, g, link, tag, disposition));
  }

  lemma SameInTurn(w: World, v: World)
    requires AllInTurn(w) && v.broker.nodes == w.broker.nodes && v.sent == w.sent && v.receipts == w.receipts
    ensures AllInTurn(v)
  {
  }

  lemma {:induction false} RunInTurn(w: World, steps: seq<Step>, v: World)
    requires Inv(w) && AllInTurn(w) && Run(w, steps, v)
    ensures Inv(v) && AllInTurn(v)
    decreases |steps|
  {
    if steps != [] {
      StepKeepsInv(w, steps[0]);
      StepInTurn(w, steps[0]);
      RunInTurn(Next(w, steps[0]), steps[1..], v);
    }
  }

  lemma ReachableInTurn(w: World)
    requires Reachable(w)
    ensures Inv(w) && AllInTurn(w)
  {
    StartInv();
    var steps :| Run(START, steps, w);
    RunInTurn(START, steps, w);
  }

  // ---- First receipts ----

  lemma {:induction false} RejectedCounted(all: seq<Rejection>, i: nat)
    requires i < |all|
    ensures Rejections(all, all[i].tag) >= 1
  {
    if i < |all| - 1 {
      RejectedCounted(all[..|all| - 1], i);
      assert all[..|all| - 1][i] == all[i];
    }
  }

  /** A message that was never received waits at the node it was sent to. */
  lemma UnreceivedWaits(w: World, n: nat) returns (i: nat)
    requires Inv(w) && n < |w.sent| && Unreceived(w.receipts, w.sent[n].delivery.tag)
    ensures w.sent[n].address in w.broker.nodes && i < |w.broker.nodes[w.sent[n].address]|
    ensures w.broker.nodes[w.sent[n].address][i].tag == w.sent[n].delivery.tag
  {
    var tag := w.sent[n].delivery.tag;
    assert tag in TagsOf(w.sent);
    assert Ledger.Somewhere(Held(w), TAG_OF, tag);
    var s, k: nat :| Ledger.Spot(Held(w), TAG_OF, tag, s, k);
    assert GenuineAt(w, s);
    var d := Contents(w, s)[k];
    assert Genuine(w, s, d) && d.tag == tag;
    NotSettled(w, s, k);
    var m: nat :| IsCopy(w.sent, w.broker.modified, AddressOf(w, s), d, m);
    SameNumber(w, m, n);
    i := k;
  }

  lemma NotSettled(w: World, s: Site, k: nat)
    requires Kept(w) && k < |Contents(w, s)| && Genuine(w, s, Contents(w, s)[k])
    requires Unreceived(w.receipts, Contents(w, s)[k].tag)
    ensures s.Backlog?
  {
    if s.WasRejected? { RejectedCounted(w.broker.rejected, k); }
  }

  lemma SameNumber(w: World, m: nat, n: nat)
    requires Kept(w) && m < |w.sent| && n < |w.sent| && w.sent[m].delivery.tag == w.sent[n].delivery.tag
    ensures m == n
  {
    TagNameInjective(w.sent[m].address, m + 1, w.sent[n].address, n + 1);
  }

  /** When a message is received for the first time, every message sent before it to
      the same node has been received already. */
  lemma FirstReceiptsInOrder(w: World, g: nat, address: string, m: nat, n: nat)
    requires Reachable(w) && Enabled(w, PopStep(g)) && address == w.receivers[w.reading[g]].address
    requires address in w.broker.nodes && w.broker.nodes[address] != []
    requires Numbered(w.sent, w.broker.nodes[address][0].tag, n)
    requires Unreceived(w.receipts, w.sent[n].delivery.tag)
    requires m < n && w.sent[m].address == w.sent[n].address
    ensures w.sent[n].address == address && !Unreceived(w.receipts, w.sent[m].delivery.tag)
  {
    ReachableInTurn(w);
    FrontGenuine(w, Backlog(address));
    var front := w.broker.nodes[address][0];
    var k: nat :| IsCopy(w.sent, w.broker.modified, Some(address), front, k);
    SameNumber(w, k, n);
    if Unreceived(w.receipts, w.sent[m].delivery.tag) {
      var i := UnreceivedWaits(w, m);
      NotFront(w, address, i, m, n);
    }
  }

  lemma NotFront(w: World, address: string, i: nat, m: nat, n: nat)
    requires Kept(w) && AllInTurn(w) && address in w.broker.nodes && i < |w.broker.nodes[address]|
    requires Numbered(w.sent, w.broker.nodes[address][i].tag, m) && Numbered(w.sent, w.broker.nodes[address][0].tag, n)
    requires Unreceived(w.receipts, w.sent[m].delivery.tag) && Unreceived(w.receipts, w.sent[n].delivery.tag)
    ensures n <= m
  {
    if i == 0 {
      SameNumber(w, m, n);
    } else {
      assert InTurn(w.sent, w.receipts, w.broker.nodes[address][0], w.broker.nodes[address][i]);
    }
  }
}
