/** The in-process AMQP 1.0 broker (amqp10/inprocess): its state, and what it does
    under each lock as a function of that state. */
module Broker10 {
  import opened Strings

  datatype Message = Message(body: string, contentType: string, subject: string, properties: string)

  datatype Delivery = Delivery(
    body: string, contentType: string, subject: string, properties: string, tag: string, attempts: nat)

  datatype Change = Change(deliveryFailed: bool, undeliverableHere: bool)

  datatype Rejection = Rejection(tag: string, reason: string)

  datatype Modification = Modification(tag: string, change: Change)

  /** The four dispositions of section 3.4 of Part 3 (Messaging) of OASIS AMQP 1.0. */
  datatype Disposition = Accept | Reject(reason: string) | Release | Modify(change: Change)

  datatype Error = NoSuchNode | Detached | UnknownTag | ContextDone

  datatype Result<+T> = Ok(value: T) | Err(error: Error)

  datatype State = State(
    nodes: map<string, seq<Delivery>>,
    tag: nat,
    accepted: seq<string>,
    rejected: seq<Rejection>,
    released: seq<string>,
    modified: seq<Modification>)

  const EMPTY := State(map[], 0, [], [], [], [])

  /** The deliveries a receiving link handed out and nobody has settled. */
  type Unsettled = map<string, Delivery>

  const WRAP := 0x1_0000_0000

  // ---- Tags ----

  function Digit(n: nat): (c: char)
    requires n < 10
  {
    "0123456789"[n]
  }

  function Decimal(n: nat): string
  {
    if n < 10 then [Digit(n)] else Decimal(n / 10) + [Digit(n % 10)]
  }

  function TagName(address: string, n: nat): string { address + "-" + Decimal(n) }

  ghost predicate IsDigits(s: string) { forall i :: 0 <= i < |s| ==> '0' <= s[i] <= '9' }

  /** What digits stand for. */
  ghost function Amount(s: string): nat
    requires IsDigits(s)
  {
    if s == "" then 0 else 10 * Amount(s[..|s| - 1]) + (s[|s| - 1] as int - '0' as int)
  }

  lemma AmountMore(s: string, k: nat)
    requires IsDigits(s) && k < 10
    ensures IsDigits(s + [Digit(k)]) && Amount(s + [Digit(k)]) == 10 * Amount(s) + k && (k > 0 ==> Digit(k) != '0')
  {
    assert Digit(k) as int == '0' as int + k;
    assert (s + [Digit(k)])[..|s|] == s;
  }

  /** The counter in a tag is written as %d writes it: digits that stand for it, with no
      zero before them. */
  lemma {:induction false} DecimalReads(n: nat)
    ensures var s := Decimal(n); s != "" && IsDigits(s) && Amount(s) == n && (n > 0 ==> s[0] != '0')
  {
    if n < 10 {
      AmountMore("", n);
      assert Decimal(n) == "" + [Digit(n)];
    } else {
      DecimalReads(n / 10);
      AmountMore(Decimal(n / 10), n % 10);
    }
  }

  /** The last dash splits a tag, whatever dashes the address has. */
  lemma TagNameInjective(a: string, m: nat, b: string, n: nat)
    requires TagName(a, m) == TagName(b, n)
    ensures a == b && m == n
  {
    DecimalReads(m);
    DecimalReads(n);
    CutLast('-', a, Decimal(m), b, Decimal(n));
  }

  // ---- What happens under each lock ----

  function Declare(b: State, address: string): State
  {
    if address in b.nodes then b else b.(nodes := b.nodes[address := []])
  }

  function Stamp(address: string, message: Message, n: nat): Delivery
  {
    Delivery(message.body, message.contentType, message.subject, message.properties, TagName(address, n), 0)
  }

  /** The end of Send. */
  function Enqueue(b: State, address: string, message: Message): (State, Result<()>)
  {
    if address !in b.nodes then (b, Err(NoSuchNode))
    else
      var n := b.tag + 1;
      (b.(tag := n, nodes := b.nodes[address := b.nodes[address] + [Stamp(address, message, n)]]), Ok(()))
  }

  /** The middle of Receive: an empty node is the end of the messages. */
  function Pop(b: State, address: string): (State, Result<Option<Delivery>>)
  {
    if address !in b.nodes then (b, Err(NoSuchNode))
    else if b.nodes[address] == [] then (b, Ok(None))
    else (b.(nodes := b.nodes[address := b.nodes[address][1..]]), Ok(Some(b.nodes[address][0])))
  }

  function Redeliver(b: State, address: string, delivery: Delivery): State
  {
    if address !in b.nodes then b else b.(nodes := b.nodes[address := b.nodes[address] + [delivery]])
  }

  function Attempted(delivery: Delivery): Delivery { delivery.(attempts := (delivery.attempts + 1) % WRAP) }

  /** What the four dispositions put back: nothing once a message is settled for
      good, the message itself on a release, and on a modification the message, with
      one attempt more unless it is said to be undeliverable here. */
  function PutBack(delivery: Delivery, disposition: Disposition): seq<Delivery>
  {
    match disposition
    case Accept => []
    case Reject(_) => []
    case Release => [delivery]
    case Modify(change) => [if change.undeliverableHere then delivery else Attempted(delivery)]
  }

  function Noted(b: State, tag: string, disposition: Disposition): State
  {
    match disposition
    case Accept => b.(accepted := b.accepted + [tag])
    case Reject(reason) => b.(rejected := b.rejected + [Rejection(tag, reason)])
    case Release => b.(released := b.released + [tag])
    case Modify(change) => b.(modified := b.modified + [Modification(tag, change)])
  }

  /** The decision of settle, under the broker's lock; the tag is the one the
      caller named. */
  function Decide(b: State, address: string, tag: string, delivery: Delivery, disposition: Disposition): State
  {
    var noted := Noted(b, tag, disposition);
    var back := PutBack(delivery, disposition);
    if back == [] then noted else Redeliver(noted, address, back[0])
  }

  lemma DecideNodes(b: State, address: string, tag: string, delivery: Delivery, disposition: Disposition)
    ensures var after := Decide(b, address, tag, delivery, disposition);
      after.nodes.Keys == b.nodes.Keys && after.tag == b.tag
  {
  }

  lemma PopNodes(b: State, address: string)
    ensures var after := Pop(b, address).0; after.nodes.Keys == b.nodes.Keys && after == b.(nodes := after.nodes)
  {
  }

  // ---- First in, first out ----

  /** What a receiver gets that takes messages until there are none. */
  function Drained(b: State, address: string): seq<Delivery>
    decreases if address in b.nodes then |b.nodes[address]| else 0
  {
    var (after, r) := Pop(b, address);
    if r.Ok? && r.value.Some? then [r.value.value] + Drained(after, address) else []
  }

  lemma {:induction false} DrainedIsBacklog(b: State, address: string)
    requires address in b.nodes
    ensures Drained(b, address) == b.nodes[address]
    decreases |b.nodes[address]|
  {
    if b.nodes[address] != [] { DrainedIsBacklog(Pop(b, address).0, address); }
  }

  /** A message sent to a node is received there after all that were waiting, with
      its own body, content type, subject and properties and no attempts; it is
      received nowhere else. */
  lemma SentComesOutLast(b: State, address: string, message: Message, other: string)
    requires address in b.nodes
    ensures var after := Enqueue(b, address, message).0;
      && |Drained(after, address)| == |Drained(b, address)| + 1
      && Drained(after, address)[..|Drained(b, address)|] == Drained(b, address)
      && Carries(Drained(after, address)[|Drained(b, address)|], message)
      && (other != address ==> Drained(after, other) == Drained(b, other))
  {
    var after := Enqueue(b, address, message).0;
    DrainedIsBacklog(b, address);
    DrainedIsBacklog(after, address);
    if other in b.nodes {
      DrainedIsBacklog(b, other);
      DrainedIsBacklog(after, other);
    }
  }

  /** A node that was declared is there, with what it had, and takes what is sent to
      it; one that was not takes and gives nothing. */
  lemma DeclaredReceives(b: State, address: string, message: Message)
    ensures var after := Declare(b, address);
      && address in after.nodes && after == b.(nodes := after.nodes)
      && (address in b.nodes ==> after == b)
      && (address !in b.nodes ==> after.nodes == b.nodes[address := []])
      && Enqueue(after, address, message).1 == Ok(())
      && Drained(Enqueue(after, address, message).0, address) ==
           Drained(b, address) + [Stamp(address, message, b.tag + 1)]
    ensures address !in b.nodes ==>
      Enqueue(b, address, message) == (b, Err(NoSuchNode)) && Pop(b, address) == (b, Err(NoSuchNode))
  {
    var after := Declare(b, address);
    DrainedIsBacklog(after, address);
    DrainedIsBacklog(Enqueue(after, address, message).0, address);
    if address in b.nodes { DrainedIsBacklog(b, address); }
  }

  predicate Carries(delivery: Delivery, message: Message)
  {
    && delivery.body == message.body && delivery.contentType == message.contentType
    && delivery.subject == message.subject && delivery.properties == message.properties
    && delivery.attempts == 0
  }

  lemma DecidePutsBack(b: State, address: string, tag: string, delivery: Delivery, disposition: Disposition)
    requires address in b.nodes
    ensures var after := Decide(b, address, tag, delivery, disposition);
      address in after.nodes && after.nodes[address] == b.nodes[address] + PutBack(delivery, disposition)
  {
  }

  /** What is put back is received again after all that were waiting. */
  lemma GivenBackComesOutLast(b: State, address: string, tag: string, delivery: Delivery, disposition: Disposition)
    requires address in b.nodes
    ensures Drained(Decide(b, address, tag, delivery, disposition), address)
         == Drained(b, address) + PutBack(delivery, disposition)
  {
    DecidePutsBack(b, address, tag, delivery, disposition);
    DrainedIsBacklog(b, address);
    DrainedIsBacklog(Decide(b, address, tag, delivery, disposition), address);
  }
}
