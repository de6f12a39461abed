/** The in-process AMQP 1.0 broker and its links as the program holds them: objects
    whose methods change their fields, each lock's worth of work a method. */
module InProcess10 {
  import opened Strings
  import opened Broker10
  import B = Broker10

  class Broker {
    var nodes: map<string, seq<Delivery>>
    var tag: nat
    var accepted: seq<string>
    var rejected: seq<Rejection>
    var released: seq<string>
    var modified: seq<Modification>

    ghost function Holds(): State
      reads this
    {
      State(nodes, tag, accepted, rejected, released, modified)
    }

    constructor ()
      ensures Holds() == EMPTY
    {
      nodes, tag := map[], 0;
      accepted, rejected, released, modified := [], [], [], [];
    }

    method Declare(address: string)
      modifies this`nodes
      ensures Holds() == B.Declare(old(Holds()), address)
    {
      if address !in nodes {
        nodes := nodes[address := []];
      }
    }

    method Enqueue(address: string, message: Message) returns (r: Result<()>)
      modifies this`nodes, this`tag
      ensures (Holds(), r) == B.Enqueue(old(Holds()), address, message)
    {
      if address !in nodes {
        return Err(NoSuchNode);
      }
      tag := tag + 1;
      nodes := nodes[address := nodes[address] + [Stamp(address, message, tag)]];
      r := Ok(());
    }

    method Pop(address: string) returns (r: Result<Option<Delivery>>)
      modifies this`nodes
      ensures (Holds(), r) == B.Pop(old(Holds()), address)
    {
      if address !in nodes {
        return Err(NoSuchNode);
      }
      var backlog := nodes[address];
      if backlog == [] {
        return Ok(None);
      }
      nodes := nodes[address := backlog[1..]];
      r := Ok(Some(backlog[0]));
    }

    method Redeliver(address: string, delivery: Delivery)
      modifies this`nodes
      ensures Holds() == B.Redeliver(old(Holds()), address, delivery)
    {
      if address in nodes {
        nodes := nodes[address := nodes[address] + [delivery]];
      }
    }

    method Decide(address: string, settled: string, delivery: Delivery, disposition: Disposition)
      modifies this
      ensures Holds() == B.Decide(old(Holds()), address, settled, delivery, disposition)
      ensures accepted == old(accepted) + (if disposition.Accept? then [settled] else [])
      ensures rejected == old(rejected) +
        (if disposition.Reject? then [Rejection(settled, disposition.reason)] else [])
      ensures released == old(released) + (if disposition.Release? then [settled] else [])
      ensures modified == old(modified) +
        (if disposition.Modify? then [Modification(settled, disposition.change)] else [])
    {
      match disposition {
        case Accept => accepted := accepted + [settled];
        case Reject(reason) => rejected := rejected + [Rejection(settled, reason)];
        case Release =>
          released := released + [settled];
          Redeliver(address, delivery);
        case Modify(change) =>
          modified := modified + [Modification(settled, change)];
          if change.undeliverableHere {
            Redeliver(address, delivery);
          } else {
            Redeliver(address, Attempted(delivery));
          }
      }
    }
  }

  class Sender {
    const broker: Broker
    const address: string
    var detached: bool

    constructor (broker: Broker, address: string)
      ensures this.broker == broker && this.address == address && !detached
    {
      this.broker, this.address, detached := broker, address, false;
    }

    method Send(message: Message) returns (r: Result<()>)
      modifies broker
      ensures if detached then broker.Holds() == old(broker.Holds()) && r == Err(Detached)
              else (broker.Holds(), r) == B.Enqueue(old(broker.Holds()), address, message)
    {
      if detached {
        return Err(Detached);
      }
      r := broker.Enqueue(address, message);
    }

    method Close()
      modifies this
      ensures detached
    {
      detached := true;
    }
  }

  class Receiver {
    const broker: Broker
    const address: string
    var unsettled: Unsettled
    var detached: bool

    constructor (broker: Broker, address: string)
      ensures this.broker == broker && this.address == address && unsettled == map[] && !detached
    {
      this.broker, this.address, unsettled, detached := broker, address, map[], false;
    }

    /** An ended context is an error; a detached link and an empty node both end the
        messages. */
    method Receive(ended: bool) returns (r: Result<Option<Delivery>>)
      modifies this`unsettled, broker
      ensures if ended then broker.Holds() == old(broker.Holds()) && r == Err(ContextDone)
              else if detached then broker.Holds() == old(broker.Holds()) && r == Ok(None)
              else (broker.Holds(), r) == B.Pop(old(broker.Holds()), address)
      ensures unsettled == if r.Ok? && r.value.Some? then old(unsettled)[r.value.value.tag := r.value.value]
                           else old(unsettled)
    {
      if ended {
        return Err(ContextDone);
      }
      if detached {
        return Ok(None);
      }
      r := broker.Pop(address);
      if r.Ok? && r.value.Some? {
        unsettled := unsettled[r.value.value.tag := r.value.value];
      }
    }

    /** settle: delete under the link's lock, then decide under the broker's. */
    method Settle(settled: string, disposition: Disposition) returns (r: Result<()>)
      modifies this`unsettled, broker
      ensures unsettled == old(unsettled) - {settled}
      ensures if settled in old(unsettled)
              then r == Ok(())
                && broker.Holds() ==
                  B.Decide(old(broker.Holds()), address, settled, old(unsettled)[settled], disposition)
              else r == Err(UnknownTag) && broker.Holds() == old(broker.Holds())
    {
      var known := settled in unsettled;
      if !known {
        assert unsettled - {settled} == unsettled;
        return Err(UnknownTag);
      }
      var delivery := unsettled[settled];
      unsettled := unsettled - {settled};
      broker.Decide(address, settled, delivery, disposition);
      r := Ok(());
    }

    method Close()
      modifies this`detached
      ensures detached
    {
      detached := true;
    }
  }
}
