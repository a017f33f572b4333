/**
 The client side of the Redis driver: the consumer's map of in-flight deliveries, `receive`, `acknowledge`
 split at its await, batch renewal and `aclose`.
 */
module RedisDriver {
  import opened Common
  import opened RedisStreams

  /** What a consumer remembers; `pending` maps each in-flight entry to its delivery. */
  datatype Consumer<+D> = Consumer(closed: bool, pending: map<EntryId, D>) {
    predicate Refuses(entry: EntryId) {
      entry in pending
    }

    /** The check at the head of `acknowledge`. */
    predicate MayAcknowledge(settled: bool) {
      !settled && !closed
    }

    function Accept(entry: EntryId, delivery: D): Consumer<D>
      requires !Refuses(entry)
    {
      this.(pending := pending[entry := delivery])
    }

    function Settle(entry: EntryId): Consumer<D> {
      this.(pending := pending - {entry})
    }

    function Close(): Consumer<D> {
      this.(closed := true)
    }
  }

  /** What becomes of a request: it is answered, or the time limit or the connection ends it, before or after the
      server has executed it. */
  datatype Reply = Answered | Lost(executed: bool)

  datatype DriverError = DeliveryLost | ConsumerClosed | RenewalFailed

  class RedisDelivery<Payload> {
    const entry: EntryId
    const payload: Payload
    const possiblyRedelivered: bool
    var settled: bool
    var cancelled: bool          // its task has been asked to stop

    constructor (entry: EntryId, payload: Payload, possiblyRedelivered: bool)
      ensures this.entry == entry && this.payload == payload
      ensures this.possiblyRedelivered == possiblyRedelivered && !settled && !cancelled
    {
      this.entry, this.payload, this.possiblyRedelivered := entry, payload, possiblyRedelivered;
      settled, cancelled := false, false;
    }
  }

  class RedisConsumer<Payload> {
    const name: ConsumerId
    const lease: nat
    const server: StreamServer<Payload>
    var closed: bool
    var pending: map<EntryId, RedisDelivery<Payload>>
    var renewalFailed: bool      // the renewal task has ended

    function View(): Consumer<RedisDelivery<Payload>>
      reads this
    {
      Consumer(closed, pending)
    }

    ghost predicate Valid()
      reads this
    {
      forall e :: e in pending ==> pending[e].entry == e
    }

    constructor (name: ConsumerId, lease: nat, server: StreamServer<Payload>)
      ensures Valid() && View() == Consumer(false, map[])
      ensures this.name == name && this.lease == lease && this.server == server && !renewalFailed
    {
      this.name, this.lease, this.server, closed, pending, renewalFailed := name, lease, server, false, map[], false;
    }

    /** One round of `receive`: nothing is received any more after a close or a failed renewal; otherwise take over an
        expired entry if the server picks one, else read a new one, and flag what was taken over.  An entry this
        consumer still holds is refused. */
    method Poll(expired: Option<EntryId>, now: nat) returns (r: Outcome<Option<RedisDelivery<Payload>>, DriverError>)
      requires Valid() && WellFormed(server.View())
      requires expired.Some? ==> Claimable(server.View(), expired.value, lease, now)
      modifies this, server
      ensures Valid() && WellFormed(server.View()) && closed == old(closed) && renewalFailed == old(renewalFailed)
      ensures r == Raised(ConsumerClosed) <==> closed
      ensures r == Raised(RenewalFailed) <==> !closed && renewalFailed
      ensures closed || renewalFailed ==> server.View() == old(server.View()) && View() == old(View())
      ensures !closed && !renewalFailed ==>
                server.View() == if expired.Some? then Claim(old(server.View()), name, expired.value, lease, now)
                                 else Read(old(server.View()), name, now)
      ensures var entry := if expired.Some? then expired else NextNew(old(server.View()));
              !closed && !renewalFailed ==>
                match entry
                case None => r == Returned(None) && View() == old(View())
                case Some(e) =>
                  if old(View()).Refuses(e) then r == Raised(DeliveryLost) && View() == old(View())
                  else
                    && r.Returned? && r.value.Some? && fresh(r.value.value)
                    && r.value.value.entry == e && r.value.value.payload == old(server.stream)[e]
                    && r.value.value.possiblyRedelivered == expired.Some? && !r.value.value.settled
                    && View() == old(View()).Accept(e, r.value.value)
                    && pending.Keys == old(pending).Keys + {e} && pending[e] == r.value.value
                    && (forall x :: x in old(pending) ==> pending[x] == old(pending)[x])
                    && e in server.pel && server.pel[e] == Pending(name, now)
    {
      if closed {
        return Raised(ConsumerClosed);
      }
      if renewalFailed {
        return Raised(RenewalFailed);
      }
      var possiblyRedelivered := expired.Some?;
      var entry := expired;
      if expired.Some? {
        server.pel := server.pel[expired.value := Pending(name, now)];
      } else {
        entry := FirstIn(server.stream.Keys, server.lastDelivered + 1, server.nextId);
        if entry.Some? {
          server.lastDelivered := entry.value;
          server.pel := server.pel[entry.value := Pending(name, now)];
        }
      }
      if entry.None? {
        return Returned(None);
      }
      if entry.value in pending {
        return Raised(DeliveryLost);
      }
      var delivery := new RedisDelivery(entry.value, server.stream[entry.value], possiblyRedelivered);
      pending := pending[entry.value := delivery];
      r := Returned(Some(delivery));
    }

    /** `acknowledge` up to its await: a settled delivery or a closed consumer sends nothing. */
    method PrepareAcknowledge(delivery: RedisDelivery<Payload>) returns (sends: bool)
      ensures sends <==> View().MayAcknowledge(delivery.settled)
      ensures sends <==> !delivery.settled && !closed
    {
      if delivery.settled || closed {
        return false;
      }
      sends := true;
    }

    /** `acknowledge` after its await: only the reply 1 settles the delivery and forgets it. */
    method FinishAcknowledge(delivery: RedisDelivery<Payload>, reply: nat) returns (r: Outcome<(), DriverError>)
      requires Valid()
      modifies this, delivery
      ensures Valid()
      ensures reply == 1 ==> r == Returned(()) && delivery.settled && View() == old(View()).Settle(delivery.entry)
      ensures reply == 1 ==>
        && pending.Keys == old(pending).Keys - {delivery.entry}
        && forall x :: x in pending ==> pending[x] == old(pending)[x]
      ensures reply != 1 ==> r == Raised(DeliveryLost)
      ensures reply != 1 ==> delivery.settled == old(delivery.settled) && View() == old(View())
    {
      if reply != 1 {
        return Raised(DeliveryLost);
      }
      delivery.settled := true;
      pending := pending - {delivery.entry};
      r := Returned(());
    }

    /** `_renew_pending` on a snapshot of the in-flight entries: nothing is sent when there are none; the
        renewal fails as a whole as soon as one entry belongs to somebody else, and when no answer comes in time. */
    method RenewPending(snapshot: seq<EntryId>, now: nat, reply: Reply) returns (r: Outcome<(), DriverError>)
      requires forall e :: e in snapshot <==> e in pending
      modifies server
      ensures server.View() ==
              if reply == Lost(false) then old(server.View()) else OwnedRenew(old(server.View()), name, snapshot, now)
      ensures r.Returned? <==> reply.Answered? && forall e :: e in pending ==> Owns(old(server.View()), name, e)
    {
      if reply == Lost(false) {
        return Raised(RenewalFailed);
      }
      if snapshot == [] {
        assert server.View().pel == Touch(server.View().pel, name, snapshot, now);
        return if reply.Answered? then Returned(()) else Raised(RenewalFailed);
      }
      var refused := server.RenewBatch(name, snapshot, now);
      r := if reply.Lost? then Raised(RenewalFailed) else if refused.Some? then Raised(DeliveryLost) else Returned(());
      if refused.None? {
        forall e | e in pending ensures Owns(old(server.View()), name, e) {
          var k :| 0 <= k < |snapshot| && snapshot[k] == e;
        }
      }
    }

    /** One round of the renewal loop: when it fails, every task of a delivery in flight is cancelled, and the loop
        ends. */
    method Renew(snapshot: seq<EntryId>, now: nat, reply: Reply) returns (goesOn: bool)
      requires forall e :: e in snapshot <==> e in pending
      modifies this`renewalFailed, server, pending.Values
      ensures server.View() ==
              if reply == Lost(false) then old(server.View()) else OwnedRenew(old(server.View()), name, snapshot, now)
      ensures goesOn <==> reply.Answered? && forall e :: e in pending ==> Owns(old(server.View()), name, e)
      ensures renewalFailed == (old(renewalFailed) || !goesOn)
      ensures forall d :: d in pending.Values ==>
              d.settled == old(d.settled) && d.cancelled == (old(d.cancelled) || !goesOn)
    {
      var r := RenewPending(snapshot, now, reply);
      ghost var after := server.View();
      if r.Returned? {
        return true;
      }
      var deliveries := pending.Values;
      while deliveries != {}
        invariant deliveries <= pending.Values
        invariant server.View() == after
        invariant forall d :: d in pending.Values ==> d.settled == old(d.settled)
        invariant forall d :: d in pending.Values ==> d.cancelled == (old(d.cancelled) || d !in deliveries)
        decreases |deliveries|
      {
        var delivery :| delivery in deliveries;
        delivery.cancelled := true;
        deliveries := deliveries - {delivery};
      }
      renewalFailed := true;
      goesOn := false;
    }

    /** `aclose`: nothing is acknowledged; whatever is in flight stays in the PEL to be taken over. */
    method Close()
      modifies this
      ensures View() == old(View()).Close() && closed && pending == old(pending)
    {
      closed := true;
    }
  }
}
