/**
 The client side of the Kafka driver: generation, trusted partitions, paused partitions and the one
 in-flight delivery per partition.
 */
module KafkaDriver {
  import opened Common

  type Partition = nat
  type Offset = nat

  datatype Driver<+D> = Driver(
    generation: nat,
    closed: bool,
    trusted: set<Partition>,
    paused: set<Partition>,
    pending: map<Partition, D>)
  {
    /** on_partitions_revoked: every in-flight delivery of the old generation is given up. */
    function Revoked(partitions: set<Partition>): Driver<D> {
      this.(generation := generation + 1, trusted := trusted - partitions, pending := map[])
    }

    /** on_partitions_assigned: the first record of each may be one the previous owner did not commit. */
    function Regained(partitions: set<Partition>): Driver<D> {
      this.(trusted := trusted - partitions, paused := paused - partitions)
    }

    /** What the head of `acknowledge` commits, if anything. */
    function ToCommit(offset: Offset, generation: nat, settled: bool): Option<Offset> {
      if settled || closed || generation != this.generation then None else Some(offset + 1)
    }

    /** A fetched record becomes the partition's one in-flight delivery. */
    function Took(p: Partition, delivery: D): Driver<D>
      requires p !in pending
    {
      this.(paused := paused + {p}, pending := pending[p := delivery])
    }

    /** A successful acknowledgement within one generation. */
    function Settled(p: Partition): Driver<D> {
      this.(pending := pending - {p}, trusted := trusted + {p}, paused := paused - {p})
    }
  }

  datatype DriverError = DeliveryLost | ConsumerClosed

  class KafkaDelivery {
    const partition: Partition
    const offset: Offset
    const generation: nat
    const possiblyRedelivered: bool
    var settled: bool
    var cancelled: bool

    constructor (partition: Partition, offset: Offset, generation: nat, possiblyRedelivered: bool)
      ensures this.partition == partition && this.offset == offset && this.generation == generation
      ensures this.possiblyRedelivered == possiblyRedelivered && !settled && !cancelled
    {
      this.partition, this.offset, this.generation := partition, offset, generation;
      this.possiblyRedelivered, settled, cancelled := possiblyRedelivered, false, false;
    }
  }

  class KafkaConsumer {
    var generation: nat
    var closed: bool
    var trusted: set<Partition>
    var paused: set<Partition>
    var pending: map<Partition, KafkaDelivery>

    function View(): Driver<KafkaDelivery>
      reads this
    {
      Driver(generation, closed, trusted, paused, pending)
    }

    constructor ()
      ensures View() == Driver(0, false, {}, {}, map[])
    {
      generation, closed, trusted, paused, pending := 0, false, {}, {}, map[];
    }

    /** `receive` before it waits for a record: a close is noticed here and nowhere later. */
    method MayReceive() returns (open: bool)
      ensures open <==> !closed
    {
      open := !closed;
    }

    /** `receive` once the client has fetched a record; the consumer may have been closed meanwhile. */
    method Receive(p: Partition, offset: Offset) returns (r: Outcome<KafkaDelivery, DriverError>)
      modifies this
      ensures r.Raised? ==> r == Raised(DeliveryLost) && View() == old(View())
      ensures r.Raised? <==> p in old(pending)
      ensures r.Returned? ==>
                && fresh(r.value) && View() == old(View()).Took(p, r.value)
                && pending.Keys == old(pending).Keys + {p} && pending[p] == r.value
                && forall q :: q in old(pending) ==> pending[q] == old(pending)[q]
      ensures r.Returned? ==>
                && r.value.partition == p && r.value.offset == offset && r.value.generation == generation
                && r.value.possiblyRedelivered == (p !in old(trusted)) && !r.value.settled
    {
      if p in pending {
        return Raised(DeliveryLost);
      }
      paused := paused + {p};
      var delivery := new KafkaDelivery(p, offset, generation, p !in trusted);
      pending := pending[p := delivery];
      r := Returned(delivery);
    }

    /** `acknowledge` up to its await: what is committed, or nothing for an outdated delivery. */
    method PrepareAcknowledge(delivery: KafkaDelivery) returns (commit: Option<Offset>)
      ensures commit == View().ToCommit(delivery.offset, delivery.generation, delivery.settled)
      ensures commit.None? <==> delivery.settled || closed || delivery.generation != generation
      ensures commit.Some? ==> commit.value == delivery.offset + 1
    {
      if delivery.settled || closed || delivery.generation != generation {
        return None;
      }
      commit := Some(delivery.offset + 1);
    }

    /** `acknowledge` after its await, the commit having succeeded. */
    method FinishAcknowledge(delivery: KafkaDelivery) returns (r: Outcome<(), DriverError>)
      modifies this, delivery
      ensures old(delivery.generation != generation) ==>
                r == Raised(DeliveryLost) && View() == old(View()) && delivery.settled == old(delivery.settled)
      ensures old(delivery.generation == generation) ==>
                && r.Returned? && View() == old(View()).Settled(delivery.partition) && delivery.settled
                && pending == old(pending) - {delivery.partition}
                && delivery.partition in trusted && delivery.partition !in paused
    {
      if delivery.generation != generation {
        return Raised(DeliveryLost);
      }
      delivery.settled := true;
      pending := pending - {delivery.partition};
      trusted := trusted + {delivery.partition};
      paused := paused - {delivery.partition};
      r := Returned(());
    }

    /** Every in-flight delivery is cancelled, whichever partitions were revoked. */
    method OnPartitionsRevoked(revoked: set<Partition>)
      modifies this, pending.Values
      ensures View() == old(View()).Revoked(revoked)
      ensures generation == old(generation) + 1 && trusted == old(trusted) - revoked && pending == map[]
      ensures forall p :: p in old(pending) ==> old(pending)[p].cancelled
      ensures forall d :: d in old(pending).Values ==> d.settled == old(d.settled)
    {
      generation := generation + 1;
      trusted := trusted - revoked;
      var deliveries := pending.Values;
      while deliveries != {}
        invariant deliveries <= old(pending).Values
        invariant View() == old(View()).(generation := old(generation) + 1, trusted := old(trusted) - revoked)
        invariant forall d :: d in old(pending).Values && d !in deliveries ==> d.cancelled
        invariant forall d :: d in old(pending).Values ==> d.settled == old(d.settled)
      {
        var delivery :| delivery in deliveries;
        delivery.cancelled := true;
        deliveries := deliveries - {delivery};
      }
      pending := map[];
    }

    method OnPartitionsAssigned(gained: set<Partition>)
      modifies this
      ensures View() == old(View()).Regained(gained)
      ensures trusted == old(trusted) - gained && paused == old(paused) - gained && pending == old(pending)
    {
      trusted := trusted - gained;
      paused := paused - gained;
    }

    method Close()
      modifies this
      ensures View() == old(View()).(closed := true)
    {
      closed := true;
    }
  }
}
