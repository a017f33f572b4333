/**
 The part of a Redis Stream with one consumer group that the queue driver relies on: the stream,
 the group's last-delivered id, and the pending-entries list (PEL), which records one owner and one
 last-touched time per handed-out entry.  The two Lua scripts of the driver are atomic commands.
 Commands may come from any number of consumers in any order.
 */
module RedisStreams {
  import opened Common

  type EntryId = nat

  /** Consumer names are random and never reused. */
  type ConsumerId = nat

  datatype Pending = Pending(owner: ConsumerId, touched: nat)

  datatype Server<Payload> = Server(
    stream: map<EntryId, Payload>,
    nextId: EntryId,
    lastDelivered: EntryId,
    pel: map<EntryId, Pending>)

  /** A stream whose group starts reading at 0-0; the first entry gets id 1. */
  function Empty<Payload>(): Server<Payload> {
    Server(map[], 1, 0, map[])
  }

  predicate Owns<Payload>(s: Server<Payload>, name: ConsumerId, id: EntryId) {
    id in s.pel && s.pel[id].owner == name
  }

  /** Least id of `ids` in [from, to). */
  function FirstIn(ids: set<EntryId>, from: EntryId, to: EntryId): (r: Option<EntryId>)
    ensures r.Some? ==> from <= r.value < to && r.value in ids
    ensures r.Some? ==> (forall k :: from <= k < r.value ==> k !in ids)
    ensures r.None? ==> (forall k :: from <= k < to ==> k !in ids)
    decreases if from < to then to - from else 0
  {
    if from >= to then None
    else if from in ids then Some(from)
    else FirstIn(ids, from + 1, to)
  }

  // ---- Commands -------------------------------------------------------------------------------

  /** XADD. */
  function Add<Payload>(s: Server<Payload>, payload: Payload): Server<Payload> {
    s.(stream := s.stream[s.nextId := payload], nextId := s.nextId + 1)
  }

  /** The entry XREADGROUP ">" with COUNT 1 hands out. */
  function NextNew<Payload>(s: Server<Payload>): Option<EntryId> {
    FirstIn(s.stream.Keys, s.lastDelivered + 1, s.nextId)
  }

  /** XREADGROUP ">": hands out the next entry, making `name` its owner. */
  function Read<Payload>(s: Server<Payload>, name: ConsumerId, now: nat): Server<Payload> {
    match NextNew(s)
    case None => s
    case Some(id) => s.(lastDelivered := id, pel := s.pel[id := Pending(name, now)])
  }

  /** An entry idle for at least `minIdle` may be taken over. */
  predicate Claimable<Payload>(s: Server<Payload>, id: EntryId, minIdle: nat, now: nat) {
    id in s.pel && s.pel[id].touched + minIdle <= now
  }

  /** XAUTOCLAIM with COUNT 1 picking `id`: the caller becomes the owner and the idle time restarts. */
  function Claim<Payload>(s: Server<Payload>, name: ConsumerId, id: EntryId, minIdle: nat, now: nat): Server<Payload> {
    if Claimable(s, id, minIdle, now) then s.(pel := s.pel[id := Pending(name, now)]) else s
  }

  /** Effect of the owner-checked acknowledgement script. */
  function OwnedAck<Payload>(s: Server<Payload>, name: ConsumerId, id: EntryId): Server<Payload> {
    if Owns(s, name, id) then s.(pel := s.pel - {id}, stream := s.stream - {id}) else s
  }

  predicate OwnsAll<Payload>(s: Server<Payload>, name: ConsumerId, ids: seq<EntryId>) {
    forall k :: 0 <= k < |ids| ==> Owns(s, name, ids[k])
  }

  function Touch(pel: map<EntryId, Pending>, name: ConsumerId, ids: seq<EntryId>, now: nat): map<EntryId, Pending> {
    map id | id in pel :: if id in ids then Pending(name, now) else pel[id]
  }

  /** Effect of the batch renewal script. */
  function OwnedRenew<Payload>(s: Server<Payload>, name: ConsumerId, ids: seq<EntryId>, now: nat): Server<Payload> {
    if OwnsAll(s, name, ids) then s.(pel := Touch(s.pel, name, ids, now)) else s
  }

  datatype Command<Payload> =
    | CAdd(payload: Payload)
    | CRead(name: ConsumerId, now: nat)
    | CClaim(name: ConsumerId, id: EntryId, minIdle: nat, now: nat)
    | CAck(name: ConsumerId, id: EntryId)
    | CRenew(name: ConsumerId, ids: seq<EntryId>, now: nat)

  function Execute<Payload>(s: Server<Payload>, c: Command<Payload>): Server<Payload> {
    match c
    case CAdd(payload) => Add(s, payload)
    case CRead(name, now) => Read(s, name, now)
    case CClaim(name, id, minIdle, now) => Claim(s, name, id, minIdle, now)
    case CAck(name, id) => OwnedAck(s, name, id)
    case CRenew(name, ids, now) => OwnedRenew(s, name, ids, now)
  }

  /** The states a sequence of commands passes through. */
  function After<Payload>(s: Server<Payload>, cs: seq<Command<Payload>>): Server<Payload>
    decreases |cs|
  {
    if cs == [] then s else Execute(After(s, cs[..|cs| - 1]), cs[|cs| - 1])
  }

  // ---- The server as an object, with the scripts' own loops ------------------------------------

  class StreamServer<Payload> {
    var stream: map<EntryId, Payload>
    var nextId: EntryId
    var lastDelivered: EntryId
    var pel: map<EntryId, Pending>

    function View(): Server<Payload>
      reads this
    {
      Server(stream, nextId, lastDelivered, pel)
    }

    constructor ()
      ensures View() == Empty()
    {
      stream, nextId, lastDelivered, pel := map[], 1, 0, map[];
    }

    /** The acknowledgement script; returns 1 exactly when the caller was the owner. */
    method Ack(name: ConsumerId, id: EntryId) returns (acknowledged: nat)
      modifies this
      ensures View() == OwnedAck(old(View()), name, id)
      ensures acknowledged == if old(Owns(View(), name, id)) then 1 else 0
    {
      if id !in pel || pel[id].owner != name {
        return 0;
      }
      pel := pel - {id};
      acknowledged := 1;
      if acknowledged == 1 {
        stream := stream - {id};
      }
    }

    /** The renewal script: first check every entry, then touch every entry. */
    method RenewBatch(name: ConsumerId, ids: seq<EntryId>, now: nat) returns (refused: Option<EntryId>)
      modifies this
      ensures View() == OwnedRenew(old(View()), name, ids, now)
      ensures refused.None? <==> old(OwnsAll(View(), name, ids))
      ensures refused.Some? ==> refused.value in ids && !old(Owns(View(), name, refused.value))
    {
      for index := 0 to |ids|
        invariant View() == old(View())
        invariant forall k :: 0 <= k < index ==> Owns(View(), name, ids[k])
      {
        var identity := ids[index];
        if identity !in pel || pel[identity].owner != name {
          return Some(identity);
        }
      }
      for index := 0 to |ids|
        invariant pel == Touch(old(pel), name, ids[..index], now)
        invariant stream == old(stream) && nextId == old(nextId) && lastDelivered == old(lastDelivered)
      {
        pel := pel[ids[index] := Pending(name, now)];
        assert ids[..index + 1] == ids[..index] + [ids[index]];
      }
      assert ids[..|ids|] == ids;
      refused := None;
    }
  }

  // ---- What every command keeps ---------------------------------------------------------------

  /** Every entry of the stream is either still ahead of the group or recorded in the PEL, and the PEL
      records nothing else: no entry is ever stranded where neither XREADGROUP nor XAUTOCLAIM finds it. */
  ghost predicate WellFormed<Payload>(s: Server<Payload>) {
    && s.lastDelivered < s.nextId
    && (forall id :: id in s.stream ==> 0 < id < s.nextId)
    && (forall id :: id in s.pel ==> id in s.stream && id <= s.lastDelivered)
    && (forall id :: id in s.stream && id <= s.lastDelivered ==> id in s.pel)
  }

  lemma CommandKeepsWellFormed<Payload>(s: Server<Payload>, c: Command<Payload>)
    requires WellFormed(s)
    ensures WellFormed(Execute(s, c))
    ensures s.nextId <= Execute(s, c).nextId && s.lastDelivered <= Execute(s, c).lastDelivered
  {
  }

  lemma {:induction false} RunsStayWellFormed<Payload>(s: Server<Payload>, cs: seq<Command<Payload>>)
    requires WellFormed(s)
    ensures WellFormed(After(s, cs)) && s.nextId <= After(s, cs).nextId
  {
    if cs != [] {
      RunsStayWellFormed(s, cs[..|cs| - 1]);
      CommandKeepsWellFormed(After(s, cs[..|cs| - 1]), cs[|cs| - 1]);
    }
  }

  /** Only the acknowledgement of the present owner removes an entry. */
  lemma OnlyTheOwnerRemoves<Payload>(s: Server<Payload>, c: Command<Payload>, id: EntryId)
    requires WellFormed(s)
    requires id in s.stream && id !in Execute(s, c).stream
    ensures c.CAck? && c.id == id && Owns(s, c.name, id)
  {
  }

  /** A renewal touches all of its entries or none, and never changes an owner or the stream. */
  lemma RenewalIsAllOrNothing<Payload>(s: Server<Payload>, name: ConsumerId, ids: seq<EntryId>, now: nat)
    ensures var t := OwnedRenew(s, name, ids, now);
            && t.stream == s.stream && t.pel.Keys == s.pel.Keys
            && (forall id :: id in s.pel ==> t.pel[id].owner == s.pel[id].owner)
            && ((forall id :: id in ids ==> id in t.pel && t.pel[id] == Pending(name, now))
                || (t == s && exists id :: id in ids && !Owns(s, name, id)))
  {
    if OwnsAll(s, name, ids) {
      forall id | id in ids
        ensures id in s.pel && s.pel[id].owner == name
      {
        var k :| 0 <= k < |ids| && ids[k] == id;
        assert Owns(s, name, ids[k]);
      }
    } else {
      var k :| 0 <= k < |ids| && !Owns(s, name, ids[k]);
      assert ids[k] in ids;
    }
  }

  // ---- Fencing over whole runs ----------------------------------------------------------------

  /** `name` neither reads nor takes over `id` with this command. */
  predicate DoesNotReclaim<Payload>(c: Command<Payload>, name: ConsumerId, id: EntryId) {
    !(c.CClaim? && c.name == name && c.id == id)
  }

  /** Once another consumer owns a handed-out entry, or the entry is gone, the former owner stays
      fenced off until it takes the entry over itself: whatever all consumers do meanwhile, its
      acknowledgement and every renewal batch naming the entry leave the server unchanged. */
  lemma {:induction false} FormerOwnerIsFencedOff<Payload>(
    s: Server<Payload>, cs: seq<Command<Payload>>, name: ConsumerId, id: EntryId, ids: seq<EntryId>, now: nat)
    requires WellFormed(s)
    requires id <= s.lastDelivered && !Owns(s, name, id)
    requires forall k :: 0 <= k < |cs| ==> DoesNotReclaim(cs[k], name, id)
    requires id in ids
    ensures var t := After(s, cs);
            && id <= t.lastDelivered && !Owns(t, name, id)
            && OwnedAck(t, name, id) == t
            && OwnedRenew(t, name, ids, now) == t
  {
    NotOwnedStaysNotOwned(s, cs, name, id);
    var k :| 0 <= k < |ids| && ids[k] == id;
    assert !Owns(After(s, cs), name, ids[k]);
  }

  lemma {:induction false} NotOwnedStaysNotOwned<Payload>(
    s: Server<Payload>, cs: seq<Command<Payload>>, name: ConsumerId, id: EntryId)
    requires WellFormed(s)
    requires id <= s.lastDelivered && !Owns(s, name, id)
    requires forall k :: 0 <= k < |cs| ==> DoesNotReclaim(cs[k], name, id)
    ensures id <= After(s, cs).lastDelivered && !Owns(After(s, cs), name, id)
  {
    if cs != [] {
      var front := cs[..|cs| - 1];
      NotOwnedStaysNotOwned(s, front, name, id);
      RunsStayWellFormed(s, front);
      var t := After(s, front);
      var c := cs[|cs| - 1];
      assert DoesNotReclaim(c, name, id);
      if c.CRenew? && OwnsAll(t, c.name, c.ids) && id in c.ids {
        var k :| 0 <= k < |c.ids| && c.ids[k] == id;
        assert Owns(t, c.name, c.ids[k]);
      }
    }
  }

  /** Number of acknowledgements of `id`, by any consumer, that the script accepted. */
  function Accepted<Payload>(s: Server<Payload>, cs: seq<Command<Payload>>, id: EntryId): nat
    decreases |cs|
  {
    if cs == [] then 0
    else
      var front := cs[..|cs| - 1];
      var c := cs[|cs| - 1];
      Accepted(s, front, id) + if c.CAck? && c.id == id && Owns(After(s, front), c.name, id) then 1 else 0
  }

  /** In any run from the empty stream, at most one acknowledgement of an entry is ever accepted, over
      all consumers; it is accepted exactly when the entry was published and has left the stream. */
  lemma {:induction false} AcknowledgedAtMostOnce<Payload>(cs: seq<Command<Payload>>, id: EntryId)
    ensures var s := After(Empty<Payload>(), cs);
            && Accepted(Empty<Payload>(), cs, id) <= 1
            && (Accepted(Empty<Payload>(), cs, id) == 1 <==> 0 < id < s.nextId && id !in s.stream)
  {
    if cs != [] {
      var front := cs[..|cs| - 1];
      AcknowledgedAtMostOnce(front, id);
      RunsStayWellFormed(Empty<Payload>(), front);
      CommandKeepsWellFormed(After(Empty<Payload>(), front), cs[|cs| - 1]);
    }
  }
}
