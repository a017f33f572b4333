/**
 The renewal timetable of a Redis consumer, with exact timers: sleep a third of the lease, then take the
 snapshot and renew within a time limit, over and over.  Times are seconds.
 */
module RedisLease {

  /** `window` bounds a renewal round from its start to its reply (the driver's time limit makes it at most a
      third of the lease); `delay` bounds the time from the server's hand-out of an entry to the moment the
      consumer registers it; the server lets others take over entries idle for `minIdle`. */
  datatype Timing = Timing(lease: real, window: real, delay: real, minIdle: real) {
    predicate Valid() {
      0.0 < lease && 0.0 <= window <= lease / 3.0 && 0.0 <= delay
    }
  }

  /** One round: it starts when the sleep ends, reads the set of in-flight entries, takes effect at the server
      and is answered. */
  datatype Round = Round(start: real, snapshot: real, effect: real, answered: real)

  predicate OnTime(c: Timing, t0: real, rounds: seq<Round>, k: nat)
    requires k < |rounds|
  {
    var r := rounds[k];
    && r.start == (if k == 0 then t0 else rounds[k - 1].answered) + c.lease / 3.0
    && r.start <= r.snapshot <= r.effect <= r.answered <= r.start + c.window
  }

  ghost predicate Timetable(c: Timing, t0: real, rounds: seq<Round>) {
    forall k :: 0 <= k < |rounds| ==> OnTime(c, t0, rounds, k)
  }

  /** An in-flight entry: when the server handed it out, when it was registered, and the first round whose
      snapshot contains it. */
  datatype Entry = Entry(touched: real, registered: real, first: nat)

  ghost predicate Tracked(c: Timing, t0: real, rounds: seq<Round>, e: Entry) {
    && t0 <= e.registered && e.touched <= e.registered <= e.touched + c.delay
    && e.first < |rounds| && e.registered <= rounds[e.first].snapshot
    && (e.first > 0 ==> rounds[e.first - 1].snapshot <= e.registered)
  }

  /** How long the entry had been idle when round `k` renewed it. */
  function Idle(rounds: seq<Round>, e: Entry, k: nat): real
    requires e.first <= k < |rounds|
  {
    rounds[k].effect - if k == e.first then e.touched else rounds[k - 1].effect
  }

  /** Over any number of rounds, two renewals of an entry are never further apart than a third of the lease
      plus two windows, and neither are its registration and its first renewal. */
  lemma IdleIsBounded(c: Timing, t0: real, rounds: seq<Round>, e: Entry, k: nat)
    requires c.Valid() && Timetable(c, t0, rounds) && Tracked(c, t0, rounds, e)
    requires e.first <= k < |rounds|
    ensures k > e.first ==> Idle(rounds, e, k) <= c.lease / 3.0 + 2.0 * c.window <= c.lease
    ensures rounds[e.first].effect - e.registered <= c.lease / 3.0 + 2.0 * c.window <= c.lease
    ensures Idle(rounds, e, k) <= c.lease / 3.0 + 2.0 * c.window + c.delay <= c.lease + c.delay
  {
    assert OnTime(c, t0, rounds, k) && OnTime(c, t0, rounds, e.first);
    assert k > 0 ==> OnTime(c, t0, rounds, k - 1);
    assert e.first > 0 ==> OnTime(c, t0, rounds, e.first - 1);
  }

  /** No entry of any timetable is ever idle long enough to be taken over. */
  ghost predicate NeverTakenOver(c: Timing) {
    forall t0: real, rounds, e, k: nat ::
      Timetable(c, t0, rounds) && Tracked(c, t0, rounds, e) && e.first <= k < |rounds| ==>
          Idle(rounds, e, k) < c.minIdle
  }

  /** Exactly when the lease protects in-flight entries: the bound is attained, so nothing less will do.  In
      particular the driver's own limits (a window of a third of the lease, a minimal idle time of at most the
      lease) do not protect them by themselves; faster replies do. */
  lemma LeaseProtectsExactly(c: Timing)
    requires c.Valid()
    ensures NeverTakenOver(c) <==> c.lease / 3.0 + 2.0 * c.window + c.delay < c.minIdle
    ensures c.window == c.lease / 3.0 && c.minIdle <= c.lease ==> !NeverTakenOver(c)
  {
    if NeverTakenOver(c) {
      var third := c.lease / 3.0;
      var slow := Round(third, third, third, third + c.window);
      var start := slow.answered + third;
      var late := Round(start, start + c.window, start + c.window, start + c.window);
      var e := Entry(third - c.delay, third, 1);
      var rounds := [slow, late];
      assert Timetable(c, 0.0, rounds) && Tracked(c, 0.0, rounds, e);
      assert Idle(rounds, e, 1) < c.minIdle;
    }
    if c.lease / 3.0 + 2.0 * c.window + c.delay < c.minIdle {
      forall t0: real, rounds, e, k: nat | Timetable(c, t0, rounds) && Tracked(c, t0, rounds, e)
          && e.first <= k < |rounds|
        ensures Idle(rounds, e, k) < c.minIdle
      {
        IdleIsBounded(c, t0, rounds, e, k);
      }
    }
  }
}
