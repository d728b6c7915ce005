/** The grace period: a bucket waits, in memory, before it is frozen. */
module Freezer {
  import opened Buckets
  import opened Samples

  datatype PendingFreeze = PendingFreeze(key: string, readyAt: real)

  /** The units that ticks freeze; hour buckets are not among them. */
  const FREEZE_UNITS: seq<Unit> := [Unit.Day, Week, Month]

  function Scheduled(pending: map<Unit, PendingFreeze>, u: Unit, key: string, readyAt: real)
    : map<Unit, PendingFreeze>
  {
    if u in pending && pending[u].key == key then pending else pending[u := PendingFreeze(key, readyAt)]
  }

  function Dropped(pending: map<Unit, PendingFreeze>, b: Bucket): map<Unit, PendingFreeze> {
    if b.unit in pending && pending[b.unit].key == b.key then pending - {b.unit} else pending
  }

  /** What is due among the first `n` units. */
  function DueFirst(pending: map<Unit, PendingFreeze>, now: real, n: nat): (due: seq<Bucket>)
    requires n <= |FREEZE_UNITS|
    ensures forall i :: 0 <= i < |due| ==>
      !due[i].unit.Hour? && due[i].unit in pending && pending[due[i].unit].key == due[i].key
  {
    if n == 0 then [] else
    var u := FREEZE_UNITS[n - 1];
    DueFirst(pending, now, n - 1)
    + if u in pending && pending[u].readyAt <= now then [Bucket(u, pending[u].key)] else []
  }

  function Due(pending: map<Unit, PendingFreeze>, now: real): seq<Bucket> {
    DueFirst(pending, now, |FREEZE_UNITS|)
  }

  predicate Waiting(pending: map<Unit, PendingFreeze>, b: Bucket) {
    b.unit in pending && pending[b.unit].key == b.key
  }

  /** Exactly the waiting buckets whose time has come are due, hour buckets aside. */
  lemma DueIs(pending: map<Unit, PendingFreeze>, now: real)
    ensures forall b :: b in Due(pending, now) <==>
      Waiting(pending, b) && !b.unit.Hour? && pending[b.unit].readyAt <= now
  {
    var one, two, three := DueFirst(pending, now, 1), DueFirst(pending, now, 2), DueFirst(pending, now, 3);
    assert DueFirst(pending, now, 0) == [];
    assert forall b :: b in one <==> Waiting(pending, b) && b.unit.Day? && pending[b.unit].readyAt <= now;
    assert forall b :: b in two <==>
      b in one || (Waiting(pending, b) && b.unit.Week? && pending[b.unit].readyAt <= now);
    assert forall b :: b in three <==>
      b in two || (Waiting(pending, b) && b.unit.Month? && pending[b.unit].readyAt <= now);
  }

  /** Wall-clock readings are arbitrary: the clock may even step back. */
  method Now() returns (t: real)
  {
    t := *;
  }

  class GraceFreezer {
    const graceSeconds: real
    var pending: map<Unit, PendingFreeze>

    constructor (graceSeconds: real)
      ensures this.graceSeconds == graceSeconds && pending == map[]
    {
      this.graceSeconds := graceSeconds;
      pending := map[];
    }

    /** Start the grace period of a bucket; another bucket of the unit that is
        still waiting is forgotten. */
    method Schedule(u: Unit, key: string) returns (now: real)
      modifies this
      ensures pending == Scheduled(old(pending), u, key, now + graceSeconds)
      ensures u in pending && pending[u].key == key
      ensures if u in old(pending) && old(pending)[u].key == key then pending == old(pending)
              else pending == old(pending)[u := PendingFreeze(key, now + graceSeconds)]
    {
      now := Now();
      if u in pending && pending[u].key == key {
        return;
      }
      pending := pending[u := PendingFreeze(key, now + graceSeconds)];
    }

    method DueNow() returns (due: seq<Bucket>, now: real)
      ensures due == Due(pending, now)
      ensures forall b :: b in due <==> Waiting(pending, b) && !b.unit.Hour? && pending[b.unit].readyAt <= now
    {
      now := Now();
      due := [];
      for k := 0 to |FREEZE_UNITS|
        invariant due == DueFirst(pending, now, k)
      {
        var u := FREEZE_UNITS[k];
        if u in pending && pending[u].readyAt <= now {
          due := due + [Bucket(u, pending[u].key)];
        }
      }
      DueIs(pending, now);
    }

    method Drop(b: Bucket)
      modifies this
      ensures pending == Dropped(old(pending), b)
      ensures !Waiting(pending, b)
      ensures forall c: Bucket :: c != b ==>
        (Waiting(pending, c) <==> Waiting(old(pending), c))
        && (Waiting(pending, c) ==> pending[c.unit] == old(pending)[c.unit])
    {
      if b.unit in pending && pending[b.unit].key == b.key {
        pending := pending - {b.unit};
      }
    }
  }
}
