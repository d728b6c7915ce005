/** One transition pass with nothing else going on: what it does to the queue, row by
    row, and that the order in which AMRs are visited makes no difference. */
module TransferPass {
  import opened Wrappers
  import opened TransferQueue
  import opened TransferMachine

  /** How a batch went: sent and recorded, or failed; and which dead letters were written. */
  datatype Outcome = Outcome(sent: bool, dlq: set<int>)

  function ClaimedIds(g: Gateway, p: Place, st: Settings): (ids: set<int>)
  {
    set f | f in Claim(g, p, st.batch)
  }

  /** The claimed rows the batch deletes. */
  function ClearedBy(g: Gateway, p: Place, o: Outcome, st: Settings): (ids: set<int>)
    ensures ids <= ClaimedIds(g, p, st)
  {
    if o.sent then ClaimedIds(g, p, st)
    else set f | f in ClaimedIds(g, p, st) && g.queue[f].attempts + 1 > st.maxAttempts && f in o.dlq
  }

  /** The overflow: all other rows of the place, if the batch was full and made progress. */
  function PurgedBy(g: Gateway, p: Place, o: Outcome, st: Settings): (ids: set<int>)
    ensures ids <= Matching(g, p)
  {
    if |Claim(g, p, st.batch)| == st.batch && ClearedBy(g, p, o, st) != {}
    then Matching(g, p) - ClearedBy(g, p, o, st) else {}
  }

  function BatchEffect(g: Gateway, p: Place, o: Outcome, st: Settings): (g': Gateway)
  {
    var cleared := ClearedBy(g, p, o, st);
    g.(queue := Changed(g.queue, cleared + PurgedBy(g, p, o, st), ClaimedIds(g, p, st) - cleared))
  }

  /** What a batch does to one row; None if the row is gone. */
  function RowAfter(g: Gateway, p: Place, o: Outcome, st: Settings, f: int): Option<Entry>
  {
    if f in BatchEffect(g, p, o, st).queue then Some(BatchEffect(g, p, o, st).queue[f]) else None
  }

  function Entry0(g: Gateway, f: int): Option<Entry> {
    if f in g.queue then Some(g.queue[f]) else None
  }

  lemma ClaimedMatch(g: Gateway, p: Place, st: Settings)
    ensures ClaimedIds(g, p, st) <= Matching(g, p)
  {
  }

  /** A batch touches only rows of its own place, and moves none. */
  lemma BatchIsLocal(g: Gateway, p: Place, o: Outcome, st: Settings)
    ensures var g' := BatchEffect(g, p, o, st);
            && g'.frames == g.frames && g'.dusts == g.dusts && g'.queue.Keys <= g.queue.Keys
            && (forall f :: f !in Matching(g, p) ==> Entry0(g', f) == Entry0(g, f))
            && (forall f :: f in g'.queue ==>
                  PlaceOf(g', f) == PlaceOf(g, f) && g'.queue[f].enqueuedAt == g.queue[f].enqueuedAt)
  {
    hide PlaceOf, Matching, ClaimedIds;
    ClaimedMatch(g, p, st);
    var cleared := ClearedBy(g, p, o, st);
    var removed, bumped := cleared + PurgedBy(g, p, o, st), ClaimedIds(g, p, st) - cleared;
    forall f ensures PlaceOf(BatchEffect(g, p, o, st), f) == if f in removed then None else PlaceOf(g, f) {
      ChangedPlaces(g, removed, bumped, f);
    }
  }

  /** Rows of one place, in two queues that agree on them, are claimed alike. */
  lemma {:induction false} SameOrder(q: map<int, Entry>, r: map<int, Entry>, ids: set<int>)
    requires ids <= q.Keys && ids <= r.Keys && forall f :: f in ids ==> q[f].enqueuedAt == r[f].enqueuedAt
    ensures InOrder(q, ids) == InOrder(r, ids)
  {
    if ids != {} {
      var e, d := Earliest(q, ids), Earliest(r, ids);
      assert e == d;
      SameOrder(q, r, ids - {e});
    }
  }

  /** Two gateways agree on a place. */
  ghost predicate Agree(g: Gateway, h: Gateway, p: Place) {
    Matching(g, p) == Matching(h, p) && forall f :: f in Matching(g, p) ==> g.queue[f] == h.queue[f]
  }

  lemma SameClaim(g: Gateway, h: Gateway, p: Place, limit: nat)
    requires Agree(g, h, p)
    ensures Claim(g, p, limit) == Claim(h, p, limit)
  {
    hide PlaceOf, Matching, InOrder;
    SameOrder(g.queue, h.queue, Matching(g, p));
  }

  /** What a batch does to the rows of its place depends on those rows only. */
  lemma BatchDependsOnPlace(g: Gateway, h: Gateway, p: Place, o: Outcome, st: Settings, f: int)
    requires Agree(g, h, p) && f in Matching(g, p)
    ensures RowAfter(g, p, o, st, f) == RowAfter(h, p, o, st, f)
  {
    hide PlaceOf, Matching, Claim;
    SameClaim(g, h, p, st.batch);
    ClaimedMatch(g, p, st);
    assert ClaimedIds(g, p, st) == ClaimedIds(h, p, st);
    forall f | f in ClaimedIds(g, p, st) ensures g.queue[f] == h.queue[f] { }
    forall f ensures f in ClearedBy(g, p, o, st) <==> f in ClearedBy(h, p, o, st) { }
    assert ClearedBy(g, p, o, st) == ClearedBy(h, p, o, st);
    assert PurgedBy(g, p, o, st) == PurgedBy(h, p, o, st);
  }

  // ----- the pass -----

  function PrevOf(last: map<string, int>, amr: string, st: Settings): int {
    if amr in last then last[amr] else st.init
  }

  /** The place whose batch is due for this AMR, if it has moved. */
  function DuePlace(last: map<string, int>, current: map<string, int>, amr: string, st: Settings): Option<Place>
    requires amr in current
  {
    if current[amr] != PrevOf(last, amr, st) then Some(Place(amr, PrevOf(last, amr, st))) else None
  }

  function OutcomeOf(outcomes: map<string, Outcome>, amr: string): Outcome {
    if amr in outcomes then outcomes[amr] else Outcome(false, {})
  }

  function VisitEffect(g: Gateway, last: map<string, int>, current: map<string, int>, amr: string,
          outcomes: map<string, Outcome>, st: Settings): Gateway
    requires amr in current
  {
    match DuePlace(last, current, amr, st)
    case None => g
    case Some(p) => BatchEffect(g, p, OutcomeOf(outcomes, amr), st)
  }

  /** The queue and the last waypoints after visiting these AMRs one after the other. */
  function PassEffect(g: Gateway, last: map<string, int>, current: map<string, int>, order: seq<string>,
          outcomes: map<string, Outcome>, st: Settings): (Gateway, map<string, int>)
    requires forall a :: a in order ==> a in current
    decreases |order|
  {
    if order == [] then (g, last) else
    var amr := order[|order| - 1];
    var (h, seen) := PassEffect(g, last, current, order[..|order| - 1], outcomes, st);
    (VisitEffect(h, seen, current, amr, outcomes, st), seen[amr := current[amr]])
  }

  function Members(order: seq<string>): set<string> {
    set a | a in order
  }

  function LastAfter(last: map<string, int>, current: map<string, int>, visited: set<string>): map<string, int>
    requires visited <= current.Keys
  {
    last + map a | a in visited :: current[a]
  }

  ghost predicate Distinct(order: seq<string>) {
    forall i, j :: 0 <= i < j < |order| ==> order[i] != order[j]
  }

  /** The row's fate in the pass, from the state before the pass alone. */
  function FateOf(g: Gateway, last: map<string, int>, current: map<string, int>, visited: set<string>,
          outcomes: map<string, Outcome>, st: Settings, f: int): Option<Entry>
    requires visited <= current.Keys
  {
    var place := PlaceOf(g, f);
    if place.Some? && place.value.amr in visited && DuePlace(last, current, place.value.amr, st) == place
    then RowAfter(g, place.value, OutcomeOf(outcomes, place.value.amr), st, f)
    else Entry0(g, f)
  }

  ghost predicate PassFacts(g: Gateway, last: map<string, int>, current: map<string, int>, order: seq<string>,
          outcomes: map<string, Outcome>, st: Settings)
    requires forall a :: a in order ==> a in current
  {
    var (h, seen) := PassEffect(g, last, current, order, outcomes, st);
    var visited := Members(order);
    && h.frames == g.frames && h.dusts == g.dusts && h.queue.Keys <= g.queue.Keys
    && (forall f :: Entry0(h, f) == FateOf(g, last, current, visited, outcomes, st, f))
    && (forall f :: f in h.queue ==>
                  PlaceOf(h, f) == PlaceOf(g, f) && h.queue[f].enqueuedAt == g.queue[f].enqueuedAt)
    && seen == LastAfter(last, current, visited)
  }

  /** Before an AMR is visited, the pass has not touched its rows. */
  lemma Untouched(g: Gateway, last: map<string, int>, current: map<string, int>, order: seq<string>,
          outcomes: map<string, Outcome>, st: Settings, p: Place)
    requires forall a :: a in order ==> a in current
    requires PassFacts(g, last, current, order, outcomes, st) && p.amr !in order
    ensures Agree(g, PassEffect(g, last, current, order, outcomes, st).0, p)
  {
    hide PlaceOf, PassEffect, RowAfter;
    var h := PassEffect(g, last, current, order, outcomes, st).0;
    forall f ensures f in Matching(g, p) ==> Entry0(h, f) == Entry0(g, f) {
      assert Entry0(h, f) == FateOf(g, last, current, Members(order), outcomes, st, f);
    }
    forall f ensures f in Matching(g, p) <==> f in Matching(h, p) {
      if f in Matching(g, p) {
        assert Entry0(h, f) == Entry0(g, f);
      }
    }
    forall f | f in Matching(g, p) ensures g.queue[f] == h.queue[f] {
      assert Entry0(h, f) == Entry0(g, f);
    }
  }

  /** The pass in closed form: each row's fate is determined by its own AMR's visit. */
  lemma {:induction false} PassClosed(g: Gateway, last: map<string, int>, current: map<string, int>, order: seq<string>,
          outcomes: map<string, Outcome>, st: Settings)
    requires Distinct(order) && forall a :: a in order ==> a in current
    ensures PassFacts(g, last, current, order, outcomes, st)
    decreases |order|
  {
    if order == [] {
      assert LastAfter(last, current, {}) == last;
    } else {
      hide PlaceOf, BatchEffect, RowAfter;
      var amr, front := order[|order| - 1], order[..|order| - 1];
      assert Distinct(front) && amr !in front;
      PassClosed(g, last, current, front, outcomes, st);
      VisitClosed(g, last, current, front, amr, outcomes, st);
      assert order == front + [amr];
    }
  }

  lemma VisitClosed(g: Gateway, last: map<string, int>, current: map<string, int>, front: seq<string>, amr: string,
          outcomes: map<string, Outcome>, st: Settings)
    requires amr in current && amr !in front && forall a :: a in front ==> a in current
    requires PassFacts(g, last, current, front, outcomes, st)
    ensures forall a :: a in front + [amr] ==> a in current
    ensures PassFacts(g, last, current, front + [amr], outcomes, st)
  {
    hide PlaceOf, BatchEffect, RowAfter, FateOf, PassEffect, VisitEffect;
    var order := front + [amr];
    var h := PassEffect(g, last, current, front, outcomes, st).0;
    var h' := PassEffect(g, last, current, order, outcomes, st).0;
    PassStep(g, last, current, front, amr, outcomes, st);
    VisitIsLocal(h, last, current, amr, outcomes, st);
    forall f ensures Entry0(h', f) == FateOf(g, last, current, Members(order), outcomes, st, f) {
      VisitFate(g, last, current, front, amr, outcomes, st, f);
    }
  }

  lemma VisitIsLocal(g: Gateway, last: map<string, int>, current: map<string, int>, amr: string,
          outcomes: map<string, Outcome>, st: Settings)
    requires amr in current
    ensures var h := VisitEffect(g, last, current, amr, outcomes, st);
            && h.frames == g.frames && h.dusts == g.dusts && h.queue.Keys <= g.queue.Keys
            && (forall f :: f in h.queue ==>
                  PlaceOf(h, f) == PlaceOf(g, f) && h.queue[f].enqueuedAt == g.queue[f].enqueuedAt)
  {
    hide PlaceOf, BatchEffect;
    var due := DuePlace(last, current, amr, st);
    if due.Some? { BatchIsLocal(g, due.value, OutcomeOf(outcomes, amr), st); }
  }

  lemma PassStep(g: Gateway, last: map<string, int>, current: map<string, int>, front: seq<string>, amr: string,
          outcomes: map<string, Outcome>, st: Settings)
    requires amr in current && amr !in front && forall a :: a in front ==> a in current
    requires PassFacts(g, last, current, front, outcomes, st)
    ensures forall a :: a in front + [amr] ==> a in current
    ensures Members(front + [amr]) == Members(front) + {amr}
    ensures var h := PassEffect(g, last, current, front, outcomes, st).0;
            PassEffect(g, last, current, front + [amr], outcomes, st)
            == (VisitEffect(h, last, current, amr, outcomes, st), LastAfter(last, current, Members(front + [amr])))
  {
    hide *;
    PassUnfold(g, last, current, front, amr, outcomes, st);
    LastStep(last, current, front, amr);
    FactsLast(g, last, current, front, outcomes, st);
    VisitSame(PassEffect(g, last, current, front, outcomes, st).0, last, current, Members(front), amr, outcomes, st);
  }

  lemma FactsLast(g: Gateway, last: map<string, int>, current: map<string, int>, order: seq<string>,
          outcomes: map<string, Outcome>, st: Settings)
    requires forall a :: a in order ==> a in current
    requires PassFacts(g, last, current, order, outcomes, st)
    ensures Members(order) <= current.Keys
    ensures PassEffect(g, last, current, order, outcomes, st).1 == LastAfter(last, current, Members(order))
  {
    hide PlaceOf, PassEffect, FateOf, LastAfter;
  }

  lemma PassUnfold(g: Gateway, last: map<string, int>, current: map<string, int>, front: seq<string>, amr: string,
          outcomes: map<string, Outcome>, st: Settings)
    requires amr in current && forall a :: a in front ==> a in current
    ensures forall a :: a in front + [amr] ==> a in current
    ensures var (h, seen) := PassEffect(g, last, current, front, outcomes, st);
            PassEffect(g, last, current, front + [amr], outcomes, st)
            == (VisitEffect(h, seen, current, amr, outcomes, st), seen[amr := current[amr]])
  {
    hide VisitEffect;
    var order := front + [amr];
    assert order[..|order| - 1] == front && order[|order| - 1] == amr;
  }

  lemma LastStep(last: map<string, int>, current: map<string, int>, front: seq<string>, amr: string)
    requires amr in current && amr !in front && forall a :: a in front ==> a in current
    ensures Members(front) <= current.Keys && amr !in Members(front)
    ensures Members(front + [amr]) == Members(front) + {amr} <= current.Keys
    ensures LastAfter(last, current, Members(front))[amr := current[amr]]
         == LastAfter(last, current, Members(front + [amr]))
  {
    hide LastAfter;
    assert Members(front + [amr]) == Members(front) + {amr};
    LastOneMore(last, current, Members(front), amr);
  }

  lemma LastOneMore(last: map<string, int>, current: map<string, int>, visited: set<string>, amr: string)
    requires amr in current && visited <= current.Keys
    ensures LastAfter(last, current, visited)[amr := current[amr]] == LastAfter(last, current, visited + {amr})
  {
  }

  /** An AMR not visited yet still has its old last waypoint. */
  lemma VisitSame(g: Gateway, last: map<string, int>, current: map<string, int>, visited: set<string>, amr: string,
          outcomes: map<string, Outcome>, st: Settings)
    requires amr in current && amr !in visited && visited <= current.Keys
    ensures VisitEffect(g, LastAfter(last, current, visited), current, amr, outcomes, st)
         == VisitEffect(g, last, current, amr, outcomes, st)
  {
    hide BatchEffect;
  }

  lemma VisitFate(g: Gateway, last: map<string, int>, current: map<string, int>, front: seq<string>, amr: string,
          outcomes: map<string, Outcome>, st: Settings, f: int)
    requires amr in current && amr !in front && forall a :: a in front ==> a in current
    requires PassFacts(g, last, current, front, outcomes, st)
    ensures var h := PassEffect(g, last, current, front, outcomes, st).0;
            Entry0(VisitEffect(h, last, current, amr, outcomes, st), f)
            == FateOf(g, last, current, Members(front) + {amr}, outcomes, st, f)
  {
    hide PlaceOf, BatchEffect, RowAfter, PassEffect;
    var h := PassEffect(g, last, current, front, outcomes, st).0;
    var due := DuePlace(last, current, amr, st);
    assert Entry0(h, f) == FateOf(g, last, current, Members(front), outcomes, st, f);
    if due.Some? {
      var p, o := due.value, OutcomeOf(outcomes, amr);
      BatchIsLocal(h, p, o, st);
      Untouched(g, last, current, front, outcomes, st, p);
      if f in Matching(g, p) {
        BatchDependsOnPlace(g, h, p, o, st, f);
        RowAfterIs(h, p, o, st, f);
      } else {
        assert Entry0(BatchEffect(h, p, o, st), f) == Entry0(h, f);
      }
    }
  }

  lemma RowAfterIs(g: Gateway, p: Place, o: Outcome, st: Settings, f: int)
    ensures RowAfter(g, p, o, st, f) == Entry0(BatchEffect(g, p, o, st), f)
  {
  }

  /** Whatever order the AMRs are visited in, the pass leaves the same queue and the
      same last waypoints. */
  lemma OrderDoesNotMatter(g: Gateway, last: map<string, int>, current: map<string, int>, a: seq<string>,
          b: seq<string>, outcomes: map<string, Outcome>, st: Settings)
    requires Distinct(a) && Distinct(b) && (forall x :: x in a <==> x in b) && forall x :: x in a ==> x in current
    ensures PassEffect(g, last, current, a, outcomes, st) == PassEffect(g, last, current, b, outcomes, st)
  {
    hide PlaceOf, BatchEffect, RowAfter, PassEffect;
    PassClosed(g, last, current, a, outcomes, st);
    PassClosed(g, last, current, b, outcomes, st);
    var (h, seen) := PassEffect(g, last, current, a, outcomes, st);
    var (k, found) := PassEffect(g, last, current, b, outcomes, st);
    assert Members(a) == Members(b);
    assert seen == found;
    forall f ensures Entry0(h, f) == Entry0(k, f) {
      assert Entry0(h, f) == FateOf(g, last, current, Members(a), outcomes, st, f);
      assert Entry0(k, f) == FateOf(g, last, current, Members(b), outcomes, st, f);
    }
    assert h.queue == k.queue by {
      forall f ensures f in h.queue <==> f in k.queue { assert Entry0(h, f) == Entry0(k, f); }
      forall f | f in h.queue ensures h.queue[f] == k.queue[f] { assert Entry0(h, f) == Entry0(k, f); }
    }
  }

  // ----- a whole poll -----

  ghost predicate Visits(order: seq<string>, current: map<string, int>) {
    Distinct(order) && forall a :: a in order <==> a in current
  }

  /** A batch row by row. A sent one removes what it claimed; a failed one removes what
      was out of attempts and got its dead letter, and counts an attempt on the rest. If
      it claimed as much as fits and removed something, all else at the place goes too. */
  lemma BatchRowByRow(g: Gateway, p: Place, o: Outcome, st: Settings, f: int)
    ensures var e, ids := Entry0(g, f), Claim(g, p, st.batch);
            RowAfter(g, p, o, st, f) ==
            if PlaceOf(g, f) != Some(p) then e
            else if f in ids then
              if o.sent || (e.value.attempts + 1 > st.maxAttempts && f in o.dlq) then None
              else if |ids| == st.batch && exists c :: c in ids && GivenUp(g, o, st, c) then None
              else Some(Entry(e.value.dustId, e.value.enqueuedAt, e.value.attempts + 1))
            else if |ids| == st.batch && exists c :: c in ids && (o.sent || GivenUp(g, o, st, c)) then None
            else e
  {
    hide PlaceOf, Claim;
    var ids := Claim(g, p, st.batch);
    assert forall c :: c in ids ==> c in Matching(g, p);
    assert f in Matching(g, p) <==> f in g.queue && PlaceOf(g, f) == Some(p);
    assert PlaceOf(g, f) == Some(p) ==> f in g.queue;
    ChangedRows(g.queue, ClearedBy(g, p, o, st) + PurgedBy(g, p, o, st),
                ClaimedIds(g, p, st) - ClearedBy(g, p, o, st), f);
    if c :| c in ids && (o.sent || GivenUp(g, o, st, c)) {
      assert c in ClearedBy(g, p, o, st);
    }
  }

  /** The failed row was out of attempts and its dead letter was written. */
  predicate GivenUp(g: Gateway, o: Outcome, st: Settings, f: int) {
    f in g.queue && g.queue[f].attempts + 1 > st.maxAttempts && f in o.dlq
  }

  /** A sent batch empties its place, whether or not there were more rows than fit. */
  lemma SentEmpties(g: Gateway, p: Place, o: Outcome, st: Settings, f: int)
    requires o.sent && st.batch > 0 && f in Matching(g, p)
    ensures RowAfter(g, p, o, st, f) == None
  {
    hide PlaceOf, InOrder;
    var all := InOrder(g.queue, Matching(g, p));
    if |all| <= st.batch {
      ClaimAll(g, p, st.batch);
    } else {
      assert all[0] in Claim(g, p, st.batch);
    }
  }

  /** The row lies at the place its AMR has moved away from. */
  predicate IsDue(g: Gateway, last: map<string, int>, current: map<string, int>, st: Settings, f: int) {
    PlaceOf(g, f).Some? &&
    var (amr, waypoint) := (PlaceOf(g, f).value.amr, PlaceOf(g, f).value.waypoint);
    amr in current && current[amr] != waypoint && waypoint == if amr in last then last[amr] else st.init
  }

  /** When every batch is sent and recorded, the poll removes exactly the rows of the
      place each moved AMR came from. */
  lemma ExactEffect(g: Gateway, last: map<string, int>, order: seq<string>, outcomes: map<string, Outcome>,
          st: Settings)
    requires st.batch > 0 && Visits(order, CurrentWaypoints(g)) && forall a :: a in order ==>
      OutcomeOf(outcomes, a).sent
    ensures var current := CurrentWaypoints(g);
            PassEffect(g, last, current, order, outcomes, st).0.queue
            == map f | f in g.queue && !IsDue(g, last, current, st, f) :: g.queue[f]
  {
    hide PlaceOf, PassEffect, CurrentWaypoints, IsDue;
    var current := CurrentWaypoints(g);
    var h := PassEffect(g, last, current, order, outcomes, st).0;
    var kept := map f | f in g.queue && !IsDue(g, last, current, st, f) :: g.queue[f];
    forall f ensures Entry0(h, f) == if f in kept then Some(kept[f]) else None {
      ExactRow(g, last, order, outcomes, st, f);
    }
    SameEntries(h.queue, kept, h);
  }

  lemma ExactRow(g: Gateway, last: map<string, int>, order: seq<string>, outcomes: map<string, Outcome>, st: Settings,
          f: int)
    requires st.batch > 0 && Visits(order, CurrentWaypoints(g)) && forall a :: a in order ==>
      OutcomeOf(outcomes, a).sent
    ensures var current := CurrentWaypoints(g);
            Entry0(PassEffect(g, last, current, order, outcomes, st).0, f)
            == if IsDue(g, last, current, st, f) then None else Entry0(g, f)
  {
    hide PlaceOf, BatchEffect, RowAfter, PassEffect, CurrentWaypoints;
    var current := CurrentWaypoints(g);
    PassClosed(g, last, current, order, outcomes, st);
    var h := PassEffect(g, last, current, order, outcomes, st).0;
    assert Entry0(h, f) == FateOf(g, last, current, Members(order), outcomes, st, f);
    if IsDue(g, last, current, st, f) {
      var place := PlaceOf(g, f).value;
      SentEmpties(g, place, OutcomeOf(outcomes, place.amr), st, f);
    }
  }

  lemma SameEntries(q: map<int, Entry>, r: map<int, Entry>, h: Gateway)
    requires h.queue == q && forall f :: Entry0(h, f) == if f in r then Some(r[f]) else None
    ensures q == r
  {
    forall f ensures f in q <==> f in r { assert Entry0(h, f) == if f in r then Some(r[f]) else None; }
    forall f | f in q ensures q[f] == r[f] { assert Entry0(h, f) == if f in r then Some(r[f]) else None; }
  }

  /** However its batches went, the poll keeps each AMR's newest row as it was. */
  lemma NewestSurvives(g: Gateway, last: map<string, int>, order: seq<string>, outcomes: map<string, Outcome>,
          st: Settings, amr: string)
    requires Visits(order, CurrentWaypoints(g)) && amr in Amrs(g)
    ensures OfAmr(g, amr) != {}
    ensures var newest := Latest(g.queue, OfAmr(g, amr));
            Entry0(PassEffect(g, last, CurrentWaypoints(g), order, outcomes, st).0, newest) == Some(g.queue[newest])
  {
    AmrHasRow(g, amr);
    var current, newest := CurrentWaypoints(g), Latest(g.queue, OfAmr(g, amr));
    hide PlaceOf, BatchEffect, RowAfter, PassEffect, Claim;
    PassClosed(g, last, current, order, outcomes, st);
    var h := PassEffect(g, last, current, order, outcomes, st).0;
    assert Entry0(h, newest) == FateOf(g, last, current, Members(order), outcomes, st, newest);
    assert current[amr] == PlaceOf(g, newest).value.waypoint;
  }

  /** Hence the current waypoints are the same after the poll. */
  lemma WaypointsStay(g: Gateway, last: map<string, int>, order: seq<string>, outcomes: map<string, Outcome>,
          st: Settings)
    requires Visits(order, CurrentWaypoints(g))
    ensures CurrentWaypoints(PassEffect(g, last, CurrentWaypoints(g), order, outcomes, st).0) == CurrentWaypoints(g)
  {
    hide PlaceOf, BatchEffect, RowAfter, PassEffect, Claim, NewestWaypoint;
    var current := CurrentWaypoints(g);
    var h := PassEffect(g, last, current, order, outcomes, st).0;
    PassClosed(g, last, current, order, outcomes, st);
    forall amr ensures amr in Amrs(h) <==> amr in Amrs(g) {
      if amr in Amrs(g) {
        NewestSurvives(g, last, order, outcomes, st, amr);
        assert Latest(g.queue, OfAmr(g, amr)) in h.queue;
      }
    }
    forall amr | amr in Amrs(g) ensures NewestWaypoint(h, amr) == NewestWaypoint(g, amr) {
      NewestStays(g, h, last, order, outcomes, st, amr);
    }
    assert Amrs(h) == Amrs(g);
  }

  lemma NewestStays(g: Gateway, h: Gateway, last: map<string, int>, order: seq<string>, outcomes: map<string, Outcome>,
          st: Settings, amr: string)
    requires Visits(order, CurrentWaypoints(g)) && h == PassEffect(g, last, CurrentWaypoints(g), order, outcomes, st).0
    requires amr in Amrs(g) && amr in Amrs(h)
    ensures NewestWaypoint(h, amr) == NewestWaypoint(g, amr)
  {
    hide PlaceOf, BatchEffect, RowAfter, PassEffect, Claim;
    PassClosed(g, last, CurrentWaypoints(g), order, outcomes, st);
    NewestSurvives(g, last, order, outcomes, st, amr);
    AmrHasRow(g, amr);
    AmrHasRow(h, amr);
    var f, e := Latest(g.queue, OfAmr(g, amr)), Latest(h.queue, OfAmr(h, amr));
    assert f in OfAmr(h, amr) && e in OfAmr(g, amr);
    assert f == e;
  }

  /** A second poll with no arrivals in between changes nothing, even if batches of
      the first one failed: the AMRs count as having been there. */
  lemma SecondPollIdle(g: Gateway, last: map<string, int>, order: seq<string>, outcomes: map<string, Outcome>,
          order': seq<string>, outcomes': map<string, Outcome>, st: Settings)
    requires Visits(order, CurrentWaypoints(g)) && Visits(order', CurrentWaypoints(g))
    ensures var (h, seen) := PassEffect(g, last, CurrentWaypoints(g), order, outcomes, st);
            && CurrentWaypoints(h) == CurrentWaypoints(g)
            && PassEffect(h, seen, CurrentWaypoints(h), order', outcomes', st) == (h, seen)
  {
    hide PlaceOf, BatchEffect, RowAfter, PassEffect, Claim, NewestWaypoint;
    var current := CurrentWaypoints(g);
    WaypointsStay(g, last, order, outcomes, st);
    PassClosed(g, last, current, order, outcomes, st);
    var (h, seen) := PassEffect(g, last, current, order, outcomes, st);
    PassIdle(h, seen, current, order', outcomes', st);
  }

  lemma {:induction false} PassIdle(g: Gateway, last: map<string, int>, current: map<string, int>, order: seq<string>,
          outcomes: map<string, Outcome>, st: Settings)
    requires forall a :: a in order ==> a in current && a in last && last[a] == current[a]
    ensures PassEffect(g, last, current, order, outcomes, st) == (g, last)
    decreases |order|
  {
    if order != [] {
      PassIdle(g, last, current, order[..|order| - 1], outcomes, st);
      assert last[order[|order| - 1] := current[order[|order| - 1]]] == last;
    }
  }
}
