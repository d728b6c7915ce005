/** The transfer queue in the gateway database, joined to its source tables, and the
    queries that read and change it. */
module TransferQueue {
  import opened Wrappers

  /** A queue row. It keeps the id of the dust measurement it was paired with. */
  datatype Entry = Entry(dustId: Option<int>, enqueuedAt: int, attempts: nat)

  datatype Frame = Frame(amr: Option<string>, receivedAt: Option<int>)

  datatype Dust = Dust(value: Option<real>, waypoint: Option<int>)

  /** The queue by frame id, and the source tables, whose rows may disappear. */
  datatype Gateway = Gateway(queue: map<int, Entry>, frames: map<int, Frame>, dusts: map<int, Dust>)

  /** What a batch belongs to. */
  datatype Place = Place(amr: string, waypoint: int)

  /** A claimed row joined to its sources. */
  datatype Row = Row(frameId: int, attempts: nat, dustId: int, dustValue: Option<real>, receivedAt: Option<int>)

  /** Where the joins put a queue row; nowhere if a source is missing or unset. */
  function PlaceOf(g: Gateway, f: int): (p: Option<Place>)
    ensures p.Some? ==> f in g.queue && f in g.frames && g.queue[f].dustId.Some? && g.queue[f].dustId.value in g.dusts
  {
    if f in g.queue && f in g.frames && g.queue[f].dustId.Some? && g.queue[f].dustId.value in g.dusts then
      var amr, waypoint := g.frames[f].amr, g.dusts[g.queue[f].dustId.value].waypoint;
      if amr.Some? && waypoint.Some? then Some(Place(amr.value, waypoint.value)) else None
    else None
  }

  /** The joins in terms of the tables: the queue row's own dust id, the frame's AMR, the
      measurement's waypoint. */
  lemma PlaceIs(g: Gateway, f: int, amr: string, waypoint: int)
    ensures PlaceOf(g, f) == Some(Place(amr, waypoint)) <==>
      && f in g.queue && f in g.frames && g.frames[f].amr == Some(amr)
      && exists d :: d in g.dusts && g.queue[f].dustId == Some(d) && g.dusts[d].waypoint == Some(waypoint)
  {
    if PlaceOf(g, f) == Some(Place(amr, waypoint)) {
      var d := g.queue[f].dustId.value;
      assert d in g.dusts && g.queue[f].dustId == Some(d) && g.dusts[d].waypoint == Some(waypoint);
    }
  }

  function RowOf(g: Gateway, f: int): Row
    requires PlaceOf(g, f).Some?
  {
    var id := g.queue[f].dustId.value;
    Row(f, g.queue[f].attempts, id, g.dusts[id].value, g.frames[f].receivedAt)
  }

  /** A claimed row has its own attempts, and value and times of its sources. */
  lemma RowIs(g: Gateway, f: int, d: int)
    requires PlaceOf(g, f).Some? && g.queue[f].dustId == Some(d)
    ensures var r := RowOf(g, f);
            && r.frameId == f && r.attempts == g.queue[f].attempts && r.dustId == d
            && d in g.dusts && r.dustValue == g.dusts[d].value && r.receivedAt == g.frames[f].receivedAt
  {
  }

  function Matching(g: Gateway, p: Place): (ids: set<int>)
    ensures ids <= g.queue.Keys
  {
    set f | f in g.queue && PlaceOf(g, f) == Some(p)
  }

  // ----- order of enqueueing -----

  /** Older first; frames enqueued at the same instant go by id. */
  predicate Before(q: map<int, Entry>, a: int, b: int)
    requires a in q && b in q
  {
    q[a].enqueuedAt < q[b].enqueuedAt || (q[a].enqueuedAt == q[b].enqueuedAt && a < b)
  }

  predicate IsEarliest(q: map<int, Entry>, ids: set<int>, f: int)
    requires ids <= q.Keys
  {
    f in ids && forall g :: g in ids && g != f ==> Before(q, f, g)
  }

  lemma {:induction false} EarliestExists(q: map<int, Entry>, ids: set<int>)
    requires ids <= q.Keys && ids != {}
    ensures exists f :: IsEarliest(q, ids, f)
  {
    var f: int := PickOne(ids);
    var others := ids - {f};
    if others == {} {
      assert ids == {f};
      assert IsEarliest(q, ids, f);
    } else {
      EarliestExists(q, others);
      var e :| IsEarliest(q, others, e);
      var first := if Before(q, e, f) then e else f;
      forall g | g in ids && g != first ensures Before(q, first, g) {
        if g != f && g != e { assert Before(q, e, g); }
      }
      assert IsEarliest(q, ids, first);
    }
  }

  function Earliest(q: map<int, Entry>, ids: set<int>): (f: int)
    requires ids <= q.Keys && ids != {}
    ensures IsEarliest(q, ids, f)
  {
    EarliestExists(q, ids);
    var f :| f in ids && IsEarliest(q, ids, f);
    f
  }

  predicate IsLatest(q: map<int, Entry>, ids: set<int>, f: int)
    requires ids <= q.Keys
  {
    f in ids && forall g :: g in ids && g != f ==> Before(q, g, f)
  }

  lemma {:induction false} LatestExists(q: map<int, Entry>, ids: set<int>)
    requires ids <= q.Keys && ids != {}
    ensures exists f :: IsLatest(q, ids, f)
  {
    var f: int := PickOne(ids);
    var others := ids - {f};
    if others == {} {
      assert ids == {f};
      assert IsLatest(q, ids, f);
    } else {
      LatestExists(q, others);
      var e :| IsLatest(q, others, e);
      var last := if Before(q, f, e) then e else f;
      forall g | g in ids && g != last ensures Before(q, g, last) {
        if g != f && g != e { assert Before(q, g, e); }
      }
      assert IsLatest(q, ids, last);
    }
  }

  function Latest(q: map<int, Entry>, ids: set<int>): (f: int)
    requires ids <= q.Keys && ids != {}
    ensures IsLatest(q, ids, f)
  {
    LatestExists(q, ids);
    var f :| f in ids && IsLatest(q, ids, f);
    f
  }

  /** The ids in order of enqueueing. */
  function InOrder(q: map<int, Entry>, ids: set<int>): (s: seq<int>)
    requires ids <= q.Keys
    ensures |s| == |ids| && forall f :: f in s <==> f in ids
  {
    if ids == {} then [] else
    var f := Earliest(q, ids);
    [f] + InOrder(q, ids - {f})
  }

  /** Distinct rows in order of enqueueing. */
  ghost predicate Ordered(q: map<int, Entry>, s: seq<int>) {
    && (forall f :: f in s ==> f in q)
    && (forall i, j :: 0 <= i < j < |s| ==> Before(q, s[i], s[j]))
  }

  lemma {:induction false} InOrderSorted(q: map<int, Entry>, ids: set<int>)
    requires ids <= q.Keys
    ensures Ordered(q, InOrder(q, ids))
  {
    hide Before;
    if ids != {} {
      var f := Earliest(q, ids);
      InOrderSorted(q, ids - {f});
      var rest := InOrder(q, ids - {f});
      var s := [f] + rest;
      assert s == InOrder(q, ids);
      forall i, j | 0 <= i < j < |s| ensures Before(q, s[i], s[j]) {
        assert s[j] == rest[j - 1] && rest[j - 1] in ids - {f};
        if i > 0 { assert s[i] == rest[i - 1]; }
      }
    }
  }

  // ----- queries -----

  /** The oldest rows of the place, up to the limit. */
  function Claim(g: Gateway, p: Place, limit: nat): (ids: seq<int>)
    ensures forall f :: f in ids ==> f in Matching(g, p)
    ensures |ids| == if |Matching(g, p)| <= limit then |Matching(g, p)| else limit
  {
    var all := InOrder(g.queue, Matching(g, p));
    if |all| <= limit then all else all[..limit]
  }

  /** Claimed rows come oldest first, equally old ones by frame id, and no row left behind
      should have come before one of them. */
  lemma ClaimOldest(g: Gateway, p: Place, limit: nat)
    ensures var ids, q := Claim(g, p, limit), g.queue;
            && (forall i, j :: 0 <= i < j < |ids| ==>
                  q[ids[i]].enqueuedAt < q[ids[j]].enqueuedAt
                  || (q[ids[i]].enqueuedAt == q[ids[j]].enqueuedAt && ids[i] < ids[j]))
            && (forall f, h :: f in ids && h in q && PlaceOf(g, h) == Some(p) && h !in ids ==>
                  q[f].enqueuedAt < q[h].enqueuedAt || (q[f].enqueuedAt == q[h].enqueuedAt && f < h))
  {
    ClaimInOrder(g, p, limit);
    hide PlaceOf, InOrder, Claim;
    var ids := Claim(g, p, limit);
    assert forall i, j :: 0 <= i < j < |ids| ==> Before(g.queue, ids[i], ids[j]);
  }

  lemma ClaimInOrder(g: Gateway, p: Place, limit: nat)
    ensures var ids := Claim(g, p, limit);
            && Ordered(g.queue, ids)
            && (forall f, h :: f in ids && h in Matching(g, p) && h !in ids ==> Before(g.queue, f, h))
  {
    hide PlaceOf, InOrder, Before;
    var all, ids := InOrder(g.queue, Matching(g, p)), Claim(g, p, limit);
    InOrderSorted(g.queue, Matching(g, p));
    assert forall i :: 0 <= i < |ids| ==> ids[i] == all[i];
    forall i, j | 0 <= i < j < |ids| ensures Before(g.queue, ids[i], ids[j]) {
      assert ids[i] == all[i] && ids[j] == all[j];
    }
    forall f, h | f in ids && h in Matching(g, p) && h !in ids ensures Before(g.queue, f, h) {
      var i :| 0 <= i < |ids| && ids[i] == f;
      assert h in all;
      var j :| 0 <= j < |all| && all[j] == h;
      assert all[i] == f;
    }
  }

  lemma ClaimAll(g: Gateway, p: Place, limit: nat)
    requires |Matching(g, p)| <= limit
    ensures forall f :: f in Matching(g, p) ==> f in Claim(g, p, limit)
  {
  }

  /** Rows of the AMR that have a place. */
  function OfAmr(g: Gateway, amr: string): (ids: set<int>)
    ensures ids <= g.queue.Keys
  {
    set f | f in g.queue && PlaceOf(g, f).Some? && PlaceOf(g, f).value.amr == amr
  }

  function Amrs(g: Gateway): set<string> {
    set f | f in g.queue && PlaceOf(g, f).Some? :: PlaceOf(g, f).value.amr
  }

  lemma AmrHasRow(g: Gateway, amr: string)
    ensures amr in Amrs(g) <==> OfAmr(g, amr) != {}
  {
    if OfAmr(g, amr) != {} {
      var f :| f in OfAmr(g, amr);
    }
    if amr in Amrs(g) {
      var f :| f in g.queue && PlaceOf(g, f).Some? && PlaceOf(g, f).value.amr == amr;
      assert f in OfAmr(g, amr);
    }
  }

  /** The waypoint of each AMR's newest row. */
  function CurrentWaypoints(g: Gateway): (current: map<string, int>)
    ensures current.Keys == Amrs(g)
  {
    map amr | amr in Amrs(g) :: NewestWaypoint(g, amr)
  }

  function NewestWaypoint(g: Gateway, amr: string): int
    requires amr in Amrs(g)
  {
    AmrHasRow(g, amr);
    PlaceOf(g, Latest(g.queue, OfAmr(g, amr))).value.waypoint
  }

  function Bumped(e: Entry): Entry {
    e.(attempts := e.attempts + 1)
  }

  /** The queue after a transaction that removed some rows and counted a failed
      attempt on others. */
  function Changed(q: map<int, Entry>, removed: set<int>, bumped: set<int>): (q': map<int, Entry>)
    ensures q'.Keys == q.Keys - removed
  {
    map f | f in q.Keys - removed :: if f in bumped then Bumped(q[f]) else q[f]
  }

  /** Rows older than the limit are swept, whatever they are. */
  function Stale(q: map<int, Entry>, now: int, maxAge: int): set<int> {
    set f | f in q && q[f].enqueuedAt < now - maxAge
  }

  /** The current waypoint of an AMR is that of its row enqueued last; of rows enqueued
      together, of the one with the highest frame id. */
  lemma CurrentIsNewest(g: Gateway, amr: string)
    ensures amr in CurrentWaypoints(g) <==> exists f :: PlaceOf(g, f).Some? && PlaceOf(g, f).value.amr == amr
    ensures amr in CurrentWaypoints(g) ==> exists f ::
      && f in g.queue && PlaceOf(g, f) == Some(Place(amr, CurrentWaypoints(g)[amr]))
      && forall h :: PlaceOf(g, h).Some? && PlaceOf(g, h).value.amr == amr && h != f ==>
           g.queue[h].enqueuedAt < g.queue[f].enqueuedAt
           || (g.queue[h].enqueuedAt == g.queue[f].enqueuedAt && h < f)
  {
    AmrHasRow(g, amr);
    if amr in CurrentWaypoints(g) {
      var f := Latest(g.queue, OfAmr(g, amr));
      assert f in OfAmr(g, amr);
      hide PlaceOf;
      assert PlaceOf(g, f) == Some(Place(amr, CurrentWaypoints(g)[amr]));
      forall h | PlaceOf(g, h).Some? && PlaceOf(g, h).value.amr == amr && h != f ensures Before(g.queue, h, f) {
        assert h in OfAmr(g, amr) by { PlaceQueued(g, h); }
      }
    }
  }

  lemma PlaceQueued(g: Gateway, f: int)
    requires PlaceOf(g, f).Some?
    ensures f in g.queue
  {
  }

  /** A row that stays keeps its source and its age; a failed attempt is counted once. */
  lemma ChangedRows(q: map<int, Entry>, removed: set<int>, bumped: set<int>, f: int)
    ensures f in Changed(q, removed, bumped) <==> f in q && f !in removed
    ensures f in q && f !in removed ==>
      var e := Changed(q, removed, bumped)[f];
      && e.dustId == q[f].dustId && e.enqueuedAt == q[f].enqueuedAt
      && e.attempts == q[f].attempts + if f in bumped then 1 else 0
  {
  }

  /** Removing rows and counting attempts moves no other row to another place. */
  lemma ChangedPlaces(g: Gateway, removed: set<int>, bumped: set<int>, f: int)
    ensures PlaceOf(g.(queue := Changed(g.queue, removed, bumped)), f) == if f in removed then None else PlaceOf(g, f)
  {
  }

  /** The trigger: a paired frame enters the queue if its measurement has a waypoint
      and it is not queued yet. */
  function Enqueued(g: Gateway, f: int, dustId: int, now: int): Gateway {
    if dustId in g.dusts && g.dusts[dustId].waypoint.Some? && f !in g.queue
    then g.(queue := g.queue[f := Entry(Some(dustId), now, 0)])
    else g
  }

  // ----- the representative row -----

  /** A missing value counts as minus infinity. */
  predicate Less(a: Option<real>, b: Option<real>) {
    b.Some? && (a.None? || a.value < b.value)
  }

  /** The row with the largest dust value; the first of them if there are several. */
  function Representative(rows: seq<Row>): (r: Row)
    requires rows != []
    ensures r in rows
  {
    if |rows| == 1 then rows[0] else
    var r := Representative(rows[..|rows| - 1]);
    if Less(r.dustValue, rows[|rows| - 1].dustValue) then rows[|rows| - 1] else r
  }

  lemma {:induction false} RepresentativeIsMax(rows: seq<Row>) returns (k: nat)
    requires rows != []
    ensures k < |rows| && Representative(rows) == rows[k]
    ensures forall j :: 0 <= j < |rows| ==> !Less(rows[k].dustValue, rows[j].dustValue)
    ensures forall j :: 0 <= j < k ==> Less(rows[j].dustValue, rows[k].dustValue)
  {
    if |rows| == 1 {
      k := 0;
    } else {
      var front := rows[..|rows| - 1];
      k := RepresentativeIsMax(front);
      assert forall j :: 0 <= j < |front| ==> front[j] == rows[j];
      if Less(rows[k].dustValue, rows[|rows| - 1].dustValue) {
        k := |rows| - 1;
      }
    }
  }
}
