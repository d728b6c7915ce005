/** The batch consumer as a state machine: frames arrive, polls run one transaction
    per AMR that moved, old rows are swept, and the process may die anywhere. The
    gateway side of a transaction shows at its commit; what it writes to the decision
    database shows at once and is never rolled back. */
module TransferMachine {
  import opened Wrappers
  import opened TransferQueue
  import opened DecisionProducer

  /** What was worked on when a frame left: the place, the gateway as it was when its
      rows were claimed, and the rows. */
  datatype Batch = Batch(place: Place, claimed: Gateway, rows: seq<Row>)

  /** Why a frame left the queue. Discarding notes the gateway as the purge saw it and the
      rows of the batch that were cleared before. */
  datatype Cause =
    | Processed(batch: Batch)
    | DeadLettered(batch: Batch)
    | Discarded(batch: Batch, seen: Gateway, cleared: set<int>)
    | Swept(now: int)
    | Cleared

  datatype Event = Entered(at: int) | Left(cause: Cause)

  datatype Stage = Claimed | Deleting | Failing(done: nat) | Closing

  /** The transaction of one AMR: the rows claimed, the rows it has deleted so far, and the
      gateway as it was when it claimed and when it purged. */
  datatype Tx = Tx(place: Place, current: int, rows: seq<Row>, stage: Stage, processed: bool, cleared: set<int>,
      purged: set<int>, claimed: Gateway, seen: Gateway)

  datatype Settings = Settings(batch: nat, maxAttempts: nat, init: int, maxAge: int)

  /** `refusals` counts the dead-letter writes that raised, per frame. */
  datatype Machine = Machine(
    gw: Gateway, dec: Decisions, last: map<string, int>, todo: seq<(string, int)>, tx: Option<Tx>,
    history: map<int, seq<Event>>, refusals: map<int, nat>, settings: Settings)

  datatype Action =
    | Sources(frames: map<int, Frame>, dusts: map<int, Dust>)  // the source tables change in any way
    | Enqueue(frameId: int, dustId: int, now: int)
    | Poll(todo: seq<(string, int)>)       // read the current waypoints
    | Visit                                // the next AMR: claim its previous batch if it has moved
    | SendFails                            // the REST call, or something before the insert, raised
    | Insert(scores: Scores, th: Thresholds, now: int, ok: bool)
    | DeleteRows
    | FailRow(applied: bool, ok: bool)     // count a failed attempt, or dead-letter the row
    | Purge                                // discard the overflow if there was progress
    | Commit
    | CommitUnseen                         // the commit took effect and raised all the same: the poll ends
    | Abort                                // the gateway raised: the transaction is rolled back, the poll ends
    | Sweep(now: int)
    | Restart(clear: bool)

  function FramesOf(rows: seq<Row>): (ids: set<int>)
  {
    set r | r in rows :: r.frameId
  }

  function RowsOf(g: Gateway, ids: seq<int>): (rows: seq<Row>)
    requires forall f :: f in ids ==> PlaceOf(g, f).Some?
    ensures |rows| == |ids| && forall i :: 0 <= i < |ids| ==> rows[i] == RowOf(g, ids[i])
  {
    if ids == [] then [] else [RowOf(g, ids[0])] + RowsOf(g, ids[1..])
  }

  function Previous(m: Machine, amr: string): int {
    if amr in m.last then m.last[amr] else m.settings.init
  }

  function Past(history: map<int, seq<Event>>, f: int): seq<Event> {
    if f in history then history[f] else []
  }

  function Logged(history: map<int, seq<Event>>, ids: set<int>, e: Event): map<int, seq<Event>> {
    map f | f in history.Keys + ids :: if f in ids then Past(history, f) + [e] else history[f]
  }

  function Refusals(m: Machine, f: int): nat {
    if f in m.refusals then m.refusals[f] else 0
  }

  predicate Idle(m: Machine) {
    m.tx.None? && m.todo == []
  }

  predicate InTx(m: Machine, stage: Stage) {
    m.tx.Some? && m.tx.value.stage == stage
  }

  predicate AtRow(m: Machine) {
    m.tx.Some? && m.tx.value.stage.Failing? && m.tx.value.stage.done < |m.tx.value.rows|
  }

  predicate Exhausted(m: Machine, r: Row) {
    r.attempts + 1 > m.settings.maxAttempts
  }

  /** The AMRs and their waypoints, each once, in any order. */
  predicate Lists(todo: seq<(string, int)>, current: map<string, int>) {
    && |todo| == |current|
    && (forall k :: 0 <= k < |todo| ==> todo[k].0 in current && current[todo[k].0] == todo[k].1)
    && (forall j, k :: 0 <= j < k < |todo| ==> todo[j].0 != todo[k].0)
  }

  predicate Enabled(m: Machine, a: Action) {
    match a
    case Sources(_, _) => true
    case Enqueue(_, _, _) => true
    case Poll(todo) => Idle(m) && Lists(todo, CurrentWaypoints(m.gw))
    case Visit => m.tx.None? && m.todo != []
    case SendFails => InTx(m, Claimed) && m.tx.value.rows != []
    case Insert(_, _, _, _) => InTx(m, Claimed) && m.tx.value.rows != []
    case DeleteRows => InTx(m, Deleting)
    case FailRow(applied, ok) => AtRow(m) && (ok ==> applied)
    case Purge =>
      && m.tx.Some? && !m.tx.value.stage.Closing?
      && (m.tx.value.rows == [] || m.tx.value.processed || m.tx.value.stage == Failing(|m.tx.value.rows|))
    case Commit => InTx(m, Closing)
    case CommitUnseen => InTx(m, Closing)
    case Abort => m.tx.Some?
    case Sweep(_) => Idle(m) && m.settings.maxAge > 0
    case Restart(_) => true
  }

  function Opened(m: Machine, amr: string, current: int): Tx {
    var p := Place(amr, Previous(m, amr));
    Tx(p, current, RowsOf(m.gw, Claim(m.gw, p, m.settings.batch)), Claimed, false, {}, {}, m.gw, m.gw)
  }

  function AfterFailRow(m: Machine, applied: bool, ok: bool): Machine
    requires AtRow(m)
  {
    var tx := m.tx.value;
    var r, next := tx.rows[tx.stage.done], Failing(tx.stage.done + 1);
    if !Exhausted(m, r) then m.(tx := Some(tx.(stage := next))) else
    var dec := if applied then m.dec.(dlq := m.dec.dlq[r.frameId := r.attempts + 1]) else m.dec;
    if ok then m.(dec := dec, tx := Some(tx.(stage := next, cleared := tx.cleared + {r.frameId})))
    else m.(dec := dec, tx := Some(tx.(stage := next)), refusals := m.refusals[r.frameId := Refusals(m, r.frameId) + 1])
  }

  /** The rows on which the transaction counts a failed attempt. */
  function BumpedBy(tx: Tx): set<int> {
    FramesOf(tx.rows) - tx.cleared
  }

  function BatchOf(tx: Tx): Batch {
    Batch(tx.place, tx.claimed, tx.rows)
  }

  function CauseOf(tx: Tx): Cause {
    if tx.processed then Processed(BatchOf(tx)) else DeadLettered(BatchOf(tx))
  }

  function AfterCommit(m: Machine): Machine
    requires InTx(m, Closing)
  {
    var tx := m.tx.value;
    m.(gw := m.gw.(queue := Changed(m.gw.queue, tx.cleared + tx.purged, BumpedBy(tx))),
       last := m.last[tx.place.amr := tx.current],
       tx := None,
       history := Logged(Logged(m.history, tx.cleared, Left(CauseOf(tx))), tx.purged,
                         Left(Discarded(BatchOf(tx), tx.seen, tx.cleared))))
  }

  function Next(m: Machine, a: Action): Machine
    requires Enabled(m, a)
  {
    match a
    case Sources(frames, dusts) => m.(gw := m.gw.(frames := frames, dusts := dusts))
    case Enqueue(f, dustId, now) =>
      var gw := Enqueued(m.gw, f, dustId, now);
      m.(gw := gw, history := Logged(m.history, gw.queue.Keys - m.gw.queue.Keys, Entered(now)))
    case Poll(todo) => m.(todo := todo)
    case Visit =>
      var (amr, current) := m.todo[0];
      if current == Previous(m, amr) then m.(last := m.last[amr := current], todo := m.todo[1..])
      else m.(todo := m.todo[1..], tx := Some(Opened(m, amr, current)))
    case SendFails => m.(tx := Some(m.tx.value.(stage := Failing(0))))
    case Insert(scores, th, now, ok) =>
      var tx := m.tx.value;
      m.(dec := m.dec.(records := Inserted(m.dec.records, DecisionFor(tx.place, tx.rows, scores, th, now))),
         tx := Some(tx.(stage := if ok then Deleting else Failing(0))))
    case DeleteRows =>
      m.(tx := Some(m.tx.value.(processed := true, cleared := FramesOf(m.tx.value.rows))))
    case FailRow(applied, ok) => AfterFailRow(m, applied, ok)
    case Purge =>
      var tx := m.tx.value;
      m.(tx := Some(tx.(stage := Closing, seen := m.gw,
                        purged := if |tx.rows| == m.settings.batch && tx.cleared != {}
                                  then Matching(m.gw, tx.place) - tx.cleared else {})))
    case Commit => AfterCommit(m)
    case CommitUnseen => AfterCommit(m).(last := m.last, todo := [])
    case Abort => m.(tx := None, todo := [])
    case Sweep(now) =>
      var stale := Stale(m.gw.queue, now, m.settings.maxAge);
      m.(gw := m.gw.(queue := m.gw.queue - stale), history := Logged(m.history, stale, Left(Swept(now))))
    case Restart(clear) =>
      var gone := if clear then m.gw.queue.Keys else {};
      m.(gw := m.gw.(queue := m.gw.queue - gone), history := Logged(m.history, gone, Left(Cleared)),
         tx := None, todo := [], last := map[])
  }

  predicate IsRun(m: Machine, actions: seq<Action>)
    decreases |actions|
  {
    actions == [] || (Enabled(m, actions[0]) && IsRun(Next(m, actions[0]), actions[1..]))
  }

  function Run(m: Machine, actions: seq<Action>): Machine
    requires IsRun(m, actions)
    decreases |actions|
  {
    if actions == [] then m else Run(Next(m, actions[0]), actions[1..])
  }

  // ----- the invariant -----

  /** Entering and leaving take turns, entering first. */
  ghost predicate Alternates(past: seq<Event>) {
    forall k :: 0 <= k < |past| ==> (past[k].Entered? <==> k % 2 == 0)
  }

  predicate Present(past: seq<Event>) {
    |past| % 2 == 1
  }

  /** The batch's rows are the oldest of its place, as many as a batch may hold. */
  ghost predicate ClaimedRight(b: Batch, settings: Settings) {
    var ids := Claim(b.claimed, b.place, settings.batch);
    b.rows == RowsOf(b.claimed, ids)
  }

  /** The row left the queue with this batch: it was sent, or dead-lettered. */
  ghost predicate LeftWith(history: map<int, seq<Event>>, f: int, b: Batch) {
    Left(Processed(b)) in Past(history, f) || Left(DeadLettered(b)) in Past(history, f)
  }

  /** What must be true of the databases and the histories for a frame to have left for
      this cause; `before` is the event before it. */
  ghost predicate Justified(dec: Decisions, settings: Settings, history: map<int, seq<Event>>, f: int, before: Event,
          cause: Cause) {
    match cause
    case Processed(b) =>
      ClaimedRight(b, settings) && f in FramesOf(b.rows) && HasRecord(dec.records, Representative(b.rows).dustId)
    case DeadLettered(b) =>
      && ClaimedRight(b, settings)
      && f in dec.dlq && exists r :: r in b.rows && r.frameId == f && r.attempts + 1 > settings.maxAttempts
    case Discarded(b, seen, cleared) =>
      && ClaimedRight(b, settings) && |b.rows| == settings.batch
      && f in Matching(seen, b.place) && f !in cleared
      && cleared != {} && cleared <= FramesOf(b.rows) && forall c :: c in cleared ==> LeftWith(history, c, b)
    case Swept(now) => settings.maxAge > 0 && before.Entered? && before.at < now - settings.maxAge
    case Cleared => true
  }

  /** Entering and leaving take turns; who is in the queue entered when its row says; and
      whoever left had a reason. */
  ghost predicate FateOk(m: Machine, f: int) {
    var past := Past(m.history, f);
    && Alternates(past) && (f in m.gw.queue <==> Present(past))
    && (f in m.gw.queue ==> past[|past| - 1] == Entered(m.gw.queue[f].enqueuedAt))
    && forall k :: 0 < k < |past| && past[k].Left? ==>
         Justified(m.dec, m.settings, m.history, f, past[k - 1], past[k].cause)
  }

  ghost predicate FatesOk(m: Machine) {
    forall f :: FateOk(m, f)
  }

  ghost predicate AttemptsOk(m: Machine) {
    forall f :: f in m.gw.queue ==> m.gw.queue[f].attempts <= m.settings.maxAttempts + Refusals(m, f)
  }

  /** The rows are locked: they stay in the queue as they were claimed. */
  ghost predicate RowsLocked(g: Gateway, rows: seq<Row>) {
    && (forall i :: 0 <= i < |rows| ==>
          rows[i].frameId in g.queue && g.queue[rows[i].frameId].attempts == rows[i].attempts)
    && (forall i, j :: 0 <= i < j < |rows| ==> rows[i].frameId != rows[j].frameId)
  }

  /** Of the first `n` rows, those dead-lettered are cleared, and the others may be
      counted a failed attempt. */
  ghost predicate FailedSoFar(m: Machine, tx: Tx, n: nat) {
    && n <= |tx.rows|
    && (forall f :: f in tx.cleared ==>
          f in m.dec.dlq && exists i :: 0 <= i < n && tx.rows[i].frameId == f && Exhausted(m, tx.rows[i]))
    && (forall i :: 0 <= i < n && tx.rows[i].frameId !in tx.cleared ==>
          tx.rows[i].attempts + 1 <= m.settings.maxAttempts + Refusals(m, tx.rows[i].frameId))
  }

  ghost predicate TxOk(m: Machine, tx: Tx) {
    && RowsLocked(m.gw, tx.rows) && |tx.rows| <= m.settings.batch && ClaimedRight(BatchOf(tx), m.settings)
    && tx.purged <= m.gw.queue.Keys && tx.purged !! tx.cleared
    && (tx.purged != {} ==> |tx.rows| == m.settings.batch && tx.cleared != {})
    && tx.purged <= Matching(tx.seen, tx.place)
    && (tx.stage == Deleting || tx.processed ==>
          tx.rows != [] && HasRecord(m.dec.records, Representative(tx.rows).dustId))
    && (!tx.stage.Closing? ==> tx.purged == {})
    && (tx.processed ==> tx.cleared == FramesOf(tx.rows) && (tx.stage.Deleting? || tx.stage.Closing?))
    && (!tx.processed ==> match tx.stage
          case Claimed => tx.cleared == {}
          case Deleting => tx.cleared == {}
          case Failing(done) => FailedSoFar(m, tx, done)
          case Closing => FailedSoFar(m, tx, |tx.rows|))
  }

  ghost predicate Inv(m: Machine) {
    && FatesOk(m) && AttemptsOk(m) && UniqueDust(m.dec.records)
    && (m.tx.Some? ==> TxOk(m, m.tx.value))
  }

  lemma ClearedAreRows(m: Machine, tx: Tx)
    requires TxOk(m, tx)
    ensures tx.cleared <= FramesOf(tx.rows) && FramesOf(tx.rows) <= m.gw.queue.Keys
  {
    hide HasRecord, Representative;
    forall f | f in tx.cleared ensures f in FramesOf(tx.rows) {
      if !tx.processed {
        var i :| 0 <= i < |tx.rows| && tx.rows[i].frameId == f;
        assert tx.rows[i] in tx.rows;
      }
    }
  }

  // ----- keeping it -----

  /** The decision database and the histories only grow. */
  ghost predicate Grows(a: Decisions, b: Decisions) {
    a.records <= b.records && a.dlq.Keys <= b.dlq.Keys
  }

  ghost predicate Longer(a: map<int, seq<Event>>, b: map<int, seq<Event>>) {
    forall f :: Past(a, f) <= Past(b, f)
  }

  lemma StillHas(a: seq<Record>, b: seq<Record>, id: int)
    requires a <= b && HasRecord(a, id)
    ensures HasRecord(b, id)
  {
    var i :| 0 <= i < |a| && a[i].dustId == id;
    assert b[i] == a[i];
  }

  lemma StillJustified(a: Decisions, b: Decisions, settings: Settings, history: map<int, seq<Event>>,
          history': map<int, seq<Event>>, f: int, before: Event, cause: Cause)
    requires Grows(a, b) && Longer(history, history') && Justified(a, settings, history, f, before, cause)
    ensures Justified(b, settings, history', f, before, cause)
  {
    hide HasRecord, Representative, ClaimedRight, Matching, Past, FramesOf;
    match cause
    case Processed(batch) => StillHas(a.records, b.records, Representative(batch.rows).dustId);
    case Discarded(batch, _, cleared) =>
      forall c | c in cleared ensures LeftWith(history', c, batch) { assert Past(history, c) <= Past(history', c); }
    case _ =>
  }

  lemma FatesWithMore(m: Machine, m': Machine)
    requires FatesOk(m) && Grows(m.dec, m'.dec)
    requires m'.history == m.history && m'.gw.queue == m.gw.queue && m'.settings == m.settings
    ensures FatesOk(m')
  {
    hide Justified, Alternates, Present;
    forall f ensures FateOk(m', f) {
      assert FateOk(m, f);
      var past := Past(m.history, f);
      forall k | 0 < k < |past| && past[k].Left?
        ensures Justified(m'.dec, m'.settings, m'.history, f, past[k - 1], past[k].cause)
      {
        StillJustified(m.dec, m'.dec, m.settings, m.history, m'.history, f, past[k - 1], past[k].cause);
      }
    }
  }

  lemma LoggedPast(history: map<int, seq<Event>>, ids: set<int>, e: Event)
    ensures Longer(history, Logged(history, ids, e))
    ensures forall f ::
      Past(Logged(history, ids, e), f) == if f in ids then Past(history, f) + [e] else Past(history, f)
  {
  }

  /** Logging an event for some frames, all of which it fits; the others' rows keep the
      time at which they entered. */
  lemma FatesLogged(m: Machine, ids: set<int>, e: Event, queue: map<int, Entry>)
    requires FatesOk(m)
    requires forall f :: f in ids ==> (e.Entered? <==> f !in m.gw.queue)
    requires e.Left? ==> forall f :: f in ids && f in m.gw.queue ==>
      Justified(m.dec, m.settings, m.history, f, Entered(m.gw.queue[f].enqueuedAt), e.cause)
    requires queue.Keys == if e.Entered? then m.gw.queue.Keys + ids else m.gw.queue.Keys - ids
    requires forall f :: f in queue ==>
      queue[f].enqueuedAt == if f in m.gw.queue then m.gw.queue[f].enqueuedAt else if e.Entered? then e.at else 0
    ensures FatesOk(m.(gw := m.gw.(queue := queue), history := Logged(m.history, ids, e)))
  {
    hide Justified, Logged;
    var m' := m.(gw := m.gw.(queue := queue), history := Logged(m.history, ids, e));
    LoggedPast(m.history, ids, e);
    forall f ensures FateOk(m', f) {
      assert FateOk(m, f);
      FateLogged(m, m', f, ids, e);
    }
  }

  lemma FateLogged(m: Machine, m': Machine, f: int, ids: set<int>, e: Event)
    requires FateOk(m, f) && m'.dec == m.dec && m'.settings == m.settings && Longer(m.history, m'.history)
    requires Past(m'.history, f) == if f in ids then Past(m.history, f) + [e] else Past(m.history, f)
    requires f in ids ==> (e.Entered? <==> f !in m.gw.queue)
    requires f in ids && e.Left? && f in m.gw.queue ==>
      Justified(m.dec, m.settings, m.history, f, Entered(m.gw.queue[f].enqueuedAt), e.cause)
    requires f in m'.gw.queue <==> if f in ids then e.Entered? else f in m.gw.queue
    requires f in m'.gw.queue ==>
      m'.gw.queue[f].enqueuedAt == if f in m.gw.queue then m.gw.queue[f].enqueuedAt else if e.Entered? then e.at else 0
    ensures FateOk(m', f)
  {
    hide Justified, Longer, Past;
    var past, past' := Past(m.history, f), Past(m'.history, f);
    forall k | 0 < k < |past'| && past'[k].Left?
      ensures Justified(m'.dec, m'.settings, m'.history, f, past'[k - 1], past'[k].cause)
    {
      if k < |past| { assert past'[k] == past[k] && past'[k - 1] == past[k - 1]; }
      StillJustified(m.dec, m.dec, m.settings, m.history, m'.history, f, past'[k - 1], past'[k].cause);
    }
  }

  lemma SourcesKeep(m: Machine, frames: map<int, Frame>, dusts: map<int, Dust>)
    requires Inv(m)
    ensures Inv(m.(gw := m.gw.(frames := frames, dusts := dusts)))
  {
    hide HasRecord, Representative, UniqueDust, Justified, Alternates, Present;
    var m' := m.(gw := m.gw.(frames := frames, dusts := dusts));
    FatesWithMore(m, m');
    if m.tx.Some? { TxElsewhere(m, m', m.tx.value); }
  }

  /** The transaction is not disturbed by what happens to rows it has not claimed. */
  lemma TxElsewhere(m: Machine, m': Machine, tx: Tx)
    requires TxOk(m, tx) && m'.settings == m.settings && m'.refusals == m.refusals && m'.dec == m.dec
    requires m.gw.queue.Keys <= m'.gw.queue.Keys
    requires forall f :: f in m.gw.queue ==> m'.gw.queue[f] == m.gw.queue[f]
    ensures TxOk(m', tx)
  {
    hide ClaimedRight, Matching, HasRecord, Representative;
    assert forall n :: FailedSoFar(m, tx, n) ==> FailedSoFar(m', tx, n);
  }

  lemma EnqueueKeeps(m: Machine, f: int, dustId: int, now: int)
    requires Inv(m)
    ensures Inv(Next(m, Enqueue(f, dustId, now)))
    ensures Next(m, Enqueue(f, dustId, now)).gw.queue
         == if f !in m.gw.queue && dustId in m.gw.dusts && m.gw.dusts[dustId].waypoint != None
            then m.gw.queue[f := Entry(Some(dustId), now, 0)] else m.gw.queue
  {
    hide HasRecord, Representative, UniqueDust, FatesOk, Justified, TxOk;
    var m' := Next(m, Enqueue(f, dustId, now));
    assert m'.gw.queue.Keys == m.gw.queue.Keys + (m'.gw.queue.Keys - m.gw.queue.Keys);
    FatesLogged(m, m'.gw.queue.Keys - m.gw.queue.Keys, Entered(now), m'.gw.queue);
    if m.tx.Some? { TxElsewhere(m, m', m.tx.value); }
    FatesSources(m.(gw := m.gw.(queue := m'.gw.queue), history := m'.history), m');
  }

  lemma FatesSources(m: Machine, m': Machine)
    requires FatesOk(m) && m'.history == m.history && m'.gw.queue == m.gw.queue && m'.settings == m.settings
    requires m'.dec == m.dec
    ensures FatesOk(m')
  {
    hide Justified;
    FatesWithMore(m, m');
  }

  lemma VisitKeeps(m: Machine)
    requires Inv(m) && Enabled(m, Visit)
    ensures Inv(Next(m, Visit))
  {
    hide HasRecord, Representative, UniqueDust, FatesOk, Claim, PlaceOf, RowOf, RowsLocked;
    var m' := Next(m, Visit);
    assert FatesOk(m') by { FatesSources(m, m'); }
    if m'.tx.Some? {
      ClaimLocked(m.gw, m'.tx.value.place, m.settings.batch);
    }
  }

  lemma ClaimLocked(g: Gateway, p: Place, limit: nat)
    ensures var ids := Claim(g, p, limit);
            && (forall f :: f in ids ==> PlaceOf(g, f).Some?)
            && RowsLocked(g, RowsOf(g, ids)) && |RowsOf(g, ids)| <= limit
  {
    ClaimInOrder(g, p, limit);
    hide Claim;
    var ids := Claim(g, p, limit);
    var rows := RowsOf(g, ids);
    forall i, j | 0 <= i < j < |rows| ensures rows[i].frameId != rows[j].frameId {
      assert Before(g.queue, ids[i], ids[j]);
    }
  }

  lemma InsertKeeps(m: Machine, a: Action)
    requires Inv(m) && Enabled(m, a) && a.Insert?
    ensures Inv(Next(m, a)) && m.dec.records <= Next(m, a).dec.records
  {
    hide Inserted, HasRecord, UniqueDust, FatesOk, RowsLocked, Representative;
    var m', tx := Next(m, a), m.tx.value;
    var r := DecisionFor(tx.place, tx.rows, a.scores, a.th, a.now);
    InsertedFacts(m.dec.records, r);
    assert FatesOk(m') by { FatesWithMore(m, m'); }
    assert r.dustId == Representative(tx.rows).dustId;
  }

  lemma FailRowKeeps(m: Machine, applied: bool, ok: bool)
    requires Inv(m) && Enabled(m, FailRow(applied, ok))
    ensures Inv(Next(m, FailRow(applied, ok)))
    ensures var tx, dec := m.tx.value, Next(m, FailRow(applied, ok)).dec;
            var r := tx.rows[tx.stage.done];
            && dec.records == m.dec.records
            && dec.dlq == if applied && r.attempts + 1 > m.settings.maxAttempts
                          then m.dec.dlq[r.frameId := r.attempts + 1] else m.dec.dlq
  {
    hide ClaimedRight, Matching, HasRecord, UniqueDust, FatesOk, Representative;
    var m', tx := Next(m, FailRow(applied, ok)), m.tx.value;
    assert FatesOk(m') by { FatesWithMore(m, m'); }
    RowFails(m, applied, ok);
  }

  lemma RowFails(m: Machine, applied: bool, ok: bool)
    requires AtRow(m) && (ok ==> applied) && TxOk(m, m.tx.value) && AttemptsOk(m)
    ensures var m' := AfterFailRow(m, applied, ok); TxOk(m', m'.tx.value) && AttemptsOk(m')
  {
    hide ClaimedRight, Matching, HasRecord, Representative, FramesOf;
    var m', tx := AfterFailRow(m, applied, ok), m.tx.value;
    var n := tx.stage.done;
    assert tx.rows[n] in tx.rows;
    assert FailedSoFar(m, tx, n);
    OneFails(m, applied, ok);
  }

  lemma OneFails(m: Machine, applied: bool, ok: bool)
    requires AtRow(m) && (ok ==> applied) && AttemptsOk(m) && RowsLocked(m.gw, m.tx.value.rows)
    requires FailedSoFar(m, m.tx.value, m.tx.value.stage.done)
    ensures var m' := AfterFailRow(m, applied, ok); FailedSoFar(m', m'.tx.value, m'.tx.value.stage.done)
  {
    hide ClaimedRight, Matching, RowsLocked, AttemptsOk;
    var m', tx := AfterFailRow(m, applied, ok), m.tx.value;
    var n := tx.stage.done;
    LockedAttempts(m, n);
    forall f | f in m'.tx.value.cleared
      ensures f in m'.dec.dlq && exists i :: 0 <= i < n + 1 && tx.rows[i].frameId == f && Exhausted(m', tx.rows[i])
    {
      if f in tx.cleared {
        var i :| 0 <= i < n && tx.rows[i].frameId == f && Exhausted(m, tx.rows[i]);
      } else {
        assert tx.rows[n].frameId == f;
      }
    }
    forall i | 0 <= i < n + 1 && tx.rows[i].frameId !in m'.tx.value.cleared
      ensures tx.rows[i].attempts + 1 <= m.settings.maxAttempts + Refusals(m', tx.rows[i].frameId)
    {
      assert Refusals(m, tx.rows[i].frameId) <= Refusals(m', tx.rows[i].frameId);
    }
  }

  lemma LockedAttempts(m: Machine, n: nat)
    requires m.tx.Some? && n < |m.tx.value.rows| && AttemptsOk(m) && RowsLocked(m.gw, m.tx.value.rows)
    ensures var r := m.tx.value.rows[n]; r.attempts <= m.settings.maxAttempts + Refusals(m, r.frameId)
  {
  }

  lemma PurgeKeeps(m: Machine)
    requires Inv(m) && Enabled(m, Purge)
    ensures Inv(Next(m, Purge))
  {
    hide ClaimedRight, HasRecord, UniqueDust, FatesOk, Representative, RowsLocked, PlaceOf;
    var m', tx := Next(m, Purge), m.tx.value;
    assert FatesOk(m') by { FatesSources(m, m'); }
    ClearedAreRows(m, tx);
    assert tx.cleared != {} ==> tx.rows != [];
  }

  lemma DeleteKeeps(m: Machine)
    requires Inv(m) && Enabled(m, DeleteRows)
    ensures Inv(Next(m, DeleteRows))
  {
    hide HasRecord, UniqueDust, FatesOk, Representative, RowsLocked;
    var m' := Next(m, DeleteRows);
    assert FatesOk(m') by { FatesSources(m, m'); }
  }

  lemma CommitAttempts(m: Machine)
    requires Inv(m) && InTx(m, Closing)
    ensures AttemptsOk(AfterCommit(m))
  {
    hide ClaimedRight, Matching, Logged, HasRecord, Representative, FatesOk, UniqueDust;
    var tx, m' := m.tx.value, AfterCommit(m);
    forall f | f in m'.gw.queue ensures m'.gw.queue[f].attempts <= m.settings.maxAttempts + Refusals(m', f) {
      assert Refusals(m', f) == Refusals(m, f);
      if f in BumpedBy(tx) {
        var r :| r in tx.rows && r.frameId == f;
        var i :| 0 <= i < |tx.rows| && tx.rows[i] == r;
      }
    }
  }

  /** At the commit the cleared rows have their reason, and once that is logged the
      purged ones have theirs. */
  lemma CommitCauses(m: Machine, f: int, before: Event)
    requires Inv(m) && InTx(m, Closing)
    ensures var tx := m.tx.value;
            && (f in tx.cleared ==> Justified(m.dec, m.settings, m.history, f, before, CauseOf(tx)))
            && (f in tx.purged ==>
                  Justified(m.dec, m.settings, Logged(m.history, tx.cleared, Left(CauseOf(tx))), f, before,
                            Discarded(BatchOf(tx), tx.seen, tx.cleared)))
  {
    hide HasRecord, Representative, FatesOk, UniqueDust, RowsLocked, ClaimedRight, Matching, Logged, Past, AttemptsOk;
    var tx := m.tx.value;
    ClearedAreRows(m, tx);
    if f in tx.cleared && !tx.processed {
      var i :| 0 <= i < |tx.rows| && tx.rows[i].frameId == f && Exhausted(m, tx.rows[i]);
      assert tx.rows[i] in tx.rows;
    }
    LoggedPast(m.history, tx.cleared, Left(CauseOf(tx)));
  }

  lemma CommitKeeps(m: Machine)
    requires Inv(m) && InTx(m, Closing)
    ensures Inv(AfterCommit(m))
  {
    hide Justified, FatesOk, FailedSoFar, AttemptsOk, UniqueDust, HasRecord, RowsLocked, Logged, Representative,
        FramesOf;
    CommitAttempts(m);
    CommitFates(m);
  }

  lemma CommitFates(m: Machine)
    requires Inv(m) && InTx(m, Closing)
    ensures FatesOk(AfterCommit(m))
  {
    hide Justified, FatesOk, FailedSoFar, AttemptsOk, UniqueDust, HasRecord, RowsLocked, Logged, Representative,
        FramesOf, ClaimedRight, Matching;
    var tx, m' := m.tx.value, AfterCommit(m);
    ClearedAreRows(m, tx);
    var cause, over := CauseOf(tx), Discarded(BatchOf(tx), tx.seen, tx.cleared);
    forall f | f in tx.cleared && f in m.gw.queue
      ensures Justified(m.dec, m.settings, m.history, f, Entered(m.gw.queue[f].enqueuedAt), cause)
    {
      CommitCauses(m, f, Entered(m.gw.queue[f].enqueuedAt));
    }
    var some := m.gw.queue - tx.cleared;
    FatesLogged(m, tx.cleared, Left(cause), some);
    var m1 := m.(gw := m.gw.(queue := some), history := Logged(m.history, tx.cleared, Left(cause)));
    forall f | f in tx.purged && f in m1.gw.queue
      ensures Justified(m1.dec, m1.settings, m1.history, f, Entered(m1.gw.queue[f].enqueuedAt), over)
    {
      CommitCauses(m, f, Entered(m1.gw.queue[f].enqueuedAt));
    }
    FatesLogged(m1, tx.purged, Left(over), m'.gw.queue);
    FatesSources(m1.(gw := m1.gw.(queue := m'.gw.queue), history := Logged(m1.history, tx.purged, Left(over))), m');
  }

  lemma UnseenKeeps(m: Machine)
    requires Inv(m) && InTx(m, Closing)
    ensures Inv(Next(m, CommitUnseen))
  {
    hide Justified, FatesOk, UniqueDust, Logged, TxOk;
    CommitKeeps(m);
    FatesSources(AfterCommit(m), Next(m, CommitUnseen));
  }

  lemma SweepKeeps(m: Machine, now: int)
    requires Inv(m) && Enabled(m, Sweep(now))
    ensures Inv(Next(m, Sweep(now)))
    ensures var q, q' := m.gw.queue, Next(m, Sweep(now)).gw.queue;
            && (forall f :: f in q' <==> f in q && q[f].enqueuedAt >= now - m.settings.maxAge)
            && (forall f :: f in q' ==> q'[f] == q[f])
  {
    hide FatesOk, UniqueDust;
    var m' := Next(m, Sweep(now));
    var stale := Stale(m.gw.queue, now, m.settings.maxAge);
    FatesLogged(m, stale, Left(Swept(now)), m'.gw.queue);
  }

  lemma RestartKeeps(m: Machine, clear: bool)
    requires Inv(m)
    ensures Inv(Next(m, Restart(clear)))
    ensures Next(m, Restart(clear)).gw.queue == if clear then map[] else m.gw.queue
    ensures Next(m, Restart(clear)).last == map[] && Idle(Next(m, Restart(clear)))
  {
    hide FatesOk, UniqueDust, TxOk;
    var m' := Next(m, Restart(clear));
    var gone := if clear then m.gw.queue.Keys else {};
    FatesLogged(m, gone, Left(Cleared), m'.gw.queue);
    FatesSources(m.(gw := m.gw.(queue := m'.gw.queue), history := m'.history), m');
  }

  lemma OtherKeep(m: Machine, a: Action)
    requires Inv(m) && Enabled(m, a) && (a.Poll? || a.SendFails? || a.Abort?)
    ensures Inv(Next(m, a))
  {
    hide HasRecord, UniqueDust, FatesOk, Representative, RowsLocked, CurrentWaypoints;
    assert FatesOk(Next(m, a)) by { FatesSources(m, Next(m, a)); }
  }

  /** Every action keeps the invariant, and no decision is ever removed or changed. */
  lemma StepKeeps(m: Machine, a: Action)
    requires Inv(m) && Enabled(m, a)
    ensures Inv(Next(m, a)) && m.dec.records <= Next(m, a).dec.records && Next(m, a).settings == m.settings
  {
    hide Inv, Claim, CurrentWaypoints, Logged, Stale, Enqueued, FramesOf, Changed, DecisionFor;
    match a
    case Sources(frames, dusts) => SourcesKeep(m, frames, dusts);
    case Enqueue(f, dustId, now) => EnqueueKeeps(m, f, dustId, now);
    case Visit => VisitKeeps(m);
    case Insert(_, _, _, _) => InsertKeeps(m, a);
    case DeleteRows => DeleteKeeps(m);
    case FailRow(applied, ok) => FailRowKeeps(m, applied, ok);
    case Purge => PurgeKeeps(m);
    case Commit => CommitKeeps(m);
    case CommitUnseen => UnseenKeeps(m);
    case Sweep(now) => SweepKeeps(m, now);
    case Restart(clear) => RestartKeeps(m, clear);
    case _ => OtherKeep(m, a);
  }

  // ----- runs -----

  /** Nothing queued yet, no record twice; the source tables may hold anything. */
  ghost predicate Fresh(m: Machine) {
    Idle(m) && m.gw.queue == map[] && m.history == map[] && UniqueDust(m.dec.records)
  }

  lemma {:induction false} RunKeeps(m: Machine, actions: seq<Action>)
    requires Inv(m) && IsRun(m, actions)
    ensures Inv(Run(m, actions)) && m.dec.records <= Run(m, actions).dec.records
    ensures Run(m, actions).settings == m.settings
    decreases |actions|
  {
    hide Inv, Enabled, Next;
    if actions != [] {
      StepKeeps(m, actions[0]);
      RunKeeps(Next(m, actions[0]), actions[1..]);
    }
  }

  /** One fate per frame, over all runs: each time a frame entered the queue it is
      still there or left it for exactly one committed cause. A processed frame was in its
      batch, whose representative's dust id has a decision; a dead-lettered frame is in
      the dead letters and had used up its attempts; a discarded frame was at the place of
      a full batch of which some row was sent or dead-lettered before; a swept frame had
      entered longer ago than the limit. No dust id has two decisions, and decisions are
      never changed or removed. A queued frame's attempts exceed the maximum at most by
      the number of its dead-letter writes that raised. */
  lemma OneFate(m: Machine, actions: seq<Action>)
    requires Fresh(m) && IsRun(m, actions)
    ensures var end := Run(m, actions);
            && (forall f :: Alternates(Past(end.history, f)) && (f in end.gw.queue <==> Present(Past(end.history, f))))
            && (forall f, k :: 0 < k < |Past(end.history, f)| && Past(end.history, f)[k].Left? ==>
                  Justified(end.dec, m.settings, end.history, f, Past(end.history, f)[k - 1],
                            Past(end.history, f)[k].cause))
            && UniqueDust(end.dec.records) && m.dec.records <= end.dec.records
            && (forall f :: f in end.gw.queue ==> end.gw.queue[f].attempts <= m.settings.maxAttempts + Refusals(end, f))
  {
    hide Alternates, Present, Justified, UniqueDust, TxOk;
    assert Inv(m) by { FreshInv(m); }
    RunKeeps(m, actions);
    var end := Run(m, actions);
    forall f
      ensures Alternates(Past(end.history, f)) && (f in end.gw.queue <==> Present(Past(end.history, f)))
      ensures forall k :: 0 < k < |Past(end.history, f)| && Past(end.history, f)[k].Left? ==>
                Justified(end.dec, m.settings, end.history, f, Past(end.history, f)[k - 1],
                          Past(end.history, f)[k].cause)
    {
      assert FateOk(end, f);
    }
  }

  /** The record was inserted by this action. */
  ghost predicate Made(m: Machine, a: Action, r: Record) {
    && a.Insert? && m.tx.Some?
    && Verdicts(r, m.tx.value.rows, a.scores, a.th) && Describes(r, m.tx.value.place, m.tx.value.rows, a.now)
  }

  /** Every decision a run adds is the right one for the batch that was being worked on:
      its channels, its place, its dust id and its time. */
  lemma {:induction false} RecordsRight(m: Machine, actions: seq<Action>, r: Record)
    requires IsRun(m, actions) && r in Run(m, actions).dec.records && r !in m.dec.records
    ensures exists j :: 0 <= j < |actions| && IsRun(m, actions[..j]) && Made(Run(m, actions[..j]), actions[j], r)
    decreases |actions|
  {
    hide Enabled, Next, Made;
    if actions != [] {
      var m1, rest := Next(m, actions[0]), actions[1..];
      if r in m1.dec.records {
        NewRecord(m, actions[0], r);
        assert actions[..0] == [];
      } else {
        RecordsRight(m1, rest, r);
        var j :| 0 <= j < |rest| && IsRun(m1, rest[..j]) && Made(Run(m1, rest[..j]), rest[j], r);
        assert actions[..j + 1][1..] == rest[..j] && actions[..j + 1][0] == actions[0];
        assert IsRun(m, actions[..j + 1]) && Run(m, actions[..j + 1]) == Run(m1, rest[..j]);
      }
    }
  }

  lemma NewRecord(m: Machine, a: Action, r: Record)
    requires Enabled(m, a) && r in Next(m, a).dec.records && r !in m.dec.records
    ensures Made(m, a, r)
  {
    hide DecisionFor, Verdicts, Describes, Claim, CurrentWaypoints, Stale, Changed, Matching, Logged, HasRecord;
    if a.Insert? {
      RecordOfBatch(m.tx.value.place, m.tx.value.rows, a.scores, a.th, a.now);
    }
  }

  lemma FreshInv(m: Machine)
    requires Fresh(m)
    ensures Inv(m)
  {
  }
}
