/** The batch consumer as a program over the gateway and the decision database. Each
    method performs a run of the transfer machine. */
module TransferPolling {
  import opened Wrappers
  import opened TransferQueue
  import opened DecisionProducer
  import opened TransferMachine
  import opened TransferPass

  /** The queue table and its queries. A statement that raises inside a transaction changes
      nothing; a sweep, which commits by itself, may have taken effect. */
  class QueueRepository {
    var queue: map<int, Entry>
    var frames: map<int, Frame>
    var dusts: map<int, Dust>

    ghost function View(): Gateway
      reads this
    {
      Gateway(queue, frames, dusts)
    }

    constructor (frames: map<int, Frame>, dusts: map<int, Dust>)
      ensures View() == Gateway(map[], frames, dusts)
    {
      this.queue, this.frames, this.dusts := map[], frames, dusts;
    }

    method FetchCurrentWaypoints() returns (ok: bool, items: seq<(string, int)>)
      ensures ok ==> Lists(items, CurrentWaypoints(View()))
    {
      hide CurrentWaypoints;
      var current := CurrentWaypoints(Gateway(queue, frames, dusts));
      var left := current.Keys;
      items := [];
      while left != {}
        invariant left <= current.Keys && |items| + |left| == |current.Keys|
        invariant forall k :: 0 <= k < |items| ==>
          items[k].0 in current && items[k].0 !in left && current[items[k].0] == items[k].1
        invariant forall j, k :: 0 <= j < k < |items| ==> items[j].0 != items[k].0
        decreases left
      {
        var amr :| amr in left;
        items, left := items + [(amr, current[amr])], left - {amr};
      }
      assert |current.Keys| == |current|;
      ok := *;
    }

    method FetchBatchForWaypoint(p: Place, limit: nat) returns (ok: bool, rows: seq<Row>)
      ensures ok ==> rows == RowsOf(View(), Claim(View(), p, limit))
    {
      var g := Gateway(queue, frames, dusts);
      ok, rows := *, RowsOf(g, Claim(g, p, limit));
    }

    method Delete(frameId: int) returns (ok: bool)
      modifies `queue
      ensures queue == if ok then old(queue) - {frameId} else old(queue)
    {
      ok := *;
      if ok { queue := queue - {frameId}; }
    }

    method BumpAttempts(frameId: int) returns (ok: bool)
      modifies `queue
      ensures queue == if ok then Changed(old(queue), {}, {frameId}) else old(queue)
      ensures ok && frameId in old(queue) ==>
        var e := old(queue)[frameId];
        queue == old(queue)[frameId := Entry(e.dustId, e.enqueuedAt, e.attempts + 1)]
    {
      ok := *;
      if ok && frameId in queue {
        queue := queue[frameId := Bumped(queue[frameId])];
      }
      assert ok ==> queue == Changed(old(queue), {}, {frameId});
    }

    method PurgeWaypointRemainder(p: Place) returns (ok: bool, deleted: nat)
      modifies `queue
      ensures queue == if ok then old(queue) - Matching(old(View()), p) else old(queue)
      ensures ok ==> deleted == |Matching(old(View()), p)|
    {
      var matching := Matching(Gateway(queue, frames, dusts), p);
      ok, deleted := *, |matching|;
      if ok { queue := queue - matching; }
    }

    method SweepStale(maxAge: int) returns (ok: bool, ghost applied: bool, ghost now: int)
      modifies `queue
      ensures queue == if applied then old(queue) - Stale(old(queue), now, maxAge) else old(queue)
      ensures applied ==> forall f :: f in queue <==> f in old(queue) && old(queue)[f].enqueuedAt >= now - maxAge
      ensures ok ==> applied
    {
      var clock: int, reaches: bool, answered: bool := *, *, *;
      ok, applied, now := reaches && answered, reaches, clock;
      if reaches { queue := queue - Stale(queue, clock, maxAge); }
    }

    /** A rolled back transaction leaves the rows as they were when it began. */
    method Rollback(begin: map<int, Entry>)
      modifies `queue
      ensures queue == begin
    {
      queue := begin;
    }
  }

  ghost predicate Goes(m: Machine, acts: seq<Action>, m': Machine) {
    IsRun(m, acts) && Run(m, acts) == m'
  }

  lemma Goes0(m: Machine)
    ensures Goes(m, [], m)
  {
  }

  lemma {:induction false} Then(m: Machine, acts: seq<Action>, mid: Machine, a: Action)
    requires Goes(m, acts, mid) && Enabled(mid, a)
    ensures Goes(m, acts + [a], Next(mid, a))
    decreases |acts|
  {
    hide Enabled, Next;
    if acts == [] {
      assert acts + [a] == [a] && [a][0] == a && [a][1..] == [];
      assert IsRun(Next(m, a), []) && Run(Next(m, a), []) == Next(m, a);
    } else {
      Then(Next(m, acts[0]), acts[1..], mid, a);
      assert (acts + [a])[1..] == acts[1..] + [a] && (acts + [a])[0] == acts[0];
    }
  }

  /** The rows of the batch handled so far that are not deleted. */
  function BumpedSoFar(rows: seq<Row>, n: nat, cleared: set<int>): set<int>
    requires n <= |rows|
  {
    FramesOf(rows[..n]) - cleared
  }

  class Poller {
    const repo: QueueRepository
    const decision: DecisionProducer
    const settings: Settings
    var lastWaypointByAmr: map<string, int>
    var processedOk: nat
    var failed: nat
    var deadLettered: nat
    var waypointTransitions: nat
    var discardedOverBatch: nat

    constructor (repo: QueueRepository, decision: DecisionProducer, settings: Settings)
      ensures this.repo == repo && this.decision == decision && this.settings == settings
      ensures lastWaypointByAmr == map[]
    {
      this.repo, this.decision, this.settings := repo, decision, settings;
      lastWaypointByAmr := map[];
      processedOk, failed, deadLettered, waypointTransitions, discardedOverBatch := 0, 0, 0, 0, 0;
    }

    /** Between transactions the program and the machine agree. */
    ghost predicate Tracks(m: Machine)
      reads this, repo, decision
    {
      m.gw == repo.View() && m.dec == decision.View() && m.last == lastWaypointByAmr && m.settings == settings
    }

    /** Inside a transaction the program's queue shows its own changes. */
    ghost predicate InBatch(m: Machine, tx: Tx, bumped: set<int>)
      reads this, repo, decision
    {
      && m.tx == Some(tx) && repo.View() == m.gw.(queue := Changed(m.gw.queue, tx.cleared, bumped))
      && m.dec == decision.View() && m.last == lastWaypointByAmr && m.settings == settings
    }

    /** The first `done` rows of a failing batch have been handled. */
    ghost predicate Handled(m: Machine)
      reads this, repo, decision
    {
      && m.tx.Some? && m.tx.value.stage.Failing? && m.tx.value.stage.done <= |m.tx.value.rows|
      && RowsLocked(m.gw, m.tx.value.rows)
      && m.tx.value.cleared <= FramesOf(m.tx.value.rows[..m.tx.value.stage.done])
      && InBatch(m, m.tx.value, BumpedSoFar(m.tx.value.rows, m.tx.value.stage.done, m.tx.value.cleared))
    }

    /** Dead-letter an exhausted row and delete it; otherwise, or if that raises, count
        the attempt. `g` is the queue the transaction began with, `cleared` what it has
        deleted of the first `n` rows. */
    method HandleFailure(r: Row, ghost g: Gateway, ghost rows: seq<Row>, ghost n: nat, ghost cleared: set<int>)
      returns (ok: bool, ghost applied: bool, written: bool)
      requires RowsLocked(g, rows) && n < |rows| && r == rows[n] && cleared <= FramesOf(rows[..n])
      requires repo.View() == g.(queue := Changed(g.queue, cleared, BumpedSoFar(rows, n, cleared)))
      modifies `failed, `deadLettered, repo`queue, decision
      ensures (written ==> applied) && (applied ==> r.attempts + 1 > settings.maxAttempts)
      ensures decision.View()
           == if applied then old(decision.View()).(dlq := old(decision.dlq)[r.frameId := r.attempts + 1])
              else old(decision.View())
      ensures ok ==> var now := if written then cleared + {r.frameId} else cleared;
                     && now <= FramesOf(rows[..n + 1])
                     && repo.View() == g.(queue := Changed(g.queue, now, BumpedSoFar(rows, n + 1, now)))
      ensures ok ==> deadLettered == old(deadLettered) + if written then 1 else 0
    {
      hide PlaceOf, Changed, FramesOf, BumpedSoFar, RowsLocked;
      ghost var before := repo.queue;
      OneMoreRow(g, rows, n, cleared);
      var attempts := r.attempts + 1;
      applied, written := false, false;
      if attempts > settings.maxAttempts {
        written, applied := decision.DeadLetter(r.frameId, attempts);
        if written {
          ok := repo.Delete(r.frameId);
          if !ok { return; }
          deadLettered := deadLettered + 1;
          RowDeleted(g, rows, n, cleared, before);
          return;
        }
      }
      ok := repo.BumpAttempts(r.frameId);
      if !ok { return; }
      RowBumped(g, rows, n, cleared, before);
      failed := failed + 1;
    }

    /** Every row of a failing batch, in order. */
    method HandleFailures(rows: seq<Row>, ghost m: Machine)
      returns (ok: bool, ghost m': Machine, ghost acts: seq<Action>)
      requires Handled(m) && m.tx.value.rows == rows && m.tx.value.stage.done == 0 && m.tx.value.cleared == {}
      modifies `failed, `deadLettered, repo`queue, decision
      ensures Goes(m, acts, m') && m'.gw == m.gw && m'.todo == m.todo && m'.last == m.last && m'.tx.Some?
      ensures m'.dec == decision.View() && m'.settings == m.settings
      ensures ok ==> Handled(m') && m'.tx.value == m.tx.value.(stage := Failing(|rows|), cleared := m'.tx.value.cleared)
      ensures ok ==>
        deadLettered >= old(deadLettered) && (deadLettered > old(deadLettered) <==> m'.tx.value.cleared != {})
    {
      hide Goes, Next, Enabled;
      m', acts := m, [];
      Goes0(m);
      for i := 0 to |rows|
        invariant Goes(m, acts, m') && m'.gw == m.gw && m'.todo == m.todo && m'.last == m.last
        invariant m'.settings == m.settings
        invariant Handled(m') && m'.tx.value == m.tx.value.(stage := Failing(i), cleared := m'.tx.value.cleared)
        invariant deadLettered >= old(deadLettered) && (deadLettered > old(deadLettered) <==> m'.tx.value.cleared != {})
      {
        ghost var applied; var written;
        ok, applied, written := HandleFailure(rows[i], m'.gw, rows, i, m'.tx.value.cleared);
        RowHandled(m', applied, written);
        RowFailing(m', applied, written);
        Then(m, acts, m', FailRow(applied, written));
        acts, m' := acts + [FailRow(applied, written)], AfterFailRow(m', applied, written);
        if !ok { return; }
      }
      ok := true;
    }

    /** Send the batch in one call, then insert its decision. Either may raise. */
    method SendAndRecord(p: Place, rows: seq<Row>, ghost m: Machine)
      returns (sent: bool, ghost m': Machine, ghost acts: seq<Action>)
      requires InTx(m, Claimed) && m.tx.value.place == p && m.tx.value.rows == rows && rows != []
      requires InBatch(m, m.tx.value, {})
      modifies decision
      ensures Goes(m, acts, m')
      ensures m' == m.(dec := decision.View(), tx := Some(m.tx.value.(stage := if sent then Deleting else Failing(0))))
      ensures |acts| == 1 && forall r :: r in decision.records && r !in old(decision.records) ==> Made(m, acts[0], r)
    {
      hide Goes, Next, Enabled, Inserted, DecisionFor, Changed, FramesOf, PlaceOf, Made;
      Goes0(m);
      var body: Scores;
      sent, body := *, *;                  // the REST call
      var th;
      if sent {
        sent, th := decision.FetchThresholds();
      }
      var now: int := *;
      ghost var applied := false;
      if sent {
        sent, applied := decision.InsertDecision(DecisionFor(p, rows, body, th, now));
      }
      ghost var a := if applied then Insert(body, th, now, sent) else SendFails;
      if applied {
        InsertStep(m, body, th, now, sent);
      } else {
        SendFailsStep(m);
      }
      Then(m, [], m, a);
      acts := [] + [a];
      m' := m.(dec := decision.View(), tx := Some(m.tx.value.(stage := if sent then Deleting else Failing(0))));
      forall r | r in decision.records && r !in old(decision.records) ensures Made(m, a, r) { NewRecord(m, a, r); }
    }

    /** The batch is sent in one call; then one decision is inserted; then the rows are
        deleted. If anything before the deletions raises, every row counts a failure. */
    method ProcessBatchRows(p: Place, rows: seq<Row>, ghost m: Machine)
      returns (ok: bool, ghost m': Machine, ghost acts: seq<Action>)
      requires InTx(m, Claimed) && m.tx.value.place == p && m.tx.value.rows == rows
      requires RowsLocked(m.gw, rows) && m.tx.value.cleared == {} && !m.tx.value.processed
      requires InBatch(m, m.tx.value, {})
      modifies `processedOk, `failed, `deadLettered, repo`queue, decision
      ensures Goes(m, acts, m') && m'.gw == m.gw && m'.todo == m.todo && m'.last == m.last && m'.tx.Some?
      ensures m'.dec == decision.View() && m'.settings == m.settings
      ensures ok ==> Settled(m', m.tx.value)
      ensures ok ==> var before := old(processedOk) + old(deadLettered); var after := processedOk + deadLettered;
                     after >= before && (after > before <==> m'.tx.value.cleared != {})
    {
      hide Goes, Next, Enabled, RowsLocked, Changed, FramesOf, PlaceOf;
      m', acts := m, [];
      Goes0(m);
      NothingBumped(rows);
      if rows == [] { return true, m', acts; }
      var sent;
      sent, m', acts := SendAndRecord(p, rows, m);
      ghost var m1 := m';
      if !sent {
        ghost var more;
        ok, m', more := HandleFailures(rows, m1);
        Joined(m, acts, m1, more, m');
        acts := acts + more;
        return;
      }
      ok := DeleteAll(rows, m1);
      DeleteStep(m1);
      Then(m, acts, m1, DeleteRows);
      acts := acts + [DeleteRows];
      m' := m1.(tx := Some(m1.tx.value.(processed := true, cleared := FramesOf(rows))));
    }

    /** Every row of the batch is done: deleted, dead-lettered or counted. */
    ghost predicate Settled(m: Machine, tx0: Tx)
      reads this, repo, decision
    {
      SameBatch(m, tx0) && InBatch(m, m.tx.value, BumpedBy(m.tx.value))
    }

    method DeleteAll(rows: seq<Row>, ghost m: Machine) returns (ok: bool)
      requires InTx(m, Deleting) && m.tx.value.rows == rows && RowsLocked(m.gw, rows) && m.tx.value.cleared == {}
      requires InBatch(m, m.tx.value, {}) && rows != []
      modifies `processedOk, repo`queue
      ensures ok ==> repo.View() == m.gw.(queue := Changed(m.gw.queue, FramesOf(rows), {}))
      ensures ok ==> processedOk == old(processedOk) + |rows|
    {
      hide RowsLocked;
      assert rows[..0] == [];
      for i := 0 to |rows|
        invariant repo.View() == m.gw.(queue := Changed(m.gw.queue, FramesOf(rows[..i]), {}))
        invariant processedOk == old(processedOk) + i
      {
        ghost var before := repo.queue;
        ok := repo.Delete(rows[i].frameId);
        if !ok { return; }
        assert rows[..i + 1] == rows[..i] + [rows[i]];
        assert FramesOf(rows[..i + 1]) == FramesOf(rows[..i]) + {rows[i].frameId};
        assert repo.queue == Changed(m.gw.queue, FramesOf(rows[..i + 1]), {});
        processedOk := processedOk + 1;
      }
      assert rows[..|rows|] == rows;
      ok := true;
    }

    /** The statements of one AMR's transaction: claim up to a batch, process it, discard
        the overflow if the batch was full and made progress. */
    method ClaimAndProcess(p: Place, ghost m: Machine) returns (ok: bool, ghost m': Machine, ghost acts: seq<Action>)
      requires InTx(m, Claimed) && m.tx.value.place == p && m.gw == repo.View()
      requires m.tx.value.rows == RowsOf(m.gw, Claim(m.gw, p, settings.batch))
      requires RowsLocked(m.gw, m.tx.value.rows) && m.tx.value.cleared == {} && !m.tx.value.processed
      requires InBatch(m, m.tx.value, {})
      modifies `processedOk, `failed, `deadLettered, `discardedOverBatch, repo`queue, decision
      ensures Goes(m, acts, m') && m'.gw == m.gw && m'.todo == m.todo && m'.last == m.last && m'.tx.Some?
      ensures m'.dec == decision.View() && m'.settings == m.settings
      ensures ok ==> SameBatch(m', m.tx.value)
      ensures ok ==> var tx := m'.tx.value;
        repo.View() == m.gw.(queue := Changed(m.gw.queue, tx.cleared + PurgedIn(m', tx), BumpedBy(tx)))
    {
      hide Goes, RowsLocked, Changed, FramesOf, PlaceOf, Claim, Matching;
      var clearedBefore := processedOk + deadLettered;
      m', acts := m, [];
      Goes0(m);
      var rows;
      ok, rows := repo.FetchBatchForWaypoint(p, settings.batch);
      if !ok { return; }
      ok, m', acts := ProcessBatchRows(p, rows, m);
      if !ok { return; }
      NothingPurged(m', m'.tx.value);
      if |rows| == settings.batch && processedOk + deadLettered > clearedBefore {
        var discarded;
        PurgeMatches(m', m'.tx.value, BumpedBy(m'.tx.value));
        ok, discarded := repo.PurgeWaypointRemainder(p);
        if ok { discardedOverBatch := discardedOverBatch + discarded; }
      }
    }

    /** One AMR's transaction. If the gateway raises, it is rolled back - unless it was
        the commit that raised after it took effect, which nobody sees. */
    method ProcessWaypointBatch(amr: string, waypoint: int, ghost current: int, ghost m: Machine)
      returns (ok: bool, ghost m': Machine, ghost acts: seq<Action>, ghost o: Outcome, ghost unseen: bool)
      requires Tracks(m) && Inv(m) && m.tx.None? && m.todo != [] && m.todo[0] == (amr, current)
      requires waypoint == Previous(m, amr) && current != waypoint
      modifies `processedOk, `failed, `deadLettered, `discardedOverBatch, repo`queue, decision
      ensures Goes(m, acts, m') && m'.tx.None? && m'.settings == m.settings
      ensures m'.gw == repo.View() && m'.dec == decision.View()
      ensures ok ==> m'.todo == m.todo[1..] && m'.last == m.last[amr := current]
      ensures m'.gw == if ok || unseen then BatchEffect(m.gw, Place(amr, waypoint), o, settings) else m.gw
      ensures !ok ==> m'.todo == [] && m'.last == m.last
    {
      hide Goes, Next, Enabled, RowsLocked, Changed, FramesOf, PlaceOf, Inv, Claim, BatchEffect, Matching, Logged;
      var begin := repo.queue;
      ghost var m1 := Opening(m, amr, current);
      Goes0(m);
      Then(m, [], m, Visit);
      ghost var m2, more;
      ok, m2, more := ClaimAndProcess(Place(amr, waypoint), m1);
      Joined(m, [] + [Visit], m1, more, m2);
      acts, o, unseen := [] + [Visit] + more, Outcome(false, {}), false;
      var applied, seen: bool := *, *;
      if !(ok && applied) {
        ok := false;
        repo.Rollback(begin);
        AbortStep(m2);
        Then(m, acts, m2, Abort);
        acts, m' := acts + [Abort], m2.(tx := None, todo := []);
        return;
      }
      RunInv(m, acts, m2);
      ghost var m3, m4 := Closes(m2);
      Then(m, acts, m2, Purge);
      o := Outcome(m3.tx.value.processed, m3.tx.value.cleared);
      CommitIsBatch(m3);
      ok, unseen := seen, !seen;
      if seen {
        Then(m, acts + [Purge], m3, Commit);
        acts, m' := acts + [Purge] + [Commit], m4;
      } else {
        Then(m, acts + [Purge], m3, CommitUnseen);
        acts, m' := acts + [Purge] + [CommitUnseen], m4.(last := m3.last, todo := []);
      }
    }

    /** One transition pass. A gateway exception ends it; the AMRs visited before count,
        and so does one more if it was a commit that raised after it took effect, except
        that its waypoint is not noted. */
    method CheckWaypointTransition(ghost m: Machine)
      returns (ok: bool, ghost m': Machine, ghost acts: seq<Action>, ghost order: seq<string>,
            ghost outcomes: map<string, Outcome>, ghost unseen: Option<string>)
      requires Tracks(m) && Inv(m) && Idle(m)
      modifies this, repo`queue, decision
      ensures Goes(m, acts, m') && Tracks(m') && Inv(m') && Idle(m')
      ensures forall a :: a in order ==> a in CurrentWaypoints(m.gw)
      ensures unseen.Some? ==>
        !ok && unseen.value !in order && unseen.value in CurrentWaypoints(m.gw) && unseen.value in outcomes
      ensures var (g, last) := PassEffect(m.gw, m.last, CurrentWaypoints(m.gw), order, outcomes, settings);
        && m'.last == last
        && m'.gw == if unseen.None? then g
                    else VisitEffect(g, last, CurrentWaypoints(m.gw), unseen.value, outcomes, settings)
      ensures ok ==> Visits(order, CurrentWaypoints(m.gw)) && acts != [] && acts[0].Poll?
    {
      hide Goes, Next, Enabled, Inv, BatchEffect, CurrentWaypoints, PassEffect, PlaceOf, VisitEffect;
      ghost var current := CurrentWaypoints(m.gw);
      m', acts, order, outcomes, unseen := m, [], [], map[], None;
      Goes0(m);
      NoVisits(m.gw, m.last, current, outcomes, settings);
      var items;
      ok, items := repo.FetchCurrentWaypoints();
      if !ok { return; }
      m' := m.(todo := items);
      PollStep(m, items);
      Then(m, [], m, Poll(items));
      acts := [] + [Poll(items)];
      for k := 0 to |items|
        invariant Goes(m, acts, m') && Tracks(m') && Inv(m') && m'.tx.None? && m'.todo == items[k..]
        invariant acts != [] && acts[0].Poll? && unseen.None?
        invariant order == Names(items[..k]) && forall a :: a in order ==> a in current
        invariant (m'.gw, m'.last) == PassEffect(m.gw, m.last, current, order, outcomes, settings)
      {
        var (amr, waypoint) := items[k];
        var previous := if amr in lastWaypointByAmr then lastWaypointByAmr[amr] else settings.init;
        ghost var m1, o := m', Outcome(false, {});
        NextName(items, k, current);
        if waypoint != previous {
          waypointTransitions := waypointTransitions + 1;
          ghost var more, applied;
          ok, m', more, o, applied := ProcessWaypointBatch(amr, previous, waypoint, m1);
          Joined(m, acts, m1, more, m');
          RunInv(m1, more, m');
          acts := acts + more;
          if !ok {
            if applied {
              VisitIs(m1.gw, m1.last, current, amr, outcomes[amr := o], settings);
              OutcomesElsewhere(m.gw, m.last, current, order, outcomes, amr, o, settings);
              outcomes, unseen := outcomes[amr := o], Some(amr);
            }
            return;
          }
        } else {
          m' := SameWaypoint(m1, amr, waypoint);
          Then(m, acts, m1, Visit);
          acts := acts + [Visit];
        }
        lastWaypointByAmr := lastWaypointByAmr[amr := waypoint];
        VisitIs(m1.gw, m1.last, current, amr, outcomes[amr := o], settings);
        PassExtends(m.gw, m.last, current, order, amr, outcomes, o, settings);
        order, outcomes := order + [amr], outcomes[amr := o];
      }
      AllVisited(items, current);
    }

    /** Rows older than the limit are swept, if there is a limit. */
    method SweepStale(ghost m: Machine) returns (ok: bool, ghost m': Machine, ghost acts: seq<Action>)
      requires Tracks(m) && Inv(m) && Idle(m)
      modifies repo`queue
      ensures Goes(m, acts, m') && Tracks(m') && Inv(m') && Idle(m')
      ensures ok && settings.maxAge > 0 ==> acts != [] && acts[|acts| - 1].Sweep?
    {
      hide Goes, Inv, Stale, Logged;
      m', acts, ok := m, [], true;
      Goes0(m);
      if settings.maxAge <= 0 { return; }
      ghost var applied, now;
      ok, applied, now := repo.SweepStale(settings.maxAge);
      if applied {
        StepKeeps(m, Sweep(now));
        Then(m, [], m, Sweep(now));
        m', acts := Next(m, Sweep(now)), [] + [Sweep(now)];
      }
    }

    /** Polls until it is told to stop; an exception in one poll does not stop the
        next. `parts` are the actions of each round, `passed` whether its pass ended
        without an exception. */
    method Run(polls: nat, ghost m: Machine)
      returns (ghost m': Machine, ghost parts: seq<seq<Action>>, ghost passed: seq<bool>, ghost swept: seq<bool>)
      requires Tracks(m) && Inv(m) && Idle(m)
      modifies this, repo`queue, decision
      ensures Goes(m, Rounds(parts), m') && Tracks(m') && Inv(m') && Idle(m')
      ensures |parts| == |passed| == |swept| == polls
      ensures forall k :: 0 <= k < polls && passed[k] ==> parts[k] != [] && parts[k][0].Poll?
      ensures forall k :: 0 <= k < polls && swept[k] && settings.maxAge > 0 ==>
        parts[k] != [] && parts[k][|parts[k]| - 1].Sweep?
    {
      hide Goes, Inv, Next, Enabled, CurrentWaypoints, PassEffect;
      m', parts, passed, swept := m, [], [], [];
      Goes0(m);
      for k := 0 to polls
        invariant Goes(m, Rounds(parts), m') && Tracks(m') && Inv(m') && Idle(m')
        invariant |parts| == |passed| == |swept| == k
        invariant forall j :: 0 <= j < k && passed[j] ==> parts[j] != [] && parts[j][0].Poll?
        invariant forall j :: 0 <= j < k && swept[j] && settings.maxAge > 0 ==>
          parts[j] != [] && parts[j][|parts[j]| - 1].Sweep?
      {
        ghost var m1, pass, sweep, order, outcomes, unseen;
        var ok, done;
        ok, m1, pass, order, outcomes, unseen := CheckWaypointTransition(m');
        ghost var m2 := m';
        done, m', sweep := SweepStale(m1);
        Joined(m2, pass, m1, sweep, m');
        Joined(m, Rounds(parts), m2, pass + sweep, m');
        MoreRounds(parts, pass + sweep);
        parts, passed, swept := parts + [pass + sweep], passed + [ok], swept + [done];
      }
    }
  }

  function Rounds(parts: seq<seq<Action>>): seq<Action> {
    if parts == [] then [] else Rounds(parts[..|parts| - 1]) + parts[|parts| - 1]
  }

  lemma MoreRounds(parts: seq<seq<Action>>, part: seq<Action>)
    ensures Rounds(parts + [part]) == Rounds(parts) + part
  {
    assert (parts + [part])[..|parts|] == parts;
  }

  function Names(items: seq<(string, int)>): (names: seq<string>)
    ensures |names| == |items| && forall k :: 0 <= k < |items| ==> names[k] == items[k].0
  {
    if items == [] then [] else Names(items[..|items| - 1]) + [items[|items| - 1].0]
  }

  lemma NextName(items: seq<(string, int)>, k: nat, current: map<string, int>)
    requires k < |items| && Lists(items, current)
    ensures Names(items[..k + 1]) == Names(items[..k]) + [items[k].0]
    ensures items[k].0 !in Names(items[..k]) && items[k].0 in current && current[items[k].0] == items[k].1
    ensures items[k..][0] == items[k] && items[k..][1..] == items[k + 1..]
  {
    assert items[..k + 1][..k] == items[..k];
    forall j | 0 <= j < k ensures Names(items[..k])[j] != items[k].0 { }
  }

  lemma AllVisited(items: seq<(string, int)>, current: map<string, int>)
    requires Lists(items, current)
    ensures items[..|items|] == items && Visits(Names(items), current)
  {
    hide Names, Distinct;
    assert items[..|items|] == items;
    var names := Names(items);
    assert Distinct(names) by { NamesDistinct(items, current); }
    NamesCount(names);
    assert Members(names) <= current.Keys;
    assert |current.Keys| == |current|;
    SubsetFull(Members(names), current.Keys);
    forall a ensures a in names <==> a in current { assert a in Members(names) <==> a in current.Keys; }
  }

  lemma NamesDistinct(items: seq<(string, int)>, current: map<string, int>)
    requires Lists(items, current)
    ensures Distinct(Names(items))
  {
    hide Names;
  }

  lemma {:induction false} NamesCount(names: seq<string>)
    requires Distinct(names)
    ensures |Members(names)| == |names|
  {
    if names != [] {
      var front, last := names[..|names| - 1], names[|names| - 1];
      NamesCount(front);
      assert Members(names) == Members(front) + {last} by { assert names == front + [last]; }
      assert last !in Members(front);
    }
  }

  lemma SubsetFull(a: set<string>, b: set<string>)
    requires a <= b && |a| == |b|
    ensures a == b
  {
    assert b == a + (b - a);
    assert |b - a| == 0;
  }

  lemma NoVisits(g: Gateway, last: map<string, int>, current: map<string, int>, outcomes: map<string, Outcome>,
          st: Settings)
    ensures PassEffect(g, last, current, [], outcomes, st) == (g, last)
  {
  }

  lemma PollStep(m: Machine, items: seq<(string, int)>)
    requires Inv(m) && Idle(m) && Lists(items, CurrentWaypoints(m.gw))
    ensures Enabled(m, Poll(items)) && Next(m, Poll(items)) == m.(todo := items) && Inv(m.(todo := items))
    ensures items[0..] == items && Names(items[..0]) == []
  {
    hide CurrentWaypoints, Inv;
    StepKeeps(m, Poll(items));
  }

  lemma RunInv(m: Machine, acts: seq<Action>, m': Machine)
    requires Goes(m, acts, m') && Inv(m)
    ensures Inv(m')
  {
    hide Inv;
    RunKeeps(m, acts);
  }

  lemma SameWaypoint(m: Machine, amr: string, current: int) returns (m': Machine)
    requires Inv(m) && m.tx.None? && m.todo != [] && m.todo[0] == (amr, current) && current == Previous(m, amr)
    ensures Enabled(m, Visit) && m' == Next(m, Visit) && Inv(m')
    ensures m' == m.(last := m.last[amr := current], todo := m.todo[1..])
  {
    hide Inv;
    m' := Next(m, Visit);
    StepKeeps(m, Visit);
  }

  /** A visit as the pass describes it. */
  lemma VisitIs(g: Gateway, last: map<string, int>, current: map<string, int>, amr: string,
          outcomes: map<string, Outcome>, st: Settings)
    requires amr in current && amr in outcomes
    ensures VisitEffect(g, last, current, amr, outcomes, st)
         == if current[amr] == PrevOf(last, amr, st) then g
            else BatchEffect(g, Place(amr, PrevOf(last, amr, st)), outcomes[amr], st)
  {
    hide BatchEffect;
  }

  /** One more AMR, its outcome noted. */
  lemma PassExtends(g: Gateway, last: map<string, int>, current: map<string, int>, order: seq<string>, amr: string,
          outcomes: map<string, Outcome>, o: Outcome, st: Settings)
    requires amr in current && amr !in order && forall a :: a in order ==> a in current
    ensures forall a :: a in order + [amr] ==> a in current
    ensures var (h, seen) := PassEffect(g, last, current, order, outcomes, st);
            PassEffect(g, last, current, order + [amr], outcomes[amr := o], st)
            == (VisitEffect(h, seen, current, amr, outcomes[amr := o], st), seen[amr := current[amr]])
  {
    hide VisitEffect, PassEffect;
    PassUnfold(g, last, current, order, amr, outcomes[amr := o], st);
    OutcomesElsewhere(g, last, current, order, outcomes, amr, o, st);
  }

  lemma {:induction false} OutcomesElsewhere(g: Gateway, last: map<string, int>, current: map<string, int>,
          order: seq<string>, outcomes: map<string, Outcome>, amr: string, o: Outcome, st: Settings)
    requires amr !in order && forall a :: a in order ==> a in current
    ensures PassEffect(g, last, current, order, outcomes[amr := o], st)
         == PassEffect(g, last, current, order, outcomes, st)
    decreases |order|
  {
    hide BatchEffect, DuePlace;
    if order != [] {
      OutcomesElsewhere(g, last, current, order[..|order| - 1], outcomes, amr, o, st);
    }
  }

  lemma Opening(m: Machine, amr: string, current: int) returns (m1: Machine)
    requires Inv(m) && m.tx.None? && m.todo != [] && m.todo[0] == (amr, current) && current != Previous(m, amr)
    ensures Enabled(m, Visit) && m1 == Next(m, Visit)
    ensures m1 == m.(todo := m.todo[1..], tx := Some(Opened(m, amr, current)))
    ensures RowsLocked(m.gw, m1.tx.value.rows) && Changed(m.gw.queue, {}, {}) == m.gw.queue
  {
    hide Claim, PlaceOf;
    m1 := Next(m, Visit);
    ClaimLocked(m.gw, Place(amr, Previous(m, amr)), m.settings.batch);
  }

  lemma AbortStep(m: Machine)
    requires m.tx.Some?
    ensures Enabled(m, Abort) && Next(m, Abort) == m.(tx := None, todo := [])
  {
  }

  /** Purging, then committing. */
  lemma Closes(m: Machine) returns (m1: Machine, m2: Machine)
    requires Inv(m) && m.tx.Some? && !m.tx.value.stage.Closing?
    requires var tx := m.tx.value; tx.rows == [] || tx.processed || tx.stage == Failing(|tx.rows|)
    ensures Enabled(m, Purge) && m1 == Next(m, Purge) && Enabled(m1, Commit) && m2 == Next(m1, Commit)
    ensures m1 == m.(tx := Some(m.tx.value.(stage := Closing, seen := m.gw, purged := PurgedIn(m, m.tx.value))))
    ensures Inv(m1) && m2 == AfterCommit(m1)
    ensures Enabled(m1, CommitUnseen) && Next(m1, CommitUnseen) == m2.(last := m1.last, todo := [])
  {
    hide Inv, Matching, FramesOf, AfterCommit;
    m1 := Next(m, Purge);
    StepKeeps(m, Purge);
    m2 := Next(m1, Commit);
  }

  function PurgedIn(m: Machine, tx: Tx): set<int> {
    if |tx.rows| == m.settings.batch && tx.cleared != {} then Matching(m.gw, tx.place) - tx.cleared else {}
  }

  /** The transaction sees its own deletions: what it purges are the other rows. */
  lemma PurgeMatches(m: Machine, tx: Tx, bumped: set<int>)
    requires bumped == BumpedBy(tx) && tx.cleared != {}
    ensures var g := m.gw.(queue := Changed(m.gw.queue, tx.cleared, bumped));
            var rest := Matching(m.gw, tx.place) - tx.cleared;
            && Matching(g, tx.place) == rest
            && g.queue - rest == Changed(m.gw.queue, tx.cleared + rest, bumped)
  {
    hide PlaceOf, FramesOf;
    var g := m.gw.(queue := Changed(m.gw.queue, tx.cleared, bumped));
    forall f ensures PlaceOf(g, f) == if f in tx.cleared then None else PlaceOf(m.gw, f) {
      ChangedPlaces(m.gw, tx.cleared, bumped, f);
    }
  }

  lemma NothingPurged(m: Machine, tx: Tx)
    ensures tx.cleared + {} == tx.cleared
  {
  }

  lemma {:induction false} RowIds(g: Gateway, ids: seq<int>)
    requires forall f :: f in ids ==> PlaceOf(g, f).Some?
    ensures FramesOf(RowsOf(g, ids)) == set f | f in ids
  {
    var rows := RowsOf(g, ids);
    forall f | f in ids ensures f in FramesOf(rows) {
      var i :| 0 <= i < |ids| && ids[i] == f;
      assert rows[i] in rows && rows[i].frameId == f;
    }
    forall r | r in rows ensures r.frameId in ids {
      var i :| 0 <= i < |rows| && rows[i] == r;
    }
  }

  lemma ClearedExhausted(m: Machine)
    requires Inv(m) && InTx(m, Closing)
    ensures var tx := m.tx.value;
            && (tx.processed ==> tx.cleared == FramesOf(tx.rows))
            && forall f :: f in tx.cleared && !tx.processed ==>
                 f in m.gw.queue && m.gw.queue[f].attempts + 1 > m.settings.maxAttempts
  {
    hide ClaimedRight, FatesOk, AttemptsOk, UniqueDust, HasRecord, Representative, FramesOf, Matching;
    var tx := m.tx.value;
    forall f | f in tx.cleared && !tx.processed
      ensures f in m.gw.queue && m.gw.queue[f].attempts + 1 > m.settings.maxAttempts
    {
      var i :| 0 <= i < |tx.rows| && tx.rows[i].frameId == f && Exhausted(m, tx.rows[i]);
    }
  }

  /** What a transaction commits is the effect of its batch. */
  lemma CommitIsBatch(m: Machine)
    requires Inv(m) && InTx(m, Closing)
    requires var tx := m.tx.value; tx.rows == RowsOf(m.gw, Claim(m.gw, tx.place, m.settings.batch))
    requires m.tx.value.purged == PurgedIn(m, m.tx.value)
    ensures var tx := m.tx.value;
            AfterCommit(m).gw == BatchEffect(m.gw, tx.place, Outcome(tx.processed, tx.cleared), m.settings)
  {
    hide TxOk, PlaceOf, Claim, FatesOk, AttemptsOk, UniqueDust, Logged, Changed, FramesOf, CurrentWaypoints, Refusals;
    var tx, o := m.tx.value, Outcome(m.tx.value.processed, m.tx.value.cleared);
    RowIds(m.gw, Claim(m.gw, tx.place, m.settings.batch));
    ClearedAreRows(m, tx);
    assert FramesOf(tx.rows) == ClaimedIds(m.gw, tx.place, m.settings);
    ClearedExhausted(m);
    assert ClearedBy(m.gw, tx.place, o, m.settings) == tx.cleared;
    assert PurgedBy(m.gw, tx.place, o, m.settings) == tx.purged;
  }

  lemma NothingBumped(rows: seq<Row>)
    ensures BumpedSoFar(rows, 0, {}) == {} && (rows == [] ==> FramesOf(rows) == {})
    ensures FramesOf(rows[..|rows|]) == FramesOf(rows) && FramesOf(rows) - FramesOf(rows) == {}
    ensures FramesOf(rows[..0]) == {}
    ensures rows != [] ==> FramesOf(rows) != {}
  {
    assert rows[..|rows|] == rows;
    if rows != [] { assert rows[0] in rows && rows[0].frameId in FramesOf(rows); }
  }

  lemma {:induction false} Joined(m: Machine, acts: seq<Action>, mid: Machine, more: seq<Action>, m': Machine)
    requires Goes(m, acts, mid) && Goes(mid, more, m')
    ensures Goes(m, acts + more, m')
    decreases |acts|
  {
    hide Enabled, Next;
    if acts == [] {
      assert acts + more == more;
    } else {
      Joined(Next(m, acts[0]), acts[1..], mid, more, m');
      assert (acts + more)[1..] == acts[1..] + more && (acts + more)[0] == acts[0];
    }
  }

  lemma InsertStep(m: Machine, scores: Scores, th: Thresholds, now: int, ok: bool)
    requires InTx(m, Claimed) && m.tx.value.rows != []
    ensures var tx := m.tx.value;
            && Enabled(m, Insert(scores, th, now, ok))
            && Next(m, Insert(scores, th, now, ok))
               == m.(dec := m.dec.(records := Inserted(m.dec.records, DecisionFor(tx.place, tx.rows, scores, th, now))),
                     tx := Some(tx.(stage := if ok then Deleting else Failing(0))))
  {
    hide Inserted, DecisionFor;
  }

  lemma SendFailsStep(m: Machine)
    requires InTx(m, Claimed) && m.tx.value.rows != []
    ensures Enabled(m, SendFails) && Next(m, SendFails) == m.(tx := Some(m.tx.value.(stage := Failing(0))))
  {
  }

  lemma DeleteStep(m: Machine)
    requires InTx(m, Deleting)
    ensures Enabled(m, DeleteRows)
    ensures Next(m, DeleteRows) == m.(tx := Some(m.tx.value.(processed := true, cleared := FramesOf(m.tx.value.rows))))
  {
    hide FramesOf;
  }

  /** The transaction has been through all rows of the same batch. */
  ghost predicate SameBatch(m: Machine, tx0: Tx) {
    && m.tx.Some? && m.tx.value.place == tx0.place && m.tx.value.current == tx0.current
    && m.tx.value.rows == tx0.rows && m.tx.value.purged == tx0.purged && !m.tx.value.stage.Closing?
    && (tx0.rows == [] || m.tx.value.processed || m.tx.value.stage == Failing(|tx0.rows|))
  }

  lemma RowFailing(m: Machine, applied: bool, ok: bool)
    requires AtRow(m) && (ok ==> applied)
    ensures Enabled(m, FailRow(applied, ok)) && Next(m, FailRow(applied, ok)) == AfterFailRow(m, applied, ok)
  {
    hide AfterFailRow;
  }

  /** The machine's step for the row, field by field. */
  lemma RowHandled(m: Machine, applied: bool, written: bool)
    requires AtRow(m) && (written ==> applied) && (applied ==> Exhausted(m, m.tx.value.rows[m.tx.value.stage.done]))
    ensures var tx := m.tx.value; var r := tx.rows[tx.stage.done];
            var m' := AfterFailRow(m, applied, written);
            m' == m.(dec := if applied then m.dec.(dlq := m.dec.dlq[r.frameId := r.attempts + 1]) else m.dec,
                     tx := Some(tx.(stage := Failing(tx.stage.done + 1),
                                    cleared := if written then tx.cleared + {r.frameId} else tx.cleared)),
                     refusals := m'.refusals)
  {
  }

  lemma OneMoreRow(g: Gateway, rows: seq<Row>, n: nat, cleared: set<int>)
    requires RowsLocked(g, rows) && n < |rows| && cleared <= FramesOf(rows[..n])
    ensures FramesOf(rows[..n + 1]) == FramesOf(rows[..n]) + {rows[n].frameId}
    ensures rows[n].frameId !in FramesOf(rows[..n]) && rows[n].frameId in g.queue && rows[n].frameId !in cleared
  {
    assert rows[..n + 1] == rows[..n] + [rows[n]];
    forall r | r in rows[..n] ensures r.frameId != rows[n].frameId {
      var i :| 0 <= i < n && rows[i] == r;
    }
  }

  lemma RowDeleted(g: Gateway, rows: seq<Row>, n: nat, cleared: set<int>, before: map<int, Entry>)
    requires RowsLocked(g, rows) && n < |rows| && cleared <= FramesOf(rows[..n])
    requires before == Changed(g.queue, cleared, BumpedSoFar(rows, n, cleared))
    ensures var f := rows[n].frameId;
            before - {f} == Changed(g.queue, cleared + {f}, BumpedSoFar(rows, n + 1, cleared + {f}))
  {
    OneMoreRow(g, rows, n, cleared);
    hide FramesOf;
  }

  lemma RowBumped(g: Gateway, rows: seq<Row>, n: nat, cleared: set<int>, before: map<int, Entry>)
    requires RowsLocked(g, rows) && n < |rows| && cleared <= FramesOf(rows[..n])
    requires before == Changed(g.queue, cleared, BumpedSoFar(rows, n, cleared))
    ensures Changed(before, {}, {rows[n].frameId}) == Changed(g.queue, cleared, BumpedSoFar(rows, n + 1, cleared))
  {
    OneMoreRow(g, rows, n, cleared);
    hide FramesOf;
  }
}
