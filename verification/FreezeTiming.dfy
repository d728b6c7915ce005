/** When ticks freeze: never before a bucket's grace period is over, and no later than
    the first tick after it. */
module FreezeTiming {
  import opened Wrappers
  import opened Buckets
  import opened Samples
  import opened CandleStore
  import opened Freezer
  import opened StationMachine
  import opened CacheInvariant
  import opened CacheSafety
  import Backfill
  import CacheProgress

  // ----- the grace period -----

  /** The bucket a boundary leaves, with the end of the grace period it starts. */
  ghost function NoteOf(m: Machine, a: Action): set<(Bucket, real)>
    requires Enabled(m, a)
  {
    match a
    case NoteBoundary(now) =>
      var u := UNITS[m.phase.u];
      if u in m.task.lastKeys then {(Bucket(u, m.task.lastKeys[u]), now + m.grace)} else {}
    case _ => {}
  }

  ghost function Notes(m: Machine, actions: seq<Action>): set<(Bucket, real)>
    requires IsRun(m, actions)
    decreases |actions|
  {
    if actions == [] then {} else NoteOf(m, actions[0]) + Notes(Next(m, actions[0]), actions[1..])
  }

  /** What the clock said when the last batch was fetched or finished. */
  function ClockAfter(a: Action, clock: real): real {
    match a
    case Fetch(now) => now
    case RecomputeEnd(now) => now
    case _ => clock
  }

  function Clock(actions: seq<Action>, clock: real): real
    decreases |actions|
  {
    if actions == [] then clock else Clock(actions[1..], ClockAfter(actions[0], clock))
  }

  /** Every waiting bucket has been noted; while a tick freezes, what is still to be
      frozen are the waiting buckets whose time has come. */
  ghost predicate Timed(m: Machine, notes: set<(Bucket, real)>, clock: real) {
    m.phase.Down? ||
    (&& (forall u :: u in m.task.pending ==>
           (Bucket(u, m.task.pending[u].key), m.task.pending[u].readyAt) in notes)
     && (m.phase.Freezing? ==>
           && (forall b :: b in m.phase.due ==> Overdue(b, notes, clock))
           && (forall u :: u in m.task.pending && !u.Hour? && m.task.pending[u].readyAt <= clock ==>
                 Bucket(u, m.task.pending[u].key) in m.phase.due)))
  }

  ghost predicate Overdue(b: Bucket, notes: set<(Bucket, real)>, clock: real) {
    exists t :: t <= clock && (b, t) in notes
  }

  lemma DueTimed(m: Machine, notes: set<(Bucket, real)>, now: real, lastId: int, nextId: int)
    requires Timed(m, notes, now) && !m.phase.Down? && !m.phase.Freezing?
    ensures Timed(m.(phase := Freezing(lastId, nextId, Due(m.task.pending, now))), notes, now)
  {
    hide Due;
    DueIs(m.task.pending, now);
    forall b | b in Due(m.task.pending, now) ensures Overdue(b, notes, now) {
      assert (b, m.task.pending[b.unit].readyAt) in notes;
    }
  }

  lemma DropTimed(m: Machine, notes: set<(Bucket, real)>, clock: real)
    requires Timed(m, notes, clock) && Enabled(m, DropDue)
    ensures Timed(Next(m, DropDue), notes, clock)
  {
    hide ScoreOrder, Overdue;
    var due, left := m.phase.due, Next(m, DropDue).task.pending;
    assert due == [due[0]] + due[1..];
    forall u | u in left && !u.Hour? && left[u].readyAt <= clock ensures Bucket(u, left[u].key) in due[1..] {
      assert Bucket(u, left[u].key) in due && Bucket(u, left[u].key) != due[0];
    }
  }

  lemma BoundaryTimed(m: Machine, now: real, notes: set<(Bucket, real)>, clock: real)
    requires Timed(m, notes, clock) && Enabled(m, NoteBoundary(now))
    ensures Timed(Next(m, NoteBoundary(now)), notes + NoteOf(m, NoteBoundary(now)), clock)
  {
    hide BucketKey;
    var b := Target(m.phase);
    assert b.unit == UNITS[m.phase.u];
  }

  lemma StepTimed(m: Machine, a: Action, notes: set<(Bucket, real)>, clock: real)
    requires Timed(m, notes, clock) && Enabled(m, a)
    ensures Timed(Next(m, a), notes + NoteOf(m, a), ClockAfter(a, clock))
  {
    hide Due, BucketKey, ScoreOrder, FrozenWrite, StatsOf, Apply, FetchSince, LastKeysAt, Backfill.ColdWrites;
    match a
    case Fetch(now) =>
      DueTimed(m, notes, now, m.phase.lastId, m.phase.lastId);
    case RecomputeEnd(now) =>
      DueTimed(m, notes, now, m.phase.lastId, m.phase.batch[|m.phase.batch| - 1].id);
    case DropDue =>
      DropTimed(m, notes, clock);
      assert notes + {} == notes;
    case NoteBoundary(now) =>
      BoundaryTimed(m, now, notes, clock);
    case _ =>
      assert NoteOf(m, a) == {} && notes + NoteOf(m, a) == notes;
  }

  lemma {:induction false} RunTimed(m: Machine, actions: seq<Action>, notes: set<(Bucket, real)>, clock: real)
    requires Timed(m, notes, clock) && IsRun(m, actions)
    ensures Timed(Run(m, actions), notes + Notes(m, actions), Clock(actions, clock))
    decreases |actions|
  {
    hide Timed, Enabled, Next, NoteOf, ClockAfter;
    if actions == [] {
      assert notes + {} == notes;
    } else {
      var a := actions[0];
      StepTimed(m, a, notes, clock);
      RunTimed(Next(m, a), actions[1..], notes + NoteOf(m, a), ClockAfter(a, clock));
      assert notes + NoteOf(m, a) + Notes(Next(m, a), actions[1..]) == notes + Notes(m, actions);
    }
  }

  /** In any run, whatever its clocks say: a tick freezes or forgets a bucket only if
      the bucket has been noted as left and its grace period is over by the tick's
      clock, and when the tick ends no bucket whose time has come is waiting. */
  lemma GraceKept(m: Machine, actions: seq<Action>, clock: real)
    requires m.phase.Down? && IsRun(m, actions)
    ensures var end, now := Run(m, actions), Clock(actions, clock);
            end.phase.Freezing? ==>
              && (forall b :: b in end.phase.due ==> exists t :: t <= now && (b, t) in Notes(m, actions))
              && (end.phase.due == [] ==>
                    forall u :: u in end.task.pending && !u.Hour? ==> end.task.pending[u].readyAt > now)
  {
    RunTimed(m, actions, {}, clock);
    assert {} + Notes(m, actions) == Notes(m, actions);
    hide Run, Notes, Clock;
    var end, now := Run(m, actions), Clock(actions, clock);
    if end.phase.Freezing? {
      forall b | b in end.phase.due ensures exists t :: t <= now && (b, t) in Notes(m, actions) {
        assert Overdue(b, Notes(m, actions), now);
      }
    }
  }

  // ----- every bucket left is noted -----

  /** Row `j`, at or after `p`, is the first of the bucket that row `k - 1` lies in, and
      an earlier bucket is left there. */
  ghost predicate LeftAt(rows: seq<Sample>, v: Unit, p: nat, k: nat, j: nat) {
    && p <= j < k <= |rows| && j > 0 && BucketOf(rows[j - 1], v) != BucketOf(rows[j], v)
    && forall l :: j <= l < k ==> BucketOf(rows[l], v) == BucketOf(rows[j], v)
  }

  ghost predicate LeftWaits(m: Machine, v: Unit, p: nat, k: nat) {
    forall j :: LeftAt(m.table, v, p, k, j) ==> Waiting(m.task.pending, BucketOf(m.table[j - 1], v))
  }

  /** The last-seen keys are those of row `n - 1`. */
  ghost predicate SeenLast(m: Machine, n: nat) {
    n <= |m.table| && (n > 0 ==> Seen(m.task, m.table[n - 1]))
  }

  ghost predicate Seen(t: Task, x: Sample) {
    forall v :: LastKeyIs(t, x, v)
  }

  /** In this unit the rows before `k` have been filed, and what the rows from `p` on left
      is accounted for; `here` says that row `k` is at hand, and then its boundary may have
      been noted. */
  ghost predicate UnitLeft(m: Machine, v: Unit, p: nat, k: nat, here: bool) {
    && p <= k + 1 && k <= |m.table| && (here ==> k < |m.table|)
    && (k > 0 && k >= p ==>
          && (LastKeyIs(m.task, m.table[k - 1], v) || (here && LastKeyIs(m.task, m.table[k], v)))
          && (LastKeyIs(m.task, m.table[k - 1], v) ==> LeftWaits(m, v, p, k))
          && (here && LastKeyIs(m.task, m.table[k], v) && BucketOf(m.table[k - 1], v) != BucketOf(m.table[k], v) ==>
                Waiting(m.task.pending, BucketOf(m.table[k - 1], v))))
  }

  /** Without exceptions the batch's first row counts: what it leaves is the bucket of the
      row before the batch. After one the last-seen keys may be ahead of the batch. */
  ghost predicate FilingLeft(m: Machine, batch: seq<Sample>, i: nat, u: nat, p: nat, calm: bool) {
    && p + |batch| <= |m.table| && batch == m.table[p..p + |batch|] && i <= |batch|
    && forall v :: UnitLeft(m, v, From(p, calm), p + FiledIn(i, u, v), UnitIndex(v) == u && i < |batch|)
  }

  function From(p: nat, calm: bool): nat {
    if calm then p else p + 1
  }

  /** How many samples of the batch have been filed in this unit. */
  function FiledIn(i: nat, u: nat, v: Unit): (n: nat) {
    i + if UnitIndex(v) < u then 1 else 0
  }

  ghost predicate Left(m: Machine, calm: bool) {
    match m.phase
    case Ready(id) => calm ==> SeenLast(m, Base0(m))
    case Filing(_, batch, i, u) => FilingLeft(m, batch, i, u, Base0(m), calm)
    case Recomputing(_, _) => SeenLast(m, Pos(m)) && forall v :: LeftWaits(m, v, From(Base0(m), calm), Pos(m))
    case Freezing(_, nextId, _) => calm ==> SeenLast(m, Consumed(m.table, nextId))
    case _ => true
  }

  lemma KeyIsBucket(x: Sample, y: Sample, v: Unit)
    ensures BucketOf(x, v) == BucketOf(y, v) <==> BucketOf(x, v).key == BucketOf(y, v).key
  {
    hide BucketKey;
  }

  /** Filing row `k`: what it leaves is waiting already. */
  lemma FiledLeft(m: Machine, m': Machine, v: Unit, p: nat, k: nat)
    requires UnitLeft(m, v, p, k, true) && LastKeyIs(m.task, m.table[k], v)
    requires m'.table == m.table && m'.task.lastKeys == m.task.lastKeys && m'.task.pending == m.task.pending
    ensures UnitLeft(m', v, p, k + 1, false)
  {
    hide BucketOf;
    var n := k + 1;
    forall j: nat | LeftAt(m'.table, v, p, n, j) ensures Waiting(m'.task.pending, BucketOf(m'.table[j - 1], v)) {
      if j < k {
        assert BucketOf(m.table[k - 1], v) == BucketOf(m.table[k], v);
        assert LeftAt(m.table, v, p, k, j);
      }
    }
  }

  /** The next row comes to hand. */
  lemma NextLeft(m: Machine, v: Unit, p: nat, k: nat)
    requires UnitLeft(m, v, p, k, false) && k < |m.table|
    ensures UnitLeft(m, v, p, k, true)
  {
    hide BucketKey, LeftWaits;
    if k > 0 { KeyIsBucket(m.table[k - 1], m.table[k], v); }
  }

  /** Noting the boundary in front of row `k`. */
  lemma NotedLeft(m: Machine, now: real, v: Unit, p: nat, k: nat)
    requires Enabled(m, NoteBoundary(now)) && UNITS[m.phase.u] == v && UnitLeft(m, v, p, k, true)
    requires m.table[k] == m.phase.batch[m.phase.i]
    ensures UnitLeft(Next(m, NoteBoundary(now)), v, p, k, true)
  {
    hide BucketKey, LeftWaits;
    if k > 0 { KeyIsBucket(m.table[k - 1], m.table[k], v); }
  }

  lemma OtherLeft(m: Machine, now: real, v: Unit, p: nat, k: nat, here: bool)
    requires Enabled(m, NoteBoundary(now)) && UNITS[m.phase.u] != v && UnitLeft(m, v, p, k, here)
    ensures UnitLeft(Next(m, NoteBoundary(now)), v, p, k, here)
  {
    hide BucketKey;
    assert Target(m.phase).unit == UNITS[m.phase.u];
  }

  lemma BoundaryMoves(m: Machine, now: real)
    requires Enabled(m, NoteBoundary(now))
    ensures var m' := Next(m, NoteBoundary(now)); AtSample(m) && m'.table == m.table && m'.phase == m.phase
  {
    hide BucketKey, AfterBoundary;
  }

  lemma UnitNoted(m: Machine, now: real, v: Unit, calm: bool)
    requires Left(m, calm) && Enabled(m, NoteBoundary(now)) && m.phase.Filing?
    ensures var p, phase := Base0(m), m.phase;
            UnitLeft(Next(m, NoteBoundary(now)), v, From(p, calm), p + FiledIn(phase.i, phase.u, v),
                     UnitIndex(v) == phase.u && phase.i < |phase.batch|)
  {
    hide BucketOf, UnitLeft, Consumed, Enabled, Next;
    BoundaryMoves(m, now);
    var i, u, p := m.phase.i, m.phase.u, Base0(m);
    assert UnitLeft(m, v, From(p, calm), p + FiledIn(i, u, v), UnitIndex(v) == u && i < |m.phase.batch|);
    if UnitIndex(v) == u {
      NotedLeft(m, now, v, From(p, calm), p + i);
    } else {
      OtherLeft(m, now, v, From(p, calm), p + FiledIn(i, u, v), false);
    }
  }

  lemma BoundaryLeft(m: Machine, now: real, calm: bool)
    requires Left(m, calm) && Enabled(m, NoteBoundary(now))
    ensures Left(Next(m, NoteBoundary(now)), calm)
  {
    hide UnitLeft, Consumed, Enabled, Next, FiledIn;
    BoundaryMoves(m, now);
    var m', p := Next(m, NoteBoundary(now)), m.phase;
    forall v
      ensures UnitLeft(m', v, From(Base0(m), calm), Base0(m) + FiledIn(p.i, p.u, v),
                       UnitIndex(v) == p.u && p.i < |p.batch|)
    {
      UnitNoted(m, now, v, calm);
    }
  }

  /** Where filing takes the loop, and what it leaves alone. */
  lemma FileMoves(m: Machine)
    requires Enabled(m, FileSample)
    ensures var p, m' := m.phase, Next(m, FileSample);
            && m'.table == m.table && m'.task.lastKeys == m.task.lastKeys && m'.task.pending == m.task.pending
            && AtSample(m) && LastKeyIs(m.task, p.batch[p.i], UNITS[p.u])
            && m'.phase == if p.u + 1 < |UNITS| then p.(u := p.u + 1) else p.(i := p.i + 1, u := 0)
  {
    hide BucketKey, Apply;
  }

  lemma UnitFiled(m: Machine, v: Unit, calm: bool)
    requires Left(m, calm) && Enabled(m, FileSample)
    ensures var m', p := Next(m, FileSample), Base0(m);
            && m'.phase.Filing? && p + FiledIn(m'.phase.i, m'.phase.u, v) <= |m.table|
            && UnitLeft(m', v, From(p, calm), p + FiledIn(m'.phase.i, m'.phase.u, v), false)
  {
    hide BucketOf, UnitLeft, Consumed, Enabled, LastKeyIs, Next;
    FileMoves(m);
    var i, u, p, m' := m.phase.i, m.phase.u, Base0(m), Next(m, FileSample);
    assert UnitLeft(m, v, From(p, calm), p + FiledIn(i, u, v), UnitIndex(v) == u && i < |m.phase.batch|);
    if UnitIndex(v) == u {
      FiledLeft(m, m', v, From(p, calm), p + i);
    } else {
      SameLeft(m, m', v, From(p, calm), p + FiledIn(i, u, v), false);
    }
  }

  lemma UnitFiledNext(m: Machine, v: Unit, calm: bool)
    requires Left(m, calm) && Enabled(m, FileSample)
    ensures var m', p := Next(m, FileSample), Base0(m);
            && m'.phase.Filing?
            && UnitLeft(m', v, From(p, calm), p + FiledIn(m'.phase.i, m'.phase.u, v),
                        UnitIndex(v) == m'.phase.u && m'.phase.i < |m'.phase.batch|)
  {
    hide BucketOf, UnitLeft, Consumed, Enabled, LastKeyIs, Next;
    FileMoves(m);
    UnitFiled(m, v, calm);
    var p, m' := Base0(m), Next(m, FileSample);
    if UnitIndex(v) == m'.phase.u && m'.phase.i < |m'.phase.batch| {
      NextLeft(m', v, From(p, calm), p + FiledIn(m'.phase.i, m'.phase.u, v));
    }
  }

  lemma FileLeft(m: Machine, calm: bool)
    requires Left(m, calm) && Enabled(m, FileSample)
    ensures Left(Next(m, FileSample), calm)
  {
    hide UnitLeft, Consumed, Enabled, Next, LastKeyIs, FiledIn;
    FileMoves(m);
    var m' := Next(m, FileSample);
    forall v
      ensures UnitLeft(m', v, From(Base0(m), calm), Base0(m) + FiledIn(m'.phase.i, m'.phase.u, v),
                       UnitIndex(v) == m'.phase.u && m'.phase.i < |m'.phase.batch|)
    {
      UnitFiledNext(m, v, calm);
    }
  }

  lemma SameLeft(m: Machine, m': Machine, v: Unit, p: nat, k: nat, here: bool)
    requires UnitLeft(m, v, p, k, here) && m.table <= m'.table
    requires m'.task.lastKeys == m.task.lastKeys && m'.task.pending == m.task.pending
    ensures UnitLeft(m', v, p, k, here)
  {
    hide BucketOf;
    if k > 0 && k >= p && LastKeyIs(m.task, m.table[k - 1], v) { SameWaits(m, m', v, p, k); }
  }

  lemma SameWaits(m: Machine, m': Machine, v: Unit, p: nat, k: nat)
    requires LeftWaits(m, v, p, k) && m.table <= m'.table && k <= |m.table| && m'.task.pending == m.task.pending
    ensures LeftWaits(m', v, p, k)
  {
    hide BucketOf;
    forall j: nat | LeftAt(m'.table, v, p, k, j) ensures Waiting(m'.task.pending, BucketOf(m'.table[j - 1], v)) {
      assert LeftAt(m.table, v, p, k, j);
    }
  }

  lemma FetchLeft(m: Machine, now: real, h: nat, calm: bool)
    requires Inv(m, h) && Left(m, calm) && Enabled(m, Fetch(now))
    ensures Left(Next(m, Fetch(now)), calm)
  {
    hide Inv, Due, Consumed, FetchSince, BucketKey, Table, UnitLeft, FiledIn, Reach, Pos, LastKeyIs;
    CacheProgress.InvNumbers(m, h);
    var p, m' := Base0(m), Next(m, Fetch(now));
    FetchReaches(m, m.phase.lastId, p);
    if m'.phase.Filing? {
      forall v ensures UnitLeft(m', v, From(p, calm), p + FiledIn(0, 0, v), UnitIndex(v) == 0) {
        FetchedLeft(m, m', v, p, calm);
      }
    }
  }

  lemma FetchedLeft(m: Machine, m': Machine, v: Unit, p: nat, calm: bool)
    requires (calm ==> SeenLast(m, p)) && p < |m.table| && m'.table == m.table && m'.task == m.task
    ensures UnitLeft(m', v, From(p, calm), p + FiledIn(0, 0, v), UnitIndex(v) == 0)
  {
    hide BucketKey;
    assert calm && p > 0 ==> LastKeyIs(m.task, m.table[p - 1], v);
    if p > 0 { KeyIsBucket(m.table[p - 1], m.table[p], v); }
  }

  lemma MoveLeft(m: Machine, h: nat, calm: bool)
    requires Inv(m, h) && Left(m, calm) && Enabled(m, MoveCursor)
    ensures Left(Next(m, MoveCursor), calm)
  {
    hide Inv, LeftWaits, Consumed, Pos, LastKeyIs, Apply;
    var batch, p := m.phase.batch, Base0(m);
    var m', q := Next(m, MoveCursor), p + |batch|;
    MovedTo(m, h);
    var x := m.table[q - 1];
    forall v ensures LastKeyIs(m'.task, x, v) && LeftWaits(m', v, From(p, calm), q) {
      assert UnitLeft(m, v, From(p, calm), p + FiledIn(|batch|, 0, v), UnitIndex(v) == 0 && |batch| < |batch|);
      SameWaits(m, m', v, From(p, calm), q);
    }
    assert Seen(m'.task, x);
  }

  lemma MovedTo(m: Machine, h: nat)
    requires Inv(m, h) && Enabled(m, MoveCursor)
    ensures Pos(Next(m, MoveCursor)) == Base0(m) + |m.phase.batch|
  {
    hide FilingInv, RecomputingInv, Consumed, Position, Apply, ColdInv;
    MoveCursorKeeps(m, h, m.phase.lastId, m.phase.batch, Base0(m), Base0(m) + |m.phase.batch|);
  }

  lemma BootLeft(m: Machine, limit: nat, grace: real, h: nat, calm: bool)
    requires Inv(m, h) && Enabled(m, Boot(limit, grace))
    ensures Left(Next(m, Boot(limit, grace)), calm)
  {
    hide Inv, Consumed, Seen, LastKeysAt;
    CacheProgress.InvNumbers(m, h);
    if m.store.cursor.Some? { SeededSeen(m.table[Pos(m) - 1]); }
  }

  /** The keys a restart seeds are those of the sample the cursor is at. */
  lemma SeededSeen(x: Sample)
    ensures Seen(NEW_TASK.(lastKeys := LastKeysAt(x.at)), x)
  {
    hide BucketKey;
    var t := NEW_TASK.(lastKeys := LastKeysAt(x.at));
    forall v ensures LastKeyIs(t, x, v) {
      assert UNITS[UnitIndex(v)] == v;
    }
  }

  lemma BackfillLeft(m: Machine, h: nat, calm: bool)
    requires Inv(m, h) && Enabled(m, BackfillEnd)
    ensures Left(Next(m, BackfillEnd), calm)
  {
    hide Inv, Consumed, Seen, LastKeysAt, Backfill.ColdWrites, Sound, Kept, MemoryKnown, NoneFrozenFrom, PendingPassed;
    if m.phase.rows == [] {
      BackfillEndEmpty(m, h);
    } else {
      BackfillEndSome(m, h);
      ColdFacts(m, h);
      SeededSeen(m.phase.rows[|m.phase.rows| - 1]);
    }
  }

  lemma ArriveLeft(m: Machine, x: Sample, h: nat, calm: bool)
    requires Inv(m, h) && Left(m, calm) && Enabled(m, Arrive(x))
    ensures Left(Next(m, Arrive(x)), calm)
  {
    hide Inv, Consumed, UnitLeft, LeftWaits, Position, LastKeyIs, Table, IdAt;
    CacheProgress.InvNumbers(m, h);
    var m' := m.(table := m.table + [x]);
    ArriveNumbers(m, x, h);
    if m.phase.Filing? {
      var batch, i, u, p := m.phase.batch, m.phase.i, m.phase.u, Base0(m);
      forall v ensures UnitLeft(m', v, From(p, calm), p + FiledIn(i, u, v), UnitIndex(v) == u && i < |batch|) {
        SameLeft(m, m', v, From(p, calm), p + FiledIn(i, u, v), UnitIndex(v) == u && i < |batch|);
      }
    } else if m.phase.Recomputing? {
      forall v ensures LeftWaits(m', v, From(Base0(m), calm), Pos(m)) {
        SameWaits(m, m', v, From(Base0(m), calm), Pos(m));
      }
    }
  }

  /** A new row changes none of the positions in the table. */
  lemma ArriveNumbers(m: Machine, x: Sample, h: nat)
    requires Inv(m, h) && Enabled(m, Arrive(x))
    ensures var m' := m.(table := m.table + [x]);
            && (Running(m.phase) ==> Base0(m') == Base0(m) && Pos(m') == Pos(m))
            && (m.phase.Freezing? ==>
                  Consumed(m'.table, m.phase.nextId) == Consumed(m.table, m.phase.nextId) == Pos(m))
  {
    hide Inv, Table, CursorRight, Position;
    CacheProgress.InvNumbers(m, h);
    TableGrows(m.table, x);
    PositionGrows(m.table, x, m.store);
    if Running(m.phase) { IdAtGrows(m.table, x, m.phase.lastId, Base0(m)); }
    if m.phase.Freezing? { IdAtGrows(m.table, x, m.phase.nextId, Pos(m)); }
  }

  lemma RecomputeLeft(m: Machine, b: Bucket, calm: bool)
    requires Left(m, calm) && Enabled(m, Recompute(b))
    ensures Left(Next(m, Recompute(b)), calm)
  {
    hide Consumed, LeftWaits, BucketOf, ScoreOrder, StatsOf, Position;
    var m' := Next(m, Recompute(b));
    assert Pos(m') == Pos(m) by { RecomputePos(m, b); }
    SeenSame(m, m', Pos(m));
    forall v ensures LeftWaits(m', v, From(Base0(m), calm), Pos(m)) {
      SameWaits(m, m', v, From(Base0(m), calm), Pos(m));
    }
    assert Base0(m') == Base0(m);
  }

  lemma RecomputePos(m: Machine, b: Bucket)
    requires Enabled(m, Recompute(b))
    ensures Pos(Next(m, Recompute(b))) == Pos(m)
  {
    hide Consumed, ScoreOrder, StatsOf;
  }

  lemma TickLeft(m: Machine, a: Action, h: nat, h': nat, calm: bool)
    requires Inv(m, h) && Left(m, calm) && Enabled(m, a) && Inv(Next(m, a), h')
    requires a.RecomputeEnd? || a.WriteFrozen? || a.DropDue? || a.TickEnd?
    ensures Left(Next(m, a), calm)
  {
    hide Inv, Consumed, LeftWaits, BucketOf, ScoreOrder, StatsOf, Due, Dropped, Position, Reach, CursorRight;
    CacheProgress.InvNumbers(m, h);
    CacheProgress.InvNumbers(Next(m, a), h');
    if m.phase.Freezing? && calm { SeenSame(m, Next(m, a), Pos(m)); }
  }

  lemma SeenSame(m: Machine, m': Machine, n: nat)
    requires SeenLast(m, n) && m'.table == m.table && m'.task.lastKeys == m.task.lastKeys
    ensures SeenLast(m', n)
  {
    hide BucketOf;
    if n > 0 {
      var x := m.table[n - 1];
      forall v ensures LastKeyIs(m'.task, x, v) {
        assert LastKeyIs(m.task, x, v);
      }
    }
  }

  lemma StepLeft(m: Machine, a: Action, h: nat, calm: bool)
    requires Inv(m, h) && Left(m, calm) && Enabled(m, a) && (a.Fail? ==> RetrySafe(m) && !calm)
    ensures Left(Next(m, a), calm)
  {
    StepKeeps(m, a, h);
    hide Inv, Left, Enabled, Next, RetrySafe;
    match a
    case Arrive(x) => ArriveLeft(m, x, h, calm);
    case Boot(limit, grace) => BootLeft(m, limit, grace, h, calm);
    case BackfillWrite => NotRunning(m, a, calm);
    case BackfillEnd => BackfillLeft(m, h, calm);
    case Fetch(now) => FetchLeft(m, now, h, calm);
    case NoteBoundary(now) => BoundaryLeft(m, now, calm);
    case FileSample => FileLeft(m, calm);
    case MoveCursor => MoveLeft(m, h, calm);
    case Recompute(b) => RecomputeLeft(m, b, calm);
    case Crash => NotRunning(m, a, calm);
    case Fail(_) => NotRunning(m, a, calm);
    case _ => TickLeft(m, a, h, Higher(m, a, h), calm);
  }

  lemma NotRunning(m: Machine, a: Action, calm: bool)
    requires Enabled(m, a) && (a.BackfillWrite? || a.Crash? || (a.Fail? && !calm))
    ensures Left(Next(m, a), calm)
  {
    hide Backfill.ColdWrites, Apply;
  }

  lemma {:induction false} RunLeft(m: Machine, actions: seq<Action>, h: nat, calm: bool)
    requires Inv(m, h) && Left(m, calm) && SafeRun(m, actions) && (calm ==> Calm(actions))
    ensures IsRun(m, actions) && Left(Run(m, actions), calm)
    decreases |actions|
  {
    hide Inv, Left, Enabled, Next, RetrySafe;
    if actions != [] {
      StepLeft(m, actions[0], h, calm);
      StepKeeps(m, actions[0], h);
      RunLeft(Next(m, actions[0]), actions[1..], Higher(m, actions[0], h), calm);
    }
  }

  /** No exceptions. */
  predicate Calm(actions: seq<Action>) {
    forall a :: a in actions ==> !a.Fail?
  }

  /** Nothing left is forgotten: after any safe run, when a tick has filed its batch, in
      every unit the bucket that the rows of the batch left last is waiting; also if it was
      left by the first of them, unless there were exceptions. */
  lemma LeftIsWaiting(m: Machine, actions: seq<Action>)
    requires Fresh(m) && SafeRun(m, actions)
    ensures IsRun(m, actions)
    ensures var end := Run(m, actions);
            end.phase.Recomputing? ==>
              var first := From(Consumed(end.table, end.phase.lastId), Calm(actions));
              forall v, j :: LeftAt(end.table, v, first, Position(end.table, end.store), j) ==>
                Waiting(end.task.pending, BucketOf(end.table[j - 1], v))
  {
    hide Run, BucketOf, Consumed, LeftAt, Inv, Fresh, From, Calm;
    var calm := Calm(actions);
    FreshInv(m);
    assert Left(m, calm) by { FreshLeft(m, calm); }
    RunLeft(m, actions, 0, calm);
    hide Left;
    var end := Run(m, actions);
    if end.phase.Recomputing? { LeftParts(end, calm); }
  }

  lemma LeftParts(m: Machine, calm: bool)
    requires Left(m, calm) && m.phase.Recomputing?
    ensures var first := From(Consumed(m.table, m.phase.lastId), calm);
            forall v, j :: LeftAt(m.table, v, first, Position(m.table, m.store), j) ==>
              Waiting(m.task.pending, BucketOf(m.table[j - 1], v))
  {
    hide BucketOf, Consumed, Position, From;
    var first := From(Consumed(m.table, m.phase.lastId), calm);
    forall v, j: nat | LeftAt(m.table, v, first, Position(m.table, m.store), j)
      ensures Waiting(m.task.pending, BucketOf(m.table[j - 1], v))
    {
      assert Base0(m) == Consumed(m.table, m.phase.lastId);
      assert LeftWaits(m, v, From(Base0(m), calm), Pos(m));
    }
  }

  lemma FreshLeft(m: Machine, calm: bool)
    requires Fresh(m)
    ensures Left(m, calm)
  {
  }
}
