/** What a tick that is retried in the same process does to the cache: exactly when
    filing the old batch again is harmless, and a run in which it is not. */
module CacheRetry {
  import opened Wrappers
  import opened Buckets
  import opened Samples
  import opened CandleStore
  import opened Freezer
  import opened Backfill
  import opened StationMachine
  import opened CacheInvariant
  import opened CacheSafety

  // ----- the filing loop as a function -----

  /** The store after the rest of the filing loop, from unit `u` of sample `i` on. */
  function FileRest(s: Store, batch: seq<Sample>, i: nat, u: nat): Store
    requires i <= |batch| && u < |UNITS|
    decreases |batch| - i, |UNITS| - u
  {
    if i == |batch| then s else
    var x, b := batch[i], BucketOf(batch[i], UNITS[u]);
    var s' := Apply(s, AddLiveRaw(b, x.id, x.value));
    if u + 1 < |UNITS| then FileRest(s', batch, i, u + 1) else FileRest(s', batch, i + 1, 0)
  }

  /** What the process remembers after the rest of the loop, if the clock stands still. */
  function TaskRest(t: Task, batch: seq<Sample>, i: nat, u: nat, readyAt: real): Task
    requires i <= |batch| && u < |UNITS|
    decreases |batch| - i, |UNITS| - u
  {
    if i == |batch| then t else
    var t' := TaskStep(t, BucketOf(batch[i], UNITS[u]), readyAt);
    if u + 1 < |UNITS| then TaskRest(t', batch, i, u + 1, readyAt) else TaskRest(t', batch, i + 1, 0, readyAt)
  }

  function TaskStep(t: Task, b: Bucket, readyAt: real): Task {
    var seen := b.unit in t.lastKeys && t.lastKeys[b.unit] == b.key;
    var t' := if seen then t else AfterBoundary(t, b, readyAt);
    t'.(dirty := t'.dirty + {b})
  }

  /** The loop has not yet filed sample `j` in this unit, and would file it here. */
  ghost predicate AheadAt(batch: seq<Sample>, i: nat, u: nat, b: Bucket, j: int, v: Unit) {
    i <= j < |batch| && (j == i ==> UnitIndex(v) >= u) && BucketOf(batch[j], v) == b
  }

  ghost predicate Ahead(batch: seq<Sample>, i: nat, u: nat, b: Bucket) {
    exists j, v :: AheadAt(batch, i, u, b, j, v)
  }

  /** Filing adds live sets for exactly the buckets of the samples still ahead. */
  lemma {:induction false} FileRestKeys(s: Store, batch: seq<Sample>, i: nat, u: nat)
    requires i <= |batch| && u < |UNITS|
    ensures var s' := FileRest(s, batch, i, u);
            && s'.frozen == s.frozen && s'.index == s.index && s'.liveStats == s.liveStats && s'.cursor == s.cursor
            && forall b :: b in s'.live <==> b in s.live || Ahead(batch, i, u, b)
    decreases |batch| - i, |UNITS| - u
  {
    hide BucketKey;
    if i < |batch| {
      var x, b := batch[i], BucketOf(batch[i], UNITS[u]);
      var s1 := Apply(s, AddLiveRaw(b, x.id, x.value));
      var i', u' := if u + 1 < |UNITS| then i else i + 1, if u + 1 < |UNITS| then u + 1 else 0;
      FileRestKeys(s1, batch, i', u');
      forall c ensures Ahead(batch, i, u, c) <==> c == b || Ahead(batch, i', u', c) {
        AheadSplits(batch, i, u, c);
      }
    }
  }

  lemma AheadSplits(batch: seq<Sample>, i: nat, u: nat, b: Bucket)
    requires i < |batch| && u < |UNITS|
    ensures var i', u' := if u + 1 < |UNITS| then i else i + 1, if u + 1 < |UNITS| then u + 1 else 0;
            Ahead(batch, i, u, b) <==> b == BucketOf(batch[i], UNITS[u]) || Ahead(batch, i', u', b)
  {
    hide BucketOf;
    var i', u' := if u + 1 < |UNITS| then i else i + 1, if u + 1 < |UNITS| then u + 1 else 0;
    if Ahead(batch, i, u, b) && b != BucketOf(batch[i], UNITS[u]) {
      var j, v :| AheadAt(batch, i, u, b, j, v);
      assert j == i ==> UnitIndex(v) != u;
      assert UnitIndex(v) >= 0;
      assert AheadAt(batch, i', u', b, j, v);
    }
    if b == BucketOf(batch[i], UNITS[u]) {
      assert UnitIndex(UNITS[u]) == u;
      assert AheadAt(batch, i, u, b, i, UNITS[u]);
    }
    if Ahead(batch, i', u', b) {
      var j, v :| AheadAt(batch, i', u', b, j, v);
      assert AheadAt(batch, i, u, b, j, v);
    }
  }

  /** Filing a batch leaves live and frozen buckets apart exactly when none of its
      samples lies in a frozen bucket, whatever their times. */
  lemma FilingApart(s: Store, batch: seq<Sample>)
    requires Apart(s)
    ensures Apart(FileRest(s, batch, 0, 0)) <==> NoneFrozenFrom(batch, s, 0)
  {
    hide BucketOf, FileRest;
    FileRestKeys(s, batch, 0, 0);
    var s' := FileRest(s, batch, 0, 0);
    if Apart(s') {
      forall j, v | 0 <= j < |batch| ensures BucketOf(batch[j], v) !in s.frozen {
        assert UnitIndex(v) >= 0;
        assert AheadAt(batch, 0, 0, BucketOf(batch[j], v), j, v);
      }
    }
    if NoneFrozenFrom(batch, s, 0) {
      forall b | b in s'.live ensures b !in s'.frozen {
        if Ahead(batch, 0, 0, b) {
          var j, v :| AheadAt(batch, 0, 0, b, j, v);
        }
      }
    }
  }

  /** So a sample that arrives out of order is harmless to this exactly if its bucket is
      not frozen in any unit. */
  lemma LateSample(s: Store, x: Sample)
    requires Apart(s)
    ensures Apart(FileRest(s, [x], 0, 0)) <==> forall u :: BucketOf(x, u) !in s.frozen
  {
    hide BucketOf, FileRest, Apart;
    FilingApart(s, [x]);
    if NoneFrozenFrom([x], s, 0) {
      forall u ensures BucketOf(x, u) !in s.frozen { assert [x][0] == x && BucketOf([x][0], u) !in s.frozen; }
    }
  }

  /** An exception among the freezes makes the process read its old batch again.
      Filing it leaves the cache in order if and only if no row after the old id
      lies in a frozen bucket. */
  lemma RetryDomain(m: Machine, h: nat)
    requires Inv(m, h) && m.phase.Freezing?
    ensures Apart(FileRest(m.store, FetchSince(m.table, m.phase.lastId, m.limit), 0, 0)) <==> RetrySafe(m)
  {
    hide Base, MemoryKnown, PendingPassed, IdAt, Passed, FileRest, FetchSince, Reach, Pos, Table, FrozenSound,
         CursorRight, Kept, LiveSound, Consumed, BucketOf;
    var id, p := m.phase.lastId, Base0(m);
    BaseFacts(m, h, id, p);
    FetchReaches(m, id, p);
    var q := Reach(m, p);
    var batch := m.table[p..q];
    FilingApart(m.store, batch);
    NoneFrozenBeyond(m.table, m.store, Pos(m));
    assert forall j :: 0 <= j < |batch| ==> batch[j] == m.table[p + j];
    if NoneFrozenFrom(batch, m.store, 0) {
      forall i, u | p <= i < |m.table| ensures BucketOf(m.table[i], u) !in m.store.frozen {
        if i < q {
          assert batch[i - p] == m.table[i];
        }
      }
    }
  }

  // ----- a run that breaks -----

  predicate FilesOnly(acts: seq<Action>) {
    forall a :: a in acts ==> a.NoteBoundary? || a.FileSample?
  }

  /** File the sample at hand in one unit, noting a boundary first if there is one. */
  lemma FileOne(m: Machine, now: real) returns (acts: seq<Action>)
    requires AtSample(m)
    ensures IsRun(m, acts) && FilesOnly(acts)
    ensures Run(m, acts) == AfterFiling(m).(task := TaskStep(m.task, Target(m.phase), now + m.grace))
  {
    hide BucketOf, Apply, Scheduled;
    if KeySeen(m) {
      acts := [FileSample];
      Chain(m, acts, [m, Next(m, FileSample)]);
    } else {
      acts := [NoteBoundary(now), FileSample];
      var m1 := Next(m, NoteBoundary(now));
      BucketUnit(m.phase.batch[m.phase.i], UNITS[m.phase.u]);
      assert Enabled(m1, FileSample);
      Chain(m, acts, [m, m1, Next(m1, FileSample)]);
    }
  }

  /** The filing loop run to its end. */
  lemma {:induction false} FilingRuns(m: Machine, now: real) returns (acts: seq<Action>)
    requires m.phase.Filing? && m.phase.i <= |m.phase.batch| && m.phase.u < |UNITS|
    requires m.phase.i == |m.phase.batch| ==> m.phase.u == 0
    ensures IsRun(m, acts) && FilesOnly(acts)
    ensures var p := m.phase;
            Run(m, acts) == m.(store := FileRest(m.store, p.batch, p.i, p.u),
                               task := TaskRest(m.task, p.batch, p.i, p.u, now + m.grace),
                               phase := p.(i := |p.batch|, u := 0))
    decreases |m.phase.batch| - m.phase.i, |UNITS| - m.phase.u
  {
    hide Enabled, Next, TaskStep, BucketOf, Apply;
    if m.phase.i == |m.phase.batch| {
      acts := [];
    } else {
      var one := FileOne(m, now);
      var m1 := Run(m, one);
      var rest := FilingRuns(m1, now);
      RunConcat(m, one, rest);
      acts := one + rest;
    }
  }

  /** Recompute all dirty buckets: only live candles change. */
  lemma {:induction false} RecomputeRuns(m: Machine) returns (acts: seq<Action>)
    requires m.phase.Recomputing? && m.phase.batch != []
    ensures IsRun(m, acts)
    ensures var end := Run(m, acts);
            end == m.(store := m.store.(liveStats := end.store.liveStats), task := m.task.(dirty := {}))
    decreases m.task.dirty
  {
    hide BucketOf, ScoreOrder, StatsOf;
    if m.task.dirty == {} {
      acts := [];
    } else {
      var b :| b in m.task.dirty;
      var m1 := Next(m, Recompute(b));
      var rest := RecomputeRuns(m1);
      acts := [Recompute(b)] + rest;
      assert acts[1..] == rest;
    }
  }

  lemma DayDueFirst(pending: map<Unit, PendingFreeze>, now: real)
    requires Unit.Day in pending && pending[Unit.Day].readyAt <= now
    ensures var due := Due(pending, now); due != [] && due[0] == Bucket(Unit.Day, pending[Unit.Day].key)
  {
    assert DueFirst(pending, now, 0) == [];
    assert DueFirst(pending, now, 1) == [Bucket(Unit.Day, pending[Unit.Day].key)];
    assert DueFirst(pending, now, 1) <= DueFirst(pending, now, 2) <= DueFirst(pending, now, 3);
  }

  /** Two samples of different days: the first one's day is scheduled. */
  lemma TwoDays(x: Sample, y: Sample, r: real)
    requires TwoSamples(x, y)
    ensures var t := TaskRest(NEW_TASK, [x, y], 0, 0, r);
            Unit.Day in t.pending && t.pending[Unit.Day] == PendingFreeze(BucketOf(x, Unit.Day).key, r)
  {
    hide TaskRest, TaskSample, TaskStep, BucketOf;
    OneSample(NEW_TASK, [x, y], 0, r);
    var a := TaskSample(NEW_TASK, x, r);
    OneSample(a, [x, y], 1, r);
    TaskNone(TaskSample(a, y, r), [x, y], r);
    FirstSample(x, r);
    NextSample(a, x, y, r);
  }

  lemma TaskNone(t: Task, batch: seq<Sample>, r: real)
    ensures TaskRest(t, batch, |batch|, 0, r) == t
  {
  }

  lemma FirstSample(x: Sample, r: real)
    ensures var t := TaskSample(NEW_TASK, x, r);
            t.pending == map[] && Unit.Day in t.lastKeys && t.lastKeys[Unit.Day] == BucketOf(x, Unit.Day).key
  {
    hide BucketKey;
  }

  lemma NextSample(t: Task, x: Sample, y: Sample, r: real)
    requires BucketOf(x, Unit.Day) != BucketOf(y, Unit.Day)
    requires t.pending == map[] && Unit.Day in t.lastKeys && t.lastKeys[Unit.Day] == BucketOf(x, Unit.Day).key
    ensures var t' := TaskSample(t, y, r);
            Unit.Day in t'.pending && t'.pending[Unit.Day] == PendingFreeze(BucketOf(x, Unit.Day).key, r)
  {
    hide BucketKey;
  }

  function TaskSample(t: Task, x: Sample, r: real): Task {
    var t1 := TaskStep(t, BucketOf(x, Hour), r);
    var t2 := TaskStep(t1, BucketOf(x, Unit.Day), r);
    var t3 := TaskStep(t2, BucketOf(x, Week), r);
    TaskStep(t3, BucketOf(x, Month), r)
  }

  lemma OneSample(t: Task, batch: seq<Sample>, i: nat, r: real)
    requires i < |batch|
    ensures TaskRest(t, batch, i, 0, r) == TaskRest(TaskSample(t, batch[i], r), batch, i + 1, 0, r)
  {
    hide TaskStep, BucketOf;
    var x := batch[i];
    var t1 := TaskStep(t, BucketOf(x, Hour), r);
    var t2 := TaskStep(t1, BucketOf(x, Unit.Day), r);
    var t3 := TaskStep(t2, BucketOf(x, Week), r);
    assert TaskRest(t, batch, i, 0, r) == TaskRest(t1, batch, i, 1, r);
    assert TaskRest(t1, batch, i, 1, r) == TaskRest(t2, batch, i, 2, r);
    assert TaskRest(t2, batch, i, 2, r) == TaskRest(t3, batch, i, 3, r);
  }

  /** Two samples, in order, of different days. */
  ghost predicate TwoSamples(x: Sample, y: Sample) {
    && 0 < x.id < y.id && Calendar.Instant(x.at) <= Calendar.Instant(y.at)
    && BucketOf(x, Unit.Day) != BucketOf(y, Unit.Day)
  }

  const EMPTY_STATION := Machine([], EMPTY_STORE, NEW_TASK, Down, 1, 0.0)

  /** Start on an empty table, then let two samples arrive and fetch them. */
  lemma Arrives(x: Sample, y: Sample, now: real) returns (acts: seq<Action>)
    requires TwoSamples(x, y)
    ensures IsRun(EMPTY_STATION, acts)
    ensures Run(EMPTY_STATION, acts)
         == Machine([x, y], EMPTY_STORE, NEW_TASK, Phase.Filing(0, [x, y], 0, 0), 2, 0.0)
  {
    hide BucketOf, Calendar.Instant;
    acts := [Boot(2, 0.0), BackfillEnd, Arrive(x), Arrive(y), Fetch(now)];
    var m0 := EMPTY_STATION;
    var m1 := Next(m0, acts[0]);
    var m2 := Next(m1, acts[1]);
    var m3 := Next(m2, acts[2]);
    var m4 := Next(m3, acts[3]);
    assert m4 == Machine([x, y], EMPTY_STORE, NEW_TASK, Ready(0), 2, 0.0);
    FetchBoth(x, y);
    var m5 := Next(m4, acts[4]);
    Chain(m0, acts, [m0, m1, m2, m3, m4, m5]);
  }

  lemma FetchBoth(x: Sample, y: Sample)
    requires TwoSamples(x, y)
    ensures FetchSince([x, y], 0, 2) == [x, y]
  {
    NewerOfNew([x, y], 0);
  }

  /** A run given with the states it goes through. */
  lemma {:induction false} Chain(m: Machine, acts: seq<Action>, states: seq<Machine>)
    requires |states| == |acts| + 1 && states[0] == m
    requires forall k :: 0 <= k < |acts| ==> Enabled(states[k], acts[k]) && Next(states[k], acts[k]) == states[k + 1]
    ensures IsRun(m, acts) && Run(m, acts) == states[|acts|]
    decreases |acts|
  {
    hide Enabled, Next;
    if acts != [] {
      assert Enabled(states[0], acts[0]) && Next(states[0], acts[0]) == states[1];
      var rest := states[1..];
      forall k | 0 <= k < |acts[1..]|
        ensures Enabled(rest[k], acts[1..][k]) && Next(rest[k], acts[1..][k]) == rest[k + 1]
      {
        assert rest[k] == states[k + 1] && acts[1..][k] == acts[k + 1];
      }
      Chain(states[1], acts[1..], rest);
    }
  }

  /** One tick of a fresh process with no grace period, cut short by an exception
      just after the first sample's day has been frozen; then the batch is read again. */
  lemma FreezesThenFails(x: Sample, y: Sample, now: real, m: Machine) returns (acts: seq<Action>)
    requires TwoSamples(x, y)
    requires m.table == [x, y] && m.phase == Phase.Filing(0, [x, y], 2, 0) && m.limit == 2 && m.grace == 0.0
    requires Unit.Day in m.task.pending && m.task.pending[Unit.Day] == PendingFreeze(BucketOf(x, Unit.Day).key, now)
    requires x.id in LiveOf(m.store, BucketOf(x, Unit.Day))
    ensures IsRun(m, acts)
    ensures var end := Run(m, acts);
            && end.table == [x, y] && end.limit == 2 && end.grace == 0.0 && end.phase == Phase.Filing(0, [x, y], 0, 0)
            && BucketOf(x, Unit.Day) in end.store.frozen
  {
    hide *;
    assert m.phase.batch[1] == y;
    CursorMoves(m, y);
    var m1 := m.(store := Apply(m.store, SetCursor(Cursor(y.id, y.at))), phase := Recomputing(0, [x, y]));
    CursorLeaves(m.store, Cursor(y.id, y.at), BucketOf(x, Unit.Day));
    var recompute := RecomputeRuns(m1);
    var m2 := Run(m1, recompute);
    StatsLeave(m1.store, m2.store.liveStats, BucketOf(x, Unit.Day));
    var tail := FreezeFails(x, y, now, m2);
    RunConcat(m1, recompute, tail);
    RunConcat(m, [MoveCursor], recompute + tail);
    acts := [MoveCursor] + (recompute + tail);
  }

  lemma CursorMoves(m: Machine, last: Sample)
    requires m.phase.Filing? && m.phase.batch != [] && m.phase.i == |m.phase.batch| && m.phase.u == 0
    requires last == m.phase.batch[|m.phase.batch| - 1]
    ensures IsRun(m, [MoveCursor])
    ensures Run(m, [MoveCursor])
         == m.(store := Apply(m.store, SetCursor(Cursor(last.id, last.at))),
              phase := Recomputing(m.phase.lastId, m.phase.batch))
  {
    assert [MoveCursor][1..] == [];
  }

  lemma CursorLeaves(s: Store, c: Cursor, b: Bucket)
    ensures LiveOf(Apply(s, SetCursor(c)), b) == LiveOf(s, b)
  {
  }

  lemma StatsLeave(s: Store, stats: map<Bucket, Stored>, b: Bucket)
    ensures LiveOf(s.(liveStats := stats), b) == LiveOf(s, b)
  {
  }

  /** The first day is due and has a live sample: it is frozen, and then an exception
      sends the process back to the old id. */
  lemma FreezeFails(x: Sample, y: Sample, now: real, m: Machine) returns (acts: seq<Action>)
    requires TwoSamples(x, y)
    requires m.table == [x, y] && m.phase == Recomputing(0, [x, y]) && m.limit == 2 && m.task.dirty == {}
    requires Unit.Day in m.task.pending && m.task.pending[Unit.Day] == PendingFreeze(BucketOf(x, Unit.Day).key, now)
    requires x.id in LiveOf(m.store, BucketOf(x, Unit.Day))
    ensures IsRun(m, acts)
    ensures var end := Run(m, acts);
            && end.table == [x, y] && end.limit == 2 && end.grace == m.grace
            && end.phase == Phase.Filing(0, [x, y], 0, 0)
            && BucketOf(x, Unit.Day) in end.store.frozen
  {
    hide BucketKey, InferTime, FetchSince, Due, IsRun, Run, TwoSamples, ColdWrites, LiveOf, FrozenWrite, Apply,
         AfterBoot, AfterBackfill, AfterBoundary, AfterFiling, AfterRecompute, Dropped, LastKeysAt;
    var b := BucketOf(x, Unit.Day);
    var m1 := Next(m, RecomputeEnd(now));
    DayDueFirst(m.task.pending, now);
    assert m1.phase.due[0] == b;
    SampledBucket([x], 0, Unit.Day);
    var m2 := FreezesDue(m1, b, x.id);
    var m3 := Next(m2, Fail({}));
    FetchBoth(x, y);
    var m4 := Next(m3, Fetch(now));
    acts := [RecomputeEnd(now), WriteFrozen, Fail({}), Fetch(now)];
    Chain(m, acts, [m, m1, m2, m3, m4]);
  }

  lemma FreezesDue(m: Machine, b: Bucket, id: int) returns (m': Machine)
    requires m.phase.Freezing? && m.phase.due != [] && m.phase.due[0] == b && id in LiveOf(m.store, b)
    requires InferTime(b.key, b.unit).Some?
    ensures Enabled(m, WriteFrozen) && m' == Next(m, WriteFrozen)
    ensures m' == m.(store := m'.store) && b in m'.store.frozen
  {
    hide InferTime, FreezeScore, StatsOf, ScoreOrder;
    ListingEmpty(LiveOf(m.store, b));
    m' := Next(m, WriteFrozen);
  }

  /** For any two samples of different days there is a run with one retried tick
      after which the first day is both live and frozen. */
  lemma RetryCanBreak(x: Sample, y: Sample, now: real) returns (acts: seq<Action>)
    requires TwoSamples(x, y)
    ensures Fresh(EMPTY_STATION) && IsRun(EMPTY_STATION, acts)
    ensures var s := Run(EMPTY_STATION, acts).store; var b := BucketOf(x, Unit.Day); b in s.live && b in s.frozen
    ensures !Agrees(Run(EMPTY_STATION, acts))
  {
    hide *;
    FreshStation();
    FourUnits();
    var arrive := Arrives(x, y, now);
    var m1 := Run(EMPTY_STATION, arrive);
    var filing := FilingRuns(m1, now);
    var m2 := Run(m1, filing);
    TwoDays(x, y, now);
    FirstIsLive(m1.store, x, y);
    var failing := FreezesThenFails(x, y, now, m2);
    var m3 := Run(m2, failing);
    var again := FilingRuns(m3, now);
    FirstIsLive(m3.store, x, y);
    RunConcat(m2, failing, again);
    RunConcat(m1, filing, failing + again);
    RunConcat(EMPTY_STATION, arrive, filing + (failing + again));
    acts := arrive + (filing + (failing + again));
    BothDisagree(Run(EMPTY_STATION, acts), BucketOf(x, Unit.Day));
  }

  lemma FourUnits()
    ensures |UNITS| == 4
  {
  }

  lemma FreshStation()
    ensures Fresh(EMPTY_STATION)
  {
  }

  lemma BothDisagree(m: Machine, b: Bucket)
    requires b in m.store.live && b in m.store.frozen
    ensures !Agrees(m)
  {
    hide In, StatsOf, LiveSound, Kept, BucketScore, Position;
  }

  lemma FirstIsLive(s: Store, x: Sample, y: Sample)
    ensures var s' := FileRest(s, [x, y], 0, 0); var b := BucketOf(x, Unit.Day);
            b in s'.live && x.id in LiveOf(s', b) && s'.frozen == s.frozen
  {
    FileRestKeys(s, [x, y], 0, 0);
    assert AheadAt([x, y], 0, 0, BucketOf(x, Unit.Day), 0, Unit.Day);
    FiledStays(s, [x, y], 0, 0, 0, Unit.Day);
  }

  /** A sample still ahead is live when the loop is done. */
  lemma {:induction false} FiledStays(s: Store, batch: seq<Sample>, i: nat, u: nat, j: nat, v: Unit)
    requires i <= |batch| && u < |UNITS| && j < |batch|
    requires InLive(s, batch[j], v) || (i <= j && (j == i ==> UnitIndex(v) >= u))
    ensures InLive(FileRest(s, batch, i, u), batch[j], v)
    decreases |batch| - i, |UNITS| - u
  {
    hide BucketOf, Apply, InLive;
    if i < |batch| {
      var x, b := batch[i], BucketOf(batch[i], UNITS[u]);
      var s1 := Apply(s, AddLiveRaw(b, x.id, x.value));
      AddKeepsHeld(s, b, x.id, x.value, batch[j], v);
      AddedIsLive(s, x, UNITS[u]);
      assert UnitIndex(v) == u ==> v == UNITS[u];
      if u + 1 < |UNITS| {
        FiledStays(s1, batch, i, u + 1, j, v);
      } else {
        FiledStays(s1, batch, i + 1, 0, j, v);
      }
    }
  }

  const NEW_YEAR := Sample(1, Calendar.DateTime(2024, 1, 1, 12, 0, 0, 0), 1.0)
  const DAY_AFTER := Sample(2, Calendar.DateTime(2024, 1, 2, 12, 0, 0, 0), 2.0)

  /** A concrete pair. */
  lemma ConcreteDays()
    ensures TwoSamples(NEW_YEAR, DAY_AFTER)
  {
    var a, b := NEW_YEAR.at, DAY_AFTER.at;
    assert BucketKey(a, Unit.Day) != BucketKey(b, Unit.Day) by {
      KeyMatchesScore(a, b, Unit.Day);
    }
  }

  /** Hence the cache is not safe under retries in general. */
  lemma RetryBreaks(now: real) returns (acts: seq<Action>)
    ensures IsRun(EMPTY_STATION, acts) && !Agrees(Run(EMPTY_STATION, acts))
  {
    ConcreteDays();
    hide *;
    acts := RetryCanBreak(NEW_YEAR, DAY_AFTER, now);
  }
}
