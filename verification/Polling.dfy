/** One station's task as a program. Each method performs a run of the station
    machine, so the safety theorems about runs are theorems about the program. */
module Polling {
  import opened Wrappers
  import opened Buckets
  import opened BoxStats
  import opened Samples
  import opened CandleStore
  import opened Freezer
  import opened Backfill
  import opened StationMachine
  import opened ColdStart
  import CacheSafety

  // ----- runs, step by step -----

  /** The machine gets from `m` to `m'` by these actions. */
  ghost predicate Goes(m: Machine, acts: seq<Action>, m': Machine) {
    IsRun(m, acts) && Run(m, acts) == m'
  }

  predicate Raised(acts: seq<Action>) {
    acts != [] && acts[|acts| - 1].Fail?
  }

  predicate Completed(acts: seq<Action>) {
    acts != [] && acts[|acts| - 1].TickEnd?
  }

  lemma Goes0(m: Machine)
    ensures Goes(m, [], m)
  {
  }

  lemma Then(m: Machine, acts: seq<Action>, mid: Machine, more: seq<Action>, m': Machine)
    requires Goes(m, acts, mid) && Goes(mid, more, m')
    ensures Goes(m, acts + more, m')
  {
    RunConcat(m, acts, more);
  }

  lemma One(m: Machine, a: Action, m': Machine)
    requires Enabled(m, a) && Next(m, a) == m'
    ensures Goes(m, [a], m')
  {
    hide Enabled, Next;
    assert [a][0] == a && [a][1..] == [];
    assert IsRun(m', []) && Run(m', []) == m';
  }

  /** Rows that appear while the process is at work. */
  lemma {:induction false} Arrivals(m: Machine, rows: seq<Sample>) returns (acts: seq<Action>)
    requires m.table <= rows && Table(rows)
    ensures Goes(m, acts, m.(table := rows))
    decreases |rows| - |m.table|
  {
    if m.table == rows {
      acts := [];
    } else {
      var x := rows[|m.table|];
      var m1 := m.(table := m.table + [x]);
      assert Enabled(m, Arrive(x)) by { NextRow(m.table, rows); }
      assert m1.table == rows[..|m.table| + 1];
      One(m, Arrive(x), m1);
      var rest := Arrivals(m1, rows);
      Then(m, [Arrive(x)], m1, rest, m.(table := rows));
      acts := [Arrive(x)] + rest;
    }
  }

  lemma NextRow(some: seq<Sample>, rows: seq<Sample>)
    requires some < rows && Table(rows)
    ensures var x := rows[|some|];
            x.id > 0 && (some != [] ==>
              var last := some[|some| - 1]; last.id < x.id && Calendar.Instant(last.at) <= Calendar.Instant(x.at))
  {
    hide Calendar.Instant;
    if some != [] {
      assert some[|some| - 1] == rows[|some| - 1];
    }
  }

  // ----- what the steps of the program are -----

  lemma BoundaryStep(m: Machine, now: real)
    requires AtSample(m)
    ensures var b := Target(m.phase);
            var m' := m.(task := AfterBoundary(m.task, b, now + m.grace));
            && AtSample(m') && KeySeen(m')
            && (KeySeen(m) ==> Goes(m, [], m)) && (!KeySeen(m) ==> Goes(m, [NoteBoundary(now)], m'))
  {
    hide BucketKey, Scheduled;
    if KeySeen(m) { Goes0(m); }
    else { One(m, NoteBoundary(now), m.(task := AfterBoundary(m.task, Target(m.phase), now + m.grace))); }
  }

  lemma FileStep(m: Machine)
    requires AtSample(m) && KeySeen(m)
    ensures Goes(m, [FileSample], AfterFiling(m))
  {
    hide AfterFiling, KeySeen;
    One(m, FileSample, AfterFiling(m));
  }

  lemma MoveStep(m: Machine, last: Sample)
    requires m.phase.Filing? && m.phase.batch != [] && m.phase.i == |m.phase.batch| && m.phase.u == 0
    requires last == m.phase.batch[|m.phase.batch| - 1]
    ensures Goes(m, [MoveCursor], m.(store := Apply(m.store, SetCursor(Cursor(last.id, last.at))),
                                     phase := Recomputing(m.phase.lastId, m.phase.batch)))
  {
    hide Apply;
    One(m, MoveCursor, Next(m, MoveCursor));
  }

  lemma RecomputeStep(m: Machine, b: Bucket)
    requires m.phase.Recomputing? && m.phase.batch != [] && b in m.task.dirty
    ensures Goes(m, [Recompute(b)], AfterRecompute(m, b))
  {
    hide AfterRecompute;
    One(m, Recompute(b), AfterRecompute(m, b));
  }

  lemma RecomputedStep(m: Machine, now: real)
    requires m.phase.Recomputing? && m.phase.batch != [] && m.task.dirty == {}
    ensures var next := m.phase.batch[|m.phase.batch| - 1].id;
            Goes(m, [RecomputeEnd(now)], m.(phase := Freezing(m.phase.lastId, next, Due(m.task.pending, now))))
  {
    hide Due;
    One(m, RecomputeEnd(now), Next(m, RecomputeEnd(now)));
  }

  lemma FetchStep(m: Machine, now: real)
    requires m.phase.Ready?
    ensures var id := m.phase.lastId; var batch := FetchSince(m.table, id, m.limit);
            && (batch == [] ==> Goes(m, [Fetch(now)], m.(phase := Freezing(id, id, Due(m.task.pending, now)))))
            && (batch != [] ==> Goes(m, [Fetch(now)], m.(phase := Phase.Filing(id, batch, 0, 0))))
  {
    hide Due, FetchSince;
    One(m, Fetch(now), Next(m, Fetch(now)));
  }

  lemma FreezeStep(m: Machine)
    requires m.phase.Freezing? && m.phase.due != [] && ScoreOrder(LiveOf(m.store, m.phase.due[0])) != []
    requires InferTime(m.phase.due[0].key, m.phase.due[0].unit).Some?
    ensures Goes(m, [WriteFrozen], m.(store := Apply(m.store, FrozenWrite(m.store, m.phase.due[0]))))
  {
    hide Apply, FrozenWrite, ScoreOrder, InferTime;
    One(m, WriteFrozen, Next(m, WriteFrozen));
  }

  lemma DropStep(m: Machine)
    requires m.phase.Freezing? && m.phase.due != [] && ScoreOrder(LiveOf(m.store, m.phase.due[0])) == []
    ensures Goes(m, [DropDue], m.(task := m.task.(pending := Dropped(m.task.pending, m.phase.due[0])),
                                  phase := m.phase.(due := m.phase.due[1..])))
  {
    hide Dropped, ScoreOrder;
    One(m, DropDue, Next(m, DropDue));
  }

  lemma TickEndStep(m: Machine)
    requires m.phase.Freezing? && m.phase.due == []
    ensures Goes(m, [TickEnd], m.(phase := Ready(m.phase.nextId)))
  {
    One(m, TickEnd, Next(m, TickEnd));
  }

  lemma FailStep(m: Machine, dirty: set<Bucket>)
    requires Running(m.phase) && dirty <= m.task.dirty
    ensures Goes(m, [Fail(dirty)], m.(phase := Ready(m.phase.lastId), task := m.task.(dirty := dirty)))
  {
    One(m, Fail(dirty), Next(m, Fail(dirty)));
  }

  /** After a freeze the bucket has no live values. */
  lemma FrozenIsEmpty(s: Store, b: Bucket, stats: Stored, score: int)
    ensures ScoreOrder(LiveOf(Apply(s, FreezeBucket(b, stats, score)), b)) == []
  {
    ListingEmpty(map[]);
  }

  class StationTask {
    const db: Database
    const redis: RedisClient
    const freezer: GraceFreezer
    const batchLimit: nat
    var lastBucketKeys: map<Unit, string>
    var dirty: set<Bucket>

    constructor (db: Database, redis: RedisClient, batchLimit: nat, graceSeconds: real)
      ensures this.db == db && this.redis == redis && this.batchLimit == batchLimit
      ensures fresh(freezer) && freezer.graceSeconds == graceSeconds
      ensures At(Down).task == NEW_TASK
    {
      this.db, this.redis, this.batchLimit := db, redis, batchLimit;
      freezer := new GraceFreezer(graceSeconds);
      lastBucketKeys, dirty := map[], {};
    }

    /** The machine this station task is, in this phase. */
    ghost function At(phase: Phase): Machine
      reads this, db, redis, freezer
    {
      Machine(db.Rows(), redis.View(), Task(lastBucketKeys, freezer.pending, dirty), phase, batchLimit,
              freezer.graceSeconds)
    }

    method SeedLastBuckets(at: Time)
      modifies `lastBucketKeys
      ensures lastBucketKeys == old(lastBucketKeys) + LastKeysAt(at)
    {
      hide BucketKey, At;
      for k := 0 to |UNITS|
        invariant lastBucketKeys == old(lastBucketKeys) + map u | u in UNITS[..k] :: BucketKey(at, u)
      {
        assert UNITS[..k + 1] == UNITS[..k] + [UNITS[k]];
        lastBucketKeys := lastBucketKeys[UNITS[k] := BucketKey(at, UNITS[k])];
      }
      assert UNITS[..|UNITS|] == UNITS;
    }

    /** File the sample at hand in one unit: note a bucket boundary, add the value to
        the live set, mark the bucket dirty. */
    method FileOne(ghost p: Phase, s: Sample, u: Unit) returns (ok: bool, ghost acts: seq<Action>)
      requires p.Filing? && p.i < |p.batch| && p.u < |UNITS| && s == p.batch[p.i] && u == UNITS[p.u]
      modifies this, redis, freezer
      ensures Goes(old(At(p)), acts, At(if ok then AfterUnit(p) else Ready(p.lastId)))
      ensures !ok ==> Raised(acts)
    {
      hide BucketKey, BucketOf, Goes, Apply, Scheduled, KeySeen, Outcome;
      ghost var m0 := At(p);
      var b := BucketOf(s, u);
      var now := 0.0;
      OwnUnit(s, u);
      if u in lastBucketKeys && lastBucketKeys[u] != b.key {
        now := freezer.Schedule(u, lastBucketKeys[u]);
      }
      lastBucketKeys := lastBucketKeys[u := b.key];
      ghost var m1 := At(p);
      acts := Noted(m0, m1, b, now);
      ok := redis.AddLive(b, s.id, s.value);
      if ok {
        dirty := dirty + {b};
      }
      ghost var more := FiledOrFailed(m1, At(p), b, ok);
      Then(m0, acts, m1, more, At(if ok then AfterUnit(p) else Ready(p.lastId)));
      acts := acts + more;
    }

    /** The two nested loops over samples and units. */
    method FileSamples(lastId: int, batch: seq<Sample>) returns (ok: bool, ghost acts: seq<Action>)
      requires batch != []
      modifies this, redis, freezer
      ensures Goes(old(At(Filing(lastId, batch, 0, 0))), acts,
                   At(if ok then Filing(lastId, batch, |batch|, 0) else Ready(lastId)))
      ensures !ok ==> Raised(acts)
    {
      hide BucketKey, BucketOf, Goes, Apply;
      ghost var m0 := At(Filing(lastId, batch, 0, 0));
      acts := [];
      Goes0(m0);
      for i := 0 to |batch|
        invariant Goes(m0, acts, At(Filing(lastId, batch, i, 0)))
      {
        for u := 0 to |UNITS|
          invariant Goes(m0, acts,
                         At(if u < |UNITS| then Filing(lastId, batch, i, u) else Filing(lastId, batch, i + 1, 0)))
        {
          ghost var m1 := At(Filing(lastId, batch, i, u));
          ghost var more;
          ok, more := FileOne(Filing(lastId, batch, i, u), batch[i], UNITS[u]);
          Then(m0, acts, m1, more, At(if ok then AfterUnit(Filing(lastId, batch, i, u)) else Ready(lastId)));
          acts := acts + more;
          if !ok { return; }
        }
      }
      ok := true;
    }

    /** Store the live candle of every dirty bucket that has live values. */
    method RecomputeDirty(lastId: int, batch: seq<Sample>, updatedAt: Time) returns (ok: bool, ghost acts: seq<Action>)
      requires batch != [] && updatedAt == batch[|batch| - 1].at
      modifies `dirty, redis
      ensures Goes(old(At(Recomputing(lastId, batch))), acts,
                   At(if ok then Recomputing(lastId, batch) else Ready(lastId)))
      ensures if ok then dirty == {} else Raised(acts)
      ensures redis.live == old(redis.live)
      ensures ok ==> forall b :: b in old(dirty) && ScoreOrder(LiveOf(redis.View(), b)) != [] ==>
        CandleStored(redis.View(), b, updatedAt)
    {
      hide Goes, ScoreOrder, StatsOf;
      ghost var m0 := At(Recomputing(lastId, batch));
      acts := [];
      Goes0(m0);
      while dirty != {}
        invariant Goes(m0, acts, At(Recomputing(lastId, batch)))
        invariant redis.live == old(redis.live)
        invariant forall b :: b in old(dirty) && b !in dirty && ScoreOrder(LiveOf(redis.View(), b)) != [] ==>
          CandleStored(redis.View(), b, updatedAt)
        decreases dirty
      {
        ghost var m1 := At(Recomputing(lastId, batch));
        var b :| b in dirty;
        dirty := dirty - {b};
        var values;
        ok, values := redis.GetLiveRawValues(b);
        if ok && values != [] {
          ok := redis.SetStats(b, Stored(StatsOf(values), Some(updatedAt)));
          if ok {
            ok := redis.Publish();
          }
        }
        ghost var more := RecomputedOrFailed(m1, At(Recomputing(lastId, batch)), b, ok);
        Then(m0, acts, m1, more, At(if ok then Recomputing(lastId, batch) else Ready(lastId)));
        acts := acts + more;
        if !ok { return; }
      }
      ok := true;
    }

    /** Freeze what is due and has live values; forget it either way. */
    method ProcessFreezes(lastId: int, nextId: int, ghost p: Phase) returns (ok: bool, ghost acts: seq<Action>)
      requires FreezesNext(At(p), lastId, nextId)
      modifies redis, freezer
      ensures Goes(old(At(p)), acts, At(if ok then Freezing(lastId, nextId, []) else Ready(lastId)))
      ensures !ok ==> Raised(acts)
    {
      hide Goes, Apply, Outcome, ScoreOrder, StatsOf, Due, InferTime, FreezeScore, Dropped, FreezesNext;
      ghost var m0 := At(p);
      var due, now := freezer.DueNow();
      acts := StartFreezing(m0, lastId, nextId, now);
      assert due[0..] == due;
      for k := 0 to |due|
        invariant Goes(m0, acts, At(Freezing(lastId, nextId, due[k..])))
      {
        ghost var m1 := At(Freezing(lastId, nextId, due[k..]));
        var b := due[k];
        var values;
        ok, values := redis.GetLiveRawValues(b);
        ghost var frozen := false;
        if ok && values != [] {
          if InferTime(b.key, b.unit).None? {
            ok := false;
          } else {
            frozen := true;
            ok := redis.Freeze(b, Stored(StatsOf(values), None), FreezeScore(b));
          }
        }
        ghost var m2 := At(Freezing(lastId, nextId, due[k..]));
        ghost var more := FrozenOrFailed(m1, m2, b, frozen, ok);
        Then(m0, acts, m1, more, At(if ok then Freezing(lastId, nextId, due[k..]) else Ready(lastId)));
        acts := acts + more;
        if !ok { return; }
        freezer.Drop(b);
        DropStep(m2);
        assert due[k..][1..] == due[k + 1..];
        ghost var m3 := At(Freezing(lastId, nextId, due[k + 1..]));
        Then(m0, acts, m2, [DropDue], m3);
        acts := acts + [DropDue];
        if values != [] {
          ok := redis.Publish();
          if !ok {
            FailStep(m3, dirty);
            Then(m0, acts, m3, [Fail(dirty)], At(Ready(lastId)));
            acts := acts + [Fail(dirty)];
            return;
          }
        }
      }
      ok := true;
    }

    /** One tick. An exception leaves the caller with the id it had. */
    method Tick(lastId: int) returns (ok: bool, next: int, ghost acts: seq<Action>)
      requires db.Valid()
      modifies this, db, redis, freezer
      ensures Goes(old(At(Ready(lastId))), acts, At(Ready(next)))
      ensures if ok then Completed(acts) else Raised(acts) && next == lastId
    {
      hide Goes, Apply, Outcome, Due, FetchSince, Table;
      ghost var m0 := At(Ready(lastId));
      next := lastId;
      var batch;
      ok, batch := db.FetchSamplesSince(lastId, batchLimit);
      ghost var m1 := At(Ready(lastId));
      acts := Arrivals(m0, db.Rows());
      ghost var p := Ready(lastId);
      var end := lastId;
      if !ok {
        FailStep(m1, dirty);
        Then(m0, acts, m1, [Fail(dirty)], At(Ready(lastId)));
        acts := acts + [Fail(dirty)];
        return;
      }
      if batch != [] {
        FetchStep(m1, 0.0);
        Then(m0, acts, m1, [Fetch(0.0)], At(Filing(lastId, batch, 0, 0)));
        acts := acts + [Fetch(0.0)];
        ghost var more;
        ghost var m2 := At(Filing(lastId, batch, 0, 0));
        ok, more := FileSamples(lastId, batch);
        Then(m0, acts, m2, more, At(if ok then Filing(lastId, batch, |batch|, 0) else Ready(lastId)));
        acts := acts + more;
        if !ok { return; }

        var last := batch[|batch| - 1];
        ghost var m3 := At(Filing(lastId, batch, |batch|, 0));
        ok := redis.SetCursorTo(last.id, last.at);
        more := MovedOrFailed(m3, At(Filing(lastId, batch, |batch|, 0)), last, ok);
        Then(m0, acts, m3, more, At(if ok then Recomputing(lastId, batch) else Ready(lastId)));
        acts := acts + more;
        if !ok { return; }

        ghost var m4 := At(Recomputing(lastId, batch));
        ok, more := RecomputeDirty(lastId, batch, last.at);
        Then(m0, acts, m4, more, At(if ok then Recomputing(lastId, batch) else Ready(lastId)));
        acts := acts + more;
        if !ok { return; }
        end, p := last.id, Recomputing(lastId, batch);
      }
      ghost var m5 := At(p);
      ghost var more;
      ok, more := ProcessFreezes(lastId, end, p);
      Then(m0, acts, m5, more, At(if ok then Freezing(lastId, end, []) else Ready(lastId)));
      acts := acts + more;
      if !ok { return; }
      ghost var m6 := At(Freezing(lastId, end, []));
      TickEndStep(m6);
      next := end;
      Then(m0, acts, m6, [TickEnd], At(Ready(next)));
      acts := acts + [TickEnd];
    }

    /** A cold start if there is no cursor, a warm one otherwise. */
    method Start(chunk: nat) returns (ok: bool, lastId: int, ghost acts: seq<Action>)
      requires db.Valid() && chunk > 0 && batchLimit > 0 && At(Down).task == NEW_TASK
      modifies this, db, redis, freezer
      ensures Goes(old(At(Down)), acts, At(if ok then Ready(lastId) else Down))
    {
      hide Goes, Apply, Outcome, Table, ColdWrites, LastKeysAt;
      ghost var m0 := At(Down);
      acts := [];
      Goes0(m0);
      var lastSampledAt;
      ok, lastId, lastSampledAt := redis.GetCursor();
      if !ok { return; }
      if lastId == 0 && lastSampledAt.None? {
        ghost var done;
        ok, lastId, lastSampledAt, done := ColdStart.ColdStart(db, redis, chunk);
        ghost var m1 := m0.(table := db.Rows());
        acts := Arrivals(m0, db.Rows());
        if ok && lastSampledAt.Some? {
          SeedLastBuckets(lastSampledAt.value);
        }
        ghost var m2 := At(if ok then Ready(lastId) else Down);
        ghost var more := ColdStarted(m1, m2, done, ok);
        Then(m0, acts, m1, more, m2);
        acts := acts + more;
      } else {
        SeedLastBuckets(lastSampledAt.value);
        acts := WarmStarted(m0, At(Ready(lastId)));
      }
    }

    /** A whole life: a start, then ticks until it is told to stop, or until so many
        in a row have failed. An exception while it starts ends it. */
    method Run(chunk: nat, rounds: nat, failureCap: nat)
      returns (raised: bool, ghost phase: Phase, ghost start: seq<Action>, ghost ticks: seq<seq<Action>>)
      requires db.Valid() && chunk > 0 && batchLimit > 0 && At(Down).task == NEW_TASK
      modifies this, db, redis, freezer
      ensures Goes(old(At(Down)), start + Joined(ticks), At(phase))
      ensures if raised then phase.Down? && ticks == [] else phase.Ready?
      ensures forall k :: 0 <= k < |ticks| ==> Completed(ticks[k]) || Raised(ticks[k])
      ensures raised || |ticks| == rounds ||
        (failureCap <= |ticks| < rounds && forall k :: |ticks| - failureCap <= k < |ticks| ==> Raised(ticks[k]))
      ensures failureCap > 0 ==> forall n :: n < |ticks| ==> !AllFailed(ticks, n, failureCap)
    {
      hide Goes, At, Raised, Completed;
      ghost var m0 := At(Down);
      ticks := [];
      var ok, lastId;
      ok, lastId, start := Start(chunk);
      raised, phase := !ok, if ok then Ready(lastId) else Down;
      assert start + Joined([]) == start;
      if !ok { return; }
      var failures := 0;
      for round := 0 to rounds
        invariant phase == Ready(lastId) && Goes(m0, start + Joined(ticks), At(phase))
        invariant |ticks| == round && failures <= round
        invariant forall k :: 0 <= k < round ==> Completed(ticks[k]) || Raised(ticks[k])
        invariant forall k :: round - failures <= k < round ==> Raised(ticks[k])
        invariant failures < round ==> Completed(ticks[round - failures - 1])
        invariant failures == 0 || failures < failureCap
        invariant failureCap > 0 ==> forall n :: n < round ==> !AllFailed(ticks, n, failureCap)
      {
        ghost var m1 := At(phase);
        ghost var more;
        ok, lastId, more := Tick(lastId);
        phase := Ready(lastId);
        Then(m0, start + Joined(ticks), m1, more, At(phase));
        JoinedMore(start, ticks, more);
        NotYet(ticks, more, failures, failureCap);
        ticks := ticks + [more];
        failures := if ok then 0 else failures + 1;
        if !ok && failures >= failureCap { return; }
      }
    }
  }

  /** The last `cap` of the first `n` ticks have all failed. */
  predicate AllFailed(ticks: seq<seq<Action>>, n: int, cap: nat) {
    cap <= n <= |ticks| && forall k :: n - cap <= k < n ==> Raised(ticks[k])
  }

  /** The cap has not been reached while fewer ticks than that have failed in a row. */
  lemma NotYet(ticks: seq<seq<Action>>, more: seq<Action>, failures: nat, cap: nat)
    requires cap > 0 ==> forall n :: n < |ticks| ==> !AllFailed(ticks, n, cap)
    requires failures == 0 || failures < cap
    requires failures < |ticks| ==> Completed(ticks[|ticks| - failures - 1])
    ensures cap > 0 ==> forall n :: n < |ticks + [more]| ==> !AllFailed(ticks + [more], n, cap)
  {
    forall n | cap > 0 && n < |ticks + [more]| ensures !AllFailed(ticks + [more], n, cap) {
      if AllFailed(ticks + [more], n, cap) {
        assert forall k :: n - cap <= k < n ==> (ticks + [more])[k] == ticks[k];
        if n < |ticks| {
          assert AllFailed(ticks, n, cap);
        }
      }
    }
  }

  function Joined(parts: seq<seq<Action>>): seq<Action> {
    if parts == [] then [] else Joined(parts[..|parts| - 1]) + parts[|parts| - 1]
  }

  lemma JoinedMore(start: seq<Action>, parts: seq<seq<Action>>, part: seq<Action>)
    ensures start + Joined(parts + [part]) == start + Joined(parts) + part
  {
    assert (parts + [part])[..|parts|] == parts;
  }

  function AfterUnit(p: Phase): Phase
    requires p.Filing? && p.u < |UNITS|
  {
    if p.u + 1 < |UNITS| then p.(u := p.u + 1) else p.(i := p.i + 1, u := 0)
  }

  lemma OwnUnit(s: Sample, u: Unit)
    ensures BucketOf(s, u).unit == u
  {
    hide BucketKey;
  }

  /** The lookup and update of the last-seen key is the boundary action, if any. */
  lemma Noted(m0: Machine, m1: Machine, b: Bucket, now: real) returns (acts: seq<Action>)
    requires AtSample(m0) && b == Target(m0.phase)
    requires var t := m0.task;
             m1 == m0.(task := Task(t.lastKeys[b.unit := b.key],
                                    if b.unit in t.lastKeys && t.lastKeys[b.unit] != b.key
                                    then Scheduled(t.pending, b.unit, t.lastKeys[b.unit], now + m0.grace)
                                    else t.pending,
                                    t.dirty))
    ensures Goes(m0, acts, m1) && AtSample(m1) && KeySeen(m1)
  {
    BoundaryStep(m0, now);
    hide BucketOf, Goes, Scheduled;
    if KeySeen(m0) {
      assert m0.task.lastKeys[b.unit := b.key] == m0.task.lastKeys;
      acts := [];
    } else {
      acts := [NoteBoundary(now)];
    }
  }

  /** The command that adds the value either is the filing action or an exception,
      which may come before or after the value was added. */
  lemma FiledOrFailed(m1: Machine, m2: Machine, b: Bucket, ok: bool) returns (acts: seq<Action>)
    requires AtSample(m1) && KeySeen(m1) && b == Target(m1.phase)
    requires var s := m1.phase.batch[m1.phase.i];
             && m2 == m1.(store := m2.store,
                         task := m1.task.(dirty := if ok then m1.task.dirty + {b} else m1.task.dirty))
             && Outcome(m1.store, AddLiveRaw(b, s.id, s.value), m2.store, ok)
    ensures Goes(m1, acts,
                 m2.(phase := if ok then AfterUnit(m1.phase) else Ready(m1.phase.lastId)))
    ensures !ok ==> Raised(acts)
  {
    hide BucketOf, Apply, Goes;
    var failed := m2.(phase := Ready(m1.phase.lastId));
    if m2.store == m1.store && !ok {
      FailStep(m1, m1.task.dirty);
      acts := [Fail(m1.task.dirty)];
    } else {
      FileStep(m1);
      var filed := AfterFiling(m1);
      acts := [FileSample];
      if !ok {
        FailStep(filed, m1.task.dirty);
        Then(m1, acts, filed, [Fail(m1.task.dirty)], failed);
        acts := acts + [Fail(m1.task.dirty)];
      }
    }
  }

  lemma MovedOrFailed(m1: Machine, m2: Machine, last: Sample, ok: bool) returns (acts: seq<Action>)
    requires m1.phase.Filing? && m1.phase.batch != [] && m1.phase.i == |m1.phase.batch| && m1.phase.u == 0
    requires last == m1.phase.batch[|m1.phase.batch| - 1] && m2 == m1.(store := m2.store)
    requires Outcome(m1.store, SetCursor(Cursor(last.id, last.at)), m2.store, ok)
    ensures Goes(m1, acts,
                 m2.(phase := if ok then Recomputing(m1.phase.lastId, m1.phase.batch) else Ready(m1.phase.lastId)))
    ensures !ok ==> Raised(acts)
  {
    hide Apply, Goes;
    var failed := m2.(phase := Ready(m1.phase.lastId));
    if m2.store == m1.store && !ok {
      FailStep(m1, m1.task.dirty);
      acts := [Fail(m1.task.dirty)];
    } else {
      MoveStep(m1, last);
      var moved := m2.(phase := Recomputing(m1.phase.lastId, m1.phase.batch));
      acts := [MoveCursor];
      if !ok {
        FailStep(moved, m1.task.dirty);
        Then(m1, acts, moved, [Fail(m1.task.dirty)], failed);
        acts := acts + [Fail(m1.task.dirty)];
      }
    }
  }

  /** A dirty bucket has been taken off and recomputed, or something was raised on
      the way; then its mark is lost. */
  lemma RecomputedOrFailed(m1: Machine, m2: Machine, b: Bucket, ok: bool) returns (acts: seq<Action>)
    requires m1.phase.Recomputing? && m1.phase.batch != [] && b in m1.task.dirty
    requires m2 == m1.(store := m2.store, task := m1.task.(dirty := m1.task.dirty - {b}))
    requires m2.store == AfterRecompute(m1, b).store || (!ok && m2.store == m1.store)
    ensures Goes(m1, acts,
                 m2.(phase := if ok then m1.phase else Ready(m1.phase.lastId)))
    ensures !ok ==> Raised(acts)
  {
    hide Apply, Goes, ScoreOrder, StatsOf;
    var failed, dirty := m2.(phase := Ready(m1.phase.lastId)), m2.task.dirty;
    if m2.store == m1.store && !ok {
      FailStep(m1, dirty);
      acts := [Fail(dirty)];
    } else {
      RecomputeStep(m1, b);
      acts := [Recompute(b)];
      if !ok {
        FailStep(m2, dirty);
        Then(m1, acts, m2, [Fail(dirty)], failed);
        acts := acts + [Fail(dirty)];
      }
    }
  }

  /** Where a tick goes on to the freezes. */
  ghost predicate FreezesNext(m: Machine, lastId: int, nextId: int) {
    || (m.phase == Ready(lastId) && nextId == lastId && FetchSince(m.table, lastId, m.limit) == [])
    || (m.phase.Recomputing? && m.phase.lastId == lastId && m.phase.batch != []
        && nextId == m.phase.batch[|m.phase.batch| - 1].id && m.task.dirty == {})
  }

  lemma StartFreezing(m: Machine, lastId: int, nextId: int, now: real) returns (acts: seq<Action>)
    requires FreezesNext(m, lastId, nextId)
    ensures Goes(m, acts, m.(phase := Freezing(lastId, nextId, Due(m.task.pending, now))))
  {
    hide Goes, Due, FetchSince;
    if m.phase.Ready? {
      FetchStep(m, now);
      acts := [Fetch(now)];
    } else {
      RecomputedStep(m, now);
      acts := [RecomputeEnd(now)];
    }
  }

  /** The due bucket has been frozen, or had no live values, or something was raised
      before or after the transaction. */
  lemma FrozenOrFailed(m1: Machine, m2: Machine, b: Bucket, frozen: bool, ok: bool) returns (acts: seq<Action>)
    requires m1.phase.Freezing? && m1.phase.due != [] && m1.phase.due[0] == b && m2 == m1.(store := m2.store)
    requires frozen ==> ScoreOrder(LiveOf(m1.store, b)) != [] && InferTime(b.key, b.unit).Some?
    requires if frozen then Outcome(m1.store, FrozenWrite(m1.store, b), m2.store, ok)
             else m2.store == m1.store && (ok ==> ScoreOrder(LiveOf(m1.store, b)) == [])
    ensures Goes(m1, acts,
                 m2.(phase := if ok then m1.phase else Ready(m1.phase.lastId)))
    ensures !ok ==> Raised(acts)
    ensures ok ==> ScoreOrder(LiveOf(m2.store, b)) == []
  {
    hide Goes, Apply, ScoreOrder, InferTime, StatsOf, FreezeScore;
    var failed, dirty := m2.(phase := Ready(m1.phase.lastId)), m2.task.dirty;
    if m2.store == m1.store && !ok {
      FailStep(m1, dirty);
      acts := [Fail(dirty)];
    } else if frozen {
      FreezeStep(m1);
      var w := FrozenWrite(m1.store, b);
      FrozenIsEmpty(m1.store, b, w.stats, w.score);
      acts := [WriteFrozen];
      if !ok {
        FailStep(m2, dirty);
        Then(m1, acts, m2, [Fail(dirty)], failed);
        acts := acts + [Fail(dirty)];
      }
    } else {
      Goes0(m1);
      acts := [];
    }
  }

  // ----- starting -----

  lemma WarmStarted(m0: Machine, m1: Machine) returns (acts: seq<Action>)
    requires m0.phase.Down? && m0.limit > 0 && m0.task == NEW_TASK && m0.store.cursor.Some?
    requires var c := m0.store.cursor.value;
             m1 == m0.(phase := Ready(c.lastId), task := NEW_TASK.(lastKeys := map[] + LastKeysAt(c.lastSampledAt)))
    ensures Goes(m0, acts, m1)
  {
    hide Goes, LastKeysAt;
    var c := m0.store.cursor.value;
    assert map[] + LastKeysAt(c.lastSampledAt) == LastKeysAt(c.lastSampledAt);
    One(m0, Boot(m0.limit, m0.grace), m1);
    acts := [Boot(m0.limit, m0.grace)];
  }

  /** The first `done` writes of a cold start as actions. */
  lemma {:induction false} Backfills(m: Machine, done: nat) returns (acts: seq<Action>)
    requires m.phase.ColdStart? && m.phase.rows != [] && m.phase.done <= done <= |ColdWrites(m.phase.rows)|
    ensures Goes(m, acts, m.(store := ApplyAll(m.store, ColdWrites(m.phase.rows)[m.phase.done..done]),
                             phase := ColdStart(m.phase.rows, done)))
    decreases done - m.phase.done
  {
    hide Goes, ColdWrites, Apply;
    var ws, k := ColdWrites(m.phase.rows), m.phase.done;
    if k == done {
      assert ws[k..done] == [];
      Goes0(m);
      acts := [];
    } else {
      var m1 := m.(store := Apply(m.store, ws[k]), phase := ColdStart(m.phase.rows, k + 1));
      One(m, BackfillWrite, m1);
      var rest := Backfills(m1, done);
      assert ws[k..done][1..] == ws[k + 1..done] && ws[k..done][0] == ws[k];
      Then(m, [BackfillWrite], m1, rest,
           m1.(store := ApplyAll(m1.store, ws[k + 1..done]), phase := ColdStart(m.phase.rows, done)));
      acts := [BackfillWrite] + rest;
    }
  }

  lemma ColdStarted(m0: Machine, m1: Machine, done: nat, ok: bool) returns (acts: seq<Action>)
    requires m0.phase.Down? && m0.limit > 0 && m0.task == NEW_TASK && m0.store.cursor.None?
    requires m1 == m0.(store := m1.store, phase := m1.phase, task := m1.task)
    requires m0.table == [] ==> done == 0 && m1.store == m0.store
    requires m0.table == [] && ok ==> m1.phase == Ready(0) && m1.task == NEW_TASK
    requires m0.table != [] ==> Written(m0.store, ColdWrites(m0.table), done, m1.store, ok)
    requires m0.table != [] && ok ==>
      var last := m0.table[|m0.table| - 1];
      m1.phase == Ready(last.id) && m1.task == NEW_TASK.(lastKeys := map[] + LastKeysAt(last.at))
    requires !ok ==> m1.phase == Down && m1.task == NEW_TASK
    ensures Goes(m0, acts, m1)
  {
    hide Goes, ColdWrites, LastKeysAt, ApplyAll;
    var cold := m0.(phase := ColdStart(m0.table, 0));
    One(m0, Boot(m0.limit, m0.grace), cold);
    acts := [Boot(m0.limit, m0.grace)];
    var written := m0.(store := m1.store, phase := ColdStart(m0.table, done));
    if m0.table != [] {
      var writes := Backfills(cold, done);
      Then(m0, acts, cold, writes, written);
      acts := acts + writes;
      var at := m0.table[|m0.table| - 1].at;
      assert map[] + LastKeysAt(at) == LastKeysAt(at);
    }
    var end := if ok then BackfillEnd else Crash;
    One(written, end, m1);
    Then(m0, acts, written, [end], m1);
    acts := acts + [end];
  }

  // ----- what follows for the program -----

  /** Whatever runs, crashes and restarts a station has behind it since its keys were
      empty: after one more run of the program the cache agrees with the sample table,
      as long as every exception was retried safely. */
  lemma ProgramAgrees(first: Machine, past: seq<Action>, m0: Machine, acts: seq<Action>, m1: Machine)
    requires CacheSafety.Fresh(first) && Goes(first, past, m0) && Goes(m0, acts, m1)
    requires CacheSafety.SafeRun(first, past + acts)
    ensures CacheSafety.Agrees(m1)
  {
    hide CacheSafety.Fresh, CacheSafety.SafeRun, CacheSafety.Agrees;
    Then(first, past, m0, acts, m1);
    CacheSafety.CacheRefinesTable(first, past + acts);
  }
}
