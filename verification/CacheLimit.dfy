/** What a restart with a smaller batch limit does to the live sets: exactly which limits
    keep them right, and a run in which one does not. */
module CacheLimit {
  import opened Wrappers
  import opened Buckets
  import opened Samples
  import opened CandleStore
  import opened StationMachine
  import opened CacheInvariant
  import opened CacheSafety
  import opened CacheProgress
  import opened CacheRetry

  // ----- when live sets are exact -----

  /** No live value belongs to a sample beyond the cursor: what Redis itself can tell. */
  ghost predicate NothingBeyond(s: Store) {
    forall b, id :: b in s.live && id in s.live[b] ==> s.cursor.Some? && id <= s.cursor.value.lastId
  }

  /** Rows up to the cursor are those with an id up to the cursor's. */
  lemma UpToCursor(rows: seq<Sample>, s: Store, i: int)
    requires Ordered(rows) && 0 <= i < |rows|
    ensures i < Position(rows, s) <==> s.cursor.Some? && rows[i].id <= s.cursor.value.lastId
  {
    if s.cursor.Some? { ConsumedBounds(rows, s.cursor.value.lastId); }
  }

  lemma ExactUpTo(rows: seq<Sample>, s: Store, h: nat, b: Bucket)
    requires Table(rows) && h <= |rows| && LiveSound(rows[..h], s) && b !in s.frozen && NothingBeyond(s)
    requires Kept(rows[..Position(rows, s)], s)
    ensures Exact(rows[..Position(rows, s)], b, LiveOf(s, b))
  {
    hide Table, Position, BucketKey, HasSample;
    TableOrdered(rows);
    var k := Position(rows, s);
    forall i | 0 <= i < k && In(rows[..k][i], b)
      ensures rows[..k][i].id in LiveOf(s, b) && LiveOf(s, b)[rows[..k][i].id] == rows[..k][i].value
    {
      assert Held(s, rows[..k][i], b.unit);
      assert rows[..k][i] == rows[i];
      LiveValue(rows, s, h, b, i);
    }
    forall id | id in LiveOf(s, b) ensures exists i :: 0 <= i < k && In(rows[..k][i], b) && rows[..k][i].id == id {
      LiveSample(rows, s, h, b, id);
      var i :| 0 <= i < h && In(rows[i], b) && rows[i].id == id;
      UpToCursor(rows, s, i);
      assert rows[..k][i] == rows[i];
    }
  }

  lemma ExactWhenNothingBeyond(m: Machine, h: nat)
    requires Inv(m, h)
    ensures LiveExact(m) <==> NothingBeyond(m.store)
  {
    hide Inv, Table, FrozenSound, CursorRight, Position, In, BucketOf, HasSample, LiveSound, Kept;
    var n := SoundParts(m, h);
    InvKept(m, h);
    TableOrdered(m.table);
    var k, s := Position(m.table, m.store), m.store;
    if LiveExact(m) {
      forall b, id | b in s.live && id in s.live[b] ensures s.cursor.Some? && id <= s.cursor.value.lastId {
        assert b !in s.frozen && Exact(m.table[..k], b, LiveOf(s, b));
        var i :| 0 <= i < k && In(m.table[..k][i], b) && m.table[..k][i].id == id;
        UpToCursor(m.table, s, i);
      }
    }
    if NothingBeyond(s) {
      forall b | b !in s.frozen ensures Exact(m.table[..k], b, LiveOf(s, b)) {
        ExactUpTo(m.table, s, h, b);
      }
    }
  }

  // ----- which limits a restart may have -----

  /** After a restart with this limit, only arrivals and ticks. */
  ghost predicate Undisturbed(m: Machine, limit: nat, grace: real, later: seq<Action>) {
    && Enabled(m, Boot(limit, grace)) && IsRun(Next(m, Boot(limit, grace)), later)
    && forall a :: a in later ==> !a.Crash? && !a.Fail? && !a.Boot?
  }

  ghost function AfterRestart(m: Machine, limit: nat, grace: real, later: seq<Action>): Machine
    requires Undisturbed(m, limit, grace, later)
  {
    Run(Next(m, Boot(limit, grace)), later)
  }

  /** However it goes on, live sets are exact whenever a tick has moved the cursor. */
  ghost predicate StaysExact(m: Machine, limit: nat) {
    forall grace, later | Undisturbed(m, limit, grace, later) ::
      var end := AfterRestart(m, limit, grace, later);
      end.phase.Recomputing? || end.phase.Freezing? ==> LiveExact(end)
  }

  lemma {:induction false} UndisturbedSteady(m: Machine, later: seq<Action>)
    requires IsRun(m, later) && forall a :: a in later ==> !a.Crash? && !a.Fail? && !a.Boot?
    ensures SteadyRun(m, later)
    decreases |later|
  {
    hide Enabled, Next, RetrySafe, WithinReach;
    if later != [] {
      assert later[0] in later;
      UndisturbedSteady(Next(m, later[0]), later[1..]);
    }
  }

  lemma WithinStaysExact(m: Machine, h: nat, limit: nat)
    requires Inv(m, h) && m.phase.Down? && m.store.cursor.Some? && StatsLive(m.store) && limit > 0
    requires WithinReach(m, limit)
    ensures StaysExact(m, limit)
  {
    hide Inv, InReach, StatsLive, WithinReach, LiveExact, Reach, Enabled, Next, IsRun, Run, SteadyRun;
    var low := Reach(m.(limit := limit), Pos(m));
    Lowered(m, h, limit);
    forall grace, later | Undisturbed(m, limit, grace, later)
      ensures var end := AfterRestart(m, limit, grace, later);
              end.phase.Recomputing? || end.phase.Freezing? ==> LiveExact(end)
    {
      var a := Boot(limit, grace);
      StatsStep(m, a, low);
      StepKeeps(m, a, low);
      StepReach(m, a, low);
      UndisturbedSteady(Next(m, a), later);
      var h' := RunReach(Next(m, a), later, Higher(m, a, low));
      var end := AfterRestart(m, limit, grace, later);
      if end.phase.Recomputing? || end.phase.Freezing? { ReachedExact(end, h'); }
    }
  }

  predicate NoFail(actions: seq<Action>) {
    forall a :: a in actions ==> !a.Fail?
  }

  lemma {:induction false} NoFailSafe(m: Machine, actions: seq<Action>)
    requires IsRun(m, actions) && NoFail(actions)
    ensures SafeRun(m, actions)
    decreases |actions|
  {
    hide Enabled, Next, RetrySafe;
    if actions != [] {
      assert actions[0] in actions;
      NoFailSafe(Next(m, actions[0]), actions[1..]);
    }
  }

  /** A value filed for a sample stays in its live set while other samples are filed. */
  lemma {:induction false} StaysLive(s: Store, batch: seq<Sample>, i: nat, u: nat, y: Sample, v: Unit)
    requires i <= |batch| && u < |UNITS| && InLive(s, y, v)
    ensures InLive(FileRest(s, batch, i, u), y, v)
    decreases |batch| - i, |UNITS| - u
  {
    hide BucketOf, Apply, InLive;
    if i < |batch| {
      var x, b := batch[i], BucketOf(batch[i], UNITS[u]);
      AddKeepsHeld(s, b, x.id, x.value, y, v);
      var s1 := Apply(s, AddLiveRaw(b, x.id, x.value));
      if u + 1 < |UNITS| { StaysLive(s1, batch, i, u + 1, y, v); } else { StaysLive(s1, batch, i + 1, 0, y, v); }
    }
  }

  /** A live value that the first batch after the restart does not cover. */
  lemma FirstBatch(m: Machine, h: nat, limit: nat, b: Bucket, id: int) returns (p: nat, k: nat)
    requires Inv(m, h) && m.phase.Down? && m.store.cursor.Some? && limit > 0
    requires b in m.store.live && id in m.store.live[b] && Consumed(m.table, id) > Pos(m) + limit
    ensures p + limit <= k < |m.table| && m.table[p + limit - 1].id < m.table[k].id
    ensures InLive(m.store, m.table[k], b.unit)
    ensures FetchSince(m.table, m.store.cursor.value.lastId, limit) == m.table[p..p + limit]
  {
    hide FrozenSound, Apart, Table, Consumed, Kept, Position, LiveSound, Ordered, FetchSince, BucketKey;
    var lastId := m.store.cursor.value.lastId;
    p := Pos(m);
    TableOrdered(m.table);
    IdAtRow(m.table, p);
    LiveSample(m.table, m.store, h, b, id);
    k :| 0 <= k < h && In(m.table[k], b) && m.table[k].id == id;
    ConsumedById(m.table, k + 1);
    FetchReaches(m.(limit := limit), lastId, p);
    IdsRise(m.table, p + limit - 1, k);
  }

  lemma IdsRise(rows: seq<Sample>, i: nat, j: nat)
    requires Ordered(rows) && i < j < |rows|
    ensures rows[i].id < rows[j].id
  {
  }

  /** The restart and the first fetch. */
  lemma BootsAndFetches(m: Machine, limit: nat, batch: seq<Sample>) returns (m1: Machine, m2: Machine)
    requires m.phase.Down? && m.store.cursor.Some? && limit > 0 && batch != []
    requires FetchSince(m.table, m.store.cursor.value.lastId, limit) == batch
    ensures Enabled(m, Boot(limit, 0.0)) && m1 == Next(m, Boot(limit, 0.0))
    ensures IsRun(m1, [Fetch(0.0)]) && m2 == Run(m1, [Fetch(0.0)])
    ensures m2.phase == Phase.Filing(m.store.cursor.value.lastId, batch, 0, 0) && m2.store == m.store
  {
    hide FetchSince, LastKeysAt;
    m1 := Next(m, Boot(limit, 0.0));
    m2 := Next(m1, Fetch(0.0));
    Chain(m1, [Fetch(0.0)], [m1, m2]);
  }

  /** The tick that files the first batch leaves that value beyond the cursor. */
  lemma BeyondReach(m: Machine, h: nat, limit: nat, b: Bucket, id: int) returns (later: seq<Action>)
    requires Inv(m, h) && m.phase.Down? && m.store.cursor.Some? && limit > 0
    requires b in m.store.live && id in m.store.live[b] && Consumed(m.table, id) > Pos(m) + limit
    ensures Undisturbed(m, limit, 0.0, later) && SafeRun(m, [Boot(limit, 0.0)] + later)
    ensures var end := AfterRestart(m, limit, 0.0, later); end.phase.Recomputing? && !LiveExact(end)
  {
    hide Inv, IsRun, Run, SafeRun, LiveExact, NothingBeyond, InLive, FetchSince, FileRest, TaskRest, Consumed, Pos,
         Enabled, Next, BucketOf, Apply, Higher;
    var p, k := FirstBatch(m, h, limit, b, id);
    var batch, y := m.table[p..p + limit], m.table[k];
    var m1, m2 := BootsAndFetches(m, limit, batch);
    FourUnits();
    var filing := FilingRuns(m2, 0.0);
    var m3 := Run(m2, filing);
    StaysLive(m.store, batch, 0, 0, y, b.unit);
    var last := batch[limit - 1];
    CursorMoves(m3, last);
    CursorKeepsLive(m3.store, Cursor(last.id, last.at), y, b.unit);
    RunConcat(m1, [Fetch(0.0)], filing);
    RunConcat(m1, [Fetch(0.0)] + filing, [MoveCursor]);
    later := [Fetch(0.0)] + filing + [MoveCursor];
    NoFailSafe(m1, later);
    SafeAfterBoot(m, limit, later);
    StepKeeps(m, Boot(limit, 0.0), h);
    RunKeeps(m1, later, Higher(m, Boot(limit, 0.0), h));
    var end := Run(m1, later);
    BeyondShows(end.store, last, y, b.unit);
    ExactWhenNothingBeyond(end, HighWater(m1, later, Higher(m, Boot(limit, 0.0), h)));
  }

  lemma SafeAfterBoot(m: Machine, limit: nat, later: seq<Action>)
    requires Enabled(m, Boot(limit, 0.0)) && SafeRun(Next(m, Boot(limit, 0.0)), later)
    ensures SafeRun(m, [Boot(limit, 0.0)] + later)
  {
    hide Enabled, Next;
    assert ([Boot(limit, 0.0)] + later)[1..] == later;
  }

  lemma CursorKeepsLive(s: Store, c: Cursor, y: Sample, u: Unit)
    ensures var s' := Apply(s, SetCursor(c)); s'.cursor == Some(c) && (InLive(s, y, u) ==> InLive(s', y, u))
  {
    hide BucketOf;
  }

  lemma BeyondShows(s: Store, x: Sample, y: Sample, u: Unit)
    requires x.id < y.id && s.cursor == Some(Cursor(x.id, x.at)) && InLive(s, y, u)
    ensures !NothingBeyond(s)
  {
    hide BucketOf;
    assert y.id in LiveOf(s, BucketOf(y, u));
  }

  lemma {:induction false} SafeStats(m: Machine, actions: seq<Action>, h: nat)
    requires Inv(m, h) && SafeRun(m, actions) && StatsLive(m.store)
    ensures IsRun(m, actions) && StatsLive(Run(m, actions).store)
    decreases |actions|
  {
    hide Inv, Enabled, Next, RetrySafe, Higher, StatsLive;
    if actions != [] {
      StatsStep(m, actions[0], h);
      StepKeeps(m, actions[0], h);
      SafeStats(Next(m, actions[0]), actions[1..], Higher(m, actions[0], h));
    }
  }

  /** Which batch limits a restart may have, after any safe run: live sets stay exact
      whenever a tick has moved the cursor, as long as nothing but arrivals and ticks
      follows, if and only if the limit reaches every live value from the cursor on - what
      can be told from Redis and the table before the restart. */
  lemma RestartDomain(m: Machine, actions: seq<Action>, limit: nat)
    requires Fresh(m) && SafeRun(m, actions) && limit > 0
    ensures IsRun(m, actions)
    ensures var down := Run(m, actions);
            down.phase.Down? && down.store.cursor.Some? ==> (StaysExact(down, limit) <==> WithinReach(down, limit))
  {
    hide Inv, Fresh, StatsLive, SafeRun, LiveExact, Undisturbed, AfterRestart, Consumed, Pos;
    FreshInv(m);
    FreshReach(m);
    RunKeeps(m, actions, 0);
    SafeStats(m, actions, 0);
    var down, h := Run(m, actions), HighWater(m, actions, 0);
    if down.phase.Down? && down.store.cursor.Some? {
      if WithinReach(down, limit) {
        WithinStaysExact(down, h, limit);
      } else {
        var b, id :| b in down.store.live && id in down.store.live[b] && Consumed(down.table, id) > Pos(down) + limit;
        var later := BeyondReach(down, h, limit, b, id);
        assert Undisturbed(down, limit, 0.0, later);
      }
    }
  }

  // ----- a restart that breaks -----

  /** Three samples in order. */
  predicate InTurn(w: Sample, x: Sample, y: Sample) {
    && 0 < w.id < x.id < y.id
    && Calendar.Instant(w.at) <= Calendar.Instant(x.at) && Calendar.Instant(x.at) <= Calendar.Instant(y.at)
  }

  /** Start on an empty table, file one sample, move the cursor to it, and die. */
  lemma FirstTick(w: Sample, now: real) returns (acts: seq<Action>, s: Store)
    requires w.id > 0
    ensures IsRun(EMPTY_STATION, acts) && NoFail(acts) && s.cursor == Some(Cursor(w.id, w.at))
    ensures Run(EMPTY_STATION, acts) == Machine([w], s, NEW_TASK, Down, 2, 0.0)
  {
    hide BucketOf, FileRest, TaskRest, IsRun, Run;
    var a := ArrivesAlone(w, now);
    var m1 := Machine([w], EMPTY_STORE, NEW_TASK, Phase.Filing(0, [w], 0, 0), 2, 0.0);
    FourUnits();
    var b := FilingRuns(m1, now);
    RunConcat(EMPTY_STATION, a, b);
    var m2 := Run(m1, b);
    var c := CursorThenCrash(m2, w);
    RunConcat(EMPTY_STATION, a + b, c);
    acts, s := a + b + c, Apply(m2.store, SetCursor(Cursor(w.id, w.at)));
  }

  lemma ArrivesAlone(w: Sample, now: real) returns (acts: seq<Action>)
    requires w.id > 0
    ensures IsRun(EMPTY_STATION, acts) && NoFail(acts)
    ensures Run(EMPTY_STATION, acts)
         == Machine([w], EMPTY_STORE, NEW_TASK, Phase.Filing(0, [w], 0, 0), 2, 0.0)
  {
    hide BucketOf, Calendar.Instant;
    acts := [Boot(2, 0.0), BackfillEnd, Arrive(w), Fetch(now)];
    var m0 := EMPTY_STATION;
    var m1 := Next(m0, acts[0]);
    var m2 := Next(m1, acts[1]);
    var m3 := Next(m2, acts[2]);
    assert m3 == Machine([w], EMPTY_STORE, NEW_TASK, Ready(0), 2, 0.0);
    NewerOfNew([w], 0);
    var m4 := Next(m3, acts[3]);
    Chain(m0, acts, [m0, m1, m2, m3, m4]);
  }

  lemma CursorThenCrash(m: Machine, w: Sample) returns (acts: seq<Action>)
    requires m.phase.Filing? && m.phase.batch == [w] && m.phase.i == 1 && m.phase.u == 0
    ensures IsRun(m, acts) && NoFail(acts)
    ensures Run(m, acts) == m.(store := Apply(m.store, SetCursor(Cursor(w.id, w.at))), task := NEW_TASK, phase := Down)
  {
    hide BucketOf;
    acts := [MoveCursor, Crash];
    var m1 := Next(m, MoveCursor);
    Chain(m, acts, [m, m1, Next(m1, Crash)]);
  }

  /** Restart, let two samples arrive, and fetch the batch. */
  lemma Restarts(m: Machine, more: seq<Sample>, limit: nat, now: real, batch: seq<Sample>) returns (acts: seq<Action>)
    requires m.phase.Down? && m.store.cursor.Some? && limit > 0 && batch != [] && |more| == 2
    requires forall k :: 0 <= k < |more| ==>
      Enabled(m.(table := m.table + more[..k]), Arrive(more[k]))
    requires FetchSince(m.table + more, m.store.cursor.value.lastId, limit) == batch
    ensures IsRun(m, acts) && NoFail(acts)
    ensures var end := Run(m, acts);
            && end == m.(table := m.table + more, limit := limit, grace := 0.0, task := end.task,
                         phase := Phase.Filing(m.store.cursor.value.lastId, batch, 0, 0))
  {
    hide BucketOf, Calendar.Instant, FetchSince, LastKeysAt;
    var m1 := Next(m, Boot(limit, 0.0));
    assert more[..0] == [] && m.table + [] == m.table && more[..1] == [more[0]];
    assert m.table + [more[0]] + [more[1]] == m.table + more by { assert more == [more[0]] + [more[1]]; }
    var m2 := Next(m1, Arrive(more[0]));
    assert Enabled(m.(table := m.table + more[..1]), Arrive(more[1]));
    var m3 := Next(m2, Arrive(more[1]));
    acts := [Boot(limit, 0.0), Arrive(more[0]), Arrive(more[1]), Fetch(now)];
    Chain(m, acts, [m, m1, m2, m3, Next(m3, Fetch(now))]);
  }

  /** Two samples are filed and the process dies before it moves the cursor to them. */
  lemma TwoBeyond(s: Store, w: Sample, x: Sample, y: Sample, now: real) returns (acts: seq<Action>, end: Store)
    requires InTurn(w, x, y) && s.cursor == Some(Cursor(w.id, w.at))
    ensures var m := Machine([w], s, NEW_TASK, Down, 2, 0.0);
            IsRun(m, acts) && NoFail(acts) && Run(m, acts) == Machine([w, x, y], end, NEW_TASK, Down, 2, 0.0)
    ensures end.cursor == s.cursor && InLive(end, y, Hour)
  {
    hide BucketOf, FileRest, TaskRest, IsRun, Run, InLive, Calendar.Instant;
    var m := Machine([w], s, NEW_TASK, Down, 2, 0.0);
    FetchNext(w, x, y);
    assert [x, y][..0] == [] && [x, y][..1] == [x] && [w] + [x] == [w, x] && [w] + [] == [w];
    var a := Restarts(m, [x, y], 2, now, [x, y]);
    var m1 := Run(m, a);
    FourUnits();
    var b := FilingRuns(m1, now);
    RunConcat(m, a, b);
    FileRestKeys(s, [x, y], 0, 0);
    FiledStays(s, [x, y], 0, 0, 1, Hour);
    end := FileRest(s, [x, y], 0, 0);
    var m2 := Run(m1, b);
    Dies(m2);
    RunConcat(m, a + b, [Crash]);
    acts := a + b + [Crash];
  }

  lemma Dies(m: Machine)
    ensures IsRun(m, [Crash]) && Run(m, [Crash]) == m.(phase := Down, task := NEW_TASK)
  {
    assert [Crash][1..] == [];
  }

  lemma FetchNext(w: Sample, x: Sample, y: Sample)
    requires InTurn(w, x, y)
    ensures [w] + [x, y] == [w, x, y] && FetchSince([w, x, y], w.id, 2) == [x, y]
  {
    NewerOfNew([x, y], w.id);
    assert Newer([w, x, y], w.id) == [x, y] by { assert [w, x, y][1..] == [x, y]; }
  }

  /** So for any three samples there is a run without any exception in which a restart
      lowers the limit to 1, and a tick leaves live sets that are not exact. */
  lemma LoweredLimitBreaks(w: Sample, x: Sample, y: Sample, now: real) returns (acts: seq<Action>)
    requires InTurn(w, x, y)
    ensures Fresh(EMPTY_STATION) && IsRun(EMPTY_STATION, acts) && SafeRun(EMPTY_STATION, acts)
    ensures var end := Run(EMPTY_STATION, acts); end.phase.Recomputing? && !LiveExact(end)
  {
    hide *;
    FreshStation();
    InTurnIds(w, x, y);
    var a, s := FirstTick(w, now);
    var m1 := Run(EMPTY_STATION, a);
    var b, s2 := TwoBeyond(s, w, x, y, now);
    RunConcat(EMPTY_STATION, a, b);
    NoFailConcat(a, b);
    NoFailSafe(EMPTY_STATION, a + b);
    var down, h := Run(EMPTY_STATION, a + b), HighWater(EMPTY_STATION, a + b, 0);
    FreshInv(EMPTY_STATION);
    RunKeeps(EMPTY_STATION, a + b, 0);
    LastIsBeyond(s2, w, x, y);
    var later := BeyondReach(down, h, 1, BucketOf(y, Hour), y.id);
    RestartRun(down, 1, later);
    RunConcat(EMPTY_STATION, a + b, [Boot(1, 0.0)] + later);
    acts := a + b + ([Boot(1, 0.0)] + later);
    SafeConcat(EMPTY_STATION, a + b, [Boot(1, 0.0)] + later);
  }

  lemma InTurnIds(w: Sample, x: Sample, y: Sample)
    requires InTurn(w, x, y)
    ensures 0 < w.id < x.id < y.id
  {
  }

  lemma LastIsBeyond(s: Store, w: Sample, x: Sample, y: Sample)
    requires InTurn(w, x, y) && s.cursor == Some(Cursor(w.id, w.at)) && InLive(s, y, Hour)
    ensures var m := Machine([w, x, y], s, NEW_TASK, Down, 2, 0.0); var b := BucketOf(y, Hour);
            b in m.store.live && y.id in m.store.live[b] && Consumed(m.table, y.id) > Pos(m) + 1
  {
    hide BucketKey;
    var rows := [w, x, y];
    ConsumedById(rows, 1);
    ConsumedById(rows, 3);
    assert rows[0] == w && rows[2] == y;
  }

  lemma RestartRun(m: Machine, limit: nat, later: seq<Action>)
    requires Undisturbed(m, limit, 0.0, later)
    ensures var all := [Boot(limit, 0.0)] + later; IsRun(m, all) && Run(m, all) == AfterRestart(m, limit, 0.0, later)
  {
    hide Enabled, Next;
    assert ([Boot(limit, 0.0)] + later)[1..] == later;
  }

  lemma {:induction false} SafeConcat(m: Machine, a: seq<Action>, b: seq<Action>)
    requires SafeRun(m, a) && IsRun(m, a) && SafeRun(Run(m, a), b)
    ensures SafeRun(m, a + b)
    decreases |a|
  {
    hide Enabled, Next, RetrySafe;
    if a == [] {
      assert a + b == b;
    } else {
      assert (a + b)[1..] == a[1..] + b && (a + b)[0] == a[0];
      SafeConcat(Next(m, a[0]), a[1..], b);
    }
  }

  lemma NoFailConcat(a: seq<Action>, b: seq<Action>)
    requires NoFail(a) && NoFail(b)
    ensures NoFail(a + b)
  {
  }
}
