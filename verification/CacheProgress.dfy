/** When live sets are exact: after every completed tick, however many crashes and
    retried ticks came before. */
module CacheProgress {
  import opened Wrappers
  import opened Buckets
  import opened Samples
  import opened CandleStore
  import opened Freezer
  import opened Backfill
  import opened StationMachine
  import opened CacheInvariant
  import opened CacheSafety

  /** What is filed beyond the cursor is within reach of the next tick: the rows
      filed so far (`h`) are among those the next batch will cover. */
  ghost predicate InReach(m: Machine, h: nat) {
    match m.phase
    case Down => h <= if m.store.cursor.Some? then Reach(m, Pos(m)) else |m.table|
    case ColdStart(rows, _) => h == |rows|
    case Ready(id) => h <= Reach(m, Base0(m))
    case Filing(id, batch, _, _) => h == Base0(m) + |batch|
    case Recomputing(_, _) => h <= Pos(m)
    case Freezing(_, _, _) => h <= Pos(m)
  }

  /** No live value is of a row further beyond the cursor than a batch of this size
      would cover. */
  ghost predicate WithinReach(m: Machine, limit: nat) {
    forall b, id :: b in m.store.live && id in m.store.live[b] ==> Consumed(m.table, id) <= Pos(m) + limit
  }

  /** A restart's batch limit reaches what has been filed beyond the cursor. */
  ghost predicate Steady(m: Machine, a: Action) {
    a.Boot? && m.store.cursor.Some? ==> WithinReach(m, a.limit)
  }

  /** A live candle is of a bucket with live values. */
  ghost predicate StatsLive(s: Store) {
    s.liveStats.Keys <= s.live.Keys
  }

  lemma ReachMonotone(m: Machine, p: nat, q: nat)
    requires p <= q <= |m.table|
    ensures Reach(m, p) <= Reach(m, q)
  {
  }

  lemma ReachOf(m: Machine, m': Machine, p: nat)
    requires p <= |m.table| && m.table <= m'.table && m.limit <= m'.limit
    ensures p <= |m'.table| && Reach(m, p) <= Reach(m', p)
  {
  }

  /** The numbers the invariant relates. */
  lemma InvNumbers(m: Machine, h: nat)
    requires Inv(m, h)
    ensures Table(m.table) && h <= |m.table|
    ensures Running(m.phase) ==> Base0(m) <= Pos(m) <= Reach(m, Base0(m)) && IdAt(m.table, m.phase.lastId, Base0(m))
    ensures m.phase.Filing? ==> m.phase.batch != [] && Base0(m) + |m.phase.batch| <= Reach(m, Base0(m))
    ensures m.phase.Filing? ==> Pos(m) <= Base0(m) + |m.phase.batch| <= h
    ensures m.phase.Recomputing? ==> m.phase.batch != [] && m.phase.batch == m.table[Base0(m)..Pos(m)]
    ensures m.phase.Freezing? ==> IdAt(m.table, m.phase.nextId, Pos(m))
    ensures CursorRight(m.table, m.store)
  {
    hide LiveSound, FrozenSound, Apart, Kept, MemoryKnown, NoneFrozenFrom, PendingPassed, FiledSoFar, Passed, Effect,
         ColdWrites, Table, CursorRight, Consumed, Reach;
  }

  lemma ArriveReach(m: Machine, x: Sample, h: nat)
    requires Inv(m, h) && Enabled(m, Arrive(x)) && InReach(m, h)
    ensures InReach(Next(m, Arrive(x)), h)
  {
    hide Inv, Table, Reach, IdAt, CursorRight, Position, Consumed;
    var m' := Next(m, Arrive(x));
    InvNumbers(m, h);
    TableGrows(m.table, x);
    PositionGrows(m.table, x, m.store);
    ReachOf(m, m', Pos(m));
    if Running(m.phase) {
      IdAtGrows(m.table, x, m.phase.lastId, Base0(m));
      ConsumedIdAt(m'.table, m.phase.lastId, Base0(m));
      ReachOf(m, m', Base0(m));
    }
  }

  lemma ConsumedIdAt(rows: seq<Sample>, id: int, n: nat)
    requires IdAt(rows, id, n)
    ensures Consumed(rows, id) == n
  {
    hide Consumed;
  }

  // ----- restarts -----

  /** Each unit's live candle is written right after a live value of the same bucket. */
  lemma UnitStats(rows: seq<Sample>, u: Unit, k: int)
    requires Table(rows) && rows != [] && 0 <= k < |UnitWrites(rows, u)| && UnitWrites(rows, u)[k].SetLiveStats?
    ensures k > 0 && UnitWrites(rows, u)[k - 1].AddLiveRaw?
    ensures UnitWrites(rows, u)[k - 1].bucket == UnitWrites(rows, u)[k].bucket
  {
    hide BucketKey, OldKeys, LiveBucket, Table, ValuesIn, StatsOf, InferTime, FreezeScore, In;
    LiveIsLast(rows, u);
    KeysAreSampled(rows, u);
    var last, live := rows[|rows| - 1], LiveBucket(rows, u);
    var freezes, lives := FreezeWrites(rows, u, OldKeys(rows, u), last.at), LiveWrites(Items(rows, live), live);
    ItemsAreSamples(rows, live);
    OwnBucket(last, u);
    assert last in Items(rows, live);
    assert k == |freezes| + |lives|;
    assert UnitWrites(rows, u)[k - 1] == lives[|lives| - 1];
  }

  lemma ColdStats(rows: seq<Sample>, j: int)
    requires Table(rows) && rows != [] && 0 <= j < |ColdWrites(rows)| && ColdWrites(rows)[j].SetLiveStats?
    ensures j > 0 && ColdWrites(rows)[j - 1].AddLiveRaw? && ColdWrites(rows)[j - 1].bucket == ColdWrites(rows)[j].bucket
  {
    hide UnitWrites, Table;
    var a, b, c := UnitWrites(rows, Hour), UnitWrites(rows, Unit.Day), UnitWrites(rows, Week);
    if j < |a| {
      UnitStats(rows, Hour, j);
    } else if j < |a| + |b| {
      UnitStats(rows, Unit.Day, j - |a|);
    } else if j < |a| + |b| + |c| {
      UnitStats(rows, Week, j - |a| - |b|);
    } else if j < |ColdWrites(rows)| - 1 {
      UnitStats(rows, Month, j - |a| - |b| - |c|);
    }
  }

  lemma WriteStats(m: Machine, h: nat)
    requires Inv(m, h) && Enabled(m, BackfillWrite) && StatsLive(m.store)
    ensures StatsLive(Next(m, BackfillWrite).store)
  {
    hide Inv, ColdWrites, Table;
    var rows, done := m.phase.rows, m.phase.done;
    if ColdWrites(rows)[done].SetLiveStats? {
      InvTable(m, h);
      ColdFacts(m, h);
      TablePrefix(m.table, |rows|);
      ColdStats(rows, done);
      ColdEffects(m, h, done - 1);
    }
  }

  lemma StatsStep(m: Machine, a: Action, h: nat)
    requires Inv(m, h) && Enabled(m, a) && StatsLive(m.store)
    ensures StatsLive(Next(m, a).store)
  {
    hide Inv, ColdWrites, BucketOf, StatsOf, ScoreOrder, InferTime, FreezeScore, FetchSince, Due;
    if a.BackfillWrite? {
      WriteStats(m, h);
    } else if a.Recompute? {
      ListingEmpty(LiveOf(m.store, a.bucket));
    }
  }

  /** Only rows within reach have been filed, so only those need be counted. */
  lemma Lowered(m: Machine, h: nat, limit: nat)
    requires Inv(m, h) && m.phase.Down? && m.store.cursor.Some? && StatsLive(m.store) && WithinReach(m, limit)
    ensures Inv(m, Reach(m.(limit := limit), Pos(m)))
  {
    hide FrozenSound, Apart, Table, Consumed, Kept, Position, In, BucketOf, CursorRight;
    TableOrdered(m.table);
    var h' := Reach(m.(limit := limit), Pos(m));
    forall b, id | b in m.store.live && id in m.store.live[b]
      ensures HasSample(m.table[..h'], b, id, m.store.live[b][id])
    {
      LiveWithin(m, h, h', limit, b, id);
    }
    forall b | b in m.store.liveStats ensures Known(m.table[..h'], b) {
      assert m.store.live[b] != map[];
      var id :| id in m.store.live[b];
      var i :| 0 <= i < h' && In(m.table[..h'][i], b) && m.table[..h'][i].id == id;
    }
  }

  lemma LiveWithin(m: Machine, h: nat, h': nat, limit: nat, b: Bucket, id: int)
    requires h <= |m.table| && Ordered(m.table) && LiveSound(m.table[..h], m.store) && WithinReach(m, limit)
    requires h' == Reach(m.(limit := limit), Pos(m)) && b in m.store.live && id in m.store.live[b]
    ensures HasSample(m.table[..h'], b, id, m.store.live[b][id])
  {
    hide Ordered, Consumed, Position, In, BucketOf;
    var value := m.store.live[b][id];
    assert HasSample(m.table[..h], b, id, value);
    var i :| 0 <= i < h && In(m.table[..h][i], b) && m.table[..h][i].id == id && m.table[..h][i].value == value;
    assert m.table[..h][i] == m.table[i];
    ConsumedById(m.table, i + 1);
    assert m.table[..h'][i] == m.table[i];
  }

  lemma BootReach(m: Machine, limit: nat, grace: real, h: nat)
    requires Inv(m, h) && m.phase.Down? && limit > 0
    requires m.store.cursor.Some? ==> h == Reach(m.(limit := limit), Pos(m))
    ensures InReach(AfterBoot(m.(limit := limit, grace := grace)), Higher(m, Boot(limit, grace), h))
  {
    hide Inv, Table, Consumed, IdAt, LastKeysAt;
    InvNumbers(m, h);
  }

  /** A limit that is not lowered always reaches far enough. */
  lemma NotLowered(m: Machine, h: nat, limit: nat)
    requires Inv(m, h) && InReach(m, h) && m.phase.Down? && m.store.cursor.Some? && m.limit <= limit
    ensures WithinReach(m, limit)
  {
    hide FrozenSound, Apart, Table, Consumed, Kept, Position, In, BucketOf, CursorRight, LiveSound;
    TableOrdered(m.table);
    forall b, id | b in m.store.live && id in m.store.live[b] ensures Consumed(m.table, id) <= Pos(m) + limit {
      LiveSample(m.table, m.store, h, b, id);
      var i :| 0 <= i < h && In(m.table[i], b) && m.table[i].id == id;
      ConsumedById(m.table, i + 1);
    }
  }

  lemma BackfillEndReach(m: Machine, h: nat)
    requires Inv(m, h) && m.phase.ColdStart? && InReach(m, h)
    requires m.phase.rows == [] || m.phase.done == |ColdWrites(m.phase.rows)|
    ensures InReach(AfterBackfill(m), h)
  {
    hide *;
    if m.phase.ColdStart? && m.phase.rows == [] {
      BackfillEndEmpty(m, h);
    } else {
      BackfillEndSome(m, h);
    }
    AfterBackfillReach(m, h);
  }

  lemma AfterBackfillReach(m: Machine, h: nat)
    requires Inv(m, h) && m.phase.ColdStart? && InReach(m, h)
    ensures h == |m.phase.rows|
    requires m.phase.rows == [] ==> ReadyInv(AfterBackfill(m), h, 0, 0)
    requires var n := |m.phase.rows|; n > 0 ==> ReadyInv(AfterBackfill(m), h, m.phase.rows[n - 1].id, n)
    ensures InReach(AfterBackfill(m), h)
  {
    hide Inv, Table, Sound, Kept, MemoryKnown, NoneFrozenFrom, PendingPassed, Consumed, LastKeysAt;
  }

  lemma FetchReach(m: Machine, now: real, h: nat)
    requires Inv(m, h) && m.phase.Ready? && InReach(m, h)
    ensures InReach(Next(m, Fetch(now)), Higher(m, Fetch(now), h))
  {
    hide Inv, Table, Consumed, IdAt, CursorRight, FetchSince, Due, Position;
    InvNumbers(m, h);
    FetchReaches(m, m.phase.lastId, Base0(m));
  }

  lemma MoveReach(m: Machine, h: nat)
    requires Inv(m, h) && m.phase.Filing? && m.phase.batch != [] && m.phase.i == |m.phase.batch| && m.phase.u == 0
    requires InReach(m, h)
    ensures InReach(Next(m, MoveCursor), h)
  {
    hide FilingInv, RecomputingInv, Consumed, Table, Position;
    var batch, p := m.phase.batch, Base0(m);
    MoveCursorKeeps(m, h, m.phase.lastId, batch, p, p + |batch|);
  }

  lemma FailReach(m: Machine, dirty: set<Bucket>, h: nat)
    requires Inv(m, h) && Enabled(m, Fail(dirty)) && InReach(m, h)
    ensures InReach(Next(m, Fail(dirty)), h)
  {
    hide Inv, Table, Consumed, IdAt, CursorRight, Position;
    InvNumbers(m, h);
  }

  lemma CrashReach(m: Machine, h: nat)
    requires Inv(m, h) && InReach(m, h)
    ensures InReach(Next(m, Crash), h)
  {
    hide Inv, Table, Consumed, IdAt, CursorRight, Position;
    InvNumbers(m, h);
    if Running(m.phase) {
      ReachMonotone(m, Base0(m), Pos(m));
      PosInReach(m);
      if m.store.cursor.None? { PosWithout(m); }
    } else if m.phase.ColdStart? && m.store.cursor.Some? {
      hide InReach;
      ColdDone(m, h);
      ColdCursor(m, h);
      ColdReachable(m, h);
    }
  }

  lemma ColdReachable(m: Machine, h: nat)
    requires m.phase.ColdStart? && InReach(m, h) && m.store.cursor.Some? && Pos(m) == |m.phase.rows|
    ensures InReach(Next(m, Crash), h)
  {
    hide Position;
  }

  lemma PosInReach(m: Machine)
    ensures Pos(m) <= Reach(m, Pos(m)) <= |m.table|
  {
    hide Position;
  }

  lemma PosWithout(m: Machine)
    requires m.store.cursor.None?
    ensures Pos(m) == 0
  {
  }

  lemma TickReach(m: Machine, a: Action, h: nat)
    requires Inv(m, h) && Enabled(m, a) && InReach(m, h)
    requires a.NoteBoundary? || a.FileSample? || a.Recompute? || a.RecomputeEnd? || a.WriteFrozen? || a.DropDue?
             || a.TickEnd?
    ensures InReach(Next(m, a), h)
  {
    hide Inv, Table, Consumed, IdAt, CursorRight, Reach, BucketOf, LiveOf, ScoreOrder, StatsOf, Due, FreezeScore,
         InferTime, LastKeysAt, Scheduled, Dropped, AfterBoundary;
    InvNumbers(m, h);
    if a.TickEnd? {
      ConsumedIdAt(m.table, m.phase.nextId, Pos(m));
      PosInReach(m);
    }
  }

  /** Every action keeps what is filed within reach; for a restart `h` has been lowered to
      what its limit reaches. */
  lemma StepReach(m: Machine, a: Action, h: nat)
    requires Inv(m, h) && Enabled(m, a)
    requires if a.Boot? then m.store.cursor.Some? ==> h == Reach(m.(limit := a.limit), Pos(m)) else InReach(m, h)
    ensures InReach(Next(m, a), Higher(m, a, h))
  {
    hide Inv, InReach, ColdWrites, ScoreOrder, Reach, FrozenWrite, AfterRecompute, AfterBoot, AfterBackfill,
         AfterFiling, AfterBoundary, Apply, FetchSince, Due, Dropped, Consumed, BucketOf, InferTime;
    match a
    case Arrive(x) => ArriveReach(m, x, h);
    case Boot(limit, grace) => BootReach(m, limit, grace, h);
    case BackfillWrite => WriteReach(m, h);
    case BackfillEnd => BackfillEndReach(m, h);
    case Fetch(now) => FetchReach(m, now, h);
    case MoveCursor => MoveReach(m, h);
    case Fail(dirty) => FailReach(m, dirty, h);
    case Crash => CrashReach(m, h);
    case _ => TickReach(m, a, h);
  }

  lemma WriteReach(m: Machine, h: nat)
    requires Inv(m, h) && Enabled(m, BackfillWrite) && InReach(m, h)
    ensures InReach(Next(m, BackfillWrite), h)
  {
    hide Inv, ColdWrites, Apply;
  }

  /** A safe run in which every restart's limit reaches what has been filed. */
  ghost predicate SteadyRun(m: Machine, actions: seq<Action>)
    decreases |actions|
  {
    actions == [] ||
    (Enabled(m, actions[0]) && (actions[0].Fail? ==> RetrySafe(m)) && Steady(m, actions[0])
     && SteadyRun(Next(m, actions[0]), actions[1..]))
  }

  lemma SteadyStep(m: Machine, a: Action, h: nat) returns (h': nat)
    requires Inv(m, h) && InReach(m, h) && StatsLive(m.store)
    requires Enabled(m, a) && (a.Fail? ==> RetrySafe(m)) && Steady(m, a)
    ensures Inv(Next(m, a), h') && InReach(Next(m, a), h') && StatsLive(Next(m, a).store)
  {
    hide Inv, InReach, Next, RetrySafe, StatsLive, WithinReach;
    var low := h;
    if a.Boot? && m.store.cursor.Some? {
      Lowered(m, h, a.limit);
      low := Reach(m.(limit := a.limit), Pos(m));
    }
    StatsStep(m, a, h);
    StepKeeps(m, a, low);
    StepReach(m, a, low);
    h' := Higher(m, a, low);
  }

  lemma {:induction false} RunReach(m: Machine, actions: seq<Action>, h: nat) returns (h': nat)
    requires Inv(m, h) && InReach(m, h) && StatsLive(m.store) && SteadyRun(m, actions)
    ensures SafeRun(m, actions) && IsRun(m, actions)
    ensures Inv(Run(m, actions), h') && InReach(Run(m, actions), h') && StatsLive(Run(m, actions).store)
    decreases |actions|
  {
    hide Inv, InReach, Enabled, Next, RetrySafe, Steady, StatsLive;
    h' := h;
    if actions != [] {
      var h1 := SteadyStep(m, actions[0], h);
      h' := RunReach(Next(m, actions[0]), actions[1..], h1);
    }
  }

  /** From the moment a tick has moved the cursor until the next batch is fetched, every
      bucket that is not frozen holds exactly its samples up to the cursor, whatever
      crashes and exceptions the run had before, as long as every restart's limit reached
      what had been filed beyond the cursor. */
  lemma ExactAfterTick(m: Machine, actions: seq<Action>)
    requires Fresh(m) && SteadyRun(m, actions)
    ensures IsRun(m, actions)
    ensures var end := Run(m, actions);
            && (end.phase.Recomputing? || end.phase.Freezing? ==> LiveExact(end))
            && (end.phase.Freezing? && end.phase.due == [] ==> LiveExact(Next(end, TickEnd)))
            && (end.phase.Freezing? && end.phase.due == [] ==>
                  Position(end.table, end.store) == Consumed(end.table, end.phase.nextId))
  {
    hide Inv, Fresh, LiveExact, IdAt, CursorRight, InReach, StatsLive;
    FreshInv(m);
    FreshReach(m);
    var h := RunReach(m, actions, 0);
    var end := Run(m, actions);
    if end.phase.Recomputing? || end.phase.Freezing? { ReachedExact(end, h); }
    if end.phase.Freezing? && end.phase.due == [] {
      InvNumbers(end, h);
      ConsumedIdAt(end.table, end.phase.nextId, Pos(end));
      SameExact(end, Next(end, TickEnd));
    }
  }

  lemma ReachedExact(m: Machine, h: nat)
    requires Inv(m, h) && InReach(m, h) && (m.phase.Recomputing? || m.phase.Freezing?)
    ensures LiveExact(m)
  {
    hide Inv, LiveExact, IdAt, CursorRight;
    InvNumbers(m, h);
    CaughtUpExact(m, h);
  }

  /** In particular a restart that does not lower the limit is always within reach. */
  lemma SteadyIfNotLowered(m: Machine, actions: seq<Action>, limit: nat)
    requires Fresh(m) && SteadyRun(m, actions)
    ensures IsRun(m, actions)
    ensures var end := Run(m, actions);
            end.phase.Down? && end.store.cursor.Some? && end.limit <= limit ==> WithinReach(end, limit)
  {
    hide Inv, Fresh, InReach, StatsLive, WithinReach;
    FreshInv(m);
    FreshReach(m);
    var h := RunReach(m, actions, 0);
    var end := Run(m, actions);
    if end.phase.Down? && end.store.cursor.Some? && end.limit <= limit { NotLowered(end, h, limit); }
  }

  lemma SameExact(m: Machine, m': Machine)
    requires LiveExact(m) && m'.table == m.table && m'.store == m.store
    ensures LiveExact(m')
  {
  }

  lemma FreshReach(m: Machine)
    requires Fresh(m)
    ensures InReach(m, 0) && StatsLive(m.store)
  {
  }
}
