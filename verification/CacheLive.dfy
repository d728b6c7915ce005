/** Which rows a tick reads and which candles it stores: for every bucket of its batch the
    candle of the bucket's samples up to the cursor, with the time of the batch's last
    sample; and when it freezes, the candle of all the bucket's samples, without a time. */
module CacheLive {
  import opened Wrappers
  import opened Buckets
  import opened BoxStats
  import opened Samples
  import opened CandleStore
  import opened StationMachine
  import opened CacheInvariant
  import opened CacheSafety
  import opened CacheProgress
  import Freezer

  /** What the tick has filed so far is marked; once the cursor has moved, a mark is
      taken off only when the live candle is stored. */
  ghost predicate Marked(m: Machine) {
    match m.phase
    case Filing(_, batch, i, u) =>
      i <= |batch|
      && (forall j, v :: 0 <= j < i ==> BucketOf(batch[j], v) in m.task.dirty)
      && (i < |batch| ==> forall v :: UnitIndex(v) < u ==> BucketOf(batch[i], v) in m.task.dirty)
    case Recomputing(_, batch) =>
      batch != []
      && forall j, v :: 0 <= j < |batch| ==>
           var b := BucketOf(batch[j], v);
           b in m.task.dirty || CandleStored(m.store, b, batch[|batch| - 1].at)
    case _ => true
  }

  lemma FileMarks(m: Machine)
    requires Marked(m) && Enabled(m, FileSample)
    ensures Marked(Next(m, FileSample))
  {
    hide BucketKey, Apply;
    var p, m' := m.phase, Next(m, FileSample);
    assert forall v :: UnitIndex(v) == p.u ==> v == UNITS[p.u];
    assert forall v :: UnitIndex(v) <= p.u ==> BucketOf(p.batch[p.i], v) in m'.task.dirty;
  }

  /** When the tick recomputes, the buckets of its batch have live values. */
  lemma BatchIsLive(m: Machine, h: nat, j: nat, v: Unit)
    requires Inv(m, h) && m.phase.Recomputing? && j < |m.phase.batch|
    ensures ScoreOrder(LiveOf(m.store, BucketOf(m.phase.batch[j], v))) != []
  {
    hide Sound, MemoryKnown, PendingPassed, IdAt, BucketOf, Consumed, Position;
    var x, p := m.phase.batch[j], Base0(m);
    assert x == m.table[p + j] == m.table[..Pos(m)][p + j];
    assert Held(m.store, m.table[..Pos(m)][p + j], v);
    ListingEmpty(LiveOf(m.store, BucketOf(x, v)));
  }

  lemma RecomputeMarks(m: Machine, b: Bucket, h: nat)
    requires Inv(m, h) && Marked(m) && Enabled(m, Recompute(b))
    ensures Marked(Next(m, Recompute(b)))
  {
    hide Inv, BucketOf, StatsOf, ScoreOrder;
    var batch, m' := m.phase.batch, Next(m, Recompute(b));
    forall j, v | 0 <= j < |batch|
      ensures var c := BucketOf(batch[j], v);
              c in m'.task.dirty || CandleStored(m'.store, c, batch[|batch| - 1].at)
    {
      BatchIsLive(m, h, j, v);
    }
  }

  lemma StepMarks(m: Machine, a: Action, h: nat)
    requires Inv(m, h) && Marked(m) && Enabled(m, a)
    ensures Marked(Next(m, a))
  {
    hide Inv, BucketOf, AfterRecompute, AfterFiling, ScoreOrder, StatsOf, Freezer.Due, Freezer.Dropped, FetchSince,
         FrozenWrite, Backfill.ColdWrites, Freezer.Scheduled, LastKeysAt;
    match a
    case FileSample => FileMarks(m);
    case Recompute(b) => RecomputeMarks(m, b, h);
    case _ =>
  }

  lemma {:induction false} RunMarks(m: Machine, actions: seq<Action>, h: nat) returns (h': nat)
    requires Inv(m, h) && InReach(m, h) && StatsLive(m.store) && SteadyRun(m, actions) && Marked(m)
    ensures IsRun(m, actions) && Inv(Run(m, actions), h') && InReach(Run(m, actions), h') && Marked(Run(m, actions))
    decreases |actions|
  {
    hide Inv, InReach, Enabled, Next, RetrySafe, Steady, StatsLive, Marked;
    h' := h;
    if actions != [] {
      StepMarks(m, actions[0], h);
      var h1 := SteadyStep(m, actions[0], h);
      h' := RunMarks(Next(m, actions[0]), actions[1..], h1);
    }
  }

  /** The bucket's live candle is the candle of its samples up to the cursor. */
  ghost predicate LiveRight(m: Machine, b: Bucket, at: Time) {
    var upTo := m.table[..Position(m.table, m.store)];
    && ValuesIn(upTo, b) != []
    && b in m.store.liveStats && m.store.liveStats[b].updatedAt == Some(at)
    && SameCandle(m.store.liveStats[b].candle, StatsOf(ValuesIn(upTo, b)))
  }

  lemma CandleIsRight(m: Machine, h: nat, b: Bucket, at: Time)
    requires Inv(m, h) && LiveExact(m) && b !in m.store.frozen && CandleStored(m.store, b, at)
    requires m.phase.Recomputing?
    ensures LiveRight(m, b, at)
  {
    hide Inv, SameCandle, StatsOf, ScoreOrder, ValuesIn, Position, Exact;
    InvTable(m, h);
    TablePrefix(m.table, Position(m.table, m.store));
    TableOrdered(m.table[..Position(m.table, m.store)]);
    LiveCandle(m.table[..Position(m.table, m.store)], b, LiveOf(m.store, b));
  }

  lemma BatchNotFrozen(m: Machine, h: nat, j: nat, v: Unit)
    requires Inv(m, h) && m.phase.Recomputing? && j < |m.phase.batch|
    ensures BucketOf(m.phase.batch[j], v) !in m.store.frozen
  {
    hide Sound, Kept, MemoryKnown, PendingPassed, IdAt, BucketOf, Consumed, Position;
    assert m.phase.batch[j] == m.table[Base0(m) + j];
  }

  /** Once a tick has recomputed what is marked, every bucket that holds a sample of
      its batch has a live candle: the candle of all the bucket's samples up to the
      cursor, with the time of the batch's last sample. It is so after any run, with
      the crashes, exceptions and lost marks it had before. */
  lemma LiveCandles(m: Machine, actions: seq<Action>, now: real)
    requires Fresh(m) && SteadyRun(m, actions)
    ensures IsRun(m, actions)
    ensures var end := Run(m, actions);
            end.phase.Recomputing? && end.task.dirty == {} ==>
              var batch := end.phase.batch;
              && batch != [] && Enabled(end, RecomputeEnd(now))
              && forall x, u :: x in batch ==>
                   && LiveRight(end, BucketOf(x, u), batch[|batch| - 1].at)
                   && LiveRight(Next(end, RecomputeEnd(now)), BucketOf(x, u), batch[|batch| - 1].at)
  {
    hide Inv, InReach, StatsLive, Fresh, LiveExact, LiveRight, CandleStored, BucketOf, Freezer.Due;
    FreshInv(m);
    FreshReach(m);
    assert Marked(m) by { FreshMarks(m); }
    var h := RunMarks(m, actions, 0);
    var end := Run(m, actions);
    if end.phase.Recomputing? && end.task.dirty == {} {
      var batch := end.phase.batch;
      ReachedExact(end, h);
      forall x, u | x in batch
        ensures LiveRight(end, BucketOf(x, u), batch[|batch| - 1].at)
        ensures LiveRight(Next(end, RecomputeEnd(now)), BucketOf(x, u), batch[|batch| - 1].at)
      {
        var j :| 0 <= j < |batch| && batch[j] == x;
        BatchNotFrozen(end, h, j, u);
        CandleIsRight(end, h, BucketOf(x, u), batch[|batch| - 1].at);
        SameRight(end, Next(end, RecomputeEnd(now)), BucketOf(x, u), batch[|batch| - 1].at);
      }
    }
  }

  lemma FreshMarks(m: Machine)
    requires Fresh(m)
    ensures Marked(m)
  {
  }

  lemma SameRight(m: Machine, m': Machine, b: Bucket, at: Time)
    requires LiveRight(m, b, at) && m'.table == m.table && m'.store == m.store
    ensures LiveRight(m', b, at)
  {
  }

  /** After any safe run, a freeze stores the candle of all the bucket's samples, takes
      its live keys away, and touches nothing of any other bucket. */
  lemma FrozenCandle(m: Machine, actions: seq<Action>)
    requires Fresh(m) && SafeRun(m, actions)
    ensures IsRun(m, actions)
    ensures var end := Run(m, actions);
            Enabled(end, WriteFrozen) ==>
              var b, s, s' := end.phase.due[0], end.store, Next(end, WriteFrozen).store;
              && ValuesIn(end.table, b) != []
              && b in s'.frozen && s'.frozen[b].updatedAt == None
              && SameCandle(s'.frozen[b].candle, StatsOf(ValuesIn(end.table, b)))
              && b !in s'.live && b !in s'.liveStats
              && forall c: Bucket :: c != b ==> SameKeys(s, s', c)
  {
    hide Inv, Fresh, SafeRun, SameKeys, SameCandle, StatsOf, ValuesIn, Enabled, Next, Agrees;
    FreshInv(m);
    RunKeeps(m, actions, 0);
    var end, h := Run(m, actions), HighWater(m, actions, 0);
    if Enabled(end, WriteFrozen) {
      StepKeeps(end, WriteFrozen, h);
      FreezeWrites(end);
      InvAgrees(Next(end, WriteFrozen), Higher(end, WriteFrozen, h));
      FrozenAsTable(Next(end, WriteFrozen), end.phase.due[0]);
    }
  }

  lemma FrozenAsTable(m: Machine, b: Bucket)
    requires Agrees(m) && b in m.store.frozen
    ensures ValuesIn(m.table, b) != [] && SameCandle(m.store.frozen[b].candle, StatsOf(ValuesIn(m.table, b)))
  {
    hide SameCandle, StatsOf, ValuesIn, LiveSound, Kept, Position, In, Apart;
  }

  /** What the freeze transaction does to the station's keys. */
  lemma FreezeWrites(m: Machine)
    requires Enabled(m, WriteFrozen)
    ensures m.phase.Freezing? && m.phase.due != []
    ensures var b, m' := m.phase.due[0], Next(m, WriteFrozen);
            && m'.table == m.table && b in m'.store.frozen && m'.store.frozen[b].updatedAt == None
            && b !in m'.store.live && b !in m'.store.liveStats
            && forall c: Bucket :: c != b ==> SameKeys(m.store, m'.store, c)
  {
    hide StatsOf, ScoreOrder, Backfill.FreezeScore, InferTime;
  }

  /** Both stores hold the same under the bucket's keys. */
  predicate SameKeys(s: Store, t: Store, b: Bucket) {
    && (b in s.live <==> b in t.live) && (b in s.live ==> s.live[b] == t.live[b])
    && (b in s.liveStats <==> b in t.liveStats) && (b in s.liveStats ==> s.liveStats[b] == t.liveStats[b])
    && (b in s.frozen <==> b in t.frozen) && (b in s.frozen ==> s.frozen[b] == t.frozen[b])
    && (b in s.index <==> b in t.index) && (b in s.index ==> s.index[b] == t.index[b])
  }

  /** A fetch reads the rows after the given id, as many as the limit allows; without
      any the tick goes on to the freezes. */
  lemma BatchFetched(m: Machine, now: real)
    requires Table(m.table) && Enabled(m, Fetch(now))
    ensures var p, id := Next(m, Fetch(now)).phase, m.phase.lastId;
            var n := Consumed(m.table, id);
            if n < |m.table| && m.limit > 0 then
              p.Filing? && p.lastId == id && p.i == p.u == 0
              && p.batch == m.table[n..if |m.table| - n <= m.limit then |m.table| else n + m.limit]
            else p.Freezing? && p.lastId == p.nextId == id
  {
    hide Table, Consumed, FetchSince, Freezer.Due;
    TableOrdered(m.table);
    FetchIsSlice(m.table, m.phase.lastId, m.limit);
  }

  /** The rest of the tick leaves a live candle as it is until its bucket is frozen. */
  lemma CandleStays(m: Machine, a: Action, b: Bucket)
    requires Enabled(m, a) && b in m.store.liveStats && (m.phase.Freezing? || m.phase.Ready?) && !a.Crash?
    ensures var s := Next(m, a).store;
            (b in s.liveStats && s.liveStats[b] == m.store.liveStats[b])
            || (a.WriteFrozen? && m.phase.due[0] == b && b in s.frozen)
  {
    hide StatsOf, ScoreOrder, Freezer.Due, FetchSince, Backfill.FreezeScore, InferTime;
  }
}
