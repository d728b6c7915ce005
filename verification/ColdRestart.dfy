/** A cold start can be interrupted and repeated: whatever earlier attempts left
    behind, a complete one leaves the same keys. */
module ColdRestart {
  import opened Wrappers
  import opened Buckets
  import opened Samples
  import opened CandleStore
  import opened Backfill
  import opened StationMachine
  import opened CacheInvariant
  import opened CacheSafety

  /** What a complete cold start over these rows leaves: the last sample's buckets
      are live with exactly their samples, every other bucket that has samples is
      frozen, and the cursor stands at the last sample. */
  ghost predicate Determined(rows: seq<Sample>, s: Store)
    requires rows != []
  {
    var last := rows[|rows| - 1];
    && (forall b :: b in s.live <==> LastBucket(rows, b))
    && (forall b :: b in s.live ==> Exact(rows, b, s.live[b]))
    && (forall b :: b in s.liveStats <==> LastBucket(rows, b))
    && (forall b :: b in s.liveStats ==>
          ValuesIn(rows, b) != [] && s.liveStats[b] == Stored(StatsOf(ValuesIn(rows, b)), Some(last.at)))
    && (forall b :: b in s.frozen <==> Passed(rows, b))
    && s.index.Keys == s.frozen.Keys
    && (forall b :: b in s.frozen ==>
          && Sampled(rows, b) && s.index[b] == FreezeScore(b)
          && s.frozen[b] == Stored(StatsOf(ValuesIn(rows, b)), Some(last.at)))
    && s.cursor == Some(Cursor(last.id, last.at))
  }

  /** Only one live set is exact. */
  lemma ExactUnique(rows: seq<Sample>, b: Bucket, x: map<int, real>, y: map<int, real>)
    requires Exact(rows, b, x) && Exact(rows, b, y)
    ensures x == y
  {
    hide In;
    forall id | id in x ensures id in y && x[id] == y[id] {
      var i :| 0 <= i < |rows| && In(rows[i], b) && rows[i].id == id;
    }
    forall id | id in y ensures id in x {
      var i :| 0 <= i < |rows| && In(rows[i], b) && rows[i].id == id;
    }
  }

  /** Only one store is what a complete cold start leaves. */
  lemma DeterminedUnique(rows: seq<Sample>, s: Store, t: Store)
    requires rows != [] && Determined(rows, s) && Determined(rows, t)
    ensures s == t
  {
    hide Exact, LastBucket, Passed, InferTime, StatsOf, FreezeScore, ValuesIn;
    forall b | b in s.live ensures b in t.live && s.live[b] == t.live[b] {
      ExactUnique(rows, b, s.live[b], t.live[b]);
    }
    assert s.live == t.live;
    assert s.liveStats == t.liveStats;
    assert s.frozen == t.frozen;
    assert s.index == t.index;
  }

  /** A cold start whose writes are all done, with nothing of other origin than its rows. */
  ghost predicate ColdComplete(m: Machine)
    requires m.phase.ColdStart? && m.phase.rows != []
  {
    && m.phase.done == |ColdWrites(m.phase.rows)|
    && Inv(m, |m.phase.rows|)
  }

  lemma CompleteFacts(m: Machine)
    requires m.phase.ColdStart? && m.phase.rows != [] && ColdComplete(m)
    ensures var rows, s := m.phase.rows, m.store;
            && Table(rows) && Ordered(rows)
            && LiveSound(rows, s) && FrozenSound(rows, s) && Apart(s) && Kept(rows, s)
            && s.cursor == Some(Cursor(rows[|rows| - 1].id, rows[|rows| - 1].at))
  {
    hide LiveSound, FrozenSound, Apart, Table, Ordered, Kept, ColdWrites, Effect, Inv;
    var rows := m.phase.rows;
    ColdFacts(m, |rows|);
    TablePrefix(m.table, |rows|) by { InvTable(m, |rows|); }
    TableOrdered(rows);
    ColdCursor(m, |rows|);
    ColdKept(m, |rows|);
  }

  /** The write that accounted for a sample of a passed bucket froze the bucket. */
  lemma PassedIsFrozen(m: Machine, b: Bucket)
    requires m.phase.ColdStart? && m.phase.rows != [] && ColdComplete(m) && Passed(m.phase.rows, b)
    ensures var rows, s := m.phase.rows, m.store;
            && b in s.frozen && b in s.index && b !in s.live && b !in s.liveStats && Sampled(rows, b)
            && s.index[b] == FreezeScore(b)
            && s.frozen[b] == Stored(StatsOf(ValuesIn(rows, b)), Some(rows[|rows| - 1].at))
  {
    hide Inv, Table, ColdWrites, LastBucket, HasSample, InferTime, StatsOf, FreezeScore, ValuesIn, BucketKey, Kept,
         LiveSound, FrozenSound, Apart, Ordered;
    var rows := m.phase.rows;
    CompleteFacts(m);
    var i, k :| 0 <= i < k < |rows| && In(rows[i], b) && !In(rows[k], b);
    var j := ColdAccounts(rows, b.unit, i);
    ColdProper(rows, j);
    ColdEffects(m, |rows|, j);
    PassedNotLast(rows, b);
  }

  /** The bucket that is kept live gets its candle. */
  lemma ColdStats(rows: seq<Sample>, u: Unit) returns (j: nat)
    requires Table(rows) && rows != []
    ensures j < |ColdWrites(rows)| - 1
    ensures ColdWrites(rows)[j].SetLiveStats? && ColdWrites(rows)[j].bucket == BucketOf(rows[|rows| - 1], u)
  {
    hide UnitWrites, Table, LiveBucket, OldKeys, BucketKey, KeysOf;
    LiveIsLast(rows, u);
    StatsComeLast(rows, u);
    var a, b, c := |UnitWrites(rows, Hour)|, |UnitWrites(rows, Unit.Day)|, |UnitWrites(rows, Week)|;
    j := |UnitWrites(rows, u)| - 1 + match u case Hour => 0 case Day => a case Week => a + b case Month => a + b + c;
  }

  lemma StatsComeLast(rows: seq<Sample>, u: Unit)
    requires rows != []
    ensures var ws := UnitWrites(rows, u);
            ws != [] && ws[|ws| - 1].SetLiveStats? && ws[|ws| - 1].bucket == LiveBucket(rows, u)
  {
    hide LiveBucket, OldKeys, StatsOf, ValuesIn, KeysOf, Sampled;
    KeysAreSampled(rows, u);
  }

  lemma LastHasStats(m: Machine, b: Bucket)
    requires m.phase.ColdStart? && m.phase.rows != [] && ColdComplete(m) && LastBucket(m.phase.rows, b)
    ensures var rows, s := m.phase.rows, m.store;
            && b in s.liveStats && ValuesIn(rows, b) != []
            && s.liveStats[b] == Stored(StatsOf(ValuesIn(rows, b)), Some(rows[|rows| - 1].at))
  {
    hide Inv, Table, ColdWrites, HasSample, InferTime, StatsOf, FreezeScore, ValuesIn, BucketKey, Kept,
         LiveSound, FrozenSound, Apart, Ordered, Passed;
    var rows := m.phase.rows;
    CompleteFacts(m);
    var j := ColdStats(rows, b.unit);
    ColdProper(rows, j);
    ColdEffects(m, |rows|, j);
  }

  lemma LastIsLive(m: Machine, b: Bucket)
    requires m.phase.ColdStart? && m.phase.rows != [] && ColdComplete(m) && LastBucket(m.phase.rows, b)
    ensures b in m.store.live
  {
    hide Inv, Table, ColdWrites, BucketKey, LiveSound, FrozenSound, Apart, Ordered, Passed, FrozenRight;
    var rows := m.phase.rows;
    CompleteFacts(m);
    assert b !in m.store.frozen by { LastNotFrozen(rows, m.store, b); }
    assert Held(m.store, rows[|rows| - 1], b.unit);
  }

  lemma KnownPassedOrLast(rows: seq<Sample>, b: Bucket)
    requires Known(rows, b)
    ensures Passed(rows, b) || LastBucket(rows, b)
  {
    hide BucketKey, Passed, LastBucket;
    var i :| 0 <= i < |rows| && In(rows[i], b);
    PassedOrLast(rows, i, b.unit);
  }

  lemma CompleteLive(m: Machine, b: Bucket)
    requires m.phase.ColdStart? && m.phase.rows != [] && ColdComplete(m) && b in m.store.live
    ensures LastBucket(m.phase.rows, b) && Exact(m.phase.rows, b, m.store.live[b])
  {
    hide Inv, Table, ColdWrites, BucketKey, FrozenSound, Ordered, Passed, LastBucket, HasSample, FrozenRight,
         Exact, Kept, Sampled, CursorRight, ColdComplete;
    var rows, s := m.phase.rows, m.store;
    CompleteFacts(m);
    assert rows[..|rows|] == rows;
    LiveIsKnown(rows, s, b);
    KnownPassedOrLast(rows, b);
    if Passed(rows, b) {
      PassedIsFrozen(m, b);
    }
    assert b !in s.frozen;
    ExactBucket(rows, s, |rows|, |rows|, b);
  }

  lemma LiveIsKnown(rows: seq<Sample>, s: Store, b: Bucket)
    requires LiveSound(rows, s) && b in s.live
    ensures Known(rows, b)
  {
    hide In;
    assert s.live[b].Keys != {} by { assert |s.live[b].Keys| == |s.live[b]| > 0; }
    var id: int := PickOne(s.live[b].Keys);
    assert HasSample(rows, b, id, s.live[b][id]);
  }

  lemma CompleteStats(m: Machine, b: Bucket)
    requires m.phase.ColdStart? && m.phase.rows != [] && ColdComplete(m) && b in m.store.liveStats
    ensures LastBucket(m.phase.rows, b)
  {
    hide ColdComplete, Passed, LastBucket, Known, HasSample, Sampled, FreezeWrite;
    CompleteFacts(m);
    KnownPassedOrLast(m.phase.rows, b);
    if Passed(m.phase.rows, b) {
      PassedIsFrozen(m, b);
    }
  }

  lemma CompleteFrozen(m: Machine, b: Bucket)
    requires m.phase.ColdStart? && m.phase.rows != [] && ColdComplete(m) && b in m.store.frozen
    ensures Passed(m.phase.rows, b)
  {
    hide ColdComplete, Passed, Table, Ordered, LiveSound, FrozenRight;
    CompleteFacts(m);
  }

  lemma CompleteDetermined(m: Machine)
    requires m.phase.ColdStart? && m.phase.rows != [] && ColdComplete(m)
    ensures Determined(m.phase.rows, m.store)
  {
    hide ColdComplete, Passed, LastBucket, Exact, InferTime, ValuesIn, StatsOf, FreezeScore, LiveSound, FrozenSound,
        Kept, Table, Ordered;
    var rows, s := m.phase.rows, m.store;
    CompleteFacts(m);
    forall b ensures b in s.live <==> LastBucket(rows, b) ensures b in s.live ==> Exact(rows, b, s.live[b]) {
      if b in s.live { CompleteLive(m, b); }
      if LastBucket(rows, b) { LastIsLive(m, b); }
    }
    forall b ensures b in s.liveStats <==> LastBucket(rows, b)
      ensures b in s.liveStats ==>
        ValuesIn(rows, b) != [] && s.liveStats[b] == Stored(StatsOf(ValuesIn(rows, b)), Some(rows[|rows| - 1].at))
    {
      if b in s.liveStats { CompleteStats(m, b); }
      if LastBucket(rows, b) { LastHasStats(m, b); }
    }
    forall b ensures b in s.frozen <==> Passed(rows, b)
      ensures b in s.frozen ==>
        && b in s.index && Sampled(rows, b) && s.index[b] == FreezeScore(b)
        && s.frozen[b] == Stored(StatsOf(ValuesIn(rows, b)), Some(rows[|rows| - 1].at))
    {
      if b in s.frozen { CompleteFrozen(m, b); }
      if Passed(rows, b) { PassedIsFrozen(m, b); }
    }
  }

  /** The remaining writes of a cold start, one after the other. */
  lemma {:induction false} WritesComplete(m: Machine, h: nat) returns (end: Machine)
    requires m.phase.ColdStart? && m.phase.rows != [] && Inv(m, h) && m.phase.done <= |ColdWrites(m.phase.rows)|
    ensures end == m.(store := ApplyAll(m.store, ColdWrites(m.phase.rows)[m.phase.done..]),
                      phase := ColdStart(m.phase.rows, |ColdWrites(m.phase.rows)|))
    ensures Inv(end, h)
    decreases |ColdWrites(m.phase.rows)| - m.phase.done
  {
    hide Inv, ColdWrites, Apply;
    var rows, done := m.phase.rows, m.phase.done;
    var rest := ColdWrites(rows)[done..];
    if done == |ColdWrites(rows)| {
      end := m;
    } else {
      BackfillWriteKeeps(m, h);
      end := WritesComplete(Next(m, BackfillWrite), h);
      assert rest[1..] == ColdWrites(rows)[done + 1..];
    }
  }

  lemma ColdStartDetermines(m: Machine, h: nat)
    requires m.phase.Down? && Inv(m, h) && m.store.cursor.None? && m.table != []
    ensures Determined(m.table, ApplyAll(m.store, ColdWrites(m.table)))
  {
    hide DownInv, Apply, ColdWrites, Determined, ColdInv;
    var m0 := m.(limit := 1);
    DownSettings(m, h, 1, m.grace);
    BootCold(m0, h);
    var end := WritesComplete(AfterBoot(m0), |m.table|);
    assert ColdWrites(m.table)[0..] == ColdWrites(m.table);
    CompleteDetermined(end);
  }

  /** Whatever a safe run left behind without a cursor - interrupted cold starts over
      shorter histories, or live samples filed before the first cursor was written -
      a complete cold start leaves exactly the keys it leaves on an empty Redis. */
  lemma ColdStartRestartable(m: Machine, actions: seq<Action>)
    requires Fresh(m) && SafeRun(m, actions)
    ensures IsRun(m, actions)
    ensures var end := Run(m, actions);
            end.phase.Down? && end.store.cursor.None? && end.table != [] ==>
              && ApplyAll(end.store, ColdWrites(end.table)) == ApplyAll(EMPTY_STORE, ColdWrites(end.table))
              && Determined(end.table, ApplyAll(end.store, ColdWrites(end.table)))
  {
    hide Inv, Fresh, Determined, ApplyAll, ColdWrites;
    FreshInv(m);
    RunKeeps(m, actions, 0);
    var end, h := Run(m, actions), HighWater(m, actions, 0);
    if end.phase.Down? && end.store.cursor.None? && end.table != [] {
      ColdStartDetermines(end, h);
      InvTable(end, h);
      var clean := end.(store := EMPTY_STORE);
      assert Fresh(clean) by { FreshOf(clean); }
      FreshInv(clean);
      ColdStartDetermines(clean, 0);
      DeterminedUnique(end.table, ApplyAll(end.store, ColdWrites(end.table)),
                        ApplyAll(EMPTY_STORE, ColdWrites(end.table)));
    }
  }

  lemma FreshOf(m: Machine)
    requires Table(m.table) && m.store == EMPTY_STORE && m.phase.Down?
    ensures Fresh(m)
  {
  }
}
