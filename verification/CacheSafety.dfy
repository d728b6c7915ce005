/** Safety of the candle cache over whole runs of the station machine: arrivals,
    ticks, cold starts, exceptions and crashes in any order. */
module CacheSafety {
  import opened Wrappers
  import opened Buckets
  import opened BoxStats
  import opened Samples
  import opened CandleStore
  import opened Freezer
  import opened Backfill
  import opened StationMachine
  import opened CacheInvariant

  // ----- the invariant -----

  /** The keys in memory are keys of the first `q` rows, and a pending bucket is
      never the one last seen. */
  ghost predicate MemoryKnown(m: Machine, q: nat)
    requires q <= |m.table|
  {
    && (forall v :: v in m.task.lastKeys ==> Known(m.table[..q], Bucket(v, m.task.lastKeys[v])))
    && (forall v :: v in m.task.pending ==>
          && Known(m.table[..q], Bucket(v, m.task.pending[v].key))
          && v in m.task.lastKeys && m.task.lastKeys[v] != m.task.pending[v].key)
  }

  ghost predicate PendingPassed(m: Machine, n: nat)
    requires n <= |m.table|
  {
    forall v :: v in m.task.pending ==> Passed(m.table[..n], Bucket(v, m.task.pending[v].key))
  }

  /** The id is that of the last of the first `n` rows. */
  ghost predicate IdAt(rows: seq<Sample>, id: int, n: nat) {
    n <= |rows| && Consumed(rows, id) == n && id == if n == 0 then 0 else rows[n - 1].id
  }

  /** No sample from row `p` on lies in a frozen bucket. */
  ghost predicate NoneFrozenFrom(rows: seq<Sample>, s: Store, p: nat) {
    forall i, u :: p <= i < |rows| ==> BucketOf(rows[i], u) !in s.frozen
  }

  /** Where a fetch from row `p` can reach. */
  function Reach(m: Machine, p: nat): (q: nat)
    requires p <= |m.table|
    ensures p <= q <= |m.table|
  {
    if |m.table| - p <= m.limit then |m.table| else p + m.limit
  }

  function Pos(m: Machine): (n: nat)
    ensures n <= |m.table|
  {
    Position(m.table, m.store)
  }

  /** A process that works with `lastId`, the first `p` rows consumed. */
  ghost predicate Base(m: Machine, h: nat, lastId: int, p: nat) {
    && h <= |m.table| && Sound(m.table, m.store, Pos(m), h)
    && Kept(m.table[..Pos(m)], m.store)
    && m.limit > 0 && IdAt(m.table, lastId, p) && p <= Pos(m) <= Reach(m, p)
  }

  ghost predicate ReadyInv(m: Machine, h: nat, lastId: int, p: nat) {
    && Base(m, h, lastId, p)
    && NoneFrozenFrom(m.table, m.store, p)
    && MemoryKnown(m, Reach(m, p))
    && (p < |m.table| || PendingPassed(m, Pos(m)))
  }

  function UnitIndex(u: Unit): (k: nat)
    ensures k < |UNITS| && UNITS[k] == u
  {
    match u case Hour => 0 case Day => 1 case Week => 2 case Month => 3
  }

  ghost predicate InLive(s: Store, x: Sample, u: Unit) {
    x.id in LiveOf(s, BucketOf(x, u))
  }

  /** The batch is the rows from `p` on, up to `q`. */
  ghost predicate IsBatch(rows: seq<Sample>, batch: seq<Sample>, p: nat, q: nat) {
    p < q <= |rows| && batch == rows[p..q]
  }

  /** The filing loop stands at unit `u` of sample `i`: what is before has been filed,
      and the last-seen keys are those of the sample filed last in each unit. */
  ghost predicate FiledSoFar(m: Machine, batch: seq<Sample>, i: nat, u: nat) {
    && i <= |batch| && u < |UNITS| && (i == |batch| ==> u == 0)
    && (forall j, v :: 0 <= j < i ==> InLive(m.store, batch[j], v))
    && (forall v :: UnitIndex(v) < u && i < |batch| ==> InLive(m.store, batch[i], v))
    && (forall v :: UnitIndex(v) < u && i < |batch| ==> LastKeyIs(m.task, batch[i], v))
    && (forall v :: UnitIndex(v) >= u && i > 0 ==>
          LastKeyIs(m.task, batch[i - 1], v)
          || (UnitIndex(v) == u && i < |batch| && LastKeyIs(m.task, batch[i], v)))
  }

  ghost predicate LastKeyIs(t: Task, x: Sample, v: Unit) {
    v in t.lastKeys && t.lastKeys[v] == BucketOf(x, v).key
  }

  ghost predicate FilingInv(m: Machine, h: nat, lastId: int, batch: seq<Sample>, i: nat, u: nat, p: nat, q: nat) {
    && Base(m, h, lastId, p)
    && NoneFrozenFrom(m.table, m.store, p)
    && IsBatch(m.table, batch, p, q) && Pos(m) <= q <= h && q <= Reach(m, p)
    && MemoryKnown(m, q)
    && FiledSoFar(m, batch, i, u)
  }

  ghost predicate RecomputingInv(m: Machine, h: nat, lastId: int, batch: seq<Sample>, p: nat) {
    && Base(m, h, lastId, p)
    && NoneFrozenFrom(m.table, m.store, p)
    && IsBatch(m.table, batch, p, Pos(m))
    && MemoryKnown(m, Pos(m)) && PendingPassed(m, Pos(m))
  }

  ghost predicate FreezingInv(m: Machine, h: nat, lastId: int, nextId: int, due: seq<Bucket>, p: nat) {
    && Base(m, h, lastId, p)
    && IdAt(m.table, nextId, Pos(m))
    && MemoryKnown(m, Pos(m)) && PendingPassed(m, Pos(m))
    && (forall k :: 0 <= k < |due| ==> Passed(m.table[..Pos(m)], due[k]))
  }

  /** What a write leaves in the store. */
  ghost predicate Effect(s: Store, w: Write) {
    match w
    case FreezeBucket(b, stats, score) =>
      && b in s.frozen && s.frozen[b] == stats && b in s.index && s.index[b] == score
      && b !in s.live && b !in s.liveStats
    case AddLiveRaw(b, id, value) => id in LiveOf(s, b) && LiveOf(s, b)[id] == value
    case SetLiveStats(b, stats) => b in s.liveStats && s.liveStats[b] == stats
    case SetCursor(c) => s.cursor == Some(c)
  }

  ghost predicate ColdInv(m: Machine, h: nat, rows: seq<Sample>, done: nat) {
    && |rows| <= h <= |m.table| && rows == m.table[..|rows|]
    && m.limit > 0
    && Sound(m.table, m.store, |rows|, h)
    && (rows == [] ==> m.store.cursor.None?)
    && (rows != [] ==>
          && done <= |ColdWrites(rows)|
          && (m.store.cursor.None? <==> done < |ColdWrites(rows)|)
          && (forall j :: 0 <= j < done ==> Effect(m.store, ColdWrites(rows)[j])))
  }

  /** A stopped process leaves a sound store; once there is a cursor, everything up
      to it is accounted for and every frozen bucket was passed before it. */
  ghost predicate DownInv(m: Machine, h: nat) {
    && h <= |m.table|
    && Sound(m.table, m.store, if m.store.cursor.Some? then Pos(m) else |m.table|, h)
    && Kept(m.table[..Pos(m)], m.store)
  }

  /** The number of rows consumed up to the id the phase works with. */
  function Base0(m: Machine): (p: nat)
    ensures p <= |m.table|
  {
    match m.phase
    case Ready(id) => Consumed(m.table, id)
    case Filing(id, _, _, _) => Consumed(m.table, id)
    case Recomputing(id, _) => Consumed(m.table, id)
    case Freezing(id, _, _) => Consumed(m.table, id)
    case _ => 0
  }

  ghost predicate Inv(m: Machine, h: nat) {
    var p := Base0(m);
    match m.phase
    case Down => DownInv(m, h)
    case ColdStart(rows, done) => ColdInv(m, h, rows, done)
    case Ready(id) => ReadyInv(m, h, id, p)
    case Filing(id, batch, i, u) => FilingInv(m, h, id, batch, i, u, p, p + |batch|)
    case Recomputing(id, batch) => RecomputingInv(m, h, id, batch, p)
    case Freezing(id, nextId, due) => FreezingInv(m, h, id, nextId, due, p)
  }

  /** How far along the table an action may reach with its writes. */
  function Touched(m: Machine, a: Action): (q: nat)
    ensures q <= |m.table|
  {
    if a.Boot? && m.store.cursor.None? then |m.table|
    else if a.Fetch? && m.phase.Ready? then Reach(m, Consumed(m.table, m.phase.lastId))
    else 0
  }

  function Higher(m: Machine, a: Action, h: nat): nat {
    if Touched(m, a) > h then Touched(m, a) else h
  }

  /** An exception after a freeze is retried safely if the rows that will be read
      again lie in no frozen bucket. */
  ghost predicate RetrySafe(m: Machine) {
    m.phase.Freezing? ==> NoneFrozenFrom(m.table, m.store, Consumed(m.table, m.phase.lastId))
  }

  // ----- arrivals -----

  lemma TableGrows(rows: seq<Sample>, x: Sample)
    requires Table(rows) && x.id > 0
    requires rows != [] ==>
      rows[|rows| - 1].id < x.id && Calendar.Instant(rows[|rows| - 1].at) <= Calendar.Instant(x.at)
    ensures Table(rows + [x])
  {
    hide Calendar.Instant;
  }

  lemma IdAtGrows(rows: seq<Sample>, x: Sample, id: int, n: nat)
    requires Table(rows + [x]) && IdAt(rows, id, n)
    ensures IdAt(rows + [x], id, n)
  {
    hide Calendar.Instant;
    ConsumedOfMore(rows, [x], id);
    assert Consumed([x], id) == if x.id <= id then 1 else 0 by { assert [x][1..] == []; }
    assert rows + [x] == (rows + [x])[..|rows|] + [x];
    assert (rows + [x])[|rows|] == x;
    if n > 0 {
      assert (rows + [x])[n - 1].id == id;
    }
  }

  lemma PositionGrows(rows: seq<Sample>, x: Sample, s: Store)
    requires Table(rows + [x]) && CursorRight(rows, s)
    ensures Position(rows + [x], s) == Position(rows, s) && CursorRight(rows + [x], s)
  {
    if s.cursor.Some? {
      IdAtGrows(rows, x, s.cursor.value.lastId, Position(rows, s));
    }
  }

  lemma KnownMore(rows: seq<Sample>, n: nat, m: nat, b: Bucket)
    requires n <= m <= |rows| && Known(rows[..n], b)
    ensures Known(rows[..m], b)
  {
    hide In;
    var i :| 0 <= i < n && In(rows[..n][i], b);
    assert rows[..m][i] == rows[..n][i];
  }

  lemma MemoryMore(m: Machine, q: nat, r: nat)
    requires q <= r <= |m.table| && MemoryKnown(m, q)
    ensures MemoryKnown(m, r)
  {
    hide Known;
    forall v | v in m.task.lastKeys ensures Known(m.table[..r], Bucket(v, m.task.lastKeys[v])) {
      KnownMore(m.table, q, r, Bucket(v, m.task.lastKeys[v]));
    }
    forall v | v in m.task.pending ensures Known(m.table[..r], Bucket(v, m.task.pending[v].key)) {
      KnownMore(m.table, q, r, Bucket(v, m.task.pending[v].key));
    }
  }

  lemma FrozenMore(rows: seq<Sample>, n: nat, r: nat, s: Store)
    requires Table(rows) && n <= r <= |rows| && FrozenSound(rows[..n], s)
    ensures FrozenSound(rows[..r], s)
  {
    hide Passed, In, SameCandle, StatsOf, FreezeScore, InferTime, Table;
    forall b | b in s.frozen ensures Passed(rows[..r], b) && FrozenRight(rows[..r], s, b) {
      PassedMore(rows, n, r, b);
      assert Table(rows[..r]) by { TablePrefix(rows, r); }
      assert rows[..r][..n] == rows[..n];
      PassedValues(rows[..r], n, b);
    }
  }

  lemma LiveMore(rows: seq<Sample>, h: nat, g: nat, s: Store)
    requires h <= g <= |rows| && LiveSound(rows[..h], s)
    ensures LiveSound(rows[..g], s)
  {
    hide HasSample, Known;
    forall b, id | b in s.live && id in s.live[b] ensures HasSample(rows[..g], b, id, s.live[b][id]) {
      HasMore(rows, h, g, b, id, s.live[b][id]);
    }
    forall b | b in s.liveStats ensures Known(rows[..g], b) { KnownMore(rows, h, g, b); }
  }

  lemma HasMore(rows: seq<Sample>, h: nat, g: nat, b: Bucket, id: int, value: real)
    requires h <= g <= |rows| && HasSample(rows[..h], b, id, value)
    ensures HasSample(rows[..g], b, id, value)
  {
    hide In;
    var i :| 0 <= i < h && In(rows[..h][i], b) && rows[..h][i].id == id && rows[..h][i].value == value;
    assert rows[..g][i] == rows[..h][i];
  }

  lemma SoundMore(rows: seq<Sample>, s: Store, n: nat, h: nat, n': nat, h': nat)
    requires n <= n' <= |rows| && h <= h' <= |rows| && Sound(rows, s, n, h)
    ensures Sound(rows, s, n', h')
  {
    hide LiveSound, FrozenSound, Table, CursorRight;
    FrozenMore(rows, n, n', s);
    LiveMore(rows, h, h', s);
  }

  lemma SoundGrows(rows: seq<Sample>, x: Sample, s: Store, n: nat, h: nat)
    requires n <= |rows| && h <= |rows| && Sound(rows, s, n, h) && Table(rows + [x])
    ensures Sound(rows + [x], s, n, h)
  {
    hide LiveSound, FrozenSound, Table, Position;
    PositionGrows(rows, x, s);
    assert (rows + [x])[..n] == rows[..n] && (rows + [x])[..h] == rows[..h];
  }

  /** New samples never lie in frozen buckets. */
  lemma NoneFrozenGrows(rows: seq<Sample>, x: Sample, s: Store, n: nat, p: nat)
    requires Table(rows + [x]) && n <= |rows| && FrozenSound(rows[..n], s)
    requires NoneFrozenFrom(rows, s, p)
    ensures NoneFrozenFrom(rows + [x], s, p)
  {
    hide Passed, In, FrozenRight, Table, BucketKey;
    var more := rows + [x];
    assert more[..n] == rows[..n];
    forall i, u | p <= i < |more| ensures BucketOf(more[i], u) !in s.frozen {
      OwnBucket(more[i], u);
      if i == |rows| && BucketOf(x, u) in s.frozen {
        PassedForGood(more, n, BucketOf(x, u), i);
      }
    }
  }

  lemma OwnBucket(x: Sample, u: Unit)
    ensures In(x, BucketOf(x, u))
  {
  }

  /** Rows beyond those that passed every frozen bucket lie in none of them. */
  lemma NoneFrozenBeyond(rows: seq<Sample>, s: Store, n: nat)
    requires Table(rows) && n <= |rows| && FrozenSound(rows[..n], s)
    ensures NoneFrozenFrom(rows, s, n)
  {
    hide Passed, In, FrozenRight, Table, BucketKey;
    forall i, u | n <= i < |rows| ensures BucketOf(rows[i], u) !in s.frozen {
      OwnBucket(rows[i], u);
      if BucketOf(rows[i], u) in s.frozen {
        PassedForGood(rows, n, BucketOf(rows[i], u), i);
      }
    }
  }

  lemma BaseGrows(m: Machine, x: Sample, h: nat, lastId: int, p: nat)
    requires Base(m, h, lastId, p) && Table(m.table + [x])
    ensures Base(m.(table := m.table + [x]), h, lastId, p)
    ensures Pos(m.(table := m.table + [x])) == Pos(m)
  {
    hide LiveSound, FrozenSound, Table, Position, Kept, Apart;
    SoundGrows(m.table, x, m.store, Pos(m), h);
    PositionGrows(m.table, x, m.store);
    IdAtGrows(m.table, x, lastId, p);
    assert (m.table + [x])[..Pos(m)] == m.table[..Pos(m)];
  }

  lemma MemoryGrows(m: Machine, x: Sample, q: nat)
    requires q <= |m.table|
    ensures MemoryKnown(m, q) ==> MemoryKnown(m.(table := m.table + [x]), q)
    ensures PendingPassed(m, q) ==> PendingPassed(m.(table := m.table + [x]), q)
  {
    hide Known, Passed;
    assert (m.table + [x])[..q] == m.table[..q];
  }

  lemma RunningGrows(m: Machine, x: Sample, h: nat, lastId: int, p: nat, q: nat)
    requires Base(m, h, lastId, p) && Table(m.table + [x]) && q <= |m.table|
    ensures var m' := m.(table := m.table + [x]);
            && Base(m', h, lastId, p) && Pos(m') == Pos(m) && Reach(m, p) <= Reach(m', p)
            && Consumed(m'.table, lastId) == p
            && (NoneFrozenFrom(m.table, m.store, p) ==> NoneFrozenFrom(m'.table, m'.store, p))
            && (MemoryKnown(m, q) ==> MemoryKnown(m', q))
            && (PendingPassed(m, q) ==> PendingPassed(m', q))
            && m'.table[..q] == m.table[..q]
  {
    hide *;
    BaseGrows(m, x, h, lastId, p);
    BaseFacts(m, h, lastId, p);
    BaseFacts(m.(table := m.table + [x]), h, lastId, p);
    if NoneFrozenFrom(m.table, m.store, p) {
      NoneFrozenGrows(m.table, x, m.store, Pos(m), p);
    }
    MemoryGrows(m, x, q);
    ReachGrows(m, x, p);
  }

  lemma ArriveReady(m: Machine, x: Sample, h: nat)
    requires m.phase.Ready? && Inv(m, h) && Table(m.table + [x])
    ensures Inv(m.(table := m.table + [x]), h)
  {
    var m', id, p := m.(table := m.table + [x]), m.phase.lastId, Base0(m);
    assert p <= |m.table| by { BaseFacts(m, h, id, p); }
    RunningGrows(m, x, h, id, p, Reach(m, p));
    RunningGrows(m, x, h, id, p, Pos(m));
    MemoryMore(m', Reach(m, p), Reach(m', p));
    hide Base, NoneFrozenFrom, MemoryKnown, PendingPassed, Reach, Pos, Consumed, Table;
  }

  lemma ArriveFiling(m: Machine, x: Sample, h: nat)
    requires m.phase.Filing? && Inv(m, h) && Table(m.table + [x])
    ensures Inv(m.(table := m.table + [x]), h)
  {
    hide Base, NoneFrozenFrom, MemoryKnown, PendingPassed, Reach, Pos, FiledSoFar, Consumed, Table;
    var m', id, p := m.(table := m.table + [x]), m.phase.lastId, Base0(m);
    var q := p + |m.phase.batch|;
    RunningGrows(m, x, h, id, p, q);
    assert m'.table[p..q] == m.table[p..q];
    assert FiledSoFar(m', m.phase.batch, m.phase.i, m.phase.u) by { FiledElsewhere(m, x); }
  }

  lemma FiledElsewhere(m: Machine, x: Sample)
    requires m.phase.Filing? && FiledSoFar(m, m.phase.batch, m.phase.i, m.phase.u)
    ensures FiledSoFar(m.(table := m.table + [x]), m.phase.batch, m.phase.i, m.phase.u)
  {
    hide InLive, LastKeyIs;
  }

  lemma ArriveRecomputing(m: Machine, x: Sample, h: nat)
    requires m.phase.Recomputing? && Inv(m, h) && Table(m.table + [x])
    ensures Inv(m.(table := m.table + [x]), h)
  {
    hide Base, NoneFrozenFrom, MemoryKnown, PendingPassed, Reach, Pos, Consumed, Table;
    var p := Base0(m);
    RunningGrows(m, x, h, m.phase.lastId, p, Pos(m));
    assert (m.table + [x])[p..Pos(m)] == m.table[p..Pos(m)];
  }

  lemma ArriveFreezing(m: Machine, x: Sample, h: nat)
    requires m.phase.Freezing? && Inv(m, h) && Table(m.table + [x])
    ensures Inv(m.(table := m.table + [x]), h)
  {
    hide Base, NoneFrozenFrom, MemoryKnown, PendingPassed, Reach, Pos, IdAt, Passed, Consumed, Table;
    RunningGrows(m, x, h, m.phase.lastId, Base0(m), Pos(m));
    IdAtGrows(m.table, x, m.phase.nextId, Pos(m));
  }

  lemma ArriveColdStart(m: Machine, x: Sample, h: nat)
    requires m.phase.ColdStart? && Inv(m, h) && Table(m.table + [x])
    ensures Inv(m.(table := m.table + [x]), h)
  {
    hide Sound, Effect, Table, ColdWrites;
    SoundGrows(m.table, x, m.store, |m.phase.rows|, h);
    assert (m.table + [x])[..|m.phase.rows|] == m.phase.rows;
  }

  lemma ArriveKeeps(m: Machine, x: Sample, h: nat)
    requires Inv(m, h) && Enabled(m, Arrive(x))
    ensures Inv(Next(m, Arrive(x)), h)
  {
    InvTable(m, h);
    TableGrows(m.table, x);
    hide Inv, Table;
    match m.phase
    case Down => ArriveDown(m, x, h);
    case ColdStart(_, _) => ArriveColdStart(m, x, h);
    case Ready(_) => ArriveReady(m, x, h);
    case Filing(_, _, _, _) => ArriveFiling(m, x, h);
    case Recomputing(_, _) => ArriveRecomputing(m, x, h);
    case Freezing(_, _, _) => ArriveFreezing(m, x, h);
  }

  lemma InvTable(m: Machine, h: nat)
    requires Inv(m, h)
    ensures Table(m.table)
  {
    hide LiveSound, FrozenSound, Table, Position, Kept, Apart, Effect, FiledSoFar, NoneFrozenFrom;
  }

  lemma BaseFacts(m: Machine, h: nat, lastId: int, p: nat)
    requires Base(m, h, lastId, p)
    ensures Table(m.table) && Apart(m.store) && FrozenSound(m.table[..Pos(m)], m.store)
    ensures CursorRight(m.table, m.store) && IdAt(m.table, lastId, p)
    ensures Consumed(m.table, lastId) == p && p <= Pos(m) <= Reach(m, p) && p <= |m.table| && m.limit > 0
    ensures h <= |m.table| && LiveSound(m.table[..h], m.store) && Kept(m.table[..Pos(m)], m.store)
  {
  }

  lemma BaseNumbers(m: Machine, h: nat, lastId: int, p: nat)
    requires Base(m, h, lastId, p)
    ensures Table(m.table) && IdAt(m.table, lastId, p) && Consumed(m.table, lastId) == p
    ensures p <= |m.table| && p <= Pos(m) <= Reach(m, p) && m.limit > 0 && h <= |m.table|
  {
  }

  lemma ReachGrows(m: Machine, x: Sample, p: nat)
    requires p <= |m.table|
    ensures Reach(m, p) <= Reach(m.(table := m.table + [x]), p)
  {
  }

  lemma ArriveDown(m: Machine, x: Sample, h: nat)
    requires m.phase.Down? && Inv(m, h) && Table(m.table + [x])
    ensures Inv(m.(table := m.table + [x]), h)
  {
    hide LiveSound, FrozenSound, Table, Position, Kept, Apart;
    var n := if m.store.cursor.Some? then Pos(m) else |m.table|;
    SoundGrows(m.table, x, m.store, n, h);
    PositionGrows(m.table, x, m.store);
    assert (m.table + [x])[..Pos(m)] == m.table[..Pos(m)];
    if m.store.cursor.None? {
      SoundMore(m.table + [x], m.store, n, h, n + 1, h);
    }
  }

  // ----- cold start -----

  lemma LastNotFrozen(rows: seq<Sample>, s: Store, b: Bucket)
    requires Table(rows) && FrozenSound(rows, s) && LastBucket(rows, b)
    ensures b !in s.frozen
  {
    hide Table, Passed, LastBucket, FrozenRight;
    if b in s.frozen {
      PassedNotLast(rows, b);
    }
  }

  lemma AddKeepsSound(rows: seq<Sample>, s: Store, n: nat, h: nat, b: Bucket, id: int, value: real)
    requires n <= |rows| && h <= |rows| && Sound(rows, s, n, h)
    requires b !in s.frozen && HasSample(rows[..h], b, id, value)
    ensures Sound(rows, Apply(s, AddLiveRaw(b, id, value)), n, h)
  {
    hide Table, FrozenRight, HasSample, Passed, Position;
    var s' := Apply(s, AddLiveRaw(b, id, value));
    assert LiveSound(rows[..h], s') by { AddLiveSound(rows[..h], s, b, id, value); }
    assert FrozenSound(rows[..n], s') by { FrozenUnchanged(rows[..n], s, s'); }
    assert CursorRight(rows, s') by { CursorUnchanged(rows, s, s'); }
  }

  lemma AddLiveSound(rows: seq<Sample>, s: Store, b: Bucket, id: int, value: real)
    requires LiveSound(rows, s) && HasSample(rows, b, id, value)
    ensures LiveSound(rows, Apply(s, AddLiveRaw(b, id, value)))
  {
    hide HasSample, Known;
    var s' := Apply(s, AddLiveRaw(b, id, value));
    assert id in s'.live[b] && s'.live[b] != map[];
    forall c | c in s'.live
      ensures s'.live[c] != map[] && forall i :: i in s'.live[c] ==> HasSample(rows, c, i, s'.live[c][i])
    {
      if c != b { assert s'.live[c] == s.live[c]; }
    }
  }

  lemma StatsKeepsSound(rows: seq<Sample>, s: Store, n: nat, h: nat, b: Bucket, stats: Stored)
    requires n <= |rows| && h <= |rows| && Sound(rows, s, n, h) && b !in s.frozen && Known(rows[..h], b)
    ensures Sound(rows, Apply(s, SetLiveStats(b, stats)), n, h)
  {
    hide Table, FrozenRight, HasSample, Passed, Position, Known;
    var s' := Apply(s, SetLiveStats(b, stats));
    assert FrozenSound(rows[..n], s') by { FrozenUnchanged(rows[..n], s, s'); }
    assert CursorRight(rows, s') by { CursorUnchanged(rows, s, s'); }
  }

  lemma FreezeKeepsSound(rows: seq<Sample>, s: Store, n: nat, h: nat, b: Bucket, stats: Stored, score: int)
    requires n <= |rows| && h <= |rows| && Sound(rows, s, n, h)
    requires Passed(rows[..n], b) && Sampled(rows[..n], b) && score == FreezeScore(b)
    requires SameCandle(stats.candle, StatsOf(ValuesIn(rows[..n], b)))
    ensures Sound(rows, Apply(s, FreezeBucket(b, stats, score)), n, h)
  {
    hide Table, HasSample, Passed, Position, SameCandle, StatsOf, Sampled, ValuesIn, FreezeScore, Known;
    var s', prefix := Apply(s, FreezeBucket(b, stats, score)), rows[..n];
    forall c | c in s'.frozen ensures Passed(prefix, c) && FrozenRight(prefix, s', c) {
      if c != b { assert FrozenRight(prefix, s, c); }
    }
    assert CursorRight(rows, s') by { CursorUnchanged(rows, s, s'); }
  }

  lemma CursorKeepsSound(rows: seq<Sample>, s: Store, n: nat, h: nat, k: nat)
    requires n <= |rows| && h <= |rows| && Sound(rows, s, n, h) && 0 < k <= |rows|
    ensures var s' := Apply(s, SetCursor(Cursor(rows[k - 1].id, rows[k - 1].at)));
            Sound(rows, s', n, h) && Position(rows, s') == k
  {
    TableOrdered(rows);
    ConsumedById(rows, k);
    hide Table, FrozenSound, LiveSound, Consumed;
    var s' := Apply(s, SetCursor(Cursor(rows[k - 1].id, rows[k - 1].at)));
    FrozenUnchanged(rows[..n], s, s');
    LiveUnchanged(rows[..h], s, s');
  }

  lemma LiveUnchanged(rows: seq<Sample>, s: Store, s': Store)
    requires LiveSound(rows, s) && s'.live == s.live && s'.liveStats == s.liveStats
    ensures LiveSound(rows, s')
  {
    hide HasSample, Known;
  }

  lemma FrozenUnchanged(rows: seq<Sample>, s: Store, s': Store)
    requires FrozenSound(rows, s) && s'.frozen == s.frozen && s'.index == s.index
    ensures FrozenSound(rows, s')
  {
    hide Passed, SameCandle, StatsOf, Sampled, ValuesIn, FreezeScore;
    forall b | b in s'.frozen ensures Passed(rows, b) && FrozenRight(rows, s', b) {
      assert FrozenRight(rows, s, b);
    }
  }

  lemma CursorUnchanged(rows: seq<Sample>, s: Store, s': Store)
    requires CursorRight(rows, s) && s'.cursor == s.cursor
    ensures CursorRight(rows, s') && Position(rows, s') == Position(rows, s)
  {
  }

  lemma ProperKeepsSound(rows: seq<Sample>, s: Store, n: nat, h: nat, w: Write)
    requires 0 < n <= h <= |rows| && Sound(rows, s, n, h) && Proper(rows[..n], w)
    ensures Sound(rows, Apply(s, w), n, h)
  {
    var prefix := rows[..n];
    assert Table(prefix) && FrozenSound(prefix, s) by { TablePrefix(rows, n); }
    hide Sound, Table, Passed, LastBucket, HasSample, Sampled, StatsOf, FreezeScore, ValuesIn, SameCandle, FrozenSound,
        Apply;
    match w
    case FreezeBucket(b, stats, score) =>
      SameAsItself(StatsOf(ValuesIn(prefix, b)));
      FreezeKeepsSound(rows, s, n, h, b, stats, score);
    case AddLiveRaw(b, id, value) =>
      LastNotFrozen(prefix, s, b);
      HasMore(rows, n, h, b, id, value);
      AddKeepsSound(rows, s, n, h, b, id, value);
    case SetLiveStats(b, stats) =>
      LastNotFrozen(prefix, s, b);
      LastKnown(prefix, b);
      KnownMore(rows, n, h, b);
      StatsKeepsSound(rows, s, n, h, b, stats);
    case SetCursor(c) =>
      CursorKeepsSound(rows, s, n, h, n);
  }

  lemma LastKnown(rows: seq<Sample>, b: Bucket)
    requires LastBucket(rows, b)
    ensures Known(rows, b)
  {
    hide In;
  }

  lemma TableOrdered(rows: seq<Sample>)
    requires Table(rows)
    ensures Ordered(rows)
  {
  }

  lemma SameAsItself(c: Candle)
    ensures SameCandle(c, c)
  {
  }

  lemma EffectOfOwn(s: Store, w: Write)
    ensures Effect(Apply(s, w), w)
  {
  }

  /** Ids tell samples apart. */
  lemma SameSample(rows: seq<Sample>, b: Bucket, c: Bucket, id: int, v: real, w: real)
    requires Ordered(rows) && HasSample(rows, b, id, v) && HasSample(rows, c, id, w)
    ensures v == w
  {
    hide In;
    var i :| 0 <= i < |rows| && In(rows[i], b) && rows[i].id == id && rows[i].value == v;
    var j :| 0 <= j < |rows| && In(rows[j], c) && rows[j].id == id && rows[j].value == w;
    assert i == j;
  }

  /** Further writes of the same cold start undo nothing. */
  lemma EffectStays(rows: seq<Sample>, s: Store, w: Write, w': Write)
    requires Table(rows) && rows != [] && Proper(rows, w) && Proper(rows, w') && Effect(s, w)
    ensures Effect(Apply(s, w'), w)
  {
    hide Passed, LastBucket, HasSample, Sampled, StatsOf, FreezeScore, ValuesIn;
    if w.FreezeBucket? {
      PassedNotLast(rows, w.bucket);
    }
    if w'.FreezeBucket? {
      PassedNotLast(rows, w'.bucket);
    }
    if w.AddLiveRaw? && w'.AddLiveRaw? && w.id == w'.id {
      SameSample(rows, w.bucket, w'.bucket, w.id, w.value, w'.value);
    }
    hide Table;
  }

  lemma BackfillWriteKeeps(m: Machine, h: nat)
    requires Inv(m, h) && Enabled(m, BackfillWrite)
    ensures Inv(Next(m, BackfillWrite), h)
  {
    hide Sound, Effect, Table, ColdWrites, Proper, Apply;
    var rows, done := m.phase.rows, m.phase.done;
    var ws := ColdWrites(rows);
    assert Table(rows) by { InvTable(m, h); TablePrefix(m.table, |rows|); }
    ColdProper(rows, done);
    ProperKeepsSound(m.table, m.store, |rows|, h, ws[done]);
    forall j | 0 <= j < done + 1 ensures Effect(Apply(m.store, ws[done]), ws[j]) {
      if j == done {
        EffectOfOwn(m.store, ws[done]);
      } else {
        ColdProper(rows, j);
        EffectStays(rows, m.store, ws[j], ws[done]);
      }
    }
    CursorChanges(m.store, ws[done]);
  }

  lemma CursorChanges(s: Store, w: Write)
    ensures Apply(s, w).cursor.Some? <==> w.SetCursor? || s.cursor.Some?
  {
  }

  lemma ColdFacts(m: Machine, h: nat)
    requires m.phase.ColdStart? && Inv(m, h)
    ensures var n := |m.phase.rows|;
            && n <= h <= |m.table| && m.phase.rows == m.table[..n] && m.limit > 0
            && Sound(m.table, m.store, n, h) && (n == 0 ==> m.store.cursor.None?)
  {
    hide Sound, Effect, ColdWrites;
  }

  lemma ColdEffects(m: Machine, h: nat, j: int)
    requires m.phase.ColdStart? && Inv(m, h) && m.phase.rows != [] && 0 <= j < m.phase.done
    ensures j < |ColdWrites(m.phase.rows)| && Effect(m.store, ColdWrites(m.phase.rows)[j])
  {
    hide Sound, Effect, ColdWrites;
  }

  /** When all writes are done the cursor stands behind the rows read. */
  lemma ColdCursor(m: Machine, h: nat)
    requires m.phase.ColdStart? && Inv(m, h) && m.phase.rows != [] && m.phase.done == |ColdWrites(m.phase.rows)|
    ensures var last := m.phase.rows[|m.phase.rows| - 1];
            m.store.cursor == Some(Cursor(last.id, last.at)) && Pos(m) == |m.phase.rows|
  {
    hide Inv, Sound, Table, ColdWrites, Consumed, Ordered;
    var rows := m.phase.rows;
    ColdFacts(m, h);
    InvTable(m, h);
    TableOrdered(m.table);
    ColdNonempty(rows);
    ColdEffects(m, h, m.phase.done - 1);
    ConsumedById(m.table, |rows|);
    assert m.table[|rows| - 1] == rows[|rows| - 1];
  }

  /** ... and every sample is accounted for. */
  lemma ColdKept(m: Machine, h: nat)
    requires m.phase.ColdStart? && Inv(m, h) && m.phase.rows != [] && m.phase.done == |ColdWrites(m.phase.rows)|
    ensures Kept(m.phase.rows, m.store)
  {
    hide Inv, Sound, Table, ColdWrites, Accounts, Effect, Held;
    var rows := m.phase.rows;
    ColdFacts(m, h);
    InvTable(m, h);
    TablePrefix(m.table, |rows|);
    forall i, u | 0 <= i < |rows| ensures Held(m.store, rows[i], u) {
      var j := ColdAccounts(rows, u, i);
      ColdEffects(m, h, j);
      AccountsHeld(m.store, ColdWrites(rows)[j], rows[i], u);
    }
  }

  lemma AccountsHeld(s: Store, w: Write, x: Sample, u: Unit)
    requires Effect(s, w) && Accounts(w, x, u)
    ensures Held(s, x, u)
  {
    hide BucketOf;
  }

  lemma ColdNonempty(rows: seq<Sample>)
    requires rows != []
    ensures var ws := ColdWrites(rows);
            |ws| > 0 && ws[|ws| - 1] == SetCursor(Cursor(rows[|rows| - 1].id, rows[|rows| - 1].at))
  {
    hide UnitWrites;
  }

  /** The seeded keys are those of a consumed sample. */
  lemma SeededMemory(m: Machine, n: nat, q: nat)
    requires 0 < n <= q <= |m.table|
    requires m.task == NEW_TASK.(lastKeys := LastKeysAt(m.table[n - 1].at))
    ensures MemoryKnown(m, q)
  {
    hide BucketKey;
    forall v | v in m.task.lastKeys ensures Known(m.table[..q], Bucket(v, m.task.lastKeys[v])) {
      assert m.table[..q][n - 1] == m.table[n - 1];
      OwnBucket(m.table[n - 1], v);
    }
  }

  lemma IdAtStart(rows: seq<Sample>)
    requires Table(rows)
    ensures IdAt(rows, 0, 0)
  {
    TableOrdered(rows);
    ConsumedBounds(rows, 0);
    assert rows != [] ==> rows[0].id > 0;
  }

  lemma IdAtRow(rows: seq<Sample>, n: nat)
    requires Table(rows) && 0 < n <= |rows|
    ensures IdAt(rows, rows[n - 1].id, n)
  {
    TableOrdered(rows);
    hide Consumed;
    ConsumedById(rows, n);
  }

  /** A process that has just read the cursor, or just written it, is ready. */
  lemma ReadyAtCursor(m: Machine, h: nat, id: int)
    requires h <= |m.table| && m.limit > 0
    requires Sound(m.table, m.store, Pos(m), h) && Kept(m.table[..Pos(m)], m.store) && IdAt(m.table, id, Pos(m))
    requires MemoryKnown(m, Pos(m)) && PendingPassed(m, Pos(m))
    ensures ReadyInv(m, h, id, Pos(m))
  {
    hide Sound, Kept, Position, MemoryKnown, PendingPassed, NoneFrozenFrom, FrozenSound, Table;
    SoundTable(m.table, m.store, Pos(m), h);
    NoneFrozenBeyond(m.table, m.store, Pos(m));
    MemoryMore(m, Pos(m), Reach(m, Pos(m)));
  }

  lemma SoundTable(rows: seq<Sample>, s: Store, n: nat, h: nat)
    requires n <= |rows| && h <= |rows| && Sound(rows, s, n, h)
    ensures Table(rows) && FrozenSound(rows[..n], s) && Apart(s)
  {
  }

  lemma BackfillEndEmpty(m: Machine, h: nat)
    requires m.phase.ColdStart? && Inv(m, h) && m.phase.rows == []
    ensures ReadyInv(AfterBackfill(m), h, 0, 0)
  {
    hide Inv, Sound, Table, Consumed, IdAt;
    var m' := AfterBackfill(m);
    InvTable(m, h);
    ColdFacts(m, h);
    assert Pos(m') == 0;
    IdAtStart(m.table);
    ReadyAtCursor(m', h, 0);
  }

  lemma BackfillEndSome(m: Machine, h: nat)
    requires m.phase.ColdStart? && Inv(m, h) && m.phase.rows != [] && m.phase.done == |ColdWrites(m.phase.rows)|
    ensures var n := |m.phase.rows|;
            ReadyInv(AfterBackfill(m), h, m.phase.rows[n - 1].id, n)
  {
    hide *;
    InvTable(m, h);
    ColdFacts(m, h);
    ColdCursor(m, h);
    ColdKept(m, h);
    ReadyAfterCold(m, h, |m.phase.rows|);
  }

  lemma ReadyAfterCold(m: Machine, h: nat, n: nat)
    requires m.phase.ColdStart? && n == |m.phase.rows| && 0 < n <= h <= |m.table| && m.phase.rows == m.table[..n]
    requires m.limit > 0 && Sound(m.table, m.store, n, h) && Pos(m) == n && Kept(m.phase.rows, m.store)
    ensures ReadyInv(AfterBackfill(m), h, m.phase.rows[n - 1].id, n)
  {
    hide Sound, Table, Consumed, IdAt, LastKeysAt, Kept, Position, MemoryKnown;
    var m' := AfterBackfill(m);
    SoundTable(m.table, m.store, n, h);
    assert m.phase.rows[n - 1] == m.table[n - 1];
    IdAtRow(m.table, n);
    SeededMemory(m', n, n);
    assert Pos(m') == n;
    ReadyAtCursor(m', h, m.phase.rows[n - 1].id);
  }

  lemma BootWarm(m: Machine, h: nat)
    requires DownInv(m, h) && m.store.cursor.Some? && m.limit > 0
    ensures ReadyInv(AfterBoot(m), h, m.store.cursor.value.lastId, Pos(m))
  {
    hide LiveSound, FrozenSound, Apart, Table, Consumed, IdAt, LastKeysAt, Kept, MemoryKnown;
    var m', n := AfterBoot(m), Pos(m);
    assert m.store.cursor.value == Cursor(m.table[n - 1].id, m.table[n - 1].at);
    IdAtRow(m.table, n);
    SeededMemory(m', n, n);
    ReadyAtCursor(m', h, m.table[n - 1].id);
  }

  lemma BootCold(m: Machine, h: nat)
    requires DownInv(m, h) && m.store.cursor.None? && m.limit > 0
    ensures ColdInv(AfterBoot(m), |m.table|, m.table, 0)
  {
    hide Sound, ColdWrites;
    SoundMore(m.table, m.store, |m.table|, h, |m.table|, |m.table|);
    assert m.table[..|m.table|] == m.table;
    if m.table != [] { ColdNonempty(m.table); }
  }

  // ----- ticks -----

  /** A fetch returns the rows from the id on, as far as it can reach. */
  lemma FetchReaches(m: Machine, id: int, p: nat)
    requires Table(m.table) && IdAt(m.table, id, p)
    ensures FetchSince(m.table, id, m.limit) == m.table[p..Reach(m, p)]
  {
    TableOrdered(m.table);
    FetchIsSlice(m.table, id, m.limit);
    hide FetchSince, Table, Ordered;
  }

  lemma BaseHigher(m: Machine, h: nat, h': nat, id: int, p: nat)
    requires Base(m, h, id, p) && h <= h' <= |m.table|
    ensures Base(m, h', id, p)
  {
    hide Sound, Kept, Position;
    SoundMore(m.table, m.store, Pos(m), h, Pos(m), h');
  }

  /** The invariant's parts do not look at the phase. */
  lemma PhaseOnly(m: Machine, phase: Phase, h: nat, id: int, p: nat, q: nat)
    requires q <= |m.table| && p <= |m.table|
    ensures var m' := m.(phase := phase);
            && Base(m, h, id, p) == Base(m', h, id, p)
            && MemoryKnown(m, q) == MemoryKnown(m', q)
            && PendingPassed(m, q) == PendingPassed(m', q)
            && Pos(m') == Pos(m) && Reach(m', p) == Reach(m, p)
  {
    hide Sound, Kept, Position, Known, Passed, IdAt;
  }

  lemma FetchNone(m: Machine, h: nat, id: int, p: nat, now: real)
    requires ReadyInv(m, h, id, p) && FetchSince(m.table, id, m.limit) == []
    ensures var due := Due(m.task.pending, now);
            FreezingInv(m.(phase := Freezing(id, id, due)), h, id, id, due, p)
  {
    hide Base, MemoryKnown, NoneFrozenFrom, FetchSince, Passed, Table, Position, Consumed, IdAt, Pos;
    BaseNumbers(m, h, id, p);
    FetchReaches(m, id, p);
    assert p == Reach(m, p) == |m.table| == Pos(m);
    PhaseOnly(m, Freezing(id, id, Due(m.task.pending, now)), h, id, p, p);
  }

  lemma FetchSome(m: Machine, h: nat, h': nat, id: int, p: nat)
    requires ReadyInv(m, h, id, p) && FetchSince(m.table, id, m.limit) != []
    requires h <= h' <= |m.table| && Reach(m, p) <= h'
    ensures var batch := FetchSince(m.table, id, m.limit);
            FilingInv(m.(phase := Phase.Filing(id, batch, 0, 0)), h', id, batch, 0, 0, p, p + |batch|)
  {
    hide Base, MemoryKnown, NoneFrozenFrom, FetchSince, PendingPassed, Table, Position, Consumed, IdAt, FiledSoFar,
        Pos, IsBatch, Reach;
    BaseNumbers(m, h, id, p);
    FetchedBatch(m, id, p);
    BaseHigher(m, h, h', id, p);
    var batch := FetchSince(m.table, id, m.limit);
    var m' := m.(phase := Phase.Filing(id, batch, 0, 0));
    FiledNothing(m', batch);
    PhaseOnly(m, m'.phase, h', id, p, Reach(m, p));
  }

  lemma FetchedBatch(m: Machine, id: int, p: nat)
    requires Table(m.table) && IdAt(m.table, id, p) && FetchSince(m.table, id, m.limit) != []
    ensures var batch := FetchSince(m.table, id, m.limit);
            p + |batch| == Reach(m, p) && IsBatch(m.table, batch, p, Reach(m, p))
  {
    hide FetchSince, Table, IdAt;
    FetchReaches(m, id, p);
  }

  lemma FiledNothing(m: Machine, batch: seq<Sample>)
    requires batch != []
    ensures FiledSoFar(m, batch, 0, 0)
  {
    hide InLive, LastKeyIs;
  }

  /** The sample at hand is one of the rows the batch was read from. */
  lemma BatchRow(m: Machine, batch: seq<Sample>, i: nat, p: nat, q: nat)
    requires IsBatch(m.table, batch, p, q) && i < |batch|
    ensures p + i < q && batch[i] == m.table[p + i] && |batch| == q - p
  {
  }

  lemma BoundaryMemory(m: Machine, b: Bucket, readyAt: real, q: nat)
    requires q <= |m.table| && MemoryKnown(m, q) && Known(m.table[..q], b)
    requires b.unit in m.task.lastKeys ==> m.task.lastKeys[b.unit] != b.key
    ensures MemoryKnown(m.(task := AfterBoundary(m.task, b, readyAt)), q)
  {
    hide Known;
    var t := AfterBoundary(m.task, b, readyAt);
    forall v | v in t.lastKeys ensures Known(m.table[..q], Bucket(v, t.lastKeys[v])) {
      if v == b.unit { assert Bucket(v, t.lastKeys[v]) == b; }
    }
  }

  lemma NoteBoundaryKeeps(m: Machine, h: nat, id: int, batch: seq<Sample>, i: nat, u: nat, p: nat, q: nat,
          readyAt: real)
    requires FilingInv(m, h, id, batch, i, u, p, q) && i < |batch|
    requires var b := BucketOf(batch[i], UNITS[u]);
             b.unit in m.task.lastKeys ==> m.task.lastKeys[b.unit] != b.key
    ensures var b := BucketOf(batch[i], UNITS[u]);
            FilingInv(m.(task := AfterBoundary(m.task, b, readyAt)), h, id, batch, i, u, p, q)
  {
    var b := BucketOf(batch[i], UNITS[u]);
    var m' := m.(task := AfterBoundary(m.task, b, readyAt));
    BatchRow(m, batch, i, p, q);
    OwnBucket(batch[i], UNITS[u]);
    assert m.table[..q][p + i] == batch[i];
    assert Known(m.table[..q], b);
    BoundaryMemory(m, b, readyAt, q);
    TaskOnly(m, m'.task, h, id, p);
    assert FiledSoFar(m', batch, i, u) by { BoundaryFiled(m, batch, i, u, readyAt); }
    hide Base, MemoryKnown, NoneFrozenFrom, FiledSoFar, BucketOf, Known;
  }

  lemma TaskOnly(m: Machine, task: Task, h: nat, id: int, p: nat)
    ensures var m' := m.(task := task);
            && Base(m, h, id, p) == Base(m', h, id, p) && Pos(m') == Pos(m)
            && (p <= |m.table| ==> Reach(m', p) == Reach(m, p))
  {
    hide Sound, Kept, Position, IdAt;
  }

  lemma BoundaryFiled(m: Machine, batch: seq<Sample>, i: nat, u: nat, readyAt: real)
    requires FiledSoFar(m, batch, i, u) && i < |batch|
    ensures FiledSoFar(m.(task := AfterBoundary(m.task, BucketOf(batch[i], UNITS[u]), readyAt)), batch, i, u)
  {
    hide InLive, BucketKey;
  }

  lemma BatchSampled(rows: seq<Sample>, batch: seq<Sample>, i: nat, p: nat, q: nat, h: nat, u: Unit)
    requires IsBatch(rows, batch, p, q) && i < |batch| && q <= h <= |rows|
    ensures HasSample(rows[..h], BucketOf(batch[i], u), batch[i].id, batch[i].value)
  {
    hide BucketOf, In;
    OwnBucket(batch[i], u);
    assert rows[..h][p + i] == batch[i];
  }

  /** Live sets only grow. */
  lemma AddKeepsHeld(s: Store, b: Bucket, id: int, value: real, x: Sample, u: Unit)
    ensures var s' := Apply(s, AddLiveRaw(b, id, value));
            (Held(s, x, u) ==> Held(s', x, u)) && (InLive(s, x, u) ==> InLive(s', x, u))
  {
    hide BucketOf;
  }

  lemma AddKeepsKept(rows: seq<Sample>, s: Store, b: Bucket, id: int, value: real)
    requires Kept(rows, s)
    ensures Kept(rows, Apply(s, AddLiveRaw(b, id, value)))
  {
    hide Held, Apply;
    forall i, u | 0 <= i < |rows| ensures Held(Apply(s, AddLiveRaw(b, id, value)), rows[i], u) {
      AddKeepsHeld(s, b, id, value, rows[i], u);
    }
  }

  /** A write that leaves the cursor and the frozen candles alone keeps the base,
      provided it keeps the store sound and every sample accounted for. */
  lemma StoreKeepsBase(m: Machine, s: Store, h: nat, id: int, p: nat)
    requires Base(m, h, id, p) && s.cursor == m.store.cursor
    requires Sound(m.table, s, Pos(m), h) && Kept(m.table[..Pos(m)], s)
    ensures var m' := m.(store := s);
            Base(m', h, id, p) && Pos(m') == Pos(m) && p <= |m.table| && Reach(m', p) == Reach(m, p)
  {
    hide Sound, Kept, IdAt, Consumed;
  }

  lemma BaseParts(m: Machine, h: nat, id: int, p: nat)
    requires Base(m, h, id, p)
    ensures h <= |m.table| && Sound(m.table, m.store, Pos(m), h) && Kept(m.table[..Pos(m)], m.store)
  {
    hide Sound, Kept;
  }

  lemma MachineParts(m: Machine, m': Machine, q: nat)
    requires m'.table == m.table && q <= |m.table|
    requires m'.task.lastKeys == m.task.lastKeys && m'.task.pending == m.task.pending
    ensures MemoryKnown(m, q) == MemoryKnown(m', q) && PendingPassed(m, q) == PendingPassed(m', q)
  {
    hide Known, Passed;
  }

  function Filed(m: Machine, x: Sample, u: Unit): Machine {
    var b := BucketOf(x, u);
    m.(store := Apply(m.store, AddLiveRaw(b, x.id, x.value)), task := m.task.(dirty := m.task.dirty + {b}))
  }

  lemma FiledBase(m: Machine, h: nat, id: int, batch: seq<Sample>, i: nat, u: Unit, p: nat, q: nat)
    requires Base(m, h, id, p) && NoneFrozenFrom(m.table, m.store, p)
    requires IsBatch(m.table, batch, p, q) && i < |batch| && q <= h
    ensures var m' := Filed(m, batch[i], u);
            && Base(m', h, id, p) && NoneFrozenFrom(m'.table, m'.store, p)
            && Pos(m') == Pos(m) && p <= |m.table| && Reach(m', p) == Reach(m, p)
  {
    hide Base, Sound, Kept, BucketOf, HasSample, NoneFrozenFrom;
    var x, b := batch[i], BucketOf(batch[i], u);
    BaseParts(m, h, id, p);
    BatchSampled(m.table, batch, i, p, q, h, u);
    BatchRow(m, batch, i, p, q);
    NotFrozenAt(m.table, m.store, p, p + i, u);
    AddKeepsSound(m.table, m.store, Pos(m), h, b, x.id, x.value);
    AddKeepsKept(m.table[..Pos(m)], m.store, b, x.id, x.value);
    var s' := Apply(m.store, AddLiveRaw(b, x.id, x.value));
    StoreKeepsBase(m, s', h, id, p);
    TaskOnly(m.(store := s'), Filed(m, x, u).task, h, id, p);
    NoneFrozenSame(m.table, m.store, s', p);
  }

  lemma NotFrozenAt(rows: seq<Sample>, s: Store, p: nat, k: nat, u: Unit)
    requires NoneFrozenFrom(rows, s, p) && p <= k < |rows|
    ensures BucketOf(rows[k], u) !in s.frozen
  {
    hide BucketOf;
  }

  lemma NoneFrozenSame(rows: seq<Sample>, s: Store, s': Store, p: nat)
    requires NoneFrozenFrom(rows, s, p) && s'.frozen == s.frozen
    ensures NoneFrozenFrom(rows, s', p)
  {
    hide BucketOf;
  }

  /** What one more filed sample does to the progress of the filing loop. */
  lemma FiledProgress(m: Machine, batch: seq<Sample>, i: nat, u: nat)
    requires FiledSoFar(m, batch, i, u) && i < |batch| && LastKeyIs(m.task, batch[i], UNITS[u])
    ensures var m' := Filed(m, batch[i], UNITS[u]);
            if u + 1 < |UNITS| then FiledSoFar(m', batch, i, u + 1) else FiledSoFar(m', batch, i + 1, 0)
  {
    hide BucketOf, Apply, InLive;
    var x, b := batch[i], BucketOf(batch[i], UNITS[u]);
    var m' := Filed(m, x, UNITS[u]);
    forall y, v ensures InLive(m.store, y, v) ==> InLive(m'.store, y, v) {
      AddKeepsHeld(m.store, b, x.id, x.value, y, v);
    }
    AddedIsLive(m.store, x, UNITS[u]);
    assert forall v :: UnitIndex(v) == u ==> v == UNITS[u];
  }

  lemma AddedIsLive(s: Store, x: Sample, u: Unit)
    ensures InLive(Apply(s, AddLiveRaw(BucketOf(x, u), x.id, x.value)), x, u)
  {
    hide BucketOf;
  }

  lemma FiledBounds(m: Machine, batch: seq<Sample>, i: nat, u: nat)
    requires FiledSoFar(m, batch, i, u)
    ensures i <= |batch| && u < |UNITS|
  {
    hide InLive, LastKeyIs;
  }

  lemma FileSampleKeeps(m: Machine, h: nat, id: int, batch: seq<Sample>, i: nat, u: nat, p: nat, q: nat)
    requires FilingInv(m, h, id, batch, i, u, p, q) && i < |batch| && LastKeyIs(m.task, batch[i], UNITS[u])
    ensures var m' := Filed(m, batch[i], UNITS[u]);
            if u + 1 < |UNITS| then FilingInv(m', h, id, batch, i, u + 1, p, q)
            else FilingInv(m', h, id, batch, i + 1, 0, p, q)
  {
    hide Base, NoneFrozenFrom, IsBatch, MemoryKnown, FiledSoFar, Pos, Reach, BucketOf, Apply, LastKeyIs;
    BaseNumbers(m, h, id, p);
    FiledBounds(m, batch, i, u);
    var m' := Filed(m, batch[i], UNITS[u]);
    FiledBase(m, h, id, batch, i, UNITS[u], p, q);
    FiledProgress(m, batch, i, u);
    MachineParts(m, m', q);
  }

  /** After the last sample, the last-seen keys are its own. */
  lemma FiledAll(m: Machine, batch: seq<Sample>, v: Unit)
    requires FiledSoFar(m, batch, |batch|, 0) && batch != []
    ensures LastKeyIs(m.task, batch[|batch| - 1], v)
  {
    hide InLive, LastKeyIs;
    assert UnitIndex(v) >= 0;
  }

  /** Then every bucket still pending has been passed within the batch. */
  lemma FiledPasses(m: Machine, batch: seq<Sample>, p: nat, q: nat)
    requires IsBatch(m.table, batch, p, q) && MemoryKnown(m, q) && FiledSoFar(m, batch, |batch|, 0)
    ensures PendingPassed(m, q)
  {
    hide FiledSoFar, BucketKey;
    var last := batch[|batch| - 1];
    assert m.table[..q][q - 1] == last;
    forall v | v in m.task.pending ensures Passed(m.table[..q], Bucket(v, m.task.pending[v].key)) {
      FiledAll(m, batch, v);
      var b := Bucket(v, m.task.pending[v].key);
      var j :| 0 <= j < q && In(m.table[..q][j], b);
      assert !In(last, b);
      assert j < q - 1;
    }
  }

  lemma FiledKept(m: Machine, batch: seq<Sample>, p: nat, q: nat, n: nat)
    requires IsBatch(m.table, batch, p, q) && p <= n <= q
    requires Kept(m.table[..n], m.store) && FiledSoFar(m, batch, |batch|, 0)
    ensures Kept(m.table[..q], m.store)
  {
    hide BucketOf, LastKeyIs;
    forall i, u | 0 <= i < q ensures Held(m.store, m.table[..q][i], u) {
      if i < n {
        assert m.table[..q][i] == m.table[..n][i];
      } else {
        assert m.table[..q][i] == batch[i - p];
        assert InLive(m.store, batch[i - p], u);
      }
    }
  }

  lemma MoveCursorKeeps(m: Machine, h: nat, id: int, batch: seq<Sample>, p: nat, q: nat)
    requires FilingInv(m, h, id, batch, |batch|, 0, p, q)
    ensures batch != []
    ensures var last := batch[|batch| - 1];
            var m' := m.(store := Apply(m.store, SetCursor(Cursor(last.id, last.at))));
            RecomputingInv(m', h, id, batch, p) && Pos(m') == q
  {
    hide Base, Sound, NoneFrozenFrom, MemoryKnown, PendingPassed, FiledSoFar, Consumed, Kept, Position;
    var last, n := m.table[q - 1], Pos(m);
    assert batch[|batch| - 1] == last;
    BaseNumbers(m, h, id, p);
    BaseParts(m, h, id, p);
    var s' := Apply(m.store, SetCursor(Cursor(last.id, last.at)));
    SoundMore(m.table, m.store, n, h, q, h);
    CursorKeepsSound(m.table, m.store, q, h, q);
    FiledKept(m, batch, p, q, n);
    KeptSame(m.table[..q], m.store, s');
    FiledPasses(m, batch, p, q);
    NoneFrozenSame(m.table, m.store, s', p);
    var m' := m.(store := s');
    MachineParts(m, m', q);
    assert Pos(m') == q;
    BaseFrom(m', h, id, p);
  }

  lemma KeptSame(rows: seq<Sample>, s: Store, s': Store)
    requires Kept(rows, s) && s'.live == s.live && s'.frozen == s.frozen
    ensures Kept(rows, s')
  {
    hide BucketOf;
    forall i, u | 0 <= i < |rows| ensures Held(s', rows[i], u) {
      assert Held(s, rows[i], u);
    }
  }

  lemma BaseFrom(m: Machine, h: nat, id: int, p: nat)
    requires h <= |m.table| && Sound(m.table, m.store, Pos(m), h) && Kept(m.table[..Pos(m)], m.store)
    requires m.limit > 0 && IdAt(m.table, id, p) && p <= Pos(m) <= Reach(m, p)
    ensures Base(m, h, id, p)
  {
    hide Sound, Kept, Pos, Reach, IdAt;
  }

  lemma LiveNotFrozen(m: Machine, h: nat, id: int, p: nat, b: Bucket)
    requires Base(m, h, id, p) && b in m.store.live
    ensures b !in m.store.frozen
  {
    hide LiveSound, FrozenSound, Table, CursorRight, Kept, IdAt;
  }

  lemma LiveKnown(rows: seq<Sample>, s: Store, n: nat, h: nat, b: Bucket)
    requires n <= |rows| && h <= |rows| && Sound(rows, s, n, h) && b in s.live
    ensures Known(rows[..h], b)
  {
    hide In, Table, FrozenSound, CursorRight, Apart;
    assert s.live[b].Keys != {} by { assert |s.live[b].Keys| == |s.live[b]| > 0; }
    var id: int := PickOne(s.live[b].Keys);
    assert HasSample(rows[..h], b, id, s.live[b][id]);
  }

  /** What recomputing a dirty bucket does to the store: at most the live candle changes. */
  lemma RecomputeKeeps(m: Machine, h: nat, id: int, batch: seq<Sample>, p: nat, b: Bucket)
    requires m.phase == Phase.Recomputing(id, batch) && RecomputingInv(m, h, id, batch, p)
    ensures batch != [] && RecomputingInv(AfterRecompute(m, b), h, id, batch, p)
  {
    hide Base, Sound, NoneFrozenFrom, MemoryKnown, PendingPassed, Pos, Kept, StatsOf, ScoreOrder;
    BaseNumbers(m, h, id, p);
    BaseParts(m, h, id, p);
    assert batch != [];
    var m', n := AfterRecompute(m, b), Pos(m);
    if m'.store != m.store {
      ListingEmpty(LiveOf(m.store, b));
      LiveNotFrozen(m, h, id, p, b);
      LiveKnown(m.table, m.store, n, h, b);
      StatsKeepsSound(m.table, m.store, n, h, b, m'.store.liveStats[b]);
      KeptSame(m.table[..n], m.store, m'.store);
    }
    StoreKeepsBase(m, m'.store, h, id, p);
    TaskOnly(m.(store := m'.store), m'.task, h, id, p);
    NoneFrozenSame(m.table, m.store, m'.store, p);
    MachineParts(m, m', n);
  }

  lemma RecomputeEndKeeps(m: Machine, h: nat, id: int, batch: seq<Sample>, p: nat, now: real)
    requires RecomputingInv(m, h, id, batch, p)
    ensures batch != []
    ensures var next, due := batch[|batch| - 1].id, Due(m.task.pending, now);
            FreezingInv(m.(phase := Freezing(id, next, due)), h, id, next, due, p)
  {
    hide Base, MemoryKnown, NoneFrozenFrom, Passed, Table, IdAt, Pos;
    BaseNumbers(m, h, id, p);
    assert batch[|batch| - 1] == m.table[Pos(m) - 1];
    IdAtRow(m.table, Pos(m));
    var next, due := batch[|batch| - 1].id, Due(m.task.pending, now);
    PhaseOnly(m, Freezing(id, next, due), h, id, p, Pos(m));
  }

  /** A bucket passed before the cursor and not frozen has exactly its samples live. */
  lemma PassedExact(rows: seq<Sample>, s: Store, n: nat, h: nat, b: Bucket)
    requires n <= |rows| && h <= |rows| && Sound(rows, s, n, h) && Kept(rows[..n], s)
    requires Passed(rows[..n], b) && b in s.live
    ensures Exact(rows, b, s.live[b])
  {
    hide Table, Passed, FrozenSound, CursorRight, BucketKey;
    SoundTable(rows, s, n, h);
    forall i | 0 <= i < |rows| && In(rows[i], b)
      ensures rows[i].id in s.live[b] && s.live[b][rows[i].id] == rows[i].value
    {
      PassedBefore(rows, n, i, b);
      assert rows[..n][i] == rows[i] && Held(s, rows[..n][i], b.unit);
      LiveValue(rows, s, h, b, i);
    }
    forall id | id in s.live[b] ensures exists i :: 0 <= i < |rows| && In(rows[i], b) && rows[i].id == id {
      LiveSample(rows, s, h, b, id);
    }
  }

  lemma PassedBefore(rows: seq<Sample>, n: nat, i: int, b: Bucket)
    requires Table(rows) && n <= |rows| && Passed(rows[..n], b) && 0 <= i < |rows| && In(rows[i], b)
    ensures i < n
  {
    hide Table, Passed, In;
    if i >= n { PassedForGood(rows, n, b, i); }
  }

  lemma LiveValue(rows: seq<Sample>, s: Store, h: nat, b: Bucket, i: int)
    requires Table(rows) && h <= |rows| && LiveSound(rows[..h], s)
    requires 0 <= i < |rows| && In(rows[i], b) && b in s.live && rows[i].id in s.live[b]
    ensures s.live[b][rows[i].id] == rows[i].value
  {
    hide In, HasSample;
    TableOrdered(rows);
    var id := rows[i].id;
    assert HasSample(rows[..h], b, id, s.live[b][id]);
    HasMore(rows, h, |rows|, b, id, s.live[b][id]);
    assert rows[..|rows|] == rows;
    RowHas(rows, b, i);
    SameSample(rows, b, b, id, s.live[b][id], rows[i].value);
  }

  lemma RowHas(rows: seq<Sample>, b: Bucket, i: int)
    requires 0 <= i < |rows| && In(rows[i], b)
    ensures HasSample(rows, b, rows[i].id, rows[i].value)
  {
    hide In;
  }

  lemma LiveSample(rows: seq<Sample>, s: Store, h: nat, b: Bucket, id: int)
    requires h <= |rows| && LiveSound(rows[..h], s) && b in s.live && id in s.live[b]
    ensures exists i :: 0 <= i < h && In(rows[i], b) && rows[i].id == id
  {
    hide In;
    assert HasSample(rows[..h], b, id, s.live[b][id]);
    var i :| 0 <= i < h && In(rows[..h][i], b) && rows[..h][i].id == id && rows[..h][i].value == s.live[b][id];
    assert rows[i] == rows[..h][i];
  }

  /** The candle computed from the live values is the candle of the samples. */
  lemma LiveCandle(rows: seq<Sample>, b: Bucket, members: map<int, real>)
    requires Ordered(rows) && Exact(rows, b, members) && ScoreOrder(members) != []
    ensures ValuesIn(rows, b) != []
    ensures SameCandle(StatsOf(ScoreOrder(members)), StatsOf(ValuesIn(rows, b)))
  {
    hide Ordered, Exact, Sort, ValuesIn, SameCandle, ComputeBoxStats;
    ListingExact(rows, b, members);
    SortIsSorted(Listing(members));
    BoxOfPermutation(ScoreOrder(members), ValuesIn(rows, b));
  }

  lemma WriteFrozenKeeps(m: Machine, h: nat, id: int, nextId: int, due: seq<Bucket>, p: nat)
    requires FreezingInv(m, h, id, nextId, due, p) && due != []
    requires ScoreOrder(LiveOf(m.store, due[0])) != [] && InferTime(due[0].key, due[0].unit).Some?
    ensures var m' := m.(store := Apply(m.store, FrozenWrite(m.store, due[0])));
            FreezingInv(m', h, id, nextId, due, p)
  {
    hide Base, Sound, MemoryKnown, PendingPassed, Pos, Kept, IdAt, StatsOf, ScoreOrder, FreezeScore, InferTime, Passed,
         SameCandle, ValuesIn, Table, Ordered, Exact;
    var b, n := due[0], Pos(m);
    BaseNumbers(m, h, id, p);
    BaseParts(m, h, id, p);
    ListingEmpty(LiveOf(m.store, b));
    PassedExact(m.table, m.store, n, h, b);
    TableOrdered(m.table);
    LiveCandle(m.table, b, m.store.live[b]);
    PassedValues(m.table, n, b);
    var w := FrozenWrite(m.store, b);
    FreezeKeepsSound(m.table, m.store, n, h, b, w.stats, w.score);
    var s' := Apply(m.store, w);
    KeptFrozen(m.table[..n], m.store, b, w.stats, w.score);
    StoreKeepsBase(m, s', h, id, p);
    MachineParts(m, m.(store := s'), n);
  }

  lemma KeptFrozen(rows: seq<Sample>, s: Store, b: Bucket, stats: Stored, score: int)
    requires Kept(rows, s)
    ensures Kept(rows, Apply(s, FreezeBucket(b, stats, score)))
  {
    hide BucketOf;
    forall i, u | 0 <= i < |rows| ensures Held(Apply(s, FreezeBucket(b, stats, score)), rows[i], u) {
      assert Held(s, rows[i], u);
    }
  }

  lemma DropDueKeeps(m: Machine, h: nat, id: int, nextId: int, due: seq<Bucket>, p: nat)
    requires FreezingInv(m, h, id, nextId, due, p) && due != []
    ensures var m' := m.(task := m.task.(pending := Dropped(m.task.pending, due[0])));
            FreezingInv(m', h, id, nextId, due[1..], p)
  {
    hide Base, Pos, IdAt, Passed, Known, Reach;
    BaseNumbers(m, h, id, p);
    var t := m.task.(pending := Dropped(m.task.pending, due[0]));
    TaskOnly(m, t, h, id, p);
  }

  lemma TickEndKeeps(m: Machine, h: nat, id: int, nextId: int, due: seq<Bucket>, p: nat)
    requires FreezingInv(m, h, id, nextId, due, p)
    ensures ReadyInv(m, h, nextId, Pos(m))
  {
    hide Sound, Kept, MemoryKnown, PendingPassed, IdAt, Pos;
    ReadyAtCursor(m, h, nextId);
  }

  // ----- exceptions and crashes -----

  lemma FailFiling(m: Machine, h: nat, id: int, batch: seq<Sample>, i: nat, u: nat, p: nat, q: nat)
    requires FilingInv(m, h, id, batch, i, u, p, q)
    ensures ReadyInv(m, h, id, p)
  {
    hide Base, MemoryKnown, NoneFrozenFrom, FiledSoFar, Pos, Reach;
    BaseNumbers(m, h, id, p);
    MemoryMore(m, q, Reach(m, p));
  }

  lemma FailRecomputing(m: Machine, h: nat, id: int, batch: seq<Sample>, p: nat)
    requires RecomputingInv(m, h, id, batch, p)
    ensures ReadyInv(m, h, id, p)
  {
    hide Base, MemoryKnown, NoneFrozenFrom, Pos, Reach, PendingPassed;
    BaseNumbers(m, h, id, p);
    MemoryMore(m, Pos(m), Reach(m, p));
  }

  lemma FailFreezing(m: Machine, h: nat, id: int, nextId: int, due: seq<Bucket>, p: nat)
    requires FreezingInv(m, h, id, nextId, due, p) && NoneFrozenFrom(m.table, m.store, p)
    ensures ReadyInv(m, h, id, p)
  {
    hide Base, MemoryKnown, NoneFrozenFrom, Pos, Reach, PendingPassed, IdAt, Passed;
    BaseNumbers(m, h, id, p);
    MemoryMore(m, Pos(m), Reach(m, p));
  }

  lemma CrashRunning(m: Machine, h: nat, id: int, p: nat)
    requires Base(m, h, id, p)
    ensures DownInv(m, h)
  {
    hide Sound, Kept, IdAt, Consumed;
    if m.store.cursor.None? {
      SoundMore(m.table, m.store, Pos(m), h, |m.table|, h);
    }
  }

  lemma CrashCold(m: Machine, h: nat)
    requires m.phase.ColdStart? && Inv(m, h)
    ensures DownInv(m, h)
  {
    hide Sound, Kept, Inv, ColdWrites, Consumed;
    var n := |m.phase.rows|;
    ColdFacts(m, h);
    if m.store.cursor.None? {
      SoundMore(m.table, m.store, n, h, |m.table|, h);
      KeptNothing(m.store);
    } else {
      ColdDone(m, h);
      ColdCursor(m, h);
      ColdKept(m, h);
    }
  }

  lemma ColdDone(m: Machine, h: nat)
    requires m.phase.ColdStart? && Inv(m, h) && m.store.cursor.Some?
    ensures m.phase.rows != [] && m.phase.done == |ColdWrites(m.phase.rows)|
  {
    hide Sound, Effect, ColdWrites;
  }

  lemma KeptNothing(s: Store)
    ensures Kept([], s)
  {
  }

  // ----- every action keeps the invariant -----

  lemma FromDownAndCold(m: Machine, a: Action, h: nat)
    requires Inv(m, h) && Enabled(m, a) && (a.Boot? || a.BackfillWrite? || a.BackfillEnd?)
    ensures Inv(Next(m, a), Higher(m, a, h))
  {
    hide Sound, Kept, DownInv, ReadyInv, ColdWrites, Effect, Consumed, Apply, LastKeysAt, Position;
    match a
    case Boot(limit, grace) =>
      var m0 := m.(limit := limit, grace := grace);
      DownSettings(m, h, limit, grace);
      if m.store.cursor.None? {
        BootCold(m0, h);
      } else {
        BootWarm(m0, h);
        ReadyConsumed(AfterBoot(m0), h, m.store.cursor.value.lastId, Pos(m0));
      }
    case BackfillWrite => BackfillWriteKeeps(m, h);
    case BackfillEnd =>
      if m.phase.rows == [] {
        BackfillEndEmpty(m, h);
        ReadyConsumed(AfterBackfill(m), h, 0, 0);
      } else {
        BackfillEndSome(m, h);
        ReadyConsumed(AfterBackfill(m), h, m.phase.rows[|m.phase.rows| - 1].id, |m.phase.rows|);
      }
  }

  lemma DownSettings(m: Machine, h: nat, limit: nat, grace: real)
    requires DownInv(m, h)
    ensures DownInv(m.(limit := limit, grace := grace), h) && h <= |m.table|
  {
    hide Sound, Kept, Position;
  }

  lemma ReadyConsumed(m: Machine, h: nat, id: int, p: nat)
    requires ReadyInv(m, h, id, p)
    ensures Consumed(m.table, id) == p
  {
    hide Sound, Kept, MemoryKnown, PendingPassed, NoneFrozenFrom;
  }

  lemma FromReady(m: Machine, a: Action, h: nat)
    requires Inv(m, h) && Enabled(m, a) && a.Fetch?
    ensures Inv(Next(m, a), Higher(m, a, h))
  {
    hide ReadyInv, FilingInv, FreezingInv, Consumed, FetchSince, Due, Reach;
    var id, p := m.phase.lastId, Base0(m);
    ReadyBound(m, h, id, p);
    if FetchSince(m.table, id, m.limit) == [] {
      FetchNone(m, h, id, p, a.now);
      FreezingHigher(Next(m, a), h, Higher(m, a, h), id, id, Next(m, a).phase.due, p);
    } else {
      FetchSome(m, h, Higher(m, a, h), id, p);
    }
  }

  lemma ReadyBound(m: Machine, h: nat, id: int, p: nat)
    requires ReadyInv(m, h, id, p)
    ensures h <= |m.table|
  {
    hide Sound, Kept, MemoryKnown, PendingPassed, NoneFrozenFrom;
  }

  lemma FreezingHigher(m: Machine, h: nat, h': nat, id: int, nextId: int, due: seq<Bucket>, p: nat)
    requires FreezingInv(m, h, id, nextId, due, p) && h <= h' <= |m.table|
    ensures FreezingInv(m, h', id, nextId, due, p)
  {
    hide Base, IdAt, MemoryKnown, PendingPassed, Passed;
    BaseHigher(m, h, h', id, p);
  }

  lemma FromFiling(m: Machine, a: Action, h: nat)
    requires Inv(m, h) && Enabled(m, a) && (a.NoteBoundary? || a.FileSample? || a.MoveCursor?)
    ensures Inv(Next(m, a), h)
  {
    hide FilingInv, RecomputingInv, Consumed, BucketOf, AfterBoundary, Apply;
    var id, batch, i, u, p := m.phase.lastId, m.phase.batch, m.phase.i, m.phase.u, Base0(m);
    var q := p + |batch|;
    match a
    case NoteBoundary(now) =>
      BucketUnit(batch[i], UNITS[u]);
      NoteBoundaryKeeps(m, h, id, batch, i, u, p, q, now + m.grace);
    case FileSample =>
      BucketUnit(batch[i], UNITS[u]);
      FileSampleKeeps(m, h, id, batch, i, u, p, q);
      var m1 := Filed(m, batch[i], UNITS[u]);
      FilingPhase(m1, Next(m, a).phase, h, id, batch, Next(m, a).phase.i, Next(m, a).phase.u, p, q);
    case MoveCursor =>
      MoveCursorKeeps(m, h, id, batch, p, q);
      var last := batch[|batch| - 1];
      var moved := m.(store := Apply(m.store, SetCursor(Cursor(last.id, last.at))));
      RecomputingPhase(moved, Next(m, a).phase, h, id, batch, p);
  }

  lemma BucketUnit(x: Sample, u: Unit)
    ensures BucketOf(x, u).unit == u
  {
    hide BucketKey;
  }

  lemma FilingPhase(m: Machine, phase: Phase, h: nat, id: int, batch: seq<Sample>, i: nat, u: nat, p: nat, q: nat)
    requires FilingInv(m, h, id, batch, i, u, p, q)
    ensures FilingInv(m.(phase := phase), h, id, batch, i, u, p, q)
  {
    hide Base, NoneFrozenFrom, MemoryKnown, Pos, Reach, PendingPassed, BucketOf, InLive, LastKeyIs;
    BaseNumbers(m, h, id, p);
    PhaseOnly(m, phase, h, id, p, q);
  }

  lemma RecomputingPhase(m: Machine, phase: Phase, h: nat, id: int, batch: seq<Sample>, p: nat)
    requires RecomputingInv(m, h, id, batch, p)
    ensures RecomputingInv(m.(phase := phase), h, id, batch, p)
  {
    hide Base, NoneFrozenFrom, MemoryKnown, Pos, Reach, PendingPassed;
    BaseNumbers(m, h, id, p);
    PhaseOnly(m, phase, h, id, p, Pos(m));
  }

  lemma FreezingPhase(m: Machine, phase: Phase, h: nat, id: int, nextId: int, due: seq<Bucket>, p: nat)
    requires FreezingInv(m, h, id, nextId, due, p)
    ensures FreezingInv(m.(phase := phase), h, id, nextId, due, p)
  {
    hide Base, NoneFrozenFrom, MemoryKnown, Pos, Reach, PendingPassed, IdAt, Passed;
    BaseNumbers(m, h, id, p);
    PhaseOnly(m, phase, h, id, p, Pos(m));
  }

  lemma ReadyPhase(m: Machine, phase: Phase, h: nat, id: int, p: nat)
    requires ReadyInv(m, h, id, p)
    ensures ReadyInv(m.(phase := phase), h, id, p)
  {
    hide Base, NoneFrozenFrom, MemoryKnown, Pos, Reach, PendingPassed;
    BaseNumbers(m, h, id, p);
    PhaseOnly(m, phase, h, id, p, Reach(m, p));
    PhaseOnly(m, phase, h, id, p, Pos(m));
  }

  lemma FromRecomputing(m: Machine, a: Action, h: nat)
    requires Inv(m, h) && Enabled(m, a) && (a.Recompute? || a.RecomputeEnd?)
    ensures Inv(Next(m, a), h)
  {
    hide FreezingInv, RecomputingInv, Consumed, Due, ScoreOrder, StatsOf, Apply;
    var id, batch, p := m.phase.lastId, m.phase.batch, Base0(m);
    match a
    case Recompute(b) => RecomputeKeeps(m, h, id, batch, p, b);
    case RecomputeEnd(now) => RecomputeEndKeeps(m, h, id, batch, p, now);
  }

  lemma FromFreezing(m: Machine, a: Action, h: nat)
    requires Inv(m, h) && Enabled(m, a) && (a.WriteFrozen? || a.DropDue? || a.TickEnd?)
    ensures Inv(Next(m, a), h)
  {
    hide FreezingInv, ReadyInv, Consumed, ScoreOrder, StatsOf, Apply, FrozenWrite, Dropped, InferTime;
    var id, nextId, due, p := m.phase.lastId, m.phase.nextId, m.phase.due, Base0(m);
    match a
    case WriteFrozen => WriteFrozenKeeps(m, h, id, nextId, due, p);
    case DropDue =>
      DropDueKeeps(m, h, id, nextId, due, p);
      FreezingPhase(m.(task := Next(m, a).task), Next(m, a).phase, h, id, nextId, due[1..], p);
    case TickEnd =>
      TickEndKeeps(m, h, id, nextId, due, p);
      ReadyPhase(m, Ready(nextId), h, nextId, Pos(m));
      ReadyConsumed(Next(m, a), h, nextId, Pos(m));
  }

  lemma FromFailure(m: Machine, dirty: set<Bucket>, h: nat)
    requires Inv(m, h) && Running(m.phase) && RetrySafe(m)
    ensures Inv(m.(phase := Ready(m.phase.lastId), task := m.task.(dirty := dirty)), h)
  {
    hide FilingInv, RecomputingInv, FreezingInv, ReadyInv, Consumed, NoneFrozenFrom;
    var id, p := m.phase.lastId, Base0(m);
    match m.phase {
      case Ready(_) =>
      case Filing(_, batch, i, u) => FailFiling(m, h, id, batch, i, u, p, p + |batch|);
      case Recomputing(_, batch) => FailRecomputing(m, h, id, batch, p);
      case Freezing(_, nextId, due) => FailFreezing(m, h, id, nextId, due, p);
    }
    ReadyPhase(m, Ready(id), h, id, p);
    ReadyDirty(m.(phase := Ready(id)), dirty, h, id, p);
  }

  lemma ReadyDirty(m: Machine, dirty: set<Bucket>, h: nat, id: int, p: nat)
    requires ReadyInv(m, h, id, p)
    ensures ReadyInv(m.(task := m.task.(dirty := dirty)), h, id, p)
  {
    hide Base, NoneFrozenFrom, MemoryKnown, Pos, Reach, PendingPassed;
    BaseNumbers(m, h, id, p);
    var m' := m.(task := m.task.(dirty := dirty));
    TaskOnly(m, m'.task, h, id, p);
    MachineParts(m, m', Reach(m, p));
    MachineParts(m, m', Pos(m));
  }

  lemma FromCrash(m: Machine, h: nat)
    requires Inv(m, h)
    ensures Inv(m.(phase := Down, task := NEW_TASK), h)
  {
    hide Sound, Kept, MemoryKnown, NoneFrozenFrom, PendingPassed, FiledSoFar, IdAt, Passed, ColdInv, Consumed;
    match m.phase {
      case Down =>
      case ColdStart(_, _) => CrashCold(m, h);
      case Ready(id) => CrashRunning(m, h, id, Base0(m));
      case Filing(id, _, _, _) => CrashRunning(m, h, id, Base0(m));
      case Recomputing(id, _) => CrashRunning(m, h, id, Base0(m));
      case Freezing(id, _, _) => CrashRunning(m, h, id, Base0(m));
    }
    DownTask(m, h);
  }

  lemma DownTask(m: Machine, h: nat)
    requires DownInv(m, h)
    ensures DownInv(m.(phase := Down, task := NEW_TASK), h)
  {
    hide Sound, Kept, Position;
  }

  /** Every action keeps the invariant; an exception does so if the retry is safe. */
  lemma StepKeeps(m: Machine, a: Action, h: nat)
    requires Inv(m, h) && Enabled(m, a) && (a.Fail? ==> RetrySafe(m))
    ensures Inv(Next(m, a), Higher(m, a, h))
  {
    hide Inv, RetrySafe, ColdWrites, ScoreOrder, Reach, FrozenWrite, AfterRecompute, AfterBoot, AfterBackfill,
         AfterFiling, AfterBoundary, Apply, FetchSince, Due, Dropped, Consumed, BucketOf, InferTime;
    match a
    case Arrive(x) => ArriveKeeps(m, x, h);
    case Boot(_, _) => FromDownAndCold(m, a, h);
    case BackfillWrite => FromDownAndCold(m, a, h);
    case BackfillEnd => FromDownAndCold(m, a, h);
    case Fetch(_) => FromReady(m, a, h);
    case NoteBoundary(_) => FromFiling(m, a, h);
    case FileSample => FromFiling(m, a, h);
    case MoveCursor => FromFiling(m, a, h);
    case Recompute(_) => FromRecomputing(m, a, h);
    case RecomputeEnd(_) => FromRecomputing(m, a, h);
    case WriteFrozen => FromFreezing(m, a, h);
    case DropDue => FromFreezing(m, a, h);
    case TickEnd => FromFreezing(m, a, h);
    case Fail(dirty) => FromFailure(m, dirty, h);
    case Crash => FromCrash(m, h);
  }

  // ----- whole runs -----

  /** A run whose exceptions are all retried safely. */
  ghost predicate SafeRun(m: Machine, actions: seq<Action>)
    decreases |actions|
  {
    actions == [] ||
    (Enabled(m, actions[0]) && (actions[0].Fail? ==> RetrySafe(m)) && SafeRun(Next(m, actions[0]), actions[1..]))
  }

  /** The furthest row any fetch or cold start of the run could write. */
  function HighWater(m: Machine, actions: seq<Action>, h: nat): nat
    requires IsRun(m, actions)
    decreases |actions|
  {
    if actions == [] then h else HighWater(Next(m, actions[0]), actions[1..], Higher(m, actions[0], h))
  }

  /** A station nobody has polled yet: an empty store, no process, any history. */
  ghost predicate Fresh(m: Machine) {
    Table(m.table) && m.store == EMPTY_STORE && m.phase.Down?
  }

  lemma FreshInv(m: Machine)
    requires Fresh(m)
    ensures Inv(m, 0)
  {
    hide Table;
    KeptNothing(m.store);
    assert m.table[..0] == [];
  }

  lemma {:induction false} RunKeeps(m: Machine, actions: seq<Action>, h: nat)
    requires Inv(m, h) && SafeRun(m, actions)
    ensures IsRun(m, actions) && Inv(Run(m, actions), HighWater(m, actions, h))
    decreases |actions|
  {
    hide Inv, Enabled, Next, RetrySafe, Higher;
    if actions != [] {
      StepKeeps(m, actions[0], h);
      RunKeeps(Next(m, actions[0]), actions[1..], Higher(m, actions[0], h));
    }
  }

  /** The cache agrees with the sample table: a frozen candle is the candle of all
      the bucket's samples and is indexed at the bucket's start; live and frozen
      buckets are apart; a live set holds samples of its bucket with their values;
      and every sample up to the cursor is in its live set unless its bucket is frozen. */
  ghost predicate Agrees(m: Machine) {
    var s := m.store;
    && (forall b :: b in s.frozen ==>
          && ValuesIn(m.table, b) != []
          && SameCandle(s.frozen[b].candle, StatsOf(ValuesIn(m.table, b)))
          && (forall x :: x in m.table && In(x, b) ==> b in s.index && s.index[b] == BucketScore(x.at, b.unit)))
    && Apart(s)
    && LiveSound(m.table, s)
    && Kept(m.table[..Position(m.table, s)], s)
  }

  /** Every bucket that is not frozen holds exactly its samples up to the cursor. */
  ghost predicate LiveExact(m: Machine) {
    var upTo := m.table[..Position(m.table, m.store)];
    forall b :: b !in m.store.frozen ==> Exact(upTo, b, LiveOf(m.store, b))
  }

  lemma SoundParts(m: Machine, h: nat) returns (n: nat)
    requires Inv(m, h)
    ensures n <= |m.table| && h <= |m.table| && Sound(m.table, m.store, n, h)
  {
    hide Sound, Kept, MemoryKnown, NoneFrozenFrom, PendingPassed, FiledSoFar, IdAt, Passed, ColdWrites, Effect,
        Consumed;
    match m.phase
    case Down => n := if m.store.cursor.Some? then Pos(m) else |m.table|;
    case ColdStart(rows, _) => n := |rows|;
    case _ => n := Pos(m);
  }

  lemma InvKept(m: Machine, h: nat)
    requires Inv(m, h)
    ensures Kept(m.table[..Position(m.table, m.store)], m.store)
  {
    hide Sound, Kept, MemoryKnown, NoneFrozenFrom, PendingPassed, FiledSoFar, IdAt, Passed, ColdWrites, Effect,
        Consumed;
    match m.phase
    case ColdStart(rows, _) =>
      KeptNothing(m.store);
      if m.store.cursor.Some? {
        ColdDone(m, h);
        ColdCursor(m, h);
        ColdKept(m, h);
        ColdFacts(m, h);
      } else {
        assert m.table[..0] == [];
      }
    case _ =>
  }

  lemma FrozenAgrees(m: Machine, n: nat, h: nat, b: Bucket)
    requires n <= |m.table| && h <= |m.table| && Sound(m.table, m.store, n, h) && b in m.store.frozen
    ensures ValuesIn(m.table, b) != []
    ensures SameCandle(m.store.frozen[b].candle, StatsOf(ValuesIn(m.table, b)))
    ensures forall x :: x in m.table && In(x, b) ==> b in m.store.index && m.store.index[b] == BucketScore(x.at, b.unit)
  {
    hide Table, LiveSound, Apart, CursorRight, Passed, SameCandle, StatsOf, ValuesIn, BucketScore, FreezeScore,
        InferTime, BucketKey;
    assert FrozenRight(m.table[..n], m.store, b);
    PassedValues(m.table, n, b);
    forall x | x in m.table && In(x, b) ensures m.store.index[b] == BucketScore(x.at, b.unit) {
      var i :| 0 <= i < |m.table| && m.table[i] == x;
      SampledBucket(m.table, i, b.unit);
    }
  }

  lemma InvAgrees(m: Machine, h: nat)
    requires Inv(m, h)
    ensures Agrees(m)
  {
    hide Inv, Table, LiveSound, FrozenSound, CursorRight, Kept, SameCandle, StatsOf, ValuesIn, BucketScore, In,
        Position;
    var n := SoundParts(m, h);
    InvKept(m, h);
    LiveMore(m.table, h, |m.table|, m.store);
    assert m.table[..|m.table|] == m.table;
    forall b | b in m.store.frozen
      ensures ValuesIn(m.table, b) != []
      ensures SameCandle(m.store.frozen[b].candle, StatsOf(ValuesIn(m.table, b)))
      ensures forall x :: x in m.table && In(x, b) ==>
        b in m.store.index && m.store.index[b] == BucketScore(x.at, b.unit)
    {
      FrozenAgrees(m, n, h, b);
    }
  }

  /** The cache refines recomputation: after any run from an empty store - arrivals,
      cold and warm starts, ticks, exceptions before a freeze, crashes at any Redis
      command, any clock readings - it agrees with the sample table. */
  lemma CacheRefinesTable(m: Machine, actions: seq<Action>)
    requires Fresh(m) && SafeRun(m, actions)
    ensures IsRun(m, actions) && Agrees(Run(m, actions))
  {
    hide Inv, Agrees, Fresh;
    FreshInv(m);
    RunKeeps(m, actions, 0);
    InvAgrees(Run(m, actions), HighWater(m, actions, 0));
  }

  /** Live sets are exact whenever the cursor has caught up with everything the run
      ever began to write: always, unless a crash or an exception cut a tick short. */
  lemma ExactWhenCaughtUp(m: Machine, actions: seq<Action>)
    requires Fresh(m) && SafeRun(m, actions)
    ensures IsRun(m, actions)
    ensures var end := Run(m, actions);
            HighWater(m, actions, 0) <= Position(end.table, end.store) ==> LiveExact(end)
  {
    hide Inv, Fresh, LiveExact;
    FreshInv(m);
    RunKeeps(m, actions, 0);
    var end, h := Run(m, actions), HighWater(m, actions, 0);
    if h <= Position(end.table, end.store) {
      CaughtUpExact(end, h);
    }
  }

  lemma CaughtUpExact(m: Machine, h: nat)
    requires Inv(m, h) && h <= Position(m.table, m.store)
    ensures LiveExact(m)
  {
    hide Inv, Table, FrozenSound, CursorRight, Position, In, BucketOf, HasSample;
    var n := SoundParts(m, h);
    InvKept(m, h);
    var k := Position(m.table, m.store);
    forall b | b !in m.store.frozen ensures Exact(m.table[..k], b, LiveOf(m.store, b)) {
      ExactBucket(m.table, m.store, k, h, b);
    }
  }

  lemma ExactBucket(rows: seq<Sample>, s: Store, k: nat, h: nat, b: Bucket)
    requires h <= k <= |rows| && Table(rows) && LiveSound(rows[..h], s) && Kept(rows[..k], s) && b !in s.frozen
    ensures Exact(rows[..k], b, LiveOf(s, b))
  {
    hide Table, BucketKey, HasSample;
    forall i | 0 <= i < k && In(rows[..k][i], b)
      ensures rows[..k][i].id in LiveOf(s, b) && LiveOf(s, b)[rows[..k][i].id] == rows[..k][i].value
    {
      assert Held(s, rows[..k][i], b.unit);
      assert rows[..k][i] == rows[i];
      LiveValue(rows, s, h, b, i);
    }
    forall id | id in LiveOf(s, b) ensures exists i :: 0 <= i < k && In(rows[..k][i], b) && rows[..k][i].id == id {
      LiveSample(rows, s, h, b, id);
      var i :| 0 <= i < h && In(rows[i], b) && rows[i].id == id;
      assert rows[..k][i] == rows[i];
    }
  }
}
