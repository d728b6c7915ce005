/** The cold start as a program: it buffers the paged samples per bucket and writes
    them to Redis, unit by unit. */
module ColdStart {
  import opened Wrappers
  import opened Buckets
  import opened BoxStats
  import opened Samples
  import opened CandleStore
  import opened Backfill

  /** The sample table as successive reads see it. Rows are only ever appended. */
  class Database {
    const history: nat -> seq<Sample>
    ghost const most: nat
    var seen: nat

    ghost predicate Valid() {
      forall k: nat :: Table(history(k)) && history(k) <= history(k + 1) && |history(k)| <= most
    }

    ghost function Rows(): seq<Sample>
      reads this
    {
      history(seen)
    }

    constructor (history: nat -> seq<Sample>, ghost most: nat)
      requires forall k: nat :: Table(history(k)) && history(k) <= history(k + 1) && |history(k)| <= most
      ensures Valid() && Rows() == history(0)
    {
      this.history, this.most, seen := history, most, 0;
    }

    lemma {:induction false} Grows(i: nat, j: nat)
      requires Valid() && i <= j
      ensures Table(history(j)) && history(i) <= history(j)
      decreases j - i
    {
      hide Table;
      assert Table(history(j)) && Table(history(i));
      if i < j {
        Grows(i, j - 1);
        assert history(j - 1) <= history(j - 1 + 1);
      }
    }

    /** A query sees the table as it is then, or raises. */
    method FetchSamplesSince(id: int, limit: nat) returns (ok: bool, batch: seq<Sample>)
      requires Valid()
      modifies this
      ensures Table(Rows()) && old(Rows()) <= Rows()
      ensures ok ==> batch == FetchSince(Rows(), id, limit)
    {
      Grows(seen, seen + 1);
      seen := seen + 1;
      ok := *;
      batch := FetchSince(history(seen), id, limit);
    }

    /** Page through everything, one query a page. */
    method AllSamples(chunk: nat) returns (ok: bool, rows: seq<Sample>)
      requires Valid() && chunk > 0
      modifies this
      ensures Table(Rows()) && old(Rows()) <= Rows()
      ensures ok ==> rows == Rows()
    {
      var start := seen;
      var views: nat -> seq<Sample> := (k: nat) => history(start + k);
      forall k: nat ensures Ordered(views(k)) && views(k) <= views(k + 1) && |views(k)| <= most {
        assert Table(history(start + k)) && history(start + k) <= history(start + k + 1);
      }
      var pages;
      rows, pages := IterAllSamples(views, chunk, most);
      Grows(start, start + pages - 1);
      seen := start + pages - 1;
      ok := *;
    }
  }

  // ----- the buffers -----

  /** The buffer of one unit holds each bucket's samples among these rows. */
  ghost predicate Buffered(buffer: map<string, seq<Sample>>, rows: seq<Sample>, u: Unit) {
    && buffer.Keys == KeysOf(rows, u)
    && forall k :: k in buffer ==> buffer[k] == Items(rows, Bucket(u, k))
  }

  lemma {:induction false} ItemsMore(rows: seq<Sample>, x: Sample, b: Bucket)
    ensures Items(rows + [x], b) == Items(rows, b) + if In(x, b) then [x] else []
  {
    hide In;
    if rows == [] {
      assert rows + [x] == [x];
    } else {
      assert (rows + [x])[1..] == rows[1..] + [x];
      ItemsMore(rows[1..], x, b);
    }
  }

  lemma {:induction false} ItemsNone(rows: seq<Sample>, u: Unit, k: string)
    requires k !in KeysOf(rows, u)
    ensures Items(rows, Bucket(u, k)) == []
  {
    hide BucketKey;
    if rows != [] {
      assert rows[0] in rows;
      forall s | s in rows[1..] ensures BucketOf(s, u).key != k { assert s in rows; }
      ItemsNone(rows[1..], u, k);
    }
  }

  /** Appending a sample to its bucket's list keeps the buffer right. */
  lemma BufferMore(buffer: map<string, seq<Sample>>, rows: seq<Sample>, x: Sample, u: Unit)
    requires Buffered(buffer, rows, u)
    ensures var k := BucketOf(x, u).key;
            Buffered(buffer[k := (if k in buffer then buffer[k] else []) + [x]], rows + [x], u)
  {
    hide BucketKey, Items;
    var k := BucketOf(x, u).key;
    var buffer' := buffer[k := (if k in buffer then buffer[k] else []) + [x]];
    assert KeysOf(rows + [x], u) == KeysOf(rows, u) + {k};
    forall l | l in buffer' ensures buffer'[l] == Items(rows + [x], Bucket(u, l)) {
      ItemsMore(rows, x, Bucket(u, l));
      if l == k && k !in buffer { ItemsNone(rows, u, k); }
    }
  }

  lemma {:induction false} ItemValues(rows: seq<Sample>, b: Bucket)
    ensures Values(Items(rows, b)) == ValuesIn(rows, b)
  {
    hide In;
    if rows != [] {
      ItemValues(rows[1..], b);
      if In(rows[0], b) {
        assert Items(rows, b) == [rows[0]] + Items(rows[1..], b);
        assert Items(rows, b)[1..] == Items(rows[1..], b);
      } else {
        assert Items(rows, b) == Items(rows[1..], b);
        assert ValuesIn(rows, b) == ValuesIn(rows[1..], b);
      }
    }
  }

  method FillBuffers(rows: seq<Sample>) returns (buffers: map<Unit, map<string, seq<Sample>>>)
    ensures forall u :: u in buffers && Buffered(buffers[u], rows, u)
  {
    hide Buffered, BucketKey;
    buffers := map u | u in UNITS :: map[];
    forall u: Unit ensures u in buffers && Buffered(buffers[u], [], u) {
      AllUnits(u);
      EmptyBuffer(u);
    }
    for i := 0 to |rows|
      invariant forall u :: u in buffers && Buffered(buffers[u], rows[..i], u)
    {
      assert rows[..i + 1] == rows[..i] + [rows[i]];
      for k := 0 to |UNITS|
        invariant forall u :: u in buffers && Buffered(buffers[u], rows[..if u in UNITS[..k] then i + 1 else i], u)
      {
        var u := UNITS[k];
        var key, buffer := BucketOf(rows[i], u).key, buffers[UNITS[k]];
        UnitsDistinct(k);
        BufferMore(buffer, rows[..i], rows[i], u);
        buffers := buffers[u := buffer[key := (if key in buffer then buffer[key] else []) + [rows[i]]]];
      }
      forall u: Unit ensures u in UNITS[..|UNITS|] { AllUnits(u); }
    }
    assert rows[..|rows|] == rows;
  }

  lemma AllUnits(u: Unit)
    ensures u in UNITS && u in UNITS[..|UNITS|]
  {
    assert UNITS[0] == Hour && UNITS[1] == Unit.Day && UNITS[2] == Week && UNITS[3] == Month;
  }

  lemma UnitsDistinct(k: nat)
    requires k < |UNITS|
    ensures UNITS[k] !in UNITS[..k] && forall u :: u in UNITS[..k + 1] <==> u in UNITS[..k] || u == UNITS[k]
  {
    assert UNITS[..k + 1] == UNITS[..k] + [UNITS[k]];
  }

  lemma EmptyBuffer(u: Unit)
    ensures Buffered(map[], [], u)
  {
  }

  // ----- the writes -----

  lemma {:induction false} ApplyConcat(s: Store, a: seq<Write>, b: seq<Write>)
    ensures ApplyAll(s, a + b) == ApplyAll(ApplyAll(s, a), b)
    decreases |a|
  {
    hide Apply;
    if a == [] {
      assert a + b == b;
    } else {
      assert (a + b)[1..] == a[1..] + b;
      ApplyConcat(Apply(s, a[0]), a[1..], b);
    }
  }

  /** One more write of a list. */
  lemma ApplyNext(s: Store, ws: seq<Write>, k: nat)
    requires k < |ws|
    ensures ApplyAll(s, ws[..k + 1]) == Apply(ApplyAll(s, ws[..k]), ws[k])
  {
    hide Apply;
    assert ws[..k + 1] == ws[..k] + [ws[k]];
    ApplyConcat(s, ws[..k], [ws[k]]);
    assert [ws[k]][1..] == [];
  }

  /** The first `done` writes have taken effect, and all of them if nothing was raised. */
  ghost predicate Written(before: Store, ws: seq<Write>, done: nat, after: Store, ok: bool) {
    done <= |ws| && after == ApplyAll(before, ws[..done]) && (ok ==> done == |ws|)
  }

  /** One command more: it took effect or not; if it returned normally it did. */
  lemma OneMore(before: Store, ws: seq<Write>, done: nat, mid: Store, after: Store, ok: bool) returns (done': nat)
    requires done < |ws| && mid == ApplyAll(before, ws[..done]) && Outcome(mid, ws[done], after, ok)
    ensures done <= done' <= done + 1 && after == ApplyAll(before, ws[..done']) && (ok ==> done' == done + 1)
  {
    hide Apply;
    ApplyNext(before, ws, done);
    done' := if after == Apply(mid, ws[done]) then done + 1 else done;
  }

  /** Where the parts of a unit's writes lie. */
  lemma UnitLayout(rows: seq<Sample>, u: Unit)
    requires rows != []
    ensures var ws, early, live := UnitWrites(rows, u), OldKeys(rows, u), LiveBucket(rows, u);
            var items := Items(rows, live);
            && |ws| == |early| + |items| + 1
            && (forall j :: 0 <= j < |early| ==>
                  && Sampled(rows, Bucket(u, early[j]))
                  && ws[j] == FreezeWrite(rows, Bucket(u, early[j]), rows[|rows| - 1].at))
            && (forall j :: 0 <= j < |items| ==> ws[|early| + j] == AddLiveRaw(live, items[j].id, items[j].value))
            && Sampled(rows, live) && ws[|early| + |items|] == StatsWrite(rows, live, rows[|rows| - 1].at)
  {
    hide OldKeys, LiveBucket, Items, Sampled, KeysOf;
    KeysAreSampled(rows, u);
    hide FreezeWrite, StatsWrite;
  }

  lemma SortedKeys(rows: seq<Sample>, u: Unit)
    requires rows != []
    ensures var sorted := SortKeys(KeysOf(rows, u));
            && sorted != [] && OldKeys(rows, u) == sorted[..|sorted| - 1]
            && LiveBucket(rows, u) == Bucket(u, sorted[|sorted| - 1])
  {
    hide SortKeys, KeysOf;
    SomeKey(rows, u);
  }

  /** The writes of one unit. */
  method WriteUnit(redis: RedisClient, u: Unit, buffer: map<string, seq<Sample>>, at: Time, ghost rows: seq<Sample>)
    returns (ok: bool, ghost done: nat)
    requires rows != [] && at == rows[|rows| - 1].at && Buffered(buffer, rows, u)
    modifies redis
    ensures Written(old(redis.View()), UnitWrites(rows, u), done, redis.View(), ok)
  {
    hide UnitWrites, OldKeys, LiveBucket, Apply, SortKeys, Outcome, FreezeScore, InferTime, ValuesIn, KeysOf, Items,
        StatsOf;
    ghost var before, ws := redis.View(), UnitWrites(rows, u);
    UnitLayout(rows, u);
    SortedKeys(rows, u);
    var sorted := SortKeys(buffer.Keys);
    var live := Bucket(u, sorted[|sorted| - 1]);
    done := 0;
    assert ws[..0] == [];
    for k := 0 to |sorted| - 1
      invariant done == k && redis.View() == ApplyAll(before, ws[..done])
    {
      var b := Bucket(u, sorted[k]);
      assert OldKeys(rows, u)[k] == sorted[k];
      assert sorted[k] in buffer;
      ItemValues(rows, b);
      ghost var mid := redis.View();
      ok := redis.Freeze(b, Stored(StatsOf(Values(buffer[sorted[k]])), Some(at)), FreezeScore(b));
      done := OneMore(before, ws, done, mid, redis.View(), ok);
      if !ok { return; }
    }
    assert live.key in sorted;
    var items := buffer[live.key];
    for k := 0 to |items|
      invariant done == |sorted| - 1 + k && redis.View() == ApplyAll(before, ws[..done])
    {
      ghost var mid := redis.View();
      ok := redis.AddLive(live, items[k].id, items[k].value);
      done := OneMore(before, ws, done, mid, redis.View(), ok);
      if !ok { return; }
    }
    ItemValues(rows, live);
    ghost var mid := redis.View();
    ok := redis.SetStats(live, Stored(StatsOf(Values(items)), Some(at)));
    done := OneMore(before, ws, done, mid, redis.View(), ok);
  }

  /** The writes up to the `k`-th unit. */
  function WritesBefore(rows: seq<Sample>, k: nat): seq<Write>
    requires rows != [] && k <= |UNITS|
  {
    if k == 0 then [] else WritesBefore(rows, k - 1) + UnitWrites(rows, UNITS[k - 1])
  }

  lemma WritesInOrder(rows: seq<Sample>)
    requires rows != []
    ensures var last := rows[|rows| - 1];
            ColdWrites(rows) == WritesBefore(rows, |UNITS|) + [SetCursor(Cursor(last.id, last.at))]
  {
    hide UnitWrites;
    assert WritesBefore(rows, 0) == [];
    assert WritesBefore(rows, 1) == UnitWrites(rows, Hour);
    assert WritesBefore(rows, 2) == WritesBefore(rows, 1) + UnitWrites(rows, Unit.Day);
    assert WritesBefore(rows, 3) == WritesBefore(rows, 2) + UnitWrites(rows, Week);
    assert WritesBefore(rows, 4) == WritesBefore(rows, 3) + UnitWrites(rows, Month);
  }

  lemma {:induction false} BeforeIsPrefix(rows: seq<Sample>, k: nat)
    requires rows != [] && k <= |UNITS|
    ensures WritesBefore(rows, k) <= WritesBefore(rows, |UNITS|)
    decreases |UNITS| - k
  {
    hide UnitWrites;
    if k < |UNITS| { BeforeIsPrefix(rows, k + 1); }
  }

  /** A unit's writes, done after all earlier units', are the next ones of the cold start. */
  lemma UnitDone(before: Store, mid: Store, after: Store, rows: seq<Sample>, k: nat, done: nat, ok: bool)
    requires rows != [] && k < |UNITS| && mid == ApplyAll(before, WritesBefore(rows, k))
    requires Written(mid, UnitWrites(rows, UNITS[k]), done, after, ok)
    ensures var n := |WritesBefore(rows, k)| + done;
            n < |ColdWrites(rows)| && after == ApplyAll(before, ColdWrites(rows)[..n])
    ensures ok ==> after == ApplyAll(before, WritesBefore(rows, k + 1))
  {
    hide UnitWrites, Apply, ColdWrites, WritesBefore, ApplyAll;
    var a, b := WritesBefore(rows, k), UnitWrites(rows, UNITS[k]);
    BeforeNext(rows, k);
    WritesInOrder(rows);
    BeforeIsPrefix(rows, k + 1);
    ApplyConcat(before, a, b[..done]);
    assert ColdWrites(rows)[..|a| + done] == a + b[..done];
    assert b[..|b|] == b;
  }

  lemma BeforeNext(rows: seq<Sample>, k: nat)
    requires rows != [] && k < |UNITS|
    ensures WritesBefore(rows, k + 1) == WritesBefore(rows, k) + UnitWrites(rows, UNITS[k])
  {
  }

  /** Rebuild a station's cache from the sample table. Without samples nothing is
      written; otherwise the writes are made in order, the cursor last. */
  method ColdStart(db: Database, redis: RedisClient, chunk: nat)
    returns (ok: bool, lastId: int, lastSampledAt: Option<Time>, ghost done: nat)
    requires db.Valid() && chunk > 0
    modifies db, redis
    ensures Table(db.Rows()) && old(db.Rows()) <= db.Rows()
    ensures db.Rows() == [] ==> done == 0 && redis.View() == old(redis.View())
    ensures db.Rows() == [] && ok ==> lastId == 0 && lastSampledAt == None
    ensures db.Rows() != [] ==> Written(old(redis.View()), ColdWrites(db.Rows()), done, redis.View(), ok)
    ensures db.Rows() != [] && ok ==>
      var last := db.Rows()[|db.Rows()| - 1]; lastId == last.id && lastSampledAt == Some(last.at)
  {
    hide UnitWrites, ColdWrites, Apply, WritesBefore, Table, Outcome;
    var rows;
    ok, rows := db.AllSamples(chunk);
    lastId, lastSampledAt, done := 0, None, 0;
    ghost var before := redis.View();
    if !ok { return; }
    if rows == [] { return; }
    var last := rows[|rows| - 1];
    lastId, lastSampledAt := last.id, Some(last.at);
    var buffers := FillBuffers(rows);
    NothingBefore(before, rows);
    for k := 0 to |UNITS|
      invariant db.Rows() == rows && redis.View() == ApplyAll(before, WritesBefore(rows, k))
    {
      ghost var mid := redis.View();
      ghost var part;
      ok, part := WriteUnit(redis, UNITS[k], buffers[UNITS[k]], last.at, rows);
      UnitDone(before, mid, redis.View(), rows, k, part, ok);
      if !ok {
        done := |WritesBefore(rows, k)| + part;
        return;
      }
    }
    WritesInOrder(rows);
    done := |WritesBefore(rows, |UNITS|)|;
    assert ColdWrites(rows)[..done] == WritesBefore(rows, |UNITS|);
    ghost var mid := redis.View();
    ok := redis.SetCursorTo(lastId, last.at);
    done := OneMore(before, ColdWrites(rows), done, mid, redis.View(), ok);
  }

  lemma NothingBefore(s: Store, rows: seq<Sample>)
    requires rows != []
    ensures ApplyAll(s, WritesBefore(rows, 0)) == s
  {
  }
}
