/** What every action of the station machine keeps. */
module CacheInvariant {
  import opened Wrappers
  import opened Buckets
  import opened BoxStats
  import opened Samples
  import opened CandleStore
  import opened Freezer
  import opened Backfill
  import opened StationMachine

  // ----- buckets in the table -----

  /** The bucket has a sample, and a later sample lies outside it. */
  ghost predicate Passed(rows: seq<Sample>, b: Bucket) {
    exists i, j :: 0 <= i < j < |rows| && In(rows[i], b) && !In(rows[j], b)
  }

  ghost predicate LastBucket(rows: seq<Sample>, b: Bucket) {
    rows != [] && In(rows[|rows| - 1], b)
  }

  ghost predicate HasSample(rows: seq<Sample>, b: Bucket, id: int, value: real) {
    exists i :: 0 <= i < |rows| && In(rows[i], b) && rows[i].id == id && rows[i].value == value
  }

  /** No later sample ever falls into a passed bucket. */
  lemma PassedForGood(rows: seq<Sample>, n: nat, b: Bucket, k: int)
    requires Table(rows) && n <= k < |rows| && Passed(rows[..n], b)
    ensures !In(rows[k], b)
  {
    hide BucketKey, Table;
    var i, j :| 0 <= i < j < n && In(rows[..n][i], b) && !In(rows[..n][j], b);
    if In(rows[k], b) {
      Consecutive(rows, i, j, k, b.unit);
    }
  }

  lemma PassedNotLast(rows: seq<Sample>, b: Bucket)
    requires Table(rows) && Passed(rows, b)
    ensures !LastBucket(rows, b)
  {
    hide BucketKey, Table;
    if LastBucket(rows, b) {
      var i, j :| 0 <= i < j < |rows| && In(rows[i], b) && !In(rows[j], b);
      Consecutive(rows, i, j, |rows| - 1, b.unit);
    }
  }

  lemma PassedOrLast(rows: seq<Sample>, i: int, u: Unit)
    requires 0 <= i < |rows|
    ensures var b := BucketOf(rows[i], u); In(rows[i], b) && (Passed(rows, b) || LastBucket(rows, b))
  {
    hide BucketKey;
  }

  lemma PassedMore(rows: seq<Sample>, n: nat, m: nat, b: Bucket)
    requires n <= m <= |rows| && Passed(rows[..n], b)
    ensures Passed(rows[..m], b)
  {
    hide In;
    var i, j :| 0 <= i < j < n && In(rows[..n][i], b) && !In(rows[..n][j], b);
    assert rows[..m][i] == rows[..n][i] && rows[..m][j] == rows[..n][j];
  }

  /** A passed bucket's values are settled. */
  lemma PassedValues(rows: seq<Sample>, n: nat, b: Bucket)
    requires Table(rows) && n <= |rows| && Passed(rows[..n], b)
    ensures ValuesIn(rows, b) == ValuesIn(rows[..n], b)
  {
    hide In, Table;
    forall k | n <= k < |rows| ensures !In(rows[k], b) { PassedForGood(rows, n, b, k); }
    var rest := rows[n..];
    assert forall k :: 0 <= k < |rest| ==> rest[k] == rows[n + k];
    ValuesNone(rest, b);
    ValuesConcat(rows[..n], rest, b);
    assert rows == rows[..n] + rest;
  }

  // ----- the store against the table -----

  ghost predicate Known(rows: seq<Sample>, b: Bucket) {
    exists i :: 0 <= i < |rows| && In(rows[i], b)
  }

  /** Every live value is a sample of its bucket, and live candles are of buckets
      that have samples. */
  ghost predicate LiveSound(rows: seq<Sample>, s: Store) {
    && (forall b :: b in s.live ==>
          s.live[b] != map[] && forall id :: id in s.live[b] ==> HasSample(rows, b, id, s.live[b][id]))
    && (forall b :: b in s.liveStats ==> Known(rows, b))
  }

  /** The frozen candle is the candle of all the bucket's samples, and is indexed. */
  ghost predicate FrozenRight(rows: seq<Sample>, s: Store, b: Bucket)
    requires b in s.frozen
  {
    && Sampled(rows, b)
    && b in s.index && s.index[b] == FreezeScore(b)
    && SameCandle(s.frozen[b].candle, StatsOf(ValuesIn(rows, b)))
  }

  ghost predicate FrozenSound(rows: seq<Sample>, s: Store) {
    forall b :: b in s.frozen ==> Passed(rows, b) && FrozenRight(rows, s, b)
  }

  /** No bucket is both live and frozen. */
  ghost predicate Apart(s: Store) {
    s.live.Keys !! s.frozen.Keys && s.liveStats.Keys !! s.frozen.Keys && s.index.Keys == s.frozen.Keys
  }

  ghost predicate Held(s: Store, x: Sample, u: Unit) {
    var b := BucketOf(x, u);
    b in s.frozen || x.id in LiveOf(s, b)
  }

  /** Every sample is accounted for in all four units. */
  ghost predicate Kept(rows: seq<Sample>, s: Store) {
    forall i, u :: 0 <= i < |rows| ==> Held(s, rows[i], u)
  }

  /** How many samples the cursor has passed. */
  function Position(rows: seq<Sample>, s: Store): (n: nat)
    ensures n <= |rows|
  {
    match s.cursor
    case None => 0
    case Some(c) => Consumed(rows, c.lastId)
  }

  ghost predicate CursorRight(rows: seq<Sample>, s: Store) {
    s.cursor.Some? ==>
      var n := Position(rows, s);
      n > 0 && s.cursor.value == Cursor(rows[n - 1].id, rows[n - 1].at)
  }

  /** The part that holds at every moment, whatever the process is doing. Frozen
      buckets have been passed within the first `n` rows, and only samples among the
      first `h` rows have been added to live sets. */
  ghost predicate Sound(rows: seq<Sample>, s: Store, n: nat, h: nat)
    requires n <= |rows| && h <= |rows|
  {
    && Table(rows) && LiveSound(rows[..h], s) && FrozenSound(rows[..n], s)
    && Apart(s) && CursorRight(rows, s)
  }

  // ----- a cold start's writes -----

  /** A write a cold start over `rows` may make. */
  ghost predicate Proper(rows: seq<Sample>, w: Write)
    requires rows != []
  {
    match w
    case FreezeBucket(b, _, _) =>
      Passed(rows, b) && Sampled(rows, b) && w == FreezeWrite(rows, b, rows[|rows| - 1].at)
    case AddLiveRaw(b, id, value) => LastBucket(rows, b) && HasSample(rows, b, id, value)
    case SetLiveStats(b, stats) =>
      && LastBucket(rows, b) && Sampled(rows, b)
      && stats == Stored(StatsOf(ValuesIn(rows, b)), Some(rows[|rows| - 1].at))
    case SetCursor(c) => c == Cursor(rows[|rows| - 1].id, rows[|rows| - 1].at)
  }

  /** The write accounts for this sample in this unit. */
  ghost predicate Accounts(w: Write, x: Sample, u: Unit) {
    var b := BucketOf(x, u);
    (w.FreezeBucket? && w.bucket == b) || w == AddLiveRaw(b, x.id, x.value)
  }

  lemma ItemsAreSamples(rows: seq<Sample>, b: Bucket)
    ensures forall x :: x in Items(rows, b) <==> x in rows && In(x, b)
  {
    hide In;
    if rows != [] {
      ItemsAreSamples(rows[1..], b);
    }
  }

  /** A cold start keeps exactly the last sample's bucket live. */
  lemma LiveIsLast(rows: seq<Sample>, u: Unit)
    requires Table(rows) && rows != []
    ensures LiveBucket(rows, u) == BucketOf(rows[|rows| - 1], u)
    ensures LastBucket(rows, LiveBucket(rows, u))
    ensures LiveBucket(rows, u).key !in OldKeys(rows, u)
    ensures forall k :: k in KeysOf(rows, u) ==> k in OldKeys(rows, u) || k == LiveBucket(rows, u).key
  {
    hide BucketKey, LexLess, Table;
    var last := |rows| - 1;
    var top := BucketOf(rows[last], u).key;
    assert rows[last] in rows;
    forall k | k in KeysOf(rows, u) && k != top ensures LexLess(k, top) {
      var i := RowOfKey(rows, u, k);
      KeysInTableOrder(rows, i, last, u);
      LexTotal(k, top);
    }
    LastKey(KeysOf(rows, u), top);
    var sorted := SortKeys(KeysOf(rows, u));
    assert sorted == sorted[..|sorted| - 1] + [sorted[|sorted| - 1]];
  }

  lemma RowOfKey(rows: seq<Sample>, u: Unit, k: string) returns (i: int)
    requires k in KeysOf(rows, u)
    ensures 0 <= i < |rows| && BucketOf(rows[i], u) == Bucket(u, k)
  {
    hide BucketKey;
    var s :| s in rows && BucketOf(s, u).key == k;
    i :| 0 <= i < |rows| && rows[i] == s;
  }

  /** Buckets a cold start freezes have been passed. */
  lemma OldIsPassed(rows: seq<Sample>, u: Unit, k: string)
    requires Table(rows) && rows != [] && k in OldKeys(rows, u)
    ensures Passed(rows, Bucket(u, k))
  {
    hide BucketKey, OldKeys, LiveBucket, Table;
    LiveIsLast(rows, u);
    var i := RowOfKey(rows, u, k);
    PassedOrLast(rows, i, u);
  }

  lemma UnitProper(rows: seq<Sample>, u: Unit, w: Write)
    requires Table(rows) && rows != [] && w in UnitWrites(rows, u)
    ensures Proper(rows, w) && !w.SetCursor?
  {
    hide BucketKey, OldKeys, LiveBucket, Table, ValuesIn, StatsOf, InferTime, FreezeScore, LastBucket, Passed, In;
    LiveIsLast(rows, u);
    KeysAreSampled(rows, u);
    var last, live := |rows| - 1, LiveBucket(rows, u);
    var freezes := FreezeWrites(rows, u, OldKeys(rows, u), rows[last].at);
    var lives := LiveWrites(Items(rows, live), live);
    if w in freezes {
      var j :| 0 <= j < |freezes| && w == freezes[j];
      OldIsPassed(rows, u, OldKeys(rows, u)[j]);
    } else if w in lives {
      var j :| 0 <= j < |lives| && w == lives[j];
      ItemIsSample(rows, live, Items(rows, live)[j]);
    }
  }

  lemma ItemIsSample(rows: seq<Sample>, b: Bucket, x: Sample)
    requires x in Items(rows, b)
    ensures HasSample(rows, b, x.id, x.value)
  {
    hide In;
    ItemsAreSamples(rows, b);
    var i :| 0 <= i < |rows| && rows[i] == x;
  }

  lemma UnitAccounts(rows: seq<Sample>, u: Unit, i: int)
    requires Table(rows) && 0 <= i < |rows|
    ensures exists w :: w in UnitWrites(rows, u) && Accounts(w, rows[i], u)
  {
    hide BucketKey, OldKeys, LiveBucket, Table, ValuesIn, StatsOf, InferTime, FreezeScore, In;
    LiveIsLast(rows, u);
    KeysAreSampled(rows, u);
    var last, live := |rows| - 1, LiveBucket(rows, u);
    var b := BucketOf(rows[i], u);
    assert rows[i] in rows && b.key in KeysOf(rows, u);
    var freezes := FreezeWrites(rows, u, OldKeys(rows, u), rows[last].at);
    var lives := LiveWrites(Items(rows, live), live);
    if b.key in OldKeys(rows, u) {
      var j :| 0 <= j < |OldKeys(rows, u)| && OldKeys(rows, u)[j] == b.key;
      assert freezes[j] in UnitWrites(rows, u) && Accounts(freezes[j], rows[i], u);
    } else {
      assert b == live;
      PassedOrLast(rows, i, u);
      ItemsAreSamples(rows, live);
      var j :| 0 <= j < |Items(rows, live)| && Items(rows, live)[j] == rows[i];
      assert lives[j] in UnitWrites(rows, u) && Accounts(lives[j], rows[i], u);
    }
  }

  /** A cold start makes proper writes only, accounts for every sample in every
      unit, and moves the cursor last. */
  lemma ColdProper(rows: seq<Sample>, j: int)
    requires Table(rows) && rows != [] && 0 <= j < |ColdWrites(rows)|
    ensures Proper(rows, ColdWrites(rows)[j])
    ensures ColdWrites(rows)[j].SetCursor? <==> j == |ColdWrites(rows)| - 1
  {
    hide UnitWrites, Proper;
    var w := ColdWrites(rows)[j];
    if j < |ColdWrites(rows)| - 1 {
      var u := UnitOfWrite(rows, j);
      UnitProper(rows, u, w);
    } else {
      assert Proper(rows, w) by { LastIsProper(rows); }
    }
  }

  lemma LastIsProper(rows: seq<Sample>)
    requires rows != []
    ensures Proper(rows, SetCursor(Cursor(rows[|rows| - 1].id, rows[|rows| - 1].at)))
  {
  }

  lemma UnitOfWrite(rows: seq<Sample>, j: int) returns (u: Unit)
    requires rows != [] && 0 <= j < |ColdWrites(rows)| - 1
    ensures ColdWrites(rows)[j] in UnitWrites(rows, u)
  {
    hide UnitWrites;
    var a, b, c := UnitWrites(rows, Hour), UnitWrites(rows, Unit.Day), UnitWrites(rows, Week);
    u := if j < |a| then Hour else if j < |a| + |b| then Unit.Day else if j < |a| + |b| + |c| then Week else Month;
  }

  lemma ColdAccounts(rows: seq<Sample>, u: Unit, i: int) returns (j: int)
    requires Table(rows) && 0 <= i < |rows|
    ensures 0 <= j < |ColdWrites(rows)| - 1 && Accounts(ColdWrites(rows)[j], rows[i], u)
  {
    hide UnitWrites, Accounts;
    UnitAccounts(rows, u, i);
    var w :| w in UnitWrites(rows, u) && Accounts(w, rows[i], u);
    var k :| 0 <= k < |UnitWrites(rows, u)| && UnitWrites(rows, u)[k] == w;
    var a, b, c := |UnitWrites(rows, Hour)|, |UnitWrites(rows, Unit.Day)|, |UnitWrites(rows, Week)|;
    j := k + match u case Hour => 0 case Day => a case Week => a + b case Month => a + b + c;
  }
}
