/** One station's keys in Redis: live sample sets, live candles, frozen candles with
    their index, and the cursor; the writes that change them, one by one. */
module CandleStore {
  import opened Wrappers
  import opened Buckets
  import opened BoxStats
  import opened Samples

  /** A candle as it is stored; the time is the one of the newest sample, if given. */
  datatype Stored = Stored(candle: Candle, updatedAt: Option<Time>)

  datatype Cursor = Cursor(lastId: int, lastSampledAt: Time)

  datatype Store = Store(
    live: map<Bucket, map<int, real>>, liveStats: map<Bucket, Stored>,
    frozen: map<Bucket, Stored>, index: map<Bucket, int>, cursor: Option<Cursor>)

  const EMPTY_STORE := Store(map[], map[], map[], map[], None)

  /** A single Redis command (or transaction). */
  datatype Write =
    | AddLiveRaw(bucket: Bucket, id: int, value: real)
    | SetLiveStats(bucket: Bucket, stats: Stored)
    | FreezeBucket(bucket: Bucket, stats: Stored, score: int)
    | SetCursor(cursor: Cursor)

  function LiveOf(s: Store, b: Bucket): map<int, real> {
    if b in s.live then s.live[b] else map[]
  }

  function Apply(s: Store, w: Write): Store {
    match w
    case AddLiveRaw(b, id, value) => s.(live := s.live[b := LiveOf(s, b)[id := value]])
    case SetLiveStats(b, stats) => s.(liveStats := s.liveStats[b := stats])
    case FreezeBucket(b, stats, score) =>
      Store(s.live - {b}, s.liveStats - {b}, s.frozen[b := stats], s.index[b := score], s.cursor)
    case SetCursor(c) => s.(cursor := Some(c))
  }

  function ApplyAll(s: Store, ws: seq<Write>): Store
    decreases |ws|
  {
    if ws == [] then s else ApplyAll(Apply(s, ws[0]), ws[1..])
  }

  // ----- reading a live set -----

  /** The values of a live set in id order. */
  function Listing(members: map<int, real>): seq<real>
    decreases |members|
  {
    if members == map[] then [] else
    assert |members.Keys| == |members| > 0;
    var id := Least(members.Keys);
    assert |(members - {id}).Keys| < |members.Keys| by {
      assert (members - {id}).Keys == members.Keys - {id};
    }
    [members[id]] + Listing(members - {id})
  }

  /** The values of a live set in score order, as a range query returns them. */
  function ScoreOrder(members: map<int, real>): seq<real> {
    Sort(Listing(members))
  }

  /** The candle computed from a list of values; callers never pass an empty one. */
  function StatsOf(values: seq<real>): Candle
    requires values != []
  {
    ComputeBoxStats(values).value
  }

  /** The live candle of the bucket is that of its live values, as of this time. */
  ghost predicate CandleStored(s: Store, b: Bucket, at: Time) {
    && ScoreOrder(LiveOf(s, b)) != []
    && b in s.liveStats && s.liveStats[b] == Stored(StatsOf(ScoreOrder(LiveOf(s, b))), Some(at))
  }

  /** The live set holds exactly the bucket's samples among these rows. */
  ghost predicate Exact(rows: seq<Sample>, b: Bucket, members: map<int, real>) {
    && (forall i :: 0 <= i < |rows| && In(rows[i], b) ==>
          rows[i].id in members && members[rows[i].id] == rows[i].value)
    && (forall id :: id in members ==> exists i :: 0 <= i < |rows| && In(rows[i], b) && rows[i].id == id)
  }

  lemma ExactTail(rows: seq<Sample>, b: Bucket, members: map<int, real>)
    requires Ordered(rows) && Exact(rows, b, members) && rows != []
    ensures var others := if In(rows[0], b) then members - {rows[0].id} else members;
            Ordered(rows[1..]) && Exact(rows[1..], b, others)
  {
    hide In;
    var rest := rows[1..];
    var others := if In(rows[0], b) then members - {rows[0].id} else members;
    assert forall i :: 0 <= i < |rest| ==> rest[i] == rows[i + 1];
    forall id | id in others ensures exists i :: 0 <= i < |rest| && In(rest[i], b) && rest[i].id == id {
      var i :| 0 <= i < |rows| && In(rows[i], b) && rows[i].id == id;
      assert rest[i - 1] == rows[i];
    }
  }

  /** An exact live set lists its values in table order. */
  lemma {:induction false} ListingExact(rows: seq<Sample>, b: Bucket, members: map<int, real>)
    requires Ordered(rows) && Exact(rows, b, members)
    ensures Listing(members) == ValuesIn(rows, b)
  {
    hide In;
    if rows == [] {
      assert members.Keys == {};
    } else {
      ExactTail(rows, b, members);
      if In(rows[0], b) {
        assert Least(members.Keys) == rows[0].id;
        hide Exact, Ordered;
        ListingExact(rows[1..], b, members - {rows[0].id});
      } else {
        hide Exact, Ordered;
        ListingExact(rows[1..], b, members);
      }
    }
  }

  lemma {:induction false} ListingEmpty(members: map<int, real>)
    ensures ScoreOrder(members) == [] <==> members == map[]
  {
    SortIsSorted(Listing(members));
  }

  /** The keys of one station. Every method is one Redis command. A command may raise
      (`ok` is false) before it took effect or after. */
  class RedisClient {
    var live: map<Bucket, map<int, real>>
    var liveStats: map<Bucket, Stored>
    var frozen: map<Bucket, Stored>
    var index: map<Bucket, int>
    var cursor: Option<Cursor>

    constructor ()
      ensures View() == EMPTY_STORE
    {
      live, liveStats, frozen, index, cursor := map[], map[], map[], map[], None;
    }

    ghost function View(): Store
      reads this
    {
      Store(live, liveStats, frozen, index, cursor)
    }

    /** The cursor hash: the id is 0 when there is none. */
    method GetCursor() returns (ok: bool, lastId: int, lastSampledAt: Option<Time>)
      ensures ok && View().cursor.None? ==> lastId == 0 && lastSampledAt == None
      ensures ok && View().cursor.Some? ==>
        lastId == View().cursor.value.lastId && lastSampledAt == Some(View().cursor.value.lastSampledAt)
    {
      ok := *;
      match cursor
      case None => lastId, lastSampledAt := 0, None;
      case Some(c) => lastId, lastSampledAt := c.lastId, Some(c.lastSampledAt);
    }

    method SetCursorTo(lastId: int, lastSampledAt: Time) returns (ok: bool)
      modifies this
      ensures Outcome(old(View()), SetCursor(Cursor(lastId, lastSampledAt)), View(), ok)
    {
      var reached := *;
      if !reached { return false; }
      cursor := Some(Cursor(lastId, lastSampledAt));
      ok := *;
    }

    method AddLive(b: Bucket, id: int, value: real) returns (ok: bool)
      modifies this
      ensures Outcome(old(View()), AddLiveRaw(b, id, value), View(), ok)
    {
      var reached := *;
      if !reached { return false; }
      var members := if b in live then live[b] else map[];
      live := live[b := members[id := value]];
      ok := *;
    }

    method GetLiveRawValues(b: Bucket) returns (ok: bool, values: seq<real>)
      ensures ok ==> values == ScoreOrder(LiveOf(View(), b))
    {
      ok := *;
      values := if b in live then ScoreOrder(live[b]) else [];
    }

    method SetStats(b: Bucket, stats: Stored) returns (ok: bool)
      modifies this
      ensures Outcome(old(View()), SetLiveStats(b, stats), View(), ok)
    {
      var reached := *;
      if !reached { return false; }
      liveStats := liveStats[b := stats];
      ok := *;
    }

    /** Tell subscribers; nothing is stored. */
    method Publish() returns (ok: bool)
    {
      ok := *;
    }

    /** One transaction: frozen candle, index entry, live keys gone. */
    method Freeze(b: Bucket, stats: Stored, score: int) returns (ok: bool)
      modifies this
      ensures Outcome(old(View()), FreezeBucket(b, stats, score), View(), ok)
    {
      var reached := *;
      if !reached { return false; }
      frozen := frozen[b := stats];
      index := index[b := score];
      live := live - {b};
      liveStats := liveStats - {b};
      ok := *;
    }
  }

  /** What a command that may raise does: all of it or nothing, and all of it if it
      returns normally. */
  ghost predicate Outcome(before: Store, w: Write, after: Store, ok: bool) {
    after == Apply(before, w) || (!ok && after == before)
  }
}
