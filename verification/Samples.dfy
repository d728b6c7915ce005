/** The sample table of one station and the two ways it is read. */
module Samples {
  import opened Wrappers
  import opened Calendar
  import opened Buckets

  /** Sample times; the year has four digits. */
  type Time = t: DateTime | Valid(t) && t.year >= 1000 witness DateTime(1970, 1, 1, 0, 0, 0, 0)

  datatype Sample = Sample(id: int, at: Time, value: real)

  /** The bucket of `unit` with this key. */
  datatype Bucket = Bucket(unit: Unit, key: string)

  const UNITS: seq<Unit> := [Hour, Unit.Day, Week, Month]

  function BucketOf(s: Sample, u: Unit): Bucket {
    Bucket(u, BucketKey(s.at, u))
  }

  predicate In(s: Sample, b: Bucket) {
    BucketOf(s, b.unit) == b
  }

  /** Rows in id order. */
  ghost predicate Ordered(rows: seq<Sample>) {
    && (forall i :: 0 <= i < |rows| ==> rows[i].id > 0)
    && (forall i, j :: 0 <= i < j < |rows| ==> rows[i].id < rows[j].id)
  }

  /** Times do not decrease along the rows. */
  ghost predicate Timely(rows: seq<Sample>) {
    forall i, j :: 0 <= i < j < |rows| ==> Instant(rows[i].at) <= Instant(rows[j].at)
  }

  /** The table in id order, its times not decreasing. */
  ghost predicate Table(rows: seq<Sample>) {
    Ordered(rows) && Timely(rows)
  }

  lemma TablePrefix(rows: seq<Sample>, n: nat)
    requires Table(rows) && n <= |rows|
    ensures Table(rows[..n])
  {
    hide Instant;
  }

  /** The values of a bucket's samples, in id order. */
  function ValuesIn(rows: seq<Sample>, b: Bucket): seq<real> {
    if rows == [] then []
    else (if In(rows[0], b) then [rows[0].value] else []) + ValuesIn(rows[1..], b)
  }

  /** Each bucket's samples are consecutive in the table. */
  lemma Consecutive(rows: seq<Sample>, i: int, j: int, k: int, u: Unit)
    requires Table(rows) && 0 <= i <= j <= k < |rows|
    requires BucketOf(rows[i], u) == BucketOf(rows[k], u)
    ensures BucketOf(rows[j], u) == BucketOf(rows[i], u)
  {
    hide BucketKey, BucketScore, Instant;
    var a, b, c := rows[i].at, rows[j].at, rows[k].at;
    assert Instant(a) <= Instant(b) <= Instant(c);
    ScoreMonotone(a, b, u);
    ScoreMonotone(b, c, u);
    KeyMatchesScore(a, b, u);
    KeyMatchesScore(a, c, u);
  }

  /** Two buckets of one unit compare as strings the way their samples lie in the table. */
  lemma KeysInTableOrder(rows: seq<Sample>, i: int, j: int, u: Unit)
    requires Table(rows) && 0 <= i <= j < |rows|
    ensures !LexLess(BucketOf(rows[j], u).key, BucketOf(rows[i], u).key)
  {
    hide BucketKey, LexLess, Instant;
    assert Instant(rows[i].at) <= Instant(rows[j].at);
    KeysFollowTime(rows[i].at, rows[j].at, u);
  }

  lemma {:induction false} ValuesConcat(a: seq<Sample>, b: seq<Sample>, bucket: Bucket)
    ensures ValuesIn(a + b, bucket) == ValuesIn(a, bucket) + ValuesIn(b, bucket)
  {
    hide In;
    if a == [] {
      assert a + b == b;
    } else {
      ValuesConcat(a[1..], b, bucket);
      assert (a + b)[1..] == a[1..] + b && (a + b)[0] == a[0];
      var first := if In(a[0], bucket) then [a[0].value] else [];
      assert first + (ValuesIn(a[1..], bucket) + ValuesIn(b, bucket))
          == (first + ValuesIn(a[1..], bucket)) + ValuesIn(b, bucket);
    }
  }

  lemma {:induction false} ValuesNone(rows: seq<Sample>, b: Bucket)
    ensures ValuesIn(rows, b) == [] <==> forall i :: 0 <= i < |rows| ==> !In(rows[i], b)
  {
    hide In;
    if rows != [] {
      ValuesNone(rows[1..], b);
      assert forall i :: 0 < i < |rows| ==> rows[i] == rows[1..][i - 1];
      assert forall i :: 0 <= i < |rows[1..]| ==> rows[1..][i] == rows[i + 1];
    }
  }

  // ----- queries -----

  /** How many rows have an id up to `id`. */
  function Consumed(rows: seq<Sample>, id: int): (n: nat)
    ensures n <= |rows|
  {
    if rows == [] then 0 else (if rows[0].id <= id then 1 else 0) + Consumed(rows[1..], id)
  }

  /** Rows with a larger id, in id order. */
  function Newer(rows: seq<Sample>, id: int): seq<Sample> {
    if rows == [] then [] else (if rows[0].id > id then [rows[0]] else []) + Newer(rows[1..], id)
  }

  function FetchSince(rows: seq<Sample>, id: int, limit: nat): (batch: seq<Sample>)
    ensures |batch| <= limit
  {
    var newer := Newer(rows, id);
    if |newer| <= limit then newer else newer[..limit]
  }

  /** The consumed rows are a prefix. */
  lemma {:induction false} ConsumedBounds(rows: seq<Sample>, id: int)
    requires Ordered(rows)
    ensures forall i :: 0 <= i < Consumed(rows, id) ==> rows[i].id <= id
    ensures forall i :: Consumed(rows, id) <= i < |rows| ==> rows[i].id > id
  {
    if rows != [] {
      var rest := rows[1..];
      assert forall i :: 0 <= i < |rest| ==> rest[i] == rows[i + 1];
      ConsumedBounds(rest, id);
      if rows[0].id > id && rest != [] {
        assert rest[0].id > id;
      }
      assert forall i :: 0 < i < |rows| ==> rows[i] == rest[i - 1];
    }
  }

  lemma {:induction false} NewerOfOld(rows: seq<Sample>, id: int)
    requires forall i :: 0 <= i < |rows| ==> rows[i].id <= id
    ensures Newer(rows, id) == []
  {
    if rows != [] { NewerOfOld(rows[1..], id); }
  }

  lemma {:induction false} NewerOfNew(rows: seq<Sample>, id: int)
    requires forall i :: 0 <= i < |rows| ==> rows[i].id > id
    ensures Newer(rows, id) == rows
  {
    if rows != [] { NewerOfNew(rows[1..], id); }
  }

  lemma {:induction false} NewerConcat(a: seq<Sample>, b: seq<Sample>, id: int)
    ensures Newer(a + b, id) == Newer(a, id) + Newer(b, id)
  {
    if a == [] {
      assert a + b == b;
    } else {
      assert (a + b)[1..] == a[1..] + b;
      NewerConcat(a[1..], b, id);
    }
  }

  /** The newer rows are the rest of the table. */
  lemma ConsumedSplits(rows: seq<Sample>, id: int)
    requires Ordered(rows)
    ensures Newer(rows, id) == rows[Consumed(rows, id)..]
  {
    var n := Consumed(rows, id);
    ConsumedBounds(rows, id);
    hide *;
    var early, later := rows[..n], rows[n..];
    assert rows == early + later;
    forall i | 0 <= i < |early| ensures early[i].id <= id { assert early[i] == rows[i]; }
    forall i | 0 <= i < |later| ensures later[i].id > id { assert later[i] == rows[n + i]; }
    NewerOfOld(early, id);
    NewerOfNew(later, id);
    NewerConcat(early, later, id);
  }

  /** The id of row `k - 1` has consumed exactly `k` rows. */
  lemma ConsumedById(rows: seq<Sample>, k: nat)
    requires Ordered(rows) && 0 < k <= |rows|
    ensures Consumed(rows, rows[k - 1].id) == k
  {
    ConsumedBounds(rows, rows[k - 1].id);
  }

  lemma {:induction false} ConsumedOfMore(rows: seq<Sample>, more: seq<Sample>, id: int)
    ensures Consumed(rows + more, id) == Consumed(rows, id) + Consumed(more, id)
  {
    if rows == [] {
      assert rows + more == more;
    } else {
      assert (rows + more)[1..] == rows[1..] + more;
      ConsumedOfMore(rows[1..], more, id);
    }
  }

  /** A fetch returns the consecutive rows after the consumed ones. */
  lemma FetchIsSlice(rows: seq<Sample>, id: int, limit: nat)
    requires Ordered(rows)
    ensures var n, batch := Consumed(rows, id), FetchSince(rows, id, limit);
            && |batch| == (if |rows| - n <= limit then |rows| - n else limit)
            && batch == rows[n..n + |batch|]
  {
    ConsumedSplits(rows, id);
  }

  /** One page: what is yielded stays a prefix of the table, and a page that is not
      full completes it. */
  lemma PageAdvances(view: seq<Sample>, later: seq<Sample>, out: seq<Sample>, id: int, chunk: nat)
    requires Ordered(view) && Ordered(later) && view <= later
    requires out <= view && Consumed(view, id) == |out|
    ensures var rows := FetchSince(view, id, chunk);
            && out + rows <= later
            && (|rows| < chunk ==> out + rows == view)
            && (rows != [] ==> Consumed(later, rows[|rows| - 1].id) == |out + rows|)
  {
    var rows := FetchSince(view, id, chunk);
    FetchIsSlice(view, id, chunk);
    hide FetchSince;
    assert out + rows == view[..|out| + |rows|];
    if rows != [] {
      assert rows[|rows| - 1] == later[|out + rows| - 1];
      ConsumedById(later, |out + rows|);
    }
  }

  /** Page through the table in chunks while it may grow: page number `k` sees the
      table as it is then, `views(k)`. The samples yielded are exactly the rows of
      the table as the last page saw it, each once and in id order. */
  method IterAllSamples(views: nat -> seq<Sample>, chunk: nat, ghost most: nat) returns (out: seq<Sample>, pages: nat)
    requires chunk > 0
    requires forall k: nat :: Ordered(views(k)) && views(k) <= views(k + 1) && |views(k)| <= most
    ensures pages > 0 && out == views(pages - 1)
  {
    var lastId := 0;
    out, pages := [], 0;
    ConsumedBounds(views(0), 0);
    hide FetchSince, Consumed, Ordered;
    while true
      invariant out <= views(pages) && Consumed(views(pages), lastId) == |out|
      decreases most - |out|
    {
      var rows := FetchSince(views(pages), lastId, chunk);
      PageAdvances(views(pages), views(pages + 1), out, lastId, chunk);
      pages := pages + 1;
      if rows == [] {
        assert out + rows == out;
        return;
      }
      out := out + rows;
      lastId := rows[|rows| - 1].id;
      if |rows| < chunk {
        return;
      }
    }
  }
}
