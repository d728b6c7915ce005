/** Cold start: the writes that rebuild a station's cache from the sample table. */
module Backfill {
  import opened Wrappers
  import opened Calendar
  import opened Buckets
  import opened BoxStats
  import opened Samples
  import opened CandleStore

  // ----- sorting keys -----

  lemma {:induction false} LexTotal(a: string, b: string)
    ensures LexLess(a, b) || a == b || LexLess(b, a)
  {
    if a != [] && b != [] && a[0] == b[0] {
      LexTotal(a[1..], b[1..]);
      assert a == [a[0]] + a[1..] && b == [b[0]] + b[1..];
    }
  }

  lemma {:induction false} LexTransitive(a: string, b: string, c: string)
    requires LexLess(a, b) && LexLess(b, c)
    ensures LexLess(a, c)
  {
    if a != [] && a[0] == b[0] && b[0] == c[0] {
      LexTransitive(a[1..], b[1..], c[1..]);
    }
  }

  predicate IsFirst(keys: set<string>, k: string) {
    k in keys && forall other :: other in keys && other != k ==> LexLess(k, other)
  }

  lemma {:induction false} FirstExists(keys: set<string>)
    requires keys != {}
    ensures exists k :: IsFirst(keys, k)
  {
    var k: string :| k in keys;
    var others := keys - {k};
    if others == {} {
      assert keys == {k};
      assert IsFirst(keys, k);
    } else {
      FirstExists(others);
      var f :| IsFirst(others, f);
      LexTotal(k, f);
      if LexLess(k, f) {
        forall other | other in keys && other != k ensures LexLess(k, other) {
          if other != f { LexTransitive(k, f, other); }
        }
        assert IsFirst(keys, k);
      } else {
        assert IsFirst(keys, f);
      }
    }
  }

  lemma FirstUnique(keys: set<string>, k: string, l: string)
    requires IsFirst(keys, k) && IsFirst(keys, l)
    ensures k == l
  {
    if k != l {
      LexTransitive(k, l, k);
      LexIrreflexive(k);
    }
  }

  function FirstKey(keys: set<string>): (k: string)
    requires keys != {}
    ensures IsFirst(keys, k)
  {
    FirstExists(keys);
    assert forall k, l :: IsFirst(keys, k) && IsFirst(keys, l) ==> k == l by {
      forall k, l | IsFirst(keys, k) && IsFirst(keys, l) ensures k == l { FirstUnique(keys, k, l); }
    }
    var k :| k in keys && IsFirst(keys, k);
    k
  }

  /** The keys in the order of sorted strings. */
  function SortKeys(keys: set<string>): (sorted: seq<string>)
    ensures |sorted| == |keys|
    ensures forall k :: k in sorted <==> k in keys
  {
    if keys == {} then [] else
    var k := FirstKey(keys);
    [k] + SortKeys(keys - {k})
  }

  /** A key that sorts after every other one comes last, and only there. */
  lemma {:induction false} LastKey(keys: set<string>, top: string)
    requires top in keys
    requires forall k :: k in keys && k != top ==> LexLess(k, top)
    ensures var sorted := SortKeys(keys);
            sorted != [] && sorted[|sorted| - 1] == top && top !in sorted[..|sorted| - 1]
  {
    hide LexLess;
    var k := FirstKey(keys);
    var sorted := SortKeys(keys);
    if k == top {
      forall l | l in keys ensures l == top {
        if l != top {
          LexTransitive(l, top, l);
          LexIrreflexive(l);
        }
      }
      assert keys == {top};
      assert sorted == [top];
    } else {
      LastKey(keys - {k}, top);
      var rest := SortKeys(keys - {k});
      assert sorted == [k] + rest;
      assert sorted[..|sorted| - 1] == [k] + rest[..|rest| - 1];
    }
  }

  // ----- the writes -----

  function KeysOf(rows: seq<Sample>, u: Unit): (keys: set<string>)
  {
    set s | s in rows :: BucketOf(s, u).key
  }

  /** The buffered samples of a bucket. */
  function Items(rows: seq<Sample>, b: Bucket): seq<Sample> {
    if rows == [] then [] else (if In(rows[0], b) then [rows[0]] else []) + Items(rows[1..], b)
  }

  function Values(items: seq<Sample>): seq<real> {
    if items == [] then [] else [items[0].value] + Values(items[1..])
  }

  /** The index score of a bucket, found through the time inferred from its key. */
  function FreezeScore(b: Bucket): int
    requires InferTime(b.key, b.unit).Some?
  {
    BucketScore(InferTime(b.key, b.unit).value, b.unit)
  }

  /** The bucket has samples, so its candle and its score exist. */
  predicate Sampled(rows: seq<Sample>, b: Bucket) {
    ValuesIn(rows, b) != [] && InferTime(b.key, b.unit).Some?
  }

  lemma SampledBucket(rows: seq<Sample>, i: int, u: Unit)
    requires 0 <= i < |rows|
    ensures var b := BucketOf(rows[i], u);
            Sampled(rows, b) && FreezeScore(b) == BucketScore(rows[i].at, u)
  {
    var b := BucketOf(rows[i], u);
    ValuesNone(rows, b);
    assert In(rows[i], b);
    InferRoundTrip(rows[i].at, u);
    hide BucketKey, BucketScore, InferTime;
  }

  lemma KeysAreSampled(rows: seq<Sample>, u: Unit)
    ensures forall k :: k in KeysOf(rows, u) ==> Sampled(rows, Bucket(u, k))
  {
    hide BucketKey, InferTime, ValuesIn;
    forall k | k in KeysOf(rows, u) ensures Sampled(rows, Bucket(u, k)) {
      var s :| s in rows && BucketOf(s, u).key == k;
      var i :| 0 <= i < |rows| && rows[i] == s;
      SampledBucket(rows, i, u);
    }
  }

  function FreezeWrite(rows: seq<Sample>, b: Bucket, at: Time): Write
    requires Sampled(rows, b)
  {
    FreezeBucket(b, Stored(StatsOf(ValuesIn(rows, b)), Some(at)), FreezeScore(b))
  }

  function FreezeWrites(rows: seq<Sample>, u: Unit, keys: seq<string>, at: Time): (ws: seq<Write>)
    requires forall k :: k in keys ==> Sampled(rows, Bucket(u, k))
    ensures |ws| == |keys|
    ensures forall i :: 0 <= i < |keys| ==> ws[i] == FreezeWrite(rows, Bucket(u, keys[i]), at)
  {
    if keys == [] then []
    else [FreezeWrite(rows, Bucket(u, keys[0]), at)] + FreezeWrites(rows, u, keys[1..], at)
  }

  function LiveWrites(items: seq<Sample>, b: Bucket): (ws: seq<Write>)
    ensures |ws| == |items|
    ensures forall i :: 0 <= i < |items| ==> ws[i] == AddLiveRaw(b, items[i].id, items[i].value)
  {
    if items == [] then [] else [AddLiveRaw(b, items[0].id, items[0].value)] + LiveWrites(items[1..], b)
  }

  lemma SomeKey(rows: seq<Sample>, u: Unit)
    requires rows != []
    ensures SortKeys(KeysOf(rows, u)) != []
  {
    hide BucketKey;
    assert BucketOf(rows[0], u).key in KeysOf(rows, u);
  }

  /** The keys of the buckets a cold start freezes: all but the last one sorted. */
  function OldKeys(rows: seq<Sample>, u: Unit): (keys: seq<string>)
    requires rows != []
    ensures forall k :: k in keys ==> k in KeysOf(rows, u)
  {
    SomeKey(rows, u);
    var sorted := SortKeys(KeysOf(rows, u));
    sorted[..|sorted| - 1]
  }

  /** The bucket a cold start keeps live. */
  function LiveBucket(rows: seq<Sample>, u: Unit): (b: Bucket)
    requires rows != []
    ensures b.unit == u && b.key in KeysOf(rows, u)
  {
    SomeKey(rows, u);
    var sorted := SortKeys(KeysOf(rows, u));
    Bucket(u, sorted[|sorted| - 1])
  }

  function StatsWrite(rows: seq<Sample>, b: Bucket, at: Time): Write
    requires Sampled(rows, b)
  {
    SetLiveStats(b, Stored(StatsOf(ValuesIn(rows, b)), Some(at)))
  }

  /** The writes for one unit: freeze every bucket but the last, keep that one live. */
  function UnitWrites(rows: seq<Sample>, u: Unit): seq<Write>
    requires rows != []
  {
    KeysAreSampled(rows, u);
    var at, live := rows[|rows| - 1].at, LiveBucket(rows, u);
    FreezeWrites(rows, u, OldKeys(rows, u), at) + LiveWrites(Items(rows, live), live) + [StatsWrite(rows, live, at)]
  }

  /** All writes of a cold start over these rows; the cursor comes last. */
  function ColdWrites(rows: seq<Sample>): seq<Write>
    requires rows != []
  {
    var last := rows[|rows| - 1];
    UnitWrites(rows, Hour) + UnitWrites(rows, Unit.Day) + UnitWrites(rows, Week) + UnitWrites(rows, Month)
    + [SetCursor(Cursor(last.id, last.at))]
  }
}
