/** What the batch consumer writes to the decision database. */
module DecisionProducer {
  import opened Wrappers
  import opened TransferQueue

  datatype Verdict = Normal | Abnormal

  /** The thresholds an administrator has set, where they are set. */
  datatype Thresholds = Thresholds(dust: Option<real>, fixed: Option<real>, moving: Option<real>)

  /** The two scores read from a REST response; a missing one could not be read. */
  datatype Scores = Scores(fixed: Option<real>, moving: Option<real>)

  datatype Record = Record(place: Place, observedAt: int, dustId: int, sensor: Verdict, anomaly: Verdict,
      object_: Verdict)

  /** Decision rows in order of insertion, and dead letters: frame to attempts. */
  datatype Decisions = Decisions(records: seq<Record>, dlq: map<int, nat>)

  function Classify(value: Option<real>, threshold: Option<real>): Verdict {
    if value.Some? && threshold.Some? && value.value > threshold.value then Abnormal else Normal
  }

  /** The newest receive time among the rows, if any has one. */
  function NewestReceived(rows: seq<Row>): Option<int> {
    if rows == [] then None else
    var rest, last := NewestReceived(rows[..|rows| - 1]), rows[|rows| - 1].receivedAt;
    if rest.None? || (last.Some? && last.value > rest.value) then last else rest
  }

  /** One record for the whole batch, taken from its representative row. */
  function DecisionFor(p: Place, rows: seq<Row>, scores: Scores, th: Thresholds, now: int): (r: Record)
    requires rows != []
  {
    var rep := Representative(rows);
    var newest := NewestReceived(rows);
    Record(p,
           if rep.receivedAt.Some? then rep.receivedAt.value else if newest.Some? then newest.value else now,
           rep.dustId, Classify(rep.dustValue, th.dust), Classify(scores.fixed, th.fixed),
           Classify(scores.moving, th.moving))
  }

  /** The sensor verdict is abnormal exactly when some row exceeds the threshold. */
  lemma SensorVerdict(p: Place, rows: seq<Row>, scores: Scores, th: Thresholds, now: int)
    requires rows != []
    ensures DecisionFor(p, rows, scores, th, now).sensor == Abnormal
       <==> exists j :: 0 <= j < |rows| && Classify(rows[j].dustValue, th.dust) == Abnormal
  {
    var k := RepresentativeIsMax(rows);
    if j :| 0 <= j < |rows| && Classify(rows[j].dustValue, th.dust) == Abnormal {
      assert !Less(rows[k].dustValue, rows[j].dustValue);
    }
  }

  /** What the record of a batch says, channel by channel: a channel is abnormal exactly if
      its value and its threshold are there and the value is larger. */
  ghost predicate Verdicts(r: Record, rows: seq<Row>, scores: Scores, th: Thresholds) {
    && (r.sensor == Abnormal <==>
          exists j :: 0 <= j < |rows| && rows[j].dustValue.Some? && th.dust.Some?
                      && rows[j].dustValue.value > th.dust.value)
    && (r.anomaly == Abnormal <==>
          scores.fixed.Some? && th.fixed.Some? && scores.fixed.value > th.fixed.value)
    && (r.object_ == Abnormal <==>
          scores.moving.Some? && th.moving.Some? && scores.moving.value > th.moving.value)
  }

  /** No row has a larger dust value than this one, and none before it has as large a one. */
  ghost predicate Foremost(rows: seq<Row>, k: nat) {
    && k < |rows|
    && (forall j :: 0 <= j < |rows| && rows[j].dustValue.Some? ==>
          rows[k].dustValue.Some? && rows[j].dustValue.value <= rows[k].dustValue.value)
    && (forall j :: 0 <= j < k ==>
          rows[k].dustValue.Some? && (rows[j].dustValue.None? || rows[j].dustValue.value < rows[k].dustValue.value))
  }

  /** The newest time at which a row of the batch was received, if any is known. */
  ghost predicate Newest(rows: seq<Row>, at: Option<int>) {
    && (at.None? ==> forall j :: 0 <= j < |rows| ==> rows[j].receivedAt.None?)
    && (at.Some? ==>
          && (exists j :: 0 <= j < |rows| && rows[j].receivedAt == at)
          && forall j :: 0 <= j < |rows| && rows[j].receivedAt.Some? ==> rows[j].receivedAt.value <= at.value)
  }

  /** The record's place, its row, and when that was observed: when the foremost row was
      received, or else the newest one, or else now. */
  ghost predicate Describes(r: Record, p: Place, rows: seq<Row>, now: int) {
    && r.place == p
    && exists k: nat, at: Option<int> :: Foremost(rows, k) && Newest(rows, at) && r.dustId == rows[k].dustId
         && r.observedAt == if rows[k].receivedAt.Some? then rows[k].receivedAt.value
                            else if at.Some? then at.value else now
  }

  lemma {:induction false} NewestIs(rows: seq<Row>)
    ensures Newest(rows, NewestReceived(rows))
  {
    if rows != [] {
      var front, last := rows[..|rows| - 1], |rows| - 1;
      NewestIs(front);
      var rest, at := NewestReceived(front), NewestReceived(rows);
      assert forall j :: 0 <= j < last ==> front[j] == rows[j];
      if at.Some? {
        if at == rows[last].receivedAt {
          assert rows[last].receivedAt == at;
        } else {
          var j :| 0 <= j < |front| && front[j].receivedAt == rest;
          assert rows[j].receivedAt == at;
        }
      }
    }
  }

  lemma RecordOfBatch(p: Place, rows: seq<Row>, scores: Scores, th: Thresholds, now: int)
    requires rows != []
    ensures var r := DecisionFor(p, rows, scores, th, now); Verdicts(r, rows, scores, th) && Describes(r, p, rows, now)
  {
    var k := RepresentativeIsForemost(rows);
    NewestIs(rows);
    SensorVerdict(p, rows, scores, th, now);
    hide Foremost, Newest, NewestReceived, Representative;
    var r, at := DecisionFor(p, rows, scores, th, now), NewestReceived(rows);
    assert Foremost(rows, k) && Newest(rows, at) && r.dustId == rows[k].dustId;
  }

  lemma RepresentativeIsForemost(rows: seq<Row>) returns (k: nat)
    requires rows != []
    ensures Foremost(rows, k) && Representative(rows) == rows[k]
  {
    k := RepresentativeIsMax(rows);
    forall j | 0 <= j < |rows| && rows[j].dustValue.Some?
      ensures rows[k].dustValue.Some? && rows[j].dustValue.value <= rows[k].dustValue.value
    {
      assert !Less(rows[k].dustValue, rows[j].dustValue);
    }
    forall j | 0 <= j < k
      ensures rows[k].dustValue.Some?
      ensures rows[j].dustValue.None? || rows[j].dustValue.value < rows[k].dustValue.value
    {
      assert Less(rows[j].dustValue, rows[k].dustValue);
    }
  }

  predicate HasRecord(records: seq<Record>, dustId: int) {
    exists i :: 0 <= i < |records| && records[i].dustId == dustId
  }

  /** The dust id is unique: a second row for it is ignored. */
  function Inserted(records: seq<Record>, r: Record): seq<Record> {
    if HasRecord(records, r.dustId) then records else records + [r]
  }

  ghost predicate UniqueDust(records: seq<Record>) {
    forall i, j :: 0 <= i < j < |records| ==> records[i].dustId != records[j].dustId
  }

  lemma InsertedFacts(records: seq<Record>, r: Record)
    ensures records <= Inserted(records, r) && HasRecord(Inserted(records, r), r.dustId)
    ensures UniqueDust(records) ==> UniqueDust(Inserted(records, r))
    ensures forall id :: HasRecord(records, id) ==> HasRecord(Inserted(records, r), id)
    ensures Inserted(Inserted(records, r), r) == Inserted(records, r)
  {
    var after := Inserted(records, r);
    if !HasRecord(records, r.dustId) {
      assert after[|records|] == r;
    }
    forall id | HasRecord(records, id) ensures HasRecord(after, id) {
      var i :| 0 <= i < |records| && records[i].dustId == id;
      assert after[i] == records[i];
    }
  }

  /** The decision database. A statement may raise before it took effect or after. */
  class DecisionProducer {
    var records: seq<Record>
    var dlq: map<int, nat>

    constructor ()
      ensures View() == Decisions([], map[])
    {
      records, dlq := [], map[];
    }

    ghost function View(): Decisions
      reads this
    {
      Decisions(records, dlq)
    }

    method FetchThresholds() returns (ok: bool, th: Thresholds)
    {
      ok, th := *, *;
    }

    method InsertDecision(r: Record) returns (ok: bool, ghost applied: bool)
      modifies this
      ensures View() == if applied then old(View()).(records := Inserted(old(records), r)) else old(View())
      ensures ok ==> applied
    {
      applied, ok := false, *;
      if !ok {
        var lost := *;
        if !lost { return; }
      }
      applied := true;
      var i := 0;
      while i < |records| && records[i].dustId != r.dustId
        invariant i <= |records| && forall j :: 0 <= j < i ==> records[j].dustId != r.dustId
      {
        i := i + 1;
      }
      if i == |records| {
        records := records + [r];
      }
    }

    method DeadLetter(frameId: int, attempts: nat) returns (ok: bool, ghost applied: bool)
      modifies this
      ensures View() == if applied then old(View()).(dlq := old(dlq)[frameId := attempts]) else old(View())
      ensures ok ==> applied
    {
      applied, ok := false, *;
      if !ok {
        var lost := *;
        if !lost { return; }
      }
      applied := true;
      dlq := dlq[frameId := attempts];
    }
  }
}
