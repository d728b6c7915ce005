/** The egress gateway as a program: outbox, sender, drain and poll loop. Each method
    performs a run of the egress machine. */
module EgressSending {
  import opened Wrappers
  import opened EgressMachine

  /** How a send ended: it returned true, it returned false, or it raised. */
  datatype Result = Sent | Refused | Raised

  ghost predicate Goes(m: Machine, acts: seq<Action>, m': Machine) {
    IsRun(m, acts) && Run(m, acts) == m'
  }

  lemma Goes0(m: Machine)
    ensures Goes(m, [], m)
  {
  }

  lemma {:induction false} Joined(m: Machine, acts: seq<Action>, mid: Machine, more: seq<Action>, m': Machine)
    requires Goes(m, acts, mid) && Goes(mid, more, m')
    ensures Goes(m, acts + more, m')
    decreases |acts|
  {
    hide Enabled, Step;
    if acts == [] {
      assert acts + more == more;
    } else {
      Joined(Step(m, acts[0]), acts[1..], mid, more, m');
      assert (acts + more)[1..] == acts[1..] + more && (acts + more)[0] == acts[0];
    }
  }

  lemma Then(m: Machine, acts: seq<Action>, mid: Machine, a: Action)
    requires Goes(m, acts, mid) && Enabled(mid, a)
    ensures Goes(m, acts + [a], Step(mid, a))
  {
    hide Enabled, Step;
    assert [a][0] == a && [a][1..] == [];
    assert IsRun(Step(mid, a), []) && Run(Step(mid, a), []) == Step(mid, a);
    Joined(m, acts, mid, [a], Step(mid, a));
  }

  /** The SQLite outbox; rows in order of their id. A command may raise before it took
      effect or after. */
  class Outbox {
    var rows: seq<OutboxRow>

    constructor ()
      ensures rows == []
    {
      rows := [];
    }

    method Add(id: int, payload: LoasRow) returns (ok: bool, ghost applied: bool)
      modifies this
      ensures rows == if applied then Added(old(rows), id, payload) else old(rows)
      ensures ok ==> applied
    {
      ok, applied := *, false;
      var lost: bool := *;
      if !ok && !lost { return; }
      applied := true;
      var i := 0;
      while i < |rows| && rows[i].id != id
        invariant i <= |rows| && forall j :: 0 <= j < i ==> rows[j].id != id
      {
        i := i + 1;
      }
      if i == |rows| {
        rows := rows + [OutboxRow(id, payload, 0)];
      } else {
        assert rows[i] in rows && rows[i].id in Ids(rows);
      }
    }

    method Remove(id: int) returns (ok: bool, ghost applied: bool)
      modifies this
      ensures rows == if applied then Removed(old(rows), id) else old(rows)
      ensures ok ==> applied
    {
      ok, applied := *, false;
      var lost: bool := *;
      if !ok && !lost { return; }
      applied := true;
      var before, kept := rows, [];
      for i := 0 to |before|
        invariant kept == Removed(before[..i], id)
      {
        RemovedMore(before[..i], before[i], id);
        assert before[..i + 1] == before[..i] + [before[i]];
        if before[i].id != id { kept := kept + [before[i]]; }
      }
      assert before[..|before|] == before;
      rows := kept;
    }

    method BumpAttempts(id: int) returns (ok: bool)
      modifies this
      ensures rows == if ok then Bumped(old(rows), id) else old(rows)
      ensures |rows| == |old(rows)|
      ensures ok ==> forall i :: 0 <= i < |rows| ==>
        var r := old(rows)[i];
        rows[i] == OutboxRow(r.id, r.payload, r.attempts + if r.id == id then 1 else 0)
    {
      ok := *;
      if !ok { return; }
      var bumped := [];
      for i := 0 to |rows|
        invariant |bumped| == i && forall j :: 0 <= j < i ==> bumped[j] == BumpedRow(rows[j], id)
      {
        bumped := bumped + [BumpedRow(rows[i], id)];
      }
      rows := bumped;
    }

    method IterPending() returns (ok: bool, pending: seq<OutboxRow>)
      ensures ok ==> pending == rows
    {
      ok, pending := *, rows;
    }
  }

  lemma {:induction false} RemovedMore(rows: seq<OutboxRow>, r: OutboxRow, id: int)
    ensures Removed(rows + [r], id) == Removed(rows, id) + if r.id == id then [] else [r]
  {
    if rows != [] {
      assert (rows + [r])[1..] == rows[1..] + [r];
      RemovedMore(rows[1..], r, id);
    }
  }

  /** The decision table as the gateway and the decision agent use it. */
  class DecisionRepository {
    var decisions: map<int, Decision>

    constructor (decisions: map<int, Decision>)
      ensures this.decisions == decisions
    {
      this.decisions := decisions;
    }

    /** Decided rows that are not marked sent, longest decided first, up to the limit. */
    method FetchPending(limit: nat) returns (ok: bool, records: seq<Pending>)
      ensures ok ==> forall i :: 0 <= i < |records| ==> Ready(decisions, records[i])
      ensures ok ==> forall i, j :: 0 <= i < j < |records| ==> records[i].id != records[j].id
      ensures ok ==> |records| <= limit && OldestFirst(decisions, records)
      ensures ok && |records| < limit ==> forall id :: Unsent(decisions, id) ==> Holds(records, id)
    {
      hide OldestFirst;
      var left := set id | id in decisions && Unsent(decisions, id);
      records := [];
      OldestNone(decisions);
      while left != {} && |records| < limit
        invariant forall id :: Unsent(decisions, id) ==> id in left || Holds(records, id)
        invariant forall id :: id in left ==> Unsent(decisions, id) && !Holds(records, id)
        invariant forall i :: 0 <= i < |records| ==> Ready(decisions, records[i])
        invariant forall i, j :: 0 <= i < j < |records| ==> records[i].id != records[j].id
        invariant |records| <= limit && OldestFirst(decisions, records)
        decreases left
      {
        var id := Oldest(left);
        var d := decisions[id];
        var rec := Pending(id, d.dustId, d.final.value, d.image);
        OldestNext(decisions, records, left, rec);
        records, left := records + [rec], left - {id};
      }
      ok := *;
    }

    method Oldest(ids: set<int>) returns (oldest: int)
      requires ids != {} && ids <= decisions.Keys
      ensures oldest in ids && forall id :: id in ids ==> decisions[oldest].decidedAt <= decisions[id].decidedAt
    {
      ghost var some: int := PickOne(ids);
      oldest :| oldest in ids;
      var left := ids - {oldest};
      while left != {}
        invariant left <= ids && oldest in ids
        invariant forall id :: id in ids && id !in left ==> decisions[oldest].decidedAt <= decisions[id].decidedAt
        decreases left
      {
        ghost var next: int := PickOne(left);
        var id :| id in left;
        left := left - {id};
        if decisions[id].decidedAt < decisions[oldest].decidedAt { oldest := id; }
      }
    }

    method MarkSent(id: int) returns (ok: bool, ghost applied: bool)
      modifies this
      ensures decisions == if applied then Marked(old(decisions), id) else old(decisions)
      ensures applied && id in old(decisions) ==>
        decisions == old(decisions)[id := old(decisions)[id].(sent := true)]
      ensures ok ==> applied
    {
      ok, applied := *, false;
      var lost: bool := *;
      if !ok && !lost { return; }
      applied := true;
      if id in decisions && !decisions[id].sent {
        decisions := decisions[id := decisions[id].(sent := true)];
      }
    }

    /** The agent's verdict: written only while the row is pending. */
    method MarkDecided(id: int, level: Level, now: int) returns (updated: bool)
      modifies this
      ensures decisions == Decided(old(decisions), id, level, now)
      ensures updated <==> id in old(decisions) && old(decisions)[id].final.None?
      ensures decisions == if updated
                           then old(decisions)[id := old(decisions)[id].(final := Some(level), decidedAt := now)]
                           else old(decisions)
    {
      updated := id in decisions && decisions[id].final.None?;
      if updated {
        decisions := decisions[id := decisions[id].(final := Some(level), decidedAt := now)];
      }
    }

    /** An administrator's verdict: three of the levels only, and only while pending. */
    method ForceDecide(id: int, level: Level, now: int) returns (valid: bool, updated: bool)
      modifies this
      ensures valid <==> level != Danger
      ensures updated <==> valid && id in old(decisions) && old(decisions)[id].final.None?
      ensures decisions == if updated
                           then old(decisions)[id := old(decisions)[id].(final := Some(level), decidedAt := now)]
                           else old(decisions)
    {
      valid, updated := level != Danger, false;
      if valid {
        updated := MarkDecided(id, level, now);
      }
    }
  }

  predicate Unsent(decisions: map<int, Decision>, id: int) {
    id in decisions && decisions[id].final.Some? && !decisions[id].sent
  }

  predicate Holds(records: seq<Pending>, id: int) {
    exists i :: 0 <= i < |records| && records[i].id == id
  }

  /** Whatever was decided before a record comes before it. */
  ghost predicate OldestFirst(decisions: map<int, Decision>, records: seq<Pending>) {
    forall i, id | 0 <= i < |records| && Unsent(decisions, id) && records[i].id in decisions ::
      decisions[id].decidedAt < decisions[records[i].id].decidedAt ==> Holds(records[..i], id)
  }

  lemma OldestNone(decisions: map<int, Decision>)
    ensures OldestFirst(decisions, [])
  {
  }

  lemma OldestNext(decisions: map<int, Decision>, records: seq<Pending>, left: set<int>, rec: Pending)
    requires OldestFirst(decisions, records) && rec.id in left && left <= decisions.Keys
    requires forall id :: Unsent(decisions, id) ==> id in left || Holds(records, id)
    requires forall id :: id in left ==> Unsent(decisions, id) && !Holds(records, id)
    requires forall id :: id in left ==> decisions[rec.id].decidedAt <= decisions[id].decidedAt
    ensures OldestFirst(decisions, records + [rec])
    ensures forall id :: Holds(records + [rec], id) <==> Holds(records, id) || id == rec.id
  {
    var more := records + [rec];
    forall id ensures Holds(more, id) <==> Holds(records, id) || id == rec.id {
      if Holds(records, id) {
        var i :| 0 <= i < |records| && records[i].id == id;
        assert more[i].id == id;
      }
      assert more[|records|] == rec;
    }
    forall i, id | 0 <= i < |more| && Unsent(decisions, id) && more[i].id in decisions
        && decisions[id].decidedAt < decisions[more[i].id].decidedAt
      ensures Holds(more[..i], id)
    {
      if i < |records| {
        assert more[i] == records[i] && more[..i] == records[..i];
      } else {
        assert more[..i] == records;
      }
    }
  }

  predicate Ready(decisions: map<int, Decision>, rec: Pending) {
    && rec.id in decisions && decisions[rec.id].final.Some? && !decisions[rec.id].sent
    && rec == Pending(rec.id, decisions[rec.id].dustId, decisions[rec.id].final.value, decisions[rec.id].image)
  }

  /** The LOAS table: inserts only, and no key against duplicates. */
  class Sink {
    var rows: seq<Delivered>

    constructor ()
      ensures rows == []
    {
      rows := [];
    }

    method Write(row: LoasRow, id: int) returns (ok: bool, ghost applied: bool)
      modifies this
      ensures rows == if applied then old(rows) + [Delivered(id, row)] else old(rows)
      ensures ok ==> applied
    {
      ok, applied := *, false;
      var lost: bool := *;
      if !ok && !lost { return; }
      applied := true;
      rows := rows + [Delivered(id, row)];
    }
  }

  /** The measurement table, read only. */
  class GatewayRepository {
    var dusts: map<int, Dust>

    method FetchDust(dustId: int) returns (ok: bool, dust: Option<Dust>)
      ensures ok ==> dust == if dustId in dusts then Some(dusts[dustId]) else None
    {
      ok, dust := *, if dustId in dusts then Some(dusts[dustId]) else None;
    }
  }

  // ----- the machine's steps, field by field -----

  lemma InsertStep(m: Machine, applied: bool, ok: bool, counted: bool) returns (m': Machine)
    requires m.phase.Writing? && (ok ==> applied)
    ensures Enabled(m, Insert(applied, ok, counted))
    ensures Step(m, Insert(applied, ok, counted)) == m' == AfterInsert(m, applied, ok, counted)
  {
    hide AfterInsert;
    m' := AfterInsert(m, applied, ok, counted);
  }

  lemma RemoveStep(m: Machine) returns (m': Machine)
    requires m.phase.Removing?
    ensures Enabled(m, Remove) && Step(m, Remove) == m'
    ensures m' == m.(outbox := Removed(m.outbox, m.phase.id), phase := Marking(m.phase.id, m.phase.work))
  {
    hide Removed;
    m' := Step(m, Remove);
  }

  lemma MarkStep(m: Machine) returns (m': Machine)
    requires m.phase.Marking?
    ensures Enabled(m, MarkSent) && Step(m, MarkSent) == m'
    ensures m' == m.(decisions := Marked(m.decisions, m.phase.id), phase := Next(m.phase.work),
                     completed := m.completed[m.phase.id := Count(m.completed, m.phase.id) + 1])
  {
    hide Marked;
    m' := Step(m, MarkSent);
  }

  lemma RaiseStep(m: Machine) returns (m': Machine)
    requires !m.phase.Down? && !m.phase.Idle?
    ensures Enabled(m, Raise) && Step(m, Raise) == m' == m.(phase := AfterRaise(m.phase.work))
  {
    m' := Step(m, Raise);
  }

  lemma SkipStep(m: Machine) returns (m': Machine)
    requires AtRecord(m) && Skipped(m, m.phase.work.records[0])
    ensures var rec := m.phase.work.records[0];
            && Enabled(m, Action.Skip) && Step(m, Action.Skip) == m'
            && m' == m.(decisions := Marked(m.decisions, rec.id), skipped := m.skipped[rec.id := OmissionOf(m, rec)],
                        phase := Next(Tick(m.phase.work.records[1..])))
  {
    hide Marked;
    m' := Step(m, Action.Skip);
  }

  lemma QueueStep(m: Machine) returns (m': Machine)
    requires AtRecord(m) && !Skipped(m, m.phase.work.records[0])
    ensures var rec := m.phase.work.records[0];
            && Enabled(m, Queue) && Step(m, Queue) == m'
            && m' == m.(outbox := Added(m.outbox, rec.id, BuildRow(rec, DustOf(m, rec).value)),
                        phase := Writing(rec.id, BuildRow(rec, DustOf(m, rec).value), Tick(m.phase.work.records[1..])))
  {
    hide Added;
    m' := Step(m, Queue);
  }

  lemma ReplayStep(m: Machine) returns (m': Machine)
    requires m.phase.Next? && m.phase.work.Drain? && m.phase.work.rows != []
    ensures var row := m.phase.work.rows[0];
            && Enabled(m, Replay) && Step(m, Replay) == m'
            && m' == m.(phase := Writing(row.id, row.payload, Drain(m.phase.work.rows[1..])))
  {
    m' := Step(m, Replay);
  }

  lemma DrainEndStep(m: Machine) returns (m': Machine)
    requires m.phase == Next(Drain([]))
    ensures Enabled(m, DrainEnd) && Step(m, DrainEnd) == m' == m.(phase := Idle)
  {
    m' := Step(m, DrainEnd);
  }

  class Sender {
    const sink: Sink
    const outbox: Outbox
    const repo: DecisionRepository
    const gw: GatewayRepository
    const allowedEventIds: set<int>

    constructor (sink: Sink, outbox: Outbox, repo: DecisionRepository, gw: GatewayRepository, filter: set<int>)
      ensures this.sink == sink && this.outbox == outbox && this.repo == repo && this.gw == gw
      ensures allowedEventIds == if filter == {} then {0, 1, 2, 3} else filter
    {
      this.sink, this.outbox, this.repo, this.gw := sink, outbox, repo, gw;
      allowedEventIds := if filter == {} then {0, 1, 2, 3} else filter;
    }

    ghost predicate Tracks(m: Machine)
      reads this, sink, outbox, repo, gw
    {
      && m.decisions == repo.decisions && m.dusts == gw.dusts && m.outbox == outbox.rows && m.table == sink.rows
      && m.allowed == allowedEventIds
    }

    /** Insert the row; if that succeeds empty the outbox and mark the decision sent. */
    method Write(id: int, row: LoasRow, ghost m: Machine)
      returns (r: Result, ghost m': Machine, ghost acts: seq<Action>)
      requires Tracks(m) && m.phase.Writing? && m.phase.id == id && m.phase.row == row
      modifies sink, outbox, repo
      ensures Goes(m, acts, m') && Tracks(m')
      ensures m'.phase == match r
                          case Sent => Next(m.phase.work)
                          case Refused => Idle
                          case Raised => AfterRaise(m.phase.work)
      ensures r.Sent? ==> Count(m'.completed, id) == Count(m.completed, id) + 1
      ensures r.Sent? ==>
        && sink.rows == old(sink.rows) + [Delivered(id, row)] && outbox.rows == Removed(old(outbox.rows), id)
        && repo.decisions == Marked(old(repo.decisions), id)
      ensures !r.Sent? ==> Later(old(repo.decisions), repo.decisions)
    {
      hide Goes, Added, Removed, Bumped, Marked, Later, Enabled, Step;
      Goes0(m);
      MarkedLater(repo.decisions, id);
      var ok; ghost var applied;
      ok, applied := sink.Write(row, id);
      if !ok {
        var counted := outbox.BumpAttempts(id);
        r := if counted then Refused else Raised;
        m' := InsertStep(m, applied, ok, counted);
        Then(m, [], m, Insert(applied, ok, counted));
        acts := [] + [Insert(applied, ok, counted)];
        return;
      }
      ghost var m1 := InsertStep(m, applied, ok, false);
      Then(m, [], m, Insert(applied, ok, false));
      acts := [] + [Insert(applied, ok, false)];
      ok, applied := outbox.Remove(id);
      ghost var m2 := RemoveStep(m1);
      if applied {
        Then(m, acts, m1, Remove);
        acts := acts + [Remove];
      }
      if !ok {
        ghost var at := if applied then m2 else m1;
        m' := RaiseStep(at);
        Then(m, acts, at, Raise);
        acts, r := acts + [Raise], Raised;
        return;
      }
      ok, applied := repo.MarkSent(id);
      ghost var m3 := MarkStep(m2);
      if applied {
        Then(m, acts, m2, MarkSent);
        acts := acts + [MarkSent];
      }
      if !ok {
        ghost var at := if applied then m3 else m2;
        m' := RaiseStep(at);
        Then(m, acts, at, Raise);
        acts, r := acts + [Raise], Raised;
        return;
      }
      r, m' := Sent, m3;
    }

    /** Send one decided record, or mark it sent without sending if its measurement is
        gone or its level filtered out. */
    method SendRecord(rec: Pending, ghost m: Machine) returns (r: Result, ghost m': Machine, ghost acts: seq<Action>)
      requires Tracks(m) && AtRecord(m) && m.phase.work.records[0] == rec
      modifies sink, outbox, repo
      ensures Goes(m, acts, m') && Tracks(m')
      ensures m'.phase == if r.Sent? then Next(Tick(m.phase.work.records[1..])) else Idle
      ensures r.Sent? ==> rec.id in m'.skipped || Count(m'.completed, rec.id) == Count(m.completed, rec.id) + 1
      ensures r.Sent? ==> repo.decisions == Marked(old(repo.decisions), rec.id)
    {
      hide Goes, Added, Removed, Bumped, Marked, Later, BuildRow, Enabled, Step, EventId;
      Goes0(m);
      m', acts := m, [];
      var dust: Option<Dust> := None;
      var ok := true;
      if rec.dustId.Some? {
        ok, dust := gw.FetchDust(rec.dustId.value);
      }
      ghost var applied := false;
      if !ok {
        ghost var _ := RaiseStep(m);
        Then(m, [], m, Raise);
        acts, r, m' := [] + [Raise], Raised, Step(m, Raise);
        return;
      }
      if dust.None? || EventId(rec.final) !in allowedEventIds {
        ok, applied := repo.MarkSent(rec.id);
        ghost var m1 := SkipStep(m);
        if applied {
          Then(m, acts, m, Action.Skip);
          acts, m' := acts + [Action.Skip], m1;
        }
        if !ok {
          ghost var _ := RaiseStep(m');
          Then(m, acts, m', Raise);
          acts, m' := acts + [Raise], Step(m', Raise);
        }
        r := if ok then Sent else Raised;
        return;
      }
      var row := BuildRow(rec, dust.value);
      ok, applied := outbox.Add(rec.id, row);
      ghost var m1 := QueueStep(m);
      if applied {
        Then(m, acts, m, Queue);
        acts, m' := acts + [Queue], m1;
      }
      if !ok {
        ghost var _ := RaiseStep(m');
        Then(m, acts, m', Raise);
        acts, r, m' := acts + [Raise], Raised, Step(m', Raise);
        return;
      }
      ghost var more;
      r, m', more := Write(rec.id, row, m1);
      Joined(m, acts, m1, more, m');
      acts := acts + more;
    }

    lemma TracksOutbox(m: Machine)
      requires Tracks(m)
      ensures m.outbox == outbox.rows
    {
    }

    lemma TracksPhase(m: Machine, phase: Phase)
      requires Tracks(m)
      ensures Tracks(m.(phase := phase))
    {
    }

    /** Replay the outbox in order after a start, until a row fails. */
    method DrainOutbox(ghost m: Machine) returns (alive: bool, drained: nat, ghost m': Machine, ghost acts: seq<Action>)
      requires Tracks(m) && m.phase == Next(Drain(m.outbox))
      modifies sink, outbox, repo
      ensures Goes(m, acts, m') && Tracks(m') && m'.phase == if alive then Idle else Down
      ensures drained <= |old(outbox.rows)|
      ensures drained == |old(outbox.rows)| ==>
        outbox.rows == [] && sink.rows == old(sink.rows) + Deliveries(old(outbox.rows))
    {
      hide Goes, Tracks, Removed, Deliveries, Marked, Later;
      Goes0(m);
      NoDeliveries([]);
      drained := 0;
      m', acts := m, [];
      var ok, rows := outbox.IterPending();
      TracksOutbox(m);
      if !ok {
        ghost var _ := RaiseStep(m);
        Then(m, [], m, Raise);
        TracksPhase(m, AfterRaise(m.phase.work));
        NoDeliveries(outbox.rows);
        return false, 0, Step(m, Raise), [] + [Raise];
      }
      assert rows[0..] == rows;
      for k := 0 to |rows|
        invariant Goes(m, acts, m') && Tracks(m') && m'.phase == Next(Drain(rows[k..]))
        invariant drained == k && sink.rows == old(sink.rows) + Deliveries(rows[..k])
        invariant forall r :: r in outbox.rows ==> r in rows[k..]
      {
        assert rows[k..][1..] == rows[k + 1..] && rows[k..][0] == rows[k];
        ghost var m1 := ReplayStep(m');
        TracksPhase(m', m1.phase);
        Then(m, acts, m', Replay);
        acts := acts + [Replay];
        ghost var more;
        var r;
        ghost var before := outbox.rows;
        r, m', more := Write(rows[k].id, rows[k].payload, m1);
        Joined(m, acts, m1, more, m');
        acts := acts + more;
        if !r.Sent? { return r.Refused?, drained, m', acts; }
        drained := drained + 1;
        assert rows[..k + 1] == rows[..k] + [rows[k]];
        MoreDeliveries(rows[..k], rows[k]);
        LeftOver(before, rows[k..], rows[k].id);
      }
      assert rows[..|rows|] == rows;
      NothingLeft(outbox.rows, rows[|rows|..]);
      ghost var m1 := DrainEndStep(m');
      TracksPhase(m', Idle);
      Then(m, acts, m', DrainEnd);
      acts, m' := acts + [DrainEnd], m1;
      alive := true;
    }
  }

  /** The table rows a replay of these outbox rows inserts. */
  function Deliveries(rows: seq<OutboxRow>): seq<Delivered> {
    if rows == [] then []
    else Deliveries(rows[..|rows| - 1]) + [Delivered(rows[|rows| - 1].id, rows[|rows| - 1].payload)]
  }

  lemma NoDeliveries(rows: seq<OutboxRow>)
    ensures rows == [] ==> Deliveries(rows) == []
  {
  }

  lemma MoreDeliveries(rows: seq<OutboxRow>, r: OutboxRow)
    ensures Deliveries(rows + [r]) == Deliveries(rows) + [Delivered(r.id, r.payload)]
  {
    assert (rows + [r])[..|rows|] == rows;
  }

  /** Without its first row, what is left of the outbox is among the later rows. */
  lemma LeftOver(outbox: seq<OutboxRow>, rows: seq<OutboxRow>, id: int)
    requires rows != [] && rows[0].id == id && forall r :: r in outbox ==> r in rows
    ensures forall r :: r in Removed(outbox, id) ==> r in rows[1..]
  {
    RemovedMembers(outbox, id);
    hide Removed;
    assert rows == [rows[0]] + rows[1..];
  }

  lemma NothingLeft(outbox: seq<OutboxRow>, rows: seq<OutboxRow>)
    requires rows == [] && forall r :: r in outbox ==> r in rows
    ensures outbox == []
  {
    forall r ensures multiset(outbox)[r] == 0 { assert r !in outbox; }
    assert multiset(outbox) == multiset{};
    assert |multiset(outbox)| == |outbox|;
  }

  lemma MarkedLater(decisions: map<int, Decision>, id: int)
    ensures Later(decisions, decisions) && Later(decisions, Marked(decisions, id))
  {
  }

  class Poller {
    const sender: Sender
    const batchSize: nat

    constructor (sender: Sender, batchSize: nat)
      ensures this.sender == sender && this.batchSize == batchSize
    {
      this.sender, this.batchSize := sender, batchSize;
    }

    /** Send the pending records one by one; a failure ends the tick. If nothing failed
        and there were fewer than a batch, no decided record is left unsent. */
    method Tick(ghost m: Machine) returns (failed: bool, sent: nat, ghost m': Machine, ghost acts: seq<Action>)
      requires sender.Tracks(m) && m.phase.Idle?
      modifies sender.sink, sender.outbox, sender.repo
      ensures Goes(m, acts, m') && sender.Tracks(m') && m'.phase.Idle?
      ensures sent <= batchSize
      ensures !failed && sent < batchSize ==> forall id :: !Unsent(sender.repo.decisions, id)
    {
      hide Goes, Marked;
      Goes0(m);
      failed, sent, m', acts := false, 0, m, [];
      var ok, records := sender.repo.FetchPending(batchSize);
      if !ok { return true, 0, m, []; }
      if records == [] {
        assert forall id :: !Holds(records, id);
        return;
      }
      m' := FetchStep(m, records);
      Then(m, [], m, Fetch(records));
      acts := [] + [Fetch(records)];
      assert records[0..] == records;
      for k := 0 to |records|
        invariant Goes(m, acts, m') && sender.Tracks(m') && m'.phase == Next(Work.Tick(records[k..]))
        invariant sent == k
        invariant forall id :: Unsent(sender.repo.decisions, id) ==>
          Unsent(old(sender.repo.decisions), id) && forall i :: 0 <= i < k ==> records[i].id != id
      {
        assert records[k..][1..] == records[k + 1..] && records[k..][0] == records[k];
        ghost var m1, more := m', [];
        var r;
        ghost var before := sender.repo.decisions;
        r, m', more := sender.SendRecord(records[k], m1);
        Joined(m, acts, m1, more, m');
        acts := acts + more;
        if !r.Sent? { return true, sent, m', acts; }
        MarkedUnsent(before, records[k].id);
        sent := sent + 1;
      }
      ghost var m1 := TickEndStep(m');
      Then(m, acts, m', TickEnd);
      acts, m' := acts + [TickEnd], m1;
    }

    /** Start, drain the outbox, then poll until told to stop. A failed tick does not
        stop the next one. */
    method Run(ticks: nat, ghost m: Machine)
      returns (alive: bool, drained: nat, ghost m': Machine, ghost acts: seq<Action>)
      requires m.phase.Down? && m.decisions == sender.repo.decisions && m.dusts == sender.gw.dusts
      requires m.outbox == sender.outbox.rows && m.table == sender.sink.rows && sender.allowedEventIds != {}
      modifies sender.sink, sender.outbox, sender.repo
      ensures Goes(m, acts, m') && sender.Tracks(m') && m'.phase == if alive then Idle else Down
      ensures acts != [] && acts[0] == Start(sender.allowedEventIds)
    {
      hide Goes;
      Goes0(m);
      ghost var m1 := StartStep(m, sender.allowedEventIds);
      Then(m, [], m, Start(sender.allowedEventIds));
      acts := [] + [Start(sender.allowedEventIds)];
      ghost var more;
      alive, drained, m', more := sender.DrainOutbox(m1);
      Joined(m, acts, m1, more, m');
      acts := acts + more;
      if !alive { return; }
      for k := 0 to ticks
        invariant Goes(m, acts, m') && sender.Tracks(m') && m'.phase.Idle?
        invariant acts != [] && acts[0] == Start(sender.allowedEventIds)
      {
        m1 := m';
        var failed, sent;
        failed, sent, m', more := Tick(m1);
        Joined(m, acts, m1, more, m');
        acts := acts + more;
      }
    }
  }

  lemma MarkedUnsent(decisions: map<int, Decision>, id: int)
    ensures forall other :: Unsent(Marked(decisions, id), other) ==> Unsent(decisions, other) && other != id
  {
  }

  lemma FetchStep(m: Machine, records: seq<Pending>) returns (m': Machine)
    requires m.phase.Idle?
    requires forall i :: 0 <= i < |records| ==> Ready(m.decisions, records[i])
    requires forall i, j :: 0 <= i < j < |records| ==> records[i].id != records[j].id
    ensures Enabled(m, Fetch(records)) && Step(m, Fetch(records)) == m' == m.(phase := Next(Work.Tick(records)))
  {
    m' := Step(m, Fetch(records));
  }

  lemma TickEndStep(m: Machine) returns (m': Machine)
    requires m.phase == Next(Work.Tick([]))
    ensures Enabled(m, TickEnd) && Step(m, TickEnd) == m' == m.(phase := Idle)
  {
    m' := Step(m, TickEnd);
  }

  lemma StartStep(m: Machine, filter: set<int>) returns (m': Machine)
    requires m.phase.Down? && filter != {}
    ensures Enabled(m, Start(filter))
    ensures Step(m, Start(filter)) == m' == m.(phase := Next(Drain(m.outbox)), allowed := filter)
  {
    m' := Step(m, Start(filter));
  }
}
