/** Delivery of decisions to the LOAS table as a state machine: the outbox is written
    before the insert and emptied after it, the decision is marked sent last, and the
    process may die or an exception be raised between any two commands. */
module EgressMachine {
  import opened Wrappers

  datatype Level = Normal | Caution | Warning | Danger

  /** A decision row. It is decided at most once and marked sent at most once. */
  datatype Decision = Decision(dustId: Option<int>, final: Option<Level>, decidedAt: int, image: string, sent: bool)

  /** The measured columns of the LOAS row, kept abstract. */
  datatype Dust = Dust(columns: string)

  datatype LoasRow = LoasRow(dust: Dust, eventId: int, image: string)

  /** What the poller reads of a decided row. */
  datatype Pending = Pending(id: int, dustId: Option<int>, final: Level, image: string)

  datatype OutboxRow = OutboxRow(id: int, payload: LoasRow, attempts: nat)

  /** A row of the LOAS table with the decision it came from; the table itself has no
      key that would tell. */
  datatype Delivered = Delivered(id: int, row: LoasRow)

  function EventId(level: Level): (e: int)
    ensures 0 <= e <= 3
  {
    match level case Normal => 0 case Caution => 1 case Warning => 2 case Danger => 3
  }

  function BuildRow(rec: Pending, dust: Dust): LoasRow {
    LoasRow(dust, EventId(rec.final), rec.image)
  }

  // ----- the outbox table -----

  function Ids(outbox: seq<OutboxRow>): set<int> {
    set r | r in outbox :: r.id
  }

  /** The decision id is unique: adding it again changes nothing. */
  function Added(outbox: seq<OutboxRow>, id: int, payload: LoasRow): seq<OutboxRow> {
    if id in Ids(outbox) then outbox else outbox + [OutboxRow(id, payload, 0)]
  }

  function Removed(outbox: seq<OutboxRow>, id: int): seq<OutboxRow> {
    if outbox == [] then []
    else (if outbox[0].id == id then [] else [outbox[0]]) + Removed(outbox[1..], id)
  }

  function BumpedRow(r: OutboxRow, id: int): OutboxRow {
    if r.id == id then r.(attempts := r.attempts + 1) else r
  }

  function Bumped(outbox: seq<OutboxRow>, id: int): (o: seq<OutboxRow>)
    ensures |o| == |outbox| && forall i :: 0 <= i < |o| ==> o[i] == BumpedRow(outbox[i], id)
  {
    if outbox == [] then [] else [BumpedRow(outbox[0], id)] + Bumped(outbox[1..], id)
  }

  /** No decision twice. */
  ghost predicate Unique(outbox: seq<OutboxRow>) {
    forall i, j :: 0 <= i < j < |outbox| ==> outbox[i].id != outbox[j].id
  }

  lemma {:induction false} RemovedMembers(outbox: seq<OutboxRow>, id: int)
    ensures forall r :: r in Removed(outbox, id) <==> r in outbox && r.id != id
  {
    if outbox != [] {
      RemovedMembers(outbox[1..], id);
      assert outbox == [outbox[0]] + outbox[1..];
    }
  }

  lemma {:induction false} RemovedUnique(outbox: seq<OutboxRow>, id: int)
    requires Unique(outbox)
    ensures Unique(Removed(outbox, id))
  {
    if outbox != [] {
      var tail := outbox[1..];
      assert forall i :: 0 <= i < |tail| ==> tail[i] == outbox[i + 1];
      RemovedUnique(tail, id);
      RemovedMembers(tail, id);
      var rest := Removed(tail, id);
      forall j | 0 <= j < |rest| ensures rest[j].id != outbox[0].id {
        assert rest[j] in tail;
      }
      UniquePrepend(outbox[0], rest);
    }
  }

  lemma UniquePrepend(r: OutboxRow, rest: seq<OutboxRow>)
    requires Unique(rest) && forall j :: 0 <= j < |rest| ==> rest[j].id != r.id
    ensures Unique([r] + rest) && [] + rest == rest
  {
    assert forall j :: 0 < j < |[r] + rest| ==> ([r] + rest)[j] == rest[j - 1];
  }

  lemma RemovedFacts(outbox: seq<OutboxRow>, id: int)
    ensures forall r :: r in Removed(outbox, id) <==> r in outbox && r.id != id
    ensures Unique(outbox) ==> Unique(Removed(outbox, id))
  {
    RemovedMembers(outbox, id);
    if Unique(outbox) { RemovedUnique(outbox, id); }
  }

  // ----- the machine -----

  /** What the process is in the middle of: replaying the outbox after a start, or
      sending the records of a poll. */
  datatype Work = Drain(rows: seq<OutboxRow>) | Tick(records: seq<Pending>)

  datatype Phase =
    | Down
    | Idle
    | Next(work: Work)                                    // on to the next row or record
    | Writing(id: int, row: LoasRow, work: Work)
    | Removing(id: int, work: Work)                       // the insert has succeeded
    | Marking(id: int, work: Work)

  /** What was read when a decision was marked sent unsent. */
  datatype Omission = Omission(rec: Pending, dusts: map<int, Dust>, allowed: set<int>)

  /** `begun` counts the inserts attempted for a decision, `completed` the sends that
      got as far as marking it sent; `skipped` are the decisions marked sent unsent. */
  datatype Machine = Machine(
    decisions: map<int, Decision>, dusts: map<int, Dust>, outbox: seq<OutboxRow>, table: seq<Delivered>,
    allowed: set<int>, phase: Phase, begun: map<int, nat>, completed: map<int, nat>, skipped: map<int, Omission>)

  datatype Action =
    | Record(id: int, dustId: Option<int>, image: string)
    | Decide(id: int, level: Level, now: int)
    | Dusts(dusts: map<int, Dust>)                        // the source table changes in any way
    | Start(filter: set<int>)
    | Replay                                              // the next row of the outbox
    | DrainEnd
    | Fetch(records: seq<Pending>)
    | Skip                                                // no measurement, or the level is filtered out
    | Queue                                               // build the row and put it in the outbox
    | TickEnd
    | Insert(applied: bool, ok: bool, counted: bool)      // an insert may raise although it took effect
    | Remove
    | MarkSent
    | Raise
    | Crash

  function Count(counts: map<int, nat>, id: int): nat {
    if id in counts then counts[id] else 0
  }

  predicate Deliverable(m: Machine, id: int) {
    id in m.decisions && m.decisions[id].final.Some? && !m.decisions[id].sent
  }

  function PendingOf(m: Machine, id: int): Pending
    requires Deliverable(m, id)
  {
    var d := m.decisions[id];
    Pending(id, d.dustId, d.final.value, d.image)
  }

  /** Distinct decided rows that are not marked sent. */
  predicate Fetched(m: Machine, records: seq<Pending>) {
    && (forall i :: 0 <= i < |records| ==> Deliverable(m, records[i].id) && records[i] == PendingOf(m, records[i].id))
    && (forall i, j :: 0 <= i < j < |records| ==> records[i].id != records[j].id)
  }

  function Found(dusts: map<int, Dust>, rec: Pending): Option<Dust> {
    if rec.dustId.Some? && rec.dustId.value in dusts then Some(dusts[rec.dustId.value]) else None
  }

  function DustOf(m: Machine, rec: Pending): Option<Dust> {
    Found(m.dusts, rec)
  }

  /** There is no measurement, or the level is filtered out. */
  predicate Excused(o: Omission) {
    Found(o.dusts, o.rec).None? || EventId(o.rec.final) !in o.allowed
  }

  function OmissionOf(m: Machine, rec: Pending): Omission {
    Omission(rec, m.dusts, m.allowed)
  }

  predicate Skipped(m: Machine, rec: Pending) {
    Excused(OmissionOf(m, rec))
  }

  predicate AtRecord(m: Machine) {
    m.phase.Next? && m.phase.work.Tick? && m.phase.work.records != []
  }

  predicate Enabled(m: Machine, a: Action) {
    match a
    case Record(id, _, _) => id !in m.decisions
    case Decide(_, _, _) => true
    case Dusts(_) => true
    case Start(_) => m.phase.Down?
    case Replay => m.phase.Next? && m.phase.work.Drain? && m.phase.work.rows != []
    case DrainEnd => m.phase.Next? && m.phase.work == Drain([])
    case Fetch(records) => m.phase.Idle? && Fetched(m, records)
    case Skip => AtRecord(m) && Skipped(m, m.phase.work.records[0])
    case Queue => AtRecord(m) && !Skipped(m, m.phase.work.records[0])
    case TickEnd => m.phase.Next? && m.phase.work == Tick([])
    case Insert(applied, ok, _) => m.phase.Writing? && (ok ==> applied)
    case Remove => m.phase.Removing?
    case MarkSent => m.phase.Marking?
    case Raise => !m.phase.Down? && !m.phase.Idle?
    case Crash => true
  }

  /** The guarded update: only a pending row is decided. */
  function Decided(decisions: map<int, Decision>, id: int, level: Level, now: int): map<int, Decision> {
    if id in decisions && decisions[id].final.None?
    then decisions[id := decisions[id].(final := Some(level), decidedAt := now)] else decisions
  }

  /** The guarded update: only an unsent row is marked. */
  function Marked(decisions: map<int, Decision>, id: int): map<int, Decision> {
    if id in decisions && !decisions[id].sent then decisions[id := decisions[id].(sent := true)] else decisions
  }

  /** An exception ends a tick; while draining it ends the process. */
  function AfterRaise(work: Work): Phase {
    if work.Drain? then Down else Idle
  }

  function AfterInsert(m: Machine, applied: bool, ok: bool, counted: bool): Machine
    requires m.phase.Writing?
  {
    var p := m.phase;
    m.(table := if applied then m.table + [Delivered(p.id, p.row)] else m.table,
       begun := m.begun[p.id := Count(m.begun, p.id) + 1],
       outbox := if !ok && counted then Bumped(m.outbox, p.id) else m.outbox,
       phase := if ok then Removing(p.id, p.work) else if counted then Idle else AfterRaise(p.work))
  }

  function Step(m: Machine, a: Action): Machine
    requires Enabled(m, a)
  {
    match a
    case Record(id, dustId, image) => m.(decisions := m.decisions[id := Decision(dustId, None, 0, image, false)])
    case Decide(id, level, now) => m.(decisions := Decided(m.decisions, id, level, now))
    case Dusts(dusts) => m.(dusts := dusts)
    case Start(filter) => m.(phase := Next(Drain(m.outbox)), allowed := if filter == {} then {0, 1, 2, 3} else filter)
    case Replay =>
      var row := m.phase.work.rows[0];
      m.(phase := Writing(row.id, row.payload, Drain(m.phase.work.rows[1..])))
    case DrainEnd => m.(phase := Idle)
    case Fetch(records) => m.(phase := Next(Tick(records)))
    case Skip =>
      var rec := m.phase.work.records[0];
      m.(decisions := Marked(m.decisions, rec.id), skipped := m.skipped[rec.id := OmissionOf(m, rec)],
         phase := Next(Tick(m.phase.work.records[1..])))
    case Queue =>
      var rec := m.phase.work.records[0];
      var row := BuildRow(rec, DustOf(m, rec).value);
      m.(outbox := Added(m.outbox, rec.id, row), phase := Writing(rec.id, row, Tick(m.phase.work.records[1..])))
    case TickEnd => m.(phase := Idle)
    case Insert(applied, ok, counted) => AfterInsert(m, applied, ok, counted)
    case Remove => m.(outbox := Removed(m.outbox, m.phase.id), phase := Marking(m.phase.id, m.phase.work))
    case MarkSent =>
      var id := m.phase.id;
      m.(decisions := Marked(m.decisions, id), completed := m.completed[id := Count(m.completed, id) + 1],
         phase := Next(m.phase.work))
    case Raise => m.(phase := AfterRaise(m.phase.work))
    case Crash => m.(phase := Down)
  }

  predicate IsRun(m: Machine, actions: seq<Action>)
    decreases |actions|
  {
    actions == [] || (Enabled(m, actions[0]) && IsRun(Step(m, actions[0]), actions[1..]))
  }

  function Run(m: Machine, actions: seq<Action>): Machine
    requires IsRun(m, actions)
    decreases |actions|
  {
    if actions == [] then m else Run(Step(m, actions[0]), actions[1..])
  }

  // ----- the invariant -----

  /** The row says what the decision says. */
  ghost predicate Faithful(decisions: map<int, Decision>, id: int, row: LoasRow) {
    && id in decisions && decisions[id].final.Some?
    && row.eventId == EventId(decisions[id].final.value) && row.image == decisions[id].image
  }

  function Copies(table: seq<Delivered>, id: int): nat {
    if table == [] then 0 else Copies(table[..|table| - 1], id) + if table[|table| - 1].id == id then 1 else 0
  }

  ghost predicate RowsOk(m: Machine) {
    && Unique(m.outbox)
    && (forall r :: r in m.outbox ==> Faithful(m.decisions, r.id, r.payload))
    && (forall d :: d in m.table ==> Faithful(m.decisions, d.id, d.row))
  }

  /** A completed send is over: the decision is sent and out of the outbox. */
  ghost predicate CountsOk(m: Machine) {
    forall id ::
      && Count(m.completed, id) <= 1 && Copies(m.table, id) <= Count(m.begun, id)
      && Count(m.completed, id) <= Copies(m.table, id)
      && (Count(m.completed, id) > 0 ==> id in m.decisions && m.decisions[id].sent && id !in Ids(m.outbox))
  }

  /** The decision as it was read had no measurement or a level that was filtered out. */
  ghost predicate RightlySkipped(m: Machine, id: int) {
    && id in m.skipped && id in m.decisions && m.decisions[id].final.Some? && m.decisions[id].sent
    && m.skipped[id].rec == Pending(id, m.decisions[id].dustId, m.decisions[id].final.value, m.decisions[id].image)
    && Excused(m.skipped[id])
  }

  ghost predicate SentOk(m: Machine) {
    && (forall id :: id in m.decisions && m.decisions[id].sent ==> Copies(m.table, id) > 0 || id in m.skipped)
    && (forall id :: id in m.skipped ==> RightlySkipped(m, id))
  }

  ghost predicate Untouched(m: Machine, id: int) {
    Count(m.completed, id) == 0 && Copies(m.table, id) == 0
  }

  /** What remains to be sent has not been sent. */
  ghost predicate WorkOk(m: Machine, work: Work) {
    match work
    case Tick(records) => Fetched(m, records)
    case Drain(rows) => Unique(rows) && forall r :: r in rows ==> r in m.outbox
  }

  ghost predicate NotIn(id: int, work: Work) {
    match work
    case Tick(records) => forall r :: r in records ==> r.id != id
    case Drain(rows) => forall r :: r in rows ==> r.id != id
  }

  ghost predicate PhaseOk(m: Machine) {
    match m.phase
    case Down => true
    case Idle => true
    case Next(work) => WorkOk(m, work)
    case Writing(id, row, work) =>
      WorkOk(m, work) && NotIn(id, work) && id in Ids(m.outbox) && Faithful(m.decisions, id, row)
    case Removing(id, work) => WorkOk(m, work) && NotIn(id, work) && id in Ids(m.outbox) && Copies(m.table, id) > 0
    case Marking(id, work) =>
      && WorkOk(m, work) && NotIn(id, work) && id !in Ids(m.outbox) && Copies(m.table, id) > 0
      && id in m.decisions && Count(m.completed, id) == 0
  }

  ghost predicate Inv(m: Machine) {
    RowsOk(m) && CountsOk(m) && SentOk(m) && PhaseOk(m)
  }

  // ----- keeping it -----

  lemma AddedFacts(outbox: seq<OutboxRow>, id: int, payload: LoasRow)
    ensures var o := Added(outbox, id, payload);
            && outbox <= o && Ids(o) == Ids(outbox) + {id}
            && (Unique(outbox) ==> Unique(o))
            && (forall r :: r in o ==> r in outbox || r == OutboxRow(id, payload, 0))
  {
    var o := Added(outbox, id, payload);
    if id !in Ids(outbox) {
      assert o[|outbox|].id == id;
      forall i | 0 <= i < |outbox| ensures outbox[i].id != id { assert outbox[i] in outbox; }
      forall x ensures x in Ids(o) <==> x in Ids(outbox) || x == id {
        if x in Ids(outbox) {
          var r :| r in outbox && r.id == x;
          assert r in o;
        }
        if x == id { assert o[|outbox|] in o; }
      }
    }
  }

  lemma RemovedIds(outbox: seq<OutboxRow>, id: int)
    ensures Ids(Removed(outbox, id)) == Ids(outbox) - {id}
  {
    RemovedFacts(outbox, id);
  }

  lemma BumpedFacts(outbox: seq<OutboxRow>, id: int)
    ensures var o := Bumped(outbox, id);
            && Ids(o) == Ids(outbox) && (Unique(outbox) ==> Unique(o))
            && (forall r :: r in o ==> exists s :: s in outbox && s.id == r.id && s.payload == r.payload)
  {
    hide Bumped;
    var o := Bumped(outbox, id);
    forall i | 0 <= i < |o| ensures o[i].id == outbox[i].id && o[i].payload == outbox[i].payload { }
    forall r | r in o ensures exists s :: s in outbox && s.id == r.id && s.payload == r.payload {
      var i :| 0 <= i < |o| && o[i] == r;
      assert outbox[i] in outbox;
    }
    BumpedIds(outbox, id);
  }

  lemma BumpedIds(outbox: seq<OutboxRow>, id: int)
    ensures Ids(Bumped(outbox, id)) == Ids(outbox)
  {
    hide Bumped;
    var o := Bumped(outbox, id);
    forall x ensures x in Ids(o) <==> x in Ids(outbox) {
      if x in Ids(outbox) {
        var s :| s in outbox && s.id == x;
        var i :| 0 <= i < |outbox| && outbox[i] == s;
        assert o[i] in o && o[i].id == x;
      }
      if x in Ids(o) {
        var r :| r in o && r.id == x;
        var i :| 0 <= i < |o| && o[i] == r;
        assert outbox[i] in outbox && outbox[i].id == x;
      }
    }
  }

  lemma CopiesMore(table: seq<Delivered>, d: Delivered)
    ensures forall id :: Copies(table + [d], id) == Copies(table, id) + if d.id == id then 1 else 0
  {
    assert (table + [d])[..|table|] == table;
  }

  /** Decisions change only by being recorded, decided once and marked sent. */
  ghost predicate Later(a: map<int, Decision>, b: map<int, Decision>) {
    forall id :: id in a ==>
      && id in b && b[id].dustId == a[id].dustId && b[id].image == a[id].image
      && (a[id].final.Some? ==> b[id].final == a[id].final) && (a[id].sent ==> b[id].sent)
  }

  /** What others may do at any time: record a decision that is still open, decide an open
      one, and change the measurements. Nothing else of the machine moves. */
  lemma Others(m: Machine, id: int, dustId: Option<int>, image: string, level: Level, now: int, dusts: map<int, Dust>)
    ensures id !in m.decisions ==>
      && Enabled(m, Record(id, dustId, image))
      && Step(m, Record(id, dustId, image))
         == m.(decisions := m.decisions[id := Decision(dustId, None, 0, image, false)])
    ensures Enabled(m, Decide(id, level, now))
    ensures Step(m, Decide(id, level, now))
         == if id in m.decisions && m.decisions[id].final == None
            then m.(decisions := m.decisions[id := m.decisions[id].(final := Some(level), decidedAt := now)]) else m
    ensures Enabled(m, Dusts(dusts)) && Step(m, Dusts(dusts)) == m.(dusts := dusts)
  {
  }

  lemma StepLater(m: Machine, a: Action)
    requires Enabled(m, a)
    ensures Later(m.decisions, Step(m, a).decisions) && m.table <= Step(m, a).table
  {
    hide Fetched, Skipped, Added, Removed, Bumped, Copies;
  }

  /** Rows stay faithful as decisions move on. */
  lemma FaithfulLater(m: Machine, decisions: map<int, Decision>)
    requires RowsOk(m) && Later(m.decisions, decisions)
    ensures RowsOk(m.(decisions := decisions))
    ensures forall id, row :: Faithful(m.decisions, id, row) ==> Faithful(decisions, id, row)
  {
  }

  lemma DecideKeeps(m: Machine, a: Action)
    requires Inv(m) && Enabled(m, a) && (a.Record? || a.Decide?)
    ensures Inv(Step(m, a))
  {
    hide Copies, Unique;
    var m' := Step(m, a);
    StepLater(m, a);
    FaithfulLater(m, m'.decisions);
    WorkLater(m, m'.decisions);
  }

  /** Records that are being sent are decided and unsent as long as nothing marks them. */
  lemma WorkLater(m: Machine, decisions: map<int, Decision>)
    requires Later(m.decisions, decisions)
    requires forall id :: id in m.decisions && m.decisions[id].final.Some? ==> decisions[id] == m.decisions[id]
    ensures forall work :: WorkOk(m, work) ==> WorkOk(m.(decisions := decisions), work)
  {
    hide Unique;
  }

  lemma StartKeeps(m: Machine, a: Action)
    requires Inv(m) && Enabled(m, a)
    requires a.Dusts? || a.Start? || a.DrainEnd? || a.TickEnd? || a.Fetch? || a.Raise? || a.Crash?
    ensures Inv(Step(m, a))
  {
    hide Excused, Copies, Unique, Fetched, Faithful, Ids, Removed, Added, Bumped, Marked, Decided;
    var m' := Step(m, a);
    assert forall work :: WorkOk(m, work) ==> WorkOk(m', work) by { WorkSame(m, m'); }
  }

  lemma WorkSame(m: Machine, m': Machine)
    requires m'.decisions == m.decisions && m'.outbox == m.outbox
    ensures forall work :: WorkOk(m, work) ==> WorkOk(m', work)
  {
    hide Unique;
  }

  lemma ReplayKeeps(m: Machine)
    requires Inv(m) && Enabled(m, Replay)
    ensures Inv(Step(m, Replay))
  {
    hide Copies, Faithful;
    var rows := m.phase.work.rows;
    assert rows[0] in rows;
    forall r | r in rows[1..] ensures r in rows && r.id != rows[0].id {
      var i :| 0 <= i < |rows[1..]| && rows[1..][i] == r;
      assert rows[i + 1] == r;
    }
    assert forall i :: 0 <= i < |rows[1..]| ==> rows[1..][i] == rows[i + 1];
  }

  lemma TailFetched(m: Machine, records: seq<Pending>)
    requires Fetched(m, records) && records != []
    ensures Fetched(m, records[1..]) && NotIn(records[0].id, Tick(records[1..]))
  {
    assert forall i :: 0 <= i < |records[1..]| ==> records[1..][i] == records[i + 1];
  }

  lemma SkipKeeps(m: Machine)
    requires Inv(m) && Enabled(m, Skip)
    ensures Inv(Step(m, Skip))
  {
    hide Copies, Unique, Excused;
    var records, m' := m.phase.work.records, Step(m, Skip);
    TailFetched(m, records);
    StepLater(m, Skip);
    FaithfulLater(m, m'.decisions);
    assert Deliverable(m, records[0].id) && records[0] == PendingOf(m, records[0].id);
    forall id | id in m'.skipped ensures RightlySkipped(m', id) {
      if id != records[0].id { assert RightlySkipped(m, id); }
    }
  }

  lemma QueueKeeps(m: Machine)
    requires Inv(m) && Enabled(m, Queue)
    ensures Inv(Step(m, Queue))
  {
    hide Copies, Unique, Added;
    var records, m' := m.phase.work.records, Step(m, Queue);
    var rec := records[0];
    TailFetched(m, records);
    AddedFacts(m.outbox, rec.id, BuildRow(rec, DustOf(m, rec).value));
    assert Deliverable(m, rec.id) && rec == PendingOf(m, rec.id);
  }

  lemma InsertKeeps(m: Machine, applied: bool, ok: bool, counted: bool)
    requires Inv(m) && Enabled(m, Insert(applied, ok, counted))
    ensures Inv(AfterInsert(m, applied, ok, counted))
  {
    hide Copies, Unique, Bumped, Faithful, RowsOk, CountsOk, SentOk, WorkOk, NotIn, Ids;
    var m' := AfterInsert(m, applied, ok, counted);
    InsertRows(m, applied, ok, counted);
    InsertCounts(m, applied, ok, counted);
    CopiesMore(m.table, Delivered(m.phase.id, m.phase.row));
    if ok { assert WorkOk(m', m.phase.work) by { WorkSame(m, m'); } }
  }

  lemma InsertRows(m: Machine, applied: bool, ok: bool, counted: bool)
    requires m.phase.Writing? && RowsOk(m) && Faithful(m.decisions, m.phase.id, m.phase.row)
    ensures var m' := AfterInsert(m, applied, ok, counted); RowsOk(m') && Ids(m'.outbox) == Ids(m.outbox)
  {
    hide Unique, Bumped, Faithful;
    BumpedFacts(m.outbox, m.phase.id);
  }

  lemma InsertCounts(m: Machine, applied: bool, ok: bool, counted: bool)
    requires m.phase.Writing? && CountsOk(m) && SentOk(m)
    requires Ids(AfterInsert(m, applied, ok, counted).outbox) == Ids(m.outbox)
    ensures var m' := AfterInsert(m, applied, ok, counted); CountsOk(m') && SentOk(m')
  {
    hide Copies, Bumped, Ids;
    CopiesMore(m.table, Delivered(m.phase.id, m.phase.row));
  }

  lemma RemoveKeeps(m: Machine)
    requires Inv(m) && Enabled(m, Remove)
    ensures Inv(Step(m, Remove))
  {
    hide Copies, Unique, Removed, Faithful;
    RemovedFacts(m.outbox, m.phase.id);
    RemovedIds(m.outbox, m.phase.id);
    InOutbox(m, m.phase.id);
  }

  lemma InOutbox(m: Machine, id: int)
    requires RowsOk(m) && CountsOk(m) && id in Ids(m.outbox)
    ensures id in m.decisions && Count(m.completed, id) == 0
  {
    hide Copies, Unique;
  }

  lemma MarkKeeps(m: Machine)
    requires Inv(m) && Enabled(m, MarkSent)
    ensures Inv(Step(m, MarkSent))
  {
    hide Copies, Unique;
    StepLater(m, MarkSent);
    FaithfulLater(m, Step(m, MarkSent).decisions);
  }

  lemma StepKeeps(m: Machine, a: Action)
    requires Inv(m) && Enabled(m, a)
    ensures Inv(Step(m, a))
  {
    hide Inv, Fetched, Skipped, Added, Removed, Bumped, Marked, Decided, BuildRow;
    match a
    case Record(_, _, _) => DecideKeeps(m, a);
    case Decide(_, _, _) => DecideKeeps(m, a);
    case Replay => ReplayKeeps(m);
    case Skip => SkipKeeps(m);
    case Queue => QueueKeeps(m);
    case Insert(applied, ok, counted) => InsertKeeps(m, applied, ok, counted);
    case Remove => RemoveKeeps(m);
    case MarkSent => MarkKeeps(m);
    case _ => StartKeeps(m, a);
  }

  // ----- runs -----

  /** Nothing sent yet: empty outbox and table; any decisions may already be decided. */
  ghost predicate Fresh(m: Machine) {
    && m.phase.Down? && m.outbox == [] && m.table == []
    && m.begun == map[] && m.completed == map[] && m.skipped == map[]
    && forall id :: id in m.decisions ==> !m.decisions[id].sent
  }

  lemma {:induction false} RunKeeps(m: Machine, actions: seq<Action>)
    requires Inv(m) && IsRun(m, actions)
    ensures Inv(Run(m, actions)) && Later(m.decisions, Run(m, actions).decisions)
    decreases |actions|
  {
    hide Inv, Enabled, Step;
    if actions != [] {
      StepKeeps(m, actions[0]);
      StepLater(m, actions[0]);
      RunKeeps(Step(m, actions[0]), actions[1..]);
    }
  }

  /** The delivery bound, over all runs: a decision has at most one completed send; the
      LOAS table holds at most as many copies as inserts were attempted, that is one
      plus the interrupted attempts; a decision is marked sent only if the table holds
      it or, when it was read, its measurement was missing or its level filtered out; and
      every copy carries the event id and the image of the decision, which never change
      once it is decided. */
  lemma DeliveryBound(m: Machine, actions: seq<Action>, id: int)
    requires Fresh(m) && IsRun(m, actions)
    ensures var end := Run(m, actions);
            var interrupted := Count(end.begun, id) - Count(end.completed, id);
            && Count(end.completed, id) <= 1 && interrupted >= 0
            && Count(end.completed, id) <= Copies(end.table, id) <= 1 + interrupted
            && (id in end.decisions && end.decisions[id].sent ==> Copies(end.table, id) > 0 || RightlySkipped(end, id))
            && (forall d :: d in end.table && d.id == id ==> Faithful(end.decisions, id, d.row))
    ensures Later(m.decisions, Run(m, actions).decisions)
  {
    hide Copies, Unique, PhaseOk;
    assert Inv(m) by { FreshInv(m); }
    RunKeeps(m, actions);
  }

  lemma FreshInv(m: Machine)
    requires Fresh(m)
    ensures Inv(m)
  {
  }

  /** Any two copies of one decision carry the same event id and image. */
  lemma CopiesAgree(m: Machine, actions: seq<Action>, i: int, j: int)
    requires Fresh(m) && IsRun(m, actions)
    requires var table := Run(m, actions).table; 0 <= i < |table| && 0 <= j < |table| && table[i].id == table[j].id
    ensures var table := Run(m, actions).table;
            table[i].row.eventId == table[j].row.eventId && table[i].row.image == table[j].row.image
  {
    var table := Run(m, actions).table;
    DeliveryBound(m, actions, table[i].id);
    hide Copies, IsRun, Run;
    assert table[i] in table && table[j] in table;
  }

  /** A decision marked sent and not skipped, none of whose inserts was interrupted, is
      in the table exactly once. */
  lemma ExactlyOnce(m: Machine, actions: seq<Action>, id: int)
    requires Fresh(m) && IsRun(m, actions)
    requires var end := Run(m, actions);
             && id in end.decisions && end.decisions[id].sent && id !in end.skipped
             && Count(end.begun, id) == Count(end.completed, id)
    ensures Copies(Run(m, actions).table, id) == 1
  {
    DeliveryBound(m, actions, id);
    hide *;
  }

  // ----- in the customer's codes -----

  /** 0 is normal, 1 caution, 2 warning, 3 danger. */
  ghost predicate Codes(eventId: int, level: Level) {
    && (eventId == 0 <==> level == Normal) && (eventId == 1 <==> level == Caution)
    && (eventId == 2 <==> level == Warning) && (eventId == 3 <==> level == Danger)
  }

  /** The measurements with which rows may be built during a run, by decision, and the
      codes they may carry. */
  function Offered(m: Machine, actions: seq<Action>): set<(int, Dust, int)>
    requires IsRun(m, actions)
    decreases |actions|
  {
    if actions == [] then {}
    else Offer(m, actions[0]) + Offered(Step(m, actions[0]), actions[1..])
  }

  /** Putting a record in the outbox offers the measurement that its dust id has then,
      with any of the codes allowed then. */
  function Offer(m: Machine, a: Action): set<(int, Dust, int)> {
    if a.Queue? && AtRecord(m) then
      var rec := m.phase.work.records[0];
      if rec.dustId.Some? && rec.dustId.value in m.dusts
      then set e | e in m.allowed :: (rec.id, m.dusts[rec.dustId.value], e) else {}
    else {}
  }

  ghost predicate RowsOffered(rows: seq<OutboxRow>, offers: set<(int, Dust, int)>) {
    forall r :: r in rows ==> (r.id, r.payload.dust, r.payload.eventId) in offers
  }

  /** All rows there are were offered. */
  ghost predicate FromOffers(m: Machine, offers: set<(int, Dust, int)>) {
    && RowsOffered(m.outbox, offers)
    && (forall d :: d in m.table ==> (d.id, d.row.dust, d.row.eventId) in offers)
    && (m.phase.Writing? ==> (m.phase.id, m.phase.row.dust, m.phase.row.eventId) in offers)
    && (!m.phase.Down? && !m.phase.Idle? && m.phase.work.Drain? ==> RowsOffered(m.phase.work.rows, offers))
  }

  lemma OffersGrow(m: Machine, offers: set<(int, Dust, int)>, more: set<(int, Dust, int)>)
    requires FromOffers(m, offers)
    ensures FromOffers(m, offers + more)
  {
  }

  lemma BumpedOffers(outbox: seq<OutboxRow>, id: int, offers: set<(int, Dust, int)>)
    requires RowsOffered(outbox, offers)
    ensures RowsOffered(Bumped(outbox, id), offers)
  {
    hide Bumped;
    forall r | r in Bumped(outbox, id) ensures (r.id, r.payload.dust, r.payload.eventId) in offers {
      var i :| 0 <= i < |outbox| && Bumped(outbox, id)[i] == r;
      assert outbox[i] in outbox;
    }
  }

  lemma InsertOffers(m: Machine, applied: bool, ok: bool, counted: bool, offers: set<(int, Dust, int)>)
    requires FromOffers(m, offers) && m.phase.Writing?
    ensures FromOffers(AfterInsert(m, applied, ok, counted), offers)
  {
    BumpedOffers(m.outbox, m.phase.id, offers);
    hide Bumped, RowsOffered;
  }

  lemma RemoveOffers(m: Machine, offers: set<(int, Dust, int)>)
    requires FromOffers(m, offers) && Enabled(m, Remove)
    ensures FromOffers(Step(m, Remove), offers)
  {
    hide Removed;
    RemovedMembers(m.outbox, m.phase.id);
  }

  lemma QueueOffers(m: Machine, offers: set<(int, Dust, int)>)
    requires FromOffers(m, offers) && Enabled(m, Queue)
    ensures FromOffers(Step(m, Queue), offers + Offer(m, Queue))
  {
    hide Added, EventId;
    var rec := m.phase.work.records[0];
    var row := BuildRow(rec, DustOf(m, rec).value);
    AddedFacts(m.outbox, rec.id, row);
    assert (rec.id, row.dust, row.eventId) in Offer(m, Queue);
  }

  lemma StepOffers(m: Machine, a: Action, offers: set<(int, Dust, int)>)
    requires FromOffers(m, offers) && Enabled(m, a)
    ensures FromOffers(Step(m, a), offers + Offer(m, a))
  {
    match a
    case Remove => RemoveOffers(m, offers);
    case Insert(applied, ok, counted) => InsertOffers(m, applied, ok, counted, offers);
    case Queue => QueueOffers(m, offers);
    case _ =>
      hide Bumped, Added, Removed, Fetched, EventId, Marked, Decided, Skipped, BuildRow, AfterInsert;
      OffersGrow(m, offers, Offer(m, a));
  }

  lemma {:induction false} RunOffers(m: Machine, actions: seq<Action>, offers: set<(int, Dust, int)>)
    requires FromOffers(m, offers) && IsRun(m, actions)
    ensures FromOffers(Run(m, actions), offers + Offered(m, actions))
    decreases |actions|
  {
    hide FromOffers, Enabled, Step, Offer;
    if actions == [] {
      assert offers + {} == offers;
    } else {
      var more := offers + Offer(m, actions[0]);
      StepOffers(m, actions[0], offers);
      RunOffers(Step(m, actions[0]), actions[1..], more);
      assert offers + Offered(m, actions) == more + Offered(Step(m, actions[0]), actions[1..]);
    }
  }

  /** The filter was configured at some start: the ids given, or all of them if none were. */
  predicate Configured(actions: seq<Action>, allowed: set<int>) {
    exists j :: 0 <= j < |actions| && actions[j].Start?
                && allowed == if actions[j].filter == {} then {0, 1, 2, 3} else actions[j].filter
  }

  ghost predicate ConfiguredInv(m: Machine, before: seq<Action>) {
    && (m.phase.Down? || Configured(before, m.allowed))
    && forall id :: id in m.skipped ==> Configured(before, m.skipped[id].allowed)
  }

  lemma ConfiguredMore(before: seq<Action>, a: Action, allowed: set<int>)
    requires Configured(before, allowed)
    ensures Configured(before + [a], allowed)
  {
    var j :| 0 <= j < |before| && before[j].Start?
             && allowed == if before[j].filter == {} then {0, 1, 2, 3} else before[j].filter;
    assert (before + [a])[j] == before[j];
  }

  lemma {:induction false} RunConfigured(m: Machine, before: seq<Action>, actions: seq<Action>)
    requires ConfiguredInv(m, before) && IsRun(m, actions)
    ensures ConfiguredInv(Run(m, actions), before + actions)
    decreases |actions|
  {
    hide Configured, Enabled, Step;
    if actions == [] {
      assert before + [] == before;
    } else {
      StepConfigured(m, before, actions[0]);
      RunConfigured(Step(m, actions[0]), before + [actions[0]], actions[1..]);
      assert before + [actions[0]] + actions[1..] == before + actions;
    }
  }

  lemma StepConfigured(m: Machine, before: seq<Action>, a: Action)
    requires ConfiguredInv(m, before) && Enabled(m, a)
    ensures ConfiguredInv(Step(m, a), before + [a])
  {
    hide Bumped, Added, Removed, Fetched, EventId, Marked, Decided, Configured, Excused, BuildRow;
    if Configured(before, m.allowed) { ConfiguredMore(before, a, m.allowed); }
    forall id | id in m.skipped ensures Configured(before + [a], m.skipped[id].allowed) {
      ConfiguredMore(before, a, m.skipped[id].allowed);
    }
    if a.Start? { StartConfigures(before, a); }
  }

  lemma StartConfigures(before: seq<Action>, a: Action)
    requires a.Start?
    ensures Configured(before + [a], if a.filter == {} then {0, 1, 2, 3} else a.filter)
  {
    assert (before + [a])[|before|] == a;
  }

  /** A decision that is marked sent and was not delivered was skipped: when it was read
      its measurement was missing, or its level was one whose code was not among those a
      start had been configured with. */
  lemma SkippedInLevels(m: Machine, actions: seq<Action>, id: int)
    requires Fresh(m) && IsRun(m, actions)
    requires var end := Run(m, actions); id in end.decisions && end.decisions[id].sent && Copies(end.table, id) == 0
    ensures var end := Run(m, actions); id in end.skipped && end.decisions[id].final.Some?
    ensures var end := Run(m, actions);
            var d, seen := end.decisions[id], end.skipped[id];
            && Configured(actions, seen.allowed)
            && (|| d.dustId.None? || d.dustId.value !in seen.dusts
                || (d.final.value == Normal && 0 !in seen.allowed) || (d.final.value == Caution && 1 !in seen.allowed)
                || (d.final.value == Warning && 2 !in seen.allowed) || (d.final.value == Danger && 3 !in seen.allowed))
  {
    DeliveryBound(m, actions, id);
    RunConfigured(m, [], actions);
    hide Run, IsRun, Configured, Copies;
    assert [] + actions == actions;
  }

  /** Some start was configured with this code, or without any filter. */
  predicate Permitted(actions: seq<Action>, code: int) {
    exists j :: 0 <= j < |actions| && actions[j].Start?
                && if actions[j].filter == {} then 0 <= code <= 3 else code in actions[j].filter
  }

  lemma {:induction false} RunPermits(m: Machine, before: seq<Action>, actions: seq<Action>)
    requires ConfiguredInv(m, before) && IsRun(m, actions)
    ensures forall o :: o in Offered(m, actions) ==> Permitted(before + actions, o.2)
    decreases |actions|
  {
    hide Configured, Enabled, Step, Permitted;
    if actions != [] {
      StepConfigured(m, before, actions[0]);
      RunPermits(Step(m, actions[0]), before + [actions[0]], actions[1..]);
      assert before + [actions[0]] + actions[1..] == before + actions;
      forall o | o in Offer(m, actions[0]) ensures Permitted(before + actions, o.2) {
        OfferPermitted(m, before, actions, o.2);
      }
    }
  }

  lemma OfferPermitted(m: Machine, before: seq<Action>, actions: seq<Action>, code: int)
    requires Configured(before, m.allowed) && code in m.allowed
    ensures Permitted(before + actions, code)
  {
    var j :| 0 <= j < |before| && before[j].Start?
             && m.allowed == if before[j].filter == {} then {0, 1, 2, 3} else before[j].filter;
    assert (before + actions)[j] == before[j];
  }

  lemma CodesPermitted(m: Machine, actions: seq<Action>)
    requires Fresh(m) && IsRun(m, actions)
    ensures forall o :: o in Offered(m, actions) ==> Permitted(actions, o.2)
  {
    RunPermits(m, [], actions);
    hide IsRun, Offered, Permitted;
    assert [] + actions == actions;
  }

  lemma RowOffered(m: Machine, actions: seq<Action>, d: Delivered)
    requires Fresh(m) && IsRun(m, actions) && d in Run(m, actions).table
    ensures (d.id, d.row.dust, d.row.eventId) in Offered(m, actions)
  {
    RunOffers(m, actions, {});
    hide Run, IsRun, Offered;
    assert {} + Offered(m, actions) == Offered(m, actions);
  }

  /** Every delivered row, in the customer's codes: 0 for a normal decision, 1 for caution,
      2 for a warning, 3 for danger; with the decision's image; with a measurement that the
      decision's dust id had when the row was built; and with a code that a start had been
      configured with. */
  lemma DeliveredInCodes(m: Machine, actions: seq<Action>, d: Delivered)
    requires Fresh(m) && IsRun(m, actions) && d in Run(m, actions).table
    ensures var end := Run(m, actions);
            && d.id in end.decisions && end.decisions[d.id].final.Some?
            && Codes(d.row.eventId, end.decisions[d.id].final.value)
            && d.row.image == end.decisions[d.id].image
            && (d.id, d.row.dust, d.row.eventId) in Offered(m, actions)
            && Permitted(actions, d.row.eventId)
  {
    hide Run, IsRun, Offered, Permitted, Copies, FromOffers, Fresh, RightlySkipped;
    DeliveryBound(m, actions, d.id);
    RowOffered(m, actions, d);
    CodesPermitted(m, actions);
  }

  // ----- the bound is reached -----

  lemma {:induction false} Chain(m: Machine, acts: seq<Action>, states: seq<Machine>)
    requires |states| == |acts| + 1 && states[0] == m
    requires forall k :: 0 <= k < |acts| ==> Enabled(states[k], acts[k]) && Step(states[k], acts[k]) == states[k + 1]
    ensures IsRun(m, acts) && Run(m, acts) == states[|acts|]
    decreases |acts|
  {
    hide Enabled, Step;
    if acts != [] {
      assert Enabled(states[0], acts[0]) && Step(states[0], acts[0]) == states[1];
      var rest := states[1..];
      forall k | 0 <= k < |acts[1..]|
        ensures Enabled(rest[k], acts[1..][k]) && Step(rest[k], acts[1..][k]) == rest[k + 1]
      {
        assert rest[k] == states[k + 1] && acts[1..][k] == acts[k + 1];
      }
      Chain(states[1], acts[1..], rest);
    }
  }

  lemma OneRow(id: int, row: LoasRow)
    ensures Added([], id, row) == [OutboxRow(id, row, 0)] && Removed([OutboxRow(id, row, 0)], id) == []
  {
    assert [OutboxRow(id, row, 0)][1..] == [];
    assert Ids([]) == {};
  }

  lemma {:induction false} RunConcat(m: Machine, a: seq<Action>, b: seq<Action>)
    requires IsRun(m, a) && IsRun(Run(m, a), b)
    ensures IsRun(m, a + b) && Run(m, a + b) == Run(Run(m, a), b)
    decreases |a|
  {
    hide Enabled, Step;
    if a == [] {
      assert a + b == b;
    } else {
      assert (a + b)[1..] == a[1..] + b && (a + b)[0] == a[0];
      RunConcat(Step(m, a[0]), a[1..], b);
    }
  }

  /** A start with an empty outbox, and a poll that finds one record. */
  lemma Polls(m: Machine, rec: Pending) returns (acts: seq<Action>)
    requires m.phase.Down? && m.outbox == [] && Fetched(m, [rec])
    ensures IsRun(m, acts) && Run(m, acts) == m.(allowed := {0, 1, 2, 3}, phase := Next(Tick([rec])))
  {
    hide Copies, Added, Removed, Marked, Decided, Bumped, BuildRow;
    var m1 := m.(phase := Next(Drain([])), allowed := {0, 1, 2, 3});
    var m2 := m1.(phase := Idle);
    acts := [Start({}), DrainEnd, Fetch([rec])];
    Chain(m, acts, [m, m1, m2, m2.(phase := Next(Tick([rec])))]);
  }

  /** After a restart the outbox row is replayed and inserted again. */
  lemma Replays(m: Machine, id: int, row: LoasRow) returns (acts: seq<Action>)
    requires m.phase.Down? && m.outbox == [OutboxRow(id, row, 0)]
    ensures IsRun(m, acts)
    ensures Run(m, acts) == m.(allowed := {0, 1, 2, 3}, table := m.table + [Delivered(id, row)],
                               begun := m.begun[id := Count(m.begun, id) + 1], phase := Removing(id, Drain([])))
  {
    hide Copies, Added, Removed, Marked, Decided, Bumped, BuildRow;
    var m1 := m.(phase := Next(Drain(m.outbox)), allowed := {0, 1, 2, 3});
    assert m1.phase.work.rows[1..] == [];
    var m2 := m1.(phase := Writing(id, row, Drain([])));
    acts := [Start({}), Replay, Insert(true, true, false)];
    Chain(m, acts, [m, m1, m2, m2.(table := m.table + [Delivered(id, row)],
                                   begun := m.begun[id := Count(m.begun, id) + 1],
                                   phase := Removing(id, Drain([])))]);
  }

  /** ... and completed. */
  lemma Completes(m: Machine) returns (acts: seq<Action>)
    requires m.phase.Removing?
    ensures IsRun(m, acts)
    ensures var end := Run(m, acts);
            && end.table == m.table && end.begun == m.begun
            && end.completed == m.completed[m.phase.id := Count(m.completed, m.phase.id) + 1]
  {
    hide Copies, Added, Removed, Marked, Decided, Bumped, BuildRow;
    var m1 := Step(m, Remove);
    acts := [Remove, MarkSent];
    Chain(m, acts, [m, m1, Step(m1, MarkSent)]);
  }

  /** The record is queued and inserted without a crash. */
  lemma Inserts(m: Machine, rec: Pending, dust: Dust) returns (acts: seq<Action>)
    requires m.phase == Next(Tick([rec])) && m.allowed == {0, 1, 2, 3} && m.outbox == []
    requires DustOf(m, rec) == Some(dust)
    ensures IsRun(m, acts)
    ensures var row := BuildRow(rec, dust);
            Run(m, acts) == m.(outbox := [OutboxRow(rec.id, row, 0)], table := m.table + [Delivered(rec.id, row)],
                               begun := m.begun[rec.id := Count(m.begun, rec.id) + 1],
                               phase := Removing(rec.id, Tick([])))
  {
    hide Copies, Added, Removed, Marked, Decided, Bumped, BuildRow, Found;
    var row := BuildRow(rec, dust);
    OneRow(rec.id, row);
    assert [rec][1..] == [];
    var m1 := m.(outbox := [OutboxRow(rec.id, row, 0)], phase := Writing(rec.id, row, Tick([])));
    acts := [Queue, Insert(true, true, false)];
    Chain(m, acts, [m, m1, m1.(table := m.table + [Delivered(rec.id, row)],
                               begun := m.begun[rec.id := Count(m.begun, rec.id) + 1],
                               phase := Removing(rec.id, Tick([])))]);
  }

  /** Right after the insert the process dies; and so it does `n` times more, each time
      after the outbox row has been replayed and inserted again. */
  lemma {:induction false} DiesAgain(m: Machine, id: int, row: LoasRow, n: nat) returns (acts: seq<Action>)
    requires m.phase.Removing? && m.outbox == [OutboxRow(id, row, 0)] && m.phase.id == id
    ensures IsRun(m, acts)
    ensures var end := Run(m, acts);
            && end.phase.Removing? && end.phase.id == id && end.outbox == m.outbox && end.completed == m.completed
            && Copies(end.table, id) == Copies(m.table, id) + n && Count(end.begun, id) == Count(m.begun, id) + n
  {
    hide IsRun, Run, Enabled, Step;
    acts := [];
    Chain(m, [], [m]);
    if n > 0 {
      acts := DiesAgain(m, id, row, n - 1);
      var mid := Run(m, acts);
      Dying(mid);
      RunConcat(m, acts, [Crash]);
      var down := mid.(phase := Down);
      var again := Replays(down, id, row);
      CopiesMore(down.table, Delivered(id, row));
      RunConcat(m, acts + [Crash], again);
      acts := acts + [Crash] + again;
    }
  }

  lemma Dying(m: Machine)
    ensures IsRun(m, [Crash]) && Run(m, [Crash]) == m.(phase := Down)
  {
    hide Copies, Added, Removed, Marked, Decided, Bumped, BuildRow;
    Chain(m, [Crash], [m, m.(phase := Down)]);
  }

  /** The bound is reached whatever the number of interruptions: `n` crashes, each right
      after an insert, and the table, which has no key against it, holds `n + 1` copies
      of a decision whose send is completed in the end. */
  lemma DuplicateAfterCrash(id: int, level: Level, image: string, dust: Dust, n: nat)
    returns (m: Machine, acts: seq<Action>)
    ensures Fresh(m) && IsRun(m, acts)
    ensures var end := Run(m, acts);
            Copies(end.table, id) == n + 1 && Count(end.begun, id) == n + 1 && Count(end.completed, id) == 1
  {
    hide IsRun, Run, Copies, BuildRow;
    m := Machine(map[id := Decision(Some(0), Some(level), 0, image, false)], map[0 := dust], [], [], {}, Down, map[],
                 map[], map[]);
    var rec := Pending(id, Some(0), level, image);
    var row := BuildRow(rec, dust);
    var a := Polls(m, rec);
    var b := Inserts(Run(m, a), rec, dust);
    RunConcat(m, a, b);
    var c := DiesAgain(Run(m, a + b), id, row, n);
    RunConcat(m, a + b, c);
    var d := Completes(Run(m, a + b + c));
    RunConcat(m, a + b + c, d);
    acts := a + b + c + d;
    OneCopy(Delivered(id, row));
  }

  lemma OneCopy(d: Delivered)
    ensures Copies([] + [d], d.id) == 1
  {
    CopiesMore([], d);
  }
}
