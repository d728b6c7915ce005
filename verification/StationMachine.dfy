/** One station's poller as a state machine: every action is at most one Redis
    command, so that a crash or an exception can fall between any two of them. */
module StationMachine {
  import opened Wrappers
  import opened Buckets
  import opened BoxStats
  import opened Samples
  import opened CandleStore
  import opened Freezer
  import opened Backfill

  /** What the process keeps in memory. */
  datatype Task = Task(
    lastKeys: map<Unit, string>, pending: map<Unit, PendingFreeze>, dirty: set<Bucket>)

  const NEW_TASK := Task(map[], map[], {})

  datatype Phase =
    | Down
    | ColdStart(rows: seq<Sample>, done: nat)
    | Ready(lastId: int)
    | Filing(lastId: int, batch: seq<Sample>, i: nat, u: nat)
    | Recomputing(lastId: int, batch: seq<Sample>)
    | Freezing(lastId: int, nextId: int, due: seq<Bucket>)

  /** The sample table, the station's Redis keys, the process's memory and where it
      is. `limit` is the configured batch limit, `grace` the grace period. */
  datatype Machine = Machine(
    table: seq<Sample>, store: Store, task: Task, phase: Phase, limit: nat, grace: real)

  datatype Action =
    | Arrive(sample: Sample)
    | Boot(limit: nat, grace: real)   // read the settings and the cursor: warm or cold start
    | BackfillWrite             // the next write of a cold start
    | BackfillEnd
    | Fetch(now: real)          // read a batch; without samples go on to the freezes
    | NoteBoundary(now: real)   // the sample at hand lies in another bucket than the one before
    | FileSample                // add it to the bucket's live set
    | MoveCursor
    | Recompute(bucket: Bucket) // store the live candle of a dirty bucket
    | RecomputeEnd(now: real)
    | WriteFrozen               // freeze the next due bucket that has live values
    | DropDue                   // forget the next due bucket
    | TickEnd
    | Fail(dirty: set<Bucket>)  // an exception: dirty marks may be lost, and the tick is retried from the old id
    | Crash                     // the process dies; memory is lost

  function LastKeysAt(at: Time): map<Unit, string> {
    map u | u in UNITS :: BucketKey(at, u)
  }

  /** The bucket the current sample of the filing loop goes to. */
  function Target(p: Phase): Bucket
    requires p.Filing? && p.i < |p.batch| && p.u < |UNITS|
  {
    BucketOf(p.batch[p.i], UNITS[p.u])
  }

  predicate AtSample(m: Machine) {
    m.phase.Filing? && m.phase.i < |m.phase.batch| && m.phase.u < |UNITS|
  }

  /** The last-seen key of the unit is already the current sample's. */
  predicate KeySeen(m: Machine)
    requires AtSample(m)
  {
    var b := Target(m.phase);
    b.unit in m.task.lastKeys && m.task.lastKeys[b.unit] == b.key
  }

  predicate Running(p: Phase) {
    p.Ready? || p.Filing? || p.Recomputing? || p.Freezing?
  }

  predicate Enabled(m: Machine, a: Action) {
    match a
    case Arrive(s) =>
      s.id > 0 && (m.table != [] ==>
        var last := m.table[|m.table| - 1];
        last.id < s.id && Calendar.Instant(last.at) <= Calendar.Instant(s.at))
    case Boot(limit, _) => m.phase.Down? && limit > 0
    case BackfillWrite => m.phase.ColdStart? && m.phase.rows != [] && m.phase.done < |ColdWrites(m.phase.rows)|
    case BackfillEnd => m.phase.ColdStart? && (m.phase.rows == [] || m.phase.done == |ColdWrites(m.phase.rows)|)
    case Fetch(_) => m.phase.Ready?
    case NoteBoundary(_) => AtSample(m) && !KeySeen(m)
    case FileSample => AtSample(m) && KeySeen(m)
    case MoveCursor => m.phase.Filing? && m.phase.batch != [] && m.phase.i == |m.phase.batch| && m.phase.u == 0
    case Recompute(b) => m.phase.Recomputing? && m.phase.batch != [] && b in m.task.dirty
    case RecomputeEnd(_) => m.phase.Recomputing? && m.phase.batch != [] && m.task.dirty == {}
    case WriteFrozen =>
      && m.phase.Freezing? && m.phase.due != []
      && ScoreOrder(LiveOf(m.store, m.phase.due[0])) != []
      && InferTime(m.phase.due[0].key, m.phase.due[0].unit).Some?
    case DropDue => m.phase.Freezing? && m.phase.due != [] && ScoreOrder(LiveOf(m.store, m.phase.due[0])) == []
    case TickEnd => m.phase.Freezing? && m.phase.due == []
    case Fail(dirty) => Running(m.phase) && dirty <= m.task.dirty
    case Crash => true
  }

  function AfterBoot(m: Machine): Machine {
    match m.store.cursor
    case None => m.(phase := ColdStart(m.table, 0), task := NEW_TASK)
    case Some(c) =>
      m.(phase := Ready(c.lastId), task := NEW_TASK.(lastKeys := LastKeysAt(c.lastSampledAt)))
  }

  function AfterBackfill(m: Machine): Machine
    requires m.phase.ColdStart?
  {
    var rows := m.phase.rows;
    if rows == [] then m.(phase := Ready(0), task := NEW_TASK) else
    var last := rows[|rows| - 1];
    m.(phase := Ready(last.id), task := NEW_TASK.(lastKeys := LastKeysAt(last.at)))
  }

  /** The unit's previous bucket is scheduled, if there was one. */
  function AfterBoundary(t: Task, b: Bucket, readyAt: real): Task {
    t.(pending := if b.unit in t.lastKeys
                  then Scheduled(t.pending, b.unit, t.lastKeys[b.unit], readyAt) else t.pending,
       lastKeys := t.lastKeys[b.unit := b.key])
  }

  function AfterFiling(m: Machine): Machine
    requires AtSample(m)
  {
    var p, b := m.phase, Target(m.phase);
    var s := p.batch[p.i];
    m.(store := Apply(m.store, AddLiveRaw(b, s.id, s.value)),
       task := m.task.(dirty := m.task.dirty + {b}),
       phase := if p.u + 1 < |UNITS| then p.(u := p.u + 1) else p.(i := p.i + 1, u := 0))
  }

  /** The live candle is stored only if the bucket has live values. */
  function AfterRecompute(m: Machine, b: Bucket): Machine
    requires m.phase.Recomputing? && m.phase.batch != []
  {
    var values := ScoreOrder(LiveOf(m.store, b));
    var at := m.phase.batch[|m.phase.batch| - 1].at;
    m.(task := m.task.(dirty := m.task.dirty - {b}),
       store := if values == [] then m.store
                else Apply(m.store, SetLiveStats(b, Stored(StatsOf(values), Some(at)))))
  }

  function FrozenWrite(s: Store, b: Bucket): Write
    requires ScoreOrder(LiveOf(s, b)) != [] && InferTime(b.key, b.unit).Some?
  {
    FreezeBucket(b, Stored(StatsOf(ScoreOrder(LiveOf(s, b))), None), FreezeScore(b))
  }

  function Next(m: Machine, a: Action): Machine
    requires Enabled(m, a)
  {
    var p := m.phase;
    match a
    case Arrive(s) => m.(table := m.table + [s])
    case Boot(limit, grace) => AfterBoot(m.(limit := limit, grace := grace))
    case BackfillWrite =>
      m.(store := Apply(m.store, ColdWrites(p.rows)[p.done]), phase := p.(done := p.done + 1))
    case BackfillEnd => AfterBackfill(m)
    case Fetch(now) =>
      var batch := FetchSince(m.table, p.lastId, m.limit);
      if batch == [] then m.(phase := Freezing(p.lastId, p.lastId, Due(m.task.pending, now)))
      else m.(phase := Filing(p.lastId, batch, 0, 0))
    case NoteBoundary(now) => m.(task := AfterBoundary(m.task, Target(p), now + m.grace))
    case FileSample => AfterFiling(m)
    case MoveCursor =>
      var last := p.batch[|p.batch| - 1];
      m.(store := Apply(m.store, SetCursor(Cursor(last.id, last.at))), phase := Recomputing(p.lastId, p.batch))
    case Recompute(b) => AfterRecompute(m, b)
    case RecomputeEnd(now) =>
      m.(phase := Freezing(p.lastId, p.batch[|p.batch| - 1].id, Due(m.task.pending, now)))
    case WriteFrozen => m.(store := Apply(m.store, FrozenWrite(m.store, p.due[0])))
    case DropDue =>
      m.(task := m.task.(pending := Dropped(m.task.pending, p.due[0])), phase := p.(due := p.due[1..]))
    case TickEnd => m.(phase := Ready(p.nextId))
    case Fail(dirty) => m.(phase := Ready(p.lastId), task := m.task.(dirty := dirty))
    case Crash => m.(phase := Down, task := NEW_TASK)
  }

  /** A run: each action is enabled where it is taken. */
  predicate IsRun(m: Machine, actions: seq<Action>)
    decreases |actions|
  {
    actions == [] || (Enabled(m, actions[0]) && IsRun(Next(m, actions[0]), actions[1..]))
  }

  function Run(m: Machine, actions: seq<Action>): Machine
    requires IsRun(m, actions)
    decreases |actions|
  {
    if actions == [] then m else Run(Next(m, actions[0]), actions[1..])
  }

  lemma {:induction false} RunConcat(m: Machine, a: seq<Action>, b: seq<Action>)
    requires IsRun(m, a) && IsRun(Run(m, a), b)
    ensures IsRun(m, a + b) && Run(m, a + b) == Run(Run(m, a), b)
    decreases |a|
  {
    hide Enabled, Next;
    if a == [] {
      assert a + b == b;
    } else {
      assert (a + b)[1..] == a[1..] + b && (a + b)[0] == a[0];
      RunConcat(Next(m, a[0]), a[1..], b);
    }
  }
}
