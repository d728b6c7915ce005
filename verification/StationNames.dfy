/** What happens to one station name: its row in the database, its keys in Redis, the
    poller's reconcile pass and the API's conflict resolutions, interleaved command by
    command. */
module StationNames {
  import opened Wrappers

  /** The keys a station's task writes. Only a cursor or a frozen index shows that
      there are any. */
  datatype Kind = CursorKey | LiveKeys | FrozenKeys | IndexKeys

  /** The old id is unknown if only remnant data gave the conflict away. */
  datatype Conflict = Conflict(old_: Option<int>, new_: int)

  /** Where the reconcile pass is with this name. */
  datatype Rec =
    | Booting
    | Quiet
    | Turn(published: Option<int>, found: Option<int>)
    | ReadMarker(current: int)
    | Probe(current: int)
    | SetConflict(conflict: Conflict)
    | Starting(current: int)
    | ClearMarker
    | Stopping(id: int, next: Option<Conflict>)

  /** How far a resolve request has got. */
  datatype Request =
    | Opened(wipe: bool)
    | Wiping(kinds: seq<Kind>)
    | Unmarking
    | Carrying(new_: Option<int>)
    | Clearing

  /** A resolve request, the conflict it was opened for and the command it does next. */
  datatype Call = Call(era: nat, next: Request)

  /** `running` is the poller's memory, `alive` whether a task may still write. `writer`
      wrote the data last, `heirs` are the ids to which it has been carried over since,
      `era` numbers the conflicts raised so far. */
  datatype Name = Name(
    db: Option<int>, published: Option<int>, removed: Option<int>, conflict: Option<Conflict>, era: nat,
    data: set<Kind>, writer: int, heirs: set<int>,
    running: Option<int>, alive: Option<int>, rec: Rec, requests: map<int, Call>)

  datatype Action =
    | DbChange(id: Option<int>)
    | Boot
    | Look                              // a reconcile pass begins: read the database, publish it
    | Advance                           // its next command for this name
    | ClearFails                        // the marker could not be cleared; the station task runs all the same
    | StopUnrecorded                    // the marker could not be written; the station task is stopped all the same
    | Stopped
    | TaskWrite(data: set<Kind>)
    | TaskEnds
    | Open(k: int, wipe: bool)         // a resolve request finds a conflict
    | Proceed(k: int)                   // its next command

  const EMPTY_NAME := Name(None, None, None, None, 0, {}, 0, {}, None, None, Booting, map[])

  const WIPE_ORDER: seq<Kind> := [CursorKey, LiveKeys, FrozenKeys, IndexKeys]

  predicate Visible(data: set<Kind>) {
    CursorKey in data || IndexKeys in data
  }

  /** The data is this id's own, or was carried over to it, or there is none. */
  predicate MayTake(m: Name, id: int) {
    m.data == {} || m.writer == id || id in m.heirs
  }

  predicate Enabled(m: Name, a: Action) {
    match a
    case DbChange(_) => true
    case Boot => m.rec.Booting?
    case Look => m.rec.Quiet?
    case Advance => !m.rec.Booting? && !m.rec.Quiet? && !m.rec.Stopping?
    case ClearFails => m.rec.ClearMarker?
    case StopUnrecorded => m.rec.Turn? && AfterTurn(m).rec.Stopping?
    case Stopped => m.rec.Stopping?
    case TaskWrite(data) => m.alive.Some? && data != {}
    case TaskEnds => m.alive.Some?
    case Open(k, _) => k !in m.requests && m.conflict.Some?
    case Proceed(k) => k in m.requests
  }

  /** A task is taken off and the id it ran under is remembered; it may still write
      until it has stopped. */
  function Stop(m: Name, next: Option<Conflict>): Name
    requires m.running.Some?
  {
    var id := m.running.value;
    m.(running := None, removed := Some(id), rec := Stopping(id, next))
  }

  /** The turn of this name in a reconcile pass, up to its first write. */
  function AfterTurn(m: Name): Name
    requires m.rec.Turn?
  {
    var current := m.rec.found;
    if current.None? then
      if m.rec.published.Some? && m.running.Some? then Stop(m, None) else m.(rec := Quiet)
    else if m.conflict.Some? then
      if m.running.Some? then Stop(m, None) else m.(rec := Quiet)
    else if m.running.None? then m.(rec := ReadMarker(current.value))
    else if m.running == current then m.(rec := Quiet)
    else Stop(m, Some(Conflict(m.running, current.value)))
  }

  function AfterAdvance(m: Name): Name
    requires Enabled(m, Advance)
  {
    match m.rec
    case Turn(_, _) => AfterTurn(m)
    case ReadMarker(c) =>
      if m.removed.None? then m.(rec := Probe(c))
      else if m.removed.value != c then m.(rec := SetConflict(Conflict(m.removed, c)))
      else m.(rec := Starting(c))
    case Probe(c) => if Visible(m.data) then m.(rec := SetConflict(Conflict(None, c))) else m.(rec := Starting(c))
    case SetConflict(conflict) => m.(conflict := Some(conflict), era := m.era + 1, rec := Quiet)
    case Starting(c) => m.(running := Some(c), alive := Some(c), rec := ClearMarker)
    case ClearMarker => m.(removed := None, rec := Quiet)
  }

  function At(m: Name, k: int, next: Request): Name
    requires k in m.requests
  {
    m.(requests := m.requests[k := m.requests[k].(next := next)])
  }

  /** The next command of a resolve request; publishing the sync trigger comes after. */
  function AfterProceed(m: Name, k: int): Name
    requires k in m.requests
  {
    match m.requests[k].next
    case Opened(true) => At(m, k, Wiping(WIPE_ORDER))
    case Opened(false) => At(m, k, Carrying(if m.conflict.Some? then Some(m.conflict.value.new_) else None))
    case Wiping(kinds) =>
      if kinds == [] then At(m, k, Unmarking)
      else At(m, k, Wiping(kinds[1..])).(data := m.data - {kinds[0]})
    case Unmarking => At(m, k, Clearing).(removed := None)
    case Carrying(None) => At(m, k, Clearing)
    case Carrying(Some(id)) => At(m, k, Clearing).(removed := Some(id), heirs := m.heirs + {id})
    case Clearing => m.(conflict := None, requests := m.requests - {k})
  }

  function Next(m: Name, a: Action): Name
    requires Enabled(m, a)
  {
    match a
    case DbChange(id) => m.(db := id)
    case Boot => m.(published := m.db, rec := if m.db.Some? && m.conflict.None? then Starting(m.db.value) else Quiet)
    case Look => m.(published := m.db, rec := Turn(m.published, m.db))
    case Advance => AfterAdvance(m)
    case ClearFails => m.(rec := Quiet)
    case StopUnrecorded => AfterTurn(m).(removed := m.removed)
    case Stopped =>
      m.(alive := None, rec := if m.rec.next.Some? then SetConflict(m.rec.next.value) else Quiet)
    case TaskWrite(data) => m.(data := data, writer := m.alive.value, heirs := {})
    case TaskEnds => m.(alive := None)
    case Open(k, wipe) => m.(requests := m.requests[k := Call(m.era, Opened(wipe))])
    case Proceed(k) => AfterProceed(m, k)
  }

  predicate IsRun(m: Name, actions: seq<Action>)
    decreases |actions|
  {
    actions == [] || (Enabled(m, actions[0]) && IsRun(Next(m, actions[0]), actions[1..]))
  }

  function Run(m: Name, actions: seq<Action>): Name
    requires IsRun(m, actions)
    decreases |actions|
  {
    if actions == [] then m else Run(Next(m, actions[0]), actions[1..])
  }

  /** Every action of the run follows the rule in the state in which it is taken. */
  predicate Every(m: Name, actions: seq<Action>, rule: (Name, Action) -> bool)
    requires IsRun(m, actions)
    decreases |actions|
  {
    actions == [] || (rule(m, actions[0]) && Every(Next(m, actions[0]), actions[1..], rule))
  }

  // ----- re-registration safety -----

  /** A task is about to be started under an id that has no claim to the data. */
  predicate Misused(m: Name) {
    m.rec.Starting? && !MayTake(m, m.rec.current)
  }

  /** The conflict the request was opened for is not pending any more. */
  predicate Stale(m: Name, k: int)
    requires k in m.requests
  {
    m.conflict.None? || m.requests[k].era != m.era
  }

  /** The request's next command clears or sets the marker. */
  predicate WritesMarker(m: Name, k: int)
    requires k in m.requests
  {
    var next := m.requests[k].next;
    next.Unmarking? || (next.Carrying? && next.new_.Some?)
  }

  /** Every stop leaves its marker, and while no task is registered a request writes the
      marker only if the conflict it was opened for is still pending. */
  predicate Orderly(m: Name, a: Action) {
    && !a.StopUnrecorded?
    && (a.Proceed? && a.k in m.requests && WritesMarker(m, a.k) ==> m.running.Some? || !Stale(m, a.k))
  }

  /** The marker names an id that may take the data, or there is no data. */
  predicate Marked(m: Name) {
    m.data != {} ==> m.removed.Some? && MayTake(m, m.removed.value)
  }

  /** Nobody runs, nobody writes, and no conflict is pending. */
  predicate Free(m: Name) {
    m.running.None? && m.alive.None? && m.conflict.None?
  }

  /** Tasks and conflicts exclude each other; requests are never ahead of the conflicts. */
  predicate Apart(m: Name) {
    && (m.running.Some? ==> m.conflict.None? && MayTake(m, m.running.value))
    && (m.running.Some? && m.alive.Some? ==> m.alive == m.running)
    && (m.alive.Some? && m.running.None? ==> m.rec.Stopping? && m.alive == Some(m.rec.id))
    && (m.conflict.Some? ==> m.rec.Quiet? || m.rec.Turn?)
    && (forall k :: k in m.requests ==> m.requests[k].era <= m.era)
  }

  predicate RecOk(m: Name) {
    match m.rec
    case Booting => Free(m) && m.data == {} && m.removed.None?
    case Quiet => m.running.None? ==> m.alive.None? && Marked(m)
    case Turn(_, _) => m.running.None? ==> m.alive.None? && Marked(m)
    case ReadMarker(_) => Free(m) && Marked(m)
    case Probe(_) => Free(m) && m.data == {}
    case SetConflict(_) => Free(m) && Marked(m)
    case Starting(c) => Free(m) && MayTake(m, c)
    case ClearMarker => m.running.Some?
    case Stopping(id, _) => m.running.None? && m.conflict.None? && m.removed == Some(id) && MayTake(m, id)
  }

  /** How far a request has got that is not stale. */
  predicate Reached(m: Name, r: Request) {
    match r
    case Wiping(kinds) => forall kind :: kind in m.data ==> kind in kinds
    case Unmarking => m.data == {}
    case Carrying(new_) => new_.Some?
    case _ => true
  }

  /** What an orderly run keeps. */
  predicate Inv(m: Name) {
    && Apart(m)
    && RecOk(m)
    && (forall k :: k in m.requests && !Stale(m, k) ==> Reached(m, m.requests[k].next))
  }

  lemma AllKinds(data: set<Kind>)
    ensures forall kind :: kind in data ==> kind in WIPE_ORDER
  {
    assert WIPE_ORDER[0] == CursorKey && WIPE_ORDER[1] == LiveKeys;
    assert WIPE_ORDER[2] == FrozenKeys && WIPE_ORDER[3] == IndexKeys;
    forall kind | kind in data ensures kind in WIPE_ORDER {
      match kind case CursorKey => case LiveKeys => case FrozenKeys => case IndexKeys =>
    }
  }

  lemma ProceedKeeps(m: Name, k: int)
    requires Inv(m) && k in m.requests && Orderly(m, Proceed(k))
    ensures Inv(AfterProceed(m, k))
  {
    AllKinds(m.data);
    match m.requests[k].next
    case Wiping(kinds) => if kinds != [] { assert kinds == [kinds[0]] + kinds[1..]; }
    case _ =>
  }

  lemma AdvanceKeeps(m: Name)
    requires Inv(m) && Enabled(m, Advance)
    ensures Inv(AfterAdvance(m))
  {
  }

  lemma StepKeeps(m: Name, a: Action)
    requires Inv(m) && Enabled(m, a) && Orderly(m, a)
    ensures Inv(Next(m, a))
  {
    hide AfterProceed, AfterAdvance;
    match a
    case Proceed(k) => ProceedKeeps(m, k);
    case Advance => AdvanceKeeps(m);
    case _ =>
  }

  lemma {:induction false} RunKeeps(m: Name, actions: seq<Action>)
    requires Inv(m) && IsRun(m, actions) && Every(m, actions, Orderly)
    ensures Inv(Run(m, actions))
    decreases |actions|
  {
    hide Inv, Enabled, Next, Orderly;
    if actions != [] {
      StepKeeps(m, actions[0]);
      RunKeeps(Next(m, actions[0]), actions[1..]);
    }
  }

  /** Re-registration safety: in one poller run from empty Redis, however resolve requests
      overlap, no task is started under an id that neither wrote the data last nor had it
      carried over, unless the data was wiped - as long as stops leave their marker and
      no request writes the marker late, that is, without a task and after its conflict. */
  lemma NeverMisused(actions: seq<Action>)
    requires IsRun(EMPTY_NAME, actions) && Every(EMPTY_NAME, actions, Orderly)
    ensures !Misused(Run(EMPTY_NAME, actions))
  {
    RunKeeps(EMPTY_NAME, actions);
  }

  // ----- what an idle name needs -----

  /** Nothing shows that there is data: no cursor and no frozen index, only what the
      probe does not look at. */
  predicate Hidden(data: set<Kind>) {
    data != {} && !Visible(data)
  }

  /** Between passes, with no task and no conflict of this name. */
  predicate Idle(m: Name) {
    m.rec.Quiet? && Free(m) && forall k :: k in m.requests ==> m.requests[k].era <= m.era
  }

  /** A marker is right, and without one the probe sees the data. */
  predicate Guarded(m: Name) {
    if m.removed.Some? then MayTake(m, m.removed.value) else !Hidden(m.data)
  }

  /** No stale request does anything. */
  predicate Fresh(m: Name, a: Action) {
    a.Proceed? && a.k in m.requests ==> !Stale(m, a.k)
  }

  predicate Undisturbed(m: Name, a: Action) {
    !a.StopUnrecorded? && Fresh(m, a)
  }

  ghost predicate UndisturbedRun(m: Name, actions: seq<Action>) {
    IsRun(m, actions) && Every(m, actions, Undisturbed)
  }

  predicate GuardedRec(m: Name) {
    match m.rec
    case Booting => false
    case Quiet => m.running.None? ==> m.alive.None? && (m.conflict.None? ==> Guarded(m))
    case Turn(_, _) => m.running.None? ==> m.alive.None? && (m.conflict.None? ==> Guarded(m))
    case ReadMarker(_) => Free(m) && Guarded(m)
    case Probe(_) => Free(m) && Guarded(m) && m.removed.None?
    case SetConflict(_) => Free(m)
    case Starting(c) => Free(m) && MayTake(m, c)
    case ClearMarker => m.running.Some?
    case Stopping(id, _) => m.running.None? && m.conflict.None? && m.removed == Some(id) && MayTake(m, id)
  }

  /** What an undisturbed run keeps from there on. */
  predicate GuardedInv(m: Name) {
    && Apart(m)
    && GuardedRec(m)
    && (forall k :: k in m.requests && !Stale(m, k) ==>
          Reached(m, m.requests[k].next) && (m.requests[k].next.Clearing? ==> Marked(m)))
  }

  lemma GuardedProceed(m: Name, k: int)
    requires GuardedInv(m) && k in m.requests && !Stale(m, k)
    ensures GuardedInv(AfterProceed(m, k))
  {
    AllKinds(m.data);
    match m.requests[k].next
    case Wiping(kinds) => if kinds != [] { assert kinds == [kinds[0]] + kinds[1..]; }
    case _ =>
  }

  lemma GuardedAdvance(m: Name)
    requires GuardedInv(m) && Enabled(m, Advance)
    ensures GuardedInv(AfterAdvance(m))
  {
  }

  lemma GuardedStep(m: Name, a: Action)
    requires GuardedInv(m) && Enabled(m, a) && Undisturbed(m, a)
    ensures GuardedInv(Next(m, a))
  {
    hide AfterProceed, AfterAdvance;
    match a
    case Proceed(k) => GuardedProceed(m, k);
    case Advance => GuardedAdvance(m);
    case _ =>
  }

  lemma {:induction false} GuardedRun(m: Name, actions: seq<Action>)
    requires GuardedInv(m) && UndisturbedRun(m, actions)
    ensures GuardedInv(Run(m, actions))
    decreases |actions|
  {
    hide GuardedInv, Enabled, Next, Undisturbed;
    if actions != [] {
      GuardedStep(m, actions[0]);
      GuardedRun(Next(m, actions[0]), actions[1..]);
    }
  }

  /** Exactly what keeps an idle name safe, whatever brought it into its state: no
      undisturbed run from here starts a task on foreign data if and only if the
      marker is right or, without a marker, no hidden data is there. */
  lemma SafeFromHere(m: Name)
    requires Idle(m)
    ensures (forall later :: UndisturbedRun(m, later) ==> !Misused(Run(m, later))) <==> Guarded(m)
  {
    if Guarded(m) {
      forall later | UndisturbedRun(m, later) ensures !Misused(Run(m, later)) {
        GuardedRun(m, later);
      }
    } else {
      var later := Exposed(m);
      assert UndisturbedRun(m, later);
    }
  }

  /** A wrong marker lets its own id in; hidden data lets anybody in. */
  lemma Exposed(m: Name) returns (later: seq<Action>)
    requires Idle(m) && !Guarded(m)
    ensures UndisturbedRun(m, later) && Misused(Run(m, later))
  {
    if m.removed.Some? {
      later := StartsMarked(m, m.removed.value);
    } else {
      var id := Unknown(m.heirs + {m.writer});
      later := Starts(m, id);
    }
  }

  lemma {:induction false} Unknown(ids: set<int>) returns (id: int)
    ensures forall other :: other in ids ==> other < id
    decreases ids
  {
    if ids == {} {
      id := 0;
    } else {
      var some: int := PickOne(ids);
      var above := Unknown(ids - {some});
      id := if some < above then above else some + 1;
      forall other | other in ids ensures other < id { assert other == some || other in ids - {some}; }
    }
  }

  // ----- lost markers alone -----

  /** Markers may be lost, but no request comes late; the run goes on only until a task
      has been started on foreign data. */
  predicate OnlyLost(m: Name, a: Action) {
    Fresh(m, a) && !(a.Advance? && Misused(m))
  }

  predicate TruthfulRec(m: Name) {
    match m.rec
    case Booting => Free(m) && m.data == {} && m.removed.None?
    case Quiet => m.running.None? ==> m.alive.None?
    case Turn(_, _) => m.running.None? ==> m.alive.None?
    case ReadMarker(_) => Free(m)
    case Probe(_) => Free(m) && m.removed.None?
    case SetConflict(_) => Free(m)
    case Starting(c) =>
      && Free(m)
      && (if m.removed.Some? then m.removed == Some(c) && MayTake(m, c) else !Visible(m.data))
    case ClearMarker => m.running.Some?
    case Stopping(id, _) =>
      m.running.None? && m.conflict.None? && MayTake(m, id) && (m.removed.Some? ==> m.removed == Some(id))
  }

  /** A marker, if there is one, is right. */
  predicate Truthful(m: Name) {
    && Apart(m)
    && TruthfulRec(m)
    && (m.removed.Some? ==> MayTake(m, m.removed.value))
    && (m.removed.Some? && m.running.Some? ==> m.removed == m.running)
    && (forall k :: k in m.requests && !Stale(m, k) && m.requests[k].next.Carrying? ==> m.requests[k].next.new_.Some?)
  }

  lemma TruthfulProceed(m: Name, k: int)
    requires Truthful(m) && k in m.requests && !Stale(m, k)
    ensures Truthful(AfterProceed(m, k))
  {
  }

  lemma TruthfulAdvance(m: Name)
    requires Truthful(m) && Enabled(m, Advance) && !Misused(m)
    ensures Truthful(AfterAdvance(m))
  {
  }

  lemma TruthfulStop(m: Name)
    requires Truthful(m) && Enabled(m, StopUnrecorded)
    ensures Truthful(Next(m, StopUnrecorded))
  {
  }

  lemma TruthfulStep(m: Name, a: Action)
    requires Truthful(m) && Enabled(m, a) && OnlyLost(m, a)
    ensures Truthful(Next(m, a))
  {
    hide AfterProceed, AfterAdvance, AfterTurn;
    match a
    case Proceed(k) => TruthfulProceed(m, k);
    case Advance => TruthfulAdvance(m);
    case StopUnrecorded => TruthfulStop(m);
    case _ =>
  }

  lemma {:induction false} TruthfulRun(m: Name, actions: seq<Action>)
    requires Truthful(m) && IsRun(m, actions) && Every(m, actions, OnlyLost)
    ensures Truthful(Run(m, actions))
    decreases |actions|
  {
    hide Truthful, Enabled, Next, OnlyLost;
    if actions != [] {
      TruthfulStep(m, actions[0]);
      TruthfulRun(Next(m, actions[0]), actions[1..]);
    }
  }

  /** When only markers are lost, a start goes wrong exactly when there is no marker, the
      data is hidden, and another station wrote it without a carry-over to this one. And
      an idle name stays safe exactly as long as there is a marker or no hidden data. */
  lemma LostMarkers(actions: seq<Action>)
    requires IsRun(EMPTY_NAME, actions) && Every(EMPTY_NAME, actions, OnlyLost)
    ensures var m := Run(EMPTY_NAME, actions);
            m.rec.Starting? ==>
              (Misused(m) <==>
               m.removed.None? && Hidden(m.data) && m.writer != m.rec.current && m.rec.current !in m.heirs)
    ensures var m := Run(EMPTY_NAME, actions);
            m.rec.Quiet? && m.running.None? && m.conflict.None? ==>
              ((forall later :: UndisturbedRun(m, later) ==> !Misused(Run(m, later)))
               <==> m.removed.Some? || !Hidden(m.data))
  {
    TruthfulRun(EMPTY_NAME, actions);
    var m := Run(EMPTY_NAME, actions);
    if m.rec.Quiet? && m.running.None? && m.conflict.None? { SafeFromHere(m); }
  }

  // ----- runs that go wrong -----

  lemma {:induction false} Chain(m: Name, acts: seq<Action>, states: seq<Name>)
    requires |states| == |acts| + 1 && states[0] == m
    requires forall k :: 0 <= k < |acts| ==> Enabled(states[k], acts[k]) && Next(states[k], acts[k]) == states[k + 1]
    ensures IsRun(m, acts) && Run(m, acts) == states[|acts|]
    decreases |acts|
  {
    hide Enabled, Next;
    if acts != [] {
      assert Enabled(states[0], acts[0]) && Next(states[0], acts[0]) == states[1];
      var rest := states[1..];
      forall k | 0 <= k < |acts[1..]|
        ensures Enabled(rest[k], acts[1..][k]) && Next(rest[k], acts[1..][k]) == rest[k + 1]
      {
        assert rest[k] == states[k + 1] && acts[1..][k] == acts[k + 1];
      }
      Chain(states[1], acts[1..], rest);
    }
  }

  /** Every stop leaves its marker and every start clears it. */
  predicate Recorded(acts: seq<Action>) {
    forall a :: a in acts ==> !a.StopUnrecorded? && !a.ClearFails?
  }

  predicate NoRequests(acts: seq<Action>) {
    forall a :: a in acts ==> !a.Open? && !a.Proceed?
  }

  lemma {:induction false} RunConcat(m: Name, a: seq<Action>, b: seq<Action>)
    requires IsRun(m, a) && IsRun(Run(m, a), b)
    ensures IsRun(m, a + b) && Run(m, a + b) == Run(Run(m, a), b)
    ensures Recorded(a) && Recorded(b) ==> Recorded(a + b)
    ensures NoRequests(a) && NoRequests(b) ==> NoRequests(a + b)
    decreases |a|
  {
    hide Enabled, Next, Recorded, NoRequests;
    KindsConcat(a, b);
    if a == [] {
      assert a + b == b;
    } else {
      assert (a + b)[1..] == a[1..] + b && (a + b)[0] == a[0];
      RunConcat(Next(m, a[0]), a[1..], b);
    }
  }

  lemma KindsConcat(a: seq<Action>, b: seq<Action>)
    ensures Recorded(a) && Recorded(b) ==> Recorded(a + b)
    ensures NoRequests(a) && NoRequests(b) ==> NoRequests(a + b)
  {
    assert forall x :: x in a + b ==> x in a || x in b;
  }

  lemma {:induction false} Undisturbing(m: Name, acts: seq<Action>)
    requires IsRun(m, acts) && Recorded(acts) && NoRequests(acts)
    ensures Every(m, acts, Undisturbed)
    decreases |acts|
  {
    hide Enabled, Next;
    if acts != [] {
      assert acts[0] in acts;
      Undisturbing(Next(m, acts[0]), acts[1..]);
    }
  }

  /** A station nobody remembers is started if the remnant probe sees nothing. */
  lemma Starts(m: Name, id: int) returns (acts: seq<Action>)
    requires m.rec.Quiet? && m.conflict.None? && m.running.None? && m.removed.None? && !Visible(m.data)
    ensures IsRun(m, acts) && Run(m, acts) == m.(db := Some(id), published := Some(id), rec := Starting(id))
    ensures Recorded(acts) && NoRequests(acts) && UndisturbedRun(m, acts)
  {
    var m1 := m.(db := Some(id));
    var m2 := m1.(published := Some(id), rec := Turn(m.published, Some(id)));
    acts := [DbChange(Some(id)), Look, Advance, Advance, Advance];
    Chain(m, acts, [m, m1, m2, m2.(rec := ReadMarker(id)), m2.(rec := Probe(id)), m2.(rec := Starting(id))]);
    Undisturbing(m, acts);
  }

  /** The station the marker names is started without further checks. */
  lemma StartsMarked(m: Name, id: int) returns (acts: seq<Action>)
    requires m.rec.Quiet? && m.conflict.None? && m.running.None? && m.removed == Some(id)
    ensures IsRun(m, acts) && Run(m, acts) == m.(db := Some(id), published := Some(id), rec := Starting(id))
    ensures Recorded(acts) && NoRequests(acts) && UndisturbedRun(m, acts)
  {
    var m1 := m.(db := Some(id));
    var m2 := m1.(published := Some(id), rec := Turn(m.published, Some(id)));
    acts := [DbChange(Some(id)), Look, Advance, Advance];
    Chain(m, acts, [m, m1, m2, m2.(rec := ReadMarker(id)), m2.(rec := Starting(id))]);
    Undisturbing(m, acts);
  }

  /** A starting station writes; then its row goes and its task is about to be stopped. */
  lemma WritesAndGoes(m: Name, id: int, data: set<Kind>) returns (acts: seq<Action>)
    requires m.rec == Starting(id) && m.running.None? && m.published.Some? && data != {}
    ensures IsRun(m, acts) && Recorded(acts) && NoRequests(acts)
    ensures Run(m, acts)
         == m.(db := None, published := None, removed := None, data := data, writer := id, heirs := {},
               running := Some(id), alive := Some(id), rec := Turn(m.published, None))
  {
    var m1 := m.(running := Some(id), alive := Some(id), rec := ClearMarker);
    var m2 := m1.(removed := None, rec := Quiet);
    var m3 := m2.(data := data, writer := id, heirs := {});
    var m4 := m3.(db := None);
    acts := [Advance, Advance, TaskWrite(data), DbChange(None), Look];
    Chain(m, acts, [m, m1, m2, m3, m4, m4.(published := None, rec := Turn(m.published, None))]);
  }

  lemma StopsUnrecorded(m: Name, id: int) returns (acts: seq<Action>, end: Name)
    requires m.rec.Turn? && m.rec.published.Some? && m.rec.found.None? && m.running == Some(id)
    ensures IsRun(m, acts) && NoRequests(acts) && Run(m, acts) == end
    ensures end == m.(running := None, alive := None, rec := Quiet)
  {
    var m1 := m.(running := None, rec := Stopping(id, None));
    end := m1.(alive := None, rec := Quiet);
    acts := [StopUnrecorded, Stopped];
    Chain(m, acts, [m, m1, end]);
  }

  /** A lost marker alone: station 1 leaves one live value behind and no marker, and
      station 2 is started on it. No request was ever made. */
  lemma LostMarkerMisuses() returns (acts: seq<Action>)
    ensures IsRun(EMPTY_NAME, acts) && NoRequests(acts) && Misused(Run(EMPTY_NAME, acts))
  {
    hide IsRun, Run, Recorded, NoRequests;
    var m0 := EMPTY_NAME;
    acts := Boots();
    var b := WritesAndGoes(BOOTED, 1, {LiveKeys});
    RunConcat(m0, acts, b);
    acts := acts + b;
    var d, m5 := StopsUnrecorded(Run(BOOTED, b), 1);
    RunConcat(m0, acts, d);
    acts := acts + d;
    var c := Starts(m5, 2);
    RunConcat(m0, acts, c);
    acts := acts + c;
  }

  const BOOTED := EMPTY_NAME.(db := Some(1), published := Some(1), rec := Starting(1))

  const REPLACED := EMPTY_NAME.(db := Some(2), published := Some(2), removed := Some(1),
                                conflict := Some(Conflict(Some(1), 2)), era := 1, rec := Quiet)

  lemma Boots() returns (acts: seq<Action>)
    ensures IsRun(EMPTY_NAME, acts) && Recorded(acts) && NoRequests(acts) && Run(EMPTY_NAME, acts) == BOOTED
  {
    acts := [DbChange(Some(1)), Boot];
    Chain(EMPTY_NAME, acts, [EMPTY_NAME, EMPTY_NAME.(db := Some(1)), BOOTED]);
  }

  /** Station 1 is replaced by station 2 before it has written anything. */
  lemma Replaced() returns (acts: seq<Action>)
    ensures IsRun(EMPTY_NAME, acts) && Recorded(acts) && Run(EMPTY_NAME, acts) == REPLACED
  {
    hide IsRun, Run, Recorded;
    var a := Boots();
    var b := Replaces();
    RunConcat(EMPTY_NAME, a, b);
    acts := a + b;
  }

  lemma Replaces() returns (acts: seq<Action>)
    ensures IsRun(BOOTED, acts) && Recorded(acts) && Run(BOOTED, acts) == REPLACED
  {
    var m3 := BOOTED.(running := Some(1), alive := Some(1), rec := ClearMarker);
    var m4 := m3.(rec := Quiet);
    var m5 := m4.(db := Some(2));
    var m6 := m5.(published := Some(2), rec := Turn(Some(1), Some(2)));
    var m7 := m6.(running := None, removed := Some(1), rec := Stopping(1, Some(Conflict(Some(1), 2))));
    var m8 := m7.(alive := None, rec := SetConflict(Conflict(Some(1), 2)));
    acts := [Advance, Advance, DbChange(Some(2)), Look, Advance, Stopped, Advance];
    Chain(BOOTED, acts, [BOOTED, m3, m4, m5, m6, m7, m8, REPLACED]);
  }

  /** A request to start fresh, up to the point where only the marker is left to clear. */
  lemma Wipes(m: Name, k: int) returns (acts: seq<Action>)
    requires k in m.requests && m.requests[k].next == Opened(true) && m.data == {}
    ensures IsRun(m, acts) && Recorded(acts) && Run(m, acts) == At(m, k, Unmarking)
  {
    hide AfterAdvance, AfterTurn;
    var m' := At(m, k, Wiping(WIPE_ORDER));
    var rest := WipesRest(m', k, WIPE_ORDER);
    acts := [Proceed(k)] + rest;
    assert acts[1..] == rest && At(m', k, Unmarking) == At(m, k, Unmarking);
  }

  lemma {:induction false} WipesRest(m: Name, k: int, kinds: seq<Kind>) returns (acts: seq<Action>)
    requires k in m.requests && m.requests[k].next == Wiping(kinds) && m.data == {}
    ensures IsRun(m, acts) && Recorded(acts) && Run(m, acts) == At(m, k, Unmarking)
    decreases |kinds|
  {
    hide AfterAdvance, AfterTurn;
    if kinds == [] {
      acts := [Proceed(k)];
      assert acts[1..] == [];
    } else {
      var m' := At(m, k, Wiping(kinds[1..]));
      assert AfterProceed(m, k) == m';
      var rest := WipesRest(m', k, kinds[1..]);
      acts := [Proceed(k)] + rest;
      assert acts[1..] == rest && At(m', k, Unmarking) == At(m, k, Unmarking);
    }
  }

  function Calls(m: Name, first: Request, second: Request): Name {
    m.(requests := map[0 := Call(1, first), 1 := Call(1, second)])
  }

  function Late(m: Name, second: Request): Name {
    m.(requests := map[1 := Call(1, second)])
  }

  /** Two requests are opened for the same conflict, the first to start fresh. The second
      one's commands before its last two have been done when the first one is through. */
  lemma FirstIsDone(wipe: bool) returns (acts: seq<Action>, end: Name)
    ensures end == Late(EMPTY_NAME.(db := Some(2), published := Some(2), era := 1, rec := Quiet), Second(wipe))
    ensures IsRun(EMPTY_NAME, acts) && Recorded(acts) && Run(EMPTY_NAME, acts) == end
  {
    hide IsRun, Run, Recorded;
    var a := Replaced();
    var b, m2 := Opens(wipe);
    RunConcat(EMPTY_NAME, a, b);
    var c := SecondWaits(m2, wipe);
    RunConcat(EMPTY_NAME, a + b, c);
    var d := Wipes(Calls(REPLACED, Opened(true), Second(wipe)), 0);
    RunConcat(EMPTY_NAME, a + b + c, d);
    var e;
    e, end := FirstClears(Second(wipe));
    assert At(Calls(REPLACED, Opened(true), Second(wipe)), 0, Unmarking) == Calls(REPLACED, Unmarking, Second(wipe));
    RunConcat(EMPTY_NAME, a + b + c + d, e);
    acts := a + b + c + d + e;
  }

  function Second(wipe: bool): Request {
    if wipe then Unmarking else Carrying(Some(2))
  }

  lemma Opens(wipe: bool) returns (acts: seq<Action>, end: Name)
    ensures end == Calls(REPLACED, Opened(true), Opened(wipe))
    ensures IsRun(REPLACED, acts) && Recorded(acts) && Run(REPLACED, acts) == end
  {
    end := Calls(REPLACED, Opened(true), Opened(wipe));
    acts := [Open(0, true), Open(1, wipe)];
    Chain(REPLACED, acts, [REPLACED, REPLACED.(requests := map[0 := Call(1, Opened(true))]), end]);
  }

  lemma SecondWaits(m: Name, wipe: bool) returns (acts: seq<Action>)
    requires m == Calls(REPLACED, Opened(true), Opened(wipe))
    ensures IsRun(m, acts) && Recorded(acts) && Run(m, acts) == Calls(REPLACED, Opened(true), Second(wipe))
  {
    if wipe {
      acts := Wipes(m, 1);
    } else {
      acts := [Proceed(1)];
      Chain(m, acts, [m, At(m, 1, Carrying(Some(2)))]);
    }
    assert At(m, 1, Second(wipe)) == Calls(REPLACED, Opened(true), Second(wipe));
  }

  lemma FirstClears(next: Request) returns (acts: seq<Action>, end: Name)
    ensures end == Late(EMPTY_NAME.(db := Some(2), published := Some(2), era := 1, rec := Quiet), next)
    ensures var m := Calls(REPLACED, Unmarking, next); IsRun(m, acts) && Recorded(acts) && Run(m, acts) == end
  {
    var m := Calls(REPLACED, Unmarking, next);
    var m1 := Calls(REPLACED, Clearing, next).(removed := None);
    end := Late(REPLACED, next).(removed := None, conflict := None);
    assert m1.requests - {0} == end.requests;
    acts := [Proceed(0), Proceed(0)];
    Chain(m, acts, [m, m1, end]);
  }

  /** Two overlapping requests to start fresh: the late one clears the marker of a
      station that came and went in the meantime, and the next station takes its data. */
  lemma LateWipeMisuses() returns (acts: seq<Action>)
    ensures IsRun(EMPTY_NAME, acts) && Recorded(acts)
    ensures Misused(Run(EMPTY_NAME, acts)) && Hidden(Run(EMPTY_NAME, acts).data)
  {
    hide IsRun, Run, Recorded, NoRequests;
    var a, m := FirstIsDone(true);
    var b := Starts(m, 2);
    RunConcat(EMPTY_NAME, a, b);
    var c := WritesAndGoes(Run(m, b), 2, {LiveKeys});
    RunConcat(EMPTY_NAME, a + b, c);
    var d, m4 := LateWipe(Run(Run(m, b), c));
    RunConcat(EMPTY_NAME, a + b + c, d);
    var e := Starts(m4, 3);
    RunConcat(EMPTY_NAME, a + b + c + d, e);
    acts := a + b + c + d + e;
  }

  lemma LateWipe(m: Name) returns (acts: seq<Action>, end: Name)
    requires m.rec == Turn(Some(2), None) && m.running == Some(2) && m.requests == map[1 := Call(1, Unmarking)]
    ensures end == Late(m, Clearing).(running := None, alive := None, removed := None, rec := Quiet)
    ensures IsRun(m, acts) && Recorded(acts) && Run(m, acts) == end
  {
    var m1 := m.(running := None, removed := Some(2), rec := Stopping(2, None));
    var m2 := m1.(alive := None, rec := Quiet);
    end := Late(m2, Clearing).(removed := None);
    acts := [Advance, Stopped, Proceed(1)];
    Chain(m, acts, [m, m1, m2, end]);
  }

  /** A late carry-over between a stop and the stopped task's last write: the marker
      names station 2, the data is station 3's and in plain sight, and station 2 is
      started on it. */
  lemma LateCarryMisuses() returns (acts: seq<Action>)
    ensures IsRun(EMPTY_NAME, acts) && Recorded(acts)
    ensures Misused(Run(EMPTY_NAME, acts)) && Visible(Run(EMPTY_NAME, acts).data)
  {
    hide IsRun, Run, Recorded, NoRequests;
    var a, m := FirstIsDone(false);
    var b := Starts(m, 3);
    RunConcat(EMPTY_NAME, a, b);
    var c := WritesAndGoes(Run(m, b), 3, {LiveKeys});
    RunConcat(EMPTY_NAME, a + b, c);
    var d, m5 := LateCarry(Run(Run(m, b), c));
    RunConcat(EMPTY_NAME, a + b + c, d);
    var e := StartsMarked(m5, 2);
    RunConcat(EMPTY_NAME, a + b + c + d, e);
    acts := a + b + c + d + e;
  }

  lemma LateCarry(m: Name) returns (acts: seq<Action>, end: Name)
    requires m.rec == Turn(Some(3), None) && m.running == Some(3) && m.alive == Some(3) && m.writer == 3
    requires m.heirs == {} && m.requests == map[1 := Call(1, Carrying(Some(2)))]
    ensures end == Late(m, Clearing).(data := {CursorKey, LiveKeys}, running := None, alive := None,
                                      removed := Some(2), rec := Quiet)
    ensures IsRun(m, acts) && Recorded(acts) && Run(m, acts) == end
  {
    var m1 := m.(running := None, removed := Some(3), rec := Stopping(3, None));
    var m2 := Late(m1, Clearing).(removed := Some(2), heirs := {2});
    var m3 := m2.(data := {CursorKey, LiveKeys}, heirs := {});
    end := m3.(alive := None, rec := Quiet);
    acts := [Advance, Proceed(1), TaskWrite({CursorKey, LiveKeys}), Stopped];
    Chain(m, acts, [m, m1, m2, m3, end]);
  }
}
