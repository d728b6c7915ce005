/** The reconcile pass over all names and the API's conflict resolution as programs,
    and what a completed pass guarantees. */
module Reconciler {
  import opened Wrappers
  import opened StationNames

  /** One name as the pass sees it between its steps. */
  datatype View = View(
    published: Option<int>, removed: Option<int>, conflict: Option<Conflict>, data: set<Kind>, running: Option<int>)

  /** The running task is stopped and its id remembered, if the marker can be written. */
  function StoppedView(v: View, recorded: bool): View {
    if v.running.None? then v
    else v.(running := None, removed := if recorded then v.running else v.removed)
  }

  /** The station task is started and the marker cleared, if it can be. */
  function StartedView(v: View, id: int, recorded: bool): View {
    v.(running := Some(id), removed := if recorded then None else v.removed)
  }

  /** One undisturbed turn of the pass: `c` is the name's id in the database, `recorded`
      whether the marker can be written. */
  function AfterPass(v: View, c: Option<int>, recorded: bool): View {
    var seen := v.(published := c);
    if c.None? then (if v.published.Some? then StoppedView(seen, recorded) else seen)
    else if v.conflict.Some? then StoppedView(seen, recorded)
    else if v.running.None? then
      if v.removed.Some? && v.removed != c then seen.(conflict := Some(Conflict(v.removed, c.value)))
      else if v.removed.None? && Visible(v.data) then seen.(conflict := Some(Conflict(None, c.value)))
      else StartedView(seen, c.value, recorded)
    else if v.running == c then seen
    else StoppedView(seen, recorded).(conflict := Some(Conflict(v.running, c.value)))
  }

  /** Starting the poller: no checks but for a pending conflict. */
  function AfterBoot(v: View, c: Option<int>, recorded: bool): View {
    if c.Some? && v.conflict.None? then StartedView(v.(published := c), c.value, recorded)
    else v.(published := c, running := None)
  }

  /** An undisturbed resolution. */
  function AfterResolve(v: View, wipe: bool): View {
    if v.conflict.None? then v
    else if wipe then v.(data := {}, removed := None, conflict := None)
    else v.(removed := Some(v.conflict.value.new_), conflict := None)
  }

  /** Running under exactly the database's id, or in conflict, never both; and not
      running at all if the database has no such name. */
  predicate Settled(v: View, c: Option<int>) {
    && (c.Some? ==> (v.running == c) != v.conflict.Some?)
    && (v.running.Some? ==> v.running == c && v.conflict.None?)
    && v.published == c
  }

  /** What holds between passes: only published names run. */
  predicate Published(v: View) {
    v.running.Some? ==> v.published.Some?
  }

  lemma PassSettles(v: View, c: Option<int>, recorded: bool)
    requires Published(v)
    ensures Settled(AfterPass(v, c, recorded), c) && Published(AfterPass(v, c, recorded))
  {
  }

  /** Another pass over the same database finds nothing to do. */
  lemma PassIdempotent(v: View, c: Option<int>, recorded: bool)
    requires Published(v)
    ensures AfterPass(AfterPass(v, c, recorded), c, recorded) == AfterPass(v, c, recorded)
  {
  }

  /** Resolved either way, the conflict does not come back: the next pass over the
      same database starts the new station. */
  lemma ResolutionSticks(v: View, c: int, wipe: bool, recorded: bool)
    requires v.conflict.Some? && v.conflict.value.new_ == c && v.running.None? && v.published == Some(c)
    ensures AfterPass(AfterResolve(v, wipe), Some(c), recorded).running == Some(c)
  {
  }

  /** When a pass raises a conflict and what it says: the old id is the one that ran, else
      the remembered one, else unknown; the new one is the database's. */
  lemma WhenInConflict(v: View, c: Option<int>, recorded: bool, k: Conflict)
    requires Published(v)
    ensures v.conflict.Some? ==> AfterPass(v, c, recorded).conflict == v.conflict
    ensures v.conflict.None? ==> (AfterPass(v, c, recorded).conflict == Some(k) <==>
      && c == Some(k.new_) && k.old_ == (if v.running.Some? then v.running else v.removed)
      && (k.old_.Some? ==> k.old_ != c) && (k.old_.None? ==> CursorKey in v.data || IndexKeys in v.data))
  {
  }

  /** What runs after a pass: the database's id, unless there is or was a conflict. */
  lemma WhatRuns(v: View, c: Option<int>, recorded: bool, id: int)
    requires Published(v)
    ensures AfterPass(v, c, recorded).running == Some(id) <==>
      && c == Some(id) && v.conflict.None?
      && (|| v.running == Some(id)
          || (v.running.None? && v.removed == Some(id))
          || (v.running.None? && v.removed.None? && CursorKey !in v.data && IndexKeys !in v.data))
  {
  }

  /** The marker after a pass: the id of a task that was stopped, none if one was started,
      and as it was if neither happened or it could not be written. No data is touched. */
  lemma WhatIsRemembered(v: View, c: Option<int>, recorded: bool)
    requires Published(v)
    ensures var after := AfterPass(v, c, recorded);
            && after.removed == (if !recorded || after.running == v.running then v.removed
                                 else if v.running.Some? then v.running else None)
            && after.data == v.data && after.published == c
  {
  }

  /** A boot starts what the database has, whatever is remembered or left, unless a
      conflict is pending. */
  lemma WhatBoots(v: View, c: Option<int>, recorded: bool)
    requires v.running.None?
    ensures var after := AfterBoot(v, c, recorded);
            && after.running == (if v.conflict.None? then c else None)
            && after.removed == (if recorded && c.Some? && v.conflict.None? then None else v.removed)
            && after.conflict == v.conflict && after.data == v.data && after.published == c
  {
  }

  // ----- over all runs -----

  /** A poller begins: no task yet, whatever Redis holds. */
  predicate Begins(m: Name) {
    m.rec.Booting? && m.running.None? && m.alive.None?
  }

  /** Clearing the conflict is the request's last command. */
  predicate Clears(m: Name, a: Action) {
    a.Proceed? && a.k in m.requests && m.requests[a.k].next.Clearing?
  }

  /** Since this name's turn or the boot was over, a request has cleared the pending
      conflict; `so` says whether it had before. */
  predicate Cleared(m: Name, actions: seq<Action>, so: bool)
    requires IsRun(m, actions)
    decreases |actions|
  {
    if actions == [] then so
    else Cleared(Next(m, actions[0]), actions[1..], ClearedNow(m, actions[0], so))
  }

  predicate ClearedNow(m: Name, a: Action, so: bool)
    requires Enabled(m, a)
  {
    Next(m, a).rec.Quiet? && (so || (m.rec.Quiet? && m.conflict.Some? && Clears(m, a)))
  }

  /** A station that was seen in the database is neither running nor in conflict. */
  predicate Undecided(m: Name) {
    m.published.Some? && m.running.None? && m.conflict.None?
  }

  predicate Divided(m: Name, cleared: bool) {
    && (m.running.Some? ==> m.conflict.None?) && (cleared ==> m.rec.Quiet?)
    && match m.rec
       case Booting => m.running.None?
       case Quiet =>
         && (m.running.Some? ==> m.running == m.published)
         && (m.published.Some? ==> (Undecided(m) <==> cleared))
       case Turn(before, found) => m.published == found && (m.running.Some? ==> m.running == before)
       case ReadMarker(c) => m.running.None? && m.conflict.None? && m.published == Some(c)
       case Probe(c) => m.running.None? && m.conflict.None? && m.published == Some(c)
       case SetConflict(conflict) => m.running.None? && m.conflict.None? && m.published == Some(conflict.new_)
       case Starting(c) => m.running.None? && m.conflict.None? && m.published == Some(c)
       case ClearMarker => m.running.Some? && m.running == m.published
       case Stopping(_, next) =>
         && m.running.None? && m.conflict.None?
         && m.published == (if next.Some? then Some(next.value.new_) else None)
  }

  lemma StepDivides(m: Name, a: Action, cleared: bool)
    requires Divided(m, cleared) && Enabled(m, a)
    ensures Divided(Next(m, a), ClearedNow(m, a, cleared))
  {
  }

  lemma {:induction false} RunDivides(m: Name, actions: seq<Action>, cleared: bool)
    requires Divided(m, cleared) && IsRun(m, actions)
    ensures Divided(Run(m, actions), Cleared(m, actions, cleared))
    decreases |actions|
  {
    hide Divided, Enabled, Next, ClearedNow;
    if actions != [] {
      StepDivides(m, actions[0], cleared);
      RunDivides(Next(m, actions[0]), actions[1..], ClearedNow(m, actions[0], cleared));
    }
  }

  /** The dichotomy, over every interleaving of the pass with database changes, tasks,
      resolve requests and lost markers: a name never both runs and is in conflict; after
      a boot or its turn in a pass what runs is what the database was seen to hold; and a
      station that was seen is neither running nor in conflict exactly if a request has
      cleared the pending conflict since then. */
  lemma Dichotomy(m: Name, actions: seq<Action>)
    requires Begins(m) && IsRun(m, actions)
    ensures var end := Run(m, actions); end.running.Some? ==> end.conflict.None?
    ensures var end := Run(m, actions); end.rec.Quiet? && end.running.Some? ==> end.running == end.published
    ensures var end := Run(m, actions);
            end.rec.Quiet? && end.published.Some? ==>
              (end.running.None? && end.conflict.None? <==> Cleared(m, actions, false))
  {
    RunDivides(m, actions, false);
  }

  /** The exception happens: a request that clears the conflict after this name's turn
      leaves a station of the database neither running nor in conflict until the next pass. */
  lemma ClearedMeanwhile() returns (acts: seq<Action>)
    ensures IsRun(EMPTY_NAME, acts)
    ensures var end := Run(EMPTY_NAME, acts);
            end.rec.Quiet? && end.published.Some? && end.running.None? && end.conflict.None?
  {
    hide IsRun, Run;
    var a := Replaced();
    var b := ClearsAfterTurn();
    RunConcat(EMPTY_NAME, a, b);
    acts := a + b;
  }

  lemma ClearsAfterTurn() returns (acts: seq<Action>)
    ensures IsRun(REPLACED, acts)
    ensures var end := Run(REPLACED, acts);
            end.rec.Quiet? && end.published.Some? && end.running.None? && end.conflict.None?
  {
    var m0 := REPLACED;
    var m1 := m0.(requests := map[0 := Call(1, Opened(false))]);
    var m2 := At(m1, 0, Carrying(Some(2)));
    var m3 := At(m2, 0, Clearing).(removed := Some(2), heirs := {2});
    var m4 := m3.(rec := Turn(Some(2), Some(2)));
    var m5 := m4.(rec := Quiet);
    var m6 := m5.(conflict := None, requests := map[]);
    assert m5.requests - {0} == map[];
    acts := [Open(0, false), Proceed(0), Proceed(0), Look, Advance, Proceed(0)];
    Chain(m0, acts, [m0, m1, m2, m3, m4, m5, m6]);
  }

  /** Without other requests in between, a resolve request is a run of the interleaved
      machine that does what an undisturbed resolution does. */
  lemma ResolveIsRun(m: Name, k: int, wipe: bool) returns (acts: seq<Action>)
    requires m.conflict.Some? && k !in m.requests
    ensures IsRun(m, acts)
    ensures var end := Run(m, acts);
            && ViewOf(end) == AfterResolve(ViewOf(m), wipe) && end.rec == m.rec && end.alive == m.alive
            && end.requests == m.requests
            && (!wipe ==> end.heirs == m.heirs + {m.conflict.value.new_})
  {
    var m1 := m.(requests := m.requests[k := Call(m.era, Opened(wipe))]);
    if wipe {
      acts := WipeRun(m, k, m1);
    } else {
      acts := CarryRun(m, k, m1);
    }
  }

  lemma CarryRun(m: Name, k: int, m1: Name) returns (acts: seq<Action>)
    requires m.conflict.Some? && k !in m.requests
    requires m1 == m.(requests := m.requests[k := Call(m.era, Opened(false))])
    ensures IsRun(m, acts)
    ensures var id := m.conflict.value.new_;
            Run(m, acts) == m.(removed := Some(id), heirs := m.heirs + {id}, conflict := None)
  {
    var id := m.conflict.value.new_;
    var m2 := At(m1, k, Carrying(Some(id)));
    var m3 := At(m2, k, Clearing).(removed := Some(id), heirs := m.heirs + {id});
    var m4 := m.(removed := Some(id), heirs := m.heirs + {id}, conflict := None);
    assert m3.requests - {k} == m.requests;
    acts := [Open(k, false), Proceed(k), Proceed(k), Proceed(k)];
    Chain(m, acts, [m, m1, m2, m3, m4]);
  }

  lemma WipeRun(m: Name, k: int, m1: Name) returns (acts: seq<Action>)
    requires m.conflict.Some? && k !in m.requests
    requires m1 == m.(requests := m.requests[k := Call(m.era, Opened(true))])
    ensures IsRun(m, acts)
    ensures Run(m, acts) == m.(data := {}, removed := None, conflict := None)
  {
    hide IsRun, Run;
    var m2 := At(m1, k, Wiping(WIPE_ORDER));
    Chain(m, [Open(k, true), Proceed(k)], [m, m1, m2]);
    var wipes := WipeRest(m2, k, WIPE_ORDER);
    assert m.data - (set kind | kind in WIPE_ORDER) == {} by { AllKinds(m.data); }
    var m3 := At(m1, k, Wiping([])).(data := {});
    assert At(m2, k, Wiping([])).requests == m3.requests && m2.data == m.data;
    var m4, m5 := At(m3, k, Unmarking), At(m3, k, Clearing).(removed := None);
    var m6 := m.(data := {}, removed := None, conflict := None);
    assert m5.requests - {k} == m.requests;
    Chain(m3, [Proceed(k), Proceed(k), Proceed(k)], [m3, m4, m5, m6]);
    RunConcat(m, [Open(k, true), Proceed(k)], wipes);
    RunConcat(m, [Open(k, true), Proceed(k)] + wipes, [Proceed(k), Proceed(k), Proceed(k)]);
    acts := [Open(k, true), Proceed(k)] + wipes + [Proceed(k), Proceed(k), Proceed(k)];
  }

  /** The kinds that are still to be wiped go one by one. */
  lemma {:induction false} WipeRest(m: Name, k: int, kinds: seq<Kind>) returns (acts: seq<Action>)
    requires k in m.requests && m.requests[k].next == Wiping(kinds)
    ensures IsRun(m, acts)
    ensures Run(m, acts) == At(m, k, Wiping([])).(data := m.data - set kind | kind in kinds)
    decreases |kinds|
  {
    if kinds == [] {
      assert m.data - (set kind | kind in kinds) == m.data;
      assert m.requests[k := m.requests[k].(next := Wiping([]))] == m.requests;
      acts := [];
    } else {
      var m1 := Next(m, Proceed(k));
      var rest := WipeRest(m1, k, kinds[1..]);
      assert m1.data - (set kind | kind in kinds[1..]) == m.data - set kind | kind in kinds;
      assert At(m1, k, Wiping([])).requests == At(m, k, Wiping([])).requests;
      acts := [Proceed(k)] + rest;
    }
  }

  // ----- the steps behind the functions -----

  function ViewOf(m: Name): View {
    View(m.published, m.removed, m.conflict, m.data, m.running)
  }

  /** An undisturbed turn is a run of the interleaved machine, whether or not the
      marker can be written. */
  lemma PassIsRun(m: Name, recorded: bool) returns (acts: seq<Action>)
    requires m.rec.Quiet?
    ensures IsRun(m, acts)
    ensures var end := Run(m, acts);
            end.rec.Quiet? && ViewOf(end) == AfterPass(ViewOf(m), m.db, recorded) && end.requests == m.requests
  {
    var m1 := Next(m, Look);
    var turn := if AfterTurn(m1).rec.Stopping? && !recorded then StopUnrecorded else Advance;
    var m2 := Next(m1, turn);
    if m2.rec.Quiet? {
      acts := [Look, Advance];
      Chain(m, acts, [m, m1, m2]);
    } else if m2.rec.Stopping? {
      var m3 := Next(m2, Stopped);
      if m3.rec.Quiet? {
        acts := [Look, turn, Stopped];
        Chain(m, acts, [m, m1, m2, m3]);
      } else {
        acts := [Look, turn, Stopped, Advance];
        Chain(m, acts, [m, m1, m2, m3, Next(m3, Advance)]);
      }
    } else {
      acts := StartOrConflict(m, m1, m2, recorded);
    }
  }

  lemma StartOrConflict(m: Name, m1: Name, m2: Name, recorded: bool) returns (acts: seq<Action>)
    requires m.rec.Quiet? && m1 == Next(m, Look) && m2 == AfterAdvance(m1) && m2.rec.ReadMarker?
    ensures IsRun(m, acts)
    ensures var end := Run(m, acts);
            end.rec.Quiet? && ViewOf(end) == AfterPass(ViewOf(m), m.db, recorded) && end.requests == m.requests
  {
    hide IsRun, Run, AfterProceed;
    var clear := if recorded then Advance else ClearFails;
    var m3 := AfterAdvance(m2);
    var m4 := AfterAdvance(m3);
    if m4.rec.Quiet? {
      acts := [Look, Advance, Advance, Advance];
      Chain(m, acts, [m, m1, m2, m3, m4]);
    } else if m4.rec.ClearMarker? {
      acts := [Look, Advance, Advance, Advance, clear];
      Chain(m, acts, [m, m1, m2, m3, m4, Next(m4, clear)]);
    } else {
      var m5 := AfterAdvance(m4);
      if m5.rec.Quiet? {
        acts := [Look, Advance, Advance, Advance, Advance];
        Chain(m, acts, [m, m1, m2, m3, m4, m5]);
      } else {
        acts := [Look, Advance, Advance, Advance, Advance, clear];
        Chain(m, acts, [m, m1, m2, m3, m4, m5, Next(m5, clear)]);
      }
    }
  }

  // ----- the programs -----

  function Lookup<V>(m: map<string, V>, name: string): Option<V> {
    if name in m then Some(m[name]) else None
  }

  function KeysOf(data: map<string, set<Kind>>, name: string): set<Kind> {
    if name in data then data[name] else {}
  }

  /** The keys of all stations that the poller and the API share. */
  class StationRedis {
    var stations: map<string, int>
    var removed: map<string, int>
    var conflicts: map<string, Conflict>
    var data: map<string, set<Kind>>

    method SetPendingConflict(name: string, c: Conflict)
      modifies `conflicts
      ensures conflicts == old(conflicts)[name := c]
    {
      conflicts := conflicts[name := c];
    }

    method HasRemnantData(name: string) returns (found: bool)
      ensures found <==> name in data && (CursorKey in data[name] || IndexKeys in data[name])
    {
      found := name in data && (CursorKey in data[name] || IndexKeys in data[name]);
    }

    /** Delete the keys pattern by pattern, and the marker last. */
    method DeleteStationData(name: string)
      modifies `data, `removed
      ensures data == old(data) - {name} && removed == old(removed) - {name}
    {
      if name in data {
        for k := 0 to |WIPE_ORDER|
          invariant name in data && data == old(data)[name := data[name]] && removed == old(removed)
          invariant forall kind :: kind in data[name] ==> kind in old(data)[name] && kind !in WIPE_ORDER[..k]
        {
          assert WIPE_ORDER[..k + 1] == WIPE_ORDER[..k] + [WIPE_ORDER[k]];
          data := data[name := data[name] - {WIPE_ORDER[k]}];
        }
        AllKinds(data[name]);
        assert WIPE_ORDER[..|WIPE_ORDER|] == WIPE_ORDER;
        assert data[name] == {};
        data := data - {name};
      }
      assert data == old(data) - {name};
      removed := removed - {name};
    }

    /** False where the API answers that there is no such conflict. */
    method ResolveConflict(name: string, wipe: bool) returns (found: bool)
      modifies this
      ensures found <==> name in old(conflicts)
      ensures stations == old(stations)
      ensures !found ==> removed == old(removed) && conflicts == old(conflicts) && data == old(data)
      ensures found ==> conflicts == old(conflicts) - {name}
      ensures found && wipe ==> data == old(data) - {name} && removed == old(removed) - {name}
      ensures found && !wipe ==> data == old(data) && removed == old(removed)[name := old(conflicts)[name].new_]
    {
      found := name in conflicts;
      if !found { return; }
      var newId := conflicts[name].new_;
      if wipe {
        DeleteStationData(name);
      } else {
        removed := removed[name := newId];
      }
      conflicts := conflicts - {name};
    }
  }

  /** Writing a marker may fail; that is logged, and the pass goes on. `recorded` holds the
      names whose marker can be written in this pass. */
  class Poller {
    const redis: StationRedis
    var running: map<string, int>

    constructor (redis: StationRedis)
      ensures this.redis == redis && running == map[]
    {
      this.redis, running := redis, map[];
    }

    ghost function Of(name: string): View
      reads this, redis
    {
      View(Lookup(redis.stations, name), Lookup(redis.removed, name), Lookup(redis.conflicts, name),
           KeysOf(redis.data, name), Lookup(running, name))
    }

    ghost predicate Valid()
      reads this, redis
    {
      forall name :: Published(Of(name))
    }

    method StartTask(name: string, id: int, recorded: set<string>)
      modifies `running, redis`removed
      ensures running == old(running)[name := id]
      ensures redis.removed == if name in recorded then old(redis.removed) - {name} else old(redis.removed)
    {
      running := running[name := id];
      if name in recorded { redis.removed := redis.removed - {name}; }
    }

    method StopTask(name: string, recorded: set<string>)
      modifies `running, redis`removed
      ensures running == old(running) - {name}
      ensures redis.removed
           == if name in old(running) && name in recorded then old(redis.removed)[name := old(running)[name]]
              else old(redis.removed)
    {
      if name !in running { return; }
      var id := running[name];
      running := running - {name};
      if name in recorded { redis.removed := redis.removed[name := id]; }
    }

    /** Start every station of the database that has no pending conflict. */
    method Boot(db: map<string, int>, recorded: set<string>)
      requires running == map[]
      modifies `running, redis`stations, redis`removed
      ensures Valid()
      ensures forall name :: Of(name) == AfterBoot(old(Of(name)), Lookup(db, name), name in recorded)
      ensures forall name :: Settled(Of(name), Lookup(db, name))
    {
      hide AfterBoot, Settled;
      redis.stations := db;
      var names := db.Keys;
      while names != {}
        invariant names <= db.Keys && redis.stations == db && forall name :: name in names ==> name !in running
        invariant forall name :: name in names || name !in db ==>
          Of(name) == old(Of(name)).(published := Lookup(db, name))
        invariant forall name :: name in db && name !in names ==>
          Of(name) == AfterBoot(old(Of(name)), Lookup(db, name), name in recorded)
        decreases names
      {
        var name :| name in names;
        names := names - {name};
        BootFacts(old(Of(name)), Lookup(db, name), name in recorded);
        if name !in redis.conflicts { StartTask(name, db[name], recorded); }
      }
      forall name
        ensures Of(name) == AfterBoot(old(Of(name)), Lookup(db, name), name in recorded)
        ensures Settled(Of(name), Lookup(db, name)) && Published(Of(name))
      {
        BootFacts(old(Of(name)), Lookup(db, name), name in recorded);
      }
    }

    /** One name's turn; `prev` is what was published before the pass. */
    method Turn(name: string, db: map<string, int>, prev: map<string, int>, recorded: set<string>)
      requires Lookup(redis.stations, name) == Lookup(db, name)
      modifies `running, redis`removed, redis`conflicts
      ensures Of(name) == AfterPass(old(Of(name)).(published := Lookup(prev, name)), Lookup(db, name), name in recorded)
      ensures forall other :: other != name ==> Of(other) == old(Of(other))
    {
      if name in prev && name !in db {
        if name in running { StopTask(name, recorded); }
        return;
      }
      if name in db && name in redis.conflicts {
        if name in running { StopTask(name, recorded); }
        return;
      }
      if name in db && name !in running {
        var newId := db[name];
        if name in redis.removed && redis.removed[name] != newId {
          redis.SetPendingConflict(name, Conflict(Some(redis.removed[name]), newId));
          return;
        }
        var remnant := redis.HasRemnantData(name);
        if name !in redis.removed && remnant {
          redis.SetPendingConflict(name, Conflict(None, newId));
          return;
        }
        StartTask(name, newId, recorded);
        return;
      }
      if name in db && name in running {
        var runningId, newId := running[name], db[name];
        if runningId == newId { return; }
        StopTask(name, recorded);
        redis.SetPendingConflict(name, Conflict(Some(runningId), newId));
      }
    }

    /** A pass over every name that was published, is in the database or is running.
        If the database cannot be read the pass does nothing. */
    method ReconcileOnce(fetched: bool, db: map<string, int>, recorded: set<string>)
      requires Valid()
      modifies `running, redis`stations, redis`removed, redis`conflicts
      ensures Valid()
      ensures fetched ==> forall name :: Of(name) == AfterPass(old(Of(name)), Lookup(db, name), name in recorded)
      ensures fetched ==> forall name :: Settled(Of(name), Lookup(db, name))
      ensures !fetched ==> forall name :: Of(name) == old(Of(name))
    {
      hide AfterPass, Settled;
      if !fetched { return; }
      var prev := redis.stations;
      redis.stations := db;
      var names := prev.Keys + db.Keys + running.Keys;
      ghost var all := names;
      while names != {}
        invariant names <= all && redis.stations == db
        invariant forall name :: name in names || name !in all ==>
          Of(name) == old(Of(name)).(published := Lookup(db, name))
        invariant forall name :: name in all && name !in names ==>
          Of(name) == AfterPass(old(Of(name)), Lookup(db, name), name in recorded)
        decreases names
      {
        var name :| name in names;
        names := names - {name};
        Turn(name, db, prev, recorded);
        PublishedAgain(old(Of(name)), Lookup(db, name), name in recorded);
      }
      forall name
        ensures Of(name) == AfterPass(old(Of(name)), Lookup(db, name), name in recorded)
        ensures Settled(Of(name), Lookup(db, name)) && Published(Of(name))
      {
        if name !in all { NothingToDo(old(Of(name)), name in recorded); }
        PassSettles(old(Of(name)), Lookup(db, name), name in recorded);
      }
    }
  }

  lemma BootFacts(v: View, c: Option<int>, recorded: bool)
    requires v.running.None?
    ensures Settled(AfterBoot(v, c, recorded), c) && Published(AfterBoot(v, c, recorded))
    ensures AfterBoot(v, c, recorded)
         == if c.Some? && v.conflict.None? then StartedView(v.(published := c), c.value, recorded)
            else v.(published := c)
  {
  }

  lemma PublishedAgain(v: View, c: Option<int>, recorded: bool)
    ensures AfterPass(v.(published := c).(published := v.published), c, recorded) == AfterPass(v, c, recorded)
  {
    assert v.(published := c).(published := v.published) == v;
  }

  lemma NothingToDo(v: View, recorded: bool)
    requires v.published.None? && v.running.None?
    ensures AfterPass(v, None, recorded) == v
  {
  }
}
