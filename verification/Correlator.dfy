/** Pairing of camera frames with the nearest dust measurement in a time window. */
module Correlator {
  import opened Wrappers

  datatype Frame = Frame(receivedAt: int, dust: Option<int>)

  /** Times are in ticks of the database clock; the window reaches `before` back from a
      measurement and `after` past it. */
  datatype Config = Config(before: nat, after: nat, lookback: nat)

  function Distance(a: int, b: int): nat {
    if a <= b then b - a else a - b
  }

  predicate InWindow(cfg: Config, frameAt: int, dustAt: int) {
    dustAt - cfg.before <= frameAt <= dustAt + cfg.after
  }

  /** A measurement in the window that no other one in the window beats. */
  ghost predicate Nearest(cfg: Config, frameAt: int, dusts: map<int, int>, d: int) {
    && d in dusts && InWindow(cfg, frameAt, dusts[d])
    && forall e :: e in dusts && InWindow(cfg, frameAt, dusts[e]) ==>
         Distance(frameAt, dusts[d]) <= Distance(frameAt, dusts[e])
  }

  ghost predicate HasCandidate(cfg: Config, frameAt: int, dusts: map<int, int>) {
    exists d :: d in dusts && InWindow(cfg, frameAt, dusts[d])
  }

  /** Unpaired and not too old. The clock is read per row, anywhere between two readings. */
  predicate Recent(cfg: Config, f: Frame, now: int) {
    f.dust.None? && f.receivedAt > now - cfg.lookback
  }

  /** The join of the statement: unpaired recent frames with the measurements in their
      window; `read` is what the clock said when each row was looked at. */
  ghost function Joined(cfg: Config, frames: map<int, Frame>, dusts: map<int, int>,
          read: map<int, int>): set<(int, int)> {
    set f, d | f in frames && f in read && Recent(cfg, frames[f], read[f])
               && d in dusts && InWindow(cfg, frames[f].receivedAt, dusts[d]) :: (f, d)
  }

  /** Of the joined pairs of a frame one with the least distance is kept. */
  ghost predicate Kept(frames: map<int, Frame>, dusts: map<int, int>, joined: set<(int, int)>, f: int, d: int) {
    && f in frames && d in dusts && (f, d) in joined
    && forall e :: e in dusts && (f, e) in joined ==>
         Distance(frames[f].receivedAt, dusts[d]) <= Distance(frames[f].receivedAt, dusts[e])
  }

  /** What the update statement does to the table: joined frames get their kept
      measurement, the others stay as they are. */
  ghost predicate Updated(cfg: Config, frames: map<int, Frame>, dusts: map<int, int>, read: map<int, int>,
          frames': map<int, Frame>) {
    var joined := Joined(cfg, frames, dusts, read);
    && frames'.Keys == frames.Keys == read.Keys
    && forall f :: f in frames ==>
         if exists d :: (f, d) in joined
         then exists d :: Kept(frames, dusts, joined, f, d) && frames'[f] == frames[f].(dust := Some(d))
         else frames'[f] == frames[f]
  }

  /** One row across an update whose clock readings lie between `from` and `to`: only an
      unpaired frame is paired, with a nearest measurement, and no recent frame that has
      one in its window is missed. */
  ghost predicate Ticked(cfg: Config, dusts: map<int, int>, from: int, to: int, f: Frame, f': Frame) {
    && f'.receivedAt == f.receivedAt
    && (f.dust.Some? ==> f' == f)
    && (f.dust.None? && f'.dust.Some? ==> Recent(cfg, f, from) && Nearest(cfg, f.receivedAt, dusts, f'.dust.value))
    && (Recent(cfg, f, to) && HasCandidate(cfg, f.receivedAt, dusts) ==> f'.dust.Some?)
  }

  predicate Within(read: map<int, int>, from: int, to: int) {
    from <= to && forall f :: f in read ==> from <= read[f] <= to
  }

  lemma UpdateTicks(cfg: Config, frames: map<int, Frame>, dusts: map<int, int>, read: map<int, int>,
          frames': map<int, Frame>, from: int, to: int, f: int)
    requires Updated(cfg, frames, dusts, read, frames') && Within(read, from, to) && f in frames
    ensures Ticked(cfg, dusts, from, to, frames[f], frames'[f])
  {
    var joined := Joined(cfg, frames, dusts, read);
    if d :| (f, d) in joined {
      var kept :| Kept(frames, dusts, joined, f, kept) && frames'[f] == frames[f].(dust := Some(kept));
      forall e | e in dusts && InWindow(cfg, frames[f].receivedAt, dusts[e])
        ensures Distance(frames[f].receivedAt, dusts[kept]) <= Distance(frames[f].receivedAt, dusts[e])
      {
        assert (f, e) in joined;
      }
    }
  }

  /** No measurement whose window holds the frame's time is nearer, in plain numbers. */
  ghost predicate NoneNearer(cfg: Config, at: int, dusts: map<int, int>, d: int) {
    && d in dusts && dusts[d] - cfg.before <= at <= dusts[d] + cfg.after
    && forall e :: e in dusts && dusts[e] - cfg.before <= at <= dusts[e] + cfg.after ==>
         var gap := if dusts[e] < at then at - dusts[e] else dusts[e] - at;
         -gap <= at - dusts[d] <= gap
  }

  lemma NearestInNumbers(cfg: Config, at: int, dusts: map<int, int>, d: int)
    ensures Nearest(cfg, at, dusts, d) <==> NoneNearer(cfg, at, dusts, d)
  {
    if Nearest(cfg, at, dusts, d) {
      forall e | e in dusts && dusts[e] - cfg.before <= at <= dusts[e] + cfg.after
        ensures Distance(at, dusts[d]) <= Distance(at, dusts[e])
      {
        assert InWindow(cfg, at, dusts[e]);
      }
    }
  }

  /** The statement row by row: an unpaired frame received less than `lookback` before its
      row is read, and within `before` and `after` of some measurement, is paired with a
      nearest one; every other row stays as it is. */
  lemma UpdateRowByRow(cfg: Config, frames: map<int, Frame>, dusts: map<int, int>, read: map<int, int>,
          frames': map<int, Frame>, f: int)
    requires Updated(cfg, frames, dusts, read, frames') && f in frames
    ensures f in read && f in frames'
    ensures var x, x', at := frames[f], frames'[f], frames[f].receivedAt;
            if x.dust == None && at + cfg.lookback > read[f]
               && exists d :: d in dusts && dusts[d] - cfg.before <= at <= dusts[d] + cfg.after
            then x'.receivedAt == at && x'.dust.Some? && NoneNearer(cfg, at, dusts, x'.dust.value)
            else x' == x
  {
    var joined, at := Joined(cfg, frames, dusts, read), frames[f].receivedAt;
    if Recent(cfg, frames[f], read[f]) && HasCandidate(cfg, at, dusts) {
      var d :| d in dusts && InWindow(cfg, at, dusts[d]);
      assert (f, d) in joined;
      var kept :| Kept(frames, dusts, joined, f, kept) && frames'[f] == frames[f].(dust := Some(kept));
      forall e | e in dusts && InWindow(cfg, at, dusts[e]) ensures Distance(at, dusts[kept]) <= Distance(at, dusts[e]) {
        assert (f, e) in joined;
      }
      NearestInNumbers(cfg, at, dusts, kept);
    }
  }

  // ----- runs -----

  /** `seen` records, for each frame, the measurements present when it was paired. */
  datatype Machine = Machine(frames: map<int, Frame>, dusts: map<int, int>, clock: int, seen: map<int, map<int, int>>)

  datatype Action =
    | FrameArrives(id: int, at: int)
    | DustArrives(id: int, at: int)
    | Tick(frames: map<int, Frame>, read: map<int, int>, to: int)    // the table after the update
    | Wait(to: int)

  ghost predicate Enabled(cfg: Config, m: Machine, a: Action) {
    match a
    case FrameArrives(id, _) => id !in m.frames
    case DustArrives(id, _) => id !in m.dusts
    case Tick(frames, read, to) => Within(read, m.clock, to) && Updated(cfg, m.frames, m.dusts, read, frames)
    case Wait(to) => m.clock <= to
  }

  ghost function Next(cfg: Config, m: Machine, a: Action): Machine
    requires Enabled(cfg, m, a)
  {
    match a
    case FrameArrives(id, at) => m.(frames := m.frames[id := Frame(at, None)])
    case DustArrives(id, at) => m.(dusts := m.dusts[id := at])
    case Tick(frames, _, to) =>
      m.(frames := frames, clock := to,
         seen := m.seen + map id | id in frames && frames[id].dust.Some? && m.frames[id].dust.None? :: m.dusts)
    case Wait(to) => m.(clock := to)
  }

  ghost predicate IsRun(cfg: Config, m: Machine, actions: seq<Action>)
    decreases |actions|
  {
    actions == [] || (Enabled(cfg, m, actions[0]) && IsRun(cfg, Next(cfg, m, actions[0]), actions[1..]))
  }

  ghost function Run(cfg: Config, m: Machine, actions: seq<Action>): Machine
    requires IsRun(cfg, m, actions)
    decreases |actions|
  {
    if actions == [] then m else Run(cfg, Next(cfg, m, actions[0]), actions[1..])
  }

  /** Every pairing was nearest among the measurements present at its tick, all of
      which are still there. */
  ghost predicate Inv(cfg: Config, m: Machine) {
    forall id :: id in m.frames && m.frames[id].dust.Some? ==>
      && id in m.seen && (forall d :: d in m.seen[id] ==> d in m.dusts && m.dusts[d] == m.seen[id][d])
      && Nearest(cfg, m.frames[id].receivedAt, m.seen[id], m.frames[id].dust.value)
  }

  /** Pairings are kept. */
  ghost predicate Keeps(m: Machine, m': Machine) {
    forall id :: id in m.frames ==>
      && id in m'.frames && m'.frames[id].receivedAt == m.frames[id].receivedAt
      && (m.frames[id].dust.Some? ==> m'.frames[id] == m.frames[id])
  }

  lemma StepKeeps(cfg: Config, m: Machine, a: Action)
    requires Inv(cfg, m) && Enabled(cfg, m, a)
    ensures Inv(cfg, Next(cfg, m, a)) && Keeps(m, Next(cfg, m, a)) && m.clock <= Next(cfg, m, a).clock
  {
    hide Nearest, HasCandidate, Recent, Updated;
    if a.Tick? {
      UpdatedKeys(cfg, m.frames, m.dusts, a.read, a.frames);
      forall id | id in m.frames ensures Ticked(cfg, m.dusts, m.clock, a.to, m.frames[id], a.frames[id]) {
        UpdateTicks(cfg, m.frames, m.dusts, a.read, a.frames, m.clock, a.to, id);
      }
    }
  }

  lemma UpdatedKeys(cfg: Config, frames: map<int, Frame>, dusts: map<int, int>, read: map<int, int>,
          frames': map<int, Frame>)
    requires Updated(cfg, frames, dusts, read, frames')
    ensures frames'.Keys == frames.Keys == read.Keys
  {
  }

  lemma {:induction false} RunKeeps(cfg: Config, m: Machine, actions: seq<Action>)
    requires Inv(cfg, m) && IsRun(cfg, m, actions)
    ensures Inv(cfg, Run(cfg, m, actions)) && Keeps(m, Run(cfg, m, actions)) && m.clock <= Run(cfg, m, actions).clock
    decreases |actions|
  {
    hide Inv, Enabled, Next;
    if actions != [] {
      StepKeeps(cfg, m, actions[0]);
      RunKeeps(cfg, Next(cfg, m, actions[0]), actions[1..]);
    }
  }

  /** Pairing over runs, measurements never being deleted: a pairing never changes once
      made; it lies in the window; and no measurement present at its tick was nearer. */
  lemma PairingStable(cfg: Config, m: Machine, before: seq<Action>, later: seq<Action>, id: int)
    requires Inv(cfg, m) && IsRun(cfg, m, before) && IsRun(cfg, Run(cfg, m, before), later)
    requires id in Run(cfg, m, before).frames && Run(cfg, m, before).frames[id].dust.Some?
    ensures var mid, end := Run(cfg, m, before), Run(cfg, Run(cfg, m, before), later);
            && id in end.frames && end.frames[id] == mid.frames[id]
            && end.frames[id].dust.value in end.dusts
            && var at, d := end.frames[id].receivedAt, end.frames[id].dust.value;
               && end.dusts[d] - cfg.before <= at <= end.dusts[d] + cfg.after
               && id in end.seen && NoneNearer(cfg, at, end.seen[id], d)
  {
    hide IsRun, Run;
    RunKeeps(cfg, m, before);
    RunKeeps(cfg, Run(cfg, m, before), later);
    var end := Run(cfg, Run(cfg, m, before), later);
    NearestInNumbers(cfg, end.frames[id].receivedAt, end.seen[id], end.frames[id].dust.value);
  }

  /** After a tick no recent frame is left unpaired with a measurement in its window,
      so an immediate second tick pairs nothing. */
  lemma TickExhausts(cfg: Config, m: Machine, first: Action, second: Action)
    requires first.Tick? && Enabled(cfg, m, first)
    requires second.Tick? && Enabled(cfg, Next(cfg, m, first), second)
    ensures forall id, d | id in first.frames && d in m.dusts ::
      var at := first.frames[id].receivedAt;
      at + cfg.lookback > first.to && m.dusts[d] - cfg.before <= at <= m.dusts[d] + cfg.after ==>
        first.frames[id].dust != None
    ensures second.frames == first.frames
  {
    hide Nearest, Updated, HasCandidate;
    UpdatedKeys(cfg, m.frames, m.dusts, first.read, first.frames);
    UpdatedKeys(cfg, first.frames, m.dusts, second.read, second.frames);
    forall id | id in first.frames
      ensures second.frames[id] == first.frames[id]
      ensures !(Recent(cfg, first.frames[id], first.to) && HasCandidate(cfg, first.frames[id].receivedAt, m.dusts))
    {
      UpdateTicks(cfg, m.frames, m.dusts, first.read, first.frames, m.clock, first.to, id);
      UpdateTicks(cfg, first.frames, m.dusts, second.read, second.frames, first.to, second.to, id);
      if second.frames[id].dust.Some? && first.frames[id].dust.None? {
        NearestIsCandidate(cfg, first.frames[id].receivedAt, m.dusts, second.frames[id].dust.value);
      }
    }
    forall id, d | id in first.frames && d in m.dusts && InWindow(cfg, first.frames[id].receivedAt, m.dusts[d])
      ensures first.frames[id].receivedAt + cfg.lookback > first.to ==> first.frames[id].dust != None
    {
      CandidateIs(cfg, first.frames[id].receivedAt, m.dusts, d);
    }
  }

  lemma CandidateIs(cfg: Config, at: int, dusts: map<int, int>, d: int)
    requires d in dusts && InWindow(cfg, at, dusts[d])
    ensures HasCandidate(cfg, at, dusts)
  {
  }

  lemma NearestIsCandidate(cfg: Config, at: int, dusts: map<int, int>, d: int)
    requires Nearest(cfg, at, dusts, d)
    ensures HasCandidate(cfg, at, dusts)
  {
  }

  // ----- the program -----

  class FrameCorrelator {
    const cfg: Config
    const dusts: map<int, int>
    var frames: map<int, Frame>
    var clock: int

    constructor (cfg: Config, frames: map<int, Frame>, dusts: map<int, int>)
      ensures this.cfg == cfg && this.frames == frames && this.dusts == dusts
    {
      this.cfg, this.frames, this.dusts, clock := cfg, frames, dusts, 0;
    }

    /** One pairing pass; the number of frames newly paired. */
    method Tick() returns (count: nat, ghost read: map<int, int>)
      modifies this
      ensures Within(read, old(clock), clock) && Updated(cfg, old(frames), dusts, read, frames)
      ensures count == |Newly(old(frames), frames)|
    {
      hide Newly, Recent, RowUpdated, Updated;
      count, read := 0, map[];
      var left := frames.Keys;
      NewlyNone(frames);
      while left != {}
        invariant left <= frames.Keys == old(frames).Keys && Within(read, old(clock), clock)
        invariant read.Keys == frames.Keys - left
        invariant forall id :: id in left ==> frames[id] == old(frames)[id]
        invariant forall id :: id in read ==>
          id in frames && RowUpdated(cfg, dusts, read[id], old(frames)[id], frames[id])
        invariant count == |Newly(old(frames), frames)|
        decreases left
      {
        ghost var some: int := PickOne(left);
        var id :| id in left;
        var step: int := *;
        clock := if step > 0 then clock + step else clock;
        left := left - {id};
        var f := frames[id];
        var found := FindNearest(f.receivedAt);
        var f' := if Recent(cfg, f, clock) then f.(dust := found) else f;
        Pairs(cfg, dusts, clock, f, f', found);
        NewlyStep(old(frames), frames, id, f');
        frames, read := frames[id := f'], read[id := clock];
        if f'.dust.Some? && f.dust.None? { count := count + 1; }
      }
      RowsUpdated(cfg, dusts, old(frames), read, frames);
    }

    method FindNearest(at: int) returns (d: Option<int>)
      ensures d.None? <==> !HasCandidate(cfg, at, dusts)
      ensures d.Some? ==> Nearest(cfg, at, dusts, d.value) && NoneNearer(cfg, at, dusts, d.value)
    {
      d := None;
      var left := dusts.Keys;
      while left != {}
        invariant left <= dusts.Keys
        invariant d.None? ==> forall e :: e in dusts && e !in left ==> !InWindow(cfg, at, dusts[e])
        invariant d.Some? ==> d.value in dusts && InWindow(cfg, at, dusts[d.value])
        invariant d.Some? ==> forall e :: e in dusts && e !in left && InWindow(cfg, at, dusts[e]) ==>
          Distance(at, dusts[d.value]) <= Distance(at, dusts[e])
        decreases left
      {
        ghost var some: int := PickOne(left);
        var e :| e in left;
        left := left - {e};
        if InWindow(cfg, at, dusts[e]) && (d.None? || Distance(at, dusts[e]) < Distance(at, dusts[d.value])) {
          d := Some(e);
        }
      }
      if d.Some? {
        NearestIsCandidate(cfg, at, dusts, d.value);
        NearestInNumbers(cfg, at, dusts, d.value);
      }
    }
  }

  /** The frames that have become paired. */
  function Newly(before: map<int, Frame>, after: map<int, Frame>): (ids: set<int>)
  {
    set id | id in after && id in before && after[id].dust.Some? && before[id].dust.None?
  }

  lemma NewlyNone(frames: map<int, Frame>)
    ensures |Newly(frames, frames)| == 0
  {
    assert Newly(frames, frames) == {};
  }

  lemma NewlyStep(before: map<int, Frame>, frames: map<int, Frame>, id: int, f': Frame)
    requires id in frames && id in before && frames[id] == before[id]
    ensures |Newly(before, frames[id := f'])|
         == |Newly(before, frames)| + if f'.dust.Some? && before[id].dust.None? then 1 else 0
  {
    var now, new_ := Newly(before, frames), Newly(before, frames[id := f']);
    if f'.dust.Some? && before[id].dust.None? {
      assert new_ == now + {id} && id !in now;
    } else {
      assert new_ == now;
    }
  }

  /** The update of one row. */
  ghost predicate RowUpdated(cfg: Config, dusts: map<int, int>, now: int, f: Frame, f': Frame) {
    if Recent(cfg, f, now) && HasCandidate(cfg, f.receivedAt, dusts)
    then f'.dust.Some? && Nearest(cfg, f.receivedAt, dusts, f'.dust.value) && f' == f.(dust := f'.dust)
    else f' == f
  }

  lemma Pairs(cfg: Config, dusts: map<int, int>, now: int, f: Frame, f': Frame, found: Option<int>)
    requires found.None? <==> !HasCandidate(cfg, f.receivedAt, dusts)
    requires found.Some? ==> Nearest(cfg, f.receivedAt, dusts, found.value)
    requires f' == if Recent(cfg, f, now) then f.(dust := found) else f
    ensures RowUpdated(cfg, dusts, now, f, f')
  {
    hide Nearest, HasCandidate;
  }

  /** Row by row, the loop does what the statement does. */
  lemma RowsUpdated(cfg: Config, dusts: map<int, int>, frames: map<int, Frame>, read: map<int, int>,
          frames': map<int, Frame>)
    requires frames'.Keys == frames.Keys == read.Keys
    requires forall id :: id in read ==> RowUpdated(cfg, dusts, read[id], frames[id], frames'[id])
    ensures Updated(cfg, frames, dusts, read, frames')
  {
    var joined := Joined(cfg, frames, dusts, read);
    forall f | f in frames
      ensures if exists d :: (f, d) in joined
              then exists d :: Kept(frames, dusts, joined, f, d) && frames'[f] == frames[f].(dust := Some(d))
              else frames'[f] == frames[f]
    {
      assert RowUpdated(cfg, dusts, read[f], frames[f], frames'[f]);
      if d :| (f, d) in joined {
        assert HasCandidate(cfg, frames[f].receivedAt, dusts);
        assert (f, frames'[f].dust.value) in joined;
        assert Kept(frames, dusts, joined, f, frames'[f].dust.value);
      }
    }
  }
}
