/** The cleaner's purge loops over frame rows and the files they point to. */
module Purge {
  import opened Wrappers

  datatype FrameRow = FrameRow(receivedAt: int, path: string)

  datatype Video = Video(capturedAt: int, valid: bool, excluded: bool, path: string)

  /** Removing a file: it was there and is gone, it was not there, or the attempt failed. */
  datatype Unlinked = Gone | NotFound | Failed

  datatype Attempt = Attempt(path: string, outcome: Unlinked)

  predicate Tried(log: seq<Attempt>, path: string) {
    exists k :: 0 <= k < |log| && log[k].path == path
  }

  predicate TriedInVain(log: seq<Attempt>, path: string) {
    exists k :: 0 <= k < |log| && log[k] == Attempt(path, Failed)
  }

  function Failures(log: seq<Attempt>): nat {
    if log == [] then 0 else Failures(log[..|log| - 1]) + if log[|log| - 1].outcome.Failed? then 1 else 0
  }

  lemma {:induction false} FailuresConcat(a: seq<Attempt>, b: seq<Attempt>)
    ensures Failures(a + b) == Failures(a) + Failures(b)
  {
    if b == [] {
      assert a + b == a;
    } else {
      assert (a + b)[..|a + b| - 1] == a + b[..|b| - 1];
      FailuresConcat(a, b[..|b| - 1]);
    }
  }

  function SetOf(ids: seq<int>): (s: set<int>)
    ensures forall id :: id in s <==> id in ids
  {
    set id | id in ids
  }

  /** A batch of the oldest rows: none left behind is older than one taken. */
  ghost predicate OldestOf(frames: map<int, FrameRow>, ids: seq<int>, limit: nat) {
    && (forall i :: 0 <= i < |ids| ==> ids[i] in frames)
    && (forall i, j :: 0 <= i < j < |ids| ==> ids[i] != ids[j])
    && |ids| == (if |frames| <= limit then |frames| else limit)
    && (forall i, other :: 0 <= i < |ids| && other in frames && other !in ids ==>
          frames[ids[i]].receivedAt <= frames[other].receivedAt)
  }

  /** What a purge has done so far, by its log of unlink attempts: rows went only with
      their files, and a row was passed over only if its file was tried in vain. */
  ghost predicate Fair(before: map<int, FrameRow>, after: map<int, FrameRow>, files: set<string>, log: seq<Attempt>) {
    && after.Keys <= before.Keys && (forall id :: id in after ==> after[id] == before[id])
    && (forall id :: id in before && id !in after ==> before[id].path !in files)
    && (forall id, gone | id in after && gone in before && gone !in after ::
          before[id].receivedAt < before[gone].receivedAt ==> TriedInVain(log, before[id].path))
  }

  /** Each row's file was tried once, in this order; `ok` are the rows whose file is gone. */
  ghost predicate Attempts(frames: map<int, FrameRow>, ids: seq<int>, ok: set<int>, log: seq<Attempt>) {
    && |log| == |ids| && ok <= SetOf(ids) && (forall i :: 0 <= i < |ids| ==> ids[i] in frames)
    && (forall i :: 0 <= i < |ids| ==> log[i].path == frames[ids[i]].path)
    && (forall i :: 0 <= i < |ids| ==> (ids[i] in ok <==> !log[i].outcome.Failed?))
  }

  /** The last thing tried was a whole batch of the oldest rows there are, and every
      file of it in vain. */
  ghost predicate Stuck(frames: map<int, FrameRow>, limit: nat, log: seq<Attempt>) {
    exists ids :: OldestOf(frames, ids, limit) && |ids| <= |log| && Attempts(frames, ids, {}, log[|log| - |ids|..])
  }

  lemma FairStart(frames: map<int, FrameRow>, files: set<string>)
    ensures Fair(frames, frames, files, [])
  {
  }

  lemma StillTried(log: seq<Attempt>, more: seq<Attempt>, path: string)
    ensures TriedInVain(log, path) || TriedInVain(more, path) ==> TriedInVain(log + more, path)
  {
    if k :| 0 <= k < |log| && log[k] == Attempt(path, Failed) {
      assert (log + more)[k] == Attempt(path, Failed);
    }
    if k :| 0 <= k < |more| && more[k] == Attempt(path, Failed) {
      assert (log + more)[|log| + k] == Attempt(path, Failed);
    }
  }

  lemma TriedEither(log: seq<Attempt>, more: seq<Attempt>, path: string)
    ensures Tried(log, path) || Tried(more, path) ==> Tried(log + more, path)
  {
    if k :| 0 <= k < |log| && log[k].path == path {
      assert (log + more)[k].path == path;
    }
    if k :| 0 <= k < |more| && more[k].path == path {
      assert (log + more)[|log| + k].path == path;
    }
  }

  lemma AllTried(videos: map<int, Video>, gone: set<int>, ids: set<int>, log: seq<Attempt>, more: seq<Attempt>)
    requires forall id :: id in gone ==> id in videos && Tried(log, videos[id].path)
    requires forall id :: id in ids ==> id in videos && Tried(more, videos[id].path)
    ensures forall id :: id in gone + ids ==> id in videos && Tried(log + more, videos[id].path)
  {
    hide Tried;
    forall id | id in gone + ids ensures id in videos && Tried(log + more, videos[id].path) {
      TriedEither(log, more, videos[id].path);
    }
  }

  lemma MissedTried(frames: map<int, FrameRow>, ids: seq<int>, ok: set<int>, log: seq<Attempt>, id: int)
    requires Attempts(frames, ids, ok, log) && id in ids && id !in ok
    ensures TriedInVain(log, frames[id].path)
  {
    var i :| 0 <= i < |ids| && ids[i] == id;
    assert log[i] == Attempt(frames[id].path, Failed);
  }

  /** One batch: of the oldest rows those whose files are gone are deleted. */
  lemma FairBatch(before: map<int, FrameRow>, mid: map<int, FrameRow>, files: set<string>, log: seq<Attempt>,
          ids: seq<int>, limit: nat, ok: set<int>, files': set<string>, more: seq<Attempt>)
    requires Fair(before, mid, files, log) && OldestOf(mid, ids, limit) && Attempts(mid, ids, ok, more)
    requires files' <= files && (forall id :: id in ok ==> id in mid && mid[id].path !in files')
    ensures Fair(before, mid - ok, files', log + more)
  {
    hide TriedInVain;
    var after := mid - ok;
    forall id, gone | id in after && gone in before && gone !in after && before[id].receivedAt < before[gone].receivedAt
      ensures TriedInVain(log + more, before[id].path)
    {
      StillTried(log, more, before[id].path);
      if gone in mid {
        assert gone in ok;
        var i :| 0 <= i < |ids| && ids[i] == gone;
        assert id in ids;
        MissedTried(mid, ids, ok, more, id);
      }
    }
  }

  lemma OldestFacts(frames: map<int, FrameRow>, ids: seq<int>, limit: nat)
    requires OldestOf(frames, ids, limit)
    ensures forall i :: 0 <= i < |ids| ==> ids[i] in frames
    ensures forall i, j :: 0 <= i < j < |ids| ==> ids[i] != ids[j]
    ensures |ids| == if |frames| <= limit then |frames| else limit
  {
  }

  lemma Fewer(frames: map<int, FrameRow>, ok: set<int>)
    requires ok <= frames.Keys
    ensures |frames - ok| == |frames| - |ok|
  {
    assert (frames - ok).Keys == frames.Keys - ok;
    assert |frames.Keys| == |frames| && |(frames - ok).Keys| == |frames - ok|;
  }

  const EMERGENCY_CAP := 1000
  const PURGE_CAP := 100000

  lemma AttemptsFacts(frames: map<int, FrameRow>, ids: seq<int>, ok: set<int>, log: seq<Attempt>)
    requires Attempts(frames, ids, ok, log)
    ensures ok <= frames.Keys && ok <= SetOf(ids) && |log| == |ids|
  {
  }

  lemma NoneYet(frames: map<int, FrameRow>)
    ensures Failures([]) == 0 && Attempts(frames, [], {}, [])
  {
  }

  lemma OneMore(frames: map<int, FrameRow>, ids: seq<int>, i: nat, ok: set<int>, log: seq<Attempt>, r: Unlinked)
    requires i < |ids| && ids[i] in frames && ids[i] !in ids[..i] && Attempts(frames, ids[..i], ok, log)
    ensures Attempts(frames, ids[..i + 1], if r.Failed? then ok else ok + {ids[i]},
                     log + [Attempt(frames[ids[i]].path, r)])
    ensures Failures(log + [Attempt(frames[ids[i]].path, r)]) == Failures(log) + if r.Failed? then 1 else 0
  {
    var more := log + [Attempt(frames[ids[i]].path, r)];
    assert more[..|more| - 1] == log;
    assert ids[..i + 1] == ids[..i] + [ids[i]];
    forall k | 0 <= k < i ensures ids[..i][k] == ids[k] && ids[k] != ids[i] { assert ids[k] in ids[..i]; }
  }

  lemma StuckNow(frames: map<int, FrameRow>, ids: seq<int>, limit: nat, earlier: seq<Attempt>, more: seq<Attempt>)
    requires OldestOf(frames, ids, limit) && Attempts(frames, ids, {}, more)
    ensures Stuck(frames, limit, earlier + more)
  {
    var log := earlier + more;
    assert |more| == |ids|;
    assert log[|log| - |ids|..] == more;
  }

  class Storage {
    var frames: map<int, FrameRow>
    var videos: map<int, Video>
    var files: set<string>
    ghost var log: seq<Attempt>

    /** The oldest rows by receive time; ties in any order. */
    method FetchOldest(limit: nat) returns (ids: seq<int>)
      ensures OldestOf(frames, ids, limit)
    {
      ids := [];
      var left := frames.Keys;
      assert |frames.Keys| == |frames|;
      while left != {} && |ids| < limit
        invariant left <= frames.Keys && |ids| + |left| == |frames.Keys| && |ids| <= limit
        invariant forall i :: 0 <= i < |ids| ==> ids[i] in frames && ids[i] !in left
        invariant forall i, j :: 0 <= i < j < |ids| ==> ids[i] != ids[j]
        invariant forall id :: id in frames ==> id in left || id in ids
        invariant forall i, other :: 0 <= i < |ids| && other in left ==>
          frames[ids[i]].receivedAt <= frames[other].receivedAt
        decreases left
      {
        var id := Oldest(left);
        ids, left := ids + [id], left - {id};
      }
    }

    method Oldest(ids: set<int>) returns (oldest: int)
      requires ids != {} && ids <= frames.Keys
      ensures oldest in ids && forall id :: id in ids ==> frames[oldest].receivedAt <= frames[id].receivedAt
    {
      ghost var some: int := PickOne(ids);
      oldest :| oldest in ids;
      var left := ids - {oldest};
      while left != {}
        invariant left <= ids && oldest in ids
        invariant forall id :: id in ids && id !in left ==> frames[oldest].receivedAt <= frames[id].receivedAt
        decreases left
      {
        ghost var next: int := PickOne(left);
        var id :| id in left;
        left := left - {id};
        if frames[id].receivedAt < frames[oldest].receivedAt { oldest := id; }
      }
    }

    method Unlink(path: string) returns (r: Unlinked)
      modifies `files, `log
      ensures log == old(log) + [Attempt(path, r)]
      ensures match r
              case Gone => path in old(files) && files == old(files) - {path}
              case NotFound => path !in old(files) && files == old(files)
              case Failed => files == old(files)
    {
      var denied: bool := *;
      r := if denied then Failed else if path in files then Gone else NotFound;
      if r.Gone? { files := files - {path}; }
      log := log + [Attempt(path, r)];
    }

    /** Try to remove the files of these rows, one after the other; report whose are gone. */
    method UnlinkAll(ids: seq<int>) returns (ok: set<int>, deleted: nat, failures: nat)
      requires forall i :: 0 <= i < |ids| ==> ids[i] in frames
      requires forall i, j :: 0 <= i < j < |ids| ==> ids[i] != ids[j]
      modifies `files, `log
      ensures |old(log)| <= |log| && log[..|old(log)|] == old(log)
      ensures Attempts(frames, ids, ok, log[|old(log)|..])
      ensures failures == Failures(log[|old(log)|..]) && |ok| + failures == |ids|
      ensures files <= old(files) && deleted == |old(files)| - |files| && deleted <= |ok|
      ensures forall id :: id in ok ==> id in frames && frames[id].path !in files
    {
      hide Attempts, Failures, SetOf;
      ok, deleted, failures := {}, 0, 0;
      ghost var start := |log|;
      assert log[start..] == [] && ids[..0] == [];
      NoneYet(frames);
      for i := 0 to |ids|
        invariant |log| == start + i && log[..start] == old(log)
        invariant Attempts(frames, ids[..i], ok, log[start..]) && failures == Failures(log[start..])
        invariant files <= old(files) && deleted == |old(files)| - |files|
        invariant forall id :: id in ok ==> id in frames && frames[id].path !in files
        invariant |ok| + failures == i && deleted <= |ok|
      {
        ghost var before, tried := log[start..], ok;
        assert ids[i] !in ids[..i];
        AttemptsFacts(frames, ids[..i], ok, before);
        var r := Unlink(frames[ids[i]].path);
        assert log[start..] == before + [Attempt(frames[ids[i]].path, r)];
        match r {
          case Gone => ok, deleted := ok + {ids[i]}, deleted + 1;
          case NotFound => ok := ok + {ids[i]};
          case Failed => failures := failures + 1;
        }
        OneMore(frames, ids, i, tried, before, r);
      }
      assert ids[..|ids|] == ids;
    }

    /** How full the disk is, if it can be told; other programs use it too. */
    method DiskPercent() returns (pct: Option<real>)
    {
      pct := *;
    }

    /** Under disk pressure: drop the oldest frames batch by batch until usage is low
        enough, nothing is left, or a whole batch cannot be removed. */
    method EmergencyPurge(threshold: real, target: real, batch: nat)
      returns (activated: bool, deleted: nat, failures: nat, iterations: nat,
            ghost readings: seq<Option<real>>, ghost batches: nat)
      modifies `frames, `files, `log
      ensures |old(log)| <= |log| && log[..|old(log)|] == old(log)
      ensures Fair(old(frames), frames, files, log[|old(log)|..])
      ensures deleted == |old(files)| - |files| && deleted <= |old(frames)| - |frames|
      ensures failures == Failures(log[|old(log)|..])
      ensures iterations <= |old(frames)| - |frames| + 1 && iterations <= 1000
      ensures readings != [] && (activated <==> readings[0].Some? && readings[0].value >= threshold)
      ensures !activated ==> frames == old(frames) && log == old(log) && |readings| == 1
      ensures batches < |readings|
      ensures forall k :: 1 <= k <= batches ==> readings[k].Some? && readings[k].value > target
      ensures |log| - |old(log)| <= batch * batches
      ensures var last := readings[|readings| - 1];
              activated && iterations < 1000 && last.Some? && last.value > target ==>
                Stuck(frames, batch, log[|old(log)|..])
    {
      hide Fair, OldestOf, Stuck, Attempts, Failures;
      activated, deleted, failures, iterations, batches := false, 0, 0, 0, 0;
      ghost var start := |log|;
      assert log[start..] == [];
      NoneYet(frames);
      FairStart(frames, files);
      var used := DiskPercent();
      readings := [used];
      if used.None? || used.value < threshold { return; }
      activated := true;
      while iterations < EMERGENCY_CAP
        invariant start <= |log| && log[..start] == old(log)
        invariant Fair(old(frames), frames, files, log[start..]) && failures == Failures(log[start..])
        invariant deleted == |old(files)| - |files| && deleted <= |old(frames)| - |frames|
        invariant iterations <= |old(frames)| - |frames| && iterations <= EMERGENCY_CAP
        invariant batches == iterations == |readings| - 1 && readings[0].Some? && readings[0].value >= threshold
        invariant forall k :: 1 <= k <= batches ==> readings[k].Some? && readings[k].value > target
        invariant |log| - start <= batch * batches
        decreases |frames|
      {
        iterations := iterations + 1;
        used := DiskPercent();
        readings := readings + [used];
        if used.None? || used.value <= target { break; }
        assert batch * (batches + 1) == batch * batches + batch;
        batches := batches + 1;
        var ok, gone, missed := PurgeBatch(batch, old(frames), start);
        deleted, failures := deleted + gone, failures + missed;
        if ok == {} { break; }
      }
    }

    /** Fetch one batch, remove its files, delete the rows whose files are gone. The log
        of the whole purge began at `start`. */
    method PurgeBatch(batch: nat, ghost before: map<int, FrameRow>, ghost start: nat)
      returns (ok: set<int>, deleted: nat, failures: nat)
      requires start <= |log| && Fair(before, frames, files, log[start..])
      modifies `frames, `files, `log
      ensures |old(log)| <= |log| <= |old(log)| + batch && log[..start] == old(log)[..start]
      ensures Fair(before, frames, files, log[start..])
      ensures frames == old(frames) - ok && ok <= old(frames).Keys && |frames| == |old(frames)| - |ok|
      ensures deleted == |old(files)| - |files| && deleted <= |ok|
      ensures Failures(log[start..]) == Failures(old(log)[start..]) + failures
      ensures ok == {} ==> Stuck(frames, batch, log[start..])
    {
      hide Fair, OldestOf, Failures, Stuck, Attempts;
      var ids := FetchOldest(batch);
      OldestFacts(frames, ids, batch);
      ok, deleted, failures := UnlinkAll(ids);
      ghost var earlier, more := old(log)[start..], log[|old(log)|..];
      assert log[start..] == earlier + more;
      AttemptsFacts(frames, ids, ok, more);
      FairBatch(before, frames, old(files), earlier, ids, batch, ok, files, more);
      FailuresConcat(earlier, more);
      if ok == {} { StuckNow(frames, ids, batch, earlier, more); }
      Fewer(frames, ok);
      frames := frames - ok;
      assert ok == {} ==> frames == old(frames);
    }

    /** The operator's button: delete every frame now. */
    method PurgeAllFrames(batch: nat) returns (deleted: nat, failures: nat, iterations: nat)
      modifies `frames, `files, `log
      ensures |old(log)| <= |log| && log[..|old(log)|] == old(log)
      ensures Fair(old(frames), frames, files, log[|old(log)|..])
      ensures deleted == |old(files)| - |files| && deleted <= |old(frames)| - |frames|
      ensures failures == Failures(log[|old(log)|..])
      ensures iterations <= |old(frames)| - |frames| + 1 && iterations <= 100000
      ensures iterations < 100000 ==> Stuck(frames, batch, log[|old(log)|..])
    {
      hide Fair, OldestOf, Stuck, Attempts, Failures;
      deleted, failures, iterations := 0, 0, 0;
      ghost var start := |log|;
      assert log[start..] == [];
      NoneYet(frames);
      FairStart(frames, files);
      while iterations < PURGE_CAP
        invariant start <= |log| && log[..start] == old(log)
        invariant Fair(old(frames), frames, files, log[start..]) && failures == Failures(log[start..])
        invariant deleted == |old(files)| - |files| && deleted <= |old(frames)| - |frames|
        invariant iterations <= |old(frames)| - |frames| && iterations <= PURGE_CAP
        decreases |frames|
      {
        iterations := iterations + 1;
        var ok, gone, missed := PurgeBatch(batch, old(frames), start);
        deleted, failures := deleted + gone, failures + missed;
        if ok == {} { break; }
      }
    }

    /** Some expired videos, up to the limit. */
    method FetchExpired(normal: bool, cutoff: int, limit: nat) returns (ids: set<int>)
      ensures ids <= Expired(videos, normal, cutoff)
      ensures |ids| == if |Expired(videos, normal, cutoff)| <= limit then |Expired(videos, normal, cutoff)| else limit
    {
      hide Expired;
      var left := Expired(videos, normal, cutoff);
      ids := {};
      while left != {} && |ids| < limit
        invariant ids + left == Expired(videos, normal, cutoff) && ids !! left && |ids| <= limit
        decreases left
      {
        ghost var some: int := PickOne(left);
        var id :| id in left;
        ids, left := ids + {id}, left - {id};
      }
      assert |ids + left| == |ids| + |left|;
    }

    /** One batch of expired videos: files first, then the rows, whether or not the
        files could be removed. */
    method PurgeVideoBatch(normal: bool, cutoff: int, batch: nat) returns (ids: set<int>)
      modifies `videos, `files, `log
      ensures ids <= Expired(old(videos), normal, cutoff) && videos == old(videos) - ids && files <= old(files)
      ensures |old(log)| <= |log| && log[..|old(log)|] == old(log)
      ensures forall id :: id in ids ==> Tried(log[|old(log)|..], old(videos)[id].path)
      ensures |videos| == |old(videos)| - |ids| && |ids| <= batch
      ensures |ids| < batch ==> ids == Expired(old(videos), normal, cutoff)
    {
      hide Expired;
      ids := FetchExpired(normal, cutoff, batch);
      UnlinkVideos(ids);
      FewerVideos(videos, ids);
      AllExpired(Expired(videos, normal, cutoff), ids);
      videos := videos - ids;
    }

    /** The age-based purge of one kind of video. The clock moves on between batches. */
    method PurgeVideos(normal: bool, batch: nat) returns (total: nat, cutoff: int)
      modifies `videos, `files, `log
      ensures |old(log)| <= |log| && log[..|old(log)|] == old(log)
      ensures forall id :: id in old(videos) && id !in videos ==> Tried(log[|old(log)|..], old(videos)[id].path)
      ensures batch > 0 ==> videos == old(videos) - Expired(old(videos), normal, cutoff)
      ensures batch > 0 ==> forall id :: id in old(videos) ==>
        var v := old(videos)[id];
        id !in videos <==> v.capturedAt < cutoff && (if normal then v.valid && !v.excluded else !v.valid || v.excluded)
      ensures batch == 0 ==> videos == old(videos)
      ensures total == |old(videos)| - |videos| && files <= old(files)
    {
      hide Expired, Tried;
      total, cutoff := 0, *;
      ghost var gone: set<int> := {};
      ghost var start := |log|;
      while true
        invariant start <= |log| && log[..start] == old(log)
        invariant forall id :: id in gone ==> id in old(videos) && Tried(log[start..], old(videos)[id].path)
        invariant gone <= Expired(old(videos), normal, cutoff) && videos == old(videos) - gone
        invariant total == |old(videos)| - |videos| && files <= old(files) && (batch == 0 ==> gone == {})
        decreases |videos|
      {
        var step: int := *;
        var later := if step > 0 then cutoff + step else cutoff;
        ExpiredLater(old(videos), normal, cutoff, later);
        cutoff := later;
        ghost var earlier := log;
        var ids := PurgeVideoBatch(normal, cutoff, batch);
        assert log[start..] == earlier[start..] + log[|earlier|..];
        AllTried(old(videos), gone, ids, earlier[start..], log[|earlier|..]);
        NextGone(old(videos), gone, ids, normal, cutoff);
        gone, total := gone + ids, total + |ids|;
        if ids == {} || |ids| < batch { break; }
      }
      ExpiredIs(old(videos), normal, cutoff);
    }

    method UnlinkVideos(ids: set<int>)
      requires ids <= videos.Keys
      modifies `files, `log
      ensures files <= old(files)
      ensures |old(log)| <= |log| && log[..|old(log)|] == old(log)
      ensures forall id :: id in ids ==> Tried(log[|old(log)|..], videos[id].path)
    {
      var left := ids;
      ghost var start := |log|;
      while left != {}
        invariant left <= ids && files <= old(files)
        invariant start <= |log| && log[..start] == old(log)
        invariant forall id :: id in ids && id !in left ==> Tried(log[start..], videos[id].path)
        decreases left
      {
        ghost var some: int := PickOne(left);
        var id :| id in left;
        left := left - {id};
        ghost var earlier := log[start..];
        var r := Unlink(videos[id].path);
        assert log[start..] == earlier + [Attempt(videos[id].path, r)];
        forall other | other in ids && other !in left ensures Tried(log[start..], videos[other].path) {
          TriedEither(earlier, [Attempt(videos[id].path, r)], videos[other].path);
          if other == id { assert [Attempt(videos[id].path, r)][0].path == videos[id].path; }
        }
      }
    }
  }

  /** Normal videos are the valid ones that are not excluded. */
  lemma ExpiredIs(videos: map<int, Video>, normal: bool, cutoff: int)
    ensures forall id :: id in videos ==>
      var v := videos[id];
      id in Expired(videos, normal, cutoff) <==>
        v.capturedAt < cutoff && if normal then v.valid && !v.excluded else !v.valid || v.excluded
  {
  }


  /** Videos of one kind - accepted ones, or rejected and excluded ones - older than
      the cutoff. */
  function Expired(videos: map<int, Video>, normal: bool, cutoff: int): (ids: set<int>)
    ensures ids <= videos.Keys
  {
    set id | id in videos && (videos[id].valid && !videos[id].excluded) == normal && videos[id].capturedAt < cutoff
  }

  lemma ExpiredLater(videos: map<int, Video>, normal: bool, cutoff: int, later: int)
    requires cutoff <= later
    ensures Expired(videos, normal, cutoff) <= Expired(videos, normal, later)
  {
  }

  lemma ExpiredRest(videos: map<int, Video>, gone: set<int>, normal: bool, cutoff: int)
    ensures Expired(videos - gone, normal, cutoff) == Expired(videos, normal, cutoff) - gone
  {
  }

  lemma NextGone(videos: map<int, Video>, gone: set<int>, ids: set<int>, normal: bool, cutoff: int)
    requires gone <= Expired(videos, normal, cutoff) && ids <= Expired(videos - gone, normal, cutoff)
    ensures gone + ids <= Expired(videos, normal, cutoff) && videos - gone - ids == videos - (gone + ids)
    ensures ids == Expired(videos - gone, normal, cutoff) ==> gone + ids == Expired(videos, normal, cutoff)
  {
    ExpiredRest(videos, gone, normal, cutoff);
  }

  lemma AllExpired(expired: set<int>, ids: set<int>)
    requires ids <= expired
    ensures |ids| == |expired| ==> ids == expired
  {
    assert expired == ids + (expired - ids);
    if |ids| == |expired| { assert |expired - ids| == 0; }
  }

  lemma FewerVideos(videos: map<int, Video>, ids: set<int>)
    requires ids <= videos.Keys
    ensures |videos - ids| == |videos| - |ids|
  {
    assert (videos - ids).Keys == videos.Keys - ids;
    assert |videos.Keys| == |videos| && |(videos - ids).Keys| == |videos - ids|;
  }
}
