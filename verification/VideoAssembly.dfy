/** Video upload: chunk messages are buffered per video and written out in order when
    the sender says it is done. */
module VideoAssembly {
  import opened Wrappers
  import opened DustFraming

  type Bytes = seq<byte>

  const NEWLINE: byte := 10

  /** The header of a chunk; the optional fields are only passed through. */
  datatype Meta = Meta(videoId: string, chunkSeq: int, totalChunks: int, station: string, extra: string)

  /** How headers are written and read. */
  datatype Codec = Codec(write: Meta -> Bytes, read: Bytes -> Option<Meta>)

  /** Written headers contain no newline and are read back as they were. */
  ghost predicate Sound(c: Codec) {
    forall m :: NEWLINE !in c.write(m) && c.read(c.write(m)) == Some(m)
  }

  // ----- payloads -----

  function Build(c: Codec, m: Meta, body: Bytes): Bytes {
    c.write(m) + [NEWLINE] + body
  }

  /** The header and what follows the first newline; None if it is malformed. */
  function Parse(c: Codec, payload: Bytes): Option<(Meta, Bytes)> {
    var sep := FirstNewline(payload);
    if sep == |payload| then None else
    match c.read(payload[..sep])
    case None => None
    case Some(m) => if m.station == "" then None else Some((m, payload[sep + 1..]))
  }

  function FirstNewline(payload: Bytes): (i: nat)
    ensures i <= |payload| && NEWLINE !in payload[..i] && (i < |payload| ==> payload[i] == NEWLINE)
  {
    if payload == [] || payload[0] == NEWLINE then 0 else
    var i := FirstNewline(payload[1..]);
    assert payload[..i + 1] == [payload[0]] + payload[1..][..i];
    1 + i
  }

  /** A built payload is parsed into the same header and body, whatever the body holds. */
  lemma ParseBuilt(c: Codec, m: Meta, body: Bytes)
    requires Sound(c) && m.station != ""
    ensures Parse(c, Build(c, m, body)) == Some((m, body))
  {
    var header, payload := c.write(m), Build(c, m, body);
    var sep := FirstNewline(payload);
    forall i | 0 <= i < |header| ensures payload[i] != NEWLINE {
      assert payload[i] == header[i] && header[i] in header;
    }
    forall i | 0 <= i < sep ensures payload[i] != NEWLINE { assert payload[..sep][i] in payload[..sep]; }
    assert payload[|header|] == NEWLINE;
    assert sep == |header|;
    assert payload[..sep] == header && payload[sep + 1..] == body;
  }

  /** Exactly the payloads that parse: a readable header that names a station, the first
      newline, and anything after it. */
  lemma WhatParses(c: Codec, payload: Bytes, m: Meta, body: Bytes)
    ensures Parse(c, payload) == Some((m, body)) <==>
      && m.station != ""
      && exists header :: NEWLINE !in header && payload == header + [10] + body && c.read(header) == Some(m)
  {
    var sep := FirstNewline(payload);
    if Parse(c, payload) == Some((m, body)) {
      var header := payload[..sep];
      assert NEWLINE !in header && payload == header + [10] + body && c.read(header) == Some(m);
    }
    if header :| NEWLINE !in header && payload == header + [10] + body && c.read(header) == Some(m) {
      forall i | 0 <= i < |header| ensures payload[i] != NEWLINE {
        assert payload[i] == header[i] && header[i] in header;
      }
      forall i | 0 <= i < sep ensures payload[i] != NEWLINE { assert payload[..sep][i] in payload[..sep]; }
      assert payload[|header|] == NEWLINE;
      assert sep == |header| && payload[..sep] == header && payload[sep + 1..] == body;
    }
  }

  // ----- buffers -----

  datatype Buffer = Buffer(totalChunks: int, chunks: map<int, Bytes>)

  predicate IsComplete(b: Buffer) {
    |b.chunks| == b.totalChunks
  }

  /** The chunks in ascending order of their numbers. */
  function Assemble(chunks: map<int, Bytes>): Bytes
    decreases |chunks|
  {
    if chunks == map[] then [] else
    assert |chunks.Keys| == |chunks| > 0;
    var k := Least(chunks.Keys);
    assert |(chunks - {k}).Keys| < |chunks.Keys| by { assert (chunks - {k}).Keys == chunks.Keys - {k}; }
    chunks[k] + Assemble(chunks - {k})
  }

  function Flatten(pieces: seq<Bytes>): Bytes {
    if pieces == [] then [] else pieces[0] + Flatten(pieces[1..])
  }

  /** `n` consecutive numbers. */
  function Range(k: int, n: nat): (ids: set<int>)
    ensures |ids| == n && forall i :: i in ids <==> k <= i < k + n
  {
    if n == 0 then {} else Range(k, n - 1) + {k + n - 1}
  }

  /** The pieces numbered from `k` on. */
  function Numbered(pieces: seq<Bytes>, k: int): (chunks: map<int, Bytes>)
    ensures chunks.Keys == Range(k, |pieces|)
  {
    map i | i in Range(k, |pieces|) :: pieces[i - k]
  }

  lemma NumberedTail(pieces: seq<Bytes>, k: int)
    requires pieces != []
    ensures var chunks := Numbered(pieces, k);
            && k in chunks && chunks[k] == pieces[0] && (forall i :: i in chunks ==> k <= i)
            && chunks - {k} == Numbered(pieces[1..], k + 1)
  {
  }

  lemma AssembleFirst(chunks: map<int, Bytes>, k: int)
    requires k in chunks && forall i :: i in chunks ==> k <= i
    ensures Assemble(chunks) == chunks[k] + Assemble(chunks - {k})
  {
    assert Least(chunks.Keys) == k;
  }

  /** All numbered pieces assembled give the body. */
  lemma {:induction false} AssembleNumbered(pieces: seq<Bytes>, k: int)
    ensures Assemble(Numbered(pieces, k)) == Flatten(pieces)
  {
    if pieces == [] {
      assert Numbered(pieces, k).Keys == {};
    } else {
      hide Numbered, Assemble;
      NumberedTail(pieces, k);
      AssembleFirst(Numbered(pieces, k), k);
      AssembleNumbered(pieces[1..], k + 1);
    }
  }

  // ----- the session -----

  type Session = map<string, Buffer>

  /** A chunk of an unknown station is refused unless its video is already buffered. */
  function AfterChunk(s: Session, active: set<string>, m: Meta, body: Bytes): Session {
    if m.videoId in s then
      var b := s[m.videoId];
      s[m.videoId := b.(chunks := b.chunks[m.chunkSeq := body])]
    else if m.station in active then s[m.videoId := Buffer(m.totalChunks, map[m.chunkSeq := body])]
    else s
  }

  lemma FullSubset(a: set<int>, b: set<int>)
    requires a <= b && |a| == |b|
    ensures a == b
  {
    assert b == a + (b - a);
    assert |b - a| == 0;
  }

  // ----- whole uploads -----

  /** How saving a complete video goes: stored, or the file holds only its first bytes or
      has no row, or not even the file could be opened. */
  datatype Save = Stored | Cut(n: nat) | NotBegun

  datatype Store = Store(buffers: Session, files: map<string, Bytes>)

  /** What reaches the handler: a built chunk, any other chunk payload, a completion. */
  datatype Event =
    | Piece(m: Meta, body: Bytes)
    | Raw(payload: Bytes)
    | Complete(video: string, save: Save)

  function AfterPayload(c: Codec, active: set<string>, st: Store, payload: Bytes): Store {
    match Parse(c, payload)
    case None => st
    case Some(p) => st.(buffers := AfterChunk(st.buffers, active, p.0, p.1))
  }

  predicate Completes(s: Session, video: string) {
    video in s && IsComplete(s[video])
  }

  function Saved(files: map<string, Bytes>, video: string, content: Bytes, save: Save): map<string, Bytes> {
    match save
    case Stored => files[video := content]
    case Cut(n) => files[video := if n < |content| then content[..n] else content]
    case NotBegun => files
  }

  /** An incomplete video is kept; a complete one is saved and its buffer dropped, even
      if the save fails. */
  function AfterComplete(st: Store, video: string, save: Save): Store {
    if !Completes(st.buffers, video) then st
    else Store(st.buffers - {video}, Saved(st.files, video, Assemble(st.buffers[video].chunks), save))
  }

  function AfterEvent(c: Codec, active: set<string>, st: Store, e: Event): Store {
    match e
    case Piece(m, body) => AfterPayload(c, active, st, Build(c, m, body))
    case Raw(payload) => AfterPayload(c, active, st, payload)
    case Complete(video, save) => AfterComplete(st, video, save)
  }

  function AfterEvents(c: Codec, active: set<string>, events: seq<Event>): Store {
    if events == [] then Store(map[], map[])
    else AfterEvent(c, active, AfterEvents(c, active, events[..|events| - 1]), events[|events| - 1])
  }

  /** This event is fair to the upload of `pieces` as `video`: a chunk of that video
      carries one of the pieces under its number; anything goes for other videos. */
  predicate FairEvent(c: Codec, e: Event, video: string, station: string, pieces: seq<Bytes>) {
    match e
    case Piece(m, body) =>
      && m.station != ""
      && (m.videoId == video ==>
            && m.station == station && m.totalChunks == |pieces|
            && 0 <= m.chunkSeq < |pieces| && body == pieces[m.chunkSeq])
    case Raw(payload) => var p := Parse(c, payload); p.Some? ==> p.value.0.videoId != video
    case Complete(_, _) => true
  }

  /** The numbers of the pieces that have arrived since the video was last completed. */
  function Arrived(events: seq<Event>, video: string, n: nat): set<int> {
    if events == [] then {} else
    var before := Arrived(events[..|events| - 1], video, n);
    match events[|events| - 1]
    case Piece(m, _) => if m.videoId == video then before + {m.chunkSeq} else before
    case Raw(_) => before
    case Complete(v, _) => if v == video && before == Range(0, n) then {} else before
  }

  function BufferOf(s: Session, video: string): Option<Buffer> {
    if video in s then Some(s[video]) else None
  }

  /** The buffer holds exactly these pieces. */
  ghost predicate Buffered(b: Option<Buffer>, pieces: seq<Bytes>, arrived: set<int>) {
    match b
    case None => arrived == {}
    case Some(b) =>
      && arrived != {} && b.totalChunks == |pieces| && b.chunks.Keys == arrived
      && forall i :: i in b.chunks ==> 0 <= i < |pieces| && b.chunks[i] == pieces[i]
  }

  /** And the file never holds anything but the body, whole or cut short. */
  ghost predicate Holds(st: Store, video: string, pieces: seq<Bytes>, arrived: set<int>) {
    && Buffered(BufferOf(st.buffers, video), pieces, arrived)
    && (video in st.files ==> st.files[video] <= Flatten(pieces))
  }

  lemma ChunkFacts(active: set<string>, s: Session, m: Meta, body: Bytes, video: string)
    ensures m.videoId != video ==> BufferOf(AfterChunk(s, active, m, body), video) == BufferOf(s, video)
    ensures m.videoId == video && video in s ==>
      BufferOf(AfterChunk(s, active, m, body), video) == Some(s[video].(chunks := s[video].chunks[m.chunkSeq := body]))
    ensures m.videoId == video && video !in s && m.station in active ==>
      BufferOf(AfterChunk(s, active, m, body), video) == Some(Buffer(m.totalChunks, map[m.chunkSeq := body]))
  {
  }

  lemma PieceBuffered(b: Buffer, pieces: seq<Bytes>, arrived: set<int>, i: int)
    requires 0 <= i < |pieces| && Buffered(Some(b), pieces, arrived)
    ensures Buffered(Some(b.(chunks := b.chunks[i := pieces[i]])), pieces, arrived + {i})
  {
  }

  lemma PieceHolds(c: Codec, active: set<string>, st: Store, m: Meta, body: Bytes, video: string, station: string,
          pieces: seq<Bytes>, arrived: set<int>)
    requires Sound(c) && station in active && FairEvent(c, Piece(m, body), video, station, pieces)
    requires Holds(st, video, pieces, arrived)
    ensures Holds(AfterEvent(c, active, st, Piece(m, body)), video, pieces,
                  if m.videoId == video then arrived + {m.chunkSeq} else arrived)
  {
    hide Sound, Build, Parse, Flatten, AfterChunk;
    ParseBuilt(c, m, body);
    ChunkFacts(active, st.buffers, m, body, video);
    if m.videoId == video && video in st.buffers {
      PieceBuffered(st.buffers[video], pieces, arrived, m.chunkSeq);
    }
  }

  lemma RawHolds(c: Codec, active: set<string>, st: Store, payload: Bytes, video: string, station: string,
          pieces: seq<Bytes>, arrived: set<int>)
    requires FairEvent(c, Raw(payload), video, station, pieces) && Holds(st, video, pieces, arrived)
    ensures Holds(AfterPayload(c, active, st, payload), video, pieces, arrived)
  {
    hide Parse, Flatten, Buffered, AfterChunk;
    var p := Parse(c, payload);
    if p.Some? { ChunkFacts(active, st.buffers, p.value.0, p.value.1, video); }
  }

  /** A complete buffer is one with all pieces, and these make up the body. */
  lemma CompleteIsAll(b: Buffer, pieces: seq<Bytes>, arrived: set<int>)
    requires Buffered(Some(b), pieces, arrived)
    ensures IsComplete(b) <==> arrived == Range(0, |pieces|)
    ensures IsComplete(b) ==> Assemble(b.chunks) == Flatten(pieces)
  {
    hide Flatten, Assemble;
    assert |b.chunks.Keys| == |b.chunks|;
    if IsComplete(b) {
      FullSubset(arrived, Range(0, |pieces|));
      assert b.chunks == Numbered(pieces, 0);
      AssembleNumbered(pieces, 0);
    }
  }

  lemma StillBeginning(files: map<string, Bytes>, v: string, content: Bytes, save: Save, video: string, body: Bytes)
    requires (video in files ==> files[video] <= body) && (v == video ==> content == body)
    ensures var files' := Saved(files, v, content, save); video in files' ==> files'[video] <= body
  {
  }

  lemma CompleteHolds(st: Store, video: string, pieces: seq<Bytes>, arrived: set<int>, v: string, save: Save)
    requires Holds(st, video, pieces, arrived)
    ensures Holds(AfterComplete(st, v, save), video, pieces,
                  if v == video && arrived == Range(0, |pieces|) then {} else arrived)
  {
    hide Flatten, Assemble, IsComplete, Saved, Range;
    if v in st.buffers {
      if v == video { CompleteIsAll(st.buffers[video], pieces, arrived); }
      if Completes(st.buffers, v) {
        StillBeginning(st.files, v, Assemble(st.buffers[v].chunks), save, video, Flatten(pieces));
        assert v != video ==> BufferOf(st.buffers - {v}, video) == BufferOf(st.buffers, video);
      }
    }
  }

  lemma NothingHeld(video: string, pieces: seq<Bytes>)
    ensures Holds(Store(map[], map[]), video, pieces, {})
  {
  }

  lemma {:induction false} EventsHold(c: Codec, active: set<string>, events: seq<Event>, video: string, station: string,
          pieces: seq<Bytes>)
    requires Sound(c) && station in active
    requires forall e :: e in events ==> FairEvent(c, e, video, station, pieces)
    ensures Holds(AfterEvents(c, active, events), video, pieces, Arrived(events, video, |pieces|))
  {
    hide Holds, Sound, FairEvent, AfterPayload, AfterComplete, Parse, Build;
    if events == [] {
      NothingHeld(video, pieces);
    } else {
      var front, e := events[..|events| - 1], events[|events| - 1];
      assert e in events;
      EventsHold(c, active, front, video, station, pieces);
      var st, arrived := AfterEvents(c, active, front), Arrived(front, video, |pieces|);
      match e
      case Piece(m, body) => PieceHolds(c, active, st, m, body, video, station, pieces, arrived);
      case Raw(payload) => RawHolds(c, active, st, payload, video, station, pieces, arrived);
      case Complete(v, save) => CompleteHolds(st, video, pieces, arrived, v, save);
    }
  }

  /** Any body cut into numbered pieces, each built into a payload and handed to the
      handler in any order, with any repetitions, with premature and repeated completions
      and other traffic in between: a completion goes through exactly when all pieces have
      arrived since the last one that did; when it is stored the file is the body, even if
      pieces contain newlines; otherwise the file is never more than a beginning of it. */
  lemma Reassembly(c: Codec, active: set<string>, events: seq<Event>, video: string, station: string, body: Bytes,
          pieces: seq<Bytes>, save: Save)
    requires Sound(c) && station in active && Flatten(pieces) == body
    requires forall e :: e in events ==> FairEvent(c, e, video, station, pieces)
    ensures var st := AfterEvents(c, active, events);
            var st' := AfterEvent(c, active, st, Complete(video, save));
            var all := pieces != [] && Arrived(events, video, |pieces|) == Range(0, |pieces|);
            && (Completes(st.buffers, video) <==> all)
            && (all ==> video !in st'.buffers && (save.Stored? ==> video in st'.files && st'.files[video] == body))
            && (!all ==> st' == st)
            && (video in st'.files ==> st'.files[video] <= body)
  {
    EventsHold(c, active, events, video, station, pieces);
    var st, arrived := AfterEvents(c, active, events), Arrived(events, video, |pieces|);
    hide AfterEvents, Arrived, Flatten, Assemble, FairEvent, Sound;
    if video in st.buffers { CompleteIsAll(st.buffers[video], pieces, arrived); }
    CompleteHolds(st, video, pieces, arrived, video, save);
  }

  lemma NotOpened(files: map<string, Bytes>, video: string, content: Bytes)
    ensures Saved(files, video, content, NotBegun) == files
  {
  }

  lemma Whole(files: map<string, Bytes>, video: string, content: Bytes)
    ensures content + Assemble(map[]) == content
    ensures Saved(files, video, content, Stored) == files[video := content]
  {
  }

  lemma CutShort(files: map<string, Bytes>, video: string, content: Bytes, chunk: Bytes, rest: Bytes, n: nat)
    requires n <= |chunk|
    ensures content + chunk + rest == content + (chunk + rest)
    ensures n == |chunk| ==> chunk[..n] == chunk
    ensures files[video := content][video := content + chunk[..n]] == files[video := content + chunk[..n]]
    ensures n < |chunk| ==>
      files[video := content + chunk[..n]] == Saved(files, video, content + (chunk + rest), Cut(|content| + n))
  {
    if n < |chunk| { assert content + chunk[..n] == (content + (chunk + rest))[..|content| + n]; }
  }

  // ----- the handler -----

  datatype Reply = Ack | Error

  class VideoHandler {
    const codec: Codec
    const active: set<string>
    var buffers: Session
    var files: map<string, Bytes>

    constructor (codec: Codec, active: set<string>)
      ensures this.codec == codec && this.active == active && View() == AfterEvents(codec, active, [])
    {
      this.codec, this.active, buffers, files := codec, active, map[], map[];
    }

    ghost function View(): Store
      reads this
    {
      Store(buffers, files)
    }

    method HandleChunk(payload: Bytes) returns (reply: Reply)
      modifies `buffers
      ensures View() == AfterPayload(codec, active, old(View()), payload)
      ensures reply.Ack? <==>
        var p := Parse(codec, payload);
        p.Some? && (p.value.0.videoId in old(buffers) || p.value.0.station in active)
      ensures reply.Ack? ==>
        var (m, body) := Parse(codec, payload).value;
        var known := m.videoId in old(buffers);
        && buffers.Keys == old(buffers).Keys + {m.videoId}
        && buffers[m.videoId].totalChunks == (if known then old(buffers)[m.videoId].totalChunks else m.totalChunks)
        && buffers[m.videoId].chunks == (if known then old(buffers)[m.videoId].chunks else map[])[m.chunkSeq := body]
        && forall v :: v in old(buffers) && v != m.videoId ==> buffers[v] == old(buffers)[v]
      ensures !reply.Ack? ==> buffers == old(buffers)
    {
      var parsed := Parse(codec, payload);
      if parsed.None? { return Error; }
      var (m, body) := parsed.value;
      if m.videoId !in buffers {
        if m.station !in active { return Error; }
        buffers := buffers[m.videoId := Buffer(m.totalChunks, map[])];
      }
      var b := buffers[m.videoId];
      buffers := buffers[m.videoId := b.(chunks := b.chunks[m.chunkSeq := body])];
      reply := Ack;
    }

    /** A write may fail after some bytes. */
    method Append(videoId: string, chunk: Bytes) returns (written: nat)
      requires videoId in files
      modifies `files
      ensures written <= |chunk| && files == old(files)[videoId := old(files)[videoId] + chunk[..written]]
    {
      var n: int := *;
      written := if 0 <= n < |chunk| then n else |chunk|;
      files := files[videoId := files[videoId] + chunk[..written]];
    }

    /** Write the chunks one after the other in order of their numbers; opening the file
        or any write may fail. */
    method AssembleAndSave(videoId: string, chunks: map<int, Bytes>) returns (ghost save: Save, ok: bool)
      modifies `files
      ensures files == Saved(old(files), videoId, Assemble(chunks), save) && (ok <==> save.Stored?)
    {
      hide Assemble, Saved;
      NotOpened(files, videoId, Assemble(chunks));
      var opens: bool := *;
      if !opens { return NotBegun, false; }
      ghost var content: Bytes := [];
      var rest := chunks;
      files := files[videoId := []];
      while rest != map[]
        invariant content + Assemble(rest) == Assemble(chunks) && files == old(files)[videoId := content]
        decreases |rest.Keys|
      {
        assert |rest.Keys| == |rest| > 0;
        var k := Least(rest.Keys);
        assert (rest - {k}).Keys == rest.Keys - {k};
        AssembleFirst(rest, k);
        var written := Append(videoId, rest[k]);
        CutShort(old(files), videoId, content, rest[k], Assemble(rest - {k}), written);
        if written < |rest[k]| { return Cut(|content| + written), false; }
        content, rest := content + rest[k], rest - {k};
      }
      Whole(old(files), videoId, content);
      save, ok := Stored, true;
    }

    /** A complete video is stored and its buffer dropped; an incomplete one is kept. A
        save that fails, or a row that cannot be inserted, drops the buffer too. */
    method HandleComplete(videoId: string) returns (reply: Reply, ghost save: Save)
      modifies this
      ensures View() == AfterComplete(old(View()), videoId, save)
      ensures reply.Ack? <==>
        && videoId in old(buffers) && |old(buffers)[videoId].chunks| == old(buffers)[videoId].totalChunks
        && save.Stored?
      ensures buffers == if videoId in old(buffers)
                            && |old(buffers)[videoId].chunks| == old(buffers)[videoId].totalChunks
                         then old(buffers) - {videoId} else old(buffers)
    {
      save := NotBegun;
      if videoId !in buffers { return Error, NotBegun; }
      var b := buffers[videoId];
      if !IsComplete(b) { return Error, NotBegun; }
      var ok, inserted: bool := false, *;
      save, ok := AssembleAndSave(videoId, b.chunks);
      if ok && !inserted { save, ok := Cut(|Assemble(b.chunks)|), false; }
      buffers := buffers - {videoId};
      reply := if ok then Ack else Error;
    }
  }
}
