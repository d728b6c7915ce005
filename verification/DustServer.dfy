/** The DUST listener's frame loop, and what it delivers from any byte stream. */
module DustServer {
  import opened Wrappers
  import opened DustFraming

  datatype Frame = Frame(header: Header, body: seq<byte>)

  datatype Exit = HeaderEof | HeaderRejected | BodyTruncated

  datatype Outcome = Outcome(delivered: seq<Frame>, exit: Exit)

  /** A stream at which the loop stops at once, delivering nothing. */
  predicate Stuck(stream: seq<byte>) {
    || |stream| < HEADER_SIZE
    || ValidateHeader(HeaderOf(stream)).Some?
    || |stream| < HEADER_SIZE + HeaderOf(stream).length
  }

  function HeaderOf(stream: seq<byte>): (h: Header)
    requires |stream| >= HEADER_SIZE
    ensures h.length >= 0
  {
    UnpackHeader(stream[..HEADER_SIZE]).value
  }

  function First(stream: seq<byte>): (f: Frame)
    requires !Stuck(stream)
  {
    Frame(HeaderOf(stream), stream[HEADER_SIZE..HEADER_SIZE + HeaderOf(stream).length])
  }

  function Rest(stream: seq<byte>): (rest: seq<byte>)
    requires !Stuck(stream)
    ensures |rest| < |stream|
  {
    stream[HEADER_SIZE + HeaderOf(stream).length..]
  }

  function StopReason(stream: seq<byte>): Exit
    requires Stuck(stream)
  {
    if |stream| < HEADER_SIZE then HeaderEof
    else if ValidateHeader(HeaderOf(stream)).Some? then HeaderRejected
    else BodyTruncated
  }

  /** What the loop makes of a stream, frame by frame from the front. */
  function Receive(stream: seq<byte>): Outcome
    decreases |stream|
  {
    if Stuck(stream) then Outcome([], StopReason(stream)) else
    var later := Receive(Rest(stream));
    later.(delivered := Handled(First(stream)) + later.delivered)
  }

  /** A frame a conforming sender may put on the wire. */
  predicate ValidFrame(f: Frame) {
    InRange(f.header) && ValidateHeader(f.header).None? && |f.body| == f.header.length
  }

  predicate ValidFrames(frames: seq<Frame>) {
    forall i :: 0 <= i < |frames| ==> ValidFrame(frames[i])
  }

  function Encode(frames: seq<Frame>): seq<byte>
    requires ValidFrames(frames)
  {
    if frames == [] then []
    else PackHeader(frames[0].header).value + frames[0].body + Encode(frames[1..])
  }

  /** The handler calls one well-formed frame leads to: an encrypted frame is
      read off the stream and dropped. */
  function Handled(f: Frame): seq<Frame> {
    if f.header.encryption == 0 then [f] else []
  }

  function Plain(frames: seq<Frame>): seq<Frame> {
    if frames == [] then [] else Handled(frames[0]) + Plain(frames[1..])
  }

  /** One encoded frame in front of a stream is one step of the loop. */
  lemma FirstOfEncoded(f: Frame, rest: seq<byte>)
    requires ValidFrame(f)
    ensures var stream := PackHeader(f.header).value + (f.body + rest);
            !Stuck(stream) && First(stream) == f && Rest(stream) == rest
  {
    var head := PackHeader(f.header).value;
    var stream := head + (f.body + rest);
    assert stream[..HEADER_SIZE] == head;
    UnpackUndoesPack(f.header);
    assert stream[HEADER_SIZE..HEADER_SIZE + f.header.length] == f.body;
    assert stream[HEADER_SIZE + f.header.length..] == rest;
  }

  lemma EncodeCons(frames: seq<Frame>, rest: seq<byte>)
    requires ValidFrames(frames) && frames != []
    ensures Encode(frames) + rest
         == PackHeader(frames[0].header).value + (frames[0].body + (Encode(frames[1..]) + rest))
  {
  }

  /** Valid frames followed by any bytes: the plain frames come out in order, and
      the loop then goes on exactly as it would on the bytes alone. */
  lemma {:induction false} ReceiveEncoded(frames: seq<Frame>, rest: seq<byte>)
    requires ValidFrames(frames)
    ensures Receive(Encode(frames) + rest).delivered == Plain(frames) + Receive(rest).delivered
    ensures Receive(Encode(frames) + rest).exit == Receive(rest).exit
  {
    hide UnpackHeader, PackHeader, ValidateHeader, InRange;
    if frames == [] {
      assert Encode(frames) + rest == rest;
    } else {
      EncodeCons(frames, rest);
      FirstOfEncoded(frames[0], Encode(frames[1..]) + rest);
      ReceiveEncoded(frames[1..], rest);
      assert Handled(frames[0]) + (Plain(frames[1..]) + Receive(rest).delivered)
          == Plain(frames) + Receive(rest).delivered;
    }
  }

  /** A stream that is not stuck starts with the encoding of a valid frame. */
  lemma FirstIsEncoded(stream: seq<byte>)
    requires !Stuck(stream)
    ensures ValidFrame(First(stream))
    ensures stream == PackHeader(First(stream).header).value + (First(stream).body + Rest(stream))
  {
    PackUndoesUnpack(stream[..HEADER_SIZE]);
  }

  /** Every stream is valid frames followed by a stuck tail, and what is delivered
      is the plain ones among them: nothing after the first rejected header or
      truncated body is ever delivered. */
  lemma {:induction false} ReceiveDecomposes(stream: seq<byte>) returns (frames: seq<Frame>, tail: seq<byte>)
    ensures ValidFrames(frames) && Stuck(tail)
    ensures stream == Encode(frames) + tail
    ensures Receive(stream) == Outcome(Plain(frames), StopReason(tail))
    decreases |stream|
  {
    if Stuck(stream) {
      return [], stream;
    }
    FirstIsEncoded(stream);
    var more;
    more, tail := ReceiveDecomposes(Rest(stream));
    frames := [First(stream)] + more;
    assert frames[1..] == more;
    EncodeCons(frames, tail);
  }

  /** The twelve bytes a conforming sender starts a frame with. */
  predicate HeaderAccepted(s: seq<byte>)
    requires |s| >= 12
  {
    s[..5] == [0xBB, 0xAA, 0x02, 0xD0, 2] && Word(s[10], s[11], 0, 0) <= 1448
  }

  /** Where a stream stops the loop, and the frame it starts with if it does not. */
  lemma FirstInBytes(stream: seq<byte>)
    requires |stream| >= 12
    ensures ValidateHeader(HeaderOf(stream)).None? <==> HeaderAccepted(stream)
    ensures HeaderOf(stream).length == Word(stream[10], stream[11], 0, 0)
    ensures HeaderOf(stream).encryption == stream[5]
    ensures HeaderAccepted(stream) ==>
      var time := Word(stream[6], stream[7], stream[8], stream[9]);
      HeaderOf(stream) == Header(0xAABB, 0xD002, 2, stream[5], time, Word(stream[10], stream[11], 0, 0))
  {
    hide UnpackHeader, ValidateHeader;
    HeaderBytes(stream[..12]);
    RulesInNumbers(HeaderOf(stream));
    assert stream[..5] == [stream[0], stream[1], stream[2], stream[3], stream[4]];
  }

  /** The loop byte by byte, on every stream. */
  lemma ReceiveInBytes(stream: seq<byte>)
    ensures |stream| < 12 ==> Receive(stream) == Outcome([], HeaderEof)
    ensures |stream| >= 12 && !HeaderAccepted(stream) ==> Receive(stream) == Outcome([], HeaderRejected)
    ensures |stream| >= 12 && HeaderAccepted(stream) ==>
      var end := 12 + Word(stream[10], stream[11], 0, 0);
      if |stream| < end then Receive(stream) == Outcome([], BodyTruncated)
      else
        var later := Receive(stream[end..]);
        var time := Word(stream[6], stream[7], stream[8], stream[9]);
        var f := Frame(Header(0xAABB, 0xD002, 2, stream[5], time, end - 12), stream[12..end]);
        && Receive(stream).exit == later.exit
        && Receive(stream).delivered == (if stream[5] == 0 then [f] else []) + later.delivered
  {
    hide HeaderAccepted, ValidateHeader, UnpackHeader;
    if |stream| >= 12 {
      FirstInBytes(stream);
    }
  }

  /** The decomposition is the only one, so "the frames in the stream" is well defined. */
  lemma {:induction false} DecompositionUnique(a: seq<Frame>, s: seq<byte>, b: seq<Frame>, t: seq<byte>)
    requires ValidFrames(a) && ValidFrames(b) && Stuck(s) && Stuck(t)
    requires Encode(a) + s == Encode(b) + t
    ensures a == b && s == t
    decreases |a|
  {
    if a != [] {
      EncodeCons(a, s);
      FirstOfEncoded(a[0], Encode(a[1..]) + s);
    } else {
      assert Encode(a) + s == s;
    }
    if b != [] {
      EncodeCons(b, t);
      FirstOfEncoded(b[0], Encode(b[1..]) + t);
    } else {
      assert Encode(b) + t == t;
    }
    if a != [] && b != [] {
      DecompositionUnique(a[1..], s, b[1..], t);
      assert a == [a[0]] + a[1..] && b == [b[0]] + b[1..];
    }
  }

  /** After handling `handled` the loop has the stream `left` still to read. */
  ghost predicate ResumesAt(stream: seq<byte>, handled: seq<Frame>, left: seq<byte>) {
    && Receive(stream).delivered == handled + Receive(left).delivered
    && Receive(stream).exit == Receive(left).exit
  }

  lemma ResumeNext(stream: seq<byte>, handled: seq<Frame>, left: seq<byte>)
    requires ResumesAt(stream, handled, left) && !Stuck(left)
    ensures ResumesAt(stream, handled + Handled(First(left)), Rest(left))
  {
  }

  /** One accepted connection: the unread bytes, and the calls made to the handler.
      Handler failures are swallowed by the loop, so they leave no trace here. */
  class Connection {
    var unread: seq<byte>
    var delivered: seq<Frame>

    constructor (incoming: seq<byte>)
      ensures unread == incoming && delivered == []
    {
      unread, delivered := incoming, [];
    }

    /** Read exactly `n` bytes, or report end of stream. */
    method ReadExactly(n: nat) returns (bytes: Option<seq<byte>>)
      modifies this`unread
      ensures bytes.Some? <==> n <= |old(unread)|
      ensures bytes.Some? ==> bytes.value == old(unread)[..n] && unread == old(unread)[n..]
      ensures bytes.None? ==> unread == []
    {
      if n <= |unread| {
        bytes, unread := Some(unread[..n]), unread[n..];
      } else {
        bytes, unread := None, [];
      }
    }

    method OnConnect() returns (exit: Exit)
      modifies this
      ensures delivered == old(delivered) + Receive(old(unread)).delivered
      ensures exit == Receive(old(unread)).exit
    {
      hide UnpackHeader, ValidateHeader;
      ghost var handled: seq<Frame> := [];
      while true
        invariant delivered == old(delivered) + handled
        invariant ResumesAt(old(unread), handled, unread)
        decreases |unread|
      {
        ghost var before := unread;
        var head := ReadExactly(HEADER_SIZE);
        if head.None? {
          return HeaderEof;
        }
        var hdr := UnpackHeader(head.value).value;
        if ValidateHeader(hdr).Some? {
          return HeaderRejected;
        }
        var body := ReadExactly(hdr.length);
        if body.None? {
          return BodyTruncated;
        }
        ResumeNext(old(unread), handled, before);
        assert unread == Rest(before) && Frame(hdr, body.value) == First(before);
        handled := handled + Handled(First(before));
        if IsEncrypted(hdr) {
          continue;
        }
        delivered := delivered + [Frame(hdr, body.value)];
      }
    }
  }
}
