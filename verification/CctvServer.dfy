/** The CCTV listener's frame loop, and what it delivers from any byte stream. */
module CctvServer {
  import opened Wrappers
  import opened DustFraming
  import opened CctvFraming

  /** A frame as a sender puts it on the wire: its length in either byte order. */
  datatype WireFrame = WireFrame(resolution: string, body: seq<byte>, order: ByteOrder)

  /** A call of the frame handler. */
  datatype Image = Image(body: seq<byte>, resolution: string)

  datatype Exit = HeaderEof | HeaderRejected | FrameTooLarge | BodyTruncated | BodyTimeout

  datatype Outcome = Outcome(images: seq<Image>, exit: Exit)

  /** The header the loop sees, with the length it settles on. */
  function LengthOf(stream: seq<byte>, max: nat): (n: Option<nat>)
    requires |stream| >= CCTV_HEADER_SIZE
    ensures n.Some? ==> n.value <= max
  {
    ReadLength(stream[TAG_SIZE..CCTV_HEADER_SIZE], max)
  }

  function HeaderAt(stream: seq<byte>): Parsed
    requires |stream| >= CCTV_HEADER_SIZE
  {
    UnpackCctvHeader(stream[..CCTV_HEADER_SIZE])
  }

  /** Why the loop stops at this stream, if it does. `late` says that the body
      read runs into its timeout. */
  function StopReason(stream: seq<byte>, max: nat, late: bool): Option<Exit> {
    if |stream| < CCTV_HEADER_SIZE then Some(HeaderEof)
    else if !HeaderAt(stream).Accepted? then Some(HeaderRejected)
    else if LengthOf(stream, max).None? then Some(FrameTooLarge)
    else if late then Some(BodyTimeout)
    else if |stream| < CCTV_HEADER_SIZE + LengthOf(stream, max).value then Some(BodyTruncated)
    else None
  }

  function First(stream: seq<byte>, max: nat): Image
    requires StopReason(stream, max, false).None?
  {
    Image(stream[CCTV_HEADER_SIZE..CCTV_HEADER_SIZE + LengthOf(stream, max).value],
          HeaderAt(stream).header.resolution)
  }

  function Rest(stream: seq<byte>, max: nat): (rest: seq<byte>)
    requires StopReason(stream, max, false).None?
    ensures |rest| < |stream|
  {
    stream[CCTV_HEADER_SIZE + LengthOf(stream, max).value..]
  }

  /** What the loop makes of a stream; `late(k)` is the fate of body read number k. */
  function Receive(stream: seq<byte>, max: nat, late: nat -> bool, k: nat): Outcome
    decreases |stream|
  {
    match StopReason(stream, max, late(k))
    case Some(exit) => Outcome([], exit)
    case None =>
      var later := Receive(Rest(stream, max), max, late, k + 1);
      later.(images := [First(stream, max)] + later.images)
  }

  /** The listener reads this frame's length back as its sender meant it. */
  predicate Readable(f: WireFrame, max: nat) {
    f.resolution in RESOLUTION_TAGS && ReadLength(LengthField(|f.body|, f.order), max) == Some(|f.body|)
  }

  predicate AllReadable(frames: seq<WireFrame>, max: nat) {
    forall i :: 0 <= i < |frames| ==> Readable(frames[i], max)
  }

  function Head(f: WireFrame): (head: seq<byte>)
    requires f.resolution in RESOLUTION_TAGS
    ensures |head| == CCTV_HEADER_SIZE
  {
    TagsAreAscii(f.resolution);
    EncodeAscii(f.resolution) + LengthField(|f.body|, f.order)
  }

  function Encode(frames: seq<WireFrame>, max: nat): seq<byte>
    requires AllReadable(frames, max)
  {
    if frames == [] then [] else Head(frames[0]) + (frames[0].body + Encode(frames[1..], max))
  }

  function Images(frames: seq<WireFrame>): seq<Image> {
    if frames == [] then [] else [Image(frames[0].body, frames[0].resolution)] + Images(frames[1..])
  }

  lemma EncodeCons(frames: seq<WireFrame>, rest: seq<byte>, max: nat)
    requires AllReadable(frames, max) && frames != []
    ensures Encode(frames, max) + rest
         == Head(frames[0]) + (frames[0].body + (Encode(frames[1..], max) + rest))
  {
  }

  /** One step of the loop, given what its stream starts with. */
  lemma ReceiveStep(stream: seq<byte>, max: nat, late: nat -> bool, k: nat)
    requires StopReason(stream, max, false).None? && !late(k)
    ensures var r := Receive(Rest(stream, max), max, late, k + 1);
            Receive(stream, max, late, k) == Outcome([First(stream, max)] + r.images, r.exit)
  {
  }

  lemma FirstOfEncoded(f: WireFrame, rest: seq<byte>, max: nat)
    requires Readable(f, max)
    ensures var stream := Head(f) + (f.body + rest);
            && StopReason(stream, max, false).None?
            && First(stream, max) == Image(f.body, f.resolution)
            && Rest(stream, max) == rest
  {
    var stream := Head(f) + (f.body + rest);
    var field := LengthField(|f.body|, f.order);
    TagsAreAscii(f.resolution);
    UnpackTagged(f.resolution, field);
    assert stream[..CCTV_HEADER_SIZE] == EncodeAscii(f.resolution) + field;
    assert stream[TAG_SIZE..CCTV_HEADER_SIZE] == field;
    assert stream[CCTV_HEADER_SIZE..CCTV_HEADER_SIZE + |f.body|] == f.body;
    assert stream[CCTV_HEADER_SIZE + |f.body|..] == rest;
  }

  /** A header with one of the three tags. */
  predicate TagAccepted(s: seq<byte>)
    requires |s| >= 9
  {
    (forall i :: 0 <= i < 5 ==> s[i] < 128) && Letters(s[..5]) in {"V1080", "V720p", "V640p"}
  }

  /** What a stream starts with, in bytes: the tag, and the length field read high byte
      first unless that is more than `max` and low byte first is not. */
  lemma HeadInBytes(stream: seq<byte>, max: nat)
    requires |stream| >= 9
    ensures HeaderAt(stream).Accepted? <==> TagAccepted(stream)
    ensures TagAccepted(stream) ==> HeaderAt(stream).header.resolution == Letters(stream[..5])
    ensures var big := Word(stream[8], stream[7], stream[6], stream[5]);
            var little := Word(stream[5], stream[6], stream[7], stream[8]);
            LengthOf(stream, max) == if big <= max then Some(big) else if little <= max then Some(little) else None
  {
    hide UnpackCctvHeader, FromBig, FromLittle;
    var head := stream[..9];
    CctvHeaderBytes(head);
    assert head[..5] == stream[..5];
    FourBig(stream[5..9]);
    FourLittle(stream[5..9]);
  }

  /** The loop byte by byte, on every stream. */
  lemma ReceiveInBytes(stream: seq<byte>, max: nat, late: nat -> bool, k: nat)
    ensures |stream| < 9 ==> Receive(stream, max, late, k) == Outcome([], HeaderEof)
    ensures |stream| >= 9 && !TagAccepted(stream) ==> Receive(stream, max, late, k) == Outcome([], HeaderRejected)
    ensures |stream| >= 9 && TagAccepted(stream) ==>
      var big := Word(stream[8], stream[7], stream[6], stream[5]);
      var little := Word(stream[5], stream[6], stream[7], stream[8]);
      var end := 9 + if big <= max then big else little;
      if big > max && little > max then Receive(stream, max, late, k) == Outcome([], FrameTooLarge)
      else if late(k) then Receive(stream, max, late, k) == Outcome([], BodyTimeout)
      else if |stream| < end then Receive(stream, max, late, k) == Outcome([], BodyTruncated)
      else
        var later := Receive(stream[end..], max, late, k + 1);
        Receive(stream, max, late, k)
        == Outcome([Image(stream[9..end], Letters(stream[..5]))] + later.images, later.exit)
  {
    hide HeaderAt, LengthOf, TagAccepted;
    if |stream| >= 9 {
      HeadInBytes(stream, max);
    }
  }

  /** These body reads do not run into their timeout. */
  predicate InTime(late: nat -> bool, k: nat, n: nat) {
    forall i :: k <= i < k + n ==> !late(i)
  }

  /** Readable frames whose bodies arrive in time, in either byte order and
      followed by any bytes: every image comes out, in order, and the loop goes
      on as it would on the bytes alone. */
  lemma {:induction false} ReceiveEncoded(frames: seq<WireFrame>, rest: seq<byte>, max: nat, late: nat -> bool, k: nat)
    requires AllReadable(frames, max) && InTime(late, k, |frames|)
    ensures var r := Receive(rest, max, late, k + |frames|);
            Receive(Encode(frames, max) + rest, max, late, k) == Outcome(Images(frames) + r.images, r.exit)
  {
    hide StopReason, HeaderAt, Head, First, Rest;
    if frames == [] {
      assert Encode(frames, max) + rest == rest;
    } else {
      var tail := Encode(frames[1..], max) + rest;
      FirstOfEncoded(frames[0], tail, max);
      EncodeCons(frames, rest, max);
      ReceiveStep(Encode(frames, max) + rest, max, late, k);
      ReceiveEncoded(frames[1..], rest, max, late, k + 1);
      var r := Receive(rest, max, late, k + |frames|);
      assert k + 1 + |frames[1..]| == k + |frames|;
      assert [Image(frames[0].body, frames[0].resolution)] + (Images(frames[1..]) + r.images)
          == Images(frames) + r.images;
    }
  }

  /** Frames from a big-endian sender within the bound are always readable, so the
      theorem above covers every such stream; for a little-endian sender it covers
      exactly the lengths of the byte-order domain. */
  lemma ReadableFrames(f: WireFrame)
    requires f.resolution in RESOLUTION_TAGS && |f.body| < Pow256(4)
    ensures Readable(f, CCTV_MAX_BODY) <==>
      var n := |f.body|;
      n <= CCTV_MAX_BODY && (f.order.BigEndian? || (n != 1 && (n % 256 != 0 || Palindrome(n))))
  {
    ByteOrderDomain(|f.body|);
  }

  /** Every stream is readable frames followed by a tail at which the loop stops;
      nothing after that point is delivered. */
  lemma {:induction false} ReceiveDecomposes(stream: seq<byte>, max: nat, late: nat -> bool, k: nat)
    returns (frames: seq<WireFrame>, tail: seq<byte>)
    requires max < Pow256(4)
    ensures AllReadable(frames, max)
    ensures stream == Encode(frames, max) + tail && InTime(late, k, |frames|)
    ensures StopReason(tail, max, late(k + |frames|)).Some?
    ensures Receive(stream, max, late, k)
         == Outcome(Images(frames), StopReason(tail, max, late(k + |frames|)).value)
    decreases |stream|
  {
    hide HeaderAt, LengthOf, Head, First, Rest;
    if StopReason(stream, max, late(k)).Some? {
      return [], stream;
    }
    var f := FirstAsWire(stream, max);
    var more;
    more, tail := ReceiveDecomposes(Rest(stream, max), max, late, k + 1);
    frames := [f] + more;
    assert frames[1..] == more;
    assert AllReadable(frames, max);
    EncodeCons(frames, tail, max);
    assert k + 1 + |more| == k + |frames|;
    assert Images(frames) == [First(stream, max)] + Images(more);
    ReceiveStep(stream, max, late, k);
  }

  /** The images and the tail are the only ones; a frame's byte order is not unique, as a
      palindromic length is the same bytes in both. */
  lemma {:induction false} DecompositionUnique(a: seq<WireFrame>, s: seq<byte>, b: seq<WireFrame>, t: seq<byte>,
          max: nat, late: nat -> bool, k: nat)
    requires AllReadable(a, max) && InTime(late, k, |a|) && StopReason(s, max, late(k + |a|)).Some?
    requires AllReadable(b, max) && InTime(late, k, |b|) && StopReason(t, max, late(k + |b|)).Some?
    requires Encode(a, max) + s == Encode(b, max) + t
    ensures Images(a) == Images(b) && |a| == |b| && s == t
    decreases |a|
  {
    hide HeaderAt, LengthOf, Head, First, Rest, Readable;
    if a != [] {
      EncodeCons(a, s, max);
      FirstOfEncoded(a[0], Encode(a[1..], max) + s, max);
    } else {
      assert Encode(a, max) + s == s;
    }
    if b != [] {
      EncodeCons(b, t, max);
      FirstOfEncoded(b[0], Encode(b[1..], max) + t, max);
    } else {
      assert Encode(b, max) + t == t;
    }
    if a != [] && b != [] {
      assert k + 1 + |a[1..]| == k + |a| && k + 1 + |b[1..]| == k + |b|;
      DecompositionUnique(a[1..], s, b[1..], t, max, late, k + 1);
    }
  }

  lemma FirstAsWire(stream: seq<byte>, max: nat) returns (f: WireFrame)
    requires max < Pow256(4)
    requires StopReason(stream, max, false).None?
    ensures Readable(f, max) && First(stream, max) == Image(f.body, f.resolution)
    ensures stream == Head(f) + (f.body + Rest(stream, max))
  {
    hide Pow256, FromBig, FromLittle, ToBig, ToLittle, UnpackCctvHeader, DecodeAscii;
    var h := stream[..CCTV_HEADER_SIZE];
    var field := stream[TAG_SIZE..CCTV_HEADER_SIZE];
    var i := First(stream, max);
    PackUndoesUnpackCctv(h);
    TagsAreAscii(i.resolution);
    assert h[TAG_SIZE..] == field;
    BigOnto(field);
    LittleOnto(field);
    assert h == EncodeAscii(i.resolution) + field;
    f := WireFrame(i.resolution, i.body, if FromBig(field) <= max then BigEndian else LittleEndian);
    assert LengthField(|f.body|, f.order) == field;
  }

  /** One accepted connection: the unread bytes, the calls made to the handler
      (whose failures the loop swallows). */
  class Connection {
    var unread: seq<byte>
    var images: seq<Image>
    const maxBody: nat
    const late: nat -> bool

    constructor (incoming: seq<byte>, maxBody: nat, late: nat -> bool)
      ensures unread == incoming && images == []
      ensures this.maxBody == maxBody && this.late == late
    {
      unread, images := incoming, [];
      this.maxBody, this.late := maxBody, late;
    }

    method ReadExactly(n: nat) returns (bytes: Option<seq<byte>>)
      modifies this`unread
      ensures bytes.Some? <==> n <= |old(unread)|
      ensures bytes.Some? ==> bytes.value == old(unread)[..n] && unread == old(unread)[n..]
      ensures bytes.None? ==> unread == []
    {
      if n <= |unread| {
        bytes, unread := Some(unread[..n]), unread[n..];
      } else {
        bytes, unread := None, [];
      }
    }

    method OnConnect() returns (exit: Exit, framesReceived: nat)
      modifies this
      ensures var r := Receive(old(unread), maxBody, late, 0);
              exit == r.exit && images == old(images) + r.images && framesReceived == |r.images|
    {
      hide DecodeAscii, FromBig, FromLittle;
      framesReceived := 0;
      ghost var handled: seq<Image> := [];
      while true
        invariant framesReceived == |handled| && images == old(images) + handled
        invariant ResumesAt(old(unread), handled, unread)
        decreases |unread|
      {
        ghost var before := unread;
        var head := ReadExactly(CCTV_HEADER_SIZE);
        if head.None? {
          return HeaderEof, framesReceived;
        }
        var parsed := UnpackCctvHeader(head.value);
        if !parsed.Accepted? {
          return HeaderRejected, framesReceived;
        }
        assert head.value[TAG_SIZE..] == before[TAG_SIZE..CCTV_HEADER_SIZE];
        var length := parsed.header.length;
        if length > maxBody {
          var lengthLe := FromLittle(head.value[TAG_SIZE..]);
          if lengthLe <= maxBody {
            length := lengthLe;
          } else {
            return FrameTooLarge, framesReceived;
          }
        }
        assert LengthOf(before, maxBody) == Some(length);
        if late(framesReceived) {
          return BodyTimeout, framesReceived;
        }
        var body := ReadExactly(length);
        if body.None? {
          return BodyTruncated, framesReceived;
        }
        ResumeNext(old(unread), handled, before);
        assert unread == Rest(before, maxBody);
        assert Image(body.value, parsed.header.resolution) == First(before, maxBody);
        handled := handled + [First(before, maxBody)];
        images := images + [Image(body.value, parsed.header.resolution)];
        framesReceived := framesReceived + 1;
      }
    }

    /** After handling `handled` the loop has the stream `left` still to read. */
    ghost predicate ResumesAt(stream: seq<byte>, handled: seq<Image>, left: seq<byte>) {
      var whole, part := Receive(stream, maxBody, late, 0), Receive(left, maxBody, late, |handled|);
      whole.images == handled + part.images && whole.exit == part.exit
    }

    lemma ResumeNext(stream: seq<byte>, handled: seq<Image>, left: seq<byte>)
      requires ResumesAt(stream, handled, left)
      requires StopReason(left, maxBody, late(|handled|)).None?
      ensures ResumesAt(stream, handled + [First(left, maxBody)], Rest(left, maxBody))
    {
      hide StopReason, First, Rest;
    }
  }
}
