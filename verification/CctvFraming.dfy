/** The 9-byte CCTV header: a resolution tag and a length whose byte order the
    listener has to guess. */
module CctvFraming {
  import opened Wrappers
  import opened DustFraming

  const CCTV_HEADER_SIZE := 9
  const TAG_SIZE := 5
  const CCTV_MAX_BODY := 16 * 1024 * 1024
  const RESOLUTION_TAGS: set<string> := {"V1080", "V720p", "V640p"}

  datatype CctvHeader = CctvHeader(resolution: string, length: int)

  datatype Parsed = Accepted(header: CctvHeader) | BadSize | NotAscii | UnknownResolution

  function FromBig(bytes: seq<byte>): nat {
    if bytes == [] then 0 else bytes[|bytes| - 1] + 256 * FromBig(bytes[..|bytes| - 1])
  }

  function ToBig(n: nat, width: nat): (bytes: seq<byte>)
    ensures |bytes| == width
  {
    if width == 0 then [] else ToBig(n / 256, width - 1) + [n % 256]
  }

  lemma {:induction false} BigInverse(n: nat, width: nat)
    requires n < Pow256(width)
    ensures FromBig(ToBig(n, width)) == n
  {
    if width > 0 {
      BigInverse(n / 256, width - 1);
      assert ToBig(n, width)[..width - 1] == ToBig(n / 256, width - 1);
    }
  }

  lemma {:induction false} BigOnto(bytes: seq<byte>)
    ensures FromBig(bytes) < Pow256(|bytes|)
    ensures ToBig(FromBig(bytes), |bytes|) == bytes
  {
    if bytes != [] {
      BigOnto(bytes[..|bytes| - 1]);
    }
  }

  /** The text of an ASCII byte string; None as soon as one byte is not ASCII. */
  function DecodeAscii(bytes: seq<byte>): (text: Option<string>)
    ensures text.Some? ==> |text.value| == |bytes|
    ensures text.Some? ==> forall i :: 0 <= i < |bytes| ==> text.value[i] as int == bytes[i]
    ensures (forall i :: 0 <= i < |bytes| ==> bytes[i] < 128) ==> text.Some?
  {
    if bytes == [] then Some("") else
    match DecodeAscii(bytes[1..])
    case None => None
    case Some(text) => if bytes[0] < 128 then Some([bytes[0] as char] + text) else None
  }

  /** The bytes of an ASCII text. */
  function EncodeAscii(text: string): (bytes: seq<byte>)
    requires forall i :: 0 <= i < |text| ==> text[i] as int < 128
    ensures |bytes| == |text|
    ensures forall i :: 0 <= i < |text| ==> bytes[i] == text[i] as int
  {
    seq(|text|, i requires 0 <= i < |text| => text[i] as int)
  }

  lemma TagsAreAscii(tag: string)
    requires tag in RESOLUTION_TAGS
    ensures |tag| == TAG_SIZE
    ensures forall i :: 0 <= i < |tag| ==> tag[i] as int < 128
  {
  }

  /** None for an unknown tag or a length that is no uint32. */
  function PackCctvHeader(h: CctvHeader): (buf: Option<seq<byte>>)
    ensures buf.Some? <==> h.resolution in RESOLUTION_TAGS && Fits(h.length, 4)
    ensures buf.Some? ==> |buf.value| == CCTV_HEADER_SIZE
  {
    if h.resolution !in RESOLUTION_TAGS || !Fits(h.length, 4) then None else
    TagsAreAscii(h.resolution);
    Some(EncodeAscii(h.resolution) + ToBig(h.length, 4))
  }

  function UnpackCctvHeader(buf: seq<byte>): (p: Parsed)
    ensures p.BadSize? <==> |buf| != CCTV_HEADER_SIZE
    ensures p.Accepted? ==> p.header.length >= 0
  {
    if |buf| != CCTV_HEADER_SIZE then BadSize else
    match DecodeAscii(buf[..TAG_SIZE])
    case None => NotAscii
    case Some(tag) =>
      if tag !in RESOLUTION_TAGS then UnknownResolution
      else Accepted(CctvHeader(tag, FromBig(buf[TAG_SIZE..])))
  }

  lemma DecodeUndoesEncode(text: string)
    requires forall i :: 0 <= i < |text| ==> text[i] as int < 128
    ensures DecodeAscii(EncodeAscii(text)) == Some(text)
  {
    var bytes := EncodeAscii(text);
    var back := DecodeAscii(bytes).value;
    assert forall i :: 0 <= i < |text| ==> back[i] as int == text[i] as int;
    assert forall i :: 0 <= i < |text| ==> back[i] == text[i];
    assert back == text;
  }

  /** Unpacking a header built from a known tag and any four length bytes. */
  lemma UnpackTagged(tag: string, field: seq<byte>)
    requires tag in RESOLUTION_TAGS && |field| == 4
    requires forall i :: 0 <= i < |tag| ==> tag[i] as int < 128
    ensures UnpackCctvHeader(EncodeAscii(tag) + field) == Accepted(CctvHeader(tag, FromBig(field)))
  {
    TagsAreAscii(tag);
    var buf := EncodeAscii(tag) + field;
    DecodeUndoesEncode(tag);
    assert buf[..TAG_SIZE] == EncodeAscii(tag) && buf[TAG_SIZE..] == field;
  }

  lemma UnpackUndoesPackCctv(h: CctvHeader)
    requires h.resolution in RESOLUTION_TAGS && Fits(h.length, 4)
    ensures UnpackCctvHeader(PackCctvHeader(h).value) == Accepted(h)
  {
    TagsAreAscii(h.resolution);
    UnpackTagged(h.resolution, ToBig(h.length, 4));
    BigInverse(h.length, 4);
  }

  lemma PackUndoesUnpackCctv(buf: seq<byte>)
    requires UnpackCctvHeader(buf).Accepted?
    ensures PackCctvHeader(UnpackCctvHeader(buf).header) == Some(buf)
  {
    var tag := DecodeAscii(buf[..TAG_SIZE]).value;
    TagsAreAscii(tag);
    BigOnto(buf[TAG_SIZE..]);
    assert EncodeAscii(tag) == buf[..TAG_SIZE];
    assert buf == buf[..TAG_SIZE] + buf[TAG_SIZE..];
  }

  lemma {:induction false} AsciiOrNot(bytes: seq<byte>)
    ensures DecodeAscii(bytes).None? <==> exists i :: 0 <= i < |bytes| && bytes[i] >= 128
  {
    if bytes != [] {
      AsciiOrNot(bytes[1..]);
      if i :| 0 <= i < |bytes| - 1 && bytes[1..][i] >= 128 {
        assert bytes[i + 1] >= 128;
      } else {
        assert forall i :: 0 < i < |bytes| ==> bytes[i] == bytes[1..][i - 1] < 128;
      }
    }
  }

  /** The text of five bytes. */
  function Letters(b: seq<byte>): string
    requires |b| == 5 && forall i :: 0 <= i < 5 ==> b[i] < 128
  {
    [b[0] as char, b[1] as char, b[2] as char, b[3] as char, b[4] as char]
  }

  lemma FourBig(b: seq<byte>)
    requires |b| == 4
    ensures FromBig(b) == Word(b[3], b[2], b[1], b[0])
  {
    assert b[..3][..2] == b[..2] && b[..2][..1] == b[..1];
    assert FromBig(b[..1]) == b[0] by { assert b[..1][..0] == []; }
    assert FromBig(b[..2]) == Word(b[1], b[0], 0, 0);
    assert FromBig(b[..3]) == b[2] + 256 * FromBig(b[..2]);
  }

  /** The nine bytes: five of one of the three tags, and a length, high byte first. */
  lemma CctvHeaderBytes(buf: seq<byte>)
    requires |buf| == 9
    ensures UnpackCctvHeader(buf).NotAscii? <==> exists i :: 0 <= i < 5 && buf[i] >= 128
    ensures UnpackCctvHeader(buf).Accepted? <==>
      (forall i :: 0 <= i < 5 ==> buf[i] < 128) && Letters(buf[..5]) in {"V1080", "V720p", "V640p"}
    ensures UnpackCctvHeader(buf).Accepted? ==>
      UnpackCctvHeader(buf).header == CctvHeader(Letters(buf[..5]), Word(buf[8], buf[7], buf[6], buf[5]))
  {
    hide FromBig, DecodeAscii;
    var tag := buf[..5];
    AsciiOrNot(tag);
    FourBig(buf[5..]);
    if i :| 0 <= i < 5 && buf[i] >= 128 {
      assert tag[i] >= 128;
    } else {
      assert DecodeAscii(tag).Some?;
      assert DecodeAscii(tag).value == Letters(tag);
    }
  }

  // ----- the byte-order guess -----

  datatype ByteOrder = BigEndian | LittleEndian

  function LengthField(n: nat, order: ByteOrder): (field: seq<byte>)
    ensures |field| == 4
  {
    if order.BigEndian? then ToBig(n, 4) else ToLittle(n, 4)
  }

  /** The length the listener settles on: big-endian if plausible, else
      little-endian if plausible, else none. */
  function ReadLength(field: seq<byte>, max: nat): (n: Option<nat>)
    ensures n.Some? ==> n.value <= max
  {
    if FromBig(field) <= max then Some(FromBig(field))
    else if FromLittle(field) <= max then Some(FromLittle(field))
    else None
  }

  predicate Palindrome(n: nat) {
    ToLittle(n, 4) == ToBig(n, 4)
  }

  lemma FourBytes(n: nat)
    requires n < Pow256(4)
    ensures var b := ToLittle(n, 4);
            && n == Word(b[0], b[1], b[2], b[3])
            && ToBig(n, 4) == [b[3], b[2], b[1], b[0]]
            && FromBig(b) == Word(b[3], b[2], b[1], b[0])
  {
    var n1 := n / 256;
    var n2 := n1 / 256;
    var n3 := n2 / 256;
    assert n3 / 256 == 0;
    assert ToLittle(n3, 1) == [n3 % 256];
    assert ToLittle(n2, 2) == [n2 % 256, n3 % 256];
    assert ToLittle(n1, 3) == [n1 % 256, n2 % 256, n3 % 256];
    var b := ToLittle(n, 4);
    assert b == [n % 256, n1 % 256, n2 % 256, n3 % 256];
    assert ToBig(n3, 1) == [n3 % 256];
    assert ToBig(n2, 2) == [n3 % 256, n2 % 256];
    assert ToBig(n1, 3) == [n3 % 256, n2 % 256, n1 % 256];
    assert FromBig(b[..1]) == b[0];
    assert b[..2][..1] == b[..1] && b[..3][..2] == b[..2];
    assert FromBig(b[..2]) == Word(b[1], b[0], 0, 0);
    assert FromBig(b[..3]) == b[2] + 256 * FromBig(b[..2]);
  }

  lemma ReversedWord(b0: byte, b1: byte, b2: byte, b3: byte)
    ensures Word(b3, b2, b1, b0) <= CCTV_MAX_BODY
       <==> b0 == 0 || (b0 == 1 && b1 == b2 == b3 == 0)
    ensures Word(b3, b2, b1, b0) == Word(b0, b1, b2, b3) <==> b0 == b3 && b1 == b2
    ensures Word(b0, b1, b2, b3) % 256 == b0
    ensures Word(b0, b1, b2, b3) == 1 <==> b0 == 1 && b1 == b2 == b3 == 0
  {
    assert Word(b0, b1, b2, b3) == b0 as int + 256 * (b1 as int + 256 * b2 as int + 65536 * b3 as int);
  }

  /** Which lengths arrive intact, for every length a uint32 can carry. */
  lemma {:induction false} ByteOrderDomain(n: nat)
    requires n < Pow256(4)
    ensures ReadLength(LengthField(n, BigEndian), CCTV_MAX_BODY) == Some(n) <==> n <= CCTV_MAX_BODY
    ensures ReadLength(LengthField(n, LittleEndian), CCTV_MAX_BODY) == Some(n)
       <==> n <= CCTV_MAX_BODY && n != 1 && (n % 256 != 0 || Palindrome(n))
  {
    BigInverse(n, 4);
    LittleInverse(n, 4);
    ReversedLength(n);
    hide ToLittle, ToBig, FromBig, FromLittle, Pow256;
  }

  /** The same four bytes read in the wrong order. */
  lemma ReversedLength(n: nat)
    requires n < Pow256(4)
    ensures var r := FromBig(ToLittle(n, 4));
            && (r <= CCTV_MAX_BODY <==> n % 256 == 0 || n == 1)
            && (r == n <==> Palindrome(n))
            && (n == 1 ==> r != 1)
  {
    FourBytes(n);
    hide ToLittle, ToBig, FromBig, Pow256;
    var b := ToLittle(n, 4);
    ReversedWord(b[0], b[1], b[2], b[3]);
    assert b == [b[0], b[1], b[2], b[3]];
  }

  /** A little-endian length outside that domain, but within the bound, is not
      rejected: the listener goes on with the byte-reversed length. */
  lemma MisreadLength(n: nat)
    requires n <= CCTV_MAX_BODY
    requires n == 1 || (n % 256 == 0 && !Palindrome(n))
    ensures ReadLength(LengthField(n, LittleEndian), CCTV_MAX_BODY) == Some(FromBig(ToLittle(n, 4)))
    ensures FromBig(ToLittle(n, 4)) != n
  {
    LittleInverse(n, 4);
    ReversedLength(n);
    hide ToLittle, ToBig, FromBig, FromLittle, Pow256;
  }
}
