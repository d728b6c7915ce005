/** The 12-byte DUST header: little-endian fields, packed and unpacked. */
module DustFraming {
  import opened Wrappers

  type byte = b: int | 0 <= b < 256

  const SOP_DUST := 0xAABB
  const DOID_DUST_INSPECTION := 0xD002
  const PROTOCOL_VERSION := 0x02
  const HEADER_SIZE := 12
  const MAX_BODY := 1448
  const ENCRYPTION_NONE := 0

  datatype Header = Header(
    sop: int, dataObjectId: int, version: int, encryption: int, timestamp: int, length: int)

  datatype FramingError =
    | WrongSize | InvalidSop | UnsupportedObjectId | UnsupportedVersion | PayloadTooLarge

  /** The value of a little-endian byte string. */
  function FromLittle(bytes: seq<byte>): nat {
    if bytes == [] then 0 else bytes[0] + 256 * FromLittle(bytes[1..])
  }

  /** `width` little-endian bytes of `n`; the high part is cut off. */
  function ToLittle(n: nat, width: nat): (bytes: seq<byte>)
    ensures |bytes| == width
  {
    if width == 0 then [] else [n % 256] + ToLittle(n / 256, width - 1)
  }

  function Pow256(k: nat): (p: nat)
    ensures p >= 1
  {
    if k == 0 then 1 else 256 * Pow256(k - 1)
  }

  lemma {:induction false} LittleInverse(n: nat, width: nat)
    requires n < Pow256(width)
    ensures FromLittle(ToLittle(n, width)) == n
  {
    if width > 0 {
      LittleInverse(n / 256, width - 1);
      assert ToLittle(n, width)[1..] == ToLittle(n / 256, width - 1);
    }
  }

  lemma {:induction false} LittleOnto(bytes: seq<byte>)
    ensures FromLittle(bytes) < Pow256(|bytes|)
    ensures ToLittle(FromLittle(bytes), |bytes|) == bytes
  {
    if bytes != [] {
      LittleOnto(bytes[1..]);
      LowByte(bytes[0], FromLittle(bytes[1..]), Pow256(|bytes| - 1));
      assert bytes == [bytes[0]] + bytes[1..];
    }
  }

  lemma LowByte(low: byte, high: nat, bound: nat)
    ensures (low + 256 * high) % 256 == low && (low + 256 * high) / 256 == high
    ensures high < bound ==> low + 256 * high < 256 * bound
  {
  }

  predicate Fits(n: int, width: nat) {
    0 <= n < Pow256(width)
  }

  /** Every field fits the width it has on the wire. */
  predicate InRange(h: Header) {
    && Fits(h.sop, 2) && Fits(h.dataObjectId, 2) && Fits(h.version, 1)
    && Fits(h.encryption, 1) && Fits(h.timestamp, 4) && Fits(h.length, 2)
  }

  /** None where the struct packer raises: some field is too wide. */
  function PackHeader(h: Header): (buf: Option<seq<byte>>)
    ensures buf.Some? <==> InRange(h)
    ensures buf.Some? ==> |buf.value| == HEADER_SIZE
  {
    if !InRange(h) then None else
    Some(ToLittle(h.sop, 2) + ToLittle(h.dataObjectId, 2) + ToLittle(h.version, 1)
         + ToLittle(h.encryption, 1) + ToLittle(h.timestamp, 4) + ToLittle(h.length, 2))
  }

  function UnpackHeader(buf: seq<byte>): (h: Option<Header>)
    ensures h.Some? <==> |buf| == HEADER_SIZE
    ensures h.Some? ==> InRange(h.value)
  {
    if |buf| != HEADER_SIZE then None else
    LittleOnto(buf[0..2]); LittleOnto(buf[2..4]); LittleOnto(buf[4..5]);
    LittleOnto(buf[5..6]); LittleOnto(buf[6..10]); LittleOnto(buf[10..12]);
    Some(Header(FromLittle(buf[0..2]), FromLittle(buf[2..4]), FromLittle(buf[4..5]),
                FromLittle(buf[5..6]), FromLittle(buf[6..10]), FromLittle(buf[10..12])))
  }

  /** Unpacking undoes packing on every header whose fields fit. */
  lemma UnpackUndoesPack(h: Header)
    requires InRange(h)
    ensures UnpackHeader(PackHeader(h).value) == Some(h)
  {
    var buf := PackHeader(h).value;
    LittleInverse(h.sop, 2); LittleInverse(h.dataObjectId, 2); LittleInverse(h.version, 1);
    LittleInverse(h.encryption, 1); LittleInverse(h.timestamp, 4); LittleInverse(h.length, 2);
    assert buf[0..2] == ToLittle(h.sop, 2);
    assert buf[2..4] == ToLittle(h.dataObjectId, 2);
    assert buf[4..5] == ToLittle(h.version, 1);
    assert buf[5..6] == ToLittle(h.encryption, 1);
    assert buf[6..10] == ToLittle(h.timestamp, 4);
    assert buf[10..12] == ToLittle(h.length, 2);
  }

  /** Packing undoes unpacking on every 12-byte string. */
  lemma PackUndoesUnpack(buf: seq<byte>)
    requires |buf| == HEADER_SIZE
    ensures PackHeader(UnpackHeader(buf).value) == Some(buf)
  {
    LittleOnto(buf[0..2]); LittleOnto(buf[2..4]); LittleOnto(buf[4..5]);
    LittleOnto(buf[5..6]); LittleOnto(buf[6..10]); LittleOnto(buf[10..12]);
    assert buf == buf[0..2] + buf[2..4] + buf[4..5] + buf[5..6] + buf[6..10] + buf[10..12];
  }

  /** The first rule the header breaks: start marker, object id, version, then length. */
  function ValidateHeader(h: Header): Option<FramingError> {
    if h.sop != SOP_DUST then Some(InvalidSop)
    else if h.dataObjectId != DOID_DUST_INSPECTION then Some(UnsupportedObjectId)
    else if h.version != PROTOCOL_VERSION then Some(UnsupportedVersion)
    else if h.length > MAX_BODY then Some(PayloadTooLarge)
    else None
  }

  function Word(b0: int, b1: int, b2: int, b3: int): int {
    b0 + 256 * b1 + 65536 * b2 + 16777216 * b3
  }

  /** Where each field lies in the twelve bytes, low byte first. */
  lemma HeaderBytes(buf: seq<byte>)
    requires |buf| == 12
    ensures UnpackHeader(buf).Some?
    ensures var h := UnpackHeader(buf).value;
            && h.sop == Word(buf[0], buf[1], 0, 0) && h.dataObjectId == Word(buf[2], buf[3], 0, 0)
            && h.version == buf[4] && h.encryption == buf[5]
            && h.timestamp == Word(buf[6], buf[7], buf[8], buf[9])
            && h.length == Word(buf[10], buf[11], 0, 0)
  {
    hide FromLittle;
    TwoBytes(buf[0..2]);
    TwoBytes(buf[2..4]);
    OneByte(buf[4..5]);
    OneByte(buf[5..6]);
    FourLittle(buf[6..10]);
    TwoBytes(buf[10..12]);
  }

  lemma OneByte(b: seq<byte>)
    requires |b| == 1
    ensures FromLittle(b) == b[0]
  {
    assert FromLittle(b[1..]) == 0;
  }

  lemma TwoBytes(b: seq<byte>)
    requires |b| == 2
    ensures FromLittle(b) == Word(b[0], b[1], 0, 0)
  {
    OneByte(b[1..]);
  }

  lemma FourLittle(b: seq<byte>)
    requires |b| == 4
    ensures FromLittle(b) == Word(b[0], b[1], b[2], b[3])
  {
    TwoBytes(b[2..]);
    assert b[1..][1..] == b[2..];
    assert FromLittle(b[1..]) == b[1] + 256 * FromLittle(b[2..]);
  }

  /** Which headers break which rule, each only if those before it hold. */
  lemma RulesInNumbers(h: Header)
    ensures ValidateHeader(h) == Some(InvalidSop) <==> h.sop != 0xAABB
    ensures ValidateHeader(h) == Some(UnsupportedObjectId) <==> h.sop == 0xAABB && h.dataObjectId != 0xD002
    ensures ValidateHeader(h) == Some(UnsupportedVersion) <==>
      h.sop == 0xAABB && h.dataObjectId == 0xD002 && h.version != 2
    ensures ValidateHeader(h) == Some(PayloadTooLarge) <==>
      h.sop == 0xAABB && h.dataObjectId == 0xD002 && h.version == 2 && h.length > 1448
    ensures ValidateHeader(h) == None <==>
      h.sop == 0xAABB && h.dataObjectId == 0xD002 && h.version == 2 && h.length <= 1448
  {
  }

  predicate IsEncrypted(h: Header) {
    h.encryption != ENCRYPTION_NONE
  }
}
