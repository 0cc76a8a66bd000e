/** Framing of records on a socket, and what a reader sees when the connection is cut. */
module WireProtocol {
  import opened Prelude
  import opened Encoding
  import opened BlockFormat

  /** The characters of "LJNETV01". */
  const WIRE_MAGIC: Bytes := [0x4C, 0x4A, 0x4E, 0x45, 0x54, 0x56, 0x30, 0x31]
  const WIRE_VERSION: byte := 1

  /** The codec byte and stored payload: compressed, with its length in front, only when that is shorter. */
  function WirePayload(p: Primitives, payload: Bytes, compress: bool): Option<(byte, Bytes)> {
    var c := p.lz4Compress(payload);
    if compress && |c| < |payload| then
      if |payload| >= 0x1_0000_0000 then None else Some((1, LittleEndian(4, |payload|) + c))
    else Some((0, payload))
  }

  function WireHeader(r: Record, codec: byte, len: nat): (bs: Bytes)
    ensures |bs| == 24
  {
    [WIRE_VERSION, TypeCode(r.kind), codec, 0] + LittleEndian(8, r.seqno) + LittleEndian(8, r.ts) + LittleEndian(4, len)
  }

  /** The bytes of one frame; none when a length does not fit 32 bits. */
  function WriteRecord(p: Primitives, r: Record, compress: bool): (bs: Option<Bytes>)
    ensures bs.Some? ==> |bs.value| >= 36
  {
    var wp := WirePayload(p, r.payload, compress);
    if wp.None? || |wp.value.1| >= 0x1_0000_0000 then None
    else
      var covered := WireHeader(r, wp.value.0, |wp.value.1|) + wp.value.1;
      Some(WIRE_MAGIC + covered + LittleEndian(4, p.crc32c(covered)))
  }

  datatype WireResult = Next(record: Record, used: nat) | EndOfStream | CutShort | InvalidData

  function WireBody(p: Primitives, codec: byte, wp: Bytes): Option<Bytes> {
    if codec == 0 then Some(wp)
    else if codec != 1 || |wp| < 4 then None
    else p.lz4Decompress(wp[4..], Field32(wp, 0))
  }

  /** One read from a stream that still holds `data`: fewer than eight bytes are a clean end. */
  function ParseWire(p: Primitives, limit: nat, data: Bytes): (r: WireResult)
    ensures r.Next? ==> 36 <= r.used <= |data|
  {
    if |data| < 8 then EndOfStream
    else if data[..8] != WIRE_MAGIC then InvalidData
    else if |data| < 32 then CutShort
    else if data[8] != WIRE_VERSION || TypeOf(data[9]).None? then InvalidData
    else
      var len := Field32(data, 28);
      if len > limit then InvalidData
      else if |data| < 32 + len + 4 then CutShort
      else if p.crc32c(data[8..32 + len]) != Field32(data, 32 + len) then InvalidData
      else
        var payload := WireBody(p, data[10], data[32..32 + len]);
        if payload.None? then InvalidData
        else Next(Record(TypeOf(data[9]).value, Field64(data, 12), Field64(data, 20), payload.value), 32 + len + 4)
  }

  /** Reading until something other than a record comes back. */
  function ReadStream(p: Primitives, limit: nat, data: Bytes): (r: (seq<Record>, WireResult))
    ensures !r.1.Next?
    decreases |data|
  {
    var one := ParseWire(p, limit, data);
    if !one.Next? then ([], one)
    else
      var more := ReadStream(p, limit, data[one.used..]);
      ([one.record] + more.0, more.1)
  }

  class WireStream {
    const data: Bytes
    var pos: nat

    constructor (data: Bytes)
      ensures this.data == data && pos == 0
    {
      this.data := data;
      pos := 0;
    }

    method ReadExact(n: nat) returns (r: Option<Bytes>)
      requires pos <= |data|
      modifies this`pos
      ensures old(pos) <= pos <= |data|
      ensures r.Some? <==> old(pos) + n <= |data|
      ensures r.Some? ==> pos == old(pos) + n && r.value == data[old(pos)..pos]
    {
      if pos + n <= |data| {
        r := Some(data[pos..pos + n]);
        pos := pos + n;
      } else {
        r := None;
        pos := |data|;
      }
    }

    /** The successive reads of one record compute `ParseWire` on the unread bytes. */
    method ReadRecord(p: Primitives, limit: nat) returns (r: WireResult)
      requires pos <= |data|
      modifies this`pos
      ensures pos <= |data|
      ensures r == ParseWire(p, limit, data[old(pos)..])
      ensures r.Next? ==> pos == old(pos) + r.used
    {
      hide Field32, Field64, WireBody;
      ghost var rest := data[pos..];
      var magic := ReadExact(8);
      if magic.None? { return EndOfStream; }
      assert magic.value == rest[..8];
      if magic.value != WIRE_MAGIC { return InvalidData; }
      var header := ReadExact(24);
      if header.None? { return CutShort; }
      var h := header.value;
      assert h == rest[8..32];
      HeaderOf(rest);
      if h[0] != WIRE_VERSION { return InvalidData; }
      if TypeOf(h[1]).None? { return InvalidData; }
      var len := Field32(h, 20);
      if len > limit { return InvalidData; }
      var wire := ReadExact(len);
      if wire.None? { return CutShort; }
      var crc := ReadExact(4);
      if crc.None? { return CutShort; }
      assert wire.value == rest[32..32 + len] && crc.value == rest[32 + len..32 + len + 4];
      CheckedOf(rest, len);
      if p.crc32c(h + wire.value) != Field32(crc.value, 0) { return InvalidData; }
      var payload := WireBody(p, h[2], wire.value);
      if payload.None? { return InvalidData; }
      r := Next(Record(TypeOf(h[1]).value, Field64(h, 4), Field64(h, 12), payload.value), 32 + len + 4);
    }
  }

  lemma {:induction false} HeaderOf(rest: Bytes)
    requires |rest| >= 32
    ensures var h := rest[8..32];
            && h[0] == rest[8] && h[1] == rest[9] && h[2] == rest[10]
            && Field64(h, 4) == Field64(rest, 12) && Field64(h, 12) == Field64(rest, 20)
            && Field32(h, 20) == Field32(rest, 28)
  {
    SubSlice(rest, 8, 32, 4, 12);
    SubSlice(rest, 8, 32, 12, 20);
    SubSlice(rest, 8, 32, 20, 24);
  }

  lemma {:induction false} CheckedOf(rest: Bytes, len: nat)
    requires |rest| >= 36 + len
    ensures rest[8..32 + len] == rest[8..32] + rest[32..32 + len]
    ensures Field32(rest[32 + len..36 + len], 0) == Field32(rest, 32 + len)
  {
    hide Field32;
    FieldAlone(rest, 32 + len);
  }

  lemma {:induction false} FrameSlices(h: Bytes, wp: Bytes, k: Bytes, rest: Bytes, data: Bytes)
    requires |h| == 24 && |k| == 4 && data == WIRE_MAGIC + (h + wp) + k + rest
    ensures data[..8] == WIRE_MAGIC && data[8..32] == h && data[32..32 + |wp|] == wp
    ensures data[8..32 + |wp|] == h + wp && data[32 + |wp|..36 + |wp|] == k
  {}

  lemma {:induction false} HeaderSlices(r: Record, codec: byte, len: u32, data: Bytes)
    requires |data| >= 32 && data[8..32] == WireHeader(r, codec, len)
    ensures data[8] == WIRE_VERSION && data[9] == TypeCode(r.kind) && data[10] == codec
    ensures Field64(data, 12) == r.seqno && Field64(data, 20) == r.ts && Field32(data, 28) == len
  {
    hide LittleEndian, Field32, Field64;
    var h := WireHeader(r, codec, len);
    forall i | 0 <= i < 24 ensures data[8 + i] == h[i] { assert data[8..32][i] == h[i]; }
    SubSlice(data, 8, 32, 4, 12);
    SubSlice(data, 8, 32, 12, 20);
    SubSlice(data, 8, 32, 20, 24);
    assert h[4..12] == LittleEndian(8, r.seqno) && h[12..20] == LittleEndian(8, r.ts)
           && h[20..24] == LittleEndian(4, len);
    Field64RoundTrip(data, 12, r.seqno);
    Field64RoundTrip(data, 20, r.ts);
    Field32RoundTrip(data, 28, len);
  }

  /** Storing and restoring a payload. */
  lemma {:induction false} WireBodyRestores(p: Primitives, payload: Bytes, compress: bool)
    requires p.Lossless() && WirePayload(p, payload, compress).Some?
    ensures var wp := WirePayload(p, payload, compress).value; WireBody(p, wp.0, wp.1) == Some(payload)
  {
    var (codec, wp) := WirePayload(p, payload, compress).value;
    if codec == 1 {
      assert wp[0..4] == LittleEndian(4, |payload|);
      Field32RoundTrip(wp, 0, |payload|);
      assert wp[4..] == p.lz4Compress(payload);
    }
  }

  /** A payload is compressed exactly when that was asked for and makes it shorter; a frame never grows by more than the
      length field in front. */
  lemma {:induction false} CompressesWhenShorter(p: Primitives, payload: Bytes, compress: bool)
    requires WirePayload(p, payload, compress).Some?
    ensures var (codec, wp) := WirePayload(p, payload, compress).value;
            && (codec == 1 <==> compress && |p.lz4Compress(payload)| < |payload|)
            && (codec == 1 ==> wp[4..] == p.lz4Compress(payload)) && (codec != 1 ==> codec == 0 && wp == payload)
            && |wp| <= |payload| + 3
  {
    hide LittleEndian;
    var (codec, wp) := WirePayload(p, payload, compress).value;
    if codec == 1 { assert wp == LittleEndian(4, |payload|) + p.lz4Compress(payload); }
  }

  datatype Frame = Frame(record: Record, compress: bool)

  /** The frame can be written, and its stored payload is within the reader's limit. */
  predicate Sendable(p: Primitives, limit: nat, f: Frame) {
    WriteRecord(p, f.record, f.compress).Some? && |WriteRecord(p, f.record, f.compress).value| <= 36 + limit
  }

  function FrameBytes(p: Primitives, limit: nat, f: Frame): (bs: Bytes)
    requires Sendable(p, limit, f)
    ensures 36 <= |bs| <= 36 + limit
  {
    WriteRecord(p, f.record, f.compress).value
  }

  /** A whole frame is read back; a frame cut after its magic is an error, and one cut inside it is a clean end. */
  lemma {:induction false} FrameRoundTrip(p: Primitives, limit: nat, f: Frame, rest: Bytes)
    requires p.Lossless() && Sendable(p, limit, f)
    ensures ParseWire(p, limit, FrameBytes(p, limit, f) + rest) == Next(f.record, |FrameBytes(p, limit, f)|)
  {
    hide LittleEndian, WireHeader, WireBody, WirePayload, Field32, Field64, FrameBytes, ParseWire, Primitives.Lossless;
    FrameParts(p, limit, f);
    var (codec, wp) := WirePayload(p, f.record.payload, f.compress).value;
    var h := WireHeader(f.record, codec, |wp|);
    var crc := p.crc32c(h + wp);
    var data := FrameBytes(p, limit, f) + rest;
    FrameSlices(h, wp, LittleEndian(4, crc), rest, data);
    HeaderSlices(f.record, codec, |wp|, data);
    Field32RoundTrip(data, 32 + |wp|, crc);
    WireBodyRestores(p, f.record.payload, f.compress);
    Parses(p, limit, data, f.record, codec, wp);
  }

  lemma {:induction false} FrameParts(p: Primitives, limit: nat, f: Frame)
    requires Sendable(p, limit, f)
    ensures WirePayload(p, f.record.payload, f.compress).Some?
    ensures var (codec, wp) := WirePayload(p, f.record.payload, f.compress).value;
            && |wp| < 0x1_0000_0000 && |wp| <= limit && |FrameBytes(p, limit, f)| == 36 + |wp|
            && var covered := WireHeader(f.record, codec, |wp|) + wp;
               FrameBytes(p, limit, f) == WIRE_MAGIC + covered + LittleEndian(4, p.crc32c(covered))
  {
    hide LittleEndian, WireHeader, WirePayload;
  }

  lemma {:induction false} Parses(p: Primitives, limit: nat, data: Bytes, r: Record, codec: byte, wp: Bytes)
    requires 36 + |wp| <= |data| && |wp| <= limit && data[..8] == WIRE_MAGIC && data[32..32 + |wp|] == wp
    requires data[8] == WIRE_VERSION && data[9] == TypeCode(r.kind) && data[10] == codec
    requires Field64(data, 12) == r.seqno && Field64(data, 20) == r.ts && Field32(data, 28) == |wp|
    requires p.crc32c(data[8..32 + |wp|]) == Field32(data, 32 + |wp|) && WireBody(p, codec, wp) == Some(r.payload)
    ensures ParseWire(p, limit, data) == Next(r, 36 + |wp|)
  {
    hide Field32, Field64, WireBody;
  }

  // ----- exactly what is accepted

  /** A payload and how it is stored: as it is, or compressed with its length in front. */
  ghost predicate Stores(p: Primitives, codec: byte, wp: Bytes, payload: Bytes) {
    || (codec == 0 && wp == payload)
    || (codec == 1 && exists n: u32, c: Bytes :: wp == LittleEndian(4, n) + c && p.lz4Decompress(c, n) == Some(payload))
  }

  /** The bytes under a frame's checksum; the reader ignores the fourth. */
  function CoveredBytes(r: Record, codec: byte, spare: byte, wp: Bytes): Bytes {
    [WIRE_VERSION, TypeCode(r.kind), codec, spare] + LittleEndian(8, r.seqno) + LittleEndian(8, r.ts)
    + LittleEndian(4, |wp|) + wp
  }

  /** A frame with a right checksum. */
  function Sealed(p: Primitives, covered: Bytes): Bytes { WIRE_MAGIC + covered + LittleEndian(4, p.crc32c(covered)) }

  /** The bytes are a frame for this record, with a right checksum and a stored payload within the limit. */
  ghost predicate IsFrame(p: Primitives, limit: nat, bs: Bytes, r: Record, codec: byte, spare: byte, wp: Bytes) {
    && |wp| <= limit && |wp| < 0x1_0000_0000 && Stores(p, codec, wp, r.payload)
    && bs == Sealed(p, CoveredBytes(r, codec, spare, wp))
  }

  lemma {:induction false} BodyIsStored(p: Primitives, codec: byte, wp: Bytes, payload: Bytes)
    ensures WireBody(p, codec, wp) == Some(payload) <==> Stores(p, codec, wp, payload)
  {
    hide LittleEndian, Field;
    if codec == 1 && |wp| >= 4 {
      FieldWidths();
      FieldRestores(wp, 0, 4);
      assert wp == wp[0..4] + wp[4..];
    }
    if codec == 1 && Stores(p, codec, wp, payload) {
      var n: u32, c: Bytes :| wp == LittleEndian(4, n) + c && p.lz4Decompress(c, n) == Some(payload);
      assert wp[0..4] == LittleEndian(4, n) && wp[4..] == c;
      Field32RoundTrip(wp, 0, n);
    }
  }

  lemma {:induction false} HeaderBytes(data: Bytes, r: Record, len: nat)
    requires |data| >= 32 && data[8] == WIRE_VERSION && data[9] == TypeCode(r.kind)
    requires Field64(data, 12) == r.seqno && Field64(data, 20) == r.ts && Field32(data, 28) == len
    ensures data[8..32] == [WIRE_VERSION, TypeCode(r.kind), data[10], data[11]] + LittleEndian(8, r.seqno)
                           + LittleEndian(8, r.ts) + LittleEndian(4, len)
  {
    hide LittleEndian, Field;
    FieldRestores(data, 12, 8);
    FieldRestores(data, 20, 8);
    FieldRestores(data, 28, 4);
    assert data[8..32] == data[8..12] + data[12..20] + data[20..28] + data[28..32];
    assert data[8..12] == [data[8], data[9], data[10], data[11]];
  }

  lemma {:induction false} SealedBytes(p: Primitives, data: Bytes, covered: Bytes)
    requires |data| >= 12 + |covered| && data[..8] == WIRE_MAGIC && data[8..8 + |covered|] == covered
    requires Field32(data, 8 + |covered|) == p.crc32c(covered)
    ensures data[..12 + |covered|] == Sealed(p, covered)
  {
    hide LittleEndian, Field;
    FieldRestores(data, 8 + |covered|, 4);
    var n := 8 + |covered|;
    assert data[..n + 4] == data[..8] + data[8..n] + data[n..n + 4];
  }

  /** What an accepted frame looked like. */
  lemma {:induction false} AcceptedParts(p: Primitives, limit: nat, data: Bytes)
    requires ParseWire(p, limit, data).Next?
    ensures |data| >= 36 && var len := Field32(data, 28);
            var n := ParseWire(p, limit, data);
            && len <= limit && n.used == 36 + len <= |data| && data[..8] == WIRE_MAGIC && data[8] == WIRE_VERSION
            && data[9] == TypeCode(n.record.kind) && Field64(data, 12) == n.record.seqno
            && Field64(data, 20) == n.record.ts && p.crc32c(data[8..32 + len]) == Field32(data, 32 + len)
            && WireBody(p, data[10], data[32..32 + len]) == Some(n.record.payload)
  {
    hide Field32, Field64, WireBody;
  }

  lemma {:induction false} NextIsFrame(p: Primitives, limit: nat, data: Bytes)
    requires ParseWire(p, limit, data).Next?
    ensures |data| >= 36 && var n := ParseWire(p, limit, data);
            n.used <= |data| && IsFrame(p, limit, data[..n.used], n.record, data[10], data[11], data[32..n.used - 4])
  {
    hide LittleEndian, Field32, Field64, WireBody, ParseWire, Stores, Sealed;
    AcceptedParts(p, limit, data);
    var n, len := ParseWire(p, limit, data), Field32(data, 28);
    var wp := data[32..32 + len];
    BodyIsStored(p, data[10], wp, n.record.payload);
    HeaderBytes(data, n.record, len);
    var covered := CoveredBytes(n.record, data[10], data[11], wp);
    assert data[8..32 + len] == data[8..32] + wp;
    SealedBytes(p, data, covered);
  }

  lemma {:induction false} CoveredFields(data: Bytes, r: Record, codec: byte, spare: byte, wp: Bytes)
    requires |wp| < 0x1_0000_0000 && |data| >= 32 + |wp|
    requires data[8..32 + |wp|] == CoveredBytes(r, codec, spare, wp)
    ensures data[8] == WIRE_VERSION && data[9] == TypeCode(r.kind) && data[10] == codec && data[11] == spare
    ensures Field64(data, 12) == r.seqno && Field64(data, 20) == r.ts && Field32(data, 28) == |wp|
    ensures data[32..32 + |wp|] == wp
  {
    hide LittleEndian, Field32, Field64;
    var c := CoveredBytes(r, codec, spare, wp);
    var n := 32 + |wp|;
    forall i | 0 <= i < 4 ensures data[8 + i] == c[i] { assert data[8..n][i] == c[i]; }
    SubSlice(data, 8, n, 4, 12);
    SubSlice(data, 8, n, 12, 20);
    SubSlice(data, 8, n, 20, 24);
    SubSlice(data, 8, n, 24, n - 8);
    CoveredSlices([WIRE_VERSION, TypeCode(r.kind), codec, spare], LittleEndian(8, r.seqno), LittleEndian(8, r.ts),
                  LittleEndian(4, |wp|), wp);
    Field64RoundTrip(data, 12, r.seqno);
    Field64RoundTrip(data, 20, r.ts);
    Field32RoundTrip(data, 28, |wp|);
  }

  lemma {:induction false} CoveredSlices(a: Bytes, q: Bytes, t: Bytes, n: Bytes, wp: Bytes)
    requires |a| == 4 && |q| == |t| == 8 && |n| == 4
    ensures var c := a + q + t + n + wp;
            c[..4] == a && c[4..12] == q && c[12..20] == t && c[20..24] == n && c[24..|c|] == wp
  {}

  lemma {:induction false} SealedSlices(p: Primitives, data: Bytes, covered: Bytes)
    requires |data| >= 12 + |covered| && data[..12 + |covered|] == Sealed(p, covered)
    ensures data[..8] == WIRE_MAGIC && data[8..8 + |covered|] == covered
    ensures Field32(data, 8 + |covered|) == p.crc32c(covered)
  {
    hide LittleEndian, Field32;
    var n := 12 + |covered|;
    var s := Sealed(p, covered);
    assert s[..8] == WIRE_MAGIC && s[8..n - 4] == covered && s[n - 4..n] == LittleEndian(4, p.crc32c(covered));
    SubSlice(data, 0, n, 0, 8);
    SubSlice(data, 0, n, 8, n - 4);
    SubSlice(data, 0, n, n - 4, n);
    assert data[0..n] == data[..n] && data[0..8] == data[..8];
    Field32RoundTrip(data, n - 4, p.crc32c(covered));
  }

  lemma {:induction false} FrameIsNext(p: Primitives, limit: nat, data: Bytes, used: nat, r: Record, codec: byte,
                                       spare: byte, wp: Bytes)
    requires used <= |data| && IsFrame(p, limit, data[..used], r, codec, spare, wp)
    ensures ParseWire(p, limit, data) == Next(r, used)
  {
    hide LittleEndian, Field32, Field64, WireBody, ParseWire, Stores;
    var covered := CoveredBytes(r, codec, spare, wp);
    assert |covered| == 24 + |wp| && |data[..used]| == used == 12 + |covered|;
    SealedSlices(p, data, covered);
    CoveredFields(data, r, codec, spare, wp);
    BodyIsStored(p, codec, wp, r.payload);
    Parses(p, limit, data, r, codec, wp);
  }

  /** On every input: a record is read from the first `used` bytes if and only if they are a frame for it, with a right
      checksum and a stored payload within the limit. */
  lemma {:induction false} AcceptExactness(p: Primitives, limit: nat, data: Bytes, r: Record, used: nat)
    ensures ParseWire(p, limit, data) == Next(r, used)
            <==> used <= |data| && exists codec: byte, spare: byte, wp: Bytes ::
                   IsFrame(p, limit, data[..used], r, codec, spare, wp)
  {
    hide ParseWire, IsFrame;
    if ParseWire(p, limit, data) == Next(r, used) { NextIsFrame(p, limit, data); }
    if used <= |data| {
      if codec: byte, spare: byte, wp: Bytes :| IsFrame(p, limit, data[..used], r, codec, spare, wp) {
        FrameIsNext(p, limit, data, used, r, codec, spare, wp);
      }
    }
  }

  /** Bytes under the checksum that no longer match it: whatever the header `h` says apart from the length. */
  lemma {:induction false} DamagedFrame(p: Primitives, limit: nat, h: Bytes, wp: Bytes, k: Bytes, rest: Bytes)
    requires |h| == 24 && |wp| < 0x1_0000_0000 && h[20..24] == LittleEndian(4, |wp|)
    requires |k| == 4 && k != LittleEndian(4, p.crc32c(h + wp))
    ensures ParseWire(p, limit, WIRE_MAGIC + (h + wp) + k + rest) == InvalidData
  {
    hide LittleEndian, Field, Field64, WireBody;
    var data := WIRE_MAGIC + (h + wp) + k + rest;
    FrameSlices(h, wp, k, rest, data);
    SubSlice(data, 8, 32, 20, 24);
    Field32RoundTrip(data, 28, |wp|);
    FieldRestores(data, 32 + |wp|, 4);
  }

  /** A written frame whose covered bytes changed in transit, the length field apart, is refused unless their checksum
      is the same. */
  lemma {:induction false} AlteredFrame(p: Primitives, limit: nat, f: Frame, covered: Bytes, rest: Bytes)
    requires Sendable(p, limit, f) && |covered| == |FrameBytes(p, limit, f)| - 12
    requires covered[20..24] == FrameBytes(p, limit, f)[28..32]
    requires p.crc32c(covered) != p.crc32c(FrameBytes(p, limit, f)[8..|FrameBytes(p, limit, f)| - 4])
    ensures var frame := FrameBytes(p, limit, f);
            ParseWire(p, limit, frame[..8] + covered + frame[|frame| - 4..] + rest) == InvalidData
  {
    hide LittleEndian, WireHeader, WirePayload, FrameBytes, ParseWire, Sendable;
    FrameParts(p, limit, f);
    var frame := FrameBytes(p, limit, f);
    var (codec, wp) := WirePayload(p, f.record.payload, f.compress).value;
    var h := WireHeader(f.record, codec, |wp|);
    var k := LittleEndian(4, p.crc32c(h + wp));
    assert frame + [] == frame;
    FrameSlices(h, wp, k, [], frame);
    LengthField(f.record, codec, |wp|);
    SubSlice(frame, 8, 32, 20, 24);
    assert frame[|frame| - 4..] == frame[32 + |wp|..36 + |wp|];
    assert covered == covered[..24] + covered[24..] && covered[..24][20..24] == covered[20..24];
    LittleEndianDiffers(p.crc32c(covered), p.crc32c(h + wp));
    DamagedFrame(p, limit, covered[..24], covered[24..], k, rest);
  }

  lemma {:induction false} LengthField(r: Record, codec: byte, len: nat)
    ensures WireHeader(r, codec, len)[20..24] == LittleEndian(4, len)
  {
    hide LittleEndian;
  }

  lemma {:induction false} LittleEndianDiffers(a: u32, b: u32)
    requires a != b
    ensures LittleEndian(4, a) != LittleEndian(4, b)
  {
    FieldWidths();
    LittleEndianRoundTrip(4, a);
    LittleEndianRoundTrip(4, b);
  }

  // ----- cut streams

  lemma {:induction false} CutFrame(p: Primitives, limit: nat, f: Frame, n: nat)
    requires Sendable(p, limit, f) && n < |FrameBytes(p, limit, f)|
    ensures ParseWire(p, limit, FrameBytes(p, limit, f)[..n]) == if n < 8 then EndOfStream else CutShort
  {
    hide LittleEndian, WireHeader, WireBody, WirePayload, Field32, Field64;
    var (codec, wp) := WirePayload(p, f.record.payload, f.compress).value;
    var h := WireHeader(f.record, codec, |wp|);
    var frame := FrameBytes(p, limit, f);
    var cut := frame[..n];
    FrameSlices(h, wp, LittleEndian(4, p.crc32c(h + wp)), [], frame);
    assert frame == frame + [];
    if n >= 8 { assert cut[..8] == frame[..8]; }
    if n >= 32 {
      assert cut[8..32] == frame[8..32];
      HeaderSlices(f.record, codec, |wp|, cut);
    }
  }

  predicate AllSendable(p: Primitives, limit: nat, fs: seq<Frame>) { forall f :: f in fs ==> Sendable(p, limit, f) }

  function StreamBytes(p: Primitives, limit: nat, fs: seq<Frame>): Bytes
    requires AllSendable(p, limit, fs)
  {
    if fs == [] then [] else FrameBytes(p, limit, fs[0]) + StreamBytes(p, limit, fs[1..])
  }

  function RecordsOf(fs: seq<Frame>): (rs: seq<Record>)
    ensures |rs| == |fs|
  {
    seq(|fs|, i requires 0 <= i < |fs| => fs[i].record)
  }

  /** The number of frames wholly contained in the first `n` bytes. */
  function WholeFrames(p: Primitives, limit: nat, fs: seq<Frame>, n: nat): (k: nat)
    requires AllSendable(p, limit, fs)
    ensures k <= |fs|
  {
    if fs == [] || n < |FrameBytes(p, limit, fs[0])| then 0
    else 1 + WholeFrames(p, limit, fs[1..], n - |FrameBytes(p, limit, fs[0])|)
  }

  lemma {:induction false} StreamStep(p: Primitives, limit: nat, fs: seq<Frame>, k: nat)
    requires AllSendable(p, limit, fs) && k < |fs|
    ensures AllSendable(p, limit, fs[..k + 1]) && AllSendable(p, limit, fs[1..][..k])
    ensures StreamBytes(p, limit, fs[..k + 1]) == FrameBytes(p, limit, fs[0]) + StreamBytes(p, limit, fs[1..][..k])
    ensures RecordsOf(fs[..k + 1]) == [fs[0].record] + RecordsOf(fs[1..][..k])
  {
    hide Sendable, FrameBytes;
    assert fs[..k + 1][0] == fs[0] && fs[..k + 1][1..] == fs[1..][..k];
  }

  /** It is the largest count of frames that fits. */
  lemma {:induction false} WholeFramesFit(p: Primitives, limit: nat, fs: seq<Frame>, n: nat)
    requires AllSendable(p, limit, fs)
    ensures var k := WholeFrames(p, limit, fs, n);
            && |StreamBytes(p, limit, fs[..k])| <= n
            && (k < |fs| ==> n < |StreamBytes(p, limit, fs[..k + 1])|)
  {
    hide Sendable, FrameBytes, StreamBytes, RecordsOf;
    EmptyStream(p, limit);
    if fs != [] {
      StreamStep(p, limit, fs, 0);
      assert fs[1..][..0] == [] && fs[..0] == [];
      var f := FrameBytes(p, limit, fs[0]);
      if n >= |f| {
        WholeFramesFit(p, limit, fs[1..], n - |f|);
        var k := WholeFrames(p, limit, fs[1..], n - |f|);
        StreamStep(p, limit, fs, k);
        if k + 1 < |fs| { StreamStep(p, limit, fs, k + 1); }
      }
    } else {
      assert fs[..0] == [];
    }
  }

  lemma {:induction false} EmptyStream(p: Primitives, limit: nat)
    ensures AllSendable(p, limit, []) && StreamBytes(p, limit, []) == [] && WholeFrames(p, limit, [], 0) == 0
    ensures RecordsOf([]) == []
  {}

  /** The end a reader meets `extra` bytes after the last whole frame. */
  function CutEnd(extra: nat): WireResult { if extra < 8 then EndOfStream else CutShort }

  lemma {:induction false} ReadOne(p: Primitives, limit: nat, f: Frame, rest: Bytes)
    requires p.Lossless() && Sendable(p, limit, f)
    ensures var more := ReadStream(p, limit, rest);
            ReadStream(p, limit, FrameBytes(p, limit, f) + rest) == ([f.record] + more.0, more.1)
  {
    hide ParseWire, Sendable, FrameBytes;
    var fb := FrameBytes(p, limit, f);
    FrameRoundTrip(p, limit, f, rest);
    assert (fb + rest)[|fb|..] == rest;
  }

  lemma {:induction false} ReadCutFrame(p: Primitives, limit: nat, f: Frame, n: nat)
    requires Sendable(p, limit, f) && n < |FrameBytes(p, limit, f)|
    ensures ReadStream(p, limit, FrameBytes(p, limit, f)[..n]) == ([], CutEnd(n))
  {
    hide ParseWire, Sendable, FrameBytes;
    CutFrame(p, limit, f, n);
  }

  /** Cutting a stream of frames anywhere loses only the frames it cuts; no damaged record is ever returned. */
  lemma {:induction false} CutStream(p: Primitives, limit: nat, fs: seq<Frame>, n: nat)
    requires p.Lossless() && AllSendable(p, limit, fs) && n <= |StreamBytes(p, limit, fs)|
    ensures var k := WholeFrames(p, limit, fs, n);
            && |StreamBytes(p, limit, fs[..k])| <= n
            && ReadStream(p, limit, StreamBytes(p, limit, fs)[..n])
              == (RecordsOf(fs[..k]), CutEnd(n - |StreamBytes(p, limit, fs[..k])|))
    decreases |fs|, 1
  {
    hide *;
    WholeFramesFit(p, limit, fs, n);
    EmptyStream(p, limit);
    if fs == [] {
      EmptyRead(p, limit);
      assert fs[..0] == [];
    } else {
      StreamUnfold(p, limit, fs, n);
      var f := FrameBytes(p, limit, fs[0]);
      if n < |f| {
        assert StreamBytes(p, limit, fs)[..n] == f[..n];
        ReadCutFrame(p, limit, fs[0], n);
        assert fs[..0] == [];
      } else {
        CutLater(p, limit, fs, n);
      }
    }
  }

  lemma {:induction false} CutConcat(f: Bytes, more: Bytes, n: nat)
    requires |f| <= n <= |f + more|
    ensures (f + more)[..n] == f + more[..n - |f|]
  {}

  lemma {:induction false} CutLater(p: Primitives, limit: nat, fs: seq<Frame>, n: nat)
    requires p.Lossless() && AllSendable(p, limit, fs) && n <= |StreamBytes(p, limit, fs)|
    requires fs != [] && n >= |FrameBytes(p, limit, fs[0])|
    ensures var k := WholeFrames(p, limit, fs, n);
            && |StreamBytes(p, limit, fs[..k])| <= n
            && ReadStream(p, limit, StreamBytes(p, limit, fs)[..n])
              == (RecordsOf(fs[..k]), CutEnd(n - |StreamBytes(p, limit, fs[..k])|))
    decreases |fs|, 0
  {
    hide *;
    StreamUnfold(p, limit, fs, n);
    var f, more := FrameBytes(p, limit, fs[0]), StreamBytes(p, limit, fs[1..]);
    var m := n - |f|;
    CutConcat(f, more, n);
    ReadOne(p, limit, fs[0], more[..m]);
    CutStream(p, limit, fs[1..], m);
    StreamStep(p, limit, fs, WholeFrames(p, limit, fs[1..], m));
  }

  lemma {:induction false} StreamUnfold(p: Primitives, limit: nat, fs: seq<Frame>, n: nat)
    requires AllSendable(p, limit, fs) && fs != []
    ensures Sendable(p, limit, fs[0]) && AllSendable(p, limit, fs[1..])
    ensures StreamBytes(p, limit, fs) == FrameBytes(p, limit, fs[0]) + StreamBytes(p, limit, fs[1..])
    ensures var f := |FrameBytes(p, limit, fs[0])|;
            n >= f ==> WholeFrames(p, limit, fs, n) == 1 + WholeFrames(p, limit, fs[1..], n - f)
    ensures n < |FrameBytes(p, limit, fs[0])| ==> WholeFrames(p, limit, fs, n) == 0
  {
    hide Sendable, FrameBytes;
  }

  lemma {:induction false} CleanEnd()
    ensures CutEnd(0) == EndOfStream
  {}

  lemma {:induction false} EmptyRead(p: Primitives, limit: nat)
    ensures ReadStream(p, limit, []) == ([], CutEnd(0))
  {}

  /** The uncut stream returns every record and then ends cleanly. */
  lemma {:induction false} WholeStream(p: Primitives, limit: nat, fs: seq<Frame>)
    requires p.Lossless() && AllSendable(p, limit, fs)
    ensures ReadStream(p, limit, StreamBytes(p, limit, fs)) == (RecordsOf(fs), EndOfStream)
  {
    hide *;
    CleanEnd();
    var all := StreamBytes(p, limit, fs);
    CutStream(p, limit, fs, |all|);
    WholeFramesFit(p, limit, fs, |all|);
    assert all[..|all|] == all;
    var k := WholeFrames(p, limit, fs, |all|);
    if k < |fs| { StreamGrows(p, limit, fs, k + 1); }
    assert fs[..|fs|] == fs;
  }

  lemma {:induction false} StreamGrows(p: Primitives, limit: nat, fs: seq<Frame>, k: nat)
    requires AllSendable(p, limit, fs) && k <= |fs|
    ensures |StreamBytes(p, limit, fs[..k])| <= |StreamBytes(p, limit, fs)|
  {
    hide Sendable, FrameBytes;
    if k > 0 {
      StreamGrows(p, limit, fs[1..], k - 1);
      assert fs[..k][1..] == fs[1..][..k - 1];
    }
  }
}
