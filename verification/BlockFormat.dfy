/** The on-disk shape of a block: header, header extension, packed records, checksums. */
module BlockFormat {
  import opened Prelude
  import opened Encoding

  const FORMAT_VERSION: byte := 1
  const FIXED_LEN := 24
  const EXT_LEN := 16
  const TOTAL_LEN := 40

  type Marker = m: Bytes | |m| == 8 witness [0, 0, 0, 0, 0, 0, 0, 0]

  /** The characters of "OTLPBLK!". */
  const DEFAULT_SYNC_MARKER: Marker := [0x4F, 0x54, 0x4C, 0x50, 0x42, 0x4C, 0x4B, 0x21]

  datatype Error =
    | UnexpectedEof
    | InvalidRecordType
    | UnknownCodec
    | UnknownVersion
    | HeaderTooShort
    | HeaderCrcMismatch
    | BlockCrcMismatch
    | LengthTooLarge
    | InvalidHeader
    | Truncated
    | TooLongVarint
    | NumericOverflow
    | CodecFailure
    | OutOfOrder

  datatype RecordType = Logs | Metrics | Traces | Events

  function TypeCode(t: RecordType): byte {
    match t case Logs => 1 case Metrics => 2 case Traces => 3 case Events => 4
  }

  function TypeOf(b: byte): Option<RecordType> {
    if b == 1 then Some(Logs) else if b == 2 then Some(Metrics)
    else if b == 3 then Some(Traces) else if b == 4 then Some(Events) else None
  }

  datatype Record = Record(kind: RecordType, seqno: u64, ts: u64, payload: Bytes)

  /** Strictly increasing sequence numbers. */
  predicate Increasing(rs: seq<Record>) { forall i, j :: 0 <= i < j < |rs| ==> rs[i].seqno < rs[j].seqno }

  /** Sequence numbers and timestamps never fall. */
  predicate NonDecreasing(rs: seq<Record>) {
    forall i, j :: 0 <= i < j < |rs| ==> rs[i].seqno <= rs[j].seqno && rs[i].ts <= rs[j].ts
  }

  // ----- foreign functions: checksum and compression

  datatype Codec = Raw | Lz4 | Zstd

  function CodecCode(c: Codec): byte {
    match c case Raw => 0 case Lz4 => 1 case Zstd => 2
  }

  function CodecOf(b: byte): Option<Codec> {
    if b == 0 then Some(Raw) else if b == 1 then Some(Lz4) else if b == 2 then Some(Zstd) else None
  }

  /** Unchecked integer overflow ends a build with overflow checks; without them sums wrap, and `wide` is what a varint
      of more than ten bytes then decodes to. */
  datatype Overflow = Panics | Wraps(wide: Bytes -> u64)

  datatype Primitives = Primitives(
    overflow: Overflow,
    crc32c: Bytes -> u32,
    lz4Compress: Bytes -> Bytes,
    lz4Decompress: (Bytes, nat) -> Option<Bytes>,
    zstdCompress: Bytes -> Option<Bytes>,
    zstdDecompress: (Bytes, nat) -> Option<Bytes>)
  {
    /** Decompressing what was compressed, given its true length, restores it. */
    ghost predicate Lossless() {
      && (forall x: Bytes :: lz4Decompress(lz4Compress(x), |x|) == Some(x))
      && (forall x: Bytes :: zstdCompress(x).Some? ==> zstdDecompress(zstdCompress(x).value, |x|) == Some(x))
    }

    function Compress(codec: Codec, input: Bytes): Option<Bytes> {
      match codec
      case Raw => Some(input)
      case Lz4 => Some(lz4Compress(input))
      case Zstd => zstdCompress(input)
    }

    function Decompress(codec: Codec, input: Bytes, expected: nat): Result<Bytes, Error> {
      match codec
      case Raw => if |input| != expected then Err(InvalidHeader) else Ok(input)
      case Lz4 =>
        var d := lz4Decompress(input, expected);
        if d.None? || |d.value| != expected then Err(CodecFailure) else Ok(d.value)
      case Zstd =>
        var d := zstdDecompress(input, expected);
        if d.None? then Err(CodecFailure) else Ok(d.value)
    }
  }

  lemma {:induction false} DecompressRestores(p: Primitives, codec: Codec, x: Bytes)
    requires p.Lossless() && p.Compress(codec, x).Some?
    ensures p.Decompress(codec, p.Compress(codec, x).value, |x|) == Ok(x)
  {}

  // ----- header and extension

  datatype BlockHeader = BlockHeader(
    version: byte, codec: Codec, flags: u16, headerLen: u16, reserved: u16,
    uncompressedLen: u32, compressedLen: u32, recordCount: u32, headerCrc: u32)

  datatype BlockHeaderExt = BlockHeaderExt(baseSeq: u64, baseTs: u64)

  function EncodeWithoutCrc(h: BlockHeader): (bs: Bytes)
    ensures |bs| == FIXED_LEN - 4
  {
    [h.version, CodecCode(h.codec)]
    + LittleEndian(2, h.flags) + LittleEndian(2, h.headerLen) + LittleEndian(2, h.reserved)
    + LittleEndian(4, h.uncompressedLen) + LittleEndian(4, h.compressedLen) + LittleEndian(4, h.recordCount)
  }

  function EncodeHeader(h: BlockHeader): (bs: Bytes)
    ensures |bs| == FIXED_LEN
  {
    EncodeWithoutCrc(h) + LittleEndian(4, h.headerCrc)
  }

  function Field(bs: Bytes, at: nat, width: nat): (v: nat)
    requires at + width <= |bs|
    ensures v < Pow(256, width)
  {
    LittleEndianRestores(bs[at..at + width]);
    FromLittleEndian(bs[at..at + width])
  }

  function Field16(bs: Bytes, at: nat): u16
    requires at + 2 <= |bs|
  {
    FieldWidths(); Field(bs, at, 2)
  }

  function Field32(bs: Bytes, at: nat): u32
    requires at + 4 <= |bs|
  {
    FieldWidths(); Field(bs, at, 4)
  }

  function Field64(bs: Bytes, at: nat): u64
    requires at + 8 <= |bs|
  {
    FieldWidths(); Field(bs, at, 8)
  }

  function DecodeHeader(bs: Bytes): Result<BlockHeader, Error> {
    if |bs| < FIXED_LEN then Err(Truncated)
    else if bs[0] != FORMAT_VERSION then Err(UnknownVersion)
    else if CodecOf(bs[1]).None? then Err(UnknownCodec)
    else Ok(BlockHeader(bs[0], CodecOf(bs[1]).value, Field16(bs, 2), Field16(bs, 4), Field16(bs, 6),
                        Field32(bs, 8), Field32(bs, 12), Field32(bs, 16), Field32(bs, 20)))
  }

  function EncodeExt(e: BlockHeaderExt): (bs: Bytes)
    ensures |bs| == EXT_LEN
  {
    LittleEndian(8, e.baseSeq) + LittleEndian(8, e.baseTs)
  }

  function DecodeExt(bs: Bytes): (e: BlockHeaderExt)
    requires |bs| >= EXT_LEN
  {
    BlockHeaderExt(Field64(bs, 0), Field64(bs, 8))
  }

  /** A field written at `at` reads back. */
  lemma {:induction false} FieldRoundTrip(bs: Bytes, at: nat, width: nat, v: nat)
    requires at + width <= |bs| && bs[at..at + width] == LittleEndian(width, v) && v < Pow(256, width)
    ensures Field(bs, at, width) == v
  {
    LittleEndianRoundTrip(width, v);
  }

  lemma {:induction false} Field32RoundTrip(bs: Bytes, at: nat, v: u32)
    requires at + 4 <= |bs| && bs[at..at + 4] == LittleEndian(4, v)
    ensures Field32(bs, at) == v
  {
    FieldWidths();
    FieldRoundTrip(bs, at, 4, v);
  }

  lemma {:induction false} Field64RoundTrip(bs: Bytes, at: nat, v: u64)
    requires at + 8 <= |bs| && bs[at..at + 8] == LittleEndian(8, v)
    ensures Field64(bs, at) == v
  {
    FieldWidths();
    FieldRoundTrip(bs, at, 8, v);
  }

  lemma {:induction false} FieldAlone(bs: Bytes, at: nat)
    requires at + 4 <= |bs|
    ensures Field32(bs[at..at + 4], 0) == Field32(bs, at)
  {
    var four := bs[at..at + 4];
    assert four[0..4] == four;
  }

  lemma {:induction false} HeaderSlices(h: BlockHeader)
    ensures var bs := EncodeWithoutCrc(h);
            && bs[2..4] == LittleEndian(2, h.flags) && bs[4..6] == LittleEndian(2, h.headerLen)
            && bs[6..8] == LittleEndian(2, h.reserved) && bs[8..12] == LittleEndian(4, h.uncompressedLen)
            && bs[12..16] == LittleEndian(4, h.compressedLen) && bs[16..20] == LittleEndian(4, h.recordCount)
  {
    hide LittleEndian;
  }

  lemma {:induction false} HeaderCrcSlice(h: BlockHeader)
    ensures EncodeHeader(h)[..20] == EncodeWithoutCrc(h) && EncodeHeader(h)[20..24] == LittleEndian(4, h.headerCrc)
  {
    hide LittleEndian, EncodeWithoutCrc;
    assert EncodeHeader(h)[20..] == LittleEndian(4, h.headerCrc);
  }

  lemma {:induction false} HeaderFields(h: BlockHeader)
    ensures var bs := EncodeHeader(h);
            && bs[2..4] == LittleEndian(2, h.flags) && bs[4..6] == LittleEndian(2, h.headerLen)
            && bs[6..8] == LittleEndian(2, h.reserved) && bs[8..12] == LittleEndian(4, h.uncompressedLen)
            && bs[12..16] == LittleEndian(4, h.compressedLen) && bs[16..20] == LittleEndian(4, h.recordCount)
  {
    hide LittleEndian, EncodeWithoutCrc, EncodeHeader;
    HeaderSlices(h);
    HeaderCrcSlice(h);
    var bs := EncodeHeader(h);
    SubSlice(bs, 0, 20, 2, 4);
    SubSlice(bs, 0, 20, 4, 6);
    SubSlice(bs, 0, 20, 6, 8);
    SubSlice(bs, 0, 20, 8, 12);
    SubSlice(bs, 0, 20, 12, 16);
    SubSlice(bs, 0, 20, 16, 20);
    assert bs[0..20] == bs[..20];
  }

  lemma {:induction false} HeaderStart(h: BlockHeader)
    ensures EncodeHeader(h)[0] == h.version && EncodeHeader(h)[1] == CodecCode(h.codec)
  {
    hide LittleEndian;
  }

  lemma {:induction false} HeaderRoundTrip(h: BlockHeader)
    requires h.version == FORMAT_VERSION
    ensures DecodeHeader(EncodeHeader(h)) == Ok(h)
  {
    hide LittleEndian, Field, Field32, EncodeHeader;
    var bs := EncodeHeader(h);
    FieldWidths();
    HeaderStart(h);
    HeaderFields(h);
    HeaderCrcSlice(h);
    FieldRoundTrip(bs, 2, 2, h.flags);
    FieldRoundTrip(bs, 4, 2, h.headerLen);
    FieldRoundTrip(bs, 6, 2, h.reserved);
    Field32RoundTrip(bs, 8, h.uncompressedLen);
    Field32RoundTrip(bs, 12, h.compressedLen);
    Field32RoundTrip(bs, 16, h.recordCount);
    Field32RoundTrip(bs, 20, h.headerCrc);
  }

  lemma {:induction false} FieldRestores(bs: Bytes, at: nat, width: nat)
    requires at + width <= |bs|
    ensures LittleEndian(width, Field(bs, at, width)) == bs[at..at + width]
  {
    LittleEndianRestores(bs[at..at + width]);
  }

  /** An accepted header re-encodes to the very bytes it came from, so its checksum covers the stored bytes. */
  lemma {:induction false} HeaderRestores(bs: Bytes)
    requires |bs| == FIXED_LEN && DecodeHeader(bs).Ok?
    ensures EncodeHeader(DecodeHeader(bs).value) == bs
    ensures EncodeWithoutCrc(DecodeHeader(bs).value) == bs[..FIXED_LEN - 4]
    ensures DecodeHeader(bs).value.version == FORMAT_VERSION
  {
    hide LittleEndian, FromLittleEndian;
    FieldRestores(bs, 2, 2); FieldRestores(bs, 4, 2); FieldRestores(bs, 6, 2);
    FieldRestores(bs, 8, 4); FieldRestores(bs, 12, 4); FieldRestores(bs, 16, 4); FieldRestores(bs, 20, 4);
    assert bs[..20] == bs[0..2] + bs[2..4] + bs[4..6] + bs[6..8] + bs[8..12] + bs[12..16] + bs[16..20];
    assert bs == bs[..20] + bs[20..24];
    assert bs[0..2] == [bs[0], bs[1]];
  }

  lemma {:induction false} ExtRoundTrip(e: BlockHeaderExt, rest: Bytes)
    ensures DecodeExt(EncodeExt(e) + rest) == e
  {
    var bs := EncodeExt(e) + rest;
    assert bs[0..8] == LittleEndian(8, e.baseSeq);
    assert bs[8..16] == LittleEndian(8, e.baseTs);
    Field64RoundTrip(bs, 0, e.baseSeq);
    Field64RoundTrip(bs, 8, e.baseTs);
  }

  lemma {:induction false} ExtRestores(bs: Bytes)
    requires |bs| >= EXT_LEN
    ensures EncodeExt(DecodeExt(bs)) == bs[..EXT_LEN]
  {
    hide LittleEndian, FromLittleEndian;
    FieldRestores(bs, 0, 8);
    FieldRestores(bs, 8, 8);
    assert bs[..16] == bs[0..8] + bs[8..16];
  }

  // ----- records inside a block payload

  /** A record can be stored relative to the block's first record. */
  predicate Fits(base: BlockHeaderExt, r: Record) {
    base.baseSeq <= r.seqno && base.baseTs <= r.ts && |r.payload| < TWO_64
  }

  function EncodeRecord(base: BlockHeaderExt, r: Record): (bs: Bytes)
    requires Fits(base, r)
    ensures bs != []
  {
    [TypeCode(r.kind)] + Varint(r.seqno - base.baseSeq) + Varint(r.ts - base.baseTs) + Varint(|r.payload|) + r.payload
  }

  function EncodeRecords(base: BlockHeaderExt, rs: seq<Record>): Bytes
    requires forall r :: r in rs ==> Fits(base, r)
  {
    if rs == [] then [] else EncodeRecord(base, rs[0]) + EncodeRecords(base, rs[1..])
  }

  lemma {:induction false} EncodeRecordsAppend(base: BlockHeaderExt, rs: seq<Record>, r: Record)
    requires Fits(base, r) && forall x :: x in rs ==> Fits(base, x)
    ensures EncodeRecords(base, rs + [r]) == EncodeRecords(base, rs) + EncodeRecord(base, r)
  {
    hide EncodeRecord;
    if rs == [] {
      assert rs + [r] == [r] && [r][1..] == [];
      assert EncodeRecords(base, [r]) == EncodeRecord(base, r) + EncodeRecords(base, []);
    } else {
      EncodeRecordsAppend(base, rs[1..], r);
      assert (rs + [r])[1..] == rs[1..] + [r];
      assert EncodeRecords(base, rs + [r])
             == EncodeRecord(base, rs[0]) + (EncodeRecords(base, rs[1..]) + EncodeRecord(base, r));
    }
  }

  function VarintError(v: VarintResult): Error
    requires !v.Value?
  {
    if v.VarintTooLong? then TooLongVarint else Truncated
  }

  /** One record at `cursor`, and where the next one starts. */
  function ParseRecord(payload: Bytes, cursor: nat, base: BlockHeaderExt): (r: Result<(Record, nat), Error>)
    requires cursor <= |payload|
    ensures r.Ok? ==> cursor < r.value.1 <= |payload|
  {
    if cursor == |payload| then Err(Truncated) else
    var kind := TypeOf(payload[cursor]);
    if kind.None? then Err(InvalidRecordType) else
    var s := DecodeVarint(payload, cursor + 1);
    if !s.Value? then Err(VarintError(s)) else
    var t := DecodeVarint(payload, s.next);
    if !t.Value? then Err(VarintError(t)) else
    var n := DecodeVarint(payload, t.next);
    if !n.Value? then Err(VarintError(n)) else
    var end := n.next + n.value;
    if end >= TWO_64 then Err(NumericOverflow)
    else if end > |payload| then Err(Truncated)
    else if base.baseSeq + s.value >= TWO_64 || base.baseTs + t.value >= TWO_64 then Err(NumericOverflow)
    else Ok((Record(kind.value, base.baseSeq + s.value, base.baseTs + t.value, payload[n.next..end]), end))
  }

  /** Exactly `count` records from `cursor` to the end of the payload. */
  function ParseRecordsFrom(payload: Bytes, cursor: nat, count: nat, base: BlockHeaderExt): Result<seq<Record>, Error>
    requires cursor <= |payload|
    decreases count
  {
    if count == 0 then
      if cursor != |payload| then Err(InvalidHeader) else Ok([])
    else
      var one := ParseRecord(payload, cursor, base);
      if one.Err? then Err(one.error)
      else
        var more := ParseRecordsFrom(payload, one.value.1, count - 1, base);
        if more.Err? then more else Ok([one.value.0] + more.value)
  }

  function ParseRecords(payload: Bytes, count: nat, base: BlockHeaderExt): Result<seq<Record>, Error> {
    ParseRecordsFrom(payload, 0, count, base)
  }

  /** `more` records parsed in front of an already parsed list. */
  function Prepend(done: seq<Record>, more: Result<seq<Record>, Error>): Result<seq<Record>, Error> {
    if more.Err? then more else Ok(done + more.value)
  }

  method ReadRecord(payload: Bytes, cursor: nat, base: BlockHeaderExt) returns (r: Result<(Record, nat), Error>)
    requires cursor <= |payload|
    ensures r == ParseRecord(payload, cursor, base)
  {
    hide DecodeVarint;
    if cursor >= |payload| { return Err(Truncated); }
    var kind := TypeOf(payload[cursor]);
    if kind.None? { return Err(InvalidRecordType); }
    var s := ReadVarint(payload, cursor + 1);
    if !s.Value? { return Err(VarintError(s)); }
    var t := ReadVarint(payload, s.next);
    if !t.Value? { return Err(VarintError(t)); }
    var n := ReadVarint(payload, t.next);
    if !n.Value? { return Err(VarintError(n)); }
    var end := n.next + n.value;
    if end >= TWO_64 { return Err(NumericOverflow); }
    if end > |payload| { return Err(Truncated); }
    if base.baseSeq + s.value >= TWO_64 || base.baseTs + t.value >= TWO_64 { return Err(NumericOverflow); }
    r := Ok((Record(kind.value, base.baseSeq + s.value, base.baseTs + t.value, payload[n.next..end]), end));
  }

  /** The parsing loop computes `ParseRecords`. */
  method ReadRecords(payload: Bytes, count: nat, base: BlockHeaderExt) returns (r: Result<seq<Record>, Error>)
    ensures r == ParseRecords(payload, count, base)
  {
    hide ParseRecord;
    var records: seq<Record>, cursor: nat := [], 0;
    assert forall x: seq<Record> :: records + x == x;
    for i := 0 to count
      invariant cursor <= |payload|
      invariant ParseRecords(payload, count, base)
             == Prepend(records, ParseRecordsFrom(payload, cursor, count - i, base))
    {
      var one := ReadRecord(payload, cursor, base);
      if one.Err? { return Err(one.error); }
      var (rec, end) := one.value;
      ghost var more := ParseRecordsFrom(payload, end, count - i - 1, base);
      assert more.Ok? ==> records + ([rec] + more.value) == (records + [rec]) + more.value;
      records := records + [rec];
      cursor := end;
    }
    if cursor != |payload| { return Err(InvalidHeader); }
    assert records + [] == records;
    r := Ok(records);
  }

  lemma {:induction false} Slices(pre: Bytes, t: byte, s: Bytes, u: Bytes, n: Bytes, p: Bytes, post: Bytes, all: Bytes)
    requires all == pre + ([t] + s + u + n + p) + post
    ensures var a := |pre| + 1;
            var b := a + |s|;
            var c := b + |u|;
            var d := c + |n|;
            && d + |p| <= |all| && all[|pre|] == t
            && all[a..b] == s && all[b..c] == u && all[c..d] == n && all[d..d + |p|] == p
  {}

  lemma {:induction false} RecordRoundTrip(pre: Bytes, base: BlockHeaderExt, r: Record, post: Bytes, all: Bytes)
    requires Fits(base, r) && all == pre + EncodeRecord(base, r) + post && |all| < TWO_64
    ensures ParseRecord(all, |pre|, base) == Ok((r, |pre| + |EncodeRecord(base, r)|))
  {
    hide DecodeVarint, Varint;
    var s, u, n := r.seqno - base.baseSeq, r.ts - base.baseTs, |r.payload|;
    Slices(pre, TypeCode(r.kind), Varint(s), Varint(u), Varint(n), r.payload, post, all);
    VarintRoundTrip(all, |pre| + 1, s);
    VarintRoundTrip(all, |pre| + 1 + |Varint(s)|, u);
    VarintRoundTrip(all, |pre| + 1 + |Varint(s)| + |Varint(u)|, n);
  }

  lemma {:induction false} ParseOneMore(payload: Bytes, cursor: nat, base: BlockHeaderExt, r: Record, next: nat,
                                        more: seq<Record>)
    requires cursor <= next <= |payload| && ParseRecord(payload, cursor, base) == Ok((r, next))
    requires ParseRecordsFrom(payload, next, |more|, base) == Ok(more)
    ensures ParseRecordsFrom(payload, cursor, |more| + 1, base) == Ok([r] + more)
  {
    hide ParseRecord;
  }

  lemma {:induction false} EncodeOneMore(base: BlockHeaderExt, rs: seq<Record>)
    requires rs != [] && forall r :: r in rs ==> Fits(base, r)
    ensures EncodeRecords(base, rs) == EncodeRecord(base, rs[0]) + EncodeRecords(base, rs[1..])
  {}

  lemma {:induction false} NoRecords(base: BlockHeaderExt, payload: Bytes)
    ensures EncodeRecords(base, []) == [] && ParseRecordsFrom(payload, |payload|, 0, base) == Ok([])
  {}

  lemma {:induction false} RecordsRoundTripFrom(pre: Bytes, base: BlockHeaderExt, rs: seq<Record>, all: Bytes)
    requires forall r :: r in rs ==> Fits(base, r)
    requires all == pre + EncodeRecords(base, rs) && |all| < TWO_64
    ensures ParseRecordsFrom(all, |pre|, |rs|, base) == Ok(rs)
    decreases |rs|
  {
    hide ParseRecord, EncodeRecord, EncodeRecords, ParseRecordsFrom, Fits;
    if rs == [] {
      NoRecords(base, all);
      assert pre + [] == pre;
    } else {
      EncodeOneMore(base, rs);
      var one, post := EncodeRecord(base, rs[0]), EncodeRecords(base, rs[1..]);
      assert pre + (one + post) == pre + one + post;
      RecordRoundTrip(pre, base, rs[0], post, all);
      RecordsRoundTripFrom(pre + one, base, rs[1..], all);
      ParseOneMore(all, |pre|, base, rs[0], |pre| + |one|, rs[1..]);
      assert [rs[0]] + rs[1..] == rs;
    }
  }

  /** Parsing a packed list of records gives the list back. */
  lemma {:induction false} RecordsRoundTrip(base: BlockHeaderExt, rs: seq<Record>)
    requires forall r :: r in rs ==> Fits(base, r)
    requires |EncodeRecords(base, rs)| < TWO_64
    ensures ParseRecords(EncodeRecords(base, rs), |rs|, base) == Ok(rs)
  {
    var none: Bytes := [];
    assert none + EncodeRecords(base, rs) == EncodeRecords(base, rs);
    RecordsRoundTripFrom(none, base, rs, EncodeRecords(base, rs));
  }
}
