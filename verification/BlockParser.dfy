/** What one block is: the parser the reader applies at a marker, and the printer it inverts. */
module BlockParser {
  import opened Prelude
  import opened Encoding
  import opened BlockFormat

  datatype ReaderConfig = ReaderConfig(marker: Marker, maxCompressed: nat, maxUncompressed: nat)

  datatype Block = Block(records: seq<Record>, extent: nat)

  /** The verdict on one candidate, and the byte totals counted for it even if it is rejected later. */
  datatype Outcome = Outcome(result: Result<Block, Error>, compressed: nat, uncompressed: nat)

  function Reject(e: Error): Outcome { Outcome(Err(e), 0, 0) }

  function HeaderCrc(p: Primitives, h: BlockHeader, ext: Bytes): u32 { p.crc32c(EncodeWithoutCrc(h) + ext) }

  /** The part after both checksums: decompress, then parse the records. */
  function ParseBody(p: Primitives, h: BlockHeader, base: BlockHeaderExt, compressed: Bytes)
    : Result<seq<Record>, Error>
  {
    var payload := p.Decompress(h.codec, compressed, h.uncompressedLen);
    if payload.Err? then Err(payload.error) else ParseRecords(payload.value, h.recordCount, base)
  }

  /** From the header extension on, once the fixed header is accepted. */
  function ParseTail(p: Primitives, b: Bytes, h: BlockHeader): (o: Outcome)
    requires |b| >= 8 + FIXED_LEN && h.headerLen >= TOTAL_LEN
    ensures o.result.Ok? ==> 8 < o.result.value.extent <= |b|
  {
    var body := 8 + h.headerLen;
    var end := body + h.compressedLen;
    if |b| < body then Reject(UnexpectedEof) else
    var ext := b[8 + FIXED_LEN..body];
    if HeaderCrc(p, h, ext) != h.headerCrc then Reject(HeaderCrcMismatch)
    else if |b| < end + 4 then Reject(UnexpectedEof)
    else if p.crc32c(b[8..end]) != Field32(b, end) then Reject(BlockCrcMismatch)
    else
      var records := ParseBody(p, h, DecodeExt(ext), b[body..end]);
      Outcome(if records.Err? then Err(records.error) else Ok(Block(records.value, end + 4)),
              h.compressedLen, h.uncompressedLen)
  }

  /** The verdict on the bytes `b`, read as a block from their start. */
  function ParseBlock(p: Primitives, cfg: ReaderConfig, b: Bytes): (o: Outcome)
    ensures o.result.Ok? ==> 8 < o.result.value.extent <= |b| && b[..8] == cfg.marker
  {
    if |b| < 8 then Reject(UnexpectedEof)
    else if b[..8] != cfg.marker then Reject(InvalidHeader)
    else if |b| < 8 + FIXED_LEN then Reject(UnexpectedEof)
    else
      var h := DecodeHeader(b[8..8 + FIXED_LEN]);
      if h.Err? then Reject(h.error)
      else if h.value.headerLen < TOTAL_LEN then Reject(HeaderTooShort)
      else if h.value.compressedLen > cfg.maxCompressed
          || h.value.uncompressedLen > cfg.maxUncompressed then Reject(LengthTooLarge)
      else ParseTail(p, b, h.value)
  }

  // ----- the printer

  /** Everything a block stores besides its checksums; `extra` is header extension beyond the known 16 bytes. */
  datatype RawBlock = RawBlock(
    codec: Codec, flags: u16, reserved: u16, uncompressedLen: u32, recordCount: u32,
    base: BlockHeaderExt, extra: Bytes, compressed: Bytes)

  predicate Printable(rb: RawBlock) {
    TOTAL_LEN + |rb.extra| < 0x1_0000 && |rb.compressed| < 0x1_0000_0000
  }

  function HeaderOf(p: Primitives, rb: RawBlock): (h: BlockHeader)
    requires Printable(rb)
    ensures h.version == FORMAT_VERSION && h.headerLen == TOTAL_LEN + |rb.extra|
    ensures h.headerCrc == HeaderCrc(p, h, EncodeExt(rb.base) + rb.extra)
  {
    var h := BlockHeader(FORMAT_VERSION, rb.codec, rb.flags, TOTAL_LEN + |rb.extra|, rb.reserved,
                         rb.uncompressedLen, |rb.compressed|, rb.recordCount, 0);
    h.(headerCrc := HeaderCrc(p, h, EncodeExt(rb.base) + rb.extra))
  }

  /** Header, extension and payload: what the block checksum covers. */
  function Covered(p: Primitives, rb: RawBlock): (bs: Bytes)
    requires Printable(rb)
    ensures |bs| == TOTAL_LEN + |rb.extra| + |rb.compressed|
  {
    EncodeHeader(HeaderOf(p, rb)) + (EncodeExt(rb.base) + rb.extra) + rb.compressed
  }

  function Print(p: Primitives, marker: Marker, rb: RawBlock): (bs: Bytes)
    requires Printable(rb)
    ensures |bs| == 8 + TOTAL_LEN + |rb.extra| + |rb.compressed| + 4
  {
    marker + Covered(p, rb) + LittleEndian(4, p.crc32c(Covered(p, rb)))
  }

  lemma {:induction false} PrintSlices(m: Bytes, h: Bytes, e: Bytes, c: Bytes, k: Bytes, rest: Bytes, b: Bytes)
    requires b == m + (h + e + c) + k + rest
    ensures var i := |m| + |h|;
            var j := i + |e|;
            var n := j + |c|;
            && n + |k| <= |b| && b[..|m|] == m && b[|m|..i] == h && b[i..j] == e && b[j..n] == c
            && b[|m|..n] == h + e + c && b[n..n + |k|] == k
  {}

  /** What the parser decides about a printed block, whatever follows it. */
  lemma {:induction false} ParsePrinted(p: Primitives, cfg: ReaderConfig, rb: RawBlock, rest: Bytes)
    requires Printable(rb)
    ensures var o := ParseBlock(p, cfg, Print(p, cfg.marker, rb) + rest);
            var records := ParseBody(p, HeaderOf(p, rb), rb.base, rb.compressed);
            if |rb.compressed| > cfg.maxCompressed || rb.uncompressedLen > cfg.maxUncompressed then
              o == Reject(LengthTooLarge)
            else if records.Err? then o.result == Err(records.error)
            else o == Outcome(Ok(Block(records.value, |Print(p, cfg.marker, rb)|)), |rb.compressed|, rb.uncompressedLen)
  {
    hide ParseRecords, EncodeWithoutCrc, LittleEndian, DecodeHeader, EncodeHeader, EncodeExt, DecodeExt;
    var h := HeaderOf(p, rb);
    var ext := EncodeExt(rb.base) + rb.extra;
    var crc := LittleEndian(4, p.crc32c(Covered(p, rb)));
    var b := Print(p, cfg.marker, rb) + rest;
    PrintSlices(cfg.marker, EncodeHeader(h), ext, rb.compressed, crc, rest, b);
    HeaderRoundTrip(h);
    ExtRoundTrip(rb.base, rb.extra);
    Field32RoundTrip(b, 8 + |Covered(p, rb)|, p.crc32c(Covered(p, rb)));
  }

  /** Every accepted block is the print of some raw block, so the parser accepts nothing else. */
  lemma {:induction false} ParsedIsPrinted(p: Primitives, cfg: ReaderConfig, b: Bytes) returns (rb: RawBlock)
    requires ParseBlock(p, cfg, b).result.Ok?
    ensures Printable(rb) && |rb.compressed| <= cfg.maxCompressed && rb.uncompressedLen <= cfg.maxUncompressed
    ensures var k := ParseBlock(p, cfg, b).result.value;
            && Print(p, cfg.marker, rb) == b[..k.extent]
            && ParseBody(p, HeaderOf(p, rb), rb.base, rb.compressed) == Ok(k.records)
  {
    hide ParseRecords, EncodeWithoutCrc, LittleEndian, DecodeHeader, EncodeHeader, EncodeExt, DecodeExt;
    var fixed := b[8..8 + FIXED_LEN];
    var h := DecodeHeader(fixed).value;
    var body, end := 8 + h.headerLen, 8 + h.headerLen + h.compressedLen;
    var ext := b[8 + FIXED_LEN..body];
    rb := RawBlock(h.codec, h.flags, h.reserved, h.uncompressedLen, h.recordCount,
                   DecodeExt(ext), ext[EXT_LEN..], b[body..end]);
    HeaderRestores(fixed);
    ExtRestores(ext);
    assert ext == ext[..EXT_LEN] + ext[EXT_LEN..];
    assert EncodeExt(rb.base) + rb.extra == ext;
    HeaderDetermined(p, rb, h, ext);
    assert b[8..end] == fixed + ext + b[body..end];
    FieldRestores(b, end, 4);
    assert b[..end + 4] == b[..8] + b[8..end] + b[end..end + 4];
  }

  /** The stored checksum is not part of what it covers. */
  lemma {:induction false} HeaderDetermined(p: Primitives, rb: RawBlock, h: BlockHeader, ext: Bytes)
    requires Printable(rb) && EncodeExt(rb.base) + rb.extra == ext
    requires h.version == FORMAT_VERSION && h.headerLen == TOTAL_LEN + |rb.extra| && h.compressedLen == |rb.compressed|
    requires h.codec == rb.codec && h.flags == rb.flags && h.reserved == rb.reserved
    requires h.uncompressedLen == rb.uncompressedLen && h.recordCount == rb.recordCount
    requires h.headerCrc == HeaderCrc(p, h, ext)
    ensures HeaderOf(p, rb) == h
  {
    assert EncodeWithoutCrc(h.(headerCrc := 0)) == EncodeWithoutCrc(h);
  }

  /** A verdict of acceptance does not depend on what follows the block. */
  lemma {:induction false} AcceptedPrefix(p: Primitives, cfg: ReaderConfig, b: Bytes, rest: Bytes)
    requires ParseBlock(p, cfg, b).result.Ok?
    ensures ParseBlock(p, cfg, b + rest).result == ParseBlock(p, cfg, b).result
  {
    hide *;
    var rb := ParsedIsPrinted(p, cfg, b);
    var n := ParseBlock(p, cfg, b).result.value.extent;
    assert b + rest == Print(p, cfg.marker, rb) + (b[n..] + rest);
    ParsePrinted(p, cfg, rb, b[n..] + rest);
  }

  /** A block cut short anywhere is rejected. */
  lemma {:induction false} TornBlockRejected(p: Primitives, cfg: ReaderConfig, b: Bytes, n: nat)
    requires ParseBlock(p, cfg, b).result.Ok? && n < ParseBlock(p, cfg, b).result.value.extent
    ensures ParseBlock(p, cfg, b[..n]).result.Err?
  {
    hide *;
    assert b[..n] + b[n..] == b;
    if ParseBlock(p, cfg, b[..n]).result.Ok? { AcceptedPrefix(p, cfg, b[..n], b[n..]); }
  }
}
