/** Building the sidecar index of a file, and its agreement with the reader. */
module IndexBuild {
  import opened Prelude
  import opened Encoding
  import opened BlockFormat
  import opened BlockParser
  import opened BlockReader
  import opened BlockWriter
  import opened RoundTrip
  import opened SyncMarker
  import opened IndexSummary

  /** The builder gives up on an error, and aborts where a slice, or in a checked build a sum or shift, goes out of
      range. */
  datatype Fault = Failed | Aborted

  // ----- one block, without checksums, limits or a record count

  /** The index's own integer decoder: it has no length limit, so an eleventh byte shifts out of range. */
  function IndexVarint(o: Overflow, bytes: Bytes, cursor: nat): (r: Result<(u64, nat), Fault>)
    requires cursor <= |bytes|
    ensures r.Ok? ==> cursor < r.value.1 <= |bytes|
  {
    var e := VarintEnd(bytes, cursor);
    if e - cursor >= 10 && o.Panics? && (e < |bytes| || e - cursor > 10) then Err(Aborted)
    else if e == |bytes| then Err(Failed)
    else if e - cursor >= 10 then Ok((o.wide(bytes[cursor..e + 1]), e + 1))
    else Ok((LebValue(bytes[cursor..e + 1]) % TWO_64, e + 1))
  }

  /** An unchecked sum. */
  function IndexSum(o: Overflow, a: u64, b: u64): Result<u64, Fault> {
    if a + b < TWO_64 then Ok(a + b) else if o.Panics? then Err(Aborted) else Ok((a + b) % TWO_64)
  }

  function IndexRecord(o: Overflow, payload: Bytes, cursor: nat, base: BlockHeaderExt)
    : (r: Result<(Record, nat), Fault>)
    requires cursor < |payload|
    ensures r.Ok? ==> cursor < r.value.1 <= |payload|
  {
    var kind := TypeOf(payload[cursor]);
    if kind.None? then Err(Failed) else
    var s := IndexVarint(o, payload, cursor + 1);
    if s.Err? then Err(s.error) else
    var seqno := IndexSum(o, base.baseSeq, s.value.0);
    if seqno.Err? then Err(seqno.error) else
    var t := IndexVarint(o, payload, s.value.1);
    if t.Err? then Err(t.error) else
    var ts := IndexSum(o, base.baseTs, t.value.0);
    if ts.Err? then Err(ts.error) else
    var n := IndexVarint(o, payload, t.value.1);
    if n.Err? then Err(n.error) else
    var end := n.value.1 + n.value.0;
    if end >= TWO_64 then Err(Failed) else if end > |payload| then Err(Aborted)
    else Ok((Record(kind.value, seqno.value, ts.value, payload[n.value.1..end]), end))
  }

  function IndexRecords(o: Overflow, payload: Bytes, cursor: nat, base: BlockHeaderExt): Result<seq<Record>, Fault>
    requires cursor <= |payload|
    decreases |payload| - cursor
  {
    if cursor == |payload| then Ok([])
    else
      var one := IndexRecord(o, payload, cursor, base);
      if one.Err? then Err(one.error)
      else
        var more := IndexRecords(o, payload, one.value.1, base);
        if more.Err? then more else Ok([one.value.0] + more.value)
  }

  datatype Entry = Entry(offset: nat, len: nat, records: seq<Record>)

  /** What follows the marker at the start of `b`: the records and the length of the block; no checksum is tested. */
  function IndexBody(p: Primitives, b: Bytes): (r: Result<(seq<Record>, nat), Fault>)
    ensures r.Ok? ==> 0 < r.value.1 <= |b|
  {
    if |b| < 8 + FIXED_LEN then Err(Failed)
    else
      var h := DecodeHeader(b[8..8 + FIXED_LEN]);
      if h.Err? then Err(Failed) else
      var body := 8 + Max(h.value.headerLen, FIXED_LEN);
      if |b| < body then Err(Failed)
      else if body < 8 + TOTAL_LEN then Err(Aborted)
      else
        var end := body + h.value.compressedLen;
        if |b| < end + 4 then Err(Failed)
        else
          var payload := p.Decompress(h.value.codec, b[body..end], h.value.uncompressedLen);
          if payload.Err? then Err(Failed)
          else
            var rs := IndexRecords(p.overflow, payload.value, 0, DecodeExt(b[8 + FIXED_LEN..body]));
            if rs.Err? then Err(rs.error) else Ok((rs.value, end + 4))
  }

  /** The block at the start of `b`: nothing unless the marker is there, an error if it cannot be read. */
  function IndexBlock(p: Primitives, b: Bytes): (r: Result<Option<(seq<Record>, nat)>, Fault>)
    ensures r.Ok? && r.value.Some? ==> 0 < r.value.value.1 <= |b|
    ensures r.Ok? && r.value.None? ==> !MarkerAt(DEFAULT_SYNC_MARKER, b, 0)
  {
    if |b| < 8 || b[..8] != DEFAULT_SYNC_MARKER then
      assert |b| >= 8 ==> b[0..8] == b[..8];
      Ok(None)
    else
      var body := IndexBody(p, b);
      if body.Err? then Err(body.error) else Ok(Some(body.value))
  }

  lemma {:induction false} IndexVarintAgrees(o: Overflow, bytes: Bytes, cursor: nat)
    requires cursor <= |bytes| && DecodeVarint(bytes, cursor).Value?
    ensures IndexVarint(o, bytes, cursor) == Ok((DecodeVarint(bytes, cursor).value, DecodeVarint(bytes, cursor).next))
  {}

  lemma {:induction false} IndexRecordAgrees(o: Overflow, payload: Bytes, cursor: nat, base: BlockHeaderExt)
    requires cursor <= |payload| && ParseRecord(payload, cursor, base).Ok?
    ensures IndexRecord(o, payload, cursor, base) == Ok(ParseRecord(payload, cursor, base).value)
  {
    hide DecodeVarint, IndexVarint;
    IndexVarintAgrees(o, payload, cursor + 1);
    var s := DecodeVarint(payload, cursor + 1);
    IndexVarintAgrees(o, payload, s.next);
    IndexVarintAgrees(o, payload, DecodeVarint(payload, s.next).next);
  }

  lemma {:induction false} IndexRecordsAgree(o: Overflow, payload: Bytes, cursor: nat, count: nat, base: BlockHeaderExt)
    requires cursor <= |payload| && ParseRecordsFrom(payload, cursor, count, base).Ok?
    ensures IndexRecords(o, payload, cursor, base) == Ok(ParseRecordsFrom(payload, cursor, count, base).value)
    decreases count
  {
    hide ParseRecord, IndexRecord;
    if count > 0 {
      NotAtEnd(payload, cursor, base);
      IndexRecordAgrees(o, payload, cursor, base);
      IndexRecordsAgree(o, payload, ParseRecord(payload, cursor, base).value.1, count - 1, base);
    }
  }

  lemma {:induction false} NotAtEnd(payload: Bytes, cursor: nat, base: BlockHeaderExt)
    requires cursor <= |payload| && ParseRecord(payload, cursor, base).Ok?
    ensures cursor < |payload|
  {}

  /** Wherever the reader accepts a block, the index finds the same records and the same extent. */
  lemma {:induction false} IndexBlockAgrees(p: Primitives, cfg: ReaderConfig, b: Bytes)
    requires cfg.marker == DEFAULT_SYNC_MARKER && ParseBlock(p, cfg, b).result.Ok?
    ensures var k := ParseBlock(p, cfg, b).result.value;
            IndexBlock(p, b) == Ok(Some((k.records, k.extent)))
  {
    hide DecodeHeader, ParseRecordsFrom, IndexRecords, DecodeExt, EncodeWithoutCrc;
    var h := DecodeHeader(b[8..8 + FIXED_LEN]).value;
    var body, end := 8 + h.headerLen, 8 + h.headerLen + h.compressedLen;
    var payload := p.Decompress(h.codec, b[body..end], h.uncompressedLen).value;
    IndexRecordsAgree(p.overflow, payload, 0, h.recordCount, DecodeExt(b[8 + FIXED_LEN..body]));
  }

  // ----- a whole file

  lemma {:induction false} DefaultMarkerAligned()
    ensures SelfAligned(DEFAULT_SYNC_MARKER)
  {
    FreshHeadIsSelfAligned(DEFAULT_SYNC_MARKER);
  }

  lemma {:induction false} Resync(rest: Bytes)
    requires !MarkerAt(DEFAULT_SYNC_MARKER, rest, 0)
    ensures Scan(DEFAULT_SYNC_MARKER, rest).Some? ==> Scan(DEFAULT_SYNC_MARKER, rest).value > 0
  {
    DefaultMarkerAligned();
    ScanIsFirst(DEFAULT_SYNC_MARKER, rest);
  }

  /** The entries from `offset` on: block after block, resynchronising on the marker where none starts. */
  function IndexFrom(p: Primitives, file: Bytes, offset: nat): Result<seq<Entry>, Fault>
    requires offset <= |file|
    decreases |file| - offset
  {
    if offset == |file| then Ok([])
    else
      var rest := file[offset..];
      var b := IndexBlock(p, rest);
      if b.Err? then Err(b.error)
      else if b.value.Some? then
        var (rs, len) := b.value.value;
        var more := IndexFrom(p, file, offset + len);
        if more.Err? then more else Ok([Entry(offset, len, rs)] + more.value)
      else
        Resync(rest);
        var next := Scan(DEFAULT_SYNC_MARKER, rest);
        if next.None? then Ok([]) else IndexFrom(p, file, offset + next.value)
  }

  /** The blocks the reader takes, from `offset` on. */
  function ReaderFrom(p: Primitives, cfg: ReaderConfig, file: Bytes, offset: nat): seq<Entry>
    requires offset <= |file|
    decreases |file| - offset
  {
    match NextBlock(p, cfg, file[offset..], 0, NOTHING)
    case Exhausted(_) => []
    case Found(at, b, _) => [Entry(offset + at, b.extent, b.records)] + ReaderFrom(p, cfg, file, offset + at + b.extent)
  }

  /** The entries a file of written blocks should have. */
  function ImageEntries(p: Primitives, cfg: WriterConfig, blocks: seq<seq<Record>>, offset: nat): seq<Entry>
    requires forall b :: b in blocks ==> Flushable(p, cfg.codec, b)
  {
    if blocks == [] then [] else
    var rest := ImageEntries(p, cfg, blocks[1..], offset + |BlockBytes(p, cfg, blocks[0])|);
    [Entry(offset, PrintedLen(p, cfg, blocks[0]), blocks[0])] + rest
  }

  predicate ZerosAt(file: Bytes, offset: nat, n: nat) {
    offset + n <= |file| && forall k :: offset <= k < offset + n ==> file[k] == 0
  }

  /** Padding does not change what the reader finds. */
  lemma {:induction false} ReaderQuiet(p: Primitives, cfg: ReaderConfig, file: Bytes, offset: nat, n: nat)
    requires ZerosAt(file, offset, n) && cfg.marker[0] != 0
    ensures ReaderFrom(p, cfg, file, offset) == ReaderFrom(p, cfg, file, offset + n)
  {
    hide NextBlock;
    QuietPrefix(p, cfg, file[offset..], n);
    TailOf(file, offset, n);
  }

  lemma {:induction false} ReaderHead(p: Primitives, cfg: ReaderConfig, file: Bytes, offset: nat)
    requires offset <= |file| && ParseBlock(p, cfg, file[offset..]).result.Ok?
    ensures var b := ParseBlock(p, cfg, file[offset..]).result.value;
            ReaderFrom(p, cfg, file, offset)
                == [Entry(offset, b.extent, b.records)] + ReaderFrom(p, cfg, file, offset + b.extent)
  {
    hide NextBlock, ParseBlock;
    NextIsHead(p, cfg, file[offset..]);
  }

  lemma {:induction false} ReaderEnd(p: Primitives, cfg: ReaderConfig, file: Bytes)
    ensures ReaderFrom(p, cfg, file, |file|) == []
  {
    assert file[|file|..] == [];
  }

  lemma {:induction false} ZerosIn(file: Bytes, at: nat, pad: Bytes, tail: Bytes)
    requires at <= |file| && file[at..] == pad + tail && forall b :: b in pad ==> b == 0
    ensures ZerosAt(file, at, |pad|)
  {
    forall k | at <= k < at + |pad| ensures file[k] == 0 {
      assert file[k] == file[at..][k - at] == pad[k - at];
      assert pad[k - at] in pad;
    }
  }

  /** What is known at the start of a written block: it parses there, and its padding and the later blocks follow. */
  lemma {:induction false} BlockAt(p: Primitives, cfg: WriterConfig, rcfg: ReaderConfig, file: Bytes, offset: nat,
                                   blocks: seq<seq<Record>>) returns (n: nat)
    requires Compatible(p, cfg, rcfg, blocks) && blocks != [] && cfg.marker == DEFAULT_SYNC_MARKER
    requires offset <= |file| && file[offset..] == FileImage(p, cfg, blocks)
    ensures Flushable(p, cfg.codec, blocks[0]) && Compatible(p, cfg, rcfg, blocks[1..])
    ensures var len := PrintedLen(p, cfg, blocks[0]);
            && ParseBlock(p, rcfg, file[offset..]).result == Ok(Block(blocks[0], len))
            && |BlockBytes(p, cfg, blocks[0])| == len + n && offset + len + n <= |file|
            && ZerosAt(file, offset + len, n)
            && file[offset + len + n..] == FileImage(p, cfg, blocks[1..])
  {
    hide *;
    ImageUnfold(p, cfg, rcfg, blocks, NO_STATS);
    var b := blocks[0];
    BlockUnfold(p, cfg, b, NO_STATS);
    var bs := Print(p, cfg.marker, RawOf(p, cfg.codec, b));
    var pad := Padding(cfg.alignment, |bs|);
    var tail := FileImage(p, cfg, blocks[1..]);
    PaddedSlices(bs, pad, tail);
    WrittenBlockParses(p, cfg, rcfg, b, pad + tail);
    n := |pad|;
    TailOf(file, offset, |bs|);
    TailOf(file, offset + |bs|, n);
    ZerosIn(file, offset + |bs|, pad, tail);
  }

  /** The reader finds exactly the blocks that were written, where they were written. */
  lemma {:induction false} ReaderFindsImage(p: Primitives, cfg: WriterConfig, rcfg: ReaderConfig, file: Bytes,
                                            offset: nat, blocks: seq<seq<Record>>)
    requires Compatible(p, cfg, rcfg, blocks) && cfg.marker == DEFAULT_SYNC_MARKER && rcfg.marker == DEFAULT_SYNC_MARKER
    requires offset <= |file| && file[offset..] == FileImage(p, cfg, blocks)
    ensures ReaderFrom(p, rcfg, file, offset) == ImageEntries(p, cfg, blocks, offset)
    decreases |blocks|
  {
    hide ReaderFrom, ParseBlock, FileImage, Flushable, Readable, PrintedLen, BlockBytes, Compatible, ZerosAt;
    if blocks == [] {
      EmptyImage(p, cfg);
      ReaderEnd(p, rcfg, file);
    } else {
      var n := BlockAt(p, cfg, rcfg, file, offset, blocks);
      var len := PrintedLen(p, cfg, blocks[0]);
      ReaderHead(p, rcfg, file, offset);
      ReaderQuiet(p, rcfg, file, offset + len, n);
      ReaderFindsImage(p, cfg, rcfg, file, offset + len + n, blocks[1..]);
    }
  }

  lemma {:induction false} EmptyImage(p: Primitives, cfg: WriterConfig)
    ensures FileImage(p, cfg, []) == []
  {}

  lemma {:induction false} IndexHead(p: Primitives, cfg: ReaderConfig, file: Bytes, offset: nat)
    requires offset < |file| && cfg.marker == DEFAULT_SYNC_MARKER && ParseBlock(p, cfg, file[offset..]).result.Ok?
    ensures var b := ParseBlock(p, cfg, file[offset..]).result.value;
            var more := IndexFrom(p, file, offset + b.extent);
            IndexFrom(p, file, offset)
                == if more.Err? then more else Ok([Entry(offset, b.extent, b.records)] + more.value)
  {
    hide IndexBlock, ParseBlock;
    IndexBlockAgrees(p, cfg, file[offset..]);
  }

  /** Zero bytes are resynchronised over, up to the next marker or the end. */
  lemma {:induction false} NoBlockOnZero(p: Primitives, b: Bytes)
    requires b != [] && b[0] == 0
    ensures IndexBlock(p, b) == Ok(None) && !MarkerAt(DEFAULT_SYNC_MARKER, b, 0)
  {
    hide IndexBody;
    if |b| >= 8 { assert b[..8][0] == b[0] && b[0..8][0] == b[0]; }
  }

  lemma {:induction false} MarkerAfter(rest: Bytes, n: nat)
    requires n <= |rest| && (forall k :: 0 <= k < n ==> rest[k] == 0)
    requires n == |rest| || MarkerAt(DEFAULT_SYNC_MARKER, rest[n..], 0)
    ensures Scan(DEFAULT_SYNC_MARKER, rest) == if n == |rest| then None else Some(n)
  {
    ScanSkips(DEFAULT_SYNC_MARKER, rest, 0, n);
    if n < |rest| {
      assert rest[n..][0..8] == rest[n..n + 8];
      ScanFindsHere(DEFAULT_SYNC_MARKER, rest, n);
    }
  }

  lemma {:induction false} IndexQuiet(p: Primitives, file: Bytes, offset: nat, n: nat)
    requires ZerosAt(file, offset, n)
    requires offset + n == |file| || MarkerAt(DEFAULT_SYNC_MARKER, file[offset + n..], 0)
    ensures IndexFrom(p, file, offset) == IndexFrom(p, file, offset + n)
  {
    hide IndexBlock, Scan, MarkerAt, IndexFrom;
    if n > 0 {
      var rest := file[offset..];
      NoBlockOnZero(p, rest);
      TailOf(file, offset, n);
      MarkerAfter(rest, n);
      ListedStays(p, file, offset);
      IndexEnd(p, file);
    }
  }

  /** On every file the writer produced, the index lists exactly the written blocks. */
  lemma {:induction false} IndexFindsImage(p: Primitives, cfg: WriterConfig, rcfg: ReaderConfig, file: Bytes,
                                           offset: nat, blocks: seq<seq<Record>>)
    requires Compatible(p, cfg, rcfg, blocks) && cfg.marker == DEFAULT_SYNC_MARKER && rcfg.marker == DEFAULT_SYNC_MARKER
    requires offset <= |file| && file[offset..] == FileImage(p, cfg, blocks)
    ensures IndexFrom(p, file, offset) == Ok(ImageEntries(p, cfg, blocks, offset))
    decreases |blocks|
  {
    hide ParseBlock, FileImage, Flushable, Readable, PrintedLen, BlockBytes, IndexFrom, Compatible, ZerosAt;
    if blocks == [] {
      EmptyImage(p, cfg);
      IndexEnd(p, file);
    } else {
      var n := BlockAt(p, cfg, rcfg, file, offset, blocks);
      var len := PrintedLen(p, cfg, blocks[0]);
      IndexHead(p, rcfg, file, offset);
      NextMarker(p, cfg, rcfg, file, offset + len + n, blocks[1..]);
      IndexQuiet(p, file, offset + len, n);
      IndexFindsImage(p, cfg, rcfg, file, offset + len + n, blocks[1..]);
    }
  }

  lemma {:induction false} IndexEnd(p: Primitives, file: Bytes)
    ensures IndexFrom(p, file, |file|) == Ok([])
  {}

  lemma {:induction false} NextMarker(p: Primitives, cfg: WriterConfig, rcfg: ReaderConfig, file: Bytes, offset: nat,
                                      blocks: seq<seq<Record>>)
    requires Compatible(p, cfg, rcfg, blocks) && cfg.marker == DEFAULT_SYNC_MARKER && rcfg.marker == DEFAULT_SYNC_MARKER
    requires offset <= |file| && file[offset..] == FileImage(p, cfg, blocks)
    ensures offset == |file| || MarkerAt(DEFAULT_SYNC_MARKER, file[offset..], 0)
  {
    hide ParseBlock, FileImage, Flushable, Readable, PrintedLen, BlockBytes;
    if blocks == [] {
      EmptyImage(p, cfg);
    } else {
      var n := BlockAt(p, cfg, rcfg, file, offset, blocks);
      assert file[offset..][0..8] == file[offset..][..8];
    }
  }

  /** On every file the writer produced, index and reader list the same blocks with the same records. */
  lemma {:induction false} IndexMatchesReader(p: Primitives, cfg: WriterConfig, rcfg: ReaderConfig,
                                              blocks: seq<seq<Record>>)
    requires Compatible(p, cfg, rcfg, blocks) && cfg.marker == DEFAULT_SYNC_MARKER && rcfg.marker == DEFAULT_SYNC_MARKER
    ensures var file := FileImage(p, cfg, blocks);
            IndexFrom(p, file, 0) == Ok(ReaderFrom(p, rcfg, file, 0))
  {
    hide *;
    ImageUnfold(p, cfg, rcfg, blocks, NO_STATS);
    var file := FileImage(p, cfg, blocks);
    assert file[0..] == file;
    IndexFindsImage(p, cfg, rcfg, file, 0, blocks);
    ReaderFindsImage(p, cfg, rcfg, file, 0, blocks);
  }

  // ----- the builder's loops

  /** The search in chunks: a read may return fewer bytes than asked for, and the match carries over. */
  method FindNextSyncMarker(file: Bytes, start: nat) returns (r: Option<nat>)
    requires start <= |file|
    ensures r == Shift(Scan(DEFAULT_SYNC_MARKER, file[start..]), start)
  {
    hide ScanFrom;
    var matched, scanPos := 0, start;
    ghost var rest := file[start..];
    while scanPos < |file|
      invariant start <= scanPos <= |file| && 0 <= matched < 8 && matched <= scanPos - start
      invariant Scan(DEFAULT_SYNC_MARKER, rest) == ScanFrom(DEFAULT_SYNC_MARKER, rest, scanPos - start, matched)
    {
      var space := Min(4096, |file| - scanPos);
      var n :| 1 <= n <= space;
      for idx := 0 to n
        invariant 0 <= matched < 8 && matched <= scanPos + idx - start
        invariant Scan(DEFAULT_SYNC_MARKER, rest) == ScanFrom(DEFAULT_SYNC_MARKER, rest, scanPos + idx - start, matched)
      {
        var b := file[scanPos + idx];
        assert b == rest[scanPos + idx - start];
        ScanStep(DEFAULT_SYNC_MARKER, rest, scanPos + idx - start, matched);
        if b == DEFAULT_SYNC_MARKER[matched] {
          matched := matched + 1;
          if matched == 8 { return Some(scanPos + idx + 1 - 8); }
        } else {
          matched := if b == DEFAULT_SYNC_MARKER[0] then 1 else 0;
        }
      }
      scanPos := scanPos + n;
    }
    ScanEnds(DEFAULT_SYNC_MARKER, rest, matched);
    r := None;
  }

  datatype IndexedBlock = IndexedBlock(offset: nat, len: nat, summary: Summary)

  datatype DatasetIndex = DatasetIndex(summary: Summary, blocks: seq<IndexedBlock>)

  /** Parses a payload to its end, summarising each record. */
  method SummarisePayload(o: Overflow, d: Decoder, payload: Bytes, base: BlockHeaderExt)
    returns (r: Result<Summary, Fault>)
    ensures var rs := IndexRecords(o, payload, 0, base);
            if rs.Err? then r == Err(rs.error) else r.Ok? && Describes(d, r.value, rs.value)
  {
    hide IndexRecord, Describes;
    var builder := new SummaryBuilder(d);
    var cursor: nat := 0;
    assert forall x: seq<Record> :: builder.seen + x == x;
    while cursor < |payload|
      invariant cursor <= |payload| && fresh(builder) && builder.Valid() && builder.decode == d
      invariant IndexRecords(o, payload, 0, base) == Joined(builder.seen, IndexRecords(o, payload, cursor, base))
    {
      var one := IndexRecord(o, payload, cursor, base);
      if one.Err? { return Err(one.error); }
      ghost var more := IndexRecords(o, payload, one.value.1, base);
      assert more.Ok? ==> builder.seen + ([one.value.0] + more.value) == builder.seen + [one.value.0] + more.value;
      builder.Push(one.value.0);
      cursor := one.value.1;
    }
    assert builder.seen + [] == builder.seen;
    r := Ok(builder.summary);
  }

  function Joined(done: seq<Record>, more: Result<seq<Record>, Fault>): Result<seq<Record>, Fault> {
    if more.Err? then more else Ok(done + more.value)
  }

  method ReadBlockSummary(p: Primitives, d: Decoder, file: Bytes, offset: nat)
    returns (r: Result<Option<IndexedBlock>, Fault>)
    requires offset <= |file|
    ensures match IndexBlock(p, file[offset..])
            case Err(e) => r == Err(e)
            case Ok(None) => r == Ok(None)
            case Ok(Some(b)) => r.Ok? && r.value.Some? && r.value.value.offset == offset && r.value.value.len == b.1
                                && Describes(d, r.value.value.summary, b.0)
  {
    hide IndexRecords, DecodeHeader, DecodeExt, Describes;
    var b := file[offset..];
    if |b| < 8 { return Ok(None); }
    if b[..8] != DEFAULT_SYNC_MARKER { return Ok(None); }
    if |b| < 8 + FIXED_LEN { return Err(Failed); }
    var h := DecodeHeader(b[8..8 + FIXED_LEN]);
    if h.Err? { return Err(Failed); }
    var body := 8 + Max(h.value.headerLen, FIXED_LEN);
    if |b| < body { return Err(Failed); }
    if body < 8 + TOTAL_LEN { return Err(Aborted); }
    var end := body + h.value.compressedLen;
    if |b| < end + 4 { return Err(Failed); }
    var payload := p.Decompress(h.value.codec, b[body..end], h.value.uncompressedLen);
    if payload.Err? { return Err(Failed); }
    var summary := SummarisePayload(p.overflow, d, payload.value, DecodeExt(b[8 + FIXED_LEN..body]));
    if summary.Err? { return Err(summary.error); }
    r := Ok(Some(IndexedBlock(offset, end + 4, summary.value)));
  }

  function RecordsIn(es: seq<Entry>): seq<Record> { if es == [] then [] else es[0].records + RecordsIn(es[1..]) }

  lemma {:induction false} RecordsInAppend(es: seq<Entry>, e: Entry)
    ensures RecordsIn(es + [e]) == RecordsIn(es) + e.records
  {
    if es == [] {
      assert es + [e] == [e] && [e][1..] == [];
      assert RecordsIn([e]) == e.records + RecordsIn([]);
    } else {
      RecordsInAppend(es[1..], e);
      assert (es + [e])[1..] == es[1..] + [e];
      assert es[0].records + (RecordsIn(es[1..]) + e.records) == es[0].records + RecordsIn(es[1..]) + e.records;
    }
  }

  /** The index describes these entries, block by block and as a whole. */
  ghost predicate Covers(d: Decoder, index: DatasetIndex, es: seq<Entry>) {
    && |index.blocks| == |es|
    && (forall i :: 0 <= i < |es| ==>
          && index.blocks[i].offset == es[i].offset && index.blocks[i].len == es[i].len
          && Describes(d, index.blocks[i].summary, es[i].records))
    && Describes(d, index.summary, RecordsIn(es))
  }

  function Listed(done: seq<Entry>, more: Result<seq<Entry>, Fault>): Result<seq<Entry>, Fault> {
    if more.Err? then more else Ok(done + more.value)
  }

  lemma {:induction false} CoversOneMore(d: Decoder, index: DatasetIndex, es: seq<Entry>, b: IndexedBlock, e: Entry,
                                         whole: Summary)
    requires Covers(d, index, es) && b.offset == e.offset && b.len == e.len && Describes(d, b.summary, e.records)
    requires Describes(d, whole, RecordsIn(es) + e.records)
    ensures RecordsIn(es + [e]) == RecordsIn(es) + e.records
    ensures Covers(d, DatasetIndex(whole, index.blocks + [b]), es + [e])
  {
    hide Describes;
    RecordsInAppend(es, e);
  }

  lemma {:induction false} ListedOneMore(p: Primitives, file: Bytes, offset: nat, es: seq<Entry>, e: Entry)
    requires offset < |file| && e.offset == offset && IndexBlock(p, file[offset..]) == Ok(Some((e.records, e.len)))
    ensures offset + e.len <= |file|
    ensures Listed(es, IndexFrom(p, file, offset)) == Listed(es + [e], IndexFrom(p, file, offset + e.len))
  {
    hide IndexBlock, Scan, MarkerAt;
    var more := IndexFrom(p, file, offset + e.len);
    assert more.Ok? ==> es + ([e] + more.value) == es + [e] + more.value;
  }

  lemma {:induction false} ListedStays(p: Primitives, file: Bytes, offset: nat)
    requires offset < |file| && (IndexBlock(p, file[offset..]) == Ok(None) || IndexBlock(p, file[offset..]).Err?)
    ensures match IndexBlock(p, file[offset..])
            case Err(e) => IndexFrom(p, file, offset) == Err(e)
            case Ok(_) => match Shift(Scan(DEFAULT_SYNC_MARKER, file[offset..]), offset)
                          case None => IndexFrom(p, file, offset) == Ok([])
                          case Some(next) => offset < next <= |file|
                                             && IndexFrom(p, file, offset) == IndexFrom(p, file, next)
  {
    hide IndexBlock, Scan, MarkerAt;
    if IndexBlock(p, file[offset..]).Ok? { Resync(file[offset..]); }
  }

  lemma {:induction false} ListedEnds(es: seq<Entry>, all: Result<seq<Entry>, Fault>, more: Result<seq<Entry>, Fault>)
    requires all == Listed(es, more)
    ensures more.Err? ==> all == more
    ensures more == Ok([]) ==> all == Ok(es)
  {
    assert es + [] == es;
  }

  lemma {:induction false} ListedStarts(all: Result<seq<Entry>, Fault>)
    ensures Listed([], all) == all
  {
    if all.Ok? { assert [] + all.value == all.value; }
  }

  lemma {:induction false} CoversNothing(d: Decoder, s: Summary)
    requires Describes(d, s, [])
    ensures Covers(d, DatasetIndex(s, []), []) && RecordsIn([]) == []
  {}

  /** The building loop: each entry is summarised, and the file summary is merged from the blocks; a file without
      any block has no index. */
  method Build(p: Primitives, d: Decoder, file: Bytes) returns (r: Result<DatasetIndex, Fault>)
    ensures match IndexFrom(p, file, 0)
            case Err(e) => r == Err(e)
            case Ok(es) => if es == [] then r == Err(Failed) else r.Ok? && Covers(d, r.value, es)
  {
    hide IndexBlock, Describes, Scan, MarkerAt, IndexFrom, Listed, Covers, RecordsIn;
    var whole := new SummaryBuilder(d);
    var blocks: seq<IndexedBlock>, offset: nat := [], 0;
    ghost var es: seq<Entry> := [];
    CoversNothing(d, whole.summary);
    ListedStarts(IndexFrom(p, file, 0));
    IndexEnd(p, file);
    while offset < |file|
      invariant offset <= |file| && fresh(whole) && whole.Valid() && whole.decode == d && whole.seen == RecordsIn(es)
      invariant |blocks| == |es| && Covers(d, DatasetIndex(whole.summary, blocks), es)
      invariant IndexFrom(p, file, 0) == Listed(es, IndexFrom(p, file, offset))
      decreases |file| - offset
    {
      ListedEnds(es, IndexFrom(p, file, 0), IndexFrom(p, file, offset));
      var b := ReadBlockSummary(p, d, file, offset);
      if b.Err? {
        ListedStays(p, file, offset);
        return Err(b.error);
      }
      if b.value.Some? {
        ghost var found := IndexBlock(p, file[offset..]).value.value;
        ghost var e := Entry(offset, found.1, found.0);
        ghost var before := DatasetIndex(whole.summary, blocks);
        whole.Merge(b.value.value.summary, found.0);
        CoversOneMore(d, before, es, b.value.value, e, whole.summary);
        ListedOneMore(p, file, offset, es, e);
        es := es + [e];
        blocks := blocks + [b.value.value];
        offset := offset + b.value.value.len;
      } else {
        ListedStays(p, file, offset);
        var next := FindNextSyncMarker(file, offset);
        if next.None? { break; }
        offset := next.value;
      }
    }
    ListedEnds(es, IndexFrom(p, file, 0), IndexFrom(p, file, offset));
    if blocks == [] { return Err(Failed); }
    r := Ok(DatasetIndex(whole.summary, blocks));
  }
}
