/** The buffering writer: packs records into blocks and prints each full block with its padding. */
module BlockWriter {
  import opened Prelude
  import opened Encoding
  import opened BlockFormat
  import opened BlockParser

  datatype WriterConfig = WriterConfig(target: nat, codec: Codec, marker: Marker, alignment: nat)

  /** The deltas of a block are relative to its first record. */
  function BaseOf(rs: seq<Record>): BlockHeaderExt
    requires rs != []
  {
    BlockHeaderExt(rs[0].seqno, rs[0].ts)
  }

  /** Records that can share a block. */
  predicate Packable(rs: seq<Record>) {
    rs != [] && forall r :: r in rs ==> Fits(BaseOf(rs), r)
  }

  function PayloadOf(rs: seq<Record>): Bytes
    requires Packable(rs)
  {
    EncodeRecords(BaseOf(rs), rs)
  }

  /** A flush of these records succeeds: compression works and all lengths fit their 32-bit fields. */
  predicate Flushable(p: Primitives, codec: Codec, rs: seq<Record>) {
    && Packable(rs) && |rs| < 0x1_0000_0000
    && |PayloadOf(rs)| < 0x1_0000_0000
    && p.Compress(codec, PayloadOf(rs)).Some?
    && |p.Compress(codec, PayloadOf(rs)).value| < 0x1_0000_0000
  }

  function RawOf(p: Primitives, codec: Codec, rs: seq<Record>): (rb: RawBlock)
    requires Flushable(p, codec, rs)
    ensures Printable(rb)
  {
    RawBlock(codec, 0, 0, |PayloadOf(rs)|, |rs|, BaseOf(rs), [], p.Compress(codec, PayloadOf(rs)).value)
  }

  function Padding(alignment: nat, len: nat): (bs: Bytes)
    ensures forall b :: b in bs ==> b == 0
    ensures alignment == 0 ==> bs == []
    ensures alignment > 0 ==> (len + |bs|) % alignment == 0 && |bs| < alignment
  {
    if alignment > 0 && len % alignment > 0 then
      PadsOut(len, alignment);
      seq(alignment - len % alignment, _ => 0)
    else []
  }

  lemma {:induction false} PadsOut(len: nat, a: nat)
    requires a > 0
    ensures (len + (a - len % a)) % a == 0
  {
    var q, r := len / a, len % a;
    assert len + (a - r) == (q + 1) * a;
    MultipleOf(q + 1, a);
  }

  lemma {:induction false} MultipleOf(q: nat, a: nat)
    requires a > 0
    ensures (q * a) % a == 0
  {
    var d := q - (q * a) / a;
    assert d * a == (q * a) % a;
    assert d > 0 ==> d * a >= a;
    assert d < 0 ==> d * a <= 0 - a;
  }

  /** The bytes one flush writes. */
  function BlockBytes(p: Primitives, cfg: WriterConfig, rs: seq<Record>): Bytes
    requires Flushable(p, cfg.codec, rs)
  {
    var bs := Print(p, cfg.marker, RawOf(p, cfg.codec, rs));
    bs + Padding(cfg.alignment, |bs|)
  }

  /** The bytes of a whole file of blocks. */
  function FileImage(p: Primitives, cfg: WriterConfig, blocks: seq<seq<Record>>): Bytes
    requires forall b :: b in blocks ==> Flushable(p, cfg.codec, b)
  {
    if blocks == [] then [] else BlockBytes(p, cfg, blocks[0]) + FileImage(p, cfg, blocks[1..])
  }

  lemma {:induction false} FileImageAppend(p: Primitives, cfg: WriterConfig, blocks: seq<seq<Record>>, b: seq<Record>)
    requires Flushable(p, cfg.codec, b) && forall x :: x in blocks ==> Flushable(p, cfg.codec, x)
    ensures FileImage(p, cfg, blocks + [b]) == FileImage(p, cfg, blocks) + BlockBytes(p, cfg, b)
  {
    hide BlockBytes, Flushable;
    if blocks == [] {
      assert blocks + [b] == [b] && [b][1..] == [];
      assert FileImage(p, cfg, [b]) == BlockBytes(p, cfg, b) + FileImage(p, cfg, []);
    } else {
      FileImageAppend(p, cfg, blocks[1..], b);
      assert (blocks + [b])[1..] == blocks[1..] + [b];
    }
  }

  /** A block never outgrows the target size unless it holds a single record. */
  predicate Sized(target: nat, rs: seq<Record>) {
    |rs| <= 1 || (Packable(rs) && |PayloadOf(rs)| <= target)
  }

  lemma {:induction false} PackMore(rs: seq<Record>, r: Record)
    requires Packable(rs) && Fits(BaseOf(rs), r)
    ensures Packable(rs + [r]) && BaseOf(rs + [r]) == BaseOf(rs)
    ensures PayloadOf(rs + [r]) == PayloadOf(rs) + EncodeRecord(BaseOf(rs), r)
  {
    assert (rs + [r])[0] == rs[0];
    EncodeRecordsAppend(BaseOf(rs), rs, r);
  }

  lemma {:induction false} PackOne(r: Record)
    requires |r.payload| < TWO_64
    ensures Packable([r]) && PayloadOf([r]) == EncodeRecord(BaseOf([r]), r)
  {
    assert [r][1..] == [];
    assert EncodeRecords(BaseOf([r]), [r]) == EncodeRecord(BaseOf([r]), r) + EncodeRecords(BaseOf([r]), []);
  }

  // ----- when a block is closed

  /** No records, or a payload below the target. */
  predicate Below(target: nat, rs: seq<Record>) { rs == [] || (Packable(rs) && |PayloadOf(rs)| < target) }

  /** There was reason to close the block: it reached the target, or what follows starts with a record it has no room
      for. */
  predicate Filled(target: nat, b: seq<Record>, after: seq<Record>) {
    && Packable(b)
    && (|PayloadOf(b)| >= target
        || (after != [] && Fits(BaseOf(b), after[0])
            && |PayloadOf(b)| + |EncodeRecord(BaseOf(b), after[0])| > target))
  }

  /** What comes after block `i`: the next block, or the records still held. */
  function Following(blocks: seq<seq<Record>>, held: seq<Record>, i: nat): seq<Record> {
    if i + 1 < |blocks| then blocks[i + 1] else held
  }

  /** Every block was filled. */
  predicate Tight(target: nat, blocks: seq<seq<Record>>, held: seq<Record>) {
    forall i :: 0 <= i < |blocks| ==> Filled(target, blocks[i], Following(blocks, held, i))
  }

  /** Every block but the last was filled. */
  predicate Packed(target: nat, blocks: seq<seq<Record>>) {
    forall i :: 0 <= i < |blocks| - 1 ==> Filled(target, blocks[i], Following(blocks, [], i))
  }

  lemma {:induction false} TightIsPacked(target: nat, blocks: seq<seq<Record>>, held: seq<Record>)
    requires Tight(target, blocks, held)
    ensures Packed(target, blocks + [held]) && Packed(target, blocks)
  {
    hide Filled;
    var more := blocks + [held];
    forall i | 0 <= i < |blocks| ensures Filled(target, more[i], Following(more, [], i)) {
      assert Following(more, [], i) == Following(blocks, held, i);
    }
    forall i | 0 <= i < |blocks| - 1 ensures Filled(target, blocks[i], Following(blocks, [], i)) {
      assert Following(blocks, [], i) == Following(blocks, held, i);
    }
  }

  lemma {:induction false} TightStart(target: nat)
    ensures Tight(target, [], [])
  {}

  lemma {:induction false} FilledMore(target: nat, b: seq<Record>, after: seq<Record>, r: Record)
    requires Filled(target, b, after)
    ensures Filled(target, b, after + [r])
  {
    hide Packable, PayloadOf, EncodeRecord;
    assert after != [] ==> (after + [r])[0] == after[0];
  }

  lemma {:induction false} TightMore(target: nat, blocks: seq<seq<Record>>, held: seq<Record>, r: Record)
    requires Tight(target, blocks, held)
    ensures Tight(target, blocks, held + [r])
  {
    hide Filled;
    forall i | 0 <= i < |blocks| ensures Filled(target, blocks[i], Following(blocks, held + [r], i)) {
      FilledMore(target, blocks[i], Following(blocks, held, i), r);
    }
  }

  lemma {:induction false} TightClose(target: nat, blocks: seq<seq<Record>>, held: seq<Record>, after: seq<Record>)
    requires Tight(target, blocks, held) && Filled(target, held, after)
    ensures Tight(target, blocks + [held], after)
  {
    hide Filled;
    var more := blocks + [held];
    forall i | 0 <= i < |more| ensures Filled(target, more[i], Following(more, after, i)) {
      if i < |blocks| { assert Following(more, after, i) == Following(blocks, held, i); }
    }
  }

  lemma {:induction false} TightPush(target: nat, was: seq<seq<Record>>, held: seq<Record>, r: Record,
                                     blocks: seq<seq<Record>>, buffered: seq<Record>)
    requires Tight(target, was, held)
    requires if blocks == was then buffered == held + [r]
             else blocks == was + [held] && buffered == [r] && Filled(target, held, [r])
    ensures Tight(target, blocks, buffered)
  {
    hide Filled, Tight;
    if blocks == was { TightMore(target, was, held, r); } else { TightClose(target, was, held, [r]); }
  }

  /** A record the held ones have no room for. */
  lemma {:induction false} NoRoom(target: nat, held: seq<Record>, r: Record)
    requires Packable(held) && Fits(BaseOf(held), r)
    requires |PayloadOf(held)| + |EncodeRecord(BaseOf(held), r)| > target
    ensures Filled(target, held, [r]) && !Below(target, held + [r])
  {
    hide EncodeRecord, EncodeRecords;
    PackMore(held, r);
  }

  lemma {:induction false} NothingBelow(target: nat)
    ensures Below(target, [])
  {}

  lemma {:induction false} Reached(target: nat, held: seq<Record>, after: seq<Record>)
    requires Packable(held)
    ensures if |PayloadOf(held)| >= target then Filled(target, held, after) && !Below(target, held)
            else Below(target, held)
  {
    hide PayloadOf, EncodeRecord;
  }

  class LogjetWriter {
    const prims: Primitives
    const config: WriterConfig
    /** What the underlying stream held before this writer. */
    ghost const initial: Bytes
    var out: Bytes
    var payloadBuf: Bytes
    var baseSeq: Option<u64>
    var baseTs: Option<u64>
    var recordCount: u32
    /** The records of each flushed block, and those still in the buffer. */
    ghost var blocks: seq<seq<Record>>
    ghost var buffered: seq<Record>

    ghost predicate Valid()
      reads this
    {
      && (forall b :: b in blocks ==> Flushable(prims, config.codec, b) && Sized(config.target, b))
      && out == initial + FileImage(prims, config, blocks)
      && BufferValid()
    }

    ghost predicate BufferValid()
      reads this
    {
      && recordCount == |buffered|
      && (buffered == [] ==> payloadBuf == [] && baseSeq.None? && baseTs.None?)
      && (buffered != [] ==>
            && Packable(buffered)
            && baseSeq == Some(BaseOf(buffered).baseSeq) && baseTs == Some(BaseOf(buffered).baseTs)
            && payloadBuf == PayloadOf(buffered) && payloadBuf != [])
      && Sized(config.target, buffered)
    }

    /** Every record taken so far, in order. */
    ghost function Accepted(): seq<Record>
      reads this
    {
      Flatten(blocks) + buffered
    }

    constructor (prims: Primitives, config: WriterConfig, inner: Bytes)
      ensures Valid() && blocks == [] && buffered == [] && out == inner
      ensures this.prims == prims && this.config == config && this.initial == inner
    {
      this.prims := prims;
      this.config := config;
      initial := inner;
      out := inner;
      payloadBuf := [];
      baseSeq := None;
      baseTs := None;
      recordCount := 0;
      blocks := [];
      buffered := [];
    }

    /** Adds one record; a record behind its block's first one is refused and leaves no trace. */
    method Push(kind: RecordType, seqno: u64, ts: u64, payload: Bytes) returns (r: Result<(), Error>)
      requires Valid() && |payload| < TWO_64
      modifies this
      ensures r == Err(OutOfOrder) <==>
                old(buffered) != [] && (seqno < BaseOf(old(buffered)).baseSeq || ts < BaseOf(old(buffered)).baseTs)
      ensures r == Err(OutOfOrder) ==> unchanged(this)
      ensures r == Err(NumericOverflow) ==> old(recordCount) == 0xFFFF_FFFF
      ensures r != Err(NumericOverflow) ==> Valid()
      ensures r.Ok? ==> Accepted() == old(Accepted()) + [Record(kind, seqno, ts, payload)]
      ensures r.Err? && r.error != NumericOverflow ==>
                Accepted() == old(Accepted()) || Accepted() == old(Accepted()) + [Record(kind, seqno, ts, payload)]
      ensures old(blocks) <= blocks
      ensures buffered != [] ==>
                buffered[0] == Record(kind, seqno, ts, payload)
                    || (old(buffered) != [] && buffered[0] == old(buffered)[0])
      ensures r.Ok? ==> Below(config.target, buffered)
      ensures r.Ok? && Below(config.target, old(buffered) + [Record(kind, seqno, ts, payload)]) ==>
                && blocks == old(blocks) && out == old(out)
                && buffered == old(buffered) + [Record(kind, seqno, ts, payload)]
      ensures r != Err(NumericOverflow) && old(Tight(config.target, blocks, buffered)) ==>
                Tight(config.target, blocks, buffered)
      ensures r.Err? ==> r.error in {OutOfOrder, NumericOverflow, CodecFailure, LengthTooLarge}
      ensures r.Err? && r.error in {CodecFailure, LengthTooLarge} ==>
                buffered != [] && !Flushable(prims, config.codec, buffered)
    {
      hide EncodeRecords, Varint, Flatten, FileImage, Flushable, EncodeRecord, Sized, PayloadOf, Packable, BlockBytes,
        Tight, Filled, Below;
      ghost var rec := Record(kind, seqno, ts, payload);
      var base := BlockHeaderExt(seqno, ts);
      if baseSeq.Some? && baseTs.Some? {
        base := BlockHeaderExt(baseSeq.value, baseTs.value);
      }
      if seqno < base.baseSeq || ts < base.baseTs { return Err(OutOfOrder); }
      var encoded := EncodeOne(base, kind, seqno, ts, payload);

      if payloadBuf != [] && |payloadBuf| + |encoded| > config.target {
        NoRoom(config.target, buffered, rec);
        var flushed := FlushBlock();
        if flushed.Err? { return Err(flushed.error); }
        assert Accepted() == old(Accepted()) + [];
        base := BlockHeaderExt(seqno, ts);
        encoded := EncodeOne(base, kind, seqno, ts, payload);
      }
      if recordCount == 0xFFFF_FFFF { return Err(NumericOverflow); }
      assert Flatten(blocks) + (buffered + [rec]) == Accepted() + [rec];
      assert [] + [rec] == [rec];
      Extend(base, rec, encoded);
      ghost var was, held, wasTight := old(blocks), old(buffered), old(Tight(config.target, blocks, buffered));
      assert if blocks == was then buffered == held + [rec]
             else blocks == was + [held] && buffered == [rec] && Filled(config.target, held, [rec]);
      if wasTight { TightPush(config.target, was, held, rec, blocks, buffered); }
      r := CloseFull();
    }

    /** The end of `Push`: a block that has reached the target is flushed. */
    method CloseFull() returns (r: Result<(), Error>)
      requires Valid() && buffered != []
      modifies this
      ensures Valid() && Accepted() == old(Accepted())
      ensures r.Err? ==> unchanged(this) && r.error in {CodecFailure, LengthTooLarge}
                         && !Flushable(prims, config.codec, buffered)
      ensures r.Ok? ==> Below(config.target, buffered)
      ensures Below(config.target, old(buffered)) ==> unchanged(this)
      ensures r.Ok? && !Below(config.target, old(buffered)) ==>
                blocks == old(blocks) + [old(buffered)] && buffered == []
      ensures old(Tight(config.target, blocks, buffered)) ==> Tight(config.target, blocks, buffered)
    {
      hide EncodeRecords, Flatten, FileImage, Flushable, Sized, PayloadOf, BlockBytes, Tight, Filled, Below;
      Reached(config.target, buffered, []);
      NothingBelow(config.target);
      if |payloadBuf| >= config.target {
        if Tight(config.target, blocks, buffered) { TightClose(config.target, blocks, buffered, []); }
        var flushed := FlushBlock();
        if flushed.Err? { return Err(flushed.error); }
      }
      r := Ok(());
    }

    /** Appends an encoded record to the buffer. */
    method Extend(base: BlockHeaderExt, ghost rec: Record, encoded: Bytes)
      requires BufferValid() && recordCount < 0xFFFF_FFFF
      requires Fits(base, rec) && encoded == EncodeRecord(base, rec)
      requires base == if buffered == [] then BaseOf([rec]) else BaseOf(buffered)
      requires buffered != [] ==> |payloadBuf| + |encoded| <= config.target
      modifies this`payloadBuf, this`baseSeq, this`baseTs, this`recordCount, this`buffered
      ensures BufferValid() && buffered == old(buffered) + [rec]
    {
      hide EncodeRecords, EncodeRecord;
      if buffered == [] {
        PackOne(rec);
        assert buffered + [rec] == [rec] && payloadBuf + encoded == encoded;
      } else {
        PackMore(buffered, rec);
      }
      buffered := buffered + [rec];
      baseSeq := Some(base.baseSeq);
      baseTs := Some(base.baseTs);
      payloadBuf := payloadBuf + encoded;
      recordCount := recordCount + 1;
    }

    /** The encoding of one record, built field by field. */
    method EncodeOne(base: BlockHeaderExt, kind: RecordType, seqno: u64, ts: u64, payload: Bytes) returns (bs: Bytes)
      requires Fits(base, Record(kind, seqno, ts, payload))
      ensures bs == EncodeRecord(base, Record(kind, seqno, ts, payload))
    {
      bs := [TypeCode(kind)];
      bs := EncodeVarint(seqno - base.baseSeq, bs);
      bs := EncodeVarint(ts - base.baseTs, bs);
      bs := EncodeVarint(|payload|, bs);
      bs := bs + payload;
    }

    /** Prints the buffered records as one block; nothing changes if that cannot be done. */
    method FlushBlock() returns (r: Result<(), Error>)
      requires Valid()
      modifies this
      ensures Valid()
      ensures r.Ok? <==> old(buffered) == [] || Flushable(prims, config.codec, old(buffered))
      ensures r.Err? ==> unchanged(this) && r.error in {CodecFailure, LengthTooLarge}
      ensures r.Ok? ==>
                buffered == [] && blocks == if old(buffered) == [] then old(blocks) else old(blocks) + [old(buffered)]
      ensures Accepted() == old(Accepted())
      ensures r.Ok? && old(buffered) != [] ==> out == old(out) + BlockBytes(prims, config, old(buffered))
    {
      hide EncodeRecords, EncodeWithoutCrc, FileImage, Packable, Flatten, LittleEndian, Padding, EncodeExt;
      if payloadBuf == [] { return Ok(()); }
      var compressed := prims.Compress(config.codec, payloadBuf);
      if compressed.None? { return Err(CodecFailure); }
      if |payloadBuf| >= 0x1_0000_0000 { return Err(LengthTooLarge); }
      if |compressed.value| >= 0x1_0000_0000 { return Err(LengthTooLarge); }

      var ext := EncodeExt(BlockHeaderExt(baseSeq.value, baseTs.value));
      var header := BlockHeader(FORMAT_VERSION, config.codec, 0, TOTAL_LEN, 0, |payloadBuf|, |compressed.value|,
                                recordCount, 0);
      header := header.(headerCrc := prims.crc32c(EncodeWithoutCrc(header) + ext));
      var covered := EncodeHeader(header) + ext + compressed.value;
      var blockBuf := config.marker + covered;
      blockBuf := blockBuf + LittleEndian(4, prims.crc32c(blockBuf[|config.marker|..]));
      assert (config.marker + covered)[|config.marker|..] == covered;

      ghost var raw := RawOf(prims, config.codec, buffered);
      assert ext + raw.extra == ext;
      assert blockBuf == Print(prims, config.marker, raw);
      assert blockBuf + Padding(config.alignment, |blockBuf|) == BlockBytes(prims, config, buffered);
      FileImageAppend(prims, config, blocks, buffered);
      FlattenAppend(blocks, buffered);
      assert out + BlockBytes(prims, config, buffered)
          == initial + (FileImage(prims, config, blocks) + BlockBytes(prims, config, buffered));

      out := out + blockBuf + Padding(config.alignment, |blockBuf|);
      blocks := blocks + [buffered];
      buffered := [];
      payloadBuf := [];
      baseSeq := None;
      baseTs := None;
      recordCount := 0;
      r := Ok(());
    }
  }
}
