/** Writer and reader together: what was accepted is what is read, also around damage. */
module RoundTrip {
  import opened Prelude
  import opened Encoding
  import opened BlockFormat
  import opened BlockParser
  import opened BlockReader
  import opened BlockWriter
  import opened SyncMarker

  /** Padding can never look like the start of a marker. */
  predicate QuietPadding(cfg: WriterConfig) { cfg.alignment == 0 || cfg.marker[0] != 0 }

  /** The block is within the reader's size limits. */
  predicate Readable(p: Primitives, cfg: WriterConfig, rcfg: ReaderConfig, rs: seq<Record>)
    requires Flushable(p, cfg.codec, rs)
  {
    |PayloadOf(rs)| <= rcfg.maxUncompressed && |p.Compress(cfg.codec, PayloadOf(rs)).value| <= rcfg.maxCompressed
  }

  /** Written by one and read by the other: same marker, and every block within limits. */
  ghost predicate Compatible(p: Primitives, cfg: WriterConfig, rcfg: ReaderConfig, blocks: seq<seq<Record>>) {
    && p.Lossless() && rcfg.marker == cfg.marker && QuietPadding(cfg)
    && forall b :: b in blocks ==> Flushable(p, cfg.codec, b) && Readable(p, cfg, rcfg, b)
  }

  function PrintedLen(p: Primitives, cfg: WriterConfig, rs: seq<Record>): nat
    requires Flushable(p, cfg.codec, rs)
  {
    |Print(p, cfg.marker, RawOf(p, cfg.codec, rs))|
  }

  /** A written block is read back, whatever follows it, exactly when it is within the reader's limits. */
  lemma {:induction false} WrittenBlockParses(p: Primitives, cfg: WriterConfig, rcfg: ReaderConfig, rs: seq<Record>,
                                              rest: Bytes)
    requires p.Lossless() && rcfg.marker == cfg.marker && Flushable(p, cfg.codec, rs)
    ensures var o := ParseBlock(p, rcfg, Print(p, cfg.marker, RawOf(p, cfg.codec, rs)) + rest);
            && (o.result.Ok? <==> Readable(p, cfg, rcfg, rs))
            && (o.result.Ok? ==>
                  o == Outcome(Ok(Block(rs, PrintedLen(p, cfg, rs))), |p.Compress(cfg.codec, PayloadOf(rs)).value|,
                               |PayloadOf(rs)|))
  {
    hide ParseBlock, Print, HeaderOf, EncodeRecords, ParseRecords;
    var rb := RawOf(p, cfg.codec, rs);
    ParsePrinted(p, rcfg, rb, rest);
    DecompressRestores(p, cfg.codec, PayloadOf(rs));
    RecordsRoundTrip(BaseOf(rs), rs);
    HeaderKeeps(p, rb);
  }

  lemma {:induction false} HeaderKeeps(p: Primitives, rb: RawBlock)
    requires Printable(rb)
    ensures var h := HeaderOf(p, rb);
            h.codec == rb.codec && h.uncompressedLen == rb.uncompressedLen && h.recordCount == rb.recordCount
  {}

  // ----- the search only looks ahead

  function Shift(r: Option<nat>, n: nat): Option<nat> { if r.None? then None else Some(r.value + n) }

  lemma {:induction false} ScanShift(marker: Bytes, data: Bytes, n: nat, i: nat, m: nat)
    requires m < |marker| && m <= i && n + i <= |data|
    ensures ScanFrom(marker, data, n + i, m) == Shift(ScanFrom(marker, data[n..], i, m), n)
    decreases |data| - i
  {
    if n + i < |data| {
      assert data[n..][i] == data[n + i];
      var m' := Advance(marker, m, data[n + i]);
      if m' < |marker| { ScanShift(marker, data, n, i + 1, m'); }
    }
  }

  function ShiftHit(h: Hit, n: nat): Hit {
    match h case Exhausted(t) => h case Found(at, b, t) => Found(at + n, b, t)
  }

  /** Looking from `n` on is looking at the rest alone. */
  lemma {:induction false} NextBlockShift(p: Primitives, rcfg: ReaderConfig, data: Bytes, n: nat, from: nat, t: Tally)
    requires n + from <= |data|
    ensures NextBlock(p, rcfg, data, n + from, t) == ShiftHit(NextBlock(p, rcfg, data[n..], from, t), n)
    decreases |data| - from
  {
    hide ParseBlock, Scan;
    TailOf(data, n, from);
    var s := Scan(rcfg.marker, data[n + from..]);
    if s.Some? {
      var at := from + s.value;
      TailOf(data, n, at);
      var o := ParseBlock(p, rcfg, data[n + at..]);
      if o.result.Err? {
        NextBlockShift(p, rcfg, data, n, at + 1, Count(t, o));
      }
    }
  }

  /** Bytes that cannot start a marker only move the next block further away. */
  lemma {:induction false} QuietPrefix(p: Primitives, rcfg: ReaderConfig, data: Bytes, n: nat)
    requires n <= |data| && forall k :: 0 <= k < n ==> data[k] != rcfg.marker[0]
    ensures NextBlock(p, rcfg, data, 0, NOTHING) == ShiftHit(NextBlock(p, rcfg, data[n..], 0, NOTHING), n)
  {
    hide ParseBlock, ScanFrom;
    ScanSkips(rcfg.marker, data, 0, n);
    ScanShift(rcfg.marker, data, n, 0, 0);
    assert data[0..] == data && data[n..][0..] == data[n..];
    var s := Scan(rcfg.marker, data[n..]);
    if s.Some? {
      var at := s.value;
      TailOf(data, n, at);
      var o := ParseBlock(p, rcfg, data[n + at..]);
      if o.result.Err? { NextBlockShift(p, rcfg, data, n, at + 1, Count(NOTHING, o)); }
    }
  }

  lemma {:induction false} ReadQuietPrefix(p: Primitives, rcfg: ReaderConfig, data: Bytes, n: nat, s: Stats)
    requires n <= |data| && forall k :: 0 <= k < n ==> data[k] != rcfg.marker[0]
    ensures ReadAll(p, rcfg, data) == ReadAll(p, rcfg, data[n..])
    ensures FinalStats(p, rcfg, data, s) == FinalStats(p, rcfg, data[n..], s.(bytesSkipped := s.bytesSkipped + n))
  {
    hide NextBlock;
    QuietPrefix(p, rcfg, data, n);
    var h := NextBlock(p, rcfg, data[n..], 0, NOTHING);
    if h.Found? {
      TailOf(data, n, h.at + h.block.extent);
      assert data[n..][h.at + h.block.extent..] == data[h.at + n + h.block.extent..];
    }
  }

  function AddBlock(s: Stats, skipped: nat, records: nat, compressed: nat, uncompressed: nat): Stats {
    s.(blocksOk := s.blocksOk + 1, bytesSkipped := s.bytesSkipped + skipped, recordsOk := s.recordsOk + records,
       totalCompressed := s.totalCompressed + compressed, totalUncompressed := s.totalUncompressed + uncompressed)
  }

  /** The counters after reading one written block and its padding. */
  function AfterBlock(p: Primitives, cfg: WriterConfig, rs: seq<Record>, s: Stats): Stats
    requires Flushable(p, cfg.codec, rs)
  {
    AddBlock(s, |Padding(cfg.alignment, PrintedLen(p, cfg, rs))|, |rs|,
             |p.Compress(cfg.codec, PayloadOf(rs)).value|, |PayloadOf(rs)|)
  }

  function AfterBlocks(p: Primitives, cfg: WriterConfig, blocks: seq<seq<Record>>, s: Stats): Stats
    requires forall b :: b in blocks ==> Flushable(p, cfg.codec, b)
  {
    if blocks == [] then s else AfterBlocks(p, cfg, blocks[1..], AfterBlock(p, cfg, blocks[0], s))
  }

  lemma {:induction false} NextIsHead(p: Primitives, rcfg: ReaderConfig, data: Bytes)
    requires ParseBlock(p, rcfg, data).result.Ok?
    ensures NextBlock(p, rcfg, data, 0, NOTHING)
         == Found(0, ParseBlock(p, rcfg, data).result.value, Count(NOTHING, ParseBlock(p, rcfg, data)))
  {
    hide ParseBlock;
    assert data[0..] == data && data[0..8] == data[..8];
    ScanFindsHere(rcfg.marker, data, 0);
  }

  lemma {:induction false} ReadHead(p: Primitives, rcfg: ReaderConfig, data: Bytes, s: Stats)
    requires ParseBlock(p, rcfg, data).result.Ok?
    ensures var o := ParseBlock(p, rcfg, data);
            var b := o.result.value;
            var s' := AddBlock(s, 0, |b.records|, o.compressed, o.uncompressed);
            && ReadAll(p, rcfg, data) == b.records + ReadAll(p, rcfg, data[b.extent..])
            && FinalStats(p, rcfg, data, s) == FinalStats(p, rcfg, data[b.extent..], s')
  {
    hide ParseBlock, NextBlock;
    NextIsHead(p, rcfg, data);
  }

  /** A block of `n` bytes, `m` quiet bytes behind it, then `tail`. */
  lemma {:induction false} ReadPadded(p: Primitives, rcfg: ReaderConfig, data: Bytes, n: nat, m: nat, tail: Bytes,
                                      rs: seq<Record>, c: nat, u: nat, s: Stats)
    requires n <= |data| && m <= |data[n..]| && data[n..][m..] == tail
    requires ParseBlock(p, rcfg, data) == Outcome(Ok(Block(rs, n)), c, u)
    requires forall k :: 0 <= k < m ==> data[n..][k] != rcfg.marker[0]
    ensures ReadAll(p, rcfg, data) == rs + ReadAll(p, rcfg, tail)
    ensures FinalStats(p, rcfg, data, s) == FinalStats(p, rcfg, tail, AddBlock(s, m, |rs|, c, u))
  {
    hide ReadAll, FinalStats, ParseBlock;
    ReadHead(p, rcfg, data, s);
    ReadQuietPrefix(p, rcfg, data[n..], m, AddBlock(s, 0, |rs|, c, u));
  }

  lemma {:induction false} PaddedSlices(bs: Bytes, pad: Bytes, tail: Bytes)
    requires forall b :: b in pad ==> b == 0
    ensures var data := bs + (pad + tail);
            && bs + pad + tail == data
            && data[|bs|..] == pad + tail && data[|bs|..][|pad|..] == tail
            && forall k :: 0 <= k < |pad| ==> data[|bs|..][k] == 0
  {
    var data := bs + (pad + tail);
    assert data[|bs|..] == pad + tail;
    forall k | 0 <= k < |pad| ensures data[|bs|..][k] == 0 { assert pad[k] in pad; }
  }

  /** Reading a written block yields its records and continues behind its padding. */
  lemma {:induction false} ReadWrittenBlock(p: Primitives, cfg: WriterConfig, rcfg: ReaderConfig, rs: seq<Record>,
                                            tail: Bytes, s: Stats)
    requires p.Lossless() && rcfg.marker == cfg.marker && QuietPadding(cfg)
    requires Flushable(p, cfg.codec, rs) && Readable(p, cfg, rcfg, rs)
    ensures var data := BlockBytes(p, cfg, rs) + tail;
            && ReadAll(p, rcfg, data) == rs + ReadAll(p, rcfg, tail)
            && FinalStats(p, rcfg, data, s) == FinalStats(p, rcfg, tail, AfterBlock(p, cfg, rs, s))
  {
    hide *;
    var bs := Print(p, cfg.marker, RawOf(p, cfg.codec, rs));
    var pad := Padding(cfg.alignment, |bs|);
    BlockUnfold(p, cfg, rs, s);
    PaddedSlices(bs, pad, tail);
    WrittenBlockParses(p, cfg, rcfg, rs, pad + tail);
    ReadPadded(p, rcfg, bs + (pad + tail), |bs|, |pad|, tail, rs,
               |p.Compress(cfg.codec, PayloadOf(rs)).value|, |PayloadOf(rs)|, s);
  }

  lemma {:induction false} BlockUnfold(p: Primitives, cfg: WriterConfig, rs: seq<Record>, s: Stats)
    requires Flushable(p, cfg.codec, rs) && QuietPadding(cfg)
    ensures Packable(rs) && p.Compress(cfg.codec, PayloadOf(rs)).Some?
    ensures var bs := Print(p, cfg.marker, RawOf(p, cfg.codec, rs));
            var pad := Padding(cfg.alignment, |bs|);
            && BlockBytes(p, cfg, rs) == bs + pad && PrintedLen(p, cfg, rs) == |bs|
            && (pad != [] ==> cfg.marker[0] != 0)
            && AfterBlock(p, cfg, rs, s)
               == AddBlock(s, |pad|, |rs|, |p.Compress(cfg.codec, PayloadOf(rs)).value|, |PayloadOf(rs)|)
  {
    hide Print, RawOf, Padding, PayloadOf;
  }

  /** Reading a file of blocks yields their records in order, counts no bad block, and goes on with what follows. */
  lemma {:induction false} ReadFileImage(p: Primitives, cfg: WriterConfig, rcfg: ReaderConfig, blocks: seq<seq<Record>>,
                                         tail: Bytes, s: Stats)
    requires Compatible(p, cfg, rcfg, blocks)
    ensures var data := FileImage(p, cfg, blocks) + tail;
            && ReadAll(p, rcfg, data) == Flatten(blocks) + ReadAll(p, rcfg, tail)
            && FinalStats(p, rcfg, data, s) == FinalStats(p, rcfg, tail, AfterBlocks(p, cfg, blocks, s))
    decreases |blocks|
  {
    hide *;
    ImageUnfold(p, cfg, rcfg, blocks, s);
    var image := FileImage(p, cfg, blocks);
    if blocks == [] {
      assert image + tail == tail;
      assert Flatten(blocks) + ReadAll(p, rcfg, tail) == ReadAll(p, rcfg, tail);
    } else {
      var b, later := blocks[0], blocks[1..];
      var more := FileImage(p, cfg, later) + tail;
      assert image + tail == BlockBytes(p, cfg, b) + more;
      ReadWrittenBlock(p, cfg, rcfg, b, more, s);
      ReadFileImage(p, cfg, rcfg, later, tail, AfterBlock(p, cfg, b, s));
      assert b + Flatten(later) + ReadAll(p, rcfg, tail) == b + (Flatten(later) + ReadAll(p, rcfg, tail));
    }
  }

  lemma {:induction false} ImageUnfold(p: Primitives, cfg: WriterConfig, rcfg: ReaderConfig, blocks: seq<seq<Record>>,
                                       s: Stats)
    requires Compatible(p, cfg, rcfg, blocks)
    ensures p.Lossless() && rcfg.marker == cfg.marker && QuietPadding(cfg)
    ensures forall b :: b in blocks ==> Flushable(p, cfg.codec, b)
    ensures blocks == [] ==>
              FileImage(p, cfg, blocks) == [] && Flatten(blocks) == [] && AfterBlocks(p, cfg, blocks, s) == s
    ensures blocks != [] ==>
              && Flushable(p, cfg.codec, blocks[0]) && Readable(p, cfg, rcfg, blocks[0])
              && Compatible(p, cfg, rcfg, blocks[1..])
              && FileImage(p, cfg, blocks) == BlockBytes(p, cfg, blocks[0]) + FileImage(p, cfg, blocks[1..])
              && Flatten(blocks) == blocks[0] + Flatten(blocks[1..])
              && AfterBlocks(p, cfg, blocks, s) == AfterBlocks(p, cfg, blocks[1..], AfterBlock(p, cfg, blocks[0], s))
  {
    hide Flushable, Readable, BlockBytes, AfterBlock;
  }

  lemma {:induction false} CleanCounters(p: Primitives, cfg: WriterConfig, blocks: seq<seq<Record>>, s: Stats)
    requires forall b :: b in blocks ==> Flushable(p, cfg.codec, b)
    ensures var e := AfterBlocks(p, cfg, blocks, s);
            && e.blocksBad == s.blocksBad && e.blocksOk == s.blocksOk + |blocks|
            && e.recordsOk == s.recordsOk + |Flatten(blocks)|
            && (cfg.alignment == 0 ==> e.bytesSkipped == s.bytesSkipped)
    decreases |blocks|
  {
    hide Flushable, Padding, RawOf, Print;
    if blocks != [] { CleanCounters(p, cfg, blocks[1..], AfterBlock(p, cfg, blocks[0], s)); }
  }

  // ----- recovery

  lemma {:induction false} FirstBlockShift(p: Primitives, rcfg: ReaderConfig, data: Bytes, n: nat, i: nat)
    requires n + i <= |data|
    ensures FirstBlock(p, rcfg, data, n + i) == Shift(FirstBlock(p, rcfg, data[n..], i), n)
    decreases |data| - i
  {
    hide Accepts;
    if n + i < |data| {
      TailOf(data, n, i);
      if !Accepts(p, rcfg, data[n + i..]) { FirstBlockShift(p, rcfg, data, n, i + 1); }
    }
  }

  /** Damage in which no block starts is skipped without disturbing what follows it. */
  lemma {:induction false} DamageSkipped(p: Primitives, rcfg: ReaderConfig, damage: Bytes, tail: Bytes)
    requires SelfAligned(rcfg.marker)
    requires forall k :: 0 <= k < |damage| ==> !Accepts(p, rcfg, (damage + tail)[k..])
    ensures ReadAll(p, rcfg, damage + tail) == ReadAll(p, rcfg, tail)
  {
    hide ParseBlock, Accepts, SelfAligned, ReadAll;
    var data, n := damage + tail, |damage|;
    assert data[n..] == tail;
    ReadAllIsGreedy(p, rcfg, data);
    ReadAllIsGreedy(p, rcfg, tail);
    FirstBlockSkips(p, rcfg, data, 0, n);
    FirstBlockShift(p, rcfg, data, n, 0);
    var f := FirstBlock(p, rcfg, tail, 0);
    if f.Some? {
      TailOf(data, n, f.value);
      AcceptsExtent(p, rcfg, tail[f.value..]);
      var b := ParseBlock(p, rcfg, tail[f.value..]).result.value;
      TailOf(data, n, f.value + b.extent);
    }
  }

  lemma {:induction false} AcceptsExtent(p: Primitives, rcfg: ReaderConfig, b: Bytes)
    requires Accepts(p, rcfg, b)
    ensures ParseBlock(p, rcfg, b).result.Ok? && ParseBlock(p, rcfg, b).result.value.extent <= |b|
  {
    hide ParseBlock;
  }

  /** Two written files with damage between them: every record of both is read, in order. */
  lemma {:induction false} SpliceRecovery(p: Primitives, cfg: WriterConfig, rcfg: ReaderConfig, first: seq<seq<Record>>,
                                          damage: Bytes, second: seq<seq<Record>>)
    requires Compatible(p, cfg, rcfg, first) && Compatible(p, cfg, rcfg, second) && SelfAligned(rcfg.marker)
    requires forall k :: 0 <= k < |damage| ==> !Accepts(p, rcfg, (damage + FileImage(p, cfg, second))[k..])
    ensures ReadAll(p, rcfg, FileImage(p, cfg, first) + (damage + FileImage(p, cfg, second)))
         == Flatten(first) + Flatten(second)
  {
    hide Accepts, ReadAll, FileImage, FinalStats, SelfAligned;
    var b := FileImage(p, cfg, second);
    ReadFileImage(p, cfg, rcfg, first, damage + b, NO_STATS);
    DamageSkipped(p, rcfg, damage, b);
    ReadFileImage(p, cfg, rcfg, second, [], NO_STATS);
    assert b + [] == b;
    NothingLeft(p, rcfg, NO_STATS);
    assert Flatten(second) + [] == Flatten(second);
  }

  // ----- whole runs

  /** The records whose push succeeded. */
  function Taken(pushes: seq<Record>, taken: seq<bool>): seq<Record>
    requires |pushes| == |taken|
  {
    if pushes == [] then []
    else
      var n := |pushes| - 1;
      Taken(pushes[..n], taken[..n]) + (if taken[n] then [pushes[n]] else [])
  }

  // ----- when no flush can fail

  /** The largest payload the writer can be left holding: one record alone, or several within the target. */
  function LargestBlock(cfg: WriterConfig, pushes: seq<Record>): (n: nat)
    ensures cfg.target <= n && forall x :: x in pushes ==> 31 + |x.payload| <= n
  {
    if pushes == [] then cfg.target
    else Max(31 + |pushes[0].payload|, LargestBlock(cfg, pushes[1..]))
  }

  /** Compression works up to that size, and lengths stay within their 32-bit fields. */
  ghost predicate Roomy(p: Primitives, cfg: WriterConfig, pushes: seq<Record>) {
    && LargestBlock(cfg, pushes) < 0x1_0000_0000
    && forall bs: Bytes :: |bs| <= LargestBlock(cfg, pushes) ==>
         p.Compress(cfg.codec, bs).Some? && |p.Compress(cfg.codec, bs).value| < 0x1_0000_0000
  }

  /** The reader shares the marker, and its limits admit every block of up to that size. */
  ghost predicate Admitted(p: Primitives, cfg: WriterConfig, rcfg: ReaderConfig, pushes: seq<Record>) {
    && p.Lossless() && rcfg.marker == cfg.marker && QuietPadding(cfg)
    && LargestBlock(cfg, pushes) <= rcfg.maxUncompressed
    && forall bs: Bytes :: |bs| <= LargestBlock(cfg, pushes) && p.Compress(cfg.codec, bs).Some? ==>
         |p.Compress(cfg.codec, bs).value| <= rcfg.maxCompressed
  }

  lemma {:induction false} RecordLength(base: BlockHeaderExt, r: Record)
    requires Fits(base, r)
    ensures 4 + |r.payload| <= |EncodeRecord(base, r)| <= 31 + |r.payload|
  {
    hide Varint;
    VarintFits(r.seqno - base.baseSeq);
    VarintFits(r.ts - base.baseTs);
    VarintFits(|r.payload|);
  }

  lemma {:induction false} RecordsLength(base: BlockHeaderExt, rs: seq<Record>)
    requires forall r :: r in rs ==> Fits(base, r)
    ensures 4 * |rs| <= |EncodeRecords(base, rs)|
    ensures |rs| == 1 ==> |EncodeRecords(base, rs)| <= 31 + |rs[0].payload|
    decreases |rs|
  {
    hide EncodeRecord, EncodeRecords, Fits;
    if rs == [] {
    } else {
      EncodeOneMore(base, rs);
      RecordLength(base, rs[0]);
      RecordsLength(base, rs[1..]);
      if |rs| == 1 {
        assert rs[1..] == [];
        NoRecords(base, []);
      }
    }
  }

  lemma {:induction false} HeldLength(cfg: WriterConfig, pushes: seq<Record>, held: seq<Record>)
    requires held != [] && held[0] in pushes && Packable(held) && Sized(cfg.target, held)
    ensures 4 * |held| <= |PayloadOf(held)| <= LargestBlock(cfg, pushes)
  {
    hide EncodeRecords, Fits;
    RecordsLength(BaseOf(held), held);
  }

  /** A buffer the writer can hold is small enough to be flushed, and to take one more record. */
  lemma {:induction false} RoomToFlush(p: Primitives, cfg: WriterConfig, pushes: seq<Record>, held: seq<Record>)
    requires Roomy(p, cfg, pushes) && held != [] && held[0] in pushes && Packable(held) && Sized(cfg.target, held)
    ensures Flushable(p, cfg.codec, held) && |held| < 0xFFFF_FFFF
  {
    hide PayloadOf, Packable, LargestBlock, Sized;
    HeldLength(cfg, pushes, held);
  }

  lemma {:induction false} HeldFacts(w: LogjetWriter)
    requires w.Valid() && w.buffered != []
    ensures Packable(w.buffered) && Sized(w.config.target, w.buffered) && w.recordCount == |w.buffered|
  {
    hide FileImage, Flushable, Sized, EncodeRecords;
  }

  /** A run of pushes closed by a final flush; none if a flush or the record counter fails on the way. */
  method WriteRun(p: Primitives, cfg: WriterConfig, pushes: seq<Record>)
    returns (r: Option<(Bytes, seq<bool>)>, ghost blocks: seq<seq<Record>>)
    requires forall x :: x in pushes ==> |x.payload| < TWO_64
    ensures r.Some? ==>
              && (forall b :: b in blocks ==> Flushable(p, cfg.codec, b) && Sized(cfg.target, b))
              && r.value.0 == FileImage(p, cfg, blocks)
              && |r.value.1| == |pushes|
              && Flatten(blocks) == Taken(pushes, r.value.1)
              && Packed(cfg.target, blocks)
    ensures r.Some? && NonDecreasing(pushes) ==>
              |r.value.1| == |pushes| && forall i :: 0 <= i < |pushes| ==> r.value.1[i]
    ensures Roomy(p, cfg, pushes) ==> r.Some?
  {
    hide *;
    var w := new LogjetWriter(p, cfg, []);
    var taken: seq<bool> := [];
    blocks := [];
    Starting(w, pushes);
    TightStart(cfg.target);
    for i := 0 to |pushes|
      invariant fresh(w) && w.Valid() && w.prims == p && w.config == cfg && w.initial == []
      invariant |taken| == i && w.Accepted() == Taken(pushes[..i], taken)
      invariant NonDecreasing(pushes) ==> forall k :: 0 <= k < i ==> taken[k]
      invariant w.buffered != [] ==> w.buffered[0] in pushes[..i]
      invariant Tight(cfg.target, w.blocks, w.buffered)
    {
      var x := pushes[i];
      ghost var held := w.buffered;
      if held != [] {
        HeldFacts(w);
        if Roomy(p, cfg, pushes) { RoomToFlush(p, cfg, pushes, held); }
      } else {
        NothingHeld(w);
      }
      var pushed := w.Push(x.kind, x.seqno, x.ts, x.payload);
      assert pushes[..i + 1] == pushes[..i] + [x] && x == Record(x.kind, x.seqno, x.ts, x.payload);
      if pushed.Err? && pushed.error != OutOfOrder {
        if Roomy(p, cfg, pushes) && pushed.error != NumericOverflow {
          HeldFacts(w);
          RoomToFlush(p, cfg, pushes, w.buffered);
        }
        return None, [];
      }
      if NonDecreasing(pushes) && held != [] { InOrder(pushes, i, held); }
      TakenStep(pushes, taken, pushed.Ok?);
      taken := taken + [pushed.Ok?];
    }
    assert pushes[..|pushes|] == pushes;
    if w.buffered != [] {
      HeldFacts(w);
      if Roomy(p, cfg, pushes) { RoomToFlush(p, cfg, pushes, w.buffered); }
    }
    TightIsPacked(cfg.target, w.blocks, w.buffered);
    var flushed := w.FlushBlock();
    if flushed.Err? { return None, []; }
    blocks := w.blocks;
    Closing(w);
    r := Some((w.out, taken));
  }

  lemma {:induction false} NothingHeld(w: LogjetWriter)
    requires w.Valid() && w.buffered == []
    ensures w.recordCount == 0
  {
    hide FileImage, Flushable, Sized, EncodeRecords;
  }

  lemma {:induction false} Starting(w: LogjetWriter, pushes: seq<Record>)
    requires w.blocks == [] && w.buffered == []
    ensures w.Accepted() == Taken(pushes[..0], [])
  {}

  lemma {:induction false} Closing(w: LogjetWriter)
    requires w.Valid() && w.buffered == [] && w.initial == []
    ensures forall b :: b in w.blocks ==> Flushable(w.prims, w.config.codec, b) && Sized(w.config.target, b)
    ensures w.out == FileImage(w.prims, w.config, w.blocks)
    ensures w.Accepted() == Flatten(w.blocks)
  {
    hide FileImage, Flushable, Sized, Flatten;
  }

  lemma {:induction false} InOrder(pushes: seq<Record>, i: nat, held: seq<Record>)
    requires i < |pushes| && NonDecreasing(pushes) && held != [] && held[0] in pushes[..i]
    ensures BaseOf(held).baseSeq <= pushes[i].seqno && BaseOf(held).baseTs <= pushes[i].ts
  {
    var k :| 0 <= k < i && pushes[k] == held[0];
  }

  lemma {:induction false} TakenStep(pushes: seq<Record>, taken: seq<bool>, ok: bool)
    requires |taken| < |pushes|
    ensures var i := |taken|;
            Taken(pushes[..i + 1], taken + [ok]) == Taken(pushes[..i], taken) + (if ok then [pushes[i]] else [])
  {
    var i := |taken|;
    assert pushes[..i + 1][..i] == pushes[..i] && (taken + [ok])[..i] == taken;
  }

  lemma {:induction false} TakenWerePushed(pushes: seq<Record>, taken: seq<bool>, x: Record)
    requires |pushes| == |taken| && x in Taken(pushes, taken)
    ensures x in pushes
  {
    if pushes != [] {
      var n := |pushes| - 1;
      if x in Taken(pushes[..n], taken[..n]) { TakenWerePushed(pushes[..n], taken[..n], x); }
    }
  }

  lemma {:induction false} BlockRecordsFlattened(blocks: seq<seq<Record>>, b: seq<Record>, x: Record)
    requires b in blocks && x in b
    ensures x in Flatten(blocks)
  {
    if b != blocks[0] { BlockRecordsFlattened(blocks[1..], b, x); }
  }

  /** Blocks written from these pushes are within the limits of a reader that admits them. */
  lemma {:induction false} AdmittedIsCompatible(p: Primitives, cfg: WriterConfig, rcfg: ReaderConfig,
                                                pushes: seq<Record>, taken: seq<bool>, blocks: seq<seq<Record>>)
    requires Admitted(p, cfg, rcfg, pushes) && |pushes| == |taken| && Flatten(blocks) == Taken(pushes, taken)
    requires forall b :: b in blocks ==> Flushable(p, cfg.codec, b) && Sized(cfg.target, b)
    ensures Compatible(p, cfg, rcfg, blocks)
  {
    hide PayloadOf, Packable, LargestBlock, Sized, Flatten, Taken;
    forall b | b in blocks ensures Flushable(p, cfg.codec, b) && Readable(p, cfg, rcfg, b) {
      BlockUnfolds(p, cfg, b);
      BlockRecordsFlattened(blocks, b, b[0]);
      TakenWerePushed(pushes, taken, b[0]);
      HeldLength(cfg, pushes, b);
    }
  }

  lemma {:induction false} BlockUnfolds(p: Primitives, cfg: WriterConfig, b: seq<Record>)
    requires Flushable(p, cfg.codec, b)
    ensures b != [] && Packable(b) && p.Compress(cfg.codec, PayloadOf(b)).Some?
  {}

  /** Reading back any run gives exactly the records whose push succeeded, with no bad block, when the blocks are within
      the reader's limits, as those of admitted pushes are; no run fails where lengths and compression leave room. */
  method WriteThenRead(p: Primitives, cfg: WriterConfig, rcfg: ReaderConfig, pushes: seq<Record>)
    returns (r: Option<(seq<bool>, seq<Record>, Stats)>, ghost blocks: seq<seq<Record>>)
    requires forall x :: x in pushes ==> |x.payload| < TWO_64
    ensures Roomy(p, cfg, pushes) ==> r.Some?
    ensures r.Some? ==> |r.value.0| == |pushes|
    ensures r.Some? ==> Flatten(blocks) == Taken(pushes, r.value.0)
    ensures r.Some? && Compatible(p, cfg, rcfg, blocks) ==>
              && r.value.1 == Taken(pushes, r.value.0)
              && r.value.2.blocksBad == 0 && r.value.2.blocksOk == |blocks|
              && r.value.2.recordsOk == |r.value.1|
              && (cfg.alignment == 0 ==> r.value.2.bytesSkipped == 0)
              && (NonDecreasing(pushes) ==> r.value.1 == pushes)
    ensures r.Some? && Admitted(p, cfg, rcfg, pushes) ==>
              && r.value.1 == Taken(pushes, r.value.0)
              && r.value.2.blocksBad == 0 && r.value.2.recordsOk == |r.value.1|
              && (NonDecreasing(pushes) ==> r.value.1 == pushes)
  {
    hide FileImage, ReadAll, FinalStats, Flatten, AfterBlocks, Compatible, Taken, NonDecreasing, GreedyRead,
        SelfAligned;
    hide Roomy, Admitted, Flushable, Sized;
    var written;
    written, blocks := WriteRun(p, cfg, pushes);
    if written.None? { return None, blocks; }
    var records, stats := ReadToEnd(p, rcfg, written.value.0);
    if Admitted(p, cfg, rcfg, pushes) { AdmittedIsCompatible(p, cfg, rcfg, pushes, written.value.1, blocks); }
    if Compatible(p, cfg, rcfg, blocks) {
      ReadFileImage(p, cfg, rcfg, blocks, [], NO_STATS);
      assert FileImage(p, cfg, blocks) + [] == FileImage(p, cfg, blocks);
      assert Flatten(blocks) + [] == Flatten(blocks);
      NothingLeft(p, rcfg, AfterBlocks(p, cfg, blocks, NO_STATS));
      CleanCounters(p, cfg, blocks, NO_STATS);
      if NonDecreasing(pushes) { AllTaken(pushes, written.value.1); }
    }
    r := Some((written.value.1, records, stats));
  }

  lemma {:induction false} AllTaken(pushes: seq<Record>, taken: seq<bool>)
    requires |pushes| == |taken| && forall i :: 0 <= i < |pushes| ==> taken[i]
    ensures Taken(pushes, taken) == pushes
  {
    if pushes != [] {
      var n := |pushes| - 1;
      AllTaken(pushes[..n], taken[..n]);
      assert pushes == pushes[..n] + [pushes[n]];
    }
  }
}
