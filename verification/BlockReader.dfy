/** The recovering reader: scan for a marker, validate a block there, resume one byte later on failure. */
module BlockReader {
  import opened Prelude
  import opened Encoding
  import opened BlockFormat
  import opened BlockParser
  import opened SyncMarker

  datatype Tally = Tally(bad: nat, compressed: nat, uncompressed: nat)

  datatype Hit = Found(at: nat, block: Block, tally: Tally) | Exhausted(tally: Tally)

  function Count(t: Tally, o: Outcome): Tally {
    Tally(t.bad + (if o.result.Ok? then 0 else 1), t.compressed + o.compressed, t.uncompressed + o.uncompressed)
  }

  /** The next block the marker search leads to, at or after `from`. */
  function NextBlock(p: Primitives, cfg: ReaderConfig, rest: Bytes, from: nat, t: Tally): (h: Hit)
    requires from <= |rest|
    ensures h.Found? ==> from <= h.at && 0 < h.block.extent && h.at + h.block.extent <= |rest|
    decreases |rest| - from
  {
    var s := Scan(cfg.marker, rest[from..]);
    if s.None? then Exhausted(t)
    else
      var at := from + s.value;
      var o := ParseBlock(p, cfg, rest[at..]);
      if o.result.Ok? then Found(at, o.result.value, Count(t, o)) else NextBlock(p, cfg, rest, at + 1, Count(t, o))
  }

  /** One step of the search. */
  lemma {:induction false} SearchStep(p: Primitives, cfg: ReaderConfig, rest: Bytes, from: nat, t: Tally)
    requires from <= |rest|
    ensures NextBlock(p, cfg, rest, from, t)
         == match Scan(cfg.marker, rest[from..])
            case None => Exhausted(t)
            case Some(n) =>
              var o := ParseBlock(p, cfg, rest[from + n..]);
              if o.result.Ok? then Found(from + n, o.result.value, Count(t, o))
              else NextBlock(p, cfg, rest, from + n + 1, Count(t, o))
  {
    hide ParseBlock, Scan;
  }

  const NOTHING := Tally(0, 0, 0)

  /** All records read from `rest`. */
  function ReadAll(p: Primitives, cfg: ReaderConfig, rest: Bytes): seq<Record>
    decreases |rest|
  {
    match NextBlock(p, cfg, rest, 0, NOTHING)
    case Exhausted(_) => []
    case Found(at, b, _) => b.records + ReadAll(p, cfg, rest[at + b.extent..])
  }

  // ----- the greedy specification

  predicate Accepts(p: Primitives, cfg: ReaderConfig, b: Bytes) { ParseBlock(p, cfg, b).result.Ok? }

  /** Tries every offset from `i` on. */
  function TryFrom(p: Primitives, cfg: ReaderConfig, rest: Bytes, i: nat): Option<nat>
    requires i <= |rest|
    decreases |rest| - i
  {
    if i == |rest| then None
    else if Accepts(p, cfg, rest[i..]) then Some(i)
    else TryFrom(p, cfg, rest, i + 1)
  }

  lemma {:induction false} TryFromIsLeftmost(p: Primitives, cfg: ReaderConfig, rest: Bytes, i: nat)
    requires i <= |rest|
    ensures match TryFrom(p, cfg, rest, i)
            case Some(n) =>
              i <= n < |rest| && Accepts(p, cfg, rest[n..]) && forall k :: i <= k < n ==> !Accepts(p, cfg, rest[k..])
            case None => forall k :: i <= k < |rest| ==> !Accepts(p, cfg, rest[k..])
    decreases |rest| - i
  {
    hide Accepts;
    if i < |rest| && !Accepts(p, cfg, rest[i..]) { TryFromIsLeftmost(p, cfg, rest, i + 1); }
  }

  /** The leftmost offset at or after `i` where a whole block validates. */
  function FirstBlock(p: Primitives, cfg: ReaderConfig, rest: Bytes, i: nat): (r: Option<nat>)
    requires i <= |rest|
    ensures r.Some? ==> i <= r.value < |rest| && Accepts(p, cfg, rest[r.value..])
    ensures r.Some? ==> forall k :: i <= k < r.value ==> !Accepts(p, cfg, rest[k..])
    ensures r.None? ==> forall k :: i <= k < |rest| ==> !Accepts(p, cfg, rest[k..])
  {
    TryFromIsLeftmost(p, cfg, rest, i); TryFrom(p, cfg, rest, i)
  }

  /** Take the leftmost valid block, emit its records, continue after it. */
  function GreedyRead(p: Primitives, cfg: ReaderConfig, rest: Bytes): seq<Record>
    decreases |rest|
  {
    var f := FirstBlock(p, cfg, rest, 0);
    if f.None? then []
    else
      var b := ParseBlock(p, cfg, rest[f.value..]).result.value;
      b.records + GreedyRead(p, cfg, rest[f.value + b.extent..])
  }

  lemma {:induction false} FirstBlockSkips(p: Primitives, cfg: ReaderConfig, rest: Bytes, i: nat, n: nat)
    requires i <= n <= |rest|
    requires forall k :: i <= k < n ==> !Accepts(p, cfg, rest[k..])
    ensures FirstBlock(p, cfg, rest, i) == FirstBlock(p, cfg, rest, n)
    decreases n - i
  {
    hide Accepts;
    if i < n { FirstBlockSkips(p, cfg, rest, i + 1, n); }
  }

  /** Only an offset with a marker can hold a block. */
  lemma {:induction false} NoMarkerNoBlock(p: Primitives, cfg: ReaderConfig, rest: Bytes, from: nat, k: nat)
    requires from <= k < |rest| && !MarkerAt(cfg.marker, rest[from..], k - from)
    ensures !Accepts(p, cfg, rest[k..])
  {
    hide ParseBlock;
    var tail := rest[from..];
    if |rest| - k >= 8 {
      assert rest[k..][..8] == tail[k - from..k - from + 8];
    }
  }

  /** With a self-aligned marker the search leads to the leftmost valid block. */
  lemma {:induction false} NextBlockIsFirst(p: Primitives, cfg: ReaderConfig, rest: Bytes, from: nat, t: Tally)
    requires from <= |rest| && SelfAligned(cfg.marker)
    ensures match NextBlock(p, cfg, rest, from, t)
            case Found(at, b, _) =>
              FirstBlock(p, cfg, rest, from) == Some(at) && ParseBlock(p, cfg, rest[at..]).result == Ok(b)
            case Exhausted(_) => FirstBlock(p, cfg, rest, from) == None
    decreases |rest| - from
  {
    hide ParseBlock, Scan, FirstBlock, SelfAligned;
    var tail := rest[from..];
    ScanIsFirst(cfg.marker, tail);
    var s := Scan(cfg.marker, tail);
    var n := if s.None? then |rest| else from + s.value;
    forall k | from <= k < n ensures !Accepts(p, cfg, rest[k..]) {
      NoMarkerNoBlock(p, cfg, rest, from, k);
    }
    FirstBlockSkips(p, cfg, rest, from, n);
    if s.Some? {
      var o := ParseBlock(p, cfg, rest[n..]);
      if o.result.Err? {
        FirstBlockSkips(p, cfg, rest, n, n + 1);
        NextBlockIsFirst(p, cfg, rest, n + 1, Count(t, o));
      } else {
        FirstBlockHere(p, cfg, rest, n);
      }
    }
  }

  lemma {:induction false} FirstBlockHere(p: Primitives, cfg: ReaderConfig, rest: Bytes, i: nat)
    requires i < |rest| && Accepts(p, cfg, rest[i..])
    ensures FirstBlock(p, cfg, rest, i) == Some(i)
  {
    hide Accepts;
  }

  /** Reading to the end is exactly the greedy specification, for every byte string. */
  lemma {:induction false} ReadAllIsGreedy(p: Primitives, cfg: ReaderConfig, rest: Bytes)
    requires SelfAligned(cfg.marker)
    ensures ReadAll(p, cfg, rest) == GreedyRead(p, cfg, rest)
    decreases |rest|
  {
    hide ParseBlock, NextBlock, FirstBlock, SelfAligned;
    NextBlockIsFirst(p, cfg, rest, 0, NOTHING);
    match NextBlock(p, cfg, rest, 0, NOTHING)
    case Exhausted(_) =>
    case Found(at, b, _) => ReadAllIsGreedy(p, cfg, rest[at + b.extent..]);
  }

  // ----- statistics

  datatype Stats = Stats(
    blocksOk: nat, blocksBad: nat, bytesSkipped: nat, recordsOk: nat, totalCompressed: nat, totalUncompressed: nat)

  const NO_STATS := Stats(0, 0, 0, 0, 0, 0)

  /** The counters after one scan over `len` remaining bytes. */
  function AfterScan(s: Stats, h: Hit, len: nat): Stats {
    s.(blocksOk := s.blocksOk + (if h.Found? then 1 else 0),
       blocksBad := s.blocksBad + h.tally.bad,
       bytesSkipped := s.bytesSkipped + (if h.Found? then h.at else len),
       totalCompressed := s.totalCompressed + h.tally.compressed,
       totalUncompressed := s.totalUncompressed + h.tally.uncompressed)
  }

  /** The counters once `rest` has been read to its end. */
  function FinalStats(p: Primitives, cfg: ReaderConfig, rest: Bytes, s: Stats): Stats
    decreases |rest|
  {
    var h := NextBlock(p, cfg, rest, 0, NOTHING);
    var s' := AfterScan(s, h, |rest|);
    if h.Exhausted? then s'
    else FinalStats(p, cfg, rest[h.at + h.block.extent..], s'.(recordsOk := s'.recordsOk + |h.block.records|))
  }

  lemma {:induction false} NothingLeft(p: Primitives, cfg: ReaderConfig, s: Stats)
    ensures ReadAll(p, cfg, []) == [] && FinalStats(p, cfg, [], s) == s
  {}

  lemma {:induction false} TailOf(file: Bytes, a: nat, n: nat)
    requires a + n <= |file|
    ensures file[a..][n..] == file[a + n..]
  {}

  // ----- the reader object

  // ----- what the counters count

  /** The offsets from `i` up to `n` that have a marker and no valid block. */
  ghost function Rejected(p: Primitives, cfg: ReaderConfig, rest: Bytes, i: nat, n: nat): set<nat>
    requires n <= |rest|
  {
    set k: nat | i <= k < n && MarkerAt(cfg.marker, rest, k) && !Accepts(p, cfg, rest[k..])
  }

  lemma {:induction false} RejectedNone(p: Primitives, cfg: ReaderConfig, rest: Bytes, from: nat, n: nat)
    requires from <= n <= |rest| && forall j: nat :: j < n - from ==> !MarkerAt(cfg.marker, rest[from..], j)
    ensures Rejected(p, cfg, rest, from, n) == {}
  {
    hide Accepts;
    forall k | from <= k < n ensures !MarkerAt(cfg.marker, rest, k) { MarkerShift(cfg.marker, rest, from, k - from); }
  }

  lemma {:induction false} MarkerShift(marker: Bytes, rest: Bytes, from: nat, j: nat)
    requires from <= |rest|
    ensures MarkerAt(marker, rest[from..], j) <==> MarkerAt(marker, rest, from + j)
  {
    if from + j + |marker| <= |rest| { assert rest[from..][j..j + |marker|] == rest[from + j..from + j + |marker|]; }
  }

  /** One rejected offset in between. */
  lemma {:induction false} RejectedSplit(p: Primitives, cfg: ReaderConfig, rest: Bytes, from: nat, n: nat, end: nat)
    requires from <= n < end <= |rest| && Rejected(p, cfg, rest, from, n) == {}
    requires MarkerAt(cfg.marker, rest, n) && !Accepts(p, cfg, rest[n..])
    ensures |Rejected(p, cfg, rest, from, end)| == 1 + |Rejected(p, cfg, rest, n + 1, end)|
  {
    hide Accepts, MarkerAt;
    var behind := Rejected(p, cfg, rest, n + 1, end);
    forall k | from <= k < n && MarkerAt(cfg.marker, rest, k) ensures Accepts(p, cfg, rest[k..]) {
      assert k !in Rejected(p, cfg, rest, from, n);
    }
    assert Rejected(p, cfg, rest, from, end) == {n} + behind && n !in behind;
  }

  /** A search counts exactly the markers it passes that start no valid block. */
  lemma {:induction false} TallyCounts(p: Primitives, cfg: ReaderConfig, rest: Bytes, from: nat, t: Tally)
    requires from <= |rest| && SelfAligned(cfg.marker)
    ensures var h := NextBlock(p, cfg, rest, from, t);
            h.tally.bad == t.bad + |Rejected(p, cfg, rest, from, if h.Found? then h.at else |rest|)|
    decreases |rest| - from
  {
    hide ParseBlock, Scan, NextBlock, SelfAligned, Rejected;
    var tail := rest[from..];
    ScanIsFirst(cfg.marker, tail);
    SearchStep(p, cfg, rest, from, t);
    var s := Scan(cfg.marker, tail);
    if s.None? {
      RejectedNone(p, cfg, rest, from, |rest|);
    } else {
      var n := from + s.value;
      RejectedNone(p, cfg, rest, from, n);
      MarkerShift(cfg.marker, rest, from, s.value);
      var o := ParseBlock(p, cfg, rest[n..]);
      if o.result.Err? {
        TallyCounts(p, cfg, rest, n + 1, Count(t, o));
        var h := NextBlock(p, cfg, rest, n + 1, Count(t, o));
        RejectedSplit(p, cfg, rest, from, n, if h.Found? then h.at else |rest|);
      }
    }
  }

  /** The blocks of the greedy reading, and the markers it passes that start none. */
  function GreedyBlocks(p: Primitives, cfg: ReaderConfig, rest: Bytes): seq<Block>
    decreases |rest|
  {
    var f := FirstBlock(p, cfg, rest, 0);
    if f.None? then []
    else
      var b := ParseBlock(p, cfg, rest[f.value..]).result.value;
      [b] + GreedyBlocks(p, cfg, rest[f.value + b.extent..])
  }

  ghost function GreedyRejects(p: Primitives, cfg: ReaderConfig, rest: Bytes): nat
    decreases |rest|
  {
    var f := FirstBlock(p, cfg, rest, 0);
    if f.None? then |Rejected(p, cfg, rest, 0, |rest|)|
    else
      var b := ParseBlock(p, cfg, rest[f.value..]).result.value;
      |Rejected(p, cfg, rest, 0, f.value)| + GreedyRejects(p, cfg, rest[f.value + b.extent..])
  }

  function Extents(blocks: seq<Block>): nat { if blocks == [] then 0 else blocks[0].extent + Extents(blocks[1..]) }

  /** After any file: the good blocks and records are those of the greedy reading, the skipped bytes are all the others,
      and the bad blocks are the markers passed that start no valid block. */
  lemma {:induction false} CountersAreGreedy(p: Primitives, cfg: ReaderConfig, rest: Bytes, s: Stats)
    requires SelfAligned(cfg.marker)
    ensures var e := FinalStats(p, cfg, rest, s);
            && e.blocksOk == s.blocksOk + |GreedyBlocks(p, cfg, rest)|
            && e.recordsOk == s.recordsOk + |GreedyRead(p, cfg, rest)|
            && e.bytesSkipped + Extents(GreedyBlocks(p, cfg, rest)) == s.bytesSkipped + |rest|
            && e.blocksBad == s.blocksBad + GreedyRejects(p, cfg, rest)
    decreases |rest|
  {
    hide ParseBlock, NextBlock, FirstBlock, SelfAligned, Rejected;
    NextBlockIsFirst(p, cfg, rest, 0, NOTHING);
    TallyCounts(p, cfg, rest, 0, NOTHING);
    var h := NextBlock(p, cfg, rest, 0, NOTHING);
    if h.Found? {
      var next := AfterScan(s, h, |rest|);
      var after, more := rest[h.at + h.block.extent..], next.(recordsOk := next.recordsOk + |h.block.records|);
      CountersAreGreedy(p, cfg, after, more);
      FirstExtent(h.block, GreedyBlocks(p, cfg, after));
    }
  }

  lemma {:induction false} CountersFromZero(p: Primitives, cfg: ReaderConfig, file: Bytes)
    requires SelfAligned(cfg.marker)
    ensures var e := FinalStats(p, cfg, file, NO_STATS);
            && e.blocksOk == |GreedyBlocks(p, cfg, file)| && e.recordsOk == |GreedyRead(p, cfg, file)|
            && e.bytesSkipped + Extents(GreedyBlocks(p, cfg, file)) == |file|
            && e.blocksBad == GreedyRejects(p, cfg, file)
  {
    hide SelfAligned, FinalStats, GreedyBlocks, GreedyRead, GreedyRejects, Extents;
    CountersAreGreedy(p, cfg, file, NO_STATS);
  }

  lemma {:induction false} FirstExtent(b: Block, more: seq<Block>)
    ensures Extents([b] + more) == b.extent + Extents(more)
  {
    assert ([b] + more)[1..] == more;
  }

  class LogjetReader {
    const prims: Primitives
    const config: ReaderConfig
    const file: Bytes
    const origin: nat
    var pos: nat
    var stats: Stats
    var pending: seq<Record>
    /** The total extent of the accepted blocks. */
    ghost var accepted: nat

    /** Every byte the reader has moved past is skipped or belongs to an accepted block. */
    ghost predicate Valid()
      reads this
    {
      origin <= pos <= |file| && pos == origin + stats.bytesSkipped + accepted
    }

    /** What the reader will still hand out. */
    ghost function Remaining(): seq<Record>
      requires pos <= |file|
      reads this
    {
      pending + ReadAll(prims, config, file[pos..])
    }

    /** Where the counters will end. */
    ghost function Outlook(): Stats
      requires pos <= |file|
      reads this
    {
      FinalStats(prims, config, file[pos..], stats.(recordsOk := stats.recordsOk + |pending|))
    }

    constructor (prims: Primitives, file: Bytes, start: nat, config: ReaderConfig)
      requires start <= |file|
      ensures Valid() && pos == start && pending == [] && stats == NO_STATS && accepted == 0
      ensures this.prims == prims && this.config == config && this.file == file && this.origin == start
    {
      this.prims := prims;
      this.config := config;
      this.file := file;
      origin := start;
      pos := start;
      stats := NO_STATS;
      pending := [];
      accepted := 0;
    }

    /** Takes the next `n` bytes, or fails at the end of the file. */
    method ReadExact(n: nat) returns (r: Option<Bytes>)
      requires pos <= |file|
      modifies this`pos
      ensures old(pos) <= pos <= |file|
      ensures r.Some? <==> old(pos) + n <= |file|
      ensures r.Some? ==> pos == old(pos) + n && r.value == file[old(pos)..pos]
    {
      if pos + n <= |file| {
        r := Some(file[pos..pos + n]);
        pos := pos + n;
      } else {
        r := None;
        pos := |file|;
      }
    }

    /** Searches for the marker byte by byte and rewinds to it. */
    method FindNextSync() returns (r: Option<nat>)
      requires pos <= |file|
      modifies this`pos
      ensures old(pos) <= pos <= |file|
      ensures Scan(config.marker, file[old(pos)..]).None? ==> r == None && pos == |file|
      ensures Scan(config.marker, file[old(pos)..]).Some? ==>
                r == Some(old(pos) + Scan(config.marker, file[old(pos)..]).value) && pos == r.value
    {
      var start, matched, offset := pos, 0, 0;
      ghost var tail := file[start..];
      while true
        invariant 0 <= matched < |config.marker| && matched <= offset && pos == start + offset <= |file|
        invariant Scan(config.marker, tail) == ScanFrom(config.marker, tail, offset, matched)
        decreases |file| - pos
      {
        if pos == |file| { return None; }
        var candidate := file[pos];
        assert candidate == tail[offset];
        pos := pos + 1;
        if candidate == config.marker[matched] {
          matched := matched + 1;
          if matched == |config.marker| {
            pos := start + offset + 1 - |config.marker|;
            return Some(pos);
          }
        } else {
          matched := if candidate == config.marker[0] then 1 else 0;
        }
        offset := offset + 1;
      }
    }

    /** Reads and validates one block; the position ends just after it on success. */
    method TryReadBlockAt(syncStart: nat) returns (r: Result<seq<Record>, Error>)
      requires syncStart <= |file|
      modifies this`pos, this`stats
      ensures pos <= |file|
      ensures var o := ParseBlock(prims, config, file[syncStart..]);
              && stats == old(stats).(totalCompressed := old(stats).totalCompressed + o.compressed,
                                      totalUncompressed := old(stats).totalUncompressed + o.uncompressed)
              && (match o.result
                  case Ok(b) => r == Ok(b.records) && pos == syncStart + b.extent
                  case Err(e) => r == Err(e))
    {
      hide DecodeHeader, ParseRecords, EncodeWithoutCrc;
      pos := syncStart;
      ghost var b := file[syncStart..];
      var sync := ReadExact(8);
      if sync.None? { return Err(UnexpectedEof); }
      assert sync.value == b[..8];
      if sync.value != config.marker { return Err(InvalidHeader); }

      var fixed := ReadExact(FIXED_LEN);
      if fixed.None? { return Err(UnexpectedEof); }
      assert fixed.value == b[8..8 + FIXED_LEN];
      var decoded := DecodeHeader(fixed.value);
      if decoded.Err? { return Err(decoded.error); }
      var header := decoded.value;
      if header.headerLen < TOTAL_LEN { return Err(HeaderTooShort); }
      if header.compressedLen > config.maxCompressed { return Err(LengthTooLarge); }
      if header.uncompressedLen > config.maxUncompressed { return Err(LengthTooLarge); }
      r := ReadRest(syncStart, fixed.value, header);
    }

    /** The part of `TryReadBlockAt` after the fixed header. */
    method ReadRest(syncStart: nat, fixed: Bytes, header: BlockHeader) returns (r: Result<seq<Record>, Error>)
      requires syncStart + 8 + FIXED_LEN == pos <= |file| && header.headerLen >= TOTAL_LEN
      requires fixed == file[syncStart + 8..pos]
      modifies this`pos, this`stats
      ensures pos <= |file|
      ensures var o := ParseTail(prims, file[syncStart..], header);
              && stats == old(stats).(totalCompressed := old(stats).totalCompressed + o.compressed,
                                      totalUncompressed := old(stats).totalUncompressed + o.uncompressed)
              && (match o.result
                  case Ok(b) => r == Ok(b.records) && pos == syncStart + b.extent
                  case Err(e) => r == Err(e))
    {
      hide ParseRecords, EncodeWithoutCrc, Field32, DecodeExt;
      ghost var b := file[syncStart..];
      ghost var body, end := 8 + header.headerLen, 8 + header.headerLen + header.compressedLen;
      var ext := ReadExact(header.headerLen - FIXED_LEN);
      if ext.None? { return Err(UnexpectedEof); }
      assert ext.value == b[8 + FIXED_LEN..body];
      if prims.crc32c(EncodeWithoutCrc(header) + ext.value) != header.headerCrc { return Err(HeaderCrcMismatch); }

      var compressed := ReadExact(header.compressedLen);
      if compressed.None? { return Err(UnexpectedEof); }
      var crc := ReadExact(4);
      if crc.None? { return Err(UnexpectedEof); }
      assert compressed.value == b[body..end] && crc.value == b[end..end + 4];
      assert fixed == b[8..8 + FIXED_LEN];
      assert b[8..end] == b[8..8 + FIXED_LEN] + b[8 + FIXED_LEN..body] + b[body..end];
      FieldAlone(b, end);
      if prims.crc32c(fixed + ext.value + compressed.value) != Field32(crc.value, 0) { return Err(BlockCrcMismatch); }

      stats := stats.(totalCompressed := stats.totalCompressed + header.compressedLen,
                      totalUncompressed := stats.totalUncompressed + header.uncompressedLen);
      var payload := prims.Decompress(header.codec, compressed.value, header.uncompressedLen);
      if payload.Err? { return Err(payload.error); }
      r := ReadRecords(payload.value, header.recordCount, DecodeExt(ext.value));
    }

    /** Moves past the next block the search leads to, or to the end of the file. */
    method ScanNextBlock() returns (found: bool)
      requires Valid()
      modifies this
      ensures Valid()
      ensures var h := NextBlock(prims, config, file[old(pos)..], 0, NOTHING);
              && found == h.Found?
              && stats == AfterScan(old(stats), h, |file| - old(pos))
              && (match h
                  case Found(at, b, _) =>
                    pos == old(pos) + at + b.extent && pending == old(pending) + b.records
                        && accepted == old(accepted) + b.extent
                  case Exhausted(_) => pos == |file| && pending == old(pending) && accepted == old(accepted))
    {
      hide ParseBlock, Scan, NextBlock;
      var scanOrigin := pos;
      ghost var rest := file[pos..];
      ghost var from, t := 0, NOTHING;
      while true
        invariant from <= |rest| && pos == scanOrigin + from
        invariant NextBlock(prims, config, rest, 0, NOTHING) == NextBlock(prims, config, rest, from, t)
        invariant stats == old(stats).(blocksBad := old(stats).blocksBad + t.bad,
                                       totalCompressed := old(stats).totalCompressed + t.compressed,
                                       totalUncompressed := old(stats).totalUncompressed + t.uncompressed)
        invariant pending == old(pending) && accepted == old(accepted)
        decreases |rest| - from
      {
        TailOf(file, scanOrigin, from);
        SearchStep(prims, config, rest, from, t);
        var sync := FindNextSync();
        if sync.None? {
          stats := stats.(bytesSkipped := stats.bytesSkipped + (|file| - scanOrigin));
          return false;
        }
        ghost var at := sync.value - scanOrigin;
        TailOf(file, scanOrigin, at);
        assert rest[at..] == file[sync.value..];
        ghost var o := ParseBlock(prims, config, rest[at..]);
        var block := TryReadBlockAt(sync.value);
        if block.Ok? {
          stats := stats.(blocksOk := stats.blocksOk + 1,
                          bytesSkipped := stats.bytesSkipped + (sync.value - scanOrigin));
          pending := pending + block.value;
          accepted := accepted + o.result.value.extent;
          return true;
        }
        stats := stats.(blocksBad := stats.blocksBad + 1);
        pos := sync.value + 1;
        from := at + 1;
        t := Count(t, o);
      }
    }

    /** Hands out the next record; the records still to come and the final counters are never disturbed. */
    method NextRecord() returns (r: Option<Record>)
      requires Valid()
      modifies this
      ensures Valid() && pos <= |file|
      ensures r.None? ==> old(Remaining()) == [] && pos == |file| && pending == []
      ensures r.Some? ==> old(Remaining()) == [r.value] + Remaining()
      ensures Outlook() == old(Outlook())
      ensures r.None? ==> stats == old(Outlook())
    {
      hide NextBlock, AfterScan;
      while true
        invariant Valid() && Remaining() == old(Remaining()) && Outlook() == old(Outlook())
        decreases |file| - pos
      {
        if pending != [] {
          r := Some(pending[0]);
          pending := pending[1..];
          stats := stats.(recordsOk := stats.recordsOk + 1);
          return;
        }
        ghost var from := pos;
        var found := ScanNextBlock();
        ghost var h := NextBlock(prims, config, file[from..], 0, NOTHING);
        if !found {
          assert file[pos..] == [];
          NothingLeft(prims, config, stats);
          return None;
        }
        TailOf(file, from, h.at + h.block.extent);
      }
    }
  }

  /** The loop every consumer of a file runs. */
  method ReadToEnd(prims: Primitives, config: ReaderConfig, file: Bytes) returns (records: seq<Record>, stats: Stats)
    ensures records == ReadAll(prims, config, file)
    ensures stats == FinalStats(prims, config, file, NO_STATS)
    ensures SelfAligned(config.marker) ==> records == GreedyRead(prims, config, file)
    ensures SelfAligned(config.marker) ==>
              && stats.blocksBad == GreedyRejects(prims, config, file)
              && stats.blocksOk == |GreedyBlocks(prims, config, file)| && stats.recordsOk == |records|
              && stats.bytesSkipped + Extents(GreedyBlocks(prims, config, file)) == |file|
  {
    hide *;
    var reader := new LogjetReader(prims, file, 0, config);
    records := [];
    ReadsWhole(reader);
    while true
      invariant fresh(reader) && reader.Valid() && reader.prims == prims && reader.config == config
                && reader.file == file
      invariant reader.pos <= |file| && records + reader.Remaining() == ReadAll(prims, config, file)
      invariant reader.Outlook() == FinalStats(prims, config, file, NO_STATS)
      decreases |reader.Remaining()|
    {
      ghost var before := reader.Remaining();
      var r := reader.NextRecord();
      if r.None? {
        assert records + before == records;
        break;
      }
      assert records + before == records + [r.value] + reader.Remaining();
      records := records + [r.value];
    }
    stats := reader.stats;
    if SelfAligned(config.marker) {
      ReadAllIsGreedy(prims, config, file);
      CountersFromZero(prims, config, file);
    }
  }

  lemma {:induction false} ReadsWhole(reader: LogjetReader)
    requires reader.pos == 0 && reader.pending == [] && reader.stats == NO_STATS
    ensures reader.Remaining() == ReadAll(reader.prims, reader.config, reader.file)
    ensures reader.Outlook() == FinalStats(reader.prims, reader.config, reader.file, NO_STATS)
  {
    hide ReadAll, FinalStats;
    assert reader.file[0..] == reader.file;
    assert reader.pending + ReadAll(reader.prims, reader.config, reader.file)
           == ReadAll(reader.prims, reader.config, reader.file);
  }
}
