/** Scanning a file through its index against scanning it with the reader. */
module IndexedScan {
  import opened Prelude
  import opened Encoding
  import opened BlockFormat
  import opened BlockParser
  import opened BlockReader
  import opened BlockWriter
  import opened RoundTrip
  import opened IndexSummary
  import opened IndexPruning
  import opened IndexBuild
  import opened SyncMarker

  /** The records a query selects. */
  function Select(d: Decoder, q: RecordPredicate, rs: seq<Record>): seq<Record> {
    if rs == [] then [] else (if Matches(d, q, rs[0]) then [rs[0]] else []) + Select(d, q, rs[1..])
  }

  lemma {:induction false} SelectConcat(d: Decoder, q: RecordPredicate, a: seq<Record>, b: seq<Record>)
    ensures Select(d, q, a + b) == Select(d, q, a) + Select(d, q, b)
  {
    hide Matches;
    if a == [] {
      assert a + b == b;
    } else {
      SelectConcat(d, q, a[1..], b);
      assert (a + b)[1..] == a[1..] + b;
      var head: seq<Record> := if Matches(d, q, a[0]) then [a[0]] else [];
      assert head + (Select(d, q, a[1..]) + Select(d, q, b)) == head + Select(d, q, a[1..]) + Select(d, q, b);
    }
  }

  lemma {:induction false} SelectNone(d: Decoder, q: RecordPredicate, rs: seq<Record>)
    requires forall r :: r in rs ==> !Matches(d, q, r)
    ensures Select(d, q, rs) == []
  {
    hide Matches;
    if rs != [] { SelectNone(d, q, rs[1..]); }
  }

  /** Reading an indexed block again: the marker is read over, not compared. */
  function RecordsAt(p: Primitives, file: Bytes, offset: nat): Result<seq<Record>, Fault> {
    if |file| < offset + 8 then Err(Failed)
    else
      var body := IndexBody(p, file[offset..]);
      if body.Err? then Err(body.error) else Ok(body.value.0)
  }

  /** The block that was indexed at an entry's offset is still there to be read. */
  predicate EntryReadable(p: Primitives, file: Bytes, e: Entry) { RecordsAt(p, file, e.offset) == Ok(e.records) }

  lemma {:induction false} IndexedIsReadable(p: Primitives, file: Bytes, offset: nat)
    requires offset <= |file| && IndexBlock(p, file[offset..]).Ok? && IndexBlock(p, file[offset..]).value.Some?
    ensures RecordsAt(p, file, offset) == Ok(IndexBlock(p, file[offset..]).value.value.0)
  {
    hide IndexBody;
  }

  lemma {:induction false} EntriesReadable(p: Primitives, file: Bytes, offset: nat)
    requires offset <= |file| && IndexFrom(p, file, offset).Ok?
    ensures forall e :: e in IndexFrom(p, file, offset).value ==> EntryReadable(p, file, e)
    decreases |file| - offset
  {
    hide IndexBlock, Scan, MarkerAt, RecordsAt;
    if offset < |file| {
      var rest := file[offset..];
      var b := IndexBlock(p, rest);
      if b.value.Some? {
        IndexedIsReadable(p, file, offset);
        EntriesReadable(p, file, offset + b.value.value.1);
      } else {
        Resync(rest);
        var next := Scan(DEFAULT_SYNC_MARKER, rest);
        if next.Some? { EntriesReadable(p, file, offset + next.value); }
      }
    }
  }

  /** Skipping on any of the index's answers for this query loses no match. */
  ghost predicate SoundIndex(d: Decoder, index: DatasetIndex, es: seq<Entry>, q: RecordPredicate)
    requires |index.blocks| == |es|
  {
    && Sound(d, index.summary, RecordsIn(es), q)
    && forall i :: 0 <= i < |es| ==> Sound(d, index.blocks[i].summary, es[i].records, q)
  }

  method AppendMatches(d: Decoder, q: RecordPredicate, rs: seq<Record>, before: seq<Record>) returns (out: seq<Record>)
    ensures out == before + Select(d, q, rs)
  {
    hide Matches;
    out := before;
    for i := 0 to |rs|
      invariant out + Select(d, q, rs[i..]) == before + Select(d, q, rs)
    {
      assert rs[i..][1..] == rs[i + 1..];
      if Matches(d, q, rs[i]) { out := out + [rs[i]]; }
    }
    assert out + [] == out;
  }

  /** The index was built from this file. */
  ghost predicate IndexOf(p: Primitives, d: Decoder, file: Bytes, index: DatasetIndex, es: seq<Entry>) {
    IndexFrom(p, file, 0) == Ok(es) && Covers(d, index, es)
  }

  lemma {:induction false} IndexOfFacts(p: Primitives, d: Decoder, file: Bytes, index: DatasetIndex, es: seq<Entry>)
    requires IndexOf(p, d, file, index, es)
    ensures |index.blocks| == |es|
    ensures forall i :: 0 <= i < |es| ==> RecordsAt(p, file, index.blocks[i].offset) == Ok(es[i].records)
  {
    hide IndexFrom, RecordsAt, Describes;
    EntriesReadable(p, file, 0);
    forall i | 0 <= i < |es| ensures RecordsAt(p, file, index.blocks[i].offset) == Ok(es[i].records) {
      assert es[i] in es && EntryReadable(p, file, es[i]);
    }
  }

  /** The matches of the first `i` blocks. */
  ghost predicate MatchedSoFar(d: Decoder, q: RecordPredicate, index: DatasetIndex, es: seq<Entry>, i: nat,
                               matched: seq<Record>) {
    |index.blocks| == |es| && (SoundIndex(d, index, es, q) && i <= |es| ==> matched == Select(d, q, RecordsIn(es[..i])))
  }

  lemma {:induction false} MatchedNext(d: Decoder, q: RecordPredicate, index: DatasetIndex, es: seq<Entry>, i: nat,
                                       matched: seq<Record>)
    requires MatchedSoFar(d, q, index, es, i, matched) && i < |es|
    ensures MatchedSoFar(d, q, index, es, i + 1, matched + Select(d, q, es[i].records))
    ensures !MayMatch(index.blocks[i].summary, q) ==> MatchedSoFar(d, q, index, es, i + 1, matched)
  {
    hide Matches, MayMatch, Select, RecordsIn;
    assert es[..i + 1] == es[..i] + [es[i]];
    RecordsInAppend(es[..i], es[i]);
    SelectConcat(d, q, RecordsIn(es[..i]), es[i].records);
    if SoundIndex(d, index, es, q) && !MayMatch(index.blocks[i].summary, q) {
      SelectNone(d, q, es[i].records);
      assert matched + [] == matched;
    }
  }

  lemma {:induction false} MatchedAll(d: Decoder, q: RecordPredicate, index: DatasetIndex, es: seq<Entry>)
    requires |index.blocks| == |es|
    ensures MatchedSoFar(d, q, index, es, 0, [])
    ensures forall matched :: MatchedSoFar(d, q, index, es, |es|, matched) && SoundIndex(d, index, es, q)
                              ==> matched == Select(d, q, RecordsIn(es))
    ensures SoundIndex(d, index, es, q) && !MayMatch(index.summary, q) ==> Select(d, q, RecordsIn(es)) == []
  {
    hide Matches, MayMatch;
    assert es[..|es|] == es && es[..0] == [];
    if SoundIndex(d, index, es, q) && !MayMatch(index.summary, q) { SelectNone(d, q, RecordsIn(es)); }
  }

  /** Of the first `n` blocks, those the index does not exclude. */
  function Kept(blocks: seq<IndexedBlock>, es: seq<Entry>, q: RecordPredicate, n: nat): seq<Entry>
    requires n <= |blocks| == |es|
  {
    if n == 0 then [] else Kept(blocks, es, q, n - 1) + (if MayMatch(blocks[n - 1].summary, q) then [es[n - 1]] else [])
  }

  lemma {:induction false} KeptNext(d: Decoder, blocks: seq<IndexedBlock>, es: seq<Entry>, q: RecordPredicate, n: nat)
    requires n < |blocks| == |es|
    ensures Select(d, q, RecordsIn(Kept(blocks, es, q, n + 1)))
         == Select(d, q, RecordsIn(Kept(blocks, es, q, n)))
            + (if MayMatch(blocks[n].summary, q) then Select(d, q, es[n].records) else [])
  {
    hide Matches, MayMatch, Select, RecordsIn;
    var before := Kept(blocks, es, q, n);
    if MayMatch(blocks[n].summary, q) {
      RecordsInAppend(before, es[n]);
      SelectConcat(d, q, RecordsIn(before), es[n].records);
    } else {
      assert before + [] == before;
      assert Select(d, q, RecordsIn(before)) + [] == Select(d, q, RecordsIn(before));
    }
  }

  lemma {:induction false} KeptNone(d: Decoder, blocks: seq<IndexedBlock>, es: seq<Entry>, q: RecordPredicate)
    requires |blocks| == |es|
    ensures Select(d, q, RecordsIn(Kept(blocks, es, q, 0))) == []
  {}

  /** Skips the file or single blocks on the index's word and reads the rest again at the indexed offsets. With the
      file's own index, and no skip unsound for this query, the matches are exactly those of all indexed records. */
  method ScanWithIndex(p: Primitives, d: Decoder, file: Bytes, index: DatasetIndex, q: RecordPredicate,
                       ghost es: seq<Entry>)
    returns (r: Result<seq<Record>, Fault>)
    ensures IndexOf(p, d, file, index, es) ==> r.Ok? && |index.blocks| == |es|
    ensures IndexOf(p, d, file, index, es) && |index.blocks| == |es| && r.Ok? ==>
              r.value == if MayMatch(index.summary, q) then Select(d, q, RecordsIn(Kept(index.blocks, es, q, |es|)))
                         else []
    ensures IndexOf(p, d, file, index, es) && SoundIndex(d, index, es, q) ==>
              r.Ok? && r.value == Select(d, q, RecordsIn(es))
  {
    hide Matches, MayMatch, Select, RecordsAt, IndexOf, SoundIndex, MatchedSoFar, Kept, RecordsIn;
    if IndexOf(p, d, file, index, es) {
      IndexOfFacts(p, d, file, index, es);
      MatchedAll(d, q, index, es);
      KeptNone(d, index.blocks, es, q);
    }
    if !MayMatch(index.summary, q) { return Ok([]); }
    var matched: seq<Record> := [];
    for i := 0 to |index.blocks|
      invariant IndexOf(p, d, file, index, es) ==> MatchedSoFar(d, q, index, es, i, matched)
      invariant IndexOf(p, d, file, index, es) ==> matched == Select(d, q, RecordsIn(Kept(index.blocks, es, q, i)))
    {
      if IndexOf(p, d, file, index, es) {
        MatchedNext(d, q, index, es, i, matched);
        KeptNext(d, index.blocks, es, q, i);
        assert matched + [] == matched;
      }
      if !MayMatch(index.blocks[i].summary, q) { continue; }
      var records := RecordsAt(p, file, index.blocks[i].offset);
      if records.Err? { return Err(records.error); }
      matched := AppendMatches(d, q, records.value, matched);
    }
    r := Ok(matched);
  }

  lemma {:induction false} ImageRecords(p: Primitives, cfg: WriterConfig, blocks: seq<seq<Record>>, offset: nat)
    requires forall b :: b in blocks ==> Flushable(p, cfg.codec, b)
    ensures RecordsIn(ImageEntries(p, cfg, blocks, offset)) == Flatten(blocks)
    ensures |ImageEntries(p, cfg, blocks, offset)| == |blocks|
    ensures forall i :: 0 <= i < |blocks| ==> ImageEntries(p, cfg, blocks, offset)[i].records == blocks[i]
    decreases |blocks|
  {
    hide Flushable, PrintedLen, BlockBytes;
    if blocks != [] {
      var next := offset + |BlockBytes(p, cfg, blocks[0])|;
      ImageRecords(p, cfg, blocks[1..], next);
      var es := ImageEntries(p, cfg, blocks, offset);
      assert es[1..] == ImageEntries(p, cfg, blocks[1..], next);
    }
  }

  lemma {:induction false} PartOrdered(blocks: seq<seq<Record>>, i: nat)
    requires i < |blocks| && NonDecreasing(Flatten(blocks))
    ensures NonDecreasing(blocks[i])
    decreases i
  {
    var all := Flatten(blocks);
    assert all == blocks[0] + Flatten(blocks[1..]);
    if i == 0 {
      assert forall k :: 0 <= k < |blocks[0]| ==> blocks[0][k] == all[k];
    } else {
      var rest := Flatten(blocks[1..]);
      assert forall k :: 0 <= k < |rest| ==> rest[k] == all[|blocks[0]| + k];
      PartOrdered(blocks[1..], i - 1);
    }
  }

  /** On ordered records every range query may trust the index, for blocks and for the whole file. */
  lemma {:induction false} OrderedIndexIsSound(d: Decoder, index: DatasetIndex, es: seq<Entry>, q: RecordPredicate)
    requires Covers(d, index, es) && q.services.None? && q.severities.None?
    requires NonDecreasing(RecordsIn(es))
    requires forall i :: 0 <= i < |es| ==> NonDecreasing(es[i].records)
    ensures SoundIndex(d, index, es, q)
  {
    hide Describes, Sound, NonDecreasing;
    NonDecreasingIsBracketed(RecordsIn(es));
    BracketedPruning(d, index.summary, RecordsIn(es), q);
    forall i | 0 <= i < |es| ensures Sound(d, index.blocks[i].summary, es[i].records, q) {
      NonDecreasingIsBracketed(es[i].records);
      BracketedPruning(d, index.blocks[i].summary, es[i].records, q);
    }
  }

  /** The blocks of a file the writer produced with the default marker, in order of sequence and time. */
  ghost predicate OrderedFile(p: Primitives, cfg: WriterConfig, rcfg: ReaderConfig, file: Bytes,
                              blocks: seq<seq<Record>>) {
    && Compatible(p, cfg, rcfg, blocks) && cfg.marker == DEFAULT_SYNC_MARKER && rcfg.marker == DEFAULT_SYNC_MARKER
    && file == FileImage(p, cfg, blocks) && NonDecreasing(Flatten(blocks))
  }

  /** Searching a file: build an index and scan through it, or read the whole file where there is none. On a written
      file whose sequence numbers and timestamps never fall, every query by type, sequence and time selects exactly what
      reading the whole file would select. */
  method IndexedSearch(p: Primitives, rcfg: ReaderConfig, d: Decoder, file: Bytes, q: RecordPredicate,
                       ghost cfg: WriterConfig, ghost blocks: seq<seq<Record>>)
    returns (r: Result<seq<Record>, Fault>)
    ensures OrderedFile(p, cfg, rcfg, file, blocks) && q.services.None? && q.severities.None? ==>
              r == Ok(Select(d, q, ReadAll(p, rcfg, file)))
    ensures IndexFrom(p, file, 0) in {Err(Failed), Ok([])} ==> r == Ok(Select(d, q, ReadAll(p, rcfg, file)))
  {
    hide *;
    ghost var es: seq<Entry> := [];
    if OrderedFile(p, cfg, rcfg, file, blocks) { es := WrittenEntries(p, cfg, rcfg, file, blocks); }
    var index := Build(p, d, file);
    if index == Err(Failed) {
      var records, _ := ReadToEnd(p, rcfg, file);
      var matched := AppendMatches(d, q, records, []);
      assert [] + Select(d, q, records) == Select(d, q, records);
      return Ok(matched);
    }
    if index.Err? { return Err(index.error); }
    if OrderedFile(p, cfg, rcfg, file, blocks) {
      IndexOfBuilt(p, d, file, index.value, es);
      if q.services.None? && q.severities.None? { OrderedIndexIsSound(d, index.value, es, q); }
    }
    r := ScanWithIndex(p, d, file, index.value, q, es);
  }

  lemma {:induction false} IndexOfBuilt(p: Primitives, d: Decoder, file: Bytes, index: DatasetIndex, es: seq<Entry>)
    requires IndexFrom(p, file, 0) == Ok(es) && Covers(d, index, es)
    ensures IndexOf(p, d, file, index, es) && |index.blocks| == |es|
  {}

  lemma {:induction false} FileFacts(p: Primitives, cfg: WriterConfig, rcfg: ReaderConfig, file: Bytes,
                                     blocks: seq<seq<Record>>)
    requires OrderedFile(p, cfg, rcfg, file, blocks)
    ensures Compatible(p, cfg, rcfg, blocks) && cfg.marker == DEFAULT_SYNC_MARKER && rcfg.marker == DEFAULT_SYNC_MARKER
    ensures forall b :: b in blocks ==> Flushable(p, cfg.codec, b)
    ensures file == FileImage(p, cfg, blocks) && NonDecreasing(Flatten(blocks))
  {
    hide Flushable, FileImage, NonDecreasing, Flatten, Readable;
  }

  lemma {:induction false} FileRecords(p: Primitives, cfg: WriterConfig, rcfg: ReaderConfig, blocks: seq<seq<Record>>)
    requires Compatible(p, cfg, rcfg, blocks) && forall b :: b in blocks ==> Flushable(p, cfg.codec, b)
    ensures ReadAll(p, rcfg, FileImage(p, cfg, blocks)) == Flatten(blocks)
  {
    hide Compatible, Flushable, FileImage, Flatten, ReadAll, FinalStats, AfterBlocks;
    ReadFileImage(p, cfg, rcfg, blocks, [], NO_STATS);
    NothingLeft(p, rcfg, NO_STATS);
    assert FileImage(p, cfg, blocks) + [] == FileImage(p, cfg, blocks) && Flatten(blocks) + [] == Flatten(blocks);
  }

  /** The entries of a written file and the records in them. */
  lemma {:induction false} WrittenEntries(p: Primitives, cfg: WriterConfig, rcfg: ReaderConfig, file: Bytes,
                                          blocks: seq<seq<Record>>)
    returns (es: seq<Entry>)
    requires OrderedFile(p, cfg, rcfg, file, blocks)
    ensures IndexFrom(p, file, 0) == Ok(es) && |es| == |blocks|
    ensures RecordsIn(es) == ReadAll(p, rcfg, file) && NonDecreasing(RecordsIn(es))
    ensures forall i :: 0 <= i < |es| ==> NonDecreasing(es[i].records)
  {
    hide *;
    FileFacts(p, cfg, rcfg, file, blocks);
    FileRecords(p, cfg, rcfg, blocks);
    assert file[0..] == file;
    IndexFindsImage(p, cfg, rcfg, file, 0, blocks);
    es := ImageEntries(p, cfg, blocks, 0);
    ImageRecords(p, cfg, blocks, 0);
    forall i | 0 <= i < |es| ensures NonDecreasing(es[i].records) { PartOrdered(blocks, i); }
  }
}
