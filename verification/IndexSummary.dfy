/** Sidecar summaries of blocks and files, and what they may prune. */
module IndexSummary {
  import opened Prelude
  import opened Encoding
  import opened BlockFormat

  const SUMMARY_LIMIT := 16

  // ----- capped value sets

  /** Distinct values up to a limit; once the limit is passed the set is no longer complete. */
  datatype Capped = Capped(values: set<string>, complete: bool)

  const NO_VALUES := Capped({}, true)

  /** The flag says whether at most 16 distinct values were seen, and then the set is exactly those. */
  ghost predicate Tracks(c: Capped, seen: set<string>) {
    (c.complete <==> |seen| <= SUMMARY_LIMIT) && (c.complete ==> c.values == seen)
  }

  function InsertCapped(c: Capped, v: string): Capped {
    if !c.complete then c
    else if |c.values| >= SUMMARY_LIMIT && v !in c.values then c.(complete := false)
    else c.(values := c.values + {v})
  }

  /** One after the other; an overflow stops all further change. */
  function InsertAll(c: Capped, vs: seq<string>): Capped
    decreases |vs|
  {
    if vs == [] then c else InsertAll(InsertCapped(c, vs[0]), vs[1..])
  }

  /** Merging a block's values, listed in any order. */
  function MergeSet(c: Capped, values: seq<string>, valuesComplete: bool): Capped {
    if !c.complete then c else if !valuesComplete then c.(complete := false) else InsertAll(c, values)
  }

  lemma {:induction false} UnionAtLeast(a: set<string>, b: set<string>)
    ensures |a| <= |a + b|
  {
    assert a + b == a + (b - a);
  }

  lemma {:induction false} InsertTracks(c: Capped, seen: set<string>, v: string)
    requires Tracks(c, seen)
    ensures Tracks(InsertCapped(c, v), seen + {v})
  {
    UnionAtLeast(seen, {v});
    if v in seen { assert seen + {v} == seen; }
  }

  lemma {:induction false} InsertAllTracks(c: Capped, seen: set<string>, vs: seq<string>)
    requires Tracks(c, seen)
    ensures Tracks(InsertAll(c, vs), seen + Elements(vs))
    decreases |vs|
  {
    hide InsertCapped, Tracks;
    if vs == [] {
      assert seen + Elements(vs) == seen;
    } else {
      InsertTracks(c, seen, vs[0]);
      InsertAllTracks(InsertCapped(c, vs[0]), seen + {vs[0]}, vs[1..]);
      assert Elements(vs) == {vs[0]} + Elements(vs[1..]);
      assert seen + {vs[0]} + Elements(vs[1..]) == seen + Elements(vs);
    }
  }

  /** Merging two faithful summaries gives a faithful summary of everything either has seen. */
  lemma {:induction false} MergeTracks(c: Capped, seen: set<string>, block: Capped, values: seq<string>,
                                       blockSeen: set<string>)
    requires Tracks(c, seen) && Tracks(block, blockSeen) && Elements(values) == block.values
    ensures Tracks(MergeSet(c, values, block.complete), seen + blockSeen)
  {
    UnionAtLeast(seen, blockSeen);
    UnionAtLeast(blockSeen, seen);
    assert seen + blockSeen == blockSeen + seen;
    if c.complete && block.complete { InsertAllTracks(c, seen, values); }
  }

  /** The merging loop, with its early return. */
  method MergeInto(c: Capped, values: seq<string>, valuesComplete: bool) returns (r: Capped)
    ensures r == MergeSet(c, values, valuesComplete)
  {
    if !c.complete { return c; }
    if !valuesComplete { return c.(complete := false); }
    r := c;
    for i := 0 to |values|
      invariant InsertAll(c, values) == InsertAll(r, values[i..]) && r.complete
    {
      assert values[i..][1..] == values[i + 1..];
      if |r.values| >= SUMMARY_LIMIT && values[i] !in r.values {
        r := r.(complete := false);
        InsertAllStuck(r, values[i + 1..]);
        return;
      }
      r := r.(values := r.values + {values[i]});
    }
  }

  lemma {:induction false} InsertAllStuck(c: Capped, vs: seq<string>)
    requires !c.complete
    ensures InsertAll(c, vs) == c
  {
    if vs != [] { InsertAllStuck(c, vs[1..]); }
  }

  // ----- decoded log payloads

  /** The service.name attributes of one resource, in order (none where the value is not a string), and the
      severity texts of its log records. */
  datatype ResourceLogs = ResourceLogs(serviceNames: seq<Option<string>>, severities: seq<string>)

  type Decoder = Bytes -> Option<seq<ResourceLogs>>

  function NamesIn(names: seq<Option<string>>): set<string> {
    set n | n in names && n.Some? :: n.value
  }

  function ServicesOf(batch: seq<ResourceLogs>): set<string> {
    set rl, s | rl in batch && s in NamesIn(rl.serviceNames) :: s
  }

  function SeveritiesOf(batch: seq<ResourceLogs>): set<string> {
    set rl, s | rl in batch && s in rl.severities && s != "" :: s
  }

  /** What a record contributes to the service summary: only log records that decode. */
  function RecordServices(d: Decoder, r: Record): set<string> {
    if r.kind.Logs? && d(r.payload).Some? then ServicesOf(d(r.payload).value) else {}
  }

  function RecordSeverities(d: Decoder, r: Record): set<string> {
    if r.kind.Logs? && d(r.payload).Some? then SeveritiesOf(d(r.payload).value) else {}
  }

  function AllServices(d: Decoder, rs: seq<Record>): set<string> {
    set r, s | r in rs && s in RecordServices(d, r) :: s
  }

  function AllSeverities(d: Decoder, rs: seq<Record>): set<string> {
    set r, s | r in rs && s in RecordSeverities(d, r) :: s
  }

  // ----- summaries

  datatype Summary = Summary(
    firstSeq: Option<u64>, lastSeq: Option<u64>, firstTs: Option<u64>, lastTs: Option<u64>,
    types: set<RecordType>, services: Capped, severities: Capped)

  const EMPTY_SUMMARY := Summary(None, None, None, None, {}, NO_VALUES, NO_VALUES)

  /** The summary of exactly these records, in this order. */
  ghost predicate Describes(d: Decoder, s: Summary, rs: seq<Record>) {
    && s.types == (set r | r in rs :: r.kind)
    && Tracks(s.services, AllServices(d, rs)) && Tracks(s.severities, AllSeverities(d, rs))
    && EndsOf(s, rs)
  }

  predicate EndsOf(s: Summary, rs: seq<Record>) {
    if rs == [] then s.firstSeq.None? && s.lastSeq.None? && s.firstTs.None? && s.lastTs.None?
    else
      var last := rs[|rs| - 1];
      s.firstSeq == Some(rs[0].seqno) && s.lastSeq == Some(last.seqno) && s.firstTs == Some(rs[0].ts)
          && s.lastTs == Some(last.ts)
  }

  function OrElse<T>(a: Option<T>, b: Option<T>): Option<T> { if a.Some? then a else b }

  /** Lists a set; the order does not matter to any caller. */
  method ListOf(s: set<string>) returns (vs: seq<string>)
    ensures Elements(vs) == s
  {
    vs := [];
    var left := s;
    while left != {}
      invariant left <= s && Elements(vs) == s - left
      decreases left
    {
      var v :| v in left;
      assert Elements(vs + [v]) == Elements(vs) + {v};
      vs := vs + [v];
      left := left - {v};
    }
  }

  class SummaryBuilder {
    const decode: Decoder
    var summary: Summary
    /** The records summarised so far. */
    ghost var seen: seq<Record>

    ghost predicate Valid()
      reads this
    {
      Describes(decode, summary, seen)
    }

    constructor (decode: Decoder)
      ensures Valid() && seen == [] && this.decode == decode
    {
      this.decode := decode;
      summary := EMPTY_SUMMARY;
      seen := [];
    }

    method Push(r: Record)
      requires Valid()
      modifies this
      ensures Valid() && seen == old(seen) + [r]
    {
      hide Tracks, EndsOf;
      var services, severities := Collect(decode, r, summary.services, AllServices(decode, seen),
                                          summary.severities, AllSeverities(decode, seen));
      AddRecord(decode, summary, seen, r, services, severities);
      summary := Summary(OrElse(summary.firstSeq, Some(r.seqno)), Some(r.seqno), OrElse(summary.firstTs, Some(r.ts)),
                         Some(r.ts),
                         summary.types + {r.kind}, services, severities);
      seen := seen + [r];
    }

    /** Adds a whole block's summary. */
    method Merge(block: Summary, ghost records: seq<Record>)
      requires Valid() && Describes(decode, block, records)
      modifies this
      ensures Valid() && seen == old(seen) + records
    {
      hide Tracks, EndsOf, MergeSet;
      var listedServices := ListOf(block.services.values);
      var listedSeverities := ListOf(block.severities.values);
      var services := MergeInto(summary.services, listedServices, block.services.complete);
      var severities := MergeInto(summary.severities, listedSeverities, block.severities.complete);
      MergeTracks(summary.services, AllServices(decode, seen), block.services, listedServices,
                  AllServices(decode, records));
      MergeTracks(summary.severities, AllSeverities(decode, seen), block.severities, listedSeverities,
                  AllSeverities(decode, records));
      AddBlock(decode, summary, seen, block, records, services, severities);
      summary := Summary(OrElse(summary.firstSeq, block.firstSeq), OrElse(block.lastSeq, summary.lastSeq),
                         OrElse(summary.firstTs, block.firstTs), OrElse(block.lastTs, summary.lastTs),
                         summary.types + block.types, services, severities);
      seen := seen + records;
    }
  }

  /** Collects the service names and severities of one record, in the order the payload lists them. */
  method Collect(d: Decoder, r: Record, services: Capped, ghost seenServices: set<string>, severities: Capped,
                 ghost seenSeverities: set<string>) returns (s: Capped, v: Capped)
    requires Tracks(services, seenServices) && Tracks(severities, seenSeverities)
    ensures Tracks(s, seenServices + RecordServices(d, r))
    ensures Tracks(v, seenSeverities + RecordSeverities(d, r))
  {
    hide Tracks;
    s, v := services, severities;
    assert seenServices + {} == seenServices && seenSeverities + {} == seenSeverities;
    if !r.kind.Logs? { return; }
    var batch := d(r.payload);
    if batch.None? { return; }
    ghost var a, b := seenServices, seenSeverities;
    for i := 0 to |batch.value|
      invariant a == seenServices + ServicesOf(batch.value[..i]) && Tracks(s, a)
      invariant b == seenSeverities + SeveritiesOf(batch.value[..i]) && Tracks(v, b)
    {
      var rl := batch.value[i];
      s := CollectNames(rl.serviceNames, s, a);
      v := CollectTexts(rl.severities, v, b);
      a, b := a + NamesIn(rl.serviceNames), b + TextsIn(rl.severities);
      OneMore(batch.value, i);
    }
    assert batch.value[..|batch.value|] == batch.value;
  }

  function TextsIn(texts: seq<string>): set<string> { set t | t in texts && t != "" }

  lemma {:induction false} OneMore(batch: seq<ResourceLogs>, i: nat)
    requires i < |batch|
    ensures ServicesOf(batch[..i + 1]) == ServicesOf(batch[..i]) + NamesIn(batch[i].serviceNames)
    ensures SeveritiesOf(batch[..i + 1]) == SeveritiesOf(batch[..i]) + TextsIn(batch[i].severities)
  {
    hide NamesIn;
    assert batch[..i + 1] == batch[..i] + [batch[i]];
  }

  method CollectNames(names: seq<Option<string>>, c: Capped, ghost seen: set<string>) returns (r: Capped)
    requires Tracks(c, seen)
    ensures Tracks(r, seen + NamesIn(names))
  {
    hide Tracks;
    r := c;
    ghost var a := seen;
    for i := 0 to |names|
      invariant a == seen + NamesIn(names[..i]) && Tracks(r, a)
    {
      assert names[..i + 1] == names[..i] + [names[i]];
      if names[i].Some? {
        InsertTracks(r, a, names[i].value);
        r := InsertCapped(r, names[i].value);
        a := a + {names[i].value};
      }
    }
    assert names[..|names|] == names;
  }

  method CollectTexts(texts: seq<string>, c: Capped, ghost seen: set<string>) returns (r: Capped)
    requires Tracks(c, seen)
    ensures Tracks(r, seen + TextsIn(texts))
  {
    hide Tracks;
    r := c;
    ghost var a := seen;
    for i := 0 to |texts|
      invariant a == seen + TextsIn(texts[..i]) && Tracks(r, a)
    {
      assert texts[..i + 1] == texts[..i] + [texts[i]];
      if texts[i] != "" {
        InsertTracks(r, a, texts[i]);
        r := InsertCapped(r, texts[i]);
        a := a + {texts[i]};
      }
    }
    assert texts[..|texts|] == texts;
  }

  lemma {:induction false} AddRecord(d: Decoder, s: Summary, rs: seq<Record>, r: Record, services: Capped,
                                     severities: Capped)
    requires Describes(d, s, rs)
    requires Tracks(services, AllServices(d, rs) + RecordServices(d, r))
    requires Tracks(severities, AllSeverities(d, rs) + RecordSeverities(d, r))
    ensures Describes(d,
              Summary(OrElse(s.firstSeq, Some(r.seqno)), Some(r.seqno), OrElse(s.firstTs, Some(r.ts)), Some(r.ts),
                                 s.types + {r.kind}, services, severities), rs + [r])
  {
    hide Tracks, RecordServices, RecordSeverities;
    assert AllServices(d, rs + [r]) == AllServices(d, rs) + RecordServices(d, r);
    assert AllSeverities(d, rs + [r]) == AllSeverities(d, rs) + RecordSeverities(d, r);
    assert (set x | x in rs + [r] :: x.kind) == (set x | x in rs :: x.kind) + {r.kind};
  }

  lemma {:induction false} AddBlock(d: Decoder, s: Summary, rs: seq<Record>, b: Summary, more: seq<Record>,
                                    services: Capped, severities: Capped)
    requires Describes(d, s, rs) && Describes(d, b, more)
    requires Tracks(services, AllServices(d, rs) + AllServices(d, more))
    requires Tracks(severities, AllSeverities(d, rs) + AllSeverities(d, more))
    ensures Describes(d,
              Summary(OrElse(s.firstSeq, b.firstSeq), OrElse(b.lastSeq, s.lastSeq), OrElse(s.firstTs, b.firstTs),
                                 OrElse(b.lastTs, s.lastTs), s.types + b.types, services, severities), rs + more)
  {
    hide Tracks, RecordServices, RecordSeverities;
    assert AllServices(d, rs + more) == AllServices(d, rs) + AllServices(d, more);
    assert AllSeverities(d, rs + more) == AllSeverities(d, rs) + AllSeverities(d, more);
    assert (set x | x in rs + more :: x.kind) == (set x | x in rs :: x.kind) + (set x | x in more :: x.kind);
    if more == [] { assert rs + more == rs; }
  }
}
