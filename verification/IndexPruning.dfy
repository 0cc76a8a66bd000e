/** Record predicates, and exactly when a summary may be used to skip a block or a file. */
module IndexPruning {
  import opened Prelude
  import opened Encoding
  import opened BlockFormat
  import opened IndexSummary

  /** Filters of a query; `payloadOk` stands for the payload matchers and CEL expressions together. */
  datatype RecordPredicate = RecordPredicate(
    kind: Option<RecordType>, seqMin: Option<u64>, seqMax: Option<u64>, tsMin: Option<u64>, tsMax: Option<u64>,
    payloadOk: (RecordType, Bytes) -> bool, services: Option<set<string>>, severities: Option<set<string>>)

  const ANY := RecordPredicate(None, None, None, None, None, (t, b) => true, None, None)

  /** The service a resource is filtered by: its first service.name attribute, if that is a string. */
  function FilterService(rl: ResourceLogs): Option<string> {
    if rl.serviceNames == [] then None else rl.serviceNames[0]
  }

  predicate ResourceAllowed(q: RecordPredicate, rl: ResourceLogs) {
    && (q.services.Some? && FilterService(rl).Some? ==> FilterService(rl).value in q.services.value)
    && (q.severities.Some? ==> forall v :: v in rl.severities ==> v in q.severities.value)
  }

  /** A payload that does not decode is never filtered out by its fields. */
  predicate FieldsAllowed(d: Decoder, q: RecordPredicate, payload: Bytes) {
    (q.services.None? && q.severities.None?) || d(payload).None?
    || forall rl :: rl in d(payload).value ==> ResourceAllowed(q, rl)
  }

  predicate Matches(d: Decoder, q: RecordPredicate, r: Record) {
    && (q.kind.Some? ==> r.kind == q.kind.value)
    && (q.seqMin.Some? ==> r.seqno >= q.seqMin.value) && (q.seqMax.Some? ==> r.seqno <= q.seqMax.value)
    && (q.tsMin.Some? ==> r.ts >= q.tsMin.value) && (q.tsMax.Some? ==> r.ts <= q.tsMax.value)
    && q.payloadOk(r.kind, r.payload)
    && FieldsAllowed(d, q, r.payload)
  }

  /** The field filter's nested loops with their early exits. */
  method MatchesPayload(d: Decoder, q: RecordPredicate, payload: Bytes) returns (r: bool)
    ensures r == FieldsAllowed(d, q, payload)
  {
    if q.services.None? && q.severities.None? { return true; }
    var batch := d(payload);
    if batch.None? { return true; }
    for i := 0 to |batch.value|
      invariant forall k :: 0 <= k < i ==> ResourceAllowed(q, batch.value[k])
    {
      var rl := batch.value[i];
      var service := FilterService(rl);
      if q.services.Some? && service.Some? && service.value !in q.services.value {
        assert rl in batch.value && !ResourceAllowed(q, rl);
        return false;
      }
      for j := 0 to |rl.severities|
        invariant q.severities.Some? ==> forall k :: 0 <= k < j ==> rl.severities[k] in q.severities.value
      {
        if q.severities.Some? && rl.severities[j] !in q.severities.value {
          assert rl in batch.value && !ResourceAllowed(q, rl);
          return false;
        }
      }
    }
    r := true;
  }

  /** The filter names only values the summary excludes. */
  predicate ExcludedBy(filter: Option<set<string>>, c: Capped) {
    filter.Some? && c.complete && forall v :: v in filter.value ==> v !in c.values
  }

  /** Whether a block or file with this summary still has to be read. */
  predicate MayMatch(s: Summary, q: RecordPredicate) {
    && !(q.kind.Some? && q.kind.value !in s.types)
    && !(q.seqMin.Some? && s.lastSeq.Some? && s.lastSeq.value < q.seqMin.value)
    && !(q.seqMax.Some? && s.firstSeq.Some? && s.firstSeq.value > q.seqMax.value)
    && !(q.tsMin.Some? && s.lastTs.Some? && s.lastTs.value < q.tsMin.value)
    && !(q.tsMax.Some? && s.firstTs.Some? && s.firstTs.value > q.tsMax.value)
    && !ExcludedBy(q.services, s.services)
    && !ExcludedBy(q.severities, s.severities)
  }

  /** Skipping on this answer loses no match. */
  ghost predicate Sound(d: Decoder, s: Summary, rs: seq<Record>, q: RecordPredicate) {
    MayMatch(s, q) || forall r :: r in rs ==> !Matches(d, q, r)
  }

  // ----- type, sequence and time filters

  /** The first record is lowest and the last one highest, in sequence and in time. */
  predicate Bracketed(rs: seq<Record>) {
    forall r :: r in rs ==>
      rs[0].seqno <= r.seqno <= rs[|rs| - 1].seqno && rs[0].ts <= r.ts <= rs[|rs| - 1].ts
  }

  lemma {:induction false} NonDecreasingIsBracketed(rs: seq<Record>)
    requires NonDecreasing(rs)
    ensures Bracketed(rs)
  {
    forall r | r in rs ensures rs[0].seqno <= r.seqno <= rs[|rs| - 1].seqno && rs[0].ts <= r.ts <= rs[|rs| - 1].ts {
      var i :| 0 <= i < |rs| && rs[i] == r;
    }
  }

  lemma {:induction false} BracketedPruning(d: Decoder, s: Summary, rs: seq<Record>, q: RecordPredicate)
    requires Describes(d, s, rs) && Bracketed(rs) && q.services.None? && q.severities.None?
    ensures Sound(d, s, rs, q)
  {}

  /** Pruning by type, sequence and time loses no match, for any query, exactly when the records are bracketed
      by their first and last. */
  lemma {:induction false} RangePruningExactness(d: Decoder, s: Summary, rs: seq<Record>)
    requires Describes(d, s, rs)
    ensures (forall q: RecordPredicate :: q.services.None? && q.severities.None? ==> Sound(d, s, rs, q))
            <==> Bracketed(rs)
  {
    if Bracketed(rs) {
      forall q: RecordPredicate | q.services.None? && q.severities.None? ensures Sound(d, s, rs, q) {
        BracketedPruning(d, s, rs, q);
      }
    } else {
      var r :| r in rs && !(rs[0].seqno <= r.seqno <= rs[|rs| - 1].seqno && rs[0].ts <= r.ts <= rs[|rs| - 1].ts);
      var q := if r.seqno > rs[|rs| - 1].seqno then ANY.(seqMin := Some(r.seqno))
               else if r.seqno < rs[0].seqno then ANY.(seqMax := Some(r.seqno))
               else if r.ts > rs[|rs| - 1].ts then ANY.(tsMin := Some(r.ts))
               else ANY.(tsMax := Some(r.ts));
      assert Matches(d, q, r) && !MayMatch(s, q);
    }
  }

  /** Pruning by type is exact: a block or file is skipped if and only if no record of it has the type. */
  lemma {:induction false} TypePruningExactness(d: Decoder, s: Summary, rs: seq<Record>, kind: RecordType)
    requires Describes(d, s, rs)
    ensures MayMatch(s, ANY.(kind := Some(kind))) <==> exists r :: r in rs && Matches(d, ANY.(kind := Some(kind)), r)
  {
    var q := ANY.(kind := Some(kind));
    assert forall r :: Matches(d, q, r) <==> r.kind == kind;
    if kind in s.types { var r :| r in rs && r.kind == kind; }
  }

  /** With sequence numbers and timestamps that never decrease, a skipped block or file holds no match. */
  lemma {:induction false} OrderedPruning(d: Decoder, s: Summary, rs: seq<Record>, q: RecordPredicate, r: Record)
    requires Describes(d, s, rs) && NonDecreasing(rs) && q.services.None? && q.severities.None?
    requires !MayMatch(s, q) && r in rs
    ensures !Matches(d, q, r)
  {
    NonDecreasingIsBracketed(rs);
    BracketedPruning(d, s, rs, q);
  }

  // ----- service and severity filters

  /** The services a record is filtered by. */
  function FilterServices(batch: seq<ResourceLogs>): set<string> {
    set rl | rl in batch && FilterService(rl).Some? :: FilterService(rl).value
  }

  function FilterSeverities(batch: seq<ResourceLogs>): set<string> {
    set rl, v | rl in batch && v in rl.severities :: v
  }

  function ServiceKeys(d: Decoder, r: Record): set<string> {
    if d(r.payload).Some? then FilterServices(d(r.payload).value) else {}
  }

  function SeverityKeys(d: Decoder, r: Record): set<string> {
    if d(r.payload).Some? then FilterSeverities(d(r.payload).value) else {}
  }

  lemma {:induction false} LongerThanAll(values: set<string>) returns (n: nat)
    ensures forall v :: v in values ==> |v| < n
    decreases |values|
  {
    if values == {} {
      n := 0;
    } else {
      var v :| v in values;
      var m := LongerThanAll(values - {v});
      n := Max(m, |v| + 1);
    }
  }

  lemma {:induction false} FreshName(values: set<string>) returns (name: string)
    ensures name !in values && name != ""
  {
    var n := LongerThanAll(values);
    name := seq(n + 1, _ => 'x');
  }

  /** A filter that names none of `values` and still admits everything in `mine`. */
  lemma {:induction false} EvadingFilter(values: set<string>, mine: set<string>) returns (allowed: set<string>)
    requires mine * values == {}
    ensures allowed != {} && mine <= allowed && forall v :: v in allowed ==> v !in values
    ensures "" in allowed ==> "" in mine
  {
    var name := FreshName(values);
    allowed := mine + {name};
    assert forall v :: v in mine && v in values ==> v in mine * values;
  }

  /** The record is filtered by at least one value the summary lists. */
  predicate Anchored(mine: set<string>, c: Capped) { mine * c.values != {} }

  function ServiceQuery(allowed: set<string>): RecordPredicate { ANY.(services := Some(allowed)) }

  function SeverityQuery(allowed: set<string>): RecordPredicate { ANY.(severities := Some(allowed)) }

  lemma {:induction false} ServiceMatch(d: Decoder, r: Record, allowed: set<string>)
    ensures Matches(d, ServiceQuery(allowed), r)
            <==> d(r.payload).None? || FilterServices(d(r.payload).value) <= allowed
  {
    if d(r.payload).Some? {
      var batch := d(r.payload).value;
      if FilterServices(batch) <= allowed {
        forall rl | rl in batch ensures ResourceAllowed(ServiceQuery(allowed), rl) {
          if FilterService(rl).Some? { assert FilterService(rl).value in FilterServices(batch); }
        }
      }
    }
  }

  lemma {:induction false} SeverityMatch(d: Decoder, r: Record, allowed: set<string>)
    ensures Matches(d, SeverityQuery(allowed), r)
            <==> d(r.payload).None? || FilterSeverities(d(r.payload).value) <= allowed
  {
    if d(r.payload).Some? {
      var batch := d(r.payload).value;
      if FilterSeverities(batch) <= allowed {
        forall rl | rl in batch ensures ResourceAllowed(SeverityQuery(allowed), rl) {
          forall v | v in rl.severities ensures v in allowed { assert v in FilterSeverities(batch); }
        }
      }
    }
  }

  /** Pruning by service loses no match, for any nonempty filter, exactly when the summary is incomplete or every
      record decodes and is filtered by a service the summary lists; a payload that does not decode, or names no
      service, breaks it. The empty name is a possible filter value: the view offers every service name it finds. */
  lemma {:induction false} ServicePruningExactness(d: Decoder, s: Summary, rs: seq<Record>)
    ensures (forall allowed: set<string> :: allowed != {} ==> Sound(d, s, rs, ServiceQuery(allowed)))
            <==> (s.services.complete ==>
                    forall r :: r in rs ==> Anchored(ServiceKeys(d, r), s.services))
  {
    hide FilterServices, Matches;
    if !s.services.complete {
      forall allowed: set<string> ensures MayMatch(s, ServiceQuery(allowed)) {}
    } else if r :| r in rs && !Anchored(ServiceKeys(d, r), s.services) {
      var allowed := EvadingFilter(s.services.values, ServiceKeys(d, r));
      ServiceMatch(d, r, allowed);
      assert !MayMatch(s, ServiceQuery(allowed)) && !Sound(d, s, rs, ServiceQuery(allowed));
    } else {
      forall allowed: set<string> | allowed != {} ensures Sound(d, s, rs, ServiceQuery(allowed)) {
        if !MayMatch(s, ServiceQuery(allowed)) {
          forall r | r in rs ensures !Matches(d, ServiceQuery(allowed), r) {
            var v :| v in ServiceKeys(d, r) * s.services.values;
            ServiceMatch(d, r, allowed);
          }
        }
      }
    }
  }

  /** The severity filters that can be asked for: neither the command line nor the view admits the empty text. */
  predicate SeverityFilter(allowed: set<string>) { allowed != {} && "" !in allowed }

  /** Likewise for severities, except that a record with an empty severity text is no danger, since no filter admits
      it. A payload that does not decode, or that holds no log record, breaks it. */
  lemma {:induction false} SeverityPruningExactness(d: Decoder, s: Summary, rs: seq<Record>)
    ensures (forall allowed: set<string> :: SeverityFilter(allowed) ==> Sound(d, s, rs, SeverityQuery(allowed)))
            <==> (s.severities.complete ==>
                    forall r :: r in rs ==> "" in SeverityKeys(d, r) || Anchored(SeverityKeys(d, r), s.severities))
  {
    hide FilterSeverities, Matches;
    if !s.severities.complete {
      forall allowed: set<string> ensures MayMatch(s, SeverityQuery(allowed)) {}
    } else if r :| r in rs && "" !in SeverityKeys(d, r) && !Anchored(SeverityKeys(d, r), s.severities) {
      var allowed := EvadingFilter(s.severities.values, SeverityKeys(d, r));
      SeverityMatch(d, r, allowed);
      assert SeverityFilter(allowed) && !MayMatch(s, SeverityQuery(allowed))
             && !Sound(d, s, rs, SeverityQuery(allowed));
    } else {
      forall allowed: set<string> | SeverityFilter(allowed) ensures Sound(d, s, rs, SeverityQuery(allowed)) {
        if !MayMatch(s, SeverityQuery(allowed)) {
          forall r | r in rs ensures !Matches(d, SeverityQuery(allowed), r) {
            SeverityMatch(d, r, allowed);
            if "" !in SeverityKeys(d, r) {
              var v :| v in SeverityKeys(d, r) * s.severities.values;
            }
          }
        }
      }
    }
  }
}
