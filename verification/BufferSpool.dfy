/** The in-memory spool: a protected front, an evicting tail, and replay cursors that cache a position. */
module BufferSpool {
  import opened Prelude
  import opened Encoding
  import opened BlockFormat

  datatype BufferLimit = ByteLimit(max: nat) | MessageLimit(max: nat)

  /** Type, sequence, timestamp, length, payload. */
  function RecordSize(r: Record): nat { 1 + 8 + 8 + 4 + |r.payload| }

  function SumSizes(rs: seq<Record>): nat { if rs == [] then 0 else RecordSize(rs[0]) + SumSizes(rs[1..]) }

  predicate Within(limit: BufferLimit, tail: seq<Record>) {
    match limit
    case ByteLimit(max) => SumSizes(tail) <= max
    case MessageLimit(max) => |tail| <= max
  }

  function Front(keep: nat, rs: seq<Record>): seq<Record> { if |rs| <= keep then rs else rs[..keep] }

  function Tail(keep: nat, rs: seq<Record>): seq<Record> { if |rs| <= keep then [] else rs[keep..] }

  /** How many records to drop from position `i` on until the rest is within the limit. */
  function DroppedFrom(limit: BufferLimit, tail: seq<Record>, i: nat): (n: nat)
    requires i <= |tail|
    ensures i <= n <= |tail| && Within(limit, tail[n..])
    ensures forall k :: i <= k < n ==> !Within(limit, tail[k..])
    decreases |tail| - i
  {
    if Within(limit, tail[i..]) then i else DroppedFrom(limit, tail, i + 1)
  }

  /** The longest suffix within the limit. */
  function Trim(limit: BufferLimit, tail: seq<Record>): seq<Record> { tail[DroppedFrom(limit, tail, 0)..] }

  /** The spool after appending `r` to `rs`. */
  function Appended(keep: nat, limit: BufferLimit, rs: seq<Record>, r: Record): seq<Record> {
    Front(keep, rs + [r]) + Trim(limit, Tail(keep, rs + [r]))
  }

  /** The spool after everything up to `upto` at its front was acknowledged. */
  function Consumed(rs: seq<Record>, upto: nat): (left: seq<Record>)
    ensures |left| <= |rs| && left == rs[|rs| - |left|..]
    ensures forall i :: 0 <= i < |rs| - |left| ==> rs[i].seqno <= upto
    ensures left != [] ==> left[0].seqno > upto
  {
    if rs == [] || rs[0].seqno > upto then rs else Consumed(rs[1..], upto)
  }

  lemma {:induction false} ConsumedIs(rs: seq<Record>, upto: nat, n: nat)
    requires n <= |rs| && (forall k :: 0 <= k < n ==> rs[k].seqno <= upto) && (n < |rs| ==> rs[n].seqno > upto)
    ensures Consumed(rs, upto) == rs[n..]
  {
    if n > 0 { ConsumedIs(rs[1..], upto, n - 1); }
  }

  // ----- sizes of suffixes

  lemma {:induction false} SumSuffix(rs: seq<Record>, n: nat)
    requires n <= |rs|
    ensures SumSizes(rs[n..]) <= SumSizes(rs)
  {
    if n > 0 {
      SumSuffix(rs[1..], n - 1);
      assert rs[n..] == rs[1..][n - 1..];
    }
  }

  lemma {:induction false} SumAppend(rs: seq<Record>, r: Record)
    ensures SumSizes(rs + [r]) == SumSizes(rs) + RecordSize(r)
  {
    if rs == [] {
      assert rs + [r] == [r] && [r][1..] == [];
    } else {
      SumAppend(rs[1..], r);
      assert (rs + [r])[1..] == rs[1..] + [r];
    }
  }

  lemma {:induction false} WithinSuffix(limit: BufferLimit, rs: seq<Record>, n: nat)
    requires n <= |rs| && Within(limit, rs)
    ensures Within(limit, rs[n..])
  {
    if limit.ByteLimit? { SumSuffix(rs, n); }
  }

  lemma {:induction false} WithinShorter(limit: BufferLimit, rs: seq<Record>, r: Record)
    requires Within(limit, rs + [r])
    ensures Within(limit, rs)
  {
    if limit.ByteLimit? { SumAppend(rs, r); }
  }

  lemma {:induction false} TrimIs(limit: BufferLimit, tail: seq<Record>, n: nat)
    requires n <= |tail| && Within(limit, tail[n..])
    requires forall k :: 0 <= k < n ==> !Within(limit, tail[k..])
    ensures Trim(limit, tail) == tail[n..]
  {
    hide Within, DroppedFrom;
    var d := DroppedFrom(limit, tail, 0);
    assert d <= |tail| && Within(limit, tail[d..]);
  }

  /** Trimming after every append or once at the end comes to the same. */
  lemma {:induction false} TrimSteps(limit: BufferLimit, tail: seq<Record>, r: Record)
    ensures Trim(limit, Trim(limit, tail) + [r]) == Trim(limit, tail + [r])
  {
    hide Within, DroppedFrom;
    var d, e := DroppedFrom(limit, tail, 0), DroppedFrom(limit, tail + [r], 0);
    if e < d {
      assert (tail + [r])[e..] == tail[e..] + [r];
      WithinShorter(limit, tail[e..], r);
    }
    var t := tail[d..] + [r];
    forall k | 0 <= k <= e - d ensures t[k..] == (tail + [r])[d + k..] {}
    forall k | 0 <= k < e - d ensures !Within(limit, t[k..]) { assert !Within(limit, (tail + [r])[d + k..]); }
    TrimIs(limit, t, e - d);
  }

  // ----- append-only runs

  /** What an append-only run leaves: the first `keep` records and the longest suffix of the rest within the limit. */
  function Retained(keep: nat, limit: BufferLimit, history: seq<Record>): seq<Record> {
    Front(keep, history) + Trim(limit, Tail(keep, history))
  }

  lemma {:induction false} AppendRetains(keep: nat, limit: BufferLimit, history: seq<Record>, r: Record)
    ensures Appended(keep, limit, Retained(keep, limit, history), r) == Retained(keep, limit, history + [r])
  {
    hide Trim;
    var rs := Retained(keep, limit, history);
    if |history| < keep {
      TrimNothing(limit);
      assert rs == history;
    } else {
      var t := Trim(limit, Tail(keep, history));
      TrimSteps(limit, Tail(keep, history), r);
      FrontAndTail(keep, history[..keep], t + [r]);
      FrontAndTail(keep, history[..keep], Tail(keep, history) + [r]);
      TrimNothing(limit);
      assert Front(keep, history) == history[..keep];
      assert rs + [r] == history[..keep] + (t + [r]);
      assert history + [r] == history[..keep] + (Tail(keep, history) + [r]);
    }
  }

  lemma {:induction false} TrimNothing(limit: BufferLimit)
    ensures Trim(limit, []) == []
  {}

  lemma {:induction false} RetainsNothing(keep: nat, limit: BufferLimit)
    ensures Retained(keep, limit, []) == []
  {
    hide Trim;
    TrimNothing(limit);
  }

  lemma {:induction false} FirstSize(rs: seq<Record>)
    requires rs != []
    ensures SumSizes(rs) == RecordSize(rs[0]) + SumSizes(rs[1..])
  {}

  lemma {:induction false} NoSize(rs: seq<Record>)
    ensures rs == [] ==> SumSizes(rs) == 0
  {}

  lemma {:induction false} FrontAndTail(keep: nat, front: seq<Record>, tail: seq<Record>)
    requires |front| == keep
    ensures Front(keep, front + tail) == front && Tail(keep, front + tail) == tail
  {}

  /** A shorter spool has a shorter tail. */
  lemma {:induction false} TailOfSuffix(keep: nat, limit: BufferLimit, rs: seq<Record>, n: nat)
    requires n <= |rs| && Within(limit, Tail(keep, rs))
    ensures Within(limit, Tail(keep, rs[n..]))
  {
    hide Within;
    var t := Tail(keep, rs);
    var m := Min(n, |t|);
    assert Tail(keep, rs[n..]) == t[m..];
    WithinSuffix(limit, t, m);
  }

  class Spool {
    const limit: BufferLimit
    const keep: nat
    var records: seq<Record>
    var tailBytes: nat

    /** The byte count of the tail is exact and the tail is within the limit. */
    ghost predicate Valid()
      reads this
    {
      tailBytes == SumSizes(Tail(keep, records)) && Within(limit, Tail(keep, records))
    }

    constructor (limit: BufferLimit, keep: nat)
      ensures Valid() && records == [] && this.limit == limit && this.keep == keep
    {
      this.limit := limit;
      this.keep := keep;
      records := [];
      tailBytes := 0;
    }

    predicate OverLimit()
      reads this
    {
      match limit
      case ByteLimit(max) => tailBytes > max
      case MessageLimit(max) => |records| - keep > max
    }

    method Append(r: Record)
      requires Valid()
      modifies this
      ensures Valid()
      ensures records == Appended(keep, limit, old(records), r)
    {
      hide SumSizes, Within, Trim, RecordSize;
      var wasTail := |records| >= keep;
      SumAppend(Tail(keep, records), r);
      records := records + [r];
      if wasTail {
        assert Tail(keep, records) == Tail(keep, old(records)) + [r];
        tailBytes := tailBytes + RecordSize(r);
      }
      EnforceLimits();
    }

    /** Evicts from just behind the protected front until the tail is within the limit. */
    method EnforceLimits()
      requires tailBytes == SumSizes(Tail(keep, records))
      modifies this
      ensures Valid()
      ensures records == Front(keep, old(records)) + Trim(limit, Tail(keep, old(records)))
    {
      hide Trim, SumSizes;
      ghost var front, tail, n := Front(keep, records), Tail(keep, records), 0;
      while OverLimit() && |records| > keep
        invariant n <= |tail| && records == front + tail[n..] && (n > 0 ==> |front| == keep)
        invariant Tail(keep, records) == tail[n..] && tailBytes == SumSizes(tail[n..])
        invariant forall k :: 0 <= k < n ==> !Within(limit, tail[k..])
        decreases |records|
      {
        var dropped := records[keep];
        assert dropped == tail[n..][0] && tail[n..][1..] == tail[n + 1..];
        FirstSize(tail[n..]);
        records := records[..keep] + records[keep + 1..];
        tailBytes := tailBytes - RecordSize(dropped);
        n := n + 1;
        FrontAndTail(keep, front, tail[n..]);
      }
      if |records| <= keep { NoSize(tail[n..]); }
      TrimIs(limit, tail, n);
    }

    method ConsumeThrough(upto: u64)
      requires Valid()
      modifies this
      ensures Valid()
      ensures records == Consumed(old(records), upto)
    {
      hide SumSizes, Within, Tail, Consumed;
      ghost var n := 0;
      while records != [] && records[0].seqno <= upto
        invariant n <= |old(records)| && records == old(records)[n..]
        invariant forall k :: 0 <= k < n ==> old(records)[k].seqno <= upto
        decreases |records|
      {
        records := records[1..];
        n := n + 1;
      }
      ConsumedIs(old(records), upto, n);
      TailOfSuffix(keep, limit, old(records), n);
      tailBytes := SumOf(Tail(keep, records));
    }

    /** The index of the first record above `last`. */
    method Position(last: u64) returns (r: Option<nat>)
      ensures r == FirstAbove(records, last)
    {
      for i := 0 to |records|
        invariant forall k :: 0 <= k < i ==> records[k].seqno <= last
      {
        if records[i].seqno > last { FirstAboveIs(records, last, i); return Some(i); }
      }
      r := None;
    }

    method ReplayCursorAfter(last: u64) returns (c: Cursor)
      ensures c == StartCursor(records, last)
      ensures c.lastSeq == last && c.nextIndex <= |records|
      ensures forall k :: 0 <= k < c.nextIndex ==> records[k].seqno <= last
      ensures c.nextIndex < |records| ==> records[c.nextIndex].seqno > last
    {
      var p := Position(last);
      c := Cursor(if p.Some? then p.value else |records|, last);
    }

    /** The cached index when it still lines up, a scan otherwise. */
    method NextForCursor(c: Cursor) returns (r: Option<Record>, c': Cursor)
      ensures (r, c') == CursorStep(records, c)
    {
      var aligned := c.nextIndex == 0 || (c.nextIndex - 1 < |records| && records[c.nextIndex - 1].seqno <= c.lastSeq);
      if aligned && c.nextIndex < |records| && records[c.nextIndex].seqno > c.lastSeq {
        return Some(records[c.nextIndex]), Cursor(c.nextIndex + 1, records[c.nextIndex].seqno);
      }
      var p := Position(c.lastSeq);
      if p.None? { return None, c; }
      r, c' := Some(records[p.value]), Cursor(p.value + 1, records[p.value].seqno);
    }
  }

  method SumOf(rs: seq<Record>) returns (n: nat)
    ensures n == SumSizes(rs)
  {
    n := 0;
    for i := 0 to |rs|
      invariant n == SumSizes(rs[..i])
    {
      SumAppend(rs[..i], rs[i]);
      assert rs[..i + 1] == rs[..i] + [rs[i]];
      n := n + RecordSize(rs[i]);
    }
    assert rs[..|rs|] == rs;
  }

  /** Any append-only run. */
  method AppendRun(keep: nat, limit: BufferLimit, history: seq<Record>) returns (records: seq<Record>, tailBytes: nat)
    ensures records == Retained(keep, limit, history)
    ensures tailBytes == SumSizes(Tail(keep, records)) && Within(limit, Tail(keep, records))
    ensures limit.MessageLimit? ==> |records| <= keep + limit.max
    ensures limit.ByteLimit? ==> tailBytes <= limit.max
  {
    hide SumSizes, Within, Trim, Retained, Appended, Front, Tail;
    var s := new Spool(limit, keep);
    RetainsNothing(keep, limit);
    assert history[..0] == [];
    for i := 0 to |history|
      invariant fresh(s) && s.Valid() && s.keep == keep && s.limit == limit
      invariant s.records == Retained(keep, limit, history[..i])
    {
      AppendRetains(keep, limit, history[..i], history[i]);
      assert history[..i + 1] == history[..i] + [history[i]];
      s.Append(history[i]);
    }
    assert history[..|history|] == history;
    records, tailBytes := s.records, s.tailBytes;
    WithinMeans(keep, limit, records);
  }

  lemma {:induction false} WithinMeans(keep: nat, limit: BufferLimit, rs: seq<Record>)
    requires Within(limit, Tail(keep, rs))
    ensures limit.MessageLimit? ==> |rs| <= keep + limit.max
    ensures limit.ByteLimit? ==> SumSizes(Tail(keep, rs)) <= limit.max
  {}

  // ----- cursors

  datatype Cursor = Cursor(nextIndex: nat, lastSeq: u64)

  function FirstAbove(rs: seq<Record>, last: int): (r: Option<nat>)
    ensures r.Some? ==> r.value < |rs| && rs[r.value].seqno > last
    ensures r.Some? ==> forall k :: 0 <= k < r.value ==> rs[k].seqno <= last
    ensures r.None? ==> forall k :: 0 <= k < |rs| ==> rs[k].seqno <= last
  {
    if rs == [] then None
    else if rs[0].seqno > last then Some(0)
    else
      var p := FirstAbove(rs[1..], last);
      if p.None? then None else Some(p.value + 1)
  }

  lemma {:induction false} FirstAboveIs(rs: seq<Record>, last: int, i: nat)
    requires i < |rs| && rs[i].seqno > last && forall k :: 0 <= k < i ==> rs[k].seqno <= last
    ensures FirstAbove(rs, last) == Some(i)
  {}

  function StartCursor(rs: seq<Record>, last: u64): Cursor {
    var p := FirstAbove(rs, last);
    Cursor(if p.Some? then p.value else |rs|, last)
  }

  /** Plain scan: the first retained record above the cursor. */
  function ScanStep(rs: seq<Record>, c: Cursor): (Option<Record>, Cursor) {
    var p := FirstAbove(rs, c.lastSeq);
    if p.None? then (None, c) else (Some(rs[p.value]), Cursor(p.value + 1, rs[p.value].seqno))
  }

  /** The cached index is believed when the record before it is not above the cursor and the one at it is. */
  predicate CacheHit(rs: seq<Record>, c: Cursor) {
    && c.nextIndex < |rs| && rs[c.nextIndex].seqno > c.lastSeq
    && (c.nextIndex == 0 || rs[c.nextIndex - 1].seqno <= c.lastSeq)
  }

  function CursorStep(rs: seq<Record>, c: Cursor): (Option<Record>, Cursor) {
    if CacheHit(rs, c) then (Some(rs[c.nextIndex]), Cursor(c.nextIndex + 1, rs[c.nextIndex].seqno)) else ScanStep(rs, c)
  }

  /** A record below both an earlier one and the one right behind it. */
  predicate Dip(rs: seq<Record>, k: nat, m: nat) {
    k < m && m + 1 < |rs| && rs[m].seqno < rs[k].seqno && rs[m].seqno < rs[m + 1].seqno
  }

  /** The cached index never changes an answer, for any cursor at all, exactly when no record is a dip. */
  lemma {:induction false} CursorExactness(rs: seq<Record>)
    ensures (forall c: Cursor :: CursorStep(rs, c) == ScanStep(rs, c)) <==> (forall k: nat, m: nat :: !Dip(rs, k, m))
  {
    if k: nat, m: nat :| Dip(rs, k, m) {
      var c := Cursor(m + 1, rs[m].seqno);
      assert CacheHit(rs, c) && FirstAbove(rs, c.lastSeq).value <= k;
      assert CursorStep(rs, c) != ScanStep(rs, c);
    } else {
      forall c: Cursor ensures CursorStep(rs, c) == ScanStep(rs, c) { NoDipNoMiss(rs, c); }
    }
  }

  lemma {:induction false} NoDipNoMiss(rs: seq<Record>, c: Cursor)
    requires forall k: nat, m: nat :: !Dip(rs, k, m)
    ensures CursorStep(rs, c) == ScanStep(rs, c)
  {
    if CacheHit(rs, c) {
      var i := c.nextIndex;
      forall k | 0 <= k < i ensures rs[k].seqno <= c.lastSeq { assert !Dip(rs, k, i - 1); }
      FirstAboveIs(rs, c.lastSeq, i);
    }
  }

  /** With increasing sequence numbers the cursor yields the first retained record above its last one. */
  lemma {:induction false} IncreasingCursor(rs: seq<Record>, c: Cursor)
    requires Increasing(rs)
    ensures CursorStep(rs, c) == ScanStep(rs, c)
  {
    NoDipNoMiss(rs, c);
  }

  // ----- one client's whole session, whatever happens to the spool meanwhile

  datatype Op = AppendOp(record: Record) | ConsumeOp(upto: u64) | ReadOp

  /** `highest` is the last sequence number handed to the spool, `from` what the client asked for. */
  datatype Session = Session(records: seq<Record>, highest: nat, from: u64, cursor: Cursor, sent: seq<Record>)

  function Step(keep: nat, limit: BufferLimit, s: Session, op: Op): Session {
    match op
    case AppendOp(r) => s.(records := Appended(keep, limit, s.records, r), highest := r.seqno)
    case ConsumeOp(upto) => s.(records := Consumed(s.records, upto))
    case ReadOp =>
      var (r, c) := CursorStep(s.records, s.cursor);
      if r.None? then s else s.(cursor := c, sent := s.sent + [r.value])
  }

  function Run(keep: nat, limit: BufferLimit, s: Session, ops: seq<Op>): Session
    decreases |ops|
  {
    if ops == [] then s else Run(keep, limit, Step(keep, limit, s, ops[0]), ops[1..])
  }

  /** Records arrive with increasing sequence numbers. */
  predicate Legal(highest: nat, ops: seq<Op>)
    decreases |ops|
  {
    ops == [] ||
    (match ops[0]
     case AppendOp(r) => highest < r.seqno && Legal(r.seqno, ops[1..])
     case ConsumeOp(_) => Legal(highest, ops[1..])
     case ReadOp => Legal(highest, ops[1..]))
  }

  predicate Started(s: Session) {
    && Increasing(s.records) && (forall r :: r in s.records ==> r.seqno <= s.highest)
    && s.sent == [] && s.cursor == StartCursor(s.records, s.from)
  }

  /** Nothing the client should have seen and that is still retained was skipped. */
  predicate NothingSkipped(s: Session) {
    forall r :: r in s.records && s.from < r.seqno <= s.cursor.lastSeq ==> r in s.sent
  }

  predicate SessionInv(s: Session) {
    && Increasing(s.records) && (forall r :: r in s.records ==> r.seqno <= s.highest)
    && Increasing(s.sent) && (forall r :: r in s.sent ==> s.from < r.seqno <= s.cursor.lastSeq)
    && s.from <= s.cursor.lastSeq <= Max(s.from, s.highest)
    && NothingSkipped(s)
  }

  lemma {:induction false} WithoutMiddle(all: seq<Record>, k: nat, d: nat)
    requires k + d <= |all| && Increasing(all)
    ensures var out := all[..k] + all[k + d..];
            Increasing(out) && forall x :: x in out ==> x in all
  {
    var out := all[..k] + all[k + d..];
    forall i | 0 <= i < |out| ensures out[i] == all[if i < k then i else i + d] {}
  }

  /** An append keeps the order and brings in nothing but the new record. */
  lemma {:induction false} AppendedKeeps(keep: nat, limit: BufferLimit, rs: seq<Record>, r: Record, highest: nat)
    requires Increasing(rs) && (forall x :: x in rs ==> x.seqno <= highest) && highest < r.seqno
    ensures Increasing(Appended(keep, limit, rs, r))
    ensures forall x :: x in Appended(keep, limit, rs, r) ==> x in rs || x == r
  {
    hide Within, DroppedFrom;
    var all := rs + [r];
    assert Increasing(all);
    var k := Min(keep, |all|);
    var d := DroppedFrom(limit, Tail(keep, all), 0);
    assert Front(keep, all) == all[..k] && Tail(keep, all) == all[k..];
    assert Trim(limit, all[k..]) == all[k + d..];
    WithoutMiddle(all, k, d);
  }

  lemma {:induction false} AppendKeepsInv(keep: nat, limit: BufferLimit, s: Session, r: Record)
    requires SessionInv(s) && s.highest < r.seqno
    ensures SessionInv(Step(keep, limit, s, AppendOp(r)))
  {
    hide Appended;
    AppendedKeeps(keep, limit, s.records, r, s.highest);
  }

  lemma {:induction false} ConsumeKeepsInv(keep: nat, limit: BufferLimit, s: Session, upto: u64)
    requires SessionInv(s)
    ensures SessionInv(Step(keep, limit, s, ConsumeOp(upto)))
  {
    hide Consumed;
    var left := Consumed(s.records, upto);
    forall x | x in left ensures x in s.records {}
  }

  lemma {:induction false} SentGrows(sent: seq<Record>, r: Record)
    requires Increasing(sent) && forall x :: x in sent ==> x.seqno < r.seqno
    ensures Increasing(sent + [r])
  {}

  /** Sending the first retained record above the cursor skips nothing. */
  lemma {:induction false} SkipsNothing(s: Session, t: Session, i: nat)
    requires Increasing(s.records) && NothingSkipped(s) && i < |s.records|
    requires forall k :: 0 <= k < i ==> s.records[k].seqno <= s.cursor.lastSeq
    requires t.records == s.records && t.from == s.from && t.sent == s.sent + [s.records[i]]
             && t.cursor.lastSeq == s.records[i].seqno
    ensures NothingSkipped(t)
  {
    forall x | x in t.records && t.from < x.seqno <= t.cursor.lastSeq ensures x in t.sent {
      var k :| 0 <= k < |s.records| && s.records[k] == x;
      assert k <= i;
    }
  }

  lemma {:induction false} ReadKeepsInv(keep: nat, limit: BufferLimit, s: Session)
    requires SessionInv(s)
    ensures SessionInv(Step(keep, limit, s, ReadOp))
  {
    hide CursorStep, FirstAbove, NothingSkipped, Increasing;
    IncreasingCursor(s.records, s.cursor);
    var p := FirstAbove(s.records, s.cursor.lastSeq);
    if p.Some? {
      var r := s.records[p.value];
      assert r in s.records;
      SentGrows(s.sent, r);
      SkipsNothing(s, Step(keep, limit, s, ReadOp), p.value);
    }
  }

  lemma {:induction false} StepKeepsInv(keep: nat, limit: BufferLimit, s: Session, op: Op)
    requires SessionInv(s) && (op.AppendOp? ==> s.highest < op.record.seqno)
    ensures SessionInv(Step(keep, limit, s, op))
  {
    hide *;
    match op
    case AppendOp(r) => AppendKeepsInv(keep, limit, s, r);
    case ConsumeOp(upto) => ConsumeKeepsInv(keep, limit, s, upto);
    case ReadOp => ReadKeepsInv(keep, limit, s);
  }

  /** Over any run of appends, evictions, acknowledgements and reads, the client sees strictly increasing
      sequence numbers above the one it asked for and skips nothing that is still retained. */
  lemma {:induction false} SessionSafety(keep: nat, limit: BufferLimit, s: Session, ops: seq<Op>)
    requires Started(s) && Legal(s.highest, ops)
    ensures var e := Run(keep, limit, s, ops);
            && Increasing(e.sent) && (forall r :: r in e.sent ==> e.from < r.seqno)
            && NothingSkipped(e) && e.from == s.from
            && (CursorStep(e.records, e.cursor).0.None? ==>
                  forall r :: r in e.records && r.seqno > e.from ==> r in e.sent)
  {
    hide CursorStep, Run;
    RunKeepsInv(keep, limit, s, ops);
    var e := Run(keep, limit, s, ops);
    if CursorStep(e.records, e.cursor).0.None? { DrainedSession(e); }
  }

  lemma {:induction false} DrainedSession(e: Session)
    requires SessionInv(e) && CursorStep(e.records, e.cursor).0.None?
    ensures forall r :: r in e.records && r.seqno > e.from ==> r in e.sent
  {
    hide CursorStep, FirstAbove;
    IncreasingCursor(e.records, e.cursor);
    forall r | r in e.records ensures r.seqno <= e.cursor.lastSeq {
      var k :| 0 <= k < |e.records| && e.records[k] == r;
    }
  }

  lemma {:induction false} RunKeepsInv(keep: nat, limit: BufferLimit, s: Session, ops: seq<Op>)
    requires SessionInv(s) && Legal(s.highest, ops)
    ensures SessionInv(Run(keep, limit, s, ops)) && Run(keep, limit, s, ops).from == s.from
    decreases |ops|
  {
    hide SessionInv, CursorStep;
    if ops != [] {
      StepKeepsInv(keep, limit, s, ops[0]);
      RunKeepsInv(keep, limit, Step(keep, limit, s, ops[0]), ops[1..]);
    }
  }

  // ----- out of order, a session can skip

  lemma {:induction false} RoomForOne(keep: nat, max: nat, rs: seq<Record>, r: Record)
    requires |rs| < max
    ensures Appended(keep, MessageLimit(max), rs, r) == rs + [r]
  {
    var all := rs + [r];
    assert Front(keep, all) + Tail(keep, all) == all && Within(MessageLimit(max), Tail(keep, all));
    TrimIs(MessageLimit(max), Tail(keep, all), 0);
  }

  lemma {:induction false} RunFirst(keep: nat, limit: BufferLimit, s: Session, op: Op, rest: seq<Op>)
    ensures Run(keep, limit, s, [op] + rest) == Run(keep, limit, Step(keep, limit, s, op), rest)
  {
    hide Step;
    assert ([op] + rest)[1..] == rest;
  }

  lemma {:induction false} AckDropsTwo(keep: nat, s: Session, a: Record, b: Record, c: Record, d: Record, e: Record)
    requires a.seqno < b.seqno < c.seqno && s.records == [a, b, c, d, e]
    ensures Step(keep, MessageLimit(5), s, ConsumeOp(b.seqno)) == s.(records := [c, d, e])
  {
    hide Consumed;
    ConsumedIs(s.records, b.seqno, 2);
    assert s.records[2..] == [c, d, e];
  }

  /** The cached index points past a record that is still to be read. */
  lemma {:induction false} ReadsPast(keep: nat, s: Session, last: u64, c: Record, d: Record, e: Record)
    requires d.seqno <= last < c.seqno && last < e.seqno
    requires s.records == [c, d, e] && s.cursor == Cursor(2, last)
    ensures Step(keep, MessageLimit(5), s, ReadOp) == s.(cursor := Cursor(3, e.seqno), sent := s.sent + [e])
  {
    hide ScanStep;
    assert CacheHit(s.records, s.cursor);
  }

  lemma {:induction false} ReadsTwo(keep: nat, from: u64, a: Record, b: Record, rest: seq<Op>)
    requires from < a.seqno < b.seqno
    ensures var s := Session([], 0, from, Cursor(0, from), []);
            Run(keep, MessageLimit(5), s, [AppendOp(a)] + ([AppendOp(b)] + ([ReadOp] + ([ReadOp] + rest))))
            == Run(keep, MessageLimit(5), Session([a, b], b.seqno, from, Cursor(2, b.seqno), [a, b]), rest)
  {
    hide Run, Appended;
    var limit := MessageLimit(5);
    var s0 := Session([], 0, from, Cursor(0, from), []);
    var s1 := Session([a], a.seqno, from, Cursor(0, from), []);
    var s2 := s1.(records := [a, b], highest := b.seqno);
    var s3 := s2.(cursor := Cursor(1, a.seqno), sent := [a]);
    RoomForOne(keep, 5, [], a);
    RoomForOne(keep, 5, [a], b);
    assert [] + [a] == [a] && [a] + [b] == [a, b];
    RunFirst(keep, limit, s0, AppendOp(a), [AppendOp(b)] + ([ReadOp] + ([ReadOp] + rest)));
    RunFirst(keep, limit, s1, AppendOp(b), [ReadOp] + ([ReadOp] + rest));
    RunFirst(keep, limit, s2, ReadOp, [ReadOp] + rest);
    RunFirst(keep, limit, s3, ReadOp, rest);
  }

  lemma {:induction false} ArrivesNext(keep: nat, s: Session, r: Record, rest: seq<Op>)
    requires |s.records| < 5
    ensures Run(keep, MessageLimit(5), s, [AppendOp(r)] + rest)
         == Run(keep, MessageLimit(5), s.(records := s.records + [r], highest := r.seqno), rest)
  {
    hide Run, Appended;
    RoomForOne(keep, 5, s.records, r);
    RunFirst(keep, MessageLimit(5), s, AppendOp(r), rest);
  }

  lemma {:induction false} ThreeArrive(keep: nat, s: Session, c: Record, d: Record, e: Record, rest: seq<Op>)
    requires |s.records| == 2
    ensures Run(keep, MessageLimit(5), s, [AppendOp(c)] + ([AppendOp(d)] + ([AppendOp(e)] + rest)))
         == Run(keep, MessageLimit(5), s.(records := s.records + [c] + [d] + [e], highest := e.seqno), rest)
  {
    hide Run;
    var s1 := s.(records := s.records + [c], highest := c.seqno);
    var s2 := s1.(records := s1.records + [d], highest := d.seqno);
    ArrivesNext(keep, s, c, [AppendOp(d)] + ([AppendOp(e)] + rest));
    ArrivesNext(keep, s1, d, [AppendOp(e)] + rest);
    ArrivesNext(keep, s2, e, rest);
  }

  lemma {:induction false} AcksAndReads(keep: nat, s: Session, a: Record, b: Record, c: Record, d: Record, e: Record)
    requires a.seqno < b.seqno && d.seqno <= b.seqno < c.seqno && b.seqno < e.seqno
    requires s.records == [a, b, c, d, e] && s.cursor == Cursor(2, b.seqno)
    ensures Run(keep, MessageLimit(5), s, [ConsumeOp(b.seqno)] + ([ReadOp] + []))
         == s.(records := [c, d, e], cursor := Cursor(3, e.seqno), sent := s.sent + [e])
  {
    hide Run, Step;
    var t := s.(records := [c, d, e]);
    AckDropsTwo(keep, s, a, b, c, d, e);
    ReadsPast(keep, t, b.seqno, c, d, e);
    RunFirst(keep, MessageLimit(5), s, ConsumeOp(b.seqno), [ReadOp] + []);
    RunFirst(keep, MessageLimit(5), t, ReadOp, []);
    RunNone(keep, MessageLimit(5), Step(keep, MessageLimit(5), t, ReadOp));
  }

  /** Two arrivals, two reads, three arrivals, an acknowledgement and a read. */
  function SkippingOps(a: Record, b: Record, c: Record, d: Record, e: Record): seq<Op> {
    [AppendOp(a)] + ([AppendOp(b)] + ([ReadOp] + ([ReadOp] + ([AppendOp(c)] + ([AppendOp(d)] + ([AppendOp(e)] +
      ([ConsumeOp(b.seqno)] + ([ReadOp] + []))))))))
  }

  lemma {:induction false} SkippingSession(keep: nat, from: u64, a: Record, b: Record, c: Record, d: Record, e: Record)
    requires from < a.seqno < b.seqno && d.seqno <= b.seqno < c.seqno && b.seqno < e.seqno
    ensures Run(keep, MessageLimit(5), Session([], 0, from, Cursor(0, from), []), SkippingOps(a, b, c, d, e))
         == Session([c, d, e], e.seqno, from, Cursor(3, e.seqno), [a, b, e])
  {
    hide Run;
    var read := Session([a, b], b.seqno, from, Cursor(2, b.seqno), [a, b]);
    var full := Session([a, b, c, d, e], e.seqno, from, Cursor(2, b.seqno), [a, b]);
    var ack := [ConsumeOp(b.seqno)] + ([ReadOp] + []);
    ReadsTwo(keep, from, a, b, [AppendOp(c)] + ([AppendOp(d)] + ([AppendOp(e)] + ack)));
    ThreeArrive(keep, read, c, d, e, ack);
    assert [a, b] + [c] + [d] + [e] == [a, b, c, d, e] && [a, b] + [e] == [a, b, e];
    AcksAndReads(keep, full, a, b, c, d, e);
  }

  lemma {:induction false} NewSession(from: u64)
    ensures Started(Session([], 0, from, Cursor(0, from), []))
  {}

  /** Records can arrive so that the cached index skips one that is still retained: a client reads `a` and `b`, then
      `c`, `d` and `e` arrive with `d` not above `b`, `b` is acknowledged, and the next read is `e`, past `c`. */
  lemma {:induction false} DipSkips(keep: nat, from: u64, a: Record, b: Record, c: Record, d: Record, e: Record)
    requires from < a.seqno < b.seqno && d.seqno <= b.seqno < c.seqno < e.seqno
    ensures var s := Session([], 0, from, Cursor(0, from), []);
            var t := Run(keep, MessageLimit(5), s, SkippingOps(a, b, c, d, e));
            Started(s) && c in t.records && !NothingSkipped(t)
  {
    hide Run, Started, SkippingOps;
    NewSession(from);
    SkippingSession(keep, from, a, b, c, d, e);
    assert c in [c, d, e] && c !in [a, b, e];
  }

  lemma {:induction false} RunNone(keep: nat, limit: BufferLimit, s: Session)
    ensures Run(keep, limit, s, []) == s
  {}
}
