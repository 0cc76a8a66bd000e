/** The file spool: rotating segments, retention, consumption, and the replay cursor's segment hint.
    A segment is the list of records its reader yields and its size in bytes. */
module FileSpool {
  import opened Prelude
  import opened Encoding
  import opened BlockFormat

  datatype Segment = Segment(id: nat, records: seq<Record>, bytes: nat)

  /** The files in id order (the last one is active), the records not yet in a file, and the consumed mark. */
  datatype Disk = Disk(segments: seq<Segment>, buffered: seq<Record>, consumed: nat)

  predicate IdsIncrease(segs: seq<Segment>) { forall i, j :: 0 <= i < j < |segs| ==> segs[i].id < segs[j].id }

  const EMPTY_DISK := Disk([Segment(0, [], 0)], [], 0)

  predicate FilesOk(d: Disk) { d.segments != [] && IdsIncrease(d.segments) }

  /** The records of all files, oldest file first. */
  function RecordsOf(segs: seq<Segment>): seq<Record> {
    if segs == [] then [] else segs[0].records + RecordsOf(segs[1..])
  }

  /** Everything the spool holds, in the order it was appended: the files, then what is still buffered. */
  function Contents(d: Disk): seq<Record> { RecordsOf(d.segments) + d.buffered }

  /** Sequence numbers increase through each file, from file to file, and on into the buffer. */
  predicate Ordered(d: Disk) { Increasing(Contents(d)) }

  function ActiveId(d: Disk): nat
    requires d.segments != []
  {
    d.segments[|d.segments| - 1].id
  }

  // ----- what each operation does

  function Pushed(d: Disk, r: Record): Disk { d.(buffered := d.buffered + [r]) }

  /** The first `n` buffered records reach the active file, which then has `bytes` bytes. */
  function Spilled(d: Disk, n: nat, bytes: nat): Disk
    requires d.segments != [] && n <= |d.buffered|
  {
    var last := |d.segments| - 1;
    var active := d.segments[last];
    d.(segments := d.segments[..last] + [active.(records := active.records + d.buffered[..n], bytes := bytes)],
       buffered := d.buffered[n..])
  }

  /** Everything buffered is flushed and a new active file is newest. */
  function Rotated(d: Disk, bytes: nat): Disk
    requires d.segments != []
  {
    var f := Spilled(d, |d.buffered|, bytes);
    f.(segments := f.segments + [Segment(ActiveId(d) + 1, [], 0)])
  }

  function TotalBytes(segs: seq<Segment>): nat { if segs == [] then 0 else segs[0].bytes + TotalBytes(segs[1..]) }

  /** How many of the oldest files go: as few as bring the total within `max`, never the active one. */
  function RetentionCut(segs: seq<Segment>, max: nat): (n: nat)
    requires segs != []
    ensures n < |segs|
    ensures n + 1 == |segs| || TotalBytes(segs[n..]) <= max
    ensures forall k :: 0 <= k < n ==> TotalBytes(segs[k..]) > max
  {
    if |segs| == 1 || TotalBytes(segs) <= max then 0
    else
      var n := RetentionCut(segs[1..], max);
      assert forall k :: 0 < k <= n + 1 ==> segs[k..] == segs[1..][k - 1..];
      n + 1
  }

  /** Retention after a rotation; a limit of zero keeps everything. */
  function Retained(d: Disk, max: nat): Disk
    requires d.segments != []
  {
    if max == 0 then d else d.(segments := d.segments[RetentionCut(d.segments, max)..])
  }

  /** The file holds records and its last one is consumed. */
  predicate Spent(s: Segment, upto: nat) { s.records != [] && s.records[|s.records| - 1].seqno <= upto }

  function Unspent(segs: seq<Segment>, upto: nat): seq<Segment> {
    if segs == [] then [] else
      var rest := Unspent(segs[1..], upto);
      if Spent(segs[0], upto) then rest else [segs[0]] + rest
  }

  lemma {:induction false} UnspentMembers(segs: seq<Segment>, upto: nat)
    ensures forall s :: s in Unspent(segs, upto) <==> s in segs && !Spent(s, upto)
  {
    hide Spent;
    if segs != [] {
      UnspentMembers(segs[1..], upto);
      assert forall s :: s in segs <==> s == segs[0] || s in segs[1..];
    }
  }

  /** Spent files are deleted; a spent active file is replaced, and with it goes whatever was still buffered. */
  function Cleaned(d: Disk, upto: nat): Disk
    requires d.segments != []
  {
    var last := |d.segments| - 1;
    var active := d.segments[last];
    var kept := Unspent(d.segments[..last], upto);
    if Spent(active, upto) then Disk(kept + [Segment(active.id + 1, [], 0)], [], upto)
    else Disk(kept + [active], d.buffered, upto)
  }

  function Consumed(d: Disk, upto: nat): Disk
    requires d.segments != []
  {
    if upto <= d.consumed then d else Cleaned(d, upto)
  }

  // ----- searching with a hint

  datatype FileCursor = FileCursor(hint: nat, lastSeq: nat)

  function FirstAbove(rs: seq<Record>, floor: int): (r: Option<Record>)
    ensures r.None? <==> forall x :: x in rs ==> x.seqno <= floor
    ensures r.Some? ==> r.value in rs && r.value.seqno > floor
  {
    if rs == [] then None else if rs[0].seqno > floor then Some(rs[0]) else FirstAbove(rs[1..], floor)
  }

  /** The record at `k` is above the floor and none before it is. */
  predicate LeadsAt(rs: seq<Record>, floor: int, k: nat) {
    k < |rs| && rs[k].seqno > floor && forall j :: 0 <= j < k ==> rs[j].seqno <= floor
  }

  /** The answer a reader wants: the first record above the floor, or none when there is none. */
  ghost predicate IsFirstAbove(rs: seq<Record>, floor: int, r: Option<Record>) {
    match r
    case None => forall j :: 0 <= j < |rs| ==> rs[j].seqno <= floor
    case Some(x) => exists k: nat :: LeadsAt(rs, floor, k) && rs[k] == x
  }

  lemma {:induction false} FirstAboveIsFirst(rs: seq<Record>, floor: int)
    ensures IsFirstAbove(rs, floor, FirstAbove(rs, floor))
  {
    if rs == [] {
    } else if rs[0].seqno > floor {
      assert LeadsAt(rs, floor, 0);
    } else {
      FirstAboveIsFirst(rs[1..], floor);
      FirstBehind([rs[0]], rs[1..], floor, FirstAbove(rs[1..], floor));
      assert rs == [rs[0]] + rs[1..];
    }
  }

  /** Records at or below the floor in front change nothing. */
  lemma {:induction false} FirstBehind(front: seq<Record>, rs: seq<Record>, floor: int, r: Option<Record>)
    requires (forall j :: 0 <= j < |front| ==> front[j].seqno <= floor) && IsFirstAbove(rs, floor, r)
    ensures IsFirstAbove(front + rs, floor, r)
  {
    if r.Some? {
      var k: nat :| LeadsAt(rs, floor, k) && rs[k] == r.value;
      assert LeadsAt(front + rs, floor, |front| + k);
    }
  }

  /** Records behind the first one change nothing. */
  lemma {:induction false} FirstBefore(rs: seq<Record>, rest: seq<Record>, floor: int, r: Option<Record>)
    requires r.Some? && IsFirstAbove(rs, floor, r)
    ensures IsFirstAbove(rs + rest, floor, r)
  {
    var k: nat :| LeadsAt(rs, floor, k) && rs[k] == r.value;
    assert LeadsAt(rs + rest, floor, k);
  }

  /** The search over the files from the hinted one on, and the hint it leaves. */
  function SearchFrom(segs: seq<Segment>, hint: nat, floor: int): (Option<Record>, nat) {
    if segs == [] then (None, hint)
    else if segs[0].id < hint then SearchFrom(segs[1..], hint, floor)
    else
      var found := FirstAbove(segs[0].records, floor);
      if found.Some? then (found, segs[0].id) else SearchFrom(segs[1..], segs[0].id, floor)
  }

  function Floor(d: Disk, c: FileCursor): int { Max(c.lastSeq, d.consumed) }

  function CursorStep(d: Disk, c: FileCursor): (Option<Record>, FileCursor) {
    var (r, hint) := SearchFrom(d.segments, c.hint, Floor(d, c));
    (r, FileCursor(hint, if r.Some? then r.value.seqno else c.lastSeq))
  }

  /** The same search with hint zero, which looks at every file. */
  function PlainSearch(d: Disk, c: FileCursor): Option<Record> { CursorStep(d, FileCursor(0, c.lastSeq)).0 }

  /** Files before the hint hold nothing above the floor and will never grow. */
  predicate HintSound(d: Disk, c: FileCursor)
    requires d.segments != []
  {
    && c.hint <= ActiveId(d)
    && forall s, r :: s in d.segments && s.id < c.hint && r in s.records ==> r.seqno <= Floor(d, c)
  }

  lemma {:induction false} SearchIgnoresHint(segs: seq<Segment>, hint: nat, hint': nat, floor: int)
    requires forall s, r :: s in segs && (s.id < hint || s.id < hint') && r in s.records ==> r.seqno <= floor
    requires IdsIncrease(segs)
    ensures SearchFrom(segs, hint, floor).0 == SearchFrom(segs, hint', floor).0
    decreases |segs|
  {
    if segs != [] {
      var s, rest := segs[0], segs[1..];
      assert s in segs;
      if s.id < hint && s.id < hint' {
        SearchIgnoresHint(rest, hint, hint', floor);
      } else if s.id < hint {
        SearchIgnoresHint(rest, hint, s.id, floor);
      } else if s.id < hint' {
        SearchIgnoresHint(rest, s.id, hint', floor);
      }
    }
  }

  /** The search that looks at every file finds the first record of all of them. */
  lemma {:induction false} SearchIsFirst(segs: seq<Segment>, floor: int, hint: nat)
    requires IdsIncrease(segs) && (segs != [] ==> hint <= segs[0].id)
    ensures IsFirstAbove(RecordsOf(segs), floor, SearchFrom(segs, hint, floor).0)
    decreases |segs|
  {
    hide IsFirstAbove, FirstAbove;
    if segs == [] {
      NothingAbove(floor);
    } else {
      var first, rest := segs[0].records, RecordsOf(segs[1..]);
      FirstAboveIsFirst(first, floor);
      if FirstAbove(first, floor).Some? {
        FirstBefore(first, rest, floor, FirstAbove(first, floor));
      } else {
        SearchIsFirst(segs[1..], floor, segs[0].id);
        NoneAbove(first, floor);
        FirstBehind(first, rest, floor, SearchFrom(segs[1..], segs[0].id, floor).0);
      }
    }
  }

  lemma {:induction false} NothingAbove(floor: int)
    ensures IsFirstAbove([], floor, None)
  {}

  lemma {:induction false} NoneAbove(rs: seq<Record>, floor: int)
    requires IsFirstAbove(rs, floor, None)
    ensures forall j :: 0 <= j < |rs| ==> rs[j].seqno <= floor
  {}

  /** Without a hint a client gets the first record of all files above both its position and the consumed mark. */
  lemma {:induction false} PlainIsFirst(d: Disk, c: FileCursor)
    requires FilesOk(d)
    ensures IsFirstAbove(RecordsOf(d.segments), Max(c.lastSeq, d.consumed), PlainSearch(d, c))
  {
    hide IsFirstAbove, RecordsOf, SearchFrom;
    SearchIsFirst(d.segments, Max(c.lastSeq, d.consumed), 0);
  }

  /** A sound hint never changes the answer. */
  lemma {:induction false} HintedSearch(d: Disk, c: FileCursor)
    requires FilesOk(d) && HintSound(d, c)
    ensures CursorStep(d, c).0 == PlainSearch(d, c)
  {
    SearchIgnoresHint(d.segments, c.hint, 0, Floor(d, c));
  }

  /** Every file before the hint a search leaves was skipped or held nothing above the floor. */
  predicate LeavesHint(segs: seq<Segment>, hint: nat, floor: int, r: Option<Record>, h: nat) {
    && (h == hint || exists s :: s in segs && s.id == h)
    && (forall s, x :: s in segs && hint <= s.id < h && x in s.records ==> x.seqno <= floor)
    && (r.Some? ==> r.value.seqno > floor)
  }

  lemma {:induction false} FirstIsLowest(segs: seq<Segment>, t: Segment)
    requires IdsIncrease(segs) && segs != [] && t in segs
    ensures t == segs[0] || (t in segs[1..] && t.id > segs[0].id)
  {
    var k :| 0 <= k < |segs| && segs[k] == t;
    if k > 0 { assert segs[1..][k - 1] == t; }
  }

  /** One more file in front: skipped, or searched without finding anything. */
  lemma {:induction false} LeavesHintBehind(segs: seq<Segment>, hint: nat, next: nat, floor: int, r: Option<Record>,
                                            h: nat)
    requires IdsIncrease(segs) && segs != [] && LeavesHint(segs[1..], next, floor, r, h)
    requires if segs[0].id < hint then next == hint
             else next == segs[0].id && forall x :: x in segs[0].records ==> x.seqno <= floor
    ensures LeavesHint(segs, hint, floor, r, h)
  {
    forall s | s in segs ensures s == segs[0] || (s in segs[1..] && s.id > segs[0].id) { FirstIsLowest(segs, s); }
    assert segs[0] in segs;
  }

  lemma {:induction false} SearchLeavesHint(segs: seq<Segment>, hint: nat, floor: int)
    requires IdsIncrease(segs)
    ensures var (r, h) := SearchFrom(segs, hint, floor); LeavesHint(segs, hint, floor, r, h)
    decreases |segs|
  {
    if segs == [] {
    } else if segs[0].id >= hint && FirstAbove(segs[0].records, floor).Some? {
      forall s | s in segs ensures s.id >= segs[0].id { FirstIsLowest(segs, s); }
      assert segs[0] in segs;
    } else {
      hide LeavesHint;
      var next := if segs[0].id < hint then hint else segs[0].id;
      SearchLeavesHint(segs[1..], next, floor);
      var (r, h) := SearchFrom(segs[1..], next, floor);
      LeavesHintBehind(segs, hint, next, floor, r, h);
    }
  }

  /** Reading leaves a sound hint and moves strictly forward. */
  lemma {:induction false} ReadKeepsHint(d: Disk, c: FileCursor)
    requires FilesOk(d) && HintSound(d, c)
    ensures var (r, c') := CursorStep(d, c);
            HintSound(d, c') && (r.Some? ==> c.lastSeq < c'.lastSeq == r.value.seqno)
  {
    SearchLeavesHint(d.segments, c.hint, Floor(d, c));
    forall s | s in d.segments ensures s.id <= ActiveId(d) {
      var i :| 0 <= i < |d.segments| && d.segments[i] == s;
    }
  }

  // ----- every operation keeps the files in order and every sound hint sound

  /** A spill replaces the active file by a grown copy and touches no other. */
  lemma {:induction false} SpillShape(d: Disk, n: nat, bytes: nat) returns (active: Segment, grown: Segment)
    requires FilesOk(d) && n <= |d.buffered|
    ensures var d' := Spilled(d, n, bytes);
            && active in d.segments && active.id == ActiveId(d) && grown in d'.segments && grown.id == active.id
            && grown.records == active.records + d.buffered[..n] && d'.buffered == d.buffered[n..]
            && d'.consumed == d.consumed && FilesOk(d') && ActiveId(d') == ActiveId(d)
            && (forall s :: s in d'.segments ==> s == grown || (s in d.segments && s.id < active.id))
            && (forall s :: s in d.segments ==> s == active || (s in d'.segments && s.id < active.id))
  {
    var d' := Spilled(d, n, bytes);
    var last := |d.segments| - 1;
    active, grown := d.segments[last], d'.segments[last];
    assert forall i :: 0 <= i < last ==> d'.segments[i] == d.segments[i];
  }

  lemma {:induction false} PushKeeps(d: Disk, r: Record)
    requires FilesOk(d)
    ensures FilesOk(Pushed(d, r)) && forall c: FileCursor :: HintSound(d, c) ==> HintSound(Pushed(d, r), c)
  {}

  lemma {:induction false} SpillKeeps(d: Disk, n: nat, bytes: nat)
    requires FilesOk(d) && n <= |d.buffered|
    ensures FilesOk(Spilled(d, n, bytes)) && ActiveId(Spilled(d, n, bytes)) == ActiveId(d)
    ensures Spilled(d, n, bytes).buffered == d.buffered[n..]
    ensures forall c: FileCursor :: HintSound(d, c) ==> HintSound(Spilled(d, n, bytes), c)
  {
    hide Spilled;
    var active, grown := SpillShape(d, n, bytes);
  }

  lemma {:induction false} RotateKeeps(d: Disk, bytes: nat)
    requires FilesOk(d)
    ensures FilesOk(Rotated(d, bytes))
    ensures forall c: FileCursor :: HintSound(d, c) ==> HintSound(Rotated(d, bytes), c)
  {
    hide Spilled;
    SpillKeeps(d, |d.buffered|, bytes);
    var f := Spilled(d, |d.buffered|, bytes);
    var newest := Segment(ActiveId(d) + 1, [], 0);
    assert forall s :: s in Rotated(d, bytes).segments ==> s in f.segments || s == newest;
  }

  /** Dropping files: any selection in id order that keeps the last id. */
  lemma {:induction false} FewerFilesKeep(d: Disk, d': Disk)
    requires FilesOk(d) && FilesOk(d') && d'.consumed >= d.consumed && ActiveId(d') >= ActiveId(d)
    requires forall s :: s in d'.segments ==> s in d.segments || s.records == []
    ensures forall c: FileCursor :: HintSound(d, c) ==> HintSound(d', c)
  {}

  lemma {:induction false} RetainKeeps(d: Disk, max: nat)
    requires FilesOk(d)
    ensures FilesOk(Retained(d, max))
    ensures forall c: FileCursor :: HintSound(d, c) ==> HintSound(Retained(d, max), c)
  {
    if max > 0 { FewerFilesKeep(d, Retained(d, max)); }
  }

  lemma {:induction false} UnspentIds(segs: seq<Segment>, upto: nat)
    requires IdsIncrease(segs)
    ensures IdsIncrease(Unspent(segs, upto))
  {
    hide Spent;
    if segs != [] {
      UnspentIds(segs[1..], upto);
      UnspentMembers(segs[1..], upto);
      var left := Unspent(segs[1..], upto);
      forall i | 0 <= i < |left| ensures segs[0].id < left[i].id {
        assert left[i] in left;
        var k :| 0 <= k < |segs[1..]| && segs[1..][k] == left[i];
      }
    }
  }

  lemma {:induction false} CleanKeeps(d: Disk, upto: nat)
    requires FilesOk(d)
    ensures FilesOk(Cleaned(d, upto)) && ActiveId(Cleaned(d, upto)) >= ActiveId(d)
    ensures forall s :: s in Cleaned(d, upto).segments ==> s in d.segments || s.records == []
  {
    hide Spent, Unspent;
    var last := |d.segments| - 1;
    var front, active := d.segments[..last], d.segments[last];
    var kept := Unspent(front, upto);
    UnspentIds(front, upto);
    UnspentMembers(front, upto);
    forall i | 0 <= i < |kept| ensures kept[i] in d.segments && kept[i].id < active.id {
      assert kept[i] in front;
      var k :| 0 <= k < last && d.segments[k] == kept[i];
    }
  }

  lemma {:induction false} ConsumeKeeps(d: Disk, upto: nat)
    requires FilesOk(d)
    ensures FilesOk(Consumed(d, upto))
    ensures forall c: FileCursor :: HintSound(d, c) ==> HintSound(Consumed(d, upto), c)
  {
    if upto > d.consumed {
      CleanKeeps(d, upto);
      hide Cleaned, IdsIncrease;
      assert Cleaned(d, upto).consumed == upto by { CleanMark(d, upto); }
      FewerFilesKeep(d, Cleaned(d, upto));
    }
  }

  lemma {:induction false} CleanMark(d: Disk, upto: nat)
    requires d.segments != []
    ensures Cleaned(d, upto).consumed == upto
  {}

  // ----- whole runs

  datatype Op =
    | Push(record: Record)
    | Spill(count: nat, bytes: nat)
    | Rotate(bytes: nat)
    | Retain(max: nat)
    | Consume(upto: nat)
    | Read

  function Apply(d: Disk, op: Op): (d': Disk)
    requires d.segments != []
  {
    match op
    case Push(r) => Pushed(d, r)
    case Spill(n, bytes) => Spilled(d, Min(n, |d.buffered|), bytes)
    case Rotate(bytes) => Rotated(d, bytes)
    case Retain(max) => Retained(d, max)
    case Consume(upto) => Consumed(d, upto)
    case Read => d
  }

  lemma {:induction false} ApplyKeeps(d: Disk, op: Op)
    requires FilesOk(d)
    ensures FilesOk(Apply(d, op))
    ensures forall c: FileCursor :: HintSound(d, c) ==> HintSound(Apply(d, op), c)
  {
    hide Spilled, Rotated, Retained, Consumed;
    match op
    case Push(r) => PushKeeps(d, r);
    case Spill(n, bytes) => SpillKeeps(d, Min(n, |d.buffered|), bytes);
    case Rotate(bytes) => RotateKeeps(d, bytes);
    case Retain(max) => RetainKeeps(d, max);
    case Consume(upto) => ConsumeKeeps(d, upto);
    case Read =>
  }

  /** The answers a client gets in a run, carrying its hint along. */
  ghost function Answers(d: Disk, c: FileCursor, ops: seq<Op>): seq<Option<Record>>
    requires FilesOk(d)
    decreases |ops|
  {
    if ops == [] then []
    else
      ApplyKeeps(d, ops[0]);
      if ops[0].Read? then
        var (r, c') := CursorStep(d, c);
        [r] + Answers(d, c', ops[1..])
      else Answers(Apply(d, ops[0]), c, ops[1..])
  }

  /** The answers of a client that forgets its hint before every read. */
  ghost function PlainAnswers(d: Disk, lastSeq: nat, ops: seq<Op>): seq<Option<Record>>
    requires FilesOk(d)
    decreases |ops|
  {
    if ops == [] then []
    else
      ApplyKeeps(d, ops[0]);
      if ops[0].Read? then
        var r := PlainSearch(d, FileCursor(0, lastSeq));
        [r] + PlainAnswers(d, if r.Some? then r.value.seqno else lastSeq, ops[1..])
      else PlainAnswers(Apply(d, ops[0]), lastSeq, ops[1..])
  }

  /** Over any interleaving of writes, flushes, rotations, retention, consumption and reads, whatever the
      sequence numbers, a client with a hint gets the answers of one without. */
  lemma {:induction false} HintNeverMatters(d: Disk, c: FileCursor, ops: seq<Op>)
    requires FilesOk(d) && HintSound(d, c)
    ensures Answers(d, c, ops) == PlainAnswers(d, c.lastSeq, ops)
    decreases |ops|
  {
    hide Apply, HintSound, IdsIncrease, CursorStep;
    if ops != [] {
      ApplyKeeps(d, ops[0]);
      if ops[0].Read? {
        HintedSearch(d, c);
        ReadKeepsHint(d, c);
        StepSeq(d, c);
        HintNeverMatters(d, CursorStep(d, c).1, ops[1..]);
      } else {
        HintNeverMatters(Apply(d, ops[0]), c, ops[1..]);
      }
    }
  }

  lemma {:induction false} StepSeq(d: Disk, c: FileCursor)
    ensures var (r, c') := CursorStep(d, c); c'.lastSeq == if r.Some? then r.value.seqno else c.lastSeq
    ensures PlainSearch(d, c) == PlainSearch(d, FileCursor(0, c.lastSeq))
  {}

  // ----- what becomes of the contents

  lemma {:induction false} RecordsOfConcat(a: seq<Segment>, b: seq<Segment>)
    ensures RecordsOf(a + b) == RecordsOf(a) + RecordsOf(b)
  {
    hide RecordsOf;
    if a == [] {
      RecordsOfNone();
      assert a + b == b && [] + RecordsOf(b) == RecordsOf(b);
    } else {
      RecordsOfConcat(a[1..], b);
      assert a == [a[0]] + a[1..];
      RecordsOfPrepended(a[0], a[1..], b);
    }
  }

  lemma {:induction false} RecordsOfPrepended(s: Segment, a: seq<Segment>, b: seq<Segment>)
    requires RecordsOf(a + b) == RecordsOf(a) + RecordsOf(b)
    ensures RecordsOf([s] + a + b) == RecordsOf([s] + a) + RecordsOf(b)
  {
    hide RecordsOf;
    assert [s] + a + b == [s] + (a + b);
    RecordsOfFirst(s, a);
    RecordsOfFirst(s, a + b);
    assert s.records + (RecordsOf(a) + RecordsOf(b)) == s.records + RecordsOf(a) + RecordsOf(b);
  }

  lemma {:induction false} RecordsOfNone()
    ensures RecordsOf([]) == []
  {}

  lemma {:induction false} RecordsOfOne(s: Segment)
    ensures RecordsOf([s]) == s.records
  {
    assert [s][1..] == [] && s.records + [] == s.records;
  }

  lemma {:induction false} RecordsOfFirst(s: Segment, rest: seq<Segment>)
    ensures RecordsOf([s] + rest) == s.records + RecordsOf(rest)
  {
    assert ([s] + rest)[1..] == rest;
  }

  lemma {:induction false} RecordsOfLast(segs: seq<Segment>, s: Segment)
    ensures RecordsOf(segs + [s]) == RecordsOf(segs) + s.records
  {
    RecordsOfConcat(segs, [s]);
    RecordsOfOne(s);
  }

  /** Moving records from the buffer into the active file changes neither what is held nor its order. */
  lemma {:induction false} SpillContents(d: Disk, n: nat, bytes: nat)
    requires d.segments != [] && n <= |d.buffered|
    ensures Contents(Spilled(d, n, bytes)) == Contents(d)
  {
    hide RecordsOf;
    var last := |d.segments| - 1;
    var front, active := d.segments[..last], d.segments[last];
    var grown := active.(records := active.records + d.buffered[..n], bytes := bytes);
    assert d.segments == front + [active];
    RecordsOfLast(front, active);
    RecordsOfLast(front, grown);
    assert d.buffered == d.buffered[..n] + d.buffered[n..];
    assert RecordsOf(front) + (active.records + d.buffered[..n]) + d.buffered[n..]
        == RecordsOf(front) + active.records + (d.buffered[..n] + d.buffered[n..]);
  }

  lemma {:induction false} RotateContents(d: Disk, bytes: nat)
    requires d.segments != []
    ensures Contents(Rotated(d, bytes)) == Contents(d)
  {
    hide RecordsOf, Spilled;
    var f := Spilled(d, |d.buffered|, bytes);
    SpillContents(d, |d.buffered|, bytes);
    RecordsOfLast(f.segments, Segment(ActiveId(d) + 1, [], 0));
    assert RecordsOf(f.segments) + [] == RecordsOf(f.segments);
  }

  /** The records in the files that retention deletes. */
  function Cut(d: Disk, max: nat): seq<Record>
    requires d.segments != []
  {
    if max == 0 then [] else RecordsOf(d.segments[..RetentionCut(d.segments, max)])
  }

  lemma {:induction false} RetainContents(d: Disk, max: nat)
    requires d.segments != []
    ensures Contents(d) == Cut(d, max) + Contents(Retained(d, max))
  {
    hide RecordsOf, RetentionCut;
    if max > 0 {
      var n := RetentionCut(d.segments, max);
      RecordsOfConcat(d.segments[..n], d.segments[n..]);
      assert d.segments[..n] + d.segments[n..] == d.segments;
    }
  }

  function SpentFiles(segs: seq<Segment>, upto: nat): seq<Segment> {
    if segs == [] then [] else
      var rest := SpentFiles(segs[1..], upto);
      if Spent(segs[0], upto) then [segs[0]] + rest else rest
  }

  /** What a clean-up takes away: the spent files, and the buffer when the active file is one of them. */
  function Removed(d: Disk, upto: nat): seq<Record>
    requires d.segments != []
  {
    RecordsOf(SpentFiles(d.segments, upto)) + (if Spent(d.segments[|d.segments| - 1], upto) then d.buffered else [])
  }

  lemma {:induction false} SplitSpent(segs: seq<Segment>, upto: nat)
    ensures multiset(RecordsOf(segs))
            == multiset(RecordsOf(Unspent(segs, upto))) + multiset(RecordsOf(SpentFiles(segs, upto)))
  {
    hide Spent;
    if segs != [] {
      SplitSpent(segs[1..], upto);
      RecordsOfFirst(segs[0], Unspent(segs[1..], upto));
      RecordsOfFirst(segs[0], SpentFiles(segs[1..], upto));
    }
  }

  ghost predicate InSpentFile(segs: seq<Segment>, upto: nat, r: Record) {
    exists s :: s in segs && Spent(s, upto) && r in s.records
  }

  lemma {:induction false} InSpentFirst(segs: seq<Segment>, upto: nat, r: Record)
    requires segs != []
    ensures InSpentFile(segs, upto, r)
            <==> (Spent(segs[0], upto) && r in segs[0].records) || InSpentFile(segs[1..], upto, r)
  {
    hide Spent;
    assert forall t :: t in segs <==> t == segs[0] || t in segs[1..];
  }

  lemma {:induction false} SpentMembers(segs: seq<Segment>, upto: nat, r: Record)
    ensures r in RecordsOf(SpentFiles(segs, upto)) <==> InSpentFile(segs, upto, r)
  {
    hide Spent;
    if segs != [] {
      hide InSpentFile;
      SpentMembers(segs[1..], upto, r);
      InSpentFirst(segs, upto, r);
      RecordsOfFirst(segs[0], SpentFiles(segs[1..], upto));
    }
  }

  /** A file that is not active stays if and only if it is empty or its last record is above the mark, whatever else is
      in it. */
  lemma {:induction false} CleanKeepsFile(d: Disk, upto: nat, s: Segment)
    requires FilesOk(d) && s in d.segments[..|d.segments| - 1]
    ensures s in Cleaned(d, upto).segments <==> s.records == [] || s.records[|s.records| - 1].seqno > upto
  {
    hide Unspent;
    var last := |d.segments| - 1;
    UnspentMembers(d.segments[..last], upto);
    var k :| 0 <= k < last && d.segments[k] == s;
    assert s.id < d.segments[last].id;
  }

  /** A clean-up keeps every record it does not remove, as often as it was held. */
  lemma {:induction false} CleanConserves(d: Disk, upto: nat)
    requires d.segments != []
    ensures multiset(Contents(d)) == multiset(Contents(Cleaned(d, upto))) + multiset(Removed(d, upto))
  {
    hide RecordsOf, Spent, Unspent, SpentFiles;
    var last := |d.segments| - 1;
    var front, active := d.segments[..last], d.segments[last];
    assert d.segments == front + [active];
    SplitSpent(front, upto);
    SpentLast(front, active, upto);
    assert SpentFiles(front, upto) + [] == SpentFiles(front, upto);
    RecordsOfLast(front, active);
    RecordsOfLast(Unspent(front, upto), active);
    RecordsOfLast(Unspent(front, upto), Segment(active.id + 1, [], 0));
    RecordsOfLast(SpentFiles(front, upto), active);
  }

  lemma {:induction false} SpentLast(segs: seq<Segment>, s: Segment, upto: nat)
    ensures SpentFiles(segs + [s], upto) == SpentFiles(segs, upto) + (if Spent(s, upto) then [s] else [])
  {
    hide Spent;
    if segs == [] {
      assert segs + [s] == [s] && [s][1..] == [];
    } else {
      SpentLast(segs[1..], s, upto);
      assert (segs + [s])[1..] == segs[1..] + [s];
    }
  }

  /** A record above the mark sits in a file whose last record is not, or in the buffer behind such an active file. */
  ghost predicate Overtaken(d: Disk, upto: nat)
    requires d.segments != []
  {
    || (exists r: Record :: r.seqno > upto && InSpentFile(d.segments, upto, r))
    || (Spent(d.segments[|d.segments| - 1], upto) && exists r :: r in d.buffered && r.seqno > upto)
  }

  lemma {:induction false} OvertakenIsRemoved(d: Disk, upto: nat)
    requires d.segments != []
    ensures Overtaken(d, upto) <==> exists r :: r in Removed(d, upto) && r.seqno > upto
  {
    hide Spent, RecordsOf, SpentFiles;
    forall r ensures r in RecordsOf(SpentFiles(d.segments, upto)) <==> InSpentFile(d.segments, upto, r) {
      SpentMembers(d.segments, upto, r);
    }
  }

  /** Consumption keeps every record above the mark, as often as it was held, if and only if none is overtaken: the
      clean-up looks only at the last record of a file, and never at the buffer. */
  lemma {:induction false} ConsumeLoses(d: Disk, upto: nat)
    requires d.segments != []
    ensures (forall r: Record :: r.seqno > Max(upto, d.consumed) ==>
                           multiset(Contents(Consumed(d, upto)))[r] == multiset(Contents(d))[r])
            <==> !(upto > d.consumed && Overtaken(d, upto))
  {
    hide Cleaned, Contents, Removed, Overtaken;
    if upto > d.consumed {
      CleanConserves(d, upto);
      OvertakenIsRemoved(d, upto);
      assert forall r :: r in Removed(d, upto) <==> multiset(Removed(d, upto))[r] > 0;
    }
  }

  /** With records in sequence order, only the buffer can be overtaken. */
  lemma {:induction false} OrderedOvertaken(d: Disk, upto: nat)
    requires d.segments != [] && Ordered(d)
    ensures Overtaken(d, upto)
            <==> Spent(d.segments[|d.segments| - 1], upto) && exists r :: r in d.buffered && r.seqno > upto
  {
    forall s, r | s in d.segments && Spent(s, upto) && r in s.records ensures r.seqno <= upto {
      FileInOrder(d.segments, d.buffered, s);
      var k :| 0 <= k < |s.records| && s.records[k] == r;
    }
  }

  lemma {:induction false} FileInOrder(segs: seq<Segment>, tail: seq<Record>, s: Segment)
    requires Increasing(RecordsOf(segs) + tail) && s in segs
    ensures Increasing(s.records)
  {
    hide Increasing, RecordsOf;
    var first, rest := segs[0], segs[1..];
    RecordsOfFirst(first, rest);
    assert segs == [first] + rest;
    assert first.records + RecordsOf(rest) + tail == first.records + (RecordsOf(rest) + tail);
    PrefixInOrder(first.records, RecordsOf(rest) + tail);
    SuffixInOrder(first.records, RecordsOf(rest) + tail);
    if s != first { FileInOrder(rest, tail, s); }
  }

  // ----- sequence order

  lemma {:induction false} SuffixInOrder(a: seq<Record>, b: seq<Record>)
    requires Increasing(a + b)
    ensures Increasing(b)
  {
    assert forall i :: 0 <= i < |b| ==> b[i] == (a + b)[|a| + i];
  }

  /** Leaving records out of the second half keeps the order. */
  lemma {:induction false} ThinnedInOrder(a: seq<Record>, b: seq<Record>, c: seq<Record>)
    requires Increasing(a + b) && Increasing(c) && forall x :: x in c ==> x in b
    ensures Increasing(a + c)
  {
    assert forall i :: 0 <= i < |a| ==> a[i] == (a + b)[i];
    forall i, j | 0 <= i < j < |a + c| ensures (a + c)[i].seqno < (a + c)[j].seqno {
      if i < |a| <= j {
        assert c[j - |a|] in c;
        var k :| 0 <= k < |b| && b[k] == c[j - |a|];
        assert (a + b)[|a| + k] == b[k];
      }
    }
  }

  lemma {:induction false} UnspentInOrder(segs: seq<Segment>, tail: seq<Record>, upto: nat)
    requires Increasing(RecordsOf(segs) + tail)
    ensures Increasing(RecordsOf(Unspent(segs, upto)) + tail)
    ensures forall x :: x in RecordsOf(Unspent(segs, upto)) ==> x in RecordsOf(segs)
  {
    hide Spent, Increasing;
    if segs != [] {
      var head, rest, left := segs[0].records, RecordsOf(segs[1..]) + tail, RecordsOf(Unspent(segs[1..], upto)) + tail;
      assert RecordsOf(segs) + tail == head + rest;
      SuffixInOrder(head, rest);
      UnspentInOrder(segs[1..], tail, upto);
      ThinnedInOrder(head, rest, left);
      RecordsOfFirst(segs[0], Unspent(segs[1..], upto));
      assert head + RecordsOf(Unspent(segs[1..], upto)) + tail == head + left;
    }
  }

  lemma {:induction false} CleanInOrder(d: Disk, upto: nat)
    requires d.segments != [] && Ordered(d)
    ensures Ordered(Cleaned(d, upto))
  {
    hide Spent, Unspent, RecordsOf, Increasing;
    var last := |d.segments| - 1;
    var front, active := d.segments[..last], d.segments[last];
    var kept := Unspent(front, upto);
    var tail := active.records + d.buffered;
    assert d.segments == front + [active];
    RecordsOfLast(front, active);
    RecordsOfLast(kept, active);
    RecordsOfLast(kept, Segment(active.id + 1, [], 0));
    assert RecordsOf(front) + active.records + d.buffered == RecordsOf(front) + tail;
    assert RecordsOf(kept) + active.records + d.buffered == RecordsOf(kept) + tail;
    UnspentInOrder(front, tail, upto);
    PrefixInOrder(RecordsOf(kept), tail);
    assert RecordsOf(kept) + [] + [] == RecordsOf(kept);
  }

  lemma {:induction false} PrefixInOrder(a: seq<Record>, b: seq<Record>)
    requires Increasing(a + b)
    ensures Increasing(a)
  {
    assert forall i :: 0 <= i < |a| ==> a[i] == (a + b)[i];
  }

  /** Records pushed in sequence order stay in order through every operation. */
  lemma {:induction false} ApplyKeepsOrder(d: Disk, op: Op)
    requires d.segments != [] && Ordered(d)
    requires op.Push? ==> forall x :: x in Contents(d) ==> x.seqno < op.record.seqno
    ensures Ordered(Apply(d, op))
  {
    match op
    case Push(r) => assert Contents(Pushed(d, r)) == Contents(d) + [r];
    case Spill(n, bytes) => SpillContents(d, Min(n, |d.buffered|), bytes);
    case Rotate(bytes) => RotateContents(d, bytes);
    case Retain(max) =>
      RetainContents(d, max);
      SuffixInOrder(Cut(d, max), Contents(Retained(d, max)));
    case Consume(upto) => CleanInOrder(d, upto);
    case Read =>
  }

  // ----- every pushed record is accounted for

  function Above(rs: seq<Record>, upto: nat): (r: seq<Record>)
    ensures forall x :: x in r <==> x in rs && x.seqno > upto
  {
    if rs == [] then [] else
      var rest := Above(rs[1..], upto);
      if rs[0].seqno > upto then [rs[0]] + rest else rest
  }

  function NotAbove(rs: seq<Record>, upto: nat): (r: seq<Record>)
    ensures forall x :: x in r <==> x in rs && x.seqno <= upto
  {
    if rs == [] then [] else
      var rest := NotAbove(rs[1..], upto);
      if rs[0].seqno <= upto then [rs[0]] + rest else rest
  }

  lemma {:induction false} SplitAbove(rs: seq<Record>, upto: nat)
    ensures multiset(rs) == multiset(Above(rs, upto)) + multiset(NotAbove(rs, upto))
  {
    if rs != [] {
      SplitAbove(rs[1..], upto);
      assert rs == [rs[0]] + rs[1..];
    }
  }

  /** A spool with a history: what was pushed, and what left it acknowledged, cut by retention, or lost. */
  datatype Ledger = Ledger(disk: Disk, pushed: seq<Record>, acked: seq<Record>, cut: seq<Record>, lost: seq<Record>)

  function Entered(l: Ledger, op: Op): Ledger
    requires l.disk.segments != []
  {
    var d := l.disk;
    match op
    case Push(r) => l.(disk := Apply(d, op), pushed := l.pushed + [r])
    case Retain(max) => l.(disk := Apply(d, op), cut := l.cut + Cut(d, max))
    case Consume(upto) =>
      if upto <= d.consumed then l
      else
        var gone := Removed(d, upto);
        l.(disk := Apply(d, op), acked := l.acked + NotAbove(gone, upto), lost := l.lost + Above(gone, upto))
    case Spill(_, _) => l.(disk := Apply(d, op))
    case Rotate(_) => l.(disk := Apply(d, op))
    case Read => l
  }

  /** Nothing pushed is missing and nothing is counted twice. */
  ghost predicate Conserved(l: Ledger) {
    && multiset(l.pushed) == multiset(Contents(l.disk)) + multiset(l.acked) + multiset(l.cut) + multiset(l.lost)
    && forall r :: r in l.acked ==> r.seqno <= l.disk.consumed
  }

  lemma {:induction false} EnteredConserves(l: Ledger, op: Op)
    requires FilesOk(l.disk) && Conserved(l)
    ensures FilesOk(Entered(l, op).disk) && Entered(l, op).disk == Apply(l.disk, op) && Conserved(Entered(l, op))
    ensures (Entered(l, op).lost == [] <==>
               l.lost == [] && !(op.Consume? && op.upto > l.disk.consumed && Overtaken(l.disk, op.upto)))
  {
    hide Contents, Spilled, Rotated, Retained, Cleaned, Removed, Overtaken, IdsIncrease, Cut;
    var d := l.disk;
    ApplyKeeps(d, op);
    match op
    case Push(r) => PushContents(d, r);
    case Spill(n, bytes) => SpillContents(d, Min(n, |d.buffered|), bytes); SameMark(d, op);
    case Rotate(bytes) => RotateContents(d, bytes); SameMark(d, op);
    case Retain(max) => RetainContents(d, max); SameMark(d, op);
    case Consume(upto) => ConsumeEntered(l, upto);
    case Read =>
  }

  lemma {:induction false} ConsumeEntered(l: Ledger, upto: nat)
    requires l.disk.segments != [] && Conserved(l)
    ensures Entered(l, Consume(upto)).disk == Consumed(l.disk, upto) && Conserved(Entered(l, Consume(upto)))
    ensures Entered(l, Consume(upto)).lost == []
            <==> l.lost == [] && !(upto > l.disk.consumed && Overtaken(l.disk, upto))
  {
    hide Contents, Cleaned, Removed, Overtaken, Above, NotAbove;
    var d := l.disk;
    if upto > d.consumed {
      CleanConserves(d, upto);
      CleanMark(d, upto);
      OvertakenIsRemoved(d, upto);
      SplitAbove(Removed(d, upto), upto);
      NoneInEmpty(Above(Removed(d, upto), upto));
    }
  }

  lemma {:induction false} PushContents(d: Disk, r: Record)
    ensures Contents(Pushed(d, r)) == Contents(d) + [r] && Pushed(d, r).consumed == d.consumed
  {}

  lemma {:induction false} SameMark(d: Disk, op: Op)
    requires d.segments != [] && (op.Spill? || op.Rotate? || op.Retain?)
    ensures Apply(d, op).consumed == d.consumed
  {}

  lemma {:induction false} NoneInEmpty(rs: seq<Record>)
    ensures rs == [] <==> forall r :: r !in rs
  {
    assert rs != [] ==> rs[0] in rs;
  }

  /** A run of operations on a spool that starts out holding `d`. */
  function Play(d: Disk, ops: seq<Op>): (l: Ledger)
    requires FilesOk(d)
    ensures FilesOk(l.disk)
    decreases |ops|
  {
    if ops == [] then Ledger(d, Contents(d), [], [], [])
    else
      var l := Play(d, ops[..|ops| - 1]);
      ApplyKeeps(l.disk, ops[|ops| - 1]);
      Entered(l, ops[|ops| - 1])
  }

  /** Step `k` of the run acknowledges past a record it overtakes. */
  ghost predicate Overtakes(d: Disk, ops: seq<Op>, k: nat)
    requires FilesOk(d) && k < |ops|
  {
    var before := Play(d, ops[..k]).disk;
    ops[k].Consume? && ops[k].upto > before.consumed && Overtaken(before, ops[k].upto)
  }

  /** Over any run, whatever the sequence numbers: every record the spool ever held is still held, was acknowledged, was
      cut by retention, or was lost, each exactly once; and nothing is lost if and only if no acknowledgement overtakes
      a record. */
  lemma {:induction false} Accounting(d: Disk, ops: seq<Op>)
    requires FilesOk(d)
    ensures Conserved(Play(d, ops))
    ensures Play(d, ops).lost == [] <==> forall k: nat :: k < |ops| ==> !Overtakes(d, ops, k)
    decreases |ops|
  {
    hide Contents, Conserved, Entered, Overtaken, IdsIncrease;
    if ops == [] {
      Untouched(d);
    } else {
      var n := |ops| - 1;
      Accounting(d, ops[..n]);
      EnteredConserves(Play(d, ops[..n]), ops[n]);
      forall k: nat | k < n ensures Overtakes(d, ops, k) == Overtakes(d, ops[..n], k) {
        assert ops[..n][..k] == ops[..k];
      }
      assert Overtakes(d, ops, n) == (var l := Play(d, ops[..n]).disk;
                                      ops[n].Consume? && ops[n].upto > l.consumed && Overtaken(l, ops[n].upto));
    }
  }

  lemma {:induction false} Untouched(d: Disk)
    ensures Conserved(Ledger(d, Contents(d), [], [], []))
  {}

  lemma {:induction false} PlayMore(d: Disk, ops: seq<Op>, op: Op)
    requires FilesOk(d)
    ensures Play(d, ops + [op]) == Entered(Play(d, ops), op)
  {
    hide Entered;
    assert (ops + [op])[..|ops|] == ops;
  }

  lemma {:induction false} EnteredQuietly(l: Ledger, op: Op)
    requires l.disk.segments != [] && (op.Push? || op.Spill?)
    ensures Entered(l, op).disk == Apply(l.disk, op) && Entered(l, op).lost == l.lost
  {}

  lemma {:induction false} FirstFlushed(a: Record, b: Record, bytes: nat)
    ensures Apply(EMPTY_DISK, Push(a)) == Disk([Segment(0, [], 0)], [a], 0)
    ensures Apply(Disk([Segment(0, [], 0)], [a], 0), Spill(1, bytes)) == Disk([Segment(0, [a], bytes)], [], 0)
    ensures Apply(Disk([Segment(0, [a], bytes)], [], 0), Push(b)) == Disk([Segment(0, [a], bytes)], [b], 0)
  {
    assert [a][..1] == [a] && [a][1..] == [] && [] + [a] == [a] && [] + [b] == [b];
    assert [Segment(0, [], 0)][..0] + [Segment(0, [a], bytes)] == [Segment(0, [a], bytes)];
  }

  /** One record in the active file and one still in the buffer. */
  lemma {:induction false} FlushedThenPushed(a: Record, b: Record, bytes: nat)
    ensures var l := Play(EMPTY_DISK, [Push(a), Spill(1, bytes), Push(b)]);
            l.disk == Disk([Segment(0, [a], bytes)], [b], 0) && l.lost == []
  {
    hide Play, Entered, Apply, Contents;
    var none: seq<Op> := [];
    PlayNone(EMPTY_DISK);
    PlayMore(EMPTY_DISK, none, Push(a));
    assert none + [Push(a)] == [Push(a)];
    PlayMore(EMPTY_DISK, [Push(a)], Spill(1, bytes));
    assert [Push(a)] + [Spill(1, bytes)] == [Push(a), Spill(1, bytes)];
    PlayMore(EMPTY_DISK, [Push(a), Spill(1, bytes)], Push(b));
    assert [Push(a), Spill(1, bytes)] + [Push(b)] == [Push(a), Spill(1, bytes), Push(b)];
    FirstFlushed(a, b, bytes);
    EnteredQuietly(Play(EMPTY_DISK, none), Push(a));
    EnteredQuietly(Play(EMPTY_DISK, [Push(a)]), Spill(1, bytes));
    EnteredQuietly(Play(EMPTY_DISK, [Push(a), Spill(1, bytes)]), Push(b));
  }

  /** Two records, the first flushed and the second still buffered: acknowledging the first loses the second. */
  lemma {:induction false} AckLosesNext(a: Record, b: Record, bytes: nat)
    requires 0 < a.seqno < b.seqno
    ensures Play(EMPTY_DISK, [Push(a), Spill(1, bytes), Push(b), Consume(a.seqno)]).lost == [b]
  {
    hide Play, Removed, Above, NotAbove;
    var ops := [Push(a), Spill(1, bytes), Push(b)];
    FlushedThenPushed(a, b, bytes);
    PlayMore(EMPTY_DISK, ops, Consume(a.seqno));
    assert ops + [Consume(a.seqno)] == [Push(a), Spill(1, bytes), Push(b), Consume(a.seqno)];
    LostBehind(a, b, Segment(0, [a], bytes));
    assert [] + [b] == [b];
  }

  lemma {:induction false} PlayNone(d: Disk)
    requires FilesOk(d)
    ensures Play(d, []) == Ledger(d, Contents(d), [], [], [])
  {}

  lemma {:induction false} LostBehind(a: Record, b: Record, file: Segment)
    requires a.seqno < b.seqno && file.records == [a]
    ensures Above(Removed(Disk([file], [b], 0), a.seqno), a.seqno) == [b]
  {
    assert [file][1..] == [];
    assert SpentFiles([file], a.seqno) == [file] + SpentFiles([], a.seqno);
    RecordsOfOne(file);
    assert Removed(Disk([file], [b], 0), a.seqno) == [a, b];
    assert [a, b][1..] == [b] && [b][1..] == [];
    assert Above([b], a.seqno) == [b] + Above([], a.seqno);
    assert Above([a, b], a.seqno) == Above([a, b][1..], a.seqno);
  }

  // ----- the spool object

  /** What the file system reports around one append: did the writer take the record, how many buffered records
      reached the file, the file size then, the bytes still pending, and the sizes at the two possible rotations. */
  datatype AppendIo = AppendIo(rotateBytes: nat, accepted: bool, spilled: nat, bytes: nat, pending: nat,
                               finalBytes: nat)

  /** Every hint that was sound still is. */
  ghost predicate KeepsHints(d: Disk, d': Disk)
    requires d.segments != [] && d'.segments != []
  {
    forall c: FileCursor :: HintSound(d, c) ==> HintSound(d', c)
  }

  /** Only the oldest records are gone, and the rest are in the same order. */
  ghost predicate LosesOldest(all: seq<Record>, left: seq<Record>) { |left| <= |all| && left == all[|all| - |left|..] }

  lemma {:induction false} LosesOldestTwice(a: seq<Record>, b: seq<Record>, r: Record, c: seq<Record>)
    requires LosesOldest(a, b)
    ensures LosesOldest(b, c) ==> LosesOldest(a, c)
    ensures LosesOldest(a + [r], b + [r])
  {}

  lemma {:induction false} RetainLosesOldest(d: Disk, max: nat)
    requires d.segments != []
    ensures LosesOldest(Contents(d), Contents(Retained(d, max))) && (max == 0 ==> Retained(d, max) == d)
  {
    hide Contents, Retained, Cut;
    RetainContents(d, max);
    if max == 0 { RetainAll(d); }
  }

  lemma {:induction false} RetainAll(d: Disk)
    requires d.segments != []
    ensures Retained(d, 0) == d
  {}

  /** Only the oldest files are gone, and keeping one more would have been too much. */
  predicate LosesFewest(all: seq<Segment>, left: seq<Segment>, max: nat) {
    && |left| <= |all| && left == all[|all| - |left|..]
    && forall k :: 0 <= k < |all| - |left| ==> TotalBytes(all[k..]) > max
  }

  /** The disk after one append. */
  ghost function AppendedDisk(d: Disk, target: nat, max: nat, r: Record, io: AppendIo): Disk
    requires FilesOk(d)
  {
    var bytes := d.segments[|d.segments| - 1].bytes;
    var a := if bytes >= target && bytes > 0 then RotatedDisk(d, io.rotateBytes, max) else d;
    if !io.accepted then a
    else
      ApplyKeeps(a, Push(r));
      ApplyKeeps(Apply(a, Push(r)), Spill(io.spilled, io.bytes));
      var b := Apply(Apply(a, Push(r)), Spill(io.spilled, io.bytes));
      if io.bytes + io.pending >= target then RotatedDisk(b, io.finalBytes, max) else b
  }

  ghost function RotatedDisk(d: Disk, bytes: nat, max: nat): (d': Disk)
    requires FilesOk(d)
    ensures FilesOk(d')
  {
    ApplyKeeps(d, Rotate(bytes));
    ApplyKeeps(Apply(d, Rotate(bytes)), Retain(max));
    Apply(Apply(d, Rotate(bytes)), Retain(max))
  }

  /** Files roll exactly when they are full: an append starts a new file for each of its two size tests that succeeds
      and for nothing else, and leaves an active file that, with the bytes still pending, is below a positive target. */
  lemma {:induction false} AppendRolls(d: Disk, target: nat, max: nat, r: Record, io: AppendIo)
    requires FilesOk(d)
    ensures var e := AppendedDisk(d, target, max, r, io);
            var wasFull := 0 < d.segments[|d.segments| - 1].bytes && target <= d.segments[|d.segments| - 1].bytes;
            var nowFull := io.accepted && io.bytes + io.pending >= target;
            && FilesOk(e) && ActiveId(e) == ActiveId(d) + (if wasFull then 1 else 0) + (if nowFull then 1 else 0)
            && (nowFull ==> e.buffered == [] && e.segments[|e.segments| - 1].bytes == 0)
            && (io.accepted && !nowFull ==> e.segments[|e.segments| - 1].bytes == io.bytes)
            && (io.accepted && target > 0 ==>
                  e.segments[|e.segments| - 1].bytes + (if nowFull then 0 else io.pending) < target)
  {
    hide Apply, IdsIncrease, RotatedDisk;
    var bytes := d.segments[|d.segments| - 1].bytes;
    RotatedActive(d, io.rotateBytes, max);
    var a := if bytes >= target && bytes > 0 then RotatedDisk(d, io.rotateBytes, max) else d;
    ApplyKeeps(a, Push(r));
    ApplyPush(a, r);
    var b := Apply(a, Push(r));
    ApplyKeeps(b, Spill(io.spilled, io.bytes));
    SpilledActive(b, io.spilled, io.bytes);
    RotatedActive(Apply(b, Spill(io.spilled, io.bytes)), io.finalBytes, max);
  }

  lemma {:induction false} SpilledActive(d: Disk, n: nat, bytes: nat)
    requires d.segments != []
    ensures var e := Apply(d, Spill(n, bytes));
            e.segments != [] && ActiveId(e) == ActiveId(d) && e.segments[|e.segments| - 1].bytes == bytes
  {}

  lemma {:induction false} RotatedActive(d: Disk, bytes: nat, max: nat)
    requires FilesOk(d)
    ensures var e := RotatedDisk(d, bytes, max);
            e.buffered == [] && ActiveId(e) == ActiveId(d) + 1 && e.segments[|e.segments| - 1].bytes == 0
  {
    hide RetentionCut;
    assert d.buffered[|d.buffered|..] == [];
  }

  lemma {:induction false} ApplyRotate(d: Disk, bytes: nat)
    requires d.segments != []
    ensures var f := Apply(d, Spill(|d.buffered|, bytes));
            Apply(d, Rotate(bytes)) == f.(segments := f.segments + [Segment(ActiveId(d) + 1, [], 0)])
    ensures Contents(Apply(d, Rotate(bytes))) == Contents(d)
  {
    hide Spilled, Contents;
    RotateContents(d, bytes);
  }

  lemma {:induction false} OldestInOrder(all: seq<Record>, left: seq<Record>)
    requires LosesOldest(all, left)
    ensures Increasing(all) ==> Increasing(left)
  {
    var n := |all| - |left|;
    assert all == all[..n] + left;
    if Increasing(all) { SuffixInOrder(all[..n], left); }
  }

  lemma {:induction false} AppendInOrder(all: seq<Record>, r: Record)
    requires forall x :: x in all ==> x.seqno < r.seqno
    ensures Increasing(all) ==> Increasing(all + [r])
  {}

  lemma {:induction false} ApplyPush(d: Disk, r: Record)
    requires d.segments != []
    ensures Apply(d, Push(r)) == d.(buffered := d.buffered + [r])
    ensures Contents(Apply(d, Push(r))) == Contents(d) + [r]
    ensures FilesOk(d) ==> FilesOk(Apply(d, Push(r))) && KeepsHints(d, Apply(d, Push(r)))
  {
    PushContents(d, r);
    if FilesOk(d) { PushKeeps(d, r); }
  }

  lemma {:induction false} SameSpool(d: Disk)
    requires d.segments != []
    ensures KeepsHints(d, d) && LosesOldest(Contents(d), Contents(d))
  {}

  lemma {:induction false} Refused(d: Disk, a: Disk, r: Record)
    requires LosesOldest(Contents(d), Contents(a))
    ensures LosesOldest(Contents(d) + [], Contents(a)) && Contents(d) + [] == Contents(d) && (Ordered(d) ==> Ordered(a))
  {
    hide Contents;
    assert Contents(d) + [] == Contents(d);
    OldestInOrder(Contents(d), Contents(a));
  }

  /** A possible rotation, a push, a spill, a possible rotation. */
  lemma {:induction false} Taken(d: Disk, a: Disk, b: Disk, c: Disk, e: Disk, r: Record)
    requires forall x :: x in [d, a, b, c, e] ==> x.segments != []
    requires KeepsHints(d, a) && KeepsHints(a, b) && KeepsHints(b, c) && KeepsHints(c, e)
    requires LosesOldest(Contents(d), Contents(a)) && Contents(b) == Contents(a) + [r] && Contents(c) == Contents(b)
    requires LosesOldest(Contents(c), Contents(e))
    ensures KeepsHints(d, e) && LosesOldest(Contents(d) + [r], Contents(e))
    ensures Ordered(d) && (forall x :: x in Contents(d) ==> x.seqno < r.seqno) ==> Ordered(e)
  {
    hide Contents, HintSound;
    LosesOldestTwice(Contents(d), Contents(a), r, []);
    LosesOldestTwice(Contents(d) + [r], Contents(a) + [r], r, Contents(e));
    OldestInOrder(Contents(d) + [r], Contents(e));
    if forall x :: x in Contents(d) ==> x.seqno < r.seqno { AppendInOrder(Contents(d), r); }
  }

  /** The files a spool works with: the newest is active unless it is full or missing. */
  function WithActive(files: seq<Segment>, target: nat): (segs: seq<Segment>)
    ensures segs != []
  {
    if files == [] then [Segment(0, [], 0)]
    else if files[|files| - 1].bytes < target then files
    else files + [Segment(files[|files| - 1].id + 1, [], 0)]
  }

  lemma {:induction false} ActiveAdded(files: seq<Segment>, target: nat)
    requires IdsIncrease(files)
    ensures IdsIncrease(WithActive(files, target)) && RecordsOf(WithActive(files, target)) == RecordsOf(files)
  {
    if files == [] {
      RecordsOfOne(Segment(0, [], 0));
    } else {
      hide RecordsOf;
      RecordsOfLast(files, Segment(files[|files| - 1].id + 1, [], 0));
      assert RecordsOf(files) + [] == RecordsOf(files);
    }
  }

  /** A file at or past the target gets a successor when a spool is opened, and no other does. */
  lemma {:induction false} ActiveBelow(files: seq<Segment>, target: nat)
    ensures var segs := WithActive(files, target);
            && (target > 0 ==> segs[|segs| - 1].bytes < target) && files <= segs
            && (segs == files <==> files != [] && files[|files| - 1].bytes < target)
  {}

  lemma {:induction false} NothingBuffered(d: Disk, upto: nat)
    requires d.segments != [] && d.buffered == []
    ensures Contents(d) == RecordsOf(d.segments) && Removed(d, upto) == RecordsOf(SpentFiles(d.segments, upto))
  {
    hide RecordsOf, SpentFiles, Spent;
    assert RecordsOf(d.segments) + [] == RecordsOf(d.segments);
    assert RecordsOf(SpentFiles(d.segments, upto)) + [] == RecordsOf(SpentFiles(d.segments, upto));
  }

  lemma {:induction false} CleanSame(d: Disk, upto: nat)
    requires d.segments != []
    ensures Cleaned(d.(consumed := upto), upto) == Cleaned(d, upto)
  {}

  class Spool {
    const target: nat
    const maxTotal: nat
    var segments: seq<Segment>
    var buffered: seq<Record>
    var consumed: nat

    ghost function View(): Disk
      reads this
    {
      Disk(segments, buffered, consumed)
    }

    /** Opens a directory with these files and this consumed mark: a full newest file gets a successor, and what is
        already consumed is cleaned up. */
    constructor (target: nat, maxTotal: nat, files: seq<Segment>, consumed: nat)
      requires IdsIncrease(files)
      ensures View() == Cleaned(Disk(WithActive(files, target), [], consumed), consumed) && FilesOk(View())
      ensures multiset(RecordsOf(files))
           == multiset(Contents(View())) + multiset(RecordsOf(SpentFiles(WithActive(files, target), consumed)))
      ensures this.target == target && this.maxTotal == maxTotal
    {
      this.target := target;
      this.maxTotal := maxTotal;
      this.segments := WithActive(files, target);
      this.buffered := [];
      this.consumed := consumed;
      new;
      hide RecordsOf, SpentFiles, Cleaned, IdsIncrease;
      ActiveAdded(files, target);
      NothingBuffered(View(), consumed);
      CleanUp();
    }

    function Active(): Segment
      requires segments != []
      reads this
    {
      segments[|segments| - 1]
    }

    /** Takes one record, perhaps rotating before and after: it goes behind everything held, at most the oldest records
        go to retention, and order and hints are kept. */
    method Append(r: Record, io: AppendIo) returns (ok: bool)
      requires FilesOk(View())
      modifies this
      ensures FilesOk(View()) && ok == io.accepted
      ensures View() == AppendedDisk(old(View()), target, maxTotal, r, io)
      ensures KeepsHints(old(View()), View())
      ensures LosesOldest(Contents(old(View())) + (if ok then [r] else []), Contents(View()))
      ensures maxTotal == 0 ==> Contents(View()) == Contents(old(View())) + (if ok then [r] else [])
      ensures Ordered(old(View())) && (forall x :: x in Contents(old(View())) ==> x.seqno < r.seqno) ==> Ordered(View())
    {
      hide Apply, IdsIncrease, KeepsHints, LosesOldest, Contents, Ordered;
      ghost var d := View();
      SameSpool(d);
      if Active().bytes >= target && Active().bytes > 0 { RotateFile(io.rotateBytes); }
      ghost var a := View();
      if !io.accepted {
        Refused(d, a, r);
        return false;
      }
      ApplyPush(a, r);
      buffered := buffered + [r];
      ghost var b := View();
      FlushSome(io.spilled, io.bytes);
      ghost var c := View();
      SameSpool(c);
      if io.bytes + io.pending >= target { RotateFile(io.finalBytes); }
      Taken(d, a, b, c, View(), r);
      ok := true;
    }

    /** Moves up to `n` buffered records into the active file. */
    method FlushSome(n: nat, bytes: nat)
      requires FilesOk(View())
      modifies this
      ensures View() == Apply(old(View()), Spill(n, bytes)) && FilesOk(View())
      ensures KeepsHints(old(View()), View()) && Contents(View()) == Contents(old(View()))
    {
      ApplyKeeps(View(), Spill(n, bytes));
      var m := Min(n, |buffered|);
      SpillContents(View(), m, bytes);
      var last := |segments| - 1;
      var active := segments[last];
      segments := segments[..last] + [active.(records := active.records + buffered[..m], bytes := bytes)];
      buffered := buffered[m..];
    }

    /** Flushes the buffer, opens the next file and enforces retention. */
    method RotateFile(bytes: nat)
      requires FilesOk(View())
      modifies this
      ensures View() == Apply(Apply(old(View()), Rotate(bytes)), Retain(maxTotal)) && FilesOk(View())
      ensures KeepsHints(old(View()), View()) && LosesOldest(Contents(old(View())), Contents(View()))
      ensures maxTotal == 0 ==> Contents(View()) == Contents(old(View()))
      ensures maxTotal > 0 ==> |segments| == 1 || TotalBytes(segments) <= maxTotal
    {
      hide Apply, IdsIncrease, HintSound, Contents;
      ghost var d := View();
      ApplyKeeps(d, Rotate(bytes));
      ApplyRotate(d, bytes);
      var id := Active().id;
      FlushSome(|buffered|, bytes);
      segments := segments + [Segment(id + 1, [], 0)];
      EnforceRetention();
    }

    /** Deletes the oldest files until the total is within the limit, sparing the active one. */
    method EnforceRetention()
      requires FilesOk(View())
      modifies this
      ensures View() == Apply(old(View()), Retain(maxTotal)) && FilesOk(View())
      ensures KeepsHints(old(View()), View()) && LosesOldest(Contents(old(View())), Contents(View()))
      ensures maxTotal == 0 ==> View() == old(View())
      ensures maxTotal > 0 ==> |segments| == 1 || TotalBytes(segments) <= maxTotal
      ensures maxTotal > 0 ==> LosesFewest(old(segments), segments, maxTotal)
    {
      ApplyKeeps(View(), Retain(maxTotal));
      RetainLosesOldest(View(), maxTotal);
      if maxTotal == 0 { return; }
      var n := CountExcess(segments, maxTotal);
      segments := segments[n..];
      assert segments == old(segments)[n..];
    }

    method ConsumeThrough(upto: nat)
      requires FilesOk(View())
      modifies this
      ensures View() == Apply(old(View()), Consume(upto)) && FilesOk(View())
      ensures KeepsHints(old(View()), View()) && (Ordered(old(View())) ==> Ordered(View()))
      ensures (forall x: Record :: x.seqno > Max(upto, old(consumed)) ==>
                 multiset(Contents(View()))[x] == multiset(Contents(old(View())))[x])
              <==> !(upto > old(consumed) && Overtaken(old(View()), upto))
    {
      hide Cleaned, Contents, Overtaken, IdsIncrease, HintSound, Ordered;
      ghost var d := View();
      ApplyKeeps(d, Consume(upto));
      ConsumeLoses(d, upto);
      if Ordered(d) { CleanInOrder(d, upto); }
      if upto <= consumed { return; }
      consumed := upto;
      CleanUp();
      CleanSame(d, upto);
    }

    /** Deletes every spent file; a spent active file is replaced by an empty one. */
    method CleanUp()
      requires FilesOk(View())
      modifies this
      ensures View() == Cleaned(old(View()), old(consumed)) && FilesOk(View()) && consumed == old(consumed)
      ensures multiset(Contents(old(View()))) == multiset(Contents(View())) + multiset(Removed(old(View()), consumed))
    {
      ghost var d := View();
      CleanKeeps(d, consumed);
      CleanConserves(d, consumed);
      hide Spent, Unspent, Contents, Removed;
      var all, activeId := segments, Active().id;
      var kept: seq<Segment> := [];
      UnspentStart(all, consumed);
      for i := 0 to |all|
        invariant i < |all| ==> kept == Unspent(all[..i], consumed) && buffered == d.buffered
        invariant i == |all| ==> Disk(kept, buffered, consumed) == Cleaned(d, consumed)
        invariant consumed == d.consumed
      {
        UnspentStep(all, i, consumed);
        if !Spent(all[i], consumed) {
          kept := kept + [all[i]];
        } else if all[i].id == activeId {
          kept := kept + [Segment(activeId + 1, [], 0)];
          buffered := [];
        }
        assert i + 1 == |all| ==> all[..i] == d.segments[..|d.segments| - 1];
      }
      segments := kept;
    }

    /** The first record above the floor, looking from the hinted file on. */
    method NextForCursor(c: FileCursor) returns (r: Option<Record>, c': FileCursor)
      requires FilesOk(View())
      ensures (r, c') == CursorStep(View(), c)
      ensures HintSound(View(), c) ==> r == PlainSearch(View(), c) && HintSound(View(), c')
      ensures HintSound(View(), c) ==> IsFirstAbove(RecordsOf(segments), Max(c.lastSeq, consumed), r)
    {
      hide PlainSearch, HintSound, FirstAbove, IsFirstAbove, RecordsOf;
      var floor := Max(c.lastSeq, consumed);
      var hint := c.hint;
      PlainIsFirst(View(), c);
      if HintSound(View(), c) { HintedSearch(View(), c); ReadKeepsHint(View(), c); }
      for i := 0 to |segments|
        invariant SearchFrom(segments, c.hint, floor) == SearchFrom(segments[i..], hint, floor)
      {
        assert segments[i..][1..] == segments[i + 1..];
        if segments[i].id < hint { continue; }
        var found := ScanFile(segments[i].records, floor);
        if found.Some? { return found, FileCursor(segments[i].id, found.value.seqno); }
        hint := segments[i].id;
      }
      r, c' := None, FileCursor(hint, c.lastSeq);
    }
  }

  method ScanFile(rs: seq<Record>, floor: int) returns (r: Option<Record>)
    ensures r == FirstAbove(rs, floor) && IsFirstAbove(rs, floor, r)
  {
    hide IsFirstAbove;
    FirstAboveIsFirst(rs, floor);
    for i := 0 to |rs|
      invariant FirstAbove(rs, floor) == FirstAbove(rs[i..], floor)
    {
      if rs[i].seqno > floor { return Some(rs[i]); }
      assert rs[i..][1..] == rs[i + 1..];
    }
    r := None;
  }

  method SumBytes(segs: seq<Segment>) returns (n: nat)
    ensures n == TotalBytes(segs)
  {
    n := 0;
    for i := |segs| downto 0
      invariant n == TotalBytes(segs[i..])
    {
      n := n + segs[i].bytes;
      assert segs[i..][1..] == segs[i + 1..];
    }
  }

  /** The loop that removes the oldest files while there is excess and the active file is not reached. */
  method CountExcess(all: seq<Segment>, max: nat) returns (n: nat)
    requires all != [] && IdsIncrease(all)
    ensures n == RetentionCut(all, max)
  {
    hide RetentionCut, TotalBytes, IdsIncrease;
    var total := SumBytes(all);
    n := 0;
    assert all[0..] == all;
    if total <= max {
      CutIs(all, max, 0);
      return;
    }
    var excess := total - max;
    while n < |all| && excess != 0 && all[n].id != all[|all| - 1].id
      invariant n < |all| && excess == Max(0, TotalBytes(all[n..]) - max)
      invariant forall k :: 0 <= k < n ==> TotalBytes(all[k..]) > max
      decreases |all| - n
    {
      LastId(all, n);
      TotalStep(all, n);
      excess := Max(0, excess - all[n].bytes);
      n := n + 1;
    }
    LastId(all, n);
    CutIs(all, max, n);
  }

  lemma {:induction false} TotalStep(all: seq<Segment>, n: nat)
    requires n < |all|
    ensures TotalBytes(all[n..]) == all[n].bytes + TotalBytes(all[n + 1..])
  {
    assert all[n..][1..] == all[n + 1..];
  }

  lemma {:induction false} LastId(all: seq<Segment>, n: nat)
    requires n < |all| && IdsIncrease(all)
    ensures all[n].id == all[|all| - 1].id <==> n + 1 == |all|
  {}

  lemma {:induction false} CutIs(segs: seq<Segment>, max: nat, n: nat)
    requires n < |segs| && (n + 1 == |segs| || TotalBytes(segs[n..]) <= max)
    requires forall k :: 0 <= k < n ==> TotalBytes(segs[k..]) > max
    ensures RetentionCut(segs, max) == n
  {
    hide TotalBytes, RetentionCut;
    var m := RetentionCut(segs, max);
  }

  lemma {:induction false} UnspentStart(segs: seq<Segment>, upto: nat)
    ensures Unspent(segs[..0], upto) == []
  {}

  lemma {:induction false} UnspentAppend(segs: seq<Segment>, s: Segment, upto: nat)
    ensures Unspent(segs + [s], upto) == Unspent(segs, upto) + (if Spent(s, upto) then [] else [s])
  {
    hide Spent;
    if segs == [] {
      assert segs + [s] == [s] && [s][1..] == [];
    } else {
      UnspentAppend(segs[1..], s, upto);
      assert (segs + [s])[1..] == segs[1..] + [s];
    }
  }

  lemma {:induction false} UnspentStep(segs: seq<Segment>, i: nat, upto: nat)
    requires i < |segs|
    ensures Unspent(segs[..i + 1], upto) == Unspent(segs[..i], upto) + (if Spent(segs[i], upto) then [] else [segs[i]])
  {
    assert segs[..i + 1] == segs[..i] + [segs[i]];
    UnspentAppend(segs[..i], segs[i], upto);
  }
}
