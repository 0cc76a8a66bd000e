/** One client's whole replay from the file spool, whatever happens to the spool meanwhile. */
module FileReplay {
  import opened Prelude
  import opened Encoding
  import opened BlockFormat
  import opened FileSpool

  /** A record a client was given, and the consumed mark at that moment. */
  datatype Given = Given(record: Record, mark: nat)

  /** `highest` is the last sequence number handed to the spool, `from` what the client asked for. */
  datatype Client = Client(disk: Disk, highest: nat, from: nat, cursor: FileCursor, given: seq<Given>)

  function Step(c: Client, op: Op): Client
    requires c.disk.segments != []
  {
    match op
    case Read =>
      var (r, next) := CursorStep(c.disk, c.cursor);
      if r.None? then c.(cursor := next)
      else c.(cursor := next, given := c.given + [Given(r.value, c.disk.consumed)])
    case Push(r) => c.(disk := Apply(c.disk, op), highest := r.seqno)
    case _ => c.(disk := Apply(c.disk, op))
  }

  /** Records arrive with increasing sequence numbers. */
  predicate Legal(highest: nat, ops: seq<Op>)
    decreases |ops|
  {
    ops == [] ||
    (if ops[0].Push? then highest < ops[0].record.seqno && Legal(ops[0].record.seqno, ops[1..])
     else Legal(highest, ops[1..]))
  }

  ghost function Replay(c: Client, ops: seq<Op>): Client
    requires FilesOk(c.disk)
    decreases |ops|
  {
    if ops == [] then c
    else
      StepFiles(c, ops[0]);
      Replay(Step(c, ops[0]), ops[1..])
  }

  lemma {:induction false} StepFiles(c: Client, op: Op)
    requires FilesOk(c.disk)
    ensures FilesOk(Step(c, op).disk)
  {
    hide IdsIncrease, Apply;
    ApplyKeeps(c.disk, op);
  }

  /** A client that has just connected to a spool in sequence order. */
  predicate Connected(c: Client) {
    && FilesOk(c.disk) && Ordered(c.disk) && (forall x :: x in Contents(c.disk) ==> x.seqno <= c.highest)
    && c.cursor == FileCursor(0, c.from) && c.given == []
  }

  predicate WasGiven(c: Client, x: Record) { exists i :: 0 <= i < |c.given| && c.given[i].record == x }

  /** Everything the spool holds between what the client asked for and where it is, above the mark, was given to it. */
  ghost predicate NothingMissed(c: Client) {
    forall x :: x in Contents(c.disk) && Max(c.from, c.disk.consumed) < x.seqno <= c.cursor.lastSeq ==> WasGiven(c, x)
  }

  /** In order, above what was asked for, and none at or below the consumed mark of its moment. */
  predicate GivenInOrder(c: Client) {
    && (forall i, j :: 0 <= i < j < |c.given| ==> c.given[i].record.seqno < c.given[j].record.seqno)
    && forall i :: 0 <= i < |c.given| ==>
         Max(c.from, c.given[i].mark) < c.given[i].record.seqno <= c.cursor.lastSeq
  }

  ghost predicate ClientInv(c: Client) {
    && FilesOk(c.disk) && HintSound(c.disk, c.cursor)
    && Ordered(c.disk) && (forall x :: x in Contents(c.disk) ==> x.seqno <= c.highest)
    && c.from <= c.cursor.lastSeq <= Max(c.from, c.highest)
    && NothingMissed(c) && GivenInOrder(c)
  }

  lemma {:induction false} ConnectedInv(c: Client)
    requires Connected(c)
    ensures ClientInv(c)
  {
    hide Contents;
  }

  /** No operation brings in anything but the pushed record, and the mark never falls. */
  lemma {:induction false} ApplyBringsIn(d: Disk, op: Op)
    requires d.segments != []
    ensures d.consumed <= Apply(d, op).consumed
    ensures forall x :: x in Contents(Apply(d, op)) ==> x in Contents(d) || op == Push(x)
  {
    hide Contents, Spilled, Rotated, Retained, Cleaned, Removed, Cut;
    match op
    case Push(r) => PushContents(d, r);
    case Spill(n, bytes) => SpillContents(d, Min(n, |d.buffered|), bytes); SameMark(d, op);
    case Rotate(bytes) => RotateContents(d, bytes); SameMark(d, op);
    case Retain(max) => RetainContents(d, max); SameMark(d, op);
    case Consume(upto) =>
      if upto > d.consumed {
        CleanConserves(d, upto);
        CleanMark(d, upto);
        forall x | x in Contents(Cleaned(d, upto)) ensures x in Contents(d) {
          assert x in multiset(Contents(Cleaned(d, upto)));
          assert x in multiset(Contents(d));
        }
      }
    case Read =>
  }

  lemma {:induction false} WriteKeepsClient(c: Client, op: Op)
    requires ClientInv(c) && !op.Read? && (op.Push? ==> c.highest < op.record.seqno)
    ensures ClientInv(Step(c, op))
  {
    hide Contents, Apply, HintSound, Ordered, IdsIncrease, WasGiven;
    ApplyKeeps(c.disk, op);
    ApplyKeepsOrder(c.disk, op);
    ApplyBringsIn(c.disk, op);
    var t := Step(c, op);
    forall x | x in Contents(t.disk) && Max(t.from, t.disk.consumed) < x.seqno <= t.cursor.lastSeq
      ensures WasGiven(t, x)
    {
      assert x in Contents(c.disk) && WasGiven(c, x);
      SameGiven(c, t, x);
    }
  }

  lemma {:induction false} SameGiven(c: Client, t: Client, x: Record)
    requires WasGiven(c, x) && |c.given| <= |t.given| && forall i :: 0 <= i < |c.given| ==> t.given[i] == c.given[i]
    ensures WasGiven(t, x)
  {
    var i :| 0 <= i < |c.given| && c.given[i].record == x;
    assert t.given[i].record == x;
  }

  /** The first record above the floor is the lowest one. */
  lemma {:induction false} FirstIsLeast(d: Disk, floor: int, r: Record, x: Record)
    requires Ordered(d) && IsFirstAbove(RecordsOf(d.segments), floor, Some(r))
    requires x in Contents(d) && x.seqno <= r.seqno
    ensures r in Contents(d) && (x == r || x.seqno <= floor)
  {
    hide RecordsOf;
    var all := Contents(d);
    var k: nat :| LeadsAt(RecordsOf(d.segments), floor, k) && RecordsOf(d.segments)[k] == r;
    assert all[k] == r;
    var j :| 0 <= j < |all| && all[j] == x;
    assert j <= k;
  }

  lemma {:induction false} ReadKeepsClient(c: Client)
    requires ClientInv(c)
    ensures ClientInv(Step(c, Read))
  {
    hide Contents, HintSound, Ordered, IdsIncrease, WasGiven, IsFirstAbove, CursorStep, PlainSearch;
    HintedSearch(c.disk, c.cursor);
    ReadKeepsHint(c.disk, c.cursor);
    PlainIsFirst(c.disk, c.cursor);
    StepSeq(c.disk, c.cursor);
    var t := Step(c, Read);
    var r := CursorStep(c.disk, c.cursor).0;
    if r.Some? {
      GivesNext(c, t, r.value);
    } else {
      forall x | x in Contents(t.disk) && Max(t.from, t.disk.consumed) < x.seqno <= t.cursor.lastSeq
        ensures WasGiven(t, x)
      {
        assert WasGiven(c, x);
        SameGiven(c, t, x);
      }
    }
  }

  lemma {:induction false} GivesNext(c: Client, t: Client, r: Record)
    requires Ordered(c.disk) && (forall x :: x in Contents(c.disk) ==> x.seqno <= c.highest)
    requires NothingMissed(c) && GivenInOrder(c) && c.from <= c.cursor.lastSeq
    requires IsFirstAbove(RecordsOf(c.disk.segments), Max(c.cursor.lastSeq, c.disk.consumed), Some(r))
    requires t.disk == c.disk && t.from == c.from && t.cursor.lastSeq == r.seqno
    requires t.given == c.given + [Given(r, c.disk.consumed)]
    ensures NothingMissed(t) && GivenInOrder(t) && r.seqno <= c.highest
  {
    hide Contents, Ordered, WasGiven, IsFirstAbove, RecordsOf;
    var floor := Max(c.cursor.lastSeq, c.disk.consumed);
    IsAboveFloor(RecordsOf(c.disk.segments), floor, r);
    InFileIsHeld(c.disk, r);
    forall x | x in Contents(t.disk) && Max(t.from, t.disk.consumed) < x.seqno <= t.cursor.lastSeq
      ensures WasGiven(t, x)
    {
      FirstIsLeast(c.disk, floor, r, x);
      if x == r { LastGiven(t, c.given, Given(r, c.disk.consumed)); } else { SameGiven(c, t, x); }
    }
  }

  lemma {:induction false} LastGiven(t: Client, given: seq<Given>, g: Given)
    requires t.given == given + [g]
    ensures WasGiven(t, g.record)
  {
    assert t.given[|given|] == g;
  }

  lemma {:induction false} IsAboveFloor(rs: seq<Record>, floor: int, r: Record)
    requires IsFirstAbove(rs, floor, Some(r))
    ensures r in rs && r.seqno > floor
  {}

  lemma {:induction false} InFileIsHeld(d: Disk, r: Record)
    requires r in RecordsOf(d.segments)
    ensures r in Contents(d)
  {}

  lemma {:induction false} ReplayKeepsClient(c: Client, ops: seq<Op>)
    requires ClientInv(c) && Legal(c.highest, ops)
    ensures ClientInv(Replay(c, ops))
    decreases |ops|
  {
    hide NothingMissed, GivenInOrder, HintSound, Ordered, Contents, IdsIncrease, Apply, CursorStep;
    if ops != [] {
      StepFiles(c, ops[0]);
      if ops[0].Read? { ReadKeepsClient(c); } else { WriteKeepsClient(c, ops[0]); }
      ReplayKeepsClient(Step(c, ops[0]), ops[1..]);
    }
  }

  /** Over any interleaving of appends in sequence order, flushes, rotations, retention, consumption and reads: a client
      gets strictly increasing records above what it asked for, none of them consumed at that moment, and misses nothing
      that is still held and not consumed; when a read finds nothing, it has everything that is in a file. */
  lemma {:induction false} ReplaySafety(c: Client, ops: seq<Op>)
    requires Connected(c) && Legal(c.highest, ops)
    ensures var t := Replay(c, ops);
            && GivenInOrder(t) && NothingMissed(t)
            && (CursorStep(t.disk, t.cursor).0.None? ==>
                  forall x :: x in RecordsOf(t.disk.segments) && x.seqno > Max(t.from, t.disk.consumed) ==>
                    WasGiven(t, x))
  {
    hide Contents, HintSound, Ordered, IdsIncrease, WasGiven, IsFirstAbove, CursorStep, PlainSearch, Replay, RecordsOf,
      GivenInOrder;
    ConnectedInv(c);
    ReplayKeepsClient(c, ops);
    var t := Replay(c, ops);
    HintedSearch(t.disk, t.cursor);
    PlainIsFirst(t.disk, t.cursor);
    if CursorStep(t.disk, t.cursor).0.None? {
      NoneAbove(RecordsOf(t.disk.segments), Max(t.cursor.lastSeq, t.disk.consumed));
      forall x | x in RecordsOf(t.disk.segments) && x.seqno > Max(t.from, t.disk.consumed) ensures WasGiven(t, x) {
        InFileIsHeld(t.disk, x);
      }
    }
  }
}
