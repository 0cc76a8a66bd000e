/** The bridge with backpressure: a reader thread, a bounded task queue, an export worker, a result queue. */
module ExportPipeline {
  import opened Prelude

  datatype Mode = Block | Disconnect | DropNewest

  /** A record read from the wire: its place in the order of reading and its sequence number. */
  datatype Item = Item(pos: nat, seqno: nat)

  datatype Pending = Queued(item: Item) | Dropped(item: Item)

  datatype Result = Result(item: Item, ok: bool)

  datatype Failure = TransportFailed | QueueFull | WorkerGone | ExportFailed | CommitFailed | OutOfOrder

  /** The reader thread: reading, flushing results before queueing an item, queueing it, the final flush, the ends. */
  datatype Main = Reading | Flushing(item: Item) | Enqueueing(item: Item) | Closing | Done | Failed(why: Failure)

  /** The worker; once stopped it may have taken a task it never answered. */
  datatype Worker = Idle | Busy(item: Item) | Stopped(unanswered: seq<Item>)

  datatype State = State(
    main: Main, read: seq<nat>, pending: seq<Pending>, tasks: seq<Item>, open: bool, worker: Worker,
    results: seq<Result>,
    committed: seq<Item>, rejected: seq<Item>, delivered: set<Item>, dropped: set<Item>, failed: set<Item>)

  datatype Config = Config(mode: Mode, capacity: nat)

  datatype Step =
    | ReadRecord(seqno: nat)
    | ReadEnd
    | ReadError
    | Flush(commitOk: bool)
    | Enqueue
    | Take
    | Answer(ok: bool)
    | Exit
    | Die

  function Held(w: Worker): seq<Item> {
    match w case Idle => [] case Busy(i) => [i] case Stopped(u) => u
  }

  /** The reader gives up; the worker's queue closes with it. */
  function GiveUp(s: State, why: Failure): State { s.(main := Failed(why), open := false) }

  /** Recording the new position and acknowledging it; the position moves even if writing it out then fails. */
  function Commit(s: State, i: Item, ok: bool): State
    requires s.pending != []
  {
    var t := s.(pending := s.pending[1..], committed := s.committed + [i]);
    if ok then t else GiveUp(t, CommitFailed)
  }

  predicate FlushEnabled(s: State) {
    && (s.main.Flushing? || s.main.Closing?)
    && (s.main.Closing? && s.pending != [] && s.pending[0].Queued? && s.results == [] ==> s.worker.Stopped?)
  }

  /** One turn of the loop over results: a dropped entry commits by itself, a queued one needs its result. */
  function FlushOnce(s: State, ok: bool): State
    requires s.main.Flushing? || s.main.Closing?
  {
    var next := if s.main.Flushing? then Enqueueing(s.main.item) else Done;
    if s.pending == [] then s.(main := next)
    else
      var front := s.pending[0];
      if front.Dropped? then Commit(s, front.item, ok)
      else if s.results == [] then if s.worker.Stopped? then GiveUp(s, WorkerGone) else s.(main := next)
      else
        var r := s.results[0];
        if r.item.seqno != front.item.seqno then GiveUp(s.(results := s.results[1..]), OutOfOrder)
        else if r.ok then Commit(s.(results := s.results[1..]), front.item, ok)
        else
          GiveUp(s.(pending := s.pending[1..], results := s.results[1..], rejected := s.rejected + [front.item]),
                 ExportFailed)
  }

  predicate Enabled(cfg: Config, s: State, step: Step) {
    match step
    case ReadRecord(_) => s.main.Reading?
    case ReadEnd => s.main.Reading?
    case ReadError => s.main.Reading?
    case Flush(_) => FlushEnabled(s)
    case Enqueue => s.main.Enqueueing? && (s.worker.Stopped? || |s.tasks| < cfg.capacity || !cfg.mode.Block?)
    case Take => s.worker.Idle? && s.tasks != []
    case Answer(_) => s.worker.Busy?
    case Exit => s.worker.Idle? && s.tasks == [] && !s.open
    case Die => !s.worker.Stopped?
  }

  function EnqueueOnce(cfg: Config, s: State): State
    requires s.main.Enqueueing?
  {
    var i := s.main.item;
    if s.worker.Stopped? then GiveUp(s, WorkerGone)
    else if |s.tasks| < cfg.capacity then s.(main := Reading, tasks := s.tasks + [i],
                                             pending := s.pending + [Queued(i)])
    else if cfg.mode.DropNewest? then s.(main := Reading, pending := s.pending + [Dropped(i)],
                                         dropped := s.dropped + {i})
    else GiveUp(s, QueueFull)
  }

  function Do(cfg: Config, s: State, step: Step): State
    requires Enabled(cfg, s, step)
  {
    match step
    case ReadRecord(q) => s.(read := s.read + [q], main := Flushing(Item(|s.read|, q)))
    case ReadEnd => s.(main := Closing, open := false)
    case ReadError => GiveUp(s, TransportFailed)
    case Flush(ok) => FlushOnce(s, ok)
    case Enqueue => EnqueueOnce(cfg, s)
    case Take => s.(worker := Busy(s.tasks[0]), tasks := s.tasks[1..])
    case Answer(ok) =>
      var i := s.worker.item;
      s.(results := s.results + [Result(i, ok)], worker := if ok then Idle else Stopped([]),
         delivered := if ok then s.delivered + {i} else s.delivered,
         failed := if ok then s.failed else s.failed + {i})
    case Exit => s.(worker := Stopped([]))
    case Die => s.(worker := Stopped(Held(s.worker)))
  }

  const INITIAL := State(Reading, [], [], [], true, Idle, [], [], [], {}, {}, {})

  // ----- what every step keeps

  function Items(read: seq<nat>): (items: seq<Item>)
    ensures |items| == |read|
  {
    seq(|read|, i requires 0 <= i < |read| => Item(i, read[i]))
  }

  function ItemsOf(ps: seq<Pending>): seq<Item> { seq(|ps|, i requires 0 <= i < |ps| => ps[i].item) }

  function QueuedOf(ps: seq<Pending>): seq<Item> {
    if ps == [] then [] else (if ps[0].Queued? then [ps[0].item] else []) + QueuedOf(ps[1..])
  }

  function Answered(rs: seq<Result>): seq<Item> { seq(|rs|, i requires 0 <= i < |rs| => rs[i].item) }

  /** The item the reader holds between reading and queueing. */
  function InHand(m: Main): seq<Item> {
    match m case Flushing(i) => [i] case Enqueueing(i) => [i] case _ => []
  }

  /** Everything read so far, in the order it will be settled: committed, refused, pending, in hand. */
  function Line(s: State): seq<Item> { s.committed + s.rejected + ItemsOf(s.pending) + InHand(s.main) }

  /** That line is exactly what was read; a failing reader may only lose the item in hand, at its end. */
  predicate OrderKept(s: State) {
    if s.main.Failed? then Line(s) <= Items(s.read) else Line(s) == Items(s.read) && s.rejected == []
  }

  /** The queued entries are answered in order: first the results waiting, then the worker's task, then the queue. */
  predicate QueuesAgree(s: State) { QueuedOf(s.pending) == Answered(s.results) + Held(s.worker) + s.tasks }

  /** Every result is on record, and only a last one, after which the worker stopped, can be a failure. */
  predicate ResultsOk(s: State) {
    && (forall k :: 0 <= k < |s.results| ==>
          if s.results[k].ok then s.results[k].item in s.delivered else k == |s.results| - 1 && s.worker.Stopped?)
    && (forall i :: i in s.failed ==> Result(i, false) in s.results || i in s.rejected)
    && (s.failed != {} ==> s.worker.Stopped?)
  }

  /** A commit was earned by a delivery or by a drop, and drops happen in one mode only. */
  predicate CommitsEarned(cfg: Config, s: State) {
    && (forall i :: i in s.committed ==> i in s.delivered || i in s.dropped)
    && (forall p :: p in s.pending && p.Dropped? ==> p.item in s.dropped)
    && (s.dropped != {} ==> cfg.mode.DropNewest?)
  }

  predicate Inv(cfg: Config, s: State) {
    && OrderKept(s) && QueuesAgree(s) && ResultsOk(s) && CommitsEarned(cfg, s)
    && s.main != Failed(OutOfOrder) && |s.tasks| <= cfg.capacity && (s.main.Done? ==> s.pending == [])
  }

  // ----- lists

  lemma {:induction false} ItemsGrow(read: seq<nat>, q: nat)
    ensures Items(read + [q]) == Items(read) + [Item(|read|, q)]
  {}

  lemma {:induction false} ItemsOfParts(ps: seq<Pending>, p: Pending)
    ensures ItemsOf(ps + [p]) == ItemsOf(ps) + [p.item]
    ensures ps != [] ==> ItemsOf(ps) == [ps[0].item] + ItemsOf(ps[1..])
  {}

  lemma {:induction false} QueuedOfAppend(ps: seq<Pending>, p: Pending)
    ensures QueuedOf(ps + [p]) == QueuedOf(ps) + (if p.Queued? then [p.item] else [])
  {
    if ps == [] {
      assert ps + [p] == [p] && [p][1..] == [];
    } else {
      QueuedOfAppend(ps[1..], p);
      assert (ps + [p])[1..] == ps[1..] + [p];
    }
  }

  lemma {:induction false} QueuedArePending(ps: seq<Pending>)
    ensures forall i :: i in QueuedOf(ps) ==> i in ItemsOf(ps)
  {
    if ps != [] {
      QueuedArePending(ps[1..]);
      ItemsOfParts(ps, ps[0]);
    }
  }

  lemma {:induction false} AnsweredParts(rs: seq<Result>, r: Result)
    ensures Answered(rs + [r]) == Answered(rs) + [r.item]
    ensures rs != [] ==> Answered(rs) == [rs[0].item] + Answered(rs[1..])
  {}

  // ----- steps of the reader

  lemma {:induction false} ReadOk(cfg: Config, s: State, q: nat)
    requires Inv(cfg, s) && s.main.Reading?
    ensures Inv(cfg, Do(cfg, s, ReadRecord(q)))
  {
    hide ItemsOf, QueuedOf, Answered, Items;
    ItemsGrow(s.read, q);
  }

  /** The front of the pending list is answered by the front of the results. */
  lemma {:induction false} FrontAnswered(s: State)
    requires QueuesAgree(s) && s.pending != [] && s.pending[0].Queued? && s.results != []
    ensures s.results[0].item == s.pending[0].item
  {
    hide Answered;
    AnsweredParts(s.results, s.results[0]);
    assert QueuedOf(s.pending)[0] == s.pending[0].item;
  }

  /** Settling the front entry, with its result when it has one. */
  lemma {:induction false} SettleFront(s: State, t: State)
    requires QueuesAgree(s) && s.pending != [] && t.pending == s.pending[1..] && t.worker == s.worker
             && t.tasks == s.tasks
    requires if s.pending[0].Queued? then s.results != [] && t.results == s.results[1..] else t.results == s.results
    ensures QueuesAgree(t)
  {
    hide Answered;
    if s.pending[0].Queued? {
      AnsweredParts(s.results, s.results[0]);
      var rest := QueuedOf(t.pending);
      assert [s.pending[0].item] + rest == [s.results[0].item] + Answered(t.results) + Held(s.worker) + s.tasks;
      assert rest == ([s.pending[0].item] + rest)[1..];
      assert Answered(t.results) + Held(s.worker) + s.tasks
             == ([s.results[0].item] + Answered(t.results) + Held(s.worker) + s.tasks)[1..];
    }
  }

  lemma {:induction false} CommitLine(s: State, t: State)
    requires OrderKept(s) && !s.main.Failed? && s.pending != []
    requires t.read == s.read && t.pending == s.pending[1..]
    requires t.committed + t.rejected == s.committed + [s.pending[0].item]
    requires (t.main == s.main && t.rejected == []) || t.main.Failed?
    ensures OrderKept(t)
  {
    hide ItemsOf, Items;
    ItemsOfParts(s.pending, s.pending[0]);
    var c, f, rest, hand := s.committed, [s.pending[0].item], ItemsOf(t.pending), InHand(s.main);
    assert Line(s) == c + [] + (f + rest) + hand;
    assert c + f + rest + hand == c + [] + (f + rest) + hand;
    if t.main.Failed? {
      assert Line(t) == c + f + rest;
      assert c + f + rest <= c + f + rest + hand;
    } else {
      assert Line(t) == c + f + [] + rest + hand;
    }
  }

  lemma {:induction false} FlushNothing(cfg: Config, s: State, ok: bool)
    requires Inv(cfg, s) && FlushEnabled(s) && (s.pending == [] || (s.pending[0].Queued? && s.results == []))
    ensures Inv(cfg, FlushOnce(s, ok))
  {
    hide ItemsOf, QueuedOf, Answered, Items;
  }

  lemma {:induction false} FlushDropped(cfg: Config, s: State, ok: bool)
    requires Inv(cfg, s) && FlushEnabled(s) && s.pending != [] && s.pending[0].Dropped?
    ensures Inv(cfg, FlushOnce(s, ok))
  {
    hide ItemsOf, QueuedOf, Answered, Items, QueuesAgree, OrderKept;
    var t := FlushOnce(s, ok);
    assert s.pending[0] in s.pending;
    NotFailed(s);
    SettleFront(s, t);
    CommitLine(s, t);
  }

  lemma {:induction false} NotFailed(s: State)
    requires OrderKept(s) && !s.main.Failed?
    ensures s.rejected == []
  {}

  lemma {:induction false} FlushAnswered(cfg: Config, s: State, ok: bool)
    requires Inv(cfg, s) && FlushEnabled(s) && s.pending != [] && s.pending[0].Queued? && s.results != []
    ensures Inv(cfg, FlushOnce(s, ok))
  {
    hide ItemsOf, QueuedOf, Answered, Items, QueuesAgree, OrderKept, ResultsOk;
    var t := FlushOnce(s, ok);
    NotFailed(s);
    FrontAnswered(s);
    SettleFront(s, t);
    CommitLine(s, t);
    FlushResults(s, t);
    if s.results[0].ok { FirstDelivered(s); }
  }

  lemma {:induction false} FirstDelivered(s: State)
    requires ResultsOk(s) && s.results != [] && s.results[0].ok
    ensures s.results[0].item in s.delivered
  {}

  lemma {:induction false} FlushOk(cfg: Config, s: State, ok: bool)
    requires Inv(cfg, s) && FlushEnabled(s)
    ensures Inv(cfg, FlushOnce(s, ok))
  {
    hide Inv, FlushOnce, FlushEnabled;
    if s.pending == [] || (s.pending[0].Queued? && s.results == []) {
      FlushNothing(cfg, s, ok);
    } else if s.pending[0].Dropped? {
      FlushDropped(cfg, s, ok);
    } else {
      FlushAnswered(cfg, s, ok);
    }
  }

  /** Reading off the first result, which is a delivery or ends the run. */
  lemma {:induction false} FlushResults(s: State, t: State)
    requires ResultsOk(s) && s.results != [] && t.results == s.results[1..] && t.worker == s.worker
    requires t.delivered == s.delivered && t.failed == s.failed
    requires s.results[0].ok ==> t.rejected == s.rejected
    requires !s.results[0].ok ==> t.rejected == s.rejected + [s.results[0].item]
    ensures ResultsOk(t)
  {
    var r := s.results[0];
    assert s.results == [r] + t.results;
    forall i | i in s.failed ensures Result(i, false) in t.results || i in t.rejected {
      if i !in s.rejected { assert Result(i, false) == r || Result(i, false) in t.results; }
    }
  }

  lemma {:induction false} EnqueueOk(cfg: Config, s: State)
    requires Inv(cfg, s) && Enabled(cfg, s, Enqueue)
    ensures Inv(cfg, EnqueueOnce(cfg, s))
  {
    hide ItemsOf, QueuedOf, Answered, Items;
    var t := EnqueueOnce(cfg, s);
    var i := s.main.item;
    var line := s.committed + s.rejected + ItemsOf(s.pending);
    if t.main.Reading? {
      var p := t.pending[|s.pending|];
      assert t.pending == s.pending + [p];
      ItemsOfParts(s.pending, p);
      QueuedOfAppend(s.pending, p);
      assert line + [i] == s.committed + s.rejected + (ItemsOf(s.pending) + [i]) + [];
      var a, h := Answered(s.results), Held(s.worker);
      assert a + h + s.tasks + [i] == a + h + (s.tasks + [i]);
      assert QueuedOf(s.pending) + [] == QueuedOf(s.pending);
    } else {
      assert line + [] <= line + [i];
    }
  }

  // ----- steps of the worker

  lemma {:induction false} WorkerOk(cfg: Config, s: State, step: Step)
    requires Inv(cfg, s) && Enabled(cfg, s, step) && (step.Take? || step.Answer? || step.Exit? || step.Die?)
    ensures Inv(cfg, Do(cfg, s, step))
  {
    hide ItemsOf, QueuedOf, Answered, Items;
    var t := Do(cfg, s, step);
    var a := Answered(s.results);
    match step
    case Take => assert a + [] + s.tasks == a + [s.tasks[0]] + s.tasks[1..];
    case Answer(ok) =>
      var i := s.worker.item;
      AnsweredParts(s.results, Result(i, ok));
      assert a + [i] + s.tasks == (a + [i]) + [] + s.tasks;
    case Exit =>
    case Die =>
  }

  lemma {:induction false} DoKeepsInv(cfg: Config, s: State, step: Step)
    requires Inv(cfg, s) && Enabled(cfg, s, step)
    ensures Inv(cfg, Do(cfg, s, step))
  {
    match step
    case ReadRecord(q) => ReadOk(cfg, s, q);
    case ReadEnd => assert InHand(Closing) == [];
    case ReadError =>
    case Flush(ok) => FlushOk(cfg, s, ok);
    case Enqueue => EnqueueOk(cfg, s);
    case Take => WorkerOk(cfg, s, step);
    case Answer(_) => WorkerOk(cfg, s, step);
    case Exit => WorkerOk(cfg, s, step);
    case Die => WorkerOk(cfg, s, step);
  }

  // ----- whole runs

  predicate Possible(cfg: Config, s: State, run: seq<Step>)
    decreases |run|
  {
    run == [] || (Enabled(cfg, s, run[0]) && Possible(cfg, Do(cfg, s, run[0]), run[1..]))
  }

  function After(cfg: Config, s: State, run: seq<Step>): State
    requires Possible(cfg, s, run)
    decreases |run|
  {
    if run == [] then s else After(cfg, Do(cfg, s, run[0]), run[1..])
  }

  lemma {:induction false} RunKeepsInv(cfg: Config, s: State, run: seq<Step>)
    requires Inv(cfg, s) && Possible(cfg, s, run)
    ensures Inv(cfg, After(cfg, s, run))
    decreases |run|
  {
    hide Inv, Enabled, Do;
    if run != [] {
      DoKeepsInv(cfg, s, run[0]);
      RunKeepsInv(cfg, Do(cfg, s, run[0]), run[1..]);
    }
  }

  /** A failed export sits behind everything committed. */
  lemma {:induction false} FailedIsLater(cfg: Config, s: State, f: Item)
    requires Inv(cfg, s) && f in s.failed
    ensures |s.committed| <= f.pos
  {
    hide QueuedOf, ItemsOf, Answered, Items;
    var line := Line(s);
    QueuedArePending(s.pending);
    if f !in s.rejected { AnsweredMembers(s.results, f); }
    assert f in s.rejected + ItemsOf(s.pending);
    var k :| 0 <= k < |s.rejected + ItemsOf(s.pending)| && (s.rejected + ItemsOf(s.pending))[k] == f;
    assert line == s.committed + (s.rejected + ItemsOf(s.pending)) + InHand(s.main);
    assert line[|s.committed| + k] == f;
    ItemAt(s.read, |s.committed| + k);
  }

  lemma {:induction false} AnsweredMembers(rs: seq<Result>, i: Item)
    requires Result(i, false) in rs
    ensures i in Answered(rs)
  {
    var k :| 0 <= k < |rs| && rs[k] == Result(i, false);
    assert Answered(rs)[k] == i;
  }

  lemma {:induction false} ItemAt(read: seq<nat>, k: nat)
    requires k < |read|
    ensures Items(read)[k] == Item(k, read[k])
  {}

  /** In every interleaving of reader and worker: commits follow the order of reading without a gap, nothing at or
      behind a failed export is committed, each commit was earned, and the out-of-order error cannot happen. */
  lemma {:induction false} PipelineSafety(cfg: Config, run: seq<Step>)
    requires Possible(cfg, INITIAL, run)
    ensures var s := After(cfg, INITIAL, run);
            && s.committed <= Items(s.read)
            && (forall f :: f in s.failed ==> |s.committed| <= f.pos)
            && (forall i :: i in s.committed ==> i in s.delivered || (i in s.dropped && cfg.mode.DropNewest?))
            && s.main != Failed(OutOfOrder)
            && |s.tasks| <= cfg.capacity
  {
    RunKeepsInv(cfg, INITIAL, run);
    var s := After(cfg, INITIAL, run);
    forall f | f in s.failed ensures |s.committed| <= f.pos { FailedIsLater(cfg, s, f); }
    assert s.committed <= Line(s);
  }

  // ----- drops

  /** The state after the first `k` steps. */
  function StateAt(cfg: Config, s: State, run: seq<Step>, k: nat): State
    requires Possible(cfg, s, run) && k <= |run|
    decreases |run|
  {
    if k == 0 then s else StateAt(cfg, Do(cfg, s, run[0]), run[1..], k - 1)
  }

  /** At step `k` the reader tries to queue `i` while the worker lives and the queue is full, in the dropping mode. */
  predicate MeetsFullQueue(cfg: Config, s: State, run: seq<Step>, k: nat, i: Item)
    requires Possible(cfg, s, run) && k < |run|
  {
    var t := StateAt(cfg, s, run, k);
    run[k].Enqueue? && t.main == Enqueueing(i) && !t.worker.Stopped? && |t.tasks| >= cfg.capacity
        && cfg.mode.DropNewest?
  }

  lemma {:induction false} StepDrops(cfg: Config, s: State, run: seq<Step>, i: Item)
    requires Possible(cfg, s, run) && run != []
    ensures i in Do(cfg, s, run[0]).dropped <==> i in s.dropped || MeetsFullQueue(cfg, s, run, 0, i)
  {}

  lemma {:induction false} DropsFrom(cfg: Config, s: State, run: seq<Step>, i: Item)
    requires Possible(cfg, s, run)
    ensures i in After(cfg, s, run).dropped <==>
              i in s.dropped || exists k: nat :: k < |run| && MeetsFullQueue(cfg, s, run, k, i)
    decreases |run|
  {
    hide Enabled, Do;
    if run != [] {
      var t, rest := Do(cfg, s, run[0]), run[1..];
      StepDrops(cfg, s, run, i);
      DropsFrom(cfg, t, rest, i);
      forall k: nat | k < |rest| ensures MeetsFullQueue(cfg, t, rest, k, i) == MeetsFullQueue(cfg, s, run, k + 1, i) {}
      if k: nat :| k < |rest| && MeetsFullQueue(cfg, t, rest, k, i) { assert MeetsFullQueue(cfg, s, run, k + 1, i); }
      if k: nat :| k < |run| && MeetsFullQueue(cfg, s, run, k, i) {
        if k > 0 { assert MeetsFullQueue(cfg, t, rest, k - 1, i); }
      }
    }
  }

  /** Only what was dealt with counts: nothing in hand is queued, exported or dropped yet, and nothing dropped was ever
      queued. */
  ghost predicate OneFate(s: State) {
    && (s.main.Flushing? || s.main.Enqueueing? ==> s.read != [] && s.main.item.pos == |s.read| - 1)
    && (forall i :: i in s.dropped || i in s.delivered || i in s.failed || i in s.tasks || i in Held(s.worker) ==>
          i.pos < |s.read| - |InHand(s.main)|)
    && (forall i :: i in s.dropped ==> i !in s.delivered && i !in s.failed && i !in s.tasks && i !in Held(s.worker))
  }

  lemma {:induction false} FlushKeepsFate(s: State, ok: bool)
    requires OneFate(s) && FlushEnabled(s)
    ensures OneFate(FlushOnce(s, ok))
  {
    FlushLeaves(s, ok);
    hide FlushOnce, FlushEnabled;
  }

  lemma {:induction false} FlushLeaves(s: State, ok: bool)
    requires FlushEnabled(s)
    ensures var t := FlushOnce(s, ok);
            && t.read == s.read && t.dropped == s.dropped && t.delivered == s.delivered && t.failed == s.failed
            && t.tasks == s.tasks && t.worker == s.worker && |InHand(t.main)| <= |InHand(s.main)|
            && (t.main.Flushing? || t.main.Enqueueing? ==> InHand(t.main) == InHand(s.main))
  {}

  lemma {:induction false} EnqueueKeepsFate(cfg: Config, s: State)
    requires OneFate(s) && s.main.Enqueueing?
    ensures OneFate(EnqueueOnce(cfg, s))
  {
    var i, t := s.main.item, EnqueueOnce(cfg, s);
    assert InHand(s.main) == [i] && InHand(t.main) == [];
  }

  lemma {:induction false} WorkerKeepsFate(cfg: Config, s: State, step: Step)
    requires OneFate(s) && Enabled(cfg, s, step) && (step.Take? || step.Answer? || step.Exit? || step.Die?)
    ensures OneFate(Do(cfg, s, step))
  {
    if step.Take? { assert s.tasks[0] in s.tasks; }
    if step.Answer? { assert s.worker.item in Held(s.worker); }
  }

  lemma {:induction false} DoKeepsFate(cfg: Config, s: State, step: Step)
    requires OneFate(s) && Enabled(cfg, s, step)
    ensures OneFate(Do(cfg, s, step))
  {
    hide FlushOnce, EnqueueOnce, FlushEnabled;
    if step.Flush? {
      FlushKeepsFate(s, step.commitOk);
    } else if step.Enqueue? {
      EnqueueKeepsFate(cfg, s);
    } else if step.Take? || step.Answer? || step.Exit? || step.Die? {
      WorkerKeepsFate(cfg, s, step);
    }
  }

  lemma {:induction false} RunKeepsFate(cfg: Config, s: State, run: seq<Step>)
    requires OneFate(s) && Possible(cfg, s, run)
    ensures OneFate(After(cfg, s, run))
    decreases |run|
  {
    hide OneFate, Enabled, Do;
    if run != [] {
      DoKeepsFate(cfg, s, run[0]);
      RunKeepsFate(cfg, Do(cfg, s, run[0]), run[1..]);
    }
  }

  /** In every interleaving a record is dropped if and only if it met a full queue when its turn came, in the mode that
      drops; and a dropped record is never exported. */
  lemma {:induction false} DropsWhenFull(cfg: Config, run: seq<Step>, i: Item)
    requires Possible(cfg, INITIAL, run)
    ensures i in After(cfg, INITIAL, run).dropped <==>
              exists k: nat :: k < |run| && MeetsFullQueue(cfg, INITIAL, run, k, i)
    ensures var s := After(cfg, INITIAL, run);
            i in s.dropped ==> i !in s.delivered && i !in s.failed && i !in s.tasks && i.pos < |s.read|
  {
    DropsFrom(cfg, INITIAL, run, i);
    RunKeepsFate(cfg, INITIAL, run);
  }

  /** A bridge that ends normally has settled everything it read. */
  lemma {:induction false} DoneMeansSettled(cfg: Config, run: seq<Step>)
    requires Possible(cfg, INITIAL, run) && After(cfg, INITIAL, run).main.Done?
    ensures var s := After(cfg, INITIAL, run); s.committed == Items(s.read)
  {
    RunKeepsInv(cfg, INITIAL, run);
    var s := After(cfg, INITIAL, run);
    assert Line(s) == s.committed;
  }

  // ----- ending

  /** The worker's queue is open exactly while the reader may still use it. */
  predicate OpenWhileReading(s: State) { s.open <==> s.main.Reading? || s.main.Flushing? || s.main.Enqueueing? }

  lemma {:induction false} DoKeepsOpen(cfg: Config, s: State, step: Step)
    requires OpenWhileReading(s) && Enabled(cfg, s, step)
    ensures OpenWhileReading(Do(cfg, s, step))
  {}

  /** On every run, whether the reader ends well or badly, the queue is closed then and only then, so the worker can
      leave. */
  lemma {:induction false} QueueClosedAtEnd(cfg: Config, s: State, run: seq<Step>)
    requires OpenWhileReading(s) && Possible(cfg, s, run)
    ensures OpenWhileReading(After(cfg, s, run))
    decreases |run|
  {
    hide OpenWhileReading, Enabled, Do;
    if run != [] {
      DoKeepsOpen(cfg, s, run[0]);
      QueueClosedAtEnd(cfg, Do(cfg, s, run[0]), run[1..]);
    }
  }

  lemma {:induction false} OneStep(cfg: Config, s: State, step: Step, rest: seq<Step>)
    requires Enabled(cfg, s, step) && Possible(cfg, Do(cfg, s, step), rest)
    ensures Possible(cfg, s, [step] + rest) && After(cfg, s, [step] + rest) == After(cfg, Do(cfg, s, step), rest)
  {
    hide Enabled, Do;
    assert ([step] + rest)[1..] == rest;
  }

  /** What is left to do after the end of the stream. */
  function WorkLeft(s: State): nat {
    4 * |s.pending| + 2 * |s.tasks| + |Held(s.worker)| + if s.main.Done? then 0 else 1
  }

  /** A step that settles something, when the worker is alive. */
  function NextMove(s: State): Step {
    if s.pending == [] || s.pending[0].Dropped? || s.results != [] then Flush(true)
    else if s.worker.Busy? then Answer(true)
    else Take
  }

  lemma {:induction false} QueuedFront(ps: seq<Pending>)
    requires ps != [] && ps[0].Queued?
    ensures QueuedOf(ps) != []
  {}

  lemma {:induction false} MoveSettles(cfg: Config, s: State)
    requires Inv(cfg, s) && s.main.Closing? && !s.worker.Stopped?
    ensures Enabled(cfg, s, NextMove(s))
    ensures var t := Do(cfg, s, NextMove(s));
            WorkLeft(t) < WorkLeft(s) && (t.main.Closing? || t.main.Done?) && !t.worker.Stopped?
  {
    hide OrderKept, CommitsEarned, ItemsOf, Items;
    if s.pending != [] && s.pending[0].Queued? {
      QueuedFront(s.pending);
      if s.results != [] { FrontAnswered(s); }
    }
  }

  lemma {:induction false} CanFinish(cfg: Config, s: State) returns (run: seq<Step>)
    requires Inv(cfg, s) && (s.main.Closing? || s.main.Done?) && !s.worker.Stopped?
    ensures Possible(cfg, s, run) && After(cfg, s, run).main.Done?
    ensures After(cfg, s, run).committed == Items(After(cfg, s, run).read)
    decreases WorkLeft(s)
  {
    hide Inv, Enabled, Do, NextMove, WorkLeft, Possible, After;
    if s.main.Done? {
      run := [];
      NoSteps(cfg, s);
      DoneLine(cfg, s);
    } else {
      MoveSettles(cfg, s);
      var t := Do(cfg, s, NextMove(s));
      DoKeepsInv(cfg, s, NextMove(s));
      var rest := CanFinish(cfg, t);
      run := [NextMove(s)] + rest;
      OneStep(cfg, s, NextMove(s), rest);
    }
  }

  lemma {:induction false} DoneLine(cfg: Config, s: State)
    requires Inv(cfg, s) && s.main.Done?
    ensures s.committed == Items(s.read)
  {
    hide QueuesAgree, ResultsOk, CommitsEarned;
    assert Line(s) == s.committed;
  }

  /** From every reachable state in which the stream has ended and the worker is alive, the pipeline can finish, and
      then every record read is committed, in order. */
  lemma {:induction false} PipelineCanFinish(cfg: Config, run: seq<Step>) returns (rest: seq<Step>)
    requires Possible(cfg, INITIAL, run)
    requires After(cfg, INITIAL, run).main.Closing? && !After(cfg, INITIAL, run).worker.Stopped?
    ensures var s := After(cfg, INITIAL, run);
            && Possible(cfg, s, rest) && After(cfg, s, rest).main.Done?
            && After(cfg, s, rest).committed == Items(After(cfg, s, rest).read)
  {
    hide Possible, After;
    RunKeepsInv(cfg, INITIAL, run);
    rest := CanFinish(cfg, After(cfg, INITIAL, run));
  }

  lemma {:induction false} NoSteps(cfg: Config, s: State)
    ensures Possible(cfg, s, []) && After(cfg, s, []) == s
  {}
}
