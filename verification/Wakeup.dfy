/** Appenders that publish and then notify, and replay clients that read until nothing is left and then wait. */
module Wakeup {
  import opened Prelude
  import opened Encoding

  const MAX_GENERATION: u64 := 0xFFFF_FFFF_FFFF_FFFF

  datatype Phase = Reading | Waiting

  /** `lastSeq` is the cursor, `seen` the generation the client last observed. */
  datatype Client = Client(phase: Phase, lastSeq: nat, seen: u64)

  /** `unnotified` counts threads that have published and not yet bumped the generation. */
  datatype State = State(records: set<nat>, generation: u64, unnotified: nat, clients: map<nat, Client>)

  datatype Step =
    | Publish(added: set<nat>)
    | Notify
    | Remove(gone: set<nat>)
    | Connect(id: nat, from: nat)
    | ReadNext(id: nat, seqno: nat)
    | ReadNone(id: nat)
    | Wake(id: nat)
    | Disconnect(id: nat)

  predicate HasWork(s: State, c: Client) { exists r :: r in s.records && r > c.lastSeq }

  /** Waiting, and the generation is still the one it saw: the condition variable does not let it go on. */
  predicate Blocked(s: State, c: Client) { c.phase.Waiting? && c.seen == s.generation }

  predicate Enabled(s: State, step: Step) {
    match step
    case Publish(_) => true
    case Notify => s.unnotified > 0
    case Remove(_) => true
    case Connect(id, _) => id !in s.clients
    case ReadNext(id, n) =>
      && id in s.clients && s.clients[id].phase.Reading? && n in s.records && n > s.clients[id].lastSeq
      && forall r :: r in s.records && r > s.clients[id].lastSeq ==> n <= r
    case ReadNone(id) => id in s.clients && s.clients[id].phase.Reading? && !HasWork(s, s.clients[id])
    case Wake(id) => id in s.clients && s.clients[id].phase.Waiting? && !Blocked(s, s.clients[id])
    case Disconnect(id) => id in s.clients
  }

  function Bump(generation: u64): u64 { if generation == MAX_GENERATION then generation else generation + 1 }

  function Do(s: State, step: Step): State
    requires Enabled(s, step)
  {
    match step
    case Publish(added) => s.(records := s.records + added, unnotified := s.unnotified + 1)
    case Notify => s.(unnotified := s.unnotified - 1, generation := Bump(s.generation))
    case Remove(gone) => s.(records := s.records - gone)
    case Connect(id, from) => s.(clients := s.clients[id := Client(Reading, from, s.generation)])
    case ReadNext(id, n) => s.(clients := s.clients[id := s.clients[id].(lastSeq := n)])
    case ReadNone(id) => s.(clients := s.clients[id := s.clients[id].(phase := Waiting)])
    case Wake(id) => s.(clients := s.clients[id := s.clients[id].(phase := Reading, seen := s.generation)])
    case Disconnect(id) => s.(clients := s.clients - {id})
  }

  const INITIAL := State({}, 0, 0, map[])

  /** The schedule is possible from `s`, and the state it leads to. */
  predicate Possible(s: State, run: seq<Step>)
    decreases |run|
  {
    run == [] || (Enabled(s, run[0]) && Possible(Do(s, run[0]), run[1..]))
  }

  function After(s: State, run: seq<Step>): State
    requires Possible(s, run)
    decreases |run|
  {
    if run == [] then s else After(Do(s, run[0]), run[1..])
  }

  /** No client is blocked on work that nobody is about to announce. */
  predicate NoneStranded(s: State) {
    forall id :: id in s.clients && Blocked(s, s.clients[id]) && HasWork(s, s.clients[id]) ==> s.unnotified > 0
  }

  predicate Inv(s: State) {
    && (forall id :: id in s.clients ==> s.clients[id].seen <= s.generation)
    && (s.generation < MAX_GENERATION ==> NoneStranded(s))
  }

  lemma {:induction false} DoKeepsInv(s: State, step: Step)
    requires Inv(s) && Enabled(s, step)
    ensures Inv(Do(s, step)) && s.generation <= Do(s, step).generation
  {
    var s' := Do(s, step);
    match step
    case Remove(gone) =>
      forall id | id in s'.clients && HasWork(s', s'.clients[id]) ensures HasWork(s, s.clients[id]) {
        var r :| r in s'.records && r > s'.clients[id].lastSeq;
      }
    case Publish(_) =>
    case Notify =>
    case Connect(_, _) => SameWork(s, s');
    case ReadNext(_, _) => SameWork(s, s');
    case ReadNone(_) => SameWork(s, s');
    case Wake(_) => SameWork(s, s');
    case Disconnect(_) => SameWork(s, s');
  }

  lemma {:induction false} SameWork(s: State, s': State)
    requires s'.records == s.records
    ensures forall c: Client :: HasWork(s', c) <==> HasWork(s, c)
  {}

  lemma {:induction false} RunKeepsInv(s: State, run: seq<Step>)
    requires Inv(s) && Possible(s, run)
    ensures Inv(After(s, run)) && s.generation <= After(s, run).generation
    decreases |run|
  {
    hide Inv, Enabled, Do;
    if run != [] {
      DoKeepsInv(s, run[0]);
      RunKeepsInv(Do(s, run[0]), run[1..]);
    }
  }

  /** In every interleaving, until the 64-bit generation saturates: a client blocked while a record above its
      cursor is retained is about to be woken by some thread that has published and not yet notified. */
  lemma {:induction false} NoLostWakeup(run: seq<Step>, id: nat)
    requires Possible(INITIAL, run)
    ensures var s := After(INITIAL, run);
            id in s.clients && s.generation < MAX_GENERATION && Blocked(s, s.clients[id]) ==>
              HasWork(s, s.clients[id]) ==> s.unnotified > 0
  {
    RunKeepsInv(INITIAL, run);
  }

  /** Once every publisher has notified, every client still blocked has read everything retained. */
  lemma {:induction false} QuietMeansDrained(run: seq<Step>, id: nat)
    requires Possible(INITIAL, run)
    ensures var s := After(INITIAL, run);
            id in s.clients && s.generation < MAX_GENERATION && s.unnotified == 0 && Blocked(s, s.clients[id]) ==>
              forall r :: r in s.records ==> r <= s.clients[id].lastSeq
  {
    RunKeepsInv(INITIAL, run);
    var s := After(INITIAL, run);
    if id in s.clients && s.generation < MAX_GENERATION && s.unnotified == 0 && Blocked(s, s.clients[id]) {
      assert !HasWork(s, s.clients[id]);
    }
  }

  function WakesOf(run: seq<Step>, id: nat): nat {
    if run == [] then 0 else (if run[0] == Wake(id) then 1 else 0) + WakesOf(run[1..], id)
  }

  /** A client never spins: as long as it stays connected it wakes at most once for each time the generation moved. */
  lemma {:induction false} WakesBounded(s: State, run: seq<Step>, id: nat)
    requires Inv(s) && Possible(s, run) && id in s.clients
    requires forall k :: 0 <= k < |run| ==> run[k] != Disconnect(id)
    ensures id in After(s, run).clients && After(s, run).clients[id].seen <= After(s, run).generation
    ensures WakesOf(run, id) <= After(s, run).clients[id].seen - s.clients[id].seen
    decreases |run|
  {
    if run != [] {
      hide NoneStranded, HasWork;
      DoKeepsInv(s, run[0]);
      assert run[0] != Disconnect(id);
      assert forall k :: 0 <= k < |run[1..]| ==> run[1..][k] == run[k + 1];
      WakesBounded(Do(s, run[0]), run[1..], id);
    }
  }

  /** The sequence numbers a client reads in a run. */
  function ReadsOf(run: seq<Step>, id: nat): seq<nat> {
    if run == [] then []
    else (if run[0].ReadNext? && run[0].id == id then [run[0].seqno] else []) + ReadsOf(run[1..], id)
  }

  /** A client that stays connected reads in increasing order, starting above its cursor, and reads nothing twice. */
  lemma {:induction false} ReadsIncrease(s: State, run: seq<Step>, id: nat)
    requires Possible(s, run) && id in s.clients
    requires forall k :: 0 <= k < |run| ==> run[k] != Disconnect(id)
    ensures forall i :: 0 <= i < |ReadsOf(run, id)| ==> ReadsOf(run, id)[i] > s.clients[id].lastSeq
    ensures forall i, j :: 0 <= i < j < |ReadsOf(run, id)| ==> ReadsOf(run, id)[i] < ReadsOf(run, id)[j]
    decreases |run|
  {
    if run != [] {
      hide HasWork;
      assert run[0] != Disconnect(id);
      assert forall k :: 0 <= k < |run[1..]| ==> run[1..][k] == run[k + 1];
      ReadsIncrease(Do(s, run[0]), run[1..], id);
    }
  }

  /** The saturating counter is the one gap: at its top value, publishing to a blocked client and notifying
      leaves the client blocked with work and nobody left to announce it. */
  lemma {:induction false} SaturationStrands(s: State, id: nat)
    requires s.generation == MAX_GENERATION && s.unnotified == 0
    requires id in s.clients && Blocked(s, s.clients[id])
    ensures var run := [Publish({s.clients[id].lastSeq + 1}), Notify];
            Possible(s, run) && !NoneStranded(After(s, run))
  {
    var n := s.clients[id].lastSeq + 1;
    var p := Do(s, Publish({n}));
    var e := Do(p, Notify);
    var run := [Publish({n}), Notify];
    assert run[1..] == [Notify] && [Notify][1..] == [];
    assert Possible(e, []) && After(e, []) == e;
    assert Possible(p, [Notify]) && After(p, [Notify]) == After(e, []);
    assert n in e.records && HasWork(e, e.clients[id]) && Blocked(e, e.clients[id]);
  }

  lemma {:induction false} RunMore(s: State, run: seq<Step>, more: seq<Step>)
    requires Possible(s, run) && Possible(After(s, run), more)
    ensures Possible(s, run + more) && After(s, run + more) == After(After(s, run), more)
    decreases |run|
  {
    hide Enabled, Do;
    if run == [] {
      assert run + more == more;
    } else {
      RunMore(Do(s, run[0]), run[1..], more);
      assert (run + more)[1..] == run[1..] + more;
    }
  }

  /** A schedule that notifies `n` times without publishing anything. */
  function Notifies(n: nat): seq<Step> { if n == 0 then [] else Notifies(n - 1) + [Publish({}), Notify] }

  lemma {:induction false} NotifiesCount(n: nat)
    requires n <= MAX_GENERATION
    ensures Possible(INITIAL, Notifies(n)) && After(INITIAL, Notifies(n)) == State({}, n, 0, map[])
  {
    if n > 0 {
      NotifiesCount(n - 1);
      var s := State({}, n - 1, 0, map[]);
      TwoSteps(s, Publish({}), Notify);
      RunMore(INITIAL, Notifies(n - 1), [Publish({}), Notify]);
    }
  }

  lemma {:induction false} TwoSteps(s: State, a: Step, b: Step)
    requires Enabled(s, a) && Enabled(Do(s, a), b)
    ensures Possible(s, [a, b]) && After(s, [a, b]) == Do(Do(s, a), b)
  {
    hide Enabled, Do;
    var e := Do(Do(s, a), b);
    assert [a, b][1..] == [b] && [b][1..] == [];
    assert Possible(e, []) && After(e, []) == e;
    assert Possible(Do(s, a), [b]) && After(Do(s, a), [b]) == e;
  }

  /** That gap is reachable: some run from the start leaves a client blocked with work and nobody left to announce
      it. */
  lemma {:induction false} SaturationReached(id: nat) returns (run: seq<Step>)
    ensures Possible(INITIAL, run) && After(INITIAL, run).unnotified == 0
    ensures id in After(INITIAL, run).clients && !NoneStranded(After(INITIAL, run))
  {
    hide Possible, After;
    var s := State({}, MAX_GENERATION, 0, map[]);
    NotifiesCount(MAX_GENERATION);
    TwoSteps(s, Connect(id, 0), ReadNone(id));
    var idle := Do(Do(s, Connect(id, 0)), ReadNone(id));
    RunMore(INITIAL, Notifies(MAX_GENERATION), [Connect(id, 0), ReadNone(id)]);
    var waiting := Notifies(MAX_GENERATION) + [Connect(id, 0), ReadNone(id)];
    SaturationStrands(idle, id);
    TwoSteps(idle, Publish({1}), Notify);
    RunMore(INITIAL, waiting, [Publish({1}), Notify]);
    run := waiting + [Publish({1}), Notify];
  }

  /** No run that reaches this generation leaves a client stranded. */
  ghost predicate SafeAt(generation: u64) {
    forall run :: Possible(INITIAL, run) && After(INITIAL, run).generation == generation ==>
      NoneStranded(After(INITIAL, run))
  }

  /** No wakeup is lost at a generation exactly when it is below the counter's top value. */
  lemma {:induction false} WakeupExactness(generation: u64)
    ensures SafeAt(generation) <==> generation < MAX_GENERATION
  {
    hide Possible, After;
    if generation < MAX_GENERATION {
      forall run | Possible(INITIAL, run) && After(INITIAL, run).generation == generation
        ensures NoneStranded(After(INITIAL, run))
      {
        RunKeepsInv(INITIAL, run);
      }
    } else {
      var run := SaturationReached(0);
      RunKeepsInv(INITIAL, run);
    }
  }
}
