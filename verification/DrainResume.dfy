/** Resuming a drain: what the bridge has recorded it never posts again, and it acknowledges only what it recorded. */
module DrainResume {
  import opened Prelude
  import opened DrainProtocol

  /** What happens to a record: it is posted to the collectors, the bridge's state says it was, it is acknowledged. */
  datatype Event =
    | PostedTo(stream: nat, seqno: nat)
    | Noted(stream: nat, seqno: nat)
    | AckSent(stream: nat, seqno: nat)

  /** The events of one step: a post that at least starts, a state write that succeeds, an acknowledgement. */
  function Happens(s: State, step: Step): seq<Event>
    requires Enabled(s, step)
  {
    match step
    case Post(_) => [PostedTo(s.conns[s.phase.conn].stream, s.conns[s.phase.conn].down[0].seqno)]
    case WriteState(true) => [Noted(s.conns[s.phase.conn].stream, s.phase.seqno)]
    case SendAck => [AckSent(s.conns[s.phase.conn].stream, s.phase.seqno)]
    case _ => []
  }

  function Log(s: State, run: seq<Step>): seq<Event>
    requires Possible(s, run)
    decreases |run|
  {
    if run == [] then [] else Happens(s, run[0]) + Log(Do(s, run[0]), run[1..])
  }

  /** No record at or below one that was recorded before is posted again. */
  predicate NoneAgain(log: seq<Event>) {
    forall i, j :: 0 <= i < j < |log| && log[i].Noted? && log[j].PostedTo? && log[i].stream == log[j].stream ==>
      log[i].seqno < log[j].seqno
  }

  /** How far a connection in use has got: request, record and acknowledgement follow each other in lockstep. */
  predicate InStep(s: State) {
    match s.phase
    case Offline => true
    case AwaitHello(c) =>
      && c in s.conns && var k := s.conns[c];
         && k.stream in s.used && (k.server.AwaitRequest? || k.server.Closed?) && k.up == []
         && |k.down| == 1 && k.down[0].Hello? && k.down[0].stream == k.stream
    case Streaming(c) =>
      && c in s.conns && s.memory.stream == Some(s.conns[c].stream)
      && s.conns[c].stream in s.used && Exchange(s.conns[c], s.memory.lastSeq)
    case Posted(c, q) =>
      && c in s.conns && s.memory.stream == Some(s.conns[c].stream) && s.memory.lastSeq < q
      && s.conns[c].stream in s.used && Settling(s.conns[c], q)
    case Recorded(c, q) =>
      && c in s.conns && s.memory.stream == Some(s.conns[c].stream) && s.memory.lastSeq == q
      && s.conns[c].stream in s.used && Settling(s.conns[c], q)
  }

  /** A connection whose bridge has recorded everything up to `last`. */
  predicate Exchange(k: Conn, last: nat) {
    match k.server
    case AwaitRequest => k.down == [] && k.up == [Request(last)]
    case Serving(l) => l == last && k.down == [] && k.up == []
    case AwaitAck(q) =>
      (last < q && k.down == [Entry(q)] && k.up == []) || (q == last && k.down == [] && k.up == [Ack(q)])
    case Closed => k.down == [] || (|k.down| == 1 && k.down[0].Entry? && last < k.down[0].seqno)
  }

  /** A connection whose bridge has posted `q` and not yet acknowledged it. */
  predicate Settling(k: Conn, q: nat) {
    k.down == [] && (k.server.Closed? || (k.server == AwaitAck(q) && k.up == []))
  }

  predicate Running(s: State) { s.stream in s.used && InStep(s) }

  lemma {:induction false} RunningStart(id: nat, n: nat, hasFile: bool, b: BridgeState)
    ensures Running(Start(id, n, hasFile, b))
  {}

  lemma {:induction false} BridgeStepRuns(s: State, step: Step)
    requires Running(s) && Enabled(s, step)
    requires step.Open? || step.ReadHello? || step.Post? || step.WriteState? || step.SendAck?
    ensures Running(Do(s, step))
  {}

  lemma {:induction false} ServerStepRuns(s: State, step: Step)
    requires Running(s) && Enabled(s, step)
    requires step.ReadRequest? || step.SendNext? || step.ReadAck?
    ensures Running(Do(s, step))
  {
    hide Unacked, FirstAbove;
  }

  lemma {:induction false} OtherStepRuns(s: State, step: Step)
    requires Running(s) && Enabled(s, step)
    requires step.Append? || step.Evict? || step.HangUp? || step.CloseServer? || step.BridgeCrash? || step.ServerCrash?
    ensures Running(Do(s, step))
  {}

  lemma {:induction false} DoRuns(s: State, step: Step)
    requires Running(s) && Enabled(s, step)
    ensures Running(Do(s, step))
  {
    hide Running, Do, Enabled;
    match step
    case Open(_) => BridgeStepRuns(s, step);
    case ReadHello(_) => BridgeStepRuns(s, step);
    case Post(_) => BridgeStepRuns(s, step);
    case WriteState(_) => BridgeStepRuns(s, step);
    case SendAck => BridgeStepRuns(s, step);
    case ReadRequest(_) => ServerStepRuns(s, step);
    case SendNext(_) => ServerStepRuns(s, step);
    case ReadAck(_) => ServerStepRuns(s, step);
    case _ => OtherStepRuns(s, step);
  }

  /** The connection in use, if any, is to this stream. */
  predicate OnStream(s: State, stream: nat) {
    !s.phase.Offline? && s.phase.conn in s.conns && s.conns[s.phase.conn].stream == stream
  }

  predicate AtLeast(b: BridgeState, stream: nat, q: nat) { b.stream == Some(stream) && b.lastSeq >= q }

  /** While the stream can still be read from, both copies of the bridge's position are at `q` or beyond. */
  predicate Holds(s: State, stream: nat, q: nat) {
    && stream in s.used && s.hasFile
    && (s.stream == stream || OnStream(s, stream) ==> AtLeast(s.memory, stream, q) && AtLeast(s.saved, stream, q))
    && (!s.phase.Offline? && !OnStream(s, stream) ==> s.stream != stream)
  }

  lemma {:induction false} DoHolds(s: State, step: Step, stream: nat, q: nat)
    requires Running(s) && Enabled(s, step) && Holds(s, stream, q)
    ensures Holds(Do(s, step), stream, q)
    ensures forall e :: e in Happens(s, step) && e.PostedTo? && e.stream == stream ==> e.seqno > q
  {
    hide Unacked, FirstAbove;
  }

  /** A successful state write holds the position it wrote. */
  lemma {:induction false} NotedHolds(s: State, step: Step)
    requires Running(s) && Enabled(s, step) && s.hasFile
    ensures Do(s, step).hasFile
    ensures forall e :: e in Happens(s, step) && e.Noted? ==> Holds(Do(s, step), e.stream, e.seqno)
    ensures |Happens(s, step)| <= 1
  {
    hide Unacked, FirstAbove;
  }

  lemma {:induction false} RunHolds(s: State, run: seq<Step>, stream: nat, q: nat)
    requires Running(s) && Possible(s, run) && Holds(s, stream, q)
    ensures forall e :: e in Log(s, run) && e.PostedTo? && e.stream == stream ==> e.seqno > q
    decreases |run|
  {
    hide Running, Holds, Do, Enabled, Happens;
    if run != [] {
      DoRuns(s, run[0]);
      DoHolds(s, run[0], stream, q);
      RunHolds(Do(s, run[0]), run[1..], stream, q);
    }
  }

  lemma {:induction false} RunNoneAgain(s: State, run: seq<Step>)
    requires Running(s) && s.hasFile && Possible(s, run)
    ensures NoneAgain(Log(s, run))
    decreases |run|
  {
    hide Running, Holds, Do, Enabled, Happens;
    if run != [] {
      var t, rest := Do(s, run[0]), run[1..];
      DoRuns(s, run[0]);
      NotedHolds(s, run[0]);
      RunNoneAgain(t, rest);
      var first := Happens(s, run[0]);
      forall e | e in first && e.Noted?
        ensures forall x :: x in Log(t, rest) && x.PostedTo? && x.stream == e.stream ==> x.seqno > e.seqno
      {
        RunHolds(t, rest, e.stream, e.seqno);
      }
      LogGrows(first, Log(t, rest));
    }
  }

  lemma {:induction false} LogGrows(first: seq<Event>, rest: seq<Event>)
    requires |first| <= 1 && NoneAgain(rest)
    requires forall e, x :: e in first && e.Noted? && x in rest && x.PostedTo? && x.stream == e.stream ==>
               x.seqno > e.seqno
    ensures NoneAgain(first + rest)
  {
    var log := first + rest;
    forall i, j | 0 <= i < j < |log| && log[i].Noted? && log[j].PostedTo? && log[i].stream == log[j].stream
      ensures log[i].seqno < log[j].seqno
    {
      var n := |first|;
      assert log[j] == rest[j - n];
      if i >= n { assert log[i] == rest[i - n]; }
    }
  }

  /** With a state file, on every run, across crashes of both sides and reconnects: once the state says that a record
      was posted, neither it nor any record before it on that stream is posted again. */
  lemma {:induction false} ResumeSafety(id: nat, n: nat, b: BridgeState, run: seq<Step>)
    requires Possible(Start(id, n, true, b), run)
    ensures NoneAgain(Log(Start(id, n, true, b), run))
  {
    hide Possible, Running, Log, NoneAgain;
    RunningStart(id, n, true, b);
    RunNoneAgain(Start(id, n, true, b), run);
  }

  // ----- nothing is acknowledged that was not recorded

  /** A record is noted only after it was posted, and acknowledged only after it was noted. */
  predicate InTurn(log: seq<Event>) {
    forall j :: 0 <= j < |log| ==>
      match log[j]
      case PostedTo(_, _) => true
      case Noted(st, q) => PostedTo(st, q) in log[..j]
      case AckSent(st, q) => Noted(st, q) in log[..j]
  }

  /** Where the bridge is, its last event says. */
  predicate Logged(s: State, past: seq<Event>) {
    match s.phase
    case Posted(c, q) => c in s.conns && PostedTo(s.conns[c].stream, q) in past
    case Recorded(c, q) => c in s.conns && Noted(s.conns[c].stream, q) in past
    case _ => true
  }

  lemma {:induction false} DoLogged(s: State, step: Step, past: seq<Event>)
    requires Enabled(s, step) && Logged(s, past)
    ensures Logged(Do(s, step), past + Happens(s, step)) && |Happens(s, step)| <= 1
    ensures forall e :: e in Happens(s, step) && e.Noted? ==> PostedTo(e.stream, e.seqno) in past
    ensures forall e :: e in Happens(s, step) && e.AckSent? ==> Noted(e.stream, e.seqno) in past
  {
    hide Unacked, FirstAbove;
    var e := Happens(s, step);
    assert forall x :: x in past + e <==> x in past || x in e;
  }

  lemma {:induction false} InTurnMore(past: seq<Event>, more: seq<Event>)
    requires InTurn(past) && |more| <= 1
    requires forall e :: e in more && e.Noted? ==> PostedTo(e.stream, e.seqno) in past
    requires forall e :: e in more && e.AckSent? ==> Noted(e.stream, e.seqno) in past
    ensures InTurn(past + more)
  {
    var log := past + more;
    assert log[..|past|] == past;
    forall j | 0 <= j < |log|
      ensures match log[j]
              case PostedTo(_, _) => true
              case Noted(st, q) => PostedTo(st, q) in log[..j]
              case AckSent(st, q) => Noted(st, q) in log[..j]
    {
      if j < |past| { assert log[..j] == past[..j]; } else { assert log[j] in more; }
    }
  }

  lemma {:induction false} RunInTurn(s: State, run: seq<Step>, past: seq<Event>)
    requires Possible(s, run) && Logged(s, past) && InTurn(past)
    ensures InTurn(past + Log(s, run))
    decreases |run|
  {
    hide Enabled, Do, Happens, Logged, InTurn;
    if run == [] {
      assert past + [] == past;
    } else {
      var first := Happens(s, run[0]);
      DoLogged(s, run[0], past);
      InTurnMore(past, first);
      RunInTurn(Do(s, run[0]), run[1..], past + first);
      assert past + first + Log(Do(s, run[0]), run[1..]) == past + Log(s, run);
    }
  }

  /** On every run, with or without a state file: a record is recorded only after it was posted, and acknowledged only
      after that was written. */
  lemma {:induction false} AcksAreRecorded(id: nat, n: nat, hasFile: bool, b: BridgeState, run: seq<Step>)
    requires Possible(Start(id, n, hasFile, b), run)
    ensures InTurn(Log(Start(id, n, hasFile, b), run))
  {
    hide Possible, Log;
    var s := Start(id, n, hasFile, b);
    RunInTurn(s, run, []);
    assert [] + Log(s, run) == Log(s, run);
  }

  // ----- exactly when recorded records stay recorded

  lemma {:induction false} LogStep(s: State, step: Step, rest: seq<Step>)
    requires Enabled(s, step) && Possible(Do(s, step), rest)
    ensures Possible(s, [step] + rest) && Log(s, [step] + rest) == Happens(s, step) + Log(Do(s, step), rest)
  {
    hide Enabled, Do, Happens;
    assert ([step] + rest)[1..] == rest;
  }

  lemma {:induction false} LogEnd(s: State)
    ensures Possible(s, []) && Log(s, []) == []
  {}

  /** A bridge without a position, connected and sent the server's only record. */
  function Fetched(s: State, c: nat): State {
    Persist(s, BridgeState(Some(s.stream), 0))
      .(conns := s.conns[c := Conn(s.stream, AwaitAck(1), [Entry(1)], [])], phase := Streaming(c))
  }

  lemma {:induction false} FetchSteps(s: State, c: nat)
    requires s.records == [1] && c !in s.conns && s.phase.Offline? && s.memory == BridgeState(None, 0)
    ensures Enabled(s, Open(c)) && Happens(s, Open(c)) == []
    ensures var s1 := Do(s, Open(c));
            && Enabled(s1, ReadHello(true)) && Happens(s1, ReadHello(true)) == []
            && var s2 := Do(s1, ReadHello(true));
               && Enabled(s2, ReadRequest(c)) && Happens(s2, ReadRequest(c)) == []
               && var s3 := Do(s2, ReadRequest(c));
                  Enabled(s3, SendNext(c)) && Happens(s3, SendNext(c)) == [] && Do(s3, SendNext(c)) == Fetched(s, c)
  {
    var s1 := Do(s, Open(c));
    var s2 := Do(s1, ReadHello(true));
    assert s2.conns[c] == Conn(s.stream, AwaitRequest, [], [Request(0)]);
    var s3 := Do(s2, ReadRequest(c));
    assert s3.conns[c] == Conn(s.stream, Serving(0), [], []);
    assert FirstAbove([1], 0) == Some(1);
    var s4 := Do(s3, SendNext(c));
    assert s4.conns[c] == Conn(s.stream, AwaitAck(1), [Entry(1)], []);
    assert s4.conns == s.conns[c := s4.conns[c]];
  }

  lemma {:induction false} Fetches(s: State, c: nat, rest: seq<Step>) returns (run: seq<Step>)
    requires s.records == [1] && c !in s.conns && s.phase.Offline? && s.memory == BridgeState(None, 0)
    requires Possible(Fetched(s, c), rest)
    ensures Possible(s, run) && Log(s, run) == Log(Fetched(s, c), rest)
  {
    hide Possible, Log, Do, Enabled, Happens, Fetched;
    FetchSteps(s, c);
    var s1 := Do(s, Open(c));
    var s2 := Do(s1, ReadHello(true));
    var s3 := Do(s2, ReadRequest(c));
    LogStep(s3, SendNext(c), rest);
    LogStep(s2, ReadRequest(c), [SendNext(c)] + rest);
    LogStep(s1, ReadHello(true), [ReadRequest(c)] + ([SendNext(c)] + rest));
    run := [Open(c)] + ([ReadHello(true)] + ([ReadRequest(c)] + ([SendNext(c)] + rest)));
    LogStep(s, Open(c), [ReadHello(true)] + ([ReadRequest(c)] + ([SendNext(c)] + rest)));
    assert forall log: seq<Event> :: [] + log == log;
  }

  lemma {:induction false} PostSteps(s: State, c: nat)
    requires !s.hasFile
    ensures var t := Fetched(s, c);
            && Enabled(t, Post(|s.accepted|)) && Happens(t, Post(|s.accepted|)) == [PostedTo(s.stream, 1)]
            && var u := Do(t, Post(|s.accepted|));
               && Enabled(u, WriteState(true)) && Happens(u, WriteState(true)) == [Noted(s.stream, 1)]
               && var v := Do(u, WriteState(true));
                  && Enabled(v, BridgeCrash) && Happens(v, BridgeCrash) == []
                  && var w := Do(v, BridgeCrash);
                     && w.records == s.records && w.conns.Keys == s.conns.Keys + {c} && w.phase.Offline?
                     && w.memory == BridgeState(None, 0) && w.stream == s.stream && |w.accepted| == |s.accepted|
                     && !w.hasFile
  {}

  /** Without a file, a crash between recording a record and acknowledging it posts it again. */
  lemma {:induction false} CrashRepeats(id: nat, n: nat, b: BridgeState) returns (run: seq<Step>)
    ensures Possible(Start(id, n, false, b), run) && !NoneAgain(Log(Start(id, n, false, b), run))
  {
    hide Possible, Log, Do, Enabled, Happens, Fetched;
    var s0 := Start(id, n, false, b);
    FreshStart(id, n, b);
    var s1 := Do(s0, BridgeCrash);
    var s := Do(s1, Append);
    PostSteps(s, 0);
    var t := Fetched(s, 0);
    var u := Do(t, Post(n));
    var v := Do(u, WriteState(true));
    var w := Do(v, BridgeCrash);
    PostSteps(w, 1);
    LogEnd(Do(Fetched(w, 1), Post(n)));
    LogStep(Fetched(w, 1), Post(n), []);
    var again := Fetches(w, 1, [Post(n)] + []);
    LogStep(v, BridgeCrash, again);
    LogStep(u, WriteState(true), [BridgeCrash] + again);
    LogStep(t, Post(n), [WriteState(true)] + ([BridgeCrash] + again));
    var once := Fetches(s, 0, [Post(n)] + ([WriteState(true)] + ([BridgeCrash] + again)));
    LogStep(s1, Append, once);
    LogStep(s0, BridgeCrash, [Append] + once);
    run := [BridgeCrash] + ([Append] + once);
    ThreeEvents(id, Log(s0, run));
  }

  lemma {:induction false} FreshStart(id: nat, n: nat, b: BridgeState)
    ensures var s0 := Start(id, n, false, b);
            && Enabled(s0, BridgeCrash) && Happens(s0, BridgeCrash) == []
            && var s1 := Do(s0, BridgeCrash);
               && Enabled(s1, Append) && Happens(s1, Append) == []
               && var s := Do(s1, Append);
                  && s.records == [1] && s.conns == map[] && s.phase.Offline? && s.memory == BridgeState(None, 0)
                  && s.stream == id && |s.accepted| == n && !s.hasFile
  {
    assert [] + [1] == [1];
  }

  lemma {:induction false} ThreeEvents(id: nat, log: seq<Event>)
    requires log == [] + ([] + ([PostedTo(id, 1)] + ([Noted(id, 1)] + ([] + ([PostedTo(id, 1)] + [])))))
    ensures !NoneAgain(log)
  {
    assert log == [PostedTo(id, 1), Noted(id, 1), PostedTo(id, 1)];
    assert log[1].Noted? && log[2].PostedTo?;
  }

  /** Recorded records are never posted again, on every run, if and only if the bridge has a state file. */
  lemma {:induction false} ResumeExactness(id: nat, n: nat, hasFile: bool, b: BridgeState)
    ensures (forall run: seq<Step> :: Possible(Start(id, n, hasFile, b), run) ==>
                                        NoneAgain(Log(Start(id, n, hasFile, b), run)))
            <==> hasFile
  {
    hide Possible, Log, NoneAgain, Start;
    if hasFile {
      forall run: seq<Step> | Possible(Start(id, n, hasFile, b), run)
        ensures NoneAgain(Log(Start(id, n, hasFile, b), run))
      {
        ResumeSafety(id, n, b, run);
      }
    } else {
      var run := CrashRepeats(id, n, b);
    }
  }
}
