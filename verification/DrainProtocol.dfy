/** Draining replay: a server over an in-memory spool, a bridge that posts each record to its collectors and
    acknowledges it, connections that break at any point, and crashes on both sides. */
module DrainProtocol {
  import opened Prelude

  /** The bridge's resume state, in memory or in its state file. */
  datatype BridgeState = BridgeState(stream: Option<nat>, lastSeq: nat)

  datatype Down = Hello(stream: nat, lastSeq: nat) | Entry(seqno: nat)

  datatype Up = Request(from: nat) | Ack(acked: nat)

  /** The server thread of one connection. */
  datatype Server = AwaitRequest | Serving(last: nat) | AwaitAck(sent: nat) | Closed

  datatype Conn = Conn(stream: nat, server: Server, down: seq<Down>, up: seq<Up>)

  /** Where the bridge is: posting, then recording its state, then acknowledging are separate moments. */
  datatype Bridge =
    | Offline
    | AwaitHello(conn: nat)
    | Streaming(conn: nat)
    | Posted(conn: nat, seqno: nat)
    | Recorded(conn: nat, seqno: nat)

  datatype State = State(
    stream: nat, nextSeq: nat, records: seq<nat>, acked: set<(nat, nat)>, evicted: set<nat>, used: set<nat>,
    conns: map<nat, Conn>, phase: Bridge, memory: BridgeState, saved: BridgeState, hasFile: bool,
    accepted: seq<set<(nat, nat)>>)

  datatype Step =
    | Append
    | Evict(index: nat)
    | Open(conn: nat)
    | ReadHello(written: bool)
    | ReadRequest(conn: nat)
    | SendNext(conn: nat)
    | Post(accepting: nat)
    | WriteState(written: bool)
    | SendAck
    | ReadAck(conn: nat)
    | HangUp
    | CloseServer(conn: nat)
    | BridgeCrash
    | ServerCrash(newStream: nat)

  // ----- the bridge's reconciliation of its state with a hello

  function Reconcile(b: BridgeState, stream: nat, helloLast: nat): BridgeState {
    if b.stream.Some? then
      BridgeState(Some(stream), if b.stream.value != stream then 0 else b.lastSeq)
    else
      BridgeState(Some(stream), if b.lastSeq > 0 && helloLast > 0 && helloLast < b.lastSeq then 0 else b.lastSeq)
  }

  function FirstAbove(rs: seq<nat>, last: nat): (r: Option<nat>)
    ensures r.Some? ==> r.value in rs && r.value > last
    ensures r.None? ==> forall x :: x in rs ==> x <= last
  {
    assert forall x :: x in rs ==> x == rs[0] || x in rs[1..];
    if rs == [] then None else if rs[0] > last then Some(rs[0]) else FirstAbove(rs[1..], last)
  }

  /** `consume_through`: pops from the front while it is acknowledged. */
  function Unacked(rs: seq<nat>, upto: nat): seq<nat> {
    if rs == [] || rs[0] > upto then rs else Unacked(rs[1..], upto)
  }

  function LastSeq(rs: seq<nat>): nat { if rs == [] then 0 else rs[|rs| - 1] }

  function Persist(s: State, b: BridgeState): State {
    s.(memory := b, saved := if s.hasFile then b else s.saved)
  }

  // ----- steps

  predicate Enabled(s: State, step: Step) {
    match step
    case Append => true
    case Evict(i) => i < |s.records|
    case Open(c) => s.phase.Offline? && c !in s.conns
    case ReadHello(_) =>
      s.phase.AwaitHello? && s.phase.conn in s.conns && s.conns[s.phase.conn].down != []
          && s.conns[s.phase.conn].down[0].Hello?
    case ReadRequest(c) =>
      c in s.conns && s.conns[c].server.AwaitRequest? && s.conns[c].up != [] && s.conns[c].up[0].Request?
    case SendNext(c) => c in s.conns && s.conns[c].server.Serving?
                        && FirstAbove(s.records, s.conns[c].server.last).Some?
    case Post(n) =>
      && s.phase.Streaming? && s.phase.conn in s.conns && n <= |s.accepted|
      && s.conns[s.phase.conn].down != [] && s.conns[s.phase.conn].down[0].Entry?
    case WriteState(_) => s.phase.Posted? && s.phase.conn in s.conns
    case SendAck => s.phase.Recorded? && s.phase.conn in s.conns
    case ReadAck(c) => c in s.conns && s.conns[c].server.AwaitAck? && s.conns[c].up != [] && s.conns[c].up[0].Ack?
    case HangUp => true
    case CloseServer(c) => c in s.conns
    case BridgeCrash => true
    case ServerCrash(id) => id !in s.used
  }

  function Do(s: State, step: Step): State
    requires Enabled(s, step)
  {
    match step
    case Append => s.(records := s.records + [s.nextSeq], nextSeq := s.nextSeq + 1)
    case Evict(i) => s.(records := s.records[..i] + s.records[i + 1..], evicted := s.evicted + {s.records[i]})
    case Open(c) =>
      s.(conns := s.conns[c := Conn(s.stream, AwaitRequest, [Hello(s.stream, LastSeq(s.records))], [])],
         phase := AwaitHello(c))
    case ReadHello(written) =>
      var c := s.phase.conn;
      var k := s.conns[c];
      var b := Reconcile(s.memory, k.down[0].stream, k.down[0].lastSeq);
      var read := k.(down := k.down[1..]);
      if written then Persist(s, b).(conns := s.conns[c := read.(up := k.up + [Request(b.lastSeq)])],
                                     phase := Streaming(c))
      else s.(memory := b, conns := s.conns[c := read], phase := Offline)
    case ReadRequest(c) =>
      var k := s.conns[c];
      s.(conns := s.conns[c := k.(server := Serving(k.up[0].from), up := k.up[1..])])
    case SendNext(c) =>
      var k := s.conns[c];
      var r := FirstAbove(s.records, k.server.last).value;
      s.(conns := s.conns[c := k.(server := AwaitAck(r), down := k.down + [Entry(r)])])
    case Post(n) =>
      var c := s.phase.conn;
      var k := s.conns[c];
      var q := k.down[0].seqno;
      s.(accepted := seq(|s.accepted|, i requires 0 <= i < |s.accepted| =>
                                         if i < n then s.accepted[i] + {(k.stream, q)} else s.accepted[i]),
         conns := s.conns[c := k.(down := k.down[1..])],
         phase := if n == |s.accepted| then Posted(c, q) else Offline)
    case WriteState(written) =>
      var b := s.memory.(lastSeq := s.phase.seqno);
      if written then Persist(s, b).(phase := Recorded(s.phase.conn, s.phase.seqno))
      else s.(memory := b, phase := Offline)
    case SendAck =>
      var c := s.phase.conn;
      s.(conns := s.conns[c := s.conns[c].(up := s.conns[c].up + [Ack(s.phase.seqno)])], phase := Streaming(c))
    case ReadAck(c) =>
      var k := s.conns[c];
      var a := k.up[0].acked;
      if a != k.server.sent then s.(conns := s.conns[c := k.(server := Closed)])
      else
        s.(records := Unacked(s.records, a),
           acked := s.acked + (set q | q in s.records && q !in Unacked(s.records, a) :: (s.stream, q)),
           conns := s.conns[c := k.(server := Serving(a), up := k.up[1..])])
    case HangUp => s.(phase := Offline)
    case CloseServer(c) => s.(conns := s.conns[c := s.conns[c].(server := Closed)])
    case BridgeCrash => s.(phase := Offline, memory := if s.hasFile then s.saved else BridgeState(None, 0))
    case ServerCrash(id) =>
      s.(stream := id, used := s.used + {id}, nextSeq := 1, records := [], evicted := {},
         conns := map c | c in s.conns :: s.conns[c].(server := Closed))
  }

  // ----- what is kept

  /** Every collector accepted the record. */
  predicate Delivered(s: State, stream: nat, q: nat) {
    forall i :: 0 <= i < |s.accepted| ==> (stream, q) in s.accepted[i]
  }

  /** Every record still retained below `q` was delivered, and everything appended from now on is not below it. */
  predicate Cleared(s: State, q: nat) {
    q <= s.nextSeq && forall r :: r in s.records && r < q ==> Delivered(s, s.stream, r)
  }

  predicate BridgeStateOk(s: State, b: BridgeState) {
    match b.stream
    case None => b.lastSeq == 0
    case Some(id) => id in s.used && (id == s.stream ==> Cleared(s, b.lastSeq + 1))
  }

  predicate DownOk(s: State, stream: nat, m: Down) {
    match m
    case Hello(id, _) => id == stream
    case Entry(q) => stream == s.stream ==> q < s.nextSeq && Cleared(s, q)
  }

  predicate UpOk(s: State, stream: nat, m: Up) {
    match m
    case Request(f) => stream == s.stream ==> Cleared(s, f + 1)
    case Ack(q) => Delivered(s, stream, q)
  }

  predicate ServerOk(s: State, stream: nat, v: Server) {
    match v
    case Closed => true
    case AwaitRequest => stream == s.stream
    case Serving(last) => stream == s.stream && Cleared(s, last + 1)
    case AwaitAck(q) => stream == s.stream && q < s.nextSeq && Cleared(s, q)
  }

  predicate ConnOk(s: State, k: Conn) {
    && k.stream in s.used && ServerOk(s, k.stream, k.server)
    && (forall m :: m in k.down ==> DownOk(s, k.stream, m))
    && (forall m :: m in k.up ==> UpOk(s, k.stream, m))
  }

  predicate PhaseOk(s: State, v: Bridge) {
    match v
    case Offline => true
    case AwaitHello(c) => c in s.conns
    case Streaming(c) => c in s.conns && s.memory.stream == Some(s.conns[c].stream)
    case Posted(c, q) =>
      && c in s.conns && s.memory.stream == Some(s.conns[c].stream) && Delivered(s, s.conns[c].stream, q)
      && (s.conns[c].stream == s.stream ==> q < s.nextSeq && Cleared(s, q))
    case Recorded(c, q) =>
      c in s.conns && s.memory.stream == Some(s.conns[c].stream) && Delivered(s, s.conns[c].stream, q)
  }

  predicate SpoolOk(s: State) {
    && s.stream in s.used && s.nextSeq >= 1
    && (forall i, j :: 0 <= i < j < |s.records| ==> s.records[i] < s.records[j])
    && (forall r :: r in s.records ==> 1 <= r < s.nextSeq)
    && (forall p :: p in s.acked ==> p.0 in s.used && (p.0 == s.stream ==> p.1 < s.nextSeq))
  }

  /** The safety claim: a record left the spool by acknowledgement only after every collector accepted it. */
  predicate AckedWereDelivered(s: State) { forall p :: p in s.acked ==> Delivered(s, p.0, p.1) }

  /** No appended record vanishes silently: it is retained, acknowledged, or was evicted by the size limit. */
  predicate Accounted(s: State) {
    forall q :: 1 <= q < s.nextSeq ==> q in s.records || (s.stream, q) in s.acked || q in s.evicted
  }

  predicate Inv(s: State) {
    && SpoolOk(s) && AckedWereDelivered(s) && Accounted(s)
    && (forall c :: c in s.conns ==> ConnOk(s, s.conns[c]))
    && BridgeStateOk(s, s.memory) && BridgeStateOk(s, s.saved) && PhaseOk(s, s.phase)
  }

  // ----- nothing established is ever undone within one server life

  predicate Grows(s: State, t: State) {
    && t.stream == s.stream && t.nextSeq >= s.nextSeq && s.used <= t.used && |t.accepted| == |s.accepted|
    && (forall r :: r in t.records ==> r in s.records || r >= s.nextSeq)
    && (forall i :: 0 <= i < |s.accepted| ==> s.accepted[i] <= t.accepted[i])
  }

  lemma {:induction false} GrowsDelivered(s: State, t: State, stream: nat, q: nat)
    requires Grows(s, t) && Delivered(s, stream, q)
    ensures Delivered(t, stream, q)
  {}

  lemma {:induction false} GrowsCleared(s: State, t: State, q: nat)
    requires Grows(s, t) && Cleared(s, q)
    ensures Cleared(t, q)
  {
    hide Delivered;
    forall r | r in t.records && r < q ensures Delivered(t, t.stream, r) { GrowsDelivered(s, t, s.stream, r); }
  }

  lemma {:induction false} GrowsBridgeState(s: State, t: State, b: BridgeState)
    requires Grows(s, t) && BridgeStateOk(s, b)
    ensures BridgeStateOk(t, b)
  {
    hide Cleared;
    if b.stream == Some(s.stream) { GrowsCleared(s, t, b.lastSeq + 1); }
  }

  lemma {:induction false} GrowsServer(s: State, t: State, stream: nat, v: Server)
    requires Grows(s, t) && ServerOk(s, stream, v)
    ensures ServerOk(t, stream, v)
  {
    hide Cleared;
    match v
    case Serving(last) => GrowsCleared(s, t, last + 1);
    case AwaitAck(q) => GrowsCleared(s, t, q);
    case _ =>
  }

  lemma {:induction false} GrowsDown(s: State, t: State, stream: nat, m: Down)
    requires Grows(s, t) && DownOk(s, stream, m)
    ensures DownOk(t, stream, m)
  {
    hide Cleared;
    if m.Entry? && stream == s.stream { GrowsCleared(s, t, m.seqno); }
  }

  lemma {:induction false} GrowsUp(s: State, t: State, stream: nat, m: Up)
    requires Grows(s, t) && UpOk(s, stream, m)
    ensures UpOk(t, stream, m)
  {
    hide Cleared, Delivered;
    match m
    case Request(f) => if stream == s.stream { GrowsCleared(s, t, f + 1); }
    case Ack(q) => GrowsDelivered(s, t, stream, q);
  }

  lemma {:induction false} GrowsConn(s: State, t: State, k: Conn)
    requires Grows(s, t) && ConnOk(s, k)
    ensures ConnOk(t, k)
  {
    hide Grows, ServerOk, DownOk, UpOk;
    GrowsUsed(s, t);
    GrowsServer(s, t, k.stream, k.server);
    forall m | m in k.down ensures DownOk(t, k.stream, m) { GrowsDown(s, t, k.stream, m); }
    forall m | m in k.up ensures UpOk(t, k.stream, m) { GrowsUp(s, t, k.stream, m); }
  }

  lemma {:induction false} GrowsUsed(s: State, t: State)
    requires Grows(s, t)
    ensures s.used <= t.used
  {}

  lemma {:induction false} GrowsAcked(s: State, t: State)
    requires Grows(s, t) && AckedWereDelivered(s)
    ensures forall p :: p in s.acked ==> Delivered(t, p.0, p.1)
  {
    hide Delivered;
    forall p | p in s.acked ensures Delivered(t, p.0, p.1) { GrowsDelivered(s, t, p.0, p.1); }
  }

  lemma {:induction false} GrowsPhase(s: State, t: State)
    requires Grows(s, t) && PhaseOk(s, s.phase) && t.phase == s.phase && t.memory == s.memory
    requires !s.phase.Offline? ==> s.phase.conn in s.conns && s.phase.conn in t.conns
                                   && t.conns[s.phase.conn].stream == s.conns[s.phase.conn].stream
    ensures PhaseOk(t, t.phase)
  {
    hide Cleared, Delivered;
    match s.phase
    case Posted(c, q) =>
      GrowsDelivered(s, t, s.conns[c].stream, q);
      if s.conns[c].stream == s.stream { GrowsCleared(s, t, q); }
    case Recorded(c, q) => GrowsDelivered(s, t, s.conns[c].stream, q);
    case _ =>
  }

  /** The parts of a step that are the same for all steps of one server life. */
  lemma {:induction false} StepOk(s: State, t: State)
    requires Inv(s) && Grows(s, t)
    requires SpoolOk(t) && AckedWereDelivered(t) && Accounted(t)
    requires forall c :: c in t.conns ==> (c in s.conns && t.conns[c] == s.conns[c]) || ConnOk(t, t.conns[c])
    requires t.memory == s.memory || BridgeStateOk(t, t.memory)
    requires t.saved == s.saved || t.saved == t.memory
    requires PhaseOk(t, t.phase)
    ensures Inv(t)
  {
    hide Grows, SpoolOk, AckedWereDelivered, Accounted, ConnOk, BridgeStateOk, PhaseOk;
    forall c | c in t.conns ensures ConnOk(t, t.conns[c]) {
      if c in s.conns && t.conns[c] == s.conns[c] { GrowsConn(s, t, s.conns[c]); }
    }
    GrowsBridgeState(s, t, s.memory);
    GrowsBridgeState(s, t, s.saved);
  }

  /** A step that touches neither the spool nor the collectors. */
  lemma {:induction false} SameSpool(s: State, t: State)
    requires Inv(s)
    requires t.stream == s.stream && t.nextSeq == s.nextSeq && t.records == s.records && t.used == s.used
    requires t.acked == s.acked && t.evicted == s.evicted && t.accepted == s.accepted
    ensures Grows(s, t) && SpoolOk(t) && AckedWereDelivered(t) && Accounted(t)
  {
    assert forall stream, q :: Delivered(s, stream, q) ==> Delivered(t, stream, q);
  }

  lemma {:induction false} AppendOk(s: State)
    requires Inv(s)
    ensures Inv(Do(s, Append))
  {
    hide ConnOk, BridgeStateOk, Delivered;
    var t := Do(s, Append);
    assert forall i :: 0 <= i < |s.records| ==> s.records[i] in s.records;
    GrowsAcked(s, t);
    GrowsPhase(s, t);
    StepOk(s, t);
  }

  lemma {:induction false} WithoutOne(rs: seq<nat>, i: nat)
    requires i < |rs| && forall a, b :: 0 <= a < b < |rs| ==> rs[a] < rs[b]
    ensures var out := rs[..i] + rs[i + 1..];
            && (forall a, b :: 0 <= a < b < |out| ==> out[a] < out[b])
            && (forall x :: x in rs <==> x in out || x == rs[i])
  {
    var out := rs[..i] + rs[i + 1..];
    assert rs == rs[..i] + [rs[i]] + rs[i + 1..];
  }

  lemma {:induction false} EvictOk(s: State, i: nat)
    requires Inv(s) && i < |s.records|
    ensures Inv(Do(s, Evict(i)))
  {
    hide ConnOk, BridgeStateOk, Delivered;
    var t := Do(s, Evict(i));
    WithoutOne(s.records, i);
    GrowsAcked(s, t);
    GrowsPhase(s, t);
    StepOk(s, t);
  }

  lemma {:induction false} OpenOk(s: State, c: nat)
    requires Inv(s) && Enabled(s, Open(c))
    ensures Inv(Do(s, Open(c)))
  {
    hide BridgeStateOk, Cleared, Delivered;
    var t := Do(s, Open(c));
    SameSpool(s, t);
    assert ConnOk(t, t.conns[c]);
    StepOk(s, t);
  }

  lemma {:induction false} ReadHelloOk(s: State, written: bool)
    requires Inv(s) && Enabled(s, ReadHello(written))
    ensures Inv(Do(s, ReadHello(written)))
  {
    hide Delivered;
    var t := Do(s, ReadHello(written));
    var c := s.phase.conn;
    var k := s.conns[c];
    SameSpool(s, t);
    assert k.down[0] in k.down && DownOk(s, k.stream, k.down[0]);
    assert Cleared(t, 1);
    GrowsBridgeState(s, t, s.memory);
    assert BridgeStateOk(t, t.memory);
    ChangedConn(s, t, k, k.(down := k.down[1..]));
    assert UpOk(t, k.stream, Request(t.memory.lastSeq));
    StepOk(s, t);
  }

  /** A connection with fewer messages on their way is still in order. */
  lemma {:induction false} ChangedConn(s: State, t: State, k: Conn, k': Conn)
    requires Grows(s, t) && ConnOk(s, k) && k'.stream == k.stream && k'.server == k.server
    requires (forall m :: m in k'.down ==> m in k.down) && (forall m :: m in k'.up ==> m in k.up)
    ensures ConnOk(t, k')
  {
    hide Grows, ServerOk, DownOk, UpOk;
    GrowsConn(s, t, k);
  }

  lemma {:induction false} ReadRequestOk(s: State, c: nat)
    requires Inv(s) && Enabled(s, ReadRequest(c))
    ensures Inv(Do(s, ReadRequest(c)))
  {
    hide Cleared, Delivered, BridgeStateOk;
    var t := Do(s, ReadRequest(c));
    var k := s.conns[c];
    SameSpool(s, t);
    assert k.up[0] in k.up && UpOk(s, k.stream, k.up[0]);
    GrowsCleared(s, t, k.up[0].from + 1);
    ChangedConn(s, t, k, k.(up := k.up[1..]));
    GrowsPhase(s, t);
    StepOk(s, t);
  }

  lemma {:induction false} FirstAboveLeast(rs: seq<nat>, last: nat)
    requires FirstAbove(rs, last).Some? && forall i, j :: 0 <= i < j < |rs| ==> rs[i] < rs[j]
    ensures forall x :: x in rs && x > last ==> FirstAbove(rs, last).value <= x
  {
    if rs[0] <= last {
      FirstAboveLeast(rs[1..], last);
      assert forall x :: x in rs ==> x == rs[0] || x in rs[1..];
    } else {
      forall x | x in rs ensures rs[0] <= x { var i :| 0 <= i < |rs| && rs[i] == x; }
    }
  }

  lemma {:induction false} SendNextOk(s: State, c: nat)
    requires Inv(s) && Enabled(s, SendNext(c))
    ensures Inv(Do(s, SendNext(c)))
  {
    hide Delivered, BridgeStateOk;
    var t := Do(s, SendNext(c));
    var k := s.conns[c];
    var r := FirstAbove(s.records, k.server.last).value;
    FirstAboveLeast(s.records, k.server.last);
    assert Cleared(s, r);
    SameSpool(s, t);
    GrowsCleared(s, t, r);
    GrowsConn(s, t, k);
    assert ConnOk(t, t.conns[c]);
    GrowsPhase(s, t);
    StepOk(s, t);
  }

  lemma {:induction false} PostOk(s: State, n: nat)
    requires Inv(s) && Enabled(s, Post(n))
    ensures Inv(Do(s, Post(n)))
  {
    hide BridgeStateOk, Cleared;
    var t := Do(s, Post(n));
    var c := s.phase.conn;
    var k := s.conns[c];
    var q := k.down[0].seqno;
    assert Grows(s, t);
    assert k.down[0] in k.down && DownOk(s, k.stream, k.down[0]);
    GrowsDown(s, t, k.stream, k.down[0]);
    GrowsAcked(s, t);
    ChangedConn(s, t, k, t.conns[c]);
    StepOk(s, t);
  }

  lemma {:induction false} WriteStateOk(s: State, written: bool)
    requires Inv(s) && Enabled(s, WriteState(written))
    ensures Inv(Do(s, WriteState(written)))
  {
    hide Delivered, ConnOk;
    var t := Do(s, WriteState(written));
    var k := s.conns[s.phase.conn];
    SameSpool(s, t);
    var q := s.phase.seqno;
    GrowsDelivered(s, t, k.stream, q);
    if k.stream == s.stream { GrowsCleared(s, t, q); }
    assert BridgeStateOk(t, t.memory);
    StepOk(s, t);
  }

  lemma {:induction false} SendAckOk(s: State)
    requires Inv(s) && Enabled(s, SendAck)
    ensures Inv(Do(s, SendAck))
  {
    hide Delivered, Cleared, BridgeStateOk;
    var t := Do(s, SendAck);
    var c := s.phase.conn;
    var k := s.conns[c];
    SameSpool(s, t);
    GrowsDelivered(s, t, k.stream, s.phase.seqno);
    GrowsConn(s, t, k);
    assert ConnOk(t, t.conns[c]);
    StepOk(s, t);
  }

  lemma {:induction false} UnackedMeans(rs: seq<nat>, upto: nat)
    requires forall i, j :: 0 <= i < j < |rs| ==> rs[i] < rs[j]
    ensures var left := Unacked(rs, upto);
            && (forall x :: x in left <==> x in rs && x > upto)
            && (forall i, j :: 0 <= i < j < |left| ==> left[i] < left[j])
  {
    if rs != [] {
      if rs[0] <= upto {
        UnackedMeans(rs[1..], upto);
        assert Unacked(rs, upto) == Unacked(rs[1..], upto);
        assert forall x :: x in rs <==> x == rs[0] || x in rs[1..];
      } else {
        forall x | x in rs ensures x > upto { var i :| 0 <= i < |rs| && rs[i] == x; }
      }
    }
  }

  /** What an acknowledgement takes out of the spool was delivered: below it by the server's progress, itself by the
      acknowledgement. */
  lemma {:induction false} AckSpool(s: State, t: State, a: nat)
    requires SpoolOk(s) && AckedWereDelivered(s) && Accounted(s) && Cleared(s, a) && Delivered(s, s.stream, a)
    requires t.stream == s.stream && t.nextSeq == s.nextSeq && t.used == s.used && t.evicted == s.evicted
    requires t.accepted == s.accepted && t.records == Unacked(s.records, a)
    requires t.acked == s.acked + (set q | q in s.records && q !in Unacked(s.records, a) :: (s.stream, q))
    ensures Grows(s, t) && SpoolOk(t) && AckedWereDelivered(t) && Accounted(t)
  {
    hide Delivered;
    UnackedMeans(s.records, a);
    assert Grows(s, t);
    forall p | p in t.acked ensures Delivered(t, p.0, p.1) && p.0 in t.used && (p.0 == t.stream ==> p.1 < t.nextSeq) {
      if p !in s.acked {
        assert p.0 == s.stream && p.1 in s.records && p.1 <= a;
        assert Delivered(s, s.stream, p.1);
      }
      GrowsDelivered(s, t, p.0, p.1);
    }
    forall q | 1 <= q < t.nextSeq ensures q in t.records || (t.stream, q) in t.acked || q in t.evicted {}
  }

  lemma {:induction false} ReadAckOk(s: State, c: nat)
    requires Inv(s) && Enabled(s, ReadAck(c))
    ensures Inv(Do(s, ReadAck(c)))
  {
    hide Delivered, BridgeStateOk, SpoolOk, Accounted, AckedWereDelivered, Unacked, Grows;
    var t := Do(s, ReadAck(c));
    var k := s.conns[c];
    var a := k.up[0].acked;
    assert k.up[0] in k.up && UpOk(s, k.stream, k.up[0]);
    if a != k.server.sent {
      SameSpool(s, t);
    } else {
      AckSpool(s, t, a);
      ClearedPast(s, a);
      GrowsCleared(s, t, a + 1);
    }
    GrowsConn(s, t, k);
    assert ConnOk(t, t.conns[c]);
    GrowsPhase(s, t);
    StepOk(s, t);
  }

  lemma {:induction false} ClearedPast(s: State, q: nat)
    requires Cleared(s, q) && q < s.nextSeq && Delivered(s, s.stream, q)
    ensures Cleared(s, q + 1)
  {
    hide Delivered;
  }

  lemma {:induction false} QuietStepOk(s: State, step: Step)
    requires Inv(s) && Enabled(s, step) && (step.HangUp? || step.CloseServer? || step.BridgeCrash?)
    ensures Inv(Do(s, step))
  {
    hide Delivered, Cleared;
    var t := Do(s, step);
    SameSpool(s, t);
    match step
    case HangUp => StepOk(s, t);
    case CloseServer(c) =>
      GrowsConn(s, t, s.conns[c]);
      assert ConnOk(t, t.conns[c]);
      GrowsPhase(s, t);
      StepOk(s, t);
    case BridgeCrash =>
      GrowsBridgeState(s, t, s.saved);
      StepOk(s, t);
  }

  /** A new server life has a new stream id, so nothing said about the old stream is said about the new one. */
  lemma {:induction false} ServerCrashOk(s: State, id: nat)
    requires Inv(s) && id !in s.used
    ensures Inv(Do(s, ServerCrash(id)))
  {
    var t := Do(s, ServerCrash(id));
    assert forall stream, q :: Delivered(s, stream, q) ==> Delivered(t, stream, q);
    hide Delivered, Cleared;
    forall c | c in t.conns ensures ConnOk(t, t.conns[c]) {
      var k := s.conns[c];
      assert ConnOk(s, k);
      forall m | m in k.down ensures DownOk(t, k.stream, m) { assert DownOk(s, k.stream, m); }
      forall m | m in k.up ensures UpOk(t, k.stream, m) { assert UpOk(s, k.stream, m); }
    }
  }

  lemma {:induction false} DoKeepsInv(s: State, step: Step)
    requires Inv(s) && Enabled(s, step)
    ensures Inv(Do(s, step))
  {
    hide Inv, Do;
    match step
    case Append => AppendOk(s);
    case Evict(i) => EvictOk(s, i);
    case Open(c) => OpenOk(s, c);
    case ReadHello(w) => ReadHelloOk(s, w);
    case ReadRequest(c) => ReadRequestOk(s, c);
    case SendNext(c) => SendNextOk(s, c);
    case Post(n) => PostOk(s, n);
    case WriteState(w) => WriteStateOk(s, w);
    case SendAck => SendAckOk(s);
    case ReadAck(c) => ReadAckOk(s, c);
    case HangUp => QuietStepOk(s, step);
    case CloseServer(c) => QuietStepOk(s, step);
    case BridgeCrash => QuietStepOk(s, step);
    case ServerCrash(id) => ServerCrashOk(s, id);
  }

  // ----- whole runs

  predicate Possible(s: State, run: seq<Step>)
    decreases |run|
  {
    run == [] || (Enabled(s, run[0]) && Possible(Do(s, run[0]), run[1..]))
  }

  function After(s: State, run: seq<Step>): State
    requires Possible(s, run)
    decreases |run|
  {
    if run == [] then s else After(Do(s, run[0]), run[1..])
  }

  /** A fresh server with stream `id`, `n` collectors, and a bridge that starts from `b`. */
  function Start(id: nat, n: nat, hasFile: bool, b: BridgeState): State {
    State(id, 1, [], {}, {}, {id} + (if b.stream.Some? then {b.stream.value} else {}), map[], Offline, b, b, hasFile,
          seq(n, _ => {}))
  }

  lemma {:induction false} RunKeepsInv(s: State, run: seq<Step>)
    requires Inv(s) && Possible(s, run)
    ensures Inv(After(s, run))
    decreases |run|
  {
    hide Inv, Enabled, Do;
    if run != [] {
      DoKeepsInv(s, run[0]);
      RunKeepsInv(Do(s, run[0]), run[1..]);
    }
  }

  /** In every run, with crashes and reconnects at any point: a record leaves the spool by acknowledgement only
      after every collector accepted it, and no appended record vanishes any other way than by eviction. */
  lemma {:induction false} DrainSafety(id: nat, n: nat, hasFile: bool, b: BridgeState, run: seq<Step>)
    requires b.stream.Some? || b.lastSeq == 0
    requires b.stream != Some(id)
    requires Possible(Start(id, n, hasFile, b), run)
    ensures AckedWereDelivered(After(Start(id, n, hasFile, b), run))
    ensures Accounted(After(Start(id, n, hasFile, b), run))
  {
    RunKeepsInv(Start(id, n, hasFile, b), run);
  }

  // ----- resume states without a stream id

  lemma {:induction false} OneStep(s: State, step: Step, rest: seq<Step>)
    requires Enabled(s, step) && Possible(Do(s, step), rest)
    ensures Possible(s, [step] + rest) && After(s, [step] + rest) == After(Do(s, step), rest)
  {
    hide Enabled, Do;
    assert ([step] + rest)[1..] == rest;
  }

  function Upto(n: nat): seq<nat> { seq(n, i requires 0 <= i < n => i + 1) }

  function Appends(n: nat): seq<Step> { seq(n, _ => Append) }

  /** Appending `n` records to a spool that holds the first `k`. */
  lemma {:induction false} AppendMany(s: State, k: nat, n: nat, rest: seq<Step>)
    requires s.records == Upto(k) && s.nextSeq == k + 1
    requires Possible(s.(records := Upto(k + n), nextSeq := k + n + 1), rest)
    ensures Possible(s, Appends(n) + rest)
    ensures After(s, Appends(n) + rest) == After(s.(records := Upto(k + n), nextSeq := k + n + 1), rest)
    decreases n
  {
    hide Possible, After;
    if n == 0 {
      assert Appends(0) + rest == rest && s.(records := Upto(k), nextSeq := k + 1) == s;
    } else {
      var t := Do(s, Append);
      assert t.records == Upto(k + 1);
      AppendMany(t, k + 1, n - 1, rest);
      assert Appends(n) + rest == [Append] + (Appends(n - 1) + rest);
      OneStep(s, Append, Appends(n - 1) + rest);
    }
  }

  lemma {:induction false} UptoSearch(n: nat, i: nat)
    requires i <= n && n > 0
    ensures FirstAbove(Upto(n)[i..], n - 1) == if i < n then Some(n) else None
    ensures Unacked(Upto(n)[i..], n) == []
    decreases n - i
  {
    if i < n {
      UptoSearch(n, i + 1);
      assert Upto(n)[i..][1..] == Upto(n)[i + 1..];
    }
  }

  lemma {:induction false} Connects(s: State, last: nat)
    requires s.records == Upto(last + 1) && s.conns == map[] && s.phase.Offline? && s.memory == BridgeState(None, last)
    ensures Enabled(s, Open(0)) && Enabled(Do(s, Open(0)), ReadHello(true))
    ensures Do(Do(s, Open(0)), ReadHello(true))
         == Persist(s, BridgeState(Some(s.stream), last))
              .(conns := map[0 := Conn(s.stream, AwaitRequest, [], [Request(last)])], phase := Streaming(0))
  {
    var t := Do(Do(s, Open(0)), ReadHello(true));
    assert t.conns[0] == Conn(s.stream, AwaitRequest, [], [Request(last)]);
    assert t.conns == map[0 := t.conns[0]];
  }

  lemma {:induction false} Serves(s: State, last: nat)
    requires s.records == Upto(last + 1) && s.conns == map[0 := Conn(s.stream, AwaitRequest, [], [Request(last)])]
    ensures Enabled(s, ReadRequest(0)) && Enabled(Do(s, ReadRequest(0)), SendNext(0))
    ensures Do(Do(s, ReadRequest(0)), SendNext(0))
         == s.(conns := map[0 := Conn(s.stream, AwaitAck(last + 1), [Entry(last + 1)], [])])
  {
    UptoSearch(last + 1, 0);
    assert Upto(last + 1)[0..] == Upto(last + 1);
    var t := Do(s, ReadRequest(0));
    assert t.conns[0] == Conn(s.stream, Serving(last), [], []);
    var u := Do(t, SendNext(0));
    assert u.conns[0] == Conn(s.stream, AwaitAck(last + 1), [Entry(last + 1)], []);
    assert u.conns == map[0 := u.conns[0]];
  }

  /** Connecting to a server that holds the first `last + 1` records, with `last` trusted: one record is sent. */
  lemma {:induction false} TrustedConnect(s: State, last: nat, rest: seq<Step>)
    requires s.records == Upto(last + 1) && s.conns == map[] && s.phase.Offline? && s.memory == BridgeState(None, last)
    requires Possible(Sent(s, last), rest)
    ensures var run := [Open(0), ReadHello(true), ReadRequest(0), SendNext(0)] + rest;
            Possible(s, run) && After(s, run) == After(Sent(s, last), rest)
  {
    hide Possible, After, Do, Enabled, Upto;
    Connects(s, last);
    var s1 := Do(s, Open(0));
    var s2 := Do(s1, ReadHello(true));
    Serves(s2, last);
    var s3 := Do(s2, ReadRequest(0));
    OneStep(s3, SendNext(0), rest);
    OneStep(s2, ReadRequest(0), [SendNext(0)] + rest);
    OneStep(s1, ReadHello(true), [ReadRequest(0)] + ([SendNext(0)] + rest));
    OneStep(s, Open(0), [ReadHello(true)] + ([ReadRequest(0)] + ([SendNext(0)] + rest)));
    assert [Open(0)] + ([ReadHello(true)] + ([ReadRequest(0)] + ([SendNext(0)] + rest)))
        == [Open(0), ReadHello(true), ReadRequest(0), SendNext(0)] + rest;
  }

  function Sent(s: State, last: nat): State {
    Persist(s, BridgeState(Some(s.stream), last))
      .(conns := map[0 := Conn(s.stream, AwaitAck(last + 1), [Entry(last + 1)], [])], phase := Streaming(0))
  }

  lemma {:induction false} Acknowledges(s: State, last: nat)
    requires |s.accepted| > 0 && s.phase == Streaming(0) && 0 in s.conns
    requires s.conns[0] == Conn(s.stream, AwaitAck(last + 1), [Entry(last + 1)], [])
    ensures var t := Do(s, Post(|s.accepted|));
            var u := Do(t, WriteState(true));
            var v := Do(u, SendAck);
            && Enabled(s, Post(|s.accepted|)) && Enabled(t, WriteState(true)) && Enabled(u, SendAck)
            && 0 in v.conns && v.conns[0] == Conn(s.stream, AwaitAck(last + 1), [], [Ack(last + 1)])
            && v.records == s.records && v.stream == s.stream && |v.accepted| == |s.accepted|
            && v.accepted[0] == s.accepted[0] + {(s.stream, last + 1)}
  {}

  lemma {:induction false} AckTakesAll(s: State, last: nat)
    requires s.records == Upto(last + 1) && 0 in s.conns
    requires s.conns[0] == Conn(s.stream, AwaitAck(last + 1), [], [Ack(last + 1)])
    ensures Enabled(s, ReadAck(0)) && Do(s, ReadAck(0)).accepted == s.accepted
    ensures (s.stream, 1) in Do(s, ReadAck(0)).acked
  {
    UptoSearch(last + 1, 0);
    assert Upto(last + 1)[0..] == Upto(last + 1);
    assert Upto(last + 1)[0] == 1;
  }

  /** The collectors accept that one record, and its acknowledgement takes all `last + 1` with it. */
  lemma {:induction false} OneAckTakesAll(s: State, last: nat)
    requires s.records == Upto(last + 1) && |s.accepted| > 0
    requires s.phase == Streaming(0) && 0 in s.conns
    requires s.conns[0] == Conn(s.stream, AwaitAck(last + 1), [Entry(last + 1)], [])
    ensures var run := [Post(|s.accepted|), WriteState(true), SendAck, ReadAck(0)];
            && Possible(s, run)
            && (s.stream, 1) in After(s, run).acked
            && |After(s, run).accepted| > 0 && After(s, run).accepted[0] == s.accepted[0] + {(s.stream, last + 1)}
  {
    hide Possible, After, Do, Enabled, Upto;
    var n := |s.accepted|;
    Acknowledges(s, last);
    var s5 := Do(s, Post(n));
    var s6 := Do(s5, WriteState(true));
    var s7 := Do(s6, SendAck);
    AckTakesAll(s7, last);
    Stay(Do(s7, ReadAck(0)));
    OneStep(s7, ReadAck(0), []);
    OneStep(s6, SendAck, [ReadAck(0)] + []);
    OneStep(s5, WriteState(true), [SendAck] + ([ReadAck(0)] + []));
    OneStep(s, Post(n), [WriteState(true)] + ([SendAck] + ([ReadAck(0)] + [])));
    assert [Post(n)] + ([WriteState(true)] + ([SendAck] + ([ReadAck(0)] + [])))
           == [Post(n), WriteState(true), SendAck, ReadAck(0)];
  }

  lemma {:induction false} Stay(s: State)
    ensures Possible(s, []) && After(s, []) == s
  {}

  /** A resume state with a sequence number and no stream id trusts that number on any server. */
  lemma {:induction false} LegacyStateLoses(id: nat, n: nat, hasFile: bool, last: nat) returns (run: seq<Step>)
    requires n > 0 && last > 0
    ensures Possible(Start(id, n, hasFile, BridgeState(None, last)), run)
    ensures !AckedWereDelivered(After(Start(id, n, hasFile, BridgeState(None, last)), run))
  {
    hide Possible, After, Do, Enabled;
    var s0 := Start(id, n, hasFile, BridgeState(None, last));
    var s := s0.(records := Upto(last + 1), nextSeq := last + 2);
    var finish := [Post(n), WriteState(true), SendAck, ReadAck(0)];
    OneAckTakesAll(Sent(s, last), last);
    TrustedConnect(s, last, finish);
    var exchange := [Open(0), ReadHello(true), ReadRequest(0), SendNext(0)] + finish;
    AppendMany(s0, 0, last + 1, exchange);
    run := Appends(last + 1) + exchange;
    var e := After(s0, run);
    assert (id, 1) in e.acked && (id, 1) !in e.accepted[0];
    assert !Delivered(e, id, 1);
  }

  /** Draining is safe on every run exactly for resume states that are empty or name their stream. */
  lemma {:induction false} DrainExactness(id: nat, n: nat, hasFile: bool, b: BridgeState)
    requires n > 0 && b.stream != Some(id)
    ensures (forall run: seq<Step> :: Possible(Start(id, n, hasFile, b), run) ==>
                                        AckedWereDelivered(After(Start(id, n, hasFile, b), run)))
            <==> (b.stream.Some? || b.lastSeq == 0)
  {
    hide Possible, After, AckedWereDelivered, Start;
    if b.stream.Some? || b.lastSeq == 0 {
      forall run: seq<Step> | Possible(Start(id, n, hasFile, b), run)
        ensures AckedWereDelivered(After(Start(id, n, hasFile, b), run))
      {
        DrainSafety(id, n, hasFile, b, run);
      }
    } else {
      var run := LegacyStateLoses(id, n, hasFile, b.lastSeq);
    }
  }

  /** A number without a stream is trusted only on a server that holds nothing, or that has got as far: otherwise the
      bridge starts over, so it never asks a server for records beyond the last one that server holds. */
  lemma {:induction false} LegacyRequest(s: State, c: nat)
    requires Enabled(s, Open(c)) && s.memory.stream.None?
    ensures Enabled(Do(s, Open(c)), ReadHello(true))
    ensures var t := Do(Do(s, Open(c)), ReadHello(true));
            var last, held := s.memory.lastSeq, LastSeq(s.records);
            && c in t.conns && |t.conns[c].up| == 1 && t.conns[c].up[0].Request?
            && var f := t.conns[c].up[0].from;
               && (f == last || f == 0) && (held > 0 ==> f <= held) && (held == 0 || last <= held ==> f == last)
  {}
}
