/** Draining can always be completed, however connections, bridge and server were left. */
module DrainProgress {
  import opened Prelude
  import opened DrainProtocol

  /** A connection that waits for the next record after `last`. */
  predicate Idling(s: State, c: nat, last: nat) {
    && s.phase == Streaming(c) && c in s.conns && s.conns[c] == Conn(s.stream, Serving(last), [], [])
    && s.memory.stream == Some(s.stream)
  }

  lemma {:induction false} SendRound(s: State, c: nat, last: nat)
    requires Idling(s, c, last) && FirstAbove(s.records, last).Some?
    ensures Enabled(s, SendNext(c))
    ensures var r := FirstAbove(s.records, last).value;
            Do(s, SendNext(c)) == s.(conns := s.conns[c := Conn(s.stream, AwaitAck(r), [Entry(r)], [])])
  {
    hide FirstAbove;
    var r := FirstAbove(s.records, last).value;
    assert [] + [Entry(r)] == [Entry(r)];
  }

  lemma {:induction false} PostRound(s: State, c: nat, r: nat)
    requires s.phase == Streaming(c) && c in s.conns && s.conns[c] == Conn(s.stream, AwaitAck(r), [Entry(r)], [])
    requires s.memory.stream == Some(s.stream)
    ensures Enabled(s, Post(|s.accepted|))
    ensures var t := Do(s, Post(|s.accepted|));
            && Enabled(t, WriteState(true))
            && var u := Do(t, WriteState(true));
               && Enabled(u, SendAck)
               && var v := Do(u, SendAck);
                  && v.phase == Streaming(c) && c in v.conns && v.memory.stream == Some(s.stream)
                  && v.conns[c] == Conn(s.stream, AwaitAck(r), [], [Ack(r)])
                  && v.records == s.records && v.stream == s.stream && v.acked == s.acked
  {}

  lemma {:induction false} AckRound(s: State, c: nat, r: nat)
    requires s.phase == Streaming(c) && c in s.conns && s.conns[c] == Conn(s.stream, AwaitAck(r), [], [Ack(r)])
    requires s.memory.stream == Some(s.stream)
    ensures Enabled(s, ReadAck(c))
    ensures var t := Do(s, ReadAck(c));
            && Idling(t, c, r) && t.stream == s.stream && t.records == Unacked(s.records, r)
            && s.acked <= t.acked && forall q :: q in s.records && q !in t.records ==> (s.stream, q) in t.acked
  {
    hide Unacked;
  }

  /** One more record is sent, posted, recorded and acknowledged. */
  lemma {:induction false} Round(s: State, c: nat, last: nat) returns (run: seq<Step>, t: State)
    requires Idling(s, c, last) && FirstAbove(s.records, last).Some?
    ensures var r := FirstAbove(s.records, last).value;
            && Idling(t, c, r) && t.stream == s.stream && t.records == Unacked(s.records, r)
            && s.acked <= t.acked && forall q :: q in s.records && q !in t.records ==> (s.stream, q) in t.acked
    ensures Possible(s, run) && After(s, run) == t
  {
    hide Possible, After, Do, Enabled, FirstAbove, Unacked, Idling;
    var r := FirstAbove(s.records, last).value;
    SendRound(s, c, last);
    IdlingParts(s, c, last);
    var s1 := Do(s, SendNext(c));
    PostRound(s1, c, r);
    var s2 := Do(s1, Post(|s1.accepted|));
    var s3 := Do(s2, WriteState(true));
    var s4 := Do(s3, SendAck);
    AckRound(s4, c, r);
    t := Do(s4, ReadAck(c));
    Stay(t);
    OneStep(s4, ReadAck(c), []);
    OneStep(s3, SendAck, [ReadAck(c)] + []);
    OneStep(s2, WriteState(true), [SendAck] + ([ReadAck(c)] + []));
    OneStep(s1, Post(|s1.accepted|), [WriteState(true)] + ([SendAck] + ([ReadAck(c)] + [])));
    run := [SendNext(c)] + ([Post(|s1.accepted|)] + ([WriteState(true)] + ([SendAck] + ([ReadAck(c)] + []))));
    OneStep(s, SendNext(c), [Post(|s1.accepted|)] + ([WriteState(true)] + ([SendAck] + ([ReadAck(c)] + []))));
  }

  lemma {:induction false} IdlingParts(s: State, c: nat, last: nat)
    requires Idling(s, c, last)
    ensures s.phase == Streaming(c) && c in s.conns && s.conns[c].stream == s.stream
    ensures s.memory.stream == Some(s.stream)
  {}

  lemma {:induction false} RunThen(s: State, run: seq<Step>, more: seq<Step>)
    requires Possible(s, run) && Possible(After(s, run), more)
    ensures Possible(s, run + more) && After(s, run + more) == After(After(s, run), more)
    decreases |run|
  {
    hide Enabled, Do;
    if run == [] {
      assert run + more == more;
    } else {
      assert (run + more)[1..] == run[1..] + more;
      RunThen(Do(s, run[0]), run[1..], more);
    }
  }

  predicate Sorted(rs: seq<nat>) { forall i, j :: 0 <= i < j < |rs| ==> rs[i] < rs[j] }

  /** The acknowledged record and everything before it is gone. */
  lemma {:induction false} UnackedShrinks(rs: seq<nat>, last: nat)
    requires Sorted(rs) && FirstAbove(rs, last).Some?
    ensures var left := Unacked(rs, FirstAbove(rs, last).value);
            Sorted(left) && |left| < |rs| && forall x :: x in left <==> x in rs && x > FirstAbove(rs, last).value
  {
    hide FirstAbove;
    var r := FirstAbove(rs, last).value;
    UnackedMeans(rs, r);
    UnackedSuffix(rs, r);
    assert rs[0..] == rs && r in rs;
  }

  lemma {:induction false} UnackedSuffix(rs: seq<nat>, upto: nat)
    ensures |Unacked(rs, upto)| <= |rs| && Unacked(rs, upto) == rs[|rs| - |Unacked(rs, upto)|..]
  {
    if rs != [] && rs[0] <= upto { UnackedSuffix(rs[1..], upto); }
  }

  /** Rounds until nothing is left. */
  lemma {:induction false} Rounds(s: State, c: nat, last: nat) returns (run: seq<Step>)
    requires Idling(s, c, last) && Sorted(s.records) && (s.records == [] || exists q :: q in s.records && q > last)
    ensures Possible(s, run) && After(s, run).records == [] && After(s, run).stream == s.stream
    ensures s.acked <= After(s, run).acked && forall q :: q in s.records ==> (s.stream, q) in After(s, run).acked
    decreases |s.records|
  {
    hide Possible, After, Idling, FirstAbove, Unacked;
    if s.records == [] {
      run := [];
      Stay(s);
    } else {
      SearchFinds(s.records, last);
      UnackedShrinks(s.records, last);
      var r := FirstAbove(s.records, last).value;
      var first, t := Round(s, c, last);
      assert t.records != [] ==> t.records[0] in t.records;
      var rest := Rounds(t, c, r);
      RunThen(s, first, rest);
      run := first + rest;
    }
  }

  lemma {:induction false} SearchFinds(rs: seq<nat>, last: nat)
    requires exists q :: q in rs && q > last
    ensures FirstAbove(rs, last).Some?
  {}

  /** One more record, for the acknowledgement to take the others with. */
  lemma {:induction false} OneMoreRecord(s: State)
    requires Inv(s)
    ensures Enabled(s, HangUp) && Enabled(Do(s, HangUp), Append)
    ensures var t := Do(Do(s, HangUp), Append);
            && t.phase.Offline? && t.records == s.records + [s.nextSeq] && t.stream == s.stream && t.conns == s.conns
            && (t.memory.stream == Some(t.stream) ==> t.memory.lastSeq < s.nextSeq)
            && (t.memory.stream.None? ==> t.memory.lastSeq == 0) && s.nextSeq >= 1
  {
    hide Delivered, ConnOk, Accounted, AckedWereDelivered;
  }

  lemma {:induction false} Reconnects(s: State, c: nat, next: nat)
    requires s.phase.Offline? && c !in s.conns && next >= 1
    requires s.memory.stream == Some(s.stream) ==> s.memory.lastSeq < next
    requires s.memory.stream.None? ==> s.memory.lastSeq == 0
    ensures Enabled(s, Open(c))
    ensures var s3 := Do(s, Open(c));
            && Enabled(s3, ReadHello(true))
            && var s4 := Do(s3, ReadHello(true));
               && Enabled(s4, ReadRequest(c))
               && var t := Do(s4, ReadRequest(c));
                  && t.records == s.records && t.stream == s.stream
                  && t.memory.lastSeq < next && Idling(t, c, t.memory.lastSeq)
  {}

  /** From every reachable state, however the connections and both sides were left: after one more append the spool can
      be drained completely, and then everything it held was delivered to every collector. */
  lemma {:induction false} DrainCompletes(id: nat, n: nat, hasFile: bool, b: BridgeState, run: seq<Step>, c: nat)
    returns (rest: seq<Step>)
    requires (b.stream.Some? || b.lastSeq == 0) && b.stream != Some(id)
    requires Possible(Start(id, n, hasFile, b), run) && c !in After(Start(id, n, hasFile, b), run).conns
    ensures var s := After(Start(id, n, hasFile, b), run);
            && Possible(s, rest) && After(s, rest).records == [] && After(s, rest).stream == s.stream
            && forall q :: q in s.records ==> Delivered(After(s, rest), s.stream, q)
  {
    hide Possible, After, Do, Enabled, Idling, Inv, Start, Delivered;
    var s := After(Start(id, n, hasFile, b), run);
    StartInv(id, n, hasFile, b);
    RunKeepsInv(Start(id, n, hasFile, b), run);
    OneMoreRecord(s);
    var s1 := Do(s, HangUp);
    var s2 := Do(s1, Append);
    Reconnects(s2, c, s.nextSeq);
    var s3 := Do(s2, Open(c));
    var s4 := Do(s3, ReadHello(true));
    var t := Do(s4, ReadRequest(c));
    SpoolSorted(s);
    assert s.nextSeq in t.records;
    var rounds := Rounds(t, c, t.memory.lastSeq);
    OneStep(s4, ReadRequest(c), rounds);
    OneStep(s3, ReadHello(true), [ReadRequest(c)] + rounds);
    OneStep(s2, Open(c), [ReadHello(true)] + ([ReadRequest(c)] + rounds));
    OneStep(s1, Append, [Open(c)] + ([ReadHello(true)] + ([ReadRequest(c)] + rounds)));
    rest := [HangUp] + ([Append] + ([Open(c)] + ([ReadHello(true)] + ([ReadRequest(c)] + rounds))));
    OneStep(s, HangUp, [Append] + ([Open(c)] + ([ReadHello(true)] + ([ReadRequest(c)] + rounds))));
    RunKeepsInv(s, rest);
    AckedDelivered(After(s, rest));
  }

  lemma {:induction false} StartInv(id: nat, n: nat, hasFile: bool, b: BridgeState)
    requires (b.stream.Some? || b.lastSeq == 0) && b.stream != Some(id)
    ensures Inv(Start(id, n, hasFile, b))
  {}

  lemma {:induction false} SpoolSorted(s: State)
    requires Inv(s)
    ensures Sorted(s.records + [s.nextSeq])
  {
    hide Delivered, Cleared, ConnOk, Accounted, AckedWereDelivered;
    assert forall i :: 0 <= i < |s.records| ==> s.records[i] in s.records;
  }

  lemma {:induction false} AckedDelivered(s: State)
    requires Inv(s)
    ensures forall stream, q :: (stream, q) in s.acked ==> Delivered(s, stream, q)
  {
    hide Delivered;
    forall stream, q | (stream, q) in s.acked ensures Delivered(s, stream, q) {
      assert Delivered(s, (stream, q).0, (stream, q).1);
    }
  }
}
