/** The spool inside the drain protocol, which knows records by their sequence numbers, against the buffer spool. */
module DrainSpool {
  import opened Prelude
  import opened Encoding
  import opened BlockFormat
  import BufferSpool
  import DrainProtocol

  function Seqs(rs: seq<Record>): seq<nat> { seq(|rs|, i requires 0 <= i < |rs| => rs[i].seqno) }

  lemma {:induction false} SameConsumption(rs: seq<Record>, upto: u64)
    ensures DrainProtocol.Unacked(Seqs(rs), upto) == Seqs(BufferSpool.Consumed(rs, upto))
    decreases |rs|
  {
    hide BufferSpool.Consumed, DrainProtocol.Unacked, Seqs;
    SeqsParts(rs);
    ConsumedStep(rs, upto);
    UnackedStep(Seqs(rs), upto);
    if rs != [] && rs[0].seqno <= upto { SameConsumption(rs[1..], upto); }
  }

  lemma {:induction false} SeqsParts(rs: seq<Record>)
    ensures |Seqs(rs)| == |rs| && (rs != [] ==> Seqs(rs)[0] == rs[0].seqno && Seqs(rs)[1..] == Seqs(rs[1..]))
  {}

  lemma {:induction false} ConsumedStep(rs: seq<Record>, upto: u64)
    ensures BufferSpool.Consumed(rs, upto)
         == if rs == [] || rs[0].seqno > upto then rs else BufferSpool.Consumed(rs[1..], upto)
  {}

  lemma {:induction false} UnackedStep(qs: seq<nat>, upto: nat)
    ensures DrainProtocol.Unacked(qs, upto)
         == if qs == [] || qs[0] > upto then qs else DrainProtocol.Unacked(qs[1..], upto)
  {}

  lemma {:induction false} SameSearch(rs: seq<Record>, last: u64)
    ensures match BufferSpool.FirstAbove(rs, last)
            case None => DrainProtocol.FirstAbove(Seqs(rs), last) == None
            case Some(i) => DrainProtocol.FirstAbove(Seqs(rs), last) == Some(rs[i].seqno)
    decreases |rs|
  {
    if rs != [] {
      SameSearch(rs[1..], last);
      assert Seqs(rs)[1..] == Seqs(rs[1..]);
    }
  }

  /** What this protocol sends next and takes out is what the buffer spool's cursor and its consumption do, on the
      increasing sequence numbers the spool holds here. */
  lemma {:induction false} SpoolRefined(rs: seq<Record>, c: BufferSpool.Cursor, upto: u64)
    requires Increasing(rs)
    ensures match BufferSpool.CursorStep(rs, c).0
            case None => DrainProtocol.FirstAbove(Seqs(rs), c.lastSeq) == None
            case Some(r) => DrainProtocol.FirstAbove(Seqs(rs), c.lastSeq) == Some(r.seqno)
    ensures DrainProtocol.Unacked(Seqs(rs), upto) == Seqs(BufferSpool.Consumed(rs, upto))
  {
    hide DrainProtocol.FirstAbove, BufferSpool.FirstAbove, BufferSpool.CursorStep;
    hide DrainProtocol.Unacked, BufferSpool.Consumed;
    BufferSpool.IncreasingCursor(rs, c);
    SameSearch(rs, c.lastSeq);
    SameConsumption(rs, upto);
  }
}
