/** The byte-at-a-time search for the block marker, and exactly which markers it is right for. */
module SyncMarker {
  import opened Prelude
  import opened Encoding

  predicate MarkerAt(marker: Bytes, data: Bytes, i: nat) {
    i + |marker| <= |data| && data[i..i + |marker|] == marker
  }

  /** The number of marker bytes matched after one more byte: on a mismatch it falls back to 0 or 1 only. */
  function Advance(marker: Bytes, matched: nat, b: byte): (m: nat)
    requires matched < |marker|
    ensures m <= matched + 1
  {
    if b == marker[matched] then matched + 1 else if b == marker[0] then 1 else 0
  }

  /** Where the search stops, from index `i` with `matched` bytes already matched. */
  function ScanFrom(marker: Bytes, data: Bytes, i: nat, matched: nat): (r: Option<nat>)
    requires matched < |marker| && matched <= i <= |data|
    ensures r.Some? ==> i - matched <= r.value && r.value + |marker| <= |data|
    decreases |data| - i
  {
    if i == |data| then None
    else
      var m := Advance(marker, matched, data[i]);
      if m == |marker| then Some(i + 1 - |marker|) else ScanFrom(marker, data, i + 1, m)
  }

  function Scan(marker: Bytes, data: Bytes): (r: Option<nat>)
    requires marker != []
    ensures r.Some? ==> r.value + |marker| <= |data|
  {
    ScanFrom(marker, data, 0, 0)
  }

  /** The search a reader wants: the first occurrence, or none when there is none. */
  ghost predicate IsFirstMarker(marker: Bytes, data: Bytes, r: Option<nat>) {
    match r
    case None => forall i: nat :: !MarkerAt(marker, data, i)
    case Some(k) => MarkerAt(marker, data, k) && forall i: nat :: i < k ==> !MarkerAt(marker, data, i)
  }

  /** The first `b` bytes of the marker are also the last `b` bytes of its first `m`. */
  predicate Border(marker: Bytes, m: nat, b: nat)
    requires b <= m <= |marker|
  {
    marker[..b] == marker[m - b..m]
  }

  /** Falling back to 0 or 1 loses nothing: every border continues with the byte that was expected anyway. */
  predicate SelfAligned(marker: Bytes) {
    forall m, b | 0 < m < |marker| && 0 < b < m :: Border(marker, m, b) ==> marker[b] == marker[m]
  }

  /** The marker's first `j` bytes are the last `j` read before index `i`. */
  predicate Tail(marker: Bytes, data: Bytes, i: nat, j: nat)
    requires i <= |data|
  {
    j <= i && j <= |marker| && data[i - j..i] == marker[..j]
  }

  lemma {:induction false} TailStep(marker: Bytes, data: Bytes, i: nat, j: nat)
    requires i < |data| && 0 < j <= |marker|
    ensures Tail(marker, data, i + 1, j) <==> Tail(marker, data, i, j - 1) && data[i] == marker[j - 1]
  {
    if j <= i + 1 {
      var s := data[i + 1 - j..i + 1];
      assert s == data[i - (j - 1)..i] + [data[i]];
      assert marker[..j] == marker[..j - 1] + [marker[j - 1]];
    }
  }

  lemma {:induction false} TailsBorder(marker: Bytes, data: Bytes, i: nat, m: nat, b: nat)
    requires i <= |data| && b <= m && Tail(marker, data, i, m) && Tail(marker, data, i, b)
    ensures Border(marker, m, b)
  {
    assert data[i - b..i] == data[i - m..i][m - b..] == marker[..m][m - b..];
  }

  /** The automaton's state is the longest marker prefix just read, and no occurrence is behind it. */
  ghost predicate InStep(marker: Bytes, data: Bytes, i: nat, m: nat)
    requires i <= |data|
  {
    && m < |marker|
    && Tail(marker, data, i, m)
    && (forall j | m < j <= |marker| :: !Tail(marker, data, i, j))
    && (forall k: nat | k + |marker| <= i :: !MarkerAt(marker, data, k))
  }

  lemma {:induction false} NoLongerTail(marker: Bytes, data: Bytes, i: nat, m: nat, j: nat)
    requires SelfAligned(marker) && i < |data| && InStep(marker, data, i, m)
    requires Advance(marker, m, data[i]) < j <= |marker|
    ensures !Tail(marker, data, i + 1, j)
  {
    hide Tail;
    TailStep(marker, data, i, j);
    if Tail(marker, data, i, j - 1) { TailsBorder(marker, data, i, m, j - 1); }
  }

  lemma {:induction false} WholeTail(marker: Bytes, data: Bytes, i: nat)
    requires |marker| <= i <= |data|
    ensures Tail(marker, data, i, |marker|) <==> MarkerAt(marker, data, i - |marker|)
  {
    assert marker[..|marker|] == marker;
  }

  lemma {:induction false} AdvancesTail(marker: Bytes, data: Bytes, i: nat, m: nat)
    requires i < |data| && InStep(marker, data, i, m)
    ensures Tail(marker, data, i + 1, Advance(marker, m, data[i]))
  {
    var m' := Advance(marker, m, data[i]);
    if m' > 0 { TailStep(marker, data, i, m'); }
  }

  lemma {:induction false} AdvanceKeepsStep(marker: Bytes, data: Bytes, i: nat, m: nat)
    requires SelfAligned(marker) && i < |data| && InStep(marker, data, i, m)
    ensures var m' := Advance(marker, m, data[i]);
            if m' == |marker| then MarkerAt(marker, data, i + 1 - m') else InStep(marker, data, i + 1, m')
  {
    AdvancesTail(marker, data, i, m);
    var m' := Advance(marker, m, data[i]);
    var n := i + 1;
    assert m' <= n;
    forall j | m' < j <= |marker| ensures !Tail(marker, data, n, j) {
      NoLongerTail(marker, data, i, m, j);
    }
    hide Tail, MarkerAt;
    if |marker| <= n { WholeTail(marker, data, n); }
  }

  /** One byte of the search. */
  lemma {:induction false} ScanStep(marker: Bytes, data: Bytes, i: nat, m: nat)
    requires m < |marker| && m <= i < |data|
    ensures var next := Advance(marker, m, data[i]);
            ScanFrom(marker, data, i, m)
            == if next == |marker| then Some(i + 1 - |marker|) else ScanFrom(marker, data, i + 1, next)
  {}

  lemma {:induction false} ScanEnds(marker: Bytes, data: Bytes, m: nat)
    requires m < |marker| && m <= |data|
    ensures ScanFrom(marker, data, |data|, m) == None
  {}

  lemma {:induction false} ScanFromIsFirst(marker: Bytes, data: Bytes, i: nat, m: nat)
    requires SelfAligned(marker) && i <= |data| && InStep(marker, data, i, m)
    ensures IsFirstMarker(marker, data, ScanFrom(marker, data, i, m))
    decreases |data| - i
  {
    if i < |data| {
      AdvanceKeepsStep(marker, data, i, m);
      var m' := Advance(marker, m, data[i]);
      if m' < |marker| { ScanFromIsFirst(marker, data, i + 1, m'); }
    }
  }

  lemma {:induction false} ScanIsFirst(marker: Bytes, data: Bytes)
    requires marker != [] && SelfAligned(marker)
    ensures IsFirstMarker(marker, data, Scan(marker, data))
  {
    assert Tail(marker, data, 0, 0);
    ScanFromIsFirst(marker, data, 0, 0);
  }

  /** Too few bytes are left to complete the marker. */
  lemma {:induction false} ScanRunsOut(marker: Bytes, data: Bytes, i: nat, m: nat)
    requires m < |marker| && m <= i <= |data|
    requires m + (|data| - i) < |marker|
    ensures ScanFrom(marker, data, i, m) == None
    decreases |data| - i
  {
    if i < |data| { ScanRunsOut(marker, data, i + 1, Advance(marker, m, data[i])); }
  }

  /** While the data spells the marker from `s` on, the state counts along. */
  lemma {:induction false} ScanFollows(marker: Bytes, data: Bytes, s: nat, k: nat, n: nat)
    requires k <= n <= |marker| && s + n <= |data| && data[s..s + n] == marker[..n]
    requires k < |marker|
    ensures n < |marker| ==> ScanFrom(marker, data, s + k, k) == ScanFrom(marker, data, s + n, n)
    ensures n == |marker| ==> ScanFrom(marker, data, s + k, k) == Some(s)
    decreases n - k
  {
    if k < n {
      assert data[s + k] == data[s..s + n][k] == marker[k];
      if k + 1 < |marker| { ScanFollows(marker, data, s, k + 1, n); }
    }
  }

  /** The marker at `i` is found at once when nothing is matched there, whatever the marker. */
  lemma {:induction false} ScanFindsHere(marker: Bytes, data: Bytes, i: nat)
    requires marker != [] && MarkerAt(marker, data, i)
    ensures ScanFrom(marker, data, i, 0) == Some(i)
  {
    assert marker[..|marker|] == marker;
    ScanFollows(marker, data, i, 0, |marker|);
  }

  /** Bytes other than the marker's first are stepped over. */
  lemma {:induction false} ScanSkips(marker: Bytes, data: Bytes, i: nat, n: nat)
    requires marker != [] && i <= n <= |data|
    requires forall k :: i <= k < n ==> data[k] != marker[0]
    ensures ScanFrom(marker, data, i, 0) == ScanFrom(marker, data, n, 0)
    decreases n - i
  {
    if i < n { ScanSkips(marker, data, i + 1, n); }
  }

  /** A misaligned border gives an input whose one marker the search runs past. */
  lemma {:induction false} ScanMisses(marker: Bytes, m: nat, b: nat) returns (data: Bytes)
    requires 0 < b < m < |marker| && Border(marker, m, b) && marker[b] != marker[m]
    ensures MarkerAt(marker, data, m - b)
    ensures Scan(marker, data) == None
  {
    data := marker[..m] + marker[b..];
    assert data[m - b..m - b + |marker|] == marker[m - b..m] + marker[b..] == marker[..b] + marker[b..] == marker;
    ScanFollows(marker, data, 0, 0, m);
    assert data[m] == marker[b];
    ScanRunsOut(marker, data, m + 1, Advance(marker, m, data[m]));
  }

  /** The search finds the first marker in every input exactly when the marker is self-aligned. */
  lemma {:induction false} ScanExactness(marker: Bytes)
    requires marker != []
    ensures (forall data: Bytes :: IsFirstMarker(marker, data, Scan(marker, data))) <==> SelfAligned(marker)
  {
    if SelfAligned(marker) {
      forall data: Bytes ensures IsFirstMarker(marker, data, Scan(marker, data)) { ScanIsFirst(marker, data); }
    } else {
      var m, b :| 0 < m < |marker| && 0 < b < m && Border(marker, m, b) && marker[b] != marker[m];
      var data := ScanMisses(marker, m, b);
      assert MarkerAt(marker, data, m - b) && !IsFirstMarker(marker, data, Scan(marker, data));
    }
  }

  /** A marker whose first byte does not recur in it is self-aligned. */
  lemma {:induction false} FreshHeadIsSelfAligned(marker: Bytes)
    requires forall i :: 0 < i < |marker| ==> marker[i] != marker[0]
    ensures SelfAligned(marker)
  {
    forall m, b | 0 < m < |marker| && 0 < b < m ensures !Border(marker, m, b) {
      assert marker[..b][0] == marker[0] && marker[m - b..m][0] == marker[m - b];
    }
  }
}
