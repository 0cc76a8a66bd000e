/** Groups of duplicate log records and what a partition of the input into groups means. */
module DedupGroups {
  import opened Prelude
  import opened Encoding
  import opened DrainTree

  datatype FlatRecord = FlatRecord(service: string, severity: int, time: u64, observed: u64, body: string)

  datatype Group = Group(
    signature: u64, count: nat, representative: FlatRecord, firstSeen: u64, lastSeen: u64,
    canonical: Option<string>, template: Option<Tokens>, clusterId: Option<nat>)

  function EffectiveTimestamp(r: FlatRecord): u64 { if r.time != 0 then r.time else r.observed }

  function NewGroup(signature: u64, r: FlatRecord): Group {
    Group(signature, 1, r, EffectiveTimestamp(r), EffectiveTimestamp(r), None, None, None)
  }

  function Absorb(g: Group, r: FlatRecord): Group {
    var ts := EffectiveTimestamp(r);
    g.(count := g.count + 1,
       firstSeen := if ts < g.firstSeen then ts else g.firstSeen,
       lastSeen := if ts > g.lastSeen then ts else g.lastSeen)
  }

  function MergeGroup(g: Group, other: Group): Group {
    g.(count := g.count + other.count,
       firstSeen := if other.firstSeen < g.firstSeen then other.firstSeen else g.firstSeen,
       lastSeen := if other.lastSeen > g.lastSeen then other.lastSeen else g.lastSeen)
  }

  lemma {:induction false} AbsorbIsMerge(g: Group, signature: u64, r: FlatRecord)
    ensures Absorb(g, r) == MergeGroup(g, NewGroup(signature, r))
  {}

  // ----- one group

  /** The group stands for exactly the records at these positions: their number, the first of them, and the earliest
      and latest of their timestamps. */
  ghost predicate Describes(g: Group, rs: seq<FlatRecord>, at: nat, part: set<nat>) {
    && at in part && (forall k :: k in part ==> at <= k < |rs|)
    && g.representative == rs[at] && g.count == |part|
    && (forall k :: k in part ==> g.firstSeen <= EffectiveTimestamp(rs[k]) <= g.lastSeen)
    && (exists k :: k in part && EffectiveTimestamp(rs[k]) == g.firstSeen)
    && (exists k :: k in part && EffectiveTimestamp(rs[k]) == g.lastSeen)
  }

  /** The range covers when each record happened, or when it was observed if it does not say. */
  lemma {:induction false} RangeCovers(g: Group, rs: seq<FlatRecord>, at: nat, part: set<nat>, k: nat)
    requires Describes(g, rs, at, part) && k in part
    ensures k < |rs| && g.firstSeen <= (if rs[k].time != 0 then rs[k].time else rs[k].observed) <= g.lastSeen
  {}

  lemma {:induction false} NewDescribes(signature: u64, rs: seq<FlatRecord>, at: nat)
    requires at < |rs|
    ensures Describes(NewGroup(signature, rs[at]), rs, at, {at})
  {
    assert at in {at};
  }

  lemma {:induction false} MergeDescribes(a: Group, b: Group, rs: seq<FlatRecord>, at: nat, other: nat, s: set<nat>,
                                          t: set<nat>)
    requires Describes(a, rs, at, s) && Describes(b, rs, other, t) && s !! t && at < other
    ensures Describes(MergeGroup(a, b), rs, at, s + t)
  {
    var m := MergeGroup(a, b);
    assert |s + t| == |s| + |t|;
    var i :| i in s && EffectiveTimestamp(rs[i]) == a.firstSeen;
    var j :| j in t && EffectiveTimestamp(rs[j]) == b.firstSeen;
    var k :| k in s && EffectiveTimestamp(rs[k]) == a.lastSeen;
    var l :| l in t && EffectiveTimestamp(rs[l]) == b.lastSeen;
    assert i in s + t && j in s + t && k in s + t && l in s + t;
  }

  // ----- all groups

  /** The groups stand for disjoint parts that make up `all` together. */
  ghost predicate Tiles(groups: seq<Group>, rs: seq<FlatRecord>, ats: seq<nat>, parts: seq<set<nat>>, all: set<nat>) {
    && |groups| == |ats| == |parts|
    && (forall j :: 0 <= j < |groups| ==> parts[j] <= all && Describes(groups[j], rs, ats[j], parts[j]))
    && (forall i, j :: 0 <= i < j < |parts| ==> parts[i] !! parts[j])
    && (forall x :: x in all ==> InSome(parts, x))
  }

  ghost predicate InSome(parts: seq<set<nat>>, x: nat) { exists j :: 0 <= j < |parts| && x in parts[j] }

  lemma {:induction false} NotInLast(parts: seq<set<nat>>, x: nat, n: nat)
    requires n + 1 == |parts| && InSome(parts, x) && x !in parts[n]
    ensures InSome(parts[..n], x)
  {
    var j :| 0 <= j < |parts| && x in parts[j];
    assert parts[..n][j] == parts[j];
  }

  function SumCounts(groups: seq<Group>): nat
  {
    if groups == [] then 0 else SumCounts(groups[..|groups| - 1]) + groups[|groups| - 1].count
  }

  lemma {:induction false} TilesButLast(groups: seq<Group>, rs: seq<FlatRecord>, ats: seq<nat>, parts: seq<set<nat>>,
                                        all: set<nat>, n: nat)
    requires Tiles(groups, rs, ats, parts, all) && n + 1 == |groups|
    ensures Tiles(groups[..n], rs, ats[..n], parts[..n], all - parts[n])
  {
    hide Describes, InSome;
    forall x | x in all - parts[n] ensures InSome(parts[..n], x) { NotInLast(parts, x, n); }
  }

  lemma {:induction false} NothingTiled(rs: seq<FlatRecord>, ats: seq<nat>, parts: seq<set<nat>>, all: set<nat>)
    requires Tiles([], rs, ats, parts, all)
    ensures all == {}
  {}

  /** However records are grouped, no record is lost or counted twice. */
  lemma {:induction false} CountsAddUp(groups: seq<Group>, rs: seq<FlatRecord>, ats: seq<nat>, parts: seq<set<nat>>,
                                       all: set<nat>)
    requires Tiles(groups, rs, ats, parts, all)
    ensures SumCounts(groups) == |all|
    decreases |groups|
  {
    hide Describes, InSome;
    if groups == [] {
      NothingTiled(rs, ats, parts, all);
    } else {
      var n := |groups| - 1;
      LastCount(groups[n], rs, ats[n], parts[n]);
      TilesButLast(groups, rs, ats, parts, all, n);
      CountsAddUp(groups[..n], rs, ats[..n], parts[..n], all - parts[n]);
      assert all == (all - parts[n]) + parts[n];
    }
  }

  lemma {:induction false} LastCount(g: Group, rs: seq<FlatRecord>, at: nat, part: set<nat>)
    requires Describes(g, rs, at, part)
    ensures g.count == |part|
  {}

  /** The positions in `all` with this key. */
  ghost function Class<K>(keys: seq<K>, key: K, all: set<nat>): set<nat> {
    set i | i in all && i < |keys| && keys[i] == key
  }

  lemma {:induction false} ClassGrows<K>(keys: seq<K>, key: K, all: set<nat>, part: set<nat>)
    requires forall x :: x in part ==> x < |keys|
    ensures (forall x :: x in part ==> keys[x] == key) ==> Class(keys, key, all + part) == Class(keys, key, all) + part
    ensures (forall x :: x in part ==> keys[x] != key) ==> Class(keys, key, all + part) == Class(keys, key, all)
  {}

  /** The key of one of these positions. */
  ghost predicate Known<K>(firsts: seq<nat>, keys: seq<K>, key: K)
    decreases |firsts|
  {
    firsts != [] &&
    var n := |firsts| - 1;
    (firsts[n] < |keys| && keys[firsts[n]] == key) || Known(firsts[..n], keys, key)
  }

  lemma {:induction false} KnownMore<K>(firsts: seq<nat>, keys: seq<K>, key: K, at: nat)
    requires at < |keys|
    ensures Known(firsts + [at], keys, key) <==> Known(firsts, keys, key) || key == keys[at]
  {
    assert (firsts + [at])[..|firsts|] == firsts;
  }

  lemma {:induction false} KnownAt<K>(firsts: seq<nat>, keys: seq<K>, key: K) returns (j: nat)
    requires Known(firsts, keys, key)
    ensures j < |firsts| && firsts[j] < |keys| && keys[firsts[j]] == key
    decreases |firsts|
  {
    j := |firsts| - 1;
    if !(firsts[j] < |keys| && keys[firsts[j]] == key) { j := KnownAt(firsts[..j], keys, key); }
  }

  lemma {:induction false} KnownHere<K>(firsts: seq<nat>, keys: seq<K>, j: nat)
    requires j < |firsts| && firsts[j] < |keys|
    ensures Known(firsts, keys, keys[firsts[j]])
    decreases |firsts|
  {
    if j + 1 < |firsts| { KnownHere(firsts[..|firsts| - 1], keys, j); }
  }

  /** The first position of every key in `all`, in order. */
  ghost predicate Heads<K>(firsts: seq<nat>, keys: seq<K>, all: set<nat>) {
    && (forall x :: x in all ==> x < |keys|) && (forall j :: 0 <= j < |firsts| ==> firsts[j] in all)
    && (forall i, j :: 0 <= i < j < |firsts| ==> firsts[i] < firsts[j] && keys[firsts[i]] != keys[firsts[j]])
    && (forall x :: x in all ==> Known(firsts, keys, keys[x]))
  }

  ghost predicate Described<K>(groups: seq<Group>, rs: seq<FlatRecord>, firsts: seq<nat>, keys: seq<K>, all: set<nat>)
    requires |groups| == |firsts| && forall j :: 0 <= j < |firsts| ==> firsts[j] < |keys|
  {
    forall j :: 0 <= j < |groups| ==> Describes(groups[j], rs, firsts[j], Class(keys, keys[firsts[j]], all))
  }

  /** One group per key, in the order in which the keys first appear. */
  ghost predicate PartitionBy<K>(groups: seq<Group>, rs: seq<FlatRecord>, firsts: seq<nat>, keys: seq<K>,
                                 all: set<nat>)
  {
    |groups| == |firsts| && Heads(firsts, keys, all) && Described(groups, rs, firsts, keys, all)
  }

  ghost function Classes<K>(keys: seq<K>, firsts: seq<nat>, all: set<nat>): seq<set<nat>>
    requires forall j :: 0 <= j < |firsts| ==> firsts[j] < |keys|
  {
    seq(|firsts|, j requires 0 <= j < |firsts| => Class(keys, keys[firsts[j]], all))
  }

  lemma {:induction false} ClassesTile<K>(firsts: seq<nat>, keys: seq<K>, all: set<nat>)
    requires Heads(firsts, keys, all)
    ensures forall x :: x in all ==> InSome(Classes(keys, firsts, all), x)
    ensures forall i, j :: 0 <= i < j < |firsts| ==> Classes(keys, firsts, all)[i] !! Classes(keys, firsts, all)[j]
  {
    hide Known;
    var parts := Classes(keys, firsts, all);
    forall x | x in all ensures InSome(parts, x) {
      var j := KnownAt(firsts, keys, keys[x]);
      assert x in parts[j];
    }
  }

  lemma {:induction false} PartitionTiles<K>(groups: seq<Group>, rs: seq<FlatRecord>, firsts: seq<nat>, keys: seq<K>,
                                             all: set<nat>)
    requires PartitionBy(groups, rs, firsts, keys, all)
    ensures Tiles(groups, rs, firsts, Classes(keys, firsts, all), all)
  {
    hide Describes, Heads;
    HeadsBound(firsts, keys, all);
    ClassesTile(firsts, keys, all);
  }

  lemma {:induction false} HeadsBound<K>(firsts: seq<nat>, keys: seq<K>, all: set<nat>)
    requires Heads(firsts, keys, all)
    ensures forall j :: 0 <= j < |firsts| ==> firsts[j] < |keys|
  {}

  lemma {:induction false} JoinHeads<K>(firsts: seq<nat>, keys: seq<K>, all: set<nat>, part: set<nat>, j: nat)
    requires Heads(firsts, keys, all) && j < |firsts|
    requires forall x :: x in part ==> x < |keys| && keys[x] == keys[firsts[j]]
    ensures Heads(firsts, keys, all + part)
  {
    hide Known;
    assert firsts[j] in all;
  }

  lemma {:induction false} OpenHeads<K>(firsts: seq<nat>, keys: seq<K>, all: set<nat>, part: set<nat>, at: nat)
    requires Heads(firsts, keys, all) && at in part && at < |keys| && forall j :: 0 <= j < |firsts| ==> firsts[j] < at
    requires forall x :: x in part ==> x < |keys| && keys[x] == keys[at]
    requires !Known(firsts, keys, keys[at])
    ensures Heads(firsts + [at], keys, all + part) && Class(keys, keys[at], all) == {}
    ensures forall j :: 0 <= j < |firsts| ==> firsts[j] < |keys| && keys[firsts[j]] != keys[at]
  {
    var heads := firsts + [at];
    forall j | 0 <= j < |firsts| ensures keys[firsts[j]] != keys[at] && heads[j] == firsts[j] {
      KnownHere(firsts, keys, j);
    }
    hide Known;
    forall x | x in all + part ensures Known(heads, keys, keys[x]) { KnownMore(firsts, keys, keys[x], at); }
  }

  /** A part whose key is known joins the group of that key. */
  lemma {:induction false} JoinPartition<K>(groups: seq<Group>, rs: seq<FlatRecord>, firsts: seq<nat>, keys: seq<K>,
                                            all: set<nat>, g: Group, at: nat, part: set<nat>, j: nat)
    requires PartitionBy(groups, rs, firsts, keys, all) && j < |groups|
    requires Describes(g, rs, at, part) && part !! all && firsts[j] < at
    requires forall x :: x in part ==> x < |keys| && keys[x] == keys[firsts[j]]
    ensures PartitionBy(groups[j := MergeGroup(groups[j], g)], rs, firsts, keys, all + part)
  {
    hide Describes, Class, MergeGroup, Known;
    JoinHeads(firsts, keys, all, part, j);
    var joined := groups[j := MergeGroup(groups[j], g)];
    forall i | 0 <= i < |groups| ensures Describes(joined[i], rs, firsts[i], Class(keys, keys[firsts[i]], all + part)) {
      ClassGrows(keys, keys[firsts[i]], all, part);
      if i == j {
        ClassInside(keys, keys[firsts[j]], all);
        MergeDescribes(groups[j], g, rs, firsts[j], at, Class(keys, keys[firsts[j]], all), part);
      } else {
        assert keys[firsts[i]] != keys[firsts[j]];
      }
    }
  }

  lemma {:induction false} ClassInside<K>(keys: seq<K>, key: K, all: set<nat>)
    ensures Class(keys, key, all) <= all
  {}

  /** A part with a key of its own becomes the last group. */
  lemma {:induction false} OpenPartition<K>(groups: seq<Group>, rs: seq<FlatRecord>, firsts: seq<nat>, keys: seq<K>,
                                            all: set<nat>, g: Group, at: nat, part: set<nat>)
    requires PartitionBy(groups, rs, firsts, keys, all)
    requires at in part && at < |keys| && Describes(g, rs, at, part) && forall j :: 0 <= j < |firsts| ==> firsts[j] < at
    requires forall x :: x in part ==> x < |keys| && keys[x] == keys[at]
    requires !Known(firsts, keys, keys[at])
    ensures PartitionBy(groups + [g], rs, firsts + [at], keys, all + part)
  {
    hide Describes, Class, Heads, Known;
    HeadsBound(firsts, keys, all);
    OpenHeads(firsts, keys, all, part, at);
    var more, heads := groups + [g], firsts + [at];
    HeadsBound(heads, keys, all + part);
    forall i | 0 <= i < |more| ensures Describes(more[i], rs, heads[i], Class(keys, keys[heads[i]], all + part)) {
      ClassGrows(keys, keys[heads[i]], all, part);
      if i == |groups| {
        assert {} + part == part;
      } else {
        assert heads[i] == firsts[i];
      }
    }
  }

  // ----- a partition is determined by its keys

  ghost predicate Increasing(a: seq<nat>) { forall i, j :: 0 <= i < j < |a| ==> a[i] < a[j] }

  lemma {:induction false} ButLast(a: seq<nat>, n: nat, x: nat)
    requires Increasing(a) && n + 1 == |a|
    ensures x in a[..n] <==> x in a && x != a[n]
  {
    assert a == a[..n] + [a[n]];
  }

  lemma {:induction false} SameLast(a: seq<nat>, b: seq<nat>)
    requires Increasing(a) && Increasing(b) && a != [] && forall x :: x in a <==> x in b
    ensures b != [] && a[|a| - 1] == b[|b| - 1]
  {
    assert a[|a| - 1] in b;
    assert b[|b| - 1] in a;
  }

  lemma {:induction false} NoneIn(a: seq<nat>)
    ensures (forall x :: x !in a) ==> a == []
  {
    assert a != [] ==> a[0] in a;
  }

  lemma {:induction false} SortedSame(a: seq<nat>, b: seq<nat>)
    requires Increasing(a) && Increasing(b) && forall x :: x in a <==> x in b
    ensures a == b
    decreases |a|
  {
    if a == [] {
      NoneIn(b);
    } else {
      SameLast(a, b);
      var m, n := |a| - 1, |b| - 1;
      forall x ensures x in a[..m] <==> x in b[..n] {
        ButLast(a, m, x);
        ButLast(b, n, x);
      }
      SortedSame(a[..m], b[..n]);
      assert a == a[..m] + [a[m]] && b == b[..n] + [b[n]];
    }
  }

  lemma {:induction false} HeadIsShared<K>(groups: seq<Group>, others: seq<Group>, rs: seq<FlatRecord>,
                                           firsts: seq<nat>, heads: seq<nat>, keys: seq<K>, all: set<nat>, j: nat)
    requires PartitionBy(groups, rs, firsts, keys, all) && PartitionBy(others, rs, heads, keys, all) && j < |firsts|
    ensures firsts[j] in heads
  {
    hide Known;
    assert firsts[j] in all;
    var i := KnownAt(heads, keys, keys[firsts[j]]);
    assert heads[i] in Class(keys, keys[firsts[j]], all) && firsts[j] in Class(keys, keys[heads[i]], all);
    assert Describes(groups[j], rs, firsts[j], Class(keys, keys[firsts[j]], all));
    assert Describes(others[i], rs, heads[i], Class(keys, keys[heads[i]], all));
  }

  predicate SameContent(a: Group, b: Group) {
    a.count == b.count && a.representative == b.representative && a.firstSeen == b.firstSeen && a.lastSeen == b.lastSeen
  }

  /** Two partitions by the same keys list the same groups in the same order. */
  lemma {:induction false} PartitionUnique<K>(groups: seq<Group>, others: seq<Group>, rs: seq<FlatRecord>,
                                              firsts: seq<nat>, heads: seq<nat>, keys: seq<K>, all: set<nat>)
    requires PartitionBy(groups, rs, firsts, keys, all) && PartitionBy(others, rs, heads, keys, all)
    ensures firsts == heads && |groups| == |others|
    ensures forall j :: 0 <= j < |groups| ==> SameContent(groups[j], others[j])
  {
    hide Describes, Known;
    forall j | 0 <= j < |firsts| ensures firsts[j] in heads {
      HeadIsShared(groups, others, rs, firsts, heads, keys, all, j);
    }
    forall j | 0 <= j < |heads| ensures heads[j] in firsts {
      HeadIsShared(others, groups, rs, heads, firsts, keys, all, j);
    }
    SortedSame(firsts, heads);
    forall j | 0 <= j < |groups| ensures SameContent(groups[j], others[j]) {
      SameDescription(groups[j], others[j], rs, firsts[j], Class(keys, keys[firsts[j]], all));
    }
  }

  lemma {:induction false} SameDescription(a: Group, b: Group, rs: seq<FlatRecord>, at: nat, part: set<nat>)
    requires Describes(a, rs, at, part) && Describes(b, rs, at, part)
    ensures SameContent(a, b)
  {}

  /** Keys that tell records apart in the same way give the same partition. */
  lemma {:induction false} Rekey<K, L>(groups: seq<Group>, rs: seq<FlatRecord>, firsts: seq<nat>, keys: seq<K>,
                                       other: seq<L>, all: set<nat>)
    requires PartitionBy(groups, rs, firsts, keys, all) && |keys| == |other|
    requires forall x, y :: x in all && y in all ==> (keys[x] == keys[y] <==> other[x] == other[y])
    ensures PartitionBy(groups, rs, firsts, other, all)
  {
    hide Describes, Known;
    forall j | 0 <= j < |firsts| ensures Class(keys, keys[firsts[j]], all) == Class(other, other[firsts[j]], all) {
      assert firsts[j] in all;
    }
    forall x | x in all ensures Known(firsts, other, other[x]) {
      var j := KnownAt(firsts, keys, keys[x]);
      assert firsts[j] in all && other[firsts[j]] == other[x];
      KnownHere(firsts, other, j);
    }
  }
}
