/** Whether equal messages always share a cluster: only at a threshold of zero or below. */
module DrainRepeats {
  import opened Prelude
  import opened DrainTree
  import opened DrainMiner

  /** Equal messages of the run went to the same cluster. */
  predicate RepeatsShare(messages: seq<Tokens>, owner: seq<nat>)
    requires |messages| == |owner|
  {
    forall i, k :: 0 <= i < k < |messages| && messages[i] == messages[k] ==> owner[i] == owner[k]
  }

  /** Equal messages share a cluster on every run, whatever the depth and the other limits. */
  ghost predicate RepeatsAlwaysShare(simTh: real) {
    forall s: Shape, messages: seq<Tokens>, states: seq<Miner>, owner: seq<nat> ::
      s.maxNodeDepth >= 1 && Mines(s, simTh, messages, states, owner) && |messages| == |owner| ==>
        RepeatsShare(messages, owner)
  }

  // ----- at zero or below there is one cluster for each length

  predicate OneEach(clusters: map<nat, Cluster>) {
    forall c, d :: c in clusters && d in clusters && |clusters[c].template| == |clusters[d].template| ==> c == d
  }

  lemma {:induction false} OnePerLength(s: Shape, simTh: real, messages: seq<Tokens>, states: seq<Miner>,
                                        owner: seq<nat>, i: nat)
    requires s.maxNodeDepth >= 1 && Mines(s, simTh, messages, states, owner) && simTh <= 0.0 && i <= |messages|
    ensures OneEach(states[i].clusters)
    ensures forall k :: 0 <= k < i ==> owner[k] in states[i].clusters
                                       && |states[i].clusters[owner[k]].template| == |messages[k]|
  {
    hide Chosen, OpensNew, Place, CreateTemplate;
    if i > 0 {
      var n := i - 1;
      OnePerLength(s, simTh, messages, states, owner, n);
      var a, b, c, m := states[n], states[i], owner[n], messages[n];
      assert Takes(s, simTh, a, m, b, c);
      NewLength(a.clusters, simTh, m);
      IdsBelow(s, simTh, messages, states, owner, n);
      if !OpensNew(a.clusters, simTh, m) { TemplateLength(m, a.clusters[c].template); }
    }
  }

  lemma {:induction false} IdsBelow(s: Shape, simTh: real, messages: seq<Tokens>, states: seq<Miner>, owner: seq<nat>,
                                    i: nat)
    requires s.maxNodeDepth >= 1 && Mines(s, simTh, messages, states, owner) && i <= |messages|
    ensures forall c :: c in states[i].clusters ==> c <= states[i].nextId
  {
    TurnFits(s, simTh, messages, states, owner, i);
  }

  lemma {:induction false} NewLength(clusters: map<nat, Cluster>, simTh: real, m: Tokens)
    requires simTh <= 0.0
    ensures OpensNew(clusters, simTh, m) <==> forall c :: c in clusters ==> |clusters[c].template| != |m|
  {
    hide Similarity;
    forall c | c in clusters ensures Similarity(clusters[c].template, m, true) >= 0.0 {
      SimilarityAtLeastZero(clusters[c].template, m, true);
    }
  }

  lemma {:induction false} ZeroShares(s: Shape, simTh: real, messages: seq<Tokens>, states: seq<Miner>,
                                      owner: seq<nat>)
    requires s.maxNodeDepth >= 1 && Mines(s, simTh, messages, states, owner) && simTh <= 0.0
    ensures |messages| == |owner| && RepeatsShare(messages, owner)
  {
    OnePerLength(s, simTh, messages, states, owner, |messages|);
  }

  // ----- a flat tree: all clusters of one length in one leaf

  const FLAT := Shape(100, 1, true)

  function Leaf(n: nat, ids: seq<nat>): map<nat, Node> { map[n := Node(map[], ids)] }

  lemma {:induction false} FlatLookup(m: Tokens, ids: seq<nat>)
    ensures LeafOf(FLAT, Leaf(|m|, ids), m) == Some(Node(map[], ids))
    ensures forall id :: Lists(Leaf(|m|, ids)[|m|], id) <==> id in ids
  {}

  lemma {:induction false} FlatFirst(m: Tokens)
    ensures Place(FLAT, map[], m, 1, {}) == Some(Leaf(|m|, [1]))
  {
    if m != [] { assert PathOf(FLAT, m) == [] && Retain([], {}) + [1] == [1]; }
    assert map[][|m| := Node(map[], [1])] == Leaf(|m|, [1]);
  }

  lemma {:induction false} FlatSecond(m: Tokens)
    requires m != []
    ensures Place(FLAT, Leaf(|m|, [1]), m, 2, {1}) == Some(Leaf(|m|, [1, 2]))
  {
    assert PathOf(FLAT, m) == [];
    assert [1][1..] == [];
    assert Retain([1], {1}) == [1] + Retain([1][1..], {1});
    assert Retain([1], {1}) + [2] == [1, 2];
    assert Leaf(|m|, [1])[|m| := Node(map[], [1, 2])] == Leaf(|m|, [1, 2]);
  }

  /** The first message opens cluster one. */
  lemma {:induction false} OpensFirst(simTh: real, m: Tokens)
    ensures Takes(FLAT, simTh, NEW_MINER, m, Miner(Leaf(|m|, [1]), map[1 := Cluster(m, 1)], 1), 1)
  {
    hide Place;
    FlatFirst(m);
    assert NEW_MINER.clusters.Keys == {} && NEW_MINER.clusters[1 := Cluster(m, 1)] == map[1 := Cluster(m, 1)];
  }

  /** A message that is not similar enough opens cluster two. */
  lemma {:induction false} OpensSecond(simTh: real, c: Cluster, m: Tokens)
    requires m != [] && |c.template| == |m| && Similarity(c.template, m, true) < simTh
    ensures Takes(FLAT, simTh, Miner(Leaf(|m|, [1]), map[1 := c], 1), m,
                  Miner(Leaf(|m|, [1, 2]), map[1 := c, 2 := Cluster(m, 1)], 2), 2)
  {
    hide Place, Similarity, Leaf;
    FlatSecond(m);
    assert map[1 := c].Keys == {1} && map[1 := c][2 := Cluster(m, 1)] == map[1 := c, 2 := Cluster(m, 1)];
  }

  /** Two clusters of the message's length in one leaf, by similarity without and with wildcards. */
  lemma {:induction false} JoinsByTree(simTh: real, a: Cluster, b: Cluster, m: Tokens, r: nat)
    requires m != [] && |a.template| == |b.template| == |m| && (r == 1 || r == 2)
    requires var t, u := if r == 1 then a.template else b.template, if r == 1 then b.template else a.template;
             var x, y := Similarity(t, m, false), Similarity(u, m, false);
             && x >= simTh
             && (y < x || (y == x && Parameters(u, m) == Parameters(t, m) && r == 1))
    ensures var clusters := map[1 := a, 2 := b];
            Takes(FLAT, simTh, Miner(Leaf(|m|, [1, 2]), clusters, 2), m,
                  Miner(Leaf(|m|, [1, 2]), clusters[r := Absorbing(clusters[r], m)], 2), r)
  {
    hide Similarity, Parameters, Leaf, LeafOf, Lists;
    var clusters := map[1 := a, 2 := b];
    FlatLookup(m, [1, 2]);
    SimilarityFits(clusters[r].template, m);
    MatchIsNotNew(clusters, simTh, m, r);
    assert Leads(clusters, [1, 2], m, false, r - 1);
    assert [1, 2][r - 1] == r;
  }

  lemma {:induction false} JoinsBySize(simTh: real, a: Cluster, b: Cluster, m: Tokens, r: nat)
    requires m != [] && |a.template| == |b.template| == |m| && (r == 1 || r == 2)
    requires Similarity(a.template, m, false) < simTh && Similarity(b.template, m, false) < simTh
    requires var t, u := if r == 1 then a.template else b.template, if r == 1 then b.template else a.template;
             && Similarity(t, m, true) >= simTh
             && (Similarity(u, m, true) < Similarity(t, m, true)
                 || (Similarity(u, m, true) == Similarity(t, m, true) && Parameters(u, m) < Parameters(t, m)))
    ensures var clusters := map[1 := a, 2 := b];
            Takes(FLAT, simTh, Miner(Leaf(|m|, [1, 2]), clusters, 2), m,
                  Miner(Leaf(|m|, [1, 2]), clusters[r := Absorbing(clusters[r], m)], 2), r)
  {
    hide Similarity, Parameters, Leaf, LeafOf, Lists;
    var clusters := map[1 := a, 2 := b];
    FlatLookup(m, [1, 2]);
    MatchIsNotNew(clusters, simTh, m, r);
    assert Leads(clusters, [1, 2], m, true, r - 1);
    assert [1, 2][r - 1] == r;
    assert IsBest(clusters, simTh, [1, 2], m, false, None);
    SmallRoot(|m|);
    var all, root := [1, 2], Leaf(|m|, [1, 2]);
    assert (forall id :: id in all <==> |m| in root && Lists(root[|m|], id))
           && IsBest(clusters, simTh, all, m, true, Some(r));
  }

  lemma {:induction false} SmallRoot(n: nat)
    ensures n in Leaf(n, [1, 2])
  {}

  lemma {:induction false} JoinsOnly(simTh: real, a: Cluster, m: Tokens)
    requires m != [] && |a.template| == |m|
    requires Similarity(a.template, m, false) < simTh <= Similarity(a.template, m, true)
    ensures Takes(FLAT, simTh, Miner(Leaf(|m|, [1]), map[1 := a], 1), m,
                  Miner(Leaf(|m|, [1]), map[1 := Absorbing(a, m)], 1), 1)
  {
    hide Similarity, Parameters, Leaf, LeafOf, Lists;
    var clusters := map[1 := a];
    FlatLookup(m, [1]);
    MatchIsNotNew(clusters, simTh, m, 1);
    assert Leads(clusters, [1], m, true, 0);
    assert IsBest(clusters, simTh, [1], m, false, None);
    OnlyRoot(|m|);
    var all, root := [1], Leaf(|m|, [1]);
    assert (forall id :: id in all <==> |m| in root && Lists(root[|m|], id))
           && IsBest(clusters, simTh, all, m, true, Some(1));
    assert clusters[1 := Absorbing(a, m)] == map[1 := Absorbing(a, m)];
  }

  lemma {:induction false} OnlyRoot(n: nat)
    ensures n in Leaf(n, [1])
  {}

  // ----- between zero and one

  /** `n` equal tokens, with other ones at the first two positions. */
  function Line(n: nat, first: string, second: string): (r: Tokens)
    requires n >= 2
    ensures |r| == n && r[0] == first && r[1] == second && forall k :: 2 <= k < n ==> r[k] == "a"
  {
    [first, second] + seq(n - 2, _ => "a")
  }

  function Same(a: string, b: string): nat { if a != WILDCARD && a == b then 1 else 0 }

  function Wild(a: string): nat { if a == WILDCARD then 1 else 0 }

  /** Such lines agree on all but the first two positions, and there as far as their tokens do. */
  lemma {:induction false} LineCounts(n: nat, a: string, b: string, x: string, y: string, k: nat)
    requires 2 <= k <= n
    ensures Shared(Line(n, a, b), Line(n, x, y), k) == k - 2 + Same(a, x) + Same(b, y)
    ensures Wildcards(Line(n, a, b), k) == Wild(a) + Wild(b)
  {
    hide Line, Shared, Wildcards;
    var t, m := Line(n, a, b), Line(n, x, y);
    CountStep(t, m, k);
    if k == 2 {
      CountStep(t, m, 1);
      CountNone(t, m);
    } else {
      LineCounts(n, a, b, x, y, k - 1);
    }
  }

  lemma {:induction false} CountStep(t: Tokens, m: Tokens, k: nat)
    requires 0 < k <= |t| == |m|
    ensures Shared(t, m, k) == Shared(t, m, k - 1) + Same(t[k - 1], m[k - 1])
    ensures Wildcards(t, k) == Wildcards(t, k - 1) + Wild(t[k - 1])
  {}

  lemma {:induction false} CountNone(t: Tokens, m: Tokens)
    requires |t| == |m|
    ensures Shared(t, m, 0) == 0 && Wildcards(t, 0) == 0
  {}

  lemma {:induction false} LineSimilarity(n: nat, a: string, b: string, x: string, y: string, countWildcards: bool)
    requires n >= 2
    ensures var t, m := Line(n, a, b), Line(n, x, y);
            && Similarity(t, m, countWildcards) * n as real
               == (n - 2 + Same(a, x) + Same(b, y) + if countWildcards then Wild(a) + Wild(b) else 0) as real
            && Parameters(t, m) == Wild(a) + Wild(b)
  {
    hide Line, Shared, Wildcards;
    LineCounts(n, a, b, x, y, n);
    Quotient(n - 2 + Same(a, x) + Same(b, y) + (if countWildcards then Wild(a) + Wild(b) else 0), n);
  }

  lemma {:induction false} LineTemplate(n: nat, a: string, b: string, x: string, y: string)
    requires n >= 2
    ensures CreateTemplate(Line(n, x, y), Line(n, a, b))
         == Line(n, if x == a then a else WILDCARD, if y == b then b else WILDCARD)
  {
    var t := CreateTemplate(Line(n, x, y), Line(n, a, b));
    assert |t| == n;
  }

  /** A length at which one mismatch is similar enough and two are not. */
  lemma {:induction false} LengthFor(simTh: real) returns (n: nat)
    requires 0.0 < simTh < 1.0
    ensures n >= 2 && (n - 2) as real < simTh * n as real <= (n - 1) as real
  {
    var d := 1.0 - simTh;
    var q := 1.0 / d;
    assert q * d == 1.0 && q > 1.0;
    var f := q.Floor;
    n := if f as real == q then f else f + 1;
    assert n >= 2;
    assert q <= n as real < q + 1.0;
    assert 1.0 <= n as real * d by { Scales(q, n as real, d); }
    assert n as real * d < 1.0 + d by { Scales(n as real, q + 1.0, d); assert (q + 1.0) * d == q * d + d; }
    assert simTh * n as real == n as real - n as real * d;
  }

  lemma {:induction false} Scales(a: real, b: real, d: real)
    requires a <= b && d > 0.0
    ensures a * d <= b * d && (a < b ==> a * d < b * d)
  {}

  /** Comparing quotients by `n` is comparing what is divided. */
  lemma {:induction false} Compares(n: nat, simTh: real, sim: real, count: nat)
    requires n > 0 && sim * n as real == count as real
    ensures sim < simTh <==> count as real < simTh * n as real
  {
    if sim < simTh { Scales(sim, simTh, n as real); } else { Scales(simTh, sim, n as real); }
  }

  lemma {:induction false} CompareSims(n: nat, a: real, b: real, i: nat, j: nat)
    requires n > 0 && a * n as real == i as real && b * n as real == j as real
    ensures (a < b <==> i < j) && (a == b <==> i == j)
  {
    Compares(n, b, a, i);
    Compares(n, a, b, j);
  }

  /** The five messages: two that each miss the repeated one by a token, that one, one that makes the first cluster more
      general, and the repeated one again. */
  function Example(n: nat): seq<Tokens>
    requires n >= 2
  {
    [Line(n, "x", "a"), Line(n, "a", "z"), Line(n, "a", "a"), Line(n, "u", "v"), Line(n, "a", "a")]
  }

  lemma {:induction false} FirstTurns(simTh: real, n: nat) returns (b: Miner)
    requires n >= 2 && (n - 2) as real < simTh * n as real <= (n - 1) as real
    ensures b == Miner(Leaf(n, [1, 2]), map[1 := Cluster(Line(n, "x", "a"), 1), 2 := Cluster(Line(n, "a", "z"), 1)], 2)
    ensures Mines(FLAT, simTh, Example(n)[..2],
                  [NEW_MINER, Miner(Leaf(n, [1]), map[1 := Cluster(Line(n, "x", "a"), 1)], 1), b], [1, 2])
  {
    hide Similarity, Line, Takes, Leaf;
    var x, z := Line(n, "x", "a"), Line(n, "a", "z");
    var a := Miner(Leaf(n, [1]), map[1 := Cluster(x, 1)], 1);
    b := Miner(Leaf(n, [1, 2]), map[1 := Cluster(x, 1), 2 := Cluster(z, 1)], 2);
    OpensFirst(simTh, x);
    LineSimilarity(n, "x", "a", "a", "z", true);
    Compares(n, simTh, Similarity(x, z, true), n - 2);
    OpensSecond(simTh, Cluster(x, 1), z);
    assert Example(n)[..2] == [x, z];
  }

  /** The repeated message goes to the first cluster. */
  lemma {:induction false} ThirdTurn(simTh: real, n: nat)
    requires n >= 2 && (n - 2) as real < simTh * n as real <= (n - 1) as real
    ensures var x, z := Cluster(Line(n, "x", "a"), 1), Cluster(Line(n, "a", "z"), 1);
            Takes(FLAT, simTh, Miner(Leaf(n, [1, 2]), map[1 := x, 2 := z], 2), Line(n, "a", "a"),
                  Miner(Leaf(n, [1, 2]), map[1 := Cluster(Line(n, WILDCARD, "a"), 2), 2 := z], 2), 1)
  {
    hide Similarity, Parameters, Line, Takes, CreateTemplate;
    var x, z, m := Line(n, "x", "a"), Line(n, "a", "z"), Line(n, "a", "a");
    LineSimilarity(n, "x", "a", "a", "a", false);
    LineSimilarity(n, "a", "z", "a", "a", false);
    Compares(n, simTh, Similarity(x, m, false), n - 1);
    CompareSims(n, Similarity(x, m, false), Similarity(z, m, false), n - 1, n - 1);
    JoinsByTree(simTh, Cluster(x, 1), Cluster(z, 1), m, 1);
    LineTemplate(n, "x", "a", "a", "a");
    var clusters := map[1 := Cluster(x, 1), 2 := Cluster(z, 1)];
    assert clusters[1 := Absorbing(Cluster(x, 1), m)]
        == map[1 := Cluster(Line(n, WILDCARD, "a"), 2), 2 := Cluster(z, 1)];
  }

  /** The first cluster takes one more message and has two wildcards. */
  lemma {:induction false} FourthTurn(simTh: real, n: nat)
    requires n >= 2 && (n - 2) as real < simTh * n as real <= (n - 1) as real
    ensures var x, z := Cluster(Line(n, WILDCARD, "a"), 2), Cluster(Line(n, "a", "z"), 1);
            Takes(FLAT, simTh, Miner(Leaf(n, [1, 2]), map[1 := x, 2 := z], 2), Line(n, "u", "v"),
                  Miner(Leaf(n, [1, 2]), map[1 := Cluster(Line(n, WILDCARD, WILDCARD), 3), 2 := z], 2), 1)
  {
    hide Similarity, Parameters, Line, Takes, CreateTemplate;
    var x, z, m := Line(n, WILDCARD, "a"), Line(n, "a", "z"), Line(n, "u", "v");
    LineSimilarity(n, WILDCARD, "a", "u", "v", false);
    LineSimilarity(n, WILDCARD, "a", "u", "v", true);
    LineSimilarity(n, "a", "z", "u", "v", false);
    LineSimilarity(n, "a", "z", "u", "v", true);
    Compares(n, simTh, Similarity(x, m, false), n - 2);
    Compares(n, simTh, Similarity(z, m, false), n - 2);
    Compares(n, simTh, Similarity(x, m, true), n - 1);
    CompareSims(n, Similarity(z, m, true), Similarity(x, m, true), n - 2, n - 1);
    JoinsBySize(simTh, Cluster(x, 2), Cluster(z, 1), m, 1);
    LineTemplate(n, WILDCARD, "a", "u", "v");
    var clusters := map[1 := Cluster(x, 2), 2 := Cluster(z, 1)];
    assert clusters[1 := Absorbing(Cluster(x, 2), m)]
        == map[1 := Cluster(Line(n, WILDCARD, WILDCARD), 3), 2 := Cluster(z, 1)];
  }

  /** Now the second cluster is more similar to the repeated message. */
  lemma {:induction false} FifthTurn(simTh: real, n: nat) returns (b: Miner)
    requires n >= 2 && (n - 2) as real < simTh * n as real <= (n - 1) as real
    ensures var x, z := Cluster(Line(n, WILDCARD, WILDCARD), 3), Cluster(Line(n, "a", "z"), 1);
            Takes(FLAT, simTh, Miner(Leaf(n, [1, 2]), map[1 := x, 2 := z], 2), Line(n, "a", "a"), b, 2)
  {
    hide Similarity, Parameters, Line, Takes;
    var x, z, m := Line(n, WILDCARD, WILDCARD), Line(n, "a", "z"), Line(n, "a", "a");
    LineSimilarity(n, WILDCARD, WILDCARD, "a", "a", false);
    LineSimilarity(n, "a", "z", "a", "a", false);
    Compares(n, simTh, Similarity(z, m, false), n - 1);
    CompareSims(n, Similarity(x, m, false), Similarity(z, m, false), n - 2, n - 1);
    JoinsByTree(simTh, Cluster(x, 3), Cluster(z, 1), m, 2);
    var clusters := map[1 := Cluster(x, 3), 2 := Cluster(z, 1)];
    b := Miner(Leaf(|m|, [1, 2]), clusters[2 := Absorbing(clusters[2], m)], 2);
  }

  /** Strictly between zero and one there is a run that puts equal messages in different clusters. */
  lemma {:induction false} RepeatsPart(simTh: real)
    requires 0.0 < simTh < 1.0
    ensures !RepeatsAlwaysShare(simTh)
  {
    hide Takes, Line, Leaf, Mines;
    var n := LengthFor(simTh);
    var ms := Example(n);
    var s2 := FirstTurns(simTh, n);
    var z := Cluster(Line(n, "a", "z"), 1);
    var s1 := Miner(Leaf(n, [1]), map[1 := Cluster(Line(n, "x", "a"), 1)], 1);
    var s3 := Miner(Leaf(n, [1, 2]), map[1 := Cluster(Line(n, WILDCARD, "a"), 2), 2 := z], 2);
    var s4 := Miner(Leaf(n, [1, 2]), map[1 := Cluster(Line(n, WILDCARD, WILDCARD), 3), 2 := z], 2);
    ThirdTurn(simTh, n);
    FourthTurn(simTh, n);
    var s5 := FifthTurn(simTh, n);
    MinesMore(FLAT, simTh, ms[..2], [NEW_MINER, s1, s2], [1, 2], ms[2], s3, 1);
    assert ms[..2] + [ms[2]] == ms[..3];
    MinesMore(FLAT, simTh, ms[..3], [NEW_MINER, s1, s2] + [s3], [1, 2] + [1], ms[3], s4, 1);
    assert ms[..3] + [ms[3]] == ms[..4];
    MinesMore(FLAT, simTh, ms[..4], [NEW_MINER, s1, s2] + [s3] + [s4], [1, 2] + [1] + [1], ms[4], s5, 2);
    assert ms[..4] + [ms[4]] == ms;
    Apart(simTh, ms, [NEW_MINER, s1, s2] + [s3] + [s4] + [s5], [1, 2] + [1] + [1] + [2], 2, 4);
  }

  /** A run that parts equal messages. */
  lemma {:induction false} Apart(simTh: real, messages: seq<Tokens>, states: seq<Miner>, owner: seq<nat>, i: nat,
                                 k: nat)
    requires Mines(FLAT, simTh, messages, states, owner) && |messages| == |owner|
    requires i < k < |messages| && messages[i] == messages[k] && owner[i] != owner[k]
    ensures !RepeatsAlwaysShare(simTh)
  {
    hide Mines;
    assert !RepeatsShare(messages, owner);
  }

  // ----- at one and above

  /** At one, a message that fits a template with one wildcard goes elsewhere once there is one with two. */
  lemma {:induction false} OneParts()
    ensures !RepeatsAlwaysShare(1.0)
  {
    hide Takes, Line, Leaf, Mines, Similarity, Parameters, CreateTemplate;
    var x, m, w := Line(2, WILDCARD, "b"), Line(2, "a", "b"), Line(2, WILDCARD, WILDCARD);
    var ms := [x, m, w, m];
    LineSimilarity(2, WILDCARD, "b", "a", "b", false);
    LineSimilarity(2, WILDCARD, "b", "a", "b", true);
    LineSimilarity(2, WILDCARD, "b", WILDCARD, WILDCARD, true);
    LineSimilarity(2, WILDCARD, WILDCARD, "a", "b", false);
    LineSimilarity(2, WILDCARD, WILDCARD, "a", "b", true);
    LineTemplate(2, WILDCARD, "b", "a", "b");
    var s1 := Miner(Leaf(2, [1]), map[1 := Cluster(x, 1)], 1);
    var s2 := Miner(Leaf(2, [1]), map[1 := Cluster(x, 2)], 1);
    var s3 := Miner(Leaf(2, [1, 2]), map[1 := Cluster(x, 2), 2 := Cluster(w, 1)], 2);
    var clusters := map[1 := Cluster(x, 2), 2 := Cluster(w, 1)];
    var s4 := Miner(Leaf(2, [1, 2]), clusters[2 := Absorbing(clusters[2], m)], 2);
    OpensFirst(1.0, x);
    JoinsOnly(1.0, Cluster(x, 1), m);
    OpensSecond(1.0, Cluster(x, 2), w);
    JoinsBySize(1.0, Cluster(x, 2), Cluster(w, 1), m, 2);
    FourTurns(ms, [NEW_MINER, s1, s2, s3, s4], [1, 1, 2, 2]);
    Apart(1.0, ms, [NEW_MINER, s1, s2, s3, s4], [1, 1, 2, 2], 1, 3);
  }

  lemma {:induction false} FourTurns(ms: seq<Tokens>, states: seq<Miner>, owner: seq<nat>)
    requires |ms| == 4 && |states| == 5 && |owner| == 4 && states[0] == NEW_MINER
    requires Takes(FLAT, 1.0, states[0], ms[0], states[1], owner[0])
    requires Takes(FLAT, 1.0, states[1], ms[1], states[2], owner[1])
    requires Takes(FLAT, 1.0, states[2], ms[2], states[3], owner[2])
    requires Takes(FLAT, 1.0, states[3], ms[3], states[4], owner[3])
    ensures Mines(FLAT, 1.0, ms, states, owner)
  {
    hide Takes;
  }

  /** Above one every message with a token opens a cluster of its own. */
  lemma {:induction false} AboveOneParts(simTh: real)
    requires simTh > 1.0
    ensures !RepeatsAlwaysShare(simTh)
  {
    hide Takes, Leaf, Similarity;
    var m := ["a"];
    var s1 := Miner(Leaf(1, [1]), map[1 := Cluster(m, 1)], 1);
    var s2 := Miner(Leaf(1, [1, 2]), map[1 := Cluster(m, 1), 2 := Cluster(m, 1)], 2);
    OpensFirst(simTh, m);
    SimilarityFits(m, m);
    OpensSecond(simTh, Cluster(m, 1), m);
    assert Mines(FLAT, simTh, [m, m], [NEW_MINER, s1, s2], [1, 2]);
    Apart(simTh, [m, m], [NEW_MINER, s1, s2], [1, 2], 0, 1);
  }

  /** Equal messages share a cluster on every run if and only if the threshold is zero or below. */
  lemma {:induction false} RepeatExactness(simTh: real)
    ensures RepeatsAlwaysShare(simTh) <==> simTh <= 0.0
  {
    hide Mines, RepeatsShare;
    if simTh <= 0.0 {
      forall s: Shape, messages: seq<Tokens>, states: seq<Miner>, owner: seq<nat>
        | s.maxNodeDepth >= 1 && Mines(s, simTh, messages, states, owner) && |messages| == |owner|
        ensures RepeatsShare(messages, owner)
      {
        ZeroShares(s, simTh, messages, states, owner);
      }
    } else if simTh < 1.0 {
      RepeatsPart(simTh);
    } else if simTh == 1.0 {
      OneParts();
    } else {
      AboveOneParts(simTh);
    }
  }
}
