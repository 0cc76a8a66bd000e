/** Drain template mining: which cluster a message joins and what the templates mean. */
module DrainMiner {
  import opened Prelude
  import opened DrainTree

  datatype Cluster = Cluster(template: Tokens, size: int)

  // ----- similarity

  /** Concrete template tokens among the first `n` that the message repeats. */
  function Shared(t: Tokens, m: Tokens, n: nat): (r: nat)
    requires n <= |t| == |m|
  {
    if n == 0 then 0 else Shared(t, m, n - 1) + if t[n - 1] != WILDCARD && t[n - 1] == m[n - 1] then 1 else 0
  }

  /** Wildcards among the first `n` template tokens. */
  function Wildcards(t: Tokens, n: nat): (r: nat)
    requires n <= |t|
  {
    if n == 0 then 0 else Wildcards(t, n - 1) + if t[n - 1] == WILDCARD then 1 else 0
  }

  function Similarity(t: Tokens, m: Tokens, countWildcards: bool): real {
    if |t| != |m| then 0.0
    else if t == [] then 1.0
    else (Shared(t, m, |t|) + if countWildcards then Wildcards(t, |t|) else 0) as real / |t| as real
  }

  function Parameters(t: Tokens, m: Tokens): nat { if |t| != |m| then 0 else Wildcards(t, |t|) }

  method SeqDistance(t: Tokens, m: Tokens, countWildcards: bool) returns (sim: real, parameters: nat)
    ensures sim == Similarity(t, m, countWildcards) && parameters == Parameters(t, m)
  {
    if |t| != |m| { return 0.0, 0; }
    if t == [] { return 1.0, 0; }
    var same := 0;
    parameters := 0;
    for i := 0 to |t|
      invariant same == Shared(t, m, i) && parameters == Wildcards(t, i)
    {
      if t[i] == WILDCARD {
        parameters := parameters + 1;
      } else if t[i] == m[i] {
        same := same + 1;
      }
    }
    if countWildcards { same := same + parameters; }
    sim := same as real / |t| as real;
  }

  /** The message is an instance of the template. */
  predicate Fits(t: Tokens, m: Tokens) {
    |t| == |m| && forall k :: 0 <= k < |t| ==> t[k] == WILDCARD || t[k] == m[k]
  }

  lemma {:induction false} CountFits(t: Tokens, m: Tokens, n: nat)
    requires n <= |t| == |m|
    ensures Shared(t, m, n) + Wildcards(t, n) <= n
    ensures Shared(t, m, n) + Wildcards(t, n) == n <==> forall k :: 0 <= k < n ==> t[k] == WILDCARD || t[k] == m[k]
  {
    if n > 0 { CountFits(t, m, n - 1); }
  }

  lemma {:induction false} Ratio(a: nat, b: nat, n: nat)
    requires a <= b && n > 0
    ensures a as real / n as real <= b as real / n as real
    ensures (b as real / n as real == 1.0) == (b == n) && (b <= n ==> b as real / n as real <= 1.0)
  {}

  /** Counting wildcards, similarity is never above one, and one means exactly that the message fits. */
  lemma {:induction false} SimilarityFits(t: Tokens, m: Tokens)
    requires |t| == |m|
    ensures 0.0 <= Similarity(t, m, false) <= Similarity(t, m, true) <= 1.0
    ensures Similarity(t, m, true) == 1.0 <==> Fits(t, m)
  {
    if t != [] {
      CountFits(t, m, |t|);
      Ratio(Shared(t, m, |t|), Shared(t, m, |t|) + Wildcards(t, |t|), |t|);
    }
  }

  /** The positions where a concrete template token is repeated by the message. */
  ghost function Agreeing(t: Tokens, m: Tokens): set<nat> {
    set k: nat | k < |t| && k < |m| && t[k] != WILDCARD && t[k] == m[k]
  }

  ghost function WildcardsOf(t: Tokens): set<nat> { set k: nat | k < |t| && t[k] == WILDCARD }

  lemma {:induction false} SharedCounts(t: Tokens, m: Tokens, n: nat)
    requires n <= |t| == |m|
    ensures Shared(t, m, n) == |Agreeing(t[..n], m[..n])| && Wildcards(t, n) == |WildcardsOf(t[..n])|
  {
    if n == 0 {
      assert Agreeing(t[..0], m[..0]) == {} && WildcardsOf(t[..0]) == {};
    } else {
      hide Agreeing, WildcardsOf;
      SharedCounts(t, m, n - 1);
      OneMorePosition(t, m, n - 1);
      OneMoreWildcard(t, n - 1);
    }
  }

  lemma {:induction false} OneMorePosition(t: Tokens, m: Tokens, n: nat)
    requires n < |t| == |m|
    ensures |Agreeing(t[..n + 1], m[..n + 1])|
         == |Agreeing(t[..n], m[..n])| + (if t[n] != WILDCARD && t[n] == m[n] then 1 else 0)
  {
    hide WILDCARD;
    var before := Agreeing(t[..n], m[..n]);
    assert Agreeing(t[..n + 1], m[..n + 1]) == if t[n] != WILDCARD && t[n] == m[n] then before + {n} else before;
  }

  lemma {:induction false} OneMoreWildcard(t: Tokens, n: nat)
    requires n < |t|
    ensures |WildcardsOf(t[..n + 1])| == |WildcardsOf(t[..n])| + (if t[n] == WILDCARD then 1 else 0)
  {
    hide WILDCARD;
    var before := WildcardsOf(t[..n]);
    assert WildcardsOf(t[..n + 1]) == if t[n] == WILDCARD then before + {n} else before;
  }

  lemma {:induction false} Quotient(a: nat, n: nat)
    requires n > 0
    ensures a as real / n as real * n as real == a as real
  {}

  /** Similarity is the share of positions where template and message agree, plus the wildcards when they count. */
  lemma {:induction false} SimilarityCounts(t: Tokens, m: Tokens, countWildcards: bool)
    requires |t| == |m|
    ensures t == [] ==> Similarity(t, m, countWildcards) == 1.0
    ensures Similarity(t, m, countWildcards) * |t| as real
         == (|Agreeing(t, m)| + if countWildcards then |WildcardsOf(t)| else 0) as real
    ensures Parameters(t, m) == |WildcardsOf(t)|
  {
    hide Agreeing, WildcardsOf;
    SharedCounts(t, m, |t|);
    assert t[..|t|] == t && m[..|t|] == m;
    if t == [] {
      assert Agreeing(t, m) == {} && WildcardsOf(t) == {} by { NothingCounts(t, m); }
    } else {
      Quotient(Shared(t, m, |t|) + (if countWildcards then Wildcards(t, |t|) else 0), |t|);
    }
  }

  lemma {:induction false} NothingCounts(t: Tokens, m: Tokens)
    requires t == []
    ensures Agreeing(t, m) == {} && WildcardsOf(t) == {}
  {}

  // ----- templates

  function CreateTemplate(m: Tokens, t: Tokens): Tokens {
    seq(Min(|m|, |t|), i requires 0 <= i < Min(|m|, |t|) => if m[i] == t[i] then t[i] else WILDCARD)
  }

  predicate AgreeAt(ms: seq<Tokens>, k: nat)
    requires ms != [] && forall m :: m in ms ==> k < |m|
  {
    forall m :: m in ms ==> m[k] == ms[0][k]
  }

  /** The most specific template of these messages: a token where they all agree, a wildcard everywhere else. */
  predicate Generalises(t: Tokens, ms: seq<Tokens>) {
    && ms != []
    && (forall m :: m in ms ==> |m| == |t|)
    && forall k :: 0 <= k < |t| ==> t[k] == if AgreeAt(ms, k) then ms[0][k] else WILDCARD
  }

  lemma {:induction false} GeneralisesFits(t: Tokens, ms: seq<Tokens>, m: Tokens)
    requires Generalises(t, ms) && m in ms
    ensures Fits(t, m)
  {}

  lemma {:induction false} AbsorbGeneralises(t: Tokens, ms: seq<Tokens>, m: Tokens)
    requires Generalises(t, ms) && |m| == |t|
    ensures Generalises(CreateTemplate(m, t), ms + [m])
  {
    var more := ms + [m];
    assert more[0] == ms[0] && m in more;
    forall k | 0 <= k < |t| ensures AgreeAt(more, k) <==> AgreeAt(ms, k) && m[k] == ms[0][k] {
      assert forall x :: x in more <==> x in ms || x == m;
    }
  }

  lemma {:induction false} OneMessage(m: Tokens)
    ensures Generalises(m, [m])
  {}

  // ----- the miner

  /** Clusters are numbered from one; each has learned exactly the messages it absorbed. */
  ghost predicate Learned(clusters: map<nat, Cluster>, nextId: nat, absorbed: map<nat, seq<Tokens>>) {
    && nextId >= 0 && clusters.Keys == absorbed.Keys == IdsUpTo(nextId)
    && forall id :: id in clusters ==>
        clusters[id].size == |absorbed[id]| && Generalises(clusters[id].template, absorbed[id])
  }

  /** Every cluster is held where its first message leads. */
  ghost predicate Filed(s: Shape, root: map<nat, Node>, absorbed: map<nat, seq<Tokens>>)
    requires s.maxNodeDepth >= 1
  {
    forall id :: id in absorbed ==>
      absorbed[id] != [] && |absorbed[id][0]| in root
          && Held(s, root[|absorbed[id][0]|], PathOf(s, absorbed[id][0]), id)
  }

  /** The tree lists nothing but clusters, each under its token count. */
  ghost predicate Listed(root: map<nat, Node>, clusters: map<nat, Cluster>) {
    forall n, id :: n in root && Lists(root[n], id) ==> id in clusters && |clusters[id].template| == n
  }

  /** No cluster of the message's length is similar enough, wildcards counted. */
  predicate OpensNew(clusters: map<nat, Cluster>, simTh: real, m: Tokens) {
    forall id :: id in clusters && |clusters[id].template| == |m| ==>
        m != [] && Similarity(clusters[id].template, m, true) < simTh
  }

  /** A message that fits a template opens a new cluster exactly when the threshold is above one and it has a token. */
  lemma {:induction false} FittingNeverOpens(clusters: map<nat, Cluster>, simTh: real, m: Tokens, id: nat)
    requires id in clusters && Fits(clusters[id].template, m)
    ensures OpensNew(clusters, simTh, m) <==> simTh > 1.0 && m != []
  {
    hide Similarity;
    forall x | x in clusters && |clusters[x].template| == |m|
      ensures Similarity(clusters[x].template, m, true) <= 1.0
    {
      SimilarityFits(clusters[x].template, m);
    }
    SimilarityFits(clusters[id].template, m);
  }

  /** A candidate that beats every other one, or none when all are below the threshold; earlier candidates win ties. */
  ghost predicate IsBest(clusters: map<nat, Cluster>, simTh: real, candidates: seq<nat>, m: Tokens,
                         countWildcards: bool, r: Option<nat>) {
    match r
    case None =>
      forall id :: id in candidates && id in clusters ==> Similarity(clusters[id].template, m, countWildcards) < simTh
    case Some(c) =>
      exists i :: 0 <= i < |candidates| && candidates[i] == c && Leads(clusters, candidates, m, countWildcards, i)
                  && Similarity(clusters[c].template, m, countWildcards) >= simTh
  }

  /** More similar than every candidate before it and at least as similar as every later one; wildcards break ties. */
  ghost predicate Leads(clusters: map<nat, Cluster>, candidates: seq<nat>, m: Tokens, countWildcards: bool, i: nat)
    requires i < |candidates|
  {
    && candidates[i] in clusters
    && forall j :: 0 <= j < |candidates| && candidates[j] in clusters ==>
         var a, b := clusters[candidates[i]].template, clusters[candidates[j]].template;
         var x, y := Similarity(a, m, countWildcards), Similarity(b, m, countWildcards);
         y < x || (y == x && (Parameters(b, m) < Parameters(a, m) || (Parameters(b, m) == Parameters(a, m) && i <= j)))
  }

  /** The leaf a message leads to. */
  function LeafOf(s: Shape, root: map<nat, Node>, m: Tokens): Option<Node>
    requires s.maxNodeDepth >= 1
  {
    if |m| in root then Walk(root[|m|], PathOf(s, m)) else None
  }

  /** The answer of the tree: the best cluster at the message's leaf, wildcards not counted; the empty message takes the
      first cluster there. */
  ghost predicate ByTree(s: Shape, root: map<nat, Node>, clusters: map<nat, Cluster>, simTh: real, m: Tokens,
                         r: Option<nat>)
    requires s.maxNodeDepth >= 1
  {
    match LeafOf(s, root, m)
    case None => r == None
    case Some(leaf) =>
      if m == [] then r == (if leaf.ids == [] then None else Some(leaf.ids[0]))
      else IsBest(clusters, simTh, leaf.ids, m, false, r)
  }

  /** The best of all clusters of the message's length, wildcards counted, in some order. */
  ghost predicate BySize(root: map<nat, Node>, clusters: map<nat, Cluster>, simTh: real, m: Tokens, r: Option<nat>) {
    exists all: seq<nat> ::
      (forall id :: id in all <==> |m| in root && Lists(root[|m|], id)) && IsBest(clusters, simTh, all, m, true, r)
  }

  /** The tree's answer, or failing that the best cluster of the message's length. */
  ghost predicate Chosen(s: Shape, root: map<nat, Node>, clusters: map<nat, Cluster>, simTh: real, m: Tokens,
                         r: Option<nat>)
    requires s.maxNodeDepth >= 1
  {
    if ByTree(s, root, clusters, simTh, m, None) then BySize(root, clusters, simTh, m, r)
    else ByTree(s, root, clusters, simTh, m, r)
  }

  // ----- runs of the miner

  datatype Miner = Miner(root: map<nat, Node>, clusters: map<nat, Cluster>, nextId: nat)

  const NEW_MINER := Miner(map[], map[], 0)

  /** The miner takes one message into cluster `c`: a new cluster exactly when no other is similar enough, else the one
      chosen, whose template becomes more general. */
  ghost predicate Takes(s: Shape, simTh: real, a: Miner, m: Tokens, b: Miner, c: nat)
    requires s.maxNodeDepth >= 1
  {
    if OpensNew(a.clusters, simTh, m) then
      && c == a.nextId + 1 && Place(s, a.root, m, c, a.clusters.Keys) == Some(b.root)
      && b.clusters == a.clusters[c := Cluster(m, 1)] && b.nextId == c
    else
      && c in a.clusters && |a.clusters[c].template| == |m| && Chosen(s, a.root, a.clusters, simTh, m, Some(c))
      && b == a.(clusters := a.clusters[c := Absorbing(a.clusters[c], m)])
  }

  /** A new miner takes these messages in order: the states it goes through, and the cluster each message goes to. */
  ghost predicate Mines(s: Shape, simTh: real, messages: seq<Tokens>, states: seq<Miner>, owner: seq<nat>)
    requires s.maxNodeDepth >= 1
  {
    && |states| == |messages| + 1 && |owner| == |messages| && states[0] == NEW_MINER
    && forall i :: 0 <= i < |messages| ==> Takes(s, simTh, states[i], messages[i], states[i + 1], owner[i])
  }

  lemma {:induction false} MinesLengths(s: Shape, simTh: real, messages: seq<Tokens>, states: seq<Miner>,
                                        owner: seq<nat>)
    requires s.maxNodeDepth >= 1 && Mines(s, simTh, messages, states, owner)
    ensures |states| == |messages| + 1 && |owner| == |messages|
  {}

  lemma {:induction false} MinesNothing(s: Shape, simTh: real)
    requires s.maxNodeDepth >= 1
    ensures Mines(s, simTh, [], [NEW_MINER], [])
  {}

  lemma {:induction false} MinesMore(s: Shape, simTh: real, messages: seq<Tokens>, states: seq<Miner>, owner: seq<nat>,
                                     m: Tokens, b: Miner, c: nat)
    requires s.maxNodeDepth >= 1 && Mines(s, simTh, messages, states, owner)
    requires Takes(s, simTh, states[|messages|], m, b, c)
    ensures Mines(s, simTh, messages + [m], states + [b], owner + [c])
  {
    hide Takes;
    var ms, ss, os := messages + [m], states + [b], owner + [c];
    forall i | 0 <= i < |ms| ensures Takes(s, simTh, ss[i], ms[i], ss[i + 1], os[i]) {
      if i < |messages| { assert ss[i] == states[i] && ss[i + 1] == states[i + 1]; }
    }
  }

  /** A new miner opens its first cluster for whatever message comes first. */
  lemma {:induction false} MinesOne(s: Shape, simTh: real, m: Tokens) returns (b: Miner)
    requires s.maxNodeDepth >= 1 && s.maxChildren >= 1
    ensures Mines(s, simTh, [m], [NEW_MINER, b], [1])
  {
    hide Place, RootBounded;
    NothingBounded(s);
    PlaceSucceeds(s, map[], m, 1, {});
    b := Miner(Place(s, map[], m, 1, {}).value, map[1 := Cluster(m, 1)], 1);
    assert OpensNew(map[], simTh, m);
    assert NEW_MINER.clusters[1 := Cluster(m, 1)] == b.clusters && NEW_MINER.clusters.Keys == {};
  }

  lemma {:induction false} NothingBounded(s: Shape)
    ensures RootBounded(s, map[])
  {}

  lemma {:induction false} FitsKept(t: Tokens, m: Tokens, taken: Tokens)
    requires Fits(t, m) && |taken| == |t|
    ensures Fits(CreateTemplate(taken, t), m) && Fits(CreateTemplate(taken, t), taken)
  {}

  /** At every turn the clusters are those of the earlier messages, and every earlier message fits its cluster's
      template. */
  lemma {:induction false} TurnFits(s: Shape, simTh: real, messages: seq<Tokens>, states: seq<Miner>, owner: seq<nat>,
                                    i: nat)
    requires s.maxNodeDepth >= 1 && Mines(s, simTh, messages, states, owner) && i <= |messages|
    ensures forall c :: c in states[i].clusters <==> c in owner[..i]
    ensures forall k :: 0 <= k < i ==> owner[k] in states[i].clusters
                                       && Fits(states[i].clusters[owner[k]].template, messages[k])
    ensures forall c :: c in states[i].clusters ==> c <= states[i].nextId
  {
    hide Takes, Fits;
    if i > 0 {
      var n := i - 1;
      TurnFits(s, simTh, messages, states, owner, n);
      var a, b, c, m := states[n], states[i], owner[n], messages[n];
      TakesKeys(s, simTh, a, m, b, c);
      assert owner[..i] == owner[..n] + [c];
      forall k | 0 <= k < i ensures owner[k] in b.clusters && Fits(b.clusters[owner[k]].template, messages[k]) {
        if k < n { TakesFits(s, simTh, a, m, b, c, owner[k], messages[k]); }
      }
    }
  }

  lemma {:induction false} TakesKeys(s: Shape, simTh: real, a: Miner, m: Tokens, b: Miner, c: nat)
    requires s.maxNodeDepth >= 1 && Takes(s, simTh, a, m, b, c)
    requires forall x :: x in a.clusters ==> x <= a.nextId
    ensures forall x :: x in b.clusters <==> x in a.clusters || x == c
    ensures forall x :: x in b.clusters ==> x <= b.nextId
    ensures Fits(b.clusters[c].template, m)
  {
    hide Chosen, OpensNew, Place, Fits, CreateTemplate;
    FitsItself(m);
    if !OpensNew(a.clusters, simTh, m) { JoinFits(a.clusters[c].template, m); }
  }

  /** A message that fitted its cluster's template still does after another was taken. */
  lemma {:induction false} TakesFits(s: Shape, simTh: real, a: Miner, m: Tokens, b: Miner, c: nat, x: nat,
                                     earlier: Tokens)
    requires s.maxNodeDepth >= 1 && Takes(s, simTh, a, m, b, c)
    requires (forall y :: y in a.clusters ==> y <= a.nextId) && x in a.clusters && Fits(a.clusters[x].template, earlier)
    ensures x in b.clusters && Fits(b.clusters[x].template, earlier)
  {
    hide Chosen, OpensNew, Place, Fits, CreateTemplate;
    if x == c { FitsKept(a.clusters[c].template, earlier, m); }
  }

  lemma {:induction false} FitsItself(m: Tokens)
    ensures Fits(m, m)
  {}

  lemma {:induction false} JoinFits(t: Tokens, m: Tokens)
    requires |t| == |m|
    ensures Fits(CreateTemplate(m, t), m)
  {}

  /** Up to threshold one, a message that is left alone fitted no template when its turn came. */
  lemma {:induction false} AloneFitsNothing(s: Shape, simTh: real, messages: seq<Tokens>, states: seq<Miner>,
                                            owner: seq<nat>, k: nat, c: nat)
    requires s.maxNodeDepth >= 1 && Mines(s, simTh, messages, states, owner) && simTh <= 1.0
    requires k < |messages| && forall i :: 0 <= i < |owner| && i != k ==> owner[i] != owner[k]
    requires c in states[k].clusters
    ensures !Fits(states[k].clusters[c].template, messages[k])
  {
    hide Chosen, OpensNew, Place, Fits;
    TurnFits(s, simTh, messages, states, owner, k);
    assert Takes(s, simTh, states[k], messages[k], states[k + 1], owner[k]);
    assert owner[k] !in owner[..k];
    if Fits(states[k].clusters[c].template, messages[k]) {
      FittingNeverOpens(states[k].clusters, simTh, messages[k], c);
    }
  }

  /** Up to threshold one, a repeated message never opens a cluster: it joins one that holds an earlier message. */
  lemma {:induction false} RepeatJoins(s: Shape, simTh: real, messages: seq<Tokens>, states: seq<Miner>,
                                       owner: seq<nat>, i: nat, k: nat)
    requires s.maxNodeDepth >= 1 && Mines(s, simTh, messages, states, owner) && simTh <= 1.0
    requires i < k < |messages| && messages[i] == messages[k]
    ensures owner[k] in owner[..k]
  {
    hide Chosen, OpensNew, Place, Fits;
    TurnFits(s, simTh, messages, states, owner, k);
    assert Takes(s, simTh, states[k], messages[k], states[k + 1], owner[k]);
    FittingNeverOpens(states[k].clusters, simTh, messages[k], owner[i]);
  }

  /** The ids of a whole subtree; the order in which children are visited is arbitrary. */
  method CollectIds(node: Node) returns (ids: seq<nat>)
    ensures forall id :: id in ids <==> Lists(node, id)
    decreases node
  {
    ids := node.ids;
    var left := node.children.Keys;
    while left != {}
      invariant left <= node.children.Keys
      invariant forall id ::
                  id in ids <==>
                  id in node.ids || exists k :: k in node.children && k !in left && Lists(node.children[k], id)
      decreases left
    {
      var k :| k in left;
      var below := CollectIds(node.children[k]);
      ids := ids + below;
      left := left - {k};
    }
  }

  /** Only clusters of the message's own length are listed where the message is looked up. */
  lemma {:induction false} FoundHasLength(s: Shape, root: map<nat, Node>, clusters: map<nat, Cluster>, m: Tokens,
                                          id: nat)
    requires s.maxNodeDepth >= 1 && Listed(root, clusters) && |m| in root
    requires Walk(root[|m|], PathOf(s, m)).Some? && id in Walk(root[|m|], PathOf(s, m)).value.ids
    ensures id in clusters && |clusters[id].template| == |m|
  {
    hide PathOf, Lists, Walk;
    FoundIsListed(root[|m|], PathOf(s, m), id);
  }

  /** Every cluster is listed under its own length. */
  lemma {:induction false} ClusterIsListed(s: Shape, root: map<nat, Node>, clusters: map<nat, Cluster>, nextId: nat,
                                           absorbed: map<nat, seq<Tokens>>, id: nat)
    requires s.maxNodeDepth >= 1 && Learned(clusters, nextId, absorbed) && Filed(s, root, absorbed) && id in clusters
    ensures |clusters[id].template| in root && Lists(root[|clusters[id].template|], id)
    ensures clusters[id].template == [] ==> id in root[0].ids
  {
    hide Held, Walk, Lists;
    var first := absorbed[id][0];
    assert first in absorbed[id] && |first| == |clusters[id].template|;
    HeldIsFound(s, root[|first|], PathOf(s, first), id);
    FoundIsListed(root[|first|], PathOf(s, first), id);
    if first == [] { EmptyWalk(root[0]); }
  }

  lemma {:induction false} EmptyWalk(node: Node)
    ensures Walk(node, []) == Some(node)
  {}

  lemma {:induction false} PathLength(s: Shape, a: Tokens, b: Tokens)
    requires s.maxNodeDepth >= 1 && |a| == |b|
    ensures |PathOf(s, a)| == |PathOf(s, b)|
  {}

  /** Filing a new cluster leaves every earlier one where its first message leads. */
  lemma {:induction false} PlaceFiles(s: Shape, root: map<nat, Node>, absorbed: map<nat, seq<Tokens>>, m: Tokens,
                                      id: nat)
    requires s.maxNodeDepth >= 1 && Filed(s, root, absorbed) && id !in absorbed
    requires m == [] ==> 0 !in root || root[0].ids == []
    requires Place(s, root, m, id, absorbed.Keys).Some?
    ensures Filed(s, Place(s, root, m, id, absorbed.Keys).value, absorbed[id := [m]])
  {
    hide Held, Insert, PathOf;
    var after := Place(s, root, m, id, absorbed.Keys).value;
    var first := if |m| in root then root[|m|] else EMPTY_NODE;
    if m == [] { HeldAtEnd(s, after[0], id); } else { InsertHolds(s, first, PathOf(s, m), id, absorbed.Keys); }
    forall x | x in absorbed
      ensures |absorbed[x][0]| in after && Held(s, after[|absorbed[x][0]|], PathOf(s, absorbed[x][0]), x)
    {
      var earlier := absorbed[x][0];
      if m == [] {
        if earlier == [] { HeldAtEnd(s, root[0], x); }
      } else if |earlier| == |m| {
        PathLength(s, m, earlier);
        InsertKeepsHeld(s, first, PathOf(s, m), id, absorbed.Keys, PathOf(s, earlier), x);
      }
    }
    assert [m][0] == m;
  }

  lemma {:induction false} HeldAtEnd(s: Shape, node: Node, id: nat)
    requires s.maxNodeDepth >= 1
    ensures Held(s, node, PathOf(s, []), id) <==> id in node.ids
  {}

  lemma {:induction false} PlaceLists(s: Shape, root: map<nat, Node>, clusters: map<nat, Cluster>, m: Tokens, id: nat,
                                      c: Cluster)
    requires s.maxNodeDepth >= 1 && Listed(root, clusters) && id !in clusters && c.template == m
    requires Place(s, root, m, id, clusters.Keys).Some?
    ensures Listed(Place(s, root, m, id, clusters.Keys).value, clusters[id := c])
  {
    hide Insert, PathOf;
    var after := Place(s, root, m, id, clusters.Keys).value;
    var first := if |m| in root then root[|m|] else EMPTY_NODE;
    forall x | Lists(after[|m|], x) && x != id ensures x in clusters && |clusters[x].template| == |m| {
      if m == [] { assert after[0].children == first.children; } else {
        InsertLists(s, first, PathOf(s, m), id, clusters.Keys, x);
      }
      assert Lists(first, x);
      assert !Lists(EMPTY_NODE, x);
    }
  }

  class Drain {
    const shape: Shape
    const simTh: real
    var root: map<nat, Node>
    var clusters: map<nat, Cluster>
    var nextId: nat
    /** The messages each cluster took, first to last. */
    ghost var absorbed: map<nat, seq<Tokens>>

    ghost predicate Valid()
      reads this
    {
      && shape.maxNodeDepth >= 1
      && Learned(clusters, nextId, absorbed) && Filed(shape, root, absorbed) && Listed(root, clusters)
      && (shape.maxChildren >= 1 ==> RootBounded(shape, root))
    }

    ghost function State(): Miner
      reads this
    {
      Miner(root, clusters, nextId)
    }

    constructor (depth: int, simTh: real, maxChildren: int, numericToWildcard: bool)
      ensures Valid() && clusters == map[] && absorbed == map[] && nextId == 0 && State() == NEW_MINER
      ensures this.simTh == simTh && shape == Shape(maxChildren, Max(depth, 3) - 2, numericToWildcard)
    {
      shape := Shape(maxChildren, Max(depth, 3) - 2, numericToWildcard);
      this.simTh := simTh;
      root, clusters, nextId, absorbed := map[], map[], 0, map[];
    }

    method FastMatch(candidates: seq<nat>, m: Tokens, countWildcards: bool) returns (r: Option<nat>)
      ensures IsBest(clusters, simTh, candidates, m, countWildcards, r)
    {
      hide Similarity, Parameters;
      var bestSim: real, bestParameters: int := -1.0, -1;
      r := None;
      ghost var at := 0;
      for i := 0 to |candidates|
        invariant r.None? ==> bestSim == -1.0 && bestParameters == -1
        invariant r.None? ==> forall j :: 0 <= j < i ==> candidates[j] !in clusters
        invariant r.Some? ==>
                    at < i && candidates[at] == r.value && Leads(clusters, candidates[..i], m, countWildcards, at)
        invariant r.Some? ==> bestSim == Similarity(clusters[r.value].template, m, countWildcards)
                              && bestParameters == Parameters(clusters[r.value].template, m)
      {
        var id := candidates[i];
        assert candidates[..i + 1] == candidates[..i] + [id];
        if id !in clusters { continue; }
        var sim, parameters := SeqDistance(clusters[id].template, m, countWildcards);
        SimilarityAtLeastZero(clusters[id].template, m, countWildcards);
        if sim > bestSim || (sim == bestSim && parameters > bestParameters) {
          bestSim, bestParameters, r, at := sim, parameters, Some(id), i;
        }
      }
      assert candidates[..|candidates|] == candidates;
      if bestSim < simTh { r := None; }
    }

    method TreeSearch(m: Tokens) returns (r: Option<nat>)
      requires Valid()
      ensures r.Some? ==> r.value in clusters && |clusters[r.value].template| == |m|
      ensures r.Some? && m != [] ==> Similarity(clusters[r.value].template, m, false) >= simTh
      ensures r.None? && m == [] ==> 0 !in root || root[0].ids == []
      ensures ByTree(shape, root, clusters, simTh, m, r)
      ensures r.Some? ==> !ByTree(shape, root, clusters, simTh, m, None)
    {
      hide Similarity, Held, Lists, Learned, Filed;
      if |m| !in root { return None; }
      var current := root[|m|];
      if m == [] {
        if current.ids == [] { return None; }
        EmptyWalk(current);
        FoundHasLength(shape, root, clusters, m, current.ids[0]);
        return Some(current.ids[0]);
      }
      ghost var path := PathOf(shape, m);
      for i := 0 to |m|
        invariant i <= |path| && Walk(root[|m|], path) == Walk(current, path[i..])
      {
        if i + 1 >= shape.maxNodeDepth || i + 1 >= |m| { break; }
        assert path[i..][0] == m[i] && path[i..][1..] == path[i + 1..];
        if m[i] in current.children {
          current := current.children[m[i]];
        } else if WILDCARD in current.children {
          current := current.children[WILDCARD];
        } else {
          return None;
        }
      }
      assert path[|path|..] == [] && Walk(root[|m|], path) == Some(current);
      r := FastMatch(current.ids, m, false);
      if r.Some? { FoundHasLength(shape, root, clusters, m, r.value); }
    }

    /** Looks in the tree, then among all clusters of the message's length. */
    method Lookup(m: Tokens) returns (r: Option<nat>)
      requires Valid()
      ensures r.None? <==> OpensNew(clusters, simTh, m)
      ensures r.Some? ==> r.value in clusters && |clusters[r.value].template| == |m|
      ensures r.None? && m == [] ==> 0 !in root || root[0].ids == []
      ensures Chosen(shape, root, clusters, simTh, m, r)
    {
      hide Similarity, Held, Lists, Learned, Filed, Walk, ByTree;
      r := TreeSearch(m);
      if r.Some? {
        SimilarityFits(clusters[r.value].template, m);
        MatchIsNotNew(clusters, simTh, m, r.value);
        return;
      }
      forall id | id in clusters ensures |clusters[id].template| in root && Lists(root[|clusters[id].template|], id)
        && (clusters[id].template == [] ==> id in root[0].ids)
      {
        ClusterIsListed(shape, root, clusters, nextId, absorbed, id);
      }
      var all: seq<nat> := [];
      if |m| in root { all := CollectIds(root[|m|]); }
      r := FastMatch(all, m, true);
      assert (forall id :: id in all <==> |m| in root && Lists(root[|m|], id))
             && IsBest(clusters, simTh, all, m, true, r);
    }

    /** Feeds one message: the cluster it joined and whether the cluster is new; none where the source panics. */
    method AddLogMessage(m: Tokens) returns (r: Option<(nat, bool)>)
      requires Valid()
      modifies this
      ensures r.None? ==> shape.maxChildren < 1 && shape.maxNodeDepth > 1
      ensures r.Some? ==> Valid() && r.value.1 == OpensNew(old(clusters), simTh, m)
      ensures r.Some? ==> Chosen(shape, old(root), old(clusters), simTh, m, if r.value.1 then None else Some(r.value.0))
      ensures r.Some? ==> Takes(shape, simTh, old(State()), m, State(), r.value.0)
      ensures r.Some? && r.value.1 ==>
                r.value.0 == old(nextId) + 1 == nextId && absorbed == old(absorbed)[nextId := [m]]
      ensures r.Some? && !r.value.1 ==> nextId == old(nextId) && r.value.0 in old(absorbed)
                                        && absorbed == old(absorbed)[r.value.0 := old(absorbed)[r.value.0] + [m]]
    {
      hide Learned, Filed, Listed, RootBounded, OpensNew, Place, Absorbing, Chosen;
      var matched := Lookup(m);
      if matched.Some? {
        var id := matched.value;
        AbsorbKeeps(shape, root, clusters, nextId, absorbed, m, id);
        clusters := clusters[id := Absorbing(clusters[id], m)];
        absorbed := absorbed[id := absorbed[id] + [m]];
        return Some((id, false));
      }
      var id := nextId + 1;
      var placed := Place(shape, root, m, id, clusters.Keys);
      PlaceSucceeds(shape, root, m, id, clusters.Keys);
      if placed.None? { return None; }
      OpenKeeps(shape, root, clusters, nextId, absorbed, m, placed.value);
      nextId := id;
      root := placed.value;
      clusters := clusters[id := Cluster(m, 1)];
      absorbed := absorbed[id := [m]];
      r := Some((id, true));
    }
  }

  function Absorbing(c: Cluster, m: Tokens): Cluster { Cluster(CreateTemplate(m, c.template), c.size + 1) }

  lemma {:induction false} AbsorbLearns(clusters: map<nat, Cluster>, nextId: nat, absorbed: map<nat, seq<Tokens>>,
                                        m: Tokens, id: nat)
    requires Learned(clusters, nextId, absorbed) && id in clusters && |clusters[id].template| == |m|
    ensures id in absorbed
    ensures Learned(clusters[id := Absorbing(clusters[id], m)], nextId, absorbed[id := absorbed[id] + [m]])
  {
    hide Generalises, CreateTemplate;
    AbsorbGeneralises(clusters[id].template, absorbed[id], m);
    assert absorbed[id := absorbed[id] + [m]].Keys == absorbed.Keys;
    assert clusters[id := Absorbing(clusters[id], m)].Keys == clusters.Keys;
  }

  lemma {:induction false} AbsorbFiles(s: Shape, root: map<nat, Node>, absorbed: map<nat, seq<Tokens>>, m: Tokens,
                                       id: nat)
    requires s.maxNodeDepth >= 1 && Filed(s, root, absorbed) && id in absorbed
    ensures Filed(s, root, absorbed[id := absorbed[id] + [m]])
  {
    hide Held, PathOf;
    assert absorbed[id] != [] && (absorbed[id] + [m])[0] == absorbed[id][0];
  }

  lemma {:induction false} AbsorbLists(root: map<nat, Node>, clusters: map<nat, Cluster>, m: Tokens, id: nat)
    requires Listed(root, clusters) && id in clusters && |clusters[id].template| == |m|
    ensures Listed(root, clusters[id := Absorbing(clusters[id], m)])
  {
    hide Lists, CreateTemplate;
    TemplateLength(m, clusters[id].template);
  }

  lemma {:induction false} AbsorbKeeps(s: Shape, root: map<nat, Node>, clusters: map<nat, Cluster>, nextId: nat,
                                       absorbed: map<nat, seq<Tokens>>, m: Tokens, id: nat)
    requires s.maxNodeDepth >= 1 && Learned(clusters, nextId, absorbed) && Filed(s, root, absorbed)
             && Listed(root, clusters)
    requires id in clusters && |clusters[id].template| == |m|
    ensures id in absorbed
    ensures Learned(clusters[id := Absorbing(clusters[id], m)], nextId, absorbed[id := absorbed[id] + [m]])
    ensures Filed(s, root, absorbed[id := absorbed[id] + [m]])
    ensures Listed(root, clusters[id := Absorbing(clusters[id], m)])
  {
    hide *;
    AbsorbLearns(clusters, nextId, absorbed, m, id);
    AbsorbFiles(s, root, absorbed, m, id);
    AbsorbLists(root, clusters, m, id);
  }

  lemma {:induction false} OpenKeeps(s: Shape, root: map<nat, Node>, clusters: map<nat, Cluster>, nextId: nat,
                                     absorbed: map<nat, seq<Tokens>>, m: Tokens, after: map<nat, Node>)
    requires s.maxNodeDepth >= 1 && Learned(clusters, nextId, absorbed) && Filed(s, root, absorbed)
             && Listed(root, clusters)
    requires m == [] ==> 0 !in root || root[0].ids == []
    requires Place(s, root, m, nextId + 1, clusters.Keys) == Some(after)
    ensures Learned(clusters[nextId + 1 := Cluster(m, 1)], nextId + 1, absorbed[nextId + 1 := [m]])
    ensures Filed(s, after, absorbed[nextId + 1 := [m]])
    ensures Listed(after, clusters[nextId + 1 := Cluster(m, 1)])
  {
    hide Filed, Listed, Generalises, Place;
    OneMessage(m);
    PlaceFiles(s, root, absorbed, m, nextId + 1);
    PlaceLists(s, root, clusters, m, nextId + 1, Cluster(m, 1));
  }

  lemma {:induction false} MatchIsNotNew(clusters: map<nat, Cluster>, simTh: real, m: Tokens, id: nat)
    requires id in clusters && |clusters[id].template| == |m|
    requires m == [] || Similarity(clusters[id].template, m, true) >= simTh
    ensures !OpensNew(clusters, simTh, m)
  {}

  lemma {:induction false} TemplateLength(m: Tokens, t: Tokens)
    requires |m| == |t|
    ensures |CreateTemplate(m, t)| == |t|
  {}

  lemma {:induction false} PlaceSucceeds(s: Shape, root: map<nat, Node>, m: Tokens, id: nat, live: set<nat>)
    requires s.maxNodeDepth >= 1 && (s.maxChildren >= 1 ==> RootBounded(s, root))
    ensures s.maxChildren >= 1 ==>
              Place(s, root, m, id, live).Some? && RootBounded(s, Place(s, root, m, id, live).value)
    ensures s.maxNodeDepth == 1 ==> Place(s, root, m, id, live).Some?
  {
    hide Bounded;
    if s.maxChildren >= 1 { PlaceBounded(s, root, m, id, live); }
  }

  lemma {:induction false} SimilarityAtLeastZero(t: Tokens, m: Tokens, countWildcards: bool)
    ensures Similarity(t, m, countWildcards) >= 0.0
  {
    if |t| == |m| { SimilarityFits(t, m); }
  }
}
