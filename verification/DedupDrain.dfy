/** The last stage of deduplication: single records whose canonical bodies share a Drain template are merged. */
module DedupDrain {
  import opened Prelude
  import opened Encoding
  import opened DrainTree
  import opened DrainMiner
  import opened DedupGroups
  import opened DedupStages

  const MAX_CHILDREN := 100

  // ----- putting parts together

  lemma {:induction false} NothingTiles(rs: seq<FlatRecord>)
    ensures Tiles([], rs, [], [], {})
  {}

  lemma {:induction false} InSomeMore(parts: seq<set<nat>>, part: set<nat>, x: nat)
    ensures InSome(parts + [part], x) <==> InSome(parts, x) || x in part
  {
    var more := parts + [part];
    assert more[|parts|] == part;
    if InSome(parts, x) {
      var j :| 0 <= j < |parts| && x in parts[j];
      assert more[j] == parts[j];
    }
  }

  lemma {:induction false} TilesAdd(groups: seq<Group>, rs: seq<FlatRecord>, ats: seq<nat>, parts: seq<set<nat>>,
                                    all: set<nat>, g: Group, at: nat, part: set<nat>)
    requires Tiles(groups, rs, ats, parts, all) && Describes(g, rs, at, part) && part !! all
    ensures Tiles(groups + [g], rs, ats + [at], parts + [part], all + part)
  {
    hide Describes, InSome;
    forall x | x in all + part ensures InSome(parts + [part], x) { InSomeMore(parts, part, x); }
  }

  lemma {:induction false} TilesConcat(a: seq<Group>, rs: seq<FlatRecord>, aAts: seq<nat>, aParts: seq<set<nat>>,
                                       aAll: set<nat>, b: seq<Group>, bAts: seq<nat>, bParts: seq<set<nat>>,
                                       bAll: set<nat>)
    requires Tiles(a, rs, aAts, aParts, aAll) && Tiles(b, rs, bAts, bParts, bAll) && aAll !! bAll
    ensures Tiles(a + b, rs, aAts + bAts, aParts + bParts, aAll + bAll)
    decreases |b|
  {
    hide Describes, InSome;
    if b == [] {
      NothingTiled(rs, bAts, bParts, bAll);
      assert a + b == a && aAts + bAts == aAts && aParts + bParts == aParts && aAll + bAll == aAll;
    } else {
      var n := |b| - 1;
      TilesButLast(b, rs, bAts, bParts, bAll, n);
      TilesConcat(a, rs, aAts, aParts, aAll, b[..n], bAts[..n], bParts[..n], bAll - bParts[n]);
      TilesAdd(a + b[..n], rs, aAts + bAts[..n], aParts + bParts[..n], aAll + (bAll - bParts[n]), b[n], bAts[n],
               bParts[n]);
      assert a + b[..n] + [b[n]] == a + b;
      assert aAts + bAts[..n] + [bAts[n]] == aAts + bAts;
      assert aParts + bParts[..n] + [bParts[n]] == aParts + bParts;
      assert aAll + (bAll - bParts[n]) + bParts[n] == aAll + bAll;
    }
  }

  predicate Within(ix: seq<nat>, n: nat) { forall t :: 0 <= t < |ix| ==> ix[t] < n }

  /** The positions of the parts at these indices. */
  ghost function UnionAt(parts: seq<set<nat>>, ix: seq<nat>): set<nat>
    requires Within(ix, |parts|)
  {
    if ix == [] then {} else UnionAt(parts, ix[..|ix| - 1]) + parts[ix[|ix| - 1]]
  }

  lemma {:induction false} UnionMembers(parts: seq<set<nat>>, ix: seq<nat>, x: nat)
    requires Within(ix, |parts|)
    ensures x in UnionAt(parts, ix) <==> exists t :: 0 <= t < |ix| && x in parts[ix[t]]
    decreases |ix|
  {
    if ix != [] {
      var n := |ix| - 1;
      UnionMembers(parts, ix[..n], x);
      assert ix == ix[..n] + [ix[n]];
    }
  }

  lemma {:induction false} UnionNext(parts: seq<set<nat>>, ix: seq<nat>, t: nat)
    requires t < |ix| && Within(ix, |parts|)
    ensures UnionAt(parts, ix[..t + 1]) == UnionAt(parts, ix[..t]) + parts[ix[t]]
  {
    assert ix[..t + 1][..t] == ix[..t];
  }

  lemma {:induction false} UnionApart(parts: seq<set<nat>>, ix: seq<nat>, t: nat)
    requires t < |ix| && Increasing(ix) && Within(ix, |parts|)
    requires forall i, j :: 0 <= i < j < |parts| ==> parts[i] !! parts[j]
    ensures UnionAt(parts, ix[..t]) !! parts[ix[t]]
  {
    forall x | x in UnionAt(parts, ix[..t]) ensures x !in parts[ix[t]] {
      UnionMembers(parts, ix[..t], x);
      var i :| 0 <= i < t && x in parts[ix[..t][i]];
      assert ix[i] < ix[t];
    }
  }

  // ----- the clusters of a run of the miner

  /** Which messages went to which cluster: `owner` says it message by message, the lists cluster by cluster. */
  ghost predicate Sorted(listed: map<nat, seq<nat>>, owner: seq<nat>) {
    && (forall c :: c in listed ==> listed[c] != [] && ListOf(listed[c], owner, c))
    && (forall k :: 0 <= k < |owner| ==> Placed(listed, owner, k))
  }

  ghost predicate Placed(listed: map<nat, seq<nat>>, owner: seq<nat>, k: nat)
    requires k < |owner|
  {
    owner[k] in listed && k in listed[owner[k]]
  }

  ghost predicate ListOf(ix: seq<nat>, owner: seq<nat>, c: nat) {
    Increasing(ix) && forall t :: 0 <= t < |ix| ==> ix[t] < |owner| && owner[ix[t]] == c
  }

  lemma {:induction false} ListKept(ix: seq<nat>, owner: seq<nat>, c: nat, next: nat)
    requires ListOf(ix, owner, c)
    ensures ListOf(ix, owner + [next], c)
    ensures next == c ==> ListOf(ix + [|owner|], owner + [next], c)
  {}

  lemma {:induction false} PlacedKept(listed: map<nat, seq<nat>>, owner: seq<nat>, c: nat, before: seq<nat>, k: nat)
    requires k < |owner| && Placed(listed, owner, k) && (c in listed ==> before == listed[c])
    ensures Placed(listed[c := before + [|owner|]], owner + [c], k)
  {
    assert (owner + [c])[k] == owner[k];
  }

  lemma {:induction false} PlacedLast(listed: map<nat, seq<nat>>, owner: seq<nat>, c: nat, before: seq<nat>)
    ensures Placed(listed[c := before + [|owner|]], owner + [c], |owner|)
  {
    assert (before + [|owner|])[|before|] == |owner|;
  }

  lemma {:induction false} NoneListed(owner: seq<nat>, c: nat)
    ensures ListOf([], owner, c)
  {}

  lemma {:induction false} ListFacts(listed: map<nat, seq<nat>>, owner: seq<nat>, c: nat)
    requires Sorted(listed, owner) && c in listed
    ensures listed[c] != [] && Increasing(listed[c]) && listed[c][0] < |owner|
  {}

  lemma {:induction false} ListsNext(listed: map<nat, seq<nat>>, owner: seq<nat>, c: nat, before: seq<nat>, d: nat)
    requires Sorted(listed, owner) && before == (if c in listed then listed[c] else []) && (d in listed || d == c)
    ensures var ix := listed[c := before + [|owner|]][d]; ix != [] && ListOf(ix, owner + [c], d)
  {
    hide ListOf, Placed;
    NoneListed(owner, c);
    if d == c { ListKept(before, owner, c, c); } else { ListKept(listed[d], owner, d, c); }
  }

  lemma {:induction false} SortedNext(listed: map<nat, seq<nat>>, owner: seq<nat>, c: nat)
    requires Sorted(listed, owner)
    ensures Sorted(listed[c := (if c in listed then listed[c] else []) + [|owner|]], owner + [c])
  {
    hide ListOf, Placed;
    var before: seq<nat> := if c in listed then listed[c] else [];
    var after, more := listed[c := before + [|owner|]], owner + [c];
    forall d | d in after ensures after[d] != [] && ListOf(after[d], more, d) {
      ListsNext(listed, owner, c, before, d);
    }
    forall k | 0 <= k < |more| ensures Placed(after, more, k) {
      if k < |owner| { PlacedKept(listed, owner, c, before, k); } else { PlacedLast(listed, owner, c, before); }
    }
  }

  function Pick(messages: seq<Tokens>, ix: seq<nat>): (r: seq<Tokens>)
    requires Within(ix, |messages|)
    ensures |r| == |ix| && forall t :: 0 <= t < |ix| ==> r[t] == messages[ix[t]]
  {
    seq(|ix|, t requires 0 <= t < |ix| => messages[ix[t]])
  }

  // ----- the stage

  /** The positions of the groups of one record, in order. */
  function Singles(groups: seq<Group>, ats: seq<nat>): seq<nat>
    requires |groups| == |ats|
  {
    if groups == [] then []
    else
      var n := |groups| - 1;
      Singles(groups[..n], ats[..n]) + (if groups[n].count <= 1 then [ats[n]] else [])
  }

  lemma {:induction false} SinglesNext(groups: seq<Group>, ats: seq<nat>, i: nat)
    requires |groups| == |ats| && i < |groups|
    ensures Singles(groups[..i + 1], ats[..i + 1])
         == Singles(groups[..i], ats[..i]) + (if groups[i].count <= 1 then [ats[i]] else [])
  {
    assert groups[..i + 1][..i] == groups[..i] && ats[..i + 1][..i] == ats[..i];
  }

  /** Multi-record groups stay; single records go to the miner. */
  method Split(groups: seq<Group>, ghost rs: seq<FlatRecord>, ghost ats: seq<nat>, ghost parts: seq<set<nat>>,
               ghost all: set<nat>)
    returns (merged: seq<Group>, ghost mAts: seq<nat>, ghost mParts: seq<set<nat>>, ghost mAll: set<nat>,
             residuals: seq<Group>, ghost rAts: seq<nat>, ghost rParts: seq<set<nat>>, ghost rAll: set<nat>)
    requires Tiles(groups, rs, ats, parts, all) && Increasing(ats)
    ensures Tiles(merged, rs, mAts, mParts, mAll) && Tiles(residuals, rs, rAts, rParts, rAll)
    ensures Increasing(rAts) && mAll !! rAll && mAll + rAll == all
    ensures |groups| == |ats| && rAts == Singles(groups, ats)
    ensures forall g :: g in merged <==> g in groups && g.count > 1
    ensures forall g :: g in residuals <==> g in groups && g.count <= 1
  {
    hide Tiles, Describes, InSome, UnionAt, Singles;
    merged, mAts, mParts, mAll := [], [], [], {};
    residuals, rAts, rParts, rAll := [], [], [], {};
    NothingTiles(rs);
    PrefixStart(groups, rs, ats, parts, all);
    NoSingles(groups, ats);
    for i := 0 to |groups|
      invariant rAts == Singles(groups[..i], ats[..i])
      invariant Tiles(merged, rs, mAts, mParts, mAll) && Tiles(residuals, rs, rAts, rParts, rAll)
      invariant Increasing(rAts) && forall k :: 0 <= k < |rAts| && i < |ats| ==> rAts[k] < ats[i]
      invariant mAll !! rAll && mAll + rAll == UnionAt(parts, Upto(|parts|)[..i])
      invariant forall g :: g in merged <==> g in groups[..i] && g.count > 1
      invariant forall g :: g in residuals <==> g in groups[..i] && g.count <= 1
    {
      var g := groups[i];
      PrefixNext(groups, rs, ats, parts, all, i);
      SinglesNext(groups, ats, i);
      assert groups[..i + 1] == groups[..i] + [g];
      if g.count > 1 {
        TilesAdd(merged, rs, mAts, mParts, mAll, g, ats[i], parts[i]);
        merged, mAts, mParts, mAll := merged + [g], mAts + [ats[i]], mParts + [parts[i]], mAll + parts[i];
      } else {
        TilesAdd(residuals, rs, rAts, rParts, rAll, g, ats[i], parts[i]);
        residuals, rAts, rParts, rAll := residuals + [g], rAts + [ats[i]], rParts + [parts[i]], rAll + parts[i];
      }
    }
    assert groups[..|groups|] == groups && ats[..|groups|] == ats;
  }

  lemma {:induction false} NoSingles(groups: seq<Group>, ats: seq<nat>)
    requires |groups| == |ats|
    ensures Singles(groups[..0], ats[..0]) == []
  {}

  ghost function Upto(n: nat): (r: seq<nat>)
    ensures |r| == n && Within(r, n) && Increasing(r) && forall i :: 0 <= i < n ==> r[i] == i
  {
    seq(n, i requires 0 <= i < n => i)
  }

  lemma {:induction false} PrefixStart(groups: seq<Group>, rs: seq<FlatRecord>, ats: seq<nat>, parts: seq<set<nat>>,
                                       all: set<nat>)
    requires Tiles(groups, rs, ats, parts, all)
    ensures |groups| == |ats| == |parts|
    ensures UnionAt(parts, Upto(|parts|)[..0]) == {} && UnionAt(parts, Upto(|parts|)[..|parts|]) == all
  {
    hide Describes, UnionAt;
    var ix := Upto(|parts|);
    assert ix[..|parts|] == ix;
    UnionOfNone(parts);
    forall x: nat ensures x in UnionAt(parts, ix) <==> x in all {
      UnionMembers(parts, ix, x);
      if x in all {
        var j :| 0 <= j < |parts| && x in parts[j];
        assert ix[j] == j;
      }
    }
  }

  lemma {:induction false} UnionOfNone(parts: seq<set<nat>>)
    ensures UnionAt(parts, []) == {}
  {}

  lemma {:induction false} PrefixNext(groups: seq<Group>, rs: seq<FlatRecord>, ats: seq<nat>, parts: seq<set<nat>>,
                                      all: set<nat>, i: nat)
    requires Tiles(groups, rs, ats, parts, all) && i < |groups|
    ensures |groups| == |ats| == |parts|
    ensures UnionAt(parts, Upto(|parts|)[..i + 1]) == UnionAt(parts, Upto(|parts|)[..i]) + parts[i]
    ensures UnionAt(parts, Upto(|parts|)[..i]) !! parts[i] && Describes(groups[i], rs, ats[i], parts[i])
  {
    hide Describes, InSome, UnionAt;
    var ix := Upto(|parts|);
    UnionNext(parts, ix, i);
    UnionApart(parts, ix, i);
  }

  /** What the miner is fed for a group. */
  function Text(g: Group): string { if g.canonical.Some? then g.canonical.value else g.representative.body }

  function Messages(sg: Signing, groups: seq<Group>): (r: seq<Tokens>)
    ensures |r| == |groups| && forall i :: 0 <= i < |groups| ==> r[i] == sg.tokenise(Text(groups[i]))
  {
    seq(|groups|, i requires 0 <= i < |groups| => sg.tokenise(Text(groups[i])))
  }

  /** The tree deduplication mines with. */
  function ShapeFor(depth: int): (s: Shape)
    ensures s.maxNodeDepth >= 1 && s.maxChildren >= 1
  {
    Shape(MAX_CHILDREN, Max(depth, 3) - 2, true)
  }

  /** Every cluster has taken exactly the messages listed for it. */
  ghost predicate Mined(messages: seq<Tokens>, listed: map<nat, seq<nat>>, owner: seq<nat>,
                        absorbed: map<nat, seq<Tokens>>) {
    && |owner| <= |messages| && Sorted(listed, owner) && listed.Keys == absorbed.Keys
    && forall c :: c in listed ==> Within(listed[c], |messages|) && absorbed[c] == Pick(messages, listed[c])
  }

  lemma {:induction false} MinedNext(messages: seq<Tokens>, listed: map<nat, seq<nat>>, owner: seq<nat>,
                                     absorbed: map<nat, seq<Tokens>>, after: map<nat, seq<Tokens>>, c: nat)
    requires Mined(messages, listed, owner, absorbed) && |owner| < |messages|
    requires after == absorbed[c := (if c in absorbed then absorbed[c] else []) + [messages[|owner|]]]
    ensures Mined(messages, listed[c := (if c in listed then listed[c] else []) + [|owner|]], owner + [c], after)
  {
    hide Sorted;
    SortedNext(listed, owner, c);
    var before: seq<nat> := if c in listed then listed[c] else [];
    assert Within(before, |messages|);
    assert Pick(messages, before + [|owner|]) == Pick(messages, before) + [messages[|owner|]];
  }

  /** Feeds the residuals to a new miner and lists them by cluster. */
  method MineResiduals(sg: Signing, residuals: seq<Group>, depth: int, simTh: real)
    returns (listed: map<nat, seq<nat>>, clusters: map<nat, Cluster>, ghost owner: seq<nat>,
             ghost states: seq<Miner>)
    ensures Sorted(listed, owner) && |owner| == |residuals| && clusters.Keys == listed.Keys
    ensures forall c :: c in listed ==> Within(listed[c], |residuals|)
                                        && Generalises(clusters[c].template, Pick(Messages(sg, residuals), listed[c]))
    ensures Mines(ShapeFor(depth), simTh, Messages(sg, residuals), states, owner)
    ensures clusters == states[|residuals|].clusters
  {
    hide Sorted, Generalises, OpensNew, Filed, Listed, RootBounded, Learned, Mined, Messages, Pick, Within, Mines,
      Takes, Chosen;
    var engine := new Drain(depth, simTh, MAX_CHILDREN, true);
    ghost var messages := Messages(sg, residuals);
    listed, owner, states := map[], [], [NEW_MINER];
    NothingMined(messages);
    MinesNothing(ShapeFor(depth), simTh);
    assert messages[..0] == [];
    for i := 0 to |residuals|
      invariant fresh(engine) && engine.Valid() && engine.shape == ShapeFor(depth) && engine.simTh == simTh
      invariant |owner| == i && Mined(messages, listed, owner, engine.absorbed)
      invariant Mines(ShapeFor(depth), simTh, messages[..i], states, owner)
      invariant |states| == i + 1 && states[i] == engine.State()
    {
      ghost var before, state := engine.absorbed, engine.State();
      NewIdIsUnused(engine.clusters, engine.nextId, before);
      var added := engine.AddLogMessage(sg.tokenise(Text(residuals[i])));
      var c := added.value.0;
      assert [] + [messages[i]] == [messages[i]];
      MinedNext(messages, listed, owner, before, engine.absorbed, c);
      MinesMore(ShapeFor(depth), simTh, messages[..i], states, owner, messages[i], engine.State(), c);
      assert messages[..i + 1] == messages[..i] + [messages[i]];
      states := states + [engine.State()];
      listed := listed[c := (if c in listed then listed[c] else []) + [i]];
      owner := owner + [c];
    }
    clusters := engine.clusters;
    assert messages[..|residuals|] == messages;
    MinedAll(sg, residuals, listed, owner, clusters, engine.nextId, engine.absorbed);
  }

  lemma {:induction false} NothingMined(messages: seq<Tokens>)
    ensures Mined(messages, map[], [], map[])
  {}

  lemma {:induction false} NewIdIsUnused(clusters: map<nat, Cluster>, nextId: nat, absorbed: map<nat, seq<Tokens>>)
    requires Learned(clusters, nextId, absorbed)
    ensures nextId + 1 !in absorbed
  {}

  lemma {:induction false} MinedAll(sg: Signing, residuals: seq<Group>, listed: map<nat, seq<nat>>, owner: seq<nat>,
                                    clusters: map<nat, Cluster>, nextId: nat, absorbed: map<nat, seq<Tokens>>)
    requires Learned(clusters, nextId, absorbed) && Mined(Messages(sg, residuals), listed, owner, absorbed)
    ensures Sorted(listed, owner) && clusters.Keys == listed.Keys
    ensures forall c :: c in listed ==> Within(listed[c], |residuals|)
                                        && Generalises(clusters[c].template, Pick(Messages(sg, residuals), listed[c]))
  {
    hide Sorted, Generalises, Pick;
  }

  /** Merges the residuals of one cluster into the first of them. */
  method MergeCluster(residuals: seq<Group>, ix: seq<nat>, ghost rs: seq<FlatRecord>, ghost rAts: seq<nat>,
                      ghost rParts: seq<set<nat>>, ghost rAll: set<nat>) returns (g: Group)
    requires Tiles(residuals, rs, rAts, rParts, rAll) && Increasing(rAts)
    requires ix != [] && Increasing(ix) && Within(ix, |residuals|)
    ensures |rAts| == |rParts| == |residuals| && Describes(g, rs, rAts[ix[0]], UnionAt(rParts, ix))
    ensures |ix| == 1 ==> g == residuals[ix[0]]
  {
    hide Describes, InSome, UnionAt;
    g := residuals[ix[0]];
    UnionOfNone(rParts);
    assert ix[..0] == [];
    UnionNext(rParts, ix, 0);
    assert {} + rParts[ix[0]] == rParts[ix[0]];
    for t := 1 to |ix|
      invariant Describes(g, rs, rAts[ix[0]], UnionAt(rParts, ix[..t]))
      invariant t == 1 ==> g == residuals[ix[0]]
    {
      UnionNext(rParts, ix, t);
      UnionApart(rParts, ix, t);
      assert ix[0] < ix[t];
      MergeDescribes(g, residuals[ix[t]], rs, rAts[ix[0]], rAts[ix[t]], UnionAt(rParts, ix[..t]), rParts[ix[t]]);
      g := MergeGroup(g, residuals[ix[t]]);
    }
    assert ix[..|ix|] == ix;
  }

  function Join(tokens: Tokens): string
  {
    if tokens == [] then "" else if |tokens| == 1 then tokens[0] else tokens[0] + " " + Join(tokens[1..])
  }

  /** No token is empty or holds a space. */
  predicate Solid(tokens: Tokens) { forall k :: 0 <= k < |tokens| ==> tokens[k] != "" && ' ' !in tokens[k] }

  /** The text of a template spells its tokens: different templates have different texts. */
  lemma {:induction false} JoinInjective(a: Tokens, b: Tokens)
    requires Solid(a) && Solid(b) && Join(a) == Join(b)
    ensures a == b
    decreases |a|
  {
    if a == [] || b == [] {
      JoinStarts(a);
      JoinStarts(b);
    } else {
      JoinStarts(a);
      JoinStarts(b);
      SameWord(a[0], Join(a)[|a[0]|..], b[0], Join(b)[|b[0]|..]);
      if |a| > 1 {
        assert Join(a)[|a[0]|..][1..] == Join(a[1..]);
        assert Join(b)[|b[0]|..][1..] == Join(b[1..]);
        JoinInjective(a[1..], b[1..]);
      }
      assert a == [a[0]] + a[1..] && b == [b[0]] + b[1..];
    }
  }

  /** The first token is what comes before the first space. */
  lemma {:induction false} JoinStarts(a: Tokens)
    requires Solid(a)
    ensures a == [] <==> Join(a) == ""
    ensures a != [] ==> |a[0]| <= |Join(a)| && Join(a) == a[0] + Join(a)[|a[0]|..]
    ensures |a| == 1 ==> Join(a)[|a[0]|..] == ""
    ensures |a| > 1 ==> Join(a)[|a[0]|..] == " " + Join(a[1..])
  {
    if |a| > 1 { assert Join(a) == a[0] + (" " + Join(a[1..])); }
  }

  lemma {:induction false} SameWord(a: string, x: string, b: string, y: string)
    requires ' ' !in a && ' ' !in b && a + x == b + y && (x == "" || x[0] == ' ') && (y == "" || y[0] == ' ')
    ensures a == b && x == y
  {
    var s := a + x;
    assert forall i :: 0 <= i < |a| ==> s[i] == a[i];
    assert forall i :: 0 <= i < |b| ==> s[i] == b[i];
    assert a == s[..|a|] && b == s[..|b|] && x == s[|a|..] && y == s[|b|..];
  }

  /** An output group is an input group, or it stands for several single records whose canonical bodies all fit its
      template. */
  ghost predicate Faithful(sg: Signing, rs: seq<FlatRecord>, groups: seq<Group>, g: Group, part: set<nat>) {
    match g.template
    case None => g in groups
    case Some(t) => |part| >= 2 && g.signature == sg.hash(Join(t)) && g.clusterId.Some?
                    && forall x :: x in part ==> x < |rs| && Fits(t, sg.tokenise(sg.canon(rs[x].body)))
  }

  /** The positions of the residuals in these clusters. */
  ghost function Owned(parts: seq<set<nat>>, owner: seq<nat>, clusters: set<nat>): set<nat>
    requires |parts| == |owner|
  {
    set k, x | 0 <= k < |parts| && owner[k] in clusters && x in parts[k] :: x
  }

  lemma {:induction false} ListedUnion(parts: seq<set<nat>>, owner: seq<nat>, listed: map<nat, seq<nat>>, c: nat,
                                       x: nat)
    requires Sorted(listed, owner) && |parts| == |owner| && c in listed && Within(listed[c], |parts|)
    ensures x in UnionAt(parts, listed[c]) <==> exists k :: 0 <= k < |parts| && owner[k] == c && x in parts[k]
  {
    hide UnionAt;
    UnionMembers(parts, listed[c], x);
    if k :| 0 <= k < |parts| && owner[k] == c && x in parts[k] {
      assert Placed(listed, owner, k);
      var t :| 0 <= t < |listed[c]| && listed[c][t] == k;
      assert x in parts[listed[c][t]];
    }
  }

  lemma {:induction false} OwnedNext(parts: seq<set<nat>>, owner: seq<nat>, listed: map<nat, seq<nat>>, done: set<nat>,
                                     c: nat)
    requires Sorted(listed, owner) && |parts| == |owner| && c in listed && Within(listed[c], |parts|) && c !in done
    requires forall i, j :: 0 <= i < j < |parts| ==> parts[i] !! parts[j]
    ensures Owned(parts, owner, done + {c}) == Owned(parts, owner, done) + UnionAt(parts, listed[c])
    ensures Owned(parts, owner, done) !! UnionAt(parts, listed[c])
  {
    hide Sorted, UnionAt;
    forall x: nat
      ensures x in UnionAt(parts, listed[c]) <==> exists k :: 0 <= k < |parts| && owner[k] == c && x in parts[k]
    {
      ListedUnion(parts, owner, listed, c, x);
    }
    forall x | x in Owned(parts, owner, done) ensures x !in UnionAt(parts, listed[c]) {
      var k :| 0 <= k < |parts| && owner[k] in done && x in parts[k];
      forall i | 0 <= i < |parts| && owner[i] == c ensures x !in parts[i] { assert i != k; }
    }
  }

  lemma {:induction false} OwnedAll(groups: seq<Group>, rs: seq<FlatRecord>, ats: seq<nat>, parts: seq<set<nat>>,
                                    all: set<nat>, owner: seq<nat>, listed: map<nat, seq<nat>>)
    requires Tiles(groups, rs, ats, parts, all) && Sorted(listed, owner) && |parts| == |owner|
    ensures Owned(parts, owner, {}) == {} && Owned(parts, owner, listed.Keys) == all
  {
    hide Describes;
    forall x | x in all ensures x in Owned(parts, owner, listed.Keys) {
      assert InSome(parts, x);
      var j :| 0 <= j < |parts| && x in parts[j];
      assert Placed(listed, owner, j);
    }
  }

  /** A part of single records: one position for each of the residuals in it. */
  lemma {:induction false} ClusterRecords(sg: Signing, groups: seq<Group>, rs: seq<FlatRecord>, ats: seq<nat>,
                                          parts: seq<set<nat>>, all: set<nat>, ix: seq<nat>, t: Tokens)
    requires Tiles(groups, rs, ats, parts, all) && Within(ix, |groups|) && Increasing(ix)
    requires forall j :: 0 <= j < |groups| ==> Canonical(sg, groups[j]) && groups[j].count <= 1
    requires ix != [] && Generalises(t, Pick(Messages(sg, groups), ix))
    ensures |UnionAt(parts, ix)| == |ix|
    ensures forall x :: x in UnionAt(parts, ix) ==> x < |rs| && Fits(t, sg.tokenise(sg.canon(rs[x].body)))
  {
    hide Generalises, UnionAt, InSome;
    forall j | 0 <= j < |groups|
      ensures |parts[j]| == 1 && parts[j] == {ats[j]} && ats[j] < |rs| && groups[j].representative == rs[ats[j]]
    {
      SingleRecord(groups[j], rs, ats[j], parts[j]);
    }
    UnionSize(parts, ix);
    forall x | x in UnionAt(parts, ix) ensures x < |rs| && Fits(t, sg.tokenise(sg.canon(rs[x].body))) {
      UnionMembers(parts, ix, x);
      var k :| 0 <= k < |ix| && x in parts[ix[k]];
      var picked := Pick(Messages(sg, groups), ix);
      assert picked[k] in picked;
      GeneralisesFits(t, picked, picked[k]);
    }
  }

  lemma {:induction false} SingleRecord(g: Group, rs: seq<FlatRecord>, at: nat, part: set<nat>)
    requires Describes(g, rs, at, part) && g.count <= 1
    ensures part == {at} && at < |rs| && g.representative == rs[at]
  {
    assert |part - {at}| == |part| - 1;
    assert part == (part - {at}) + {at};
  }

  lemma {:induction false} UnionSize(parts: seq<set<nat>>, ix: seq<nat>)
    requires Within(ix, |parts|) && Increasing(ix)
    requires forall i, j :: 0 <= i < j < |parts| ==> parts[i] !! parts[j]
    requires forall j :: 0 <= j < |parts| ==> |parts[j]| == 1
    ensures |UnionAt(parts, ix)| == |ix|
    decreases |ix|
  {
    if ix != [] {
      var n := |ix| - 1;
      UnionSize(parts, ix[..n]);
      UnionApart(parts, ix, n);
    }
  }

  /** The output so far: faithful groups that stand for the residuals of the clusters already visited. */
  ghost predicate Emitted(sg: Signing, rs: seq<FlatRecord>, groups: seq<Group>, out: seq<Group>, ats: seq<nat>,
                          parts: seq<set<nat>>, all: set<nat>) {
    && Tiles(out, rs, ats, parts, all)
    && forall j :: 0 <= j < |out| && j < |parts| ==> Faithful(sg, rs, groups, out[j], parts[j])
  }

  lemma {:induction false} EmitNext(sg: Signing, rs: seq<FlatRecord>, groups: seq<Group>, out: seq<Group>,
                                    ats: seq<nat>, parts: seq<set<nat>>, all: set<nat>, g: Group, at: nat,
                                    part: set<nat>)
    requires Emitted(sg, rs, groups, out, ats, parts, all) && Describes(g, rs, at, part) && part !! all
    requires Faithful(sg, rs, groups, g, part)
    ensures Emitted(sg, rs, groups, out + [g], ats + [at], parts + [part], all + part)
  {
    hide Describes, InSome, Faithful;
    TilesAdd(out, rs, ats, parts, all, g, at, part);
  }

  /** Groups that are passed through. */
  lemma {:induction false} EmitRest(sg: Signing, rs: seq<FlatRecord>, groups: seq<Group>, out: seq<Group>,
                                    ats: seq<nat>, parts: seq<set<nat>>, all: set<nat>, rest: seq<Group>,
                                    restAts: seq<nat>, restParts: seq<set<nat>>, restAll: set<nat>)
    requires Emitted(sg, rs, groups, out, ats, parts, all) && Tiles(rest, rs, restAts, restParts, restAll)
             && all !! restAll
    requires forall g :: g in rest ==> g in groups && g.template.None?
    ensures Emitted(sg, rs, groups, out + rest, ats + restAts, parts + restParts, all + restAll)
  {
    hide Describes, InSome;
    TilesConcat(out, rs, ats, parts, all, rest, restAts, restParts, restAll);
  }

  /** The positions of the single records that went to cluster `c`. */
  ghost function Sharing(singles: seq<nat>, owner: seq<nat>, c: nat): set<nat>
    requires |singles| == |owner|
  {
    set k | 0 <= k < |singles| && owner[k] == c :: singles[k]
  }

  /** The group stands for all single records of cluster `c`; if there are several, it carries the cluster's id and its
      last template. */
  ghost predicate IsCluster(g: Group, part: set<nat>, singles: seq<nat>, owner: seq<nat>, clusters: map<nat, Cluster>,
                            c: nat)
    requires |singles| == |owner|
  {
    && part == Sharing(singles, owner, c)
    && (|part| >= 2 ==> c in clusters && g.clusterId == Some(c) && g.template == Some(clusters[c].template))
  }

  /** Output group `j` is cluster `ids[j]`. */
  ghost predicate AllClusters(out: seq<Group>, parts: seq<set<nat>>, singles: seq<nat>, owner: seq<nat>,
                              clusters: map<nat, Cluster>, ids: seq<nat>)
    requires |singles| == |owner|
  {
    && |out| == |parts| == |ids|
    && forall j :: 0 <= j < |out| ==> IsCluster(out[j], parts[j], singles, owner, clusters, ids[j])
  }

  lemma {:induction false} OneMoreCluster(out: seq<Group>, parts: seq<set<nat>>, singles: seq<nat>, owner: seq<nat>,
                                          clusters: map<nat, Cluster>, ids: seq<nat>, g: Group, part: set<nat>, c: nat)
    requires |singles| == |owner| && AllClusters(out, parts, singles, owner, clusters, ids)
    requires IsCluster(g, part, singles, owner, clusters, c)
    ensures AllClusters(out + [g], parts + [part], singles, owner, clusters, ids + [c])
  {
    hide IsCluster;
  }

  lemma {:induction false} NoClusters(singles: seq<nat>, owner: seq<nat>, clusters: map<nat, Cluster>)
    requires |singles| == |owner|
    ensures AllClusters([], [], singles, owner, clusters, [])
  {}

  /** The parts of a cluster's residuals, which are single records, make up its positions. */
  lemma {:induction false} ListedShare(groups: seq<Group>, rs: seq<FlatRecord>, ats: seq<nat>, parts: seq<set<nat>>,
                                       all: set<nat>, owner: seq<nat>, listed: map<nat, seq<nat>>, c: nat)
    requires Tiles(groups, rs, ats, parts, all) && |owner| == |groups| && Sorted(listed, owner) && c in listed
    requires Within(listed[c], |parts|) && forall j :: 0 <= j < |groups| ==> groups[j].count <= 1
    ensures |ats| == |owner| && UnionAt(parts, listed[c]) == Sharing(ats, owner, c)
  {
    hide Describes, InSome, UnionAt, Sorted;
    forall j | 0 <= j < |groups| ensures parts[j] == {ats[j]} { SingleRecord(groups[j], rs, ats[j], parts[j]); }
    forall x: nat ensures x in UnionAt(parts, listed[c]) <==> x in Sharing(ats, owner, c) {
      ListedUnion(parts, owner, listed, c, x);
    }
  }

  /** One output group for each cluster, in arbitrary order. */
  method EmitClusters(sg: Signing, residuals: seq<Group>, listed: map<nat, seq<nat>>, clusters: map<nat, Cluster>,
                      ghost rs: seq<FlatRecord>, ghost rAts: seq<nat>, ghost rParts: seq<set<nat>>,
                      ghost rAll: set<nat>, ghost owner: seq<nat>)
    returns (out: seq<Group>, ghost ats: seq<nat>, ghost parts: seq<set<nat>>, ghost ids: seq<nat>)
    requires Tiles(residuals, rs, rAts, rParts, rAll) && Increasing(rAts)
    requires forall j :: 0 <= j < |residuals| ==> Canonical(sg, residuals[j]) && residuals[j].count <= 1
    requires Sorted(listed, owner) && |owner| == |residuals| && clusters.Keys == listed.Keys
    requires forall c :: c in listed ==> Within(listed[c], |residuals|)
                                         && Generalises(clusters[c].template, Pick(Messages(sg, residuals), listed[c]))
    ensures Emitted(sg, rs, residuals, out, ats, parts, rAll)
    ensures |rAts| == |owner| && AllClusters(out, parts, rAts, owner, clusters, ids)
  {
    hide Describes, InSome, Generalises, UnionAt, Owned, Canonical, Increasing, Within, Pick, Messages, Join, Fits,
      Emitted, Faithful, Sorted, AllClusters, Sharing;
    out, ats, parts, ids := [], [], [], [];
    var left := listed.Keys;
    NoClusters(rAts, owner, clusters);
    OwnedAll(residuals, rs, rAts, rParts, rAll, owner, listed);
    NothingEmitted(sg, rs, residuals);
    assert listed.Keys - left == {};
    while left != {}
      invariant left <= listed.Keys
      invariant Emitted(sg, rs, residuals, out, ats, parts, Owned(rParts, owner, listed.Keys - left))
      invariant AllClusters(out, parts, rAts, owner, clusters, ids)
      decreases left
    {
      var c :| c in left;
      ghost var done := listed.Keys - left;
      OwnedNext(rParts, owner, listed, done, c);
      var ix := listed[c];
      ListFacts(listed, owner, c);
      ListedShare(residuals, rs, rAts, rParts, rAll, owner, listed, c);
      OneEach(residuals, rs, rAts, rParts, rAll, ix);
      var g := MergeCluster(residuals, ix, rs, rAts, rParts, rAll);
      if |ix| > 1 {
        var template := clusters[c].template;
        ClusterRecords(sg, residuals, rs, rAts, rParts, rAll, ix, template);
        ghost var before := g;
        g := g.(signature := sg.hash(Join(template)), template := Some(template), clusterId := Some(c));
        SameDescribes(before, g, rs, rAts[ix[0]], UnionAt(rParts, ix));
        TemplateFits(sg, rs, residuals, g, UnionAt(rParts, ix));
      } else {
        PassThrough(sg, rs, residuals, ix, UnionAt(rParts, ix));
      }
      EmitNext(sg, rs, residuals, out, ats, parts, Owned(rParts, owner, done), g, rAts[ix[0]], UnionAt(rParts, ix));
      OneMoreCluster(out, parts, rAts, owner, clusters, ids, g, UnionAt(rParts, ix), c);
      out, ats, parts := out + [g], ats + [rAts[ix[0]]], parts + [UnionAt(rParts, ix)];
      ids := ids + [c];
      left := left - {c};
      assert listed.Keys - left == done + {c};
    }
    assert listed.Keys - left == listed.Keys;
  }

  /** As many positions as single records. */
  lemma {:induction false} OneEach(groups: seq<Group>, rs: seq<FlatRecord>, ats: seq<nat>, parts: seq<set<nat>>,
                                   all: set<nat>, ix: seq<nat>)
    requires Tiles(groups, rs, ats, parts, all) && Within(ix, |groups|) && Increasing(ix)
    requires forall j :: 0 <= j < |groups| ==> groups[j].count <= 1
    ensures |parts| == |groups| && |UnionAt(parts, ix)| == |ix|
  {
    hide UnionAt, InSome;
    forall j | 0 <= j < |groups| ensures |parts[j]| == 1 { SingleRecord(groups[j], rs, ats[j], parts[j]); }
    UnionSize(parts, ix);
  }

  lemma {:induction false} NothingEmitted(sg: Signing, rs: seq<FlatRecord>, groups: seq<Group>)
    ensures Emitted(sg, rs, groups, [], [], [], {})
  {
    NothingTiles(rs);
  }

  lemma {:induction false} TemplateFits(sg: Signing, rs: seq<FlatRecord>, groups: seq<Group>, g: Group, part: set<nat>)
    requires g.template.Some? && |part| >= 2 && g.signature == sg.hash(Join(g.template.value)) && g.clusterId.Some?
    requires forall x :: x in part ==> x < |rs| && Fits(g.template.value, sg.tokenise(sg.canon(rs[x].body)))
    ensures Faithful(sg, rs, groups, g, part)
  {}

  lemma {:induction false} PassThrough(sg: Signing, rs: seq<FlatRecord>, residuals: seq<Group>, ix: seq<nat>,
                                       part: set<nat>)
    requires ix != [] && Within(ix, |residuals|) && Canonical(sg, residuals[ix[0]])
    ensures Faithful(sg, rs, residuals, residuals[ix[0]], part)
  {}

  // ----- nothing that belongs together is left apart

  /** What the miner is fed for these records. */
  function RecordMessages(sg: Signing, rs: seq<FlatRecord>, ats: seq<nat>): (r: seq<Tokens>)
    requires Within(ats, |rs|)
    ensures |r| == |ats| && forall i :: 0 <= i < |ats| ==> r[i] == sg.tokenise(sg.canon(rs[ats[i]].body))
  {
    seq(|ats|, i requires 0 <= i < |ats| => sg.tokenise(sg.canon(rs[ats[i]].body)))
  }

  /** The single records were mined in order, and the output parts they are in are exactly the clusters of that run. */
  ghost predicate MinedParts(sg: Signing, rs: seq<FlatRecord>, singles: seq<nat>, depth: int, simTh: real,
                             out: seq<Group>, parts: seq<set<nat>>, states: seq<Miner>, owner: seq<nat>) {
    && |singles| == |owner| && Within(singles, |rs|)
    && Mines(ShapeFor(depth), simTh, RecordMessages(sg, rs, singles), states, owner)
    && |out| == |parts|
    && forall k, j :: 0 <= k < |singles| && 0 <= j < |out| && singles[k] in parts[j] ==>
         IsCluster(out[j], parts[j], singles, owner, states[|owner|].clusters, owner[k])
  }

  lemma {:induction false} IsSharing(singles: seq<nat>, owner: seq<nat>, i: nat)
    requires |singles| == |owner| && i < |singles|
    ensures singles[i] in Sharing(singles, owner, owner[i])
  {}

  /** Up to threshold one, a single record that is left alone fitted no template when its turn came. */
  lemma {:induction false} LeftAlone(sg: Signing, rs: seq<FlatRecord>, singles: seq<nat>, depth: int, simTh: real,
                                     out: seq<Group>, parts: seq<set<nat>>, states: seq<Miner>, owner: seq<nat>,
                                     k: nat, j: nat, c: nat)
    requires MinedParts(sg, rs, singles, depth, simTh, out, parts, states, owner) && Increasing(singles) && simTh <= 1.0
    requires k < |singles| && j < |out| && parts[j] == {singles[k]}
    requires |states| == |singles| + 1 && c in states[k].clusters
    ensures !Fits(states[k].clusters[c].template, RecordMessages(sg, rs, singles)[k])
  {
    hide Mines, Fits, Sharing;
    assert singles[k] in parts[j];
    forall i | 0 <= i < |owner| && i != k ensures owner[i] != owner[k] {
      if owner[i] == owner[k] { IsSharing(singles, owner, i); }
    }
    AloneFitsNothing(ShapeFor(depth), simTh, RecordMessages(sg, rs, singles), states, owner, k, c);
  }

  /** Up to threshold one, a single record with the tokens of an earlier one is merged with some record. */
  lemma {:induction false} RepeatIsMerged(sg: Signing, rs: seq<FlatRecord>, singles: seq<nat>, depth: int, simTh: real,
                                          out: seq<Group>, parts: seq<set<nat>>, states: seq<Miner>, owner: seq<nat>,
                                          i: nat, k: nat, j: nat)
    requires MinedParts(sg, rs, singles, depth, simTh, out, parts, states, owner) && Increasing(singles) && simTh <= 1.0
    requires i < k < |singles| && RecordMessages(sg, rs, singles)[i] == RecordMessages(sg, rs, singles)[k]
    requires j < |out| && singles[k] in parts[j]
    ensures |parts[j]| >= 2 && out[j].template.Some?
  {
    hide Mines;
    RepeatJoins(ShapeFor(depth), simTh, RecordMessages(sg, rs, singles), states, owner, i, k);
    var e :| 0 <= e < k && owner[e] == owner[k];
    assert singles[e] in Sharing(singles, owner, owner[k]) && singles[k] in Sharing(singles, owner, owner[k]);
    assert singles[e] < singles[k];
    TwoOrMore(parts[j], singles[e], singles[k]);
  }

  lemma {:induction false} TwoOrMore(s: set<nat>, a: nat, b: nat)
    requires a in s && b in s && a != b
    ensures |s| >= 2
  {
    assert s == (s - {a} - {b}) + {a} + {b};
  }

  lemma {:induction false} SameMessages(sg: Signing, groups: seq<Group>, rs: seq<FlatRecord>, ats: seq<nat>,
                                        parts: seq<set<nat>>, all: set<nat>)
    requires Tiles(groups, rs, ats, parts, all) && forall j :: 0 <= j < |groups| ==> Canonical(sg, groups[j])
    ensures |ats| == |groups| && Within(ats, |rs|) && RecordMessages(sg, rs, ats) == Messages(sg, groups)
  {
    hide InSome;
    forall j | 0 <= j < |groups| ensures ats[j] < |rs| && groups[j].representative == rs[ats[j]] {
      DescribesFirst(groups[j], rs, ats[j], parts[j]);
    }
  }

  lemma {:induction false} DescribesFirst(g: Group, rs: seq<FlatRecord>, at: nat, part: set<nat>)
    requires Describes(g, rs, at, part)
    ensures at < |rs| && at in part && g.representative == rs[at]
  {}

  /** A single record is in no part but its own cluster's. */
  lemma {:induction false} InOwnCluster(out: seq<Group>, parts: seq<set<nat>>, singles: seq<nat>, owner: seq<nat>,
                                        clusters: map<nat, Cluster>, ids: seq<nat>, k: nat, j: nat)
    requires |singles| == |owner| && Increasing(singles) && AllClusters(out, parts, singles, owner, clusters, ids)
    requires k < |singles| && j < |out| && singles[k] in parts[j]
    ensures IsCluster(out[j], parts[j], singles, owner, clusters, owner[k])
  {
    var i :| 0 <= i < |singles| && owner[i] == ids[j] && singles[i] == singles[k];
    assert i == k;
  }

  lemma {:induction false} AtInAll(groups: seq<Group>, rs: seq<FlatRecord>, ats: seq<nat>, parts: seq<set<nat>>,
                                   all: set<nat>, k: nat)
    requires Tiles(groups, rs, ats, parts, all) && k < |groups|
    ensures |groups| == |ats| == |parts| && ats[k] in parts[k] && ats[k] in all
  {
    hide InSome;
    DescribesFirst(groups[k], rs, ats[k], parts[k]);
  }

  lemma {:induction false} PartsInAll(groups: seq<Group>, rs: seq<FlatRecord>, ats: seq<nat>, parts: seq<set<nat>>,
                                      all: set<nat>, j: nat)
    requires Tiles(groups, rs, ats, parts, all) && j < |groups|
    ensures |groups| == |ats| == |parts| && parts[j] <= all
  {
    hide InSome, Describes;
  }

  lemma {:induction false} WithMerged(sg: Signing, rs: seq<FlatRecord>, residuals: seq<Group>, rAts: seq<nat>,
                                      rParts: seq<set<nat>>, rAll: set<nat>, depth: int, simTh: real, out: seq<Group>,
                                      parts: seq<set<nat>>, states: seq<Miner>, owner: seq<nat>, ids: seq<nat>,
                                      merged: seq<Group>, mAts: seq<nat>, mParts: seq<set<nat>>, mAll: set<nat>)
    requires Tiles(residuals, rs, rAts, rParts, rAll) && Tiles(merged, rs, mAts, mParts, mAll) && mAll !! rAll
    requires (forall j :: 0 <= j < |residuals| ==> Canonical(sg, residuals[j])) && Increasing(rAts)
    requires |rAts| == |owner| && Mines(ShapeFor(depth), simTh, Messages(sg, residuals), states, owner)
    requires AllClusters(out, parts, rAts, owner, states[|owner|].clusters, ids)
    ensures MinedParts(sg, rs, rAts, depth, simTh, out + merged, parts + mParts, states, owner)
  {
    hide Describes, InSome, Mines, IsCluster, Canonical, Messages, Tiles;
    MinesLengths(ShapeFor(depth), simTh, Messages(sg, residuals), states, owner);
    SameMessages(sg, residuals, rs, rAts, rParts, rAll);
    PartsAreAsMany(merged, rs, mAts, mParts, mAll);
    var more, moreParts := out + merged, parts + mParts;
    forall k, j | 0 <= k < |rAts| && 0 <= j < |more| && rAts[k] in moreParts[j]
      ensures IsCluster(more[j], moreParts[j], rAts, owner, states[|owner|].clusters, owner[k])
    {
      if j < |out| {
        InOwnCluster(out, parts, rAts, owner, states[|owner|].clusters, ids, k, j);
      } else {
        AtInAll(residuals, rs, rAts, rParts, rAll, k);
        PartsInAll(merged, rs, mAts, mParts, mAll, j - |out|);
        assert false;
      }
    }
  }

  lemma {:induction false} PartsAreAsMany(groups: seq<Group>, rs: seq<FlatRecord>, ats: seq<nat>,
                                          parts: seq<set<nat>>, all: set<nat>)
    requires Tiles(groups, rs, ats, parts, all)
    ensures |groups| == |ats| == |parts|
  {}

  /** Fewer than two single records have nobody to be merged with. */
  lemma {:induction false} AtMostOne(sg: Signing, rs: seq<FlatRecord>, residuals: seq<Group>, rAts: seq<nat>,
                                     rParts: seq<set<nat>>, rAll: set<nat>, depth: int, simTh: real)
    returns (states: seq<Miner>, owner: seq<nat>, ids: seq<nat>)
    requires Tiles(residuals, rs, rAts, rParts, rAll) && |residuals| < 2
    requires forall j :: 0 <= j < |residuals| ==> residuals[j].count <= 1
    ensures |rAts| == |owner| && Mines(ShapeFor(depth), simTh, Messages(sg, residuals), states, owner)
    ensures AllClusters(residuals, rParts, rAts, owner, states[|owner|].clusters, ids)
  {
    hide Mines, Messages, InSome, Describes;
    var messages := Messages(sg, residuals);
    if residuals == [] {
      assert messages == [];
      MinesNothing(ShapeFor(depth), simTh);
      states, owner, ids := [NEW_MINER], [], [];
    } else {
      assert messages == [messages[0]];
      var b := MinesOne(ShapeFor(depth), simTh, messages[0]);
      states, owner, ids := [NEW_MINER, b], [1], [1];
      SingleRecord(residuals[0], rs, rAts[0], rParts[0]);
      assert Sharing(rAts, owner, 1) == {rAts[0]};
    }
  }

  lemma {:induction false} SomethingCounts(groups: seq<Group>, rs: seq<FlatRecord>, ats: seq<nat>,
                                           parts: seq<set<nat>>, all: set<nat>)
    requires Tiles(groups, rs, ats, parts, all) && SumCounts(groups) == 0
    ensures all == {}
  {
    CountsAddUp(groups, rs, ats, parts, all);
  }

  lemma {:induction false} NothingToMine(residuals: seq<Group>, rs: seq<FlatRecord>, rAts: seq<nat>,
                                         rParts: seq<set<nat>>, rAll: set<nat>)
    requires Tiles(residuals, rs, rAts, rParts, rAll) && rAll == {}
    ensures residuals == []
  {
    if residuals != [] { AtInAll(residuals, rs, rAts, rParts, rAll, 0); }
  }

  /** The order of two halves of the output does not matter. */
  lemma {:induction false} MinedSwap(sg: Signing, rs: seq<FlatRecord>, singles: seq<nat>, depth: int, simTh: real,
                                     a: seq<Group>, aParts: seq<set<nat>>, b: seq<Group>, bParts: seq<set<nat>>,
                                     states: seq<Miner>, owner: seq<nat>)
    requires |a| == |aParts| && |b| == |bParts|
    requires MinedParts(sg, rs, singles, depth, simTh, a + b, aParts + bParts, states, owner)
    ensures MinedParts(sg, rs, singles, depth, simTh, b + a, bParts + aParts, states, owner)
  {
    hide Mines, IsCluster, Within;
    MinesLengths(ShapeFor(depth), simTh, RecordMessages(sg, rs, singles), states, owner);
    forall k, j | 0 <= k < |singles| && 0 <= j < |b + a| && singles[k] in (bParts + aParts)[j]
      ensures IsCluster((b + a)[j], (bParts + aParts)[j], singles, owner, states[|owner|].clusters, owner[k])
    {
      var i := if j < |b| then |a| + j else j - |b|;
      assert (a + b)[i] == (b + a)[j] && (aParts + bParts)[i] == (bParts + aParts)[j];
    }
  }

  /** Merges single records by Drain template; groups of several records are passed through. */
  method DedupResiduals(sg: Signing, groups: seq<Group>, depth: int, simTh: real, ghost rs: seq<FlatRecord>,
                        ghost ats: seq<nat>, ghost parts: seq<set<nat>>, ghost all: set<nat>)
    returns (out: seq<Group>, ghost outAts: seq<nat>, ghost outParts: seq<set<nat>>, ghost states: seq<Miner>,
             ghost owner: seq<nat>)
    requires Tiles(groups, rs, ats, parts, all) && Increasing(ats)
    requires forall j :: 0 <= j < |groups| ==> Canonical(sg, groups[j])
    ensures Emitted(sg, rs, groups, out, outAts, outParts, all)
    ensures forall g :: g in groups && g.count > 1 ==> g in out
    ensures |groups| == |ats|
    ensures MinedParts(sg, rs, Singles(groups, ats), depth, simTh, out, outParts, states, owner)
  {
    hide Tiles, Increasing, Emitted, Sorted, Generalises, Within, Pick, Messages, Fits, Describes, Mines, AllClusters,
      MinedParts, Singles, SumCounts;
    var total := SumCounts(groups);
    var merged, mAts, mParts, mAll, residuals, rAts, rParts, rAll := Split(groups, rs, ats, parts, all);
    forall g | g in merged || g in residuals ensures Canonical(sg, g) { OneOf(sg, groups, g); }
    forall j | 0 <= j < |residuals| ensures Canonical(sg, residuals[j]) && residuals[j].count <= 1 {
      assert residuals[j] in residuals;
    }
    if |residuals| < 2 || total == 0 {
      EmitNothing(sg, rs, groups);
      EmitRest(sg, rs, groups, [], [], [], {}, merged, mAts, mParts, mAll);
      EmitRest(sg, rs, groups, [] + merged, [] + mAts, [] + mParts, {} + mAll, residuals, rAts, rParts, rAll);
      assert [] + merged == merged && [] + mParts == mParts && {} + mAll + rAll == all;
      if total == 0 {
        SomethingCounts(groups, rs, ats, parts, all);
        NothingToMine(residuals, rs, rAts, rParts, rAll);
      }
      ghost var few: seq<nat>;
      states, owner, few := AtMostOne(sg, rs, residuals, rAts, rParts, rAll, depth, simTh);
      WithMerged(sg, rs, residuals, rAts, rParts, rAll, depth, simTh, residuals, rParts, states, owner, few, merged,
                 mAts, mParts, mAll);
      PartsAreAsMany(merged, rs, mAts, mParts, mAll);
      PartsAreAsMany(residuals, rs, rAts, rParts, rAll);
      MinedSwap(sg, rs, rAts, depth, simTh, residuals, rParts, merged, mParts, states, owner);
      return merged + residuals, [] + mAts + rAts, [] + mParts + rParts, states, owner;
    }
    var listed, clusters;
    listed, clusters, owner, states := MineResiduals(sg, residuals, depth, simTh);
    ghost var ids;
    out, outAts, outParts, ids := EmitClusters(sg, residuals, listed, clusters, rs, rAts, rParts, rAll, owner);
    WithMerged(sg, rs, residuals, rAts, rParts, rAll, depth, simTh, out, outParts, states, owner, ids, merged, mAts,
               mParts, mAll);
    EmittedFrom(sg, rs, residuals, groups, out, outAts, outParts, rAll);
    EmitRest(sg, rs, groups, out, outAts, outParts, rAll, merged, mAts, mParts, mAll);
    assert rAll + mAll == all;
    out, outAts, outParts := out + merged, outAts + mAts, outParts + mParts;
  }

  lemma {:induction false} OneOf(sg: Signing, groups: seq<Group>, g: Group)
    requires g in groups && forall j :: 0 <= j < |groups| ==> Canonical(sg, groups[j])
    ensures Canonical(sg, g) && g.template.None?
  {}

  lemma {:induction false} EmitNothing(sg: Signing, rs: seq<FlatRecord>, groups: seq<Group>)
    ensures Emitted(sg, rs, groups, [], [], [], {})
  {}

  lemma {:induction false} EmittedFrom(sg: Signing, rs: seq<FlatRecord>, subset: seq<Group>, groups: seq<Group>,
                                       out: seq<Group>, ats: seq<nat>, parts: seq<set<nat>>, all: set<nat>)
    requires Emitted(sg, rs, subset, out, ats, parts, all) && forall g :: g in subset ==> g in groups
    ensures Emitted(sg, rs, groups, out, ats, parts, all)
  {
    hide Tiles, Fits;
  }

  // ----- the pipeline of distinct mode

  datatype MatchMode = Exact | Hash2 | Full

  lemma {:induction false} PartitionFacts<K>(groups: seq<Group>, rs: seq<FlatRecord>, firsts: seq<nat>, keys: seq<K>)
    requires PartitionBy(groups, rs, firsts, keys, Positions(|rs|))
    ensures Increasing(firsts) && forall j :: 0 <= j < |firsts| ==> firsts[j] < |keys|
    ensures Tiles(groups, rs, firsts, Classes(keys, firsts, Positions(|rs|)), Positions(|rs|))
  {
    hide Known, Described, Describes;
    PartitionTiles(groups, rs, firsts, keys, Positions(|rs|));
  }

  lemma {:induction false} TextPartition(sg: Signing, rs: seq<FlatRecord>, groups: seq<Group>, firsts: seq<nat>,
                                         texts: seq<string>)
    requires |texts| == |rs| && PartitionBy(groups, rs, firsts, Hashes(sg, texts), Positions(|rs|))
             && CollisionFree(sg, texts)
    ensures PartitionBy(groups, rs, firsts, texts, Positions(|rs|))
  {
    hide PartitionBy;
    Rekey(groups, rs, firsts, Hashes(sg, texts), texts, Positions(|rs|));
  }

  /** Deduplicates a whole selection. Whatever the hashes do, every record is counted once. Exact mode groups by body
      exactly when bodies do not collide; canonical mode groups by canonical body exactly when bodies that share a hash
      share it and canonical bodies do not collide; full mode then only merges single records that fit one template.
      `canonical` is the result of the second stage, with the parts `wholes`. */
  method Distinct(sg: Signing, rs: seq<FlatRecord>, mode: MatchMode, depth: int, simTh: real)
    returns (groups: seq<Group>, ghost ats: seq<nat>, ghost parts: seq<set<nat>>, ghost canonical: seq<Group>,
             ghost heads: seq<nat>, ghost wholes: seq<set<nat>>, ghost states: seq<Miner>,
             ghost owner: seq<nat>)
    ensures Tiles(groups, rs, ats, parts, Positions(|rs|)) && SumCounts(groups) == |rs|
    ensures mode.Exact? ==> (ByText(ats, parts, Bodies(rs)) <==> CollisionFree(sg, Bodies(rs)))
    ensures mode.Exact? && CollisionFree(sg, Bodies(rs)) ==> PartitionBy(groups, rs, ats, Bodies(rs), Positions(|rs|))
    ensures !mode.Exact? ==> Tiles(canonical, rs, heads, wholes, Positions(|rs|))
    ensures !mode.Exact? ==> (ByText(heads, wholes, Canonicals(sg, rs))
                              <==> FormsAgree(sg, rs) && CollisionFree(sg, Canonicals(sg, rs)))
    ensures !mode.Exact? && FormsAgree(sg, rs) && CollisionFree(sg, Canonicals(sg, rs))
            ==> PartitionBy(canonical, rs, heads, Canonicals(sg, rs), Positions(|rs|))
    ensures mode.Hash2? ==> groups == canonical && ats == heads && parts == wholes
    ensures mode.Full? ==> Emitted(sg, rs, canonical, groups, ats, parts, Positions(|rs|))
    ensures mode.Full? ==> forall g :: g in canonical && g.count > 1 ==> g in groups
    ensures mode.Full? ==> |canonical| == |heads|
                           && MinedParts(sg, rs, Singles(canonical, heads), depth, simTh, groups, parts, states, owner)
  {
    hide *;
    ghost var all := Positions(|rs|);
    var exact, firsts := DedupBucket(sg, rs);
    PartitionFacts(exact, rs, firsts, Hashes(sg, Bodies(rs)));
    canonical, heads, wholes, states, owner := [], [], [], [], [];
    if mode.Exact? {
      groups, ats, parts := exact, firsts, Classes(Hashes(sg, Bodies(rs)), firsts, all);
      ExactIffDistinct(sg, rs, exact, firsts);
      if CollisionFree(sg, Bodies(rs)) { TextPartition(sg, rs, groups, ats, Bodies(rs)); }
      CountsAddUp(groups, rs, ats, parts, all);
      return;
    }
    ghost var keys := MergeKeys(sg, rs, firsts);
    MergeKeysRefine(sg, rs, exact, firsts);
    groups, ats := CanonDedup(sg, exact, rs, firsts, keys);
    PartitionFacts(groups, rs, ats, keys);
    parts := Classes(keys, ats, all);
    canonical, heads, wholes := groups, ats, parts;
    CanonicalIffDistinct(sg, rs, exact, firsts, canonical, heads);
    if FormsAgree(sg, rs) && CollisionFree(sg, Canonicals(sg, rs)) {
      TextPartition(sg, rs, canonical, heads, Canonicals(sg, rs));
    }
    if mode.Full? {
      groups, ats, parts, states, owner :=
        DedupResiduals(sg, groups, depth, simTh, rs, heads, Classes(keys, heads, all), all);
      EmittedTiles(sg, rs, canonical, groups, ats, parts, all);
    }
    CountsAddUp(groups, rs, ats, parts, all);
  }

  lemma {:induction false} ExactIffDistinct(sg: Signing, rs: seq<FlatRecord>, groups: seq<Group>, firsts: seq<nat>)
    requires PartitionBy(groups, rs, firsts, Hashes(sg, Bodies(rs)), Positions(|rs|))
    ensures forall j :: 0 <= j < |firsts| ==> firsts[j] < |rs|
    ensures ByText(firsts, Classes(Hashes(sg, Bodies(rs)), firsts, Positions(|rs|)), Bodies(rs))
            <==> CollisionFree(sg, Bodies(rs))
  {
    hide ByText, Classes, Heads, Described;
    ClassesByText(firsts, Hashes(sg, Bodies(rs)), Bodies(rs));
  }

  lemma {:induction false} CanonicalIffDistinct(sg: Signing, rs: seq<FlatRecord>, groups: seq<Group>, firsts: seq<nat>,
                                                merged: seq<Group>, heads: seq<nat>)
    requires PartitionBy(groups, rs, firsts, Hashes(sg, Bodies(rs)), Positions(|rs|))
    requires PartitionBy(merged, rs, heads, MergeKeys(sg, rs, firsts), Positions(|rs|))
    ensures forall j :: 0 <= j < |heads| ==> heads[j] < |rs|
    ensures ByText(heads, Classes(MergeKeys(sg, rs, firsts), heads, Positions(|rs|)), Canonicals(sg, rs))
            <==> FormsAgree(sg, rs) && CollisionFree(sg, Canonicals(sg, rs))
  {
    hide ByText, Classes, Heads, Described, MergeKeys, KeysAreTexts;
    ClassesByText(heads, MergeKeys(sg, rs, firsts), Canonicals(sg, rs));
    CanonGroupingExactness(sg, rs, firsts);
  }

  lemma {:induction false} EmittedTiles(sg: Signing, rs: seq<FlatRecord>, groups: seq<Group>, out: seq<Group>,
                                        ats: seq<nat>, parts: seq<set<nat>>, all: set<nat>)
    requires Emitted(sg, rs, groups, out, ats, parts, all)
    ensures Tiles(out, rs, ats, parts, all)
  {}
}
