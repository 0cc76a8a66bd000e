/** The distinct mode of deduplication: exact bodies, canonical bodies, then Drain templates. */
module DedupStages {
  import opened Prelude
  import opened Encoding
  import opened DrainTree
  import opened DrainMiner
  import opened DedupGroups

  /** The body hash and the canonical form of a body. */
  datatype Signing = Signing(hash: string -> u64, canon: string -> string, tokenise: string -> Tokens)

  ghost function Positions(n: nat): (r: set<nat>)
    ensures forall x: nat :: x in r <==> x < n
    ensures |r| == n
  {
    if n == 0 then {} else Positions(n - 1) + {n - 1}
  }

  function Bodies(rs: seq<FlatRecord>): (r: seq<string>)
    ensures |r| == |rs| && forall i :: 0 <= i < |rs| ==> r[i] == rs[i].body
  {
    seq(|rs|, i requires 0 <= i < |rs| => rs[i].body)
  }

  function Canonicals(sg: Signing, rs: seq<FlatRecord>): (r: seq<string>)
    ensures |r| == |rs| && forall i :: 0 <= i < |rs| ==> r[i] == sg.canon(rs[i].body)
  {
    seq(|rs|, i requires 0 <= i < |rs| => sg.canon(rs[i].body))
  }

  function Hashes(sg: Signing, texts: seq<string>): (r: seq<u64>)
    ensures |r| == |texts| && forall i :: 0 <= i < |texts| ==> r[i] == sg.hash(texts[i])
  {
    seq(|texts|, i requires 0 <= i < |texts| => sg.hash(texts[i]))
  }

  /** No two different texts of the input share a hash. */
  predicate CollisionFree(sg: Signing, texts: seq<string>) {
    forall i, j :: 0 <= i < |texts| && 0 <= j < |texts| && sg.hash(texts[i]) == sg.hash(texts[j]) ==>
        texts[i] == texts[j]
  }

  /** Where each hash's group is. */
  ghost predicate Indexes(index: map<u64, nat>, firsts: seq<nat>, keys: seq<u64>) {
    && (forall h :: h in index ==> index[h] < |firsts| && firsts[index[h]] < |keys| && keys[firsts[index[h]]] == h)
    && (forall j :: 0 <= j < |firsts| ==> firsts[j] < |keys| && keys[firsts[j]] in index)
  }

  lemma {:induction false} IndexMisses(index: map<u64, nat>, firsts: seq<nat>, keys: seq<u64>, h: u64)
    requires Indexes(index, firsts, keys) && h !in index
    ensures !Known(firsts, keys, h)
  {
    if Known(firsts, keys, h) {
      var j := KnownAt(firsts, keys, h);
    }
  }

  lemma {:induction false} IndexGrows(index: map<u64, nat>, firsts: seq<nat>, keys: seq<u64>, at: nat)
    requires Indexes(index, firsts, keys) && at < |keys|
    ensures keys[at] !in index ==> Indexes(index[keys[at] := |firsts|], firsts + [at], keys)
  {}

  ghost predicate Plain(sg: Signing, g: Group) {
    g.signature == sg.hash(g.representative.body) && g.canonical.None? && g.template.None? && g.clusterId.None?
  }

  /** The first `i` records are partitioned by body hash. */
  ghost predicate Grouped(sg: Signing, rs: seq<FlatRecord>, i: nat, groups: seq<Group>, firsts: seq<nat>,
                          index: map<u64, nat>) {
    var keys := Hashes(sg, Bodies(rs));
    && |groups| == |firsts| && PartitionBy(groups, rs, firsts, keys, Positions(i)) && Indexes(index, firsts, keys)
    && (forall j :: 0 <= j < |firsts| ==> firsts[j] < i)
    && (forall j :: 0 <= j < |groups| ==> Plain(sg, groups[j]))
  }

  lemma {:induction false} GroupedJoins(sg: Signing, rs: seq<FlatRecord>, i: nat, groups: seq<Group>, firsts: seq<nat>,
                                        index: map<u64, nat>)
    requires i < |rs| && Grouped(sg, rs, i, groups, firsts, index) && sg.hash(rs[i].body) in index
    ensures index[sg.hash(rs[i].body)] < |groups|
    ensures var j := index[sg.hash(rs[i].body)];
            Grouped(sg, rs, i + 1, groups[j := Absorb(groups[j], rs[i])], firsts, index)
  {
    hide PartitionBy, Known, Describes, Indexes;
    var hash, keys := sg.hash(rs[i].body), Hashes(sg, Bodies(rs));
    IndexHits(index, firsts, keys, hash);
    NewDescribes(hash, rs, i);
    AbsorbIsMerge(groups[index[hash]], hash, rs[i]);
    JoinPartition(groups, rs, firsts, keys, Positions(i), NewGroup(hash, rs[i]), i, {i}, index[hash]);
  }

  lemma {:induction false} GroupedOpens(sg: Signing, rs: seq<FlatRecord>, i: nat, groups: seq<Group>, firsts: seq<nat>,
                                        index: map<u64, nat>)
    requires i < |rs| && Grouped(sg, rs, i, groups, firsts, index) && sg.hash(rs[i].body) !in index
    ensures var hash := sg.hash(rs[i].body);
            Grouped(sg, rs, i + 1, groups + [NewGroup(hash, rs[i])], firsts + [i], index[hash := |groups|])
  {
    hide PartitionBy, Known, Describes, Indexes;
    var hash, keys := sg.hash(rs[i].body), Hashes(sg, Bodies(rs));
    NewDescribes(hash, rs, i);
    IndexMisses(index, firsts, keys, hash);
    OpenPartition(groups, rs, firsts, keys, Positions(i), NewGroup(hash, rs[i]), i, {i});
    IndexGrows(index, firsts, keys, i);
  }

  /** One group per body hash. */
  method DedupBucket(sg: Signing, rs: seq<FlatRecord>) returns (groups: seq<Group>, ghost firsts: seq<nat>)
    ensures PartitionBy(groups, rs, firsts, Hashes(sg, Bodies(rs)), Positions(|rs|))
    ensures forall j :: 0 <= j < |groups| ==> Plain(sg, groups[j])
  {
    hide *;
    var index: map<u64, nat> := map[];
    groups, firsts := [], [];
    NothingGrouped(sg, rs);
    for i := 0 to |rs|
      invariant Grouped(sg, rs, i, groups, firsts, index)
    {
      var hash := sg.hash(rs[i].body);
      if hash in index {
        GroupedJoins(sg, rs, i, groups, firsts, index);
        groups := groups[index[hash] := Absorb(groups[index[hash]], rs[i])];
      } else {
        GroupedOpens(sg, rs, i, groups, firsts, index);
        index := index[hash := |groups|];
        groups := groups + [NewGroup(hash, rs[i])];
        firsts := firsts + [i];
      }
    }
    GroupedAll(sg, rs, groups, firsts, index);
  }

  lemma {:induction false} NothingGrouped(sg: Signing, rs: seq<FlatRecord>)
    ensures Grouped(sg, rs, 0, [], [], map[])
  {}

  lemma {:induction false} GroupedAll(sg: Signing, rs: seq<FlatRecord>, groups: seq<Group>, firsts: seq<nat>,
                                      index: map<u64, nat>)
    requires Grouped(sg, rs, |rs|, groups, firsts, index)
    ensures PartitionBy(groups, rs, firsts, Hashes(sg, Bodies(rs)), Positions(|rs|))
    ensures forall j :: 0 <= j < |groups| ==> Plain(sg, groups[j])
  {}

  lemma {:induction false} IndexHits(index: map<u64, nat>, firsts: seq<nat>, keys: seq<u64>, h: u64)
    requires Indexes(index, firsts, keys) && h in index
    ensures index[h] < |firsts| && firsts[index[h]] < |keys| && keys[firsts[index[h]]] == h
  {}

  // ----- canonical bodies

  function Annotated(sg: Signing, g: Group): Group { g.(canonical := Some(sg.canon(g.representative.body))) }

  ghost predicate Canonical(sg: Signing, g: Group) {
    && g.canonical == Some(sg.canon(g.representative.body)) && g.signature == sg.hash(sg.canon(g.representative.body))
    && g.template.None? && g.clusterId.None?
  }

  /** The positions whose key is among the first `i` groups. */
  ghost function Covered(keys: seq<u64>, firsts: seq<nat>, i: nat): set<nat>
    requires i <= |firsts|
  {
    set x | x in Positions(|keys|) && Known(firsts[..i], keys, keys[x])
  }

  lemma {:induction false} CoversNext(keys: seq<u64>, firsts: seq<nat>, i: nat)
    requires i < |firsts| && Heads(firsts, keys, Positions(|keys|))
    ensures Covered(keys, firsts, i + 1) == Covered(keys, firsts, i) + Class(keys, keys[firsts[i]], Positions(|keys|))
    ensures Covered(keys, firsts, i) !! Class(keys, keys[firsts[i]], Positions(|keys|))
  {
    assert firsts[..i + 1] == firsts[..i] + [firsts[i]];
    forall x: nat | x < |keys|
      ensures Known(firsts[..i + 1], keys, keys[x]) <==> Known(firsts[..i], keys, keys[x]) || keys[x] == keys[firsts[i]]
    {
      KnownMore(firsts[..i], keys, keys[x], firsts[i]);
    }
    if Known(firsts[..i], keys, keys[firsts[i]]) {
      var j := KnownAt(firsts[..i], keys, keys[firsts[i]]);
    }
  }

  lemma {:induction false} CoversEnds(keys: seq<u64>, firsts: seq<nat>)
    requires Heads(firsts, keys, Positions(|keys|))
    ensures Covered(keys, firsts, 0) == {} && Covered(keys, firsts, |firsts|) == Positions(|keys|)
  {
    assert firsts[..|firsts|] == firsts;
  }

  /** The exact groups, each with one merge key: the hash of its representative's canonical body. */
  ghost predicate Refining(sg: Signing, rs: seq<FlatRecord>, groups: seq<Group>, firsts: seq<nat>, keys: seq<u64>) {
    var fine := Hashes(sg, Bodies(rs));
    && |keys| == |rs| && PartitionBy(groups, rs, firsts, fine, Positions(|rs|))
    && (forall x, y :: 0 <= x < |rs| && 0 <= y < |rs| && fine[x] == fine[y] ==> keys[x] == keys[y])
    && forall j :: 0 <= j < |firsts| && firsts[j] < |rs| ==> keys[firsts[j]] == sg.hash(sg.canon(rs[firsts[j]].body))
  }

  /** The first `i` exact groups are merged by key. */
  ghost predicate Merged(sg: Signing, rs: seq<FlatRecord>, firsts: seq<nat>, keys: seq<u64>, i: nat, merged: seq<Group>,
                         heads: seq<nat>, index: map<u64, nat>)
    requires i <= |firsts|
  {
    && |merged| == |heads| && Indexes(index, heads, keys)
    && PartitionBy(merged, rs, heads, keys, Covered(Hashes(sg, Bodies(rs)), firsts, i))
    && (forall j, k :: 0 <= j < |heads| && i <= k < |firsts| ==> heads[j] < firsts[k])
    && (forall j :: 0 <= j < |merged| ==> Canonical(sg, merged[j]))
  }

  /** What the next exact group brings. */
  lemma {:induction false} NextExact(sg: Signing, rs: seq<FlatRecord>, groups: seq<Group>, firsts: seq<nat>,
                                     keys: seq<u64>, i: nat, g: Group)
    requires Refining(sg, rs, groups, firsts, keys) && i < |groups| && SameContent(g, groups[i])
    ensures |groups| == |firsts| && firsts[i] < |rs| && groups[i].representative == rs[firsts[i]]
    ensures forall k :: i < k < |firsts| ==> firsts[i] < firsts[k]
    ensures |keys| == |rs| && keys[firsts[i]] == sg.hash(sg.canon(groups[i].representative.body))
    ensures var fine := Hashes(sg, Bodies(rs));
            var part := Class(fine, fine[firsts[i]], Positions(|rs|));
            && Covered(fine, firsts, i + 1) == Covered(fine, firsts, i) + part && Covered(fine, firsts, i) !! part
            && firsts[i] in part && Describes(g, rs, firsts[i], part)
            && forall x :: x in part ==> x < |keys| && keys[x] == keys[firsts[i]]
  {
    hide Known, Describes, Covered;
    var fine := Hashes(sg, Bodies(rs));
    CoversNext(fine, firsts, i);
    SameDescribes(groups[i], g, rs, firsts[i], Class(fine, fine[firsts[i]], Positions(|rs|)));
  }

  lemma {:induction false} SameDescribes(a: Group, b: Group, rs: seq<FlatRecord>, at: nat, part: set<nat>)
    requires Describes(a, rs, at, part) && SameContent(a, b)
    ensures Describes(b, rs, at, part) && at < |rs| && a.representative == rs[at]
  {}

  lemma {:induction false} MergedJoins(sg: Signing, rs: seq<FlatRecord>, groups: seq<Group>, firsts: seq<nat>,
                                       keys: seq<u64>, i: nat, merged: seq<Group>, heads: seq<nat>,
                                       index: map<u64, nat>, hash: u64)
    requires Refining(sg, rs, groups, firsts, keys) && i < |groups| && |groups| == |firsts|
    requires Merged(sg, rs, firsts, keys, i, merged, heads, index)
    requires hash == sg.hash(sg.canon(groups[i].representative.body)) && hash in index
    ensures index[hash] < |merged|
    ensures Merged(sg, rs, firsts, keys, i + 1,
              merged[index[hash] := MergeGroup(merged[index[hash]], Annotated(sg, groups[i]))], heads, index)
  {
    hide PartitionBy, Refining, Known, Describes, Indexes, Covered, Class;
    var g, fine := Annotated(sg, groups[i]), Hashes(sg, Bodies(rs));
    NextExact(sg, rs, groups, firsts, keys, i, g);
    IndexHits(index, heads, keys, hash);
    JoinPartition(merged, rs, heads, keys, Covered(fine, firsts, i), g, firsts[i],
                  Class(fine, fine[firsts[i]], Positions(|rs|)), index[hash]);
  }

  lemma {:induction false} MergedOpens(sg: Signing, rs: seq<FlatRecord>, groups: seq<Group>, firsts: seq<nat>,
                                       keys: seq<u64>, i: nat, merged: seq<Group>, heads: seq<nat>,
                                       index: map<u64, nat>, hash: u64)
    requires Refining(sg, rs, groups, firsts, keys) && i < |groups| && |groups| == |firsts| && Plain(sg, groups[i])
    requires Merged(sg, rs, firsts, keys, i, merged, heads, index)
    requires hash == sg.hash(sg.canon(groups[i].representative.body)) && hash !in index
    ensures Merged(sg, rs, firsts, keys, i + 1, merged + [Annotated(sg, groups[i]).(signature := hash)],
              heads + [firsts[i]], index[hash := |merged|])
  {
    hide PartitionBy, Refining, Known, Describes, Indexes, Covered, Class;
    var g, fine := Annotated(sg, groups[i]).(signature := hash), Hashes(sg, Bodies(rs));
    NextExact(sg, rs, groups, firsts, keys, i, g);
    IndexMisses(index, heads, keys, hash);
    IndexGrows(index, heads, keys, firsts[i]);
    OpenPartition(merged, rs, heads, keys, Covered(fine, firsts, i), g, firsts[i],
                  Class(fine, fine[firsts[i]], Positions(|rs|)));
  }

  lemma {:induction false} NothingMerged(sg: Signing, rs: seq<FlatRecord>, groups: seq<Group>, firsts: seq<nat>,
                                         keys: seq<u64>)
    requires Refining(sg, rs, groups, firsts, keys)
    ensures |groups| == |firsts| && Merged(sg, rs, firsts, keys, 0, [], [], map[])
  {
    hide Known, Describes;
    CoversEnds(Hashes(sg, Bodies(rs)), firsts);
  }

  lemma {:induction false} AllMerged(sg: Signing, rs: seq<FlatRecord>, groups: seq<Group>, firsts: seq<nat>,
                                     keys: seq<u64>, merged: seq<Group>, heads: seq<nat>, index: map<u64, nat>)
    requires Refining(sg, rs, groups, firsts, keys) && Merged(sg, rs, firsts, keys, |firsts|, merged, heads, index)
    ensures PartitionBy(merged, rs, heads, keys, Positions(|rs|))
    ensures forall j :: 0 <= j < |merged| ==> Canonical(sg, merged[j])
  {
    hide Known, Describes;
    CoversEnds(Hashes(sg, Bodies(rs)), firsts);
  }

  /** Merges exact groups by the hash of their representative's canonical body. */
  method CanonDedup(sg: Signing, groups: seq<Group>, ghost rs: seq<FlatRecord>, ghost firsts: seq<nat>,
                    ghost keys: seq<u64>)
    returns (merged: seq<Group>, ghost heads: seq<nat>)
    requires Refining(sg, rs, groups, firsts, keys) && forall j :: 0 <= j < |groups| ==> Plain(sg, groups[j])
    ensures PartitionBy(merged, rs, heads, keys, Positions(|rs|))
    ensures forall j :: 0 <= j < |merged| ==> Canonical(sg, merged[j])
  {
    hide Refining, Merged, PartitionBy, Plain, Canonical, Positions;
    var annotated := [];
    for i := 0 to |groups|
      invariant |annotated| == i && forall j :: 0 <= j < i ==> annotated[j] == Annotated(sg, groups[j])
    {
      annotated := annotated + [Annotated(sg, groups[i])];
    }
    var index: map<u64, nat> := map[];
    merged, heads := [], [];
    NothingMerged(sg, rs, groups, firsts, keys);
    for i := 0 to |annotated|
      invariant Merged(sg, rs, firsts, keys, i, merged, heads, index)
    {
      var g := annotated[i];
      var hash := sg.hash(g.canonical.value);
      if hash in index {
        MergedJoins(sg, rs, groups, firsts, keys, i, merged, heads, index, hash);
        merged := merged[index[hash] := MergeGroup(merged[index[hash]], g)];
      } else {
        MergedOpens(sg, rs, groups, firsts, keys, i, merged, heads, index, hash);
        index := index[hash := |merged|];
        merged := merged + [g.(signature := hash)];
        heads := heads + [firsts[i]];
      }
    }
    AllMerged(sg, rs, groups, firsts, keys, merged, heads, index);
  }

  /** The head of the exact group with this body hash. */
  ghost function HeadOf(firsts: seq<nat>, fine: seq<u64>, key: u64): (r: nat)
    requires Known(firsts, fine, key)
    ensures r < |fine| && fine[r] == key && r in firsts
    decreases |firsts|
  {
    var n := |firsts| - 1;
    if firsts[n] < |fine| && fine[firsts[n]] == key then firsts[n] else HeadOf(firsts[..n], fine, key)
  }

  /** The canonical hash of the representative of the exact group with this body hash. */
  ghost function MergeKey(sg: Signing, rs: seq<FlatRecord>, firsts: seq<nat>, key: u64): u64 {
    var fine := Hashes(sg, Bodies(rs));
    if Known(firsts, fine, key) then sg.hash(sg.canon(rs[HeadOf(firsts, fine, key)].body)) else 0
  }

  ghost function MergeKeys(sg: Signing, rs: seq<FlatRecord>, firsts: seq<nat>): (r: seq<u64>)
    ensures |r| == |rs| && forall x :: 0 <= x < |rs| ==> r[x] == MergeKey(sg, rs, firsts, Hashes(sg, Bodies(rs))[x])
  {
    seq(|rs|, x requires 0 <= x < |rs| => MergeKey(sg, rs, firsts, Hashes(sg, Bodies(rs))[x]))
  }

  lemma {:induction false} HeadKey(sg: Signing, rs: seq<FlatRecord>, firsts: seq<nat>, j: nat)
    requires Heads(firsts, Hashes(sg, Bodies(rs)), Positions(|rs|)) && j < |firsts| && firsts[j] < |rs|
    ensures MergeKeys(sg, rs, firsts)[firsts[j]] == sg.hash(sg.canon(rs[firsts[j]].body))
  {
    hide Heads, Known;
    OwnHead(firsts, Hashes(sg, Bodies(rs)), Positions(|rs|), j);
  }

  /** Bodies of the input that share a hash share a canonical form. */
  predicate FormsAgree(sg: Signing, rs: seq<FlatRecord>) {
    forall x, y :: 0 <= x < |rs| && 0 <= y < |rs| && sg.hash(rs[x].body) == sg.hash(rs[y].body) ==>
        sg.canon(rs[x].body) == sg.canon(rs[y].body)
  }

  lemma {:induction false} CanonicalKey(sg: Signing, rs: seq<FlatRecord>, firsts: seq<nat>, x: nat)
    requires Heads(firsts, Hashes(sg, Bodies(rs)), Positions(|rs|)) && x < |rs| && FormsAgree(sg, rs)
    ensures MergeKeys(sg, rs, firsts)[x] == sg.hash(sg.canon(rs[x].body))
  {
    var fine := Hashes(sg, Bodies(rs));
    assert Known(firsts, fine, fine[x]);
    hide Heads, Known;
    var head := HeadOf(firsts, fine, fine[x]);
    assert sg.hash(rs[head].body) == sg.hash(rs[x].body);
  }

  lemma {:induction false} MergeKeysRefine(sg: Signing, rs: seq<FlatRecord>, groups: seq<Group>, firsts: seq<nat>)
    requires PartitionBy(groups, rs, firsts, Hashes(sg, Bodies(rs)), Positions(|rs|))
    ensures Refining(sg, rs, groups, firsts, MergeKeys(sg, rs, firsts))
    ensures FormsAgree(sg, rs) ==> MergeKeys(sg, rs, firsts) == Hashes(sg, Canonicals(sg, rs))
  {
    hide Heads, Known, Described, MergeKey, FormsAgree;
    var keys := MergeKeys(sg, rs, firsts);
    forall j | 0 <= j < |firsts| && firsts[j] < |rs| ensures keys[firsts[j]] == sg.hash(sg.canon(rs[firsts[j]].body)) {
      HeadKey(sg, rs, firsts, j);
    }
    if FormsAgree(sg, rs) {
      forall x | 0 <= x < |rs| ensures keys[x] == Hashes(sg, Canonicals(sg, rs))[x] { CanonicalKey(sg, rs, firsts, x); }
    }
  }

  lemma {:induction false} OwnHead(firsts: seq<nat>, fine: seq<u64>, all: set<nat>, j: nat)
    requires Heads(firsts, fine, all) && j < |firsts| && firsts[j] < |fine|
    ensures Known(firsts, fine, fine[firsts[j]]) && HeadOf(firsts, fine, fine[firsts[j]]) == firsts[j]
  {
    KnownHere(firsts, fine, j);
    var r := HeadOf(firsts, fine, fine[firsts[j]]);
    var i :| 0 <= i < |firsts| && firsts[i] == r;
  }

  // ----- exactly when grouping by hash is grouping by text

  lemma {:induction false} ElementsSize(s: seq<u64>)
    ensures |Elements(s)| <= |s|
    ensures (forall i, j :: 0 <= i < j < |s| ==> s[i] != s[j]) ==> |Elements(s)| == |s|
    decreases |s|
  {
    if s == [] {
      assert Elements(s) == {};
    } else {
      var n := |s| - 1;
      ElementsSize(s[..n]);
      assert s == s[..n] + [s[n]];
      assert Elements(s) == Elements(s[..n]) + {s[n]};
    }
  }

  lemma {:induction false} RepeatedElement(s: seq<u64>, i: nat, j: nat)
    requires i < j < |s| && s[i] == s[j]
    ensures |Elements(s)| < |s|
  {
    var fewer := s[..j] + s[j + 1..];
    ElementsSize(fewer);
    assert s == s[..j] + [s[j]] + s[j + 1..];
    assert fewer[i] == s[i];
    assert Elements(s) == Elements(fewer);
  }

  function HashesAt(keys: seq<u64>, heads: seq<nat>): (r: seq<u64>)
    requires forall j :: 0 <= j < |heads| ==> heads[j] < |keys|
    ensures |r| == |heads| && forall j :: 0 <= j < |heads| ==> r[j] == keys[heads[j]]
  {
    seq(|heads|, j requires 0 <= j < |heads| => keys[heads[j]])
  }

  /** Heads of either kind show every hash there is. */
  lemma {:induction false} HeadsShowAll<K>(heads: seq<nat>, texts: seq<K>, keys: seq<u64>, key: u64)
    requires |texts| == |keys| && Heads(heads, texts, Positions(|keys|))
    requires forall x, y :: 0 <= x < |keys| && 0 <= y < |keys| && texts[x] == texts[y] ==> keys[x] == keys[y]
    ensures forall j :: 0 <= j < |heads| ==> heads[j] < |keys|
    ensures key in HashesAt(keys, heads) <==> key in keys
  {
    hide Known;
    if key in keys {
      var x :| 0 <= x < |keys| && keys[x] == key;
      var j := KnownAt(heads, texts, texts[x]);
      assert HashesAt(keys, heads)[j] == key;
    }
  }

  /** Grouping by body hash is grouping by body if and only if no two different bodies of the input share a hash. */
  lemma {:induction false} HashGroupingExactness(sg: Signing, rs: seq<FlatRecord>, groups: seq<Group>, firsts: seq<nat>)
    requires PartitionBy(groups, rs, firsts, Hashes(sg, Bodies(rs)), Positions(|rs|))
    ensures (exists heads :: PartitionBy(groups, rs, heads, Bodies(rs), Positions(|rs|)))
            <==> CollisionFree(sg, Bodies(rs))
  {
    hide Known, Described;
    var texts, keys := Bodies(rs), Hashes(sg, Bodies(rs));
    if CollisionFree(sg, texts) {
      Rekey(groups, rs, firsts, keys, texts, Positions(|rs|));
      assert PartitionBy(groups, rs, firsts, texts, Positions(|rs|));
    }
    if heads :| PartitionBy(groups, rs, heads, texts, Positions(|rs|)) {
      SameNumberOfHeads(texts, keys, firsts, heads);
    }
  }

  lemma {:induction false} SameHashes(texts: seq<string>, keys: seq<u64>, firsts: seq<nat>, heads: seq<nat>)
    requires |texts| == |keys| && Heads(firsts, keys, Positions(|keys|)) && Heads(heads, texts, Positions(|keys|))
    requires forall x, y :: 0 <= x < |keys| && 0 <= y < |keys| && texts[x] == texts[y] ==> keys[x] == keys[y]
    ensures forall j :: 0 <= j < |firsts| ==> firsts[j] < |keys|
    ensures forall j :: 0 <= j < |heads| ==> heads[j] < |keys|
    ensures Elements(HashesAt(keys, firsts)) == Elements(HashesAt(keys, heads))
  {
    hide Heads, HashesAt;
    HeadsBound(firsts, keys, Positions(|keys|));
    HeadsBound(heads, texts, Positions(|keys|));
    forall key: u64 ensures key in HashesAt(keys, firsts) <==> key in HashesAt(keys, heads) {
      HeadsShowAll(firsts, keys, keys, key);
      HeadsShowAll(heads, texts, keys, key);
    }
  }

  /** With as many heads by text as by hash, no hash appears at two of them. */
  lemma {:induction false} HashesDiffer(texts: seq<string>, keys: seq<u64>, firsts: seq<nat>, heads: seq<nat>, i: nat,
                                        j: nat)
    requires |texts| == |keys| && Heads(firsts, keys, Positions(|keys|)) && Heads(heads, texts, Positions(|keys|))
             && |firsts| == |heads|
    requires forall x, y :: 0 <= x < |keys| && 0 <= y < |keys| && texts[x] == texts[y] ==> keys[x] == keys[y]
    requires i < j < |heads|
    ensures heads[i] < |keys| && heads[j] < |keys| && keys[heads[i]] != keys[heads[j]]
  {
    hide Known, Elements;
    SameHashes(texts, keys, firsts, heads);
    ElementsSize(HashesAt(keys, firsts));
    if keys[heads[i]] == keys[heads[j]] { RepeatedElement(HashesAt(keys, heads), i, j); }
  }

  lemma {:induction false} SameNumberOfHeads(texts: seq<string>, keys: seq<u64>, firsts: seq<nat>, heads: seq<nat>)
    requires |texts| == |keys| && Heads(firsts, keys, Positions(|keys|)) && Heads(heads, texts, Positions(|keys|))
             && |firsts| == |heads|
    requires forall x, y :: 0 <= x < |keys| && 0 <= y < |keys| && texts[x] == texts[y] ==> keys[x] == keys[y]
    ensures forall x, y :: 0 <= x < |keys| && 0 <= y < |keys| && keys[x] == keys[y] ==> texts[x] == texts[y]
  {
    hide Known;
    forall x, y | 0 <= x < |keys| && 0 <= y < |keys| && keys[x] == keys[y] ensures texts[x] == texts[y] {
      var i := KnownAt(heads, texts, texts[x]);
      var j := KnownAt(heads, texts, texts[y]);
      assert keys[heads[i]] == keys[heads[j]];
      if i < j { HashesDiffer(texts, keys, firsts, heads, i, j); }
      if j < i { HashesDiffer(texts, keys, firsts, heads, j, i); }
    }
  }

  // ----- exactly when grouping by canonical hash is grouping by canonical body

  /** Every part holds exactly the positions that have its head's text. */
  ghost predicate ByText(heads: seq<nat>, parts: seq<set<nat>>, texts: seq<string>) {
    && |heads| == |parts|
    && forall j :: 0 <= j < |heads| ==>
         heads[j] < |texts| && parts[j] == Class(texts, texts[heads[j]], Positions(|texts|))
  }

  /** Two positions have the same key exactly when they have the same text. */
  ghost predicate KeysAreTexts(keys: seq<u64>, texts: seq<string>) {
    && |keys| == |texts|
    && forall x, y :: 0 <= x < |keys| && 0 <= y < |keys| ==> (keys[x] == keys[y] <==> texts[x] == texts[y])
  }

  lemma {:induction false} ClassesByText(heads: seq<nat>, keys: seq<u64>, texts: seq<string>)
    requires |keys| == |texts| && Heads(heads, keys, Positions(|keys|))
    ensures forall j :: 0 <= j < |heads| ==> heads[j] < |keys|
    ensures ByText(heads, Classes(keys, heads, Positions(|keys|)), texts) <==> KeysAreTexts(keys, texts)
  {
    hide Known;
    var parts := Classes(keys, heads, Positions(|keys|));
    if ByText(heads, parts, texts) {
      forall x, y | 0 <= x < |keys| && 0 <= y < |keys| ensures keys[x] == keys[y] <==> texts[x] == texts[y] {
        var j := KnownAt(heads, keys, keys[x]);
        assert x in parts[j];
        assert y in parts[j] <==> keys[y] == keys[x];
      }
    }
  }

  /** Grouping by body hash and then by the canonical hash of the representatives tells records apart by canonical form
      if and only if bodies that share a hash share a canonical form and canonical forms do not collide. */
  lemma {:induction false} CanonGroupingExactness(sg: Signing, rs: seq<FlatRecord>, firsts: seq<nat>)
    requires Heads(firsts, Hashes(sg, Bodies(rs)), Positions(|rs|))
    ensures KeysAreTexts(MergeKeys(sg, rs, firsts), Canonicals(sg, rs))
            <==> FormsAgree(sg, rs) && CollisionFree(sg, Canonicals(sg, rs))
  {
    hide Heads, Known, MergeKey;
    var keys := MergeKeys(sg, rs, firsts);
    if KeysAreTexts(keys, Canonicals(sg, rs)) {
      forall x, y | 0 <= x < |rs| && 0 <= y < |rs| && sg.hash(rs[x].body) == sg.hash(rs[y].body)
        ensures sg.canon(rs[x].body) == sg.canon(rs[y].body)
      {
        assert keys[x] == keys[y];
      }
    }
    if FormsAgree(sg, rs) {
      forall x | 0 <= x < |rs| ensures keys[x] == sg.hash(sg.canon(rs[x].body)) { CanonicalKey(sg, rs, firsts, x); }
    }
  }
}
