/** The Drain prefix tree: where insertion puts a cluster and where a search looks for it. */
module DrainTree {
  import opened Prelude

  /** A tokenised message or a template. */
  type Tokens = seq<string>

  const WILDCARD := "<*>"

  datatype Node = Node(children: map<string, Node>, ids: seq<nat>)

  const EMPTY_NODE := Node(map[], [])

  /** The limits a tree is built with; the levels below the token count are `maxNodeDepth - 1`. */
  datatype Shape = Shape(maxChildren: int, maxNodeDepth: int, numericToWildcard: bool)

  predicate HasNumbers(token: string) { exists c :: c in token && '0' <= c <= '9' }

  /** The tokens that choose the way from the token-count node to the leaf. */
  function PathOf(s: Shape, tokens: Tokens): Tokens
    requires s.maxNodeDepth >= 1
  {
    if tokens == [] then [] else tokens[..Min(s.maxNodeDepth, |tokens|) - 1]
  }

  // ----- inserting

  /** The child a token is filed under; none where the source takes a wildcard child that is missing. */
  function ChildFor(s: Shape, node: Node, token: string): Option<string> {
    if token !in node.children && s.numericToWildcard && HasNumbers(token) then Some(WILDCARD)
    else if token in node.children then Some(token)
    else if WILDCARD in node.children then Some(if |node.children| < s.maxChildren then token else WILDCARD)
    else if |node.children| + 1 < s.maxChildren then Some(token)
    else if |node.children| + 1 == s.maxChildren then Some(WILDCARD)
    else None
  }

  function Child(node: Node, key: string): Node { if key in node.children then node.children[key] else EMPTY_NODE }

  /** A leaf drops the ids of clusters that no longer exist. */
  function Retain(ids: seq<nat>, live: set<nat>): (r: seq<nat>)
    ensures forall x :: x in r <==> x in ids && x in live
  {
    if ids == [] then [] else
      var rest := Retain(ids[1..], live);
      if ids[0] in live then [ids[0]] + rest else rest
  }

  /** The tree with one more cluster id at the end of a path; none where the source would panic. */
  function Insert(s: Shape, node: Node, path: Tokens, id: nat, live: set<nat>): Option<Node>
    decreases |path|
  {
    if path == [] then Some(node.(ids := Retain(node.ids, live) + [id]))
    else
      var key := ChildFor(s, node, path[0]);
      if key.None? then None
      else
        var below := Insert(s, Child(node, key.value), path[1..], id, live);
        if below.None? then None else Some(node.(children := node.children[key.value := below.value]))
  }

  // ----- searching

  /** A token's own child if there is one, else the wildcard child. */
  function Walk(node: Node, path: Tokens): Option<Node>
    decreases |path|
  {
    if path == [] then Some(node)
    else if path[0] in node.children then Walk(node.children[path[0]], path[1..])
    else if WILDCARD in node.children then Walk(node.children[WILDCARD], path[1..])
    else None
  }

  /** Some node of the tree lists the id. */
  ghost predicate Lists(node: Node, id: nat) {
    id in node.ids || exists k :: k in node.children && Lists(node.children[k], id)
  }

  // ----- the child limit

  /** No node has more than the allowed children, and room is kept for the wildcard. */
  ghost predicate Bounded(s: Shape, node: Node) {
    && |node.children| <= s.maxChildren
    && (WILDCARD !in node.children ==> |node.children| <= s.maxChildren - 1)
    && forall k :: k in node.children ==> Bounded(s, node.children[k])
  }

  lemma {:induction false} AddKey(m: map<string, Node>, k: string, v: Node)
    ensures |m[k := v]| == if k in m then |m| else |m| + 1
  {
    if k in m {
      assert m[k := v].Keys == m.Keys;
    } else {
      assert m[k := v].Keys == m.Keys + {k};
    }
  }

  /** Inserting below a limit of at least one never misses the wildcard child and keeps the limit everywhere. */
  lemma {:induction false} InsertBounded(s: Shape, node: Node, path: Tokens, id: nat, live: set<nat>)
    requires s.maxChildren >= 1 && Bounded(s, node)
    ensures Insert(s, node, path, id, live).Some? && Bounded(s, Insert(s, node, path, id, live).value)
    decreases |path|
  {
    hide HasNumbers;
    if path == [] {
      var r := Insert(s, node, path, id, live).value;
      assert r.children == node.children;
    } else {
      var key := ChildFor(s, node, path[0]);
      assert Bounded(s, EMPTY_NODE);
      InsertBounded(s, Child(node, key.value), path[1..], id, live);
      var below := Insert(s, Child(node, key.value), path[1..], id, live).value;
      AddKey(node.children, key.value, below);
    }
  }

  /** Files a cluster under its token count; the empty message has a leaf of its own. */
  function Place(s: Shape, root: map<nat, Node>, tokens: Tokens, id: nat, live: set<nat>): Option<map<nat, Node>>
    requires s.maxNodeDepth >= 1
  {
    var first := if |tokens| in root then root[|tokens|] else EMPTY_NODE;
    if tokens == [] then Some(root[0 := first.(ids := [id])])
    else
      var r := Insert(s, first, PathOf(s, tokens), id, live);
      if r.None? then None else Some(root[|tokens| := r.value])
  }

  function IdsUpTo(n: nat): (ids: set<nat>)
    ensures forall x :: x in ids <==> 1 <= x <= n
  {
    if n == 0 then {} else IdsUpTo(n - 1) + {n}
  }

  /** The tree after these messages opened clusters 1, 2, 3 and so on. */
  function PlaceRun(s: Shape, messages: seq<Tokens>): Option<map<nat, Node>>
    requires s.maxNodeDepth >= 1
    decreases |messages|
  {
    if messages == [] then Some(map[])
    else
      var n := |messages| - 1;
      var before := PlaceRun(s, messages[..n]);
      if before.None? then None else Place(s, before.value, messages[n], n + 1, IdsUpTo(n))
  }

  ghost predicate RootBounded(s: Shape, root: map<nat, Node>) { forall n :: n in root ==> Bounded(s, root[n]) }

  lemma {:induction false} PlaceBounded(s: Shape, root: map<nat, Node>, tokens: Tokens, id: nat, live: set<nat>)
    requires s.maxNodeDepth >= 1 && s.maxChildren >= 1 && RootBounded(s, root)
    ensures Place(s, root, tokens, id, live).Some? && RootBounded(s, Place(s, root, tokens, id, live).value)
  {
    hide Insert, PathOf;
    assert Bounded(s, EMPTY_NODE);
    var first := if |tokens| in root then root[|tokens|] else EMPTY_NODE;
    if tokens != [] { InsertBounded(s, first, PathOf(s, tokens), id, live); }
  }

  lemma {:induction false} FlatRun(s: Shape, messages: seq<Tokens>)
    requires s.maxNodeDepth == 1
    ensures PlaceRun(s, messages).Some?
    decreases |messages|
  {
    if messages != [] { FlatRun(s, messages[..|messages| - 1]); }
  }

  /** Every node of every reachable tree below the root keeps the child limit. */
  lemma {:induction false} BoundedRun(s: Shape, messages: seq<Tokens>)
    requires s.maxNodeDepth >= 1 && s.maxChildren >= 1
    ensures PlaceRun(s, messages).Some? && RootBounded(s, PlaceRun(s, messages).value)
    decreases |messages|
  {
    hide Place, Bounded;
    if messages != [] {
      var n := |messages| - 1;
      BoundedRun(s, messages[..n]);
      PlaceBounded(s, PlaceRun(s, messages[..n]).value, messages[n], n + 1, IdsUpTo(n));
    }
  }

  /** No key of the tree holds a digit. */
  ghost predicate Wordy(node: Node) {
    forall k :: k in node.children ==> !HasNumbers(k) && Wordy(node.children[k])
  }

  lemma {:induction false} InsertWordy(s: Shape, node: Node, path: Tokens, id: nat, live: set<nat>)
    requires s.numericToWildcard && Wordy(node) && Insert(s, node, path, id, live).Some?
    ensures Wordy(Insert(s, node, path, id, live).value)
    decreases |path|
  {
    hide HasNumbers;
    if path != [] {
      NoDigits();
      assert Wordy(EMPTY_NODE);
      InsertWordy(s, Child(node, ChildFor(s, node, path[0]).value), path[1..], id, live);
    }
  }

  lemma {:induction false} NoDigits()
    ensures !HasNumbers(WILDCARD)
  {}

  /** When numeric tokens are generalised, no run of insertions ever files a message under a token with a digit. */
  lemma {:induction false} WordyRun(s: Shape, messages: seq<Tokens>)
    requires s.maxNodeDepth >= 1 && s.numericToWildcard && PlaceRun(s, messages).Some?
    ensures forall n :: n in PlaceRun(s, messages).value ==> Wordy(PlaceRun(s, messages).value[n])
    decreases |messages|
  {
    hide Insert, HasNumbers;
    if messages != [] {
      var n := |messages| - 1;
      WordyRun(s, messages[..n]);
      var root, m := PlaceRun(s, messages[..n]).value, messages[n];
      var first := if |m| in root then root[|m|] else EMPTY_NODE;
      assert Wordy(first);
      if m != [] { InsertWordy(s, first, PathOf(s, m), n + 1, IdsUpTo(n)); }
    }
  }

  /** While there is room, a token without digits gets a child of its own, and only then. */
  lemma {:induction false} OwnChild(s: Shape, node: Node, path: Tokens, id: nat, live: set<nat>)
    requires path != [] && path[0] != WILDCARD && Insert(s, node, path, id, live).Some?
    ensures path[0] in Insert(s, node, path, id, live).value.children
            <==> path[0] in node.children
                 || (!(s.numericToWildcard && HasNumbers(path[0]))
                     && |node.children| + (if WILDCARD in node.children then 0 else 1) < s.maxChildren)
  {
    hide HasNumbers;
  }

  lemma {:induction false} CrampedRun(s: Shape)
    requires s.maxNodeDepth > 1 && s.maxChildren < 1
    ensures PlaceRun(s, [["a", "b"]]).None?
  {
    var messages: seq<Tokens> := [["a", "b"]];
    assert messages[..0] == [] && PlaceRun(s, messages[..0]) == Some(map[]);
    assert PathOf(s, messages[0]) == ["a"];
    assert !HasNumbers("a");
  }

  /** No run of insertions misses the wildcard child if and only if at least one child is allowed or the tree has no
      token level at all. */
  lemma {:induction false} PlaceExactness(s: Shape)
    requires s.maxNodeDepth >= 1
    ensures (forall messages :: PlaceRun(s, messages).Some?) <==> s.maxChildren >= 1 || s.maxNodeDepth == 1
  {
    hide PlaceRun, Place;
    if s.maxChildren >= 1 {
      forall messages ensures PlaceRun(s, messages).Some? { BoundedRun(s, messages); }
    } else if s.maxNodeDepth == 1 {
      forall messages ensures PlaceRun(s, messages).Some? { FlatRun(s, messages); }
    } else {
      CrampedRun(s);
    }
  }

  // ----- a cluster stays where a search for its first message looks

  /** The id is at the end of the path, and no later insertion can divert the path: where it takes the wildcard, the
      token can no longer get a child of its own. */
  ghost predicate Held(s: Shape, node: Node, path: Tokens, id: nat)
    decreases |path|
  {
    if path == [] then id in node.ids
    else if path[0] in node.children then Held(s, node.children[path[0]], path[1..], id)
    else
      && WILDCARD in node.children
      && ((s.numericToWildcard && HasNumbers(path[0])) || |node.children| >= s.maxChildren)
      && Held(s, node.children[WILDCARD], path[1..], id)
  }

  lemma {:induction false} HeldIsFound(s: Shape, node: Node, path: Tokens, id: nat)
    requires Held(s, node, path, id)
    ensures Walk(node, path).Some? && id in Walk(node, path).value.ids
    decreases |path|
  {
    hide HasNumbers;
    if path != [] {
      HeldIsFound(s, node.children[if path[0] in node.children then path[0] else WILDCARD], path[1..], id);
    }
  }

  lemma {:induction false} FoundIsListed(node: Node, path: Tokens, id: nat)
    requires Walk(node, path).Some? && id in Walk(node, path).value.ids
    ensures Lists(node, id)
    decreases |path|
  {
    if path != [] {
      var k := if path[0] in node.children then path[0] else WILDCARD;
      FoundIsListed(node.children[k], path[1..], id);
    }
  }

  lemma {:induction false} InsertHolds(s: Shape, node: Node, path: Tokens, id: nat, live: set<nat>)
    requires Insert(s, node, path, id, live).Some?
    ensures Held(s, Insert(s, node, path, id, live).value, path, id)
    decreases |path|
  {
    WildcardHasNoNumbers();
    hide HasNumbers;
    if path != [] {
      var key := ChildFor(s, node, path[0]).value;
      InsertHolds(s, Child(node, key), path[1..], id, live);
      AddKey(node.children, key, Insert(s, Child(node, key), path[1..], id, live).value);
    }
  }

  lemma {:induction false} WildcardHasNoNumbers()
    ensures !HasNumbers(WILDCARD)
  {}

  /** A key that insertion adds for one token never takes the place of a wildcard another path relies on. */
  lemma {:induction false} PathNotDiverted(s: Shape, node: Node, token: string, other: string)
    requires ChildFor(s, node, token).Some? && other !in node.children && WILDCARD in node.children
    requires (s.numericToWildcard && HasNumbers(other)) || |node.children| >= s.maxChildren
    ensures ChildFor(s, node, token).value != other
  {
    hide HasNumbers;
  }

  lemma {:induction false} InsertKeepsHeld(s: Shape, node: Node, path: Tokens, id: nat, live: set<nat>, earlier: Tokens,
                                           earlierId: nat)
    requires |path| == |earlier| && earlierId in live && Held(s, node, earlier, earlierId)
    requires Insert(s, node, path, id, live).Some?
    ensures Held(s, Insert(s, node, path, id, live).value, earlier, earlierId)
    decreases |path|
  {
    hide HasNumbers;
    if path != [] {
      var key := ChildFor(s, node, path[0]).value;
      var below := Insert(s, Child(node, key), path[1..], id, live).value;
      AddKey(node.children, key, below);
      var way := if earlier[0] in node.children then earlier[0] else WILDCARD;
      if earlier[0] !in node.children { PathNotDiverted(s, node, path[0], earlier[0]); }
      if key == way {
        InsertKeepsHeld(s, Child(node, key), path[1..], id, live, earlier[1..], earlierId);
      }
    }
  }

  lemma {:induction false} InsertLists(s: Shape, node: Node, path: Tokens, id: nat, live: set<nat>, x: nat)
    requires Insert(s, node, path, id, live).Some? && Lists(Insert(s, node, path, id, live).value, x)
    ensures x == id || Lists(node, x)
    decreases |path|
  {
    hide HasNumbers, ChildFor;
    var r := Insert(s, node, path, id, live).value;
    if path == [] {
      assert r.children == node.children;
    } else if x !in node.ids {
      var key := ChildFor(s, node, path[0]).value;
      var k :| k in r.children && Lists(r.children[k], x);
      if k == key {
        InsertLists(s, Child(node, key), path[1..], id, live, x);
        assert x == id || key in node.children;
      }
    }
  }
}
