/**
 * The budget of a YAML document whose aliases share, or even contain, one another: an explicit-stack walk over the
 * shared graph, proved to accept exactly the documents whose full expansion is a tree of bounded size and depth.
 */
module NodeBudget {
  type Node(==, !new)

  const MAX_EXPANDED_NODES: nat := 500_000
  const MAX_NESTING: nat := 64

  /** A node with what it contains, every alias written out. */
  datatype Tree = Tree(node: Node, inside: seq<Tree>)

  /** The tree is the expansion of this node; a node that contains itself has none. */
  ghost predicate Expands(kids: Node -> seq<Node>, t: Tree, n: Node) {
    && t.node == n && |t.inside| == |kids(n)|
    && forall i :: 0 <= i < |t.inside| ==> Expands(kids, t.inside[i], kids(n)[i])
  }

  function Size(t: Tree): nat { 1 + Sizes(t.inside) }

  function Sizes(ts: seq<Tree>): nat {
    if ts == [] then 0 else Sizes(ts[..|ts| - 1]) + Size(ts[|ts| - 1])
  }

  ghost predicate Nested(t: Tree, levels: nat) {
    levels > 0 && forall i :: 0 <= i < |t.inside| ==> Nested(t.inside[i], levels - 1)
  }

  /** What the check is for: the document has an expansion, and it is neither too large nor too deep. */
  ghost predicate Affordable(kids: Node -> seq<Node>, root: Node) {
    exists t :: Expands(kids, t, root) && Size(t) <= MAX_EXPANDED_NODES && Nested(t, MAX_NESTING)
  }

  // --- the same, on the graph ----------------------------------------------------------------------------------

  predicate Shallow(kids: Node -> seq<Node>, n: Node, levels: nat) {
    levels > 0 && forall i :: 0 <= i < |kids(n)| ==> Shallow(kids, kids(n)[i], levels - 1)
  }

  /** The size of the expansion down to this many levels; below it, one value for each node. */
  function Weight(kids: Node -> seq<Node>, n: Node, levels: nat): (w: nat)
    ensures w > 0
    decreases levels, 0
  {
    if levels == 0 then 1 else 1 + Weights(kids, kids(n), levels - 1)
  }

  function Weights(kids: Node -> seq<Node>, ns: seq<Node>, levels: nat): nat
    decreases levels, |ns|
  {
    if ns == [] then 0 else Weights(kids, ns[..|ns| - 1], levels) + Weight(kids, ns[|ns| - 1], levels)
  }

  lemma {:induction false} ExpansionWeighs(kids: Node -> seq<Node>, t: Tree, n: Node, levels: nat)
    requires Expands(kids, t, n) && Nested(t, levels)
    ensures Shallow(kids, n, levels) && Weight(kids, n, levels) == Size(t)
    decreases levels, 0
  {
    forall i | 0 <= i < |kids(n)| ensures Shallow(kids, kids(n)[i], levels - 1) {
      ExpansionWeighs(kids, t.inside[i], kids(n)[i], levels - 1);
    }
    ExpansionsWeigh(kids, t.inside, kids(n), levels - 1);
  }

  lemma {:induction false} ExpansionsWeigh(kids: Node -> seq<Node>, ts: seq<Tree>, ns: seq<Node>, levels: nat)
    requires |ts| == |ns| && forall i :: 0 <= i < |ts| ==> Expands(kids, ts[i], ns[i]) && Nested(ts[i], levels)
    ensures Weights(kids, ns, levels) == Sizes(ts)
    decreases levels, |ts| + 1
  {
    hide Expands, Nested;
    if ts != [] {
      var last := |ts| - 1;
      ExpansionWeighs(kids, ts[last], ns[last], levels);
      ExpansionsWeigh(kids, ts[..last], ns[..last], levels);
    }
  }

  /** The expansion of a node that is shallow. */
  function Expansion(kids: Node -> seq<Node>, n: Node, levels: nat): Tree
    requires Shallow(kids, n, levels)
  {
    Tree(n, seq(|kids(n)|, i requires 0 <= i < |kids(n)| => Expansion(kids, kids(n)[i], levels - 1)))
  }

  lemma {:induction false} ShallowExpands(kids: Node -> seq<Node>, n: Node, levels: nat)
    requires Shallow(kids, n, levels)
    ensures Expands(kids, Expansion(kids, n, levels), n) && Nested(Expansion(kids, n, levels), levels)
  {
    forall i | 0 <= i < |kids(n)|
      ensures Expands(kids, Expansion(kids, n, levels).inside[i], kids(n)[i])
      ensures Nested(Expansion(kids, n, levels).inside[i], levels - 1)
    {
      ShallowExpands(kids, kids(n)[i], levels - 1);
    }
  }

  /** The two views agree. */
  lemma AffordableOnTheGraph(kids: Node -> seq<Node>, root: Node)
    ensures Affordable(kids, root)
       <==> Shallow(kids, root, MAX_NESTING) && Weight(kids, root, MAX_NESTING) <= MAX_EXPANDED_NODES
  {
    hide Expands, Nested, Size, Shallow, Weight;
    if Affordable(kids, root) {
      var t :| Expands(kids, t, root) && Size(t) <= MAX_EXPANDED_NODES && Nested(t, MAX_NESTING);
      ExpansionWeighs(kids, t, root, MAX_NESTING);
    }
    if Shallow(kids, root, MAX_NESTING) && Weight(kids, root, MAX_NESTING) <= MAX_EXPANDED_NODES {
      ShallowExpands(kids, root, MAX_NESTING);
      ExpansionWeighs(kids, Expansion(kids, root, MAX_NESTING), root, MAX_NESTING);
    }
  }

  // --- the walk --------------------------------------------------------------------------------------------------

  datatype Entry = Entry(node: Node, depth: nat)
  datatype Verdict = Fine | TooMany | TooDeep

  function Levels(e: Entry): nat { LevelsAt(e.depth) }

  function StackWeight(kids: Node -> seq<Node>, stack: seq<Entry>): nat {
    if stack == [] then 0
    else StackWeight(kids, stack[..|stack| - 1]) + Weight(kids, stack[|stack| - 1].node, Levels(stack[|stack| - 1]))
  }

  predicate AllShallow(kids: Node -> seq<Node>, stack: seq<Entry>) {
    forall k :: 0 <= k < |stack| ==> Shallow(kids, stack[k].node, Levels(stack[k]))
  }

  /** Entries for what a node contains, one level further down. */
  function Below(ns: seq<Node>, depth: nat): (entries: seq<Entry>)
    ensures |entries| == |ns| && forall k :: 0 <= k < |ns| ==> entries[k] == Entry(ns[k], depth)
  {
    seq(|ns|, k requires 0 <= k < |ns| => Entry(ns[k], depth))
  }

  function LevelsAt(depth: nat): nat { if depth > MAX_NESTING then 0 else MAX_NESTING + 1 - depth }

  lemma {:induction false} PushWeighs(kids: Node -> seq<Node>, stack: seq<Entry>, ns: seq<Node>, depth: nat)
    ensures StackWeight(kids, stack + Below(ns, depth))
         == StackWeight(kids, stack) + Weights(kids, ns, LevelsAt(depth))
  {
    hide Weight;
    var all := stack + Below(ns, depth);
    if ns == [] {
      assert all == stack;
    } else {
      var last := |ns| - 1;
      PushWeighs(kids, stack, ns[..last], depth);
      assert all[..|all| - 1] == stack + Below(ns[..last], depth) && all[|all| - 1] == Entry(ns[last], depth);
    }
  }

  /** Visiting an entry moves one value from the stack to the count, whether or not it is shared. */
  lemma VisitWeighs(kids: Node -> seq<Node>, front: seq<Entry>, e: Entry)
    requires 1 <= e.depth <= MAX_NESTING
    ensures var next := front + Below(kids(e.node), e.depth + 1);
      && StackWeight(kids, next) + 1 == StackWeight(kids, front + [e])
      && (AllShallow(kids, next) <==> AllShallow(kids, front + [e]))
  {
    var kin := Below(kids(e.node), e.depth + 1);
    var next, before := front + kin, front + [e];
    assert before[..|before| - 1] == front;
    PushWeighs(kids, front, kids(e.node), e.depth + 1);
    hide StackWeight, Weights;
    if AllShallow(kids, next) {
      forall i | 0 <= i < |kids(e.node)| ensures Shallow(kids, kids(e.node)[i], Levels(e) - 1) {
        assert next[|front| + i] == kin[i];
      }
      forall k | 0 <= k < |before| ensures Shallow(kids, before[k].node, Levels(before[k])) {
        assert k < |front| ==> before[k] == next[k];
      }
    }
    if AllShallow(kids, before) {
      assert before[|front|] == e;
      forall k | 0 <= k < |next| ensures Shallow(kids, next[k].node, Levels(next[k])) {
        assert k < |front| ==> next[k] == before[k];
      }
    }
  }

  /**
   * The walk. It always ends, and it accepts exactly the documents that are affordable. The count it keeps plus the
   * expansions still on the stack is at all times the expansion of the root.
   */
  method CheckNodeBudget(kids: Node -> seq<Node>, root: Node) returns (verdict: Verdict)
    ensures verdict == Fine <==> Affordable(kids, root)
    ensures verdict == TooDeep ==> !Shallow(kids, root, MAX_NESTING)
    ensures verdict == TooMany ==> Weight(kids, root, MAX_NESTING) > MAX_EXPANDED_NODES
  {
    AffordableOnTheGraph(kids, root);
    hide Affordable, Weight, Shallow, Below;
    var remaining: int := MAX_EXPANDED_NODES;
    var stack := [Entry(root, 1)];
    assert stack[..0] == [];
    assert StackWeight(kids, stack) == Weight(kids, root, MAX_NESTING);
    while stack != []
      invariant remaining >= 0
      invariant forall k :: 0 <= k < |stack| ==> stack[k].depth >= 1
      invariant MAX_EXPANDED_NODES - remaining + StackWeight(kids, stack) == Weight(kids, root, MAX_NESTING)
      invariant AllShallow(kids, stack) <==> Shallow(kids, root, MAX_NESTING)
      decreases remaining
    {
      var entry, front := stack[|stack| - 1], stack[..|stack| - 1];
      assert stack == front + [entry];
      stack := front;
      remaining := remaining - 1;
      if remaining < 0 {
        return TooMany;
      }
      if entry.depth > MAX_NESTING {
        NoLevelsLeft(kids, entry.node);
        return TooDeep;
      }
      stack := stack + Below(kids(entry.node), entry.depth + 1);
      VisitWeighs(kids, front, entry);
    }
    verdict := Fine;
  }

  lemma NoLevelsLeft(kids: Node -> seq<Node>, n: Node)
    ensures !Shallow(kids, n, 0)
  {
  }

  // --- documents that contain themselves ---------------------------------------------------------------------------

  ghost predicate Inside(kids: Node -> seq<Node>, path: seq<Node>) {
    path != [] && forall i :: 0 <= i < |path| - 1 ==> path[i + 1] in kids(path[i])
  }

  lemma {:induction false} ExpansionIsUnique(kids: Node -> seq<Node>, s: Tree, t: Tree, n: Node)
    requires Expands(kids, s, n) && Expands(kids, t, n)
    ensures s == t
  {
    forall i | 0 <= i < |s.inside| ensures s.inside[i] == t.inside[i] {
      ExpansionIsUnique(kids, s.inside[i], t.inside[i], kids(n)[i]);
    }
    assert s.inside == t.inside;
  }

  lemma {:induction false} PartIsSmaller(ts: seq<Tree>, i: nat)
    requires i < |ts|
    ensures Size(ts[i]) <= Sizes(ts)
  {
    if i < |ts| - 1 {
      PartIsSmaller(ts[..|ts| - 1], i);
    }
  }

  /** Going down a path, the expansion shrinks by at least one value a step. */
  lemma {:induction false} ExpansionAlong(kids: Node -> seq<Node>, t: Tree, path: seq<Node>) returns (part: Tree)
    requires Inside(kids, path) && Expands(kids, t, path[0])
    ensures Expands(kids, part, path[|path| - 1]) && Size(part) + |path| - 1 <= Size(t)
    decreases |path|
  {
    if |path| == 1 {
      part := t;
    } else {
      var i :| 0 <= i < |kids(path[0])| && kids(path[0])[i] == path[1];
      PartIsSmaller(t.inside, i);
      forall k | 0 <= k < |path[1..]| - 1 ensures path[1..][k + 1] in kids(path[1..][k]) {
        assert path[k + 1 + 1] in kids(path[k + 1]);
      }
      part := ExpansionAlong(kids, t.inside[i], path[1..]);
    }
  }

  /** A document in which a value contains itself through an alias is always refused. */
  lemma SelfContainingIsRefused(kids: Node -> seq<Node>, path: seq<Node>, i: nat)
    requires Inside(kids, path) && i < |path| - 1 && path[i] == path[|path| - 1]
    ensures !Affordable(kids, path[0])
  {
    if Affordable(kids, path[0]) {
      var t :| Expands(kids, t, path[0]) && Size(t) <= MAX_EXPANDED_NODES && Nested(t, MAX_NESTING);
      hide Expands, Nested, Size;
      var before, cycle := path[..i + 1], path[i..];
      assert Inside(kids, before);
      forall k | 0 <= k < |cycle| - 1 ensures cycle[k + 1] in kids(cycle[k]) {
        assert path[i + k + 1] in kids(path[i + k]);
      }
      var outer := ExpansionAlong(kids, t, before);
      var inner := ExpansionAlong(kids, outer, cycle);
      ExpansionIsUnique(kids, outer, inner, path[i]);
    }
  }
}
