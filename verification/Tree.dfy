/** Stacktraces folded into a tree of nodes with parent pointers (`newTree`). */
module Tree {
  import opened Sequences

  /** A stacktrace, innermost location first, with its value. */
  datatype Stack = Stack(locations: seq<string>, value: int)

  class Node {
    var parent: Node?
    var children: seq<Node>
    var self: int
    var total: int
    const name: string
    ghost const path: seq<string>   // the names from the root down to this node

    constructor (name: string, self: int, total: int, children: seq<Node>, ghost path: seq<string>)
      ensures this.name == name && this.self == self && this.total == total
      ensures this.children == children && this.parent == null && this.path == path
    {
      this.name := name;
      this.self := self;
      this.total := total;
      this.children := children;
      this.parent := null;
      this.path := path;
    }
  }

  // ----- the shape -----

  ghost predicate DistinctNames(ns: seq<Node>) {
    forall i, j :: 0 <= i < j < |ns| ==> ns[i].name != ns[j].name
  }

  /** Children and parent pointers agree, siblings have distinct names, and paths spell out
      the names on the way down. */
  ghost predicate Linked(roots: seq<Node>, nodes: set<Node>)
    reads nodes`parent, nodes`children
  {
    && DistinctNames(roots)
    && (forall r :: r in roots ==> r in nodes && r.parent == null)
    && (forall n :: n in nodes ==> HasChildren(n, nodes) && HasParent(n, roots, nodes))
  }

  ghost predicate HasChildren(n: Node, nodes: set<Node>)
    requires n in nodes
    reads nodes`parent, nodes`children
  {
    DistinctNames(n.children) && forall c :: c in n.children ==> c in nodes && c.parent == n
  }

  ghost predicate HasParent(n: Node, roots: seq<Node>, nodes: set<Node>)
    requires n in nodes
    reads nodes`parent, nodes`children
  {
    if n.parent == null then n in roots && n.path == [n.name]
    else n.parent in nodes && n in n.parent.children && n.path == n.parent.path + [n.name]
  }

  /** Distinct nodes have distinct paths. */
  lemma {:induction false} PathsAreUnique(roots: seq<Node>, nodes: set<Node>, m: Node, n: Node)
    requires Linked(roots, nodes) && m in nodes && n in nodes && m.path == n.path
    ensures m == n
    decreases |m.path|
  {
    if m.parent != null && n.parent != null {
      assert m.parent.path == m.path[..|m.path| - 1] && n.parent.path == n.path[..|n.path| - 1];
      PathsAreUnique(roots, nodes, m.parent, n.parent);
      assert m in m.parent.children && n in m.parent.children;
      assert m.name == n.name;
    } else if m.parent == null && n.parent == null {
      assert m.path[0] == n.path[0];
    } else {
      PathNotEmpty(roots, nodes, if m.parent == null then n.parent else m.parent);
    }
  }

  lemma PathNotEmpty(roots: seq<Node>, nodes: set<Node>, n: Node)
    requires Linked(roots, nodes) && n in nodes
    ensures |n.path| > 0 && n.path[|n.path| - 1] == n.name
  {
  }

  // ----- the totals -----

  ghost function Totals(nodes: set<Node>): map<Node, int>
    reads nodes`total
  {
    map n | n in nodes :: n.total
  }

  /** The sum of the given totals over a list of nodes. */
  ghost function SumBy(ns: seq<Node>, totals: map<Node, int>): int
  {
    if ns == [] then 0 else (if ns[0] in totals then totals[ns[0]] else 0) + SumBy(ns[1..], totals)
  }

  lemma {:induction false} SumByOther(ns: seq<Node>, totals: map<Node, int>, totals': map<Node, int>)
    requires forall n :: n in ns ==> n in totals && n in totals' && totals[n] == totals'[n]
    ensures SumBy(ns, totals) == SumBy(ns, totals')
  {
    if ns != [] {
      SumByOther(ns[1..], totals, totals');
    }
  }

  lemma {:induction false} SumByChanged(ns: seq<Node>, totals: map<Node, int>, p: Node, delta: int)
    requires (forall n :: n in ns ==> n in totals) && p in ns && DistinctNames(ns)
    ensures SumBy(ns, totals[p := totals[p] + delta]) == SumBy(ns, totals) + delta
  {
    var totals' := totals[p := totals[p] + delta];
    if ns[0] == p {
      assert p !in ns[1..];
      SumByOther(ns[1..], totals, totals');
    } else {
      SumByChanged(ns[1..], totals, p, delta);
    }
  }

  lemma {:induction false} SumByAppend(ns: seq<Node>, n: Node, totals: map<Node, int>)
    requires n in totals
    ensures SumBy(ns + [n], totals) == SumBy(ns, totals) + totals[n]
  {
    if ns == [] {
      assert ns + [n] == [n];
    } else {
      assert (ns + [n])[0] == ns[0] && (ns + [n])[1..] == ns[1..] + [n];
      SumByAppend(ns[1..], n, totals);
    }
  }

  /** The total of a node is its own value plus the totals of its children, up to `missing`. */
  ghost predicate Balanced(n: Node, missing: int, totals: map<Node, int>)
    reads n`self, n`children
  {
    n in totals && totals[n] + missing == n.self + SumBy(n.children, totals)
  }

  /** All nodes are balanced, except that `p`, if any, misses `delta`. */
  ghost predicate BalancedBut(p: Node?, delta: int, nodes: set<Node>, totals: map<Node, int>)
    reads nodes`children, nodes`self
  {
    forall n :: n in nodes ==> Balanced(n, if n == p then delta else 0, totals)
  }

  /** Adding the difference to `p` moves it to the parent. */
  lemma MoveUp(p: Node, delta: int, roots: seq<Node>, nodes: set<Node>, totals: map<Node, int>)
    requires Linked(roots, nodes) && totals.Keys == nodes && p in nodes
    requires BalancedBut(p, delta, nodes, totals)
    ensures BalancedBut(p.parent, delta, nodes, totals[p := totals[p] + delta])
  {
    var totals' := totals[p := totals[p] + delta];
    assert p.parent != null ==> |p.path| == |p.parent.path| + 1;
    forall n | n in nodes
      ensures Balanced(n, if n == p.parent then delta else 0, totals')
    {
      assert Balanced(n, if n == p then delta else 0, totals);
      if n == p.parent {
        SumByChanged(n.children, totals, p, delta);
      } else {
        SumByOther(n.children, totals, totals');
      }
    }
  }

  /** Adds `delta` to the totals from `start` up to the root. */
  method AddToAncestors(start: Node?, delta: int, ghost roots: seq<Node>, ghost nodes: set<Node>)
    requires Linked(roots, nodes) && (start != null ==> start in nodes) && BalancedBut(start, delta, nodes, Totals(nodes))
    modifies nodes`total
    ensures BalancedBut(null, 0, nodes, Totals(nodes))
  {
    hide Balanced, SumBy, BalancedBut, Linked;
    var p := start;
    while p != null
      invariant p != null ==> p in nodes
      invariant BalancedBut(p, delta, nodes, Totals(nodes))
      decreases if p == null then 0 else 1 + |p.path|
    {
      ghost var before := Totals(nodes);
      MoveUp(p, delta, roots, nodes, before);
      if p.parent != null {
        ParentInside(roots, nodes, p);
      }
      p.total := p.total + delta;
      assert Totals(nodes) == before[p := before[p] + delta];
      p := p.parent;
    }
    NoneMissing(delta, nodes, Totals(nodes));
  }

  lemma ParentInside(roots: seq<Node>, nodes: set<Node>, n: Node)
    requires Linked(roots, nodes) && n in nodes && n.parent != null
    ensures n.parent in nodes && |n.parent.path| < |n.path|
  {
  }

  lemma NoneMissing(delta: int, nodes: set<Node>, totals: map<Node, int>)
    requires BalancedBut(null, delta, nodes, totals)
    ensures BalancedBut(null, 0, nodes, totals)
  {
  }

  // ----- one stack as a tree -----

  /** A chain of nodes for the path `names`, from level `top` down: each node is the only
      child of the one above, and the last one holds the value. */
  ghost predicate IsChain(chain: seq<Node>, names: seq<string>, top: nat, value: int)
    reads chain
  {
    && top + |chain| == |names|
    && forall i :: 0 <= i < |chain| ==> IsLink(chain, names, top, value, i)
  }

  ghost predicate IsLink(chain: seq<Node>, names: seq<string>, top: nat, value: int, i: nat)
    requires top + |chain| == |names| && i < |chain|
    reads chain[i]
  {
    var n := chain[i];
    && n.name == names[top + i] && n.path == names[..top + i + 1]
    && n.total == value && n.self == (if i == |chain| - 1 then value else 0)
    && n.children == (if i == |chain| - 1 then [] else [chain[i + 1]])
    && n.parent == (if i == 0 then null else chain[i - 1])
  }

  /** Puts a parent on top of a chain. */
  method AddParent(current: Node, location: string, ghost chain: seq<Node>, ghost names: seq<string>, ghost top: nat, ghost value: int)
    returns (parent: Node)
    requires chain != [] && chain[0] == current && top > 0 && IsChain(chain, names, top, value)
    requires location == names[top - 1]
    modifies current`parent
    ensures fresh(parent) && IsChain([parent] + chain, names, top - 1, value)
  {
    forall i | 0 < i < |chain|
      ensures chain[i] != current && IsLink(chain, names, top, value, i)
    {
      assert IsLink(chain, names, top, value, i) && IsLink(chain, names, top, value, 0);
      assert |chain[i].path| == top + i + 1;
    }
    assert IsLink(chain, names, top, value, 0);
    parent := new Node(location, 0, current.total, [current], names[..top]);
    current.parent := parent;
    assert forall i :: 0 < i < |chain| ==> IsLink(chain, names, top, value, i);
    LongerChain(parent, current, chain, names, top, value);
  }

  lemma LongerChain(parent: Node, current: Node, chain: seq<Node>, names: seq<string>, top: nat, value: int)
    requires chain != [] && chain[0] == current && top > 0 && top + |chain| == |names|
    requires forall i :: 0 < i < |chain| ==> IsLink(chain, names, top, value, i)
    requires parent.name == names[top - 1] && parent.path == names[..top] && parent.self == 0 && parent.total == value
    requires parent.children == [current] && parent.parent == null
    requires current.name == names[top] && current.path == names[..top + 1] && current.total == value && current.parent == parent
    requires current.self == (if |chain| == 1 then value else 0) && current.children == (if |chain| == 1 then [] else [chain[1]])
    ensures IsChain([parent] + chain, names, top - 1, value)
  {
    var longer := [parent] + chain;
    assert longer[0] == parent && longer[1] == current;
    assert |chain| > 1 ==> longer[2] == chain[1];
    var top' := top - 1;
    assert IsLink(longer, names, top', value, 0);
    assert IsLink(longer, names, top', value, 1);
    forall i | 1 < i < |longer|
      ensures IsLink(longer, names, top', value, i)
    {
      ShiftedLink(parent, chain, names, top, value, i);
    }
  }

  lemma ShiftedLink(parent: Node, chain: seq<Node>, names: seq<string>, top: nat, value: int, i: nat)
    requires top > 0 && top + |chain| == |names| && 1 < i <= |chain|
    requires IsLink(chain, names, top, value, i - 1)
    ensures IsLink([parent] + chain, names, top - 1, value, i)
  {
    var longer := [parent] + chain;
    var n := chain[i - 1];
    assert longer[i] == n && longer[i - 1] == chain[i - 2];
    assert i < |chain| ==> longer[i + 1] == chain[i];
  }

  method StackToTree(stack: Stack) returns (root: seq<Node>, ghost chain: seq<Node>)
    ensures stack.locations == [] ==> root == [] == chain
    ensures stack.locations != [] ==> chain != [] && root == [chain[0]]
    ensures IsChain(chain, Reverse(stack.locations), 0, stack.value)
    ensures fresh(NodesFrom(chain, 0))
  {
    hide IsChain;
    if |stack.locations| == 0 {
      NoChain(stack.value);
      return [], [];
    }
    ghost var names := Reverse(stack.locations);
    var current := new Node(stack.locations[0], stack.value, stack.value, [], names);
    chain := [current];
    OneNodeChain(current, names, stack.value);
    var remaining := stack.locations[1..];
    while |remaining| > 0
      invariant |chain| + |remaining| == |names| && remaining == stack.locations[|chain|..]
      invariant chain != [] && current == chain[0] && fresh(current)
      invariant IsChain(chain, names, |remaining|, stack.value)
      invariant fresh(NodesFrom(chain, 0))
      decreases |remaining|
    {
      var parent := AddParent(current, remaining[0], chain, names, |remaining|, stack.value);
      remaining := remaining[1..];
      assert NodesFrom([parent] + chain, 0) == {parent} + NodesFrom(chain, 0) by {
        assert ([parent] + chain)[0..] == [parent] + chain[0..];
      }
      chain := [parent] + chain;
      current := parent;
    }
    root := [current];
  }

  lemma NoChain(value: int)
    ensures IsChain([], [], 0, value)
  {
  }

  lemma OneNodeChain(n: Node, names: seq<string>, value: int)
    requires names != [] && n.name == names[|names| - 1] && n.path == names
    requires n.total == n.self == value && n.children == [] && n.parent == null
    ensures IsChain([n], names, |names| - 1, value)
  {
    assert names[..|names|] == names;
  }

  // ----- merging -----

  /** The nodes in which the child of `parent` with a given name is looked up. */
  ghost function Siblings(roots: seq<Node>, parent: Node?): seq<Node>
    reads parent
  {
    if parent == null then roots else parent.children
  }

  /** `parent` is the node for the first `depth` names, or stands for the roots. */
  ghost predicate AtDepth(nodes: set<Node>, parent: Node?, names: seq<string>, depth: nat)
  {
    && depth <= |names|
    && (if parent == null then depth == 0 else depth > 0 && parent in nodes && parent.path == names[..depth])
  }

  /** Walks down to the node for the path of the chain, or to the last node on the way. */
  method FindNodeOrParent(roots: seq<Node>, ghost nodes: set<Node>, ghost chain: seq<Node>, new_: Node,
                          ghost names: seq<string>, ghost value: int)
    returns (parent: Node?, found: Node?, toMerge: Node, ghost depth: nat)
    requires Linked(roots, nodes) && IsChain(chain, names, 0, value) && chain != [] && new_ == chain[0]
    ensures found != null ==> found in nodes && found.path == names && toMerge == chain[|chain| - 1] && parent == found.parent
    ensures found == null ==>
      && AtDepth(nodes, parent, names, depth) && depth < |names| && toMerge == chain[depth]
      && forall n :: n in Siblings(roots, parent) ==> n.name != names[depth]
  {
    hide Linked, IsChain, AtDepth;
    ChainLength(chain, names, value);
    StartsAtRoots(nodes, names);
    var current := new_;
    var lastParent: Node? := null;
    var remaining := roots;
    depth := 0;
    ghost var seen := 0;
    while |remaining| > 0
      invariant AtDepth(nodes, lastParent, names, depth) && depth < |names| && current == chain[depth]
      invariant 0 <= seen <= |Siblings(roots, lastParent)| && remaining == Siblings(roots, lastParent)[seen..]
      invariant forall i :: 0 <= i < seen ==> Siblings(roots, lastParent)[i].name != names[depth]
      decreases |names| - depth, |remaining|
    {
      var n := remaining[0];
      assert n in Siblings(roots, lastParent);
      remaining := remaining[1..];
      seen := seen + 1;
      ChainNode(chain, names, value, depth);
      if n.name == current.name {
        ChildPath(roots, nodes, lastParent, names, depth, n);
        if |current.children| == 0 {
          assert names[..|names|] == names;
          return lastParent, n, current, depth;
        }
        lastParent := n;
        remaining := n.children;
        current := current.children[0];
        depth := depth + 1;
        seen := 0;
      }
    }
    return lastParent, null, current, depth;
  }

  lemma ChildPath(roots: seq<Node>, nodes: set<Node>, parent: Node?, names: seq<string>, depth: nat, n: Node)
    requires Linked(roots, nodes) && AtDepth(nodes, parent, names, depth) && depth < |names|
    requires n in Siblings(roots, parent) && n.name == names[depth]
    ensures n in nodes && n.path == names[..depth + 1] && n.parent == parent
    ensures AtDepth(nodes, n, names, depth + 1)
  {
    assert names[..depth + 1] == names[..depth] + [names[depth]];
  }

  lemma ChainLength(chain: seq<Node>, names: seq<string>, value: int)
    requires IsChain(chain, names, 0, value)
    ensures |chain| == |names|
  {
  }

  lemma StartsAtRoots(nodes: set<Node>, names: seq<string>)
    ensures AtDepth(nodes, null, names, 0)
  {
  }

  lemma ChainNode(chain: seq<Node>, names: seq<string>, value: int, i: nat)
    requires IsChain(chain, names, 0, value) && i < |chain|
    ensures |chain| == |names| && chain[i].name == names[i] && chain[i].path == names[..i + 1] && chain[i].total == value
    ensures chain[i].self == if i == |chain| - 1 then value else 0
    ensures chain[i].children == if i == |chain| - 1 then [] else [chain[i + 1]]
    ensures chain[i].parent == if i == 0 then null else chain[i - 1]
  {
    assert IsLink(chain, names, 0, value, i);
  }

  /** Adds `value` to a node and to the totals above it. */
  method AddValue(found: Node, value: int, ghost roots: seq<Node>, ghost nodes: set<Node>)
    requires Linked(roots, nodes) && BalancedBut(null, 0, nodes, Totals(nodes)) && found in nodes
    modifies nodes`total, found`self
    ensures BalancedBut(null, 0, nodes, Totals(nodes))
    ensures found.self == old(found.self) + value
  {
    hide Linked, SumBy;
    ghost var before := Totals(nodes);
    found.self := found.self + value;
    forall n | n in nodes
      ensures Balanced(n, if n == found then value else 0, before)
    {
      assert old(Balanced(n, 0, before));
    }
    MoveUp(found, value, roots, nodes, before);
    if found.parent != null {
      ParentInside(roots, nodes, found);
    }
    hide BalancedBut, Balanced;
    found.total := found.total + value;
    assert Totals(nodes) == before[found := before[found] + value];
    AddToAncestors(found.parent, value, roots, nodes);
  }

  ghost function NodesFrom(chain: seq<Node>, depth: nat): set<Node>
    requires depth <= |chain|
  {
    set n | n in chain[depth..]
  }

  /** The nodes of the chain from `depth` on, hung below `parent`. */
  ghost predicate Hung(chain: seq<Node>, names: seq<string>, depth: nat, parent: Node?, i: nat)
    requires |chain| == |names| && i < |chain|
    reads chain[i]
  {
    && chain[i].path == names[..i + 1] && chain[i].name == names[i]
    && chain[i].children == (if i == |chain| - 1 then [] else [chain[i + 1]])
    && chain[i].parent == (if i == depth then parent else if i == 0 then null else chain[i - 1])
  }

  lemma HungIsLinked(chain: seq<Node>, names: seq<string>, depth: nat, parent: Node?, roots: seq<Node>, nodes: set<Node>, i: nat)
    requires |chain| == |names| && depth <= i < |chain| && AtDepth(nodes, parent, names, depth)
    requires forall k :: depth <= k < |chain| ==> Hung(chain, names, depth, parent, k)
    requires forall k :: depth <= k < |chain| ==> chain[k] in nodes
    requires if parent == null then chain[depth] in roots else chain[depth] in parent.children
    ensures HasChildren(chain[i], nodes) && HasParent(chain[i], roots, nodes)
  {
    assert Hung(chain, names, depth, parent, i);
    assert i + 1 < |chain| ==> Hung(chain, names, depth, parent, i + 1);
    assert i > depth ==> Hung(chain, names, depth, parent, i - 1);
    assert names[..i + 1] == names[..i] + [names[i]];
  }

  lemma ChainIsApart(chain: seq<Node>, names: seq<string>, value: int, i: nat, j: nat)
    requires IsChain(chain, names, 0, value) && i < |chain| && j < |chain| && i != j
    ensures chain[i] != chain[j]
  {
    ChainNode(chain, names, value, i);
    ChainNode(chain, names, value, j);
    assert |chain[i].path| == i + 1 && |chain[j].path| == j + 1;
  }

  /** Hangs the rest of the chain below `parent`, or makes it a root. */
  method Attach(parent: Node?, toMerge: Node, roots: seq<Node>, ghost nodes: set<Node>, ghost chain: seq<Node>,
                ghost names: seq<string>, ghost value: int, ghost depth: nat) returns (roots': seq<Node>)
    requires Linked(roots, nodes) && AtDepth(nodes, parent, names, depth) && depth < |chain|
    requires IsChain(chain, names, 0, value) && toMerge == chain[depth]
    requires forall n :: n in chain ==> n !in nodes
    requires forall n :: n in Siblings(roots, parent) ==> n.name != names[depth]
    modifies toMerge`parent, (if parent == null then {} else {parent})`children
    ensures Linked(roots', nodes + NodesFrom(chain, depth))
    ensures parent == null ==> roots' == roots + [toMerge]
    ensures parent != null ==> roots' == roots && parent.children == old(parent.children) + [toMerge]
    ensures toMerge.parent == parent && forall m :: m in nodes && m != parent ==> m.children == old(m.children)
  {
    hide Linked, IsChain, Hung, HasChildren, HasParent, DistinctNames, WasLinked;
    ghost var nodes' := nodes + NodesFrom(chain, depth);
    ChainPrepared(chain, names, value, depth, parent, nodes);
    LinkedNodes(roots, nodes);
    ghost var was := Children(nodes);
    if parent == null {
      roots' := roots + [toMerge];
      StillDistinct(roots, toMerge);
    } else {
      roots' := roots;
      parent.children := parent.children + [toMerge];
    }
    toMerge.parent := parent;
    OldNodesLinked(parent, toMerge, roots, roots', nodes, nodes', was);
    HungNode(chain, names, depth, parent);
    ChainLinked(chain, names, depth, parent, roots', nodes');
    MakeLinked(roots', nodes');
  }

  lemma StillDistinct(ns: seq<Node>, n: Node)
    requires DistinctNames(ns) && forall m :: m in ns ==> m.name != n.name
    ensures DistinctNames(ns + [n])
  {
  }

  lemma HungNode(chain: seq<Node>, names: seq<string>, depth: nat, parent: Node?)
    requires |chain| == |names| && depth < |chain|
    requires chain[depth].path == names[..depth + 1] && chain[depth].name == names[depth] && chain[depth].parent == parent
    requires chain[depth].children == if depth == |chain| - 1 then [] else [chain[depth + 1]]
    ensures Hung(chain, names, depth, parent, depth)
  {
  }

  /** What the rest of the chain looks like before it is hung. */
  lemma ChainPrepared(chain: seq<Node>, names: seq<string>, value: int, depth: nat, parent: Node?, nodes: set<Node>)
    requires IsChain(chain, names, 0, value) && depth < |chain| && forall n :: n in chain ==> n !in nodes
    ensures |chain| == |names|
    ensures chain[depth].path == names[..depth + 1] && chain[depth].name == names[depth]
    ensures chain[depth].children == if depth == |chain| - 1 then [] else [chain[depth + 1]]
    ensures forall i :: depth < i < |chain| ==> Hung(chain, names, depth, parent, i)
    ensures forall i :: depth < i < |chain| ==> chain[i] != chain[depth]
    ensures forall i :: depth <= i < |chain| ==> chain[i] in NodesFrom(chain, depth) && chain[i] !in nodes
  {
    hide IsChain;
    ChainNode(chain, names, value, depth);
    forall i | depth <= i < |chain|
      ensures i != depth ==> chain[i] != chain[depth] && Hung(chain, names, depth, parent, i)
      ensures chain[i] in NodesFrom(chain, depth) && chain[i] !in nodes
    {
      ChainNode(chain, names, value, i);
      if i != depth {
        ChainIsApart(chain, names, value, i, depth);
      }
      assert chain[depth..][i - depth] == chain[i];
    }
  }

  lemma ChainLinked(chain: seq<Node>, names: seq<string>, depth: nat, parent: Node?, roots: seq<Node>, nodes: set<Node>)
    requires |chain| == |names| && depth < |chain| && AtDepth(nodes, parent, names, depth)
    requires forall k :: depth <= k < |chain| ==> Hung(chain, names, depth, parent, k)
    requires forall k :: depth <= k < |chain| ==> chain[k] in nodes
    requires if parent == null then chain[depth] in roots else chain[depth] in parent.children
    ensures forall n :: n in NodesFrom(chain, depth) ==> n in nodes && HasChildren(n, nodes) && HasParent(n, roots, nodes)
  {
    forall n | n in NodesFrom(chain, depth)
      ensures n in nodes && HasChildren(n, nodes) && HasParent(n, roots, nodes)
    {
      var i :| depth <= i < |chain| && chain[i] == n;
      HungIsLinked(chain, names, depth, parent, roots, nodes, i);
    }
  }

  ghost function Children(nodes: set<Node>): map<Node, seq<Node>>
    reads nodes`children
  {
    map n | n in nodes :: n.children
  }

  /** The place of a node, given the children that all nodes had. */
  ghost predicate WasLinked(n: Node, roots: seq<Node>, nodes: set<Node>, was: map<Node, seq<Node>>)
    requires n in nodes && was.Keys == nodes
    reads nodes`parent
  {
    && DistinctNames(was[n]) && (forall c :: c in was[n] ==> c in nodes && c.parent == n)
    && (if n.parent == null then n in roots && n.path == [n.name]
        else n.parent in nodes && n in was[n.parent] && n.path == n.parent.path + [n.name])
  }

  lemma OldNodesLinked(parent: Node?, toMerge: Node, roots: seq<Node>, roots': seq<Node>, nodes: set<Node>,
                       nodes': set<Node>, was: map<Node, seq<Node>>)
    requires nodes <= nodes' && toMerge in nodes' && toMerge !in nodes && was.Keys == nodes
    requires forall n :: n in nodes ==> WasLinked(n, roots, nodes, was)
    requires forall r :: r in roots ==> r in roots'
    requires forall m :: m in nodes && m != parent ==> m.children == was[m]
    requires parent != null ==> parent in nodes && parent.children == was[parent] + [toMerge]
    requires toMerge.parent == parent
    requires parent != null ==> forall c :: c in was[parent] ==> c.name != toMerge.name
    ensures forall n :: n in nodes ==> HasChildren(n, nodes') && HasParent(n, roots', nodes')
  {
    forall n | n in nodes
      ensures HasChildren(n, nodes') && HasParent(n, roots', nodes')
    {
      StillLinked(parent, toMerge, roots, roots', nodes, nodes', was, n);
    }
  }

  lemma LinkedNodes(roots: seq<Node>, nodes: set<Node>)
    requires Linked(roots, nodes)
    ensures DistinctNames(roots) && forall r :: r in roots ==> r in nodes && r.parent == null
    ensures forall n :: n in nodes ==> WasLinked(n, roots, nodes, Children(nodes))
  {
    forall n | n in nodes ensures WasLinked(n, roots, nodes, Children(nodes)) {
      assert HasChildren(n, nodes) && HasParent(n, roots, nodes);
    }
  }

  lemma MakeLinked(roots: seq<Node>, nodes: set<Node>)
    requires DistinctNames(roots) && forall r :: r in roots ==> r in nodes && r.parent == null
    requires forall n :: n in nodes ==> HasChildren(n, nodes) && HasParent(n, roots, nodes)
    ensures Linked(roots, nodes)
  {
  }

  /** A node that was there before keeps its place when `toMerge` is hung below `parent`. */
  lemma StillLinked(parent: Node?, toMerge: Node, roots: seq<Node>, roots': seq<Node>, nodes: set<Node>,
                    nodes': set<Node>, was: map<Node, seq<Node>>, n: Node)
    requires n in nodes && nodes <= nodes' && toMerge in nodes' && toMerge !in nodes && was.Keys == nodes
    requires WasLinked(n, roots, nodes, was)
    requires forall r :: r in roots ==> r in roots'
    requires forall m :: m in nodes && m != parent ==> m.children == was[m]
    requires parent != null ==> parent in nodes && parent.children == was[parent] + [toMerge]
    requires toMerge.parent == parent
    requires n == parent ==> forall c :: c in was[n] ==> c.name != toMerge.name
    ensures HasChildren(n, nodes') && HasParent(n, roots', nodes')
  {
  }

  /** The balance of a node, given its children at some time. */
  ghost predicate WasBalanced(n: Node, was: map<Node, seq<Node>>, totals: map<Node, int>)
    requires n in was
    reads n`self
  {
    && n in totals && totals[n] == n.self + SumBy(was[n], totals)
    && forall c :: c in was[n] ==> c in totals
  }

  /** Nodes with their totals, balanced with the children they had. */
  ghost predicate AllWere(nodes: set<Node>, was: map<Node, seq<Node>>, before: map<Node, int>)
    reads nodes`self, nodes`total
  {
    && was.Keys == nodes == before.Keys
    && forall n :: n in nodes ==> WasBalanced(n, was, before) && n.total == before[n]
  }

  lemma BalancedBefore(roots: seq<Node>, nodes: set<Node>)
    requires Linked(roots, nodes) && BalancedBut(null, 0, nodes, Totals(nodes))
    ensures forall n :: n in nodes ==> WasBalanced(n, Children(nodes), Totals(nodes))
  {
    forall n | n in nodes ensures WasBalanced(n, Children(nodes), Totals(nodes)) {
      assert Balanced(n, 0, Totals(nodes)) && HasChildren(n, nodes);
    }
  }

  /** After hanging the chain, only `parent` misses its value. */
  lemma AttachedIsBalanced(parent: Node?, toMerge: Node, nodes: set<Node>, chain: seq<Node>, value: int, depth: nat,
                           was: map<Node, seq<Node>>, before: map<Node, int>)
    requires depth < |chain| && toMerge == chain[depth] && was.Keys == nodes
    requires forall n :: n in chain ==> n !in nodes
    requires AllWere(nodes, was, before)
    requires forall m :: m in nodes && m != parent ==> m.children == was[m]
    requires parent != null ==> parent in nodes && parent.children == was[parent] + [toMerge]
    requires ChainBalanced(chain, value)
    ensures var nodes' := nodes + NodesFrom(chain, depth);
            BalancedBut(parent, value, nodes', Totals(nodes'))
  {
    var nodes' := nodes + NodesFrom(chain, depth);
    var now := Totals(nodes');
    assert forall i :: depth <= i < |chain| ==> chain[i] in nodes' by {
      assert forall i :: depth <= i < |chain| ==> chain[depth..][i - depth] == chain[i];
    }
    forall n | n in nodes
      ensures Balanced(n, if n == parent then value else 0, now)
    {
      assert WasBalanced(n, was, before);
      SumByOther(was[n], before, now);
      if n == parent {
        assert ChainBalance(chain, value, depth);
        SumByAppend(was[n], toMerge, now);
      }
    }
    forall n | n in NodesFrom(chain, depth)
      ensures Balanced(n, if n == parent then value else 0, now)
    {
      var i :| depth <= i < |chain| && chain[i] == n;
      assert ChainBalance(chain, value, i);
      if i < |chain| - 1 {
        assert ChainBalance(chain, value, i + 1);
        assert n.children == [] + [chain[i + 1]];
        SumByAppend([], chain[i + 1], now);
      }
    }
  }

  lemma Snapshots(roots: seq<Node>, nodes: set<Node>)
    requires Linked(roots, nodes) && BalancedBut(null, 0, nodes, Totals(nodes))
    ensures Children(nodes).Keys == nodes && AllWere(nodes, Children(nodes), Totals(nodes))
    ensures forall n :: n in nodes ==> Children(nodes)[n] == n.children
  {
    BalancedBefore(roots, nodes);
  }

  lemma AllChainBalances(chain: seq<Node>, names: seq<string>, value: int)
    requires IsChain(chain, names, 0, value)
    ensures ChainBalanced(chain, value)
  {
    ChainBalances(chain, names, value);
  }

  lemma ParentThere(nodes: set<Node>, parent: Node?, names: seq<string>, depth: nat)
    requires AtDepth(nodes, parent, names, depth)
    ensures parent != null ==> parent in nodes
  {
  }

  /** Hangs the rest of the chain, which leaves the other nodes as they were. */
  method AttachNext(parent: Node?, toMerge: Node, roots: seq<Node>, ghost nodes: set<Node>, ghost chain: seq<Node>,
                    ghost names: seq<string>, ghost value: int, ghost depth: nat, ghost was: map<Node, seq<Node>>,
                    ghost before: map<Node, int>)
    returns (roots': seq<Node>)
    requires Linked(roots, nodes) && AtDepth(nodes, parent, names, depth) && depth < |chain|
    requires IsChain(chain, names, 0, value) && toMerge == chain[depth]
    requires (forall n :: n in chain ==> n !in nodes) && forall n :: n in Siblings(roots, parent) ==> n.name != names[depth]
    requires AllWere(nodes, was, before) && was.Keys == nodes && forall n :: n in nodes ==> was[n] == n.children
    modifies toMerge`parent, (if parent == null then {} else {parent})`children
    ensures Linked(roots', nodes + NodesFrom(chain, depth))
    ensures AllWere(nodes, was, before) && ChainBalanced(chain, value)
    ensures forall m :: m in nodes && m != parent ==> m.children == was[m]
    ensures parent != null ==> parent in nodes && parent.children == was[parent] + [toMerge]
  {
    ParentThere(nodes, parent, names, depth);
    ChainLength(chain, names, value);
    AllChainBalances(chain, names, value);
    hide *;
    assert parent != null ==> parent !in chain;
    roots' := Attach(parent, toMerge, roots, nodes, chain, names, value, depth);
  }

  /** Hangs the rest of the chain; what its nodes add is then missing in `parent` alone. */
  method AttachBalanced(parent: Node?, toMerge: Node, roots: seq<Node>, ghost nodes: set<Node>, ghost nodes': set<Node>,
                        ghost chain: seq<Node>, ghost names: seq<string>, ghost value: int, ghost depth: nat) returns (roots': seq<Node>)
    requires Linked(roots, nodes) && BalancedBut(null, 0, nodes, Totals(nodes))
    requires AtDepth(nodes, parent, names, depth) && depth < |chain|
    requires IsChain(chain, names, 0, value) && toMerge == chain[depth]
    requires (forall n :: n in chain ==> n !in nodes) && nodes' == nodes + NodesFrom(chain, depth)
    requires forall n :: n in Siblings(roots, parent) ==> n.name != names[depth]
    modifies toMerge`parent, (if parent == null then {} else {parent})`children
    ensures Linked(roots', nodes') && BalancedBut(parent, value, nodes', Totals(nodes'))
  {
    hide *;
    Snapshots(roots, nodes);
    ghost var was, before := Children(nodes), Totals(nodes);
    roots' := AttachNext(parent, toMerge, roots, nodes, chain, names, value, depth, was, before);
    AttachedIsBalanced(parent, toMerge, nodes, chain, value, depth, was, before);
  }

  /** The same, and the value added from `parent` up to the root. */
  method AttachAndAdd(parent: Node?, toMerge: Node, roots: seq<Node>, ghost nodes: set<Node>, ghost nodes': set<Node>,
                      ghost chain: seq<Node>, ghost names: seq<string>, value: int, ghost depth: nat) returns (roots': seq<Node>)
    requires Linked(roots, nodes) && BalancedBut(null, 0, nodes, Totals(nodes))
    requires AtDepth(nodes, parent, names, depth) && depth < |chain|
    requires IsChain(chain, names, 0, value) && toMerge == chain[depth]
    requires (forall n :: n in chain ==> n !in nodes) && nodes' == nodes + NodesFrom(chain, depth)
    requires forall n :: n in Siblings(roots, parent) ==> n.name != names[depth]
    modifies toMerge`parent, nodes`children, nodes'`total
    ensures Linked(roots', nodes') && BalancedBut(null, 0, nodes', Totals(nodes'))
  {
    assert parent != null ==> parent in nodes;
    hide Linked, BalancedBut, IsChain, AtDepth, NodesFrom, Totals;
    roots' := AttachBalanced(parent, toMerge, roots, nodes, nodes', chain, names, value, depth);
    AddToAncestors(parent, value, roots', nodes');
  }

  ghost predicate ChainBalance(chain: seq<Node>, value: int, i: nat)
    requires i < |chain|
    reads {chain[i]}`total, {chain[i]}`self, {chain[i]}`children
  {
    && chain[i].total == value && chain[i].self == (if i == |chain| - 1 then value else 0)
    && chain[i].children == (if i == |chain| - 1 then [] else [chain[i + 1]])
  }

  ghost predicate ChainBalanced(chain: seq<Node>, value: int)
    reads (set n | n in chain)`total, (set n | n in chain)`self, (set n | n in chain)`children
  {
    forall i :: 0 <= i < |chain| ==> ChainBalance(chain, value, i)
  }

  // ----- what the tree holds -----

  /** The sum of the values of the stacks whose locations, from the root down, are `path`. */
  function SumFor(stacks: seq<Stack>, path: seq<string>): int {
    if stacks == [] then 0
    else
      var last := |stacks| - 1;
      SumFor(stacks[..last], path) + if Reverse(stacks[last].locations) == path then stacks[last].value else 0
  }

  ghost predicate HasNode(nodes: set<Node>, path: seq<string>) {
    exists n :: n in nodes && n.path == path
  }

  /** Some stack with a value starts with `path`. */
  ghost predicate Leads(stacks: seq<Stack>, path: seq<string>) {
    exists k :: 0 <= k < |stacks| && stacks[k].value != 0 && path <= Reverse(stacks[k].locations)
  }

  lemma LeadsMore(stacks: seq<Stack>, s: Stack)
    ensures forall path :: Leads(stacks, path) ==> Leads(stacks + [s], path)
    ensures forall path :: s.value != 0 && path <= Reverse(s.locations) ==> Leads(stacks + [s], path)
  {
    var more := stacks + [s];
    forall path | Leads(stacks, path) ensures Leads(more, path) {
      var k :| 0 <= k < |stacks| && stacks[k].value != 0 && path <= Reverse(stacks[k].locations);
      assert more[k] == stacks[k];
    }
    assert more[|stacks|] == s;
  }

  /** Every node holds exactly the values of the stacks for its path and is on the way of some
      stack, and every stack with a value has its node. */
  ghost predicate Folds(nodes: set<Node>, stacks: seq<Stack>)
    reads nodes`self
  {
    && (forall n :: n in nodes ==> n.self == SumFor(stacks, n.path))
    && (forall k :: 0 <= k < |stacks| && stacks[k].value != 0 && stacks[k].locations != [] ==>
          HasNode(nodes, Reverse(stacks[k].locations)))
    && (forall n :: n in nodes ==> Leads(stacks, n.path))
  }

  /** A path without a node has no value. */
  lemma {:induction false} NothingThere(stacks: seq<Stack>, path: seq<string>, nodes: set<Node>)
    requires !HasNode(nodes, path) && path != []
    requires forall k :: 0 <= k < |stacks| && stacks[k].value != 0 && stacks[k].locations != [] ==>
               HasNode(nodes, Reverse(stacks[k].locations))
    ensures SumFor(stacks, path) == 0
  {
    if stacks != [] {
      var last := |stacks| - 1;
      NothingThere(stacks[..last], path, nodes);
      assert stacks[last].locations == [] ==> Reverse(stacks[last].locations) == [];
    }
  }

  lemma SumForNext(stacks: seq<Stack>, s: Stack, path: seq<string>)
    ensures SumFor(stacks + [s], path) == SumFor(stacks, path) + if Reverse(s.locations) == path then s.value else 0
  {
    assert (stacks + [s])[..|stacks|] == stacks;
  }

  /** The node for a prefix of the path of a node is there, too. */
  lemma {:induction false} PrefixHasNode(roots: seq<Node>, nodes: set<Node>, n: Node, k: nat)
    requires Linked(roots, nodes) && n in nodes && 0 < k <= |n.path|
    ensures HasNode(nodes, n.path[..k])
    decreases |n.path|
  {
    assert HasParent(n, roots, nodes);
    if k == |n.path| {
      assert n.path[..k] == n.path;
    } else {
      assert n.parent.path == n.path[..|n.path| - 1];
      assert n.parent.path[..k] == n.path[..k];
      PrefixHasNode(roots, nodes, n.parent, k);
    }
  }

  /** If `parent` has no child for the next name, no node lies on the rest of the path. */
  lemma RestIsNew(roots: seq<Node>, nodes: set<Node>, parent: Node?, names: seq<string>, depth: nat, k: nat)
    requires Linked(roots, nodes) && AtDepth(nodes, parent, names, depth) && depth < k <= |names|
    requires forall n :: n in Siblings(roots, parent) ==> n.name != names[depth]
    ensures !HasNode(nodes, names[..k])
  {
    if HasNode(nodes, names[..k]) {
      var n :| n in nodes && n.path == names[..k];
      PrefixHasNode(roots, nodes, n, depth + 1);
      assert n.path[..depth + 1] == names[..depth + 1];
      var m :| m in nodes && m.path == names[..depth + 1];
      IsSibling(roots, nodes, parent, names, depth, m);
    }
  }

  /** The node for one more name is a child of `parent`. */
  lemma IsSibling(roots: seq<Node>, nodes: set<Node>, parent: Node?, names: seq<string>, depth: nat, m: Node)
    requires Linked(roots, nodes) && AtDepth(nodes, parent, names, depth) && depth < |names|
    requires m in nodes && m.path == names[..depth + 1]
    ensures m in Siblings(roots, parent) && m.name == names[depth]
  {
    PathNotEmpty(roots, nodes, m);
    assert HasParent(m, roots, nodes);
    if m.parent != null {
      assert m.parent.path == m.path[..depth] == names[..depth];
      PathNotEmpty(roots, nodes, m.parent);
      if parent != null {
        PathsAreUnique(roots, nodes, m.parent, parent);
      }
    } else {
      assert depth == 0;
    }
  }

  class Tree {
    var root: seq<Node>
    ghost var nodes: set<Node>

    ghost predicate Valid()
      reads this, nodes
    {
      Linked(root, nodes) && BalancedBut(null, 0, nodes, Totals(nodes))
    }

    constructor ()
      ensures Valid() && root == [] && nodes == {}
    {
      root := [];
      nodes := {};
    }

    /** `mergeTree` for the tree of one stack. */
    method MergeTree(src: seq<Node>, stack: Stack, ghost chain: seq<Node>, ghost stacks: seq<Stack>)
      requires Valid() && Folds(nodes, stacks) && stack.value != 0
      requires IsChain(chain, Reverse(stack.locations), 0, stack.value)
      requires src == (if chain == [] then [] else [chain[0]])
      requires NodesFrom(chain, 0) !! nodes
      modifies this, nodes, NodesFrom(chain, 0)
      ensures Valid() && Folds(nodes, stacks + [stack])
      ensures nodes <= old(nodes) + NodesFrom(chain, 0)
    {
      hide Linked, BalancedBut, IsChain, Folds, AtDepth;
      ghost var names := Reverse(stack.locations);
      ChainLength(chain, names, stack.value);
      if |src| > 0 {
        var parent, found, toMerge, depth := FindNodeOrParent(root, nodes, chain, src[0], names, stack.value);
        if found == null {
          AttachNew(parent, toMerge, stack, chain, stacks, depth);
        } else {
          ChainNode(chain, names, stack.value, |chain| - 1);
          AddToFound(found, toMerge.self, stack, stacks);
        }
      } else {
        PathsNotEmpty(root, nodes);
        FoldsNothing(nodes, stacks, stack);
      }
    }

    method AddToFound(found: Node, value: int, stack: Stack, ghost stacks: seq<Stack>)
      requires Valid() && Folds(nodes, stacks) && found in nodes && found.path == Reverse(stack.locations) && value == stack.value
      modifies nodes
      ensures Valid() && Folds(nodes, stacks + [stack])
    {
      hide Linked, BalancedBut, SumFor, Leads;
      AddValue(found, value, root, nodes);
      forall n | n in nodes
        ensures n.self == SumFor(stacks + [stack], n.path)
      {
        SumForNext(stacks, stack, n.path);
        if n.path == found.path {
          PathsAreUnique(root, nodes, n, found);
        }
      }
      LeadsMore(stacks, stack);
      assert HasNode(nodes, found.path);
    }

    method AttachNew(parent: Node?, toMerge: Node, stack: Stack, ghost chain: seq<Node>, ghost stacks: seq<Stack>, ghost depth: nat)
      requires Valid() && Folds(nodes, stacks) && |chain| == |stack.locations| && depth < |chain| && stack.value != 0
      requires IsChain(chain, Reverse(stack.locations), 0, stack.value) && toMerge == chain[depth]
      requires AtDepth(nodes, parent, Reverse(stack.locations), depth)
      requires NodesFrom(chain, 0) !! nodes
      requires forall n :: n in Siblings(root, parent) ==> n.name != Reverse(stack.locations)[depth]
      modifies this, nodes, NodesFrom(chain, 0)
      ensures Valid() && Folds(nodes, stacks + [stack])
      ensures nodes == old(nodes) + NodesFrom(chain, depth)
    {
      hide Linked, BalancedBut, IsChain, SumFor, Folds, AtDepth, SumBy, Totals;
      ghost var names := Reverse(stack.locations);
      ghost var nodes' := nodes + NodesFrom(chain, depth);
      FoldsOneMore(root, nodes, parent, chain, stack, stacks, depth);
      root := AttachAndAdd(parent, toMerge, root, nodes, nodes', chain, names, stack.value, depth);
      nodes := nodes';
    }
  }

  lemma PathsNotEmpty(roots: seq<Node>, nodes: set<Node>)
    requires Linked(roots, nodes)
    ensures forall n :: n in nodes ==> n.path != []
  {
    forall n | n in nodes
      ensures n.path != []
    {
      PathNotEmpty(roots, nodes, n);
    }
  }

  lemma AllLead(nodes: set<Node>, chain: seq<Node>, stack: Stack, stacks: seq<Stack>, depth: nat)
    requires stack.value != 0 && IsChain(chain, Reverse(stack.locations), 0, stack.value) && depth <= |chain|
    requires forall n :: n in nodes ==> Leads(stacks, n.path)
    ensures forall n :: n in nodes + NodesFrom(chain, depth) ==> Leads(stacks + [stack], n.path)
  {
    hide IsChain, Leads;
    LeadsMore(stacks, stack);
    forall n | n in NodesFrom(chain, depth)
      ensures Leads(stacks + [stack], n.path)
    {
      var i :| depth <= i < |chain| && chain[i] == n;
      ChainNode(chain, Reverse(stack.locations), stack.value, i);
      assert n.path <= Reverse(stack.locations);
    }
  }

  /** The new nodes hold exactly the value of the new stack. */
  lemma FoldsOneMore(roots: seq<Node>, nodes: set<Node>, parent: Node?, chain: seq<Node>, stack: Stack, stacks: seq<Stack>, depth: nat)
    requires Linked(roots, nodes) && Folds(nodes, stacks) && depth < |chain| && stack.value != 0
    requires IsChain(chain, Reverse(stack.locations), 0, stack.value) && AtDepth(nodes, parent, Reverse(stack.locations), depth)
    requires forall n :: n in Siblings(roots, parent) ==> n.name != Reverse(stack.locations)[depth]
    ensures Folds(nodes + NodesFrom(chain, depth), stacks + [stack])
  {
    hide Linked, IsChain, SumFor, AtDepth, Leads;
    var names := Reverse(stack.locations);
    var nodes' := nodes + NodesFrom(chain, depth);
    ChainLength(chain, names, stack.value);
    assert names[..|names|] == names;
    forall n | n in nodes
      ensures n.self == SumFor(stacks + [stack], n.path)
    {
      RestIsNew(roots, nodes, parent, names, depth, |names|);
      SumForNext(stacks, stack, n.path);
    }
    forall n | n in NodesFrom(chain, depth)
      ensures n.self == SumFor(stacks + [stack], n.path)
    {
      var i :| depth <= i < |chain| && chain[i] == n;
      ChainNode(chain, names, stack.value, i);
      RestIsNew(roots, nodes, parent, names, depth, i + 1);
      NothingThere(stacks, n.path, nodes);
      SumForNext(stacks, stack, n.path);
      assert i < |chain| - 1 ==> |n.path| != |names|;
    }
    AllLead(nodes, chain, stack, stacks, depth);
    forall k | 0 <= k < |stacks| && stacks[k].value != 0 && stacks[k].locations != []
      ensures HasNode(nodes', Reverse(stacks[k].locations))
    {
      var n :| n in nodes && n.path == Reverse(stacks[k].locations);
      assert n in nodes';
    }
    assert HasNode(nodes', names) by {
      var last := chain[|chain| - 1];
      ChainNode(chain, names, stack.value, |chain| - 1);
      assert chain[depth..][|chain| - 1 - depth] == last;
      assert last in nodes' && last.path == names;
    }
  }

  lemma FoldsNothing(nodes: set<Node>, stacks: seq<Stack>, stack: Stack)
    requires Folds(nodes, stacks) && stack.locations == [] && forall n :: n in nodes ==> n.path != []
    ensures Folds(nodes, stacks + [stack])
  {
    LeadsMore(stacks, stack);
    forall n | n in nodes
      ensures n.self == SumFor(stacks + [stack], n.path)
    {
      SumForNext(stacks, stack, n.path);
    }
  }

  lemma ChainBalances(chain: seq<Node>, names: seq<string>, value: int)
    requires IsChain(chain, names, 0, value)
    ensures |chain| == |names| && forall i :: 0 <= i < |chain| ==> ChainBalance(chain, value, i)
  {
    forall i | 0 <= i < |chain|
      ensures ChainBalance(chain, value, i)
    {
      ChainNode(chain, names, value, i);
    }
  }

  /** Folds a list of stacks into a tree: sibling names are unique, parent pointers agree with
      the children, every total is the node's own value plus the totals of its children, and
      the own value at each path is the sum of the stacks with exactly these locations. */
  method NewTree(stacks: seq<Stack>) returns (t: Tree)
    ensures fresh(t) && fresh(t.nodes)
    ensures t.Valid() && Folds(t.nodes, stacks)
  {
    hide Linked, BalancedBut, IsChain, SumFor, Folds, Reverse;
    t := new Tree();
    FoldsEmpty();
    for i := 0 to |stacks|
      invariant fresh(t) && fresh(t.nodes)
      invariant t.Valid() && Folds(t.nodes, stacks[..i])
    {
      assert stacks[..i + 1] == stacks[..i] + [stacks[i]];
      if stacks[i].value == 0 {
        FoldsZero(t.nodes, stacks[..i], stacks[i]);
        continue;
      }
      var src, chain := StackToTree(stacks[i]);
      t.MergeTree(src, stacks[i], chain, stacks[..i]);
    }
    assert stacks[..|stacks|] == stacks;
  }

  lemma FoldsEmpty()
    ensures Folds({}, [])
  {
  }

  lemma FoldsZero(nodes: set<Node>, stacks: seq<Stack>, stack: Stack)
    requires Folds(nodes, stacks) && stack.value == 0
    ensures Folds(nodes, stacks + [stack])
  {
    LeadsMore(stacks, stack);
    forall n | n in nodes
      ensures n.self == SumFor(stacks + [stack], n.path)
    {
      SumForNext(stacks, stack, n.path);
    }
  }
}
