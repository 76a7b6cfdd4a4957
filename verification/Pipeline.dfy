/** From stacks to a flame graph and back: the tree that `newTree` builds, as a value, is one that
    the encoder and the reader handle. */
module Pipeline {
  import opened Sequences
  import T = Tree
  import F = FlameGraph
  import R = FlameGraphReader

  ghost function Deeper(nodes: set<T.Node>, k: nat): set<T.Node> {
    set n | n in nodes && |n.path| > k
  }

  lemma DeeperShrinks(nodes: set<T.Node>, k: nat, n: T.Node)
    requires n in nodes && |n.path| > k
    ensures |Deeper(nodes, |n.path|)| < |Deeper(nodes, k)|
  {
    var a, b := Deeper(nodes, |n.path|), Deeper(nodes, k);
    assert n in b - a && a <= b;
    assert b == a + (b - a);
    assert |b| == |a| + |b - a|;
    assert |b - a| > 0;
  }

  /** The children of a node are deeper nodes of the tree. */
  lemma ChildrenDeeper(n: T.Node, roots: seq<T.Node>, nodes: set<T.Node>)
    requires T.Linked(roots, nodes) && n in nodes
    ensures forall c :: c in n.children ==> c in nodes && |c.path| > |n.path|
  {
    assert T.HasChildren(n, nodes);
    forall c | c in n.children ensures c in nodes && |c.path| > |n.path| {
      assert T.HasParent(c, roots, nodes);
    }
  }

  /** A node with everything below it, as a value. */
  function ValueOf(n: T.Node, ghost roots: seq<T.Node>, ghost nodes: set<T.Node>): F.FlameNode
    requires T.Linked(roots, nodes) && n in nodes
    reads nodes
    decreases |Deeper(nodes, |n.path|)|, |n.children| + 1
  {
    ChildrenDeeper(n, roots, nodes);
    F.FlameNode(n.name, n.self, n.total, ValuesOf(n.children, |n.path|, roots, nodes))
  }

  function ValuesOf(ns: seq<T.Node>, ghost k: nat, ghost roots: seq<T.Node>, ghost nodes: set<T.Node>): (r: seq<F.FlameNode>)
    requires T.Linked(roots, nodes) && forall n :: n in ns ==> n in nodes && |n.path| > k
    reads nodes
    ensures |r| == |ns|
    decreases |Deeper(nodes, k)|, |ns|
  {
    if ns == [] then []
    else
      DeeperShrinks(nodes, k, ns[0]);
      [ValueOf(ns[0], roots, nodes)] + ValuesOf(ns[1..], k, roots, nodes)
  }

  lemma {:induction false} ValueAt(ns: seq<T.Node>, k: nat, roots: seq<T.Node>, nodes: set<T.Node>, i: nat)
    requires T.Linked(roots, nodes) && (forall n :: n in ns ==> n in nodes && |n.path| > k) && i < |ns|
    ensures ValuesOf(ns, k, roots, nodes)[i] == ValueOf(ns[i], roots, nodes)
    decreases |ns|
  {
    hide T.Linked, ValueOf;
    if i > 0 {
      ValueAt(ns[1..], k, roots, nodes, i - 1);
    }
  }

  /** Sums of totals are the same of nodes and of values. */
  lemma {:induction false} SameTotals(ns: seq<T.Node>, k: nat, roots: seq<T.Node>, nodes: set<T.Node>)
    requires T.Linked(roots, nodes) && forall n :: n in ns ==> n in nodes && |n.path| > k
    ensures F.SumTotals(ValuesOf(ns, k, roots, nodes)) == T.SumBy(ns, T.Totals(nodes))
    decreases |ns|
  {
    hide T.Linked;
    if ns != [] {
      SameTotals(ns[1..], k, roots, nodes);
      assert ValuesOf(ns, k, roots, nodes)[1..] == ValuesOf(ns[1..], k, roots, nodes);
    }
  }

  // ----- totals -----

  /** The sum of the stacks on whose way a path lies. */
  function Through(stacks: seq<T.Stack>, path: seq<string>): int {
    if stacks == [] then 0
    else
      var last := |stacks| - 1;
      Through(stacks[..last], path) + if path <= Reverse(stacks[last].locations) then stacks[last].value else 0
  }

  /** A stack with a value goes on below a path. */
  ghost predicate GoesOn(stacks: seq<T.Stack>, path: seq<string>) {
    exists k :: 0 <= k < |stacks| && stacks[k].value != 0 && path < Reverse(stacks[k].locations)
  }

  /** The next node on the way of a stack is a child. */
  lemma NextOnWay(t: T.Tree, n: T.Node, names: seq<string>) returns (c: T.Node)
    requires t.Valid() && n in t.nodes && n.path <= names && |n.path| < |names| && T.HasNode(t.nodes, names)
    ensures c in n.children && c in t.nodes && c.path == names[..|n.path| + 1]
  {
    var last :| last in t.nodes && last.path == names;
    var k := |n.path| + 1;
    T.PrefixHasNode(t.root, t.nodes, last, k);
    c :| c in t.nodes && c.path == names[..k];
    T.PathNotEmpty(t.root, t.nodes, n);
    assert T.HasParent(c, t.root, t.nodes);
    assert c.parent != null;
    assert c.parent.path == c.path[..|n.path|] == n.path;
    T.PathsAreUnique(t.root, t.nodes, c.parent, n);
  }

  /** The value of a stack, for each node on its way. */
  ghost function SumOn(ns: seq<T.Node>, names: seq<string>, v: int): int {
    if ns == [] then 0 else (if ns[0].path <= names then v else 0) + SumOn(ns[1..], names, v)
  }

  ghost function SumThrough(ns: seq<T.Node>, stacks: seq<T.Stack>): int {
    if ns == [] then 0 else Through(stacks, ns[0].path) + SumThrough(ns[1..], stacks)
  }

  /** A stack goes through one child at most. */
  lemma {:induction false} OneChild(ns: seq<T.Node>, path: seq<string>, names: seq<string>, v: int)
    requires T.DistinctNames(ns) && forall c :: c in ns ==> c.path == path + [c.name]
    ensures SumOn(ns, names, v) == if exists c :: c in ns && c.path <= names then v else 0
  {
    if ns != [] {
      OneChild(ns[1..], path, names, v);
      assert ns == [ns[0]] + ns[1..];
      if ns[0].path <= names {
        forall c | c in ns[1..] ensures !(c.path <= names) {
          assert c.name != ns[0].name;
          assert names[|path|] == ns[0].name;
        }
      }
    }
  }

  lemma {:induction false} SumThroughMore(ns: seq<T.Node>, front: seq<T.Stack>, s: T.Stack)
    ensures SumThrough(ns, front + [s]) == SumThrough(ns, front) + SumOn(ns, Reverse(s.locations), s.value)
  {
    if ns != [] {
      SumThroughMore(ns[1..], front, s);
      assert (front + [s])[..|front|] == front;
    }
  }

  lemma {:induction false} SumThroughNone(ns: seq<T.Node>)
    ensures SumThrough(ns, []) == 0
  {
    if ns != [] {
      SumThroughNone(ns[1..]);
    }
  }

  /** A stack with a value ends at a node or goes on through one child. */
  lemma EndsOrGoesOn(t: T.Tree, n: T.Node, s: T.Stack)
    requires t.Valid() && n in t.nodes
    requires s.value != 0 && s.locations != [] ==> T.HasNode(t.nodes, Reverse(s.locations))
    ensures
      var names := Reverse(s.locations);
      (if n.path <= names then s.value else 0)
        == (if names == n.path then s.value else 0) + SumOn(n.children, names, s.value)
  {
    var names := Reverse(s.locations);
    assert T.HasChildren(n, t.nodes);
    T.PathNotEmpty(t.root, t.nodes, n);
    forall c | c in n.children ensures c.path == n.path + [c.name] {
      assert T.HasParent(c, t.root, t.nodes);
    }
    OneChild(n.children, n.path, names, s.value);
    if s.value != 0 && n.path < names {
      var c := NextOnWay(t, n, names);
      assert c.path <= names;
    }
  }

  ghost predicate AllHaveNodes(nodes: set<T.Node>, stacks: seq<T.Stack>) {
    forall k :: 0 <= k < |stacks| && stacks[k].value != 0 && stacks[k].locations != [] ==>
      T.HasNode(nodes, Reverse(stacks[k].locations))
  }

  lemma FrontHasNodes(nodes: set<T.Node>, front: seq<T.Stack>, s: T.Stack)
    requires AllHaveNodes(nodes, front + [s])
    ensures AllHaveNodes(nodes, front)
    ensures s.value != 0 && s.locations != [] ==> T.HasNode(nodes, Reverse(s.locations))
  {
    var all := front + [s];
    assert all[|front|] == s;
    forall k | 0 <= k < |front| && front[k].value != 0 && front[k].locations != []
      ensures T.HasNode(nodes, Reverse(front[k].locations))
    {
      assert all[k] == front[k];
    }
  }

  lemma {:induction false} ThroughSplits(t: T.Tree, n: T.Node, stacks: seq<T.Stack>)
    requires t.Valid() && n in t.nodes
    requires AllHaveNodes(t.nodes, stacks)
    ensures Through(stacks, n.path) == T.SumFor(stacks, n.path) + SumThrough(n.children, stacks)
  {
    hide *;
    if stacks == [] {
      NothingThrough(n);
    } else {
      var front, s := stacks[..|stacks| - 1], stacks[|stacks| - 1];
      assert stacks == front + [s];
      FrontHasNodes(t.nodes, front, s);
      ThroughSplits(t, n, front);
      ThroughSplitsMore(t, n, front, s);
    }
  }

  lemma NothingThrough(n: T.Node)
    ensures Through([], n.path) == T.SumFor([], n.path) + SumThrough(n.children, [])
  {
    SumThroughNone(n.children);
  }

  lemma ThroughSplitsMore(t: T.Tree, n: T.Node, front: seq<T.Stack>, s: T.Stack)
    requires t.Valid() && n in t.nodes && Through(front, n.path) == T.SumFor(front, n.path) + SumThrough(n.children, front)
    requires s.value != 0 && s.locations != [] ==> T.HasNode(t.nodes, Reverse(s.locations))
    ensures Through(front + [s], n.path) == T.SumFor(front + [s], n.path) + SumThrough(n.children, front + [s])
  {
    hide *;
    EndsOrGoesOn(t, n, s);
    SumThroughMore(n.children, front, s);
    LastStack(front, s, n.path);
  }

  lemma LastStack(front: seq<T.Stack>, s: T.Stack, path: seq<string>)
    ensures Through(front + [s], path) == Through(front, path) + if path <= Reverse(s.locations) then s.value else 0
    ensures T.SumFor(front + [s], path) == T.SumFor(front, path) + if Reverse(s.locations) == path then s.value else 0
  {
    assert (front + [s])[..|front|] == front;
  }

  lemma {:induction false} SameSums(ns: seq<T.Node>, totals: map<T.Node, int>, stacks: seq<T.Stack>)
    requires forall n :: n in ns ==> n in totals && totals[n] == Through(stacks, n.path)
    ensures T.SumBy(ns, totals) == SumThrough(ns, stacks)
  {
    if ns != [] {
      SameSums(ns[1..], totals, stacks);
    }
  }

  /** The total of a node is the sum of the stacks on whose way it lies. */
  lemma {:induction false} TotalIsThrough(t: T.Tree, stacks: seq<T.Stack>, n: T.Node)
    requires t.Valid() && T.Folds(t.nodes, stacks) && n in t.nodes
    ensures n.total == Through(stacks, n.path)
    decreases |Deeper(t.nodes, |n.path|)|
  {
    ChildrenDeeper(n, t.root, t.nodes);
    assert T.Balanced(n, 0, T.Totals(t.nodes));
    assert n.self == T.SumFor(stacks, n.path);
    forall c | c in n.children ensures c.total == Through(stacks, c.path) {
      DeeperShrinks(t.nodes, |n.path|, c);
      TotalIsThrough(t, stacks, c);
    }
    SameSums(n.children, T.Totals(t.nodes), stacks);
    ThroughSplits(t, n, stacks);
  }

  /** A node has children exactly when a stack goes on below it. */
  lemma HasChildrenExactly(t: T.Tree, stacks: seq<T.Stack>, n: T.Node)
    requires t.Valid() && T.Folds(t.nodes, stacks) && n in t.nodes
    ensures n.children != [] <==> GoesOn(stacks, n.path)
  {
    if n.children != [] {
      var c := n.children[0];
      assert T.HasChildren(n, t.nodes);
      assert T.HasParent(c, t.root, t.nodes);
      assert T.Leads(stacks, c.path);
      var k :| 0 <= k < |stacks| && stacks[k].value != 0 && c.path <= Reverse(stacks[k].locations);
      assert n.path < c.path;
    }
    if GoesOn(stacks, n.path) {
      var k :| 0 <= k < |stacks| && stacks[k].value != 0 && n.path < Reverse(stacks[k].locations);
      assert stacks[k].locations != [];
      var c := NextOnWay(t, n, Reverse(stacks[k].locations));
    }
  }

  // ----- the value of a tree -----

  /** All paths on the way of a stack with a value have a positive total. */
  ghost predicate PositiveTotals(stacks: seq<T.Stack>) {
    forall path: seq<string> :: path != [] && T.Leads(stacks, path) ==> Through(stacks, path) > 0
  }

  /** No path below which a stack goes on has a negative value of its own. */
  ghost predicate NoneNegativeInside(stacks: seq<T.Stack>) {
    forall path: seq<string> :: path != [] && GoesOn(stacks, path) ==> T.SumFor(stacks, path) >= 0
  }

  lemma {:induction false} ValueIsBalanced(t: T.Tree, n: T.Node)
    requires t.Valid() && n in t.nodes && forall m :: m in t.nodes ==> m.total > 0
    ensures F.Balanced(ValueOf(n, t.root, t.nodes)) && ValueOf(n, t.root, t.nodes).total > 0
    decreases |Deeper(t.nodes, |n.path|)|
  {
    ChildrenDeeper(n, t.root, t.nodes);
    assert T.Balanced(n, 0, T.Totals(t.nodes));
    hide T.Linked, T.SumBy;
    SameTotals(n.children, |n.path|, t.root, t.nodes);
    var values := ValuesOf(n.children, |n.path|, t.root, t.nodes);
    forall v | v in values ensures F.Balanced(v) && v.total > 0 {
      var i :| 0 <= i < |values| && values[i] == v;
      ValueAt(n.children, |n.path|, t.root, t.nodes, i);
      DeeperShrinks(t.nodes, |n.path|, n.children[i]);
      ValueIsBalanced(t, n.children[i]);
    }
  }

  lemma RootsInside(t: T.Tree)
    requires t.Valid()
    ensures forall r :: r in t.root ==> r in t.nodes && |r.path| > 0
  {
    forall r | r in t.root ensures r in t.nodes && |r.path| > 0 {
      T.PathNotEmpty(t.root, t.nodes, r);
    }
  }

  /** The root of the flame graph: balanced, if totals are positive. */
  lemma RootIsBalanced(t: T.Tree, stacks: seq<T.Stack>)
    requires t.Valid() && T.Folds(t.nodes, stacks) && PositiveTotals(stacks)
    ensures forall r :: r in t.root ==> r in t.nodes && |r.path| > 0
    ensures F.Balanced(F.Root(ValuesOf(t.root, 0, t.root, t.nodes)).node)
  {
    forall n | n in t.nodes ensures n.total > 0 {
      TotalIsThrough(t, stacks, n);
      T.PathNotEmpty(t.root, t.nodes, n);
      assert T.Leads(stacks, n.path);
    }
    RootsInside(t);
    var values := ValuesOf(t.root, 0, t.root, t.nodes);
    forall v | v in values ensures F.Balanced(v) && v.total > 0 {
      var i :| 0 <= i < |values| && values[i] == v;
      ValueAt(t.root, 0, t.root, t.nodes, i);
      ValueIsBalanced(t, t.root[i]);
    }
  }

  ghost predicate Fine(n: T.Node)
    reads n
  {
    n.children != [] ==> n.self >= 0
  }

  lemma {:induction false} ValueIsNonNegative(t: T.Tree, n: T.Node)
    requires t.Valid() && n in t.nodes && forall m :: m in t.nodes ==> Fine(m)
    ensures F.NonNegative(ValueOf(n, t.root, t.nodes))
    decreases |Deeper(t.nodes, |n.path|)|
  {
    ChildrenDeeper(n, t.root, t.nodes);
    assert Fine(n);
    hide T.Linked;
    var values := ValuesOf(n.children, |n.path|, t.root, t.nodes);
    forall v | v in values ensures F.NonNegative(v) {
      var i :| 0 <= i < |values| && values[i] == v;
      ValueAt(n.children, |n.path|, t.root, t.nodes, i);
      DeeperShrinks(t.nodes, |n.path|, n.children[i]);
      ValueIsNonNegative(t, n.children[i]);
    }
  }

  /** What holds of the root holds of every node below. */
  lemma {:induction false} NonNegativeBelow(t: T.Tree, n: T.Node)
    requires t.Valid() && n in t.nodes && forall r :: r in t.root ==> r in t.nodes && |r.path| > 0
    requires F.NonNegative(F.Root(ValuesOf(t.root, 0, t.root, t.nodes)).node)
    ensures F.NonNegative(ValueOf(n, t.root, t.nodes)) && Fine(n)
    decreases |n.path|
  {
    assert T.HasParent(n, t.root, t.nodes);
    if n.parent == null {
      var i :| 0 <= i < |t.root| && t.root[i] == n;
      ValueAt(t.root, 0, t.root, t.nodes, i);
      assert ValuesOf(t.root, 0, t.root, t.nodes)[i] in ValuesOf(t.root, 0, t.root, t.nodes);
    } else {
      var p := n.parent;
      NonNegativeBelow(t, p);
      ChildrenDeeper(p, t.root, t.nodes);
      var i :| 0 <= i < |p.children| && p.children[i] == n;
      ValueAt(p.children, |p.path|, t.root, t.nodes, i);
      assert ValuesOf(p.children, |p.path|, t.root, t.nodes)[i] in ValuesOf(p.children, |p.path|, t.root, t.nodes);
    }
    ChildrenDeeper(n, t.root, t.nodes);
  }

  lemma RootIsNonNegative(t: T.Tree)
    requires t.Valid() && forall r :: r in t.root ==> r in t.nodes && |r.path| > 0
    ensures F.NonNegative(F.Root(ValuesOf(t.root, 0, t.root, t.nodes)).node) <==> forall n :: n in t.nodes ==> Fine(n)
  {
    if F.NonNegative(F.Root(ValuesOf(t.root, 0, t.root, t.nodes)).node) {
      forall n | n in t.nodes ensures Fine(n) {
        NonNegativeBelow(t, n);
      }
    }
    if forall n :: n in t.nodes ==> Fine(n) {
      var values := ValuesOf(t.root, 0, t.root, t.nodes);
      forall v | v in values ensures F.NonNegative(v) {
        var i :| 0 <= i < |values| && values[i] == v;
        ValueAt(t.root, 0, t.root, t.nodes, i);
        ValueIsNonNegative(t, t.root[i]);
      }
    }
  }

  lemma NodeOnWay(t: T.Tree, stacks: seq<T.Stack>, path: seq<string>) returns (n: T.Node)
    requires t.Valid() && T.Folds(t.nodes, stacks) && path != [] && GoesOn(stacks, path)
    ensures n in t.nodes && n.path == path && n.self == T.SumFor(stacks, path)
  {
    var k :| 0 <= k < |stacks| && stacks[k].value != 0 && path < Reverse(stacks[k].locations);
    var names := Reverse(stacks[k].locations);
    assert stacks[k].locations != [];
    assert T.HasNode(t.nodes, names);
    hide T.Linked, T.BalancedBut, T.Leads;
    var last :| last in t.nodes && last.path == names;
    T.PrefixHasNode(t.root, t.nodes, last, |path|);
    assert names[..|path|] == path;
    n :| n in t.nodes && n.path == path;
  }

  /** The same, said of the stacks. */
  lemma FineExactly(t: T.Tree, stacks: seq<T.Stack>)
    requires t.Valid() && T.Folds(t.nodes, stacks)
    ensures (forall n :: n in t.nodes ==> Fine(n)) <==> NoneNegativeInside(stacks)
  {
    if forall n :: n in t.nodes ==> Fine(n) {
      forall path: seq<string> | path != [] && GoesOn(stacks, path) ensures T.SumFor(stacks, path) >= 0 {
        var n := NodeOnWay(t, stacks, path);
        HasChildrenExactly(t, stacks, n);
        assert Fine(n);
      }
    }
    if NoneNegativeInside(stacks) {
      forall n | n in t.nodes ensures Fine(n) {
        HasChildrenExactly(t, stacks, n);
        T.PathNotEmpty(t.root, t.nodes, n);
        assert n.self == T.SumFor(stacks, n.path);
      }
    }
  }

  /** Stacks folded, encoded and read back: the reader's tree is the one that holds at each path the
      sum of the stacks with these locations exactly when all parents are to be found, which is so, if
      paths have positive totals, exactly when no path below which a stack goes on has a negative sum. */
  method StacksToProfileTree(stacks: seq<T.Stack>) returns (t: T.Tree, g: F.FlameGraph, tree: R.ProfileTree)
    ensures t.Valid() && T.Folds(t.nodes, stacks) && forall r :: r in t.root ==> r in t.nodes && |r.path| > 0
    ensures F.Encodes(g, ValuesOf(t.root, 0, t.root, t.nodes))
    ensures R.Represents(tree, F.Root(ValuesOf(t.root, 0, t.root, t.nodes)), 0)
       <==> R.FindsAll(F.Root(ValuesOf(t.root, 0, t.root, t.nodes)))
    ensures PositiveTotals(stacks) ==>
      (R.Represents(tree, F.Root(ValuesOf(t.root, 0, t.root, t.nodes)), 0) <==> NoneNegativeInside(stacks))
  {
    hide T.Folds, T.Linked, T.BalancedBut, F.Balanced, F.NonNegative, F.Encodes, R.Represents, R.FindsAll, ValuesOf;
    hide PositiveTotals, NoneNegativeInside, Fine;
    t := T.NewTree(stacks);
    RootsInside(t);
    if PositiveTotals(stacks) {
      RootIsBalanced(t, stacks);
      RootIsNonNegative(t);
      FineExactly(t, stacks);
      R.FindsAllExactly(F.Root(ValuesOf(t.root, 0, t.root, t.nodes)));
    }
    g, tree := R.RoundTrip(ValuesOf(t.root, 0, t.root, t.nodes));
  }

  // ----- stacks without negative values -----

  ghost predicate NoNegative(stacks: seq<T.Stack>) {
    forall k :: 0 <= k < |stacks| ==> stacks[k].value >= 0
  }

  lemma {:induction false} SumBounds(stacks: seq<T.Stack>, path: seq<string>, k: nat)
    requires NoNegative(stacks)
    ensures T.SumFor(stacks, path) >= 0 && Through(stacks, path) >= 0
    ensures k < |stacks| && path <= Reverse(stacks[k].locations) ==> Through(stacks, path) >= stacks[k].value
  {
    hide Reverse;
    if stacks != [] {
      SumBounds(stacks[..|stacks| - 1], path, k);
    }
  }

  /** They meet both conditions. */
  lemma NoNegativeIsFine(stacks: seq<T.Stack>)
    requires NoNegative(stacks)
    ensures PositiveTotals(stacks) && NoneNegativeInside(stacks)
  {
    forall path: seq<string> | path != [] && T.Leads(stacks, path) ensures Through(stacks, path) > 0 {
      var k :| 0 <= k < |stacks| && stacks[k].value != 0 && path <= Reverse(stacks[k].locations);
      SumBounds(stacks, path, k);
    }
    forall path: seq<string> | path != [] && GoesOn(stacks, path) ensures T.SumFor(stacks, path) >= 0 {
      SumBounds(stacks, path, 0);
    }
  }
}
