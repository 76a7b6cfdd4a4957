/** The flame graph of a tree: a depth-first encoder with delta-encoded offsets. */
module FlameGraph {
  import opened Sequences

  datatype FlameNode = FlameNode(name: string, self: int, total: int, children: seq<FlameNode>)

  /** A node with the offset of its bar. */
  datatype Placed = Placed(node: FlameNode, start: int) {
    function End(): int { start + node.total }
  }

  function SumTotals(ns: seq<FlameNode>): int {
    if ns == [] then 0 else ns[0].total + SumTotals(ns[1..])
  }

  /** A total is made up of the node's own value and its children, which have positive totals. */
  ghost predicate Balanced(n: FlameNode) {
    && n.total == n.self + SumTotals(n.children)
    && forall c :: c in n.children ==> c.total > 0 && Balanced(c)
  }

  /** No node with children has a negative value of its own. */
  ghost predicate NonNegative(n: FlameNode) {
    && (n.children != [] ==> n.self >= 0)
    && forall c :: c in n.children ==> NonNegative(c)
  }

  ghost predicate WellFormed(n: FlameNode) {
    Balanced(n) && NonNegative(n)
  }

  // ----- the levels of a tree -----

  /** Siblings side by side, from offset `x` on. */
  function PlaceAll(ns: seq<FlameNode>, x: int): (ps: seq<Placed>)
    ensures |ps| == |ns| && forall i :: 0 <= i < |ns| ==> ps[i] == Placed(ns[i], x + SumTotals(ns[..i]))
  {
    seq(|ns|, i requires 0 <= i < |ns| => Placed(ns[i], x + SumTotals(ns[..i])))
  }

  /** The children of a bar start after its own value. */
  function Kids(p: Placed): seq<Placed> {
    PlaceAll(p.node.children, p.start + p.node.self)
  }

  function KidLists(ps: seq<Placed>): (ks: seq<seq<Placed>>)
    ensures |ks| == |ps| && forall i :: 0 <= i < |ps| ==> ks[i] == Kids(ps[i])
  {
    seq(|ps|, i requires 0 <= i < |ps| => Kids(ps[i]))
  }

  /** The next level, left to right. */
  function AllKids(ps: seq<Placed>): seq<Placed> {
    Flatten(KidLists(ps))
  }

  /** The bars `k` levels below. */
  function Below(ps: seq<Placed>, k: nat): seq<Placed>
    decreases k
  {
    if k == 0 then ps else Below(AllKids(ps), k - 1)
  }

  lemma AllKidsConcat(a: seq<Placed>, b: seq<Placed>)
    ensures AllKids(a + b) == AllKids(a) + AllKids(b)
  {
    assert KidLists(a + b) == KidLists(a) + KidLists(b);
    FlattenConcat(KidLists(a), KidLists(b));
  }

  lemma {:induction false} BelowConcat(a: seq<Placed>, b: seq<Placed>, k: nat)
    ensures Below(a + b, k) == Below(a, k) + Below(b, k)
    decreases k
  {
    if k > 0 {
      AllKidsConcat(a, b);
      BelowConcat(AllKids(a), AllKids(b), k - 1);
    }
  }

  lemma AllKidsOne(p: Placed)
    ensures AllKids([p]) == Kids(p)
  {
    var ks := KidLists([p]);
    assert ks == [Kids(p)];
    assert Flatten(ks) == ks[0] + Flatten(ks[1..]);
  }

  lemma {:induction false} BelowNothing(k: nat)
    ensures Below([], k) == []
  {
    if k > 0 {
      assert KidLists([]) == [];
      BelowNothing(k - 1);
    }
  }

  lemma BelowOne(p: Placed, k: nat)
    requires k > 0
    ensures Below([p], k) == Below(Kids(p), k - 1)
  {
    AllKidsOne(p);
  }

  // ----- the encoder -----

  datatype StackNode = StackNode(placed: Placed, level: nat)

  /** The bars of level `l` that one stack entry will give. */
  function Gives(n: StackNode, l: nat): seq<Placed> {
    if l >= n.level then Below([n.placed], l - n.level) else []
  }

  /** The bars of level `l` that the nodes on the stack will give, bottom to top. */
  function Contribution(stack: seq<StackNode>, l: nat): seq<Placed> {
    if stack == [] then []
    else Contribution(stack[..|stack| - 1], l) + Gives(stack[|stack| - 1], l)
  }

  function Push(kids: seq<Placed>, level: nat): (s: seq<StackNode>)
    ensures |s| == |kids| && forall i :: 0 <= i < |kids| ==> s[i] == StackNode(kids[i], level)
  {
    seq(|kids|, i requires 0 <= i < |kids| => StackNode(kids[i], level))
  }

  lemma ContributionTop(stack: seq<StackNode>, n: StackNode, l: nat)
    ensures Contribution(stack + [n], l) == Contribution(stack, l) + Gives(n, l)
  {
    assert (stack + [n])[..|stack|] == stack;
  }

  lemma {:induction false} ContributionOfKids(stack: seq<StackNode>, kids: seq<Placed>, level: nat, l: nat)
    ensures Contribution(stack + Push(kids, level), l)
         == Contribution(stack, l) + if l >= level then Below(kids, l - level) else []
    decreases |kids|
  {
    hide Below, Contribution;
    if kids == [] {
      assert stack + Push(kids, level) == stack;
      if l >= level {
        BelowNothing(l - level);
      }
    } else {
      var front, last := kids[..|kids| - 1], kids[|kids| - 1];
      ContributionOfKids(stack, front, level, l);
      assert stack + Push(kids, level) == (stack + Push(front, level)) + [StackNode(last, level)];
      ContributionTop(stack + Push(front, level), StackNode(last, level), l);
      if l >= level {
        assert front + [last] == kids;
        BelowConcat(front, [last], l - level);
      }
    }
  }

  // ----- termination -----

  function Size(n: FlameNode): (s: nat)
    ensures s > 0
  {
    1 + Sizes(n.children)
  }

  function Sizes(ns: seq<FlameNode>): nat {
    if ns == [] then 0 else Size(ns[0]) + Sizes(ns[1..])
  }

  function Weight(stack: seq<StackNode>): nat {
    if stack == [] then 0 else Weight(stack[..|stack| - 1]) + Size(stack[|stack| - 1].placed.node)
  }

  lemma {:induction false} SizesConcat(a: seq<FlameNode>, b: seq<FlameNode>)
    ensures Sizes(a + b) == Sizes(a) + Sizes(b)
  {
    if a == [] {
      assert a + b == b;
    } else {
      assert (a + b)[0] == a[0] && (a + b)[1..] == a[1..] + b;
      SizesConcat(a[1..], b);
    }
  }

  lemma WeightTop(stack: seq<StackNode>, n: StackNode)
    ensures Weight(stack + [n]) == Weight(stack) + Size(n.placed.node)
  {
    assert (stack + [n])[..|stack|] == stack;
  }

  lemma {:induction false} WeightOfKids(stack: seq<StackNode>, ns: seq<FlameNode>, x: int, level: nat)
    ensures Weight(stack + Push(PlaceAll(ns, x), level)) == Weight(stack) + Sizes(ns)
    decreases |ns|
  {
    hide Weight, Size;
    if ns == [] {
      assert stack + Push(PlaceAll(ns, x), level) == stack;
    } else {
      var front, last := ns[..|ns| - 1], PlaceAll(ns, x)[|ns| - 1];
      PlaceAllFront(ns, x);
      assert stack + Push(PlaceAll(ns, x), level) == stack + Push(PlaceAll(front, x), level) + [StackNode(last, level)];
      WeightOfKids(stack, front, x, level);
      WeightTop(stack + Push(PlaceAll(front, x), level), StackNode(last, level));
      assert front + [last.node] == ns;
      SizesConcat(front, [last.node]);
    }
  }

  // ----- offsets -----

  lemma PlaceAllFront(ns: seq<FlameNode>, x: int)
    requires ns != []
    ensures PlaceAll(ns, x)[..|ns| - 1] == PlaceAll(ns[..|ns| - 1], x)
  {
    var front := ns[..|ns| - 1];
    forall i | 0 <= i < |front| ensures PlaceAll(ns, x)[i] == PlaceAll(front, x)[i] {
      assert front[..i] == ns[..i];
    }
  }

  lemma {:induction false} SumTotalsConcat(a: seq<FlameNode>, b: seq<FlameNode>)
    ensures SumTotals(a + b) == SumTotals(a) + SumTotals(b)
  {
    if a == [] {
      assert a + b == b;
    } else {
      assert (a + b)[0] == a[0] && (a + b)[1..] == a[1..] + b;
      SumTotalsConcat(a[1..], b);
    }
  }

  lemma SumTotalsNext(ns: seq<FlameNode>, i: nat)
    requires i < |ns|
    ensures SumTotals(ns[..i + 1]) == SumTotals(ns[..i]) + ns[i].total
  {
    assert ns[..i + 1] == ns[..i] + [ns[i]];
    SumTotalsConcat(ns[..i], [ns[i]]);
  }

  // ----- the buffers -----

  /** The root is shown as "total". */
  function Shown(p: Placed, l: nat): string {
    if l == 0 then "total" else p.node.name
  }

  /** The four numbers pushed for the `k`-th node visited on level `l`. */
  ghost predicate PushedAt(buffer: seq<int>, names: seq<string>, visited: seq<Placed>, l: nat, k: nat)
    requires k < |visited| && |buffer| == 4 * |visited|
  {
    && 0 <= buffer[4 * k] < |names| && names[buffer[4 * k]] == Shown(visited[k], l)
    && buffer[4 * k + 1] == visited[k].node.self
    && buffer[4 * k + 2] == visited[k].node.total
    && buffer[4 * k + 3] == visited[k].start
  }

  ghost predicate Pushed(buffer: seq<int>, names: seq<string>, visited: seq<Placed>, l: nat) {
    && |buffer| == 4 * |visited|
    && forall k :: 0 <= k < |visited| ==> PushedAt(buffer, names, visited, l, k)
  }

  /** One bar of an encoded level: offset, total, self, name; `offset` is counted from `from`. */
  ghost predicate BarAt(values: seq<int>, names: seq<string>, level: seq<Placed>, l: nat, k: nat, from: int)
    requires k < |level| && |values| == 4 * |level|
  {
    && values[4 * k] + from == level[k].start
    && values[4 * k + 1] == level[k].node.total
    && values[4 * k + 2] == level[k].node.self
    && 0 <= values[4 * k + 3] < |names| && names[values[4 * k + 3]] == Shown(level[k], l)
  }

  /** Where the bar before bar `k` ends. */
  function PreviousEnd(level: seq<Placed>, k: nat): int
    requires k <= |level|
  {
    if k == 0 then 0 else level[k - 1].End()
  }

  /** A level with absolute offsets. */
  ghost predicate Absolute(values: seq<int>, names: seq<string>, level: seq<Placed>, l: nat) {
    && |values| == 4 * |level|
    && forall k :: 0 <= k < |level| ==> BarAt(values, names, level, l, k, 0)
  }

  /** A level whose offsets count from the end of the bar before. */
  ghost predicate Describes(values: seq<int>, names: seq<string>, level: seq<Placed>, l: nat) {
    && |values| == 4 * |level|
    && forall k :: 0 <= k < |level| ==> BarAt(values, names, level, l, k, PreviousEnd(level, k))
  }

  lemma ReverseDescribes(buffer: seq<int>, names: seq<string>, visited: seq<Placed>, l: nat)
    requires Pushed(buffer, names, visited, l)
    ensures Absolute(Reverse(buffer), names, Reverse(visited), l)
  {
    forall k | 0 <= k < |visited| ensures BarAt(Reverse(buffer), names, Reverse(visited), l, k, 0) {
      var r := |visited| - 1 - k;
      assert PushedAt(buffer, names, visited, l, r);
    }
  }

  /** `Stack.Slice`: the top of the stack comes first. */
  method Slice<T>(values: seq<T>) returns (r: seq<T>)
    ensures r == Reverse(values)
  {
    r := [];
    var i := |values| - 1;
    while i >= 0
      invariant -1 <= i < |values|
      invariant r == Reverse(values)[..|values| - 1 - i]
    {
      r := r + [values[i]];
      i := i - 1;
    }
  }

  /** One offset is changed, which leaves the other bars as they are. */
  lemma BarsAfter(was: seq<int>, a: seq<int>, names: seq<string>, level: seq<Placed>, l: nat, k: nat, prev: int)
    requires k < |level| && |was| == 4 * |level| && a == was[4 * k := was[4 * k] - prev] && prev == PreviousEnd(level, k)
    requires forall j :: 0 <= j < k ==> BarAt(was, names, level, l, j, PreviousEnd(level, j))
    requires forall j :: k <= j < |level| ==> BarAt(was, names, level, l, j, 0)
    ensures forall j :: 0 <= j <= k ==> BarAt(a, names, level, l, j, PreviousEnd(level, j))
    ensures forall j :: k < j < |level| ==> BarAt(a, names, level, l, j, 0)
    ensures a[4 * k] + a[4 * k + 1] + prev == PreviousEnd(level, k + 1)
  {
    hide PreviousEnd;
    forall j | 0 <= j < k ensures BarAt(a, names, level, l, j, PreviousEnd(level, j)) {
      assert BarAt(was, names, level, l, j, PreviousEnd(level, j));
    }
    forall j | k < j < |level| ensures BarAt(a, names, level, l, j, 0) {
      assert BarAt(was, names, level, l, j, 0);
    }
    assert BarAt(was, names, level, l, k, 0);
    assert BarAt(a, names, level, l, k, prev);
    EndOf(level, k);
  }

  lemma EndOf(level: seq<Placed>, k: nat)
    requires k < |level|
    ensures PreviousEnd(level, k + 1) == level[k].start + level[k].node.total
  {
  }

  method DeltaEncode(a: array<int>, ghost names: seq<string>, ghost level: seq<Placed>, ghost l: nat)
    requires Absolute(a[..], names, level, l)
    modifies a
    ensures Describes(a[..], names, level, l)
  {
    var prev, i := 0, 0;
    ghost var k := 0;
    while i < a.Length
      invariant a.Length == 4 * |level| && i == 4 * k && k <= |level|
      invariant prev == PreviousEnd(level, k)
      invariant forall j :: 0 <= j < k ==> BarAt(a[..], names, level, l, j, PreviousEnd(level, j))
      invariant forall j :: k <= j < |level| ==> BarAt(a[..], names, level, l, j, 0)
    {
      ghost var was := a[..];
      a[i] := a[i] - prev;
      assert a[..] == was[4 * k := was[4 * k] - prev];
      BarsAfter(was, a[..], names, level, l, k, prev);
      prev := prev + (a[i] + a[i + 1]);
      i, k := i + 4, k + 1;
    }
  }

  // ----- NewFlameGraph -----

  datatype FlameGraph = FlameGraph(names: seq<string>, levels: seq<seq<int>>, total: int, maxSelf: int)

  /** The node that `NewFlameGraph` puts above the roots, placed at offset 0. */
  function Root(roots: seq<FlameNode>): Placed {
    Placed(FlameNode("", 0, SumTotals(roots), roots), 0)
  }

  ghost predicate MaxOf(levels: seq<seq<Placed>>, max: int) {
    && max >= 0
    && (forall l, k :: 0 <= l < |levels| && 0 <= k < |levels[l]| ==> levels[l][k].node.self <= max)
    && (max > 0 ==> exists l, k :: 0 <= l < |levels| && 0 <= k < |levels[l]| && levels[l][k].node.self == max)
  }

  /** A table of names without repetition, "total" first. */
  ghost predicate NameTable(names: seq<string>) {
    && names != [] && names[0] == "total"
    && forall i, j :: 0 <= i < j < |names| ==> names[i] != names[j]
  }

  /** The levels are those of the tree, from the root down to the last with a bar in it. */
  ghost predicate EncodesLevels(levels: seq<seq<int>>, names: seq<string>, roots: seq<FlameNode>) {
    && levels != [] && NameTable(names)
    && (forall l: nat :: l < |levels| ==> Below([Root(roots)], l) != [])
    && (forall l: nat :: l >= |levels| ==> Below([Root(roots)], l) == [])
    && (forall l :: 0 <= l < |levels| ==> Describes(levels[l], names, Below([Root(roots)], l), l))
  }

  /** What the levels, names and totals of a flame graph say of the tree. */
  ghost predicate Encodes(g: FlameGraph, roots: seq<FlameNode>) {
    && EncodesLevels(g.levels, g.names, roots)
    && g.total == SumTotals(roots)
    && MaxOf(seq(|g.levels|, l requires 0 <= l < |g.levels| => Below([Root(roots)], l)), g.maxSelf)
  }

  method PushChildren(stack: seq<StackNode>, current: StackNode) returns (r: seq<StackNode>)
    ensures r == stack + Push(Kids(current.placed), current.level + 1)
  {
    r := stack;
    var children := current.placed.node.children;
    var xOffset := current.placed.start + current.placed.node.self;
    ghost var pushed := Push(Kids(current.placed), current.level + 1);
    assert stack + pushed[..0] == stack;
    for i := 0 to |children|
      invariant xOffset == current.placed.start + current.placed.node.self + SumTotals(children[..i])
      invariant r == stack + pushed[..i]
    {
      r := r + [StackNode(Placed(children[i], xOffset), current.level + 1)];
      SumTotalsNext(children, i);
      xOffset := xOffset + children[i].total;
    }
  }

  ghost predicate Named(cache: map<string, nat>, names: seq<string>) {
    && (forall n :: n in cache ==> cache[n] < |names| && names[cache[n]] == n)
    && (forall i :: 0 <= i < |names| ==> names[i] in cache && cache[names[i]] == i)
  }

  /** The index of a name, entered in the table on first sight; the first of all is "total". */
  method NameIndex(current: string, names: seq<string>, cache: map<string, nat>)
    returns (i: nat, names': seq<string>, cache': map<string, nat>)
    requires Named(cache, names)
    requires names == [] ==> cache == map[]
    ensures Named(cache', names') && names <= names'
    ensures names == [] ==> i == 0
    ensures i < |names'| && names'[i] == if names == [] then "total" else current
  {
    i, names', cache' := 0, names, cache;
    var name := current;
    if name in cache {
      i := cache[name];
    } else {
      i := |names|;
      if i == 0 {
        name := "total";
      }
      cache' := cache[name := i];
      names' := names + [name];
    }
  }

  function At(visited: seq<seq<Placed>>, l: nat): seq<Placed> {
    if l < |visited| then visited[l] else []
  }

  ghost predicate Accounted(root: Placed, stack: seq<StackNode>, visited: seq<seq<Placed>>, l: nat) {
    Below([root], l) == Contribution(stack, l) + Reverse(At(visited, l))
  }

  /** The nodes visited so far, with the node just popped. */
  function Visit(visited: seq<seq<Placed>>, n: StackNode): (v: seq<seq<Placed>>)
    requires n.level <= |visited|
    ensures forall l: nat :: At(v, l) == if l == n.level then At(visited, l) + [n.placed] else At(visited, l)
  {
    if n.level == |visited| then visited + [[n.placed]] else visited[n.level := visited[n.level] + [n.placed]]
  }

  lemma VisitAccounts(root: Placed, stack: seq<StackNode>, n: StackNode, visited: seq<seq<Placed>>, l: nat)
    requires n.level <= |visited|
    requires Accounted(root, stack + [n], visited, l)
    ensures Accounted(root, stack + Push(Kids(n.placed), n.level + 1), Visit(visited, n), l)
  {
    hide Below, Contribution, Kids;
    ContributionTop(stack, n, l);
    ContributionOfKids(stack, Kids(n.placed), n.level + 1, l);
    if l > n.level {
      BelowOne(n.placed, l - n.level);
    } else if l == n.level {
      var v := At(visited, l);
      assert Below([n.placed], 0) == [n.placed] by { BelowZero([n.placed]); }
      assert Reverse(v + [n.placed]) == [n.placed] + Reverse(v);
    }
  }

  lemma BelowZero(ps: seq<Placed>)
    ensures Below(ps, 0) == ps
  {
  }

  /** The buffers and the name table, for every level visited. */
  ghost predicate Buffered(res: seq<seq<int>>, names: seq<string>, visited: seq<seq<Placed>>) {
    && |res| == |visited|
    && forall l :: 0 <= l < |visited| ==> visited[l] != [] && Pushed(res[l], names, visited[l], l)
  }

  /** Before the first pop nothing is visited; afterwards only the root is on level 0. */
  ghost predicate Begun(root: Placed, stack: seq<StackNode>, names: seq<string>, visited: seq<seq<Placed>>) {
    && (names == [] <==> visited == [])
    && (visited == [] ==> stack == [StackNode(root, 0)])
    && (forall n :: n in stack ==> n.level <= |visited| && (visited != [] ==> n.level > 0))
  }

  lemma BufferNode(res: seq<seq<int>>, names: seq<string>, visited: seq<seq<Placed>>, names': seq<string>, n: StackNode, i: nat)
    requires Buffered(res, names, visited) && n.level <= |visited|
    requires names <= names' && i < |names'| && names'[i] == Shown(n.placed, n.level)
    ensures
      var four := [i, n.placed.node.self, n.placed.node.total, n.placed.start];
      var grown := if n.level == |res| then res + [[]] else res;
      Buffered(grown[n.level := grown[n.level] + four], names', Visit(visited, n))
  {
    var four := [i, n.placed.node.self, n.placed.node.total, n.placed.start];
    var grown := if n.level == |res| then res + [[]] else res;
    var res' := grown[n.level := grown[n.level] + four];
    var v := Visit(visited, n);
    forall l | 0 <= l < |v| ensures v[l] != [] && Pushed(res'[l], names', v[l], l) {
      forall k | 0 <= k < |v[l]| && (l != n.level || k < |v[l]| - 1) ensures PushedAt(res'[l], names', v[l], l, k) {
        assert PushedAt(res[l], names, visited[l], l, k);
      }
    }
  }

  lemma BegunStep(root: Placed, stack: seq<StackNode>, n: StackNode, names: seq<string>, names': seq<string>, visited: seq<seq<Placed>>)
    requires Begun(root, stack + [n], names, visited) && n.level <= |visited| && names' != []
    ensures Begun(root, stack + Push(Kids(n.placed), n.level + 1), names', Visit(visited, n))
  {
    hide Kids;
    var v := Visit(visited, n);
    var stack' := stack + Push(Kids(n.placed), n.level + 1);
    assert n.level < |v| && |visited| <= |v|;
    forall m | m in stack' ensures m.level <= |v| && m.level > 0 {
      if m in stack {
        assert m in stack + [n];
        assert visited == [] ==> |stack + [n]| == 1;
      }
    }
  }

  lemma MaxStep(visited: seq<seq<Placed>>, n: StackNode, max: int)
    requires n.level <= |visited| && MaxOf(visited, max)
    ensures MaxOf(Visit(visited, n), if n.placed.node.self > max then n.placed.node.self else max)
  {
    var v := Visit(visited, n);
    var self := n.placed.node.self;
    assert v[n.level][|v[n.level]| - 1] == n.placed;
    forall l, k | 0 <= l < |v| && 0 <= k < |v[l]| ensures v[l][k].node.self <= if self > max then self else max {
      if l != n.level || k < |v[l]| - 1 {
        assert v[l][k] == visited[l][k];
      }
    }
    if self <= max && max > 0 {
      var l, k :| 0 <= l < |visited| && 0 <= k < |visited[l]| && visited[l][k].node.self == max;
      assert v[l][k] == visited[l][k];
    }
  }

  lemma MaxReversed(visited: seq<seq<Placed>>, levels: seq<seq<Placed>>, max: int)
    requires MaxOf(visited, max) && |levels| == |visited|
    requires forall l :: 0 <= l < |levels| ==> levels[l] == Reverse(visited[l])
    ensures MaxOf(levels, max)
  {
    forall l, k | 0 <= l < |levels| && 0 <= k < |levels[l]| ensures levels[l][k].node.self <= max {
      assert levels[l][k] == visited[l][|visited[l]| - 1 - k];
    }
    if max > 0 {
      var l, k :| 0 <= l < |visited| && 0 <= k < |visited[l]| && visited[l][k].node.self == max;
      assert levels[l][|visited[l]| - 1 - k] == visited[l][k];
    }
  }

  /** The depth-first walk over an explicit stack. */
  method Walk(root: Placed) returns (names: seq<string>, res: seq<seq<int>>, max: int, ghost visited: seq<seq<Placed>>)
    requires root.node.name == ""
    ensures visited != [] && Buffered(res, names, visited) && MaxOf(visited, max)
    ensures NameTable(names)
    ensures forall l: nat :: Below([root], l) == Reverse(At(visited, l))
  {
    hide Below, Contribution, Kids, MaxOf, Weight, Visit;
    names, res, max, visited := [], [], 0, [];
    var cache: map<string, nat> := map[];
    var stack := [StackNode(root, 0)];
    StartAccounted(root);
    while stack != []
      invariant Named(cache, names) && (names == [] ==> cache == map[])
      invariant names != [] ==> names[0] == "total"
      invariant Begun(root, stack, names, visited)
      invariant Buffered(res, names, visited)
      invariant MaxOf(visited, max)
      invariant forall l: nat :: Accounted(root, stack, visited, l)
      decreases Weight(stack)
    {
      ghost var before, seen := stack, visited;
      var current := stack[|stack| - 1];
      stack := stack[..|stack| - 1];
      assert before == stack + [current];
      MaxStep(seen, current, max);
      if current.placed.node.self > max {
        max := current.placed.node.self;
      }
      ghost var known := names;
      var i;
      i, names, cache := NameIndex(current.placed.node.name, names, cache);
      if current.level == |res| {
        res := res + [[]];
      }
      var node := current.placed.node;
      BufferNode(if current.level == |visited| then res[..|res| - 1] else res, known, seen, names, current, i);
      res := res[current.level := res[current.level] + [i, node.self, node.total, current.placed.start]];
      BegunStep(root, stack, current, known, names, seen);
      VisitAccountsAll(root, stack, current, seen, stack + Push(Kids(current.placed), current.level + 1));
      visited := Visit(visited, current);
      Lighter(stack, current);
      stack := PushChildren(stack, current);
    }
    NothingLeft(root, visited);
  }

  lemma VisitAccountsAll(root: Placed, stack: seq<StackNode>, n: StackNode, visited: seq<seq<Placed>>, stack': seq<StackNode>)
    requires n.level <= |visited|
    requires forall l: nat :: Accounted(root, stack + [n], visited, l)
    requires stack' == stack + Push(Kids(n.placed), n.level + 1)
    ensures forall l: nat :: Accounted(root, stack', Visit(visited, n), l)
  {
    hide Accounted, Kids;
    var v := Visit(visited, n);
    var s := stack + [n];
    forall l: nat ensures Accounted(root, stack', v, l) {
      assert Accounted(root, s, visited, l);
      VisitAccounts(root, stack, n, visited, l);
    }
  }

  lemma NothingLeft(root: Placed, visited: seq<seq<Placed>>)
    requires forall l: nat :: Accounted(root, [], visited, l)
    ensures forall l: nat :: Below([root], l) == Reverse(At(visited, l))
  {
    forall l: nat ensures Below([root], l) == Reverse(At(visited, l)) {
      assert Accounted(root, [], visited, l);
    }
  }

  lemma StartAccounted(root: Placed)
    ensures forall l: nat :: Accounted(root, [StackNode(root, 0)], [], l)
    ensures MaxOf([], 0)
  {
    forall l: nat ensures Accounted(root, [StackNode(root, 0)], [], l) {
      ContributionTop([], StackNode(root, 0), l);
      assert [] + [StackNode(root, 0)] == [StackNode(root, 0)];
    }
  }

  lemma Lighter(stack: seq<StackNode>, n: StackNode)
    ensures Weight(stack + Push(Kids(n.placed), n.level + 1)) < Weight(stack + [n])
  {
    WeightTop(stack, n);
    WeightOfKids(stack, n.placed.node.children, n.placed.start + n.placed.node.self, n.level + 1);
  }

  method Sum(roots: seq<FlameNode>) returns (total: int)
    ensures total == SumTotals(roots)
  {
    total := 0;
    for i := 0 to |roots|
      invariant total == SumTotals(roots[..i])
    {
      SumTotalsNext(roots, i);
      total := total + roots[i].total;
    }
    assert roots[..|roots|] == roots;
  }

  /** Every level of the tree is encoded, left to right, and nothing else. */
  method NewFlameGraph(roots: seq<FlameNode>) returns (g: FlameGraph)
    ensures Encodes(g, roots)
    ensures g.levels[0] == [0, SumTotals(roots), 0, 0] && g.total == SumTotals(roots) && g.names[0] == "total"
  {
    hide Below, MaxOf;
    var total := Sum(roots);
    ghost var root := Root(roots);
    ghost var visited;
    var names, res, max;
    names, res, max, visited := Walk(Placed(FlameNode("", 0, total, roots), 0));
    var levels: seq<seq<int>> := [];
    for i := 0 to |res|
      invariant |levels| == i
      invariant forall l :: 0 <= l < i ==> Describes(levels[l], names, Below([root], l), l)
    {
      var level := Slice(res[i]);
      assert visited[i] != [] && Pushed(res[i], names, visited[i], i);
      ReverseDescribes(res[i], names, visited[i], i);
      var a := new int[|level|](j requires 0 <= j < |level| => level[j]);
      assert a[..] == level;
      assert Below([root], i) == Reverse(visited[i]);
      DeltaEncode(a, names, Below([root], i), i);
      levels := levels + [a[..]];
    }
    g := FlameGraph(names, levels, total, max);
    Encoded(g, roots, visited);
    RootBar(g, roots);
  }

  /** The first level is one bar: all there is, from offset 0 on, with no value of its own, named "total". */
  lemma RootBar(g: FlameGraph, roots: seq<FlameNode>)
    requires Encodes(g, roots)
    ensures g.levels[0] == [0, SumTotals(roots), 0, 0]
  {
    var level, values := Below([Root(roots)], 0), g.levels[0];
    assert level == [Root(roots)];
    assert Describes(values, g.names, level, 0);
    assert BarAt(values, g.names, level, 0, 0, PreviousEnd(level, 0));
    assert g.names[values[3]] == "total";
  }

  lemma Encoded(g: FlameGraph, roots: seq<FlameNode>, visited: seq<seq<Placed>>)
    requires |g.levels| == |visited| > 0 && g.total == SumTotals(roots)
    requires forall l :: 0 <= l < |visited| ==> visited[l] != []
    requires forall l: nat :: Below([Root(roots)], l) == Reverse(At(visited, l))
    requires forall l :: 0 <= l < |g.levels| ==> Describes(g.levels[l], g.names, Below([Root(roots)], l), l)
    requires NameTable(g.names)
    requires MaxOf(visited, g.maxSelf)
    ensures Encodes(g, roots)
  {
    hide Below, MaxOf, Describes;
    var levels := seq(|g.levels|, l requires 0 <= l < |g.levels| => Below([Root(roots)], l));
    forall l | 0 <= l < |levels| ensures levels[l] == Reverse(visited[l]) {
      assert Below([Root(roots)], l) == Reverse(At(visited, l));
    }
    MaxReversed(visited, levels, g.maxSelf);
    forall l: nat | l < |g.levels| ensures Below([Root(roots)], l) != [] {
      assert Below([Root(roots)], l) == Reverse(At(visited, l));
    }
    forall l: nat | l >= |g.levels| ensures Below([Root(roots)], l) == [] {
      assert Below([Root(roots)], l) == Reverse(At(visited, l));
    }
  }
}
