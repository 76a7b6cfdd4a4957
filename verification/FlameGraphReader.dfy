/** The data source's reader of flame graphs: `levelsToTree` finds the parent of every bar
    from the offsets alone. */
module FlameGraphReader {
  import opened Sequences
  import opened FlameGraph

  // ----- geometry: a bar lies within another exactly when it is its child -----

  /** Bars of one level: side by side, left to right. */
  ghost predicate SideBySide(ps: seq<Placed>) {
    && (forall i :: 0 <= i < |ps| ==> WellFormed(ps[i].node))
    && (forall i, j :: 0 <= i < j < |ps| ==> ps[i].End() <= ps[j].start)
  }

  predicate Fits(p: Placed, parent: Placed) {
    p.start >= parent.start && p.End() <= parent.End()
  }

  lemma {:induction false} SumTotalsMonotone(ns: seq<FlameNode>, i: nat, j: nat)
    requires i <= j <= |ns| && forall n :: n in ns ==> n.total > 0
    ensures SumTotals(ns[..i]) <= SumTotals(ns[..j])
    decreases j - i
  {
    if i < j {
      SumTotalsMonotone(ns, i, j - 1);
      SumTotalsNext(ns, j - 1);
    }
  }

  lemma KidsInside(p: Placed)
    requires WellFormed(p.node)
    ensures SideBySide(Kids(p))
    ensures forall k :: 0 <= k < |Kids(p)| ==> Kids(p)[k].node.total > 0 && Fits(Kids(p)[k], p)
  {
    var ns := p.node.children;
    assert ns[..|ns|] == ns;
    forall k | 0 <= k < |ns| ensures Kids(p)[k].node.total > 0 && Fits(Kids(p)[k], p) && WellFormed(ns[k]) {
      assert ns[k] in ns;
      SumTotalsMonotone(ns, 0, k);
      SumTotalsMonotone(ns, k + 1, |ns|);
      SumTotalsNext(ns, k);
    }
    forall i, j | 0 <= i < j < |ns| ensures Kids(p)[i].End() <= Kids(p)[j].start {
      SumTotalsNext(ns, i);
      SumTotalsMonotone(ns, i + 1, j);
    }
  }

  /** The part that holds position `m` of a concatenation. */
  lemma {:induction false} PartOf<T>(ss: seq<seq<T>>, m: nat) returns (j: nat)
    requires m < |Flatten(ss)|
    ensures j < |ss| && Offset(ss, j) <= m < Offset(ss, j + 1)
    ensures Offset(ss, j + 1) <= |Flatten(ss)|
    ensures m - Offset(ss, j) < |ss[j]| && Flatten(ss)[m] == ss[j][m - Offset(ss, j)]
  {
    OffsetEnds(ss);
    j := 0;
    while j + 1 < |ss| && Offset(ss, j + 1) <= m
      invariant j <= |ss| && Offset(ss, j) <= m
    {
      j := j + 1;
    }
    if j == |ss| {
      assert false;
    }
    FlattenPart(ss, j);
    assert Flatten(ss)[m] == Flatten(ss)[Offset(ss, j)..Offset(ss, j + 1)][m - Offset(ss, j)];
  }

  lemma KidOf(ps: seq<Placed>, m: nat) returns (j: nat)
    requires SideBySide(ps) && m < |AllKids(ps)|
    ensures j < |ps| && Offset(KidLists(ps), j) <= m < Offset(KidLists(ps), j + 1)
    ensures m - Offset(KidLists(ps), j) < |Kids(ps[j])| && AllKids(ps)[m] == Kids(ps[j])[m - Offset(KidLists(ps), j)]
    ensures WellFormed(AllKids(ps)[m].node) && AllKids(ps)[m].node.total > 0 && Fits(AllKids(ps)[m], ps[j])
  {
    j := PartOf(KidLists(ps), m);
    KidsInside(ps[j]);
  }

  lemma NextLevelOrdered(ps: seq<Placed>)
    requires SideBySide(ps)
    ensures SideBySide(AllKids(ps))
  {
    hide AllKids, Kids, WellFormed;
    var next := AllKids(ps);
    forall m | 0 <= m < |next| ensures WellFormed(next[m].node) {
      var j := KidOf(ps, m);
    }
    forall m, n | 0 <= m < n < |next| ensures next[m].End() <= next[n].start {
      var i := KidOf(ps, m);
      var j := KidOf(ps, n);
      if i == j {
        KidsInside(ps[i]);
      } else if i > j {
        OffsetMonotone(KidLists(ps), j + 1, i);
        assert false;
      }
    }
  }

  lemma {:induction false} LevelOrdered(root: Placed, l: nat)
    requires WellFormed(root.node)
    ensures SideBySide(Below([root], l))
  {
    if l > 0 {
      LevelOrdered(root, l - 1);
      NextLevelOrdered(Below([root], l - 1));
      BelowNext([root], l - 1);
    }
  }

  lemma {:induction false} BelowNext(ps: seq<Placed>, l: nat)
    ensures Below(ps, l + 1) == AllKids(Below(ps, l))
    decreases l
  {
    if l > 0 {
      BelowNext(AllKids(ps), l - 1);
    }
  }

  /** The test of the reader is right: of the parents not yet passed, a bar fits its own alone. */
  lemma FitsExactly(ps: seq<Placed>, j: nat, m: nat)
    requires SideBySide(ps) && j < |ps| && Offset(KidLists(ps), j) <= m < |AllKids(ps)|
    ensures Fits(AllKids(ps)[m], ps[j]) <==> m < Offset(KidLists(ps), j + 1)
  {
    hide AllKids, Kids, WellFormed;
    var i := KidOf(ps, m);
    if i < j {
      OffsetMonotone(KidLists(ps), i + 1, j);
      assert false;
    } else if j < i {
      OffsetMonotone(KidLists(ps), j + 1, i);
      assert ps[j].End() <= ps[i].start;
    }
  }

  /** Of the parent of the bar before, the childless parents after it, and its own, a bar fits its own
      and no other: so the reader, who goes through the parents in order, finds all parents. */
  ghost predicate Findable(ps: seq<Placed>) {
    forall j, m: nat :: 0 <= j < |ps| && Offset(KidLists(ps), j) <= m <= Offset(KidLists(ps), j + 1) && m < |AllKids(ps)| ==>
      (Fits(AllKids(ps)[m], ps[j]) <==> m < Offset(KidLists(ps), j + 1))
  }

  ghost predicate FindsAll(root: Placed) {
    forall l: nat :: Findable(Below([root], l))
  }

  lemma SideBySideIsFindable(ps: seq<Placed>)
    requires SideBySide(ps)
    ensures Findable(ps)
  {
    hide AllKids, KidLists, SideBySide, Fits, Offset;
    forall j, m: nat | 0 <= j < |ps| && Offset(KidLists(ps), j) <= m <= Offset(KidLists(ps), j + 1) && m < |AllKids(ps)|
      ensures Fits(AllKids(ps)[m], ps[j]) <==> m < Offset(KidLists(ps), j + 1)
    {
      FitsExactly(ps, j, m);
    }
  }

  // ----- the reader -----

  class ProfileTree {
    const start: int
    const value: int
    const self: int
    const level: nat
    const name: string
    var nodes: seq<ProfileTree>

    constructor (start: int, value: int, self: int, level: nat, name: string)
      ensures this.start == start && this.value == value && this.self == self
      ensures this.level == level && this.name == name && nodes == []
    {
      this.start, this.value, this.self := start, value, self;
      this.level, this.name, nodes := level, name, [];
    }
  }

  /** A tree item carries the figures and the name of a bar. */
  ghost predicate Shows(t: ProfileTree, p: Placed, l: nat) {
    && t.start == p.start && t.value == p.node.total && t.self == p.node.self
    && t.level == l && t.name == Shown(p, l)
  }

  ghost predicate ShowsAll(ts: seq<ProfileTree>, ps: seq<Placed>, l: nat) {
    |ts| == |ps| && forall k :: 0 <= k < |ts| ==> Shows(ts[k], ps[k], l)
  }

  /** The same tree: figures, names, depth, and the children one by one. */
  ghost predicate Represents(t: ProfileTree, p: Placed, l: nat)
    reads *
    decreases p.node
  {
    && Shows(t, p, l)
    && |t.nodes| == |p.node.children|
    && forall k :: 0 <= k < |t.nodes| ==> Represents(t.nodes[k], Placed(p.node.children[k], Kids(p)[k].start), l + 1)
  }

  function Cut<T>(s: seq<T>, a: nat, b: nat): seq<T> {
    if a <= b <= |s| then s[a..b] else []
  }

  ghost function NodesOf(ts: seq<ProfileTree>): seq<seq<ProfileTree>>
    reads set t | t in ts
  {
    seq(|ts|, k requires 0 <= k < |ts| reads set t | t in ts => ts[k].nodes)
  }

  /** Every parent holds exactly the items of its own children. */
  ghost predicate Linked(lists: seq<seq<ProfileTree>>, next: seq<ProfileTree>, ps: seq<Placed>) {
    && |lists| == |ps|
    && forall k :: 0 <= k < |ps| ==> lists[k] == Cut(next, Offset(KidLists(ps), k), Offset(KidLists(ps), k + 1))
  }

  /** The same while the level is being read: parent `j` is being filled. */
  ghost predicate Filling(lists: seq<seq<ProfileTree>>, next: seq<ProfileTree>, ps: seq<Placed>, j: nat) {
    && |lists| == |ps| && j < |ps|
    && Offset(KidLists(ps), j) <= |next| <= Offset(KidLists(ps), j + 1)
    && (forall k :: 0 <= k < j ==> lists[k] == Cut(next, Offset(KidLists(ps), k), Offset(KidLists(ps), k + 1)))
    && lists[j] == next[Offset(KidLists(ps), j)..]
    && (forall k :: j < k < |ps| ==> lists[k] == [])
  }

  predicate HasItems(values: seq<int>, names: seq<string>) {
    && |values| % 4 == 0
    && forall k :: 0 <= k < |values| / 4 ==> 0 <= values[4 * k + 3] < |names|
  }

  ghost predicate NewItems(next: seq<ProfileTree>, l: nat)
    reads set n | n in next
  {
    Distinct(next) && forall n :: n in next ==> n.nodes == [] && n.level == l
  }

  lemma Filled(lists: seq<seq<ProfileTree>>, next: seq<ProfileTree>, ps: seq<Placed>, j: nat)
    requires Filling(lists, next, ps, j) && |next| == |AllKids(ps)|
    ensures Linked(lists, next, ps)
  {
    hide Offset, KidLists;
    var ks := KidLists(ps);
    OffsetEnds(ks);
    forall k | j <= k < |ps| ensures lists[k] == Cut(next, Offset(ks, k), Offset(ks, k + 1)) {
      OffsetMonotone(ks, j + 1, k + 1);
      OffsetMonotone(ks, k, k + 1);
      if j < k {
        OffsetMonotone(ks, j + 1, k);
      }
    }
  }

  /** The level is the next one below `ps`, and the parents are the items of `ps`. */
  ghost predicate Matching(values: seq<int>, names: seq<string>, l: nat, parents: seq<ProfileTree>, ps: seq<Placed>) {
    l > 0 && Findable(ps) && ShowsAll(parents, ps, l - 1) && Describes(values, names, AllKids(ps), l)
  }

  lemma ItemAdded(lists: seq<seq<ProfileTree>>, next: seq<ProfileTree>, ps: seq<Placed>, j: nat, item: ProfileTree)
    requires Filling(lists, next, ps, j) && |next| < Offset(KidLists(ps), j + 1)
    ensures Filling(lists[j := lists[j] + [item]], next + [item], ps, j)
  {
    hide Offset, KidLists, Cut;
    var ks := KidLists(ps);
    forall k | 0 <= k < j ensures lists[k] == Cut(next + [item], Offset(ks, k), Offset(ks, k + 1)) {
      OffsetMonotone(ks, k, k + 1);
      OffsetMonotone(ks, k + 1, j);
      CutLonger(next, item, Offset(ks, k), Offset(ks, k + 1));
    }
    Suffix(next, item, Offset(ks, j));
  }

  lemma CutLonger<T>(s: seq<T>, x: T, a: nat, b: nat)
    requires a <= b <= |s|
    ensures Cut(s + [x], a, b) == Cut(s, a, b)
  {
  }

  lemma Suffix<T>(s: seq<T>, x: T, a: nat)
    requires a <= |s|
    ensures (s + [x])[a..] == s[a..] + [x]
  {
  }

  lemma NextParent(lists: seq<seq<ProfileTree>>, next: seq<ProfileTree>, ps: seq<Placed>, j: nat)
    requires Filling(lists, next, ps, j) && |next| == Offset(KidLists(ps), j + 1)
    requires |next| < |AllKids(ps)|
    ensures j + 1 < |ps| && Filling(lists, next, ps, j + 1)
  {
    var ks := KidLists(ps);
    OffsetEnds(ks);
    if j + 1 < |ps| {
      OffsetMonotone(ks, j + 1, j + 2);
    }
  }

  lemma FirstParent(lists: seq<seq<ProfileTree>>, ps: seq<Placed>)
    requires |lists| == |ps| > 0 && forall k :: 0 <= k < |lists| ==> lists[k] == []
    ensures Filling(lists, [], ps, 0)
  {
    OffsetEnds(KidLists(ps));
  }

  /** How far the level has been read, when it is the level below `ps`. */
  ghost predicate Reading(values: seq<int>, l: nat, lists: seq<seq<ProfileTree>>, ps: seq<Placed>,
                          next: seq<ProfileTree>, offset: int, j: nat) {
    && |values| == 4 * |AllKids(ps)| && |next| <= |AllKids(ps)|
    && offset == PreviousEnd(AllKids(ps), |next|)
    && (forall k :: 0 <= k < |next| ==> Shows(next[k], AllKids(ps)[k], l))
    && Filling(lists, next, ps, j)
  }

  predicate InBounds(values: seq<int>, offset: int, m: nat, parent: ProfileTree)
    requires 4 * m + 3 < |values|
  {
    var start := values[4 * m] + offset;
    start >= parent.start && start + values[4 * m + 1] <= parent.start + parent.value
  }

  /** The next item fits the current parent exactly when it is one of its children. */
  lemma InBoundsExactly(values: seq<int>, names: seq<string>, l: nat, parents: seq<ProfileTree>,
                        lists: seq<seq<ProfileTree>>, ps: seq<Placed>, next: seq<ProfileTree>, offset: int, j: nat)
    requires Matching(values, names, l, parents, ps)
    requires Reading(values, l, lists, ps, next, offset, j) && 4 * |next| < |values|
    ensures BarAt(values, names, AllKids(ps), l, |next|, offset)
    ensures j < |parents| && InBounds(values, offset, |next|, parents[j]) <==> |next| < Offset(KidLists(ps), j + 1)
  {
    hide AllKids, Offset, KidLists;
    assert Fits(AllKids(ps)[|next|], ps[j]) <==> |next| < Offset(KidLists(ps), j + 1);
    assert Shows(parents[j], ps[j], l - 1);
  }

  lemma ItemTaken(values: seq<int>, names: seq<string>, l: nat, parents: seq<ProfileTree>,
                  lists: seq<seq<ProfileTree>>, ps: seq<Placed>, next: seq<ProfileTree>, offset: int, j: nat,
                  item: ProfileTree)
    requires Matching(values, names, l, parents, ps)
    requires Reading(values, l, lists, ps, next, offset, j) && 4 * |next| < |values|
    requires 0 <= values[4 * |next| + 3] < |names| && j < |parents| && InBounds(values, offset, |next|, parents[j])
    requires item.start == values[4 * |next|] + offset && item.value == values[4 * |next| + 1]
    requires item.self == values[4 * |next| + 2] && item.level == l && item.name == names[values[4 * |next| + 3]]
    ensures Reading(values, l, lists[j := lists[j] + [item]], ps, next + [item], item.start + item.value, j)
  {
    hide AllKids, Findable, Offset, KidLists, Matching, Filling;
    InBoundsExactly(values, names, l, parents, lists, ps, next, offset, j);
    ItemAdded(lists, next, ps, j, item);
  }

  lemma ParentPassed(values: seq<int>, names: seq<string>, l: nat, parents: seq<ProfileTree>,
                     lists: seq<seq<ProfileTree>>, ps: seq<Placed>, next: seq<ProfileTree>, offset: int, j: nat)
    requires Matching(values, names, l, parents, ps)
    requires Reading(values, l, lists, ps, next, offset, j) && 4 * |next| < |values|
    requires j < |parents| && !InBounds(values, offset, |next|, parents[j])
    ensures j + 1 < |parents| && Reading(values, l, lists, ps, next, offset, j + 1)
  {
    hide AllKids, Findable, Offset, KidLists, Describes;
    InBoundsExactly(values, names, l, parents, lists, ps, next, offset, j);
    NextParent(lists, next, ps, j);
  }

  lemma ReadingStarts(values: seq<int>, names: seq<string>, l: nat, parents: seq<ProfileTree>,
                      lists: seq<seq<ProfileTree>>, ps: seq<Placed>)
    requires Matching(values, names, l, parents, ps) && |lists| == |parents| > 0
    requires forall k :: 0 <= k < |lists| ==> lists[k] == []
    ensures Reading(values, l, lists, ps, [], 0, 0)
  {
    hide AllKids, Filling;
    FirstParent(lists, ps);
  }

  lemma ReadingEnds(values: seq<int>, l: nat, lists: seq<seq<ProfileTree>>, ps: seq<Placed>, next: seq<ProfileTree>, offset: int, j: nat)
    requires Reading(values, l, lists, ps, next, offset, j) && 4 * |next| >= |values|
    ensures ShowsAll(next, AllKids(ps), l) && Linked(lists, next, ps)
  {
    hide AllKids, Filling, Linked;
    Filled(lists, next, ps, j);
  }

  predicate Within(c: ProfileTree, t: ProfileTree) {
    c.start >= t.start && c.start + c.value <= t.start + t.value
  }

  /** Whatever the data: the items come in the order of their parents, each within its own and, of the
      parents passed on the way to this one, within no other. */
  ghost predicate GreedyRow(parents: seq<ProfileTree>, lists: seq<seq<ProfileTree>>, next: seq<ProfileTree>) {
    && |lists| == |parents| && Flatten(lists) == next
    && forall k, m: nat :: 0 <= k < |parents| ==> GreedyAt(parents, lists, next, k, m)
  }

  ghost predicate GreedyAt(parents: seq<ProfileTree>, lists: seq<seq<ProfileTree>>, next: seq<ProfileTree>, k: nat, m: nat)
    requires k < |parents| == |lists|
  {
    Offset(lists, k) <= m <= Offset(lists, k + 1) && m < |next| ==>
      (Within(next[m], parents[k]) <==> m < Offset(lists, k + 1))
  }

  /** The same while the level is being read: the next item fits none of the parents just passed. */
  ghost predicate Picking(values: seq<int>, parents: seq<ProfileTree>, lists: seq<seq<ProfileTree>>, next: seq<ProfileTree>,
                          offset: int, j: nat)
  {
    && |lists| == |parents| && j < |parents| && Flatten(lists) == next
    && (forall k :: j < k < |lists| ==> lists[k] == [])
    && (forall k, m: nat :: 0 <= k <= j ==> GreedyAt(parents, lists, next, k, m))
    && (forall k :: 0 <= k < j && Offset(lists, k + 1) == |next| && 4 * |next| + 3 < |values| ==>
          !InBounds(values, offset, |next|, parents[k]))
  }

  /** An item more for list `j`, after which all lists are empty. */
  lemma OffsetsAfter(lists: seq<seq<ProfileTree>>, j: nat, item: ProfileTree)
    requires j < |lists| && forall k :: j < k < |lists| ==> lists[k] == []
    ensures Offset(lists, j + 1) == |Flatten(lists)|
    ensures
      var lists' := lists[j := lists[j] + [item]];
      && Flatten(lists') == Flatten(lists) + [item]
      && (forall k :: 0 <= k <= j ==> Offset(lists', k) == Offset(lists, k))
      && Offset(lists', j + 1) == Offset(lists, j + 1) + 1
  {
    var lists', rest := lists[j := lists[j] + [item]], lists[j + 1..];
    FlattenEmpty(rest);
    FlattenAround(lists, j);
    FlattenAround(lists', j);
    assert lists'[j + 1..] == rest && lists'[..j] == lists[..j];
    hide Flatten;
    SeqAssociative(Flatten(lists[..j]), lists[j], [item]);
    assert Flatten(lists) + [] == Flatten(lists);
    FlattenPart(lists, j);
    FlattenPart(lists', j);
    forall k | 0 <= k <= j ensures lists'[..k] == lists[..k] {
    }
  }

  lemma PickingStarts(values: seq<int>, parents: seq<ProfileTree>, lists: seq<seq<ProfileTree>>)
    requires |lists| == |parents| > 0 && forall k :: 0 <= k < |lists| ==> lists[k] == []
    ensures Picking(values, parents, lists, [], 0, 0)
  {
    FlattenEmpty(lists);
  }

  lemma PickingParents(values: seq<int>, parents: seq<ProfileTree>, lists: seq<seq<ProfileTree>>, next: seq<ProfileTree>, offset: int,
                       j: nat)
    requires Picking(values, parents, lists, next, offset, j)
    ensures |lists| == |parents|
  {
  }

  lemma PickingTakes(values: seq<int>, parents: seq<ProfileTree>, lists: seq<seq<ProfileTree>>, next: seq<ProfileTree>, offset: int,
                     j: nat, item: ProfileTree)
    requires Picking(values, parents, lists, next, offset, j) && 4 * |next| + 3 < |values|
    requires item.start == values[4 * |next|] + offset && item.value == values[4 * |next| + 1]
    requires InBounds(values, offset, |next|, parents[j])
    ensures Picking(values, parents, lists[j := lists[j] + [item]], next + [item], item.start + item.value, j)
  {
    var lists', next' := lists[j := lists[j] + [item]], next + [item];
    OffsetsAfter(lists, j, item);
    hide Offset, Flatten;
    forall k | 0 <= k <= j ensures Offset(lists, k) <= |next| {
      OffsetMonotone(lists, k, j + 1);
    }
    forall k, m: nat | 0 <= k <= j ensures GreedyAt(parents, lists', next', k, m) {
      assert GreedyAt(parents, lists, next, k, m);
      if m < |next| {
        assert next'[m] == next[m];
      }
    }
  }

  lemma PickingPasses(values: seq<int>, parents: seq<ProfileTree>, lists: seq<seq<ProfileTree>>, next: seq<ProfileTree>, offset: int,
                      j: nat)
    requires Picking(values, parents, lists, next, offset, j) && 4 * |next| + 3 < |values| && j + 1 < |parents|
    requires !InBounds(values, offset, |next|, parents[j])
    ensures Picking(values, parents, lists, next, offset, j + 1)
  {
    LaterOffsets(lists, next, j);
  }

  lemma LaterOffsets(lists: seq<seq<ProfileTree>>, next: seq<ProfileTree>, j: nat)
    requires j < |lists| && Flatten(lists) == next && forall k :: j < k < |lists| ==> lists[k] == []
    ensures forall k :: j < k <= |lists| ==> Offset(lists, k) == |next|
  {
    hide Flatten;
    forall k | j < k <= |lists| ensures Offset(lists, k) == |next| {
      FlattenAround(lists, k - 1);
      FlattenEmpty(lists[k..]);
      FlattenPart(lists, k - 1);
    }
  }

  lemma PickingEnds(values: seq<int>, parents: seq<ProfileTree>, lists: seq<seq<ProfileTree>>, next: seq<ProfileTree>, offset: int, j: nat)
    requires Picking(values, parents, lists, next, offset, j)
    ensures GreedyRow(parents, lists, next)
  {
    LaterOffsets(lists, next, j);
    hide Offset, Flatten;
    forall k, m: nat | 0 <= k < |parents| ensures GreedyAt(parents, lists, next, k, m) {
      if k > j {
        assert Offset(lists, k) == |next|;
      }
    }
  }

  lemma LevelStarts(parents: seq<ProfileTree>, l: nat)
    requires l > 0 && NewItems(parents, l - 1)
    ensures Distinct(parents) && (forall p :: p in parents ==> p.level != l) && NewItems([], l)
    ensures |NodesOf(parents)| == |parents| && forall k :: 0 <= k < |parents| ==> NodesOf(parents)[k] == []
  {
  }

  lemma ItemThere(values: seq<int>, names: seq<string>, m: nat)
    requires HasItems(values, names) && 4 * m < |values|
    ensures 4 * m + 3 < |values| && 0 <= values[4 * m + 3] < |names|
  {
  }

  /** A new item for the current parent, within whose bounds it is. */
  method TakeItem(values: seq<int>, names: seq<string>, l: nat, itemIndex: nat, offset: int, parent: ProfileTree,
                  ghost parents: seq<ProfileTree>, ghost ps: seq<Placed>, ghost next: seq<ProfileTree>,
                  ghost lists: seq<seq<ProfileTree>>, ghost j: nat)
    returns (item: ProfileTree)
    requires itemIndex == 4 * |next| && itemIndex + 3 < |values| && 0 <= values[itemIndex + 3] < |names|
    requires Distinct(parents) && j < |parents| && parent == parents[j] && NewItems(next, l)
    requires (forall p :: p in parents ==> p.level != l) && lists == NodesOf(parents)
    requires Picking(values, parents, lists, next, offset, j) && InBounds(values, offset, |next|, parent)
    modifies parent
    ensures fresh(item) && |lists| == |parents| && NodesOf(parents) == lists[j := lists[j] + [item]]
    ensures item.start == values[itemIndex] + offset && item.value == values[itemIndex + 1]
    ensures NewItems(next + [item], l)
    ensures Picking(values, parents, lists[j := lists[j] + [item]], next + [item], item.start + item.value, j)
    ensures Matching(values, names, l, parents, ps) && Reading(values, l, lists, ps, next, offset, j) ==>
              Reading(values, l, lists[j := lists[j] + [item]], ps, next + [item], item.start + item.value, j)
  {
    hide *;
    PickingParents(values, parents, lists, next, offset, j);
    var start, value, self := values[itemIndex] + offset, values[itemIndex + 1], values[itemIndex + 2];
    item := new ProfileTree(start, value, self, l, names[values[itemIndex + 3]]);
    PickingTakes(values, parents, lists, next, offset, j, item);
    if Matching(values, names, l, parents, ps) && Reading(values, l, lists, ps, next, offset, j) {
      ItemTaken(values, names, l, parents, lists, ps, next, offset, j, item);
    }
    AddItem(parent, item, parents, next, l, lists, j);
  }

  method AddItem(parent: ProfileTree, item: ProfileTree, ghost parents: seq<ProfileTree>, ghost next: seq<ProfileTree>,
                 ghost l: nat, ghost lists: seq<seq<ProfileTree>>, ghost j: nat)
    requires Distinct(parents) && j < |parents| && parent == parents[j] && lists == NodesOf(parents)
    requires (forall p :: p in parents ==> p.level != l) && NewItems(next, l)
    requires item !in next && item !in parents && item.nodes == [] && item.level == l
    modifies parent
    ensures NodesOf(parents) == lists[j := lists[j] + [item]] && NewItems(next + [item], l)
  {
    parent.nodes := parent.nodes + [item];
  }

  /** One level: every item goes to the parent whose bounds it fits. */
  method ReadLevel(values: seq<int>, names: seq<string>, l: nat, parents: seq<ProfileTree>, ghost ps: seq<Placed>)
    returns (next: seq<ProfileTree>)
    requires l > 0 && HasItems(values, names) && parents != [] && NewItems(parents, l - 1)
    modifies set p | p in parents
    ensures NewItems(next, l) && forall n :: n in next ==> fresh(n)
    ensures GreedyRow(parents, NodesOf(parents), next)
    ensures Matching(values, names, l, parents, ps) ==> ShowsAll(next, AllKids(ps), l) && Linked(NodesOf(parents), next, ps)
  {
    hide AllKids, Linked, Matching, Reading, ShowsAll, Picking, GreedyRow, NewItems, Distinct, HasItems, InBounds, NodesOf;
    LevelStarts(parents, l);
    ghost var good := Matching(values, names, l, parents, ps);
    ghost var lists := NodesOf(parents);
    next := [];
    var currentParent, rest := parents[0], parents[1..];
    var itemIndex, offset := 0, 0;
    ghost var j := 0;
    PickingStarts(values, parents, lists);
    if good {
      ReadingStarts(values, names, l, parents, lists, ps);
    }
    while itemIndex < |values|
      invariant itemIndex == 4 * |next| && itemIndex <= |values|
      invariant j < |parents| && currentParent == parents[j] && rest == parents[j + 1..]
      invariant NewItems(next, l) && forall n :: n in next ==> fresh(n)
      invariant lists == NodesOf(parents) && Picking(values, parents, lists, next, offset, j)
      invariant good ==> Reading(values, l, lists, ps, next, offset, j)
      decreases |values| - itemIndex, |rest|
    {
      ItemThere(values, names, |next|);
      if InBounds(values, offset, |next|, currentParent) {
        var item := TakeItem(values, names, l, itemIndex, offset, currentParent, parents, ps, next, lists, j);
        lists := lists[j := lists[j] + [item]];
        next := next + [item];
        itemIndex := itemIndex + 4;
        offset := item.start + item.value;
      } else {
        if good {
          ParentPassed(values, names, l, parents, lists, ps, next, offset, j);
        }
        if rest == [] {
          break;
        }
        PickingPasses(values, parents, lists, next, offset, j);
        currentParent, rest := rest[0], rest[1..];
        j := j + 1;
      }
    }
    PickingEnds(values, parents, lists, next, offset, j);
    if good {
      ReadingEnds(values, l, lists, ps, next, offset, j);
    }
  }

  predicate Readable(levels: seq<seq<int>>, names: seq<string>) {
    && levels != [] && |levels[0]| >= 4 && 0 <= levels[0][0] < |names|
    && forall l :: 0 <= l < |levels| ==> HasItems(levels[l], names)
  }

  /** The items read so far, level by level; all but the last level have their children,
      `lists[l]` for the items of level `l`. */
  ghost predicate Built(rows: seq<seq<ProfileTree>>, lists: seq<seq<seq<ProfileTree>>>, root: Placed) {
    && |rows| == |lists| + 1
    && (forall l :: 0 <= l < |rows| ==> ShowsAll(rows[l], Below([root], l), l))
    && (forall l :: 0 <= l < |lists| ==> Linked(lists[l], rows[l + 1], Below([root], l)))
  }

  ghost predicate Holds(rows: seq<seq<ProfileTree>>, lists: seq<seq<seq<ProfileTree>>>)
    reads set r, t | r in rows && t in r :: t
  {
    |rows| == |lists| + 1 && forall l :: 0 <= l < |lists| ==> NodesOf(rows[l]) == lists[l]
  }

  ghost predicate OnLevels(rows: seq<seq<ProfileTree>>) {
    forall l, t :: 0 <= l < |rows| && t in rows[l] ==> t.level == l
  }

  /** The children of an item are the stretch of the next level that is its own. */
  lemma LinkedTo(rows: seq<seq<ProfileTree>>, lists: seq<seq<seq<ProfileTree>>>, root: Placed, l: nat, k: nat)
    requires Built(rows, lists, root) && Holds(rows, lists) && l + 1 < |rows| && k < |rows[l]|
    ensures k < |Below([root], l)|
    ensures
      var ks := KidLists(Below([root], l));
      && Offset(ks, k) + |Kids(Below([root], l)[k])| <= |rows[l + 1]|
      && rows[l][k].nodes == rows[l + 1][Offset(ks, k)..Offset(ks, k) + |Kids(Below([root], l)[k])|]
  {
    hide Below, Offset, Flatten, Kids, NodesOf;
    BelowNext([root], l);
    FlattenPart(KidLists(Below([root], l)), k);
    NodesAt(rows[l], k);
  }

  /** Items that hold each other as the levels say make up the tree. */
  lemma {:induction false} BuiltRepresents(rows: seq<seq<ProfileTree>>, lists: seq<seq<seq<ProfileTree>>>, root: Placed, l: nat, k: nat)
    requires Built(rows, lists, root) && Holds(rows, lists) && Below([root], |rows|) == []
    requires l < |rows| && k < |rows[l]| && NewItems(rows[|rows| - 1], |rows| - 1)
    ensures Represents(rows[l][k], Below([root], l)[k], l)
    decreases |rows| - l
  {
    hide Below, Offset, Flatten, Kids, NodesOf, Represents, Linked, Holds, Shows;
    var ps, ks := Below([root], l), KidLists(Below([root], l));
    var t, p := rows[l][k], ps[k];
    assert Shows(t, p, l);
    if l == |rows| - 1 {
      BelowNext([root], l);
      NoBarsBelow(ps, k);
      Folded(t, p, l);
    } else {
      LinkedTo(rows, lists, root, l, k);
      KidsCount(p);
      var first := Offset(ks, k);
      KidsBelow(root, l, k);
      hide Built, KidLists, NewItems;
      forall i | 0 <= i < |t.nodes| ensures Represents(t.nodes[i], Kids(p)[i], l + 1) {
        assert t.nodes[i] == rows[l + 1][first + i];
        BuiltRepresents(rows, lists, root, l + 1, first + i);
      }
      Folded(t, p, l);
    }
  }

  /** The bars of a stretch of the next level. */
  lemma KidsBelow(root: Placed, l: nat, k: nat)
    requires k < |Below([root], l)|
    ensures
      var ps := Below([root], l);
      && Offset(KidLists(ps), k) + |Kids(ps[k])| <= |Below([root], l + 1)|
      && forall i :: 0 <= i < |Kids(ps[k])| ==> Below([root], l + 1)[Offset(KidLists(ps), k) + i] == Kids(ps[k])[i]
  {
    hide Below, Offset, Flatten, Kids;
    var ps := Below([root], l);
    BelowNext([root], l);
    FlattenPart(KidLists(ps), k);
    forall i | 0 <= i < |Kids(ps[k])| ensures Below([root], l + 1)[Offset(KidLists(ps), k) + i] == Kids(ps[k])[i] {
      assert KidLists(ps)[k][i] == AllKids(ps)[Offset(KidLists(ps), k)..Offset(KidLists(ps), k + 1)][i];
    }
  }

  lemma NodesAt(ts: seq<ProfileTree>, k: nat)
    requires k < |ts|
    ensures |NodesOf(ts)| == |ts| && NodesOf(ts)[k] == ts[k].nodes
  {
  }

  lemma KidsCount(p: Placed)
    ensures |Kids(p)| == |p.node.children|
    ensures forall i :: 0 <= i < |Kids(p)| ==> Kids(p)[i].node == p.node.children[i]
  {
  }

  lemma NoBarsBelow(ps: seq<Placed>, k: nat)
    requires AllKids(ps) == [] && k < |ps|
    ensures ps[k].node.children == []
  {
    FlattenPart(KidLists(ps), k);
  }

  lemma Folded(t: ProfileTree, p: Placed, l: nat)
    requires Shows(t, p, l) && |t.nodes| == |p.node.children|
    requires forall i :: 0 <= i < |t.nodes| ==> Represents(t.nodes[i], Kids(p)[i], l + 1)
    ensures Represents(t, p, l)
  {
    KidsCount(p);
  }

  /** The next level is below the last row. */
  lemma RowMatches(values: seq<int>, names: seq<string>, rows: seq<seq<ProfileTree>>, lists: seq<seq<seq<ProfileTree>>>, root: Placed)
    requires Built(rows, lists, root) && FindsAll(root)
    requires Describes(values, names, Below([root], |rows|), |rows|)
    ensures Matching(values, names, |rows|, rows[|rows| - 1], Below([root], |rows| - 1))
  {
    hide Below, Describes, Linked, ShowsAll, AllKids, Findable;
    BelowNext([root], |rows| - 1);
  }

  lemma RowBuilt(rows: seq<seq<ProfileTree>>, lists: seq<seq<seq<ProfileTree>>>, root: Placed, next: seq<ProfileTree>,
                 last: seq<seq<ProfileTree>>)
    requires Built(rows, lists, root)
    requires ShowsAll(next, AllKids(Below([root], |rows| - 1)), |rows|)
    requires Linked(last, next, Below([root], |rows| - 1))
    ensures Built(rows + [next], lists + [last], root)
  {
    hide Below, Linked, ShowsAll, AllKids;
    BelowNext([root], |rows| - 1);
  }

  ghost predicate GreedyRows(rows: seq<seq<ProfileTree>>, lists: seq<seq<seq<ProfileTree>>>) {
    |rows| == |lists| + 1 && forall l :: 0 <= l < |lists| ==> GreedyRow(rows[l], lists[l], rows[l + 1])
  }

  lemma GreedyRowsMore(rows: seq<seq<ProfileTree>>, lists: seq<seq<seq<ProfileTree>>>, next: seq<ProfileTree>, last: seq<seq<ProfileTree>>)
    requires GreedyRows(rows, lists) && GreedyRow(rows[|rows| - 1], last, next)
    ensures GreedyRows(rows + [next], lists + [last])
  {
    hide GreedyRow;
  }

  // ----- if the items make up the tree, all parents were to be found -----

  ghost predicate RowRepresents(ts: seq<ProfileTree>, ps: seq<Placed>, l: nat)
    reads *
  {
    |ts| == |ps| && forall k :: 0 <= k < |ts| ==> Represents(ts[k], ps[k], l)
  }

  lemma {:induction false} SameOffsets<A, B>(a: seq<seq<A>>, b: seq<seq<B>>, k: nat)
    requires |a| == |b| && (forall i :: 0 <= i < |a| ==> |a[i]| == |b[i]|) && k <= |a|
    ensures Offset(a, k) == Offset(b, k)
  {
    if k > 0 {
      SameOffsets(a, b, k - 1);
      hide Flatten;
      FlattenPart(a, k - 1);
      FlattenPart(b, k - 1);
    }
  }

  lemma NodesRepresent(t: ProfileTree, p: Placed, l: nat)
    requires Represents(t, p, l)
    ensures RowRepresents(t.nodes, Kids(p), l + 1) && Shows(t, p, l)
  {
    KidsCount(p);
    hide Kids;
    forall k | 0 <= k < |t.nodes| ensures Represents(t.nodes[k], Kids(p)[k], l + 1) {
      assert Kids(p)[k] == Placed(p.node.children[k], Kids(p)[k].start);
    }
  }

  /** The next row represents the next level. */
  lemma NextRowRepresents(ts: seq<ProfileTree>, ps: seq<Placed>, l: nat)
    requires RowRepresents(ts, ps, l)
    ensures RowRepresents(Flatten(NodesOf(ts)), AllKids(ps), l + 1)
    ensures forall k :: 0 <= k <= |ts| ==> Offset(NodesOf(ts), k) == Offset(KidLists(ps), k)
  {
    hide Represents, Kids, Offset, Flatten;
    var ns, ks := NodesOf(ts), KidLists(ps);
    forall k | 0 <= k < |ts| ensures RowRepresents(ns[k], ks[k], l + 1) {
      NodesAt(ts, k);
      NodesRepresent(ts[k], ps[k], l);
    }
    forall k | 0 <= k <= |ts| ensures Offset(ns, k) == Offset(ks, k) {
      SameOffsets(ns, ks, k);
    }
    OffsetEnds(ns);
    OffsetEnds(ks);
    forall m | 0 <= m < |Flatten(ns)| ensures Represents(Flatten(ns)[m], AllKids(ps)[m], l + 1) {
      var j := PartOf(ks, m);
      FlattenPart(ns, j);
      assert Flatten(ns)[m] == Flatten(ns)[Offset(ns, j)..Offset(ns, j + 1)][m - Offset(ns, j)];
      assert RowRepresents(ns[j], ks[j], l + 1);
    }
  }

  lemma {:induction false} RowsRepresent(rows: seq<seq<ProfileTree>>, lists: seq<seq<seq<ProfileTree>>>, root: Placed, l: nat)
    requires GreedyRows(rows, lists) && Holds(rows, lists) && l < |rows|
    requires |rows[0]| == 1 && Represents(rows[0][0], root, 0)
    ensures RowRepresents(rows[l], Below([root], l), l)
  {
    hide Represents, AllKids;
    if l == 0 {
      BelowZero([root]);
    } else {
      RowsRepresent(rows, lists, root, l - 1);
      NextRowRepresents(rows[l - 1], Below([root], l - 1), l - 1);
      assert GreedyRow(rows[l - 1], lists[l - 1], rows[l]);
      BelowNext([root], l - 1);
    }
  }

  lemma GreedyIsFindable(ts: seq<ProfileTree>, ps: seq<Placed>, l: nat, next: seq<ProfileTree>)
    requires RowRepresents(ts, ps, l) && GreedyRow(ts, NodesOf(ts), next)
    ensures Findable(ps)
  {
    NextRowRepresents(ts, ps, l);
    hide Kids, Offset, Flatten, KidLists, AllKids, NodesOf;
    forall j, m: nat | 0 <= j < |ps| && Offset(KidLists(ps), j) <= m <= Offset(KidLists(ps), j + 1) && m < |AllKids(ps)|
      ensures Fits(AllKids(ps)[m], ps[j]) <==> m < Offset(KidLists(ps), j + 1)
    {
      assert GreedyAt(ts, NodesOf(ts), next, j, m);
      NodesRepresent(ts[j], ps[j], l);
      NodesRepresent(next[m], AllKids(ps)[m], l + 1);
    }
  }

  lemma LastLevel(ts: seq<ProfileTree>, ps: seq<Placed>, l: nat)
    requires RowRepresents(ts, ps, l) && forall t :: t in ts ==> t.nodes == []
    ensures AllKids(ps) == []
  {
    forall k | 0 <= k < |ps| ensures KidLists(ps)[k] == [] {
      NodesRepresent(ts[k], ps[k], l);
    }
    FlattenEmpty(KidLists(ps));
  }

  lemma {:induction false} NothingBelow(root: Placed, n: nat, l: nat)
    requires Below([root], n) == [] && n <= l
    ensures Below([root], l) == []
    decreases l
  {
    if n < l {
      NothingBelow(root, n, l - 1);
      BelowNext([root], l - 1);
    }
  }

  lemma AllFound(rows: seq<seq<ProfileTree>>, lists: seq<seq<seq<ProfileTree>>>, root: Placed)
    requires GreedyRows(rows, lists) && Holds(rows, lists) && NewItems(rows[|rows| - 1], |rows| - 1)
    requires |rows[0]| == 1 && Represents(rows[0][0], root, 0)
    ensures FindsAll(root)
  {
    var last := |rows| - 1;
    RowsRepresent(rows, lists, root, last);
    LastLevel(rows[last], Below([root], last), last);
    BelowNext([root], last);
    hide Represents, Below, AllKids, KidLists, Offset;
    forall l: nat ensures Findable(Below([root], l)) {
      if l < last {
        RowsRepresent(rows, lists, root, l);
        assert GreedyRow(rows[l], lists[l], rows[l + 1]);
        GreedyIsFindable(rows[l], Below([root], l), l, rows[l + 1]);
      } else if l > last {
        NothingBelow(root, last + 1, l);
        NoneFindable();
      }
    }
  }

  lemma NoneFindable()
    ensures Findable([])
  {
  }

  // ----- the condition, where totals are positive -----

  /** The first child starts after the value of its parent. */
  lemma FirstKid(p: Placed)
    requires p.node.children != []
    ensures Kids(p) != [] && Kids(p)[0].start == p.start + p.node.self
  {
  }

  /** So if it is found its parent has no negative value. */
  lemma {:induction false} FoundIsNonNegative(root: Placed, l: nat, k: nat)
    requires FindsAll(root) && k < |Below([root], l)|
    ensures NonNegative(Below([root], l)[k].node)
    decreases Below([root], l)[k].node
  {
    var ps := Below([root], l);
    var p := ps[k];
    KidsCount(p);
    if p.node.children != [] {
      FindableFirst(root, l, k);
      KidsBelow(root, l, k);
      hide FindsAll, Below, Kids, Offset, KidLists, AllKids;
      forall i | 0 <= i < |p.node.children| ensures NonNegative(p.node.children[i]) {
        var m := Offset(KidLists(ps), k) + i;
        assert Below([root], l + 1)[m] == Kids(p)[i];
        FoundIsNonNegative(root, l + 1, m);
      }
    }
  }

  lemma FindableFirst(root: Placed, l: nat, k: nat)
    requires FindsAll(root) && k < |Below([root], l)| && Below([root], l)[k].node.children != []
    ensures Below([root], l)[k].node.self >= 0
  {
    var ps := Below([root], l);
    KidsBelow(root, l, k);
    KidsCount(ps[k]);
    FirstKid(ps[k]);
    BelowNext([root], l);
    FlattenPart(KidLists(ps), k);
    hide Below, Kids, Offset, KidLists, AllKids;
    assert Findable(ps);
    assert AllKids(ps)[Offset(KidLists(ps), k) + 0] == Kids(ps[k])[0];
  }

  /** Where a total is made up of the node's own value and its children, which have positive totals, all
      parents are to be found exactly when no node with children has a negative value of its own. */
  lemma FindsAllExactly(root: Placed)
    requires Balanced(root.node)
    ensures FindsAll(root) <==> NonNegative(root.node)
  {
    hide Balanced, NonNegative, Findable, Below;
    if FindsAll(root) {
      BelowZero([root]);
      FoundIsNonNegative(root, 0, 0);
    }
    if NonNegative(root.node) {
      forall l: nat ensures Findable(Below([root], l)) {
        LevelOrdered(root, l);
        SideBySideIsFindable(Below([root], l));
      }
    }
  }

  /** `levelsToTree`: whatever the data, it ends.  On the levels of a tree it gives that tree exactly
      when all parents are to be found. */
  method LevelsToTree(levels: seq<seq<int>>, names: seq<string>, ghost roots: seq<FlameNode>) returns (tree: ProfileTree)
    requires Readable(levels, names)
    ensures fresh(tree)
    ensures EncodesLevels(levels, names, roots) ==> (Represents(tree, Root(roots), 0) <==> FindsAll(Root(roots)))
  {
    hide GreedyRow, FindsAll, Findable, Built, EncodesLevels, Represents, NewItems, Matching, Linked, ShowsAll,
        Describes, Below, AllKids, HasItems;
    ghost var root := Root(roots);
    ghost var good := EncodesLevels(levels, names, roots) && FindsAll(root);
    tree := new ProfileTree(0, levels[0][1], levels[0][2], 0, names[levels[0][0]]);
    var parents := [tree];
    ghost var rows: seq<seq<ProfileTree>> := [parents];
    ghost var lists: seq<seq<seq<ProfileTree>>> := [];
    StartBuilt(tree, levels, names, roots);
    var currentLevel := 1;
    while currentLevel < |levels|
      invariant 1 <= currentLevel == |rows| <= |levels| && rows[currentLevel - 1] == parents && rows[0] == [tree]
      invariant OnLevels(rows) && NewItems(parents, currentLevel - 1) && Holds(rows, lists)
      invariant forall r, t :: r in rows && t in r ==> fresh(t)
      invariant GreedyRows(rows, lists)
      invariant good ==> Built(rows, lists, root)
    {
      if good {
        LevelGiven(levels, names, roots, rows, lists);
        RowMatches(levels[currentLevel], names, rows, lists, root);
      }
      if parents == [] {
        break;
      }
      var next := ReadRow(levels[currentLevel], names, currentLevel, parents, rows, lists, Below([root], currentLevel - 1));
      if good {
        RowBuilt(rows, lists, root, next, NodesOf(parents));
      }
      GreedyRowsMore(rows, lists, next, NodesOf(parents));
      rows, lists := rows + [next], lists + [NodesOf(parents)];
      parents := next;
      currentLevel := currentLevel + 1;
    }
    if good {
      AllRead(levels, names, roots, rows);
      BuiltRepresents(rows, lists, root, 0, 0);
    }
    if Represents(tree, root, 0) {
      AllFound(rows, lists, root);
    }
  }

  /** A level is read below the rows built so far, which stay as they are. */
  method ReadRow(values: seq<int>, names: seq<string>, l: nat, parents: seq<ProfileTree>,
                 ghost rows: seq<seq<ProfileTree>>, ghost lists: seq<seq<seq<ProfileTree>>>, ghost ps: seq<Placed>)
    returns (next: seq<ProfileTree>)
    requires HasItems(values, names) && OnLevels(rows) && Holds(rows, lists)
    requires l == |rows| > 0 && rows[l - 1] == parents != [] && NewItems(parents, l - 1)
    modifies set p | p in parents
    ensures NewItems(next, l) && OnLevels(rows + [next]) && forall n :: n in next ==> fresh(n)
    ensures Holds(rows + [next], lists + [NodesOf(parents)]) && GreedyRow(parents, NodesOf(parents), next)
    ensures Matching(values, names, l, parents, ps) ==> ShowsAll(next, AllKids(ps), l) && Linked(NodesOf(parents), next, ps)
  {
    hide HasItems, Matching, ShowsAll, Linked, GreedyRow;
    next := ReadLevel(values, names, l, parents, ps);
    forall i | 0 <= i < l - 1 ensures NodesOf(rows[i]) == lists[i] {
      assert forall t :: t in rows[i] ==> t.level == i;
      assert forall t :: t in parents ==> t.level == l - 1;
      assert forall t :: t in rows[i] ==> t.nodes == old(t.nodes);
      assert NodesOf(rows[i]) == old(NodesOf(rows[i]));
    }
  }

  lemma StartBuilt(tree: ProfileTree, levels: seq<seq<int>>, names: seq<string>, roots: seq<FlameNode>)
    requires Readable(levels, names) && tree.start == 0 && tree.level == 0 && tree.nodes == []
    requires tree.value == levels[0][1] && tree.self == levels[0][2] && tree.name == names[levels[0][0]]
    ensures NewItems([tree], 0)
    ensures EncodesLevels(levels, names, roots) ==> Built([[tree]], [], Root(roots))
  {
    if EncodesLevels(levels, names, roots) {
      BelowZero([Root(roots)]);
      assert Describes(levels[0], names, [Root(roots)], 0);
      assert BarAt(levels[0], names, [Root(roots)], 0, 0, PreviousEnd([Root(roots)], 0));
    }
  }

  lemma LevelGiven(levels: seq<seq<int>>, names: seq<string>, roots: seq<FlameNode>, rows: seq<seq<ProfileTree>>,
                   lists: seq<seq<seq<ProfileTree>>>)
    requires EncodesLevels(levels, names, roots) && Built(rows, lists, Root(roots)) && |rows| < |levels|
    ensures rows[|rows| - 1] != [] && Describes(levels[|rows|], names, Below([Root(roots)], |rows|), |rows|)
  {
    hide Below, Describes;
    assert ShowsAll(rows[|rows| - 1], Below([Root(roots)], |rows| - 1), |rows| - 1);
  }

  lemma AllRead(levels: seq<seq<int>>, names: seq<string>, roots: seq<FlameNode>, rows: seq<seq<ProfileTree>>)
    requires EncodesLevels(levels, names, roots) && |rows| >= |levels|
    ensures Below([Root(roots)], |rows|) == [] && Below([Root(roots)], 0) == [Root(roots)]
  {
    BelowZero([Root(roots)]);
  }

  /** Encoding a tree and reading it back gives the tree, under a root named "total", exactly when
      all parents are to be found. */
  method RoundTrip(roots: seq<FlameNode>) returns (g: FlameGraph, tree: ProfileTree)
    ensures Encodes(g, roots)
    ensures Represents(tree, Root(roots), 0) <==> FindsAll(Root(roots))
  {
    g := NewFlameGraph(roots);
    EncodedIsReadable(g.levels, g.names, roots);
    hide EncodesLevels, FindsAll, Represents;
    tree := LevelsToTree(g.levels, g.names, roots);
  }

  /** A tree that does not come back: "b" starts before "a", so the reader finds no place for it. */
  method LosesBar() returns (g: FlameGraph, tree: ProfileTree)
    ensures var roots := [FlameNode("a", -1, 2, [FlameNode("b", 3, 3, [])])];
      Balanced(Root(roots).node) && Encodes(g, roots) && !Represents(tree, Root(roots), 0)
  {
    var b := FlameNode("b", 3, 3, []);
    var a := FlameNode("a", -1, 2, [b]);
    LostBar(a, b);
    FindsAllExactly(Root([a]));
    g, tree := RoundTrip([a]);
  }

  lemma OneTotal(n: FlameNode)
    ensures SumTotals([n]) == n.total
  {
    assert [n][1..] == [];
  }

  lemma LostBar(a: FlameNode, b: FlameNode)
    requires b == FlameNode("b", 3, 3, []) && a == FlameNode("a", -1, 2, [b])
    ensures Balanced(Root([a]).node) && !NonNegative(Root([a]).node)
  {
    OneTotal(a);
    OneTotal(b);
    hide SumTotals;
    var root := Root([a]).node;
    assert root.children == [a] && a.children == [b];
    assert b.total == 3 && SumTotals([]) == 0 by { NoTotal(); }
    assert Balanced(b);
    assert Balanced(a);
    assert a in root.children && !NonNegative(a);
  }

  lemma NoTotal()
    ensures SumTotals([]) == 0
  {
  }

  /** Another: "c" has no width and lies where "a" ends, so the reader takes it for a child of "a". */
  method MovesBar() returns (g: FlameGraph, tree: ProfileTree)
    ensures var roots := [FlameNode("a", 1, 1, []), FlameNode("b", 0, 0, [FlameNode("c", 0, 0, [])])];
      Encodes(g, roots) && !Represents(tree, Root(roots), 0)
  {
    var roots := [FlameNode("a", 1, 1, []), FlameNode("b", 0, 0, [FlameNode("c", 0, 0, [])])];
    MovedBar(roots);
    g, tree := RoundTrip(roots);
  }

  lemma MovedBar(roots: seq<FlameNode>)
    requires roots == [FlameNode("a", 1, 1, []), FlameNode("b", 0, 0, [FlameNode("c", 0, 0, [])])]
    ensures !FindsAll(Root(roots))
  {
    var root := Root(roots);
    var a, b, c := Placed(roots[0], 0), Placed(roots[1], 1), Placed(roots[1].children[0], 1);
    TwoBars(root, a, b);
    BelowZero([root]);
    BelowNext([root], 0);
    assert KidLists([root]) == [Kids(root)] && Flatten([Kids(root)]) == Kids(root) by { FlattenOne(Kids(root)); }
    assert Below([root], 1) == [a, b];
    assert Kids(a) == [] && Kids(b) == [c] by { OneBar(b, c); }
    assert KidLists([a, b]) == [[], [c]];
    assert Flatten([[c]]) == [c] by { FlattenOne([c]); }
    assert [[], [c]][1..] == [[c]];
    assert AllKids([a, b]) == [c];
    var none: seq<Placed> := [];
    assert [none, [c]][..1] == [none] && Flatten([none]) == none by { FlattenOne(none); }
    assert Offset(KidLists([a, b]), 0) == 0 == Offset(KidLists([a, b]), 1);
    assert Fits(AllKids([a, b])[0], [a, b][0]);
    assert !Findable(Below([root], 1));
  }

  lemma TwoBars(root: Placed, a: Placed, b: Placed)
    requires |root.node.children| == 2 && root.start == 0 && root.node.self == 0
    requires a == Placed(root.node.children[0], 0) && b == Placed(root.node.children[1], root.node.children[0].total)
    ensures Kids(root) == [a, b]
  {
    var ns := root.node.children;
    assert ns[..0] == [] && ns[..1] == [ns[0]];
    OneTotal(ns[0]);
  }

  lemma OneBar(p: Placed, c: Placed)
    requires |p.node.children| == 1 && c == Placed(p.node.children[0], p.start + p.node.self)
    ensures Kids(p) == [c]
  {
    assert p.node.children[..0] == [];
  }

  lemma EncodedIsReadable(levels: seq<seq<int>>, names: seq<string>, roots: seq<FlameNode>)
    requires EncodesLevels(levels, names, roots)
    ensures Readable(levels, names)
  {
    BelowZero([Root(roots)]);
    assert Describes(levels[0], names, [Root(roots)], 0);
    assert BarAt(levels[0], names, [Root(roots)], 0, 0, PreviousEnd([Root(roots)], 0));
    forall l | 0 <= l < |levels| ensures HasItems(levels[l], names) {
      var level := Below([Root(roots)], l);
      assert Describes(levels[l], names, level, l);
      forall k | 0 <= k < |levels[l]| / 4 ensures 0 <= levels[l][4 * k + 3] < |names| {
        assert BarAt(levels[l], names, level, l, k, PreviousEnd(level, k));
      }
    }
  }
}
