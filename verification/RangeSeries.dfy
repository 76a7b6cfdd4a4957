/** Profiles from several iterators in one order (`SortIterator`), and their aggregation into
    series of points spaced by a step (`rangeSeries`). */
module RangeSeries {
  import opened Labels
  import opened Sequences

  /** A profile with its value; sums of values are exact here. */
  datatype Profile = Profile(key: ProfileKey, value: real)

  // ----- SortIterator -----

  predicate AtMost(p: Profile, q: Profile) {
    !Before(q.key, p.key)
  }

  lemma AtMostOrder(p: Profile, q: Profile, r: Profile)
    ensures AtMost(p, p) && (AtMost(p, q) || AtMost(q, p))
    ensures AtMost(p, q) && AtMost(q, r) ==> AtMost(p, r)
  {
    hide Before;
    BeforeIsTotalOrder(p.key, q.key, p.key);
    BeforeIsTotalOrder(p.key, q.key, r.key);
    BeforeIsTotalOrder(q.key, p.key, r.key);
    BeforeIsTotalOrder(r.key, p.key, q.key);
    BeforeIsTotalOrder(r.key, q.key, p.key);
  }

  lemma HeadIsLeast(ps: seq<Profile>)
    requires Ordered(AtMost, ps) && ps != []
    ensures Ordered(AtMost, ps[1..]) && forall p :: p in ps ==> AtMost(ps[0], p)
  {
    AtMostOrder(ps[0], ps[0], ps[0]);
  }

  class SortIterator {
    var heap: seq<seq<Profile>>   // the iterators that have a profile, with what is left of them
    var curr: Profile

    /** All profiles not yet returned. */
    ghost function Pending(): seq<Profile>
      reads this
    {
      Flatten(heap)
    }

    ghost predicate Valid()
      reads this
    {
      forall i :: 0 <= i < |heap| ==> heap[i] != [] && Ordered(AtMost, heap[i])
    }

    constructor (iters: seq<seq<Profile>>)
      requires forall i :: 0 <= i < |iters| ==> Ordered(AtMost, iters[i])
      ensures Valid() && multiset(Pending()) == multiset(Flatten(iters))
    {
      curr := Profile(ProfileKey(0, []), 0.0);
      heap := [];
      new;
      assert iters[..0] == [];
      for i := 0 to |iters|
        invariant Valid() && multiset(Pending()) == multiset(Flatten(iters[..i]))
      {
        assert iters[..i + 1] == iters[..i] + [iters[i]];
        FlattenMore(iters[..i], iters[i]);
        Requeue(iters[i]);
      }
      assert iters[..|iters|] == iters;
    }

    method Requeue(rest: seq<Profile>)
      requires Valid() && Ordered(AtMost, rest)
      modifies this`heap
      ensures Valid() && Pending() == old(Pending()) + rest
    {
      if rest != [] {
        FlattenMore(heap, rest);
        heap := heap + [rest];
      }
    }

    /** Returns a least profile of those pending. */
    method Next() returns (ok: bool)
      requires Valid()
      modifies this
      ensures Valid() && (ok <==> old(Pending()) != [])
      ensures ok ==> multiset(old(Pending())) == multiset(Pending()) + multiset{curr}
      ensures ok ==> forall p :: p in Pending() ==> AtMost(curr, p)
      ensures !ok ==> Pending() == old(Pending())
    {
      if |heap| == 0 {
        return false;
      }
      FlattenNotEmpty(heap);
      var k := LeastHead(heap);
      var next := heap[k];
      curr := next[0];
      TakeHead(heap, k);
      HeadIsLeast(next);
      LeastOfAll(heap, k);
      var others := heap[..k] + heap[k + 1..];
      heap := others;
      ghost var before := Pending();
      Requeue(next[1..]);
      forall p | p in Pending() ensures AtMost(curr, p) {
        assert p in multiset(before + next[1..]);
        assert p in multiset(Flatten(old(heap)));
        assert p in Flatten(old(heap));
      }
      return true;
    }
  }

  lemma FlattenNotEmpty(heap: seq<seq<Profile>>)
    requires heap != [] && heap[0] != []
    ensures Flatten(heap) != []
  {
  }

  /** The iterator whose current profile is least. */
  method LeastHead(heap: seq<seq<Profile>>) returns (k: nat)
    requires heap != [] && forall i :: 0 <= i < |heap| ==> heap[i] != []
    ensures k < |heap| && forall i :: 0 <= i < |heap| ==> AtMost(heap[k][0], heap[i][0])
  {
    hide AtMost;
    k := 0;
    AtMostOrder(heap[0][0], heap[0][0], heap[0][0]);
    for i := 1 to |heap|
      invariant k < i && forall j :: 0 <= j < i ==> AtMost(heap[k][0], heap[j][0])
    {
      AtMostOrder(heap[i][0], heap[k][0], heap[i][0]);
      if !AtMost(heap[k][0], heap[i][0]) {
        forall j | 0 <= j < i ensures AtMost(heap[i][0], heap[j][0]) {
          AtMostOrder(heap[i][0], heap[k][0], heap[j][0]);
        }
        k := i;
      }
    }
  }

  lemma SplitAt<T>(s: seq<T>, k: nat)
    requires k < |s|
    ensures s == s[..k + 1] + s[k + 1..] && s[..k + 1] == s[..k] + [s[k]]
  {
  }

  lemma FlattenAround(heap: seq<seq<Profile>>, k: nat)
    requires k < |heap|
    ensures Flatten(heap) == Flatten(heap[..k]) + heap[k] + Flatten(heap[k + 1..])
    ensures Flatten(heap[..k] + heap[k + 1..]) == Flatten(heap[..k]) + Flatten(heap[k + 1..])
  {
    hide Flatten;
    var a, upTo, c := heap[..k], heap[..k + 1], heap[k + 1..];
    SplitAt(heap, k);
    FlattenConcat(upTo, c);
    FlattenMore(a, heap[k]);
    FlattenConcat(a, c);
  }

  lemma TakeHead(heap: seq<seq<Profile>>, k: nat)
    requires k < |heap| && heap[k] != []
    ensures multiset(Flatten(heap)) == multiset(Flatten(heap[..k] + heap[k + 1..]) + heap[k][1..]) + multiset{heap[k][0]}
  {
    hide Flatten;
    FlattenAround(heap, k);
    assert heap[k] == [heap[k][0]] + heap[k][1..];
  }

  lemma LeastOfAll(heap: seq<seq<Profile>>, k: nat)
    requires k < |heap| && (forall i :: 0 <= i < |heap| ==> heap[i] != [] && Ordered(AtMost, heap[i]))
    requires forall i :: 0 <= i < |heap| ==> AtMost(heap[k][0], heap[i][0])
    ensures forall p :: p in Flatten(heap) ==> AtMost(heap[k][0], p)
  {
    forall p | p in Flatten(heap) ensures AtMost(heap[k][0], p) {
      var i := PartWith(heap, p);
      HeadIsLeast(heap[i]);
      AtMostOrder(heap[k][0], heap[i][0], p);
    }
  }

  lemma {:induction false} PartWith(ss: seq<seq<Profile>>, p: Profile) returns (i: nat)
    requires p in Flatten(ss)
    ensures i < |ss| && p in ss[i]
  {
    if p in ss[0] {
      i := 0;
    } else {
      i := PartWith(ss[1..], p);
      i := i + 1;
    }
  }

  /** What is taken out, the profile at hand, and what is pending are the inputs, in this order. */
  ghost predicate Draining(iters: seq<seq<Profile>>, out: seq<Profile>, curr: Option<Profile>, pending: seq<Profile>) {
    && Ordered(AtMost, out)
    && multiset(Flatten(iters)) == multiset(out) + multiset(pending) + (if curr.Some? then multiset{curr.value} else multiset{})
    && (curr.Some? ==> (forall p :: p in pending ==> AtMost(curr.value, p)) && forall p :: p in out ==> AtMost(p, curr.value))
    && (curr.None? ==> pending == [])
  }

  lemma DrainStarts(iters: seq<seq<Profile>>, all: seq<Profile>, curr: Option<Profile>, pending: seq<Profile>)
    requires multiset(Flatten(iters)) == multiset(all) && (curr.None? ==> pending == all == [])
    requires curr.Some? ==> multiset(all) == multiset(pending) + multiset{curr.value} && forall p :: p in pending ==> AtMost(curr.value, p)
    ensures Draining(iters, [], curr, pending)
  {
    hide Flatten, AtMost;
  }

  lemma DrainMoves(iters: seq<seq<Profile>>, out: seq<Profile>, was: Profile, before: seq<Profile>, curr: Option<Profile>,
                   pending: seq<Profile>)
    requires Draining(iters, out, Some(was), before) && (curr.None? ==> pending == before == [])
    requires curr.Some? ==>
      multiset(before) == multiset(pending) + multiset{curr.value} && forall p :: p in pending ==> AtMost(curr.value, p)
    ensures Draining(iters, out + [was], curr, pending)
    ensures curr.Some? ==> |pending| < |before|
  {
    hide Flatten, AtMost;
    SortedMore(out, was);
    if curr.Some? {
      assert curr.value in multiset(before);
      assert |multiset(before)| == |before| && |multiset(pending)| == |pending|;
      forall p | p in out + [was] ensures AtMost(p, curr.value) {
        AtMostOrder(p, was, curr.value);
        AtMostOrder(was, was, was);
      }
    }
  }

  /** All inputs come out once, in ascending order. */
  method Drain(iters: seq<seq<Profile>>) returns (out: seq<Profile>)
    requires forall i :: 0 <= i < |iters| ==> Ordered(AtMost, iters[i])
    ensures Ordered(AtMost, out) && multiset(out) == multiset(Flatten(iters))
  {
    hide AtMost, Flatten, Draining, Ordered;
    var it := new SortIterator(iters);
    out := [];
    ghost var all := it.Pending();
    var ok := it.Next();
    DrainStarts(iters, all, if ok then Some(it.curr) else None, it.Pending());
    while ok
      invariant it.Valid() && fresh(it) && Draining(iters, out, if ok then Some(it.curr) else None, it.Pending())
      decreases |it.Pending()|, ok
    {
      ghost var before := it.Pending();
      var was := it.curr;
      ok := it.Next();
      DrainMoves(iters, out, was, before, if ok then Some(it.curr) else None, it.Pending());
      out := out + [was];
    }
    AllDrained(iters, out, it.Pending());
  }

  lemma AllDrained(iters: seq<seq<Profile>>, out: seq<Profile>, pending: seq<Profile>)
    requires Draining(iters, out, None, pending)
    ensures Ordered(AtMost, out) && multiset(out) == multiset(Flatten(iters))
  {
  }

  lemma SortedMore(ps: seq<Profile>, p: Profile)
    requires Ordered(AtMost, ps) && forall q :: q in ps ==> AtMost(q, p)
    ensures Ordered(AtMost, ps + [p])
  {
  }

  // ----- rangeSeries -----

  datatype Point = Point(timestamp: int, value: real)

  datatype Series = Series(labels: LabelSet, points: seq<Point>)

  type Hash = LabelSet -> int

  /** The first of the steps `from`, `from + step`, ... that is not before `ts`. */
  function StepOf(from: int, step: int, ts: int): (r: int)
    requires step > 0
    ensures r >= ts && r >= from
    decreases if ts > from then ts - from else 0
  {
    if ts <= from then from else StepOf(from + step, step, ts)
  }

  /** It is one of the steps, and no earlier step will do. */
  lemma {:induction false} StepIsFirst(from: int, step: int, ts: int) returns (k: nat)
    requires step > 0
    ensures StepOf(from, step, ts) == from + k * step
    ensures k > 0 ==> from + (k - 1) * step < ts
    decreases if ts > from then ts - from else 0
  {
    if ts <= from {
      k := 0;
    } else {
      var j := StepIsFirst(from + step, step, ts);
      k := j + 1;
      assert k * step == j * step + step;
      if j > 0 {
        assert (k - 1) * step == (j - 1) * step + step;
      }
    }
  }

  lemma {:induction false} StepMonotone(from: int, step: int, a: int, b: int)
    requires step > 0 && a <= b
    ensures StepOf(from, step, a) <= StepOf(from, step, b)
    decreases if b > from then b - from else 0
  {
    if a > from {
      StepMonotone(from + step, step, a, b);
    }
  }

  /** A value goes to the last point of its series, if that is of the same step, or to a new one. */
  function AddPoint(points: seq<Point>, t: int, v: real): seq<Point> {
    if points != [] && points[|points| - 1].timestamp == t
    then points[..|points| - 1] + [Point(t, points[|points| - 1].value + v)]
    else points + [Point(t, v)]
  }

  function AddTo(m: map<int, Series>, h: Hash, t: int, p: Profile): map<int, Series> {
    var k := h(p.key.labels);
    if k in m then m[k := Series(m[k].labels, AddPoint(m[k].points, t, p.value))]
    else m[k := Series(p.key.labels, [Point(t, p.value)])]
  }

  /** The first `n` profiles, each at its step. */
  function Folded(h: Hash, ps: seq<Profile>, n: nat, from: int, step: int): map<int, Series>
    requires step > 0 && n <= |ps|
  {
    if n == 0 then map[]
    else AddTo(Folded(h, ps, n - 1, from, step), h, StepOf(from, step, ps[n - 1].key.timestamp), ps[n - 1])
  }

  /** The first `n` profiles are those that fall to a step up to `end`. */
  ghost predicate UpTo(ps: seq<Profile>, n: nat, start: int, end: int, step: int) {
    && step > 0 && n <= |ps|
    && forall i :: 0 <= i < |ps| ==> (i < n <==> StepOf(start, step, ps[i].key.timestamp) <= end)
  }

  /** `rangeSeries`, but for the order of the series: the profiles up to the last step, each at the
      first step that is not before it. */
  method AggregateSeries(h: Hash, ps: seq<Profile>, start: int, end: int, step: int) returns (m: map<int, Series>)
    requires step > 0 && forall i, j :: 0 <= i < j < |ps| ==> ps[i].key.timestamp <= ps[j].key.timestamp
    ensures exists n: nat :: UpTo(ps, n, start, end, step) && m == Folded(h, ps, n, start, step)
  {
    hide AddPoint, Folded;
    m := map[];
    assert m == Folded(h, ps, 0, start, step) by { FoldedNone(h, ps, start, step); }
    if |ps| == 0 {
      assert UpTo(ps, 0, start, end, step);
      return;
    }
    var pos := 0;
    var currentStep := start;
    while currentStep <= end
      invariant pos < |ps| && m == Folded(h, ps, pos, start, step)
      invariant forall i :: 0 <= i < pos ==> StepOf(start, step, ps[i].key.timestamp) <= end
      invariant forall i :: pos <= i < |ps| ==> StepOf(start, step, ps[i].key.timestamp) == StepOf(currentStep, step, ps[i].key.timestamp)
      decreases end - currentStep
    {
      while ps[pos].key.timestamp <= currentStep
        invariant pos < |ps| && m == Folded(h, ps, pos, start, step)
        invariant forall i :: 0 <= i < pos ==> StepOf(start, step, ps[i].key.timestamp) <= end
        invariant forall i :: pos <= i < |ps| ==> StepOf(start, step, ps[i].key.timestamp) == StepOf(currentStep, step, ps[i].key.timestamp)
        decreases |ps| - pos
      {
        var p := ps[pos];
        var k := h(p.key.labels);
        FoldedNext(h, ps, pos, start, currentStep, step);
        if k !in m {
          m := m[k := Series(p.key.labels, [Point(currentStep, p.value)])];
        } else {
          var points := AddToLast(m[k].points, currentStep, p.value);
          m := m[k := Series(m[k].labels, points)];
        }
        pos := pos + 1;
        if pos == |ps| {
          assert UpTo(ps, pos, start, end, step);
          return;
        }
      }
      forall i | pos <= i < |ps| ensures ps[i].key.timestamp > currentStep {
      }
      currentStep := currentStep + step;
    }
    assert UpTo(ps, pos, start, end, step);
  }

  lemma FoldedNone(h: Hash, ps: seq<Profile>, from: int, step: int)
    requires step > 0
    ensures Folded(h, ps, 0, from, step) == map[]
  {
  }

  lemma FoldedNext(h: Hash, ps: seq<Profile>, n: nat, from: int, now: int, step: int)
    requires step > 0 && n < |ps| && ps[n].key.timestamp <= now
    requires StepOf(from, step, ps[n].key.timestamp) == StepOf(now, step, ps[n].key.timestamp)
    ensures Folded(h, ps, n + 1, from, step) == AddTo(Folded(h, ps, n, from, step), h, now, ps[n])
  {
  }

  method AddToLast(points: seq<Point>, t: int, v: real) returns (r: seq<Point>)
    ensures r == AddPoint(points, t, v)
  {
    if |points| > 0 && points[|points| - 1].timestamp == t {
      r := points[|points| - 1 := Point(t, points[|points| - 1].value + v)];
    } else {
      r := points + [Point(t, v)];
    }
  }

  // ----- what the series say -----

  /** The sum of the values of a series that fall to the step `t`. */
  function Contribution(ps: seq<Profile>, n: nat, from: int, step: int, labels: LabelSet, t: int): real
    requires step > 0 && n <= |ps|
  {
    if n == 0 then 0.0
    else
      var p := ps[n - 1];
      Contribution(ps, n - 1, from, step, labels, t) +
      if p.key.labels == labels && StepOf(from, step, p.key.timestamp) == t then p.value else 0.0
  }

  ghost predicate Contributes(ps: seq<Profile>, n: nat, from: int, step: int, labels: LabelSet, t: int)
    requires step > 0 && n <= |ps|
  {
    exists i :: 0 <= i < n && ps[i].key.labels == labels && StepOf(from, step, ps[i].key.timestamp) == t
  }

  ghost predicate AscendingPoints(points: seq<Point>) {
    forall i, j :: 0 <= i < j < |points| ==> points[i].timestamp < points[j].timestamp
  }

  function PointsOf(m: map<int, Series>, h: Hash, labels: LabelSet): seq<Point> {
    if h(labels) in m then m[h(labels)].points else []
  }

  ghost predicate HasPoint(points: seq<Point>, t: int) {
    exists i :: 0 <= i < |points| && points[i].timestamp == t
  }

  /** Ascending points, one for every step to which some profile falls, with the sum of those. */
  ghost predicate Tells(points: seq<Point>, ps: seq<Profile>, n: nat, from: int, step: int, labels: LabelSet)
    requires step > 0 && n <= |ps|
  {
    && AscendingPoints(points)
    && (forall t :: HasPoint(points, t) <==> Contributes(ps, n, from, step, labels, t))
    && (forall i :: 0 <= i < |points| ==> points[i].value == Contribution(ps, n, from, step, labels, points[i].timestamp))
    && (points != [] ==> n > 0 && points[|points| - 1].timestamp <= StepOf(from, step, ps[n - 1].key.timestamp))
  }

  lemma {:induction false} NoContribution(ps: seq<Profile>, n: nat, from: int, step: int, labels: LabelSet, t: int)
    requires step > 0 && n <= |ps| && !Contributes(ps, n, from, step, labels, t)
    ensures Contribution(ps, n, from, step, labels, t) == 0.0
  {
    hide StepOf;
    if n > 0 {
      NoContribution(ps, n - 1, from, step, labels, t);
    }
  }

  /** One more profile of another series changes nothing. */
  lemma TellsOther(points: seq<Point>, ps: seq<Profile>, n: nat, from: int, step: int, labels: LabelSet)
    requires step > 0 && n < |ps| && Tells(points, ps, n, from, step, labels) && ps[n].key.labels != labels
    requires n > 0 ==> ps[n - 1].key.timestamp <= ps[n].key.timestamp
    ensures Tells(points, ps, n + 1, from, step, labels)
  {
    hide StepOf;
    if n > 0 {
      StepMonotone(from, step, ps[n - 1].key.timestamp, ps[n].key.timestamp);
    }
  }

  /** One more profile of the series: a value added to the last point, or a new point after it. */
  lemma TellsMore(points: seq<Point>, ps: seq<Profile>, n: nat, from: int, step: int, labels: LabelSet)
    requires step > 0 && n < |ps| && Tells(points, ps, n, from, step, labels) && ps[n].key.labels == labels
    requires n > 0 ==> ps[n - 1].key.timestamp <= ps[n].key.timestamp
    ensures Tells(AddPoint(points, StepOf(from, step, ps[n].key.timestamp), ps[n].value), ps, n + 1, from, step, labels)
  {
    hide StepOf;
    var t := StepOf(from, step, ps[n].key.timestamp);
    if n > 0 {
      StepMonotone(from, step, ps[n - 1].key.timestamp, ps[n].key.timestamp);
    }
    var last := |points| - 1;
    var points' := AddPoint(points, t, ps[n].value);
    if points != [] && points[last].timestamp == t {
      assert points' == points[last := Point(t, points[last].value + ps[n].value)];
      forall x ensures HasPoint(points', x) <==> HasPoint(points, x) {
        if HasPoint(points, x) {
          var i :| 0 <= i < |points| && points[i].timestamp == x;
          assert points'[i].timestamp == x;
        }
      }
    } else {
      assert !HasPoint(points, t);
      NoContribution(ps, n, from, step, labels, t);
      forall x ensures HasPoint(points', x) <==> HasPoint(points, x) || x == t {
        if HasPoint(points, x) {
          var i :| 0 <= i < |points| && points[i].timestamp == x;
          assert points'[i].timestamp == x;
        }
        assert points'[|points|].timestamp == t;
      }
    }
  }

  lemma PointsNext(h: Hash, m: map<int, Series>, t: int, p: Profile, labels: LabelSet)
    requires Injective(h)
    ensures PointsOf(AddTo(m, h, t, p), h, labels)
         == if p.key.labels == labels then AddPoint(PointsOf(m, h, labels), t, p.value) else PointsOf(m, h, labels)
  {
    FirstPoint(t, p.value);
    assert h(p.key.labels) == h(labels) ==> p.key.labels == labels;
  }

  lemma NothingTold(h: Hash, ps: seq<Profile>, from: int, step: int, labels: LabelSet)
    requires step > 0
    ensures Tells(PointsOf(map[], h, labels), ps, 0, from, step, labels)
  {
  }

  /** For every series: its points ascend, there is one exactly for the steps to which some
      profile of the series falls, and it holds the sum of these profiles. */
  lemma {:induction false} FoldedTells(h: Hash, ps: seq<Profile>, n: nat, from: int, step: int, labels: LabelSet)
    requires step > 0 && n <= |ps| && Injective(h)
    requires forall i, j :: 0 <= i < j < |ps| ==> ps[i].key.timestamp <= ps[j].key.timestamp
    ensures Tells(PointsOf(Folded(h, ps, n, from, step), h, labels), ps, n, from, step, labels)
  {
    hide AddPoint, StepOf, AddTo, Injective, Tells, PointsOf;
    if n == 0 {
      NothingTold(h, ps, from, step, labels);
    } else {
      FoldedTells(h, ps, n - 1, from, step, labels);
      var before := Folded(h, ps, n - 1, from, step);
      PointsNext(h, before, StepOf(from, step, ps[n - 1].key.timestamp), ps[n - 1], labels);
      if ps[n - 1].key.labels == labels {
        TellsMore(PointsOf(before, h, labels), ps, n - 1, from, step, labels);
      } else {
        TellsOther(PointsOf(before, h, labels), ps, n - 1, from, step, labels);
      }
    }
  }

  lemma FirstPoint(t: int, v: real)
    ensures AddPoint([], t, v) == [Point(t, v)]
  {
  }

  // ----- conservation -----

  function SumPoints(points: seq<Point>): real {
    if points == [] then 0.0 else SumPoints(points[..|points| - 1]) + points[|points| - 1].value
  }

  /** The sum of the values of a series over the first `n` profiles. */
  function SumValues(ps: seq<Profile>, n: nat, labels: LabelSet): real
    requires n <= |ps|
  {
    if n == 0 then 0.0
    else SumValues(ps, n - 1, labels) + if ps[n - 1].key.labels == labels then ps[n - 1].value else 0.0
  }

  lemma AddPointSum(points: seq<Point>, t: int, v: real)
    ensures SumPoints(AddPoint(points, t, v)) == SumPoints(points) + v
  {
    var r := AddPoint(points, t, v);
    assert points != [] && points[|points| - 1].timestamp == t ==> r[..|r| - 1] == points[..|points| - 1];
    assert !(points != [] && points[|points| - 1].timestamp == t) ==> r[..|r| - 1] == points;
  }

  /** Per series, the points add up to the values of the profiles. */
  lemma {:induction false} FoldedConserves(h: Hash, ps: seq<Profile>, n: nat, from: int, step: int, labels: LabelSet)
    requires step > 0 && n <= |ps| && Injective(h)
    ensures SumPoints(PointsOf(Folded(h, ps, n, from, step), h, labels)) == SumValues(ps, n, labels)
  {
    hide AddPoint, StepOf, AddTo, Injective;
    if n > 0 {
      FoldedConserves(h, ps, n - 1, from, step, labels);
      hide SumPoints, PointsOf;
      var before, t := Folded(h, ps, n - 1, from, step), StepOf(from, step, ps[n - 1].key.timestamp);
      PointsNext(h, before, t, ps[n - 1], labels);
      AddPointSum(PointsOf(before, h, labels), t, ps[n - 1].value);
    }
  }

  lemma SortedByTime(ps: seq<Profile>)
    requires Ordered(AtMost, ps)
    ensures forall i, j :: 0 <= i < j < |ps| ==> ps[i].key.timestamp <= ps[j].key.timestamp
  {
    forall i, j | 0 <= i < j < |ps| ensures ps[i].key.timestamp <= ps[j].key.timestamp {
      assert AtMost(ps[i], ps[j]);
    }
  }

  // ----- the list of series -----

  /** Every series has the labels its key is the hash of. */
  ghost predicate OwnLabels(h: Hash, m: map<int, Series>) {
    forall k :: k in m ==> h(m[k].labels) == k
  }

  lemma {:induction false} FoldedLabels(h: Hash, ps: seq<Profile>, n: nat, from: int, step: int)
    requires step > 0 && n <= |ps|
    ensures OwnLabels(h, Folded(h, ps, n, from, step))
  {
    if n > 0 {
      FoldedLabels(h, ps, n - 1, from, step);
      hide StepOf, AddPoint;
    }
  }

  ghost predicate ByLabels(r: seq<Series>) {
    forall i, j :: 0 <= i < j < |r| ==> LabelsBefore(r[i].labels, r[j].labels)
  }

  /** The series of a map, in the lexicographic order of their labels. */
  ghost predicate ListsSeries(r: seq<Series>, m: map<int, Series>) {
    ByLabels(r) && forall s :: s in r <==> exists k :: k in m && m[k] == s
  }

  method InsertSeries(r: seq<Series>, s: Series) returns (r': seq<Series>)
    requires ByLabels(r) && forall x :: x in r ==> x.labels != s.labels
    ensures ByLabels(r') && forall x :: x in r' <==> x in r || x == s
  {
    hide LabelsBefore;
    var i := 0;
    while i < |r|
      invariant i <= |r| && forall k :: 0 <= k < i ==> LabelsBefore(r[k].labels, s.labels)
    {
      var c := CompareLabelPairs(r[i].labels, s.labels);
      if c >= 0 {
        break;
      }
      i := i + 1;
    }
    r' := r[..i] + [s] + r[i..];
    assert r == r[..i] + r[i..];
    InsertedByLabels(r, s, i);
  }

  lemma InsertedByLabels(r: seq<Series>, s: Series, i: nat)
    requires ByLabels(r) && i <= |r| && (forall x :: x in r ==> x.labels != s.labels)
    requires forall k :: 0 <= k < i ==> LabelsBefore(r[k].labels, s.labels)
    requires i < |r| ==> !LabelsBefore(r[i].labels, s.labels)
    ensures ByLabels(r[..i] + [s] + r[i..])
  {
    hide LabelsBefore;
    forall k | i <= k < |r| ensures LabelsBefore(s.labels, r[k].labels) {
      assert r[i] in r;
      LabelsOrder(s.labels, r[i].labels, r[k].labels);
    }
  }

  /** The final sort of `rangeSeries`. */
  method SortSeries(h: Hash, m: map<int, Series>) returns (r: seq<Series>)
    requires OwnLabels(h, m)
    ensures ListsSeries(r, m)
  {
    hide ByLabels;
    r := [];
    assert ByLabels(r) by { NoSeries(); }
    var left := m.Keys;
    while left != {}
      invariant left <= m.Keys && ByLabels(r)
      invariant forall s :: s in r <==> exists k :: k in m && k !in left && m[k] == s
    {
      ghost var w := Element(left);
      var k :| k in left;
      forall x | x in r ensures x.labels != m[k].labels {
        var j :| j in m && j !in left && m[j] == x;
      }
      r := InsertSeries(r, m[k]);
      left := left - {k};
    }
  }

  lemma NoSeries()
    ensures ByLabels([])
  {
  }

  /** The series tell of all profiles of the iterators up to the last step, taken in ascending order. */
  ghost predicate Answers(h: Hash, m: map<int, Series>, iters: seq<seq<Profile>>, ps: seq<Profile>, n: nat,
                          start: int, end: int, step: int) {
    && Ordered(AtMost, ps) && multiset(ps) == multiset(Flatten(iters)) && UpTo(ps, n, start, end, step) && OwnLabels(h, m)
    && (forall labels :: Tells(PointsOf(m, h, labels), ps, n, start, step, labels))
    && (forall labels :: SumPoints(PointsOf(m, h, labels)) == SumValues(ps, n, labels))
  }

  /** The two together, whatever the iterators: series in the order of their labels. */
  method SelectSeries(h: Hash, iters: seq<seq<Profile>>, start: int, end: int, step: int) returns (r: seq<Series>)
    requires step > 0 && Injective(h) && forall i :: 0 <= i < |iters| ==> Ordered(AtMost, iters[i])
    ensures exists m, ps, n: nat :: ListsSeries(r, m) && Answers(h, m, iters, ps, n, start, end, step)
  {
    hide Ordered, Tells, Folded, Flatten, StepOf, PointsOf, OwnLabels, ListsSeries, Injective;
    var ps := Drain(iters);
    SortedByTime(ps);
    var m := AggregateSeries(h, ps, start, end, step);
    ghost var n: nat :| UpTo(ps, n, start, end, step) && m == Folded(h, ps, n, start, step);
    forall labels
      ensures Tells(PointsOf(m, h, labels), ps, n, start, step, labels)
      ensures SumPoints(PointsOf(m, h, labels)) == SumValues(ps, n, labels)
    {
      FoldedTells(h, ps, n, start, step, labels);
      FoldedConserves(h, ps, n, start, step, labels);
    }
    FoldedLabels(h, ps, n, start, step);
    assert Answers(h, m, iters, ps, n, start, end, step);
    r := SortSeries(h, m);
  }
}
