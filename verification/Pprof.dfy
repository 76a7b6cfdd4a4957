/** Normalisation of pprof profiles: duplicate samples are merged while the list is compacted in
    place, and what only removed samples referred to is dropped. */
module Pprof {
  import opened Sequences

  datatype Label = Label(key: int, str: int, num: int, numUnit: int)

  datatype Sample = Sample(locationIds: seq<nat>, values: seq<int>, labels: seq<Label>)

  // ----- sums of values -----

  ghost predicate Uniform(es: seq<Sample>, width: nat) {
    forall i :: 0 <= i < |es| ==> |es[i].values| == width
  }

  /** The sum of value `v` over the samples with location stack `stack`. */
  function Sum(es: seq<Sample>, stack: seq<nat>, v: nat): int
    requires forall i :: 0 <= i < |es| ==> v < |es[i].values|
  {
    if es == [] then 0
    else
      var last := es[|es| - 1];
      Sum(es[..|es| - 1], stack, v) + if last.locationIds == stack then last.values[v] else 0
  }

  lemma SumMore(es: seq<Sample>, e: Sample, stack: seq<nat>, v: nat)
    requires (forall i :: 0 <= i < |es| ==> v < |es[i].values|) && v < |e.values|
    ensures Sum(es + [e], stack, v) == Sum(es, stack, v) + if e.locationIds == stack then e.values[v] else 0
  {
    assert (es + [e])[..|es|] == es;
  }

  lemma {:induction false} SumConcat(a: seq<Sample>, b: seq<Sample>, stack: seq<nat>, v: nat)
    requires (forall i :: 0 <= i < |a| ==> v < |a[i].values|) && (forall i :: 0 <= i < |b| ==> v < |b[i].values|)
    ensures Sum(a + b, stack, v) == Sum(a, stack, v) + Sum(b, stack, v)
    decreases |b|
  {
    if b == [] {
      assert a + b == a;
    } else {
      var front, e := b[..|b| - 1], b[|b| - 1];
      assert a + b == (a + front) + [e] && b == front + [e];
      SumConcat(a, front, stack, v);
      SumMore(a + front, e, stack, v);
      SumMore(front, e, stack, v);
    }
  }

  // ----- sorting by hash -----

  type Hash = seq<nat> -> int

  ghost predicate SortedBy(h: Hash, es: seq<Sample>) {
    forall i, j :: 0 <= i < j < |es| ==> h(es[i].locationIds) <= h(es[j].locationIds)
  }

  /** The same samples, as far as sums can tell. */
  ghost predicate SameSums(a: seq<Sample>, b: seq<Sample>, width: nat)
    requires Uniform(a, width) && Uniform(b, width)
  {
    forall stack, v: nat :: v < width ==> Sum(a, stack, v) == Sum(b, stack, v)
  }

  /** `sort.Sort` on samples and hashes together. */
  method SortByHash(h: Hash, es: seq<Sample>, ghost width: nat) returns (r: seq<Sample>)
    requires Uniform(es, width)
    ensures SortedBy(h, r) && multiset(r) == multiset(es) && Uniform(r, width) && SameSums(r, es, width)
  {
    hide SortedBy, Sum;
    r := [];
    assert SortedBy(h, []) by { SortedNone(h); }
    for i := 0 to |es|
      invariant SortedBy(h, r) && multiset(r) == multiset(es[..i])
      invariant Uniform(r, width) && SameSums(r, es[..i], width)
    {
      assert es[..i + 1] == es[..i] + [es[i]];
      ghost var before := r;
      r := InsertSample(h, r, es[i], width);
      forall stack, v: nat | v < width ensures Sum(r, stack, v) == Sum(es[..i + 1], stack, v) {
        SumMore(es[..i], es[i], stack, v);
        assert Sum(before, stack, v) == Sum(es[..i], stack, v);
      }
    }
    assert es[..|es|] == es;
  }

  lemma SortedNone(h: Hash)
    ensures SortedBy(h, [])
  {
  }

  method InsertSample(h: Hash, s: seq<Sample>, e: Sample, ghost width: nat) returns (r: seq<Sample>)
    requires SortedBy(h, s) && Uniform(s, width) && |e.values| == width
    ensures SortedBy(h, r) && multiset(r) == multiset(s) + multiset{e} && Uniform(r, width)
    ensures forall stack, v: nat :: v < width ==> Sum(r, stack, v) == Sum(s, stack, v) + if e.locationIds == stack then e.values[v] else 0
  {
    hide SortedBy, Sum;
    var k := 0;
    while k < |s| && h(s[k].locationIds) <= h(e.locationIds)
      invariant k <= |s| && forall m :: 0 <= m < k ==> h(s[m].locationIds) <= h(e.locationIds)
    {
      k := k + 1;
    }
    assert s == s[..k] + s[k..];
    r := s[..k] + [e] + s[k..];
    InsertByHash(h, s, e, k);
    InsertSums(s, e, k, width);
  }

  lemma InsertSums(s: seq<Sample>, e: Sample, k: nat, width: nat)
    requires Uniform(s, width) && |e.values| == width && k <= |s|
    ensures Uniform(s[..k] + [e] + s[k..], width)
    ensures forall stack, v: nat :: v < width ==>
            Sum(s[..k] + [e] + s[k..], stack, v) == Sum(s, stack, v) + if e.locationIds == stack then e.values[v] else 0
  {
    hide Sum;
    var r := s[..k] + [e] + s[k..];
    assert s == s[..k] + s[k..];
    forall stack, v: nat | v < width
      ensures Sum(r, stack, v) == Sum(s, stack, v) + if e.locationIds == stack then e.values[v] else 0
    {
      SumMore(s[..k], e, stack, v);
      SumConcat(s[..k] + [e], s[k..], stack, v);
      SumConcat(s[..k], s[k..], stack, v);
    }
  }

  lemma InsertByHash(h: Hash, s: seq<Sample>, e: Sample, k: nat)
    requires SortedBy(h, s) && k <= |s| && forall m :: 0 <= m < k ==> h(s[m].locationIds) <= h(e.locationIds)
    requires k < |s| ==> h(s[k].locationIds) > h(e.locationIds)
    ensures SortedBy(h, s[..k] + [e] + s[k..])
  {
    var le := (a: Sample, b: Sample) => h(a.locationIds) <= h(b.locationIds);
    InsertOrdered(le, s, e, k);
    assert Ordered(le, s[..k] + [e] + s[k..]);
  }

  /** Samples with the same stack stand side by side. */
  ghost predicate Grouped(es: seq<Sample>) {
    forall i, j, k :: 0 <= i < j < k < |es| && es[i].locationIds == es[k].locationIds ==> es[j].locationIds == es[i].locationIds
  }

  lemma SortedIsGrouped(h: Hash, es: seq<Sample>)
    requires Injective(h) && SortedBy(h, es)
    ensures Grouped(es)
  {
    forall i, j, k | 0 <= i < j < k < |es| && es[i].locationIds == es[k].locationIds ensures es[j].locationIds == es[i].locationIds {
      assert h(es[i].locationIds) <= h(es[j].locationIds) <= h(es[k].locationIds);
    }
  }

  // ----- merging while compacting -----

  function Plus(a: seq<int>, b: seq<int>): (r: seq<int>)
    requires |a| == |b|
    ensures |r| == |a|
  {
    seq(|a|, i requires 0 <= i < |a| => a[i] + b[i])
  }

  predicate AllZero(values: seq<int>) {
    forall i :: 0 <= i < |values| ==> values[i] == 0
  }

  /** The sum of the samples of a run up to the `j`-th. */
  function RunSum(es: seq<Sample>, width: nat, j: nat): (r: seq<int>)
    requires Uniform(es, width) && j < |es|
    ensures |r| == width
  {
    if j > 0 && es[j - 1].locationIds == es[j].locationIds then Plus(RunSum(es, width, j - 1), es[j].values)
    else es[j].values
  }

  predicate LastOfRun(es: seq<Sample>, j: nat)
    requires j < |es|
  {
    j == |es| - 1 || es[j].locationIds != es[j + 1].locationIds
  }

  predicate IsBytes(strings: seq<string>, l: Label) {
    l.num != 0 && l.key != 0 && 0 <= l.key < |strings| && strings[l.key] == "bytes"
  }

  function NoBytes(strings: seq<string>, ls: seq<Label>): seq<Label> {
    if ls == [] then []
    else NoBytes(strings, ls[..|ls| - 1]) + if IsBytes(strings, ls[|ls| - 1]) then [] else [ls[|ls| - 1]]
  }

  ghost predicate Reads(strings: seq<string>, i: int, text: string) {
    0 <= i < |strings| && strings[i] == text
  }

  ghost function Keeps(strings: seq<string>): Label -> bool {
    (l: Label) => l.num == 0 || l.key == 0 || !Reads(strings, l.key, "bytes")
  }

  /** What is left of the labels: those without a number, without a key, or whose key does not read "bytes". */
  lemma {:induction false} NoBytesKeeps(strings: seq<string>, ls: seq<Label>)
    ensures Filtered(ls, Keeps(strings), NoBytes(strings, ls))
  {
    if ls == [] {
      FilteredNone(Keeps(strings));
    } else {
      hide Filtered;
      var front, last := ls[..|ls| - 1], ls[|ls| - 1];
      assert ls == front + [last];
      NoBytesKeeps(strings, front);
      FilteredMore(front, last, Keeps(strings), NoBytes(strings, front));
    }
  }

  /** The samples kept of the first `n`: the last of every run, with the sum of the run. */
  function Kept(strings: seq<string>, es: seq<Sample>, width: nat, n: nat): (r: seq<Sample>)
    requires Uniform(es, width) && n <= |es|
    ensures |r| <= n && Uniform(r, width)
  {
    if n == 0 then []
    else
      var before := Kept(strings, es, width, n - 1);
      if LastOfRun(es, n - 1) && !AllZero(RunSum(es, width, n - 1))
      then before + [Sample(es[n - 1].locationIds, RunSum(es, width, n - 1), NoBytes(strings, es[n - 1].labels))]
      else before
  }

  /** What has been carried over to a sample not yet visited. */
  function Carried(es: seq<Sample>, width: nat, n: nat, stack: seq<nat>, v: nat): int
    requires Uniform(es, width) && n <= |es| && v < width
  {
    if n > 0 && !LastOfRun(es, n - 1) && es[n - 1].locationIds == stack then RunSum(es, width, n - 1)[v] else 0
  }

  lemma RunSumAt(es: seq<Sample>, width: nat, j: nat, v: nat)
    requires Uniform(es, width) && j < |es| && v < width
    ensures RunSum(es, width, j)[v] == es[j].values[v] +
      (if j > 0 && es[j - 1].locationIds == es[j].locationIds then RunSum(es, width, j - 1)[v] else 0)
  {
  }

  /** Nothing is lost at any point: kept and carried values add up to those of the samples visited. */
  lemma {:induction false} KeptSums(strings: seq<string>, es: seq<Sample>, width: nat, n: nat, stack: seq<nat>, v: nat)
    requires Uniform(es, width) && n <= |es| && v < width
    ensures Sum(Kept(strings, es, width, n), stack, v) + Carried(es, width, n, stack, v) == Sum(es[..n], stack, v)
  {
    hide Sum, NoBytes, RunSum;
    if n == 0 {
      assert es[..0] == [];
    } else {
      RunSumAt(es, width, n - 1, v);
      KeptSums(strings, es, width, n - 1, stack, v);
      assert es[..n] == es[..n - 1] + [es[n - 1]];
      SumMore(es[..n - 1], es[n - 1], stack, v);
      if LastOfRun(es, n - 1) && !AllZero(RunSum(es, width, n - 1)) {
        var e := Sample(es[n - 1].locationIds, RunSum(es, width, n - 1), NoBytes(strings, es[n - 1].labels));
        SumMore(Kept(strings, es, width, n - 1), e, stack, v);
      }
    }
  }

  /** Merging keeps the sum of every value of every stack. */
  lemma MergeKeepsSums(strings: seq<string>, es: seq<Sample>, width: nat)
    requires Uniform(es, width)
    ensures SameSums(Kept(strings, es, width, |es|), es, width)
  {
    hide Sum, Kept;
    forall stack, v: nat | v < width ensures Sum(Kept(strings, es, width, |es|), stack, v) == Sum(es, stack, v) {
      KeptSums(strings, es, width, |es|, stack, v);
      assert es[..|es|] == es;
    }
  }

  ghost predicate DistinctStacks(es: seq<Sample>) {
    forall i, j :: 0 <= i < j < |es| ==> es[i].locationIds != es[j].locationIds
  }

  ghost predicate NoneZero(es: seq<Sample>) {
    forall i :: 0 <= i < |es| ==> !AllZero(es[i].values)
  }

  /** A run of samples with this stack has ended before `n`. */
  ghost predicate Ended(es: seq<Sample>, n: nat, stack: seq<nat>)
    requires n <= |es|
  {
    exists k :: 0 <= k < n && LastOfRun(es, k) && es[k].locationIds == stack
  }

  lemma NotAgain(es: seq<Sample>, n: nat, stack: seq<nat>)
    requires n < |es| && Grouped(es) && Ended(es, n, stack)
    ensures es[n].locationIds != stack
  {
    var k :| 0 <= k < n && LastOfRun(es, k) && es[k].locationIds == stack;
    assert es[k].locationIds != es[k + 1].locationIds;
  }

  lemma EndedMore(es: seq<Sample>, n: nat)
    requires n < |es|
    ensures forall stack :: Ended(es, n, stack) ==> Ended(es, n + 1, stack)
    ensures LastOfRun(es, n) ==> Ended(es, n + 1, es[n].locationIds)
  {
  }

  /** The samples kept have stacks of runs that ended, each of them once, and are not empty. */
  ghost predicate Proper(es: seq<Sample>, n: nat, r: seq<Sample>)
    requires n <= |es|
  {
    && NoneZero(r) && DistinctStacks(r)
    && forall i :: 0 <= i < |r| ==> Ended(es, n, r[i].locationIds)
  }

  lemma ProperMore(es: seq<Sample>, n: nat, r: seq<Sample>, e: Sample)
    requires n < |es| && Grouped(es) && Proper(es, n, r)
    ensures Proper(es, n + 1, r)
    ensures LastOfRun(es, n) && e.locationIds == es[n].locationIds && !AllZero(e.values) ==> Proper(es, n + 1, r + [e])
  {
    EndedMore(es, n);
    hide Ended, Grouped, LastOfRun, AllZero;
    forall i | 0 <= i < |r| ensures r[i].locationIds != es[n].locationIds {
      NotAgain(es, n, r[i].locationIds);
    }
  }

  /** Every stack is kept once at most, and no sample without a value. */
  lemma {:induction false} KeptOnce(strings: seq<string>, es: seq<Sample>, width: nat, n: nat)
    requires Uniform(es, width) && n <= |es| && Grouped(es)
    ensures Proper(es, n, Kept(strings, es, width, n))
  {
    hide RunSum, NoBytes, Grouped, LastOfRun, AllZero;
    if n > 0 {
      KeptOnce(strings, es, width, n - 1);
      KeptNext(strings, es, width, n - 1);
      hide Kept, Proper;
      var e := Sample(es[n - 1].locationIds, RunSum(es, width, n - 1), NoBytes(strings, es[n - 1].labels));
      ProperMore(es, n - 1, Kept(strings, es, width, n - 1), e);
      assert Kept(strings, es, width, n - 1) + [] == Kept(strings, es, width, n - 1);
    }
  }

  method AddValues(into: seq<int>, values: seq<int>) returns (r: seq<int>)
    requires |into| == |values|
    ensures r == Plus(values, into)
  {
    r := into;
    for j := 0 to |values|
      invariant |r| == |into|
      invariant forall k :: 0 <= k < j ==> r[k] == values[k] + into[k]
      invariant forall k :: j <= k < |r| ==> r[k] == into[k]
    {
      r := r[j := r[j] + values[j]];
    }
  }

  method HasValue(values: seq<int>) returns (b: bool)
    ensures b <==> !AllZero(values)
  {
    for j := 0 to |values|
      invariant forall k :: 0 <= k < j ==> values[k] == 0
    {
      if values[j] != 0 {
        return true;
      }
    }
    return false;
  }

  /** `RemoveInPlace` on the labels of a sample. */
  method RemoveBytes(strings: seq<string>, ls: array<Label>) returns (n: nat)
    modifies ls
    ensures n <= ls.Length && ls[..n] == NoBytes(strings, old(ls[..]))
    ensures Filtered(old(ls[..]), Keeps(strings), ls[..n])
  {
    NoBytesKeeps(strings, ls[..]);
    hide Filtered, Keeps;
    ghost var all := ls[..];
    n := 0;
    for j := 0 to ls.Length
      invariant n <= j && ls[..n] == NoBytes(strings, all[..j])
      invariant forall k :: j <= k < ls.Length ==> ls[k] == all[k]
    {
      assert all[..j + 1][..j] == all[..j];
      var l := ls[j];
      if !IsBytes(strings, l) {
        ls[n] := l;
        n := n + 1;
      }
    }
    assert all[..ls.Length] == all;
  }

  /** The stacks of all samples visited are those of samples kept, carried over or removed. */
  ghost predicate Accounted(es: seq<Sample>, kept: seq<Sample>, removed: seq<Sample>, n: nat)
    requires n <= |es|
  {
    forall k :: 0 <= k < n ==> HasStack(kept, es[k].locationIds) || HasStack(removed, es[k].locationIds)
  }

  ghost predicate HasStack(es: seq<Sample>, stack: seq<nat>) {
    exists i :: 0 <= i < |es| && es[i].locationIds == stack
  }

  lemma HasStackMore(es: seq<Sample>, e: Sample)
    ensures HasStack(es + [e], e.locationIds)
    ensures forall stack :: HasStack(es, stack) ==> HasStack(es + [e], stack)
  {
    assert (es + [e])[|es|] == e;
    forall stack | HasStack(es, stack) ensures HasStack(es + [e], stack) {
      var i :| 0 <= i < |es| && es[i].locationIds == stack;
      assert (es + [e])[i].locationIds == stack;
    }
  }

  lemma AccountedMore(es: seq<Sample>, kept: seq<Sample>, removed: seq<Sample>, j: nat, e: Sample)
    requires j < |es| && Accounted(es, kept, removed, j) && e.locationIds == es[j].locationIds
    ensures Accounted(es, kept + [e], removed, j + 1) && Accounted(es, kept, removed + [e], j + 1)
  {
    hide HasStack;
    HasStackMore(kept, e);
    HasStackMore(removed, e);
  }

  lemma KeptNext(strings: seq<string>, es: seq<Sample>, width: nat, j: nat)
    requires Uniform(es, width) && j < |es|
    ensures Kept(strings, es, width, j + 1) == Kept(strings, es, width, j) +
      if LastOfRun(es, j) && !AllZero(RunSum(es, width, j))
      then [Sample(es[j].locationIds, RunSum(es, width, j), NoBytes(strings, es[j].labels))] else []
  {
  }

  method WithoutBytes(strings: seq<string>, s: Sample) returns (r: Sample)
    ensures r == s.(labels := NoBytes(strings, s.labels))
  {
    var ls := new Label[|s.labels|](k requires 0 <= k < |s.labels| => s.labels[k]);
    assert ls[..] == s.labels;
    var m := RemoveBytes(strings, ls);
    r := s.(labels := ls[..m]);
  }

  lemma SameHash(h: Hash, a: seq<nat>, b: seq<nat>)
    requires Injective(h)
    ensures h(a) == h(b) <==> a == b
  {
  }

  /** `RemoveInPlace` on the samples, with a predicate that adds the values of a sample it removes
      to the next sample of the list being compacted. */
  method MergeInPlace(a: array<Sample>, hashes: seq<int>, strings: seq<string>, ghost h: Hash, ghost width: nat)
    returns (n: nat, removed: seq<Sample>)
    requires Uniform(a[..], width) && Injective(h) && |hashes| == a.Length
    requires forall i :: 0 <= i < a.Length ==> hashes[i] == h(a[i].locationIds)
    modifies a
    ensures n <= a.Length && a[..n] == Kept(strings, old(a[..]), width, a.Length)
    ensures Accounted(old(a[..]), a[..n], removed, a.Length) && FromSamples(old(a[..]), removed)
  {
    hide NoBytes, RunSum, HasStack, Kept, Accounted, Injective, Plus, AllZero, FromSamples;
    ghost var es := a[..];
    n, removed := 0, [];
    NothingKept(strings, es, width);
    for j := 0 to a.Length
      invariant n <= j && a[..n] == Kept(strings, es, width, j)
      invariant j < a.Length ==> a[j] == es[j].(values := RunSum(es, width, j))
      invariant forall k :: j < k < a.Length ==> a[k] == es[k]
      invariant Accounted(es, a[..n], removed, j) && FromSamples(es, removed)
    {
      var s := a[j];
      FromMore(es, removed, j, s);
      RunSumNext(es, width, j);
      KeptNext(strings, es, width, j);
      AccountedMore(es, a[..n], removed, j, s);
      if j < a.Length - 1 {
        SameHash(h, es[j].locationIds, es[j + 1].locationIds);
      }
      if j < a.Length - 1 && hashes[j] == hashes[j + 1] {
        var sum := AddValues(a[j + 1].values, s.values);
        a[j + 1] := a[j + 1].(values := sum);
        removed := removed + [s];
      } else {
        var keep := HasValue(s.values);
        if keep {
          var s' := WithoutBytes(strings, s);
          AccountedMore(es, a[..n], removed, j, s');
          ghost var before := a[..n];
          a[n] := s';
          n := n + 1;
          assert a[..n] == before + [s'];
        } else {
          removed := removed + [s];
        }
      }
    }
  }

  lemma NothingKept(strings: seq<string>, es: seq<Sample>, width: nat)
    requires Uniform(es, width)
    ensures Kept(strings, es, width, 0) == [] && Accounted(es, [], [], 0)
    ensures es != [] ==> RunSum(es, width, 0) == es[0].values
    ensures FromSamples(es, [])
  {
  }

  /** Every one of `rs` has the stack of one of `es` and, in order, its labels that are kept. */
  ghost predicate Trimmed(strings: seq<string>, es: seq<Sample>, rs: seq<Sample>) {
    forall i :: 0 <= i < |rs| ==> TrimmedOne(strings, es, rs[i])
  }

  ghost predicate TrimmedOne(strings: seq<string>, es: seq<Sample>, r: Sample) {
    exists k :: 0 <= k < |es| && es[k].locationIds == r.locationIds && Filtered(es[k].labels, Keeps(strings), r.labels)
  }

  lemma {:induction false} KeptTrimmed(strings: seq<string>, es: seq<Sample>, width: nat, n: nat)
    requires Uniform(es, width) && n <= |es|
    ensures Trimmed(strings, es, Kept(strings, es, width, n))
  {
    hide NoBytes, RunSum, Filtered, Keeps, Plus, AllZero;
    if n > 0 {
      KeptTrimmed(strings, es, width, n - 1);
      NoBytesKeeps(strings, es[n - 1].labels);
    }
  }

  lemma TrimmedPermuted(strings: seq<string>, es: seq<Sample>, es': seq<Sample>, rs: seq<Sample>)
    requires Trimmed(strings, es, rs) && multiset(es) == multiset(es')
    ensures Trimmed(strings, es', rs)
  {
    hide Filtered, Keeps;
    forall i | 0 <= i < |rs| ensures TrimmedOne(strings, es', rs[i]) {
      assert TrimmedOne(strings, es, rs[i]);
      var k :| 0 <= k < |es| && es[k].locationIds == rs[i].locationIds && Filtered(es[k].labels, Keeps(strings), rs[i].labels);
      assert es[k] in multiset(es');
      var m :| 0 <= m < |es'| && es'[m] == es[k];
    }
  }

  /** Stack and labels of every one of `rs` are those of one of `es`, maybe without some labels. */
  ghost predicate FromSamples(es: seq<Sample>, rs: seq<Sample>) {
    forall i :: 0 <= i < |rs| ==> FromOne(es, rs[i])
  }

  ghost predicate FromOne(es: seq<Sample>, r: Sample) {
    exists k :: 0 <= k < |es| && From(es[k], r)
  }

  ghost predicate From(e: Sample, r: Sample) {
    r.locationIds == e.locationIds && forall l :: l in r.labels ==> l in e.labels
  }

  lemma FromMore(es: seq<Sample>, rs: seq<Sample>, j: nat, r: Sample)
    requires FromSamples(es, rs) && j < |es| && From(es[j], r)
    ensures FromSamples(es, rs + [r])
  {
    hide From;
  }

  lemma {:induction false} NoBytesFrom(strings: seq<string>, ls: seq<Label>)
    ensures forall l :: l in NoBytes(strings, ls) ==> l in ls
  {
    if ls != [] {
      NoBytesFrom(strings, ls[..|ls| - 1]);
    }
  }

  lemma {:induction false} KeptFrom(strings: seq<string>, es: seq<Sample>, width: nat, n: nat)
    requires Uniform(es, width) && n <= |es|
    ensures FromSamples(es, Kept(strings, es, width, n))
  {
    hide NoBytes, RunSum, FromSamples;
    if n > 0 {
      KeptFrom(strings, es, width, n - 1);
      var e := es[n - 1];
      NoBytesFrom(strings, e.labels);
      FromMore(es, Kept(strings, es, width, n - 1), n - 1, Sample(e.locationIds, RunSum(es, width, n - 1), NoBytes(strings, e.labels)));
    } else {
      NothingKept(strings, es, width);
    }
  }

  lemma FromPermuted(es: seq<Sample>, es': seq<Sample>, rs: seq<Sample>)
    requires FromSamples(es, rs) && multiset(es) == multiset(es')
    ensures FromSamples(es', rs)
  {
    forall i | 0 <= i < |rs| ensures FromOne(es', rs[i]) {
      assert FromOne(es, rs[i]);
      var k :| 0 <= k < |es| && From(es[k], rs[i]);
      assert es[k] in multiset(es');
      var m :| 0 <= m < |es'| && es'[m] == es[k];
    }
  }

  lemma RunSumNext(es: seq<Sample>, width: nat, j: nat)
    requires Uniform(es, width) && j < |es|
    ensures j + 1 < |es| && es[j].locationIds == es[j + 1].locationIds ==>
      RunSum(es, width, j + 1) == Plus(RunSum(es, width, j), es[j + 1].values)
    ensures j + 1 < |es| && es[j].locationIds != es[j + 1].locationIds ==> RunSum(es, width, j + 1) == es[j + 1].values
  {
  }

  /** The sample part of `Normalize`: sums are kept, every stack occurs once at most, nothing
      empty stays, and every stack that was there is kept or handed on as removed. */
  method MergeSamples(h: Hash, samples: seq<Sample>, strings: seq<string>, ghost width: nat)
    returns (kept: seq<Sample>, removed: seq<Sample>)
    requires Uniform(samples, width) && Injective(h)
    ensures Uniform(kept, width) && SameSums(kept, samples, width)
    ensures DistinctStacks(kept) && NoneZero(kept)
    ensures Accounted(samples, kept, removed, |samples|)
    ensures FromSamples(samples, kept) && FromSamples(samples, removed)
    ensures Trimmed(strings, samples, kept)
  {
    hide Injective, SortedBy, Grouped, Kept, Sum, HasStack, FromSamples, Trimmed;
    var sorted := SortByHash(h, samples, width);
    var a := new Sample[|sorted|](i requires 0 <= i < |sorted| => sorted[i]);
    assert a[..] == sorted;
    var hashes := seq(|sorted|, i requires 0 <= i < |sorted| => h(sorted[i].locationIds));
    var n;
    n, removed := MergeInPlace(a, hashes, strings, h, width);
    kept := a[..n];
    SortedIsGrouped(h, sorted);
    KeptOnce(strings, sorted, width, |sorted|);
    KeptFrom(strings, sorted, width, |sorted|);
    KeptTrimmed(strings, sorted, width, |sorted|);
    TrimmedPermuted(strings, sorted, samples, kept);
    FromPermuted(sorted, samples, kept);
    FromPermuted(sorted, samples, removed);
    MergeKeepsSums(strings, sorted, width);
    SumsTransitive(kept, sorted, samples, width);
    forall k | 0 <= k < |samples| ensures HasStack(kept, samples[k].locationIds) || HasStack(removed, samples[k].locationIds) {
      assert samples[k] in multiset(samples);
      assert samples[k] in sorted;
    }
  }

  lemma SumsTransitive(a: seq<Sample>, b: seq<Sample>, c: seq<Sample>, width: nat)
    requires Uniform(a, width) && Uniform(b, width) && Uniform(c, width) && SameSums(a, b, width) && SameSums(b, c, width)
    ensures SameSums(a, c, width)
  {
    hide Sum;
    forall stack, v: nat | v < width ensures Sum(a, stack, v) == Sum(c, stack, v) {
      assert Sum(a, stack, v) == Sum(b, stack, v);
    }
  }

  /** Sums, stacks and values do not depend on labels. */
  lemma {:induction false} SumsIgnoreLabels(a: seq<Sample>, b: seq<Sample>, stack: seq<nat>, v: nat)
    requires |a| == |b| && forall i :: 0 <= i < |a| ==>
            v < |a[i].values| && a[i].values == b[i].values && a[i].locationIds == b[i].locationIds
    ensures Sum(a, stack, v) == Sum(b, stack, v)
  {
    if a != [] {
      SumsIgnoreLabels(a[..|a| - 1], b[..|b| - 1], stack, v);
    }
  }
}
