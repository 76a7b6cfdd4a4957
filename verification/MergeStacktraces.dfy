/** Merging of stacktrace results (`MergeBatchMergeStacktraces`): function ids are rewritten in
    place, through slices that samples may share, and values are added in place. */
module MergeStacktraces {
  import opened Sequences
  import Labels

  class IdSlice {
    var ids: seq<nat>

    constructor (ids: seq<nat>)
      ensures this.ids == ids
    {
      this.ids := ids;
    }
  }

  class Sample {
    const slice: IdSlice
    var value: int

    constructor (slice: IdSlice, value: int)
      ensures this.slice == slice && this.value == value
    {
      this.slice, this.value := slice, value;
    }
  }

  class Response {
    var stacktraces: seq<Sample>
    var names: seq<string>

    constructor ()
      ensures stacktraces == [] && names == []
    {
      stacktraces, names := [], [];
    }
  }

  // ----- what a result says -----

  /** A sample as it stands. */
  datatype Entry = Entry(ids: seq<nat>, value: int)

  ghost function View(ss: seq<Sample>): (r: seq<Entry>)
    reads set s | s in ss, set s | s in ss :: s.slice
    ensures |r| == |ss| && forall i :: 0 <= i < |ss| ==> r[i] == Entry(ss[i].slice.ids, ss[i].value)
  {
    seq(|ss|, i requires 0 <= i < |ss| reads set s | s in ss, set s | s in ss :: s.slice => Entry(ss[i].slice.ids, ss[i].value))
  }

  ghost predicate AllInRange(n: nat, es: seq<Entry>) {
    forall i :: 0 <= i < |es| ==> InRange(n, es[i].ids)
  }

  /** The value of a stack of names. */
  function ValueOf(names: seq<string>, es: seq<Entry>, stack: seq<string>): int
    requires AllInRange(|names|, es)
  {
    if es == [] then 0
    else
      var last := |es| - 1;
      ValueOf(names, es[..last], stack) + if NamesAt(names, es[last].ids) == stack then es[last].value else 0
  }

  lemma ValueMore(names: seq<string>, es: seq<Entry>, e: Entry, stack: seq<string>)
    requires AllInRange(|names|, es) && InRange(|names|, e.ids)
    ensures AllInRange(|names|, es + [e])
    ensures ValueOf(names, es + [e], stack) == ValueOf(names, es, stack) + if NamesAt(names, e.ids) == stack then e.value else 0
  {
    assert (es + [e])[..|es|] == es;
  }

  /** A value added to one entry. */
  lemma {:induction false} ValueAdded(names: seq<string>, es: seq<Entry>, k: nat, v: int, stack: seq<string>)
    requires AllInRange(|names|, es) && k < |es|
    ensures AllInRange(|names|, es[k := es[k].(value := es[k].value + v)])
    ensures ValueOf(names, es[k := es[k].(value := es[k].value + v)], stack)
         == ValueOf(names, es, stack) + if NamesAt(names, es[k].ids) == stack then v else 0
  {
    var es' := es[k := es[k].(value := es[k].value + v)];
    var last := |es| - 1;
    if k < last {
      ValueAdded(names, es[..last], k, v, stack);
      assert es'[..last] == es[..last][k := es[..last][k].(value := es[k].value + v)];
    } else {
      assert es'[..last] == es[..last];
    }
  }

  /** More names change nothing. */
  lemma {:induction false} ValueLonger(names: seq<string>, names': seq<string>, es: seq<Entry>, stack: seq<string>)
    requires AllInRange(|names|, es) && names <= names'
    ensures AllInRange(|names'|, es) && ValueOf(names', es, stack) == ValueOf(names, es, stack)
  {
    if es != [] {
      var last := |es| - 1;
      ValueLonger(names, names', es[..last], stack);
      assert NamesAt(names', es[last].ids) == NamesAt(names, es[last].ids);
    }
  }

  // ----- rewriting -----

  function Rewritten(rewrite: seq<nat>, ids: seq<nat>): (r: seq<nat>)
    requires InRange(|rewrite|, ids)
  {
    seq(|ids|, i requires 0 <= i < |ids| => rewrite[ids[i]])
  }

  /** `rewrite` takes the names of a response to equal names of the result. */
  ghost predicate Renames(rewrite: seq<nat>, from: seq<string>, into: seq<string>) {
    |rewrite| == |from| && forall i :: 0 <= i < |from| ==> rewrite[i] < |into| && into[rewrite[i]] == from[i]
  }

  lemma RewrittenNames(rewrite: seq<nat>, from: seq<string>, into: seq<string>, ids: seq<nat>)
    requires Renames(rewrite, from, into) && InRange(|from|, ids)
    ensures InRange(|into|, Rewritten(rewrite, ids))
    ensures NamesAt(into, Rewritten(rewrite, ids)) == NamesAt(from, ids)
  {
  }

  function RewrittenEntries(rewrite: seq<nat>, es: seq<Entry>): (r: seq<Entry>)
    requires AllInRange(|rewrite|, es)
    ensures |r| == |es| && forall i :: 0 <= i < |es| ==> r[i] == Entry(Rewritten(rewrite, es[i].ids), es[i].value)
  {
    seq(|es|, i requires 0 <= i < |es| => Entry(Rewritten(rewrite, es[i].ids), es[i].value))
  }

  lemma {:induction false} RewrittenValue(rewrite: seq<nat>, from: seq<string>, into: seq<string>, es: seq<Entry>, stack: seq<string>)
    requires Renames(rewrite, from, into) && AllInRange(|from|, es)
    ensures AllInRange(|into|, RewrittenEntries(rewrite, es))
    ensures ValueOf(into, RewrittenEntries(rewrite, es), stack) == ValueOf(from, es, stack)
  {
    forall i | 0 <= i < |es| ensures InRange(|into|, RewrittenEntries(rewrite, es)[i].ids) {
      RewrittenNames(rewrite, from, into, es[i].ids);
    }
    if es != [] {
      var last := |es| - 1;
      RewrittenValue(rewrite, from, into, es[..last], stack);
      assert RewrittenEntries(rewrite, es)[..last] == RewrittenEntries(rewrite, es[..last]);
      RewrittenNames(rewrite, from, into, es[last].ids);
    }
  }

  ghost predicate Indexed(posByName: map<string, nat>, names: seq<string>) {
    forall n :: n in posByName ==> posByName[n] < |names| && names[posByName[n]] == n
  }

  method IndexNames(names: seq<string>) returns (posByName: map<string, nat>)
    ensures Indexed(posByName, names)
  {
    posByName := map[];
    for idx := 0 to |names|
      invariant Indexed(posByName, names)
    {
      posByName := posByName[names[idx] := idx];
    }
  }

  /** Looks the names up and appends those that are missing; the index is not extended. */
  method RewriteNames(posByName: map<string, nat>, into: seq<string>, from: seq<string>)
    returns (rewrite: seq<nat>, names: seq<string>)
    requires Indexed(posByName, into)
    ensures into <= names && Renames(rewrite, from, names)
  {
    rewrite, names := [], into;
    for idx := 0 to |from|
      invariant into <= names && |rewrite| == idx
      invariant forall i :: 0 <= i < idx ==> rewrite[i] < |names| && names[rewrite[i]] == from[i]
    {
      if from[idx] in posByName {
        rewrite := rewrite + [posByName[from[idx]]];
      } else {
        rewrite := rewrite + [|names|];
        names := names + [from[idx]];
      }
    }
  }

  method RewriteSlice(slice: IdSlice, rewrite: seq<nat>)
    requires InRange(|rewrite|, slice.ids)
    modifies slice
    ensures slice.ids == Rewritten(rewrite, old(slice.ids))
  {
    var n := |slice.ids|;
    for idx := 0 to n
      invariant |slice.ids| == n
      invariant forall i :: 0 <= i < idx ==> slice.ids[i] == rewrite[old(slice.ids)[i]]
      invariant forall i :: idx <= i < n ==> slice.ids[i] == old(slice.ids)[i]
    {
      slice.ids := slice.ids[idx := rewrite[slice.ids[idx]]];
    }
  }

  /** Every slice is rewritten once, however many samples share it. */
  method RewriteSlices(ss: seq<Sample>, rewrite: seq<nat>)
    requires forall s :: s in ss ==> InRange(|rewrite|, s.slice.ids)
    modifies set s | s in ss :: s.slice
    ensures forall s :: s in ss ==> InRange(|rewrite|, old(s.slice.ids)) && s.slice.ids == Rewritten(rewrite, old(s.slice.ids))
  {
    var uniq: set<IdSlice> := {};
    for i := 0 to |ss|
      invariant forall x :: x in uniq <==> exists k :: 0 <= k < i && ss[k].slice == x && ss[k].slice.ids != []
    {
      if |ss[i].slice.ids| == 0 {
        continue;
      }
      uniq := uniq + {ss[i].slice};
    }
    assert forall s :: s in ss ==> s.slice in uniq || s.slice.ids == [];
    assert forall x :: x in uniq ==> exists s :: s in ss && s.slice == x;
    var left := uniq;
    while left != {}
      invariant left <= uniq
      invariant forall x :: x in left ==> x.ids == old(x.ids)
      invariant forall s :: s in ss && s.slice !in uniq ==> s.slice.ids == old(s.slice.ids)
      invariant forall x :: x in uniq && x !in left ==> InRange(|rewrite|, old(x.ids)) && x.ids == Rewritten(rewrite, old(x.ids))
    {
      var x :| x in left;
      RewriteSlice(x, rewrite);
      left := left - {x};
    }
  }

  // ----- adding samples to the result -----

  type Hash = seq<nat> -> int

  /** Every entry of the hash table is a sample of the result, under its own hash. */
  ghost predicate Keyed(h: Hash, table: map<int, Sample>, ss: seq<Sample>)
    reads set s | s in ss :: s.slice
  {
    forall k :: k in table ==> table[k] in ss && h(table[k].slice.ids) == k
  }

  /** The result has grown by one entry, as far as values can tell. */
  ghost predicate GrownBy(names: seq<string>, before: seq<Entry>, e: Entry, after: seq<Entry>) {
    && AllInRange(|names|, before) && AllInRange(|names|, after) && InRange(|names|, e.ids)
    && forall stack :: Grown(names, before, e, after, stack)
  }

  ghost predicate Grown(names: seq<string>, before: seq<Entry>, e: Entry, after: seq<Entry>, stack: seq<string>)
    requires AllInRange(|names|, before) && AllInRange(|names|, after) && InRange(|names|, e.ids)
  {
    ValueOf(names, after, stack) == ValueOf(names, before, stack) + if NamesAt(names, e.ids) == stack then e.value else 0
  }

  lemma GrownInPlace(names: seq<string>, before: seq<Entry>, k: nat, v: int)
    requires AllInRange(|names|, before) && k < |before|
    ensures GrownBy(names, before, Entry(before[k].ids, v), before[k := before[k].(value := before[k].value + v)])
  {
    var after := before[k := before[k].(value := before[k].value + v)];
    assert AllInRange(|names|, after);
    forall stack ensures Grown(names, before, Entry(before[k].ids, v), after, stack) {
      ValueAdded(names, before, k, v, stack);
    }
  }

  lemma GrownAtEnd(names: seq<string>, before: seq<Entry>, e: Entry)
    requires AllInRange(|names|, before) && InRange(|names|, e.ids)
    ensures GrownBy(names, before, e, before + [e])
  {
    assert AllInRange(|names|, before + [e]);
    forall stack ensures Grown(names, before, e, before + [e], stack) {
      ValueMore(names, before, e, stack);
    }
  }

  /** A sample is added to the one with the same ids, or appended. */
  method AddSample(h: Hash, table: map<int, Sample>, ss: seq<Sample>, s: Sample, ghost names: seq<string>)
    returns (table': map<int, Sample>, ss': seq<Sample>)
    requires Injective(h) && Distinct(ss) && s !in ss && Keyed(h, table, ss)
    requires AllInRange(|names|, View(ss)) && InRange(|names|, s.slice.ids)
    modifies (set x | x in ss)`value
    ensures Distinct(ss') && Keyed(h, table', ss') && (ss' == ss || ss' == ss + [s])
    ensures GrownBy(names, old(View(ss)), Entry(s.slice.ids, s.value), View(ss'))
  {
    hide GrownBy, AllInRange, InRange, View;
    ghost var before := View(ss);
    table', ss' := table, ss;
    var hash := h(s.slice.ids);
    if hash in table {
      var existing := table[hash];
      ghost var k :| 0 <= k < |ss| && ss[k] == existing;
      assert existing.slice.ids == s.slice.ids;
      GrownInPlace(names, before, k, s.value);
      existing.value := existing.value + s.value;
      assert View(ss) == before[k := before[k].(value := before[k].value + s.value)];
    } else {
      table' := table[hash := s];
      ss' := ss + [s];
      GrownAtEnd(names, before, Entry(s.slice.ids, s.value));
      assert View(ss') == before + [Entry(s.slice.ids, s.value)];
    }
  }

  /** The values of non-empty stacks are the sums of those of `before` and `es`. */
  ghost predicate SumOf(names: seq<string>, before: seq<Entry>, es: seq<Entry>, after: seq<Entry>) {
    && AllInRange(|names|, before) && AllInRange(|names|, es) && AllInRange(|names|, after)
    && forall stack :: stack != [] ==> Sums(names, before, es, after, stack)
  }

  ghost predicate Sums(names: seq<string>, before: seq<Entry>, es: seq<Entry>, after: seq<Entry>, stack: seq<string>)
    requires AllInRange(|names|, before) && AllInRange(|names|, es) && AllInRange(|names|, after)
  {
    ValueOf(names, after, stack) == ValueOf(names, before, stack) + ValueOf(names, es, stack)
  }

  lemma SumNext(names: seq<string>, before: seq<Entry>, es: seq<Entry>, i: nat, now: seq<Entry>, next: seq<Entry>)
    requires i < |es| && SumOf(names, before, es[..i], now) && InRange(|names|, es[i].ids)
    requires if es[i].ids == [] then next == now else GrownBy(names, now, es[i], next)
    ensures SumOf(names, before, es[..i + 1], next)
  {
    hide ValueOf;
    assert es[..i + 1] == es[..i] + [es[i]];
    var done := es[..i + 1];
    assert AllInRange(|names|, done);
    forall stack | stack != [] ensures Sums(names, before, done, next, stack) {
      ValueMore(names, es[..i], es[i], stack);
      assert Sums(names, before, es[..i], now, stack);
      if es[i].ids != [] {
        assert Grown(names, now, es[i], next, stack);
      }
    }
  }

  /** The samples of a response, one after the other; those without ids are passed over. */
  method AddSamples(h: Hash, table: map<int, Sample>, into: seq<Sample>, ss: seq<Sample>, ghost names: seq<string>)
    returns (table': map<int, Sample>, into': seq<Sample>)
    requires Injective(h) && Distinct(into) && Distinct(ss) && (forall s :: s in ss ==> s !in into) && Keyed(h, table, into)
    requires AllInRange(|names|, View(into)) && AllInRange(|names|, View(ss))
    modifies (set x | x in into)`value, (set x | x in ss)`value
    ensures Distinct(into') && Keyed(h, table', into') && forall s :: s in into' ==> s in into || s in ss
    ensures SumOf(names, old(View(into)), old(View(ss)), View(into'))
  {
    hide SumOf, GrownBy, Injective, View, AllInRange, InRange, Keyed;
    ghost var before, es := View(into), View(ss);
    table', into' := table, into;
    assert SumOf(names, before, es[..0], View(into')) by { NothingAdded(names, before, es); }
    for i := 0 to |ss|
      invariant Distinct(into') && Keyed(h, table', into')
      invariant forall s :: s in into' ==> s in into || s in ss[..i]
      invariant forall k :: i <= k < |ss| ==> ss[k] !in into' && ss[k].value == es[k].value
      invariant SumOf(names, before, es[..i], View(into')) && AllInRange(|names|, View(into'))
    {
      var s := ss[i];
      ghost var now := View(into');
      assert Entry(s.slice.ids, s.value) == es[i];
      EntryInRange(|names|, es, i);
      if |s.slice.ids| != 0 {
        table', into' := AddSample(h, table', into', s, names);
      }
      SumNext(names, before, es, i, now, View(into'));
      SumInRange(names, before, es[..i + 1], View(into'));
    }
    assert es[..|ss|] == es;
  }

  lemma EntryInRange(n: nat, es: seq<Entry>, i: nat)
    requires AllInRange(n, es) && i < |es|
    ensures InRange(n, es[i].ids)
  {
  }

  lemma NothingAdded(names: seq<string>, before: seq<Entry>, es: seq<Entry>)
    requires AllInRange(|names|, before)
    ensures SumOf(names, before, es[..0], before)
  {
  }

  lemma SumInRange(names: seq<string>, before: seq<Entry>, es: seq<Entry>, after: seq<Entry>)
    requires SumOf(names, before, es, after)
    ensures AllInRange(|names|, after)
  {
  }

  // ----- one more response -----

  ghost function SlicesOf(ss: seq<Sample>): set<IdSlice> {
    set s | s in ss :: s.slice
  }

  ghost function SamplesOf(ss: seq<Sample>): set<Sample> {
    set s | s in ss
  }

  /** A result with its table: samples apart, ids in range, and an entry for what is in the table. */
  ghost predicate Merging(h: Hash, result: Response, table: map<int, Sample>)
    reads result, SamplesOf(result.stacktraces), SlicesOf(result.stacktraces)
  {
    Distinct(result.stacktraces) && Keyed(h, table, result.stacktraces) && AllInRange(|result.names|, View(result.stacktraces))
  }

  /** The values of a result are those of `names0, es0` and `names1, es1` together. */
  ghost predicate Both(names0: seq<string>, es0: seq<Entry>, names1: seq<string>, es1: seq<Entry>, names: seq<string>, es: seq<Entry>) {
    && AllInRange(|names0|, es0) && AllInRange(|names1|, es1) && AllInRange(|names|, es)
    && forall stack :: stack != [] ==> ValueOf(names, es, stack) == ValueOf(names0, es0, stack) + ValueOf(names1, es1, stack)
  }

  lemma BothFrom(names0: seq<string>, es0: seq<Entry>, names1: seq<string>, es1: seq<Entry>, rewrite: seq<nat>,
                 names: seq<string>, es: seq<Entry>)
    requires AllInRange(|names0|, es0) && names0 <= names && Renames(rewrite, names1, names) && AllInRange(|names1|, es1)
    requires SumOf(names, es0, RewrittenEntries(rewrite, es1), es)
    ensures Both(names0, es0, names1, es1, names, es)
  {
    hide ValueOf;
    forall stack | stack != [] ensures ValueOf(names, es, stack) == ValueOf(names0, es0, stack) + ValueOf(names1, es1, stack) {
      ValueLonger(names0, names, es0, stack);
      RewrittenValue(rewrite, names1, names, es1, stack);
      assert Sums(names, es0, RewrittenEntries(rewrite, es1), es, stack);
    }
  }

  /** The ids of a response are rewritten to names of the result. */
  method RewriteResponse(into: seq<Sample>, resp: Response, posByName: map<string, nat>, names0: seq<string>)
    returns (rewrite: seq<nat>, names: seq<string>)
    requires Indexed(posByName, names0) && AllInRange(|resp.names|, View(resp.stacktraces))
    requires SlicesOf(into) !! SlicesOf(resp.stacktraces)
    modifies SlicesOf(resp.stacktraces)
    ensures names0 <= names && Renames(rewrite, resp.names, names) && |rewrite| == |resp.names|
    ensures AllInRange(|rewrite|, old(View(resp.stacktraces)))
    ensures View(resp.stacktraces) == RewrittenEntries(rewrite, old(View(resp.stacktraces)))
    ensures View(into) == old(View(into)) && forall s :: s in into ==> s.slice.ids == old(s.slice.ids)
  {
    hide Renames, View, Rewritten, InRange, AllInRange, Indexed;
    ghost var es1 := View(resp.stacktraces);
    rewrite, names := RewriteNames(posByName, names0, resp.names);
    RenamesLength(rewrite, resp.names, names);
    SamplesInRange(resp, |rewrite|);
    SlicesApart(into, resp.stacktraces);
    RewriteSlices(resp.stacktraces, rewrite);
    assert View(resp.stacktraces) == RewrittenEntries(rewrite, es1);
  }

  lemma SlicesApart(a: seq<Sample>, b: seq<Sample>)
    requires SlicesOf(a) !! SlicesOf(b)
    ensures forall s :: s in a ==> s.slice !in SlicesOf(b)
  {
    forall s | s in a ensures s.slice !in SlicesOf(b) {
      assert s.slice in SlicesOf(a);
    }
  }

  /** A response is merged into the result: the values of every non-empty stack add up. */
  method MergeResponse(h: Hash, result: Response, resp: Response, table: map<int, Sample>, posByName: map<string, nat>)
    returns (table': map<int, Sample>)
    requires Injective(h) && result != resp && Merging(h, result, table) && Indexed(posByName, result.names)
    requires Distinct(resp.stacktraces) && AllInRange(|resp.names|, View(resp.stacktraces))
    requires SamplesOf(result.stacktraces) !! SamplesOf(resp.stacktraces)
    requires SlicesOf(result.stacktraces) !! SlicesOf(resp.stacktraces)
    modifies result, SamplesOf(result.stacktraces)`value, SamplesOf(resp.stacktraces)`value, SlicesOf(resp.stacktraces)
    ensures Merging(h, result, table') && Indexed(posByName, result.names)
    ensures SamplesOf(result.stacktraces) <= old(SamplesOf(result.stacktraces)) + old(SamplesOf(resp.stacktraces))
    ensures Both(old(result.names), old(View(result.stacktraces)), old(resp.names), old(View(resp.stacktraces)),
                 result.names, View(result.stacktraces))
  {
    hide Injective, Keyed, Renames, Both, SumOf, View, Rewritten, NamesAt, InRange, ValueOf, Distinct, AllInRange, Indexed;
    ghost var es0, es1, names0 := View(result.stacktraces), View(resp.stacktraces), result.names;
    var rewrite, names := RewriteResponse(result.stacktraces, resp, posByName, result.names);
    Apart(result.stacktraces, resp.stacktraces);
    IndexedLonger(posByName, result.names, names);
    StillInRange(names0, names, es0, rewrite, resp.names, es1);
    assert Keyed(h, table, result.stacktraces);
    var ss;
    table', ss := AddSamples(h, table, result.stacktraces, resp.stacktraces, names);
    result.names, result.stacktraces := names, ss;
    BothFrom(names0, es0, resp.names, es1, rewrite, names, View(ss));
    BothInRange(names0, es0, resp.names, es1, names, View(ss));
  }

  lemma Apart(a: seq<Sample>, b: seq<Sample>)
    requires SamplesOf(a) !! SamplesOf(b) && SlicesOf(a) !! SlicesOf(b)
    ensures forall s :: s in b ==> s !in a
    ensures forall s :: s in a ==> s.slice !in SlicesOf(b)
  {
    forall s | s in b ensures s !in a {
      assert s in SamplesOf(b);
    }
    forall s | s in a ensures s.slice !in SlicesOf(b) {
      assert s.slice in SlicesOf(a);
    }
  }

  lemma IndexedLonger(posByName: map<string, nat>, names: seq<string>, names': seq<string>)
    requires Indexed(posByName, names) && names <= names'
    ensures Indexed(posByName, names')
  {
  }

  lemma RenamesLength(rewrite: seq<nat>, from: seq<string>, into: seq<string>)
    requires Renames(rewrite, from, into)
    ensures |rewrite| == |from|
  {
  }

  lemma SamplesInRange(resp: Response, n: nat)
    requires AllInRange(n, View(resp.stacktraces))
    ensures forall s :: s in resp.stacktraces ==> InRange(n, s.slice.ids)
  {
    forall s | s in resp.stacktraces ensures InRange(n, s.slice.ids) {
      var i :| 0 <= i < |resp.stacktraces| && resp.stacktraces[i] == s;
      assert View(resp.stacktraces)[i].ids == s.slice.ids;
    }
  }

  lemma StillInRange(names0: seq<string>, names: seq<string>, es0: seq<Entry>, rewrite: seq<nat>, names1: seq<string>, es1: seq<Entry>)
    requires AllInRange(|names0|, es0) && names0 <= names && Renames(rewrite, names1, names) && AllInRange(|names1|, es1)
    ensures AllInRange(|names|, es0) && AllInRange(|names|, RewrittenEntries(rewrite, es1))
  {
    ValueLonger(names0, names, es0, []);
    RewrittenValue(rewrite, names1, names, es1, []);
  }

  lemma BothInRange(names0: seq<string>, es0: seq<Entry>, names1: seq<string>, es1: seq<Entry>, names: seq<string>, es: seq<Entry>)
    requires Both(names0, es0, names1, es1, names, es)
    ensures AllInRange(|names|, es)
  {
  }

  // ----- the final sort -----

  /** Name stacks in lexicographic order: the first differing name decides; a prefix comes first. */
  ghost predicate StackAtMost(a: seq<string>, b: seq<string>) {
    !Lexicographic(Labels.StringBefore, b, a)
  }

  /** A total order: two stacks that are not after each other are the same. */
  lemma {:induction false} StackOrder(a: seq<string>, b: seq<string>, c: seq<string>)
    ensures StackAtMost(a, b) || StackAtMost(b, a)
    ensures StackAtMost(a, b) && StackAtMost(b, a) <==> a == b
    ensures StackAtMost(a, b) && StackAtMost(b, c) ==> StackAtMost(a, c)
    decreases |a| + |b| + |c|
  {
    hide Lexicographic, Labels.StringBefore, Labels.CompareStrings;
    StackNext(a, b);
    StackNext(b, a);
    StackNext(b, c);
    StackNext(a, c);
    if a != [] && b != [] {
      assert a == [a[0]] + a[1..] && b == [b[0]] + b[1..];
      StackOrder(a[1..], b[1..], if c == [] then c else c[1..]);
      Labels.CompareStringsOrder(a[0], b[0], if c == [] then "" else c[0]);
      Labels.CompareStringsOrder(b[0], a[0], "");
    }
  }

  /** The comparison goes on at the next name where two names are equal. */
  lemma StackNext(a: seq<string>, b: seq<string>)
    ensures a == [] ==> StackAtMost(a, b)
    ensures a != [] && b == [] ==> !StackAtMost(a, b)
    ensures a != [] && b != [] ==>
              (StackAtMost(a, b) <==> Labels.CompareStrings(a[0], b[0]) < 0 || (a[0] == b[0] && StackAtMost(a[1..], b[1..])))
  {
    if a == [] || b == [] {
      LexicographicEnd(Labels.StringBefore, b, a);
    } else {
      hide Lexicographic, Labels.StringBefore, Labels.CompareStrings;
      LexicographicNext(Labels.StringBefore, b, a);
      Labels.StringsCompare(a[0], b[0]);
    }
  }

  /** The comparison of `sortStacktraces`, position by position.  It holds for a sample and itself. */
  method NotAfter(names: seq<string>, a: seq<nat>, b: seq<nat>) returns (less: bool)
    requires InRange(|names|, a) && InRange(|names|, b)
    ensures less <==> StackAtMost(NamesAt(names, a), NamesAt(names, b))
  {
    hide StackAtMost, Labels.CompareStrings;
    ghost var x, y := NamesAt(names, a), NamesAt(names, b);
    var pos := 0;
    assert x[0..] == x && y[0..] == y;
    while pos < |a|
      invariant pos <= |a| && pos <= |b| && (StackAtMost(x, y) <==> StackAtMost(x[pos..], y[pos..]))
    {
      StackNext(x[pos..], y[pos..]);
      if pos >= |b| {
        return false;
      }
      var diff := Labels.CompareStrings(names[a[pos]], names[b[pos]]);
      if diff < 0 {
        return true;
      } else if diff > 0 {
        return false;
      }
      pos := pos + 1;
    }
    StackNext(x[pos..], y[pos..]);
    return true;
  }

  ghost predicate InNameOrder(names: seq<string>, es: seq<Entry>) {
    && AllInRange(|names|, es)
    && forall i, j :: 0 <= i < j < |es| ==> StackAtMost(NamesAt(names, es[i].ids), NamesAt(names, es[j].ids))
  }

  ghost predicate SameValues(names: seq<string>, es: seq<Entry>, es': seq<Entry>) {
    && AllInRange(|names|, es) && AllInRange(|names|, es')
    && forall stack :: ValueOf(names, es', stack) == ValueOf(names, es, stack)
  }

  lemma {:induction false} ValueConcat(names: seq<string>, a: seq<Entry>, b: seq<Entry>, stack: seq<string>)
    requires AllInRange(|names|, a) && AllInRange(|names|, b)
    ensures AllInRange(|names|, a + b) && ValueOf(names, a + b, stack) == ValueOf(names, a, stack) + ValueOf(names, b, stack)
  {
    if b == [] {
      assert a + b == a;
    } else {
      var front, last := b[..|b| - 1], b[|b| - 1];
      assert b == front + [last] && AllInRange(|names|, front);
      ValueConcat(names, a, front, stack);
      ValueMore(names, front, last, stack);
      ValueMore(names, a + front, last, stack);
      hide ValueOf, AllInRange, NamesAt, InRange;
      assert a + b == a + front + [last];
    }
  }

  /** An entry put before one that it is not after. */
  lemma Inserted(names: seq<string>, es: seq<Entry>, e: Entry, k: nat)
    requires InNameOrder(names, es) && InRange(|names|, e.ids) && k <= |es|
    requires forall i :: 0 <= i < k ==> StackAtMost(NamesAt(names, es[i].ids), NamesAt(names, e.ids))
    requires k < |es| ==> StackAtMost(NamesAt(names, e.ids), NamesAt(names, es[k].ids))
    ensures InNameOrder(names, es[..k] + [e] + es[k..])
    ensures GrownBy(names, es, e, es[..k] + [e] + es[k..])
  {
    hide StackAtMost, NamesAt, InRange;
    var a, b := es[..k], es[k..];
    var es' := a + [e] + b;
    assert es == a + b;
    assert AllInRange(|names|, es');
    forall i | k <= i < |es| ensures StackAtMost(NamesAt(names, e.ids), NamesAt(names, es[i].ids)) {
      if k < i {
        StackOrder(NamesAt(names, e.ids), NamesAt(names, es[k].ids), NamesAt(names, es[i].ids));
      }
    }
    assert InNameOrder(names, es') by { OrderJoins(names, es, e, k); }
    forall stack ensures Grown(names, es, e, es', stack) {
      ValueConcat(names, a, b, stack);
      ValueMore(names, a, e, stack);
      ValueConcat(names, a + [e], b, stack);
    }
  }

  lemma OrderJoins(names: seq<string>, es: seq<Entry>, e: Entry, k: nat)
    requires InNameOrder(names, es) && InRange(|names|, e.ids) && k <= |es|
    requires forall i :: 0 <= i < k ==> StackAtMost(NamesAt(names, es[i].ids), NamesAt(names, e.ids))
    requires forall i :: k <= i < |es| ==> StackAtMost(NamesAt(names, e.ids), NamesAt(names, es[i].ids))
    ensures InNameOrder(names, es[..k] + [e] + es[k..])
  {
    hide StackAtMost, NamesAt, InRange;
    var es' := es[..k] + [e] + es[k..];
    forall i, j | 0 <= i < j < |es'| ensures StackAtMost(NamesAt(names, es'[i].ids), NamesAt(names, es'[j].ids)) {
      assert i < k ==> es'[i] == es[i];
      assert i > k ==> es'[i] == es[i - 1];
      assert j < k ==> es'[j] == es[j];
      assert j > k ==> es'[j] == es[j - 1];
    }
  }

  /** The number of samples that are not after `ids`, up to the first that is. */
  method FindPlace(names: seq<string>, ss: seq<Sample>, ids: seq<nat>, ghost es: seq<Entry>) returns (k: nat)
    requires es == View(ss) && AllInRange(|names|, es) && InRange(|names|, ids)
    ensures k <= |es| && forall i :: 0 <= i < k ==> StackAtMost(NamesAt(names, es[i].ids), NamesAt(names, ids))
    ensures k < |es| ==> StackAtMost(NamesAt(names, ids), NamesAt(names, es[k].ids))
  {
    hide StackAtMost, InRange, NamesAt, View;
    k := 0;
    while k < |ss|
      invariant k <= |ss| && forall i :: 0 <= i < k ==> StackAtMost(NamesAt(names, es[i].ids), NamesAt(names, ids))
    {
      assert ss[k].slice.ids == es[k].ids;
      var before := NotAfter(names, ss[k].slice.ids, ids);
      if !before {
        StackOrder(NamesAt(names, es[k].ids), NamesAt(names, ids), []);
        return;
      }
      k := k + 1;
    }
  }

  method InsertSample(names: seq<string>, ss: seq<Sample>, s: Sample) returns (r: seq<Sample>)
    requires InNameOrder(names, View(ss)) && InRange(|names|, s.slice.ids)
    ensures multiset(r) == multiset(ss) + multiset{s}
    ensures InNameOrder(names, View(r)) && GrownBy(names, View(ss), Entry(s.slice.ids, s.value), View(r))
  {
    hide InNameOrder, StackAtMost, GrownBy, InRange, NamesAt, AllInRange, View;
    ghost var es, e := View(ss), Entry(s.slice.ids, s.value);
    OrderInRange(names, es);
    var k := FindPlace(names, ss, s.slice.ids, es);
    r := ss[..k] + [s] + ss[k..];
    ViewInserted(ss, s, k);
    Inserted(names, es, e, k);
  }

  lemma ViewInserted(ss: seq<Sample>, s: Sample, k: nat)
    requires k <= |ss|
    ensures View(ss[..k] + [s] + ss[k..]) == View(ss)[..k] + [Entry(s.slice.ids, s.value)] + View(ss)[k..]
    ensures multiset(ss[..k] + [s] + ss[k..]) == multiset(ss) + multiset{s}
  {
    hide View;
    assert ss == ss[..k] + ss[k..];
    assert View(ss[..k] + [s] + ss[k..]) == View(ss)[..k] + [Entry(s.slice.ids, s.value)] + View(ss)[k..];
  }

  lemma OrderInRange(names: seq<string>, es: seq<Entry>)
    requires InNameOrder(names, es)
    ensures AllInRange(|names|, es)
  {
  }

  /** `sortStacktraces`: the same samples, in the order of their names. */
  method SortStacktraces(result: Response)
    requires AllInRange(|result.names|, View(result.stacktraces))
    modifies result`stacktraces
    ensures multiset(result.stacktraces) == old(multiset(result.stacktraces))
    ensures InNameOrder(result.names, View(result.stacktraces))
    ensures SameValues(result.names, old(View(result.stacktraces)), View(result.stacktraces))
  {
    hide InNameOrder, SameValues, InRange, View;
    var ss, names := result.stacktraces, result.names;
    ghost var es := View(ss);
    var r: seq<Sample> := [];
    assert View(r) == [] == es[..0];
    NothingSorted(names);
    for i := 0 to |ss|
      invariant multiset(r) == multiset(ss[..i])
      invariant InNameOrder(names, View(r)) && SameValues(names, es[..i], View(r))
    {
      assert ss[..i + 1] == ss[..i] + [ss[i]];
      assert InRange(|names|, es[i].ids);
      ghost var before := View(r);
      r := InsertSample(names, r, ss[i]);
      SameValuesMore(names, es, i, before, View(r));
    }
    assert ss[..|ss|] == ss && es[..|ss|] == es;
    result.stacktraces := r;
  }

  lemma NothingSorted(names: seq<string>)
    ensures InNameOrder(names, []) && SameValues(names, [], [])
  {
  }

  lemma SameValuesMore(names: seq<string>, es: seq<Entry>, i: nat, before: seq<Entry>, after: seq<Entry>)
    requires i < |es| && SameValues(names, es[..i], before) && GrownBy(names, before, es[i], after)
    ensures SameValues(names, es[..i + 1], after)
  {
    hide ValueOf, InRange, NamesAt;
    var now, next := es[..i], es[..i + 1];
    assert next == now + [es[i]];
    assert AllInRange(|names|, next);
    forall stack ensures ValueOf(names, after, stack) == ValueOf(names, next, stack) {
      ValueMore(names, now, es[i], stack);
      assert Grown(names, before, es[i], after, stack);
    }
  }

  // ----- the whole batch -----

  /** What is given: the samples and names of every response, as they stand at the start. */
  datatype Given = Given(samples: seq<Sample>, names: seq<string>, entries: seq<Entry>)

  ghost function GivenBy(r: Response?): Given
    reads r, if r == null then {} else SamplesOf(r.stacktraces), if r == null then {} else SlicesOf(r.stacktraces)
  {
    if r == null then Given([], [], []) else Given(r.stacktraces, r.names, View(r.stacktraces))
  }

  ghost predicate InOrder(g: Given) {
    Distinct(g.samples) && |g.entries| == |g.samples| && AllInRange(|g.names|, g.entries)
  }

  /** No two responses share a sample or a slice. */
  ghost predicate Separate(gs: seq<Given>) {
    forall i, j :: 0 <= i < j < |gs| ==> DisjointSamples(gs[i].samples, gs[j].samples)
  }

  ghost predicate DisjointSamples(a: seq<Sample>, b: seq<Sample>) {
    SamplesOf(a) !! SamplesOf(b) && SlicesOf(a) !! SlicesOf(b)
  }

  /** The sum of the values of a stack over the first `n` responses. */
  ghost function Total(gs: seq<Given>, n: nat, stack: seq<string>): int
    requires n <= |gs| && forall g :: g in gs ==> InOrder(g)
  {
    if n == 0 then 0
    else
      assert InOrder(gs[n - 1]);
      Total(gs, n - 1, stack) + ValueOf(gs[n - 1].names, gs[n - 1].entries, stack)
  }

  ghost predicate Totals(gs: seq<Given>, n: nat, names: seq<string>, es: seq<Entry>) {
    && n <= |gs| && (forall g :: g in gs ==> InOrder(g)) && AllInRange(|names|, es)
    && forall stack :: stack != [] ==> ValueOf(names, es, stack) == Total(gs, n, stack)
  }

  lemma TotalsNext(gs: seq<Given>, n: nat, names0: seq<string>, es0: seq<Entry>, names: seq<string>, es: seq<Entry>)
    requires n < |gs| && Totals(gs, n, names0, es0) && Both(names0, es0, gs[n].names, gs[n].entries, names, es)
    ensures Totals(gs, n + 1, names, es)
  {
    hide ValueOf;
    forall stack | stack != [] ensures ValueOf(names, es, stack) == Total(gs, n + 1, stack) {
      assert ValueOf(names0, es0, stack) == Total(gs, n, stack);
    }
  }

  lemma TotalsSorted(gs: seq<Given>, names: seq<string>, es: seq<Entry>, es': seq<Entry>)
    requires Totals(gs, |gs|, names, es) && SameValues(names, es, es')
    ensures Totals(gs, |gs|, names, es')
  {
  }

  lemma TotalsInRange(gs: seq<Given>, names: seq<string>, es: seq<Entry>)
    requires Totals(gs, |gs|, names, es)
    ensures AllInRange(|names|, es)
  {
  }

  lemma TotalsSame(gs: seq<Given>, n: nat, names: seq<string>, es: seq<Entry>)
    requires n < |gs| && Totals(gs, n, names, es) && gs[n].entries == []
    ensures Totals(gs, n + 1, names, es)
  {
  }

  lemma {:induction false} TotalNothing(gs: seq<Given>, n: nat, stack: seq<string>)
    requires n <= |gs| && (forall g :: g in gs ==> InOrder(g)) && forall k :: 0 <= k < n ==> gs[k].entries == []
    ensures Total(gs, n, stack) == 0
  {
    if n > 0 {
      TotalNothing(gs, n - 1, stack);
    }
  }

  lemma TotalsFirst(gs: seq<Given>, n: nat)
    requires n <= |gs| && (forall g :: g in gs ==> InOrder(g)) && forall k :: 0 <= k < n ==> gs[k].entries == []
    ensures Totals(gs, n, [], [])
    ensures n < |gs| ==> Totals(gs, n + 1, gs[n].names, gs[n].entries)
  {
    forall stack ensures Total(gs, n, stack) == 0 {
      TotalNothing(gs, n, stack);
    }
    if n < |gs| {
      assert InOrder(gs[n]);
      forall stack ensures Total(gs, n + 1, stack) == ValueOf(gs[n].names, gs[n].entries, stack) {
        assert Total(gs, n, stack) == 0;
      }
    }
  }

  ghost predicate From(gs: seq<Given>, n: nat, ss: seq<Sample>)
    requires n <= |gs|
  {
    forall s :: s in ss ==> exists k :: 0 <= k < n && s in gs[k].samples
  }

  lemma FromApart(gs: seq<Given>, n: nat, ss: seq<Sample>, m: nat)
    requires Separate(gs) && n <= m < |gs| && From(gs, n, ss)
    ensures DisjointSamples(ss, gs[m].samples)
  {
    forall s | s in ss ensures s !in SamplesOf(gs[m].samples) && s.slice !in SlicesOf(gs[m].samples) {
      var k :| 0 <= k < n && s in gs[k].samples;
      assert DisjointSamples(gs[k].samples, gs[m].samples);
      assert s in SamplesOf(gs[k].samples) && s.slice in SlicesOf(gs[k].samples);
    }
  }

  lemma FromFirst(gs: seq<Given>, n: nat)
    requires n < |gs|
    ensures From(gs, n + 1, gs[n].samples)
  {
  }

  lemma FromGiven(gs: seq<Given>, n: nat, ss: seq<Sample>)
    requires n < |gs| && From(gs, n, ss)
    ensures SamplesOf(ss) <= AllSamples(gs) && SamplesOf(gs[n].samples) <= AllSamples(gs)
    ensures SlicesOf(gs[n].samples) <= AllSlices(gs)
  {
  }

  lemma FromMore(gs: seq<Given>, n: nat, ss: seq<Sample>, ss': seq<Sample>)
    requires n < |gs| && From(gs, n, ss) && SamplesOf(ss') <= SamplesOf(ss) + SamplesOf(gs[n].samples)
    ensures From(gs, n + 1, ss')
  {
    forall s | s in ss' ensures exists k :: 0 <= k < n + 1 && s in gs[k].samples {
      assert s in SamplesOf(ss');
      if s in ss {
        var k :| 0 <= k < n && s in gs[k].samples;
      }
    }
  }

  method KeyAll(h: Hash, ss: seq<Sample>) returns (table: map<int, Sample>)
    ensures Keyed(h, table, ss)
  {
    table := map[];
    for i := 0 to |ss|
      invariant Keyed(h, table, ss)
    {
      table := table[h(ss[i].slice.ids) := ss[i]];
    }
  }

  ghost function GivenByAll(responses: seq<Response?>): (gs: seq<Given>)
    reads *
    ensures |gs| == |responses| && forall k :: 0 <= k < |gs| ==> gs[k] == GivenBy(responses[k])
  {
    if responses == [] then [] else GivenByAll(responses[..|responses| - 1]) + [GivenBy(responses[|responses| - 1])]
  }

  ghost function AllSamples(gs: seq<Given>): set<Sample> {
    set k, s | 0 <= k < |gs| && s in gs[k].samples :: s
  }

  ghost function AllSlices(gs: seq<Given>): set<IdSlice> {
    set k, s | 0 <= k < |gs| && s in gs[k].samples :: s.slice
  }

  ghost predicate DistinctResponses(responses: seq<Response?>) {
    forall i, j :: 0 <= i < j < |responses| && responses[i] != null ==> responses[i] != responses[j]
  }

  /** The responses from `i` on are as they were given. */
  ghost predicate Untouched(responses: seq<Response?>, gs: seq<Given>, i: nat)
    requires |gs| == |responses|
    reads *
  {
    forall k :: i <= k < |responses| ==> gs[k] == GivenBy(responses[k])
  }

  /** `MergeBatchMergeStacktraces`: the values of every non-empty stack add up, over all responses;
      all function ids are in range, and the samples are in the order of their names. */
  method MergeBatch(h: Hash, responses: seq<Response?>, ghost gs: seq<Given>) returns (merged: Response)
    requires Injective(h) && gs == GivenByAll(responses) && DistinctResponses(responses)
    requires Separate(gs) && forall g :: g in gs ==> InOrder(g)
    modifies set r: Response? | r in responses
    modifies AllSamples(gs)`value, AllSlices(gs)
    ensures Totals(gs, |gs|, merged.names, View(merged.stacktraces))
    ensures InNameOrder(merged.names, View(merged.stacktraces))
  {
    hide Injective, InNameOrder, Totals, Separate, AllInRange, GivenByAll, InOrder, View;
    var result := MergeAll(h, responses, gs);
    if result == null {
      TotalsFirst(gs, |gs|);
      merged := new Response();
    } else {
      merged := result;
    }
    FinishBatch(merged, gs);
  }

  /** What is merged after `i` responses; those from `i` on are as they were given. */
  ghost predicate MergedSoFar(h: Hash, responses: seq<Response?>, gs: seq<Given>, i: nat, result: Response?, table: map<int, Sample>,
                              posByName: map<string, nat>, hasIndex: bool)
    requires i <= |gs| == |responses|
    reads *
  {
    && Untouched(responses, gs, i)
    && (result == null ==> !hasIndex && forall k :: 0 <= k < i ==> gs[k].entries == [])
    && (result != null ==>
          && (exists k :: 0 <= k < i && responses[k] == result)
          && Merging(h, result, table) && From(gs, i, result.stacktraces)
          && (forall g :: g in gs ==> InOrder(g)) && Totals(gs, i, result.names, View(result.stacktraces))
          && (hasIndex ==> Indexed(posByName, result.names)))
  }

  lemma NothingMerged(h: Hash, responses: seq<Response?>, gs: seq<Given>)
    requires gs == GivenByAll(responses)
    ensures |gs| == |responses| && MergedSoFar(h, responses, gs, 0, null, map[], map[], false)
  {
  }

  /** A response without samples adds nothing. */
  lemma SkipEmpty(h: Hash, responses: seq<Response?>, gs: seq<Given>, i: nat, result: Response?, table: map<int, Sample>,
                  posByName: map<string, nat>, hasIndex: bool)
    requires i < |gs| == |responses| && MergedSoFar(h, responses, gs, i, result, table, posByName, hasIndex)
    requires responses[i] == null || responses[i].stacktraces == []
    ensures MergedSoFar(h, responses, gs, i + 1, result, table, posByName, hasIndex)
  {
    hide Merging, Totals, From, InOrder;
    if result != null {
      TotalsSame(gs, i, result.names, View(result.stacktraces));
      FromMore(gs, i, result.stacktraces, result.stacktraces);
    }
  }

  method MergeOne(h: Hash, responses: seq<Response?>, ghost gs: seq<Given>, i: nat, result: Response?, table: map<int, Sample>,
                  posByName: map<string, nat>, hasIndex: bool)
    returns (result': Response?, table': map<int, Sample>, posByName': map<string, nat>, hasIndex': bool)
    requires Injective(h) && DistinctResponses(responses) && Separate(gs) && forall g :: g in gs ==> InOrder(g)
    requires i < |gs| == |responses| && MergedSoFar(h, responses, gs, i, result, table, posByName, hasIndex)
    modifies set r: Response? | r in responses
    modifies AllSamples(gs)`value, AllSlices(gs)
    ensures MergedSoFar(h, responses, gs, i + 1, result', table', posByName', hasIndex')
  {
    hide Injective, Totals, Separate, From, Both, InOrder, Distinct, Merging, View, Indexed, DistinctResponses;
    result', table', posByName', hasIndex' := result, table, posByName, hasIndex;
    var resp := responses[i];
    if resp == null || |resp.stacktraces| == 0 {
      SkipEmpty(h, responses, gs, i, result, table, posByName, hasIndex);
      return;
    }
    assert gs[i] == GivenBy(resp);
    if result == null {
      result' := resp;
      table' := Start(h, resp, gs, i);
      return;
    }
    FromGiven(gs, i, result.stacktraces);
    table', posByName' := MergeNext(h, result, resp, table, posByName, hasIndex, responses, gs, i);
    hasIndex' := true;
  }

  /** All responses in turn; no result if none has a sample. */
  method MergeAll(h: Hash, responses: seq<Response?>, ghost gs: seq<Given>) returns (result: Response?)
    requires Injective(h) && gs == GivenByAll(responses) && DistinctResponses(responses)
    requires Separate(gs) && forall g :: g in gs ==> InOrder(g)
    modifies set r: Response? | r in responses
    modifies AllSamples(gs)`value, AllSlices(gs)
    ensures result == null ==> forall k :: 0 <= k < |gs| ==> gs[k].entries == []
    ensures result != null ==> result in responses && Totals(gs, |gs|, result.names, View(result.stacktraces))
  {
    NothingMerged(h, responses, gs);
    hide *;
    result := null;
    var table: map<int, Sample> := map[];
    var posByName: map<string, nat> := map[];
    var hasIndex := false;
    for i := 0 to |responses|
      invariant MergedSoFar(h, responses, gs, i, result, table, posByName, hasIndex)
    {
      result, table, posByName, hasIndex := MergeOne(h, responses, gs, i, result, table, posByName, hasIndex);
    }
    MergedAll(h, responses, gs, result, table, posByName, hasIndex);
  }

  lemma MergedAll(h: Hash, responses: seq<Response?>, gs: seq<Given>, result: Response?, table: map<int, Sample>,
                  posByName: map<string, nat>, hasIndex: bool)
    requires |gs| == |responses| && MergedSoFar(h, responses, gs, |gs|, result, table, posByName, hasIndex)
    ensures result == null ==> forall k :: 0 <= k < |gs| ==> gs[k].entries == []
    ensures result != null ==> result in responses && Totals(gs, |gs|, result.names, View(result.stacktraces))
  {
  }

  method FinishBatch(merged: Response, ghost gs: seq<Given>)
    requires Totals(gs, |gs|, merged.names, View(merged.stacktraces))
    modifies merged`stacktraces
    ensures Totals(gs, |gs|, merged.names, View(merged.stacktraces))
    ensures InNameOrder(merged.names, View(merged.stacktraces))
  {
    hide InNameOrder, SameValues, Totals, View;
    ghost var es := View(merged.stacktraces);
    TotalsInRange(gs, merged.names, es);
    SortStacktraces(merged);
    TotalsSorted(gs, merged.names, es, View(merged.stacktraces));
  }

  lemma FirstIsMerging(h: Hash, r: Response, table: map<int, Sample>)
    requires InOrder(GivenBy(r)) && Keyed(h, table, r.stacktraces)
    ensures Merging(h, r, table)
  {
  }

  /** The first response that is not empty becomes the result. */
  method Start(h: Hash, result: Response, ghost gs: seq<Given>, ghost i: nat) returns (table: map<int, Sample>)
    requires i < |gs| && gs[i] == GivenBy(result) && (forall g :: g in gs ==> InOrder(g))
    requires forall k :: 0 <= k < i ==> gs[k].entries == []
    ensures Merging(h, result, table) && From(gs, i + 1, result.stacktraces)
    ensures Totals(gs, i + 1, result.names, View(result.stacktraces))
  {
    table := KeyAll(h, result.stacktraces);
    assert InOrder(gs[i]);
    FirstIsMerging(h, result, table);
    TotalsFirst(gs, i);
    FromFirst(gs, i);
  }

  /** One more response, with all that comes after it left as it is. */
  method MergeNext(h: Hash, result: Response, resp: Response, table: map<int, Sample>, posByName: map<string, nat>, hasIndex: bool,
                   ghost responses: seq<Response?>, ghost gs: seq<Given>, ghost i: nat)
    returns (table': map<int, Sample>, posByName': map<string, nat>)
    requires Injective(h) && |gs| == |responses| && i < |gs| && responses[i] == resp
    requires DistinctResponses(responses) && Separate(gs) && (forall g :: g in gs ==> InOrder(g)) && Untouched(responses, gs, i)
    requires exists k :: 0 <= k < i && responses[k] == result
    requires Merging(h, result, table) && From(gs, i, result.stacktraces) && (hasIndex ==> Indexed(posByName, result.names))
    requires Totals(gs, i, result.names, View(result.stacktraces))
    modifies result, SamplesOf(result.stacktraces)`value, SamplesOf(resp.stacktraces)`value, SlicesOf(resp.stacktraces)
    ensures Merging(h, result, table') && From(gs, i + 1, result.stacktraces) && Indexed(posByName', result.names)
    ensures Totals(gs, i + 1, result.names, View(result.stacktraces)) && Untouched(responses, gs, i + 1)
  {
    hide Injective, Totals, Separate, From, Both;
    ghost var ss, names0, es0 := result.stacktraces, result.names, View(result.stacktraces);
    assert gs[i] == GivenBy(resp) && InOrder(gs[i]);
    FromApart(gs, i, ss, i);
    posByName' := posByName;
    if !hasIndex {
      posByName' := IndexNames(result.names);
    }
    table' := MergeResponse(h, result, resp, table, posByName');
    TotalsNext(gs, i, names0, es0, result.names, View(result.stacktraces));
    FromMore(gs, i, ss, result.stacktraces);
    forall k | i + 1 <= k < |responses| ensures gs[k] == GivenBy(responses[k]) {
      assert old(gs[k] == GivenBy(responses[k]));
      if responses[k] != null {
        FromApart(gs, i, ss, k);
        SeparateAt(gs, i, k);
        Apart(ss, gs[k].samples);
        Apart(gs[i].samples, gs[k].samples);
        ViewSame(gs[k].samples, ss, gs[i].samples);
      }
    }
  }

  lemma SeparateAt(gs: seq<Given>, i: nat, k: nat)
    requires Separate(gs) && i < k < |gs|
    ensures DisjointSamples(gs[i].samples, gs[k].samples)
  {
  }

  lemma ViewSame(c: seq<Sample>, a: seq<Sample>, b: seq<Sample>)
    requires DisjointSamples(a, c) && DisjointSamples(b, c)
    ensures forall s :: s in c ==> s !in a && s !in b && s.slice !in SlicesOf(b)
  {
    forall s | s in c ensures s !in a && s !in b && s.slice !in SlicesOf(b) {
      assert s in SamplesOf(c) && s.slice in SlicesOf(c);
    }
  }
}
