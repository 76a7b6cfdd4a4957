/** Dropping what only removed samples referred to: locations, functions and strings, with the
    references into the string table shifted. */
module PprofReferences {
  import opened Pprof
  import opened Sequences
  import Interning

  type Line = Interning.Line

  /** Locations and functions of a profile, which refer to each other by id and into the string
      table by index. */
  datatype ProfileLocation = ProfileLocation(id: nat, mappingId: nat, lines: seq<Line>)
  datatype ProfileFunction = ProfileFunction(id: nat, name: int, systemName: int, filename: int)
  datatype Mapping = Mapping(id: nat, filename: int, buildId: int)
  datatype ValueType = ValueType(kind: int, unit: int)

  // ----- compacting the string table -----

  /** How many of the numbers below `n` are removed. */
  function Before(removed: set<int>, n: nat): (k: nat)
    ensures k <= n
  {
    if n == 0 then 0 else Before(removed, n - 1) + if n - 1 in removed then 1 else 0
  }

  /** `lo.Reject` on the string table. */
  function Reject(strings: seq<string>, removed: set<int>): (r: seq<string>)
    ensures |r| == |strings| - Before(removed, |strings|)
  {
    if strings == [] then []
    else
      var last := |strings| - 1;
      Reject(strings[..last], removed) + if last in removed then [] else [strings[last]]
  }

  /** A string that stays is found as many places earlier as strings before it went. */
  lemma {:induction false} ShiftFinds(strings: seq<string>, removed: set<int>, i: nat)
    requires i < |strings| && i !in removed
    ensures i - Before(removed, i) < |Reject(strings, removed)|
    ensures Reject(strings, removed)[i - Before(removed, i)] == strings[i]
    decreases |strings|
  {
    var last := |strings| - 1;
    if i < last {
      ShiftFinds(strings[..last], removed, i);
    }
  }

  /** Where a reference points once the strings in `removed` are gone. */
  function Shifted(removed: set<int>, idx: int): int {
    if idx < 0 then idx else idx - Before(removed, idx)
  }

  /** The loop that counts the removed indices below a reference, and stops at the first that is not. */
  method Shift(rs: seq<int>, idx: int, ghost removed: set<int>) returns (r: int)
    requires Lists(rs, removed) && forall x :: x in removed ==> x >= 0
    ensures r == Shifted(removed, idx)
  {
    var shift := 0;
    var i := 0;
    while i < |rs|
      invariant i <= |rs| && shift == i && forall k :: 0 <= k < i ==> rs[k] < idx
    {
      if idx > rs[i] {
        shift := shift + 1;
        i := i + 1;
        continue;
      }
      break;
    }
    assert i > 0 ==> rs[0] in removed;
    if idx >= 0 {
      BeforeIsCount(rs, removed, idx, i);
    }
    r := idx - shift;
  }

  lemma {:induction false} BeforeIsCount(rs: seq<int>, removed: set<int>, n: nat, i: nat)
    requires Lists(rs, removed) && (forall x :: x in removed ==> x >= 0) && i <= |rs|
    requires forall k :: 0 <= k < i ==> rs[k] < n
    requires forall k :: i <= k < |rs| ==> rs[k] >= n
    ensures Before(removed, n) == i
  {
    assert forall k :: 0 <= k < |rs| ==> rs[k] in removed;
    assert i > 0 ==> rs[0] in removed;
    if n > 0 {
      var less := if i > 0 && rs[i - 1] == n - 1 then i - 1 else i;
      assert n - 1 in removed ==> exists k :: 0 <= k < i && rs[k] == n - 1;
      assert forall k :: 0 <= k < i - 1 ==> rs[k] < rs[i - 1];
      assert n - 1 in removed ==> less == i - 1;
      BeforeIsCount(rs, removed, n - 1, less);
    }
  }

  // ----- the references to strings -----

  /** Everything `visitAllNameReferences` goes through. */
  datatype Names = Names(
    dropFrames: int,
    keepFrames: int,
    periodType: ValueType,
    sampleTypes: seq<ValueType>,
    mappings: seq<Mapping>,
    labels: seq<seq<Label>>,
    functions: seq<ProfileFunction>,
    comments: seq<int>)

  function ShiftType(removed: set<int>, t: ValueType): ValueType {
    ValueType(Shifted(removed, t.kind), Shifted(removed, t.unit))
  }

  function ShiftMapping(removed: set<int>, m: Mapping): Mapping {
    Mapping(m.id, Shifted(removed, m.filename), Shifted(removed, m.buildId))
  }

  function ShiftLabel(removed: set<int>, l: Label): Label {
    Label(Shifted(removed, l.key), l.str, Shifted(removed, l.num), Shifted(removed, l.numUnit))
  }

  function ShiftFunction(removed: set<int>, f: ProfileFunction): ProfileFunction {
    ProfileFunction(f.id, Shifted(removed, f.name), Shifted(removed, f.systemName), Shifted(removed, f.filename))
  }

  function Map<A, B>(f: A -> B, xs: seq<A>): (r: seq<B>)
    ensures |r| == |xs| && forall i :: 0 <= i < |xs| ==> r[i] == f(xs[i])
  {
    seq(|xs|, i requires 0 <= i < |xs| => f(xs[i]))
  }

  function ShiftLabels(removed: set<int>, ls: seq<Label>): seq<Label> {
    Map(l => ShiftLabel(removed, l), ls)
  }

  function ShiftNames(removed: set<int>, n: Names): Names {
    Names(
      Shifted(removed, n.dropFrames), Shifted(removed, n.keepFrames), ShiftType(removed, n.periodType),
      Map(t => ShiftType(removed, t), n.sampleTypes), Map(m => ShiftMapping(removed, m), n.mappings),
      Map(ls => ShiftLabels(removed, ls), n.labels), Map(f => ShiftFunction(removed, f), n.functions),
      Map(c => Shifted(removed, c), n.comments))
  }

  /** A reference into the string table that is not to be removed. */
  ghost predicate Stays(size: nat, removed: set<int>, r: int) {
    0 <= r < size && r !in removed
  }

  /** All references to strings are in the table, and none is to a string of `removed`; neither is the
      number of a label, which is visited like a reference. */
  ghost predicate AllStay(size: nat, removed: set<int>, n: Names) {
    && (forall r :: r in removed ==> 0 <= r < size)
    && Stays(size, removed, n.dropFrames) && Stays(size, removed, n.keepFrames)
    && Stays(size, removed, n.periodType.kind) && Stays(size, removed, n.periodType.unit)
    && (forall i :: 0 <= i < |n.sampleTypes| ==> Stays(size, removed, n.sampleTypes[i].kind) && Stays(size, removed, n.sampleTypes[i].unit))
    && (forall i :: 0 <= i < |n.mappings| ==> Stays(size, removed, n.mappings[i].filename) && Stays(size, removed, n.mappings[i].buildId))
    && (forall i, j :: 0 <= i < |n.labels| && 0 <= j < |n.labels[i]| ==>
            Stays(size, removed, n.labels[i][j].key) && Stays(size, removed, n.labels[i][j].numUnit)
             && n.labels[i][j].num !in removed)
    && (forall i :: 0 <= i < |n.functions| ==> FunctionStays(size, removed, n.functions[i]))
    && (forall i :: 0 <= i < |n.comments| ==> Stays(size, removed, n.comments[i]))
  }

  ghost predicate FunctionStays(size: nat, removed: set<int>, f: ProfileFunction) {
    Stays(size, removed, f.name) && Stays(size, removed, f.systemName) && Stays(size, removed, f.filename)
  }

  /** Two references that read the same. */
  ghost predicate Same(a: seq<string>, r: int, b: seq<string>, q: int) {
    0 <= r < |a| && 0 <= q < |b| && a[r] == b[q]
  }

  ghost predicate SameFunction(a: seq<string>, f: ProfileFunction, b: seq<string>, g: ProfileFunction) {
    f.id == g.id && Same(a, f.name, b, g.name) && Same(a, f.systemName, b, g.systemName) && Same(a, f.filename, b, g.filename)
  }

  /** A number that happens to be in the table reads the same, too; one beyond it stays as far beyond. */
  ghost predicate SameNumber(a: seq<string>, r: int, b: seq<string>, q: int) {
    if r < 0 then q == r
    else if r < |a| then Same(a, r, b, q)
    else q - |b| == r - |a|
  }

  ghost predicate SameLabel(a: seq<string>, l: Label, b: seq<string>, m: Label) {
    l.str == m.str && Same(a, l.key, b, m.key) && SameNumber(a, l.num, b, m.num) && Same(a, l.numUnit, b, m.numUnit)
  }

  ghost predicate SameLabels(a: seq<string>, ls: seq<Label>, b: seq<string>, ms: seq<Label>) {
    |ls| == |ms| && forall i :: 0 <= i < |ls| ==> SameLabel(a, ls[i], b, ms[i])
  }

  /** Every reference visited reads the same. */
  ghost predicate SameTexts(a: seq<string>, n: Names, b: seq<string>, m: Names) {
    && Same(a, n.dropFrames, b, m.dropFrames) && Same(a, n.keepFrames, b, m.keepFrames)
    && Same(a, n.periodType.kind, b, m.periodType.kind) && Same(a, n.periodType.unit, b, m.periodType.unit)
    && |n.sampleTypes| == |m.sampleTypes| && |n.mappings| == |m.mappings| && |n.labels| == |m.labels|
    && |n.functions| == |m.functions| && |n.comments| == |m.comments|
    && (forall i :: 0 <= i < |n.sampleTypes| ==>
            Same(a, n.sampleTypes[i].kind, b, m.sampleTypes[i].kind) && Same(a, n.sampleTypes[i].unit, b, m.sampleTypes[i].unit))
    && (forall i :: 0 <= i < |n.mappings| ==>
            n.mappings[i].id == m.mappings[i].id && Same(a, n.mappings[i].filename, b, m.mappings[i].filename)
             && Same(a, n.mappings[i].buildId, b, m.mappings[i].buildId))
    && (forall i :: 0 <= i < |n.labels| ==> SameLabels(a, n.labels[i], b, m.labels[i]))
    && (forall i :: 0 <= i < |n.functions| ==> SameFunction(a, n.functions[i], b, m.functions[i]))
    && (forall i :: 0 <= i < |n.comments| ==> Same(a, n.comments[i], b, m.comments[i]))
  }

  lemma StaysSame(strings: seq<string>, removed: set<int>, r: int)
    requires Stays(|strings|, removed, r)
    ensures Same(strings, r, Reject(strings, removed), Shifted(removed, r))
  {
    ShiftFinds(strings, removed, r);
  }

  lemma {:induction false} NoneBeyond(removed: set<int>, size: nat, n: nat)
    requires size <= n && forall r :: r in removed ==> r < size
    ensures Before(removed, n) == Before(removed, size)
    decreases n - size
  {
    if size < n {
      NoneBeyond(removed, size, n - 1);
    }
  }

  lemma NumberStays(strings: seq<string>, removed: set<int>, r: int)
    requires r !in removed && forall x :: x in removed ==> x < |strings|
    ensures SameNumber(strings, r, Reject(strings, removed), Shifted(removed, r))
  {
    if r >= |strings| {
      NoneBeyond(removed, |strings|, r);
    } else if r >= 0 {
      ShiftFinds(strings, removed, r);
    }
  }

  /** Compacting the table and shifting the references changes no text. */
  lemma ShiftKeepsTexts(strings: seq<string>, removed: set<int>, n: Names)
    requires AllStay(|strings|, removed, n)
    ensures SameTexts(strings, n, Reject(strings, removed), ShiftNames(removed, n))
  {
    hide Stays, Same, SameNumber, Reject, Shifted;
    forall r | Stays(|strings|, removed, r) ensures Same(strings, r, Reject(strings, removed), Shifted(removed, r)) {
      StaysSame(strings, removed, r);
    }
    forall r | r !in removed ensures SameNumber(strings, r, Reject(strings, removed), Shifted(removed, r)) {
      NumberStays(strings, removed, r);
    }
  }

  ghost predicate LabelsMention(ls: seq<Label>, r: int) {
    exists i :: 0 <= i < |ls| && (r == ls[i].key || r == ls[i].num || r == ls[i].numUnit)
  }

  /** The references that `removed` is cleared of. */
  ghost predicate Mentions(n: Names, r: int) {
    || r == n.dropFrames || r == n.keepFrames || r == n.periodType.kind || r == n.periodType.unit
    || (exists i :: 0 <= i < |n.sampleTypes| && (r == n.sampleTypes[i].kind || r == n.sampleTypes[i].unit))
    || (exists i :: 0 <= i < |n.mappings| && (r == n.mappings[i].filename || r == n.mappings[i].buildId))
    || (exists i :: 0 <= i < |n.labels| && LabelsMention(n.labels[i], r))
    || Named(n.functions, r)
    || r in n.comments
  }

  lemma UnmentionedStay(size: nat, n: Names, removed: set<int>)
    requires AllStay(size, {}, n) && forall r :: r in removed ==> 0 <= r < size && !Mentions(n, r)
    ensures AllStay(size, removed, n)
  {
  }

  // ----- ids still in use -----

  ghost predicate Uses(samples: seq<Sample>, id: nat) {
    exists i, j :: 0 <= i < |samples| && 0 <= j < |samples[i].locationIds| && samples[i].locationIds[j] == id
  }

  ghost predicate Calls(locations: seq<ProfileLocation>, id: nat) {
    exists i, j :: 0 <= i < |locations| && 0 <= j < |locations[i].lines| && locations[i].lines[j].functionId == id
  }

  /** The locations that removed samples use and no sample left does. */
  method UnusedLocations(removed: seq<Sample>, samples: seq<Sample>) returns (ids: set<nat>)
    ensures forall id :: id in ids <==> Uses(removed, id) && !Uses(samples, id)
  {
    ids := {};
    for i := 0 to |removed|
      invariant forall id :: id in ids <==> Uses(removed[..i], id)
    {
      UsesMore(removed, i);
      ids := ids + set l | l in removed[i].locationIds;
    }
    assert removed[..|removed|] == removed;
    ghost var all := ids;
    for i := 0 to |samples|
      invariant forall id :: id in ids <==> id in all && !Uses(samples[..i], id)
    {
      UsesMore(samples, i);
      ids := ids - set l | l in samples[i].locationIds;
    }
    assert samples[..|samples|] == samples;
  }

  lemma UsesMore(samples: seq<Sample>, i: nat)
    requires i < |samples|
    ensures forall id :: Uses(samples[..i + 1], id) <==> Uses(samples[..i], id) || id in samples[i].locationIds
  {
    forall id ensures Uses(samples[..i + 1], id) <==> Uses(samples[..i], id) || id in samples[i].locationIds {
      if Uses(samples[..i], id) {
        var k, j :| 0 <= k < |samples[..i]| && 0 <= j < |samples[..i][k].locationIds| && samples[..i][k].locationIds[j] == id;
        assert samples[..i + 1][k].locationIds[j] == id;
      }
      if id in samples[i].locationIds {
        var j :| 0 <= j < |samples[i].locationIds| && samples[i].locationIds[j] == id;
        assert samples[..i + 1][i].locationIds[j] == id;
      }
    }
  }

  /** The locations whose ids are not in `gone`. */
  function KeepLocations(locations: seq<ProfileLocation>, gone: set<nat>): (r: seq<ProfileLocation>)
    ensures forall l :: l in r <==> l in locations && l.id !in gone
  {
    if locations == [] then []
    else
      var last := locations[|locations| - 1];
      assert locations == locations[..|locations| - 1] + [last];
      KeepLocations(locations[..|locations| - 1], gone) + if last.id in gone then [] else [last]
  }

  lemma KeepLocationsMore(locations: seq<ProfileLocation>, l: ProfileLocation, gone: set<nat>)
    ensures KeepLocations(locations + [l], gone) == KeepLocations(locations, gone) + if l.id in gone then [] else [l]
    ensures CalleesOf(locations + [l], gone) == CalleesOf(locations, gone) + if l.id in gone then Callees(l) else {}
  {
    assert (locations + [l])[..|locations|] == locations;
  }

  lemma KeepFunctionsMore(functions: seq<ProfileFunction>, f: ProfileFunction, gone: set<nat>)
    ensures KeepFunctions(functions + [f], gone) == KeepFunctions(functions, gone) + if f.id in gone then [] else [f]
    ensures NamesIn(functions + [f], gone) == NamesIn(functions, gone) + if f.id in gone then {f.name, f.systemName, f.filename} else {}
  {
    assert (functions + [f])[..|functions|] == functions;
  }

  /** A string that some function refers to. */
  ghost predicate Named(functions: seq<ProfileFunction>, r: int) {
    exists i :: 0 <= i < |functions| && (r == functions[i].name || r == functions[i].systemName || r == functions[i].filename)
  }

  function KeepFunctions(functions: seq<ProfileFunction>, gone: set<nat>): (r: seq<ProfileFunction>)
    ensures forall f :: f in r <==> f in functions && f.id !in gone
  {
    if functions == [] then []
    else
      var last := functions[|functions| - 1];
      assert functions == functions[..|functions| - 1] + [last];
      KeepFunctions(functions[..|functions| - 1], gone) + if last.id in gone then [] else [last]
  }

  /** Those kept stay in order. */
  lemma KeepsInOrder(locations: seq<ProfileLocation>, functions: seq<ProfileFunction>, gone: set<nat>)
    ensures Filtered(locations, (l: ProfileLocation) => l.id !in gone, KeepLocations(locations, gone))
    ensures Filtered(functions, (f: ProfileFunction) => f.id !in gone, KeepFunctions(functions, gone))
  {
    KeptLocations(locations, gone, (l: ProfileLocation) => l.id !in gone);
    KeptFunctions(functions, gone, (f: ProfileFunction) => f.id !in gone);
  }

  lemma {:induction false} KeptLocations(locations: seq<ProfileLocation>, gone: set<nat>, keep: ProfileLocation -> bool)
    requires forall l :: keep(l) <==> l.id !in gone
    ensures Filtered(locations, keep, KeepLocations(locations, gone))
  {
    if locations == [] {
      FilteredNone(keep);
    } else {
      hide Filtered;
      var front, last := locations[..|locations| - 1], locations[|locations| - 1];
      assert locations == front + [last];
      KeptLocations(front, gone, keep);
      FilteredMore(front, last, keep, KeepLocations(front, gone));
    }
  }

  lemma {:induction false} KeptFunctions(functions: seq<ProfileFunction>, gone: set<nat>, keep: ProfileFunction -> bool)
    requires forall f :: keep(f) <==> f.id !in gone
    ensures Filtered(functions, keep, KeepFunctions(functions, gone))
  {
    if functions == [] {
      FilteredNone(keep);
    } else {
      hide Filtered;
      var front, last := functions[..|functions| - 1], functions[|functions| - 1];
      assert functions == front + [last];
      KeptFunctions(front, gone, keep);
      FilteredMore(front, last, keep, KeepFunctions(front, gone));
    }
  }

  /** `RemoveInPlace` on the locations; the functions of those removed are collected. */
  method RemoveLocations(locations: array<ProfileLocation>, gone: set<nat>) returns (n: nat, functionIds: set<nat>)
    modifies locations
    ensures n <= locations.Length && locations[..n] == KeepLocations(old(locations[..]), gone)
    ensures functionIds == CalleesOf(old(locations[..]), gone)
  {
    hide KeepLocations, Callees, CalleesOf;
    ghost var all := locations[..];
    n, functionIds := 0, {};
    NothingCalled(gone);
    for j := 0 to locations.Length
      invariant n <= j && locations[..n] == KeepLocations(all[..j], gone)
      invariant forall k :: j <= k < locations.Length ==> locations[k] == all[k]
      invariant functionIds == CalleesOf(all[..j], gone)
    {
      var loc := locations[j];
      assert all[..j + 1] == all[..j] + [loc];
      KeepLocationsMore(all[..j], loc, gone);
      if loc.id in gone {
        functionIds := functionIds + Callees(loc);
      } else {
        ghost var before := locations[..n];
        locations[n] := loc;
        n := n + 1;
        assert locations[..n] == before + [loc];
      }
    }
    assert all[..locations.Length] == all;
  }

  /** The functions called by the locations whose ids are in `gone`. */
  function CalleesOf(locations: seq<ProfileLocation>, gone: set<nat>): (r: set<nat>)
    ensures forall id :: id in r <==> exists l :: l in locations && l.id in gone && id in Callees(l)
  {
    if locations == [] then {}
    else
      var last := locations[|locations| - 1];
      assert locations == locations[..|locations| - 1] + [last];
      CalleesOf(locations[..|locations| - 1], gone) + if last.id in gone then Callees(last) else {}
  }

  /** The strings named by the functions whose ids are in `gone`. */
  function NamesIn(functions: seq<ProfileFunction>, gone: set<nat>): (r: set<int>)
    ensures forall x :: x in r <==> exists f :: f in functions && f.id in gone && x in {f.name, f.systemName, f.filename}
  {
    if functions == [] then {}
    else
      var last := functions[|functions| - 1];
      assert functions == functions[..|functions| - 1] + [last];
      NamesIn(functions[..|functions| - 1], gone) + if last.id in gone then {last.name, last.systemName, last.filename} else {}
  }

  /** The strings named are those that some function refers to. */
  lemma AllNamed(functions: seq<ProfileFunction>, gone: set<nat>)
    requires forall f :: f in functions ==> f.id in gone
    ensures forall r :: r in NamesIn(functions, gone) <==> Named(functions, r)
  {
    forall r | Named(functions, r) ensures r in NamesIn(functions, gone) {
      var i :| 0 <= i < |functions| && (r == functions[i].name || r == functions[i].systemName || r == functions[i].filename);
      assert functions[i] in functions;
    }
  }

  lemma NothingCalled(gone: set<nat>)
    ensures (forall id :: !Calls([], id)) && KeepLocations([], gone) == [] && KeepFunctions([], gone) == []
    ensures CalleesOf([], gone) == {} && NamesIn([], gone) == {}
  {
  }

  function Callees(loc: ProfileLocation): set<nat> {
    set l | l in loc.lines :: l.functionId
  }

  lemma CallsMore(locations: seq<ProfileLocation>, loc: ProfileLocation)
    ensures forall id :: Calls(locations + [loc], id) <==> Calls(locations, id) || id in Callees(loc)
  {
    var more := locations + [loc];
    forall id ensures Calls(more, id) <==> Calls(locations, id) || id in Callees(loc) {
      if Calls(locations, id) {
        var i, j :| 0 <= i < |locations| && 0 <= j < |locations[i].lines| && locations[i].lines[j].functionId == id;
        assert more[i].lines[j].functionId == id;
      }
      if id in Callees(loc) {
        var l :| l in loc.lines && l.functionId == id;
        var j :| 0 <= j < |loc.lines| && loc.lines[j] == l;
        assert more[|locations|].lines[j].functionId == id;
      }
      if Calls(more, id) {
        var i, j :| 0 <= i < |more| && 0 <= j < |more[i].lines| && more[i].lines[j].functionId == id;
        if i < |locations| {
          assert locations[i].lines[j].functionId == id;
        } else {
          assert loc.lines[j] in loc.lines;
        }
      }
    }
  }

  method UncalledFunctions(ids: set<nat>, locations: seq<ProfileLocation>) returns (left: set<nat>)
    ensures forall id :: id in left <==> id in ids && !Calls(locations, id)
  {
    left := ids;
    for i := 0 to |locations|
      invariant forall id :: id in left <==> id in ids && !Calls(locations[..i], id)
    {
      assert locations[..i + 1] == locations[..i] + [locations[i]];
      CallsMore(locations[..i], locations[i]);
      left := left - Callees(locations[i]);
    }
    assert locations[..|locations|] == locations;
  }

  /** `RemoveInPlace` on the functions; their names are collected. */
  method RemoveFunctions(functions: array<ProfileFunction>, gone: set<nat>) returns (n: nat, names: set<int>)
    modifies functions
    ensures n <= functions.Length && functions[..n] == KeepFunctions(old(functions[..]), gone)
    ensures names == NamesIn(old(functions[..]), gone)
  {
    hide NamesIn, KeepFunctions;
    ghost var all := functions[..];
    n, names := 0, {};
    NothingCalled(gone);
    for j := 0 to functions.Length
      invariant n <= j && functions[..n] == KeepFunctions(all[..j], gone)
      invariant forall k :: j <= k < functions.Length ==> functions[k] == all[k]
      invariant names == NamesIn(all[..j], gone)
    {
      var f := functions[j];
      assert all[..j + 1] == all[..j] + [f];
      KeepFunctionsMore(all[..j], f, gone);
      if f.id in gone {
        names := names + {f.name, f.systemName, f.filename};
      } else {
        ghost var before := functions[..n];
        functions[n] := f;
        n := n + 1;
        assert functions[..n] == before + [f];
      }
    }
    assert all[..functions.Length] == all;
  }

  // ----- names still in use -----

  method ClearTypes(left: set<int>, ts: seq<ValueType>) returns (r: set<int>)
    ensures forall x :: x in r <==> x in left && !exists i :: 0 <= i < |ts| && (x == ts[i].kind || x == ts[i].unit)
  {
    r := left;
    for k := 0 to |ts|
      invariant forall x :: x in r <==> x in left && !exists i :: 0 <= i < k && (x == ts[i].kind || x == ts[i].unit)
    {
      r := r - {ts[k].kind, ts[k].unit};
    }
  }

  method ClearMappings(left: set<int>, ms: seq<Mapping>) returns (r: set<int>)
    ensures forall x :: x in r <==> x in left && !exists i :: 0 <= i < |ms| && (x == ms[i].filename || x == ms[i].buildId)
  {
    r := left;
    for k := 0 to |ms|
      invariant forall x :: x in r <==> x in left && !exists i :: 0 <= i < k && (x == ms[i].filename || x == ms[i].buildId)
    {
      r := r - {ms[k].filename, ms[k].buildId};
    }
  }

  method ClearLabelList(left: set<int>, ls: seq<Label>) returns (r: set<int>)
    ensures forall x :: x in r <==> x in left && !LabelsMention(ls, x)
  {
    r := left;
    for k := 0 to |ls|
      invariant forall x :: x in r <==> x in left && !exists i :: 0 <= i < k && (x == ls[i].key || x == ls[i].num || x == ls[i].numUnit)
    {
      r := r - {ls[k].key, ls[k].num, ls[k].numUnit};
    }
  }

  method ClearLabels(left: set<int>, labels: seq<seq<Label>>) returns (r: set<int>)
    ensures forall x :: x in r <==> x in left && !exists i :: 0 <= i < |labels| && LabelsMention(labels[i], x)
  {
    r := left;
    for k := 0 to |labels|
      invariant forall x :: x in r <==> x in left && !exists i :: 0 <= i < k && LabelsMention(labels[i], x)
    {
      r := ClearLabelList(r, labels[k]);
    }
  }

  method ClearFunctions(left: set<int>, fs: seq<ProfileFunction>) returns (r: set<int>)
    ensures forall x :: x in r <==> x in left && !Named(fs, x)
  {
    r := left;
    for k := 0 to |fs|
      invariant forall x :: x in r <==>
          x in left && !exists i :: 0 <= i < k && (x == fs[i].name || x == fs[i].systemName || x == fs[i].filename)
    {
      r := r - {fs[k].name, fs[k].systemName, fs[k].filename};
    }
  }

  method ClearComments(left: set<int>, cs: seq<int>) returns (r: set<int>)
    ensures forall x :: x in r <==> x in left && x !in cs
  {
    r := left;
    for k := 0 to |cs|
      invariant forall x :: x in r <==> x in left && x !in cs[..k]
    {
      assert cs[..k + 1] == cs[..k] + [cs[k]];
      r := r - {cs[k]};
    }
  }

  method RejectStrings(strings: seq<string>, removed: set<int>) returns (r: seq<string>)
    ensures r == Reject(strings, removed)
  {
    r := [];
    for i := 0 to |strings|
      invariant r == Reject(strings[..i], removed)
    {
      assert strings[..i + 1][..i] == strings[..i];
      if i !in removed {
        r := r + [strings[i]];
      }
    }
    assert strings[..|strings|] == strings;
  }

  // ----- the visit that shifts -----

  method ShiftTypes(rs: seq<int>, ts: seq<ValueType>, ghost removed: set<int>) returns (r: seq<ValueType>)
    requires Lists(rs, removed) && forall x :: x in removed ==> x >= 0
    ensures r == Map(t => ShiftType(removed, t), ts)
  {
    hide Shifted, Lists;
    r := [];
    for i := 0 to |ts|
      invariant |r| == i && forall k :: 0 <= k < i ==> r[k] == ShiftType(removed, ts[k])
    {
      var kind := Shift(rs, ts[i].kind, removed);
      var unit := Shift(rs, ts[i].unit, removed);
      r := r + [ValueType(kind, unit)];
    }
  }

  method ShiftMappings(rs: seq<int>, ms: seq<Mapping>, ghost removed: set<int>) returns (r: seq<Mapping>)
    requires Lists(rs, removed) && forall x :: x in removed ==> x >= 0
    ensures r == Map(m => ShiftMapping(removed, m), ms)
  {
    hide Shifted, Lists;
    r := [];
    for i := 0 to |ms|
      invariant |r| == i && forall k :: 0 <= k < i ==> r[k] == ShiftMapping(removed, ms[k])
    {
      var filename := Shift(rs, ms[i].filename, removed);
      var buildId := Shift(rs, ms[i].buildId, removed);
      r := r + [Mapping(ms[i].id, filename, buildId)];
    }
  }

  method ShiftLabelList(rs: seq<int>, ls: seq<Label>, ghost removed: set<int>) returns (r: seq<Label>)
    requires Lists(rs, removed) && forall x :: x in removed ==> x >= 0
    ensures r == ShiftLabels(removed, ls)
  {
    hide Shifted, Lists;
    r := [];
    for i := 0 to |ls|
      invariant |r| == i && forall k :: 0 <= k < i ==> r[k] == ShiftLabel(removed, ls[k])
    {
      var key := Shift(rs, ls[i].key, removed);
      var num := Shift(rs, ls[i].num, removed);
      var numUnit := Shift(rs, ls[i].numUnit, removed);
      r := r + [Label(key, ls[i].str, num, numUnit)];
    }
  }

  method ShiftSamples(rs: seq<int>, samples: seq<Sample>, ghost removed: set<int>) returns (r: seq<Sample>)
    requires Lists(rs, removed) && forall x :: x in removed ==> x >= 0
    ensures |r| == |samples|
    ensures forall k :: 0 <= k < |r| ==> r[k] == samples[k].(labels := ShiftLabels(removed, samples[k].labels))
  {
    hide ShiftLabels, Lists;
    r := [];
    for i := 0 to |samples|
      invariant |r| == i && forall k :: 0 <= k < i ==> r[k] == samples[k].(labels := ShiftLabels(removed, samples[k].labels))
    {
      var labels := ShiftLabelList(rs, samples[i].labels, removed);
      r := r + [samples[i].(labels := labels)];
    }
  }

  method ShiftFunctions(rs: seq<int>, fs: seq<ProfileFunction>, ghost removed: set<int>) returns (r: seq<ProfileFunction>)
    requires Lists(rs, removed) && forall x :: x in removed ==> x >= 0
    ensures r == Map(f => ShiftFunction(removed, f), fs)
  {
    hide Shifted, Lists;
    r := [];
    for i := 0 to |fs|
      invariant |r| == i && forall k :: 0 <= k < i ==> r[k] == ShiftFunction(removed, fs[k])
    {
      var name := Shift(rs, fs[i].name, removed);
      var systemName := Shift(rs, fs[i].systemName, removed);
      var filename := Shift(rs, fs[i].filename, removed);
      r := r + [ProfileFunction(fs[i].id, name, systemName, filename)];
    }
  }

  method ShiftComments(rs: seq<int>, cs: seq<int>, ghost removed: set<int>) returns (r: seq<int>)
    requires Lists(rs, removed) && forall x :: x in removed ==> x >= 0
    ensures r == Map(c => Shifted(removed, c), cs)
  {
    hide Shifted, Lists;
    r := [];
    for i := 0 to |cs|
      invariant |r| == i && forall k :: 0 <= k < i ==> r[k] == Shifted(removed, cs[k])
    {
      var c := Shift(rs, cs[i], removed);
      r := r + [c];
    }
  }

  function LabelsOf(samples: seq<Sample>): (r: seq<seq<Label>>) {
    Map((s: Sample) => s.labels, samples)
  }

  lemma ShiftedLabels(es: seq<Sample>, rs: seq<Sample>, removed: set<int>)
    requires |rs| == |es|
    requires forall k :: 0 <= k < |rs| ==> rs[k] == es[k].(labels := ShiftLabels(removed, es[k].labels))
    ensures LabelsOf(rs) == Map(ls => ShiftLabels(removed, ls), LabelsOf(es))
  {
    hide ShiftLabels;
  }

  // ----- the profile -----

  class Profile {
    var samples: seq<Sample>
    var locations: seq<ProfileLocation>
    var functions: seq<ProfileFunction>
    var mappings: seq<Mapping>
    var sampleTypes: seq<ValueType>
    var periodType: ValueType
    var dropFrames: int
    var keepFrames: int
    var comments: seq<int>
    var strings: seq<string>
    var timeNanos: int

    ghost function NamesOf(): Names
      reads this
    {
      Names(dropFrames, keepFrames, periodType, sampleTypes, mappings, LabelsOf(samples), functions, comments)
    }

    /** Which of the names are not mentioned any more. */
    method ClearMentioned(names: set<int>) returns (left: set<int>)
      ensures forall x :: x in left <==> x in names && !Mentions(NamesOf(), x)
    {
      hide Named, LabelsMention;
      left := names - {dropFrames, keepFrames, periodType.kind, periodType.unit};
      left := ClearTypes(left, sampleTypes);
      left := ClearMappings(left, mappings);
      left := ClearLabels(left, LabelsOf(samples));
      left := ClearFunctions(left, functions);
      left := ClearComments(left, comments);
    }

    method ShiftAll(rs: seq<int>, ghost removed: set<int>)
      requires Lists(rs, removed) && forall x :: x in removed ==> x >= 0
      modifies this
      ensures timeNanos == old(timeNanos)
      ensures NamesOf() == ShiftNames(removed, old(NamesOf()))
      ensures locations == old(locations) && strings == old(strings) && |samples| == |old(samples)|
      ensures forall k :: 0 <= k < |samples| ==>
              samples[k].locationIds == old(samples[k].locationIds) && samples[k].values == old(samples[k].values)
    {
      hide Shifted, Lists, ShiftLabels, ShiftMapping, ShiftFunction, LabelsOf;
      var drop := Shift(rs, dropFrames, removed);
      var keep := Shift(rs, keepFrames, removed);
      var kind := Shift(rs, periodType.kind, removed);
      var unit := Shift(rs, periodType.unit, removed);
      var types := ShiftTypes(rs, sampleTypes, removed);
      var maps := ShiftMappings(rs, mappings, removed);
      var shifted := ShiftSamples(rs, samples, removed);
      var fns := ShiftFunctions(rs, functions, removed);
      var cs := ShiftComments(rs, comments, removed);
      ShiftedLabels(samples, shifted, removed);
      dropFrames, keepFrames, periodType, sampleTypes := drop, keep, ValueType(kind, unit), types;
      mappings, samples, functions, comments := maps, shifted, fns, cs;
    }

    /** `ensureHasMapping`: locations without a mapping get a new one. */
    method EnsureHasMapping()
      modifies this`mappings, this`locations
      ensures |locations| == |old(locations)|
      ensures exists id: nat :: HasMappings(old(mappings), old(locations), mappings, locations, id)
    {
      var mId: nat := 0;
      for i := 0 to |mappings|
        invariant mappings == old(mappings) && locations == old(locations)
        invariant forall k :: 0 <= k < i ==> mappings[k].id <= mId
      {
        if mId < mappings[i].id {
          mId := mappings[i].id;
        }
      }
      var fake := false;
      for i := 0 to |locations|
        invariant |locations| == |old(locations)|
        invariant mappings == if fake then old(mappings) + [Mapping(mId + 1, 0, 0)] else old(mappings)
        invariant fake <==> exists k :: 0 <= k < i && old(locations)[k].mappingId == 0
        invariant forall k :: 0 <= k < i ==> locations[k] == WithMapping(old(locations)[k], mId + 1)
        invariant forall k :: i <= k < |locations| ==> locations[k] == old(locations)[k]
      {
        if locations[i].mappingId == 0 {
          if !fake {
            fake := true;
            mappings := mappings + [Mapping(mId + 1, 0, 0)];
          }
          locations := locations[i := locations[i].(mappingId := mId + 1)];
        }
      }
      assert HasMappings(old(mappings), old(locations), mappings, locations, mId + 1);
    }

    ghost function Contents(): Body
      reads this
    {
      Body(samples, locations, NamesOf(), strings)
    }

    /** `clearSampleReferences`, on its own: what goes is exactly what only `removed` led to. */
    method Clear(removed: seq<Sample>) returns (ghost gone: Gone)
      requires AllStay(|strings|, {}, NamesOf())
      modifies this
      ensures timeNanos == old(timeNanos)
      ensures IsGone(old(Contents()), removed, gone) && Cleared(old(Contents()), Contents(), gone)
    {
      hide Uses, Calls, AllStay, KeepLocations, KeepFunctions, Mentions, Reject, ShiftNames, CalleesOf, NamesIn, LabelsOf;
      hide Before, Shifted, Named, Callees;
      ghost var b := Contents();
      gone := Gone({}, {}, {});
      NothingGone(b);
      if |removed| == 0 {
        NoneRemoved(b, removed);
        return;
      }
      var locationIds := UnusedLocations(removed, samples);
      if locationIds == {} {
        NoneUnused(b, removed);
        return;
      }
      var functionIds;
      gone := gone.(locations := locationIds);
      locations, functionIds := DropLocations(locations, locationIds);
      if functionIds == {} {
        NoneCalled(b, removed, gone);
        return;
      }
      functionIds := UncalledFunctions(functionIds, locations);
      gone := gone.(functions := functionIds);
      var nameIds;
      functions, nameIds := DropFunctions(functions, functionIds);
      NamesInTable(|strings|, b.names, functionIds);
      ShiftNothing(NamesOf());
      if nameIds == {} {
        return;
      }
      nameIds := ClearMentioned(nameIds);
      gone := gone.(names := nameIds);
      if nameIds == {} {
        return;
      }
      strings := RejectStrings(strings, nameIds);
      var rs := AscendingIds(nameIds);
      ShiftAll(rs, nameIds);
    }

    /** `clearSampleReferences`: what goes is exactly what only `removed` led to; nothing kept loses
        what it refers to, every sample left reads the same function names, and every string
        reference visited reads as before. */
    method ClearSampleReferences(removed: seq<Sample>) returns (ghost gone: Gone)
      requires Resolves(samples, locations, functions) && AllStay(|strings|, {}, NamesOf())
      modifies this
      ensures timeNanos == old(timeNanos)
      ensures IsGone(old(Contents()), removed, gone) && Cleared(old(Contents()), Contents(), gone)
      ensures Resolves(samples, locations, functions)
      ensures forall k :: 0 <= k < |samples| ==>
              StackNames(Contents(), samples[k].locationIds) == StackNames(old(Contents()), samples[k].locationIds)
      ensures SameTexts(old(strings), old(NamesOf()).(functions := KeepFunctions(old(functions), gone.functions)), strings, NamesOf())
    {
      ghost var b := Contents();
      hide IsGone, Cleared, Resolves, AllStay, SameTexts, StackNames, KeepFunctions, LabelsOf;
      gone := Clear(removed);
      ClearedSamples(b, Contents(), gone);
      ClearedResolves(b, Contents(), removed, gone);
      ClearedTexts(b, Contents(), removed, gone);
      forall k | 0 <= k < |samples| ensures StackNames(Contents(), samples[k].locationIds) == StackNames(b, samples[k].locationIds) {
        ClearedNames(b, Contents(), removed, gone, k);
      }
    }

    /** `Normalize`: the time is set if there is none; sums are kept for every stack, stacks are unique, no
        sample is empty; what goes is exactly what only the samples removed led to, references
        resolve, every sample left reads the same function names, and all names visited read as before. */
    method Normalize(h: Hash, now: int, ghost width: nat)
      returns (ghost mapped: Body, ghost kept: seq<Sample>, ghost removed: seq<Sample>, ghost gone: Gone)
      requires Uniform(samples, width) && Injective(h)
      requires Resolves(samples, locations, functions) && AllStay(|strings|, {}, NamesOf())
      modifies this
      ensures timeNanos == if old(timeNanos) == 0 then now else old(timeNanos)
      ensures Uniform(samples, width) && SameSums(samples, old(samples), width)
      ensures DistinctStacks(samples) && NoneZero(samples)
      ensures Accounted(old(samples), kept, removed, |old(samples)|)
      ensures FromSamples(old(samples), kept) && FromSamples(old(samples), removed)
      ensures Trimmed(old(strings), old(samples), kept)
      ensures Mapped(old(Contents()), mapped)
      ensures var merged := mapped.(samples := kept, names := mapped.names.(labels := LabelsOf(kept)));
        && IsGone(merged, removed, gone) && Cleared(merged, Contents(), gone)
        && SameTexts(old(strings), merged.names.(functions := KeepFunctions(old(functions), gone.functions)), strings, NamesOf())
      ensures Resolves(samples, locations, functions)
      ensures forall k :: 0 <= k < |samples| ==>
              StackNames(Contents(), samples[k].locationIds) == StackNames(old(Contents()), samples[k].locationIds)
    {
      hide Resolves, AllStay, SameSums, Uses, Injective, DistinctStacks, NoneZero, FromSamples, Trimmed, Accounted, KeepLocations,
        SameTexts, KeepFunctions, Calls, LabelsOf, StackNames, IsGone;
      hide Uniform, Named, Mentions, Reject, ShiftNames, CalleesOf, NamesIn;
      if timeNanos == 0 {
        timeNanos := now;
      }
      ghost var start := Contents();
      EnsureHasMapping();
      mapped := Contents();
      ghost var id :| HasMappings(start.names.mappings, start.locations, mappings, locations, id);
      MappingsKept(samples, start.locations, locations, functions, id);
      MappingAdded(|strings|, start.names, NamesOf());
      var removed';
      samples, removed' := MergeSamples(h, samples, strings, width);
      kept, removed := samples, removed';
      LabelsStay(|strings|, mapped.names, start.samples, samples);
      ghost var merged := Contents();
      assert merged == mapped.(samples := kept, names := mapped.names.(labels := LabelsOf(kept)));
      UsesFrom(start.samples, samples);
      FewerResolve(start.samples, samples, locations, functions);
      gone := ClearSampleReferences(removed');
      ClearedSamples(merged, Contents(), gone);
      SameButLabels(kept, samples, start.samples, width);
      forall k | 0 <= k < |samples| ensures StackNames(Contents(), samples[k].locationIds) == StackNames(start, samples[k].locationIds) {
        MappedNames(start, merged, id, samples[k].locationIds);
      }
    }
  }

  /** A profile as it stands. */
  datatype Body = Body(samples: seq<Sample>, locations: seq<ProfileLocation>, names: Names, strings: seq<string>)

  /** The ids of locations and functions, and the strings, that are dropped. */
  datatype Gone = Gone(locations: set<nat>, functions: set<nat>, names: set<int>)

  /** Exactly what only removed samples led to: the locations no sample left uses, the functions they
      alone call, and the strings these name and nothing left mentions. */
  ghost predicate IsGone(b: Body, removed: seq<Sample>, gone: Gone) {
    && (forall id :: id in gone.locations <==> Uses(removed, id) && !Uses(b.samples, id))
    && (forall id :: id in gone.functions <==>
          id in CalleesOf(b.locations, gone.locations) && !Calls(KeepLocations(b.locations, gone.locations), id))
    && (forall r :: r in gone.names <==>
          r in NamesIn(b.names.functions, gone.functions) && !Mentions(Fewer(b.names, gone), r))
  }

  function Fewer(n: Names, gone: Gone): Names {
    n.(functions := KeepFunctions(n.functions, gone.functions))
  }

  /** What is dropped is gone, references to strings are shifted, and all else is as it was. */
  ghost predicate Cleared(b: Body, b': Body, gone: Gone) {
    && b'.locations == KeepLocations(b.locations, gone.locations)
    && b'.names == ShiftNames(gone.names, Fewer(b.names, gone))
    && b'.strings == Reject(b.strings, gone.names)
    && |b'.samples| == |b.samples|
    && (forall k :: 0 <= k < |b.samples| ==> SameButForLabels(b'.samples[k], b.samples[k]))
  }

  predicate SameButForLabels(s: Sample, t: Sample) {
    s.locationIds == t.locationIds && s.values == t.values
  }

  lemma ClearedSamples(b: Body, b': Body, gone: Gone)
    requires Cleared(b, b', gone)
    ensures |b'.samples| == |b.samples| && forall k :: 0 <= k < |b.samples| ==> SameButForLabels(b'.samples[k], b.samples[k])
  {
  }

  /** Only locations without a mapping have changed. */
  ghost predicate Mapped(b: Body, b': Body) {
    && b'.samples == b.samples && b'.strings == b.strings && b'.names == b.names.(mappings := b'.names.mappings)
    && exists id: nat :: HasMappings(b.names.mappings, b.locations, b'.names.mappings, b'.locations, id)
  }

  lemma MappingAdded(size: nat, n: Names, m: Names)
    requires AllStay(size, {}, n) && m == n.(mappings := m.mappings)
    requires m.mappings == n.mappings || exists id :: m.mappings == n.mappings + [Mapping(id, 0, 0)]
    ensures AllStay(size, {}, m)
  {
  }

  lemma SameButLabels(kept: seq<Sample>, samples: seq<Sample>, before: seq<Sample>, width: nat)
    requires Uniform(kept, width) && Uniform(before, width) && SameSums(kept, before, width) && DistinctStacks(kept) && NoneZero(kept)
    requires |samples| == |kept| && forall k :: 0 <= k < |kept| ==>
            samples[k].locationIds == kept[k].locationIds && samples[k].values == kept[k].values
    ensures Uniform(samples, width) && SameSums(samples, before, width) && DistinctStacks(samples) && NoneZero(samples)
  {
    hide Sum;
    forall stack, v: nat | v < width ensures Sum(samples, stack, v) == Sum(before, stack, v) {
      SumsIgnoreLabels(samples, kept, stack, v);
      assert Sum(kept, stack, v) == Sum(before, stack, v);
    }
  }

  function WithMapping(l: ProfileLocation, id: nat): ProfileLocation {
    if l.mappingId == 0 then l.(mappingId := id) else l
  }

  /** The new mapping has an id of its own, and is there if any location needs it. */
  ghost predicate HasMappings(ms: seq<Mapping>, ls: seq<ProfileLocation>, ms': seq<Mapping>, ls': seq<ProfileLocation>, id: nat) {
    && id > 0 && (forall k :: 0 <= k < |ms| ==> ms[k].id < id)
    && |ls'| == |ls| && (forall k :: 0 <= k < |ls| ==> ls'[k] == WithMapping(ls[k], id))
    && ms' == if exists k :: 0 <= k < |ls| && ls[k].mappingId == 0 then ms + [Mapping(id, 0, 0)] else ms
  }

  /** With its mapping, a location calls the same functions. */
  lemma MappingsKept(samples: seq<Sample>, ls: seq<ProfileLocation>, ls': seq<ProfileLocation>, fs: seq<ProfileFunction>, id: nat)
    requires Resolves(samples, ls, fs) && |ls'| == |ls| && forall k :: 0 <= k < |ls| ==> ls'[k] == WithMapping(ls[k], id)
    ensures Resolves(samples, ls', fs)
    ensures forall l :: HasLocation(ls, l) ==> HasLocation(ls', l)
  {
    hide Uses;
    forall l | HasLocation(ls, l) ensures HasLocation(ls', l) {
      var k :| 0 <= k < |ls| && ls[k].id == l;
      assert ls'[k] in ls';
    }
    forall f | Calls(ls', f) ensures HasFunction(fs, f) {
      assert Calls(ls, f);
    }
  }

  lemma UsesFrom(es: seq<Sample>, rs: seq<Sample>)
    requires FromSamples(es, rs)
    ensures forall id :: Uses(rs, id) ==> Uses(es, id)
  {
    forall id | Uses(rs, id) ensures Uses(es, id) {
      var i, j :| 0 <= i < |rs| && 0 <= j < |rs[i].locationIds| && rs[i].locationIds[j] == id;
      assert FromOne(es, rs[i]);
      var k :| 0 <= k < |es| && From(es[k], rs[i]);
      assert es[k].locationIds[j] == id;
    }
  }

  lemma LabelsStay(size: nat, n: Names, es: seq<Sample>, rs: seq<Sample>)
    requires AllStay(size, {}, n) && n.labels == LabelsOf(es) && FromSamples(es, rs)
    ensures AllStay(size, {}, n.(labels := LabelsOf(rs)))
  {
    var ls: seq<seq<Label>> := LabelsOf(rs);
    forall i, j | 0 <= i < |ls| && 0 <= j < |ls[i]| ensures Stays(size, {}, ls[i][j].key) && Stays(size, {}, ls[i][j].numUnit) {
      assert FromOne(es, rs[i]);
      var k :| 0 <= k < |es| && From(es[k], rs[i]);
      assert ls[i][j] in es[k].labels;
      var m :| 0 <= m < |es[k].labels| && es[k].labels[m] == ls[i][j];
      assert n.labels[k][m] == ls[i][j];
    }
  }

  method DropLocations(locations: seq<ProfileLocation>, gone: set<nat>) returns (r: seq<ProfileLocation>, functionIds: set<nat>)
    ensures r == KeepLocations(locations, gone) && functionIds == CalleesOf(locations, gone)
  {
    hide KeepLocations, CalleesOf;
    var a := new ProfileLocation[|locations|](i requires 0 <= i < |locations| => locations[i]);
    assert a[..] == locations;
    var n;
    n, functionIds := RemoveLocations(a, gone);
    r := a[..n];
  }

  method DropFunctions(functions: seq<ProfileFunction>, gone: set<nat>) returns (r: seq<ProfileFunction>, names: set<int>)
    ensures r == KeepFunctions(functions, gone) && names == NamesIn(functions, gone)
  {
    hide KeepFunctions, NamesIn;
    var a := new ProfileFunction[|functions|](i requires 0 <= i < |functions| => functions[i]);
    assert a[..] == functions;
    var n;
    n, names := RemoveFunctions(a, gone);
    r := a[..n];
  }

  ghost predicate HasLocation(locations: seq<ProfileLocation>, id: nat) {
    exists l :: l in locations && l.id == id
  }

  ghost predicate HasFunction(functions: seq<ProfileFunction>, id: nat) {
    exists f :: f in functions && f.id == id
  }

  /** Samples refer to locations that are there, and those to functions that are there. */
  ghost predicate Resolves(samples: seq<Sample>, locations: seq<ProfileLocation>, functions: seq<ProfileFunction>) {
    && (forall id :: Uses(samples, id) ==> HasLocation(locations, id))
    && (forall id :: Calls(locations, id) ==> HasFunction(functions, id))
  }

  lemma {:induction false} KeepNoLocations(locations: seq<ProfileLocation>)
    ensures KeepLocations(locations, {}) == locations
  {
    hide KeepLocations;
    if locations != [] {
      var front := locations[..|locations| - 1];
      assert locations == front + [locations[|locations| - 1]];
      KeepLocationsMore(front, locations[|locations| - 1], {});
      KeepNoLocations(front);
    } else {
      NothingCalled({});
    }
  }

  lemma {:induction false} KeepNoFunctions(functions: seq<ProfileFunction>)
    ensures KeepFunctions(functions, {}) == functions
  {
    hide KeepFunctions;
    if functions != [] {
      var front := functions[..|functions| - 1];
      assert functions == front + [functions[|functions| - 1]];
      KeepFunctionsMore(front, functions[|functions| - 1], {});
      KeepNoFunctions(front);
    } else {
      NothingCalled({});
    }
  }

  lemma {:induction false} CallsKept(locations: seq<ProfileLocation>, gone: set<nat>, id: nat)
    requires Calls(KeepLocations(locations, gone), id)
    ensures Calls(locations, id)
  {
    hide Calls, KeepLocations;
    if locations != [] {
      var front, l := locations[..|locations| - 1], locations[|locations| - 1];
      assert locations == front + [l];
      KeepLocationsMore(front, l, gone);
      CallsMore(front, l);
      CallsMore(KeepLocations(front, gone), l);
      assert KeepLocations(front, gone) + [] == KeepLocations(front, gone);
      if Calls(KeepLocations(front, gone), id) {
        CallsKept(front, gone, id);
      }
    } else {
      NothingCalled(gone);
    }
  }

  lemma {:induction false} NoneBefore(n: nat)
    ensures Before({}, n) == 0
  {
    if n > 0 {
      NoneBefore(n - 1);
    }
  }

  lemma {:induction false} RejectNothing(strings: seq<string>)
    ensures Reject(strings, {}) == strings
  {
    if strings != [] {
      RejectNothing(strings[..|strings| - 1]);
    }
  }

  /** Where nothing is removed, nothing is shifted. */
  lemma ShiftNothing(n: Names)
    ensures ShiftNames({}, n) == n
  {
    forall r ensures Shifted({}, r) == r {
      if r >= 0 {
        NoneBefore(r);
      }
    }
    hide Shifted;
    var m := ShiftNames({}, n);
    assert m.sampleTypes == n.sampleTypes && m.mappings == n.mappings && m.functions == n.functions && m.comments == n.comments;
    forall i | 0 <= i < |n.labels| ensures m.labels[i] == n.labels[i] {
      assert ShiftLabels({}, n.labels[i]) == n.labels[i];
    }
    assert m.labels == n.labels;
  }

  lemma NothingGone(b: Body)
    ensures Cleared(b, b, Gone({}, {}, {}))
    ensures KeepFunctions(b.names.functions, {}) == b.names.functions && KeepLocations(b.locations, {}) == b.locations
    ensures Reject(b.strings, {}) == b.strings
    ensures CalleesOf(b.locations, {}) == {} && NamesIn(b.names.functions, {}) == {}
  {
    KeepNoLocations(b.locations);
    KeepNoFunctions(b.names.functions);
    RejectNothing(b.strings);
    ShiftNothing(b.names);
  }

  lemma NoneRemoved(b: Body, removed: seq<Sample>)
    requires removed == []
    ensures IsGone(b, removed, Gone({}, {}, {}))
  {
    hide Mentions, KeepLocations, KeepFunctions, Calls;
  }

  lemma NoneUnused(b: Body, removed: seq<Sample>)
    requires forall id :: !(Uses(removed, id) && !Uses(b.samples, id))
    ensures IsGone(b, removed, Gone({}, {}, {}))
  {
    hide Mentions, KeepLocations, KeepFunctions, Calls, Uses;
  }

  lemma NoneCalled(b: Body, removed: seq<Sample>, gone: Gone)
    requires forall id :: id in gone.locations <==> Uses(removed, id) && !Uses(b.samples, id)
    requires CalleesOf(b.locations, gone.locations) == {} && gone.functions == {} && gone.names == {}
    ensures IsGone(b, removed, gone)
  {
    hide Mentions, KeepLocations, KeepFunctions, Calls, Uses;
  }

  // ----- nothing kept loses what it refers to -----

  lemma UsedStay(b: Body, removed: seq<Sample>, gone: Gone)
    requires IsGone(b, removed, gone)
    ensures forall id :: Uses(b.samples, id) ==> id !in gone.locations
    ensures forall id :: Calls(KeepLocations(b.locations, gone.locations), id) ==> id !in gone.functions
  {
    hide Uses, Calls, KeepLocations, KeepFunctions, Mentions, CalleesOf, NamesIn;
  }

  lemma ClearedResolves(b: Body, b': Body, removed: seq<Sample>, gone: Gone)
    requires Resolves(b.samples, b.locations, b.names.functions) && IsGone(b, removed, gone) && Cleared(b, b', gone)
    ensures Resolves(b'.samples, b'.locations, b'.names.functions)
  {
    UsedStay(b, removed, gone);
    hide IsGone, Calls, KeepLocations, KeepFunctions, Shifted;
    forall id | Uses(b'.samples, id) ensures HasLocation(b'.locations, id) {
      assert Uses(b.samples, id);
      var l :| l in b.locations && l.id == id;
      assert l in b'.locations;
    }
    var kept := KeepFunctions(b.names.functions, gone.functions);
    forall id | Calls(b'.locations, id) ensures HasFunction(b'.names.functions, id) {
      CallsKept(b.locations, gone.locations, id);
      var f :| f in b.names.functions && f.id == id;
      assert f in kept;
      var i :| 0 <= i < |kept| && kept[i] == f;
      assert b'.names.functions[i] in b'.names.functions && b'.names.functions[i].id == id;
    }
  }

  /** The functions left, and all else that is visited, stay in the table. */
  lemma LeftStay(b: Body, removed: seq<Sample>, gone: Gone)
    requires AllStay(|b.strings|, {}, b.names) && IsGone(b, removed, gone)
    ensures AllStay(|b.strings|, gone.names, Fewer(b.names, gone))
  {
    var n := Fewer(b.names, gone);
    assert AllStay(|b.strings|, {}, n) by {
      hide KeepFunctions, IsGone;
      forall i | 0 <= i < |n.functions| ensures FunctionStays(|b.strings|, {}, n.functions[i]) {
        assert n.functions[i] in b.names.functions;
      }
    }
    NamesInTable(|b.strings|, b.names, gone.functions);
    hide KeepFunctions, AllStay, Mentions, Uses, Calls, KeepLocations, CalleesOf, NamesIn;
    UnmentionedStay(|b.strings|, n, gone.names);
  }

  lemma ClearedTexts(b: Body, b': Body, removed: seq<Sample>, gone: Gone)
    requires AllStay(|b.strings|, {}, b.names) && IsGone(b, removed, gone) && Cleared(b, b', gone)
    ensures SameTexts(b.strings, Fewer(b.names, gone), b'.strings, b'.names)
  {
    hide AllStay, IsGone, SameTexts, Reject, ShiftNames, Fewer, KeepLocations;
    LeftStay(b, removed, gone);
    ShiftKeepsTexts(b.strings, gone.names, Fewer(b.names, gone));
  }

  // ----- the names a sample reads -----

  /** The location of an id; ids are unique. */
  function FindLocation(ls: seq<ProfileLocation>, id: nat): Option<ProfileLocation> {
    if ls == [] then None else if ls[|ls| - 1].id == id then Some(ls[|ls| - 1]) else FindLocation(ls[..|ls| - 1], id)
  }

  function FindFunction(fs: seq<ProfileFunction>, id: nat): Option<ProfileFunction> {
    if fs == [] then None else if fs[|fs| - 1].id == id then Some(fs[|fs| - 1]) else FindFunction(fs[..|fs| - 1], id)
  }

  /** The function name of a line. */
  function LineName(fs: seq<ProfileFunction>, strings: seq<string>, l: Line): Option<string> {
    match FindFunction(fs, l.functionId)
    case None => None
    case Some(f) => if 0 <= f.name < |strings| then Some(strings[f.name]) else None
  }

  function LineNames(fs: seq<ProfileFunction>, strings: seq<string>, lines: seq<Line>): seq<Option<string>> {
    seq(|lines|, i requires 0 <= i < |lines| => LineName(fs, strings, lines[i]))
  }

  function LocationNames(b: Body, id: nat): Option<seq<Option<string>>> {
    match FindLocation(b.locations, id)
    case None => None
    case Some(l) => Some(LineNames(b.names.functions, b.strings, l.lines))
  }

  /** The function names of a stack, location by location and line by line. */
  function StackNames(b: Body, stack: seq<nat>): seq<Option<seq<Option<string>>>> {
    seq(|stack|, i requires 0 <= i < |stack| => LocationNames(b, stack[i]))
  }

  lemma {:induction false} FindKeptLocation(ls: seq<ProfileLocation>, gone: set<nat>, id: nat)
    requires id !in gone
    ensures FindLocation(KeepLocations(ls, gone), id) == FindLocation(ls, id)
  {
    if ls != [] {
      var front, last := ls[..|ls| - 1], ls[|ls| - 1];
      FindKeptLocation(front, gone, id);
      assert last.id !in gone ==> KeepLocations(ls, gone)[..|KeepLocations(front, gone)|] == KeepLocations(front, gone);
      assert last.id in gone ==> KeepLocations(ls, gone) == KeepLocations(front, gone);
    }
  }

  lemma {:induction false} FindKeptFunction(fs: seq<ProfileFunction>, gone: set<nat>, id: nat)
    requires id !in gone
    ensures FindFunction(KeepFunctions(fs, gone), id) == FindFunction(fs, id)
  {
    if fs != [] {
      var front, last := fs[..|fs| - 1], fs[|fs| - 1];
      FindKeptFunction(front, gone, id);
      assert last.id !in gone ==> KeepFunctions(fs, gone)[..|KeepFunctions(front, gone)|] == KeepFunctions(front, gone);
      assert last.id in gone ==> KeepFunctions(fs, gone) == KeepFunctions(front, gone);
    }
  }

  lemma {:induction false} FoundIsIn(fs: seq<ProfileFunction>, id: nat)
    ensures FindFunction(fs, id).Some? ==> FindFunction(fs, id).value in fs
  {
    if fs != [] {
      FoundIsIn(fs[..|fs| - 1], id);
    }
  }

  lemma {:induction false} FindShifted(fs: seq<ProfileFunction>, removed: set<int>, id: nat)
    ensures var found, shifted := FindFunction(fs, id), FindFunction(Map(f => ShiftFunction(removed, f), fs), id);
      shifted == if found.None? then None else Some(ShiftFunction(removed, found.value))
  {
    hide Shifted;
    var shifted := Map(f => ShiftFunction(removed, f), fs);
    if fs != [] {
      var front := fs[..|fs| - 1];
      FindShifted(front, removed, id);
      assert shifted[..|fs| - 1] == Map(f => ShiftFunction(removed, f), front);
    }
  }

  /** A line reads the same name after its function has been shifted with the table. */
  lemma LineReadsSame(fs: seq<ProfileFunction>, strings: seq<string>, removed: set<int>, l: Line)
    requires forall i :: 0 <= i < |fs| ==> FunctionStays(|strings|, removed, fs[i])
    ensures LineName(Map(f => ShiftFunction(removed, f), fs), Reject(strings, removed), l) == LineName(fs, strings, l)
  {
    hide Reject, Shifted;
    FindShifted(fs, removed, l.functionId);
    FoundIsIn(fs, l.functionId);
    var found := FindFunction(fs, l.functionId);
    if found.Some? {
      var i :| 0 <= i < |fs| && fs[i] == found.value;
      assert FunctionStays(|strings|, removed, fs[i]);
      StaysSame(strings, removed, found.value.name);
    }
  }

  lemma {:induction false} FoundCalls(ls: seq<ProfileLocation>, id: nat, i: nat)
    requires FindLocation(ls, id).Some? && i < |FindLocation(ls, id).value.lines|
    ensures Calls(ls, FindLocation(ls, id).value.lines[i].functionId)
  {
    var front, last := ls[..|ls| - 1], ls[|ls| - 1];
    assert ls == front + [last];
    CallsMore(front, last);
    if last.id == id {
      assert last.lines[i] in last.lines;
    } else {
      FoundCalls(front, id, i);
    }
  }

  lemma ClearedLocation(b: Body, b': Body, removed: seq<Sample>, gone: Gone, id: nat)
    requires AllStay(|b.strings|, {}, b.names) && IsGone(b, removed, gone) && Cleared(b, b', gone) && id !in gone.locations
    ensures LocationNames(b', id) == LocationNames(b, id)
  {
    LeftStay(b, removed, gone);
    UsedStay(b, removed, gone);
    FindKeptLocation(b.locations, gone.locations, id);
    var fs := KeepFunctions(b.names.functions, gone.functions);
    var found := FindLocation(b'.locations, id);
    if found.Some? {
      hide IsGone, Reject, Shifted, KeepLocations, KeepFunctions, Calls, FindLocation, LineName;
      forall i | 0 <= i < |found.value.lines|
        ensures LineName(b'.names.functions, b'.strings, found.value.lines[i])
             == LineName(b.names.functions, b.strings, found.value.lines[i])
      {
        FoundCalls(b'.locations, id, i);
        LineReadsSame(fs, b.strings, gone.names, found.value.lines[i]);
        KeptLine(b.names.functions, gone.functions, b.strings, found.value.lines[i]);
      }
      assert LineNames(b'.names.functions, b'.strings, found.value.lines) == LineNames(b.names.functions, b.strings, found.value.lines);
    }
  }

  lemma KeptLine(fs: seq<ProfileFunction>, gone: set<nat>, strings: seq<string>, l: Line)
    requires l.functionId !in gone
    ensures LineName(KeepFunctions(fs, gone), strings, l) == LineName(fs, strings, l)
  {
    FindKeptFunction(fs, gone, l.functionId);
  }

  /** A sample left reads the same function names. */
  lemma ClearedNames(b: Body, b': Body, removed: seq<Sample>, gone: Gone, k: nat)
    requires AllStay(|b.strings|, {}, b.names) && IsGone(b, removed, gone) && Cleared(b, b', gone) && k < |b.samples|
    ensures StackNames(b', b.samples[k].locationIds) == StackNames(b, b.samples[k].locationIds)
  {
    UsedStay(b, removed, gone);
    var stack := b.samples[k].locationIds;
    forall i | 0 <= i < |stack| ensures LocationNames(b', stack[i]) == LocationNames(b, stack[i]) {
      assert Uses(b.samples, stack[i]);
      hide IsGone, Cleared, AllStay, LocationNames;
      ClearedLocation(b, b', removed, gone, stack[i]);
    }
  }

  lemma {:induction false} FindMapped(ls: seq<ProfileLocation>, ls': seq<ProfileLocation>, map': nat, id: nat)
    requires |ls'| == |ls| && forall k :: 0 <= k < |ls| ==> ls'[k] == WithMapping(ls[k], map')
    ensures FindLocation(ls, id).None? <==> FindLocation(ls', id).None?
    ensures FindLocation(ls, id).Some? ==> FindLocation(ls', id).value.lines == FindLocation(ls, id).value.lines
  {
    if ls != [] {
      FindMapped(ls[..|ls| - 1], ls'[..|ls| - 1], map', id);
    }
  }

  /** Mappings, samples and labels play no part in the names of a stack. */
  lemma MappedNames(b: Body, b': Body, map': nat, stack: seq<nat>)
    requires |b'.locations| == |b.locations| && forall k :: 0 <= k < |b.locations| ==> b'.locations[k] == WithMapping(b.locations[k], map')
    requires b'.names.functions == b.names.functions && b'.strings == b.strings
    ensures StackNames(b', stack) == StackNames(b, stack)
  {
    hide FindLocation, LineNames;
    forall i | 0 <= i < |stack| ensures LocationNames(b', stack[i]) == LocationNames(b, stack[i]) {
      FindMapped(b.locations, b'.locations, map', stack[i]);
    }
  }

  lemma FewerResolve(es: seq<Sample>, kept: seq<Sample>, ls: seq<ProfileLocation>, fs: seq<ProfileFunction>)
    requires Resolves(es, ls, fs) && forall id :: Uses(kept, id) ==> Uses(es, id)
    ensures Resolves(kept, ls, fs)
  {
  }

  lemma NamesInTable(size: nat, n: Names, gone: set<nat>)
    requires AllStay(size, {}, n)
    ensures forall x :: x in NamesIn(n.functions, gone) ==> 0 <= x < size
  {
    forall x | x in NamesIn(n.functions, gone) ensures 0 <= x < size {
      var f :| f in n.functions && f.id in gone && x in {f.name, f.systemName, f.filename};
      var i :| 0 <= i < |n.functions| && n.functions[i] == f;
      assert FunctionStays(size, {}, n.functions[i]);
    }
  }
}
