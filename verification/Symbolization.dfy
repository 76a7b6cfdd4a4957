/** Two ways to name the frames of merged stacktraces: the head follows the references
    stacktrace by stacktrace, a block collects ids table by table and inverts the maps. */
module Symbolization {
  import opened Sequences
  import opened Interning

  /** The tables of the head, or of a block that was written from them. */
  datatype Tables = Tables(
    strings: seq<string>,
    functions: seq<Function>,
    locations: seq<Location>,
    stacktraces: seq<seq<nat>>)

  datatype Sample = Sample(stacktraceId: nat, value: int)

  /** References resolve. */
  ghost predicate Closed(t: Tables) {
    && (forall i :: 0 <= i < |t.functions| ==> t.functions[i].name < |t.strings|)
    && (forall i, j :: 0 <= i < |t.locations| && 0 <= j < |t.locations[i].lines| ==>
          t.locations[i].lines[j].functionId < |t.functions|)
    && (forall i, j :: 0 <= i < |t.stacktraces| && 0 <= j < |t.stacktraces[i]| ==>
          t.stacktraces[i][j] < |t.locations|)
  }

  /** Every sample refers to one of `n` stacktraces. */
  ghost predicate Known(n: nat, samples: seq<Sample>) {
    forall i :: 0 <= i < |samples| ==> samples[i].stacktraceId < n
  }

  // ----- the meaning of a stacktrace -----

  function LineName(t: Tables, l: Line): string
    requires Closed(t) && l.functionId < |t.functions|
  {
    t.strings[t.functions[l.functionId].name]
  }

  function LineNames(t: Tables, lines: seq<Line>): (r: seq<string>)
    requires Closed(t) && forall i :: 0 <= i < |lines| ==> lines[i].functionId < |t.functions|
  {
    seq(|lines|, i requires 0 <= i < |lines| => LineName(t, lines[i]))
  }

  /** The names of a list of locations, all their lines in order. */
  function Names(t: Tables, locs: seq<nat>): seq<string>
    requires Closed(t) && forall i :: 0 <= i < |locs| ==> locs[i] < |t.locations|
  {
    if locs == [] then []
    else Names(t, locs[..|locs| - 1]) + LineNames(t, t.locations[locs[|locs| - 1]].lines)
  }

  function StackNames(t: Tables, id: nat): seq<string>
    requires Closed(t) && id < |t.stacktraces|
  {
    Names(t, t.stacktraces[id])
  }

  // ----- a merged result -----

  /** Values and function ids by stacktrace, and the names the function ids stand for. */
  datatype Merged = Merged(values: map<nat, int>, functionIds: map<nat, seq<nat>>, names: seq<string>)

  /** What function ids stand for: `None` if one of them leads nowhere. */
  ghost function Given(names: seq<string>, ids: seq<nat>): Option<seq<string>> {
    if InRange(|names|, ids) then Some(NamesAt(names, ids)) else None
  }

  /** The names of all stacktraces, by id. */
  type Naming = seq<Option<seq<string>>>

  /** The stacktraces of a result have the names of a naming. */
  ghost predicate Symbolized(named: Naming, m: Merged) {
    forall id :: id in m.values ==> id < |named| && id in m.functionIds && Given(m.names, m.functionIds[id]) == named[id]
  }

  /** The value of a name stack: the sum over the stacktraces below `n` that have these names. */
  ghost function ValueOf(m: Merged, stack: seq<string>, n: nat): int {
    if n == 0 then 0
    else
      ValueOf(m, stack, n - 1) +
      if n - 1 in m.values && n - 1 in m.functionIds && Given(m.names, m.functionIds[n - 1]) == Some(stack)
      then m.values[n - 1] else 0
  }

  /** The same, sample by sample. */
  function Weight(named: Naming, samples: seq<Sample>, stack: seq<string>): int
    requires Known(|named|, samples)
  {
    if samples == [] then 0
    else
      var s := samples[|samples| - 1];
      Weight(named, samples[..|samples| - 1], stack) + if named[s.stacktraceId] == Some(stack) then s.value else 0
  }

  // ----- aggregation -----

  /** The sum of the values by stacktrace. */
  function AddValue(values: map<nat, int>, s: Sample): map<nat, int> {
    values[s.stacktraceId := (if s.stacktraceId in values then values[s.stacktraceId] else 0) + s.value]
  }

  function Aggregate(samples: seq<Sample>, skipZero: bool): map<nat, int> {
    if samples == [] then map[]
    else
      var before, s := Aggregate(samples[..|samples| - 1], skipZero), samples[|samples| - 1];
      if skipZero && s.value == 0 then before else AddValue(before, s)
  }

  /** The value, in an aggregate, of all stacktraces below `n` named `stack`. */
  function Total(named: Naming, values: map<nat, int>, stack: seq<string>, n: nat): int
    requires n <= |named|
  {
    if n == 0 then 0
    else
      Total(named, values, stack, n - 1) +
      if n - 1 in values && named[n - 1] == Some(stack) then values[n - 1] else 0
  }

  lemma {:induction false} TotalAdd(named: Naming, values: map<nat, int>, s: Sample, stack: seq<string>, n: nat)
    requires n <= |named|
    ensures Total(named, AddValue(values, s), stack, n) == Total(named, values, stack, n) +
      if s.stacktraceId < n && named[s.stacktraceId] == Some(stack) then s.value else 0
  {
    if n > 0 {
      TotalAdd(named, values, s, stack, n - 1);
    }
  }

  lemma {:induction false} TotalNone(named: Naming, stack: seq<string>, n: nat)
    requires n <= |named|
    ensures Total(named, map[], stack, n) == 0
  {
    if n > 0 {
      TotalNone(named, stack, n - 1);
    }
  }

  /** Aggregating keeps the value of every name stack, with or without the samples of value zero. */
  lemma {:induction false} AggregateKeeps(named: Naming, samples: seq<Sample>, skipZero: bool, stack: seq<string>)
    requires Known(|named|, samples)
    ensures Total(named, Aggregate(samples, skipZero), stack, |named|) == Weight(named, samples, stack)
  {
    hide Total;
    if samples == [] {
      TotalNone(named, stack, |named|);
    } else {
      var front, s := samples[..|samples| - 1], samples[|samples| - 1];
      AggregateKeeps(named, front, skipZero, stack);
      TotalAdd(named, Aggregate(front, skipZero), s, stack, |named|);
    }
  }

  lemma {:induction false} SymbolizedTotal(named: Naming, m: Merged, stack: seq<string>, n: nat)
    requires Symbolized(named, m) && n <= |named|
    ensures ValueOf(m, stack, n) == Total(named, m.values, stack, n)
  {
    hide Given;
    if n > 0 {
      SymbolizedTotal(named, m, stack, n - 1);
    }
  }

  /** A merged result whose values are the sums by stacktrace gives every name stack its value. */
  lemma MeansWeight(named: Naming, samples: seq<Sample>, m: Merged, skipZero: bool, stack: seq<string>)
    requires Known(|named|, samples) && Symbolized(named, m) && m.values == Aggregate(samples, skipZero)
    ensures ValueOf(m, stack, |named|) == Weight(named, samples, stack)
  {
    hide Symbolized, Aggregate, Weight;
    SymbolizedTotal(named, m, stack, |named|);
    AggregateKeeps(named, samples, skipZero, stack);
  }

  // ----- the head -----

  /** The stacktraces that ids may refer to.  Even if there is none a block asks for the first. */
  function Stacks(t: Tables): (r: seq<seq<nat>>)
    ensures |r| > 0 && forall id :: 0 <= id < |t.stacktraces| ==> id < |r| && r[id] == t.stacktraces[id]
    ensures |t.stacktraces| <= |r| && forall id :: |t.stacktraces| <= id < |r| ==> r[id] == []
  {
    if t.stacktraces == [] then [[]] else t.stacktraces
  }

  /** The head names every line of every location. */
  function HeadNames(t: Tables): (r: Naming)
    requires Closed(t)
    ensures |r| == |Stacks(t)| && forall id :: 0 <= id < |t.stacktraces| ==> r[id] == Some(StackNames(t, id))
    ensures forall id :: |t.stacktraces| <= id < |r| ==> r[id] == Some([])
  {
    seq(|Stacks(t)|, id requires 0 <= id < |Stacks(t)| => Some(Names(t, Stacks(t)[id])))
  }

  /** The positions given to name ids, and the table of names. */
  ghost predicate NameIndex(t: Tables, functions: map<nat, nat>, names: seq<string>) {
    && (forall n :: n in functions ==> n < |t.strings| && functions[n] < |names| && names[functions[n]] == t.strings[n])
  }

  method ResolveLines(t: Tables, lines: seq<Line>, functions: map<nat, nat>, names: seq<string>, fnIds: seq<nat>)
    returns (functions': map<nat, nat>, names': seq<string>, fnIds': seq<nat>)
    requires Closed(t) && (forall i :: 0 <= i < |lines| ==> lines[i].functionId < |t.functions|)
    requires NameIndex(t, functions, names) && InRange(|names|, fnIds)
    ensures NameIndex(t, functions', names') && names <= names' && InRange(|names'|, fnIds')
    ensures NamesAt(names', fnIds') == NamesAt(names, fnIds) + LineNames(t, lines)
  {
    functions', names', fnIds' := functions, names, fnIds;
    for i := 0 to |lines|
      invariant NameIndex(t, functions', names') && names <= names' && InRange(|names'|, fnIds')
      invariant |fnIds'| == |fnIds| + i
      invariant forall k :: 0 <= k < |fnIds| ==> names'[fnIds'[k]] == names[fnIds[k]]
      invariant forall k :: 0 <= k < i ==> names'[fnIds'[|fnIds| + k]] == LineName(t, lines[k])
    {
      var nameId := t.functions[lines[i].functionId].name;
      if nameId !in functions' {
        functions' := functions'[nameId := |names'|];
        fnIds' := fnIds' + [|names'|];
        names' := names' + [t.strings[nameId]];
      } else {
        fnIds' := fnIds' + [functions'[nameId]];
      }
    }
    assert NamesAt(names', fnIds') == NamesAt(names, fnIds) + LineNames(t, lines);
  }

  method ResolveStack(t: Tables, id: nat, functions: map<nat, nat>, names: seq<string>)
    returns (functions': map<nat, nat>, names': seq<string>, fnIds: seq<nat>)
    requires Closed(t) && id < |t.stacktraces| && NameIndex(t, functions, names)
    ensures NameIndex(t, functions', names') && names <= names' && InRange(|names'|, fnIds)
    ensures NamesAt(names', fnIds) == StackNames(t, id)
  {
    functions', names', fnIds := functions, names, [];
    var locs := t.stacktraces[id];
    for i := 0 to |locs|
      invariant NameIndex(t, functions', names') && names <= names' && InRange(|names'|, fnIds)
      invariant NamesAt(names', fnIds) == Names(t, locs[..i])
    {
      hide NameIndex, Names, LineNames;
      functions', names', fnIds := ResolveLines(t, t.locations[locs[i]].lines, functions', names', fnIds);
      NamesNext(t, locs, i);
    }
    assert locs[..|locs|] == locs;
  }

  lemma NamesNext(t: Tables, locs: seq<nat>, i: nat)
    requires Closed(t) && i < |locs| && forall k :: 0 <= k < |locs| ==> locs[k] < |t.locations|
    ensures Names(t, locs[..i + 1]) == Names(t, locs[..i]) + LineNames(t, t.locations[locs[i]].lines)
  {
    assert locs[..i + 1][..i] == locs[..i];
  }

  lemma SymbolizedLonger(named: Naming, m: Merged, names: seq<string>)
    requires Symbolized(named, m) && m.names <= names && forall id :: id in m.values ==> named[id].Some?
    ensures Symbolized(named, m.(names := names))
  {
    forall id | id in m.values ensures Given(names, m.functionIds[id]) == named[id] {
      assert Given(m.names, m.functionIds[id]).Some?;
      assert NamesAt(names, m.functionIds[id]) == NamesAt(m.names, m.functionIds[id]);
    }
  }

  /** `Head.MergeByStacktraces`. */
  method MergeByStacktracesHead(t: Tables, rows: seq<seq<Sample>>) returns (m: Merged)
    requires Closed(t) && Known(|t.stacktraces|, Flatten(rows))
    ensures Symbolized(HeadNames(t), m) && m.values == Aggregate(Flatten(rows), true)
  {
    hide StackNames, Flatten;
    m := Merged(map[], map[], []);
    var functions: map<nat, nat> := map[];
    assert rows[..0] == [];
    FlattenNone<Sample>();
    for r := 0 to |rows|
      invariant Symbolized(HeadNames(t), m) && NameIndex(t, functions, m.names)
      invariant m.values == Aggregate(Flatten(rows[..r]), true)
    {
      FlattenNext(rows, r);
      ghost var done := Flatten(rows[..r]);
      KnownRow(t, rows, r);
      m, functions := MergeRow(t, rows[r], m, functions, done);
    }
    assert rows[..|rows|] == rows;
  }

  lemma KnownRow(t: Tables, rows: seq<seq<Sample>>, r: nat)
    requires r < |rows| && Known(|t.stacktraces|, Flatten(rows))
    ensures Known(|t.stacktraces|, rows[r])
  {
    hide Flatten;
    FlattenAround(rows, r);
    KnownParts(|t.stacktraces|, Flatten(rows[..r]) + rows[r], Flatten(rows[r + 1..]));
    KnownParts(|t.stacktraces|, Flatten(rows[..r]), rows[r]);
  }

  lemma NothingAdded()
    ensures forall skipZero :: Aggregate([], skipZero) == map[]
  {
  }

  lemma AggregateNext(done: seq<Sample>, row: seq<Sample>, i: nat, skipZero: bool)
    requires i < |row|
    ensures Aggregate(done + row[..i + 1], skipZero)
         == var before := Aggregate(done + row[..i], skipZero);
            if skipZero && row[i].value == 0 then before else AddValue(before, row[i])
  {
    assert (done + row[..i + 1])[..|done| + i] == done + row[..i];
  }

  /** One more sample, whose stacktrace has a value already or gets its names. */
  method MergeSample(t: Tables, s: Sample, m: Merged, functions: map<nat, nat>) returns (m': Merged, functions': map<nat, nat>)
    requires Closed(t) && s.stacktraceId < |t.stacktraces| && Symbolized(HeadNames(t), m) && NameIndex(t, functions, m.names)
    ensures Symbolized(HeadNames(t), m') && NameIndex(t, functions', m'.names)
    ensures m'.values == if s.value == 0 then m.values else AddValue(m.values, s)
  {
    hide StackNames, NameIndex, Closed, Stacks;
    m', functions' := m, functions;
    if s.value == 0 {
      return;
    }
    if s.stacktraceId in m.values {
      m' := m.(values := m.values[s.stacktraceId := m.values[s.stacktraceId] + s.value]);
      return;
    }
    var names, fnIds;
    functions', names, fnIds := ResolveStack(t, s.stacktraceId, functions, m.names);
    SymbolizedLonger(HeadNames(t), m, names);
    m' := Merged(m.values[s.stacktraceId := s.value], m.functionIds[s.stacktraceId := fnIds], names);
  }

  method MergeRow(t: Tables, row: seq<Sample>, m: Merged, functions: map<nat, nat>, ghost done: seq<Sample>)
    returns (m': Merged, functions': map<nat, nat>)
    requires Closed(t) && Known(|t.stacktraces|, row) && Symbolized(HeadNames(t), m) && NameIndex(t, functions, m.names)
    requires m.values == Aggregate(done, true)
    ensures Symbolized(HeadNames(t), m') && NameIndex(t, functions', m'.names)
    ensures m'.values == Aggregate(done + row, true)
  {
    hide StackNames, Aggregate, NameIndex, Symbolized, HeadNames, Closed;
    m', functions' := m, functions;
    assert done + row[..0] == done;
    for i := 0 to |row|
      invariant Symbolized(HeadNames(t), m') && NameIndex(t, functions', m'.names)
      invariant m'.values == Aggregate(done + row[..i], true)
    {
      AggregateNext(done, row, i, true);
      m', functions' := MergeSample(t, row[i], m', functions');
    }
    assert row[..|row|] == row;
  }

  // ----- a block -----

  /** A stacktrace as its column is read: an empty list gives one null, which reads as 0. */
  function Column(locs: seq<nat>): seq<nat> {
    if locs == [] then [0] else locs
  }

  datatype Chunk = Chunk(row: nat, values: seq<nat>)

  /** The values read for a row, over all its chunks. */
  function Gathered(chunks: seq<Chunk>, row: nat): seq<nat> {
    if chunks == [] then []
    else
      var c := chunks[|chunks| - 1];
      Gathered(chunks[..|chunks| - 1], row) + if c.row == row then c.values else []
  }

  lemma GatheredMore(chunks: seq<Chunk>, c: Chunk, id: nat)
    ensures Gathered(chunks + [c], id) == Gathered(chunks, id) + if c.row == id then c.values else []
  {
    assert (chunks + [c])[..|chunks|] == chunks;
  }

  /** The location ids by stacktrace, and all of them together. */
  ghost predicate Collected(chunks: seq<Chunk>, byStack: map<nat, seq<nat>>, locationIds: set<nat>) {
    && (forall id :: Gathered(chunks, id) == if id in byStack then byStack[id] else [])
    && (forall l :: l in locationIds <==> InSome(chunks, l))
  }

  ghost predicate InSome(chunks: seq<Chunk>, l: nat) {
    exists c :: 0 <= c < |chunks| && l in chunks[c].values
  }

  lemma InSomeMore(chunks: seq<Chunk>, c: Chunk, l: nat)
    ensures InSome(chunks + [c], l) <==> InSome(chunks, l) || l in c.values
  {
    var all := chunks + [c];
    assert all[|chunks|] == c;
    if InSome(chunks, l) {
      var k :| 0 <= k < |chunks| && l in chunks[k].values;
      assert all[k] == chunks[k];
    }
  }

  lemma NothingCollected()
    ensures Collected([], map[], {})
  {
  }

  lemma CollectedMore(chunks: seq<Chunk>, c: Chunk, byStack: map<nat, seq<nat>>, locationIds: set<nat>)
    requires Collected(chunks, byStack, locationIds)
    ensures Collected(chunks + [c], byStack[c.row := (if c.row in byStack then byStack[c.row] else []) + c.values],
                      locationIds + set l | l in c.values)
  {
    var all := chunks + [c];
    hide Gathered, InSome;
    forall id ensures Gathered(all, id) == Gathered(chunks, id) + if c.row == id then c.values else [] {
      GatheredMore(chunks, c, id);
    }
    forall l ensures InSome(all, l) <==> InSome(chunks, l) || l in c.values {
      InSomeMore(chunks, c, l);
    }
  }

  method GatherStacktraces(chunks: seq<Chunk>) returns (byStack: map<nat, seq<nat>>, locationIds: set<nat>)
    ensures Collected(chunks, byStack, locationIds)
  {
    hide Collected;
    byStack, locationIds := map[], {};
    NothingCollected();
    for i := 0 to |chunks|
      invariant Collected(chunks[..i], byStack, locationIds)
    {
      var s := chunks[i];
      CollectedMore(chunks[..i], s, byStack, locationIds);
      assert chunks[..i + 1] == chunks[..i] + [s];
      locationIds := locationIds + set l | l in s.values;
      if s.row !in byStack {
        assert [] + s.values == s.values;
        byStack := byStack[s.row := s.values];
      } else {
        byStack := byStack[s.row := byStack[s.row] + s.values];
      }
    }
    assert chunks[..|chunks|] == chunks;
  }

  /** The functions of the lines of a location; a row beyond the table has none. */
  function FunctionsAt(t: Tables, loc: nat): set<nat> {
    if loc < |t.locations| then set j | 0 <= j < |t.locations[loc].lines| :: t.locations[loc].lines[j].functionId else {}
  }

  /** And their names, as string ids. */
  function NameIdsAt(t: Tables, loc: nat): (r: set<nat>)
    requires Closed(t)
    ensures forall k :: k in r ==> k < |t.strings|
  {
    set f | f in FunctionsAt(t, loc) :: t.functions[f].name
  }

  /** Pairs of a location and a function of one of its lines. */
  ghost function Calls(t: Tables, ids: seq<nat>): (r: set<(nat, nat)>)
    ensures forall x, k :: (x, k) in r <==> x in ids && k in FunctionsAt(t, x)
  {
    set x, k | x in ids && k in FunctionsAt(t, x) :: (x, k)
  }

  /** Pairs of a function and its name, as a string id. */
  ghost function NamedBy(t: Tables, ids: seq<nat>): (r: set<(nat, nat)>)
    requires forall i :: 0 <= i < |ids| ==> ids[i] < |t.functions|
    ensures forall x, k :: (x, k) in r <==> x in ids && k == t.functions[x].name
  {
    set x | x in ids :: (x, t.functions[x].name)
  }

  /** `m[k]` lists exactly the first parts of the pairs that lead to `k`. */
  ghost predicate Inverts(m: map<nat, seq<nat>>, pairs: set<(nat, nat)>) {
    && (forall k :: k in m ==> m[k] != [])
    && (forall x, k :: (x, k) in pairs <==> k in m && x in m[k])
  }

  lemma SamePairs(a: set<(nat, nat)>, b: set<(nat, nat)>)
    requires forall x, k :: (x, k) in a <==> (x, k) in b
    ensures a == b
  {
    forall p ensures p in a <==> p in b {
      assert p == (p.0, p.1);
    }
  }

  lemma NothingInverts()
    ensures Inverts(map[], {})
  {
  }

  lemma InvertsMore(m: map<nat, seq<nat>>, pairs: set<(nat, nat)>, x: nat, k: nat)
    requires Inverts(m, pairs)
    ensures Inverts(m[k := (if k in m then m[k] else []) + [x]], pairs + {(x, k)})
  {
    var m' := m[k := (if k in m then m[k] else []) + [x]];
    assert m'[k][|m'[k]| - 1] == x;
    forall y, j ensures (y, j) in pairs + {(x, k)} <==> j in m' && y in m'[j] {
      if (y, j) in pairs {
        assert j in m && y in m[j];
      }
    }
  }

  method GatherLocations(t: Tables, ids: seq<nat>) returns (byFunction: map<nat, seq<nat>>)
    requires forall i, j :: 0 <= i < j < |ids| ==> ids[i] < ids[j]
    ensures Inverts(byFunction, Calls(t, ids))
  {
    hide Inverts;
    byFunction := map[];
    ghost var pairs: set<(nat, nat)> := {};
    NothingInverts();
    var n := 0;
    while n < |ids| && ids[n] < |t.locations|
      invariant n <= |ids| && Inverts(byFunction, pairs)
      invariant forall x, k :: (x, k) in pairs <==> x in ids[..n] && k in FunctionsAt(t, x)
    {
      var loc := ids[n];
      var lines := t.locations[loc].lines;
      ghost var before := pairs;
      for k := 0 to |lines|
        invariant Inverts(byFunction, pairs)
        invariant forall x, f :: (x, f) in pairs <==> (x, f) in before || (x == loc && exists j :: 0 <= j < k && lines[j].functionId == f)
      {
        var f := lines[k].functionId;
        InvertsMore(byFunction, pairs, loc, f);
        byFunction := byFunction[f := (if f in byFunction then byFunction[f] else []) + [loc]];
        pairs := pairs + {(loc, f)};
      }
      n := n + 1;
    }
    SamePairs(pairs, Calls(t, ids));
  }

  method GatherFunctions(t: Tables, ids: seq<nat>) returns (byString: map<nat, seq<nat>>)
    requires forall i, j :: 0 <= i < j < |ids| ==> ids[i] < ids[j]
    requires forall i :: 0 <= i < |ids| ==> ids[i] < |t.functions|
    ensures Inverts(byString, NamedBy(t, ids))
  {
    hide Inverts;
    byString := map[];
    ghost var pairs: set<(nat, nat)> := {};
    NothingInverts();
    var n := 0;
    while n < |ids| && ids[n] < |t.functions|
      invariant n <= |ids| && Inverts(byString, pairs)
      invariant forall x, k :: (x, k) in pairs <==> x in ids[..n] && k == t.functions[x].name
    {
      var f, s := ids[n], t.functions[ids[n]].name;
      InvertsMore(byString, pairs, f, s);
      byString := byString[s := (if s in byString then byString[s] else []) + [f]];
      pairs := pairs + {(f, s)};
      n := n + 1;
    }
    assert ids[..n] == ids;
    SamePairs(pairs, NamedBy(t, ids));
  }

  /** `r[n]` lists the first parts of the pairs that lead into `s[n]`. */
  ghost predicate Expanded(s: seq<seq<nat>>, r: seq<seq<nat>>, pairs: set<(nat, nat)>) {
    |r| == |s| && forall n, x :: 0 <= n < |r| ==> (x in r[n] <==> LeadsTo(pairs, x, s[n]))
  }

  ghost predicate LeadsTo(pairs: set<(nat, nat)>, x: nat, ids: seq<nat>) {
    exists k :: k in ids && (x, k) in pairs
  }

  /** The ids of every name are replaced by the ids they stand for one table further up. */
  method Expand(idSlice: seq<seq<nat>>, byId: map<nat, seq<nat>>, ghost pairs: set<(nat, nat)>) returns (r: seq<seq<nat>>)
    requires Inverts(byId, pairs)
    ensures Expanded(idSlice, r, pairs)
  {
    r := [];
    for n := 0 to |idSlice|
      invariant |r| == n
      invariant forall i, x :: 0 <= i < n ==> (x in r[i] <==> LeadsTo(pairs, x, idSlice[i]))
    {
      var ids := ExpandOne(idSlice[n], byId, pairs);
      r := r + [ids];
    }
  }

  method ExpandOne(from: seq<nat>, byId: map<nat, seq<nat>>, ghost pairs: set<(nat, nat)>) returns (ids: seq<nat>)
    requires Inverts(byId, pairs)
    ensures forall x :: x in ids <==> LeadsTo(pairs, x, from)
  {
    ids := [];
    for i := 0 to |from|
      invariant forall x :: x in ids <==> LeadsTo(pairs, x, from[..i])
    {
      var id := from[i];
      var more := if id in byId then byId[id] else [];
      assert forall x :: x in more <==> (x, id) in pairs;
      assert from[..i + 1] == from[..i] + [id];
      ids := ids + more;
    }
    assert from[..|from|] == from;
  }

  /** The map from location to name: of several names the last one stays. */
  method NameIds(idSlice: seq<seq<nat>>) returns (m: map<nat, nat>)
    ensures forall l :: l in m ==> m[l] < |idSlice| && l in idSlice[m[l]]
    ensures forall n, l :: 0 <= n < |idSlice| && l in idSlice[n] ==> l in m && n <= m[l]
  {
    m := map[];
    for n := 0 to |idSlice|
      invariant forall l :: l in m ==> m[l] < n && l in idSlice[m[l]]
      invariant forall i, l :: 0 <= i < n && l in idSlice[i] ==> l in m && i <= m[l]
    {
      m := NameAll(idSlice[n], n, m);
    }
  }

  method NameAll(ids: seq<nat>, n: nat, m: map<nat, nat>) returns (m': map<nat, nat>)
    ensures forall l :: l in m' <==> l in m || l in ids
    ensures forall l :: l in m' ==> m'[l] == if l in ids then n else m[l]
  {
    m' := m;
    for k := 0 to |ids|
      invariant forall l :: l in m' <==> l in m || l in ids[..k]
      invariant forall l :: l in m' ==> m'[l] == if l in ids[..k] then n else m[l]
    {
      assert ids[..k + 1] == ids[..k] + [ids[k]];
      m' := m'[ids[k] := n];
    }
    assert ids[..|ids|] == ids;
  }

  /** What is read for a stacktrace: nothing if it is not in the table. */
  function ReadColumn(t: Tables, id: nat): seq<nat> {
    if id < |t.stacktraces| then Column(t.stacktraces[id]) else []
  }

  /** The column iterator delivers for `ids` every row whole, whatever its chunks. */
  ghost predicate Delivers(t: Tables, chunks: seq<Chunk>, ids: set<nat>) {
    && (forall c :: 0 <= c < |chunks| ==> chunks[c].row in ids)
    && (forall id :: id in ids ==> id < |Stacks(t)| && Gathered(chunks, id) == ReadColumn(t, id))
  }

  lemma {:induction false} ChunkIsPart(chunks: seq<Chunk>, c: nat, l: nat)
    requires c < |chunks| && l in chunks[c].values
    ensures l in Gathered(chunks, chunks[c].row)
  {
    if c < |chunks| - 1 {
      ChunkIsPart(chunks[..|chunks| - 1], c, l);
    }
  }

  lemma {:induction false} PartOfChunk(chunks: seq<Chunk>, row: nat, l: nat)
    requires l in Gathered(chunks, row)
    ensures exists c :: 0 <= c < |chunks| && l in chunks[c].values
  {
    var last := |chunks| - 1;
    if l !in chunks[last].values {
      PartOfChunk(chunks[..last], row, l);
      var c :| 0 <= c < |chunks[..last]| && l in chunks[..last][c].values;
      assert chunks[c] == chunks[..last][c];
    }
  }

  method GatherStrings(t: Tables, ids: seq<nat>) returns (names: seq<string>, idSlice: seq<seq<nat>>)
    requires forall i :: 0 <= i < |ids| ==> ids[i] < |t.strings|
    ensures |names| == |idSlice| == |ids|
    ensures forall i :: 0 <= i < |ids| ==> names[i] == t.strings[ids[i]] && idSlice[i] == [ids[i]]
  {
    names, idSlice := [], [];
    var n := 0;
    while n < |ids| && ids[n] < |t.strings|
      invariant n <= |ids| && |names| == |idSlice| == n
      invariant forall i :: 0 <= i < n ==> names[i] == t.strings[ids[i]] && idSlice[i] == [ids[i]]
    {
      names := names + [t.strings[ids[n]]];
      idSlice := idSlice + [[ids[n]]];
      n := n + 1;
    }
  }

  /** Two expansions of one-string lists lead to the locations with that name. */
  lemma ExpandedTwice(ids: seq<nat>, s0: seq<seq<nat>>, s1: seq<seq<nat>>, s2: seq<seq<nat>>, named: set<(nat, nat)>,
                      calls: set<(nat, nat)>, n: nat, l: nat)
    requires |s0| == |ids| && n < |ids| && s0[n] == [ids[n]]
    requires Expanded(s0, s1, named) && Expanded(s1, s2, calls)
    ensures l in s2[n] <==> exists f :: (l, f) in calls && (f, ids[n]) in named
  {
    assert l in s2[n] <==> LeadsTo(calls, l, s1[n]);
    forall f: nat ensures f in s1[n] <==> (f, ids[n]) in named {
      assert f in s1[n] <==> LeadsTo(named, f, s0[n]);
      assert ids[n] in s0[n];
    }
  }

  lemma ExpandedLength(s: seq<seq<nat>>, r: seq<seq<nat>>, pairs: set<(nat, nat)>)
    requires Expanded(s, r, pairs)
    ensures |r| == |s|
  {
  }

  lemma ImageOf(m: map<nat, seq<nat>>, pairs: set<(nat, nat)>)
    requires Inverts(m, pairs)
    ensures forall k :: k in m <==> exists x :: (x, k) in pairs
  {
    forall k | k in m ensures exists x :: (x, k) in pairs {
      assert m[k][0] in m[k];
      assert (m[k][0], k) in pairs;
    }
  }

  /** The names of a location are those of its functions. */
  lemma NamesThroughFunctions(t: Tables, locs: seq<nat>, fns: seq<nat>, l: nat, k: nat)
    requires Closed(t) && forall i :: 0 <= i < |fns| ==> fns[i] < |t.functions|
    requires forall f :: f in fns <==> exists x :: (x, f) in Calls(t, locs)
    ensures (exists f :: (l, f) in Calls(t, locs) && (f, k) in NamedBy(t, fns)) <==> l in locs && k in NameIdsAt(t, l)
  {
    if l in locs && k in NameIdsAt(t, l) {
      var f :| f in FunctionsAt(t, l) && t.functions[f].name == k;
      assert (l, f) in Calls(t, locs);
      assert (f, k) in NamedBy(t, fns);
    }
  }

  /** The names of the lines of all locations, as string ids. */
  function UsedNames(t: Tables, locationIds: set<nat>): (r: set<nat>)
    requires Closed(t)
    ensures forall k :: k in r <==> exists l :: l in locationIds && k in NameIdsAt(t, l)
  {
    set l, k | l in locationIds && k in NameIdsAt(t, l) :: k
  }

  /** Every location with a line gets the last of its names. */
  ghost predicate Last(t: Tables, locationIds: set<nat>, ids: seq<nat>, nameIds: map<nat, nat>)
    requires Closed(t)
  {
    && (forall l :: l in nameIds <==> l in locationIds && NameIdsAt(t, l) != {})
    && (forall l :: l in nameIds ==> nameIds[l] < |ids| && ids[nameIds[l]] in NameIdsAt(t, l))
    && (forall l, k :: l in nameIds && k in NameIdsAt(t, l) ==> k <= ids[nameIds[l]])
  }

  /** The two maps, by function and by name, over all locations. */
  method GatherTables(t: Tables, locationIds: set<nat>)
    returns (byFunction: map<nat, seq<nat>>, byString: map<nat, seq<nat>>, ghost locs: seq<nat>, ghost fns: seq<nat>)
    requires Closed(t)
    ensures (forall l :: l in locs <==> l in locationIds) && forall i :: 0 <= i < |fns| ==> fns[i] < |t.functions|
    ensures forall f :: f in fns <==> exists x :: (x, f) in Calls(t, locs)
    ensures Inverts(byFunction, Calls(t, locs)) && Inverts(byString, NamedBy(t, fns))
    ensures byString.Keys == UsedNames(t, locationIds)
  {
    hide *;
    var locations := AscendingIds(locationIds);
    InOrder(locations, locationIds);
    byFunction := GatherLocations(t, locations);
    ImageOf(byFunction, Calls(t, locations));
    var functions := AscendingIds(byFunction.Keys);
    InOrder(functions, byFunction.Keys);
    CalledKnown(t, locations, functions);
    byString := GatherFunctions(t, functions);
    ImageOf(byString, NamedBy(t, functions));
    locs, fns := locations, functions;
    AllStrings(t, locationIds, locs, fns, byString.Keys);
  }

  /** From the ids of the strings down to the locations. */
  method NameLocations(t: Tables, locationIds: set<nat>) returns (names: seq<string>, nameIds: map<nat, nat>, ghost ids: seq<nat>)
    requires Closed(t)
    ensures Lists(ids, UsedNames(t, locationIds)) && |names| == |ids|
    ensures forall i :: 0 <= i < |ids| ==> ids[i] < |t.strings| && names[i] == t.strings[ids[i]]
    ensures Last(t, locationIds, ids, nameIds)
  {
    hide *;
    ghost var locs, fns;
    var byFunction, byString;
    byFunction, byString, locs, fns := GatherTables(t, locationIds);
    var strings := AscendingIds(byString.Keys);
    UsedKnown(t, locationIds, strings);
    var idSlice;
    names, idSlice := GatherStrings(t, strings);
    var inFunctions := Expand(idSlice, byString, NamedBy(t, fns));
    var inLocations := Expand(inFunctions, byFunction, Calls(t, locs));
    nameIds := NameIds(inLocations);
    ids := strings;
    ThroughTables(t, locationIds, locs, fns, ids, idSlice, inFunctions, inLocations);
    LastStays(t, locationIds, ids, inLocations, nameIds);
  }

  /** The names found are those of the lines of all locations. */
  lemma AllStrings(t: Tables, locationIds: set<nat>, locs: seq<nat>, fns: seq<nat>, keys: set<nat>)
    requires Closed(t) && (forall l :: l in locs <==> l in locationIds) && forall i :: 0 <= i < |fns| ==> fns[i] < |t.functions|
    requires forall f :: f in fns <==> exists x :: (x, f) in Calls(t, locs)
    requires forall k :: k in keys <==> exists f :: (f, k) in NamedBy(t, fns)
    ensures keys == UsedNames(t, locationIds)
  {
    hide Closed, FunctionsAt, NameIdsAt, Calls, NamedBy;
    forall l, k ensures (exists f :: (l, f) in Calls(t, locs) && (f, k) in NamedBy(t, fns)) <==> l in locs && k in NameIdsAt(t, l) {
      NamesThroughFunctions(t, locs, fns, l, k);
    }
    StringsUsed(t, locationIds, Calls(t, locs), NamedBy(t, fns), keys);
  }

  /** Expanding twice leads from each name to the locations that have a line of this name. */
  lemma ThroughTables(t: Tables, locationIds: set<nat>, locs: seq<nat>, fns: seq<nat>, ids: seq<nat>, idSlice: seq<seq<nat>>,
                      inFunctions: seq<seq<nat>>, inLocations: seq<seq<nat>>)
    requires Closed(t) && (forall l :: l in locs <==> l in locationIds) && forall i :: 0 <= i < |fns| ==> fns[i] < |t.functions|
    requires forall f :: f in fns <==> exists x :: (x, f) in Calls(t, locs)
    requires |idSlice| == |ids| && forall i :: 0 <= i < |ids| ==> idSlice[i] == [ids[i]]
    requires Expanded(idSlice, inFunctions, NamedBy(t, fns)) && Expanded(inFunctions, inLocations, Calls(t, locs))
    ensures |inLocations| == |ids|
    ensures forall n, l :: 0 <= n < |ids| ==> (l in inLocations[n] <==> l in locationIds && ids[n] in NameIdsAt(t, l))
  {
    hide Closed, FunctionsAt, NameIdsAt, Calls, NamedBy, Expanded;
    ExpandedLength(idSlice, inFunctions, NamedBy(t, fns));
    ExpandedLength(inFunctions, inLocations, Calls(t, locs));
    forall n, l: nat | 0 <= n < |ids| ensures l in inLocations[n] <==> l in locationIds && ids[n] in NameIdsAt(t, l) {
      ExpandedTwice(ids, idSlice, inFunctions, inLocations, NamedBy(t, fns), Calls(t, locs), n, l);
      NamesThroughFunctions(t, locs, fns, l, ids[n]);
    }
  }

  lemma InOrder(ids: seq<nat>, s: set<nat>)
    requires Lists(ids, s)
    ensures forall i, j :: 0 <= i < j < |ids| ==> ids[i] < ids[j]
    ensures forall x: nat :: x in ids <==> x in s
  {
  }

  lemma CalledKnown(t: Tables, locs: seq<nat>, fns: seq<nat>)
    requires Closed(t) && forall f :: f in fns <==> exists x :: (x, f) in Calls(t, locs)
    ensures forall i :: 0 <= i < |fns| ==> fns[i] < |t.functions|
  {
    forall i | 0 <= i < |fns| ensures fns[i] < |t.functions| {
      assert fns[i] in fns;
    }
  }

  lemma UsedKnown(t: Tables, locationIds: set<nat>, ids: seq<nat>)
    requires Closed(t) && Lists(ids, UsedNames(t, locationIds))
    ensures forall i :: 0 <= i < |ids| ==> ids[i] < |t.strings|
  {
  }

  lemma StringsUsed(t: Tables, locationIds: set<nat>, calls: set<(nat, nat)>, named: set<(nat, nat)>, keys: set<nat>)
    requires Closed(t)
    requires forall k :: k in keys <==> exists f :: (f, k) in named
    requires forall f, k :: (f, k) in named ==> exists l :: (l, f) in calls
    requires forall l, k :: (exists f :: (l, f) in calls && (f, k) in named) <==> l in locationIds && k in NameIdsAt(t, l)
    ensures keys == UsedNames(t, locationIds)
  {
    hide Closed, NameIdsAt;
    forall k | k in keys ensures k in UsedNames(t, locationIds) {
      var f :| (f, k) in named;
      var l :| (l, f) in calls;
      assert l in locationIds && k in NameIdsAt(t, l);
    }
    forall k | k in UsedNames(t, locationIds) ensures k in keys {
      var l :| l in locationIds && k in NameIdsAt(t, l);
      var f :| (l, f) in calls && (f, k) in named;
    }
  }

  lemma LastStays(t: Tables, locationIds: set<nat>, ids: seq<nat>, inLocations: seq<seq<nat>>, nameIds: map<nat, nat>)
    requires Closed(t) && Lists(ids, UsedNames(t, locationIds)) && |inLocations| == |ids|
    requires forall n, l :: 0 <= n < |ids| ==> (l in inLocations[n] <==> l in locationIds && ids[n] in NameIdsAt(t, l))
    requires forall l :: l in nameIds ==> nameIds[l] < |ids| && l in inLocations[nameIds[l]]
    requires forall n, l :: 0 <= n < |ids| && l in inLocations[n] ==> l in nameIds && n <= nameIds[l]
    ensures Last(t, locationIds, ids, nameIds)
  {
    hide Closed, NameIdsAt, UsedNames, FunctionsAt;
    forall l, k | l in locationIds && k in NameIdsAt(t, l) ensures l in nameIds && k <= ids[nameIds[l]] {
      assert k in ids;
      var n :| 0 <= n < |ids| && ids[n] == k;
      assert l in inLocations[n];
    }
  }

  /** The function ids of a list of locations: 0 for a location without a name. */
  method FunctionIds(locs: seq<nat>, nameIds: map<nat, nat>) returns (ids: seq<nat>)
    ensures |ids| == |locs|
    ensures forall k :: 0 <= k < |ids| ==> ids[k] == if locs[k] in nameIds then nameIds[locs[k]] else 0
  {
    ids := [];
    for k := 0 to |locs|
      invariant |ids| == k
      invariant forall i :: 0 <= i < k ==> ids[i] == if locs[i] in nameIds then nameIds[locs[i]] else 0
    {
      ids := ids + [if locs[k] in nameIds then nameIds[locs[k]] else 0];
    }
  }

  // ----- how a block names stacktraces -----

  ghost predicate IsGreatest(s: set<nat>, k: nat) {
    k in s && forall j :: j in s ==> j <= k
  }

  ghost predicate IsLeast(s: set<nat>, k: nat) {
    k in s && forall j :: j in s ==> k <= j
  }

  lemma HasGreatest(s: set<nat>)
    requires s != {}
    ensures exists k :: IsGreatest(s, k)
  {
    var x := Element(s);
    var rest := s - {x};
    if rest == {} {
      assert forall j :: j in s ==> j == x || j in rest;
      assert IsGreatest(s, x);
    } else {
      HasGreatest(rest);
      var k :| IsGreatest(rest, k);
      assert forall j :: j in s ==> j == x || j in rest;
      assert IsGreatest(s, if x < k then k else x);
    }
  }

  lemma HasLeast(s: set<nat>)
    requires s != {}
    ensures exists k :: IsLeast(s, k)
  {
    var x := Element(s);
    var rest := s - {x};
    if rest == {} {
      assert forall j :: j in s ==> j == x || j in rest;
      assert IsLeast(s, x);
    } else {
      HasLeast(rest);
      var k :| IsLeast(rest, k);
      assert forall j :: j in s ==> j == x || j in rest;
      assert IsLeast(s, if x < k then x else k);
    }
  }

  /** The string a block names a location by: of several lines the one whose name has the greatest id;
      without a line, the first of all names of the result. */
  ghost function NameIdOf(t: Tables, used: set<nat>, loc: nat): (r: nat)
    requires Closed(t) && UsedNames(t, used) != {}
    ensures r < |t.strings|
    ensures NameIdsAt(t, loc) != {} ==> IsGreatest(NameIdsAt(t, loc), r)
    ensures NameIdsAt(t, loc) == {} ==> IsLeast(UsedNames(t, used), r)
  {
    if NameIdsAt(t, loc) != {} then
      HasGreatest(NameIdsAt(t, loc));
      var k: nat :| IsGreatest(NameIdsAt(t, loc), k);
      k
    else
      HasLeast(UsedNames(t, used));
      var k: nat :| IsLeast(UsedNames(t, used), k);
      k
  }

  /** One name for each location of the column; none at all if no line is left to take a name from. */
  ghost function ColumnNames(t: Tables, used: set<nat>, locs: seq<nat>): (r: Option<seq<string>>)
    requires Closed(t)
  {
    if UsedNames(t, used) == {} then None
    else Some(seq(|locs|, i requires 0 <= i < |locs| => t.strings[NameIdOf(t, used, locs[i])]))
  }

  ghost function BlockNames(t: Tables, used: set<nat>): (r: Naming)
    requires Closed(t)
    ensures |r| == |Stacks(t)|
    ensures forall id :: 0 <= id < |t.stacktraces| ==> r[id] == ColumnNames(t, used, Column(t.stacktraces[id]))
    ensures forall id :: |t.stacktraces| <= id < |r| ==> r[id] == Some([])
  {
    seq(|Stacks(t)|, id requires 0 <= id < |Stacks(t)| =>
      if id < |t.stacktraces| then ColumnNames(t, used, Column(t.stacktraces[id])) else Some([]))
  }

  /** The locations read for a set of stacktraces. */
  ghost function Read(t: Tables, ids: set<nat>): (r: set<nat>)
    ensures forall l :: l in r <==> exists id :: id in ids && l in ReadColumn(t, id)
  {
    set id, l | id in ids && l in ReadColumn(t, id) :: l
  }

  lemma CollectedWell(t: Tables, chunks: seq<Chunk>, ids: set<nat>, byStack: map<nat, seq<nat>>, locationIds: set<nat>)
    requires Delivers(t, chunks, ids) && Collected(chunks, byStack, locationIds)
    ensures locationIds == Read(t, ids)
    ensures forall id :: id in ids ==> id < |Stacks(t)| && ReadColumn(t, id) == if id in byStack then byStack[id] else []
  {
    hide Gathered;
    forall id | id in ids ensures ReadColumn(t, id) == if id in byStack then byStack[id] else [] {
      assert Gathered(chunks, id) == ReadColumn(t, id);
    }
    forall l | l in locationIds ensures l in Read(t, ids) {
      assert InSome(chunks, l);
      var c :| 0 <= c < |chunks| && l in chunks[c].values;
      ChunkIsPart(chunks, c, l);
    }
    forall l | l in Read(t, ids) ensures l in locationIds {
      var id :| id in ids && l in ReadColumn(t, id);
      PartOfChunk(chunks, id, l);
    }
  }

  /** The function ids of a column stand for the names a block gives it. */
  lemma NamedByColumn(t: Tables, used: set<nat>, ids: seq<nat>, names: seq<string>, nameIds: map<nat, nat>, locs: seq<nat>, fnIds: seq<nat>)
    requires Closed(t) && Lists(ids, UsedNames(t, used)) && |names| == |ids| && Last(t, used, ids, nameIds)
    requires forall i :: 0 <= i < |ids| ==> ids[i] < |t.strings| && names[i] == t.strings[ids[i]]
    requires locs != [] && |fnIds| == |locs| && forall i :: 0 <= i < |locs| ==> locs[i] in used
    requires forall i :: 0 <= i < |locs| ==> fnIds[i] == if locs[i] in nameIds then nameIds[locs[i]] else 0
    ensures Given(names, fnIds) == ColumnNames(t, used, locs)
  {
    hide Closed, NameIdsAt, UsedNames, FunctionsAt, Lists, Last;
    if UsedNames(t, used) == {} {
      FirstListed(ids, UsedNames(t, used));
      assert locs[0] !in nameIds by { UnnamedIn(t, used, ids, nameIds, locs[0]); }
    } else {
      FirstIsLeast(ids, UsedNames(t, used));
      forall i | 0 <= i < |locs| ensures fnIds[i] < |ids| && ids[fnIds[i]] == NameIdOf(t, used, locs[i]) {
        NamedAt(t, used, ids, nameIds, locs[i]);
      }
      assert NamesAt(names, fnIds) == ColumnNames(t, used, locs).value;
    }
  }

  lemma NamedByRead(t: Tables, used: set<nat>, ids: seq<nat>, names: seq<string>, nameIds: map<nat, nat>, id: nat, locs: seq<nat>,
                    fnIds: seq<nat>)
    requires Closed(t) && Lists(ids, UsedNames(t, used)) && |names| == |ids| && Last(t, used, ids, nameIds)
    requires forall i :: 0 <= i < |ids| ==> ids[i] < |t.strings| && names[i] == t.strings[ids[i]]
    requires id < |Stacks(t)| && locs == ReadColumn(t, id) && |fnIds| == |locs| && forall i :: 0 <= i < |locs| ==> locs[i] in used
    requires forall i :: 0 <= i < |locs| ==> fnIds[i] == if locs[i] in nameIds then nameIds[locs[i]] else 0
    ensures Given(names, fnIds) == BlockNames(t, used)[id]
  {
    if id < |t.stacktraces| {
      NamedByColumn(t, used, ids, names, nameIds, locs, fnIds);
    } else {
      assert NamesAt(names, fnIds) == [];
    }
  }

  lemma UnnamedIn(t: Tables, used: set<nat>, ids: seq<nat>, nameIds: map<nat, nat>, l: nat)
    requires Closed(t) && Last(t, used, ids, nameIds) && ids == []
    ensures l !in nameIds
  {
  }

  lemma NamedAt(t: Tables, used: set<nat>, ids: seq<nat>, nameIds: map<nat, nat>, l: nat)
    requires Closed(t) && Last(t, used, ids, nameIds) && UsedNames(t, used) != {} && l in used
    requires ids != [] && IsLeast(UsedNames(t, used), ids[0])
    ensures var n := if l in nameIds then nameIds[l] else 0; n < |ids| && ids[n] == NameIdOf(t, used, l)
  {
    hide Closed, NameIdsAt, UsedNames, FunctionsAt;
    var k := NameIdOf(t, used, l);
  }

  lemma ReadIsUsed(t: Tables, ids: set<nat>, id: nat)
    requires id in ids
    ensures forall i :: 0 <= i < |ReadColumn(t, id)| ==> ReadColumn(t, id)[i] in Read(t, ids)
  {
  }

  lemma FirstListed(ids: seq<nat>, s: set<nat>)
    requires Lists(ids, s)
    ensures ids != [] ==> ids[0] in s
  {
  }

  lemma FirstIsLeast(ids: seq<nat>, s: set<nat>)
    requires s != {} && Lists(ids, s)
    ensures ids != [] && IsLeast(s, ids[0])
  {
    var x := Element(s);
    assert x in ids;
    forall j | j in s ensures ids[0] <= j {
      assert j in ids;
    }
  }

  /** `resolveSymbols`: the function ids of every stacktrace, through the inverted maps. */
  method ResolveSymbols(t: Tables, values: map<nat, int>, chunks: seq<Chunk>) returns (m: Merged)
    requires Closed(t) && Delivers(t, chunks, values.Keys)
    ensures m.values == values && m.functionIds.Keys == values.Keys
    ensures Symbolized(BlockNames(t, Read(t, values.Keys)), m)
  {
    hide Collected, Closed, Given, Last, Lists, ColumnNames, UsedNames, Read, Column, Delivers, Stacks;
    var byStack, locationIds := GatherStacktraces(chunks);
    CollectedWell(t, chunks, values.Keys, byStack, locationIds);
    ghost var used, named := Read(t, values.Keys), BlockNames(t, Read(t, values.Keys));
    var names, nameIds, strings := NameLocations(t, locationIds);
    m := Merged(values, map[], names);
    var left := values.Keys;
    while left != {}
      invariant left <= values.Keys && m.values == values && m.names == names && m.functionIds.Keys == values.Keys - left
      invariant forall id :: id in m.functionIds ==> Given(names, m.functionIds[id]) == named[id]
    {
      var id :| id in left;
      var locs := if id in byStack then byStack[id] else [];
      ReadIsUsed(t, values.Keys, id);
      var ids := FunctionIds(locs, nameIds);
      NamedByRead(t, used, strings, names, nameIds, id, locs, ids);
      m := m.(functionIds := m.functionIds[id := ids]);
      left := left - {id};
    }
  }

  /** The two columns of samples, chunk by chunk, summed by stacktrace. */
  method SumByStacktrace(rows: seq<seq<Sample>>) returns (values: map<nat, int>)
    ensures values == Aggregate(Flatten(rows), false)
  {
    hide Flatten, Aggregate;
    values := map[];
    assert Aggregate([], false) == map[] by { NothingAdded(); }
    assert rows[..0] == [];
    FlattenNone<Sample>();
    for r := 0 to |rows|
      invariant values == Aggregate(Flatten(rows[..r]), false)
    {
      ghost var done := Flatten(rows[..r]);
      FlattenNext(rows, r);
      assert done + rows[r][..0] == done;
      for i := 0 to |rows[r]|
        invariant values == Aggregate(done + rows[r][..i], false)
      {
        AggregateNext(done, rows[r], i, false);
        var s := rows[r][i];
        if s.stacktraceId in values {
          values := values[s.stacktraceId := values[s.stacktraceId] + s.value];
        } else {
          values := values[s.stacktraceId := s.value];
        }
      }
      assert rows[r][..|rows[r]|] == rows[r];
    }
    assert rows[..|rows|] == rows;
  }

  // ----- head and block -----

  /** The stacktraces of a list of samples. */
  function Sampled(samples: seq<Sample>): (r: set<nat>)
    ensures forall id :: id in r <==> exists i :: 0 <= i < |samples| && samples[i].stacktraceId == id
  {
    set i | 0 <= i < |samples| :: samples[i].stacktraceId
  }

  lemma {:induction false} AggregateKeys(samples: seq<Sample>)
    ensures Aggregate(samples, false).Keys == Sampled(samples)
  {
    if samples != [] {
      var front := samples[..|samples| - 1];
      AggregateKeys(front);
      assert samples == front + [samples[|samples| - 1]];
      assert Sampled(samples) == Sampled(front) + {samples[|samples| - 1].stacktraceId};
    }
  }

  /** The samples of a profile as their columns are read: an empty list gives one null, which reads
      as stacktrace 0 with value 0. */
  function ColumnSamples(row: seq<Sample>): seq<Sample> {
    if row == [] then [Sample(0, 0)] else row
  }

  function ReadSamples(rows: seq<seq<Sample>>): seq<Sample> {
    if rows == [] then [] else ColumnSamples(rows[0]) + ReadSamples(rows[1..])
  }

  /** The nulls weigh nothing. */
  lemma {:induction false} NullsWeighNothing(t: Tables, named: Naming, rows: seq<seq<Sample>>, stack: seq<string>)
    requires |named| > 0 && Known(|named|, Flatten(rows))
    ensures Known(|named|, ReadSamples(rows))
    ensures Weight(named, ReadSamples(rows), stack) == Weight(named, Flatten(rows), stack)
    ensures EmptySum(t, ReadSamples(rows)) == EmptySum(t, Flatten(rows))
    ensures forall s :: s in ReadSamples(rows) && s.value != 0 ==> s in Flatten(rows)
  {
    if rows != [] {
      var row, rest := rows[0], rows[1..];
      assert Flatten(rows) == row + Flatten(rest);
      assert Known(|named|, row) && Known(|named|, Flatten(rest)) by { KnownParts(|named|, row, Flatten(rest)); }
      NullsWeighNothing(t, named, rest, stack);
      assert ColumnSamples(row)[..0] == [];
      KnownConcat(|named|, ColumnSamples(row), ReadSamples(rest));
      WeightConcat(t, named, ColumnSamples(row), ReadSamples(rest), stack);
      WeightConcat(t, named, row, Flatten(rest), stack);
    }
  }

  lemma KnownParts(n: nat, a: seq<Sample>, b: seq<Sample>)
    requires Known(n, a + b)
    ensures Known(n, a) && Known(n, b)
  {
    forall i | 0 <= i < |a| ensures a[i].stacktraceId < n {
      assert a[i] == (a + b)[i];
    }
    forall i | 0 <= i < |b| ensures b[i].stacktraceId < n {
      assert b[i] == (a + b)[|a| + i];
    }
  }

  lemma KnownConcat(n: nat, a: seq<Sample>, b: seq<Sample>)
    requires Known(n, a) && Known(n, b)
    ensures Known(n, a + b)
  {
  }

  lemma {:induction false} WeightConcat(t: Tables, named: Naming, a: seq<Sample>, b: seq<Sample>, stack: seq<string>)
    requires Known(|named|, a) && Known(|named|, b)
    ensures Known(|named|, a + b) && Weight(named, a + b, stack) == Weight(named, a, stack) + Weight(named, b, stack)
    ensures EmptySum(t, a + b) == EmptySum(t, a) + EmptySum(t, b)
  {
    if b == [] {
      assert a + b == a;
    } else {
      var front := b[..|b| - 1];
      WeightConcat(t, named, a, front, stack);
      assert (a + b)[..|a + b| - 1] == a + front;
    }
  }

  /** Every location of a list has exactly one line. */
  ghost predicate OneLine(t: Tables, locs: seq<nat>) {
    forall i :: 0 <= i < |locs| ==> locs[i] < |t.locations| && |t.locations[locs[i]].lines| == 1
  }

  /** A list does not mix locations without a line and with several. */
  ghost predicate Unmixed(t: Tables, locs: seq<nat>) {
    && (forall i :: 0 <= i < |locs| ==> locs[i] < |t.locations|)
    && ((forall i :: 0 <= i < |locs| ==> |t.locations[locs[i]].lines| >= 1)
        || (forall i :: 0 <= i < |locs| ==> |t.locations[locs[i]].lines| <= 1))
  }

  /** A location with a line has a name, so that there is one to give. */
  lemma SomeName(t: Tables, used: set<nat>, loc: nat)
    requires Closed(t) && loc in used && loc < |t.locations| && t.locations[loc].lines != []
    ensures NameIdsAt(t, loc) != {} && UsedNames(t, used) != {}
  {
    var f := t.locations[loc].lines[0].functionId;
    assert f in FunctionsAt(t, loc);
    assert t.functions[f].name in NameIdsAt(t, loc);
    assert t.functions[f].name in UsedNames(t, used);
  }

  /** With a single line the name of a location is that of its line. */
  lemma OneLineName(t: Tables, used: set<nat>, loc: nat)
    requires Closed(t) && loc in used && loc < |t.locations| && |t.locations[loc].lines| == 1
    ensures UsedNames(t, used) != {} && [t.strings[NameIdOf(t, used, loc)]] == LineNames(t, t.locations[loc].lines)
  {
    SomeName(t, used, loc);
    var k := NameIdOf(t, used, loc);
    assert k in NameIdsAt(t, loc);
  }

  /** With one line each, the names of the locations are those of the head. */
  lemma {:induction false} OneNameEach(t: Tables, used: set<nat>, locs: seq<nat>)
    requires Closed(t) && OneLine(t, locs) && UsedNames(t, used) != {} && forall i :: 0 <= i < |locs| ==> locs[i] in used
    ensures ColumnNames(t, used, locs) == Some(Names(t, locs))
  {
    hide Closed;
    if locs != [] {
      var front, loc := locs[..|locs| - 1], locs[|locs| - 1];
      OneNameEach(t, used, front);
      OneLineName(t, used, loc);
      assert ColumnNames(t, used, locs).value == ColumnNames(t, used, front).value + [t.strings[NameIdOf(t, used, loc)]];
    }
  }

  /** The head gives as many names as there are lines. */
  lemma {:induction false} NamesLength(t: Tables, locs: seq<nat>)
    requires Closed(t) && Unmixed(t, locs)
    ensures |Names(t, locs)| == |locs| <==> OneLine(t, locs)
    ensures (forall i :: 0 <= i < |locs| ==> |t.locations[locs[i]].lines| >= 1) ==> |Names(t, locs)| >= |locs|
    ensures (forall i :: 0 <= i < |locs| ==> |t.locations[locs[i]].lines| <= 1) ==> |Names(t, locs)| <= |locs|
  {
    hide Closed;
    if locs != [] {
      var front, loc := locs[..|locs| - 1], locs[|locs| - 1];
      NamesLength(t, front);
      assert OneLine(t, locs) <==> OneLine(t, front) && |t.locations[loc].lines| == 1;
    }
  }

  /** A block names a stacktrace like the head exactly when it has locations and each of them has
      a single line. */
  lemma NamedAlike(t: Tables, used: set<nat>, id: nat)
    requires Closed(t) && id < |t.stacktraces| && Unmixed(t, t.stacktraces[id])
    requires forall l :: l in Column(t.stacktraces[id]) ==> l in used
    ensures BlockNames(t, used)[id] == HeadNames(t)[id] <==> t.stacktraces[id] != [] && OneLine(t, t.stacktraces[id])
  {
    var locs := t.stacktraces[id];
    NamesLength(t, locs);
    hide Closed, Names;
    if locs == [] {
      assert ColumnNames(t, used, [0]).None? || |ColumnNames(t, used, [0]).value| == 1;
    } else {
      if OneLine(t, locs) {
        assert locs[0] in Column(locs);
        SomeName(t, used, locs[0]);
        OneNameEach(t, used, locs);
      } else {
        assert ColumnNames(t, used, locs).None? || |ColumnNames(t, used, locs).value| == |locs|;
      }
    }
  }

  /** The sum of the values of the samples without locations. */
  function EmptySum(t: Tables, samples: seq<Sample>): int {
    if samples == [] then 0
    else
      var s := samples[|samples| - 1];
      EmptySum(t, samples[..|samples| - 1]) +
      if s.stacktraceId < |t.stacktraces| && t.stacktraces[s.stacktraceId] == [] then s.value else 0
  }

  /** The locations of every sample that has a value have one line each, and are among those read. */
  ghost predicate OneLineSamples(t: Tables, used: set<nat>, samples: seq<Sample>) {
    forall s :: s in samples && s.value != 0 ==> OneLineStack(t, used, s.stacktraceId)
  }

  ghost predicate OneLineStack(t: Tables, used: set<nat>, id: nat) {
    && id < |t.stacktraces| && OneLine(t, t.stacktraces[id])
    && forall l :: l in Column(t.stacktraces[id]) ==> l in used
  }

  /** A block moves the values of the samples without locations from no name to one. */
  lemma {:induction false} WeightInBlock(t: Tables, used: set<nat>, samples: seq<Sample>, stack: seq<string>)
    requires Closed(t) && Known(|Stacks(t)|, samples) && OneLineSamples(t, used, samples)
    ensures Weight(BlockNames(t, used), samples, stack) == Weight(HeadNames(t), samples, stack) +
      (if Some(stack) == ColumnNames(t, used, [0]) then EmptySum(t, samples) else if stack == [] then -EmptySum(t, samples) else 0)
  {
    hide Closed, StackNames, ColumnNames, OneLineStack, Stacks;
    if samples != [] {
      var front, s := samples[..|samples| - 1], samples[|samples| - 1];
      assert samples == front + [s];
      WeightInBlock(t, used, front, stack);
      if s.value != 0 {
        OneStack(t, used, s.stacktraceId);
      }
    }
  }

  /** What a stacktrace of single lines is named, in the head and in a block. */
  lemma OneStack(t: Tables, used: set<nat>, id: nat)
    requires Closed(t) && OneLineStack(t, used, id)
    ensures id < |t.stacktraces|
    ensures t.stacktraces[id] != [] ==> BlockNames(t, used)[id] == HeadNames(t)[id]
    ensures t.stacktraces[id] == [] ==> HeadNames(t)[id] == Some([]) && BlockNames(t, used)[id] == ColumnNames(t, used, [0]) != Some([])
  {
    NamedAlike(t, used, id);
  }

  /** Head and block, on the same tables and samples, denote the same map from name stacks to
      values exactly when the samples without locations cancel out. */
  lemma SameMeaningExactly(t: Tables, used: set<nat>, rows: seq<seq<Sample>>, head: Merged, block: Merged)
    requires Closed(t) && Known(|t.stacktraces|, Flatten(rows)) && OneLineSamples(t, used, Flatten(rows))
    requires Symbolized(HeadNames(t), head) && head.values == Aggregate(Flatten(rows), true)
    requires Symbolized(BlockNames(t, used), block) && block.values == Aggregate(ReadSamples(rows), false)
    ensures (forall stack :: ValueOf(head, stack, |Stacks(t)|) == ValueOf(block, stack, |Stacks(t)|))
       <==> EmptySum(t, Flatten(rows)) == 0
  {
    hide Closed, StackNames, NamesAt, Aggregate, Weight, EmptySum, ValueOf, Symbolized, ReadSamples, OneLineStack, Flatten;
    var samples, sum := Flatten(rows), EmptySum(t, Flatten(rows));
    forall stack
      ensures ValueOf(block, stack, |Stacks(t)|) == ValueOf(head, stack, |Stacks(t)|) +
        (if Some(stack) == ColumnNames(t, used, [0]) then sum else if stack == [] then -sum else 0)
    {
      NullsWeighNothing(t, BlockNames(t, used), rows, stack);
      WeightInBlock(t, used, samples, stack);
      MeansWeight(HeadNames(t), samples, head, true, stack);
      MeansWeight(BlockNames(t, used), ReadSamples(rows), block, false, stack);
    }
    var nothing: seq<string> := [];
    assert ColumnNames(t, used, [0]) != Some(nothing);
    assert ValueOf(block, nothing, |Stacks(t)|) == ValueOf(head, nothing, |Stacks(t)|) - sum;
  }

  // ----- agreement on all samples -----

  /** Head and block give the same values on a list of samples. */
  ghost predicate Agree(t: Tables, samples: seq<Sample>)
    requires Closed(t) && Known(|t.stacktraces|, samples)
  {
    forall stack ::
      Weight(HeadNames(t), samples, stack) == Weight(BlockNames(t, Read(t, Sampled(samples))), samples, stack)
  }

  /** A stacktrace is named alike when it is read together with another. */
  ghost predicate AlikeBeside(t: Tables, a: nat, b: nat)
    requires Closed(t) && a < |t.stacktraces|
  {
    BlockNames(t, Read(t, {a, b}))[a] == HeadNames(t)[a]
  }

  ghost predicate AlwaysAlike(t: Tables)
    requires Closed(t)
  {
    forall a, b :: 0 <= a < |t.stacktraces| && 0 <= b < |t.stacktraces| ==> AlikeBeside(t, a, b)
  }

  /** Head and block agree on all samples exactly when any two stacktraces, read together, are named alike. */
  lemma AlwaysAgree(t: Tables)
    requires Closed(t)
    ensures (forall samples | Known(|t.stacktraces|, samples) :: Agree(t, samples)) <==> AlwaysAlike(t)
  {
    hide Closed, StackNames, ColumnNames, Agree, AlikeBeside;
    if forall samples | Known(|t.stacktraces|, samples) :: Agree(t, samples) {
      forall a, b | 0 <= a < |t.stacktraces| && 0 <= b < |t.stacktraces| ensures AlikeBeside(t, a, b) {
        assert Agree(t, [Sample(a, 1), Sample(b, 2)]);
        TwoSamples(t, a, b);
      }
    }
    if AlwaysAlike(t) {
      forall samples | Known(|t.stacktraces|, samples) ensures Agree(t, samples) {
        AgreeOn(t, samples);
      }
    }
  }

  /** Values 1 and 2 tell the two stacktraces apart. */
  lemma TwoSamples(t: Tables, a: nat, b: nat)
    requires Closed(t) && a < |t.stacktraces| && b < |t.stacktraces| && Agree(t, [Sample(a, 1), Sample(b, 2)])
    ensures AlikeBeside(t, a, b)
  {
    var samples := [Sample(a, 1), Sample(b, 2)];
    var used := Read(t, Sampled(samples));
    assert samples[0].stacktraceId == a && samples[1].stacktraceId == b;
    assert Sampled(samples) == {a, b};
    var stack := StackNames(t, a);
    hide Closed, StackNames, ColumnNames, Read;
    assert Weight(HeadNames(t), samples, stack) == Weight(BlockNames(t, used), samples, stack);
    WeightOfTwo(HeadNames(t), samples[0], samples[1], stack);
    WeightOfTwo(BlockNames(t, used), samples[0], samples[1], stack);
  }

  lemma WeightOfTwo(named: Naming, a: Sample, b: Sample, stack: seq<string>)
    requires a.stacktraceId < |named| && b.stacktraceId < |named|
    ensures Known(|named|, [a, b])
    ensures Weight(named, [a, b], stack) ==
      (if named[a.stacktraceId] == Some(stack) then a.value else 0) + (if named[b.stacktraceId] == Some(stack) then b.value else 0)
  {
    var samples := [a, b];
    assert samples[0] == a && samples[1] == b;
    assert samples[..1] == [a] && [a][..0] == [];
    assert Weight(named, [a], stack) == if named[a.stacktraceId] == Some(stack) then a.value else 0;
  }

  lemma AgreeOn(t: Tables, samples: seq<Sample>)
    requires Closed(t) && Known(|t.stacktraces|, samples) && AlwaysAlike(t)
    ensures Agree(t, samples)
  {
    hide Closed, StackNames, ColumnNames, AlikeBeside;
    var used := Read(t, Sampled(samples));
    forall i | 0 <= i < |samples| ensures BlockNames(t, used)[samples[i].stacktraceId] == HeadNames(t)[samples[i].stacktraceId] {
      AlikeTogether(t, Sampled(samples), samples[i].stacktraceId);
    }
    forall stack ensures Weight(HeadNames(t), samples, stack) == Weight(BlockNames(t, used), samples, stack) {
      SameWeight(HeadNames(t), BlockNames(t, used), samples, stack);
    }
  }

  lemma {:induction false} SameWeight(named: Naming, named': Naming, samples: seq<Sample>, stack: seq<string>)
    requires |named| == |named'| && Known(|named|, samples)
    requires forall i :: 0 <= i < |samples| ==> named'[samples[i].stacktraceId] == named[samples[i].stacktraceId]
    ensures Weight(named, samples, stack) == Weight(named', samples, stack)
  {
    if samples != [] {
      SameWeight(named, named', samples[..|samples| - 1], stack);
    }
  }

  /** What matters of the other stacktraces is the one that has the first name of all. */
  lemma AlikeTogether(t: Tables, ids: set<nat>, a: nat)
    requires Closed(t) && AlwaysAlike(t) && a in ids && forall id :: id in ids ==> id < |t.stacktraces|
    ensures BlockNames(t, Read(t, ids))[a] == HeadNames(t)[a]
  {
    hide Closed, StackNames, ColumnNames, Read, UsedNames, IsLeast;
    var locs := Column(t.stacktraces[a]);
    assert AlikeBeside(t, a, a);
    SmallerRead(t, {a, a}, ids);
    NoneNamed(t, Read(t, {a, a}), locs);
    HasLeast(UsedNames(t, Read(t, ids)));
    var k :| IsLeast(UsedNames(t, Read(t, ids)), k);
    var b := FirstNamed(t, ids, k, a);
    SameFirstName(t, Read(t, {a, b}), Read(t, ids), k, locs);
    calc {
      BlockNames(t, Read(t, ids))[a];
      ColumnNames(t, Read(t, ids), locs);
      ColumnNames(t, Read(t, {a, b}), locs);
      BlockNames(t, Read(t, {a, b}))[a];
    == { assert AlikeBeside(t, a, b); }
      HeadNames(t)[a];
    }
  }

  lemma NoneNamed(t: Tables, used: set<nat>, locs: seq<nat>)
    requires Closed(t)
    ensures UsedNames(t, used) == {} ==> ColumnNames(t, used, locs) == None
  {
  }

  /** The first name is that of a location of some stacktrace, so it is the first for this one alone. */
  lemma FirstNamed(t: Tables, ids: set<nat>, k: nat, a: nat) returns (b: nat)
    requires Closed(t) && IsLeast(UsedNames(t, Read(t, ids)), k) && a in ids
    ensures b in ids && IsLeast(UsedNames(t, Read(t, {a, b})), k)
  {
    hide Closed, NameIdsAt, Read, UsedNames;
    var l :| l in Read(t, ids) && k in NameIdsAt(t, l);
    b :| b in ids && l in ReadColumn(t, b);
    SmallerRead(t, {a, b}, ids);
    assert b in {a, b};
    assert l in Read(t, {a, b});
    assert k in UsedNames(t, Read(t, {a, b}));
  }

  lemma SmallerRead(t: Tables, ids: set<nat>, ids': set<nat>)
    requires Closed(t) && ids <= ids'
    ensures UsedNames(t, Read(t, ids)) <= UsedNames(t, Read(t, ids'))
  {
    hide Closed, NameIdsAt;
    forall k | k in UsedNames(t, Read(t, ids)) ensures k in UsedNames(t, Read(t, ids')) {
      var l :| l in Read(t, ids) && k in NameIdsAt(t, l);
      var id :| id in ids && l in ReadColumn(t, id);
      assert l in Read(t, ids');
    }
  }

  lemma SameFirstName(t: Tables, used: set<nat>, used': set<nat>, k: nat, locs: seq<nat>)
    requires Closed(t) && IsLeast(UsedNames(t, used), k) && IsLeast(UsedNames(t, used'), k)
    ensures ColumnNames(t, used, locs) == ColumnNames(t, used', locs)
  {
    hide Closed, NameIdsAt, UsedNames;
    forall i | 0 <= i < |locs| ensures NameIdOf(t, used, locs[i]) == NameIdOf(t, used', locs[i]) {
    }
    assert ColumnNames(t, used, locs).value == ColumnNames(t, used', locs).value;
  }

  /** Where no stacktrace mixes locations without a line and with several, this is so exactly when
      no stacktrace is empty and every location has a single line. */
  lemma AlwaysAlikeUnmixed(t: Tables)
    requires Closed(t) && forall id :: 0 <= id < |t.stacktraces| ==> Unmixed(t, t.stacktraces[id])
    ensures AlwaysAlike(t) <==> forall id :: 0 <= id < |t.stacktraces| ==> t.stacktraces[id] != [] && OneLine(t, t.stacktraces[id])
  {
    hide Closed, HeadNames, BlockNames, OneLine, Unmixed;
    forall a, b | 0 <= a < |t.stacktraces| && 0 <= b < |t.stacktraces|
      ensures AlikeBeside(t, a, b) <==> t.stacktraces[a] != [] && OneLine(t, t.stacktraces[a])
    {
      assert a in {a, b};
      NamedAlike(t, Read(t, {a, b}), a);
    }
    if AlwaysAlike(t) {
      forall id | 0 <= id < |t.stacktraces| ensures t.stacktraces[id] != [] && OneLine(t, t.stacktraces[id]) {
        assert AlikeBeside(t, id, id);
      }
    }
  }

  /** The locations of a list are given these names, one by one. */
  ghost predicate GivenNames(t: Tables, used: set<nat>, locs: seq<nat>, names: seq<string>)
    requires Closed(t)
  {
    && UsedNames(t, used) != {} && |names| == |locs|
    && forall p :: 0 <= p < |locs| ==> t.strings[NameIdOf(t, used, locs[p])] == names[p]
  }

  /** Whatever the lines: a stacktrace is named alike exactly when it has locations, as many as they
      have lines, and each location is given the name of the line at its position. */
  lemma NamedAlikeByPosition(t: Tables, used: set<nat>, id: nat)
    requires Closed(t) && id < |t.stacktraces|
    ensures BlockNames(t, used)[id] == HeadNames(t)[id] <==>
      t.stacktraces[id] != [] && GivenNames(t, used, t.stacktraces[id], StackNames(t, id))
  {
    var locs := t.stacktraces[id];
    if locs == [] {
      NoLocations(t, id);
      assert ColumnNames(t, used, [0]).None? || |ColumnNames(t, used, [0]).value| == 1;
    } else {
      hide Closed, StackNames, NameIdsAt, UsedNames;
      if GivenNames(t, used, locs, StackNames(t, id)) {
        assert ColumnNames(t, used, locs).value == StackNames(t, id);
      }
    }
  }

  lemma NoLocations(t: Tables, id: nat)
    requires Closed(t) && id < |t.stacktraces| && t.stacktraces[id] == []
    ensures StackNames(t, id) == []
  {
  }

  // ----- where they differ -----

  /** Location 0 has no line, location 1 calls `f`, and location 2 calls `f` and `g`. */
  function Example(f: Function, g: Function, x: Line, y: Line): (t: Tables)
    requires f.name == 1 && g.name == 2 && x.functionId == 0 && y.functionId == 1
    ensures Closed(t)
  {
    Tables(["", "f", "g"], [f, g], [Location(0, 0, []), Location(0, 1, [x]), Location(0, 2, [x, y])], [[0, 1], [2], [0, 2]])
  }

  lemma ExampleNameIds(f: Function, g: Function, x: Line, y: Line)
    requires f.name == 1 && g.name == 2 && x.functionId == 0 && y.functionId == 1
    ensures var t := Example(f, g, x, y); NameIdsAt(t, 0) == {} && NameIdsAt(t, 1) == {1} && NameIdsAt(t, 2) == {1, 2}
  {
    var t := Example(f, g, x, y);
    assert t.locations[1].lines[0] == x && t.locations[2].lines[0] == x && t.locations[2].lines[1] == y;
    assert FunctionsAt(t, 1) == {0} && FunctionsAt(t, 2) == {0, 1};
  }

  lemma ExampleHead(f: Function, g: Function, x: Line, y: Line)
    requires f.name == 1 && g.name == 2 && x.functionId == 0 && y.functionId == 1
    ensures var t := Example(f, g, x, y);
      StackNames(t, 0) == ["f"] && StackNames(t, 1) == ["f", "g"] && StackNames(t, 2) == ["f", "g"]
  {
    var t := Example(f, g, x, y);
    NamesOfTwo(t, 0, 1);
    NamesOfOne(t, 2);
    NamesOfTwo(t, 0, 2);
  }

  /** A location without a line takes the name of another, and of two lines one is lost.  In a stacktrace
      that has both the names may come out right by chance. */
  lemma NamelessIsNamed(f: Function, g: Function, x: Line, y: Line)
    requires f.name == 1 && g.name == 2 && x.functionId == 0 && y.functionId == 1
    ensures var t := Example(f, g, x, y);
      && HeadNames(t)[0] == Some(["f"]) && BlockNames(t, {0, 1})[0] == Some(["f", "f"])
      && HeadNames(t)[1] == Some(["f", "g"]) && BlockNames(t, {2})[1] == Some(["g"])
      && HeadNames(t)[2] == Some(["f", "g"]) == BlockNames(t, {0, 2})[2]
  {
    var t := Example(f, g, x, y);
    ExampleHead(f, g, x, y);
    ExampleNameIds(f, g, x, y);
    NamedAfter(t, 1, 1);
    NamedAfter(t, 2, 2);
    SingleName(t, 2, 2);
  }

  /** A location without a line before one whose names range from 1 to `last`. */
  lemma NamedAfter(t: Tables, loc: nat, last: nat)
    requires Closed(t) && NameIdsAt(t, 0) == {} && IsLeast(NameIdsAt(t, loc), 1) && IsGreatest(NameIdsAt(t, loc), last)
    ensures 1 < |t.strings| && last < |t.strings| && ColumnNames(t, {0, loc}, [0, loc]) == Some([t.strings[1], t.strings[last]])
  {
    hide Closed, NameIdsAt;
    var used := {0, loc};
    assert UsedNames(t, used) == NameIdsAt(t, loc);
    assert NameIdOf(t, used, 0) == 1 && NameIdOf(t, used, loc) == last;
    assert ColumnNames(t, used, [0, loc]).value == [t.strings[1], t.strings[last]];
  }

  lemma SingleName(t: Tables, loc: nat, last: nat)
    requires Closed(t) && IsGreatest(NameIdsAt(t, loc), last)
    ensures last < |t.strings| && ColumnNames(t, {loc}, [loc]) == Some([t.strings[last]])
  {
    hide Closed, NameIdsAt;
    assert UsedNames(t, {loc}) == NameIdsAt(t, loc);
    assert NameIdOf(t, {loc}, loc) == last;
    assert ColumnNames(t, {loc}, [loc]).value == [t.strings[last]];
  }

  lemma NamesOfOne(t: Tables, a: nat)
    requires Closed(t) && a < |t.locations|
    ensures Names(t, [a]) == LineNames(t, t.locations[a].lines)
  {
    assert [a][..0] == [];
  }

  lemma NamesOfTwo(t: Tables, a: nat, b: nat)
    requires Closed(t) && a < |t.locations| && b < |t.locations|
    ensures Names(t, [a, b]) == LineNames(t, t.locations[a].lines) + LineNames(t, t.locations[b].lines)
  {
    NamesOfOne(t, a);
    assert [a, b][..1] == [a];
  }
}
