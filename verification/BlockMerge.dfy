/** `singleBlockQuerier.MergeByStacktraces` on the columns of a block, next to the head on the same
    profiles: what the iterators over the columns hand out, piece by piece, comes to the same
    samples and stacktraces as are stored. */
module BlockMerge {
  import opened Sequences
  import opened Symbolization
  import R = RepeatedPages

  // ----- what the columns hold -----

  function Data(vs: seq<R.Value>): (r: seq<int>)
    ensures |r| == |vs| && forall i :: 0 <= i < |vs| ==> r[i] == vs[i].datum
  {
    seq(|vs|, i requires 0 <= i < |vs| => vs[i].datum)
  }

  /** A column has one row for each list, with its values. */
  ghost predicate Stores(column: seq<R.RowGroup>, lists: seq<seq<int>>) {
    && R.WellFormed(column) && |R.AllRows(column)| == |lists|
    && forall r :: 0 <= r < |lists| ==> Data(R.AllRows(column)[r]) == lists[r]
  }

  function StacktraceIds(row: seq<Sample>): (r: seq<int>)
    ensures |r| == |row| && forall i :: 0 <= i < |row| ==> r[i] == row[i].stacktraceId
  {
    seq(|row|, i requires 0 <= i < |row| => row[i].stacktraceId)
  }

  function SampleValues(row: seq<Sample>): (r: seq<int>)
    ensures |r| == |row| && forall i :: 0 <= i < |row| ==> r[i] == row[i].value
  {
    seq(|row|, i requires 0 <= i < |row| => row[i].value)
  }

  function Ints(s: seq<nat>): (r: seq<int>)
    ensures |r| == |s| && forall i :: 0 <= i < |s| ==> r[i] == s[i]
  {
    s
  }

  /** The two columns of samples and the column of location ids, as they are written: the columns of
      samples are cut into pages alike. */
  ghost predicate Written(t: Tables, profiles: seq<seq<Sample>>, ids: seq<R.RowGroup>, values: seq<R.RowGroup>, stacks: seq<R.RowGroup>) {
    && Stores(ids, seq(|profiles|, r requires 0 <= r < |profiles| => StacktraceIds(ColumnSamples(profiles[r]))))
    && Stores(values, seq(|profiles|, r requires 0 <= r < |profiles| => SampleValues(ColumnSamples(profiles[r]))))
    && R.SameShape(ids, values)
    && Stores(stacks, seq(|t.stacktraces|, r requires 0 <= r < |t.stacktraces| => Ints(Column(t.stacktraces[r]))))
  }

  /** Row numbers of profiles, in ascending order. */
  ghost predicate RowsOf(profiles: seq<seq<Sample>>, rows: seq<int>) {
    R.StrictlyAscending(rows) && forall k :: 0 <= k < |rows| ==> 0 <= rows[k] < |profiles|
  }

  function Select(profiles: seq<seq<Sample>>, rows: seq<int>): (r: seq<seq<Sample>>)
    requires RowsOf(profiles, rows)
    ensures |r| == |rows| && forall k :: 0 <= k < |rows| ==> r[k] == profiles[rows[k]]
  {
    seq(|rows|, k requires 0 <= k < |rows| => profiles[rows[k]])
  }

  // ----- samples -----

  /** An id as a column holds it; ids are not negative. */
  function AsId(v: R.Value): nat {
    if v.datum < 0 then 0 else v.datum
  }

  function AsSamples(ids: seq<R.Value>, values: seq<R.Value>): (r: seq<Sample>)
    requires |ids| == |values|
    ensures |r| == |ids| && forall i :: 0 <= i < |ids| ==> r[i] == Sample(AsId(ids[i]), values[i].datum)
  {
    seq(|ids|, i requires 0 <= i < |ids| => Sample(AsId(ids[i]), values[i].datum))
  }

  /** The samples of chunks read together. */
  ghost function SamplesOf(cs: seq<R.Chunk>, cs': seq<R.Chunk>): seq<Sample>
    requires R.Aligned(cs, cs')
  {
    if cs == [] then [] else AsSamples(cs[0].values, cs'[0].values) + SamplesOf(cs[1..], cs'[1..])
  }

  /** `multiRepeatedPageIterator`: both iterators move on together. */
  method DrainSamples(ids: R.RepeatedPageIterator, values: R.RepeatedPageIterator, ghost cs: seq<R.Chunk>, ghost cs': seq<R.Chunk>)
    returns (chunks: seq<seq<Sample>>)
    requires ids != values && ids.Valid() && values.Valid() && R.Aligned(cs, cs')
    requires ids.Pending() == cs && values.Pending() == cs'
    modifies ids, values
    ensures Flatten(chunks) == SamplesOf(cs, cs')
  {
    hide Flatten;
    chunks := [];
    FlattenNone<Sample>();
    ghost var left, left' := cs, cs';
    while true
      invariant ids.Valid() && values.Valid() && R.Aligned(left, left')
      invariant ids.Pending() == left && values.Pending() == left'
      invariant SamplesOf(cs, cs') == Flatten(chunks) + SamplesOf(left, left')
      decreases |left|
    {
      var more := ids.Next();
      var more' := values.Next();
      if !more || !more' {
        assert left == [];
        break;
      }
      assert left[0] == ids.currentValue && left'[0] == values.currentValue;
      assert left[1..] == ids.Pending() && left'[1..] == values.Pending();
      var row := AsSamples(ids.currentValue.values, values.currentValue.values);
      FlattenMore(chunks, row);
      SeqAssociative(Flatten(chunks), row, SamplesOf(left[1..], left'[1..]));
      chunks := chunks + [row];
      left, left' := left[1..], left'[1..];
    }
  }

  lemma {:induction false} SamplesConcat(a: seq<R.Chunk>, a': seq<R.Chunk>, b: seq<R.Chunk>, b': seq<R.Chunk>)
    requires R.Aligned(a, a') && R.Aligned(b, b')
    ensures R.Aligned(a + b, a' + b') && SamplesOf(a + b, a' + b') == SamplesOf(a, a') + SamplesOf(b, b')
  {
    R.AlignedConcat(a, b, a', b');
    if a == [] {
      assert a + b == b && a' + b' == b';
    } else {
      AlignedRest(a, a');
      AlignedRest(a + b, a' + b');
      hide R.Aligned, AsSamples;
      FirstOfTwo(a, b);
      FirstOfTwo(a', b');
      SamplesConcat(a[1..], a'[1..], b, b');
    }
  }

  lemma AlignedRest(a: seq<R.Chunk>, a': seq<R.Chunk>)
    requires R.Aligned(a, a') && a != []
    ensures a' != [] && R.Aligned(a[1..], a'[1..]) && |a[0].values| == |a'[0].values|
  {
  }

  lemma FirstOfTwo<T>(a: seq<T>, b: seq<T>)
    requires a != []
    ensures (a + b)[0] == a[0] && (a + b)[1..] == a[1..] + b
  {
  }

  /** Chunks in the order of rows: those of the first row come first. */
  lemma {:induction false} FirstRow(cs: seq<R.Chunk>, r: int) returns (n: nat)
    requires R.InRowOrder(cs) && forall i :: 0 <= i < |cs| ==> cs[i].row >= r
    ensures n <= |cs| && (forall i :: 0 <= i < n ==> cs[i].row == r) && (forall i :: n <= i < |cs| ==> cs[i].row > r)
  {
    if cs == [] || cs[0].row > r {
      n := 0;
    } else {
      n := FirstRow(cs[1..], r);
      n := n + 1;
    }
  }

  lemma {:induction false} OnlyRow(cs: seq<R.Chunk>, cs': seq<R.Chunk>, r: int)
    requires R.Aligned(cs, cs') && forall i :: 0 <= i < |cs| ==> cs[i].row == r
    ensures |R.Collect(cs, r)| == |R.Collect(cs', r)| && SamplesOf(cs, cs') == AsSamples(R.Collect(cs, r), R.Collect(cs', r))
  {
    if cs != [] {
      OnlyRow(cs[1..], cs'[1..], r);
    }
  }

  lemma {:induction false} NotRow(cs: seq<R.Chunk>, r: int)
    requires forall i :: 0 <= i < |cs| ==> cs[i].row != r
    ensures R.Collect(cs, r) == []
  {
    if cs != [] {
      NotRow(cs[1..], r);
    }
  }

  /** Chunks of other rows make no difference. */
  lemma CollectBeside(a: seq<R.Chunk>, b: seq<R.Chunk>, r: int)
    ensures (forall i :: 0 <= i < |a| ==> a[i].row != r) ==> R.Collect(a + b, r) == R.Collect(b, r)
    ensures (forall i :: 0 <= i < |b| ==> b[i].row != r) ==> R.Collect(a + b, r) == R.Collect(a, r)
  {
    R.CollectConcat(a, b, r);
    hide R.Collect;
    if forall i :: 0 <= i < |a| ==> a[i].row != r {
      NotRow(a, r);
      assert [] + R.Collect(b, r) == R.Collect(b, r);
    }
    if forall i :: 0 <= i < |b| ==> b[i].row != r {
      NotRow(b, r);
      assert R.Collect(a, r) + [] == R.Collect(a, r);
    }
  }

  /** Row by row, the samples collected. */
  ghost function ByRow(cs: seq<R.Chunk>, cs': seq<R.Chunk>, rows: seq<int>): seq<Sample>
    requires R.Aligned(cs, cs')
  {
    if rows == [] then []
    else
      R.CollectPairsIsZip(cs, cs', rows[0]);
      AsSamples(R.Collect(cs, rows[0]), R.Collect(cs', rows[0])) + ByRow(cs, cs', rows[1..])
  }

  lemma {:induction false} ByRowLater(a: seq<R.Chunk>, a': seq<R.Chunk>, b: seq<R.Chunk>, b': seq<R.Chunk>, rows: seq<int>)
    requires R.Aligned(a, a') && R.Aligned(b, b') && forall i, k :: 0 <= i < |a| && 0 <= k < |rows| ==> a[i].row != rows[k]
    ensures R.Aligned(a + b, a' + b') && ByRow(a + b, a' + b', rows) == ByRow(b, b', rows)
  {
    R.AlignedConcat(a, b, a', b');
    if rows != [] {
      ByRowLater(a, a', b, b', rows[1..]);
      CollectBeside(a, b, rows[0]);
      CollectBeside(a', b', rows[0]);
      hide R.Collect, AsSamples, R.Aligned;
      R.CollectPairsIsZip(b, b', rows[0]);
    }
  }

  lemma RowFirst(a: seq<R.Chunk>, a': seq<R.Chunk>, b: seq<R.Chunk>, b': seq<R.Chunk>, r: int)
    requires R.Aligned(a, a') && R.Aligned(b, b')
    requires (forall i :: 0 <= i < |a| ==> a[i].row == r) && (forall i :: 0 <= i < |b| ==> b[i].row != r)
    ensures R.Aligned(a + b, a' + b') && |R.Collect(a + b, r)| == |R.Collect(a' + b', r)|
    ensures SamplesOf(a + b, a' + b') == AsSamples(R.Collect(a + b, r), R.Collect(a' + b', r)) + SamplesOf(b, b')
  {
    R.AlignedConcat(a, b, a', b');
    assert forall i :: 0 <= i < |b'| ==> b'[i].row == b[i].row;
    assert forall i :: 0 <= i < |a'| ==> a'[i].row == a[i].row;
    hide R.Collect, AsSamples, SamplesOf, R.Aligned;
    SamplesConcat(a, a', b, b');
    OnlyRow(a, a', r);
    CollectBeside(a, b, r);
    CollectBeside(a', b', r);
  }

  lemma RestInOrder(cs: seq<R.Chunk>, rows: seq<int>, n: nat)
    requires R.InRowOrder(cs) && R.StrictlyAscending(rows) && rows != [] && n <= |cs|
    requires (forall i :: 0 <= i < |cs| ==> cs[i].row in rows) && (forall i :: n <= i < |cs| ==> cs[i].row > rows[0])
    ensures R.InRowOrder(cs[n..]) && R.StrictlyAscending(rows[1..])
    ensures forall i :: 0 <= i < |cs[n..]| ==> cs[n..][i].row in rows[1..]
  {
    assert rows == [rows[0]] + rows[1..];
  }

  /** The samples come out row by row. */
  lemma {:induction false} SamplesByRow(cs: seq<R.Chunk>, cs': seq<R.Chunk>, rows: seq<int>)
    requires R.Aligned(cs, cs') && R.InRowOrder(cs) && R.StrictlyAscending(rows) && forall i :: 0 <= i < |cs| ==> cs[i].row in rows
    ensures SamplesOf(cs, cs') == ByRow(cs, cs', rows)
    decreases |rows|
  {
    if rows != [] {
      forall i | 0 <= i < |cs| ensures cs[i].row >= rows[0] {
        assert cs[i].row in rows;
      }
      var n := FirstRow(cs, rows[0]);
      var a, a', b, b' := cs[..n], cs'[..n], cs[n..], cs'[n..];
      assert cs == a + b && cs' == a' + b';
      RestInOrder(cs, rows, n);
      hide SamplesOf, R.InRowOrder, R.Collect, AsSamples;
      RowFirst(a, a', b, b', rows[0]);
      SamplesByRow(b, b', rows[1..]);
      ByRowLater(a, a', b, b', rows[1..]);
    }
  }

  // ----- the samples of the rows -----

  /** Read back from its two columns, a row gives its samples. */
  lemma RowReadBack(row: seq<Sample>, ids: seq<R.Value>, values: seq<R.Value>)
    requires Data(ids) == StacktraceIds(row) && Data(values) == SampleValues(row)
    ensures |ids| == |values| && AsSamples(ids, values) == row
  {
    forall i | 0 <= i < |row| ensures ids[i].datum == row[i].stacktraceId && values[i].datum == row[i].value {
      assert Data(ids)[i] == StacktraceIds(row)[i] && Data(values)[i] == SampleValues(row)[i];
    }
    assert |Data(ids)| == |row| && |Data(values)| == |row|;
  }

  lemma {:induction false} ByRowReads(cs: seq<R.Chunk>, cs': seq<R.Chunk>, rows: seq<int>, lists: seq<seq<Sample>>)
    requires R.Aligned(cs, cs') && |lists| == |rows|
    requires forall k :: 0 <= k < |rows| ==> Data(R.Collect(cs, rows[k])) == StacktraceIds(ColumnSamples(lists[k]))
    requires forall k :: 0 <= k < |rows| ==> Data(R.Collect(cs', rows[k])) == SampleValues(ColumnSamples(lists[k]))
    ensures ByRow(cs, cs', rows) == ReadSamples(lists)
  {
    if rows != [] {
      RowReadBack(ColumnSamples(lists[0]), R.Collect(cs, rows[0]), R.Collect(cs', rows[0]));
      ByRowReads(cs, cs', rows[1..], lists[1..]);
    }
  }

  lemma NothingAsked(column: seq<R.RowGroup>, rows: seq<int>, readSize: nat)
    requires R.WellFormed(column) && readSize > 0 && R.StrictlyAscending(rows) && forall k :: 0 <= k < |rows| ==> rows[k] >= 0
    ensures R.Requested(column, 0, rows, readSize)
  {
  }

  /** Whatever the cuts, the two columns of samples give the samples of the rows asked for. */
  lemma SamplesRead(t: Tables, profiles: seq<seq<Sample>>, rows: seq<int>, ids: seq<R.RowGroup>, values: seq<R.RowGroup>,
                    stacks: seq<R.RowGroup>, readSize: nat)
    requires Written(t, profiles, ids, values, stacks) && RowsOf(profiles, rows) && readSize > 0
    ensures R.Requested(ids, 0, rows, readSize) && R.Requested(values, 0, rows, readSize)
    ensures
      var cs, cs' := R.Chunks(ids, 0, rows, readSize, None, 0), R.Chunks(values, 0, rows, readSize, None, 0);
      R.Aligned(cs, cs') && SamplesOf(cs, cs') == ReadSamples(Select(profiles, rows))
  {
    hide R.WellFormed, R.AllRows, R.Chunks, R.Collect, R.SameShape, R.Aligned;
    NothingAsked(ids, rows, readSize);
    NothingAsked(values, rows, readSize);
    var cs, cs' := R.Chunks(ids, 0, rows, readSize, None, 0), R.Chunks(values, 0, rows, readSize, None, 0);
    R.Lockstep(ids, values, 0, rows, readSize, None, None, 0);
    R.ChunksInOrder(ids, 0, rows, readSize, None, 0);
    assert forall i :: 0 <= i < |cs| ==> cs[i] in cs;
    SamplesByRow(cs, cs', rows);
    var lists := Select(profiles, rows);
    forall k | 0 <= k < |rows|
      ensures Data(R.Collect(cs, rows[k])) == StacktraceIds(ColumnSamples(lists[k]))
      ensures Data(R.Collect(cs', rows[k])) == SampleValues(ColumnSamples(lists[k]))
    {
      R.RowsReassembled(ids, rows, readSize, rows[k]);
      R.RowsReassembled(values, rows, readSize, rows[k]);
    }
    ByRowReads(cs, cs', rows, lists);
  }

  // ----- stacktraces -----

  function AsIds(vs: seq<R.Value>): (r: seq<nat>)
    ensures |r| == |vs| && forall i :: 0 <= i < |vs| ==> r[i] == AsId(vs[i])
  {
    seq(|vs|, i requires 0 <= i < |vs| => AsId(vs[i]))
  }

  /** Pieces of stacktraces, from pieces of the column. */
  ghost function StackChunks(cs: seq<R.Chunk>): (r: seq<Chunk>)
    requires forall i :: 0 <= i < |cs| ==> cs[i].row >= 0
    ensures |r| == |cs| && forall i :: 0 <= i < |cs| ==> r[i] == Chunk(cs[i].row, AsIds(cs[i].values))
  {
    seq(|cs|, i requires 0 <= i < |cs| => Chunk(cs[i].row, AsIds(cs[i].values)))
  }

  method DrainStacks(it: R.RepeatedPageIterator, ghost cs: seq<R.Chunk>) returns (chunks: seq<Chunk>)
    requires it.Valid() && it.Pending() == cs && forall i :: 0 <= i < |cs| ==> cs[i].row >= 0
    modifies it
    ensures chunks == StackChunks(cs)
  {
    hide AsIds;
    chunks := [];
    ghost var n := 0;
    while true
      invariant it.Valid() && n <= |cs| && it.Pending() == cs[n..]
      invariant |chunks| == n && forall i :: 0 <= i < n ==> chunks[i] == Chunk(cs[i].row, AsIds(cs[i].values))
      decreases |cs| - n
    {
      var more := it.Next();
      if !more {
        assert n == |cs|;
        break;
      }
      assert cs[n..][0] == it.currentValue && cs[n..][1..] == it.Pending();
      assert cs[n] == it.currentValue && cs[n + 1..] == cs[n..][1..];
      chunks := chunks + [Chunk(it.currentValue.row, AsIds(it.currentValue.values))];
      n := n + 1;
    }
  }

  lemma {:induction false} GatheredIsCollected(cs: seq<R.Chunk>, id: nat)
    requires forall i :: 0 <= i < |cs| ==> cs[i].row >= 0
    ensures Gathered(StackChunks(cs), id) == AsIds(R.Collect(cs, id))
  {
    if cs != [] {
      hide *;
      var front, last := cs[..|cs| - 1], cs[|cs| - 1];
      assert cs == front + [last];
      GatheredIsCollected(front, id);
      R.CollectConcat(front, [last], id);
      CollectOne(last, id);
      StackChunksMore(front, last);
      GatheredMore(StackChunks(front), Chunk(last.row, AsIds(last.values)), id);
      AsIdsConcat(R.Collect(front, id), last.values);
      assert R.Collect(front, id) + [] == R.Collect(front, id);
    }
  }

  lemma StackChunksMore(front: seq<R.Chunk>, last: R.Chunk)
    requires last.row >= 0 && forall i :: 0 <= i < |front| ==> front[i].row >= 0
    ensures StackChunks(front + [last]) == StackChunks(front) + [Chunk(last.row, AsIds(last.values))]
  {
    hide AsIds;
  }

  lemma AsIdsConcat(a: seq<R.Value>, b: seq<R.Value>)
    ensures AsIds(a + b) == AsIds(a) + AsIds(b)
  {
  }

  lemma CollectOne(c: R.Chunk, id: int)
    ensures R.Collect([c], id) == if c.row == id then c.values else []
  {
    assert [c][1..] == [];
  }

  /** Whatever the cuts, the column of stacktraces delivers each of them whole. */
  lemma StacksRead(t: Tables, column: seq<R.RowGroup>, ids: seq<int>, readSize: nat, wanted: set<nat>)
    requires Stores(column, seq(|t.stacktraces|, r requires 0 <= r < |t.stacktraces| => Ints(Column(t.stacktraces[r]))))
    requires readSize > 0 && Lists(ids, wanted) && forall id :: id in wanted ==> id < |Stacks(t)|
    ensures R.Requested(column, 0, ids, readSize)
    ensures
      var cs := R.Chunks(column, 0, ids, readSize, None, 0);
      (forall i :: 0 <= i < |cs| ==> cs[i].row >= 0) && Delivers(t, StackChunks(cs), wanted)
  {
    hide R.WellFormed, R.AllRows, R.Chunks, R.Collect, Stacks, Column, Gathered;
    NothingAsked(column, ids, readSize);
    var cs := R.Chunks(column, 0, ids, readSize, None, 0);
    R.ChunksInOrder(column, 0, ids, readSize, None, 0);
    forall i | 0 <= i < |cs| ensures cs[i].row in wanted {
      assert cs[i] in cs;
    }
    forall id | id in wanted ensures Gathered(StackChunks(cs), id) == ReadColumn(t, id) {
      GatheredIsCollected(cs, id);
      R.RowsReassembled(column, ids, readSize, id);
      if id < |t.stacktraces| {
        IdsReadBack(Column(t.stacktraces[id]), R.AllRows(column)[id]);
      }
    }
  }

  lemma IdsReadBack(locs: seq<nat>, vs: seq<R.Value>)
    requires Data(vs) == Ints(locs)
    ensures AsIds(vs) == locs
  {
    forall i | 0 <= i < |vs| ensures AsId(vs[i]) == locs[i] {
      assert Data(vs)[i] == Ints(locs)[i];
    }
    assert |Data(vs)| == |Ints(locs)|;
  }

  // ----- the whole merge -----

  /** The samples of all profiles refer to stacktraces of the table. */
  ghost predicate AllKnown(t: Tables, profiles: seq<seq<Sample>>) {
    forall r :: 0 <= r < |profiles| ==> Known(|t.stacktraces|, profiles[r])
  }

  lemma {:induction false} SelectedKnown(t: Tables, lists: seq<seq<Sample>>)
    requires AllKnown(t, lists)
    ensures Known(|t.stacktraces|, Flatten(lists)) && forall id :: id in Sampled(ReadSamples(lists)) ==> id < |Stacks(t)|
  {
    if lists != [] {
      SelectedKnown(t, lists[1..]);
      assert Known(|t.stacktraces|, lists[0]);
      KnownConcat(|t.stacktraces|, lists[0], Flatten(lists[1..]));
      var a: seq<Sample>, b: seq<Sample> := ColumnSamples(lists[0]), ReadSamples(lists[1..]);
      forall i | 0 <= i < |a + b| ensures (a + b)[i].stacktraceId < |Stacks(t)| {
        if i >= |a| {
          assert (a + b)[i] == b[i - |a|];
          assert b[i - |a|].stacktraceId in Sampled(b);
        }
      }
    }
  }

  /** `singleBlockQuerier.MergeByStacktraces`: samples summed from their columns, and the stacktraces
      among them read from theirs and named. */
  method MergeByStacktracesBlock(t: Tables, rows: seq<int>, ids: seq<R.RowGroup>, values: seq<R.RowGroup>, stacks: seq<R.RowGroup>,
                                 readSize: nat, ghost profiles: seq<seq<Sample>>)
    returns (m: Merged)
    requires Closed(t) && AllKnown(t, profiles) && RowsOf(profiles, rows) && readSize > 0
    requires Written(t, profiles, ids, values, stacks)
    ensures
      var samples := ReadSamples(Select(profiles, rows));
      m.values == Aggregate(samples, false) && Symbolized(BlockNames(t, Read(t, Sampled(samples))), m)
  {
    hide Closed, Stores, R.SameShape, R.Chunks, SamplesOf, StackChunks, Aggregate, Symbolized, Delivers, Stacks, ReadSamples, Select;
    ghost var lists := Select(profiles, rows);
    SelectIsKnown(t, profiles, rows);
    SelectedKnown(t, lists);
    SamplesRead(t, profiles, rows, ids, values, stacks, readSize);
    ghost var cs, cs' := R.Chunks(ids, 0, rows, readSize, None, 0), R.Chunks(values, 0, rows, readSize, None, 0);
    var idIterator := new R.RepeatedPageIterator(rows, ids, readSize);
    var valueIterator := new R.RepeatedPageIterator(rows, values, readSize);
    var chunks := DrainSamples(idIterator, valueIterator, cs, cs');
    var sums := SumByStacktrace(chunks);
    AggregateKeys(ReadSamples(lists));
    var wanted := AscendingIds(sums.Keys);
    StacksRead(t, stacks, wanted, readSize, sums.Keys);
    var stackIterator := new R.RepeatedPageIterator(wanted, stacks, readSize);
    var stackChunks := DrainStacks(stackIterator, R.Chunks(stacks, 0, wanted, readSize, None, 0));
    m := ResolveSymbols(t, sums, stackChunks);
  }

  lemma SelectIsKnown(t: Tables, profiles: seq<seq<Sample>>, rows: seq<int>)
    requires AllKnown(t, profiles) && RowsOf(profiles, rows)
    ensures AllKnown(t, Select(profiles, rows))
  {
  }

  /** The samples that have a value have locations of one line each. */
  ghost predicate SingleLines(t: Tables, samples: seq<Sample>) {
    forall s: Sample :: s in samples && s.value != 0 ==>
      s.stacktraceId < |t.stacktraces| && OneLine(t, t.stacktraces[s.stacktraceId])
  }

  /** Head and block on the same profiles.  Where the samples that have a value have locations of one
      line each, the two denote the same map from name stacks to values exactly when the samples
      without locations cancel out. */
  method MergeBothWays(t: Tables, rows: seq<int>, ids: seq<R.RowGroup>, values: seq<R.RowGroup>, stacks: seq<R.RowGroup>,
                       readSize: nat, profiles: seq<seq<Sample>>)
    returns (head: Merged, block: Merged)
    requires Closed(t) && AllKnown(t, profiles) && RowsOf(profiles, rows) && readSize > 0
    requires Written(t, profiles, ids, values, stacks)
    ensures
      var samples := Flatten(Select(profiles, rows));
      && Symbolized(HeadNames(t), head)
      && Symbolized(BlockNames(t, Read(t, Sampled(ReadSamples(Select(profiles, rows))))), block)
      && (SingleLines(t, samples) ==>
            ((forall stack :: ValueOf(head, stack, |Stacks(t)|) == ValueOf(block, stack, |Stacks(t)|))
              <==> EmptySum(t, samples) == 0))
  {
    hide Closed, Written, Flatten, Aggregate, Symbolized, ReadSamples, EmptySum, ValueOf, SingleLines, Read, Stacks;
    var lists := Select(profiles, rows);
    SelectIsKnown(t, profiles, rows);
    SelectedKnown(t, lists);
    head := MergeByStacktracesHead(t, lists);
    block := MergeByStacktracesBlock(t, rows, ids, values, stacks, readSize, profiles);
    ghost var used := Read(t, Sampled(ReadSamples(lists)));
    if SingleLines(t, Flatten(lists)) {
      OneLineRead(t, lists);
      SameMeaningExactly(t, used, lists, head, block);
    }
  }

  /** What has a value is read. */
  lemma OneLineRead(t: Tables, lists: seq<seq<Sample>>)
    requires SingleLines(t, Flatten(lists))
    ensures OneLineSamples(t, Read(t, Sampled(ReadSamples(lists))), Flatten(lists))
  {
    hide OneLine, Column, ReadSamples, Flatten;
    var read := ReadSamples(lists);
    forall s | s in Flatten(lists) && s.value != 0 ensures OneLineStack(t, Read(t, Sampled(read)), s.stacktraceId) {
      IsRead(lists, s);
      var i :| 0 <= i < |read| && read[i] == s;
      assert s.stacktraceId in Sampled(read);
      forall l | l in Column(t.stacktraces[s.stacktraceId]) ensures l in Read(t, Sampled(read)) {
        assert l in ReadColumn(t, s.stacktraceId);
      }
    }
  }

  lemma {:induction false} IsRead(lists: seq<seq<Sample>>, s: Sample)
    requires s in Flatten(lists)
    ensures s in ReadSamples(lists)
  {
    if s !in lists[0] {
      IsRead(lists[1..], s);
    }
  }
}
