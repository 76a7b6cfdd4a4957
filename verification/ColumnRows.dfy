/** What a column iterator gives, told from the values of the column alone: the positions of the
    values that are kept, and for each the number of its row, counted from the repetition levels. */
module ColumnRows {
  import opened RowNumbers
  import opened Iterators
  import opened Sequences
  import opened ColumnIterator

  /** The values after `p` and up to `k` that repeat at `level`. */
  ghost function Repeated(vs: seq<Value>, level: nat, p: int, k: int): set<int> {
    set j | p < j <= k && 0 <= j < |vs| && vs[j].repetitionLevel == level
  }

  /** `p` is the last value up to `k` that repeats above `level`, or -1. */
  ghost predicate ParentAt(vs: seq<Value>, level: nat, k: int, p: int) {
    && -1 <= p <= k < |vs|
    && (p >= 0 ==> vs[p].repetitionLevel < level)
    && (forall j :: p < j <= k ==> vs[j].repetitionLevel >= level)
  }

  /** Whether the value at `p` is defined at `level`; nothing is before the first value. */
  ghost predicate Defined(vs: seq<Value>, level: nat, p: int) {
    0 <= p < |vs| && level <= vs[p].definitionLevel
  }

  /** `n` counts what has repeated at `level` within the parent; what its first value has begun is number 0. */
  ghost predicate Counts(vs: seq<Value>, level: nat, k: int, n: int) {
    exists p :: ParentAt(vs, level, k, p) && n == |Repeated(vs, level, p, k)| - (if Defined(vs, level, p) then 0 else 1)
  }

  /** `row` is the number of the row of the value at `k`. */
  ghost predicate IsRow(vs: seq<Value>, k: int, row: RowNumber) {
    forall level :: 0 <= level < 6 ==> Counts(vs, level, k, row[level])
  }

  lemma {:induction false} AfterMore(rn: RowNumber, vs: seq<Value>, v: Value)
    ensures After(rn, vs + [v]) == NextRow(After(rn, vs), v.repetitionLevel, v.definitionLevel)
    decreases |vs|
  {
    if vs == [] {
      assert ([] + [v])[0] == v && ([] + [v])[1..] == [];
    } else {
      assert (vs + [v])[0] == vs[0] && (vs + [v])[1..] == vs[1..] + [v];
      AfterMore(NextRow(rn, vs[0].repetitionLevel, vs[0].definitionLevel), vs[1..], v);
    }
  }

  /** The row number after the value at `k`. */
  function RowAt(vs: seq<Value>, k: int): RowNumber
    requires -1 <= k < |vs|
  {
    After(EmptyRowNumber(), vs[..k + 1])
  }

  lemma CountsNext(vs: seq<Value>, level: nat, k: nat, n: int)
    requires k < |vs| && Counts(vs, level, k - 1, n)
    ensures level < vs[k].repetitionLevel ==> Counts(vs, level, k, n)
    ensures level == vs[k].repetitionLevel ==> Counts(vs, level, k, n + 1)
    ensures level > vs[k].repetitionLevel ==> Counts(vs, level, k, if level <= vs[k].definitionLevel then 0 else -1)
  {
    if level > vs[k].repetitionLevel {
      assert ParentAt(vs, level, k, k) && Repeated(vs, level, k, k) == {};
    } else {
      var p :| ParentAt(vs, level, k - 1, p) && n == |Repeated(vs, level, p, k - 1)| - (if Defined(vs, level, p) then 0 else 1);
      assert ParentAt(vs, level, k, p);
      hide ParentAt, Defined;
      if level == vs[k].repetitionLevel {
        assert Repeated(vs, level, p, k) == Repeated(vs, level, p, k - 1) + {k};
      } else {
        assert Repeated(vs, level, p, k) == Repeated(vs, level, p, k - 1);
      }
    }
  }

  /** Every number of the scan counts the values. */
  lemma {:induction false} RowCounts(vs: seq<Value>, k: int)
    requires -1 <= k < |vs|
    ensures IsRow(vs, k, RowAt(vs, k))
    decreases k + 1
  {
    if k == -1 {
      forall level | 0 <= level < 6
        ensures Counts(vs, level, -1, RowAt(vs, -1)[level])
      {
        assert ParentAt(vs, level, -1, -1) && Repeated(vs, level, -1, -1) == {};
      }
    } else {
      RowCounts(vs, k - 1);
      assert vs[..k + 1] == vs[..k] + [vs[k]];
      AfterMore(EmptyRowNumber(), vs[..k], vs[k]);
      hide Counts, After;
      forall level | 0 <= level < 6
        ensures Counts(vs, level, k, RowAt(vs, k)[level])
      {
        CountsNext(vs, level, k, RowAt(vs, k - 1)[level]);
      }
    }
  }

  // ----- nested values -----

  /** A value repeats at a level where the value before it is defined. */
  ghost predicate WellNested(vs: seq<Value>) {
    && (vs != [] ==> vs[0].repetitionLevel == 0)
    && (forall k :: 0 < k < |vs| ==> vs[k].repetitionLevel <= vs[k - 1].definitionLevel)
  }

  /** The counter of a nested value: undefined beyond its definition level, and up to there the rank
      among what has repeated at the level within the parent. */
  ghost predicate Ranks(vs: seq<Value>, level: nat, k: nat, n: int)
    requires k < |vs|
  {
    if level > vs[k].definitionLevel then n == -1
    else exists p :: ParentAt(vs, level, k, p) && n == |Repeated(vs, level, p, k)| - (if level == 0 then 1 else 0)
  }

  ghost predicate RanksRow(vs: seq<Value>, k: nat, row: RowNumber)
    requires k < |vs|
  {
    forall level :: 0 <= level < 6 ==> Ranks(vs, level, k, row[level])
  }

  lemma RanksNested(vs: seq<Value>, level: nat, k: nat, n: int)
    requires k < |vs| && WellNested(vs) && Counts(vs, level, k, n)
    ensures Ranks(vs, level, k, n)
  {
    var p :| ParentAt(vs, level, k, p) && n == |Repeated(vs, level, p, k)| - (if Defined(vs, level, p) then 0 else 1);
    if level > vs[k].definitionLevel {
      assert p == k && Repeated(vs, level, k, k) == {};
    } else if p < k {
      assert vs[p + 1].repetitionLevel >= level;
    }
  }

  lemma BadlyNested(vs: seq<Value>, k: nat, n: int)
    requires k < |vs| && vs[k].repetitionLevel > (if k == 0 then 0 else vs[k - 1].definitionLevel)
    requires Counts(vs, vs[k].repetitionLevel, k, n)
    ensures !Ranks(vs, vs[k].repetitionLevel, k, n)
  {
    var level := vs[k].repetitionLevel;
    assert ParentAt(vs, level, k, k - 1);
    var p :| ParentAt(vs, level, k, p) && n == |Repeated(vs, level, p, k)| - (if Defined(vs, level, p) then 0 else 1);
    assert p == k - 1;
  }

  /** The numbers are ranks exactly if the values are nested. */
  lemma NumbersRank(vs: seq<Value>)
    ensures WellNested(vs) <==> forall k :: 0 <= k < |vs| ==> RanksRow(vs, k, RowAt(vs, k))
  {
    hide Counts, Ranks, RowAt;
    if WellNested(vs) {
      forall k | 0 <= k < |vs|
        ensures RanksRow(vs, k, RowAt(vs, k))
      {
        RowCounts(vs, k);
        forall level | 0 <= level < 6
          ensures Ranks(vs, level, k, RowAt(vs, k)[level])
        {
          RanksNested(vs, level, k, RowAt(vs, k)[level]);
        }
      }
    } else {
      var k :| 0 <= k < |vs| && vs[k].repetitionLevel > (if k == 0 then 0 else vs[k - 1].definitionLevel);
      RowCounts(vs, k);
      BadlyNested(vs, k, RowAt(vs, k)[vs[k].repetitionLevel]);
      assert !RanksRow(vs, k, RowAt(vs, k));
    }
  }

  /** The table of the Dremel paper. */
  lemma PaperTable(f: Predicate)
    requires forall v: Value :: f.keepValue(v)
    ensures var vs := [Value(0, 3, 0), Value(2, 2, 1), Value(1, 1, 2), Value(1, 3, 3), Value(0, 1, 4)];
      Scan(f, EmptyRowNumber(), vs) == [
        Result([0, 0, 0, 0, -1, -1], [0]),
        Result([0, 0, 1, -1, -1, -1], [1]),
        Result([0, 1, -1, -1, -1, -1], [2]),
        Result([0, 2, 0, 0, -1, -1], [3]),
        Result([1, 0, -1, -1, -1, -1], [4])]
  {
    var vs: seq<Value> := [Value(0, 3, 0), Value(2, 2, 1), Value(1, 1, 2), Value(1, 3, 3), Value(0, 1, 4)];
    var rows: seq<RowNumber> := [EmptyRowNumber(), [0, 0, 0, 0, -1, -1], [0, 0, 1, -1, -1, -1], [0, 1, -1, -1, -1, -1],
      [0, 2, 0, 0, -1, -1], [1, 0, -1, -1, -1, -1]];
    assert Scan(f, rows[5], vs[5..]) == [];
    forall k | 0 <= k < 5
      ensures NextRow(rows[k], vs[k].repetitionLevel, vs[k].definitionLevel) == rows[k + 1]
    {
    }
    hide NextRow;
    forall k | 0 <= k < 5
      ensures Scan(f, rows[k], vs[k..]) == [Result(rows[k + 1], [vs[k].datum])] + Scan(f, rows[k + 1], vs[k + 1..])
    {
      assert vs[k..][0] == vs[k] && vs[k..][1..] == vs[k + 1..];
    }
    hide Scan;
    assert vs[0..] == vs;
  }

  // ----- what is given -----

  /** `rs` are the results for the values at the positions `ks`. */
  ghost predicate ResultsAt(vs: seq<Value>, ks: seq<int>, rs: seq<Result>) {
    && |rs| == |ks|
    && forall i :: 0 <= i < |ks| ==> 0 <= ks[i] < |vs| && rs[i].entries == [vs[ks[i]].datum] && IsRow(vs, ks[i], rs[i].row)
  }

  ghost function KeptAt(f: Predicate, vs: seq<Value>, n: int): set<int> {
    set k | 0 <= k < |vs| && k < n && f.keepValue(vs[k])
  }

  lemma ScanMore(f: Predicate, vs: seq<Value>, n: nat)
    requires n < |vs|
    ensures Scan(f, EmptyRowNumber(), vs[..n + 1])
         == Scan(f, EmptyRowNumber(), vs[..n]) + (if f.keepValue(vs[n]) then [Result(RowAt(vs, n), [vs[n].datum])] else [])
  {
    var rn := EmptyRowNumber();
    assert vs[..n + 1] == vs[..n] + [vs[n]];
    ScanConcat(f, rn, vs[..n], [vs[n]]);
    AfterMore(rn, vs[..n], vs[n]);
    var rn' := NextRow(After(rn, vs[..n]), vs[n].repetitionLevel, vs[n].definitionLevel);
    assert [vs[n]][1..] == [];
    assert Scan(f, rn', []) == [];
  }

  lemma {:induction false} ScanGivesUpTo(f: Predicate, vs: seq<Value>, n: nat) returns (ks: seq<int>)
    requires n <= |vs|
    ensures Lists(ks, KeptAt(f, vs, n)) && ResultsAt(vs, ks, Scan(f, EmptyRowNumber(), vs[..n]))
  {
    ks := [];
    if n > 0 {
      ks := ScanGivesUpTo(f, vs, n - 1);
      ScanMore(f, vs, n - 1);
      RowCounts(vs, n - 1);
      hide Scan, RowAt, IsRow;
      if f.keepValue(vs[n - 1]) {
        assert KeptAt(f, vs, n) == KeptAt(f, vs, n - 1) + {n - 1};
        forall i | 0 <= i < |ks| ensures ks[i] < n - 1 {
          assert ks[i] in KeptAt(f, vs, n - 1);
        }
        ks := ks + [n - 1];
      } else {
        assert KeptAt(f, vs, n) == KeptAt(f, vs, n - 1);
      }
    }
  }

  /** A run gives the values that the predicate keeps, each once, in the order of the column. */
  lemma RunGives(f: Predicate, chunks: seq<Chunk>, states: seq<State>, events: seq<Event>) returns (ks: seq<int>, rs: seq<Result>)
    requires Sound(f) && WellFormedColumn(chunks) && Run(f, states, events) && Start(chunks, states[0])
    ensures Explains(rs, events) && ResultsAt(Values(chunks), ks, rs)
    ensures Lists(ks, set k | 0 <= k < |Values(chunks)| && f.keepValue(Values(chunks)[k]))
  {
    hide Sound, WellFormedColumn, Run, Explains, ResultsAt, Scan, Values;
    var vs := Values(chunks);
    EveryRunIsNaive(f, chunks, states, events);
    rs := Scan(f, EmptyRowNumber(), vs);
    ks := ScanGivesUpTo(f, vs, |vs|);
    assert vs[..|vs|] == vs;
    assert KeptAt(f, vs, |vs|) == set k | 0 <= k < |vs| && f.keepValue(vs[k]);
  }

  /** A run with a window gives exactly the values in the window. */
  lemma WindowGives(min: int, max: int, bounds: Bounds, chunks: seq<Chunk>, states: seq<State>, events: seq<Event>)
    returns (ks: seq<int>, rs: seq<Result>)
    requires TrueBounds(bounds) && WellFormedColumn(chunks)
    requires Run(IntBetweenPredicate(min, max, bounds), states, events) && Start(chunks, states[0])
    ensures Explains(rs, events) && ResultsAt(Values(chunks), ks, rs)
    ensures Lists(ks, set k | 0 <= k < |Values(chunks)| && min <= Values(chunks)[k].datum <= max)
  {
    hide Run, Explains, ResultsAt, Values, WellFormedColumn, TrueBounds, Lists, Sound;
    var f := IntBetweenPredicate(min, max, bounds);
    var vs := Values(chunks);
    IntPredicatesKeep(min, max, min, bounds);
    ks, rs := RunGives(f, chunks, states, events);
    assert (set k | 0 <= k < |vs| && f.keepValue(vs[k])) == set k | 0 <= k < |vs| && min <= vs[k].datum <= max;
  }

  /** A run with a wanted value gives exactly the occurrences of the value. */
  lemma EqualGives(value: int, bounds: Bounds, chunks: seq<Chunk>, states: seq<State>, events: seq<Event>)
    returns (ks: seq<int>, rs: seq<Result>)
    requires TrueBounds(bounds) && WellFormedColumn(chunks)
    requires Run(EqualInt64Predicate(value, bounds), states, events) && Start(chunks, states[0])
    ensures Explains(rs, events) && ResultsAt(Values(chunks), ks, rs)
    ensures Lists(ks, set k | 0 <= k < |Values(chunks)| && Values(chunks)[k].datum == value)
  {
    hide Run, Explains, ResultsAt, Values, WellFormedColumn, TrueBounds, Lists, Sound;
    var f := EqualInt64Predicate(value, bounds);
    var vs := Values(chunks);
    IntPredicatesKeep(value, value, value, bounds);
    ks, rs := RunGives(f, chunks, states, events);
    assert (set k | 0 <= k < |vs| && f.keepValue(vs[k])) == set k | 0 <= k < |vs| && vs[k].datum == value;
  }
}
