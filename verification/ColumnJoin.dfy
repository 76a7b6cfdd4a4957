/** The join over column iterators: however their producers run, they give the answers the join was
    computed with, so that it is the join of the naive scans. */
module ColumnJoin {
  import opened RowNumbers
  import opened Sequences
  import opened Iterators
  import C = ColumnIterator
  import J = JoinIterator

  /** A column with the predicate pushed down to its iterator. */
  datatype Column = Column(pushed: C.Predicate, chunks: seq<C.Chunk>)

  function NumberedScan(c: Column): seq<Result> {
    C.Scan(c.pushed, EmptyRowNumber(), C.Values(c.chunks))
  }

  ghost predicate Readable(c: Column) {
    C.Sound(c.pushed) && C.WellFormedColumn(c.chunks) && C.NumRows(C.Values(c.chunks)) <= J.MAX_INT64
  }

  /** A run of the iterator over a column, from the start. */
  ghost predicate RunOf(c: Column, states: seq<C.State>, events: seq<Event>) {
    C.Run(c.pushed, states, events) && C.Start(c.chunks, states[0])
  }

  /** Every run in which the caller makes the calls recorded, or some of them and is not done yet,
      gives the answers recorded. */
  ghost predicate AnswersAs(c: Column, calls: seq<Event>) {
    forall states, events, n: nat ::
      RunOf(c, states, events) && n <= |calls| && SameCalls(Visible(events), calls[..n]) ==> Visible(events) == calls[..n]
  }

  lemma {:induction false} ExplainsPrefix(rs: seq<Result>, events: seq<Event>, n: nat)
    requires Explains(rs, events) && n <= |events|
    ensures Explains(rs, events[..n])
    decreases |events| - n
  {
    if n < |events| {
      ExplainsPrefix(rs, events, n + 1);
      assert events[..n + 1] == events[..n] + [events[n]];
      ExplainsMore(rs, events[..n], events[n]);
    } else {
      assert events[..n] == events;
    }
  }

  lemma TracedAnswers(c: Column, calls: seq<Event>)
    requires Readable(c) && Explains(NumberedScan(c), calls)
    ensures AnswersAs(c, calls)
  {
    hide C.Run, C.Start, C.Sound, C.WellFormedColumn, C.Scan, C.Values, Explains;
    forall states, events, n: nat | RunOf(c, states, events) && n <= |calls| && SameCalls(Visible(events), calls[..n])
      ensures Visible(events) == calls[..n]
    {
      C.EveryRunIsNaive(c.pushed, c.chunks, states, events);
      ExplainsPrefix(NumberedScan(c), calls, n);
      SameAnswers(NumberedScan(c), events, calls[..n]);
    }
  }

  /** The scan of a column is a list that the join accepts. */
  lemma ScanIsJoined(c: Column, level: nat)
    requires Readable(c) && level < 6
    ensures Ascends(level, NumberedScan(c)) && forall x :: x in NumberedScan(c) ==> 0 <= x.row[0] < J.MAX_INT64
  {
    C.ScanAscends(c.pushed, level, EmptyRowNumber(), C.Values(c.chunks));
    hide C.Scan, C.Values;
    ScanInRange(c);
  }

  lemma ScanInRange(c: Column)
    requires Readable(c)
    ensures forall x :: x in NumberedScan(c) ==> 0 <= x.row[0] < J.MAX_INT64
  {
    var f, vs, rn := c.pushed, C.Values(c.chunks), EmptyRowNumber();
    C.ScanBounds(f, rn, vs);
    C.AfterCountsRows(rn, vs);
    if vs != [] {
      StartsRow(c.chunks);
      C.ScanBounds(f, NextRow(rn, vs[0].repetitionLevel, vs[0].definitionLevel), vs[1..]);
    }
  }

  /** The first value of a column starts a row. */
  lemma {:induction false} StartsRow(chunks: seq<C.Chunk>)
    requires C.WellFormedColumn(chunks) && C.Values(chunks) != []
    ensures C.Values(chunks)[0].repetitionLevel == 0
  {
    var pages := Flatten(chunks);
    forall p | p in pages ensures C.WellFormedPage(p) {
      PageOfChunk(chunks, p);
    }
    FirstOfPages(pages);
  }

  lemma {:induction false} PageOfChunk(chunks: seq<C.Chunk>, p: C.Page)
    requires C.WellFormedColumn(chunks) && p in Flatten(chunks)
    ensures C.WellFormedPage(p)
  {
    if p in chunks[0] {
      assert C.WellFormedChunk(chunks[0]);
    } else {
      PageOfChunk(chunks[1..], p);
    }
  }

  lemma {:induction false} FirstOfPages(pages: seq<C.Page>)
    requires Flatten(pages) != [] && forall p :: p in pages ==> C.WellFormedPage(p)
    ensures Flatten(pages)[0].repetitionLevel == 0
  {
    assert C.WellFormedPage(pages[0]);
    if pages[0] == [] {
      FirstOfPages(pages[1..]);
    }
  }

  /** The answers to the calls of every child. */
  function AllAnswers(calls: seq<seq<Event>>): (r: seq<seq<Result>>)
    ensures |r| == |calls| && forall i :: 0 <= i < |r| ==> r[i] == Answered(calls[i])
  {
    seq(|calls|, i requires 0 <= i < |calls| => Answered(calls[i]))
  }

  function Scans(columns: seq<Column>): (r: seq<seq<Result>>)
    ensures |r| == |columns| && forall i :: 0 <= i < |r| ==> r[i] == NumberedScan(columns[i])
  {
    seq(|columns|, i requires 0 <= i < |columns| => NumberedScan(columns[i]))
  }

  /** The whole join over columns, row by row: it is the join of the answers that the columns gave,
      whatever their producers did, and that of their naive scans. */
  method JoinColumns(level: nat, columns: seq<Column>, keep: Result -> bool) returns (rows: seq<Result>, ghost calls: seq<seq<Event>>)
    requires level < 6 && columns != [] && forall i :: 0 <= i < |columns| ==> Readable(columns[i])
    ensures |calls| == |columns| && forall i :: 0 <= i < |columns| ==> AnswersAs(columns[i], calls[i])
    ensures rows == J.JoinAll(level, AllAnswers(calls), keep)
    ensures rows == J.JoinAll(level, Scans(columns), keep)
  {
    hide Readable, NumberedScan, J.JoinAll, J.Rest, J.AllApart, J.AllAscend, J.RowsInRange;
    var scans := Scans(columns);
    ScansAreJoined(columns, level);
    var it := new J.JoinIterator(level, scans, keep);
    rows := [];
    NothingPassed(level, it.passed, it.Children(), keep);
    var more := true;
    while more
      invariant it.Valid() && fresh(it) && J.JoinAll(level, scans, keep) == rows + it.Pending()
      invariant it.Apart() && it.Joined() == rows
      invariant !more ==> it.Pending() == [] && exists i :: 0 <= i < |it.iters| && it.Children()[i] == []
      decreases |it.Pending()|, more
    {
      more := it.Next();
      if more {
        rows := rows + [it.result.value];
      }
    }
    calls := it.calls;
    ghost var j :| 0 <= j < |it.iters| && it.Children()[j] == [];
    J.AnswersJoin(level, calls, it.passed, it.peeks, it.iters, keep, j);
    assert AllAnswers(calls) == seq(|calls|, i requires 0 <= i < |calls| => Answered(calls[i]));
    forall i | 0 <= i < |columns| ensures AnswersAs(columns[i], calls[i]) {
      TracedAnswers(columns[i], calls[i]);
    }
  }

  lemma ScansAreJoined(columns: seq<Column>, level: nat)
    requires level < 6 && forall i :: 0 <= i < |columns| ==> Readable(columns[i])
    ensures J.AllAscend(level, Scans(columns)) && J.RowsInRange(Scans(columns))
  {
    hide Readable, NumberedScan, Ascends;
    forall i | 0 <= i < |columns|
      ensures Ascends(level, Scans(columns)[i]) && forall x: Result :: x in Scans(columns)[i] ==> 0 <= x.row[0] < J.MAX_INT64
    {
      ScanIsJoined(columns[i], level);
    }
  }

  lemma NothingPassed(level: nat, passed: seq<seq<Result>>, children: seq<seq<Result>>, keep: Result -> bool)
    requires level < 6 && passed != [] && |passed| == |children| && forall i :: 0 <= i < |passed| ==> passed[i] == []
    ensures J.AllApart(level, passed, children) && J.JoinAll(level, passed, keep) == []
  {
  }

  lemma {:induction false} AnsweredVisibly(events: seq<Event>)
    ensures Answered(Visible(events)) == Answered(events)
  {
    if events != [] {
      var first, rest := [events[0]], events[1..];
      AnsweredVisibly(rest);
      AnsweredConcat(first, rest);
      AnsweredConcat(if events[0] == Silent then [] else first, Visible(rest));
      assert events == first + rest;
      assert first[..0] == [];
    }
  }

  lemma {:induction false} AnsweredConcat(a: seq<Event>, b: seq<Event>)
    ensures Answered(a + b) == Answered(a) + Answered(b)
  {
    if b == [] {
      assert a + b == a;
    } else {
      hide *;
      var front, last := b[..|b| - 1], b[|b| - 1];
      assert b == front + [last];
      AnsweredConcat(a, front);
      AnsweredMore(front, last);
      AnsweredMore(a + front, last);
      assert a + b == a + front + [last];
      SeqAssociative(Answered(a), Answered(front), AnswerOf(last));
    }
  }

  /** Whatever runs the columns have, if their callers make the calls of the join, then the answers
      of these runs join to the rows of the join. */
  lemma RunsJoin(level: nat, columns: seq<Column>, keep: Result -> bool, calls: seq<seq<Event>>, states: seq<seq<C.State>>,
                 events: seq<seq<Event>>)
    requires level < 6 && columns != [] && |calls| == |columns| == |states| == |events|
    requires forall i :: 0 <= i < |columns| ==> AnswersAs(columns[i], calls[i])
    requires forall i :: 0 <= i < |columns| ==> RunOf(columns[i], states[i], events[i]) && SameCalls(Visible(events[i]), calls[i])
    ensures J.JoinAll(level, AllAnswers(events), keep) == J.JoinAll(level, AllAnswers(calls), keep)
  {
    hide RunOf, SameCalls, Answered, Visible, J.JoinAll;
    forall i | 0 <= i < |columns| ensures Answered(events[i]) == Answered(calls[i]) {
      var n := |calls[i]|;
      assert calls[i][..n] == calls[i];
      assert RunOf(columns[i], states[i], events[i]) && SameCalls(Visible(events[i]), calls[i][..n]);
      AnsweredVisibly(events[i]);
    }
    assert AllAnswers(events) == AllAnswers(calls);
  }
}
