/** `JoinIterator`: the rows that all child iterators hold, down to a definition level. */
module JoinIterator {
  import opened RowNumbers
  import opened Iterators
  import opened Sequences

  // ----- the naive join -----

  /** The results of a child for row `t`. */
  ghost function RowsOf(level: nat, rs: seq<Result>, t: RowNumber): seq<Result>
    requires level < 6
  {
    if rs == [] then []
    else (if SameRow(level, rs[0].row, t) then [rs[0]] else []) + RowsOf(level, rs[1..], t)
  }

  function EntriesOf(rs: seq<Result>): seq<int> {
    if rs == [] then [] else rs[0].entries + EntriesOf(rs[1..])
  }

  /** Every child holds row `t`. */
  ghost predicate InAll(level: nat, children: seq<seq<Result>>, t: RowNumber)
    requires level < 6
  {
    forall i :: 0 <= i < |children| ==> RowsOf(level, children[i], t) != []
  }

  /** The entries of all children for row `t`, in child order. */
  ghost function Group(level: nat, children: seq<seq<Result>>, t: RowNumber): seq<int>
    requires level < 6
  {
    if children == [] then []
    else
      var last := |children| - 1;
      Group(level, children[..last], t) + EntriesOf(RowsOf(level, children[last], t))
  }

  /** The rest of a list after the rows that are the same as the first. */
  ghost function AfterRow(level: nat, t: RowNumber, rs: seq<Result>): seq<Result>
    requires level < 6
    ensures |AfterRow(level, t, rs)| <= |rs|
    ensures rs != [] && SameRow(level, rs[0].row, t) ==> |AfterRow(level, t, rs)| < |rs|
  {
    if rs != [] && SameRow(level, rs[0].row, t) then AfterRow(level, t, rs[1..]) else rs
  }

  /** For each row of the first child, in order: if all children hold it and the group
      predicate keeps it, the row with the entries of all children. */
  ghost function Join(level: nat, first: seq<Result>, children: seq<seq<Result>>, keep: Result -> bool): seq<Result>
    requires level < 6
    decreases |first|
  {
    if first == [] then []
    else
      var t := first[0].row;
      var r := Result(t, Group(level, children, t));
      assert SameRow(level, t, t);
      (if InAll(level, children, t) && keep(r) then [r] else []) + Join(level, AfterRow(level, t, first), children, keep)
  }

  // ----- seeking -----

  lemma {:induction false} DropBeforeIsSuffix(level: nat, to: RowNumber, rs: seq<Result>)
    requires level < 6 && Ascends(level, rs)
    ensures Ascends(level, DropBefore(level, to, rs))
    ensures forall x :: x in DropBefore(level, to, rs) ==> x in rs && !RowBefore(level, x.row, to)
  {
    hide RowBefore, SameRow;
    if rs != [] {
      if RowBefore(level, rs[0].row, to) {
        DropBeforeIsSuffix(level, to, rs[1..]);
      } else {
        forall x | x in rs
          ensures !RowBefore(level, x.row, to)
        {
          var i :| 0 <= i < |rs| && rs[i] == x;
          if i > 0 {
            RowOrder(level, x.row, to, rs[0].row);
            RowOrder(level, to, rs[0].row, x.row);
          }
        }
      }
    }
  }

  /** Seeking, down to any level, leaves an ascending list ascending. */
  lemma {:induction false} DropBeforeAscends(level: nat, seekLevel: nat, to: RowNumber, rs: seq<Result>)
    requires level < 6 && seekLevel < 6 && Ascends(level, rs)
    ensures Ascends(level, DropBefore(seekLevel, to, rs))
    ensures forall x :: x in DropBefore(seekLevel, to, rs) ==> x in rs
  {
    hide RowBefore;
    if rs != [] && RowBefore(seekLevel, rs[0].row, to) {
      DropBeforeAscends(level, seekLevel, to, rs[1..]);
    }
  }

  lemma {:induction false} AfterRowIsSuffix(level: nat, t: RowNumber, rs: seq<Result>)
    requires level < 6 && Ascends(level, rs) && (forall x :: x in rs ==> !RowBefore(level, x.row, t))
    ensures Ascends(level, AfterRow(level, t, rs))
    ensures forall x :: x in AfterRow(level, t, rs) ==> x in rs && RowBefore(level, t, x.row)
  {
    hide RowBefore, SameRow;
    if rs != [] {
      if SameRow(level, rs[0].row, t) {
        AfterRowIsSuffix(level, t, rs[1..]);
      } else {
        RowOrder(level, t, rs[0].row, t);
        RowOrder(level, rs[0].row, t, t);
        forall x | x in rs
          ensures RowBefore(level, t, x.row)
        {
          var i :| 0 <= i < |rs| && rs[i] == x;
          if i > 0 {
            RowOrder(level, t, rs[0].row, x.row);
            RowOrder(level, rs[0].row, x.row, t);
          }
        }
      }
    }
  }

  // ----- what seeking and collecting do to the join -----

  /** Rows from the target on are not touched by seeking. */
  lemma {:induction false} RowsOfDropBefore(level: nat, to: RowNumber, rs: seq<Result>, t: RowNumber)
    requires level < 6 && !RowBefore(level, t, to)
    ensures RowsOf(level, DropBefore(level, to, rs), t) == RowsOf(level, rs, t)
  {
    hide RowBefore, SameRow;
    if rs != [] && RowBefore(level, rs[0].row, to) {
      RowsOfDropBefore(level, to, rs[1..], t);
      RowOrder(level, rs[0].row, t, to);
    }
  }

  /** Other rows are not touched by collecting row `t'`. */
  lemma {:induction false} RowsOfAfterRow(level: nat, t': RowNumber, rs: seq<Result>, t: RowNumber)
    requires level < 6 && RowBefore(level, t', t)
    ensures RowsOf(level, AfterRow(level, t', rs), t) == RowsOf(level, rs, t)
  {
    hide RowBefore, SameRow;
    if rs != [] && SameRow(level, rs[0].row, t') {
      RowsOfAfterRow(level, t', rs[1..], t);
      RowOrder(level, rs[0].row, t', t);
      RowOrder(level, rs[0].row, t, t);
    }
  }

  lemma {:induction false} RowsOfNothing(level: nat, rs: seq<Result>, t: RowNumber)
    requires level < 6 && forall x :: x in rs ==> !SameRow(level, x.row, t)
    ensures RowsOf(level, rs, t) == []
  {
    if rs != [] {
      RowsOfNothing(level, rs[1..], t);
    }
  }

  /** The children agree on all rows of the first list. */
  ghost predicate SameRows(level: nat, first: seq<Result>, a: seq<seq<Result>>, b: seq<seq<Result>>)
    requires level < 6
  {
    && |a| == |b|
    && forall i, x :: 0 <= i < |a| && x in first ==> RowsOf(level, a[i], x.row) == RowsOf(level, b[i], x.row)
  }

  lemma {:induction false} SameGroup(level: nat, a: seq<seq<Result>>, b: seq<seq<Result>>, t: RowNumber)
    requires level < 6 && |a| == |b| && forall i :: 0 <= i < |a| ==> RowsOf(level, a[i], t) == RowsOf(level, b[i], t)
    ensures Group(level, a, t) == Group(level, b, t) && (InAll(level, a, t) <==> InAll(level, b, t))
  {
    hide RowsOf, EntriesOf;
    if a != [] {
      SameGroup(level, a[..|a| - 1], b[..|b| - 1], t);
    }
  }

  lemma {:induction false} AfterRowIn(level: nat, t: RowNumber, rs: seq<Result>)
    requires level < 6
    ensures forall x :: x in AfterRow(level, t, rs) ==> x in rs
  {
    if rs != [] && SameRow(level, rs[0].row, t) {
      AfterRowIn(level, t, rs[1..]);
    }
  }

  lemma {:induction false} JoinSameRows(level: nat, first: seq<Result>, a: seq<seq<Result>>, b: seq<seq<Result>>, keep: Result -> bool)
    requires level < 6 && SameRows(level, first, a, b)
    ensures Join(level, first, a, keep) == Join(level, first, b, keep)
    decreases |first|
  {
    if first != [] {
      var t := first[0].row;
      SameGroup(level, a, b, t);
      AfterRowIn(level, t, first);
      assert SameRow(level, t, t);
      JoinSameRows(level, AfterRow(level, t, first), a, b, keep);
    }
  }

  /** Rows before `to` do not join if some child has nothing before `to`. */
  lemma {:induction false} JoinDropsBefore(level: nat, to: RowNumber, first: seq<Result>, children: seq<seq<Result>>,
                                           keep: Result -> bool, j: nat)
    requires level < 6 && j < |children| && Ascends(level, first)
    requires forall x :: x in children[j] ==> !RowBefore(level, x.row, to)
    ensures Join(level, first, children, keep) == Join(level, DropBefore(level, to, first), children, keep)
    decreases |first|
  {
    hide RowBefore, SameRow;
    if first != [] && RowBefore(level, first[0].row, to) {
      var t := first[0].row;
      RowOrder(level, t, t, t);
      forall x | x in children[j]
        ensures !SameRow(level, x.row, t)
      {
        RowOrder(level, x.row, t, to);
      }
      RowsOfNothing(level, children[j], t);
      AfterRowOfFirst(level, first);
      JoinDropsBefore(level, to, AfterRow(level, t, first), children, keep, j);
      DropBeforeAfterRow(level, to, t, first);
    }
  }

  lemma AfterRowOfFirst(level: nat, first: seq<Result>)
    requires level < 6 && Ascends(level, first) && first != []
    ensures forall x :: x in first ==> !RowBefore(level, x.row, first[0].row)
    ensures Ascends(level, AfterRow(level, first[0].row, first))
    ensures forall x :: x in AfterRow(level, first[0].row, first) ==> x in first && RowBefore(level, first[0].row, x.row)
  {
    hide RowBefore, SameRow;
    RowOrder(level, first[0].row, first[0].row, first[0].row);
    AfterRowIsSuffix(level, first[0].row, first);
  }

  lemma {:induction false} DropBeforeAfterRow(level: nat, to: RowNumber, t: RowNumber, rs: seq<Result>)
    requires level < 6 && RowBefore(level, t, to)
    ensures DropBefore(level, to, AfterRow(level, t, rs)) == DropBefore(level, to, rs)
  {
    hide RowBefore, SameRow;
    if rs != [] && SameRow(level, rs[0].row, t) {
      RowOrder(level, rs[0].row, t, to);
      DropBeforeAfterRow(level, to, t, rs[1..]);
    }
  }

  ghost predicate AllAscend(level: nat, children: seq<seq<Result>>)
    requires level < 6
  {
    forall i :: 0 <= i < |children| ==> Ascends(level, children[i])
  }

  /** The whole join of the children. */
  ghost function JoinAll(level: nat, children: seq<seq<Result>>, keep: Result -> bool): seq<Result>
    requires level < 6 && children != []
  {
    Join(level, children[0], children, keep)
  }

  ghost function DropAllBefore(level: nat, to: RowNumber, children: seq<seq<Result>>): (r: seq<seq<Result>>)
    requires level < 6
    ensures |r| == |children|
  {
    seq(|children|, i requires 0 <= i < |children| => DropBefore(level, to, children[i]))
  }

  /** Seeking all children to a row that one of them has reached changes nothing. */
  lemma SeekKeepsJoin(level: nat, to: RowNumber, children: seq<seq<Result>>, keep: Result -> bool, j: nat)
    requires level < 6 && j < |children| && AllAscend(level, children)
    requires forall x :: x in children[j] ==> !RowBefore(level, x.row, to)
    ensures JoinAll(level, DropAllBefore(level, to, children), keep) == JoinAll(level, children, keep)
    ensures AllAscend(level, DropAllBefore(level, to, children))
  {
    hide RowBefore, SameRow, DropBefore, RowsOf, Join;
    var after: seq<seq<Result>> := DropAllBefore(level, to, children);
    forall i | 0 <= i < |children|
      ensures Ascends(level, after[i])
      ensures forall x :: x in after[i] ==> !RowBefore(level, x.row, to)
    {
      DropBeforeIsSuffix(level, to, children[i]);
    }
    JoinDropsBefore(level, to, children[0], children, keep, j);
    forall i, x | 0 <= i < |children| && x in after[0]
      ensures RowsOf(level, children[i], x.row) == RowsOf(level, after[i], x.row)
    {
      RowsOfDropBefore(level, to, children[i], x.row);
    }
    JoinSameRows(level, after[0], children, after, keep);
  }

  ghost function AfterRowAll(level: nat, t: RowNumber, children: seq<seq<Result>>): (r: seq<seq<Result>>)
    requires level < 6
    ensures |r| == |children|
  {
    seq(|children|, i requires 0 <= i < |children| => AfterRow(level, t, children[i]))
  }

  /** All children stand at row `t`. */
  ghost predicate AllAt(level: nat, children: seq<seq<Result>>, t: RowNumber)
    requires level < 6
  {
    forall i :: 0 <= i < |children| ==> children[i] != [] && SameRow(level, children[i][0].row, t)
  }

  /** Collecting the row at which all children stand takes it off the join. */
  lemma CollectTakesFirst(level: nat, children: seq<seq<Result>>, keep: Result -> bool)
    requires level < 6 && children != [] && AllAscend(level, children)
    requires children[0] != [] && AllAt(level, children, children[0][0].row)
    ensures var t := children[0][0].row;
            var r := Result(t, Group(level, children, t));
            JoinAll(level, children, keep) == (if keep(r) then [r] else []) + JoinAll(level, AfterRowAll(level, t, children), keep)
    ensures AllAscend(level, AfterRowAll(level, children[0][0].row, children))
  {
    hide RowBefore, SameRow;
    var t := children[0][0].row;
    var after: seq<seq<Result>> := AfterRowAll(level, t, children);
    forall i | 0 <= i < |children|
      ensures Ascends(level, after[i]) && RowsOf(level, children[i], t) != []
    {
      StandsAt(level, children[i], t);
      AfterRowIsSuffix(level, t, children[i]);
    }
    AfterRowOfFirst(level, children[0]);
    forall i, x | 0 <= i < |children| && x in after[0]
      ensures RowsOf(level, children[i], x.row) == RowsOf(level, after[i], x.row)
    {
      RowsOfAfterRow(level, t, children[i], x.row);
    }
    JoinSameRows(level, after[0], children, after, keep);
  }

  lemma StandsAt(level: nat, rs: seq<Result>, t: RowNumber)
    requires level < 6 && rs != [] && Ascends(level, rs) && SameRow(level, rs[0].row, t)
    ensures RowsOf(level, rs, t) != []
    ensures forall x :: x in rs ==> !RowBefore(level, x.row, t)
  {
    hide RowBefore, SameRow;
    AfterRowOfFirst(level, rs);
    forall x | x in rs
      ensures !RowBefore(level, x.row, t)
    {
      RowOrder(level, rs[0].row, t, x.row);
    }
  }

  /** An exhausted child ends the join. */
  lemma {:induction false} NothingJoins(level: nat, first: seq<Result>, children: seq<seq<Result>>, keep: Result -> bool, j: nat)
    requires level < 6 && j < |children| && children[j] == []
    ensures Join(level, first, children, keep) == []
    decreases |first|
  {
    if first != [] {
      assert RowsOf(level, children[j], first[0].row) == [];
      assert SameRow(level, first[0].row, first[0].row);
      NothingJoins(level, AfterRow(level, first[0].row, first), children, keep, j);
    }
  }

  // ----- the iterator -----

  /** `TruncateRowNumber`: the levels below the definition level become undefined. */
  function TruncateRowNumber(t: RowNumber, level: nat): RowNumber
    requires level < 6
  {
    seq(6, i requires 0 <= i < 6 => if i <= level then t[i] else -1)
  }

  lemma TruncateKeepsOrder(level: nat, t: RowNumber, x: RowNumber)
    requires level < 6
    ensures RowBefore(level, x, TruncateRowNumber(t, level)) <==> RowBefore(level, x, t)
    ensures SameRow(level, TruncateRowNumber(t, level), t)
  {
    var u := TruncateRowNumber(t, level);
    assert u[..level + 1] == t[..level + 1];
    RowOrder(level, u, t, x);
  }

  lemma {:induction false} DropBeforeTruncated(level: nat, t: RowNumber, rs: seq<Result>)
    requires level < 6
    ensures DropBefore(level, TruncateRowNumber(t, level), rs) == DropBefore(level, t, rs)
  {
    if rs != [] {
      TruncateKeepsOrder(level, t, rs[0].row);
      DropBeforeTruncated(level, t, rs[1..]);
    }
  }

  ghost function Total(children: seq<seq<Result>>): nat {
    if children == [] then 0 else |children[0]| + Total(children[1..])
  }

  lemma {:induction false} TotalLess(a: seq<seq<Result>>, b: seq<seq<Result>>)
    requires |a| == |b| && forall i :: 0 <= i < |a| ==> |a[i]| <= |b[i]|
    ensures Total(a) <= Total(b)
    ensures forall i :: 0 <= i < |a| && |a[i]| < |b[i]| ==> Total(a) < Total(b)
  {
    if a != [] {
      TotalLess(a[1..], b[1..]);
      forall i | 0 <= i < |a| && |a[i]| < |b[i]|
        ensures Total(a) < Total(b)
      {
        if i > 0 {
          assert a[1..][i - 1] == a[i] && b[1..][i - 1] == b[i];
        }
      }
    }
  }

  const MAX_INT64 := 0x7FFF_FFFF_FFFF_FFFF

  function MaxRowNumber(): RowNumber { [MAX_INT64, 0, 0, 0, 0, 0] }

  /** What is left of a child: its peeked result, then the rest. */
  function Rest(peek: Option<Result>, rest: seq<Result>): seq<Result> {
    if peek.Some? then [peek.value] + rest else rest
  }

  function RestAll(peeks: seq<Option<Result>>, iters: seq<seq<Result>>): (cs: seq<seq<Result>>)
    requires |peeks| == |iters|
    ensures |cs| == |iters|
  {
    seq(|iters|, i requires 0 <= i < |iters| => Rest(peeks[i], iters[i]))
  }

  /** Row numbers are valid and below the greatest one. */
  ghost predicate RowsInRange(children: seq<seq<Result>>) {
    forall i, x :: 0 <= i < |children| && x in children[i] ==> 0 <= x.row[0] < MAX_INT64
  }

  /** What a pass over the rows the children stand at has found. */
  ghost predicate Surveyed(level: nat, rows: seq<RowNumber>, lowest: RowNumber, count: nat, highest: RowNumber)
    requires level < 6
  {
    && (if rows == [] then lowest == MaxRowNumber() && highest == EmptyRowNumber() && count == 0 else lowest in rows && highest in rows)
    && count <= |rows|
    && (count == |rows| && rows != [] ==> lowest == rows[0])
    && (count == |rows| <==> forall x :: x in rows ==> SameRow(level, x, lowest))
    && (forall x :: x in rows ==> !RowBefore(level, x, lowest) && !RowBefore(level, highest, x))
  }

  lemma SurveyStart(level: nat)
    requires level < 6
    ensures Surveyed(level, [], MaxRowNumber(), 0, EmptyRowNumber())
  {
  }

  lemma SurveyStep(level: nat, rows: seq<RowNumber>, lowest: RowNumber, count: nat, highest: RowNumber, row: RowNumber)
    requires level < 6 && Surveyed(level, rows, lowest, count, highest) && 0 <= row[0] < MAX_INT64
    ensures Surveyed(level, rows + [row],
                     if RowBefore(level, row, lowest) then row else lowest,
                     if RowBefore(level, row, lowest) then 1 else if SameRow(level, row, lowest) then count + 1 else count,
                     if RowBefore(level, highest, row) then row else highest)
  {
    hide RowBefore, SameRow;
    BeforeMax(level, row);
    RowOrder(level, row, row, row);
    RowOrder(level, row, lowest, row);
    forall x | x in rows
      ensures RowBefore(level, row, lowest) ==> !SameRow(level, x, row) && !RowBefore(level, x, row)
      ensures RowBefore(level, highest, row) ==> !RowBefore(level, row, x)
    {
      RowOrder(level, x, row, lowest);
      RowOrder(level, highest, row, x);
    }
  }

  lemma SurveyEnd(level: nat, rows: seq<RowNumber>, lowest: RowNumber, count: nat, highest: RowNumber)
    requires level < 6 && Surveyed(level, rows, lowest, count, highest) && rows != []
    ensures exists j :: 0 <= j < |rows| && rows[j] == highest
    ensures count == |rows| ==> lowest == rows[0] && forall i :: 0 <= i < |rows| ==> SameRow(level, rows[i], lowest)
    ensures count != |rows| ==> exists i :: 0 <= i < |rows| && RowBefore(level, rows[i], highest)
  {
    hide RowBefore, SameRow;
    if count != |rows| {
      var k :| 0 <= k < |rows| && !SameRow(level, rows[k], lowest);
      var l :| 0 <= l < |rows| && rows[l] == lowest;
      RowOrder(level, rows[k], lowest, highest);
      RowOrder(level, lowest, rows[k], highest);
      RowOrder(level, rows[k], highest, lowest);
      RowOrder(level, highest, rows[k], lowest);
    }
  }

  // ----- the calls of the children -----

  /** The calls of every child are answered by its list, of which `iters` is left. */
  ghost predicate AllTraced(given: seq<seq<Result>>, calls: seq<seq<Event>>, iters: seq<seq<Result>>) {
    && |given| == |calls| == |iters|
    && forall i :: 0 <= i < |given| ==> Explains(given[i], calls[i]) && LeftAfter(given[i], calls[i]) == iters[i]
  }

  lemma NothingTraced(given: seq<seq<Result>>)
    ensures AllTraced(given, seq(|given|, _ => []), given)
  {
  }

  lemma TracedMore(given: seq<seq<Result>>, calls: seq<seq<Event>>, iters: seq<seq<Result>>, i: nat, e: Event)
    requires AllTraced(given, calls, iters) && i < |iters| && Answers(iters[i], e)
    ensures |calls| == |iters|
    ensures AllTraced(given, calls[i := calls[i] + [e]], iters[i := Left(iters[i], e)])
  {
    ExplainsMore(given[i], calls[i], e);
  }

  // ----- the answers of the children -----

  function Peeked(peek: Option<Result>): seq<Result> {
    if peek.Some? then [peek.value] else []
  }

  /** The answers of every child are those passed and the one it stands at. */
  ghost predicate AllAnswered(calls: seq<seq<Event>>, passed: seq<seq<Result>>, peeks: seq<Option<Result>>) {
    && |calls| == |passed| == |peeks|
    && forall i :: 0 <= i < |calls| ==> Answered(calls[i]) == passed[i] + Peeked(peeks[i])
  }

  lemma AnsweredNext(calls: seq<seq<Event>>, passed: seq<seq<Result>>, peeks: seq<Option<Result>>, i: nat, e: Event, r: Option<Result>)
    requires AllAnswered(calls, passed, peeks) && i < |peeks| && AnswerOf(e) == Peeked(r)
    ensures |calls| == |passed| == |peeks|
    ensures AllAnswered(calls[i := calls[i] + [e]], passed[i := passed[i] + Peeked(peeks[i])], peeks[i := r])
    ensures peeks[i].None? ==> passed[i := passed[i] + Peeked(peeks[i])] == passed
  {
    AnsweredMore(calls[i], e);
    assert passed[i] + [] == passed[i];
  }

  /** What is passed over on the way to a row: the result at hand, if it lies before. */
  ghost function Behind(level: nat, to: RowNumber, peek: Option<Result>): seq<Result>
    requires level < 6
  {
    if peek.Some? && RowBefore(level, peek.value.row, to) then [peek.value] else []
  }

  ghost function PassedBefore(level: nat, to: RowNumber, passed: seq<seq<Result>>, peeks: seq<Option<Result>>): (r: seq<seq<Result>>)
    requires level < 6 && |passed| == |peeks|
    ensures |r| == |passed| && forall i :: 0 <= i < |r| ==> r[i] == passed[i] + Behind(level, to, peeks[i])
  {
    seq(|passed|, i requires 0 <= i < |passed| => passed[i] + Behind(level, to, peeks[i]))
  }

  ghost function Wholes(ps: seq<seq<Result>>, qs: seq<seq<Result>>): (r: seq<seq<Result>>)
    requires |ps| == |qs|
    ensures |r| == |ps| && forall i :: 0 <= i < |r| ==> r[i] == ps[i] + qs[i]
  {
    seq(|ps|, i requires 0 <= i < |ps| => ps[i] + qs[i])
  }

  lemma BehindIs(level: nat, to: RowNumber, peek: Option<Result>)
    requires level < 6
    ensures Behind(level, to, peek) ==
      if peek.Some? && RowBefore(level, peek.value.row, TruncateRowNumber(to, level)) then [peek.value] else []
    ensures forall s: seq<Result> :: s + [] == s
  {
    if peek.Some? {
      TruncateKeepsOrder(level, to, peek.value.row);
    }
  }

  /** Part of the results for a row has been taken; `now` is what is left. */
  ghost predicate Collecting(level: nat, t: RowNumber, rs: seq<Result>, r: Result, now: seq<Result>, r': Result)
    requires level < 6
  {
    && Ascends(level, now) && (forall x :: x in now ==> !RowBefore(level, x.row, t))
    && AfterRow(level, t, now) == AfterRow(level, t, rs) && r'.row == r.row
    && r'.entries + EntriesOf(RowsOf(level, now, t)) == r.entries + EntriesOf(RowsOf(level, rs, t))
  }

  lemma CollectingStarts(level: nat, t: RowNumber, rs: seq<Result>, r: Result)
    requires level < 6 && rs != [] && Ascends(level, rs) && SameRow(level, rs[0].row, t)
    ensures Collecting(level, t, rs, r, rs, r)
  {
    StandsAt(level, rs, t);
  }

  lemma CollectingNext(level: nat, t: RowNumber, rs: seq<Result>, r: Result, now: seq<Result>, r': Result)
    requires level < 6 && Collecting(level, t, rs, r, now, r') && now != [] && SameRow(level, now[0].row, t)
    ensures Collecting(level, t, rs, r, now[1..], Result(r'.row, r'.entries + now[0].entries))
  {
    hide RowBefore, SameRow, AfterRow, RowsOf, EntriesOf, Ascends;
    TakeOne(level, now, t, r'.entries);
  }

  lemma CollectingEnds(level: nat, t: RowNumber, rs: seq<Result>, r: Result, now: seq<Result>, r': Result)
    requires level < 6 && Collecting(level, t, rs, r, now, r') && (now == [] || !SameRow(level, now[0].row, t))
    ensures now == AfterRow(level, t, rs) && r' == Result(r.row, r.entries + EntriesOf(RowsOf(level, rs, t)))
  {
    hide RowBefore, SameRow, AfterRow, RowsOf, EntriesOf, Ascends;
    PassedRow(level, now, t);
    NoEntries();
    assert r'.entries + [] == r'.entries;
  }

  // ----- a join in two parts -----

  ghost predicate AllBefore(level: nat, a: seq<Result>, b: seq<Result>)
    requires level < 6
  {
    forall x, y :: x in a && y in b ==> RowBefore(level, x.row, y.row)
  }

  /** All results of the one lists lie before all of the others. */
  ghost predicate AllApart(level: nat, ps: seq<seq<Result>>, qs: seq<seq<Result>>)
    requires level < 6
  {
    |ps| == |qs| && forall i, k :: 0 <= i < |ps| && 0 <= k < |qs| ==> AllBefore(level, ps[i], qs[k])
  }

  lemma {:induction false} RowsOfConcat(level: nat, a: seq<Result>, b: seq<Result>, t: RowNumber)
    requires level < 6
    ensures RowsOf(level, a + b, t) == RowsOf(level, a, t) + RowsOf(level, b, t)
  {
    if a == [] {
      assert a + b == b && RowsOf(level, a, t) == [];
    } else {
      FirstOfRows(level, a, t);
      FirstOfRows(level, a + b, t);
      hide *;
      assert (a + b)[0] == a[0] && (a + b)[1..] == a[1..] + b;
      RowsOfConcat(level, a[1..], b, t);
      SeqAssociative(if SameRow(level, a[0].row, t) then [a[0]] else [], RowsOf(level, a[1..], t), RowsOf(level, b, t));
    }
  }

  lemma FirstOfRows(level: nat, rs: seq<Result>, t: RowNumber)
    requires level < 6 && rs != []
    ensures RowsOf(level, rs, t) == (if SameRow(level, rs[0].row, t) then [rs[0]] else []) + RowsOf(level, rs[1..], t)
  {
  }

  /** A row of the first part: the second has nothing to it. */
  lemma RowInFirst(level: nat, ps: seq<seq<Result>>, qs: seq<seq<Result>>, t: RowNumber)
    requires level < 6 && |ps| == |qs| && forall k, y :: 0 <= k < |qs| && y in qs[k] ==> RowBefore(level, t, y.row)
    ensures Group(level, Wholes(ps, qs), t) == Group(level, ps, t) && (InAll(level, Wholes(ps, qs), t) <==> InAll(level, ps, t))
  {
    forall i | 0 <= i < |ps| ensures RowsOf(level, Wholes(ps, qs)[i], t) == RowsOf(level, ps[i], t) {
      RowsOfConcat(level, ps[i], qs[i], t);
      forall y | y in qs[i] ensures !SameRow(level, y.row, t) {
        RowOrder(level, t, y.row, t);
      }
      RowsOfNothing(level, qs[i], t);
    }
    SameGroup(level, Wholes(ps, qs), ps, t);
  }

  lemma RowInSecond(level: nat, ps: seq<seq<Result>>, qs: seq<seq<Result>>, t: RowNumber)
    requires level < 6 && |ps| == |qs| && forall k, x :: 0 <= k < |ps| && x in ps[k] ==> RowBefore(level, x.row, t)
    ensures Group(level, Wholes(ps, qs), t) == Group(level, qs, t) && (InAll(level, Wholes(ps, qs), t) <==> InAll(level, qs, t))
  {
    forall i | 0 <= i < |ps| ensures RowsOf(level, Wholes(ps, qs)[i], t) == RowsOf(level, qs[i], t) {
      RowsOfConcat(level, ps[i], qs[i], t);
      forall x | x in ps[i] ensures !SameRow(level, x.row, t) {
        RowOrder(level, x.row, t, t);
      }
      RowsOfNothing(level, ps[i], t);
    }
    SameGroup(level, Wholes(ps, qs), qs, t);
  }

  lemma {:induction false} AfterRowConcat(level: nat, t: RowNumber, a: seq<Result>, b: seq<Result>)
    requires level < 6 && (b == [] || !SameRow(level, b[0].row, t))
    ensures AfterRow(level, t, a + b) == AfterRow(level, t, a) + b
  {
    hide SameRow;
    if a == [] {
      assert a + b == b;
    } else {
      assert (a + b)[0] == a[0] && (a + b)[1..] == a[1..] + b;
      if SameRow(level, a[0].row, t) {
        AfterRowConcat(level, t, a[1..], b);
      }
    }
  }

  /** What a row adds to the join. */
  ghost function Joins(level: nat, t: RowNumber, children: seq<seq<Result>>, keep: Result -> bool): seq<Result>
    requires level < 6
  {
    var r := Result(t, Group(level, children, t));
    if InAll(level, children, t) && keep(r) then [r] else []
  }

  lemma JoinFirst(level: nat, first: seq<Result>, children: seq<seq<Result>>, keep: Result -> bool)
    requires level < 6 && first != []
    ensures |AfterRow(level, first[0].row, first)| < |first| && forall x :: x in AfterRow(level, first[0].row, first) ==> x in first
    ensures Join(level, first, children, keep)
         == Joins(level, first[0].row, children, keep) + Join(level, AfterRow(level, first[0].row, first), children, keep)
  {
    assert SameRow(level, first[0].row, first[0].row);
    AfterRowIn(level, first[0].row, first);
  }

  lemma BeforeLess(level: nat, a: seq<Result>, b: seq<Result>, c: seq<Result>)
    requires level < 6 && AllBefore(level, a, b)
    ensures (forall x :: x in c ==> x in b) ==> AllBefore(level, a, c)
    ensures (forall x :: x in c ==> x in a) ==> AllBefore(level, c, b)
  {
  }

  lemma {:induction false} JoinSecond(level: nat, first: seq<Result>, ps: seq<seq<Result>>, qs: seq<seq<Result>>, keep: Result -> bool)
    requires level < 6 && |ps| == |qs| && forall k :: 0 <= k < |ps| ==> AllBefore(level, ps[k], first)
    ensures Join(level, first, Wholes(ps, qs), keep) == Join(level, first, qs, keep)
    decreases |first|
  {
    if first != [] {
      var t, rest := first[0].row, AfterRow(level, first[0].row, first);
      RowAfter(level, first, ps);
      RowInSecond(level, ps, qs, t);
      JoinFirst(level, first, Wholes(ps, qs), keep);
      JoinFirst(level, first, qs, keep);
      hide Join, AllBefore, RowBefore, AfterRow, Group, InAll;
      forall k | 0 <= k < |ps| ensures AllBefore(level, ps[k], rest) {
        BeforeLess(level, ps[k], first, rest);
      }
      JoinSecond(level, rest, ps, qs, keep);
    } else {
      NothingToJoin(level, Wholes(ps, qs), keep);
      NothingToJoin(level, qs, keep);
    }
  }

  lemma NothingToJoin(level: nat, children: seq<seq<Result>>, keep: Result -> bool)
    requires level < 6
    ensures Join(level, [], children, keep) == []
  {
  }

  lemma RowAfter(level: nat, first: seq<Result>, ps: seq<seq<Result>>)
    requires level < 6 && first != [] && forall k :: 0 <= k < |ps| ==> AllBefore(level, ps[k], first)
    ensures forall k, x :: 0 <= k < |ps| && x in ps[k] ==> RowBefore(level, x.row, first[0].row)
  {
    hide RowBefore;
    forall k, x | 0 <= k < |ps| && x in ps[k] ensures RowBefore(level, x.row, first[0].row) {
      assert AllBefore(level, ps[k], first);
    }
  }

  lemma RowAhead(level: nat, first: seq<Result>, qs: seq<seq<Result>>)
    requires level < 6 && first != [] && forall k :: 0 <= k < |qs| ==> AllBefore(level, first, qs[k])
    ensures forall k, y :: 0 <= k < |qs| && y in qs[k] ==> RowBefore(level, first[0].row, y.row)
  {
    hide RowBefore;
    forall k, y | 0 <= k < |qs| && y in qs[k] ensures RowBefore(level, first[0].row, y.row) {
      assert AllBefore(level, first, qs[k]);
    }
  }

  /** The first row of the one part is not that of the other. */
  lemma AfterFirst(level: nat, first: seq<Result>, second: seq<Result>)
    requires level < 6 && first != [] && AllBefore(level, first, second)
    ensures (first + second)[0] == first[0]
    ensures AfterRow(level, first[0].row, first + second) == AfterRow(level, first[0].row, first) + second
  {
    if second != [] {
      RowOrder(level, first[0].row, second[0].row, first[0].row);
    }
    AfterRowConcat(level, first[0].row, first, second);
  }

  lemma JoinsFirst(level: nat, ps: seq<seq<Result>>, qs: seq<seq<Result>>, t: RowNumber, keep: Result -> bool)
    requires level < 6 && |ps| == |qs| && forall k, y :: 0 <= k < |qs| && y in qs[k] ==> RowBefore(level, t, y.row)
    ensures Joins(level, t, Wholes(ps, qs), keep) == Joins(level, t, ps, keep)
  {
    RowInFirst(level, ps, qs, t);
  }

  lemma {:induction false} JoinParts(level: nat, first: seq<Result>, second: seq<Result>, ps: seq<seq<Result>>, qs: seq<seq<Result>>,
                                     keep: Result -> bool)
    requires level < 6 && |ps| == |qs| && AllBefore(level, first, second)
    requires forall k :: 0 <= k < |qs| ==> AllBefore(level, first, qs[k])
    requires forall k :: 0 <= k < |ps| ==> AllBefore(level, ps[k], second)
    ensures Join(level, first + second, Wholes(ps, qs), keep) == Join(level, first, ps, keep) + Join(level, second, qs, keep)
    decreases |first|
  {
    hide *;
    if first == [] {
      assert first + second == second;
      JoinSecond(level, second, ps, qs, keep);
      NothingToJoin(level, ps, keep);
    } else {
      var t, rest := first[0].row, AfterRow(level, first[0].row, first);
      AfterFirst(level, first, second);
      RowAhead(level, first, qs);
      JoinsFirst(level, ps, qs, t, keep);
      JoinFirst(level, first + second, Wholes(ps, qs), keep);
      JoinFirst(level, first, ps, keep);
      forall k | 0 <= k < |qs| ensures AllBefore(level, rest, qs[k]) {
        BeforeLess(level, first, qs[k], rest);
      }
      BeforeLess(level, first, second, rest);
      JoinParts(level, rest, second, ps, qs, keep);
      SeqAssociative(Joins(level, t, ps, keep), Join(level, rest, ps, keep), Join(level, second, qs, keep));
    }
  }

  /** The join of lists in two parts, one before the other, is that of the parts. */
  lemma JoinConcat(level: nat, ps: seq<seq<Result>>, qs: seq<seq<Result>>, keep: Result -> bool)
    requires level < 6 && ps != [] && AllApart(level, ps, qs)
    ensures JoinAll(level, Wholes(ps, qs), keep) == JoinAll(level, ps, keep) + JoinAll(level, qs, keep)
  {
    JoinParts(level, ps[0], qs[0], ps, qs, keep);
  }

  lemma {:induction false} AfterRowIsRest(level: nat, t: RowNumber, rs: seq<Result>)
    requires level < 6
    ensures var n := |rs| - |AfterRow(level, t, rs)|;
      0 <= n <= |rs| && rs[n..] == AfterRow(level, t, rs) && forall i :: 0 <= i < n ==> SameRow(level, rs[i].row, t)
  {
    hide SameRow;
    if rs != [] && SameRow(level, rs[0].row, t) {
      AfterRowIsRest(level, t, rs[1..]);
    }
  }

  /** Collecting the row at which all stand passes it, and adds its group to the join. */
  lemma CollectPasses(level: nat, passed: seq<seq<Result>>, children: seq<seq<Result>>, passed': seq<seq<Result>>, keep: Result -> bool)
    requires level < 6 && children != [] && AllAscend(level, children) && AllApart(level, passed, children)
    requires children[0] != [] && AllAt(level, children, children[0][0].row)
    requires |passed'| == |children|
    requires Wholes(passed', AfterRowAll(level, children[0][0].row, children)) == Wholes(passed, children)
    ensures
      var t := children[0][0].row;
      var r := Result(t, Group(level, children, t));
      && AllApart(level, passed', AfterRowAll(level, t, children))
      && JoinAll(level, passed', keep) == JoinAll(level, passed, keep) + if keep(r) then [r] else []
  {
    var t := children[0][0].row;
    var after := AfterRowAll(level, t, children);
    var taken := seq(|children|, i requires 0 <= i < |children| => children[i][..|children[i]| - |after[i]|]);
    CollectTakesFirst(level, children, keep);
    TakenParts(level, t, children, after, taken);
    PassedParts(level, passed, children, after, taken, passed');
    hide *;
    JoinConcat(level, passed, taken, keep);
    JoinConcat(level, taken, after, keep);
    var r := Result(t, Group(level, children, t));
    SameEnd(JoinAll(level, taken, keep), if keep(r) then [r] else [], JoinAll(level, after, keep));
  }

  lemma SameEnd<T>(a: seq<T>, b: seq<T>, c: seq<T>)
    requires a + c == b + c
    ensures a == b
  {
    assert |a + c| == |b + c|;
    assert a == (a + c)[..|a|] && b == (b + c)[..|b|];
  }

  lemma TakenParts(level: nat, t: RowNumber, children: seq<seq<Result>>, after: seq<seq<Result>>, taken: seq<seq<Result>>)
    requires level < 6 && AllAscend(level, children) && AllAt(level, children, t) && after == AfterRowAll(level, t, children)
    requires |taken| == |children| && forall i :: 0 <= i < |taken| ==> taken[i] == children[i][..|children[i]| - |after[i]|]
    ensures Wholes(taken, after) == children && AllApart(level, taken, after)
  {
    hide RowBefore, SameRow, AfterRow, Ascends;
    forall i | 0 <= i < |children|
      ensures taken[i] + after[i] == children[i]
      ensures forall x :: x in taken[i] ==> SameRow(level, x.row, t)
      ensures forall y :: y in after[i] ==> RowBefore(level, t, y.row)
    {
      AfterRowIsRest(level, t, children[i]);
      StandsAt(level, children[i], t);
      AfterRowIsSuffix(level, t, children[i]);
    }
    forall i, k | 0 <= i < |taken| && 0 <= k < |after| ensures AllBefore(level, taken[i], after[k]) {
      SameBefore(level, taken[i], t, after[k]);
    }
  }

  lemma SameBefore(level: nat, a: seq<Result>, t: RowNumber, b: seq<Result>)
    requires level < 6 && (forall x :: x in a ==> SameRow(level, x.row, t)) && (forall y :: y in b ==> RowBefore(level, t, y.row))
    ensures AllBefore(level, a, b)
  {
    hide RowBefore, SameRow;
    forall x, y | x in a && y in b ensures RowBefore(level, x.row, y.row) {
      RowOrder(level, x.row, t, y.row);
      RowOrder(level, y.row, t, x.row);
      RowOrder(level, t, y.row, x.row);
    }
  }

  lemma PassedParts(level: nat, passed: seq<seq<Result>>, children: seq<seq<Result>>, after: seq<seq<Result>>, taken: seq<seq<Result>>,
                    passed': seq<seq<Result>>)
    requires level < 6 && |passed'| == |children| == |after| == |taken| && AllApart(level, passed, children)
    requires Wholes(taken, after) == children && AllApart(level, taken, after)
    requires Wholes(passed', after) == Wholes(passed, children)
    ensures passed' == Wholes(passed, taken) && AllApart(level, passed, taken) && AllApart(level, passed', after)
  {
    forall i | 0 <= i < |children| ensures passed'[i] == passed[i] + taken[i] {
      assert Wholes(passed', after)[i] == Wholes(passed, children)[i];
      assert Wholes(taken, after)[i] == children[i];
      SeqAssociative(passed[i], taken[i], after[i]);
      SameEnd(passed'[i], passed[i] + taken[i], after[i]);
    }
    forall i, k | 0 <= i < |passed| && 0 <= k < |taken|
      ensures AllBefore(level, passed[i], taken[k]) && AllBefore(level, passed[i], after[k])
    {
      assert Wholes(taken, after)[k] == children[k];
      assert AllBefore(level, passed[i], children[k]);
    }
    forall i, k | 0 <= i < |passed'| && 0 <= k < |after| ensures AllBefore(level, passed'[i], after[k]) {
      assert AllBefore(level, taken[i], after[k]);
    }
  }

  /** Passing over rows before one that some child has reached adds nothing to the join. */
  lemma SeekPasses(level: nat, to: RowNumber, passed: seq<seq<Result>>, peeks: seq<Option<Result>>, iters: seq<seq<Result>>,
                   keep: Result -> bool, j: nat)
    requires level < 6 && iters != [] && |passed| == |peeks| == |iters| && AllApart(level, passed, RestAll(peeks, iters))
    requires AllAscend(level, RestAll(peeks, iters)) && j < |iters|
    requires forall x :: x in RestAll(peeks, iters)[j] ==> !RowBefore(level, x.row, to)
    ensures AllApart(level, PassedBefore(level, to, passed, peeks), DropAllBefore(level, to, RestAll(peeks, iters)))
    ensures JoinAll(level, PassedBefore(level, to, passed, peeks), keep) == JoinAll(level, passed, keep)
  {
    var children := RestAll(peeks, iters);
    var behind: seq<seq<Result>> := seq(|peeks|, i requires 0 <= i < |peeks| => Behind(level, to, peeks[i]));
    assert PassedBefore(level, to, passed, peeks) == Wholes(passed, behind);
    hide RowBefore, Join, DropBefore, Ascends;
    forall i | 0 <= i < |peeks| ensures forall x: Result :: x in behind[i] ==> x in children[i] && RowBefore(level, x.row, to) {
    }
    forall i, k | 0 <= i < |passed| && 0 <= k < |behind| ensures AllBefore(level, passed[i], behind[k]) {
      assert AllBefore(level, passed[i], children[k]);
    }
    JoinConcat(level, passed, behind, keep);
    assert behind[j] == [];
    NothingJoins(level, behind[0], behind, keep, j);
    forall i, k | 0 <= i < |passed| && 0 <= k < |children|
      ensures AllBefore(level, passed[i] + behind[i], DropBefore(level, to, children[k]))
    {
      DropBeforeIsSuffix(level, to, children[k]);
      assert AllBefore(level, passed[i], children[k]);
      forall x: Result, y: Result | x in behind[i] && y in DropBefore(level, to, children[k]) ensures RowBefore(level, x.row, y.row) {
        RowOrder(level, x.row, to, y.row);
        RowOrder(level, y.row, to, x.row);
        RowOrder(level, to, y.row, x.row);
      }
    }
  }

  /** Once a child is exhausted, what all have answered joins to what was joined. */
  lemma AnswersJoin(level: nat, calls: seq<seq<Event>>, passed: seq<seq<Result>>, peeks: seq<Option<Result>>, iters: seq<seq<Result>>,
                    keep: Result -> bool, j: nat)
    requires level < 6 && iters != [] && |peeks| == |iters| && AllAnswered(calls, passed, peeks)
    requires AllApart(level, passed, RestAll(peeks, iters)) && j < |iters| && RestAll(peeks, iters)[j] == []
    ensures |calls| == |iters|
    ensures JoinAll(level, seq(|calls|, i requires 0 <= i < |calls| => Answered(calls[i])), keep) == JoinAll(level, passed, keep)
  {
    var answers := seq(|calls|, i requires 0 <= i < |calls| => Answered(calls[i]));
    var at := seq(|peeks|, i requires 0 <= i < |peeks| => Peeked(peeks[i]));
    assert answers == Wholes(passed, at);
    hide RowBefore, Join, Answered;
    forall i, k | 0 <= i < |passed| && 0 <= k < |at| ensures AllBefore(level, passed[i], at[k]) {
      assert AllBefore(level, passed[i], RestAll(peeks, iters)[k]);
      assert forall x :: x in at[k] ==> x in RestAll(peeks, iters)[k];
    }
    JoinConcat(level, passed, at, keep);
    assert at[j] == [];
    NothingJoins(level, at[0], at, keep, j);
  }

  class JoinIterator {
    const definitionLevel: nat
    const keepGroup: Result -> bool
    var iters: seq<seq<Result>>        // what each child iterator still gives
    ghost const given: seq<seq<Result>>
    ghost var calls: seq<seq<Event>>   // the calls of each child, with their answers
    ghost var passed: seq<seq<Result>> // the answers of each child, up to the one it stands at
    var peeks: seq<Option<Result>>
    var result: Option<Result>

    ghost function Children(): (cs: seq<seq<Result>>)
      requires |peeks| == |iters|
      reads this`iters, this`peeks
    {
      RestAll(peeks, iters)
    }

    ghost predicate Valid()
      reads this`iters, this`peeks, this`calls, this`passed
    {
      && definitionLevel < 6 && iters != [] && |peeks| == |iters|
      && AllAscend(definitionLevel, Children())
      && RowsInRange(Children()) && AllTraced(given, calls, iters)
      && |passed| == |iters| && AllAnswered(calls, passed, peeks)
    }

    /** The rows still to come. */
    ghost function Pending(): seq<Result>
      requires Valid()
      reads this`iters, this`peeks, this`calls, this`passed
    {
      JoinAll(definitionLevel, Children(), keepGroup)
    }

    /** What was passed lies before all that is left. */
    ghost predicate Apart()
      requires definitionLevel < 6 && |peeks| == |iters|
      reads this`iters, this`peeks, this`passed
    {
      AllApart(definitionLevel, passed, Children())
    }

    /** The join of what was passed. */
    ghost function Joined(): seq<Result>
      requires definitionLevel < 6
      reads this`passed
    {
      if passed == [] then [] else JoinAll(definitionLevel, passed, keepGroup)
    }

    constructor (definitionLevel: nat, iters: seq<seq<Result>>, keepGroup: Result -> bool)
      requires definitionLevel < 6 && iters != [] && AllAscend(definitionLevel, iters)
      requires RowsInRange(iters)
      ensures Valid() && Pending() == JoinAll(definitionLevel, iters, keepGroup)
      ensures given == iters && this.definitionLevel == definitionLevel && this.keepGroup == keepGroup
      ensures |passed| == |iters| && forall i :: 0 <= i < |passed| ==> passed[i] == []
    {
      this.definitionLevel := definitionLevel;
      this.keepGroup := keepGroup;
      this.iters := iters;
      peeks := seq(|iters|, _ => None);
      result := None;
      given, calls, passed := iters, seq(|iters|, _ => []), seq(|iters|, _ => []);
      new;
      NothingTraced(given);
      assert Children() == iters;
    }

    /** `iter.Next()` of a child. */
    method NextOf(i: nat) returns (r: Option<Result>)
      requires i < |iters| && AllTraced(given, calls, iters)
      modifies this`iters, this`calls
      ensures |iters| == |old(iters)| && iters == old(iters)[i := iters[i]] && AllTraced(given, calls, iters)
      ensures |calls| == |iters| && calls == old(calls)[i := old(calls)[i] + [Nexted(r)]]
      ensures Rest(r, iters[i]) == old(iters)[i]
      ensures r.None? <==> old(iters)[i] == []
    {
      hide AllTraced;
      r := Head(iters[i]);
      TracedMore(given, calls, iters, i, Nexted(r));
      calls := calls[i := calls[i] + [Nexted(r)]];
      iters := iters[i := Tail(iters[i])];
    }

    /** `iter.Seek()` of a child: it passes over its rows before the target. */
    method SeekOf(i: nat, to: RowNumber, level: nat) returns (r: Option<Result>)
      requires level < 6 && i < |iters| && AllTraced(given, calls, iters)
      modifies this`iters, this`calls
      ensures |iters| == |old(iters)| && iters == old(iters)[i := iters[i]] && AllTraced(given, calls, iters)
      ensures |calls| == |iters| && calls == old(calls)[i := old(calls)[i] + [Sought(to, level, r)]]
      ensures Rest(r, iters[i]) == DropBefore(level, to, old(iters)[i])
    {
      hide AllTraced, AllAnswered, AllApart, RowBefore;
      ghost var before := iters;
      while iters[i] != []
        invariant |iters| == |before| && iters == before[i := iters[i]] && calls == old(calls)
        invariant DropBefore(level, to, iters[i]) == DropBefore(level, to, before[i])
        decreases |iters[i]|
      {
        var c := CompareRowNumbers(level, iters[i][0].row, to);
        if c != -1 {
          break;
        }
        iters := iters[i := iters[i][1..]];
      }
      r := Head(iters[i]);
      TracedMore(given, calls, before, i, Sought(to, level, r));
      calls := calls[i := calls[i] + [Sought(to, level, r)]];
      iters := iters[i := Tail(iters[i])];
    }

    /** The result a child stands at, if it is not exhausted. */
    method Peek(i: nat) returns (r: Option<Result>)
      requires Valid() && i < |iters|
      modifies this`iters, this`calls, this`passed, this`peeks
      ensures Valid() && |iters| == |old(iters)| && Children() == old(Children()) && passed == old(passed)
      ensures r == peeks[i]
      ensures r.None? ==> Children()[i] == []
      ensures forall k :: 0 <= k < |iters| && old(peeks)[k].Some? ==> peeks[k] == old(peeks)[k]
    {
      if peeks[i] == None {
        ghost var before := calls;
        r := NextOf(i);
        AnsweredNext(before, passed, peeks, i, Nexted(r), r);
        if r.Some? {
          peeks := peeks[i := r];
        }
      }
      r := peeks[i];
      assert Children() == old(Children());
    }

    /** Moves all children to the first row that is not before `to`, down to the level of the target. */
    method SeekAll(to: RowNumber, level: nat)
      requires Valid() && level < 6
      modifies this`iters, this`calls, this`passed, this`peeks
      ensures Valid() && |iters| == |old(iters)| && passed == PassedBefore(level, to, old(passed), old(peeks))
      ensures Children() == DropAllBefore(level, to, old(Children()))
    {
      hide AllTraced, AllAnswered, AllApart, RowBefore, SameRow, DropBefore, Ascends, Behind;
      ghost var before := Children();
      var target := TruncateRowNumber(to, level);
      for i := 0 to |iters|
        invariant |iters| == |peeks| == |before| == |passed| && AllTraced(given, calls, iters) && AllAnswered(calls, passed, peeks)
        invariant forall k :: 0 <= k < i ==> passed[k] == old(passed)[k] + Behind(level, to, old(peeks)[k])
        invariant forall k :: i <= k < |iters| ==> passed[k] == old(passed)[k] && peeks[k] == old(peeks)[k]
        invariant forall k :: 0 <= k < i ==> Rest(peeks[k], iters[k]) == DropBefore(level, to, before[k])
        invariant forall k :: i <= k < |iters| ==> Rest(peeks[k], iters[k]) == before[k]
      {
        SeekIter(i, to, target, level);
      }
      assert Children() == DropAllBefore(level, to, before);
      forall k | 0 <= k < |iters|
        ensures Ascends(definitionLevel, Children()[k])
        ensures forall x :: x in Children()[k] ==> x in before[k]
      {
        DropBeforeAscends(definitionLevel, level, to, before[k]);
      }
    }

    /** One child: it stays where it is unless it stands before the target, or nowhere. */
    method SeekIter(i: nat, ghost to: RowNumber, target: RowNumber, level: nat)
      requires level < 6 && i < |iters| == |peeks| == |passed| && target == TruncateRowNumber(to, level)
      requires AllTraced(given, calls, iters) && AllAnswered(calls, passed, peeks)
      modifies this`iters, this`calls, this`passed, this`peeks
      ensures |iters| == |peeks| == |passed| == |old(iters)| && AllTraced(given, calls, iters) && AllAnswered(calls, passed, peeks)
      ensures iters == old(iters)[i := iters[i]] && peeks == old(peeks)[i := peeks[i]]
      ensures passed == old(passed)[i := old(passed)[i] + Behind(level, to, old(peeks)[i])]
      ensures Rest(peeks[i], iters[i]) == DropBefore(level, to, old(Rest(peeks[i], iters[i])))
    {
      hide AllTraced, AllAnswered, RowBefore, SameRow, DropBefore, Behind;
      ghost var before := Rest(peeks[i], iters[i]);
      DropBeforeTruncated(level, to, before);
      DropBeforeFirst(level, target, before);
      BehindIs(level, to, peeks[i]);
      var behind := peeks[i].None?;
      if peeks[i].Some? {
        var c := CompareRowNumbers(level, peeks[i].value.row, target);
        behind := c == -1;
      }
      if behind {
        assert peeks[i].Some? ==> before[1..] == iters[i];
        ghost var calls0 := calls;
        var r := SeekOf(i, target, level);
        AnsweredNext(calls0, passed, peeks, i, Sought(target, level, r), r);
        passed := passed[i := passed[i] + Peeked(peeks[i])];
        peeks := peeks[i := r];
      }
    }

    /** Takes the results of all children for row `t`. */
    method Collect(t: RowNumber) returns (r: Result)
      requires Valid() && AllAt(definitionLevel, Children(), t)
      requires forall i :: 0 <= i < |peeks| ==> peeks[i].Some?
      modifies this`iters, this`calls, this`passed, this`peeks
      ensures |passed| == |peeks| == |iters| == |old(iters)|
      ensures AllTraced(given, calls, iters) && AllAnswered(calls, passed, peeks)
      ensures Wholes(passed, Children()) == old(Wholes(passed, Children()))
      ensures Children() == AfterRowAll(definitionLevel, t, old(Children()))
      ensures r == Result(t, Group(definitionLevel, old(Children()), t))
    {
      hide AllTraced, AllAnswered, AllApart, RowBefore, SameRow, AfterRow, RowsOf, Group, EntriesOf, Ascends, RowsInRange;
      r := Result(t, []);
      ghost var before := Children();
      EmptyGroup(definitionLevel, t);
      for i := 0 to |iters|
        invariant |iters| == |peeks| == |before| == |passed| && AllTraced(given, calls, iters) && AllAnswered(calls, passed, peeks)
        invariant forall k :: 0 <= k < |iters| ==> passed[k] + Rest(peeks[k], iters[k]) == old(passed)[k] + before[k]
        invariant r == Result(t, Group(definitionLevel, before[..i], t))
        invariant forall k :: 0 <= k < i ==> Rest(peeks[k], iters[k]) == AfterRow(definitionLevel, t, before[k])
        invariant forall k :: i <= k < |iters| ==> Rest(peeks[k], iters[k]) == before[k] && peeks[k].Some?
      {
        assert peeks[i].value == before[i][0];
        GroupOneMore(definitionLevel, before, t, i);
        r := CollectChild(i, t, r);
      }
      assert before[..|iters|] == before;
      assert Children() == AfterRowAll(definitionLevel, t, before);
    }

    method CollectChild(i: nat, t: RowNumber, r: Result) returns (r': Result)
      requires definitionLevel < 6 && i < |iters| == |peeks| && Ascends(definitionLevel, Rest(peeks[i], iters[i])) && peeks[i].Some?
      requires SameRow(definitionLevel, peeks[i].value.row, t) && AllTraced(given, calls, iters)
      requires |passed| == |iters| && AllAnswered(calls, passed, peeks)
      modifies this`iters, this`calls, this`passed, this`peeks
      ensures |peeks| == |iters| == |old(iters)| && AllTraced(given, calls, iters) && AllAnswered(calls, passed, peeks)
      ensures |passed| == |old(passed)| == |iters| && passed == old(passed)[i := passed[i]]
      ensures passed[i] + Rest(peeks[i], iters[i]) == old(passed[i] + Rest(peeks[i], iters[i]))
      ensures iters == old(iters)[i := iters[i]] && peeks == old(peeks)[i := peeks[i]]
      ensures Rest(peeks[i], iters[i]) == AfterRow(definitionLevel, t, old(Rest(peeks[i], iters[i])))
      ensures r' == Result(r.row, r.entries + EntriesOf(RowsOf(definitionLevel, old(Rest(peeks[i], iters[i])), t)))
    {
      hide AllTraced, AllAnswered, RowBefore, SameRow, AfterRow, RowsOf, EntriesOf, Ascends, Collecting;
      r' := r;
      ghost var rs, passed0 := Rest(peeks[i], iters[i]), passed[i];
      CollectingStarts(definitionLevel, t, rs, r);
      while peeks[i].Some?
        invariant |peeks| == |iters| == |old(iters)| == |passed| == |old(passed)|
        invariant AllTraced(given, calls, iters) && AllAnswered(calls, passed, peeks)
        invariant iters == old(iters)[i := iters[i]] && peeks == old(peeks)[i := peeks[i]] && passed == old(passed)[i := passed[i]]
        invariant passed[i] + Rest(peeks[i], iters[i]) == passed0 + rs
        invariant peeks[i].None? ==> iters[i] == []
        invariant Collecting(definitionLevel, t, rs, r, Rest(peeks[i], iters[i]), r')
        decreases |Rest(peeks[i], iters[i])|
      {
        ghost var now := Rest(peeks[i], iters[i]);
        var c := CompareRowNumbers(definitionLevel, peeks[i].value.row, t);
        if c != 0 {
          break;
        }
        CollectingNext(definitionLevel, t, rs, r, now, r');
        r' := Result(r'.row, r'.entries + peeks[i].value.entries);
        SeqAssociative(passed[i], [peeks[i].value], iters[i]);
        TakeNext(i);
      }
      CollectingEnds(definitionLevel, t, rs, r, Rest(peeks[i], iters[i]), r');
    }

    /** A child is passed on to its next result. */
    method TakeNext(i: nat)
      requires i < |iters| == |peeks| == |passed| && peeks[i].Some? && AllTraced(given, calls, iters) && AllAnswered(calls, passed, peeks)
      modifies this`iters, this`calls, this`passed, this`peeks
      ensures |iters| == |peeks| == |passed| == |old(iters)| && AllTraced(given, calls, iters) && AllAnswered(calls, passed, peeks)
      ensures iters == old(iters)[i := iters[i]] && peeks == old(peeks)[i := peeks[i]]
      ensures passed == old(passed)[i := old(passed)[i] + [old(peeks)[i].value]]
      ensures Rest(peeks[i], iters[i]) == old(iters)[i] && (peeks[i].None? ==> iters[i] == [])
    {
      hide AllTraced, AllAnswered;
      ghost var calls0 := calls;
      var p := NextOf(i);
      AnsweredNext(calls0, passed, peeks, i, Nexted(p), p);
      passed := passed[i := passed[i] + Peeked(peeks[i])];
      peeks := peeks[i := p];
    }

    /** One pass over the children: which row is lowest, which children stand at it, and
        which row is highest. */
    method Survey() returns (exhausted: bool, lowest: RowNumber, lowestIters: seq<nat>, highest: RowNumber)
      requires Valid()
      modifies this`iters, this`calls, this`passed, this`peeks
      ensures Valid() && |iters| == |old(iters)| && Children() == old(Children()) && passed == old(passed)
      ensures exhausted ==> exists i :: 0 <= i < |iters| && Children()[i] == []
      ensures !exhausted ==> forall i :: 0 <= i < |iters| ==> peeks[i].Some?
      ensures !exhausted ==> exists j :: 0 <= j < |iters| && peeks[j].value.row == highest
      ensures !exhausted && |lowestIters| == |iters| ==>
        lowest == peeks[0].value.row && forall i :: 0 <= i < |iters| ==> SameRow(definitionLevel, peeks[i].value.row, lowest)
      ensures !exhausted && |lowestIters| != |iters| ==>
        exists i :: 0 <= i < |iters| && RowBefore(definitionLevel, peeks[i].value.row, highest)
    {
      hide AllTraced, AllAnswered, AllApart, RowBefore, SameRow, Surveyed, AllAscend;
      lowest, lowestIters, highest := MaxRowNumber(), [], EmptyRowNumber();
      ghost var rows: seq<RowNumber> := [];
      SurveyStart(definitionLevel);
      for i := 0 to |iters|
        invariant Valid() && |iters| == |old(iters)| && Children() == old(Children()) && passed == old(passed)
        invariant |rows| == i && forall k :: 0 <= k < i ==> peeks[k].Some? && peeks[k].value.row == rows[k]
        invariant Surveyed(definitionLevel, rows, lowest, |lowestIters|, highest)
      {
        var res := Peek(i);
        if res.None? {
          return true, lowest, lowestIters, highest;
        }
        var row := res.value.row;
        assert res.value in Children()[i];
        SurveyStep(definitionLevel, rows, lowest, |lowestIters|, highest, row);
        var c := CompareRowNumbers(definitionLevel, row, lowest);
        if c == -1 {
          lowestIters := [];
          lowest := row;
        }
        if c == -1 || c == 0 {
          lowestIters := lowestIters + [i];
        }
        c := CompareRowNumbers(definitionLevel, row, highest);
        if c == 1 {
          highest := row;
        }
        rows := rows + [row];
      }
      exhausted := false;
      SurveyEnd(definitionLevel, rows, lowest, |lowestIters|, highest);
    }

    /** Takes the row at which all children stand off the join. */
    method CollectFirst(t: RowNumber) returns (r: Result)
      requires Valid() && (forall i :: 0 <= i < |peeks| ==> peeks[i].Some?)
      requires peeks[0].value.row == t && forall i :: 0 <= i < |peeks| ==> SameRow(definitionLevel, peeks[i].value.row, t)
      modifies this`iters, this`calls, this`passed, this`peeks
      ensures Valid() && |iters| == |old(iters)| && Total(Children()) < old(Total(Children()))
      ensures old(Pending()) == (if keepGroup(r) then [r] else []) + Pending()
      ensures old(Apart()) ==> Apart() && Joined() == old(Joined()) + if keepGroup(r) then [r] else []
      ensures forall i, x :: 0 <= i < |iters| && x in Children()[i] ==> x in old(Children())[i]
    {
      hide AllTraced, AllAnswered, AllApart, RowBefore, SameRow, Join, Group, Total, AfterRow, Ascends, RowsOf;
      ghost var before := Children();
      CollectTakesFirst(definitionLevel, before, keepGroup);
      CollectShrinks(definitionLevel, t, before);
      CollectKeepsRows(definitionLevel, t, before);
      ghost var passed0 := passed;
      r := Collect(t);
      if AllApart(definitionLevel, passed0, before) {
        CollectPasses(definitionLevel, passed0, before, passed, keepGroup);
      }
    }

    /** Skips rows that cannot join, because child `j` has nothing before `to`. */
    method SkipTo(to: RowNumber, ghost j: nat)
      requires Valid() && j < |iters| && forall x :: x in Children()[j] ==> !RowBefore(definitionLevel, x.row, to)
      modifies this`iters, this`calls, this`passed, this`peeks
      ensures Valid() && |iters| == |old(iters)| && Pending() == old(Pending())
      ensures old(Apart()) ==> Apart() && Joined() == old(Joined())
      ensures Total(Children()) <= old(Total(Children()))
      ensures (exists i :: 0 <= i < |old(iters)| && old(Children())[i] != []
                        && RowBefore(definitionLevel, old(Children())[i][0].row, to)) ==>
        Total(Children()) < old(Total(Children()))
    {
      hide AllTraced, AllAnswered, AllApart, RowBefore, SameRow, Join, Total, DropBefore, Ascends, RowsOf;
      SeekKeepsJoin(definitionLevel, to, Children(), keepGroup, j);
      SeekShrinks(definitionLevel, to, Children());
      if Apart() {
        SeekPasses(definitionLevel, to, passed, peeks, iters, keepGroup, j);
      }
      SeekAll(to, definitionLevel);
    }

    /** One pass: it finds that there is no more, finds a row, or comes closer to one. */
    method Pass() returns (done: bool, more: bool)
      requires Valid()
      modifies this`iters, this`calls, this`passed, this`peeks, this`result
      ensures Valid() && |iters| == |old(iters)|
      ensures more ==> done && result.Some? && old(Pending()) == [result.value] + Pending()
      ensures !more ==> Pending() == old(Pending())
      ensures done && !more ==> result.None? && exists i :: 0 <= i < |iters| && Children()[i] == []
      ensures !done ==> Total(Children()) < old(Total(Children()))
      ensures old(Apart()) ==> Apart() && Joined() == old(Joined()) + if more then [result.value] else []
    {
      hide AllTraced, AllAnswered, AllApart, RowBefore, SameRow, Join, Total, Ascends, RowsInRange;
      var exhausted, lowest, lowestIters, highest := Survey();
      ghost var before: seq<seq<Result>> := Children();
      if exhausted {
        result := None;
        return true, false;
      }
      assert forall i :: 0 <= i < |iters| ==> before[i] != [] && before[i][0] == peeks[i].value;
      ghost var j :| 0 <= j < |iters| && before[j][0].row == highest;
      assert Ascends(definitionLevel, before[j]);
      NotBeforeFirst(definitionLevel, before[j]);
      if |lowestIters| == |iters| {
        var r := CollectFirst(lowest);
        if keepGroup(r) {
          result := Some(r);
          return true, true;
        }
      }
      SkipTo(highest, j);
      done, more := false, false;
    }

    /** Moves to the next row that all children hold and the group predicate keeps. */
    method Next() returns (more: bool)
      requires Valid()
      modifies this`iters, this`calls, this`passed, this`peeks, this`result
      ensures Valid()
      ensures more <==> old(Pending()) != []
      ensures more ==> result.Some? && old(Pending()) == [result.value] + Pending()
      ensures !more ==> result.None? && exists i :: 0 <= i < |iters| && Children()[i] == []
      ensures !more ==> Pending() == []
      ensures old(Apart()) ==> Apart() && Joined() == old(Joined()) + if more then [result.value] else []
    {
      hide AllTraced, AllAnswered, AllApart, Join, Total, AllAscend, RowsInRange;
      while true
        invariant Valid() && Pending() == old(Pending())
        invariant old(Apart()) ==> Apart() && Joined() == old(Joined())
        decreases Total(Children())
      {
        var done;
        done, more := Pass();
        if done {
          if !more {
            ghost var i :| 0 <= i < |iters| && Children()[i] == [];
            NothingJoins(definitionLevel, Children()[0], Children(), keepGroup, i);
          }
          return;
        }
      }
    }

    /** Moves to the first row of the join of what is not before `to`, down to the level of the target. */
    method Seek(to: RowNumber, level: nat) returns (more: bool)
      requires Valid() && level < 6
      modifies this`iters, this`calls, this`passed, this`peeks, this`result
      ensures Valid()
      ensures var sought := JoinAll(definitionLevel, DropAllBefore(level, to, old(Children())), keepGroup);
              && (more <==> sought != [])
              && (more ==> result.Some? && sought == [result.value] + Pending())
    {
      SeekAll(to, level);
      more := Next();
    }
  }

  lemma EmptyGroup(level: nat, t: RowNumber)
    requires level < 6
    ensures Group(level, [], t) == []
  {
  }

  lemma GroupOneMore(level: nat, children: seq<seq<Result>>, t: RowNumber, i: nat)
    requires level < 6 && i < |children|
    ensures Group(level, children[..i + 1], t) == Group(level, children[..i], t) + EntriesOf(RowsOf(level, children[i], t))
  {
    assert children[..i + 1][..i] == children[..i];
  }

  lemma DropBeforeFirst(level: nat, to: RowNumber, rs: seq<Result>)
    requires level < 6
    ensures rs != [] && RowBefore(level, rs[0].row, to) ==> DropBefore(level, to, rs) == DropBefore(level, to, rs[1..])
    ensures rs != [] && !RowBefore(level, rs[0].row, to) ==> DropBefore(level, to, rs) == rs
  {
  }

  lemma NotBeforeFirst(level: nat, rs: seq<Result>)
    requires level < 6 && Ascends(level, rs) && rs != []
    ensures forall x :: x in rs ==> !RowBefore(level, x.row, rs[0].row)
  {
    AfterRowOfFirst(level, rs);
  }

  lemma CollectShrinks(level: nat, t: RowNumber, children: seq<seq<Result>>)
    requires level < 6 && children != [] && AllAt(level, children, t)
    ensures Total(AfterRowAll(level, t, children)) < Total(children)
  {
    TotalLess(AfterRowAll(level, t, children), children);
    assert |AfterRowAll(level, t, children)[0]| < |children[0]|;
  }

  lemma CollectKeepsRows(level: nat, t: RowNumber, children: seq<seq<Result>>)
    requires level < 6
    ensures forall i, x :: 0 <= i < |children| && x in AfterRowAll(level, t, children)[i] ==> x in children[i]
  {
    forall i | 0 <= i < |children|
      ensures forall x :: x in AfterRowAll(level, t, children)[i] ==> x in children[i]
    {
      AfterRowIn(level, t, children[i]);
    }
  }

  lemma SeekShrinks(level: nat, to: RowNumber, children: seq<seq<Result>>)
    requires level < 6
    ensures Total(DropAllBefore(level, to, children)) <= Total(children)
    ensures forall i :: 0 <= i < |children| && children[i] != [] && RowBefore(level, children[i][0].row, to) ==>
              Total(DropAllBefore(level, to, children)) < Total(children)
  {
    var a := DropAllBefore(level, to, children);
    TotalLess(a, children);
    forall i | 0 <= i < |children| && children[i] != [] && RowBefore(level, children[i][0].row, to)
      ensures Total(a) < Total(children)
    {
      assert |a[i]| < |children[i]|;
    }
  }

  lemma BeforeMax(level: nat, t: RowNumber)
    requires level < 6 && 0 <= t[0] < MAX_INT64
    ensures RowBefore(level, t, MaxRowNumber()) && RowBefore(level, EmptyRowNumber(), t)
  {
    assert t[..0] == EmptyRowNumber()[..0];
    assert t[..0] == MaxRowNumber()[..0];
  }

  lemma NoEntries()
    ensures EntriesOf([]) == []
  {
  }

  lemma TakeOne(level: nat, rs: seq<Result>, t: RowNumber, entries: seq<int>)
    requires level < 6 && Ascends(level, rs) && rs != [] && SameRow(level, rs[0].row, t)
    ensures Ascends(level, rs[1..]) && AfterRow(level, t, rs[1..]) == AfterRow(level, t, rs)
    ensures entries + EntriesOf(RowsOf(level, rs, t)) == entries + rs[0].entries + EntriesOf(RowsOf(level, rs[1..], t))
  {
    RestOf(level, rs, t);
    hide *;
    OneMoreEntry(rs[0], RowsOf(level, rs[1..], t));
    SeqAssociative(entries, rs[0].entries, EntriesOf(RowsOf(level, rs[1..], t)));
  }

  lemma RestOf(level: nat, rs: seq<Result>, t: RowNumber)
    requires level < 6 && Ascends(level, rs) && rs != [] && SameRow(level, rs[0].row, t)
    ensures Ascends(level, rs[1..]) && AfterRow(level, t, rs[1..]) == AfterRow(level, t, rs)
    ensures RowsOf(level, rs, t) == [rs[0]] + RowsOf(level, rs[1..], t)
  {
    hide RowBefore, SameRow;
  }

  lemma OneMoreEntry(x: Result, rs: seq<Result>)
    ensures EntriesOf([x] + rs) == x.entries + EntriesOf(rs)
  {
    assert ([x] + rs)[0] == x && ([x] + rs)[1..] == rs;
  }

  /** An ascending list that stands after row `t` holds no result for it. */
  lemma PassedRow(level: nat, rs: seq<Result>, t: RowNumber)
    requires level < 6 && Ascends(level, rs) && (forall x :: x in rs ==> !RowBefore(level, x.row, t))
    requires rs == [] || !SameRow(level, rs[0].row, t)
    ensures RowsOf(level, rs, t) == [] && AfterRow(level, t, rs) == rs
  {
    hide RowBefore, SameRow;
    AfterRowIsSuffix(level, t, rs);
    forall x | x in rs
      ensures !SameRow(level, x.row, t)
    {
      RowOrder(level, x.row, t, t);
    }
    RowsOfNothing(level, rs, t);
  }

  // ----- what the join is -----

  /** The join ascends strictly, and consists of rows that all children hold and the group
      predicate keeps, with the entries of all children. */
  lemma {:induction false} JoinIsCorrect(level: nat, first: seq<Result>, children: seq<seq<Result>>, keep: Result -> bool)
    requires level < 6 && Ascends(level, first)
    ensures var j := Join(level, first, children, keep);
            && (forall a, b :: 0 <= a < b < |j| ==> RowBefore(level, j[a].row, j[b].row))
            && (forall r :: r in j ==> InAll(level, children, r.row) && r.entries == Group(level, children, r.row) && keep(r))
            && (forall r :: r in j ==> exists x :: x in first && x.row == r.row)
    decreases |first|
  {
    hide RowBefore, SameRow, InAll, Group;
    if first != [] {
      var t := first[0].row;
      RowOrder(level, t, t, t);
      AfterRowOfFirst(level, first);
      JoinIsCorrect(level, AfterRow(level, t, first), children, keep);
      assert first[0] in first;
    }
  }

  /** A row of the first child, as its first result has it, is in the join with the entries of all
      children exactly when all children hold it and the group predicate keeps it. */
  lemma {:induction false} JoinIsComplete(level: nat, first: seq<Result>, children: seq<seq<Result>>, keep: Result -> bool, x: Result)
    requires level < 6 && Ascends(level, first) && x in first
    ensures RowsOf(level, first, x.row) != []
    ensures
      var t := RowsOf(level, first, x.row)[0].row;
      var r := Result(t, Group(level, children, t));
      r in Join(level, first, children, keep) <==> InAll(level, children, x.row) && keep(r)
    decreases |first|
  {
    var t := first[0].row;
    RowOrder(level, t, t, t);
    RowOrder(level, t, x.row, t);
    if SameRow(level, t, x.row) {
      SameRowInAll(level, children, t, x.row);
      SameRowInAll(level, children, x.row, t);
      JoinIsCorrect(level, first, children, keep);
    } else {
      InAfterRow(level, t, first, x);
      AfterRowOfFirst(level, first);
      RowsOfAfterRow(level, t, first, x.row);
      JoinIsComplete(level, AfterRow(level, t, first), children, keep, x);
      JoinIsCorrect(level, first, children, keep);
      var y := RowsOf(level, first, x.row)[0];
      RowsOfHas(level, first, x.row);
      SameRowInAll(level, children, x.row, y.row);
      RowOrder(level, y.row, t, x.row);
    }
  }

  lemma {:induction false} RowsOfHas(level: nat, rs: seq<Result>, t: RowNumber)
    requires level < 6
    ensures forall y :: y in RowsOf(level, rs, t) ==> SameRow(level, y.row, t)
  {
    if rs != [] {
      RowsOfHas(level, rs[1..], t);
    }
  }

  lemma {:induction false} InAfterRow(level: nat, t: RowNumber, rs: seq<Result>, x: Result)
    requires level < 6 && x in rs && !SameRow(level, x.row, t)
    ensures x in AfterRow(level, t, rs)
  {
    if SameRow(level, rs[0].row, t) {
      InAfterRow(level, t, rs[1..], x);
    }
  }

  lemma {:induction false} SameRowsOf(level: nat, rs: seq<Result>, t: RowNumber, u: RowNumber)
    requires level < 6 && SameRow(level, t, u)
    ensures RowsOf(level, rs, t) == RowsOf(level, rs, u)
  {
    if rs != [] {
      SameRowsOf(level, rs[1..], t, u);
    }
  }

  lemma SameRowInAll(level: nat, children: seq<seq<Result>>, t: RowNumber, u: RowNumber)
    requires level < 6 && SameRow(level, t, u)
    ensures InAll(level, children, u) ==> InAll(level, children, t)
  {
    forall i | 0 <= i < |children|
      ensures RowsOf(level, children[i], t) == RowsOf(level, children[i], u)
    {
      SameRowsOf(level, children[i], t, u);
    }
  }

  // ----- the entries of a row -----

  ghost function OnRow(level: nat, t: RowNumber): Result -> bool
    requires level < 6
  {
    (r: Result) => SameRow(level, r.row, t)
  }

  ghost function EntryLists(rs: seq<Result>): seq<seq<int>> {
    seq(|rs|, i requires 0 <= i < |rs| => rs[i].entries)
  }

  /** `entries` are those of the results that `child` holds for row `t`, in order. */
  ghost predicate Gathers(level: nat, child: seq<Result>, t: RowNumber, entries: seq<int>)
    requires level < 6
  {
    exists rows :: Filtered(child, OnRow(level, t), rows) && entries == Flatten(EntryLists(rows))
  }

  /** The entries of a row are those of the first child, then those of the second, and so on. */
  lemma {:induction false} GroupGathers(level: nat, children: seq<seq<Result>>, t: RowNumber) returns (parts: seq<seq<int>>)
    requires level < 6
    ensures Group(level, children, t) == Flatten(parts) && |parts| == |children|
    ensures forall i :: 0 <= i < |children| ==> Gathers(level, children[i], t, parts[i])
  {
    hide Gathers, Flatten, RowsOf, EntriesOf;
    if children == [] {
      parts := [];
      FlattenNone<int>();
    } else {
      var last := |children| - 1;
      parts := GroupGathers(level, children[..last], t);
      var rows := RowsOf(level, children[last], t);
      RowsFiltered(level, children[last], t);
      EntriesFlat(rows);
      assert Gathers(level, children[last], t, EntriesOf(rows)) by { GatherRows(level, children[last], t, rows); }
      FlattenMore(parts, EntriesOf(rows));
      parts := parts + [EntriesOf(rows)];
    }
  }

  lemma GatherRows(level: nat, child: seq<Result>, t: RowNumber, rows: seq<Result>)
    requires level < 6 && Filtered(child, OnRow(level, t), rows) && EntriesOf(rows) == Flatten(EntryLists(rows))
    ensures Gathers(level, child, t, EntriesOf(rows))
  {
  }

  lemma {:induction false} RowsFiltered(level: nat, rs: seq<Result>, t: RowNumber)
    requires level < 6
    ensures Filtered(rs, OnRow(level, t), RowsOf(level, rs, t))
    decreases |rs|
  {
    if rs == [] {
      FilteredNone(OnRow(level, t));
    } else {
      hide Filtered;
      var front, last := rs[..|rs| - 1], rs[|rs| - 1];
      assert rs == front + [last];
      RowsFiltered(level, front, t);
      FilteredMore(front, last, OnRow(level, t), RowsOf(level, front, t));
      RowsOfConcat(level, front, [last], t);
      assert [last][1..] == [];
    }
  }

  lemma {:induction false} EntriesFlat(rs: seq<Result>)
    ensures EntriesOf(rs) == Flatten(EntryLists(rs))
  {
    if rs == [] {
      FlattenNone<int>();
    } else {
      EntriesFlat(rs[1..]);
      assert EntryLists(rs)[1..] == EntryLists(rs[1..]);
    }
  }
}
