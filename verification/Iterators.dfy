/** What iterators over rows give, and what their callers see of them. */
module Iterators {
  import opened RowNumbers
  import opened Sequences

  /** A row with the entries collected for it. */
  datatype Result = Result(row: RowNumber, entries: seq<int>)

  ghost predicate Ascends(level: nat, rs: seq<Result>)
    requires level < 6
  {
    forall i, j :: 0 <= i < j < |rs| ==> !RowBefore(level, rs[j].row, rs[i].row)
  }

  /** The rest of a list from the first row that is not before `to`. */
  ghost function DropBefore(level: nat, to: RowNumber, rs: seq<Result>): (r: seq<Result>)
    requires level < 6
    ensures |r| <= |rs|
    ensures rs != [] && RowBefore(level, rs[0].row, to) ==> |r| < |rs|
  {
    if rs != [] && RowBefore(level, rs[0].row, to) then DropBefore(level, to, rs[1..]) else rs
  }

  // ----- calls and answers -----

  datatype Event =
    | Silent                                                     // nothing the caller sees
    | Nexted(result: Option<Result>)                             // `Next` has returned
    | Sought(to: RowNumber, level: nat, result: Option<Result>)  // `Seek` has returned

  function Head(rs: seq<Result>): Option<Result> {
    if rs == [] then None else Some(rs[0])
  }

  function Tail(rs: seq<Result>): seq<Result> {
    if rs == [] then [] else rs[1..]
  }

  /** The results seen are those of an iterator over the list `rs`. */
  ghost predicate Explains(rs: seq<Result>, events: seq<Event>)
    decreases |events|
  {
    if events == [] then true
    else match events[0]
      case Silent => Explains(rs, events[1..])
      case Nexted(result) => result == Head(rs) && Explains(Tail(rs), events[1..])
      case Sought(to, level, result) =>
        && level < 6
        && result == Head(DropBefore(level, to, rs))
        && Explains(Tail(DropBefore(level, to, rs)), events[1..])
  }

  /** What is left of the list after an event. */
  ghost function Left(rs: seq<Result>, e: Event): seq<Result> {
    match e
    case Silent => rs
    case Nexted(_) => Tail(rs)
    case Sought(to, level, _) => if level < 6 then Tail(DropBefore(level, to, rs)) else rs
  }

  ghost predicate Answers(rs: seq<Result>, e: Event) {
    match e
    case Silent => true
    case Nexted(result) => result == Head(rs)
    case Sought(to, level, result) => level < 6 && result == Head(DropBefore(level, to, rs))
  }

  ghost function LeftAfter(rs: seq<Result>, events: seq<Event>): seq<Result>
    decreases |events|
  {
    if events == [] then rs else LeftAfter(Left(rs, events[0]), events[1..])
  }

  lemma {:induction false} ExplainsMore(rs: seq<Result>, events: seq<Event>, e: Event)
    ensures Explains(rs, events + [e]) <==> Explains(rs, events) && Answers(LeftAfter(rs, events), e)
    ensures LeftAfter(rs, events + [e]) == Left(LeftAfter(rs, events), e)
    decreases |events|
  {
    if events == [] {
      assert ([] + [e])[0] == e && ([] + [e])[1..] == [];
    } else {
      hide DropBefore;
      assert (events + [e])[0] == events[0] && (events + [e])[1..] == events[1..] + [e];
      ExplainsMore(Left(rs, events[0]), events[1..], e);
    }
  }

  /** What the caller sees. */
  function Visible(events: seq<Event>): seq<Event> {
    if events == [] then []
    else (if events[0] == Silent then [] else [events[0]]) + Visible(events[1..])
  }

  /** The same calls, whatever the answers. */
  ghost predicate SameCalls(a: seq<Event>, b: seq<Event>) {
    |a| == |b| && forall i :: 0 <= i < |a| ==> SameCall(a[i], b[i])
  }

  ghost predicate SameCall(a: Event, b: Event) {
    match (a, b)
    case (Nexted(_), Nexted(_)) => true
    case (Sought(to, level, _), Sought(to', level', _)) => to == to' && level == level'
    case _ => false
  }

  lemma FirstVisible(events: seq<Event>)
    requires events != []
    ensures events[0] == Silent ==> Visible(events) == Visible(events[1..])
    ensures events[0] != Silent ==> Visible(events) != [] && Visible(events)[0] == events[0] && Visible(events)[1..] == Visible(events[1..])
  {
  }

  lemma SameCallsRest(a: seq<Event>, b: seq<Event>)
    requires SameCalls(a, b) && a != []
    ensures b != [] && SameCall(a[0], b[0]) && SameCalls(a[1..], b[1..])
  {
  }

  /** The same call of the same list has the same answer, and leaves the same. */
  lemma SameAnswer(rs: seq<Result>, events: seq<Event>, trace: seq<Event>)
    requires events != [] && trace != [] && SameCall(events[0], trace[0]) && Explains(rs, events) && Explains(rs, trace)
    ensures events[0] == trace[0] && Explains(Left(rs, events[0]), events[1..]) && Explains(Left(rs, events[0]), trace[1..])
  {
    hide DropBefore;
  }

  /** An iterator over a list has one answer to each call. */
  lemma {:induction false} SameAnswers(rs: seq<Result>, events: seq<Event>, trace: seq<Event>)
    requires Explains(rs, events) && Explains(rs, trace) && SameCalls(Visible(events), trace)
    ensures Visible(events) == trace
    decreases |events|
  {
    if events != [] {
      FirstVisible(events);
      if events[0] == Silent {
        SameAnswers(rs, events[1..], trace);
      } else {
        SameCallsRest(Visible(events), trace);
        SameAnswer(rs, events, trace);
        hide *;
        SameAnswers(Left(rs, events[0]), events[1..], trace[1..]);
        assert trace == [trace[0]] + trace[1..] && Visible(events) == [events[0]] + Visible(events)[1..];
      }
    }
  }

  // ----- the answers alone -----

  function AnswerOf(e: Event): seq<Result> {
    match e
    case Silent => []
    case Nexted(result) => if result.Some? then [result.value] else []
    case Sought(_, _, result) => if result.Some? then [result.value] else []
  }

  /** The results that the calls of a caller were answered with. */
  function Answered(events: seq<Event>): seq<Result> {
    if events == [] then [] else Answered(events[..|events| - 1]) + AnswerOf(events[|events| - 1])
  }

  lemma AnsweredMore(events: seq<Event>, e: Event)
    ensures Answered(events + [e]) == Answered(events) + AnswerOf(e)
  {
    assert (events + [e])[..|events|] == events;
  }
}
