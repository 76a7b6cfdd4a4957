/** `ColumnIterator`: a background producer numbers and filters the values of a column,
    skipping chunks and pages by predicate and by the row the consumer seeks.

    Producer and consumer are a step relation; the results the consumer sees are those of
    a naive scan of the whole column. */
module ColumnIterator {
  import opened RowNumbers
  import opened Iterators
  import opened Sequences

  datatype LeveledValue = Value(repetitionLevel: nat, definitionLevel: nat, datum: int)
  type Value = v: LeveledValue | v.repetitionLevel <= v.definitionLevel < 6 witness Value(0, 0, 0)
  type Page = seq<Value>
  type Chunk = seq<Page>

  /** A pushdown predicate. */
  datatype Predicate = Predicate(keepChunk: Chunk -> bool, keepPage: Page -> bool, keepValue: Value -> bool)

  /** Pages start on row boundaries. */
  ghost predicate WellFormedPage(p: Page) {
    p != [] ==> p[0].repetitionLevel == 0
  }

  ghost predicate WellFormedChunk(c: Chunk) {
    forall i :: 0 <= i < |c| ==> WellFormedPage(c[i])
  }

  ghost predicate WellFormedColumn(cs: seq<Chunk>) {
    forall i :: 0 <= i < |cs| ==> WellFormedChunk(cs[i])
  }

  /** A page or chunk that is dropped holds no value that would be kept. */
  ghost predicate Sound(f: Predicate) {
    && (forall p: Page, v :: !f.keepPage(p) && v in p ==> !f.keepValue(v))
    && (forall c: Chunk, p, v :: !f.keepChunk(c) && p in c && v in p ==> !f.keepValue(v))
  }

  function NumRows(vs: seq<Value>): nat {
    if vs == [] then 0 else (if vs[0].repetitionLevel == 0 then 1 else 0) + NumRows(vs[1..])
  }

  function Values(cs: seq<Chunk>): seq<Value> {
    Flatten(Flatten(cs))
  }

  /** The naive scan: numbers all values and gives those the predicate keeps. */
  function Scan(f: Predicate, rn: RowNumber, vs: seq<Value>): seq<Result>
    decreases |vs|
  {
    if vs == [] then []
    else
      var rn' := NextRow(rn, vs[0].repetitionLevel, vs[0].definitionLevel);
      (if f.keepValue(vs[0]) then [Result(rn', [vs[0].datum])] else []) + Scan(f, rn', vs[1..])
  }

  /** The row number reached after scanning `vs`. */
  function After(rn: RowNumber, vs: seq<Value>): RowNumber
    decreases |vs|
  {
    if vs == [] then rn else After(NextRow(rn, vs[0].repetitionLevel, vs[0].definitionLevel), vs[1..])
  }

  lemma {:induction false} ScanConcat(f: Predicate, rn: RowNumber, a: seq<Value>, b: seq<Value>)
    ensures Scan(f, rn, a + b) == Scan(f, rn, a) + Scan(f, After(rn, a), b)
    decreases |a|
  {
    if a == [] {
      assert a + b == b;
    } else {
      assert (a + b)[0] == a[0] && (a + b)[1..] == a[1..] + b;
      ScanConcat(f, NextRow(rn, a[0].repetitionLevel, a[0].definitionLevel), a[1..], b);
    }
  }

  /** Leaving out whole rows shifts no later row number. */
  lemma SkipShiftsNothing(f: Predicate, rn: RowNumber, rn': RowNumber, vs: seq<Value>)
    requires vs != [] ==> vs[0].repetitionLevel == 0
    requires rn[0] == rn'[0]
    ensures Scan(f, rn, vs) == Scan(f, rn', vs)
  {
    if vs != [] {
      assert NextRow(rn, 0, vs[0].definitionLevel) == NextRow(rn', 0, vs[0].definitionLevel);
    }
  }

  lemma {:induction false} AfterCountsRows(rn: RowNumber, vs: seq<Value>)
    ensures After(rn, vs)[0] == rn[0] + NumRows(vs)
    decreases |vs|
  {
    if vs != [] {
      AfterCountsRows(NextRow(rn, vs[0].repetitionLevel, vs[0].definitionLevel), vs[1..]);
    }
  }

  lemma {:induction false} ScanNothing(f: Predicate, rn: RowNumber, vs: seq<Value>)
    requires forall v :: v in vs ==> !f.keepValue(v)
    ensures Scan(f, rn, vs) == []
    decreases |vs|
  {
    if vs != [] {
      ScanNothing(f, NextRow(rn, vs[0].repetitionLevel, vs[0].definitionLevel), vs[1..]);
    }
  }

  /** The rows of a scan lie between the row before it and the row after it. */
  lemma {:induction false} ScanBounds(f: Predicate, rn: RowNumber, vs: seq<Value>)
    ensures forall x :: x in Scan(f, rn, vs) ==> rn[0] <= x.row[0] <= After(rn, vs)[0]
    decreases |vs|
  {
    if vs != [] {
      ScanBounds(f, NextRow(rn, vs[0].repetitionLevel, vs[0].definitionLevel), vs[1..]);
      AfterCountsRows(NextRow(rn, vs[0].repetitionLevel, vs[0].definitionLevel), vs[1..]);
    }
  }

  lemma NextIsLater(level: nat, rn: RowNumber, v: Value)
    requires level < 6
    ensures !RowBefore(level, NextRow(rn, v.repetitionLevel, v.definitionLevel), rn)
  {
    var n, r := NextRow(rn, v.repetitionLevel, v.definitionLevel), v.repetitionLevel;
    if r <= level {
      assert rn[..r] == n[..r] && rn[r] < n[r];
    } else {
      assert rn[..level + 1] == n[..level + 1];
    }
    RowOrder(level, rn, n, n);
  }

  lemma {:induction false} ScanAscends(f: Predicate, level: nat, rn: RowNumber, vs: seq<Value>)
    requires level < 6
    ensures Ascends(level, Scan(f, rn, vs))
    ensures forall x :: x in Scan(f, rn, vs) ==> !RowBefore(level, x.row, rn)
    decreases |vs|
  {
    hide RowBefore, SameRow, NextRow;
    if vs != [] {
      var rn' := NextRow(rn, vs[0].repetitionLevel, vs[0].definitionLevel);
      ScanAscends(f, level, rn', vs[1..]);
      NextIsLater(level, rn, vs[0]);
      forall x | x in Scan(f, rn', vs[1..])
        ensures !RowBefore(level, x.row, rn)
      {
        RowOrder(level, x.row, rn, rn');
        RowOrder(level, rn, rn', x.row);
      }
      RowOrder(level, rn', rn', rn');
    }
  }

  // ----- producer and consumer -----

  datatype Producer = Producer(rn: RowNumber, values: seq<Value>, pages: seq<Page>, chunks: seq<Chunk>)

  /** The consumer is between calls, or inside `Seek`. */
  datatype Call = Idle | Seeking(to: RowNumber, level: nat)

  datatype State = State(
    producer: Producer,
    ch: seq<seq<Result>>,        // the channel, with room for one buffer
    closed: bool,
    curr: seq<Result>,           // what is left of the buffer at hand
    seekTo: Option<RowNumber>,   // shared between the two
    call: Call)

  ghost predicate Start(chunks: seq<Chunk>, s: State) {
    s == State(Producer(EmptyRowNumber(), [], [], chunks), [], false, [], None, Idle)
  }

  /** The consumer seeks a row beyond the next `n` rows. */
  ghost predicate CheckSkip(s: State, n: nat) {
    s.seekTo.Some? && RowBefore(0, SkipRows(s.producer.rn, n), s.seekTo.value)
  }

  /** The producer takes up a chunk, or skips it. */
  ghost predicate NextChunk(f: Predicate, s: State, s': State) {
    var p := s.producer;
    && p.values == [] && p.pages == [] && p.chunks != []
    && var n := NumRows(Flatten(p.chunks[0]));
       s' == s.(producer :=
         if CheckSkip(s, n) || !f.keepChunk(p.chunks[0])
         then Producer(SkipRows(p.rn, n), [], [], p.chunks[1..])
         else Producer(p.rn, [], p.chunks[0], p.chunks[1..]))
  }

  /** The producer takes up a page, or skips it. */
  ghost predicate NextPage(f: Predicate, s: State, s': State) {
    var p := s.producer;
    && p.values == [] && p.pages != []
    && var n := NumRows(p.pages[0]);
       s' == s.(producer :=
         if CheckSkip(s, n) || !f.keepPage(p.pages[0])
         then Producer(SkipRows(p.rn, n), [], p.pages[1..], p.chunks)
         else Producer(p.rn, p.pages[0], p.pages[1..], p.chunks))
  }

  /** The producer reads `count` values, numbers and filters them, and sends what is left. */
  ghost predicate ReadValues(f: Predicate, s: State, s': State, count: nat) {
    var p := s.producer;
    && 0 < count <= |p.values|
    && var kept := Scan(f, p.rn, p.values[..count]);
       && (kept != [] ==> s.ch == [])
       && s' == s.(producer := p.(rn := After(p.rn, p.values[..count]), values := p.values[count..]),
                   ch := if kept != [] then s.ch + [kept] else s.ch)
  }

  /** The producer is done. */
  ghost predicate CloseChannel(s: State, s': State) {
    && s.producer.values == [] && s.producer.pages == [] && s.producer.chunks == []
    && s' == s.(closed := true)
  }

  ghost predicate ProducerStep(f: Predicate, s: State, s': State) {
    && !s.closed
    && (NextChunk(f, s, s') || NextPage(f, s, s') || (exists count :: ReadValues(f, s, s', count)) || CloseChannel(s, s'))
  }

  /** `next()`: the rest of the buffer at hand, else the next buffer, else the end. */
  ghost predicate Take(s: State, s': State, result: Option<Result>) {
    if s.curr != [] then
      result == Some(s.curr[0]) && s' == s.(curr := s.curr[1..])
    else if s.ch != [] && s.ch[0] != [] then
      result == Some(s.ch[0][0]) && s' == s.(curr := s.ch[0][1..], ch := s.ch[1..])
    else
      s.closed && s.ch == [] && result == None && s' == s
  }

  ghost predicate Step(f: Predicate, s: State, s': State, e: Event) {
    match e
    case Silent =>
      || ProducerStep(f, s, s')
      || // `Seek` publishes its target
         (s.call == Idle && exists to, level :: level < 6 && s' == s.(seekTo := Some(to), call := Seeking(to, level)))
      || // `Seek` passes over a row before its target
         (s.call.Seeking? && s.call.level < 6 && exists x :: Take(s, s', Some(x)) && RowBefore(s.call.level, x.row, s.call.to))
    case Nexted(result) =>
      s.call == Idle && Take(s, s', result)
    case Sought(to, level, result) =>
      && s.call == Seeking(to, level) && level < 6
      && (result.Some? ==> !RowBefore(level, result.value.row, to))
      && Take(s, s'.(call := s.call), result) && s'.call == Idle
  }

  // ----- the proof -----

  /** The values the producer has not read. */
  function Unread(p: Producer): seq<Value> {
    p.values + (Flatten(p.pages) + Values(p.chunks))
  }

  /** What the consumer would still see if nothing more were skipped. */
  ghost function Ahead(f: Predicate, s: State): seq<Result> {
    s.curr + Flatten(s.ch) + Scan(f, s.producer.rn, Unread(s.producer))
  }

  /** The rows of an ascending list that are not before `to`. */
  ghost function From(level: nat, to: RowNumber, rs: seq<Result>): seq<Result>
    requires level < 6
  {
    if rs == [] then []
    else (if RowBefore(level, rs[0].row, to) then [] else [rs[0]]) + From(level, to, rs[1..])
  }

  lemma {:induction false} FromConcat(level: nat, to: RowNumber, a: seq<Result>, b: seq<Result>)
    requires level < 6
    ensures From(level, to, a + b) == From(level, to, a) + From(level, to, b)
  {
    if a == [] {
      assert a + b == b;
    } else {
      assert (a + b)[0] == a[0] && (a + b)[1..] == a[1..] + b;
      FromConcat(level, to, a[1..], b);
    }
  }

  lemma {:induction false} FromNothing(level: nat, to: RowNumber, rs: seq<Result>)
    requires level < 6 && forall x :: x in rs ==> RowBefore(level, x.row, to)
    ensures From(level, to, rs) == []
  {
    if rs != [] {
      FromNothing(level, to, rs[1..]);
    }
  }

  lemma {:induction false} FromAll(level: nat, to: RowNumber, rs: seq<Result>)
    requires level < 6 && forall x :: x in rs ==> !RowBefore(level, x.row, to)
    ensures From(level, to, rs) == rs
  {
    if rs != [] {
      FromAll(level, to, rs[1..]);
    }
  }

  /** On an ascending list, dropping the rows before `to` is filtering them out. */
  lemma {:induction false} DropIsFrom(level: nat, to: RowNumber, rs: seq<Result>)
    requires level < 6 && Ascends(level, rs)
    ensures DropBefore(level, to, rs) == From(level, to, rs)
  {
    if rs != [] {
      if RowBefore(level, rs[0].row, to) {
        DropIsFrom(level, to, rs[1..]);
      } else {
        FirstFrom(level, to, rs);
      }
    }
  }

  /** If the first row of an ascending list is not before `to`, none is. */
  lemma FirstFrom(level: nat, to: RowNumber, rs: seq<Result>)
    requires level < 6 && Ascends(level, rs) && rs != [] && !RowBefore(level, rs[0].row, to)
    ensures From(level, to, rs) == rs
  {
    hide RowBefore, SameRow;
    forall x | x in rs
      ensures !RowBefore(level, x.row, to)
    {
      var i :| 0 <= i < |rs| && rs[i] == x;
      if i > 0 {
        RowOrder(level, x.row, to, rs[0].row);
        RowOrder(level, to, rs[0].row, x.row);
      }
    }
    FromAll(level, to, rs);
  }

  lemma {:induction false} FlattenPages(pages: seq<Page>)
    requires WellFormedChunk(pages)
    ensures WellFormedPage(Flatten(pages))
  {
    if pages != [] {
      FlattenPages(pages[1..]);
    }
  }

  lemma {:induction false} FlattenChunks(chunks: seq<Chunk>)
    requires WellFormedColumn(chunks)
    ensures WellFormedChunk(Flatten(chunks))
  {
    if chunks != [] {
      FlattenChunks(chunks[1..]);
    }
  }

  ghost predicate ValidProducer(p: Producer) {
    WellFormedChunk(p.pages) && WellFormedColumn(p.chunks)
  }

  /** Skipping whole pages: the scan loses exactly what these pages hold. */
  lemma ScanSkips(f: Predicate, rn: RowNumber, skipped: seq<Value>, rest: seq<Value>)
    requires WellFormedPage(rest)
    ensures Scan(f, rn, skipped + rest) == Scan(f, rn, skipped) + Scan(f, SkipRows(rn, NumRows(skipped)), rest)
  {
    ScanConcat(f, rn, skipped, rest);
    AfterCountsRows(rn, skipped);
    SkipShiftsNothing(f, After(rn, skipped), SkipRows(rn, NumRows(skipped)), rest);
  }

  /** What a skipped stretch may hold: nothing the predicate keeps, or rows before the
      row the consumer seeks. */
  ghost predicate Skippable(f: Predicate, s: State, skipped: seq<Value>) {
    || (forall v :: v in skipped ==> !f.keepValue(v))
    || CheckSkip(s, NumRows(skipped))
  }

  lemma {:induction false} InFlatten<T>(ss: seq<seq<T>>, x: T)
    requires x in Flatten(ss)
    ensures exists i :: 0 <= i < |ss| && x in ss[i]
  {
    if x in ss[0] {
    } else {
      InFlatten(ss[1..], x);
      var i :| 0 <= i < |ss[1..]| && x in ss[1..][i];
      assert x in ss[i + 1];
    }
  }

  /** The producer has moved on: the unread values stay the same, or lose the stretch `skipped`. */
  ghost predicate MovedOn(f: Predicate, s: State, s': State, skipped: seq<Value>) {
    && s' == s.(producer := s'.producer) && ValidProducer(s'.producer)
    && Unread(s.producer) == skipped + Unread(s'.producer)
    && (if skipped == [] then
          && s'.producer.rn[0] == s.producer.rn[0]
          && (s'.producer.rn == s.producer.rn || WellFormedPage(Unread(s'.producer)))
        else
          && Skippable(f, s, skipped) && WellFormedPage(Unread(s'.producer))
          && s'.producer.rn == SkipRows(s.producer.rn, NumRows(skipped)))
  }

  lemma UnreadStartsRow(p: Producer)
    requires ValidProducer(p) && p.values == []
    ensures WellFormedPage(Unread(p))
  {
    hide Flatten;
    FlattenChunks(p.chunks);
    FlattenPages(Flatten(p.chunks));
    FlattenPages(p.pages);
  }

  lemma NextPageMovesOn(f: Predicate, s: State, s': State) returns (skipped: seq<Value>)
    requires Sound(f) && ValidProducer(s.producer) && NextPage(f, s, s')
    ensures MovedOn(f, s, s', skipped)
  {
    var p, p' := s.producer, s'.producer;
    assert Unread(p) == p.pages[0] + (Flatten(p'.pages) + Values(p'.chunks)) by {
      assert p'.pages == p.pages[1..];
    }
    hide Flatten;
    assert ValidProducer(p');
    if p'.values == p.pages[0] && p.pages[0] != [] {
      skipped := [];
      assert Unread(p) == Unread(p') == [] + Unread(p');
    } else {
      skipped := p.pages[0];
      UnreadStartsRow(p');
      assert Unread(p') == Flatten(p'.pages) + Values(p'.chunks);
    }
  }

  lemma NextChunkMovesOn(f: Predicate, s: State, s': State) returns (skipped: seq<Value>)
    requires Sound(f) && ValidProducer(s.producer) && NextChunk(f, s, s')
    ensures MovedOn(f, s, s', skipped)
  {
    var p, p' := s.producer, s'.producer;
    var c := p.chunks[0];
    assert Values(p.chunks) == Flatten(c) + Values(p.chunks[1..]) by {
      FlattenConcat(c, Flatten(p.chunks[1..]));
    }
    assert Unread(p) == Flatten(c) + Values(p.chunks[1..]);
    hide Flatten;
    assert ValidProducer(p');
    UnreadStartsRow(p');
    if p' == Producer(p.rn, [], c, p.chunks[1..]) {
      skipped := [];
      assert Unread(p') == Flatten(c) + Values(p.chunks[1..]);
    } else {
      skipped := Flatten(c);
      assert Unread(p') == Values(p.chunks[1..]) by { FlattenEmpty(); }
      if !f.keepChunk(c) {
        forall v | v in Flatten(c)
          ensures !f.keepValue(v)
        {
          InFlatten(c, v);
          var i :| 0 <= i < |c| && v in c[i];
          assert c[i] in c;
        }
      }
    }
  }

  lemma FlattenEmpty()
    ensures Flatten<Value>([]) == []
  {
  }

  ghost predicate AlwaysAscends(rs: seq<Result>) {
    forall level :: 0 <= level < 6 ==> Ascends(level, rs)
  }

  /** What the shared state and the buffers look like. */
  ghost predicate Buffered(s: State) {
    && ValidProducer(s.producer)
    && (forall i :: 0 <= i < |s.ch| ==> s.ch[i] != [])
    && (forall x :: x in s.curr || x in Flatten(s.ch) ==> x.row[0] <= s.producer.rn[0])
    && (s.closed ==> Unread(s.producer) == [])
  }

  /** The iterator stands for the list `rs`: between calls it will give exactly this list;
      inside `Seek`, exactly the rows of the list from the target on. */
  ghost predicate StandsFor(f: Predicate, s: State, rs: seq<Result>) {
    && Buffered(s) && AlwaysAscends(Ahead(f, s)) && AlwaysAscends(rs)
    && match s.call
       case Idle => Ahead(f, s) == rs && (s.seekTo.Some? ==> s.closed || s.seekTo.value[0] <= s.producer.rn[0])
       case Seeking(to, level) => level < 6 && s.seekTo == Some(to) && From(level, to, Ahead(f, s)) == From(level, to, rs)
  }

  lemma AscendsWithout(a: seq<Result>, b: seq<Result>, c: seq<Result>)
    requires AlwaysAscends(a + b + c)
    ensures AlwaysAscends(a + c)
  {
    forall level, i, j | 0 <= level < 6 && 0 <= i < j < |a + c|
      ensures !RowBefore(level, (a + c)[j].row, (a + c)[i].row)
    {
      var i' := if i < |a| then i else i + |b|;
      var j' := if j < |a| then j else j + |b|;
      assert Ascends(level, a + b + c);
      assert (a + b + c)[i'] == (a + c)[i] && (a + b + c)[j'] == (a + c)[j];
    }
  }

  lemma BeforeByRoot(level: nat, a: RowNumber, b: RowNumber)
    requires level < 6 && a[0] < b[0]
    ensures RowBefore(level, a, b)
  {
    assert a[..0] == b[..0];
  }

  lemma SkippedAreBefore(f: Predicate, s: State, skipped: seq<Value>, level: nat)
    requires level < 6 && CheckSkip(s, NumRows(skipped))
    ensures forall x :: x in Scan(f, s.producer.rn, skipped) ==> RowBefore(level, x.row, s.seekTo.value)
  {
    ScanBounds(f, s.producer.rn, skipped);
    AfterCountsRows(s.producer.rn, skipped);
    forall x | x in Scan(f, s.producer.rn, skipped)
      ensures RowBefore(level, x.row, s.seekTo.value)
    {
      BeforeByRoot(level, x.row, s.seekTo.value);
    }
  }

  lemma FromWithout(level: nat, to: RowNumber, a: seq<Result>, b: seq<Result>, c: seq<Result>)
    requires level < 6 && forall x :: x in b ==> RowBefore(level, x.row, to)
    ensures From(level, to, a + b + c) == From(level, to, a + c)
  {
    FromNothing(level, to, b);
    FromConcat(level, to, a, b);
    FromConcat(level, to, a + b, c);
    FromConcat(level, to, a, c);
  }

  /** The producer moves on without the consumer losing a row it will ask for. */
  lemma MovedOnStandsFor(f: Predicate, s: State, s': State, skipped: seq<Value>, rs: seq<Result>)
    requires StandsFor(f, s, rs) && !s.closed && MovedOn(f, s, s', skipped)
    ensures StandsFor(f, s', rs)
  {
    hide Scan, Flatten, Ascends, Unread;
    var b, rn, rest := s.curr + Flatten(s.ch), s.producer.rn, Unread(s'.producer);
    var gone := Scan(f, rn, skipped);
    var rest' := Scan(f, s'.producer.rn, rest);
    if skipped == [] {
      assert [] + rest == rest;
      if s'.producer.rn != rn {
        SkipShiftsNothing(f, rn, s'.producer.rn, rest);
      }
    } else {
      ScanSkips(f, rn, skipped, rest);
      SeqAssociative(b, gone, rest');
      assert Ahead(f, s') == b + rest';
      if forall v :: v in skipped ==> !f.keepValue(v) {
        ScanNothing(f, rn, skipped);
        assert b + [] + rest' == b + rest';
      } else {
        SkippedAreBefore(f, s, skipped, s.call.level);
        FromWithout(s.call.level, s.call.to, b, gone, rest');
        AscendsWithout(b, gone, rest');
      }
    }
  }

  /** Reading values moves them from the unread ones to the channel. */
  lemma ReadValuesMoves(f: Predicate, s: State, s': State, count: nat)
    requires ReadValues(f, s, s', count)
    ensures Ahead(f, s') == Ahead(f, s)
  {
    var p := s.producer;
    var now, kept := p.values[..count], Scan(f, p.rn, p.values[..count]);
    assert Flatten(s'.ch) == Flatten(s.ch) + kept by {
      if kept != [] {
        FlattenOne(kept);
        assert s'.ch == [kept];
      }
    }
    hide Flatten, Scan;
    assert p.values == now + p.values[count..];
    SeqAssociative(now, p.values[count..], Flatten(p.pages) + Values(p.chunks));
    ScanConcat(f, p.rn, now, Unread(s'.producer));
    Regroup(s.curr, Flatten(s.ch), kept, Scan(f, s'.producer.rn, Unread(s'.producer)));
  }

  lemma Regroup(a: seq<Result>, b: seq<Result>, c: seq<Result>, d: seq<Result>)
    ensures a + b + (c + d) == a + (b + c) + d
  {
  }

  lemma ReadValuesBuffers(f: Predicate, s: State, s': State, count: nat)
    requires Buffered(s) && !s.closed && ReadValues(f, s, s', count)
    ensures Buffered(s') && s'.producer.rn[0] >= s.producer.rn[0]
  {
    var p := s.producer;
    var now := p.values[..count];
    ScanBounds(f, p.rn, now);
    AfterCountsRows(p.rn, now);
    FlattenOne(Scan(f, p.rn, now));
    hide Scan, Flatten, After;
    if s.ch == [] {
      assert s.ch + [Scan(f, p.rn, now)] == [Scan(f, p.rn, now)];
    }
  }

  lemma ReadValuesStandsFor(f: Predicate, s: State, s': State, count: nat, rs: seq<Result>)
    requires StandsFor(f, s, rs) && !s.closed && ReadValues(f, s, s', count)
    ensures StandsFor(f, s', rs)
  {
    hide Ahead, AlwaysAscends, Buffered, Scan, From;
    ReadValuesMoves(f, s, s', count);
    ReadValuesBuffers(f, s, s', count);
  }

  lemma ProducerStepStandsFor(f: Predicate, s: State, s': State, rs: seq<Result>)
    requires Sound(f) && StandsFor(f, s, rs) && ProducerStep(f, s, s')
    ensures StandsFor(f, s', rs)
  {
    hide StandsFor, NextChunk, NextPage, ReadValues, MovedOn;
    assert Buffered(s) by { StandsForBuffered(f, s, rs); }
    if NextChunk(f, s, s') {
      var skipped := NextChunkMovesOn(f, s, s');
      MovedOnStandsFor(f, s, s', skipped, rs);
    } else if NextPage(f, s, s') {
      var skipped := NextPageMovesOn(f, s, s');
      MovedOnStandsFor(f, s, s', skipped, rs);
    } else if count: nat :| ReadValues(f, s, s', count) {
      ReadValuesStandsFor(f, s, s', count, rs);
    } else {
      ClosedStandsFor(f, s, s', rs);
    }
  }

  lemma StandsForBuffered(f: Predicate, s: State, rs: seq<Result>)
    requires StandsFor(f, s, rs)
    ensures Buffered(s)
  {
  }

  lemma ClosedStandsFor(f: Predicate, s: State, s': State, rs: seq<Result>)
    requires StandsFor(f, s, rs) && CloseChannel(s, s')
    ensures StandsFor(f, s', rs)
  {
    assert Unread(s.producer) == [];
    assert Ahead(f, s') == Ahead(f, s);
  }

  lemma FirstOf(c: seq<Result>, b: seq<Result>, rest: seq<Result>)
    requires c != []
    ensures Head(c + b + rest) == Some(c[0]) && Tail(c + b + rest) == c[1..] + b + rest
  {
    assert (c + b)[1..] == c[1..] + b;
    assert (c + b + rest)[1..] == (c + b)[1..] + rest;
  }

  lemma TakeBuffers(s: State, s': State, result: Option<Result>)
    requires Buffered(s) && Take(s, s', result)
    ensures Buffered(s')
  {
    assert s.ch != [] ==> Flatten(s.ch) == s.ch[0] + Flatten(s.ch[1..]);
    hide Flatten, Unread;
  }

  /** Taking a row takes the first of those ahead; there is none only at the end. */
  lemma TakeFirst(f: Predicate, s: State, s': State, result: Option<Result>)
    requires Buffered(s) && Take(s, s', result)
    ensures Buffered(s') && result == Head(Ahead(f, s)) && Ahead(f, s') == Tail(Ahead(f, s))
  {
    var rest := Scan(f, s.producer.rn, Unread(s.producer));
    assert s.ch != [] ==> Flatten(s.ch) == s.ch[0] + Flatten(s.ch[1..]);
    assert s.closed && s.ch == [] ==> Flatten(s.ch) == [] == rest;
    TakeBuffers(s, s', result);
    hide Flatten, Scan, Unread;
    if s.curr != [] {
      FirstOf(s.curr, Flatten(s.ch), rest);
    } else {
      assert [] + Flatten(s.ch) + rest == Flatten(s.ch) + rest;
      if s.ch != [] {
        FirstOf(s.ch[0], Flatten(s.ch[1..]), rest);
      }
    }
  }

  lemma AscendsTail(rs: seq<Result>)
    requires AlwaysAscends(rs)
    ensures AlwaysAscends(Tail(rs))
  {
    if rs != [] {
      assert [] + [rs[0]] + rs[1..] == rs && [] + rs[1..] == rs[1..];
      AscendsWithout([], [rs[0]], rs[1..]);
    }
  }

  lemma NextStandsFor(f: Predicate, s: State, s': State, result: Option<Result>, rs: seq<Result>)
    requires StandsFor(f, s, rs) && s.call == Idle && Take(s, s', result)
    ensures result == Head(rs) && StandsFor(f, s', Tail(rs))
  {
    hide Ahead, AlwaysAscends, Buffered;
    TakeFirst(f, s, s', result);
    AscendsTail(rs);
  }

  /** `Seek` passes over rows before its target. */
  lemma PassStandsFor(f: Predicate, s: State, s': State, x: Result, rs: seq<Result>)
    requires StandsFor(f, s, rs) && s.call.Seeking? && Take(s, s', Some(x)) && RowBefore(s.call.level, x.row, s.call.to)
    ensures StandsFor(f, s', rs)
  {
    hide Ahead, AlwaysAscends, Buffered;
    TakeFirst(f, s, s', Some(x));
    AscendsTail(Ahead(f, s));
  }

  /** `Seek` returns the first row from its target on. */
  lemma SeekStandsFor(f: Predicate, s: State, s': State, to: RowNumber, level: nat, result: Option<Result>, rs: seq<Result>)
    requires StandsFor(f, s, rs) && Step(f, s, s', Sought(to, level, result))
    ensures result == Head(DropBefore(level, to, rs)) && StandsFor(f, s', Tail(DropBefore(level, to, rs)))
  {
    hide Ahead, AlwaysAscends, Buffered;
    var mid := s'.(call := s.call);
    var a := Ahead(f, s);
    TakeFirst(f, s, mid, result);
    AscendsAt(a, level);
    AscendsAt(rs, level);
    DropIsFrom(level, to, rs);
    AscendsTail(a);
    assert Ahead(f, s') == Ahead(f, mid) && Buffered(s') by { SameCall(f, mid, s'); }
    if result.Some? {
      FirstFrom(level, to, a);
      RowIsRead(s, mid, result.value, level, to);
    } else {
      assert s.closed;
    }
  }

  lemma AscendsAt(rs: seq<Result>, level: nat)
    requires AlwaysAscends(rs) && level < 6
    ensures Ascends(level, rs)
  {
  }

  lemma SameCall(f: Predicate, s: State, s': State)
    requires Buffered(s) && s' == s.(call := s'.call)
    ensures Buffered(s') && Ahead(f, s') == Ahead(f, s)
  {
  }

  /** The producer has read past every row that was taken. */
  lemma RowIsRead(s: State, s': State, x: Result, level: nat, to: RowNumber)
    requires level < 6 && Buffered(s) && Take(s, s', Some(x)) && !RowBefore(level, x.row, to)
    ensures to[0] <= s'.producer.rn[0]
  {
    if s.curr == [] {
      assert s.ch[0][0] in Flatten(s.ch);
    }
    if x.row[0] < to[0] {
      BeforeByRoot(level, x.row, to);
    }
  }

  lemma SeekStarts(f: Predicate, s: State, s': State, to: RowNumber, level: nat, rs: seq<Result>)
    requires StandsFor(f, s, rs) && s.call == Idle && level < 6 && s' == s.(seekTo := Some(to), call := Seeking(to, level))
    ensures StandsFor(f, s', rs)
  {
    assert Ahead(f, s') == Ahead(f, s);
  }

  lemma SilentStandsFor(f: Predicate, s: State, s': State, rs: seq<Result>)
    requires Sound(f) && StandsFor(f, s, rs) && Step(f, s, s', Silent)
    ensures StandsFor(f, s', rs)
  {
    hide StandsFor, Take, RowBefore, ProducerStep;
    if ProducerStep(f, s, s') {
      ProducerStepStandsFor(f, s, s', rs);
    } else if s.call == Idle {
      var to, level :| 0 <= level < 6 && s' == s.(seekTo := Some(to), call := Seeking(to, level));
      SeekStarts(f, s, s', to, level, rs);
    } else {
      var x :| Take(s, s', Some(x)) && RowBefore(s.call.level, x.row, s.call.to);
      PassStandsFor(f, s, s', x, rs);
    }
  }

  /** A run: states and, between them, the events the caller sees. */
  ghost predicate Run(f: Predicate, states: seq<State>, events: seq<Event>) {
    && |states| == |events| + 1
    && forall k :: 0 <= k < |events| ==> Step(f, states[k], states[k + 1], events[k])
  }

  lemma {:induction false} RunIsExplained(f: Predicate, states: seq<State>, events: seq<Event>, rs: seq<Result>)
    requires Sound(f) && Run(f, states, events) && StandsFor(f, states[0], rs)
    ensures Explains(rs, events)
    decreases |events|
  {
    hide StandsFor, Step, Sound, DropBefore;
    if events != [] {
      var rs' := rs;
      assert Step(f, states[0], states[1], events[0]);
      match events[0] {
        case Silent =>
          SilentStandsFor(f, states[0], states[1], rs);
        case Nexted(result) =>
          NextedIsTake(f, states[0], states[1], result);
          NextStandsFor(f, states[0], states[1], result, rs);
          rs' := Tail(rs);
        case Sought(to, level, result) =>
          SoughtLevel(f, states[0], states[1], to, level, result);
          SeekStandsFor(f, states[0], states[1], to, level, result, rs);
          rs' := Tail(DropBefore(level, to, rs));
      }
      RunIsExplained(f, states[1..], events[1..], rs');
    }
  }

  lemma NextedIsTake(f: Predicate, s: State, s': State, result: Option<Result>)
    requires Step(f, s, s', Nexted(result))
    ensures s.call == Idle && Take(s, s', result)
  {
  }

  lemma SoughtLevel(f: Predicate, s: State, s': State, to: RowNumber, level: nat, result: Option<Result>)
    requires Step(f, s, s', Sought(to, level, result))
    ensures level < 6
  {
  }

  /** In every interleaving of the producer with any calls of `Next` and `Seek`, the caller
      sees what an iterator over the naive scan of the column gives: no skipped chunk or page
      loses a row the caller asks for or shifts a row number. */
  lemma EveryRunIsNaive(f: Predicate, chunks: seq<Chunk>, states: seq<State>, events: seq<Event>)
    requires Sound(f) && WellFormedColumn(chunks)
    requires Run(f, states, events) && Start(chunks, states[0])
    ensures Explains(Scan(f, EmptyRowNumber(), Values(chunks)), events)
  {
    StartStandsFor(f, chunks, states[0]);
    RunIsExplained(f, states, events, Scan(f, EmptyRowNumber(), Values(chunks)));
  }

  lemma StartStandsFor(f: Predicate, chunks: seq<Chunk>, s: State)
    requires WellFormedColumn(chunks) && Start(chunks, s)
    ensures StandsFor(f, s, Scan(f, EmptyRowNumber(), Values(chunks)))
  {
    var rs := Scan(f, EmptyRowNumber(), Values(chunks));
    assert Unread(s.producer) == Values(chunks);
    assert Ahead(f, s) == rs;
    forall level | 0 <= level < 6
      ensures Ascends(level, rs)
    {
      ScanAscends(f, level, EmptyRowNumber(), Values(chunks));
    }
  }

  // ----- calls return -----

  function PagesWork(pages: seq<Page>): nat {
    if pages == [] then 0 else 1 + 2 * |pages[0]| + PagesWork(pages[1..])
  }

  function ChunksWork(chunks: seq<Chunk>): nat {
    if chunks == [] then 0 else 1 + PagesWork(chunks[0]) + ChunksWork(chunks[1..])
  }

  /** What is left to do: values not read weigh twice what results not taken do. */
  function Work(s: State): nat {
    (if s.closed then 0 else 1) + 2 * |s.producer.values| + PagesWork(s.producer.pages) + ChunksWork(s.producer.chunks)
    + |s.curr| + |Flatten(s.ch)|
  }

  lemma {:induction false} ScanShrinks(f: Predicate, rn: RowNumber, vs: seq<Value>)
    ensures |Scan(f, rn, vs)| <= |vs|
    decreases |vs|
  {
    if vs != [] {
      ScanShrinks(f, NextRow(rn, vs[0].repetitionLevel, vs[0].definitionLevel), vs[1..]);
    }
  }

  /** Every step of the producer uses up work, so its runs are bounded. */
  lemma ProducerWorks(f: Predicate, s: State, s': State)
    requires ProducerStep(f, s, s')
    ensures Work(s') < Work(s) && s'.call == s.call
  {
    if count: nat :| ReadValues(f, s, s', count) {
      var now := s.producer.values[..count];
      ScanShrinks(f, s.producer.rn, now);
      FlattenMore(s.ch, Scan(f, s.producer.rn, now));
      hide Scan, Flatten, After;
    } else {
      hide Flatten, CheckSkip, SkipRows;
    }
  }

  /** So does every row taken, by `Next` or on the way of `Seek`. */
  lemma TakeWorks(s: State, s': State, result: Option<Result>)
    requires Take(s, s', result)
    ensures result.Some? ==> Work(s') < Work(s)
    ensures result.None? ==> s' == s && s.closed && s.curr == [] && s.ch == []
  {
    if s.curr == [] && s.ch != [] {
      assert Flatten(s.ch) == s.ch[0] + Flatten(s.ch[1..]);
    }
  }

  /** The steps of a call that is under way, and those of the producer. */
  ghost predicate Waiting(f: Predicate, s: State, s': State) {
    || ProducerStep(f, s, s')
    || (s.call.Seeking? && s.call.level < 6 && exists x :: Take(s, s', Some(x)) && RowBefore(s.call.level, x.row, s.call.to))
  }

  /** While a call has not returned, every step uses up work; so it takes at most `Work` steps. */
  lemma WaitingWorks(f: Predicate, s: State, s': State)
    requires Waiting(f, s, s')
    ensures Step(f, s, s', Silent) && Work(s') < Work(s) && s'.call == s.call
  {
    hide Work;
    if ProducerStep(f, s, s') {
      ProducerWorks(f, s, s');
    } else {
      var x :| Take(s, s', Some(x)) && RowBefore(s.call.level, x.row, s.call.to);
      TakeWorks(s, s', Some(x));
    }
  }

  /** Producer and consumer never wait for each other: a call, of `Next` when idle and of `Seek`
      when seeking, can return or some step can be made. */
  lemma CanStep(f: Predicate, s: State) returns (s': State, e: Event)
    requires Buffered(s) && (s.call.Seeking? ==> s.call.level < 6)
    ensures Step(f, s, s', e)
    ensures match e
      case Silent => Waiting(f, s, s')
      case Nexted(_) => s.call == Idle
      case Sought(to, level, _) => s.call == Seeking(to, level)
  {
    if s.curr == [] && s.ch == [] && !s.closed {
      s' := ProducerCanStep(f, s);
      e := Silent;
    } else {
      var result;
      s', result := CanTake(s);
      match s.call
      case Idle =>
        e := Nexted(result);
      case Seeking(to, level) =>
        if result.Some? && RowBefore(level, result.value.row, to) {
          e := Silent;
        } else {
          e := Sought(to, level, result);
          var taken := s';
          s' := s'.(call := Idle);
          assert s'.(call := s.call) == taken;
        }
    }
  }

  lemma {:induction false} RunStandsFor(f: Predicate, states: seq<State>, events: seq<Event>, rs: seq<Result>,
                                        k: nat) returns (rs': seq<Result>)
    requires Sound(f) && Run(f, states, events) && StandsFor(f, states[0], rs) && k < |states|
    ensures StandsFor(f, states[k], rs')
  {
    hide StandsFor, Step, Sound, DropBefore;
    rs' := rs;
    if k > 0 {
      rs' := RunStandsFor(f, states, events, rs, k - 1);
      assert Step(f, states[k - 1], states[k], events[k - 1]);
      match events[k - 1] {
        case Silent =>
          SilentStandsFor(f, states[k - 1], states[k], rs');
        case Nexted(result) =>
          NextedIsTake(f, states[k - 1], states[k], result);
          NextStandsFor(f, states[k - 1], states[k], result, rs');
          rs' := Tail(rs');
        case Sought(to, level, result) =>
          SoughtLevel(f, states[k - 1], states[k], to, level, result);
          SeekStandsFor(f, states[k - 1], states[k], to, level, result, rs');
          rs' := Tail(DropBefore(level, to, rs'));
      }
    }
  }

  /** This is so in every state of every run. */
  lemma NeverStuck(f: Predicate, chunks: seq<Chunk>, states: seq<State>, events: seq<Event>, k: nat) returns (s': State, e: Event)
    requires Sound(f) && WellFormedColumn(chunks) && Run(f, states, events) && Start(chunks, states[0]) && k < |states|
    ensures Step(f, states[k], s', e)
    ensures e == Silent ==> Waiting(f, states[k], s') && Work(s') < Work(states[k])
    ensures e != Silent ==> s'.call == Idle
  {
    StartStandsFor(f, chunks, states[0]);
    var rs := RunStandsFor(f, states, events, Scan(f, EmptyRowNumber(), Values(chunks)), k);
    assert Buffered(states[k]);
    hide StandsFor, Buffered, Work, Scan, Sound;
    s', e := CanStep(f, states[k]);
    if e == Silent {
      WaitingWorks(f, states[k], s');
    }
  }

  lemma CanTake(s: State) returns (s': State, result: Option<Result>)
    requires Buffered(s) && !(s.curr == [] && s.ch == [] && !s.closed)
    ensures Take(s, s', result) && s'.call == s.call
  {
    if s.curr != [] {
      s', result := s.(curr := s.curr[1..]), Some(s.curr[0]);
    } else if s.ch != [] {
      s', result := s.(curr := s.ch[0][1..], ch := s.ch[1..]), Some(s.ch[0][0]);
    } else {
      s', result := s, None;
    }
  }

  /** With room in the channel, a producer that has not closed it can go on. */
  lemma ProducerCanStep(f: Predicate, s: State) returns (s': State)
    requires !s.closed && s.ch == []
    ensures ProducerStep(f, s, s')
  {
    var p := s.producer;
    if p.values != [] {
      var now := p.values[..1];
      var kept := Scan(f, p.rn, now);
      s' := s.(producer := p.(rn := After(p.rn, now), values := p.values[1..]), ch := if kept != [] then s.ch + [kept] else s.ch);
      hide Scan, After;
      assert ReadValues(f, s, s', 1);
    } else if p.pages != [] {
      var n := NumRows(p.pages[0]);
      s' := s.(producer :=
        if CheckSkip(s, n) || !f.keepPage(p.pages[0])
        then Producer(SkipRows(p.rn, n), [], p.pages[1..], p.chunks)
        else Producer(p.rn, p.pages[0], p.pages[1..], p.chunks));
      hide CheckSkip;
      assert NextPage(f, s, s');
    } else if p.chunks != [] {
      var n := NumRows(Flatten(p.chunks[0]));
      s' := s.(producer :=
        if CheckSkip(s, n) || !f.keepChunk(p.chunks[0])
        then Producer(SkipRows(p.rn, n), [], [], p.chunks[1..])
        else Producer(p.rn, [], p.chunks[0], p.chunks[1..]));
      hide CheckSkip;
      assert NextChunk(f, s, s');
    } else {
      s' := s.(closed := true);
      assert CloseChannel(s, s');
    }
  }

  // ----- the predicates in use -----

  /** The least and greatest value of a page, where the file records them. */
  type Bounds = Page -> Option<(int, int)>

  ghost predicate TrueBounds(bounds: Bounds) {
    forall p: Page, v :: v in p && bounds(p).Some? ==> bounds(p).value.0 <= v.datum <= bounds(p).value.1
  }

  predicate Overlaps(lo: int, hi: int, bounds: Bounds, p: Page) {
    bounds(p).Some? ==> hi >= bounds(p).value.0 && lo <= bounds(p).value.1
  }

  /** A predicate that looks for values between `lo` and `hi`: pages are kept by their
      bounds, chunks if a page of their column index is. */
  function RangePredicate(lo: int, hi: int, keep: int -> bool, bounds: Bounds): Predicate {
    Predicate(
      (c: Chunk) => (exists i :: 0 <= i < |c| && bounds(c[i]).None?) || exists i :: 0 <= i < |c| && Overlaps(lo, hi, bounds, c[i]),
      (p: Page) => Overlaps(lo, hi, bounds, p),
      (v: Value) => keep(v.datum))
  }

  function IntBetweenPredicate(min: int, max: int, bounds: Bounds): Predicate {
    RangePredicate(min, max, x => min <= x <= max, bounds)
  }

  function EqualInt64Predicate(value: int, bounds: Bounds): Predicate {
    RangePredicate(value, value, x => value <= x <= value, bounds)
  }

  /** Dropping by bounds drops no value the predicate would keep. */
  lemma RangePredicateSound(lo: int, hi: int, keep: int -> bool, bounds: Bounds)
    requires TrueBounds(bounds) && forall x :: keep(x) ==> lo <= x <= hi
    ensures Sound(RangePredicate(lo, hi, keep, bounds))
  {
    var f := RangePredicate(lo, hi, keep, bounds);
    forall c: Chunk, p, v | !f.keepChunk(c) && p in c && v in p
      ensures !f.keepValue(v)
    {
      var i :| 0 <= i < |c| && c[i] == p;
      assert !Overlaps(lo, hi, bounds, c[i]);
    }
  }

  /** The two predicates keep exactly what they look for. A page with bounds is kept exactly if a
      value between them could be looked for. */
  lemma IntPredicatesKeep(min: int, max: int, value: int, bounds: Bounds)
    requires TrueBounds(bounds)
    ensures Sound(IntBetweenPredicate(min, max, bounds)) && Sound(EqualInt64Predicate(value, bounds))
    ensures forall v: Value :: IntBetweenPredicate(min, max, bounds).keepValue(v) <==> min <= v.datum <= max
    ensures forall v: Value :: EqualInt64Predicate(value, bounds).keepValue(v) <==> v.datum == value
    ensures min <= max ==> KeepsPages(IntBetweenPredicate(min, max, bounds), min, max, bounds)
    ensures KeepsPages(EqualInt64Predicate(value, bounds), value, value, bounds)
  {
    RangePredicateSound(min, max, x => min <= x <= max, bounds);
    RangePredicateSound(value, value, x => value <= x <= value, bounds);
    if min <= max {
      RangeKeepsPages(min, max, x => min <= x <= max, bounds);
    }
    RangeKeepsPages(value, value, x => value <= x <= value, bounds);
  }

  /** Pages with bounds are kept if some number in their bounds is in the window, pages without
      always; chunks are kept if one of their pages is. */
  ghost predicate KeepsPages(f: Predicate, lo: int, hi: int, bounds: Bounds) {
    && (forall p: Page :: bounds(p).None? ==> f.keepPage(p))
    && (forall p: Page :: bounds(p).Some? && bounds(p).value.0 <= bounds(p).value.1 ==>
        (f.keepPage(p) <==> exists x: int :: Within(lo, x, hi) && Within(bounds(p).value.0, x, bounds(p).value.1)))
    && (forall c: Chunk :: f.keepChunk(c) <==> exists p: Page :: p in c && f.keepPage(p))
  }

  predicate Within(lo: int, x: int, hi: int) {
    lo <= x <= hi
  }

  lemma RangeKeepsPages(lo: int, hi: int, keep: int -> bool, bounds: Bounds)
    requires lo <= hi
    ensures KeepsPages(RangePredicate(lo, hi, keep, bounds), lo, hi, bounds)
  {
    var f := RangePredicate(lo, hi, keep, bounds);
    forall p: Page | bounds(p).Some? && bounds(p).value.0 <= bounds(p).value.1 && f.keepPage(p)
      ensures exists x: int :: Within(lo, x, hi) && Within(bounds(p).value.0, x, bounds(p).value.1)
    {
      var x := if lo <= bounds(p).value.0 then bounds(p).value.0 else lo;
      assert Within(lo, x, hi) && Within(bounds(p).value.0, x, bounds(p).value.1);
    }
    forall c: Chunk
      ensures f.keepChunk(c) <==> exists p: Page :: p in c && f.keepPage(p)
    {
      if p: Page :| p in c && f.keepPage(p) {
        var i :| 0 <= i < |c| && c[i] == p;
        assert bounds(c[i]).None? || Overlaps(lo, hi, bounds, c[i]);
      }
      if i :| 0 <= i < |c| && (bounds(c[i]).None? || Overlaps(lo, hi, bounds, c[i])) {
        assert c[i] in c && f.keepPage(c[i]);
      }
    }
  }

  /** The least and greatest key of a map. */
  method KeyRange<V>(m: map<int, V>) returns (min: int, max: int)
    ensures forall k :: k in m ==> min <= k <= max
    ensures m.Keys != {} ==> min in m && max in m
  {
    var first := true;
    min, max := 0, 0;
    var keys := m.Keys;
    while keys != {}
      invariant keys <= m.Keys
      invariant first <==> keys == m.Keys
      invariant !first ==> min in m && max in m
      invariant forall k :: k in m.Keys && k !in keys ==> min <= k <= max
      decreases |keys|
    {
      ghost var witnessed := Element(keys);
      var k :| k in keys;
      if first || max < k {
        max := k;
      }
      if first || min > k {
        min := k;
      }
      first := false;
      keys := keys - {k};
    }
  }

  /** `newMapPredicate`: keeps the keys of a map. */
  method NewMapPredicate<V>(m: map<int, V>, bounds: Bounds) returns (f: Predicate)
    requires TrueBounds(bounds)
    ensures Sound(f)
    ensures forall v: Value :: f.keepValue(v) <==> v.datum in m
  {
    var min, max := KeyRange(m);
    f := RangePredicate(min, max, x => x in m, bounds);
    RangePredicateSound(min, max, x => x in m, bounds);
  }
}
