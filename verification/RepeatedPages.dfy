/** Reassembly of the rows of a repeated column (`repeatedPageIterator`).

    A column chunk is a list of row groups, a row group a list of pages, a page
    a list of rows.  Pages start on row boundaries.  Every row holds at least
    one value: the first has repetition level 0, the others a positive one. */
module RepeatedPages {
  import opened Sequences

  datatype Value = Value(repetitionLevel: nat, datum: int)
  type Row = seq<Value>
  type Page = seq<Row>
  type RowGroup = seq<Page>

  /** What one call of `Next` hands out: some values of one row. */
  datatype Chunk = Chunk(row: int, values: seq<Value>)

  ghost predicate WellFormedRow(r: Row) {
    |r| > 0 && r[0].repetitionLevel == 0 && forall i :: 0 < i < |r| ==> r[i].repetitionLevel > 0
  }

  ghost predicate WellFormedPage(p: Page) {
    forall i :: 0 <= i < |p| ==> WellFormedRow(p[i])
  }

  ghost predicate WellFormedGroup(rg: RowGroup) {
    forall i :: 0 <= i < |rg| ==> WellFormedPage(rg[i])
  }

  ghost predicate WellFormed(rgs: seq<RowGroup>) {
    forall i :: 0 <= i < |rgs| ==> WellFormedGroup(rgs[i])
  }

  function NumRows(rg: RowGroup): nat {
    |Flatten(rg)|
  }

  /** All rows of the column, in order. */
  function AllRows(rgs: seq<RowGroup>): seq<Row> {
    if rgs == [] then [] else Flatten(rgs[0]) + AllRows(rgs[1..])
  }

  ghost predicate StrictlyAscending(rows: seq<int>) {
    forall i, j :: 0 <= i < j < |rows| ==> rows[i] < rows[j]
  }

  /** `SeekToRow(k)` followed by `ReadPage`: the page that holds row `k`, cut so
      that it starts with this row. */
  function PageFrom(rg: RowGroup, k: nat): (p: Page)
    requires k < NumRows(rg)
    requires WellFormedGroup(rg)
    ensures |p| > 0 && k + |p| <= NumRows(rg)
    ensures p == Flatten(rg)[k..k + |p|]
    ensures WellFormedPage(p)
  {
    if k < |rg[0]| then rg[0][k..]
    else
      assert WellFormedGroup(rg[1..]);
      PageFrom(rg[1..], k - |rg[0]|)
  }

  /** Cuts `values[from..end]` at the multiples of `readSize`. */
  function Cuts(row: int, values: seq<Value>, from: nat, end: nat, readSize: nat): (cs: seq<Chunk>)
    requires from <= end <= |values| && readSize > 0
    ensures Joined(cs) == values[from..end]
    ensures forall i :: 0 <= i < |cs| ==> cs[i].row == row && 0 < |cs[i].values| <= readSize
    decreases end - from
  {
    if from == end then []
    else
      var mid := CutEnd(from, end, readSize);
      assert values[from..end] == values[from..mid] + values[mid..end];
      [Chunk(row, values[from..mid])] + Cuts(row, values, mid, end, readSize)
  }

  /** The end of the chunk that starts at `from`: the end of the row or of the
      block of `readSize` values, whichever comes first. */
  function CutEnd(from: nat, end: nat, readSize: nat): (mid: nat)
    requires from < end && readSize > 0
    ensures from < mid <= end && mid <= from + readSize
  {
    if BlockEnd(from, readSize) < end then BlockEnd(from, readSize) else end
  }

  /** The first multiple of `n` after `a`. */
  function BlockEnd(a: nat, n: nat): (e: nat)
    requires n > 0
    ensures a < e <= a + n
  {
    if a < n then n else n + BlockEnd(a - n, n)
  }

  /** The values of a list of chunks, joined. */
  function Joined(cs: seq<Chunk>): seq<Value> {
    if cs == [] then [] else cs[0].values + Joined(cs[1..])
  }

  function Max(a: int, b: int): int { if a < b then b else a }

  /** The chunks of row `k` of a page that are still to come when the values
      before position `pos` have been handed out. */
  function RowChunks(row: int, page: Page, k: nat, pos: nat, readSize: nat): (cs: seq<Chunk>)
    requires k < |page| && readSize > 0
    ensures forall i :: 0 <= i < |cs| ==> cs[i].row == row && 0 < |cs[i].values| <= readSize
  {
    FlattenPart(page, k);
    if pos >= Offset(page, k + 1) then []
    else Cuts(row, Flatten(page), Max(pos, Offset(page, k)), Offset(page, k + 1), readSize)
  }

  /** What the iterator demands: a well-formed column whose first row is number
      `start`, and strictly ascending rows from there on. */
  ghost predicate Requested(rgs: seq<RowGroup>, start: int, rows: seq<int>, readSize: nat) {
    && readSize > 0
    && WellFormed(rgs)
    && StrictlyAscending(rows)
    && (rows != [] ==> start <= rows[0])
  }

  /** All chunks of the requested rows, given the page at hand (whose first row is
      number `base`), if there is one. */
  ghost function Chunks(rgs: seq<RowGroup>, start: int, rows: seq<int>, readSize: nat,
                        page: Option<Page>, base: int): (cs: seq<Chunk>)
    requires Requested(rgs, start, rows, readSize)
    requires page.Some? && rows != [] ==> base <= rows[0]
    decreases |rows|, |rgs|
  {
    if rows == [] then []
    else if page.Some? && rows[0] < base + |page.value| then
      RowChunks(rows[0], page.value, rows[0] - base, 0, readSize)
      + Chunks(rgs, start, rows[1..], readSize, page, base)
    else if rgs == [] then []
    else if rows[0] >= start + NumRows(rgs[0]) then
      Chunks(rgs[1..], start + NumRows(rgs[0]), rows, readSize, None, 0)
    else
      var p := PageFrom(rgs[0], rows[0] - start);
      RowChunks(rows[0], p, 0, 0, readSize)
      + Chunks(rgs, start, rows[1..], readSize, Some(p), rows[0])
  }

  /** What is still to come once the values before position `pos` of the page have
      been consumed. */
  ghost function Remaining(rgs: seq<RowGroup>, start: int, rows: seq<int>, readSize: nat,
                           page: Option<Page>, base: int, pos: nat): (cs: seq<Chunk>)
    requires Requested(rgs, start, rows, readSize)
    requires page.Some? && rows != [] ==> base <= rows[0]
  {
    if rows != [] && page.Some? && rows[0] < base + |page.value| then
      RowChunks(rows[0], page.value, rows[0] - base, pos, readSize)
      + Chunks(rgs, start, rows[1..], readSize, page, base)
    else
      Chunks(rgs, start, rows, readSize, None, 0)
  }

  // ----- facts about blocks of values -----

  lemma {:induction false} SameBlock(a: nat, b: nat, n: nat)
    requires n > 0 && a <= b < BlockEnd(a, n)
    ensures BlockEnd(b, n) == BlockEnd(a, n)
  {
    if a >= n {
      SameBlock(a - n, b - n, n);
    }
  }

  /** Holds of the multiples of `n`. */
  predicate BlockStart(a: nat, n: nat)
    requires n > 0
  {
    BlockEnd(a, n) == a + n
  }

  lemma {:induction false} BlockEndIsBlockStart(a: nat, n: nat)
    requires n > 0
    ensures BlockStart(BlockEnd(a, n), n)
  {
    if a >= n {
      BlockEndIsBlockStart(a - n, n);
    }
  }

  /** Consuming part of a block leaves a block that ends at the same place. */
  lemma BlockSuffix(pos: nat, mid: nat, total: nat, n: nat)
    requires n > 0 && pos < total && pos <= mid <= CutEnd(pos, total, n)
    ensures mid < CutEnd(pos, total, n) ==> CutEnd(mid, total, n) == CutEnd(pos, total, n)
    ensures mid == CutEnd(pos, total, n) ==> BlockStart(mid, n) || mid == total
  {
    BlockEndIsBlockStart(pos, n);
    if mid < CutEnd(pos, total, n) {
      SameBlock(pos, mid, n);
    }
  }

  // ----- facts about the values of a page -----

  /** A value of a page has repetition level 0 just when a row starts there. */
  lemma RepetitionLevelAt(page: Page, k: nat, i: nat)
    requires WellFormedPage(page) && k < |page|
    requires Offset(page, k) <= i < Offset(page, k + 1)
    ensures i < |Flatten(page)|
    ensures Flatten(page)[i].repetitionLevel == 0 <==> i == Offset(page, k)
  {
    FlattenPart(page, k);
    var f, o := Flatten(page), Offset(page, k);
    assert f[i] == f[o..Offset(page, k + 1)][i - o];
  }

  lemma RowNotEmpty(page: Page, k: nat)
    requires WellFormedPage(page) && k < |page|
    ensures Offset(page, k) < Offset(page, k + 1) <= |Flatten(page)|
    ensures Offset(page, k + 1) == |Flatten(page)| <==> k + 1 == |page|
  {
    FlattenPart(page, k);
    OffsetEnds(page);
    if k + 1 < |page| {
      FlattenPart(page, k + 1);
    }
  }

  // ----- facts about what remains -----

  /** How far the page has been read does not matter before the next requested row. */
  lemma PositionBeforeRow(rgs: seq<RowGroup>, start: int, rows: seq<int>, n: nat, page: Page, base: int, pos: nat)
    requires Requested(rgs, start, rows, n)
    requires rows != [] ==> base <= rows[0]
    requires rows != [] && rows[0] < base + |page| ==> pos <= Offset(page, rows[0] - base)
    ensures Remaining(rgs, start, rows, n, Some(page), base, pos) == Chunks(rgs, start, rows, n, Some(page), base)
  {
  }

  /** Row groups that end before the requested row do not matter. */
  lemma SkippedGroup(rgs: seq<RowGroup>, start: int, rows: seq<int>, n: nat)
    requires Requested(rgs, start, rows, n)
    requires rows != [] && rgs != [] && start + NumRows(rgs[0]) <= rows[0]
    ensures Requested(rgs[1..], start + NumRows(rgs[0]), rows, n)
    ensures Chunks(rgs, start, rows, n, None, 0) == Chunks(rgs[1..], start + NumRows(rgs[0]), rows, n, None, 0)
  {
  }

  lemma FreshPage(rgs: seq<RowGroup>, start: int, rows: seq<int>, n: nat, base: int)
    requires Requested(rgs, start, rows, n)
    requires rows != [] && rgs != [] && rows[0] < start + NumRows(rgs[0])
    ensures Remaining(rgs, start, rows, n, None, base, 0)
         == Remaining(rgs, start, rows, n, Some(PageFrom(rgs[0], rows[0] - start)), rows[0], 0)
  {
  }

  /** A page whose rows all lie before those requested gives nothing. */
  lemma PageOver(rgs: seq<RowGroup>, start: int, rows: seq<int>, n: nat, page: Page, base: int, pos: nat)
    requires Requested(rgs, start, rows, n) && (rows != [] ==> base + |page| <= rows[0])
    ensures Remaining(rgs, start, rows, n, Some(page), base, pos) == Remaining(rgs, start, rows, n, None, base, 0)
  {
  }

  lemma PageReadUp(page: Page, pos: int, n: nat)
    requires 0 <= pos && n > 0 && Unconsumed(page, pos, [], [], n)
    ensures pos == |Flatten(page)|
  {
  }

  /** A page just read, of which nothing is consumed. */
  lemma StandingAtStart(page: Page, row: int, n: nat)
    requires n > 0 && page != []
    ensures Unconsumed(page, 0, [], Flatten(page), n) && Standing(page, row, 0, 0, row, true, false)
  {
    OffsetEnds(page);
  }

  lemma FirstCut(row: int, page: Page, k: nat, pos: nat, mid: nat, n: nat)
    requires n > 0 && k < |page|
    requires Offset(page, k) <= pos < Offset(page, k + 1) <= |Flatten(page)|
    requires mid == CutEnd(pos, Offset(page, k + 1), n)
    ensures RowChunks(row, page, k, pos, n)
         == [Chunk(row, Flatten(page)[pos..mid])] + RowChunks(row, page, k, mid, n)
  {
  }

  /** Handing out the next chunk of the requested row. */
  lemma EmitChunk(rgs: seq<RowGroup>, start: int, rows: seq<int>, n: nat, page: Page, base: int, pos: nat, mid: nat)
    requires Requested(rgs, start, rows, n)
    requires rows != [] && base <= rows[0] < base + |page|
    requires Offset(page, rows[0] - base) <= pos < Offset(page, rows[0] - base + 1) <= |Flatten(page)|
    requires mid == CutEnd(pos, Offset(page, rows[0] - base + 1), n)
    ensures Remaining(rgs, start, rows, n, Some(page), base, pos)
         == [Chunk(rows[0], Flatten(page)[pos..mid])] + Remaining(rgs, start, rows, n, Some(page), base, mid)
  {
    hide Chunks, RowChunks, Offset, Flatten;
    FirstCut(rows[0], page, rows[0] - base, pos, mid, n);
  }

  /** Once its last value has been handed out, a requested row is over. */
  lemma RowOver(rgs: seq<RowGroup>, start: int, rows: seq<int>, n: nat, page: Page, base: int, pos: nat)
    requires Requested(rgs, start, rows, n)
    requires rows != [] && base <= rows[0] < base + |page|
    requires pos == Offset(page, rows[0] - base + 1)
    ensures Remaining(rgs, start, rows, n, Some(page), base, pos)
         == Remaining(rgs, start, rows[1..], n, Some(page), base, pos)
  {
    var tail := rows[1..];
    if tail != [] && tail[0] < base + |page| {
      OffsetMonotone(page, rows[0] - base + 1, tail[0] - base);
    }
    PositionBeforeRow(rgs, start, tail, n, page, base, pos);
  }

  // ----- the iterator -----

  /** The part of a page that has not been consumed: the buffered values, which end
      with a block of `readSize` values or with the page, then the unread ones. */
  ghost predicate Unconsumed(page: Page, pos: nat, buffer: seq<Value>, unread: seq<Value>, n: nat)
    requires n > 0
  {
    && pos <= |Flatten(page)|
    && buffer + unread == Flatten(page)[pos..]
    && (if buffer == [] then BlockStart(pos, n) || unread == []
        else pos + |buffer| == CutEnd(pos, |Flatten(page)|, n))
  }

  /** Where in the page the iterator stands while it looks for row number `seek`. */
  ghost predicate Standing(page: Page, base: int, nextRow: nat, pos: nat, seek: int, rowFinished: bool, skipping: bool)
  {
    && base + nextRow <= seek < base + |page|
    && (if rowFinished then
          // at the start of a row
          !skipping && pos == Offset(page, nextRow)
        else
          // inside a row, or right after its last value; the row is the requested
          // one unless it is being skipped
          && Offset(page, nextRow) < pos <= Offset(page, nextRow + 1)
          && (skipping <==> base + nextRow < seek))
  }

  /** What a scan of the buffer says about the row the iterator stands in. */
  lemma ScanFromRowStart(page: Page, k: nat, pos: nat, buffer: seq<Value>, unread: seq<Value>, start: nat, next: nat, ok: bool)
    requires WellFormedPage(page) && k < |page| && pos == Offset(page, k)
    requires pos <= |Flatten(page)| && buffer + unread == Flatten(page)[pos..]
    requires start < |buffer| && start < next <= |buffer|
    requires forall i :: 0 <= i < start ==> buffer[i].repetitionLevel > 0
    requires ok ==> next < |buffer| && buffer[next].repetitionLevel == 0
    requires !ok ==> next == |buffer|
    requires forall i :: start < i < next ==> buffer[i].repetitionLevel > 0
    ensures start == 0
    ensures ok ==> pos + next == Offset(page, k + 1) && k + 1 < |page|
    ensures !ok ==> pos + |buffer| <= Offset(page, k + 1)
  {
    BufferedValues(page, pos, buffer, unread);
    RowNotEmpty(page, k);
    RepetitionLevelAt(page, k, pos);
    if ok && pos + next < Offset(page, k + 1) {
      RepetitionLevelAt(page, k, pos + next);
    }
    if Offset(page, k + 1) < pos + next {
      RowNotEmpty(page, k + 1);
      RepetitionLevelAt(page, k + 1, Offset(page, k + 1));
    }
    OffsetEnds(page);
  }

  lemma ScanInsideRow(page: Page, k: nat, pos: nat, buffer: seq<Value>, unread: seq<Value>, start: nat)
    requires WellFormedPage(page) && k < |page| && Offset(page, k) < pos <= Offset(page, k + 1)
    requires pos <= |Flatten(page)| && buffer + unread == Flatten(page)[pos..]
    requires start < |buffer|
    requires forall i :: 0 <= i < start ==> buffer[i].repetitionLevel > 0
    requires buffer[start].repetitionLevel > 0 ==> forall i :: 0 <= i < |buffer| ==> buffer[i].repetitionLevel > 0
    ensures buffer[start].repetitionLevel == 0 ==> pos + start == Offset(page, k + 1) && k + 1 < |page|
    ensures buffer[start].repetitionLevel > 0 ==> pos + |buffer| <= Offset(page, k + 1)
  {
    BufferedValues(page, pos, buffer, unread);
    RowNotEmpty(page, k);
    if pos + start < Offset(page, k + 1) {
      RepetitionLevelAt(page, k, pos + start);
    }
    if Offset(page, k + 1) < pos + |buffer| {
      RowNotEmpty(page, k + 1);
      RepetitionLevelAt(page, k + 1, Offset(page, k + 1));
    }
  }

  lemma BufferedValues(page: Page, pos: nat, buffer: seq<Value>, unread: seq<Value>)
    requires pos <= |Flatten(page)| && buffer + unread == Flatten(page)[pos..]
    ensures pos + |buffer| + |unread| == |Flatten(page)|
    ensures forall i :: 0 <= i < |buffer| ==> buffer[i] == Flatten(page)[pos + i]
  {
    assert |buffer + unread| == |buffer| + |unread|;
    assert forall i :: 0 <= i < |buffer| ==> buffer[i] == (buffer + unread)[i];
  }

  /** Consuming the first values of the buffer. */
  lemma Consumed(page: Page, pos: nat, buffer: seq<Value>, unread: seq<Value>, n: nat, count: nat)
    requires n > 0 && Unconsumed(page, pos, buffer, unread, n) && count <= |buffer|
    ensures Unconsumed(page, pos + count, buffer[count..], unread, n)
    ensures buffer[..count] == Flatten(page)[pos..pos + count]
  {
    BufferedValues(page, pos, buffer, unread);
    var f := Flatten(page);
    assert f[pos + count..] == f[pos..][count..] == (buffer + unread)[count..] == buffer[count..] + unread;
    if buffer != [] {
      BlockSuffix(pos, pos + count, |f|, n);
    }
  }

  /** The chunk that starts the buffer ends with the row if the row ends inside the
      buffer, and with the buffer otherwise. */
  lemma BufferEnd(page: Page, pos: nat, buffer: seq<Value>, unread: seq<Value>, n: nat, rowEnd: nat, count: nat)
    requires n > 0 && Unconsumed(page, pos, buffer, unread, n)
    requires 0 < count <= |buffer| && pos + count <= rowEnd <= |Flatten(page)|
    requires count == |buffer| || pos + count == rowEnd
    ensures pos + count == CutEnd(pos, rowEnd, n)
  {
    BufferedValues(page, pos, buffer, unread);
  }

  class RepeatedPageIterator {
    const readSize: nat
    var rows: seq<int>              // the requested rows, the current one first
    var rgs: seq<RowGroup>
    var startRowGroupRowNum: int
    var currentPage: Option<Page>
    var startPageRowNum: int
    var pageNextRowNum: nat
    var valueReader: seq<Value>     // the values of the page not read yet
    var buffer: seq<Value>
    var rowFinished: bool
    var skipping: bool
    var done: bool
    var currentValue: Chunk

    /** The number of values of the page consumed so far. */
    ghost function Position(): int
      reads this
    {
      if currentPage.None? then 0 else |Flatten(currentPage.value)| - |valueReader| - |buffer|
    }

    ghost predicate Valid()
      reads this
    {
      && Requested(rgs, startRowGroupRowNum, rows, readSize)
      && done == (rows == [])
      && (currentPage.Some? ==>
            var page := currentPage.value;
            && WellFormedPage(page)
            && 0 <= Position()
            && Unconsumed(page, Position(), buffer, valueReader, readSize)
            && (rows != [] ==> startPageRowNum <= rows[0])
            && (rows != [] && rows[0] < startPageRowNum + |page| ==>
                  && rgs != []
                  && startPageRowNum + |page| <= startRowGroupRowNum + NumRows(rgs[0])
                  && Standing(page, startPageRowNum, pageNextRowNum, Position(), rows[0], rowFinished, skipping)))
    }

    /** The chunks still to be handed out. */
    ghost function Pending(): seq<Chunk>
      requires Valid()
      reads this
    {
      Remaining(rgs, startRowGroupRowNum, rows, readSize, currentPage, startPageRowNum, Position())
    }

    constructor (rows: seq<int>, rgs: seq<RowGroup>, readSize: nat)
      requires Requested(rgs, 0, rows, readSize)
      ensures Valid()
      ensures Pending() == Chunks(rgs, 0, rows, readSize, None, 0)
    {
      this.readSize := readSize;
      this.rows := rows;
      this.rgs := rgs;
      startRowGroupRowNum := 0;
      currentPage := None;
      startPageRowNum := 0;
      pageNextRowNum := 0;
      valueReader := [];
      buffer := [];
      rowFinished := true;
      skipping := false;
      done := rows == [];
      currentValue := Chunk(0, []);
    }

    /** The requested page is not at hand: drop what is left of the old one. */
    ghost predicate Stale()
      reads this
    {
      rows != [] && (currentPage.None? || rows[0] >= startPageRowNum + |currentPage.value|)
    }

    /** Moves to the row group that holds the requested row, if there is one. */
    method SkipRowGroups()
      requires Valid() && rows != []
      modifies this`rgs, this`startRowGroupRowNum
      ensures Valid() && Pending() == old(Pending())
      ensures |rgs| <= old(|rgs|)
      ensures rgs != [] ==> rows[0] < startRowGroupRowNum + NumRows(rgs[0])
    {
      hide Chunks, Flatten;
      while rgs != [] && rows[0] >= startRowGroupRowNum + NumRows(rgs[0])
        invariant Valid() && Pending() == old(Pending())
        invariant |rgs| <= old(|rgs|)
        decreases |rgs|
      {
        SkippedGroup(rgs, startRowGroupRowNum, rows, readSize);
        startRowGroupRowNum := startRowGroupRowNum + NumRows(rgs[0]);
        rgs := rgs[1..];
      }
    }

    /** Reads the page that holds the requested row, from this row on. */
    method ReadPage()
      requires Valid() && rows != [] && currentPage.None?
      requires rgs != [] && rows[0] < startRowGroupRowNum + NumRows(rgs[0])
      modifies this`currentPage, this`startPageRowNum, this`pageNextRowNum, this`valueReader,
               this`buffer, this`rowFinished, this`skipping
      ensures Valid() && Pending() == old(Pending())
      ensures currentPage.Some? && !Stale()
    {
      hide Chunks, Remaining, Flatten, Unconsumed, Standing, WellFormedPage, PageFrom;
      FreshPage(rgs, startRowGroupRowNum, rows, readSize, startPageRowNum);
      var page := PageFrom(rgs[0], rows[0] - startRowGroupRowNum);
      StandingAtStart(page, rows[0], readSize);
      currentPage := Some(page);
      startPageRowNum := rows[0];
      pageNextRowNum := 0;
      buffer := [];
      valueReader := Flatten(page);
      rowFinished := true;
      skipping := false;
    }

    /** Reads up to `readSize` values of the page. */
    method ReadValues()
      requires Valid() && currentPage.Some? && buffer == []
      modifies this`buffer, this`valueReader
      ensures Valid() && Position() == old(Position())
      ensures buffer + valueReader == old(valueReader)
      ensures buffer == [] <==> old(valueReader) == []
    {
      var n := if |valueReader| < readSize then |valueReader| else readSize;
      buffer := valueReader[..n];
      valueReader := valueReader[n..];
    }

    /** The page has no more values: the requested row is over. */
    method EndOfPage()
      requires Valid() && rows != [] && !Stale()
      requires buffer == [] && valueReader == []
      modifies this`rows, this`done, this`currentPage
      ensures Valid() && Pending() == old(Pending())
      ensures rows == old(rows)[1..] && currentPage.None?
    {
      hide Chunks, Remaining, Flatten, WellFormedPage, WellFormed, Unconsumed, RowChunks;
      var page := currentPage.value;
      PageReadUp(page, Position(), readSize);
      RowNotEmpty(page, pageNextRowNum);
      OffsetEnds(page);
      RowOver(rgs, startRowGroupRowNum, rows, readSize, page, startPageRowNum, Position());
      PageOver(rgs, startRowGroupRowNum, rows[1..], readSize, page, startPageRowNum, Position());
      rows := rows[1..];
      done := rows == [];
      currentPage := None;
    }

    /** Finds the first row start in the buffer and the one after it. */
    method ReadNextRow() returns (start: nat, next: nat, ok: bool)
      requires buffer != []
      ensures start < |buffer| && next <= |buffer| && 0 < next
      ensures buffer[start].repetitionLevel == 0 || start == 0
      ensures forall i :: 0 <= i < start ==> buffer[i].repetitionLevel > 0
      ensures ok ==> start < next < |buffer| && buffer[start].repetitionLevel == buffer[next].repetitionLevel == 0
      ensures !ok ==> next == |buffer|
      ensures forall i :: start < i < next ==> buffer[i].repetitionLevel > 0
    {
      start := 0;
      var foundStart := false;
      for i := 0 to |buffer|
        invariant start < |buffer|
        invariant !foundStart ==> start == 0 && forall j :: 0 <= j < i ==> buffer[j].repetitionLevel > 0
        invariant foundStart ==> start < i && buffer[start].repetitionLevel == 0
        invariant foundStart ==> forall j :: 0 <= j < i && j != start ==> buffer[j].repetitionLevel > 0
      {
        if buffer[i].repetitionLevel == 0 && !foundStart {
          foundStart := true;
          start := i;
          continue;
        }
        if buffer[i].repetitionLevel == 0 && foundStart {
          return start, i, true;
        }
      }
      return start, |buffer|, false;
    }

    /** The iterator stands in the page that holds the requested row, with values to look at. */
    ghost predicate AtValues()
      reads this
    {
      Valid() && rows != [] && !Stale() && buffer != []
    }

    /** Hands out the first `count` values of the buffer: they are the rest of the
        requested row, or the rest of the buffer if that comes first. */
    method Emit(count: nat)
      requires AtValues() && 0 < count <= |buffer|
      requires startPageRowNum + pageNextRowNum == rows[0]
      requires Position() + count <= Offset(currentPage.value, pageNextRowNum + 1)
      requires count == |buffer| || Position() + count == Offset(currentPage.value, pageNextRowNum + 1)
      modifies this`currentValue, this`buffer, this`rowFinished
      ensures Valid() && !rowFinished && rows == old(rows)
      ensures !Stale() && Position() == old(Position()) + count
      ensures currentValue.row == rows[0]
      ensures old(Pending()) == [currentValue] + Pending()
    {
      hide Remaining, Offset, Flatten, CutEnd, Unconsumed, WellFormedPage;
      var page := currentPage.value;
      RowNotEmpty(page, pageNextRowNum);
      Consumed(page, Position(), buffer, valueReader, readSize, count);
      BufferEnd(page, Position(), buffer, valueReader, readSize, Offset(page, pageNextRowNum + 1), count);
      EmitChunk(rgs, startRowGroupRowNum, rows, readSize, page, startPageRowNum, Position(), Position() + count);
      currentValue := Chunk(rows[0], buffer[..count]);
      buffer := buffer[count..];
      rowFinished := false;
    }

    /** All values of the requested row have been handed out: on to the next one. */
    method FinishRow()
      requires Valid() && rows != [] && !Stale()
      requires startPageRowNum + pageNextRowNum == rows[0]
      requires Position() == Offset(currentPage.value, pageNextRowNum + 1)
      modifies this`rows, this`done, this`pageNextRowNum, this`rowFinished, this`skipping
      ensures Valid() && Pending() == old(Pending())
      ensures rows == old(rows)[1..]
    {
      hide Remaining, Offset, Flatten, CutEnd, Unconsumed, WellFormedPage;
      RowOver(rgs, startRowGroupRowNum, rows, readSize, currentPage.value, startPageRowNum, Position());
      pageNextRowNum := pageNextRowNum + 1;
      rows := rows[1..];
      done := rows == [];
      rowFinished := true;
      skipping := false;
    }

    /** Consuming values of a row that is not requested changes nothing that is to come. */
    lemma SkipValues(count: nat)
      requires AtValues() && count <= |buffer|
      requires startPageRowNum + pageNextRowNum < rows[0]
      requires Position() + count <= Offset(currentPage.value, pageNextRowNum + 1)
      ensures Unconsumed(currentPage.value, Position() + count, buffer[count..], valueReader, readSize)
      ensures Remaining(rgs, startRowGroupRowNum, rows, readSize, currentPage, startPageRowNum, Position() + count) == Pending()
    {
      hide Remaining, Offset, Flatten, CutEnd, Unconsumed, WellFormedPage;
      var page := currentPage.value;
      Consumed(page, Position(), buffer, valueReader, readSize, count);
      OffsetMonotone(page, pageNextRowNum + 1, rows[0] - startPageRowNum);
      PositionBeforeRow(rgs, startRowGroupRowNum, rows, readSize, page, startPageRowNum, Position());
      PositionBeforeRow(rgs, startRowGroupRowNum, rows, readSize, page, startPageRowNum, Position() + count);
    }

    /** Skips the rest of a row that is not requested. */
    method SkipRow(count: nat)
      requires AtValues() && count <= |buffer|
      requires startPageRowNum + pageNextRowNum < rows[0]
      requires Position() + count == Offset(currentPage.value, pageNextRowNum + 1)
      modifies this`buffer, this`pageNextRowNum, this`rowFinished, this`skipping
      ensures Valid() && Pending() == old(Pending())
      ensures |buffer| == old(|buffer|) - count && !skipping
    {
      hide Remaining, Offset, Flatten, CutEnd, Unconsumed, WellFormedPage, Requested;
      SkipValues(count);
      buffer := buffer[count..];
      pageNextRowNum := pageNextRowNum + 1;
      skipping := false;
      rowFinished := true;
    }

    /** Skips the buffer inside a row that is not requested. */
    method SkipBuffer()
      requires AtValues()
      requires startPageRowNum + pageNextRowNum < rows[0]
      requires Position() + |buffer| <= Offset(currentPage.value, pageNextRowNum + 1)
      modifies this`buffer, this`rowFinished, this`skipping
      ensures Valid() && Pending() == old(Pending())
      ensures buffer == []
    {
      hide Remaining, Offset, Flatten, CutEnd, Unconsumed, WellFormedPage, Requested;
      SkipValues(|buffer|);
      buffer := buffer[|buffer|..];
      rowFinished := false;
      skipping := true;
    }

    /** Looks at the buffered values: hands some out, skips some, or finds that the
        requested row is over. */
    method Consume() returns (emitted: bool)
      requires AtValues()
      modifies this`rows, this`done, this`pageNextRowNum, this`buffer, this`rowFinished, this`skipping, this`currentValue
      ensures Valid()
      ensures emitted ==> old(Pending()) == [currentValue] + Pending()
      ensures !emitted ==> old(Pending()) == Pending()
      ensures !emitted ==>
        || |rows| < old(|rows|)
        || (rows == old(rows) && |buffer| < old(|buffer|))
        || (rows == old(rows) && |buffer| == old(|buffer|) && old(skipping) && !skipping)
    {
      hide Remaining, Offset, Flatten, WellFormedPage;
      var start, next, ok := ReadNextRow();
      ghost var page, k, pos := currentPage.value, pageNextRowNum, Position();
      if rowFinished {
        ScanFromRowStart(page, k, pos, buffer, valueReader, start, next, ok);
      } else {
        ScanInsideRow(page, k, pos, buffer, valueReader, start);
      }
      if ok && rowFinished {
        if rows[0] > startPageRowNum + pageNextRowNum {
          SkipRow(next);
          return false;
        }
        Emit(next);
        FinishRow();
        return true;
      }
      // a partial row, or a row that is being skipped
      if rowFinished || skipping {
        if rows[0] > startPageRowNum + pageNextRowNum {
          if skipping && buffer[start].repetitionLevel == 0 {
            SkipRow(start);
          } else {
            assert start == 0 && next == |buffer|;
            SkipBuffer();
          }
          return false;
        }
        Emit(next);
        return true;
      }
      // the start of a new row
      if !rowFinished && buffer[start].repetitionLevel == 0 {
        if start >= 1 {
          Emit(start);
          return true;
        }
        FinishRow();
        return false;
      }
      Emit(next);
      return true;
    }

    /** Without requested rows or without row groups nothing is left. */
    lemma Exhausted()
      requires Valid() && (rows == [] || rgs == [])
      ensures Pending() == []
    {
    }

    /** The page has no more values of interest. */
    method DropPage()
      requires Valid() && Stale()
      modifies this`currentPage
      ensures Valid() && Pending() == old(Pending()) && currentPage.None?
    {
      currentPage := None;
    }

    /** Moves to the next chunk. */
    method Next() returns (more: bool)
      requires Valid()
      modifies this
      ensures Valid()
      ensures more <==> old(Pending()) != []
      ensures more ==> old(Pending()) == [currentValue] + Pending()
      ensures !more ==> Pending() == []
    {
      hide Chunks, Remaining, Flatten, WellFormedPage, Requested, Unconsumed, Standing;
      while true
        invariant Valid() && Pending() == old(Pending())
        decreases |rows|, |rgs|,
                  if currentPage.None? then 1 else if Stale() then 2 else 0,
                  |buffer| + |valueReader|, skipping
      {
        if done {
          Exhausted();
          return false;
        }
        SkipRowGroups();
        if rgs == [] {
          Exhausted();
          return false;
        }
        if currentPage.None? {
          ReadPage();
        }
        if rows[0] >= startPageRowNum + |currentPage.value| {
          DropPage();
          continue;
        }
        if buffer == [] {
          ReadValues();
          if buffer == [] {
            EndOfPage();
            continue;
          }
        }
        more := Consume();
        if more {
          return true;
        }
      }
    }
  }

  // ----- what the chunks are -----

  /** The values handed out for row number `r`. */
  function Collect(cs: seq<Chunk>, r: int): seq<Value> {
    if cs == [] then []
    else (if cs[0].row == r then cs[0].values else []) + Collect(cs[1..], r)
  }

  lemma {:induction false} CollectConcat(a: seq<Chunk>, b: seq<Chunk>, r: int)
    ensures Collect(a + b, r) == Collect(a, r) + Collect(b, r)
  {
    if a == [] {
      assert a + b == b;
    } else {
      assert (a + b)[1..] == a[1..] + b;
      CollectConcat(a[1..], b, r);
    }
  }

  lemma {:induction false} CollectOneRow(cs: seq<Chunk>, row: int, r: int)
    requires forall i :: 0 <= i < |cs| ==> cs[i].row == row
    ensures Collect(cs, r) == if r == row then Joined(cs) else []
  {
    if cs != [] {
      CollectOneRow(cs[1..], row, r);
    }
  }

  /** The chunks of an untouched row hold its values. */
  lemma RowChunksHoldRow(row: int, page: Page, k: nat, n: nat, r: int)
    requires n > 0 && WellFormedPage(page) && k < |page|
    ensures Collect(RowChunks(row, page, k, 0, n), r) == if r == row then page[k] else []
  {
    FlattenPart(page, k);
    RowNotEmpty(page, k);
    CollectOneRow(RowChunks(row, page, k, 0, n), row, r);
  }

  /** The page at hand is a window of the rows of the column. */
  ghost predicate PageInColumn(rgs: seq<RowGroup>, start: int, page: Option<Page>, base: int) {
    page.Some? ==>
      && WellFormedPage(page.value)
      && start <= base && base - start + |page.value| <= |AllRows(rgs)|
      && page.value == AllRows(rgs)[base - start..base - start + |page.value|]
  }

  /** The values of row number `r` of the column `all`, if the row is requested. */
  function Expected(all: seq<Row>, start: int, rows: seq<int>, r: int): seq<Value> {
    if r in rows && 0 <= r - start < |all| then all[r - start] else []
  }

  lemma NothingCollected(all: seq<Row>, start: int, r: int)
    ensures Collect([], r) == [] == Expected(all, start, [], r)
    ensures forall rows :: Expected([], start, rows, r) == []
  {
  }

  lemma SameExpected(first: seq<Row>, others: seq<Row>, start: int, rows: seq<int>, r: int)
    requires StrictlyAscending(rows) && rows != [] && start + |first| <= rows[0]
    ensures Expected(first + others, start, rows, r) == Expected(others, start + |first|, rows, r)
  {
  }

  lemma FirstRowCollected(all: seq<Row>, start: int, rows: seq<int>, n: nat, page: Page, base: int, rest: seq<Chunk>, r: int)
    requires n > 0 && StrictlyAscending(rows) && WellFormedPage(page)
    requires rows != [] && base <= rows[0] < base + |page| && 0 <= rows[0] - start < |all|
    requires all[rows[0] - start] == page[rows[0] - base]
    requires Collect(rest, r) == Expected(all, start, rows[1..], r)
    ensures Collect(RowChunks(rows[0], page, rows[0] - base, 0, n) + rest, r) == Expected(all, start, rows, r)
  {
    hide *;
    RowChunksHoldRow(rows[0], page, rows[0] - base, n, r);
    CollectConcat(RowChunks(rows[0], page, rows[0] - base, 0, n), rest, r);
    FirstExpected(all, start, rows, r);
    var own, more := Collect(RowChunks(rows[0], page, rows[0] - base, 0, n), r), Collect(rest, r);
    if r == rows[0] {
      assert own + [] == own;
    } else {
      assert [] + more == more;
    }
  }

  lemma FirstExpected(all: seq<Row>, start: int, rows: seq<int>, r: int)
    requires StrictlyAscending(rows) && rows != [] && 0 <= rows[0] - start < |all|
    ensures Expected(all, start, rows, r) == if r == rows[0] then all[r - start] else Expected(all, start, rows[1..], r)
    ensures r == rows[0] ==> Expected(all, start, rows[1..], r) == []
  {
    assert rows == [rows[0]] + rows[1..];
  }

  lemma {:induction false} ChunksHoldRows(rgs: seq<RowGroup>, start: int, rows: seq<int>, n: nat, page: Option<Page>, base: int, r: int)
    requires Requested(rgs, start, rows, n) && PageInColumn(rgs, start, page, base)
    requires page.Some? && rows != [] ==> base <= rows[0]
    ensures Collect(Chunks(rgs, start, rows, n, page, base), r) == Expected(AllRows(rgs), start, rows, r)
    decreases |rows|, |rgs|
  {
    hide RowChunks, Flatten, Collect, WellFormedPage, Expected;
    NothingCollected(AllRows(rgs), start, r);
    if rows == [] {
    } else if page.Some? && rows[0] < base + |page.value| {
      ChunksHoldRows(rgs, start, rows[1..], n, page, base, r);
      FirstRowCollected(AllRows(rgs), start, rows, n, page.value, base, Chunks(rgs, start, rows[1..], n, page, base), r);
    } else if rgs == [] {
      NothingCollected([], start, r);
    } else if rows[0] >= start + NumRows(rgs[0]) {
      ChunksHoldRows(rgs[1..], start + NumRows(rgs[0]), rows, n, None, 0, r);
      SameExpected(Flatten(rgs[0]), AllRows(rgs[1..]), start, rows, r);
    } else {
      var p := PageFrom(rgs[0], rows[0] - start);
      assert PageInColumn(rgs, start, Some(p), rows[0]);
      ChunksHoldRows(rgs, start, rows[1..], n, Some(p), rows[0], r);
      FirstRowCollected(AllRows(rgs), start, rows, n, p, rows[0], Chunks(rgs, start, rows[1..], n, Some(p), rows[0]), r);
    }
  }

  /** Over a whole run the iterator hands out, for every requested row of the column,
      exactly the values of this row in order, and nothing for any other row. */
  lemma RowsReassembled(rgs: seq<RowGroup>, rows: seq<int>, readSize: nat, r: int)
    requires Requested(rgs, 0, rows, readSize)
    ensures Collect(Chunks(rgs, 0, rows, readSize, None, 0), r)
         == if r in rows && r < |AllRows(rgs)| then AllRows(rgs)[r] else []
  {
    ChunksHoldRows(rgs, 0, rows, readSize, None, 0, r);
  }

  ghost predicate InRowOrder(cs: seq<Chunk>) {
    forall i, j :: 0 <= i < j < |cs| ==> cs[i].row <= cs[j].row
  }

  /** Rows come out in ascending order and no chunk is empty. */
  lemma {:induction false} ChunksInOrder(rgs: seq<RowGroup>, start: int, rows: seq<int>, n: nat, page: Option<Page>, base: int)
    requires Requested(rgs, start, rows, n)
    requires page.Some? && rows != [] ==> base <= rows[0]
    ensures InRowOrder(Chunks(rgs, start, rows, n, page, base))
    ensures forall c :: c in Chunks(rgs, start, rows, n, page, base) ==> c.row in rows && 0 < |c.values| <= n
    decreases |rows|, |rgs|
  {
    hide RowChunks, Flatten;
    if rows == [] {
    } else if page.Some? && rows[0] < base + |page.value| {
      ChunksInOrder(rgs, start, rows[1..], n, page, base);
      assert rows == [rows[0]] + rows[1..];
    } else if rgs == [] {
    } else if rows[0] >= start + NumRows(rgs[0]) {
      ChunksInOrder(rgs[1..], start + NumRows(rgs[0]), rows, n, None, 0);
    } else {
      ChunksInOrder(rgs, start, rows[1..], n, Some(PageFrom(rgs[0], rows[0] - start)), rows[0]);
      assert rows == [rows[0]] + rows[1..];
    }
  }

  // ----- columns of the same shape advance in lockstep -----

  ghost predicate SamePageShape(p: Page, q: Page) {
    |p| == |q| && forall i :: 0 <= i < |p| ==> |p[i]| == |q[i]|
  }

  ghost predicate SameGroupShape(g: RowGroup, h: RowGroup) {
    |g| == |h| && forall i :: 0 <= i < |g| ==> SamePageShape(g[i], h[i])
  }

  ghost predicate SameShape(rgs: seq<RowGroup>, rgs': seq<RowGroup>) {
    |rgs| == |rgs'| && forall i :: 0 <= i < |rgs| ==> SameGroupShape(rgs[i], rgs'[i])
  }

  /** Two chunk lists cover the same rows with chunks of the same sizes. */
  ghost predicate Aligned(cs: seq<Chunk>, cs': seq<Chunk>) {
    |cs| == |cs'| && forall i :: 0 <= i < |cs| ==> cs[i].row == cs'[i].row && |cs[i].values| == |cs'[i].values|
  }

  lemma AlignedConcat(a: seq<Chunk>, b: seq<Chunk>, a': seq<Chunk>, b': seq<Chunk>)
    requires Aligned(a, a') && Aligned(b, b')
    ensures Aligned(a + b, a' + b')
  {
  }

  lemma {:induction false} SameSize(p: Page, q: Page)
    requires SamePageShape(p, q)
    ensures |Flatten(p)| == |Flatten(q)|
  {
    if p != [] {
      SameSize(p[1..], q[1..]);
    }
  }

  lemma {:induction false} SameNumRows(g: RowGroup, h: RowGroup)
    requires SameGroupShape(g, h)
    ensures SamePageShape(Flatten(g), Flatten(h))
  {
    if g != [] {
      SameNumRows(g[1..], h[1..]);
    }
  }

  lemma {:induction false} SamePageFrom(g: RowGroup, h: RowGroup, k: nat)
    requires SameGroupShape(g, h) && WellFormedGroup(g) && WellFormedGroup(h)
    requires k < NumRows(g) && k < NumRows(h)
    ensures SamePageShape(PageFrom(g, k), PageFrom(h, k))
  {
    if k >= |g[0]| {
      SamePageFrom(g[1..], h[1..], k - |g[0]|);
    }
  }

  lemma {:induction false} SameCuts(row: int, v: seq<Value>, w: seq<Value>, from: nat, end: nat, n: nat)
    requires n > 0 && from <= end <= |v| && end <= |w|
    ensures Aligned(Cuts(row, v, from, end, n), Cuts(row, w, from, end, n))
    decreases end - from
  {
    if from < end {
      SameCuts(row, v, w, CutEnd(from, end, n), end, n);
    }
  }

  lemma SameRowChunks(row: int, p: Page, q: Page, k: nat, n: nat)
    requires n > 0 && SamePageShape(p, q) && k < |p|
    ensures Aligned(RowChunks(row, p, k, 0, n), RowChunks(row, q, k, 0, n))
  {
    SameSize(p[..k], q[..k]);
    SameSize(p[..k + 1], q[..k + 1]);
    FlattenPart(p, k);
    FlattenPart(q, k);
    if Offset(p, k + 1) > 0 {
      SameCuts(row, Flatten(p), Flatten(q), Offset(p, k), Offset(p, k + 1), n);
    }
  }

  /** Where the chunks are cut depends only on the shape of the column, the requested
      rows and the read size: iterators over columns of the same shape advance in lockstep. */
  lemma {:induction false} Lockstep(rgs: seq<RowGroup>, rgs': seq<RowGroup>, start: int, rows: seq<int>, n: nat,
                                    page: Option<Page>, page': Option<Page>, base: int)
    requires Requested(rgs, start, rows, n) && Requested(rgs', start, rows, n) && SameShape(rgs, rgs')
    requires page.Some? == page'.Some?
    requires page.Some? ==> SamePageShape(page.value, page'.value)
    requires page.Some? && rows != [] ==> base <= rows[0]
    ensures Aligned(Chunks(rgs, start, rows, n, page, base), Chunks(rgs', start, rows, n, page', base))
    decreases |rows|, |rgs|
  {
    hide RowChunks, Flatten, PageFrom, SamePageShape, SameGroupShape, Aligned;
    if page.Some? {
      SameLength(page.value, page'.value);
    }
    if rows == [] {
      NothingAligned();
    } else if page.Some? && rows[0] < base + |page.value| {
      SameRowChunks(rows[0], page.value, page'.value, rows[0] - base, n);
      Lockstep(rgs, rgs', start, rows[1..], n, page, page', base);
      AlignedConcat(RowChunks(rows[0], page.value, rows[0] - base, 0, n), Chunks(rgs, start, rows[1..], n, page, base),
                    RowChunks(rows[0], page'.value, rows[0] - base, 0, n), Chunks(rgs', start, rows[1..], n, page', base));
    } else if rgs == [] {
      NothingAligned();
    } else {
      SameNumRows(rgs[0], rgs'[0]);
      SameLength(Flatten(rgs[0]), Flatten(rgs'[0]));
      if rows[0] >= start + NumRows(rgs[0]) {
        Lockstep(rgs[1..], rgs'[1..], start + NumRows(rgs[0]), rows, n, None, None, 0);
      } else {
        var p, q := PageFrom(rgs[0], rows[0] - start), PageFrom(rgs'[0], rows[0] - start);
        SamePageFrom(rgs[0], rgs'[0], rows[0] - start);
        SameRowChunks(rows[0], p, q, 0, n);
        Lockstep(rgs, rgs', start, rows[1..], n, Some(p), Some(q), rows[0]);
        AlignedConcat(RowChunks(rows[0], p, 0, 0, n), Chunks(rgs, start, rows[1..], n, Some(p), rows[0]),
                      RowChunks(rows[0], q, 0, 0, n), Chunks(rgs', start, rows[1..], n, Some(q), rows[0]));
      }
    }
  }

  lemma NothingAligned()
    ensures Aligned([], [])
  {
  }

  lemma SameLength(p: Page, q: Page)
    requires SamePageShape(p, q)
    ensures |p| == |q|
  {
  }

  /** Pairs the values of two columns position by position. */
  function Zip(a: seq<Value>, b: seq<Value>): (z: seq<(Value, Value)>)
    requires |a| == |b|
  {
    seq(|a|, i requires 0 <= i < |a| => (a[i], b[i]))
  }

  /** The pairs that two iterators driven together (`multiRepeatedPageIterator`) give for row `r`. */
  ghost function CollectPairs(cs: seq<Chunk>, cs': seq<Chunk>, r: int): seq<(Value, Value)>
    requires Aligned(cs, cs')
  {
    if cs == [] then []
    else (if cs[0].row == r then Zip(cs[0].values, cs'[0].values) else []) + CollectPairs(cs[1..], cs'[1..], r)
  }

  lemma {:induction false} CollectPairsIsZip(cs: seq<Chunk>, cs': seq<Chunk>, r: int)
    requires Aligned(cs, cs')
    ensures |Collect(cs, r)| == |Collect(cs', r)|
    ensures CollectPairs(cs, cs', r) == Zip(Collect(cs, r), Collect(cs', r))
  {
    if cs != [] {
      CollectPairsIsZip(cs[1..], cs'[1..], r);
    }
  }

  /** Two columns of the same shape read together: every requested row gives its values
      paired position by position, so a stacktrace id never meets the value of another sample. */
  lemma SamplesStayPaired(ids: seq<RowGroup>, values: seq<RowGroup>, rows: seq<int>, readSize: nat, r: int)
    requires Requested(ids, 0, rows, readSize) && Requested(values, 0, rows, readSize) && SameShape(ids, values)
    requires r in rows && r < |AllRows(ids)| && r < |AllRows(values)|
    ensures var cs, cs' := Chunks(ids, 0, rows, readSize, None, 0), Chunks(values, 0, rows, readSize, None, 0);
            && Aligned(cs, cs')
            && |AllRows(ids)[r]| == |AllRows(values)[r]|
            && CollectPairs(cs, cs', r) == Zip(AllRows(ids)[r], AllRows(values)[r])
  {
    var cs, cs' := Chunks(ids, 0, rows, readSize, None, 0), Chunks(values, 0, rows, readSize, None, 0);
    Lockstep(ids, values, 0, rows, readSize, None, None, 0);
    CollectPairsIsZip(cs, cs', r);
    RowsReassembled(ids, rows, readSize, r);
    RowsReassembled(values, rows, readSize, r);
  }
}
