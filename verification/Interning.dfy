/** Interning of profiles into the head: strings, functions, locations and stacktraces are
    stored once, and every profile's references are rewritten to the head's. */
module Interning {
  import opened Sequences

  // ----- one deduplicating table -----

  /** An element to ingest, with the id it has in its profile. */
  datatype Item<M> = Item(id: nat, content: M)

  datatype Table<M, !K> = Table(slice: seq<M>, lookup: map<K, nat>)

  /** `lookup` and `slice` are inverse to each other. */
  ghost predicate TableOk<M, K>(t: Table<M, K>, key: M -> K) {
    && (forall k :: k in t.lookup ==> t.lookup[k] < |t.slice| && key(t.slice[t.lookup[k]]) == k)
    && (forall i :: 0 <= i < |t.slice| ==> key(t.slice[i]) in t.lookup && t.lookup[key(t.slice[i])] == i)
  }

  /** Tables are append-only. */
  ghost predicate Extends<M, K>(t: Table<M, K>, t': Table<M, K>) {
    t.slice <= t'.slice && forall k :: k in t.lookup ==> k in t'.lookup && t'.lookup[k] == t.lookup[k]
  }

  /** The ids found so far, and the positions of the elements that were not. */
  datatype Pending = Pending(rewriting: map<nat, nat>, missing: seq<nat>)

  /** The pass under the read lock, over the first `n` elements. */
  function Find<M, K>(lookup: map<K, nat>, key: M -> K, items: seq<Item<M>>, n: nat): Pending
    requires n <= |items|
  {
    if n == 0 then Pending(map[], []) else
    var p := Find(lookup, key, items, n - 1);
    var k := key(items[n - 1].content);
    if k in lookup then p.(rewriting := p.rewriting[items[n - 1].id := lookup[k]])
    else p.(missing := p.missing + [n - 1])
  }

  datatype Added<M, !K> = Added(table: Table<M, K>, rewriting: map<nat, nat>)

  /** One missing element under the write lock: looked up again, and appended if still new. */
  function AddOne<M, K>(a: Added<M, K>, key: M -> K, item: Item<M>): Added<M, K> {
    var k := key(item.content);
    if k in a.table.lookup then a.(rewriting := a.rewriting[item.id := a.table.lookup[k]])
    else
      var at := |a.table.slice|;
      Added(Table(a.table.slice + [item.content], a.table.lookup[k := at]), a.rewriting[item.id := at])
  }

  function Add<M, K>(t: Table<M, K>, key: M -> K, items: seq<Item<M>>, p: Pending, n: nat): Added<M, K>
    requires n <= |p.missing| && forall i :: 0 <= i < |p.missing| ==> p.missing[i] < |items|
  {
    if n == 0 then Added(t, p.rewriting) else AddOne(Add(t, key, items, p, n - 1), key, items[p.missing[n - 1]])
  }

  /** The element's id leads to an equal element of the table. */
  ghost predicate Stored<M>(slice: seq<M>, rewriting: map<nat, nat>, item: Item<M>) {
    item.id in rewriting && rewriting[item.id] < |slice| && slice[rewriting[item.id]] == item.content
  }

  ghost predicate UniqueIds<M>(items: seq<Item<M>>) {
    forall i, j :: 0 <= i < j < |items| ==> items[i].id != items[j].id
  }

  /** Between the two passes: every element is either stored or listed as missing. */
  ghost predicate PendingOk<M>(slice: seq<M>, items: seq<Item<M>>, p: Pending) {
    && (forall i :: 0 <= i < |p.missing| ==> p.missing[i] < |items|)
    && (forall i :: 0 <= i < |items| ==> i in p.missing || Stored(slice, p.rewriting, items[i]))
  }

  lemma {:induction false} FindIsOk<M(!new), K>(t: Table<M, K>, key: M -> K, items: seq<Item<M>>, n: nat)
    requires TableOk(t, key) && Injective(key) && UniqueIds(items) && n <= |items|
    ensures
      var p := Find(t.lookup, key, items, n);
      && (forall i :: 0 <= i < |p.missing| ==> p.missing[i] < n)
      && (forall i :: 0 <= i < n ==> i in p.missing || Stored(t.slice, p.rewriting, items[i]))
  {
    if n > 0 {
      FindIsOk(t, key, items, n - 1);
      var q, p := Find(t.lookup, key, items, n - 1), Find(t.lookup, key, items, n);
      forall i | 0 <= i < n ensures i in p.missing || Stored(t.slice, p.rewriting, items[i]) {
        if i < n - 1 {
          assert items[i].id != items[n - 1].id;
          if i in q.missing {
            var m :| 0 <= m < |q.missing| && q.missing[m] == i;
            assert p.missing[m] == i;
          }
        } else if key(items[i].content) !in t.lookup {
          assert p.missing[|q.missing|] == i;
        }
      }
    }
  }

  lemma AddOneIsOk<M(!new), K>(a: Added<M, K>, key: M -> K, item: Item<M>)
    requires TableOk(a.table, key) && Injective(key)
    ensures
      var b := AddOne(a, key, item);
      && TableOk(b.table, key) && Extends(a.table, b.table) && Stored(b.table.slice, b.rewriting, item)
      && (forall c :: c in b.table.slice ==> c in a.table.slice || c == item.content)
  {
    var k := key(item.content);
    var b := AddOne(a, key, item);
    if k !in a.table.lookup {
      forall i | 0 <= i < |b.table.slice|
        ensures key(b.table.slice[i]) in b.table.lookup && b.table.lookup[key(b.table.slice[i])] == i
      {
        if i < |a.table.slice| {
          assert b.table.slice[i] == a.table.slice[i];
        }
      }
    }
  }

  ghost predicate Given<M>(items: seq<Item<M>>, c: M) {
    exists i :: 0 <= i < |items| && items[i].content == c
  }

  lemma AddOneKeeps<M, K>(a: Added<M, K>, key: M -> K, item: Item<M>, other: Item<M>)
    requires Stored(a.table.slice, a.rewriting, other) && other.id != item.id
    ensures Stored(AddOne(a, key, item).table.slice, AddOne(a, key, item).rewriting, other)
  {
  }

  lemma {:induction false} AddIsOk<M(!new), K>(t: Table<M, K>, key: M -> K, items: seq<Item<M>>, p: Pending, n: nat)
    requires TableOk(t, key) && Injective(key) && UniqueIds(items) && PendingOk(t.slice, items, p)
    requires n <= |p.missing|
    ensures
      var a := Add(t, key, items, p, n);
      && TableOk(a.table, key) && Extends(t, a.table)
      && (forall c :: c in a.table.slice ==> c in t.slice || Given(items, c))
      && (forall i :: 0 <= i < |items| ==> i in p.missing[n..] || Stored(a.table.slice, a.rewriting, items[i]))
  {
    hide TableOk, Injective, AddOne, Stored;
    if n > 0 {
      assert p.missing[n - 1..] == [p.missing[n - 1]] + p.missing[n..];
      AddIsOk(t, key, items, p, n - 1);
      var b, a := Add(t, key, items, p, n - 1), Add(t, key, items, p, n);
      var at := p.missing[n - 1];
      AddOneIsOk(b, key, items[at]);
      forall i | 0 <= i < |items| ensures i in p.missing[n..] || Stored(a.table.slice, a.rewriting, items[i]) {
        if i != at && i !in p.missing[n..] {
          assert Stored(b.table.slice, b.rewriting, items[i]);
          AddOneKeeps(b, key, items[at], items[i]);
        }
      }
    }
  }

  /** A row as it is written: with its id, which is the first sorting column of all tables. */
  datatype Row<M> = Row(id: nat, element: M)

  function Numbered<M>(slice: seq<M>, from: nat, to: nat): (r: seq<Row<M>>)
    requires from <= to <= |slice|
    ensures |r| == to - from && forall i :: 0 <= i < |r| ==> r[i] == Row(from + i, slice[from + i])
  {
    seq(to - from, i requires 0 <= i < to - from => Row(from + i, slice[from + i]))
  }

  lemma NumberedConcat<M>(slice: seq<M>, a: nat, b: nat, c: nat)
    requires a <= b <= c <= |slice|
    ensures Numbered(slice, a, c) == Numbered(slice, a, b) + Numbered(slice, b, c)
  {
  }

  /** Rows sorted by id are as they were. */
  lemma {:induction false} SortedAlready<M(!new)>(a: seq<Row<M>>, r: seq<Row<M>>)
    requires (forall i, j :: 0 <= i < j < |a| ==> a[i].id < a[j].id) && (forall i, j :: 0 <= i < j < |r| ==> r[i].id <= r[j].id)
    requires multiset(a) == multiset(r)
    ensures a == r
  {
    assert |multiset(a)| == |a| && |multiset(r)| == |r|;
    if a != [] {
      FirstSame(a, r);
      assert a == [a[0]] + a[1..] && r == [r[0]] + r[1..];
      RestSame(a[0], a[1..], r[1..]);
      SortedAlready(a[1..], r[1..]);
    }
  }

  lemma FirstSame<M(!new)>(a: seq<Row<M>>, r: seq<Row<M>>)
    requires (forall i, j :: 0 <= i < j < |a| ==> a[i].id < a[j].id) && (forall i, j :: 0 <= i < j < |r| ==> r[i].id <= r[j].id)
    requires multiset(a) == multiset(r) && a != [] && r != []
    ensures a[0] == r[0]
  {
    assert r[0] in multiset(a) && a[0] in multiset(r);
    var i :| 0 <= i < |a| && a[i] == r[0];
    var j :| 0 <= j < |r| && r[j] == a[0];
  }

  lemma RestSame<T>(x: T, a: seq<T>, b: seq<T>)
    requires multiset([x] + a) == multiset([x] + b)
    ensures multiset(a) == multiset(b)
  {
    assert multiset(a) == multiset([x] + a) - multiset{x};
    assert multiset(b) == multiset([x] + b) - multiset{x};
  }

  method SortRows<M(!new)>(slice: seq<M>, from: nat, to: nat) returns (rows: seq<Row<M>>)
    requires from <= to <= |slice|
    ensures rows == Numbered(slice, from, to)
  {
    var unsorted := Numbered(slice, from, to);
    var byId := (a: Row<M>, b: Row<M>) => a.id <= b.id;
    rows := SortBy(byId, unsorted);
    assert forall i, j :: 0 <= i < j < |rows| ==> byId(rows[i], rows[j]);
    SortedAlready(unsorted, rows);
  }

  /** The table as an object, as `ingest` works on it. */
  class DeduplicatingSlice<M(!new), K(==)> {
    var slice: seq<M>
    var lookup: map<K, nat>
    const key: M -> K
    const sizeOf: M -> nat
    var size: nat
    var rowsFlushed: nat

    ghost function Contents(): Table<M, K>
      reads this
    {
      Table(slice, lookup)
    }

    constructor (key: M -> K, sizeOf: M -> nat)
      ensures this.key == key && Contents() == Table([], map[]) && TableOk(Contents(), key) && rowsFlushed == 0
      ensures this.sizeOf == sizeOf && size == TotalSize(sizeOf, slice)
    {
      this.key, slice, lookup, rowsFlushed := key, [], map[], 0;
      this.sizeOf, size := sizeOf, 0;
    }

    method FindExisting(items: seq<Item<M>>) returns (p: Pending)
      ensures p == Find(lookup, key, items, |items|)
    {
      var rewriting: map<nat, nat>, missing: seq<nat> := map[], [];
      for pos := 0 to |items|
        invariant Pending(rewriting, missing) == Find(lookup, key, items, pos)
      {
        var k := key(items[pos].content);
        if k in lookup {
          rewriting := rewriting[items[pos].id := lookup[k]];
        } else {
          missing := missing + [pos];
        }
      }
      p := Pending(rewriting, missing);
    }

    method AddMissing(items: seq<Item<M>>, p: Pending) returns (rewriting: map<nat, nat>)
      requires (forall i :: 0 <= i < |p.missing| ==> p.missing[i] < |items|) && size == TotalSize(sizeOf, slice)
      modifies this`slice, this`lookup, this`size
      ensures Added(Contents(), rewriting) == Add(old(Contents()), key, items, p, |p.missing|)
      ensures size == TotalSize(sizeOf, slice)
    {
      rewriting := p.rewriting;
      var posSlice := |slice|;
      for n := 0 to |p.missing|
        invariant posSlice == |slice| && size == TotalSize(sizeOf, slice)
        invariant Added(Contents(), rewriting) == Add(old(Contents()), key, items, p, n)
      {
        var item := items[p.missing[n]];
        var k := key(item.content);
        if k in lookup {
          rewriting := rewriting[item.id := lookup[k]];
        } else {
          TotalSizeMore(sizeOf, slice, item.content);
          slice := slice + [item.content];
          size := size + sizeOf(item.content);
          lookup := lookup[k := posSlice];
          rewriting := rewriting[item.id := posSlice];
          posSlice := posSlice + 1;
        }
      }
    }

    /** Both passes, with nothing in between: every id leads to its element, and nothing stored moves. */
    method Ingest(items: seq<Item<M>>) returns (rewriting: map<nat, nat>)
      requires TableOk(Contents(), key) && Injective(key) && UniqueIds(items) && size == TotalSize(sizeOf, slice)
      modifies this`slice, this`lookup, this`size
      ensures TableOk(Contents(), key) && Extends(old(Contents()), Contents()) && size == TotalSize(sizeOf, slice)
      ensures forall c :: c in slice ==> c in old(slice) || Given(items, c)
      ensures forall i :: 0 <= i < |items| ==> Stored(slice, rewriting, items[i])
    {
      FindIsOk(Contents(), key, items, |items|);
      var p := FindExisting(items);
      AddIsOk(Contents(), key, items, p, |p.missing|);
      if p.missing != [] {
        rewriting := AddMissing(items, p);
      } else {
        rewriting := p.rewriting;
      }
    }

    /** `maxRowsPerRowGroup`, by the average size of a row: as many as fit, but one at least.  When that rounds to 0 the source divides
        by zero, and stops. */
    method MaxRowsPerRowGroup(maxRowGroupBytes: nat) returns (r: Option<nat>)
      ensures r.None? <==> slice != [] && size < |slice|
      ensures r.Some? ==> r.value >= 1
      ensures r.Some? && slice != [] && r.value > 1 ==> r.value * (size / |slice|) <= maxRowGroupBytes
      ensures r.Some? && slice != [] ==> (r.value + 1) * (size / |slice|) > maxRowGroupBytes
      ensures slice == [] ==> r == Some(1)
    {
      if |slice| == 0 {
        return Some(1);
      }
      RoundsToZero(size, |slice|);
      var bytesPerRow := size / |slice|;
      if bytesPerRow == 0 {
        return None;
      }
      QuotientFits(maxRowGroupBytes, bytesPerRow);
      var maxRows := maxRowGroupBytes / bytesPerRow;
      r := Some(if maxRows <= 0 then 1 else maxRows);
    }

    /** `Flush`: the rows not yet written, cut into row groups within both limits, all but the last as large
        as these allow; it fails exactly when there are more rows than bytes. */
    method Flush(maxRowGroupBytes: nat, maxBufferRowCount: nat) returns (groups: Option<seq<seq<Row<M>>>>)
      requires maxBufferRowCount > 0 && rowsFlushed <= |slice|
      modifies this`rowsFlushed
      ensures groups.None? <==> slice != [] && size < |slice|
      ensures groups.None? ==> rowsFlushed == old(rowsFlushed)
      ensures groups.Some? ==> Flatten(groups.value) == Numbered(slice, old(rowsFlushed), |slice|) && rowsFlushed == |slice|
      ensures groups.Some? ==> |Flatten(groups.value)| == |slice| - old(rowsFlushed)
      ensures groups.Some? ==> forall id :: old(rowsFlushed) <= id < |slice| ==>
                Flatten(groups.value)[id - old(rowsFlushed)] == Row(id, slice[id])
      ensures groups.Some? ==> forall g :: g in groups.value ==> 0 < |g| <= maxBufferRowCount
      ensures groups.Some? && slice != [] ==> forall g :: g in groups.value && |g| > 1 ==> |g| * (size / |slice|) <= maxRowGroupBytes
      ensures groups.Some? && slice != [] ==> forall i :: 0 <= i < |groups.value| - 1 ==>
                |groups.value[i]| == maxBufferRowCount || (|groups.value[i]| + 1) * (size / |slice|) > maxRowGroupBytes
    {
      var maxRows := MaxRowsPerRowGroup(maxRowGroupBytes);
      if maxRows.None? {
        return None;
      }
      var cut := FlushRows(maxRows.value, maxBufferRowCount);
      forall g | g in cut && |g| > 1 ensures |g| * (size / |slice|) <= maxRowGroupBytes {
        ProductMonotone(|g|, maxRows.value, size / |slice|);
      }
      groups := Some(cut);
    }

    method FlushRows(maxRows: nat, maxBufferRowCount: nat) returns (groups: seq<seq<Row<M>>>)
      requires maxRows > 0 && maxBufferRowCount > 0 && rowsFlushed <= |slice|
      modifies this`rowsFlushed
      ensures Flatten(groups) == Numbered(slice, old(rowsFlushed), |slice|) && rowsFlushed == |slice|
      ensures Grouped(groups, maxRows, maxBufferRowCount, true)
      ensures groups != [] ==> slice != []
    {
      groups := [];
      FlattenNone<Row<M>>();
      assert Grouped<M>([], maxRows, maxBufferRowCount, rowsFlushed == |slice|);
      assert Numbered(slice, rowsFlushed, rowsFlushed) == [];
      hide *;
      while true
        invariant old(rowsFlushed) <= rowsFlushed <= |slice|
        invariant Flatten(groups) == Numbered(slice, old(rowsFlushed), rowsFlushed)
        invariant Grouped(groups, maxRows, maxBufferRowCount, rowsFlushed == |slice|)
        invariant groups != [] ==> slice != []
        decreases |slice| - rowsFlushed
      {
        var rowsToFlush := |slice| - rowsFlushed;
        if rowsToFlush == 0 {
          break;
        }
        if rowsToFlush > maxRows {
          rowsToFlush := maxRows;
        }
        if rowsToFlush > maxBufferRowCount {
          rowsToFlush := maxBufferRowCount;
        }
        var rows := SortRows(slice, rowsFlushed, rowsFlushed + rowsToFlush);
        FlattenMore(groups, rows);
        GroupedMore(groups, rows, maxRows, maxBufferRowCount, rowsFlushed + rowsToFlush == |slice|);
        NumberedConcat(slice, old(rowsFlushed), rowsFlushed, rowsFlushed + rowsToFlush);
        groups := groups + [rows];
        rowsFlushed := rowsFlushed + rowsToFlush;
      }
    }
  }

  /** Groups within both limits, each as large as these allow, but for the last when `done`. */
  ghost predicate Grouped<M>(groups: seq<seq<Row<M>>>, maxRows: nat, maxBufferRowCount: nat, done: bool) {
    && (forall i :: 0 <= i < |groups| ==> 0 < |groups[i]| <= maxRows && |groups[i]| <= maxBufferRowCount)
    && (forall i :: 0 <= i < |groups| - (if done then 1 else 0) ==> |groups[i]| == maxRows || |groups[i]| == maxBufferRowCount)
  }

  lemma GroupedMore<M>(groups: seq<seq<Row<M>>>, rows: seq<Row<M>>, maxRows: nat, maxBufferRowCount: nat, done: bool)
    requires Grouped(groups, maxRows, maxBufferRowCount, false)
    requires 0 < |rows| <= maxRows && |rows| <= maxBufferRowCount && (done || |rows| == maxRows || |rows| == maxBufferRowCount)
    ensures Grouped(groups + [rows], maxRows, maxBufferRowCount, done)
  {
  }

  function TotalSize<M>(sizeOf: M -> nat, slice: seq<M>): nat {
    if slice == [] then 0 else TotalSize(sizeOf, slice[..|slice| - 1]) + sizeOf(slice[|slice| - 1])
  }

  lemma TotalSizeMore<M>(sizeOf: M -> nat, slice: seq<M>, c: M)
    ensures TotalSize(sizeOf, slice + [c]) == TotalSize(sizeOf, slice) + sizeOf(c)
  {
    assert (slice + [c])[..|slice|] == slice;
  }

  lemma ProductMonotone(a: nat, b: nat, w: nat)
    requires a <= b
    ensures a * w <= b * w
  {
    assert b * w == a * w + (b - a) * w;
  }

  lemma QuotientFits(a: nat, b: nat)
    requires b > 0
    ensures 0 <= a / b && (a / b) * b <= a < (a / b + 1) * b
  {
    assert a == (a / b) * b + a % b;
    assert (a / b + 1) * b == (a / b) * b + b;
  }

  lemma RoundsToZero(a: nat, b: nat)
    requires b > 0
    ensures a / b >= 0 && (a / b == 0 <==> a < b)
  {
  }

  /** The table of strings of a head that has seen nothing but the empty string cannot be flushed. */
  method EmptyStringStopsFlush(maxRowGroupBytes: nat) returns (groups: Option<seq<seq<Row<string>>>>)
    ensures groups.None?
  {
    var strings := new DeduplicatingSlice<string, string>(s => s, s => |s|);
    hide Flatten, Numbered, TotalSize;
    var items := [Item(0, "")];
    var rewriting := strings.Ingest(items);
    assert Stored(strings.slice, rewriting, items[0]);
    assert forall i :: 0 <= i < |strings.slice| ==> strings.slice[i] in strings.slice;
    OnlyEmpty(strings.sizeOf, strings.slice);
    groups := strings.Flush(maxRowGroupBytes, 100_000);
  }

  lemma {:induction false} OnlyEmpty(sizeOf: string -> nat, slice: seq<string>)
    requires sizeOf("") == 0 && forall i :: 0 <= i < |slice| ==> slice[i] == ""
    ensures TotalSize(sizeOf, slice) == 0
  {
    if slice != [] {
      OnlyEmpty(sizeOf, slice[..|slice| - 1]);
    }
  }

  // ----- what is interned -----

  datatype Function = Function(name: nat, systemName: nat, filename: nat, startLine: int)

  datatype Line = Line(functionId: nat, line: int)

  datatype Location = Location(mappingId: nat, address: nat, lines: seq<Line>)

  /** The contents of the four tables, in the order in which they are ingested. */
  datatype Content =
    | Text(text: string)
    | Fun(fun: Function)
    | Loc(loc: Location)
    | Stack(locationIds: seq<nat>)
  {
    function Stage(): nat {
      match this case Text(_) => 0 case Fun(_) => 1 case Loc(_) => 2 case Stack(_) => 3
    }
  }

  datatype Key =
    | TextKey(text: string)
    | FunKey(name: nat, systemName: nat, filename: nat, startLine: int)
    | LocKey(mappingId: nat, address: nat, linesHash: int)
    | StackKey(hash: int)

  /** The hashes of a location's lines and of a stacktrace's location ids. */
  datatype Hashes = Hashes(lines: seq<Line> -> int, stack: seq<nat> -> int)

  function KeyOf(h: Hashes, c: Content): Key {
    match c
    case Text(s) => TextKey(s)
    case Fun(f) => FunKey(f.name, f.systemName, f.filename, f.startLine)
    case Loc(l) => LocKey(l.mappingId, l.address, h.lines(l.lines))
    case Stack(ids) => StackKey(h.stack(ids))
  }

  function Keys(h: Hashes): Content -> Key {
    c => KeyOf(h, c)
  }

  lemma KeysInjective(h: Hashes)
    requires Injective(h.lines) && Injective(h.stack)
    ensures Injective(Keys(h))
  {
    forall a, b | Keys(h)(a) == Keys(h)(b) ensures a == b {
      assert KeyOf(h, a) == KeyOf(h, b);
    }
  }

  type Rewriter = seq<map<nat, nat>>

  function Get(m: map<nat, nat>, k: nat): nat {
    if k in m then m[k] else 0
  }

  /** The references of an element, through the tables of the stages before it. */
  function Rewrite(rw: Rewriter, mappings: map<nat, nat>, c: Content): Content
    requires |rw| >= c.Stage()
  {
    match c
    case Text(_) => c
    case Fun(f) => Fun(Function(Get(rw[0], f.name), Get(rw[0], f.systemName), Get(rw[0], f.filename), f.startLine))
    case Loc(l) =>
      Loc(Location(if l.mappingId == 0 then 0 else Get(mappings, l.mappingId), l.address, RewriteLines(rw[1], l.lines)))
    case Stack(ids) => Stack(RewriteIds(rw[2], ids))
  }

  function RewriteLines(functions: map<nat, nat>, lines: seq<Line>): (r: seq<Line>) {
    seq(|lines|, i requires 0 <= i < |lines| => Line(Get(functions, lines[i].functionId), lines[i].line))
  }

  function RewriteIds(m: map<nat, nat>, ids: seq<nat>): (r: seq<nat>) {
    seq(|ids|, i requires 0 <= i < |ids| => Get(m, ids[i]))
  }

  // ----- resolution -----

  /** Symbols by stage and id: of a profile, or of the head. */
  type Symbols = seq<map<nat, Content>>

  datatype Frame = Frame(name: string, systemName: string, filename: string, startLine: int, line: int)

  datatype Resolved = Resolved(address: nat, frames: seq<Frame>)

  /** Everything `c` refers to is there. */
  ghost predicate Refers(sym: Symbols, c: Content)
    requires |sym| == 4
  {
    match c
    case Text(_) => true
    case Fun(f) => f.name in sym[0] && f.systemName in sym[0] && f.filename in sym[0]
    case Loc(l) => forall i :: 0 <= i < |l.lines| ==> l.lines[i].functionId in sym[1]
    case Stack(ids) => forall i :: 0 <= i < |ids| ==> ids[i] in sym[2]
  }

  ghost predicate Closed(sym: Symbols) {
    && |sym| == 4
    && (forall s, id :: 0 <= s < 4 && id in sym[s] ==> sym[s][id].Stage() == s && Refers(sym, sym[s][id]))
  }

  function TextOf(sym: Symbols, id: nat): string
    requires Closed(sym) && id in sym[0]
  {
    sym[0][id].text
  }

  function FrameOf(sym: Symbols, l: Line): Frame
    requires Closed(sym) && l.functionId in sym[1]
  {
    var f := sym[1][l.functionId].fun;
    assert Refers(sym, sym[1][l.functionId]);
    Frame(TextOf(sym, f.name), TextOf(sym, f.systemName), TextOf(sym, f.filename), f.startLine, l.line)
  }

  function LocationOf(sym: Symbols, id: nat): Resolved
    requires Closed(sym) && id in sym[2]
  {
    var l := sym[2][id].loc;
    assert Refers(sym, sym[2][id]);
    Resolved(l.address, seq(|l.lines|, i requires 0 <= i < |l.lines| => FrameOf(sym, l.lines[i])))
  }

  /** The frames a stacktrace id stands for, location by location. */
  function StackOf(sym: Symbols, id: nat): seq<Resolved>
    requires Closed(sym) && id in sym[3]
  {
    var ids := sym[3][id].locationIds;
    assert Refers(sym, sym[3][id]);
    seq(|ids|, i requires 0 <= i < |ids| => LocationOf(sym, ids[i]))
  }

  /** The names a reader sees. */
  function NamesOf(stack: seq<Resolved>): seq<string> {
    Flatten(seq(|stack|, i requires 0 <= i < |stack| =>
      seq(|stack[i].frames|, j requires 0 <= j < |stack[i].frames| => stack[i].frames[j].name)))
  }

  /** `rw` takes every element of `a` to its rewritten copy in `b`. */
  ghost predicate Maps(rw: Rewriter, mappings: map<nat, nat>, a: Symbols, b: Symbols) {
    && |rw| == |a| == |b| == 4
    && (forall s, id :: 0 <= s < 4 && id in a[s] ==> MapsId(rw, mappings, a, b, s, id))
  }

  ghost predicate MapsId(rw: Rewriter, mappings: map<nat, nat>, a: Symbols, b: Symbols, s: nat, id: nat)
    requires s < |rw| == |a| == |b| == 4 && id in a[s]
  {
    id in rw[s] && rw[s][id] in b[s] && a[s][id].Stage() == s && b[s][rw[s][id]] == Rewrite(rw, mappings, a[s][id])
  }

  lemma MapsFrame(rw: Rewriter, mappings: map<nat, nat>, a: Symbols, b: Symbols, l: Line)
    requires Maps(rw, mappings, a, b) && Closed(a) && Closed(b) && l.functionId in a[1]
    ensures Get(rw[1], l.functionId) in b[1]
    ensures FrameOf(b, Line(Get(rw[1], l.functionId), l.line)) == FrameOf(a, l)
  {
    var f := a[1][l.functionId].fun;
    assert Refers(a, a[1][l.functionId]);
    assert MapsId(rw, mappings, a, b, 1, l.functionId);
    assert MapsId(rw, mappings, a, b, 0, f.name);
    assert MapsId(rw, mappings, a, b, 0, f.systemName);
    assert MapsId(rw, mappings, a, b, 0, f.filename);
  }

  lemma MapsLocation(rw: Rewriter, mappings: map<nat, nat>, a: Symbols, b: Symbols, id: nat)
    requires Maps(rw, mappings, a, b) && Closed(a) && Closed(b) && id in a[2]
    ensures Get(rw[2], id) in b[2] && LocationOf(b, Get(rw[2], id)) == LocationOf(a, id)
  {
    hide FrameOf;
    var l := a[2][id].loc;
    assert Refers(a, a[2][id]);
    assert MapsId(rw, mappings, a, b, 2, id);
    forall i | 0 <= i < |l.lines|
      ensures Get(rw[1], l.lines[i].functionId) in b[1]
      ensures FrameOf(b, Line(Get(rw[1], l.lines[i].functionId), l.lines[i].line)) == FrameOf(a, l.lines[i])
    {
      MapsFrame(rw, mappings, a, b, l.lines[i]);
    }
    assert LocationOf(b, Get(rw[2], id)).frames == LocationOf(a, id).frames;
  }

  /** Rewriting keeps the meaning of stacktraces. */
  lemma MapsStack(rw: Rewriter, mappings: map<nat, nat>, a: Symbols, b: Symbols, id: nat)
    requires Maps(rw, mappings, a, b) && Closed(a) && Closed(b) && id in a[3]
    ensures Get(rw[3], id) in b[3] && StackOf(b, Get(rw[3], id)) == StackOf(a, id)
  {
    hide LocationOf;
    var ids := a[3][id].locationIds;
    assert Refers(a, a[3][id]);
    assert MapsId(rw, mappings, a, b, 3, id);
    forall i | 0 <= i < |ids| ensures Get(rw[2], ids[i]) in b[2] && LocationOf(b, Get(rw[2], ids[i])) == LocationOf(a, ids[i]) {
      MapsLocation(rw, mappings, a, b, ids[i]);
    }
    assert StackOf(b, Get(rw[3], id)) == StackOf(a, id);
  }
}
