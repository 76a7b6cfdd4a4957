/** Concurrent ingests into the head, table after table, and what they keep. */
module Ingestion {
  import opened Interning
  import opened Sequences

  // ----- profiles -----

  /** A profile; the ids of its mappings are rewritten by `mappings`, which is left open. */
  datatype Profile = Profile(
    strings: seq<string>,
    functions: seq<Item<Function>>,
    locations: seq<Item<Location>>,
    samples: seq<seq<nat>>,
    mappings: map<nat, nat>)

  /** The elements of stage `s` with their ids: the position, for strings and stacktraces. */
  function Items(p: Profile, s: nat): (items: seq<Item<Content>>)
    requires s < 4
    ensures forall i :: 0 <= i < |items| ==> items[i].content.Stage() == s
  {
    if s == 0 then seq(|p.strings|, i requires 0 <= i < |p.strings| => Item(i, Text(p.strings[i])))
    else if s == 1 then
      seq(|p.functions|, i requires 0 <= i < |p.functions| => Item(p.functions[i].id, Fun(p.functions[i].content)))
    else if s == 2 then
      seq(|p.locations|, i requires 0 <= i < |p.locations| => Item(p.locations[i].id, Loc(p.locations[i].content)))
    else seq(|p.samples|, i requires 0 <= i < |p.samples| => Item(i, Stack(p.samples[i])))
  }

  function ById(items: seq<Item<Content>>): map<nat, Content> {
    if items == [] then map[]
    else ById(items[..|items| - 1])[items[|items| - 1].id := items[|items| - 1].content]
  }

  function SymbolsOf(p: Profile): Symbols {
    [ById(Items(p, 0)), ById(Items(p, 1)), ById(Items(p, 2)), ById(Items(p, 3))]
  }

  /** Ids are unique and references resolve. */
  ghost predicate WellFormed(p: Profile) {
    UniqueIds(p.functions) && UniqueIds(p.locations) && Closed(SymbolsOf(p))
  }

  lemma {:induction false} ByIdFinds(items: seq<Item<Content>>, id: nat) returns (i: nat)
    requires id in ById(items)
    ensures i < |items| && items[i].id == id && items[i].content == ById(items)[id]
  {
    var last := |items| - 1;
    if items[last].id == id {
      i := last;
    } else {
      i := ByIdFinds(items[..last], id);
    }
  }

  lemma {:induction false} ByIdHolds(items: seq<Item<Content>>, i: nat)
    requires UniqueIds(items) && i < |items|
    ensures items[i].id in ById(items) && ById(items)[items[i].id] == items[i].content
  {
    var last := |items| - 1;
    if i < last {
      ByIdHolds(items[..last], i);
    }
  }

  lemma ItemsUnique(p: Profile, s: nat)
    requires WellFormed(p) && s < 4
    ensures UniqueIds(Items(p, s))
  {
  }

  // ----- the head and the ingests under way -----

  type Head = seq<Table<Content, Key>>

  function SliceSymbols(slice: seq<Content>): (m: map<nat, Content>)
    ensures forall i: nat :: i in m <==> i < |slice|
    ensures forall i: nat :: i < |slice| ==> m[i] == slice[i]
  {
    map i: nat | i < |slice| :: slice[i]
  }

  function HeadSymbols(h: Head): (sym: Symbols)
    ensures |sym| == |h|
  {
    seq(|h|, s requires 0 <= s < |h| => SliceSymbols(h[s].slice))
  }

  /** An ingest: `rw` has a table for each stage done, and the next stage is between its two
      passes when `pending` is there. */
  datatype Ingest = Ingest(profile: Profile, rw: Rewriter, pending: Option<Pending>)

  datatype State = State(head: Head, ingests: seq<Ingest>)

  /** The elements of a stage, with their references rewritten. */
  function Rewritten(p: Profile, rw: Rewriter, s: nat): (items: seq<Item<Content>>)
    requires s < 4 && s <= |rw|
    ensures |items| == |Items(p, s)|
    ensures forall i :: 0 <= i < |items| ==> items[i] == Item(Items(p, s)[i].id, Rewrite(rw, p.mappings, Items(p, s)[i].content))
  {
    seq(|Items(p, s)|, i requires 0 <= i < |Items(p, s)| =>
      Item(Items(p, s)[i].id, Rewrite(rw, p.mappings, Items(p, s)[i].content)))
  }

  /** The pass under the read lock. */
  ghost predicate ReadStep(key: Content -> Key, h: Head, g: Ingest, g': Ingest) {
    && |g.rw| < 4 == |h| && g.pending.None?
    && var s := |g.rw|;
       var items := Rewritten(g.profile, g.rw, s);
       var p := Find(h[s].lookup, key, items, |items|);
       g' == if p.missing == [] then g.(rw := g.rw + [p.rewriting]) else g.(pending := Some(p))
  }

  /** The pass under the write lock. */
  ghost predicate WriteStep(key: Content -> Key, h: Head, h': Head, g: Ingest, g': Ingest) {
    && |g.rw| < 4 == |h| && g.pending.Some?
    && var s := |g.rw|;
       var items := Rewritten(g.profile, g.rw, s);
       var p := g.pending.value;
       && (forall i :: 0 <= i < |p.missing| ==> p.missing[i] < |items|)
       && var a := Add(h[s], key, items, p, |p.missing|);
          h' == h[s := a.table] && g' == Ingest(g.profile, g.rw + [a.rewriting], None)
  }

  ghost predicate StepBy(key: Content -> Key, s: State, s': State, t: nat) {
    && t < |s.ingests| == |s'.ingests| && s'.ingests == s.ingests[t := s'.ingests[t]]
    && (|| (ReadStep(key, s.head, s.ingests[t], s'.ingests[t]) && s'.head == s.head)
        || WriteStep(key, s.head, s'.head, s.ingests[t], s'.ingests[t]))
  }

  ghost predicate Step(key: Content -> Key, s: State, s': State) {
    exists t :: StepBy(key, s, s', t)
  }

  ghost predicate Initial(s: State) {
    && s.head == [Table([], map[]), Table([], map[]), Table([], map[]), Table([], map[])]
    && (forall g :: g in s.ingests ==> g.rw == [] && g.pending.None? && WellFormed(g.profile))
  }

  // ----- the invariant -----

  ghost predicate StageDone(h: Head, g: Ingest, s: nat)
    requires s < 4 == |h| && s < |g.rw|
  {
    var items := Rewritten(g.profile, g.rw, s);
    forall i :: 0 <= i < |items| ==> Stored(h[s].slice, g.rw[s], items[i])
  }

  ghost predicate IngestOk(h: Head, g: Ingest) {
    && |h| == 4 && |g.rw| <= 4 && WellFormed(g.profile)
    && (forall s :: 0 <= s < |g.rw| ==> StageDone(h, g, s))
    && (g.pending.Some? ==> |g.rw| < 4 && PendingOk(h[|g.rw|].slice, Rewritten(g.profile, g.rw, |g.rw|), g.pending.value))
  }

  ghost predicate HeadOk(key: Content -> Key, h: Head) {
    && |h| == 4
    && (forall s :: 0 <= s < 4 ==> TableOk(h[s], key))
    && Closed(HeadSymbols(h))
  }

  ghost predicate Inv(key: Content -> Key, s: State) {
    HeadOk(key, s.head) && forall g :: g in s.ingests ==> IngestOk(s.head, g)
  }

  ghost predicate HeadExtends(h: Head, h': Head) {
    |h| == |h'| && forall s :: 0 <= s < |h| ==> Extends(h[s], h'[s])
  }

  lemma IngestStaysOk(h: Head, h': Head, g: Ingest)
    requires IngestOk(h, g) && HeadExtends(h, h')
    ensures IngestOk(h', g)
  {
    forall s | 0 <= s < |g.rw| ensures StageDone(h', g, s) {
      assert StageDone(h, g, s);
      assert Extends(h[s], h'[s]);
    }
    if g.pending.Some? {
      var s := |g.rw|;
      assert Extends(h[s], h'[s]);
    }
  }

  /** The tables of the later stages play no part in rewriting an element. */
  lemma RewrittenSame(p: Profile, rw: Rewriter, m: map<nat, nat>, s: nat)
    requires s < 4 && s <= |rw|
    ensures Rewritten(p, rw + [m], s) == Rewritten(p, rw, s)
  {
    forall i | 0 <= i < |Items(p, s)| ensures Rewritten(p, rw + [m], s)[i] == Rewritten(p, rw, s)[i] {
    }
  }

  lemma StageAdded(h: Head, g: Ingest, m: map<nat, nat>)
    requires IngestOk(h, g) && |g.rw| < 4
    requires var items := Rewritten(g.profile, g.rw, |g.rw|); forall i :: 0 <= i < |items| ==> Stored(h[|g.rw|].slice, m, items[i])
    ensures IngestOk(h, Ingest(g.profile, g.rw + [m], None))
  {
    hide WellFormed, Rewritten;
    var g' := Ingest(g.profile, g.rw + [m], None);
    forall s | 0 <= s < |g'.rw| ensures StageDone(h, g', s) {
      RewrittenSame(g.profile, g.rw, m, s);
      if s < |g.rw| {
        assert StageDone(h, g, s);
      }
    }
  }

  lemma RewrittenUnique(p: Profile, rw: Rewriter, s: nat)
    requires WellFormed(p) && s < 4 && s <= |rw|
    ensures UniqueIds(Rewritten(p, rw, s))
  {
    hide WellFormed;
    ItemsUnique(p, s);
  }

  lemma ReadKeeps(key: Content -> Key, h: Head, g: Ingest, g': Ingest)
    requires HeadOk(key, h) && Injective(key) && IngestOk(h, g) && ReadStep(key, h, g, g')
    ensures IngestOk(h, g')
  {
    hide WellFormed, Rewritten, Injective, TableOk, Closed;
    var s := |g.rw|;
    var items := Rewritten(g.profile, g.rw, s);
    RewrittenUnique(g.profile, g.rw, s);
    FindIsOk(h[s], key, items, |items|);
    var p := Find(h[s].lookup, key, items, |items|);
    if p.missing == [] {
      StageAdded(h, g, p.rewriting);
    } else {
      forall i | 0 <= i < |g.rw| ensures StageDone(h, g', i) {
        assert StageDone(h, g, i);
      }
    }
  }

  // ----- the references stored by a write resolve -----

  /** What a stage done leads to, in the head, for an id of the profile. */
  lemma StageLeads(h: Head, g: Ingest, s: nat, id: nat)
    requires IngestOk(h, g) && s < |g.rw| && id in SymbolsOf(g.profile)[s]
    ensures id in g.rw[s] && g.rw[s][id] < |h[s].slice|
    ensures h[s].slice[g.rw[s][id]] == Rewrite(g.rw, g.profile.mappings, SymbolsOf(g.profile)[s][id])
  {
    hide WellFormed;
    var i := ByIdFinds(Items(g.profile, s), id);
    assert StageDone(h, g, s);
    assert Stored(h[s].slice, g.rw[s], Rewritten(g.profile, g.rw, s)[i]);
  }

  lemma ItemRefers(p: Profile, s: nat, i: nat)
    requires WellFormed(p) && s < 4 && i < |Items(p, s)|
    ensures Refers(SymbolsOf(p), Items(p, s)[i].content)
  {
    var sym := SymbolsOf(p);
    var item := Items(p, s)[i];
    ItemsUnique(p, s);
    ByIdHolds(Items(p, s), i);
    assert sym[s] == ById(Items(p, s)) && item.id in sym[s];
    assert Refers(sym, sym[s][item.id]);
  }

  /** What refers within the profile refers within the head, once rewritten. */
  lemma RefersThrough(h: Head, g: Ingest, c: Content)
    requires IngestOk(h, g) && |g.rw| >= c.Stage() && Refers(SymbolsOf(g.profile), c)
    ensures Refers(HeadSymbols(h), Rewrite(g.rw, g.profile.mappings, c))
  {
    assert |h| == 4;
    hide IngestOk, SymbolsOf, HeadSymbols;
    match c
    case Text(_) =>
    case Fun(f) =>
      StageLeads(h, g, 0, f.name);
      StageLeads(h, g, 0, f.systemName);
      StageLeads(h, g, 0, f.filename);
      InHead(h, 0);
    case Loc(l) =>
      forall k | 0 <= k < |l.lines| ensures Get(g.rw[1], l.lines[k].functionId) < |h[1].slice| {
        StageLeads(h, g, 1, l.lines[k].functionId);
      }
      InHead(h, 1);
    case Stack(ids) =>
      forall k | 0 <= k < |ids| ensures Get(g.rw[2], ids[k]) < |h[2].slice| {
        StageLeads(h, g, 2, ids[k]);
      }
      InHead(h, 2);
  }

  lemma RewrittenRefers(h: Head, g: Ingest, i: nat)
    requires IngestOk(h, g) && |g.rw| < 4 && i < |Items(g.profile, |g.rw|)|
    ensures Refers(HeadSymbols(h), Rewritten(g.profile, g.rw, |g.rw|)[i].content)
  {
    hide WellFormed, Refers, SymbolsOf, HeadSymbols;
    ItemRefers(g.profile, |g.rw|, i);
    RefersThrough(h, g, Items(g.profile, |g.rw|)[i].content);
  }

  lemma InHead(h: Head, s: nat)
    requires s < |h|
    ensures forall i: nat :: i in HeadSymbols(h)[s] <==> i < |h[s].slice|
    ensures forall i: nat :: i < |h[s].slice| ==> HeadSymbols(h)[s][i] == h[s].slice[i]
  {
  }

  lemma RefersStays(h: Head, h': Head, c: Content)
    requires |h| == 4 && HeadExtends(h, h') && Refers(HeadSymbols(h), c)
    ensures Refers(HeadSymbols(h'), c)
  {
    forall s | 0 <= s < 4 ensures forall i: nat :: i in HeadSymbols(h)[s] ==> i in HeadSymbols(h')[s] {
      assert Extends(h[s], h'[s]);
    }
  }

  /** A table with further elements, all of which refer to what is there. */
  lemma StaysClosed(h: Head, h': Head, s: nat)
    requires |h| == 4 && s < 4 && Closed(HeadSymbols(h)) && HeadExtends(h, h') && h' == h[s := h'[s]]
    requires forall c :: c in h'[s].slice ==> c in h[s].slice || (c.Stage() == s && Refers(HeadSymbols(h), c))
    ensures Closed(HeadSymbols(h'))
  {
    var sym: Symbols, sym': Symbols := HeadSymbols(h), HeadSymbols(h');
    forall r, id | 0 <= r < 4 && id in sym'[r] ensures sym'[r][id].Stage() == r && Refers(sym', sym'[r][id]) {
      InHead(h, r);
      InHead(h', r);
      var c := h'[r].slice[id];
      if c in h[r].slice {
        var i: nat :| i < |h[r].slice| && h[r].slice[i] == c;
        assert i in sym[r];
      }
      RefersStays(h, h', c);
    }
  }

  lemma WriteKeeps(key: Content -> Key, h: Head, h': Head, g: Ingest, g': Ingest)
    requires HeadOk(key, h) && Injective(key) && IngestOk(h, g) && WriteStep(key, h, h', g, g')
    ensures HeadOk(key, h') && HeadExtends(h, h') && IngestOk(h', g')
  {
    hide WellFormed, Rewritten, Injective, TableOk, Closed, Refers, Add, Stored, HeadSymbols;
    var s, p := |g.rw|, g.pending.value;
    var items := Rewritten(g.profile, g.rw, s);
    RewrittenUnique(g.profile, g.rw, s);
    AddIsOk(h[s], key, items, p, |p.missing|);
    var a := Add(h[s], key, items, p, |p.missing|);
    assert HeadExtends(h, h');
    IngestStaysOk(h, h', g);
    StageAdded(h', g, a.rewriting);
    forall c | c in h'[s].slice && c !in h[s].slice ensures c.Stage() == s && Refers(HeadSymbols(h), c) {
      assert Given(items, c);
      var i :| 0 <= i < |items| && items[i].content == c;
      RewrittenStage(g.profile, g.rw, s, i);
      RewrittenRefers(h, g, i);
    }
    StaysClosed(h, h', s);
  }

  lemma RewrittenStage(p: Profile, rw: Rewriter, s: nat, i: nat)
    requires s < 4 && s <= |rw| && i < |Items(p, s)|
    ensures Rewritten(p, rw, s)[i].content.Stage() == s
  {
  }

  lemma StepKeepsInv(key: Content -> Key, s: State, s': State)
    requires Injective(key) && Inv(key, s) && Step(key, s, s')
    ensures Inv(key, s') && HeadExtends(s.head, s'.head)
  {
    hide IngestOk, HeadOk, ReadStep, WriteStep, Injective;
    var t: nat :| StepBy(key, s, s', t);
    assert s.ingests[t] in s.ingests;
    if ReadStep(key, s.head, s.ingests[t], s'.ingests[t]) && s'.head == s.head {
      ReadKeeps(key, s.head, s.ingests[t], s'.ingests[t]);
    } else {
      WriteKeeps(key, s.head, s'.head, s.ingests[t], s'.ingests[t]);
    }
    forall g | g in s'.ingests ensures IngestOk(s'.head, g) {
      if g != s'.ingests[t] {
        assert g in s.ingests;
        IngestStaysOk(s.head, s'.head, g);
      }
    }
  }

  lemma InitialInv(key: Content -> Key, s: State)
    requires Initial(s)
    ensures Inv(key, s)
  {
  }

  // ----- whole runs -----

  ghost predicate Run(key: Content -> Key, run: seq<State>) {
    run != [] && Initial(run[0]) && forall k :: 0 <= k < |run| - 1 ==> StepAt(key, run, k)
  }

  ghost predicate StepAt(key: Content -> Key, run: seq<State>, k: nat)
    requires k < |run| - 1
  {
    Step(key, run[k], run[k + 1])
  }

  lemma {:induction false} EveryStateOk(key: Content -> Key, run: seq<State>, k: nat)
    requires Injective(key) && Run(key, run) && k < |run|
    ensures Inv(key, run[k])
  {
    hide Inv, Initial, Step;
    if k == 0 {
      InitialInv(key, run[0]);
    } else {
      EveryStateOk(key, run, k - 1);
      assert StepAt(key, run, k - 1);
      StepKeepsInv(key, run[k - 1], run[k]);
    }
  }

  /** An ingest done leads each of its samples to the frames it has in the profile. */
  lemma DoneResolves(key: Content -> Key, h: Head, g: Ingest, i: nat)
    requires HeadOk(key, h) && IngestOk(h, g) && |g.rw| == 4 && i < |g.profile.samples|
    ensures i in SymbolsOf(g.profile)[3] && i in g.rw[3] && g.rw[3][i] in HeadSymbols(h)[3]
    ensures Closed(SymbolsOf(g.profile)) && SymbolsOf(g.profile)[3][i] == Stack(g.profile.samples[i])
    ensures StackOf(HeadSymbols(h), g.rw[3][i]) == StackOf(SymbolsOf(g.profile), i)
  {
    var sym := SymbolsOf(g.profile);
    assert Closed(sym);
    ItemsUnique(g.profile, 3);
    ByIdHolds(Items(g.profile, 3), i);
    hide IngestOk, HeadSymbols, SymbolsOf, Rewrite;
    forall s, id | 0 <= s < 4 && id in sym[s] ensures MapsId(g.rw, g.profile.mappings, sym, HeadSymbols(h), s, id) {
      StageLeads(h, g, s, id);
      InHead(h, s);
    }
    assert MapsId(g.rw, g.profile.mappings, sym, HeadSymbols(h), 3, i);
    MapsStack(g.rw, g.profile.mappings, sym, HeadSymbols(h), i);
  }

  /** Nothing stored in the head ever moves, and an ingest that is done stays as it is. */
  lemma {:induction false} RunExtends(key: Content -> Key, run: seq<State>, j: nat, k: nat)
    requires Injective(key) && Run(key, run) && j <= k < |run|
    ensures HeadExtends(run[j].head, run[k].head) && |run[j].ingests| == |run[k].ingests|
    ensures forall t :: 0 <= t < |run[j].ingests| && |run[j].ingests[t].rw| == 4 ==> run[k].ingests[t] == run[j].ingests[t]
  {
    hide Injective, Initial, Inv, HeadExtends;
    if j < k {
      RunExtends(key, run, j, k - 1);
      EveryStateOk(key, run, k - 1);
      assert StepAt(key, run, k - 1);
      StepKeepsInv(key, run[k - 1], run[k]);
      ExtendsOnward(run[j].head, run[k - 1].head, run[k].head);
    } else {
      ExtendsItself(run[j].head);
    }
  }

  lemma ExtendsOnward(a: Head, b: Head, c: Head)
    requires HeadExtends(a, b) && HeadExtends(b, c)
    ensures HeadExtends(a, c)
  {
    forall s | 0 <= s < |a| ensures Extends(a[s], c[s]) {
      assert Extends(a[s], b[s]) && Extends(b[s], c[s]);
    }
  }

  lemma ExtendsItself(a: Head)
    ensures HeadExtends(a, a)
  {
  }

  /** In every interleaving, once an ingest is done each of its samples stands for the same
      frames, and so the same function names, as in the profile, then and in every later state. */
  lemma EveryRunKeepsStacks(h: Hashes, run: seq<State>, j: nat, k: nat, t: nat, i: nat)
    requires Injective(h.lines) && Injective(h.stack) && Run(Keys(h), run) && j <= k < |run|
    requires t < |run[j].ingests| && |run[j].ingests[t].rw| == 4 && i < |run[j].ingests[t].profile.samples|
    ensures
      var g, head, profile := run[j].ingests[t], HeadSymbols(run[k].head), SymbolsOf(run[j].ingests[t].profile);
      && Closed(head) && Closed(profile) && i in g.rw[3] && g.rw[3][i] in head[3]
      && i in profile[3] && profile[3][i] == Stack(g.profile.samples[i])
      && StackOf(head, g.rw[3][i]) == StackOf(profile, i)
      && NamesOf(StackOf(head, g.rw[3][i])) == NamesOf(StackOf(profile, i))
  {
    KeysInjective(h);
    hide Injective, Run, IngestOk, Closed, StackOf, NamesOf, SymbolsOf, HeadSymbols;
    EveryStateOk(Keys(h), run, k);
    RunExtends(Keys(h), run, j, k);
    var g := run[j].ingests[t];
    assert run[k].ingests[t] == g;
    assert g in run[k].ingests;
    DoneResolves(Keys(h), run[k].head, g, i);
  }

  /** Every ingest can go on until it is done. */
  lemma CanStep(key: Content -> Key, s: State, t: nat) returns (s': State)
    requires Inv(key, s) && t < |s.ingests| && |s.ingests[t].rw| < 4
    ensures StepBy(key, s, s', t)
    ensures Left(s'.ingests[t]) < Left(s.ingests[t])
  {
    var g, st := s.ingests[t], |s.ingests[t].rw|;
    assert IngestOk(s.head, g);
    var items := Rewritten(g.profile, g.rw, st);
    match g.pending
    case None =>
      var p := Find(s.head[st].lookup, key, items, |items|);
      var g' := if p.missing == [] then g.(rw := g.rw + [p.rewriting]) else g.(pending := Some(p));
      s' := State(s.head, s.ingests[t := g']);
      assert ReadStep(key, s.head, g, g');
    case Some(p) =>
      var a := Add(s.head[st], key, items, p, |p.missing|);
      var g' := Ingest(g.profile, g.rw + [a.rewriting], None);
      s' := State(s.head[st := a.table], s.ingests[t := g']);
      assert WriteStep(key, s.head, s'.head, g, g');
  }

  /** The steps an ingest has left, at most. */
  function Left(g: Ingest): int {
    2 * (4 - |g.rw|) - if g.pending.Some? then 1 else 0
  }

  // ----- the string table of the rewriter -----

  /** `stringsHelper.addToRewriter`: the map as a slice. */
  method AddToRewriter(m: map<nat, nat>) returns (table: seq<nat>)
    ensures forall x :: x in m ==> x < |table| && table[x] == m[x]
    ensures forall x :: 0 <= x < |table| && x !in m ==> table[x] == 0
  {
    var maxId, ids := 0, m.Keys;
    while ids != {}
      invariant ids <= m.Keys && forall x :: x in m ==> x in ids || x <= maxId
    {
      var id :| id in ids;
      if id > maxId {
        maxId := id;
      }
      ids := ids - {id};
    }
    table := seq(maxId + 1, _ => 0);
    ids := m.Keys;
    while ids != {}
      invariant ids <= m.Keys && |table| == maxId + 1
      invariant forall x :: x in m ==> x <= maxId && (x in ids || table[x] == m[x])
      invariant forall x :: 0 <= x < |table| && (x !in m || x in ids) ==> table[x] == 0
    {
      var x :| x in ids;
      table := table[x := m[x]];
      ids := ids - {x};
    }
  }
}
