/** One shard of the in-memory label index of the head: fingerprints by label name and value. */
module HeadIndex {
  import opened Sequences
  import opened Matchers
  import opened Labels

  // ----- lists of fingerprints -----

  ghost predicate Ascending(s: seq<nat>) {
    forall i, j :: 0 <= i < j < |s| ==> s[i] < s[j]
  }

  predicate AtMost(a: nat, b: nat) {
    a <= b
  }

  /** `sort.Search`: the first position at or above `fp`. */
  method Search(fps: seq<nat>, fp: nat) returns (j: nat)
    requires Ordered(AtMost, fps)
    ensures j <= |fps|
    ensures forall i :: 0 <= i < j ==> fps[i] < fp
    ensures forall i :: j <= i < |fps| ==> fps[i] >= fp
  {
    j := 0;
    var hi := |fps|;
    while j < hi
      invariant j <= hi <= |fps|
      invariant forall i :: 0 <= i < j ==> fps[i] < fp
      invariant forall i :: hi <= i < |fps| ==> fps[i] >= fp
    {
      var mid := (j + hi) / 2;
      if fps[mid] >= fp {
        hi := mid;
      } else {
        j := mid + 1;
      }
    }
  }

  /** The elements of `b` that are in `a`. */
  function Keep(a: seq<nat>, b: seq<nat>): (r: seq<nat>) {
    if b == [] then []
    else Keep(a, b[..|b| - 1]) + if b[|b| - 1] in a then [b[|b| - 1]] else []
  }

  lemma NothingKept(a: seq<nat>, b: seq<nat>)
    ensures Keep(a, b[..0]) == []
  {
  }

  lemma KeepNext(a: seq<nat>, b: seq<nat>, j: nat)
    requires j < |b|
    ensures Keep(a, b[..j + 1]) == Keep(a, b[..j]) + if b[j] in a then [b[j]] else []
  {
    assert b[..j + 1][..j] == b[..j];
  }

  lemma {:induction false} KeepNone(a: seq<nat>, b: seq<nat>, j: nat)
    requires j <= |b| && forall i :: j <= i < |b| ==> b[i] !in a
    ensures Keep(a, b) == Keep(a, b[..j])
    decreases |b| - j
  {
    if j < |b| {
      KeepNext(a, b, j);
      KeepNone(a, b, j + 1);
    } else {
      assert b[..j] == b;
    }
  }

  lemma {:induction false} KeepCounts(a: seq<nat>, b: seq<nat>, x: nat)
    ensures multiset(Keep(a, b))[x] == if x in a then multiset(b)[x] else 0
  {
    if b != [] {
      KeepCounts(a, b[..|b| - 1], x);
      assert b == b[..|b| - 1] + [b[|b| - 1]];
    }
  }

  lemma {:induction false} KeepSorted(a: seq<nat>, b: seq<nat>)
    requires Ordered(AtMost, b)
    ensures Ordered(AtMost, Keep(a, b))
    ensures forall x :: x in Keep(a, b) ==> x in a && x in b
  {
    if b != [] {
      var front := b[..|b| - 1];
      KeepSorted(a, front);
      forall i | 0 <= i < |Keep(a, front)| ensures Keep(a, front)[i] <= b[|b| - 1] {
        assert Keep(a, front)[i] in front;
      }
    }
  }

  lemma NoneLeft(a: seq<nat>, b: seq<nat>, j: nat)
    requires Ordered(AtMost, b) && j < |b| && forall k :: 0 <= k < |a| ==> a[k] < b[j]
    ensures forall k :: j <= k < |b| ==> b[k] !in a
  {
    forall k | j <= k < |b| ensures b[k] !in a {
      assert j < k ==> AtMost(b[j], b[k]);
    }
  }

  /** Whether an element is in a list, of which all before position `i` are below. */
  lemma InFrom(a: seq<nat>, x: nat, i: nat)
    requires Ordered(AtMost, a) && i < |a| && a[i] >= x && forall k :: 0 <= k < i ==> a[k] < x
    ensures x in a <==> a[i] == x
  {
    forall k | i < k < |a| ensures a[k] >= a[i] {
      assert AtMost(a[i], a[k]);
    }
  }

  lemma NextAbove(b: seq<nat>, j: nat)
    requires Ordered(AtMost, b) && j + 1 < |b|
    ensures b[j] <= b[j + 1]
  {
    assert AtMost(b[j], b[j + 1]);
  }

  /** `intersect`: for every element of `b`, in order, whether it is in `a`; an element that `b`
      has several times is kept as often. */
  method Intersect(a: seq<nat>, b: seq<nat>) returns (result: seq<nat>)
    requires Ordered(AtMost, a) && Ordered(AtMost, b)
    ensures result == Keep(a, b)
  {
    hide Ordered, Keep;
    result := [];
    assert Keep(a, b[..0]) == [] by { NothingKept(a, b); }
    var i, j := 0, 0;
    while i < |a| && j < |b|
      invariant i <= |a| && j <= |b| && result == Keep(a, b[..j])
      invariant forall k :: 0 <= k < i && j < |b| ==> a[k] < b[j]
      decreases |a| - i + |b| - j
    {
      if a[i] == b[j] {
        result := result + [a[i]];
      }
      if a[i] < b[j] {
        i := i + 1;
      } else {
        InFrom(a, b[j], i);
        KeepNext(a, b, j);
        if j + 1 < |b| {
          NextAbove(b, j);
        }
        j := j + 1;
      }
    }
    if j < |b| {
      NoneLeft(a, b, j);
    }
    KeepNone(a, b, j);
  }

  /** `sort.Sort`. */
  method Sort(s: seq<nat>) returns (r: seq<nat>)
    ensures Ordered(AtMost, r) && multiset(r) == multiset(s)
  {
    r := SortBy(AtMost, s);
  }

  // ----- one shard -----

  /** Fingerprints by label name and value. */
  type Shard = map<string, map<string, seq<nat>>>

  datatype Fact = Fact(fp: nat, name: string, value: string)

  function Fps(idx: Shard, name: string, value: string): seq<nat> {
    if name in idx && value in idx[name] then idx[name][value] else []
  }

  ghost predicate NoEmptyEntry(idx: Shard) {
    forall name :: name in idx ==> idx[name] != map[] && forall value :: value in idx[name] ==> idx[name][value] != []
  }

  /** The lists are sorted and hold a fingerprint as often as the facts do; there is no entry
      without a fingerprint. */
  ghost predicate Represents(idx: Shard, facts: multiset<Fact>) {
    && (forall name, value :: Holds(Fps(idx, name, value), facts, name, value))
    && NoEmptyEntry(idx)
  }

  ghost predicate Holds(fps: seq<nat>, facts: multiset<Fact>, name: string, value: string) {
    Ordered(AtMost, fps) && forall fp :: multiset(fps)[fp] == facts[Fact(fp, name, value)]
  }

  /** The facts that a series with these labels adds. */
  function PairFacts(labels: LabelSet, fp: nat): multiset<Fact> {
    if labels == [] then multiset{}
    else
      var last := labels[|labels| - 1];
      PairFacts(labels[..|labels| - 1], fp) + multiset{Fact(fp, last.name, last.value)}
  }

  lemma PairFactsNext(labels: LabelSet, fp: nat, i: nat)
    requires i < |labels|
    ensures PairFacts(labels[..i + 1], fp) == PairFacts(labels[..i], fp) + multiset{Fact(fp, labels[i].name, labels[i].value)}
  {
    assert labels[..i + 1][..i] == labels[..i];
  }

  lemma NoPairs(facts: multiset<Fact>, labels: LabelSet, fp: nat)
    ensures facts + PairFacts(labels[..0], fp) == facts == facts - PairFacts(labels[..0], fp)
  {
  }

  lemma AddedNext(facts: multiset<Fact>, labels: LabelSet, fp: nat, i: nat)
    requires i < |labels|
    ensures facts + PairFacts(labels[..i + 1], fp)
         == facts + PairFacts(labels[..i], fp) + multiset{Fact(fp, labels[i].name, labels[i].value)}
  {
    PairFactsNext(labels, fp, i);
  }

  lemma DeletedNext(facts: multiset<Fact>, labels: LabelSet, fp: nat, i: nat)
    requires i < |labels|
    ensures facts - PairFacts(labels[..i + 1], fp)
         == facts - PairFacts(labels[..i], fp) - multiset{Fact(fp, labels[i].name, labels[i].value)}
  {
    PairFactsNext(labels, fp, i);
  }

  ghost predicate UniqueNames(labels: LabelSet) {
    forall i, j :: 0 <= i < j < |labels| ==> labels[i].name != labels[j].name
  }

  /** A list put in the place of another. */
  function Put(idx: Shard, name: string, value: string, fps: seq<nat>): (idx': Shard)
    requires fps != []
    ensures forall n, v :: Fps(idx', n, v) == if n == name && v == value then fps else Fps(idx, n, v)
  {
    idx[name := (if name in idx then idx[name] else map[])[value := fps]]
  }

  lemma PutNoEmpty(idx: Shard, name: string, value: string, fps: seq<nat>)
    requires NoEmptyEntry(idx) && fps != []
    ensures NoEmptyEntry(Put(idx, name, value, fps))
  {
    var idx' := Put(idx, name, value, fps);
    forall n | n in idx' ensures idx'[n] != map[] && forall v :: v in idx'[n] ==> idx'[n][v] != [] {
      if n == name {
        assert value in idx'[n];
      }
    }
  }

  lemma HoldsMore(s: seq<nat>, facts: multiset<Fact>, n: string, v: string, fp: nat, name: string, value: string, fps: seq<nat>)
    requires Holds(s, facts, n, v)
    requires n == name && v == value ==> Ordered(AtMost, fps) && multiset(fps) == multiset(s) + multiset{fp}
    ensures Holds(if n == name && v == value then fps else s, facts + multiset{Fact(fp, name, value)}, n, v)
  {
  }

  lemma HoldsLess(s: seq<nat>, facts: multiset<Fact>, n: string, v: string, fp: nat, name: string, value: string, fps: seq<nat>)
    requires Holds(s, facts, n, v)
    requires n == name && v == value ==> Ordered(AtMost, fps) && multiset(fps) == multiset(s) - multiset{fp}
    ensures Holds(if n == name && v == value then fps else s, facts - multiset{Fact(fp, name, value)}, n, v)
  {
  }

  lemma PutRepresents(idx: Shard, facts: multiset<Fact>, name: string, value: string, fps: seq<nat>, fp: nat)
    requires Represents(idx, facts) && Ordered(AtMost, fps) && multiset(fps) == multiset(Fps(idx, name, value)) + multiset{fp}
    ensures fps != [] && Represents(Put(idx, name, value, fps), facts + multiset{Fact(fp, name, value)})
  {
    hide Ordered, NoEmptyEntry, Put, Holds, Fps;
    assert fp in multiset(fps);
    PutNoEmpty(idx, name, value, fps);
    var idx', facts' := Put(idx, name, value, fps), facts + multiset{Fact(fp, name, value)};
    forall n, v ensures Holds(Fps(idx', n, v), facts', n, v) {
      assert Holds(Fps(idx, n, v), facts, n, v);
      HoldsMore(Fps(idx, n, v), facts, n, v, fp, name, value, fps);
    }
  }

  // ----- labels by name -----

  predicate NameAtMost(a: LabelPair, b: LabelPair) {
    CompareStrings(a.name, b.name) <= 0
  }

  lemma NamesOrdered()
    ensures TotalPreorder(NameAtMost)
    ensures forall a, b :: NameAtMost(a, b) <==> !StringBefore(b.name, a.name)
  {
    hide StringBefore, CompareStrings;
    forall a, b: LabelPair, c: LabelPair
      ensures NameAtMost(a, b) || NameAtMost(b, a)
      ensures NameAtMost(a, b) && NameAtMost(b, c) ==> NameAtMost(a, c)
      ensures NameAtMost(a, b) <==> !StringBefore(b.name, a.name)
    {
      StringsCompare(b.name, a.name);
      CompareStringsOrder(a.name, b.name, c.name);
      CompareStringsOrder(b.name, a.name, c.name);
    }
  }

  /** `sort.Sort` of a label set. */
  method SortByName(labels: LabelSet) returns (r: LabelSet)
    ensures Ordered(NameAtMost, r) && multiset(r) == multiset(labels)
  {
    NamesOrdered();
    r := SortBy(NameAtMost, labels);
  }

  // ----- addition and deletion -----

  /** `indexShard.add`: one more of every pair, and the labels sorted by name. */
  method Add(idx: Shard, labels: LabelSet, fp: nat, ghost facts: multiset<Fact>) returns (idx': Shard, interned: LabelSet)
    requires Represents(idx, facts)
    ensures Represents(idx', facts + PairFacts(labels, fp))
    ensures Ordered(NameAtMost, interned) && multiset(interned) == multiset(labels)
  {
    hide *;
    idx', interned := idx, [];
    NoPairs(facts, labels, fp);
    for i := 0 to |labels|
      invariant Represents(idx', facts + PairFacts(labels[..i], fp)) && interned == labels[..i]
    {
      AddedNext(facts, labels, fp, i);
      idx' := AddPair(idx', labels[i].name, labels[i].value, fp, facts + PairFacts(labels[..i], fp));
      interned := interned + [LabelPair(labels[i].name, labels[i].value)];
    }
    assert labels[..|labels|] == labels;
    interned := SortByName(interned);
  }

  method AddPair(idx: Shard, name: string, value: string, fp: nat, ghost facts: multiset<Fact>) returns (idx': Shard)
    requires Represents(idx, facts)
    ensures Represents(idx', facts + multiset{Fact(fp, name, value)})
  {
    hide Represents, Ordered, Put;
    var fps := Fps(idx, name, value);
    ListSorted(idx, facts, name, value);
    var j := Search(fps, fp);
    var grown := fps[..j] + [fp] + fps[j..];
    GrownList(fps, j, fp);
    PutRepresents(idx, facts, name, value, grown, fp);
    idx' := Put(idx, name, value, grown);
  }

  lemma ListSorted(idx: Shard, facts: multiset<Fact>, name: string, value: string)
    requires Represents(idx, facts)
    ensures Ordered(AtMost, Fps(idx, name, value))
    ensures forall fp :: multiset(Fps(idx, name, value))[fp] == facts[Fact(fp, name, value)]
  {
  }

  lemma GrownList(fps: seq<nat>, j: nat, fp: nat)
    requires Ordered(AtMost, fps) && j <= |fps|
    requires forall i :: 0 <= i < j ==> fps[i] < fp
    requires forall i :: j <= i < |fps| ==> fps[i] >= fp
    ensures var grown := fps[..j] + [fp] + fps[j..]; Ordered(AtMost, grown) && multiset(grown) == multiset(fps) + multiset{fp}
  {
    WithOne(fps, j, fp);
  }

  lemma WithOne(fps: seq<nat>, j: nat, fp: nat)
    requires j <= |fps|
    ensures multiset(fps[..j] + [fp] + fps[j..]) == multiset(fps) + multiset{fp}
  {
    assert fps == fps[..j] + fps[j..];
  }

  /** A list that lost a fingerprint; entries that become empty go. */
  function Drop(idx: Shard, name: string, value: string, fps: seq<nat>): (idx': Shard)
    requires name in idx && value in idx[name]
    ensures forall n, v :: Fps(idx', n, v) == if n == name && v == value then fps else Fps(idx, n, v)
  {
    var values := if fps == [] then idx[name] - {value} else idx[name][value := fps];
    assert fps != [] ==> value in values;
    assert forall v :: v in idx[name] && v != value ==> v in values;
    assert values == map[] ==> fps == [];
    if values == map[] then idx - {name} else idx[name := values]
  }

  lemma DropNoEmpty(idx: Shard, name: string, value: string, fps: seq<nat>)
    requires NoEmptyEntry(idx) && name in idx && value in idx[name]
    ensures NoEmptyEntry(Drop(idx, name, value, fps))
  {
  }

  lemma DropRepresents(idx: Shard, facts: multiset<Fact>, name: string, value: string, fps: seq<nat>, fp: nat)
    requires Represents(idx, facts) && name in idx && value in idx[name]
    requires Ordered(AtMost, fps) && multiset(fps) == multiset(Fps(idx, name, value)) - multiset{fp}
    ensures Represents(Drop(idx, name, value, fps), facts - multiset{Fact(fp, name, value)})
  {
    hide Ordered, NoEmptyEntry, Drop, Holds, Fps;
    DropNoEmpty(idx, name, value, fps);
    var idx', facts' := Drop(idx, name, value, fps), facts - multiset{Fact(fp, name, value)};
    forall n, v ensures Holds(Fps(idx', n, v), facts', n, v) {
      assert Holds(Fps(idx, n, v), facts, n, v);
      HoldsLess(Fps(idx, n, v), facts, n, v, fp, name, value, fps);
    }
  }

  lemma ShrunkList(fps: seq<nat>, j: nat)
    requires Ordered(AtMost, fps) && j < |fps|
    ensures var shrunk := fps[..j] + fps[j + 1..]; Ordered(AtMost, shrunk) && multiset(shrunk) == multiset(fps) - multiset{fps[j]}
  {
    WithoutOne(fps, j);
  }

  lemma WithoutOne(fps: seq<nat>, j: nat)
    requires j < |fps|
    ensures multiset(fps[..j] + fps[j + 1..]) == multiset(fps) - multiset{fps[j]}
  {
    assert fps == fps[..j] + [fps[j]] + fps[j + 1..];
  }

  /** `indexShard.delete`: one less of every pair; what is not there is left alone. */
  method Delete(idx: Shard, labels: LabelSet, fp: nat, ghost facts: multiset<Fact>) returns (idx': Shard)
    requires Represents(idx, facts)
    ensures Represents(idx', facts - PairFacts(labels, fp))
  {
    hide *;
    idx' := idx;
    NoPairs(facts, labels, fp);
    for i := 0 to |labels|
      invariant Represents(idx', facts - PairFacts(labels[..i], fp))
    {
      DeletedNext(facts, labels, fp, i);
      idx' := DeletePair(idx', labels[i].name, labels[i].value, fp, facts - PairFacts(labels[..i], fp));
    }
    assert labels[..|labels|] == labels;
  }

  lemma NotListed(fps: seq<nat>, fp: nat, j: nat)
    requires Ordered(AtMost, fps) && j <= |fps| && (j < |fps| ==> fps[j] > fp)
    requires forall i :: 0 <= i < j ==> fps[i] < fp
    ensures fp !in fps
  {
    forall i | j < i < |fps| ensures fps[i] > fp {
      assert AtMost(fps[j], fps[i]);
    }
  }

  method DeletePair(idx: Shard, name: string, value: string, fp: nat, ghost facts: multiset<Fact>) returns (idx': Shard)
    requires Represents(idx, facts)
    ensures Represents(idx', facts - multiset{Fact(fp, name, value)})
  {
    hide Represents, Drop, Ordered;
    idx' := idx;
    ListSorted(idx, facts, name, value);
    var fps := Fps(idx, name, value);
    assert multiset(fps)[fp] == facts[Fact(fp, name, value)];
    if name !in idx || value !in idx[name] {
      assert facts - multiset{Fact(fp, name, value)} == facts;
      return;
    }
    var j := Search(fps, fp);
    if j >= |fps| || fps[j] != fp {
      NotListed(fps, fp, j);
      assert facts - multiset{Fact(fp, name, value)} == facts;
      return;
    }
    ShrunkList(fps, j);
    DropRepresents(idx, facts, name, value, fps[..j] + fps[j + 1..], fp);
    idx' := Drop(idx, name, value, fps[..j] + fps[j + 1..]);
  }

  /** The least element comes first. */
  lemma Rest(s: seq<nat>)
    requires s != [] && Ordered(AtMost, s)
    ensures Ordered(AtMost, s[1..]) && multiset(s[1..]) == multiset(s) - multiset{s[0]}
    ensures s[0] in multiset(s) && forall x :: x in multiset(s) ==> s[0] <= x
  {
    assert s == [s[0]] + s[1..];
  }

  lemma SameLength<T>(a: seq<T>, b: seq<T>)
    requires multiset(a) == multiset(b)
    ensures |a| == |b|
  {
    assert |multiset(a)| == |a| && |multiset(b)| == |b|;
  }

  lemma SameFirst(a: seq<nat>, b: seq<nat>)
    requires a != [] && b != [] && Ordered(AtMost, a) && Ordered(AtMost, b) && multiset(a) == multiset(b)
    ensures a[0] == b[0] && Ordered(AtMost, a[1..]) && Ordered(AtMost, b[1..]) && multiset(a[1..]) == multiset(b[1..])
  {
    hide Ordered;
    Rest(a);
    Rest(b);
  }

  lemma {:induction false} SortedOnce(a: seq<nat>, b: seq<nat>)
    requires Ordered(AtMost, a) && Ordered(AtMost, b) && multiset(a) == multiset(b)
    ensures a == b
  {
    hide Ordered;
    SameLength(a, b);
    if a != [] {
      SameFirst(a, b);
      SortedOnce(a[1..], b[1..]);
      assert a == [a[0]] + a[1..] && b == [b[0]] + b[1..];
    }
  }

  /** The facts determine the index, so that deletion of what was added gives back the index. */
  lemma FactsDetermine(a: Shard, b: Shard, facts: multiset<Fact>)
    requires Represents(a, facts) && Represents(b, facts)
    ensures a == b
  {
    forall name, value ensures Fps(a, name, value) == Fps(b, name, value) {
      assert Holds(Fps(a, name, value), facts, name, value) && Holds(Fps(b, name, value), facts, name, value);
      assert multiset(Fps(a, name, value)) == multiset(Fps(b, name, value));
      SortedOnce(Fps(a, name, value), Fps(b, name, value));
    }
    SameLists(a, b);
  }

  lemma SameLists(a: Shard, b: Shard)
    requires NoEmptyEntry(a) && NoEmptyEntry(b) && forall name, value :: Fps(a, name, value) == Fps(b, name, value)
    ensures a == b
  {
    SameNames(a, b);
    SameNames(b, a);
    forall name | name in a ensures a[name] == b[name] {
      forall value ensures value in a[name] <==> value in b[name] {
        assert Fps(a, name, value) == Fps(b, name, value);
      }
      forall value | value in a[name] ensures a[name][value] == b[name][value] {
        assert Fps(a, name, value) == Fps(b, name, value);
      }
    }
  }

  lemma SameNames(a: Shard, b: Shard)
    requires NoEmptyEntry(a) && forall name, value :: Fps(a, name, value) == Fps(b, name, value)
    ensures a.Keys <= b.Keys
  {
    forall name | name in a ensures name in b {
      var value :| value in a[name];
      assert Fps(a, name, value) != [];
    }
  }

  /** Deletion undoes addition. */
  lemma DeleteUndoesAdd(idx: Shard, facts: multiset<Fact>, labels: LabelSet, fp: nat, after: Shard)
    requires Represents(idx, facts) && Represents(after, facts + PairFacts(labels, fp) - PairFacts(labels, fp))
    ensures after == idx
  {
    assert facts + PairFacts(labels, fp) - PairFacts(labels, fp) == facts;
    FactsDetermine(idx, after, facts);
  }

  // ----- what lists hold -----

  /** If every pair was added once, the lists have no repetitions. */
  lemma HeldOnce(idx: Shard, facts: multiset<Fact>, name: string, value: string)
    requires Represents(idx, facts) && forall f: Fact :: facts[f] <= 1
    ensures Ascending(Fps(idx, name, value))
    ensures forall fp :: fp in Fps(idx, name, value) <==> Fact(fp, name, value) in facts
  {
    var fps := Fps(idx, name, value);
    assert Holds(fps, facts, name, value);
    forall fp ensures fp in fps <==> Fact(fp, name, value) in facts {
      assert multiset(fps)[fp] == facts[Fact(fp, name, value)];
    }
    forall i, j | 0 <= i < j < |fps| ensures fps[i] < fps[j] {
      var f := Fact(fps[i], name, value);
      assert multiset(fps)[fps[i]] == facts[f] <= 1;
      if fps[i] == fps[j] {
        TwiceThere(fps, i, j);
        assert false;
      }
    }
  }

  /** What is listed has a place. */
  lemma Placed(idx: Shard, facts: multiset<Fact>, f: Fact)
    requires Represents(idx, facts) && f in facts
    ensures f.name in idx && f.value in idx[f.name] && f.fp in idx[f.name][f.value]
  {
    assert f == Fact(f.fp, f.name, f.value);
    assert Holds(Fps(idx, f.name, f.value), facts, f.name, f.value);
    assert multiset(Fps(idx, f.name, f.value))[f.fp] > 0;
  }

  // ----- lookup in one shard -----

  /** How often a fingerprint is listed under some values of a name. */
  ghost function Times(facts: multiset<Fact>, name: string, values: seq<string>, fp: nat): nat {
    if values == [] then 0
    else Times(facts, name, values[..|values| - 1], fp) + facts[Fact(fp, name, values[|values| - 1])]
  }

  ghost function TimesOf(facts: multiset<Fact>, name: string, values: set<string>, fp: nat): nat {
    if values == {} then 0
    else
      var v :| v in values;
      facts[Fact(fp, name, v)] + TimesOf(facts, name, values - {v}, fp)
  }

  /** Any of the values may come first. */
  lemma {:induction false} TimesOfSplit(facts: multiset<Fact>, name: string, values: set<string>, fp: nat, v: string)
    requires v in values
    ensures TimesOf(facts, name, values, fp) == facts[Fact(fp, name, v)] + TimesOf(facts, name, values - {v}, fp)
    decreases values
  {
    var w :| w in values && TimesOf(facts, name, values, fp) == facts[Fact(fp, name, w)] + TimesOf(facts, name, values - {w}, fp);
    if w != v {
      TimesOfSplit(facts, name, values - {w}, fp, v);
      TimesOfSplit(facts, name, values - {v}, fp, w);
      assert values - {w} - {v} == values - {v} - {w};
    }
  }

  lemma {:induction false} TimesPositive(facts: multiset<Fact>, name: string, values: seq<string>, fp: nat)
    ensures Times(facts, name, values, fp) > 0 <==> exists v :: v in values && Fact(fp, name, v) in facts
  {
    if values != [] {
      var front, last := values[..|values| - 1], values[|values| - 1];
      TimesPositive(facts, name, front, fp);
      assert values == front + [last];
    }
  }

  lemma {:induction false} TimesOfPositive(facts: multiset<Fact>, name: string, values: set<string>, fp: nat)
    ensures TimesOf(facts, name, values, fp) > 0 <==> exists v :: v in values && Fact(fp, name, v) in facts
    decreases values
  {
    if values != {} {
      var v :| v in values;
      TimesOfSplit(facts, name, values, fp, v);
      TimesOfPositive(facts, name, values - {v}, fp);
    }
  }

  /** The values of a fingerprint that a matcher accepts. */
  ghost function Accepted(re: Engine, facts: multiset<Fact>, m: Matcher, fp: nat): (r: set<string>)
    ensures forall v :: v in r <==> Fact(fp, m.name, v) in facts && Matches(re, m, v)
  {
    set f: Fact | f in facts && f.fp == fp && f.name == m.name && Matches(re, m, f.value) :: f.value
  }

  /** How often the list of a matcher holds a fingerprint: for each time that it is listed under a
      value, as often as the value stands in the set of the matcher, if it is one. */
  ghost function Hits(re: Engine, facts: multiset<Fact>, m: Matcher, fp: nat): nat {
    if m.kind == MatchEqual then facts[Fact(fp, m.name, m.value)]
    else if m.kind == MatchRegexp && |SetMatches(m.value)| > 0 then Times(facts, m.name, SetMatches(m.value), fp)
    else TimesOf(facts, m.name, Accepted(re, facts, m, fp), fp)
  }

  /** Hits depend on the facts about the fingerprint alone. */
  lemma HitsLocal(re: Engine, facts: multiset<Fact>, facts': multiset<Fact>, m: Matcher, fp: nat)
    requires forall f: Fact :: f.fp == fp ==> facts'[f] == facts[f]
    ensures Hits(re, facts', m, fp) == Hits(re, facts, m, fp)
  {
    hide SetMatches, Matches, Times, TimesOf;
    TimesLocal(facts, facts', m.name, SetMatches(m.value), fp);
    forall v ensures v in Accepted(re, facts', m, fp) <==> v in Accepted(re, facts, m, fp) {
      assert facts'[Fact(fp, m.name, v)] == facts[Fact(fp, m.name, v)];
    }
    assert Accepted(re, facts', m, fp) == Accepted(re, facts, m, fp);
    TimesOfLocal(facts, facts', m.name, Accepted(re, facts, m, fp), fp);
  }

  lemma {:induction false} TimesLocal(facts: multiset<Fact>, facts': multiset<Fact>, name: string, values: seq<string>, fp: nat)
    requires forall f: Fact :: f.fp == fp ==> facts'[f] == facts[f]
    ensures Times(facts', name, values, fp) == Times(facts, name, values, fp)
  {
    if values != [] {
      TimesLocal(facts, facts', name, values[..|values| - 1], fp);
    }
  }

  lemma {:induction false} TimesOfLocal(facts: multiset<Fact>, facts': multiset<Fact>, name: string, values: set<string>, fp: nat)
    requires forall f: Fact :: f.fp == fp ==> facts'[f] == facts[f]
    ensures TimesOf(facts', name, values, fp) == TimesOf(facts, name, values, fp)
    decreases values
  {
    if values != {} {
      var v :| v in values;
      TimesOfSplit(facts, name, values, fp, v);
      TimesOfSplit(facts', name, values, fp, v);
      TimesOfLocal(facts, facts', name, values - {v}, fp);
    }
  }

  /** A matcher that hits has a list. */
  lemma HitHasName(re: Engine, facts: multiset<Fact>, m: Matcher, fp: nat)
    requires Hits(re, facts, m, fp) > 0
    ensures exists v :: Fact(fp, m.name, v) in facts
  {
    hide SetMatches, Matches, Times, TimesOf;
    TimesPositive(facts, m.name, SetMatches(m.value), fp);
    TimesOfPositive(facts, m.name, Accepted(re, facts, m, fp), fp);
  }

  /** The fingerprints of the values of a set, in the order of the set. */
  method Concatenate(idx: Shard, name: string, values: seq<string>, ghost facts: multiset<Fact>) returns (fps: seq<nat>)
    requires Represents(idx, facts)
    ensures forall fp :: multiset(fps)[fp] == Times(facts, name, values, fp)
  {
    hide Represents;
    fps := [];
    for i := 0 to |values|
      invariant forall fp :: multiset(fps)[fp] == Times(facts, name, values[..i], fp)
    {
      ListSorted(idx, facts, name, values[i]);
      assert values[..i + 1][..i] == values[..i];
      fps := fps + Fps(idx, name, values[i]);
    }
    assert values[..|values|] == values;
  }

  /** The list holds the accepted values of a fingerprint, but for those that are left. */
  ghost predicate Gathered(re: Engine, facts: multiset<Fact>, m: Matcher, left: set<string>, fps: seq<nat>) {
    forall fp :: multiset(fps)[fp] == TimesOf(facts, m.name, Accepted(re, facts, m, fp) - left, fp)
  }

  /** The fingerprints of all values that the matcher accepts, in any order. */
  method Accumulate(re: Engine, idx: Shard, m: Matcher, ghost facts: multiset<Fact>) returns (fps: seq<nat>)
    requires Represents(idx, facts) && m.name in idx
    ensures forall fp :: multiset(fps)[fp] == TimesOf(facts, m.name, Accepted(re, facts, m, fp), fp)
  {
    hide Represents, Matches, Gathered, TimesOf, Accepted;
    fps := [];
    var left := idx[m.name].Keys;
    NothingGathered(re, idx, facts, m);
    while left != {}
      invariant left <= idx[m.name].Keys && Gathered(re, facts, m, left, fps)
    {
      var value :| value in left;
      GatheredMore(re, idx, facts, m, left, value, fps);
      left := left - {value};
      if Matches(re, m, value) {
        fps := fps + idx[m.name][value];
      }
    }
    AllGathered(re, facts, m, fps);
  }

  lemma NothingGathered(re: Engine, idx: Shard, facts: multiset<Fact>, m: Matcher)
    requires Represents(idx, facts) && m.name in idx
    ensures Gathered(re, facts, m, idx[m.name].Keys, [])
  {
    hide Represents, Matches, Accepted;
    forall fp ensures Accepted(re, facts, m, fp) - idx[m.name].Keys == {} {
      forall v | v in Accepted(re, facts, m, fp) ensures v in idx[m.name] {
        Placed(idx, facts, Fact(fp, m.name, v));
      }
    }
  }

  lemma AllGathered(re: Engine, facts: multiset<Fact>, m: Matcher, fps: seq<nat>)
    requires Gathered(re, facts, m, {}, fps)
    ensures forall fp :: multiset(fps)[fp] == TimesOf(facts, m.name, Accepted(re, facts, m, fp), fp)
  {
    hide TimesOf, Accepted;
    forall fp ensures multiset(fps)[fp] == TimesOf(facts, m.name, Accepted(re, facts, m, fp), fp) {
      assert Accepted(re, facts, m, fp) - {} == Accepted(re, facts, m, fp);
    }
  }

  lemma GatheredMore(re: Engine, idx: Shard, facts: multiset<Fact>, m: Matcher, left: set<string>, v: string, fps: seq<nat>)
    requires Represents(idx, facts) && m.name in idx && v in left && left <= idx[m.name].Keys && Gathered(re, facts, m, left, fps)
    ensures Gathered(re, facts, m, left - {v}, if Matches(re, m, v) then fps + idx[m.name][v] else fps)
  {
    hide Represents, Matches, TimesOf, Accepted;
    ListSorted(idx, facts, m.name, v);
    var fps' := if Matches(re, m, v) then fps + idx[m.name][v] else fps;
    forall fp ensures multiset(fps')[fp] == TimesOf(facts, m.name, Accepted(re, facts, m, fp) - (left - {v}), fp) {
      var all := Accepted(re, facts, m, fp);
      assert multiset(fps)[fp] == TimesOf(facts, m.name, all - left, fp);
      assert multiset(Fps(idx, m.name, v))[fp] == facts[Fact(fp, m.name, v)];
      if v in all {
        TimesOfSplit(facts, m.name, all - (left - {v}), fp, v);
        assert all - (left - {v}) - {v} == all - left;
      } else {
        assert all - (left - {v}) == all - left;
      }
    }
  }

  method MatcherFps(re: Engine, idx: Shard, m: Matcher, ghost facts: multiset<Fact>) returns (fps: seq<nat>)
    requires Represents(idx, facts) && m.name in idx
    ensures Ordered(AtMost, fps) && forall fp :: multiset(fps)[fp] == Hits(re, facts, m, fp)
  {
    hide Represents, Matches, SetMatches, Ordered, Times, TimesOf, Accepted;
    if m.kind == MatchEqual {
      fps := if m.value in idx[m.name] then idx[m.name][m.value] else [];
      ListSorted(idx, facts, m.name, m.value);
      assert fps == Fps(idx, m.name, m.value);
    } else {
      var set' := FindSetMatches(m.value);
      if m.kind == MatchRegexp && |set'| > 0 {
        fps := Concatenate(idx, m.name, set', facts);
      } else {
        fps := Accumulate(re, idx, m, facts);
      }
      fps := Sort(fps);
    }
  }

  ghost predicate AllHit(re: Engine, facts: multiset<Fact>, ms: seq<Matcher>, fp: nat) {
    forall i :: 0 <= i < |ms| ==> Hits(re, facts, ms[i], fp) > 0
  }

  /** `indexShard.lookup`: the fingerprints that all matchers hit, in order, each as often as the
      last matcher repeats it. */
  ghost predicate Found(re: Engine, facts: multiset<Fact>, ms: seq<Matcher>, fps: seq<nat>) {
    && Ordered(AtMost, fps)
    && forall fp :: multiset(fps)[fp] == if ms != [] && AllHit(re, facts, ms, fp) then Hits(re, facts, ms[|ms| - 1], fp) else 0
  }

  lemma AllHitMore(re: Engine, facts: multiset<Fact>, ms: seq<Matcher>, m: Matcher, fp: nat)
    ensures AllHit(re, facts, ms + [m], fp) <==> AllHit(re, facts, ms, fp) && Hits(re, facts, m, fp) > 0
  {
    hide Hits;
    if AllHit(re, facts, ms + [m], fp) {
      forall i | 0 <= i < |ms| ensures Hits(re, facts, ms[i], fp) > 0 {
        assert (ms + [m])[i] == ms[i];
      }
      assert (ms + [m])[|ms|] == m;
    }
  }

  lemma FoundMore(re: Engine, facts: multiset<Fact>, ms: seq<Matcher>, m: Matcher, before: seq<nat>, b: seq<nat>, after: seq<nat>)
    requires Found(re, facts, ms, before) && Ordered(AtMost, b) && forall fp :: multiset(b)[fp] == Hits(re, facts, m, fp)
    requires after == if ms == [] then b else Keep(before, b)
    ensures Found(re, facts, ms + [m], after)
  {
    KeepSorted(before, b);
    hide Hits, Keep, Ordered, AllHit;
    forall fp ensures multiset(after)[fp] == if AllHit(re, facts, ms + [m], fp) then Hits(re, facts, m, fp) else 0 {
      KeepCounts(before, b, fp);
      AllHitMore(re, facts, ms, m, fp);
      NothingToHit(re, facts, fp);
      if ms != [] {
        assert fp in before <==> multiset(before)[fp] > 0;
        LastHit(re, facts, ms, fp);
      }
    }
  }

  lemma NothingToHit(re: Engine, facts: multiset<Fact>, fp: nat)
    ensures AllHit(re, facts, [], fp)
  {
  }

  lemma LastHit(re: Engine, facts: multiset<Fact>, ms: seq<Matcher>, fp: nat)
    requires ms != []
    ensures AllHit(re, facts, ms, fp) ==> Hits(re, facts, ms[|ms| - 1], fp) > 0
  {
  }

  lemma AllHitPrefix(re: Engine, facts: multiset<Fact>, ms: seq<Matcher>, i: nat, fp: nat)
    requires i < |ms|
    ensures AllHit(re, facts, ms, fp) ==> AllHit(re, facts, ms[..i + 1], fp) && Hits(re, facts, ms[i], fp) > 0
  {
  }

  lemma NoneFound(re: Engine, facts: multiset<Fact>, ms: seq<Matcher>, i: nat)
    requires i < |ms| && Found(re, facts, ms[..i + 1], [])
    ensures Found(re, facts, ms, [])
  {
    hide Hits, AllHit;
    forall fp ensures !AllHit(re, facts, ms, fp) {
      assert multiset([])[fp] == 0;
      AllHitPrefix(re, facts, ms, i, fp);
    }
  }

  method Lookup(re: Engine, idx: Shard, ms: seq<Matcher>, ghost facts: multiset<Fact>) returns (result: seq<nat>)
    requires Represents(idx, facts)
    ensures Found(re, facts, ms, result)
  {
    hide Represents, Found, Hits;
    result := [];
    assert Found(re, facts, ms[..0], []) by { NothingFound(re, facts, ms); }
    for i := 0 to |ms|
      invariant Found(re, facts, ms[..i], result)
    {
      assert ms[..i + 1] == ms[..i] + [ms[i]];
      var m := ms[i];
      if m.name !in idx {
        NameAbsent(re, idx, facts, m);
        FoundMore(re, facts, ms[..i], m, result, [], []);
        NoneFound(re, facts, ms, i);
        return [];
      }
      var toIntersect := MatcherFps(re, idx, m, facts);
      ghost var before := result;
      if i == 0 {
        result := toIntersect;
      } else {
        FoundSorted(re, facts, ms[..i], result);
        result := Intersect(result, toIntersect);
      }
      FoundMore(re, facts, ms[..i], m, before, toIntersect, result);
      if |result| == 0 {
        NoneFound(re, facts, ms, i);
        return [];
      }
    }
    assert ms[..|ms|] == ms;
  }

  lemma NothingFound(re: Engine, facts: multiset<Fact>, ms: seq<Matcher>)
    ensures Found(re, facts, ms[..0], [])
  {
  }

  lemma FoundSorted(re: Engine, facts: multiset<Fact>, ms: seq<Matcher>, fps: seq<nat>)
    requires Found(re, facts, ms, fps)
    ensures Ordered(AtMost, fps)
  {
  }

  lemma NameAbsent(re: Engine, idx: Shard, facts: multiset<Fact>, m: Matcher)
    requires Represents(idx, facts) && m.name !in idx
    ensures forall fp :: Hits(re, facts, m, fp) == 0
    ensures forall fp: nat :: multiset([])[fp] == 0
  {
    hide Represents, Hits;
    forall fp ensures Hits(re, facts, m, fp) == 0 {
      if Hits(re, facts, m, fp) > 0 {
        HitHasName(re, facts, m, fp);
        var v :| Fact(fp, m.name, v) in facts;
        Placed(idx, facts, Fact(fp, m.name, v));
        assert false;
      }
    }
  }

  // ----- repetitions -----

  /** A lookup is free of repetitions exactly when its last matcher lists every fingerprint found
      just once. */
  lemma AscendingExactly(re: Engine, facts: multiset<Fact>, ms: seq<Matcher>, fps: seq<nat>)
    requires Found(re, facts, ms, fps) && ms != []
    ensures Ascending(fps) <==> forall fp :: AllHit(re, facts, ms, fp) ==> Hits(re, facts, ms[|ms| - 1], fp) == 1
  {
    hide Hits;
    if Ascending(fps) {
      forall fp | AllHit(re, facts, ms, fp) ensures Hits(re, facts, ms[|ms| - 1], fp) == 1 {
        AscendingCounts(fps, fp);
        assert multiset(fps)[fp] == Hits(re, facts, ms[|ms| - 1], fp);
      }
    } else {
      var i, j :| 0 <= i < j < |fps| && fps[i] >= fps[j];
      assert fps[i] == fps[j];
      TwiceThere(fps, i, j);
      assert multiset(fps)[fps[i]] >= 2;
    }
  }

  lemma {:induction false} AscendingCounts(s: seq<nat>, x: nat)
    requires Ascending(s)
    ensures multiset(s)[x] == if x in s then 1 else 0
  {
    if s != [] {
      AscendingCounts(s[1..], x);
      assert s == [s[0]] + s[1..];
      assert x == s[0] ==> x !in s[1..];
    }
  }

  lemma TwiceThere<T>(s: seq<T>, i: nat, j: nat)
    requires i < j < |s| && s[i] == s[j]
    ensures multiset(s)[s[i]] >= 2
  {
    assert s == s[..j] + [s[j]] + s[j + 1..];
    assert s[..j][i] == s[i];
  }

  lemma SetOfTwice()
    ensures SetMatches("^(?:a|a)$") == ["a", "a"]
  {
    hide Scan, NonEmpty, Meta;
    assert Scan("") == Some(Scanned([""], false)) by { ScanNothing(""); }
    assert !Meta('a') && Meta('|') by { LettersAndBars(); }
    assert "" + ['a'] == "a" && "a" + ['|'] == "a|" && "a|" + ['a'] == "a|a";
    ScanMore("", 'a');
    assert Append([""], 'a') == ["a"];
    assert Scan("a") == Some(Scanned(["a"], false));
    ScanMore("a", '|');
    assert ["a"] + [""] == ["a", ""];
    assert Scan("a|") == Some(Scanned(["a", ""], false));
    ScanMore("a|", 'a');
    assert Append(["a", ""], 'a') == ["a", "a"];
    assert Scan("a|a") == Some(Scanned(["a", "a"], false));
    SetOfWrapped("a|a");
    assert Wrapped("a|a") == "^(?:a|a)$";
    TwoNonEmpty();
  }

  lemma LettersAndBars()
    ensures !Meta('a') && Meta('|')
  {
    assert ".+*?()|[]{}^$"[6] == '|';
  }

  lemma HitTwice(re: Engine, fp: nat)
    ensures Hits(re, multiset{Fact(1, "l", "a")}, Matcher(MatchRegexp, "l", "^(?:a|a)$"), fp) == if fp == 1 then 2 else 0
  {
    SetOfTwice();
    hide SetMatches;
    var facts := multiset{Fact(1, "l", "a")};
    assert ["a", "a"][..1] == ["a"] && ["a"][..0] == [];
    assert Times(facts, "l", ["a"], fp) == facts[Fact(fp, "l", "a")];
  }

  /** An anchored alternation that names a value twice: its fingerprints are found twice. */
  lemma FoundTwice(re: Engine, fps: seq<nat>)
    requires Found(re, multiset{Fact(1, "l", "a")}, [Matcher(MatchRegexp, "l", "^(?:a|a)$")], fps)
    ensures fps == [1, 1]
  {
    hide Hits;
    var facts := multiset{Fact(1, "l", "a")};
    var m := Matcher(MatchRegexp, "l", "^(?:a|a)$");
    forall fp ensures multiset(fps)[fp] == if fp == 1 then 2 else 0 {
      HitTwice(re, fp);
      AllHitMore(re, facts, [], m, fp);
      assert [] + [m] == [m];
    }
    OnlyTwice(fps);
  }

  lemma TwoNonEmpty()
    ensures NonEmpty(["a", "a"]) == ["a", "a"]
  {
    assert ["a", "a"][..1] == ["a"];
    assert ["a"][..0] == [];
    assert NonEmpty(["a"]) == ["a"];
  }

  lemma OnlyTwice(fps: seq<nat>)
    requires multiset(fps)[1] == 2 && forall fp :: fp != 1 ==> multiset(fps)[fp] == 0
    ensures fps == [1, 1]
  {
    assert multiset(fps) == multiset{1, 1};
    assert |fps| == |multiset(fps)| == 2;
    assert fps[0] in multiset(fps) && fps[1] in multiset(fps);
  }
}
