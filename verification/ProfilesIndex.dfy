/** The head's index of series: the shards of the inverted index, and the matchers split into
    those the index answers and those that filter what it found. */
module ProfilesIndex {
  import opened Sequences
  import opened Matchers
  import opened Labels
  import opened HeadIndex

  function Pow2(n: nat): (p: nat)
    ensures p > 0
  {
    if n == 0 then 1 else 2 * Pow2(n - 1)
  }

  /** `a >> n`. */
  function ShiftRight(a: nat, n: nat): nat {
    if n == 0 then a else ShiftRight(a / 2, n - 1)
  }

  lemma {:induction false} ShiftBounded(a: nat, n: nat, b: nat)
    requires a < Pow2(n + b)
    ensures ShiftRight(a, n) < Pow2(b)
  {
    if n > 0 {
      assert Pow2(n + b) == 2 * Pow2(n - 1 + b);
      ShiftBounded(a / 2, n - 1, b);
    }
  }

  lemma {:induction false} ShiftMonotone(a: nat, b: nat, n: nat)
    requires a <= b
    ensures ShiftRight(a, n) <= ShiftRight(b, n)
    decreases n
  {
    if n > 0 {
      ShiftMonotone(a / 2, b / 2, n - 1);
    }
  }

  /** Shifting divides by a power of two. */
  lemma {:induction false} ShiftDivides(a: nat, n: nat)
    ensures ShiftRight(a, n) * Pow2(n) <= a < (ShiftRight(a, n) + 1) * Pow2(n)
  {
    if n > 0 {
      ShiftDivides(a / 2, n - 1);
      Doubled(ShiftRight(a, n), Pow2(n - 1));
      Doubled(ShiftRight(a, n) + 1, Pow2(n - 1));
    }
  }

  lemma Doubled(q: nat, p: nat)
    ensures q * (2 * p) == 2 * (q * p)
  {
  }

  /** `shardForFP`: the leading bits of the fingerprint. */
  function ShardOf(bits: nat, fp: nat): nat
    requires bits <= 64
  {
    ShiftRight(fp, 64 - bits)
  }

  /** The fingerprints of a shard are a range as wide as the bits that are shifted out allow. */
  lemma ShardInRange(bits: nat, fp: nat)
    requires bits <= 64 && fp < Pow2(64)
    ensures ShardOf(bits, fp) < Pow2(bits)
    ensures ShardOf(bits, fp) * Pow2(64 - bits) <= fp < (ShardOf(bits, fp) + 1) * Pow2(64 - bits)
  {
    hide Pow2, ShiftRight;
    ShiftDivides(fp, 64 - bits);
    ShiftBounded(fp, 64 - bits, bits);
  }

  /** Lower shards hold lower fingerprints. */
  lemma ShardsAscend(bits: nat, a: nat, b: nat)
    requires bits <= 64 && ShardOf(bits, a) < ShardOf(bits, b)
    ensures a < b
  {
    hide ShiftRight;
    if b <= a {
      ShiftMonotone(b, a, 64 - bits);
    }
  }

  // ----- lookups in two parts -----

  /** Lookups in two parts of the index, the first of which has the lower fingerprints. */
  lemma FoundJoins(re: Engine, f1: multiset<Fact>, f2: multiset<Fact>, facts: multiset<Fact>, ms: seq<Matcher>, r1: seq<nat>, r2: seq<nat>)
    requires Found(re, f1, ms, r1) && Found(re, f2, ms, r2) && ms != []
    requires forall f: Fact :: facts[f] == f1[f] + f2[f]
    requires forall f, g: Fact :: f in f1 && g in f2 ==> f.fp < g.fp
    ensures Found(re, facts, ms, r1 + r2)
  {
    forall fp ensures multiset(r1 + r2)[fp] == if AllHit(re, facts, ms, fp) then Hits(re, facts, ms[|ms| - 1], fp) else 0 {
      FoundCount(re, f1, ms, r1, fp);
      FoundCount(re, f2, ms, r2, fp);
      hide Found, Hits;
      if forall f: Fact :: f in f2 ==> f.fp != fp {
        HitsInPart(re, f1, facts, ms, fp);
        NotFound(re, f2, ms, fp);
      } else {
        HitsInPart(re, f2, facts, ms, fp);
        NotFound(re, f1, ms, fp);
      }
    }
    FoundFacts(re, f1, ms, r1);
    FoundFacts(re, f2, ms, r2);
    FoundSorted(re, f1, ms, r1);
    FoundSorted(re, f2, ms, r2);
    SortedJoins(r1, r2);
  }

  lemma SortedJoins(a: seq<nat>, b: seq<nat>)
    requires Ordered(AtMost, a) && Ordered(AtMost, b) && forall i, j :: 0 <= i < |a| && 0 <= j < |b| ==> a[i] <= b[j]
    ensures Ordered(AtMost, a + b)
  {
  }

  lemma FoundCount(re: Engine, facts: multiset<Fact>, ms: seq<Matcher>, fps: seq<nat>, fp: nat)
    requires Found(re, facts, ms, fps)
    ensures multiset(fps)[fp] == if ms != [] && AllHit(re, facts, ms, fp) then Hits(re, facts, ms[|ms| - 1], fp) else 0
  {
  }

  ghost predicate HasFact(facts: multiset<Fact>, fp: nat) {
    exists f: Fact :: f in facts && f.fp == fp
  }

  /** What is found is listed. */
  lemma FoundFacts(re: Engine, facts: multiset<Fact>, ms: seq<Matcher>, fps: seq<nat>)
    requires Found(re, facts, ms, fps)
    ensures forall i :: 0 <= i < |fps| ==> HasFact(facts, fps[i])
  {
    hide Found, Hits;
    forall i | 0 <= i < |fps| ensures HasFact(facts, fps[i]) {
      assert fps[i] in multiset(fps);
      FoundCount(re, facts, ms, fps, fps[i]);
      HitHasName(re, facts, ms[0], fps[i]);
      var v :| Fact(fps[i], ms[0].name, v) in facts;
    }
  }

  lemma NotFound(re: Engine, facts: multiset<Fact>, ms: seq<Matcher>, fp: nat)
    requires ms != [] && forall f: Fact :: f in facts ==> f.fp != fp
    ensures !AllHit(re, facts, ms, fp)
  {
    hide Hits;
    if Hits(re, facts, ms[0], fp) > 0 {
      HitHasName(re, facts, ms[0], fp);
    }
  }

  lemma HitsInPart(re: Engine, part: multiset<Fact>, facts: multiset<Fact>, ms: seq<Matcher>, fp: nat)
    requires ms != [] && forall f: Fact :: f.fp == fp ==> facts[f] == part[f]
    ensures AllHit(re, facts, ms, fp) <==> AllHit(re, part, ms, fp)
    ensures Hits(re, facts, ms[|ms| - 1], fp) == Hits(re, part, ms[|ms| - 1], fp)
  {
    hide Hits;
    forall i | 0 <= i < |ms| ensures Hits(re, facts, ms[i], fp) == Hits(re, part, ms[i], fp) {
      HitsLocal(re, part, facts, ms[i], fp);
    }
  }

  // ----- all fingerprints of a shard -----

  /** `allFPs`: every fingerprint that is listed, once, in any order. */
  method AllFps(idx: Shard, ghost facts: multiset<Fact>) returns (result: seq<nat>)
    requires Represents(idx, facts)
    ensures forall fp :: multiset(result)[fp] == if HasFact(facts, fp) then 1 else 0
  {
    hide Represents;
    var fps: seq<nat> := [];
    var names := idx.Keys;
    while names != {}
      invariant names <= idx.Keys
      invariant forall fp :: fp in fps ==> HasFact(facts, fp)
      invariant forall f: Fact :: f in facts && f.name in idx && f.name !in names ==> f.fp in fps
    {
      var name :| name in names;
      names := names - {name};
      var values := idx[name].Keys;
      while values != {}
        invariant values <= idx[name].Keys
        invariant forall fp :: fp in fps ==> HasFact(facts, fp)
        invariant forall f: Fact :: f in facts && f.name in idx && f.name !in names && f.name != name ==> f.fp in fps
        invariant forall f: Fact :: f in facts && f.name == name && f.value in idx[name] && f.value !in values ==> f.fp in fps
      {
        var value :| value in values;
        values := values - {value};
        ListExact(idx, facts, name, value);
        fps := fps + idx[name][value];
      }
      FactsListed(idx, facts);
    }
    FactsListed(idx, facts);
    result := WithoutRepeats(fps);
  }

  lemma ListExact(idx: Shard, facts: multiset<Fact>, name: string, value: string)
    requires Represents(idx, facts) && name in idx && value in idx[name]
    ensures forall fp :: fp in idx[name][value] ==> Fact(fp, name, value) in facts && HasFact(facts, fp)
    ensures forall f: Fact :: f in facts && f.name == name && f.value == value ==> f.fp in idx[name][value]
  {
    ListSorted(idx, facts, name, value);
    var fps := Fps(idx, name, value);
    forall fp ensures fp in fps <==> Fact(fp, name, value) in facts {
      assert multiset(fps)[fp] == facts[Fact(fp, name, value)];
    }
    forall f: Fact | f in facts && f.name == name && f.value == value ensures f.fp in fps {
      assert f == Fact(f.fp, name, value);
    }
  }

  lemma FactsListed(idx: Shard, facts: multiset<Fact>)
    requires Represents(idx, facts)
    ensures forall f: Fact :: f in facts ==> f.name in idx && f.value in idx[f.name]
  {
    forall f: Fact | f in facts ensures f.name in idx && f.value in idx[f.name] {
      Placed(idx, facts, f);
    }
  }

  method WithoutRepeats(fps: seq<nat>) returns (result: seq<nat>)
    ensures forall fp :: multiset(result)[fp] == if fp in fps then 1 else 0
  {
    result := [];
    var m: set<nat> := {};
    for i := 0 to |fps|
      invariant forall fp :: fp in m <==> fp in fps[..i]
      invariant forall fp :: multiset(result)[fp] == if fp in m then 1 else 0
    {
      assert fps[..i + 1] == fps[..i] + [fps[i]];
      if fps[i] !in m {
        m := m + {fps[i]};
        result := result + [fps[i]];
      }
    }
    assert fps[..|fps|] == fps;
  }

  // ----- the sharded index -----

  /** Every shard represents its part of the facts: those about its fingerprints. */
  ghost predicate ShardsOk(bits: nat, shards: seq<Shard>, parts: seq<multiset<Fact>>, facts: multiset<Fact>) {
    && bits <= 64 && |shards| == |parts| == Pow2(bits)
    && (forall k :: 0 <= k < |shards| ==> Represents(shards[k], parts[k]))
    && (forall k, f: Fact :: 0 <= k < |parts| ==> parts[k][f] == if ShardOf(bits, f.fp) == k then facts[f] else 0)
    && (forall f: Fact :: f in facts ==> f.fp < Pow2(64))
  }

  /** A shard that changed, with the facts about fingerprints of that shard. */
  lemma ShardChanged(bits: nat, shards: seq<Shard>, parts: seq<multiset<Fact>>, facts: multiset<Fact>,
                     k: nat, idx: Shard, part: multiset<Fact>, facts': multiset<Fact>)
    requires ShardsOk(bits, shards, parts, facts) && k < |shards| && Represents(idx, part)
    requires forall f: Fact :: if ShardOf(bits, f.fp) == k then part[f] == facts'[f] else part[f] == 0 && facts'[f] == facts[f]
    requires forall f: Fact :: f in facts' ==> f.fp < Pow2(64)
    ensures ShardsOk(bits, shards[k := idx], parts[k := part], facts')
  {
    hide Represents, Pow2, ShardOf;
  }

  /** The facts that labels add are about one fingerprint, and count its pairs. */
  lemma {:induction false} PairFactsCount(labels: LabelSet, fp: nat, f: Fact)
    ensures PairFacts(labels, fp)[f] == if f.fp == fp then multiset(labels)[LabelPair(f.name, f.value)] else 0
  {
    if labels != [] {
      var front, last := labels[..|labels| - 1], labels[|labels| - 1];
      PairFactsCount(front, fp, f);
      assert labels == front + [last];
    }
  }

  /** The facts about the fingerprints of the shards below `k`. */
  ghost predicate Below(bits: nat, facts: multiset<Fact>, k: nat, below: multiset<Fact>)
    requires bits <= 64
  {
    forall f: Fact :: below[f] == if ShardOf(bits, f.fp) < k then facts[f] else 0
  }

  lemma BelowMore(bits: nat, shards: seq<Shard>, parts: seq<multiset<Fact>>, facts: multiset<Fact>, k: nat, below: multiset<Fact>)
    requires ShardsOk(bits, shards, parts, facts) && k < |parts| && Below(bits, facts, k, below)
    ensures Below(bits, facts, k + 1, below + parts[k])
    ensures forall f, g: Fact :: f in below && g in parts[k] ==> f.fp < g.fp
    ensures forall fp :: HasFact(below + parts[k], fp) <==> HasFact(below, fp) || HasFact(parts[k], fp)
    ensures forall fp :: !(HasFact(below, fp) && HasFact(parts[k], fp))
  {
    hide Represents, Pow2, ShardOf;
    forall f, g: Fact | f in below && g in parts[k] ensures f.fp < g.fp {
      assert ShardOf(bits, f.fp) < k == ShardOf(bits, g.fp);
      ShardsAscend(bits, f.fp, g.fp);
    }
    forall fp | HasFact(below + parts[k], fp) ensures HasFact(below, fp) || HasFact(parts[k], fp) {
      var f: Fact :| f in below + parts[k] && f.fp == fp;
      assert f in below || f in parts[k];
    }
    forall fp | HasFact(below, fp) || HasFact(parts[k], fp) ensures HasFact(below + parts[k], fp) {
      var f: Fact :| (f in below || f in parts[k]) && f.fp == fp;
      assert f in below + parts[k];
    }
  }

  lemma AllBelow(bits: nat, shards: seq<Shard>, parts: seq<multiset<Fact>>, facts: multiset<Fact>, below: multiset<Fact>)
    requires ShardsOk(bits, shards, parts, facts) && Below(bits, facts, |shards|, below)
    ensures below == facts
  {
    hide ShardOf, Pow2, Represents;
    forall f: Fact ensures below[f] == facts[f] {
      if f in facts {
        ShardInRange(bits, f.fp);
      }
    }
  }

  class BitPrefixInvertedIndex {
    const bits: nat
    var shards: seq<Shard>
    ghost var parts: seq<multiset<Fact>>
    ghost var facts: multiset<Fact>

    ghost predicate Valid()
      reads this
    {
      ShardsOk(bits, shards, parts, facts)
    }

    constructor (bits: nat)
      requires bits <= 64
      ensures Valid() && facts == multiset{} && this.bits == bits
    {
      this.bits := bits;
      shards := seq(Pow2(bits), _ => map[]);
      parts := seq(Pow2(bits), _ => multiset{});
      facts := multiset{};
      NothingRepresented();
    }

    /** One more of every pair, in the shard of the fingerprint; the labels come back sorted by name. */
    method AddSeries(labels: LabelSet, fp: nat) returns (interned: LabelSet)
      requires Valid() && fp < Pow2(64)
      modifies this
      ensures Valid() && facts == old(facts) + PairFacts(labels, fp)
      ensures Ordered(NameAtMost, interned) && multiset(interned) == multiset(labels)
    {
      hide Represents, Pow2, PairFacts, ShardOf, Ordered;
      ShardInRange(bits, fp);
      var k := ShardOf(bits, fp);
      var idx;
      idx, interned := Add(shards[k], labels, fp, parts[k]);
      ghost var more := PairFacts(labels, fp);
      forall f: Fact ensures f.fp != fp ==> more[f] == 0 {
        PairFactsCount(labels, fp, f);
      }
      ShardChanged(bits, shards, parts, facts, k, idx, parts[k] + more, facts + more);
      shards, parts, facts := shards[k := idx], parts[k := parts[k] + more], facts + more;
    }

    /** One less of every pair. */
    method DeleteSeries(labels: LabelSet, fp: nat)
      requires Valid() && fp < Pow2(64)
      modifies this
      ensures Valid() && facts == old(facts) - PairFacts(labels, fp)
    {
      hide Represents, Pow2, PairFacts, ShardOf;
      ShardInRange(bits, fp);
      var k := ShardOf(bits, fp);
      var idx := Delete(shards[k], labels, fp, parts[k]);
      ghost var less := PairFacts(labels, fp);
      forall f: Fact ensures f.fp != fp ==> less[f] == 0 {
        PairFactsCount(labels, fp, f);
      }
      ShardChanged(bits, shards, parts, facts, k, idx, parts[k] - less, facts - less);
      shards, parts, facts := shards[k := idx], parts[k := parts[k] - less], facts - less;
    }

    /** With matchers, in ascending order across the shards; without, every fingerprint listed once. */
    method LookupAll(re: Engine, ms: seq<Matcher>) returns (result: seq<nat>)
      requires Valid()
      ensures ms != [] ==> Found(re, facts, ms, result)
      ensures ms == [] ==> forall fp :: multiset(result)[fp] == if HasFact(facts, fp) then 1 else 0
    {
      hide Represents, Pow2, Found, ShardOf, Below, HasFact;
      result := [];
      ghost var below := multiset{};
      NothingBelow(bits, facts);
      if |ms| == 0 {
        for k := 0 to |shards|
          invariant Below(bits, facts, k, below)
          invariant forall fp :: multiset(result)[fp] == if HasFact(below, fp) then 1 else 0
        {
          var fps := AllFps(shards[k], parts[k]);
          BelowMore(bits, shards, parts, facts, k, below);
          result, below := result + fps, below + parts[k];
        }
      } else {
        NothingFoundAt(re, ms);
        for k := 0 to |shards|
          invariant Below(bits, facts, k, below) && Found(re, below, ms, result)
        {
          var fps := Lookup(re, shards[k], ms, parts[k]);
          BelowMore(bits, shards, parts, facts, k, below);
          FoundJoins(re, below, parts[k], below + parts[k], ms, result, fps);
          result, below := result + fps, below + parts[k];
        }
      }
      AllBelow(bits, shards, parts, facts, below);
    }
  }

  lemma NothingBelow(bits: nat, facts: multiset<Fact>)
    requires bits <= 64
    ensures Below(bits, facts, 0, multiset{})
    ensures forall fp :: !HasFact(multiset{}, fp)
  {
  }

  lemma NothingFoundAt(re: Engine, ms: seq<Matcher>)
    requires ms != []
    ensures Found(re, multiset{}, ms, [])
  {
    hide Hits;
    forall fp ensures !AllHit(re, multiset{}, ms, fp) {
      NotFound(re, multiset{}, ms, fp);
    }
  }

  lemma NothingRepresented()
    ensures Represents(map[], multiset{})
  {
  }

  // ----- matchers and filters -----

  /** `Labels.Get`: the value of the first label of a name, or the empty string. */
  function Get(labels: LabelSet, name: string): string {
    if labels == [] then "" else if labels[0].name == name then labels[0].value else Get(labels[1..], name)
  }

  /** By brute force: every matcher accepts the value of its label. */
  ghost predicate AcceptsAll(re: Engine, labels: LabelSet, ms: seq<Matcher>) {
    forall i :: 0 <= i < |ms| ==> Matches(re, ms[i], Get(labels, ms[i].name))
  }

  /** `SplitFiltersAndMatchers`: a matcher that accepts the empty value cannot be answered by the index. */
  method SplitFiltersAndMatchers(re: Engine, all: seq<Matcher>) returns (filters: seq<Matcher>, matchers: seq<Matcher>)
    ensures forall m :: m in filters <==> m in all && Matches(re, m, "")
    ensures forall m :: m in matchers <==> m in all && !Matches(re, m, "")
    ensures matchers == Asked(re, all)
  {
    hide Matches;
    filters, matchers := [], [];
    for i := 0 to |all|
      invariant forall m :: m in filters <==> m in all[..i] && Matches(re, m, "")
      invariant forall m :: m in matchers <==> m in all[..i] && !Matches(re, m, "")
      invariant matchers == Asked(re, all[..i])
    {
      assert all[..i + 1] == all[..i] + [all[i]];
      if Matches(re, all[i], "") {
        filters := filters + [all[i]];
      } else {
        matchers := matchers + [all[i]];
      }
    }
    assert all[..|all|] == all;
  }

  /** The matchers that the index is asked, in order. */
  function Asked(re: Engine, ms: seq<Matcher>): seq<Matcher> {
    if ms == [] then []
    else Asked(re, ms[..|ms| - 1]) + if Matches(re, ms[|ms| - 1], "") then [] else [ms[|ms| - 1]]
  }

  /** For a matcher that does not accept the empty value, being listed under a value of its set and
      being accepted are the same. */
  lemma SetExactly(re: Engine, m: Matcher, v: string)
    requires LiteralEngine(re) && AnchorsOnce(re) && CompilesAnchored(m) && !Matches(re, m, "")
    requires m.kind == MatchRegexp && |SetMatches(m.value)| > 0
    ensures v in SetMatches(m.value) <==> Matches(re, m, v)
  {
    hide LiteralEngine, AnchorsOnce, CompilesAnchored, SetMatches;
    AnchoredSetIsExact(re, m, v);
  }

  ghost predicate GoodMatchers(re: Engine, ms: seq<Matcher>) {
    LiteralEngine(re) && AnchorsOnce(re) && forall i :: 0 <= i < |ms| ==> CompilesAnchored(ms[i])
  }

  /** An index matcher hits a fingerprint exactly when it accepts a value that this is listed under. */
  lemma HitsExactly(re: Engine, facts: multiset<Fact>, m: Matcher, fp: nat)
    requires LiteralEngine(re) && AnchorsOnce(re) && CompilesAnchored(m) && !Matches(re, m, "")
    ensures Hits(re, facts, m, fp) > 0 <==> exists v :: Fact(fp, m.name, v) in facts && Matches(re, m, v)
  {
    if m.kind == MatchEqual {
    } else if m.kind == MatchRegexp && |SetMatches(m.value)| > 0 {
      TimesPositive(facts, m.name, SetMatches(m.value), fp);
      hide LiteralEngine, AnchorsOnce, CompilesAnchored, SetMatches, Times, Matches;
      forall v ensures v in SetMatches(m.value) <==> Matches(re, m, v) {
        SetExactly(re, m, v);
      }
    } else {
      hide LiteralEngine, AnchorsOnce, CompilesAnchored, SetMatches, TimesOf, Matches;
      TimesOfPositive(facts, m.name, Accepted(re, facts, m, fp), fp);
    }
  }

  // ----- series -----

  /** The facts are those of the series, pair by pair. */
  ghost predicate Agrees(facts: multiset<Fact>, series: map<nat, LabelSet>) {
    forall f: Fact :: facts[f] == if f.fp in series then multiset(series[f.fp])[LabelPair(f.name, f.value)] else 0
  }

  /** A matcher accepts one of the values of its label. */
  ghost predicate AcceptsOne(re: Engine, labels: LabelSet, m: Matcher) {
    exists i :: 0 <= i < |labels| && labels[i].name == m.name && Matches(re, m, labels[i].value)
  }

  /** What a query selects: there are labels, the index matchers accept one of the values and the
      filters the first. */
  ghost predicate Selected(re: Engine, labels: LabelSet, ms: seq<Matcher>) {
    && labels != []
    && forall i :: 0 <= i < |ms| ==>
      if Matches(re, ms[i], "") then Matches(re, ms[i], Get(labels, ms[i].name)) else AcceptsOne(re, labels, ms[i])
  }

  lemma {:induction false} GetHolds(labels: LabelSet, name: string)
    ensures Get(labels, name) != "" ==> exists i :: 0 <= i < |labels| && labels[i] == LabelPair(name, Get(labels, name))
    ensures forall i :: 0 <= i < |labels| && labels[i].name == name && UniqueNames(labels) ==> Get(labels, name) == labels[i].value
  {
    if labels != [] && labels[0].name != name {
      var rest := labels[1..];
      GetHolds(rest, name);
      if Get(labels, name) != "" {
        var i :| 0 <= i < |rest| && rest[i] == LabelPair(name, Get(labels, name));
        assert labels[i + 1] == rest[i];
      }
      forall i | 0 <= i < |labels| && labels[i].name == name && UniqueNames(labels) ensures Get(labels, name) == labels[i].value {
        assert UniqueNames(rest) && rest[i - 1] == labels[i];
      }
    }
  }

  /** Where names are unique, a query selects by brute force. */
  lemma SelectedByForce(re: Engine, labels: LabelSet, ms: seq<Matcher>)
    requires UniqueNames(labels)
    ensures Selected(re, labels, ms) <==> labels != [] && AcceptsAll(re, labels, ms)
  {
    hide Matches, UniqueNames;
    forall i | 0 <= i < |ms| && !Matches(re, ms[i], "")
      ensures AcceptsOne(re, labels, ms[i]) <==> Matches(re, ms[i], Get(labels, ms[i].name))
    {
      GetHolds(labels, ms[i].name);
    }
  }

  /** An index matcher hits a series exactly when it accepts one of the values. */
  lemma HitsSeries(re: Engine, facts: multiset<Fact>, series: map<nat, LabelSet>, m: Matcher, fp: nat)
    requires LiteralEngine(re) && AnchorsOnce(re) && CompilesAnchored(m) && !Matches(re, m, "") && Agrees(facts, series)
    ensures Hits(re, facts, m, fp) > 0 <==> fp in series && AcceptsOne(re, series[fp], m)
  {
    hide Matches, Hits, LiteralEngine, AnchorsOnce, CompilesAnchored;
    HitsExactly(re, facts, m, fp);
    if v :| Fact(fp, m.name, v) in facts && Matches(re, m, v) {
      var f := Fact(fp, m.name, v);
      assert facts[f] > 0;
      assert LabelPair(m.name, v) in multiset(series[fp]);
      var i :| 0 <= i < |series[fp]| && series[fp][i] == LabelPair(m.name, v);
    }
    if fp in series && AcceptsOne(re, series[fp], m) {
      var i :| 0 <= i < |series[fp]| && series[fp][i].name == m.name && Matches(re, m, series[fp][i].value);
      assert series[fp][i] == LabelPair(m.name, series[fp][i].value) && series[fp][i] in multiset(series[fp]);
      assert facts[Fact(fp, m.name, series[fp][i].value)] > 0;
    }
  }

  lemma HasLabels(facts: multiset<Fact>, series: map<nat, LabelSet>, fp: nat)
    requires Agrees(facts, series)
    ensures HasFact(facts, fp) <==> fp in series && series[fp] != []
  {
    if f: Fact :| f in facts && f.fp == fp {
      assert LabelPair(f.name, f.value) in multiset(series[fp]);
    }
    if fp in series && series[fp] != [] {
      var l := series[fp][0];
      assert l == LabelPair(l.name, l.value) && l in multiset(series[fp]);
      assert Fact(fp, l.name, l.value) in facts;
    }
  }

  /** How often a selected series is visited. */
  ghost function Visits(re: Engine, labels: LabelSet, fp: nat, ms: seq<Matcher>): nat {
    var asked := Asked(re, ms);
    if asked == [] then 1 else Hits(re, PairFacts(labels, fp), asked[|asked| - 1], fp)
  }

  lemma VisitsAre(re: Engine, facts: multiset<Fact>, series: map<nat, LabelSet>, m: Matcher, fp: nat)
    requires Agrees(facts, series) && fp in series
    ensures Hits(re, facts, m, fp) == Hits(re, PairFacts(series[fp], fp), m, fp)
  {
    hide Hits, PairFacts;
    forall f: Fact | f.fp == fp ensures facts[f] == PairFacts(series[fp], fp)[f] {
      PairFactsCount(series[fp], fp, f);
    }
    HitsLocal(re, PairFacts(series[fp], fp), facts, m, fp);
  }

  datatype ProfileLabels<P> = ProfileLabels(labels: LabelSet, profiles: seq<P>)

  /** The labels by fingerprint. */
  ghost function SeriesOf<P>(perFP: map<nat, ProfileLabels<P>>): (r: map<nat, LabelSet>)
    ensures r.Keys == perFP.Keys && forall fp :: fp in r ==> r[fp] == perFP[fp].labels
  {
    map fp | fp in perFP :: perFP[fp].labels
  }

  lemma SeriesMore<P>(perFP: map<nat, ProfileLabels<P>>, fp: nat, labels: LabelSet)
    ensures SeriesOf(perFP[fp := ProfileLabels(labels, [])]) == SeriesOf(perFP)[fp := labels]
  {
  }

  lemma SameSeries<P>(perFP: map<nat, ProfileLabels<P>>, fp: nat, profiles: seq<P>)
    requires fp in perFP
    ensures SeriesOf(perFP[fp := perFP[fp].(profiles := profiles)]) == SeriesOf(perFP)
  {
  }

  lemma AgreesMore(facts: multiset<Fact>, series: map<nat, LabelSet>, fp: nat, labels: LabelSet, interned: LabelSet)
    requires Agrees(facts, series) && fp !in series && multiset(interned) == multiset(labels)
    ensures Agrees(facts + PairFacts(labels, fp), series[fp := interned])
  {
    hide PairFacts;
    forall f: Fact ensures PairFacts(labels, fp)[f] == if f.fp == fp then multiset(labels)[LabelPair(f.name, f.value)] else 0 {
      PairFactsCount(labels, fp, f);
    }
  }

  class ProfilesIndex<P> {
    const ix: BitPrefixInvertedIndex
    var profilesPerFP: map<nat, ProfileLabels<P>>

    ghost predicate Valid()
      reads this, ix
    {
      && ix.Valid() && Agrees(ix.facts, SeriesOf(profilesPerFP))
      && (forall fp :: fp in profilesPerFP ==> Ordered(NameAtMost, profilesPerFP[fp].labels))
    }

    constructor (bits: nat)
      requires bits <= 64
      ensures Valid() && fresh(ix) && profilesPerFP == map[]
    {
      ix := new BitPrefixInvertedIndex(bits);
      profilesPerFP := map[];
    }

    /** A profile joins its series, which is entered in the index when it is new. */
    method AddProfile(p: P, fp: nat, labels: LabelSet)
      requires Valid() && fp < Pow2(64)
      modifies this, ix
      ensures Valid() && fp in profilesPerFP && profilesPerFP == old(profilesPerFP)[fp := profilesPerFP[fp]]
      ensures fp in old(profilesPerFP) ==>
        profilesPerFP[fp] == ProfileLabels(old(profilesPerFP)[fp].labels, old(profilesPerFP)[fp].profiles + [p])
      ensures fp !in old(profilesPerFP) ==> profilesPerFP[fp].profiles == [p] && multiset(profilesPerFP[fp].labels) == multiset(labels)
    {
      hide ShardsOk, Pow2, Ordered, PairFacts, Agrees, SeriesOf;
      if fp !in profilesPerFP {
        var interned := ix.AddSeries(labels, fp);
        AgreesMore(old(ix.facts), SeriesOf(profilesPerFP), fp, labels, interned);
        SeriesMore(profilesPerFP, fp, interned);
        profilesPerFP := profilesPerFP[fp := ProfileLabels(interned, [])];
      }
      var profiles := profilesPerFP[fp];
      SameSeries(profilesPerFP, fp, profiles.profiles + [p]);
      profilesPerFP := profilesPerFP[fp := profiles.(profiles := profiles.profiles + [p])];
    }

    /** `forMatchingLabels`. */
    method ForMatchingLabels(re: Engine, all: seq<Matcher>) returns (visited: seq<nat>)
      requires Valid() && GoodMatchers(re, all)
      ensures Answers(re, SeriesOf(profilesPerFP), all, visited)
    {
      visited := VisitMatching(re, ix, profilesPerFP, all);
    }
  }

  /** Exactly the selected series, how often each is visited, and in which order. */
  ghost predicate Answers(re: Engine, series: map<nat, LabelSet>, all: seq<Matcher>, visited: seq<nat>) {
    && (forall fp :: fp in visited <==> fp in series && Selected(re, series[fp], all))
    && (forall fp :: fp in visited ==> multiset(visited)[fp] == Visits(re, series[fp], fp, all))
    && (Asked(re, all) != [] ==> Ordered(AtMost, visited))
  }

  /** Where names are unique: exactly the series with labels that all matchers accept by brute force. */
  lemma AnswersByForce(re: Engine, series: map<nat, LabelSet>, all: seq<Matcher>, visited: seq<nat>)
    requires Answers(re, series, all, visited) && forall fp :: fp in series ==> UniqueNames(series[fp])
    ensures forall fp :: fp in visited <==> fp in series && series[fp] != [] && AcceptsAll(re, series[fp], all)
  {
    hide Selected, AcceptsAll, Visits, Asked, UniqueNames;
    forall fp | fp in series ensures Selected(re, series[fp], all) <==> series[fp] != [] && AcceptsAll(re, series[fp], all) {
      SelectedByForce(re, series[fp], all);
    }
  }

  /** Lookup in the index, and filters on what it found. */
  method VisitMatching<P>(re: Engine, ix: BitPrefixInvertedIndex, profilesPerFP: map<nat, ProfileLabels<P>>, all: seq<Matcher>)
    returns (visited: seq<nat>)
    requires ix.Valid() && Agrees(ix.facts, SeriesOf(profilesPerFP)) && GoodMatchers(re, all)
    ensures Answers(re, SeriesOf(profilesPerFP), all, visited)
  {
    hide Matches, Found, LiteralEngine, AnchorsOnce, CompilesAnchored, ShardsOk, Agrees, Answers, HasFact;
    var filters, matchers := SplitFiltersAndMatchers(re, all);
    ghost var series := SeriesOf(profilesPerFP);
    var ids := ix.LookupAll(re, matchers);
    ghost var good := set fp | fp in series && AcceptsAll(re, series[fp], filters);
    visited := [];
    for i := 0 to |ids|
      invariant visited == KeepIn(good, ids[..i])
    {
      assert ids[..i + 1][..i] == ids[..i];
      var fp := ids[i];
      if fp !in profilesPerFP {
        continue;
      }
      var keep := Filter(re, filters, profilesPerFP[fp].labels);
      if keep {
        visited := visited + [fp];
      }
    }
    assert ids[..|ids|] == ids;
    Visited(re, ix.facts, series, all, filters, matchers, ids, good, visited);
  }

  method Filter(re: Engine, filters: seq<Matcher>, labels: LabelSet) returns (keep: bool)
    ensures keep <==> AcceptsAll(re, labels, filters)
  {
    hide Get, Matches;
    for i := 0 to |filters|
      invariant AcceptsAll(re, labels, filters[..i])
    {
      var value := GetLabel(labels, filters[i].name);
      if !Matches(re, filters[i], value) {
        return false;
      }
    }
    return true;
  }

  /** The value of the first label of the name; empty if there is none. */
  ghost predicate IsFirst(labels: LabelSet, name: string, value: string) {
    if forall i :: 0 <= i < |labels| ==> labels[i].name != name then value == ""
    else exists i :: 0 <= i < |labels| && labels[i] == LabelPair(name, value) && forall j :: 0 <= j < i ==> labels[j].name != name
  }

  /** `Labels.Get`, by scanning. */
  method GetLabel(labels: LabelSet, name: string) returns (value: string)
    ensures value == Get(labels, name) && IsFirst(labels, name, value)
  {
    for i := 0 to |labels|
      invariant Get(labels, name) == Get(labels[i..], name)
      invariant forall j :: 0 <= j < i ==> labels[j].name != name
    {
      if labels[i].name == name {
        return labels[i].value;
      }
    }
    return "";
  }

  function KeepIn(good: set<nat>, ids: seq<nat>): seq<nat> {
    if ids == [] then [] else KeepIn(good, ids[..|ids| - 1]) + if ids[|ids| - 1] in good then [ids[|ids| - 1]] else []
  }

  lemma {:induction false} KeepInCounts(good: set<nat>, ids: seq<nat>)
    ensures forall x :: multiset(KeepIn(good, ids))[x] == if x in good then multiset(ids)[x] else 0
    ensures forall x :: x in KeepIn(good, ids) ==> x in ids
  {
    if ids != [] {
      var front := ids[..|ids| - 1];
      KeepInCounts(good, front);
      assert ids == front + [ids[|ids| - 1]];
    }
  }

  lemma {:induction false} KeepInSorted(good: set<nat>, ids: seq<nat>)
    requires Ordered(AtMost, ids)
    ensures Ordered(AtMost, KeepIn(good, ids))
  {
    if ids != [] {
      var front := ids[..|ids| - 1];
      KeepInSorted(good, front);
      KeepInCounts(good, front);
      forall i | 0 <= i < |KeepIn(good, front)| ensures KeepIn(good, front)[i] <= ids[|ids| - 1] {
        assert KeepIn(good, front)[i] in front;
      }
    }
  }

  /** The index matchers hit, and the filters accept, exactly the selected series. */
  lemma SelectedInParts(re: Engine, facts: multiset<Fact>, series: map<nat, LabelSet>, all: seq<Matcher>, filters: seq<Matcher>,
                        matchers: seq<Matcher>, fp: nat)
    requires GoodMatchers(re, all) && Agrees(facts, series) && fp in series
    requires forall m :: m in filters <==> m in all && Matches(re, m, "")
    requires forall m :: m in matchers <==> m in all && !Matches(re, m, "")
    ensures Selected(re, series[fp], all) <==> series[fp] != [] && AcceptsAll(re, series[fp], filters) && AllHit(re, facts, matchers, fp)
  {
    hide Matches, Agrees, Hits, AcceptsOne;
    forall m | m in matchers ensures Hits(re, facts, m, fp) > 0 <==> AcceptsOne(re, series[fp], m) {
      var i :| 0 <= i < |all| && all[i] == m;
      HitsSeries(re, facts, series, m, fp);
    }
    if Selected(re, series[fp], all) {
      forall i | 0 <= i < |filters| ensures Matches(re, filters[i], Get(series[fp], filters[i].name)) {
        assert filters[i] in all;
      }
      forall i | 0 <= i < |matchers| ensures Hits(re, facts, matchers[i], fp) > 0 {
        assert matchers[i] in all;
      }
    }
    if series[fp] != [] && AcceptsAll(re, series[fp], filters) && AllHit(re, facts, matchers, fp) {
      forall i | 0 <= i < |all|
        ensures if Matches(re, all[i], "") then Matches(re, all[i], Get(series[fp], all[i].name)) else AcceptsOne(re, series[fp], all[i])
      {
        assert all[i] in filters || all[i] in matchers;
      }
    }
  }

  lemma Visited(re: Engine, facts: multiset<Fact>, series: map<nat, LabelSet>, all: seq<Matcher>, filters: seq<Matcher>,
                matchers: seq<Matcher>, ids: seq<nat>, good: set<nat>, visited: seq<nat>)
    requires GoodMatchers(re, all) && matchers == Asked(re, all) && Agrees(facts, series)
    requires forall m :: m in filters <==> m in all && Matches(re, m, "")
    requires forall m :: m in matchers <==> m in all && !Matches(re, m, "")
    requires matchers != [] ==> Found(re, facts, matchers, ids)
    requires matchers == [] ==> forall fp :: multiset(ids)[fp] == if HasFact(facts, fp) then 1 else 0
    requires forall fp :: fp in good <==> fp in series && AcceptsAll(re, series[fp], filters)
    requires visited == KeepIn(good, ids)
    ensures Answers(re, series, all, visited)
  {
    hide *;
    KeepInCounts(good, ids);
    if matchers != [] {
      FoundSorted(re, facts, matchers, ids);
      KeepInSorted(good, ids);
    }
    forall fp
      ensures fp in visited <==> fp in series && Selected(re, series[fp], all)
      ensures fp in visited ==> multiset(visited)[fp] == Visits(re, series[fp], fp, all)
    {
      VisitedAt(re, facts, series, all, filters, matchers, ids, fp);
      assert fp in visited <==> multiset(visited)[fp] > 0;
    }
    AreAnswers(re, series, all, visited);
  }

  lemma AreAnswers(re: Engine, series: map<nat, LabelSet>, all: seq<Matcher>, visited: seq<nat>)
    requires forall fp :: fp in visited <==> fp in series && Selected(re, series[fp], all)
    requires forall fp :: fp in visited ==> multiset(visited)[fp] == Visits(re, series[fp], fp, all)
    requires Asked(re, all) != [] ==> Ordered(AtMost, visited)
    ensures Answers(re, series, all, visited)
  {
  }

  /** How often the ids hold a fingerprint that the filters let through. */
  lemma VisitedAt(re: Engine, facts: multiset<Fact>, series: map<nat, LabelSet>, all: seq<Matcher>, filters: seq<Matcher>,
                  matchers: seq<Matcher>, ids: seq<nat>, fp: nat)
    requires GoodMatchers(re, all) && matchers == Asked(re, all) && Agrees(facts, series)
    requires forall m :: m in filters <==> m in all && Matches(re, m, "")
    requires forall m :: m in matchers <==> m in all && !Matches(re, m, "")
    requires matchers != [] ==> Found(re, facts, matchers, ids)
    requires matchers == [] ==> multiset(ids)[fp] == if HasFact(facts, fp) then 1 else 0
    ensures
      var n := if fp in series && AcceptsAll(re, series[fp], filters) then multiset(ids)[fp] else 0;
      && (n > 0 <==> fp in series && Selected(re, series[fp], all))
      && (n > 0 ==> n == Visits(re, series[fp], fp, all))
  {
    hide Matches, Found, AcceptsAll, Asked, Hits, GoodMatchers, Agrees, Selected, HasFact, PairFacts, AllHit;
    if fp in series {
      SelectedInParts(re, facts, series, all, filters, matchers, fp);
      HasLabels(facts, series, fp);
      if matchers != [] {
        FoundCount(re, facts, matchers, ids, fp);
        HitIsLabelled(re, facts, matchers, fp);
        VisitsAre(re, facts, series, matchers[|matchers| - 1], fp);
      } else {
        NothingToHit(re, facts, fp);
      }
    }
  }

  lemma HitIsLabelled(re: Engine, facts: multiset<Fact>, ms: seq<Matcher>, fp: nat)
    requires ms != []
    ensures AllHit(re, facts, ms, fp) ==> HasFact(facts, fp) && Hits(re, facts, ms[|ms| - 1], fp) > 0
  {
    hide Hits;
    if AllHit(re, facts, ms, fp) {
      assert Hits(re, facts, ms[|ms| - 1], fp) > 0;
      HitHasName(re, facts, ms[0], fp);
    }
  }

  // ----- additions and deletions -----

  datatype Op = AddOp(labels: LabelSet, fp: nat) | DeleteOp(labels: LabelSet, fp: nat)

  /** What the index lists after a list of additions and deletions. */
  function FactsAfter(ops: seq<Op>): multiset<Fact> {
    if ops == [] then multiset{}
    else
      var before := FactsAfter(ops[..|ops| - 1]);
      match ops[|ops| - 1]
      case AddOp(labels, fp) => before + PairFacts(labels, fp)
      case DeleteOp(labels, fp) => before - PairFacts(labels, fp)
  }

  /** The series that are still there. */
  function SeriesAfter(ops: seq<Op>): map<nat, LabelSet> {
    if ops == [] then map[]
    else
      var before := SeriesAfter(ops[..|ops| - 1]);
      match ops[|ops| - 1]
      case AddOp(labels, fp) => before[fp := labels]
      case DeleteOp(_, fp) => before - {fp}
  }

  /** A series is added when its fingerprint has no labels, and deleted with all its labels. */
  ghost predicate Fits(series: map<nat, LabelSet>, op: Op) {
    match op
    case AddOp(_, fp) => fp in series ==> series[fp] == []
    case DeleteOp(labels, fp) => fp in series ==> multiset(series[fp]) <= multiset(labels)
  }

  lemma AddKeepsAgreement(facts: multiset<Fact>, series: map<nat, LabelSet>, labels: LabelSet, fp: nat)
    requires Agrees(facts, series)
    ensures Agrees(facts + PairFacts(labels, fp), series[fp := labels]) <==> Fits(series, AddOp(labels, fp))
  {
    hide PairFacts;
    forall f: Fact ensures PairFacts(labels, fp)[f] == if f.fp == fp then multiset(labels)[LabelPair(f.name, f.value)] else 0 {
      PairFactsCount(labels, fp, f);
    }
    if fp in series && series[fp] != [] {
      var l := series[fp][0];
      assert l == LabelPair(l.name, l.value) && l in multiset(series[fp]);
      assert facts[Fact(fp, l.name, l.value)] > 0;
    }
  }

  lemma DeleteKeepsAgreement(facts: multiset<Fact>, series: map<nat, LabelSet>, labels: LabelSet, fp: nat)
    requires Agrees(facts, series)
    ensures Agrees(facts - PairFacts(labels, fp), series - {fp}) <==> Fits(series, DeleteOp(labels, fp))
  {
    hide PairFacts;
    forall f: Fact ensures PairFacts(labels, fp)[f] == if f.fp == fp then multiset(labels)[LabelPair(f.name, f.value)] else 0 {
      PairFactsCount(labels, fp, f);
    }
    if fp in series {
      var a, b := multiset(series[fp]), multiset(labels);
      if a <= b {
        forall f: Fact | f.fp == fp ensures facts[f] <= PairFacts(labels, fp)[f] {
          assert a[LabelPair(f.name, f.value)] <= b[LabelPair(f.name, f.value)];
        }
      } else {
        var l :| a[l] > b[l];
        assert l == LabelPair(l.name, l.value);
        assert facts[Fact(fp, l.name, l.value)] > PairFacts(labels, fp)[Fact(fp, l.name, l.value)];
      }
    }
  }

  ghost predicate AllFit(ops: seq<Op>) {
    forall k :: 0 <= k < |ops| ==> Fits(SeriesAfter(ops[..k]), ops[k])
  }

  /** The index says what series are there, after every operation. */
  ghost predicate AlwaysAgrees(ops: seq<Op>) {
    forall k :: 0 <= k <= |ops| ==> Agrees(FactsAfter(ops[..k]), SeriesAfter(ops[..k]))
  }

  lemma AllFitMore(front: seq<Op>, op: Op)
    ensures AllFit(front + [op]) <==> AllFit(front) && Fits(SeriesAfter(front), op)
  {
    hide Fits, SeriesAfter;
    var ops := front + [op];
    assert ops[..|front|] == front && ops[|front|] == op;
    assert forall k :: 0 <= k < |front| ==> front[..k] == ops[..k] && front[k] == ops[k];
  }

  lemma AlwaysAgreesMore(front: seq<Op>, op: Op)
    ensures AlwaysAgrees(front + [op]) <==> AlwaysAgrees(front) && Agrees(FactsAfter(front + [op]), SeriesAfter(front + [op]))
  {
    hide Agrees, SeriesAfter, FactsAfter;
    var ops := front + [op];
    assert ops[..|ops|] == ops;
    assert forall k :: 0 <= k <= |front| ==> front[..k] == ops[..k];
  }

  /** This is so exactly when every operation fits. */
  lemma {:induction false} AgreesThroughout(ops: seq<Op>)
    ensures AlwaysAgrees(ops) <==> AllFit(ops)
  {
    if ops == [] {
      assert Agrees(multiset{}, map[]) by { NoSeries(); }
    } else {
      hide *;
      var front, last := ops[..|ops| - 1], ops[|ops| - 1];
      assert ops == front + [last];
      AgreesThroughout(front);
      AllFitMore(front, last);
      AlwaysAgreesMore(front, last);
      if AlwaysAgrees(front) {
        AgreesNow(front);
        LastFits(front, last);
      }
    }
  }

  lemma AgreesNow(ops: seq<Op>)
    requires AlwaysAgrees(ops)
    ensures Agrees(FactsAfter(ops), SeriesAfter(ops))
  {
    assert ops[..|ops|] == ops;
  }

  lemma LastFits(front: seq<Op>, op: Op)
    requires Agrees(FactsAfter(front), SeriesAfter(front))
    ensures Agrees(FactsAfter(front + [op]), SeriesAfter(front + [op])) <==> Fits(SeriesAfter(front), op)
  {
    hide Agrees, Fits, PairFacts;
    assert (front + [op])[..|front|] == front;
    match op
    case AddOp(labels, fp) => AddKeepsAgreement(FactsAfter(front), SeriesAfter(front), labels, fp);
    case DeleteOp(labels, fp) => DeleteKeepsAgreement(FactsAfter(front), SeriesAfter(front), labels, fp);
  }

  lemma NoSeries()
    ensures Agrees(multiset{}, map[])
  {
  }

  /** Additions and deletions on an index. */
  method Perform(bits: nat, ops: seq<Op>) returns (ix: BitPrefixInvertedIndex)
    requires bits <= 64 && forall op :: op in ops ==> op.fp < Pow2(64)
    ensures ix.Valid() && ix.facts == FactsAfter(ops)
  {
    hide ShardsOk, Pow2, PairFacts;
    ix := new BitPrefixInvertedIndex(bits);
    for i := 0 to |ops|
      invariant ix.Valid() && fresh(ix) && ix.facts == FactsAfter(ops[..i])
    {
      assert ops[..i + 1][..i] == ops[..i];
      match ops[i]
      case AddOp(labels, fp) =>
        var _ := ix.AddSeries(labels, fp);
      case DeleteOp(labels, fp) =>
        ix.DeleteSeries(labels, fp);
    }
    assert ops[..|ops|] == ops;
  }

  /** The stored labels, with the profiles left out. */
  function Stored(series: map<nat, LabelSet>): (r: map<nat, ProfileLabels<nat>>)
    ensures r.Keys == series.Keys && forall fp :: fp in r ==> r[fp].labels == series[fp]
  {
    map fp | fp in series :: ProfileLabels(series[fp], [])
  }

  /** A query after any list of additions and deletions that fit: it answers for the series still
      there, and if their pairs are unique every list is sorted and without repetition. */
  method QueryAfter(re: Engine, bits: nat, ops: seq<Op>, all: seq<Matcher>) returns (ix: BitPrefixInvertedIndex, visited: seq<nat>)
    requires bits <= 64 && (forall op :: op in ops ==> op.fp < Pow2(64)) && GoodMatchers(re, all) && AllFit(ops)
    ensures Answers(re, SeriesAfter(ops), all, visited)
    ensures (forall fp :: fp in SeriesAfter(ops) ==> UniqueNames(SeriesAfter(ops)[fp])) ==>
      forall k, name, value :: 0 <= k < |ix.shards| ==> HeadIndex.Ascending(Fps(ix.shards[k], name, value))
  {
    hide Pow2, GoodMatchers, Answers, UniqueNames, Represents, Agrees, AllFit, AlwaysAgrees, SeriesAfter, FactsAfter;
    hide Fps, HeadIndex.Ascending, ShardOf;
    ix := Perform(bits, ops);
    var series := SeriesAfter(ops);
    AgreesThroughout(ops);
    AgreesNow(ops);
    assert SeriesOf(Stored(series)) == series;
    visited := VisitMatching(re, ix, Stored(series), all);
    if forall fp :: fp in series ==> UniqueNames(series[fp]) {
      EachOnce(ix.facts, series);
      forall k, name, value | 0 <= k < |ix.shards| ensures HeadIndex.Ascending(Fps(ix.shards[k], name, value)) {
        forall f: Fact ensures ix.parts[k][f] <= 1 {
          assert ix.parts[k][f] <= ix.facts[f];
        }
        HeldOnce(ix.shards[k], ix.parts[k], name, value);
      }
    }
  }

  lemma EachOnce(facts: multiset<Fact>, series: map<nat, LabelSet>)
    requires Agrees(facts, series) && forall fp :: fp in series ==> UniqueNames(series[fp])
    ensures forall f: Fact :: facts[f] <= 1
  {
    forall f: Fact ensures facts[f] <= 1 {
      if f.fp in series {
        OncePair(series[f.fp], LabelPair(f.name, f.value));
      }
    }
  }

  lemma {:induction false} OncePair(s: LabelSet, l: LabelPair)
    requires UniqueNames(s)
    ensures multiset(s)[l] <= 1
  {
    if s != [] {
      OncePair(s[1..], l);
      assert s == [s[0]] + s[1..];
      assert l == s[0] ==> l !in s[1..];
    }
  }
}
