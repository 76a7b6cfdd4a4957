/** Label queries on a block: `PostingsForMatchers` turns matchers into unions, intersections
    and differences of postings. */
module Postings {
  import opened Matchers
  import opened Sequences
  import opened Labels

  // ----- sorted lists of values -----

  /** The order of strings by the first differing character. */
  predicate AtMost(a: string, b: string) {
    CompareStrings(a, b) <= 0
  }

  lemma AtMostTransitive(a: string, b: string, c: string)
    requires AtMost(a, b) && AtMost(b, c)
    ensures AtMost(a, c)
  {
    CompareStringsOrder(a, b, c);
  }

  lemma AtMostTotal(a: string, b: string)
    ensures AtMost(a, b) || AtMost(b, a)
    ensures !AtMost(b, a) <==> CompareStrings(a, b) < 0
    ensures !AtMost(b, a) <==> StringBefore(a, b)
  {
    StringsCompare(a, b);
    CompareStringsOrder(a, b, "");
    CompareStringsOrder(b, a, "");
  }

  /** `sort.Strings`. */
  method SortStrings(s: seq<string>) returns (r: seq<string>)
    ensures Ordered(AtMost, r) && multiset(r) == multiset(s)
  {
    forall a, b, c ensures (AtMost(a, b) || AtMost(b, a)) && (AtMost(a, b) && AtMost(b, c) ==> AtMost(a, c)) {
      AtMostTotal(a, b);
      CompareStringsOrder(a, b, c);
    }
    r := SortBy(AtMost, s);
  }

  // ----- the index -----

  /** The series by reference, and the values of every label name in some order. */
  datatype Index = Index(series: map<nat, map<string, string>>, values: map<string, seq<string>>)

  /** The values listed for a name are those that occur. */
  ghost predicate ValidIndex(ix: Index) {
    && (forall ref, name :: ref in ix.series && name in ix.series[ref] ==> name in ix.values && ix.series[ref][name] in ix.values[name])
  }

  function LabelValues(ix: Index, name: string): seq<string> {
    if name in ix.values then ix.values[name] else []
  }

  lemma ListedValues(ix: Index, name: string)
    requires ValidIndex(ix)
    ensures forall ref :: ref in ix.series && name in ix.series[ref] ==> ix.series[ref][name] in LabelValues(ix, name)
  {
  }

  /** The value of a label, which is empty when the series does not have it. */
  function ValueOf(ix: Index, ref: nat, name: string): string
    requires ref in ix.series
  {
    if name in ix.series[ref] then ix.series[ref][name] else ""
  }

  /** The series with one of the values; the index wants them sorted. */
  function PostingsOf(ix: Index, name: string, values: seq<string>): (r: set<nat>)
    requires Ordered(AtMost, values)
    ensures forall ref :: ref in r <==> ref in ix.series && name in ix.series[ref] && ix.series[ref][name] in values
  {
    set ref | ref in ix.series && name in ix.series[ref] && ix.series[ref][name] in values
  }

  /** The values that a matcher accepts, or those it does not; in order, sorted only if needed. */
  method ValuesFor(re: Engine, ix: Index, m: Matcher, accepted: bool) returns (res: seq<string>)
    ensures Ordered(AtMost, res)
    ensures forall v :: v in res <==> v in LabelValues(ix, m.name) && Matches(re, m, v) == accepted
  {
    hide Matches, AtMost;
    var vals := LabelValues(ix, m.name);
    res := [];
    var lastVal, isSorted := "", true;
    for i := 0 to |vals|
      invariant forall v :: v in res <==> v in vals[..i] && Matches(re, m, v) == accepted
      invariant res != [] ==> lastVal == res[|res| - 1]
      invariant isSorted ==> Ordered(AtMost, res)
    {
      var val := vals[i];
      assert vals[..i + 1] == vals[..i] + [val];
      if Matches(re, m, val) == accepted {
        AtMostTotal(val, lastVal);
        if isSorted && CompareStrings(val, lastVal) < 0 {
          isSorted := false;
        }
        if isSorted && res != [] {
          SortedMore(res, val);
        }
        res := res + [val];
        lastVal := val;
      }
    }
    assert vals[..|vals|] == vals;
    if !isSorted {
      var r := SortStrings(res);
      assert forall v :: v in r <==> v in multiset(r);
      assert forall v :: v in res <==> v in multiset(res);
      res := r;
    }
  }

  lemma SortedMore(s: seq<string>, x: string)
    requires Ordered(AtMost, s) && s != [] && AtMost(s[|s| - 1], x)
    ensures Ordered(AtMost, s + [x])
  {
    hide AtMost;
    forall i | 0 <= i < |s| ensures AtMost(s[i], x) {
      if i < |s| - 1 {
        AtMostTransitive(s[i], s[|s| - 1], x);
      }
    }
  }

  // ----- postings of one matcher -----

  /** `postingsForMatcher`: right wherever the label is not empty, and never taking in a series
      with an empty value that the matcher does not accept. */
  method PostingsForMatcher(re: Engine, ix: Index, m: Matcher) returns (r: set<nat>)
    requires ValidIndex(ix) && LiteralEngine(re) && Compiles(m)
    ensures r <= ix.series.Keys
    ensures forall ref :: ref in ix.series && ValueOf(ix, ref, m.name) != "" ==> (ref in r <==> Matches(re, m, ValueOf(ix, ref, m.name)))
    ensures forall ref :: ref in r ==> Matches(re, m, ValueOf(ix, ref, m.name))
  {
    if m.kind == MatchEqual {
      return PostingsOf(ix, m.name, [m.value]);
    }
    hide Ordered, AtMost, Scan, NonEmpty, LiteralEngine, Compiles, SetMatches, Wrapped, ValidIndex;
    if m.kind == MatchRegexp {
      var setMatches := FindSetMatches(Wrapped(m.value));
      SetOfWrapped(m.value);
      if |setMatches| > 0 {
        var sorted := SortStrings(setMatches);
        forall s ensures s in sorted <==> s != "" && Matches(re, m, s) {
          assert s in sorted <==> s in multiset(sorted);
          assert s in setMatches <==> s in multiset(setMatches);
          SetIsExact(re, m, s);
        }
        hide Matches;
        return PostingsOf(ix, m.name, sorted);
      }
    }
    hide Matches;
    ListedValues(ix, m.name);
    var res := ValuesFor(re, ix, m, true);
    if |res| == 0 {
      r := {};
    } else {
      r := PostingsOf(ix, m.name, res);
    }
  }

  /** `inversePostingsForMatcher`: the series that have the label, with a value not accepted. */
  method InversePostingsForMatcher(re: Engine, ix: Index, m: Matcher) returns (r: set<nat>)
    requires ValidIndex(ix)
    ensures forall ref :: ref in r <==> ref in ix.series && m.name in ix.series[ref] && !Matches(re, m, ix.series[ref][m.name])
  {
    hide Ordered, Matches;
    var res := ValuesFor(re, ix, m, false);
    r := PostingsOf(ix, m.name, res);
  }

  // ----- all matchers -----

  /** What one matcher selects: decisive where the label is not empty, where the matcher does not
      accept the empty value, and where no matcher of the name demands a value. */
  ghost predicate Selects(re: Engine, ix: Index, mustBeSet: set<string>, m: Matcher, sel: set<nat>) {
    forall ref :: ref in ix.series ==>
      var v := ValueOf(ix, ref, m.name);
      v != "" || m.name !in mustBeSet || !Matches(re, m, "") ==> (ref in sel <==> Matches(re, m, v))
  }

  function Intersection(ss: seq<set<nat>>): set<nat>
    requires ss != []
  {
    if |ss| == 1 then ss[0] else Intersection(ss[..|ss| - 1]) * ss[|ss| - 1]
  }

  lemma {:induction false} InIntersection(ss: seq<set<nat>>, ref: nat)
    requires ss != []
    ensures ref in Intersection(ss) <==> forall i :: 0 <= i < |ss| ==> ref in ss[i]
    decreases |ss|
  {
    if |ss| > 1 {
      var front := ss[..|ss| - 1];
      InIntersection(front, ref);
      if forall i :: 0 <= i < |front| ==> ref in front[i] {
        forall i | 0 <= i < |ss| - 1 ensures ref in ss[i] {
          assert front[i] == ss[i];
        }
      } else {
        var i :| 0 <= i < |front| && ref !in front[i];
        assert ref !in ss[i];
      }
    }
  }

  /** A series passes when it is in all of `its` and in none of `notIts`. */
  ghost predicate Passes(its: seq<set<nat>>, notIts: seq<set<nat>>, ref: nat) {
    (forall i :: 0 <= i < |its| ==> ref in its[i]) && forall i :: 0 <= i < |notIts| ==> ref !in notIts[i]
  }

  ghost predicate InAll(sels: seq<set<nat>>, ref: nat) {
    forall i :: 0 <= i < |sels| ==> ref in sels[i]
  }

  lemma PassesMore(its: seq<set<nat>>, notIts: seq<set<nat>>, s: set<nat>, ref: nat)
    ensures Passes(its + [s], notIts, ref) <==> Passes(its, notIts, ref) && ref in s
    ensures Passes(its, notIts + [s], ref) <==> Passes(its, notIts, ref) && ref !in s
  {
    if Passes(its + [s], notIts, ref) {
      assert forall i :: 0 <= i < |its| ==> its[i] == (its + [s])[i];
      assert (its + [s])[|its|] == s;
    }
    if Passes(its, notIts + [s], ref) {
      assert forall i :: 0 <= i < |notIts| ==> notIts[i] == (notIts + [s])[i];
      assert (notIts + [s])[|notIts|] == s;
    }
  }

  lemma InAllMore(sels: seq<set<nat>>, s: set<nat>, ref: nat)
    ensures InAll(sels + [s], ref) <==> InAll(sels, ref) && ref in s
  {
    if InAll(sels + [s], ref) {
      assert forall i :: 0 <= i < |sels| ==> sels[i] == (sels + [s])[i];
      assert (sels + [s])[|sels|] == s;
    }
  }

  ghost predicate Accepts(re: Engine, ix: Index, ms: seq<Matcher>, ref: nat)
    requires ref in ix.series
  {
    forall i :: 0 <= i < |ms| ==> Matches(re, ms[i], ValueOf(ix, ref, ms[i].name))
  }

  /** The names some matcher of which does not accept the empty value. */
  ghost predicate MustBeSet(re: Engine, ms: seq<Matcher>, names: set<string>) {
    forall name :: name in names <==> exists i :: 0 <= i < |ms| && ms[i].name == name && !Matches(re, ms[i], "")
  }

  /** Selecting with every matcher is accepting with every matcher. */
  lemma SelectionIsExact(re: Engine, ix: Index, ms: seq<Matcher>, names: set<string>, sels: seq<set<nat>>, ref: nat)
    requires MustBeSet(re, ms, names) && |sels| == |ms| && ref in ix.series
    requires forall i :: 0 <= i < |ms| ==> Selects(re, ix, names, ms[i], sels[i])
    ensures InAll(sels, ref) <==> Accepts(re, ix, ms, ref)
  {
    hide Matches;
    forall i | 0 <= i < |ms| && (InAll(sels, ref) || Accepts(re, ix, ms, ref))
      ensures ref in sels[i] <==> Matches(re, ms[i], ValueOf(ix, ref, ms[i].name))
    {
      assert Selects(re, ix, names, ms[i], sels[i]);
      if ms[i].name in names {
        var j :| 0 <= j < |ms| && ms[j].name == ms[i].name && !Matches(re, ms[j], "");
        assert Selects(re, ix, names, ms[j], sels[j]);
        assert ref in sels[j] <==> Matches(re, ms[j], ValueOf(ix, ref, ms[j].name));
      }
    }
  }

  /** One matcher: a list of postings to intersect with, or one to subtract. */
  method SelectOne(re: Engine, ix: Index, m: Matcher, mustBeSet: set<string>) returns (it: set<nat>, subtract: bool, ghost sel: set<nat>)
    requires ValidIndex(ix) && LiteralEngine(re) && Compiles(m)
    requires m.name !in mustBeSet ==> Matches(re, m, "")
    ensures Selects(re, ix, mustBeSet, m, sel) && it <= ix.series.Keys
    ensures forall ref :: ref in ix.series ==> (ref in sel <==> (ref in it) != subtract)
  {
    InverseMatches(re, m);
    hide Matches, LiteralEngine;
    if m.name in mustBeSet {
      var matchesEmpty := Matches(re, m, "");
      if m.IsNot() && matchesEmpty {
        it := PostingsForMatcher(re, ix, m.Inverse());
        subtract := true;
      } else if m.IsNot() && !matchesEmpty {
        it := InversePostingsForMatcher(re, ix, m.Inverse());
        subtract := false;
      } else {
        it := PostingsForMatcher(re, ix, m);
        subtract := false;
      }
    } else {
      it := InversePostingsForMatcher(re, ix, m);
      subtract := true;
    }
    sel := if subtract then ix.series.Keys - it else it;
  }

  lemma InverseMatches(re: Engine, m: Matcher)
    ensures forall s :: Matches(re, m.Inverse(), s) <==> !Matches(re, m, s)
    ensures m.Inverse().name == m.name && (Compiles(m) ==> Compiles(m.Inverse()))
  {
  }

  method LabelMustBeSet(re: Engine, ms: seq<Matcher>) returns (names: set<string>)
    ensures MustBeSet(re, ms, names)
  {
    hide Matches;
    names := {};
    for i := 0 to |ms|
      invariant forall name :: name in names <==> exists k :: 0 <= k < i && ms[k].name == name && !Matches(re, ms[k], "")
    {
      if !Matches(re, ms[i], "") {
        names := names + {ms[i].name};
      }
    }
  }

  /** For every non-empty list of matchers, exactly the series that all of them accept. */
  method PostingsForMatchers(re: Engine, ix: Index, ms: seq<Matcher>) returns (r: set<nat>)
    requires ValidIndex(ix) && LiteralEngine(re) && forall i :: 0 <= i < |ms| ==> Compiles(ms[i])
    ensures ms != [] ==> forall ref :: ref in r <==> ref in ix.series && Accepts(re, ix, ms, ref)
    ensures ms == [] ==> r == {}
  {
    hide Matches, Selects, LiteralEngine, Compiles, ValidIndex, Passes, InAll, Accepts;
    var names := LabelMustBeSet(re, ms);
    var its: seq<set<nat>>, notIts: seq<set<nat>> := [], [];
    ghost var sels: seq<set<nat>> := [];
    NothingSelected();
    for i := 0 to |ms|
      invariant |sels| == i == |its| + |notIts|
      invariant forall k :: 0 <= k < i ==> Selects(re, ix, names, ms[k], sels[k])
      invariant forall k :: 0 <= k < |its| ==> its[k] <= ix.series.Keys
      invariant forall ref :: ref in ix.series ==> (Passes(its, notIts, ref) <==> InAll(sels, ref))
    {
      ghost var sel;
      var it, subtract;
      it, subtract, sel := SelectOne(re, ix, ms[i], names);
      forall ref | ref in ix.series
        ensures (if subtract then Passes(its, notIts + [it], ref) else Passes(its + [it], notIts, ref)) <==> InAll(sels + [sel], ref)
      {
        PassesMore(its, notIts, it, ref);
        InAllMore(sels, sel, ref);
      }
      sels := sels + [sel];
      if subtract {
        notIts := notIts + [it];
      } else {
        its := its + [it];
      }
    }
    ghost var its0 := its;
    if |its| == 0 && |notIts| != 0 {
      its := its + [ix.series.Keys];
    }
    if |its| == 0 {
      return {};
    }
    r := Intersection(its);
    ghost var all := r;
    for i := 0 to |notIts|
      invariant forall ref :: ref in r <==> ref in all && forall k :: 0 <= k < i ==> ref !in notIts[k]
    {
      r := r - notIts[i];
    }
    forall ref ensures ref in r <==> ref in ix.series && Accepts(re, ix, ms, ref) {
      InIntersection(its, ref);
      if ref in ix.series {
        SelectionIsExact(re, ix, ms, names, sels, ref);
      } else {
        assert ref !in its[0];
      }
      RemainderPasses(its0, its, notIts, ix.series.Keys, r, all, ref);
    }
  }

  lemma NothingSelected()
    ensures forall ref :: Passes([], [], ref) && InAll([], ref)
  {
  }

  lemma RemainderPasses(its0: seq<set<nat>>, its: seq<set<nat>>, notIts: seq<set<nat>>, series: set<nat>, r: set<nat>,
                        all: set<nat>, ref: nat)
    requires its == its0 || (its == [series] && its0 == [])
    requires ref in all <==> forall i :: 0 <= i < |its| ==> ref in its[i]
    requires ref in r <==> ref in all && forall k :: 0 <= k < |notIts| ==> ref !in notIts[k]
    ensures ref in series ==> (ref in r <==> Passes(its0, notIts, ref))
    ensures its != [] && ref !in its[0] ==> ref !in r
  {
  }
}
