/** Label matchers, and the regular expressions that are just sets of strings. */
module Matchers {
  import opened Sequences

  // ----- alternations of literals -----

  predicate Meta(c: char) {
    c in ".+*?()|[]{}^$"
  }

  /** One character of a literal, as it is or after a backslash. */
  datatype Token = Plain(c: char) | Escaped(c: char)

  predicate IsToken(t: Token) {
    match t
    case Plain(c) => !Meta(c) && c != '\\'
    case Escaped(c) => Meta(c) || c == '\\'
  }

  type Literal = seq<Token>

  ghost predicate IsLiteral(l: Literal) {
    forall i :: 0 <= i < |l| ==> IsToken(l[i])
  }

  ghost predicate IsAlternation(alts: seq<Literal>) {
    alts != [] && forall i :: 0 <= i < |alts| ==> IsLiteral(alts[i])
  }

  function Text(l: Literal): string {
    seq(|l|, i requires 0 <= i < |l| => l[i].c)
  }

  function Texts(alts: seq<Literal>): (r: seq<string>)
    ensures |r| == |alts|
  {
    seq(|alts|, i requires 0 <= i < |alts| => Text(alts[i]))
  }

  function RenderToken(t: Token): string {
    if t.Plain? then [t.c] else ['\\', t.c]
  }

  function RenderLiteral(l: Literal): string {
    if l == [] then "" else RenderLiteral(l[..|l| - 1]) + RenderToken(l[|l| - 1])
  }

  /** The alternatives joined by bars. */
  function Render(alts: seq<Literal>): string
    requires alts != []
  {
    var last := |alts| - 1;
    if last == 0 then RenderLiteral(alts[0]) else Render(alts[..last]) + "|" + RenderLiteral(alts[last])
  }

  // ----- FindSetMatches -----

  /** The strings collected so far, and whether a backslash is waiting for its character. */
  datatype Scanned = Scanned(sets: seq<string>, escaped: bool)

  function Append(sets: seq<string>, c: char): seq<string>
    requires sets != []
  {
    sets[|sets| - 1 := sets[|sets| - 1] + [c]]
  }

  function ScanChar(s: Scanned, c: char): Option<Scanned>
    requires s.sets != []
  {
    if s.escaped then (if Meta(c) || c == '\\' then Some(Scanned(Append(s.sets, c), false)) else None)
    else if Meta(c) then (if c == '|' then Some(Scanned(s.sets + [""], false)) else None)
    else if c == '\\' then Some(s.(escaped := true))
    else Some(Scanned(Append(s.sets, c), false))
  }

  function Scan(p: string): (r: Option<Scanned>)
    ensures r.Some? ==> r.value.sets != []
  {
    if p == "" then Some(Scanned([""], false))
    else
      var before := Scan(p[..|p| - 1]);
      if before.None? then None else ScanChar(before.value, p[|p| - 1])
  }

  /** The non-empty strings, in order. */
  function NonEmpty(sets: seq<string>): (r: seq<string>)
    ensures forall x :: x in r <==> x in sets && x != ""
  {
    if sets == [] then []
    else
      var last := sets[|sets| - 1];
      assert sets == sets[..|sets| - 1] + [last];
      NonEmpty(sets[..|sets| - 1]) + if last != "" then [last] else []
  }

  lemma {:induction false} ScanPrefix(p: string, n: nat)
    requires n <= |p| && Scan(p[..n]).None?
    ensures Scan(p).None?
    decreases |p| - n
  {
    if n == |p| {
      assert p[..n] == p;
    } else {
      assert p[..n + 1][..n] == p[..n];
      ScanPrefix(p, n + 1);
    }
  }

  lemma ScanNothing(p: string)
    ensures Scan(p[..0]) == Some(Scanned([""], false))
  {
  }

  lemma ScanNext(p: string, n: nat)
    requires n < |p|
    ensures Scan(p[..n + 1]) == var before := Scan(p[..n]); if before.None? then None else ScanChar(before.value, p[n])
  {
    assert p[..n + 1][..n] == p[..n];
  }

  function Wrapped(p: string): string {
    "^(?:" + p + ")$"
  }

  /** The set of a pattern: none unless it is wrapped and scanned to the end. */
  function SetMatches(pattern: string): seq<string> {
    if |pattern| < 6 || pattern[..4] != "^(?:" || pattern[|pattern| - 2..] != ")$" then []
    else
      var p := pattern[4..|pattern| - 2];
      if Scan(p).Some? then NonEmpty(Scan(p).value.sets) else []
  }

  lemma SetOfWrapped(p: string)
    ensures SetMatches(Wrapped(p)) == if Scan(p).Some? then NonEmpty(Scan(p).value.sets) else []
  {
    var w := Wrapped(p);
    assert w[..4] == "^(?:" && w[|w| - 2..] == ")$" && w[4..|w| - 2] == p;
  }

  /** `FindSetMatches`, on any pattern. */
  method FindSetMatches(pattern: string) returns (matches: seq<string>)
    ensures matches == SetMatches(pattern)
  {
    if |pattern| < 6 || pattern[..4] != "^(?:" || pattern[|pattern| - 2..] != ")$" {
      return [];
    }
    ghost var p := pattern[4..|pattern| - 2];
    ScanNothing(p);
    assert SetMatches(pattern) == if Scan(p).Some? then NonEmpty(Scan(p).value.sets) else [];
    hide *;
    var escaped := false;
    var sets := [""];
    var i := 4;
    while i < |pattern| - 2
      invariant 4 <= i <= |pattern| - 2 && sets != []
      invariant Scan(p[..i - 4]) == Some(Scanned(sets, escaped))
    {
      ScanNext(p, i - 4);
      var ok;
      ok, sets, escaped := TakeChar(sets, escaped, pattern[i]);
      if !ok {
        ScanPrefix(p, i - 3);
        return [];
      }
      i := i + 1;
    }
    assert p[..i - 4] == p;
    matches := KeepNonEmpty(sets);
  }

  /** The loop of `FindSetMatches`, at one character. */
  method TakeChar(sets: seq<string>, escaped: bool, c: char) returns (ok: bool, sets': seq<string>, escaped': bool)
    requires sets != []
    ensures sets' != []
    ensures ScanChar(Scanned(sets, escaped), c) == if ok then Some(Scanned(sets', escaped')) else None
  {
    ok, sets', escaped' := true, sets, escaped;
    if escaped {
      if Meta(c) {
        sets' := sets[|sets| - 1 := sets[|sets| - 1] + [c]];
      } else if c == '\\' {
        sets' := sets[|sets| - 1 := sets[|sets| - 1] + ['\\']];
      } else {
        return false, sets, escaped;
      }
      escaped' := false;
    } else {
      if Meta(c) {
        if c == '|' {
          sets' := sets + [""];
        } else {
          return false, sets, escaped;
        }
      } else if c == '\\' {
        escaped' := true;
      } else {
        sets' := sets[|sets| - 1 := sets[|sets| - 1] + [c]];
      }
    }
  }

  method KeepNonEmpty(sets: seq<string>) returns (matches: seq<string>)
    ensures matches == NonEmpty(sets)
  {
    matches := [];
    for j := 0 to |sets|
      invariant matches == NonEmpty(sets[..j])
    {
      assert sets[..j + 1][..j] == sets[..j];
      if |sets[j]| > 0 {
        matches := matches + [sets[j]];
      }
    }
    assert sets[..|sets|] == sets;
  }

  /** A pattern with a set is a wrapped one. */
  lemma SetOnlyWrapped(pattern: string) returns (p: string)
    requires SetMatches(pattern) != []
    ensures pattern == Wrapped(p) && Scan(p).Some?
  {
    p := pattern[4..|pattern| - 2];
    assert pattern == pattern[..4] + p + pattern[|pattern| - 2..];
  }

  // ----- what the scan accepts -----

  lemma EscapedLast(p: string)
    requires Scan(p).Some? && Scan(p).value.escaped
    ensures p != "" && p[|p| - 1] == '\\'
  {
  }

  /** An operator that is not escaped, other than the bar, makes an expression no set. */
  lemma OperatorsAreNoSets(p: string, i: nat)
    requires i < |p| && p[i] in ".+*?()[]{}^$" && (i > 0 ==> p[i - 1] != '\\')
    ensures SetMatches(Wrapped(p)) == []
  {
    SetOfWrapped(p);
    if Scan(p[..i]).None? {
      ScanPrefix(p, i);
    } else {
      if Scan(p[..i]).value.escaped {
        EscapedLast(p[..i]);
        assert false;
      }
      ScanNext(p, i);
      ScanPrefix(p, i + 1);
    }
  }

  ghost predicate IsPlain(p: string) {
    forall i :: 0 <= i < |p| ==> p[i] !in ".+*?()|[]{}^$\\"
  }

  lemma {:induction false} ScanPlain(p: string)
    requires IsPlain(p)
    ensures Scan(p) == Some(Scanned([p], false))
  {
    if p == "" {
      ScanNothing(p);
    } else {
      var front, last := p[..|p| - 1], p[|p| - 1];
      ScanPlain(front);
      ScanMore(front, last);
      assert !Meta(last) && last != '\\';
      hide Scan, Meta, IsPlain;
      assert front + [last] == p;
      assert Append([front], last) == [p];
    }
  }

  /** Without operators and escapes, an expression is the set of itself. */
  lemma PlainIsItself(p: string)
    requires IsPlain(p) && p != ""
    ensures SetMatches(Wrapped(p)) == [p]
  {
    ScanPlain(p);
    SetOfWrapped(p);
    hide Scan, SetMatches, Wrapped, IsPlain;
    assert [p][..0] == [] && NonEmpty([]) == [];
  }

  lemma ScanMore(p: string, c: char)
    ensures Scan(p + [c]) == if Scan(p).None? then None else ScanChar(Scan(p).value, c)
  {
    assert (p + [c])[..|p|] == p;
  }

  lemma TextMore(l: Literal, t: Token)
    ensures Text(l + [t]) == Text(l) + [t.c]
    ensures RenderLiteral(l + [t]) == RenderLiteral(l) + RenderToken(t)
  {
    assert (l + [t])[..|l|] == l;
  }

  /** Scanning a literal appends its text to the last string. */
  lemma ScanToken(q: string, sets: seq<string>, t: Token)
    requires sets != [] && Scan(q) == Some(Scanned(sets, false)) && IsToken(t)
    ensures Scan(q + RenderLiteral([t])) == Some(Scanned(Append(sets, t.c), false))
  {
    hide Scan, Append;
    assert [t][..0] == [];
    if t.Escaped? {
      ScanMore(q, '\\');
      ScanMore(q + ['\\'], t.c);
      assert q + ['\\'] + [t.c] == q + RenderLiteral([t]);
    } else {
      ScanMore(q, t.c);
      assert q + [t.c] == q + RenderLiteral([t]);
    }
  }

  lemma RenderMore(front: Literal, t: Token)
    ensures RenderLiteral(front + [t]) == RenderLiteral(front) + RenderLiteral([t])
  {
    assert (front + [t])[..|front|] == front && [t][..0] == [];
  }

  lemma {:induction false} ScanLiteral(p: string, sets: seq<string>, l: Literal)
    requires sets != [] && Scan(p) == Some(Scanned(sets, false)) && IsLiteral(l)
    ensures Scan(p + RenderLiteral(l)) == Some(Scanned(sets[|sets| - 1 := sets[|sets| - 1] + Text(l)], false))
  {
    hide Scan, Text;
    if l == [] {
      assert p + RenderLiteral(l) == p;
      assert Text(l) == "" by { NoText(); }
      assert sets[|sets| - 1] + "" == sets[|sets| - 1];
      assert sets[|sets| - 1 := sets[|sets| - 1]] == sets;
    } else {
      var front, t := l[..|l| - 1], l[|l| - 1];
      assert front + [t] == l && IsToken(t);
      ScanLiteral(p, sets, front);
      TextMore(front, t);
      var q := p + RenderLiteral(front);
      var sets1 := sets[|sets| - 1 := sets[|sets| - 1] + Text(front)];
      ScanToken(q, sets1, t);
      assert q + RenderLiteral([t]) == p + RenderLiteral(l) by { RenderMore(front, t); }
      assert sets[|sets| - 1] + Text(front) + [t.c] == sets[|sets| - 1] + Text(l);
      assert Append(sets1, t.c) == sets[|sets| - 1 := sets[|sets| - 1] + Text(l)];
    }
  }

  lemma NoText()
    ensures Text([]) == ""
  {
  }

  /** Every alternation of literals is taken apart into its strings. */
  lemma {:induction false} ScanRender(alts: seq<Literal>)
    requires IsAlternation(alts)
    ensures Scan(Render(alts)) == Some(Scanned(Texts(alts), false))
    decreases |alts|
  {
    hide Scan, RenderLiteral;
    var last := |alts| - 1;
    if last == 0 {
      assert Scan("") == Some(Scanned([""], false)) by { ScanNothing(""); }
      ScanLiteral("", [""], alts[0]);
      assert "" + RenderLiteral(alts[0]) == Render(alts);
      assert "" + Text(alts[0]) == Text(alts[0]);
      assert [""][0 := Text(alts[0])] == Texts(alts);
    } else {
      var front := alts[..last];
      ScanRender(front);
      var p, sets := Render(front) + "|", Texts(front) + [""];
      ScanMore(Render(front), '|');
      ScanLiteral(p, sets, alts[last]);
      assert "" + Text(alts[last]) == Text(alts[last]);
      assert sets[|sets| - 1 := Text(alts[last])] == Texts(alts);
    }
  }

  /** A pattern that was scanned to the end, as an alternation of literals. */
  ghost predicate Parsed(p: string, s: Scanned, alts: seq<Literal>) {
    IsAlternation(alts) && s.sets == Texts(alts) && p == Render(alts) + if s.escaped then "\\" else ""
  }

  lemma ParsedToken(p: string, sets: seq<string>, alts: seq<Literal>, t: Token)
    requires Parsed(p, Scanned(sets, false), alts) && IsToken(t)
    ensures alts != []
    ensures var alts' := alts[|alts| - 1 := alts[|alts| - 1] + [t]];
      Parsed(p + RenderToken(t), Scanned(Append(sets, t.c), false), alts')
  {
    hide Text, RenderLiteral;
    var last := |alts| - 1;
    var alts' := alts[last := alts[last] + [t]];
    TextMore(alts[last], t);
    assert Texts(alts') == Append(sets, t.c);
    assert last > 0 ==> alts'[..last] == alts[..last];
    assert Render(alts') == Render(alts) + RenderToken(t);
    forall i | 0 <= i < |alts'| ensures IsLiteral(alts'[i]) {
      assert IsLiteral(alts[i]);
    }
  }

  lemma ParsedStep(p: string, s: Scanned, alts: seq<Literal>, c: char) returns (alts': seq<Literal>)
    requires Parsed(p, s, alts) && ScanChar(s, c).Some?
    ensures Parsed(p + [c], ScanChar(s, c).value, alts')
  {
    hide Texts, Render, Parsed;
    if s.escaped {
      var q := Unescaped(p, s, alts);
      ParsedToken(q, s.sets, alts, Escaped(c));
      assert q + RenderToken(Escaped(c)) == p + [c];
      alts' := alts[|alts| - 1 := alts[|alts| - 1] + [Escaped(c)]];
    } else if c == '|' {
      ParsedBar(p, s.sets, alts);
      alts' := alts + [[]];
    } else if c == '\\' {
      ParsedEscape(p, s.sets, alts);
      alts' := alts;
    } else {
      ParsedToken(p, s.sets, alts, Plain(c));
      alts' := alts[|alts| - 1 := alts[|alts| - 1] + [Plain(c)]];
    }
  }

  lemma Unescaped(p: string, s: Scanned, alts: seq<Literal>) returns (q: string)
    requires Parsed(p, s, alts) && s.escaped
    ensures p == q + ['\\'] && alts != [] && Parsed(q, Scanned(s.sets, false), alts)
  {
    q := Render(alts);
    assert q + "" == q;
  }

  lemma ParsedEscape(p: string, sets: seq<string>, alts: seq<Literal>)
    requires Parsed(p, Scanned(sets, false), alts)
    ensures Parsed(p + ['\\'], Scanned(sets, true), alts)
  {
    assert Render(alts) + "" == Render(alts);
  }

  /** And nothing else is: what was scanned is an alternation of literals, up to a backslash
      left over at the end, which no valid regular expression has. */
  lemma {:induction false} ScanParses(p: string) returns (alts: seq<Literal>)
    requires Scan(p).Some?
    ensures Parsed(p, Scan(p).value, alts)
  {
    if p == "" {
      alts := [[]];
      assert Texts(alts) == [""];
    } else {
      var q, c := p[..|p| - 1], p[|p| - 1];
      assert p == q + [c];
      alts := ScanParses(q);
      alts := ParsedStep(q, Scan(q).value, alts, c);
    }
  }

  lemma ParsedBar(p: string, sets: seq<string>, alts: seq<Literal>)
    requires Parsed(p, Scanned(sets, false), alts)
    ensures Parsed(p + ['|'], Scanned(sets + [""], false), alts + [[]])
  {
    var alts' := alts + [[]];
    assert alts'[..|alts|] == alts;
    assert Texts(alts') == sets + [""];
    forall i | 0 <= i < |alts'| ensures IsLiteral(alts'[i]) {
      if i < |alts| {
        assert IsLiteral(alts[i]);
      }
    }
  }

  // ----- matchers -----

  datatype MatchType = MatchEqual | MatchNotEqual | MatchRegexp | MatchNotRegexp

  datatype Matcher = Matcher(kind: MatchType, name: string, value: string) {
    predicate IsNot() {
      kind == MatchNotEqual || kind == MatchNotRegexp
    }

    function Inverse(): Matcher {
      this.(kind := match kind
                    case MatchEqual => MatchNotEqual
                    case MatchNotEqual => MatchEqual
                    case MatchRegexp => MatchNotRegexp
                    case MatchNotRegexp => MatchRegexp)
    }
  }

  /** Whether a regular expression accepts a string: code outside the repository. */
  type Engine = (string, string) -> bool

  predicate Matches(re: Engine, m: Matcher, s: string) {
    match m.kind
    case MatchEqual => s == m.value
    case MatchNotEqual => s != m.value
    case MatchRegexp => re(Wrapped(m.value), s)
    case MatchNotRegexp => !re(Wrapped(m.value), s)
  }

  /** Of the engine, only the meaning of alternations of literals is needed. */
  ghost predicate LiteralEngine(re: Engine) {
    forall alts: seq<Literal>, s :: IsAlternation(alts) ==> (re(Wrapped(Render(alts)), s) <==> s in Texts(alts))
  }

  /** No expression that compiles ends in a lone backslash. */
  ghost predicate Compiles(m: Matcher) {
    m.kind in {MatchRegexp, MatchNotRegexp} && Scan(m.value).Some? ==> !Scan(m.value).value.escaped
  }

  /** The set found for a regular expression holds exactly the non-empty strings it accepts. */
  lemma SetIsExact(re: Engine, m: Matcher, s: string)
    requires LiteralEngine(re) && Compiles(m) && m.kind == MatchRegexp && Scan(m.value).Some?
    ensures s in NonEmpty(Scan(m.value).value.sets) <==> s != "" && Matches(re, m, s)
  {
    hide Scan, Render, Texts, Wrapped;
    var alts := ScanParses(m.value);
    assert Render(alts) + "" == Render(alts);
    assert m.value == Render(alts);
  }

  /** Anchoring an alternation of literals twice changes nothing. */
  ghost predicate AnchorsOnce(re: Engine) {
    forall alts: seq<Literal>, s ::
      IsAlternation(alts) ==> re(Wrapped(Wrapped(Render(alts))), s) == re(Wrapped(Render(alts)), s)
  }

  /** No expression that compiles, and is anchored already, ends in a lone backslash before its end. */
  ghost predicate CompilesAnchored(m: Matcher) {
    m.kind in {MatchRegexp, MatchNotRegexp} ==> forall p :: m.value == Wrapped(p) && Scan(p).Some? ==> !Scan(p).value.escaped
  }

  /** The same for an expression that already comes anchored. */
  lemma AnchoredSetIsExact(re: Engine, m: Matcher, s: string)
    requires LiteralEngine(re) && AnchorsOnce(re) && CompilesAnchored(m) && m.kind == MatchRegexp && SetMatches(m.value) != []
    ensures s in SetMatches(m.value) <==> s != "" && Matches(re, m, s)
  {
    hide Scan, LiteralEngine, NonEmpty, SetMatches, Wrapped;
    var p := SetOnlyWrapped(m.value);
    SetOfWrapped(p);
    var alts := ScanParses(p);
    assert Render(alts) + "" == Render(alts);
    assert p == Render(alts);
    var inner := m.(value := p);
    SetIsExact(re, inner, s);
  }
}
