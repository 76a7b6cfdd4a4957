/** Label sets and the order used by every merge of profile streams. */
module Labels {
  import opened Sequences

  datatype LabelPair = LabelPair(name: string, value: string)
  type LabelSet = seq<LabelPair>

  /** Three-way comparison of strings by character. */
  function CompareStrings(a: string, b: string): (c: int)
    ensures c == 0 <==> a == b
  {
    if a == [] then (if b == [] then 0 else -1)
    else if b == [] then 1
    else if a[0] < b[0] then -1
    else if a[0] > b[0] then 1
    else
      assert a == [a[0]] + a[1..] && b == [b[0]] + b[1..];
      CompareStrings(a[1..], b[1..])
  }

  lemma {:induction false} CompareStringsOrder(a: string, b: string, c: string)
    ensures CompareStrings(a, b) < 0 <==> CompareStrings(b, a) > 0
    ensures CompareStrings(a, b) < 0 && CompareStrings(b, c) < 0 ==> CompareStrings(a, c) < 0
    decreases |a| + |b| + |c|
  {
    if a != [] && b != [] {
      CompareStringsOrder(a[1..], b[1..], if c == [] then c else c[1..]);
    }
  }

  predicate CharBefore(a: char, b: char) {
    a < b
  }

  /** The first differing character decides; a prefix comes first. */
  ghost predicate StringBefore(a: string, b: string) {
    Lexicographic(CharBefore, a, b)
  }

  lemma {:induction false} StringsCompare(a: string, b: string)
    ensures CompareStrings(a, b) < 0 <==> StringBefore(a, b)
    ensures CompareStrings(a, b) > 0 <==> StringBefore(b, a)
  {
    if a == [] || b == [] {
      LexicographicEnd(CharBefore, a, b);
      LexicographicEnd(CharBefore, b, a);
    } else {
      LexicographicNext(CharBefore, a, b);
      LexicographicNext(CharBefore, b, a);
      StringsCompare(a[1..], b[1..]);
    }
  }

  ghost predicate LabelBefore(a: LabelPair, b: LabelPair) {
    StringBefore(a.name, b.name) || (a.name == b.name && StringBefore(a.value, b.value))
  }

  /** The first differing label decides by its name, then by its value; a prefix comes first. */
  ghost predicate LabelsBefore(a: LabelSet, b: LabelSet) {
    Lexicographic(LabelBefore, a, b)
  }

  lemma {:induction false} LabelsCompare(a: LabelSet, b: LabelSet)
    ensures Compare(a, b) < 0 <==> LabelsBefore(a, b)
    ensures Compare(a, b) > 0 <==> LabelsBefore(b, a)
  {
    hide CompareStrings, StringBefore;
    if a == [] || b == [] {
      LexicographicEnd(LabelBefore, a, b);
      LexicographicEnd(LabelBefore, b, a);
    } else {
      LexicographicNext(LabelBefore, a, b);
      LexicographicNext(LabelBefore, b, a);
      StringsCompare(a[0].name, b[0].name);
      StringsCompare(a[0].value, b[0].value);
      LabelsCompare(a[1..], b[1..]);
    }
  }

  /** `CompareLabelPairs`, on values. */
  function Compare(a: LabelSet, b: LabelSet): int
  {
    if a == [] || b == [] then |a| - |b|
    else if a[0].name != b[0].name then CompareStrings(a[0].name, b[0].name)
    else if a[0].value != b[0].value then CompareStrings(a[0].value, b[0].value)
    else Compare(a[1..], b[1..])
  }

  /** Only equal label sets compare as equal. */
  lemma {:induction false} CompareZero(a: LabelSet, b: LabelSet)
    ensures Compare(a, b) == 0 <==> a == b
  {
    if a != [] && b != [] {
      assert a == [a[0]] + a[1..] && b == [b[0]] + b[1..];
      CompareZero(a[1..], b[1..]);
    }
  }

  lemma {:induction false} CompareAntisymmetric(a: LabelSet, b: LabelSet)
    ensures Compare(a, b) < 0 <==> Compare(b, a) > 0
  {
    if a != [] && b != [] {
      CompareStringsOrder(a[0].name, b[0].name, []);
      CompareStringsOrder(a[0].value, b[0].value, []);
      CompareAntisymmetric(a[1..], b[1..]);
    }
  }

  lemma {:induction false} CompareTransitive(a: LabelSet, b: LabelSet, c: LabelSet)
    requires Compare(a, b) < 0 && Compare(b, c) < 0
    ensures Compare(a, c) < 0
  {
    if a != [] && b != [] && c != [] {
      CompareStringsOrder(a[0].name, b[0].name, c[0].name);
      CompareStringsOrder(a[0].value, b[0].value, c[0].value);
      if a[0] == b[0] == c[0] {
        CompareTransitive(a[1..], b[1..], c[1..]);
      }
    }
  }

  /** `CompareLabelPairs`: the sign tells the order. */
  method CompareLabelPairs(a: LabelSet, b: LabelSet) returns (c: int)
    ensures c < 0 <==> LabelsBefore(a, b)
    ensures c > 0 <==> LabelsBefore(b, a)
    ensures c == 0 <==> a == b
  {
    CompareZero(a, b);
    LabelsCompare(a, b);
    hide LabelsBefore;
    var l := |a|;
    if |b| < l {
      l := |b|;
    }
    for i := 0 to l
      invariant Compare(a, b) == Compare(a[i..], b[i..])
    {
      if a[i].name != b[i].name {
        return if CompareStrings(a[i].name, b[i].name) < 0 then -1 else 1;
      }
      if a[i].value != b[i].value {
        return if CompareStrings(a[i].value, b[i].value) < 0 then -1 else 1;
      }
    }
    return |a| - |b|;
  }

  lemma LabelsOrder(a: LabelSet, b: LabelSet, c: LabelSet)
    ensures LabelsBefore(a, b) || a == b || LabelsBefore(b, a)
    ensures LabelsBefore(a, b) && LabelsBefore(b, c) ==> LabelsBefore(a, c)
  {
    hide LabelsBefore, Compare;
    LabelsCompare(a, b);
    LabelsCompare(b, c);
    LabelsCompare(a, c);
    CompareZero(a, b);
    if LabelsBefore(a, b) && LabelsBefore(b, c) {
      CompareTransitive(a, b, c);
    }
  }

  /** What identifies a profile across ingesters. */
  datatype ProfileKey = ProfileKey(timestamp: int, labels: LabelSet)

  /** Profiles are ordered by timestamp, then by labels (`Less` of the profile heaps). */
  predicate Before(p: ProfileKey, q: ProfileKey) {
    if p.timestamp == q.timestamp then Compare(p.labels, q.labels) < 0 else p.timestamp < q.timestamp
  }

  /** `Before` is the strict total order by timestamp and, at equal timestamps, by labels. */
  lemma BeforeIsTotalOrder(p: ProfileKey, q: ProfileKey, r: ProfileKey)
    ensures Before(p, q) <==> p.timestamp < q.timestamp || (p.timestamp == q.timestamp && LabelsBefore(p.labels, q.labels))
    ensures !Before(p, p)
    ensures Before(p, q) || p == q || Before(q, p)
    ensures Before(p, q) && Before(q, r) ==> Before(p, r)
  {
    hide LabelsBefore;
    LabelsCompare(p.labels, q.labels);
    CompareZero(p.labels, q.labels);
    CompareZero(p.labels, p.labels);
    CompareAntisymmetric(p.labels, q.labels);
    CompareAntisymmetric(q.labels, p.labels);
    if Before(p, q) && Before(q, r) && p.timestamp == q.timestamp == r.timestamp {
      CompareTransitive(p.labels, q.labels, r.labels);
    }
  }

  ghost predicate Ascending(ps: seq<ProfileKey>) {
    forall i, j :: 0 <= i < j < |ps| ==> Before(ps[i], ps[j])
  }
}
