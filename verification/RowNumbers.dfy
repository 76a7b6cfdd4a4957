/** Row numbers of values in nested columns. */
module RowNumbers {

  /** One counter per level of nesting; -1 stands for undefined. */
  type RowNumber = t: seq<int> | |t| == 6 witness [-1, -1, -1, -1, -1, -1]

  function EmptyRowNumber(): RowNumber { [-1, -1, -1, -1, -1, -1] }

  /** The row number after a value with the given levels. */
  function NextRow(t: RowNumber, repetitionLevel: nat, definitionLevel: nat): RowNumber
    requires repetitionLevel < 6 && definitionLevel < 6
  {
    seq(6, i requires 0 <= i < 6 =>
      if i < repetitionLevel && i <= definitionLevel then t[i]
      else if i == repetitionLevel && i <= definitionLevel then t[i] + 1
      else if i <= definitionLevel then 0
      else -1)
  }

  /** The row number after `n` rows at the root level have been left out. */
  function SkipRows(t: RowNumber, n: int): RowNumber {
    [t[0] + n, -1, -1, -1, -1, -1]
  }

  /** `a` comes before `b`, looking at the levels down to `level`. */
  ghost predicate RowBefore(level: nat, a: RowNumber, b: RowNumber)
    requires level < 6
  {
    exists k :: 0 <= k <= level && a[..k] == b[..k] && a[k] < b[k]
  }

  /** `a` and `b` are the same row, looking at the levels down to `level`. */
  ghost predicate SameRow(level: nat, a: RowNumber, b: RowNumber)
    requires level < 6
  {
    a[..level + 1] == b[..level + 1]
  }

  /** `RowNumber.Next`, in place. */
  method Next(t: array<int>, repetitionLevel: nat, definitionLevel: nat)
    requires t.Length == 6 && repetitionLevel <= definitionLevel < 6
    modifies t
    ensures t[..] == NextRow(old(t[..]), repetitionLevel, definitionLevel)
  {
    t[repetitionLevel] := t[repetitionLevel] + 1;
    for i := repetitionLevel + 1 to definitionLevel + 1
      invariant forall k :: 0 <= k < repetitionLevel ==> t[k] == old(t[k])
      invariant t[repetitionLevel] == old(t[repetitionLevel]) + 1
      invariant forall k :: repetitionLevel < k < i ==> t[k] == 0
    {
      t[i] := 0;
    }
    for i := definitionLevel + 1 to t.Length
      invariant forall k :: 0 <= k < repetitionLevel ==> t[k] == old(t[k])
      invariant t[repetitionLevel] == old(t[repetitionLevel]) + 1
      invariant forall k :: repetitionLevel < k <= definitionLevel ==> t[k] == 0
      invariant forall k :: definitionLevel < k < i ==> t[k] == -1
    {
      t[i] := -1;
    }
  }

  /** `RowNumber.Skip`, in place. */
  method Skip(t: array<int>, numRows: int)
    requires t.Length == 6
    modifies t
    ensures t[..] == SkipRows(old(t[..]), numRows)
  {
    t[0] := t[0] + numRows;
    for i := 1 to t.Length
      invariant t[0] == old(t[0]) + numRows
      invariant forall k :: 1 <= k < i ==> t[k] == -1
    {
      t[i] := -1;
    }
  }

  /** `CompareRowNumbers`. */
  method CompareRowNumbers(upToDefinitionLevel: nat, a: RowNumber, b: RowNumber) returns (c: int)
    requires upToDefinitionLevel < 6
    ensures c in {-1, 0, 1}
    ensures c == -1 <==> RowBefore(upToDefinitionLevel, a, b)
    ensures c == 1 <==> RowBefore(upToDefinitionLevel, b, a)
    ensures c == 0 <==> SameRow(upToDefinitionLevel, a, b)
  {
    for i := 0 to upToDefinitionLevel + 1
      invariant a[..i] == b[..i]
    {
      if a[i] < b[i] {
        RowOrder(upToDefinitionLevel, a, b, b);
        return -1;
      }
      if a[i] > b[i] {
        RowOrder(upToDefinitionLevel, b, a, a);
        return 1;
      }
    }
    RowOrder(upToDefinitionLevel, a, b, b);
    return 0;
  }

  /** The comparison orders row numbers totally, up to the chosen level. */
  lemma RowOrder(level: nat, a: RowNumber, b: RowNumber, c: RowNumber)
    requires level < 6
    ensures RowBefore(level, a, b) || SameRow(level, a, b) || RowBefore(level, b, a)
    ensures SameRow(level, a, b) ==> !RowBefore(level, a, b) && !RowBefore(level, b, a)
    ensures !(RowBefore(level, a, b) && RowBefore(level, b, a))
    ensures RowBefore(level, a, b) && RowBefore(level, b, c) ==> RowBefore(level, a, c)
    ensures SameRow(level, a, b) ==> (RowBefore(level, a, c) <==> RowBefore(level, b, c)) && (RowBefore(level, c, a) <==>
            RowBefore(level, c, b))
  {
    FirstDifference(level, a, b);
    if RowBefore(level, a, b) && RowBefore(level, b, c) {
      var k :| 0 <= k <= level && a[..k] == b[..k] && a[k] < b[k];
      var m :| 0 <= m <= level && b[..m] == c[..m] && b[m] < c[m];
      var n := if k < m then k else m;
      PrefixOf(a, b, k, n);
      PrefixOf(b, c, m, n);
      if k < m {
        SameAt(b, c, m, k);
      } else if m < k {
        SameAt(a, b, k, m);
      }
      assert a[..n] == c[..n] && a[n] < c[n];
    }
    if SameRow(level, a, b) {
      forall k | 0 <= k <= level
        ensures a[..k] == b[..k] && a[k] == b[k]
      {
        PrefixOf(a, b, level + 1, k);
        SameAt(a, b, level + 1, k);
      }
    }
  }

  lemma PrefixOf(a: RowNumber, b: RowNumber, k: nat, n: nat)
    requires n <= k <= 6 && a[..k] == b[..k]
    ensures a[..n] == b[..n]
  {
    assert a[..n] == a[..k][..n] && b[..n] == b[..k][..n];
  }

  lemma SameAt(a: RowNumber, b: RowNumber, k: nat, n: nat)
    requires n < k <= 6 && a[..k] == b[..k]
    ensures a[n] == b[n]
  {
    assert a[n] == a[..k][n] && b[n] == b[..k][n];
  }

  lemma {:induction false} FirstDifference(level: nat, a: RowNumber, b: RowNumber)
    requires level < 6
    ensures RowBefore(level, a, b) || SameRow(level, a, b) || RowBefore(level, b, a)
    ensures !(RowBefore(level, a, b) && RowBefore(level, b, a))
  {
    if level > 0 {
      FirstDifference(level - 1, a, b);
    } else {
      assert a[..0] == b[..0];
    }
    assert SameRow(level, a, b) || a[level] != b[level] || (level > 0 && !SameRow(level - 1, a, b));
    if k, m :| 0 <= k <= level && a[..k] == b[..k] && a[k] < b[k] && 0 <= m <= level && b[..m] == a[..m] && b[m] < a[m] {
      if k < m {
        SameAt(b, a, m, k);
      } else if m < k {
        SameAt(a, b, k, m);
      }
    }
  }
}
