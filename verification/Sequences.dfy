/** Definitions and facts shared by the components. */
module Sequences {

  datatype Option<+T> = None | Some(value: T)

  function Reverse<T>(s: seq<T>): (r: seq<T>)
    ensures |r| == |s| && forall i :: 0 <= i < |s| ==> r[i] == s[|s| - 1 - i]
  {
    seq(|s|, i requires 0 <= i < |s| => s[|s| - 1 - i])
  }

  /** The concatenation of a sequence of sequences. */
  function Flatten<T>(ss: seq<seq<T>>): (r: seq<T>)
  {
    if ss == [] then [] else ss[0] + Flatten(ss[1..])
  }

  lemma SeqAssociative<T>(a: seq<T>, b: seq<T>, c: seq<T>)
    ensures a + (b + c) == a + b + c
  {
  }

  lemma {:induction false} FlattenConcat<T>(a: seq<seq<T>>, b: seq<seq<T>>)
    ensures Flatten(a + b) == Flatten(a) + Flatten(b)
  {
    if a == [] {
      assert a + b == b;
    } else {
      calc {
        Flatten(a + b);
      == { assert (a + b)[0] == a[0] && (a + b)[1..] == a[1..] + b; }
        a[0] + Flatten(a[1..] + b);
      == { FlattenConcat(a[1..], b); }
        a[0] + (Flatten(a[1..]) + Flatten(b));
      == { SeqAssociative(a[0], Flatten(a[1..]), Flatten(b)); }
        Flatten(a) + Flatten(b);
      }
    }
  }

  lemma FlattenMore<T>(a: seq<seq<T>>, b: seq<T>)
    ensures Flatten(a + [b]) == Flatten(a) + b
  {
    FlattenConcat(a, [b]);
    assert Flatten([b]) == b + Flatten([b][1..]);
  }

  lemma FlattenNone<T>()
    ensures Flatten<T>([]) == []
  {
  }

  lemma FlattenOne<T>(a: seq<T>)
    ensures Flatten([a]) == a
  {
    assert Flatten([a]) == a + Flatten([a][1..]);
  }

  lemma FlattenNext<T>(ss: seq<seq<T>>, k: nat)
    requires k < |ss|
    ensures Flatten(ss[..k + 1]) == Flatten(ss[..k]) + ss[k]
  {
    hide Flatten;
    assert ss[..k + 1] == ss[..k] + [ss[k]];
    FlattenMore(ss[..k], ss[k]);
  }

  lemma FlattenSplit<T>(ss: seq<seq<T>>, k: nat)
    requires k <= |ss|
    ensures Flatten(ss) == Flatten(ss[..k]) + Flatten(ss[k..])
  {
    hide Flatten;
    assert ss == ss[..k] + ss[k..];
    FlattenConcat(ss[..k], ss[k..]);
  }

  lemma FlattenAround<T>(ss: seq<seq<T>>, k: nat)
    requires k < |ss|
    ensures Flatten(ss) == Flatten(ss[..k]) + ss[k] + Flatten(ss[k + 1..])
  {
    hide Flatten;
    FlattenNext(ss, k);
    FlattenSplit(ss, k + 1);
  }

  lemma {:induction false} FlattenEmpty<T>(ss: seq<seq<T>>)
    requires forall k :: 0 <= k < |ss| ==> ss[k] == []
    ensures Flatten(ss) == []
  {
    if ss != [] {
      FlattenEmpty(ss[1..]);
    }
  }

  /** The number of elements that precede part `k` in the concatenation. */
  function Offset<T>(ss: seq<seq<T>>, k: nat): nat
    requires k <= |ss|
  {
    |Flatten(ss[..k])|
  }

  /** Part `k` occupies exactly the positions between its offset and the next. */
  lemma {:induction false} FlattenPart<T>(ss: seq<seq<T>>, k: nat)
    requires k < |ss|
    ensures Offset(ss, k + 1) == Offset(ss, k) + |ss[k]| <= |Flatten(ss)|
    ensures Flatten(ss)[Offset(ss, k)..Offset(ss, k + 1)] == ss[k]
  {
    FlattenConcat(ss[..k], ss[k..k + 1]);
    FlattenConcat(ss[..k + 1], ss[k + 1..]);
    assert ss[..k + 1] == ss[..k] + ss[k..k + 1];
    assert ss == ss[..k + 1] + ss[k + 1..];
    assert Flatten(ss[k..k + 1]) == ss[k] + Flatten(ss[k..k + 1][1..]) == ss[k];
  }

  lemma {:induction false} OffsetEnds<T>(ss: seq<seq<T>>)
    ensures Offset(ss, 0) == 0 && Offset(ss, |ss|) == |Flatten(ss)|
  {
    assert ss[..|ss|] == ss;
  }

  lemma {:induction false} OffsetMonotone<T>(ss: seq<seq<T>>, j: nat, k: nat)
    requires j <= k <= |ss|
    ensures Offset(ss, j) <= Offset(ss, k) <= |Flatten(ss)|
  {
    FlattenConcat(ss[..j], ss[j..k]);
    FlattenConcat(ss[..k], ss[k..]);
    assert ss[..k] == ss[..j] + ss[j..k];
    assert ss == ss[..k] + ss[k..];
  }

  lemma NoElements<T(!new)>(s: set<T>)
    requires forall x :: x !in s
    ensures s == {}
  {
  }

  lemma Element<T(!new)>(s: set<T>) returns (x: T)
    requires s != {}
    ensures x in s
  {
    if !exists y :: y in s {
      NoElements(s);
      assert false;
    }
    x :| x in s;
  }

  ghost predicate Distinct<T>(s: seq<T>) {
    forall i, j :: 0 <= i < j < |s| ==> s[i] != s[j]
  }

  ghost predicate Injective<A(!new), B>(f: A -> B) {
    forall a, b :: f(a) == f(b) ==> a == b
  }

  // ----- lexicographic order -----

  /** `a` and `b` agree on the first `k` elements; then `a` ends, or has the lesser element. */
  ghost predicate DiffersAt<T>(less: (T, T) -> bool, a: seq<T>, b: seq<T>, k: nat) {
    && k <= |a| && k < |b| && a[..k] == b[..k]
    && (k < |a| ==> less(a[k], b[k]))
  }

  ghost predicate Lexicographic<T>(less: (T, T) -> bool, a: seq<T>, b: seq<T>) {
    exists k: nat :: DiffersAt(less, a, b, k)
  }

  lemma LexicographicEnd<T>(less: (T, T) -> bool, a: seq<T>, b: seq<T>)
    requires a == [] || b == []
    ensures Lexicographic(less, a, b) <==> b != []
  {
    if b != [] {
      assert DiffersAt(less, a, b, 0);
    }
  }

  lemma LexicographicNext<T>(less: (T, T) -> bool, a: seq<T>, b: seq<T>)
    requires a != [] && b != []
    ensures Lexicographic(less, a, b) <==> less(a[0], b[0]) || (a[0] == b[0] && Lexicographic(less, a[1..], b[1..]))
  {
    if less(a[0], b[0]) {
      assert DiffersAt(less, a, b, 0);
    }
    if k: nat :| DiffersAt(less, a, b, k) && k > 0 {
      assert a[0] == a[..k][0] && b[0] == b[..k][0];
      assert a[1..][..k - 1] == a[..k][1..] && b[1..][..k - 1] == b[..k][1..];
      assert DiffersAt(less, a[1..], b[1..], k - 1);
    }
    if k: nat :| a[0] == b[0] && DiffersAt(less, a[1..], b[1..], k) {
      assert a[..k + 1] == [a[0]] + a[1..][..k] && b[..k + 1] == [b[0]] + b[1..][..k];
      assert DiffersAt(less, a, b, k + 1);
    }
  }

  // ----- sorting -----

  ghost predicate Ordered<T>(le: (T, T) -> bool, s: seq<T>) {
    forall i, j {:trigger s[i], s[j]} :: 0 <= i < j < |s| ==> le(s[i], s[j])
  }

  ghost predicate TotalPreorder<T(!new)>(le: (T, T) -> bool) {
    && (forall a, b :: le(a, b) || le(b, a))
    && (forall a, b, c :: le(a, b) && le(b, c) ==> le(a, c))
  }

  lemma InsertOrdered<T(!new)>(le: (T, T) -> bool, s: seq<T>, x: T, k: nat)
    requires TotalPreorder(le) && Ordered(le, s) && k <= |s|
    requires forall m :: 0 <= m < k ==> le(s[m], x)
    requires k < |s| ==> !le(s[k], x)
    ensures Ordered(le, s[..k] + [x] + s[k..])
  {
    if k < |s| {
      var y := s[k];
      assert le(x, y);
      forall m | k <= m < |s| ensures le(x, s[m]) {
        assert k < m ==> le(y, s[m]);
      }
    }
  }

  method Insert<T(!new)>(le: (T, T) -> bool, s: seq<T>, x: T) returns (r: seq<T>)
    requires TotalPreorder(le) && Ordered(le, s)
    ensures Ordered(le, r) && multiset(r) == multiset(s) + multiset{x}
  {
    hide TotalPreorder, Ordered;
    var k := 0;
    while k < |s| && le(s[k], x)
      invariant k <= |s| && forall m :: 0 <= m < k ==> le(s[m], x)
    {
      k := k + 1;
    }
    assert s == s[..k] + s[k..];
    r := s[..k] + [x] + s[k..];
    InsertOrdered(le, s, x, k);
  }

  /** `sort.Sort`. */
  method SortBy<T(!new)>(le: (T, T) -> bool, s: seq<T>) returns (r: seq<T>)
    requires TotalPreorder(le)
    ensures Ordered(le, r) && multiset(r) == multiset(s)
  {
    r := [];
    for i := 0 to |s|
      invariant Ordered(le, r) && multiset(r) == multiset(s[..i])
    {
      hide TotalPreorder, Ordered;
      assert s[..i + 1] == s[..i] + [s[i]];
      r := Insert(le, r, s[i]);
    }
    assert s[..|s|] == s;
  }

  // ----- names by id -----

  ghost predicate InRange(n: nat, ids: seq<nat>) {
    forall i :: 0 <= i < |ids| ==> ids[i] < n
  }

  function NamesAt(names: seq<string>, ids: seq<nat>): (r: seq<string>)
    requires InRange(|names|, ids)
  {
    seq(|ids|, i requires 0 <= i < |ids| => names[ids[i]])
  }

  // ----- numbers in ascending order -----

  method Least(s: set<int>) returns (least: int)
    requires s != {}
    ensures least in s && forall x :: x in s ==> least <= x
  {
    ghost var w := Element(s);
    least :| least in s;
    var rest := s - {least};
    while rest != {}
      invariant rest <= s && least in s && forall x :: x in s ==> x in rest || least <= x
    {
      ghost var y := Element(rest);
      var x :| x in rest;
      if x < least {
        least := x;
      }
      rest := rest - {x};
    }
  }

  /** `rs` lists the elements of `s`, from the least to the greatest. */
  ghost predicate Lists(rs: seq<int>, s: set<int>) {
    && (forall i, j :: 0 <= i < j < |rs| ==> rs[i] < rs[j])
    && (forall x :: x in rs <==> x in s)
    && (forall i :: 0 <= i < |rs| ==> rs[i] in s)
  }

  method AscendingIds(ids: set<int>) returns (rs: seq<int>)
    ensures Lists(rs, ids)
  {
    rs := [];
    var left := ids;
    while left != {}
      invariant left <= ids
      invariant forall x :: x in ids <==> x in rs || x in left
      invariant forall i, x :: 0 <= i < |rs| && x in left ==> rs[i] < x
      invariant forall i, j :: 0 <= i < j < |rs| ==> rs[i] < rs[j]
    {
      var least := Least(left);
      rs := rs + [least];
      left := left - {least};
    }
  }

  // ----- what a predicate keeps -----

  ghost function Places<T>(s: seq<T>, keep: T -> bool): set<int> {
    set i | 0 <= i < |s| && keep(s[i])
  }

  ghost predicate FoundAt<T>(s: seq<T>, places: seq<int>, r: seq<T>) {
    && |r| == |places|
    && forall i :: 0 <= i < |r| ==> 0 <= places[i] < |s| && r[i] == s[places[i]]
  }

  /** `r` has what `keep` holds of in `s`, in the same order. */
  ghost predicate Filtered<T>(s: seq<T>, keep: T -> bool, r: seq<T>) {
    exists places :: Lists(places, Places(s, keep)) && FoundAt(s, places, r)
  }

  lemma FilteredNone<T>(keep: T -> bool)
    ensures Filtered([], keep, [])
  {
    assert Lists([], Places([], keep)) && FoundAt<T>([], [], []);
  }

  lemma FilteredMore<T>(s: seq<T>, x: T, keep: T -> bool, r: seq<T>)
    requires Filtered(s, keep, r)
    ensures Filtered(s + [x], keep, r + if keep(x) then [x] else [])
  {
    var places :| Lists(places, Places(s, keep)) && FoundAt(s, places, r);
    if keep(x) {
      assert Places(s + [x], keep) == Places(s, keep) + {|s|};
      ListsMore(places, Places(s, keep), |s|);
      hide Lists, Places;
      assert FoundAt(s + [x], places + [|s|], r + [x]);
    } else {
      assert Places(s + [x], keep) == Places(s, keep);
      hide Lists, Places;
      assert FoundAt(s + [x], places, r);
      assert r + [] == r;
    }
  }

  lemma ListsMore(rs: seq<int>, s: set<int>, x: int)
    requires Lists(rs, s) && forall y :: y in s ==> y < x
    ensures Lists(rs + [x], s + {x})
  {
    forall y ensures y in rs + [x] <==> y in s + {x} {
    }
  }
}
