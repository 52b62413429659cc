/**
 * Sorting as the server uses it: `sort.Strings` over identifiers and
 * `sort.Slice` with a key comparison. Both are library calls; the model gives
 * them one definition, an insertion sort by a total preorder, and proves that
 * its result is ordered and a permutation of its input.
 */
module Sorting {
  import opened Text

  /** `le` relates every two values one way or the other. */
  ghost predicate Total<T(!new)>(le: (T, T) -> bool)
  {
    forall a, b :: le(a, b) || le(b, a)
  }

  ghost predicate Transitive<T(!new)>(le: (T, T) -> bool)
  {
    forall a, b, c :: le(a, b) && le(b, c) ==> le(a, c)
  }

  predicate SortedBy<T>(s: seq<T>, le: (T, T) -> bool)
  {
    forall i, j :: 0 <= i < j < |s| ==> le(s[i], s[j])
  }

  predicate NoDuplicates<T(==)>(s: seq<T>)
  {
    forall i, j :: 0 <= i < j < |s| ==> s[i] != s[j]
  }

  /** Insert `x` before the first element of `s` that it precedes. */
  function Insert<T>(x: T, s: seq<T>, le: (T, T) -> bool): (r: seq<T>)
    ensures multiset(r) == multiset(s) + multiset{x}
    ensures |r| == |s| + 1
  {
    if |s| == 0 then [x]
    else if le(x, s[0]) then [x] + s
    else
      assert s == [s[0]] + s[1..];
      [s[0]] + Insert(x, s[1..], le)
  }

  lemma {:induction false} InsertSorted<T(!new)>(x: T, s: seq<T>, le: (T, T) -> bool)
    requires Total(le) && Transitive(le)
    requires SortedBy(s, le)
    ensures SortedBy(Insert(x, s, le), le)
  {
    if |s| > 0 {
      if le(x, s[0]) {
        forall j | 0 < j < |s| ensures le(x, s[j]) {
          assert le(s[0], s[j]);
        }
      } else {
        var t := Insert(x, s[1..], le);
        InsertSorted(x, s[1..], le);
        assert le(s[0], x);
        forall j | 0 <= j < |t| ensures le(s[0], t[j]) {
          assert t[j] in multiset(t);
          if t[j] != x {
            assert t[j] in multiset(s[1..]);
            var k :| 0 <= k < |s[1..]| && s[1..][k] == t[j];
            assert le(s[0], s[k + 1]);
          }
        }
      }
    }
  }

  /** sort.Slice / sort.Strings: an ordered permutation of `s`. */
  function InsertionSort<T(!new)>(s: seq<T>, le: (T, T) -> bool): (r: seq<T>)
    requires Total(le) && Transitive(le)
    ensures SortedBy(r, le)
    ensures multiset(r) == multiset(s)
    ensures |r| == |s|
  {
    if |s| == 0 then []
    else
      assert s == [s[0]] + s[1..];
      var t := InsertionSort(s[1..], le);
      InsertSorted(s[0], t, le);
      Insert(s[0], t, le)
  }

  /** A permutation of a sequence without duplicates has none either. */
  lemma {:induction false} PermutationNoDuplicates<T>(a: seq<T>, b: seq<T>)
    requires multiset(a) == multiset(b)
    requires NoDuplicates(a)
    ensures NoDuplicates(b)
  {
    forall i, j | 0 <= i < j < |b| ensures b[i] != b[j] {
      if b[i] == b[j] {
        var x := b[i];
        assert b == b[..j] + [b[j]] + b[j + 1..];
        assert x in b[..j];
        assert multiset(b)[x] >= 2;
        MultiplicityAtMostOne(a, x);
        assert false;
      }
    }
  }

  lemma {:induction false} MultiplicityAtMostOne<T>(a: seq<T>, x: T)
    requires NoDuplicates(a)
    ensures multiset(a)[x] <= 1
  {
    if |a| > 0 {
      assert a == [a[0]] + a[1..];
      MultiplicityAtMostOne(a[1..], x);
      if a[0] == x {
        assert x !in a[1..];
      }
    }
  }

  /* ---------- strings ---------- */

  function StringLe(a: string, b: string): bool
  {
    LessEq(a, b)
  }

  lemma StringLeIsTotalPreorder()
    ensures Total(StringLe) && Transitive(StringLe)
  {
    forall a, b ensures StringLe(a, b) || StringLe(b, a) {
      LessTotal(a, b);
    }
    forall a, b, c | StringLe(a, b) && StringLe(b, c) ensures StringLe(a, c) {
      if a != b && b != c {
        LessTransitive(a, b, c);
      }
    }
  }

  /** Each element is strictly smaller than every later one: ordered and duplicate-free. */
  predicate StrictlySorted(s: seq<string>)
  {
    forall i, j :: 0 <= i < j < |s| ==> Less(s[i], s[j])
  }

  /** sort.Strings. */
  function SortStrings(s: seq<string>): (r: seq<string>)
    ensures multiset(r) == multiset(s)
    ensures NoDuplicates(s) ==> StrictlySorted(r)
  {
    StringLeIsTotalPreorder();
    var r := InsertionSort(s, StringLe);
    SortedDistinctIsStrict(s, r);
    r
  }

  lemma SortedDistinctIsStrict(s: seq<string>, r: seq<string>)
    requires SortedBy(r, StringLe) && multiset(r) == multiset(s)
    ensures NoDuplicates(s) ==> StrictlySorted(r)
  {
    if NoDuplicates(s) {
      PermutationNoDuplicates(s, r);
    }
  }

  /** A strictly sorted sequence is determined by its elements. */
  lemma {:induction false} StrictlySortedUnique(a: seq<string>, b: seq<string>)
    requires StrictlySorted(a) && StrictlySorted(b)
    requires forall x :: x in a <==> x in b
    ensures a == b
    decreases |a|
  {
    if |a| > 0 {
      assert a[0] in b;
    }
    if |b| > 0 {
      assert b[0] in a;
    }
    if |a| > 0 && |b| > 0 {
      if a[0] != b[0] {
        var i :| 0 <= i < |b| && b[i] == a[0];
        var j :| 0 <= j < |a| && a[j] == b[0];
        LessAsymmetric(b[0], a[0]);
        assert false;
      }
      forall x ensures x in a[1..] <==> x in b[1..] {
        assert a == [a[0]] + a[1..] && b == [b[0]] + b[1..];
        if x in a[1..] {
          var k :| 1 <= k < |a| && a[k] == x;
          LessAsymmetric(a[0], a[k]);
          assert x in b && x != b[0];
        }
        if x in b[1..] {
          var k :| 1 <= k < |b| && b[k] == x;
          LessAsymmetric(b[0], b[k]);
          assert x in a && x != a[0];
        }
      }
      StrictlySortedUnique(a[1..], b[1..]);
      assert a == [a[0]] + a[1..] && b == [b[0]] + b[1..];
    }
  }

  /** Some enumeration of a finite set, each element once. */
  ghost function SetToSeq(S: set<string>): (r: seq<string>)
    ensures NoDuplicates(r) && forall x :: x in r <==> x in S
    decreases |S|
  {
    if S == {} then []
    else
      var x :| x in S;
      var rest := SetToSeq(S - {x});
      assert forall j :: 0 <= j < |rest| ==> rest[j] != x;
      [x] + rest
  }

  /** The elements of `S` in increasing order: the one strictly sorted sequence holding exactly them. */
  ghost function SortedSet(S: set<string>): (r: seq<string>)
    ensures StrictlySorted(r) && forall x :: x in r <==> x in S
  {
    var e := SetToSeq(S);
    var r := SortStrings(e);
    assert forall x :: x in r <==> x in multiset(r);
    r
  }
}
