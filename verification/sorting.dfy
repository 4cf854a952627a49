/** Stable sorting by a comparison, and why its result is the only one possible. */
module Sorting {

  /** le holds both ways between elements that compare equal. */
  ghost predicate TotalPreorder<T(!new)>(le: (T, T) -> bool, s: seq<T>) {
    && (forall x, y :: x in s && y in s ==> le(x, y) || le(y, x))
    && (forall x, y, z :: x in s && y in s && z in s && le(x, y) && le(y, z) ==> le(x, z))
  }

  ghost predicate SortedBy<T>(le: (T, T) -> bool, s: seq<T>) {
    forall i, j :: 0 <= i < j < |s| ==> le(s[i], s[j])
  }

  ghost predicate Distinct<T>(s: seq<T>) {
    forall i, j :: 0 <= i < j < |s| ==> s[i] != s[j]
  }

  ghost predicate Precedes<T>(s: seq<T>, x: T, y: T) {
    exists i, j :: 0 <= i < j < |s| && s[i] == x && s[j] == y
  }

  /** Elements that compare equal keep the order they had in s. */
  ghost predicate StableFrom<T>(le: (T, T) -> bool, s: seq<T>, t: seq<T>) {
    forall i, j :: 0 <= i < j < |t| && le(t[j], t[i]) ==> Precedes(s, t[i], t[j])
  }

  function Insert<T>(x: T, s: seq<T>, le: (T, T) -> bool): seq<T> {
    if s == [] then [x] else if le(x, s[0]) then [x] + s else [s[0]] + Insert(x, s[1..], le)
  }

  function Sort<T>(s: seq<T>, le: (T, T) -> bool): seq<T> {
    if s == [] then [] else Insert(s[0], Sort(s[1..], le), le)
  }

  lemma {:induction false} InsertContents<T>(x: T, s: seq<T>, le: (T, T) -> bool)
    ensures multiset(Insert(x, s, le)) == multiset{x} + multiset(s)
    ensures |Insert(x, s, le)| == |s| + 1
    ensures forall y :: y in Insert(x, s, le) <==> y == x || y in s
  {
    if s != [] && !le(x, s[0]) {
      InsertContents(x, s[1..], le);
      assert s == [s[0]] + s[1..];
    }
  }

  /** Sorting permutes, whatever the comparison does. */
  lemma {:induction false} SortPermutes<T>(s: seq<T>, le: (T, T) -> bool)
    ensures multiset(Sort(s, le)) == multiset(s)
    ensures forall y :: y in Sort(s, le) <==> y in s
  {
    if s != [] {
      SortPermutes(s[1..], le);
      InsertContents(s[0], Sort(s[1..], le), le);
      assert s == [s[0]] + s[1..];
    }
  }

  lemma {:induction false} InsertSorts<T(!new)>(x: T, s: seq<T>, le: (T, T) -> bool)
    requires SortedBy(le, s) && TotalPreorder(le, [x] + s)
    ensures SortedBy(le, Insert(x, s, le))
  {
    if s != [] {
      var r := Insert(x, s, le);
      if le(x, s[0]) {
        forall i, j | 0 <= i < j < |r| ensures le(r[i], r[j]) {
          if i == 0 && j > 1 { assert le(s[0], s[j - 1]) && s[0] in [x] + s && s[j - 1] in [x] + s; }
        }
      } else {
        var rest := Insert(x, s[1..], le);
        assert forall y :: y in [x] + s[1..] ==> y in [x] + s;
        InsertSorts(x, s[1..], le);
        InsertContents(x, s[1..], le);
        forall j | 0 <= j < |rest| ensures le(s[0], rest[j]) {
          assert rest[j] in rest && s[0] in [x] + s && x in [x] + s;
          if rest[j] != x {
            var k :| 0 <= k < |s[1..]| && s[1..][k] == rest[j];
            assert s[k + 1] == rest[j];
          }
        }
      }
    }
  }

  lemma {:induction false} SortSorts<T(!new)>(s: seq<T>, le: (T, T) -> bool)
    requires TotalPreorder(le, s)
    ensures SortedBy(le, Sort(s, le))
  {
    if s != [] {
      SortSorts(s[1..], le);
      SortPermutes(s[1..], le);
      assert forall y :: y in [s[0]] + Sort(s[1..], le) ==> y in s;
      InsertSorts(s[0], Sort(s[1..], le), le);
    }
  }

  lemma PrecedesTail<T>(s: seq<T>, x: T, y: T)
    requires s != [] && (Precedes(s[1..], x, y) || (x == s[0] && y in s[1..]))
    ensures Precedes(s, x, y)
  {
    if Precedes(s[1..], x, y) {
      var i, j :| 0 <= i < j < |s[1..]| && s[1..][i] == x && s[1..][j] == y;
      assert s[i + 1] == x && s[j + 1] == y;
    } else {
      var j :| 0 <= j < |s[1..]| && s[1..][j] == y;
      assert s[j + 1] == y;
    }
  }

  /** x goes in front of everything it compares equal to. */
  lemma {:induction false} InsertIsStable<T(!new)>(x: T, s: seq<T>, le: (T, T) -> bool)
    requires SortedBy(le, s) && TotalPreorder(le, [x] + s)
    ensures StableFrom(le, [x] + s, Insert(x, s, le))
  {
    var r := Insert(x, s, le);
    if s == [] || le(x, s[0]) {
      assert r == [x] + s;
    } else {
      assert forall y :: y in [x] + s[1..] ==> y in [x] + s;
      InsertIsStable(x, s[1..], le);
      InsertContents(x, s[1..], le);
      ConsIsStable(x, s, le, Insert(x, s[1..], le));
    }
  }

  /** Putting back the first element, in front of which x does not go. */
  lemma ConsIsStable<T(!new)>(x: T, s: seq<T>, le: (T, T) -> bool, rest: seq<T>)
    requires s != [] && !le(x, s[0])
    requires StableFrom(le, [x] + s[1..], rest) && forall y :: y in rest <==> y == x || y in s[1..]
    ensures StableFrom(le, [x] + s, [s[0]] + rest)
  {
    var r := [s[0]] + rest;
    forall i, j | 0 <= i < j < |r| && le(r[j], r[i]) ensures Precedes([x] + s, r[i], r[j]) {
      assert r[j] == rest[j - 1] && rest[j - 1] in rest;
      if i == 0 {
        assert ([x] + s)[2..] == s[1..];
        FirstPrecedes([x] + s, 1, r[j]);
      } else {
        assert Precedes([x] + s[1..], rest[i - 1], rest[j - 1]);
        WidenPrecedes(x, s, rest[i - 1], rest[j - 1]);
      }
    }
  }

  lemma FirstPrecedes<T>(s: seq<T>, i: nat, y: T)
    requires i < |s| && y in s[i + 1..]
    ensures Precedes(s, s[i], y)
  {
    var j :| 0 <= j < |s[i + 1..]| && s[i + 1..][j] == y;
    assert s[i + 1 + j] == y;
  }

  lemma WidenPrecedes<T>(x: T, s: seq<T>, y: T, z: T)
    requires s != [] && Precedes([x] + s[1..], y, z)
    ensures Precedes([x] + s, y, z)
  {
    var i, j :| 0 <= i < j < |[x] + s[1..]| && ([x] + s[1..])[i] == y && ([x] + s[1..])[j] == z;
    assert ([x] + s)[j + 1] == z;
    assert i == 0 ==> ([x] + s)[0] == y;
    assert i > 0 ==> ([x] + s)[i + 1] == y;
  }

  /** What comes first in s followed by the sorted tail comes first in s. */
  lemma PrecedesAfterSortedTail<T(!new)>(s: seq<T>, rest: seq<T>, le: (T, T) -> bool, x: T, y: T)
    requires s != [] && StableFrom(le, s[1..], rest) && (forall z :: z in rest ==> z in s[1..])
    requires Precedes([s[0]] + rest, x, y) && le(y, x)
    ensures Precedes(s, x, y)
  {
    var a, b :| 0 <= a < b < |[s[0]] + rest| && ([s[0]] + rest)[a] == x && ([s[0]] + rest)[b] == y;
    assert rest[b - 1] == y && rest[b - 1] in rest;
    if a > 0 { assert rest[a - 1] == x && Precedes(s[1..], rest[a - 1], rest[b - 1]); }
    PrecedesTail(s, x, y);
  }

  lemma {:induction false} SortIsStable<T(!new)>(s: seq<T>, le: (T, T) -> bool)
    requires TotalPreorder(le, s)
    ensures StableFrom(le, s, Sort(s, le))
  {
    if s != [] {
      var rest := Sort(s[1..], le);
      SortIsStable(s[1..], le);
      SortSorts(s[1..], le);
      SortPermutes(s[1..], le);
      assert forall y :: y in [s[0]] + rest ==> y in s;
      InsertIsStable(s[0], rest, le);
      var r := Sort(s, le);
      forall i, j | 0 <= i < j < |r| && le(r[j], r[i]) ensures Precedes(s, r[i], r[j]) {
        PrecedesAfterSortedTail(s, rest, le, r[i], r[j]);
      }
    }
  }

  /** Of two stable, ordered lists of the same elements, the first elements agree. */
  lemma SameHead<T(!new)>(s: seq<T>, t: seq<T>, u: seq<T>, le: (T, T) -> bool)
    requires Distinct(s) && t != [] && u != [] && t[0] in u && u[0] in t
    requires SortedBy(le, t) && SortedBy(le, u) && StableFrom(le, s, t) && StableFrom(le, s, u)
    ensures t[0] == u[0]
  {
    var k :| 0 <= k < |u| && u[k] == t[0];
    var m :| 0 <= m < |t| && t[m] == u[0];
    if k > 0 && m > 0 {
      assert le(t[0], t[m]) && le(u[0], u[k]);
      assert Precedes(s, t[0], t[m]) && Precedes(s, u[0], u[k]);
      NoTwoWays(s, t[0], u[0]);
    }
  }

  /** Any stable, ordered permutation of a list without repetitions is the one Sort gives: so a program may
      rely on the library's sort as long as that is stable. */
  lemma {:induction false} StableSortIsUnique<T(!new)>(s: seq<T>, t: seq<T>, u: seq<T>, le: (T, T) -> bool)
    requires Distinct(s) && (forall x :: x in t ==> x in s) && (forall x :: x in t <==> x in u)
    requires Distinct(t) && Distinct(u)
    requires SortedBy(le, t) && SortedBy(le, u) && StableFrom(le, s, t) && StableFrom(le, s, u)
    ensures t == u
    decreases |t|
  {
    assert u != [] ==> u[0] in u && u[0] in t;
    if t != [] {
      assert t[0] in t && u != [] && u[0] in u;
      SameHead(s, t, u, le);
      TailHasOthers(t);
      TailHasOthers(u);
      StableSortIsUnique(s, t[1..], u[1..], le);
      assert t == [t[0]] + t[1..] && u == [u[0]] + u[1..];
    }
  }

  lemma NoTwoWays<T>(s: seq<T>, x: T, y: T)
    requires Distinct(s) && Precedes(s, x, y)
    ensures !Precedes(s, y, x)
  {
  }

  lemma TailHasOthers<T(!new)>(t: seq<T>)
    requires Distinct(t) && t != []
    ensures Distinct(t[1..]) && forall x :: x in t[1..] <==> x in t && x != t[0]
  {
    assert t == [t[0]] + t[1..];
  }

  lemma DistinctFromTail<T(!new)>(s: seq<T>)
    requires s != []
    ensures Distinct(s) <==> Distinct(s[1..]) && s[0] !in s[1..]
  {
    assert forall i :: 1 <= i < |s| ==> s[i] == s[1..][i - 1];
  }

  lemma {:induction false} DistinctCounts<T(!new)>(s: seq<T>)
    ensures Distinct(s) <==> forall x :: multiset(s)[x] <= 1
  {
    if s != [] {
      DistinctCounts(s[1..]);
      var x, rest := s[0], s[1..];
      assert s == [x] + rest;
      assert forall y :: multiset(s)[y] == multiset(rest)[y] + (if y == x then 1 else 0);
      assert x in rest <==> multiset(rest)[x] >= 1;
      DistinctFromTail(s);
    }
  }

  lemma PermutationIsDistinct<T(!new)>(s: seq<T>, t: seq<T>)
    requires Distinct(s) && multiset(s) == multiset(t)
    ensures Distinct(t)
  {
    DistinctCounts(s);
    DistinctCounts(t);
  }

  lemma SortKeepsDistinct<T(!new)>(s: seq<T>, le: (T, T) -> bool)
    requires Distinct(s)
    ensures Distinct(Sort(s, le))
  {
    SortPermutes(s, le);
    PermutationIsDistinct(s, Sort(s, le));
  }

  /** Sorting changes nothing exactly when the list is in order. */
  lemma SortFixesIff<T(!new)>(s: seq<T>, le: (T, T) -> bool)
    requires Distinct(s) && TotalPreorder(le, s)
    ensures Sort(s, le) == s <==> SortedBy(le, s)
  {
    SortSorts(s, le);
    if SortedBy(le, s) {
      SortPermutes(s, le);
      SortIsStable(s, le);
      SortKeepsDistinct(s, le);
      StableSortIsUnique(s, s, Sort(s, le), le);
    }
  }

  /** A sort that does not tell apart what a later sort holds level leaves no trace in the later sort. */
  lemma LaterSortWins<T(!new)>(s: seq<T>, first: (T, T) -> bool, second: (T, T) -> bool)
    requires Distinct(s) && TotalPreorder(first, s) && TotalPreorder(second, s)
    requires forall x, y :: x in s && y in s && second(x, y) && second(y, x) ==> first(x, y) && first(y, x)
    ensures Sort(Sort(s, first), second) == Sort(s, second)
  {
    var a := Sort(s, first);
    var d := Sort(a, second);
    SortPermutes(s, first);
    SortPermutes(a, second);
    SortPermutes(s, second);
    SortIsStable(s, first);
    SortIsStable(a, second);
    SortIsStable(s, second);
    SortSorts(a, second);
    SortSorts(s, second);
    SortKeepsDistinct(s, first);
    SortKeepsDistinct(a, second);
    SortKeepsDistinct(s, second);
    forall i, j | 0 <= i < j < |d| && second(d[j], d[i]) ensures Precedes(s, d[i], d[j]) {
      assert d[i] in d && d[j] in d && second(d[i], d[j]);
      assert Precedes(a, d[i], d[j]);
      var p, q :| 0 <= p < q < |a| && a[p] == d[i] && a[q] == d[j];
      assert first(a[q], a[p]);
    }
    StableSortIsUnique(s, d, Sort(s, second), second);
  }

  /** What a later sort holds level stands in the order of the earlier sort. */
  lemma TiesKeepEarlierOrder<T(!new)>(s: seq<T>, first: (T, T) -> bool, second: (T, T) -> bool)
    requires TotalPreorder(first, s) && TotalPreorder(second, s)
    ensures var t := Sort(Sort(s, first), second);
            forall i, j :: 0 <= i < j < |t| && second(t[j], t[i]) ==> first(t[i], t[j])
  {
    var a := Sort(s, first);
    var t := Sort(a, second);
    SortPermutes(s, first);
    SortSorts(s, first);
    SortIsStable(a, second);
    forall i, j | 0 <= i < j < |t| && second(t[j], t[i]) ensures first(t[i], t[j]) {
      assert Precedes(a, t[i], t[j]);
      var p, q :| 0 <= p < q < |a| && a[p] == t[i] && a[q] == t[j];
      assert first(a[p], a[q]);
    }
  }

  // Texts

  /** Lexicographic by code units or code points. */
  predicate TextLess(a: seq<int>, b: seq<int>) {
    b != [] && (a == [] || a[0] < b[0] || (a[0] == b[0] && TextLess(a[1..], b[1..])))
  }

  lemma {:induction false} TextLessIsTotal(a: seq<int>, b: seq<int>)
    ensures !(TextLess(a, b) && TextLess(b, a))
    ensures !TextLess(a, b) && !TextLess(b, a) ==> a == b
  {
    if a != [] && b != [] && a[0] == b[0] {
      TextLessIsTotal(a[1..], b[1..]);
      assert a == [a[0]] + a[1..] && b == [b[0]] + b[1..];
    }
  }

  lemma {:induction false} TextLessIsTransitive(a: seq<int>, b: seq<int>, c: seq<int>)
    requires TextLess(a, b) && TextLess(b, c)
    ensures TextLess(a, c)
  {
    if a != [] && b != [] && c != [] && a[0] == b[0] == c[0] {
      TextLessIsTransitive(a[1..], b[1..], c[1..]);
    }
  }
}
