/** Pairs of a number and a name, ordered as tuples are: by the number, then by the name's code points. */
module Pairs {
  import opened Sorting

  datatype Pair = Pair(number: int, name: string)

  function CodePoints(s: string): seq<int> {
    seq(|s|, i requires 0 <= i < |s| => s[i] as int)
  }

  lemma CodePointsAreInjective(s: string, t: string)
    requires CodePoints(s) == CodePoints(t)
    ensures s == t
  {
    forall i | 0 <= i < |s| ensures i < |t| && s[i] == t[i] {
      assert |CodePoints(s)| == |CodePoints(t)| && CodePoints(s)[i] == CodePoints(t)[i];
    }
    assert |CodePoints(s)| == |CodePoints(t)|;
  }

  predicate NoLater(x: Pair, y: Pair) {
    x.number < y.number || (x.number == y.number && !TextLess(CodePoints(y.name), CodePoints(x.name)))
  }

  lemma NoLaterIsOrder(ps: seq<Pair>)
    ensures TotalPreorder(NoLater, ps)
  {
    forall x, y | x in ps && y in ps ensures NoLater(x, y) || NoLater(y, x) {
      TextLessIsTotal(CodePoints(x.name), CodePoints(y.name));
    }
    forall x, y, z | x in ps && y in ps && z in ps && NoLater(x, y) && NoLater(y, z) ensures NoLater(x, z) {
      var a, b, c := CodePoints(x.name), CodePoints(y.name), CodePoints(z.name);
      TextLessIsTotal(a, b);
      TextLessIsTotal(b, c);
      TextLessIsTotal(a, c);
      if x.number == y.number == z.number && TextLess(c, a) && a != b && b != c { TextLessIsTransitive(a, b, c); }
    }
  }

  lemma BothWays(x: Pair, y: Pair)
    requires NoLater(x, y) && NoLater(y, x)
    ensures x == y
  {
    TextLessIsTotal(CodePoints(x.name), CodePoints(y.name));
    CodePointsAreInjective(x.name, y.name);
  }

  lemma LastIsGreatest(sorted: seq<Pair>, p: Pair)
    requires SortedBy(NoLater, sorted) && p in sorted
    ensures NoLater(p, sorted[|sorted| - 1])
  {
    TextLessIsTotal(CodePoints(p.name), CodePoints(p.name));
    var k :| 0 <= k < |sorted| && sorted[k] == p;
  }

  /** At the first place where they differ s has the smaller character, or it ends there. */
  ghost predicate NameBefore(s: string, t: string) {
    exists k :: 0 <= k <= |s| && k < |t| && s[..k] == t[..k] && (k == |s| || s[k] < t[k])
  }

  lemma CodePointsTail(s: string)
    requires s != ""
    ensures CodePoints(s) != [] && CodePoints(s)[0] == s[0] as int && CodePoints(s)[1..] == CodePoints(s[1..])
  {
  }

  lemma NameBeforeDrops(s: string, t: string)
    requires s != "" && t != "" && s[0] == t[0] && NameBefore(s, t)
    ensures NameBefore(s[1..], t[1..])
  {
    var k :| 0 <= k <= |s| && k < |t| && s[..k] == t[..k] && (k == |s| || s[k] < t[k]);
    assert k > 0 && s[1..][..k - 1] == s[..k][1..] && t[1..][..k - 1] == t[..k][1..];
  }

  lemma NameBeforeAdds(s: string, t: string)
    requires s != "" && t != "" && s[0] == t[0] && NameBefore(s[1..], t[1..])
    ensures NameBefore(s, t)
  {
    var a, b := s[1..], t[1..];
    var k :| 0 <= k <= |a| && k < |b| && a[..k] == b[..k] && (k == |a| || a[k] < b[k]);
    assert s[..k + 1] == [s[0]] + a[..k] && t[..k + 1] == [t[0]] + b[..k];
  }

  lemma {:induction false} TextLessIsNameBefore(s: string, t: string)
    ensures TextLess(CodePoints(s), CodePoints(t)) <==> NameBefore(s, t)
  {
    if t != "" {
      CodePointsTail(t);
      if s == "" {
        assert s[..0] == t[..0];
      } else {
        CodePointsTail(s);
        if s[0] == t[0] {
          TextLessIsNameBefore(s[1..], t[1..]);
          if NameBefore(s, t) { NameBeforeDrops(s, t); }
          if NameBefore(s[1..], t[1..]) { NameBeforeAdds(s, t); }
        } else {
          assert s[..0] == t[..0];
          assert NameBefore(s, t) ==> s[0] < t[0];
        }
      }
    }
  }

  /** Tuples compare by their numbers, and by their names where the numbers are equal. */
  lemma NoLaterIff(x: Pair, y: Pair)
    ensures NoLater(x, y) <==> x.number < y.number || (x.number == y.number && (x.name == y.name || NameBefore(x.name, y.name)))
  {
    TextLessIsNameBefore(x.name, y.name);
    TextLessIsNameBefore(y.name, x.name);
    TextLessIsTotal(CodePoints(x.name), CodePoints(y.name));
    if CodePoints(x.name) == CodePoints(y.name) { CodePointsAreInjective(x.name, y.name); }
  }
}
