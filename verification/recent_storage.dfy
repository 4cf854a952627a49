/** The bounded lists of what was visited last: recent catalogs and recent tables. */
module RecentStorage {
  import opened Wrappers
  import opened Text

  /** What a visit stores: the name it is known by and the rest of its record. */
  datatype Visit<T> = Visit(name: string, record: T)

  /** What the browser's storage holds need not be ours: a list may have empty slots. */
  type Slots<T> = seq<Option<Visit<T>>>

  const MAX: nat := 5

  function Without<T>(items: Slots<T>, name: string): Slots<T> {
    if items == [] then []
    else (if items[0].Some? && items[0].value.name != name then [items[0]] else []) + Without(items[1..], name)
  }

  function Truncated<T>(items: seq<T>, n: nat): seq<T> {
    if |items| > n then items[..n] else items
  }

  /** The writer: drop the name and empty slots, put the visit in front, keep five. */
  method Record<T>(items: Slots<T>, visit: Visit<T>) returns (stored: Slots<T>)
    ensures stored == Recorded(items, visit)
  {
    stored := [];
    for i := 0 to |items|
      invariant stored + Without(items[i..], visit.name) == Without(items, visit.name)
    {
      assert items[i..][1..] == items[i + 1..];
      var kept := if items[i].Some? && items[i].value.name != visit.name then [items[i]] else [];
      Regroup(stored, kept, Without(items[i + 1..], visit.name));
      stored := stored + kept;
    }
    assert items[|items|..] == [];
    stored := [Some(visit)] + stored;
    if |stored| > MAX { stored := stored[..MAX]; }
  }

  function Recorded<T>(items: Slots<T>, visit: Visit<T>): Slots<T> {
    Truncated([Some(visit)] + Without(items, visit.name), MAX)
  }

  /** The places of the entries that stay: not empty, and of another name. */
  predicate Stays<T>(items: Slots<T>, name: string, i: int) {
    0 <= i < |items| && items[i].Some? && items[i].value.name != name
  }

  ghost predicate Picks<T>(items: Slots<T>, places: seq<int>, picked: Slots<T>) {
    && |picked| == |places| && (forall j, k :: 0 <= j < k < |places| ==> places[j] < places[k])
    && forall j :: 0 <= j < |places| ==> 0 <= places[j] < |items| && picked[j] == items[places[j]]
  }

  function Moved(places: seq<int>): seq<int> {
    seq(|places|, j requires 0 <= j < |places| => places[j] + 1)
  }

  lemma MovedHas(places: seq<int>, i: int)
    ensures i in Moved(places) <==> i - 1 in places
  {
    if i - 1 in places {
      var j :| 0 <= j < |places| && places[j] == i - 1;
      assert Moved(places)[j] == i;
    }
  }

  lemma PicksBehind<T>(items: Slots<T>, places: seq<int>, picked: Slots<T>)
    requires items != [] && Picks(items[1..], places, picked)
    ensures Picks(items, Moved(places), picked)
  {
  }

  lemma PicksHead<T>(items: Slots<T>, places: seq<int>, picked: Slots<T>)
    requires items != [] && Picks(items, places, picked) && 0 !in places
    ensures Picks(items, [0] + places, [items[0]] + picked)
  {
    var ps := [0] + places;
    forall j, k | 0 <= j < k < |ps| ensures ps[j] < ps[k] {
      assert ps[k] == places[k - 1] && places[k - 1] in places;
    }
  }

  /** What is left without a name are the entries that stay, all of them and in their order. */
  lemma {:induction false} WithoutPicks<T>(items: Slots<T>, name: string) returns (places: seq<int>)
    ensures Picks(items, places, Without(items, name))
    ensures forall i :: i in places <==> Stays(items, name, i)
  {
    if items == [] {
      places := [];
    } else {
      var later := WithoutPicks(items[1..], name);
      PicksBehind(items, later, Without(items[1..], name));
      forall i ensures i in Moved(later) <==> i > 0 && Stays(items, name, i) {
        MovedHas(later, i);
        assert i - 1 in later <==> Stays(items[1..], name, i - 1);
      }
      places := Moved(later);
      if Stays(items, name, 0) {
        PicksHead(items, places, Without(items[1..], name));
        places := [0] + places;
      }
    }
  }

  /** One visit: it stands in front, and of what was stored the first four entries of other names follow. */
  lemma RecordedPicks<T>(items: Slots<T>, visit: Visit<T>) returns (places: seq<int>)
    ensures forall i :: i in places <==> Stays(items, visit.name, i)
    ensures var n := if |places| > 4 then 4 else |places|;
            && Recorded(items, visit) != [] && Recorded(items, visit)[0] == Some(visit)
            && Picks(items, places[..n], Recorded(items, visit)[1..])
  {
    places := WithoutPicks(items, visit.name);
    var kept, r := Without(items, visit.name), Recorded(items, visit);
    var n := if |places| > 4 then 4 else |places|;
    assert r[1..] == kept[..n];
  }

  /** The catalog writer does nothing on a page without a catalog. */
  method RecordCatalog<T>(items: Slots<T>, name: string, record: T) returns (stored: Slots<T>)
    ensures name == "" ==> stored == items
    ensures name != "" ==> stored == Recorded(items, Visit(name, record))
  {
    if name == "" { return items; }
    stored := Record(items, Visit(name, record));
  }

  function FullName(catalog: string, schema: string, table: string): string { catalog + ("." + (schema + ("." + table))) }

  /** The table writer does nothing unless catalog, schema and table are all set; a table goes by its full name. */
  method RecordTable<T>(items: Slots<T>, catalog: string, schema: string, table: string, record: T)
      returns (stored: Slots<T>)
    ensures catalog == "" || schema == "" || table == "" ==> stored == items
    ensures catalog != "" && schema != "" && table != "" ==>
              stored == Recorded(items, Visit(catalog + "." + schema + "." + table, record))
  {
    if catalog == "" || schema == "" || table == "" { return items; }
    var name := FullName(catalog, schema, table);
    assert name == catalog + "." + schema + "." + table;
    stored := Record(items, Visit(name, record));
  }

  lemma FirstDot(a: string, x: string)
    requires '.' !in a
    ensures var s := a + ("." + x); s[|a|] == '.' && forall j :: 0 <= j < |a| ==> s[j] != '.'
  {
    var s := a + ("." + x);
    forall j | 0 <= j < |a| ensures s[j] != '.' { assert s[j] == a[j] && a[j] in a; }
  }

  lemma DotlessHead(a: string, x: string, b: string, y: string)
    requires '.' !in a && '.' !in b && a + ("." + x) == b + ("." + y)
    ensures a == b && x == y
  {
    FirstDot(a, x);
    FirstDot(b, y);
    EqualParts(a, "." + x, b, "." + y);
    EqualParts(".", x, ".", y);
  }

  /** Full names tell tables apart when catalogs and schemas have no dot in them. */
  lemma FullNameIsInjective(c: string, s: string, t: string, c': string, s': string, t': string)
    requires '.' !in c && '.' !in c' && '.' !in s && '.' !in s' && FullName(c, s, t) == FullName(c', s', t')
    ensures c == c' && s == s' && t == t'
  {
    DotlessHead(c, s + ("." + t), c', s' + ("." + t'));
    DotlessHead(s, t, s', t');
  }

  /** A dot in a name can make two tables one entry. */
  lemma DottedNamesCollide()
    ensures FullName("a.b", "c", "d") == FullName("a", "b.c", "d")
  {
    assert "a.b" + ("." + ("c" + ("." + "d"))) == "a.b.c.d";
    assert "a" + ("." + ("b.c" + ("." + "d"))) == "a.b.c.d";
  }

  /** The list after a run of visits, the oldest first. */
  function Run<T>(items: Slots<T>, visits: seq<Visit<T>>): Slots<T> {
    if visits == [] then items else Recorded(Run(items, visits[..|visits| - 1]), visits[|visits| - 1])
  }

  /** Nothing is ever forgotten: last visit first, then what the storage held and was not visited since. */
  function Ranking<T>(items: Slots<T>, visits: seq<Visit<T>>): Slots<T> {
    if visits == [] then items
    else [Some(visits[|visits| - 1])] + Without(Ranking(items, visits[..|visits| - 1]), visits[|visits| - 1].name)
  }

  predicate Unique<T>(items: Slots<T>) {
    forall i, j :: 0 <= i < j < |items| && items[i].Some? && items[j].Some? ==> items[i].value.name != items[j].value.name
  }

  predicate Full<T>(items: Slots<T>) {
    forall i :: 0 <= i < |items| ==> items[i].Some?
  }

  predicate Lacks<T>(items: Slots<T>, name: string) {
    forall i :: 0 <= i < |items| && items[i].Some? ==> items[i].value.name != name
  }

  lemma {:induction false} WithoutLacks<T>(items: Slots<T>, name: string, other: string)
    ensures Full(Without(items, name)) && Lacks(Without(items, name), name)
    ensures Lacks(items, other) ==> Lacks(Without(items, name), other)
    ensures Unique(items) ==> Unique(Without(items, name))
  {
    if items != [] {
      var rest := items[1..];
      WithoutLacks(rest, name, other);
      if items[0].Some? { WithoutLacks(rest, name, items[0].value.name); }
      assert Unique(items) ==> Unique(rest);
      assert Lacks(items, other) ==> Lacks(rest, other);
      if Unique(items) && items[0].Some? {
        assert forall j :: 0 <= j < |rest| ==> rest[j] == items[j + 1];
        assert Lacks(rest, items[0].value.name);
      }
    }
  }

  lemma {:induction false} NothingToDrop<T>(items: Slots<T>, name: string)
    requires Full(items) && Lacks(items, name)
    ensures Without(items, name) == items
  {
    if items != [] { NothingToDrop(items[1..], name); }
  }

  /** Dropping one name from a list cut to n + 1 leaves n, as if it had not been cut. */
  lemma {:induction false} CutBeforeDropping<T>(items: Slots<T>, name: string, n: nat)
    requires Full(items) && Unique(items)
    ensures Truncated(Without(Truncated(items, n + 1), name), n) == Truncated(Without(items, name), n)
  {
    if |items| > n + 1 {
      var cut, rest := items[..n + 1], items[1..];
      assert cut[1..] == rest[..n];
      assert forall j :: 0 <= j < |rest| ==> rest[j] == items[j + 1];
      if items[0].value.name == name {
        NothingToDrop(rest, name);
        NothingToDrop(rest[..n], name);
      } else if n > 0 {
        CutBeforeDropping(rest, name, n - 1);
        var short, long := Without(rest[..n], name), Without(rest, name);
        assert Truncated([items[0]] + short, n) == [items[0]] + Truncated(short, n - 1);
        assert Truncated([items[0]] + long, n) == [items[0]] + Truncated(long, n - 1);
      }
    }
  }

  lemma {:induction false} RankingIsUnique<T>(items: Slots<T>, visits: seq<Visit<T>>)
    requires Unique(items)
    ensures Unique(Ranking(items, visits)) && (visits != [] ==> Full(Ranking(items, visits)))
  {
    if visits != [] {
      var before, x := visits[..|visits| - 1], visits[|visits| - 1];
      RankingIsUnique(items, before);
      WithoutLacks(Ranking(items, before), x.name, x.name);
    }
  }

  /** Cutting at five after every visit loses nothing of the first five. */
  lemma {:induction false} RunKeepsFive<T>(items: Slots<T>, visits: seq<Visit<T>>)
    requires Unique(items) && visits != []
    ensures Run(items, visits) == Truncated(Ranking(items, visits), MAX)
  {
    var before, x := visits[..|visits| - 1], visits[|visits| - 1];
    var ranked := Ranking(items, before);
    if before != [] {
      RunKeepsFive(items, before);
      RankingIsUnique(items, before);
      CutBeforeDropping(ranked, x.name, MAX - 1);
    }
    var kept, all := Without(Run(items, before), x.name), Without(ranked, x.name);
    assert Truncated([Some(x)] + kept, MAX) == [Some(x)] + Truncated(kept, MAX - 1);
    assert Truncated([Some(x)] + all, MAX) == [Some(x)] + Truncated(all, MAX - 1);
  }

  // What the ranking is

  predicate Visited<T>(visits: seq<Visit<T>>, name: string) {
    exists i :: 0 <= i < |visits| && visits[i].name == name
  }

  /** The last visit of each name, the latest first. */
  function Latest<T>(visits: seq<Visit<T>>): Slots<T> {
    if visits == [] then []
    else Latest(visits[1..]) + (if Visited(visits[1..], visits[0].name) then [] else [Some(visits[0])])
  }

  function Unvisited<T>(items: Slots<T>, visits: seq<Visit<T>>): Slots<T> {
    if items == [] then []
    else (if items[0].Some? && !Visited(visits, items[0].value.name) then [items[0]] else []) + Unvisited(items[1..], visits)
  }

  lemma {:induction false} WithoutConcat<T>(a: Slots<T>, b: Slots<T>, name: string)
    ensures Without(a + b, name) == Without(a, name) + Without(b, name)
  {
    if a == [] {
      assert a + b == b;
    } else {
      assert (a + b)[1..] == a[1..] + b;
      WithoutConcat(a[1..], b, name);
    }
  }

  lemma VisitedMore<T>(visits: seq<Visit<T>>, x: Visit<T>, name: string)
    ensures Visited(visits + [x], name) <==> Visited(visits, name) || x.name == name
  {
    var more := visits + [x];
    assert more[|visits|] == x;
    if i :| 0 <= i < |visits| && visits[i].name == name { assert more[i].name == name; }
  }

  lemma {:induction false} LatestMore<T>(visits: seq<Visit<T>>, x: Visit<T>)
    ensures Latest(visits + [x]) == [Some(x)] + Without(Latest(visits), x.name)
  {
    var more := visits + [x];
    if visits == [] {
      assert more[1..] == [] && Latest<T>([]) == [];
    } else {
      var rest, v := visits[1..], visits[0];
      assert more[1..] == rest + [x];
      LatestMore(rest, x);
      VisitedMore(rest, x, v.name);
      var own := if Visited(rest, v.name) then [] else [Some(v)];
      WithoutConcat(Latest(rest), own, x.name);
      assert own != [] ==> own[1..] == [];
    }
  }

  lemma {:induction false} UnvisitedMore<T>(items: Slots<T>, visits: seq<Visit<T>>, x: Visit<T>)
    ensures Unvisited(items, visits + [x]) == Without(Unvisited(items, visits), x.name)
    ensures Unvisited(items, [x]) == Without(items, x.name)
  {
    if items != [] {
      UnvisitedMore(items[1..], visits, x);
      if items[0].Some? {
        VisitedMore(visits, x, items[0].value.name);
        VisitedMore([], x, items[0].value.name);
        assert [] + [x] == [x];
      }
      var own := if items[0].Some? && !Visited(visits, items[0].value.name) then [items[0]] else [];
      WithoutConcat(own, Unvisited(items[1..], visits), x.name);
    }
  }

  lemma {:induction false} RankingIs<T>(items: Slots<T>, visits: seq<Visit<T>>)
    requires visits != []
    ensures Ranking(items, visits) == Latest(visits) + Unvisited(items, visits)
  {
    var before, x := visits[..|visits| - 1], visits[|visits| - 1];
    assert visits == before + [x];
    LatestMore(before, x);
    UnvisitedMore(items, before, x);
    if before == [] {
      assert Latest<T>([]) == [] && Without<T>([], x.name) == [];
    } else {
      RankingIs(items, before);
      WithoutConcat(Latest(before), Unvisited(items, before), x.name);
    }
  }

  /** After any run of visits, from any list of distinct names: the five names visited last, each once with its last
      record and the latest first, then names stored before, in their order. */
  lemma FiveMostRecent<T>(items: Slots<T>, visits: seq<Visit<T>>)
    requires Unique(items) && visits != []
    ensures var all := Latest(visits) + Unvisited(items, visits);
            Run(items, visits) == if |all| > 5 then all[..5] else all
  {
    RunKeepsFive(items, visits);
    RankingIs(items, visits);
  }

  // Any list at all

  function Times<T>(items: Slots<T>, name: string): nat {
    if items == [] then 0
    else (if items[0].Some? && items[0].value.name == name then 1 else 0) + Times(items[1..], name)
  }

  lemma {:induction false} WithoutLength<T>(items: Slots<T>, name: string)
    requires Full(items)
    ensures |Without(items, name)| == |items| - Times(items, name)
  {
    if items != [] { WithoutLength(items[1..], name); }
  }

  /** A visit to a list that was cut gives what it would have given uncut, exactly when the name stands at most once
      in what was kept, or nothing else was cut off. */
  lemma VisitAfterCutIff<T>(items: Slots<T>, name: string, n: nat)
    requires Full(items) && |items| > n + 1
    ensures Truncated(Without(items[..n + 1], name), n) == Truncated(Without(items, name), n) <==>
            Times(items[..n + 1], name) <= 1 || Without(items[n + 1..], name) == []
  {
    var kept, cut := items[..n + 1], items[n + 1..];
    assert items == kept + cut;
    WithoutConcat(kept, cut, name);
    WithoutLength(kept, name);
    var a, b := Without(kept, name), Without(cut, name);
    if |a| < n && b != [] {
      assert |Truncated(a + b, n)| > |a|;
    }
    if |a| >= n {
      assert Truncated(a + b, n) == a[..n] == Truncated(a, n);
    }
  }

  /** The name stands at most once in what was kept, or nothing else was cut off. */
  predicate SafeVisit<T>(ranked: Slots<T>, name: string) {
    |ranked| <= MAX || Times(ranked[..MAX], name) <= 1 || Without(ranked[MAX..], name) == []
  }

  ghost predicate SafeRun<T>(items: Slots<T>, visits: seq<Visit<T>>) {
    |visits| <= 1 ||
    var before := visits[..|visits| - 1];
    SafeRun(items, before) && SafeVisit(Ranking(items, before), visits[|visits| - 1].name)
  }

  /** After every visit the list is the first five of the ranking. */
  ghost predicate FiveThroughout<T>(items: Slots<T>, visits: seq<Visit<T>>) {
    visits == [] ||
    (FiveThroughout(items, visits[..|visits| - 1]) && Run(items, visits) == Truncated(Ranking(items, visits), MAX))
  }

  lemma RankingIsFull<T>(items: Slots<T>, visits: seq<Visit<T>>)
    requires visits != []
    ensures Full(Ranking(items, visits))
  {
    var before, x := visits[..|visits| - 1], visits[|visits| - 1];
    WithoutLacks(Ranking(items, before), x.name, x.name);
  }

  lemma VisitKeepsFiveIff<T>(items: Slots<T>, before: seq<Visit<T>>, x: Visit<T>)
    requires before != [] && Run(items, before) == Truncated(Ranking(items, before), MAX)
    ensures Recorded(Run(items, before), x) == Truncated([Some(x)] + Without(Ranking(items, before), x.name), MAX) <==>
            SafeVisit(Ranking(items, before), x.name)
  {
    var ranked := Ranking(items, before);
    RankingIsFull(items, before);
    TruncatedTail(Some(x), Without(Truncated(ranked, MAX), x.name), MAX - 1);
    TruncatedTail(Some(x), Without(ranked, x.name), MAX - 1);
    var kept := Truncated(Without(Truncated(ranked, MAX), x.name), MAX - 1);
    var all := Truncated(Without(ranked, x.name), MAX - 1);
    assert ([Some(x)] + kept)[1..] == kept && ([Some(x)] + all)[1..] == all;
    if |ranked| > MAX { VisitAfterCutIff(ranked, x.name, MAX - 1); }
  }

  /** From any stored list, the list is the first five of the ranking after every visit exactly when every visit
      but the first is safe. */
  lemma {:induction false} RunKeepsFiveIff<T>(items: Slots<T>, visits: seq<Visit<T>>)
    ensures FiveThroughout(items, visits) <==> SafeRun(items, visits)
  {
    if visits != [] {
      var before, x := visits[..|visits| - 1], visits[|visits| - 1];
      RunKeepsFiveIff(items, before);
      if before != [] && FiveThroughout(items, before) { VisitKeepsFiveIff(items, before, x); }
    }
  }

  lemma {:induction false} UnvisitedOfNone<T>(visits: seq<Visit<T>>)
    ensures Unvisited<T>([], visits) == []
  {
  }

  lemma LatestIsUnique<T>(visits: seq<Visit<T>>)
    ensures Unique(Latest(visits)) && Full(Latest(visits))
  {
    if visits != [] {
      RankingIsUnique<T>([], visits);
      RankingIs<T>([], visits);
      UnvisitedOfNone(visits);
      assert Latest(visits) + [] == Latest(visits);
    }
  }

  lemma {:induction false} WithoutKeeps<T>(items: Slots<T>, name: string, y: Option<Visit<T>>)
    ensures y in Without(items, name) <==> y in items && y.Some? && y.value.name != name
  {
    if items != [] {
      WithoutKeeps(items[1..], name, y);
      assert items == [items[0]] + items[1..];
    }
  }

  lemma TruncatedTail<T>(y: T, s: seq<T>, n: nat)
    ensures Truncated([y] + s, n + 1) == [y] + Truncated(s, n)
  {
  }

  lemma TruncatedAhead<T>(s: seq<T>, rest: seq<T>, n: nat)
    requires |s| >= n
    ensures Truncated(s + rest, n) == Truncated(s, n) == s[..n]
  {
  }

  lemma LatestFills<T>(latest: Slots<T>, rest: Slots<T>, x: Visit<T>)
    requires Unique(latest) && Full(latest) && |latest| >= MAX
    ensures Recorded(Truncated(latest + rest, MAX), x) == Truncated([Some(x)] + Without(latest, x.name), MAX)
  {
    TruncatedAhead(latest, rest, MAX);
    CutBeforeDropping(latest, x.name, MAX - 1);
    TruncatedTail(Some(x), Without(Truncated(latest, MAX), x.name), MAX - 1);
    TruncatedTail(Some(x), Without(latest, x.name), MAX - 1);
  }

  lemma OneMoreVisit<T>(latest: Slots<T>, rest: Slots<T>, x: Visit<T>) returns (more: Slots<T>)
    requires Unique(latest) && Full(latest)
    ensures Recorded(Truncated(latest + rest, MAX), x)
            == Truncated([Some(x)] + Without(latest, x.name) + more, MAX)
    ensures forall y :: y in more ==> y in Without(rest, x.name)
  {
    if |latest| >= MAX {
      LatestFills(latest, rest, x);
      more := [];
      assert [Some(x)] + Without(latest, x.name) + [] == [Some(x)] + Without(latest, x.name);
    } else {
      var room := MAX - |latest|;
      var kept := Truncated(rest, room);
      assert Truncated(latest + rest, MAX) == latest + kept;
      WithoutConcat(latest, kept, x.name);
      more := Without(kept, x.name);
      assert [Some(x)] + (Without(latest, x.name) + more) == [Some(x)] + Without(latest, x.name) + more;
      forall y | y in more ensures y in Without(rest, x.name) {
        WithoutKeeps(kept, x.name, y);
        WithoutKeeps(rest, x.name, y);
      }
    }
  }

  /** From any stored list, repetitions and all: the names visited last stand first, each once with its last record
      and the latest first; behind them only names stored before and not visited since. */
  lemma {:induction false} LatestComeFirst<T>(items: Slots<T>, visits: seq<Visit<T>>) returns (rest: Slots<T>)
    requires visits != []
    ensures Run(items, visits) == Truncated(Latest(visits) + rest, MAX)
    ensures forall y :: y in rest ==> y in Unvisited(items, visits)
  {
    var before, x := visits[..|visits| - 1], visits[|visits| - 1];
    assert visits == before + [x];
    LatestMore(before, x);
    UnvisitedMore(items, before, x);
    if before == [] {
      assert Latest<T>([]) == [] && Without<T>([], x.name) == [];
      rest := Without(items, x.name);
    } else {
      var rest0 := LatestComeFirst(items, before);
      LatestIsUnique(before);
      rest := OneMoreVisit(Latest(before), rest0, x);
      forall y | y in rest ensures y in Unvisited(items, visits) {
        WithoutKeeps(rest0, x.name, y);
        WithoutKeeps(Unvisited(items, before), x.name, y);
      }
    }
  }

  /** Once five names have been visited, what was stored before does not matter. */
  lemma FiveVisitedNames<T>(items: Slots<T>, visits: seq<Visit<T>>)
    requires |Latest(visits)| >= 5
    ensures Run(items, visits) == Latest(visits)[..5]
  {
    assert visits != [];
    var rest := LatestComeFirst(items, visits);
    assert (Latest(visits) + rest)[..MAX] == Latest(visits)[..MAX];
  }

  lemma DropFirst<T>(v: Visit<T>, s: Slots<T>, name: string)
    ensures Without([Some(v)] + s, name) == (if v.name == name then [] else [Some(v)]) + Without(s, name)
  {
    assert ([Some(v)] + s)[1..] == s;
  }

  /** A stored list with a repeated name: after two visits only four names are left of five. */
  lemma RepeatedNameCostsASlot<T>(z: Visit<T>, a: Visit<T>, tail: Slots<T>)
    requires |tail| == 3 && Full(tail) && Lacks(tail, a.name) && Lacks(tail, z.name) && a.name != z.name
    ensures var items := [Some(a)] + ([Some(a)] + tail);
            && Run(items, [z, a]) == [Some(a), Some(z)] + tail[..2]
            && Truncated(Ranking(items, [z, a]), MAX) == [Some(a), Some(z)] + tail
  {
    var items := [Some(a)] + ([Some(a)] + tail);
    assert [z, a][..1] == [z] && [z][..0] == [];
    NothingToDrop(items, z.name);
    assert Ranking(items, [z]) == [Some(z)] + items;
    var kept := [Some(z)] + ([Some(a)] + ([Some(a)] + tail[..2]));
    assert Run(items, [z]) == kept;
    DropTwice(z, a, tail[..2]);
    DropTwice(z, a, tail);
  }

  lemma DropTwice<T>(z: Visit<T>, a: Visit<T>, tail: Slots<T>)
    requires Full(tail) && Lacks(tail, a.name) && a.name != z.name
    ensures Without([Some(z)] + ([Some(a)] + ([Some(a)] + tail)), a.name) == [Some(z)] + tail
  {
    NothingToDrop(tail, a.name);
    DropFirst(a, tail, a.name);
    DropFirst(a, [Some(a)] + tail, a.name);
    DropFirst(z, [Some(a)] + ([Some(a)] + tail), a.name);
  }
}
