/** The list table: rows that are searched, filtered by chips, sorted and taken in afresh from the page. */
module ListTable {
  import opened Wrappers
  import opened Sorting
  import opened ColumnOrder
  import opened CellOrder

  datatype Chip = Chip(id: Str, matches: RowId -> bool)

  /** What the page gives: the cells of a row, its search text, and the chips. */
  datatype Page = Page(lib: Library, cell: (RowId, Str) -> Option<Str>, search: RowId -> Option<Str>, chips: seq<Chip>)

  /** The table's own state and the part of the page it moves.  `applied` is the query of the last filter pass and
      `snapshot` the rows as last taken from the page; the program does not store these two. */
  datatype Table = Table(
    query: Str, active: set<Str>, sortKey: Option<Str>, desc: bool, rows: seq<RowId>,
    body: seq<RowId>, hidden: set<RowId>, emptyHidden: bool, pending: bool,
    applied: Str, snapshot: seq<RowId>)

  datatype Event =
    | ToggleSort(key: Str)
    | MobileSort(raw: Str)
    | ToggleChip(id: Str)
    | Search(text: Str)
    | TimerFires
    | PageAppends(more: seq<RowId>)
    | Refresh

  // Filtering

  predicate Includes(hay: Str, needle: Str) {
    exists i :: 0 <= i <= |hay| && needle <= hay[i..]
  }

  predicate Matches(page: Page, query: Str, active: set<Str>, row: RowId) {
    var q := page.lib.lower(page.lib.trim(query));
    var hay := page.lib.lower(if page.search(row).Some? then page.search(row).value else []);
    && (q == [] || hay == [] || Includes(hay, q))
    && forall i :: 0 <= i < |page.chips| && page.chips[i].id in active ==> page.chips[i].matches(row)
  }

  /** What the search box and the chips ask for: the trimmed query in lower case stands somewhere in the row's search
      text, if there are both, and every active chip agrees. */
  ghost predicate AskedFor(page: Page, query: Str, active: set<Str>, row: RowId) {
    var q := page.lib.lower(page.lib.trim(query));
    var hay := page.lib.lower(if page.search(row) == None then [] else page.search(row).value);
    && (q != [] && hay != [] ==> exists a, b :: hay == a + (q + b))
    && (forall chip :: chip in page.chips && chip.id in active ==> chip.matches(row))
  }

  lemma MatchesIff(page: Page, query: Str, active: set<Str>, row: RowId)
    ensures Matches(page, query, active, row) <==> AskedFor(page, query, active, row)
  {
    var q := page.lib.lower(page.lib.trim(query));
    var hay := page.lib.lower(if page.search(row) == None then [] else page.search(row).value);
    IncludesIff(hay, q);
    assert forall i :: 0 <= i < |page.chips| ==> page.chips[i] in page.chips;
    if AskedFor(page, query, active, row) {
      assert forall i :: 0 <= i < |page.chips| && page.chips[i].id in active ==> page.chips[i].matches(row);
    }
  }

  lemma IncludesIff(hay: Str, needle: Str)
    ensures Includes(hay, needle) <==> exists a, b :: hay == a + (needle + b)
  {
    if Includes(hay, needle) {
      var i :| 0 <= i <= |hay| && needle <= hay[i..];
      assert hay == hay[..i] + (needle + hay[i..][|needle|..]);
    }
    if exists a, b :: hay == a + (needle + b) {
      var a: Str, b: Str :| hay == a + (needle + b);
      assert hay[|a|..] == needle + b;
    }
  }

  predicate Shows(page: Page, t: Table, row: RowId) { Matches(page, t.query, t.active, row) }

  /** The hidden rows after a pass over the given rows. */
  function HiddenAmong(page: Page, t: Table, rows: seq<RowId>): set<RowId> {
    (t.hidden - set r | r in rows) + set r | r in rows && !Shows(page, t, r)
  }

  ghost predicate AnyShown(page: Page, t: Table, rows: seq<RowId>) {
    exists r :: r in rows && Shows(page, t, r)
  }

  lemma HideOneMore(page: Page, t: Table, rows: seq<RowId>, row: RowId)
    ensures HiddenAmong(page, t, rows + [row])
            == if Shows(page, t, row) then HiddenAmong(page, t, rows) - {row} else HiddenAmong(page, t, rows) + {row}
    ensures AnyShown(page, t, rows + [row]) <==> AnyShown(page, t, rows) || Shows(page, t, row)
  {
    assert row in rows + [row];
    if r :| r in rows && Shows(page, t, r) { assert r in rows + [row]; }
  }

  function Filtered(page: Page, t: Table): Table {
    t.(hidden := HiddenAmong(page, t, t.rows),
       emptyHidden := exists r :: r in t.rows && Shows(page, t, r),
       applied := t.query)
  }

  // Sorting

  function Without(s: seq<RowId>, drop: seq<RowId>): seq<RowId> {
    if s == [] then [] else (if s[0] in drop then [] else [s[0]]) + Without(s[1..], drop)
  }

  function Only(s: seq<RowId>, keep: seq<RowId>): seq<RowId> {
    if s == [] then [] else (if s[0] in keep then [s[0]] else []) + Only(s[1..], keep)
  }

  /** The cells of one column. */
  function CellsOf(page: Page, key: Str): Cells {
    (r: RowId) => page.cell(r, key)
  }

  function ColumnOf(page: Page, key: Str): Column { Keys(page.lib, CellsOf(page, key)) }

  predicate HasKey(t: Table) { t.sortKey.Some? && t.sortKey.value != [] }

  function Order(page: Page, key: Str, desc: bool): (RowId, RowId) -> bool {
    RowOrder(page.lib, desc, ColumnOf(page, key))
  }

  /** The sorted rows move to the end of the table body, in order. */
  function Sorted(page: Page, t: Table): Table {
    if !HasKey(t) then t
    else
      var sorted := Sort(t.rows, Order(page, t.sortKey.value, t.desc));
      t.(rows := sorted, body := Without(t.body, sorted) + sorted)
  }

  // Steps

  /** A header cycles through ascending, descending and no sort. */
  function Cycled(t: Table, key: Str): Table {
    if t.sortKey != Some(key) then t.(sortKey := Some(key), desc := false)
    else if !t.desc then t.(desc := true)
    else t.(sortKey := None, desc := false)
  }

  const COLON: CodeUnit := 58
  const ASC: Str := [97, 115, 99]
  const DESC: Str := [100, 101, 115, 99]

  function UpToColon(s: Str): (n: nat)
    ensures n <= |s| && (forall i :: 0 <= i < n ==> s[i] != COLON) && (n < |s| ==> s[n] == COLON)
  {
    if s == [] || s[0] == COLON then 0 else 1 + UpToColon(s[1..])
  }

  /** The first two parts of the option's value between colons: the key and the direction. */
  function Picked(raw: Str): (Option<Str>, bool) {
    if raw == [] then (None, false)
    else
      var n := UpToColon(raw);
      if n == |raw| then (Some(raw), false)
      else
        var rest := raw[n + 1..];
        (Some(raw[..n]), rest[..UpToColon(rest)] == DESC)
  }

  function OptionValue(key: Str, desc: bool): Str { key + ([COLON] + (if desc then DESC else ASC)) }

  function Flipped(active: set<Str>, id: Str): set<Str> {
    if id in active then active - {id} else active + {id}
  }

  ghost predicate Enabled(t: Table, e: Event) {
    match e
    case TimerFires => t.pending
    case PageAppends(more) => Distinct(t.body + more)
    case _ => true
  }

  function Apply(page: Page, t: Table, e: Event): Table {
    match e
    case ToggleSort(key) => Filtered(page, Sorted(page, Cycled(t, key)))
    case MobileSort(raw) =>
      var p := Picked(raw);
      Filtered(page, Sorted(page, t.(sortKey := p.0, desc := p.1)))
    case ToggleChip(id) => Filtered(page, t.(active := Flipped(t.active, id)))
    case Search(text) => t.(query := text, pending := true)
    case TimerFires => Filtered(page, t.(pending := false))
    case PageAppends(more) => t.(body := t.body + more)
    case Refresh => Filtered(page, Sorted(page, t.(rows := t.body, snapshot := t.body)))
  }

  function Mount(page: Page, body: seq<RowId>, active: set<Str>, sortKey: Option<Str>, desc: bool): Table {
    Filtered(page, Sorted(page, Table([], active, sortKey, desc, body, body, {}, true, false, [], body)))
  }

  ghost predicate ValidRun(page: Page, t: Table, run: seq<Event>)
    decreases |run|
  {
    run == [] || (Enabled(t, run[0]) && ValidRun(page, Apply(page, t, run[0]), run[1..]))
  }

  ghost function After(page: Page, t: Table, run: seq<Event>): Table
    decreases |run|
  {
    if run == [] then t else After(page, Apply(page, t, run[0]), run[1..])
  }

  // The invariant

  /** The rows are those of the last snapshot, in the order of the page. */
  ghost predicate InPageOrder(t: Table) {
    Distinct(t.body) && t.rows == Only(t.body, t.rows) && multiset(t.rows) == multiset(t.snapshot)
  }

  /** By the last query applied and the chips now active, a row is hidden iff it does not match, and the notice is
      hidden iff some row matches.  A query not yet applied has its timer running. */
  ghost predicate FilterHolds(page: Page, t: Table) {
    && (forall r :: r in t.rows ==> (r in t.hidden <==> !Matches(page, t.applied, t.active, r)))
    && (t.emptyHidden <==> exists r :: r in t.rows && Matches(page, t.applied, t.active, r))
    && (t.query != t.applied ==> t.pending)
  }

  /** The rows stand in the direction chosen, if the comparator orders the sort column. */
  ghost predicate SortHolds(page: Page, t: Table) {
    HasKey(t) ==>
      var column := ColumnOf(page, t.sortKey.value);
      Sortable(page.lib, t.rows, column) ==> InDirection(page.lib, t.desc, t.rows, column)
  }

  ghost predicate Coherent(page: Page, t: Table) {
    InPageOrder(t) && FilterHolds(page, t) && SortHolds(page, t)
  }

  // Moving rows in the page

  lemma {:induction false} OnlyContains(s: seq<RowId>, keep: seq<RowId>)
    ensures forall x :: x in Only(s, keep) <==> x in s && x in keep
  {
    if s != [] { OnlyContains(s[1..], keep); }
  }

  lemma {:induction false} WithoutContains(s: seq<RowId>, drop: seq<RowId>)
    ensures forall x :: x in Without(s, drop) <==> x in s && x !in drop
  {
    if s != [] { WithoutContains(s[1..], drop); }
  }

  lemma {:induction false} WithoutAll(s: seq<RowId>, drop: seq<RowId>)
    requires forall x :: x in s ==> x in drop
    ensures Without(s, drop) == []
  {
    if s != [] { assert s[0] in s; WithoutAll(s[1..], drop); }
  }

  lemma {:induction false} WithoutIsDistinct(s: seq<RowId>, drop: seq<RowId>)
    requires Distinct(s)
    ensures Distinct(Without(s, drop))
  {
    if s != [] {
      WithoutIsDistinct(s[1..], drop);
      WithoutContains(s[1..], drop);
      assert s[0] !in s[1..];
    }
  }

  lemma {:induction false} OnlyOfAll(s: seq<RowId>, keep: seq<RowId>)
    requires forall x :: x in s ==> x in keep
    ensures Only(s, keep) == s
  {
    if s != [] { assert s[0] in s; OnlyOfAll(s[1..], keep); }
  }

  lemma {:induction false} OnlyAfterOthers(a: seq<RowId>, b: seq<RowId>, keep: seq<RowId>)
    requires forall x :: x in a ==> x !in keep
    ensures Only(a + b, keep) == Only(b, keep)
  {
    if a == [] {
      assert a + b == b;
    } else {
      assert a[0] in a && (a + b)[1..] == a[1..] + b;
      OnlyAfterOthers(a[1..], b, keep);
    }
  }

  lemma {:induction false} OnlyBeforeOthers(a: seq<RowId>, b: seq<RowId>, keep: seq<RowId>)
    requires forall x :: x in b ==> x !in keep
    ensures Only(a + b, keep) == Only(a, keep)
  {
    if a == [] {
      assert a + b == b;
      OnlyAfterOthers(b, [], keep);
      assert b + [] == b;
    } else {
      assert (a + b)[1..] == a[1..] + b;
      OnlyBeforeOthers(a[1..], b, keep);
    }
  }

  lemma AppendIsDistinct(a: seq<RowId>, b: seq<RowId>)
    requires Distinct(a) && Distinct(b) && forall x :: x in a ==> x !in b
    ensures Distinct(a + b)
  {
    forall i, j | 0 <= i < j < |a + b| ensures (a + b)[i] != (a + b)[j] {
      if i < |a| <= j { assert a[i] in a && b[j - |a|] in b; }
    }
  }

  lemma SortKeepsPageOrder(page: Page, t: Table)
    requires InPageOrder(t)
    ensures InPageOrder(Sorted(page, t))
  {
    if HasKey(t) {
      var le := Order(page, t.sortKey.value, t.desc);
      var sorted := Sort(t.rows, le);
      RowsAreDistinct(t.body, t.rows);
      SortPermutes(t.rows, le);
      SortKeepsDistinct(t.rows, le);
      WithoutIsDistinct(t.body, sorted);
      WithoutContains(t.body, sorted);
      var front := Without(t.body, sorted);
      AppendIsDistinct(front, sorted);
      OnlyAfterOthers(front, sorted, sorted);
      OnlyOfAll(sorted, sorted);
    }
  }

  lemma {:induction false} OnlyIsDistinct(s: seq<RowId>, keep: seq<RowId>)
    requires Distinct(s)
    ensures Distinct(Only(s, keep))
  {
    if s != [] {
      OnlyIsDistinct(s[1..], keep);
      OnlyContains(s[1..], keep);
      assert s[0] !in s[1..];
    }
  }

  lemma RowsAreDistinct(body: seq<RowId>, rows: seq<RowId>)
    requires Distinct(body) && rows == Only(body, rows)
    ensures Distinct(rows)
  {
    OnlyIsDistinct(body, rows);
  }

  lemma SortEstablishesOrder(page: Page, t: Table)
    ensures SortHolds(page, Sorted(page, t))
  {
    if HasKey(t) {
      var column := ColumnOf(page, t.sortKey.value);
      var sorted := Sort(t.rows, Order(page, t.sortKey.value, t.desc));
      SortPermutes(t.rows, Order(page, t.sortKey.value, t.desc));
      if Sortable(page.lib, sorted, column) {
        SameRowsSortable(page.lib, sorted, t.rows, column);
        SortedColumn(page.lib, t.desc, t.rows, column);
      }
    }
  }

  lemma SameRowsSortable(lib: Library, a: seq<RowId>, b: seq<RowId>, column: Column)
    requires Sortable(lib, a, column) && forall x :: x in b ==> x in a
    ensures Sortable(lib, b, column)
  {
  }

  lemma FilterEstablishes(page: Page, t: Table)
    ensures FilterHolds(page, Filtered(page, t))
  {
  }

  // Runs

  lemma AppendedAreNew(a: seq<RowId>, b: seq<RowId>)
    requires Distinct(a + b)
    ensures Distinct(a) && forall x :: x in b ==> x !in a
  {
    assert forall i :: 0 <= i < |a| ==> (a + b)[i] == a[i];
    forall x | x in b ensures x !in a {
      var j :| 0 <= j < |b| && b[j] == x;
      forall i | 0 <= i < |a| ensures a[i] != x {
        assert (a + b)[i] != (a + b)[|a| + j];
      }
    }
  }

  lemma StepKeepsPageOrder(page: Page, t: Table, e: Event)
    requires InPageOrder(t) && Enabled(t, e)
    ensures InPageOrder(Apply(page, t, e))
  {
    match e
    case ToggleSort(key) => SortKeepsPageOrder(page, Cycled(t, key));
    case MobileSort(raw) => SortKeepsPageOrder(page, t.(sortKey := Picked(raw).0, desc := Picked(raw).1));
    case PageAppends(more) =>
      OnlyContains(t.body, t.rows);
      AppendedAreNew(t.body, more);
      OnlyBeforeOthers(t.body, more, t.rows);
    case Refresh =>
      OnlyOfAll(t.body, t.body);
      SortKeepsPageOrder(page, t.(rows := t.body, snapshot := t.body));
    case _ =>
  }

  lemma StepKeepsCoherent(page: Page, t: Table, e: Event)
    requires Coherent(page, t) && Enabled(t, e)
    ensures Coherent(page, Apply(page, t, e))
  {
    StepKeepsPageOrder(page, t, e);
    match e
    case ToggleSort(key) =>
      SortEstablishesOrder(page, Cycled(t, key));
      FilterEstablishes(page, Sorted(page, Cycled(t, key)));
    case MobileSort(raw) =>
      var u := t.(sortKey := Picked(raw).0, desc := Picked(raw).1);
      SortEstablishesOrder(page, u);
      FilterEstablishes(page, Sorted(page, u));
    case ToggleChip(id) => FilterEstablishes(page, t.(active := Flipped(t.active, id)));
    case TimerFires => FilterEstablishes(page, t.(pending := false));
    case Refresh =>
      var u := t.(rows := t.body, snapshot := t.body);
      SortEstablishesOrder(page, u);
      FilterEstablishes(page, Sorted(page, u));
    case _ =>
  }

  lemma MountIsCoherent(page: Page, body: seq<RowId>, active: set<Str>, sortKey: Option<Str>, desc: bool)
    requires Distinct(body)
    ensures Coherent(page, Mount(page, body, active, sortKey, desc))
  {
    var t := Table([], active, sortKey, desc, body, body, {}, true, false, [], body);
    OnlyOfAll(body, body);
    SortKeepsPageOrder(page, t);
    SortEstablishesOrder(page, t);
    FilterEstablishes(page, Sorted(page, t));
  }

  /** Over every run the rows are a permutation of the last snapshot in page order, each hidden iff it does not match,
      the notice shown iff none matches, and the sorted column in its direction. */
  lemma {:induction false} RunKeepsCoherent(page: Page, t: Table, run: seq<Event>)
    requires Coherent(page, t) && ValidRun(page, t, run)
    ensures Coherent(page, After(page, t, run))
    decreases |run|
  {
    if run != [] {
      StepKeepsCoherent(page, t, run[0]);
      RunKeepsCoherent(page, Apply(page, t, run[0]), run[1..]);
    }
  }

  lemma EveryRunIsCoherent(
      page: Page, body: seq<RowId>, active: set<Str>, sortKey: Option<Str>, desc: bool, run: seq<Event>)
    requires Distinct(body) && ValidRun(page, Mount(page, body, active, sortKey, desc), run)
    ensures Coherent(page, After(page, Mount(page, body, active, sortKey, desc), run))
  {
    MountIsCoherent(page, body, active, sortKey, desc);
    RunKeepsCoherent(page, Mount(page, body, active, sortKey, desc), run);
  }

  // What several steps amount to

  /** Rows level in the second column stand in the order of the first. */
  lemma SecondSortKeepsFirst(page: Page, t: Table, first: Str, second: Str)
    requires first != second && first != [] && second != []
    requires t.sortKey != Some(first)
    requires Sortable(page.lib, t.rows, ColumnOf(page, first)) && Sortable(page.lib, t.rows, ColumnOf(page, second))
    ensures var u := Apply(page, Apply(page, t, ToggleSort(first)), ToggleSort(second));
            forall i, j :: 0 <= i < j < |u.rows| && Order(page, second, false)(u.rows[j], u.rows[i]) ==>
              Order(page, first, false)(u.rows[i], u.rows[j])
  {
    ColumnIsOrdered(page.lib, false, t.rows, ColumnOf(page, first));
    ColumnIsOrdered(page.lib, false, t.rows, ColumnOf(page, second));
    TiesKeepEarlierOrder(t.rows, Order(page, first, false), Order(page, second, false));
    ClickSorts(page, t, first);
    ClickSorts(page, Apply(page, t, ToggleSort(first)), second);
  }

  lemma ClickSorts(page: Page, t: Table, key: Str)
    requires key != [] && t.sortKey != Some(key)
    ensures var u := Apply(page, t, ToggleSort(key));
            u.sortKey == Some(key) && u.rows == Sort(t.rows, Order(page, key, false))
  {
  }

  /** Three clicks on a header clear the sort but leave the rows as one descending sort leaves them: the order before
      the clicks is back exactly when it was descending already. */
  lemma ThreeClicks(page: Page, t: Table, key: Str)
    requires Coherent(page, t) && key != [] && t.sortKey != Some(key) && Sortable(page.lib, t.rows, ColumnOf(page, key))
    ensures var click := ToggleSort(key);
            var u := Apply(page, Apply(page, Apply(page, t, click), click), click);
            && u.sortKey == None && u.rows == Sort(t.rows, Order(page, key, true))
            && (u.rows == t.rows <==> SortedBy(Order(page, key, true), t.rows))
  {
    var up, down := Order(page, key, false), Order(page, key, true);
    var column := ColumnOf(page, key);
    ColumnIsOrdered(page.lib, false, t.rows, column);
    ColumnIsOrdered(page.lib, true, t.rows, column);
    RowsAreDistinct(t.body, t.rows);
    forall x, y | x in t.rows && y in t.rows && down(x, y) && down(y, x) ensures up(x, y) && up(y, x) {
      LevelEitherWay(page.lib, column(x), column(y), true);
    }
    LaterSortWins(t.rows, up, down);
    SortFixesIff(t.rows, down);
  }

  /** Picking a direction in the dropdown and then its "no sort" option leaves the rows as that one sort leaves them: the
      order before is back exactly when the rows were in that direction already. */
  lemma NoSortKeepsTheSort(page: Page, t: Table, key: Str, desc: bool)
    requires Coherent(page, t) && key != [] && COLON !in key && Sortable(page.lib, t.rows, ColumnOf(page, key))
    ensures var u := Apply(page, Apply(page, t, MobileSort(OptionValue(key, desc))), MobileSort([]));
            && u.sortKey == None && u.rows == Sort(t.rows, Order(page, key, desc))
            && (u.rows == t.rows <==> SortedBy(Order(page, key, desc), t.rows))
  {
    OptionChoosesIff(key, desc);
    ColumnIsOrdered(page.lib, desc, t.rows, ColumnOf(page, key));
    RowsAreDistinct(t.body, t.rows);
    SortFixesIff(t.rows, Order(page, key, desc));
  }

  lemma SortedRowsStay(page: Page, t: Table)
    requires Distinct(t.rows) && SortHolds(page, t) && HasKey(t)
    requires Sortable(page.lib, t.rows, ColumnOf(page, t.sortKey.value))
    ensures Sort(t.rows, Order(page, t.sortKey.value, t.desc)) == t.rows
  {
    var column := ColumnOf(page, t.sortKey.value);
    ColumnIsOrdered(page.lib, t.desc, t.rows, column);
    InDirectionIsSorted(page.lib, t.desc, t.rows, column);
    SortFixesIff(t.rows, Order(page, t.sortKey.value, t.desc));
  }

  lemma SortAgain(page: Page, t: Table)
    requires Distinct(t.rows) && SortHolds(page, t) && t.rows == t.body
    requires HasKey(t) ==> Sortable(page.lib, t.rows, ColumnOf(page, t.sortKey.value))
    ensures Sorted(page, t) == t
  {
    if HasKey(t) {
      SortedRowsStay(page, t);
      WithoutAll(t.rows, t.rows);
    }
  }

  lemma FilterAgain(page: Page, t: Table)
    requires FilterHolds(page, t) && t.query == t.applied
    ensures Filtered(page, t) == t
  {
    assert HiddenAmong(page, t, t.rows) == t.hidden;
  }

  /** Taking the rows in again when the page has added none, and the query is applied, changes nothing visible. */
  lemma RefreshChangesNothing(page: Page, t: Table)
    requires Coherent(page, t) && t.rows == t.body && t.query == t.applied
    requires HasKey(t) ==> Sortable(page.lib, t.rows, ColumnOf(page, t.sortKey.value))
    ensures Apply(page, t, Refresh) == t.(snapshot := t.body)
  {
    var u := t.(rows := t.body, snapshot := t.body);
    OnlyOfAll(t.body, t.body);
    SortAgain(page, u);
    FilterAgain(page, u);
  }

  /** Activating a chip and deactivating it again leaves no trace. */
  lemma ChipTwice(page: Page, t: Table, id: Str)
    requires FilterHolds(page, t) && t.query == t.applied
    ensures Apply(page, Apply(page, t, ToggleChip(id)), ToggleChip(id)) == t
  {
    var u := Apply(page, t, ToggleChip(id));
    assert Flipped(u.active, id) == t.active;
    FilterAgain(page, t);
    assert HiddenAmong(page, u.(active := t.active), t.rows) == HiddenAmong(page, t, t.rows);
  }

  /** The option offered for a column and direction chooses them, exactly when the column's key has no colon. */
  lemma OptionChoosesIff(key: Str, desc: bool)
    ensures Picked(OptionValue(key, desc)) == (Some(key), desc) <==> COLON !in key
  {
    var raw := OptionValue(key, desc);
    var n := UpToColon(raw);
    var d := if desc then DESC else ASC;
    assert raw[|key|] == COLON && |raw| == |key| + 1 + |d|;
    assert forall i :: 0 <= i < |key| ==> raw[i] == key[i];
    assert n <= |key|;
    if COLON !in key {
      assert raw[n] == COLON;
      assert n == |key| && raw[..n] == key && raw[n + 1..] == d;
      assert UpToColon(d) == |d| && d[..|d|] == d;
    } else {
      var i :| 0 <= i < |key| && key[i] == COLON;
      assert raw[i] == COLON && n <= i;
      assert |raw[..n]| < |key|;
    }
  }

  /** In every coherent state the page shows the sorted column in order, if its cells are of one kind. */
  lemma CoherentCells(page: Page, t: Table)
    requires Coherent(page, t) && HasKey(t)
    requires OneKindOfCell(page.lib, t.rows, CellsOf(page, t.sortKey.value))
    ensures InCellOrder(page.lib, t.desc, t.rows, CellsOf(page, t.sortKey.value))
  {
    OneKindOfCellIsSortable(page.lib, t.rows, CellsOf(page, t.sortKey.value));
    DirectionIsCellOrder(page.lib, t.desc, t.rows, CellsOf(page, t.sortKey.value));
  }

  /** What a sort does to the rows: a permutation in the chosen direction of the cells, level rows as they were. */
  ghost predicate SortsCells(page: Page, key: Str, desc: bool, was: seq<RowId>, now: seq<RowId>) {
    var cells := CellsOf(page, key);
    && multiset(now) == multiset(was)
    && (OneKindOfCell(page.lib, was, cells) ==>
          InCellOrder(page.lib, desc, now, cells) && KeepsLevelRows(page.lib, was, now, cells))
  }

  /** An option's value ends in a colon and its direction. */
  lemma WordsOfOption(raw: Str)
    ensures |raw| > 5 && raw[|raw| - 5..] == [58, 100, 101, 115, 99] && 58 !in raw[..|raw| - 5] ==>
              Picked(raw) == (Some(raw[..|raw| - 5]), true)
    ensures |raw| > 4 && raw[|raw| - 4..] == [58, 97, 115, 99] && 58 !in raw[..|raw| - 4] ==>
              Picked(raw) == (Some(raw[..|raw| - 4]), false)
  {
    if |raw| > 5 && raw[|raw| - 5..] == [58, 100, 101, 115, 99] && 58 !in raw[..|raw| - 5] {
      assert raw == OptionValue(raw[..|raw| - 5], true);
      OptionChoosesIff(raw[..|raw| - 5], true);
    }
    if |raw| > 4 && raw[|raw| - 4..] == [58, 97, 115, 99] && 58 !in raw[..|raw| - 4] {
      assert raw == OptionValue(raw[..|raw| - 4], false);
      OptionChoosesIff(raw[..|raw| - 4], false);
    }
  }

  lemma SortHasEffect(page: Page, key: Str, desc: bool, rows: seq<RowId>)
    ensures SortsCells(page, key, desc, rows, Sort(rows, Order(page, key, desc)))
  {
    SortPermutes(rows, Order(page, key, desc));
    if OneKindOfCell(page.lib, rows, CellsOf(page, key)) {
      OneKindOfCellIsSortable(page.lib, rows, CellsOf(page, key));
      SortedCells(page.lib, desc, rows, CellsOf(page, key));
    }
  }

  /** All rows of the page are taken in, and nothing is left out or doubled. */
  lemma RefreshTakesAll(page: Page, t: Table)
    ensures multiset(Apply(page, t, Refresh).rows) == multiset(t.body)
  {
    var u := t.(rows := t.body, snapshot := t.body);
    if HasKey(u) { SortPermutes(u.rows, Order(page, u.sortKey.value, u.desc)); }
  }

  lemma MountTakesAll(page: Page, body: seq<RowId>, active: set<Str>, sortKey: Option<Str>, desc: bool)
    ensures multiset(Mount(page, body, active, sortKey, desc).rows) == multiset(body)
  {
    var t := Table([], active, sortKey, desc, body, body, {}, true, false, [], body);
    if HasKey(t) { SortPermutes(t.rows, Order(page, t.sortKey.value, t.desc)); }
  }

  // The component

  class Component {
    const page: Page
    var query: Str
    var activeChips: set<Str>
    var sortKey: Option<Str>
    var sortDesc: bool
    var rows: seq<RowId>
    var body: seq<RowId>
    var hidden: set<RowId>
    var emptyHidden: bool
    var timer: bool
    ghost var applied: Str
    ghost var snapshot: seq<RowId>

    ghost function View(): Table
      reads this
    {
      Table(query, activeChips, sortKey, sortDesc, rows, body, hidden, emptyHidden, timer, applied, snapshot)
    }

    /** Holds before and after every handler; the page may append rows in between. */
    ghost predicate Valid()
      reads this
    {
      Coherent(page, View())
    }

    constructor (page: Page, body: seq<RowId>, active: set<Str>, sortKey: Option<Str>, desc: bool)
      requires Distinct(body)
      ensures this.page == page && Valid() && View() == Mount(page, body, active, sortKey, desc)
      ensures multiset(rows) == multiset(body)
    {
      this.page := page;
      query, activeChips, this.sortKey, sortDesc := [], active, sortKey, desc;
      rows, this.body, hidden, emptyHidden, timer := body, body, {}, true, false;
      applied, snapshot := [], body;
      MountIsCoherent(page, body, active, sortKey, desc);
      MountTakesAll(page, body, active, sortKey, desc);
      new;
      Repaint();
    }

    method ApplySort()
      modifies this`rows, this`body
      ensures View() == Sorted(page, old(View()))
      ensures if sortKey.None? || sortKey.value == [] then rows == old(rows) && body == old(body)
              else SortsCells(page, sortKey.value, sortDesc, old(rows), rows)
    {
      if sortKey.None? || sortKey.value == [] { return; }
      var sorted := Sort(rows, Order(page, sortKey.value, sortDesc));
      SortHasEffect(page, sortKey.value, sortDesc, rows);
      MoveToEnd(sorted);
      rows := sorted;
    }

    /** Rows leave the body one by one for a fragment, which is then put at the end. */
    method MoveToEnd(sorted: seq<RowId>)
      modifies this`body
      ensures body == Without(old(body), sorted) + sorted
    {
      var fragment: seq<RowId> := [];
      WithoutNothing(body);
      for i := 0 to |sorted|
        invariant fragment == sorted[..i]
        invariant body == Without(old(body), sorted[..i])
      {
        MoveOne(old(body), sorted, i);
        body := Without(body, [sorted[i]]);
        fragment := fragment + [sorted[i]];
      }
      assert sorted[..|sorted|] == sorted;
      body := body + fragment;
    }

    method ApplyFilter()
      modifies this`hidden, this`emptyHidden, this`applied
      ensures View() == Filtered(page, old(View()))
      ensures forall r :: r in rows ==> (r in hidden <==> !AskedFor(page, query, activeChips, r))
      ensures emptyHidden <==> exists r :: r in rows && AskedFor(page, query, activeChips, r)
    {
      forall r { MatchesIff(page, query, activeChips, r); }
      ghost var was := View();
      var visible := 0;
      for i := 0 to |rows|
        invariant hidden == HiddenAmong(page, was, rows[..i])
        invariant visible > 0 <==> AnyShown(page, was, rows[..i])
        invariant visible >= 0 && emptyHidden == was.emptyHidden && applied == was.applied
      {
        var ok := Matches(page, query, activeChips, rows[i]);
        assert ok == Shows(page, was, rows[i]);
        assert rows[..i + 1] == rows[..i] + [rows[i]];
        HideOneMore(page, was, rows[..i], rows[i]);
        hidden := if ok then hidden - {rows[i]} else hidden + {rows[i]};
        if ok { visible := visible + 1; }
      }
      assert rows[..|rows|] == rows;
      emptyHidden := visible > 0;
      applied := query;
    }

    /** Sorting does nothing without a key. */
    method Repaint()
      modifies this`rows, this`body, this`hidden, this`emptyHidden, this`applied
      ensures View() == Filtered(page, Sorted(page, old(View())))
    {
      ApplySort();
      ApplyFilter();
    }

    method ToggleSort(key: Str)
      requires Valid()
      modifies this
      ensures View() == Apply(page, old(View()), Event.ToggleSort(key))
      ensures Valid()
      ensures sortKey == if old(sortKey) == Some(key) && old(sortDesc) then None else Some(key)
      ensures sortDesc <==> old(sortKey) == Some(key) && !old(sortDesc)
    {
      StepKeepsCoherent(page, View(), Event.ToggleSort(key));
      if sortKey != Some(key) {
        sortKey, sortDesc := Some(key), false;
      } else if !sortDesc {
        sortDesc := true;
      } else {
        sortKey, sortDesc := None, false;
      }
      Repaint();
    }

    /** Key and direction from the first two parts of the option's value. */
    method Choose(raw: Str)
      modifies this`sortKey, this`sortDesc
      ensures (sortKey, sortDesc) == Picked(raw)
    {
      if raw == [] {
        sortKey, sortDesc := None, false;
      } else {
        var n := UpToColon(raw);
        var dir := if n == |raw| then [] else raw[n + 1..][..UpToColon(raw[n + 1..])];
        assert n == |raw| ==> raw[..n] == raw;
        sortKey, sortDesc := Some(raw[..n]), dir == DESC;
      }
    }

    method OnMobileSort(raw: Str)
      requires Valid()
      modifies this
      ensures View() == Apply(page, old(View()), MobileSort(raw))
      ensures Valid()
      ensures raw == [] ==> sortKey == None && !sortDesc
      ensures |raw| > 5 && raw[|raw| - 5..] == [58, 100, 101, 115, 99] && 58 !in raw[..|raw| - 5] ==>
                sortKey == Some(raw[..|raw| - 5]) && sortDesc
      ensures |raw| > 4 && raw[|raw| - 4..] == [58, 97, 115, 99] && 58 !in raw[..|raw| - 4] ==>
                sortKey == Some(raw[..|raw| - 4]) && !sortDesc
    {
      WordsOfOption(raw);
      ghost var after := Apply(page, View(), MobileSort(raw));
      StepKeepsCoherent(page, View(), MobileSort(raw));
      Choose(raw);
      Repaint();
      assert View() == after;
    }

    method ToggleChip(id: Str)
      requires Valid()
      modifies this
      ensures View() == Apply(page, old(View()), Event.ToggleChip(id))
      ensures Valid()
      ensures forall c :: c in activeChips <==> ((c in old(activeChips)) != (c == id))
    {
      StepKeepsCoherent(page, View(), Event.ToggleChip(id));
      activeChips := if id in activeChips then activeChips - {id} else activeChips + {id};
      ApplyFilter();
    }

    method OnInput(text: Str)
      requires Valid()
      modifies this
      ensures View() == Apply(page, old(View()), Search(text))
      ensures Valid()
      ensures timer && forall r :: r in rows ==> (r in hidden <==> !Matches(page, applied, activeChips, r))
    {
      StepKeepsCoherent(page, View(), Search(text));
      query := text;
      timer := true;
    }

    method OnTimer()
      requires Valid() && timer
      modifies this
      ensures View() == Apply(page, old(View()), TimerFires)
      ensures Valid()
      ensures forall r :: r in rows ==> (r in hidden <==> !Matches(page, query, activeChips, r))
      ensures forall r :: r in rows ==> (r in hidden <==> !AskedFor(page, query, activeChips, r))
    {
      StepKeepsCoherent(page, View(), TimerFires);
      timer := false;
      ApplyFilter();
    }

    method RefreshRows()
      requires Valid()
      modifies this
      ensures View() == Apply(page, old(View()), Refresh)
      ensures Valid()
      ensures multiset(rows) == multiset(old(body))
    {
      RefreshTakesAll(page, View());
      ghost var was := View();
      StepKeepsCoherent(page, View(), Refresh);
      rows := body;
      snapshot := body;
      ghost var taken := was.(rows := was.body, snapshot := was.body);
      assert View() == taken;
      Repaint();
      assert View() == Filtered(page, Sorted(page, taken)) == Apply(page, was, Refresh);
    }
  }

  lemma {:induction false} WithoutNothing(s: seq<RowId>)
    ensures Without(s, []) == s
  {
    if s != [] { WithoutNothing(s[1..]); }
  }

  lemma {:induction false} WithoutTwice(s: seq<RowId>, a: seq<RowId>, b: seq<RowId>)
    ensures Without(Without(s, a), b) == Without(s, a + b)
  {
    if s != [] {
      WithoutTwice(s[1..], a, b);
      var w := Without(s[1..], a);
      assert s[0] !in a ==> ([s[0]] + w)[1..] == w && ([s[0]] + w)[0] == s[0];
      assert s[0] in a ==> Without(s, a) == w;
    }
  }

  lemma MoveOne(body: seq<RowId>, sorted: seq<RowId>, i: nat)
    requires i < |sorted|
    ensures Without(Without(body, sorted[..i]), [sorted[i]]) == Without(body, sorted[..i + 1])
  {
    assert sorted[..i + 1] == sorted[..i] + [sorted[i]];
    WithoutTwice(body, sorted[..i], [sorted[i]]);
  }
}
