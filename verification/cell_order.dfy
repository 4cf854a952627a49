/** Which key a cell gets, and what a sorted column looks like on the page, in terms of the cells' own characters. */
module CellOrder {
  import opened Wrappers
  import opened Sorting
  import opened ColumnOrder

  predicate SomeDigits(s: Str) { s != [] && forall i :: 0 <= i < |s| ==> 48 <= s[i] <= 57 }

  ghost predicate NumeralParts(raw: Str, sign: Str, whole: Str, frac: Str) {
    && (sign == [] || sign == [45]) && SomeDigits(whole)
    && (raw == sign + whole || (SomeDigits(frac) && raw == sign + (whole + ([46] + frac))))
  }

  /** An optional minus, digits, and optionally a dot and digits: nothing else. */
  ghost predicate Numeral(raw: Str) { exists sign, whole, frac :: NumeralParts(raw, sign, whole, frac) }

  ghost predicate DateParts(raw: Str, year: Str, month: Str, day: Str, rest: Str) {
    && |year| == 4 && |month| == 2 && |day| == 2 && SomeDigits(year) && SomeDigits(month) && SomeDigits(day)
    && raw == year + ([45] + (month + ([45] + (day + rest))))
  }

  /** Four digits, two and two with minus signs between, and anything after. */
  ghost predicate DateLike(raw: Str) { exists year, month, day, rest :: DateParts(raw, year, month, day, rest) }

  /** The cell is read as this number: as a finite numeral, or as a date that can be parsed. */
  ghost predicate ReadsAs(lib: Library, cell: Option<Str>, v: real) {
    cell.Some? && ((Numeral(cell.value) && lib.number(cell.value) == Some(v))
                   || (DateLike(cell.value) && lib.dateParse(cell.value) == Some(v)))
  }

  /** The cell is read as this text: absent, or neither number nor date and then in lower case. */
  ghost predicate ReadsAsText(lib: Library, cell: Option<Str>, w: Str) {
    if cell.None? then w == []
    else
      && w == lib.lower(cell.value) && !(Numeral(cell.value) && lib.number(cell.value).Some?)
      && !(DateLike(cell.value) && lib.dateParse(cell.value).Some?)
  }

  /** At the first place where they differ a has the smaller character, or it ends there. */
  ghost predicate Before(a: Str, b: Str) {
    exists k :: 0 <= k <= |a| && k < |b| && a[..k] == b[..k] && (k == |a| || a[k] < b[k])
  }

  // Characters

  lemma {:induction false} DigitsEndIs(s: Str, whole: Str, rest: Str)
    requires s == whole + rest && SomeDigits(whole) && (rest != [] ==> !(48 <= rest[0] <= 57))
    ensures DigitsEnd(s) == |whole|
  {
    assert s[0] == whole[0];
    if |whole| == 1 {
      assert s[1..] == rest;
    } else {
      assert s[1..] == whole[1..] + rest;
      DigitsEndIs(s[1..], whole[1..], rest);
    }
  }

  lemma {:induction false} DigitsEndFacts(s: Str)
    ensures DigitsEnd(s) <= |s| && (DigitsEnd(s) > 0 ==> SomeDigits(s[..DigitsEnd(s)]))
  {
    if s != [] && IsDigit(s[0]) {
      DigitsEndFacts(s[1..]);
      var n := DigitsEnd(s[1..]);
      assert s[..n + 1] == [s[0]] + s[1..][..n];
    }
  }

  lemma NumeralIsTaken(raw: Str, sign: Str, whole: Str, frac: Str)
    requires NumeralParts(raw, sign, whole, frac)
    ensures IsNumeral(raw)
  {
    var rest := if raw == sign + whole then [] else [46] + frac;
    assert raw == sign + (whole + rest);
    var s := whole + rest;
    assert sign == [45] ==> raw[0] == 45 && raw[1..] == s;
    assert sign == [] ==> raw == s && raw[0] == whole[0];
    DigitsEndIs(s, whole, rest);
    assert rest != [] ==> s[|whole|] == 46 && s[|whole| + 1..] == frac;
  }

  lemma TakenParts(s: Str, n: nat)
    requires n == DigitsEnd(s) && n > 0 && n < |s| && s[n] == DOT && n + 1 < |s| && Digits(s[n + 1..])
    ensures SomeDigits(s[..n]) && SomeDigits(s[n + 1..]) && s == s[..n] + ([46] + s[n + 1..])
  {
    DigitsEndFacts(s);
  }

  lemma TakenIsNumeral(raw: Str)
    requires IsNumeral(raw)
    ensures Numeral(raw)
  {
    var minus := raw != [] && raw[0] == MINUS;
    var s, sign: Str := if minus then raw[1..] else raw, if minus then [45] else [];
    var n := DigitsEnd(s);
    assert raw == sign + s;
    if n == |s| {
      DigitsEndFacts(s);
      assert s[..n] == s;
      assert NumeralParts(raw, sign, s, []);
    } else {
      TakenParts(s, n);
      assert NumeralParts(raw, sign, s[..n], s[n + 1..]);
    }
  }

  lemma NumeralIff(raw: Str)
    ensures Numeral(raw) <==> IsNumeral(raw)
  {
    if Numeral(raw) {
      var sign, whole, frac :| NumeralParts(raw, sign, whole, frac);
      NumeralIsTaken(raw, sign, whole, frac);
    }
    if IsNumeral(raw) { TakenIsNumeral(raw); }
  }

  lemma DateIff(raw: Str)
    ensures DateLike(raw) <==> StartsWithDate(raw)
  {
    if DateLike(raw) {
      var year, month, day, rest :| DateParts(raw, year, month, day, rest);
      DateIsTaken(raw, year, month, day, rest);
    }
    if StartsWithDate(raw) {
      assert raw == raw[..4] + ([45] + (raw[5..7] + ([45] + (raw[8..10] + raw[10..]))));
      assert DateParts(raw, raw[..4], raw[5..7], raw[8..10], raw[10..]);
    }
  }

  lemma DateIsTaken(raw: Str, year: Str, month: Str, day: Str, rest: Str)
    requires DateParts(raw, year, month, day, rest)
    ensures StartsWithDate(raw)
  {
    assert |raw| >= 10 && raw[..4] == year && raw[4] == 45 && raw[5..7] == month && raw[7] == 45 && raw[8..10] == day;
  }

  lemma NumeralHasNoInnerMinus(raw: Str)
    requires IsNumeral(raw)
    ensures forall i :: 1 <= i < |raw| ==> raw[i] != MINUS
  {
    var minus := raw[0] == MINUS;
    var s := if minus then raw[1..] else raw;
    var n := DigitsEnd(s);
    DigitsEndFacts(s);
    forall i | 0 <= i < |s| ensures s[i] != MINUS {
      if i < n { assert s[i] == s[..n][i]; }
      if i > n { assert s[i] == s[n + 1..][i - n - 1]; }
    }
    assert forall i :: 1 <= i < |raw| ==> raw[i] == if minus then s[i - 1] else s[i];
  }

  lemma NumeralIsNoDate(raw: Str)
    requires IsNumeral(raw)
    ensures !StartsWithDate(raw)
  {
    NumeralHasNoInnerMinus(raw);
  }

  /** A cell gets the number it is read as, and otherwise its text. */
  lemma CoerceReads(lib: Library, cell: Option<Str>)
    ensures forall v :: ReadsAs(lib, cell, v) <==> Coerce(lib, cell) == Num(v)
    ensures forall w :: ReadsAsText(lib, cell, w) <==> Coerce(lib, cell) == Text(w)
  {
    if cell.Some? {
      NumeralIff(cell.value);
      DateIff(cell.value);
      if IsNumeral(cell.value) { NumeralIsNoDate(cell.value); }
    }
  }

  lemma {:induction false} BeforeIff(a: Str, b: Str)
    ensures Before(a, b) <==> TextLess(a, b)
  {
    if Before(a, b) {
      var k :| 0 <= k <= |a| && k < |b| && a[..k] == b[..k] && (k == |a| || a[k] < b[k]);
      BeforeIsLess(a, b, k);
    }
    if TextLess(a, b) { var k := LessIsBefore(a, b); }
  }

  lemma {:induction false} BeforeIsLess(a: Str, b: Str, k: nat)
    requires k <= |a| && k < |b| && a[..k] == b[..k] && (k == |a| || a[k] < b[k])
    ensures TextLess(a, b)
  {
    if k > 0 {
      assert a[0] == a[..k][0] == b[..k][0] == b[0];
      assert a[1..][..k - 1] == a[..k][1..] && b[1..][..k - 1] == b[..k][1..];
      BeforeIsLess(a[1..], b[1..], k - 1);
    }
  }

  lemma {:induction false} LessIsBefore(a: Str, b: Str) returns (k: nat)
    requires TextLess(a, b)
    ensures k <= |a| && k < |b| && a[..k] == b[..k] && (k == |a| || a[k] < b[k])
  {
    if a == [] || a[0] < b[0] {
      k := 0;
    } else {
      var m := LessIsBefore(a[1..], b[1..]);
      k := m + 1;
      assert a[..k] == [a[0]] + a[1..][..m] && b[..k] == [b[0]] + b[1..][..m];
    }
  }

  // Rows

  type Cells = RowId -> Option<Str>

  /** In the chosen direction: numbers and dates by value, texts by their first difference, and what is absent or empty
      behind everything else. */
  ghost predicate InCellOrder(lib: Library, desc: bool, rows: seq<RowId>, cells: Cells) {
    forall i, j :: 0 <= i < j < |rows| ==> CellsAgree(lib, desc, cells(rows[i]), cells(rows[j]))
  }

  ghost predicate CellsAgree(lib: Library, desc: bool, a: Option<Str>, b: Option<Str>) {
    && (forall v, w :: ReadsAs(lib, a, v) && ReadsAs(lib, b, w) ==> if desc then v >= w else v <= w)
    && (forall v, w :: ReadsAsText(lib, a, v) && ReadsAsText(lib, b, w) && v != [] && w != [] ==>
          if desc then !Before(v, w) else !Before(w, v))
    && (ReadsAsText(lib, a, []) ==> ReadsAsText(lib, b, []))
  }

  /** Cells that read the same. */
  ghost predicate Level(lib: Library, a: Option<Str>, b: Option<Str>) {
    || (exists v :: ReadsAs(lib, a, v) && ReadsAs(lib, b, v))
    || (exists w :: ReadsAsText(lib, a, w) && ReadsAsText(lib, b, w))
  }

  /** Rows whose cells read the same keep the order they had. */
  ghost predicate KeepsLevelRows(lib: Library, was: seq<RowId>, now: seq<RowId>, cells: Cells) {
    forall i, j :: 0 <= i < j < |now| && Level(lib, cells(now[i]), cells(now[j])) ==> Precedes(was, now[i], now[j])
  }

  /** All cells are numbers and dates, empty ones apart; or all are texts. */
  ghost predicate OneKindOfCell(lib: Library, rows: seq<RowId>, cells: Cells) {
    || (forall r :: r in rows ==> ReadsAsText(lib, cells(r), []) || exists v :: ReadsAs(lib, cells(r), v))
    || (forall r :: r in rows ==> exists w :: ReadsAsText(lib, cells(r), w))
  }

  function Keys(lib: Library, cells: Cells): Column {
    (r: RowId) => Coerce(lib, cells(r))
  }

  lemma OneKindOfCellIsSortable(lib: Library, rows: seq<RowId>, cells: Cells)
    requires OneKindOfCell(lib, rows, cells)
    ensures Sortable(lib, rows, Keys(lib, cells))
  {
    forall r | r in rows { CoerceReads(lib, cells(r)); }
    assert OneKind(rows, Keys(lib, cells));
    OneKindIsSortable(lib, rows, Keys(lib, cells));
  }

  lemma KeysAgree(lib: Library, desc: bool, a: Option<Str>, b: Option<Str>)
    requires var x, y := Coerce(lib, a), Coerce(lib, b);
             && (IsEmpty(x) ==> IsEmpty(y))
             && (!IsEmpty(x) && !IsEmpty(y) ==> if desc then !Less(lib, x, y) else !Less(lib, y, x))
    ensures CellsAgree(lib, desc, a, b)
  {
    CoerceReads(lib, a);
    CoerceReads(lib, b);
    forall v, w | ReadsAsText(lib, a, v) && ReadsAsText(lib, b, w) && v != [] && w != []
      ensures if desc then !Before(v, w) else !Before(w, v)
    {
      BeforeIff(v, w);
      BeforeIff(w, v);
    }
  }

  lemma DirectionIsCellOrder(lib: Library, desc: bool, rows: seq<RowId>, cells: Cells)
    requires InDirection(lib, desc, rows, Keys(lib, cells))
    ensures InCellOrder(lib, desc, rows, cells)
  {
    forall i, j | 0 <= i < j < |rows| ensures CellsAgree(lib, desc, cells(rows[i]), cells(rows[j])) {
      KeysAgree(lib, desc, cells(rows[i]), cells(rows[j]));
    }
  }

  /** Sorting a column of cells of one kind, or any that the comparator orders. */
  lemma SortedCells(lib: Library, desc: bool, rows: seq<RowId>, cells: Cells)
    requires Sortable(lib, rows, Keys(lib, cells))
    ensures var sorted := Sort(rows, RowOrder(lib, desc, Keys(lib, cells)));
            && multiset(sorted) == multiset(rows) && InCellOrder(lib, desc, sorted, cells)
            && KeepsLevelRows(lib, rows, sorted, cells)
  {
    var column := Keys(lib, cells);
    var le := RowOrder(lib, desc, column);
    var sorted := Sort(rows, le);
    SortedColumn(lib, desc, rows, column);
    DirectionIsCellOrder(lib, desc, sorted, cells);
    forall i, j | 0 <= i < j < |sorted| && Level(lib, cells(sorted[i]), cells(sorted[j]))
      ensures Precedes(rows, sorted[i], sorted[j])
    {
      LevelIsLevel(lib, desc, cells(sorted[i]), cells(sorted[j]));
      assert le(sorted[j], sorted[i]);
    }
  }

  lemma LevelIsLevel(lib: Library, desc: bool, a: Option<Str>, b: Option<Str>)
    requires Level(lib, a, b)
    ensures NotAfter(lib, desc, Coerce(lib, b), Coerce(lib, a))
  {
    CoerceReads(lib, a);
    CoerceReads(lib, b);
    if exists w :: ReadsAsText(lib, a, w) && ReadsAsText(lib, b, w) {
      var w: Str :| ReadsAsText(lib, a, w) && ReadsAsText(lib, b, w);
      TextLessIsTotal(w, w);
    }
  }
}
