/** How a table column is ordered: cells are coerced to a number or a lower-case text and compared. */
module ColumnOrder {
  import opened Wrappers
  import opened Sorting
  import Texts = Text

  type CodeUnit = Texts.CodeUnit
  type Str = seq<CodeUnit>

  /** The library functions a cell goes through: Number on a numeral (None when not finite), Date.parse,
      toLowerCase, and the conversion of a text that is compared with a number (None for NaN).  A search text
      also goes through trim. */
  datatype Library = Library(
    number: Str -> Option<real>, dateParse: Str -> Option<real>, lower: Str -> Str, toNumber: Str -> Option<real>,
    trim: Str -> Str)

  datatype Key = Num(value: real) | Text(text: Str)

  predicate IsDigit(c: CodeUnit) { 48 <= c <= 57 }

  predicate Digits(s: Str) { forall i :: 0 <= i < |s| ==> IsDigit(s[i]) }

  const MINUS: CodeUnit := 45
  const DOT: CodeUnit := 46

  function DigitsEnd(s: Str): nat {
    if s == [] || !IsDigit(s[0]) then 0 else 1 + DigitsEnd(s[1..])
  }

  /** An optional minus, digits, and optionally a dot and digits. */
  predicate IsNumeral(raw: Str) {
    var s := if raw != [] && raw[0] == MINUS then raw[1..] else raw;
    var n := DigitsEnd(s);
    n > 0 && n <= |s| && (n == |s| || (s[n] == DOT && n + 1 < |s| && Digits(s[n + 1..])))
  }

  /** YYYY-MM-DD, with anything after it. */
  predicate StartsWithDate(raw: Str) {
    && |raw| >= 10 && Digits(raw[..4]) && raw[4] == MINUS && Digits(raw[5..7]) && raw[7] == MINUS && Digits(raw[8..10])
  }

  function Coerce(lib: Library, raw: Option<Str>): Key {
    if raw.None? then Text([])
    else if IsNumeral(raw.value) && lib.number(raw.value).Some? then Num(lib.number(raw.value).value)
    else if StartsWithDate(raw.value) && lib.dateParse(raw.value).Some? then Num(lib.dateParse(raw.value).value)
    else Text(lib.lower(raw.value))
  }

  predicate IsEmpty(k: Key) { k.Text? && k.text == [] }

  /** The `<` of the language: a number and a text compare as numbers, never when the text is none. */
  predicate Less(lib: Library, a: Key, b: Key) {
    match (a, b)
    case (Num(x), Num(y)) => x < y
    case (Text(x), Text(y)) => TextLess(x, y)
    case (Num(x), Text(y)) => lib.toNumber(y).Some? && x < lib.toNumber(y).value
    case (Text(x), Num(y)) => lib.toNumber(x).Some? && lib.toNumber(x).value < y
  }

  /** The comparator: empty cells last whatever the direction, then by value in the direction. */
  function Compare(lib: Library, desc: bool, a: Key, b: Key): int {
    var dir := if desc then -1 else 1;
    if IsEmpty(a) && !IsEmpty(b) then 1
    else if IsEmpty(b) && !IsEmpty(a) then -1
    else if Less(lib, a, b) then -1 * dir
    else if Less(lib, b, a) then 1 * dir
    else 0
  }

  predicate NotAfter(lib: Library, desc: bool, a: Key, b: Key) { Compare(lib, desc, a, b) <= 0 }

  /** The comparator is antisymmetric in sign, so of two keys one is not after the other. */
  lemma CompareIsTotal(lib: Library, desc: bool, a: Key, b: Key)
    ensures Compare(lib, desc, a, b) == -Compare(lib, desc, b, a)
    ensures NotAfter(lib, desc, a, b) || NotAfter(lib, desc, b, a)
  {
    if a.Text? && b.Text? { TextLessIsTotal(a.text, b.text); }
  }

  /** A text that is no number when compared with one. */
  predicate IsWord(lib: Library, k: Key) { k.Text? && k.text != [] && lib.toNumber(k.text).None? }

  /** What three keys must meet for numbers and texts to be ordered together: beside a word all numbers are
      equal, and every number lies above the first or below the second of two texts in order. */
  predicate Aligned(lib: Library, a: Key, b: Key, c: Key) {
    && (a.Num? && b.Num? && IsWord(lib, c) ==> a.value == b.value)
    && (a.Text? && b.Text? && c.Num? && a.text != [] && TextLess(a.text, b.text) ==> Less(lib, c, b) || Less(lib, a, c))
  }

  predicate AllAligned(lib: Library, a: Key, b: Key, c: Key) {
    && Aligned(lib, a, b, c) && Aligned(lib, b, c, a) && Aligned(lib, c, a, b)
    && Aligned(lib, a, c, b) && Aligned(lib, c, b, a) && Aligned(lib, b, a, c)
  }

  /** What lies below another key lies below or above any third. */
  lemma BelowOrAbove(lib: Library, p: Key, m: Key, q: Key)
    requires AllAligned(lib, p, m, q) && !IsEmpty(p) && !IsEmpty(m) && !IsEmpty(q) && Less(lib, p, q)
    ensures Less(lib, p, m) || Less(lib, m, q)
  {
    match (p, q, m)
    case (Text(x), Text(y), Text(z)) =>
      TextLessIsTotal(x, z);
      TextLessIsTotal(z, y);
      if TextLess(z, x) { TextLessIsTransitive(z, x, y); }
    case (Num(_), Text(y), Text(z)) => TextLessIsTotal(y, z);
    case (Text(x), Num(_), Text(z)) => TextLessIsTotal(x, z);
    case (Num(_), Num(_), Num(_)) =>
    case (Num(_), Num(_), Text(_)) =>
    case (Num(_), Text(_), Num(_)) =>
    case (Text(_), Num(_), Num(_)) =>
    case (Text(_), Text(_), Num(_)) =>
  }

  lemma NotAfterIsNotBelow(lib: Library, desc: bool, a: Key, b: Key)
    requires !IsEmpty(a) && !IsEmpty(b)
    ensures NotAfter(lib, desc, a, b) <==> if desc then !Less(lib, a, b) else !Less(lib, b, a)
  {
    if a.Text? && b.Text? { TextLessIsTotal(a.text, b.text); }
  }

  lemma CompareIsTransitive(lib: Library, desc: bool, a: Key, b: Key, c: Key)
    requires AllAligned(lib, a, b, c)
    requires NotAfter(lib, desc, a, b) && NotAfter(lib, desc, b, c)
    ensures NotAfter(lib, desc, a, c)
  {
    if !IsEmpty(a) && !IsEmpty(b) && !IsEmpty(c) {
      NotAfterIsNotBelow(lib, desc, a, b);
      NotAfterIsNotBelow(lib, desc, b, c);
      NotAfterIsNotBelow(lib, desc, a, c);
      if desc && Less(lib, a, c) { BelowOrAbove(lib, a, b, c); }
      if !desc && Less(lib, c, a) { BelowOrAbove(lib, c, b, a); }
    }
  }

  /** With mixed kinds the comparator may be no order: 2 is level with a word, the word with 1, yet 2 is after 1. */
  lemma MixedKindsAreNotOrdered(lib: Library, word: Str)
    requires word != [] && lib.toNumber(word).None?
    ensures NotAfter(lib, false, Num(2.0), Text(word)) && NotAfter(lib, false, Text(word), Num(1.0))
    ensures !NotAfter(lib, false, Num(2.0), Num(1.0))
  {
  }

  /** Three keys that are not aligned go in a circle. */
  lemma UnalignedIsCircular(lib: Library, desc: bool, a: Key, b: Key, c: Key) returns (x: Key, y: Key, z: Key)
    requires !Aligned(lib, a, b, c)
    ensures {x, y, z} <= {a, b, c}
    ensures NotAfter(lib, desc, x, y) && NotAfter(lib, desc, y, z) && !NotAfter(lib, desc, x, z)
  {
    if a.Num? {
      var low, high := if a.value < b.value then a else b, if a.value < b.value then b else a;
      x, y, z := if desc then low else high, c, if desc then high else low;
    } else {
      x, y, z := if desc then a else b, c, if desc then b else a;
      TextLessIsTotal(a.text, b.text);
    }
  }

  // Columns

  type RowId = nat

  /** The key of each row in the column at hand. */
  type Column = RowId -> Key

  /** Any three keys of the column are aligned. */
  ghost predicate Sortable(lib: Library, rows: seq<RowId>, column: Column) {
    forall x, y, z :: x in rows && y in rows && z in rows ==> Aligned(lib, column(x), column(y), column(z))
  }

  /** All cells that are not empty are numbers, or all are texts. */
  ghost predicate OneKind(rows: seq<RowId>, column: Column) {
    || (forall x :: x in rows ==> IsEmpty(column(x)) || column(x).Num?)
    || (forall x :: x in rows ==> column(x).Text?)
  }

  lemma OneKindIsSortable(lib: Library, rows: seq<RowId>, column: Column)
    requires OneKind(rows, column)
    ensures Sortable(lib, rows, column)
  {
    forall x, y, z | x in rows && y in rows && z in rows ensures Aligned(lib, column(x), column(y), column(z)) {
      assert (IsEmpty(column(x)) || column(x).Num?) || column(x).Text?;
      if column(x).Text? && column(y).Text? { TextLessIsTotal(column(x).text, column(y).text); }
    }
  }

  function RowOrder(lib: Library, desc: bool, column: Column): (RowId, RowId) -> bool {
    (x: RowId, y: RowId) => NotAfter(lib, desc, column(x), column(y))
  }

  /** The comparator orders exactly the columns whose keys are aligned, in either direction. */
  lemma OrderedIffSortable(lib: Library, desc: bool, rows: seq<RowId>, column: Column)
    ensures TotalPreorder(RowOrder(lib, desc, column), rows) <==> Sortable(lib, rows, column)
  {
    if Sortable(lib, rows, column) {
      ColumnIsOrdered(lib, desc, rows, column);
    } else {
      var a, b, c :| a in rows && b in rows && c in rows && !Aligned(lib, column(a), column(b), column(c));
      var i, j, k := CircularRows(lib, desc, column, a, b, c);
      assert i in rows && j in rows && k in rows;
    }
  }

  lemma CircularRows(lib: Library, desc: bool, column: Column, a: RowId, b: RowId, c: RowId)
      returns (i: RowId, j: RowId, k: RowId)
    requires !Aligned(lib, column(a), column(b), column(c))
    ensures i in [a, b, c] && j in [a, b, c] && k in [a, b, c]
    ensures var le := RowOrder(lib, desc, column); le(i, j) && le(j, k) && !le(i, k)
  {
    var x, y, z := UnalignedIsCircular(lib, desc, column(a), column(b), column(c));
    i := RowOf(a, b, c, column, x);
    j := RowOf(a, b, c, column, y);
    k := RowOf(a, b, c, column, z);
  }

  lemma RowOf(a: RowId, b: RowId, c: RowId, column: Column, key: Key) returns (row: RowId)
    requires key in {column(a), column(b), column(c)}
    ensures row in [a, b, c] && column(row) == key
  {
    row := if column(a) == key then a else if column(b) == key then b else c;
  }

  lemma ColumnIsOrdered(lib: Library, desc: bool, rows: seq<RowId>, column: Column)
    requires Sortable(lib, rows, column)
    ensures TotalPreorder(RowOrder(lib, desc, column), rows)
  {
    var le := RowOrder(lib, desc, column);
    forall x, y | x in rows && y in rows ensures le(x, y) || le(y, x) {
      CompareIsTotal(lib, desc, column(x), column(y));
    }
    forall x, y, z | x in rows && y in rows && z in rows && le(x, y) && le(y, z) ensures le(x, z) {
      CompareIsTransitive(lib, desc, column(x), column(y), column(z));
    }
  }

  /** The rows in the chosen direction, with the empty cells behind all others in either direction. */
  ghost predicate InDirection(lib: Library, desc: bool, rows: seq<RowId>, column: Column) {
    forall i, j :: 0 <= i < j < |rows| ==>
      var a, b := column(rows[i]), column(rows[j]);
      && (IsEmpty(a) ==> IsEmpty(b))
      && (!IsEmpty(a) && !IsEmpty(b) ==> if desc then !Less(lib, a, b) else !Less(lib, b, a))
  }

  /** Keys that are level in one direction are level in the other. */
  lemma LevelEitherWay(lib: Library, a: Key, b: Key, desc: bool)
    requires NotAfter(lib, desc, a, b) && NotAfter(lib, desc, b, a)
    ensures NotAfter(lib, !desc, a, b) && NotAfter(lib, !desc, b, a)
  {
    CompareIsTotal(lib, desc, a, b);
  }

  lemma InDirectionIsSorted(lib: Library, desc: bool, rows: seq<RowId>, column: Column)
    requires InDirection(lib, desc, rows, column)
    ensures SortedBy(RowOrder(lib, desc, column), rows)
  {
  }

  /** Sorting a column whose keys are aligned: a stable permutation in the chosen direction, empty cells last. */
  lemma SortedColumn(lib: Library, desc: bool, rows: seq<RowId>, column: Column)
    requires Sortable(lib, rows, column)
    ensures var le := RowOrder(lib, desc, column);
            var sorted := Sort(rows, le);
            && multiset(sorted) == multiset(rows)
            && InDirection(lib, desc, sorted, column)
            && StableFrom(le, rows, sorted)
  {
    var le := RowOrder(lib, desc, column);
    ColumnIsOrdered(lib, desc, rows, column);
    SortPermutes(rows, le);
    SortSorts(rows, le);
    SortIsStable(rows, le);
    var sorted := Sort(rows, le);
    forall i, j | 0 <= i < j < |sorted|
      ensures var a, b := column(sorted[i]), column(sorted[j]);
              && (IsEmpty(a) ==> IsEmpty(b))
              && (!IsEmpty(a) && !IsEmpty(b) ==> if desc then !Less(lib, a, b) else !Less(lib, b, a))
    {
      assert le(sorted[i], sorted[j]) && sorted[i] in sorted && sorted[j] in sorted;
      var a, b := column(sorted[i]), column(sorted[j]);
      if a.Text? && b.Text? { TextLessIsTotal(a.text, b.text); }
    }
  }
}
