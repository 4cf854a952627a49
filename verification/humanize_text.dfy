/** What the words on the page say, read by a table of their own, and what they say for each form of line. */
module HumanizeText {
  import opened HumanizeCron
  import opened Text
  import opened Wrappers

  // Reading the page

  function DigitAt(s: string, i: nat): int
    requires i < |s|
  {
    (s[i] as int) - 48
  }

  predicate DigitsAt(s: string, i: nat, n: nat) {
    i + n <= |s| && forall k :: i <= k < i + n ==> 48 <= s[k] as int <= 57
  }

  /** Two digits at a place read as this number. */
  predicate TwoDigits(s: string, i: nat, n: int) {
    DigitsAt(s, i, 2) && n == 10 * DigitAt(s, i) + DigitAt(s, i + 1)
  }

  /** The hour stands before the colon and the minute after it. */
  predicate ClockSays(s: string, x: Moment) {
    |s| == 5 && s[2] == ':' && TwoDigits(s, 0, (x.t / 60) % 24) && TwoDigits(s, 3, x.t % 60)
  }

  predicate WeekdayIs(word: string, dow: int) {
    || (word == "Sunday" && dow == 0) || (word == "Monday" && dow == 1) || (word == "Tuesday" && dow == 2)
    || (word == "Wednesday" && dow == 3) || (word == "Thursday" && dow == 4) || (word == "Friday" && dow == 5)
    || (word == "Saturday" && dow == 6)
  }

  predicate MonthIs(word: string, month: int) {
    || (word == "Jan" && month == 1) || (word == "Feb" && month == 2) || (word == "Mar" && month == 3)
    || (word == "Apr" && month == 4) || (word == "May" && month == 5) || (word == "Jun" && month == 6)
    || (word == "Jul" && month == 7) || (word == "Aug" && month == 8) || (word == "Sep" && month == 9)
    || (word == "Oct" && month == 10) || (word == "Nov" && month == 11) || (word == "Dec" && month == 12)
  }

  predicate EnglishSuffix(word: string, n: int) {
    if n == 1 || n == 21 || n == 31 then word == "st"
    else if n == 2 || n == 22 then word == "nd"
    else if n == 3 || n == 23 then word == "rd"
    else word == "th"
  }

  /** One or two digits and the suffix the number has in English. */
  predicate DayIs(word: string, n: int) {
    || (|word| == 3 && DigitsAt(word, 0, 1) && n == DigitAt(word, 0) && EnglishSuffix(word[1..], n))
    || (|word| == 4 && TwoDigits(word, 0, n) && EnglishSuffix(word[2..], n))
  }

  /** The words before the clock. */
  predicate DayMeans(head: string, x: Moment) {
    || head == "Daily"
    || ("Weekly on " <= head && WeekdayIs(head[10..], x.dow))
    || ("Monthly on the " <= head && DayIs(head[15..], x.dom))
    || ("Yearly on " <= head && |head| > 14 && MonthIs(head[10..13], x.month) && head[13] == ' ' && DayIs(head[14..], x.dom))
    || (head == "Yearly on Jan 1" && x.month == 1 && x.dom == 1)
  }

  predicate EndsWith(s: string, end: string) {
    |end| <= |s| && s[|s| - |end|..] == end
  }

  /** "Every n minutes" means n apart, counted from midnight. */
  predicate StepSays(digits: string, x: Moment) {
    AllDigits(digits) && NumberOf(digits) > 0 && x.t % NumberOf(digits) == 0
  }

  /** The minutes a text stands for. */
  predicate Means(text: string, x: Moment) {
    if text == "Every hour" then x.t % 60 == 0
    else if text == "Every minute" then true
    else if "Every hour at :" <= text then |text| == 17 && TwoDigits(text, 15, x.t % 60)
    else if "Every " <= text && |text| > 14 && EndsWith(text, " minutes") then StepSays(text[6..|text| - 8], x)
    else
      && |text| >= 9 && text[|text| - 9..|text| - 5] == " at " && ClockSays(text[|text| - 5..], x)
      && DayMeans(text[..|text| - 9], x)
  }

  // The page says what the description denotes

  /** What every expression that is described prints. */
  predicate Readable(d: Description) {
    match d
    case HourlyAt(m) => m < 60
    case DailyAt(h, m) => h < 24 && m < 60
    case WeeklyOn(day, h, m) => day < 7 && h < 24 && m < 60
    case WeeklyUnnamed(h, m) => h < 24 && m < 60
    case MonthlyOn(dom, h, m) => 1 <= dom <= 31 && h < 24 && m < 60
    case YearlyOn(month, dom, h, m) => 1 <= month <= 12 && 1 <= dom <= 31 && h < 24 && m < 60
    case YearlyUnnamed(dom, h, m) => 1 <= dom <= 31 && h < 24 && m < 60
    case _ => true
  }

  lemma DecimalDigits(n: nat)
    requires n < 100
    ensures n < 10 ==> Decimal(n) == [DigitChar(n)]
    ensures n >= 10 ==> Decimal(n) == [DigitChar(n / 10), DigitChar(n % 10)]
  {
  }

  lemma Pad2Reads(n: nat)
    requires n < 100
    ensures |Pad2(n)| == 2 && forall k: int :: TwoDigits(Pad2(n), 0, k) <==> k == n
  {
    DecimalDigits(n);
  }

  lemma TwoDigitsInside(s: string, i: nat, w: string, k: int)
    requires |w| == 2 && i + 2 <= |s| && s[i..i + 2] == w
    ensures TwoDigits(s, i, k) <==> TwoDigits(w, 0, k)
  {
    assert s[i] == s[i..i + 2][0] && s[i + 1] == s[i..i + 2][1];
  }

  lemma TimeReads(h: nat, m: nat, x: Moment)
    requires h < 24 && m < 60
    ensures |Time(h, m)| == 5 && (ClockSays(Time(h, m), x) <==> AtTime(x, h, m))
  {
    Pad2Reads(h);
    Pad2Reads(m);
    var s := Time(h, m);
    assert s[0..2] == Pad2(h) && s[3..5] == Pad2(m);
    TwoDigitsInside(s, 0, Pad2(h), (x.t / 60) % 24);
    TwoDigitsInside(s, 3, Pad2(m), x.t % 60);
  }

  lemma SuffixReads(n: nat)
    requires 1 <= n <= 31
    ensures |OrdinalSuffix(n)| == 2 && EnglishSuffix(OrdinalSuffix(n), n)
  {
  }

  lemma OrdinalReads(n: nat, k: int)
    requires 1 <= n <= 31
    ensures DayIs(Ordinal(n), k) <==> k == n
    ensures |Ordinal(n)| >= 3
  {
    SuffixReads(n);
    DecimalDigits(n);
    var s := Ordinal(n);
    if n < 10 {
      assert s[1..] == OrdinalSuffix(n);
    } else {
      assert s[2..] == OrdinalSuffix(n);
    }
  }

  lemma DayNameReads(day: nat, dow: int)
    requires day < 7
    ensures WeekdayIs(DAYS[day], dow) <==> dow == day
  {
  }

  lemma MonthNameReads(month: nat, k: int)
    requires 1 <= month <= 12
    ensures |MONTHS[month - 1]| == 3 && (MonthIs(MONTHS[month - 1], k) <==> k == month)
  {
  }

  /** A text that ends in a clock and does not begin like "Every". */
  lemma ClockedReads(head: string, h: nat, m: nat, x: Moment)
    requires head != "" && head[0] != 'E' && h < 24 && m < 60
    ensures Means(head + (" at " + Time(h, m)), x) <==> AtTime(x, h, m) && DayMeans(head, x)
  {
    var text := head + (" at " + Time(h, m));
    TimeReads(h, m, x);
    assert text[0] == head[0];
    assert text[..|text| - 9] == head;
    assert text[|text| - 9..|text| - 5] == " at ";
    assert text[|text| - 5..] == Time(h, m);
  }

  lemma WeeklyHead(name: string, x: Moment)
    ensures var head := "Weekly on " + name;
            head[0] == 'W' && (DayMeans(head, x) <==> WeekdayIs(name, x.dow))
  {
    var head := "Weekly on " + name;
    assert head[10..] == name && head[0] == "Weekly on "[0];
  }

  lemma MonthlyHead(day: string, x: Moment)
    ensures var head := "Monthly on the " + day;
            head[0] == 'M' && (DayMeans(head, x) <==> DayIs(day, x.dom))
  {
    var head := "Monthly on the " + day;
    assert head[15..] == day && head[0] == "Monthly on the "[0];
  }

  lemma YearlyHeadParts(name: string, day: string)
    requires |name| >= 3 && |day| >= 3
    ensures var head := "Yearly on " + (name + (" " + day));
            && head[0] == 'Y' && "Yearly on " <= head && |head| > 15 && head[10..13] == name[..3]
            && (|name| == 3 ==> head[13] == ' ' && head[14..] == day)
  {
    var head := "Yearly on " + (name + (" " + day));
    assert head[0] == "Yearly on "[0];
    assert head[10..] == name + (" " + day);
    assert head[10..13] == head[10..][..3];
    if |name| == 3 {
      assert head[13] == head[10..][3];
      assert head[14..] == head[10..][4..];
    }
  }

  lemma YearlyHead(month: nat, day: string, x: Moment)
    requires 1 <= month <= 12 && |day| >= 3
    ensures var head := "Yearly on " + (MONTHS[month - 1] + (" " + day));
            head[0] == 'Y' && (DayMeans(head, x) <==> month == x.month && DayIs(day, x.dom))
  {
    MonthNameReads(month, x.month);
    YearlyHeadParts(MONTHS[month - 1], day);
    var head := "Yearly on " + (MONTHS[month - 1] + (" " + day));
    assert |head| != |"Yearly on Jan 1"|;
  }

  lemma UnknownMonthHead(day: string, x: Moment)
    requires |day| >= 3
    ensures var head := "Yearly on " + ("undefined" + (" " + day));
            head[0] == 'Y' && !DayMeans(head, x)
  {
    YearlyHeadParts("undefined", day);
    assert "undefined"[..3] == "und";
  }

  lemma NewYearReads(x: Moment)
    ensures Means(Show(NewYear), x) <==> Denotes(NewYear, x)
  {
    var head := "Yearly on Jan 1";
    assert Decimal(0) == "0" && Time(0, 0) == "00:00";
    assert head + (" at " + Time(0, 0)) == Show(NewYear);
    ClockedReads(head, 0, 0, x);
    assert |head| == 15 && head[10..13] == "Jan" && head[14..] == "1";
  }

  /** A digit after "Every " tells the step apart from the other texts about hours and minutes. */
  lemma StepIsNoOther(text: string)
    requires |text| > 6 && IsDigit(text[6])
    ensures text != "Every hour" && text != "Every minute" && !("Every hour at :" <= text)
  {
    assert "Every hour"[6] == 'h' && "Every minute"[6] == 'm' && "Every hour at :"[6] == 'h';
  }

  lemma StepParts(digits: string)
    requires digits != ""
    ensures var text := "Every " + (digits + " minutes");
            && |text| == |digits| + 14 && "Every " <= text && text[6] == digits[0]
            && text[6..|text| - 8] == digits && text[|text| - 8..] == " minutes"
  {
  }

  lemma StepReads(n: nat, x: Moment)
    ensures Means(Show(EveryMinutes(n)), x) <==> Denotes(EveryMinutes(n), x)
  {
    var digits := Decimal(n);
    assert digits[0] in digits;
    NumberOfDecimal(n);
    StepParts(digits);
    StepIsNoOther("Every " + (digits + " minutes"));
  }

  lemma HourlyReads(m: nat, x: Moment)
    requires m < 60
    ensures Means(Show(HourlyAt(m)), x) <==> Denotes(HourlyAt(m), x)
  {
    Pad2Reads(m);
    var text := "Every hour at :" + Pad2(m);
    assert |text| == 17 && text[15..17] == Pad2(m);
    TwoDigitsInside(text, 15, Pad2(m), x.t % 60);
  }

  /** The words shown mean the minutes the description denotes. */
  lemma ShownMeansDenoted(d: Description, x: Moment)
    requires Readable(d)
    ensures Means(Show(d), x) <==> Denotes(d, x)
  {
    match d
    case EveryHour =>
    case EveryMinute =>
    case EveryMinutes(n) => StepReads(n, x);
    case HourlyAt(m) => HourlyReads(m, x);
    case DailyAt(h, m) => DailyReads(h, m, x);
    case WeeklyOn(day, h, m) => WeeklyReads(DAYS[day], h, m, x); DayNameReads(day, x.dow);
    case WeeklyUnnamed(h, m) => WeeklyReads("undefined", h, m, x);
    case MonthlyOn(dom, h, m) => MonthlyReads(dom, h, m, x);
    case YearlyOn(month, dom, h, m) => YearlyReads(month, dom, h, m, x);
    case YearlyUnnamed(dom, h, m) => UnknownYearlyReads(dom, h, m, x);
    case NewYear => NewYearReads(x);
  }

  lemma DailyReads(h: nat, m: nat, x: Moment)
    requires h < 24 && m < 60
    ensures Means(Show(DailyAt(h, m)), x) <==> AtTime(x, h, m)
  {
    ClockedReads("Daily", h, m, x);
    assert Show(DailyAt(h, m)) == "Daily" + (" at " + Time(h, m));
  }

  lemma WeeklyReads(name: string, h: nat, m: nat, x: Moment)
    requires h < 24 && m < 60
    ensures Means("Weekly on " + (name + (" at " + Time(h, m))), x) <==> AtTime(x, h, m) && WeekdayIs(name, x.dow)
  {
    WeeklyHead(name, x);
    ClockedReads("Weekly on " + name, h, m, x);
    Regroup("Weekly on ", name, " at " + Time(h, m));
  }

  lemma MonthlyReads(dom: nat, h: nat, m: nat, x: Moment)
    requires Readable(MonthlyOn(dom, h, m))
    ensures Means(Show(MonthlyOn(dom, h, m)), x) <==> AtTime(x, h, m) && x.dom == dom
  {
    MonthlyHead(Ordinal(dom), x);
    OrdinalReads(dom, x.dom);
    ClockedReads("Monthly on the " + Ordinal(dom), h, m, x);
    Regroup("Monthly on the ", Ordinal(dom), " at " + Time(h, m));
  }

  lemma Regroup4(a: string, b: string, c: string, d: string, e: string)
    ensures a + (b + (c + (d + e))) == (a + (b + (c + d))) + e
  {
    Regroup(c, d, e);
    Regroup(b, c + d, e);
    Regroup(a, b + (c + d), e);
  }

  lemma YearlyReads(month: nat, dom: nat, h: nat, m: nat, x: Moment)
    requires Readable(YearlyOn(month, dom, h, m))
    ensures Means(Show(YearlyOn(month, dom, h, m)), x) <==> AtTime(x, h, m) && x.month == month && x.dom == dom
  {
    OrdinalReads(dom, x.dom);
    YearlyHead(month, Ordinal(dom), x);
    ClockedReads("Yearly on " + (MONTHS[month - 1] + (" " + Ordinal(dom))), h, m, x);
    Regroup4("Yearly on ", MONTHS[month - 1], " ", Ordinal(dom), " at " + Time(h, m));
    ShowYearly(month, dom, h, m);
  }

  lemma UnknownYearlyReads(dom: nat, h: nat, m: nat, x: Moment)
    requires Readable(YearlyUnnamed(dom, h, m))
    ensures !Means(Show(YearlyUnnamed(dom, h, m)), x)
  {
    OrdinalReads(dom, x.dom);
    UnknownMonthHead(Ordinal(dom), x);
    ClockedReads("Yearly on " + ("undefined" + (" " + Ordinal(dom))), h, m, x);
    Regroup4("Yearly on ", "undefined", " ", Ordinal(dom), " at " + Time(h, m));
  }

  lemma DescribedIsReadable(expr: string)
    requires Humanize(Some(expr)).Described?
    ensures Readable(Humanize(Some(expr)).d)
  {
    var trimmed := Trim(expr);
    if trimmed[0] != '@' {
      var parts := Words(trimmed);
      FieldsAreReadable(parts[0], parts[1], parts[2], parts[3], parts[4]);
    }
  }

  lemma FieldsAreReadable(m: string, h: string, dom: string, mon: string, dow: string)
    requires HumanizeFields(m, h, dom, mon, dow).Some?
    ensures Readable(HumanizeFields(m, h, dom, mon, dow).value)
  {
    if !(h == "*" && dom == "*" && mon == "*" && dow == "*") {
      DayIsReadable(ParseInt10(m).value, ParseInt10(h).value, dom, mon, dow);
    }
  }

  lemma DayIsReadable(m: nat, h: nat, dom: string, mon: string, dow: string)
    requires m < 60 && h < 24 && HumanizeDay(m, h, dom, mon, dow).Some?
    ensures Readable(HumanizeDay(m, h, dom, mon, dow).value)
  {
  }

  /** Whatever is described, the minutes read off the page are those of the description. */
  lemma PageMeansDenoted(expr: string, x: Moment)
    requires Humanize(Some(expr)).Described?
    ensures Means(Rendered(Some(expr)), x) <==> Denotes(Humanize(Some(expr)).d, x)
  {
    DescribedIsReadable(expr);
    ShownMeansDenoted(Humanize(Some(expr)).d, x);
  }

  /** The text shown for an expression means exactly these minutes. */
  ghost predicate PageSays(expr: string, when: Moment -> bool) {
    forall x :: Means(Rendered(Some(expr)), x) <==> when(x)
  }

  lemma PageSaysDenoted(expr: string, d: Description, when: Moment -> bool)
    requires Humanize(Some(expr)) == Described(d) && forall x :: Denotes(d, x) <==> when(x)
    ensures PageSays(expr, when)
  {
    forall x ensures Means(Rendered(Some(expr)), x) <==> when(x) {
      PageMeansDenoted(expr, x);
    }
  }

  /** The expression has a schedule, and it fires at exactly the minutes the page names. */
  ghost predicate PageIsRight(expr: string) {
    CronOf(expr).Some? && PageSays(expr, x => Fires(CronOf(expr).value, x))
  }

  lemma RightPageIsFaithful(expr: string, d: Description, s: Schedule)
    requires PageSays(expr, x => Denotes(d, x)) && PageSays(expr, x => Fires(s, x))
    ensures forall x :: Denotes(d, x) <==> Fires(s, x)
  {
    forall x ensures Denotes(d, x) <==> Fires(s, x) {
      assert Means(Rendered(Some(expr)), x) <==> (y => Denotes(d, y))(x);
      assert Means(Rendered(Some(expr)), x) <==> (y => Fires(s, y))(x);
    }
  }

  /** The page is right about every minute exactly when the expression is plain. */
  lemma PageIsRightIffPlain(expr: string)
    requires Humanize(Some(expr)).Described?
    ensures PageIsRight(expr) <==> Plain(expr)
  {
    FaithfulIffPlain(expr);
    var d := Humanize(Some(expr)).d;
    PageSaysDenoted(expr, d, x => Denotes(d, x));
    if PageIsRight(expr) { RightPageIsFaithful(expr, d, CronOf(expr).value); }
    if Faithful(expr, d) { PageSaysDenoted(expr, d, x => Fires(CronOf(expr).value, x)); }
  }

  // What each form of line says

  /** Digits, with leading zeros or without, of a number in this range. */
  predicate Numeral(s: string, lo: nat, hi: nat) {
    s != "" && AllDigits(s) && lo <= NumberOf(s) <= hi
  }

  /** Minute and hour as the two first fields say. */
  predicate AtFields(m: string, h: string, x: Moment)
    requires Numeral(m, 0, 59) && Numeral(h, 0, 23)
  {
    x.t % 60 == NumberOf(m) && (x.t / 60) % 24 == NumberOf(h)
  }

  /** The names crontab knows, in upper or lower case. */
  predicate DayName(s: string, dow: nat) {
    var w := LowerCase(s);
    || (w == "sun" && dow == 0) || (w == "mon" && dow == 1) || (w == "tue" && dow == 2) || (w == "wed" && dow == 3)
    || (w == "thu" && dow == 4) || (w == "fri" && dow == 5) || (w == "sat" && dow == 6)
  }

  predicate MonthName(s: string, month: nat) {
    var w := LowerCase(s);
    || (w == "jan" && month == 1) || (w == "feb" && month == 2) || (w == "mar" && month == 3)
    || (w == "apr" && month == 4) || (w == "may" && month == 5) || (w == "jun" && month == 6)
    || (w == "jul" && month == 7) || (w == "aug" && month == 8) || (w == "sep" && month == 9)
    || (w == "oct" && month == 10) || (w == "nov" && month == 11) || (w == "dec" && month == 12)
  }

  predicate DayField(s: string, dow: nat) {
    DayName(s, dow) || (Numeral(s, 0, 7) && dow == (if NumberOf(s) == 7 then 0 else NumberOf(s)))
  }

  predicate MonthField(s: string, month: nat) {
    MonthName(s, month) || (Numeral(s, 1, 12) && month == NumberOf(s))
  }

  lemma NumeralParses(s: string, lo: nat, hi: nat)
    requires Numeral(s, lo, hi)
    ensures ParseInt10(s) == Some(NumberOf(s)) && Solid(s) && s[0] != '@' && s != "*" && StepMatch(s).None?
  {
    DigitsAreSolid(s);
    assert s[0] in s;
    if StepMatch(s).Some? { StepIsNoNumber(s); }
  }

  lemma LowerLetters(s: string, i: nat)
    requires i < |s| && 'a' <= LowerCase(s)[i] <= 'z'
    ensures !IsDigit(s[i]) && !IsScriptSpace(s[i]) && s[i] != '*' && s[i] != '-'
  {
    assert LowerCase(s)[i] == Lower(s[i]);
  }

  /** A word of three letters is no number and no other field. */
  lemma NameParses(s: string)
    requires |LowerCase(s)| == 3 && forall i :: 0 <= i < 3 ==> 'a' <= LowerCase(s)[i] <= 'z'
    ensures ParseInt10(s).None? && Solid(s) && s != "*"
  {
    LowerLetters(s, 0);
    LowerLetters(s, 1);
    LowerLetters(s, 2);
    assert s[0] in s;
  }

  lemma {:induction false} FindsFirst(names: seq<string>, i: nat)
    requires i < |names| && forall j, k :: 0 <= j < k < |names| ==> names[j] != names[k]
    ensures IndexIn(names, names[i]) == Some(i)
  {
    if i > 0 { FindsFirst(names[1..], i - 1); }
  }

  lemma DayNameParses(s: string, dow: nat)
    requires DayName(s, dow)
    ensures dow < 7 && ParseDow(s) == Found(dow) && Solid(s) && s != "*"
  {
    NameParses(s);
    assert DOW_NAMES[dow] == LowerCase(s);
    FindsFirst(DOW_NAMES, dow);
  }

  lemma MonthNamesDifferAt(j: nat, k: nat)
    requires j < k < 12
    ensures MONTH_NAMES[j][1] != MONTH_NAMES[k][1] || MONTH_NAMES[j][2] != MONTH_NAMES[k][2]
  {
  }

  lemma MonthNamesDiffer()
    ensures forall j, k :: 0 <= j < k < |MONTH_NAMES| ==> MONTH_NAMES[j] != MONTH_NAMES[k]
  {
    forall j, k | 0 <= j < k < |MONTH_NAMES| ensures MONTH_NAMES[j] != MONTH_NAMES[k] {
      MonthNamesDifferAt(j, k);
    }
  }

  lemma MonthNameFound(w: string, month: nat)
    requires 1 <= month <= 12 && MONTH_NAMES[month - 1] == w
    ensures IndexIn(MONTH_NAMES, w) == Some(month - 1)
  {
    MonthNamesDiffer();
    FindsFirst(MONTH_NAMES, month - 1);
  }

  lemma MonthNameParses(s: string, month: nat)
    requires MonthName(s, month)
    ensures 1 <= month <= 12 && ParseMonth(s) == Found(month) && Solid(s) && s != "*"
  {
    NameParses(s);
    MonthNameFound(LowerCase(s), month);
  }

  lemma DayFieldParses(s: string, dow: nat)
    requires DayField(s, dow)
    ensures dow < 7 && ParseDow(s) == Found(dow) && Solid(s) && s != "*"
  {
    if DayName(s, dow) { DayNameParses(s, dow); } else { NumeralParses(s, 0, 7); }
  }

  lemma MonthFieldParses(s: string, month: nat)
    requires MonthField(s, month)
    ensures 1 <= month <= 12 && ParseMonth(s) == Found(month) && Solid(s) && s != "*"
  {
    if MonthName(s, month) { MonthNameParses(s, month); } else { NumeralParses(s, 1, 12); }
  }

  lemma StarIsSolid()
    ensures Solid("*")
  {
  }

  /** Any minute. */
  lemma StarsSayEveryMinute()
    ensures PageSays(Line("*", "*", "*", "*", "*"), (x: Moment) => true)
  {
    StarIsSolid();
    LineReaches("*", "*", "*", "*", "*");
    PageSaysDenoted(Line("*", "*", "*", "*", "*"), EveryMinute, (x: Moment) => true);
  }

  lemma StepLineIs(k: string)
    requires k != "" && AllDigits(k)
    ensures Humanize(Some(Line("*/" + k, "*", "*", "*", "*")))
            == Described(if NumberOf(k) == 1 then EveryMinute else EveryMinutes(NumberOf(k)))
  {
    var m := "*/" + k;
    DigitsAreSolid(k);
    assert m[..2] == "*/" && m[2..] == k;
    assert Solid(m) by {
      forall c | c in m ensures !IsScriptSpace(c) { assert c in "*/" || c in k; }
    }
    StarIsSolid();
    LineReaches(m, "*", "*", "*", "*");
  }

  /** Minutes that are a multiple of the step away from midnight; of step zero, none. */
  lemma StepLineSays(k: string)
    requires k != "" && AllDigits(k)
    ensures PageSays(Line("*/" + k, "*", "*", "*", "*"), (x: Moment) => NumberOf(k) > 0 && x.t % NumberOf(k) == 0)
  {
    StepLineIs(k);
    PageSaysDenoted(Line("*/" + k, "*", "*", "*", "*"),
                    if NumberOf(k) == 1 then EveryMinute else EveryMinutes(NumberOf(k)),
                    (x: Moment) => NumberOf(k) > 0 && x.t % NumberOf(k) == 0);
  }

  lemma HourlyLineIs(m: string)
    requires Numeral(m, 0, 59)
    ensures Humanize(Some(Line(m, "*", "*", "*", "*"))) == Described(HourlyAt(NumberOf(m)))
  {
    NumeralParses(m, 0, 59);
    StarIsSolid();
    LineReaches(m, "*", "*", "*", "*");
  }

  /** This minute of any hour. */
  lemma HourlyLineSays(m: string)
    requires Numeral(m, 0, 59)
    ensures PageSays(Line(m, "*", "*", "*", "*"), (x: Moment) => x.t % 60 == NumberOf(m))
  {
    HourlyLineIs(m);
    PageSaysDenoted(Line(m, "*", "*", "*", "*"), HourlyAt(NumberOf(m)), (x: Moment) => x.t % 60 == NumberOf(m));
  }

  lemma NumbersReachDays(m: string, h: string, dom: string, mon: string, dow: string)
    requires Numeral(m, 0, 59) && Numeral(h, 0, 23)
    ensures HumanizeFields(m, h, dom, mon, dow) == HumanizeDay(NumberOf(m), NumberOf(h), dom, mon, dow)
    ensures Solid(m) && Solid(h) && m[0] != '@'
  {
    NumeralParses(m, 0, 59);
    NumeralParses(h, 0, 23);
  }

  lemma DayLineIs(m: string, h: string, dom: string, mon: string, dow: string, d: Description)
    requires Numeral(m, 0, 59) && Numeral(h, 0, 23) && Solid(dom) && Solid(mon) && Solid(dow)
    requires HumanizeDay(NumberOf(m), NumberOf(h), dom, mon, dow) == Some(d)
    ensures Humanize(Some(Line(m, h, dom, mon, dow))) == Described(d)
  {
    NumbersReachDays(m, h, dom, mon, dow);
    LineReaches(m, h, dom, mon, dow);
  }

  lemma DailyForm(m: nat, h: nat)
    ensures HumanizeDay(m, h, "*", "*", "*") == Some(DailyAt(h, m))
  {
  }

  lemma DailyLineIs(m: string, h: string)
    requires Numeral(m, 0, 59) && Numeral(h, 0, 23)
    ensures Humanize(Some(Line(m, h, "*", "*", "*"))) == Described(DailyAt(NumberOf(h), NumberOf(m)))
  {
    DailyForm(NumberOf(m), NumberOf(h));
    StarIsSolid();
    DayLineIs(m, h, "*", "*", "*", DailyAt(NumberOf(h), NumberOf(m)));
  }

  /** This time of any day. */
  lemma DailyLineSays(m: string, h: string)
    requires Numeral(m, 0, 59) && Numeral(h, 0, 23)
    ensures PageSays(Line(m, h, "*", "*", "*"), (x: Moment) => AtFields(m, h, x))
  {
    DailyLineIs(m, h);
    PageSaysDenoted(Line(m, h, "*", "*", "*"), DailyAt(NumberOf(h), NumberOf(m)),
                    (x: Moment) => AtFields(m, h, x));
  }

  lemma WeeklyForm(m: nat, h: nat, dow: string)
    requires dow != "*" && ParseDow(dow).Found?
    ensures HumanizeDay(m, h, "*", "*", dow) == Some(WeeklyOn(ParseDow(dow).n, h, m))
  {
  }

  lemma WeeklyLineIs(m: string, h: string, dow: string, day: nat)
    requires Numeral(m, 0, 59) && Numeral(h, 0, 23) && DayField(dow, day)
    ensures Humanize(Some(Line(m, h, "*", "*", dow))) == Described(WeeklyOn(day, NumberOf(h), NumberOf(m)))
  {
    DayFieldParses(dow, day);
    WeeklyForm(NumberOf(m), NumberOf(h), dow);
    StarIsSolid();
    DayLineIs(m, h, "*", "*", dow, WeeklyOn(day, NumberOf(h), NumberOf(m)));
  }

  /** This time of this day of the week, by number (7 is Sunday too) or by name. */
  lemma WeeklyLineSays(m: string, h: string, dow: string, day: nat)
    requires Numeral(m, 0, 59) && Numeral(h, 0, 23) && DayField(dow, day)
    ensures PageSays(Line(m, h, "*", "*", dow), (x: Moment) => AtFields(m, h, x) && x.dow == day)
  {
    WeeklyLineIs(m, h, dow, day);
    PageSaysDenoted(Line(m, h, "*", "*", dow), WeeklyOn(day, NumberOf(h), NumberOf(m)),
                    (x: Moment) => AtFields(m, h, x) && x.dow == day);
  }

  lemma MonthlyForm(m: nat, h: nat, dom: string, n: nat)
    requires dom != "*" && ParseInt10(dom) == Some(n) && 1 <= n <= 31
    ensures HumanizeDay(m, h, dom, "*", "*") == Some(MonthlyOn(n, h, m))
  {
  }

  lemma MonthlyLineIs(m: string, h: string, dom: string)
    requires Numeral(m, 0, 59) && Numeral(h, 0, 23) && Numeral(dom, 1, 31)
    ensures Humanize(Some(Line(m, h, dom, "*", "*"))) == Described(MonthlyOn(NumberOf(dom), NumberOf(h), NumberOf(m)))
  {
    NumeralParses(dom, 1, 31);
    MonthlyForm(NumberOf(m), NumberOf(h), dom, NumberOf(dom));
    StarIsSolid();
    DayLineIs(m, h, dom, "*", "*", MonthlyOn(NumberOf(dom), NumberOf(h), NumberOf(m)));
  }

  /** This time of this day of the month. */
  lemma MonthlyLineSays(m: string, h: string, dom: string)
    requires Numeral(m, 0, 59) && Numeral(h, 0, 23) && Numeral(dom, 1, 31)
    ensures PageSays(Line(m, h, dom, "*", "*"), (x: Moment) => AtFields(m, h, x) && x.dom == NumberOf(dom))
  {
    MonthlyLineIs(m, h, dom);
    PageSaysDenoted(Line(m, h, dom, "*", "*"), MonthlyOn(NumberOf(dom), NumberOf(h), NumberOf(m)),
                    (x: Moment) => AtFields(m, h, x) && x.dom == NumberOf(dom));
  }

  lemma YearlyForm(m: nat, h: nat, dom: string, n: nat, mon: string)
    requires dom != "*" && ParseInt10(dom) == Some(n) && 1 <= n <= 31 && mon != "*" && ParseMonth(mon).Found?
    ensures HumanizeDay(m, h, dom, mon, "*") == Some(YearlyOn(ParseMonth(mon).n, n, h, m))
  {
  }

  lemma YearlyLineIs(m: string, h: string, dom: string, mon: string, month: nat)
    requires Numeral(m, 0, 59) && Numeral(h, 0, 23) && Numeral(dom, 1, 31) && MonthField(mon, month)
    ensures Humanize(Some(Line(m, h, dom, mon, "*")))
            == Described(YearlyOn(month, NumberOf(dom), NumberOf(h), NumberOf(m)))
  {
    NumeralParses(dom, 1, 31);
    MonthFieldParses(mon, month);
    YearlyForm(NumberOf(m), NumberOf(h), dom, NumberOf(dom), mon);
    StarIsSolid();
    DayLineIs(m, h, dom, mon, "*", YearlyOn(month, NumberOf(dom), NumberOf(h), NumberOf(m)));
  }

  /** This time of this date. */
  lemma YearlyLineSays(m: string, h: string, dom: string, mon: string, month: nat)
    requires Numeral(m, 0, 59) && Numeral(h, 0, 23) && Numeral(dom, 1, 31) && MonthField(mon, month)
    ensures PageSays(Line(m, h, dom, mon, "*"), (x: Moment) => AtFields(m, h, x) && x.dom == NumberOf(dom) && x.month == month)
  {
    YearlyLineIs(m, h, dom, mon, month);
    PageSaysDenoted(Line(m, h, dom, mon, "*"), YearlyOn(month, NumberOf(dom), NumberOf(h), NumberOf(m)),
                    (x: Moment) => AtFields(m, h, x) && x.dom == NumberOf(dom) && x.month == month);
  }

  /** What crontab fires a macro at. */
  predicate MacroMeans(name: string, x: Moment) {
    if name == "@hourly" then x.t % 60 == 0
    else
      && x.t % 60 == 0 && (x.t / 60) % 24 == 0
      && (name == "@weekly" ==> x.dow == 0)
      && (name == "@monthly" || name == "@yearly" || name == "@annually" ==> x.dom == 1)
      && (name == "@yearly" || name == "@annually" ==> x.month == 1)
  }

  predicate IsMacro(name: string) {
    || name == "@hourly" || name == "@daily" || name == "@midnight" || name == "@weekly" || name == "@monthly"
    || name == "@yearly" || name == "@annually"
  }

  lemma MacroStartsWithAt(name: string, s: string)
    requires IsMacro(name) && LowerCase(s) == name
    ensures s != "" && s[0] == '@'
  {
    assert |s| == |name| && name[0] == '@';
    assert LowerCase(s)[0] == Lower(s[0]);
  }

  /** A macro, in upper or lower case, with or without space around it. */
  lemma MacroSays(expr: string, name: string)
    requires IsMacro(name) && LowerCase(Trim(expr)) == name
    ensures PageSays(expr, (x: Moment) => MacroMeans(name, x))
  {
    MacroStartsWithAt(name, Trim(expr));
    MacroDenotes(name);
    PageSaysDenoted(expr, Macro(name).value, (x: Moment) => MacroMeans(name, x));
  }

  lemma MacroDenotes(name: string)
    requires IsMacro(name)
    ensures Macro(name).Some? && forall x :: Denotes(Macro(name).value, x) <==> MacroMeans(name, x)
  {
  }

  /** What is not described is shown as it is, without the space around it; nothing at all is shown as nothing. */
  lemma RestIsShownAsItIs(expr: Option<string>)
    requires Humanize(expr).Raw?
    ensures Rendered(expr) == if expr.None? then "" else Trim(expr.value)
  {
  }

  lemma {:induction false} TrimTakesOnlySpace(s: string) returns (i: nat, j: nat)
    ensures i <= j <= |s| && Trim(s) == s[i..j]
    ensures forall k :: 0 <= k < i || j <= k < |s| ==> IsScriptSpace(s[k])
    ensures i < j ==> !IsScriptSpace(s[i]) && !IsScriptSpace(s[j - 1])
    decreases |s|
  {
    i, j := 0, |s|;
    if s != "" {
      if IsScriptSpace(s[0]) {
        i, j := TrimTakesOnlySpace(s[1..]);
        i, j := i + 1, j + 1;
      } else if IsScriptSpace(s[|s| - 1]) {
        i, j := TrimTakesOnlySpace(s[..|s| - 1]);
      }
    }
  }
}
