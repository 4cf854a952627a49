/** The cron humanizer, and what its descriptions promise about the schedule. */
module HumanizeCron {
  import opened Wrappers
  import opened Text

  // What a description says

  /** The shapes of description.  An Unnamed one prints "undefined" where a day or month belongs; NewYear is
      what the yearly macros print, with a bare day of the month. */
  datatype Description =
    | EveryHour
    | EveryMinute
    | EveryMinutes(n: nat)
    | HourlyAt(minute: nat)
    | DailyAt(hour: nat, minute: nat)
    | WeeklyOn(day: nat, hour: nat, minute: nat)
    | WeeklyUnnamed(hour: nat, minute: nat)
    | MonthlyOn(dom: nat, hour: nat, minute: nat)
    | YearlyOn(month: nat, dom: nat, hour: nat, minute: nat)
    | YearlyUnnamed(dom: nat, hour: nat, minute: nat)
    | NewYear

  const DAYS: seq<string> := ["Sunday", "Monday", "Tuesday", "Wednesday", "Thursday", "Friday", "Saturday"]
  const MONTHS: seq<string> := ["Jan", "Feb", "Mar", "Apr", "May", "Jun", "Jul", "Aug", "Sep", "Oct", "Nov", "Dec"]

  function Pad2(n: nat): string {
    if n < 10 then "0" + Decimal(n) else Decimal(n)
  }

  function OrdinalSuffix(n: nat): string {
    if 11 <= n % 100 <= 13 then "th"
    else match n % 10
      case 1 => "st"
      case 2 => "nd"
      case 3 => "rd"
      case _ => "th"
  }

  function Ordinal(n: nat): string { Decimal(n) + OrdinalSuffix(n) }

  function Time(h: nat, m: nat): string { Pad2(h) + (":" + Pad2(m)) }

  predicate Printable(d: Description) {
    (d.WeeklyOn? ==> d.day < 7) && (d.YearlyOn? ==> 1 <= d.month <= 12)
  }

  function Show(d: Description): string
    requires Printable(d)
  {
    match d
    case EveryHour => "Every hour"
    case EveryMinute => "Every minute"
    case EveryMinutes(n) => "Every " + (Decimal(n) + " minutes")
    case HourlyAt(m) => "Every hour at :" + Pad2(m)
    case DailyAt(h, m) => "Daily at " + Time(h, m)
    case WeeklyOn(day, h, m) => "Weekly on " + (DAYS[day] + (" at " + Time(h, m)))
    case WeeklyUnnamed(h, m) => "Weekly on " + ("undefined" + (" at " + Time(h, m)))
    case MonthlyOn(dom, h, m) => "Monthly on the " + (Ordinal(dom) + (" at " + Time(h, m)))
    case YearlyOn(month, dom, h, m) => "Yearly on " + (MONTHS[month - 1] + (" " + (Ordinal(dom) + (" at " + Time(h, m)))))
    case YearlyUnnamed(dom, h, m) => "Yearly on " + ("undefined" + (" " + (Ordinal(dom) + (" at " + Time(h, m)))))
    case NewYear => "Yearly on Jan 1 at 00:00"
  }

  /** A minute of local time: minutes since some midnight, and the calendar day's fields. */
  datatype Moment = Moment(t: int, dom: int, month: int, dow: int)

  function MinuteOf(x: Moment): int { x.t % 60 }

  function HourOf(x: Moment): int { (x.t / 60) % 24 }

  predicate AtTime(x: Moment, h: nat, m: nat) { HourOf(x) == h && MinuteOf(x) == m }

  /** The minutes a reader expects from the description.  "Every n minutes" means n apart, from midnight. */
  predicate Denotes(d: Description, x: Moment) {
    match d
    case EveryHour => MinuteOf(x) == 0
    case EveryMinute => true
    case EveryMinutes(n) => n > 0 && x.t % n == 0
    case HourlyAt(m) => MinuteOf(x) == m
    case DailyAt(h, m) => AtTime(x, h, m)
    case WeeklyOn(day, h, m) => x.dow == day && AtTime(x, h, m)
    case MonthlyOn(dom, h, m) => x.dom == dom && AtTime(x, h, m)
    case YearlyOn(month, dom, h, m) => x.month == month && x.dom == dom && AtTime(x, h, m)
    case WeeklyUnnamed(_, _) => false
    case YearlyUnnamed(_, _, _) => false
    case NewYear => x.month == 1 && x.dom == 1 && AtTime(x, 0, 0)
  }

  // What cron does

  datatype Field = Any | Step(n: nat) | Exactly(v: nat)

  datatype Schedule = Schedule(minute: Field, hour: Field, dom: Field, month: Field, dow: Field)

  predicate Matches(f: Field, v: int) {
    match f
    case Any => true
    case Step(n) => n > 0 && v % n == 0
    case Exactly(w) => v == w
  }

  /** POSIX crontab: all fields must match, except that day of month and day of week are alternatives
      when both are restricted. */
  predicate Fires(s: Schedule, x: Moment) {
    && Matches(s.minute, MinuteOf(x)) && Matches(s.hour, HourOf(x)) && Matches(s.month, x.month)
    && (if s.dom.Any? || s.dow.Any? then Matches(s.dom, x.dom) && Matches(s.dow, x.dow)
        else Matches(s.dom, x.dom) || Matches(s.dow, x.dow))
  }

  const MONTH_NAMES: seq<string> := ["jan", "feb", "mar", "apr", "may", "jun", "jul", "aug", "sep", "oct", "nov", "dec"]
  const DOW_NAMES: seq<string> := ["sun", "mon", "tue", "wed", "thu", "fri", "sat"]

  function IndexIn(names: seq<string>, s: string): Option<nat> {
    if names == [] then None
    else if names[0] == s then Some(0)
    else
      var r := IndexIn(names[1..], s);
      if r.Some? then Some(r.value + 1) else None
  }

  /** A field of one number in lo..hi, or a name counted from `base`. */
  function SingleField(s: string, lo: nat, hi: nat, names: seq<string>, base: nat): Option<Field> {
    if s == "*" then Some(Any)
    else if s != "" && AllDigits(s) then
      if lo <= NumberOf(s) <= hi then Some(Exactly(NumberOf(s))) else None
    else
      var k := IndexIn(names, LowerCase(s));
      if k.Some? then Some(Exactly(k.value + base)) else None
  }

  function MinuteField(s: string): Option<Field> {
    if |s| > 2 && s[..2] == "*/" && AllDigits(s[2..]) then
      if NumberOf(s[2..]) > 0 then Some(Step(NumberOf(s[2..]))) else None
    else SingleField(s, 0, 59, [], 0)
  }

  /** 7 is Sunday as well as 0. */
  function DowField(s: string): Option<Field> {
    var f := SingleField(s, 0, 7, DOW_NAMES, 0);
    if f == Some(Exactly(7)) then Some(Exactly(0)) else f
  }

  function MacroSchedule(name: string): Option<Schedule> {
    if name == "@hourly" then Some(Schedule(Exactly(0), Any, Any, Any, Any))
    else if name == "@daily" || name == "@midnight" then Some(Schedule(Exactly(0), Exactly(0), Any, Any, Any))
    else if name == "@weekly" then Some(Schedule(Exactly(0), Exactly(0), Any, Any, Exactly(0)))
    else if name == "@monthly" then Some(Schedule(Exactly(0), Exactly(0), Exactly(1), Any, Any))
    else if name == "@yearly" || name == "@annually" then
      Some(Schedule(Exactly(0), Exactly(0), Exactly(1), Exactly(1), Any))
    else None
  }

  /** The schedule of a macro or of five fields of the forms `*`, one value, and the minute step.  Lists
      and ranges are never described, so they get no schedule here. */
  function CronOf(expr: string): Option<Schedule> {
    var trimmed := Trim(expr);
    if trimmed == "" then None
    else if trimmed[0] == '@' then MacroSchedule(LowerCase(trimmed))
    else
      var parts := Words(trimmed);
      if |parts| != 5 then None else ScheduleOf(parts[0], parts[1], parts[2], parts[3], parts[4])
  }

  function ScheduleOf(minute: string, hour: string, dom: string, month: string, dow: string): Option<Schedule> {
    Assemble(MinuteField(minute), SingleField(hour, 0, 23, [], 0), SingleField(dom, 1, 31, [], 0),
             SingleField(month, 1, 12, MONTH_NAMES, 1), DowField(dow))
  }

  function Assemble(
      mi: Option<Field>, h: Option<Field>, dm: Option<Field>, mo: Option<Field>, dw: Option<Field>): Option<Schedule>
  {
    if mi.Some? && h.Some? && dm.Some? && mo.Some? && dw.Some?
    then Some(Schedule(mi.value, h.value, dm.value, mo.value, dw.value))
    else None
  }

  // The humanizer

  datatype Result = Raw(text: string) | Described(d: Description)

  function ParseInt10(s: string): Option<int> {
    if s != "" && AllDigits(s) then Some(NumberOf(s) as int)
    else if |s| > 1 && s[0] == '-' && AllDigits(s[1..]) then Some(0 - NumberOf(s[1..]))
    else None
  }

  /** A lookup in an object literal also finds what the object inherits: of the names in lower case,
      `constructor` and `__proto__`. */
  datatype Lookup = Found(n: nat) | Missing | Inherited

  function Alias(names: seq<string>, base: nat, s: string): Lookup {
    var k := IndexIn(names, LowerCase(s));
    if k.Some? then Found(k.value + base)
    else if LowerCase(s) == "constructor" || LowerCase(s) == "__proto__" then Inherited
    else Missing
  }

  function ParseMonth(s: string): (r: Lookup)
    ensures r.Found? ==> 1 <= r.n <= 12
  {
    var n := ParseInt10(s);
    if n.Some? then (if 1 <= n.value <= 12 then Found(n.value) else Missing)
    else
      IndexBound(MONTH_NAMES, LowerCase(s));
      Alias(MONTH_NAMES, 1, s)
  }

  function ParseDow(s: string): (r: Lookup)
    ensures r.Found? ==> r.n <= 6
  {
    var n := ParseInt10(s);
    if n.Some? then
      if n.value == 7 then Found(0) else if 0 <= n.value <= 6 then Found(n.value) else Missing
    else
      IndexBound(DOW_NAMES, LowerCase(s));
      Alias(DOW_NAMES, 0, s)
  }

  lemma {:induction false} IndexBound(names: seq<string>, s: string)
    ensures IndexIn(names, s).Some? ==> IndexIn(names, s).value < |names|
  {
    if names != [] { IndexBound(names[1..], s); }
  }

  function Macro(name: string): Option<Description> {
    if name == "@hourly" then Some(EveryHour)
    else if name == "@daily" then Some(DailyAt(0, 0))
    else if name == "@midnight" then Some(DailyAt(0, 0))
    else if name == "@weekly" then Some(WeeklyOn(0, 0, 0))
    else if name == "@monthly" then Some(MonthlyOn(1, 0, 0))
    else if name == "@yearly" then Some(NewYear)
    else if name == "@annually" then Some(NewYear)
    else None
  }

  function StepMatch(m: string): Option<nat> {
    if |m| > 2 && m[..2] == "*/" && AllDigits(m[2..]) then Some(NumberOf(m[2..])) else None
  }

  function Humanize(expr: Option<string>): (r: Result)
    ensures r.Described? ==> Printable(r.d)
  {
    if expr.None? then Raw("")
    else
      var trimmed := Trim(expr.value);
      if trimmed == "" then Raw("")
      else if trimmed[0] == '@' then
        var d := Macro(LowerCase(trimmed));
        if d.Some? then Described(d.value) else Raw(trimmed)
      else
        var parts := Words(trimmed);
        if |parts| != 5 then Raw(trimmed)
        else
          var d := HumanizeFields(parts[0], parts[1], parts[2], parts[3], parts[4]);
          if d.Some? then Described(d.value) else Raw(trimmed)
  }

  function HumanizeFields(m: string, h: string, dom: string, mon: string, dow: string): Option<Description> {
    var step := StepMatch(m);
    if step.Some? && h == "*" && dom == "*" && mon == "*" && dow == "*" then
      Some(if step.value == 1 then EveryMinute else EveryMinutes(step.value))
    else if m == "*" && h == "*" && dom == "*" && mon == "*" && dow == "*" then Some(EveryMinute)
    else
      var mNum := ParseInt10(m);
      if mNum.None? || mNum.value < 0 || mNum.value > 59 then None
      else if h == "*" && dom == "*" && mon == "*" && dow == "*" then Some(HourlyAt(mNum.value))
      else
        var hNum := ParseInt10(h);
        if hNum.None? || hNum.value < 0 || hNum.value > 23 then None
        else HumanizeDay(mNum.value, hNum.value, dom, mon, dow)
  }

  function HumanizeDay(m: nat, h: nat, dom: string, mon: string, dow: string): Option<Description> {
    if dom == "*" && mon == "*" && dow == "*" then Some(DailyAt(h, m))
    else if dom == "*" && mon == "*" then
      match ParseDow(dow)
      case Missing => None
      case Found(d) => Some(WeeklyOn(d, h, m))
      case Inherited => Some(WeeklyUnnamed(h, m))
    else if mon == "*" && dow == "*" then
      var d := ParseInt10(dom);
      if d.None? || d.value < 1 || d.value > 31 then None else Some(MonthlyOn(d.value, h, m))
    else if dow == "*" && dom != "*" then
      var d := ParseInt10(dom);
      var mo := ParseMonth(mon);
      if d.None? || d.value < 1 || d.value > 31 || mo.Missing? then None
      else if mo.Inherited? then Some(YearlyUnnamed(d.value, h, m))
      else Some(YearlyOn(mo.n, d.value, h, m))
    else None
  }

  // Faithfulness

  ghost predicate SaysWhatFires(d: Description, s: Option<Schedule>) {
    s.Some? && forall x :: Denotes(d, x) <==> Fires(s.value, x)
  }

  /** The expression has a schedule, and it fires at exactly the minutes the description denotes. */
  ghost predicate Faithful(expr: string, d: Description) {
    SaysWhatFires(d, CronOf(expr))
  }

  predicate Signed(s: string) { s != "" && s[0] == '-' }

  lemma {:induction false} SignedIsNoName(names: seq<string>, s: string)
    requires Signed(s) && forall i :: 0 <= i < |names| ==> !Signed(names[i])
    ensures IndexIn(names, s).None?
  {
    if names != [] { SignedIsNoName(names[1..], s); }
  }

  lemma SignedHasNoField(s: string, lo: nat, hi: nat, names: seq<string>, base: nat)
    requires Signed(s) && forall i :: 0 <= i < |names| ==> !Signed(names[i])
    ensures SingleField(s, lo, hi, names, base).None?
  {
    assert s[0] in s && !IsDigit(s[0]);
    SignedIsNoName(names, LowerCase(s));
  }

  lemma SignedHasNoSchedule(m: string, h: string, dom: string, mon: string, dow: string)
    requires Signed(m) || Signed(h) || Signed(dom) || Signed(mon) || Signed(dow)
    ensures ScheduleOf(m, h, dom, mon, dow).None?
  {
    if Signed(m) { SignedHasNoMinute(m); }
    else if Signed(h) { SignedHasNoField(h, 0, 23, [], 0); }
    else if Signed(dom) { SignedHasNoField(dom, 1, 31, [], 0); }
    else if Signed(mon) { SignedHasNoField(mon, 1, 12, MONTH_NAMES, 1); }
    else { SignedHasNoField(dow, 0, 7, DOW_NAMES, 0); }
  }

  lemma SignedHasNoMinute(m: string)
    requires Signed(m)
    ensures MinuteField(m).None?
  {
    SignedHasNoField(m, 0, 59, [], 0);
    assert |m| > 2 ==> m[..2][0] == '-';
  }

  lemma NumberHasField(s: string, lo: nat, hi: nat, names: seq<string>, base: nat)
    requires !Signed(s) && ParseInt10(s).Some? && lo <= ParseInt10(s).value <= hi
    ensures SingleField(s, lo, hi, names, base) == Some(Exactly(ParseInt10(s).value))
    ensures |s| > 1 ==> s[..2] != "*/"
  {
    assert s[0] in s;
  }

  lemma {:induction false} InheritedIsNoName(names: seq<string>, s: string)
    requires forall i :: 0 <= i < |names| ==> |names[i]| == 3
    requires |s| > 3
    ensures IndexIn(names, s).None?
  {
    if names != [] { InheritedIsNoName(names[1..], s); }
  }

  lemma MonthHasField(s: string)
    requires !Signed(s) && s != "*" && ParseMonth(s).Found?
    ensures SingleField(s, 1, 12, MONTH_NAMES, 1) == Some(Exactly(ParseMonth(s).n))
  {
    if ParseInt10(s).Some? { NumberHasField(s, 1, 12, MONTH_NAMES, 1); }
  }

  lemma DowHasField(s: string)
    requires !Signed(s) && s != "*" && ParseDow(s).Found?
    ensures DowField(s) == Some(Exactly(ParseDow(s).n))
  {
    IndexBound(DOW_NAMES, LowerCase(s));
    if ParseInt10(s).Some? { NumberHasField(s, 0, 7, DOW_NAMES, 0); }
  }

  lemma InheritedHasNoField(s: string, names: seq<string>, base: nat)
    requires Alias(names, base, s).Inherited? && ParseInt10(s).None? && s != "*"
    ensures SingleField(s, 0, 7, names, base).None? && SingleField(s, 1, 12, names, base).None?
  {
  }

  predicate PlainShape(d: Description) {
    match d
    case EveryMinutes(n) => n > 0 && 60 % n == 0
    case WeeklyUnnamed(_, _) => false
    case YearlyUnnamed(_, _, _) => false
    case _ => true
  }

  /** A step that does not divide the hour starts over at every full hour. */
  lemma StepIsFaithfulIff(n: nat, m: string)
    requires StepMatch(m) == Some(n)
    ensures SaysWhatFires(EveryMinutes(n), ScheduleOf(m, "*", "*", "*", "*")) <==> n > 0 && 60 % n == 0
  {
    if n > 0 {
      var s := ScheduleOf(m, "*", "*", "*", "*");
      assert s == Some(Schedule(Step(n), Any, Any, Any, Any));
      if 60 % n == 0 {
        forall x ensures Denotes(EveryMinutes(n), x) <==> Fires(s.value, x) {
          ModThroughHour(x.t, n);
        }
      } else {
        var x := Moment(60, 1, 1, 1);
        assert Fires(s.value, x) && !Denotes(EveryMinutes(n), x);
      }
    }
  }

  lemma StepHasSchedule(m: string)
    requires StepMatch(m).Some?
    ensures var n := StepMatch(m).value;
            ScheduleOf(m, "*", "*", "*", "*") == if n > 0 then Some(Schedule(Step(n), Any, Any, Any, Any)) else None
  {
  }

  lemma ModThroughHour(t: int, n: nat)
    requires n > 0 && 60 % n == 0
    ensures t % n == (t % 60) % n
  {
    var k := 60 / n;
    assert t == (t % 60) + n * (k * (t / 60)) by {
      assert n * k == 60;
      assert n * (k * (t / 60)) == (n * k) * (t / 60);
    }
    DropMultiple(t % 60, n, k * (t / 60));
  }

  lemma DropMultiple(a: int, n: nat, q: int)
    requires n > 0
    ensures (a + n * q) % n == a % n
  {
    var x := a + n * q;
    var j := a / n + q - x / n;
    assert n * j == n * (a / n) + n * q - n * (x / n);
    assert n * j == x % n - a % n;
    assert 0 - n < n * j < n;
    assert j == 0;
  }

  lemma WeekdayIsFaithfulIff(mi: nat, h: nat, dow: string, d: Description)
    requires !Signed(dow) && dow != "*" && HumanizeDay(mi, h, "*", "*", dow) == Some(d)
    ensures DowField(dow).Some? <==> PlainShape(d)
    ensures DowField(dow).Some? ==>
              SaysWhatFires(d, Some(Schedule(Exactly(mi), Exactly(h), Any, Any, DowField(dow).value)))
  {
    if ParseDow(dow).Found? { DowHasField(dow); } else { InheritedHasNoField(dow, DOW_NAMES, 0); }
  }

  lemma MonthlyIsFaithful(mi: nat, h: nat, dm: nat)
    ensures SaysWhatFires(MonthlyOn(dm, h, mi), Some(Schedule(Exactly(mi), Exactly(h), Exactly(dm), Any, Any)))
  {
  }

  lemma YearlyIsFaithful(mi: nat, h: nat, dm: nat, mo: nat)
    requires 1 <= mo <= 12
    ensures SaysWhatFires(YearlyOn(mo, dm, h, mi), Some(Schedule(Exactly(mi), Exactly(h), Exactly(dm), Exactly(mo), Any)))
  {
  }

  lemma DateIsFaithfulIff(mi: nat, h: nat, dom: string, mon: string, d: Description)
    requires !Signed(dom) && !Signed(mon) && dom != "*" && HumanizeDay(mi, h, dom, mon, "*") == Some(d)
    ensures var dm, mo := SingleField(dom, 1, 31, [], 0), SingleField(mon, 1, 12, MONTH_NAMES, 1);
            && dm.Some?
            && (mo.Some? <==> PlainShape(d))
            && (mo.Some? ==> SaysWhatFires(d, Some(Schedule(Exactly(mi), Exactly(h), dm.value, mo.value, Any))))
  {
    NumberHasField(dom, 1, 31, [], 0);
    var dm := ParseInt10(dom).value;
    if mon == "*" {
      StarField(1, 12, MONTH_NAMES, 1);
      MonthlyIsFaithful(mi, h, dm);
    } else if ParseMonth(mon).Found? {
      MonthHasField(mon);
      YearlyIsFaithful(mi, h, dm, ParseMonth(mon).n);
    } else {
      InheritedHasNoField(mon, MONTH_NAMES, 1);
    }
  }

  lemma PlainMinute(m: string)
    requires !Signed(m) && ParseInt10(m).Some? && 0 <= ParseInt10(m).value <= 59
    ensures MinuteField(m) == Some(Exactly(ParseInt10(m).value)) && StepMatch(m).None?
  {
    NumberHasField(m, 0, 59, [], 0);
  }

  lemma StarField(lo: nat, hi: nat, names: seq<string>, base: nat)
    ensures SingleField("*", lo, hi, names, base) == Some(Any)
  {
  }

  lemma DailyIsFaithful(mi: nat, hr: nat)
    ensures SaysWhatFires(DailyAt(hr, mi), Assemble(Some(Exactly(mi)), Some(Exactly(hr)), Some(Any), Some(Any), Some(Any)))
  {
  }

  lemma DayIsFaithfulIff(m: string, h: string, dom: string, mon: string, dow: string, d: Description)
    requires !Signed(m) && !Signed(h) && !Signed(dom) && !Signed(mon) && !Signed(dow)
    requires ParseInt10(m).Some? && 0 <= ParseInt10(m).value <= 59
    requires ParseInt10(h).Some? && 0 <= ParseInt10(h).value <= 23
    requires HumanizeDay(ParseInt10(m).value, ParseInt10(h).value, dom, mon, dow) == Some(d)
    ensures SaysWhatFires(d, ScheduleOf(m, h, dom, mon, dow)) <==> PlainShape(d)
    ensures ScheduleOf(m, h, dom, mon, dow).Some? ==> PlainShape(d)
  {
    PlainMinute(m);
    NumberHasField(h, 0, 23, [], 0);
    StarField(1, 31, [], 0);
    StarField(1, 12, MONTH_NAMES, 1);
    StarField(0, 7, DOW_NAMES, 0);
    var mi, hr := ParseInt10(m).value, ParseInt10(h).value;
    if dom == "*" && mon == "*" {
      if dow != "*" { WeekdayIsFaithfulIff(mi, hr, dow, d); } else { DailyIsFaithful(mi, hr); }
    } else {
      assert dow == "*" && dom != "*";
      DateIsFaithfulIff(mi, hr, dom, mon, d);
    }
  }

  /** A step that does not divide the hour, and what it fires by. */
  predicate IsUnevenStep(d: Description, s: Option<Schedule>) {
    d.EveryMinutes? && d.n > 1 && s == Some(Schedule(Step(d.n), Any, Any, Any, Any))
  }

  lemma FieldsAreFaithfulIff(m: string, h: string, dom: string, mon: string, dow: string, d: Description)
    requires !Signed(m) && !Signed(h) && !Signed(dom) && !Signed(mon) && !Signed(dow)
    requires HumanizeFields(m, h, dom, mon, dow) == Some(d)
    ensures SaysWhatFires(d, ScheduleOf(m, h, dom, mon, dow)) <==> PlainShape(d)
    ensures ScheduleOf(m, h, dom, mon, dow).Some? && !PlainShape(d) ==> IsUnevenStep(d, ScheduleOf(m, h, dom, mon, dow))
  {
    var s := ScheduleOf(m, h, dom, mon, dow);
    if h == "*" && dom == "*" && mon == "*" && dow == "*" {
      if StepMatch(m).Some? {
        if StepMatch(m).value == 1 {
          assert s == Some(Schedule(Step(1), Any, Any, Any, Any));
        } else {
          StepIsFaithfulIff(d.n, m);
          StepHasSchedule(m);
        }
      } else if m == "*" {
        assert s == Some(Schedule(Any, Any, Any, Any, Any));
      } else {
        NumberHasField(m, 0, 59, [], 0);
        assert s == Some(Schedule(Exactly(ParseInt10(m).value), Any, Any, Any, Any));
      }
    } else {
      if StepMatch(m).Some? { StepIsNoNumber(m); }
      DayIsFaithfulIff(m, h, dom, mon, dow, d);
    }
  }

  lemma MacroIsFaithful(name: string)
    requires Macro(name).Some?
    ensures SaysWhatFires(Macro(name).value, MacroSchedule(name)) && PlainShape(Macro(name).value)
  {
  }

  /** What can be checked on the fields: a step divides the hour, no name is one every object inherits, and no
      number carries a sign (the only one that gets through is minus zero). */
  predicate PlainFields(m: string, h: string, dom: string, mon: string, dow: string) {
    && !Signed(m) && !Signed(h) && !Signed(dom) && !Signed(mon) && !Signed(dow)
    && PlainStep(m) && !ParseMonth(mon).Inherited? && !ParseDow(dow).Inherited?
  }

  predicate PlainStep(m: string) {
    StepMatch(m).Some? ==> StepMatch(m).value > 0 && 60 % StepMatch(m).value == 0
  }

  predicate Plain(expr: string) {
    var parts := Words(Trim(expr));
    "@" <= Trim(expr) || (|parts| == 5 && PlainFields(parts[0], parts[1], parts[2], parts[3], parts[4]))
  }

  lemma StepIsNoNumber(m: string)
    requires StepMatch(m).Some?
    ensures ParseInt10(m).None?
  {
    assert m[0] == m[..2][0] && m[0] in m && !IsDigit(m[0]);
  }

  lemma StarIsNoName()
    ensures !ParseMonth("*").Inherited? && !ParseDow("*").Inherited?
  {
    StarIsNoNumber("*");
  }

  lemma StarIsNoNumber(s: string)
    requires s == "*"
    ensures ParseInt10(s).None? && |LowerCase(s)| == 1
    ensures !Alias(MONTH_NAMES, 1, s).Inherited? && !Alias(DOW_NAMES, 0, s).Inherited?
  {
    assert s[0] in s && !IsDigit(s[0]);
  }

  lemma DayShape(mi: nat, hr: nat, dom: string, mon: string, dow: string, d: Description)
    requires HumanizeDay(mi, hr, dom, mon, dow) == Some(d)
    ensures PlainShape(d) <==> !ParseMonth(mon).Inherited? && !ParseDow(dow).Inherited?
  {
    StarIsNoName();
    DayForm(mi, hr, dom, mon, dow);
    if dom == "*" { WeekdayShape(mi, hr, dow, mon, d); } else { DateShape(mi, hr, dom, mon, d); }
  }

  lemma DayForm(mi: nat, hr: nat, dom: string, mon: string, dow: string)
    requires HumanizeDay(mi, hr, dom, mon, dow).Some?
    ensures (dom == "*" && mon == "*") || (dom != "*" && dow == "*")
  {
  }

  lemma WeekdayShape(mi: nat, hr: nat, dow: string, mon: string, d: Description)
    requires mon == "*" && HumanizeDay(mi, hr, "*", mon, dow) == Some(d) && !ParseDow("*").Inherited?
    ensures PlainShape(d) <==> !ParseDow(dow).Inherited?
  {
  }

  lemma DateShape(mi: nat, hr: nat, dom: string, mon: string, d: Description)
    requires dom != "*" && HumanizeDay(mi, hr, dom, mon, "*") == Some(d) && !ParseMonth("*").Inherited?
    ensures PlainShape(d) <==> !ParseMonth(mon).Inherited?
  {
  }

  lemma EveryShape(m: string, d: Description)
    requires HumanizeFields(m, "*", "*", "*", "*") == Some(d) && !Signed(m)
    ensures PlainShape(d) <==> PlainStep(m)
  {
  }

  lemma FieldsShape(m: string, h: string, dom: string, mon: string, dow: string, d: Description)
    requires HumanizeFields(m, h, dom, mon, dow) == Some(d)
    requires !Signed(m) && !Signed(h) && !Signed(dom) && !Signed(mon) && !Signed(dow)
    ensures PlainShape(d) <==> PlainFields(m, h, dom, mon, dow)
  {
    if h == "*" && dom == "*" && mon == "*" && dow == "*" {
      EveryShape(m, d);
      StarIsNoName();
    } else {
      NoStepInDay(m);
      DayShape(ParseInt10(m).value, ParseInt10(h).value, dom, mon, dow, d);
    }
  }

  lemma NoStepInDay(m: string)
    ensures StepMatch(m).Some? ==> ParseInt10(m).None?
  {
    if StepMatch(m).Some? { StepIsNoNumber(m); }
  }

  /** A description is right about every minute exactly when the expression is plain. */
  lemma FaithfulIffPlain(expr: string)
    requires Humanize(Some(expr)).Described?
    ensures Faithful(expr, Humanize(Some(expr)).d) <==> Plain(expr)
    ensures Plain(expr) ==> PlainShape(Humanize(Some(expr)).d)
  {
    var trimmed := Trim(expr);
    var d := Humanize(Some(expr)).d;
    if trimmed[0] == '@' {
      assert "@" <= trimmed;
      MacroIsFaithful(LowerCase(trimmed));
    } else {
      var parts := Words(trimmed);
      assert trimmed[0] != "@"[0];
      var m, h, dom, mon, dow := parts[0], parts[1], parts[2], parts[3], parts[4];
      if Signed(m) || Signed(h) || Signed(dom) || Signed(mon) || Signed(dow) {
        SignedHasNoSchedule(m, h, dom, mon, dow);
      } else {
        FieldsAreFaithfulIff(m, h, dom, mon, dow, d);
        FieldsShape(m, h, dom, mon, dow, d);
      }
    }
  }

  // Equal texts

  /** Descriptions of expressions that have a schedule: printed numbers are in range and all names are known. */
  predicate InRange(d: Description) {
    match d
    case EveryHour => true
    case EveryMinute => true
    case EveryMinutes(n) => n > 1
    case HourlyAt(m) => m < 60
    case DailyAt(h, m) => h < 24 && m < 60
    case WeeklyOn(day, h, m) => day < 7 && h < 24 && m < 60
    case WeeklyUnnamed(h, m) => false
    case MonthlyOn(dom, h, m) => 1 <= dom <= 31 && h < 24 && m < 60
    case YearlyOn(month, dom, h, m) => 1 <= month <= 12 && 1 <= dom <= 31 && h < 24 && m < 60
    case YearlyUnnamed(_, _, _) => false
    case NewYear => true
  }

  lemma Pad2IsInjective(a: nat, b: nat)
    requires a < 100 && b < 100
    ensures |Pad2(a)| == 2
    ensures Pad2(a) == Pad2(b) ==> a == b
  {
    DecimalLength(a);
    DecimalLength(b);
    if Pad2(a) == Pad2(b) {
      if a < 10 && b < 10 {
        EqualParts("0", Decimal(a), "0", Decimal(b));
        DecimalIsInjective(a, b);
      } else if a >= 10 && b >= 10 {
        DecimalIsInjective(a, b);
      }
    }
  }

  lemma DecimalLength(n: nat)
    requires n < 100
    ensures |Decimal(n)| == (if n < 10 then 1 else 2)
    ensures n >= 10 ==> Decimal(n)[0] == DigitChar(n / 10)
  {
  }

  lemma TimeIsInjective(h: nat, m: nat, h': nat, m': nat)
    requires h < 24 && m < 60 && h' < 24 && m' < 60
    ensures |Time(h, m)| == 5
    ensures Time(h, m) == Time(h', m') ==> h == h' && m == m'
  {
    Pad2IsInjective(h, h');
    Pad2IsInjective(m, m');
    if Time(h, m) == Time(h', m') {
      EqualParts(Pad2(h), ":" + Pad2(m), Pad2(h'), ":" + Pad2(m'));
      EqualParts(":", Pad2(m), ":", Pad2(m'));
    }
  }

  lemma OrdinalIsInjective(a: nat, b: nat)
    requires a < 100 && b < 100 && Ordinal(a) == Ordinal(b)
    ensures a == b
  {
    assert |OrdinalSuffix(a)| == 2 && |OrdinalSuffix(b)| == 2;
    EqualParts(Decimal(a), OrdinalSuffix(a), Decimal(b), OrdinalSuffix(b));
    DecimalIsInjective(a, b);
  }

  /** " at HH:MM" ends the text, so what stands before it and the time can be read off. */
  lemma EndsInTime(a: string, h: nat, m: nat, b: string, h': nat, m': nat)
    requires h < 24 && m < 60 && h' < 24 && m' < 60
    requires a + (" at " + Time(h, m)) == b + (" at " + Time(h', m'))
    ensures a == b && h == h' && m == m'
  {
    TimeIsInjective(h, m, h', m');
    TimeIsInjective(h', m', h, m);
    EqualParts(a, " at " + Time(h, m), b, " at " + Time(h', m'));
    EqualParts(" at ", Time(h, m), " at ", Time(h', m'));
  }

  function Prefix(d: Description): string {
    match d
    case DailyAt(_, _) => "Daily at "
    case WeeklyOn(_, _, _) => "Weekly on "
    case WeeklyUnnamed(_, _) => "Weekly on "
    case MonthlyOn(_, _, _) => "Monthly on the "
    case YearlyOn(_, _, _, _) => "Yearly on "
    case YearlyUnnamed(_, _, _) => "Yearly on "
    case NewYear => "Yearly on "
    case _ => "Every "
  }

  lemma ShowStartsWithPrefix(d: Description)
    requires InRange(d)
    ensures Show(d) != "" && Show(d)[0] == Prefix(d)[0]
  {
  }

  lemma WeeklyIsInjective(a: nat, h: nat, m: nat, b: nat, h': nat, m': nat)
    requires InRange(WeeklyOn(a, h, m)) && InRange(WeeklyOn(b, h', m'))
    requires Show(WeeklyOn(a, h, m)) == Show(WeeklyOn(b, h', m'))
    ensures a == b && h == h' && m == m'
  {
    EqualParts("Weekly on ", DAYS[a] + (" at " + Time(h, m)), "Weekly on ", DAYS[b] + (" at " + Time(h', m')));
    EndsInTime(DAYS[a], h, m, DAYS[b], h', m');
    DaysDiffer(a, b);
  }

  lemma MonthlyIsInjective(a: nat, h: nat, m: nat, b: nat, h': nat, m': nat)
    requires InRange(MonthlyOn(a, h, m)) && InRange(MonthlyOn(b, h', m'))
    requires Show(MonthlyOn(a, h, m)) == Show(MonthlyOn(b, h', m'))
    ensures a == b && h == h' && m == m'
  {
    EqualParts("Monthly on the ", Ordinal(a) + (" at " + Time(h, m)), "Monthly on the ", Ordinal(b) + (" at " + Time(h', m')));
    EndsInTime(Ordinal(a), h, m, Ordinal(b), h', m');
    OrdinalIsInjective(a, b);
  }

  lemma MonthThenRest(a: nat, x: string, b: nat, y: string)
    requires a < 12 && b < 12 && MONTHS[a] + (" " + x) == MONTHS[b] + (" " + y)
    ensures a == b && x == y
  {
    MonthsDiffer(a, b);
    MonthsDiffer(b, a);
    EqualParts(MONTHS[a], " " + x, MONTHS[b], " " + y);
    EqualParts(" ", x, " ", y);
  }

  lemma ShowYearly(mo: nat, a: nat, h: nat, m: nat)
    requires 1 <= mo <= 12
    ensures Show(YearlyOn(mo, a, h, m))
            == "Yearly on " + (MONTHS[mo - 1] + (" " + (Ordinal(a) + (" at " + Time(h, m)))))
  {
  }

  lemma YearlyIsInjective(mo: nat, a: nat, h: nat, m: nat, mo': nat, b: nat, h': nat, m': nat)
    requires InRange(YearlyOn(mo, a, h, m)) && InRange(YearlyOn(mo', b, h', m'))
    requires Show(YearlyOn(mo, a, h, m)) == Show(YearlyOn(mo', b, h', m'))
    ensures mo == mo' && a == b && h == h' && m == m'
  {
    ShowYearly(mo, a, h, m);
    ShowYearly(mo', b, h', m');
    RestIsInjective(mo, a, h, m, mo', b, h', m');
  }

  lemma RestIsInjective(mo: nat, a: nat, h: nat, m: nat, mo': nat, b: nat, h': nat, m': nat)
    requires InRange(YearlyOn(mo, a, h, m)) && InRange(YearlyOn(mo', b, h', m'))
    requires var x, y := Ordinal(a) + (" at " + Time(h, m)), Ordinal(b) + (" at " + Time(h', m'));
             "Yearly on " + (MONTHS[mo - 1] + (" " + x)) == "Yearly on " + (MONTHS[mo' - 1] + (" " + y))
    ensures mo == mo' && a == b && h == h' && m == m'
  {
    var x, y := Ordinal(a) + (" at " + Time(h, m)), Ordinal(b) + (" at " + Time(h', m'));
    EqualParts("Yearly on ", MONTHS[mo - 1] + (" " + x), "Yearly on ", MONTHS[mo' - 1] + (" " + y));
    MonthThenRest(mo - 1, x, mo' - 1, y);
    EndsInTime(Ordinal(a), h, m, Ordinal(b), h', m');
    OrdinalIsInjective(a, b);
  }

  lemma SameShapeIsInjective(d: Description, e: Description)
    requires InRange(d) && InRange(e) && Show(d) == Show(e)
    requires (d.DailyAt? && e.DailyAt?) || (d.WeeklyOn? && e.WeeklyOn?) || (d.MonthlyOn? && e.MonthlyOn?)
          || (d.YearlyOn? && e.YearlyOn?)
    ensures d == e
  {
    match d
    case DailyAt(h, m) =>
      EqualParts("Daily at ", Time(h, m), "Daily at ", Time(e.hour, e.minute));
      TimeIsInjective(h, m, e.hour, e.minute);
    case WeeklyOn(day, h, m) => WeeklyIsInjective(day, h, m, e.day, e.hour, e.minute);
    case MonthlyOn(dom, h, m) => MonthlyIsInjective(dom, h, m, e.dom, e.hour, e.minute);
    case YearlyOn(month, dom, h, m) => YearlyIsInjective(month, dom, h, m, e.month, e.dom, e.hour, e.minute);
  }

  /** The macros' text is shorter than any other yearly text. */
  lemma NewYearStandsAlone(d: Description)
    requires InRange(d) && Prefix(d) == "Yearly on " && Show(d) == Show(NewYear)
    ensures d == NewYear
  {
    if d.YearlyOn? {
      ShowYearly(d.month, d.dom, d.hour, d.minute);
      TimeIsInjective(d.hour, d.minute, 0, 0);
      MonthsDiffer(d.month - 1, 0);
    }
  }

  lemma DaysDiffer(a: nat, b: nat)
    requires a < 7 && b < 7
    ensures DAYS[a] == DAYS[b] ==> a == b
  {
    if DAYS[a] == DAYS[b] {
      assert DAYS[a][0] == DAYS[b][0] && DAYS[a][1] == DAYS[b][1];
    }
  }

  lemma MonthsDiffer(a: nat, b: nat)
    requires a < 12 && b < 12
    ensures |MONTHS[a]| == 3
    ensures MONTHS[a] == MONTHS[b] ==> a == b
  {
    if MONTHS[a] == MONTHS[b] {
      assert MONTHS[a][0] == MONTHS[b][0] && MONTHS[a][1] == MONTHS[b][1] && MONTHS[a][2] == MONTHS[b][2];
    }
  }

  lemma EveryIsInjective(d: Description, e: Description)
    requires InRange(d) && InRange(e) && Show(d) == Show(e) && Prefix(d) == "Every " && Prefix(e) == "Every "
    ensures d == e
  {
    EveryLengths(d);
    EveryLengths(e);
    if d.EveryMinutes? && e.EveryMinutes? {
      EqualParts("Every ", Decimal(d.n) + " minutes", "Every ", Decimal(e.n) + " minutes");
      EqualParts(Decimal(d.n), " minutes", Decimal(e.n), " minutes");
      DecimalIsInjective(d.n, e.n);
    } else if d.HourlyAt? && e.HourlyAt? {
      EqualParts("Every hour at :", Pad2(d.minute), "Every hour at :", Pad2(e.minute));
      Pad2IsInjective(d.minute, e.minute);
    } else {
      assert Show(d)[6] == Show(e)[6];
    }
  }

  lemma EveryLengths(d: Description)
    requires InRange(d) && Prefix(d) == "Every "
    ensures match d
            case EveryHour => |Show(d)| == 10 && Show(d)[6] == 'h'
            case EveryMinute => |Show(d)| == 12 && Show(d)[6] == 'm'
            case EveryMinutes(n) => |Show(d)| > 6 && IsDigit(Show(d)[6])
            case HourlyAt(m) => |Show(d)| == 17 && Show(d)[6] == 'h'
            case _ => false
  {
    match d
    case EveryHour =>
    case EveryMinute =>
    case EveryMinutes(n) =>
      assert Show(d)[6] == Decimal(n)[0] && Decimal(n)[0] in Decimal(n);
    case HourlyAt(m) => Pad2IsInjective(m, m);
  }

  lemma ShowIsInjective(d: Description, e: Description)
    requires InRange(d) && InRange(e) && Show(d) == Show(e)
    ensures d == e
  {
    ShowStartsWithPrefix(d);
    ShowStartsWithPrefix(e);
    assert Prefix(d)[0] == Prefix(e)[0];
    if Prefix(d) == "Every " {
      EveryIsInjective(d, e);
    } else if d.NewYear? {
      NewYearStandsAlone(e);
    } else if e.NewYear? {
      NewYearStandsAlone(d);
    } else {
      SameShapeIsInjective(d, e);
    }
  }

  /** The whole rendered string, as the page shows it. */
  function Rendered(expr: Option<string>): string {
    match Humanize(expr)
    case Raw(text) => text
    case Described(d) => Show(d)
  }

  lemma DayIsInRange(mi: nat, hr: nat, dom: string, mon: string, dow: string, d: Description)
    requires HumanizeDay(mi, hr, dom, mon, dow) == Some(d) && PlainShape(d) && mi < 60 && hr < 24
    ensures InRange(d)
  {
  }

  lemma FieldsAreInRange(m: string, h: string, dom: string, mon: string, dow: string, d: Description)
    requires HumanizeFields(m, h, dom, mon, dow) == Some(d) && PlainShape(d)
    ensures InRange(d)
  {
    if !(h == "*" && dom == "*" && mon == "*" && dow == "*") {
      DayIsInRange(ParseInt10(m).value, ParseInt10(h).value, dom, mon, dow, d);
    }
  }

  /** Of an expression with a schedule, the description is right or an uneven step, and in range. */
  lemma ScheduledDescription(expr: string)
    requires Humanize(Some(expr)).Described? && CronOf(expr).Some?
    ensures var d := Humanize(Some(expr)).d;
            InRange(d) && (if PlainShape(d) then Faithful(expr, d) else IsUnevenStep(d, CronOf(expr)))
  {
    var trimmed, parts := Trim(expr), Words(Trim(expr));
    var d := Humanize(Some(expr)).d;
    if trimmed[0] == '@' {
      MacroIsFaithful(LowerCase(trimmed));
    } else {
      var m, h, dom, mon, dow := parts[0], parts[1], parts[2], parts[3], parts[4];
      if Signed(m) || Signed(h) || Signed(dom) || Signed(mon) || Signed(dow) {
        SignedHasNoSchedule(m, h, dom, mon, dow);
      } else {
        FieldsAreFaithfulIff(m, h, dom, mon, dow, d);
        if PlainShape(d) { FieldsAreInRange(m, h, dom, mon, dow, d); }
      }
    }
  }

  /** Expressions with a schedule that are described by the same words fire at the same minutes, whether the words
      are right or not. */
  lemma EqualDescriptionsMeanEqualSchedules(e: string, f: string)
    requires Humanize(Some(e)).Described? && CronOf(e).Some?
    requires Humanize(Some(f)).Described? && CronOf(f).Some?
    requires Rendered(Some(e)) == Rendered(Some(f))
    ensures forall x :: Fires(CronOf(e).value, x) <==> Fires(CronOf(f).value, x)
  {
    ScheduledDescription(e);
    ScheduledDescription(f);
    var d := Humanize(Some(e)).d;
    ShowIsInjective(d, Humanize(Some(f)).d);
    if PlainShape(d) {
      forall x ensures Fires(CronOf(e).value, x) <==> Fires(CronOf(f).value, x) {
        assert Denotes(d, x) <==> Fires(CronOf(e).value, x);
      }
    }
  }

  // The three ways to mislead, each reached by an actual expression

  predicate Solid(s: string) {
    s != "" && forall c :: c in s ==> !IsScriptSpace(c)
  }

  lemma {:induction false} SolidWordLength(a: string, rest: string)
    requires forall c :: c in a ==> !IsScriptSpace(c)
    requires rest == "" || IsScriptSpace(rest[0])
    ensures WordLength(a + rest) == |a|
  {
    if a == "" {
      assert a + rest == rest;
    } else {
      assert (a + rest)[1..] == a[1..] + rest;
      SolidWordLength(a[1..], rest);
    }
  }

  lemma FirstWord(a: string, rest: string)
    requires Solid(a)
    ensures Words(a + (" " + rest)) == [a] + Words(rest)
  {
    var s := a + (" " + rest);
    SolidWordLength(a, " " + rest);
    assert s[0] == a[0] && s[..|a|] == a && s[|a|..] == " " + rest;
    assert (" " + rest)[1..] == rest;
  }

  lemma LastWord(a: string)
    requires Solid(a)
    ensures Words(a) == [a]
  {
    SolidWordLength(a, "");
    assert a + "" == a && a[..|a|] == a && a[|a|..] == "";
  }

  function Line(m: string, h: string, dom: string, mon: string, dow: string): string {
    m + (" " + (h + (" " + (dom + (" " + (mon + (" " + dow)))))))
  }

  lemma LineWords(m: string, h: string, dom: string, mon: string, dow: string)
    requires Solid(m) && Solid(h) && Solid(dom) && Solid(mon) && Solid(dow)
    ensures Words(Line(m, h, dom, mon, dow)) == [m, h, dom, mon, dow]
  {
    LastWord(dow);
    FirstWord(mon, dow);
    FirstWord(dom, mon + (" " + dow));
    FirstWord(h, dom + (" " + (mon + (" " + dow))));
    FirstWord(m, h + (" " + (dom + (" " + (mon + (" " + dow))))));
  }

  lemma LineIsTrimmed(m: string, rest: string)
    requires Solid(m) && rest != "" && !IsScriptSpace(rest[|rest| - 1])
    ensures Trim(m + (" " + rest)) == m + (" " + rest)
  {
    var line := m + (" " + rest);
    assert line[0] == m[0] && line[|line| - 1] == rest[|rest| - 1];
  }

  lemma EndsSolid(a: string, rest: string)
    requires rest != "" && !IsScriptSpace(rest[|rest| - 1])
    ensures var s := a + (" " + rest); s != "" && !IsScriptSpace(s[|s| - 1])
  {
    var s := a + (" " + rest);
    assert s[|s| - 1] == rest[|rest| - 1];
  }

  lemma LineReaches(m: string, h: string, dom: string, mon: string, dow: string)
    requires Solid(m) && Solid(h) && Solid(dom) && Solid(mon) && Solid(dow) && m[0] != '@'
    ensures var line := Line(m, h, dom, mon, dow);
            var d := HumanizeFields(m, h, dom, mon, dow);
            && CronOf(line) == ScheduleOf(m, h, dom, mon, dow)
            && (d.Some? ==> Humanize(Some(line)) == Described(d.value))
  {
    var line := Line(m, h, dom, mon, dow);
    LineWords(m, h, dom, mon, dow);
    EndsSolid(mon, dow);
    EndsSolid(dom, mon + (" " + dow));
    EndsSolid(h, dom + (" " + (mon + (" " + dow))));
    LineIsTrimmed(m, h + (" " + (dom + (" " + (mon + (" " + dow))))));
    assert line[0] == m[0];
  }

  lemma DigitsAreSolid(s: string)
    requires s != "" && AllDigits(s)
    ensures Solid(s)
  {
    forall c | c in s ensures !IsScriptSpace(c) { assert IsDigit(c); }
  }

  /** Any step that does not divide the hour is described, and described wrongly. */
  lemma UnevenStepMisleads(n: nat)
    requires n == 0 || 60 % n != 0
    ensures var line := Line("*/" + Decimal(n), "*", "*", "*", "*");
            Humanize(Some(line)) == Described(EveryMinutes(n)) && !Faithful(line, EveryMinutes(n))
  {
    var m := "*/" + Decimal(n);
    DigitsAreSolid(Decimal(n));
    NumberOfDecimal(n);
    assert m[..2] == "*/" && m[2..] == Decimal(n);
    assert Solid(m) by {
      forall c | c in m ensures !IsScriptSpace(c) { assert c in "*/" || c in Decimal(n); }
    }
    LineReaches(m, "*", "*", "*", "*");
    StepIsFaithfulIff(n, m);
  }

  lemma OneDigit(n: nat)
    requires n < 10
    ensures var s := [DigitChar(n)]; Solid(s) && ParseInt10(s) == Some(n) && StepMatch(s).None?
  {
    NumberOfDecimal(n);
    DigitsAreSolid(Decimal(n));
  }

  lemma ConstructorIsInherited()
    ensures ParseDow("constructor").Inherited? && DowField("constructor").None? && Solid("constructor")
  {
    InheritedInAnyCase("constructor");
  }

  lemma InheritedInAnyCase(name: string)
    requires name == "constructor"
    ensures ParseDow(name).Inherited? && DowField(name).None? && Solid(name)
  {
    assert LowerCase(name) == name;
    assert name[0] in name && !IsDigit(name[0]);
    InheritedIsNoName(DOW_NAMES, name);
  }

  lemma InheritedNameInAnyLine(m: string, h: string, name: string)
    requires m == "0" && h == "9" && name == "constructor"
    ensures var line := Line(m, h, "*", "*", name);
            && Humanize(Some(line)) == Described(WeeklyUnnamed(9, 0))
            && !Faithful(line, WeeklyUnnamed(9, 0))
  {
    OneDigit(0);
    OneDigit(9);
    assert m == [DigitChar(0)] && h == [DigitChar(9)];
    ConstructorIsInherited();
    NumbersReachDay(m, h, name);
    LineReaches(m, h, "*", "*", name);
  }

  lemma NumbersReachDay(m: string, h: string, name: string)
    requires ParseInt10(m) == Some(0) && ParseInt10(h) == Some(9) && StepMatch(m).None? && name != "*"
    requires ParseDow(name).Inherited?
    ensures HumanizeFields(m, h, "*", "*", name) == Some(WeeklyUnnamed(9, 0))
  {
  }

  /** A day name every object inherits prints "Weekly on undefined". */
  lemma InheritedNameMisleads()
    ensures var line := Line("0", "9", "*", "*", "constructor");
            && Humanize(Some(line)) == Described(WeeklyUnnamed(9, 0))
            && !Faithful(line, WeeklyUnnamed(9, 0))
  {
    InheritedNameInAnyLine("0", "9", "constructor");
  }

  lemma MinusZeroParses()
    ensures Signed("-0") && Solid("-0") && ParseInt10("-0") == Some(0) && StepMatch("-0").None?
  {
    assert "-0"[1..] == "0" && Decimal(0) == "0";
    NumberOfDecimal(0);
    assert "-0"[0] in "-0";
  }

  lemma MinuteIsHourly(m: string)
    requires ParseInt10(m) == Some(0) && StepMatch(m).None? && Signed(m)
    ensures HumanizeFields(m, "*", "*", "*", "*") == Some(HourlyAt(0))
  {
  }

  /** Minus zero passes the range checks but is no crontab minute. */
  lemma MinusZeroMisleads()
    ensures var line := Line("-0", "*", "*", "*", "*");
            Humanize(Some(line)) == Described(HourlyAt(0)) && !Faithful(line, HourlyAt(0))
  {
    MinusZeroParses();
    MinuteIsHourly("-0");
    SignedHasNoSchedule("-0", "*", "*", "*", "*");
    LineReaches("-0", "*", "*", "*", "*");
  }
}
