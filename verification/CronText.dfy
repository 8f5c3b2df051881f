// Cron expressions as they are written, and the daily and weekly calculations against the search on
// those texts.
module CronText {
  import opened CronNext
  import opened CronParse
  import opened Decimal
  import opened Durations
  import opened Strings

  // ----- Five words make five fields -----

  predicate IsWord(s: string) {
    s != "" && forall c | c in s :: !IsSpace(c)
  }

  function Expression(minute: string, hour: string, dom: string, month: string, dow: string): string {
    minute + (" " + (hour + (" " + (dom + (" " + (month + (" " + dow)))))))
  }

  lemma {:induction false} WordEnds(word: string, rest: string)
    requires (forall c | c in word :: !IsSpace(c)) && (rest == "" || IsSpace(rest[0]))
    ensures WordLength(word + rest) == |word|
  {
    if word == "" {
      assert word + rest == rest;
    } else {
      assert word[0] in word;
      assert (word + rest)[1..] == word[1..] + rest;
      WordEnds(word[1..], rest);
    }
  }

  lemma FirstField(word: string, rest: string)
    requires IsWord(word)
    ensures Fields(word + (" " + rest)) == [word] + Fields(rest)
  {
    var s := word + (" " + rest);
    assert word[0] in word && s[0] == word[0];
    WordEnds(word, " " + rest);
    assert s[..|word|] == word && s[|word|..] == " " + rest;
    assert (" " + rest)[1..] == rest;
  }

  lemma OnlyField(word: string)
    requires IsWord(word)
    ensures Fields(word) == [word]
  {
    assert word[0] in word && word + "" == word;
    WordEnds(word, "");
    assert word[..|word|] == word && word[|word|..] == "";
  }

  lemma FieldsOf(minute: string, hour: string, dom: string, month: string, dow: string)
    requires IsWord(minute) && IsWord(hour) && IsWord(dom) && IsWord(month) && IsWord(dow)
    ensures Fields(Expression(minute, hour, dom, month, dow)) == [minute, hour, dom, month, dow]
  {
    FirstField(minute, hour + (" " + (dom + (" " + (month + (" " + dow))))));
    FirstField(hour, dom + (" " + (month + (" " + dow))));
    FirstField(dom, month + (" " + dow));
    FirstField(month, dow);
    OnlyField(dow);
    hide Fields;
  }

  // ----- A number denotes itself -----

  lemma {:induction false} NotFound(s: string, c: char)
    requires c !in s
    ensures IndexOf(s, c) == |s|
  {
    if s != "" {
      NotFound(s[1..], c);
    }
  }

  lemma NumberField(n: nat, lo: int, hi: int)
    requires 0 <= lo <= 1 && lo <= n <= hi <= 59
    ensures IsWord(Digits(n)) && ParsedField(Digits(n), lo, hi).Ok?
    ensures DenotesOnly(Digits(n), lo, hi, n)
  {
    var s := Digits(n);
    DigitsDenote(n);
    assert s[0] in s;
    assert forall c | c in s :: !IsSpace(c) && c != ',' && c != '-' && c != '*' && c != '+';
    NotFound(s, ',');
    NotFound(s, '-');
    assert TrimSpace(s) == s by {
      assert s[|s| - 1] in s;
    }
    hide Digits;
    NumberBounds(s, n, lo, hi);
    assert Split(s, ',') == [s];
    assert !IsStepField(s);
    assert PartsError([s], lo, hi) == PartsError([s][1..], lo, hi);
    forall x | lo <= x <= hi
      ensures Denotes(s, lo, hi, x) == (x == n)
    {
      assert forall p | p in [s] :: p == s;
      assert s in [s];
    }
  }

  lemma NumberBounds(s: string, n: nat, lo: int, hi: int)
    requires s != "" && (forall c | c in s :: IsDigit(c)) && Number(s) == n && lo <= n <= hi <= 59
    requires IndexOf(s, '-') == |s|
    ensures PartBounds(s, lo, hi) == Ok(Bounds(n, n))
  {
    assert s[0] in s;
  }

  lemma StarField(lo: int, hi: int)
    requires 0 <= lo <= 1 && lo <= hi <= 59
    ensures IsWord("*") && ParsedField("*", lo, hi).Ok? && Unrestricted("*", lo, hi)
  {
  }

  // ----- The other forms of a field, as texts -----

  // Every 64-bit integer is read from its decimal text, with or without a plus sign; larger ones are not.
  lemma IntegersAreRead(n: int)
    ensures Atoi(FormatInt(n)) == if MIN_INT <= n <= MAX_INT then Ok(n) else Failed(NotAnInteger)
    ensures n >= 0 ==> Atoi("+" + Digits(n)) == Atoi(FormatInt(n))
    ensures Atoi("") == Failed(NotAnInteger) && Atoi("-") == Failed(NotAnInteger) && Atoi("+") == Failed(NotAnInteger)
  {
    DigitsDenote(if n < 0 then -n else n);
    DigitsAreRead(Digits(if n < 0 then -n else n));
    hide Atoi, Digits, Number;
  }

  lemma DigitsAreRead(digits: string)
    requires digits != "" && forall c | c in digits :: IsDigit(c)
    ensures Number(digits) >= 0
    ensures Atoi(digits) == if Number(digits) <= MAX_INT then Ok(Number(digits)) else Failed(NotAnInteger)
    ensures Atoi("-" + digits) == if -Number(digits) >= MIN_INT then Ok(-Number(digits)) else Failed(NotAnInteger)
    ensures Atoi("+" + digits) == Atoi(digits)
    ensures Atoi("") == Failed(NotAnInteger) && Atoi("-") == Failed(NotAnInteger) && Atoi("+") == Failed(NotAnInteger)
  {
    NumberIsNatural(digits);
    hide Number;
    assert digits[0] in digits;
    assert ("-" + digits)[1..] == digits && ("+" + digits)[1..] == digits;
    assert "-"[1..] == "" && "+"[1..] == "";
  }

  lemma {:induction false} NumberIsNatural(digits: string)
    requires forall c | c in digits :: IsDigit(c)
    ensures Number(digits) >= 0
  {
    if digits != "" {
      assert digits[|digits| - 1] in digits;
      NumberIsNatural(digits[..|digits| - 1]);
    }
  }

  // `*/n`
  lemma StepField(n: nat, lo: int, hi: int, v: int)
    requires 0 <= lo <= 1 && lo <= hi <= 59 && n <= MAX_INT
    ensures ParsedField("*/" + Digits(n), lo, hi).Ok? <==> n > 0
    ensures Denotes("*/" + Digits(n), lo, hi, v) <==> lo <= v <= hi && n > 0 && (v - lo) % n == 0
  {
    IntegersAreRead(n);
    hide Digits, Atoi, StepValues;
    var field := "*/" + Digits(n);
    assert field[2..] == Digits(n) && field[..2] == "*/";
  }

  // `a-b`
  lemma RangeField(a: nat, b: nat, lo: int, hi: int, v: int)
    requires 0 <= lo <= 1 && lo <= hi <= 59 && a <= MAX_INT && b <= MAX_INT
    ensures var field := Digits(a) + "-" + Digits(b);
            if lo <= a <= b <= hi then ParsedField(field, lo, hi).Ok? && (Denotes(field, lo, hi, v) <==> a <= v <= b)
            else ParsedField(field, lo, hi) == Failed(OutOfBounds)
  {
    var field := Digits(a) + "-" + Digits(b);
    IntegersAreRead(a);
    IntegersAreRead(b);
    RangeIsOnePart(a, b);
    hide Digits, Atoi;
    assert PartBounds(field, lo, hi) == if lo <= a <= b <= hi then Ok(Bounds(a, b)) else Failed(OutOfBounds);
    OnePart(field, lo, hi, v);
    hide PartBounds, ParsedField, Denotes;
  }

  // A field that is a single part and no other form.
  predicate IsOnePart(field: string) {
    Split(field, ',') == [field] && TrimSpace(field) == field && !IsStepField(field) && field != "*"
  }

  lemma OnePart(field: string, lo: int, hi: int, v: int)
    requires IsOnePart(field) && 0 <= lo <= 1 && lo <= hi <= 59
    ensures var b := PartBounds(field, lo, hi);
            && (b.Failed? ==> ParsedField(field, lo, hi) == Failed(b.why))
            && (b.Ok? ==> ParsedField(field, lo, hi).Ok? && (Denotes(field, lo, hi, v) <==> b.value.first <= v <= b.value.last))
  {
    hide PartBounds, TrimSpace, Split;
    assert [field][1..] == [] && field in [field] && forall p | p in [field] :: p == field;
    assert PartsError([], lo, hi) == Ok(());
    assert PartsError([field], lo, hi).Ok? <==> PartBounds(field, lo, hi).Ok?;
    var b := PartBounds(field, lo, hi);
    assert PartsDenote([field], lo, hi, v) <==> b.Ok? && b.value.first <= v <= b.value.last;
  }

  lemma RangeIsOnePart(a: nat, b: nat)
    ensures var field := Digits(a) + "-" + Digits(b);
            && IsOnePart(field) && IndexOf(field, '-') == |Digits(a)|
            && field[..|Digits(a)|] == Digits(a) && field[|Digits(a)| + 1..] == Digits(b)
  {
    DigitsDenote(a);
    DigitsDenote(b);
    hide Digits, Number;
    DashedDigits(Digits(a), Digits(b));
  }

  lemma DashedDigits(x: string, y: string)
    requires x != "" && y != "" && (forall c | c in x :: IsDigit(c)) && (forall c | c in y :: IsDigit(c))
    ensures var field := x + "-" + y;
            IsOnePart(field) && IndexOf(field, '-') == |x| && field[..|x|] == x && field[|x| + 1..] == y
  {
    var field := x + "-" + y;
    FirstDash(x, y);
    assert x[0] in x && y[|y| - 1] in y;
    assert field[0] == x[0] && field[|field| - 1] == y[|y| - 1];
    Trimmed(field);
    assert forall c | c in field :: IsDigit(c) || c == '-';
    hide TrimSpace;
    NotFound(field, ',');
    hide IndexOf;
    assert field[..2][0] == x[0];
  }

  lemma Trimmed(s: string)
    requires s != "" && !IsSpace(s[0]) && !IsSpace(s[|s| - 1])
    ensures TrimSpace(s) == s
  {
  }

  lemma FirstDash(digits: string, rest: string)
    requires forall c | c in digits :: IsDigit(c)
    ensures IndexOf(digits + "-" + rest, '-') == |digits|
    decreases digits
  {
    if digits != "" {
      assert digits[0] in digits;
      assert (digits + "-" + rest)[1..] == digits[1..] + "-" + rest;
      FirstDash(digits[1..], rest);
    }
  }

  // `f,g`: a list is accepted when both sides are, and denotes what either of them does.
  lemma ListField(f: string, g: string, lo: int, hi: int, v: int)
    requires 0 <= lo <= 1 && lo <= hi <= 59
    requires f != "*" && g != "*" && !IsStepField(f) && !IsStepField(g)
    ensures var field := f + "," + g;
            && (ParsedField(field, lo, hi).Ok? <==> ParsedField(f, lo, hi).Ok? && ParsedField(g, lo, hi).Ok?)
            && (Denotes(field, lo, hi, v) <==> Denotes(f, lo, hi, v) || Denotes(g, lo, hi, v))
  {
    var field := f + "," + g;
    assert !IsStepField(field) by {
      if |f| >= 2 {
        assert field[..2] == f[..2];
      } else if |field| >= 2 {
        assert field[..2][|f|] == ',';
      }
    }
    assert field != "*" by { assert ',' == field[|f|]; }
    SplitList(f, g);
    PartsErrorAppend(Split(f, ','), Split(g, ','), lo, hi);
    hide PartBounds, TrimSpace, Split;
    var a, b := Split(f, ','), Split(g, ',');
    assert forall p :: p in a + b <==> p in a || p in b;
    hide PartsError, IsStepField;
  }

  lemma {:induction false} SplitList(f: string, g: string)
    ensures Split(f + "," + g, ',') == Split(f, ',') + Split(g, ',')
    decreases |f|
  {
    hide Split, IndexOf;
    var field := f + "," + g;
    var i := IndexOf(f, ',');
    FirstComma(f, g);
    SplitOnce(field);
    SplitOnce(f);
    if i == |f| {
      assert field[..|f|] == f && field[|f| + 1..] == g;
    } else {
      assert field[..i] == f[..i] && field[i + 1..] == f[i + 1..] + "," + g;
      SplitList(f[i + 1..], g);
      assert [f[..i]] + (Split(f[i + 1..], ',') + Split(g, ',')) == ([f[..i]] + Split(f[i + 1..], ',')) + Split(g, ',');
    }
  }

  lemma SplitOnce(s: string)
    ensures var i := IndexOf(s, ','); Split(s, ',') == if i == |s| then [s] else [s[..i]] + Split(s[i + 1..], ',')
  {
  }

  lemma {:induction false} FirstComma(f: string, g: string)
    ensures IndexOf(f + "," + g, ',') == IndexOf(f, ',')
    decreases f
  {
    if f != "" && f[0] != ',' {
      assert (f + "," + g)[1..] == f[1..] + "," + g;
      FirstComma(f[1..], g);
    }
  }

  lemma {:induction false} PartsErrorAppend(a: seq<string>, b: seq<string>, lo: int, hi: int)
    ensures PartsError(a + b, lo, hi).Ok? <==> PartsError(a, lo, hi).Ok? && PartsError(b, lo, hi).Ok?
  {
    hide PartBounds, TrimSpace;
    if a == [] {
      assert a + b == b;
    } else {
      assert (a + b)[1..] == a[1..] + b;
      PartsErrorAppend(a[1..], b, lo, hi);
    }
  }

  // ----- A field whose step does not fit -----

  // `*/9223372036854775807`: a day of the month that is accepted and not within its limits.
  lemma WrappedField(hi: int)
    requires 1 <= hi <= 59
    ensures var field := "*/" + Digits(MAX_INT);
            !StepFits(field, 1) && ParsedField(field, 1, hi) == Ok([1, MIN_INT, -1])
  {
    var step := Digits(MAX_INT);
    DigitsDenote(MAX_INT);
    hide Digits;
    var field := "*/" + step;
    assert field[2..] == step && field[..2] == "*/" && step[0] in step;
    assert Atoi(step) == Ok(MAX_INT);
    StepWraps(hi);
    hide StepValues;
  }

  // ----- The expressions of the daily and weekly schedules -----

  // `m h * * *`
  function DailyText(hour: nat, minute: nat): string {
    Expression(Digits(minute), Digits(hour), "*", "*", "*")
  }

  // `m h * * d`
  function WeeklyText(weekday: nat, hour: nat, minute: nat): string {
    Expression(Digits(minute), Digits(hour), "*", "*", Digits(weekday))
  }

  lemma FieldsParse(expr: string)
    requires |Fields(expr)| == 5
    requires ParsedField(Fields(expr)[0], 0, 59).Ok? && ParsedField(Fields(expr)[1], 0, 23).Ok?
    requires ParsedField(Fields(expr)[2], 1, 31).Ok? && ParsedField(Fields(expr)[3], 1, 12).Ok?
    requires ParsedField(Fields(expr)[4], 0, 6).Ok?
    ensures ParsedCron(expr).Ok?
  {
    hide ParsedField;
    hide Fields;
  }

  lemma DailyTextParses(hour: nat, minute: nat)
    requires hour <= 23 && minute <= 59
    ensures ParsedCron(DailyText(hour, minute)).Ok? && IsDailyExpression(DailyText(hour, minute), hour, minute)
  {
    hide ParsedField, Denotes, DenotesOnly, Unrestricted, IsWord, Digits, ParsedCron;
    NumberField(minute, 0, 59);
    NumberField(hour, 0, 23);
    StarField(1, 31);
    StarField(1, 12);
    StarField(0, 6);
    FieldsOf(Digits(minute), Digits(hour), "*", "*", "*");
    hide Fields, Expression;
    FieldsParse(DailyText(hour, minute));
  }

  lemma WeeklyTextParses(weekday: nat, hour: nat, minute: nat)
    requires weekday <= 6 && hour <= 23 && minute <= 59
    ensures ParsedCron(WeeklyText(weekday, hour, minute)).Ok?
    ensures IsWeeklyExpression(WeeklyText(weekday, hour, minute), hour, minute, weekday)
  {
    hide ParsedField, Denotes, DenotesOnly, Unrestricted, IsWord, Digits, ParsedCron;
    NumberField(minute, 0, 59);
    NumberField(hour, 0, 23);
    StarField(1, 31);
    StarField(1, 12);
    NumberField(weekday, 0, 6);
    FieldsOf(Digits(minute), Digits(hour), "*", "*", Digits(weekday));
    hide Fields, Expression;
    FieldsParse(WeeklyText(weekday, hour, minute));
  }

  // `m h d * w`
  function EitherDayText(dom: nat, weekday: nat, hour: nat, minute: nat): string {
    Expression(Digits(minute), Digits(hour), Digits(dom), "*", Digits(weekday))
  }

  // When both days are given, either of them will do.
  lemma EitherDayMatches(cal: Calendar, day: int, dom: nat, weekday: nat, hour: nat, minute: nat, h: int, m: int)
    requires ValidCalendar(cal) && 1 <= dom <= 31 && weekday <= 6 && hour <= 23 && minute <= 59
    ensures var expr := EitherDayText(dom, weekday, hour, minute);
            && ParsedCron(expr).Ok? && |Fields(expr)| == 5
            && (Matches(expr, cal, day, h, m) <==> h == hour && m == minute && (cal.dom(day) == dom || Weekday(day) == weekday))
  {
    hide ParsedField, Denotes, IsWord, Digits, ParsedCron;
    NumberField(minute, 0, 59);
    NumberField(hour, 0, 23);
    NumberField(dom, 1, 31);
    StarField(1, 12);
    NumberField(weekday, 0, 6);
    FieldsOf(Digits(minute), Digits(hour), Digits(dom), "*", Digits(weekday));
    hide Fields, Expression;
    FieldsParse(EitherDayText(dom, weekday, hour, minute));
    NotUnrestricted(Digits(dom), 1, 31, dom);
    NotUnrestricted(Digits(weekday), 0, 6, weekday);
    WeekdayInRange(day);
    hide EitherDayText;
  }

  // `m h d * *`
  function MonthlyText(dom: nat, hour: nat, minute: nat): string {
    Expression(Digits(minute), Digits(hour), Digits(dom), "*", "*")
  }

  // A day of the month alone matches on that day of every month, whatever the weekday.
  lemma MonthlyMatches(cal: Calendar, day: int, dom: nat, hour: nat, minute: nat, h: int, m: int)
    requires ValidCalendar(cal) && 1 <= dom <= 31 && hour <= 23 && minute <= 59
    ensures var expr := MonthlyText(dom, hour, minute);
            && ParsedCron(expr).Ok? && |Fields(expr)| == 5
            && (Matches(expr, cal, day, h, m) <==> h == hour && m == minute && cal.dom(day) == dom)
  {
    hide ParsedField, Denotes, IsWord, Digits, ParsedCron;
    NumberField(minute, 0, 59);
    NumberField(hour, 0, 23);
    NumberField(dom, 1, 31);
    StarField(1, 12);
    StarField(0, 6);
    FieldsOf(Digits(minute), Digits(hour), Digits(dom), "*", "*");
    hide Fields, Expression;
    FieldsParse(MonthlyText(dom, hour, minute));
    NotUnrestricted(Digits(dom), 1, 31, dom);
    hide MonthlyText;
  }

  lemma NotUnrestricted(field: string, lo: int, hi: int, v: int)
    requires DenotesOnly(field, lo, hi, v) && lo < hi
    ensures !Unrestricted(field, lo, hi)
  {
    hide Denotes;
    var other := if v == lo then hi else lo;
    assert !Denotes(field, lo, hi, other);
  }

  lemma WeekdayInRange(day: int)
    ensures 0 <= Weekday(day) <= 6
  {
  }

  // The modular form, the day-stepping form and the search on `m h * * d` return one instant.
  method WeeklyThreeWays(cal: Calendar, offset: int, now: int, weekday: nat, hour: nat, minute: nat)
      returns (modular: int, stepping: int, searched: NextRun)
    requires ValidCalendar(cal) && weekday <= 6 && hour <= 23 && minute <= 59
    ensures stepping == modular && searched == At(modular)
    ensures IsNextWeekly(now, offset, weekday, hour, minute, modular)
  {
    hide IsNextWeekly, IsNextRun, NoMatchInReach, ParsedCron, Fields, Denotes;
    var expr := WeeklyText(weekday, hour, minute);
    WeeklyTextParses(weekday, hour, minute);
    modular := NextWeeklyRun(now, offset, weekday, hour, minute);
    stepping := ComputeNextCalendarRun(now, offset, hour, minute, weekday);
    searched := NextCronRun(expr, cal, offset, now);
    EightDatesSuffice(expr, cal, offset, now);
    WeeklyFormsAgree(expr, cal, offset, now, weekday, hour, minute, modular, stepping, searched.time);
  }

  // The daily form, the daily form of the launchd scheduler and the search on `m h * * *` return one
  // instant.
  method DailyThreeWays(cal: Calendar, offset: int, now: int, hour: nat, minute: nat)
      returns (daily: int, stepping: int, searched: NextRun)
    requires ValidCalendar(cal) && hour <= 23 && minute <= 59
    ensures stepping == daily && searched == At(daily)
    ensures now < daily <= now + DAY && exists day :: daily == ClockTime(day, hour, minute, offset)
  {
    hide IsNextRun, NoMatchInReach, ParsedCron, Fields, Denotes;
    var expr := DailyText(hour, minute);
    DailyTextParses(hour, minute);
    daily := NextDailyRun(now, offset, hour, minute);
    stepping := ComputeNextCalendarRun(now, offset, hour, minute, -1);
    searched := NextCronRun(expr, cal, offset, now);
    EightDatesSuffice(expr, cal, offset, now);
    hide ClockTime, IsDailyExpression;
    DailyFormsAgree(expr, cal, offset, now, hour, minute, daily, stepping, searched.time);
  }

  lemma DailyFormsAgree(expr: string, cal: Calendar, offset: int, now: int, hour: nat, minute: nat,
      daily: int, stepping: int, searched: int)
    requires ValidCalendar(cal) && IsDailyExpression(expr, hour, minute)
    requires now < daily <= now + DAY && exists day :: daily == ClockTime(day, hour, minute, offset)
    requires now < stepping <= now + DAY && exists day :: stepping == ClockTime(day, hour, minute, offset)
    requires IsNextRun(expr, cal, offset, now, searched)
    ensures daily == stepping == searched
  {
    hide IsNextRun, Fields, Denotes;
    var d :| daily == ClockTime(d, hour, minute, offset);
    var e :| stepping == ClockTime(e, hour, minute, offset);
    assert d == e;
    DailyIsCron(expr, cal, offset, now, hour, minute, d);
    NextRunIsUnique(expr, cal, offset, now, daily, searched);
  }

  // ----- A yearly expression -----

  const YEARLY := "0 0 1 3 *"

  lemma YearlyFields()
    ensures Fields(YEARLY) == ["0", "0", "1", "3", "*"] && ParsedCron(YEARLY).Ok?
    ensures DenotesOnly("0", 0, 59, 0) && DenotesOnly("0", 0, 23, 0) && DenotesOnly("1", 1, 31, 1) && DenotesOnly("3", 1, 12, 3)
    ensures Unrestricted("*", 0, 6)
  {
    DigitNames();
    hide ParsedField, Denotes, DenotesOnly, Unrestricted, IsWord, Digits, ParsedCron, Fields, Expression;
    NumberField(0, 0, 59);
    NumberField(0, 0, 23);
    NumberField(1, 1, 31);
    NumberField(3, 1, 12);
    StarField(0, 6);
    FieldsOf("0", "0", "1", "3", "*");
    YearlyIsExpression();
    FieldsParse(YEARLY);
  }

  lemma DigitNames()
    ensures Digits(0) == "0" && Digits(1) == "1" && Digits(3) == "3"
  {
  }

  lemma YearlyIsExpression()
    ensures Expression("0", "0", "1", "3", "*") == YEARLY
  {
  }

  // 366 dates are one too few for a yearly expression: once the run of 1 March 2023 has passed the
  // search fails, although the run of 1 March 2024 is the next one, 366 days away.
  method YearlyRunIsMissed(now: int) returns (r: NextRun)
    requires ClockTime(MARCH_1_2023, 0, 0, 0) <= now < ClockTime(MARCH_1_2023, 0, 1, 0)
    ensures r == NoMatch
    ensures |Fields(YEARLY)| == 5
    ensures IsNextRun(YEARLY, GREGORIAN, 0, now, ClockTime(MARCH_1_2023 + 366, 0, 0, 0))
  {
    GregorianIsValid();
    YearlyFields();
    YearlyPatternIsMissed(YEARLY, now);
    hide NoMatchInReach, IsNextRun, ParsedCron, Fields;
    r := NextCronRun(YEARLY, GREGORIAN, 0, now);
  }
}
