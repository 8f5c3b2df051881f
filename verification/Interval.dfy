// Session timeouts and execution limits derived from a schedule, and the ISO 8601 text in which the
// limits are handed to the operating system. Durations are in nanoseconds.
module Interval {
  import opened Decimal
  import opened Durations
  import opened Strings

  const MIN_INTERVAL := 1 * MINUTE
  const MAX_INTERVAL := 23 * HOUR
  const DEFAULT_INTERVAL := 1 * HOUR
  const EXEC_LIMIT_PCT := 80
  const MIN_EXECUTION_LIMIT := 5 * MINUTE

  // The `every` text of an interval schedule, as the library's duration parser reads it.
  datatype Every = Unset | Unreadable | Duration(ns: int)

  datatype Kind = Periodic | Daily | Weekly | Cron | Unknown

  datatype Schedule = Schedule(kind: Kind, every: Every)

  predicate IsValidEvery(every: Every) {
    every.Duration? && MIN_INTERVAL <= every.ns <= MAX_INTERVAL
  }

  function EveryDuration(spec: Schedule): int {
    if IsValidEvery(spec.every) then spec.every.ns else DEFAULT_INTERVAL
  }

  method DefaultTimeoutFor(spec: Schedule) returns (timeout: int)
    ensures timeout == SessionTimeout(spec)
  {
    match spec.kind
    case Periodic =>
      var interval := EveryDuration(spec);
      timeout := interval * 4 / 5;
      if timeout > 1 * HOUR {
        timeout := 1 * HOUR;
      }
      if timeout < 1 * MINUTE {
        timeout := 1 * MINUTE;
      }
    case _ =>
      timeout := 30 * MINUTE;
  }

  function Clamp(x: int, low: int, high: int): int
    requires low <= high
  {
    if x < low then low else if x > high then high else x
  }

  // Four fifths of the interval, between a minute and an hour.
  function SessionTimeout(spec: Schedule): int {
    if spec.kind == Periodic then Clamp(EveryDuration(spec) * 4 / 5, MINUTE, HOUR) else 30 * MINUTE
  }

  // Four fifths of the interval, but at least five minutes, but no more than the interval.
  function ExecutionLimit(spec: Schedule): int {
    match spec.kind
    case Periodic =>
      var d := EveryDuration(spec);
      var limit := d * EXEC_LIMIT_PCT / 100;
      if limit >= MIN_EXECUTION_LIMIT then limit else if MIN_EXECUTION_LIMIT > d then d else MIN_EXECUTION_LIMIT
    case Daily => 2 * HOUR
    case Weekly => 2 * HOUR
    case Cron => 2 * HOUR
    case Unknown => 1 * HOUR
  }

  method ExecutionTimeLimit(spec: Schedule) returns (text: string)
    ensures ParseDuration(text) == Seconds(ExecutionLimit(spec) / SECOND)
  {
    match spec.kind
    case Periodic =>
      var d := EveryDuration(spec);
      var limit := d * EXEC_LIMIT_PCT / 100;
      if limit < MIN_EXECUTION_LIMIT {
        limit := MIN_EXECUTION_LIMIT;
      }
      if limit > d {
        limit := d;
      }
      text := DurationToISO8601(limit);
    case Daily =>
      TextDenotes(2, 0, 0);
      return "PT2H";
    case Weekly =>
      TextDenotes(2, 0, 0);
      return "PT2H";
    case Cron =>
      TextDenotes(2, 0, 0);
      return "PT2H";
    case Unknown =>
      TextDenotes(1, 0, 0);
      return "PT1H";
  }

  // The session ends before the operating system would end it, and that happens before the next
  // run is due -- strictly before exactly when the interval is longer than five minutes. The
  // percentage is computed without overflowing a 64-bit integer.
  lemma LimitsAreNested(spec: Schedule)
    requires spec.kind == Periodic
    ensures MINUTE <= SessionTimeout(spec) <= ExecutionLimit(spec) <= EveryDuration(spec)
    ensures ExecutionLimit(spec) < EveryDuration(spec) <==> EveryDuration(spec) > 5 * MINUTE
    ensures EveryDuration(spec) * EXEC_LIMIT_PCT <= MAX_INT
  {
    var d := EveryDuration(spec);
    assert d * EXEC_LIMIT_PCT / 100 == d * 4 / 5;
  }

  // The interval that counts, in nanoseconds: the one that was set if it lies between a minute and 23
  // hours, and an hour otherwise.
  lemma IntervalInUse(spec: Schedule)
    ensures match spec.every
            case Duration(ns) =>
              EveryDuration(spec) == if 60_000_000_000 <= ns && ns <= 82_800_000_000_000 then ns else 3_600_000_000_000
            case _ => EveryDuration(spec) == 3_600_000_000_000
  {
  }

  // The session timeout in nanoseconds: four fifths of the interval, but a minute below an interval of
  // 75 seconds and an hour above one of 75 minutes; half an hour for all other schedules.
  lemma TimeoutInUse(spec: Schedule)
    ensures var d, t := EveryDuration(spec), SessionTimeout(spec);
            if spec.kind != Periodic then t == 1_800_000_000_000
            else if d < 75_000_000_000 then t == 60_000_000_000
            else if d > 4_500_000_000_000 then t == 3_600_000_000_000
            else 5 * t <= 4 * d < 5 * t + 5
  {
  }

  // The execution limit in nanoseconds: the whole interval up to five minutes, five minutes up to an
  // interval of 375 seconds, four fifths of it above; two hours for daily, weekly and cron schedules and
  // an hour for an unknown kind.
  lemma LimitInUse(spec: Schedule)
    ensures var d, limit := EveryDuration(spec), ExecutionLimit(spec);
            match spec.kind
            case Periodic =>
              if d <= 300_000_000_000 then limit == d
              else if d <= 375_000_000_000 then limit == 300_000_000_000
              else 5 * limit <= 4 * d < 5 * limit + 5
            case Unknown => limit == 3_600_000_000_000
            case _ => limit == 7_200_000_000_000
  {
  }

  // ----- ISO 8601 durations of hours, minutes and seconds -----

  datatype Reading = Seconds(n: int) | Malformed

  // A number and its designator at the front of a text.
  datatype Component = Component(n: int, rest: string) | Absent

  function ReadComponent(s: string, designator: char): Component {
    var k := DigitRun(s);
    if 0 < k < |s| && s[k] == designator then Component(Number(s[..k]), s[k + 1..]) else Absent
  }

  function RestAfter(c: Component, s: string): string {
    if c.Absent? then s else c.rest
  }

  function ValueOf(c: Component): int {
    if c.Absent? then 0 else c.n
  }

  // Section 4.4.3.2 of ISO 8601:2004, after the time designator: each component may be absent, but
  // not all of them.
  function ParseDuration(s: string): Reading {
    if |s| < 2 || s[..2] != "PT" then Malformed
    else
      var hours := ReadComponent(s[2..], 'H');
      var s1 := RestAfter(hours, s[2..]);
      var mins := ReadComponent(s1, 'M');
      var s2 := RestAfter(mins, s1);
      var secs := ReadComponent(s2, 'S');
      if RestAfter(secs, s2) != [] || (hours.Absent? && mins.Absent? && secs.Absent?) then Malformed
      else Seconds(3600 * ValueOf(hours) + 60 * ValueOf(mins) + ValueOf(secs))
  }

  // Texts that are no durations: without the prefix, without a component, without a number, and with
  // something behind the last component.
  lemma NotDurations()
    ensures ParseDuration("1H") == ParseDuration("P1H") == ParseDuration("PT") == ParseDuration("PTH") == Malformed
    ensures ParseDuration("PT1H1") == Malformed
  {
    NoneInEmpty('H');
    NoneInEmpty('M');
    NoneInEmpty('S');
    assert "PT"[2..] == "" && "PTH"[2..] == "H" && "PT1H1"[2..] == "1H1";
    assert DigitRun("H") == 0 && DigitRun("1") == 1;
    assert "1H1"[1..] == "H1" && DigitRun("H1") == 0 && DigitRun("1H1") == 1;
    var hours := ReadComponent("1H1", 'H');
    assert hours.rest == "1";
    assert ReadComponent("1", 'M') == Absent == ReadComponent("1", 'S');
  }

  // Reading the text back gives the whole seconds of the duration: never more, and less than a
  // second fewer.
  method DurationToISO8601(d: int) returns (text: string)
    ensures ParseDuration(text) == Seconds(if d <= 0 then 0 else d / SECOND)
  {
    hide ParseDuration;
    hide Digits;
    if d <= 0 {
      ZeroDenotes();
      return "PT0S";
    }
    var totalSec := d / SECOND;
    var hours := totalSec / 3600;
    var mins := (totalSec % 3600) / 60;
    var secs := totalSec % 60;
    text := "PT";
    if hours > 0 {
      text := text + (Digits(hours) + "H");
    }
    if mins > 0 {
      text := text + (Digits(mins) + "M");
    }
    if secs > 0 {
      text := text + (Digits(secs) + "S");
    }
    if hours == 0 && mins == 0 && secs == 0 {
      ZeroDenotes();
      return "PT0S";
    }
    assert text == TextOf(hours, mins, secs);
    TextDenotes(hours, mins, secs);
    assert 3600 * hours + 60 * mins + secs == totalSec;
  }

  function Part(n: nat, designator: char): string {
    if n > 0 then Digits(n) + [designator] else ""
  }

  function TextOf(hours: nat, mins: nat, secs: nat): string {
    "PT" + Part(hours, 'H') + Part(mins, 'M') + Part(secs, 'S')
  }

  lemma ReadPart(n: nat, designator: char, wanted: char, rest: string)
    requires !IsDigit(designator) && n > 0
    ensures ReadComponent(Part(n, designator) + rest, wanted)
         == if designator == wanted then Component(n, rest) else Absent
  {
    var s := Part(n, designator) + rest;
    var digits := Digits(n);
    DigitsDenote(n);
    assert s == digits + ([designator] + rest);
    RunOf(digits, [designator] + rest);
    assert s[..|digits|] == digits && s[|digits| + 1..] == rest;
  }

  // Designators come in order, so a part that was left out is not mistaken for a later one.
  lemma ReadFirst(n: nat, designator: char, rest: string)
    requires !IsDigit(designator) && (n == 0 ==> ReadComponent(rest, designator) == Absent)
    ensures var c := ReadComponent(Part(n, designator) + rest, designator);
            ValueOf(c) == n && RestAfter(c, Part(n, designator) + rest) == rest && (c.Absent? <==> n == 0)
  {
    if n == 0 {
      assert Part(n, designator) + rest == rest;
    } else {
      ReadPart(n, designator, designator, rest);
    }
  }

  lemma TextDenotes(hours: nat, mins: nat, secs: nat)
    requires hours > 0 || mins > 0 || secs > 0
    ensures ParseDuration(TextOf(hours, mins, secs)) == Seconds(3600 * hours + 60 * mins + secs)
    ensures TextOf(2, 0, 0) == "PT2H" && TextOf(1, 0, 0) == "PT1H"
  {
    hide ReadComponent;
    var s2 := Part(secs, 'S');
    var s1 := Part(mins, 'M') + s2;
    var s0 := Part(hours, 'H') + s1;
    var text := TextOf(hours, mins, secs);
    assert text == "PT" + s0;
    assert text[..2] == "PT" && text[2..] == s0;
    NoneInEmpty('H');
    NoneInEmpty('M');
    NoneInEmpty('S');
    assert s2 + "" == s2;
    if secs > 0 {
      ReadPart(secs, 'S', 'M', "");
      ReadPart(secs, 'S', 'H', "");
    }
    if mins > 0 {
      ReadPart(mins, 'M', 'H', s2);
    } else {
      assert s1 == s2;
    }
    ReadFirst(secs, 'S', "");
    ReadFirst(mins, 'M', s2);
    ReadFirst(hours, 'H', s1);
  }

  lemma NoneInEmpty(designator: char)
    ensures ReadComponent("", designator) == Absent
  {
  }

  lemma ZeroDenotes()
    ensures ParseDuration("PT0S") == Seconds(0)
  {
    var s := "0S";
    assert Digits(0) == "0";
    DigitsDenote(0);
    assert "PT0S"[..2] == "PT" && "PT0S"[2..] == s;
    RunOf("0", "S");
    assert "0" + "S" == s;
    assert s[..1] == "0";
    NoneInEmpty('S');
  }
}
