// The parser for five-field cron expressions: fields `*`, `*/N`, and comma-separated values and
// ranges, with Go's 64-bit integers.
module CronParse {
  import opened Modular
  import opened Orders
  import opened Strings

  // 64-bit addition.
  function Plus(x: int, y: int): int {
    var sum := x + y;
    if sum > MAX_INT then sum - 0x1_0000_0000_0000_0000
    else if sum < MIN_INT then sum + 0x1_0000_0000_0000_0000
    else sum
  }

  datatype Parsed<T> = Ok(value: T) | Failed(why: Why)

  datatype Why = NotAnInteger | BadStep | OutOfBounds | WrongFieldCount

  // Decimal with an optional sign, rejecting anything a 64-bit integer cannot hold.
  function Atoi(s: string): Parsed<int> {
    var signed := s != [] && (s[0] == '-' || s[0] == '+');
    var digits := if signed then s[1..] else s;
    if digits == [] || exists c | c in digits :: !IsDigit(c) then Failed(NotAnInteger)
    else
      var n := if signed && s[0] == '-' then -Number(digits) else Number(digits);
      if MIN_INT <= n <= MAX_INT then Ok(n) else Failed(NotAnInteger)
  }

  // ----- What a field denotes -----

  datatype Bounds = Bounds(first: int, last: int)

  // A value N, or a range N-M, within the limits of the field.
  function PartBounds(part: string, lo: int, hi: int): Parsed<Bounds> {
    var dash := IndexOf(part, '-');
    if dash < |part| then
      match Atoi(part[..dash])
      case Failed(why) => Failed(why)
      case Ok(first) =>
        match Atoi(part[dash + 1..])
        case Failed(why) => Failed(why)
        case Ok(last) =>
          if first < lo || last > hi || first > last then Failed(OutOfBounds) else Ok(Bounds(first, last))
    else
      match Atoi(part)
      case Failed(why) => Failed(why)
      case Ok(n) => if n < lo || n > hi then Failed(OutOfBounds) else Ok(Bounds(n, n))
  }

  // The value is denoted by one of the parts.
  predicate PartsDenote(parts: seq<string>, lo: int, hi: int, v: int) {
    exists p | p in parts :: var b := PartBounds(TrimSpace(p), lo, hi); b.Ok? && b.value.first <= v <= b.value.last
  }

  predicate IsStepField(field: string) {
    |field| >= 2 && field[..2] == "*/"
  }

  predicate Denotes(field: string, lo: int, hi: int, v: int) {
    if field == "*" then lo <= v <= hi
    else if IsStepField(field) then
      var step := Atoi(field[2..]);
      lo <= v <= hi && step.Ok? && step.value >= 1 && (v - lo) % step.value == 0
    else PartsDenote(Split(field, ','), lo, hi, v)
  }

  // ----- What parsing a field returns -----

  predicate Increasing(vs: seq<int>) {
    forall i, j | 0 <= i < j < |vs| :: vs[i] < vs[j]
  }

  // The values of `s` within [lo, hi], in ascending order.
  function Ascending(lo: int, hi: int, s: set<int>): seq<int>
    decreases hi - lo
  {
    if lo > hi then [] else (if lo in s then [lo] else []) + Ascending(lo + 1, hi, s)
  }

  function AllValues(lo: int, hi: int): seq<int>
    decreases hi - lo
  {
    if lo > hi then [] else [lo] + AllValues(lo + 1, hi)
  }

  // The first part, in order, that does not parse.
  function PartsError(parts: seq<string>, lo: int, hi: int): Parsed<()> {
    if parts == [] then Ok(())
    else
      match PartBounds(TrimSpace(parts[0]), lo, hi)
      case Failed(why) => Failed(why)
      case Ok(_) => PartsError(parts[1..], lo, hi)
  }

  function Denoted(parts: seq<string>, lo: int, hi: int): set<int> {
    set v | lo <= v <= hi && PartsDenote(parts, lo, hi, v)
  }

  // The loop `for i := lo; i <= hi; i += step`, on 64-bit integers, for the limits cron uses.
  predicate StepReach(i: int, hi: int, step: int) {
    && hi <= 59 && 1 <= step <= MAX_INT
    && (0 <= i <= 1 || (2 <= i && step <= 59 + 59) || (step == MAX_INT && (i == MIN_INT || i == -1)) || i > hi)
  }

  function StepValues(i: int, hi: int, step: int): seq<int>
    requires StepReach(i, hi, step)
    decreases if i <= hi && i + step > MAX_INT then 1 else 0, hi - i
  {
    if i > hi then [] else [i] + StepValues(Plus(i, step), hi, step)
  }

  function ParsedField(field: string, lo: int, hi: int): Parsed<seq<int>>
    requires 0 <= lo <= 1 && hi <= 59
  {
    if field == "*" then Ok(AllValues(lo, hi))
    else if IsStepField(field) then
      var step := Atoi(field[2..]);
      if step.Failed? || step.value < 1 then Failed(BadStep) else Ok(StepValues(lo, hi, step.value))
    else
      var parts := Split(field, ',');
      match PartsError(parts, lo, hi)
      case Failed(why) => Failed(why)
      case Ok(_) => Ok(Ascending(lo, hi, Denoted(parts, lo, hi)))
  }

  // ----- Facts about ascending enumerations -----

  lemma {:induction false} AscendingExact(lo: int, hi: int, s: set<int>)
    ensures Increasing(Ascending(lo, hi, s))
    ensures forall v :: v in Ascending(lo, hi, s) <==> lo <= v <= hi && v in s
    decreases hi - lo
  {
    if lo <= hi {
      AscendingExact(lo + 1, hi, s);
      var rest := Ascending(lo + 1, hi, s);
      assert forall i | 0 <= i < |rest| :: rest[i] in rest;
    }
  }

  lemma {:induction false} AllValuesExact(lo: int, hi: int)
    ensures Increasing(AllValues(lo, hi))
    ensures forall v :: v in AllValues(lo, hi) <==> lo <= v <= hi
    decreases hi - lo
  {
    if lo <= hi {
      AllValuesExact(lo + 1, hi);
      var rest := AllValues(lo + 1, hi);
      assert forall i | 0 <= i < |rest| :: rest[i] in rest;
    }
  }

  lemma HasMember(s: seq<int>)
    ensures s != [] ==> exists v :: v in s
  {
    if s != [] {
      var v := s[0];
      assert v in s;
    }
  }

  // Increasing sequences with the same members are equal.
  lemma {:induction false} IncreasingUnique(a: seq<int>, b: seq<int>)
    requires Increasing(a) && Increasing(b) && forall v :: v in a <==> v in b
    ensures a == b
  {
    HasMember(a);
    HasMember(b);
    if a != [] {
      assert a[0] in a && a[0] in b;
      assert b[0] in b && b[0] in a;
      assert a[0] == b[0];
      forall v
        ensures v in a[1..] <==> v in b[1..]
      {
        assert v in a[1..] <==> v in a && v != a[0];
        assert v in b[1..] <==> v in b && v != b[0];
      }
      IncreasingUnique(a[1..], b[1..]);
    }
  }

  // ----- The step loop -----

  predicate OnGrid(v: int, lo: int, step: int)
    requires step > 0
  {
    (v - lo) % step == 0
  }

  // From the k-th grid value on, the loop visits every later grid value and nothing else.
  lemma {:induction false} StepValuesExact(i: int, k: nat, lo: int, hi: int, step: int)
    requires 0 <= lo <= 1 && hi <= 59 && 1 <= step && lo + step <= MAX_INT
    requires i == lo + k * step && StepReach(i, hi, step)
    ensures var vs := StepValues(i, hi, step);
            Increasing(vs) && forall v :: v in vs <==> i <= v <= hi && OnGrid(v, lo, step)
    decreases hi - i
  {
    hide OnGrid;
    if i <= hi {
      NextMultiple(k, step);
      StepValuesExact(i + step, k + 1, lo, hi, step);
      var rest := StepValues(i + step, hi, step);
      assert StepValues(i, hi, step) == [i] + rest;
      assert forall j | 0 <= j < |rest| :: rest[j] in rest;
      forall v | i <= v < i + step
        ensures OnGrid(v, lo, step) <==> v == i
      {
        OnlyGridValue(v, i, k, lo, step);
      }
    }
  }

  lemma OnlyGridValue(v: int, i: int, k: nat, lo: int, step: int)
    requires step > 0 && i == lo + k * step && i <= v < i + step
    ensures OnGrid(v, lo, step) <==> v == i
  {
    Remainder(v - lo, k, step, v - i);
  }

  lemma NextMultiple(k: nat, n: nat)
    ensures (k + 1) * n == k * n + n && (k > 0 ==> k * n >= n)
  {
  }

  // The one step for which the counter wraps around, and what the loop then collects.
  lemma StepWraps(hi: int)
    requires 1 <= hi <= 59
    ensures StepValues(1, hi, MAX_INT) == [1, MIN_INT, -1]
  {
    assert Plus(1, MAX_INT) == MIN_INT && Plus(MIN_INT, MAX_INT) == -1 && Plus(-1, MAX_INT) == MAX_INT - 1;
    assert StepValues(MAX_INT - 1, hi, MAX_INT) == [];
    assert StepValues(-1, hi, MAX_INT) == [-1];
    assert StepValues(MIN_INT, hi, MAX_INT) == [MIN_INT, -1];
  }

  // ----- Main results about fields -----

  // The guard under which the step loop's counter cannot wrap.
  predicate StepFits(field: string, lo: int) {
    IsStepField(field) ==> var step := Atoi(field[2..]); step.Ok? ==> lo + step.value <= MAX_INT
  }

  predicate WithinLimits(vs: seq<int>, lo: int, hi: int) {
    forall v | v in vs :: lo <= v <= hi
  }

  lemma {:induction false} PartsStayWithin(parts: seq<string>, lo: int, hi: int, p: string)
    requires p in parts && PartsError(parts, lo, hi).Ok?
    ensures PartBounds(TrimSpace(p), lo, hi).Ok?
  {
    if p != parts[0] {
      PartsStayWithin(parts[1..], lo, hi, p);
    }
  }

  lemma StepFieldIsExact(field: string, lo: int, hi: int)
    requires 0 <= lo <= 1 && lo <= hi <= 59 && field != "*" && IsStepField(field) && ParsedField(field, lo, hi).Ok?
    ensures var vs := ParsedField(field, lo, hi).value;
            && vs != []
            && (StepFits(field, lo) ==> Increasing(vs) && forall v :: v in vs <==> Denotes(field, lo, hi, v))
            && (!StepFits(field, lo) ==> vs == [1, MIN_INT, -1])
  {
    var step := Atoi(field[2..]).value;
    if StepFits(field, lo) {
      StepValuesExact(lo, 0, lo, hi, step);
      assert forall v | lo <= v :: OnGrid(v, lo, step) == ((v - lo) % step == 0);
    } else {
      StepWraps(hi);
    }
  }

  lemma PartsFieldIsExact(field: string, lo: int, hi: int)
    requires 0 <= lo <= 1 && lo <= hi <= 59 && field != "*" && !IsStepField(field) && ParsedField(field, lo, hi).Ok?
    ensures var vs := ParsedField(field, lo, hi).value;
            vs != [] && Increasing(vs) && forall v :: v in vs <==> Denotes(field, lo, hi, v)
  {
    var parts := Split(field, ',');
    AscendingExact(lo, hi, Denoted(parts, lo, hi));
    var p := parts[0];
    PartsStayWithin(parts, lo, hi, p);
    var b := PartBounds(TrimSpace(p), lo, hi).value;
    assert PartsDenote(parts, lo, hi, b.first);
    assert b.first in Denoted(parts, lo, hi);
    PartsWithin(parts, lo, hi);
  }

  // A field that parses yields exactly the values it denotes, in strictly ascending order, and at
  // least one -- if and only if the step fits.
  lemma FieldIsExact(field: string, lo: int, hi: int)
    requires 0 <= lo <= 1 && lo <= hi <= 59 && ParsedField(field, lo, hi).Ok?
    ensures var vs := ParsedField(field, lo, hi).value;
            && vs != []
            && ((Increasing(vs) && forall v :: v in vs <==> Denotes(field, lo, hi, v)) <==> StepFits(field, lo))
            && (WithinLimits(vs, lo, hi) <==> StepFits(field, lo))
  {
    hide ParsedField;
    var vs := ParsedField(field, lo, hi).value;
    if field == "*" {
      StarIsExact(lo, hi);
    } else if IsStepField(field) {
      StepFieldIsExact(field, lo, hi);
      if !StepFits(field, lo) {
        assert vs[0] == 1 && vs[1] == MIN_INT && vs[1] in vs;
      }
    } else {
      PartsFieldIsExact(field, lo, hi);
      PartsWithin(Split(field, ','), lo, hi);
    }
  }

  // Membership is right for every value within the limits even when the counter wraps around: the
  // surplus values are all negative.
  lemma MembersAreDenoted(field: string, lo: int, hi: int, v: int)
    requires 0 <= lo <= 1 && lo <= v <= hi <= 59 && ParsedField(field, lo, hi).Ok?
    ensures v in ParsedField(field, lo, hi).value <==> Denotes(field, lo, hi, v)
  {
    FieldIsExact(field, lo, hi);
    if !StepFits(field, lo) {
      hide ParsedField;
      StepFieldIsExact(field, lo, hi);
      SmallRemainder(v - 1, MAX_INT);
    }
  }

  lemma SmallRemainder(x: int, n: int)
    requires 0 <= x < n
    ensures x % n == x
  {
  }

  lemma StarIsExact(lo: int, hi: int)
    requires 0 <= lo <= 1 && lo <= hi <= 59
    ensures ParsedField("*", lo, hi) == Ok(AllValues(lo, hi)) && AllValues(lo, hi) != []
    ensures Increasing(AllValues(lo, hi)) && forall v :: v in AllValues(lo, hi) <==> lo <= v <= hi
  {
    AllValuesExact(lo, hi);
  }

  // The three comparisons that decide whether a field is unrestricted.
  predicate IsWildcard(values: seq<int>, lo: int, hi: int) {
    |values| == hi - lo + 1 && values != [] && values[0] == lo && values[|values| - 1] == hi
  }

  lemma {:induction false} AscentIsSteep(vs: seq<int>, i: nat)
    requires Increasing(vs) && i < |vs|
    ensures vs[i] >= vs[0] + i
  {
    if i > 0 {
      AscentIsSteep(vs, i - 1);
    }
  }

  lemma {:induction false} AscentIsSteepFromTheEnd(vs: seq<int>, i: nat)
    requires Increasing(vs) && i < |vs|
    ensures vs[|vs| - 1 - i] <= vs[|vs| - 1] - i
  {
    if i > 0 {
      AscentIsSteepFromTheEnd(vs, i - 1);
    }
  }

  // The comparisons are right for everything the parser returns: they hold exactly when the field
  // lists its whole range, so `*`, `*/1` and a range from end to end are one and the same.
  lemma WildcardIsWholeRange(field: string, lo: int, hi: int)
    requires 0 <= lo <= 1 && lo + 3 <= hi <= 59 && ParsedField(field, lo, hi).Ok?
    ensures var vs := ParsedField(field, lo, hi).value;
            IsWildcard(vs, lo, hi) <==> forall v | lo <= v <= hi :: v in vs
  {
    var vs := ParsedField(field, lo, hi).value;
    FieldIsExact(field, lo, hi);
    if StepFits(field, lo) {
      hide ParsedField, Denotes, StepFits;
      FullRange(vs, lo, hi);
    } else {
      StepFieldIsExact(field, lo, hi);
      hide ParsedField, Denotes;
      assert lo + 1 !in vs;
    }
  }

  lemma FullRange(vs: seq<int>, lo: int, hi: int)
    requires Increasing(vs) && WithinLimits(vs, lo, hi) && lo <= hi
    ensures IsWildcard(vs, lo, hi) <==> forall v | lo <= v <= hi :: v in vs
  {
    if IsWildcard(vs, lo, hi) {
      forall v | lo <= v <= hi
        ensures v in vs
      {
        AscentIsSteep(vs, v - lo);
        AscentIsSteepFromTheEnd(vs, hi - v);
        assert vs[v - lo] == v;
      }
    }
    if forall v | lo <= v <= hi :: v in vs {
      AllValuesExact(lo, hi);
      IncreasingUnique(vs, AllValues(lo, hi));
      AllValuesLength(lo, hi);
    }
  }

  lemma {:induction false} AllValuesLength(lo: int, hi: int)
    requires lo <= hi + 1
    ensures var vs := AllValues(lo, hi);
            |vs| == hi - lo + 1 && (lo <= hi ==> vs[0] == lo && vs[|vs| - 1] == hi)
    decreases hi - lo
  {
    if lo <= hi {
      AllValuesLength(lo + 1, hi);
    }
  }

  // ----- The parser itself -----

  method CronRange(lo: int, hi: int) returns (result: seq<int>)
    requires lo <= hi + 1
    ensures result == AllValues(lo, hi)
  {
    var values := new int[hi - lo + 1];
    for i := 0 to values.Length
      invariant forall k :: 0 <= k < i ==> values[k] == lo + k
    {
      values[i] := lo + i;
    }
    result := values[..];
    AllValuesExact(lo, hi);
    forall v
      ensures v in result <==> lo <= v <= hi
    {
      if lo <= v <= hi {
        assert result[v - lo] == v;
      }
    }
    IncreasingUnique(result, AllValues(lo, hi));
  }

  method ParseCronStep(stepStr: string, lo: int, hi: int) returns (r: Parsed<seq<int>>)
    requires 0 <= lo <= 1 && hi <= 59
    ensures r == var step := Atoi(stepStr);
                 if step.Failed? || step.value < 1 then Failed(BadStep) else Ok(StepValues(lo, hi, step.value))
  {
    var step := Atoi(stepStr);
    if step.Failed? || step.value < 1 {
      return Failed(BadStep);
    }
    var result := [];
    var i := lo;
    while i <= hi
      invariant StepReach(i, hi, step.value)
      invariant result + StepValues(i, hi, step.value) == StepValues(lo, hi, step.value)
      decreases if i <= hi && i + step.value > MAX_INT then 1 else 0, hi - i
    {
      assert result + ([i] + StepValues(Plus(i, step.value), hi, step.value))
        == result + [i] + StepValues(Plus(i, step.value), hi, step.value);
      result := result + [i];
      i := Plus(i, step.value);
    }
    assert result + [] == result;
    return Ok(result);
  }

  method ParseCronPart(part: string, lo: int, hi: int) returns (r: Parsed<seq<int>>)
    ensures var b := PartBounds(part, lo, hi);
            r == if b.Failed? then Failed(b.why) else Ok(AllValues(b.value.first, b.value.last))
  {
    var dash := IndexOf(part, '-');
    if dash < |part| {
      var first := Atoi(part[..dash]);
      if first.Failed? {
        return Failed(first.why);
      }
      var last := Atoi(part[dash + 1..]);
      if last.Failed? {
        return Failed(last.why);
      }
      if first.value < lo || last.value > hi || first.value > last.value {
        return Failed(OutOfBounds);
      }
      var values := CronRange(first.value, last.value);
      return Ok(values);
    }
    var n := Atoi(part);
    if n.Failed? {
      return Failed(n.why);
    }
    if n.value < lo || n.value > hi {
      return Failed(OutOfBounds);
    }
    assert AllValues(n.value + 1, n.value) == [];
    assert AllValues(n.value, n.value) == [n.value];
    return Ok([n.value]);
  }

  // The library's sort of a slice of integers.
  function Sorted(vs: seq<int>): seq<int> {
    if vs == [] then [] else Inserted(Sorted(vs[1..]), vs[0])
  }

  function Inserted(vs: seq<int>, v: int): seq<int> {
    if vs == [] || v <= vs[0] then [v] + vs else [vs[0]] + Inserted(vs[1..], v)
  }

  lemma {:induction false} InsertedKeepsOrder(vs: seq<int>, v: int)
    requires Increasing(vs) && v !in vs
    ensures Increasing(Inserted(vs, v)) && forall x :: x in Inserted(vs, v) <==> x == v || x in vs
  {
    if vs != [] && v > vs[0] {
      InsertedKeepsOrder(vs[1..], v);
      var rest := Inserted(vs[1..], v);
      assert forall i | 0 <= i < |rest| :: rest[i] in rest;
    }
  }

  lemma {:induction false} SortedIsAscending(vs: seq<int>)
    requires NoRepeats(vs)
    ensures Increasing(Sorted(vs)) && forall x :: x in Sorted(vs) <==> x in vs
  {
    if vs != [] {
      SortedIsAscending(vs[1..]);
      InsertedKeepsOrder(Sorted(vs[1..]), vs[0]);
    }
  }

  lemma DenotedSnoc(parts: seq<string>, n: nat, lo: int, hi: int, b: Bounds)
    requires n < |parts| && PartBounds(TrimSpace(parts[n]), lo, hi) == Ok(b)
    ensures forall v :: PartsDenote(parts[..n + 1], lo, hi, v) <==> PartsDenote(parts[..n], lo, hi, v) || b.first <= v <= b.last
  {
    assert parts[..n + 1] == parts[..n] + [parts[n]];
    forall v
      ensures PartsDenote(parts[..n + 1], lo, hi, v) <==> PartsDenote(parts[..n], lo, hi, v) || b.first <= v <= b.last
    {
      if b.first <= v <= b.last {
        assert parts[n] in parts[..n + 1];
      }
    }
  }

  // Appends the values that have not been seen.
  method AddUnseen(before: seq<int>, seenBefore: set<int>, values: seq<int>) returns (result: seq<int>, seen: set<int>)
    requires NoRepeats(before) && forall v :: v in seenBefore <==> v in before
    ensures NoRepeats(result) && forall v :: v in seen <==> v in result
    ensures forall v :: v in result <==> v in before || v in values
  {
    result, seen := before, seenBefore;
    hide NoRepeats;
    for k := 0 to |values|
      invariant NoRepeats(result) && forall v :: v in seen <==> v in result
      invariant forall v :: v in result <==> v in before || v in values[..k]
    {
      var v := values[k];
      assert values[..k + 1] == values[..k] + [v];
      if v !in seen {
        AppendNew(result, v);
        result := result + [v];
        seen := seen + {v};
      }
    }
    assert values[..|values|] == values;
  }

  method ParseCronParts(field: string, lo: int, hi: int) returns (r: Parsed<seq<int>>)
    ensures var parts := Split(field, ',');
            r == match PartsError(parts, lo, hi)
                 case Failed(why) => Failed(why)
                 case Ok(_) => Ok(Ascending(lo, hi, Denoted(parts, lo, hi)))
  {
    var parts := Split(field, ',');
    var result: seq<int> := [];
    var seen: set<int> := {};
    assert NoRepeats(result) && forall v :: !PartsDenote(parts[..0], lo, hi, v);
    hide NoRepeats;
    hide PartBounds;
    hide PartsDenote;
    for i := 0 to |parts|
      invariant PartsError(parts, lo, hi) == PartsError(parts[i..], lo, hi)
      invariant NoRepeats(result) && forall v :: v in seen <==> v in result
      invariant forall v :: v in result <==> PartsDenote(parts[..i], lo, hi, v)
    {
      assert parts[i..][1..] == parts[i + 1..];
      var vals := ParseCronPart(TrimSpace(parts[i]), lo, hi);
      if vals.Failed? {
        return Failed(vals.why);
      }
      ghost var b := PartBounds(TrimSpace(parts[i]), lo, hi).value;
      AllValuesExact(b.first, b.last);
      DenotedSnoc(parts, i, lo, hi, b);
      result, seen := AddUnseen(result, seen, vals.value);
    }
    assert parts[..|parts|] == parts;
    SortedIsAscent(result, parts, lo, hi);
    return Ok(Sorted(result));
  }

  lemma SortedIsAscent(result: seq<int>, parts: seq<string>, lo: int, hi: int)
    requires NoRepeats(result) && forall v :: v in result <==> PartsDenote(parts, lo, hi, v)
    ensures Sorted(result) == Ascending(lo, hi, Denoted(parts, lo, hi))
  {
    hide PartsDenote;
    PartsWithin(parts, lo, hi);
    SortedIsAscending(result);
    AscendingExact(lo, hi, Denoted(parts, lo, hi));
    IncreasingUnique(Sorted(result), Ascending(lo, hi, Denoted(parts, lo, hi)));
  }

  lemma PartsWithin(parts: seq<string>, lo: int, hi: int)
    ensures forall v :: PartsDenote(parts, lo, hi, v) <==> v in Denoted(parts, lo, hi)
  {
  }

  method ParseCronField(field: string, lo: int, hi: int) returns (r: Parsed<seq<int>>)
    requires 0 <= lo <= 1 && lo <= hi <= 59
    ensures r == ParsedField(field, lo, hi)
  {
    if field == "*" {
      var values := CronRange(lo, hi);
      return Ok(values);
    }
    if IsStepField(field) {
      r := ParseCronStep(field[2..], lo, hi);
      return;
    }
    r := ParseCronParts(field, lo, hi);
  }

  // ----- Whole expressions -----

  datatype CronFields = CronFields(minute: seq<int>, hour: seq<int>, dom: seq<int>, month: seq<int>, dow: seq<int>)

  // The maximal runs of non-space characters.
  function Fields(s: string): seq<string>
    decreases |s|
  {
    if s == [] then []
    else if IsSpace(s[0]) then Fields(s[1..])
    else
      var n := WordLength(s);
      [s[..n]] + Fields(s[n..])
  }

  function WordLength(s: string): (n: nat)
    ensures n <= |s| && (s != [] && !IsSpace(s[0]) ==> n > 0)
  {
    if s == [] || IsSpace(s[0]) then 0 else 1 + WordLength(s[1..])
  }

  function ParsedCron(expr: string): Parsed<CronFields> {
    var fields := Fields(expr);
    if |fields| != 5 then Failed(WrongFieldCount)
    else
      match ParsedField(fields[0], 0, 59)
      case Failed(why) => Failed(why)
      case Ok(minute) =>
        match ParsedField(fields[1], 0, 23)
        case Failed(why) => Failed(why)
        case Ok(hour) =>
          match ParsedField(fields[2], 1, 31)
          case Failed(why) => Failed(why)
          case Ok(dom) =>
            match ParsedField(fields[3], 1, 12)
            case Failed(why) => Failed(why)
            case Ok(month) =>
              match ParsedField(fields[4], 0, 6)
              case Failed(why) => Failed(why)
              case Ok(dow) => Ok(CronFields(minute, hour, dom, month, dow))
  }

  method ParseCron(expr: string) returns (r: Parsed<CronFields>)
    ensures r == ParsedCron(expr)
  {
    var fields := Fields(expr);
    if |fields| != 5 {
      return Failed(WrongFieldCount);
    }
    var mins := ParseCronField(fields[0], 0, 59);
    if mins.Failed? {
      return Failed(mins.why);
    }
    var hours := ParseCronField(fields[1], 0, 23);
    if hours.Failed? {
      return Failed(hours.why);
    }
    var doms := ParseCronField(fields[2], 1, 31);
    if doms.Failed? {
      return Failed(doms.why);
    }
    var months := ParseCronField(fields[3], 1, 12);
    if months.Failed? {
      return Failed(months.why);
    }
    var dows := ParseCronField(fields[4], 0, 6);
    if dows.Failed? {
      return Failed(dows.why);
    }
    return Ok(CronFields(mins.value, hours.value, doms.value, months.value, dows.value));
  }

  // What a parsed expression gives the search for the next run: hours and minutes in strictly
  // ascending order (their limits start at 0, so the step counter cannot wrap), and non-empty
  // fields throughout.
  predicate Searchable(f: CronFields) {
    && Increasing(f.minute) && f.minute != [] && WithinLimits(f.minute, 0, 59)
    && Increasing(f.hour) && f.hour != [] && WithinLimits(f.hour, 0, 23)
    && f.dom != [] && f.month != [] && f.dow != [] && WithinLimits(f.dow, 0, 6) && Increasing(f.dow)
  }

  lemma ParsedIsSearchable(expr: string)
    requires ParsedCron(expr).Ok?
    ensures Searchable(ParsedCron(expr).value)
  {
    var fields := Fields(expr);
    FieldIsExact(fields[0], 0, 59);
    FieldIsExact(fields[1], 0, 23);
    FieldIsExact(fields[2], 1, 31);
    FieldIsExact(fields[3], 1, 12);
    FieldIsExact(fields[4], 0, 6);
  }
}
