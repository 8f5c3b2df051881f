// The launch agent property list as a stream of XML tokens: what is written, what is read back, and
// that reading undoes writing however the text between the elements is indented.
module Plist {
  import opened Decimal
  import opened Strings

  // ----- Values -----

  // Weekday -1 stands for "not specified".
  datatype Calendar = Calendar(hour: int, minute: int, weekday: int)

  datatype Agent = Agent(
    jobLabel: string,
    programArguments: seq<string>,
    workingDirectory: string,
    startCalendarInterval: seq<Calendar>,
    startInterval: int,
    standardOutPath: string,
    standardErrorPath: string,
    disabled: bool)

  const ZERO := Agent("", [], "", [], 0, "", "", false)

  datatype Token = Start(name: string) | End(name: string) | Text(text: string) | Directive

  predicate IsBlank(s: string) {
    TrimSpace(s) == ""
  }

  // ----- Reading: the meaning of the decoder's loops on the tokens still to come -----

  datatype Read<T> = Got(value: T, rest: seq<Token>) | Eof | Panic

  function NextContent(toks: seq<Token>): (r: Read<Token>)
    ensures r.Got? ==> |r.rest| < |toks|
    ensures !r.Panic?
  {
    if toks == [] then Eof
    else if toks[0].Text? && IsBlank(toks[0].text) then NextContent(toks[1..])
    else Got(toks[0], toks[1..])
  }

  predicate IsMarkup(t: Token) {
    t.Start? || t.End?
  }

  // The next start or end of an element, passing over everything else.
  function NextMarkup(toks: seq<Token>): (r: Read<Token>)
    ensures r.Got? ==> |r.rest| < |toks| && IsMarkup(r.value)
    ensures !r.Panic?
  {
    if toks == [] then Eof
    else if IsMarkup(toks[0]) then Got(toks[0], toks[1..])
    else NextMarkup(toks[1..])
  }

  // Past the end of the element that is open, `depth` levels of nesting in.
  function Skip(toks: seq<Token>, depth: nat): (r: Read<()>)
    ensures r.Got? ==> |r.rest| < |toks|
    ensures !r.Panic?
    decreases |toks|
  {
    match NextMarkup(toks)
    case Got(Start(_), rest) => Skip(rest, depth + 1)
    case Got(_, rest) => if depth == 0 then Got((), rest) else Skip(rest, depth - 1)
    case _ => Eof
  }

  function ReadString(toks: seq<Token>): (r: Read<string>)
    ensures r.Got? ==> |r.rest| < |toks|
    ensures !r.Panic?
  {
    match NextContent(toks)
    case Got(Text(s), rest) => if rest == [] then Eof else Got(s, rest[1..])
    case Got(_, rest) => Got("", rest)
    case _ => Eof
  }

  function ReadInt(toks: seq<Token>): (r: Read<int>)
    ensures r.Got? ==> |r.rest| < |toks|
    ensures !r.Panic?
  {
    match NextContent(toks)
    case Got(Text(s), rest) => if rest == [] then Eof else Got(ScanInt(s), rest[1..])
    case Got(_, rest) => Got(0, rest)
    case _ => Eof
  }

  function ReadBool(toks: seq<Token>, name: string): (r: Read<bool>)
    ensures r.Got? ==> |r.rest| < |toks|
    ensures !r.Panic?
  {
    match Skip(toks, 0)
    case Got(_, rest) => Got(name == "true", rest)
    case _ => Eof
  }

  function ReadStringArray(toks: seq<Token>, result: seq<string>): (r: Read<seq<string>>)
    ensures r.Got? ==> |r.rest| < |toks|
    ensures !r.Panic?
    decreases |toks|
  {
    match NextMarkup(toks)
    case Got(End(_), rest) => Got(result, rest)
    case Got(Start(name), rest) =>
      if name == "string" then
        (match ReadString(rest)
         case Got(s, rest') => ReadStringArray(rest', result + [s])
         case _ => Eof)
      else
        (match Skip(rest, 0)
         case Got(_, rest') => ReadStringArray(rest', result)
         case _ => Eof)
    case _ => Eof
  }

  function SetField(cal: Calendar, key: string, n: int): Calendar {
    if key == "Hour" then cal.(hour := n)
    else if key == "Minute" then cal.(minute := n)
    else if key == "Weekday" then cal.(weekday := n)
    else cal
  }

  // A key that is not text makes the reader panic.
  function ReadCalendar(toks: seq<Token>, cal: Calendar): (r: Read<Calendar>)
    ensures r.Got? ==> |r.rest| < |toks|
    decreases |toks|
  {
    match NextMarkup(toks)
    case Got(End(_), rest) => Got(cal, rest)
    case Got(Start(_), rest) =>
      if rest == [] then Eof
      else if !rest[0].Text? then Panic
      else if |rest| < 2 then Eof
      else
        var key := rest[0].text;
        (match NextContent(rest[2..])
         case Got(Start(_), rest') =>
           (match NextContent(rest')
            case Got(num, rest'') =>
              if rest'' == [] then Eof
              else ReadCalendar(rest''[1..], if num.Text? then SetField(cal, key, ScanInt(num.text)) else cal)
            case _ => Eof)
         case Got(_, rest') => ReadCalendar(rest', cal)
         case _ => Eof)
    case _ => Eof
  }

  const NO_CALENDAR := Calendar(0, 0, -1)

  function ReadCalendars(toks: seq<Token>, result: seq<Calendar>): (r: Read<seq<Calendar>>)
    ensures r.Got? ==> |r.rest| < |toks|
    decreases |toks|
  {
    match NextMarkup(toks)
    case Got(End(_), rest) => Got(result, rest)
    case Got(Start(name), rest) =>
      if name == "dict" then
        (match ReadCalendar(rest, NO_CALENDAR)
         case Got(cal, rest') => ReadCalendars(rest', result + [cal])
         case Eof => Eof
         case Panic => Panic)
      else
        (match Skip(rest, 0)
         case Got(_, rest') => ReadCalendars(rest', result)
         case _ => Eof)
    case _ => Eof
  }

  function ReadCalendarArray(toks: seq<Token>, name: string): (r: Read<seq<Calendar>>)
    ensures r.Got? ==> |r.rest| < |toks|
  {
    if name == "array" then ReadCalendars(toks, [])
    else
      match ReadCalendar(toks, NO_CALENDAR)
      case Got(cal, rest) => Got([cal], rest)
      case Eof => Eof
      case Panic => Panic
  }

  function Into<T>(r: Read<T>, store: T -> Agent): (q: Read<Agent>)
    ensures q.Got? ==> r.Got? && q.rest == r.rest
  {
    match r
    case Got(v, rest) => Got(store(v), rest)
    case Eof => Eof
    case Panic => Panic
  }

  // The value of one key, read into its field.
  function ReadValue(toks: seq<Token>, name: string, key: string, p: Agent): (r: Read<Agent>)
    ensures r.Got? ==> |r.rest| < |toks|
  {
    if key == "Label" then Into(ReadString(toks), v => p.(jobLabel := v))
    else if key == "ProgramArguments" then Into(ReadStringArray(toks, []), v => p.(programArguments := v))
    else if key == "WorkingDirectory" then Into(ReadString(toks), v => p.(workingDirectory := v))
    else if key == "StartCalendarInterval" then
      Into(ReadCalendarArray(toks, name), v => p.(startCalendarInterval := v))
    else if key == "StartInterval" then Into(ReadInt(toks), v => p.(startInterval := v))
    else if key == "StandardOutPath" then Into(ReadString(toks), v => p.(standardOutPath := v))
    else if key == "StandardErrorPath" then Into(ReadString(toks), v => p.(standardErrorPath := v))
    else if key == "Disabled" then Into(ReadBool(toks, name), v => p.(disabled := v))
    else Into(Skip(toks, 0), _ => p)
  }

  function ReadDict(toks: seq<Token>, p: Agent): (r: Read<Agent>)
    ensures r.Got? ==> |r.rest| < |toks|
    decreases |toks|
  {
    match NextMarkup(toks)
    case Got(End(_), rest) => Got(p, rest)
    case Got(Start(_), rest) =>
      if rest == [] then Eof
      else if !rest[0].Text? then ReadDict(rest[1..], p)
      else if |rest| < 2 then Eof
      else
        (match NextContent(rest[2..])
         case Got(Start(name), rest') =>
           (match ReadValue(rest', name, rest[0].text, p)
            case Got(q, rest'') => ReadDict(rest'', q)
            case Eof => Eof
            case Panic => Panic)
         case Got(_, rest') => ReadDict(rest', p)
         case _ => Eof)
    case _ => Eof
  }

  // The remainder of the property list, up to its end.
  function ReadEnd(toks: seq<Token>): Read<()> {
    if toks == [] then Eof
    else if toks[0] == End("plist") then Got((), toks[1..])
    else ReadEnd(toks[1..])
  }

  function Unmarshal(toks: seq<Token>, p: Agent): Read<Agent>
    decreases |toks|
  {
    match NextMarkup(toks)
    case Got(t, rest) =>
      if t == Start("dict") then
        match ReadDict(rest, p)
        case Got(q, rest') => (match ReadEnd(rest') case Got(_, rest'') => Got(q, rest'') case _ => Eof)
        case Eof => Eof
        case Panic => Panic
      else Unmarshal(rest, p)
    case _ => Eof
  }

  // The library finds the first element and hands over what follows it.
  function Decode(toks: seq<Token>): Read<Agent> {
    if toks == [] then Eof
    else if toks[0].Start? then Unmarshal(toks[1..], ZERO)
    else Decode(toks[1..])
  }

  // What the reader makes of a document that the writer would not produce: a calendar entry without keys
  // is midnight on every day, and an unknown key is passed over with all that is nested in its value.
  lemma MissingAndUnknownKeys(key: string, a: string, b: string, text: string, rest: seq<Token>, p: Agent)
    requires key !in {"Label", "ProgramArguments", "WorkingDirectory", "StartCalendarInterval", "StartInterval",
                      "StandardOutPath", "StandardErrorPath", "Disabled"}
    ensures ReadCalendarArray([End("dict")] + rest, "dict") == Got([Calendar(0, 0, -1)], rest)
    ensures ReadDict([Start("key"), Text(key), End("key")] + ([Start(a)] + NestedValue(a, b, text, rest)), p) == ReadDict(rest, p)
  {
    assert ([End("dict")] + rest)[1..] == rest;
    SkipNested(a, b, text, rest);
    hide Skip;
    SkipsUnknown(key, a, NestedValue(a, b, text, rest), rest, p);
    hide ReadDict;
  }

  lemma SkipsUnknown(key: string, a: string, value: seq<Token>, rest: seq<Token>, p: Agent)
    requires key !in {"Label", "ProgramArguments", "WorkingDirectory", "StartCalendarInterval", "StartInterval",
                      "StandardOutPath", "StandardErrorPath", "Disabled"}
    requires Skip(value, 0) == Got((), rest)
    ensures ReadDict([Start("key"), Text(key), End("key")] + ([Start(a)] + value), p) == ReadDict(rest, p)
  {
    hide Skip;
    var toks := [Start("key"), Text(key), End("key")] + ([Start(a)] + value);
    assert toks[1..][2..] == [Start(a)] + value && toks[1..][0] == Text(key) && ([Start(a)] + value)[1..] == value;
    assert NextContent([Start(a)] + value) == Got(Start(a), value);
    assert ReadValue(value, a, key, p) == Got(p, rest);
    hide ReadValue, NextContent;
  }

  // A value with an element that holds a text and one that is empty, up to the end of the value.
  function NestedValue(a: string, b: string, text: string, rest: seq<Token>): seq<Token> {
    [Start(b)] + ([Text(text)] + ([End(b)] + ([Start(b)] + ([End(b)] + ([End(a)] + rest)))))
  }

  lemma SkipNested(a: string, b: string, text: string, rest: seq<Token>)
    ensures Skip(NestedValue(a, b, text, rest), 0) == Got((), rest)
  {
    hide Skip;
    var t5 := [End(a)] + rest;
    var t4 := [End(b)] + t5;
    var t3 := [Start(b)] + t4;
    var t2 := [End(b)] + t3;
    var t1 := [Text(text)] + t2;
    SkipOne(Start(b), t1, 0);
    SkipOne(Text(text), t2, 1);
    SkipOne(End(b), t3, 1);
    SkipOne(Start(b), t4, 0);
    SkipOne(End(b), t5, 1);
    SkipOne(End(a), rest, 0);
  }

  lemma SkipOne(tok: Token, rest: seq<Token>, depth: nat)
    ensures Skip([tok] + rest, depth) ==
      match tok
      case Start(_) => Skip(rest, depth + 1)
      case End(_) => if depth == 0 then Got((), rest) else Skip(rest, depth - 1)
      case _ => Skip(rest, depth)
  {
    assert ([tok] + rest)[1..] == rest;
  }

  // ----- Writing: groups of tokens, between which an encoder may indent -----

  function Key(key: string): seq<Token> {
    [Start("key"), Text(key), End("key")]
  }

  // An element holding a text. There is no text token for the empty text.
  function Leaf(name: string, text: string): seq<seq<Token>> {
    if text == "" then [[Start(name)], [End(name)]] else [[Start(name), Text(text), End(name)]]
  }

  function StringPair(key: string, value: string): seq<seq<Token>> {
    [Key(key)] + Leaf("string", value)
  }

  function IntPair(key: string, value: int): seq<seq<Token>> {
    [Key(key)] + Leaf("integer", FormatInt(value))
  }

  function BoolName(value: bool): string {
    if value then "true" else "false"
  }

  function BoolPair(key: string, value: bool): seq<seq<Token>> {
    [Key(key), [Start(BoolName(value))], [End(BoolName(value))]]
  }

  function Leaves(values: seq<string>): seq<seq<Token>> {
    if values == [] then [] else Leaf("string", values[0]) + Leaves(values[1..])
  }

  function StringArrayPair(key: string, values: seq<string>): seq<seq<Token>> {
    [Key(key), [Start("array")]] + (Leaves(values) + [[End("array")]])
  }

  function WeekdayPair(weekday: int): seq<seq<Token>> {
    if weekday >= 0 then IntPair("Weekday", weekday) else []
  }

  function CalendarFields(cal: Calendar): seq<seq<Token>> {
    IntPair("Hour", cal.hour) + (IntPair("Minute", cal.minute) + (WeekdayPair(cal.weekday) + [[End("dict")]]))
  }

  function CalendarDict(cal: Calendar): seq<seq<Token>> {
    [[Start("dict")]] + CalendarFields(cal)
  }

  function CalendarDicts(cals: seq<Calendar>): seq<seq<Token>> {
    if cals == [] then [] else CalendarDict(cals[0]) + CalendarDicts(cals[1..])
  }

  // One interval is written as a bare dictionary, several as an array of dictionaries.
  function CalendarValue(cals: seq<Calendar>): seq<seq<Token>> {
    if |cals| == 1 then CalendarDict(cals[0])
    else [[Start("array")]] + (CalendarDicts(cals) + [[End("array")]])
  }

  function CalendarPair(key: string, cals: seq<Calendar>): seq<seq<Token>> {
    [Key(key)] + CalendarValue(cals)
  }

  function SchedulePair(p: Agent): seq<seq<Token>> {
    if p.startInterval > 0 then IntPair("StartInterval", p.startInterval)
    else if |p.startCalendarInterval| > 0 then CalendarPair("StartCalendarInterval", p.startCalendarInterval)
    else []
  }

  function Body(p: Agent): seq<seq<Token>> {
    StringPair("Label", p.jobLabel) +
    (StringArrayPair("ProgramArguments", p.programArguments) +
     (StringPair("WorkingDirectory", p.workingDirectory) +
      (SchedulePair(p) +
       (StringPair("StandardOutPath", p.standardOutPath) +
        (StringPair("StandardErrorPath", p.standardErrorPath) +
         (BoolPair("Disabled", p.disabled) + [[End("dict")], [End("plist")]]))))))
  }

  function Marshal(p: Agent): seq<seq<Token>> {
    [[Start("plist")], [Directive], [Start("dict")]] + Body(p)
  }

  // ----- The documents, spelled out -----

  function KeyOf(name: string): seq<Token> {
    [Start("key"), Text(name), End("key")]
  }

  function Element(name: string, text: string): seq<Token> {
    [Start(name), Text(text), End(name)]
  }

  lemma IntegersAreWritten(n: int)
    ensures FormatInt(n) != ""
  {
    DigitsAreDigits(if n < 0 then -n else n);
  }

  function TextEntry(key: string, value: string): seq<seq<Token>> {
    [KeyOf(key), Element("string", value)]
  }

  function ArgumentsEntry(exe: string, arg: string): seq<seq<Token>> {
    [KeyOf("ProgramArguments"), [Start("array")], Element("string", exe), Element("string", arg), [End("array")]]
  }

  function CalendarEntry(cal: Calendar): seq<seq<Token>> {
    [KeyOf("StartCalendarInterval"), [Start("dict")],
     KeyOf("Hour"), Element("integer", FormatInt(cal.hour)), KeyOf("Minute"), Element("integer", FormatInt(cal.minute))]
    + ((if cal.weekday < 0 then [] else [KeyOf("Weekday"), Element("integer", FormatInt(cal.weekday))]) + [[End("dict")]])
  }

  function Ending(): seq<seq<Token>> {
    [KeyOf("Disabled"), [Start("false")], [End("false")], [End("dict")], [End("plist")]]
  }

  // The document of an enabled weekly or daily job: all key names, in order; the weekday is there unless
  // it is negative.
  lemma CalendarDocument(name: string, exe: string, arg: string, dir: string, cal: Calendar, out: string, err: string)
    requires name != "" && exe != "" && arg != "" && dir != "" && out != "" && err != ""
    ensures Marshal(Agent(name, [exe, arg], dir, [cal], 0, out, err, false)) ==
      [[Start("plist")], [Directive], [Start("dict")]] +
      (TextEntry("Label", name) + (ArgumentsEntry(exe, arg) + (TextEntry("WorkingDirectory", dir) + (CalendarEntry(cal) +
       (TextEntry("StandardOutPath", out) + (TextEntry("StandardErrorPath", err) + Ending()))))))
  {
    TextDocument("Label", name);
    TextDocument("WorkingDirectory", dir);
    TextDocument("StandardOutPath", out);
    TextDocument("StandardErrorPath", err);
    ArgumentsDocument(exe, arg);
    CalendarDocumentPart(cal, Agent(name, [exe, arg], dir, [cal], 0, out, err, false));
    EndingDocument();
    hide *;
    MarshalIs(Agent(name, [exe, arg], dir, [cal], 0, out, err, false));
  }

  lemma MarshalIs(p: Agent)
    ensures Marshal(p) ==
      [[Start("plist")], [Directive], [Start("dict")]] +
      (StringPair("Label", p.jobLabel) + (StringArrayPair("ProgramArguments", p.programArguments) +
       (StringPair("WorkingDirectory", p.workingDirectory) + (SchedulePair(p) +
        (StringPair("StandardOutPath", p.standardOutPath) + (StringPair("StandardErrorPath", p.standardErrorPath) +
         (BoolPair("Disabled", p.disabled) + [[End("dict")], [End("plist")]])))))))
  {
    hide StringPair, StringArrayPair, SchedulePair, BoolPair;
  }

  lemma TextDocument(key: string, value: string)
    requires value != ""
    ensures StringPair(key, value) == TextEntry(key, value)
  {
  }

  lemma EndingDocument()
    ensures BoolPair("Disabled", false) + [[End("dict")], [End("plist")]] == Ending()
  {
  }

  lemma ArgumentsDocument(exe: string, arg: string)
    requires exe != "" && arg != ""
    ensures StringArrayPair("ProgramArguments", [exe, arg]) == ArgumentsEntry(exe, arg)
  {
    assert [exe, arg][1..] == [arg] && [arg][1..] == [];
    assert Leaves([arg]) == [Element("string", arg)];
    assert Leaves([exe, arg]) == [Element("string", exe), Element("string", arg)];
  }

  lemma CalendarDocumentPart(cal: Calendar, p: Agent)
    requires p.startInterval == 0 && p.startCalendarInterval == [cal]
    ensures SchedulePair(p) == CalendarEntry(cal)
  {
    IntegersAreWritten(cal.hour);
    IntegersAreWritten(cal.minute);
    IntegersAreWritten(cal.weekday);
    hide FormatInt;
  }

  // Several calendar entries are written as an array of dictionaries.
  lemma CalendarsDocument(a: Calendar, b: Calendar)
    requires a.weekday < 0 && b.weekday < 0
    ensures CalendarPair("StartCalendarInterval", [a, b])
         == [KeyOf("StartCalendarInterval")] + ([[Start("array")]] + ((DailyDict(a) + DailyDict(b)) + [[End("array")]]))
  {
    DailyDictDocument(a);
    DailyDictDocument(b);
    hide CalendarDict, DailyDict;
    assert [a, b][1..] == [b] && [b][1..] == [];
    assert CalendarDicts([b]) == CalendarDict(b);
    assert CalendarDicts([a, b]) == CalendarDict(a) + CalendarDict(b);
  }

  function DailyDict(cal: Calendar): seq<seq<Token>> {
    [[Start("dict")], KeyOf("Hour"), Element("integer", FormatInt(cal.hour)),
     KeyOf("Minute"), Element("integer", FormatInt(cal.minute)), [End("dict")]]
  }

  lemma DailyDictDocument(cal: Calendar)
    requires cal.weekday < 0
    ensures CalendarDict(cal) == DailyDict(cal)
  {
    IntegersAreWritten(cal.hour);
    IntegersAreWritten(cal.minute);
    hide FormatInt;
  }

  // The document of a disabled interval job, with empty texts; the calendar is left out.
  lemma IntervalDocument(interval: int, cals: seq<Calendar>)
    requires interval > 0
    ensures Marshal(Agent("", [], "", cals, interval, "", "", true)) ==
      [ [Start("plist")], [Directive], [Start("dict")],
        KeyOf("Label"), [Start("string")], [End("string")],
        KeyOf("ProgramArguments"), [Start("array")], [End("array")],
        KeyOf("WorkingDirectory"), [Start("string")], [End("string")],
        KeyOf("StartInterval"), Element("integer", FormatInt(interval)),
        KeyOf("StandardOutPath"), [Start("string")], [End("string")],
        KeyOf("StandardErrorPath"), [Start("string")], [End("string")],
        KeyOf("Disabled"), [Start("true")], [End("true")],
        [End("dict")], [End("plist")] ]
  {
    IntegersAreWritten(interval);
    hide FormatInt;
  }

  // The groups with `gaps(i)`, `gaps(i + 1)`, ... before, between and after them.
  function Spread(groups: seq<seq<Token>>, gaps: nat -> seq<Token>, i: nat): seq<Token> {
    if groups == [] then gaps(i) else gaps(i) + (groups[0] + Spread(groups[1..], gaps, i + 1))
  }

  predicate IsGap(toks: seq<Token>) {
    forall t | t in toks :: t.Text? && IsBlank(t.text)
  }

  ghost predicate AreGaps(gaps: nat -> seq<Token>) {
    forall i: nat :: IsGap(gaps(i))
  }

  // ----- What survives -----

  function NormalText(s: string): string {
    if IsBlank(s) then "" else s
  }

  function NormalTexts(values: seq<string>): seq<string> {
    if values == [] then [] else [NormalText(values[0])] + NormalTexts(values[1..])
  }

  function NormalCalendar(cal: Calendar): Calendar {
    if cal.weekday >= 0 then cal else cal.(weekday := -1)
  }

  function NormalCalendars(cals: seq<Calendar>): seq<Calendar> {
    if cals == [] then [] else [NormalCalendar(cals[0])] + NormalCalendars(cals[1..])
  }

  function Normal(p: Agent): Agent {
    Agent(
      NormalText(p.jobLabel),
      NormalTexts(p.programArguments),
      NormalText(p.workingDirectory),
      if p.startInterval > 0 then [] else NormalCalendars(p.startCalendarInterval),
      if p.startInterval > 0 then p.startInterval else 0,
      NormalText(p.standardOutPath),
      NormalText(p.standardErrorPath),
      p.disabled)
  }

  predicate Is64Bit(n: int) {
    MIN_INT <= n <= MAX_INT
  }

  // The integer fields are machine integers.
  predicate FitsFields(p: Agent) {
    && Is64Bit(p.startInterval)
    && forall c | c in p.startCalendarInterval :: Is64Bit(c.hour) && Is64Bit(c.minute) && Is64Bit(c.weekday)
  }

  // ----- One group at a time -----

  lemma SpreadCons(group: seq<Token>, more: seq<seq<Token>>, gaps: nat -> seq<Token>, i: nat)
    ensures Spread([group] + more, gaps, i) == gaps(i) + (group + Spread(more, gaps, i + 1))
  {
    assert ([group] + more)[1..] == more;
  }

  lemma {:induction false} GapContent(gap: seq<Token>, rest: seq<Token>)
    requires IsGap(gap)
    ensures NextContent(gap + rest) == NextContent(rest)
  {
    if gap == [] {
      assert gap + rest == rest;
    } else {
      assert gap[0] in gap;
      assert (gap + rest)[1..] == gap[1..] + rest;
      GapContent(gap[1..], rest);
    }
  }

  lemma {:induction false} GapMarkup(gap: seq<Token>, rest: seq<Token>)
    requires IsGap(gap)
    ensures NextMarkup(gap + rest) == NextMarkup(rest)
  {
    if gap == [] {
      assert gap + rest == rest;
    } else {
      assert gap[0] in gap;
      assert (gap + rest)[1..] == gap[1..] + rest;
      GapMarkup(gap[1..], rest);
    }
  }

  // Both scanners pass over the gap and stop at the group.
  lemma AtGroup(group: seq<Token>, more: seq<seq<Token>>, gaps: nat -> seq<Token>, i: nat)
    requires AreGaps(gaps) && group != [] && IsMarkup(group[0])
    ensures NextContent(Spread([group] + more, gaps, i)) == Got(group[0], group[1..] + Spread(more, gaps, i + 1))
    ensures NextMarkup(Spread([group] + more, gaps, i)) == Got(group[0], group[1..] + Spread(more, gaps, i + 1))
  {
    var rest := group + Spread(more, gaps, i + 1);
    SpreadCons(group, more, gaps, i);
    GapContent(gaps(i), rest);
    GapMarkup(gaps(i), rest);
    assert rest[1..] == group[1..] + Spread(more, gaps, i + 1);
  }

  lemma AtTag(tag: Token, more: seq<seq<Token>>, gaps: nat -> seq<Token>, i: nat)
    requires AreGaps(gaps) && IsMarkup(tag)
    ensures NextContent(Spread([[tag]] + more, gaps, i)) == Got(tag, Spread(more, gaps, i + 1))
    ensures NextMarkup(Spread([[tag]] + more, gaps, i)) == Got(tag, Spread(more, gaps, i + 1))
  {
    AtGroup([tag], more, gaps, i);
    assert [tag][1..] + Spread(more, gaps, i + 1) == Spread(more, gaps, i + 1);
  }

  // A key: its start, its text, its end, and then whatever follows.
  lemma AtKey(key: string, more: seq<seq<Token>>, gaps: nat -> seq<Token>, i: nat)
    requires AreGaps(gaps)
    ensures var r := NextMarkup(Spread([Key(key)] + more, gaps, i));
            && r.Got? && r.value == Start("key") && |r.rest| >= 2
            && r.rest[0] == Text(key) && r.rest[2..] == Spread(more, gaps, i + 1)
  {
    AtGroup(Key(key), more, gaps, i);
  }

  // ----- Leaves -----

  // A text element, once its start has been read.
  lemma AtLeaf(name: string, text: string, more: seq<seq<Token>>, gaps: nat -> seq<Token>, i: nat)
    requires AreGaps(gaps)
    ensures var r := NextContent(Spread(Leaf(name, text) + more, gaps, i));
            && r == NextMarkup(Spread(Leaf(name, text) + more, gaps, i))
            && r.Got? && r.value == Start(name)
            && ReadString(r.rest) == Got(NormalText(text), Spread(more, gaps, i + |Leaf(name, text)|))
  {
    if text == "" {
      assert Leaf(name, text) + more == [[Start(name)]] + ([[End(name)]] + more);
      AtGroup([Start(name)], [[End(name)]] + more, gaps, i);
      var rest := Spread([[End(name)]] + more, gaps, i + 1);
      assert [Start(name)][1..] + rest == rest;
      AtTag(End(name), more, gaps, i + 1);
    } else {
      AtGroup([Start(name), Text(text), End(name)], more, gaps, i);
      var tail := Spread(more, gaps, i + 1);
      var rest := [Start(name), Text(text), End(name)][1..] + tail;
      assert rest[1..][1..] == tail && rest[1..][0] == End(name);
      assert rest[0] == Text(text);
      if IsBlank(text) {
        assert NextContent(rest) == NextContent(rest[1..]);
      }
    }
  }

  // An integer element, likewise; both readers of integers see the same text.
  lemma AtInteger(n: int, more: seq<seq<Token>>, gaps: nat -> seq<Token>, i: nat)
    requires AreGaps(gaps) && Is64Bit(n)
    ensures |Leaf("integer", FormatInt(n))| == 1
    ensures var r := NextContent(Spread(Leaf("integer", FormatInt(n)) + more, gaps, i));
            && r.Got? && r.value == Start("integer")
            && ReadInt(r.rest) == Got(n, Spread(more, gaps, i + 1))
            && NextContent(r.rest) == Got(Text(FormatInt(n)), [End("integer")] + Spread(more, gaps, i + 1))
            && ScanInt(FormatInt(n)) == n
  {
    var text := FormatInt(n);
    ScanFormatted(n);
    NotBlank(text);
    hide FormatInt, ScanInt, IsBlank;
    AtGroup([Start("integer"), Text(text), End("integer")], more, gaps, i);
    hide Spread;
    var tail := Spread(more, gaps, i + 1);
    assert [Start("integer"), Text(text), End("integer")][1..] + tail == [Text(text), End("integer")] + tail;
    InInteger(n, tail);
    hide NextContent, ReadInt;
  }

  // The same behind the start of the element.
  lemma InInteger(n: int, tail: seq<Token>)
    requires ScanInt(FormatInt(n)) == n && !IsBlank(FormatInt(n))
    ensures ReadInt([Text(FormatInt(n)), End("integer")] + tail) == Got(n, tail)
    ensures NextContent([Text(FormatInt(n)), End("integer")] + tail) == Got(Text(FormatInt(n)), [End("integer")] + tail)
  {
    hide FormatInt, ScanInt, IsBlank;
    var rest := [Text(FormatInt(n)), End("integer")] + tail;
    assert rest[1..] == [End("integer")] + tail && rest[1..][1..] == tail && rest[0] == Text(FormatInt(n));
  }

  lemma NotBlank(s: string)
    requires s != [] && !IsSpace(s[0])
    ensures !IsBlank(s)
    decreases |s|
  {
    if IsSpace(s[|s| - 1]) {
      NotBlank(s[..|s| - 1]);
    }
  }

  // ----- Arrays -----

  lemma AtStringElement(v: string, result: seq<string>, more: seq<seq<Token>>, gaps: nat -> seq<Token>, i: nat)
    requires AreGaps(gaps)
    ensures ReadStringArray(Spread(Leaf("string", v) + more, gaps, i), result)
         == ReadStringArray(Spread(more, gaps, i + |Leaf("string", v)|), result + [NormalText(v)])
  {
    AtLeaf("string", v, more, gaps, i);
    hide Leaf;
    hide Spread;
    hide ReadString;
    hide NextContent;
    hide NormalText;
  }

  lemma AtStringsEnd(result: seq<string>, more: seq<seq<Token>>, gaps: nat -> seq<Token>, i: nat)
    requires AreGaps(gaps)
    ensures ReadStringArray(Spread([[End("array")]] + more, gaps, i), result) == Got(result, Spread(more, gaps, i + 1))
  {
    AtTag(End("array"), more, gaps, i);
  }

  lemma {:induction false} AtLeaves(values: seq<string>, result: seq<string>, more: seq<seq<Token>>,
      gaps: nat -> seq<Token>, i: nat)
    requires AreGaps(gaps)
    ensures ReadStringArray(Spread(Leaves(values) + ([[End("array")]] + more), gaps, i), result)
         == Got(result + NormalTexts(values), Spread(more, gaps, i + |Leaves(values)| + 1))
    decreases |values|
  {
    hide ReadStringArray;
    hide Spread;
    hide Leaf;
    hide NormalText;
    if values == [] {
      assert Leaves(values) + ([[End("array")]] + more) == [[End("array")]] + more;
      AtStringsEnd(result, more, gaps, i);
      assert result + [] == result;
    } else {
      var first := Leaf("string", values[0]);
      var others := Leaves(values[1..]) + ([[End("array")]] + more);
      assert Leaves(values) + ([[End("array")]] + more) == first + others;
      AtStringElement(values[0], result, others, gaps, i);
      AtLeaves(values[1..], result + [NormalText(values[0])], more, gaps, i + |first|);
      assert result + [NormalText(values[0])] + NormalTexts(values[1..]) == result + NormalTexts(values);
    }
  }

  // One integer entry of a calendar dictionary.
  lemma AtCalendarField(key: string, n: int, cal: Calendar, more: seq<seq<Token>>, gaps: nat -> seq<Token>, i: nat)
    requires AreGaps(gaps) && Is64Bit(n)
    ensures ReadCalendar(Spread(IntPair(key, n) + more, gaps, i), cal)
         == ReadCalendar(Spread(more, gaps, i + 2), SetField(cal, key, n))
  {
    var leaf := Leaf("integer", FormatInt(n));
    assert IntPair(key, n) + more == [Key(key)] + (leaf + more);
    AtKey(key, leaf + more, gaps, i);
    AtInteger(n, more, gaps, i + 1);
    var tail := Spread(more, gaps, i + 2);
    assert ([End("integer")] + tail)[1..] == tail;
  }

  lemma AtCalendarEnd(cal: Calendar, more: seq<seq<Token>>, gaps: nat -> seq<Token>, i: nat)
    requires AreGaps(gaps)
    ensures ReadCalendar(Spread([[End("dict")]] + more, gaps, i), cal) == Got(cal, Spread(more, gaps, i + 1))
  {
    AtTag(End("dict"), more, gaps, i);
  }

  // The entries of a dictionary, whose weekday may have been left out.
  lemma AtCalendarFields(cal: Calendar, more: seq<seq<Token>>, gaps: nat -> seq<Token>, i: nat)
    requires AreGaps(gaps) && Is64Bit(cal.hour) && Is64Bit(cal.minute) && Is64Bit(cal.weekday)
    ensures ReadCalendar(Spread(CalendarFields(cal) + more, gaps, i), NO_CALENDAR)
         == Got(NormalCalendar(cal), Spread(more, gaps, i + |CalendarFields(cal)|))
  {
    hide ReadCalendar;
    hide IntPair;
    hide Spread;
    var g4 := [[End("dict")]] + more;
    var g3 := WeekdayPair(cal.weekday) + g4;
    var g2 := IntPair("Minute", cal.minute) + g3;
    assert CalendarFields(cal) + more == IntPair("Hour", cal.hour) + g2;
    IntPairLength("Hour", cal.hour);
    IntPairLength("Minute", cal.minute);
    IntPairLength("Weekday", cal.weekday);
    AtCalendarField("Hour", cal.hour, NO_CALENDAR, g2, gaps, i);
    var c1 := Calendar(cal.hour, 0, -1);
    AtCalendarField("Minute", cal.minute, c1, g3, gaps, i + 2);
    var c2 := Calendar(cal.hour, cal.minute, -1);
    if cal.weekday >= 0 {
      AtCalendarField("Weekday", cal.weekday, c2, g4, gaps, i + 4);
      AtCalendarEnd(cal, more, gaps, i + 6);
    } else {
      assert g3 == g4;
      AtCalendarEnd(c2, more, gaps, i + 4);
    }
  }

  lemma IntPairLength(key: string, n: int)
    ensures |IntPair(key, n)| == 2
  {
    DigitsAreDigits(if n < 0 then -n else n);
  }

  // A whole dictionary, from its start.
  lemma AtCalendarDict(cal: Calendar, more: seq<seq<Token>>, gaps: nat -> seq<Token>, i: nat)
    requires AreGaps(gaps) && Is64Bit(cal.hour) && Is64Bit(cal.minute) && Is64Bit(cal.weekday)
    ensures var groups := CalendarDict(cal) + more;
            var r := NextMarkup(Spread(groups, gaps, i));
            && r == NextContent(Spread(groups, gaps, i))
            && r.Got? && r.value == Start("dict")
            && ReadCalendar(r.rest, NO_CALENDAR) == Got(NormalCalendar(cal), Spread(more, gaps, i + |CalendarDict(cal)|))
  {
    hide ReadCalendar;
    hide CalendarFields;
    hide Spread;
    assert CalendarDict(cal) + more == [[Start("dict")]] + (CalendarFields(cal) + more);
    AtTag(Start("dict"), CalendarFields(cal) + more, gaps, i);
    AtCalendarFields(cal, more, gaps, i + 1);
  }

  lemma AtCalendarElement(cal: Calendar, result: seq<Calendar>, more: seq<seq<Token>>, gaps: nat -> seq<Token>, i: nat)
    requires AreGaps(gaps) && Is64Bit(cal.hour) && Is64Bit(cal.minute) && Is64Bit(cal.weekday)
    ensures ReadCalendars(Spread(CalendarDict(cal) + more, gaps, i), result)
         == ReadCalendars(Spread(more, gaps, i + |CalendarDict(cal)|), result + [NormalCalendar(cal)])
  {
    AtCalendarDict(cal, more, gaps, i);
    hide CalendarDict;
    hide Spread;
    hide ReadCalendar;
    hide NextContent;
    hide NormalCalendar;
  }

  predicate CalendarsFit(cals: seq<Calendar>) {
    forall c | c in cals :: Is64Bit(c.hour) && Is64Bit(c.minute) && Is64Bit(c.weekday)
  }

  lemma AtCalendarsEnd(result: seq<Calendar>, more: seq<seq<Token>>, gaps: nat -> seq<Token>, i: nat)
    requires AreGaps(gaps)
    ensures ReadCalendars(Spread([[End("array")]] + more, gaps, i), result) == Got(result, Spread(more, gaps, i + 1))
  {
    AtTag(End("array"), more, gaps, i);
  }

  lemma {:induction false} AtCalendarDicts(cals: seq<Calendar>, result: seq<Calendar>, more: seq<seq<Token>>,
      gaps: nat -> seq<Token>, i: nat)
    requires AreGaps(gaps) && CalendarsFit(cals)
    ensures ReadCalendars(Spread(CalendarDicts(cals) + ([[End("array")]] + more), gaps, i), result)
         == Got(result + NormalCalendars(cals), Spread(more, gaps, i + |CalendarDicts(cals)| + 1))
    decreases |cals|
  {
    hide CalendarDict;
    hide ReadCalendars;
    hide Spread;
    hide NormalCalendar;
    if cals == [] {
      assert CalendarDicts(cals) + ([[End("array")]] + more) == [[End("array")]] + more;
      AtCalendarsEnd(result, more, gaps, i);
      assert result + [] == result;
    } else {
      var first := CalendarDict(cals[0]);
      var others := CalendarDicts(cals[1..]) + ([[End("array")]] + more);
      assert CalendarDicts(cals) + ([[End("array")]] + more) == first + others;
      assert cals[0] in cals;
      AtCalendarElement(cals[0], result, others, gaps, i);
      AtCalendarDicts(cals[1..], result + [NormalCalendar(cals[0])], more, gaps, i + |first|);
      assert result + [NormalCalendar(cals[0])] + NormalCalendars(cals[1..]) == result + NormalCalendars(cals);
    }
  }

  // ----- Entries of the outer dictionary -----

  predicate IsStringKey(key: string) {
    key == "Label" || key == "WorkingDirectory" || key == "StandardOutPath" || key == "StandardErrorPath"
  }

  function SetString(p: Agent, key: string, v: string): Agent
    requires IsStringKey(key)
  {
    if key == "Label" then p.(jobLabel := v)
    else if key == "WorkingDirectory" then p.(workingDirectory := v)
    else if key == "StandardOutPath" then p.(standardOutPath := v)
    else p.(standardErrorPath := v)
  }

  // The dictionary loop, at a key: it reads the value and goes on.
  lemma AtEntry(key: string, p: Agent, more: seq<seq<Token>>, gaps: nat -> seq<Token>, i: nat)
    requires AreGaps(gaps)
    requires NextContent(Spread(more, gaps, i + 1)).Got? && NextContent(Spread(more, gaps, i + 1)).value.Start?
    ensures var start := NextContent(Spread(more, gaps, i + 1));
            var v := ReadValue(start.rest, start.value.name, key, p);
            v.Got? ==> ReadDict(Spread([Key(key)] + more, gaps, i), p) == ReadDict(v.rest, v.value)
  {
    hide ReadValue;
    AtKey(key, more, gaps, i);
  }

  lemma ReadStringValue(toks: seq<Token>, name: string, key: string, p: Agent)
    requires IsStringKey(key)
    ensures ReadString(toks).Got? ==>
      ReadValue(toks, name, key, p) == Got(SetString(p, key, ReadString(toks).value), ReadString(toks).rest)
  {
  }

  lemma AtStringEntry(key: string, v: string, p: Agent, more: seq<seq<Token>>, gaps: nat -> seq<Token>, i: nat)
    requires AreGaps(gaps) && IsStringKey(key)
    ensures ReadDict(Spread(StringPair(key, v) + more, gaps, i), p)
         == ReadDict(Spread(more, gaps, i + |StringPair(key, v)|), SetString(p, key, NormalText(v)))
  {
    hide ReadDict;
    hide ReadValue;
    hide Spread;
    hide NextContent;
    hide NextMarkup;
    hide Leaf;
    hide ReadString;
    hide SetString;
    hide Key;
    hide IsStringKey;
    var leaf := Leaf("string", v);
    assert StringPair(key, v) + more == [Key(key)] + (leaf + more);
    AtLeaf("string", v, more, gaps, i + 1);
    AtEntry(key, p, leaf + more, gaps, i);
    var start := NextContent(Spread(leaf + more, gaps, i + 1));
    ReadStringValue(start.rest, start.value.name, key, p);
  }

  lemma AtArgumentsEntry(vs: seq<string>, p: Agent, more: seq<seq<Token>>, gaps: nat -> seq<Token>, i: nat)
    requires AreGaps(gaps)
    ensures ReadDict(Spread(StringArrayPair("ProgramArguments", vs) + more, gaps, i), p)
         == ReadDict(Spread(more, gaps, i + |StringArrayPair("ProgramArguments", vs)|), p.(programArguments := NormalTexts(vs)))
  {
    hide ReadStringArray;
    hide ReadDict;
    hide Spread;
    hide NextContent;
    hide Key;
    hide Leaves;
    hide NormalTexts;
    var tail := Leaves(vs) + ([[End("array")]] + more);
    var pair := StringArrayPair("ProgramArguments", vs);
    assert pair + more == [Key("ProgramArguments")] + ([[Start("array")]] + tail);
    AtTag(Start("array"), tail, gaps, i + 1);
    AtEntry("ProgramArguments", p, [[Start("array")]] + tail, gaps, i);
    AtLeaves(vs, [], more, gaps, i + 2);
    assert [] + NormalTexts(vs) == NormalTexts(vs);
    assert |pair| == 2 + |Leaves(vs)| + 1;
  }

  lemma ReadIntervalValue(toks: seq<Token>, name: string, p: Agent)
    ensures ReadInt(toks).Got? ==>
      ReadValue(toks, name, "StartInterval", p) == Got(p.(startInterval := ReadInt(toks).value), ReadInt(toks).rest)
  {
  }

  lemma AtIntervalEntry(n: int, p: Agent, more: seq<seq<Token>>, gaps: nat -> seq<Token>, i: nat)
    requires AreGaps(gaps) && Is64Bit(n)
    ensures ReadDict(Spread(IntPair("StartInterval", n) + more, gaps, i), p)
         == ReadDict(Spread(more, gaps, i + |IntPair("StartInterval", n)|), p.(startInterval := n))
  {
    hide ReadDict;
    hide ReadValue;
    hide Spread;
    hide NextContent;
    hide NextMarkup;
    hide Leaf;
    hide ReadInt;
    hide FormatInt;
    hide ScanInt;
    hide Key;
    var leaf := Leaf("integer", FormatInt(n));
    assert IntPair("StartInterval", n) + more == [Key("StartInterval")] + (leaf + more);
    AtInteger(n, more, gaps, i + 1);
    AtEntry("StartInterval", p, leaf + more, gaps, i);
    var start := NextContent(Spread(leaf + more, gaps, i + 1));
    ReadIntervalValue(start.rest, start.value.name, p);
  }

  lemma ReadCalendarValue(toks: seq<Token>, name: string, p: Agent)
    ensures ReadCalendarArray(toks, name).Got? ==>
      ReadValue(toks, name, "StartCalendarInterval", p)
      == Got(p.(startCalendarInterval := ReadCalendarArray(toks, name).value), ReadCalendarArray(toks, name).rest)
  {
  }

  lemma OneCalendar(cals: seq<Calendar>)
    ensures |cals| == 1 ==> NormalCalendars(cals) == [NormalCalendar(cals[0])]
  {
  }

  // The value of the entry: one bare dictionary, or an array of them.
  lemma AtCalendarValue(cals: seq<Calendar>, more: seq<seq<Token>>, gaps: nat -> seq<Token>, i: nat)
    requires AreGaps(gaps) && CalendarsFit(cals) && cals != []
    ensures var r := NextContent(Spread(CalendarValue(cals) + more, gaps, i));
            && r.Got? && r.value.Start?
            && ReadCalendarArray(r.rest, r.value.name)
               == Got(NormalCalendars(cals), Spread(more, gaps, i + |CalendarValue(cals)|))
  {
    hide ReadCalendars;
    hide ReadCalendar;
    hide CalendarDict;
    hide CalendarDicts;
    hide Spread;
    hide NextContent;
    hide NextMarkup;
    OneCalendar(cals);
    hide NormalCalendars, NormalCalendar;
    if |cals| == 1 {
      assert cals[0] in cals;
      AtCalendarDict(cals[0], more, gaps, i);
    } else {
      var tail := CalendarDicts(cals) + ([[End("array")]] + more);
      assert CalendarValue(cals) + more == [[Start("array")]] + tail;
      AtTag(Start("array"), tail, gaps, i);
      AtCalendarDicts(cals, [], more, gaps, i + 1);
      assert [] + NormalCalendars(cals) == NormalCalendars(cals);
    }
  }

  lemma AtCalendarEntry(cals: seq<Calendar>, p: Agent, more: seq<seq<Token>>, gaps: nat -> seq<Token>, i: nat)
    requires AreGaps(gaps) && CalendarsFit(cals) && cals != []
    ensures ReadDict(Spread(CalendarPair("StartCalendarInterval", cals) + more, gaps, i), p)
         == ReadDict(Spread(more, gaps, i + |CalendarPair("StartCalendarInterval", cals)|),
                     p.(startCalendarInterval := NormalCalendars(cals)))
  {
    hide ReadDict;
    hide ReadValue;
    hide ReadCalendarArray;
    hide CalendarValue;
    hide Spread;
    hide NextContent;
    hide Key;
    hide NormalCalendars;
    var key := "StartCalendarInterval";
    var value := CalendarValue(cals);
    assert CalendarPair(key, cals) + more == [Key(key)] + (value + more);
    AtCalendarValue(cals, more, gaps, i + 1);
    AtEntry(key, p, value + more, gaps, i);
    var start := NextContent(Spread(value + more, gaps, i + 1));
    ReadCalendarValue(start.rest, start.value.name, p);
  }

  lemma AtDisabledEntry(b: bool, p: Agent, more: seq<seq<Token>>, gaps: nat -> seq<Token>, i: nat)
    requires AreGaps(gaps)
    ensures ReadDict(Spread(BoolPair("Disabled", b) + more, gaps, i), p)
         == ReadDict(Spread(more, gaps, i + 3), p.(disabled := b))
  {
    hide ReadDict;
    hide Spread;
    hide NextContent;
    hide Key;
    var name := BoolName(b);
    var tail := [[End(name)]] + more;
    assert BoolPair("Disabled", b) + more == [Key("Disabled")] + ([[Start(name)]] + tail);
    AtTag(Start(name), tail, gaps, i + 1);
    AtEntry("Disabled", p, [[Start(name)]] + tail, gaps, i);
    AtTag(End(name), more, gaps, i + 2);
  }

  lemma AtScheduleEntry(p: Agent, q: Agent, more: seq<seq<Token>>, gaps: nat -> seq<Token>, i: nat)
    requires AreGaps(gaps) && FitsFields(p) && q.startInterval == 0 && q.startCalendarInterval == []
    ensures ReadDict(Spread(SchedulePair(p) + more, gaps, i), q)
         == ReadDict(Spread(more, gaps, i + |SchedulePair(p)|),
                     q.(startInterval := Normal(p).startInterval, startCalendarInterval := Normal(p).startCalendarInterval))
  {
    hide ReadDict;
    hide IntPair;
    hide CalendarPair;
    if p.startInterval > 0 {
      AtIntervalEntry(p.startInterval, q, more, gaps, i);
    } else if |p.startCalendarInterval| > 0 {
      AtCalendarEntry(p.startCalendarInterval, q, more, gaps, i);
    } else {
      assert SchedulePair(p) + more == more;
    }
  }

  lemma AtBody(p: Agent, gaps: nat -> seq<Token>, i: nat) returns (end: nat)
    requires AreGaps(gaps) && FitsFields(p)
    ensures ReadDict(Spread(Body(p), gaps, i), ZERO) == Got(Normal(p), Spread([[End("plist")]], gaps, end))
  {
    hide ReadDict;
    hide StringPair;
    hide StringArrayPair;
    hide SchedulePair;
    hide BoolPair;
    hide NormalText;
    hide NormalTexts;
    hide Spread;
    var g7 := [[End("dict")], [End("plist")]];
    var g6 := BoolPair("Disabled", p.disabled) + g7;
    var g5 := StringPair("StandardErrorPath", p.standardErrorPath) + g6;
    var g4 := StringPair("StandardOutPath", p.standardOutPath) + g5;
    var g3 := SchedulePair(p) + g4;
    var g2 := StringPair("WorkingDirectory", p.workingDirectory) + g3;
    var g1 := StringArrayPair("ProgramArguments", p.programArguments) + g2;
    var n := Normal(p);
    AtStringEntry("Label", p.jobLabel, ZERO, g1, gaps, i);
    var i1 := i + |StringPair("Label", p.jobLabel)|;
    var p1 := ZERO.(jobLabel := n.jobLabel);
    AtArgumentsEntry(p.programArguments, p1, g2, gaps, i1);
    var i2 := i1 + |StringArrayPair("ProgramArguments", p.programArguments)|;
    var p2 := p1.(programArguments := n.programArguments);
    AtStringEntry("WorkingDirectory", p.workingDirectory, p2, g3, gaps, i2);
    var i3 := i2 + |StringPair("WorkingDirectory", p.workingDirectory)|;
    var p3 := p2.(workingDirectory := n.workingDirectory);
    AtScheduleEntry(p, p3, g4, gaps, i3);
    var i4 := i3 + |SchedulePair(p)|;
    var p4 := p3.(startInterval := n.startInterval, startCalendarInterval := n.startCalendarInterval);
    AtStringEntry("StandardOutPath", p.standardOutPath, p4, g5, gaps, i4);
    var i5 := i4 + |StringPair("StandardOutPath", p.standardOutPath)|;
    var p5 := p4.(standardOutPath := n.standardOutPath);
    AtStringEntry("StandardErrorPath", p.standardErrorPath, p5, g6, gaps, i5);
    var i6 := i5 + |StringPair("StandardErrorPath", p.standardErrorPath)|;
    var p6 := p5.(standardErrorPath := n.standardErrorPath);
    AtDisabledEntry(p.disabled, p6, g7, gaps, i6);
    AtDictEnd(n, gaps, i6 + 3);
    end := i6 + 4;
  }

  lemma AtDictEnd(p: Agent, gaps: nat -> seq<Token>, i: nat)
    requires AreGaps(gaps)
    ensures ReadDict(Spread([[End("dict")], [End("plist")]], gaps, i), p) == Got(p, Spread([[End("plist")]], gaps, i + 1))
  {
    assert [[End("dict")], [End("plist")]] == [[End("dict")]] + [[End("plist")]];
    AtTag(End("dict"), [[End("plist")]], gaps, i);
  }

  lemma {:induction false} AtEnd(gap: seq<Token>, rest: seq<Token>)
    requires IsGap(gap)
    ensures ReadEnd(gap + ([End("plist")] + rest)) == Got((), rest)
  {
    if gap == [] {
      assert gap + ([End("plist")] + rest) == [End("plist")] + rest;
    } else {
      assert gap[0] in gap;
      assert (gap + ([End("plist")] + rest))[1..] == gap[1..] + ([End("plist")] + rest);
      AtEnd(gap[1..], rest);
    }
  }

  lemma {:induction false} AtRoot(gap: seq<Token>, rest: seq<Token>)
    requires IsGap(gap)
    ensures Decode(gap + ([Start("plist")] + rest)) == Unmarshal(rest, ZERO)
  {
    if gap == [] {
      assert gap + ([Start("plist")] + rest) == [Start("plist")] + rest;
    } else {
      assert gap[0] in gap;
      assert (gap + ([Start("plist")] + rest))[1..] == gap[1..] + ([Start("plist")] + rest);
      AtRoot(gap[1..], rest);
    }
  }

  // ----- Main results -----

  // What is read back is the normal form, whatever blank text stands between the elements.
  lemma ReadingGivesNormalForm(p: Agent, gaps: nat -> seq<Token>)
    requires AreGaps(gaps) && FitsFields(p)
    ensures exists rest :: Decode(Spread(Marshal(p), gaps, 0)) == Got(Normal(p), rest)
  {
    hide Body;
    hide ReadDict;
    var afterDirective := [[Start("dict")]] + Body(p);
    var afterRoot := [[Directive]] + afterDirective;
    assert Marshal(p) == [[Start("plist")]] + afterRoot;
    SpreadCons([Start("plist")], afterRoot, gaps, 0);
    AtRoot(gaps(0), Spread(afterRoot, gaps, 1));
    SpreadCons([Directive], afterDirective, gaps, 1);
    var inner := Spread(afterDirective, gaps, 2);
    GapMarkup(gaps(1), [Directive] + inner);
    assert ([Directive] + inner)[1..] == inner;
    AtTag(Start("dict"), Body(p), gaps, 2);
    var end := AtBody(p, gaps, 3);
    SpreadCons([End("plist")], [], gaps, end);
    assert [[End("plist")]] + [] == [[End("plist")]];
    AtEnd(gaps(end), Spread([], gaps, end + 1));
  }

  predicate Survives(s: string) {
    s == "" || !IsBlank(s)
  }

  // What a caller can check before writing.
  predicate IsFaithful(p: Agent) {
    && Survives(p.jobLabel) && Survives(p.workingDirectory) && Survives(p.standardOutPath) && Survives(p.standardErrorPath)
    && (forall s | s in p.programArguments :: Survives(s))
    && p.startInterval >= 0
    && (p.startInterval > 0 ==> p.startCalendarInterval == [])
    && forall c | c in p.startCalendarInterval :: c.weekday >= -1
  }

  // Reading gives back the very fields that were written if and only if every text is empty or not
  // all blank, no weekday is below the sentinel, and the two kinds of interval are not mixed.
  lemma RoundTrip(p: Agent, gaps: nat -> seq<Token>)
    requires AreGaps(gaps) && FitsFields(p)
    ensures (exists rest :: Decode(Spread(Marshal(p), gaps, 0)) == Got(p, rest)) <==> IsFaithful(p)
  {
    ReadingGivesNormalForm(p, gaps);
    hide Decode;
    hide Spread;
    hide Marshal;
    TextsSurvive(p.programArguments);
    CalendarsSurvive(p.startCalendarInterval);
  }

  lemma {:induction false} TextsSurvive(values: seq<string>)
    ensures NormalTexts(values) == values <==> forall s | s in values :: Survives(s)
  {
    if values != [] {
      TextsSurvive(values[1..]);
      assert values == [values[0]] + values[1..];
      assert NormalTexts(values)[1..] == NormalTexts(values[1..]);
      assert NormalText(values[0]) == values[0] <==> Survives(values[0]);
      hide Survives;
      hide NormalText;
      assert (forall s | s in values :: Survives(s)) <==> Survives(values[0]) && forall s | s in values[1..] :: Survives(s);
    }
  }

  lemma {:induction false} CalendarsSurvive(cals: seq<Calendar>)
    ensures NormalCalendars(cals) == cals <==> forall c | c in cals :: c.weekday >= -1
  {
    if cals != [] {
      CalendarsSurvive(cals[1..]);
      assert cals == [cals[0]] + cals[1..];
      var head, tail := NormalCalendar(cals[0]), NormalCalendars(cals[1..]);
      assert NormalCalendars(cals) == [head] + tail && ([head] + tail)[1..] == tail;
      assert NormalCalendars(cals) == cals <==> head == cals[0] && tail == cals[1..];
      hide NormalCalendars;
    }
  }
}
