// The property list's reader and writer as they work: a decoder that is advanced token by token, an
// encoder that appends tokens, and a property list whose fields are filled in place.
module PlistCoder {
  import opened Decimal
  import opened Plist
  import opened Strings

  datatype Outcome<T> = Done(value: T) | UnexpectedEof | NotText

  // The outcome of a reader that leaves the decoder at `rest`, against the meaning of that reader.
  predicate Agrees<T(==)>(o: Outcome<T>, rest: seq<Token>, r: Read<T>) {
    match r
    case Got(v, rest') => o == Done(v) && rest == rest'
    case Eof => o == UnexpectedEof
    case Panic => o == NotText
  }

  class Decoder {
    var rest: seq<Token>

    constructor (toks: seq<Token>)
      ensures rest == toks
    {
      rest := toks;
    }

    method NextToken() returns (o: Outcome<Token>)
      modifies this
      ensures old(rest) == [] ==> o == UnexpectedEof && rest == []
      ensures old(rest) != [] ==> o == Done(old(rest)[0]) && rest == old(rest)[1..]
    {
      if rest == [] {
        return UnexpectedEof;
      }
      o := Done(rest[0]);
      rest := rest[1..];
    }

    method NextContentToken() returns (o: Outcome<Token>)
      modifies this
      ensures Agrees(o, rest, NextContent(old(rest)))
    {
      while true
        invariant NextContent(rest) == NextContent(old(rest))
        decreases |rest|
      {
        var tok := NextToken();
        if tok.UnexpectedEof? {
          return UnexpectedEof;
        }
        if tok.value.Text? && TrimSpace(tok.value.text) == "" {
          continue;
        }
        return tok;
      }
    }

    method SkipElement() returns (o: Outcome<()>)
      modifies this
      ensures Agrees(o, rest, Skip(old(rest), 0))
    {
      var depth := 0;
      while true
        invariant 0 <= depth && Skip(rest, depth) == Skip(old(rest), 0)
        decreases |rest|
      {
        var tok := NextToken();
        if tok.UnexpectedEof? {
          return UnexpectedEof;
        }
        match tok.value
        case Start(_) => depth := depth + 1;
        case End(_) =>
          if depth == 0 {
            return Done(());
          }
          depth := depth - 1;
        case _ =>
      }
    }

    method ReadPlistInt() returns (o: Outcome<int>)
      modifies this
      ensures Agrees(o, rest, ReadInt(old(rest)))
    {
      var tok := NextContentToken();
      if tok.UnexpectedEof? {
        return UnexpectedEof;
      }
      if tok.value.Text? {
        var n := ScanInt(tok.value.text);
        var end := NextToken();
        if end.UnexpectedEof? {
          return UnexpectedEof;
        }
        return Done(n);
      }
      return Done(0);
    }

    method ReadPlistString() returns (o: Outcome<string>)
      modifies this
      ensures Agrees(o, rest, ReadString(old(rest)))
    {
      var tok := NextContentToken();
      if tok.UnexpectedEof? {
        return UnexpectedEof;
      }
      if tok.value.Text? {
        var s := tok.value.text;
        var end := NextToken();
        if end.UnexpectedEof? {
          return UnexpectedEof;
        }
        return Done(s);
      }
      return Done("");
    }

    method ReadPlistBool(name: string) returns (o: Outcome<bool>)
      modifies this
      ensures Agrees(o, rest, ReadBool(old(rest), name))
    {
      var skipped := SkipElement();
      if skipped.UnexpectedEof? {
        return UnexpectedEof;
      }
      return Done(name == "true");
    }

    method ReadPlistStringArray() returns (o: Outcome<seq<string>>)
      modifies this
      ensures Agrees(o, rest, ReadStringArray(old(rest), []))
    {
      var result: seq<string> := [];
      while true
        invariant ReadStringArray(rest, result) == ReadStringArray(old(rest), [])
        decreases |rest|
      {
        hide Skip;
        hide ReadString;
        var tok := NextToken();
        if tok.UnexpectedEof? {
          return UnexpectedEof;
        }
        match tok.value
        case End(_) => return Done(result);
        case Start(name) =>
          if name == "string" {
            var s := ReadPlistString();
            if s.UnexpectedEof? {
              return UnexpectedEof;
            }
            result := result + [s.value];
          } else {
            var skipped := SkipElement();
            if skipped.UnexpectedEof? {
              return UnexpectedEof;
            }
          }
        case _ =>
      }
    }

    method ReadPlistCalendarDict() returns (o: Outcome<Calendar>)
      modifies this
      ensures Agrees(o, rest, ReadCalendar(old(rest), NO_CALENDAR))
    {
      var cal := NO_CALENDAR;
      while true
        invariant ReadCalendar(rest, cal) == ReadCalendar(old(rest), NO_CALENDAR)
        decreases |rest|
      {
        hide ScanInt;
        var tok := NextToken();
        if tok.UnexpectedEof? {
          return UnexpectedEof;
        }
        match tok.value
        case End(_) => return Done(cal);
        case Start(_) =>
          var keyTok := NextToken();
          if keyTok.UnexpectedEof? {
            return UnexpectedEof;
          }
          if !keyTok.value.Text? {
            return NotText;
          }
          var key := keyTok.value.text;
          var keyEnd := NextToken();
          if keyEnd.UnexpectedEof? {
            return UnexpectedEof;
          }
          var valTok := NextContentToken();
          if valTok.UnexpectedEof? {
            return UnexpectedEof;
          }
          if valTok.value.Start? {
            var numTok := NextContentToken();
            if numTok.UnexpectedEof? {
              return UnexpectedEof;
            }
            if numTok.value.Text? {
              var n := ScanInt(numTok.value.text);
              match key
              case "Hour" => cal := cal.(hour := n);
              case "Minute" => cal := cal.(minute := n);
              case "Weekday" => cal := cal.(weekday := n);
              case _ =>
            }
            var end := NextToken();
            if end.UnexpectedEof? {
              return UnexpectedEof;
            }
          }
        case _ =>
      }
    }

    method ReadPlistCalendarArray(name: string) returns (o: Outcome<seq<Calendar>>)
      modifies this
      ensures Agrees(o, rest, ReadCalendarArray(old(rest), name))
    {
      hide ReadCalendar;
      if name == "array" {
        var result: seq<Calendar> := [];
        while true
          invariant ReadCalendars(rest, result) == ReadCalendars(old(rest), [])
          decreases |rest|
        {
          hide Skip;
          var tok := NextToken();
          if tok.UnexpectedEof? {
            return UnexpectedEof;
          }
          match tok.value
          case End(_) => return Done(result);
          case Start(inner) =>
            if inner == "dict" {
              var cal := ReadPlistCalendarDict();
              if !cal.Done? {
                return if cal.NotText? then NotText else UnexpectedEof;
              }
              result := result + [cal.value];
            } else {
              var skipped := SkipElement();
              if skipped.UnexpectedEof? {
                return UnexpectedEof;
              }
            }
          case _ =>
        }
      }
      var cal := ReadPlistCalendarDict();
      if !cal.Done? {
        return if cal.NotText? then NotText else UnexpectedEof;
      }
      return Done([cal.value]);
    }
  }

  // The tokens of the groups, nothing between them.
  function Flat(groups: seq<seq<Token>>): seq<Token> {
    if groups == [] then [] else groups[0] + Flat(groups[1..])
  }

  lemma {:induction false} FlatAppend(a: seq<seq<Token>>, b: seq<seq<Token>>)
    ensures Flat(a + b) == Flat(a) + Flat(b)
  {
    if a == [] {
      assert a + b == b;
    } else {
      FlatAppend(a[1..], b);
      assert (a + b)[1..] == a[1..] + b;
    }
  }

  // The stream without any indentation is one of those that are read back.
  lemma {:induction false} FlatIsSpread(groups: seq<seq<Token>>, i: nat)
    ensures Flat(groups) == Spread(groups, _ => [], i)
  {
    if groups != [] {
      FlatIsSpread(groups[1..], i + 1);
    }
  }

  class Encoder {
    var out: seq<Token>

    constructor ()
      ensures out == []
    {
      out := [];
    }

    method EncodeToken(t: Token)
      modifies this
      ensures out == old(out) + [t]
    {
      out := out + [t];
    }

    method EncodeElement(text: string, name: string)
      modifies this
      ensures out == old(out) + Flat(Leaf(name, text))
    {
      EncodeToken(Start(name));
      if text != "" {
        EncodeToken(Text(text));
      }
      EncodeToken(End(name));
      FlatOfOne([Start(name), Text(text), End(name)]);
      FlatOfOne([End(name)]);
      FlatCons([Start(name)], [[End(name)]]);
      assert [[Start(name)]] + [[End(name)]] == [[Start(name)], [End(name)]];
    }

    method WritePlistKey(key: string)
      modifies this
      ensures out == old(out) + Key(key)
    {
      EncodeToken(Start("key"));
      EncodeToken(Text(key));
      EncodeToken(End("key"));
    }

    method WritePlistString(key: string, value: string)
      modifies this
      ensures out == old(out) + Flat(StringPair(key, value))
    {
      hide Leaf;
      WritePlistKey(key);
      EncodeElement(value, "string");
      FlatCons(Key(key), Leaf("string", value));
    }

    method WritePlistBool(key: string, value: bool)
      modifies this
      ensures out == old(out) + Flat(BoolPair(key, value))
    {
      WritePlistKey(key);
      var name := if value then "true" else "false";
      EncodeToken(Start(name));
      EncodeToken(End(name));
      assert BoolPair(key, value) == [Key(key)] + ([[Start(name)]] + ([[End(name)]] + []));
      FlatCons([End(name)], []);
      FlatCons([Start(name)], [[End(name)]] + []);
      FlatCons(Key(key), [[Start(name)]] + ([[End(name)]] + []));
    }

    method WritePlistInt(key: string, value: int)
      modifies this
      ensures out == old(out) + Flat(IntPair(key, value))
    {
      hide Leaf;
      WritePlistKey(key);
      EncodeElement(FormatInt(value), "integer");
      FlatCons(Key(key), Leaf("integer", FormatInt(value)));
    }

    method WritePlistStringArray(key: string, values: seq<string>)
      modifies this
      ensures out == old(out) + Flat(StringArrayPair(key, values))
    {
      hide Leaf;
      hide Key;
      WritePlistKey(key);
      EncodeToken(Start("array"));
      ghost var before := out;
      assert values[0..] == values;
      NoTokens();
      hide Flat;
      for i := 0 to |values|
        invariant out + Flat(Leaves(values[i..])) == before + Flat(Leaves(values))
      {
        NextLeaves(values, i);
        WriteMore(out, Leaf("string", values[i]), Leaves(values[i + 1..]));
        EncodeElement(values[i], "string");
      }
      assert values[|values|..] == [];
      assert out == before + Flat(Leaves(values));
      EncodeToken(End("array"));
      WroteArray(old(out), key, Leaves(values));
    }

    method WritePlistCalendarArray(key: string, intervals: seq<Calendar>)
      modifies this
      ensures out == old(out) + Flat(CalendarPair(key, intervals))
    {
      hide CalendarDict;
      hide Key;
      WritePlistKey(key);
      if |intervals| == 1 {
        WritePlistCalendarDict(intervals[0]);
        FlatCons(Key(key), CalendarDict(intervals[0]));
        return;
      }
      EncodeToken(Start("array"));
      ghost var before := out;
      assert intervals[0..] == intervals;
      NoTokens();
      hide Flat;
      for i := 0 to |intervals|
        invariant out + Flat(CalendarDicts(intervals[i..])) == before + Flat(CalendarDicts(intervals))
      {
        NextDicts(intervals, i);
        WriteMore(out, CalendarDict(intervals[i]), CalendarDicts(intervals[i + 1..]));
        WritePlistCalendarDict(intervals[i]);
      }
      assert intervals[|intervals|..] == [];
      assert out == before + Flat(CalendarDicts(intervals));
      EncodeToken(End("array"));
      WroteArray(old(out), key, CalendarDicts(intervals));
      assert CalendarPair(key, intervals)
          == [Key(key), [Start("array")]] + (CalendarDicts(intervals) + [[End("array")]]);
    }

    method WritePlistCalendarDict(cal: Calendar)
      modifies this
      ensures out == old(out) + Flat(CalendarDict(cal))
    {
      hide IntPair;
      hide Flat;
      ghost var before := out;
      ghost var end := [[End("dict")]];
      ghost var hourPair, minutePair := IntPair("Hour", cal.hour), IntPair("Minute", cal.minute);
      ghost var weekdayPair := WeekdayPair(cal.weekday);
      NoTokens();
      EncodeToken(Start("dict"));
      FlatOfOne([Start("dict")]);
      WriteMore(before, [[Start("dict")]], CalendarFields(cal));
      WriteMore(out, hourPair, minutePair + (weekdayPair + end));
      WritePlistInt("Hour", cal.hour);
      WriteMore(out, minutePair, weekdayPair + end);
      WritePlistInt("Minute", cal.minute);
      WriteMore(out, weekdayPair, end);
      if cal.weekday >= 0 {
        WritePlistInt("Weekday", cal.weekday);
      }
      FlatOfOne([End("dict")]);
      EncodeToken(End("dict"));
    }
  }

  lemma NextLeaves(values: seq<string>, i: nat)
    requires i < |values|
    ensures Leaves(values[i..]) == Leaf("string", values[i]) + Leaves(values[i + 1..])
  {
    assert values[i..][1..] == values[i + 1..];
  }

  lemma NextDicts(cals: seq<Calendar>, i: nat)
    requires i < |cals|
    ensures CalendarDicts(cals[i..]) == CalendarDict(cals[i]) + CalendarDicts(cals[i + 1..])
  {
    assert cals[i..][1..] == cals[i + 1..];
  }

  // After the tokens of `a`, those of `b` are still to be written.
  lemma WriteMore(out: seq<Token>, a: seq<seq<Token>>, b: seq<seq<Token>>)
    ensures (out + Flat(a)) + Flat(b) == out + Flat(a + b)
  {
    FlatAppend(a, b);
  }

  lemma FlatOfOne(group: seq<Token>)
    ensures Flat([group]) == group
  {
    assert [group][1..] == [] && group + [] == group;
  }

  lemma FlatCons(group: seq<Token>, more: seq<seq<Token>>)
    ensures Flat([group] + more) == group + Flat(more)
  {
    assert ([group] + more)[1..] == more;
  }

  lemma FlatArray(key: string, inner: seq<seq<Token>>)
    ensures Flat([Key(key), [Start("array")]] + (inner + [[End("array")]]))
         == Key(key) + [Start("array")] + Flat(inner) + [End("array")]
  {
    assert [Key(key), [Start("array")]] + (inner + [[End("array")]])
        == [Key(key)] + ([[Start("array")]] + (inner + [[End("array")]]));
    FlatCons(Key(key), [[Start("array")]] + (inner + [[End("array")]]));
    FlatCons([Start("array")], inner + [[End("array")]]);
    FlatAppend(inner, [[End("array")]]);
    FlatCons([End("array")], []);
    assert [[End("array")]] + [] == [[End("array")]];
  }

  lemma WroteArray(out: seq<Token>, key: string, inner: seq<seq<Token>>)
    ensures out + Key(key) + [Start("array")] + Flat(inner) + [End("array")]
         == out + Flat([Key(key), [Start("array")]] + (inner + [[End("array")]]))
  {
    hide Key;
    FlatArray(key, inner);
  }

  class LaunchAgentPlist {
    var jobLabel: string
    var programArguments: seq<string>
    var workingDirectory: string
    var startCalendarInterval: seq<Calendar>
    var startInterval: int
    var standardOutPath: string
    var standardErrorPath: string
    var disabled: bool

    constructor ()
      ensures Value() == ZERO
    {
      jobLabel, programArguments, workingDirectory := "", [], "";
      startCalendarInterval, startInterval := [], 0;
      standardOutPath, standardErrorPath, disabled := "", "", false;
    }

    function Value(): Agent
      reads this
    {
      Agent(jobLabel, programArguments, workingDirectory, startCalendarInterval, startInterval,
            standardOutPath, standardErrorPath, disabled)
    }

    // Reads the value of one key into its field.
    method UnmarshalValue(d: Decoder, name: string, key: string) returns (o: Outcome<()>)
      modifies this, d
      ensures match ReadValue(old(d.rest), name, key, old(Value()))
              case Got(q, rest) => o == Done(()) && Value() == q && d.rest == rest
              case Eof => o == UnexpectedEof
              case Panic => o == NotText
    {
      hide ReadString;
      hide ReadStringArray;
      hide ReadCalendarArray;
      hide ReadInt;
      hide ReadBool;
      hide Skip;
      match key {
      case "Label" =>
        var v := d.ReadPlistString();
        if !v.Done? { return UnexpectedEof; }
        jobLabel := v.value;
      case "ProgramArguments" =>
        var v := d.ReadPlistStringArray();
        if !v.Done? { return UnexpectedEof; }
        programArguments := v.value;
      case "WorkingDirectory" =>
        var v := d.ReadPlistString();
        if !v.Done? { return UnexpectedEof; }
        workingDirectory := v.value;
      case "StartCalendarInterval" =>
        var v := d.ReadPlistCalendarArray(name);
        if !v.Done? { return if v.NotText? then NotText else UnexpectedEof; }
        startCalendarInterval := v.value;
      case "StartInterval" =>
        var v := d.ReadPlistInt();
        if !v.Done? { return UnexpectedEof; }
        startInterval := v.value;
      case "StandardOutPath" =>
        var v := d.ReadPlistString();
        if !v.Done? { return UnexpectedEof; }
        standardOutPath := v.value;
      case "StandardErrorPath" =>
        var v := d.ReadPlistString();
        if !v.Done? { return UnexpectedEof; }
        standardErrorPath := v.value;
      case "Disabled" =>
        var v := d.ReadPlistBool(name);
        if !v.Done? { return UnexpectedEof; }
        disabled := v.value;
      case _ =>
        var skipped := d.SkipElement();
        if !skipped.Done? { return UnexpectedEof; }
      }
      return Done(());
    }

    method UnmarshalDict(d: Decoder) returns (o: Outcome<()>)
      modifies this, d
      ensures match ReadDict(old(d.rest), old(Value()))
              case Got(q, rest) => o == Done(()) && Value() == q && d.rest == rest
              case Eof => o == UnexpectedEof
              case Panic => o == NotText
    {
      hide ReadValue;
      while true
        invariant ReadDict(d.rest, Value()) == ReadDict(old(d.rest), old(Value()))
        decreases |d.rest|
      {
        var tok := d.NextToken();
        if tok.UnexpectedEof? {
          return UnexpectedEof;
        }
        if tok.value.End? {
          return Done(());
        }
        if !tok.value.Start? {
          continue;
        }
        var keyTok := d.NextToken();
        if keyTok.UnexpectedEof? {
          return UnexpectedEof;
        }
        if !keyTok.value.Text? {
          continue;
        }
        var keyStr := keyTok.value.text;
        var keyEnd := d.NextToken();
        if keyEnd.UnexpectedEof? {
          return UnexpectedEof;
        }
        var valTok := d.NextContentToken();
        if valTok.UnexpectedEof? {
          return UnexpectedEof;
        }
        if !valTok.value.Start? {
          continue;
        }
        var read := UnmarshalValue(d, valTok.value.name, keyStr);
        if !read.Done? {
          return read;
        }
      }
    }

    // Fills the fields from what follows the start of the property list.
    method UnmarshalXML(d: Decoder) returns (o: Outcome<()>)
      modifies this, d
      ensures match Unmarshal(old(d.rest), old(Value()))
              case Got(q, rest) => o == Done(()) && Value() == q && d.rest == rest
              case Eof => o == UnexpectedEof
              case Panic => o == NotText
    {
      hide ReadDict;
      while true
        invariant Value() == old(Value()) && Unmarshal(d.rest, Value()) == Unmarshal(old(d.rest), old(Value()))
        decreases |d.rest|
      {
        var tok := d.NextToken();
        if tok.UnexpectedEof? {
          return UnexpectedEof;
        }
        if tok.value == Start("dict") {
          var inner := UnmarshalDict(d);
          if !inner.Done? {
            return inner;
          }
          ghost var afterDict, filled := d.rest, Value();
          while true
            invariant Value() == filled
            invariant ReadEnd(d.rest) == ReadEnd(afterDict)
            decreases |d.rest|
          {
            var t := d.NextToken();
            if t.UnexpectedEof? {
              return UnexpectedEof;
            }
            if t.value == End("plist") {
              return Done(());
            }
          }
        }
      }
    }

    method WriteSchedule(e: Encoder)
      modifies e
      ensures e.out == old(e.out) + Flat(SchedulePair(Value()))
    {
      hide IntPair;
      hide CalendarPair;
      NoTokens();
      if startInterval > 0 {
        e.WritePlistInt("StartInterval", startInterval);
      } else if |startCalendarInterval| > 0 {
        e.WritePlistCalendarArray("StartCalendarInterval", startCalendarInterval);
      }
    }

    method WriteHead(e: Encoder)
      modifies e
      ensures e.out == old(e.out) + Flat(Head())
    {
      e.EncodeToken(Start("plist"));
      e.EncodeToken(Directive);
      e.EncodeToken(Start("dict"));
      assert Head()[1..][1..][1..] == [];
      assert Flat(Head()) == [Start("plist"), Directive, Start("dict")];
    }

    method WriteTail(e: Encoder)
      modifies e
      ensures e.out == old(e.out) + Flat(Tail())
    {
      e.EncodeToken(End("dict"));
      e.EncodeToken(End("plist"));
      assert Tail()[1..][1..] == [];
      assert Flat(Tail()) == [End("dict"), End("plist")];
    }

    method MarshalXML(e: Encoder)
      modifies e
      ensures e.out == old(e.out) + Flat(Marshal(Value()))
    {
      hide StringPair;
      hide StringArrayPair;
      hide SchedulePair;
      hide BoolPair;
      hide Flat;
      ghost var before := e.out;
      WriteHead(e);
      e.WritePlistString("Label", jobLabel);
      e.WritePlistStringArray("ProgramArguments", programArguments);
      e.WritePlistString("WorkingDirectory", workingDirectory);
      WriteSchedule(e);
      e.WritePlistString("StandardOutPath", standardOutPath);
      e.WritePlistString("StandardErrorPath", standardErrorPath);
      e.WritePlistBool("Disabled", disabled);
      WriteTail(e);
      WroteAll(before, Value());
    }
  }

  function Head(): seq<seq<Token>> {
    [[Start("plist")], [Directive], [Start("dict")]]
  }

  function Tail(): seq<seq<Token>> {
    [[End("dict")], [End("plist")]]
  }

  // The pieces, written one after another, are the whole property list.
  lemma WroteAll(out: seq<Token>, p: Agent)
    ensures out + Flat(Head()) + Flat(StringPair("Label", p.jobLabel))
      + Flat(StringArrayPair("ProgramArguments", p.programArguments))
      + Flat(StringPair("WorkingDirectory", p.workingDirectory)) + Flat(SchedulePair(p))
      + Flat(StringPair("StandardOutPath", p.standardOutPath))
      + Flat(StringPair("StandardErrorPath", p.standardErrorPath))
      + Flat(BoolPair("Disabled", p.disabled)) + Flat(Tail())
      == out + Flat(Marshal(p))
  {
    hide StringPair;
    hide StringArrayPair;
    hide SchedulePair;
    hide BoolPair;
    hide Flat;
    var g7 := Tail();
    var g6 := BoolPair("Disabled", p.disabled) + g7;
    var g5 := StringPair("StandardErrorPath", p.standardErrorPath) + g6;
    var g4 := StringPair("StandardOutPath", p.standardOutPath) + g5;
    var g3 := SchedulePair(p) + g4;
    var g2 := StringPair("WorkingDirectory", p.workingDirectory) + g3;
    var g1 := StringArrayPair("ProgramArguments", p.programArguments) + g2;
    var o0 := out + Flat(Head());
    var o1 := o0 + Flat(StringPair("Label", p.jobLabel));
    var o2 := o1 + Flat(StringArrayPair("ProgramArguments", p.programArguments));
    var o3 := o2 + Flat(StringPair("WorkingDirectory", p.workingDirectory));
    var o4 := o3 + Flat(SchedulePair(p));
    var o5 := o4 + Flat(StringPair("StandardOutPath", p.standardOutPath));
    var o6 := o5 + Flat(StringPair("StandardErrorPath", p.standardErrorPath));
    WriteMore(out, Head(), Body(p));
    WriteMore(o0, StringPair("Label", p.jobLabel), g1);
    WriteMore(o1, StringArrayPair("ProgramArguments", p.programArguments), g2);
    WriteMore(o2, StringPair("WorkingDirectory", p.workingDirectory), g3);
    WriteMore(o3, SchedulePair(p), g4);
    WriteMore(o4, StringPair("StandardOutPath", p.standardOutPath), g5);
    WriteMore(o5, StringPair("StandardErrorPath", p.standardErrorPath), g6);
    WriteMore(o6, BoolPair("Disabled", p.disabled), g7);
  }

  lemma NoTokens()
    ensures Flat([]) == []
  {
  }
}
