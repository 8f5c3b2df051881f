// Quoting the daemon's command line for the Windows task scheduler and for systemd, against the
// rules by which those command lines are split again.
module StartupCommand {
  import opened Strings

  const QUOTE := '"'
  const BACKSLASH := '\\'

  function Repeat(c: char, n: nat): (s: string)
    ensures |s| == n && forall x | x in s :: x == c
  {
    if n == 0 then "" else [c] + Repeat(c, n - 1)
  }

  // ----- Quoting -----

  // What follows for `value` when `backslashes` backslashes are pending.
  function Quoted(value: string, backslashes: nat): string {
    if value == "" then Repeat(BACKSLASH, 2 * backslashes) + [QUOTE]
    else if value[0] == BACKSLASH then Quoted(value[1..], backslashes + 1)
    else if value[0] == QUOTE then Repeat(BACKSLASH, 2 * backslashes + 1) + ([QUOTE] + Quoted(value[1..], 0))
    else Repeat(BACKSLASH, backslashes) + ([value[0]] + Quoted(value[1..], 0))
  }

  function QuotedArgument(value: string): string {
    [QUOTE] + Quoted(value, 0)
  }

  method QuoteWindowsCommandArgument(value: string) returns (b: string)
    ensures b == QuotedArgument(value)
  {
    b := [QUOTE];
    var backslashes := 0;
    assert value[0..] == value;
    for i := 0 to |value|
      invariant 0 <= backslashes && b + Quoted(value[i..], backslashes) == QuotedArgument(value)
    {
      var c := value[i];
      assert value[i..][1..] == value[i + 1..];
      ghost var more := value[i + 1..];
      if c == BACKSLASH {
        backslashes := backslashes + 1;
      } else if c == QUOTE {
        Regroup(b, Repeat(BACKSLASH, backslashes * 2 + 1), [QUOTE], Quoted(more, 0));
        b := b + Repeat(BACKSLASH, backslashes * 2 + 1);
        b := b + [QUOTE];
        backslashes := 0;
      } else {
        Regroup(b, Repeat(BACKSLASH, backslashes), [c], Quoted(more, 0));
        b := b + Repeat(BACKSLASH, backslashes);
        b := b + [c];
        backslashes := 0;
      }
    }
    assert value[|value|..] == "";
    b := b + Repeat(BACKSLASH, backslashes * 2);
    b := b + [QUOTE];
  }

  lemma Regroup(a: string, b: string, c: string, d: string)
    ensures a + (b + (c + d)) == (a + b + c) + d
  {
  }

  method BuildStartupTaskCommand(executablePath: string, configPath: string) returns (command: string)
    ensures command == TaskCommand(executablePath, configPath)
  {
    var exe := QuoteWindowsCommandArgument(executablePath);
    var config := QuoteWindowsCommandArgument(configPath);
    command := exe + " daemon --config " + config;
  }

  function TaskCommand(executablePath: string, configPath: string): string {
    QuotedArgument(executablePath) + " daemon --config " + QuotedArgument(configPath)
  }

  // ----- Splitting -----

  // Implementations disagree on two quotes in a row inside a quoted part.
  datatype DoubledQuotes = Toggle | LiteralAndStay | LiteralAndLeave

  datatype Split = Split(text: string, rest: string)

  function Run(s: string): (n: nat)
    ensures n <= |s| && (n < |s| ==> s[n] != BACKSLASH)
  {
    if s == "" || s[0] != BACKSLASH then 0 else 1 + Run(s[1..])
  }

  predicate IsSeparator(c: char) {
    c == ' ' || c == '\t'
  }

  // One argument: 2n backslashes before a quote stand for n and leave the quote its meaning, 2n + 1
  // make the quote literal, and other backslashes are literal.
  function ReadArgument(s: string, quoted: bool, text: string, doubled: DoubledQuotes): (r: Split)
    ensures |r.rest| <= |s|
    decreases |s|
  {
    if s == "" || (!quoted && IsSeparator(s[0])) then Split(text, s)
    else if s[0] == BACKSLASH then
      var n := Run(s);
      var before := text + Repeat(BACKSLASH, n / 2);
      if n == |s| || s[n] != QUOTE then ReadArgument(s[n..], quoted, text + Repeat(BACKSLASH, n), doubled)
      else if n % 2 == 1 then ReadArgument(s[n + 1..], quoted, before + [QUOTE], doubled)
      else ReadQuote(s[n..], quoted, before, doubled)
    else if s[0] == QUOTE then ReadQuote(s, quoted, text, doubled)
    else ReadArgument(s[1..], quoted, text + [s[0]], doubled)
  }

  function ReadQuote(s: string, quoted: bool, text: string, doubled: DoubledQuotes): (r: Split)
    requires s != "" && s[0] == QUOTE
    ensures |r.rest| < |s|
    decreases |s|, 0
  {
    if quoted && !doubled.Toggle? && |s| > 1 && s[1] == QUOTE then
      ReadArgument(s[2..], doubled.LiteralAndStay?, text + [QUOTE], doubled)
    else ReadArgument(s[1..], !quoted, text, doubled)
  }

  function SplitArguments(s: string, doubled: DoubledQuotes): seq<string>
    decreases |s|
  {
    if s == "" then []
    else if IsSeparator(s[0]) then SplitArguments(s[1..], doubled)
    else
      var first := ReadArgument(s, false, "", doubled);
      assert |first.rest| < |s| by { ArgumentConsumes(s, doubled); }
      [first.text] + SplitArguments(first.rest, doubled)
  }

  lemma ArgumentConsumes(s: string, doubled: DoubledQuotes)
    requires s != "" && !IsSeparator(s[0])
    ensures |ReadArgument(s, false, "", doubled).rest| < |s|
  {
  }

  // ----- Some command lines, written out -----

  // `a b` and `a"b\` as they are quoted.
  lemma QuotedTexts()
    ensures QuotedArgument("a b") == "\"a b\""
    ensures QuotedArgument("a\"b\\") == "\"a\\\"b\\\\\""
  {
    assert "a b"[1..] == " b" && " b"[1..] == "b" && "b"[1..] == "";
    assert Quoted("b", 0) == "b\"" && Quoted(" b", 0) == " b\"";
    QuotedSpecials();
    hide Quoted;
  }

  lemma QuotedSpecials()
    ensures Quoted("a\"b\\", 0) == "a\\\"b\\\\\""
  {
    var back := [BACKSLASH];
    OneBackslash();
    QuotedPlain('b', back);
    QuotedQuote(['b'] + back);
    QuotedPlain('a', [QUOTE] + (['b'] + back));
    hide Quoted;
    assert "a\"b\\" == ['a'] + ([QUOTE] + (['b'] + back));
  }

  lemma OneBackslash()
    ensures Quoted([BACKSLASH], 0) == [BACKSLASH, BACKSLASH, QUOTE]
  {
    assert [BACKSLASH][1..] == "" && Quoted("", 1) == [BACKSLASH, BACKSLASH] + [QUOTE];
  }

  lemma QuotedPlain(c: char, s: string)
    requires c != QUOTE && c != BACKSLASH
    ensures Quoted([c] + s, 0) == [c] + Quoted(s, 0)
  {
    assert ([c] + s)[1..] == s;
  }

  lemma QuotedQuote(s: string)
    ensures Quoted([QUOTE] + s, 0) == [BACKSLASH] + ([QUOTE] + Quoted(s, 0))
  {
    OnlyOne();
    hide Repeat;
    assert ([QUOTE] + s)[1..] == s;
  }

  lemma OnlyOne()
    ensures Repeat(BACKSLASH, 1) == [BACKSLASH]
  {
  }

  // Blanks and tabs separate arguments.
  lemma SplitAtBlanks(doubled: DoubledQuotes, blank: char)
    requires blank == ' ' || blank == '\t'
    ensures SplitArguments("a" + [blank] + "b", doubled) == ["a", "b"]
  {
    hide ReadArgument;
    var rest := [blank] + "b";
    assert "a" + [blank] + "b" == ['a'] + rest && rest[1..] == "b" && ['b'] + "" == "b";
    assert "" + ['b'] == "b" && "" + ['a'] == "a" && SplitArguments("", doubled) == [];
    ReadChar('b', "", false, "", doubled);
    BlankEnds("", "b", doubled);
    assert SplitArguments("b", doubled) == ["b"];
    assert SplitArguments(rest, doubled) == ["b"];
    ReadChar('a', rest, false, "", doubled);
    BlankEnds(rest, "a", doubled);
  }

  // Two quotes in a row inside a quoted part are nothing, a quote inside it, or a quote that ends it.
  lemma ReadDoubledQuotes(doubled: DoubledQuotes)
    ensures ReadArgument("\"a\"\"b c\"", false, "", doubled) ==
      match doubled
      case Toggle => Split("ab c", "")
      case LiteralAndStay => Split("a\"b c", "")
      case LiteralAndLeave => Split("a\"b", " c\"")
  {
    hide ReadArgument;
    var s2 := " c\"";
    var s3 := "b" + s2;
    var s5 := "\"\"" + s3;
    FirstQuote("a" + s5, doubled);
    ReadChar('a', s5, true, "", doubled);
    assert "\"a\"\"b c\"" == "\"" + ("a" + s5);
    AfterTwoQuotes(s3, doubled);
    ReadChar('b', s2, true, "a", doubled);
    ReadChar('b', s2, true, "a\"", doubled);
    ReadChar('b', s2, false, "a\"", doubled);
    BlankEnds(s2, "a\"b", doubled);
    QuotedEnd("ab", doubled);
    QuotedEnd("a\"b", doubled);
    assert "" + ['a'] == "a" && "a" + ['b'] == "ab" && "a\"" + ['b'] == "a\"b";
    assert "ab" + " c" == "ab c" && "a\"b" + " c" == "a\"b c";
  }

  lemma AfterTwoQuotes(s: string, doubled: DoubledQuotes)
    ensures ReadArgument("\"\"" + s, true, "a", doubled) ==
      match doubled
      case Toggle => ReadArgument(s, true, "a", doubled)
      case LiteralAndStay => ReadArgument(s, true, "a\"", doubled)
      case LiteralAndLeave => ReadArgument(s, false, "a\"", doubled)
  {
    assert ("\"\"" + s)[1..] == "\"" + s && ("\"\"" + s)[2..] == s && ("\"" + s)[1..] == s;
    assert ReadArgument("\"" + s, false, "a", doubled) == ReadArgument(s, true, "a", doubled);
    assert "a" + [QUOTE] == "a\"";
  }

  lemma FirstQuote(s: string, doubled: DoubledQuotes)
    ensures ReadArgument("\"" + s, false, "", doubled) == ReadArgument(s, true, "", doubled)
  {
    assert ("\"" + s)[1..] == s;
  }

  lemma ReadChar(c: char, s: string, quoted: bool, text: string, doubled: DoubledQuotes)
    requires c != QUOTE && c != BACKSLASH && !IsSeparator(c)
    ensures ReadArgument([c] + s, quoted, text, doubled) == ReadArgument(s, quoted, text + [c], doubled)
  {
    assert ([c] + s)[1..] == s;
  }

  lemma BlankEnds(s: string, text: string, doubled: DoubledQuotes)
    requires s == "" || IsSeparator(s[0])
    ensures ReadArgument(s, false, text, doubled) == Split(text, s)
  {
  }

  lemma QuotedEnd(text: string, doubled: DoubledQuotes)
    ensures ReadArgument(" c\"", true, text, doubled) == Split(text + " c", "")
  {
    assert " c\""[1..] == "c\"" && "c\""[1..] == "\"" && "\""[1..] == "";
    assert ReadArgument("\"", true, text + " c", doubled) == ReadArgument("", false, text + " c", doubled) == Split(text + " c", "");
    assert text + " " + "c" == text + " c";
  }

  // ----- The program's own name -----

  function UpToSeparator(s: string): (n: nat)
    ensures n <= |s|
  {
    if s == "" || IsSeparator(s[0]) then 0 else 1 + UpToSeparator(s[1..])
  }

  // The first argument is taken literally: up to the next quote if it starts with one, and
  // otherwise up to a separator.
  function SplitCommandLine(s: string, doubled: DoubledQuotes): seq<string> {
    if s != "" && s[0] == QUOTE then
      var n := IndexOf(s[1..], QUOTE);
      [s[1..][..n]] + SplitArguments(if n < |s| - 1 then s[1..][n + 1..] else "", doubled)
    else
      var n := UpToSeparator(s);
      [s[..n]] + SplitArguments(s[n..], doubled)
  }

  // ----- Reading undoes quoting -----

  // `tail` does not run on from the closing quote.
  predicate Ends(tail: string) {
    tail == "" || IsSeparator(tail[0])
  }

  lemma {:induction false} RunOfBackslashes(n: nat, rest: string)
    requires rest != "" && rest[0] != BACKSLASH
    ensures Run(Repeat(BACKSLASH, n) + rest) == n
    ensures (Repeat(BACKSLASH, n) + rest)[n..] == rest
  {
    if n == 0 {
      assert Repeat(BACKSLASH, n) + rest == rest;
    } else {
      RunOfBackslashes(n - 1, rest);
      assert (Repeat(BACKSLASH, n) + rest)[1..] == Repeat(BACKSLASH, n - 1) + rest;
    }
  }

  // A run of backslashes and what stands behind it.
  lemma ReadRun(n: nat, rest: string, text: string, doubled: DoubledQuotes)
    requires rest != "" && rest[0] != BACKSLASH
    ensures ReadArgument(Repeat(BACKSLASH, n) + rest, true, text, doubled) ==
      if rest[0] != QUOTE then ReadArgument(rest, true, text + Repeat(BACKSLASH, n), doubled)
      else if n % 2 == 1 then ReadArgument(rest[1..], true, text + Repeat(BACKSLASH, n / 2) + [QUOTE], doubled)
      else ReadQuote(rest, true, text + Repeat(BACKSLASH, n / 2), doubled)
  {
    RunOfBackslashes(n, rest);
    var s := Repeat(BACKSLASH, n) + rest;
    if n == 0 {
      assert s == rest && text + Repeat(BACKSLASH, 0) == text;
    } else {
      assert s[0] == BACKSLASH;
      assert s[n + 1..] == rest[1..];
    }
  }

  lemma {:induction false} RepeatSnoc(c: char, n: nat)
    ensures Repeat(c, n + 1) == Repeat(c, n) + [c]
  {
    if n > 0 {
      RepeatSnoc(c, n - 1);
    }
  }

  // The heart: from inside the quotes, with `n` backslashes pending.
  lemma {:induction false} ReadQuoted(value: string, n: nat, text: string, tail: string, doubled: DoubledQuotes)
    requires Ends(tail)
    ensures ReadArgument(Quoted(value, n) + tail, true, text, doubled)
         == Split(text + Repeat(BACKSLASH, n) + value, tail)
    decreases |value|
  {
    if value == "" {
      ReadEnd(n, text, tail, doubled);
      assert text + Repeat(BACKSLASH, n) + value == text + Repeat(BACKSLASH, n);
    } else if value[0] == BACKSLASH {
      RepeatSnoc(BACKSLASH, n);
      ReadQuoted(value[1..], n + 1, text, tail, doubled);
      assert value == [BACKSLASH] + value[1..];
      assert text + Repeat(BACKSLASH, n + 1) + value[1..] == text + Repeat(BACKSLASH, n) + value;
    } else {
      ReadOther(value, n, text, tail, doubled);
      ReadQuoted(value[1..], 0, text + Repeat(BACKSLASH, n) + [value[0]], tail, doubled);
      assert value == [value[0]] + value[1..];
      assert text + Repeat(BACKSLASH, n) + [value[0]] + Repeat(BACKSLASH, 0) + value[1..]
          == text + Repeat(BACKSLASH, n) + value;
    }
  }

  // The closing quote.
  lemma ReadEnd(n: nat, text: string, tail: string, doubled: DoubledQuotes)
    requires Ends(tail)
    ensures ReadArgument(Quoted("", n) + tail, true, text, doubled) == Split(text + Repeat(BACKSLASH, n), tail)
  {
    var rest := [QUOTE] + tail;
    assert Quoted("", n) + tail == Repeat(BACKSLASH, 2 * n) + rest;
    ReadRun(2 * n, rest, text, doubled);
    assert rest[1..] == tail;
  }

  // A character that is not a backslash.
  lemma ReadOther(value: string, n: nat, text: string, tail: string, doubled: DoubledQuotes)
    requires value != "" && value[0] != BACKSLASH
    ensures ReadArgument(Quoted(value, n) + tail, true, text, doubled)
         == ReadArgument(Quoted(value[1..], 0) + tail, true, text + Repeat(BACKSLASH, n) + [value[0]], doubled)
  {
    var c := value[0];
    var k := if c == QUOTE then 2 * n + 1 else n;
    var more := Quoted(value[1..], 0) + tail;
    assert Quoted(value, n) + tail == Repeat(BACKSLASH, k) + ([c] + more);
    hide Quoted;
    ReadBehindRun(c, n, more, text, doubled);
  }

  lemma ReadBehindRun(c: char, n: nat, more: string, text: string, doubled: DoubledQuotes)
    requires c != BACKSLASH
    ensures ReadArgument(Repeat(BACKSLASH, if c == QUOTE then 2 * n + 1 else n) + ([c] + more), true, text, doubled)
         == ReadArgument(more, true, text + Repeat(BACKSLASH, n) + [c], doubled)
  {
    var k := if c == QUOTE then 2 * n + 1 else n;
    var rest := [c] + more;
    ReadRun(k, rest, text, doubled);
    assert rest[1..] == more;
    if c == QUOTE {
      hide ReadArgument;
      assert k / 2 == n;
    } else {
      assert ReadArgument(rest, true, text + Repeat(BACKSLASH, n), doubled)
          == ReadArgument(more, true, text + Repeat(BACKSLASH, n) + [c], doubled);
    }
  }

  // A quoted argument reads back as the original, whatever bytes it holds.
  lemma ArgumentRoundTrip(value: string, tail: string, doubled: DoubledQuotes)
    requires Ends(tail)
    ensures ReadArgument(QuotedArgument(value) + tail, false, "", doubled) == Split(value, tail)
    ensures SplitArguments(QuotedArgument(value) + tail, doubled) == [value] + SplitArguments(tail, doubled)
  {
    var s := QuotedArgument(value) + tail;
    assert s[0] == QUOTE && s[1..] == Quoted(value, 0) + tail;
    ReadQuoted(value, 0, "", tail, doubled);
    assert "" + Repeat(BACKSLASH, 0) + value == value;
  }

  predicate IsPlain(s: string) {
    forall c | c in s :: c != QUOTE && c != BACKSLASH && !IsSeparator(c)
  }

  lemma {:induction false} ReadPlain(word: string, text: string, tail: string, doubled: DoubledQuotes)
    requires IsPlain(word) && Ends(tail)
    ensures ReadArgument(word + tail, false, text, doubled) == Split(text + word, tail)
  {
    if word == "" {
      assert word + tail == tail && text + word == text;
    } else {
      assert word[0] in word;
      assert (word + tail)[1..] == word[1..] + tail;
      ReadPlain(word[1..], text + [word[0]], tail, doubled);
      assert text + [word[0]] + word[1..] == text + word;
    }
  }

  lemma PlainWord(word: string, tail: string, doubled: DoubledQuotes)
    requires IsPlain(word) && word != "" && Ends(tail)
    ensures SplitArguments([' '] + (word + tail), doubled) == [word] + SplitArguments(tail, doubled)
  {
    var s := [' '] + (word + tail);
    assert s[1..] == word + tail && word[0] in word;
    ReadPlain(word, "", tail, doubled);
    assert "" + word == word;
  }

  lemma SkipSpace(rest: string, doubled: DoubledQuotes)
    ensures SplitArguments([' '] + rest, doubled) == SplitArguments(rest, doubled)
  {
    assert ([' '] + rest)[1..] == rest;
  }

  // The arguments after the program's name.
  lemma ConfigArguments(configPath: string, doubled: DoubledQuotes)
    ensures SplitArguments(" daemon --config " + QuotedArgument(configPath), doubled)
         == ["daemon", "--config", configPath]
  {
    hide SplitArguments;
    hide QuotedArgument;
    var quoted := QuotedArgument(configPath);
    var last := [' '] + quoted;
    var middle := [' '] + ("--config" + last);
    assert " daemon --config " + quoted == [' '] + ("daemon" + middle);
    PlainWord("daemon", middle, doubled);
    PlainWord("--config", last, doubled);
    LastArgument(configPath, doubled);
  }

  lemma LastArgument(configPath: string, doubled: DoubledQuotes)
    ensures SplitArguments([' '] + QuotedArgument(configPath), doubled) == [configPath]
  {
    assert SplitArguments("", doubled) == [];
    hide SplitArguments;
    hide QuotedArgument;
    var quoted := QuotedArgument(configPath);
    SkipSpace(quoted, doubled);
    assert quoted + "" == quoted;
    ArgumentRoundTrip(configPath, "", doubled);
  }

  // Splitting the whole command by the argument rules gives exactly the four arguments.
  lemma CommandRoundTrip(executablePath: string, configPath: string, doubled: DoubledQuotes)
    ensures SplitArguments(TaskCommand(executablePath, configPath), doubled)
         == [executablePath, "daemon", "--config", configPath]
  {
    var tail := " daemon --config " + QuotedArgument(configPath);
    assert TaskCommand(executablePath, configPath) == QuotedArgument(executablePath) + tail;
    ArgumentRoundTrip(executablePath, tail, doubled);
    ConfigArguments(configPath, doubled);
  }

  // ----- The rule for the program's own name -----

  predicate TakenLiterally(path: string) {
    QUOTE !in path && (path == "" || path[|path| - 1] != BACKSLASH)
  }

  // How many backslashes end `value` when it stands behind `n` of them.
  function Trailing(value: string, n: nat): (k: nat)
    ensures value != "" ==> (k == 0 <==> value[|value| - 1] != BACKSLASH)
  {
    if value == "" then n else Trailing(value[1..], if value[0] == BACKSLASH then n + 1 else 0)
  }

  // Without a quote in it, a text is only extended by its trailing backslashes.
  lemma {:induction false} QuotedWithoutQuote(value: string, n: nat)
    requires QUOTE !in value
    ensures Quoted(value, n) == Repeat(BACKSLASH, n) + value + (Repeat(BACKSLASH, Trailing(value, n)) + [QUOTE])
  {
    if value == "" {
      RepeatTwice(BACKSLASH, n);
      assert Repeat(BACKSLASH, n) + value == Repeat(BACKSLASH, n);
    } else {
      assert value == [value[0]] + value[1..];
      if value[0] == BACKSLASH {
        RepeatSnoc(BACKSLASH, n);
        QuotedWithoutQuote(value[1..], n + 1);
        assert Repeat(BACKSLASH, n + 1) + value[1..] == Repeat(BACKSLASH, n) + value;
      } else {
        QuotedWithoutQuote(value[1..], 0);
        assert Repeat(BACKSLASH, 0) + value[1..] == value[1..];
      }
    }
  }

  lemma {:induction false} RepeatTwice(c: char, n: nat)
    ensures Repeat(c, 2 * n) == Repeat(c, n) + Repeat(c, n)
  {
    if n > 0 {
      RepeatTwice(c, n - 1);
      RepeatSnoc(c, n - 1);
      RepeatSnoc(c, 2 * n - 2);
      RepeatSnoc(c, 2 * n - 1);
    }
  }

  lemma {:induction false} IndexOfAppend(head: string, more: string)
    requires QUOTE !in head
    ensures IndexOf(head + more, QUOTE) == |head| + IndexOf(more, QUOTE)
  {
    if head == "" {
      assert head + more == more;
    } else {
      assert head[0] in head;
      assert (head + more)[1..] == head[1..] + more;
      IndexOfAppend(head[1..], more);
    }
  }

  lemma FirstQuoteAfter(head: string, more: string)
    requires QUOTE !in head
    ensures IndexOf(head + ([QUOTE] + more), QUOTE) == |head|
    ensures (head + ([QUOTE] + more))[..|head|] == head
  {
    IndexOfAppend(head, [QUOTE] + more);
  }

  lemma LiteralFirst(body: string, doubled: DoubledQuotes)
    ensures SplitCommandLine([QUOTE] + body, doubled)
         == [body[..IndexOf(body, QUOTE)]]
            + SplitArguments(if IndexOf(body, QUOTE) < |body| then body[IndexOf(body, QUOTE) + 1..] else "", doubled)
  {
    assert ([QUOTE] + body)[1..] == body;
  }

  // The first quote of the quoted path is the closing one, right behind the path, just when the path
  // can be taken literally.
  lemma PathBeforeFirstQuote(path: string, tail: string)
    ensures var body := Quoted(path, 0) + tail;
            var n := IndexOf(body, QUOTE);
            && n < |body|
            && (body[..n] == path <==> TakenLiterally(path))
            && (TakenLiterally(path) ==> body[n + 1..] == tail)
  {
    var body := Quoted(path, 0) + tail;
    if QUOTE in path {
      QuotedHasQuote(path, 0);
      IndexOfMember(body, QUOTE);
    } else {
      var extra := Repeat(BACKSLASH, Trailing(path, 0));
      QuotedWithoutQuote(path, 0);
      assert body == (path + extra) + ([QUOTE] + tail);
      FirstQuoteAfter(path + extra, tail);
      hide Quoted;
      if extra == "" {
        assert path + extra == path;
      }
    }
  }

  lemma {:induction false} QuotedHasQuote(value: string, n: nat)
    ensures QUOTE in Quoted(value, n)
  {
    if value == "" {
      assert Quoted(value, n)[2 * n] == QUOTE;
    } else if value[0] == BACKSLASH {
      QuotedHasQuote(value[1..], n + 1);
    } else {
      QuotedHasQuote(value[1..], 0);
    }
  }

  lemma IndexOfMember(s: string, c: char)
    requires c in s
    ensures IndexOf(s, c) < |s|
  {
    assert s[..|s|] == s;
  }

  // Under the rule for the program's own name the command splits into the four arguments if and only
  // if the executable's path holds no quote and does not end in a backslash.
  lemma CommandLineRoundTrip(executablePath: string, configPath: string, doubled: DoubledQuotes)
    ensures SplitCommandLine(TaskCommand(executablePath, configPath), doubled)
         == [executablePath, "daemon", "--config", configPath]
       <==> TakenLiterally(executablePath)
  {
    hide SplitArguments;
    hide Quoted;
    hide SplitCommandLine;
    var tail := " daemon --config " + QuotedArgument(configPath);
    var body := Quoted(executablePath, 0) + tail;
    assert TaskCommand(executablePath, configPath) == [QUOTE] + body;
    PathBeforeFirstQuote(executablePath, tail);
    LiteralFirst(body, doubled);
    var words := SplitCommandLine(TaskCommand(executablePath, configPath), doubled);
    assert words[0] == body[..IndexOf(body, QUOTE)];
    if TakenLiterally(executablePath) {
      ConfigArguments(configPath, doubled);
      assert words == [executablePath] + ["daemon", "--config", configPath];
    }
  }

  // ----- systemd -----

  // Every occurrence of a character replaced by a text.
  function ReplaceAll(s: string, c: char, with: string): string {
    if s == "" then "" else (if s[0] == c then with else [s[0]]) + ReplaceAll(s[1..], c, with)
  }

  function Escaped(value: string): string {
    ReplaceAll(ReplaceAll(value, BACKSLASH, [BACKSLASH, BACKSLASH]), QUOTE, [BACKSLASH, QUOTE])
  }

  function QuoteSystemdArg(value: string): string {
    [QUOTE] + Escaped(value) + [QUOTE]
  }

  datatype Word = Word(text: string, rest: string) | Unterminated

  // The inside of a double-quoted word, in which a backslash escapes a quote or a backslash.
  function Unescape(s: string, text: string): Word {
    if s == "" then Unterminated
    else if s[0] == QUOTE then Word(text, s[1..])
    else if s[0] == BACKSLASH then
      if |s| >= 2 && (s[1] == QUOTE || s[1] == BACKSLASH) then Unescape(s[2..], text + [s[1]])
      else Unterminated
    else Unescape(s[1..], text + [s[0]])
  }

  function EscapedChar(c: char): string {
    if c == BACKSLASH then [BACKSLASH, BACKSLASH] else if c == QUOTE then [BACKSLASH, QUOTE] else [c]
  }

  lemma {:induction false} ReplaceAppend(a: string, b: string, c: char, with: string)
    ensures ReplaceAll(a + b, c, with) == ReplaceAll(a, c, with) + ReplaceAll(b, c, with)
  {
    if a == "" {
      assert a + b == b;
    } else {
      assert (a + b)[1..] == a[1..] + b;
      ReplaceAppend(a[1..], b, c, with);
    }
  }

  // The two passes do not interfere.
  lemma EscapedStep(value: string)
    requires value != ""
    ensures Escaped(value) == EscapedChar(value[0]) + Escaped(value[1..])
  {
    var first := if value[0] == BACKSLASH then [BACKSLASH, BACKSLASH] else [value[0]];
    ReplaceAppend(first, ReplaceAll(value[1..], BACKSLASH, [BACKSLASH, BACKSLASH]), QUOTE, [BACKSLASH, QUOTE]);
    assert first[1..] == if value[0] == BACKSLASH then [BACKSLASH] else [];
    assert ReplaceAll(first, QUOTE, [BACKSLASH, QUOTE]) == EscapedChar(value[0]);
  }

  lemma {:induction false} UnescapeEscaped(value: string, text: string, tail: string)
    ensures Unescape(Escaped(value) + ([QUOTE] + tail), text) == Word(text + value, tail)
  {
    if value == "" {
      assert Escaped(value) + ([QUOTE] + tail) == [QUOTE] + tail;
      assert ([QUOTE] + tail)[1..] == tail && text + value == text;
    } else {
      EscapedStep(value);
      var more := Escaped(value[1..]) + ([QUOTE] + tail);
      var s := EscapedChar(value[0]) + more;
      assert Escaped(value) + ([QUOTE] + tail) == s;
      UnescapeEscaped(value[1..], text + [value[0]], tail);
      assert text + [value[0]] + value[1..] == text + value;
      if |EscapedChar(value[0])| == 2 {
        assert s[2..] == more;
      } else {
        assert s[1..] == more;
      }
    }
  }

  lemma SystemdRoundTrip(value: string, tail: string)
    ensures var s := QuoteSystemdArg(value) + tail; s[0] == QUOTE && Unescape(s[1..], "") == Word(value, tail)
  {
    UnescapeEscaped(value, "", tail);
    assert (QuoteSystemdArg(value) + tail)[1..] == Escaped(value) + ([QUOTE] + tail);
    assert "" + value == value;
  }
}
