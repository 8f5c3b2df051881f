// Printing a job's log, or its last lines through a circular array.
module LogTail {
  import opened Modular

  // What the scanner delivers: the lines it read, and whether it then stopped on an error.
  datatype Scan = Scan(lines: seq<string>, failed: bool)

  function Last(lines: seq<string>, n: nat): seq<string> {
    if |lines| <= n then lines else lines[|lines| - n..]
  }

  // After `count` lines each slot holds the latest line that belongs there.
  ghost predicate HoldsLatest(slots: seq<string>, lines: seq<string>, count: nat)
    requires count <= |lines| && |slots| > 0
  {
    forall k | 0 <= k < count && count <= k + |slots| :: slots[k % |slots|] == lines[k]
  }

  lemma Overwrite(slots: seq<string>, lines: seq<string>, count: nat)
    requires count < |lines| && |slots| > 0 && HoldsLatest(slots, lines, count)
    ensures HoldsLatest(slots[count % |slots| := lines[count]], lines, count + 1)
    ensures (count + 1) % |slots| == (count % |slots| + 1) % |slots|
  {
    var n := |slots|;
    forall k | 0 <= k < count && count + 1 <= k + n
      ensures k % n != count % n
    {
      Turn(k, count - k, n);
    }
    Turn(count, 1, n);
    Turn(count % n, 1, n);
    Remainder(count % n, 0, n, count % n);
  }

  // Reading out from the oldest slot visits the kept lines in order.
  lemma ReadOut(slots: seq<string>, lines: seq<string>, i: nat)
    requires |slots| > 0 && HoldsLatest(slots, lines, |lines|) && i < |Last(lines, |slots|)|
    ensures var start := if |lines| > |slots| then |lines| % |slots| else 0;
            slots[(start + i) % |slots|] == Last(lines, |slots|)[i]
  {
    if |lines| > |slots| {
      SameSlot(|lines| - |slots|, i, |slots|);
    }
  }

  // Counting on from the oldest line, in slots and in lines.
  lemma SameSlot(first: nat, i: nat, n: nat)
    requires i < n
    ensures ((first + n) % n + i) % n == (first + i) % n
  {
    Turn(first, n, n);
    Turn(first, i, n);
    var r := first % n;
    if r + i < n {
      Remainder(r + i, 0, n, r + i);
    } else {
      Remainder(r + i, 1, n, r + i - n);
    }
  }

  lemma InRange(k: nat, n: nat)
    requires n > 0
    ensures 0 <= k % n < n
  {
  }

  // The reading loop: each line overwrites the slot after that of the line before it.
  method FillRing(slots: array<string>, lines: seq<string>) returns (nextLine: nat, lineCount: nat)
    requires slots.Length > 0
    modifies slots
    ensures lineCount == |lines| && nextLine == |lines| % slots.Length && HoldsLatest(slots[..], lines, |lines|)
  {
    nextLine, lineCount := 0, 0;
    Remainder(0, 0, slots.Length, 0);
    assert HoldsLatest(slots[..], lines, 0);
    hide HoldsLatest;
    while lineCount < |lines|
      invariant lineCount <= |lines| && nextLine == lineCount % slots.Length
      invariant HoldsLatest(slots[..], lines, lineCount)
    {
      InRange(lineCount, slots.Length);
      InRange(nextLine + 1, slots.Length);
      ghost var before := slots[..];
      Overwrite(before, lines, lineCount);
      slots[nextLine] := lines[lineCount];
      assert slots[..] == before[nextLine := lines[lineCount]];
      nextLine := (nextLine + 1) % slots.Length;
      lineCount := lineCount + 1;
    }
  }

  // Everything for a non-positive count. Otherwise the last lines in order -- or nothing at all when
  // the scan fails, since nothing is printed before it is over.
  method PrintLogFile(file: Scan, tail: int) returns (printed: seq<string>, ok: bool)
    ensures ok == !file.failed
    ensures printed == if tail <= 0 then file.lines else if file.failed then [] else Last(file.lines, tail)
  {
    ok := !file.failed;
    printed := [];
    if tail <= 0 {
      for i := 0 to |file.lines|
        invariant printed == file.lines[..i]
      {
        printed := printed + [file.lines[i]];
      }
      return;
    }
    var lines := new string[tail](_ => "");
    var nextLine, lineCount := FillRing(lines, file.lines);
    if file.failed {
      return;
    }
    hide HoldsLatest;
    var start := 0;
    var linesToPrint := lineCount;
    if linesToPrint > tail {
      linesToPrint := tail;
      start := nextLine;
    }
    ghost var slots := lines[..];
    for i := 0 to linesToPrint
      invariant lines[..] == slots
      invariant printed == Last(file.lines, tail)[..i]
    {
      ReadOut(slots, file.lines, i);
      InRange(start + i, tail);
      printed := printed + [lines[(start + i) % tail]];
    }
  }
}
