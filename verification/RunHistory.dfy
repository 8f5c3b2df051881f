// The run history: one append-only text file per job, pruned by rewriting it.
module RunHistory {
  import opened Options

  // A run, the time it started at, and the length of its record as text.
  datatype Run = Run(id: string, startedAt: int, size: nat)

  // A line of a file: its length, and the run it holds unless it is malformed.
  datatype Line = Line(content: Option<Run>, size: nat)

  // `torn` says that the last line was cut off before its end.
  datatype File = File(lines: seq<Line>, torn: bool)

  const NO_FILE := File([], false)

  // The longest line that the scanner accepts.
  const MAX_LINE := 65535

  // A file left by writes that all finished, or one whose last line a crash cut off.
  predicate IsFile(f: File) {
    f.torn ==> f.lines != [] && f.lines[|f.lines| - 1].size > 0
  }

  function Record(run: Run): Line {
    Line(Some(run), run.size)
  }

  // ----- Order -----

  function Insert(runs: seq<Run>, run: Run): seq<Run> {
    if runs == [] || run.startedAt > runs[0].startedAt then [run] + runs else [runs[0]] + Insert(runs[1..], run)
  }

  // Newest first. For different start times this is what any sort returns.
  function Newest(runs: seq<Run>): seq<Run> {
    if runs == [] then [] else Insert(Newest(runs[..|runs| - 1]), runs[|runs| - 1])
  }

  predicate StrictlyNewestFirst(runs: seq<Run>) {
    forall i, j | 0 <= i < j < |runs| :: runs[i].startedAt > runs[j].startedAt
  }

  predicate DistinctTimes(runs: seq<Run>) {
    forall i, j | 0 <= i < j < |runs| :: runs[i].startedAt != runs[j].startedAt
  }

  function Take<T>(s: seq<T>, n: int): seq<T>
    requires n >= 0
  {
    if n >= |s| then s else s[..n]
  }

  // ----- Reading -----

  function Records(lines: seq<Line>): seq<Run> {
    if lines == [] then []
    else
      var last := lines[|lines| - 1];
      Records(lines[..|lines| - 1]) + (if last.size > 0 && last.content.Some? then [last.content.value] else [])
  }

  predicate IsReadable(f: File) {
    forall line | line in f.lines :: line.size <= MAX_LINE
  }

  function ReadAll(f: File): Option<seq<Run>> {
    if IsReadable(f) then Some(Newest(Records(f.lines))) else None
  }

  function CountLines(lines: seq<Line>): nat {
    if lines == [] then 0
    else CountLines(lines[..|lines| - 1]) + (if lines[|lines| - 1].size > 0 then 1 else 0)
  }

  // ----- Writing -----

  // A record is written behind whatever is there: after a torn line it runs on from the fragment,
  // and the two together are not a record.
  function AppendRun(f: File, run: Run): File {
    if f.torn && f.lines != [] then
      var n := |f.lines| - 1;
      File(f.lines[..n] + [Line(None, f.lines[n].size + run.size)], false)
    else File(f.lines + [Record(run)], false)
  }

  // The same write, cut off by a crash after `written` characters.
  function AppendTorn(f: File, run: Run, written: nat): File
    requires 0 < written <= run.size
  {
    if f.torn && f.lines != [] then
      var n := |f.lines| - 1;
      File(f.lines[..n] + [Line(None, f.lines[n].size + written)], true)
    else File(f.lines + [Line(if written == run.size then Some(run) else None, written)], true)
  }

  function AsLines(runs: seq<Run>): seq<Line> {
    if runs == [] then [] else AsLines(runs[..|runs| - 1]) + [Record(runs[|runs| - 1])]
  }

  datatype Pruned = Removed(n: nat) | Unreadable | Panicked

  // A negative count makes a slice out of range.
  function PruneResult(f: File, keep: int): Pruned {
    match ReadAll(f)
    case None => Unreadable
    case Some(runs) =>
      if |runs| <= keep then Removed(0) else if keep < 0 then Panicked else Removed(|runs| - keep)
  }

  function PruneFile(f: File, keep: int): File {
    match ReadAll(f)
    case None => f
    case Some(runs) => if |runs| <= keep || keep < 0 then f else File(AsLines(Take(runs, keep)), false)
  }

  // The same rewriting, cut off by a crash after `m` records and `written` characters of the next one.
  function PruneTorn(f: File, keep: nat, m: nat, written: nat): File
    requires ReadAll(f).Some? && m < keep < |ReadAll(f).value| && written <= ReadAll(f).value[m].size
  {
    var runs := ReadAll(f).value;
    var line := Line(if written == runs[m].size then Some(runs[m]) else None, written);
    if written == 0 then File(AsLines(runs[..m]), false) else File(AsLines(runs[..m]) + [line], true)
  }

  // The files of all jobs. `locked` stands for a lock file that another process holds.
  class RunStore {
    var files: map<string, File>

    constructor ()
      ensures files == map[]
    {
      files := map[];
    }

    function FileOf(jobID: string): File
      reads this
    {
      if jobID in files then files[jobID] else NO_FILE
    }

    method Append(jobID: string, run: Run, locked: bool) returns (ok: bool)
      modifies this
      ensures ok == !locked
      ensures files == if ok then old(files)[jobID := AppendRun(old(FileOf(jobID)), run)] else old(files)
    {
      if locked {
        return false;
      }
      files := files[jobID := AppendRun(FileOf(jobID), run)];
      return true;
    }

    method ReadRuns(jobID: string) returns (runs: Option<seq<Run>>)
      ensures runs == ReadAll(FileOf(jobID))
    {
      var lines := FileOf(jobID).lines;
      var found: seq<Run> := [];
      for i := 0 to |lines|
        invariant forall k | 0 <= k < i :: lines[k].size <= MAX_LINE
        invariant found == Records(lines[..i])
      {
        assert lines[..i + 1][..i] == lines[..i];
        var line := lines[i];
        if line.size > MAX_LINE {
          return None;
        }
        if line.size == 0 {
          continue;
        }
        if line.content.None? {
          continue;
        }
        found := found + [line.content.value];
      }
      assert lines[..|lines|] == lines;
      return Some(Newest(found));
    }

    // The most recent run, if there is one; None when the file cannot be read.
    method Latest(jobID: string) returns (latest: Option<Option<Run>>)
      ensures match ReadAll(FileOf(jobID))
              case None => latest == None
              case Some(runs) => latest == Some(if runs == [] then None else Some(runs[0]))
    {
      var runs := ReadRuns(jobID);
      if runs.None? {
        return None;
      }
      if |runs.value| == 0 {
        return Some(None);
      }
      return Some(Some(runs.value[0]));
    }

    method Count(jobID: string) returns (count: Option<nat>)
      ensures count == if IsReadable(FileOf(jobID)) then Some(CountLines(FileOf(jobID).lines)) else None
    {
      var lines := FileOf(jobID).lines;
      var n := 0;
      for i := 0 to |lines|
        invariant forall k | 0 <= k < i :: lines[k].size <= MAX_LINE
        invariant n == CountLines(lines[..i])
      {
        assert lines[..i + 1][..i] == lines[..i];
        if lines[i].size > MAX_LINE {
          return None;
        }
        if lines[i].size > 0 {
          n := n + 1;
        }
      }
      assert lines[..|lines|] == lines;
      return Some(n);
    }

    method Prune(jobID: string, keep: int, locked: bool) returns (r: Option<Pruned>)
      modifies this
      ensures r == if locked then None else Some(PruneResult(old(FileOf(jobID)), keep))
      ensures forall id | id != jobID :: FileOf(id) == old(FileOf(id))
      ensures FileOf(jobID) == if locked then old(FileOf(jobID)) else PruneFile(old(FileOf(jobID)), keep)
    {
      if locked {
        return None;
      }
      var read := ReadRuns(jobID);
      if read.None? {
        return Some(Unreadable);
      }
      var runs := read.value;
      if |runs| <= keep {
        return Some(Removed(0));
      }
      if keep < 0 {
        return Some(Panicked);
      }
      var pruned := runs[keep..];
      runs := runs[..keep];
      var removed := |pruned|;
      var lines: seq<Line> := [];
      for i := 0 to |runs|
        invariant lines == AsLines(runs[..i])
      {
        assert runs[..i + 1][..i] == runs[..i];
        lines := lines + [Record(runs[i])];
      }
      assert runs[..|runs|] == runs;
      files := files[jobID := File(lines, false)];
      return Some(Removed(removed));
    }
  }

  // ----- Sorting -----

  lemma {:induction false} InsertIsInsertion(runs: seq<Run>, run: Run)
    ensures multiset(Insert(runs, run)) == multiset(runs) + multiset{run}
    ensures forall r :: r in Insert(runs, run) <==> r in runs || r == run
  {
    if runs != [] && run.startedAt <= runs[0].startedAt {
      InsertIsInsertion(runs[1..], run);
      assert runs == [runs[0]] + runs[1..];
    }
  }

  lemma {:induction false} InsertKeeps(runs: seq<Run>, run: Run)
    requires StrictlyNewestFirst(runs) && forall r | r in runs :: r.startedAt != run.startedAt
    ensures StrictlyNewestFirst(Insert(runs, run))
  {
    if runs != [] && run.startedAt <= runs[0].startedAt {
      InsertKeeps(runs[1..], run);
      InsertIsInsertion(runs[1..], run);
      Prepend(runs[0], Insert(runs[1..], run));
    }
  }

  lemma Prepend(run: Run, rest: seq<Run>)
    requires StrictlyNewestFirst(rest) && forall r | r in rest :: r.startedAt < run.startedAt
    ensures StrictlyNewestFirst([run] + rest)
  {
  }

  // Reading gives the runs, each once, strictly newest first.
  lemma {:induction false} NewestIsSorted(runs: seq<Run>)
    requires DistinctTimes(runs)
    ensures StrictlyNewestFirst(Newest(runs)) && multiset(Newest(runs)) == multiset(runs)
  {
    if runs != [] {
      var n := |runs| - 1;
      assert runs == runs[..n] + [runs[n]];
      NewestIsSorted(runs[..n]);
      forall r | r in Newest(runs[..n])
        ensures r.startedAt != runs[n].startedAt
      {
        assert r in multiset(runs[..n]);
      }
      InsertKeeps(Newest(runs[..n]), runs[n]);
      InsertIsInsertion(Newest(runs[..n]), runs[n]);
    }
  }

  // The order is the only one: whatever sorting routine is used, it returns `Newest`.
  lemma {:induction false} OnlyOneOrder(a: seq<Run>, b: seq<Run>)
    requires StrictlyNewestFirst(a) && StrictlyNewestFirst(b) && multiset(a) == multiset(b)
    ensures a == b
  {
    if a == [] {
      assert |multiset(b)| == 0;
    } else {
      assert |multiset(a)| == |multiset(b)|;
      SameHead(a, b);
      assert a == [a[0]] + a[1..] && b == [b[0]] + b[1..];
      assert multiset(a[1..]) == multiset(a) - multiset{a[0]};
      assert multiset(b[1..]) == multiset(b) - multiset{b[0]};
      hide StrictlyNewestFirst;
      OnlyOneOrder(a[1..], b[1..]);
    }
  }

  lemma SameHead(a: seq<Run>, b: seq<Run>)
    requires StrictlyNewestFirst(a) && StrictlyNewestFirst(b) && multiset(a) == multiset(b) && a != [] && b != []
    ensures a[0] == b[0]
    ensures StrictlyNewestFirst(a[1..]) && StrictlyNewestFirst(b[1..])
  {
    assert a[0] in multiset(b) && b[0] in multiset(a);
    assert a[0] in b && b[0] in a;
  }

  lemma {:induction false} InsertLast(runs: seq<Run>, run: Run)
    requires forall r | r in runs :: r.startedAt > run.startedAt
    ensures Insert(runs, run) == runs + [run]
  {
    if runs != [] {
      InsertLast(runs[1..], run);
      assert runs == [runs[0]] + runs[1..];
    }
  }

  lemma {:induction false} NewestOfSorted(runs: seq<Run>)
    requires StrictlyNewestFirst(runs)
    ensures Newest(runs) == runs
  {
    if runs != [] {
      var n := |runs| - 1;
      NewestOfSorted(runs[..n]);
      InsertLast(runs[..n], runs[n]);
    }
  }

  // The newest few after an insertion depend only on the newest few before it.
  lemma {:induction false} TakeInsert(runs: seq<Run>, run: Run, n: nat)
    ensures Take(Insert(runs, run), n) == Take(Insert(Take(runs, n), run), n)
  {
    if n > 0 && runs != [] {
      assert Take(runs, n)[0] == runs[0];
      if run.startedAt <= runs[0].startedAt {
        TakeInsert(runs[1..], run, n - 1);
        assert Take(runs, n)[1..] == Take(runs[1..], n - 1);
        assert Take([runs[0]] + Insert(runs[1..], run), n) == [runs[0]] + Take(Insert(runs[1..], run), n - 1);
      }
    }
  }

  lemma {:induction false} InsertLength(runs: seq<Run>, run: Run)
    ensures |Insert(runs, run)| == |runs| + 1
  {
    if runs != [] {
      InsertLength(runs[1..], run);
    }
  }

  lemma {:induction false} NewestLength(runs: seq<Run>)
    ensures |Newest(runs)| == |runs|
  {
    if runs != [] {
      NewestLength(runs[..|runs| - 1]);
      InsertLength(Newest(runs[..|runs| - 1]), runs[|runs| - 1]);
    }
  }

  // ----- Files -----

  lemma {:induction false} RecordsOfLines(runs: seq<Run>)
    requires forall r | r in runs :: r.size > 0
    ensures Records(AsLines(runs)) == runs
    ensures forall line | line in AsLines(runs) :: exists r | r in runs :: line == Record(r)
  {
    if runs != [] {
      var n := |runs| - 1;
      RecordsOfLines(runs[..n]);
      assert AsLines(runs)[..|AsLines(runs)| - 1] == AsLines(runs[..n]);
      assert runs == runs[..n] + [runs[n]];
      assert runs[n] in runs;
    }
  }

  lemma RecordsOfAppend(lines: seq<Line>, line: Line)
    ensures Records(lines + [line]) == Records(lines) + (if line.size > 0 && line.content.Some? then [line.content.value] else [])
  {
    assert (lines + [line])[..|lines|] == lines;
  }

  // ----- Histories -----

  // A complete write, one that a crash cuts off after `written` characters, and a pruning.
  datatype Op = Append(run: Run) | Torn(run: Run, written: nat) | Prune(keep: int)

  predicate IsOp(op: Op) {
    match op
    case Append(run) => 0 < run.size
    case Torn(run, written) => 0 < written <= run.size
    case Prune(keep) => true
  }

  function Apply(f: File, op: Op): File
    requires IsOp(op)
  {
    match op
    case Append(run) => AppendRun(f, run)
    case Torn(run, written) => AppendTorn(f, run, written)
    case Prune(keep) => PruneFile(f, keep)
  }

  predicate AreOps(ops: seq<Op>) {
    forall op | op in ops :: IsOp(op)
  }

  function ApplyAll(f: File, ops: seq<Op>): File
    requires AreOps(ops)
  {
    if ops == [] then f else Apply(ApplyAll(f, ops[..|ops| - 1]), ops[|ops| - 1])
  }

  // Every run there was at first and every run whose record was begun since.
  function Ever(f: File, ops: seq<Op>): seq<Run> {
    if ops == [] then Records(f.lines)
    else
      var last := ops[|ops| - 1];
      Ever(f, ops[..|ops| - 1]) + (if last.Prune? then [] else [last.run])
  }

  predicate PrunesKeep(ops: seq<Op>, keep: nat) {
    forall op | op in ops :: op.Prune? ==> op.keep >= keep
  }

  // What crashes leave of a history, told without the file. `safe` holds the runs that no crash can
  // undo any more; `loose` is a run whose record is complete but for the end of its line, so that
  // the next write spoils it; `tail` is the length of the unfinished line, 0 if there is none;
  // `listed` is the number of runs in the listing; `readable` says that no line is too long.
  datatype Past = Past(safe: seq<Run>, loose: Option<Run>, tail: nat, listed: nat, readable: bool)

  function Survivors(p: Past): seq<Run> {
    p.safe + Listed(p.loose)
  }

  function Listed(r: Option<Run>): (s: seq<Run>)
    ensures |s| <= 1
  {
    if r.Some? then [r.value] else []
  }

  // A write of `written` characters, with or without the end of the line.
  function AfterWrite(p: Past, run: Run, written: nat, ended: bool): Past {
    var tail := if ended then 0 else p.tail + written;
    var readable := p.readable && p.tail + written <= MAX_LINE;
    if p.tail > 0 then Past(p.safe, None, tail, if p.loose.Some? && p.listed > 0 then p.listed - 1 else p.listed, readable)
    else if written < run.size then Past(p.safe, None, tail, p.listed, readable)
    else if ended then Past(p.safe + [run], None, tail, p.listed + 1, readable)
    else Past(p.safe, Some(run), tail, p.listed + 1, readable)
  }

  // A pruning that removes something rewrites the file, and what is left is safe.
  function AfterOp(p: Past, op: Op): Past {
    match op
    case Append(run) => AfterWrite(p, run, run.size, true)
    case Torn(run, written) => AfterWrite(p, run, written, false)
    case Prune(keep) =>
      if !p.readable || p.listed <= keep || keep < 0 then p else Past(Survivors(p), None, 0, keep, true)
  }

  // What comes before the unfinished line, the run on that line, and the line's length.
  function SafeLines(f: File): seq<Line>
    requires IsFile(f)
  {
    if f.torn then f.lines[..|f.lines| - 1] else f.lines
  }

  function LooseRun(f: File): Option<Run>
    requires IsFile(f)
  {
    if f.torn then f.lines[|f.lines| - 1].content else None
  }

  function TailOf(f: File): nat
    requires IsFile(f)
  {
    if f.torn then f.lines[|f.lines| - 1].size else 0
  }

  function PastOf(f: File, ops: seq<Op>): Past
    requires IsFile(f)
  {
    if ops == [] then Past(Records(SafeLines(f)), LooseRun(f), TailOf(f), |Records(f.lines)|, true)
    else AfterOp(PastOf(f, ops[..|ops| - 1]), ops[|ops| - 1])
  }

  predicate Fits(run: Run) {
    0 < run.size <= MAX_LINE
  }

  // A file that can be read, and whose records are what they say; the last may lack its end.
  predicate IsSound(f: File) {
    IsFile(f) && IsReadable(f) && forall line | line in f.lines :: line.content.Some? ==> line == Record(line.content.value)
  }

  lemma RecordsSplit(f: File)
    requires IsFile(f)
    ensures Records(f.lines) == Records(SafeLines(f)) + Listed(LooseRun(f))
  {
  }

  lemma {:induction false} RecordsFit(lines: seq<Line>, run: Run)
    requires IsSound(File(lines, false)) && run in Records(lines)
    ensures Fits(run)
  {
    var n := |lines| - 1;
    assert lines[n] in lines;
    if lines[n].size == 0 || lines[n].content.None? || run != lines[n].content.value {
      assert forall line | line in lines[..n] :: line in lines;
      RecordsFit(lines[..n], run);
    }
  }

  // Pruning keeps the newest and returns the number of the others.
  lemma PruneKeepsNewest(f: File, keep: nat)
    requires IsSound(f) && DistinctTimes(Records(f.lines))
    ensures IsSound(PruneFile(f, keep))
    ensures ReadAll(PruneFile(f, keep)) == Some(Take(ReadAll(f).value, keep))
    ensures PruneResult(f, keep)
         == Removed(|ReadAll(f).value| - |ReadAll(PruneFile(f, keep)).value|)
  {
    hide Newest, Records, AsLines, DistinctTimes, StrictlyNewestFirst;
    NewestLength(Records(f.lines));
    if |Newest(Records(f.lines))| > keep {
      KeptLines(f, keep);
      hide IsSound, IsReadable;
    }
  }

  // The rewritten file holds the newest runs in order.
  lemma KeptLines(f: File, keep: nat)
    requires IsSound(f) && DistinctTimes(Records(f.lines)) && |Newest(Records(f.lines))| > keep
    ensures var kept := Newest(Records(f.lines))[..keep];
            && PruneFile(f, keep) == File(AsLines(kept), false)
            && Records(AsLines(kept)) == kept && Newest(kept) == kept
            && IsSound(File(AsLines(kept), false)) && IsReadable(File(AsLines(kept), false))
  {
    hide Records, Newest, AsLines, DistinctTimes;
    KeptFit(f, keep);
    SoundLines(Newest(Records(f.lines))[..keep]);
  }

  lemma KeptFit(f: File, keep: nat)
    requires IsSound(f) && DistinctTimes(Records(f.lines)) && keep <= |Newest(Records(f.lines))|
    ensures var kept := Newest(Records(f.lines))[..keep];
            Newest(kept) == kept && forall r | r in kept :: Fits(r)
  {
    hide Records, Newest, DistinctTimes;
    var runs := Newest(Records(f.lines));
    NewestIsSorted(Records(f.lines));
    var kept := runs[..keep];
    NewestOfSorted(kept);
    forall r | r in kept
      ensures Fits(r)
    {
      assert r in multiset(runs);
      RecordsFit(f.lines, r);
    }
  }

  lemma SoundLines(runs: seq<Run>)
    requires forall r | r in runs :: Fits(r)
    ensures var f := File(AsLines(runs), false); IsSound(f) && IsReadable(f) && Records(f.lines) == runs
  {
    RecordsOfLines(runs);
  }

  // ----- Main results -----

  // The same `keep` newest runs, and no others.
  predicate SameNewest(runs: seq<Run>, all: seq<Run>, keep: nat) {
    Take(Newest(runs), keep) == Take(Newest(all), keep) && multiset(runs) <= multiset(all)
  }

  lemma SameNewestAppend(runs: seq<Run>, all: seq<Run>, keep: nat, run: Run)
    requires SameNewest(runs, all, keep)
    ensures SameNewest(runs + [run], all + [run], keep)
  {
    assert (runs + [run])[..|runs|] == runs && (all + [run])[..|all|] == all;
    TakeInsert(Newest(runs), run, keep);
    TakeInsert(Newest(all), run, keep);
  }

  lemma SameNewestKept(runs: seq<Run>, all: seq<Run>, keep: nat, k: nat)
    requires SameNewest(runs, all, keep) && DistinctTimes(runs) && keep <= k <= |Newest(runs)|
    requires Newest(Newest(runs)[..k]) == Newest(runs)[..k]
    ensures SameNewest(Newest(runs)[..k], all, keep)
  {
    hide Newest, DistinctTimes, StrictlyNewestFirst;
    var newest := Newest(runs);
    NewestIsSorted(runs);
    assert Take(newest[..k], keep) == Take(newest, keep);
    PrefixOfSequence(newest, k);
  }

  // How a file and its past agree: on whether it can be read, and then on the unfinished line, on the
  // number of runs, and on the `keep` newest of those that are safe.
  predicate Agree(f: File, p: Past, keep: nat) {
    && p.readable == IsReadable(f)
    && (p.readable ==>
          && IsSound(f) && p.tail == TailOf(f) && p.loose == LooseRun(f) && p.listed == |Records(f.lines)|
          && SameNewest(Records(SafeLines(f)), p.safe, keep))
  }

  // One line replaces what comes after `n` lines of a file.
  lemma LastLine(f: File, n: nat, line: Line, torn: bool)
    requires IsSound(f) && n <= |f.lines| && line.size > 0
    requires line.content.Some? ==> line == Record(line.content.value)
    ensures var g := File(f.lines[..n] + [line], torn);
            && IsReadable(g) == (line.size <= MAX_LINE)
            && (line.size <= MAX_LINE ==> IsSound(g))
            && Records(g.lines) == Records(f.lines[..n]) + Listed(line.content)
            && SafeLines(g) == (if torn then f.lines[..n] else g.lines)
            && LooseRun(g) == (if torn then line.content else None) && TailOf(g) == (if torn then line.size else 0)
  {
    var g := File(f.lines[..n] + [line], torn);
    RecordsOfAppend(f.lines[..n], line);
    hide Records;
    assert forall l | l in f.lines[..n] :: l in f.lines;
    assert line in g.lines && forall l | l in g.lines :: l in f.lines || l == line;
    assert g.lines[..n] == f.lines[..n];
  }

  // A write behind a finished line.
  lemma WriteBehind(f: File, p: Past, keep: nat, run: Run, written: nat, ended: bool)
    requires Agree(f, p, keep) && p.readable && !f.torn && 0 < written <= run.size && (ended ==> written == run.size)
    ensures Agree(if ended then AppendRun(f, run) else AppendTorn(f, run, written), AfterWrite(p, run, written, ended), keep)
  {
    hide IsReadable, Records, SameNewest;
    LastLine(f, |f.lines|, Line(if written == run.size then Some(run) else None, written), !ended);
    assert f.lines[..|f.lines|] == f.lines;
    hide IsSound;
    SameNewestAppend(Records(f.lines), p.safe, keep, run);
  }

  // A write that runs on from an unfinished line.
  lemma WriteInto(f: File, p: Past, keep: nat, run: Run, written: nat, ended: bool)
    requires Agree(f, p, keep) && p.readable && f.torn && 0 < written <= run.size && (ended ==> written == run.size)
    ensures Agree(if ended then AppendRun(f, run) else AppendTorn(f, run, written), AfterWrite(p, run, written, ended), keep)
  {
    hide SameNewest, Records, IsReadable;
    var n := |f.lines| - 1;
    LastLine(f, n, Line(None, f.lines[n].size + written), !ended);
    RecordsSplit(f);
    assert Records(f.lines[..n]) + [] == Records(f.lines[..n]);
    hide IsSound;
  }

  lemma PruneAgrees(f: File, p: Past, keep: nat, k: int)
    requires Agree(f, p, keep) && p.readable && k >= keep && DistinctTimes(Survivors(p))
    ensures Agree(PruneFile(f, k), AfterOp(p, Prune(k)), keep)
  {
    hide Newest, Records, AsLines, DistinctTimes;
    NewestLength(Records(f.lines));
    if p.listed > k {
      SurvivorsAgree(f, p, keep);
      SubsetDistinct(Records(f.lines), Survivors(p));
      KeptLines(f, k);
      SameNewestKept(Records(f.lines), Survivors(p), keep, k);
    }
    hide IsSound, IsReadable, SameNewest;
  }

  // The listing agrees as well: the loose run, if any, counts until it is spoilt.
  lemma SurvivorsAgree(f: File, p: Past, keep: nat)
    requires Agree(f, p, keep) && p.readable
    ensures SameNewest(Records(f.lines), Survivors(p), keep)
  {
    RecordsSplit(f);
    var safe := Records(SafeLines(f));
    hide IsSound, Records, SameNewest;
    if p.loose.Some? {
      SameNewestAppend(safe, p.safe, keep, p.loose.value);
    } else {
      assert safe + [] == safe && p.safe + [] == p.safe;
    }
  }

  // A file that cannot be read stays so: a line never gets shorter, and no pruning takes place.
  lemma UnreadableStays(f: File, op: Op)
    requires !IsReadable(f) && IsOp(op)
    ensures !IsReadable(Apply(f, op))
  {
    var g := Apply(f, op);
    var i :| 0 <= i < |f.lines| && f.lines[i].size > MAX_LINE;
    assert g.lines[i] in g.lines && g.lines[i].size >= f.lines[i].size;
  }

  lemma OpAgrees(f: File, p: Past, keep: nat, op: Op)
    requires Agree(f, p, keep) && IsOp(op) && (op.Prune? ==> op.keep >= keep) && DistinctTimes(Survivors(p))
    ensures Agree(Apply(f, op), AfterOp(p, op), keep)
  {
    if !p.readable {
      UnreadableStays(f, op);
    } else {
      match op
      case Append(run) => if f.torn { WriteInto(f, p, keep, run, run.size, true); } else { WriteBehind(f, p, keep, run, run.size, true); }
      case Torn(run, n) => if f.torn { WriteInto(f, p, keep, run, n, false); } else { WriteBehind(f, p, keep, run, n, false); }
      case Prune(k) => PruneAgrees(f, p, keep, k);
    }
  }

  lemma {:induction false} SurvivorsWereBegun(f: File, ops: seq<Op>)
    requires IsFile(f)
    ensures multiset(Survivors(PastOf(f, ops))) <= multiset(Ever(f, ops))
  {
    if ops == [] {
      RecordsSplit(f);
    } else {
      SurvivorsWereBegun(f, ops[..|ops| - 1]);
      NoOthersSurvive(PastOf(f, ops[..|ops| - 1]), ops[|ops| - 1]);
    }
  }

  lemma NoOthersSurvive(p: Past, op: Op)
    ensures multiset(Survivors(AfterOp(p, op))) <= multiset(Survivors(p) + (if op.Prune? then [] else [op.run]))
  {
    WhoSurvives(p, op);
    var rest := Listed(p.loose);
    var run := if op.Prune? then [] else [op.run];
    assert multiset(p.safe + rest + run) == multiset(p.safe) + multiset(rest) + multiset(run);
    assert multiset(p.safe + run) == multiset(p.safe) + multiset(run);
    hide AfterOp, Listed;
  }

  lemma WhoSurvives(p: Past, op: Op)
    ensures var q, run := Survivors(AfterOp(p, op)), if op.Prune? then [] else [op.run];
            q == p.safe || q == p.safe + run || q == p.safe + Listed(p.loose) + run
  {
  }

  lemma {:induction false} HistoryAgrees(f: File, ops: seq<Op>, keep: nat)
    requires IsSound(f) && AreOps(ops) && PrunesKeep(ops, keep) && DistinctTimes(Ever(f, ops))
    ensures Agree(ApplyAll(f, ops), PastOf(f, ops), keep)
  {
    if ops != [] {
      var n := |ops| - 1;
      assert ops[n] in ops && forall op | op in ops[..n] :: op in ops;
      EverPrefix(f, ops);
      HistoryAgrees(f, ops[..n], keep);
      SurvivorsWereBegun(f, ops[..n]);
      SubsetDistinct(Survivors(PastOf(f, ops[..n])), Ever(f, ops[..n]));
      OpAgrees(ApplyAll(f, ops[..n]), PastOf(f, ops[..n]), keep, ops[n]);
    }
  }

  // After any appends, crashes in the middle of one, and prunings keeping at least `keep` runs: the
  // file can be read exactly when no line has become too long, and then the `keep` newest runs that
  // survived the crashes are the first that are listed.
  lemma NewestAreKept(f: File, ops: seq<Op>, keep: nat)
    requires IsSound(f) && AreOps(ops) && PrunesKeep(ops, keep) && DistinctTimes(Ever(f, ops))
    ensures var listing, p := ReadAll(ApplyAll(f, ops)), PastOf(f, ops);
            && listing.Some? == p.readable
            && (listing.Some? ==>
                  && StrictlyNewestFirst(listing.value)
                  && Take(listing.value, keep) == Take(Newest(Survivors(p)), keep)
                  && multiset(listing.value) <= multiset(Survivors(p)))
  {
    HistoryAgrees(f, ops, keep);
    var g, p := ApplyAll(f, ops), PastOf(f, ops);
    if p.readable {
      SurvivorsAgree(g, p, keep);
      SurvivorsWereBegun(f, ops);
      SubsetDistinct(Records(g.lines), Ever(f, ops));
      NewestIsSorted(Records(g.lines));
    }
  }

  // Without a crash every run survives, and the file can be read exactly when every record fits.
  lemma {:induction false} NoCrashNoLoss(f: File, ops: seq<Op>)
    requires IsFile(f) && !f.torn && AreOps(ops) && forall op | op in ops :: !op.Torn?
    ensures Survivors(PastOf(f, ops)) == Ever(f, ops) && PastOf(f, ops).tail == 0 && PastOf(f, ops).loose == None
    ensures PastOf(f, ops).readable <==> forall op | op in ops && op.Append? :: Fits(op.run)
  {
    if ops == [] {
      assert Records(f.lines) + [] == Records(f.lines);
    } else {
      var n := |ops| - 1;
      assert forall op :: op in ops <==> op in ops[..n] || op == ops[n];
      NoCrashNoLoss(f, ops[..n]);
      var p := PastOf(f, ops[..n]);
      assert Survivors(p) == p.safe;
      assert p.safe + [] == p.safe;
    }
  }

  function Crashes(ops: seq<Op>): nat {
    if ops == [] then 0 else Crashes(ops[..|ops| - 1]) + (if ops[|ops| - 1].Torn? then 1 else 0)
  }

  // The runs that the next write would lose.
  function AtRisk(p: Past): nat {
    if p.tail == 0 then 0 else 1 + |Listed(p.loose)|
  }

  // A crash costs at most two runs, the one it cut off and the next one written.
  lemma {:induction false} CrashCostsTwo(f: File, ops: seq<Op>)
    requires IsFile(f) && AreOps(ops)
    ensures |Ever(f, ops)| + AtRisk(PastOf(f, ops)) <= |Survivors(PastOf(f, ops))| + AtRisk(PastOf(f, [])) + 2 * Crashes(ops)
    ensures PastOf(f, ops).loose.Some? ==> PastOf(f, ops).tail > 0
  {
    if ops == [] {
      RecordsSplit(f);
    } else {
      assert ops[|ops| - 1] in ops;
      CrashCostsTwo(f, ops[..|ops| - 1]);
    }
  }

  // A crash while pruning rewrites the file leaves the newest runs, as many as were written; all
  // others are gone, also those that were to be kept.
  lemma CrashInPrune(f: File, keep: nat, m: nat, written: nat)
    requires IsSound(f) && DistinctTimes(Records(f.lines)) && m < keep < |ReadAll(f).value|
    requires written <= ReadAll(f).value[m].size
    ensures IsSound(PruneTorn(f, keep, m, written))
    ensures ReadAll(PruneTorn(f, keep, m, written))
         == Some(ReadAll(f).value[..if written == ReadAll(f).value[m].size then m + 1 else m])
  {
    hide Newest, Records, AsLines, DistinctTimes;
    var runs := Newest(Records(f.lines));
    assert runs[..m + 1][..m] == runs[..m] && runs[..m + 1] == runs[..m] + [runs[m]];
    KeptFit(f, m + 1);
    assert runs[m] in runs[..m + 1] && forall r | r in runs[..m] :: r in runs[..m + 1];
    KeptFit(f, m);
    SoundLines(runs[..m]);
    if written > 0 {
      var lines := AsLines(runs[..m]);
      assert lines[..|lines|] == lines && runs[..m] + [] == runs[..m];
      LastLine(File(lines, false), |lines|, Line(if written == runs[m].size then Some(runs[m]) else None, written), true);
    }
  }

  // What is safe stays so, whatever operations come after.
  lemma {:induction false} SafeForever(f: File, ops: seq<Op>, i: nat)
    requires IsFile(f) && i <= |ops|
    ensures PastOf(f, ops[..i]).safe <= PastOf(f, ops).safe
  {
    if i == |ops| {
      assert ops[..i] == ops;
    } else {
      var before := ops[..|ops| - 1];
      assert before[..i] == ops[..i];
      SafeForever(f, before, i);
    }
  }

  lemma EverPrefix(f: File, ops: seq<Op>)
    requires ops != [] && DistinctTimes(Ever(f, ops))
    ensures DistinctTimes(Ever(f, ops[..|ops| - 1]))
  {
    var a, b := Ever(f, ops[..|ops| - 1]), Ever(f, ops);
    assert a <= b;
    forall i, j | 0 <= i < j < |a|
      ensures a[i].startedAt != a[j].startedAt
    {
      assert a[i] == b[i] && a[j] == b[j];
    }
  }

  // Runs among others with distinct times, each no more often, have distinct times.
  lemma SubsetDistinct(a: seq<Run>, b: seq<Run>)
    requires multiset(a) <= multiset(b) && DistinctTimes(b)
    ensures DistinctTimes(a)
  {
    forall i, j | 0 <= i < j < |a|
      ensures a[i].startedAt != a[j].startedAt
    {
      assert a[i] in multiset(b) && a[j] in multiset(b);
      if a[i] == a[j] {
        Twice(a, i, j);
        OnlyOnce(b, a[i]);
        assert false;
      }
    }
  }

  lemma Twice(a: seq<Run>, i: nat, j: nat)
    requires i < j < |a| && a[i] == a[j]
    ensures multiset(a)[a[i]] >= 2
  {
    assert a == a[..j] + [a[j]] + a[j + 1..];
    assert a[i] in a[..j];
  }

  lemma {:induction false} OnlyOnce(b: seq<Run>, r: Run)
    requires DistinctTimes(b)
    ensures multiset(b)[r] <= 1
  {
    if b != [] {
      var n := |b| - 1;
      assert b == b[..n] + [b[n]];
      OnlyOnce(b[..n], r);
      if r == b[n] {
        assert r !in b[..n];
      }
    }
  }

  lemma PrefixOfSequence(runs: seq<Run>, k: nat)
    requires k <= |runs|
    ensures multiset(runs[..k]) <= multiset(runs)
  {
    assert runs == runs[..k] + runs[k..];
  }

  // One line too long for the scanner ends all reading and pruning, whatever is done later.
  lemma {:induction false} OversizedRecordBlocks(f: File, ops: seq<Op>)
    requires !IsReadable(f) && AreOps(ops)
    ensures ReadAll(ApplyAll(f, ops)) == None
    ensures forall keep :: PruneResult(ApplyAll(f, ops), keep) == Unreadable
  {
    if ops != [] {
      assert ops[|ops| - 1] in ops && forall op | op in ops[..|ops| - 1] :: op in ops;
      OversizedRecordBlocks(f, ops[..|ops| - 1]);
      UnreadableStays(ApplyAll(f, ops[..|ops| - 1]), ops[|ops| - 1]);
    }
  }

  // A run appended to a file that can be read is listed if and only if its record fits and the file
  // does not end in a torn line.
  lemma AppendedIsListed(f: File, run: Run)
    requires IsFile(f) && IsReadable(f) && 0 < run.size && run !in Records(f.lines)
    ensures (ReadAll(AppendRun(f, run)).Some? && run in ReadAll(AppendRun(f, run)).value)
       <==> (Fits(run) && !f.torn)
  {
    var g := AppendRun(f, run);
    NewestContains(Records(g.lines), run);
    hide Newest;
    if f.torn {
      TornIsNotListed(f, run);
    } else {
      RecordsOfAppend(f.lines, Record(run));
      hide Records;
      assert Record(run) in g.lines;
      assert forall line | line in g.lines :: line in f.lines || line == Record(run);
    }
  }

  lemma TornIsNotListed(f: File, run: Run)
    requires IsFile(f) && f.torn && run !in Records(f.lines)
    ensures run !in Records(AppendRun(f, run).lines)
  {
    var n := |f.lines| - 1;
    RecordsOfAppend(f.lines[..n], Line(None, f.lines[n].size + run.size));
  }

  // So the run after a write that a crash cut off is lost, and so is the one that was cut off.
  lemma CrashLosesNextRun(f: File, run: Run, written: nat, next: Run)
    requires IsFile(f) && !f.torn && IsReadable(f) && 0 < written <= run.size && written + next.size <= MAX_LINE
    requires 0 < next.size && run !in Records(f.lines) && next !in Records(f.lines)
    ensures var g := AppendRun(AppendTorn(f, run, written), next);
            ReadAll(g) == ReadAll(f)
  {
    var glued := Line(None, written + next.size);
    var torn := AppendTorn(f, run, written);
    assert torn.lines[..|f.lines|] == f.lines;
    assert AppendRun(torn, next) == File(f.lines + [glued], false);
    RecordsOfAppend(f.lines, glued);
    assert Records(f.lines) + [] == Records(f.lines);
    hide Records;
    hide Newest;
    assert IsReadable(File(f.lines + [glued], false)) by {
      assert forall line | line in f.lines + [glued] :: line in f.lines || line == glued;
    }
  }

  lemma {:induction false} NewestContains(runs: seq<Run>, r: Run)
    ensures r in Newest(runs) <==> r in runs
  {
    if runs != [] {
      var n := |runs| - 1;
      NewestContains(runs[..n], r);
      InsertIsInsertion(Newest(runs[..n]), runs[n]);
      assert runs == runs[..n] + [runs[n]];
    }
  }

  // The count takes in malformed lines, so it is never below the number of runs listed.
  lemma {:induction false} CountCoversList(lines: seq<Line>)
    ensures |Records(lines)| <= CountLines(lines)
    ensures |Records(lines)| == CountLines(lines) <==> forall line | line in lines :: line.size > 0 ==> line.content.Some?
  {
    if lines != [] {
      var n := |lines| - 1;
      CountCoversList(lines[..n]);
      assert lines == lines[..n] + [lines[n]];
    }
  }
}
