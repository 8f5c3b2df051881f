// The job store: one file, changed only by loading it, applying a mutation to the loaded state and
// writing the result back in one atomic step.
module JobStore {

  import opened Options

  datatype Job = Job(id: string, definition: string)

  datatype State = State(jobs: map<string, Job>, version: int)

  const STORE_VERSION := 1

  // The jobs file; a legacy file has no version.
  datatype File = Missing | Garbled | Present(jobs: map<string, Job>, version: Option<int>)

  // What can be loaded: no file yet, a legacy file, or one of the current version.
  function LoadFile(f: File): Option<State> {
    match f
    case Missing => Some(State(map[], STORE_VERSION))
    case Garbled => None
    case Present(jobs, None) => Some(State(jobs, STORE_VERSION))
    case Present(jobs, Some(v)) => if v == STORE_VERSION then Some(State(jobs, v)) else None
  }

  function SaveFile(st: State): File {
    Present(st.jobs, Some(STORE_VERSION))
  }

  // A caller's mutation: it rejects the state, or changes it.
  datatype Mutation =
    | AddJob(job: Job)
    | DeleteJob(jobID: string)
    | Edit(change: State -> Option<State>)

  function Run(m: Mutation, st: State): Option<State> {
    match m
    case AddJob(job) => if job.id in st.jobs then None else Some(st.(jobs := st.jobs[job.id := job]))
    case DeleteJob(id) => if id !in st.jobs then None else Some(st.(jobs := st.jobs - {id}))
    case Edit(change) => change(st)
  }

  // What a whole update does to the file when nothing goes wrong with the file itself.
  function Commit(f: File, m: Mutation): Option<File> {
    match LoadFile(f)
    case None => None
    case Some(st) =>
      match Run(m, st)
      case None => None
      case Some(next) => Some(SaveFile(next))
  }

  // ----- One caller -----

  // What may go wrong around the mutation.
  datatype Faults = Faults(cancelled: bool, noDirectory: bool, lockUnavailable: bool, unreadable: bool, unwritable: bool)

  datatype Problem = Cancelled | NoDirectory | NoLock | NoState | Rejected | NotWritten

  // A store's directory: its jobs file, and whether its lock file is held.
  class Store {
    var file: File
    var locked: bool

    constructor (f: File)
      ensures file == f && !locked
    {
      file, locked := f, false;
    }

    method Load(faults: Faults) returns (st: Option<State>)
      ensures st == if faults.unreadable then None else LoadFile(file)
    {
      if faults.unreadable {
        return None;
      }
      return LoadFile(file);
    }

    method Save(st: State, faults: Faults) returns (ok: bool)
      modifies this`file
      ensures ok == !faults.unwritable && file == if ok then SaveFile(st) else old(file)
    {
      if faults.unwritable {
        return false;
      }
      var stamped := st.(version := STORE_VERSION);
      file := Present(stamped.jobs, Some(stamped.version));
      return true;
    }

    // An update that reports no problem has committed the mutation, one that reports a problem has
    // changed nothing, and either way the lock is as it was.
    method Update(m: Mutation, faults: Faults) returns (problem: Option<Problem>)
      modifies this
      ensures locked == old(locked)
      ensures problem.None? ==> !old(locked) && Commit(old(file), m) == Some(file)
      ensures problem.Some? ==> file == old(file)
      ensures problem.None? <==>
        !old(locked) && faults == Faults(false, false, false, false, false) && Commit(old(file), m).Some?
    {
      if faults.cancelled {
        return Some(Cancelled);
      }
      if faults.noDirectory {
        return Some(NoDirectory);
      }
      if locked || faults.lockUnavailable {
        return Some(NoLock);
      }
      locked := true;
      var st := Load(faults);
      if st.None? {
        locked := false;
        return Some(NoState);
      }
      var next := Run(m, st.value);
      if next.None? {
        locked := false;
        return Some(Rejected);
      }
      var ok := Save(next.value, faults);
      locked := false;
      return if ok then None else Some(NotWritten);
    }
  }

  // ----- Sequences of commits -----

  // The file after the commits, each of which must succeed.
  function Replay(f: File, commits: seq<Mutation>): Option<File> {
    if commits == [] then Some(f)
    else
      match Replay(f, commits[..|commits| - 1])
      case None => None
      case Some(g) => Commit(g, commits[|commits| - 1])
  }

  predicate HasJob(f: File, id: string) {
    LoadFile(f).Some? && id in LoadFile(f).value.jobs
  }

  lemma ReplaySnoc(f: File, commits: seq<Mutation>, m: Mutation)
    requires Replay(f, commits).Some?
    ensures Replay(f, commits + [m]) == Commit(Replay(f, commits).value, m)
  {
    assert (commits + [m])[..|commits|] == commits;
  }

  lemma {:induction false} ReplayPrefix(f: File, commits: seq<Mutation>, n: nat)
    requires Replay(f, commits).Some? && n <= |commits|
    ensures Replay(f, commits[..n]).Some?
  {
    if n == |commits| {
      assert commits[..n] == commits;
    } else {
      ReplayPrefix(f, commits[..|commits| - 1], n);
      assert commits[..|commits| - 1][..n] == commits[..n];
    }
  }

  lemma ReplayStep(f: File, commits: seq<Mutation>, i: nat)
    requires Replay(f, commits).Some? && i < |commits|
    ensures Replay(f, commits[..i]).Some? && Replay(f, commits[..i + 1]).Some?
    ensures Commit(Replay(f, commits[..i]).value, commits[i]) == Replay(f, commits[..i + 1])
  {
    ReplayPrefix(f, commits, i);
    ReplayPrefix(f, commits, i + 1);
    assert commits[..i + 1][..i] == commits[..i];
  }

  predicate Adds(m: Mutation, id: string) {
    m.AddJob? && m.job.id == id
  }

  // The k-th commit took the job away.
  predicate Removes(f: File, commits: seq<Mutation>, k: nat, id: string)
    requires Replay(f, commits).Some? && k < |commits|
  {
    ReplayStep(f, commits, k);
    HasJob(Replay(f, commits[..k]).value, id) && !HasJob(Replay(f, commits[..k + 1]).value, id)
  }

  lemma {:induction false} LastRemoval(f: File, commits: seq<Mutation>, i: nat, j: nat, id: string) returns (k: nat)
    requires Replay(f, commits).Some? && i < j <= |commits|
    requires Replay(f, commits[..i + 1]).Some? && HasJob(Replay(f, commits[..i + 1]).value, id)
    requires Replay(f, commits[..j]).Some? && !HasJob(Replay(f, commits[..j]).value, id)
    ensures i < k < j && Removes(f, commits, k, id)
  {
    ReplayPrefix(f, commits, j - 1);
    k := j - 1;
    ReplayStep(f, commits, k);
    if !HasJob(Replay(f, commits[..k]).value, id) {
      k := LastRemoval(f, commits, i, k, id);
    }
  }

  // Two committed additions of one job have a removal of it between them, and the commit that
  // removed it was not itself an addition.
  lemma AddedOnceBetweenDeletions(f: File, commits: seq<Mutation>, i: nat, j: nat, id: string)
    requires Replay(f, commits).Some? && i < j < |commits|
    requires Adds(commits[i], id) && Adds(commits[j], id)
    ensures exists k | i < k < j ::
      Removes(f, commits, k, id) && !commits[k].AddJob? && (commits[k].DeleteJob? ==> commits[k].jobID == id)
  {
    ReplayStep(f, commits, i);
    ReplayStep(f, commits, j);
    assert HasJob(Replay(f, commits[..i + 1]).value, id);
    assert !HasJob(Replay(f, commits[..j]).value, id);
    var k := LastRemoval(f, commits, i, j, id);
    ReplayStep(f, commits, k);
  }

  // ----- What a commit does to the jobs -----

  // The definition of a job, if it is there.
  function Definition(jobs: map<string, Job>, id: string): Option<Job> {
    if id in jobs then Some(jobs[id]) else None
  }

  // A file that can be loaded, and the jobs in it.
  function JobsOf(f: File): Option<map<string, Job>> {
    match f
    case Missing => Some(map[])
    case Garbled => None
    case Present(jobs, version) => if version == None || version == Some(1) then Some(jobs) else None
  }

  // An addition succeeds exactly when the job is not there yet, and then the job is as given; a deletion
  // succeeds exactly when the job is there, and then it is gone. Neither touches another job.
  lemma CommitChangesOneJob(f: File, m: Mutation, job: Job, id: string)
    requires m == AddJob(job) || m == DeleteJob(job.id)
    ensures Commit(f, m).Some? <==> JobsOf(f).Some? && (m.AddJob? <==> job.id !in JobsOf(f).value)
    ensures Commit(f, m).Some? ==>
      && JobsOf(Commit(f, m).value).Some?
      && Definition(JobsOf(Commit(f, m).value).value, id)
         == if id != job.id then Definition(JobsOf(f).value, id) else if m.AddJob? then Some(job) else None
  {
  }

  // An edit succeeds exactly when the caller's function accepts the jobs, and leaves what that returns.
  lemma CommitOfEdit(f: File, change: State -> Option<State>)
    ensures Commit(f, Edit(change)).Some? <==> JobsOf(f).Some? && change(State(JobsOf(f).value, 1)).Some?
    ensures Commit(f, Edit(change)).Some? ==>
      JobsOf(Commit(f, Edit(change)).value) == Some(change(State(JobsOf(f).value, 1)).value.jobs)
  {
  }

  // The mutation is no edit and is about another job.
  predicate LeavesAlone(m: Mutation, id: string) {
    match m
    case AddJob(job) => job.id != id
    case DeleteJob(jobID) => jobID != id
    case Edit(_) => false
  }

  lemma {:induction false} LeftAlone(f: File, commits: seq<Mutation>, n: nat, id: string)
    requires Replay(f, commits).Some? && n <= |commits|
    requires forall i | n <= i < |commits| :: LeavesAlone(commits[i], id)
    requires Replay(f, commits[..n]).Some? && JobsOf(Replay(f, commits[..n]).value).Some?
    ensures JobsOf(Replay(f, commits).value).Some?
    ensures Definition(JobsOf(Replay(f, commits).value).value, id) == Definition(JobsOf(Replay(f, commits[..n]).value).value, id)
  {
    if n == |commits| {
      assert commits[..n] == commits;
    } else {
      var front, last := commits[..|commits| - 1], commits[|commits| - 1];
      assert front[..n] == commits[..n];
      assert LeavesAlone(last, id);
      LeftAlone(f, front, n, id);
      var job := if last.AddJob? then last.job else Job(last.jobID, "");
      CommitChangesOneJob(Replay(f, front).value, last, job, id);
    }
  }

  // After any commits a job is as its last addition, deletion or edit left it, whatever was done to
  // other jobs since: given to the addition, gone after the deletion, what the edit made of it.
  lemma LastMutationDecides(f: File, commits: seq<Mutation>, k: nat, id: string)
    requires Replay(f, commits).Some? && k < |commits| && !LeavesAlone(commits[k], id)
    requires forall i | k < i < |commits| :: LeavesAlone(commits[i], id)
    ensures JobsOf(Replay(f, commits).value).Some? && Replay(f, commits[..k]).Some? && JobsOf(Replay(f, commits[..k]).value).Some?
    ensures var jobs, before := JobsOf(Replay(f, commits).value).value, JobsOf(Replay(f, commits[..k]).value).value;
            match commits[k]
            case AddJob(job) => id !in before && Definition(jobs, id) == Some(job)
            case DeleteJob(_) => id in before && Definition(jobs, id) == None
            case Edit(change) => change(State(before, 1)).Some? && Definition(jobs, id) == Definition(change(State(before, 1)).value.jobs, id)
  {
    ReplayStep(f, commits, k);
    var g := Replay(f, commits[..k]).value;
    match commits[k]
    case AddJob(job) =>
      CommitChangesOneJob(g, commits[k], job, id);
      LeftAlone(f, commits, k + 1, id);
    case DeleteJob(jobID) =>
      CommitChangesOneJob(g, commits[k], Job(jobID, ""), id);
      LeftAlone(f, commits, k + 1, id);
    case Edit(change) =>
      CommitOfEdit(g, change);
      LeftAlone(f, commits, k + 1, id);
  }

  // A job that no commit is about stays as it was in the file.
  lemma UntouchedJob(f: File, commits: seq<Mutation>, id: string)
    requires JobsOf(f).Some? && Replay(f, commits).Some? && forall m | m in commits :: LeavesAlone(m, id)
    ensures JobsOf(Replay(f, commits).value).Some?
    ensures Definition(JobsOf(Replay(f, commits).value).value, id) == Definition(JobsOf(f).value, id)
  {
    LeftAlone(f, commits, 0, id);
  }
}
