// Any number of threads in any number of processes using the job store at once. Each process
// serialises its own threads with a mutex; between processes there is only the lock file, which an
// update fails to take -- it does not wait -- while another process holds it. Loading takes the
// mutex but not the lock file.
module StoreProtocol {
  import opened JobStore
  import opened Options

  datatype Call = Update(m: Mutation) | Load

  // How a call ended. The numbers are those of the holdings of the lock file, and of the commits.
  datatype Outcome =
    | Updated(id: nat, m: Mutation, held: nat)
    | Failed(id: nat, abandoned: Option<nat>)
    | Snapshot(id: nat, st: State, since: nat, at: nat)

  // Where a call stands. Calls are numbered; `since` counts the commits there were when it began.
  datatype Phase =
    | Idle
    | Called(id: nat, call: Call, since: nat)
    | Waiting(id: nat, call: Call, since: nat)
    | InMutex(id: nat, call: Call, since: nat)
    | InLock(id: nat, m: Mutation)
    | HasState(id: nat, m: Mutation, st: State)
    | Decided(id: nat, m: Mutation, next: State)
    | Unlocking(outcome: Outcome)
    | Leaving(outcome: Outcome)

  datatype Verdict = Pending | Committed | Abandoned

  // One holding of the lock file, by a thread for a call.
  datatype Tenure = Tenure(thread: nat, id: nat, m: Mutation, verdict: Verdict)

  datatype World = World(
    file: File,
    lockOwner: Option<nat>,
    mutexes: map<nat, nat>,
    phases: map<nat, Phase>,
    tenures: seq<Tenure>,
    finished: seq<Outcome>,
    begun: nat)

  function PhaseOf(w: World, t: nat): Phase {
    if t in w.phases then w.phases[t] else Idle
  }

  function Start(f: File): World {
    World(f, None, map[], map[], [], [], 0)
  }

  // The mutations that were committed, in the order in which the lock file was held.
  function Commits(tenures: seq<Tenure>): seq<Mutation> {
    if tenures == [] then []
    else
      var last := tenures[|tenures| - 1];
      Commits(tenures[..|tenures| - 1]) + (if last.verdict.Committed? then [last.m] else [])
  }

  // ----- Steps -----

  // A thread begins a call or takes its next step; `ok` says that the outside world cooperates.
  datatype Step = Begin(t: nat, call: Call) | Advance(t: nat, ok: bool)

  predicate Enabled(home: nat -> nat, w: World, s: Step) {
    match s
    case Begin(t, _) => PhaseOf(w, t).Idle?
    case Advance(t, _) =>
      && !PhaseOf(w, t).Idle?
      && (PhaseOf(w, t).Waiting? ==> home(t) !in w.mutexes)
  }

  function Decide(w: World, verdict: Verdict): seq<Tenure>
    requires w.tenures != []
  {
    w.tenures[|w.tenures| - 1 := w.tenures[|w.tenures| - 1].(verdict := verdict)]
  }

  // The holder of the lock file gives up without writing.
  function Abandon(w: World, t: nat, id: nat): World
    requires w.tenures != []
  {
    w.(phases := w.phases[t := Unlocking(Failed(id, Some(|w.tenures| - 1)))], tenures := Decide(w, Abandoned))
  }

  function Next(home: nat -> nat, w: World, s: Step): World
    requires Enabled(home, w, s)
  {
    match s
    case Begin(t, call) =>
      w.(phases := w.phases[t := Called(w.begun, call, |Commits(w.tenures)|)], begun := w.begun + 1)
    case Advance(t, ok) =>
      match PhaseOf(w, t)
      case Idle => w
      case Called(id, call, since) =>
        if call.Update? && !ok then w.(phases := w.phases[t := Idle], finished := w.finished + [Failed(id, None)])
        else w.(phases := w.phases[t := Waiting(id, call, since)])
      case Waiting(id, call, since) =>
        w.(phases := w.phases[t := InMutex(id, call, since)], mutexes := w.mutexes[home(t) := t])
      case InMutex(id, Update(m), _) =>
        if ok && w.lockOwner.None? then
          w.(phases := w.phases[t := InLock(id, m)], lockOwner := Some(t), tenures := w.tenures + [Tenure(t, id, m, Pending)])
        else w.(phases := w.phases[t := Leaving(Failed(id, None))])
      case InMutex(id, Load, since) =>
        if ok && LoadFile(w.file).Some? then
          w.(phases := w.phases[t := Leaving(Snapshot(id, LoadFile(w.file).value, since, |Commits(w.tenures)|))])
        else w.(phases := w.phases[t := Leaving(Failed(id, None))])
      case InLock(id, m) =>
        if ok && LoadFile(w.file).Some? then w.(phases := w.phases[t := HasState(id, m, LoadFile(w.file).value)])
        else if w.tenures == [] then w
        else Abandon(w, t, id)
      case HasState(id, m, st) =>
        if JobStore.Run(m, st).Some? then w.(phases := w.phases[t := Decided(id, m, JobStore.Run(m, st).value)])
        else if w.tenures == [] then w
        else Abandon(w, t, id)
      case Decided(id, m, next) =>
        if w.tenures == [] then w
        else if ok then
          w.(file := SaveFile(next), phases := w.phases[t := Unlocking(Updated(id, m, |w.tenures| - 1))],
             tenures := Decide(w, Committed))
        else Abandon(w, t, id)
      case Unlocking(outcome) => w.(phases := w.phases[t := Leaving(outcome)], lockOwner := None)
      case Leaving(outcome) =>
        w.(phases := w.phases[t := Idle], mutexes := w.mutexes - {home(t)}, finished := w.finished + [outcome])
  }

  // ----- What every step keeps -----

  predicate InMutexPhase(p: Phase) {
    p.InMutex? || p.InLock? || p.HasState? || p.Decided? || p.Unlocking? || p.Leaving?
  }

  predicate InLockPhase(p: Phase) {
    p.InLock? || p.HasState? || p.Decided? || p.Unlocking?
  }

  // The mutation of a call that holds the lock file and has not been decided.
  function PendingMutation(p: Phase): Option<Mutation> {
    match p
    case InLock(_, m) => Some(m)
    case HasState(_, m, _) => Some(m)
    case Decided(_, m, _) => Some(m)
    case _ => None
  }

  // What was concluded about a call agrees with the record of the lock file, and a snapshot is the
  // state after some commit during the call.
  ghost predicate OutcomeHolds(init: File, w: World, o: Outcome) {
    match o
    case Updated(id, m, i) =>
      i < |w.tenures| && w.tenures[i].id == id && w.tenures[i].m == m && w.tenures[i].verdict.Committed?
    case Failed(_, None) => true
    case Failed(id, Some(i)) => i < |w.tenures| && w.tenures[i].id == id && w.tenures[i].verdict.Abandoned?
    case Snapshot(_, st, since, at) =>
      && since <= at <= |Commits(w.tenures)|
      && Replay(init, Commits(w.tenures)[..at]).Some?
      && LoadFile(Replay(init, Commits(w.tenures)[..at]).value) == Some(st)
  }

  ghost predicate PhaseHolds(init: File, w: World, t: nat) {
    match PhaseOf(w, t)
    case Called(_, _, since) => since <= |Commits(w.tenures)|
    case Waiting(_, _, since) => since <= |Commits(w.tenures)|
    case InMutex(_, _, since) => since <= |Commits(w.tenures)|
    case HasState(_, _, st) => LoadFile(w.file) == Some(st)
    case Decided(_, m, next) => Commit(w.file, m) == Some(SaveFile(next))
    case Unlocking(o) => OutcomeHolds(init, w, o)
    case Leaving(o) => OutcomeHolds(init, w, o)
    case _ => true
  }

  // A mutex belongs to the one thread of its process that is inside, the lock file to the one thread
  // that is inside of all.
  ghost predicate LocksHold(home: nat -> nat, w: World) {
    && (forall t: nat :: InMutexPhase(PhaseOf(w, t)) <==> home(t) in w.mutexes && w.mutexes[home(t)] == t)
    && (forall t: nat :: InLockPhase(PhaseOf(w, t)) <==> w.lockOwner == Some(t))
  }

  // Only the last holding can be undecided, and it is the owner's.
  ghost predicate TenuresHold(w: World) {
    && (forall i | 0 <= i < |w.tenures| :: w.tenures[i].verdict.Pending? ==> i == |w.tenures| - 1)
    && (forall t: nat :: PendingMutation(PhaseOf(w, t)).Some? ==>
          w.tenures != [] &&
          w.tenures[|w.tenures| - 1] == Tenure(t, PhaseOf(w, t).id, PendingMutation(PhaseOf(w, t)).value, Pending))
    && (w.tenures != [] && w.tenures[|w.tenures| - 1].verdict.Pending? ==>
          PendingMutation(PhaseOf(w, w.tenures[|w.tenures| - 1].thread)).Some?)
  }

  ghost predicate Inv(home: nat -> nat, init: File, w: World) {
    && LocksHold(home, w)
    && TenuresHold(w)
    && Replay(init, Commits(w.tenures)) == Some(w.file)
    && (forall t: nat :: PhaseHolds(init, w, t))
    && (forall o | o in w.finished :: OutcomeHolds(init, w, o))
  }

  lemma CommitsSnoc(tenures: seq<Tenure>, t: Tenure)
    ensures Commits(tenures + [t]) == Commits(tenures) + (if t.verdict.Committed? then [t.m] else [])
  {
    assert (tenures + [t])[..|tenures|] == tenures;
  }

  lemma CommitsDecide(w: World, verdict: Verdict)
    requires w.tenures != [] && w.tenures[|w.tenures| - 1].verdict.Pending?
    ensures Commits(Decide(w, verdict))
         == Commits(w.tenures) + (if verdict.Committed? then [w.tenures[|w.tenures| - 1].m] else [])
  {
    var n := |w.tenures| - 1;
    assert Decide(w, verdict)[..n] == w.tenures[..n];
  }

  // The record only grows, so what was concluded stays true.
  ghost predicate Extends(w: World, v: World) {
    && |w.tenures| <= |v.tenures|
    && (forall i | 0 <= i < |w.tenures| && !w.tenures[i].verdict.Pending? :: v.tenures[i] == w.tenures[i])
    && Commits(w.tenures) <= Commits(v.tenures)
  }

  lemma OutcomeStays(init: File, w: World, v: World, o: Outcome)
    requires Extends(w, v) && OutcomeHolds(init, w, o)
    ensures OutcomeHolds(init, v, o)
  {
    if o.Snapshot? {
      assert Commits(v.tenures)[..o.at] == Commits(w.tenures)[..o.at];
    }
  }

  // ----- Steps that leave the file and the record alone -----

  ghost predicate OnlyPhase(w: World, v: World, t: nat, p: Phase) {
    && v.phases == w.phases[t := p]
    && v.file == w.file && v.tenures == w.tenures
  }

  // Moving one thread on without touching the file or the record of holdings.
  lemma QuietStep(home: nat -> nat, init: File, w: World, v: World, t: nat, p: Phase)
    requires Inv(home, init, w) && OnlyPhase(w, v, t, p) && LocksHold(home, v)
    requires PendingMutation(p) == PendingMutation(PhaseOf(w, t)) && (PendingMutation(p).Some? ==> p.id == PhaseOf(w, t).id)
    requires PhaseHolds(init, v, t)
    requires forall o | o in v.finished :: o in w.finished || OutcomeHolds(init, w, o)
    ensures Inv(home, init, v)
  {
    hide Commits;
    hide Replay;
    forall u: nat
      ensures PhaseHolds(init, v, u)
    {
      if u != t {
        assert PhaseHolds(init, w, u);
      }
    }
    forall o | o in v.finished
      ensures OutcomeHolds(init, v, o)
    {
      assert OutcomeHolds(init, w, o);
    }
  }

  lemma CallKeeps(home: nat -> nat, init: File, w: World, s: Step)
    requires Inv(home, init, w) && Enabled(home, w, s)
    requires s.Begin? || PhaseOf(w, s.t).Called? || PhaseOf(w, s.t).Waiting?
    ensures Inv(home, init, Next(home, w, s))
  {
    hide Commits;
    hide Replay;
    var v := Next(home, w, s);
    var p := PhaseOf(v, s.t);
    assert PhaseHolds(init, w, s.t);
    assert LocksHold(home, v);
    QuietStep(home, init, w, v, s.t, p);
  }

  lemma LeaveKeeps(home: nat -> nat, init: File, w: World, s: Step)
    requires Inv(home, init, w) && Enabled(home, w, s) && s.Advance?
    requires PhaseOf(w, s.t).Unlocking? || PhaseOf(w, s.t).Leaving?
    ensures Inv(home, init, Next(home, w, s))
  {
    hide Commits;
    hide Replay;
    var v := Next(home, w, s);
    assert PhaseHolds(init, w, s.t);
    assert LocksHold(home, v);
    QuietStep(home, init, w, v, s.t, PhaseOf(v, s.t));
  }

  lemma LoadKeeps(home: nat -> nat, init: File, w: World, s: Step)
    requires Inv(home, init, w) && Enabled(home, w, s) && s.Advance?
    requires PhaseOf(w, s.t).InMutex? && (PhaseOf(w, s.t).call.Load? || !s.ok || w.lockOwner.Some?)
    ensures Inv(home, init, Next(home, w, s))
  {
    hide Commits;
    hide Replay;
    var v := Next(home, w, s);
    assert PhaseHolds(init, w, s.t);
    var commits := Commits(w.tenures);
    assert commits[..|commits|] == commits;
    assert LocksHold(home, v);
    QuietStep(home, init, w, v, s.t, PhaseOf(v, s.t));
  }

  lemma WorkKeeps(home: nat -> nat, init: File, w: World, s: Step)
    requires Inv(home, init, w) && Enabled(home, w, s) && s.Advance?
    requires || (PhaseOf(w, s.t).InLock? && s.ok && LoadFile(w.file).Some?)
             || (PhaseOf(w, s.t).HasState? && JobStore.Run(PhaseOf(w, s.t).m, PhaseOf(w, s.t).st).Some?)
    ensures Inv(home, init, Next(home, w, s))
  {
    hide Commits;
    hide Replay;
    var v := Next(home, w, s);
    assert PhaseHolds(init, w, s.t);
    assert LocksHold(home, v);
    QuietStep(home, init, w, v, s.t, PhaseOf(v, s.t));
  }

  // ----- Steps that extend the record -----

  lemma RecordStep(home: nat -> nat, init: File, w: World, v: World, t: nat)
    requires Inv(home, init, w) && Extends(w, v) && LocksHold(home, v) && TenuresHold(v)
    requires Replay(init, Commits(v.tenures)) == Some(v.file)
    requires v.finished == w.finished && (forall u | u != t :: PhaseOf(v, u) == PhaseOf(w, u))
    requires PhaseHolds(init, v, t)
    requires v.file == w.file || w.lockOwner == Some(t)
    ensures Inv(home, init, v)
  {
    hide Commits;
    hide Replay;
    hide Commit;
    forall u: nat
      ensures PhaseHolds(init, v, u)
    {
      if u != t {
        assert PhaseHolds(init, w, u);
        var p := PhaseOf(w, u);
        if p.Unlocking? || p.Leaving? {
          OutcomeStays(init, w, v, p.outcome);
        }
      }
    }
    forall o | o in v.finished
      ensures OutcomeHolds(init, v, o)
    {
      OutcomeStays(init, w, v, o);
    }
  }

  lemma TakenTenures(home: nat -> nat, w: World, t: nat, id: nat, m: Mutation, v: World)
    requires LocksHold(home, w) && TenuresHold(w) && w.lockOwner.None?
    requires v.phases == w.phases[t := InLock(id, m)] && v.tenures == w.tenures + [Tenure(t, id, m, Pending)]
    ensures TenuresHold(v)
  {
    forall u: nat
      ensures PendingMutation(PhaseOf(w, u)).None? && (u != t ==> PhaseOf(v, u) == PhaseOf(w, u))
    {
      assert !InLockPhase(PhaseOf(w, u));
    }
  }

  // After a verdict nobody is undecided.
  lemma DecidedTenures(home: nat -> nat, w: World, t: nat, verdict: Verdict, o: Outcome, v: World)
    requires LocksHold(home, w) && TenuresHold(w) && PendingMutation(PhaseOf(w, t)).Some? && !verdict.Pending?
    requires w.tenures != [] && v.phases == w.phases[t := Unlocking(o)] && v.tenures == Decide(w, verdict)
    ensures TenuresHold(v)
  {
    assert InLockPhase(PhaseOf(w, t));
    forall u: nat | u != t
      ensures PendingMutation(PhaseOf(w, u)).None? && PhaseOf(v, u) == PhaseOf(w, u)
    {
      assert !InLockPhase(PhaseOf(w, u));
    }
  }

  lemma TakeLockKeeps(home: nat -> nat, init: File, w: World, s: Step)
    requires Inv(home, init, w) && Enabled(home, w, s) && s.Advance? && s.ok && w.lockOwner.None?
    requires PhaseOf(w, s.t).InMutex? && PhaseOf(w, s.t).call.Update?
    ensures Inv(home, init, Next(home, w, s))
  {
    var v := Next(home, w, s);
    CommitsSnoc(w.tenures, Tenure(s.t, PhaseOf(w, s.t).id, PhaseOf(w, s.t).call.m, Pending));
    hide Commits;
    hide Replay;
    assert Commits(v.tenures) == Commits(w.tenures);
    assert LocksHold(home, v);
    TakenTenures(home, w, s.t, PhaseOf(w, s.t).id, PhaseOf(w, s.t).call.m, v);
    hide TenuresHold;
    hide LocksHold;
    hide PendingMutation;
    assert PhaseOf(v, s.t) == InLock(PhaseOf(w, s.t).id, PhaseOf(w, s.t).call.m);
    RecordStep(home, init, w, v, s.t);
  }

  // A verdict for the holder of the lock file, who goes on to release it.
  lemma DecisionKeeps(home: nat -> nat, init: File, w: World, v: World, t: nat, verdict: Verdict, o: Outcome)
    requires Inv(home, init, w) && PendingMutation(PhaseOf(w, t)).Some? && !verdict.Pending?
    requires w.tenures != [] && v.tenures == Decide(w, verdict) && v.phases == w.phases[t := Unlocking(o)]
    requires v.mutexes == w.mutexes && v.lockOwner == w.lockOwner && v.finished == w.finished
    requires o == if verdict.Committed? then Updated(PhaseOf(w, t).id, PendingMutation(PhaseOf(w, t)).value, |w.tenures| - 1)
                  else Failed(PhaseOf(w, t).id, Some(|w.tenures| - 1))
    requires Replay(init, Commits(v.tenures)) == Some(v.file)
    ensures Inv(home, init, v)
  {
    CommitsDecide(w, verdict);
    hide Commits;
    hide Replay;
    DecidedTenures(home, w, t, verdict, o, v);
    LocksStay(home, w, v, t, Unlocking(o));
    assert w.lockOwner == Some(t);
    hide TenuresHold;
    hide LocksHold;
    RecordStep(home, init, w, v, t);
  }

  lemma LocksStay(home: nat -> nat, w: World, v: World, t: nat, p: Phase)
    requires LocksHold(home, w) && v.mutexes == w.mutexes && v.lockOwner == w.lockOwner && v.phases == w.phases[t := p]
    requires InMutexPhase(p) == InMutexPhase(PhaseOf(w, t)) && InLockPhase(p) == InLockPhase(PhaseOf(w, t))
    ensures LocksHold(home, v)
  {
  }

  lemma AbandonKeeps(home: nat -> nat, init: File, w: World, t: nat)
    requires Inv(home, init, w) && PendingMutation(PhaseOf(w, t)).Some?
    ensures w.tenures != [] && Inv(home, init, Abandon(w, t, PhaseOf(w, t).id))
  {
    CommitsDecide(w, Abandoned);
    hide Commits;
    hide Replay;
    hide LocksHold;
    var id := PhaseOf(w, t).id;
    DecisionKeeps(home, init, w, Abandon(w, t, id), t, Abandoned, Failed(id, Some(|w.tenures| - 1)));
  }

  // The write: by the holder of the lock file, whose loaded state is still the file's.
  lemma SaveKeeps(home: nat -> nat, init: File, w: World, s: Step)
    requires Inv(home, init, w) && Enabled(home, w, s) && s.Advance? && s.ok && PhaseOf(w, s.t).Decided?
    ensures Inv(home, init, Next(home, w, s))
  {
    hide LocksHold;
    var v := Next(home, w, s);
    SavedFile(init, w, s.t);
    hide Commits;
    hide Replay;
    hide TenuresHold;
    DecisionKeeps(home, init, w, v, s.t, Committed,
                  Updated(PhaseOf(w, s.t).id, PhaseOf(w, s.t).m, |w.tenures| - 1));
  }

  lemma SavedFile(init: File, w: World, t: nat)
    requires TenuresHold(w) && PhaseHolds(init, w, t) && PhaseOf(w, t).Decided?
    requires Replay(init, Commits(w.tenures)) == Some(w.file)
    ensures w.tenures != []
    ensures Replay(init, Commits(Decide(w, Committed))) == Some(SaveFile(PhaseOf(w, t).next))
  {
    CommitsDecide(w, Committed);
    ReplaySnoc(init, Commits(w.tenures), PhaseOf(w, t).m);
  }

  lemma StepKeeps(home: nat -> nat, init: File, w: World, s: Step)
    requires Inv(home, init, w) && Enabled(home, w, s)
    ensures Inv(home, init, Next(home, w, s))
  {
    hide Inv;
    if s.Begin? || PhaseOf(w, s.t).Called? || PhaseOf(w, s.t).Waiting? {
      CallKeeps(home, init, w, s);
      return;
    }
    var p := PhaseOf(w, s.t);
    match p
    case InMutex(_, call, _) =>
      if call.Load? || !s.ok || w.lockOwner.Some? {
        LoadKeeps(home, init, w, s);
      } else {
        TakeLockKeeps(home, init, w, s);
      }
    case InLock(_, _) =>
      if s.ok && LoadFile(w.file).Some? {
        WorkKeeps(home, init, w, s);
      } else {
        AbandonKeeps(home, init, w, s.t);
      }
    case HasState(_, m, st) =>
      if JobStore.Run(m, st).Some? {
        WorkKeeps(home, init, w, s);
      } else {
        AbandonKeeps(home, init, w, s.t);
      }
    case Decided(_, _, _) =>
      if s.ok {
        SaveKeeps(home, init, w, s);
      } else {
        AbandonKeeps(home, init, w, s.t);
      }
    case Unlocking(_) => LeaveKeeps(home, init, w, s);
    case Leaving(_) => LeaveKeeps(home, init, w, s);
  }

  // ----- Calls, holdings and outcomes belong together -----

  function IdOf(p: Phase): Option<nat> {
    match p
    case Idle => None
    case Unlocking(o) => Some(o.id)
    case Leaving(o) => Some(o.id)
    case _ => Some(p.id)
  }

  function OutcomeOf(p: Phase): Option<Outcome> {
    match p
    case Unlocking(o) => Some(o)
    case Leaving(o) => Some(o)
    case _ => None
  }

  // The call has not held the lock file.
  predicate NeverHeld(w: World, id: nat) {
    forall i | 0 <= i < |w.tenures| :: w.tenures[i].id != id
  }

  predicate WithoutHolding(o: Outcome) {
    o.Snapshot? || (o.Failed? && o.abandoned.None?)
  }

  predicate IsUpdateOf(o: Outcome, i: nat) {
    o.Updated? && o.held == i
  }

  predicate IsReporting(w: World, t: nat, i: nat) {
    OutcomeOf(PhaseOf(w, t)).Some? && IsUpdateOf(OutcomeOf(PhaseOf(w, t)).value, i)
  }

  // The outcome of the committed holding is among the finished ones or on its way out.
  ghost predicate IsReported(w: World, i: nat) {
    || (exists o | o in w.finished :: IsUpdateOf(o, i))
    || (exists t: nat :: IsReporting(w, t, i))
  }

  // Calls under way and finished calls are all different.
  ghost predicate CallsDiffer(w: World) {
    && (forall t: nat :: IdOf(PhaseOf(w, t)).Some? ==> IdOf(PhaseOf(w, t)).value < w.begun)
    && (forall t: nat, u: nat :: IdOf(PhaseOf(w, t)).Some? && IdOf(PhaseOf(w, t)) == IdOf(PhaseOf(w, u)) ==> t == u)
    && (forall o | o in w.finished :: o.id < w.begun)
    && (forall a, b | 0 <= a < b < |w.finished| :: w.finished[a].id != w.finished[b].id)
    && (forall t: nat, o | o in w.finished :: IdOf(PhaseOf(w, t)) != Some(o.id))
  }

  // No call holds the lock file twice, and those that are yet to hold it or that ended without it never
  // did.
  ghost predicate HoldingsDiffer(w: World) {
    && (forall i | 0 <= i < |w.tenures| :: w.tenures[i].id < w.begun)
    && (forall i, j | 0 <= i < j < |w.tenures| :: w.tenures[i].id != w.tenures[j].id)
    && (forall t: nat :: PhaseOf(w, t).Called? || PhaseOf(w, t).Waiting? || PhaseOf(w, t).InMutex? ==>
          NeverHeld(w, PhaseOf(w, t).id))
    && (forall t: nat :: OutcomeOf(PhaseOf(w, t)).Some? && WithoutHolding(OutcomeOf(PhaseOf(w, t)).value) ==>
          NeverHeld(w, OutcomeOf(PhaseOf(w, t)).value.id))
    && (forall o | o in w.finished && WithoutHolding(o) :: NeverHeld(w, o.id))
  }

  ghost predicate CommitsReported(w: World) {
    forall i: nat | i < |w.tenures| && w.tenures[i].verdict.Committed? :: IsReported(w, i)
  }

  lemma OnePhaseChanges(home: nat -> nat, w: World, s: Step)
    requires Enabled(home, w, s)
    ensures var v := Next(home, w, s); v.phases == w.phases[s.t := PhaseOf(v, s.t)]
  {
    hide Commits;
  }

  // A step of one thread, which may begin or finish a call.
  lemma CallsStayDifferent(home: nat -> nat, w: World, s: Step)
    requires CallsDiffer(w) && Enabled(home, w, s)
    ensures CallsDiffer(Next(home, w, s))
  {
    hide Commits;
    var v := Next(home, w, s);
    var p, q := PhaseOf(w, s.t), PhaseOf(v, s.t);
    OnePhaseChanges(home, w, s);
    if s.Advance? && q.Idle? {
      var o := v.finished[|w.finished|];
      assert v.finished == w.finished + [o] && IdOf(p) == Some(o.id);
    } else {
      assert v.finished == w.finished && (s.Advance? ==> IdOf(q) == IdOf(p));
    }
    assert s.Begin? ==> IdOf(q) == Some(w.begun);
    hide Next, IdOf;
    forall t: nat
      ensures t != s.t ==> PhaseOf(v, t) == PhaseOf(w, t)
    {
    }
  }

  lemma HoldingsStayDifferent(home: nat -> nat, w: World, s: Step)
    requires CallsDiffer(w) && HoldingsDiffer(w) && TenuresHold(w) && Enabled(home, w, s)
    ensures HoldingsDiffer(Next(home, w, s))
  {
    hide Commits;
    var v := Next(home, w, s);
    var p, q := PhaseOf(w, s.t), PhaseOf(v, s.t);
    OnePhaseChanges(home, w, s);
    if s.Advance? && p.InMutex? && q.InLock? {
      TakingDiffers(w, v, s.t);
    } else {
      SameHolders(home, w, s);
      PhaseNeverHeld(home, w, s);
      FinishedNeverHeld(home, w, s);
      hide Next, NeverHeld, CallsDiffer, TenuresHold, Enabled;
      forall id: nat | NeverHeld(w, id)
        ensures NeverHeld(v, id)
      {
        StillNeverHeld(w, v, id);
      }
      forall t: nat
        ensures t != s.t ==> PhaseOf(v, t) == PhaseOf(w, t)
      {
      }
    }
  }

  lemma PhaseNeverHeld(home: nat -> nat, w: World, s: Step)
    requires HoldingsDiffer(w) && Enabled(home, w, s)
    requires !(s.Advance? && PhaseOf(w, s.t).InMutex? && PhaseOf(Next(home, w, s), s.t).InLock?)
    ensures var q := PhaseOf(Next(home, w, s), s.t);
            && (q.Called? || q.Waiting? || q.InMutex? ==> NeverHeld(w, q.id))
            && (OutcomeOf(q).Some? && WithoutHolding(OutcomeOf(q).value) ==> NeverHeld(w, OutcomeOf(q).value.id))
  {
    hide Commits;
    var p := PhaseOf(w, s.t);
    if s.Begin? {
      assert NeverHeld(w, w.begun);
    } else {
      hide NeverHeld;
      assert p.Called? || p.Waiting? || p.InMutex? ==> NeverHeld(w, p.id);
      assert OutcomeOf(p).Some? && WithoutHolding(OutcomeOf(p).value) ==> NeverHeld(w, OutcomeOf(p).value.id);
    }
  }

  lemma FinishedNeverHeld(home: nat -> nat, w: World, s: Step)
    requires HoldingsDiffer(w) && Enabled(home, w, s)
    ensures forall o | o in Next(home, w, s).finished && WithoutHolding(o) :: NeverHeld(w, o.id)
  {
    hide Commits, NeverHeld;
    var p := PhaseOf(w, s.t);
    assert p.Called? ==> NeverHeld(w, p.id);
    assert OutcomeOf(p).Some? && WithoutHolding(OutcomeOf(p).value) ==> NeverHeld(w, OutcomeOf(p).value.id);
  }

  lemma SameHolders(home: nat -> nat, w: World, s: Step)
    requires Enabled(home, w, s)
    requires !(s.Advance? && PhaseOf(w, s.t).InMutex? && PhaseOf(Next(home, w, s), s.t).InLock?)
    ensures var v := Next(home, w, s);
            && |v.tenures| == |w.tenures|
            && (forall i | 0 <= i < |w.tenures| :: v.tenures[i].id == w.tenures[i].id)
  {
    hide Commits;
  }

  lemma StillNeverHeld(w: World, v: World, id: nat)
    requires NeverHeld(w, id) && |v.tenures| == |w.tenures|
    requires forall i | 0 <= i < |w.tenures| :: v.tenures[i].id == w.tenures[i].id
    ensures NeverHeld(v, id)
  {
  }

  lemma TakingDiffers(w: World, v: World, t: nat)
    requires CallsDiffer(w) && HoldingsDiffer(w) && PhaseOf(w, t).InMutex? && PhaseOf(w, t).call.Update?
    requires var id, m := PhaseOf(w, t).id, PhaseOf(w, t).call.m;
             v == w.(phases := w.phases[t := InLock(id, m)], lockOwner := Some(t), tenures := w.tenures + [Tenure(t, id, m, Pending)])
    ensures HoldingsDiffer(v)
  {
    var id := PhaseOf(w, t).id;
    assert IdOf(PhaseOf(w, t)) == Some(id);
    forall other: nat | NeverHeld(w, other) && other != id
      ensures NeverHeld(v, other)
    {
    }
    forall u: nat
      ensures u != t ==> PhaseOf(v, u) == PhaseOf(w, u) && IdOf(PhaseOf(w, u)) != Some(id)
    {
    }
  }

  lemma CommitsStayReported(home: nat -> nat, w: World, s: Step)
    requires CommitsReported(w) && TenuresHold(w) && Enabled(home, w, s)
    ensures CommitsReported(Next(home, w, s))
  {
    hide Commits;
    var v := Next(home, w, s);
    forall i: nat | i < |v.tenures| && v.tenures[i].verdict.Committed?
      ensures IsReported(v, i)
    {
      if i < |w.tenures| && w.tenures[i].verdict.Committed? {
        StillReported(home, w, s, i);
      } else {
        var o := OutcomeOf(PhaseOf(v, s.t));
        assert o.Some? && IsUpdateOf(o.value, i) && IsReporting(v, s.t, i);
      }
    }
  }

  lemma StillReported(home: nat -> nat, w: World, s: Step, i: nat)
    requires IsReported(w, i) && Enabled(home, w, s)
    ensures IsReported(Next(home, w, s), i)
  {
    hide Commits;
    var v := Next(home, w, s);
    if o :| o in w.finished && IsUpdateOf(o, i) {
      assert o in v.finished;
    } else {
      var t: nat :| IsReporting(w, t, i);
      var o := OutcomeOf(PhaseOf(w, t)).value;
      if t != s.t {
        assert PhaseOf(v, t) == PhaseOf(w, t) && IsReporting(v, t, i);
      } else if PhaseOf(w, t).Leaving? {
        assert o in v.finished;
      } else {
        assert OutcomeOf(PhaseOf(v, t)) == Some(o) && IsReporting(v, t, i);
      }
    }
  }

  // ----- Runs -----

  predicate CanRun(home: nat -> nat, w: World, steps: seq<Step>)
    decreases |steps|
  {
    steps == [] || (Enabled(home, w, steps[0]) && CanRun(home, Next(home, w, steps[0]), steps[1..]))
  }

  function RunAll(home: nat -> nat, w: World, steps: seq<Step>): World
    requires CanRun(home, w, steps)
    decreases |steps|
  {
    if steps == [] then w else RunAll(home, Next(home, w, steps[0]), steps[1..])
  }

  lemma {:induction false} RunKeeps(home: nat -> nat, init: File, w: World, steps: seq<Step>)
    requires Inv(home, init, w) && CanRun(home, w, steps)
    ensures Inv(home, init, RunAll(home, w, steps))
    decreases |steps|
  {
    hide Inv;
    if steps != [] {
      StepKeeps(home, init, w, steps[0]);
      RunKeeps(home, init, Next(home, w, steps[0]), steps[1..]);
    }
  }

  lemma {:induction false} RunKeepsCalls(home: nat -> nat, init: File, w: World, steps: seq<Step>)
    requires Inv(home, init, w) && CallsDiffer(w) && HoldingsDiffer(w) && CommitsReported(w) && CanRun(home, w, steps)
    ensures var v := RunAll(home, w, steps); CallsDiffer(v) && HoldingsDiffer(v) && CommitsReported(v)
    decreases |steps|
  {
    hide CallsDiffer, HoldingsDiffer, CommitsReported, TenuresHold, LocksHold, Commits, Replay;
    if steps != [] {
      CallsStayDifferent(home, w, steps[0]);
      HoldingsStayDifferent(home, w, steps[0]);
      CommitsStayReported(home, w, steps[0]);
      StepKeeps(home, init, w, steps[0]);
      RunKeepsCalls(home, init, Next(home, w, steps[0]), steps[1..]);
    }
  }

  lemma StartHolds(home: nat -> nat, init: File)
    ensures Inv(home, init, Start(init))
  {
  }

  // Whatever the interleaving, the file is what the committed mutations make of the initial file
  // one after another in the order in which the lock file was held; at most one thread is between
  // taking and releasing the lock file.
  lemma Serializable(home: nat -> nat, init: File, steps: seq<Step>)
    requires CanRun(home, Start(init), steps)
    ensures var w := RunAll(home, Start(init), steps);
            && Replay(init, Commits(w.tenures)) == Some(w.file)
            && forall t: nat, u: nat | InLockPhase(PhaseOf(w, t)) && InLockPhase(PhaseOf(w, u)) :: t == u
  {
    StartHolds(home, init);
    RunKeeps(home, init, Start(init), steps);
    hide RunAll;
    hide Replay;
    hide Commits;
  }

  // The commit of a call.
  predicate HasCommit(w: World, id: nat) {
    exists i | 0 <= i < |w.tenures| :: w.tenures[i].id == id && w.tenures[i].verdict.Committed?
  }

  // A finished call has a commit exactly when it reported success, and then it is its own mutation
  // that was committed. Every snapshot is the state after a prefix of the commits that includes all
  // those made before the call began.
  lemma OutcomesAreHonest(home: nat -> nat, init: File, steps: seq<Step>, o: Outcome)
    requires CanRun(home, Start(init), steps) && o in RunAll(home, Start(init), steps).finished
    ensures var w := RunAll(home, Start(init), steps);
            && OutcomeHolds(init, w, o)
            && (HasCommit(w, o.id) <==> o.Updated?)
  {
    StartHolds(home, init);
    RunKeeps(home, init, Start(init), steps);
    RunKeepsCalls(home, init, Start(init), steps);
    hide RunAll, HoldingsDiffer, CallsDiffer, CommitsReported, TenuresHold, LocksHold, OutcomeHolds;
    OutcomeDecidesCommit(init, RunAll(home, Start(init), steps), o);
  }

  lemma OutcomeDecidesCommit(init: File, w: World, o: Outcome)
    requires HoldingsDiffer(w) && o in w.finished && OutcomeHolds(init, w, o)
    ensures HasCommit(w, o.id) <==> o.Updated?
  {
    hide Commits, Replay;
    if o.Updated? {
      assert w.tenures[o.held].id == o.id;
    }
    if WithoutHolding(o) {
      assert NeverHeld(w, o.id);
    }
  }

  // Finished calls are all different, and every commit belongs to exactly one call that reported success or
  // is about to.
  lemma EveryCommitIsReported(home: nat -> nat, init: File, steps: seq<Step>, i: nat)
    requires CanRun(home, Start(init), steps)
    requires i < |RunAll(home, Start(init), steps).tenures|
    requires RunAll(home, Start(init), steps).tenures[i].verdict.Committed?
    ensures var w := RunAll(home, Start(init), steps);
            && IsReported(w, i)
            && (forall a, b | 0 <= a < b < |w.finished| :: !(IsUpdateOf(w.finished[a], i) && IsUpdateOf(w.finished[b], i)))
            && (forall o, t: nat | o in w.finished && OutcomeOf(PhaseOf(w, t)).Some? ::
                  !(IsUpdateOf(o, i) && IsUpdateOf(OutcomeOf(PhaseOf(w, t)).value, i)))
            && (forall t: nat, u: nat | IsReporting(w, t, i) && IsReporting(w, u, i) :: t == u)
  {
    StartHolds(home, init);
    RunKeeps(home, init, Start(init), steps);
    RunKeepsCalls(home, init, Start(init), steps);
    hide RunAll, Commits, Replay, TenuresHold, LocksHold, IsReported;
    var w := RunAll(home, Start(init), steps);
    OneReport(init, w, i);
  }

  lemma OneReport(init: File, w: World, i: nat)
    requires CallsDiffer(w)
    requires (forall t: nat :: PhaseHolds(init, w, t)) && forall o | o in w.finished :: OutcomeHolds(init, w, o)
    ensures forall a, b | 0 <= a < b < |w.finished| :: !(IsUpdateOf(w.finished[a], i) && IsUpdateOf(w.finished[b], i))
    ensures forall o, t: nat | o in w.finished && OutcomeOf(PhaseOf(w, t)).Some? ::
              !(IsUpdateOf(o, i) && IsUpdateOf(OutcomeOf(PhaseOf(w, t)).value, i))
    ensures forall t: nat, u: nat | IsReporting(w, t, i) && IsReporting(w, u, i) :: t == u
  {
    hide Commits, Replay;
    forall t: nat, u: nat | IsReporting(w, t, i) && IsReporting(w, u, i)
      ensures t == u
    {
      assert PhaseHolds(init, w, t) && PhaseHolds(init, w, u);
      assert IdOf(PhaseOf(w, t)) == IdOf(PhaseOf(w, u));
    }
    forall a, b | 0 <= a < b < |w.finished|
      ensures !(IsUpdateOf(w.finished[a], i) && IsUpdateOf(w.finished[b], i))
    {
      assert w.finished[a] in w.finished && w.finished[b] in w.finished;
    }
    forall o, t: nat | o in w.finished && OutcomeOf(PhaseOf(w, t)).Some?
      ensures !(IsUpdateOf(o, i) && IsUpdateOf(OutcomeOf(PhaseOf(w, t)).value, i))
    {
      assert PhaseHolds(init, w, t);
      assert IdOf(PhaseOf(w, t)) != Some(o.id);
    }
  }

  // Concurrent additions of one job: a second can only succeed after a removal.
  lemma OneAdditionWins(home: nat -> nat, init: File, steps: seq<Step>, i: nat, j: nat, id: string)
    requires CanRun(home, Start(init), steps)
    requires var commits := Commits(RunAll(home, Start(init), steps).tenures);
             i < j < |commits| && Adds(commits[i], id) && Adds(commits[j], id)
    ensures var commits := Commits(RunAll(home, Start(init), steps).tenures);
            Replay(init, commits).Some? && exists k | i < k < j :: Removes(init, commits, k, id)
  {
    Serializable(home, init, steps);
    AddedOnceBetweenDeletions(init, Commits(RunAll(home, Start(init), steps).tenures), i, j, id);
  }

  // ----- Calls can finish -----

  // From wherever the call stands, nobody is in the thread's way.
  predicate IsUndisturbed(home: nat -> nat, w: World, t: nat) {
    match PhaseOf(w, t)
    case Idle => false
    case Called(_, _, _) => home(t) !in w.mutexes && w.lockOwner.None?
    case Waiting(_, _, _) => home(t) !in w.mutexes && w.lockOwner.None?
    case InMutex(_, _, _) => w.lockOwner.None?
    case InLock(_, _) => w.tenures != []
    case HasState(_, _, _) => w.tenures != []
    case Decided(_, _, _) => w.tenures != []
    case _ => true
  }

  // The file that the call is to leave, whether it is to report success, and the state it is to return.
  datatype End = End(file: File, updated: bool, snapshot: Option<State>)

  function EndOfCall(call: Call, f: File): End {
    match call
    case Update(m) => if Commit(f, m).Some? then End(Commit(f, m).value, true, None) else End(f, false, None)
    case Load => End(f, false, LoadFile(f))
  }

  function EndOf(p: Phase, f: File): End {
    match p
    case Called(_, call, _) => EndOfCall(call, f)
    case Waiting(_, call, _) => EndOfCall(call, f)
    case InMutex(_, call, _) => EndOfCall(call, f)
    case InLock(_, m) => EndOfCall(Update(m), f)
    case HasState(_, m, st) =>
      if JobStore.Run(m, st).Some? then End(SaveFile(JobStore.Run(m, st).value), true, None) else End(f, false, None)
    case Decided(_, _, next) => End(SaveFile(next), true, None)
    case Unlocking(o) => EndOfOutcome(o, f)
    case Leaving(o) => EndOfOutcome(o, f)
    case Idle => End(f, false, None)
  }

  function EndOfOutcome(o: Outcome, f: File): End {
    End(f, o.Updated?, if o.Snapshot? then Some(o.st) else None)
  }

  function Rank(p: Phase): nat {
    match p
    case Idle => 0
    case Leaving(_) => 1
    case Unlocking(_) => 2
    case Decided(_, _, _) => 3
    case HasState(_, _, _) => 4
    case InLock(_, _) => 5
    case InMutex(_, _, _) => 6
    case Waiting(_, _, _) => 7
    case Called(_, _, _) => 8
  }

  lemma UndisturbedStep(home: nat -> nat, w: World, t: nat)
    requires IsUndisturbed(home, w, t)
    ensures Enabled(home, w, Advance(t, true))
    ensures var v, p := Next(home, w, Advance(t, true)), PhaseOf(w, t);
            if p.Leaving? then v.file == w.file && PhaseOf(v, t).Idle? && v.finished == w.finished + [p.outcome]
            else
              && IsUndisturbed(home, v, t) && v.finished == w.finished && Rank(PhaseOf(v, t)) < Rank(p)
              && EndOf(PhaseOf(v, t), v.file) == EndOf(p, w.file)
  {
    hide Commits, SaveFile, LoadFile;
  }

  lemma {:induction false} CallCanFinish(home: nat -> nat, w: World, t: nat) returns (steps: seq<Step>, o: Outcome)
    requires IsUndisturbed(home, w, t)
    ensures CanRun(home, w, steps) && forall s | s in steps :: s == Advance(t, true)
    ensures var v := RunAll(home, w, steps);
            v.finished == w.finished + [o] && PhaseOf(v, t).Idle? && EndOf(PhaseOf(w, t), w.file) == EndOfOutcome(o, v.file)
    decreases Rank(PhaseOf(w, t))
  {
    UndisturbedStep(home, w, t);
    var step := Advance(t, true);
    var v := Next(home, w, step);
    assert [step][1..] == [] && CanRun(home, v, []);
    hide Next, Enabled, EndOf, Rank, IsUndisturbed;
    if PhaseOf(w, t).Leaving? {
      steps, o := [step], PhaseOf(w, t).outcome;
      assert EndOf(PhaseOf(w, t), w.file) == EndOfOutcome(o, v.file) by { LeavingEnds(o, w.file); }
    } else {
      var rest: seq<Step>;
      rest, o := CallCanFinish(home, v, t);
      steps := [step] + rest;
      assert steps[1..] == rest;
    }
  }

  lemma LeavingEnds(o: Outcome, f: File)
    ensures EndOf(Leaving(o), f) == EndOfOutcome(o, f)
  {
  }

  // A call begun while nobody else of its process is inside and nobody holds the lock file can run
  // through: an update then commits exactly when its mutation does, and a load returns what is there.
  lemma CallsSucceed(home: nat -> nat, w: World, t: nat, call: Call) returns (steps: seq<Step>, o: Outcome)
    requires PhaseOf(w, t).Idle? && home(t) !in w.mutexes && w.lockOwner.None?
    ensures CanRun(home, w, steps) && forall s | s in steps :: s == Begin(t, call) || s == Advance(t, true)
    ensures var v := RunAll(home, w, steps);
            && PhaseOf(v, t).Idle? && v.finished == w.finished + [o]
            && match call
               case Update(m) =>
                 && (o.Updated? <==> Commit(w.file, m).Some?) && !o.Snapshot?
                 && v.file == (if o.Updated? then Commit(w.file, m).value else w.file)
               case Load =>
                 && v.file == w.file && !o.Updated?
                 && (o.Snapshot? <==> LoadFile(w.file).Some?) && (o.Snapshot? ==> LoadFile(w.file) == Some(o.st))
  {
    var begin := Begin(t, call);
    var called := Next(home, w, begin);
    assert IsUndisturbed(home, called, t);
    var rest: seq<Step>;
    rest, o := CallCanFinish(home, called, t);
    hide Next, IsUndisturbed, Commit, LoadFile, Commits;
    steps := [begin] + rest;
    assert steps[1..] == rest;
  }

  // Whenever calls are under way, some thread can go on: the one that holds the mutex waited for, if any.
  lemma NoDeadlock(home: nat -> nat, init: File, steps: seq<Step>, t: nat) returns (u: nat)
    requires CanRun(home, Start(init), steps) && !PhaseOf(RunAll(home, Start(init), steps), t).Idle?
    ensures var w := RunAll(home, Start(init), steps);
            !PhaseOf(w, u).Idle? && home(u) == home(t) && forall ok :: Enabled(home, w, Advance(u, ok))
  {
    StartHolds(home, init);
    RunKeeps(home, init, Start(init), steps);
    OwnMutexesStay(home, Start(init), steps);
    var w := RunAll(home, Start(init), steps);
    hide RunAll, Commits, Replay, TenuresHold, PhaseHolds, OutcomeHolds;
    u := Mover(home, w, t);
  }

  // A mutex is held by a thread of its own process.
  predicate OwnMutexes(home: nat -> nat, w: World) {
    forall h | h in w.mutexes :: home(w.mutexes[h]) == h
  }

  lemma {:induction false} OwnMutexesStay(home: nat -> nat, w: World, steps: seq<Step>)
    requires OwnMutexes(home, w) && CanRun(home, w, steps)
    ensures OwnMutexes(home, RunAll(home, w, steps))
    decreases |steps|
  {
    if steps != [] {
      var v := Next(home, w, steps[0]);
      assert v.mutexes == w.mutexes || v.mutexes == w.mutexes[home(steps[0].t) := steps[0].t]
          || v.mutexes == w.mutexes - {home(steps[0].t)};
      hide Next;
      OwnMutexesStay(home, v, steps[1..]);
    }
  }

  lemma Mover(home: nat -> nat, w: World, t: nat) returns (u: nat)
    requires LocksHold(home, w) && OwnMutexes(home, w) && !PhaseOf(w, t).Idle?
    ensures !PhaseOf(w, u).Idle? && home(u) == home(t) && forall ok :: Enabled(home, w, Advance(u, ok))
  {
    u := t;
    if PhaseOf(w, t).Waiting? && home(t) in w.mutexes {
      u := w.mutexes[home(t)];
    }
  }

  // An update that finds the lock file held fails at once, without waiting and without a trace.
  lemma HeldLockFails(home: nat -> nat, w: World, t: nat, ok: bool)
    requires PhaseOf(w, t).InMutex? && PhaseOf(w, t).call.Update? && w.lockOwner.Some?
    ensures Enabled(home, w, Advance(t, ok))
    ensures var v := Next(home, w, Advance(t, ok));
            PhaseOf(v, t) == Leaving(Failed(PhaseOf(w, t).id, None)) && v.file == w.file && v.tenures == w.tenures
  {
  }
}
