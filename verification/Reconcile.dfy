// Driving the operating system's schedules towards the job store.
module Reconcile {
  import opened Options
  import opened Orders

  // What was recorded when a schedule was last installed. Timestamps are not modelled.
  datatype OSSchedule = OSSchedule(scheduleID: string, installID: string, configPathHash: string, specHash: string)

  datatype Job = Job(id: string, enabled: bool, schedule: string, osSchedule: OSSchedule)

  datatype Kind = Install | Remove | RemoveDisabled

  datatype Action = Action(jobID: string, kind: Kind)

  // The surroundings: the hash of a schedule (which may fail), the check of an ID, and what the
  // platform's scheduler records.
  datatype Env = Env(
    configHash: string,
    hashSpec: string -> Option<string>,
    isValidID: string -> bool,
    scheduleID: string -> string,
    installID: string,
    schedulerConfigHash: string)

  // How a scheduler or store call may go wrong; a failed scheduler call may have had its effect.
  datatype Fault = Fine | SchedulerFails(tookEffect: bool) | StoreFails

  // ----- Which actions -----

  predicate CheckInstallNeeded(env: Env, job: Job) {
    var os := job.osSchedule;
    if os.scheduleID == "" then true
    else if os.installID == "" then true
    else if env.configHash != "" && os.configPathHash != "" && os.configPathHash != env.configHash then true
    else if os.specHash != "" && env.hashSpec(job.schedule).Some? && env.hashSpec(job.schedule).value != os.specHash then true
    else false
  }

  predicate NeedsInstall(env: Env, store: map<string, Job>, id: string) {
    id in store && store[id].enabled && CheckInstallNeeded(env, store[id])
  }

  predicate NeedsDisabledRemoval(store: map<string, Job>, id: string) {
    id in store && !store[id].enabled && store[id].osSchedule.scheduleID != ""
  }

  predicate IsOrphan(env: Env, store: map<string, Job>, id: string) {
    id !in store && env.isValidID(id)
  }

  function JobAction(env: Env, store: map<string, Job>, id: string): seq<Action> {
    if NeedsInstall(env, store, id) then [Action(id, Install)]
    else if NeedsDisabledRemoval(store, id) then [Action(id, RemoveDisabled)]
    else []
  }

  function JobActions(env: Env, store: map<string, Job>, order: seq<string>): seq<Action> {
    if order == [] then []
    else JobActions(env, store, order[..|order| - 1]) + JobAction(env, store, order[|order| - 1])
  }

  function OrphanActions(env: Env, store: map<string, Job>, ownIDs: seq<string>): seq<Action> {
    if ownIDs == [] then []
    else
      var id := ownIDs[|ownIDs| - 1];
      OrphanActions(env, store, ownIDs[..|ownIDs| - 1]) + (if IsOrphan(env, store, id) then [Action(id, Remove)] else [])
  }

  lemma NoActions(env: Env, store: map<string, Job>, some: seq<Action>)
    ensures JobActions(env, store, []) == [] == OrphanActions(env, store, []) && some + [] == some
  {
  }

  lemma OneMoreJob(env: Env, store: map<string, Job>, order: seq<string>, i: nat)
    requires i < |order|
    ensures JobActions(env, store, order[..i + 1]) == JobActions(env, store, order[..i]) + JobAction(env, store, order[i])
  {
    assert order[..i + 1][..i] == order[..i];
  }

  lemma OneMoreOrphan(env: Env, store: map<string, Job>, ownIDs: seq<string>, i: nat, before: seq<Action>)
    requires i < |ownIDs|
    ensures var result, id := before + OrphanActions(env, store, ownIDs[..i]), ownIDs[i];
            before + OrphanActions(env, store, ownIDs[..i + 1])
            == if env.isValidID(id) && id !in store then result + [Action(id, Remove)] else result
  {
    assert ownIDs[..i + 1][..i] == ownIDs[..i];
  }

  // The jobs come in the order of the map's iteration. Listing the system's schedules may fail, and
  // then there are no orphans.
  method ComputeReconcileActions(env: Env, cancelled: bool, store: map<string, Job>, order: seq<string>,
      ownIDs: Option<seq<string>>) returns (actions: Option<seq<Action>>)
    requires Enumerates(order, store.Keys)
    ensures actions.None? <==> cancelled
    ensures actions.Some? ==>
      actions.value == JobActions(env, store, order) +
        (if ownIDs.Some? then OrphanActions(env, store, ownIDs.value) else [])
    ensures actions.Some? ==> AreDue(env, store, if ownIDs.Some? then ownIDs.value else [], actions.value)
  {
    if cancelled {
      return None;
    }
    ActionsAreDue(env, store, order, if ownIDs.Some? then ownIDs.value else []);
    var result: seq<Action> := [];
    hide AreDue, CheckInstallNeeded, Enumerates, JobActions, OrphanActions, IsOrphan;
    NoActions(env, store, JobActions(env, store, order));
    for i := 0 to |order|
      invariant result == JobActions(env, store, order[..i])
    {
      var jobID := order[i];
      EachOnce(order, store.Keys, i);
      var job := store[jobID];
      if job.enabled {
        if CheckInstallNeeded(env, job) {
          result := result + [Action(jobID, Install)];
        }
      } else {
        if job.osSchedule.scheduleID != "" {
          result := result + [Action(jobID, RemoveDisabled)];
        }
      }
      OneMoreJob(env, store, order, i);
    }
    assert order[..|order|] == order;
    if ownIDs.None? {
      return Some(result);
    }
    var storeIDs := store.Keys;
    ghost var jobActions := result;
    for i := 0 to |ownIDs.value|
      invariant result == jobActions + OrphanActions(env, store, ownIDs.value[..i])
    {
      var osID := ownIDs.value[i];
      OneMoreOrphan(env, store, ownIDs.value, i, jobActions);
      if !env.isValidID(osID) {
        continue;
      }
      if osID !in storeIDs {
        result := result + [Action(osID, Remove)];
      }
    }
    assert ownIDs.value[..|ownIDs.value|] == ownIDs.value;
    return Some(result);
  }

  // Both hashes are known and differ.
  predicate Differ(recorded: string, current: string) {
    recorded != "" && current != "" && recorded != current
  }

  // Nothing was recorded about a schedule of the job, or only in part.
  predicate NeverInstalled(os: OSSchedule) {
    os.scheduleID == "" || os.installID == ""
  }

  // A hash that was recorded is known to differ from what it should be now.
  predicate Outdated(env: Env, schedule: string, os: OSSchedule) {
    || Differ(os.configPathHash, env.configHash)
    || (os.specHash != "" && env.hashSpec(schedule).Some? && env.hashSpec(schedule) != Some(os.specHash))
  }

  // The job calls for an install if it is enabled.
  predicate IsDue(env: Env, job: Job) {
    NeverInstalled(job.osSchedule) || Outdated(env, job.schedule, job.osSchedule)
  }

  // The actions are the installs that are due, the removals for disabled jobs that had a schedule, and
  // those of the schedules that belong to no job.
  ghost predicate AreDue(env: Env, store: map<string, Job>, ownIDs: seq<string>, actions: seq<Action>) {
    forall id ::
      && (Action(id, Install) in actions <==> id in store && store[id].enabled && IsDue(env, store[id]))
      && (Action(id, RemoveDisabled) in actions <==> id in store && !store[id].enabled && store[id].osSchedule.scheduleID != "")
      && (Action(id, Remove) in actions <==> id in ownIDs && id !in store && env.isValidID(id))
  }

  lemma ActionsAreDue(env: Env, store: map<string, Job>, order: seq<string>, ownIDs: seq<string>)
    requires Enumerates(order, store.Keys)
    ensures AreDue(env, store, ownIDs, JobActions(env, store, order) + OrphanActions(env, store, ownIDs))
  {
    hide JobActions, OrphanActions;
    var jobs, orphans := JobActions(env, store, order), OrphanActions(env, store, ownIDs);
    forall id
      ensures Action(id, Install) in jobs + orphans <==> id in store && store[id].enabled && IsDue(env, store[id])
      ensures Action(id, RemoveDisabled) in jobs + orphans
         <==> id in store && !store[id].enabled && store[id].osSchedule.scheduleID != ""
      ensures Action(id, Remove) in jobs + orphans <==> id in ownIDs && id !in store && env.isValidID(id)
    {
      JobActionsExact(env, store, order, Action(id, Install));
      JobActionsExact(env, store, order, Action(id, RemoveDisabled));
      JobActionsExact(env, store, order, Action(id, Remove));
      OrphanActionsExact(env, store, ownIDs, Action(id, Install));
      OrphanActionsExact(env, store, ownIDs, Action(id, RemoveDisabled));
      OrphanActionsExact(env, store, ownIDs, Action(id, Remove));
    }
  }

  // ----- Applying them -----

  datatype World = World(store: map<string, Job>, os: set<string>)

  function InstalledState(env: Env, job: Job): OSSchedule {
    OSSchedule(env.scheduleID(job.id), env.installID, env.schedulerConfigHash,
               match env.hashSpec(job.schedule) case Some(h) => h case None => "")
  }

  function SetOSSchedule(store: map<string, Job>, id: string, os: OSSchedule): map<string, Job>
    requires id in store
  {
    store[id := store[id].(osSchedule := os)]
  }

  datatype Applied = Applied(world: World, ok: bool)

  // An install goes to the scheduler under the job's own ID and is then recorded in the store, from
  // which the job may meanwhile have gone.
  function ApplyInstall(env: Env, state: map<string, Job>, w: World, id: string, fault: Fault): Applied {
    if id !in state then Applied(w, false)
    else
      var installed := w.(os := w.os + {state[id].id});
      match fault
      case SchedulerFails(tookEffect) => Applied(if tookEffect then installed else w, false)
      case StoreFails => Applied(installed, false)
      case Fine =>
        if id in w.store then
          Applied(installed.(store := SetOSSchedule(w.store, id, InstalledState(env, state[id]))), true)
        else Applied(installed, false)
  }

  function ApplyRemove(env: Env, w: World, id: string, fault: Fault): Applied {
    var removed := w.(os := w.os - {id});
    if !env.isValidID(id) then Applied(w, false)
    else if fault.SchedulerFails? then Applied(if fault.tookEffect then removed else w, false)
    else Applied(removed, true)
  }

  function ApplyOne(env: Env, state: map<string, Job>, w: World, a: Action, fault: Fault): Applied {
    if a.kind.Install? then ApplyInstall(env, state, w, a.jobID, fault) else ApplyRemove(env, w, a.jobID, fault)
  }

  datatype Counts = Counts(installed: nat, removed: nat, disabled: nat, errors: seq<string>)

  function Tally(c: Counts, a: Action, ok: bool): Counts {
    if !ok then c.(errors := c.errors + [a.jobID])
    else
      match a.kind
      case Install => c.(installed := c.installed + 1)
      case Remove => c.(removed := c.removed + 1)
      case RemoveDisabled => c.(disabled := c.disabled + 1)
  }

  const NOTHING := Counts(0, 0, 0, [])

  datatype Outcome = Outcome(world: World, counts: Counts)

  // The actions one after another.
  function ApplyAll(env: Env, state: map<string, Job>, w: World, actions: seq<Action>, faults: Action -> Fault): Outcome {
    if actions == [] then Outcome(w, NOTHING)
    else
      var before := ApplyAll(env, state, w, actions[..|actions| - 1], faults);
      var last := actions[|actions| - 1];
      var applied := ApplyOne(env, state, before.world, last, faults(last));
      Outcome(applied.world, Tally(before.counts, last, applied.ok))
  }

  function DryRun(actions: seq<Action>): Counts {
    if actions == [] then NOTHING else Tally(DryRun(actions[..|actions| - 1]), actions[|actions| - 1], true)
  }

  class Reconciler {
    var store: map<string, Job>
    var os: set<string>
    const env: Env

    constructor (env: Env, store: map<string, Job>, os: set<string>)
      ensures this.env == env && this.store == store && this.os == os
    {
      this.env, this.store, this.os := env, store, os;
    }

    function Now(): World
      reads this
    {
      World(store, os)
    }

    method DryRunResult(actions: seq<Action>) returns (result: Counts)
      ensures result == DryRun(actions)
    {
      result := NOTHING;
      for i := 0 to |actions|
        invariant result == DryRun(actions[..i])
      {
        assert actions[..i + 1][..i] == actions[..i];
        match actions[i].kind
        case Install => result := result.(installed := result.installed + 1);
        case Remove => result := result.(removed := result.removed + 1);
        case RemoveDisabled => result := result.(disabled := result.disabled + 1);
      }
      assert actions[..|actions|] == actions;
    }

    method InstallJob(id: string, state: map<string, Job>, fault: Fault) returns (ok: bool)
      modifies this
      ensures Applied(Now(), ok) == ApplyInstall(env, state, old(Now()), id, fault)
    {
      if id !in state {
        return false;
      }
      var job := state[id];
      if fault.SchedulerFails? {
        if fault.tookEffect {
          os := os + {job.id};
        }
        return false;
      }
      os := os + {job.id};
      if fault.StoreFails? || id !in store {
        return false;
      }
      store := store[id := store[id].(osSchedule := InstalledState(env, job))];
      return true;
    }

    method RemoveSchedule(id: string, fault: Fault) returns (ok: bool)
      modifies this
      ensures Applied(Now(), ok) == ApplyRemove(env, old(Now()), id, fault)
    {
      if !env.isValidID(id) {
        return false;
      }
      if fault.SchedulerFails? {
        if fault.tookEffect {
          os := os - {id};
        }
        return false;
      }
      os := os - {id};
      return true;
    }

    // `cancelAt` is the number of actions after which the context is found cancelled.
    method ApplyReconcileActions(actions: seq<Action>, state: map<string, Job>, faults: Action -> Fault, cancelAt: nat)
        returns (result: Counts, completed: bool)
      modifies this
      ensures completed == (cancelAt >= |actions|)
      ensures Outcome(Now(), result)
           == ApplyAll(env, state, old(Now()), if completed then actions else actions[..cancelAt], faults)
    {
      result := NOTHING;
      for i := 0 to |actions|
        invariant i <= cancelAt
        invariant Outcome(Now(), result) == ApplyAll(env, state, old(Now()), actions[..i], faults)
      {
        if i == cancelAt {
          return result, false;
        }
        var action := actions[i];
        assert actions[..i + 1][..i] == actions[..i];
        var ok: bool;
        match action.kind {
          case Install =>
            ok := InstallJob(action.jobID, state, faults(action));
            if ok {
              result := result.(installed := result.installed + 1);
            }
          case Remove =>
            ok := RemoveSchedule(action.jobID, faults(action));
            if ok {
              result := result.(removed := result.removed + 1);
            }
          case RemoveDisabled =>
            ok := RemoveSchedule(action.jobID, faults(action));
            if ok {
              result := result.(disabled := result.disabled + 1);
            }
        }
        if !ok {
          result := result.(errors := result.errors + [action.jobID]);
        }
      }
      assert actions[..|actions|] == actions;
      return result, true;
    }

    // A whole run in which every call succeeds: each job is settled, orphans are gone, and the numbers
    // returned are those of the jobs that called for something. A dry run returns the same numbers and
    // changes nothing.
    method ReconcileSchedules(dryRun: bool, order: seq<string>, ownIDs: seq<string>) returns (result: Counts)
      requires Enumerates(order, store.Keys) && Enumerates(ownIDs, os)
      requires forall id | id in store :: store[id].id == id
      requires forall id | id in store :: env.isValidID(id)
      modifies this
      ensures result == Counts(|ToInstall(env, old(Now()))|, |ToRemove(env, old(Now()))|, |ToDisable(old(Now()))|, [])
      ensures dryRun ==> Now() == old(Now())
      ensures !dryRun ==> store.Keys == old(store).Keys && forall id :: IsSettled(env, old(Now()), Now(), id)
    {
      var actions := ComputeReconcileActions(env, false, store, order, Some(ownIDs));
      ghost var w, faults: Action -> Fault := Now(), (a: Action) => Fine;
      assert ActionsFor(env, w, actions.value, order, ownIDs);
      forall a | a in actions.value
        ensures Succeeds(env, w.store, faults, a)
      {
        ActionsAreWanted(env, w, actions.value, order, ownIDs, a);
      }
      CountsAreExact(env, w, actions.value, order, ownIDs, faults);
      Confluent(env, w, actions.value, order, ownIDs, faults);
      forall id
        ensures IsSettled(env, w, ApplyAll(env, w.store, w, actions.value, faults).world, id)
      {
        EveryJobIsSettled(env, w, actions.value, order, ownIDs, faults, id);
      }
      hide ActionsFor, Succeeds, IsSettled, ApplyAll, DryRun;
      if dryRun {
        result := DryRunResult(actions.value);
      } else {
        var completed: bool;
        result, completed := ApplyReconcileActions(actions.value, store, (a: Action) => Fine, |actions.value|);
      }
    }

    // Repairs one job's schedule; it does nothing for a disabled job or one that is in order, and
    // when it succeeds the job is in order.
    method SelfRepair(jobID: string, fault: Fault) returns (ok: bool)
      modifies this
      ensures jobID !in old(store) ==> !ok && Now() == old(Now())
      ensures jobID in old(store) && !NeedsInstall(env, old(store), jobID) ==> ok && Now() == old(Now())
      ensures NeedsInstall(env, old(store), jobID) ==>
        Applied(Now(), ok) == ApplyInstall(env, old(store), old(Now()), jobID, fault)
      ensures ok && Consistent(env) ==> !NeedsInstall(env, store, jobID)
      ensures jobID in old(store) && !(old(store)[jobID].enabled && IsDue(env, old(store)[jobID])) ==> ok && Now() == old(Now())
      ensures jobID in old(store) && old(store)[jobID].enabled && IsDue(env, old(store)[jobID]) ==> ok == fault.Fine?
      ensures jobID in old(store) && old(store)[jobID].id == jobID && old(store)[jobID].enabled && ok ==>
        IsSettled(env, old(Now()), Now(), jobID)
      ensures store.Keys == old(store).Keys && forall id | id in store && id != jobID :: store[id] == old(store)[id]
    {
      var state := store;
      if jobID !in state {
        return false;
      }
      var job := state[jobID];
      if !job.enabled {
        return true;
      }
      if !CheckInstallNeeded(env, job) {
        return true;
      }
      ok := InstallJob(jobID, state, fault);
    }
  }

  // ----- Accounting -----

  function Total(c: Counts): nat {
    c.installed + c.removed + c.disabled + |c.errors|
  }

  // Every action is counted once, as done or as failed, and a dry run counts them all as done; the
  // difference between the two is exactly the errors.
  lemma {:induction false} EveryActionIsCounted(env: Env, state: map<string, Job>, w: World, actions: seq<Action>,
      faults: Action -> Fault)
    ensures var c := ApplyAll(env, state, w, actions, faults).counts;
            var d := DryRun(actions);
            && Total(c) == |actions| == Total(d)
            && d.errors == []
            && c.installed <= d.installed && c.removed <= d.removed && c.disabled <= d.disabled
            && (c.errors == [] ==> c == d)
  {
    if actions != [] {
      EveryActionIsCounted(env, state, w, actions[..|actions| - 1], faults);
    }
  }

  // What one action does, whatever goes wrong: it succeeds exactly when the scheduler call, the ID check
  // and the store call do; a success has the whole effect, a failure leaves the store alone and may leave
  // the schedule installed or removed; nothing else is touched.
  lemma OneAction(env: Env, state: map<string, Job>, w: World, a: Action, fault: Fault, id: string)
    requires a.jobID in state ==> state[a.jobID].id == a.jobID
    ensures var done := ApplyOne(env, state, w, a, fault);
            var v := done.world;
            && (done.ok <==>
                  if a.kind.Install? then fault.Fine? && a.jobID in state && a.jobID in w.store
                  else !fault.SchedulerFails? && env.isValidID(a.jobID))
            && (id != a.jobID ==> (id in v.os <==> id in w.os))
            && (a.jobID in v.os <==>
                  if a.kind.Install? then a.jobID in w.os || (a.jobID in state && fault != SchedulerFails(false))
                  else a.jobID in w.os && (fault == SchedulerFails(false) || !env.isValidID(a.jobID)))
            && v.store.Keys == w.store.Keys
            && (id in w.store && !(done.ok && a.kind.Install? && id == a.jobID) ==> v.store[id] == w.store[id])
            && (done.ok && a.kind.Install? && id == a.jobID ==>
                  var hash := env.hashSpec(state[id].schedule);
                  v.store[id] == w.store[id].(osSchedule := OSSchedule(env.scheduleID(id), env.installID, env.schedulerConfigHash,
                                                                       if hash.Some? then hash.value else "")))
  {
  }

  // Each further action is counted under its kind if it succeeds, and among the errors if not.
  lemma OneMoreCounted(env: Env, state: map<string, Job>, w: World, actions: seq<Action>, a: Action, faults: Action -> Fault)
    ensures var before, after := ApplyAll(env, state, w, actions, faults), ApplyAll(env, state, w, actions + [a], faults);
            var done := ApplyOne(env, state, before.world, a, faults(a));
            var c := before.counts;
            && after.world == done.world
            && after.counts ==
                 if !done.ok then Counts(c.installed, c.removed, c.disabled, c.errors + [a.jobID])
                 else Counts(c.installed + (if a.kind == Install then 1 else 0), c.removed + (if a.kind == Remove then 1 else 0),
                             c.disabled + (if a.kind == RemoveDisabled then 1 else 0), c.errors)
  {
    assert (actions + [a])[..|actions|] == actions;
  }

  // ----- Which actions there are, whatever the order -----

  lemma {:induction false} JobActionsExact(env: Env, store: map<string, Job>, order: seq<string>, a: Action)
    ensures a in JobActions(env, store, order) <==> a.jobID in order && a in JobAction(env, store, a.jobID)
  {
    if order != [] {
      var n := |order| - 1;
      JobActionsExact(env, store, order[..n], a);
      assert order == order[..n] + [order[n]];
    }
  }

  lemma {:induction false} OrphanActionsExact(env: Env, store: map<string, Job>, ownIDs: seq<string>, a: Action)
    ensures a in OrphanActions(env, store, ownIDs) <==>
      a.jobID in ownIDs && a.kind.Remove? && IsOrphan(env, store, a.jobID)
  {
    if ownIDs != [] {
      var n := |ownIDs| - 1;
      OrphanActionsExact(env, store, ownIDs[..n], a);
      assert ownIDs == ownIDs[..n] + [ownIDs[n]];
    }
  }

  // The actions for a world: computed from its store and its set of schedules, in any orders.
  ghost predicate ActionsFor(env: Env, w: World, actions: seq<Action>, order: seq<string>, ownIDs: seq<string>) {
    && Enumerates(order, w.store.Keys) && Enumerates(ownIDs, w.os)
    && actions == JobActions(env, w.store, order) + OrphanActions(env, w.store, ownIDs)
  }

  predicate IsWanted(env: Env, w: World, a: Action) {
    match a.kind
    case Install => NeedsInstall(env, w.store, a.jobID)
    case RemoveDisabled => NeedsDisabledRemoval(w.store, a.jobID)
    case Remove => a.jobID in w.os && IsOrphan(env, w.store, a.jobID)
  }

  lemma ActionsAreWanted(env: Env, w: World, actions: seq<Action>, order: seq<string>, ownIDs: seq<string>, a: Action)
    requires ActionsFor(env, w, actions, order, ownIDs)
    ensures a in actions <==> IsWanted(env, w, a)
  {
    hide JobActions, OrphanActions, NeedsInstall, NeedsDisabledRemoval, IsOrphan;
    JobActionsExact(env, w.store, order, a);
    OrphanActionsExact(env, w.store, ownIDs, a);
    NotBoth(env, w.store, a.jobID);
  }

  lemma NotBoth(env: Env, store: map<string, Job>, id: string)
    ensures NeedsInstall(env, store, id) ==> id in store && !NeedsDisabledRemoval(store, id)
    ensures NeedsDisabledRemoval(store, id) ==> id in store
  {
  }

  // ----- The result of applying them -----

  // Jobs are filed under their own IDs, as the store's additions do.
  predicate Keyed(store: map<string, Job>) {
    forall id | id in store :: store[id].id == id
  }

  // The effect of a set of actions, regardless of order.
  function AfterAll(env: Env, state: map<string, Job>, w: World, actions: seq<Action>): World {
    World(
      map id | id in w.store ::
        if Action(id, Install) in actions && id in state
        then w.store[id].(osSchedule := InstalledState(env, state[id])) else w.store[id],
      (w.os + (set a | a in actions && a.kind.Install? :: a.jobID)) - (set a | a in actions && !a.kind.Install? :: a.jobID))
  }

  // No job is both installed and removed.
  predicate NoConflict(actions: seq<Action>) {
    forall a, b | a in actions && b in actions && a.jobID == b.jobID :: a.kind.Install? == b.kind.Install?
  }

  predicate Succeeds(env: Env, state: map<string, Job>, faults: Action -> Fault, a: Action) {
    && faults(a).Fine?
    && (if a.kind.Install? then a.jobID in state && state[a.jobID].id == a.jobID else env.isValidID(a.jobID))
  }

  lemma {:induction false} ApplyAllExact(env: Env, state: map<string, Job>, w: World, actions: seq<Action>,
      faults: Action -> Fault)
    requires NoConflict(actions) && w.store.Keys == state.Keys
    requires forall a | a in actions :: Succeeds(env, state, faults, a)
    ensures ApplyAll(env, state, w, actions, faults).world == AfterAll(env, state, w, actions)
    ensures ApplyAll(env, state, w, actions, faults).counts == DryRun(actions)
  {
    if actions != [] {
      var n := |actions| - 1;
      var before, last := actions[..n], actions[n];
      assert actions == before + [last];
      assert last in actions;
      ApplyAllExact(env, state, w, before, faults);
      var mid := AfterAll(env, state, w, before);
      AfterOneMore(env, state, w, before, last);
    }
  }

  lemma AfterOneMore(env: Env, state: map<string, Job>, w: World, before: seq<Action>, last: Action)
    requires NoConflict(before + [last]) && w.store.Keys == state.Keys
    requires if last.kind.Install? then last.jobID in state && state[last.jobID].id == last.jobID else env.isValidID(last.jobID)
    ensures ApplyOne(env, state, AfterAll(env, state, w, before), last, Fine)
         == Applied(AfterAll(env, state, w, before + [last]), true)
  {
    OsOneMore(w.os, before, last);
    StoreOneMore(env, state, w, before, last);
  }

  lemma StoreOneMore(env: Env, state: map<string, Job>, w: World, before: seq<Action>, last: Action)
    requires w.store.Keys == state.Keys && (last.kind.Install? ==> last.jobID in state)
    ensures AfterAll(env, state, w, before + [last]).store ==
      var mid := AfterAll(env, state, w, before).store;
      if last.kind.Install? then mid[last.jobID := mid[last.jobID].(osSchedule := InstalledState(env, state[last.jobID]))] else mid
  {
    hide InstalledState;
    var mid, end := AfterAll(env, state, w, before).store, AfterAll(env, state, w, before + [last]).store;
    forall id | id in w.store
      ensures Action(id, Install) in before + [last] <==> Action(id, Install) in before || Action(id, Install) == last
    {
    }
  }

  lemma OsOneMore(os: set<string>, before: seq<Action>, last: Action)
    requires NoConflict(before + [last])
    ensures var actions := before + [last];
            var mid := (os + (set a | a in before && a.kind.Install? :: a.jobID)) - (set a | a in before && !a.kind.Install? :: a.jobID);
            var end := (os + (set a | a in actions && a.kind.Install? :: a.jobID)) - (set a | a in actions && !a.kind.Install? :: a.jobID);
            end == if last.kind.Install? then mid + {last.jobID} else mid - {last.jobID}
  {
    var actions := before + [last];
    assert last in actions;
    var plus := set a | a in actions && a.kind.Install? :: a.jobID;
    var minus := set a | a in actions && !a.kind.Install? :: a.jobID;
    assert plus == (set a | a in before && a.kind.Install? :: a.jobID) + (if last.kind.Install? then {last.jobID} else {}) by {
      assert forall a :: a in actions <==> a in before || a == last;
    }
    assert minus == (set a | a in before && !a.kind.Install? :: a.jobID) + (if last.kind.Install? then {} else {last.jobID}) by {
      assert forall a :: a in actions <==> a in before || a == last;
    }
    assert last.kind.Install? ==> last.jobID !in minus;
  }

  lemma ActionsDoNotConflict(env: Env, w: World, actions: seq<Action>, order: seq<string>, ownIDs: seq<string>)
    requires ActionsFor(env, w, actions, order, ownIDs)
    ensures NoConflict(actions)
  {
    forall a, b | a in actions && b in actions && a.jobID == b.jobID
      ensures a.kind.Install? == b.kind.Install?
    {
      ActionsAreWanted(env, w, actions, order, ownIDs, a);
      ActionsAreWanted(env, w, actions, order, ownIDs, b);
    }
  }

  // ----- Main results -----

  // The store and the schedules at the end, when every call succeeds.
  function Reconciled(env: Env, w: World): World {
    World(
      map id | id in w.store ::
        if NeedsInstall(env, w.store, id) then w.store[id].(osSchedule := InstalledState(env, w.store[id])) else w.store[id],
      (w.os + (set id | id in w.store && NeedsInstall(env, w.store, id)))
        - (set id | id in w.store && NeedsDisabledRemoval(w.store, id))
        - (set id | id in w.os && IsOrphan(env, w.store, id)))
  }

  // Whatever the iteration orders, the same store and the same schedules result: everything there
  // was and everything installed, less the disabled jobs that had a schedule and the valid orphans.
  // The counts are those of the dry run.
  lemma Confluent(env: Env, w: World, actions: seq<Action>, order: seq<string>, ownIDs: seq<string>, faults: Action -> Fault)
    requires Keyed(w.store) && ActionsFor(env, w, actions, order, ownIDs)
    requires forall a | a in actions :: Succeeds(env, w.store, faults, a)
    ensures ApplyAll(env, w.store, w, actions, faults) == Outcome(Reconciled(env, w), DryRun(actions))
  {
    ActionsDoNotConflict(env, w, actions, order, ownIDs);
    ApplyAllExact(env, w.store, w, actions, faults);
    hide ActionsFor;
    hide ApplyAll;
    hide NeedsInstall;
    hide NeedsDisabledRemoval;
    hide IsOrphan;
    forall a: Action
      ensures a in actions <==> IsWanted(env, w, a)
    {
      ActionsAreWanted(env, w, actions, order, ownIDs, a);
    }
    AfterWanted(env, w, actions);
  }

  lemma AfterWanted(env: Env, w: World, actions: seq<Action>)
    requires forall a: Action :: a in actions <==> IsWanted(env, w, a)
    ensures AfterAll(env, w.store, w, actions) == Reconciled(env, w)
  {
    var plus := set a | a in actions && a.kind.Install? :: a.jobID;
    var minus := set a | a in actions && !a.kind.Install? :: a.jobID;
    forall id
      ensures id in plus <==> NeedsInstall(env, w.store, id)
      ensures id in minus <==> NeedsDisabledRemoval(w.store, id) || (id in w.os && IsOrphan(env, w.store, id))
    {
      assert Action(id, Install) in actions <==> NeedsInstall(env, w.store, id);
      assert Action(id, RemoveDisabled) in actions <==> NeedsDisabledRemoval(w.store, id);
      assert Action(id, Remove) in actions <==> id in w.os && IsOrphan(env, w.store, id);
    }
  }

  // The world `v` that a run leaves, as far as `id` is concerned.
  predicate IsSettled(env: Env, w: World, v: World, id: string) {
    && (id in w.store <==> id in v.store)
    && if id !in w.store then id in v.os <==> id in w.os && !env.isValidID(id)
       else
         var job := w.store[id];
         var os, hash := job.osSchedule, env.hashSpec(job.schedule);
         if job.enabled && IsDue(env, job) then
           && id in v.os
           && v.store[id] == Job(id, true, job.schedule,
                OSSchedule(env.scheduleID(id), env.installID, env.schedulerConfigHash, if hash.Some? then hash.value else ""))
         else
           && v.store[id] == job
           && (id in v.os <==> id in w.os && (job.enabled || os.scheduleID == ""))
  }

  // What becomes of one job, when every call succeeds: an enabled job that was never installed, or whose
  // record is outdated, ends up with a schedule and with a record of exactly that schedule; any other
  // enabled job is left as it was; a disabled job loses the schedule it had and nothing else.
  lemma EveryJobIsSettled(env: Env, w: World, actions: seq<Action>, order: seq<string>, ownIDs: seq<string>,
      faults: Action -> Fault, id: string)
    requires Keyed(w.store) && ActionsFor(env, w, actions, order, ownIDs)
    requires forall a | a in actions :: Succeeds(env, w.store, faults, a)
    ensures var v := ApplyAll(env, w.store, w, actions, faults).world;
            v.store.Keys == w.store.Keys && IsSettled(env, w, v, id)
  {
    Confluent(env, w, actions, order, ownIDs, faults);
    hide ApplyAll, ActionsFor, Succeeds;
  }

  function ToInstall(env: Env, w: World): set<string> {
    set id | id in w.store && w.store[id].enabled && IsDue(env, w.store[id])
  }

  function ToDisable(w: World): set<string> {
    set id | id in w.store && !w.store[id].enabled && w.store[id].osSchedule.scheduleID != ""
  }

  function ToRemove(env: Env, w: World): set<string> {
    set id | id in w.os && id !in w.store && env.isValidID(id)
  }

  // The numbers reported are those of the jobs and schedules that called for each kind of action.
  lemma CountsAreExact(env: Env, w: World, actions: seq<Action>, order: seq<string>, ownIDs: seq<string>, faults: Action -> Fault)
    requires Keyed(w.store) && ActionsFor(env, w, actions, order, ownIDs)
    requires forall a | a in actions :: Succeeds(env, w.store, faults, a)
    ensures var c := ApplyAll(env, w.store, w, actions, faults).counts;
            && c.errors == []
            && c.installed == |ToInstall(env, w)| && c.disabled == |ToDisable(w)| && c.removed == |ToRemove(env, w)|
  {
    Confluent(env, w, actions, order, ownIDs, faults);
    ActionsDiffer(env, w, actions, order, ownIDs);
    DryRunCounts(actions);
    forall a: Action
      ensures a in actions <==> IsWanted(env, w, a)
    {
      ActionsAreWanted(env, w, actions, order, ownIDs, a);
    }
    hide ApplyAll, Succeeds, ActionsFor, NoRepeats, DryRun;
    WantedOfKind(env, w, actions);
  }

  lemma WantedOfKind(env: Env, w: World, actions: seq<Action>)
    requires forall a: Action :: a in actions <==> IsWanted(env, w, a)
    ensures |OfKind(actions, Install)| == |ToInstall(env, w)| && |OfKind(actions, RemoveDisabled)| == |ToDisable(w)|
    ensures |OfKind(actions, Remove)| == |ToRemove(env, w)|
  {
    IDsOfKind(OfKind(actions, Install), Install, ToInstall(env, w));
    IDsOfKind(OfKind(actions, RemoveDisabled), RemoveDisabled, ToDisable(w));
    IDsOfKind(OfKind(actions, Remove), Remove, ToRemove(env, w));
  }

  function OfKind(actions: seq<Action>, kind: Kind): set<Action> {
    set a | a in actions && a.kind == kind
  }

  lemma {:induction false} DryRunCounts(actions: seq<Action>)
    requires NoRepeats(actions)
    ensures DryRun(actions)
         == Counts(|OfKind(actions, Install)|, |OfKind(actions, Remove)|, |OfKind(actions, RemoveDisabled)|, [])
  {
    if actions != [] {
      var n := |actions| - 1;
      DryRunCounts(actions[..n]);
      assert actions[n] !in actions[..n];
      OneMoreOfKind(actions[..n], actions[n], Install);
      OneMoreOfKind(actions[..n], actions[n], Remove);
      OneMoreOfKind(actions[..n], actions[n], RemoveDisabled);
      assert actions == actions[..n] + [actions[n]];
      hide NoRepeats, OfKind;
    }
  }

  lemma OneMoreOfKind(front: seq<Action>, last: Action, kind: Kind)
    requires last !in front
    ensures |OfKind(front + [last], kind)| == |OfKind(front, kind)| + (if last.kind == kind then 1 else 0)
  {
    assert OfKind(front + [last], kind) == OfKind(front, kind) + (if last.kind == kind then {last} else {});
  }

  lemma {:induction false} IDsOfKind(actions: set<Action>, kind: Kind, ids: set<string>)
    requires forall a | a in actions :: a.kind == kind && a.jobID in ids
    requires forall id | id in ids :: Action(id, kind) in actions
    ensures |actions| == |ids|
    decreases ids
  {
    if id :| id in ids {
      IDsOfKind(actions - {Action(id, kind)}, kind, ids - {id});
    } else {
      assert actions == {};
    }
  }

  lemma {:induction false} JobActionsDiffer(env: Env, store: map<string, Job>, order: seq<string>)
    requires NoRepeats(order)
    ensures NoRepeats(JobActions(env, store, order))
  {
    if order != [] {
      var n := |order| - 1;
      JobActionsDiffer(env, store, order[..n]);
      var last := JobAction(env, store, order[n]);
      assert order[n] !in order[..n];
      if last != [] {
        JobActionsExact(env, store, order[..n], last[0]);
        AppendNew(JobActions(env, store, order[..n]), last[0]);
      }
    }
  }

  lemma {:induction false} OrphanActionsDiffer(env: Env, store: map<string, Job>, ownIDs: seq<string>)
    requires NoRepeats(ownIDs)
    ensures NoRepeats(OrphanActions(env, store, ownIDs))
  {
    if ownIDs != [] {
      var n := |ownIDs| - 1;
      OrphanActionsDiffer(env, store, ownIDs[..n]);
      assert ownIDs[n] !in ownIDs[..n];
      var last := Action(ownIDs[n], Remove);
      OrphanActionsExact(env, store, ownIDs[..n], last);
      AppendNew(OrphanActions(env, store, ownIDs[..n]), last);
    }
  }

  lemma ActionsDiffer(env: Env, w: World, actions: seq<Action>, order: seq<string>, ownIDs: seq<string>)
    requires ActionsFor(env, w, actions, order, ownIDs)
    ensures NoRepeats(actions)
  {
    JobActionsDiffer(env, w.store, order);
    OrphanActionsDiffer(env, w.store, ownIDs);
    var a, b := JobActions(env, w.store, order), OrphanActions(env, w.store, ownIDs);
    forall i, j | 0 <= i < |a| && 0 <= j < |b|
      ensures a[i] != b[j]
    {
      JobActionsExact(env, w.store, order, a[i]);
      OrphanActionsExact(env, w.store, ownIDs, b[j]);
    }
  }

  // The scheduler records non-empty IDs, and the configuration hash that the reconciler compares with.
  ghost predicate Consistent(env: Env) {
    && env.installID != "" && env.schedulerConfigHash == env.configHash
    && forall id :: env.scheduleID(id) != ""
  }

  // A second run installs nothing, finds no orphan, and leaves the schedules as they are. It may
  // again issue removals for disabled jobs, and those are the ones it issued before.
  lemma Converges(env: Env, w: World)
    requires Keyed(w.store) && Consistent(env)
    ensures var v := Reconciled(env, w);
            && (forall id :: !NeedsInstall(env, v.store, id))
            && (forall id | id in v.os :: !IsOrphan(env, v.store, id))
            && (forall id :: NeedsDisabledRemoval(v.store, id) <==> NeedsDisabledRemoval(w.store, id))
            && Reconciled(env, v) == v
  {
    var v := Reconciled(env, w);
    forall id
      ensures !NeedsInstall(env, v.store, id)
      ensures NeedsDisabledRemoval(v.store, id) <==> NeedsDisabledRemoval(w.store, id)
    {
    }
    forall id | id in v.os
      ensures !IsOrphan(env, v.store, id) && !NeedsDisabledRemoval(v.store, id)
    {
    }
  }

  // The actions of the second run, whatever its iteration orders.
  lemma SecondRun(env: Env, w: World, actions: seq<Action>, order: seq<string>, ownIDs: seq<string>, a: Action)
    requires Keyed(w.store) && Consistent(env) && ActionsFor(env, Reconciled(env, w), actions, order, ownIDs)
    requires a in actions
    ensures a.kind.RemoveDisabled? && NeedsDisabledRemoval(w.store, a.jobID)
  {
    Converges(env, w);
    ActionsAreWanted(env, Reconciled(env, w), actions, order, ownIDs, a);
  }

  // ----- Drift -----

  // After an install, an enabled job is installed again exactly when its configuration or its schedule
  // is known to have changed since: `env` and `job` are those of the install, `later` and
  // `edited` those of the next run.
  lemma DriftIsDetected(env: Env, job: Job, later: Env, edited: Job)
    requires env.installID != "" && env.scheduleID(job.id) != ""
    requires edited.osSchedule == InstalledState(env, job)
    requires later.hashSpec == env.hashSpec && forall s :: env.hashSpec(s) != Some("")
    ensures CheckInstallNeeded(later, edited) <==>
      || Differ(env.schedulerConfigHash, later.configHash)
      || (env.hashSpec(job.schedule).Some? && env.hashSpec(edited.schedule).Some?
          && env.hashSpec(job.schedule) != env.hashSpec(edited.schedule))
  {
  }
}
