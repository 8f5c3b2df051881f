/** Every interleaving of Acquire, Release and Close on one session pool, as steps of any number of
    goroutines.  Each step is one critical section, the factory call, or the close of one session;
    a goroutine that has finished an operation may start another. */
module PoolProtocol {
  import opened SessionPool

  type Tid = nat

  datatype Phase =
    | Idle
    | AtLoop                       // in Acquire, about to take the lock
    | Waiting(signalled: bool)     // in cond.Wait
    | SlotTaken                    // live was raised; the factory lock is next
    | Building                     // in the factory, under the factory lock
    | BuildFailed
    | Built(s: Session)            // factory returned; the pool lock is next
    | Discarding(s: Session)       // found the pool closed; closes the session outside the lock
    | Holding(s: Session)          // the caller has the session
    | Closing(rest: seq<Session>)  // in Close, after the lock: sessions still to be closed

  /** The pool, the goroutines, and what is remembered of the past: `next` is the session the
      factory will return next (every session is new), `shut` holds the sessions closed at least
      once, `stale` counts the sessions that were free when the pool was closed, `owner` gives the
      goroutine that last obtained each session, and `closer` the one whose Close took effect. */
  datatype World = World(pool: Pool, threads: map<Tid, Phase>, ctxDone: set<Tid>, next: Session,
                         shut: set<Session>, stale: nat, owner: map<Session, Tid>, closer: Tid)

  datatype Step =
    | Begin(t: Tid, done: bool)    // Acquire is called with a context; a done one returns at once
    | Loop(t: Tid)
    | Wake(t: Tid)
    | EnterFactory(t: Tid)
    | FactoryReturns(t: Tid, ok: bool)
    | Settle(t: Tid)               // the critical section after the factory call
    | ShutDiscarded(t: Tid)
    | Release(t: Tid, ok: bool)
    | Close(t: Tid)
    | ShutNext(t: Tid)
    | Cancel(t: Tid)               // the context of t's current call is done
    | Watchdog(t: Tid)             // t's watchdog broadcasts

  /** Signals every goroutine asleep on the condition variable. */
  function Broadcast(threads: map<Tid, Phase>): map<Tid, Phase> {
    map t | t in threads :: if threads[t].Waiting? then Waiting(true) else threads[t]
  }

  predicate Enabled(w: World, step: Step) {
    && step.t in w.threads
    && var ph := w.threads[step.t];
       match step
       case Begin(_, _) => ph.Idle?
       case Loop(_) => ph.AtLoop?
       case Wake(_) => ph == Waiting(true)
       case EnterFactory(_) => ph.SlotTaken? && forall u | u in w.threads :: !w.threads[u].Building?
       case FactoryReturns(_, _) => ph.Building?
       case Settle(_) => ph.BuildFailed? || ph.Built?
       case ShutDiscarded(_) => ph.Discarding?
       case Release(_, _) => ph.Holding?
       case Close(_) => ph.Idle?
       case ShutNext(_) => ph.Closing?
       case Cancel(_) => true
       case Watchdog(t) => t in w.ctxDone
  }

  function To(w: World, t: Tid, ph: Phase): World {
    w.(threads := w.threads[t := ph])
  }

  /** A release before its broadcast. */
  function Released(w: World, t: Tid, ok: bool): World
    requires t in w.threads && w.threads[t].Holding?
  {
    var s := w.threads[t].s;
    w.(pool := ReleaseInto(w.pool, s, ok), threads := w.threads[t := Idle],
       shut := if Discards(w.pool, ok) then w.shut + {s} else w.shut)
  }

  function Next(w: World, step: Step): World
    requires Enabled(w, step)
  {
    var t := step.t;
    match step
    case Begin(_, done) => if done then w else To(w.(ctxDone := w.ctxDone - {t}), t, AtLoop)
    case Loop(_) =>
      var (pool, attempt) := TryAcquire(w.pool, t in w.ctxDone);
      var ph := match attempt
        case PoolClosed => Idle
        case ContextDone => Idle
        case Took(s) => Holding(s)
        case MayCreate => SlotTaken
        case MustWait => Waiting(false);
      To(w.(pool := pool, owner := if attempt.Took? then w.owner[attempt.s := t] else w.owner), t, ph)
    case Wake(_) => To(w, t, AtLoop)
    case EnterFactory(_) => To(w, t, Building)
    case FactoryReturns(_, ok) =>
      if ok then To(w.(next := w.next + 1, owner := w.owner[w.next := t]), t, Built(w.next)) else To(w, t, BuildFailed)
    case Settle(_) =>
      var ph := w.threads[t];
      if ph.BuildFailed? then To(w, t, Idle).(pool := FactoryFailed(w.pool), threads := Broadcast(w.threads[t := Idle]))
      else if w.pool.closed then
        w.(pool := FactoryDone(w.pool, ph.s), threads := Broadcast(w.threads[t := Discarding(ph.s)]))
      else w.(pool := FactoryDone(w.pool, ph.s), threads := w.threads[t := Holding(ph.s)])
    case ShutDiscarded(_) => To(w, t, Idle).(shut := w.shut + {w.threads[t].s})
    case Release(_, ok) =>
      var w' := Released(w, t, ok);
      w'.(threads := Broadcast(w'.threads))
    case Close(_) =>
      if w.pool.allClosed then w
      else w.(pool := CloseAll(w.pool), threads := Broadcast(w.threads[t := Closing(w.pool.all)]),
              stale := |w.pool.free|, closer := t)
    case ShutNext(_) =>
      var rest := w.threads[t].rest;
      if rest == [] then To(w, t, Idle)
      else To(w, t, Closing(rest[1..])).(shut := w.shut + {rest[0]})
    case Cancel(_) => w.(ctxDone := w.ctxDone + {t})
    case Watchdog(_) => w.(threads := Broadcast(w.threads))
  }

  function Initial(capacity: int, tids: set<Tid>): World {
    World(NewPool(capacity), map t | t in tids :: Idle, {}, 0, {}, 0, map[], 0)
  }

  /** The world after a sequence of steps, each of which must be enabled when it is taken. */
  predicate CanRun(w: World, steps: seq<Step>)
    decreases steps
  {
    steps == [] || (Enabled(w, steps[0]) && CanRun(Next(w, steps[0]), steps[1..]))
  }

  function RunAll(w: World, steps: seq<Step>): World
    requires CanRun(w, steps)
    decreases steps
  {
    if steps == [] then w else RunAll(Next(w, steps[0]), steps[1..])
  }

  // ----- The invariant -----

  /** The phases that count towards `live`. */
  predicate TakesSlot(ph: Phase) {
    ph.SlotTaken? || ph.Building? || ph.BuildFailed? || ph.Built? || ph.Holding?
  }

  function Slots(threads: map<Tid, Phase>): set<Tid> {
    set t | t in threads && TakesSlot(threads[t])
  }

  /** The phases of a goroutine that is responsible for a session. */
  predicate OwnsOne(ph: Phase) {
    ph.Built? || ph.Discarding? || ph.Holding?
  }

  predicate OwnedBy(w: World, s: Session, t: Tid) {
    t in w.threads && OwnsOne(w.threads[t]) && w.threads[t].s == s
  }

  predicate Owned(w: World, s: Session) {
    s in w.owner && OwnedBy(w, s, w.owner[s])
  }

  predicate Held(w: World, s: Session) {
    Owned(w, s) && w.threads[w.owner[s]].Holding?
  }

  predicate CloseListed(w: World, s: Session) {
    w.closer in w.threads && w.threads[w.closer].Closing? && s in w.threads[w.closer].rest
  }

  /** `live` is exactly the sessions in the pool, in use, or being created. */
  predicate SlotsCounted(w: World) {
    && w.pool.live == |w.pool.free| + |Slots(w.threads)| + w.stale
    && (!w.pool.closed ==> w.stale == 0 && w.pool.live <= w.pool.capacity)
    && w.pool.capacity > 0
  }

  /** `all` is the disjoint union of the free and the held sessions while the pool is open. */
  predicate ListsAgree(w: World) {
    && w.pool.closed == w.pool.allClosed
    && Distinct(w.pool.free) && Distinct(w.pool.all)
    && (w.pool.closed ==> w.pool.free == [] && w.pool.all == [])
    && (forall s | s in w.pool.all :: s in w.pool.free || Held(w, s))
    && (forall s | s in w.pool.free :: s in w.pool.all)
    && (!w.pool.closed ==> forall t | t in w.threads && w.threads[t].Holding? :: w.threads[t].s in w.pool.all)
  }

  /** A goroutine's session is its own, and not free; one Close at most has sessions to close. */
  predicate Exclusive(w: World) {
    && (forall t | t in w.threads && OwnsOne(w.threads[t]) ::
          var s := w.threads[t].s; s in w.owner && w.owner[s] == t && s !in w.pool.free && s < w.next)
    && (forall t | t in w.threads && w.threads[t].Closing? && w.threads[t].rest != [] :: t == w.closer && w.pool.closed)
  }

  /** The factory runs for one goroutine at a time. */
  predicate OneBuilder(w: World) {
    forall t, u | t in w.threads && u in w.threads && w.threads[t].Building? && w.threads[u].Building? :: t == u
  }

  /** A session that is free, or owned while the pool is open, has not been closed. */
  predicate Usable(w: World) {
    && (forall s | s in w.pool.free :: s !in w.shut)
    && (!w.pool.closed ==> forall t | t in w.threads && OwnsOne(w.threads[t]) ::
          w.threads[t].s !in w.shut && !w.threads[t].Discarding?)
  }

  /** Every session ever created is free, owned, waiting to be closed, or closed. */
  predicate Accounted(w: World) {
    && (forall s: Session | s < w.next :: s in w.pool.free || Owned(w, s) || CloseListed(w, s) || s in w.shut)
    && (forall s | s in w.pool.all :: s < w.next)
    && (forall s | s in w.shut :: s < w.next)
    && (forall t | t in w.threads && w.threads[t].Closing? :: forall s | s in w.threads[t].rest :: s < w.next)
  }

  /** A goroutine asleep and not signalled has every reason to be. */
  predicate SleepersBlocked(w: World) {
    forall t | t in w.threads && w.threads[t] == Waiting(false) ::
      w.pool.free == [] && w.pool.live == w.pool.capacity && !w.pool.closed
  }

  /** The invariant apart from who is asleep. */
  predicate Consistent(w: World) {
    SlotsCounted(w) && ListsAgree(w) && Exclusive(w) && OneBuilder(w) && Usable(w) && Accounted(w)
  }

  predicate Inv(w: World) {
    Consistent(w) && SleepersBlocked(w)
  }

  lemma InitialInv(capacity: int, tids: set<Tid>)
    ensures Inv(Initial(capacity, tids))
  {
    assert Slots(Initial(capacity, tids).threads) == {};
  }

  // ----- Preservation -----

  /** How a phase change moves the slot count. */
  lemma SlotsAfter(threads: map<Tid, Phase>, t: Tid, ph: Phase)
    requires t in threads
    ensures |Slots(threads[t := ph])| == |Slots(threads)|
              + (if TakesSlot(ph) then 1 else 0) - (if TakesSlot(threads[t]) then 1 else 0)
  {
    var before, after := Slots(threads), Slots(threads[t := ph]);
    assert after == if TakesSlot(ph) then before - {t} + {t} else before - {t};
  }

  /** A broadcast wakes everyone and changes nothing else. */
  lemma BroadcastKeeps(w: World)
    requires Consistent(w)
    ensures Inv(w.(threads := Broadcast(w.threads)))
  {
    hide Distinct;
    var w' := w.(threads := Broadcast(w.threads));
    assert forall t | t in w.threads && !w.threads[t].Waiting? :: w'.threads[t] == w.threads[t];
    assert Slots(w'.threads) == Slots(w.threads);
  }

  /** Phases without a session, between which a goroutine moves freely. */
  predicate Light(ph: Phase) {
    !OwnsOne(ph) && (ph.Closing? ==> ph.rest == [])
  }

  lemma MoveKeeps(w: World, t: Tid, ph: Phase, live: int)
    requires Consistent(w) && t in w.threads && Light(w.threads[t]) && Light(ph)
    requires live - w.pool.live == (if TakesSlot(ph) then 1 else 0) - (if TakesSlot(w.threads[t]) then 1 else 0)
    requires !w.pool.closed ==> live <= w.pool.capacity
    requires ph.Building? ==> forall u | u in w.threads :: !w.threads[u].Building?
    ensures Consistent(To(w, t, ph).(pool := w.pool.(live := live)))
  {
    SlotsAfter(w.threads, t, ph);
  }

  /** The most recently freed session goes to `t`. */
  function Taken(w: World, t: Tid, front: seq<Session>, s: Session): World {
    To(w.(pool := w.pool.(free := front), owner := w.owner[s := t]), t, Holding(s))
  }

  predicate CanTake(w: World, t: Tid, front: seq<Session>, s: Session) {
    Consistent(w) && t in w.threads && w.threads[t].AtLoop? && !w.pool.closed && w.pool.free == front + [s]
  }

  lemma TakeKeeps(w: World, t: Tid, front: seq<Session>, s: Session)
    requires CanTake(w, t, front, s)
    ensures Consistent(Taken(w, t, front, s))
  {
    TakeKeepsLists(w, t, front, s);
    TakeKeepsOwners(w, t, front, s);
    hide CanTake, Taken;
  }

  lemma TakeKeepsLists(w: World, t: Tid, front: seq<Session>, s: Session)
    requires CanTake(w, t, front, s)
    ensures SlotsCounted(Taken(w, t, front, s)) && ListsAgree(Taken(w, t, front, s))
  {
    hide Distinct, Usable, Accounted, OneBuilder;
    DistinctSnoc(front, s);
    SlotsAfter(w.threads, t, Holding(s));
    var w' := Taken(w, t, front, s);
    assert s in w.pool.free && forall x | x in w.pool.free :: x in front || x == s;
    assert forall x | x in front :: x in w.pool.free && x != s;
    assert forall x | x != s && Owned(w, x) :: Owned(w', x);
    assert Held(w', s);
  }

  lemma TakeKeepsOwners(w: World, t: Tid, front: seq<Session>, s: Session)
    requires CanTake(w, t, front, s)
    ensures var w' := Taken(w, t, front, s); Exclusive(w') && OneBuilder(w') && Usable(w') && Accounted(w')
  {
    hide Distinct, SlotsCounted;
    DistinctSnoc(front, s);
    var w' := Taken(w, t, front, s);
    assert s in w.pool.free && forall x | x in w.pool.free :: x in front || x == s;
    assert forall x | x in front :: x in w.pool.free && x != s;
    assert forall x | x != s && Owned(w, x) :: Owned(w', x);
    assert Owned(w', s);
  }

  /** The factory returns a session nobody has seen. */
  lemma BuiltKeeps(w: World, t: Tid)
    requires Consistent(w) && t in w.threads && w.threads[t].Building?
    ensures Consistent(To(w.(next := w.next + 1, owner := w.owner[w.next := t]), t, Built(w.next)))
  {
    hide Distinct;
    var w' := To(w.(next := w.next + 1, owner := w.owner[w.next := t]), t, Built(w.next));
    SlotsAfter(w.threads, t, Built(w.next));
    assert forall x | x != w.next && Owned(w, x) :: Owned(w', x);
    assert Owned(w', w.next);
  }

  /** The goroutine keeps its session and joins the pool's list, or finds the pool closed. */
  lemma EnlistKeeps(w: World, t: Tid)
    requires Consistent(w) && t in w.threads && w.threads[t].Built?
    ensures var s := w.threads[t].s;
            Consistent(To(w.(pool := FactoryDone(w.pool, s)), t, if w.pool.closed then Discarding(s) else Holding(s)))
  {
    hide Distinct;
    var s := w.threads[t].s;
    var ph := if w.pool.closed then Discarding(s) else Holding(s);
    var w' := To(w.(pool := FactoryDone(w.pool, s)), t, ph);
    SlotsAfter(w.threads, t, ph);
    DistinctSnoc(w.pool.all, s);
    assert forall x | Owned(w, x) :: Owned(w', x);
    assert forall x | Held(w, x) :: Held(w', x);
    assert !Held(w, s) && s !in w.pool.free;
  }

  /** The owner of a session closes it. */
  lemma ShutKeeps(w: World, t: Tid)
    requires Consistent(w) && t in w.threads && w.threads[t].Discarding?
    ensures Consistent(To(w, t, Idle).(shut := w.shut + {w.threads[t].s}))
  {
    hide Distinct;
    var w' := To(w, t, Idle).(shut := w.shut + {w.threads[t].s});
    SlotsAfter(w.threads, t, Idle);
    assert forall x | Owned(w, x) && x != w.threads[t].s :: Owned(w', x);
    assert forall x | Held(w, x) :: Held(w', x);
  }

  lemma ReleaseKeeps(w: World, t: Tid, ok: bool)
    requires Consistent(w) && t in w.threads && w.threads[t].Holding?
    ensures Consistent(Released(w, t, ok))
  {
    ReleaseKeepsLists(w, t, ok);
    ReleaseKeepsOwners(w, t, ok);
    hide Released;
  }

  lemma ReleaseKeepsLists(w: World, t: Tid, ok: bool)
    requires Consistent(w) && t in w.threads && w.threads[t].Holding?
    ensures SlotsCounted(Released(w, t, ok)) && ListsAgree(Released(w, t, ok))
  {
    hide Distinct, Without, Usable, Accounted, OneBuilder;
    var s := w.threads[t].s;
    var w' := Released(w, t, ok);
    SlotsAfter(w.threads, t, Idle);
    DistinctSnoc(w.pool.free, s);
    WithoutMembers(w.pool.all, s);
    assert forall x | Held(w, x) && x != s :: Held(w', x);
    if w.pool.closed {
      WithoutAbsent(w.pool.all, s);
    }
  }

  lemma ReleaseKeepsOwners(w: World, t: Tid, ok: bool)
    requires Consistent(w) && t in w.threads && w.threads[t].Holding?
    ensures var w' := Released(w, t, ok); Exclusive(w') && OneBuilder(w') && Usable(w') && Accounted(w')
  {
    hide Distinct, Without, SlotsCounted;
    var s := w.threads[t].s;
    var w' := Released(w, t, ok);
    WithoutMembers(w.pool.all, s);
    assert forall x | Owned(w, x) && x != s :: Owned(w', x);
    if w.pool.closed {
      WithoutAbsent(w.pool.all, s);
    }
  }

  /** Closing: everything the pool lists is now to be closed. */
  lemma CloseKeeps(w: World, t: Tid)
    requires Consistent(w) && t in w.threads && w.threads[t].Idle? && !w.pool.allClosed
    ensures Consistent(w.(pool := CloseAll(w.pool), threads := w.threads[t := Closing(w.pool.all)],
                          stale := |w.pool.free|, closer := t))
  {
    var w' := w.(pool := CloseAll(w.pool), threads := w.threads[t := Closing(w.pool.all)],
                 stale := |w.pool.free|, closer := t);
    SlotsAfter(w.threads, t, Closing(w.pool.all));
    assert forall x | Owned(w, x) :: Owned(w', x);
    assert forall x | x in w.pool.free :: CloseListed(w', x);
  }

  lemma ShutNextKeeps(w: World, t: Tid)
    requires Consistent(w) && t in w.threads && w.threads[t].Closing? && w.threads[t].rest != []
    ensures var rest := w.threads[t].rest;
            Consistent(To(w, t, Closing(rest[1..])).(shut := w.shut + {rest[0]}))
  {
    hide Distinct;
    var rest := w.threads[t].rest;
    var w' := To(w, t, Closing(rest[1..])).(shut := w.shut + {rest[0]});
    SlotsAfter(w.threads, t, Closing(rest[1..]));
    assert rest == [rest[0]] + rest[1..] && rest[0] in rest;
    assert forall x | x in rest[1..] :: x in rest;
    assert forall x | Owned(w, x) :: Owned(w', x);
    assert forall x | CloseListed(w, x) && x != rest[0] :: CloseListed(w', x);
  }

  /** Every step keeps the invariant. */
  lemma StepKeeps(w: World, step: Step)
    requires Inv(w) && Enabled(w, step)
    ensures Inv(Next(w, step))
  {
    hide ListsAgree, Exclusive, Usable, Accounted;
    var t := step.t;
    var ph := w.threads[t];
    match step {
      case Begin(_, done) =>
        if !done {
          ContextKeeps(w, w.ctxDone - {t});
          MoveKeeps(w.(ctxDone := w.ctxDone - {t}), t, AtLoop, w.pool.live);
        }
      case Loop(_) => LoopKeeps(w, t);
      case Wake(_) => MoveKeeps(w, t, AtLoop, w.pool.live);
      case EnterFactory(_) => MoveKeeps(w, t, Building, w.pool.live);
      case FactoryReturns(_, ok) =>
        if ok { BuiltKeeps(w, t); } else { MoveKeeps(w, t, BuildFailed, w.pool.live); }
      case Settle(_) =>
        if ph.BuildFailed? {
          MoveKeeps(w, t, Idle, w.pool.live - 1);
          BroadcastKeeps(To(w, t, Idle).(pool := FactoryFailed(w.pool)));
        } else {
          EnlistKeeps(w, t);
          if w.pool.closed {
            BroadcastKeeps(To(w.(pool := FactoryDone(w.pool, ph.s)), t, Discarding(ph.s)));
          }
        }
      case ShutDiscarded(_) => ShutKeeps(w, t);
      case Release(_, ok) =>
        ReleaseKeeps(w, t, ok);
        BroadcastKeeps(Released(w, t, ok));
      case Close(_) =>
        if !w.pool.allClosed {
          CloseKeeps(w, t);
          BroadcastKeeps(w.(pool := CloseAll(w.pool), threads := w.threads[t := Closing(w.pool.all)],
                            stale := |w.pool.free|, closer := t));
        }
      case ShutNext(_) =>
        if ph.rest == [] { MoveKeeps(w, t, Idle, w.pool.live); } else { ShutNextKeeps(w, t); }
      case Cancel(_) => ContextKeeps(w, w.ctxDone + {t});
      case Watchdog(_) => BroadcastKeeps(w);
    }
  }

  lemma LoopKeeps(w: World, t: Tid)
    requires Inv(w) && Enabled(w, Loop(t))
    ensures Inv(Next(w, Loop(t)))
  {
    hide ListsAgree, Exclusive, Usable, Accounted, OneBuilder;
    var (pool, attempt) := TryAcquire(w.pool, t in w.ctxDone);
    match attempt {
      case Took(s) =>
        var front := w.pool.free[..|w.pool.free| - 1];
        assert w.pool.free == front + [s];
        TakeKeeps(w, t, front, s);
      case MayCreate => MoveKeeps(w, t, SlotTaken, w.pool.live + 1);
      case MustWait => MoveKeeps(w, t, Waiting(false), w.pool.live);
      case _ => MoveKeeps(w, t, Idle, w.pool.live);
    }
  }

  lemma ContextKeeps(w: World, ctxDone: set<Tid>)
    requires Inv(w)
    ensures Inv(w.(ctxDone := ctxDone))
  {
  }

  lemma {:induction false} RunKeeps(w: World, steps: seq<Step>)
    requires Inv(w) && CanRun(w, steps)
    ensures Inv(RunAll(w, steps))
    decreases steps
  {
    if steps != [] {
      StepKeeps(w, steps[0]);
      RunKeeps(Next(w, steps[0]), steps[1..]);
    }
  }

  // ----- Main results, for every run from a new pool -----

  function InUse(w: World): set<Tid> {
    set t | t in w.threads && w.threads[t].Holding?
  }

  function BeingCreated(w: World): set<Tid> {
    set t | t in w.threads && TakesSlot(w.threads[t]) && !w.threads[t].Holding?
  }

  /** How many sessions a pool that was asked for `capacity` of them may have at a time. */
  function Bound(capacity: int): int {
    if capacity <= 0 then 1 else capacity
  }

  lemma {:induction false} CapacityStays(w: World, steps: seq<Step>)
    requires CanRun(w, steps)
    ensures RunAll(w, steps).pool.capacity == w.pool.capacity
    decreases steps
  {
    if steps != [] {
      CapacityStays(Next(w, steps[0]), steps[1..]);
    }
  }

  /** The bound that was asked for with exact accounting, and exclusive use of sessions that work. */
  lemma PoolIsSafe(capacity: int, tids: set<Tid>, steps: seq<Step>)
    requires CanRun(Initial(capacity, tids), steps)
    ensures var w := RunAll(Initial(capacity, tids), steps);
            && (!w.pool.closed ==> w.pool.live == |w.pool.free| + |InUse(w)| + |BeingCreated(w)| <= Bound(capacity))
            && (!w.pool.closed ==> forall s: Session ::
                  s in w.pool.all <==> s in w.pool.free || exists t :: t in InUse(w) && w.threads[t].s == s)
            && (forall t | t in InUse(w) :: w.threads[t].s !in w.pool.free)
            && (forall t, u | t in InUse(w) && u in InUse(w) && w.threads[t].s == w.threads[u].s :: t == u)
            && (forall s | s in w.pool.free :: s !in w.shut)
            && (!w.pool.closed ==> forall t | t in InUse(w) :: w.threads[t].s !in w.shut)
  {
    InitialInv(capacity, tids);
    RunKeeps(Initial(capacity, tids), steps);
    CapacityStays(Initial(capacity, tids), steps);
    var w := RunAll(Initial(capacity, tids), steps);
    hide RunAll, CanRun;
    CapacityIsKept(w);
    UseIsExclusive(w);
    hide Inv;
  }

  lemma CapacityIsKept(w: World)
    requires Inv(w)
    ensures !w.pool.closed ==> w.pool.live == |w.pool.free| + |InUse(w)| + |BeingCreated(w)| <= w.pool.capacity
  {
    assert Slots(w.threads) == InUse(w) + BeingCreated(w);
    assert InUse(w) !! BeingCreated(w);
  }

  lemma UseIsExclusive(w: World)
    requires Inv(w)
    ensures !w.pool.closed ==> forall s: Session ::
              s in w.pool.all <==> s in w.pool.free || exists t :: t in InUse(w) && w.threads[t].s == s
    ensures forall t | t in InUse(w) :: w.threads[t].s !in w.pool.free
    ensures forall t, u | t in InUse(w) && u in InUse(w) && w.threads[t].s == w.threads[u].s :: t == u
    ensures forall s | s in w.pool.free :: s !in w.shut
    ensures !w.pool.closed ==> forall t | t in InUse(w) :: w.threads[t].s !in w.shut
  {
    forall s: Session | !w.pool.closed && s in w.pool.all && s !in w.pool.free
      ensures exists t :: t in InUse(w) && w.threads[t].s == s
    {
      assert w.owner[s] in InUse(w);
    }
  }

  /** On an open pool an Acquire whose context is live gets the session freed last; if none is free
      it gets a slot to create one exactly when fewer than the bound are in use or being created,
      and waits otherwise. */
  lemma AcquireGetsWhatThereIs(capacity: int, tids: set<Tid>, steps: seq<Step>, t: Tid)
    requires CanRun(Initial(capacity, tids), steps)
    ensures var w := RunAll(Initial(capacity, tids), steps);
            t in w.threads && w.threads[t].AtLoop? && t !in w.ctxDone && !w.pool.closed ==>
              && Enabled(w, Loop(t))
              && Next(w, Loop(t)).threads[t]
                 == if w.pool.free != [] then Holding(w.pool.free[|w.pool.free| - 1])
                    else if |InUse(w)| + |BeingCreated(w)| < Bound(capacity) then SlotTaken
                    else Waiting(false)
  {
    PoolIsSafe(capacity, tids, steps);
    CapacityStays(Initial(capacity, tids), steps);
  }

  /** A session released in order is free again, on top of the others; one that failed, or whose pool
      was closed meanwhile, is closed for good and gives up its slot. */
  lemma ReleaseIsExact(w: World, t: Tid, ok: bool)
    requires Inv(w) && t in w.threads && w.threads[t].Holding?
    ensures var s, v := w.threads[t].s, Next(w, Release(t, ok));
            && v.threads[t] == Idle
            && (if ok && !w.pool.closed then
                  v.pool == w.pool.(free := w.pool.free + [s]) && v.shut == w.shut && s !in v.shut
                else
                  && v.shut == w.shut + {s} && v.pool.live == w.pool.live - 1 && v.pool.free == w.pool.free
                  && s !in v.pool.free && forall x :: x in v.pool.all <==> x in w.pool.all && x != s)
  {
    WithoutMembers(w.pool.all, w.threads[t].s);
  }

  /** A closed pool hands out nothing: who holds a session after a step held it before. */
  lemma NothingHandedOutAfterClose(w: World, step: Step, t: Tid)
    requires Inv(w) && w.pool.closed && Enabled(w, step)
    ensures Next(w, step).pool.closed
    ensures t in InUse(Next(w, step)) ==> t in InUse(w) && Next(w, step).threads[t] == w.threads[t]
  {
  }

  /** Once Close has run and every factory call, Release and Close is finished, every session that
      was ever created has been closed. */
  lemma EverySessionIsClosed(capacity: int, tids: set<Tid>, steps: seq<Step>)
    requires CanRun(Initial(capacity, tids), steps)
    ensures var w := RunAll(Initial(capacity, tids), steps);
            w.pool.closed && (forall t | t in w.threads :: Light(w.threads[t])) ==>
              forall s: Session | s < w.next :: s in w.shut
  {
    InitialInv(capacity, tids);
    RunKeeps(Initial(capacity, tids), steps);
  }

  /** No lost wake-up: a goroutine asleep and unsignalled implies an empty, full and open pool, and
      some session in use or being created, whose Release or failure will wake it. */
  lemma NoLostWakeup(capacity: int, tids: set<Tid>, steps: seq<Step>, t: Tid)
    requires CanRun(Initial(capacity, tids), steps)
    ensures var w := RunAll(Initial(capacity, tids), steps);
            t in w.threads && w.threads[t] == Waiting(false) ==>
              && w.pool.free == [] && !w.pool.closed
              && |InUse(w)| + |BeingCreated(w)| == w.pool.live == Bound(capacity)
              && InUse(w) + BeingCreated(w) != {}
  {
    InitialInv(capacity, tids);
    PoolIsSafe(capacity, tids, steps);
    CapacityStays(Initial(capacity, tids), steps);
    RunKeeps(Initial(capacity, tids), steps);
    var w := RunAll(Initial(capacity, tids), steps);
    assert Slots(w.threads) == InUse(w) + BeingCreated(w);
  }

  // ----- A waiter can always still get through -----

  /** A woken waiter finds a free session or a free slot. */
  predicate RoomFor(w: World, t: Tid) {
    && t in w.threads && w.threads[t] == Waiting(true) && t !in w.ctxDone
    && !w.pool.closed && (w.pool.free != [] || w.pool.live < w.pool.capacity)
  }

  /** `t` left the wait with a session or with a slot to create one. */
  predicate Served(w: World, t: Tid) {
    t in w.threads && (w.threads[t].Holding? || w.threads[t].SlotTaken?)
  }

  /** How the factory answers, and whether a session is good when it is released: any decision,
      for every goroutine in every state. */
  datatype Answers = Answers(built: (World, Tid) -> bool, kept: (World, Tid) -> bool)

  /** The step only goes on with what was begun, and is answered as given. */
  predicate GoesOn(w: World, step: Step, answers: Answers) {
    match step
    case FactoryReturns(u, ok) => ok == answers.built(w, u)
    case Release(u, ok) => ok == answers.kept(w, u)
    case Begin(_, _) => false
    case Close(_) => false
    case Cancel(_) => false
    case _ => true
  }

  /** A run whose every step goes on in that way. */
  predicate CanGoOn(w: World, steps: seq<Step>, answers: Answers)
    ensures CanGoOn(w, steps, answers) ==> CanRun(w, steps)
    decreases steps
  {
    steps == [] ||
    (Enabled(w, steps[0]) && GoesOn(w, steps[0], answers) && CanGoOn(Next(w, steps[0]), steps[1..], answers))
  }

  lemma {:induction false} RunsCompose(w: World, a: seq<Step>, b: seq<Step>, answers: Answers)
    requires CanGoOn(w, a, answers) && CanGoOn(RunAll(w, a), b, answers)
    ensures CanGoOn(w, a + b, answers) && RunAll(w, a + b) == RunAll(RunAll(w, a), b)
    decreases a
  {
    if a == [] {
      assert a + b == b;
    } else {
      assert (a + b)[1..] == a[1..] + b;
      RunsCompose(Next(w, a[0]), a[1..], b, answers);
    }
  }

  lemma ServeNow(w: World, t: Tid, answers: Answers) returns (steps: seq<Step>)
    requires RoomFor(w, t)
    ensures CanGoOn(w, steps, answers) && Served(RunAll(w, steps), t)
  {
    steps := [Wake(t), Loop(t)];
    var w1 := Next(w, Wake(t));
    var w2 := Next(w1, Loop(t));
    assert steps[1..] == [Loop(t)] && [Loop(t)][1..] == [];
    assert CanGoOn(w2, [], answers) && CanGoOn(w1, [Loop(t)], answers);
    assert RunAll(w1, [Loop(t)]) == w2;
  }

  /** Some goroutine with a slot can go on and make room for a sleeper. */
  lemma MakeRoom(w: World, t: Tid, answers: Answers) returns (steps: seq<Step>)
    requires Inv(w) && t in w.threads && w.threads[t] == Waiting(false) && t !in w.ctxDone
    ensures CanGoOn(w, steps, answers) && RoomFor(RunAll(w, steps), t)
  {
    assert |Slots(w.threads)| > 0;
    var u :| u in Slots(w.threads);
    if b :| b in w.threads && w.threads[b].Building? {
      u := b;
    }
    steps := MakeRoomBy(w, t, u, answers);
  }

  /** The steps a goroutine is away from giving up its slot. */
  function Distance(ph: Phase): nat {
    match ph
    case SlotTaken => 4
    case Building => 3
    case Built(_) => 2
    case _ => 1
  }

  lemma {:induction false} MakeRoomBy(w: World, t: Tid, u: Tid, answers: Answers) returns (steps: seq<Step>)
    requires Inv(w) && t in w.threads && w.threads[t] == Waiting(false) && t !in w.ctxDone
    requires u in Slots(w.threads) && forall b | b in w.threads && w.threads[b].Building? :: w.threads[u].Building?
    ensures CanGoOn(w, steps, answers) && RoomFor(RunAll(w, steps), t)
    decreases Distance(w.threads[u])
  {
    hide ListsAgree, Exclusive, Usable, Accounted;
    var ph := w.threads[u];
    var step := if ph.SlotTaken? then EnterFactory(u)
                else if ph.Building? then FactoryReturns(u, answers.built(w, u))
                else if ph.Holding? then Release(u, answers.kept(w, u))
                else Settle(u);
    StepKeeps(w, step);
    var w' := Next(w, step);
    assert [step][1..] == [] && CanGoOn(w', [], answers);
    if ph.Holding? || ph.BuildFailed? {
      steps := [step];
    } else {
      var rest := MakeRoomBy(w', t, u, answers);
      steps := [step] + rest;
      assert steps[1..] == rest;
    }
  }

  lemma OneMore(w: World, steps: seq<Step>, step: Step, answers: Answers)
    requires CanGoOn(w, steps, answers)
    requires var end := RunAll(w, steps); Enabled(end, step) && GoesOn(end, step, answers)
    ensures CanGoOn(w, steps + [step], answers) && RunAll(w, steps + [step]) == Next(RunAll(w, steps), step)
  {
    var end := RunAll(w, steps);
    assert [step][1..] == [];
    assert CanGoOn(Next(end, step), [], answers);
    assert CanGoOn(end, [step], answers) && RunAll(end, [step]) == Next(end, step);
    RunsCompose(w, steps, [step], answers);
  }

  /** From every state in which `t` waits on an open pool with a live context, and whatever the
      factory and the sessions' calls return, what was begun can go on so that `t` leaves the wait
      with a session or a slot. */
  lemma WaiterCanProceed(w: World, t: Tid, answers: Answers) returns (steps: seq<Step>)
    requires Inv(w) && t in w.threads && w.threads[t].Waiting? && t !in w.ctxDone && !w.pool.closed
    ensures CanGoOn(w, steps, answers) && Served(RunAll(w, steps), t)
  {
    if RoomFor(w, t) {
      steps := ServeNow(w, t, answers);
    } else {
      var back := w;
      steps := [];
      if w.threads[t].signalled {
        OneMore(w, [], Wake(t), answers);
        StepKeeps(w, Wake(t));
        var woken := Next(w, Wake(t));
        OneMore(w, [Wake(t)], Loop(t), answers);
        StepKeeps(woken, Loop(t));
        steps, back := [Wake(t)] + [Loop(t)], Next(woken, Loop(t));
        assert [] + [Wake(t)] == [Wake(t)];
      }
      var room := MakeRoom(back, t, answers);
      RunsCompose(w, steps, room, answers);
      var serve := ServeNow(RunAll(back, room), t, answers);
      RunsCompose(w, steps + room, serve, answers);
      steps := steps + room + serve;
    }
  }

  lemma {:induction false} OpenStays(w: World, steps: seq<Step>, answers: Answers)
    requires CanGoOn(w, steps, answers)
    ensures RunAll(w, steps).pool.closed == w.pool.closed
    decreases steps
  {
    if steps != [] {
      OpenStays(Next(w, steps[0]), steps[1..], answers);
    }
  }

  /** One goroutine's step goes first. */
  lemma StepThen(w: World, step: Step, steps: seq<Step>, answers: Answers)
    requires Enabled(w, step) && GoesOn(w, step, answers) && CanGoOn(Next(w, step), steps, answers)
    ensures CanGoOn(w, [step] + steps, answers) && RunAll(w, [step] + steps) == RunAll(Next(w, step), steps)
  {
    assert ([step] + steps)[1..] == steps;
  }

  predicate HasSession(w: World, t: Tid) {
    t in w.threads && w.threads[t].Holding?
  }

  /** A goroutine with a slot gets its session once the factory is free. */
  lemma CanBuild(w: World, t: Tid, answers: Answers) returns (steps: seq<Step>)
    requires t in w.threads && w.threads[t].SlotTaken? && !w.pool.closed && forall v :: answers.built(v, t)
    requires forall u | u in w.threads :: !w.threads[u].Building?
    ensures CanGoOn(w, steps, answers) && HasSession(RunAll(w, steps), t)
  {
    var w1 := Next(w, EnterFactory(t));
    var w2 := Next(w1, FactoryReturns(t, true));
    var w3 := Next(w2, Settle(t));
    assert CanGoOn(w3, [], answers) && w3.threads[t].Holding?;
    StepThen(w2, Settle(t), [], answers);
    StepThen(w1, FactoryReturns(t, true), [Settle(t)] + [], answers);
    StepThen(w, EnterFactory(t), [FactoryReturns(t, true)] + ([Settle(t)] + []), answers);
    steps := [EnterFactory(t)] + ([FactoryReturns(t, true)] + ([Settle(t)] + []));
  }

  lemma CanBuildAfter(w: World, t: Tid, answers: Answers) returns (steps: seq<Step>)
    requires Inv(w) && t in w.threads && w.threads[t].SlotTaken? && !w.pool.closed && forall v :: answers.built(v, t)
    ensures CanGoOn(w, steps, answers) && HasSession(RunAll(w, steps), t)
  {
    if u :| u in w.threads && w.threads[u].Building? {
      var step := FactoryReturns(u, answers.built(w, u));
      var v := Next(w, step);
      steps := CanBuild(v, t, answers);
      StepThen(w, step, steps, answers);
      steps := [step] + steps;
    } else {
      steps := CanBuild(w, t, answers);
    }
  }

  /** From every state that keeps the invariant and has an open pool, an Acquire can be begun and go
      through to a session, if the factory does not fail it -- whatever it does to the others. */
  lemma AcquireCanSucceed(w: World, t: Tid, answers: Answers) returns (steps: seq<Step>)
    requires Inv(w) && t in w.threads && w.threads[t].Idle? && !w.pool.closed && forall v :: answers.built(v, t)
    ensures Enabled(w, Begin(t, false)) && CanGoOn(Next(w, Begin(t, false)), steps, answers)
    ensures HasSession(RunAll(Next(w, Begin(t, false)), steps), t)
  {
    hide Consistent, SleepersBlocked;
    var begun := Next(w, Begin(t, false));
    StepKeeps(w, Begin(t, false));
    var looped := Next(begun, Loop(t));
    StepKeeps(begun, Loop(t));
    OneMore(begun, [], Loop(t), answers);
    steps := [] + [Loop(t)];
    var now := looped;
    if looped.threads[t].Waiting? {
      var served := WaiterCanProceed(looped, t, answers);
      RunsCompose(begun, steps, served, answers);
      RunKeeps(looped, served);
      OpenStays(looped, served, answers);
      steps, now := steps + served, RunAll(looped, served);
    }
    if now.threads[t].SlotTaken? {
      var built := CanBuildAfter(now, t, answers);
      RunsCompose(begun, steps, built, answers);
      steps := steps + built;
    }
  }

  /** A waiter whose context is done, or whose pool was closed, can return by its own steps and
      those of its watchdog. */
  lemma CancelledWaiterReturns(w: World, t: Tid, answers: Answers) returns (steps: seq<Step>)
    requires Inv(w) && t in w.threads && w.threads[t].Waiting? && (t in w.ctxDone || w.pool.closed)
    ensures CanGoOn(w, steps, answers) && forall s | s in steps :: s.t == t
    ensures var end := RunAll(w, steps); t in end.threads && end.threads[t].Idle?
  {
    steps := [];
    if t in w.ctxDone {
      OneMore(w, [], Watchdog(t), answers);
      steps := [] + [Watchdog(t)];
    }
    OneMore(w, steps, Wake(t), answers);
    OneMore(w, steps + [Wake(t)], Loop(t), answers);
    steps := steps + [Wake(t)] + [Loop(t)];
  }
}
