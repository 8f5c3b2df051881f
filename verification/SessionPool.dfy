/** The session pool: a monitor with a capacity, a condition variable, and a factory call made
    outside the lock.  `Pool` holds the fields the mutex protects, with one function per critical
    section; class `SessionPool` performs the critical sections in place; `PoolProtocol` interleaves
    them over any number of goroutines. */
module SessionPool {

  type Session = nat

  datatype Pool = Pool(capacity: nat, live: int, free: seq<Session>, all: seq<Session>, closed: bool, allClosed: bool)

  const SEQUENTIAL_POOL_CAP := 1

  /** What one pass through the Acquire loop does before it releases the lock. */
  datatype Attempt = PoolClosed | ContextDone | Took(s: Session) | MayCreate | MustWait

  function NewPool(capacity: int): Pool {
    Pool(if capacity <= 0 then SEQUENTIAL_POOL_CAP else capacity, 0, [], [], false, false)
  }

  function TryAcquire(p: Pool, ctxDone: bool): (r: (Pool, Attempt)) {
    var n := |p.free|;
    if p.closed then (p, PoolClosed)
    else if ctxDone then (p, ContextDone)
    else if n > 0 then (p.(free := p.free[..n - 1]), Took(p.free[n - 1]))
    else if p.live < p.capacity then (p.(live := p.live + 1), MayCreate)
    else (p, MustWait)
  }

  function FactoryFailed(p: Pool): Pool {
    p.(live := p.live - 1)
  }

  /** A fresh session joins the pool unless the pool was closed meanwhile. */
  function FactoryDone(p: Pool, s: Session): Pool {
    if p.closed then p.(live := p.live - 1) else p.(all := p.all + [s])
  }

  predicate Discards(p: Pool, ok: bool) {
    !ok || p.closed
  }

  function ReleaseInto(p: Pool, s: Session, ok: bool): Pool {
    if Discards(p, ok) then p.(all := Without(p.all, s), live := p.live - 1)
    else p.(free := p.free + [s])
  }

  /** Removes the first occurrence. */
  function Without(ss: seq<Session>, s: Session): seq<Session> {
    if ss == [] then []
    else if ss[0] == s then ss[1..]
    else [ss[0]] + Without(ss[1..], s)
  }

  lemma {:induction false} WithoutAt(ss: seq<Session>, s: Session, i: nat)
    requires i < |ss| && ss[i] == s && s !in ss[..i]
    ensures Without(ss, s) == ss[..i] + ss[i + 1..]
  {
    if i > 0 {
      assert ss[0] in ss[..i];
      assert ss[1..][..i - 1] == ss[..i][1..];
      WithoutAt(ss[1..], s, i - 1);
      assert ss[..i] == [ss[0]] + ss[1..][..i - 1];
    }
  }

  lemma {:induction false} WithoutAbsent(ss: seq<Session>, s: Session)
    requires s !in ss
    ensures Without(ss, s) == ss
  {
    if ss != [] {
      WithoutAbsent(ss[1..], s);
    }
  }

  predicate Distinct(ss: seq<Session>) {
    forall i, j | 0 <= i < j < |ss| :: ss[i] != ss[j]
  }

  lemma DistinctSnoc(ss: seq<Session>, s: Session)
    ensures Distinct(ss + [s]) <==> Distinct(ss) && s !in ss
  {
    var all := ss + [s];
    assert forall i | 0 <= i < |ss| :: all[i] == ss[i];
    if s in ss {
      var i :| 0 <= i < |ss| && ss[i] == s;
      assert all[i] == all[|ss|] && i < |ss|;
    }
  }

  lemma {:induction false} WithoutMembers(ss: seq<Session>, s: Session)
    requires Distinct(ss)
    ensures Distinct(Without(ss, s))
    ensures forall x :: x in Without(ss, s) <==> x in ss && x != s
  {
    if s in ss {
      var i :| 0 <= i < |ss| && ss[i] == s;
      WithoutAt(ss, s, i);
    } else {
      WithoutAbsent(ss, s);
    }
  }

  function CloseAll(p: Pool): Pool {
    if p.allClosed then p else p.(closed := true, allClosed := true, all := [], free := [])
  }

  class SessionPool {
    const capacity: nat
    var live: int
    var free: seq<Session>
    var all: seq<Session>
    var closed: bool
    var allClosed: bool

    function State(): Pool
      reads this
    {
      Pool(capacity, live, free, all, closed, allClosed)
    }

    constructor (capacity: int)
      ensures State() == NewPool(capacity)
      ensures this.capacity as int == (if capacity > 0 then capacity else 1) && live == 0 && free == all == []
      ensures !closed && !allClosed
    {
      this.capacity := if capacity <= 0 then SEQUENTIAL_POOL_CAP else capacity;
      live, free, all, closed, allClosed := 0, [], [], false, false;
    }

    /** One pass through the loop of Acquire, under the lock. */
    method AcquireOnce(ctxDone: bool) returns (a: Attempt)
      modifies this
      ensures (State(), a) == TryAcquire(old(State()), ctxDone)
    {
      if closed {
        return PoolClosed;
      }
      if ctxDone {
        return ContextDone;
      }
      var n := |free|;
      if n > 0 {
        var s := free[n - 1];
        free := free[..n - 1];
        return Took(s);
      }
      if live < capacity {
        live := live + 1;
        return MayCreate;
      }
      return MustWait;
    }

    /** Acquire after the factory call returned an error. */
    method GiveBackSlot()
      modifies this
      ensures State() == FactoryFailed(old(State()))
    {
      live := live - 1;
    }

    /** Acquire after the factory call returned `s`; `discard` tells the caller to close it. */
    method Enlist(s: Session) returns (discard: bool)
      modifies this
      ensures State() == FactoryDone(old(State()), s) && discard == old(closed)
    {
      if closed {
        live := live - 1;
        return true;
      }
      all := all + [s];
      return false;
    }

    /** `shut` tells whether the session was closed rather than returned to the pool. */
    method Release(s: Session, ok: bool) returns (shut: bool)
      modifies this
      ensures State() == ReleaseInto(old(State()), s, ok) && shut == Discards(old(State()), ok)
    {
      if !ok || closed {
        RemoveFromAll(s);
        live := live - 1;
        return true;
      }
      free := free + [s];
      return false;
    }

    method RemoveFromAll(s: Session)
      modifies this`all
      ensures all == Without(old(all), s)
    {
      for i := 0 to |all|
        invariant all == old(all) && s !in all[..i]
      {
        if all[i] == s {
          WithoutAt(all, s, i);
          all := all[..i] + all[i + 1..];
          return;
        }
      }
      WithoutAbsent(all, s);
    }

    /** The sessions handed back are closed by the caller, outside the lock. */
    method Close() returns (sessions: seq<Session>)
      modifies this
      ensures State() == CloseAll(old(State()))
      ensures sessions == if old(allClosed) then [] else old(all)
    {
      if allClosed {
        return [];
      }
      closed := true;
      allClosed := true;
      sessions := all;
      all := [];
      free := [];
    }
  }
}
