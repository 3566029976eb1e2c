/**
  The per-user lockout on failed codes (src/vault/rateLimiter.ts): a rolling window of failures, pruned as it goes.
  Proves that pruning loses nothing, and the facts from which `AccessGate` bounds the guesses in any short interval.
 */
module RateLimiter {
  import opened Prelude

  type User = int

  datatype Limits = Limits(windowMs: int, threshold: int, lockoutMs: int)

  /** One user's entries in the two maps; no failures stands for an absent list. */
  datatype Limiter = Limiter(failures: seq<int>, lockedUntil: Option<int>)

  const CLEAN := Limiter([], None)

  function LockedAt(l: Limiter, now: int): Option<int> {
    if l.lockedUntil.Some? && l.lockedUntil.value > now then l.lockedUntil else None
  }

  /** isLockedOut drops a lock that has expired. */
  function Checked(l: Limiter, now: int): Limiter {
    if LockedAt(l, now).None? then l.(lockedUntil := None) else l
  }

  function Recent(ts: seq<int>, windowMs: int, now: int): seq<int> {
    if ts == [] then []
    else Recent(ts[..|ts| - 1], windowMs, now) + (if now - ts[|ts| - 1] <= windowMs then [ts[|ts| - 1]] else [])
  }

  /** The failures in hand, this one included, reach the threshold. */
  predicate Trips(l: Limiter, c: Limits, now: int) {
    |Recent(l.failures, c.windowMs, now)| + 1 >= c.threshold
  }

  function Failed(l: Limiter, c: Limits, now: int): Limiter {
    if Trips(l, c, now) then Limiter([], Some(now + c.lockoutMs))
    else l.(failures := Recent(l.failures, c.windowMs, now) + [now])
  }

  // ----- the pruned list refines the full log

  datatype Event = Fail(now: int) | Succeed

  /** All failures since the last success or lockout, nothing pruned. */
  function FullLog(es: seq<Event>, c: Limits): seq<int> {
    if es == [] then []
    else
      var n := |es| - 1;
      match es[n]
      case Succeed => []
      case Fail(now) => if FullTrips(FullLog(es[..n], c), c, now) then [] else FullLog(es[..n], c) + [now]
  }

  /** At least threshold failures of the full log, this one included, lie within windowMs of now. */
  predicate FullTrips(log: seq<int>, c: Limits, now: int) {
    Within(log, c.windowMs, now) + 1 >= c.threshold
  }

  function Within(ts: seq<int>, windowMs: int, now: int): nat {
    if ts == [] then 0 else Within(ts[..|ts| - 1], windowMs, now) + if now - ts[|ts| - 1] <= windowMs then 1 else 0
  }

  function Pruned(es: seq<Event>, c: Limits): Limiter {
    if es == [] then CLEAN
    else
      var n := |es| - 1;
      match es[n]
      case Succeed => CLEAN
      case Fail(now) => Failed(Pruned(es[..n], c), c, now)
  }

  ghost predicate ClockForward(es: seq<Event>) {
    forall i, j :: 0 <= i < j < |es| && es[i].Fail? && es[j].Fail? ==> es[i].now <= es[j].now
  }

  lemma {:induction false} RecentCounts(ts: seq<int>, windowMs: int, now: int)
    ensures |Recent(ts, windowMs, now)| == Within(ts, windowMs, now)
  {
    if ts != [] {
      RecentCounts(ts[..|ts| - 1], windowMs, now);
    }
  }

  lemma {:induction false} RecentAppend(ts: seq<int>, t: int, windowMs: int, now: int)
    ensures Recent(ts + [t], windowMs, now) == Recent(ts, windowMs, now) + if now - t <= windowMs then [t] else []
  {
  }

  /** Pruning early and pruning late keep the same entries. */
  lemma {:induction false} RecentTwice(ts: seq<int>, windowMs: int, early: int, late: int)
    requires early <= late
    ensures Recent(Recent(ts, windowMs, early), windowMs, late) == Recent(ts, windowMs, late)
  {
    if ts != [] {
      var n := |ts| - 1;
      RecentTwice(ts[..n], windowMs, early, late);
      var front := Recent(ts[..n], windowMs, early);
      assert Recent(ts, windowMs, early) == if early - ts[n] <= windowMs then front + [ts[n]] else front;
      RecentAppend(front, ts[n], windowMs, late);
    }
  }

  /** Every later pruning of the stored list gives the same as pruning the full log. */
  ghost predicate Refines(l: Limiter, full: seq<int>, c: Limits, from: int) {
    forall now :: from <= now ==> Recent(l.failures, c.windowMs, now) == Recent(full, c.windowMs, now)
  }

  lemma {:induction false} TripsAlike(l: Limiter, full: seq<int>, c: Limits, from: int, now: int)
    requires Refines(l, full, c, from) && from <= now
    ensures Trips(l, c, now) <==> FullTrips(full, c, now)
  {
    RecentCounts(full, c.windowMs, now);
  }

  lemma {:induction false} FailRefines(l: Limiter, full: seq<int>, c: Limits, from: int, now: int)
    requires Refines(l, full, c, from) && from <= now
    ensures Refines(Failed(l, c, now), if FullTrips(full, c, now) then [] else full + [now], c, now)
  {
    TripsAlike(l, full, c, from, now);
    if !Trips(l, c, now) {
      forall t | now <= t ensures Recent(Failed(l, c, now).failures, c.windowMs, t)
        == Recent(full + [now], c.windowMs, t) {
        RecentTwice(full, c.windowMs, now, t);
        RecentAppend(Recent(l.failures, c.windowMs, now), now, c.windowMs, t);
        RecentAppend(full, now, c.windowMs, t);
      }
    }
  }

  lemma {:induction false} RunRefines(es: seq<Event>, c: Limits, from: int)
    requires ClockForward(es)
    requires forall i :: 0 <= i < |es| && es[i].Fail? ==> es[i].now <= from
    ensures Refines(Pruned(es, c), FullLog(es, c), c, from)
  {
    if es != [] {
      var n := |es| - 1;
      if es[n].Fail? {
        RunRefines(es[..n], c, es[n].now);
        FailRefines(Pruned(es[..n], c), FullLog(es[..n], c), c, es[n].now, es[n].now);
      }
    }
  }

  /**
    With a clock that never goes back, a failure trips the lockout exactly when the full list of failures since the
    last success or lockout holds at least threshold entries within windowMs of now.
   */
  lemma {:induction false} PrunedTripsExactly(es: seq<Event>, c: Limits, now: int)
    requires ClockForward(es + [Fail(now)])
    ensures Trips(Pruned(es, c), c, now) <==> FullTrips(FullLog(es, c), c, now)
  {
    var all := es + [Fail(now)];
    forall i, j | 0 <= i < j < |es| && es[i].Fail? && es[j].Fail? ensures es[i].now <= es[j].now {
      assert all[i] == es[i] && all[j] == es[j];
    }
    forall i | 0 <= i < |es| && es[i].Fail? ensures es[i].now <= now {
      assert all[i] == es[i] && all[|es|] == Fail(now);
    }
    RunRefines(es, c, now);
    TripsAlike(Pruned(es, c), FullLog(es, c), c, now, now);
  }

  // ----- guesses in a short interval

  function CountFrom(ts: seq<int>, a: int): nat {
    if ts == [] then 0 else CountFrom(ts[..|ts| - 1], a) + if ts[|ts| - 1] >= a then 1 else 0
  }

  /** Most rejections any short interval can hold. */
  function Most(c: Limits): nat {
    Max(1, c.threshold)
  }

  /**
    Of an interval [a, a + len), n rejections so far: either the user is locked past its end, or each of the n is
    still listed and there is room for one more.
   */
  ghost predicate Tracks(l: Limiter, c: Limits, a: int, len: int, n: nat) {
    || (l.lockedUntil.Some? && l.lockedUntil.value >= a + len && n <= Most(c))
    || (n <= CountFrom(l.failures, a) && n < Most(c))
  }

  lemma {:induction false} RecentKeepsInterval(ts: seq<int>, windowMs: int, now: int, a: int)
    requires now - a <= windowMs
    ensures CountFrom(Recent(ts, windowMs, now), a) == CountFrom(ts, a)
  {
    if ts != [] {
      var n := |ts| - 1;
      RecentKeepsInterval(ts[..n], windowMs, now, a);
      var front := Recent(ts[..n], windowMs, now);
      assert Recent(ts, windowMs, now) == if now - ts[n] <= windowMs then front + [ts[n]] else front;
      CountFromAppend(front, ts[n], a);
    }
  }

  lemma {:induction false} CountFromAppend(ts: seq<int>, t: int, a: int)
    ensures CountFrom(ts + [t], a) == CountFrom(ts, a) + if t >= a then 1 else 0
  {
  }

  lemma {:induction false} CountFromWithin(ts: seq<int>, a: int)
    ensures CountFrom(ts, a) <= |ts|
  {
    if ts != [] {
      CountFromWithin(ts[..|ts| - 1], a);
    }
  }

  /** A rejection of an unlocked user within the interval is tracked. */
  lemma {:induction false} FailTracks(l: Limiter, c: Limits, a: int, len: int, n: nat, now: int)
    requires Tracks(l, c, a, len, n) && LockedAt(l, now).None?
    requires a <= now < a + len && len <= c.windowMs && len <= c.lockoutMs
    ensures Tracks(Failed(l, c, now), c, a, len, n + 1)
  {
    RecentKeepsInterval(l.failures, c.windowMs, now, a);
    var kept := Recent(l.failures, c.windowMs, now);
    CountFromAppend(kept, now, a);
    CountFromWithin(kept + [now], a);
  }

  /** Before the interval there is nothing to track. */
  lemma {:induction false} TracksNone(l: Limiter, c: Limits, a: int, len: int)
    ensures Tracks(l, c, a, len, 0)
  {
  }

  /** A failure that trips locks the user out for exactly lockoutMs and starts a new count; no other locks anybody. */
  lemma {:induction false} LockoutLasts(l: Limiter, c: Limits, now: int, t: int)
    requires LockedAt(l, now).None? && now <= t
    ensures Trips(l, c, now) ==>
              && Failed(l, c, now).failures == []
              && (LockedAt(Failed(l, c, now), t).Some? <==> t < now + c.lockoutMs)
    ensures !Trips(l, c, now) ==> LockedAt(Failed(l, c, now), t).None?
  {
    hide Recent;
  }

  // ----- the object

  class TotpRateLimiter {
    const limits: Limits
    var failures: map<User, seq<int>>
    var lockedUntil: map<User, int>

    constructor (limits: Limits)
      ensures this.limits == limits && forall u :: ForUser(u) == CLEAN
    {
      this.limits := limits;
      failures, lockedUntil := map[], map[];
    }

    function ForUser(u: User): Limiter
      reads this
    {
      Limiter(if u in failures then failures[u] else [], if u in lockedUntil then Some(lockedUntil[u]) else None)
    }

    /** The limiter of a new process. */
    method Forget()
      modifies this
      ensures forall u :: ForUser(u) == CLEAN
    {
      failures, lockedUntil := map[], map[];
    }

    method IsLockedOut(u: User, now: int) returns (until: Option<int>)
      modifies this`lockedUntil
      ensures until == LockedAt(old(ForUser(u)), now)
      ensures ForUser(u) == Checked(old(ForUser(u)), now)
      ensures forall v :: v != u ==> ForUser(v) == old(ForUser(v))
    {
      if u !in lockedUntil {
        return None;
      }
      if lockedUntil[u] > now {
        return Some(lockedUntil[u]);
      }
      lockedUntil := lockedUntil - {u};
      until := None;
    }

    method RecordFailure(u: User, now: int) returns (until: Option<int>)
      modifies this
      ensures until == if Trips(old(ForUser(u)), limits, now) then Some(now + limits.lockoutMs) else None
      ensures ForUser(u) == Failed(old(ForUser(u)), limits, now)
      ensures forall v :: v != u ==> ForUser(v) == old(ForUser(v))
    {
      var prior := if u in failures then failures[u] else [];
      var recent := [];
      for i := 0 to |prior|
        invariant recent == Recent(prior[..i], limits.windowMs, now)
      {
        assert prior[..i + 1][..i] == prior[..i];
        if now - prior[i] <= limits.windowMs {
          recent := recent + [prior[i]];
        }
      }
      assert prior[..|prior|] == prior;
      recent := recent + [now];
      if |recent| >= limits.threshold {
        lockedUntil := lockedUntil[u := now + limits.lockoutMs];
        failures := failures - {u};
        return Some(now + limits.lockoutMs);
      }
      failures := failures[u := recent];
      until := None;
    }

    method RecordSuccess(u: User)
      modifies this
      ensures ForUser(u) == CLEAN
      ensures forall v :: v != u ==> ForUser(v) == old(ForUser(v))
    {
      failures := failures - {u};
      lockedUntil := lockedUntil - {u};
    }
  }
}
