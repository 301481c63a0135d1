/**
  `ProcessLock` of borg_sya/util.py: a reentrant lock around one abstract
  Unix socket name. Only the outermost `acquire` binds the socket and only
  the release that brings the recursion level back to zero closes it.

  The socket is an abstract `held` flag, and whether binding succeeds (the
  name is free in the abstract socket namespace) is an input.
 */
module ProcessLocks {
  import opened Errors

  /** `_recursion_level`, and whether the lock's socket is bound. */
  datatype Lock = Lock(level: int, held: bool)

  /** `ProcessLock(process_name)`: level zero, nothing bound. */
  function NewLock(): (l: Lock)
    ensures Valid(l) && l.level == 0
  {
    Lock(0, false)
  }

  /** The lock's invariant: the level is never negative and the socket is bound exactly while it is positive. */
  predicate Valid(l: Lock) {
    l.level >= 0 && (l.held <==> l.level > 0)
  }

  /** The lock after one call, and whether that call bound or closed the socket. */
  datatype LockStep = LockStep(lock: Lock, bound: bool, closed: bool)

  /**
    `acquire()`: at level zero (`not self._recursion_level`) a new socket is
    bound, and a failed bind raises `LockInUse` before the level changes.
    Every successful call increments the level.
   */
  function Acquire(l: Lock, bindOk: bool): (r: Result<LockStep>)
    ensures r.Err? <==> l.level == 0 && !bindOk
    ensures r.Err? ==> r.error == LockInUse
    ensures r.Ok? ==> && r.value.lock.level == l.level + 1
                      && (r.value.bound <==> l.level == 0)
                      && !r.value.closed
                      && r.value.lock.held == (l.held || l.level == 0)
  {
    if l.level == 0 then
      if bindOk then Ok(LockStep(Lock(l.level + 1, true), true, false))
      else Err(LockInUse)
    else Ok(LockStep(Lock(l.level + 1, l.held), false, false))
  }

  /**
    `release()`: decrements the level and closes the socket when the level
    reaches zero. Nothing stops a release without a matching acquire: the
    level then goes negative.
   */
  function Release(l: Lock): (r: LockStep)
    ensures r.lock.level == l.level - 1
    ensures r.closed <==> l.level == 1
    ensures !r.bound
    ensures r.lock.held == (l.held && l.level != 1)
  {
    var level := l.level - 1;
    if level == 0 then LockStep(Lock(level, false), false, true)
    else LockStep(Lock(level, l.held), false, false)
  }

  /** A release keeps the invariant exactly when it matches an earlier acquire. */
  lemma ReleasePreservesValid(l: Lock)
    requires Valid(l)
    ensures Valid(Release(l).lock) <==> l.level > 0
  {
  }

  /** Every acquire, successful or not, keeps the invariant. */
  lemma AcquirePreservesValid(l: Lock, bindOk: bool)
    requires Valid(l)
    ensures Acquire(l, bindOk).Ok? ==> Valid(Acquire(l, bindOk).value.lock)
  {
  }

  /** One call on the lock, as a `with` statement or a direct call makes it. */
  datatype LockOp = AcquireOp(bindOk: bool) | ReleaseOp

  /** The lock after a sequence of calls, with the binds, closes and `LockInUse` failures they caused. */
  datatype Tally = Tally(lock: Lock, binds: nat, closes: nat, failures: nat)

  /** Runs calls in order; a failed acquire leaves the lock as it was and the caller carries on. */
  function Replay(l: Lock, ops: seq<LockOp>): (t: Tally)
    ensures t.binds + t.failures <= |ops|
    decreases |ops|
  {
    if |ops| == 0 then Tally(l, 0, 0, 0)
    else
      match ops[0]
      case AcquireOp(bindOk) =>
        (match Acquire(l, bindOk)
         case Err(_) =>
           var t := Replay(l, ops[1..]);
           t.(failures := t.failures + 1)
         case Ok(step) =>
           var t := Replay(step.lock, ops[1..]);
           t.(binds := t.binds + (if step.bound then 1 else 0)))
      case ReleaseOp =>
        var step := Release(l);
        var t := Replay(step.lock, ops[1..]);
        t.(closes := t.closes + (if step.closed then 1 else 0))
  }

  /** Every release in the sequence finds the lock acquired. */
  predicate ReleasesMatched(l: Lock, ops: seq<LockOp>)
    decreases |ops|
  {
    if |ops| == 0 then true
    else
      match ops[0]
      case AcquireOp(bindOk) =>
        (match Acquire(l, bindOk)
         case Err(_) => ReleasesMatched(l, ops[1..])
         case Ok(step) => ReleasesMatched(step.lock, ops[1..]))
      case ReleaseOp => l.level > 0 && ReleasesMatched(Release(l).lock, ops[1..])
  }

  /**
    Over any sequence of calls whose releases match earlier acquires, the
    invariant holds throughout, and the socket is bound once more than it
    is closed exactly when the lock ends up held (after starting free).
   */
  lemma {:induction false} ReplayBalance(l: Lock, ops: seq<LockOp>)
    requires Valid(l) && ReleasesMatched(l, ops)
    ensures var t := Replay(l, ops);
            && Valid(t.lock)
            && t.binds - t.closes == (if t.lock.held then 1 else 0) - (if l.held then 1 else 0)
    decreases |ops|
  {
    if |ops| > 0 {
      match ops[0] {
        case AcquireOp(bindOk) =>
          match Acquire(l, bindOk) {
            case Err(_) => ReplayBalance(l, ops[1..]);
            case Ok(step) => ReplayBalance(step.lock, ops[1..]);
          }
        case ReleaseOp =>
          ReplayBalance(Release(l).lock, ops[1..]);
      }
    }
  }

  /** From a new lock, binds and closes pair up: the socket is bound at most once at any time. */
  lemma NewLockBalance(ops: seq<LockOp>)
    requires ReleasesMatched(NewLock(), ops)
    ensures var t := Replay(NewLock(), ops);
            && t.binds == t.closes + (if t.lock.held then 1 else 0)
            && (t.lock.level == 0 ==> t.binds == t.closes)
  {
    ReplayBalance(NewLock(), ops);
  }

  /** Replaying an acquire that succeeds, then the rest. */
  lemma ReplayAcquire(l: Lock, bindOk: bool, rest: seq<LockOp>, step: LockStep)
    requires Acquire(l, bindOk) == Ok(step)
    ensures Replay(l, [AcquireOp(bindOk)] + rest).lock == Replay(step.lock, rest).lock
    ensures Replay(l, [AcquireOp(bindOk)] + rest).binds == Replay(step.lock, rest).binds + (if step.bound then 1 else 0)
    ensures Replay(l, [AcquireOp(bindOk)] + rest).closes == Replay(step.lock, rest).closes
    ensures Replay(l, [AcquireOp(bindOk)] + rest).failures == Replay(step.lock, rest).failures
  {
    assert ([AcquireOp(bindOk)] + rest)[1..] == rest;
  }

  /** Replaying a release, then the rest. */
  lemma ReplayRelease(l: Lock, rest: seq<LockOp>)
    ensures var step := Release(l);
            && Replay(l, [ReleaseOp] + rest).lock == Replay(step.lock, rest).lock
            && Replay(l, [ReleaseOp] + rest).binds == Replay(step.lock, rest).binds
            && Replay(l, [ReleaseOp] + rest).closes == Replay(step.lock, rest).closes + (if step.closed then 1 else 0)
            && Replay(l, [ReleaseOp] + rest).failures == Replay(step.lock, rest).failures
  {
    assert ([ReleaseOp] + rest)[1..] == rest;
  }

  /** Nested use: the inner acquire and release touch only the level. */
  lemma NestedAcquire()
    ensures var t := Replay(NewLock(), [AcquireOp(true), AcquireOp(false), ReleaseOp, ReleaseOp]);
            t == Tally(Lock(0, false), 1, 1, 0)
  {
    var empty: seq<LockOp> := [];
    var last := [ReleaseOp] + empty;
    var inner := [ReleaseOp] + last;
    var nested := [AcquireOp(false)] + inner;
    var ops := [AcquireOp(true)] + nested;
    ReplayRelease(Lock(1, true), empty);
    ReplayRelease(Lock(2, true), last);
    ReplayAcquire(Lock(1, true), false, inner, LockStep(Lock(2, true), false, false));
    ReplayAcquire(Lock(0, false), true, nested, LockStep(Lock(1, true), true, false));
    assert ops == [AcquireOp(true), AcquireOp(false), ReleaseOp, ReleaseOp];
  }
}
