/** The flock of one process: the mode stack and the file lock as the methods change them, with the
    waiting in between. */
module FileLock {
  import opened GraphLock
  import opened ThreadLock

  const DEFAULT_IO_LOCK_TIMEOUT: real := 120.0
  const FIRST_POLL_INTERVAL: real := 0.05
  const MAX_POLL_INTERVAL: real := 0.1

  /** The mode a stack of acquisitions asks for. */
  function Strongest(modes: seq<bool>): Mode {
    if modes == [] then Unlocked else ModeFor(true in modes)
  }

  /** The process holds the lock in a mode that is strong enough already. */
  predicate Nests(modes: seq<bool>, exclusive: bool) {
    modes != [] && (exclusive ==> true in modes)
  }

  class FileLock {
    /** The kernel's answer to the n-th attempt, for a shared or the exclusive lock. */
    const grants: (nat, bool) -> bool
    var attempts: nat
    var modes: seq<bool>
    var flock: Mode

    constructor (grants: (nat, bool) -> bool)
      ensures this.grants == grants && modes == [] && flock == Unlocked
    {
      this.grants, attempts, modes, flock := grants, 0, [], Unlocked;
    }

    /** Some later attempt is granted: without a deadline the wait ends in no other way. */
    ghost predicate EventuallyGranted(exclusive: bool)
      reads this`attempts
    {
      exists n :: n >= attempts && grants(n, exclusive)
    }

    /** Between those two counts the kernel was asked in this mode and refused every time but the last,
        where it granted the lock or was not asked again. */
    ghost predicate Asked(exclusive: bool, from: nat, to: nat, ok: bool) {
      && from < to && ok == grants(to - 1, exclusive)
      && forall n :: from <= n < to - 1 ==> !grants(n, exclusive)
    }

    method Attempt(exclusive: bool) returns (ok: bool)
      modifies this`attempts, this`flock
      ensures attempts == old(attempts) + 1 && ok == grants(old(attempts), exclusive)
      ensures flock == if ok then ModeFor(exclusive) else old(flock)
    {
      ok := grants(attempts, exclusive);
      attempts := attempts + 1;
      if ok {
        flock := ModeFor(exclusive);
      }
    }

    /** The intervals between so many attempts. */
    ghost function Gaps(from: nat, to: nat): real
      requires from < to
    {
      (to - from - 1) as real
    }

    /** Poll until granted or past the deadline; how long it waited is told. It succeeds with the first
        attempt that is granted, attempts are at most one interval apart, and a timeout is noticed at
        the first refusal after it, so less than one interval late. */
    method Wait(exclusive: bool, blocking: bool, timeout: real) returns (ok: bool, waited: real)
      requires blocking && timeout <= 0.0 ==> EventuallyGranted(exclusive)
      modifies this`attempts, this`flock
      ensures flock == if ok then ModeFor(exclusive) else old(flock)
      ensures Asked(exclusive, old(attempts), attempts, ok)
      ensures FIRST_POLL_INTERVAL * Gaps(old(attempts), attempts) <= waited <= MAX_POLL_INTERVAL * Gaps(old(attempts), attempts)
      ensures blocking && timeout <= 0.0 ==> ok
      ensures !blocking ==> waited == 0.0 && ok == grants(old(attempts), exclusive)
      ensures blocking && !ok ==> timeout <= waited < timeout + MAX_POLL_INTERVAL
      ensures blocking && timeout > 0.0 ==> waited < timeout + MAX_POLL_INTERVAL
    {
      waited := 0.0;
      if !blocking {
        ok := Attempt(exclusive);
        return;
      }
      ghost var granted: nat := 0;
      if timeout <= 0.0 {
        granted :| granted >= attempts && grants(granted, exclusive);
      }
      var interval := FIRST_POLL_INTERVAL;
      while true
        invariant waited >= 0.0 && FIRST_POLL_INTERVAL <= interval <= MAX_POLL_INTERVAL
        invariant flock == old(flock) && attempts >= old(attempts)
        invariant forall n :: old(attempts) <= n < attempts ==> !grants(n, exclusive)
        invariant FIRST_POLL_INTERVAL * (attempts - old(attempts)) as real <= waited
        invariant waited <= MAX_POLL_INTERVAL * (attempts - old(attempts)) as real
        invariant timeout <= 0.0 ==> attempts <= granted
        invariant timeout > 0.0 ==> waited < timeout + MAX_POLL_INTERVAL
        decreases if timeout > 0.0 then (timeout + MAX_POLL_INTERVAL - waited) / FIRST_POLL_INTERVAL else (granted - attempts) as real
      {
        ok := Attempt(exclusive);
        if ok {
          return;
        }
        if timeout > 0.0 && waited >= timeout {
          return;
        }
        waited := waited + interval;
        interval := if interval * 2.0 < MAX_POLL_INTERVAL then interval * 2.0 else MAX_POLL_INTERVAL;
      }
    }

    /** Give the shared lock up, wait for the exclusive one, and wait to get the share back if that
        fails; the last wait may fail too. */
    method ReleaseThenExclusive(blocking: bool, timeout: real) returns (ok: bool, restored: bool, ghost asked: nat)
      requires flock == SharedMode
      requires blocking && timeout <= 0.0 ==> EventuallyGranted(true)
      modifies this`attempts, this`flock
      ensures ok ==> flock == ExclusiveMode
      ensures !ok ==> flock == if restored then old(flock) else Unlocked
      ensures old(attempts) < asked <= attempts && Asked(true, old(attempts), asked, ok)
      ensures ok ==> asked == attempts
      ensures !ok ==> Asked(false, asked, attempts, restored)
      ensures blocking && timeout <= 0.0 ==> ok
    {
      flock := Unlocked;
      var waited;
      restored := false;
      ok, waited := Wait(true, blocking, timeout);
      asked := attempts;
      if !ok {
        restored, waited := Wait(false, true, if timeout > 0.0 then timeout else DEFAULT_IO_LOCK_TIMEOUT);
      }
    }

    /** Take the file lock; nested acquisitions stack modes and only the first exclusive one above
        shared ones has to wait again. A failed one leaves modes and lock as they were, unless the
        share it gave up could not be had back. A nested one that is no upgrade asks nothing and always
        succeeds; any other asks, and succeeds with the first attempt that is granted. */
    method Acquire(exclusive: bool, blocking: bool, timeout: real) returns (ok: bool, restored: bool, ghost asked: nat)
      requires flock == Strongest(modes)
      requires blocking && timeout <= 0.0 ==> EventuallyGranted(exclusive)
      modifies this`attempts, this`flock, this`modes
      ensures modes == if ok then old(modes) + [exclusive] else old(modes)
      ensures ok ==> flock == Strongest(modes)
      ensures !ok ==> flock == if restored then old(flock) else Unlocked
      ensures !ok && !restored ==> exclusive && old(flock) == SharedMode
      ensures Nests(old(modes), exclusive) ==> ok && attempts == old(attempts)
      ensures !Nests(old(modes), exclusive) ==>
        old(attempts) < asked <= attempts && Asked(exclusive, old(attempts), asked, ok)
      ensures ok || old(modes) == [] ==> asked == attempts
      ensures !ok && old(modes) != [] ==> Asked(false, asked, attempts, restored)
      ensures blocking && timeout <= 0.0 ==> ok
    {
      restored, asked := true, attempts;
      if modes != [] {
        var needUpgrade := exclusive && true !in modes;
        modes := modes + [exclusive];
        ok := true;
        if needUpgrade {
          ok, restored, asked := ReleaseThenExclusive(blocking, timeout);
          if !ok {
            modes := modes[..|modes| - 1];
          }
        }
        return;
      }
      var waited;
      ok, waited := Wait(exclusive, blocking, timeout);
      asked := attempts;
      if ok {
        modes := [exclusive];
      }
    }

    /** Undo the newest acquisition: unlock with the last one, downgrade with the last exclusive one. */
    method Release()
      requires flock == Strongest(modes)
      modifies this`flock, this`modes
      ensures modes == if old(modes) == [] then [] else Init(old(modes))
      ensures flock == Strongest(modes)
    {
      if modes == [] {
        return;
      }
      modes := modes[..|modes| - 1];
      if modes == [] {
        flock := Unlocked;
      } else if true !in modes {
        flock := SharedMode;
      }
    }
  }

  // ---------------------------------------------------------------------------
  // The same moves, step by step
  // ---------------------------------------------------------------------------

  /** The steps of a granted acquisition add up to what `Acquire` leaves. */
  lemma GrantedStepsAddUp(p: Proc, t: Tid)
    requires PhaseOf(p, t).NeedFlock? && Stack(p.lock, t) != [] && p.flock == Strongest(p.modes)
    ensures var taken := TakeFlock(p, t, true);
      var done := if PhaseOf(taken, t).Upgrading? then TryUpgrade(taken, t, true) else taken;
      && PhaseOf(done, t).Running? && done.lock == p.lock
      && done.modes == p.modes + [Last(Stack(p.lock, t))] && done.flock == Strongest(done.modes)
  {
    var exclusive := Last(Stack(p.lock, t));
    assert true in p.modes + [exclusive] <==> exclusive || true in p.modes;
  }

  /** The steps of an upgrade that is given up and gets its share back undo each other. */
  lemma RestoredStepsAddUp(p: Proc, t: Tid)
    requires PhaseOf(p, t).NeedFlock? && Stack(p.lock, t) != [] && p.flock == Strongest(p.modes)
    requires p.modes != [] && Last(Stack(p.lock, t)) && true !in p.modes
    ensures var done := TryRestore(GiveUpFlock(TakeFlock(p, t, false), t), t, true);
      PhaseOf(done, t).MustRelease? && done.lock == p.lock && done.modes == p.modes && done.flock == p.flock
  {
    assert Init(p.modes + [true]) == p.modes;
  }

  /** The step of a release is what `Release` does. */
  lemma ReleaseStepIsTheSame(p: Proc, t: Tid)
    requires p.flock == Strongest(p.modes)
    ensures var done := ReleaseFlock(p, t);
      done.modes == (if p.modes == [] then [] else Init(p.modes)) && done.flock == Strongest(done.modes)
  {
    if p.modes != [] {
      assert p.modes == Init(p.modes) + [Last(p.modes)];
    }
  }
}
