/**
 * A customer record guarded by a pessimistic lock: at most one user holds
 * it, re-locking by the holder is allowed, everyone else is refused.
 */
module PessimisticConcurrency {
  import opened JavaLang

  /** How `lock`/`unlock` end: normally, or by throwing LockingException with a message. */
  datatype LockOutcome = Done | LockingException(message: string)

  const NO_USER_PROVIDED: string := "No User Provided."
  const ALREADY_LOCKED: string := "Resource already locked."

  /** The holder after `lock(username)` and how the call ends, from the holder before. */
  function LockStep(holder: Option<string>, username: Option<string>): (Option<string>, LockOutcome) {
    if username.None? then (holder, LockingException(NO_USER_PROVIDED))
    else if holder.None? then (username, Done)
    else if holder != username then (holder, LockingException(ALREADY_LOCKED))
    else (holder, Done)
  }

  /** The holder after `unlock(username)` and how the call ends, from the holder before. */
  function UnlockStep(holder: Option<string>, username: Option<string>): (Option<string>, LockOutcome) {
    if holder.Some? && holder == username then (None, Done)
    else if holder.Some? then (holder, LockingException(ALREADY_LOCKED))
    else (holder, Done)
  }

  class Customer {
    /** The user holding the lock; `None` when unlocked. */
    var lockingUser: Option<string>

    constructor ()
      ensures lockingUser == None
    {
      lockingUser := None;
    }

    /** `isLocked`: some user holds the lock. */
    function IsLocked(): bool
      reads this
    {
      lockingUser.Some?
    }

    method Lock(username: Option<string>) returns (outcome: LockOutcome)
      modifies this
      ensures (lockingUser, outcome) == LockStep(old(lockingUser), username)
      ensures outcome == Done ==> IsLocked()
      ensures outcome != Done ==> IsLocked() == old(IsLocked())
    {
      LockedAfterOutcome(lockingUser, username);
      if username.None? {
        return LockingException(NO_USER_PROVIDED);
      }
      if lockingUser.None? {
        lockingUser := username;
      } else if lockingUser != username {
        return LockingException(ALREADY_LOCKED);
      }
      outcome := Done;
    }

    method Unlock(username: Option<string>) returns (outcome: LockOutcome)
      modifies this
      ensures (lockingUser, outcome) == UnlockStep(old(lockingUser), username)
      ensures outcome == Done ==> !IsLocked()
      ensures outcome != Done ==> IsLocked()
    {
      LockedAfterOutcome(lockingUser, username);
      if lockingUser.Some? && lockingUser == username {
        lockingUser := None;
      } else if lockingUser.Some? {
        return LockingException(ALREADY_LOCKED);
      }
      outcome := Done;
    }
  }

  /**
   * A successful lock leaves the customer locked and a successful unlock
   * leaves it unlocked; a refused unlock happens only while locked, and a
   * refusal never changes whether the customer is locked.
   */
  lemma LockedAfterOutcome(holder: Option<string>, username: Option<string>)
    ensures LockStep(holder, username).1 == Done ==> LockStep(holder, username).0.Some?
    ensures LockStep(holder, username).1 != Done ==> LockStep(holder, username).0.Some? == holder.Some?
    ensures UnlockStep(holder, username).1 == Done ==> UnlockStep(holder, username).0.None?
    ensures UnlockStep(holder, username).1 != Done ==> holder.Some? && UnlockStep(holder, username).0 == holder
  {
  }

  /** Locking succeeds exactly when a user is given and the lock is free or already theirs; it then belongs to that user. */
  lemma LockSucceedsIffFreeOrHeld(holder: Option<string>, username: Option<string>)
    ensures LockStep(holder, username).1 == Done <==> username.Some? && (holder.None? || holder == username)
    ensures LockStep(holder, username).1 == Done ==> LockStep(holder, username).0 == username
  {
  }

  /** A refused lock leaves the holder as it was, with the message that says why. */
  lemma LockRefusalKeepsHolder(holder: Option<string>, username: Option<string>)
    requires LockStep(holder, username).1 != Done
    ensures LockStep(holder, username).0 == holder
    ensures LockStep(holder, username).1
      == LockingException(if username.None? then NO_USER_PROVIDED else ALREADY_LOCKED)
  {
  }

  /** Locking again as the holder changes nothing. */
  lemma LockReentrant(holder: Option<string>, username: Option<string>)
    requires LockStep(holder, username).1 == Done
    ensures LockStep(LockStep(holder, username).0, username) == (username, Done)
  {
  }

  /** A lock held by one user refuses every other user. */
  lemma LockExcludesOthers(user: string, other: Option<string>)
    requires other != Some(user)
    ensures LockStep(Some(user), other).0 == Some(user)
    ensures LockStep(Some(user), other).1.LockingException?
  {
  }

  /** Locking and then unlocking as the same user returns a free customer to free. */
  lemma LockThenUnlockRestores(user: string)
    ensures var (held, _) := LockStep(None, Some(user));
      UnlockStep(held, Some(user)) == (None, Done)
  {
  }

  /** Unlocking succeeds exactly when the lock is free or held by the caller; only the holder frees it. */
  lemma UnlockSucceedsIffFreeOrHolder(holder: Option<string>, username: Option<string>)
    ensures UnlockStep(holder, username).1 == Done <==> holder.None? || holder == username
    ensures UnlockStep(holder, username).0 == (if holder == username then None else holder)
  {
  }
}
