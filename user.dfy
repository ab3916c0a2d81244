/**
 * The user document of models/User.js: the `fullName` and `isLocked`
 * virtuals, the failed-login counter with its two-hour lock, and the
 * per-user settings tree with the schema's defaults.
 */
module UserModel {
  import opened Common

  /** Failed logins that lock the account, and for how long. */
  const MaxLoginAttempts := 5
  const LockMillis := 2 * 60 * 60 * 1000

  /** The two fields of the lockout counter. */
  datatype LoginState = LoginState(attempts: int, lockUntil: Option<Millis>)

  /** `isLocked`: a lock is set and lies strictly in the future. */
  predicate Locked(s: LoginState, now: Millis)
    ensures Locked(s, now) ==> !LockExpired(s, now)
    ensures s.lockUntil.None? ==> !Locked(s, now)
  {
    s.lockUntil.Some? && s.lockUntil.value > now
  }

  /** A lock that lies strictly in the past. */
  predicate LockExpired(s: LoginState, now: Millis)
  {
    s.lockUntil.Some? && s.lockUntil.value < now
  }

  /**
   * The stored state after `incLoginAttempts` at instant `now`: an expired
   * lock is cleared and the count restarts at 1; otherwise the count goes
   * up by one, and reaching five while not locked sets a new lock.
   */
  function AfterFailure(s: LoginState, now: Millis): (r: LoginState)
    ensures LockExpired(s, now) ==> r == LoginState(1, None)
    ensures !LockExpired(s, now) ==> r.attempts == s.attempts + 1
    ensures Locked(s, now) ==> r.lockUntil == s.lockUntil
    ensures !LockExpired(s, now) && r.attempts >= MaxLoginAttempts ==> r.lockUntil.Some? && r.lockUntil.value >= now
  {
    if LockExpired(s, now) then LoginState(1, None)
    else if s.attempts + 1 >= MaxLoginAttempts && !Locked(s, now) then LoginState(s.attempts + 1, Some(now + LockMillis))
    else LoginState(s.attempts + 1, s.lockUntil)
  }

  /** The state after failed logins at the given instants, in order. */
  function AfterFailures(s: LoginState, times: seq<Millis>): LoginState
    decreases |times|
  {
    if |times| == 0 then s else AfterFailures(AfterFailure(s, times[0]), times[1..])
  }

  /** `resetLoginAttempts`: both fields unset; the count then reads as its default 0. */
  const Cleared := LoginState(0, None)

  /** Without an expired lock a failure adds exactly one to the count, and never lifts a lock. */
  lemma FailureCounts(s: LoginState, now: Millis)
    requires !LockExpired(s, now)
    ensures AfterFailure(s, now).attempts == s.attempts + 1
    ensures Locked(s, now) ==> AfterFailure(s, now).lockUntil == s.lockUntil
  {
  }

  /** An expired lock is cleared and the failure is counted as the first one. */
  lemma ExpiredLockRestarts(s: LoginState, now: Millis)
    requires LockExpired(s, now)
    ensures AfterFailure(s, now) == LoginState(1, None)
    ensures !Locked(AfterFailure(s, now), now)
  {
  }

  /** Failing while locked keeps the same lock: it is never extended. */
  lemma LockedStaysLocked(s: LoginState, now: Millis)
    requires Locked(s, now)
    ensures AfterFailure(s, now).lockUntil == s.lockUntil && Locked(AfterFailure(s, now), now)
  {
  }

  /** From a clean counter, up to four failures at any instants never set a lock. */
  lemma {:induction false} FewFailuresDoNotLock(s: LoginState, times: seq<Millis>)
    requires s.lockUntil.None? && 0 <= s.attempts && s.attempts + |times| < MaxLoginAttempts
    ensures AfterFailures(s, times) == LoginState(s.attempts + |times|, None)
    decreases |times|
  {
    if |times| > 0 {
      FewFailuresDoNotLock(AfterFailure(s, times[0]), times[1..]);
    }
  }

  /**
   * From a clean counter, the fifth failure locks the account for two
   * hours from that failure, whatever the instants of the first four.
   */
  lemma FifthFailureLocks(times: seq<Millis>)
    requires |times| == MaxLoginAttempts
    ensures AfterFailures(Cleared, times) == LoginState(5, Some(times[4] + LockMillis))
    ensures Locked(AfterFailures(Cleared, times), times[4])
    ensures !Locked(AfterFailures(Cleared, times), times[4] + LockMillis)
  {
    FewFailuresDoNotLock(Cleared, times[..4]);
    AfterFailuresSplit(Cleared, times[..4], times[4..]);
    assert times[..4] + times[4..] == times;
    assert times[4..][1..] == [];
  }

  lemma {:induction false} AfterFailuresSplit(s: LoginState, a: seq<Millis>, b: seq<Millis>)
    ensures AfterFailures(s, a + b) == AfterFailures(AfterFailures(s, a), b)
    decreases |a|
  {
    if |a| > 0 {
      assert (a + b)[1..] == a[1..] + b;
      AfterFailuresSplit(AfterFailure(s, a[0]), a[1..], b);
    } else {
      assert a + b == b;
    }
  }

  /** At the lock's own instant the account is neither locked nor expired, and a fifth failure then relocks it. */
  lemma LockBoundaryInstant(s: LoginState, now: Millis)
    requires s.lockUntil == Some(now) && s.attempts + 1 >= MaxLoginAttempts
    ensures !Locked(s, now) && !LockExpired(s, now)
    ensures AfterFailure(s, now) == LoginState(s.attempts + 1, Some(now + LockMillis))
  {
  }

  /** After a reset the account is unlocked at every instant, and only five new failures lock it again. */
  lemma ResetUnlocks(now: Millis)
    ensures !Locked(Cleared, now) && !LockExpired(Cleared, now)
    ensures AfterFailure(Cleared, now) == LoginState(1, None)
  {
  }

  // ---------------------------------------------------------------------
  // The settings tree.

  /** `settings`: categories of keyed values, each whatever JSON value the client sent. */
  type SettingsTree = map<string, map<string, Json>>

  const NotificationDefaults: map<string, Json> := map[
    "emailNotifications" := Bool(true), "pushNotifications" := Bool(true), "examReminders" := Bool(true),
    "resultNotifications" := Bool(true), "systemUpdates" := Bool(false)]
  const PrivacyDefaults: map<string, Json> := map[
    "profileVisibility" := Str("public"), "showEmail" := Bool(false), "showPhone" := Bool(false),
    "allowMessages" := Bool(true)]
  const PreferenceDefaults: map<string, Json> := map[
    "language" := Str("en"), "timezone" := Str("UTC"), "theme" := Str("light"),
    "dateFormat" := Str("MM/DD/YYYY"), "timeFormat" := Str("12h")]
  const ExamDefaults: map<string, Json> := map[
    "autoSave" := Bool(true), "confirmBeforeSubmit" := Bool(true), "showTimer" := Bool(true),
    "playSound" := Bool(false), "enableKeyboardShortcuts" := Bool(true)]

  /**
   * The default tree. The schema's defaults, the one `GET /settings` merges
   * into, and the one `POST /settings/reset` writes are the same literal.
   */
  const DefaultSettings: SettingsTree := map[
    "notifications" := NotificationDefaults, "privacy" := PrivacyDefaults,
    "preferences" := PreferenceDefaults, "exam" := ExamDefaults]

  /** The fields of a user that the modelled rules read or write. */
  class User {
    var id: Id
    var role: Role
    var firstName: string
    var lastName: string
    var loginAttempts: int
    var lockUntil: Option<Millis>
    var settings: SettingsTree
    var children: seq<Id>
    var parentId: Option<Id>

    /** A new user with the schema's defaults. */
    constructor (id: Id, role: Role, firstName: string, lastName: string)
      ensures this.id == id && this.role == role && this.firstName == firstName && this.lastName == lastName
      ensures loginAttempts == 0 && lockUntil == None
      ensures settings == DefaultSettings && children == [] && parentId == None
    {
      this.id := id;
      this.role := role;
      this.firstName := firstName;
      this.lastName := lastName;
      loginAttempts := 0;
      lockUntil := None;
      settings := DefaultSettings;
      children := [];
      parentId := None;
    }

    /** The `fullName` virtual. */
    function FullName(): (s: string)
      reads this
      ensures |s| == |firstName| + 1 + |lastName|
      ensures s[..|firstName|] == firstName && s[|firstName|] == ' ' && s[|firstName| + 1..] == lastName
    {
      firstName + " " + lastName
    }

    function Login(): LoginState
      reads this
    {
      LoginState(loginAttempts, lockUntil)
    }

    /** The `isLocked` virtual at instant `now`. */
    predicate IsLocked(now: Millis)
      reads this
      ensures IsLocked(now) <==> lockUntil.Some? && lockUntil.value > now
    {
      Locked(Login(), now)
    }

    /** `incLoginAttempts` at instant `now`. */
    method IncLoginAttempts(now: Millis)
      modifies this`loginAttempts, this`lockUntil
      ensures Login() == AfterFailure(old(Login()), now)
    {
      if lockUntil.Some? && lockUntil.value < now {
        lockUntil := None;
        loginAttempts := 1;
        return;
      }
      var lockNow := lockUntil.Some? && lockUntil.value > now;
      if loginAttempts + 1 >= MaxLoginAttempts && !lockNow {
        lockUntil := Some(now + LockMillis);
      }
      loginAttempts := loginAttempts + 1;
    }

    /** `resetLoginAttempts`. */
    method ResetLoginAttempts()
      modifies this`loginAttempts, this`lockUntil
      ensures Login() == Cleared
    {
      loginAttempts := 0;
      lockUntil := None;
    }
  }

  /** A name without spaces is recovered from the full name. */
  lemma FullNameSplits(u: User)
    requires ' ' !in u.firstName
    ensures var n := u.FullName();
            exists i :: 0 <= i < |n| && n[i] == ' ' && ' ' !in n[..i] && n[..i] == u.firstName && n[i + 1..] == u.lastName
  {
    var n := u.FullName();
    var i := |u.firstName|;
    assert n[i] == ' ' && n[..i] == u.firstName && n[i + 1..] == u.lastName;
  }
}
