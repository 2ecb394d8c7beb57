/** The login lockout of handleLogin (internal/web/server.go) over the account row. */
module LoginLockout {
  import opened Text

  const MAX_FAILURES: nat := 5
  const LOCK_TIME: nat := 15 * 60

  /** The columns of a panel user that logging in reads and writes. */
  datatype Account = Account(enabled: bool, failures: nat, lockedUntil: Option<nat>)

  /** A POST to the login form: when the lock is checked, when a new lock would be dated, whether
      the password is right, and whether a session can be created. */
  datatype Attempt = Attempt(at: nat, lockAt: nat, right: bool, sessionOk: bool)

  datatype Answer = Invalid | Locked | LoginFailed | Welcome

  predicate LockedAt(a: Account, now: nat) {
    a.lockedUntil.Some? && a.lockedUntil.value > now
  }

  /** The password is looked at. */
  predicate Checked(a: Account, t: Attempt) {
    a.enabled && !LockedAt(a, t.at)
  }

  predicate FailedCheck(a: Account, t: Attempt) {
    Checked(a, t) && !t.right
  }

  predicate Success(a: Account, t: Attempt) {
    Checked(a, t) && t.right && t.sessionOk
  }

  function Next(a: Account, t: Attempt): Account {
    if FailedCheck(a, t) then
      a.(failures := a.failures + 1,
          lockedUntil := if a.failures + 1 >= MAX_FAILURES then Some(t.lockAt + LOCK_TIME) else a.lockedUntil)
    else if Success(a, t) then a.(failures := 0, lockedUntil := None)
    else a
  }

  class PanelUser {
    var enabled: bool
    var failures: nat
    var lockedUntil: Option<nat>

    constructor (enabled: bool)
      ensures Row() == Account(enabled, 0, None)
    {
      this.enabled, failures, lockedUntil := enabled, 0, None;
    }

    function Row(): Account
      reads this
    {
      Account(enabled, failures, lockedUntil)
    }

    /** The POST branch of handleLogin, given the outcome of the password check. */
    method HandleLogin(t: Attempt) returns (answer: Answer)
      modifies this`failures, this`lockedUntil
      ensures Row() == Next(old(Row()), t)
      ensures var locked := old(lockedUntil).Some? && old(lockedUntil).value > t.at;
        var wrong := old(enabled) && !locked && !t.right;
        && answer == (if !old(enabled) then Invalid
                      else if locked then Locked
                      else if !t.right then if old(failures) >= 4 then Locked else Invalid
                      else if t.sessionOk then Welcome else LoginFailed)
        && failures == (if wrong then old(failures) + 1 else if answer == Welcome then 0 else old(failures))
        && lockedUntil == (if wrong && old(failures) >= 4 then Some(t.lockAt + 900)
                           else if answer == Welcome then None else old(lockedUntil))
    {
      if !enabled { return Invalid; }
      if lockedUntil.Some? && lockedUntil.value > t.at { return Locked; }
      if !t.right {
        var failed := failures + 1;
        failures := failed;                              // IncrementFailedAttempts
        if failed >= MAX_FAILURES {
          lockedUntil := Some(t.lockAt + LOCK_TIME);      // LockPanelUser
          return Locked;
        }
        return Invalid;
      }
      if !t.sessionOk { return LoginFailed; }
      failures, lockedUntil := 0, None;                  // ResetFailedAttempts
      return Welcome;
    }
  }

  // ---------------------------------------------------------------- runs

  function After(a: Account, ts: seq<Attempt>): Account {
    if ts == [] then a else Next(After(a, ts[..|ts| - 1]), ts[|ts| - 1])
  }

  /** Time does not run backwards. */
  ghost predicate Ordered(ts: seq<Attempt>) {
    && (forall i :: 0 <= i < |ts| ==> ts[i].at <= ts[i].lockAt)
    && (forall i, j :: 0 <= i < j < |ts| ==> ts[i].at <= ts[j].at && ts[i].lockAt <= ts[j].at)
  }

  predicate Inside(t: nat, from: nat) {
    from <= t < from + LOCK_TIME
  }

  /** The failed password checks among attempts at times in [from, from + 15 minutes). */
  function Failures(a: Account, ts: seq<Attempt>, from: nat): nat {
    if ts == [] then 0
    else
      var rest, t := ts[..|ts| - 1], ts[|ts| - 1];
      Failures(a, rest, from) + (if Inside(t.at, from) && FailedCheck(After(a, rest), t) then 1 else 0)
  }

  ghost predicate NoSuccessIn(a: Account, ts: seq<Attempt>, from: nat) {
    forall i :: 0 <= i < |ts| && Inside(ts[i].at, from) ==> !Success(After(a, ts[..i]), ts[i])
  }

  /** What a window without success leaves behind: each failed check in it was counted; once five
      are counted the account is locked beyond the end of the window. */
  ghost predicate Holds(b: Account, n: nat, from: nat) {
    n <= MAX_FAILURES && n <= b.failures
    && (n > 0 && b.failures >= MAX_FAILURES ==> b.lockedUntil.Some? && b.lockedUntil.value >= from + LOCK_TIME)
  }

  lemma OrderedPrefix(ts: seq<Attempt>)
    requires ts != [] && Ordered(ts)
    ensures Ordered(ts[..|ts| - 1])
  {
  }

  lemma NoSuccessPrefix(a: Account, ts: seq<Attempt>, from: nat)
    requires ts != [] && NoSuccessIn(a, ts, from)
    ensures NoSuccessIn(a, ts[..|ts| - 1], from)
    ensures Inside(ts[|ts| - 1].at, from) ==> !Success(After(a, ts[..|ts| - 1]), ts[|ts| - 1])
  {
    hide After, Success, Inside;
    var rest := ts[..|ts| - 1];
    forall i | 0 <= i < |rest| && Inside(rest[i].at, from)
      ensures !Success(After(a, rest[..i]), rest[i])
    {
      assert rest[..i] == ts[..i] && rest[i] == ts[i];
    }
  }

  ghost predicate Until(ts: seq<Attempt>, end: nat) {
    forall i :: 0 <= i < |ts| ==> ts[i].at < end
  }

  /** The last attempt is the latest. */
  lemma LastIsLatest(ts: seq<Attempt>, end: nat)
    requires ts != [] && Ordered(ts)
    ensures Until(ts, end) <==> ts[|ts| - 1].at < end
    ensures ts[|ts| - 1].at < end ==> Until(ts[..|ts| - 1], end)
    ensures ts[|ts| - 1].at <= ts[|ts| - 1].lockAt
  {
  }

  /** One more attempt in the window, or before it. */
  lemma StepHolds(b: Account, t: Attempt, n: nat, from: nat)
    requires Holds(b, n, from) && t.at < from + LOCK_TIME && t.at <= t.lockAt
    requires if t.at < from then n == 0 else !Success(b, t)
    ensures Holds(Next(b, t), n + (if Inside(t.at, from) && FailedCheck(b, t) then 1 else 0), from)
  {
  }

  lemma {:induction false} WindowHolds(a: Account, ts: seq<Attempt>, from: nat)
    requires Ordered(ts) && NoSuccessIn(a, ts, from)
    ensures Failures(a, ts, from) <= MAX_FAILURES
    ensures Until(ts, from + LOCK_TIME) ==> Holds(After(a, ts), Failures(a, ts, from), from)
    decreases |ts|
  {
    hide Ordered, NoSuccessIn, Until, Holds, Next, FailedCheck, Success;
    if ts == [] {
      NothingHolds(a, from);
    } else {
      var rest, t := ts[..|ts| - 1], ts[|ts| - 1];
      OrderedPrefix(ts);
      NoSuccessPrefix(a, ts, from);
      LastIsLatest(ts, from + LOCK_TIME);
      WindowHolds(a, rest, from);
      if t.at < from + LOCK_TIME {
        if t.at < from {
          LastIsLatest(ts, from);
          NoneYet(a, rest, from);
        }
        StepHolds(After(a, rest), t, Failures(a, rest, from), from);
        HoldsBounds(After(a, ts), Failures(a, ts, from), from);
      }
    }
  }

  lemma NothingHolds(a: Account, from: nat)
    ensures Holds(a, 0, from)
  {
  }

  lemma HoldsBounds(b: Account, n: nat, from: nat)
    requires Holds(b, n, from)
    ensures n <= MAX_FAILURES
  {
  }

  /** Whether the password of attempt `i` is looked at. */
  predicate LooksAt(a: Account, ts: seq<Attempt>, i: nat)
    requires i < |ts|
  {
    var b := After(a, ts[..i]);
    b.enabled && (b.lockedUntil == None || b.lockedUntil.value <= ts[i].at)
  }

  /** Attempt `i` falls in the fifteen minutes from `from` on and fails a password check. */
  predicate FailsIn(a: Account, ts: seq<Attempt>, from: nat, i: nat)
    requires i < |ts|
  {
    from <= ts[i].at < from + 900 && LooksAt(a, ts, i) && !ts[i].right
  }

  function FailedIn(a: Account, ts: seq<Attempt>, from: nat): set<nat> {
    set i: nat | i < |ts| && FailsIn(a, ts, from, i)
  }

  lemma FailsInPrefix(a: Account, ts: seq<Attempt>, from: nat, i: nat)
    requires i + 1 < |ts|
    ensures FailsIn(a, ts[..|ts| - 1], from, i) == FailsIn(a, ts, from, i)
  {
    hide After;
    assert ts[..|ts| - 1][..i] == ts[..i];
  }

  lemma FailsLast(a: Account, ts: seq<Attempt>, from: nat)
    requires ts != []
    ensures Failures(a, ts, from)
      == Failures(a, ts[..|ts| - 1], from) + (if FailsIn(a, ts, from, |ts| - 1) then 1 else 0)
  {
    hide After;
  }

  lemma {:induction false} FailuresAreCounted(a: Account, ts: seq<Attempt>, from: nat)
    ensures |FailedIn(a, ts, from)| == Failures(a, ts, from)
    decreases |ts|
  {
    hide FailsIn;
    if ts == [] {
      assert FailedIn(a, ts, from) == {};
    } else {
      hide Failures;
      var rest, n := ts[..|ts| - 1], |ts| - 1;
      FailuresAreCounted(a, rest, from);
      FailsLast(a, ts, from);
      forall i: nat | i < n ensures FailsIn(a, rest, from, i) == FailsIn(a, ts, from, i) {
        FailsInPrefix(a, ts, from, i);
      }
      assert FailedIn(a, ts, from) == FailedIn(a, rest, from) + if FailsIn(a, ts, from, n) then {n} else {};
    }
  }

  ghost predicate NoLoginIn(a: Account, ts: seq<Attempt>, from: nat) {
    forall i: nat :: i < |ts| && from <= ts[i].at < from + 900 ==>
      !(LooksAt(a, ts, i) && ts[i].right && ts[i].sessionOk)
  }

  /** The lockout bound: from any account state and over any run of attempts, a half-open window of
      fifteen minutes without a successful login has at most five failed password checks. */
  lemma AtMostFive(a: Account, ts: seq<Attempt>, from: nat)
    requires Ordered(ts) && NoLoginIn(a, ts, from)
    ensures |FailedIn(a, ts, from)| <= 5
  {
    FailuresAreCounted(a, ts, from);
    NoLoginIsNoSuccess(a, ts, from);
    WindowHolds(a, ts, from);
  }

  lemma NoLoginIsNoSuccess(a: Account, ts: seq<Attempt>, from: nat)
    requires NoLoginIn(a, ts, from)
    ensures NoSuccessIn(a, ts, from)
  {
    hide After;
    forall i | 0 <= i < |ts| && Inside(ts[i].at, from) ensures !Success(After(a, ts[..i]), ts[i]) {
      assert LooksAt(a, ts, i) == Checked(After(a, ts[..i]), ts[i]);
    }
  }

  ghost predicate Since(ts: seq<Attempt>, from: nat) {
    forall i :: 0 <= i < |ts| ==> from <= ts[i].at
  }

  lemma SincePrefix(ts: seq<Attempt>, from: nat)
    requires ts != [] && Since(ts, from)
    ensures Since(ts[..|ts| - 1], from) && from <= ts[|ts| - 1].at
  {
  }

  /** A counted-out account and its failed checks so far in the window, of which one locks it. */
  predicate CountedOut(b: Account, n: nat, from: nat) {
    && n <= 1 && b.failures >= MAX_FAILURES
    && (n == 1 ==> b.lockedUntil.Some? && b.lockedUntil.value >= from + LOCK_TIME)
  }

  lemma StepCountedOut(b: Account, t: Attempt, n: nat, from: nat)
    requires CountedOut(b, n, from) && Inside(t.at, from) && t.at <= t.lockAt && !Success(b, t)
    ensures CountedOut(Next(b, t), n + (if FailedCheck(b, t) then 1 else 0), from)
  {
  }

  /** Once five failures are on the account, without a success in between, there is at most one
      failed check per window: the counter does not restart when a lock runs out. */
  lemma ThenAtMostOne(a: Account, ts: seq<Attempt>, from: nat)
    requires Ordered(ts) && NoLoginIn(a, ts, from) && a.failures >= 5
    requires forall i :: 0 <= i < |ts| ==> from <= ts[i].at
    ensures |FailedIn(a, ts, from)| <= 1
  {
    FailuresAreCounted(a, ts, from);
    NoLoginIsNoSuccess(a, ts, from);
    CountedOutHolds(a, ts, from);
  }

  lemma {:induction false} CountedOutHolds(a: Account, ts: seq<Attempt>, from: nat)
    requires Ordered(ts) && NoSuccessIn(a, ts, from) && a.failures >= MAX_FAILURES && Since(ts, from)
    ensures Failures(a, ts, from) <= 1
    ensures Until(ts, from + LOCK_TIME) ==> CountedOut(After(a, ts), Failures(a, ts, from), from)
    decreases |ts|
  {
    hide Ordered, NoSuccessIn, Until, Since, Next, FailedCheck, Success;
    if ts == [] {
    } else {
      var rest, t := ts[..|ts| - 1], ts[|ts| - 1];
      OrderedPrefix(ts);
      NoSuccessPrefix(a, ts, from);
      SincePrefix(ts, from);
      LastIsLatest(ts, from + LOCK_TIME);
      CountedOutHolds(a, rest, from);
      if t.at < from + LOCK_TIME { StepCountedOut(After(a, rest), t, Failures(a, rest, from), from); }
    }
  }

  /** The bound is reached. */
  lemma FiveIsReached()
    ensures var w := Attempt(0, 0, false, true); |FailedIn(Account(true, 0, None), [w, w, w, w, w], 0)| == 5
  {
    var a, w := Account(true, 0, None), Attempt(0, 0, false, true);
    var t1, t2, t3, t4, t5 := [w], [w, w], [w, w, w], [w, w, w, w], [w, w, w, w, w];
    assert t5[..4] == t4 && t4[..3] == t3 && t3[..2] == t2 && t2[..1] == t1 && t1[..0] == [];
    assert After(a, t1) == Account(true, 1, None) && After(a, t2) == Account(true, 2, None);
    assert After(a, t3) == Account(true, 3, None) && After(a, t4) == Account(true, 4, None);
    FailuresAreCounted(a, t5, 0);
    assert Failures(a, t1, 0) == 1 && Failures(a, t2, 0) == 2 && Failures(a, t3, 0) == 3 && Failures(a, t4, 0) == 4;
  }

  lemma {:induction false} NoneYet(a: Account, ts: seq<Attempt>, from: nat)
    requires Until(ts, from)
    ensures Failures(a, ts, from) == 0
    decreases |ts|
  {
    if ts == [] {
    } else {
      NoneYet(a, ts[..|ts| - 1], from);
    }
  }
}
