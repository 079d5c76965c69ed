/** The failed-login counter of one client address and user name, kept in a
    cache whose entries expire (core/api.py, `AuthViewSet.login`). */
module Login {
  import opened Prelude

  datatype Settings = Settings(maxAttempts: int, lockoutSeconds: int)

  /** A cached counter; it is gone once its expiry time has come. */
  datatype Counter = Counter(failures: nat, expiresAt: int)

  datatype State = State(now: int, cache: map<string, Counter>)

  const START := State(0, map[])

  /** What the credentials turn out to be. */
  datatype Check = BadPassword | OtpRejected | Unverified | Accepted

  datatype Response = Locked | InvalidCredentials | MfaRequired | EmailUnverified | LoggedIn

  datatype Event = Wait(seconds: nat) | Attempt(key: string, check: Check)

  /** One attempt as it was answered. */
  datatype Entry = Entry(at: int, key: string, response: Response)

  function LockKey(ip: string, username: string): string {
    "login_fail:" + ip + ":" + username
  }

  function FailuresOf(st: State, key: string): nat {
    if key in st.cache && st.cache[key].expiresAt > st.now then st.cache[key].failures else 0
  }

  function ResponseTo(s: Settings, st: State, key: string, check: Check): Response {
    if FailuresOf(st, key) >= s.maxAttempts then Locked
    else
      match check
      case BadPassword => InvalidCredentials
      case OtpRejected => MfaRequired
      case Unverified => EmailUnverified
      case Accepted => LoggedIn
  }

  function AfterAttempt(s: Settings, st: State, key: string, check: Check): State {
    match ResponseTo(s, st, key, check)
    case InvalidCredentials =>
      st.(cache := st.cache[key := Counter(FailuresOf(st, key) + 1, st.now + s.lockoutSeconds)])
    case LoggedIn => st.(cache := st.cache - {key})
    case _ => st
  }

  class Gate {
    const settings: Settings
    var now: int
    var cache: map<string, Counter>

    function View(): State
      reads this
    {
      State(now, cache)
    }

    constructor (settings: Settings)
      ensures this.settings == settings && View() == START
    {
      this.settings := settings;
      now, cache := 0, map[];
    }

    /** `login`: the credentials are looked at only below the limit. */
    method Login(ip: string, username: string, check: Check) returns (response: Response)
      modifies `cache
      ensures response == ResponseTo(settings, old(View()), LockKey(ip, username), check)
      ensures var key := "login_fail:" + ip + ":" + username;
              var failures := if key in old(cache) && now < old(cache)[key].expiresAt then old(cache)[key].failures else 0;
        && (response == Locked <==> failures >= settings.maxAttempts)
        && (response == InvalidCredentials ==>
              check == BadPassword && cache == old(cache)[key := Counter(failures + 1, now + settings.lockoutSeconds)])
        && (response == LoggedIn ==> check == Accepted && cache == old(cache) - {key})
        && (response == MfaRequired ==> check == OtpRejected)
        && (response == EmailUnverified ==> check == Unverified)
        && (response in {Locked, MfaRequired, EmailUnverified} ==> cache == old(cache))
    {
      var lockKey := LockKey(ip, username);
      var failures: nat := 0;
      if lockKey in cache && cache[lockKey].expiresAt > now {
        failures := cache[lockKey].failures;
      }
      if failures >= settings.maxAttempts {
        return Locked;
      }
      if check == BadPassword {
        cache := cache[lockKey := Counter(failures + 1, now + settings.lockoutSeconds)];
        return InvalidCredentials;
      }
      if check == OtpRejected {
        return MfaRequired;
      }
      if check == Unverified {
        return EmailUnverified;
      }
      cache := cache - {lockKey};
      response := LoggedIn;
    }
  }

  // ------------------------------------------------------------- runs

  function Apply(s: Settings, st: State, e: Event): State {
    match e
    case Wait(seconds) => st.(now := st.now + seconds)
    case Attempt(key, check) => AfterAttempt(s, st, key, check)
  }

  function StateAfter(s: Settings, trace: seq<Event>): State {
    if trace == [] then START else Apply(s, StateAfter(s, trace[..|trace| - 1]), trace[|trace| - 1])
  }

  /** What one event adds to the log. */
  function EntriesOf(s: Settings, st: State, e: Event): seq<Entry> {
    match e
    case Wait(_) => []
    case Attempt(key, check) => [Entry(st.now, key, ResponseTo(s, st, key, check))]
  }

  /** Every attempt of a run with its time and its answer. */
  function LogOf(s: Settings, trace: seq<Event>): seq<Entry> {
    if trace == [] then []
    else LogOf(s, trace[..|trace| - 1]) + EntriesOf(s, StateAfter(s, trace[..|trace| - 1]), trace[|trace| - 1])
  }

  /** Failed password checks of a key in a half-open window of time. */
  function FailedWithin(key: string, from: int, to: int): Entry -> bool {
    (e: Entry) => e.key == key && e.response == InvalidCredentials && from <= e.at < to
  }

  ghost predicate NoLoginWithin(log: seq<Entry>, key: string, from: int, to: int) {
    forall i | 0 <= i < |log| :: !(log[i].key == key && log[i].response == LoggedIn && from <= log[i].at < to)
  }

  ghost predicate LoggedBy(log: seq<Entry>, now: int) {
    forall i | 0 <= i < |log| :: log[i].at <= now
  }

  lemma {:induction false} LogIsInOrder(s: Settings, trace: seq<Event>)
    ensures LoggedBy(LogOf(s, trace), StateAfter(s, trace).now)
  {
    if trace != [] {
      LogIsInOrder(s, trace[..|trace| - 1]);
    }
  }

  /** While the window is open, the counter remembers every failure in it. */
  ghost predicate Remembers(s: Settings, st: State, key: string, from: int, failed: nat) {
    && failed <= Max(s.maxAttempts, 0)
    && (failed > 0 && st.now < from + s.lockoutSeconds ==>
          key in st.cache && st.cache[key].expiresAt >= from + s.lockoutSeconds && st.cache[key].failures >= failed)
  }

  /** One attempt: the count of the window and the counter move together. */
  lemma {:induction false} AttemptRemembers(s: Settings, st: State, key: string, from: int, failed: nat,
                                        who: string, check: Check)
    requires Remembers(s, st, key, from, failed)
    requires failed > 0 ==> from <= st.now
    requires !(who == key && ResponseTo(s, st, who, check) == LoggedIn && from <= st.now < from + s.lockoutSeconds)
    ensures var e := Entry(st.now, who, ResponseTo(s, st, who, check));
      Remembers(s, AfterAttempt(s, st, who, check), key, from,
                failed + if FailedWithin(key, from, from + s.lockoutSeconds)(e) then 1 else 0)
  {
  }

  lemma {:induction false} WindowStarts(log: seq<Entry>, key: string, from: int, to: int, now: int)
    requires LoggedBy(log, now) && CountIf(log, FailedWithin(key, from, to)) > 0
    ensures from <= now
  {
    CountNone(log, FailedWithin(key, from, to));
  }

  lemma {:induction false} EventRemembers(s: Settings, st: State, log: seq<Entry>, e: Event, key: string, from: int)
    requires LoggedBy(log, st.now) && NoLoginWithin(log + EntriesOf(s, st, e), key, from, from + s.lockoutSeconds)
    requires Remembers(s, st, key, from, CountIf(log, FailedWithin(key, from, from + s.lockoutSeconds)))
    ensures Remembers(s, Apply(s, st, e), key, from,
                      CountIf(log + EntriesOf(s, st, e), FailedWithin(key, from, from + s.lockoutSeconds)))
  {
    var p := FailedWithin(key, from, from + s.lockoutSeconds);
    if e.Attempt? {
      var entry := Entry(st.now, e.key, ResponseTo(s, st, e.key, e.check));
      assert (log + [entry])[|log|] == entry;
      CountAppend(log, entry, p);
      if CountIf(log, p) > 0 {
        WindowStarts(log, key, from, from + s.lockoutSeconds, st.now);
      }
      AttemptRemembers(s, st, key, from, CountIf(log, p), e.key, e.check);
    } else {
      assert log + [] == log;
    }
  }

  lemma {:induction false} WindowRemembered(s: Settings, trace: seq<Event>, key: string, from: int)
    requires NoLoginWithin(LogOf(s, trace), key, from, from + s.lockoutSeconds)
    ensures Remembers(s, StateAfter(s, trace), key, from,
                      CountIf(LogOf(s, trace), FailedWithin(key, from, from + s.lockoutSeconds)))
  {
    if trace != [] {
      var n := |trace| - 1;
      LogIsInOrder(s, trace[..n]);
      NoLoginEarlier(LogOf(s, trace[..n]), EntriesOf(s, StateAfter(s, trace[..n]), trace[n]), key, from, from + s.lockoutSeconds);
      WindowRemembered(s, trace[..n], key, from);
      EventRemembers(s, StateAfter(s, trace[..n]), LogOf(s, trace[..n]), trace[n], key, from);
    }
  }

  lemma {:induction false} NoLoginEarlier(log: seq<Entry>, more: seq<Entry>, key: string, from: int, to: int)
    requires NoLoginWithin(log + more, key, from, to)
    ensures NoLoginWithin(log, key, from, to)
  {
    assert forall i | 0 <= i < |log| :: (log + more)[i] == log[i];
  }

  /** In every run, with any other keys in between, a window of the lockout
      time in which the key never logs in holds at most the allowed number of
      failed password checks. */
  lemma {:induction false} WindowHoldsFewFailures(s: Settings, trace: seq<Event>, key: string, from: int)
    requires NoLoginWithin(LogOf(s, trace), key, from, from + s.lockoutSeconds)
    ensures CountIf(LogOf(s, trace), FailedWithin(key, from, from + s.lockoutSeconds)) <= Max(s.maxAttempts, 0)
  {
    WindowRemembered(s, trace, key, from);
  }

  // ------------------------------------------------------------- no early lock

  /** Failed password checks of a key since it last logged in. */
  function FailedSinceLogin(log: seq<Entry>, key: string): nat {
    if log == [] then 0
    else
      var n := |log| - 1;
      var before := FailedSinceLogin(log[..n], key);
      if log[n].key != key then before
      else if log[n].response == LoggedIn then 0
      else before + if log[n].response == InvalidCredentials then 1 else 0
  }

  lemma {:induction false} SinceLoginAppend(log: seq<Entry>, e: Entry, key: string)
    ensures var before := FailedSinceLogin(log, key);
      FailedSinceLogin(log + [e], key)
        == if e.key != key then before
           else if e.response == LoggedIn then 0
           else before + if e.response == InvalidCredentials then 1 else 0
  {
    assert (log + [e])[..|log|] == log;
  }

  ghost predicate Earned(st: State, log: seq<Entry>, key: string) {
    key in st.cache ==> st.cache[key].failures <= FailedSinceLogin(log, key)
  }

  lemma {:induction false} EventEarns(s: Settings, st: State, log: seq<Entry>, e: Event, key: string)
    requires Earned(st, log, key)
    ensures Earned(Apply(s, st, e), log + EntriesOf(s, st, e), key)
  {
    if e.Attempt? {
      SinceLoginAppend(log, Entry(st.now, e.key, ResponseTo(s, st, e.key, e.check)), key);
    } else {
      assert log + [] == log;
    }
  }

  lemma {:induction false} CounterIsEarned(s: Settings, trace: seq<Event>, key: string)
    ensures Earned(StateAfter(s, trace), LogOf(s, trace), key)
  {
    if trace != [] {
      var n := |trace| - 1;
      CounterIsEarned(s, trace[..n], key);
      EventEarns(s, StateAfter(s, trace[..n]), LogOf(s, trace[..n]), trace[n], key);
    }
  }

  /** Nobody is locked out early: a locked attempt has at least the allowed
      number of failed password checks of its own key before it, since that
      key last logged in. */
  lemma {:induction false} LockIsEarned(s: Settings, trace: seq<Event>, key: string, check: Check)
    requires ResponseTo(s, StateAfter(s, trace), key, check) == Locked
    ensures FailedSinceLogin(LogOf(s, trace), key) >= s.maxAttempts
  {
    CounterIsEarned(s, trace, key);
  }

  // ------------------------------------------------------------- the exact law

  /** The failed checks of a key that still count at a time: since its last
      login, each less than the lockout time after the one before, and the last
      one less than that before now. */
  function Streak(log: seq<Entry>, key: string, now: int, lockout: int): nat {
    if log == [] then 0
    else
      var e, before := log[|log| - 1], log[..|log| - 1];
      if e.key != key then Streak(before, key, now, lockout)
      else if e.response == LoggedIn then 0
      else if e.response == InvalidCredentials then (if now - e.at < lockout then 1 + Streak(before, key, e.at, lockout) else 0)
      else Streak(before, key, now, lockout)
  }

  lemma {:induction false} StreakAppend(log: seq<Entry>, e: Entry, key: string, now: int, lockout: int)
    ensures Streak(log + [e], key, now, lockout) ==
      if e.key != key then Streak(log, key, now, lockout)
      else if e.response == LoggedIn then 0
      else if e.response == InvalidCredentials then (if now - e.at < lockout then 1 + Streak(log, key, e.at, lockout) else 0)
      else Streak(log, key, now, lockout)
  {
    assert (log + [e])[..|log|] == log;
  }

  /** The counter is the streak, now and at any later time. */
  ghost predicate Counts(s: Settings, st: State, log: seq<Entry>, key: string) {
    forall t | st.now <= t :: FailuresOf(st.(now := t), key) == Streak(log, key, t, s.lockoutSeconds)
  }

  lemma {:induction false} EventCounts(s: Settings, st: State, log: seq<Entry>, e: Event, key: string)
    requires Counts(s, st, log, key)
    ensures Counts(s, Apply(s, st, e), log + EntriesOf(s, st, e), key)
  {
    var after := Apply(s, st, e);
    forall t | after.now <= t
      ensures FailuresOf(after.(now := t), key) == Streak(log + EntriesOf(s, st, e), key, t, s.lockoutSeconds)
    {
      assert FailuresOf(st.(now := t), key) == Streak(log, key, t, s.lockoutSeconds);
      assert FailuresOf(st.(now := st.now), key) == Streak(log, key, st.now, s.lockoutSeconds);
      assert st.(now := st.now) == st;
      if e.Attempt? {
        StreakAppend(log, Entry(st.now, e.key, ResponseTo(s, st, e.key, e.check)), key, t, s.lockoutSeconds);
      } else {
        assert log + [] == log;
      }
    }
  }

  lemma {:induction false} CounterIsStreak(s: Settings, trace: seq<Event>, key: string)
    ensures Counts(s, StateAfter(s, trace), LogOf(s, trace), key)
  {
    if trace != [] {
      var n := |trace| - 1;
      CounterIsStreak(s, trace[..n], key);
      EventCounts(s, StateAfter(s, trace[..n]), LogOf(s, trace[..n]), trace[n], key);
    }
  }

  lemma {:induction false} LastEntry(s: Settings, trace: seq<Event>, i: nat) returns (k: nat)
    requires i < |LogOf(s, trace)|
    ensures k < |trace| && trace[k].Attempt? && LogOf(s, trace[..k]) == LogOf(s, trace)[..i]
    ensures LogOf(s, trace)[i]
      == Entry(StateAfter(s, trace[..k]).now, trace[k].key, ResponseTo(s, StateAfter(s, trace[..k]), trace[k].key, trace[k].check))
  {
    var n := |trace| - 1;
    var log := LogOf(s, trace[..n]);
    if i < |log| {
      k := LastEntry(s, trace[..n], i);
      assert trace[..n][..k] == trace[..k] && LogOf(s, trace)[..i] == log[..i];
    } else {
      k := n;
      assert LogOf(s, trace)[..i] == log;
    }
  }

  /** In every run an attempt is locked exactly when the streak of failed checks
      of its key has reached the allowed number. */
  lemma {:induction false} LockedExactlyByStreak(s: Settings, trace: seq<Event>, i: nat)
    requires i < |LogOf(s, trace)|
    ensures var log := LogOf(s, trace);
      log[i].response == Locked <==> Streak(log[..i], log[i].key, log[i].at, s.lockoutSeconds) >= s.maxAttempts
  {
    var k := LastEntry(s, trace, i);
    var st := StateAfter(s, trace[..k]);
    CounterIsStreak(s, trace[..k], trace[k].key);
    assert FailuresOf(st.(now := st.now), trace[k].key) == Streak(LogOf(s, trace[..k]), trace[k].key, st.now, s.lockoutSeconds);
    assert st.(now := st.now) == st;
  }

  /** A failed check of a key less than the lockout time ago. */
  ghost predicate FailedSince(log: seq<Entry>, key: string, from: int) {
    exists j :: 0 <= j < |log| && log[j].key == key && log[j].response == InvalidCredentials && log[j].at > from
  }

  lemma {:induction false} NoFailureNoStreak(log: seq<Entry>, key: string, now: int, lockout: int)
    requires !FailedSince(log, key, now - lockout)
    ensures Streak(log, key, now, lockout) == 0
  {
    if log != [] {
      var n := |log| - 1;
      assert forall j | 0 <= j < n :: log[..n][j] == log[j];
      if log[n].key != key || log[n].response != InvalidCredentials {
        NoFailureNoStreak(log[..n], key, now, lockout);
      }
    }
  }

  /** A lock ends: in every run, when a key has had no failed check for the
      lockout time, its next attempt is not locked. */
  lemma {:induction false} LockEnds(s: Settings, trace: seq<Event>, i: nat)
    requires i < |LogOf(s, trace)| && s.maxAttempts > 0
    requires !FailedSince(LogOf(s, trace)[..i], LogOf(s, trace)[i].key, LogOf(s, trace)[i].at - s.lockoutSeconds)
    ensures LogOf(s, trace)[i].response != Locked
  {
    LockedExactlyByStreak(s, trace, i);
    NoFailureNoStreak(LogOf(s, trace)[..i], LogOf(s, trace)[i].key, LogOf(s, trace)[i].at, s.lockoutSeconds);
  }

  // ------------------------------------------------------------- keys

  predicate NoColon(s: string) {
    forall i | 0 <= i < |s| :: s[i] != ':'
  }

  lemma {:induction false} TailLength(a: string, b: string, x: string, y: string)
    requires NoColon(x) && a + ":" + x == b + ":" + y
    ensures |y| >= |x|
  {
    var k := a + ":" + x;
    assert k == b + ":" + y;
    assert (b + ":" + y)[|b|] == ':';
    assert forall i | 0 <= i < |x| :: k[|a| + 1 + i] == x[i];
    assert |k| == |a| + 1 + |x| == |b| + 1 + |y|;
  }

  /** User names without a colon never share a counter by accident. */
  lemma {:induction false} KeysTellPairsApart(ip: string, username: string, ip': string, username': string)
    requires NoColon(username) && NoColon(username')
    ensures LockKey(ip, username) == LockKey(ip', username') <==> ip == ip' && username == username'
  {
    if LockKey(ip, username) == LockKey(ip', username') {
      var a, b := "login_fail:" + ip, "login_fail:" + ip';
      TailLength(a, b, username, username');
      TailLength(b, a, username', username);
      SplitConcat(a, ":" + username);
      SplitConcat(b, ":" + username');
      assert a + ":" + username == a + (":" + username) && b + ":" + username' == b + (":" + username');
      assert a == b && ":" + username == ":" + username';
      SplitConcat(":", username);
      SplitConcat(":", username');
      SplitConcat("login_fail:", ip);
      SplitConcat("login_fail:", ip');
    }
  }
}
