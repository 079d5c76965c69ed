/** The rolling daily send cap, in every run and whatever plans change. */
module SendCap {
  import opened Prelude
  import opened Records
  import opened Entitlements
  import opened Sentinel
  import opened StatusInvariant

  /** The cap of a job's user in the state in which the job was created. */
  ghost function CapAtCreation(cfg: Config, trace: seq<Step>, j: nat): int
    requires j < |StateAfter(cfg, trace).jobs|
  {
    var n := |trace| - 1;
    var before := StateAfter(cfg, trace[..n]);
    if j < |before.jobs| then CapAtCreation(cfg, trace[..n], j)
    else EntitlementsOf(before.accounts, StateAfter(cfg, trace).jobs[j].user).maxSendsPerDay
  }

  /** The sends of job j's user in the day up to job j, itself included. */
  ghost function SendsUpTo(jobs: seq<Job>, j: nat): nat
    requires j < |jobs|
  {
    CountIf(jobs[..j + 1], SendsSince(jobs[j].user, jobs[j].createdAt - DAY))
  }

  lemma {:induction false} SendsUpToStays(st: State, after: State, j: nat)
    requires Grows(st, after) && j < |st.jobs|
    ensures SendsUpTo(after.jobs, j) == SendsUpTo(st.jobs, j)
  {
    var p := SendsSince(st.jobs[j].user, st.jobs[j].createdAt - DAY);
    assert SameJob(st.jobs[j], after.jobs[j]);
    var a, b := st.jobs[..j + 1], after.jobs[..j + 1];
    forall i | 0 <= i < |a| ensures p(a[i]) == p(b[i]) {
      assert SameJob(st.jobs[i], after.jobs[i]);
    }
    CountSame(a, b, p, p);
  }

  /** A step that creates a SEND_EMAIL job had room for it. */
  lemma {:induction false} NewSendHadRoom(cfg: Config, st: State, step: Step, j: nat)
    requires |st.jobs| <= j < |Apply(cfg, st, step).jobs|
    requires Apply(cfg, st, step).jobs[j].jobType == SendEmail
    ensures var jobs := Apply(cfg, st, step).jobs;
      && step.QueueRemoval?
      && j == |st.jobs| && jobs[..j] == st.jobs
      && jobs[j].createdAt == st.now
      && WithinSendQuota(st, jobs[j].user, EntitlementsOf(st.accounts, jobs[j].user).maxSendsPerDay)
  {
    match step
    case QueueRemoval(user, e, broker, jurisdiction, uuid) =>
      var queued := OpeningJobs(st, user, e, broker);
      assert Apply(cfg, st, step).jobs == st.jobs + queued;
      assert Apply(cfg, st, step).jobs[j] == queued[j - |st.jobs|];
    case _ =>
  }

  ghost predicate UnderCap(cfg: Config, trace: seq<Step>, j: nat)
    requires j < |StateAfter(cfg, trace).jobs|
  {
    var jobs := StateAfter(cfg, trace).jobs;
    var cap := CapAtCreation(cfg, trace, j);
    jobs[j].jobType == SendEmail && cap != UNLIMITED ==> SendsUpTo(jobs, j) <= cap
  }

  lemma {:induction false} RoomForOneMore(jobs: seq<Job>, j: nat, cap: int)
    requires j < |jobs| && CountIf(jobs[..j], SendsSince(jobs[j].user, jobs[j].createdAt - DAY)) < cap
    ensures SendsUpTo(jobs, j) <= cap
  {
    PrefixEnds(jobs, j + 1);
    CountAppend(jobs[..j], jobs[j], SendsSince(jobs[j].user, jobs[j].createdAt - DAY));
  }

  lemma {:induction false} RoomWithin(st: State, jobs: seq<Job>, j: nat, cap: int)
    requires j == |st.jobs| < |jobs| && jobs[..j] == st.jobs && jobs[j].createdAt == st.now
    requires WithinSendQuota(st, jobs[j].user, cap) && cap != UNLIMITED
    ensures SendsUpTo(jobs, j) <= cap
  {
    RoomForOneMore(jobs, j, cap);
  }

  lemma {:induction false} NewSendUnderCap(cfg: Config, st: State, step: Step, j: nat)
    requires |st.jobs| <= j < |Apply(cfg, st, step).jobs|
    requires Apply(cfg, st, step).jobs[j].jobType == SendEmail
    ensures var jobs := Apply(cfg, st, step).jobs;
            var cap := EntitlementsOf(st.accounts, jobs[j].user).maxSendsPerDay;
      cap != UNLIMITED ==> SendsUpTo(jobs, j) <= cap
  {
    NewSendHadRoom(cfg, st, step, j);
    var jobs := Apply(cfg, st, step).jobs;
    var cap := EntitlementsOf(st.accounts, jobs[j].user).maxSendsPerDay;
    if cap != UNLIMITED {
      RoomWithin(st, jobs, j, cap);
    }
  }

  lemma {:induction false} EverySendUnderCap(cfg: Config, trace: seq<Step>, j: nat)
    requires j < |StateAfter(cfg, trace).jobs|
    ensures UnderCap(cfg, trace, j)
  {
    var n := |trace| - 1;
    var before := StateAfter(cfg, trace[..n]);
    var after := StateAfter(cfg, trace);
    ApplyGrows(cfg, before, trace[n]);
    if j < |before.jobs| {
      EverySendUnderCap(cfg, trace[..n], j);
      SendsUpToStays(before, after, j);
      assert SameJob(before.jobs[j], after.jobs[j]);
    } else if after.jobs[j].jobType == SendEmail {
      NewSendUnderCap(cfg, before, trace[n], j);
    }
  }

  /** SEND_EMAIL jobs of a user created in a closed interval of time. */
  function SendsWithin(user: nat, from: int, to: int): Job -> bool {
    (j: Job) => j.user == user && j.jobType == SendEmail && from <= j.createdAt <= to
  }

  /** In every run, with any plan changes, a closed window of one day holds no
      more SEND_EMAIL jobs of a user than the cap in force when the last of
      them was created, unless that cap was unlimited. */
  lemma {:induction false} DailyWindowIsCapped(cfg: Config, trace: seq<Step>, user: nat, from: int, last: nat)
    requires last < |StateAfter(cfg, trace).jobs|
    requires var jobs := StateAfter(cfg, trace).jobs;
      && SendsWithin(user, from, from + DAY)(jobs[last])
      && forall i | last < i < |jobs| :: !SendsWithin(user, from, from + DAY)(jobs[i])
    requires CapAtCreation(cfg, trace, last) != UNLIMITED
    ensures CountIf(StateAfter(cfg, trace).jobs, SendsWithin(user, from, from + DAY)) <= CapAtCreation(cfg, trace, last)
  {
    var jobs := StateAfter(cfg, trace).jobs;
    EverySendUnderCap(cfg, trace, last);
    WindowEndsAtLast(jobs, user, from, last);
  }

  // ------------------------------------------------------------- everyone but staff

  /** No step of the run makes the user staff. */
  ghost predicate NeverStaff(trace: seq<Step>, user: nat) {
    forall k | 0 <= k < |trace| && trace[k].SetAccount? && trace[k].user == user :: !trace[k].account.isStaff
  }

  lemma {:induction false} NeverUnlimited(cfg: Config, trace: seq<Step>, user: nat)
    requires NeverStaff(trace, user)
    ensures EntitlementsOf(StateAfter(cfg, trace).accounts, user).maxSendsPerDay <= 3000
    ensures EntitlementsOf(StateAfter(cfg, trace).accounts, user).maxSendsPerDay != UNLIMITED
  {
    OrdinaryAccount(cfg, trace, user);
    OnlyStaffAreUnlimited(StateAfter(cfg, trace).accounts, user);
  }

  lemma {:induction false} OrdinaryAccount(cfg: Config, trace: seq<Step>, user: nat)
    requires NeverStaff(trace, user)
    ensures var accounts := StateAfter(cfg, trace).accounts;
      user in accounts ==> !accounts[user].isStaff
  {
    if trace != [] {
      var n := |trace| - 1;
      OrdinaryAccount(cfg, trace[..n], user);
      AccountsChange(cfg, StateAfter(cfg, trace[..n]), trace[n]);
    }
  }

  lemma {:induction false} AccountsChange(cfg: Config, st: State, step: Step)
    ensures Apply(cfg, st, step).accounts
      == if step.SetAccount? then st.accounts[step.user := step.account] else st.accounts
  {
  }

  lemma {:induction false} CapOfOrdinaryUser(cfg: Config, trace: seq<Step>, j: nat)
    requires j < |StateAfter(cfg, trace).jobs| && NeverStaff(trace, StateAfter(cfg, trace).jobs[j].user)
    ensures CapAtCreation(cfg, trace, j) != UNLIMITED && CapAtCreation(cfg, trace, j) <= 3000
  {
    var n := |trace| - 1;
    var before, after := StateAfter(cfg, trace[..n]), StateAfter(cfg, trace);
    if j < |before.jobs| {
      ApplyGrows(cfg, before, trace[n]);
      assert SameJob(before.jobs[j], after.jobs[j]);
      CapOfOrdinaryUser(cfg, trace[..n], j);
    } else {
      NeverUnlimited(cfg, trace[..n], after.jobs[j].user);
    }
  }

  lemma {:induction false} LastOf(jobs: seq<Job>, p: Job -> bool) returns (last: nat)
    requires CountIf(jobs, p) > 0
    ensures last < |jobs| && p(jobs[last]) && forall i | last < i < |jobs| :: !p(jobs[i])
  {
    last := |jobs| - 1;
    if !p(jobs[last]) {
      last := LastOf(jobs[..last], p);
    }
  }

  /** Whatever plans a user moves through, as long as none of them is staff, no
      closed day ever holds more sends than the largest plan allows. */
  lemma {:induction false} OrdinaryDayIsCapped(cfg: Config, trace: seq<Step>, user: nat, from: int)
    requires NeverStaff(trace, user)
    ensures CountIf(StateAfter(cfg, trace).jobs, SendsWithin(user, from, from + DAY)) <= 3000
  {
    var jobs, p := StateAfter(cfg, trace).jobs, SendsWithin(user, from, from + DAY);
    if CountIf(jobs, p) > 0 {
      var last := LastOf(jobs, p);
      CapOfOrdinaryUser(cfg, trace, last);
      DailyWindowIsCapped(cfg, trace, user, from, last);
    }
  }

  lemma {:induction false} WindowEndsAtLast(jobs: seq<Job>, user: nat, from: int, last: nat)
    requires last < |jobs| && SendsWithin(user, from, from + DAY)(jobs[last])
    requires forall i | last < i < |jobs| :: !SendsWithin(user, from, from + DAY)(jobs[i])
    ensures CountIf(jobs, SendsWithin(user, from, from + DAY)) <= SendsUpTo(jobs, last)
  {
    var p := SendsWithin(user, from, from + DAY);
    var head, tail := jobs[..last + 1], jobs[last + 1..];
    assert jobs == head + tail;
    CountConcat(head, tail, p);
    CountNone(tail, p);
    CountWeaker(head, head, p, SendsSince(user, jobs[last].createdAt - DAY));
  }
}
