/** The periodic heartbeat: queueing MONITOR jobs, verifying and escalating
    campaigns for every user (core/tasks.py). */
module Passes {
  import opened Prelude
  import opened Records
  import opened Verifier
  import opened Sentinel
  import opened StatusInvariant
  import ReceiptInvariant

  lemma {:induction false} ExecConcat(cfg: Config, st: State, a: seq<Step>, b: seq<Step>)
    ensures Exec(cfg, st, a + b) == Exec(cfg, Exec(cfg, st, a), b)
  {
    if b == [] {
      assert a + b == a;
    } else {
      var n := |b| - 1;
      ExecConcat(cfg, st, a, b[..n]);
      assert (a + b)[..|a + b| - 1] == a + b[..n];
    }
  }

  lemma {:induction false} ExecFirst(cfg: Config, st: State, step: Step, rest: seq<Step>)
    ensures Exec(cfg, st, [step] + rest) == Exec(cfg, Apply(cfg, st, step), rest)
  {
    ExecConcat(cfg, st, [step], rest);
    assert [step][..0] == [];
  }

  // ------------------------------------------------------------- campaigns

  /** A user's campaigns are visited newest first. */
  function VerifySteps(user: nat, n: nat): (steps: seq<Step>)
    ensures |steps| == n && forall k | 0 <= k < n :: steps[k] == VerifyCampaign(user, n - 1 - k)
  {
    if n == 0 then [] else [VerifyCampaign(user, n - 1)] + VerifySteps(user, n - 1)
  }

  function EscalateSteps(user: nat, n: nat): (steps: seq<Step>)
    ensures |steps| == n && forall k | 0 <= k < n :: steps[k] == EscalateCampaign(user, n - 1 - k)
  {
    if n == 0 then [] else [EscalateCampaign(user, n - 1)] + EscalateSteps(user, n - 1)
  }

  /** `process_user_campaigns` over n campaigns, for the given users. */
  function PassSteps(users: seq<nat>, n: nat): seq<Step> {
    if users == [] then []
    else VerifySteps(users[0], n) + EscalateSteps(users[0], n) + PassSteps(users[1..], n)
  }

  /** Every user with a campaign that is neither verified nor cancelled. */
  ghost predicate ServesAll(campaigns: seq<Campaign>, users: seq<nat>) {
    forall c | 0 <= c < |campaigns| && campaigns[c].status != CampaignStatus.Verified && campaigns[c].status != CampaignStatus.Cancelled ::
      campaigns[c].user in users
  }

  ghost predicate IsPass(steps: seq<Step>) {
    forall k | 0 <= k < |steps| :: steps[k].VerifyCampaign? || steps[k].EscalateCampaign?
  }

  lemma {:induction false} PassStepsAre(users: seq<nat>, n: nat)
    ensures IsPass(PassSteps(users, n))
  {
    if users != [] {
      PassStepsAre(users[1..], n);
    }
  }

  /** A pass gives each served user's campaigns their turn to escalate. */
  lemma {:induction false} PassVisits(users: seq<nat>, n: nat, i: nat, c: nat)
    requires i < |users| && c < n
    ensures EscalateCampaign(users[i], c) in PassSteps(users, n)
  {
    if i == 0 {
      assert EscalateSteps(users[0], n)[n - 1 - c] == EscalateCampaign(users[0], c);
    } else {
      PassVisits(users[1..], n, i - 1, c);
    }
  }

  function OverdueAt(now: int): Campaign -> bool {
    (c: Campaign) => IsOverdue(c, now)
  }

  function IsEscalation(): Job -> bool {
    (j: Job) => j.jobType == Escalate
  }

  /** ESCALATE jobs that exist or are still owed at a time. */
  function EscalationsDue(st: State): nat {
    CountIf(st.jobs, IsEscalation()) + CountIf(st.campaigns, OverdueAt(st.now))
  }

  /** A campaign is left alone, or it was overdue and is escalated. */
  ghost predicate Settled(now: int, a: Campaign, b: Campaign) {
    b == a || (IsOverdue(a, now) && b == a.(status := CampaignStatus.Escalated))
  }

  ghost predicate FailedOrSame(a: Exposure, b: Exposure) {
    b == a || b == a.(status := ExposureStatus.Failed)
  }

  ghost predicate EscalationMarked(a: State, b: State, c: nat)
    requires c < |a.campaigns| == |b.campaigns|
  {
    b.campaigns[c] == a.campaigns[c]
    || (b.campaigns[c].exposure < |b.exposures| && b.exposures[b.campaigns[c].exposure].status == ExposureStatus.Failed)
  }

  /** What any number of verify and escalate turns can do. */
  ghost predicate PassedOver(a: State, b: State) {
    && b.now == a.now
    && |b.campaigns| == |a.campaigns| && |b.exposures| == |a.exposures|
    && (forall c | 0 <= c < |a.campaigns| :: Settled(a.now, a.campaigns[c], b.campaigns[c]))
    && (forall c | 0 <= c < |a.campaigns| :: EscalationMarked(a, b, c))
    && (forall e | 0 <= e < |a.exposures| :: FailedOrSame(a.exposures[e], b.exposures[e]))
    && EscalationsDue(b) == EscalationsDue(a)
  }

  lemma {:induction false} VerifyTurn(cfg: Config, st: State, user: nat, c: nat)
    ensures PassedOver(st, AfterVerify(cfg, st, user, c))
  {
    CountAppend(st.jobs, NewJob(st.now, user, VerifyRemoval, Some(c), None), IsEscalation());
  }

  lemma {:induction false} EscalateTurn(st: State, user: nat, c: nat)
    requires References(st)
    ensures var after := AfterEscalate(st, user, c);
      && PassedOver(st, after)
      && (c < |st.campaigns| && st.campaigns[c].user == user ==> !IsOverdue(after.campaigns[c], st.now))
  {
    if c < |st.campaigns| {
      assert CampaignRefers(st, st.campaigns[c]);
      CountAppend(st.jobs, NewJob(st.now, user, Escalate, Some(c), None), IsEscalation());
      CountReplace(st.campaigns, c, st.campaigns[c].(status := CampaignStatus.Escalated), OverdueAt(st.now));
    }
  }

  lemma {:induction false} PassedOverTwice(a: State, b: State, c: State)
    requires PassedOver(a, b) && PassedOver(b, c)
    ensures PassedOver(a, c)
  {
    forall i | 0 <= i < |a.campaigns| ensures Settled(a.now, a.campaigns[i], c.campaigns[i]) && EscalationMarked(a, c, i) {
      assert Settled(a.now, a.campaigns[i], b.campaigns[i]) && Settled(b.now, b.campaigns[i], c.campaigns[i]);
      assert EscalationMarked(a, b, i) && EscalationMarked(b, c, i);
      var e := b.campaigns[i].exposure;
      assert e < |b.exposures| ==> FailedOrSame(b.exposures[e], c.exposures[e]);
    }
    forall e | 0 <= e < |a.exposures| ensures FailedOrSame(a.exposures[e], c.exposures[e]) {
      assert FailedOrSame(a.exposures[e], b.exposures[e]) && FailedOrSame(b.exposures[e], c.exposures[e]);
    }
  }

  ghost predicate SettledAt(st: State, user: nat, c: nat) {
    c < |st.campaigns| && st.campaigns[c].user == user ==> !IsOverdue(st.campaigns[c], st.now)
  }

  lemma {:induction false} Turn(cfg: Config, st: State, step: Step)
    requires References(st) && IsPass([step])
    ensures var after := Apply(cfg, st, step);
      && References(after) && PassedOver(st, after)
      && (step.EscalateCampaign? ==> SettledAt(after, step.user, step.campaign))
  {
    assert [step][0] == step;
    ApplyRefers(cfg, st, step);
    if step.VerifyCampaign? {
      VerifyTurn(cfg, st, step.user, step.campaign);
    } else {
      EscalateTurn(st, step.user, step.campaign);
    }
  }

  lemma {:induction false} StaysSettled(a: State, b: State, user: nat, c: nat)
    requires PassedOver(a, b) && SettledAt(a, user, c)
    ensures SettledAt(b, user, c)
  {
    assert c < |a.campaigns| ==> Settled(a.now, a.campaigns[c], b.campaigns[c]);
  }

  ghost predicate AllSettled(st: State, steps: seq<Step>) {
    forall k | 0 <= k < |steps| && steps[k].EscalateCampaign? :: SettledAt(st, steps[k].user, steps[k].campaign)
  }

  lemma {:induction false} AllStaySettled(mid: State, after: State, steps: seq<Step>, step: Step)
    requires PassedOver(mid, after) && AllSettled(mid, steps)
    requires step.EscalateCampaign? ==> SettledAt(after, step.user, step.campaign)
    ensures AllSettled(after, steps + [step])
  {
    forall k | 0 <= k < |steps| && steps[k].EscalateCampaign? ensures SettledAt(after, steps[k].user, steps[k].campaign) {
      StaysSettled(mid, after, steps[k].user, steps[k].campaign);
    }
  }

  /** What an escalation turn makes of the tables: nothing, unless the campaign is
      the user's own, past its deadline and still waiting for the broker. */
  lemma {:induction false} EscalationTurnIs(st: State, user: nat, c: nat)
    requires c < |st.campaigns| && st.campaigns[c].exposure < |st.exposures|
    ensures var row := st.campaigns[c];
            var waiting := row.status in {CampaignStatus.Submitted, CampaignStatus.AwaitingResponse, CampaignStatus.Running, CampaignStatus.Queued};
      AfterEscalate(st, user, c)
        == if row.user != user || row.deadlineAt >= st.now || !waiting then st
           else st.(campaigns := st.campaigns[c := row.(status := CampaignStatus.Escalated)],
                    exposures := st.exposures[row.exposure := st.exposures[row.exposure].(status := ExposureStatus.Failed)],
                    jobs := st.jobs + [Job(user, Escalate, Some(c), None, JobStatus.Queued, 0, st.now, "")])
  {
  }

  /** Escalations are conserved: each turn pays for the campaign it settles. */
  lemma {:induction false} PassConserves(cfg: Config, st: State, steps: seq<Step>)
    requires References(st) && IsPass(steps)
    ensures var after := Exec(cfg, st, steps);
      && References(after) && PassedOver(st, after)
      && AllSettled(after, steps)
  {
    if steps != [] {
      var n := |steps| - 1;
      PrefixEnds(steps, |steps|);
      assert steps[..|steps|] == steps;
      PassConserves(cfg, st, steps[..n]);
      OneMoreTurn(cfg, st, Exec(cfg, st, steps[..n]), steps[..n], steps[n]);
    }
  }

  lemma {:induction false} OneMoreTurn(cfg: Config, st: State, mid: State, steps: seq<Step>, step: Step)
    requires References(mid) && PassedOver(st, mid) && AllSettled(mid, steps) && IsPass([step])
    ensures var after := Apply(cfg, mid, step);
      References(after) && PassedOver(st, after) && AllSettled(after, steps + [step])
  {
    Turn(cfg, mid, step);
    PassedOverTwice(st, mid, Apply(cfg, mid, step));
    AllStaySettled(mid, Apply(cfg, mid, step), steps, step);
  }

  ghost predicate NoneOverdue(st: State) {
    forall c | 0 <= c < |st.campaigns| :: !IsOverdue(st.campaigns[c], st.now)
  }

  /** What a pass makes of campaign c: an overdue one is escalated and its
      exposure failed, any other is untouched. */
  ghost predicate EscalatedIfOverdue(st: State, after: State, c: nat)
    requires c < |st.campaigns| == |after.campaigns|
  {
    if IsOverdue(st.campaigns[c], st.now)
    then after.campaigns[c] == st.campaigns[c].(status := CampaignStatus.Escalated)
         && st.campaigns[c].exposure < |after.exposures|
         && after.exposures[st.campaigns[c].exposure].status == ExposureStatus.Failed
    else after.campaigns[c] == st.campaigns[c]
  }

  /** A campaign whose turn has come is escalated if and only if it was overdue. */
  lemma {:induction false} SettledByPass(st: State, after: State, c: nat)
    requires PassedOver(st, after) && c < |st.campaigns|
    requires AwaitsBroker(st.campaigns[c].status) ==> SettledAt(after, st.campaigns[c].user, c)
    ensures !IsOverdue(after.campaigns[c], after.now) && EscalatedIfOverdue(st, after, c)
  {
    assert Settled(st.now, st.campaigns[c], after.campaigns[c]) && EscalationMarked(st, after, c);
  }

  lemma {:induction false} PassSettles(after: State, users: seq<nat>, n: nat, user: nat, c: nat)
    requires AllSettled(after, PassSteps(users, n)) && user in users && c < n
    ensures SettledAt(after, user, c)
  {
    var i :| 0 <= i < |users| && users[i] == user;
    PassVisits(users, n, i, c);
    var k :| 0 <= k < |PassSteps(users, n)| && PassSteps(users, n)[k] == EscalateCampaign(user, c);
    assert SettledAt(after, PassSteps(users, n)[k].user, PassSteps(users, n)[k].campaign);
  }

  lemma {:induction false} PassOnReferences(cfg: Config, st: State, users: seq<nat>)
    requires References(st) && ServesAll(st.campaigns, users)
    ensures var after := Exec(cfg, st, PassSteps(users, |st.campaigns|));
      && References(after) && after.now == st.now && NoneOverdue(after)
      && |after.campaigns| == |st.campaigns|
      && (forall c | 0 <= c < |st.campaigns| :: EscalatedIfOverdue(st, after, c))
      && CountIf(after.jobs, IsEscalation()) == CountIf(st.jobs, IsEscalation()) + CountIf(st.campaigns, OverdueAt(st.now))
  {
    var steps := PassSteps(users, |st.campaigns|);
    var after := Exec(cfg, st, steps);
    PassStepsAre(users, |st.campaigns|);
    PassConserves(cfg, st, steps);
    forall c | 0 <= c < |st.campaigns| ensures !IsOverdue(after.campaigns[c], after.now) && EscalatedIfOverdue(st, after, c) {
      if AwaitsBroker(st.campaigns[c].status) {
        PassSettles(after, users, |st.campaigns|, st.campaigns[c].user, c);
      }
      SettledByPass(st, after, c);
    }
    CountNone(after.campaigns, OverdueAt(after.now));
  }

  /** In every reachable state, a pass escalates exactly the overdue campaigns,
      one ESCALATE job for each, and leaves no campaign overdue. */
  lemma {:induction false} PassEscalatesExactlyOverdue(cfg: Config, trace: seq<Step>, users: seq<nat>)
    requires ServesAll(StateAfter(cfg, trace).campaigns, users)
    ensures var st := StateAfter(cfg, trace);
            var after := Exec(cfg, st, PassSteps(users, |st.campaigns|));
      && NoneOverdue(after)
      && |after.campaigns| == |st.campaigns|
      && (forall c | 0 <= c < |st.campaigns| :: EscalatedIfOverdue(st, after, c))
      && CountIf(after.jobs, IsEscalation()) == CountIf(st.jobs, IsEscalation()) + CountIf(st.campaigns, OverdueAt(st.now))
  {
    StatusesAlwaysPaired(cfg, trace);
    PassOnReferences(cfg, StateAfter(cfg, trace), users);
  }

  /** A second pass at the same time escalates nothing. */
  lemma {:induction false} SecondPassEscalatesNone(cfg: Config, trace: seq<Step>, users: seq<nat>, again: seq<nat>)
    requires ServesAll(StateAfter(cfg, trace).campaigns, users)
    ensures var st := StateAfter(cfg, trace);
            var after := Exec(cfg, st, PassSteps(users, |st.campaigns|));
            var twice := Exec(cfg, after, PassSteps(again, |after.campaigns|));
      && twice.campaigns == after.campaigns
      && CountIf(twice.jobs, IsEscalation()) == CountIf(after.jobs, IsEscalation())
  {
    var st := StateAfter(cfg, trace);
    StatusesAlwaysPaired(cfg, trace);
    PassOnReferences(cfg, st, users);
    var after := Exec(cfg, st, PassSteps(users, |st.campaigns|));
    var twice := Exec(cfg, after, PassSteps(again, |after.campaigns|));
    PassStepsAre(again, |after.campaigns|);
    PassConserves(cfg, after, PassSteps(again, |after.campaigns|));
    forall c | 0 <= c < |after.campaigns| ensures twice.campaigns[c] == after.campaigns[c] {
      assert Settled(after.now, after.campaigns[c], twice.campaigns[c]);
    }
    CountNone(after.campaigns, OverdueAt(after.now));
    CountNone(twice.campaigns, OverdueAt(twice.now));
  }

  // ------------------------------------------------------------- verification

  lemma {:induction false} VerifyFirst(cfg: Config, st: State, user: nat, n: nat)
    ensures Exec(cfg, st, VerifySteps(user, n + 1)) == Exec(cfg, AfterVerify(cfg, st, user, n), VerifySteps(user, n))
  {
    ExecFirst(cfg, st, VerifyCampaign(user, n), VerifySteps(user, n));
  }

  lemma {:induction false} EscalateFirst(cfg: Config, st: State, user: nat, n: nat)
    ensures Exec(cfg, st, EscalateSteps(user, n + 1)) == Exec(cfg, AfterEscalate(st, user, n), EscalateSteps(user, n))
  {
    ExecFirst(cfg, st, EscalateCampaign(user, n), EscalateSteps(user, n));
  }

  /** VERIFY jobs of campaign c. */
  function Verifications(st: State, c: nat): nat {
    CountIf(st.jobs, ReceiptInvariant.JobsOf(c, VerifyRemoval))
  }

  predicate VerifiesNow(cfg: Config, st: State, user: nat, c: nat) {
    c < |st.campaigns| && st.campaigns[c].user == user && NeedsVerification(st.campaigns[c], cfg.verifyDays, st.now)
  }

  lemma {:induction false} OneVerification(cfg: Config, st: State, user: nat, d: nat, c: nat)
    ensures var after := AfterVerify(cfg, st, user, d);
      && after == st.(jobs := after.jobs)
      && Verifications(after, c) == Verifications(st, c) + if d == c && VerifiesNow(cfg, st, user, c) then 1 else 0
  {
    CountAppend(st.jobs, NewJob(st.now, user, VerifyRemoval, Some(d), None), ReceiptInvariant.JobsOf(c, VerifyRemoval));
  }

  lemma {:induction false} VerificationsBelow(cfg: Config, st: State, after: State, user: nat, n: nat, c: nat)
    requires after == Exec(cfg, st, VerifySteps(user, n))
    ensures after == st.(jobs := after.jobs)
    ensures Verifications(after, c) == Verifications(st, c) + if c < n && VerifiesNow(cfg, st, user, c) then 1 else 0
    decreases n
  {
    if n == 0 {
      assert VerifySteps(user, n) == [];
    } else {
      var m: nat := n - 1;
      VerifyFirst(cfg, st, user, m);
      OneVerification(cfg, st, user, m, c);
      VerificationsBelow(cfg, AfterVerify(cfg, st, user, m), after, user, m, c);
    }
  }

  /** What one user's escalations leave alone. */
  ghost predicate OnlyTouches(user: nat, c: nat, st: State, after: State) {
    && after.now == st.now && |after.campaigns| == |st.campaigns|
    && Verifications(after, c) == Verifications(st, c)
    && (c < |st.campaigns| ==> after.campaigns[c].user == st.campaigns[c].user)
    && (c < |st.campaigns| && st.campaigns[c].user != user ==> after.campaigns[c] == st.campaigns[c])
  }

  lemma {:induction false} EscalationTouches(st: State, user: nat, d: nat, c: nat)
    ensures OnlyTouches(user, c, st, AfterEscalate(st, user, d))
  {
    CountAppend(st.jobs, NewJob(st.now, user, Escalate, Some(d), None), ReceiptInvariant.JobsOf(c, VerifyRemoval));
  }

  lemma {:induction false} EscalationsTouch(cfg: Config, st: State, user: nat, n: nat, c: nat)
    ensures OnlyTouches(user, c, st, Exec(cfg, st, EscalateSteps(user, n)))
    decreases n
  {
    if n > 0 {
      EscalationTouches(st, user, n - 1, c);
      EscalationsTouch(cfg, AfterEscalate(st, user, n - 1), user, n - 1, c);
      EscalateFirst(cfg, st, user, n - 1);
    }
  }

  ghost predicate DistinctUsers(users: seq<nat>) {
    forall i, j | 0 <= i < j < |users| :: users[i] != users[j]
  }

  lemma {:induction false} FirstIsNotLater(users: seq<nat>, user: nat)
    requires users != [] && DistinctUsers(users)
    ensures DistinctUsers(users[1..])
    ensures user in users <==> user == users[0] || user in users[1..]
    ensures user in users[1..] ==> user != users[0]
  {
    forall i | 0 <= i < |users[1..]| ensures users[1..][i] != users[0] {
      assert users[1..][i] == users[i + 1];
    }
  }

  /** One user's turn: campaign c is verified when it is that user's and due. */
  lemma {:induction false} UserVerifies(cfg: Config, st: State, user: nat, n: nat, c: nat)
    requires c < n == |st.campaigns|
    ensures var after := Exec(cfg, st, VerifySteps(user, n) + EscalateSteps(user, n));
      && after.now == st.now && |after.campaigns| == n && after.campaigns[c].user == st.campaigns[c].user
      && (st.campaigns[c].user != user ==> after.campaigns[c] == st.campaigns[c])
      && Verifications(after, c) == Verifications(st, c) + if VerifiesNow(cfg, st, user, c) then 1 else 0
  {
    VerificationsBelow(cfg, st, Exec(cfg, st, VerifySteps(user, n)), user, n, c);
    EscalationsTouch(cfg, Exec(cfg, st, VerifySteps(user, n)), user, n, c);
    ExecConcat(cfg, st, VerifySteps(user, n), EscalateSteps(user, n));
  }

  lemma {:induction false} VerifiedByPass(cfg: Config, st: State, users: seq<nat>, n: nat, c: nat)
    requires DistinctUsers(users) && c < n == |st.campaigns|
    ensures Verifications(Exec(cfg, st, PassSteps(users, n)), c)
      == Verifications(st, c)
         + if st.campaigns[c].user in users && NeedsVerification(st.campaigns[c], cfg.verifyDays, st.now) then 1 else 0
    decreases |users|
  {
    if users != [] {
      var first := VerifySteps(users[0], n) + EscalateSteps(users[0], n);
      FirstIsNotLater(users, st.campaigns[c].user);
      UserVerifies(cfg, st, users[0], n, c);
      ExecConcat(cfg, st, first, PassSteps(users[1..], n));
      VerifiedByPass(cfg, Exec(cfg, st, first), users[1..], n, c);
    }
  }

  /** A pass queues exactly one VERIFY job for each campaign that was due for a
      check, and none for any other, also when it escalates the campaign. */
  lemma {:induction false} PassVerifiesExactlyDue(cfg: Config, st: State, users: seq<nat>, c: nat)
    requires DistinctUsers(users) && ServesAll(st.campaigns, users) && c < |st.campaigns|
    ensures Verifications(Exec(cfg, st, PassSteps(users, |st.campaigns|)), c)
      == Verifications(st, c) + if NeedsVerification(st.campaigns[c], cfg.verifyDays, st.now) then 1 else 0
  {
    VerifiedByPass(cfg, st, users, |st.campaigns|, c);
  }

  /** A verification turn of campaign c, taken while it was due. */
  function DueTurnsOf(cfg: Config, c: nat): (State, Step) -> bool {
    (st: State, step: Step) => step.VerifyCampaign? && step.campaign == c && VerifiesNow(cfg, st, step.user, c)
  }

  lemma {:induction false} OtherStepsVerifyNothing(cfg: Config, st: State, step: Step)
    requires !step.VerifyCampaign?
    ensures var after := Apply(cfg, st, step).jobs;
      |st.jobs| <= |after| && forall i | |st.jobs| <= i < |after| :: after[i].jobType != VerifyRemoval
  {
    ApplyGrows(cfg, st, step);
  }

  lemma {:induction false} StepVerifies(cfg: Config, st: State, step: Step, c: nat)
    ensures Verifications(Apply(cfg, st, step), c) == Verifications(st, c) + if DueTurnsOf(cfg, c)(st, step) then 1 else 0
  {
    if step.VerifyCampaign? {
      OneVerification(cfg, st, step.user, step.campaign, c);
    } else {
      var after := Apply(cfg, st, step);
      ApplyGrows(cfg, st, step);
      OtherStepsVerifyNothing(cfg, st, step);
      ReceiptInvariant.JobsOfAfterGrowth(st, after, c, VerifyRemoval);
      CountNone(after.jobs[|st.jobs|..], ReceiptInvariant.JobsOf(c, VerifyRemoval));
    }
  }

  /** VERIFY jobs are not unique: in every run a campaign has exactly one for
      each verification turn taken while it was due. */
  lemma {:induction false} VerificationsAreExact(cfg: Config, trace: seq<Step>, c: nat)
    ensures Verifications(StateAfter(cfg, trace), c) == CountSteps(cfg, trace, DueTurnsOf(cfg, c))
  {
    if trace != [] {
      var n := |trace| - 1;
      VerificationsAreExact(cfg, trace[..n], c);
      StepVerifies(cfg, StateAfter(cfg, trace[..n]), trace[n], c);
    }
  }

  // ------------------------------------------------------------- monitors

  /** `queue_due_watchlist_jobs` visits watchlists newest first. */
  function TickSteps(n: nat): seq<Step> {
    if n == 0 then [] else [QueueMonitor(n - 1)] + TickSteps(n - 1)
  }

  function LiveMonitors(st: State, w: nat): nat {
    CountIf(st.jobs, LiveMonitor(w))
  }

  /** Watchlists below n that are due and have no live MONITOR job. */
  function Unserved(st: State, n: nat): nat
    requires n <= |st.watchlists|
  {
    if n == 0 then 0
    else Unserved(st, n - 1) + if IsDue(st.watchlists[n - 1], st.now) && LiveMonitors(st, n - 1) == 0 then 1 else 0
  }

  /** What a tick makes of watchlist w. */
  ghost predicate Ticked(st: State, after: State, w: nat)
    requires w < |st.watchlists| == |after.watchlists|
  {
    var before, current := st.watchlists[w], after.watchlists[w];
    if IsDue(before, st.now)
    then current == before.(nextRunAt := NextRun(before, st.now)) && LiveMonitors(after, w) == Max(LiveMonitors(st, w), 1)
    else current == before && LiveMonitors(after, w) == LiveMonitors(st, w)
  }

  ghost predicate Untouched(st: State, after: State, w: nat)
    requires w < |st.watchlists| == |after.watchlists|
  {
    after.watchlists[w] == st.watchlists[w] && LiveMonitors(after, w) == LiveMonitors(st, w)
  }

  lemma {:induction false} MonitorTurn(st: State, v: nat)
    requires v < |st.watchlists|
    ensures var after := AfterQueueMonitor(st, v);
      && after.now == st.now && |after.watchlists| == |st.watchlists|
      && Ticked(st, after, v)
      && (forall w | 0 <= w < |st.watchlists| && w != v :: Untouched(st, after, w))
      && |after.jobs| == |st.jobs| + if IsDue(st.watchlists[v], st.now) && LiveMonitors(st, v) == 0 then 1 else 0
  {
    forall w | 0 <= w < |st.watchlists| {
      CountAppend(st.jobs, NewJob(st.now, st.watchlists[v].user, Monitor, None, Some(v)), LiveMonitor(w));
    }
  }

  lemma {:induction false} UnservedKept(st: State, after: State, n: nat)
    requires n <= |st.watchlists| == |after.watchlists| && after.now == st.now
    requires forall w | 0 <= w < n :: Untouched(st, after, w)
    ensures Unserved(after, n) == Unserved(st, n)
  {
    if n > 0 {
      assert Untouched(st, after, n - 1);
      UnservedKept(st, after, n - 1);
    }
  }

  /** Watchlists below n have had their turn, the others are untouched. */
  ghost predicate TickedBelow(st: State, after: State, n: nat) {
    && after.now == st.now && |after.watchlists| == |st.watchlists|
    && (forall w | 0 <= w < |st.watchlists| :: if w < n then Ticked(st, after, w) else Untouched(st, after, w))
  }

  lemma {:induction false} TickedFirst(st: State, mid: State, after: State, n: nat)
    requires 0 < n <= |st.watchlists| == |mid.watchlists| && mid.now == st.now
    requires Ticked(st, mid, n - 1) && forall w | 0 <= w < |st.watchlists| && w != n - 1 :: Untouched(st, mid, w)
    requires TickedBelow(mid, after, n - 1)
    ensures TickedBelow(st, after, n)
  {
    forall w | 0 <= w < |st.watchlists| ensures if w < n then Ticked(st, after, w) else Untouched(st, after, w) {
      assert w != n - 1 ==> Untouched(st, mid, w);
      assert if w < n - 1 then Ticked(mid, after, w) else Untouched(mid, after, w);
    }
  }

  /** The newest of n watchlists has its turn, then the n - 1 older ones. */
  lemma {:induction false} TickOnce(st: State, after: State, n: nat)
    requires 0 < n <= |st.watchlists|
    requires var mid := AfterQueueMonitor(st, n - 1);
      && TickedBelow(mid, after, n - 1)
      && n - 1 <= |mid.watchlists| && |after.jobs| == |mid.jobs| + Unserved(mid, n - 1)
    ensures TickedBelow(st, after, n) && |after.jobs| == |st.jobs| + Unserved(st, n)
  {
    var mid := AfterQueueMonitor(st, n - 1);
    MonitorTurn(st, n - 1);
    UnservedKept(st, mid, n - 1);
    TickedFirst(st, mid, after, n);
  }

  lemma {:induction false} TickFirst(cfg: Config, st: State, n: nat)
    ensures Exec(cfg, st, TickSteps(n + 1)) == Exec(cfg, AfterQueueMonitor(st, n), TickSteps(n))
  {
    ExecFirst(cfg, st, QueueMonitor(n), TickSteps(n));
  }

  lemma {:induction false} TickBelow(cfg: Config, st: State, n: nat)
    requires n <= |st.watchlists|
    ensures TickedBelow(st, Exec(cfg, st, TickSteps(n)), n)
    ensures |Exec(cfg, st, TickSteps(n)).jobs| == |st.jobs| + Unserved(st, n)
    decreases n
  {
    if n > 0 {
      MonitorTurn(st, n - 1);
      TickBelow(cfg, AfterQueueMonitor(st, n - 1), n - 1);
      TickFirst(cfg, st, n - 1);
      TickOnce(st, Exec(cfg, st, TickSteps(n)), n);
    }
  }

  ghost predicate NoneDue(st: State) {
    forall w | 0 <= w < |st.watchlists| :: !IsDue(st.watchlists[w], st.now)
  }

  /** After a tick every watchlist that was due has a live MONITOR job and a
      next run in the future, the others are untouched, and one job was added
      for each due watchlist that had none live. */
  lemma {:induction false} TickServesEveryDueWatchlist(cfg: Config, st: State)
    ensures var after := Exec(cfg, st, TickSteps(|st.watchlists|));
      && |after.watchlists| == |st.watchlists|
      && (forall w | 0 <= w < |st.watchlists| :: Ticked(st, after, w))
      && (forall w | 0 <= w < |st.watchlists| && IsDue(st.watchlists[w], st.now) ::
            LiveMonitors(after, w) >= 1 && after.watchlists[w].nextRunAt.Some? && after.watchlists[w].nextRunAt.value > after.now)
      && NoneDue(after)
      && |after.jobs| == |st.jobs| + Unserved(st, |st.watchlists|)
  {
    var after := Exec(cfg, st, TickSteps(|st.watchlists|));
    TickBelow(cfg, st, |st.watchlists|);
    forall w | 0 <= w < |st.watchlists|
      ensures !IsDue(after.watchlists[w], after.now)
      ensures IsDue(st.watchlists[w], st.now) ==>
        LiveMonitors(after, w) >= 1 && after.watchlists[w].nextRunAt.Some? && after.watchlists[w].nextRunAt.value > after.now
    {
      assert Ticked(st, after, w);
    }
  }

  /** MONITOR jobs of watchlist w, whatever has become of them. */
  function MonitorOf(w: nat): Job -> bool {
    (j: Job) => j.jobType == Monitor && j.watchlist == Some(w)
  }

  /** On, scheduled, and the scheduled time has come. */
  predicate TimeHasCome(x: Watchlist, now: int) {
    x.active && x.nextRunAt.Some? && x.nextRunAt.value <= now
  }

  predicate Queues(st: State, w: nat)
    requires w < |st.watchlists|
  {
    TimeHasCome(st.watchlists[w], st.now) && LiveMonitors(st, w) == 0
  }

  lemma {:induction false} TurnQueues(st: State, v: nat, w: nat)
    requires v < |st.watchlists|
    ensures CountIf(AfterQueueMonitor(st, v).jobs, MonitorOf(w))
      == CountIf(st.jobs, MonitorOf(w)) + if v == w && Queues(st, v) then 1 else 0
  {
    CountAppend(st.jobs, NewJob(st.now, st.watchlists[v].user, Monitor, None, Some(v)), MonitorOf(w));
  }

  /** The MONITOR jobs of watchlist w, and one that it is owed by the n older turns. */
  function MonitorsAndOwed(st: State, n: nat, w: nat): nat
    requires w < |st.watchlists|
  {
    CountIf(st.jobs, MonitorOf(w)) + if w < n && Queues(st, w) then 1 else 0
  }

  /** The turn of the newest of n watchlists leaves the others what they are owed. */
  lemma {:induction false} OwedAfterTurn(st: State, n: nat, w: nat)
    requires 0 < n <= |st.watchlists| && w < |st.watchlists|
    ensures var mid := AfterQueueMonitor(st, n - 1);
      |mid.watchlists| == |st.watchlists| && MonitorsAndOwed(mid, n - 1, w) == MonitorsAndOwed(st, n, w)
  {
    TurnQueues(st, n - 1, w);
    MonitorTurn(st, n - 1);
    if w != n - 1 {
      assert Untouched(st, AfterQueueMonitor(st, n - 1), w);
    }
  }

  /** The tables after the turns of the n oldest watchlists, newest first. */
  function TickedOver(st: State, n: nat): State
    decreases n
  {
    if n == 0 then st else TickedOver(AfterQueueMonitor(st, n - 1), n - 1)
  }

  lemma {:induction false} TickingSteps(cfg: Config, st: State, n: nat)
    ensures Exec(cfg, st, TickSteps(n)) == TickedOver(st, n)
    decreases n
  {
    if n == 0 {
      assert TickSteps(n) == [];
    } else {
      TickFirst(cfg, st, n - 1);
      TickingSteps(cfg, AfterQueueMonitor(st, n - 1), n - 1);
    }
  }

  lemma {:induction false} TickQueues(st: State, n: nat, w: nat)
    requires n <= |st.watchlists| && w < |st.watchlists|
    ensures CountIf(TickedOver(st, n).jobs, MonitorOf(w)) == MonitorsAndOwed(st, n, w)
    decreases n
  {
    if n > 0 {
      OwedAfterTurn(st, n, w);
      TickQueues(AfterQueueMonitor(st, n - 1), n - 1, w);
    }
  }

  /** A watchlist that is on and whose time has come gets one MONITOR job, unless
      one is live, and its next run is one cadence, at least an hour, from now.
      Any other keeps its row and gets no job. */
  ghost predicate RescheduledIfDue(st: State, after: State, w: nat)
    requires w < |st.watchlists| == |after.watchlists|
  {
    var x := st.watchlists[w];
    var added := CountIf(after.jobs, MonitorOf(w)) - CountIf(st.jobs, MonitorOf(w));
    if TimeHasCome(x, st.now)
    then && after.watchlists[w] == x.(nextRunAt := Some(st.now + (if x.cadenceHours > 1 then x.cadenceHours else 1) * 3600))
         && added == if LiveMonitors(st, w) == 0 then 1 else 0
    else after.watchlists[w] == x && added == 0
  }

  /** A tick reschedules exactly the watchlists that are on and whose time has come. */
  lemma {:induction false} TickReschedulesExactlyDue(cfg: Config, st: State, w: nat)
    requires w < |st.watchlists|
    ensures var after := Exec(cfg, st, TickSteps(|st.watchlists|));
      |after.watchlists| == |st.watchlists| && RescheduledIfDue(st, after, w)
  {
    TickServesEveryDueWatchlist(cfg, st);
    TickingSteps(cfg, st, |st.watchlists|);
    TickQueues(st, |st.watchlists|, w);
    TickedFields(st, Exec(cfg, st, TickSteps(|st.watchlists|)), w);
  }

  lemma {:induction false} TickedFields(st: State, after: State, w: nat)
    requires w < |st.watchlists| == |after.watchlists| && Ticked(st, after, w)
    requires CountIf(after.jobs, MonitorOf(w)) == MonitorsAndOwed(st, |st.watchlists|, w)
    ensures RescheduledIfDue(st, after, w)
  {
  }

  lemma {:induction false} NothingDueNothingQueued(cfg: Config, st: State, n: nat)
    requires NoneDue(st) && n <= |st.watchlists|
    ensures Exec(cfg, st, TickSteps(n)) == st
    decreases n
  {
    if n > 0 {
      assert !IsDue(st.watchlists[n - 1], st.now);
      assert AfterQueueMonitor(st, n - 1) == st;
      ExecFirst(cfg, st, QueueMonitor(n - 1), TickSteps(n - 1));
      NothingDueNothingQueued(cfg, st, n - 1);
    }
  }

  /** A second tick at the same time changes nothing. */
  lemma {:induction false} SecondTickQueuesNothing(cfg: Config, st: State)
    ensures var after := Exec(cfg, st, TickSteps(|st.watchlists|));
      Exec(cfg, after, TickSteps(|after.watchlists|)) == after
  {
    TickServesEveryDueWatchlist(cfg, st);
    var after := Exec(cfg, st, TickSteps(|st.watchlists|));
    NothingDueNothingQueued(cfg, after, |after.watchlists|);
  }
}
