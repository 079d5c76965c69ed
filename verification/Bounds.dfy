/** How often jobs, monitors and escalations can repeat, over whole runs. */
module Bounds {
  import opened Prelude
  import opened Records
  import opened Verifier
  import opened Sentinel
  import opened StatusInvariant
  import opened ReceiptInvariant

  // ------------------------------------------------------------- attempts

  predicate FailsJob(st: State, step: Step, j: nat) {
    step.Fail? && step.job == j && OwnsJob(st, step.user, j)
  }

  function FailuresOf(j: nat): (State, Step) -> bool {
    (st: State, step: Step) => FailsJob(st, step, j)
  }

  /** A failure that makes the job claimable again. */
  predicate FreesJob(st: State, step: Step, j: nat) {
    FailsJob(st, step, j) && !Claimable(st.jobs[j])
  }

  function FreeingsOf(j: nat): (State, Step) -> bool {
    (st: State, step: Step) => FreesJob(st, step, j)
  }

  /** A completion that takes a claimable job away. */
  predicate TakesJob(st: State, step: Step, j: nat) {
    step.Complete? && step.job == j && OwnsJob(st, step.user, j) && Claimable(st.jobs[j])
  }

  function TakingsOf(j: nat): (State, Step) -> bool {
    (st: State, step: Step) => TakesJob(st, step, j)
  }

  /** Attempts made, plus one more that may be claimed right now. */
  function Attempts(j: Job): nat {
    j.attempts + if Claimable(j) then 1 else 0
  }

  /** The same for job j of a state; a job not there yet has its first attempt
      to come. */
  function AttemptsAt(st: State, j: nat): nat {
    if j < |st.jobs| then Attempts(st.jobs[j]) else 1
  }

  lemma {:induction false} EndpointAttempts(cfg: Config, st: State, step: Step, j: nat)
    requires step.Claim? || step.Complete? || step.Fail?
    ensures var after := Apply(cfg, st, step);
      && |after.jobs| == |st.jobs|
      && AttemptsAt(after, j) + (if TakesJob(st, step, j) then 1 else 0)
           == AttemptsAt(st, j) + if FreesJob(st, step, j) then 1 else 0
  {
  }

  lemma {:induction false} NewJobsAreUnattempted(cfg: Config, st: State, step: Step)
    requires !step.Claim? && !step.Complete? && !step.Fail?
    ensures var after := Apply(cfg, st, step).jobs;
      && |st.jobs| <= |after| && (forall i | 0 <= i < |st.jobs| :: after[i] == st.jobs[i])
      && forall i | |st.jobs| <= i < |after| :: Attempts(after[i]) == 1
  {
  }

  lemma {:induction false} StepAttempts(cfg: Config, st: State, step: Step, j: nat)
    ensures AttemptsAt(Apply(cfg, st, step), j) + (if TakesJob(st, step, j) then 1 else 0)
      == AttemptsAt(st, j) + if FreesJob(st, step, j) then 1 else 0
  {
    if step.Claim? || step.Complete? || step.Fail? {
      EndpointAttempts(cfg, st, step, j);
    } else {
      NewJobsAreUnattempted(cfg, st, step);
    }
  }

  /** Exactly how often a job is attempted in every run: once, and once more
      for each failure that made it claimable again, less the completions that
      took it away unclaimed. No limit enters. */
  lemma {:induction false} AttemptsAreExact(cfg: Config, trace: seq<Step>, j: nat)
    ensures AttemptsAt(StateAfter(cfg, trace), j) + CountSteps(cfg, trace, TakingsOf(j))
      == 1 + CountSteps(cfg, trace, FreeingsOf(j))
  {
    if trace != [] {
      var n := |trace| - 1;
      AttemptsAreExact(cfg, trace[..n], j);
      StepAttempts(cfg, StateAfter(cfg, trace[..n]), trace[n], j);
    }
  }

  /** `claim` never reads a limit, yet in every run a job is attempted at most
      once more often than it has been failed. */
  lemma {:induction false} AttemptsAreBounded(cfg: Config, trace: seq<Step>, j: nat)
    requires j < |StateAfter(cfg, trace).jobs|
    ensures StateAfter(cfg, trace).jobs[j].attempts <= Attempts(StateAfter(cfg, trace).jobs[j])
      <= 1 + CountSteps(cfg, trace, FailuresOf(j))
  {
    AttemptsAreExact(cfg, trace, j);
    FewerSteps(cfg, trace, FreeingsOf(j), FailuresOf(j));
  }

  /** Fewer steps satisfy a stronger predicate. */
  lemma {:induction false} FewerSteps(cfg: Config, trace: seq<Step>, p: (State, Step) -> bool, q: (State, Step) -> bool)
    requires forall st, step :: p(st, step) ==> q(st, step)
    ensures CountSteps(cfg, trace, p) <= CountSteps(cfg, trace, q)
  {
    if trace != [] {
      FewerSteps(cfg, trace[..|trace| - 1], p, q);
    }
  }

  // ------------------------------------------------------------- live monitors

  predicate Reclaims(st: State, step: Step, w: nat) {
    && step.Claim? && OwnsJob(st, step.user, step.job)
    && st.jobs[step.job].status == JobStatus.Failed
    && st.jobs[step.job].jobType == Monitor && st.jobs[step.job].watchlist == Some(w)
  }

  function ReclaimsOf(w: nat): (State, Step) -> bool {
    (st: State, step: Step) => Reclaims(st, step, w)
  }

  lemma {:induction false} NoNewMonitor(jobs: seq<Job>, more: seq<Job>, w: nat)
    requires forall i | 0 <= i < |more| :: more[i].jobType != Monitor
    ensures CountIf(jobs + more, LiveMonitor(w)) == CountIf(jobs, LiveMonitor(w))
  {
    CountConcat(jobs, more, LiveMonitor(w));
    CountNone(more, LiveMonitor(w));
  }

  lemma {:induction false} JobUpdateMonitors(st: State, step: Step, j: nat, job: Job, w: nat)
    requires j < |st.jobs| && SameJob(st.jobs[j], job)
    requires LiveMonitor(w)(job) && !LiveMonitor(w)(st.jobs[j]) ==> Reclaims(st, step, w)
    ensures CountIf(st.jobs[j := job], LiveMonitor(w))
      <= CountIf(st.jobs, LiveMonitor(w)) + if Reclaims(st, step, w) then 1 else 0
  {
    CountReplace(st.jobs, j, job, LiveMonitor(w));
  }

  lemma {:induction false} EndpointMonitors(cfg: Config, st: State, step: Step, w: nat)
    requires step.Claim? || step.Complete? || step.Fail?
    ensures CountIf(Apply(cfg, st, step).jobs, LiveMonitor(w))
      <= CountIf(st.jobs, LiveMonitor(w)) + if Reclaims(st, step, w) then 1 else 0
  {
    var j := step.job;
    if OwnsJob(st, step.user, j) {
      var job := if step.Claim? && Claimable(st.jobs[j]) then st.jobs[j].(status := JobStatus.Claimed, attempts := st.jobs[j].attempts + 1)
                 else if step.Claim? then st.jobs[j]
                 else if step.Complete? then CompletedJob(st.jobs[j], step.result)
                 else st.jobs[j].(status := JobStatus.Failed);
      assert Apply(cfg, st, step).jobs == st.jobs[j := job];
      JobUpdateMonitors(st, step, j, job, w);
    }
  }

  lemma {:induction false} QueueMonitorMonitors(st: State, v: nat, w: nat)
    ensures var before, after := CountIf(st.jobs, LiveMonitor(w)), CountIf(AfterQueueMonitor(st, v).jobs, LiveMonitor(w));
      after <= before || (before == 0 && after <= 1)
  {
    if v < |st.watchlists| {
      CountAppend(st.jobs, NewJob(st.now, st.watchlists[v].user, Monitor, None, Some(v)), LiveMonitor(w));
    }
  }

  /** The remaining steps add jobs of other types, or none. */
  lemma {:induction false} NewJobsOfOtherSteps(cfg: Config, st: State, step: Step)
    requires !step.Claim? && !step.Complete? && !step.Fail? && !step.QueueMonitor?
    ensures var after := Apply(cfg, st, step).jobs;
      && |st.jobs| <= |after| && (forall i | 0 <= i < |st.jobs| :: after[i] == st.jobs[i])
      && (forall i | |st.jobs| <= i < |after| :: after[i].jobType != Monitor)
      && (!step.EscalateCampaign? ==> forall i | |st.jobs| <= i < |after| :: after[i].jobType != Escalate)
  {
  }

  /** A step makes one more monitor live only by reclaiming a failed one, or
      when none was live. */
  lemma {:induction false} StepMonitors(cfg: Config, st: State, step: Step, w: nat)
    ensures var before, after := CountIf(st.jobs, LiveMonitor(w)), CountIf(Apply(cfg, st, step).jobs, LiveMonitor(w));
      after <= before + (if Reclaims(st, step, w) then 1 else 0) || (before == 0 && after <= 1)
  {
    if step.Claim? || step.Complete? || step.Fail? {
      EndpointMonitors(cfg, st, step, w);
    } else if step.QueueMonitor? {
      QueueMonitorMonitors(st, step.watchlist, w);
    } else {
      NewJobsOfOtherSteps(cfg, st, step);
      var after := Apply(cfg, st, step).jobs;
      assert after == st.jobs + after[|st.jobs|..];
      NoNewMonitor(st.jobs, after[|st.jobs|..], w);
    }
  }

  /** In every run a watchlist has at most one live MONITOR job, and one more
      for every failed one that was claimed again. */
  lemma {:induction false} LiveMonitorsAreBounded(cfg: Config, trace: seq<Step>, w: nat)
    ensures CountIf(StateAfter(cfg, trace).jobs, LiveMonitor(w)) <= 1 + CountSteps(cfg, trace, ReclaimsOf(w))
  {
    if trace != [] {
      var n := |trace| - 1;
      LiveMonitorsAreBounded(cfg, trace[..n], w);
      StepMonitors(cfg, StateAfter(cfg, trace[..n]), trace[n], w);
    }
  }

  /** A failed monitor is claimed again while another one is live. */
  predicate Doubles(st: State, step: Step, w: nat) {
    Reclaims(st, step, w) && CountIf(st.jobs, LiveMonitor(w)) > 0
  }

  function DoublingsOf(w: nat): (State, Step) -> bool {
    (st: State, step: Step) => Doubles(st, step, w)
  }

  lemma {:induction false} ReclaimAddsOne(cfg: Config, st: State, step: Step, w: nat)
    requires Reclaims(st, step, w)
    ensures CountIf(Apply(cfg, st, step).jobs, LiveMonitor(w)) == CountIf(st.jobs, LiveMonitor(w)) + 1
  {
    var j := step.job;
    CountReplace(st.jobs, j, st.jobs[j].(status := JobStatus.Claimed, attempts := st.jobs[j].attempts + 1), LiveMonitor(w));
  }

  /** At no point of the run is more than one MONITOR job of w live. */
  ghost predicate AlwaysOneLive(cfg: Config, trace: seq<Step>, w: nat) {
    && CountIf(StateAfter(cfg, trace).jobs, LiveMonitor(w)) <= 1
    && (trace != [] ==> AlwaysOneLive(cfg, trace[..|trace| - 1], w))
  }

  /** A watchlist has at most one live MONITOR job throughout a run exactly when
      no failed one is claimed again while another is live. */
  lemma {:induction false} OneLiveMonitorExactly(cfg: Config, trace: seq<Step>, w: nat)
    ensures AlwaysOneLive(cfg, trace, w) <==> CountSteps(cfg, trace, DoublingsOf(w)) == 0
  {
    if trace != [] {
      var n := |trace| - 1;
      OneLiveMonitorExactly(cfg, trace[..n], w);
      if CountIf(StateAfter(cfg, trace[..n]).jobs, LiveMonitor(w)) <= 1 {
        LastStepLive(cfg, StateAfter(cfg, trace[..n]), trace[n], w);
      }
    }
  }

  lemma {:induction false} LastStepLive(cfg: Config, before: State, step: Step, w: nat)
    requires CountIf(before.jobs, LiveMonitor(w)) <= 1
    ensures CountIf(Apply(cfg, before, step).jobs, LiveMonitor(w)) <= 1 <==> !Doubles(before, step, w)
  {
    StepMonitors(cfg, before, step, w);
    if Reclaims(before, step, w) {
      ReclaimAddsOne(cfg, before, step, w);
    }
  }

  // ------------------------------------------------------------- escalations

  /** A completion that marks campaign c as submitted again. */
  predicate Resubmits(st: State, step: Step, c: nat) {
    CompletesJobOf(st, step, c) && st.jobs[step.job].jobType != Deindex
  }

  function ResubmissionsOf(c: nat): (State, Step) -> bool {
    (st: State, step: Step) => Resubmits(st, step, c)
  }

  /** The same, when the campaign was not waiting for the broker any more. */
  predicate Reopens(st: State, step: Step, c: nat) {
    Resubmits(st, step, c) && !(c < |st.campaigns| && AwaitsBroker(st.campaigns[c].status))
  }

  function ReopeningsOf(c: nat): (State, Step) -> bool {
    (st: State, step: Step) => Reopens(st, step, c)
  }

  /** Escalations made, plus one more that may still come. */
  function Escalations(st: State, c: nat): nat {
    CountIf(st.jobs, JobsOf(c, Escalate)) + if c < |st.campaigns| && AwaitsBroker(st.campaigns[c].status) then 1 else 0
  }

  function Exists(st: State, c: nat): nat {
    if c < |st.campaigns| then 1 else 0
  }

  lemma {:induction false} NoNewEscalation(jobs: seq<Job>, more: seq<Job>, c: nat)
    requires forall i | 0 <= i < |more| :: more[i].jobType != Escalate
    ensures CountIf(jobs + more, JobsOf(c, Escalate)) == CountIf(jobs, JobsOf(c, Escalate))
  {
    CountConcat(jobs, more, JobsOf(c, Escalate));
    CountNone(more, JobsOf(c, Escalate));
  }

  lemma {:induction false} EscalateStep(st: State, user: nat, d: nat, c: nat)
    ensures Escalations(AfterEscalate(st, user, d), c) == Escalations(st, c)
    ensures |AfterEscalate(st, user, d).campaigns| == |st.campaigns|
  {
    if EscalatesNow(st, user, d) {
      CountAppend(st.jobs, NewJob(st.now, user, Escalate, Some(d), None), JobsOf(c, Escalate));
    }
  }

  lemma {:induction false} CompletionEscalations(st: State, j: nat, job: Job, d: nat, row: Campaign, c: nat)
    requires j < |st.jobs| && d < |st.campaigns|
    requires job.jobType == st.jobs[j].jobType && job.campaign == st.jobs[j].campaign
    requires row.status == if job.jobType == Deindex then st.campaigns[d].status else CampaignStatus.Submitted
    ensures Escalations(WithCompletion(st, j, job, d, row), c) == Escalations(st, c)
      + if c == d && job.jobType != Deindex && !AwaitsBroker(st.campaigns[d].status) then 1 else 0
  {
    CountReplace(st.jobs, j, job, JobsOf(c, Escalate));
  }

  lemma {:induction false} CompleteStep(cfg: Config, st: State, user: nat, j: nat, confirmation: string, result: string, c: nat)
    requires References(st)
    ensures var after := AfterComplete(cfg, st, user, j, confirmation, result);
      && Escalations(after, c) == Escalations(st, c)
           + (if Reopens(st, Step.Complete(user, j, confirmation, result), c) then 1 else 0)
      && |after.campaigns| == |st.campaigns|
  {
    if OwnsJob(st, user, j) {
      var job := CompletedJob(st.jobs[j], result);
      assert JobRefers(st, st.jobs[j]);
      if job.campaign.Some? {
        var d := job.campaign.value;
        CompletedRow(cfg, st.campaigns[d], st.now, job.jobType, confirmation, job.result);
        CompletionEscalations(st, j, job, d,
          CompletedCampaign(cfg, st.campaigns[d], st.now, job.jobType, confirmation, job.result), c);
      } else {
        CountReplace(st.jobs, j, job, JobsOf(c, Escalate));
      }
    }
  }

  lemma {:induction false} RemovalEscalations(cfg: Config, st: State, user: nat, e: nat, broker: Option<Broker>,
                                              jurisdiction: string, uuid: string, c: nat)
    requires References(st)
    ensures var after := AfterQueueRemoval(cfg, st, user, e, broker, jurisdiction, uuid);
      Escalations(after, c) + Exists(st, c) == Escalations(st, c) + Exists(after, c)
  {
    if AfterQueueRemoval(cfg, st, user, e, broker, jurisdiction, uuid) != st {
      var row, jobs := OpenedCampaign(cfg, st, user, e, broker, jurisdiction, uuid), OpeningJobs(st, user, e, broker);
      OpenedRow(cfg, st, user, e, broker, jurisdiction, uuid);
      OpeningEscalations(st, e, row, jobs, c);
    }
  }

  /** A new campaign is the only one whose escalations change: one may come. */
  lemma {:induction false} OpeningEscalations(st: State, e: nat, row: Campaign, jobs: seq<Job>, c: nat)
    requires References(st) && e < |st.exposures| && row.status == CampaignStatus.Queued
    requires forall i | 0 <= i < |jobs| :: jobs[i].jobType != Escalate
    ensures var after := WithCampaign(st, e, row, jobs);
      Escalations(after, c) + Exists(st, c) == Escalations(st, c) + Exists(after, c)
  {
    NoNewEscalation(st.jobs, jobs, c);
  }

  lemma {:induction false} StepEscalations(cfg: Config, st: State, step: Step, c: nat)
    requires References(st)
    ensures var after := Apply(cfg, st, step);
      Escalations(after, c) + Exists(st, c) == Escalations(st, c) + Exists(after, c) + if Reopens(st, step, c) then 1 else 0
  {
    match step
    case QueueRemoval(user, e, broker, jurisdiction, uuid) =>
      RemovalEscalations(cfg, st, user, e, broker, jurisdiction, uuid, c);
    case Complete(user, j, confirmation, result) => CompleteStep(cfg, st, user, j, confirmation, result, c);
    case EscalateCampaign(user, d) => EscalateStep(st, user, d, c);
    case _ => QuietStep(cfg, st, step, c);
  }

  lemma {:induction false} EndpointEscalations(cfg: Config, st: State, step: Step, c: nat)
    requires step.Claim? || step.Fail?
    ensures Escalations(Apply(cfg, st, step), c) == Escalations(st, c)
  {
    var j := step.job;
    if OwnsJob(st, step.user, j) {
      var job := if step.Fail? then st.jobs[j].(status := JobStatus.Failed)
                 else if Claimable(st.jobs[j]) then st.jobs[j].(status := JobStatus.Claimed, attempts := st.jobs[j].attempts + 1)
                 else st.jobs[j];
      assert Apply(cfg, st, step).jobs == st.jobs[j := job];
      CountReplace(st.jobs, j, job, JobsOf(c, Escalate));
    }
  }

  lemma {:induction false} QueueMonitorEscalations(st: State, v: nat, c: nat)
    ensures Escalations(AfterQueueMonitor(st, v), c) == Escalations(st, c)
  {
    if v < |st.watchlists| {
      CountAppend(st.jobs, NewJob(st.now, st.watchlists[v].user, Monitor, None, Some(v)), JobsOf(c, Escalate));
    }
  }

  lemma {:induction false} QuietStep(cfg: Config, st: State, step: Step, c: nat)
    requires !step.QueueRemoval? && !step.Complete? && !step.EscalateCampaign?
    ensures Escalations(Apply(cfg, st, step), c) == Escalations(st, c)
    ensures Apply(cfg, st, step).campaigns == st.campaigns
  {
    SameCampaignTable(cfg, st, step);
    if step.Claim? || step.Fail? {
      EndpointEscalations(cfg, st, step, c);
    } else if step.QueueMonitor? {
      QueueMonitorEscalations(st, step.watchlist, c);
    } else {
      NewJobsOfOtherSteps(cfg, st, step);
      var after := Apply(cfg, st, step).jobs;
      assert after == st.jobs + after[|st.jobs|..];
      NoNewEscalation(st.jobs, after[|st.jobs|..], c);
    }
  }

  lemma {:induction false} SameCampaignTable(cfg: Config, st: State, step: Step)
    requires !step.QueueRemoval? && !step.Complete? && !step.EscalateCampaign?
    ensures Apply(cfg, st, step).campaigns == st.campaigns
  {
  }

  /** Exactly how often a campaign is escalated in every run: escalations made
      or still to come are one, and one more for every completion that
      submitted it again when it was not waiting any more. */
  lemma {:induction false} EscalationsAreExact(cfg: Config, trace: seq<Step>, c: nat)
    ensures var st := StateAfter(cfg, trace);
      Escalations(st, c) == Exists(st, c) + CountSteps(cfg, trace, ReopeningsOf(c))
  {
    if trace != [] {
      var n := |trace| - 1;
      EscalationsAreExact(cfg, trace[..n], c);
      StatusesAlwaysPaired(cfg, trace[..n]);
      StepEscalations(cfg, StateAfter(cfg, trace[..n]), trace[n], c);
    }
  }

  /** So it is escalated at most once, and once more for every completion that
      submitted it again. */
  lemma {:induction false} EscalationsAreBounded(cfg: Config, trace: seq<Step>, c: nat)
    ensures CountIf(StateAfter(cfg, trace).jobs, JobsOf(c, Escalate)) <= Escalations(StateAfter(cfg, trace), c)
      <= 1 + CountSteps(cfg, trace, ResubmissionsOf(c))
  {
    EscalationsAreExact(cfg, trace, c);
    FewerSteps(cfg, trace, ReopeningsOf(c), ResubmissionsOf(c));
  }
}
