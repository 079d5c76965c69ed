/** How the statuses of exposures and campaigns move together. */
module StatusInvariant {
  import opened Prelude
  import opened Records
  import opened Sentinel
  import Triage

  // ------------------------------------------------------------- identity

  ghost predicate SameExposure(a: Exposure, b: Exposure) {
    a.user == b.user && a.fingerprint == b.fingerprint && a.url == b.url && a.kind == b.kind
  }

  ghost predicate SameCampaign(a: Campaign, b: Campaign) {
    a.user == b.user && a.exposure == b.exposure && a.uuid == b.uuid && a.channel == b.channel
  }

  ghost predicate SameJob(a: Job, b: Job) {
    && a.user == b.user && a.jobType == b.jobType && a.createdAt == b.createdAt
    && a.campaign == b.campaign && a.watchlist == b.watchlist
  }

  ghost predicate SameWatchlist(a: Watchlist, b: Watchlist) {
    a.user == b.user
  }

  /** Time does not go back, rows stay, and what identifies a row stays. */
  ghost predicate Grows(st: State, after: State) {
    && st.now <= after.now
    && |st.exposures| <= |after.exposures|
    && |st.campaigns| <= |after.campaigns|
    && |st.jobs| <= |after.jobs|
    && |st.watchlists| <= |after.watchlists|
    && (forall e | 0 <= e < |st.exposures| :: SameExposure(st.exposures[e], after.exposures[e]))
    && (forall c | 0 <= c < |st.campaigns| :: SameCampaign(st.campaigns[c], after.campaigns[c]))
    && (forall j | 0 <= j < |st.jobs| :: SameJob(st.jobs[j], after.jobs[j]))
    && (forall w | 0 <= w < |st.watchlists| :: SameWatchlist(st.watchlists[w], after.watchlists[w]))
  }

  lemma {:induction false} PersistGrows(cfg: Config, st: State, user: nat, f: Triage.Finding, canary: bool)
    ensures Grows(st, AfterPersist(cfg, st, user, f, canary))
  {
  }

  /** What the opened campaign row says, receipts aside. */
  lemma {:induction false} OpenedRow(cfg: Config, st: State, user: nat, e: nat, broker: Option<Broker>,
                                     jurisdiction: string, uuid: string)
    ensures var c := OpenedCampaign(cfg, st, user, e, broker, jurisdiction, uuid);
      c.user == user && c.exposure == e && c.uuid == uuid && c.status == CampaignStatus.Queued
  {
  }

  lemma {:induction false} CompletedRow(cfg: Config, c: Campaign, now: int, t: JobType, confirmation: string,
                                        result: string)
    ensures var r := CompletedCampaign(cfg, c, now, t, confirmation, result);
      && SameCampaign(c, r) && r.createdAt == c.createdAt && r.deadlineAt == c.deadlineAt
      && r.status == if t == Deindex then c.status else CampaignStatus.Submitted
  {
  }

  lemma {:induction false} WithCampaignGrows(st: State, e: nat, c: Campaign, jobs: seq<Job>)
    requires e < |st.exposures|
    ensures Grows(st, WithCampaign(st, e, c, jobs))
  {
  }

  lemma {:induction false} WithCompletionGrows(st: State, j: nat, job: Job, c: nat, campaign: Campaign)
    requires j < |st.jobs| && c < |st.campaigns| && SameJob(st.jobs[j], job) && SameCampaign(st.campaigns[c], campaign)
    ensures Grows(st, WithCompletion(st, j, job, c, campaign))
  {
  }

  lemma {:induction false} CompleteGrows(cfg: Config, st: State, user: nat, j: nat, confirmation: string,
                                        result: string)
    ensures Grows(st, AfterComplete(cfg, st, user, j, confirmation, result))
  {
    if OwnsJob(st, user, j) {
      var job := CompletedJob(st.jobs[j], result);
      if job.campaign.Some? && job.campaign.value < |st.campaigns| {
        var c := job.campaign.value;
        CompletedRow(cfg, st.campaigns[c], st.now, job.jobType, confirmation, job.result);
        WithCompletionGrows(st, j, job, c,
          CompletedCampaign(cfg, st.campaigns[c], st.now, job.jobType, confirmation, job.result));
      }
    }
  }

  lemma {:induction false} JobStepsGrow(st: State, user: nat, j: nat)
    ensures Grows(st, AfterClaim(st, user, j)) && Grows(st, AfterFail(st, user, j))
  {
  }

  lemma {:induction false} EscalateGrows(st: State, user: nat, c: nat)
    ensures Grows(st, AfterEscalate(st, user, c))
  {
  }

  lemma {:induction false} WatchlistStepsGrow(st: State, w: nat)
    ensures Grows(st, AfterQueueMonitor(st, w)) && Grows(st, AfterReschedule(st, w))
  {
  }

  lemma {:induction false} QueueRemovalGrows(cfg: Config, st: State, user: nat, e: nat, broker: Option<Broker>,
                                             jurisdiction: string, uuid: string)
    ensures Grows(st, AfterQueueRemoval(cfg, st, user, e, broker, jurisdiction, uuid))
  {
    if AfterQueueRemoval(cfg, st, user, e, broker, jurisdiction, uuid) != st {
      WithCampaignGrows(st, e, OpenedCampaign(cfg, st, user, e, broker, jurisdiction, uuid), OpeningJobs(st, user, e, broker));
    }
  }

  lemma {:induction false} ExecLast(cfg: Config, st: State, steps: seq<Step>, step: Step)
    ensures Exec(cfg, st, steps + [step]) == Apply(cfg, Exec(cfg, st, steps), step)
  {
    assert (steps + [step])[..|steps|] == steps;
  }

  lemma {:induction false} ApplyPersist(cfg: Config, st: State, step: Step)
    requires step.Persist?
    ensures Apply(cfg, st, step) == AfterPersist(cfg, st, step.user, step.finding, step.canary)
  {
  }

  lemma {:induction false} ApplyRemoval(cfg: Config, st: State, step: Step)
    requires step.QueueRemoval?
    ensures Apply(cfg, st, step) == AfterQueueRemoval(cfg, st, step.user, step.exposure, step.broker, step.jurisdiction, step.uuid)
  {
  }

  lemma {:induction false} ApplyComplete(cfg: Config, st: State, step: Step)
    requires step.Complete?
    ensures Apply(cfg, st, step) == AfterComplete(cfg, st, step.user, step.job, step.confirmation, step.result)
  {
  }

  lemma {:induction false} PlainStepGrows(cfg: Config, st: State, step: Step)
    requires step.Advance? || step.SetAccount? || step.CreateWatchlist? || step.EditWatchlist? || step.RecordRun?
      || step.Dismiss? || step.VerifyCampaign?
    ensures Grows(st, Apply(cfg, st, step))
  {
  }

  /** No step takes time back, deletes a row or changes what identifies it. */
  lemma {:induction false} ApplyGrows(cfg: Config, st: State, step: Step)
    ensures Grows(st, Apply(cfg, st, step))
  {
    match step
    case Persist(user, f, canary) => PersistGrows(cfg, st, user, f, canary);
    case QueueRemoval(user, e, broker, jurisdiction, uuid) =>
      QueueRemovalGrows(cfg, st, user, e, broker, jurisdiction, uuid);
    case Complete(user, j, confirmation, result) => CompleteGrows(cfg, st, user, j, confirmation, result);
    case Claim(user, j) => JobStepsGrow(st, user, j);
    case Fail(user, j) => JobStepsGrow(st, user, j);
    case QueueMonitor(w) => WatchlistStepsGrow(st, w);
    case Reschedule(w) => WatchlistStepsGrow(st, w);
    case EscalateCampaign(user, c) => EscalateGrows(st, user, c);
    case _ => PlainStepGrows(cfg, st, step);
  }

  lemma {:induction false} GrowsTransitively(a: State, b: State, c: State)
    requires Grows(a, b) && Grows(b, c)
    ensures Grows(a, c)
  {
  }

  lemma {:induction false} ExecGrows(cfg: Config, st: State, steps: seq<Step>)
    ensures Grows(st, Exec(cfg, st, steps))
  {
    if steps != [] {
      var n := |steps| - 1;
      ExecGrows(cfg, st, steps[..n]);
      ApplyGrows(cfg, Exec(cfg, st, steps[..n]), steps[n]);
      GrowsTransitively(st, Exec(cfg, st, steps[..n]), Exec(cfg, st, steps));
    }
  }

  // ------------------------------------------------------------- references

  /** Every job but MONITOR belongs to a campaign of its user. */
  ghost predicate JobRefers(st: State, j: Job) {
    && (j.campaign.None? <==> j.jobType == Monitor)
    && (j.campaign.Some? ==> j.campaign.value < |st.campaigns| && st.campaigns[j.campaign.value].user == j.user)
  }

  ghost predicate CampaignRefers(st: State, c: Campaign) {
    c.exposure < |st.exposures| && st.exposures[c.exposure].user == c.user
  }

  ghost predicate References(st: State) {
    && (forall j | 0 <= j < |st.jobs| :: JobRefers(st, st.jobs[j]))
    && (forall c | 0 <= c < |st.campaigns| :: CampaignRefers(st, st.campaigns[c]))
  }

  /** References survive when rows stay and new rows refer. */
  lemma {:induction false} GrowthRefers(st: State, after: State)
    requires References(st) && Grows(st, after)
    requires forall j | |st.jobs| <= j < |after.jobs| :: JobRefers(after, after.jobs[j])
    requires forall c | |st.campaigns| <= c < |after.campaigns| :: CampaignRefers(after, after.campaigns[c])
    ensures References(after)
  {
    forall j | 0 <= j < |st.jobs| ensures JobRefers(after, after.jobs[j]) {
      assert JobRefers(st, st.jobs[j]) && SameJob(st.jobs[j], after.jobs[j]);
    }
    forall c | 0 <= c < |st.campaigns| ensures CampaignRefers(after, after.campaigns[c]) {
      assert CampaignRefers(st, st.campaigns[c]) && SameCampaign(st.campaigns[c], after.campaigns[c]);
    }
  }

  lemma {:induction false} OpeningRefers(cfg: Config, st: State, user: nat, e: nat, broker: Option<Broker>,
                                         jurisdiction: string, uuid: string)
    requires References(st)
    ensures References(AfterQueueRemoval(cfg, st, user, e, broker, jurisdiction, uuid))
  {
    var after := AfterQueueRemoval(cfg, st, user, e, broker, jurisdiction, uuid);
    if after != st {
      var c := OpenedCampaign(cfg, st, user, e, broker, jurisdiction, uuid);
      OpenedRow(cfg, st, user, e, broker, jurisdiction, uuid);
      WithCampaignGrows(st, e, c, OpeningJobs(st, user, e, broker));
      GrowthRefers(st, after);
    }
  }

  lemma {:induction false} ApplyRefers(cfg: Config, st: State, step: Step)
    requires References(st)
    ensures References(Apply(cfg, st, step))
  {
    if step.QueueRemoval? {
      OpeningRefers(cfg, st, step.user, step.exposure, step.broker, step.jurisdiction, step.uuid);
    } else {
      ApplyGrows(cfg, st, step);
      NewJobsRefer(cfg, st, step);
      GrowthRefers(st, Apply(cfg, st, step));
    }
  }

  /** A step other than `queue_removal` adds no campaign, and at most one job,
      which refers to its campaign or is a MONITOR job. */
  lemma {:induction false} NewJobsRefer(cfg: Config, st: State, step: Step)
    requires !step.QueueRemoval?
    ensures var after := Apply(cfg, st, step);
      && |after.campaigns| == |st.campaigns|
      && |after.jobs| <= |st.jobs| + 1
      && forall j | |st.jobs| <= j < |after.jobs| :: JobRefers(st, after.jobs[j])
    ensures var after := Apply(cfg, st, step);
      forall c | 0 <= c < |st.campaigns| :: after.campaigns[c].user == st.campaigns[c].user
  {
    ApplyGrows(cfg, st, step);
    var after := Apply(cfg, st, step);
    forall c | 0 <= c < |st.campaigns| ensures after.campaigns[c].user == st.campaigns[c].user {
      assert SameCampaign(st.campaigns[c], after.campaigns[c]);
    }
  }

  // ------------------------------------------------------------- statuses

  /** The statuses a campaign and its exposure have together. */
  ghost predicate Paired(c: CampaignStatus, e: ExposureStatus) {
    || (c == CampaignStatus.Queued && e == RemovalQueued)
    || (c == CampaignStatus.Submitted && e == RemovalSent)
    || (c == CampaignStatus.Escalated && e == ExposureStatus.Failed)
    || (c in {CampaignStatus.Queued, CampaignStatus.Submitted, CampaignStatus.Escalated} && e == Dismissed)
  }

  ghost predicate AtMostOneCampaign(st: State) {
    forall c, d | 0 <= c < d < |st.campaigns| :: st.campaigns[c].exposure != st.campaigns[d].exposure
  }

  ghost predicate CampaignPaired(st: State, c: Campaign) {
    c.exposure < |st.exposures| && Paired(c.status, st.exposures[c.exposure].status)
  }

  ghost predicate NoCampaign(st: State, e: nat) {
    forall c | 0 <= c < |st.campaigns| :: st.campaigns[c].exposure != e
  }

  /** An exposure has at most one campaign; with none it is new or dismissed,
      with one the two statuses are paired. */
  ghost predicate Statuses(st: State) {
    && AtMostOneCampaign(st)
    && (forall c | 0 <= c < |st.campaigns| :: CampaignPaired(st, st.campaigns[c]))
    && (forall e | 0 <= e < |st.exposures| && NoCampaign(st, e) ::
          st.exposures[e].status == New || st.exposures[e].status == Dismissed)
  }

  lemma {:induction false} ExposureStatuses(st: State, e: nat)
    requires Statuses(st) && e < |st.exposures|
    ensures st.exposures[e].status in {New, Dismissed, RemovalQueued, RemovalSent, ExposureStatus.Failed}
  {
    if !NoCampaign(st, e) {
      var c :| 0 <= c < |st.campaigns| && st.campaigns[c].exposure == e;
      assert CampaignPaired(st, st.campaigns[c]);
    }
  }

  lemma {:induction false} PersistStatuses(cfg: Config, st: State, user: nat, f: Triage.Finding, canary: bool)
    requires References(st) && Statuses(st)
    ensures Statuses(AfterPersist(cfg, st, user, f, canary))
  {
    var i := HitOf(cfg, st.exposures, user, f);
    if i < |st.exposures| {
      ExposureStatuses(st, i);
    }
    var after := AfterPersist(cfg, st, user, f, canary);
    forall e | 0 <= e < |after.exposures| && NoCampaign(after, e)
      ensures after.exposures[e].status == New || after.exposures[e].status == Dismissed
    {
      assert e < |st.exposures| ==> NoCampaign(st, e);
    }
    forall c | 0 <= c < |after.campaigns| ensures CampaignPaired(after, after.campaigns[c]) {
      assert CampaignPaired(st, st.campaigns[c]);
    }
  }

  lemma {:induction false} NoLiveMeansNone(st: State, e: nat)
    requires Statuses(st)
    ensures HasLiveCampaign(st.campaigns, e) <==> !NoCampaign(st, e)
  {
    if !NoCampaign(st, e) {
      var c :| 0 <= c < |st.campaigns| && st.campaigns[c].exposure == e;
      assert CampaignPaired(st, st.campaigns[c]);
      assert IsLive(st.campaigns[c], e);
    }
  }

  lemma {:induction false} OpeningStatuses(st: State, e: nat, c: Campaign, jobs: seq<Job>)
    requires References(st) && Statuses(st) && e < |st.exposures| && NoCampaign(st, e)
    requires c.exposure == e && c.status == CampaignStatus.Queued
    ensures Statuses(WithCampaign(st, e, c, jobs))
  {
    var after := WithCampaign(st, e, c, jobs);
    var n := |st.campaigns|;
    forall i | 0 <= i < |after.campaigns| ensures CampaignPaired(after, after.campaigns[i]) {
      if i < n {
        assert after.campaigns[i] == st.campaigns[i] && CampaignPaired(st, st.campaigns[i]);
      }
    }
    forall x | 0 <= x < |after.exposures| && NoCampaign(after, x)
      ensures after.exposures[x].status == New || after.exposures[x].status == Dismissed
    {
      assert after.campaigns[n].exposure != x;
      forall i | 0 <= i < n ensures st.campaigns[i].exposure != x {
        assert after.campaigns[i] == st.campaigns[i];
      }
      assert NoCampaign(st, x);
    }
  }

  lemma {:induction false} QueueRemovalStatuses(cfg: Config, st: State, user: nat, e: nat, broker: Option<Broker>,
                                                jurisdiction: string, uuid: string)
    requires References(st) && Statuses(st)
    ensures Statuses(AfterQueueRemoval(cfg, st, user, e, broker, jurisdiction, uuid))
  {
    NoLiveMeansNone(st, e);
    OpenedRow(cfg, st, user, e, broker, jurisdiction, uuid);
    if AfterQueueRemoval(cfg, st, user, e, broker, jurisdiction, uuid) != st {
      OpeningStatuses(st, e, OpenedCampaign(cfg, st, user, e, broker, jurisdiction, uuid), OpeningJobs(st, user, e, broker));
    }
  }

  /** Campaign c and its exposure move to a new pair of statuses; nothing else does. */
  lemma {:induction false} PairMoves(st: State, after: State, c: nat)
    requires References(st) && Statuses(st) && c < |st.campaigns|
    requires |after.campaigns| == |st.campaigns| && |after.exposures| == |st.exposures|
    requires forall d | 0 <= d < |st.campaigns| :: after.campaigns[d].exposure == st.campaigns[d].exposure
    requires forall d | 0 <= d < |st.campaigns| && d != c :: after.campaigns[d] == st.campaigns[d]
    requires forall e | 0 <= e < |st.exposures| && e != st.campaigns[c].exposure :: after.exposures[e] == st.exposures[e]
    requires CampaignPaired(after, after.campaigns[c])
    ensures Statuses(after)
  {
    forall d | 0 <= d < |after.campaigns| ensures CampaignPaired(after, after.campaigns[d]) {
      assert CampaignPaired(st, st.campaigns[d]);
      assert d != c ==> st.campaigns[d].exposure != st.campaigns[c].exposure;
    }
    forall e | 0 <= e < |after.exposures| && NoCampaign(after, e)
      ensures after.exposures[e].status == New || after.exposures[e].status == Dismissed
    {
      assert forall d | 0 <= d < |st.campaigns| :: after.campaigns[d].exposure == st.campaigns[d].exposure;
      assert NoCampaign(st, e);
      assert after.campaigns[c].exposure != e;
    }
  }

  lemma {:induction false} CompleteStatuses(cfg: Config, st: State, user: nat, j: nat, confirmation: string,
                                        result: string)
    requires References(st) && Statuses(st)
    ensures Statuses(AfterComplete(cfg, st, user, j, confirmation, result))
  {
    if OwnsJob(st, user, j) && st.jobs[j].campaign.Some? {
      var c := st.jobs[j].campaign.value;
      assert JobRefers(st, st.jobs[j]) && CampaignRefers(st, st.campaigns[c]) && CampaignPaired(st, st.campaigns[c]);
      CompletedRow(cfg, st.campaigns[c], st.now, st.jobs[j].jobType, confirmation, CompletedJob(st.jobs[j], result).result);
      PairMoves(st, AfterComplete(cfg, st, user, j, confirmation, result), c);
    }
  }

  lemma {:induction false} EscalateStatuses(st: State, user: nat, c: nat)
    requires References(st) && Statuses(st)
    ensures Statuses(AfterEscalate(st, user, c))
  {
    if EscalatesNow(st, user, c) {
      PairMoves(st, AfterEscalate(st, user, c), c);
    }
  }

  lemma {:induction false} DismissStatuses(st: State, user: nat, e: nat)
    requires References(st) && Statuses(st)
    ensures Statuses(AfterDismiss(st, user, e))
  {
    var after := AfterDismiss(st, user, e);
    forall c | 0 <= c < |after.campaigns| ensures CampaignPaired(after, after.campaigns[c]) {
      assert CampaignPaired(st, st.campaigns[c]);
    }
    forall x | 0 <= x < |after.exposures| && NoCampaign(after, x)
      ensures after.exposures[x].status == New || after.exposures[x].status == Dismissed
    {
      assert NoCampaign(st, x);
    }
  }

  /** Steps that touch neither exposures nor campaigns. */
  lemma {:induction false} SameTablesStatuses(st: State, after: State)
    requires Statuses(st) && after.exposures == st.exposures && after.campaigns == st.campaigns
    ensures Statuses(after)
  {
    forall c | 0 <= c < |after.campaigns| ensures CampaignPaired(after, after.campaigns[c]) {
      assert CampaignPaired(st, st.campaigns[c]);
    }
    forall x | 0 <= x < |after.exposures| && NoCampaign(after, x)
      ensures after.exposures[x].status == New || after.exposures[x].status == Dismissed
    {
      assert NoCampaign(st, x);
    }
  }

  lemma {:induction false} ApplyStatuses(cfg: Config, st: State, step: Step)
    requires References(st) && Statuses(st)
    ensures Statuses(Apply(cfg, st, step))
  {
    match step
    case Persist(user, f, canary) => PersistStatuses(cfg, st, user, f, canary);
    case QueueRemoval(user, e, broker, jurisdiction, uuid) =>
      QueueRemovalStatuses(cfg, st, user, e, broker, jurisdiction, uuid);
    case Dismiss(user, e) => DismissStatuses(st, user, e);
    case Complete(user, j, confirmation, result) => CompleteStatuses(cfg, st, user, j, confirmation, result);
    case EscalateCampaign(user, c) => EscalateStatuses(st, user, c);
    case _ => SameTablesStatuses(st, Apply(cfg, st, step));
  }

  /** In every run, exposure and campaign statuses stay paired. */
  lemma {:induction false} StatusesAlwaysPaired(cfg: Config, trace: seq<Step>)
    ensures References(StateAfter(cfg, trace)) && Statuses(StateAfter(cfg, trace))
  {
    StatusesKept(cfg, EMPTY, trace);
  }

  lemma {:induction false} RemovalLeavesCampaign(cfg: Config, st: State, user: nat, e: nat, broker: Option<Broker>,
                                                 jurisdiction: string, uuid: string)
    requires Statuses(st) && e < |st.exposures| && st.exposures[e].user == user
    ensures !NoCampaign(AfterQueueRemoval(cfg, st, user, e, broker, jurisdiction, uuid), e)
  {
    NoLiveMeansNone(st, e);
    OpenedRow(cfg, st, user, e, broker, jurisdiction, uuid);
    var after := AfterQueueRemoval(cfg, st, user, e, broker, jurisdiction, uuid);
    if NoCampaign(st, e) {
      assert after.campaigns[|st.campaigns|].exposure == e;
    }
  }

  lemma {:induction false} CampaignStays(st: State, later: State, e: nat)
    requires Grows(st, later) && Statuses(later) && !NoCampaign(st, e)
    ensures !NoCampaign(later, e) && HasLiveCampaign(later.campaigns, e)
    ensures NewestCampaign(later.campaigns, e) == NewestCampaign(st.campaigns, e) < |st.campaigns|
  {
    var c := NewestCampaign(st.campaigns, e);
    assert SameCampaign(st.campaigns[c], later.campaigns[c]);
    NoLiveMeansNone(later, e);
  }

  lemma {:induction false} RemovalKeepsInvariant(cfg: Config, st: State, user: nat, e: nat, broker: Option<Broker>,
                                                 jurisdiction: string, uuid: string)
    requires References(st) && Statuses(st)
    ensures var after := AfterQueueRemoval(cfg, st, user, e, broker, jurisdiction, uuid);
      References(after) && Statuses(after)
  {
    OpeningRefers(cfg, st, user, e, broker, jurisdiction, uuid);
    QueueRemovalStatuses(cfg, st, user, e, broker, jurisdiction, uuid);
  }

  lemma {:induction false} LaterRemovalIsNoop(cfg: Config, st: State, more: seq<Step>, user: nat, e: nat,
                                              broker: Option<Broker>, jurisdiction: string, uuid: string)
    requires References(st) && Statuses(st) && !NoCampaign(st, e)
    ensures var later := Exec(cfg, st, more);
      && NewestCampaign(later.campaigns, e) == NewestCampaign(st.campaigns, e) < |st.campaigns|
      && AfterQueueRemoval(cfg, later, user, e, broker, jurisdiction, uuid) == later
  {
    StatusesKept(cfg, st, more);
    ExecGrows(cfg, st, more);
    CampaignStays(st, Exec(cfg, st, more), e);
  }

  /** Whatever happens in between, asking for a removal again returns the same
      campaign and changes nothing. */
  lemma {:induction false} RepeatedRemovalChangesNothing(
      cfg: Config, trace: seq<Step>, user: nat, e: nat, broker: Option<Broker>, jurisdiction: string, uuid: string,
      more: seq<Step>, broker': Option<Broker>, jurisdiction': string, uuid': string)
    requires e < |StateAfter(cfg, trace).exposures| && StateAfter(cfg, trace).exposures[e].user == user
    ensures var first := AfterQueueRemoval(cfg, StateAfter(cfg, trace), user, e, broker, jurisdiction, uuid);
            var later := Exec(cfg, first, more);
            && NewestCampaign(first.campaigns, e) < |first.campaigns|
            && NewestCampaign(later.campaigns, e) == NewestCampaign(first.campaigns, e)
            && AfterQueueRemoval(cfg, later, user, e, broker', jurisdiction', uuid') == later
  {
    var st := StateAfter(cfg, trace);
    StatusesAlwaysPaired(cfg, trace);
    RemovalLeavesCampaign(cfg, st, user, e, broker, jurisdiction, uuid);
    RemovalKeepsInvariant(cfg, st, user, e, broker, jurisdiction, uuid);
    LaterRemovalIsNoop(cfg, AfterQueueRemoval(cfg, st, user, e, broker, jurisdiction, uuid), more, user, e, broker', jurisdiction', uuid');
  }

  lemma {:induction false} StatusesKept(cfg: Config, st: State, steps: seq<Step>)
    requires References(st) && Statuses(st)
    ensures References(Exec(cfg, st, steps)) && Statuses(Exec(cfg, st, steps))
  {
    if steps != [] {
      var n := |steps| - 1;
      StatusesKept(cfg, st, steps[..n]);
      ApplyRefers(cfg, Exec(cfg, st, steps[..n]), steps[n]);
      ApplyStatuses(cfg, Exec(cfg, st, steps[..n]), steps[n]);
    }
  }
}
