/** The removal state machine: what each step of the monitoring agent, of the
    job endpoints and of the periodic pass does to the tables
    (core/agent/orchestrator.py, core/api.py, core/tasks.py). */
module Sentinel {
  import opened Prelude
  import opened Records
  import opened Entitlements
  import opened Planner
  import opened Verifier
  import opened Deindexing
  import Json
  import Ledger
  import Triage
  import Identifiers

  /** Deployment settings and the two keyed or plain digests. */
  datatype Config = Config(sha: Digest, mac: Digest, deadlineDays: int, verifyDays: int)

  datatype State = State(
    now: int,
    accounts: map<nat, Account>,
    exposures: seq<Exposure>,
    campaigns: seq<Campaign>,
    jobs: seq<Job>,
    watchlists: seq<Watchlist>,
    runs: seq<MonitorRun>)

  const EMPTY := State(0, map[], [], [], [], [], [])

  /** One indivisible step. A request handler is a sequence of steps; any
      interleaving of handlers at this grain is also a sequence of steps. */
  datatype Step =
    | Advance(seconds: nat)
    | SetAccount(user: nat, account: Account)
    | CreateWatchlist(user: nat, name: string, active: bool, cadenceHours: int)
    | EditWatchlist(user: nat, watchlist: nat, name: string, active: bool, cadenceHours: int)
    | Persist(user: nat, finding: Triage.Finding, canary: bool)
    | RecordRun(watchlist: nat, findingsCount: nat)
    | Reschedule(watchlist: nat)
    | QueueRemoval(user: nat, exposure: nat, broker: Option<Broker>, jurisdiction: string, uuid: string)
    | Dismiss(user: nat, exposure: nat)
    | Claim(user: nat, job: nat)
    | Complete(user: nat, job: nat, confirmation: string, result: string)
    | Fail(user: nat, job: nat)
    | QueueMonitor(watchlist: nat)
    | VerifyCampaign(user: nat, campaign: nat)
    | EscalateCampaign(user: nat, campaign: nat)

  // ------------------------------------------------------------- findings

  function BlindOf(mac: Digest, f: Triage.Finding): string {
    if f.matchedValue == "" then ""
    else Identifiers.BlindIndex(mac, if f.matchedKind == "" then "other" else f.matchedKind, f.matchedValue)
  }

  function FingerprintOf(cfg: Config, f: Triage.Finding): string {
    Triage.Fingerprint(cfg.sha, f, BlindOf(cfg.mac, f))
  }

  /** The exposure of a user with a fingerprint, or the end of the table. */
  function FindExposure(exposures: seq<Exposure>, user: nat, fingerprint: string): (i: nat)
    ensures i <= |exposures|
    ensures i < |exposures| ==> exposures[i].user == user && exposures[i].fingerprint == fingerprint
    ensures forall j | 0 <= j < i :: exposures[j].user != user || exposures[j].fingerprint != fingerprint
  {
    if exposures == [] || (exposures[0].user == user && exposures[0].fingerprint == fingerprint) then 0
    else 1 + FindExposure(exposures[1..], user, fingerprint)
  }

  function HitOf(cfg: Config, exposures: seq<Exposure>, user: nat, f: Triage.Finding): (i: nat)
    ensures i <= |exposures|
  {
    FindExposure(exposures, user, FingerprintOf(cfg, f))
  }

  function NewExposure(cfg: Config, now: int, user: nat, f: Triage.Finding, canary: bool): Exposure {
    Exposure(user, if canary then "canary" else f.kind, if canary then "critical" else f.severity, New,
             Truncate(f.title, 300), f.source, Truncate(f.url, 500), BlindOf(cfg.mac, f), f.confidence,
             FingerprintOf(cfg, f), now)
  }

  function SeenAgain(e: Exposure, now: int, confidence: real): Exposure {
    e.(lastSeen := now,
       confidence := if confidence > e.confidence then confidence else e.confidence,
       status := if e.status == ExposureStatus.Removed then Reappeared else e.status)
  }

  /** `_persist_finding` */
  function AfterPersist(cfg: Config, st: State, user: nat, f: Triage.Finding, canary: bool): State {
    var i := HitOf(cfg, st.exposures, user, f);
    if i < |st.exposures|
    then st.(exposures := st.exposures[i := SeenAgain(st.exposures[i], st.now, f.confidence)])
    else st.(exposures := st.exposures + [NewExposure(cfg, st.now, user, f, canary)])
  }

  // ------------------------------------------------------------- removal

  function AppendEvidence(cfg: Config, c: Campaign, kind: string, payload: Json.Value, ciphertext: string): Campaign {
    c.(evidence := Ledger.Appended(cfg.sha, c.uuid, c.evidence, kind, payload, ciphertext))
  }

  /** An object with one more member in front. */
  function WithMember(key: string, value: Json.Value, fields: Json.Fields): (v: Json.Value)
    requires !Json.HasKey(fields, key) && Json.DistinctKeysFields(fields)
    ensures v == Json.Obj(Json.Field(key, value, fields))
  {
    assert Json.DistinctKeysFields(Json.Field(key, value, fields));
    Json.Obj(Json.Field(key, value, fields))
  }

  function Object2(k1: string, v1: Json.Value, k2: string, v2: Json.Value): Json.Value
    requires k1 != k2
  {
    var last := Json.Field(k2, v2, Json.End);
    assert !Json.HasKey(Json.End, k1) && !Json.HasKey(Json.End, k2);
    assert !Json.HasKey(last, k1);
    WithMember(k1, v1, last)
  }

  function QueuedPayload(channel: Channel, jurisdiction: string, broker: string): Json.Value {
    var c, j, b := "channel", "jurisdiction", "broker";
    assert c[0] == 'c' && j[0] == 'j' && b[0] == 'b';
    var tail := Object2(j, Json.Str(jurisdiction), b, Json.Str(broker));
    assert !Json.HasKey(tail.fields.rest, c) && !Json.HasKey(tail.fields, c);
    WithMember(c, Json.Str(ChannelText(channel)), tail.fields)
  }

  function CapPayload(e: Entitlement): Json.Value {
    var c, p := "cap", "plan";
    assert c[0] == 'c' && p[0] == 'p';
    Object2(c, Json.Int(e.maxSendsPerDay), p, Json.Str(e.plan))
  }

  function CompletedPayload(t: JobType, confirmation: string): Json.Value {
    var j, c := "job_type", "confirmation";
    assert j[0] == 'j' && c[0] == 'c';
    Object2(j, Json.Str(JobTypeText(t)), c, Json.Str(Truncate(confirmation, 200)))
  }

  predicate IsLive(c: Campaign, exposure: nat) {
    c.exposure == exposure && c.status != CampaignStatus.Failed && c.status != CampaignStatus.Cancelled
  }

  predicate HasLiveCampaign(campaigns: seq<Campaign>, exposure: nat) {
    exists c | 0 <= c < |campaigns| :: IsLive(campaigns[c], exposure)
  }

  /** The newest campaign of an exposure: `exposure.campaigns.first()`. */
  function NewestCampaign(campaigns: seq<Campaign>, exposure: nat): (c: nat)
    ensures c <= |campaigns|
    ensures c < |campaigns| ==> campaigns[c].exposure == exposure
    ensures c == |campaigns| ==> forall i | 0 <= i < |campaigns| :: campaigns[i].exposure != exposure
    ensures forall i | c < i < |campaigns| :: campaigns[i].exposure != exposure
  {
    if campaigns == [] then 0
    else if campaigns[|campaigns| - 1].exposure == exposure then |campaigns| - 1
    else
      var c := NewestCampaign(campaigns[..|campaigns| - 1], exposure);
      if c == |campaigns| - 1 then |campaigns| else c
  }

  /** SEND_EMAIL jobs of a user created at or after a time. */
  function SendsSince(user: nat, since: int): Job -> bool {
    (j: Job) => j.user == user && j.jobType == SendEmail && j.createdAt >= since
  }

  predicate WithinSendQuota(st: State, user: nat, cap: int) {
    cap == UNLIMITED || CountIf(st.jobs, SendsSince(user, st.now - DAY)) < cap
  }

  function NewJob(now: int, user: nat, t: JobType, campaign: Option<nat>, watchlist: Option<nat>): Job {
    Job(user, t, campaign, watchlist, JobStatus.Queued, 0, now, "")
  }

  function NewCampaign(cfg: Config, now: int, user: nat, exposure: nat, broker: Option<Broker>,
                       jurisdiction: string, uuid: string): Campaign {
    Campaign(user, exposure, uuid, if broker.Some? then broker.value.id else "", ChooseChannel(broker),
             CampaignStatus.Queued, jurisdiction, "", now, now + cfg.deadlineDays * DAY, None, None, [])
  }

  function RemovalJobs(now: int, user: nat, campaign: nat, channel: Channel, deindex: bool): seq<Job> {
    [NewJob(now, user, if channel == WebForm then FillWebForm else SendEmail, Some(campaign), None)]
    + if deindex then [NewJob(now, user, Deindex, Some(campaign), None)] else []
  }

  predicate MaySend(st: State, user: nat) {
    WithinSendQuota(st, user, EntitlementsOf(st.accounts, user).maxSendsPerDay)
  }

  /** A campaign after its opening receipt, or after the cap was reached. */
  function WithOpening(cfg: Config, st: State, user: nat, c: Campaign, jurisdiction: string): Campaign {
    if MaySend(st, user)
    then AppendEvidence(cfg, c, "request_queued", QueuedPayload(c.channel, jurisdiction, c.brokerId), "")
    else AppendEvidence(cfg, c.(channel := Manual), "send_cap_reached", CapPayload(EntitlementsOf(st.accounts, user)), "")
  }

  /** The campaign row that `queue_removal` leaves, with its first receipt. */
  function OpenedCampaign(cfg: Config, st: State, user: nat, e: nat, broker: Option<Broker>,
                          jurisdiction: string, uuid: string): Campaign {
    WithOpening(cfg, st, user, NewCampaign(cfg, st.now, user, e, broker, jurisdiction, uuid), jurisdiction)
  }

  function OpeningJobs(st: State, user: nat, e: nat, broker: Option<Broker>): seq<Job>
    requires e < |st.exposures|
  {
    if MaySend(st, user)
    then RemovalJobs(st.now, user, |st.campaigns|, ChooseChannel(broker), ShouldDeindex(st.exposures[e]))
    else []
  }

  /** A campaign for exposure e, with its jobs, is added to the tables. */
  function WithCampaign(st: State, e: nat, c: Campaign, jobs: seq<Job>): State
    requires e < |st.exposures|
  {
    st.(exposures := st.exposures[e := st.exposures[e].(status := RemovalQueued)],
        campaigns := st.campaigns + [c],
        jobs := st.jobs + jobs)
  }

  /** `queue_removal` for one of the user's own exposures. */
  function AfterQueueRemoval(cfg: Config, st: State, user: nat, e: nat, broker: Option<Broker>,
                             jurisdiction: string, uuid: string): State {
    if e >= |st.exposures| || st.exposures[e].user != user || HasLiveCampaign(st.campaigns, e) then st
    else WithCampaign(st, e, OpenedCampaign(cfg, st, user, e, broker, jurisdiction, uuid), OpeningJobs(st, user, e, broker))
  }

  // ------------------------------------------------------------- endpoints

  function AfterDismiss(st: State, user: nat, e: nat): State {
    if e >= |st.exposures| || st.exposures[e].user != user then st
    else st.(exposures := st.exposures[e := st.exposures[e].(status := Dismissed)])
  }

  predicate OwnsJob(st: State, user: nat, j: nat) {
    j < |st.jobs| && st.jobs[j].user == user
  }

  predicate Claimable(j: Job) {
    j.status == JobStatus.Queued || j.status == JobStatus.Failed
  }

  function AfterClaim(st: State, user: nat, j: nat): State {
    if !OwnsJob(st, user, j) || !Claimable(st.jobs[j]) then st
    else st.(jobs := st.jobs[j := st.jobs[j].(status := JobStatus.Claimed, attempts := st.jobs[j].attempts + 1)])
  }

  function AfterFail(st: State, user: nat, j: nat): State {
    if !OwnsJob(st, user, j) then st
    else st.(jobs := st.jobs[j := st.jobs[j].(status := JobStatus.Failed)])
  }

  function CompletedJob(j: Job, result: string): Job {
    j.(status := JobStatus.Completed, result := if result != "" then result else j.result)
  }

  function CompletedCampaign(cfg: Config, c: Campaign, now: int, t: JobType, confirmation: string,
                             result: string): Campaign {
    var r := AppendEvidence(cfg, c, "job_completed", CompletedPayload(t, confirmation), result);
    if t == Deindex then r
    else r.(status := CampaignStatus.Submitted, submittedAt := Some(now),
            confirmationCode := if confirmation != "" then Truncate(confirmation, 200) else r.confirmationCode)
  }

  /** Job j and campaign c are updated by a completion. */
  function WithCompletion(st: State, j: nat, job: Job, c: nat, campaign: Campaign): State
    requires j < |st.jobs| && c < |st.campaigns|
  {
    var e := campaign.exposure;
    st.(jobs := st.jobs[j := job],
        campaigns := st.campaigns[c := campaign],
        exposures := if job.jobType == Deindex || e >= |st.exposures| then st.exposures
                     else st.exposures[e := st.exposures[e].(status := RemovalSent)])
  }

  function AfterComplete(cfg: Config, st: State, user: nat, j: nat, confirmation: string, result: string): State {
    if !OwnsJob(st, user, j) then st
    else
      var job := CompletedJob(st.jobs[j], result);
      if job.campaign.None? || job.campaign.value >= |st.campaigns| then st.(jobs := st.jobs[j := job])
      else
        var c := job.campaign.value;
        WithCompletion(st, j, job, c,
          CompletedCampaign(cfg, st.campaigns[c], st.now, job.jobType, confirmation, job.result))
  }

  // ------------------------------------------------------------- periodic passes

  function NextRun(w: Watchlist, now: int): Option<int> {
    Some(now + Max(w.cadenceHours, 1) * HOUR)
  }

  function AfterReschedule(st: State, w: nat): State {
    if w >= |st.watchlists| then st
    else st.(watchlists := st.watchlists[w :=
      st.watchlists[w].(lastRunAt := Some(st.now), nextRunAt := NextRun(st.watchlists[w], st.now))])
  }

  predicate IsDue(w: Watchlist, now: int) {
    w.active && w.nextRunAt.Some? && w.nextRunAt.value <= now
  }

  function LiveMonitor(w: nat): Job -> bool {
    (j: Job) => j.jobType == Monitor && j.watchlist == Some(w)
      && (j.status == JobStatus.Queued || j.status == JobStatus.Claimed || j.status == JobStatus.Running)
  }

  /** One watchlist's turn in `queue_due_watchlist_jobs`. */
  function AfterQueueMonitor(st: State, w: nat): State {
    if w >= |st.watchlists| || !IsDue(st.watchlists[w], st.now) then st
    else
      var watchlist := st.watchlists[w];
      st.(watchlists := st.watchlists[w := watchlist.(nextRunAt := NextRun(watchlist, st.now))],
          jobs := if CountIf(st.jobs, LiveMonitor(w)) > 0 then st.jobs
                  else st.jobs + [NewJob(st.now, watchlist.user, Monitor, None, Some(w))])
  }

  /** One campaign's turn in `verify_due_campaigns`. */
  function AfterVerify(cfg: Config, st: State, user: nat, c: nat): State {
    if c < |st.campaigns| && st.campaigns[c].user == user && NeedsVerification(st.campaigns[c], cfg.verifyDays, st.now)
    then st.(jobs := st.jobs + [NewJob(st.now, user, VerifyRemoval, Some(c), None)])
    else st
  }

  predicate EscalatesNow(st: State, user: nat, c: nat) {
    c < |st.campaigns| && st.campaigns[c].user == user && IsOverdue(st.campaigns[c], st.now)
    && st.campaigns[c].exposure < |st.exposures|
  }

  /** One campaign's turn in `escalate_overdue_campaigns`. */
  function AfterEscalate(st: State, user: nat, c: nat): State {
    if !EscalatesNow(st, user, c) then st
    else
      var e := st.campaigns[c].exposure;
      st.(campaigns := st.campaigns[c := st.campaigns[c].(status := CampaignStatus.Escalated)],
          exposures := st.exposures[e := st.exposures[e].(status := ExposureStatus.Failed)],
          jobs := st.jobs + [NewJob(st.now, user, Escalate, Some(c), None)])
  }

  // ------------------------------------------------------------- runs

  function Apply(cfg: Config, st: State, step: Step): State {
    match step
    case Advance(seconds) => st.(now := st.now + seconds)
    case SetAccount(user, account) => st.(accounts := st.accounts[user := account])
    case CreateWatchlist(user, name, active, cadence) =>
      st.(watchlists := st.watchlists + [Watchlist(user, name, active, cadence, None, None)])
    case EditWatchlist(user, w, name, active, cadence) =>
      if w >= |st.watchlists| || st.watchlists[w].user != user then st
      else st.(watchlists := st.watchlists[w := st.watchlists[w].(name := name, active := active, cadenceHours := cadence)])
    case Persist(user, f, canary) => AfterPersist(cfg, st, user, f, canary)
    case RecordRun(w, n) => st.(runs := st.runs + [MonitorRun(w, n)])
    case Reschedule(w) => AfterReschedule(st, w)
    case QueueRemoval(user, e, broker, jurisdiction, uuid) => AfterQueueRemoval(cfg, st, user, e, broker, jurisdiction, uuid)
    case Dismiss(user, e) => AfterDismiss(st, user, e)
    case Claim(user, j) => AfterClaim(st, user, j)
    case Complete(user, j, confirmation, result) => AfterComplete(cfg, st, user, j, confirmation, result)
    case Fail(user, j) => AfterFail(st, user, j)
    case QueueMonitor(w) => AfterQueueMonitor(st, w)
    case VerifyCampaign(user, c) => AfterVerify(cfg, st, user, c)
    case EscalateCampaign(user, c) => AfterEscalate(st, user, c)
  }

  function Exec(cfg: Config, st: State, steps: seq<Step>): State {
    if steps == [] then st else Apply(cfg, Exec(cfg, st, steps[..|steps| - 1]), steps[|steps| - 1])
  }

  /** The tables after a whole run of the system. */
  function StateAfter(cfg: Config, trace: seq<Step>): State {
    Exec(cfg, EMPTY, trace)
  }

  // ------------------------------------------------------------- counting steps

  /** How many steps of a run satisfy p in the state they start from. */
  ghost function CountSteps(cfg: Config, trace: seq<Step>, p: (State, Step) -> bool): nat {
    if trace == [] then 0
    else
      var n := |trace| - 1;
      CountSteps(cfg, trace[..n], p) + if p(StateAfter(cfg, trace[..n]), trace[n]) then 1 else 0
  }

  /** A completion of one of campaign c's jobs. */
  predicate CompletesJobOf(st: State, step: Step, c: nat) {
    step.Complete? && OwnsJob(st, step.user, step.job) && st.jobs[step.job].campaign == Some(c)
  }

  function CompletionsOf(c: nat): (State, Step) -> bool {
    (st: State, step: Step) => CompletesJobOf(st, step, c)
  }
}
