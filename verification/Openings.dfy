/** What a removal request leaves in the tables, in every run, told from the
    rows before it alone. */
module Openings {
  import opened Prelude
  import opened Records
  import opened Sentinel
  import opened StatusInvariant
  import Entitlements
  import Planner
  import Deindexing
  import Json
  import ReceiptInvariant
  import SendCap

  // ------------------------------------------------------------- time

  /** Nothing is dated in the future. */
  ghost predicate Past(st: State) {
    && (forall j | 0 <= j < |st.jobs| :: st.jobs[j].createdAt <= st.now)
    && (forall c | 0 <= c < |st.campaigns| :: st.campaigns[c].createdAt <= st.now)
  }

  lemma {:induction false} OpeningJobsAreNow(st: State, user: nat, e: nat, broker: Option<Broker>)
    requires e < |st.exposures|
    ensures forall i | 0 <= i < |OpeningJobs(st, user, e, broker)| :: OpeningJobs(st, user, e, broker)[i].createdAt == st.now
  {
  }

  lemma {:induction false} NewJobsAreNow(cfg: Config, st: State, step: Step)
    ensures var after := Apply(cfg, st, step).jobs;
      forall j | |st.jobs| <= j < |after| :: after[j].createdAt == st.now
  {
    if step.QueueRemoval? && step.exposure < |st.exposures| {
      OpeningJobsAreNow(st, step.user, step.exposure, step.broker);
    }
  }

  lemma {:induction false} OpenedDate(cfg: Config, st: State, user: nat, e: nat, broker: Option<Broker>,
                                      jurisdiction: string, uuid: string)
    ensures var c := OpenedCampaign(cfg, st, user, e, broker, jurisdiction, uuid);
      c.createdAt == st.now && c.deadlineAt == st.now + cfg.deadlineDays * 86_400
  {
  }

  /** A step keeps the dates of the campaigns there are, and a removal dates the
      one it opens. */
  lemma {:induction false} StepDates(cfg: Config, st: State, step: Step)
    ensures var after := Apply(cfg, st, step).campaigns;
      && |st.campaigns| <= |after|
      && (forall c | 0 <= c < |st.campaigns| ::
            after[c].createdAt == st.campaigns[c].createdAt && after[c].deadlineAt == st.campaigns[c].deadlineAt)
      && (|after| > |st.campaigns| ==>
            && step.QueueRemoval? && |after| == |st.campaigns| + 1
            && after[|st.campaigns|].exposure == step.exposure && after[|st.campaigns|].createdAt == st.now
            && after[|st.campaigns|].deadlineAt == st.now + cfg.deadlineDays * 86_400)
  {
    match step
    case QueueRemoval(user, e, broker, jurisdiction, uuid) =>
      OpenedDate(cfg, st, user, e, broker, jurisdiction, uuid);
      OpenedRow(cfg, st, user, e, broker, jurisdiction, uuid);
      RemovalDates(cfg, st, step);
    case Complete(user, j, confirmation, result) => CompletionDates(cfg, st, step);
    case _ => ReceiptInvariant.OtherStepKeepsRows(cfg, st, step);
  }

  lemma {:induction false} RemovalDates(cfg: Config, st: State, step: Step)
    requires step.QueueRemoval?
    ensures var after := Apply(cfg, st, step).campaigns;
      after == st.campaigns
      || after == st.campaigns + [OpenedCampaign(cfg, st, step.user, step.exposure, step.broker, step.jurisdiction, step.uuid)]
  {
  }

  lemma {:induction false} CompletionDates(cfg: Config, st: State, step: Step)
    requires step.Complete?
    ensures var after := Apply(cfg, st, step).campaigns;
      && |after| == |st.campaigns|
      && forall c | 0 <= c < |st.campaigns| ::
           after[c].createdAt == st.campaigns[c].createdAt && after[c].deadlineAt == st.campaigns[c].deadlineAt
  {
    if OwnsJob(st, step.user, step.job) {
      var job := CompletedJob(st.jobs[step.job], step.result);
      if job.campaign.Some? && job.campaign.value < |st.campaigns| {
        CompletedRow(cfg, st.campaigns[job.campaign.value], st.now, job.jobType, step.confirmation, job.result);
      }
    }
  }

  lemma {:induction false} NothingIsAhead(cfg: Config, trace: seq<Step>)
    ensures Past(StateAfter(cfg, trace))
  {
    if trace != [] {
      var n := |trace| - 1;
      NothingIsAhead(cfg, trace[..n]);
      StepStaysPast(cfg, StateAfter(cfg, trace[..n]), trace[n]);
    }
  }

  lemma {:induction false} StepStaysPast(cfg: Config, st: State, step: Step)
    requires Past(st)
    ensures Past(Apply(cfg, st, step))
  {
    var after := Apply(cfg, st, step);
    ApplyGrows(cfg, st, step);
    NewJobsAreNow(cfg, st, step);
    StepDates(cfg, st, step);
    forall j | 0 <= j < |after.jobs| ensures after.jobs[j].createdAt <= after.now {
      assert j < |st.jobs| ==> SameJob(st.jobs[j], after.jobs[j]);
    }
  }

  // ------------------------------------------------------------- the cap

  /** Sends a day: 1000 on the plan "pro", 3000 on "family", 20 on any other
      plan and for a user who is not known. */
  function SendsADay(accounts: map<nat, Account>, user: nat): nat {
    var plan := if user in accounts then accounts[user].plan else "free";
    if plan == "pro" then 1000 else if plan == "family" then 3000 else 20
  }

  /** Staff always have room, others while the last day holds fewer sends. */
  predicate HasRoom(st: State, user: nat) {
    || (user in st.accounts && st.accounts[user].isStaff)
    || CountIf(st.jobs, SendCap.SendsWithin(user, st.now - 86_400, st.now)) < SendsADay(st.accounts, user)
  }

  lemma {:induction false} RoomIsQuota(st: State, user: nat)
    requires Past(st)
    ensures MaySend(st, user) <==> HasRoom(st, user)
  {
    CountSame(st.jobs, st.jobs, SendsSince(user, st.now - 86_400), SendCap.SendsWithin(user, st.now - 86_400, st.now));
  }

  // ------------------------------------------------------------- the opening

  /** E-mail needs an opt-out address, a web form its configuration, and e-mail
      goes first. */
  ghost predicate Reaches(broker: Option<Broker>, channel: Channel) {
    var email := broker.Some? && broker.value.removalMethod in {"email", "both"} && broker.value.optOutEmail != "";
    var form := broker.Some? && broker.value.removalMethod in {"web_form", "both"} && broker.value.hasFormConfig;
    && (channel == Email <==> email)
    && (channel == WebForm <==> form && !email)
  }

  /** The page is one that search engines index. */
  predicate Indexed(e: Exposure) {
    e.url != "" && e.kind in {"search_result", "people_search", "public_record"}
  }

  /** The new campaign, its receipt aside. */
  ghost predicate OpenedFor(cfg: Config, st: State, step: Step, c: Campaign)
    requires step.QueueRemoval?
  {
    && c.user == step.user && c.exposure == step.exposure && c.uuid == step.uuid && c.status == CampaignStatus.Queued
    && c.brokerId == (if step.broker.Some? then step.broker.value.id else "")
    && c.jurisdiction == step.jurisdiction && c.confirmationCode == ""
    && c.createdAt == st.now && c.deadlineAt == st.now + cfg.deadlineDays * 86_400
    && c.submittedAt == None && c.completedAt == None
    && (if HasRoom(st, step.user) then Reaches(step.broker, c.channel) else c.channel == Manual)
  }

  lemma {:induction false} OpenedFields(cfg: Config, st: State, step: Step)
    requires step.QueueRemoval? && (MaySend(st, step.user) <==> HasRoom(st, step.user))
    ensures OpenedFor(cfg, st, step, OpenedCampaign(cfg, st, step.user, step.exposure, step.broker, step.jurisdiction, step.uuid))
  {
  }

  /** Its jobs: a form or a send on the channel, and a de-index job for an
      indexed page; none when the cap is reached. */
  ghost predicate JobsFor(st: State, step: Step, channel: Channel, jobs: seq<Job>)
    requires step.QueueRemoval? && step.exposure < |st.exposures|
  {
    var c := Some(|st.campaigns|);
    var send := Job(step.user, if channel == WebForm then FillWebForm else SendEmail, c, None, JobStatus.Queued, 0, st.now, "");
    var deindex := Job(step.user, Deindex, c, None, JobStatus.Queued, 0, st.now, "");
    jobs == if !HasRoom(st, step.user) then []
            else if Indexed(st.exposures[step.exposure]) then [send, deindex]
            else [send]
  }

  lemma {:induction false} OpenedJobs(cfg: Config, st: State, step: Step)
    requires step.QueueRemoval? && step.exposure < |st.exposures| && (MaySend(st, step.user) <==> HasRoom(st, step.user))
    ensures var c := OpenedCampaign(cfg, st, step.user, step.exposure, step.broker, step.jurisdiction, step.uuid);
      JobsFor(st, step, c.channel, OpeningJobs(st, step.user, step.exposure, step.broker))
  {
  }

  function ChannelName(c: Channel): string {
    if c == Email then "email" else if c == WebForm then "web_form" else "manual"
  }

  /** The first receipt: the queued request, or the reached cap. */
  ghost predicate ReceiptFor(cfg: Config, st: State, step: Step, c: Campaign)
    requires step.QueueRemoval?
  {
    && |c.evidence| == 1 && c.evidence[0].sequence == 0 && c.evidence[0].ciphertext == ""
    && c.evidence[0].kind == (if HasRoom(st, step.user) then "request_queued" else "send_cap_reached")
    && Json.MeaningOf(c.evidence[0].metadata) == Json.MObj(
         if HasRoom(st, step.user)
         then map["channel" := Json.MStr(ChannelName(c.channel)), "jurisdiction" := Json.MStr(c.jurisdiction),
                  "broker" := Json.MStr(c.brokerId)]
         else map["cap" := Json.MInt(SendsADay(st.accounts, step.user)), "plan" := Json.MStr(PlanName(st.accounts, step.user))])
  }

  function PlanName(accounts: map<nat, Account>, user: nat): string {
    if user in accounts && accounts[user].plan in {"pro", "family"} then accounts[user].plan else "free"
  }

  lemma {:induction false} TwoMembers(a: string, b: string, v: Json.Raw, w: Json.Raw)
    requires a != b
    ensures Json.FieldMeanings(Json.Field(a, v, Json.Field(b, w, Json.End))) == map[a := Json.MeaningOf(v), b := Json.MeaningOf(w)]
  {
    assert Json.FieldMeanings(Json.Field(b, w, Json.End)) == map[b := Json.MeaningOf(w)];
  }

  lemma {:induction false} ThreeMembers(a: string, b: string, c: string, v: Json.Raw, w: Json.Raw, x: Json.Raw)
    requires a != b && a != c && b != c
    ensures Json.FieldMeanings(Json.Field(a, v, Json.Field(b, w, Json.Field(c, x, Json.End))))
      == map[a := Json.MeaningOf(v), b := Json.MeaningOf(w), c := Json.MeaningOf(x)]
  {
    TwoMembers(b, c, w, x);
  }

  lemma {:induction false} KeysDiffer()
    ensures "channel"[0] == 'c' && "jurisdiction"[0] == 'j' && "broker"[0] == 'b'
    ensures "cap"[0] == 'c' && "plan"[0] == 'p' && "job_type"[0] == 'j' && "confirmation"[0] == 'c'
  {
  }

  lemma {:induction false} PayloadMeanings(channel: Channel, jurisdiction: string, broker: string, e: Entitlements.Entitlement)
    ensures Json.MeaningOf(QueuedPayload(channel, jurisdiction, broker)) == Json.MObj(
      map["channel" := Json.MStr(ChannelName(channel)), "jurisdiction" := Json.MStr(jurisdiction), "broker" := Json.MStr(broker)])
    ensures Json.MeaningOf(CapPayload(e)) == Json.MObj(map["cap" := Json.MInt(e.maxSendsPerDay), "plan" := Json.MStr(e.plan)])
  {
    KeysDiffer();
    ThreeMembers("channel", "jurisdiction", "broker", Json.Str(ChannelName(channel)), Json.Str(jurisdiction), Json.Str(broker));
    TwoMembers("cap", "plan", Json.Int(e.maxSendsPerDay), Json.Str(e.plan));
  }

  lemma {:induction false} AppendedRow(cfg: Config, c: Campaign, kind: string, payload: Json.Value, ciphertext: string)
    ensures var r := AppendEvidence(cfg, c, kind, payload, ciphertext);
      && |r.evidence| == |c.evidence| + 1 && r.evidence[..|c.evidence|] == c.evidence
      && r.evidence[|c.evidence|].kind == kind && r.evidence[|c.evidence|].metadata == payload
      && r.evidence[|c.evidence|].ciphertext == ciphertext
      && r.evidence[|c.evidence|].contentHash == cfg.sha(Json.Canonical(payload))
  {
  }

  lemma {:induction false} FirstCiphertext(cfg: Config, st: State, user: nat, c: Campaign, jurisdiction: string)
    requires c.evidence == []
    ensures var r := WithOpening(cfg, st, user, c, jurisdiction);
      |r.evidence| == 1 && r.evidence[0].ciphertext == ""
  {
    AppendedRow(cfg, c, "request_queued", QueuedPayload(c.channel, jurisdiction, c.brokerId), "");
    AppendedRow(cfg, c.(channel := Manual), "send_cap_reached", CapPayload(Entitlements.EntitlementsOf(st.accounts, user)), "");
  }

  lemma {:induction false} OpenedReceipt(cfg: Config, st: State, step: Step)
    requires step.QueueRemoval? && (MaySend(st, step.user) <==> HasRoom(st, step.user))
    ensures ReceiptFor(cfg, st, step, OpenedCampaign(cfg, st, step.user, step.exposure, step.broker, step.jurisdiction, step.uuid))
  {
    var c := OpenedCampaign(cfg, st, step.user, step.exposure, step.broker, step.jurisdiction, step.uuid);
    ReceiptInvariant.OpenedEntry(cfg, st, step.user, step.exposure, step.broker, step.jurisdiction, step.uuid);
    FirstCiphertext(cfg, st, step.user, NewCampaign(cfg, st.now, step.user, step.exposure, step.broker, step.jurisdiction, step.uuid), step.jurisdiction);
    PayloadMeanings(c.channel, step.jurisdiction, c.brokerId, Entitlements.EntitlementsOf(st.accounts, step.user));
    if !HasRoom(st, step.user) {
      PlanOfCap(st, step.user);
    }
  }

  lemma {:induction false} PlanOfCap(st: State, user: nat)
    requires !(user in st.accounts && st.accounts[user].isStaff)
    ensures Entitlements.EntitlementsOf(st.accounts, user)
      == Entitlements.Entitlement(PlanName(st.accounts, user), SendsADay(st.accounts, user))
  {
  }

  // ------------------------------------------------------------- every removal

  /** One campaign, its jobs and its receipt are added; the exposure is queued
      for removal; nothing else changes. */
  ghost predicate Opens(cfg: Config, st: State, after: State, step: Step)
    requires step.QueueRemoval? && step.exposure < |st.exposures|
  {
    var e, n := step.exposure, |st.campaigns|;
    && |after.campaigns| == n + 1
    && OpenedFor(cfg, st, step, after.campaigns[n])
    && ReceiptFor(cfg, st, step, after.campaigns[n])
    && |st.jobs| <= |after.jobs| && JobsFor(st, step, after.campaigns[n].channel, after.jobs[|st.jobs|..])
    && after == st.(exposures := st.exposures[e := st.exposures[e].(status := RemovalQueued)],
                    campaigns := st.campaigns + [after.campaigns[n]],
                    jobs := st.jobs + after.jobs[|st.jobs|..])
  }

  /** In every run a removal request opens a campaign exactly when the exposure
      is the user's own and has none yet; otherwise it changes nothing. The
      campaign starts with the queued request exactly when the user is staff or
      the last day holds fewer sends than the plan allows. */
  lemma {:induction false} RemovalOpensExactly(cfg: Config, trace: seq<Step>, step: Step)
    requires step.QueueRemoval?
    ensures var st, after := StateAfter(cfg, trace), StateAfter(cfg, trace + [step]);
      if step.exposure < |st.exposures| && st.exposures[step.exposure].user == step.user && NoCampaign(st, step.exposure)
      then Opens(cfg, st, after, step)
      else after == st
  {
    var st := StateAfter(cfg, trace);
    StatusesAlwaysPaired(cfg, trace);
    NothingIsAhead(cfg, trace);
    ExecLast(cfg, EMPTY, trace, step);
    ApplyRemoval(cfg, st, step);
    NoLiveMeansNone(st, step.exposure);
    RoomIsQuota(st, step.user);
    if step.exposure < |st.exposures| && st.exposures[step.exposure].user == step.user && NoCampaign(st, step.exposure) {
      OpenedFields(cfg, st, step);
      OpenedJobs(cfg, st, step);
      OpenedReceipt(cfg, st, step);
      OpeningOpens(cfg, st, step,
        OpenedCampaign(cfg, st, step.user, step.exposure, step.broker, step.jurisdiction, step.uuid),
        OpeningJobs(st, step.user, step.exposure, step.broker));
    }
  }

  lemma {:induction false} OpeningOpens(cfg: Config, st: State, step: Step, c: Campaign, jobs: seq<Job>)
    requires step.QueueRemoval? && step.exposure < |st.exposures|
    requires OpenedFor(cfg, st, step, c) && ReceiptFor(cfg, st, step, c) && JobsFor(st, step, c.channel, jobs)
    ensures Opens(cfg, st, WithCampaign(st, step.exposure, c, jobs), step)
  {
    SplitConcat(st.jobs, jobs);
  }
}
