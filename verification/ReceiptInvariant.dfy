/** Every campaign's ledger and jobs correspond, in every run. */
module ReceiptInvariant {
  import opened Prelude
  import opened Records
  import opened Entitlements
  import opened Planner
  import opened Deindexing
  import opened Sentinel
  import opened StatusInvariant
  import Json
  import Ledger

  // ------------------------------------------------------------- one ledger

  /** A valid chain, numbered from zero: one opening entry, then completions. */
  ghost predicate LedgerShape(cfg: Config, c: Campaign) {
    && c.evidence != []
    && Ledger.Built(cfg.sha, c.uuid, c.evidence)
    && (c.evidence[0].kind == "request_queued" || c.evidence[0].kind == "send_cap_reached")
    && forall k | 0 < k < |c.evidence| :: c.evidence[k].kind == "job_completed"
  }

  lemma {:induction false} EmptyLedgerIsBuilt(sha: Digest, campaign: string)
    ensures Ledger.Built(sha, campaign, [])
  {
  }

  lemma {:induction false} PayloadIsKept(v: Json.Value)
    requires v.Obj? && v.fields.Field?
    ensures Ledger.OrEmpty(v) == v
  {
  }

  lemma {:induction false} FirstEntry(cfg: Config, c: Campaign, kind: string, payload: Json.Value)
    requires c.evidence == [] && payload.Obj? && payload.fields.Field?
    requires kind == "request_queued" || kind == "send_cap_reached"
    ensures var r := AppendEvidence(cfg, c, kind, payload, "");
      LedgerShape(cfg, r) && |r.evidence| == 1 && r.evidence[0].kind == kind && r.evidence[0].metadata == payload
  {
    EmptyLedgerIsBuilt(cfg.sha, c.uuid);
    PayloadIsKept(payload);
    Ledger.AppendExtends(cfg.sha, c.uuid, [], kind, payload, "");
  }

  lemma {:induction false} LaterEntry(cfg: Config, c: Campaign, payload: Json.Value, ciphertext: string)
    requires LedgerShape(cfg, c) && payload.Obj? && payload.fields.Field?
    ensures var r := AppendEvidence(cfg, c, "job_completed", payload, ciphertext);
      LedgerShape(cfg, r) && |r.evidence| == |c.evidence| + 1 && r.evidence[0] == c.evidence[0]
  {
    PayloadIsKept(payload);
    Ledger.AppendExtends(cfg.sha, c.uuid, c.evidence, "job_completed", payload, ciphertext);
  }

  lemma {:induction false} CompletionKeepsLedger(cfg: Config, c: Campaign, now: int, t: JobType,
                                        confirmation: string, result: string)
    requires LedgerShape(cfg, c)
    ensures var r := CompletedCampaign(cfg, c, now, t, confirmation, result);
      LedgerShape(cfg, r) && |r.evidence| == |c.evidence| + 1 && r.evidence[0] == c.evidence[0]
  {
    LaterEntry(cfg, c, CompletedPayload(t, confirmation), result);
  }

  // ------------------------------------------------------------- opening

  /** Jobs of one type that belong to campaign c. */
  function JobsOf(c: nat, t: JobType): Job -> bool {
    (j: Job) => j.campaign == Some(c) && j.jobType == t
  }

  /** The opening entry and the jobs queued with it: either the request was
      queued on one channel, with a de-index job exactly for an indexed page,
      or the send cap was reached, and nothing was queued. */
  ghost predicate OpeningMatches(opening: Ledger.Evidence, channel: Channel, jurisdiction: string, broker: string,
                                 deindex: bool, emails: nat, forms: nat, deindexes: nat) {
    || (&& opening.kind == "request_queued"
        && opening.metadata == QueuedPayload(channel, jurisdiction, broker)
        && emails == (if channel == WebForm then 0 else 1)
        && forms == (if channel == WebForm then 1 else 0)
        && deindexes == (if deindex then 1 else 0))
    || (&& opening.kind == "send_cap_reached"
        && (exists e | e in {FREE, PRO, FAMILY} :: opening.metadata == CapPayload(e))
        && channel == Manual && emails == 0 && forms == 0 && deindexes == 0)
  }

  ghost predicate Opened(st: State, c: nat)
    requires c < |st.campaigns|
  {
    var row := st.campaigns[c];
    && row.evidence != [] && row.exposure < |st.exposures|
    && OpeningMatches(row.evidence[0], row.channel, row.jurisdiction, row.brokerId,
         ShouldDeindex(st.exposures[row.exposure]),
         CountIf(st.jobs, JobsOf(c, SendEmail)), CountIf(st.jobs, JobsOf(c, FillWebForm)), CountIf(st.jobs, JobsOf(c, Deindex)))
  }

  ghost predicate AllReceipts(cfg: Config, st: State) {
    forall c | 0 <= c < |st.campaigns| :: LedgerShape(cfg, st.campaigns[c]) && Opened(st, c)
  }

  /** Jobs that are only updated, and new jobs of other kinds, leave a count alone. */
  lemma {:induction false} CountAfterGrowth(st: State, after: State, p: Job -> bool)
    requires Grows(st, after)
    requires forall j | 0 <= j < |st.jobs| :: p(st.jobs[j]) == p(after.jobs[j])
    ensures CountIf(after.jobs, p) == CountIf(st.jobs, p) + CountIf(after.jobs[|st.jobs|..], p)
  {
    var n := |st.jobs|;
    assert after.jobs == after.jobs[..n] + after.jobs[n..];
    CountConcat(after.jobs[..n], after.jobs[n..], p);
    CountSame(st.jobs, after.jobs[..n], p, p);
  }

  lemma {:induction false} JobsOfAfterGrowth(st: State, after: State, c: nat, t: JobType)
    requires Grows(st, after)
    ensures CountIf(after.jobs, JobsOf(c, t)) == CountIf(st.jobs, JobsOf(c, t)) + CountIf(after.jobs[|st.jobs|..], JobsOf(c, t))
  {
    forall j | 0 <= j < |st.jobs| ensures JobsOf(c, t)(st.jobs[j]) == JobsOf(c, t)(after.jobs[j]) {
      assert SameJob(st.jobs[j], after.jobs[j]);
    }
    CountAfterGrowth(st, after, JobsOf(c, t));
  }

  lemma {:induction false} NoJobsYet(st: State, c: nat, t: JobType)
    requires References(st) && |st.campaigns| <= c
    ensures CountIf(st.jobs, JobsOf(c, t)) == 0
  {
    forall j | 0 <= j < |st.jobs| ensures !JobsOf(c, t)(st.jobs[j]) {
      assert JobRefers(st, st.jobs[j]);
    }
    CountNone(st.jobs, JobsOf(c, t));
  }

  predicate OpeningType(t: JobType) {
    t == SendEmail || t == FillWebForm || t == Deindex
  }

  /** New jobs, if any, are not opening jobs of campaign c. */
  lemma {:induction false} CountsUnchanged(st: State, after: State, c: nat)
    requires Grows(st, after)
    requires forall j | |st.jobs| <= j < |after.jobs| ::
      !(after.jobs[j].campaign == Some(c) && OpeningType(after.jobs[j].jobType))
    ensures forall t | OpeningType(t) :: CountIf(after.jobs, JobsOf(c, t)) == CountIf(st.jobs, JobsOf(c, t))
  {
    forall t | OpeningType(t) ensures CountIf(after.jobs, JobsOf(c, t)) == CountIf(st.jobs, JobsOf(c, t)) {
      JobsOfAfterGrowth(st, after, c, t);
      var tail := after.jobs[|st.jobs|..];
      forall i | 0 <= i < |tail| ensures !JobsOf(c, t)(tail[i]) {
        assert tail[i] == after.jobs[|st.jobs| + i];
      }
      CountNone(tail, JobsOf(c, t));
    }
  }

  lemma {:induction false} OpenedKept(st: State, after: State, c: nat)
    requires References(st) && Grows(st, after) && c < |st.campaigns| && Opened(st, c)
    requires after.campaigns[c].evidence != [] && after.campaigns[c].evidence[0] == st.campaigns[c].evidence[0]
    requires after.campaigns[c].jurisdiction == st.campaigns[c].jurisdiction
    requires after.campaigns[c].brokerId == st.campaigns[c].brokerId
    requires forall j | |st.jobs| <= j < |after.jobs| ::
      !(after.jobs[j].campaign == Some(c) && OpeningType(after.jobs[j].jobType))
    ensures Opened(after, c)
  {
    CountsUnchanged(st, after, c);
    var e := st.campaigns[c].exposure;
    assert SameCampaign(st.campaigns[c], after.campaigns[c]) && SameExposure(st.exposures[e], after.exposures[e]);
    assert OpeningType(SendEmail) && OpeningType(FillWebForm) && OpeningType(Deindex);
  }

  // ------------------------------------------------------------- steps

  lemma {:induction false} OpenedEntry(cfg: Config, st: State, user: nat, e: nat, broker: Option<Broker>,
                                       jurisdiction: string, uuid: string)
    ensures var c := OpenedCampaign(cfg, st, user, e, broker, jurisdiction, uuid);
      && LedgerShape(cfg, c) && |c.evidence| == 1 && c.jurisdiction == jurisdiction
      && (MaySend(st, user) ==>
            && c.channel == ChooseChannel(broker)
            && c.evidence[0].kind == "request_queued"
            && c.evidence[0].metadata == QueuedPayload(c.channel, jurisdiction, c.brokerId))
      && (!MaySend(st, user) ==>
            && c.channel == Manual
            && c.evidence[0].kind == "send_cap_reached"
            && c.evidence[0].metadata == CapPayload(EntitlementsOf(st.accounts, user)))
  {
    var c := NewCampaign(cfg, st.now, user, e, broker, jurisdiction, uuid);
    FirstEntry(cfg, c, "request_queued", QueuedPayload(c.channel, jurisdiction, c.brokerId));
    FirstEntry(cfg, c.(channel := Manual), "send_cap_reached", CapPayload(EntitlementsOf(st.accounts, user)));
  }

  lemma {:induction false} OpeningJobCounts(now: int, user: nat, c: nat, channel: Channel, deindex: bool)
    ensures var jobs := RemovalJobs(now, user, c, channel, deindex);
      && CountIf(jobs, JobsOf(c, SendEmail)) == (if channel == WebForm then 0 else 1)
      && CountIf(jobs, JobsOf(c, FillWebForm)) == (if channel == WebForm then 1 else 0)
      && CountIf(jobs, JobsOf(c, Deindex)) == (if deindex then 1 else 0)
  {
    var jobs := RemovalJobs(now, user, c, channel, deindex);
    assert jobs[..0] == [];
    assert jobs[..1] == [jobs[0]] && jobs[..1][..0] == [];
  }

  lemma {:induction false} RemovalJobsBelong(now: int, user: nat, c: nat, channel: Channel, deindex: bool)
    ensures forall i | 0 <= i < |RemovalJobs(now, user, c, channel, deindex)| ::
      RemovalJobs(now, user, c, channel, deindex)[i].campaign == Some(c)
  {
  }

  lemma {:induction false} CountsAfterOpening(st: State, e: nat, row: Campaign, jobs: seq<Job>)
    requires References(st) && e < |st.exposures|
    ensures var n := |st.campaigns|;
      forall t | OpeningType(t) :: CountIf(WithCampaign(st, e, row, jobs).jobs, JobsOf(n, t)) == CountIf(jobs, JobsOf(n, t))
  {
    var n := |st.campaigns|;
    forall t | OpeningType(t)
      ensures CountIf(WithCampaign(st, e, row, jobs).jobs, JobsOf(n, t)) == CountIf(jobs, JobsOf(n, t))
    {
      NoJobsYet(st, n, t);
      CountConcat(st.jobs, jobs, JobsOf(n, t));
    }
  }

  /** The opening entry of a new campaign matches the jobs queued with it. */
  lemma {:induction false} OpeningMatchesJobs(cfg: Config, st: State, user: nat, e: nat, broker: Option<Broker>,
                                              jurisdiction: string, uuid: string)
    requires e < |st.exposures|
    ensures var c := OpenedCampaign(cfg, st, user, e, broker, jurisdiction, uuid);
            var jobs := OpeningJobs(st, user, e, broker);
            var n := |st.campaigns|;
      && c.evidence != []
      && OpeningMatches(c.evidence[0], c.channel, c.jurisdiction, c.brokerId, ShouldDeindex(st.exposures[e]),
           CountIf(jobs, JobsOf(n, SendEmail)), CountIf(jobs, JobsOf(n, FillWebForm)), CountIf(jobs, JobsOf(n, Deindex)))
  {
    OpenedEntry(cfg, st, user, e, broker, jurisdiction, uuid);
    OpeningJobCounts(st.now, user, |st.campaigns|, ChooseChannel(broker), ShouldDeindex(st.exposures[e]));
    CapIsAPlan(st, user);
  }

  lemma {:induction false} NewCampaignOpened(st: State, e: nat, row: Campaign, jobs: seq<Job>)
    requires References(st) && e < |st.exposures| && row.exposure == e && row.evidence != []
    requires var n := |st.campaigns|;
      OpeningMatches(row.evidence[0], row.channel, row.jurisdiction, row.brokerId, ShouldDeindex(st.exposures[e]),
        CountIf(jobs, JobsOf(n, SendEmail)), CountIf(jobs, JobsOf(n, FillWebForm)), CountIf(jobs, JobsOf(n, Deindex)))
    ensures Opened(WithCampaign(st, e, row, jobs), |st.campaigns|)
  {
    CountsAfterOpening(st, e, row, jobs);
    assert OpeningType(SendEmail) && OpeningType(FillWebForm) && OpeningType(Deindex);
  }

  /** Only limited plans reach their cap. */
  lemma {:induction false} CapIsAPlan(st: State, user: nat)
    ensures MaySend(st, user) || EntitlementsOf(st.accounts, user) in {FREE, PRO, FAMILY}
  {
  }

  /** An older campaign's ledger and jobs still correspond after an opening. */
  lemma {:induction false} OlderReceipts(cfg: Config, st: State, after: State, c: nat)
    requires References(st) && Grows(st, after) && c < |st.campaigns|
    requires LedgerShape(cfg, st.campaigns[c]) && Opened(st, c)
    requires after.campaigns[c] == st.campaigns[c]
    requires forall j | |st.jobs| <= j < |after.jobs| :: after.jobs[j].campaign != Some(c)
    ensures LedgerShape(cfg, after.campaigns[c]) && Opened(after, c)
  {
    OpenedKept(st, after, c);
  }

  ghost predicate ReceiptsOf(cfg: Config, st: State, c: nat) {
    c < |st.campaigns| && LedgerShape(cfg, st.campaigns[c]) && Opened(st, c)
  }

  lemma {:induction false} OlderLedger(cfg: Config, st: State, after: State, n: nat, c: nat)
    requires References(st) && ReceiptsOf(cfg, st, c) && Grows(st, after)
    requires c < n == |st.campaigns| && after.campaigns[c] == st.campaigns[c]
    requires forall j | |st.jobs| <= j < |after.jobs| :: after.jobs[j].campaign == Some(n)
    ensures ReceiptsOf(cfg, after, c)
  {
    OlderReceipts(cfg, st, after, c);
  }

  lemma {:induction false} OneMoreLedger(cfg: Config, st: State, after: State, n: nat, c: nat)
    requires References(st) && AllReceipts(cfg, st) && Grows(st, after)
    requires c <= n == |st.campaigns| && (c < n ==> after.campaigns[c] == st.campaigns[c])
    requires forall j | |st.jobs| <= j < |after.jobs| :: after.jobs[j].campaign == Some(n)
    requires ReceiptsOf(cfg, after, n)
    ensures ReceiptsOf(cfg, after, c)
  {
    if c < n {
      OlderLedger(cfg, st, after, n, c);
    }
  }

  lemma {:induction false} ReceiptsOfAll(cfg: Config, st: State)
    requires forall c: nat | c < |st.campaigns| :: ReceiptsOf(cfg, st, c)
    ensures AllReceipts(cfg, st)
  {
    forall c | 0 <= c < |st.campaigns| ensures LedgerShape(cfg, st.campaigns[c]) && Opened(st, c) {
      assert ReceiptsOf(cfg, st, c);
    }
  }

  lemma {:induction false} OpeningReceipts(cfg: Config, st: State, e: nat, row: Campaign, jobs: seq<Job>)
    requires References(st) && AllReceipts(cfg, st) && e < |st.exposures|
    requires LedgerShape(cfg, row) && Opened(WithCampaign(st, e, row, jobs), |st.campaigns|)
    requires forall i | 0 <= i < |jobs| :: jobs[i].campaign == Some(|st.campaigns|)
    ensures AllReceipts(cfg, WithCampaign(st, e, row, jobs))
  {
    WithCampaignGrows(st, e, row, jobs);
    var after, n := WithCampaign(st, e, row, jobs), |st.campaigns|;
    assert ReceiptsOf(cfg, after, n);
    forall c: nat | c <= n ensures ReceiptsOf(cfg, after, c) {
      OneMoreLedger(cfg, st, after, n, c);
    }
    ReceiptsOfAll(cfg, after);
  }

  lemma {:induction false} QueueRemovalReceipts(cfg: Config, st: State, user: nat, e: nat, broker: Option<Broker>,
                                                jurisdiction: string, uuid: string)
    requires References(st) && AllReceipts(cfg, st)
    ensures AllReceipts(cfg, AfterQueueRemoval(cfg, st, user, e, broker, jurisdiction, uuid))
  {
    if AfterQueueRemoval(cfg, st, user, e, broker, jurisdiction, uuid) != st {
      var row := OpenedCampaign(cfg, st, user, e, broker, jurisdiction, uuid);
      var jobs := OpeningJobs(st, user, e, broker);
      OpenedEntry(cfg, st, user, e, broker, jurisdiction, uuid);
      OpenedRow(cfg, st, user, e, broker, jurisdiction, uuid);
      OpeningMatchesJobs(cfg, st, user, e, broker, jurisdiction, uuid);
      RemovalJobsBelong(st.now, user, |st.campaigns|, ChooseChannel(broker), ShouldDeindex(st.exposures[e]));
      NewCampaignOpened(st, e, row, jobs);
      OpeningReceipts(cfg, st, e, row, jobs);
    }
  }

  /** A ledger may grow, but keeps its shape and its opening. */
  ghost predicate LedgerKept(cfg: Config, a: Campaign, b: Campaign) {
    && LedgerShape(cfg, b) && a.evidence != [] && b.evidence[0] == a.evidence[0]
    && b.jurisdiction == a.jurisdiction && b.brokerId == a.brokerId
  }

  lemma {:induction false} ReceiptsSurvive(cfg: Config, st: State, after: State)
    requires References(st) && AllReceipts(cfg, st) && Grows(st, after) && |after.campaigns| == |st.campaigns|
    requires forall c | 0 <= c < |st.campaigns| :: LedgerKept(cfg, st.campaigns[c], after.campaigns[c])
    requires forall j | |st.jobs| <= j < |after.jobs| :: !OpeningType(after.jobs[j].jobType)
    ensures AllReceipts(cfg, after)
  {
    forall c | 0 <= c < |after.campaigns| ensures LedgerShape(cfg, after.campaigns[c]) && Opened(after, c) {
      assert LedgerKept(cfg, st.campaigns[c], after.campaigns[c]);
      OpenedKept(st, after, c);
    }
  }

  lemma {:induction false} SameLedgerKept(cfg: Config, c: Campaign)
    requires LedgerShape(cfg, c)
    ensures LedgerKept(cfg, c, c)
  {
  }

  /** One ledger is rewritten, and no job is added. */
  lemma {:induction false} OneLedgerRewritten(cfg: Config, st: State, after: State, c: nat)
    requires References(st) && AllReceipts(cfg, st) && Grows(st, after) && c < |st.campaigns|
    requires |after.campaigns| == |st.campaigns| && LedgerKept(cfg, st.campaigns[c], after.campaigns[c])
    requires forall d | 0 <= d < |st.campaigns| && d != c :: after.campaigns[d] == st.campaigns[d]
    requires |after.jobs| == |st.jobs|
    ensures AllReceipts(cfg, after)
  {
    forall d | 0 <= d < |st.campaigns| ensures LedgerKept(cfg, st.campaigns[d], after.campaigns[d]) {
      if d != c {
        assert LedgerShape(cfg, st.campaigns[d]);
        SameLedgerKept(cfg, st.campaigns[d]);
      }
    }
    ReceiptsSurvive(cfg, st, after);
  }

  lemma {:induction false} SameLedgers(cfg: Config, st: State, after: State)
    requires References(st) && AllReceipts(cfg, st) && Grows(st, after)
    requires after.campaigns == st.campaigns && |after.jobs| == |st.jobs|
    ensures AllReceipts(cfg, after)
  {
    if st.campaigns != [] {
      assert LedgerShape(cfg, st.campaigns[0]);
      OneLedgerRewritten(cfg, st, after, 0);
    }
  }

  lemma {:induction false} CompletionRewrites(cfg: Config, c: Campaign, now: int, t: JobType,
                                        confirmation: string, result: string)
    requires LedgerShape(cfg, c)
    ensures LedgerKept(cfg, c, CompletedCampaign(cfg, c, now, t, confirmation, result))
  {
    CompletionKeepsLedger(cfg, c, now, t, confirmation, result);
  }

  lemma {:induction false} CompletionReceipts(cfg: Config, st: State, j: nat, job: Job, c: nat, row: Campaign)
    requires References(st) && AllReceipts(cfg, st) && j < |st.jobs| && c < |st.campaigns|
    requires Grows(st, WithCompletion(st, j, job, c, row)) && LedgerKept(cfg, st.campaigns[c], row)
    ensures AllReceipts(cfg, WithCompletion(st, j, job, c, row))
  {
    OneLedgerRewritten(cfg, st, WithCompletion(st, j, job, c, row), c);
  }

  lemma {:induction false} CompleteReceipts(cfg: Config, st: State, user: nat, j: nat, confirmation: string,
                                            result: string)
    requires References(st) && AllReceipts(cfg, st)
    ensures AllReceipts(cfg, AfterComplete(cfg, st, user, j, confirmation, result))
  {
    CompleteGrows(cfg, st, user, j, confirmation, result);
    if OwnsJob(st, user, j) && st.jobs[j].campaign.Some? {
      var c := st.jobs[j].campaign.value;
      var job := CompletedJob(st.jobs[j], result);
      assert JobRefers(st, st.jobs[j]) && LedgerShape(cfg, st.campaigns[c]);
      CompletionRewrites(cfg, st.campaigns[c], st.now, job.jobType, confirmation, job.result);
      CompletionReceipts(cfg, st, j, job, c, CompletedCampaign(cfg, st.campaigns[c], st.now, job.jobType, confirmation, job.result));
    } else {
      SameLedgers(cfg, st, AfterComplete(cfg, st, user, j, confirmation, result));
    }
  }

  /** The other steps leave ledgers alone, and queue no opening job. */
  lemma {:induction false} OtherStepKeepsRows(cfg: Config, st: State, step: Step)
    requires !step.QueueRemoval? && !step.Complete?
    ensures var after := Apply(cfg, st, step);
      && |after.campaigns| == |st.campaigns|
      && (forall c | 0 <= c < |st.campaigns| ::
            after.campaigns[c] == st.campaigns[c] || after.campaigns[c] == st.campaigns[c].(status := CampaignStatus.Escalated))
      && forall j | |st.jobs| <= j < |after.jobs| :: !OpeningType(after.jobs[j].jobType)
  {
  }

  lemma {:induction false} ApplyReceipts(cfg: Config, st: State, step: Step)
    requires References(st) && AllReceipts(cfg, st)
    ensures AllReceipts(cfg, Apply(cfg, st, step))
  {
    match step
    case QueueRemoval(user, e, broker, jurisdiction, uuid) =>
      ApplyRemoval(cfg, st, step);
      QueueRemovalReceipts(cfg, st, user, e, broker, jurisdiction, uuid);
    case Complete(user, j, confirmation, result) =>
      ApplyComplete(cfg, st, step);
      CompleteReceipts(cfg, st, user, j, confirmation, result);
    case _ => OtherStepReceipts(cfg, st, step);
  }

  lemma {:induction false} OtherStepReceipts(cfg: Config, st: State, step: Step)
    requires References(st) && AllReceipts(cfg, st) && !step.QueueRemoval? && !step.Complete?
    ensures AllReceipts(cfg, Apply(cfg, st, step))
  {
    var after := Apply(cfg, st, step);
    ApplyGrows(cfg, st, step);
    OtherStepKeepsRows(cfg, st, step);
    forall c | 0 <= c < |st.campaigns| ensures LedgerKept(cfg, st.campaigns[c], after.campaigns[c]) {
      assert LedgerShape(cfg, st.campaigns[c]);
    }
    ReceiptsSurvive(cfg, st, after);
  }

  // ------------------------------------------------------------- counting completions

  ghost predicate LedgerLengths(cfg: Config, trace: seq<Step>) {
    var st := StateAfter(cfg, trace);
    forall c: nat :: (if c < |st.campaigns| then |st.campaigns[c].evidence| else 1) == 1 + CountSteps(cfg, trace, CompletionsOf(c))
  }

  lemma {:induction false} CompletionAddsEntry(cfg: Config, c: Campaign, now: int, t: JobType,
                                        confirmation: string, result: string)
    ensures |CompletedCampaign(cfg, c, now, t, confirmation, result).evidence| == |c.evidence| + 1
  {
  }

  lemma {:induction false} CompleteLengthens(cfg: Config, st: State, user: nat, j: nat, confirmation: string,
                                        result: string, c: nat)
    requires c < |st.campaigns|
    ensures var after := AfterComplete(cfg, st, user, j, confirmation, result);
      && |after.campaigns| == |st.campaigns|
      && |after.campaigns[c].evidence|
           == |st.campaigns[c].evidence| + if OwnsJob(st, user, j) && st.jobs[j].campaign == Some(c) then 1 else 0
  {
    if OwnsJob(st, user, j) {
      var job := CompletedJob(st.jobs[j], result);
      CompletionAddsEntry(cfg, st.campaigns[c], st.now, job.jobType, confirmation, job.result);
    }
  }

  /** What a step does to the ledger of campaign c. */
  ghost predicate Lengthens(st: State, after: State, c: nat, completes: bool) {
    && |st.campaigns| <= |after.campaigns|
    && (c < |st.campaigns| ==> |after.campaigns[c].evidence| == |st.campaigns[c].evidence| + if completes then 1 else 0)
    && (|st.campaigns| <= c ==> !completes)
    && (|st.campaigns| <= c < |after.campaigns| ==> |after.campaigns[c].evidence| == 1)
  }

  /** A new campaign starts with a ledger of one entry. */
  lemma {:induction false} OpeningLengthens(st: State, e: nat, row: Campaign, jobs: seq<Job>, c: nat)
    requires e < |st.exposures| && |row.evidence| == 1
    ensures Lengthens(st, WithCampaign(st, e, row, jobs), c, false)
  {
  }

  lemma {:induction false} QueueRemovalLengthens(cfg: Config, st: State, user: nat, e: nat, broker: Option<Broker>,
                                                 jurisdiction: string, uuid: string, c: nat)
    ensures Lengthens(st, AfterQueueRemoval(cfg, st, user, e, broker, jurisdiction, uuid), c, false)
  {
    if AfterQueueRemoval(cfg, st, user, e, broker, jurisdiction, uuid) != st {
      OpenedEntry(cfg, st, user, e, broker, jurisdiction, uuid);
      OpeningLengthens(st, e, OpenedCampaign(cfg, st, user, e, broker, jurisdiction, uuid), OpeningJobs(st, user, e, broker), c);
    }
  }

  lemma {:induction false} OtherStepLengthens(cfg: Config, st: State, step: Step, c: nat)
    requires !step.QueueRemoval? && !step.Complete?
    ensures Lengthens(st, Apply(cfg, st, step), c, false)
  {
    OtherStepKeepsRows(cfg, st, step);
  }

  lemma {:induction false} StepLengthens(cfg: Config, st: State, step: Step, c: nat)
    requires References(st)
    ensures Lengthens(st, Apply(cfg, st, step), c, CompletesJobOf(st, step, c))
  {
    match step
    case QueueRemoval(user, e, broker, jurisdiction, uuid) =>
      QueueRemovalLengthens(cfg, st, user, e, broker, jurisdiction, uuid, c);
    case Complete(user, j, confirmation, result) =>
      CompleteGrows(cfg, st, user, j, confirmation, result);
      assert CompletesJobOf(st, step, c) ==> JobRefers(st, st.jobs[j]);
      if c < |st.campaigns| {
        CompleteLengthens(cfg, st, user, j, confirmation, result, c);
      }
    case _ => OtherStepLengthens(cfg, st, step, c);
  }

  lemma {:induction false} LengthsCountCompletions(cfg: Config, trace: seq<Step>)
    ensures LedgerLengths(cfg, trace)
  {
    if trace != [] {
      var n := |trace| - 1;
      var before := StateAfter(cfg, trace[..n]);
      LengthsCountCompletions(cfg, trace[..n]);
      StatusesAlwaysPaired(cfg, trace[..n]);
      var st := StateAfter(cfg, trace);
      forall c: nat
        ensures (if c < |st.campaigns| then |st.campaigns[c].evidence| else 1) == 1 + CountSteps(cfg, trace, CompletionsOf(c))
      {
        StepLengthens(cfg, before, trace[n], c);
      }
    }
  }

  lemma {:induction false} ReceiptsKept(cfg: Config, trace: seq<Step>)
    ensures AllReceipts(cfg, StateAfter(cfg, trace))
  {
    if trace != [] {
      var n := |trace| - 1;
      ReceiptsKept(cfg, trace[..n]);
      StatusesAlwaysPaired(cfg, trace[..n]);
      ApplyReceipts(cfg, StateAfter(cfg, trace[..n]), trace[n]);
    }
  }

  /** In every run each campaign's ledger verifies, opens with the request or
      the reached cap in step with the jobs queued, and then holds exactly one
      entry per completion of one of the campaign's jobs. */
  lemma {:induction false} LedgersMatchJobs(cfg: Config, trace: seq<Step>, c: nat)
    requires c < |StateAfter(cfg, trace).campaigns|
    ensures var st := StateAfter(cfg, trace);
      && Ledger.Verifies(cfg.sha, st.campaigns[c].uuid, st.campaigns[c].evidence)
      && Opened(st, c)
      && (forall k | 0 < k < |st.campaigns[c].evidence| :: st.campaigns[c].evidence[k].kind == "job_completed")
      && |st.campaigns[c].evidence| == 1 + CountSteps(cfg, trace, CompletionsOf(c))
  {
    ReceiptsKept(cfg, trace);
    LengthsCountCompletions(cfg, trace);
    assert LedgerShape(cfg, StateAfter(cfg, trace).campaigns[c]);
  }
}
