/** A campaign's row is its history: what every run leaves in it is told by the
    request that opened it and the completions of its jobs. */
module Histories {
  import opened Prelude
  import opened Records
  import opened Sentinel
  import opened StatusInvariant
  import Json
  import Ledger
  import Openings
  import Passes
  import ReceiptInvariant
  import Verifier

  // ------------------------------------------------------------- the request

  /** Step k of the run opened this campaign, as number c. */
  ghost predicate RequestedBy(cfg: Config, trace: seq<Step>, c: nat, row: Campaign, k: nat) {
    && k < |trace| && trace[k].QueueRemoval? && trace[k].exposure == row.exposure
    && StateAfter(cfg, trace[..k]).now == row.createdAt
    && |StateAfter(cfg, trace[..k]).campaigns| == c && |StateAfter(cfg, trace[..k + 1]).campaigns| == c + 1
  }

  /** In every run a campaign is dated by the removal request that opened it,
      and its deadline is the configured number of days later. */
  lemma {:induction false} DeadlineRunsFromRequest(cfg: Config, trace: seq<Step>, c: nat) returns (k: nat)
    requires c < |StateAfter(cfg, trace).campaigns|
    ensures var row := StateAfter(cfg, trace).campaigns[c];
      && RequestedBy(cfg, trace, c, row, k)
      && row.deadlineAt == row.createdAt + cfg.deadlineDays * 86_400
  {
    var n := |trace| - 1;
    var before := StateAfter(cfg, trace[..n]);
    Openings.StepDates(cfg, before, trace[n]);
    assert trace[..|trace|] == trace;
    if c < |before.campaigns| {
      k := DeadlineRunsFromRequest(cfg, trace[..n], c);
      ApplyGrows(cfg, before, trace[n]);
      assert SameCampaign(before.campaigns[c], StateAfter(cfg, trace).campaigns[c]);
      assert trace[..n][..k] == trace[..k] && trace[..n][..k + 1] == trace[..k + 1];
    } else {
      k := n;
    }
  }

  // ------------------------------------------------------------- completions

  /** One completion of a campaign's job. */
  datatype Completion = Completion(at: int, jobType: JobType, confirmation: string, result: string)

  /** The step completes, for its own user, a job of campaign c. */
  predicate Completes(st: State, step: Step, c: nat) {
    && step.Complete? && step.job < |st.jobs|
    && st.jobs[step.job].user == step.user && st.jobs[step.job].campaign == Some(c)
  }

  function CompletionBy(st: State, step: Step): Completion
    requires step.Complete? && step.job < |st.jobs|
  {
    Completion(st.now, st.jobs[step.job].jobType, step.confirmation,
               if step.result != "" then step.result else st.jobs[step.job].result)
  }

  /** Every completion of campaign c's jobs in a run, in order. */
  ghost function CompletionsIn(cfg: Config, trace: seq<Step>, c: nat): seq<Completion> {
    if trace == [] then []
    else
      var n := |trace| - 1;
      var st := StateAfter(cfg, trace[..n]);
      CompletionsIn(cfg, trace[..n], c) + if Completes(st, trace[n], c) then [CompletionBy(st, trace[n])] else []
  }

  /** When a job other than DEINDEX was last completed. */
  function LastSubmitted(log: seq<Completion>): Option<int> {
    if log == [] then None
    else if log[|log| - 1].jobType != Deindex then Some(log[|log| - 1].at)
    else LastSubmitted(log[..|log| - 1])
  }

  /** The first 200 characters of the last confirmation that such a job came with. */
  function LastCode(log: seq<Completion>): string {
    if log == [] then ""
    else if log[|log| - 1].jobType != Deindex && log[|log| - 1].confirmation != "" then First200(log[|log| - 1].confirmation)
    else LastCode(log[..|log| - 1])
  }

  function First200(s: string): string {
    if |s| > 200 then s[..200] else s
  }

  function TypeName(t: JobType): string {
    if t == Monitor then "monitor"
    else if t == SendEmail then "send_email"
    else if t == FillWebForm then "fill_web_form"
    else if t == VerifyRemoval then "verify"
    else if t == Escalate then "escalate"
    else "deindex"
  }

  /** The receipt of one completion. */
  ghost predicate ReceiptOf(cfg: Config, e: Ledger.Evidence, x: Completion) {
    && e.kind == "job_completed" && e.ciphertext == x.result && e.contentHash == cfg.sha(Json.Canonical(e.metadata))
    && Json.MeaningOf(e.metadata) == Json.MObj(
         map["job_type" := Json.MStr(TypeName(x.jobType)), "confirmation" := Json.MStr(First200(x.confirmation))])
  }

  /** One receipt per completion after the opening one, the time of the last
      submission and the last confirmation. */
  ghost predicate Tells(cfg: Config, row: Campaign, log: seq<Completion>) {
    && |row.evidence| == 1 + |log|
    && (forall k | 0 <= k < |log| :: ReceiptOf(cfg, row.evidence[k + 1], log[k]))
    && row.submittedAt == LastSubmitted(log)
    && row.confirmationCode == LastCode(log)
    && row.completedAt == None
    && (row.status == CampaignStatus.Submitted ==> row.submittedAt.Some?)
  }

  lemma {:induction false} CompletedMeaning(t: JobType, confirmation: string)
    ensures Json.MeaningOf(CompletedPayload(t, confirmation)) == Json.MObj(
      map["job_type" := Json.MStr(TypeName(t)), "confirmation" := Json.MStr(First200(confirmation))])
  {
    Openings.KeysDiffer();
    Openings.TwoMembers("job_type", "confirmation", Json.Str(TypeName(t)), Json.Str(First200(confirmation)));
  }

  lemma {:induction false} LastOf(log: seq<Completion>, x: Completion)
    ensures LastSubmitted(log + [x]) == if x.jobType != Deindex then Some(x.at) else LastSubmitted(log)
    ensures LastCode(log + [x])
      == if x.jobType != Deindex && x.confirmation != "" then First200(x.confirmation) else LastCode(log)
  {
    assert (log + [x])[..|log|] == log;
  }

  lemma {:induction false} CompletionIsRecorded(cfg: Config, row: Campaign, log: seq<Completion>, x: Completion)
    requires Tells(cfg, row, log)
    ensures Tells(cfg, CompletedCampaign(cfg, row, x.at, x.jobType, x.confirmation, x.result), log + [x])
  {
    var after := CompletedCampaign(cfg, row, x.at, x.jobType, x.confirmation, x.result);
    CompletedMeaning(x.jobType, x.confirmation);
    LastOf(log, x);
    CompletedEvidence(cfg, row, x);
    var longer := log + [x];
    forall k | 0 <= k < |longer| ensures ReceiptOf(cfg, after.evidence[k + 1], longer[k]) {
      if k < |log| {
        assert after.evidence[k + 1] == after.evidence[..|row.evidence|][k + 1] && ReceiptOf(cfg, row.evidence[k + 1], log[k]);
      }
    }
  }

  lemma {:induction false} CompletedEvidence(cfg: Config, row: Campaign, x: Completion)
    ensures var after := CompletedCampaign(cfg, row, x.at, x.jobType, x.confirmation, x.result);
      && |after.evidence| == |row.evidence| + 1 && after.evidence[..|row.evidence|] == row.evidence
      && after.evidence[|row.evidence|].kind == "job_completed"
      && after.evidence[|row.evidence|].metadata == CompletedPayload(x.jobType, x.confirmation)
      && after.evidence[|row.evidence|].ciphertext == x.result
      && after.evidence[|row.evidence|].contentHash == cfg.sha(Json.Canonical(CompletedPayload(x.jobType, x.confirmation)))
    ensures var after := CompletedCampaign(cfg, row, x.at, x.jobType, x.confirmation, x.result);
      && after.completedAt == row.completedAt
      && after.submittedAt == (if x.jobType != Deindex then Some(x.at) else row.submittedAt)
      && after.confirmationCode == (if x.jobType != Deindex && x.confirmation != "" then First200(x.confirmation) else row.confirmationCode)
      && after.status == (if x.jobType != Deindex then CampaignStatus.Submitted else row.status)
  {
    Openings.AppendedRow(cfg, row, "job_completed", CompletedPayload(x.jobType, x.confirmation), x.result);
  }

  lemma {:induction false} OpeningIsTold(cfg: Config, st: State, user: nat, e: nat, broker: Option<Broker>,
                                          jurisdiction: string, uuid: string)
    ensures Tells(cfg, OpenedCampaign(cfg, st, user, e, broker, jurisdiction, uuid), [])
  {
    var c := NewCampaign(cfg, st.now, user, e, broker, jurisdiction, uuid);
    Openings.FirstCiphertext(cfg, st, user, c, jurisdiction);
    OpeningKeeps(cfg, st, user, c, jurisdiction);
  }

  lemma {:induction false} OpeningKeeps(cfg: Config, st: State, user: nat, c: Campaign, jurisdiction: string)
    ensures var r := WithOpening(cfg, st, user, c, jurisdiction);
      && r.submittedAt == c.submittedAt && r.completedAt == c.completedAt
      && r.confirmationCode == c.confirmationCode && r.status == c.status
  {
  }

  lemma {:induction false} CompletionRow(cfg: Config, st: State, step: Step, c: nat)
    requires step.Complete? && c < |st.campaigns|
    ensures var after := Apply(cfg, st, step).campaigns;
      && |after| == |st.campaigns|
      && (!Completes(st, step, c) ==> after[c] == st.campaigns[c])
      && (Completes(st, step, c) ==>
            var x := CompletionBy(st, step);
            after[c] == CompletedCampaign(cfg, st.campaigns[c], x.at, x.jobType, x.confirmation, x.result))
  {
  }

  /** What a step makes of campaign c: nothing, its escalation, or its completion. */
  ghost predicate StepRow(cfg: Config, st: State, step: Step, before: Campaign, after: Campaign, c: nat) {
    if Completes(st, step, c)
    then var x := CompletionBy(st, step);
         after == CompletedCampaign(cfg, before, x.at, x.jobType, x.confirmation, x.result)
    else after == before || after == before.(status := CampaignStatus.Escalated)
  }

  lemma {:induction false} RowAfterStep(cfg: Config, st: State, step: Step, c: nat)
    requires c < |st.campaigns|
    ensures var after := Apply(cfg, st, step).campaigns;
      c < |after| && StepRow(cfg, st, step, st.campaigns[c], after[c], c)
  {
    if step.QueueRemoval? {
      Openings.RemovalDates(cfg, st, step);
    } else if step.Complete? {
      CompletionRow(cfg, st, step, c);
    } else {
      ReceiptInvariant.OtherStepKeepsRows(cfg, st, step);
    }
  }

  lemma {:induction false} NewRow(cfg: Config, st: State, step: Step)
    ensures var after := Apply(cfg, st, step).campaigns;
      |after| > |st.campaigns| ==> |after| == |st.campaigns| + 1 && Tells(cfg, after[|st.campaigns|], [])
  {
    Openings.StepDates(cfg, st, step);
    if step.QueueRemoval? {
      Openings.RemovalDates(cfg, st, step);
      OpeningIsTold(cfg, st, step.user, step.exposure, step.broker, step.jurisdiction, step.uuid);
    }
  }

  lemma {:induction false} StepIsTold(cfg: Config, st: State, step: Step, c: nat, before: Campaign, after: Campaign, log: seq<Completion>)
    requires Tells(cfg, before, log) && StepRow(cfg, st, step, before, after, c)
    ensures Tells(cfg, after, log + if Completes(st, step, c) then [CompletionBy(st, step)] else [])
  {
    if Completes(st, step, c) {
      CompletionIsRecorded(cfg, before, log, CompletionBy(st, step));
    } else {
      assert log + [] == log;
    }
  }

  lemma {:induction false} NoneBefore(cfg: Config, trace: seq<Step>, c: nat)
    requires |StateAfter(cfg, trace).campaigns| <= c
    ensures CompletionsIn(cfg, trace, c) == []
  {
    if trace != [] {
      var n := |trace| - 1;
      var st := StateAfter(cfg, trace[..n]);
      ApplyGrows(cfg, st, trace[n]);
      NoneBefore(cfg, trace[..n], c);
      StatusesAlwaysPaired(cfg, trace[..n]);
      NoneCompleted(st, trace[n], c);
    }
  }

  /** In every run a campaign has, after its opening receipt, one receipt for
      each completion of its jobs, with the completion's type, confirmation and
      result; it was submitted when such a job other than DEINDEX was last
      completed, under the last confirmation. */
  lemma {:induction false} RowTellsHistory(cfg: Config, trace: seq<Step>, c: nat)
    requires c < |StateAfter(cfg, trace).campaigns|
    ensures Tells(cfg, StateAfter(cfg, trace).campaigns[c], CompletionsIn(cfg, trace, c))
  {
    var n := |trace| - 1;
    var st := StateAfter(cfg, trace[..n]);
    if c < |st.campaigns| {
      RowTellsHistory(cfg, trace[..n], c);
    } else {
      NoneBefore(cfg, trace[..n], c);
    }
    StatusesAlwaysPaired(cfg, trace[..n]);
    StepTells(cfg, st, trace[n], c, CompletionsIn(cfg, trace[..n], c));
  }

  lemma {:induction false} StepTells(cfg: Config, st: State, step: Step, c: nat, log: seq<Completion>)
    requires References(st) && c < |Apply(cfg, st, step).campaigns|
    requires if c < |st.campaigns| then Tells(cfg, st.campaigns[c], log) else log == []
    ensures Tells(cfg, Apply(cfg, st, step).campaigns[c], log + if Completes(st, step, c) then [CompletionBy(st, step)] else [])
  {
    var after := Apply(cfg, st, step).campaigns;
    if c < |st.campaigns| {
      RowAfterStep(cfg, st, step, c);
      StepIsTold(cfg, st, step, c, st.campaigns[c], after[c], log);
    } else {
      NewRow(cfg, st, step);
      NoneCompleted(st, step, c);
      assert log + [] == log;
    }
  }

  lemma {:induction false} NoneCompleted(st: State, step: Step, c: nat)
    requires References(st) && |st.campaigns| <= c
    ensures !Completes(st, step, c)
  {
    assert Completes(st, step, c) ==> JobRefers(st, st.jobs[step.job]);
  }

  lemma {:induction false} LedgerGrowsByStep(cfg: Config, st: State, step: Step, c: nat)
    requires c < |st.campaigns|
    ensures var after := Apply(cfg, st, step).campaigns;
      c < |after| && st.campaigns[c].evidence <= after[c].evidence
  {
    RowAfterStep(cfg, st, step, c);
    if Completes(st, step, c) {
      CompletedEvidence(cfg, st.campaigns[c], CompletionBy(st, step));
    }
  }

  /** Receipts are only ever added. */
  lemma {:induction false} ReceiptsStay(cfg: Config, st: State, more: seq<Step>, c: nat)
    requires c < |st.campaigns|
    ensures var after := Exec(cfg, st, more).campaigns;
      c < |after| && st.campaigns[c].evidence <= after[c].evidence
  {
    if more != [] {
      var n := |more| - 1;
      ReceiptsStay(cfg, st, more[..n], c);
      LedgerGrowsByStep(cfg, Exec(cfg, st, more[..n]), more[n], c);
    }
  }

  // ------------------------------------------------------------- the periodic pass

  /** The days allowed have passed since the request, and the broker is still
      waited for. On the very second of the deadline it is not late. */
  predicate Late(cfg: Config, c: Campaign, now: int) {
    && c.createdAt + cfg.deadlineDays * 86_400 < now
    && (c.status == CampaignStatus.Queued || c.status == CampaignStatus.Submitted)
  }

  function LateAt(cfg: Config, now: int): Campaign -> bool {
    (c: Campaign) => Late(cfg, c, now)
  }

  /** Submitted long enough ago to be checked. */
  predicate ForCheck(cfg: Config, c: Campaign, now: int) {
    c.status == CampaignStatus.Submitted && c.submittedAt.Some? && now - c.submittedAt.value >= cfg.verifyDays * 86_400
  }

  /** Late is overdue, and for a check is due for verification, in every run. */
  lemma {:induction false} DatesDecide(cfg: Config, trace: seq<Step>, c: nat)
    requires c < |StateAfter(cfg, trace).campaigns|
    ensures var st := StateAfter(cfg, trace);
      && (Verifier.IsOverdue(st.campaigns[c], st.now) <==> Late(cfg, st.campaigns[c], st.now))
      && (Verifier.NeedsVerification(st.campaigns[c], cfg.verifyDays, st.now) <==> ForCheck(cfg, st.campaigns[c], st.now))
  {
    var st := StateAfter(cfg, trace);
    StatusesAlwaysPaired(cfg, trace);
    assert CampaignPaired(st, st.campaigns[c]);
    var k := DeadlineRunsFromRequest(cfg, trace, c);
    RowTellsHistory(cfg, trace, c);
  }

  /** A late campaign is escalated and its exposure failed; any other is left alone. */
  ghost predicate EscalatedIfLate(cfg: Config, st: State, after: State, c: nat)
    requires c < |st.campaigns| == |after.campaigns|
  {
    if Late(cfg, st.campaigns[c], st.now)
    then after.campaigns[c] == st.campaigns[c].(status := CampaignStatus.Escalated)
         && st.campaigns[c].exposure < |after.exposures|
         && after.exposures[st.campaigns[c].exposure].status == ExposureStatus.Failed
    else after.campaigns[c] == st.campaigns[c]
  }

  /** In every run a pass escalates a campaign exactly when its request is older
      than the days allowed and it is still QUEUED or SUBMITTED, with one
      ESCALATE job for each. */
  lemma {:induction false} PassEscalatesExactlyLate(cfg: Config, trace: seq<Step>, users: seq<nat>)
    requires Passes.ServesAll(StateAfter(cfg, trace).campaigns, users)
    ensures var st := StateAfter(cfg, trace);
            var after := Exec(cfg, st, Passes.PassSteps(users, |st.campaigns|));
      && |after.campaigns| == |st.campaigns|
      && (forall c | 0 <= c < |st.campaigns| :: EscalatedIfLate(cfg, st, after, c))
      && CountIf(after.jobs, Passes.IsEscalation()) == CountIf(st.jobs, Passes.IsEscalation()) + CountIf(st.campaigns, LateAt(cfg, st.now))
  {
    var st := StateAfter(cfg, trace);
    Passes.PassEscalatesExactlyOverdue(cfg, trace, users);
    var after := Exec(cfg, st, Passes.PassSteps(users, |st.campaigns|));
    forall c | 0 <= c < |st.campaigns|
      ensures EscalatedIfLate(cfg, st, after, c)
      ensures Passes.OverdueAt(st.now)(st.campaigns[c]) <==> LateAt(cfg, st.now)(st.campaigns[c])
    {
      DatesDecide(cfg, trace, c);
      assert Passes.EscalatedIfOverdue(st, after, c);
    }
    CountSame(st.campaigns, st.campaigns, Passes.OverdueAt(st.now), LateAt(cfg, st.now));
  }

  /** In every run a pass queues one VERIFY job for a campaign exactly when it is
      SUBMITTED and its last submission is at least the verify interval old. */
  lemma {:induction false} PassVerifiesExactlySubmitted(cfg: Config, trace: seq<Step>, users: seq<nat>, c: nat)
    requires Passes.DistinctUsers(users) && Passes.ServesAll(StateAfter(cfg, trace).campaigns, users)
    requires c < |StateAfter(cfg, trace).campaigns|
    ensures var st := StateAfter(cfg, trace);
            var submitted := LastSubmitted(CompletionsIn(cfg, trace, c));
            var due := st.campaigns[c].status == CampaignStatus.Submitted && submitted.Some?
                       && st.now - submitted.value >= cfg.verifyDays * 86_400;
      Passes.Verifications(Exec(cfg, st, Passes.PassSteps(users, |st.campaigns|)), c)
        == Passes.Verifications(st, c) + if due then 1 else 0
  {
    DatesDecide(cfg, trace, c);
    RowTellsHistory(cfg, trace, c);
    Passes.PassVerifiesExactlyDue(cfg, StateAfter(cfg, trace), users, c);
  }
}
