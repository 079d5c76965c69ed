/** Runs that show how far the counts of `Bounds` reach: neither attempts nor
    escalations have a limit, and two monitors of a watchlist can be live. */
module Witnesses {
  import opened Prelude
  import opened Records
  import opened Verifier
  import opened Sentinel
  import opened StatusInvariant
  import opened ReceiptInvariant
  import opened Bounds
  import opened ExposureInvariant

  /** A user's first finding and its removal. */
  function Opening(): seq<Step> {
    [Persist(0, LEAK, false)] + [QueueRemoval(0, 0, None, "", "c")]
  }

  /** A run ends in a state, and so many of its steps satisfied p. */
  ghost predicate Reaches(cfg: Config, trace: seq<Step>, p: (State, Step) -> bool, st: State, count: nat) {
    StateAfter(cfg, trace) == st && CountSteps(cfg, trace, p) == count
  }

  lemma {:induction false} OneMore(cfg: Config, trace: seq<Step>, p: (State, Step) -> bool, st: State, count: nat,
                                   step: Step, after: State)
    requires Reaches(cfg, trace, p, st, count) && after == Apply(cfg, st, step)
    ensures Reaches(cfg, trace + [step], p, after, count + if p(st, step) then 1 else 0)
  {
    assert (trace + [step])[..|trace|] == trace;
  }

  lemma {:induction false} TwoMore(cfg: Config, trace: seq<Step>, p: (State, Step) -> bool, st: State, count: nat,
                                   a: Step, mid: State, b: Step, after: State)
    requires Reaches(cfg, trace, p, st, count) && mid == Apply(cfg, st, a) && after == Apply(cfg, mid, b)
    ensures Reaches(cfg, trace + [a] + [b], p, after,
                    count + (if p(st, a) then 1 else 0) + if p(mid, b) then 1 else 0)
  {
    OneMore(cfg, trace, p, st, count, a, mid);
    OneMore(cfg, trace + [a], p, mid, count + if p(st, a) then 1 else 0, b, after);
  }

  /** A campaign with one SEND_EMAIL job of the same user. */
  predicate HasSend(st: State) {
    && |st.exposures| == |st.campaigns| == 1 && st.jobs != []
    && st.campaigns[0].user == 0 && st.campaigns[0].exposure == 0
    && st.jobs[0].user == 0 && st.jobs[0].campaign == Some(0) && st.jobs[0].jobType == SendEmail
  }

  lemma {:induction false} FirstRemoval(cfg: Config, st: State)
    requires st.now == 0 && st.accounts == map[] && st.campaigns == [] && st.jobs == []
    requires |st.exposures| == 1 && st.exposures[0].user == 0
    ensures var after := AfterQueueRemoval(cfg, st, 0, 0, None, "", "c");
      && HasSend(after) && after.now == 0 && after.jobs[0].status == JobStatus.Queued && after.jobs[0].attempts == 0
      && after.campaigns[0].status == CampaignStatus.Queued && after.campaigns[0].deadlineAt == cfg.deadlineDays * DAY
  {
    OpenedRow(cfg, st, 0, 0, None, "", "c");
    assert MaySend(st, 0);
  }

  lemma {:induction false} FirstFinding(cfg: Config)
    ensures var found := AfterPersist(cfg, EMPTY, 0, LEAK, false);
      && found == Apply(cfg, EMPTY, Persist(0, LEAK, false))
      && found.now == 0 && found.accounts == map[] && found.campaigns == [] && found.jobs == []
      && |found.exposures| == 1 && found.exposures[0].user == 0
  {
    assert HitOf(cfg, [], 0, LEAK) == 0;
    assert EMPTY.exposures == [];
  }

  lemma {:induction false} AfterOpening(cfg: Config, p: (State, Step) -> bool) returns (st: State)
    requires forall st: State, step: Step | step.Persist? || step.QueueRemoval? :: !p(st, step)
    ensures Reaches(cfg, Opening(), p, st, 0)
    ensures HasSend(st) && st.now == 0 && st.jobs[0].status == JobStatus.Queued && st.jobs[0].attempts == 0
    ensures st.campaigns[0].status == CampaignStatus.Queued && st.campaigns[0].deadlineAt == cfg.deadlineDays * DAY
  {
    var found := AfterPersist(cfg, EMPTY, 0, LEAK, false);
    st := AfterQueueRemoval(cfg, found, 0, 0, None, "", "c");
    FirstFinding(cfg);
    ApplyRemoval(cfg, found, QueueRemoval(0, 0, None, "", "c"));
    FirstRemoval(cfg, found);
    TwoMore(cfg, [], p, EMPTY, 0, Persist(0, LEAK, false), found, QueueRemoval(0, 0, None, "", "c"), st);
    assert [] + [Persist(0, LEAK, false)] == [Persist(0, LEAK, false)];
  }

  // ------------------------------------------------------------- rounds

  /** A run, and then two steps over and over. */
  function Again(trace: seq<Step>, a: Step, b: Step, k: nat): seq<Step> {
    if k == 0 then trace else Again(trace, a, b, k - 1) + [a] + [b]
  }

  /** The first step counts and leads from a good state half-way. */
  ghost predicate GoesHalfWay(cfg: Config, p: (State, Step) -> bool, a: Step, good: (State, nat) -> bool, half: (State, nat) -> bool) {
    forall st, n: nat {:trigger half(Apply(cfg, st, a), n)} :: good(st, n) ==> p(st, a) && half(Apply(cfg, st, a), n)
  }

  /** The second step does not count and leads to the next good state. */
  ghost predicate ComesRound(cfg: Config, p: (State, Step) -> bool, b: Step, good: (State, nat) -> bool, half: (State, nat) -> bool) {
    forall st, n: nat {:trigger good(Apply(cfg, st, b), n)} ::
      n > 0 && half(st, n - 1) ==> !p(st, b) && good(Apply(cfg, st, b), n)
  }

  lemma {:induction false} RoundsGoOn(cfg: Config, trace: seq<Step>, p: (State, Step) -> bool, a: Step, b: Step,
                                      good: (State, nat) -> bool, half: (State, nat) -> bool, st: State, k: nat)
    returns (last: State)
    requires GoesHalfWay(cfg, p, a, good, half) && ComesRound(cfg, p, b, good, half)
    requires Reaches(cfg, trace, p, st, 0) && good(st, 0)
    ensures Reaches(cfg, Again(trace, a, b, k), p, last, k) && good(last, k)
  {
    if k == 0 {
      last := st;
    } else {
      var before := RoundsGoOn(cfg, trace, p, a, b, good, half, st, k - 1);
      var mid := Apply(cfg, before, a);
      assert half(Apply(cfg, before, a), k - 1);
      last := Apply(cfg, mid, b);
      assert good(Apply(cfg, mid, b), k);
      TwoMore(cfg, Again(trace, a, b, k - 1), p, before, k - 1, a, mid, b, last);
    }
  }

  // ------------------------------------------------------------- attempts

  /** The job is claimed, and then failed and claimed again k times. */
  function Retries(k: nat): seq<Step> {
    Again(Opening() + [Claim(0, 0)], Fail(0, 0), Claim(0, 0), k)
  }

  /** The job is claimed, after n failures. */
  function RetriedTimes(): (State, nat) -> bool {
    (st: State, n: nat) => HasSend(st) && st.jobs[0].status == JobStatus.Claimed && st.jobs[0].attempts == n + 1
  }

  /** It has just failed. */
  function FailedTimes(): (State, nat) -> bool {
    (st: State, n: nat) => HasSend(st) && st.jobs[0].status == JobStatus.Failed && st.jobs[0].attempts == n + 1
  }

  lemma {:induction false} RetriesGoRound(cfg: Config)
    ensures GoesHalfWay(cfg, FailuresOf(0), Fail(0, 0), RetriedTimes(), FailedTimes())
    ensures ComesRound(cfg, FailuresOf(0), Claim(0, 0), RetriedTimes(), FailedTimes())
  {
  }

  lemma {:induction false} FirstAttempt(cfg: Config, start: State, step: Step)
    requires HasSend(start) && start.jobs[0].status == JobStatus.Queued && start.jobs[0].attempts == 0
    requires step == Claim(0, 0)
    ensures RetriedTimes()(Apply(cfg, start, step), 0) && !FailuresOf(0)(start, step)
  {
  }

  lemma {:induction false} FirstClaim(cfg: Config, step: Step) returns (st: State)
    requires step == Claim(0, 0)
    ensures Reaches(cfg, Opening() + [step], FailuresOf(0), st, 0) && RetriedTimes()(st, 0)
  {
    var start := AfterOpening(cfg, FailuresOf(0));
    st := Apply(cfg, start, step);
    FirstAttempt(cfg, start, step);
    OneMore(cfg, Opening(), FailuresOf(0), start, 0, step, st);
  }

  /** After k failures a job can have k + 1 attempts, for any k. */
  lemma {:induction false} AttemptsHaveNoLimit(cfg: Config, k: nat)
    ensures var st := StateAfter(cfg, Retries(k));
      st.jobs != [] && st.jobs[0].attempts == k + 1
    ensures CountSteps(cfg, Retries(k), FailuresOf(0)) == k
  {
    var claimed := FirstClaim(cfg, Claim(0, 0));
    RetriesGoRound(cfg);
    var st := RoundsGoOn(cfg, Opening() + [Claim(0, 0)], FailuresOf(0), Fail(0, 0), Claim(0, 0),
                         RetriedTimes(), FailedTimes(), claimed, k);
  }

  // ------------------------------------------------------------- escalations

  function UntilOverdue(cfg: Config): nat {
    Max(cfg.deadlineDays * DAY, 0) + 1
  }

  /** The removal is requested and escalated once it is late. */
  function FirstEscalation(cfg: Config): seq<Step> {
    Opening() + [Advance(UntilOverdue(cfg))] + [EscalateCampaign(0, 0)]
  }

  /** And then completed and escalated again k times. */
  function Rounds(cfg: Config, k: nat): seq<Step> {
    Again(FirstEscalation(cfg), Complete(0, 0, "", ""), EscalateCampaign(0, 0), k)
  }

  predicate Late(st: State) {
    HasSend(st) && st.campaigns[0].deadlineAt < st.now
  }

  function EscalatedLate(): (State, nat) -> bool {
    (st: State, n: nat) => Late(st) && st.campaigns[0].status == CampaignStatus.Escalated
  }

  function SubmittedLate(): (State, nat) -> bool {
    (st: State, n: nat) => Late(st) && st.campaigns[0].status == CampaignStatus.Submitted
  }

  lemma {:induction false} LateCampaignEscalates(st: State, n: nat)
    requires Late(st) && AwaitsBroker(st.campaigns[0].status)
    ensures EscalatedLate()(AfterEscalate(st, 0, 0), n)
  {
  }

  lemma {:induction false} LateAfterCompletion(st: State, job: Job, row: Campaign)
    requires Late(st) && SameJob(st.jobs[0], job) && SameCampaign(st.campaigns[0], row)
    requires row.deadlineAt == st.campaigns[0].deadlineAt
    ensures Late(WithCompletion(st, 0, job, 0, row))
  {
  }

  lemma {:induction false} CompletionIs(cfg: Config, st: State, step: Step)
    requires Late(st) && step == Complete(0, 0, "", "")
    ensures var job := CompletedJob(st.jobs[0], "");
      Apply(cfg, st, step)
        == WithCompletion(st, 0, job, 0, CompletedCampaign(cfg, st.campaigns[0], st.now, SendEmail, "", job.result))
  {
    ApplyComplete(cfg, st, step);
    FirstCompletion(cfg, st);
  }

  lemma {:induction false} FirstCompletion(cfg: Config, st: State)
    requires Late(st)
    ensures var job := CompletedJob(st.jobs[0], "");
      AfterComplete(cfg, st, 0, 0, "", "")
        == WithCompletion(st, 0, job, 0, CompletedCampaign(cfg, st.campaigns[0], st.now, SendEmail, "", job.result))
  {
  }

  lemma {:induction false} CompletionSubmits(cfg: Config, st: State, step: Step)
    requires Late(st) && step == Complete(0, 0, "", "")
    ensures var after := Apply(cfg, st, step);
      Late(after) && after.campaigns[0].status == CampaignStatus.Submitted
  {
    var job := CompletedJob(st.jobs[0], "");
    CompletionIs(cfg, st, step);
    CompletedRow(cfg, st.campaigns[0], st.now, SendEmail, "", job.result);
    LateAfterCompletion(st, job, CompletedCampaign(cfg, st.campaigns[0], st.now, SendEmail, "", job.result));
  }

  lemma {:induction false} RoundsGoHalfWay(cfg: Config, step: Step)
    requires step == Complete(0, 0, "", "")
    ensures GoesHalfWay(cfg, ReopeningsOf(0), step, EscalatedLate(), SubmittedLate())
  {
    forall st, n: nat | EscalatedLate()(st, n)
      ensures ReopeningsOf(0)(st, step) && SubmittedLate()(Apply(cfg, st, step), n)
    {
      CompletionSubmits(cfg, st, step);
    }
  }

  lemma {:induction false} RoundsComeRound(cfg: Config, step: Step)
    requires step == EscalateCampaign(0, 0)
    ensures ComesRound(cfg, ReopeningsOf(0), step, EscalatedLate(), SubmittedLate())
  {
    forall st, n: nat | n > 0 && SubmittedLate()(st, n - 1)
      ensures !ReopeningsOf(0)(st, step) && EscalatedLate()(Apply(cfg, st, step), n)
    {
      LateCampaignEscalates(st, n);
    }
  }

  lemma {:induction false} FirstWait(cfg: Config, start: State, wait: Step, escalate: Step)
    requires wait == Advance(UntilOverdue(cfg)) && escalate == EscalateCampaign(0, 0)
    requires HasSend(start) && start.now == 0 && start.campaigns[0].status == CampaignStatus.Queued
    requires start.campaigns[0].deadlineAt == cfg.deadlineDays * DAY
    ensures var late := Apply(cfg, start, wait);
      && EscalatedLate()(Apply(cfg, late, escalate), 0)
      && !ReopeningsOf(0)(start, wait) && !ReopeningsOf(0)(late, escalate)
  {
    LateCampaignEscalates(Apply(cfg, start, wait), 0);
  }

  lemma {:induction false} FirstRound(cfg: Config, wait: Step, escalate: Step) returns (st: State)
    requires wait == Advance(UntilOverdue(cfg)) && escalate == EscalateCampaign(0, 0)
    ensures Reaches(cfg, Opening() + [wait] + [escalate], ReopeningsOf(0), st, 0) && EscalatedLate()(st, 0)
  {
    var start := AfterOpening(cfg, ReopeningsOf(0));
    var late := Apply(cfg, start, wait);
    st := Apply(cfg, late, escalate);
    FirstWait(cfg, start, wait, escalate);
    TwoMore(cfg, Opening(), ReopeningsOf(0), start, 0, wait, late, escalate, st);
  }

  lemma {:induction false} RoundsReopen(cfg: Config, k: nat) returns (st: State)
    ensures Reaches(cfg, Rounds(cfg, k), ReopeningsOf(0), st, k) && EscalatedLate()(st, k)
  {
    var first := FirstRound(cfg, Advance(UntilOverdue(cfg)), EscalateCampaign(0, 0));
    RoundsGoHalfWay(cfg, Complete(0, 0, "", ""));
    RoundsComeRound(cfg, EscalateCampaign(0, 0));
    st := RoundsGoOn(cfg, FirstEscalation(cfg), ReopeningsOf(0), Complete(0, 0, "", ""), EscalateCampaign(0, 0),
                     EscalatedLate(), SubmittedLate(), first, k);
  }

  /** After k completions a campaign can have k + 1 escalations, for any k. */
  lemma {:induction false} EscalationsHaveNoLimit(cfg: Config, k: nat)
    ensures CountIf(StateAfter(cfg, Rounds(cfg, k)).jobs, JobsOf(0, Escalate)) == k + 1
    ensures CountSteps(cfg, Rounds(cfg, k), ReopeningsOf(0)) == k
  {
    var st := RoundsReopen(cfg, k);
    EscalationsAreExact(cfg, Rounds(cfg, k), 0);
  }

  // ------------------------------------------------------------- monitors

  function OneTick(): seq<Step> {
    [CreateWatchlist(0, "w", true, 1)] + [Reschedule(0)] + [Advance(HOUR)] + [QueueMonitor(0)]
  }

  function OneFailure(): seq<Step> {
    OneTick() + [Claim(0, 0)] + [Fail(0, 0)] + [Advance(HOUR)]
  }

  /** A watchlist comes due twice; its first job has failed by then, and is
      claimed again after the second one is queued. */
  function TwoTicks(): seq<Step> {
    OneFailure() + [QueueMonitor(0)] + [Claim(0, 0)]
  }

  /** A due time in hours, and the one watchlist that has it. */
  function Watched(hours: nat): Watchlist {
    Watchlist(0, "w", true, 1, Some(0), Some(hours * HOUR))
  }

  function MonitorJob(hours: nat, status: JobStatus, attempts: nat): Job {
    Job(0, Monitor, None, Some(0), status, attempts, hours * HOUR, "")
  }

  function Watching(hours: nat, due: nat, jobs: seq<Job>): State {
    State(hours * HOUR, map[], [], [], jobs, [Watched(due)], [])
  }

  lemma {:induction false} FirstTick(cfg: Config)
    ensures var made := EMPTY.(watchlists := [Watchlist(0, "w", true, 1, None, None)]);
      && Apply(cfg, EMPTY, CreateWatchlist(0, "w", true, 1)) == made
      && Apply(cfg, made, Reschedule(0)) == Watching(0, 1, [])
    ensures Apply(cfg, Watching(0, 1, []), Advance(HOUR)) == Watching(1, 1, [])
    ensures Apply(cfg, Watching(1, 1, []), QueueMonitor(0)) == Watching(1, 2, [MonitorJob(1, JobStatus.Queued, 0)])
  {
  }

  lemma {:induction false} FailedInBetween(cfg: Config)
    ensures Apply(cfg, Watching(1, 2, [MonitorJob(1, JobStatus.Queued, 0)]), Claim(0, 0))
      == Watching(1, 2, [MonitorJob(1, JobStatus.Claimed, 1)])
    ensures Apply(cfg, Watching(1, 2, [MonitorJob(1, JobStatus.Claimed, 1)]), Fail(0, 0))
      == Watching(1, 2, [MonitorJob(1, JobStatus.Failed, 1)])
    ensures Apply(cfg, Watching(1, 2, [MonitorJob(1, JobStatus.Failed, 1)]), Advance(HOUR))
      == Watching(2, 2, [MonitorJob(1, JobStatus.Failed, 1)])
  {
  }

  lemma {:induction false} SecondTick(cfg: Config)
    ensures var queued := [MonitorJob(1, JobStatus.Failed, 1), MonitorJob(2, JobStatus.Queued, 0)];
      && Apply(cfg, Watching(2, 2, [MonitorJob(1, JobStatus.Failed, 1)]), QueueMonitor(0)) == Watching(2, 3, queued)
      && Apply(cfg, Watching(2, 3, queued), Claim(0, 0))
           == Watching(2, 3, [MonitorJob(1, JobStatus.Claimed, 2), MonitorJob(2, JobStatus.Queued, 0)])
  {
    var failed := MonitorJob(1, JobStatus.Failed, 1);
    assert CountIf([failed], LiveMonitor(0)) == 0;
    assert [failed] + [MonitorJob(2, JobStatus.Queued, 0)] == [failed, MonitorJob(2, JobStatus.Queued, 0)];
  }

  lemma {:induction false} AfterOneTick(cfg: Config) returns (st: State)
    ensures st == Watching(1, 2, [MonitorJob(1, JobStatus.Queued, 0)])
    ensures Reaches(cfg, OneTick(), DoublingsOf(0), st, 0)
  {
    var p := DoublingsOf(0);
    var made := EMPTY.(watchlists := [Watchlist(0, "w", true, 1, None, None)]);
    st := Watching(1, 2, [MonitorJob(1, JobStatus.Queued, 0)]);
    FirstTick(cfg);
    TwoMore(cfg, [], p, EMPTY, 0, CreateWatchlist(0, "w", true, 1), made, Reschedule(0), Watching(0, 1, []));
    var first := [CreateWatchlist(0, "w", true, 1)] + [Reschedule(0)];
    assert [] + [CreateWatchlist(0, "w", true, 1)] + [Reschedule(0)] == first;
    TwoMore(cfg, first, p, Watching(0, 1, []), 0, Advance(HOUR), Watching(1, 1, []), QueueMonitor(0), st);
  }

  lemma {:induction false} AfterOneFailure(cfg: Config) returns (st: State)
    ensures st == Watching(2, 2, [MonitorJob(1, JobStatus.Failed, 1)])
    ensures Reaches(cfg, OneFailure(), DoublingsOf(0), st, 0)
  {
    var p := DoublingsOf(0);
    var queued := AfterOneTick(cfg);
    var claimed := Watching(1, 2, [MonitorJob(1, JobStatus.Claimed, 1)]);
    var failed := Watching(1, 2, [MonitorJob(1, JobStatus.Failed, 1)]);
    st := Watching(2, 2, [MonitorJob(1, JobStatus.Failed, 1)]);
    FailedInBetween(cfg);
    TwoMore(cfg, OneTick(), p, queued, 0, Claim(0, 0), claimed, Fail(0, 0), failed);
    OneMore(cfg, OneTick() + [Claim(0, 0)] + [Fail(0, 0)], p, failed, 0, Advance(HOUR), st);
  }

  lemma {:induction false} CountOfTwo<T>(a: T, b: T, p: T -> bool)
    ensures CountIf([a, b], p) == (if p(a) then 1 else 0) + (if p(b) then 1 else 0)
  {
    assert [a, b] == [] + [a] + [b];
    CountAppend([], a, p);
    CountAppend([] + [a], b, p);
  }

  lemma {:induction false} BothAreLive(st: State, after: State)
    requires st == Watching(2, 3, [MonitorJob(1, JobStatus.Failed, 1), MonitorJob(2, JobStatus.Queued, 0)])
    requires after == Watching(2, 3, [MonitorJob(1, JobStatus.Claimed, 2), MonitorJob(2, JobStatus.Queued, 0)])
    ensures Doubles(st, Claim(0, 0), 0) && CountIf(after.jobs, LiveMonitor(0)) == 2
  {
    CountOfTwo(MonitorJob(1, JobStatus.Failed, 1), MonitorJob(2, JobStatus.Queued, 0), LiveMonitor(0));
    CountOfTwo(MonitorJob(1, JobStatus.Claimed, 2), MonitorJob(2, JobStatus.Queued, 0), LiveMonitor(0));
  }

  /** Two MONITOR jobs of one watchlist can be live at once, after one such claim. */
  lemma {:induction false} TwoMonitorsCanBeLive(cfg: Config)
    ensures CountIf(StateAfter(cfg, TwoTicks()).jobs, LiveMonitor(0)) == 2
    ensures CountSteps(cfg, TwoTicks(), DoublingsOf(0)) == 1
  {
    var failed := AfterOneFailure(cfg);
    var queued := Watching(2, 3, [MonitorJob(1, JobStatus.Failed, 1), MonitorJob(2, JobStatus.Queued, 0)]);
    var both := Watching(2, 3, [MonitorJob(1, JobStatus.Claimed, 2), MonitorJob(2, JobStatus.Queued, 0)]);
    SecondTick(cfg);
    BothAreLive(queued, both);
    TwoMore(cfg, OneFailure(), DoublingsOf(0), failed, 0, QueueMonitor(0), queued, Claim(0, 0), both);
  }
}
