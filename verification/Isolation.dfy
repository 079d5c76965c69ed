/** What a user does touches nobody else's rows. */
module Isolation {
  import opened Prelude
  import opened Records
  import opened Sentinel
  import opened StatusInvariant
  import Openings
  import Histories

  /** The user on whose behalf a step is taken. */
  function ActorOf(step: Step): Option<nat> {
    match step
    case Persist(user, _, _) => Some(user)
    case QueueRemoval(user, _, _, _, _) => Some(user)
    case Dismiss(user, _) => Some(user)
    case Claim(user, _) => Some(user)
    case Complete(user, _, _, _) => Some(user)
    case Fail(user, _) => Some(user)
    case VerifyCampaign(user, _) => Some(user)
    case EscalateCampaign(user, _) => Some(user)
    case CreateWatchlist(user, _, _, _) => Some(user)
    case EditWatchlist(user, _, _, _, _) => Some(user)
    case _ => None
  }

  ghost predicate ExposuresKept(st: State, after: State, user: nat) {
    && |st.exposures| <= |after.exposures|
    && (forall e | 0 <= e < |st.exposures| && st.exposures[e].user != user :: after.exposures[e] == st.exposures[e])
    && (forall e | |st.exposures| <= e < |after.exposures| :: after.exposures[e].user == user)
  }

  ghost predicate CampaignsKept(st: State, after: State, user: nat) {
    && |st.campaigns| <= |after.campaigns|
    && (forall c | 0 <= c < |st.campaigns| && st.campaigns[c].user != user :: after.campaigns[c] == st.campaigns[c])
    && (forall c | |st.campaigns| <= c < |after.campaigns| :: after.campaigns[c].user == user)
  }

  ghost predicate JobsKept(st: State, after: State, user: nat) {
    && |st.jobs| <= |after.jobs|
    && (forall j | 0 <= j < |st.jobs| && st.jobs[j].user != user :: after.jobs[j] == st.jobs[j])
    && (forall j | |st.jobs| <= j < |after.jobs| :: after.jobs[j].user == user)
  }

  ghost predicate WatchlistsKept(st: State, after: State, user: nat) {
    && |st.watchlists| <= |after.watchlists|
    && (forall w | 0 <= w < |st.watchlists| && st.watchlists[w].user != user :: after.watchlists[w] == st.watchlists[w])
    && (forall w | |st.watchlists| <= w < |after.watchlists| :: after.watchlists[w].user == user)
  }

  /** Other users' rows stay as they are, and new rows are the user's own. */
  ghost predicate OthersKept(st: State, after: State, user: nat) {
    ExposuresKept(st, after, user) && CampaignsKept(st, after, user) && JobsKept(st, after, user) && WatchlistsKept(st, after, user)
  }

  lemma {:induction false} RemovalIsOwn(cfg: Config, st: State, step: Step)
    requires step.QueueRemoval?
    ensures OthersKept(st, Apply(cfg, st, step), step.user)
  {
    OpenedRow(cfg, st, step.user, step.exposure, step.broker, step.jurisdiction, step.uuid);
    OpeningIsOwn(st, step);
    ApplyRemoval(cfg, st, step);
  }

  lemma {:induction false} OpeningIsOwn(st: State, step: Step)
    requires step.QueueRemoval?
    ensures step.exposure < |st.exposures| ==>
      forall i | 0 <= i < |OpeningJobs(st, step.user, step.exposure, step.broker)| ::
        OpeningJobs(st, step.user, step.exposure, step.broker)[i].user == step.user
  {
  }

  lemma {:induction false} CompletionIsOwn(cfg: Config, st: State, step: Step)
    requires References(st) && step.Complete?
    ensures OthersKept(st, Apply(cfg, st, step), step.user)
  {
    if OwnsJob(st, step.user, step.job) && st.jobs[step.job].campaign.Some? {
      var c := st.jobs[step.job].campaign.value;
      assert JobRefers(st, st.jobs[step.job]) && CampaignRefers(st, st.campaigns[c]);
      var x := Histories.CompletionBy(st, step);
      var row := CompletedCampaign(cfg, st.campaigns[c], x.at, x.jobType, x.confirmation, x.result);
      CompletedRow(cfg, st.campaigns[c], x.at, x.jobType, x.confirmation, x.result);
      CompletedRowsAreOwn(st, step.user, step.job, CompletedJob(st.jobs[step.job], step.result), c, row);
    }
  }

  lemma {:induction false} CompletedRowsAreOwn(st: State, user: nat, j: nat, job: Job, c: nat, row: Campaign)
    requires j < |st.jobs| && st.jobs[j].user == user && c < |st.campaigns| && st.campaigns[c].user == user
    requires CampaignRefers(st, st.campaigns[c]) && SameCampaign(st.campaigns[c], row)
    ensures OthersKept(st, WithCompletion(st, j, job, c, row), user)
  {
  }

  lemma {:induction false} EscalationIsOwn(st: State, user: nat, c: nat)
    requires References(st)
    ensures OthersKept(st, AfterEscalate(st, user, c), user)
  {
    assert c < |st.campaigns| ==> CampaignRefers(st, st.campaigns[c]);
  }

  lemma {:induction false} PlainStepIsOwn(cfg: Config, st: State, step: Step)
    requires ActorOf(step).Some? && !step.QueueRemoval? && !step.Complete? && !step.EscalateCampaign?
    ensures OthersKept(st, Apply(cfg, st, step), ActorOf(step).value)
  {
  }

  /** In every run a step on behalf of a user changes no other user's exposure,
      campaign, job or watchlist, and adds only rows of that user. */
  lemma {:induction false} StepsTouchOwnRows(cfg: Config, trace: seq<Step>, step: Step)
    requires ActorOf(step).Some?
    ensures OthersKept(StateAfter(cfg, trace), StateAfter(cfg, trace + [step]), ActorOf(step).value)
  {
    StatusesAlwaysPaired(cfg, trace);
    ExecLast(cfg, EMPTY, trace, step);
    var st := StateAfter(cfg, trace);
    if step.QueueRemoval? {
      RemovalIsOwn(cfg, st, step);
    } else if step.Complete? {
      CompletionIsOwn(cfg, st, step);
    } else if step.EscalateCampaign? {
      EscalationIsOwn(st, step.user, step.campaign);
    } else {
      PlainStepIsOwn(cfg, st, step);
    }
  }
}
