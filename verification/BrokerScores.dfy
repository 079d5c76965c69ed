/** What the modelled steps make of broker scores: the removal state machine
    and the compliance score taken together. */
module BrokerScores {
  import opened Prelude
  import opened Records
  import opened Sentinel
  import opened StatusInvariant
  import opened Compliance

  function OutcomeOf(c: Campaign): Outcome {
    Outcome(c.status, Some(c.createdAt), c.completedAt)
  }

  /** The campaigns that a broker's score is computed from. */
  function OutcomesFor(campaigns: seq<Campaign>, brokerId: string): seq<Outcome> {
    if campaigns == [] then []
    else
      var n := |campaigns| - 1;
      OutcomesFor(campaigns[..n], brokerId) + if campaigns[n].brokerId == brokerId then [OutcomeOf(campaigns[n])] else []
  }

  /** A status that some step of the agent sets. */
  predicate IsOpen(c: Outcome) {
    c.status in {CampaignStatus.Queued, CampaignStatus.Submitted, CampaignStatus.Escalated}
  }

  ghost predicate AllOpen(cs: seq<Outcome>) {
    forall i | 0 <= i < |cs| :: IsOpen(cs[i])
  }

  lemma {:induction false} OutcomesAreOpen(campaigns: seq<Campaign>, brokerId: string)
    requires forall c | 0 <= c < |campaigns| :: IsOpen(OutcomeOf(campaigns[c]))
    ensures AllOpen(OutcomesFor(campaigns, brokerId))
  {
    if campaigns != [] {
      OutcomesAreOpen(campaigns[..|campaigns| - 1], brokerId);
    }
  }

  lemma {:induction false} OpenCampaignsScoreNothing(cs: seq<Outcome>)
    requires cs != [] && AllOpen(cs)
    ensures Share(cs, IsRemoved()) == 0.0 && Durations(cs) == [] && Clamp(RawScore(cs)) == 0.0
  {
    CountNone(cs, IsRemoved());
    CountNone(cs, IsTimed());
    CountNone(cs, HasStatus(CampaignStatus.Failed));
    assert Durations(cs) == [];
  }

  /** In every run every broker with a campaign has score 0 and removal rate 0:
      no step marks a campaign REMOVED or VERIFIED. */
  lemma {:induction false} EveryBrokerScoresZero(cfg: Config, trace: seq<Step>, brokerId: string)
    requires OutcomesFor(StateAfter(cfg, trace).campaigns, brokerId) != []
    ensures var cs := OutcomesFor(StateAfter(cfg, trace).campaigns, brokerId);
      Share(cs, IsRemoved()) == 0.0 && Clamp(RawScore(cs)) == 0.0
  {
    var campaigns := StateAfter(cfg, trace).campaigns;
    StatusesAlwaysPaired(cfg, trace);
    forall c | 0 <= c < |campaigns| ensures IsOpen(OutcomeOf(campaigns[c])) {
      assert CampaignPaired(StateAfter(cfg, trace), campaigns[c]);
    }
    OutcomesAreOpen(campaigns, brokerId);
    OpenCampaignsScoreNothing(OutcomesFor(campaigns, brokerId));
  }
}
