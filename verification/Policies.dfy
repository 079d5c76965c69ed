/** Plan entitlements (core/entitlements.py). */
module Entitlements {
  import opened Records

  const UNLIMITED := -1

  datatype Entitlement = Entitlement(plan: string, maxSendsPerDay: int)

  const FREE := Entitlement("free", 20)
  const PRO := Entitlement("pro", 1000)
  const FAMILY := Entitlement("family", 3000)
  const ADMIN := Entitlement("admin", UNLIMITED)

  /** Staff are unlimited; an unknown user or plan gets the free plan. */
  function EntitlementsOf(accounts: map<nat, Account>, user: nat): Entitlement {
    if user !in accounts then FREE
    else if accounts[user].isStaff then ADMIN
    else if accounts[user].plan == "pro" then PRO
    else if accounts[user].plan == "family" then FAMILY
    else FREE
  }

  /** Nobody but staff is unlimited; everyone else may send something each day. */
  lemma {:induction false} OnlyStaffAreUnlimited(accounts: map<nat, Account>, user: nat)
    ensures var cap := EntitlementsOf(accounts, user).maxSendsPerDay;
      && (cap == UNLIMITED <==> user in accounts && accounts[user].isStaff)
      && (cap != UNLIMITED ==> 20 <= cap <= 3000)
  {
    var plan := if user in accounts then accounts[user].plan else "";
    assert plan == "pro" || plan == "family" || (plan != "pro" && plan != "family");
  }
}

/** Choosing the removal channel (core/agent/planner.py). */
module Planner {
  import opened Prelude
  import opened Records

  function ChooseChannel(broker: Option<Broker>): Channel {
    if broker.None? then Manual
    else
      var b := broker.value;
      if (b.removalMethod == "email" || b.removalMethod == "both") && b.optOutEmail != "" then Email
      else if (b.removalMethod == "web_form" || b.removalMethod == "both") && b.hasFormConfig then WebForm
      else Manual
  }
}

/** When a campaign is due for a check (core/agent/verifier.py). */
module Verifier {
  import opened Prelude
  import opened Records

  predicate AwaitsBroker(s: CampaignStatus) {
    s == CampaignStatus.Submitted || s == CampaignStatus.AwaitingResponse
    || s == CampaignStatus.Running || s == CampaignStatus.Queued
  }

  predicate IsOverdue(c: Campaign, now: int) {
    c.deadlineAt < now && AwaitsBroker(c.status)
  }

  /** Submitted campaigns are checked again after the verify interval. */
  predicate NeedsVerification(c: Campaign, verifyDays: int, now: int) {
    var anchor := if c.submittedAt.Some? then c.submittedAt.value
                  else if c.completedAt.Some? then c.completedAt.value else c.createdAt;
    && (c.status == CampaignStatus.Submitted || c.status == CampaignStatus.AwaitingResponse
        || c.status == CampaignStatus.Removed)
    && now - anchor >= verifyDays * DAY
  }
}

/** Search-engine de-listing (core/services/deindex.py). */
module Deindexing {
  import opened Records

  predicate ShouldDeindex(e: Exposure) {
    e.url != "" && (e.kind == "search_result" || e.kind == "people_search" || e.kind == "public_record")
  }
}
