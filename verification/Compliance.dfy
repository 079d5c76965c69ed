/** Broker compliance scores over removal outcomes, in exact arithmetic
    (core/services/compliance.py). */
module Compliance {
  import opened Prelude
  import opened Records

  /** What a score needs to know about one campaign of a broker. */
  datatype Outcome = Outcome(status: CampaignStatus, requestedAt: Option<int>, completedAt: Option<int>)

  // ------------------------------------------------------------- statistics

  function IsRemoved(): Outcome -> bool {
    (c: Outcome) => c.status == CampaignStatus.Removed || c.status == CampaignStatus.Verified
  }

  function HasStatus(s: CampaignStatus): Outcome -> bool {
    (c: Outcome) => c.status == s
  }

  /** A removal whose duration in whole days is known. */
  function IsTimed(): Outcome -> bool {
    (c: Outcome) => IsRemoved()(c) && c.requestedAt.Some? && c.completedAt.Some?
  }

  function Days(c: Outcome): int
    requires IsTimed()(c)
  {
    (c.completedAt.value - c.requestedAt.value) / DAY
  }

  function Durations(cs: seq<Outcome>): (days: seq<int>)
    ensures |days| == CountIf(cs, IsTimed())
  {
    if cs == [] then []
    else
      var n := |cs| - 1;
      Durations(cs[..n]) + if IsTimed()(cs[n]) then [Days(cs[n])] else []
  }

  /** The days a campaign adds to the durations. */
  function DaysOf(c: Outcome): int {
    if IsTimed()(c) then Days(c) else 0
  }

  function Sum(s: seq<int>): int {
    if s == [] then 0 else Sum(s[..|s| - 1]) + s[|s| - 1]
  }

  function Average(days: seq<int>): real
    requires days != []
  {
    Sum(days) as real / |days| as real
  }

  function Share(cs: seq<Outcome>, p: Outcome -> bool): (r: real)
    requires cs != []
    ensures 0.0 <= r <= 1.0
  {
    ShareBounds(CountIf(cs, p), |cs|);
    CountIf(cs, p) as real / |cs| as real
  }

  lemma {:induction false} ShareBounds(part: nat, total: nat)
    requires part <= total && total > 0
    ensures 0.0 <= part as real / total as real <= 1.0
  {
    var q := part as real / total as real;
    assert q * total as real == part as real;
  }

  // ------------------------------------------------------------- the score

  /** Fast removals earn ten points, slow ones cost up to twenty. */
  function SpeedPoints(days: seq<int>): real {
    if days == [] then 0.0 else SpeedOf(Average(days))
  }

  function SpeedOf(average: real): real {
    if average <= 7.0 then 10.0
    else if average <= 30.0 then 0.0
    else if average - 30.0 < 20.0 then 30.0 - average
    else -20.0
  }

  /** The points for removals, less the penalties for failures and escalations. */
  function BasePoints(cs: seq<Outcome>): real
    requires cs != []
  {
    100.0 * Share(cs, IsRemoved()) - 20.0 * Share(cs, HasStatus(CampaignStatus.Failed))
    - 25.0 * Share(cs, HasStatus(Escalated))
  }

  function RawScore(cs: seq<Outcome>): real
    requires cs != []
  {
    BasePoints(cs) + SpeedPoints(Durations(cs))
  }

  function Clamp(x: real): real {
    if x < 0.0 then 0.0 else if x > 100.0 then 100.0 else x
  }

  class ScoredBroker {
    const isActive: bool
    var complianceScore: Option<real>
    var removalRate: Option<real>
    var scoreUpdatedAt: Option<int>

    constructor (isActive: bool)
      ensures this.isActive == isActive
      ensures complianceScore == None && removalRate == None && scoreUpdatedAt == None
    {
      this.isActive := isActive;
      complianceScore, removalRate, scoreUpdatedAt := None, None, None;
    }

    /** `score_broker` */
    method Score(campaigns: seq<Outcome>, now: int) returns (r: Option<real>)
      modifies this
      ensures r == complianceScore && scoreUpdatedAt == Some(now)
      ensures campaigns == [] ==> complianceScore == None && removalRate == None
      ensures campaigns != [] ==>
        && complianceScore == Some(Clamp(RawScore(campaigns))) && 0.0 <= complianceScore.value <= 100.0
        && removalRate == Some(Share(campaigns, IsRemoved())) && 0.0 <= removalRate.value <= 1.0
    {
      scoreUpdatedAt := Some(now);
      var total := |campaigns|;
      if total == 0 {
        complianceScore, removalRate := None, None;
        return None;
      }
      var removed := CountIf(campaigns, IsRemoved());
      var failed := CountIf(campaigns, HasStatus(CampaignStatus.Failed));
      var escalated := CountIf(campaigns, HasStatus(Escalated));
      var rate := removed as real / total as real;
      var score := rate * 100.0;
      score := score - (failed as real / total as real) * 20.0;
      score := score - (escalated as real / total as real) * 25.0;
      var durations := Durations(campaigns);
      if durations != [] {
        var averageDays := Sum(durations) as real / |durations| as real;
        if averageDays <= 7.0 {
          score := score + 10.0;
        } else if averageDays > 30.0 {
          score := score - if averageDays - 30.0 < 20.0 then averageDays - 30.0 else 20.0;
        }
      }
      score := if score > 100.0 then 100.0 else score;
      score := if score < 0.0 then 0.0 else score;
      removalRate := Some(rate);
      complianceScore := Some(score);
      r := complianceScore;
    }
  }

  /** Active brokers that have a campaign at all. */
  function Scorable(brokers: seq<ScoredBroker>, campaigns: seq<seq<Outcome>>): nat
    requires |brokers| == |campaigns|
  {
    if brokers == [] then 0
    else
      var n := |brokers| - 1;
      Scorable(brokers[..n], campaigns[..n]) + if brokers[n].isActive && campaigns[n] != [] then 1 else 0
  }

  /** `recompute_all`: the number of brokers that got a score. */
  method RecomputeAll(brokers: seq<ScoredBroker>, campaigns: seq<seq<Outcome>>, now: int) returns (count: nat)
    requires |brokers| == |campaigns|
    requires forall i, j | 0 <= i < j < |brokers| :: brokers[i] != brokers[j]
    modifies brokers
    ensures count == Scorable(brokers, campaigns)
    ensures forall i | 0 <= i < |brokers| && brokers[i].isActive ::
      && brokers[i].complianceScore == (if campaigns[i] == [] then None else Some(Clamp(RawScore(campaigns[i]))))
      && brokers[i].removalRate == (if campaigns[i] == [] then None else Some(Share(campaigns[i], IsRemoved())))
      && brokers[i].scoreUpdatedAt == Some(now)
    ensures forall i | 0 <= i < |brokers| && !brokers[i].isActive :: unchanged(brokers[i])
  {
    count := 0;
    for n := 0 to |brokers|
      invariant count == Scorable(brokers[..n], campaigns[..n])
      invariant forall i | 0 <= i < n && brokers[i].isActive ::
        && brokers[i].complianceScore == (if campaigns[i] == [] then None else Some(Clamp(RawScore(campaigns[i]))))
        && brokers[i].removalRate == (if campaigns[i] == [] then None else Some(Share(campaigns[i], IsRemoved())))
        && brokers[i].scoreUpdatedAt == Some(now)
      invariant forall i | 0 <= i < |brokers| && (i >= n || !brokers[i].isActive) :: unchanged(brokers[i])
    {
      assert brokers[..n + 1][..n] == brokers[..n] && campaigns[..n + 1][..n] == campaigns[..n];
      if brokers[n].isActive {
        var score := brokers[n].Score(campaigns[n], now);
        if score.Some? {
          count := count + 1;
        }
      }
    }
    assert brokers[..|brokers|] == brokers && campaigns[..|brokers|] == campaigns;
  }

  // ------------------------------------------------------------- the formula

  /** Removed or verified, and both times are known. */
  function TimedRemoval(): Outcome -> bool {
    (c: Outcome) => c.status in {CampaignStatus.Removed, CampaignStatus.Verified} && c.requestedAt.Some? && c.completedAt.Some?
  }

  /** The whole days that the timed removals took together. */
  function TotalDays(cs: seq<Outcome>): int {
    if cs == [] then 0
    else
      var c := cs[|cs| - 1];
      TotalDays(cs[..|cs| - 1])
      + if TimedRemoval()(c) then (c.completedAt.value - c.requestedAt.value) / 86_400 else 0
  }

  lemma {:induction false} RemovedOrVerified(cs: seq<Outcome>)
    ensures CountIf(cs, IsRemoved())
      == CountIf(cs, HasStatus(CampaignStatus.Removed)) + CountIf(cs, HasStatus(CampaignStatus.Verified))
  {
    if cs != [] {
      RemovedOrVerified(cs[..|cs| - 1]);
    }
  }

  lemma {:induction false} DaysAddUp(cs: seq<Outcome>)
    ensures |Durations(cs)| == CountIf(cs, TimedRemoval()) && Sum(Durations(cs)) == TotalDays(cs)
  {
    if cs != [] {
      var n := |cs| - 1;
      DaysAddUp(cs[..n]);
      SameTimed(cs[n]);
      assert cs == cs[..n] + [cs[n]];
      LastDuration(cs[..n], cs[n]);
    }
  }

  lemma {:induction false} SameTimed(c: Outcome)
    ensures TimedRemoval()(c) <==> IsTimed()(c)
    ensures DaysOf(c) == if TimedRemoval()(c) then (c.completedAt.value - c.requestedAt.value) / 86_400 else 0
  {
    assert IsRemoved()(c) <==> c.status in {CampaignStatus.Removed, CampaignStatus.Verified};
  }

  /** 10 points up to a week on average, none up to 30 days, then one less a day
      and at most 20 less. */
  function SpeedFor(timed: nat, total: int): real {
    if timed == 0 then 0.0
    else
      var average := total as real / timed as real;
      if average <= 7.0 then 10.0
      else if average <= 30.0 then 0.0
      else if average <= 50.0 then 30.0 - average
      else -20.0
  }

  /** The score from the counts of each outcome and the days they took. */
  lemma {:induction false} ScoreFormula(cs: seq<Outcome>)
    requires cs != []
    ensures
      var n := |cs| as real;
      var removed := CountIf(cs, HasStatus(CampaignStatus.Removed)) + CountIf(cs, HasStatus(CampaignStatus.Verified));
      var failed, escalated := CountIf(cs, HasStatus(CampaignStatus.Failed)), CountIf(cs, HasStatus(CampaignStatus.Escalated));
      var raw := 100.0 * (removed as real / n) - 20.0 * (failed as real / n) - 25.0 * (escalated as real / n)
                 + SpeedFor(CountIf(cs, TimedRemoval()), TotalDays(cs));
      && RawScore(cs) == raw
      && Clamp(RawScore(cs)) == (if raw <= 0.0 then 0.0 else if raw >= 100.0 then 100.0 else raw)
      && Share(cs, IsRemoved()) == removed as real / n
  {
    RemovedOrVerified(cs);
    DaysAddUp(cs);
  }

  // ------------------------------------------------------------- a removal more

  lemma {:induction false} NoZeroDivisor(x: real, t: real)
    requires t > 0.0 && x * t == 0.0
    ensures x == 0.0
  {
  }

  lemma {:induction false} QuotientGains(part: int, total: nat, more: int)
    requires total > 0
    ensures (part + more) as real / total as real == part as real / total as real + more as real * (1.0 / total as real)
  {
    var t := total as real;
    var x, y, u := part as real / t, (part + more) as real / t, 1.0 / t;
    assert x * t == part as real && y * t == (part + more) as real && u * t == 1.0;
    assert (y - x - more as real * u) * t == y * t - x * t - more as real * (u * t);
    NoZeroDivisor(y - x - more as real * u, t);
  }

  /** Replacing one outcome moves a share by one campaign's part. */
  lemma {:induction false} ShareMoves(cs: seq<Outcome>, i: nat, c: Outcome, p: Outcome -> bool)
    requires i < |cs|
    ensures var part := 1.0 / |cs| as real;
      Share(cs[i := c], p) == Share(cs, p) + (if p(c) then part else 0.0) - (if p(cs[i]) then part else 0.0)
  {
    CountReplace(cs, i, c, p);
    QuotientGains(CountIf(cs, p), |cs|, (if p(c) then 1 else 0) - if p(cs[i]) then 1 else 0);
  }

  lemma {:induction false} SpeedFalls(fast: real, slow: real)
    requires fast <= slow
    ensures SpeedOf(fast) >= SpeedOf(slow)
  {
  }

  lemma {:induction false} SumAppend(s: seq<int>, x: int)
    ensures Sum(s + [x]) == Sum(s) + x
  {
    assert (s + [x])[..|s|] == s;
  }

  lemma {:induction false} LastDuration(cs: seq<Outcome>, c: Outcome)
    ensures Sum(Durations(cs + [c])) == Sum(Durations(cs)) + DaysOf(c)
  {
    assert (cs + [c])[..|cs|] == cs;
    if IsTimed()(c) {
      SumAppend(Durations(cs), Days(c));
    } else {
      assert Durations(cs) + [] == Durations(cs);
    }
  }

  /** One more timed outcome adds its days to the durations. */
  lemma {:induction false} DurationsGain(cs: seq<Outcome>, i: nat, c: Outcome)
    requires i < |cs| && !IsRemoved()(cs[i])
    ensures |Durations(cs[i := c])| == |Durations(cs)| + if IsTimed()(c) then 1 else 0
    ensures Sum(Durations(cs[i := c])) == Sum(Durations(cs)) + DaysOf(c)
  {
    CountReplace(cs, i, c, IsTimed());
    SumGain(cs, i, c);
  }

  lemma {:induction false} SumGain(cs: seq<Outcome>, i: nat, c: Outcome)
    requires i < |cs|
    ensures Sum(Durations(cs[i := c])) == Sum(Durations(cs)) + DaysOf(c) - DaysOf(cs[i])
  {
    var n := |cs| - 1;
    var init, last := cs[..n], cs[n];
    assert cs == init + [last];
    LastDuration(init, last);
    if i < n {
      assert cs[i := c] == init[i := c] + [last];
      SumGain(init, i, c);
      LastDuration(init[i := c], last);
    } else {
      assert cs[i := c] == init + [c];
      LastDuration(init, c);
    }
  }

  /** A value no larger than the average does not raise it. */
  lemma {:induction false} AverageDoesNotRise(sum: int, n: nat, x: int)
    requires n > 0 && x as real <= sum as real / n as real
    ensures (sum + x) as real / (n + 1) as real <= sum as real / n as real
  {
    var a := sum as real / n as real;
    var b := (sum + x) as real / (n + 1) as real;
    assert a * n as real == sum as real && b * (n + 1) as real == (sum + x) as real;
    assert (a - b) * (n + 1) as real == a - x as real;
  }

  /** The new removal is not slower than the broker has been so far. */
  predicate NotSlower(days: seq<int>, c: Outcome) {
    IsTimed()(c) ==> Days(c) as real <= if days == [] then 30.0 else Average(days)
  }

  lemma {:induction false} SpeedDoesNotDrop(cs: seq<Outcome>, i: nat, c: Outcome)
    requires i < |cs| && !IsRemoved()(cs[i]) && NotSlower(Durations(cs), c)
    ensures SpeedPoints(Durations(cs[i := c])) >= SpeedPoints(Durations(cs))
  {
    DurationsGain(cs, i, c);
    var before, after := Durations(cs), Durations(cs[i := c]);
    if IsTimed()(c) {
      if before == [] {
        assert Average(after) == Days(c) as real;
      } else {
        AverageDoesNotRise(Sum(before), |before|, Days(c));
        SpeedFalls(Average(after), Average(before));
      }
    }
  }

  /** What a removal is worth besides its speed, before it is shared among the
      campaigns: its own points, and the penalty the campaign carried before. */
  function PointsOf(before: Outcome): real {
    100.0 + (if before.status == CampaignStatus.Failed then 20.0 else 0.0) + if before.status == Escalated then 25.0 else 0.0
  }

  lemma {:induction false} BaseGain(cs: seq<Outcome>, i: nat, c: Outcome, part: real)
    requires i < |cs| && !IsRemoved()(cs[i]) && IsRemoved()(c) && part == 1.0 / |cs| as real
    ensures BasePoints(cs[i := c]) == BasePoints(cs) + 100.0 * part
      + (if cs[i].status == CampaignStatus.Failed then 20.0 * part else 0.0)
      + if cs[i].status == Escalated then 25.0 * part else 0.0
  {
    ShareMoves(cs, i, c, IsRemoved());
    ShareMoves(cs, i, c, HasStatus(CampaignStatus.Failed));
    ShareMoves(cs, i, c, HasStatus(Escalated));
  }

  /** The rest of the score rises by exactly those points' share. */
  lemma {:induction false} SharesGain(cs: seq<Outcome>, i: nat, c: Outcome)
    requires i < |cs| && !IsRemoved()(cs[i]) && IsRemoved()(c)
    ensures BasePoints(cs[i := c]) == BasePoints(cs) + PointsOf(cs[i]) / |cs| as real
    ensures PointsOf(cs[i]) / |cs| as real >= 100.0 / |cs| as real > 0.0
  {
    var part := 1.0 / |cs| as real;
    assert part > 0.0;
    BaseGain(cs, i, c, part);
    PointsSpread(cs[i], part);
    QuotientIsShare(100.0, |cs|);
    QuotientIsShare(PointsOf(cs[i]), |cs|);
  }

  lemma {:induction false} PointsSpread(before: Outcome, part: real)
    ensures PointsOf(before) * part == 100.0 * part
      + (if before.status == CampaignStatus.Failed then 20.0 * part else 0.0)
      + if before.status == Escalated then 25.0 * part else 0.0
  {
  }

  lemma {:induction false} QuotientIsShare(x: real, total: nat)
    requires total > 0
    ensures x / total as real == x * (1.0 / total as real)
  {
    var t := total as real;
    assert (x / t - x * (1.0 / t)) * t == 0.0;
    NoZeroDivisor(x / t - x * (1.0 / t), t);
  }

  /** The speed points once a removal is added to known durations. */
  function SpeedWith(days: seq<int>, c: Outcome): real {
    if IsTimed()(c) then SpeedOf((Sum(days) + Days(c)) as real / (|days| + 1) as real) else SpeedPoints(days)
  }

  lemma {:induction false} SpeedAfterRemoval(cs: seq<Outcome>, i: nat, c: Outcome)
    requires i < |cs| && !IsRemoved()(cs[i])
    ensures SpeedPoints(Durations(cs[i := c])) == SpeedWith(Durations(cs), c)
  {
    DurationsGain(cs, i, c);
  }

  /** By how much a removal moves the raw score, told from the campaigns before it. */
  function Gain(cs: seq<Outcome>, i: nat, c: Outcome): real
    requires i < |cs|
  {
    PointsOf(cs[i]) / |cs| as real + SpeedWith(Durations(cs), c) - SpeedPoints(Durations(cs))
  }

  /** A removal lowers the raw score exactly when the speed points it costs
      exceed its share, and the clamped score exactly when, besides, the raw
      score was above 0 and ends below 100. */
  lemma {:induction false} RemovalLowersScoreExactly(cs: seq<Outcome>, i: nat, c: Outcome)
    requires i < |cs| && !IsRemoved()(cs[i]) && IsRemoved()(c)
    ensures RawScore(cs[i := c]) == RawScore(cs) + Gain(cs, i, c)
    ensures RawScore(cs[i := c]) >= RawScore(cs)
      <==> SpeedPoints(Durations(cs)) - SpeedWith(Durations(cs), c) <= PointsOf(cs[i]) / |cs| as real
    ensures Clamp(RawScore(cs[i := c])) < Clamp(RawScore(cs))
      <==> Gain(cs, i, c) < 0.0 && RawScore(cs) > 0.0 && RawScore(cs) + Gain(cs, i, c) < 100.0
  {
    SharesGain(cs, i, c);
    SpeedAfterRemoval(cs, i, c);
  }

  /** Turning one campaign into a removal that is not slower than the broker
      has been so far never lowers the score. */
  lemma {:induction false} RemovalNeverLowersScore(cs: seq<Outcome>, i: nat, c: Outcome)
    requires i < |cs| && !IsRemoved()(cs[i]) && IsRemoved()(c)
    requires NotSlower(Durations(cs), c)
    ensures RawScore(cs[i := c]) > RawScore(cs)
    ensures Clamp(RawScore(cs[i := c])) >= Clamp(RawScore(cs))
  {
    SharesGain(cs, i, c);
    SpeedDoesNotDrop(cs, i, c);
    assert 100.0 / |cs| as real > 0.0;
  }

  lemma {:induction false} SpeedRange(days: seq<int>)
    ensures -20.0 <= SpeedPoints(days) <= 10.0
  {
  }

  /** With at most three campaigns no removal lowers the score, however slow. */
  lemma {:induction false} FewCampaignsNeverLowerScore(cs: seq<Outcome>, i: nat, c: Outcome)
    requires i < |cs| <= 3 && !IsRemoved()(cs[i]) && IsRemoved()(c)
    ensures RawScore(cs[i := c]) > RawScore(cs)
  {
    SharesGain(cs, i, c);
    assert 100.0 / |cs| as real > 30.0 by {
      assert |cs| == 1 || |cs| == 2 || |cs| == 3;
    }
    SpeedRange(Durations(cs));
    SpeedRange(Durations(cs[i := c]));
  }

  function RemovedIn(days: nat): Outcome {
    Outcome(CampaignStatus.Removed, Some(0), Some(days * DAY))
  }

  const OPEN := Outcome(CampaignStatus.Queued, Some(0), None)

  lemma {:induction false} RemovedDays(days: nat)
    ensures IsTimed()(RemovedIn(days)) && Days(RemovedIn(days)) == days
  {
    assert IsRemoved()(RemovedIn(days));
    assert DAY == 86400 && days * 86400 / 86400 == days;
  }

  lemma {:induction false} Add(cs: seq<Outcome>, c: Outcome, p: Outcome -> bool)
    ensures CountIf(cs + [c], p) == CountIf(cs, p) + (if p(c) then 1 else 0)
    ensures Durations(cs + [c]) == Durations(cs) + if IsTimed()(c) then [Days(c)] else []
  {
    CountAppend(cs, c, p);
    assert (cs + [c])[..|cs|] == cs;
  }

  lemma {:induction false} AddOpen(cs: seq<Outcome>, p: Outcome -> bool)
    requires !p(OPEN)
    ensures CountIf(cs + [OPEN], p) == CountIf(cs, p) && Durations(cs + [OPEN]) == Durations(cs)
  {
    Add(cs, OPEN, p);
    assert Durations(cs) + [] == Durations(cs);
  }

  lemma {:induction false} TwoOutcomes(a: Outcome, c: Outcome, p: Outcome -> bool)
    requires IsTimed()(a)
    ensures CountIf([a] + [c], p) == (if p(a) then 1 else 0) + (if p(c) then 1 else 0)
    ensures Durations([a] + [c]) == [Days(a)] + if IsTimed()(c) then [Days(c)] else []
  {
    Add([], a, p);
    assert [] + [a] == [a] && Durations([]) + [Days(a)] == [Days(a)];
    Add([a], c, p);
  }

  /** The counts and durations of a removal, another outcome and two open campaigns. */
  lemma {:induction false} FourOutcomes(first: nat, c: Outcome, p: Outcome -> bool)
    requires !p(OPEN)
    ensures var cs := [RemovedIn(first), c, OPEN, OPEN];
      && CountIf(cs, p) == (if p(RemovedIn(first)) then 1 else 0) + (if p(c) then 1 else 0)
      && Durations(cs) == [first as int] + if IsTimed()(c) then [Days(c)] else []
  {
    var two := [RemovedIn(first)] + [c];
    assert [RemovedIn(first), c, OPEN, OPEN] == two + [OPEN] + [OPEN];
    RemovedDays(first);
    TwoOutcomes(RemovedIn(first), c, p);
    AddOpen(two, p);
    AddOpen(two + [OPEN], p);
  }

  lemma {:induction false} ScoreOfFour(first: nat, c: Outcome)
    requires c.status != CampaignStatus.Failed && c.status != Escalated
    ensures var cs := [RemovedIn(first), c, OPEN, OPEN];
      RawScore(cs) == (if IsRemoved()(c) then 50.0 else 25.0)
        + if IsTimed()(c) then SpeedOf((first + Days(c)) as real / 2.0) else SpeedOf(first as real)
  {
    FourOutcomes(first, c, IsRemoved());
    FourOutcomes(first, c, HasStatus(CampaignStatus.Failed));
    FourOutcomes(first, c, HasStatus(Escalated));
    SumAppend([], first);
    assert [] + [first as int] == [first as int];
    if IsTimed()(c) {
      SumAppend([first as int], Days(c));
    }
  }

  /** With four campaigns a slow removal can lower it. */
  lemma {:induction false} SlowRemovalLowersScore()
    ensures var cs := [RemovedIn(7), OPEN, OPEN, OPEN];
      RawScore(cs) == 35.0 && RawScore(cs[1 := RemovedIn(95)]) == 30.0
  {
    RemovedDays(95);
    ScoreOfFour(7, OPEN);
    ScoreOfFour(7, RemovedIn(95));
    assert [RemovedIn(7), OPEN, OPEN, OPEN][1 := RemovedIn(95)] == [RemovedIn(7), RemovedIn(95), OPEN, OPEN];
  }
}
