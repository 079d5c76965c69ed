/** The agent, the job endpoints and the heartbeat as they update the tables in
    place (core/agent/orchestrator.py, core/api.py, core/tasks.py). Each method
    is proved to be a sequence of steps of the state machine in `Sentinel`. */
module SentinelStore {
  import opened Prelude
  import opened Records
  import opened Entitlements
  import opened Verifier
  import opened Deindexing
  import opened Sentinel
  import opened Passes
  import opened StatusInvariant
  import opened ExposureInvariant
  import Triage
  import Ledger
  import ReceiptInvariant
  import Openings
  import Histories
  import Sightings

  /** What a configured exposure source answers: its findings, or an error. */
  datatype Source = Source(name: string, configured: bool, answer: Option<seq<Triage.Finding>>)

  /** The answer of an endpoint for one of the user's own rows. */
  datatype Reply<T> = Done(value: T) | NotFound | Rejected(reason: string)

  const DEFAULT_NAME := "Default watchlist"

  // ------------------------------------------------------------- gathering

  function Scored(fs: seq<Triage.Finding>): (r: seq<Triage.Finding>)
    ensures |r| == |fs| && forall i | 0 <= i < |fs| :: r[i] == fs[i].(severity := Triage.ScoreSeverity(fs[i]))
  {
    seq(|fs|, i requires 0 <= i < |fs| => fs[i].(severity := Triage.ScoreSeverity(fs[i])))
  }

  predicate Answers(s: Source) {
    s.configured && s.answer.Some?
  }

  /** The scored findings of every source that answered, in source order. */
  function Gathered(sources: seq<Source>): seq<Triage.Finding> {
    if sources == [] then []
    else
      var n := |sources| - 1;
      Gathered(sources[..n]) + if Answers(sources[n]) then Scored(sources[n].answer.value) else []
  }

  function Checked(sources: seq<Source>): seq<string> {
    if sources == [] then []
    else
      var n := |sources| - 1;
      Checked(sources[..n]) + if Answers(sources[n]) then [sources[n].name] else []
  }

  /** Whatever a source is preceded and followed by, it contributes its findings
      with their scores when it is configured and answers, and is then listed;
      otherwise neither. */
  lemma {:induction false} SourceContributes(before: seq<Source>, s: Source, more: seq<Source>)
    ensures var answered := s.configured && s.answer.Some?;
            var found := if answered then s.answer.value else [];
      && Gathered(before + [s] + more)
           == Gathered(before)
              + seq(|found|, i requires 0 <= i < |found| => found[i].(severity := Triage.ScoreSeverity(found[i])))
              + Gathered(more)
      && Checked(before + [s] + more) == Checked(before) + (if answered then [s.name] else []) + Checked(more)
  {
    GatheredConcat(before + [s], more);
    assert (before + [s])[..|before|] == before;
  }

  lemma {:induction false} GatheredConcat(a: seq<Source>, b: seq<Source>)
    ensures Gathered(a + b) == Gathered(a) + Gathered(b) && Checked(a + b) == Checked(a) + Checked(b)
  {
    if b == [] {
      assert a + b == a;
    } else {
      var n := |b| - 1;
      GatheredConcat(a, b[..n]);
      assert (a + b)[..|a + b| - 1] == a + b[..n];
    }
  }

  /** Consecutive row ids. */
  function Ids(from: nat, to: nat): (ids: seq<nat>)
    requires from <= to
    ensures |ids| == to - from && forall i | 0 <= i < |ids| :: ids[i] == from + i
  {
    seq(to - from, i requires 0 <= i => from + i)
  }

  lemma {:induction false} IdsGrow(from: nat, to: nat)
    requires from <= to
    ensures Ids(from, to + 1) == Ids(from, to) + [to]
  {
  }

  // ------------------------------------------------------------- steps of a request

  /** What an automatic removal needs to know about each new exposure. */
  datatype Matching = Matching(broker: nat -> Option<Broker>, jurisdiction: string, uuid: nat -> string)

  function RemovalStep(user: nat, e: nat, m: Matching): Step {
    QueueRemoval(user, e, m.broker(e), m.jurisdiction, m.uuid(e))
  }

  function RemovalSteps(user: nat, created: seq<nat>, m: Matching): seq<Step> {
    if created == [] then []
    else RemovalSteps(user, created[..|created| - 1], m) + [RemovalStep(user, created[|created| - 1], m)]
  }

  /** `run_watchlist` as steps: persist every finding, record the run, set the
      next one, then queue removals for the new exposures. */
  function RunSteps(user: nat, w: nat, fs: seq<Triage.Finding>, canary: Triage.Finding -> bool,
                    created: seq<nat>, auto: bool, m: Matching): seq<Step> {
    PersistSteps(user, fs, canary) + [RecordRun(w, |fs|), Reschedule(w)]
    + if auto then RemovalSteps(user, created, m) else []
  }

  /** The tables after those removals. */
  function RemovedAll(cfg: Config, st: State, user: nat, created: seq<nat>, m: Matching): State {
    if created == [] then st
    else
      var n := |created| - 1;
      AfterQueueRemoval(cfg, RemovedAll(cfg, st, user, created[..n], m), user, created[n], m.broker(created[n]),
                        m.jurisdiction, m.uuid(created[n]))
  }

  lemma {:induction false} RemovingSteps(cfg: Config, st: State, user: nat, created: seq<nat>, m: Matching)
    ensures Exec(cfg, st, RemovalSteps(user, created, m)) == RemovedAll(cfg, st, user, created, m)
  {
    if created != [] {
      var n := |created| - 1;
      var before, step := RemovalSteps(user, created[..n], m), RemovalStep(user, created[n], m);
      RemovingSteps(cfg, st, user, created[..n], m);
      ExecLast(cfg, st, before, step);
      ApplyRemoval(cfg, Exec(cfg, st, before), step);
    }
  }

  function Recorded(st: State, w: nat, findingsCount: nat): State {
    st.(runs := st.runs + [MonitorRun(w, findingsCount)])
  }

  /** The tables after a run's findings are persisted and it is recorded. */
  function AfterRun(cfg: Config, st: State, user: nat, w: nat, fs: seq<Triage.Finding>,
                    canary: Triage.Finding -> bool): State {
    AfterReschedule(Recorded(Persisted(cfg, st, user, fs, canary), w, |fs|), w)
  }

  lemma {:induction false} BookkeepingSteps(cfg: Config, st: State, w: nat, n: nat)
    ensures Exec(cfg, st, [RecordRun(w, n), Reschedule(w)]) == AfterReschedule(Recorded(st, w, n), w)
  {
    assert [RecordRun(w, n), Reschedule(w)] == [RecordRun(w, n)] + [Reschedule(w)];
    ExecFirst(cfg, st, RecordRun(w, n), [Reschedule(w)]);
    ExecFirst(cfg, Recorded(st, w, n), Reschedule(w), []);
    assert [Reschedule(w)] + [] == [Reschedule(w)];
  }

  lemma {:induction false} RunningSteps(cfg: Config, st: State, user: nat, w: nat, fs: seq<Triage.Finding>,
                                        canary: Triage.Finding -> bool, created: seq<nat>, auto: bool, m: Matching)
    ensures var ran := AfterRun(cfg, st, user, w, fs, canary);
      Exec(cfg, st, RunSteps(user, w, fs, canary, created, auto, m)) == if auto then RemovedAll(cfg, ran, user, created, m) else ran
  {
    var a, b := PersistSteps(user, fs, canary), [RecordRun(w, |fs|), Reschedule(w)];
    PersistingSteps(cfg, st, user, fs, canary);
    ExecConcat(cfg, st, a, b);
    BookkeepingSteps(cfg, Persisted(cfg, st, user, fs, canary), w, |fs|);
    if auto {
      ExecConcat(cfg, st, a + b, RemovalSteps(user, created, m));
      RemovingSteps(cfg, AfterRun(cfg, st, user, w, fs, canary), user, created, m);
    } else {
      assert a + b + [] == a + b;
    }
  }

  // ------------------------------------------------------------- proof helpers

  /** A watchlist that has run now and will run again one cadence, at least an
      hour, from now. */
  function Scheduled(x: Watchlist, now: int): Watchlist {
    x.(lastRunAt := Some(now), nextRunAt := Some(now + (if x.cadenceHours > 1 then x.cadenceHours else 1) * 3600))
  }

  /** Persisting adds the user's own exposures and touches no watchlist. */
  lemma {:induction false} PersistedRows(cfg: Config, st: State, user: nat, fs: seq<Triage.Finding>,
                                        canary: Triage.Finding -> bool)
    ensures var after := Persisted(cfg, st, user, fs, canary);
      && after.watchlists == st.watchlists && after.runs == st.runs && after.now == st.now
      && |st.exposures| <= |after.exposures|
      && forall e | |st.exposures| <= e < |after.exposures| :: after.exposures[e].user == user
  {
    if fs != [] {
      PersistedRows(cfg, st, user, fs[..|fs| - 1], canary);
    }
  }

  /** Removals open campaigns; they add no exposure. */
  lemma {:induction false} RemovalsKeepRows(cfg: Config, st: State, user: nat, created: seq<nat>, m: Matching)
    ensures var after := RemovedAll(cfg, st, user, created, m);
      |after.exposures| == |st.exposures| && after.watchlists == st.watchlists && after.runs == st.runs && after.now == st.now
  {
    if created != [] {
      RemovalsKeepRows(cfg, st, user, created[..|created| - 1], m);
    }
  }

  lemma {:induction false} RunIsReachable(cfg: Config, st: State, user: nat, w: nat, fs: seq<Triage.Finding>,
                                        canary: Triage.Finding -> bool)
    requires Reachable(cfg, st)
    ensures Reachable(cfg, AfterRun(cfg, st, user, w, fs, canary))
  {
    var none := Matching(_ => None, "", _ => "");
    RunningSteps(cfg, st, user, w, fs, canary, [], false, none);
    ReachableSteps(cfg, st, RunSteps(user, w, fs, canary, [], false, none));
  }

  lemma {:induction false} PassGrows(users: seq<nat>, u: nat, n: nat)
    ensures PassSteps(users + [u], n) == PassSteps(users, n) + (VerifySteps(u, n) + EscalateSteps(u, n))
  {
    if users == [] {
      assert [u][1..] == [];
    } else {
      PassGrows(users[1..], u, n);
      TailOfConcat(users, [u]);
      Regroup(VerifySteps(users[0], n) + EscalateSteps(users[0], n), PassSteps(users[1..], n), VerifySteps(u, n) + EscalateSteps(u, n));
    }
  }

  /** One more user has had a verification and an escalation turn. */
  lemma {:induction false} OneMoreUser(cfg: Config, st: State, users: seq<nat>, u: nat, n: nat)
    ensures Exec(cfg, st, PassSteps(users + [u], n))
      == Exec(cfg, Exec(cfg, Exec(cfg, st, PassSteps(users, n)), VerifySteps(u, n)), EscalateSteps(u, n))
  {
    PassGrows(users, u, n);
    ExecConcat(cfg, st, PassSteps(users, n), VerifySteps(u, n) + EscalateSteps(u, n));
    ExecConcat(cfg, Exec(cfg, st, PassSteps(users, n)), VerifySteps(u, n), EscalateSteps(u, n));
  }

  lemma {:induction false} ServedOnce(users: seq<nat>, u: nat)
    requires DistinctUsers(users) && u !in users
    ensures DistinctUsers(users + [u])
  {
  }

  lemma {:induction false} ReachableRows(cfg: Config, st: State)
    requires Reachable(cfg, st)
    ensures forall c | 0 <= c < |st.campaigns| :: st.campaigns[c].exposure < |st.exposures|
  {
    ReachableIsSound(cfg, st);
    forall c | 0 <= c < |st.campaigns| ensures st.campaigns[c].exposure < |st.exposures| {
      assert CampaignRefers(st, st.campaigns[c]);
    }
  }

  lemma {:induction false} PersistedNext(cfg: Config, st: State, user: nat, fs: seq<Triage.Finding>,
                                         canary: Triage.Finding -> bool, i: nat)
    requires i < |fs|
    ensures Persisted(cfg, st, user, fs[..i + 1], canary)
      == AfterPersist(cfg, Persisted(cfg, st, user, fs[..i], canary), user, fs[i], canary(fs[i]))
  {
    assert fs[..i + 1][..i] == fs[..i];
  }

  /** Some run of the system ends in these tables. */
  ghost predicate Reachable(cfg: Config, st: State) {
    exists trace :: StateAfter(cfg, trace) == st
  }

  lemma {:induction false} EmptyIsReachable(cfg: Config)
    ensures Reachable(cfg, EMPTY)
  {
    assert StateAfter(cfg, []) == EMPTY;
  }

  lemma {:induction false} ReachableSteps(cfg: Config, st: State, steps: seq<Step>)
    requires Reachable(cfg, st)
    ensures Reachable(cfg, Exec(cfg, st, steps))
  {
    var trace :| StateAfter(cfg, trace) == st;
    ExecConcat(cfg, EMPTY, trace, steps);
    assert StateAfter(cfg, trace + steps) == Exec(cfg, st, steps);
  }

  lemma {:induction false} ReachableStep(cfg: Config, st: State, step: Step)
    requires Reachable(cfg, st)
    ensures Reachable(cfg, Apply(cfg, st, step))
  {
    ReachableSteps(cfg, st, [step]);
    ExecFirst(cfg, st, step, []);
    assert [step] + [] == [step];
  }

  lemma {:induction false} RemovalIsReachable(cfg: Config, st: State, user: nat, e: nat, broker: Option<Broker>,
                                              jurisdiction: string, uuid: string)
    requires Reachable(cfg, st)
    ensures Reachable(cfg, AfterQueueRemoval(cfg, st, user, e, broker, jurisdiction, uuid))
  {
    var step := QueueRemoval(user, e, broker, jurisdiction, uuid);
    ApplyRemoval(cfg, st, step);
    ReachableStep(cfg, st, step);
  }

  lemma {:induction false} PersistIsReachable(cfg: Config, st: State, user: nat, f: Triage.Finding, canary: bool)
    requires Reachable(cfg, st)
    ensures Reachable(cfg, AfterPersist(cfg, st, user, f, canary))
  {
    ReachableStep(cfg, st, Persist(user, f, canary));
  }

  /** Whatever the invariants say of runs, they say of every store. */
  lemma {:induction false} ReachableIsSound(cfg: Config, st: State)
    requires Reachable(cfg, st)
    ensures References(st) && Statuses(st) && Unique(st.exposures)
    ensures forall c | 0 <= c < |st.campaigns| :: Ledger.Verifies(cfg.sha, st.campaigns[c].uuid, st.campaigns[c].evidence)
  {
    var trace :| StateAfter(cfg, trace) == st;
    StatusesAlwaysPaired(cfg, trace);
    ExposuresAreUniqueAndMaximal(cfg, trace);
    forall c | 0 <= c < |st.campaigns| ensures Ledger.Verifies(cfg.sha, st.campaigns[c].uuid, st.campaigns[c].evidence) {
      ReceiptInvariant.LedgersMatchJobs(cfg, trace, c);
    }
  }

  lemma {:induction false} PassOnLate(cfg: Config, st: State, users: seq<nat>)
    requires Reachable(cfg, st) && ServesAll(st.campaigns, users)
    ensures var after := Exec(cfg, st, PassSteps(users, |st.campaigns|));
      && |after.campaigns| == |st.campaigns| && NoneOverdue(after)
      && (forall c | 0 <= c < |st.campaigns| :: Histories.EscalatedIfLate(cfg, st, after, c))
      && CountIf(after.jobs, IsEscalation()) == CountIf(st.jobs, IsEscalation()) + CountIf(st.campaigns, Histories.LateAt(cfg, st.now))
  {
    var trace :| StateAfter(cfg, trace) == st;
    Histories.PassEscalatesExactlyLate(cfg, trace, users);
    PassEscalatesExactlyOverdue(cfg, trace, users);
  }

  /** A campaign is opened for the user's own exposure without one; any other
      request changes nothing. */
  ghost predicate RemovalShows(cfg: Config, st: State, after: State, step: Step)
    requires step.QueueRemoval?
  {
    if step.exposure < |st.exposures| && st.exposures[step.exposure].user == step.user && NoCampaign(st, step.exposure)
    then Openings.Opens(cfg, st, after, step)
    else after == st
  }

  lemma {:induction false} ReachableRemoval(cfg: Config, st: State, step: Step)
    requires Reachable(cfg, st) && step.QueueRemoval?
    ensures RemovalShows(cfg, st, AfterQueueRemoval(cfg, st, step.user, step.exposure, step.broker, step.jurisdiction, step.uuid), step)
  {
    var trace :| StateAfter(cfg, trace) == st;
    Openings.RemovalOpensExactly(cfg, trace, step);
    ExecLast(cfg, EMPTY, trace, step);
    ApplyRemoval(cfg, st, step);
  }

  lemma {:induction false} ReplaceLast<T>(s: seq<T>, a: T, b: T)
    ensures (s + [a])[|s| := b] == s + [b]
  {
  }

  lemma {:induction false} SameOpening(cfg: Config, st: State, mid: State, user: nat, c: Campaign, jurisdiction: string)
    requires mid.jobs == st.jobs && mid.now == st.now && mid.accounts == st.accounts
    ensures MaySend(mid, user) == MaySend(st, user)
    ensures WithOpening(cfg, mid, user, c, jurisdiction) == WithOpening(cfg, st, user, c, jurisdiction)
  {
    SameQuota(st, mid, user);
  }

  lemma {:induction false} SameQuota(st: State, mid: State, user: nat)
    requires mid.jobs == st.jobs && mid.now == st.now && mid.accounts == st.accounts
    ensures MaySend(mid, user) == MaySend(st, user)
  {
  }

  lemma {:induction false} CampaignOpened(
      cfg: Config, st: State, mid: State, user: nat, e: nat, broker: Option<Broker>, jurisdiction: string, uuid: string,
      campaigns: seq<Campaign>, jobs: seq<Job>)
    requires e < |st.exposures| && st.exposures[e].user == user && !HasLiveCampaign(st.campaigns, e)
    requires var row := NewCampaign(cfg, st.now, user, e, broker, jurisdiction, uuid);
      && mid == st.(campaigns := st.campaigns + [row], exposures := st.exposures[e := st.exposures[e].(status := RemovalQueued)])
      && campaigns == mid.campaigns[|st.campaigns| := WithOpening(cfg, mid, user, row, jurisdiction)]
      && jobs == mid.jobs + if !MaySend(mid, user) then []
           else RemovalJobs(st.now, user, |st.campaigns|, row.channel, ShouldDeindex(mid.exposures[e]))
    ensures mid.(campaigns := campaigns, jobs := jobs) == AfterQueueRemoval(cfg, st, user, e, broker, jurisdiction, uuid)
    ensures NewestCampaign(campaigns, e) == |st.campaigns|
  {
    var row := NewCampaign(cfg, st.now, user, e, broker, jurisdiction, uuid);
    SameOpening(cfg, st, mid, user, row, jurisdiction);
    ReplaceLast(st.campaigns, row, WithOpening(cfg, mid, user, row, jurisdiction));
    assert jobs == st.jobs + OpeningJobs(st, user, e, broker);
    OpenedRow(cfg, st, user, e, broker, jurisdiction, uuid);
  }

  function IsDefault(user: nat): Watchlist -> bool {
    (w: Watchlist) => w.user == user && w.name == DEFAULT_NAME
  }

  /** The first watchlist of a user with the default name. */
  function DefaultWatchlist(watchlists: seq<Watchlist>, user: nat): (w: nat)
    ensures w <= |watchlists|
    ensures w < |watchlists| ==> IsDefault(user)(watchlists[w])
    ensures w == |watchlists| ==> forall i | 0 <= i < |watchlists| :: !IsDefault(user)(watchlists[i])
  {
    if watchlists == [] || IsDefault(user)(watchlists[0]) then 0 else 1 + DefaultWatchlist(watchlists[1..], user)
  }

  // ------------------------------------------------------------- on-device findings

  /** The finding an on-device report stands for: it never carries a value. */
  function OnDevice(report: Triage.Finding, severity: string): Triage.Finding {
    var f := report.(matchedValue := "", breachName := "");
    f.(severity := if severity != "" then severity else Triage.ScoreSeverity(f))
  }

  predicate SameSite(f: Triage.Finding, g: Triage.Finding) {
    f.source == g.source && f.kind == g.kind && f.url == g.url
  }

  lemma {:induction false} OnDeviceText(cfg: Config, f: Triage.Finding, g: Triage.Finding, s: string, t: string)
    requires Triage.BarFree(OnDevice(f, s)) && Triage.BarFree(OnDevice(g, t))
    ensures Triage.FingerprintText(OnDevice(f, s), "") == Triage.FingerprintText(OnDevice(g, t), "") <==> SameSite(f, g)
    ensures FingerprintOf(cfg, OnDevice(f, s)) == cfg.sha(Triage.FingerprintText(OnDevice(f, s), ""))
    ensures FingerprintOf(cfg, OnDevice(g, t)) == cfg.sha(Triage.FingerprintText(OnDevice(g, t), ""))
  {
    Triage.FingerprintTextIsInjective(OnDevice(f, s), OnDevice(g, t), "", "");
  }

  lemma {:induction false} SameFingerprintSameHit(cfg: Config, st: State, user: nat, x: Triage.Finding, canary: bool, y: Triage.Finding)
    ensures var after := AfterPersist(cfg, st, user, x, canary).exposures;
      HitOf(cfg, after, user, x) == HitOf(cfg, after, user, y) <==> FingerprintOf(cfg, x) == FingerprintOf(cfg, y)
  {
    PersistHits(cfg, st, user, x, canary);
    var after := AfterPersist(cfg, st, user, x, canary).exposures;
    var i := HitOf(cfg, after, user, x);
    assert after[i].fingerprint == FingerprintOf(cfg, x);
  }

  /** The blind index that a device reports never enters the fingerprint: a
      later report, about whatever identifier, goes to the exposure of an
      earlier one exactly when source, kind and URL are the same, or the two
      fingerprint texts collide. */
  lemma {:induction false} OnDeviceIgnoresIdentifier(cfg: Config, st: State, user: nat, f: Triage.Finding, s: string, canary: bool,
                                                     g: Triage.Finding, t: string)
    requires Triage.BarFree(OnDevice(f, s)) && Triage.BarFree(OnDevice(g, t))
    ensures var x, y := OnDevice(f, s), OnDevice(g, t);
            var after := AfterPersist(cfg, st, user, x, canary).exposures;
      || (HitOf(cfg, after, user, x) == HitOf(cfg, after, user, y) <==> SameSite(f, g))
      || Collides(cfg.sha, Triage.FingerprintText(x, ""), Triage.FingerprintText(y, ""))
  {
    OnDeviceText(cfg, f, g, s, t);
    SameFingerprintSameHit(cfg, st, user, OnDevice(f, s), canary, OnDevice(g, t));
  }

  /** A run with one finding is recorded under a watchlist of the user with the
      default name, which is added when there was none. */
  ghost predicate DefaultShows(st: State, after: State, user: nat) {
    && (if exists x :: 0 <= x < |st.watchlists| && st.watchlists[x].user == user && st.watchlists[x].name == "Default watchlist"
        then after.watchlists == st.watchlists
        else after.watchlists == st.watchlists + [Watchlist(user, "Default watchlist", true, 24, None, None)])
    && exists w: nat ::
         && w < |after.watchlists| && after.watchlists[w].user == user && after.watchlists[w].name == "Default watchlist"
         && after.runs == st.runs + [MonitorRun(w, 1)]
  }

  function DefaultSteps(user: nat, watchlists: seq<Watchlist>): seq<Step> {
    if DefaultWatchlist(watchlists, user) < |watchlists| then []
    else [CreateWatchlist(user, DEFAULT_NAME, true, 24)]
  }

  function OnDeviceSteps(user: nat, watchlists: seq<Watchlist>, f: Triage.Finding, canary: bool, e: nat,
                         auto: bool, m: Matching): seq<Step> {
    DefaultSteps(user, watchlists)
    + [Persist(user, f, canary), RecordRun(DefaultWatchlist(watchlists, user), 1)]
    + if auto then [RemovalStep(user, e, m)] else []
  }

  function WithDefault(st: State, user: nat): State {
    if DefaultWatchlist(st.watchlists, user) < |st.watchlists| then st
    else st.(watchlists := st.watchlists + [Watchlist(user, DEFAULT_NAME, true, 24, None, None)])
  }

  /** The tables once a report is persisted and its run recorded. */
  function Reported(cfg: Config, st: State, user: nat, f: Triage.Finding, canary: bool): State {
    Recorded(AfterPersist(cfg, WithDefault(st, user), user, f, canary), DefaultWatchlist(st.watchlists, user), 1)
  }

  lemma {:induction false} DefaultingSteps(cfg: Config, st: State, user: nat)
    ensures Exec(cfg, st, DefaultSteps(user, st.watchlists)) == WithDefault(st, user)
  {
    ExecFirst(cfg, st, CreateWatchlist(user, DEFAULT_NAME, true, 24), []);
    assert [CreateWatchlist(user, DEFAULT_NAME, true, 24)] + [] == [CreateWatchlist(user, DEFAULT_NAME, true, 24)];
  }

  lemma {:induction false} WithDefaultIsReachable(cfg: Config, st: State, user: nat)
    requires Reachable(cfg, st)
    ensures Reachable(cfg, WithDefault(st, user))
  {
    DefaultingSteps(cfg, st, user);
    ReachableSteps(cfg, st, DefaultSteps(user, st.watchlists));
  }

  lemma {:induction false} RecordedIsReachable(cfg: Config, st: State, w: nat, n: nat)
    requires Reachable(cfg, st)
    ensures Reachable(cfg, Recorded(st, w, n))
  {
    ReachableStep(cfg, st, RecordRun(w, n));
  }

  lemma {:induction false} CompleteIsReachable(cfg: Config, st: State, user: nat, j: nat,
                                        confirmation: string, result: string)
    requires Reachable(cfg, st)
    ensures Reachable(cfg, AfterComplete(cfg, st, user, j, confirmation, result))
  {
    ReachableStep(cfg, st, Step.Complete(user, j, confirmation, result));
  }

  lemma {:induction false} TwoSteps(cfg: Config, st: State, a: Step, b: Step)
    ensures Exec(cfg, st, [a, b]) == Apply(cfg, Apply(cfg, st, a), b)
  {
    ExecFirst(cfg, st, a, [b]);
    ExecFirst(cfg, Apply(cfg, st, a), b, []);
    assert [a] + [b] == [a, b] && [b] + [] == [b];
  }

  lemma {:induction false} ReportingSteps(cfg: Config, st: State, user: nat, f: Triage.Finding, canary: bool)
    ensures var w := DefaultWatchlist(st.watchlists, user);
      Exec(cfg, st, DefaultSteps(user, st.watchlists) + [Persist(user, f, canary), RecordRun(w, 1)]) == Reported(cfg, st, user, f, canary)
  {
    var b := [Persist(user, f, canary), RecordRun(DefaultWatchlist(st.watchlists, user), 1)];
    DefaultingSteps(cfg, st, user);
    ExecConcat(cfg, st, DefaultSteps(user, st.watchlists), b);
    TwoSteps(cfg, WithDefault(st, user), b[0], b[1]);
  }

  lemma {:induction false} OnDeviceRun(cfg: Config, st: State, user: nat, f: Triage.Finding, canary: bool,
                                       e: nat, auto: bool, m: Matching)
    ensures var reported := Reported(cfg, st, user, f, canary);
      Exec(cfg, st, OnDeviceSteps(user, st.watchlists, f, canary, e, auto, m))
        == if auto then AfterQueueRemoval(cfg, reported, user, e, m.broker(e), m.jurisdiction, m.uuid(e)) else reported
  {
    var first := DefaultSteps(user, st.watchlists) + [Persist(user, f, canary), RecordRun(DefaultWatchlist(st.watchlists, user), 1)];
    ReportingSteps(cfg, st, user, f, canary);
    if auto {
      ExecLast(cfg, st, first, RemovalStep(user, e, m));
      ApplyRemoval(cfg, Reported(cfg, st, user, f, canary), RemovalStep(user, e, m));
    } else {
      assert first + [] == first;
    }
  }

  /** A MONITOR job of watchlist w that is waiting, claimed or running. */
  predicate LiveMonitorOf(j: Job, w: nat) {
    j.jobType == Monitor && j.watchlist == Some(w) && j.status in {JobStatus.Queued, JobStatus.Claimed, JobStatus.Running}
  }

  /** A completed job's campaign gets the receipt; unless the job is a DEINDEX
      job the campaign is submitted now, under the confirmation if there is one,
      and its exposure is sent. */
  ghost predicate CampaignShows(cfg: Config, st: State, after: State, job: Job, confirmation: string, c: nat)
    requires c < |st.campaigns|
  {
    var was, e, submits := st.campaigns[c], st.campaigns[c].exposure, job.jobType != Deindex;
    && |after.campaigns| == |st.campaigns| && e < |st.exposures|
    && var row := after.campaigns[c];
    && |row.evidence| == |was.evidence| + 1 && row.evidence[..|was.evidence|] == was.evidence
    && Histories.ReceiptOf(cfg, row.evidence[|was.evidence|], Histories.Completion(st.now, job.jobType, confirmation, job.result))
    && row == was.(evidence := row.evidence,
                   status := if submits then CampaignStatus.Submitted else was.status,
                   submittedAt := if submits then Some(st.now) else was.submittedAt,
                   confirmationCode := if submits && confirmation != "" then Histories.First200(confirmation) else was.confirmationCode)
    && after.campaigns == st.campaigns[c := row]
    && after.exposures == if submits then st.exposures[e := st.exposures[e].(status := RemovalSent)] else st.exposures
  }

  /** Only the user's own job is completed, with its result if there is one. */
  ghost predicate CompletionShows(cfg: Config, st: State, after: State, user: nat, j: nat, confirmation: string, result: string) {
    if j >= |st.jobs| || st.jobs[j].user != user then after == st
    else
      var job := st.jobs[j].(status := JobStatus.Completed, result := if result != "" then result else st.jobs[j].result);
      && after == st.(jobs := st.jobs[j := job], campaigns := after.campaigns, exposures := after.exposures)
      && if job.campaign.None? then after.campaigns == st.campaigns && after.exposures == st.exposures
         else job.campaign.value < |st.campaigns| && CampaignShows(cfg, st, after, job, confirmation, job.campaign.value)
  }

  lemma {:induction false} CompletedCampaignShows(cfg: Config, st: State, j: nat, job: Job, c: nat, confirmation: string)
    requires j < |st.jobs| && c < |st.campaigns| && st.campaigns[c].exposure < |st.exposures|
    ensures CampaignShows(cfg, st, WithCompletion(st, j, job, c,
      CompletedCampaign(cfg, st.campaigns[c], st.now, job.jobType, confirmation, job.result)), job, confirmation, c)
  {
    var x := Histories.Completion(st.now, job.jobType, confirmation, job.result);
    Histories.CompletedEvidence(cfg, st.campaigns[c], x);
    Histories.CompletedMeaning(job.jobType, confirmation);
    CompletedRow(cfg, st.campaigns[c], st.now, job.jobType, confirmation, job.result);
  }

  lemma {:induction false} CompletionIsShown(cfg: Config, st: State, user: nat, j: nat, confirmation: string, result: string)
    requires Reachable(cfg, st)
    ensures CompletionShows(cfg, st, AfterComplete(cfg, st, user, j, confirmation, result), user, j, confirmation, result)
  {
    ReachableIsSound(cfg, st);
    if OwnsJob(st, user, j) && st.jobs[j].campaign.Some? {
      var c := st.jobs[j].campaign.value;
      assert JobRefers(st, st.jobs[j]) && CampaignRefers(st, st.campaigns[c]);
      CompletedCampaignShows(cfg, st, j, CompletedJob(st.jobs[j], result), c, confirmation);
    }
  }

  /** The report goes under the default watchlist; a new exposure shows it without
      an identifier, with the severity it came with or else its scored one. */
  ghost predicate ReportShows(cfg: Config, st: State, after: State, user: nat, report: Triage.Finding,
                              severity: string, canary: bool, e: nat) {
    && e < |after.exposures| && DefaultShows(st, after, user)
    && (e == |st.exposures| ==>
          var f := report.(matchedValue := "", breachName := "",
                           severity := if severity == "" then Triage.ScoreSeverity(report) else severity);
          Sightings.SeenAs(cfg, after.exposures[e], [Sightings.Sighting(f, canary, st.now)]))
  }

  lemma {:induction false} DefaultIsFound(st: State, user: nat)
    ensures var w := DefaultWatchlist(st.watchlists, user);
      if exists x :: 0 <= x < |st.watchlists| && st.watchlists[x].user == user && st.watchlists[x].name == "Default watchlist"
      then w < |st.watchlists| && WithDefault(st, user) == st
      else (&& w == |st.watchlists|
            && WithDefault(st, user) == st.(watchlists := st.watchlists + [Watchlist(user, "Default watchlist", true, 24, None, None)]))
  {
  }

  lemma {:induction false} ReportedRows(cfg: Config, st: State, user: nat, report: Triage.Finding, severity: string, canary: bool, e: nat)
    requires e == HitOf(cfg, st.exposures, user, OnDevice(report, severity))
    ensures ReportShows(cfg, st, Reported(cfg, st, user, OnDevice(report, severity), canary), user, report, severity, canary, e)
  {
    var f := OnDevice(report, severity);
    DefaultIsFound(st, user);
    PersistHits(cfg, WithDefault(st, user), user, f, canary);
    Sightings.FirstSighting(cfg, st.now, user, f, canary);
    assert DefaultShows(st, Reported(cfg, st, user, f, canary), user);
  }

  lemma {:induction false} RemovalKeepsReport(cfg: Config, st: State, reported: State, user: nat, report: Triage.Finding,
                                              severity: string, canary: bool, e: nat, m: Matching)
    requires ReportShows(cfg, st, reported, user, report, severity, canary, e)
    ensures ReportShows(cfg, st, AfterQueueRemoval(cfg, reported, user, e, m.broker(e), m.jurisdiction, m.uuid(e)),
                        user, report, severity, canary, e)
  {
  }

  lemma {:induction false} ReportIsShown(cfg: Config, st: State, user: nat, report: Triage.Finding, severity: string,
                                         canary: bool, e: nat, auto: bool, m: Matching)
    requires e == HitOf(cfg, st.exposures, user, OnDevice(report, severity))
    ensures ReportShows(cfg, st, Exec(cfg, st, OnDeviceSteps(user, st.watchlists, OnDevice(report, severity), canary, e, auto, m)),
                        user, report, severity, canary, e)
  {
    OnDeviceRun(cfg, st, user, OnDevice(report, severity), canary, e, auto, m);
    ReportedRows(cfg, st, user, report, severity, canary, e);
    if auto {
      RemovalKeepsReport(cfg, st, Reported(cfg, st, user, OnDevice(report, severity), canary), user, report, severity, canary, e, m);
    }
  }

  /** Rows stay and keep their owner. */
  ghost predicate OwnersKept(a: seq<Exposure>, b: seq<Exposure>) {
    |a| <= |b| && forall e | 0 <= e < |a| :: b[e].user == a[e].user
  }

  class Store {
    const cfg: Config
    var now: int
    var accounts: map<nat, Account>
    var exposures: seq<Exposure>
    var campaigns: seq<Campaign>
    var jobs: seq<Job>
    var watchlists: seq<Watchlist>
    var runs: seq<MonitorRun>

    function View(): State
      reads this
    {
      State(now, accounts, exposures, campaigns, jobs, watchlists, runs)
    }

    /** The tables are what some run of steps makes of empty ones. */
    ghost predicate Valid()
      reads this
    {
      Reachable(cfg, View())
    }

    constructor (cfg: Config)
      ensures Valid() && this.cfg == cfg && View() == EMPTY
    {
      this.cfg := cfg;
      now, accounts := 0, map[];
      exposures, campaigns, jobs, watchlists, runs := [], [], [], [], [];
      new;
      EmptyIsReachable(cfg);
    }

    // ----------------------------------------------------------- surroundings

    method AdvanceClock(seconds: nat)
      requires Valid()
      modifies `now
      ensures Valid() && View() == old(View()).(now := old(now) + seconds)
    {
      ReachableStep(cfg, View(), Advance(seconds));
      now := now + seconds;
    }

    method ChangePlan(user: nat, account: Account)
      requires Valid()
      modifies `accounts
      ensures Valid() && View() == old(View()).(accounts := old(accounts)[user := account])
    {
      ReachableStep(cfg, View(), SetAccount(user, account));
      accounts := accounts[user := account];
    }

    method AddWatchlist(user: nat, name: string, active: bool, cadenceHours: int) returns (w: nat)
      requires Valid()
      modifies `watchlists
      ensures Valid() && w == |old(watchlists)|
      ensures View() == old(View()).(watchlists := old(watchlists) + [Watchlist(user, name, active, cadenceHours, None, None)])
    {
      ReachableStep(cfg, View(), CreateWatchlist(user, name, active, cadenceHours));
      w := |watchlists|;
      watchlists := watchlists + [Watchlist(user, name, active, cadenceHours, None, None)];
    }

    /** Editing a watchlist does not reschedule it. */
    method EditWatchlist(user: nat, w: nat, name: string, active: bool, cadenceHours: int) returns (r: Reply<()>)
      requires Valid()
      modifies `watchlists
      ensures Valid()
      ensures r.Done? <==> w < |old(watchlists)| && old(watchlists)[w].user == user
      ensures watchlists == if r.Done?
        then old(watchlists)[w := old(watchlists)[w].(name := name, active := active, cadenceHours := cadenceHours)]
        else old(watchlists)
    {
      ReachableStep(cfg, View(), Step.EditWatchlist(user, w, name, active, cadenceHours));
      if w >= |watchlists| || watchlists[w].user != user {
        return NotFound;
      }
      watchlists := watchlists[w := watchlists[w].(name := name, active := active, cadenceHours := cadenceHours)];
      r := Done(());
    }

    // ----------------------------------------------------------- findings

    /** `_persist_finding` */
    method PersistFinding(user: nat, finding: Triage.Finding, canary: bool) returns (e: nat, created: bool)
      requires Valid()
      modifies this
      ensures Valid()
      ensures View() == AfterPersist(cfg, old(View()), user, finding, canary)
      ensures e == HitOf(cfg, old(exposures), user, finding) < |exposures|
      ensures created == (e == |old(exposures)|) && |exposures| == |old(exposures)| + if created then 1 else 0
      ensures exposures[e].user == user
      ensures View() == old(View()).(exposures := if created then old(exposures) + [exposures[e]] else old(exposures)[e := exposures[e]])
      ensures created ==>
        && Sightings.SeenAs(cfg, exposures[e], [Sightings.Sighting(finding, canary, now)])
        && exposures[e].status == New && exposures[e].confidence == finding.confidence
      ensures !created ==>
        var row := old(exposures)[e];
        exposures[e] == row.(lastSeen := now, confidence := if row.confidence < finding.confidence then finding.confidence else row.confidence,
                             status := if row.status == ExposureStatus.Removed then Reappeared else row.status)
    {
      Sightings.FirstSighting(cfg, now, user, finding, canary);
      var blind := BlindOf(cfg.mac, finding);
      var fingerprint := FingerprintOf(cfg, finding);
      e := FindExposure(exposures, user, fingerprint);
      if e < |exposures| {
        var existing := exposures[e];
        existing := existing.(lastSeen := now);
        if finding.confidence > existing.confidence {
          existing := existing.(confidence := finding.confidence);
        }
        if existing.status == ExposureStatus.Removed {
          existing := existing.(status := Reappeared);
        }
        exposures := exposures[e := existing];
        created := false;
      } else {
        var exposure := Exposure(user, finding.kind, finding.severity, New, Truncate(finding.title, 300), finding.source,
                                 Truncate(finding.url, 500), blind, finding.confidence, fingerprint, now);
        if canary {
          exposure := exposure.(kind := "canary", severity := "critical");
        }
        exposures := exposures + [exposure];
        created := true;
      }
      PersistIsReachable(cfg, old(View()), user, finding, canary);
    }

    // ----------------------------------------------------------- removal

    /** `_within_send_quota` */
    method WithinQuota(user: nat, entitlement: Entitlement) returns (ok: bool)
      ensures ok == WithinSendQuota(View(), user, entitlement.maxSendsPerDay)
      ensures ok <==> entitlement.maxSendsPerDay == -1 || CountIf(jobs, SendsSince(user, now - 86_400)) < entitlement.maxSendsPerDay
    {
      if entitlement.maxSendsPerDay == UNLIMITED {
        return true;
      }
      var since := now - DAY;
      var recent := CountIf(jobs, SendsSince(user, since));
      ok := recent < entitlement.maxSendsPerDay;
    }

    /** The second half of `queue_removal`: the plan's send cap, then the jobs
        and the first receipt of a campaign. */
    method OpenCampaign(user: nat, e: nat, campaign: nat, jurisdiction: string)
      requires e < |exposures| && campaign < |campaigns|
      modifies `campaigns, `jobs
      ensures jobs == old(jobs) + if !MaySend(old(View()), user) then []
        else RemovalJobs(now, user, campaign, old(campaigns)[campaign].channel, ShouldDeindex(exposures[e]))
      ensures campaigns == old(campaigns)[campaign := WithOpening(cfg, old(View()), user, old(campaigns)[campaign], jurisdiction)]
    {
      var row := campaigns[campaign];
      var entitlements := EntitlementsOf(accounts, user);
      var within := WithinQuota(user, entitlements);
      if !within {
        row := row.(channel := Manual);
        row := AppendEvidence(cfg, row, "send_cap_reached", CapPayload(entitlements), "");
        campaigns := campaigns[campaign := row];
        return;
      }
      var jobType := SendEmail;
      if row.channel == WebForm {
        jobType := FillWebForm;
      }
      jobs := jobs + [NewJob(now, user, jobType, Some(campaign), None)];
      if ShouldDeindex(exposures[e]) {
        jobs := jobs + [NewJob(now, user, Deindex, Some(campaign), None)];
      }
      row := AppendEvidence(cfg, row, "request_queued", QueuedPayload(row.channel, jurisdiction, row.brokerId), "");
      campaigns := campaigns[campaign := row];
    }

    /** `queue_removal`: the campaign of the exposure, new or old. */
    method QueueCampaign(user: nat, e: nat, broker: Option<Broker>, jurisdiction: string, uuid: string)
      returns (campaign: nat)
      requires Valid() && e < |exposures| && exposures[e].user == user
      modifies this
      ensures Valid()
      ensures View() == AfterQueueRemoval(cfg, old(View()), user, e, broker, jurisdiction, uuid)
      ensures campaign < |campaigns| && campaign == NewestCampaign(campaigns, e)
    {
      if HasLiveCampaign(campaigns, e) {
        campaign := NewestCampaign(campaigns, e);
      } else {
        campaign := |campaigns|;
        campaigns := campaigns + [NewCampaign(cfg, now, user, e, broker, jurisdiction, uuid)];
        exposures := exposures[e := exposures[e].(status := RemovalQueued)];
        ghost var mid := View();
        OpenCampaign(user, e, campaign, jurisdiction);
        CampaignOpened(cfg, old(View()), mid, user, e, broker, jurisdiction, uuid, campaigns, jobs);
      }
      RemovalIsReachable(cfg, old(View()), user, e, broker, jurisdiction, uuid);
    }

    // ----------------------------------------------------------- monitoring

    method ScoreAll(found: seq<Triage.Finding>) returns (scored: seq<Triage.Finding>)
      ensures scored == Scored(found)
    {
      scored := [];
      for i := 0 to |found|
        invariant scored == Scored(found)[..i]
      {
        scored := scored + [found[i].(severity := Triage.ScoreSeverity(found[i]))];
      }
    }

    /** The sources' loop of `run_watchlist`: one that is not configured is
        skipped, one that fails contributes nothing and is not listed. */
    method Gather(sources: seq<Source>) returns (findings: seq<Triage.Finding>, checked: seq<string>)
      ensures findings == Gathered(sources) && checked == Checked(sources)
    {
      findings, checked := [], [];
      for i := 0 to |sources|
        invariant findings == Gathered(sources[..i]) && checked == Checked(sources[..i])
      {
        assert sources[..i + 1][..i] == sources[..i];
        var source := sources[i];
        if source.configured && source.answer.Some? {
          var found := ScoreAll(source.answer.value);
          findings := findings + found;
          checked := checked + [source.name];
        }
      }
      assert sources[..|sources|] == sources;
    }

    method PersistAll(user: nat, findings: seq<Triage.Finding>,
                      canary: Triage.Finding -> bool) returns (created: seq<nat>)
      requires Valid()
      modifies this
      ensures Valid() && View() == Persisted(cfg, old(View()), user, findings, canary)
      ensures |old(exposures)| <= |exposures| && created == Ids(|old(exposures)|, |exposures|)
    {
      created := [];
      for i := 0 to |findings|
        invariant Valid() && View() == Persisted(cfg, old(View()), user, findings[..i], canary)
        invariant |old(exposures)| <= |exposures| && created == Ids(|old(exposures)|, |exposures|)
      {
        PersistedNext(cfg, old(View()), user, findings, canary, i);
        var e, isNew := PersistFinding(user, findings[i], canary(findings[i]));
        if isNew {
          IdsGrow(|old(exposures)|, e);
          created := created + [e];
        }
      }
      assert findings[..|findings|] == findings;
    }

    method RemoveAll(user: nat, created: seq<nat>, m: Matching)
      requires Valid()
      requires forall k | 0 <= k < |created| :: created[k] < |exposures| && exposures[created[k]].user == user
      modifies this
      ensures Valid() && View() == RemovedAll(cfg, old(View()), user, created, m)
    {
      for i := 0 to |created|
        invariant Valid() && View() == RemovedAll(cfg, old(View()), user, created[..i], m)
        invariant OwnersKept(old(exposures), exposures)
      {
        assert created[..i + 1][..i] == created[..i];
        QueueRemovalGrows(cfg, View(), user, created[i], m.broker(created[i]), m.jurisdiction, m.uuid(created[i]));
        var campaign := QueueCampaign(user, created[i], m.broker(created[i]), m.jurisdiction, m.uuid(created[i]));
      }
      assert created[..|created|] == created;
    }

    /** The run's row and the watchlist's next run. */
    method FinishRun(w: nat, findingsCount: nat)
      requires w < |watchlists|
      modifies `runs, `watchlists
      ensures View() == AfterReschedule(Recorded(old(View()), w, findingsCount), w)
      ensures runs == old(runs) + [MonitorRun(w, findingsCount)]
      ensures watchlists == old(watchlists)[w := Scheduled(old(watchlists)[w], now)]
    {
      runs := runs + [MonitorRun(w, findingsCount)];
      var watchlist := watchlists[w].(lastRunAt := Some(now));
      watchlist := watchlist.(nextRunAt := Some(now + Max(watchlist.cadenceHours, 1) * HOUR));
      watchlists := watchlists[w := watchlist];
    }

    /** The findings of `run_watchlist` are persisted and the run recorded. */
    method Detect(user: nat, w: nat, sources: seq<Source>, canary: Triage.Finding -> bool)
      returns (findings: seq<Triage.Finding>, checked: seq<string>, created: seq<nat>)
      requires Valid() && w < |watchlists|
      modifies this
      ensures Valid() && findings == Triage.Pipeline(Gathered(sources)) && checked == Checked(sources)
      ensures View() == AfterRun(cfg, old(View()), user, w, findings, canary)
      ensures |old(exposures)| <= |exposures| && created == Ids(|old(exposures)|, |exposures|)
      ensures forall e | |old(exposures)| <= e < |exposures| :: exposures[e].user == user
      ensures runs == old(runs) + [MonitorRun(w, |findings|)] && now == old(now)
      ensures watchlists == old(watchlists)[w := Scheduled(old(watchlists)[w], now)]
    {
      var gathered, names := Gather(sources);
      checked := names;
      var unique := Triage.Dedupe(gathered);
      findings := Triage.SortedBySeverity(unique);
      PersistedRows(cfg, View(), user, findings, canary);
      created := PersistAll(user, findings, canary);
      FinishRun(w, |findings|);
      RunIsReachable(cfg, old(View()), user, w, findings, canary);
    }

    /** `run_watchlist`: the findings kept, the sources that answered and the
        exposures created. */
    method RunWatchlist(user: nat, w: nat, sources: seq<Source>, canary: Triage.Finding -> bool, auto: bool,
                        m: Matching)
      returns (findings: seq<Triage.Finding>, checked: seq<string>, created: seq<nat>)
      requires Valid() && w < |watchlists|
      modifies this
      ensures Valid() && findings == Triage.Pipeline(Gathered(sources)) && checked == Checked(sources)
      ensures View() == Exec(cfg, old(View()), RunSteps(user, w, findings, canary, created, auto, m))
      ensures |old(exposures)| <= |exposures| && created == Ids(|old(exposures)|, |exposures|)
      ensures runs == old(runs) + [MonitorRun(w, |findings|)] && now == old(now)
      ensures watchlists == old(watchlists)[w := Scheduled(old(watchlists)[w], now)]
    {
      findings, checked, created := Detect(user, w, sources, canary);
      RunningSteps(cfg, old(View()), user, w, findings, canary, created, auto, m);
      if auto {
        RemovalsKeepRows(cfg, View(), user, created, m);
        RemoveAll(user, created, m);
      }
    }

    /** A finding discovered on the user's device, recorded under the default
        watchlist, which is created when missing; several watchlists of that
        name are an error that changes nothing. */
    method HandleOnDeviceFinding(user: nat, report: Triage.Finding, severity: string, canary: bool,
                                 auto: bool, m: Matching)
      returns (r: Reply<nat>, created: bool)
      requires Valid()
      modifies this
      ensures Valid()
      ensures var copies := CountIf(old(watchlists), IsDefault(user));
        if copies > 1 then r.Rejected? && !created && View() == old(View())
        else
          var f := OnDevice(report, severity);
          && r.Done? && r.value == HitOf(cfg, old(exposures), user, f) && created == (r.value == |old(exposures)|)
          && View() == Exec(cfg, old(View()), OnDeviceSteps(user, old(watchlists), f, canary, r.value, created && auto, m))
    {
      created := false;
      if CountIf(watchlists, IsDefault(user)) > 1 {
        return Rejected("MultipleObjectsReturned"), false;
      }
      var finding := OnDevice(report, severity);
      ghost var st := View();
      var w := DefaultWatchlist(watchlists, user);
      if w == |watchlists| {
        watchlists := watchlists + [Watchlist(user, DEFAULT_NAME, true, 24, None, None)];
      }
      CountNone(old(watchlists), IsDefault(user));
      WithDefaultIsReachable(cfg, st, user);
      assert View() == WithDefault(st, user);
      var e, isNew := PersistFinding(user, finding, canary);
      created := isNew;
      RecordedIsReachable(cfg, View(), w, 1);
      runs := runs + [MonitorRun(w, 1)];
      OnDeviceRun(cfg, st, user, finding, canary, e, created && auto, m);
      if created && auto {
        var campaign := QueueCampaign(user, e, m.broker(e), m.jurisdiction, m.uuid(e));
      }
      r := Done(e);
    }

    // ----------------------------------------------------------- endpoints

    method Dismiss(user: nat, e: nat) returns (r: Reply<()>)
      requires Valid()
      modifies `exposures
      ensures Valid() && View() == AfterDismiss(old(View()), user, e)
      ensures r.Done? <==> e < |exposures| && exposures[e].user == user
      ensures exposures == if r.Done? then old(exposures)[e := old(exposures)[e].(status := Dismissed)] else old(exposures)
    {
      ReachableStep(cfg, View(), Step.Dismiss(user, e));
      if e >= |exposures| || exposures[e].user != user {
        return NotFound;
      }
      exposures := exposures[e := exposures[e].(status := Dismissed)];
      r := Done(());
    }

    method RequestRemoval(user: nat, e: nat, m: Matching) returns (r: Reply<nat>)
      requires Valid()
      modifies this
      ensures Valid()
      ensures View() == AfterQueueRemoval(cfg, old(View()), user, e, m.broker(e), m.jurisdiction, m.uuid(e))
      ensures r.Done? <==> e < |old(exposures)| && old(exposures)[e].user == user
      ensures r.Done? ==> r.value < |campaigns| && r.value == NewestCampaign(campaigns, e)
      ensures RemovalShows(cfg, old(View()), View(), RemovalStep(user, e, m))
    {
      ReachableRemoval(cfg, View(), RemovalStep(user, e, m));
      if e >= |exposures| || exposures[e].user != user {
        return NotFound;
      }
      var campaign := QueueCampaign(user, e, m.broker(e), m.jurisdiction, m.uuid(e));
      r := Done(campaign);
    }

    /** Claiming is refused unless the job is queued or failed. */
    method Claim(user: nat, j: nat) returns (r: Reply<nat>)
      requires Valid()
      modifies `jobs
      ensures Valid() && View() == AfterClaim(old(View()), user, j)
      ensures r.NotFound? <==> !(j < |old(jobs)| && old(jobs)[j].user == user)
      ensures !r.NotFound? ==> (r.Done? <==> old(jobs)[j].status in {JobStatus.Queued, JobStatus.Failed})
      ensures r.Done? ==>
        && r.value == old(jobs)[j].attempts + 1
        && jobs == old(jobs)[j := old(jobs)[j].(status := JobStatus.Claimed, attempts := r.value)]
      ensures !r.Done? ==> jobs == old(jobs)
    {
      ReachableStep(cfg, View(), Step.Claim(user, j));
      if j >= |jobs| || jobs[j].user != user {
        return NotFound;
      }
      var job := jobs[j];
      if job.status != JobStatus.Queued && job.status != JobStatus.Failed {
        return Rejected("job is not claimable");
      }
      job := job.(status := JobStatus.Claimed);
      job := job.(attempts := job.attempts + 1);
      jobs := jobs[j := job];
      r := Done(job.attempts);
    }

    method Fail(user: nat, j: nat) returns (r: Reply<()>)
      requires Valid()
      modifies `jobs
      ensures Valid() && View() == AfterFail(old(View()), user, j)
      ensures r.Done? <==> j < |old(jobs)| && old(jobs)[j].user == user
      ensures jobs == if r.Done? then old(jobs)[j := old(jobs)[j].(status := JobStatus.Failed)] else old(jobs)
    {
      ReachableStep(cfg, View(), Step.Fail(user, j));
      if j >= |jobs| || jobs[j].user != user {
        return NotFound;
      }
      jobs := jobs[j := jobs[j].(status := JobStatus.Failed)];
      r := Done(());
    }

    /** Completing a job leaves a receipt; unless it is a DEINDEX job it also
        marks the campaign submitted and its exposure sent. */
    method Complete(user: nat, j: nat, confirmation: string, result: string) returns (r: Reply<()>)
      requires Valid()
      modifies `jobs, `campaigns, `exposures
      ensures Valid() && View() == AfterComplete(cfg, old(View()), user, j, confirmation, result)
      ensures r.Done? <==> j < |old(jobs)| && old(jobs)[j].user == user
    {
      CompleteIsReachable(cfg, View(), user, j, confirmation, result);
      ReachableRows(cfg, View());
      if j >= |jobs| || jobs[j].user != user {
        return NotFound;
      }
      r := Done(());
      var job := jobs[j].(status := JobStatus.Completed);
      if result != "" {
        job := job.(result := result);
      }
      jobs := jobs[j := job];
      if job.campaign.Some? && job.campaign.value < |campaigns| {
        var c := job.campaign.value;
        var campaign := AppendEvidence(cfg, campaigns[c], "job_completed", CompletedPayload(job.jobType, confirmation), job.result);
        if job.jobType != Deindex {
          campaign := campaign.(status := CampaignStatus.Submitted, submittedAt := Some(now));
          if confirmation != "" {
            campaign := campaign.(confirmationCode := Truncate(confirmation, 200));
          }
          var e := campaign.exposure;
          exposures := exposures[e := exposures[e].(status := RemovalSent)];
        }
        campaigns := campaigns[c := campaign];
      }
    }

    // ----------------------------------------------------------- heartbeat

    /** One campaign's turn in `verify_due_campaigns`. */
    method VerifyIfDue(user: nat, c: nat) returns (queued: bool)
      requires c < |campaigns|
      modifies `jobs
      ensures View() == AfterVerify(cfg, old(View()), user, c)
      ensures queued <==>
        var row := campaigns[c];
        var since := if row.submittedAt.Some? then row.submittedAt.value
                     else if row.completedAt.Some? then row.completedAt.value else row.createdAt;
        && row.user == user && now - since >= cfg.verifyDays * 86_400
        && row.status in {CampaignStatus.Submitted, CampaignStatus.AwaitingResponse, CampaignStatus.Removed}
      ensures jobs == old(jobs) + if queued then [Job(user, VerifyRemoval, Some(c), None, JobStatus.Queued, 0, now, "")] else []
      ensures CountIf(jobs, IsEscalation()) == CountIf(old(jobs), IsEscalation())
    {
      if campaigns[c].user != user || !NeedsVerification(campaigns[c], cfg.verifyDays, now) {
        return false;
      }
      var job := NewJob(now, user, VerifyRemoval, Some(c), None);
      CountAppend(jobs, job, IsEscalation());
      jobs := jobs + [job];
      queued := true;
    }

    /** `verify_due_campaigns` */
    method VerifyDueCampaigns(user: nat) returns (queued: nat)
      requires Valid()
      modifies `jobs
      ensures Valid() && View() == Exec(cfg, old(View()), VerifySteps(user, |campaigns|))
      ensures |jobs| == |old(jobs)| + queued
      ensures CountIf(jobs, IsEscalation()) == CountIf(old(jobs), IsEscalation())
    {
      ghost var passed := Exec(cfg, View(), VerifySteps(user, |campaigns|));
      ReachableSteps(cfg, View(), VerifySteps(user, |campaigns|));
      queued := 0;
      var i: nat := |campaigns|;
      while i > 0
        invariant i <= |campaigns| && |jobs| == |old(jobs)| + queued
        invariant Exec(cfg, View(), VerifySteps(user, i)) == passed
        invariant CountIf(jobs, IsEscalation()) == CountIf(old(jobs), IsEscalation())
      {
        i := i - 1;
        VerifyFirst(cfg, View(), user, i);
        var due := VerifyIfDue(user, i);
        if due {
          queued := queued + 1;
        }
      }
    }

    /** One campaign's turn in `escalate_overdue_campaigns`. */
    method EscalateIfOverdue(user: nat, c: nat) returns (escalated: bool)
      requires c < |campaigns| && campaigns[c].exposure < |exposures|
      modifies `jobs, `campaigns, `exposures
      ensures View() == AfterEscalate(old(View()), user, c)
      ensures |jobs| == |old(jobs)| + (if escalated then 1 else 0) && |exposures| == |old(exposures)|
      ensures CountIf(jobs, IsEscalation()) == CountIf(old(jobs), IsEscalation()) + if escalated then 1 else 0
      ensures |campaigns| == |old(campaigns)| && forall d | 0 <= d < |campaigns| :: campaigns[d].exposure == old(campaigns)[d].exposure
    {
      if campaigns[c].user != user || !IsOverdue(campaigns[c], now) {
        return false;
      }
      var e := campaigns[c].exposure;
      campaigns := campaigns[c := campaigns[c].(status := CampaignStatus.Escalated)];
      exposures := exposures[e := exposures[e].(status := ExposureStatus.Failed)];
      var job := NewJob(now, user, Escalate, Some(c), None);
      CountAppend(jobs, job, IsEscalation());
      jobs := jobs + [job];
      escalated := true;
    }

    /** `escalate_overdue_campaigns` */
    method EscalateOverdueCampaigns(user: nat) returns (escalated: nat)
      requires Valid()
      modifies `jobs, `campaigns, `exposures
      ensures Valid() && View() == Exec(cfg, old(View()), EscalateSteps(user, |campaigns|))
      ensures |campaigns| == |old(campaigns)| && |jobs| == |old(jobs)| + escalated
      ensures CountIf(jobs, IsEscalation()) == CountIf(old(jobs), IsEscalation()) + escalated
    {
      ghost var passed := Exec(cfg, View(), EscalateSteps(user, |campaigns|));
      ReachableSteps(cfg, View(), EscalateSteps(user, |campaigns|));
      ReachableRows(cfg, View());
      escalated := 0;
      var i: nat := |campaigns|;
      while i > 0
        invariant i <= |campaigns| == |old(campaigns)| && |jobs| == |old(jobs)| + escalated
        invariant forall c | 0 <= c < |campaigns| :: campaigns[c].exposure < |exposures|
        invariant Exec(cfg, View(), EscalateSteps(user, i)) == passed
        invariant CountIf(jobs, IsEscalation()) == CountIf(old(jobs), IsEscalation()) + escalated
      {
        i := i - 1;
        EscalateFirst(cfg, View(), user, i);
        var overdue := EscalateIfOverdue(user, i);
        if overdue {
          escalated := escalated + 1;
        }
      }
    }

    /** One user's turn in `process_user_campaigns`. */
    method ServeUser(user: nat) returns (verified: nat, escalated: nat)
      requires Valid()
      modifies `jobs, `campaigns, `exposures
      ensures Valid() && |campaigns| == |old(campaigns)|
      ensures View() == Exec(cfg, Exec(cfg, old(View()), VerifySteps(user, |campaigns|)), EscalateSteps(user, |campaigns|))
      ensures |jobs| == |old(jobs)| + verified + escalated
      ensures CountIf(jobs, IsEscalation()) == CountIf(old(jobs), IsEscalation()) + escalated
    {
      verified := VerifyDueCampaigns(user);
      escalated := EscalateOverdueCampaigns(user);
    }

    /** `process_user_campaigns`, in whatever order the users come. */
    method ProcessUserCampaigns() returns (verified: nat, escalated: nat, served: seq<nat>)
      requires Valid()
      modifies `jobs, `campaigns, `exposures
      ensures Valid() && ServesAll(old(campaigns), served) && DistinctUsers(served)
      ensures View() == Exec(cfg, old(View()), PassSteps(served, |campaigns|))
      ensures |jobs| == |old(jobs)| + verified + escalated
      ensures CountIf(jobs, IsEscalation()) == CountIf(old(jobs), IsEscalation()) + escalated
      ensures escalated == CountIf(old(campaigns), Histories.LateAt(cfg, now)) && NoneOverdue(View())
      ensures |campaigns| == |old(campaigns)|
      ensures forall c | 0 <= c < |campaigns| :: Histories.EscalatedIfLate(cfg, old(View()), View(), c)
    {
      var pending := set c: Campaign | c in campaigns && c.status != CampaignStatus.Verified && c.status != CampaignStatus.Cancelled :: c.user;
      ghost var users := pending;
      verified, escalated, served := 0, 0, [];
      while pending != {}
        invariant Valid() && |campaigns| == |old(campaigns)|
        invariant forall u | u in users :: u in pending || u in served
        invariant DistinctUsers(served)
        invariant forall u | u in served :: u !in pending
        invariant View() == Exec(cfg, old(View()), PassSteps(served, |campaigns|))
        invariant |jobs| == |old(jobs)| + verified + escalated
        invariant CountIf(jobs, IsEscalation()) == CountIf(old(jobs), IsEscalation()) + escalated
      {
        var u :| u in pending;
        pending := pending - {u};
        OneMoreUser(cfg, old(View()), served, u, |campaigns|);
        var v, e := ServeUser(u);
        verified, escalated := verified + v, escalated + e;
        ServedOnce(served, u);
        served := served + [u];
      }
      PassOnLate(cfg, old(View()), served);
    }

    /** One watchlist's turn in `queue_due_watchlist_jobs`. */
    method QueueIfDue(w: nat) returns (queued: bool)
      requires w < |watchlists|
      modifies `jobs, `watchlists
      ensures View() == AfterQueueMonitor(old(View()), w)
      ensures var x := old(watchlists)[w];
        && (queued <==> TimeHasCome(x, now) && forall j | 0 <= j < |old(jobs)| :: !LiveMonitorOf(old(jobs)[j], w))
        && jobs == old(jobs) + (if queued then [Job(x.user, Monitor, None, Some(w), JobStatus.Queued, 0, now, "")] else [])
        && watchlists == old(watchlists)[w := if !TimeHasCome(x, now) then x
             else x.(nextRunAt := Some(now + (if x.cadenceHours > 1 then x.cadenceHours else 1) * 3600))]
    {
      queued := false;
      var watchlist := watchlists[w];
      if !IsDue(watchlist, now) {
        return;
      }
      CountNone(jobs, LiveMonitor(w));
      assert forall j | 0 <= j < |jobs| :: LiveMonitor(w)(jobs[j]) <==> LiveMonitorOf(jobs[j], w);
      var already := CountIf(jobs, LiveMonitor(w)) > 0;
      if !already {
        jobs := jobs + [NewJob(now, watchlist.user, Monitor, None, Some(w))];
        queued := true;
      }
      watchlists := watchlists[w := watchlist.(nextRunAt := Some(now + Max(watchlist.cadenceHours, 1) * HOUR))];
    }

    /** `queue_due_watchlist_jobs` */
    method QueueDueWatchlistJobs() returns (queued: nat)
      requires Valid()
      modifies `jobs, `watchlists
      ensures Valid() && View() == Exec(cfg, old(View()), TickSteps(|old(watchlists)|))
      ensures |jobs| == |old(jobs)| + queued && queued == Unserved(old(View()), |old(watchlists)|) && NoneDue(View())
    {
      ghost var ticked := Exec(cfg, View(), TickSteps(|watchlists|));
      ReachableSteps(cfg, View(), TickSteps(|watchlists|));
      TickServesEveryDueWatchlist(cfg, View());
      queued := 0;
      var w: nat := |watchlists|;
      while w > 0
        invariant w <= |watchlists| && |jobs| == |old(jobs)| + queued
        invariant Exec(cfg, View(), TickSteps(w)) == ticked
      {
        w := w - 1;
        TickFirst(cfg, View(), w);
        var added := QueueIfDue(w);
        if added {
          queued := queued + 1;
        }
      }
    }
  }
}
