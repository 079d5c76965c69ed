/** An exposure's row is told by the findings that were persisted to it. */
module Sightings {
  import opened Prelude
  import opened Records
  import opened Sentinel
  import opened StatusInvariant
  import opened ExposureInvariant
  import Identifiers
  import Triage

  /** One finding as it was persisted. */
  datatype Sighting = Sighting(finding: Triage.Finding, canary: bool, at: int)

  /** Every finding of a subject that a run persists, in order. */
  ghost function SightingsIn(cfg: Config, trace: seq<Step>, user: nat, fingerprint: string): seq<Sighting> {
    if trace == [] then []
    else
      var n := |trace| - 1;
      SightingsIn(cfg, trace[..n], user, fingerprint)
      + if Persists(cfg, trace[n], user, fingerprint)
        then [Sighting(trace[n].finding, trace[n].canary, StateAfter(cfg, trace[..n]).now)] else []
  }

  /** The blind index of a finding's identifier; none without a value. */
  function IndexOf(cfg: Config, f: Triage.Finding): string {
    var kind := if f.matchedKind == "" then "other" else f.matchedKind;
    var value := Identifiers.NormalizeIdentifier(kind, f.matchedValue);
    if f.matchedValue == "" || value == "" then "" else cfg.mac(kind + ":" + value)
  }

  function First(s: string, n: nat): string {
    if |s| > n then s[..n] else s
  }

  /** The row is that of its first finding, last seen with the last. */
  ghost predicate SeenAs(cfg: Config, e: Exposure, log: seq<Sighting>) {
    && log != []
    && var f := log[0].finding;
    && e.kind == (if log[0].canary then "canary" else f.kind)
    && e.severity == (if log[0].canary then "critical" else f.severity)
    && e.title == First(f.title, 300) && e.url == First(f.url, 500) && e.source == f.source
    && e.blindIndex == IndexOf(cfg, f)
    && e.fingerprint == cfg.sha(f.source + "|" + f.kind + "|" + f.breachName + "|" + f.url + "|" + IndexOf(cfg, f))
    && e.lastSeen == log[|log| - 1].at
  }

  lemma {:induction false} IndexIsBlind(cfg: Config, f: Triage.Finding)
    ensures BlindOf(cfg.mac, f) == IndexOf(cfg, f)
  {
    var kind := if f.matchedKind == "" then "other" else f.matchedKind;
    var value := Identifiers.NormalizeIdentifier(kind, f.matchedValue);
    assert Identifiers.IndexMessage(kind, value) == kind + ":" + value;
  }

  lemma {:induction false} FirstSighting(cfg: Config, now: int, user: nat, f: Triage.Finding, canary: bool)
    ensures SeenAs(cfg, NewExposure(cfg, now, user, f, canary), [Sighting(f, canary, now)])
  {
    IndexIsBlind(cfg, f);
    Triage.FingerprintIs(cfg.sha, f, BlindOf(cfg.mac, f));
  }

  lemma {:induction false} LaterSighting(cfg: Config, e: Exposure, log: seq<Sighting>, x: Sighting)
    requires SeenAs(cfg, e, log)
    ensures SeenAs(cfg, SeenAgain(e, x.at, x.finding.confidence), log + [x])
  {
    assert (log + [x])[0] == log[0];
  }

  lemma {:induction false} NoneSeenBefore(cfg: Config, trace: seq<Step>, user: nat, fingerprint: string)
    requires forall k | 0 <= k < |trace| :: !Persists(cfg, trace[k], user, fingerprint)
    ensures SightingsIn(cfg, trace, user, fingerprint) == []
  {
    if trace != [] {
      var n := |trace| - 1;
      assert forall k | 0 <= k < n :: trace[..n][k] == trace[k];
      NoneSeenBefore(cfg, trace[..n], user, fingerprint);
    }
  }

  lemma {:induction false} NewSubject(cfg: Config, trace: seq<Step>, exposures: seq<Exposure>, user: nat, fingerprint: string)
    requires AllRecorded(cfg, trace, exposures) && FindExposure(exposures, user, fingerprint) == |exposures|
    ensures SightingsIn(cfg, trace, user, fingerprint) == []
  {
    forall k | 0 <= k < |trace| ensures !Persists(cfg, trace[k], user, fingerprint) {
      assert trace[k].Persist? ==> HitOf(cfg, exposures, trace[k].user, trace[k].finding) < |exposures|;
    }
    NoneSeenBefore(cfg, trace, user, fingerprint);
  }

  /** What persisting a finding makes of each row. */
  lemma {:induction false} PersistRow(cfg: Config, st: State, step: Step, e: nat)
    requires step.Persist? && Unique(st.exposures)
    requires e < |AfterPersist(cfg, st, step.user, step.finding, step.canary).exposures|
    ensures var after := AfterPersist(cfg, st, step.user, step.finding, step.canary).exposures;
            var mine := Persists(cfg, step, after[e].user, after[e].fingerprint);
      if e == |st.exposures|
      then && mine && after[e] == NewExposure(cfg, st.now, step.user, step.finding, step.canary)
           && FindExposure(st.exposures, after[e].user, after[e].fingerprint) == |st.exposures|
      else if mine then after[e] == SeenAgain(st.exposures[e], st.now, step.finding.confidence)
      else after[e] == st.exposures[e]
  {
    var fp := FingerprintOf(cfg, step.finding);
    var i := FindExposure(st.exposures, step.user, fp);
    if e < |st.exposures| && st.exposures[e].user == step.user && st.exposures[e].fingerprint == fp {
      OneSubjectOneRow(st.exposures, e, i, step.user, fp);
    }
  }

  lemma {:induction false} SeenAfterPersist(cfg: Config, trace: seq<Step>, st: State, step: Step, e: nat, row: Exposure)
    requires step.Persist? && Unique(st.exposures) && AllRecorded(cfg, trace, st.exposures)
    requires e < |st.exposures| ==> SeenAs(cfg, st.exposures[e], SightingsIn(cfg, trace, row.user, row.fingerprint))
    requires var after := AfterPersist(cfg, st, step.user, step.finding, step.canary).exposures;
      e < |after| && row == after[e]
    ensures SeenAs(cfg, row, SightingsIn(cfg, trace, row.user, row.fingerprint)
      + if Persists(cfg, step, row.user, row.fingerprint) then [Sighting(step.finding, step.canary, st.now)] else [])
  {
    var log := SightingsIn(cfg, trace, row.user, row.fingerprint);
    PersistRow(cfg, st, step, e);
    if e == |st.exposures| {
      NewSubject(cfg, trace, st.exposures, row.user, row.fingerprint);
      FirstSighting(cfg, st.now, step.user, step.finding, step.canary);
      assert [] + [Sighting(step.finding, step.canary, st.now)] == [Sighting(step.finding, step.canary, st.now)];
    } else if Persists(cfg, step, row.user, row.fingerprint) {
      LaterSighting(cfg, st.exposures[e], log, Sighting(step.finding, step.canary, st.now));
    } else {
      assert log + [] == log;
    }
  }

  /** In every run an exposure shows its first finding, cut to the column sizes,
      under its blind index and the hash of its parts, and when it was last
      reported. */
  lemma {:induction false} ExposureShowsSightings(cfg: Config, trace: seq<Step>, e: nat)
    requires e < |StateAfter(cfg, trace).exposures|
    ensures var row := StateAfter(cfg, trace).exposures[e];
      SeenAs(cfg, row, SightingsIn(cfg, trace, row.user, row.fingerprint))
  {
    var n := |trace| - 1;
    var st, step := StateAfter(cfg, trace[..n]), trace[n];
    var row := StateAfter(cfg, trace).exposures[e];
    ExposuresAreUniqueAndMaximal(cfg, trace[..n]);
    ApplyGrows(cfg, st, step);
    if e < |st.exposures| {
      ExposureShowsSightings(cfg, trace[..n], e);
      assert SameExposure(st.exposures[e], row);
    }
    SeenAfterStep(cfg, trace[..n], st, step, e, row);
  }

  lemma {:induction false} SeenAfterStep(cfg: Config, trace: seq<Step>, st: State, step: Step, e: nat, row: Exposure)
    requires Unique(st.exposures) && AllRecorded(cfg, trace, st.exposures)
    requires e < |st.exposures| ==> SeenAs(cfg, st.exposures[e], SightingsIn(cfg, trace, row.user, row.fingerprint))
    requires var after := Apply(cfg, st, step).exposures;
      e < |after| && row == after[e]
    ensures SeenAs(cfg, row, SightingsIn(cfg, trace, row.user, row.fingerprint)
      + if Persists(cfg, step, row.user, row.fingerprint) then [Sighting(step.finding, step.canary, st.now)] else [])
  {
    if step.Persist? {
      ApplyPersist(cfg, st, step);
      SeenAfterPersist(cfg, trace, st, step, e, row);
    } else {
      var log := SightingsIn(cfg, trace, row.user, row.fingerprint);
      OtherStepsKeepExposures(cfg, st, step);
      assert log + [] == log;
    }
  }
}
