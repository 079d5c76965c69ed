/** Exposures are unique per user and fingerprint, carry the highest confidence
    ever reported, and account for the findings of a run. */
module ExposureInvariant {
  import opened Prelude
  import opened Records
  import opened Sentinel
  import opened StatusInvariant
  import Triage
  import Identifiers
  import Strings

  ghost predicate SameSubject(e: Exposure, user: nat, fingerprint: string) {
    e.user == user && e.fingerprint == fingerprint
  }

  ghost predicate Unique(exposures: seq<Exposure>) {
    forall i, j | 0 <= i < j < |exposures| :: !SameSubject(exposures[i], exposures[j].user, exposures[j].fingerprint)
  }

  lemma {:induction false} OneSubjectOneRow(exposures: seq<Exposure>, i: nat, j: nat, user: nat, fingerprint: string)
    requires Unique(exposures) && i < |exposures| && j < |exposures|
    requires SameSubject(exposures[i], user, fingerprint) && SameSubject(exposures[j], user, fingerprint)
    ensures i == j
  {
  }

  // ------------------------------------------------------------- hits

  lemma {:induction false} HitStays(a: seq<Exposure>, b: seq<Exposure>, user: nat, fingerprint: string)
    requires |a| <= |b| && forall e | 0 <= e < |a| :: SameExposure(a[e], b[e])
    requires FindExposure(a, user, fingerprint) < |a|
    ensures FindExposure(b, user, fingerprint) == FindExposure(a, user, fingerprint)
  {
    var i := FindExposure(a, user, fingerprint);
    var j := FindExposure(b, user, fingerprint);
    assert forall e | 0 <= e <= i :: SameExposure(a[e], b[e]);
  }

  lemma {:induction false} PersistHits(cfg: Config, st: State, user: nat, f: Triage.Finding, canary: bool)
    ensures var after := AfterPersist(cfg, st, user, f, canary);
      && HitOf(cfg, after.exposures, user, f) == HitOf(cfg, st.exposures, user, f) < |after.exposures|
      && |after.exposures| == |st.exposures| + if HitOf(cfg, st.exposures, user, f) < |st.exposures| then 0 else 1
  {
    var after := AfterPersist(cfg, st, user, f, canary);
    var fp := FingerprintOf(cfg, f);
    var i := FindExposure(st.exposures, user, fp);
    if i < |st.exposures| {
      HitStays(st.exposures, after.exposures, user, fp);
    } else {
      assert after.exposures[i].user == user && after.exposures[i].fingerprint == fp;
      assert forall j | 0 <= j < i :: after.exposures[j] == st.exposures[j];
    }
  }

  // ------------------------------------------------------------- runs

  /** Step k of a run persists a finding about this subject. */
  ghost predicate Persists(cfg: Config, step: Step, user: nat, fingerprint: string) {
    step.Persist? && step.user == user && FingerprintOf(cfg, step.finding) == fingerprint
  }

  ghost predicate AtMost(cfg: Config, trace: seq<Step>, e: Exposure) {
    forall k | 0 <= k < |trace| && Persists(cfg, trace[k], e.user, e.fingerprint) ::
      trace[k].finding.confidence <= e.confidence
  }

  ghost predicate Reached(cfg: Config, trace: seq<Step>, e: Exposure) {
    exists k :: 0 <= k < |trace| && Persists(cfg, trace[k], e.user, e.fingerprint) && trace[k].finding.confidence == e.confidence
  }

  ghost predicate ConfidencesAreMaximal(cfg: Config, trace: seq<Step>, exposures: seq<Exposure>) {
    forall e | 0 <= e < |exposures| :: AtMost(cfg, trace, exposures[e]) && Reached(cfg, trace, exposures[e])
  }

  ghost predicate AllRecorded(cfg: Config, trace: seq<Step>, exposures: seq<Exposure>) {
    forall k | 0 <= k < |trace| && trace[k].Persist? :: HitOf(cfg, exposures, trace[k].user, trace[k].finding) < |exposures|
  }

  ghost predicate SameFindings(a: seq<Exposure>, b: seq<Exposure>) {
    |a| == |b| && forall e | 0 <= e < |a| :: b[e] == a[e].(status := b[e].status)
  }

  lemma {:induction false} StatusUpdateKeepsFindings(exposures: seq<Exposure>, e: nat, status: ExposureStatus)
    requires e < |exposures|
    ensures SameFindings(exposures, exposures[e := exposures[e].(status := status)])
  {
  }

  /** Steps that persist nothing keep subjects and confidences. */
  lemma {:induction false} OtherStepsKeepExposures(cfg: Config, st: State, step: Step)
    requires !step.Persist?
    ensures SameFindings(st.exposures, Apply(cfg, st, step).exposures)
  {
    match step
    case QueueRemoval(_, e, _, _, _) =>
      if e < |st.exposures| { StatusUpdateKeepsFindings(st.exposures, e, RemovalQueued); }
    case Dismiss(_, e) =>
      if e < |st.exposures| { StatusUpdateKeepsFindings(st.exposures, e, Dismissed); }
    case Complete(user, j, _, _) =>
      if OwnsJob(st, user, j) && st.jobs[j].campaign.Some? && st.jobs[j].campaign.value < |st.campaigns| {
        var e := st.campaigns[st.jobs[j].campaign.value].exposure;
        if e < |st.exposures| { StatusUpdateKeepsFindings(st.exposures, e, RemovalSent); }
      }
    case EscalateCampaign(user, c) =>
      if EscalatesNow(st, user, c) { StatusUpdateKeepsFindings(st.exposures, st.campaigns[c].exposure, ExposureStatus.Failed); }
    case _ =>
  }

  lemma {:induction false} PersistKeepsUnique(cfg: Config, st: State, user: nat, f: Triage.Finding, canary: bool)
    requires Unique(st.exposures)
    ensures Unique(AfterPersist(cfg, st, user, f, canary).exposures)
  {
    var i := HitOf(cfg, st.exposures, user, f);
    var after := AfterPersist(cfg, st, user, f, canary).exposures;
    forall a, b | 0 <= a < b < |after| ensures !SameSubject(after[a], after[b].user, after[b].fingerprint) {
      if b < |st.exposures| {
        assert !SameSubject(st.exposures[a], st.exposures[b].user, st.exposures[b].fingerprint);
      }
    }
  }

  lemma {:induction false} UniqueKept(a: seq<Exposure>, b: seq<Exposure>)
    requires Unique(a) && |a| == |b| && forall e | 0 <= e < |a| :: SameExposure(a[e], b[e])
    ensures Unique(b)
  {
    forall i, j | 0 <= i < j < |b| ensures !SameSubject(b[i], b[j].user, b[j].fingerprint) {
      assert !SameSubject(a[i], a[j].user, a[j].fingerprint) && SameExposure(a[i], b[i]) && SameExposure(a[j], b[j]);
    }
  }

  /** A longer run, for an exposure that its last step does not touch. */
  lemma {:induction false} ConfidenceKept(cfg: Config, trace: seq<Step>, step: Step, a: Exposure, b: Exposure)
    requires AtMost(cfg, trace, a) && Reached(cfg, trace, a)
    requires a.user == b.user && a.fingerprint == b.fingerprint && a.confidence == b.confidence
    requires Persists(cfg, step, b.user, b.fingerprint) ==> step.finding.confidence <= b.confidence
    ensures AtMost(cfg, trace + [step], b) && Reached(cfg, trace + [step], b)
  {
    var longer := trace + [step];
    var k :| 0 <= k < |trace| && Persists(cfg, trace[k], a.user, a.fingerprint) && trace[k].finding.confidence == a.confidence;
    assert longer[k] == trace[k];
    forall m | 0 <= m < |longer| && Persists(cfg, longer[m], b.user, b.fingerprint)
      ensures longer[m].finding.confidence <= b.confidence
    {
      assert m < |trace| ==> longer[m] == trace[m];
    }
  }

  /** A longer run whose last step sets the exposure's confidence. */
  lemma {:induction false} ConfidenceRaised(cfg: Config, trace: seq<Step>, step: Step, b: Exposure)
    requires Persists(cfg, step, b.user, b.fingerprint) && step.finding.confidence == b.confidence
    requires AtMost(cfg, trace, b)
    ensures AtMost(cfg, trace + [step], b) && Reached(cfg, trace + [step], b)
  {
    var longer := trace + [step];
    assert longer[|trace|] == step;
    forall m | 0 <= m < |longer| && Persists(cfg, longer[m], b.user, b.fingerprint)
      ensures longer[m].finding.confidence <= b.confidence
    {
      assert m < |trace| ==> longer[m] == trace[m];
    }
  }

  lemma {:induction false} PersistConfidence(cfg: Config, trace: seq<Step>, st: State, step: Step, e: nat)
    requires step.Persist? && Unique(st.exposures)
    requires ConfidencesAreMaximal(cfg, trace, st.exposures) && AllRecorded(cfg, trace, st.exposures)
    requires e < |AfterPersist(cfg, st, step.user, step.finding, step.canary).exposures|
    ensures var after := AfterPersist(cfg, st, step.user, step.finding, step.canary).exposures;
      AtMost(cfg, trace + [step], after[e]) && Reached(cfg, trace + [step], after[e])
  {
    var after := AfterPersist(cfg, st, step.user, step.finding, step.canary).exposures;
    var fp := FingerprintOf(cfg, step.finding);
    var i := FindExposure(st.exposures, step.user, fp);
    if e == |st.exposures| {
      forall k | 0 <= k < |trace| ensures !Persists(cfg, trace[k], step.user, fp) {
        assert trace[k].Persist? ==> HitOf(cfg, st.exposures, trace[k].user, trace[k].finding) < |st.exposures|;
      }
      ConfidenceRaised(cfg, trace, step, after[e]);
    } else if e == i && step.finding.confidence > st.exposures[i].confidence {
      assert AtMost(cfg, trace, st.exposures[i]);
      ConfidenceRaised(cfg, trace, step, after[e]);
    } else {
      assert AtMost(cfg, trace, st.exposures[e]);
      if Persists(cfg, step, after[e].user, after[e].fingerprint) {
        OneSubjectOneRow(st.exposures, e, i, step.user, fp);
      }
      ConfidenceKept(cfg, trace, step, st.exposures[e], after[e]);
    }
  }

  lemma {:induction false} RecordedKept(cfg: Config, trace: seq<Step>, st: State, step: Step)
    requires AllRecorded(cfg, trace, st.exposures)
    ensures AllRecorded(cfg, trace + [step], Apply(cfg, st, step).exposures)
  {
    var longer, after := trace + [step], Apply(cfg, st, step).exposures;
    ApplyGrows(cfg, st, step);
    forall k | 0 <= k < |longer| && longer[k].Persist?
      ensures HitOf(cfg, after, longer[k].user, longer[k].finding) < |after|
    {
      if k < |trace| {
        assert longer[k] == trace[k];
        HitStays(st.exposures, after, longer[k].user, FingerprintOf(cfg, longer[k].finding));
      } else {
        PersistHits(cfg, st, step.user, step.finding, step.canary);
      }
    }
  }

  /** In every run exposures are unique per user and fingerprint, every finding
      persisted has its exposure, and an exposure's confidence is the maximum
      over the findings persisted to it. */
  lemma {:induction false} ExposuresAreUniqueAndMaximal(cfg: Config, trace: seq<Step>)
    ensures var exposures := StateAfter(cfg, trace).exposures;
      && Unique(exposures)
      && AllRecorded(cfg, trace, exposures)
      && ConfidencesAreMaximal(cfg, trace, exposures)
  {
    if trace != [] {
      var n := |trace| - 1;
      var before, step := StateAfter(cfg, trace[..n]), trace[n];
      ExposuresAreUniqueAndMaximal(cfg, trace[..n]);
      assert trace == trace[..n] + [step];
      RecordedKept(cfg, trace[..n], before, step);
      ExposureStep(cfg, trace[..n], before, step);
    }
  }

  lemma {:induction false} ExposureStep(cfg: Config, trace: seq<Step>, st: State, step: Step)
    requires Unique(st.exposures) && AllRecorded(cfg, trace, st.exposures) && ConfidencesAreMaximal(cfg, trace, st.exposures)
    ensures Unique(Apply(cfg, st, step).exposures)
    ensures ConfidencesAreMaximal(cfg, trace + [step], Apply(cfg, st, step).exposures)
  {
    var after := Apply(cfg, st, step).exposures;
    if step.Persist? {
      PersistKeepsUnique(cfg, st, step.user, step.finding, step.canary);
      forall e | 0 <= e < |after| ensures AtMost(cfg, trace + [step], after[e]) && Reached(cfg, trace + [step], after[e]) {
        PersistConfidence(cfg, trace, st, step, e);
      }
    } else {
      OtherStepsKeepExposures(cfg, st, step);
      UniqueKept(st.exposures, after);
      forall e | 0 <= e < |after| ensures AtMost(cfg, trace + [step], after[e]) && Reached(cfg, trace + [step], after[e]) {
        assert AtMost(cfg, trace, st.exposures[e]) && SameExposure(st.exposures[e], after[e]);
        ConfidenceKept(cfg, trace, step, st.exposures[e], after[e]);
      }
    }
  }

  // ------------------------------------------------------------- one run's findings

  /** The persisting steps of a run, one per finding, in order. */
  function PersistSteps(user: nat, fs: seq<Triage.Finding>, canary: Triage.Finding -> bool): (steps: seq<Step>)
    ensures |steps| == |fs| && forall i | 0 <= i < |fs| :: steps[i] == Persist(user, fs[i], canary(fs[i]))
  {
    if fs == [] then []
    else PersistSteps(user, fs[..|fs| - 1], canary) + [Persist(user, fs[|fs| - 1], canary(fs[|fs| - 1]))]
  }

  /** The tables after those steps. */
  function Persisted(cfg: Config, st: State, user: nat, fs: seq<Triage.Finding>,
                     canary: Triage.Finding -> bool): State {
    if fs == [] then st
    else
      var n := |fs| - 1;
      AfterPersist(cfg, Persisted(cfg, st, user, fs[..n], canary), user, fs[n], canary(fs[n]))
  }

  lemma {:induction false} PersistingSteps(cfg: Config, st: State, user: nat, fs: seq<Triage.Finding>,
                                           canary: Triage.Finding -> bool)
    ensures Exec(cfg, st, PersistSteps(user, fs, canary)) == Persisted(cfg, st, user, fs, canary)
  {
    if fs != [] {
      var n := |fs| - 1;
      var before, step := PersistSteps(user, fs[..n], canary), Persist(user, fs[n], canary(fs[n]));
      PersistingSteps(cfg, st, user, fs[..n], canary);
      ExecLast(cfg, st, before, step);
      ApplyPersist(cfg, Exec(cfg, st, before), step);
    }
  }

  /** The finding's subject has no exposure yet. */
  function IsNew(cfg: Config, exposures: seq<Exposure>, user: nat): Triage.Finding -> bool {
    (f: Triage.Finding) => HitOf(cfg, exposures, user, f) == |exposures|
  }

  function IsKnown(cfg: Config, exposures: seq<Exposure>, user: nat): Triage.Finding -> bool {
    (f: Triage.Finding) => HitOf(cfg, exposures, user, f) < |exposures|
  }

  lemma {:induction false} BlindHasNoBar(mac: Digest, f: Triage.Finding)
    ensures NoBar(BlindOf(mac, f))
  {
    var kind := if f.matchedKind == "" then "other" else f.matchedKind;
    var h: HexDigest := mac(Identifiers.IndexMessage(kind, Identifiers.NormalizeIdentifier(kind, f.matchedValue)));
    assert IsHexDigest(h);
  }

  ghost predicate FindingsCollide(cfg: Config, fs: seq<Triage.Finding>, i: nat, j: nat) {
    && i < j < |fs|
    && Collides(cfg.sha, Triage.FingerprintText(fs[i], BlindOf(cfg.mac, fs[i])), Triage.FingerprintText(fs[j], BlindOf(cfg.mac, fs[j])))
  }

  ghost predicate AllBarFree(fs: seq<Triage.Finding>) {
    forall i | 0 <= i < |fs| :: Triage.BarFree(fs[i])
  }

  lemma {:induction false} DistinctFingerprints(cfg: Config, fs: seq<Triage.Finding>, i: nat, j: nat)
    requires AllBarFree(fs) && Triage.DistinctFindingKeys(fs) && i < j < |fs|
    ensures FingerprintOf(cfg, fs[i]) != FingerprintOf(cfg, fs[j]) || FindingsCollide(cfg, fs, i, j)
  {
    BlindHasNoBar(cfg.mac, fs[i]);
    BlindHasNoBar(cfg.mac, fs[j]);
    Triage.FingerprintTextIsInjective(fs[i], fs[j], BlindOf(cfg.mac, fs[i]), BlindOf(cfg.mac, fs[j]));
  }

  // ------------------------------------------------------------- identifiers lost to dedupe

  function TextOf(mac: Digest, f: Triage.Finding): string {
    Triage.FingerprintText(f, BlindOf(mac, f))
  }

  /** Dedupe keeps a finding with this one's fingerprint text. */
  ghost predicate TextIsKept(mac: Digest, fs: seq<Triage.Finding>, f: Triage.Finding) {
    exists k :: 0 <= k < |Triage.Deduped(fs)| && TextOf(mac, Triage.Deduped(fs)[k]) == TextOf(mac, f)
  }

  ghost predicate OneIndexPerKey(mac: Digest, fs: seq<Triage.Finding>) {
    forall i, j | 0 <= i < |fs| && 0 <= j < |fs| && Triage.KeyOf(fs[i]) == Triage.KeyOf(fs[j]) ::
      BlindOf(mac, fs[i]) == BlindOf(mac, fs[j])
  }

  lemma {:induction false} TextsAgree(mac: Digest, f: Triage.Finding, g: Triage.Finding)
    requires Triage.BarFree(f) && Triage.BarFree(g)
    ensures TextOf(mac, f) == TextOf(mac, g) <==> Triage.KeyOf(f) == Triage.KeyOf(g) && BlindOf(mac, f) == BlindOf(mac, g)
  {
    BlindHasNoBar(mac, f);
    BlindHasNoBar(mac, g);
    Triage.FingerprintTextIsInjective(f, g, BlindOf(mac, f), BlindOf(mac, g));
  }

  /** A kept finding is one of the input. */
  lemma {:induction false} KeptIsFound(fs: seq<Triage.Finding>, k: nat) returns (i: nat)
    requires k < |Triage.Deduped(fs)|
    ensures i < |fs| && fs[i] == Triage.Deduped(fs)[k]
  {
    Triage.DedupeMeetsSpec(fs);
    assert Triage.Best(fs, Triage.Deduped(fs)[k]);
    i :| Triage.IsBest(fs, Triage.Deduped(fs)[k], i);
  }

  lemma {:induction false} OneIndexKeepsText(mac: Digest, fs: seq<Triage.Finding>, i: nat)
    requires OneIndexPerKey(mac, fs) && i < |fs|
    ensures TextIsKept(mac, fs, fs[i])
  {
    Triage.DedupeMeetsSpec(fs);
    var k := Triage.IndexOfKey(Triage.Deduped(fs), Triage.KeyOf(fs[i]));
    var j := KeptIsFound(fs, k);
    assert Triage.KeyOf(fs[j]) == Triage.KeyOf(fs[i]) && BlindOf(mac, fs[j]) == BlindOf(mac, fs[i]);
    assert TextOf(mac, Triage.Deduped(fs)[k]) == TextOf(mac, fs[i]);
  }

  lemma {:induction false} KeptTextsShareIndex(mac: Digest, fs: seq<Triage.Finding>, i: nat, j: nat)
    requires AllBarFree(fs) && i < |fs| && j < |fs| && Triage.KeyOf(fs[i]) == Triage.KeyOf(fs[j])
    requires TextIsKept(mac, fs, fs[i]) && TextIsKept(mac, fs, fs[j])
    ensures BlindOf(mac, fs[i]) == BlindOf(mac, fs[j])
  {
    var r := Triage.Deduped(fs);
    var k: nat :| k < |r| && TextOf(mac, r[k]) == TextOf(mac, fs[i]);
    var m: nat :| m < |r| && TextOf(mac, r[m]) == TextOf(mac, fs[j]);
    var a := KeptIsFound(fs, k);
    var b := KeptIsFound(fs, m);
    TextsAgree(mac, fs[a], fs[i]);
    TextsAgree(mac, fs[b], fs[j]);
    Triage.DedupeMeetsSpec(fs);
    Triage.OneKeyOnePlace(r, k, m);
  }

  ghost predicate AllTextsKept(mac: Digest, fs: seq<Triage.Finding>) {
    forall i | 0 <= i < |fs| :: TextIsKept(mac, fs, fs[i])
  }

  /** Dedupe keeps every fingerprint text of its input when findings of one key
      have one blind index, and without separators in them only then; the key
      leaves the identifier out. */
  lemma {:induction false} DedupeKeepsTexts(mac: Digest, fs: seq<Triage.Finding>)
    ensures OneIndexPerKey(mac, fs) ==> AllTextsKept(mac, fs)
    ensures AllBarFree(fs) ==> (AllTextsKept(mac, fs) <==> OneIndexPerKey(mac, fs))
  {
    if OneIndexPerKey(mac, fs) {
      forall i | 0 <= i < |fs| ensures TextIsKept(mac, fs, fs[i]) {
        OneIndexKeepsText(mac, fs, i);
      }
    }
    if AllBarFree(fs) && AllTextsKept(mac, fs) {
      forall i, j | 0 <= i < |fs| && 0 <= j < |fs| && Triage.KeyOf(fs[i]) == Triage.KeyOf(fs[j])
        ensures BlindOf(mac, fs[i]) == BlindOf(mac, fs[j])
      {
        KeptTextsShareIndex(mac, fs, i, j);
      }
    }
  }

  const LEAK := Triage.Finding("hibp", "breach", "Leak", "", "high", "phone", "1", 0.9, "Leak", [])

  lemma {:induction false} LeakIsBarFree()
    ensures Triage.BarFree(LEAK)
  {
  }

  const LEAK2 := LEAK.(matchedValue := "2")

  const LEAK0 := LEAK.(matchedValue := "")

  lemma {:induction false} LeakIsKeptOnce()
    ensures AllBarFree([LEAK, LEAK2, LEAK0]) && Triage.Deduped([LEAK, LEAK2, LEAK0]) == [LEAK]
  {
    LeakIsBarFree();
    assert [LEAK, LEAK2, LEAK0] == [] + [LEAK] + [LEAK2] + [LEAK0];
    Triage.DedupedAppend([], LEAK);
    Triage.LaterIsDropped([] + [LEAK], LEAK, LEAK2);
    Triage.LaterIsDropped([] + [LEAK] + [LEAK2], LEAK, LEAK0);
  }

  /** One leak that names two phone numbers, and no number at all: only the
      first report is kept. The third text differs from the first whatever the
      hash, and the second unless the two index messages collide. */
  lemma {:induction false} DedupeDropsIdentifiers(mac: Digest)
    ensures AllBarFree([LEAK, LEAK2, LEAK0]) && Triage.Deduped([LEAK, LEAK2, LEAK0]) == [LEAK]
    ensures TextOf(mac, LEAK0) != TextOf(mac, LEAK)
    ensures TextOf(mac, LEAK2) != TextOf(mac, LEAK) || Collides(mac, "phone:+1", "phone:+2")
  {
    LeakIsKeptOnce();
    LeakIsBarFree();
    TextsAgree(mac, LEAK0, LEAK);
    TextsAgree(mac, LEAK2, LEAK);
    PhoneIndex(mac, '1');
    PhoneIndex(mac, '2');
    assert LEAK.(matchedValue := "1") == LEAK && "phone:+" + ['1'] == "phone:+1" && "phone:+" + ['2'] == "phone:+2";
    assert "phone:+1"[7] == '1' && "phone:+2"[7] == '2';
  }

  lemma {:induction false} PhoneIndex(mac: Digest, d: char)
    requires IsDigit(d)
    ensures BlindOf(mac, LEAK.(matchedValue := [d])) == mac("phone:+" + [d]) != []
  {
    assert Strings.Digits([d]) == [d];
    assert Strings.Lower("phone") == "phone";
    assert Identifiers.NormalizeIdentifier("phone", [d]) == "+" + [d];
    assert "phone" + (":" + ("+" + [d])) == "phone:+" + [d];
    var h: HexDigest := mac("phone:+" + [d]);
  }

  ghost predicate AboutOneOf(cfg: Config, row: Exposure, user: nat, fs: seq<Triage.Finding>) {
    exists i :: 0 <= i < |fs| && SameSubject(row, user, FingerprintOf(cfg, fs[i]))
  }

  /** What persisting a list of findings leaves: old rows keep their place, and
      every new row is about one of the findings. */
  ghost predicate GrownBy(cfg: Config, before: seq<Exposure>, after: seq<Exposure>, user: nat,
                          fs: seq<Triage.Finding>) {
    && |before| <= |after|
    && (forall e | 0 <= e < |before| :: SameExposure(before[e], after[e]))
    && (forall e | |before| <= e < |after| :: AboutOneOf(cfg, after[e], user, fs))
  }

  lemma {:induction false} NoNewRowAbout(cfg: Config, a: seq<Exposure>, b: seq<Exposure>, user: nat,
                                         fs: seq<Triage.Finding>, f: Triage.Finding, e: nat)
    requires GrownBy(cfg, a, b, user, fs) && |a| <= e < |b|
    requires forall i | 0 <= i < |fs| :: FingerprintOf(cfg, fs[i]) != FingerprintOf(cfg, f)
    ensures !SameSubject(b[e], user, FingerprintOf(cfg, f))
  {
    assert AboutOneOf(cfg, b[e], user, fs);
    var i :| 0 <= i < |fs| && SameSubject(b[e], user, FingerprintOf(cfg, fs[i]));
    assert FingerprintOf(cfg, fs[i]) != FingerprintOf(cfg, f);
  }

  lemma {:induction false} StillNew(cfg: Config, a: seq<Exposure>, b: seq<Exposure>, user: nat,
                                    fs: seq<Triage.Finding>, f: Triage.Finding)
    requires GrownBy(cfg, a, b, user, fs)
    requires forall i | 0 <= i < |fs| :: FingerprintOf(cfg, fs[i]) != FingerprintOf(cfg, f)
    ensures IsNew(cfg, a, user)(f) <==> IsNew(cfg, b, user)(f)
  {
    var fp := FingerprintOf(cfg, f);
    forall e | 0 <= e < |b| ensures SameSubject(b[e], user, fp) ==> e < |a| && SameSubject(a[e], user, fp) {
      if e < |a| {
        assert SameExposure(a[e], b[e]);
      } else {
        NoNewRowAbout(cfg, a, b, user, fs, f, e);
      }
    }
    if !IsNew(cfg, a, user)(f) {
      HitStays(a, b, user, fp);
    } else {
      NoSubjectNoHit(a, b, user, fp);
    }
  }

  lemma {:induction false} NoSubjectNoHit(a: seq<Exposure>, b: seq<Exposure>, user: nat, fp: string)
    requires FindExposure(a, user, fp) == |a|
    requires forall e | 0 <= e < |b| :: SameSubject(b[e], user, fp) ==> e < |a| && SameSubject(a[e], user, fp)
    ensures FindExposure(b, user, fp) == |b|
  {
    var i := FindExposure(b, user, fp);
    assert i < |b| ==> SameSubject(b[i], user, fp);
  }

  lemma {:induction false} AboutOneOfMore(cfg: Config, row: Exposure, later: Exposure, user: nat,
                                          fs: seq<Triage.Finding>, f: Triage.Finding)
    requires AboutOneOf(cfg, row, user, fs) && later.user == row.user && later.fingerprint == row.fingerprint
    ensures AboutOneOf(cfg, later, user, fs + [f])
  {
    var i :| 0 <= i < |fs| && SameSubject(row, user, FingerprintOf(cfg, fs[i]));
    assert (fs + [f])[i] == fs[i] && SameSubject(later, user, FingerprintOf(cfg, (fs + [f])[i]));
  }

  /** Persisting one more finding: the table grows by it exactly when it was
      new at the start of the run. */
  lemma {:induction false} OneMoreFinding(cfg: Config, st: State, mid: State, user: nat, fs: seq<Triage.Finding>,
                                          f: Triage.Finding, canary: bool)
    requires GrownBy(cfg, st.exposures, mid.exposures, user, fs)
    requires forall i | 0 <= i < |fs| :: FingerprintOf(cfg, fs[i]) != FingerprintOf(cfg, f)
    ensures var after := AfterPersist(cfg, mid, user, f, canary);
      && GrownBy(cfg, st.exposures, after.exposures, user, fs + [f])
      && |after.exposures| == |mid.exposures| + if IsNew(cfg, st.exposures, user)(f) then 1 else 0
  {
    var after := AfterPersist(cfg, mid, user, f, canary);
    StillNew(cfg, st.exposures, mid.exposures, user, fs, f);
    PersistHits(cfg, mid, user, f, canary);
    forall e | |st.exposures| <= e < |after.exposures| ensures AboutOneOf(cfg, after.exposures[e], user, fs + [f]) {
      if e < |mid.exposures| {
        assert AboutOneOf(cfg, mid.exposures[e], user, fs);
        AboutOneOfMore(cfg, mid.exposures[e], after.exposures[e], user, fs, f);
      } else {
        assert (fs + [f])[|fs|] == f && SameSubject(after.exposures[e], user, FingerprintOf(cfg, (fs + [f])[|fs|]));
      }
    }
    PersistGrows(cfg, mid, user, f, canary);
    forall e | 0 <= e < |st.exposures| ensures SameExposure(st.exposures[e], after.exposures[e]) {
      assert SameExposure(st.exposures[e], mid.exposures[e]) && SameExposure(mid.exposures[e], after.exposures[e]);
    }
  }

  ghost predicate FingerprintsDiffer(cfg: Config, fs: seq<Triage.Finding>) {
    forall i, j | 0 <= i < j < |fs| :: FingerprintOf(cfg, fs[i]) != FingerprintOf(cfg, fs[j])
  }

  lemma {:induction false} LastDiffers(cfg: Config, fs: seq<Triage.Finding>)
    requires FingerprintsDiffer(cfg, fs) && fs != []
    ensures var n := |fs| - 1;
      && FingerprintsDiffer(cfg, fs[..n]) && fs == fs[..n] + [fs[n]]
      && forall i | 0 <= i < n :: FingerprintOf(cfg, fs[..n][i]) != FingerprintOf(cfg, fs[n])
  {
    var n := |fs| - 1;
    forall i | 0 <= i < n ensures FingerprintOf(cfg, fs[..n][i]) != FingerprintOf(cfg, fs[n]) {
      assert FingerprintOf(cfg, fs[i]) != FingerprintOf(cfg, fs[n]);
    }
    forall i, j | 0 <= i < j < n ensures FingerprintOf(cfg, fs[..n][i]) != FingerprintOf(cfg, fs[..n][j]) {
      assert FingerprintOf(cfg, fs[i]) != FingerprintOf(cfg, fs[j]);
    }
  }

  lemma {:induction false} RunGrowsTable(cfg: Config, st: State, user: nat, fs: seq<Triage.Finding>, canary: Triage.Finding -> bool)
    requires FingerprintsDiffer(cfg, fs)
    ensures var after := Persisted(cfg, st, user, fs, canary).exposures;
      && GrownBy(cfg, st.exposures, after, user, fs)
      && |after| == |st.exposures| + CountIf(fs, IsNew(cfg, st.exposures, user))
  {
    if fs != [] {
      var n := |fs| - 1;
      LastDiffers(cfg, fs);
      RunGrowsTable(cfg, st, user, fs[..n], canary);
      OneMoreFinding(cfg, st, Persisted(cfg, st, user, fs[..n], canary), user, fs[..n], fs[n], canary(fs[n]));
    }
  }

  lemma {:induction false} HitStaysAfterPersist(cfg: Config, mid: State, user: nat, f: Triage.Finding, canary: bool, g: Triage.Finding)
    requires HitOf(cfg, mid.exposures, user, g) < |mid.exposures|
    ensures var after := AfterPersist(cfg, mid, user, f, canary).exposures;
      HitOf(cfg, after, user, g) < |after|
  {
    PersistGrows(cfg, mid, user, f, canary);
    HitStays(mid.exposures, AfterPersist(cfg, mid, user, f, canary).exposures, user, FingerprintOf(cfg, g));
  }

  /** Every persisted finding has its exposure from then on. */
  lemma {:induction false} FindingsAreFound(cfg: Config, st: State, user: nat, fs: seq<Triage.Finding>,
                                        canary: Triage.Finding -> bool, i: nat)
    requires i < |fs|
    ensures var after := Persisted(cfg, st, user, fs, canary).exposures;
      HitOf(cfg, after, user, fs[i]) < |after|
  {
    var n := |fs| - 1;
    var mid := Persisted(cfg, st, user, fs[..n], canary);
    if i < n {
      FindingsAreFound(cfg, st, user, fs[..n], canary, i);
      HitStaysAfterPersist(cfg, mid, user, fs[n], canary(fs[n]), fs[i]);
    } else {
      PersistHits(cfg, mid, user, fs[n], canary(fs[n]));
    }
  }

  lemma {:induction false} CountComplement<T>(s: seq<T>, p: T -> bool, q: T -> bool)
    requires forall i | 0 <= i < |s| :: p(s[i]) <==> !q(s[i])
    ensures CountIf(s, p) + CountIf(s, q) == |s|
  {
    if s != [] {
      CountComplement(s[..|s| - 1], p, q);
    }
  }

  /** Two findings of different fingerprints cannot hit one exposure. */
  lemma {:induction false} DistinctHits(cfg: Config, exposures: seq<Exposure>, user: nat, fs: seq<Triage.Finding>)
    requires FingerprintsDiffer(cfg, fs) && AllHit(cfg, exposures, user, fs)
    ensures HitsDiffer(cfg, exposures, user, fs)
  {
    forall i, j | 0 <= i < j < |fs| ensures HitOf(cfg, exposures, user, fs[i]) != HitOf(cfg, exposures, user, fs[j]) {
      assert FingerprintOf(cfg, fs[i]) != FingerprintOf(cfg, fs[j]);
      var a, b := HitOf(cfg, exposures, user, fs[i]), HitOf(cfg, exposures, user, fs[j]);
      assert exposures[a].fingerprint == FingerprintOf(cfg, fs[i]) && exposures[b].fingerprint == FingerprintOf(cfg, fs[j]);
    }
  }

  ghost predicate AllHit(cfg: Config, exposures: seq<Exposure>, user: nat, fs: seq<Triage.Finding>) {
    forall i | 0 <= i < |fs| :: HitOf(cfg, exposures, user, fs[i]) < |exposures|
  }

  ghost predicate HitsDiffer(cfg: Config, exposures: seq<Exposure>, user: nat, fs: seq<Triage.Finding>) {
    forall i, j | 0 <= i < j < |fs| :: HitOf(cfg, exposures, user, fs[i]) != HitOf(cfg, exposures, user, fs[j])
  }

  /** The same for any findings with pairwise different fingerprints. */
  lemma {:induction false} DifferentFindingsAddUp(cfg: Config, st: State, user: nat, fs: seq<Triage.Finding>,
                                        canary: Triage.Finding -> bool)
    requires FingerprintsDiffer(cfg, fs)
    ensures var after := Persisted(cfg, st, user, fs, canary).exposures;
      && |fs| == (|after| - |st.exposures|) + CountIf(fs, IsKnown(cfg, st.exposures, user))
      && AllHit(cfg, after, user, fs)
      && HitsDiffer(cfg, after, user, fs)
  {
    var after := Persisted(cfg, st, user, fs, canary).exposures;
    RunGrowsTable(cfg, st, user, fs, canary);
    CountComplement(fs, IsNew(cfg, st.exposures, user), IsKnown(cfg, st.exposures, user));
    forall i | 0 <= i < |fs| ensures HitOf(cfg, after, user, fs[i]) < |after| {
      FindingsAreFound(cfg, st, user, fs, canary, i);
    }
    DistinctHits(cfg, after, user, fs);
  }

  /** A run's findings end in pairwise distinct exposures exactly when their
      fingerprints differ. */
  lemma {:induction false} HitsDifferExactly(cfg: Config, st: State, user: nat, fs: seq<Triage.Finding>,
                                             canary: Triage.Finding -> bool)
    ensures HitsDiffer(cfg, Exec(cfg, st, PersistSteps(user, fs, canary)).exposures, user, fs) <==> FingerprintsDiffer(cfg, fs)
  {
    var after := Persisted(cfg, st, user, fs, canary).exposures;
    PersistingSteps(cfg, st, user, fs, canary);
    if FingerprintsDiffer(cfg, fs) {
      DifferentFindingsAddUp(cfg, st, user, fs, canary);
    }
    if HitsDiffer(cfg, after, user, fs) {
      forall i, j | 0 <= i < j < |fs| ensures FingerprintOf(cfg, fs[i]) != FingerprintOf(cfg, fs[j]) {
        assert HitOf(cfg, after, user, fs[i]) != HitOf(cfg, after, user, fs[j]);
      }
    }
  }

  /** The findings left after dedupe hit pairwise distinct exposures, so their
      number is the exposures created plus the exposures seen again; or two of
      their own fingerprint texts collide. */
  lemma {:induction false} FindingsCountAddsUp(cfg: Config, st: State, user: nat, found: seq<Triage.Finding>,
                                        canary: Triage.Finding -> bool)
    requires AllBarFree(Triage.Pipeline(found))
    ensures var fs := Triage.Pipeline(found);
            var after := Exec(cfg, st, PersistSteps(user, fs, canary)).exposures;
      || (&& |fs| == (|after| - |st.exposures|) + CountIf(fs, IsKnown(cfg, st.exposures, user))
          && AllHit(cfg, after, user, fs)
          && HitsDiffer(cfg, after, user, fs))
      || exists i, j :: FindingsCollide(cfg, fs, i, j)
  {
    var fs := Triage.Pipeline(found);
    Triage.PipelineIsStable(found);
    PersistingSteps(cfg, st, user, fs, canary);
    if !exists i, j :: FindingsCollide(cfg, fs, i, j) {
      forall i, j | 0 <= i < j < |fs| ensures FingerprintOf(cfg, fs[i]) != FingerprintOf(cfg, fs[j]) {
        DistinctFingerprints(cfg, fs, i, j);
      }
      DifferentFindingsAddUp(cfg, st, user, fs, canary);
    }
  }

  lemma {:induction false} PersistedGrows(cfg: Config, st: State, user: nat, fs: seq<Triage.Finding>,
                                        canary: Triage.Finding -> bool)
    ensures var after := Persisted(cfg, st, user, fs, canary).exposures;
      |st.exposures| <= |after| && forall e | 0 <= e < |st.exposures| :: SameExposure(st.exposures[e], after[e])
  {
    if fs != [] {
      var n := |fs| - 1;
      var mid := Persisted(cfg, st, user, fs[..n], canary);
      PersistedGrows(cfg, st, user, fs[..n], canary);
      PersistGrows(cfg, mid, user, fs[n], canary(fs[n]));
      var after := Persisted(cfg, st, user, fs, canary).exposures;
      forall e | 0 <= e < |st.exposures| ensures SameExposure(st.exposures[e], after[e]) {
        assert SameExposure(st.exposures[e], mid.exposures[e]) && SameExposure(mid.exposures[e], after[e]);
      }
    }
  }

  lemma {:induction false} KnownFindingsAddNothing(cfg: Config, st: State, user: nat, fs: seq<Triage.Finding>,
                                        canary: Triage.Finding -> bool)
    requires AllHit(cfg, st.exposures, user, fs)
    ensures |Persisted(cfg, st, user, fs, canary).exposures| == |st.exposures|
  {
    if fs != [] {
      var n := |fs| - 1;
      var mid := Persisted(cfg, st, user, fs[..n], canary);
      KnownFindingsAddNothing(cfg, st, user, fs[..n], canary);
      PersistedGrows(cfg, st, user, fs[..n], canary);
      HitStays(st.exposures, mid.exposures, user, FingerprintOf(cfg, fs[n]));
      PersistHits(cfg, mid, user, fs[n], canary(fs[n]));
    }
  }

  /** Persisting the same findings again, after anything else has happened,
      creates no exposure. */
  lemma {:induction false} RepeatedRunCreatesNothing(cfg: Config, st: State, user: nat, fs: seq<Triage.Finding>,
                                                     canary: Triage.Finding -> bool, more: seq<Step>, canary': Triage.Finding -> bool)
    ensures var later := Exec(cfg, Exec(cfg, st, PersistSteps(user, fs, canary)), more);
      |Exec(cfg, later, PersistSteps(user, fs, canary')).exposures| == |later.exposures|
  {
    var first := Persisted(cfg, st, user, fs, canary);
    PersistingSteps(cfg, st, user, fs, canary);
    var later := Exec(cfg, first, more);
    ExecGrows(cfg, first, more);
    forall i | 0 <= i < |fs| ensures HitOf(cfg, later.exposures, user, fs[i]) < |later.exposures| {
      FindingsAreFound(cfg, st, user, fs, canary, i);
      HitStays(first.exposures, later.exposures, user, FingerprintOf(cfg, fs[i]));
    }
    KnownFindingsAddNothing(cfg, later, user, fs, canary');
    PersistingSteps(cfg, later, user, fs, canary');
  }
}
