/** Severity scoring, fingerprints, de-duplication and ordering of findings
    (core/agent/triage.py). */
module Triage {
  import opened Prelude
  import opened Strings

  /** One potential exposure reported by a source. */
  datatype Finding = Finding(
    source: string,
    kind: string,
    title: string,
    url: string,
    severity: string,
    matchedKind: string,
    matchedValue: string,
    confidence: real,
    breachName: string,
    dataClasses: seq<string>)

  // ------------------------------------------------------------- severity

  const CRITICAL_CLASSES: set<string> := {
    "social security numbers", "ssn", "passports", "credit cards",
    "bank accounts", "financial data", "government issued ids",
    "partial credit card data", "credit card cvv", "tax records"}

  const HIGH_CLASSES: set<string> := {
    "passwords", "hashed passwords", "phone numbers", "physical addresses",
    "dates of birth", "geographic locations", "health records",
    "auth tokens", "security questions and answers"}

  const MEDIUM_CLASSES: set<string> := {
    "email addresses", "names", "usernames", "ip addresses",
    "device information", "browsing histories"}

  function ClassesOf(f: Finding): set<string> {
    set c | c in f.dataClasses :: Lower(Strip(c))
  }

  function SeverityOf(kind: string, classes: set<string>): string {
    if kind == "dark_web" || kind == "canary" then "critical"
    else if classes * CRITICAL_CLASSES != {} then "critical"
    else if classes * HIGH_CLASSES != {} then "high"
    else if kind == "people_search" then "high"
    else if kind == "public_record" then "medium"
    else if kind == "breach" then (if classes != {} then "high" else "medium")
    else if classes * MEDIUM_CLASSES != {} then "medium"
    else "low"
  }

  function ScoreSeverity(f: Finding): string {
    SeverityOf(f.kind, ClassesOf(f))
  }

  function SeverityRank(severity: string): nat {
    if severity == "critical" then 0
    else if severity == "high" then 1
    else if severity == "medium" then 2
    else if severity == "low" then 3
    else 9
  }

  /** More leaked data classes never make a finding less severe, and a scored
      finding is never unranked. */
  lemma {:induction false} SeverityGrowsWithClasses(kind: string, few: set<string>, many: set<string>)
    requires few <= many
    ensures SeverityRank(SeverityOf(kind, many)) <= SeverityRank(SeverityOf(kind, few)) <= 3
  {
    assert few * CRITICAL_CLASSES <= many * CRITICAL_CLASSES;
    assert few * HIGH_CLASSES <= many * HIGH_CLASSES;
    assert few * MEDIUM_CLASSES <= many * MEDIUM_CLASSES;
  }

  /** Some leaked data class of the finding, trimmed and in lower case, is one of these. */
  predicate Leaks(f: Finding, classes: set<string>) {
    exists c | c in f.dataClasses :: Lower(Strip(c)) in classes
  }

  lemma {:induction false} LeaksAre(f: Finding, classes: set<string>)
    ensures Leaks(f, classes) <==> ClassesOf(f) * classes != {}
    ensures ClassesOf(f) != {} <==> f.dataClasses != []
  {
    if Leaks(f, classes) {
      var c :| c in f.dataClasses && Lower(Strip(c)) in classes;
      assert Lower(Strip(c)) in ClassesOf(f) * classes;
    }
    if ClassesOf(f) * classes != {} {
      var k :| k in ClassesOf(f) * classes;
      var c :| c in f.dataClasses && Lower(Strip(c)) == k;
    }
    if f.dataClasses != [] {
      assert Lower(Strip(f.dataClasses[0])) in ClassesOf(f);
    }
  }

  /** The severity of every kind with every data class. */
  lemma {:induction false} SeverityExactly(f: Finding)
    ensures
      var critical := f.kind in {"dark_web", "canary"} || Leaks(f, {
        "social security numbers", "ssn", "passports", "credit cards", "bank accounts", "financial data",
        "government issued ids", "partial credit card data", "credit card cvv", "tax records"});
      var high := f.kind == "people_search" || (f.kind == "breach" && f.dataClasses != []) || Leaks(f, {
        "passwords", "hashed passwords", "phone numbers", "physical addresses", "dates of birth",
        "geographic locations", "health records", "auth tokens", "security questions and answers"});
      var medium := f.kind in {"public_record", "breach"} || Leaks(f, {
        "email addresses", "names", "usernames", "ip addresses", "device information", "browsing histories"});
      ScoreSeverity(f) == if critical then "critical" else if high then "high" else if medium then "medium" else "low"
  {
    LeaksAre(f, CRITICAL_CLASSES);
    LeaksAre(f, HIGH_CLASSES);
    LeaksAre(f, MEDIUM_CLASSES);
    SeverityBySets(f.kind, ClassesOf(f), ClassesOf(f) * CRITICAL_CLASSES != {}, ClassesOf(f) * HIGH_CLASSES != {},
                   ClassesOf(f) * MEDIUM_CLASSES != {});
  }

  lemma {:induction false} SeverityBySets(kind: string, classes: set<string>, critical: bool, high: bool, medium: bool)
    requires critical == (classes * CRITICAL_CLASSES != {}) && high == (classes * HIGH_CLASSES != {})
    requires medium == (classes * MEDIUM_CLASSES != {})
    ensures SeverityOf(kind, classes)
      == if kind in {"dark_web", "canary"} || critical then "critical"
         else if kind == "people_search" || (kind == "breach" && classes != {}) || high then "high"
         else if kind in {"public_record", "breach"} || medium then "medium"
         else "low"
  {
    KindsDiffer();
  }

  lemma {:induction false} KindsDiffer()
    ensures "people_search" !in {"dark_web", "canary", "breach", "public_record"}
    ensures "public_record" !in {"dark_web", "canary", "breach"}
  {
    var b, c, d, p, r := "breach", "canary", "dark_web", "people_search", "public_record";
    assert b[0] == 'b' && c[0] == 'c' && d[0] == 'd' && p[1] == 'e' && r[1] == 'u' && r[0] == 'p';
  }

  // ------------------------------------------------------------- fingerprints

  function Bar(left: string, right: string): string {
    left + (['|'] + right)
  }

  function FingerprintText(f: Finding, blind: string): string {
    Bar(f.source, Bar(f.kind, Bar(f.breachName, Bar(f.url, blind))))
  }

  function Fingerprint(sha: Digest, f: Finding, blind: string): string {
    sha(FingerprintText(f, blind))
  }

  lemma {:induction false} BarPosition(a: string, b: string, x: string, y: string)
    requires NoBar(b) && Bar(a, x) == Bar(b, y)
    ensures |b| <= |a|
  {
    assert Bar(a, x)[|a|] == '|';
    assert forall i | 0 <= i < |b| :: Bar(b, y)[i] == b[i];
  }

  /** A part without a bar is told by the first bar after it. */
  lemma {:induction false} FirstPart(a: string, b: string, x: string, y: string)
    requires NoBar(a) && NoBar(b) && Bar(a, x) == Bar(b, y)
    ensures a == b && x == y
  {
    BarPosition(a, b, x, y);
    BarPosition(b, a, y, x);
    SplitConcat(a, ['|'] + x);
    SplitConcat(b, ['|'] + y);
    SplitConcat(['|'], x);
    SplitConcat(['|'], y);
  }

  lemma {:induction false} LastBarPosition(a: string, b: string, x: string, y: string)
    requires NoBar(x) && Bar(a, x) == Bar(b, y)
    ensures |y| >= |x|
  {
    assert Bar(b, y)[|b|] == '|';
    assert forall i | 0 <= i < |x| :: Bar(a, x)[|a| + 1 + i] == x[i];
    assert |a| + 1 + |x| == |b| + 1 + |y|;
  }

  /** A part without a bar is told by the last bar before it. */
  lemma {:induction false} LastPart(a: string, b: string, x: string, y: string)
    requires NoBar(x) && NoBar(y) && Bar(a, x) == Bar(b, y)
    ensures a == b && x == y
  {
    LastBarPosition(a, b, x, y);
    LastBarPosition(b, a, y, x);
    assert |Bar(a, x)| == |Bar(b, y)|;
    SplitConcat(a, ['|'] + x);
    SplitConcat(b, ['|'] + y);
    SplitConcat(['|'], x);
    SplitConcat(['|'], y);
  }

  /** Source, kind and breach name hold no bar. The URL may. */
  predicate BarFree(f: Finding) {
    NoBar(f.source) && NoBar(f.kind) && NoBar(f.breachName)
  }

  /** What tells two findings apart inside one run. */
  datatype Key = Key(source: string, kind: string, url: string, breachName: string)

  function KeyOf(f: Finding): Key {
    Key(f.source, f.kind, f.url, f.breachName)
  }

  lemma {:induction false} FingerprintTextIsInjective(f: Finding, g: Finding, x: string, y: string)
    requires BarFree(f) && BarFree(g) && NoBar(x) && NoBar(y)
    ensures FingerprintText(f, x) == FingerprintText(g, y) <==> KeyOf(f) == KeyOf(g) && x == y
  {
    if FingerprintText(f, x) == FingerprintText(g, y) {
      FirstPart(f.source, g.source, Bar(f.kind, Bar(f.breachName, Bar(f.url, x))), Bar(g.kind, Bar(g.breachName, Bar(g.url, y))));
      FirstPart(f.kind, g.kind, Bar(f.breachName, Bar(f.url, x)), Bar(g.breachName, Bar(g.url, y)));
      FirstPart(f.breachName, g.breachName, Bar(f.url, x), Bar(g.url, y));
      LastPart(f.url, g.url, x, y);
    }
  }

  /** Without that restriction the text is ambiguous, whatever the hash: a bar
      can move from the source into the kind. */
  lemma {:induction false} BarsMakeFingerprintsAmbiguous(sha: Digest, f: Finding, blind: string)
    ensures var g := f.(source := "a|b", kind := "c");
            var h := f.(source := "a", kind := "b|c");
            KeyOf(g) != KeyOf(h) && Fingerprint(sha, g, blind) == Fingerprint(sha, h, blind)
  {
    var g, h := f.(source := "a|b", kind := "c"), f.(source := "a", kind := "b|c");
    var rest := Bar(f.breachName, Bar(f.url, blind));
    assert Bar("a|b", Bar("c", rest)) == Bar("a", Bar("b|c", rest));
  }

  function IsBar(): char -> bool {
    (c: char) => c == '|'
  }

  function Bars(s: string): nat {
    CountIf(s, IsBar())
  }

  lemma {:induction false} BarsAdd(left: string, right: string)
    ensures Bars(Bar(left, right)) == Bars(left) + 1 + Bars(right)
  {
    CountConcat(left, ['|'] + right, IsBar());
    CountConcat(['|'], right, IsBar());
  }

  lemma {:induction false} NoBarsAtAll(s: string)
    ensures Bars(s) == 0 <==> NoBar(s)
  {
    CountNone(s, IsBar());
  }

  lemma {:induction false} FingerprintIs(sha: Digest, f: Finding, blind: string)
    ensures Fingerprint(sha, f, blind) == sha(f.source + "|" + f.kind + "|" + f.breachName + "|" + f.url + "|" + blind)
  {
    var d, c := Bar(f.url, blind), Bar(f.breachName, Bar(f.url, blind));
    assert f.source + "|" + f.kind + "|" + f.breachName + "|" + f.url + "|" + blind
      == f.source + ("|" + (f.kind + ("|" + (f.breachName + ("|" + (f.url + ("|" + blind)))))));
  }

  /** Every bar of the text is one of the four separators or lies in a part. */
  lemma {:induction false} TextBars(f: Finding, blind: string)
    ensures Bars(FingerprintText(f, blind)) == 4 + Bars(f.source) + Bars(f.kind) + Bars(f.breachName) + Bars(f.url) + Bars(blind)
    ensures Bars(FingerprintText(f, blind)) == 4 <==> BarFree(f) && NoBar(f.url) && NoBar(blind)
  {
    BarsAdd(f.source, Bar(f.kind, Bar(f.breachName, Bar(f.url, blind))));
    BarsAdd(f.kind, Bar(f.breachName, Bar(f.url, blind)));
    BarsAdd(f.breachName, Bar(f.url, blind));
    BarsAdd(f.url, blind);
    NoBarsAtAll(f.source);
    NoBarsAtAll(f.kind);
    NoBarsAtAll(f.breachName);
    NoBarsAtAll(f.url);
    NoBarsAtAll(blind);
  }

  lemma {:induction false} SplitAtBar(s: string) returns (left: string, right: string)
    requires !NoBar(s)
    ensures s == Bar(left, right) && left != s && right != s
  {
    var i :| 0 <= i < |s| && s[i] == '|';
    left, right := s[..i], s[i + 1..];
    assert s == left + (['|'] + right);
  }

  lemma {:induction false} BarRegroups(a: string, b: string, c: string)
    ensures Bar(Bar(a, b), c) == Bar(a, Bar(b, c))
  {
    assert Bar(Bar(a, b), c) == a + ['|'] + b + ['|'] + c;
    assert Bar(a, Bar(b, c)) == a + ['|'] + b + ['|'] + c;
  }

  /** A bar inside a part lets the text be read as another finding's. A blind
      index without a bar need not change for it. */
  lemma {:induction false} OtherReading(f: Finding, x: string) returns (g: Finding, y: string)
    requires !(BarFree(f) && NoBar(f.url) && NoBar(x))
    ensures FingerprintText(g, y) == FingerprintText(f, x)
    ensures KeyOf(g) != KeyOf(f)
    ensures NoBar(x) ==> y == x
  {
    g, y := f, x;
    if !NoBar(f.source) {
      var a, b := SplitAtBar(f.source);
      g := f.(source := a, kind := Bar(b, f.kind));
      BarRegroups(b, f.kind, Bar(f.breachName, Bar(f.url, x)));
      BarRegroups(a, b, Bar(f.kind, Bar(f.breachName, Bar(f.url, x))));
    } else if !NoBar(f.kind) {
      var a, b := SplitAtBar(f.kind);
      g := f.(kind := a, breachName := Bar(b, f.breachName));
      BarRegroups(b, f.breachName, Bar(f.url, x));
      BarRegroups(a, b, Bar(f.breachName, Bar(f.url, x)));
    } else if !NoBar(f.breachName) {
      var a, b := SplitAtBar(f.breachName);
      g := f.(breachName := a, url := Bar(b, f.url));
      BarRegroups(b, f.url, x);
      BarRegroups(a, b, Bar(f.url, x));
    } else if !NoBar(f.url) {
      var a, b := SplitAtBar(f.url);
      g := f.(breachName := Bar(f.breachName, a), url := b);
      BarRegroups(f.breachName, a, Bar(b, x));
      BarRegroups(a, b, x);
    } else {
      var a, b := SplitAtBar(x);
      g, y := f.(url := Bar(f.url, a)), b;
      BarRegroups(f.url, a, b);
    }
  }

  /** The text tells this finding and index from every other pair. */
  ghost predicate Unambiguous(f: Finding, x: string) {
    forall g, y :: FingerprintText(f, x) == FingerprintText(g, y) ==> KeyOf(f) == KeyOf(g) && x == y
  }

  /** The same, among the pairs whose blind index is a real one. */
  ghost predicate UnambiguousAmongIndexes(f: Finding, x: string) {
    forall g, y :: NoBar(y) && FingerprintText(f, x) == FingerprintText(g, y) ==> KeyOf(f) == KeyOf(g) && x == y
  }

  /** A fingerprint text is unambiguous exactly when no part holds a bar; for a
      blind index without one this is so even among such indexes alone. */
  lemma {:induction false} BarsDecideAmbiguity(f: Finding, x: string)
    ensures Unambiguous(f, x) <==> BarFree(f) && NoBar(f.url) && NoBar(x)
    ensures NoBar(x) ==> (UnambiguousAmongIndexes(f, x) <==> BarFree(f) && NoBar(f.url))
  {
    TextBars(f, x);
    if BarFree(f) && NoBar(f.url) && NoBar(x) {
      forall g, y | FingerprintText(f, x) == FingerprintText(g, y) ensures KeyOf(f) == KeyOf(g) && x == y {
        TextBars(g, y);
        FingerprintTextIsInjective(f, g, x, y);
      }
    } else {
      var g, y := OtherReading(f, x);
    }
  }

  // ------------------------------------------------------------- dedupe

  function IndexOfKey(fs: seq<Finding>, k: Key): (i: nat)
    ensures i <= |fs|
    ensures i < |fs| ==> KeyOf(fs[i]) == k
    ensures forall j | 0 <= j < i :: KeyOf(fs[j]) != k
  {
    if fs == [] || KeyOf(fs[0]) == k then 0 else 1 + IndexOfKey(fs[1..], k)
  }

  /** Keep the first finding of a key, unless a later one is more confident. */
  function Upsert(kept: seq<Finding>, f: Finding): seq<Finding> {
    var i := IndexOfKey(kept, KeyOf(f));
    if i == |kept| then kept + [f]
    else if f.confidence > kept[i].confidence then kept[i := f]
    else kept
  }

  function Deduped(fs: seq<Finding>): seq<Finding> {
    if fs == [] then [] else Upsert(Deduped(fs[..|fs| - 1]), fs[|fs| - 1])
  }

  function Values(order: seq<Key>, seen: map<Key, Finding>): (r: seq<Finding>)
    requires forall k | k in order :: k in seen
    ensures |r| == |order| && forall i | 0 <= i < |order| :: r[i] == seen[order[i]]
  {
    if order == [] then [] else Values(order[..|order| - 1], seen) + [seen[order[|order| - 1]]]
  }

  lemma {:induction false} ValuesAppend(order: seq<Key>, seen: map<Key, Finding>, f: Finding)
    requires (forall k | k in order :: k in seen) && KeyOf(f) !in order
    ensures Values(order + [KeyOf(f)], seen[KeyOf(f) := f]) == Values(order, seen) + [f]
  {
  }

  lemma {:induction false} ValuesReplace(order: seq<Key>, seen: map<Key, Finding>, i: nat, f: Finding)
    requires (forall k | k in order :: k in seen) && i < |order| && order[i] == KeyOf(f)
    requires forall j | 0 <= j < |order| && j != i :: order[j] != order[i]
    ensures Values(order, seen[KeyOf(f) := f]) == Values(order, seen)[i := f]
  {
  }

  /** The dictionary and its insertion order. */
  ghost predicate Ordered(order: seq<Key>, seen: map<Key, Finding>) {
    && (forall k :: k in order <==> k in seen)
    && (forall i, j | 0 <= i < j < |order| :: order[i] != order[j])
    && (forall k | k in seen :: KeyOf(seen[k]) == k)
  }

  lemma {:induction false} NewKeyStep(order: seq<Key>, seen: map<Key, Finding>, f: Finding)
    requires Ordered(order, seen) && KeyOf(f) !in seen
    ensures Ordered(order + [KeyOf(f)], seen[KeyOf(f) := f])
    ensures Values(order + [KeyOf(f)], seen[KeyOf(f) := f]) == Upsert(Values(order, seen), f)
  {
    ValuesAppend(order, seen, f);
    ValuesHaveKeys(order, seen);
  }

  lemma {:induction false} OldKeyStep(order: seq<Key>, seen: map<Key, Finding>, f: Finding)
    requires Ordered(order, seen) && KeyOf(f) in seen
    ensures Ordered(order, seen[KeyOf(f) := f])
    ensures Upsert(Values(order, seen), f)
      == if f.confidence > seen[KeyOf(f)].confidence then Values(order, seen[KeyOf(f) := f]) else Values(order, seen)
  {
    var i := IndexOfKey(Values(order, seen), KeyOf(f));
    ValuesHaveKeys(order, seen);
    assert KeyOf(f) in order;
    ValuesReplace(order, seen, i, f);
  }

  lemma {:induction false} ValuesHaveKeys(order: seq<Key>, seen: map<Key, Finding>)
    requires Ordered(order, seen)
    ensures forall j | 0 <= j < |order| :: KeyOf(Values(order, seen)[j]) == order[j]
  {
  }

  /** `dedupe`, on an insertion-ordered dictionary. */
  method Dedupe(findings: seq<Finding>) returns (r: seq<Finding>)
    ensures r == Deduped(findings)
  {
    var order: seq<Key> := [];
    var seen: map<Key, Finding> := map[];
    for n := 0 to |findings|
      invariant Ordered(order, seen) && Values(order, seen) == Deduped(findings[..n])
    {
      var finding := findings[n];
      var key := KeyOf(finding);
      assert findings[..n + 1][..n] == findings[..n];
      if key !in seen {
        NewKeyStep(order, seen, finding);
      } else {
        OldKeyStep(order, seen, finding);
      }
      if key !in seen || finding.confidence > seen[key].confidence {
        if key !in seen {
          order := order + [key];
        }
        seen := seen[key := finding];
      }
    }
    assert findings[..|findings|] == findings;
    r := Values(order, seen);
  }

  // ------------------------------------------------- what dedupe guarantees

  ghost predicate DistinctFindingKeys(fs: seq<Finding>) {
    forall i, j | 0 <= i < j < |fs| :: KeyOf(fs[i]) != KeyOf(fs[j])
  }

  lemma {:induction false} OneKeyOnePlace(r: seq<Finding>, i: nat, j: nat)
    requires DistinctFindingKeys(r) && i < |r| && j < |r| && KeyOf(r[i]) == KeyOf(r[j])
    ensures i == j
  {
  }

  lemma {:induction false} DedupedAppend(fs: seq<Finding>, f: Finding)
    ensures Deduped(fs + [f]) == Upsert(Deduped(fs), f)
  {
    assert (fs + [f])[..|fs|] == fs;
  }

  /** A later finding of the same key that is no more confident is dropped. */
  lemma {:induction false} LaterIsDropped(fs: seq<Finding>, f: Finding, g: Finding)
    requires Deduped(fs) == [f] && KeyOf(g) == KeyOf(f) && g.confidence <= f.confidence
    ensures Deduped(fs + [g]) == [f]
  {
    DedupedAppend(fs, g);
    assert IndexOfKey([f], KeyOf(g)) == 0;
  }

  /** f is the earliest among the most confident findings of its key. */
  ghost predicate IsBest(fs: seq<Finding>, f: Finding, at: nat) {
    && at < |fs| && fs[at] == f
    && (forall j | 0 <= j < |fs| && KeyOf(fs[j]) == KeyOf(f) :: fs[j].confidence <= f.confidence)
    && (forall j | 0 <= j < at && KeyOf(fs[j]) == KeyOf(f) :: fs[j].confidence < f.confidence)
  }

  ghost predicate Covers(fs: seq<Finding>, r: seq<Finding>) {
    forall i | 0 <= i < |fs| :: IndexOfKey(r, KeyOf(fs[i])) < |r|
  }

  ghost predicate InFirstOrder(fs: seq<Finding>, r: seq<Finding>) {
    forall i, j | 0 <= i < j < |r| :: IndexOfKey(fs, KeyOf(r[i])) < IndexOfKey(fs, KeyOf(r[j]))
  }

  ghost predicate Best(fs: seq<Finding>, f: Finding) {
    exists at: nat :: IsBest(fs, f, at)
  }

  /** One best finding for every key of the input, in the order in which the
      keys first occur. */
  ghost predicate IsDeduped(fs: seq<Finding>, r: seq<Finding>) {
    && DistinctFindingKeys(r)
    && Covers(fs, r)
    && InFirstOrder(fs, r)
    && (forall i | 0 <= i < |r| :: Best(fs, r[i]))
  }

  lemma {:induction false} IndexAfterAppend(fs: seq<Finding>, f: Finding, k: Key)
    ensures IndexOfKey(fs + [f], k) ==
      if IndexOfKey(fs, k) < |fs| then IndexOfKey(fs, k) else if KeyOf(f) == k then |fs| else |fs| + 1
  {
    if fs != [] && KeyOf(fs[0]) != k {
      IndexAfterAppend(fs[1..], f, k);
      TailOfConcat(fs, [f]);
    }
  }

  lemma {:induction false} BestAfterOther(p: seq<Finding>, f: Finding, g: Finding)
    requires Best(p, g)
    requires KeyOf(f) == KeyOf(g) ==> f.confidence <= g.confidence
    ensures Best(p + [f], g)
  {
    var at: nat :| IsBest(p, g, at);
    assert forall j | 0 <= j < |p| :: (p + [f])[j] == p[j];
    assert IsBest(p + [f], g, at);
  }

  lemma {:induction false} NewBest(p: seq<Finding>, f: Finding)
    requires forall j | 0 <= j < |p| && KeyOf(p[j]) == KeyOf(f) :: p[j].confidence < f.confidence
    ensures Best(p + [f], f)
  {
    assert forall j | 0 <= j < |p| :: (p + [f])[j] == p[j];
    assert IsBest(p + [f], f, |p|);
  }

  lemma {:induction false} BestIsThere(p: seq<Finding>, g: Finding)
    requires Best(p, g)
    ensures IndexOfKey(p, KeyOf(g)) < |p|
    ensures forall j | 0 <= j < |p| && KeyOf(p[j]) == KeyOf(g) :: p[j].confidence <= g.confidence
  {
    var at: nat :| IsBest(p, g, at);
  }

  lemma {:induction false} CoveredKey(p: seq<Finding>, r: seq<Finding>, k: Key)
    requires Covers(p, r)
    ensures IndexOfKey(p, k) < |p| ==> IndexOfKey(r, k) < |r|
  {
    var q := IndexOfKey(p, k);
    if q < |p| {
      assert KeyOf(p[q]) == k;
    }
  }

  lemma {:induction false} UncoveredKey(p: seq<Finding>, r: seq<Finding>, k: Key)
    requires Covers(p, r) && IndexOfKey(r, k) == |r|
    ensures IndexOfKey(p, k) == |p| && forall m | 0 <= m < |p| :: KeyOf(p[m]) != k
  {
    CoveredKey(p, r, k);
  }

  lemma {:induction false} UpsertKeepsKeys(r: seq<Finding>, f: Finding, k: Key)
    ensures IndexOfKey(Upsert(r, f), k) < |Upsert(r, f)| <==> IndexOfKey(r, k) < |r| || KeyOf(f) == k
  {
    var u, i := Upsert(r, f), IndexOfKey(r, KeyOf(f));
    if i == |r| {
      IndexAfterAppend(r, f, k);
    } else {
      SameKeysSameIndex(r, u, k);
    }
  }

  lemma {:induction false} SameKeysSameIndex(r: seq<Finding>, u: seq<Finding>, k: Key)
    requires |r| == |u| && forall j | 0 <= j < |r| :: KeyOf(r[j]) == KeyOf(u[j])
    ensures IndexOfKey(r, k) == IndexOfKey(u, k)
  {
    if r != [] && KeyOf(r[0]) != k {
      SameKeysSameIndex(r[1..], u[1..], k);
    }
  }

  lemma {:induction false} UpsertCovers(p: seq<Finding>, r: seq<Finding>, f: Finding)
    requires Covers(p, r)
    ensures Covers(p + [f], Upsert(r, f))
  {
    var fs, u := p + [f], Upsert(r, f);
    forall m | 0 <= m < |fs| ensures IndexOfKey(u, KeyOf(fs[m])) < |u| {
      UpsertKeepsKeys(r, f, KeyOf(fs[m]));
      assert m < |p| ==> fs[m] == p[m];
    }
  }

  /** Where the keys of the longer input's kept findings first occur. */
  lemma {:induction false} UpsertPositions(p: seq<Finding>, r: seq<Finding>, f: Finding, m: nat)
    requires IsDeduped(p, r) && m < |Upsert(r, f)|
    ensures IndexOfKey(p + [f], KeyOf(Upsert(r, f)[m])) == if m < |r| then IndexOfKey(p, KeyOf(r[m])) else |p|
    ensures m < |r| ==> KeyOf(Upsert(r, f)[m]) == KeyOf(r[m]) && IndexOfKey(p, KeyOf(r[m])) < |p|
    ensures m == |r| ==> KeyOf(Upsert(r, f)[m]) == KeyOf(f)
  {
    if m < |r| {
      assert KeyOf(Upsert(r, f)[m]) == KeyOf(r[m]);
      BestIsThere(p, r[m]);
    } else {
      UncoveredKey(p, r, KeyOf(f));
    }
    IndexAfterAppend(p, f, KeyOf(Upsert(r, f)[m]));
  }

  lemma {:induction false} UpsertOrder(p: seq<Finding>, r: seq<Finding>, f: Finding)
    requires IsDeduped(p, r)
    ensures InFirstOrder(p + [f], Upsert(r, f)) && DistinctFindingKeys(Upsert(r, f))
  {
    var fs, u := p + [f], Upsert(r, f);
    forall i, j | 0 <= i < j < |u|
      ensures IndexOfKey(fs, KeyOf(u[i])) < IndexOfKey(fs, KeyOf(u[j]))
    {
      UpsertPositions(p, r, f, i);
      UpsertPositions(p, r, f, j);
    }
    forall i, j | 0 <= i < j < |u| ensures KeyOf(u[i]) != KeyOf(u[j]) {
      assert IndexOfKey(fs, KeyOf(u[i])) < IndexOfKey(fs, KeyOf(u[j]));
    }
  }

  lemma {:induction false} UpsertBest(p: seq<Finding>, r: seq<Finding>, f: Finding, j: nat)
    requires IsDeduped(p, r) && j < |Upsert(r, f)|
    ensures Best(p + [f], Upsert(r, f)[j])
  {
    var u, i := Upsert(r, f), IndexOfKey(r, KeyOf(f));
    if j < |r| && u[j] == r[j] {
      BestAfterOther(p, f, r[j]);
    } else if i < |r| {
      BestIsThere(p, r[i]);
      NewBest(p, f);
    } else {
      UncoveredKey(p, r, KeyOf(f));
      NewBest(p, f);
    }
  }

  /** `dedupe` meets its specification on every input. */
  lemma {:induction false} DedupeMeetsSpec(fs: seq<Finding>)
    ensures IsDeduped(fs, Deduped(fs))
  {
    if fs != [] {
      var n := |fs| - 1;
      var p, r := fs[..n], Deduped(fs[..n]);
      DedupeMeetsSpec(p);
      UpsertCovers(p, r, fs[n]);
      UpsertOrder(p, r, fs[n]);
      forall j | 0 <= j < |Upsert(r, fs[n])| ensures Best(p + [fs[n]], Upsert(r, fs[n])[j]) {
        UpsertBest(p, r, fs[n], j);
      }
      assert fs == p + [fs[n]];
    }
  }

  // ------------------------------------------------- the specification is exact

  lemma {:induction false} BestIsUnique(fs: seq<Finding>, f: Finding, g: Finding)
    requires Best(fs, f) && Best(fs, g) && KeyOf(f) == KeyOf(g)
    ensures f == g
  {
    var i: nat :| IsBest(fs, f, i);
    var j: nat :| IsBest(fs, g, j);
  }

  /** The n-th kept finding is decided by the input alone. */
  lemma {:induction false} DedupedPrefixesAgree(fs: seq<Finding>, r: seq<Finding>, s: seq<Finding>, n: nat)
    requires IsDeduped(fs, r) && IsDeduped(fs, s) && n <= |r|
    ensures n <= |s| && r[..n] == s[..n]
  {
    if n > 0 {
      var m := n - 1;
      DedupedPrefixesAgree(fs, r, s, m);
      NextKeyAgrees(fs, r, s, m);
      PrefixEnds(r, n);
      PrefixEnds(s, n);
    }
  }

  /** The position in s of a key that r keeps. */
  lemma {:induction false} KeptInBoth(fs: seq<Finding>, r: seq<Finding>, s: seq<Finding>, m: nat) returns (i: nat)
    requires IsDeduped(fs, r) && IsDeduped(fs, s) && m < |r|
    ensures i < |s| && s[i] == r[m]
  {
    BestIsThere(fs, r[m]);
    CoveredKey(fs, s, KeyOf(r[m]));
    i := IndexOfKey(s, KeyOf(r[m]));
    BestIsUnique(fs, s[i], r[m]);
  }

  lemma {:induction false} NotKeptEarlier(r: seq<Finding>, s: seq<Finding>, m: nat, i: nat)
    requires DistinctFindingKeys(r) && m < |r| && m <= |s| && r[..m] == s[..m] && i < |s| && s[i] == r[m]
    ensures m <= i
  {
    forall q | 0 <= q < m ensures r[q] == s[q] {
      assert r[q] == r[..m][q];
    }
  }

  lemma {:induction false} NextKeyAgrees(fs: seq<Finding>, r: seq<Finding>, s: seq<Finding>, m: nat)
    requires IsDeduped(fs, r) && IsDeduped(fs, s) && m < |r| && m <= |s| && r[..m] == s[..m]
    ensures m < |s| && r[m] == s[m]
  {
    var i := KeptInBoth(fs, r, s, m);
    NotKeptEarlier(r, s, m, i);
    var j := KeptInBoth(fs, s, r, m);
    NotKeptEarlier(s, r, m, j);
    FirstOrderAgrees(fs, r, s, m, j, i);
  }

  lemma {:induction false} FirstOrderAgrees(fs: seq<Finding>, r: seq<Finding>, s: seq<Finding>, m: nat, j: nat, i: nat)
    requires InFirstOrder(fs, r) && InFirstOrder(fs, s)
    requires m <= j < |r| && m <= i < |s| && r[j] == s[m] && s[i] == r[m]
    ensures r[m] == s[m]
  {
  }

  /** Nothing but the output of `dedupe` meets the specification. */
  lemma {:induction false} DedupeSpecIsExact(fs: seq<Finding>, r: seq<Finding>)
    ensures IsDeduped(fs, r) <==> r == Deduped(fs)
  {
    DedupeMeetsSpec(fs);
    if IsDeduped(fs, r) {
      var s := Deduped(fs);
      DedupedPrefixesAgree(fs, r, s, |r|);
      DedupedPrefixesAgree(fs, s, r, |s|);
      assert r == r[..|r|] && s == s[..|s|];
    }
  }

  // ------------------------------------------------------------- ordering

  /** f must come before g: more severe, or as severe and more confident. */
  predicate Precedes(f: Finding, g: Finding) {
    || SeverityRank(f.severity) < SeverityRank(g.severity)
    || (SeverityRank(f.severity) == SeverityRank(g.severity) && f.confidence > g.confidence)
  }

  /** Put f in front of the first finding that need not come before it. */
  function InsertBySeverity(f: Finding, fs: seq<Finding>): seq<Finding> {
    if fs == [] || !Precedes(fs[0], f) then [f] + fs else [fs[0]] + InsertBySeverity(f, fs[1..])
  }

  /** The stable sort by severity, then by falling confidence. */
  function SortedBySeverity(fs: seq<Finding>): seq<Finding> {
    if fs == [] then [] else InsertBySeverity(fs[0], SortedBySeverity(fs[1..]))
  }

  ghost predicate InOrder(fs: seq<Finding>) {
    forall i, j | 0 <= i < j < |fs| :: !Precedes(fs[j], fs[i])
  }

  /** Findings of one severity rank and confidence, as they stand in fs. */
  function Equals(fs: seq<Finding>, rank: nat, confidence: real): seq<Finding> {
    if fs == [] then []
    else (if SeverityRank(fs[0].severity) == rank && fs[0].confidence == confidence then [fs[0]] else [])
         + Equals(fs[1..], rank, confidence)
  }

  /** Same findings, equally ranked ones in the same order. */
  ghost predicate SameByRank(fs: seq<Finding>, r: seq<Finding>) {
    forall rank: nat, confidence :: Equals(fs, rank, confidence) == Equals(r, rank, confidence)
  }

  lemma {:induction false} InsertKeepsOrder(f: Finding, fs: seq<Finding>)
    requires InOrder(fs)
    ensures InOrder(InsertBySeverity(f, fs))
    ensures forall g :: g in InsertBySeverity(f, fs) <==> g == f || g in fs
  {
    if fs != [] && Precedes(fs[0], f) {
      InsertKeepsOrder(f, fs[1..]);
      var r := InsertBySeverity(f, fs[1..]);
      forall j | 0 <= j < |r| ensures !Precedes(r[j], fs[0]) {
        assert r[j] in r;
      }
      assert fs == [fs[0]] + fs[1..];
    }
  }

  lemma {:induction false} InsertIsStable(f: Finding, fs: seq<Finding>, rank: nat, confidence: real)
    ensures Equals(InsertBySeverity(f, fs), rank, confidence) == Equals([f] + fs, rank, confidence)
  {
    assert ([f] + fs)[1..] == fs;
    if fs != [] && Precedes(fs[0], f) {
      var r := InsertBySeverity(f, fs[1..]);
      InsertIsStable(f, fs[1..], rank, confidence);
      assert ([f] + fs[1..])[1..] == fs[1..] && ([fs[0]] + r)[1..] == r;
    }
  }

  lemma {:induction false} SortIsStable(fs: seq<Finding>, rank: nat, confidence: real)
    ensures Equals(SortedBySeverity(fs), rank, confidence) == Equals(fs, rank, confidence)
  {
    if fs != [] {
      SortIsStable(fs[1..], rank, confidence);
      InsertIsStable(fs[0], SortedBySeverity(fs[1..]), rank, confidence);
      assert ([fs[0]] + SortedBySeverity(fs[1..]))[1..] == SortedBySeverity(fs[1..]);
    }
  }

  lemma {:induction false} SortOrders(fs: seq<Finding>)
    ensures InOrder(SortedBySeverity(fs))
  {
    if fs != [] {
      SortOrders(fs[1..]);
      InsertKeepsOrder(fs[0], SortedBySeverity(fs[1..]));
    }
  }

  lemma {:induction false} FirstOfRank(fs: seq<Finding>, g: Finding)
    ensures g in fs ==> g in Equals(fs, SeverityRank(g.severity), g.confidence)
    ensures forall h | h in Equals(fs, SeverityRank(g.severity), g.confidence) ::
      h in fs && SeverityRank(h.severity) == SeverityRank(g.severity) && h.confidence == g.confidence
  {
    if fs != [] {
      FirstOfRank(fs[1..], g);
    }
  }

  /** A finding of one list has an equally ranked one in the other. */
  lemma {:induction false} HasPeer(a: seq<Finding>, b: seq<Finding>, g: Finding) returns (i: nat)
    requires SameByRank(a, b) && g in a
    ensures i < |b| && SeverityRank(b[i].severity) == SeverityRank(g.severity) && b[i].confidence == g.confidence
  {
    FirstOfRank(a, g);
    FirstOfRank(b, g);
    assert Equals(a, SeverityRank(g.severity), g.confidence) == Equals(b, SeverityRank(g.severity), g.confidence);
    i :| 0 <= i < |b| && b[i] == g;
  }

  /** An order with the same findings rank by rank is the only one. */
  lemma {:induction false} OrderIsUnique(a: seq<Finding>, b: seq<Finding>)
    requires InOrder(a) && InOrder(b) && SameByRank(a, b)
    ensures a == b
  {
    if a != [] {
      var i := HasPeer(a, b, a[0]);
      var j := HasPeer(b, a, b[0]);
      assert !Precedes(b[i], b[0]) || i == 0;
      assert !Precedes(a[j], a[0]) || j == 0;
      var rank, confidence := SeverityRank(a[0].severity), a[0].confidence;
      assert Equals(a, rank, confidence)[0] == a[0] && Equals(b, rank, confidence)[0] == b[0];
      forall r: nat, c ensures Equals(a[1..], r, c) == Equals(b[1..], r, c) {
        TailOfEquals(a, r, c);
        TailOfEquals(b, r, c);
      }
      OrderIsUnique(a[1..], b[1..]);
      assert a == [a[0]] + a[1..] && b == [b[0]] + b[1..];
    } else if b != [] {
      var i := HasPeer(b, a, b[0]);
    }
  }

  lemma {:induction false} TailOfEquals(a: seq<Finding>, rank: nat, confidence: real)
    requires a != []
    ensures Equals(a[1..], rank, confidence)
      == if SeverityRank(a[0].severity) == rank && a[0].confidence == confidence
         then Equals(a, rank, confidence)[1..] else Equals(a, rank, confidence)
  {
  }

  /** `sort_by_severity` is the stable sort, and nothing else is. */
  lemma {:induction false} SortSpecIsExact(fs: seq<Finding>, r: seq<Finding>)
    ensures InOrder(r) && SameByRank(fs, r) <==> r == SortedBySeverity(fs)
  {
    SortOrders(fs);
    forall rank: nat, confidence
      ensures Equals(SortedBySeverity(fs), rank, confidence) == Equals(fs, rank, confidence)
    {
      SortIsStable(fs, rank, confidence);
    }
    if InOrder(r) && SameByRank(fs, r) {
      OrderIsUnique(r, SortedBySeverity(fs));
    }
  }

  /** How grave a severity is: "critical" most, an unknown one least. */
  function Gravity(severity: string): nat {
    if severity == "critical" then 4
    else if severity == "high" then 3
    else if severity == "medium" then 2
    else if severity == "low" then 1
    else 0
  }

  lemma {:induction false} RankIsGravity(s: string, t: string)
    ensures SeverityRank(s) < SeverityRank(t) <==> Gravity(s) > Gravity(t)
  {
  }

  lemma {:induction false} InsertKeepsAll(f: Finding, fs: seq<Finding>)
    ensures multiset(InsertBySeverity(f, fs)) == multiset([f] + fs)
  {
    if fs != [] && Precedes(fs[0], f) {
      InsertKeepsAll(f, fs[1..]);
      assert fs == [fs[0]] + fs[1..];
    }
  }

  lemma {:induction false} SortKeepsAll(fs: seq<Finding>)
    ensures multiset(SortedBySeverity(fs)) == multiset(fs)
  {
    if fs != [] {
      SortKeepsAll(fs[1..]);
      InsertKeepsAll(fs[0], SortedBySeverity(fs[1..]));
      assert fs == [fs[0]] + fs[1..];
    }
  }

  /** The sort loses nothing, puts graver findings first, and of equally grave
      ones the more confident. */
  lemma {:induction false} GravestFirst(fs: seq<Finding>, i: nat, j: nat)
    requires i < j < |SortedBySeverity(fs)|
    ensures multiset(SortedBySeverity(fs)) == multiset(fs)
    ensures var f, g := SortedBySeverity(fs)[i], SortedBySeverity(fs)[j];
      || Gravity(f.severity) > Gravity(g.severity)
      || (Gravity(f.severity) == Gravity(g.severity) && f.confidence >= g.confidence)
  {
    SortKeepsAll(fs);
    SortOrders(fs);
    var f, g := SortedBySeverity(fs)[i], SortedBySeverity(fs)[j];
    assert !Precedes(g, f);
    RankIsGravity(f.severity, g.severity);
    RankIsGravity(g.severity, f.severity);
  }

  // ------------------------------------------------------------- the pipeline

  /** What a run persists: duplicates dropped, most severe first. */
  function Pipeline(fs: seq<Finding>): seq<Finding> {
    SortedBySeverity(Deduped(fs))
  }

  lemma {:induction false} InsertKeepsDistinct(f: Finding, fs: seq<Finding>)
    requires DistinctFindingKeys(fs) && forall i | 0 <= i < |fs| :: KeyOf(fs[i]) != KeyOf(f)
    ensures var r := InsertBySeverity(f, fs);
      && DistinctFindingKeys(r) && |r| == |fs| + 1
      && forall i | 0 <= i < |r| :: KeyOf(r[i]) == KeyOf(f) || exists j :: 0 <= j < |fs| && KeyOf(r[i]) == KeyOf(fs[j])
  {
    if fs != [] && Precedes(fs[0], f) {
      InsertKeepsDistinct(f, fs[1..]);
    }
  }

  lemma {:induction false} SortKeepsDistinct(fs: seq<Finding>)
    requires DistinctFindingKeys(fs)
    ensures var r := SortedBySeverity(fs);
      && DistinctFindingKeys(r) && |r| == |fs|
      && forall i | 0 <= i < |r| :: exists j :: 0 <= j < |fs| && KeyOf(r[i]) == KeyOf(fs[j])
  {
    if fs != [] {
      SortKeepsDistinct(fs[1..]);
      InsertKeepsDistinct(fs[0], SortedBySeverity(fs[1..]));
    }
  }

  lemma {:induction false} DistinctIsDeduped(fs: seq<Finding>)
    requires DistinctFindingKeys(fs)
    ensures Deduped(fs) == fs
  {
    if fs != [] {
      var n := |fs| - 1;
      DistinctIsDeduped(fs[..n]);
      assert fs == fs[..n] + [fs[n]];
    }
  }

  /** The keys that survive are distinct, one per key of the input, and a
      second pass changes nothing. */
  lemma {:induction false} PipelineIsStable(fs: seq<Finding>)
    ensures DistinctFindingKeys(Pipeline(fs)) && |Pipeline(fs)| == |Deduped(fs)|
    ensures Pipeline(Pipeline(fs)) == Pipeline(fs)
  {
    var d, p := Deduped(fs), Pipeline(fs);
    DedupeMeetsSpec(fs);
    SortKeepsDistinct(d);
    DistinctIsDeduped(p);
    SortOrders(d);
    SortSpecIsExact(p, p);
  }
}
