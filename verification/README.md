# Incognitor: a verified model of the Sentinel core

Incognitor watches for a person's data on the web, opens removal campaigns
against the brokers that publish it, and keeps a tamper-evident receipt of every
step. This project models that core in Dafny and proves what it promises, for
every input and every run.

## How it is organised

The removal state machine is a datatype of indivisible steps with one function
per step (`Sentinel`). A run is any sequence of steps, so the results hold for
every interleaving of requests, endpoints and periodic passes at that grain, with
any plan changes and any passage of time in between. `SentinelStore` holds the
tables as mutable fields and follows the Python statements; each of its methods is
proved to be a sequence of those steps, so whatever is proved of runs holds of
every store.

| file | part of the system |
|---|---|
| Prelude.dfy, Strings.dfy, Records.dfy, Policies.dfy | shared vocabulary, text functions, table rows, plan, channel, deadline and de-index policies |
| Json.dfy, HashChain.dfy, Ledger.dfy, CanonicalText.dfy | canonical JSON, hash chains, removal receipts, and the very text that is hashed |
| Identifiers.dfy, Matcher.dfy, Triage.dfy | normalization and blind indexes, match scores, the finding pipeline |
| Sentinel.dfy | the state machine |
| StatusInvariant.dfy, ReceiptInvariant.dfy, SendCap.dfy, Bounds.dfy, ExposureInvariant.dfy, Passes.dfy | what holds over every run |
| Openings.dfy, Histories.dfy, Sightings.dfy, Isolation.dfy | what rows say: the campaign a removal opens, a campaign's dates, submissions and receipts, an exposure's findings, and whose rows a step may touch |
| Witnesses.dfy | runs that reach what the counts allow |
| SentinelStore.dfy | the agent, the endpoints and the heartbeat on mutable tables |
| ScanEngine.dfy, Compliance.dfy, BrokerScores.dfy, Login.dfy | scan accounting, broker scores, alone and over runs, the failed-login counter |

SHA-256 and HMAC are arbitrary functions to 64 hexadecimal characters. They are
not assumed to be injective: a result that needs it says that two pre-images that
occur in its own inputs collide otherwise.

Main results: one ledger hash binds the whole ledger (`Ledger.LedgerBinds`),
exactly what a replay accepts (`Ledger.VerifiesExactlyRehashed`), and the text that
is hashed, character by character (`CanonicalText.VerifiesExactlyHashed`);
canonical JSON is injective and independent of key order
(`Json.CanonicalIsMeaning`); exposure and campaign statuses stay paired
(`StatusInvariant.StatusesAlwaysPaired`); exactly when a removal opens a campaign,
with which channel, jobs and first receipt (`Openings.RemovalOpensExactly`); every
campaign's ledger verifies and accounts for its jobs
(`ReceiptInvariant.LedgersMatchJobs`), receipt by receipt
(`Histories.RowTellsHistory`); the rolling send cap (`SendCap.DailyWindowIsCapped`);
exact laws for attempts, escalations, verifications and live monitors (`Bounds`,
`Passes`); exposures are unique and carry the maximal confidence, and a run's
findings add up (`ExposureInvariant`); a pass escalates and verifies exactly what the
dates of request and submission say (`Histories.PassEscalatesExactlyLate`,
`Histories.PassVerifiesExactlySubmitted`), and a tick serves exactly the due
watchlists (`Passes.TickReschedulesExactlyDue`); dedupe and sort each meet an exact
specification (`Triage`); the strongest match decides a score
(`Matcher.ScoreExactly`); a scan covers exactly the active brokers and its counters
reconcile with request rows (`ScanEngine.ScanCoversTable`,
`ScanEngine.FreshScanReconciles`); a broker's score as a formula, and exactly when a
removal lowers it (`Compliance`); a login is locked exactly by a streak of failures
(`Login.LockedExactlyByStreak`).

Where a result tells what a function makes of its input, it says so on the fields and
with the source's own constants, not by naming that function: days are 86400 seconds,
plans allow 20, 1000 and 3000 sends.

## Where the code says less than its documentation

- The ledger is described as proof that a receipt was not altered. The chain covers
  sequence, kind, payload and campaign, not the ciphertext or the content hash
  (`Ledger.CiphertextIsNotCovered`), and it holds no key. So a replay accepts exactly
  the rows whose chain hashes are those computed from their contents
  (`Ledger.VerifiesExactlyRehashed`): a dropped suffix, and any row rewritten to
  anything with the hashes from there on recomputed (`Ledger.RewritingPasses`). Untouched
  rows that are dropped, reordered or repeated pass only as a prefix
  (`Ledger.OnlyPrefixesVerify`), and a row rewritten under its stored hashes is
  reported (`Ledger.TamperingIsReported`). An alteration shows exactly when the last
  hash is known from elsewhere (`Ledger.AlterationShowsInLastHash`).
- The key that `dedupe` uses leaves out the matched identifier, which the fingerprint
  that tells exposures apart includes, so it drops findings whose fingerprints differ
  (`ExposureInvariant.DedupeDropsIdentifiers`). It keeps every fingerprint text exactly
  when findings of one key share one blind index
  (`ExposureInvariant.DedupeKeepsTexts`).
- An on-device report names its identifier by a blind index, but that index never
  enters the fingerprint: reports about different identifiers at one source, kind and
  URL share one exposure (`SentinelStore.OnDeviceIgnoresIdentifier`).
- Parts that contain the separator make fingerprints ambiguous
  (`Triage.BarsMakeFingerprintsAmbiguous`); a fingerprint text is unambiguous exactly
  when no part holds a separator (`Triage.BarsDecideAmbiguity`).
- `AgentJob.max_attempts` is shown to the device, and no endpoint reads it: attempts
  follow failures and completions alone (`Bounds.AttemptsAreExact`) and reach any
  number (`Witnesses.AttemptsHaveNoLimit`).
- Completing any job but DEINDEX, even one completed before, submits the campaign
  again, so a campaign can be escalated any number of times
  (`Witnesses.EscalationsHaveNoLimit`): once, and once more for each completion that
  found it no longer waiting for the broker (`Bounds.EscalationsAreExact`).
- The tick looks for a live MONITOR job before it queues one, yet two can be live
  (`Witnesses.TwoMonitorsCanBeLive`): exactly when a failed one is claimed again while
  another is live (`Bounds.OneLiveMonitorExactly`).
- No modelled step marks a campaign REMOVED or VERIFIED, so in every run each broker
  with a campaign has score 0 and removal rate 0
  (`BrokerScores.EveryBrokerScoresZero`). The next point needs statuses set from
  outside, through the administration site.
- A removal slower than the broker's average can lower the broker's score
  (`Compliance.SlowRemovalLowersScore`); it does exactly when the speed points it
  costs exceed its share (`Compliance.RemovalLowersScoreExactly`).
- A quoted e-mail address is found exactly when it is not blank and holds no white
  space but single plain spaces (`Matcher.QuotedEmailScores`); one with a tab, a line
  break or two spaces in a row inside is lost (`Matcher.TabbedEmailIsLost`).
- A scan request stays pending for a broker whose removal method is none of the four
  that the broker table offers as choices (`ScanEngine.FreshScanReconciles` counts
  exactly those). The choices are checked by forms, not by the database, so such a row
  must have bypassed them.

## Model

| member | source | states |
|---|---|---|
| Json.CanonicalIsMeaning | core/services/ledger.py:15-16 | two values have the same canonical text if and only if they denote the same thing, objects being maps: injective, and independent of key insertion order |
| Json.TextSplits | core/services/ledger.py:15-16 | a normalized value is told from the text after it: no canonical text can be read as another value followed by something else |
| Json.QuoteSplits | core/services/ledger.py:15-16 | an escaped string ends at its own closing quote, whatever follows, with every escape of section 7 of RFC 8259 and surrogate pairs |
| Json.IntTextSplits | core/services/ledger.py:15-16 | a decimal integer is determined by its text as long as no digit follows |
| Json.NormalizeSorts | core/services/ledger.py:15-16 | sorting keys yields a normal form that denotes the same value |
| Json.NormalIsUnique | core/services/ledger.py:15-16 | one meaning has one normal form |
| CanonicalText.CanonicalAscends | core/services/ledger.py:15-16 | the canonical text is the text of the one value that denotes the same and in every object of which each key is a proper prefix of the next or has the smaller character where they first differ |
| CanonicalText.ValueText | core/services/ledger.py:15-16 | null, true, false, quoted strings, and arrays and objects without blanks: a comma between items and members, a colon after each key |
| CanonicalText.IntegerText | core/services/ledger.py:15-16 | an integer is its sign and decimal digits that add up to it, without a leading zero |
| CanonicalText.StringText | core/services/ledger.py:15-16 | a string is the texts of its characters, one after another, between two quotes |
| CanonicalText.ShortEscapes | core/services/ledger.py:15-16 | the seven two-character escapes of section 7 of RFC 8259 that are written |
| CanonicalText.CharacterText | core/services/ledger.py:15-16 | printable ASCII as itself; other characters of the basic plane as one lower-case hexadecimal unit, any other as its two surrogates |
| CanonicalText.EntryText | core/services/ledger.py:29-35 | the hashed entry, written out: campaign, kind, payload and sequence in this order, for every campaign, number, kind and payload |
| HashChain.FirstBarSplits | core/services/ledger.py:19-20 | the first separator splits a pre-image uniquely into previous hash and content |
| HashChain.ValidLengthIsUnique | core/services/ledger.py:48-64 | a chain has exactly one longest valid prefix, the whole chain exactly when all links are sound |
| HashChain.LastHashBinds | core/services/ledger.py:19-64 | valid chains of any lengths that end in one hash are equal, or two of their own pre-images collide |
| HashChain.OnlyPrefixesChain | core/services/ledger.py:48-64 | whatever links of any verifying chain are put together in whatever order, they verify only as a prefix, or two of its pre-images collide |
| Ledger.Entry | core/services/ledger.py:29-34 | the hashed entry denotes exactly campaign, sequence, kind and payload |
| Ledger.EntriesAgree | core/services/ledger.py:29-34 | canonical entries are equal exactly when campaign, sequence, kind and payload are |
| Ledger.Receipts.constructor | core/services/ledger.py:23-28 | a new campaign has no receipts |
| Ledger.Receipts.Append | core/services/ledger.py:23-45 | appends exactly one row, numbered after and chained to the last, with falsy payloads stored as the empty object |
| Ledger.AppendExtends | core/services/ledger.py:23-45 | an appended ledger verifies exactly when the one before did, and numbering from zero goes on |
| Ledger.Receipts.VerifyChain | core/services/ledger.py:48-64 | the report is exact: length is the longest valid prefix, valid exactly when that is everything, broken_at the sequence of the next entry |
| Ledger.LedgerBinds | core/services/ledger.py:15-64 | two non-empty verifying ledgers with one last hash agree in campaign, length, and every sequence, kind, payload and previous hash, or two of their own pre-images collide |
| Ledger.TamperingIsReported | core/services/ledger.py:48-64 | rewriting the covered fields of one row under its two stored chain hashes goes unnoticed exactly when the row still denotes the same entry; otherwise the report stops at that row, or the old and new pre-images collide |
| Ledger.VerifiesExactlyRehashed | core/services/ledger.py:48-64 | a replay accepts exactly the rows that equal themselves with the chain hashes recomputed, and accepts those for any contents |
| Ledger.RewritingPasses | core/services/ledger.py:48-64 | any row of a verifying ledger can be rewritten to anything: with the hashes from there on recomputed it verifies, the rows before are identical and the later ones denote the same entries |
| Ledger.AlterationShowsInLastHash | core/services/ledger.py:15-64 | whatever is presented in place of a verifying ledger verifies and ends in its last hash exactly when it agrees row by row, or pre-images collide; an altered one verifies exactly when its hashes were recomputed, and then its last hash differs, or pre-images collide |
| Ledger.CiphertextIsNotCovered | core/services/ledger.py:29-45 | verification does not depend on ciphertext or content hash |
| Ledger.OnlyPrefixesVerify | core/services/ledger.py:48-64 | rows of any verifying ledger, dropped, reordered or repeated at will, verify exactly as a prefix of it, or two of its own pre-images collide |
| CanonicalText.VerifiesExactlyHashed | core/services/ledger.py:15-64 | a ledger verifies exactly when each row points at the hash before it and carries the hash of that hash, a bar and the written-out entry, a falsy payload counting as the empty object |
| Identifiers.NormalizationIsStable | core/crypto.py:39-60 | normalization is idempotent for every kind |
| Identifiers.NormalFormByKind | core/crypto.py:39-60 | white space goes at both ends; then a phone keeps its digits behind a plus, names and user names get single spaces and lower case, every other kind lower case only |
| Identifiers.IndexIsNormalForm | core/crypto.py:75-85 | values of one kind share a blind index exactly when they normalize to the same text, unless their messages collide; indexing a normalized value gives the same index |
| Identifiers.PhonesShareIndex | core/crypto.py:43-45 | phone numbers share a blind index exactly when they have the same digits, unless their messages collide |
| Strings.LowerLaw | core/crypto.py:39-60 | lower-casing maps the 26 capital letters to the small ones and nothing else |
| Strings.StripSplits | core/crypto.py:39-60 | stripping cuts white space off both ends and leaves neither end blank |
| Strings.CollapseLaw | core/crypto.py:48-49 | each run of white space becomes one space, and text without any stays as it is |
| Strings.WordsLaw | core/agent/matcher.py:32-45 | words are the pieces between runs of white space |
| Strings.JoinSplits | core/agent/matcher.py:32-45 | words joined by spaces split into the same words |
| Matcher.CollectNameVariants | core/agent/matcher.py:32-45 | the loop over nicknames collects exactly the variants of the name |
| Matcher.VariantsOfWords | core/agent/matcher.py:32-45 | the variants of a name of two or more lower-case words: the name, its words in reverse order, and each nickname of the first word before the rest |
| Matcher.ScoreExactly | core/agent/matcher.py:52-81 | 1.0 for an address that occurs, else 0.9 for a phone of at least seven digits the last seven of which are among the text's digits, else 0.7 for a variant of the name, else 0.4 when there are words of more than two letters and all of them occur, else 0.0, with the kind and value of the match |
| Matcher.QuotedPhoneScores | core/agent/matcher.py:65-69 | a text that quotes a phone number scores at least 0.9 when the number has seven digits, and never 0.9 with fewer |
| Matcher.ScoreGrowsWithText | core/agent/matcher.py:48-81 | putting a text inside a larger one, on either side, never lowers the score |
| Matcher.QuotedEmailScores | core/agent/matcher.py:57-63 | a text that quotes the subject's address scores 1.0 exactly when there is an address and collapsing white space leaves it alone |
| Matcher.TabbedEmailIsLost | core/agent/matcher.py:57-63 | an address with a tab in it is not found in its own text |
| Matcher.QuotedNameScores | core/agent/matcher.py:71-74 | a text that quotes the subject's name as written scores at least 0.7 |
| Matcher.QuotedVariantScores | core/agent/matcher.py:32-74 | a text that quotes any reversed or nickname variant scores at least 0.7 |
| Triage.SeverityGrowsWithClasses | core/agent/triage.py:24-39 | more leaked data classes never make a finding less severe, and a score is always ranked |
| Triage.SeverityExactly | core/agent/triage.py:8-39 | the severity of every finding from its kind and its leaked data classes, trimmed and in lower case, with the three lists of classes written out |
| Triage.FingerprintIs | core/agent/triage.py:42-50 | a fingerprint is the hash of source, kind, breach name, URL and blind index with bars between |
| Triage.FingerprintTextIsInjective | core/agent/triage.py:42-50 | when source, kind, breach name and blind index hold no separator, fingerprint texts are equal exactly when key and blind index are, even if the URL holds separators |
| Triage.BarsMakeFingerprintsAmbiguous | core/agent/triage.py:42-50 | without that restriction two findings with different keys share a fingerprint, whatever the hash: a separator moves from the source into the kind |
| Triage.BarsDecideAmbiguity | core/agent/triage.py:42-50 | a fingerprint text tells key and blind index from every other pair exactly when no part of it holds a separator; for a blind index without one this is so even among such indexes alone |
| Triage.Dedupe | core/agent/triage.py:53-61 | the loop over an insertion-ordered dictionary computes the deduped list |
| Triage.DedupeMeetsSpec | core/agent/triage.py:53-61 | exactly one finding per key of the input, the earliest of maximal confidence, in the order in which keys first occur |
| Triage.DedupeSpecIsExact | core/agent/triage.py:53-61 | no other list meets that specification |
| Triage.SortSpecIsExact | core/agent/triage.py:64-71 | the sort is the only list in order of severity and descending confidence that keeps equal findings in their order |
| Triage.GravestFirst | core/agent/triage.py:64-71 | the sort loses nothing and puts critical before high before medium before low before anything else, and of equally grave findings the more confident first |
| Triage.PipelineIsStable | core/agent/triage.py:53-71 | dedupe then sort leaves distinct keys, one per key, and a second pass changes nothing |
| StatusInvariant.StatusesAlwaysPaired | core/agent/orchestrator.py:192-256 | in every run an exposure has at most one campaign; without one it is NEW or DISMISSED, with one the pair is QUEUED/REMOVAL_QUEUED, SUBMITTED/REMOVAL_SENT or ESCALATED/FAILED, or the exposure is DISMISSED; jobs and campaigns refer to rows of their own user |
| StatusInvariant.RepeatedRemovalChangesNothing | core/agent/orchestrator.py:194-200 | after any further run a repeated removal returns the same campaign and changes nothing |
| Openings.RemovalOpensExactly | core/agent/orchestrator.py:192-275 | in every run a removal request opens a campaign exactly for the user's own exposure without one; it is dated now, with its deadline the configured days later; it starts with the queued request exactly when the user is staff or has fewer SEND_EMAIL jobs in the last 86400 seconds than 1000 on plan pro, 3000 on family, 20 otherwise, and else with the reached cap, on channel manual and without jobs; e-mail needs an opt-out address and goes before the web form, which needs its configuration; the jobs are one send or form and a de-index job exactly for an indexed page with a URL; nothing else changes |
| Isolation.StepsTouchOwnRows | core/api.py:673-745 | in every run what is done for a user changes no other user's exposure, campaign, job or watchlist, and adds only that user's rows |
| StatusInvariant.ApplyGrows | core/agent/orchestrator.py:119-376 | no step takes time back, deletes a row or changes what identifies it |
| ReceiptInvariant.LedgersMatchJobs | core/agent/orchestrator.py:220-256 | in every run a campaign's ledger verifies; its first entry is the queued request with exactly one send or form job and a de-index job exactly for an indexed page, or the reached cap with channel manual and none of these; every later entry is a completion, one per completion of one of its jobs |
| ReceiptInvariant.LengthsCountCompletions | core/api.py:703-723 | a ledger is longer than its opening entry by exactly the completions of its campaign's jobs |
| Histories.RowTellsHistory | core/api.py:702-731 | in every run the n-th receipt after the first is that of the n-th completion of the campaign's jobs: its job type, the first 200 characters of its confirmation, its result and content hash; the campaign was submitted when a job other than DEINDEX was last completed, under the last confirmation such a job came with |
| Histories.ReceiptsStay | core/services/ledger.py:23-45 | whatever happens, earlier receipts stay the first ones of the ledger |
| SendCap.EverySendUnderCap | core/agent/orchestrator.py:266-275 | each SEND_EMAIL job, with those of the same user in the day before it, was within the cap in force when it was created |
| SendCap.DailyWindowIsCapped | core/agent/orchestrator.py:219-242 | in every run with any plan changes, a closed window of 24 hours holds no more SEND_EMAIL jobs of a user than the cap when the last of them was created, unless that was unlimited |
| SendCap.OrdinaryDayIsCapped | core/entitlements.py:38-76 | in every run that never makes a user staff, whatever the plans, no closed window of 24 hours holds more than 3000 SEND_EMAIL jobs of that user |
| Bounds.AttemptsAreExact | core/api.py:692-745 | in every run a job's attempts, made or open to be claimed, are one plus the failures that made it claimable again less the completions that took it away unclaimed; no limit enters |
| Bounds.AttemptsAreBounded | core/api.py:692-745 | so a job is attempted at most once more often than it was failed |
| Witnesses.AttemptsHaveNoLimit | core/api.py:692-745 | for every k there is a run in which a job has k + 1 attempts after k failures |
| Bounds.OneLiveMonitorExactly | core/tasks.py:48-65 | a watchlist has at most one live MONITOR job throughout a run exactly when no failed one is claimed again while another is live |
| Bounds.LiveMonitorsAreBounded | core/tasks.py:48-65 | a watchlist has at most one live MONITOR job, and one more for each failed one that was claimed again |
| Witnesses.TwoMonitorsCanBeLive | core/api.py:691-700 | a run with one such claim in which two MONITOR jobs of one watchlist are live |
| Bounds.EscalationsAreExact | core/agent/orchestrator.py:342-376 | in every run a campaign's ESCALATE jobs, plus one while it awaits the broker, are one plus the completions of its non-DEINDEX jobs made while it did not await the broker |
| Bounds.EscalationsAreBounded | core/agent/orchestrator.py:342-376 | so a campaign is escalated at most once, and once more for every completion that submitted it again |
| Witnesses.EscalationsHaveNoLimit | core/api.py:726-731 | for every k there is a run in which a campaign is escalated k + 1 times, after k such completions |
| ExposureInvariant.ExposuresAreUniqueAndMaximal | core/agent/orchestrator.py:119-182 | in every run exposures are unique per user and fingerprint, every persisted finding has its exposure, and its confidence is the maximum over all findings persisted to it |
| Sightings.ExposureShowsSightings | core/agent/orchestrator.py:119-182 | in every run an exposure shows the first finding persisted to it, title cut to 300 and URL to 500 characters, critical and of kind canary for a canary, under the blind index of its identifier and the hash of its parts, and was last seen with the last finding |
| ExposureInvariant.DedupeKeepsTexts | core/agent/triage.py:42-61 | when findings of one key have one blind index, dedupe keeps a finding with every fingerprint text of its input; for findings whose source, kind and breach name hold no separator only then |
| ExposureInvariant.DedupeDropsIdentifiers | core/agent/triage.py:53-61 | one leak that names two phone numbers, and none: dedupe keeps the first report only, although the fingerprint texts differ, the second one's unless two index messages collide |
| ExposureInvariant.HitsDifferExactly | core/agent/orchestrator.py:83-95 | the findings of a run end in pairwise distinct exposures exactly when their fingerprints differ |
| ExposureInvariant.FindingsCountAddsUp | core/agent/orchestrator.py:81-95 | the findings left after dedupe hit pairwise distinct exposures and number the exposures created plus those seen again, or two of their own fingerprint texts collide |
| ExposureInvariant.RepeatedRunCreatesNothing | core/agent/orchestrator.py:83-87 | persisting the same findings again, after anything else, creates no exposure |
| Passes.PassEscalatesExactlyOverdue | core/tasks.py:73-89 | in every reachable state a pass escalates exactly the overdue campaigns, fails their exposures, adds one ESCALATE job for each, and leaves none overdue |
| Histories.DeadlineRunsFromRequest | core/agent/orchestrator.py:205-214 | in every run a campaign carries the time of the removal step that opened it, and its deadline is exactly the configured days later |
| Histories.PassEscalatesExactlyLate | core/agent/verifier.py:8-17 | in every run a pass escalates a campaign and fails its exposure exactly when its request is more than the configured days of 86400 seconds ago and it is QUEUED or SUBMITTED, not on the very deadline, with one ESCALATE job for each; every other campaign is untouched |
| Passes.EscalationTurnIs | core/agent/orchestrator.py:355-367 | what one escalation turn writes: the campaign's and its exposure's status and one ESCALATE job, or nothing |
| Passes.SecondPassEscalatesNone | core/tasks.py:73-89 | a second pass at the same time, in any user order, escalates nothing |
| Passes.PassConserves | core/agent/orchestrator.py:342-376 | ESCALATE jobs plus overdue campaigns are conserved by every verification and escalation turn |
| Passes.PassVerifiesExactlyDue | core/tasks.py:85-88 | a pass queues exactly one VERIFY job for each campaign due for a check and none for any other, also when it escalates the campaign |
| Histories.PassVerifiesExactlySubmitted | core/agent/verifier.py:20-29 | in every run a pass queues one VERIFY job for a campaign exactly when it is SUBMITTED and the last completion of a job other than DEINDEX is at least the verify interval ago |
| Passes.VerificationsAreExact | core/agent/orchestrator.py:320-340 | in every run a campaign has exactly one VERIFY job for each verification turn taken while it was due |
| Passes.TickServesEveryDueWatchlist | core/tasks.py:44-70 | after a tick each due watchlist has a live MONITOR job and a future next run, the others are untouched, and exactly one job was added per due watchlist without a live one |
| Passes.TickReschedulesExactlyDue | core/tasks.py:44-70 | a tick gives a watchlist a MONITOR job exactly when it is active, scheduled, its time has come and none is live, and puts its next run one cadence, at least 3600 seconds, from now; an inactive or unscheduled one keeps its row and gets no job |
| Passes.SecondTickQueuesNothing | core/tasks.py:44-70 | a second tick at the same time changes nothing |
| SentinelStore.ReachableIsSound | core/agent/orchestrator.py:119-376 | the tables of every store satisfy the status, reference and uniqueness invariants, and all their ledgers verify |
| SentinelStore.Store.constructor | core/models.py:448-488 | a store starts with empty tables |
| SentinelStore.Store.AdvanceClock | core/agent/orchestrator.py:269 | the clock only moves forward |
| SentinelStore.Store.ChangePlan | core/entitlements.py:68-76 | a user's plan or staff flag may change at any time |
| SentinelStore.Store.AddWatchlist | core/api.py:499-500 | a new watchlist has not run and is not scheduled |
| SentinelStore.Store.EditWatchlist | core/api.py:492-500 | changes name, activity and cadence of the user's own watchlist, not its schedule, and of no other |
| SentinelStore.Store.PersistFinding | core/agent/orchestrator.py:119-182 | updates time, confidence and a REMOVED status of the user's exposure with the finding's fingerprint, or creates it as the finding shows it, and says which |
| SentinelStore.Store.WithinQuota | core/agent/orchestrator.py:266-275 | within the quota exactly when the cap is -1 or the SEND_EMAIL jobs of the last 86400 seconds are fewer |
| SentinelStore.Store.OpenCampaign | core/agent/orchestrator.py:220-256 | jobs and first receipt of a new campaign, or the cap receipt and channel manual |
| SentinelStore.Store.QueueCampaign | core/agent/orchestrator.py:192-264 | is the removal step, and returns the exposure's newest campaign, old or new |
| SentinelStore.Store.Gather | core/agent/orchestrator.py:66-81 | collects the scored findings of every source that answered, in order, and lists those sources |
| SentinelStore.SourceContributes | core/agent/orchestrator.py:66-81 | at its place among the others a source contributes its findings with their scores and is listed exactly when it is configured and answers |
| SentinelStore.Store.PersistAll | core/agent/orchestrator.py:85-89 | persists every finding in order and lists exactly the exposures created |
| SentinelStore.Store.FinishRun | core/agent/orchestrator.py:91-101 | records the run and sets the watchlist's next run one cadence, at least 3600 seconds, ahead |
| SentinelStore.Store.Detect | core/agent/orchestrator.py:66-101 | the detection half of a run, from sources to the recorded run |
| SentinelStore.Store.RemoveAll | core/agent/orchestrator.py:103-107 | queues a removal for every created exposure |
| SentinelStore.Store.RunWatchlist | core/agent/orchestrator.py:49-116 | a whole run is its persisting steps, its record and reschedule, then its removals; the findings kept are the pipeline's |
| SentinelStore.Store.HandleOnDeviceFinding | core/api.py:810-858 | a report is recorded under the default watchlist, created when missing; several of that name are an error that changes nothing |
| SentinelStore.OnDeviceIgnoresIdentifier | core/api.py:818-832 | for reports without separators in source and kind, a later report goes to the exposure of an earlier one exactly when source, kind and URL are the same, whatever the identifiers, or the two fingerprint texts collide |
| SentinelStore.ReportIsShown | core/api.py:818-857 | a report leaves one run with one finding under a watchlist of the user named as the default, added when missing; a new exposure shows the report without an identifier, with the severity it came with or else its scored one |
| SentinelStore.Store.Dismiss | core/api.py:517-523 | dismisses the user's own exposure, and nothing else |
| SentinelStore.Store.RequestRemoval | core/api.py:525-529 | queues a removal for the user's own exposure, and nothing else |
| SentinelStore.Store.Claim | core/api.py:691-700 | refuses a job that is neither queued nor failed and changes nothing; otherwise claims it and counts the attempt |
| SentinelStore.Store.Fail | core/api.py:738-745 | fails the user's own job, whatever its status |
| SentinelStore.Store.Complete | core/api.py:702-736 | completes the user's own job, leaves a receipt, and unless it is a DEINDEX job submits the campaign and marks the exposure sent |
| SentinelStore.CompletionIsShown | core/api.py:702-736 | what a completion writes in every store: the job with its result, one receipt after the earlier ones, and unless it is a DEINDEX job the campaign's status, time and confirmation and the exposure's status; nothing for another user's job |
| SentinelStore.Store.VerifyIfDue | core/agent/orchestrator.py:332-339 | queues a VERIFY job exactly for the user's own submitted, awaiting or removed campaign whose submission, else completion, else creation is at least the interval ago |
| SentinelStore.Store.VerifyDueCampaigns | core/agent/orchestrator.py:320-340 | the verification pass over a user's campaigns, newest first, with the number of jobs it queued |
| SentinelStore.Store.EscalateIfOverdue | core/agent/orchestrator.py:355-367 | one campaign's escalation turn |
| SentinelStore.Store.EscalateOverdueCampaigns | core/agent/orchestrator.py:342-376 | the escalation pass over a user's campaigns, with the number of ESCALATE jobs it queued |
| SentinelStore.Store.ServeUser | core/tasks.py:85-88 | one user's turn is the verification pass followed by the escalation pass |
| SentinelStore.Store.ProcessUserCampaigns | core/tasks.py:73-89 | serves every user with a live campaign once, in whatever order; it escalates exactly the QUEUED and SUBMITTED campaigns requested more than the configured days ago, the count is their number and that of the ESCALATE jobs added, and nothing stays overdue |
| SentinelStore.Store.QueueIfDue | core/tasks.py:49-69 | queues a job exactly when the watchlist is active, its time has come and no MONITOR job of it is queued, claimed or running, and reschedules it whenever its time has come |
| SentinelStore.Store.QueueDueWatchlistJobs | core/tasks.py:44-70 | a tick over all watchlists; the count is the number of due watchlists without a live MONITOR job, and nothing stays due |
| ScanEngine.Engine.constructor | core/services/scan_engine.py:23-24 | an engine takes over the scan row it is given |
| ScanEngine.Engine.SendEmail | core/services/scan_engine.py:121-134 | the e-mail half of a broker's turn: SENT and one more removal, or FAILED with its error |
| ScanEngine.Engine.SubmitForm | core/services/scan_engine.py:136-144 | the form half: SENT with the page's confirmation and one more removal, or FAILED with its error |
| ScanEngine.Engine.ProcessBroker | core/services/scan_engine.py:107-165 | what a broker's turn leaves in request row and counters, and the error it raises, if any |
| ScanEngine.Engine.TakeTurn | core/services/scan_engine.py:51-67 | a raised error is counted and recorded and the loop goes on |
| ScanEngine.Engine.Run | core/services/scan_engine.py:33-97 | refused while running or completed, changing nothing; otherwise the whole sweep, which over a table with distinct ids leaves the requests and counters of exactly its active brokers |
| ScanEngine.CountersGrow | core/services/scan_engine.py:51-67 | whatever the scan held, each counter grows by the brokers that move it |
| ScanEngine.SweepsActiveInOrder | core/services/scan_engine.py:42-52 | a run sweeps the brokers of the table that are active, all of them, in its order |
| ScanEngine.TurnLeaves | core/services/scan_engine.py:99-165 | the request a broker's turn leaves, for each removal method and each failure: status, method, confirmation, error and retries |
| ScanEngine.ScanCoversTable | core/services/scan_engine.py:33-97 | over a table with distinct ids every active broker's request is what its turn left and no other request moves; total and completed count the active brokers, removed the e-mails and forms delivered, failed the turns that failed, found the manual ones, pending the requests that need a human |
| ScanEngine.FreshScanCoversActive | core/services/scan_engine.py:42-67 | after a fresh scan an id has a request exactly when an active broker of the table has it |
| ScanEngine.RowsAreSettled | core/services/scan_engine.py:107-165 | every active broker's request ends in its final row, and no other request moves |
| ScanEngine.FreshScanReconciles | core/services/scan_engine.py:33-83 | for any pattern of failures a fresh scan has one request per active broker; completed = total; failed, found and pending equal the rows FAILED and NEEDS_MANUAL; removed = SENT single-method + 2 SENT "both" + FAILED "both" after a sent e-mail; pending rows are exactly the unknown methods |
| Compliance.ScoredBroker.constructor | core/services/compliance.py:15-23 | a broker starts without score and rate |
| Compliance.ScoredBroker.Score | core/services/compliance.py:15-55 | none without campaigns, otherwise the clamped score in [0,100] and the removal rate in [0,1] |
| Compliance.RecomputeAll | core/services/compliance.py:58-63 | gives every active broker its score, removal rate and update time, leaves the others alone, and counts those that got a score |
| Compliance.ScoreFormula | core/services/compliance.py:19-50 | 100 times the share removed or verified, less 20 times the share failed and 25 times the share escalated, plus 10 for an average of at most 7 days, less the days above 30 up to 20, clamped to [0,100]; the average is over removals with both times known, in whole days of 86400 seconds |
| Compliance.RemovalLowersScoreExactly | core/services/compliance.py:25-50 | a removal moves the raw score by its share, with the penalty it lifts, less the speed points it costs: it lowers the score exactly when these exceed that share, and the clamped score exactly when, besides, the raw score was above 0 and ends below 100 |
| Compliance.RemovalNeverLowersScore | core/services/compliance.py:25-50 | turning a campaign into a removal strictly raises the raw score and never lowers the clamped one, if it is not slower than the current average, or than 30 days when there is none |
| Compliance.FewCampaignsNeverLowerScore | core/services/compliance.py:36-50 | with at most three campaigns the proviso is not needed |
| Compliance.SlowRemovalLowersScore | core/services/compliance.py:36-50 | with four it is: a removal after 95 days takes a score from 35 to 30 |
| BrokerScores.EveryBrokerScoresZero | core/services/compliance.py:12-50 | in every run of the modelled steps each broker with a campaign has clamped score 0 and removal rate 0 |
| Login.Gate.constructor | core/api.py:98-99 | no failures are counted at first |
| Login.Gate.Login | core/api.py:93-137 | locked exactly when the key's unexpired counter has reached the limit, and only below it are the credentials looked at; a bad password counts and restarts the lockout time, a login clears the counter, other outcomes leave it |
| Login.WindowHoldsFewFailures | core/api.py:98-111 | in every timed run with any other keys in between, a half-open window of the lockout time without a login of the key holds at most the allowed number of failed password checks |
| Login.LockIsEarned | core/api.py:98-105 | an attempt is locked only after at least that many failed password checks of its own key since its last login |
| Login.LockedExactlyByStreak | core/api.py:98-111 | in every run an attempt is locked exactly when the failed checks of its key since its last login, each less than the lockout time after the one before and the last less than that ago, have reached the allowed number |
| Login.LockEnds | core/api.py:98-111 | in every run a key without a failed check for the lockout time is not locked, when any attempt is allowed |
| Login.KeysTellPairsApart | core/api.py:98 | user names without a colon share a counter only for the same client address and user name |

## Left out

- Json.CanonicalIsMeaning: floating-point numbers, strings with lone surrogates and values that only `default=str` can write are not modelled; UTF-8 encoding of the text is not either, and is injective.
- Ledger.Receipts.VerifyChain: rows are held in sequence order, as the query returns them; two rows with one sequence number are not modelled.
- Matcher.ScoreGrowsWithText: lower-casing and white space are those of ASCII, and the whole of Unicode case folding is left out.
- Triage.FingerprintTextIsInjective: the URL fingerprinted is the finding's own; the breach date, record count, metadata and masked evidence of a finding are left out.
- SentinelStore.Store.QueueCampaign: the broker match, the jurisdiction and the random campaign id are inputs; audit records are left out.
- SentinelStore.Store.PersistFinding: provenance is reduced to the canary flag that sets kind and severity; breach events, masking, site domain and the links to run and watchlist are left out.
- SentinelStore.Store.Gather: a source is its list of findings or an error; the sources themselves and every network access are left out.
- SentinelStore.Store.FinishRun: the run row is added when the run ends, not first as RUNNING and then updated; the list of checked sources is returned and not stored.
- SentinelStore.Store.QueueDueWatchlistJobs: the time is the store's clock; an explicit `now` argument is left out.
- SentinelStore.Store.EscalateIfOverdue: a campaign always has an exposure and a deadline, as every one created by the agent does; notifications are left out.
- SentinelStore.Store.Complete: error messages and completion times of jobs are left out.
- SentinelStore.Store.Claim: the time of the claim is left out.
- SentinelStore.Store.Fail: the error message is left out.
- SentinelStore.Store.HandleOnDeviceFinding: the report is well typed; a confidence that is no number is left out, and so is the blind index kept in the metadata.
- ScanEngine.Engine.Run: activity logs, completion times, response data and the next scan date are left out, and writing a log does not fail.
- ScanEngine.FreshScanReconciles: a scan that is run again keeps its counters, so only the increments of `ScanEngine.CountersGrow` hold for it.
- Compliance.RecomputeAll: the same rounding is left out.
- Compliance.ScoredBroker.Score: arithmetic is exact; the final rounding to two and four decimals is left out.
- Login.Gate.Login: the cache keeps an entry until it expires; eviction under memory pressure and the request throttle are left out.
- SentinelStore.Store.ChangePlan: only plan and staff flag matter here, and the staff flag stands for the superuser flag too; limits on identities, household members and features are left out.
- Rows are never deleted and never edited through the administration site; deleting a watchlist is left out.
- Recurring scans, `progress_percent`, letters and templates, notifications, serializers, multi-factor authentication and e-mail verification are left out.
