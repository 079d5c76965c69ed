/** Hash-chained removal receipts: `append` and `verify_chain`. */
module Ledger {
  import opened Prelude
  import opened Json
  import opened HashChain

  /** One evidence row of a campaign. `contentHash` and `ciphertext` are stored
      beside the chained fields but are not covered by the entry hash. */
  datatype Evidence = Evidence(
    sequence: int,
    kind: string,
    metadata: Value,
    prevHash: string,
    entryHash: string,
    contentHash: string,
    ciphertext: string)

  /** Python's `metadata or {}`: every falsy value counts as the empty object. */
  function OrEmpty(v: Value): Value {
    if v == Null || v == Bool(false) || v == Int(0) || v == Str("") || v == Arr(Nil) then Obj(End) else v
  }

  /** One more member in front of an object that lacks its key. */
  lemma {:induction false} MemberAdded(key: string, value: Value, fields: Fields)
    requires DistinctKeysFields(fields) && !HasKey(fields, key)
    ensures DistinctKeysFields(Field(key, value, fields))
    ensures FieldMeanings(Field(key, value, fields)) == FieldMeanings(fields)[key := MeaningOf(value)]
    ensures forall k :: HasKey(Field(key, value, fields), k) <==> k == key || HasKey(fields, k)
  {
  }

  lemma {:induction false} FourMembers(a: string, b: string, c: string, d: string, v: Value, w: Value,
                                       x: Value, y: Value)
    requires a != b && a != c && a != d && b != c && b != d && c != d
    ensures var f := Field(a, v, Field(b, w, Field(c, x, Field(d, y, End))));
      && DistinctKeysFields(f)
      && FieldMeanings(f) == map[a := MeaningOf(v), b := MeaningOf(w), c := MeaningOf(x), d := MeaningOf(y)]
  {
    assert !HasKey(End, d);
    MemberAdded(d, y, End);
    MemberAdded(c, x, Field(d, y, End));
    MemberAdded(b, w, Field(c, x, Field(d, y, End)));
    MemberAdded(a, v, Field(b, w, Field(c, x, Field(d, y, End))));
  }

  lemma {:induction false} EntryMembers(campaign: string, sequence: int, kind: string, payload: Value)
    ensures var f := Field("campaign", Str(campaign), Field("sequence", Int(sequence), Field("kind", Str(kind), Field("payload", payload, End))));
      && DistinctKeysFields(f)
      && FieldMeanings(f) == map["campaign" := MStr(campaign), "sequence" := MInt(sequence),
                                 "kind" := MStr(kind), "payload" := MeaningOf(payload)]
  {
    var c, s, k, p := "campaign", "sequence", "kind", "payload";
    assert c[0] == 'c' && s[0] == 's' && k[0] == 'k' && p[0] == 'p';
    FourMembers(c, s, k, p, Str(campaign), Int(sequence), Str(kind), payload);
  }

  function Entry(campaign: string, sequence: int, kind: string, payload: Value): (v: Value)
    ensures MeaningOf(v) == MObj(map["campaign" := MStr(campaign), "sequence" := MInt(sequence),
                                     "kind" := MStr(kind), "payload" := MeaningOf(payload)])
  {
    EntryMembers(campaign, sequence, kind, payload);
    Obj(Field("campaign", Str(campaign), Field("sequence", Int(sequence), Field("kind", Str(kind), Field("payload", payload, End)))))
  }

  function EntryHash(sha: Digest, prevHash: string, entry: Value): string {
    sha(PreImage(prevHash, Canonical(entry)))
  }

  /** The entry that `verify_chain` rebuilds from a stored row. */
  function EntryOf(campaign: string, e: Evidence): Value {
    Entry(campaign, e.sequence, e.kind, OrEmpty(e.metadata))
  }

  function LinkOf(campaign: string, e: Evidence): Link {
    Link(e.prevHash, Canonical(EntryOf(campaign, e)), e.entryHash)
  }

  function LinksOf(campaign: string, rows: seq<Evidence>): (links: seq<Link>)
    ensures |links| == |rows|
    ensures forall k | 0 <= k < |rows| :: links[k] == LinkOf(campaign, rows[k])
  {
    if rows == [] then [] else LinksOf(campaign, rows[..|rows| - 1]) + [LinkOf(campaign, rows[|rows| - 1])]
  }

  lemma {:induction false} LinksOfPrefix(campaign: string, rows: seq<Evidence>, n: nat)
    requires n <= |rows|
    ensures LinksOf(campaign, rows[..n]) == LinksOf(campaign, rows)[..n]
  {
  }

  ghost predicate Verifies(sha: Digest, campaign: string, rows: seq<Evidence>) {
    Chained(sha, LinksOf(campaign, rows))
  }

  /** What `append` alone produces: a valid chain numbered from zero. */
  ghost predicate Built(sha: Digest, campaign: string, rows: seq<Evidence>) {
    && Verifies(sha, campaign, rows)
    && forall k | 0 <= k < |rows| :: rows[k].sequence == k
  }

  function NextSequence(rows: seq<Evidence>): int {
    if rows == [] then 0 else rows[|rows| - 1].sequence + 1
  }

  function LastHash(rows: seq<Evidence>): string {
    if rows == [] then "" else rows[|rows| - 1].entryHash
  }

  function NewEvidence(sha: Digest, campaign: string, sequence: int, prevHash: string, kind: string,
                       payload: Value, ciphertext: string): Evidence {
    Evidence(sequence, kind, payload, prevHash,
             EntryHash(sha, prevHash, Entry(campaign, sequence, kind, payload)),
             sha(Canonical(payload)), ciphertext)
  }

  /** What it takes for row k to be sound, on the stored fields. */
  lemma {:induction false} RowIsSound(sha: Digest, campaign: string, rows: seq<Evidence>, k: nat, prevHash: string)
    requires k < |rows| && prevHash == (if k == 0 then "" else rows[k - 1].entryHash)
    ensures Sound(sha, LinksOf(campaign, rows), k)
      <==> rows[k].prevHash == prevHash && rows[k].entryHash == EntryHash(sha, prevHash, EntryOf(campaign, rows[k]))
  {
  }

  /** The chain after one more entry. */
  function Appended(sha: Digest, campaign: string, rows: seq<Evidence>, kind: string,
                    payload: Value, ciphertext: string): seq<Evidence> {
    rows + [NewEvidence(sha, campaign, NextSequence(rows), LastHash(rows), kind, payload, ciphertext)]
  }

  datatype Report = Report(valid: bool, length: nat, brokenAt: Option<int>)

  /** The evidence table of one campaign. */
  class Receipts {
    const sha: Digest
    const campaign: string
    var rows: seq<Evidence>

    constructor (sha: Digest, campaign: string)
      ensures this.sha == sha && this.campaign == campaign && rows == []
    {
      this.sha := sha;
      this.campaign := campaign;
      this.rows := [];
    }

    method Append(kind: string, payload: Option<Value>, ciphertext: string)
      modifies this
      ensures rows == Appended(sha, campaign, old(rows), kind,
                               OrEmpty(if payload.Some? then payload.value else Null), ciphertext)
      ensures |rows| == |old(rows)| + 1 && rows[..|old(rows)|] == old(rows)
      ensures var e := rows[|old(rows)|];
        && e.sequence == (if old(rows) == [] then 0 else old(rows)[|old(rows)| - 1].sequence + 1)
        && e.prevHash == (if old(rows) == [] then "" else old(rows)[|old(rows)| - 1].entryHash)
        && e.kind == kind && e.ciphertext == ciphertext && e.contentHash == sha(Canonical(e.metadata))
        && e.metadata == (if payload.None? || payload.value in {Null, Bool(false), Int(0), Str(""), Arr(Nil)}
                          then Obj(End) else payload.value)
    {
      var content: Value := OrEmpty(if payload.Some? then payload.value else Null);
      var sequence, prevHash := 0, "";
      if |rows| > 0 {
        var last := rows[|rows| - 1];
        sequence, prevHash := last.sequence + 1, last.entryHash;
      }
      rows := rows + [NewEvidence(sha, campaign, sequence, prevHash, kind, content, ciphertext)];
    }

    method VerifyChain() returns (report: Report)
      ensures ValidLength(sha, LinksOf(campaign, rows), report.length)
      ensures report.valid <==> Verifies(sha, campaign, rows)
      ensures report.valid ==> report.length == |rows| && report.brokenAt == None
      ensures !report.valid ==> report.length < |rows| && report.brokenAt == Some(rows[report.length].sequence)
    {
      ghost var links := LinksOf(campaign, rows);
      var prevHash := "";
      var count := 0;
      while count < |rows|
        invariant count <= |rows| && prevHash == (if count == 0 then "" else rows[count - 1].entryHash)
        invariant SoundUpTo(sha, links, count)
      {
        RowIsSound(sha, campaign, rows, count, prevHash);
        var evidence := rows[count];
        var expected := EntryHash(sha, prevHash, EntryOf(campaign, evidence));
        if expected != evidence.entryHash || evidence.prevHash != prevHash {
          ValidLengthIsUnique(sha, links, count, count);
          return Report(false, count, Some(evidence.sequence));
        }
        OneMoreSound(sha, links, count);
        prevHash := evidence.entryHash;
        count := count + 1;
      }
      report := Report(true, count, None);
    }
  }

  // ------------------------------------------------------------- appending

  /** An appended ledger verifies exactly when the ledger before it did, and
      numbering from zero goes on. */
  lemma {:induction false} AppendExtends(sha: Digest, campaign: string, rows: seq<Evidence>, kind: string,
                                         payload: Value, ciphertext: string)
    requires OrEmpty(payload) == payload
    ensures var r := Appended(sha, campaign, rows, kind, payload, ciphertext);
      && (Verifies(sha, campaign, r) <==> Verifies(sha, campaign, rows))
      && (Built(sha, campaign, rows) ==> Built(sha, campaign, r))
  {
    var r := Appended(sha, campaign, rows, kind, payload, ciphertext);
    assert r[..|rows|] == rows;
    LinksOfPrefix(campaign, r, |rows|);
    if Verifies(sha, campaign, r) {
      PrefixChained(sha, LinksOf(campaign, r), |rows|);
    }
    if Verifies(sha, campaign, rows) {
      ChainExtends(sha, LinksOf(campaign, rows), LinkOf(campaign, r[|rows|]));
    }
  }

  // ------------------------------------------------------------- entries

  /** The fields of a row that its entry hash covers. */
  ghost predicate SameEntry(a: Evidence, b: Evidence) {
    && a.sequence == b.sequence
    && a.kind == b.kind
    && MeaningOf(OrEmpty(a.metadata)) == MeaningOf(OrEmpty(b.metadata))
  }

  lemma {:induction false} EntriesAgree(c: string, d: string, a: Evidence, b: Evidence)
    ensures Canonical(EntryOf(c, a)) == Canonical(EntryOf(d, b)) <==> c == d && SameEntry(a, b)
  {
    CanonicalIsMeaning(EntryOf(c, a), EntryOf(d, b));
    var f, g := MeaningOf(EntryOf(c, a)).fields, MeaningOf(EntryOf(d, b)).fields;
    if f == g {
      assert f["campaign"] == MStr(c) && g["campaign"] == MStr(d);
      assert f["sequence"] == MInt(a.sequence) && g["sequence"] == MInt(b.sequence);
      assert f["kind"] == MStr(a.kind) && g["kind"] == MStr(b.kind);
      assert f["payload"] == g["payload"];
    }
  }

  // ------------------------------------------------------------- binding

  ghost predicate Agree(a: seq<Evidence>, b: seq<Evidence>) {
    && |a| == |b|
    && forall k | 0 <= k < |a| ::
         SameEntry(a[k], b[k]) && a[k].prevHash == b[k].prevHash && a[k].entryHash == b[k].entryHash
  }

  /** Rows j of one ledger and k of another are a hash collision. */
  ghost predicate RowsCollide(sha: Digest, c: string, a: seq<Evidence>, d: string, b: seq<Evidence>, j: nat, k: nat) {
    j < |a| && k < |b| && Collides(sha, TextOf(LinkOf(c, a[j])), TextOf(LinkOf(d, b[k])))
  }

  /** The last entry hash binds the campaign and the whole ledger: two valid
      ledgers that end in one hash agree everywhere, or two of their own
      pre-images collide. */
  lemma {:induction false} LedgerBinds(sha: Digest, c: string, a: seq<Evidence>, d: string, b: seq<Evidence>)
    requires a != [] && b != []
    requires Verifies(sha, c, a) && Verifies(sha, d, b)
    requires LastHash(a) == LastHash(b)
    ensures (c == d && Agree(a, b)) || exists j, k :: RowsCollide(sha, c, a, d, b, j, k)
  {
    var x, y := LinksOf(c, a), LinksOf(d, b);
    LastHashBinds(sha, x, y, |x|, |y|);
    if j, k :| CollideAt(sha, x, y, j, k) {
      assert RowsCollide(sha, c, a, d, b, j, k);
    } else {
      assert x == x[..|x|] && y == y[..|y|];
      EqualLinksAgree(c, a, d, b);
    }
  }

  lemma {:induction false} EqualLinksAgree(c: string, a: seq<Evidence>, d: string, b: seq<Evidence>)
    requires LinksOf(c, a) == LinksOf(d, b)
    ensures Agree(a, b) && (a != [] ==> c == d)
  {
    assert |a| == |LinksOf(c, a)| == |b|;
    forall k | 0 <= k < |a|
      ensures SameEntry(a[k], b[k]) && a[k].prevHash == b[k].prevHash && a[k].entryHash == b[k].entryHash && c == d
    {
      assert LinkOf(c, a[k]) == LinksOf(c, a)[k] == LinkOf(d, b[k]);
      EntriesAgree(c, d, a[k], b[k]);
    }
  }

  // ------------------------------------------------------------- tampering

  /** A row rewritten in place, keeping both stored hashes. */
  function Tampered(rows: seq<Evidence>, k: nat, sequence: int, kind: string, metadata: Value): (r: seq<Evidence>)
    requires k < |rows|
    ensures |r| == |rows|
  {
    rows[k := rows[k].(sequence := sequence, kind := kind, metadata := metadata)]
  }

  /** Rewriting the covered fields of one row of a valid chain goes unnoticed
      exactly when the row still denotes the same entry; otherwise the report
      stops at that very row, unless the old and new pre-images collide. */
  lemma {:induction false} TamperingIsReported(sha: Digest, campaign: string, rows: seq<Evidence>, k: nat,
                                               sequence: int, kind: string, metadata: Value)
    requires Verifies(sha, campaign, rows) && k < |rows|
    ensures var t := Tampered(rows, k, sequence, kind, metadata);
      if SameEntry(rows[k], t[k])
      then Verifies(sha, campaign, t)
      else || ValidLength(sha, LinksOf(campaign, t), k)
           || Collides(sha, TextOf(LinkOf(campaign, rows[k])), TextOf(LinkOf(campaign, t[k])))
  {
    var t := Tampered(rows, k, sequence, kind, metadata);
    EntriesAgree(campaign, campaign, rows[k], t[k]);
    var links := LinksOf(campaign, rows);
    var content := Canonical(EntryOf(campaign, t[k]));
    ReplacedContent(sha, links, k, content);
    assert LinksOf(campaign, t) == links[k := links[k].(content := content)];
    if content != links[k].content {
      DifferentContents(links[k].prevHash, links[k].content, content);
    }
  }

  lemma {:induction false} DifferentContents(prevHash: string, x: string, y: string)
    requires x != y
    ensures PreImage(prevHash, x) != PreImage(prevHash, y)
  {
    assert PreImage(prevHash, x)[|prevHash| + 1..] == x;
    assert PreImage(prevHash, y)[|prevHash| + 1..] == y;
  }

  /** The chain covers neither the ciphertext nor the content hash. */
  lemma {:induction false} CiphertextIsNotCovered(sha: Digest, campaign: string, rows: seq<Evidence>, k: nat,
                                                  ciphertext: string, contentHash: string)
    requires k < |rows|
    ensures Verifies(sha, campaign, rows[k := rows[k].(ciphertext := ciphertext, contentHash := contentHash)])
      <==> Verifies(sha, campaign, rows)
  {
    var t := rows[k := rows[k].(ciphertext := ciphertext, contentHash := contentHash)];
    assert LinksOf(campaign, t) == LinksOf(campaign, rows);
  }

  // ------------------------------------------------------------- recomputed hashes

  function RehashedRow(sha: Digest, campaign: string, prevHash: string, e: Evidence): Evidence {
    e.(prevHash := prevHash, entryHash := EntryHash(sha, prevHash, EntryOf(campaign, e)))
  }

  /** The rows with both chain hashes computed afresh from their contents, as
      anyone can: the chain holds no key. */
  function Rehashed(sha: Digest, campaign: string, rows: seq<Evidence>): (r: seq<Evidence>)
    ensures |r| == |rows|
  {
    if rows == [] then []
    else
      var n := |rows| - 1;
      var r := Rehashed(sha, campaign, rows[..n]);
      r + [RehashedRow(sha, campaign, LastHash(r), rows[n])]
  }

  /** Rows with the same contents, whatever their chain hashes. */
  ghost predicate SameContents(a: seq<Evidence>, b: seq<Evidence>) {
    |a| == |b| && forall k | 0 <= k < |a| :: b[k] == a[k].(prevHash := b[k].prevHash, entryHash := b[k].entryHash)
  }

  lemma {:induction false} RehashingKeepsContents(sha: Digest, campaign: string, rows: seq<Evidence>)
    ensures SameContents(rows, Rehashed(sha, campaign, rows))
  {
    if rows != [] {
      RehashingKeepsContents(sha, campaign, rows[..|rows| - 1]);
    }
  }

  lemma {:induction false} ExtendedVerifies(sha: Digest, campaign: string, rows: seq<Evidence>, e: Evidence)
    ensures Verifies(sha, campaign, rows + [e])
      <==> Verifies(sha, campaign, rows) && e == RehashedRow(sha, campaign, LastHash(rows), e)
  {
    var r, n := rows + [e], |rows|;
    assert r[..n] == rows;
    LinksOfPrefix(campaign, r, n);
    RowIsSound(sha, campaign, r, n, LastHash(rows));
    if Verifies(sha, campaign, r) {
      PrefixChained(sha, LinksOf(campaign, r), n);
      assert Sound(sha, LinksOf(campaign, r), n);
    }
    if Verifies(sha, campaign, rows) && Sound(sha, LinksOf(campaign, r), n) {
      ChainExtends(sha, LinksOf(campaign, rows), LinkOf(campaign, e));
    }
  }

  lemma {:induction false} RehashedTwice(sha: Digest, campaign: string, prevHash: string, e: Evidence)
    ensures var r := RehashedRow(sha, campaign, prevHash, e);
      RehashedRow(sha, campaign, prevHash, r) == r
  {
  }

  lemma {:induction false} RehashedLast(sha: Digest, campaign: string, rows: seq<Evidence>, e: Evidence)
    ensures Rehashed(sha, campaign, rows + [e])
      == Rehashed(sha, campaign, rows) + [RehashedRow(sha, campaign, LastHash(Rehashed(sha, campaign, rows)), e)]
  {
    assert (rows + [e])[..|rows|] == rows;
  }

  lemma {:induction false} LastAgree<T>(a: seq<T>, b: seq<T>, x: T, y: T)
    ensures a + [x] == b + [y] <==> a == b && x == y
  {
    if a + [x] == b + [y] {
      assert |a + [x]| == |b + [y]|;
      SplitConcat(a, [x]);
      SplitConcat(b, [y]);
      assert [x][0] == [y][0];
    }
  }

  /** Exactly what a replay accepts: any contents at all, as long as the chain
      hashes are the ones computed from them. */
  lemma {:induction false} VerifiesExactlyRehashed(sha: Digest, campaign: string, rows: seq<Evidence>)
    ensures Verifies(sha, campaign, Rehashed(sha, campaign, rows))
    ensures Verifies(sha, campaign, rows) <==> rows == Rehashed(sha, campaign, rows)
  {
    if rows != [] {
      PrefixEnds(rows, |rows|);
      assert rows[..|rows|] == rows;
      VerifiesExactlyRehashed(sha, campaign, rows[..|rows| - 1]);
      RehashedExtends(sha, campaign, rows[..|rows| - 1], rows[|rows| - 1]);
    }
  }

  lemma {:induction false} RehashedExtends(sha: Digest, campaign: string, init: seq<Evidence>, last: Evidence)
    requires Verifies(sha, campaign, Rehashed(sha, campaign, init))
    requires Verifies(sha, campaign, init) <==> init == Rehashed(sha, campaign, init)
    ensures var rows := init + [last];
      && Verifies(sha, campaign, Rehashed(sha, campaign, rows))
      && (Verifies(sha, campaign, rows) <==> rows == Rehashed(sha, campaign, rows))
  {
    var r := Rehashed(sha, campaign, init);
    var e := RehashedRow(sha, campaign, LastHash(r), last);
    RehashedLast(sha, campaign, init, last);
    RehashedTwice(sha, campaign, LastHash(r), last);
    ExtendedVerifies(sha, campaign, r, e);
    ExtendedVerifies(sha, campaign, init, last);
    LastAgree(init, r, last, e);
  }

  lemma {:induction false} RehashedPrefix(sha: Digest, campaign: string, rows: seq<Evidence>, k: nat)
    requires k <= |rows|
    ensures Rehashed(sha, campaign, rows)[..k] == Rehashed(sha, campaign, rows[..k])
  {
    if k == |rows| {
      assert rows[..k] == rows && Rehashed(sha, campaign, rows)[..k] == Rehashed(sha, campaign, rows);
    } else {
      var init, last := rows[..|rows| - 1], rows[|rows| - 1];
      assert rows == init + [last] && init[..k] == rows[..k];
      RehashedPrefix(sha, campaign, init, k);
      RehashedLast(sha, campaign, init, last);
    }
  }

  lemma {:induction false} SameEntryOfContents(sha: Digest, campaign: string, rows: seq<Evidence>, u: seq<Evidence>, i: nat)
    requires |u| == |rows| && i < |rows| && u[i] == rows[i]
    ensures SameEntry(Rehashed(sha, campaign, u)[i], rows[i])
  {
    RehashingKeepsContents(sha, campaign, u);
  }

  /** Any row of a verifying ledger can be rewritten to anything: with the
      hashes from there on recomputed the ledger verifies, and the rows before
      it are the very same. */
  lemma {:induction false} RewritingPasses(sha: Digest, campaign: string, rows: seq<Evidence>, k: nat,
                                           sequence: int, kind: string, metadata: Value)
    requires Verifies(sha, campaign, rows) && k < |rows|
    ensures var t := Rehashed(sha, campaign, Tampered(rows, k, sequence, kind, metadata));
      && Verifies(sha, campaign, t) && |t| == |rows| && t[..k] == rows[..k]
      && t[k].sequence == sequence && t[k].kind == kind && t[k].metadata == metadata
      && (kind != rows[k].kind ==> !SameEntry(t[k], rows[k]))
      && forall i | k < i < |rows| :: SameEntry(t[i], rows[i])
  {
    var u := Tampered(rows, k, sequence, kind, metadata);
    VerifiesExactlyRehashed(sha, campaign, u);
    RehashingKeepsContents(sha, campaign, u);
    forall i | k < i < |rows| ensures SameEntry(Rehashed(sha, campaign, u)[i], rows[i]) {
      SameEntryOfContents(sha, campaign, rows, u, i);
    }
    SameRowsBefore(sha, campaign, rows, u, k);
  }

  lemma {:induction false} SameRowsBefore(sha: Digest, campaign: string, rows: seq<Evidence>, u: seq<Evidence>, k: nat)
    requires Verifies(sha, campaign, rows) && k <= |rows| == |u| && u[..k] == rows[..k]
    ensures Rehashed(sha, campaign, u)[..k] == rows[..k]
  {
    VerifiesExactlyRehashed(sha, campaign, rows);
    RehashedPrefix(sha, campaign, u, k);
    RehashedPrefix(sha, campaign, rows, k);
  }

  /** The same entries, whatever the chain hashes. */
  ghost predicate Unaltered(a: seq<Evidence>, b: seq<Evidence>) {
    |a| == |b| && forall k | 0 <= k < |a| :: SameEntry(a[k], b[k])
  }

  /** Whether a receipt was altered shows exactly when its last hash is known
      from elsewhere: whatever is presented in place of a verifying ledger
      verifies and ends in that hash exactly when it agrees row by row, or two
      of the pre-images collide. Without that hash only the recomputation of
      the chain hashes shows. */
  lemma {:induction false} AlterationShowsInLastHash(sha: Digest, campaign: string, rows: seq<Evidence>, t: seq<Evidence>)
    requires rows != [] && t != [] && Verifies(sha, campaign, rows)
    ensures || (Verifies(sha, campaign, t) && LastHash(t) == LastHash(rows) <==> Agree(rows, t))
            || exists j, k :: RowsCollide(sha, campaign, rows, campaign, t, j, k)
    ensures !Unaltered(rows, t) ==>
      && (Verifies(sha, campaign, t) <==> t == Rehashed(sha, campaign, t))
      && (Verifies(sha, campaign, t) ==>
            LastHash(t) != LastHash(rows) || exists j, k :: RowsCollide(sha, campaign, rows, campaign, t, j, k))
  {
    VerifiesExactlyRehashed(sha, campaign, t);
    if Verifies(sha, campaign, t) && LastHash(t) == LastHash(rows) {
      LedgerBinds(sha, campaign, rows, campaign, t);
    }
    if Agree(rows, t) {
      AgreeingVerifies(sha, campaign, rows, t);
    }
  }

  lemma {:induction false} AgreeingVerifies(sha: Digest, campaign: string, rows: seq<Evidence>, t: seq<Evidence>)
    requires Agree(rows, t) && Verifies(sha, campaign, rows)
    ensures Verifies(sha, campaign, t) && LastHash(t) == LastHash(rows)
  {
    forall k | 0 <= k < |rows| ensures LinkOf(campaign, rows[k]) == LinkOf(campaign, t[k]) {
      EntriesAgree(campaign, campaign, rows[k], t[k]);
    }
    assert LinksOf(campaign, t) == LinksOf(campaign, rows);
  }

  /** Rows picked from a ledger, in any order and with any repetition. */
  ghost predicate PickedRows(rows: seq<Evidence>, picks: seq<nat>, sub: seq<Evidence>) {
    && |sub| == |picks|
    && forall k | 0 <= k < |picks| :: picks[k] < |rows| && sub[k] == rows[picks[k]]
  }

  /** Nothing can be dropped from the middle, reordered or repeated: whatever
      rows of a verifying ledger are put together, they verify exactly when
      they are a prefix of it, unless two of its own pre-images collide. */
  lemma {:induction false} OnlyPrefixesVerify(sha: Digest, campaign: string, rows: seq<Evidence>,
                                              picks: seq<nat>, sub: seq<Evidence>)
    requires Verifies(sha, campaign, rows) && PickedRows(rows, picks, sub)
    ensures |sub| <= |rows| && sub == rows[..|sub|] ==> Verifies(sha, campaign, sub)
    ensures Verifies(sha, campaign, sub) ==>
      || (|sub| <= |rows| && Agree(sub, rows[..|sub|]))
      || exists j, k :: RowsCollide(sha, campaign, rows, campaign, rows, j, k)
  {
    var x, y := LinksOf(campaign, rows), LinksOf(campaign, sub);
    if |sub| <= |rows| && sub == rows[..|sub|] {
      PrefixChained(sha, x, |sub|);
      LinksOfPrefix(campaign, rows, |sub|);
    }
    if Verifies(sha, campaign, sub) {
      forall k | 0 <= k < |picks| ensures y[k] == x[picks[k]] {
      }
      OnlyPrefixesChain(sha, x, picks, y);
      if j, k :| CollideAt(sha, x, x, j, k) {
        assert RowsCollide(sha, campaign, rows, campaign, rows, j, k);
      } else {
        LinksOfPrefix(campaign, rows, |sub|);
        EqualLinksAgree(campaign, sub, campaign, rows[..|sub|]);
      }
    }
  }
}
