/** The canonical text spelled out: which characters `json.dumps` writes for a
    value, in which order, and what is hashed for a receipt. */
module CanonicalText {
  import opened Prelude
  import opened Json
  import HashChain
  import Ledger

  // ------------------------------------------------------------- key order

  predicate SmallerAt(s: string, t: string, d: nat) {
    d < |s| && d < |t| && s[..d] == t[..d] && s[d] < t[d]
  }

  /** A proper prefix, or the smaller character where the two first differ. */
  ghost predicate ComesFirst(s: string, t: string) {
    (|s| < |t| && t[..|s|] == s) || exists d: nat :: SmallerAt(s, t, d)
  }

  lemma {:induction false} OneLonger(c: char, s: string, t: string)
    ensures ComesFirst([c] + s, [c] + t) <==> ComesFirst(s, t)
  {
    var cs, ct := [c] + s, [c] + t;
    forall d: nat ensures SmallerAt(cs, ct, d + 1) <==> SmallerAt(s, t, d) {
      if d < |s| && d < |t| {
        assert cs[..d + 1] == [c] + s[..d] && ct[..d + 1] == [c] + t[..d];
        assert cs[..d + 1][1..] == s[..d] && ct[..d + 1][1..] == t[..d];
      }
    }
    if d: nat :| SmallerAt(cs, ct, d) {
      assert d > 0 ==> SmallerAt(s, t, d - 1);
    }
    if d: nat :| SmallerAt(s, t, d) {
      assert SmallerAt(cs, ct, d + 1);
    }
    if |s| < |t| {
      assert ct[..|cs|] == [c] + t[..|s|];
      assert ct[..|cs|][1..] == t[..|s|];
    }
  }

  lemma {:induction false} KeysCompare(s: string, t: string)
    ensures Before(s, t) <==> ComesFirst(s, t)
    decreases s
  {
    if s != [] && t != [] {
      if s[0] == t[0] {
        KeysCompare(s[1..], t[1..]);
        OneLonger(s[0], s[1..], t[1..]);
        assert s == [s[0]] + s[1..] && t == [t[0]] + t[1..];
      } else {
        assert SmallerAt(s, t, 0) <==> s[0] < t[0];
      }
    }
  }

  /** In every object inside the value each key comes before the next. */
  ghost predicate Ascending(v: Raw) {
    match v
    case Arr(items) => AscendingItems(items)
    case Obj(fields) => AscendingFields(fields)
    case _ => true
  }

  ghost predicate AscendingItems(i: Items) {
    i.Cons? ==> Ascending(i.head) && AscendingItems(i.tail)
  }

  ghost predicate AscendingFields(f: Fields) {
    f.Field? ==>
      && Ascending(f.value)
      && AscendingFields(f.rest)
      && (f.rest.Field? ==> ComesFirst(f.key, f.rest.key))
  }

  lemma {:induction false} NormalAscends(v: Raw)
    ensures Normal(v) <==> Ascending(v)
  {
    match v
    case Arr(items) => NormalItemsAscend(items);
    case Obj(fields) => NormalFieldsAscend(fields);
    case _ =>
  }

  lemma {:induction false} NormalItemsAscend(i: Items)
    ensures NormalItems(i) <==> AscendingItems(i)
  {
    if i.Cons? {
      NormalAscends(i.head);
      NormalItemsAscend(i.tail);
    }
  }

  lemma {:induction false} NormalFieldsAscend(f: Fields)
    ensures NormalFields(f) <==> AscendingFields(f)
  {
    if f.Field? {
      NormalAscends(f.value);
      NormalFieldsAscend(f.rest);
      if f.rest.Field? {
        KeysCompare(f.key, f.rest.key);
      }
    }
  }

  /** The canonical text of a value is the text of the one value that denotes
      the same and has the keys of every object in ascending order. */
  lemma {:induction false} CanonicalAscends(v: Value, w: Raw)
    ensures exists u :: Ascending(u) && MeaningOf(u) == MeaningOf(v) && Canonical(v) == Text(u)
    ensures Ascending(w) && MeaningOf(w) == MeaningOf(v) ==> Canonical(v) == Text(w)
  {
    NormalizeSorts(v);
    NormalAscends(Normalize(v));
    NormalAscends(w);
    if Ascending(w) && MeaningOf(w) == MeaningOf(v) {
      NormalIsUnique(w, Normalize(v));
    }
  }

  // ------------------------------------------------------------- characters

  /** `\uXXXX`, lower case, for a 16-bit unit. */
  predicate IsUnit(s: string, u: int) {
    && |s| == 6 && s[0] == '\\' && s[1] == 'u' && IsHex(s[2]) && IsHex(s[3]) && IsHex(s[4]) && IsHex(s[5])
    && u == 4096 * HexValue(s[2]) + 256 * HexValue(s[3]) + 16 * HexValue(s[4]) + HexValue(s[5])
  }

  lemma {:induction false} UnitText(u: int)
    requires 0 <= u < 0x1_0000
    ensures IsUnit(UnitEscape(u), u)
  {
    UnitReadsBack(u, []);
    assert UnitEscape(u) + [] == UnitEscape(u);
  }

  /** The seven short escapes. */
  lemma {:induction false} ShortEscapes()
    ensures Escape(['"']) == "\\\"" && Escape(['\\']) == "\\\\" && Escape(['\n']) == "\\n" && Escape(['\r']) == "\\r"
    ensures Escape(['\t']) == "\\t" && Escape([8 as char]) == "\\b" && Escape([12 as char]) == "\\f"
  {
    OneCharacter('"');
    OneCharacter('\\');
    OneCharacter('\n');
    OneCharacter('\r');
    OneCharacter('\t');
    OneCharacter(8 as char);
    OneCharacter(12 as char);
  }

  /** How the other characters are written: printable ASCII as itself, the rest
      of the basic plane as one unit, and any other character as the two
      surrogates that stand for it. */
  lemma {:induction false} CharacterText(c: char)
    ensures ' ' <= c <= '~' && c != '"' && c != '\\' ==> Escape([c]) == [c]
    ensures (c as int < 32 && c as int !in {8, 9, 10, 12, 13}) || 126 < c as int < 0x1_0000 ==> IsUnit(Escape([c]), c as int)
    ensures c as int >= 0x1_0000 ==> exists hi, lo :: IsPair(Escape([c]), hi, lo, c)
  {
    OneCharacter(c);
    if c as int >= 0x1_0000 {
      PairText(c);
    } else {
      UnitText(c as int);
    }
  }

  /** The escapes of the two surrogates that stand for a character. */
  predicate IsPair(s: string, hi: int, lo: int, c: char) {
    && |s| == 12 && IsUnit(s[..6], hi) && IsUnit(s[6..], lo)
    && 0xD800 <= hi < 0xDC00 && 0xDC00 <= lo < 0xE000
    && c as int == 0x1_0000 + (hi - 0xD800) * 0x400 + (lo - 0xDC00)
  }

  lemma {:induction false} PairText(c: char)
    requires c as int >= 0x1_0000
    ensures IsPair(EscapeChar(c), HighUnit(c), LowUnit(c), c)
  {
    UnitText(HighUnit(c));
    UnitText(LowUnit(c));
    EscapeIsPair(c);
    SplitConcat(UnitEscape(HighUnit(c)), UnitEscape(LowUnit(c)));
  }

  lemma {:induction false} EscapeIsPair(c: char)
    requires c as int >= 0x1_0000
    ensures EscapeChar(c) == UnitEscape(HighUnit(c)) + UnitEscape(LowUnit(c))
  {
    assert c > '~';
  }

  lemma {:induction false} OneCharacter(c: char)
    ensures Escape([c]) == EscapeChar(c)
  {
    assert [c][1..] == [] && EscapeChar(c) + [] == EscapeChar(c);
  }

  /** A string is its characters' texts between two quotes. */
  lemma {:induction false} StringText(s: string, t: string)
    ensures Quote(s) == "\"" + Escape(s) + "\""
    ensures Escape([]) == [] && Escape(s + t) == Escape(s) + Escape(t)
  {
    assert Quote(s) == ['"'] + Escape(s) + ['"'];
    EscapeConcat(s, t);
  }

  lemma {:induction false} EscapeConcat(s: string, t: string)
    ensures Escape(s + t) == Escape(s) + Escape(t)
  {
    if s == [] {
      assert s + t == t;
    } else {
      EscapeConcat(s[1..], t);
      TailOfConcat(s, t);
      Regroup(EscapeChar(s[0]), Escape(s[1..]), Escape(t));
    }
  }

  // ------------------------------------------------------------- layout

  /** Texts with a comma between each two. */
  function Separated(parts: seq<string>): string {
    if parts == [] then ""
    else if |parts| == 1 then parts[0]
    else parts[0] + "," + Separated(parts[1..])
  }

  function ItemTexts(i: Items): seq<string> {
    match i
    case Nil => []
    case Cons(head, tail) => [Text(head)] + ItemTexts(tail)
  }

  function MemberTexts(f: Fields): seq<string> {
    match f
    case End => []
    case Field(key, value, rest) => [Quote(key) + ":" + Text(value)] + MemberTexts(rest)
  }

  lemma {:induction false} ItemsLayout(i: Items)
    ensures ItemsText(i) == Separated(ItemTexts(i)) + "]"
  {
    if i.Cons? && i.tail.Cons? {
      ItemsLayout(i.tail);
      assert ItemTexts(i)[1..] == ItemTexts(i.tail);
      var head := Text(i.head);
      assert ItemsText(i) == head + ([','] + (Separated(ItemTexts(i.tail)) + "]"));
    }
  }

  lemma {:induction false} MembersLayout(f: Fields)
    ensures FieldsText(f) == Separated(MemberTexts(f)) + "}"
  {
    if f.Field? {
      assert MemberTexts(f)[1..] == MemberTexts(f.rest);
      MembersLayout(f.rest);
      MemberLayout(Quote(f.key), Text(f.value), if f.rest.End? then "}" else [','] + FieldsText(f.rest));
      if f.rest.Field? {
        Regroup(MemberTexts(f)[0], ",", Separated(MemberTexts(f.rest)));
        Regroup(MemberTexts(f)[0], "," + Separated(MemberTexts(f.rest)), "}");
        Regroup(",", Separated(MemberTexts(f.rest)), "}");
      }
    }
  }

  lemma {:induction false} MemberLayout(key: string, value: string, rest: string)
    ensures key + ([':'] + (value + rest)) == (key + ":" + value) + rest
  {
  }

  /** No blanks anywhere: commas between items and members, a colon after each key. */
  lemma {:induction false} ValueText(v: Raw)
    ensures v.Null? ==> Text(v) == "null"
    ensures v.Bool? ==> Text(v) == if v.b then "true" else "false"
    ensures v.Str? ==> Text(v) == Quote(v.s)
    ensures v.Arr? ==> Text(v) == "[" + Separated(ItemTexts(v.items)) + "]"
    ensures v.Obj? ==> Text(v) == "{" + Separated(MemberTexts(v.fields)) + "}"
  {
    if v.Arr? {
      ItemsLayout(v.items);
      Regroup("[", Separated(ItemTexts(v.items)), "]");
    }
    if v.Obj? {
      MembersLayout(v.fields);
      Regroup("{", Separated(MemberTexts(v.fields)), "}");
    }
  }

  /** Decimal digits that add up to the number, without a leading zero. */
  lemma {:induction false} IntegerText(n: int)
    ensures Text(Int(n)) == if n < 0 then "-" + NatText(-n) else NatText(n)
    ensures n >= 0 ==> NatValue(NatText(n)) == n && forall i | 0 <= i < |NatText(n)| :: IsDigit(NatText(n)[i])
    ensures n > 0 ==> NatText(n)[0] != '0'
    ensures n == 0 ==> NatText(n) == "0"
  {
    if n >= 0 {
      NatTextReadsBack(n);
      NoLeadingZero(n);
    }
  }

  lemma {:induction false} NoLeadingZero(n: nat)
    ensures n > 0 ==> NatText(n)[0] != '0'
    ensures n == 0 ==> NatText(n) == "0"
  {
    if n >= 10 {
      NoLeadingZero(n / 10);
    }
  }

  // ------------------------------------------------------------- receipts

  /** Printable ASCII that needs no escape. */
  predicate Unescaped(s: string) {
    forall i | 0 <= i < |s| :: ' ' <= s[i] <= '~' && s[i] != '"' && s[i] != '\\'
  }

  lemma {:induction false} UnescapedText(s: string)
    requires Unescaped(s)
    ensures Escape(s) == s
  {
    if s != [] {
      UnescapedText(s[1..]);
    }
  }

  /** A member, and what comes after it. */
  lemma {:induction false} MemberFirst(key: string, value: Raw, rest: Fields, mark: string)
    requires Unescaped(key) && mark == "\"" + key + "\":"
    ensures FieldsText(Field(key, value, rest)) == mark + (Text(value) + if rest.End? then "}" else "," + FieldsText(rest))
  {
    UnescapedText(key);
    assert Quote(key) + ([':'] + Text(value)) == mark + Text(value);
    MemberParts(Quote(key), Text(value), if rest.End? then "}" else "," + FieldsText(rest), mark);
  }

  lemma {:induction false} MemberParts(quoted: string, value: string, end: string, mark: string)
    requires mark == quoted + ":"
    ensures quoted + ([':'] + (value + end)) == mark + (value + end)
  {
  }

  lemma {:induction false} EntryMarks()
    ensures Unescaped("campaign") && "{" + ("\"" + "campaign" + "\":") == "{\"campaign\":"
    ensures Unescaped("kind") && "," + ("\"" + "kind" + "\":") == ",\"kind\":"
    ensures Unescaped("payload") && "," + ("\"" + "payload" + "\":") == ",\"payload\":"
    ensures Unescaped("sequence") && "," + ("\"" + "sequence" + "\":") == ",\"sequence\":"
  {
  }

  lemma {:induction false} MarkedMember(comma: string, mark: string, marked: string, rest: string)
    requires marked == comma + mark
    ensures comma + (mark + rest) == marked + rest
  {
  }

  lemma {:induction false} Flatten4(a: string, v: string, b: string, w: string, c: string, x: string, d: string, y: string, end: string)
    ensures a + (v + (b + (w + (c + (x + (d + (y + end))))))) == a + v + b + w + c + x + d + y + end
  {
    Flatten2(c, x, d, y, end);
    Flatten2(a, v, b, w, c + x + d + y + end);
    Flatten2(a + v + b + w, c, x, d, y + end);
    Regroup(a + v + b + w, c + x + d + y, end);
    Flatten2(a + v + b + w, c, x, d, y);
  }

  lemma {:induction false} Flatten2(a: string, v: string, b: string, w: string, end: string)
    ensures a + (v + (b + (w + end))) == a + v + b + w + end
    ensures a + (v + b + w + end) == a + v + b + w + end
  {
    Regroup(b, w, end);
    Regroup(v, b, w);
    Regroup(v, b + w, end);
    Regroup(a, v, b + w + end);
    Regroup(a + v, b, w + end);
    Regroup(a + v, b + w, end);
    Regroup(a + v, b, w);
    Regroup(a, v + b + w, end);
    Regroup(a, v + b, w);
    Regroup(a, v, b);
  }

  function Sorted(campaign: string, sequence: int, kind: string, payload: Raw): Raw {
    Obj(Field("campaign", Str(campaign), Field("kind", Str(kind), Field("payload", payload, Field("sequence", Int(sequence), End)))))
  }

  lemma {:induction false} SortedAscends(campaign: string, sequence: int, kind: string, payload: Raw)
    requires Ascending(payload)
    ensures Ascending(Sorted(campaign, sequence, kind, payload))
  {
    EntryKeys();
    FourAscend("campaign", "kind", "payload", "sequence", Str(campaign), Str(kind), payload, Int(sequence));
  }

  lemma {:induction false} EntryKeys()
    ensures "campaign"[0] == 'c' && "kind"[0] == 'k' && "payload"[0] == 'p' && "sequence"[0] == 's'
  {
  }

  lemma {:induction false} FourAscend(a: string, b: string, c: string, d: string, v: Raw, w: Raw, x: Raw, y: Raw)
    requires a != [] && b != [] && c != [] && d != [] && a[0] < b[0] < c[0] < d[0]
    requires Ascending(v) && Ascending(w) && Ascending(x) && Ascending(y)
    ensures Ascending(Obj(Field(a, v, Field(b, w, Field(c, x, Field(d, y, End))))))
  {
    assert SmallerAt(a, b, 0) && SmallerAt(b, c, 0) && SmallerAt(c, d, 0);
    assert AscendingFields(Field(d, y, End));
    assert AscendingFields(Field(c, x, Field(d, y, End)));
    assert AscendingFields(Field(b, w, Field(c, x, Field(d, y, End))));
  }

  lemma {:induction false} FourMeanings(a: string, b: string, c: string, d: string, v: Raw, w: Raw, x: Raw, y: Raw)
    ensures FieldMeanings(Field(a, v, Field(b, w, Field(c, x, Field(d, y, End)))))
      == map[][d := MeaningOf(y)][c := MeaningOf(x)][b := MeaningOf(w)][a := MeaningOf(v)]
  {
    assert FieldMeanings(Field(d, y, End)) == map[][d := MeaningOf(y)];
    assert FieldMeanings(Field(c, x, Field(d, y, End))) == map[][d := MeaningOf(y)][c := MeaningOf(x)];
  }

  lemma {:induction false} SortedMeaning(campaign: string, sequence: int, kind: string, payload: Raw)
    ensures MeaningOf(Sorted(campaign, sequence, kind, payload))
      == MObj(map["campaign" := MStr(campaign), "sequence" := MInt(sequence), "kind" := MStr(kind), "payload" := MeaningOf(payload)])
  {
    EntryKeys();
    FourMeanings("campaign", "kind", "payload", "sequence", Str(campaign), Str(kind), payload, Int(sequence));
    SameMap("campaign", "kind", "payload", "sequence", MStr(campaign), MStr(kind), MeaningOf(payload), MInt(sequence));
  }

  lemma {:induction false} SameMap(a: string, b: string, c: string, d: string, v: Meaning, w: Meaning, x: Meaning, y: Meaning)
    requires a != [] && b != [] && c != [] && d != [] && a[0] < b[0] < c[0] < d[0]
    ensures map[][d := y][c := x][b := w][a := v] == map[a := v, d := y, b := w, c := x]
  {
    assert a != b && a != c && a != d && b != c && b != d && c != d;
  }

  lemma {:induction false} SortedText(campaign: string, sequence: int, kind: string, payload: Raw)
    ensures Text(Sorted(campaign, sequence, kind, payload))
      == "{\"campaign\":" + Quote(campaign) + ",\"kind\":" + Quote(kind) + ",\"payload\":" + Text(payload)
         + ",\"sequence\":" + IntText(sequence) + "}"
  {
    EntryMarks();
    SortedPieces("campaign", Str(campaign), "kind", Str(kind), "payload", payload, "sequence", Int(sequence),
                 "{\"campaign\":", ",\"kind\":", ",\"payload\":", ",\"sequence\":");
  }

  lemma {:induction false} SortedPieces(a: string, v: Raw, b: string, w: Raw, c: string, x: Raw, d: string, y: Raw,
                                        aMark: string, bMark: string, cMark: string, dMark: string)
    requires Unescaped(a) && Unescaped(b) && Unescaped(c) && Unescaped(d)
    requires aMark == "{" + ("\"" + a + "\":") && bMark == "," + ("\"" + b + "\":")
    requires cMark == "," + ("\"" + c + "\":") && dMark == "," + ("\"" + d + "\":")
    ensures Text(Obj(Field(a, v, Field(b, w, Field(c, x, Field(d, y, End))))))
      == aMark + Text(v) + bMark + Text(w) + cMark + Text(x) + dMark + Text(y) + "}"
  {
    var h := Field(d, y, End);
    var g := Field(c, x, h);
    var f := Field(b, w, g);
    MemberFirst(d, y, End, "\"" + d + "\":");
    MemberFirst(c, x, h, "\"" + c + "\":");
    MemberFirst(b, w, g, "\"" + b + "\":");
    MemberFirst(a, v, f, "\"" + a + "\":");
    MarkedMember(",", "\"" + d + "\":", dMark, Text(y) + "}");
    MarkedMember(",", "\"" + c + "\":", cMark, Text(x) + ("," + FieldsText(h)));
    MarkedMember(",", "\"" + b + "\":", bMark, Text(w) + ("," + FieldsText(g)));
    MarkedMember("{", "\"" + a + "\":", aMark, Text(v) + ("," + FieldsText(f)));
    Flatten4(aMark, Text(v), bMark, Text(w), cMark, Text(x), dMark, Text(y), "}");
  }

  /** The text whose hash an entry carries, after the previous hash and a bar. */
  lemma {:induction false} EntryText(campaign: string, sequence: int, kind: string, payload: Value)
    ensures Canonical(Ledger.Entry(campaign, sequence, kind, payload))
      == "{\"campaign\":" + Quote(campaign) + ",\"kind\":" + Quote(kind) + ",\"payload\":" + Canonical(payload)
         + ",\"sequence\":" + IntText(sequence) + "}"
  {
    CanonicalAscends(payload, Null);
    var p: Raw :| Ascending(p) && MeaningOf(p) == MeaningOf(payload) && Canonical(payload) == Text(p);
    SortedAscends(campaign, sequence, kind, p);
    SortedMeaning(campaign, sequence, kind, p);
    CanonicalAscends(Ledger.Entry(campaign, sequence, kind, payload), Sorted(campaign, sequence, kind, p));
    SortedText(campaign, sequence, kind, p);
  }

  /** What is hashed as the payload of a row: its metadata, or the empty object
      for whatever Python counts as false. */
  function PayloadText(metadata: Value): string {
    if metadata in {Null, Bool(false), Int(0), Str(""), Arr(Nil)} then "{}" else Canonical(metadata)
  }

  /** Row k points at the row before it and carries the hash of this text. */
  predicate Hashed(sha: Digest, campaign: string, rows: seq<Ledger.Evidence>, k: nat)
    requires k < |rows|
  {
    var e, prevHash := rows[k], if k == 0 then "" else rows[k - 1].entryHash;
    && e.prevHash == prevHash
    && e.entryHash == sha(prevHash + "|" + "{\"campaign\":" + Quote(campaign) + ",\"kind\":" + Quote(e.kind)
                          + ",\"payload\":" + PayloadText(e.metadata) + ",\"sequence\":" + IntText(e.sequence) + "}")
  }

  lemma {:induction false} PayloadIsText(metadata: Value)
    ensures Canonical(Ledger.OrEmpty(metadata)) == PayloadText(metadata)
  {
    assert Canonical(Obj(End)) == "{}";
  }

  /** A ledger verifies exactly when every row is hashed so. */
  lemma {:induction false} VerifiesExactlyHashed(sha: Digest, campaign: string, rows: seq<Ledger.Evidence>)
    ensures Ledger.Verifies(sha, campaign, rows) <==> forall k | 0 <= k < |rows| :: Hashed(sha, campaign, rows, k)
  {
    forall k | 0 <= k < |rows|
      ensures HashChain.Sound(sha, Ledger.LinksOf(campaign, rows), k) <==> Hashed(sha, campaign, rows, k)
    {
      var e, prevHash := rows[k], if k == 0 then "" else rows[k - 1].entryHash;
      Ledger.RowIsSound(sha, campaign, rows, k, prevHash);
      EntryText(campaign, e.sequence, e.kind, Ledger.OrEmpty(e.metadata));
      PayloadIsText(e.metadata);
      HashedText(prevHash, Quote(campaign), Quote(e.kind), PayloadText(e.metadata), IntText(e.sequence));
    }
  }

  lemma {:induction false} HashedText(prevHash: string, c: string, k: string, p: string, n: string)
    ensures HashChain.PreImage(prevHash, "{\"campaign\":" + c + ",\"kind\":" + k + ",\"payload\":" + p + ",\"sequence\":" + n + "}")
      == prevHash + "|" + "{\"campaign\":" + c + ",\"kind\":" + k + ",\"payload\":" + p + ",\"sequence\":" + n + "}"
  {
    Prefixed(prevHash + "|", "{\"campaign\":", c, ",\"kind\":", k, ",\"payload\":", p, ",\"sequence\":", n, "}");
  }

  lemma {:induction false} Prefixed(x: string, a: string, v: string, b: string, w: string, c: string, y: string,
                                    d: string, z: string, end: string)
    ensures x + (a + v + b + w + c + y + d + z + end) == x + a + v + b + w + c + y + d + z + end
  {
    Regroup(x, a + v + b + w + c + y + d + z, end);
    Regroup(x, a + v + b + w + c + y + d, z);
    Regroup(x, a + v + b + w + c + y, d);
    Regroup(x, a + v + b + w + c, y);
    Regroup(x, a + v + b + w, c);
    Regroup(x, a + v + b, w);
    Regroup(x, a + v, b);
    Regroup(x, a, v);
  }
}
