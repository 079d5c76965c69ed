/** Identifier normalization and blind indexes (core/crypto.py). */
module Identifiers {
  import opened Prelude
  import opened Strings

  function NormalizeEmail(value: string): string {
    Lower(Strip(value))
  }

  function NormalizePhone(value: string): string {
    var digits := Digits(value);
    if digits != [] then ['+'] + digits else []
  }

  function NormalizeName(value: string): string {
    Collapse(Lower(Strip(value)))
  }

  function NormalizeIdentifier(kind: string, value: string): string {
    var k := Lower(kind);
    if k == "email" then NormalizeEmail(value)
    else if k == "phone" then NormalizePhone(value)
    else if k == "full_name" || k == "name" || k == "username" then NormalizeName(value)
    else Lower(Strip(value))
  }

  function IndexMessage(kind: string, normalized: string): string {
    kind + ([':'] + normalized)
  }

  /** The keyed digest of a normalized identifier; empty for a blank one. */
  function BlindIndex(mac: Digest, kind: string, value: string): string {
    var normalized := NormalizeIdentifier(kind, value);
    if normalized == [] then [] else mac(IndexMessage(kind, normalized))
  }

  lemma {:induction false} DigitsOnly(s: string)
    ensures forall i | 0 <= i < |Digits(s)| :: IsDigit(Digits(s)[i])
  {
    if s != [] {
      DigitsOnly(s[1..]);
    }
  }

  lemma {:induction false} DigitsKept(s: string)
    requires forall i | 0 <= i < |s| :: IsDigit(s[i])
    ensures Digits(s) == s
  {
    if s != [] {
      DigitsKept(s[1..]);
    }
  }

  lemma {:induction false} PlusIsNoDigit(s: string)
    ensures Digits(['+'] + s) == Digits(s)
  {
    assert (['+'] + s)[1..] == s;
  }

  lemma {:induction false} PhoneIsStable(value: string)
    ensures NormalizePhone(NormalizePhone(value)) == NormalizePhone(value)
    ensures Digits(NormalizePhone(value)) == Digits(value)
  {
    DigitsOnly(value);
    DigitsKept(Digits(value));
    PlusIsNoDigit(Digits(value));
  }

  lemma {:induction false} EmailIsStable(value: string)
    ensures NormalizeEmail(NormalizeEmail(value)) == NormalizeEmail(value)
  {
    var _, _ := StripSplits(value);
    LowerKeepsTrimmed(Strip(value));
    TrimmedIsStripped(NormalizeEmail(value));
    LowerIsStable(NormalizeEmail(value));
  }

  lemma {:induction false} NameIsStable(value: string)
    ensures NormalizeName(NormalizeName(value)) == NormalizeName(value)
  {
    var _, _ := StripSplits(value);
    var low := Lower(Strip(value));
    LowerKeepsTrimmed(Strip(value));
    CollapseKeepsTrimmed(low);
    CollapseSpaces(low, false);
    var name := Collapse(low);
    TrimmedIsStripped(name);
    forall i | 0 <= i < |name| ensures LowerChar(name[i]) == name[i] {
      assert name[i] == ' ' || name[i] in low;
    }
    LowerIsStable(name);
    SingleSpacedIsCollapsed(name, false);
  }

  /** Normalizing twice changes nothing, for every kind. */
  lemma {:induction false} NormalizationIsStable(kind: string, value: string)
    ensures NormalizeIdentifier(kind, NormalizeIdentifier(kind, value)) == NormalizeIdentifier(kind, value)
  {
    EmailIsStable(value);
    PhoneIsStable(value);
    NameIsStable(value);
  }

  /** What each kind keeps of a value: a phone its digits, a name its middle
      with single spaces, any other kind its middle as it stands; letters are
      lower-cased. */
  lemma {:induction false} NormalFormByKind(kind: string, value: string) returns (pre: string, core: string, post: string)
    ensures value == pre + core + post
    ensures forall c | c in pre || c in post :: c as int in {9, 10, 11, 12, 13, 28, 29, 30, 31, 32}
    ensures core != [] ==>
      && core[0] as int !in {9, 10, 11, 12, 13, 28, 29, 30, 31, 32}
      && core[|core| - 1] as int !in {9, 10, 11, 12, 13, 28, 29, 30, 31, 32}
    ensures NormalizeIdentifier(kind, value)
      == if Lower(kind) == "phone" then (if Digits(value) == "" then "" else "+" + Digits(value))
         else if Lower(kind) in {"full_name", "name", "username"} then Collapse(Lower(core))
         else Lower(core)
  {
    core := Strip(value);
    pre, post := StripSplits(value);
    KindsDiffer();
  }

  lemma {:induction false} KindsDiffer()
    ensures "phone" !in {"email", "full_name", "name", "username"} && "email" !in {"full_name", "name", "username"}
  {
    var e, f, n, p, u := "email", "full_name", "name", "phone", "username";
    assert e[0] == 'e' && f[0] == 'f' && n[0] == 'n' && p[0] == 'p' && u[0] == 'u';
  }

  lemma {:induction false} MessagesDiffer(kind: string, x: string, y: string)
    ensures IndexMessage(kind, x) == IndexMessage(kind, y) <==> x == y
  {
    assert IndexMessage(kind, x)[|kind| + 1..] == x;
    assert IndexMessage(kind, y)[|kind| + 1..] == y;
  }

  /** Two values of one kind share an index exactly when they normalize to the
      same text, unless their own messages collide. Indexing a value that is
      already normalized gives the same index. */
  lemma {:induction false} IndexIsNormalForm(mac: Digest, kind: string, v: string, w: string)
    ensures var x, y := NormalizeIdentifier(kind, v), NormalizeIdentifier(kind, w);
      || (BlindIndex(mac, kind, v) == BlindIndex(mac, kind, w) <==> x == y)
      || Collides(mac, IndexMessage(kind, x), IndexMessage(kind, y))
    ensures BlindIndex(mac, kind, NormalizeIdentifier(kind, v)) == BlindIndex(mac, kind, v)
  {
    NormalizationIsStable(kind, v);
    var x, y := NormalizeIdentifier(kind, v), NormalizeIdentifier(kind, w);
    MessagesDiffer(kind, x, y);
    var h, g: HexDigest := mac(IndexMessage(kind, x)), mac(IndexMessage(kind, y));
    assert h != [] && g != [];
  }

  /** Phone numbers share an index exactly when they have the same digits. */
  lemma {:induction false} PhonesShareIndex(mac: Digest, kind: string, v: string, w: string)
    requires Lower(kind) == "phone"
    ensures || (BlindIndex(mac, kind, v) == BlindIndex(mac, kind, w) <==> Digits(v) == Digits(w))
            || Collides(mac, IndexMessage(kind, NormalizePhone(v)), IndexMessage(kind, NormalizePhone(w)))
  {
    IndexIsNormalForm(mac, kind, v, w);
    PhoneIsStable(v);
    PhoneIsStable(w);
  }
}
