/** Small shared vocabulary: optional values and digest functions. */
module Prelude {

  datatype Option<+T> = None | Some(value: T)

  predicate IsDigit(c: char) {
    '0' <= c <= '9'
  }

  /** The text holds no separator. */
  predicate NoBar(s: string) {
    forall i | 0 <= i < |s| :: s[i] != '|'
  }

  predicate IsHex(c: char) {
    '0' <= c <= '9' || 'a' <= c <= 'f'
  }

  predicate IsHexDigest(h: string) {
    |h| == 64 && forall i | 0 <= i < |h| :: IsHex(h[i])
  }

  type HexDigest = h: string | IsHexDigest(h) witness seq(64, _ => '0')

  /** SHA-256 and keyed HMAC-SHA256 are left uninterpreted: any function from
      texts to 64 hexadecimal characters. Nothing says that it is injective. */
  type Digest = string -> HexDigest

  /** Two different texts with one digest. */
  predicate Collides(sha: Digest, x: string, y: string) {
    x != y && sha(x) == sha(y)
  }

  function Max(x: int, y: int): int {
    if x > y then x else y
  }

  lemma {:induction false} PrefixEnds<T>(s: seq<T>, n: nat)
    requires 0 < n <= |s|
    ensures s[..n] == s[..n - 1] + [s[n - 1]]
  {
  }

  lemma {:induction false} Regroup<T>(a: seq<T>, b: seq<T>, c: seq<T>)
    ensures (a + b) + c == a + (b + c)
  {
  }

  lemma {:induction false} TailOfConcat<T>(a: seq<T>, b: seq<T>)
    requires a != []
    ensures (a + b)[0] == a[0] && (a + b)[1..] == a[1..] + b
  {
  }

  lemma {:induction false} SplitConcat<T>(a: seq<T>, b: seq<T>)
    ensures (a + b)[..|a|] == a && (a + b)[|a|..] == b
  {
  }

  // ------------------------------------------------------------- counting

  /** How many elements of s satisfy p. */
  function CountIf<T>(s: seq<T>, p: T -> bool): (n: nat)
    ensures n <= |s|
  {
    if s == [] then 0 else CountIf(s[..|s| - 1], p) + (if p(s[|s| - 1]) then 1 else 0)
  }

  lemma {:induction false} CountAppend<T>(s: seq<T>, x: T, p: T -> bool)
    ensures CountIf(s + [x], p) == CountIf(s, p) + if p(x) then 1 else 0
  {
    assert (s + [x])[..|s|] == s;
  }

  lemma {:induction false} CountConcat<T>(s: seq<T>, t: seq<T>, p: T -> bool)
    ensures CountIf(s + t, p) == CountIf(s, p) + CountIf(t, p)
  {
    if t == [] {
      assert s + t == s;
    } else {
      var n := |t| - 1;
      CountConcat(s, t[..n], p);
      CountAppend(s + t[..n], t[n], p);
      PrefixEnds(t, |t|);
      Regroup(s, t[..n], [t[n]]);
      assert t[..|t|] == t;
    }
  }

  /** Fewer elements satisfy a stronger predicate. */
  lemma {:induction false} CountWeaker<T, U>(s: seq<T>, t: seq<U>, p: T -> bool, q: U -> bool)
    requires |s| == |t| && forall i | 0 <= i < |s| :: p(s[i]) ==> q(t[i])
    ensures CountIf(s, p) <= CountIf(t, q)
  {
    if s != [] {
      CountWeaker(s[..|s| - 1], t[..|s| - 1], p, q);
    }
  }

  lemma {:induction false} CountSame<T, U>(s: seq<T>, t: seq<U>, p: T -> bool, q: U -> bool)
    requires |s| == |t| && forall i | 0 <= i < |s| :: p(s[i]) <==> q(t[i])
    ensures CountIf(s, p) == CountIf(t, q)
  {
    CountWeaker(s, t, p, q);
    CountWeaker(t, s, q, p);
  }

  lemma {:induction false} CountReplace<T>(s: seq<T>, i: nat, x: T, p: T -> bool)
    requires i < |s|
    ensures CountIf(s[i := x], p) == CountIf(s, p) - (if p(s[i]) then 1 else 0) + if p(x) then 1 else 0
  {
    var n := |s| - 1;
    if i < n {
      CountReplace(s[..n], i, x, p);
      assert s[i := x][..n] == s[..n][i := x];
    } else {
      assert s[i := x][..n] == s[..n];
    }
  }

  lemma {:induction false} CountNone<T>(s: seq<T>, p: T -> bool)
    ensures CountIf(s, p) == 0 <==> forall i | 0 <= i < |s| :: !p(s[i])
  {
    if s != [] {
      var n := |s| - 1;
      CountNone(s[..n], p);
      PrefixEnds(s, |s|);
    }
  }
}
