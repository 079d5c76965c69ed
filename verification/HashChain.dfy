/** Hash chains in the abstract: what a chain of links binds, whatever content
    each link carries. */
module HashChain {
  import opened Prelude

  datatype Link = Link(prevHash: string, content: string, entryHash: string)

  /** The text that is hashed for a link. */
  function PreImage(prevHash: string, content: string): string {
    prevHash + (['|'] + content)
  }

  function TextOf(link: Link): string {
    PreImage(link.prevHash, link.content)
  }

  function HashBefore(links: seq<Link>, k: nat): string
    requires k <= |links|
  {
    if k == 0 then "" else links[k - 1].entryHash
  }

  /** Link k points at the link before it and carries the hash of its own text. */
  predicate Sound(sha: Digest, links: seq<Link>, k: nat)
    requires k < |links|
  {
    links[k].prevHash == HashBefore(links, k) && links[k].entryHash == sha(TextOf(links[k]))
  }

  ghost predicate SoundUpTo(sha: Digest, links: seq<Link>, n: nat)
    requires n <= |links|
  {
    forall k | 0 <= k < n :: Sound(sha, links, k)
  }

  ghost predicate Chained(sha: Digest, links: seq<Link>) {
    SoundUpTo(sha, links, |links|)
  }

  /** Exactly the first n links are sound up to the first broken one. */
  ghost predicate ValidLength(sha: Digest, links: seq<Link>, n: nat) {
    n <= |links| && SoundUpTo(sha, links, n) && (n < |links| ==> !Sound(sha, links, n))
  }

  lemma {:induction false} OneMoreSound(sha: Digest, links: seq<Link>, n: nat)
    requires n < |links| && SoundUpTo(sha, links, n) && Sound(sha, links, n)
    ensures SoundUpTo(sha, links, n + 1)
  {
  }

  /** A chain has one valid length, and it is its whole length exactly when
      every link is sound. */
  lemma {:induction false} ValidLengthIsUnique(sha: Digest, links: seq<Link>, m: nat, n: nat)
    requires ValidLength(sha, links, n)
    ensures ValidLength(sha, links, m) <==> m == n
    ensures Chained(sha, links) <==> n == |links|
  {
    assert m < n ==> Sound(sha, links, m);
  }

  /** Links j of one chain and k of another are a hash collision. */
  ghost predicate CollideAt(sha: Digest, a: seq<Link>, b: seq<Link>, j: nat, k: nat) {
    j < |a| && k < |b| && Collides(sha, TextOf(a[j]), TextOf(b[k]))
  }

  /** In two equal pre-images the bar of one is not inside the other's hash. */
  lemma {:induction false} NoEarlierBar(p: string, q: string, x: string, y: string)
    requires NoBar(q) && PreImage(p, x) == PreImage(q, y)
    ensures |q| <= |p|
  {
    assert PreImage(p, x)[|p|] == '|';
    assert forall i | 0 <= i < |q| :: PreImage(q, y)[i] == q[i];
  }

  /** The first bar of a pre-image ends the previous hash. */
  lemma {:induction false} FirstBarSplits(p: string, q: string, x: string, y: string)
    requires NoBar(p) && NoBar(q) && PreImage(p, x) == PreImage(q, y)
    ensures p == q && x == y
  {
    NoEarlierBar(p, q, x, y);
    NoEarlierBar(q, p, y, x);
    assert p == PreImage(p, x)[..|p|] && q == PreImage(q, y)[..|p|];
    assert x == PreImage(p, x)[|p| + 1..] && y == PreImage(q, y)[|p| + 1..];
  }

  lemma {:induction false} DigestShape(sha: Digest, text: string)
    ensures sha(text) != "" && NoBar(sha(text))
  {
    var h: HexDigest := sha(text);
    assert IsHexDigest(h);
  }

  lemma {:induction false} SoundShape(sha: Digest, links: seq<Link>, k: nat)
    requires k < |links| && Chained(sha, links)
    ensures links[k].prevHash == HashBefore(links, k)
    ensures links[k].prevHash == "" <==> k == 0
    ensures links[k].entryHash == sha(TextOf(links[k]))
  {
    assert Sound(sha, links, k);
    if k > 0 {
      assert Sound(sha, links, k - 1);
      DigestShape(sha, TextOf(links[k - 1]));
    }
  }

  lemma {:induction false} DigestIsNotEmpty(sha: Digest, links: seq<Link>, k: nat)
    requires k < |links| && Chained(sha, links)
    ensures links[k].entryHash != ""
  {
    SoundShape(sha, links, k);
    DigestShape(sha, TextOf(links[k]));
  }

  lemma {:induction false} PreviousHasNoBar(sha: Digest, links: seq<Link>, k: nat)
    requires k < |links| && Chained(sha, links)
    ensures NoBar(links[k].prevHash)
  {
    SoundShape(sha, links, k);
    if k > 0 {
      SoundShape(sha, links, k - 1);
      DigestShape(sha, TextOf(links[k - 1]));
    }
  }

  lemma {:induction false} PrefixChained(sha: Digest, links: seq<Link>, n: nat)
    requires Chained(sha, links) && n <= |links|
    ensures Chained(sha, links[..n])
  {
    forall k | 0 <= k < n ensures Sound(sha, links[..n], k) {
      assert Sound(sha, links, k);
    }
  }

  lemma {:induction false} ChainExtends(sha: Digest, links: seq<Link>, link: Link)
    requires Chained(sha, links)
    requires link.prevHash == HashBefore(links, |links|) && link.entryHash == sha(TextOf(link))
    ensures Chained(sha, links + [link])
  {
    var r := links + [link];
    forall k | 0 <= k < |r| ensures Sound(sha, r, k) {
      assert HashBefore(r, k) == HashBefore(links, k);
      assert k < |links| ==> Sound(sha, links, k) && r[k] == links[k];
    }
  }

  lemma {:induction false} LastLinksAgree(sha: Digest, a: seq<Link>, b: seq<Link>, i: nat, j: nat)
    requires i < |a| && j < |b| && Chained(sha, a) && Chained(sha, b)
    requires a[i].entryHash == b[j].entryHash
    ensures CollideAt(sha, a, b, i, j) || a[i] == b[j]
  {
    SoundShape(sha, a, i);
    SoundShape(sha, b, j);
    if TextOf(a[i]) == TextOf(b[j]) {
      PreviousHasNoBar(sha, a, i);
      PreviousHasNoBar(sha, b, j);
      FirstBarSplits(a[i].prevHash, b[j].prevHash, a[i].content, b[j].content);
    }
  }

  /** Prefixes of two chains that end in one hash are equal, or two of their
      own texts collide. */
  lemma {:induction false} LastHashBinds(sha: Digest, a: seq<Link>, b: seq<Link>, i: nat, j: nat)
    requires i <= |a| && j <= |b| && Chained(sha, a) && Chained(sha, b)
    requires HashBefore(a, i) == HashBefore(b, j)
    ensures (i == j && a[..i] == b[..j]) || exists m, n :: CollideAt(sha, a, b, m, n)
    decreases i
  {
    if i == 0 || j == 0 {
      if i > 0 { DigestIsNotEmpty(sha, a, i - 1); }
      if j > 0 { DigestIsNotEmpty(sha, b, j - 1); }
    } else {
      LastLinksAgree(sha, a, b, i - 1, j - 1);
      SoundShape(sha, a, i - 1);
      SoundShape(sha, b, j - 1);
      if a[i - 1] == b[j - 1] {
        LastHashBinds(sha, a, b, i - 1, j - 1);
        PrefixEnds(a, i);
        PrefixEnds(b, j);
      }
    }
  }

  /** Links picked from a chain, in any order and with any repetition. */
  ghost predicate Picked(links: seq<Link>, picks: seq<nat>, sub: seq<Link>) {
    && |sub| == |picks|
    && forall k | 0 <= k < |picks| :: picks[k] < |links| && sub[k] == links[picks[k]]
  }

  /** After a prefix of length m, only link m follows, or two texts collide. */
  lemma {:induction false} NextLink(sha: Digest, links: seq<Link>, sub: seq<Link>, m: nat, p: nat)
    requires Chained(sha, links) && Chained(sha, sub) && m < |sub| && p < |links| && m <= |links|
    requires sub[m] == links[p] && (m > 0 ==> sub[m - 1] == links[m - 1])
    ensures p == m || exists j, k :: CollideAt(sha, links, links, j, k)
  {
    SoundShape(sha, sub, m);
    SoundShape(sha, links, p);
    LastHashBinds(sha, links, links, p, m);
  }

  /** Picked links form a chain only as a prefix, or two of the texts collide. */
  lemma {:induction false} OnlyPrefixesChain(sha: Digest, links: seq<Link>, picks: seq<nat>, sub: seq<Link>)
    requires Chained(sha, links) && Picked(links, picks, sub) && Chained(sha, sub)
    ensures (|sub| <= |links| && sub == links[..|sub|]) || exists j, k :: CollideAt(sha, links, links, j, k)
    decreases |sub|
  {
    if sub != [] {
      var m := |sub| - 1;
      var p := picks[m];
      PrefixChained(sha, sub, m);
      OnlyPrefixesChain(sha, links, picks[..m], sub[..m]);
      if m <= |links| && sub[..m] == links[..m] {
        assert m > 0 ==> sub[m - 1] == sub[..m][m - 1] == links[m - 1];
        NextLink(sha, links, sub, m, p);
        if p == m {
          PrefixEnds(sub, |sub|);
          PrefixEnds(links, m + 1);
        }
      }
    }
  }

  /** Replacing the content of one link breaks the chain at that link, unless
      the two texts have one hash. */
  lemma {:induction false} ReplacedContent(sha: Digest, links: seq<Link>, k: nat, content: string)
    requires Chained(sha, links) && k < |links|
    ensures var t := links[k := links[k].(content := content)];
      if sha(TextOf(t[k])) == sha(TextOf(links[k])) then Chained(sha, t) else ValidLength(sha, t, k)
  {
    var t := links[k := links[k].(content := content)];
    forall i | 0 <= i < |t| ensures Sound(sha, t, i) <==> i != k || sha(TextOf(t[k])) == sha(TextOf(links[k])) {
      assert Sound(sha, links, i);
      assert HashBefore(t, i) == HashBefore(links, i);
    }
  }
}
