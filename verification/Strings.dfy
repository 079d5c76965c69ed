/** The text operations that identifier handling is built from. Case folding
    and white space are those of ASCII text. */
module Strings {
  import opened Prelude

  predicate IsSpace(c: char) {
    c as int in {9, 10, 11, 12, 13, 28, 29, 30, 31, 32}
  }

  function LowerChar(c: char): char {
    if 'A' <= c <= 'Z' then c + 32 as char else c
  }

  function Lower(s: string): (r: string)
    ensures |r| == |s| && forall i | 0 <= i < |s| :: r[i] == LowerChar(s[i])
  {
    if s == [] then [] else [LowerChar(s[0])] + Lower(s[1..])
  }

  /** The 26 capital letters become the small ones, and nothing else changes. */
  lemma {:induction false} LowerLaw(s: string, i: nat)
    requires i < |s|
    ensures var c, d := s[i], Lower(s)[i];
      if 'A' <= c <= 'Z' then 'a' <= d <= 'z' && d as int - 'a' as int == c as int - 'A' as int else d == c
  {
  }

  function StripLeft(s: string): string {
    if s != [] && IsSpace(s[0]) then StripLeft(s[1..]) else s
  }

  function StripRight(s: string): string {
    if s != [] && IsSpace(s[|s| - 1]) then StripRight(s[..|s| - 1]) else s
  }

  function Strip(s: string): string {
    StripRight(StripLeft(s))
  }

  /** Only the digits of a text: `re.sub(r"\D+", "", s)`. */
  function Digits(s: string): string {
    if s == [] then [] else (if IsDigit(s[0]) then [s[0]] else []) + Digits(s[1..])
  }

  /** Every run of white space becomes one space; `inRun` tells that the run
      before s was already written. */
  function CollapseFrom(s: string, inRun: bool): string {
    if s == [] then []
    else if !IsSpace(s[0]) then [s[0]] + CollapseFrom(s[1..], false)
    else if inRun then CollapseFrom(s[1..], true)
    else [' '] + CollapseFrom(s[1..], true)
  }

  /** `re.sub(r"\s+", " ", s)` */
  function Collapse(s: string): string {
    CollapseFrom(s, false)
  }

  /** The words of a text: `s.split()`. */
  function WordsFrom(s: string, word: string): seq<string> {
    if s == [] then (if word == [] then [] else [word])
    else if !IsSpace(s[0]) then WordsFrom(s[1..], word + [s[0]])
    else (if word == [] then [] else [word]) + WordsFrom(s[1..], [])
  }

  function Words(s: string): seq<string> {
    WordsFrom(s, [])
  }

  /** `" ".join(words)` */
  function Join(words: seq<string>): string {
    if words == [] then []
    else if |words| == 1 then words[0]
    else words[0] + ([' '] + Join(words[1..]))
  }

  predicate OccursAt(text: string, part: string, i: nat) {
    i + |part| <= |text| && text[i..i + |part|] == part
  }

  /** `part in text` */
  predicate Contains(text: string, part: string) {
    exists i | 0 <= i <= |text| :: OccursAt(text, part, i)
  }

  // ------------------------------------------------------------- containment

  lemma {:induction false} ContainsMiddle(pre: string, part: string, post: string)
    ensures Contains(pre + part + post, part)
  {
    assert OccursAt(pre + part + post, part, |pre|);
  }

  lemma {:induction false} ContainsSplits(text: string, part: string) returns (pre: string, post: string)
    requires Contains(text, part)
    ensures text == pre + part + post
  {
    var i :| 0 <= i <= |text| && OccursAt(text, part, i);
    pre, post := text[..i], text[i + |part|..];
  }

  lemma {:induction false} ContainsIsTransitive(a: string, b: string, c: string)
    requires Contains(a, b) && Contains(b, c)
    ensures Contains(a, c)
  {
    var p, q := ContainsSplits(a, b);
    var r, s := ContainsSplits(b, c);
    assert a == (p + r) + c + (s + q);
    ContainsMiddle(p + r, c, s + q);
  }

  // ------------------------------------------------------------- concatenation

  lemma {:induction false} LowerConcat(a: string, b: string)
    ensures Lower(a + b) == Lower(a) + Lower(b)
  {
  }

  lemma {:induction false} DigitsConcat(a: string, b: string)
    ensures Digits(a + b) == Digits(a) + Digits(b)
  {
    if a == [] {
      assert a + b == b;
    } else {
      DigitsConcat(a[1..], b);
      TailOfConcat(a, b);
    }
  }

  predicate EndsInSpace(s: string, inRun: bool) {
    if s == [] then inRun else IsSpace(s[|s| - 1])
  }

  lemma {:induction false} CollapseConcat(a: string, b: string, inRun: bool)
    ensures CollapseFrom(a + b, inRun) == CollapseFrom(a, inRun) + CollapseFrom(b, EndsInSpace(a, inRun))
  {
    if a == [] {
      assert a + b == b;
    } else {
      CollapseConcat(a[1..], b, IsSpace(a[0]));
      TailOfConcat(a, b);
    }
  }

  lemma {:induction false} CollapseEnd(a: string)
    requires a != [] && IsSpace(a[|a| - 1])
    ensures Collapse(a) != [] && Collapse(a)[|Collapse(a)| - 1] == ' '
  {
    var front, last := a[..|a| - 1], a[|a| - 1..];
    assert a == front + last;
    CollapseConcat(front, last, false);
    if front != [] && IsSpace(front[|front| - 1]) {
      CollapseEnd(front);
    }
  }

  /** A text stays visible, collapsed, inside every larger text. */
  lemma {:induction false} CollapseEmbeds(pre: string, text: string, post: string)
    ensures Contains(Collapse(pre + text + post), Collapse(text))
  {
    var whole := Collapse(pre + text + post);
    var head := Collapse(pre);
    var run := EndsInSpace(pre, false);
    var body := CollapseFrom(text, run);
    var tail := CollapseFrom(post, EndsInSpace(pre + text, false));
    CollapseConcat(pre + text, post, false);
    CollapseConcat(pre, text, false);
    assert whole == head + body + tail;
    if run && text != [] && IsSpace(text[0]) {
      CollapseEnd(pre);
      var n := |head| - 1;
      assert head == head[..n] + [' '];
      assert whole == head[..n] + ([' '] + body) + tail;
      ContainsMiddle(head[..n], [' '] + body, tail);
    } else {
      ContainsMiddle(head, body, tail);
    }
  }

  lemma {:induction false} DigitsEmbed(pre: string, text: string, post: string)
    ensures Contains(Digits(pre + text + post), Digits(text))
  {
    DigitsConcat(pre + text, post);
    DigitsConcat(pre, text);
    ContainsMiddle(Digits(pre), Digits(text), Digits(post));
  }

  lemma {:induction false} LowerEmbeds(pre: string, text: string, post: string)
    ensures Lower(pre + text + post) == Lower(pre) + Lower(text) + Lower(post)
  {
    LowerConcat(pre + text, post);
    LowerConcat(pre, text);
  }

  // ------------------------------------------------------------- fixed points

  /** Neither end of s is white space. */
  predicate Trimmed(s: string) {
    s != [] ==> !IsSpace(s[0]) && !IsSpace(s[|s| - 1])
  }

  predicate Blank(s: string) {
    forall i | 0 <= i < |s| :: IsSpace(s[i])
  }

  lemma {:induction false} StripLeftSplits(s: string) returns (pre: string)
    ensures s == pre + StripLeft(s) && Blank(pre)
    ensures StripLeft(s) != [] ==> !IsSpace(StripLeft(s)[0])
  {
    pre := [];
    if s != [] && IsSpace(s[0]) {
      pre := StripLeftSplits(s[1..]);
      assert s == [s[0]] + s[1..];
      Regroup([s[0]], pre, StripLeft(s));
      pre := [s[0]] + pre;
    }
  }

  lemma {:induction false} StripRightSplits(s: string) returns (post: string)
    ensures s == StripRight(s) + post && Blank(post)
    ensures StripRight(s) != [] ==> !IsSpace(StripRight(s)[|StripRight(s)| - 1]) && StripRight(s)[0] == s[0]
  {
    post := [];
    if s != [] && IsSpace(s[|s| - 1]) {
      post := StripRightSplits(s[..|s| - 1]);
      PrefixEnds(s, |s|);
      Regroup(StripRight(s), post, [s[|s| - 1]]);
      post := post + [s[|s| - 1]];
    }
  }

  /** Stripping cuts out what is left without the blanks at both ends. */
  lemma {:induction false} StripSplits(s: string) returns (pre: string, post: string)
    ensures s == pre + Strip(s) + post && Trimmed(Strip(s))
    ensures Blank(pre) && Blank(post)
  {
    pre := StripLeftSplits(s);
    post := StripRightSplits(StripLeft(s));
    Regroup(pre, Strip(s), post);
  }

  lemma {:induction false} LowerKeepsTrimmed(s: string)
    requires Trimmed(s)
    ensures Trimmed(Lower(s))
  {
  }

  lemma {:induction false} LowerIsStable(s: string)
    requires forall i | 0 <= i < |s| :: LowerChar(s[i]) == s[i]
    ensures Lower(s) == s
  {
  }

  lemma {:induction false} TrimmedIsStripped(s: string)
    requires Trimmed(s)
    ensures Strip(s) == s
  {
  }

  /** No two spaces in a row, and no white space but the plain space. */
  ghost predicate SingleSpaced(s: string) {
    && (forall i | 0 <= i < |s| && IsSpace(s[i]) :: s[i] == ' ')
    && (forall i | 0 < i < |s| && IsSpace(s[i]) :: !IsSpace(s[i - 1]))
  }

  lemma {:induction false} SingleSpacedIsCollapsed(s: string, inRun: bool)
    requires SingleSpaced(s) && (inRun && s != [] ==> !IsSpace(s[0]))
    ensures CollapseFrom(s, inRun) == s
  {
    if s != [] {
      var t := s[1..];
      assert forall i | 0 <= i < |t| :: t[i] == s[i + 1];
      SingleSpacedIsCollapsed(t, IsSpace(s[0]));
      assert s == [s[0]] + t;
    }
  }

  lemma {:induction false} CollapseSpaces(s: string, inRun: bool)
    ensures var r := CollapseFrom(s, inRun);
      && SingleSpaced(r)
      && (inRun && r != [] ==> !IsSpace(r[0]))
      && (forall i | 0 <= i < |r| :: r[i] == ' ' || r[i] in s)
  {
    if s != [] {
      CollapseSpaces(s[1..], IsSpace(s[0]));
      var r := CollapseFrom(s, inRun);
      var t := CollapseFrom(s[1..], IsSpace(s[0]));
      if !IsSpace(s[0]) || !inRun {
        assert r == [r[0]] + t;
        assert forall i | 0 < i < |r| :: r[i] == t[i - 1];
      }
    }
  }

  lemma {:induction false} CollapseKeepsTrimmed(s: string)
    requires Trimmed(s)
    ensures Trimmed(Collapse(s))
  {
    if s != [] {
      var front, last := s[..|s| - 1], s[|s| - 1..];
      assert s == front + last;
      CollapseConcat(front, last, false);
      assert CollapseFrom(last, EndsInSpace(front, false)) == last;
      assert Collapse(s) == [s[0]] + CollapseFrom(s[1..], false);
    }
  }

  // ------------------------------------------------------------- runs of blanks

  /** A run of white space between two texts that it does not touch. */
  ghost predicate Separates(a: string, blanks: string, b: string) {
    && blanks != [] && Blank(blanks)
    && (a != [] ==> !IsSpace(a[|a| - 1]))
    && (b != [] ==> !IsSpace(b[0]))
  }

  lemma {:induction false} BlankCollapses(blanks: string)
    requires Blank(blanks)
    ensures CollapseFrom(blanks, true) == []
    ensures blanks != [] ==> CollapseFrom(blanks, false) == [' ']
  {
    if blanks != [] {
      BlankCollapses(blanks[1..]);
    }
  }

  lemma {:induction false} RunDoesNotMatter(b: string)
    requires b != [] ==> !IsSpace(b[0])
    ensures CollapseFrom(b, true) == CollapseFrom(b, false)
  {
  }

  /** Each run of white space becomes one space, and nothing else changes. */
  lemma {:induction false} CollapseLaw(a: string, blanks: string, b: string)
    requires Separates(a, blanks, b)
    ensures Collapse(a + blanks + b) == Collapse(a) + " " + Collapse(b)
    ensures (forall i | 0 <= i < |a| :: !IsSpace(a[i])) ==> Collapse(a) == a
  {
    CollapseConcat(a + blanks, b, false);
    CollapseConcat(a, blanks, false);
    BlankCollapses(blanks);
    RunDoesNotMatter(b);
    if forall i | 0 <= i < |a| :: !IsSpace(a[i]) {
      SingleSpacedIsCollapsed(a, false);
    }
  }

  lemma {:induction false} WordGrows(a: string, word: string, rest: string)
    requires forall i | 0 <= i < |a| :: !IsSpace(a[i])
    ensures WordsFrom(a + rest, word) == WordsFrom(rest, word + a)
  {
    if a == [] {
      assert a + rest == rest && word + a == word;
    } else {
      TailOfConcat(a, rest);
      WordGrows(a[1..], word + [a[0]], rest);
      assert word + [a[0]] + a[1..] == word + a;
    }
  }

  lemma {:induction false} BlankHasNoWords(blanks: string, rest: string)
    requires Blank(blanks)
    ensures WordsFrom(blanks + rest, []) == WordsFrom(rest, [])
  {
    if blanks == [] {
      assert blanks + rest == rest;
    } else {
      TailOfConcat(blanks, rest);
      BlankHasNoWords(blanks[1..], rest);
    }
  }

  /** A word, the white space after it, and the words of the rest. */
  lemma {:induction false} WordsLaw(a: string, blanks: string, b: string)
    requires a != [] && forall i | 0 <= i < |a| :: !IsSpace(a[i])
    requires Blank(blanks) && blanks != []
    ensures Words(a) == [a]
    ensures Words(blanks) == [] && Words(blanks + b) == Words(b)
    ensures Words(a + blanks + b) == [a] + Words(b)
  {
    WordGrows(a, [], []);
    assert a + [] == a && [] + a == a;
    BlankHasNoWords(blanks, []);
    assert blanks + [] == blanks;
    BlankHasNoWords(blanks, b);
    WordGrows(a, [], blanks + b);
    Regroup(a, blanks, b);
    TailOfConcat(blanks, b);
    BlankHasNoWords(blanks[1..], b);
  }

  /** Words joined by single spaces are split at those spaces. */
  lemma {:induction false} JoinSplits(words: seq<string>)
    requires forall k | 0 <= k < |words| :: words[k] != [] && forall i | 0 <= i < |words[k]| :: !IsSpace(words[k][i])
    ensures Words(Join(words)) == words
  {
    if |words| == 1 {
      WordsLaw(words[0], " ", []);
    } else if |words| > 1 {
      JoinSplits(words[1..]);
      WordsLaw(words[0], " ", Join(words[1..]));
      Regroup(words[0], " ", Join(words[1..]));
    }
  }
}
