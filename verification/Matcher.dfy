/** Identifier matching and confidence scoring (core/agent/matcher.py). */
module Matcher {
  import opened Prelude
  import opened Strings
  import opened Identifiers

  const NICKNAMES: map<string, set<string>> := map[
    "william" := {"bill", "billy", "will", "willy"},
    "robert" := {"bob", "bobby", "rob"},
    "richard" := {"rick", "dick", "rich"},
    "james" := {"jim", "jimmy", "jamie"},
    "margaret" := {"maggie", "peggy", "meg"},
    "elizabeth" := {"liz", "beth", "betty", "lizzy"},
    "jennifer" := {"jen", "jenny"},
    "katherine" := {"kate", "kathy", "katie", "kat"},
    "michael" := {"mike", "mikey"},
    "christopher" := {"chris"},
    "daniel" := {"dan", "danny"},
    "joseph" := {"joe", "joey"},
    "edward" := {"ed", "ted", "ned"},
    "anthony" := {"tony"}]

  function NicknamesOf(name: string): set<string> {
    if name in NICKNAMES then NICKNAMES[name] else {}
  }

  function Reversed(words: seq<string>): seq<string> {
    if words == [] then [] else Reversed(words[1..]) + [words[0]]
  }

  /** The normalized name, its reversal, and one variant per nickname. */
  function NameVariants(fullName: string): set<string> {
    var name := NormalizeName(fullName);
    var parts := Words(name);
    if name == [] then {}
    else if |parts| < 2 then {name}
    else {name, Join(Reversed(parts))} + set nick | nick in NicknamesOf(parts[0]) :: Join([nick] + parts[1..])
  }

  /** The variants, collected the way the program does. */
  method CollectNameVariants(fullName: string) returns (variants: set<string>)
    ensures variants == NameVariants(fullName)
  {
    var name := NormalizeName(fullName);
    if name == [] {
      return {};
    }
    var parts := Words(name);
    variants := {name};
    if |parts| >= 2 {
      variants := variants + {Join(Reversed(parts))};
      var nicknames := NicknamesOf(parts[0]);
      var todo := nicknames;
      while todo != {}
        invariant todo <= nicknames
        invariant variants == {name, Join(Reversed(parts))} + set nick | nick in nicknames - todo :: Join([nick] + parts[1..])
        decreases |todo|
      {
        var nick :| nick in todo;
        todo := todo - {nick};
        variants := variants + {Join([nick] + parts[1..])};
      }
    }
  }

  /** What the on-device agent knows about the subject; "" when absent. */
  datatype Subject = Subject(email: string, phone: string, fullName: string)

  datatype Match = Match(score: real, kind: string, value: string)

  function NormalizeText(text: string): string {
    Collapse(Lower(text))
  }

  predicate EmailMatches(haystack: string, s: Subject) {
    var email := NormalizeEmail(s.email);
    email != [] && Contains(haystack, email)
  }

  predicate PhoneMatches(haystack: string, s: Subject) {
    var digits := Digits(NormalizePhone(s.phone));
    |digits| >= 7 && Contains(Digits(haystack), digits[|digits| - 7..])
  }

  predicate NameMatches(haystack: string, s: Subject) {
    exists v | v in NameVariants(s.fullName) :: Contains(haystack, v)
  }

  function LongWords(words: seq<string>): seq<string> {
    if words == [] then []
    else (if |words[0]| > 2 then [words[0]] else []) + LongWords(words[1..])
  }

  predicate WordsMatch(haystack: string, s: Subject) {
    var parts := LongWords(Words(NormalizeName(s.fullName)));
    parts != [] && forall i | 0 <= i < |parts| :: Contains(haystack, parts[i])
  }

  /** The strongest match: email, phone, full-name variant, all long words. */
  function MatchText(text: string, s: Subject): Match {
    var haystack := NormalizeText(text);
    if haystack == [] then Match(0.0, "", "")
    else if EmailMatches(haystack, s) then Match(1.0, "email", NormalizeEmail(s.email))
    else if PhoneMatches(haystack, s) then Match(0.9, "phone", NormalizePhone(s.phone))
    else if NameMatches(haystack, s) then Match(0.7, "full_name", s.fullName)
    else if WordsMatch(haystack, s) then Match(0.4, "full_name", s.fullName)
    else Match(0.0, "", "")
  }

  // ------------------------------------------------------------- monotonicity

  lemma {:induction false} HaystackGrows(pre: string, text: string, post: string)
    ensures Contains(NormalizeText(pre + text + post), NormalizeText(text))
  {
    LowerEmbeds(pre, text, post);
    CollapseEmbeds(Lower(pre), Lower(text), Lower(post));
  }

  lemma {:induction false} DigitsGrow(big: string, small: string)
    requires Contains(big, small)
    ensures Contains(Digits(big), Digits(small))
  {
    var pre, post := ContainsSplits(big, small);
    DigitsEmbed(pre, small, post);
  }

  /** Everything that is found in a text is found in a larger one. */
  lemma {:induction false} MatchesGrow(big: string, small: string, s: Subject)
    requires Contains(big, small)
    ensures EmailMatches(small, s) ==> EmailMatches(big, s)
    ensures PhoneMatches(small, s) ==> PhoneMatches(big, s)
    ensures NameMatches(small, s) ==> NameMatches(big, s)
    ensures WordsMatch(small, s) ==> WordsMatch(big, s)
  {
    if EmailMatches(small, s) {
      ContainsIsTransitive(big, small, NormalizeEmail(s.email));
    }
    if PhoneMatches(small, s) {
      var digits := Digits(NormalizePhone(s.phone));
      DigitsGrow(big, small);
      ContainsIsTransitive(Digits(big), Digits(small), digits[|digits| - 7..]);
    }
    if NameMatches(small, s) {
      var v :| v in NameVariants(s.fullName) && Contains(small, v);
      ContainsIsTransitive(big, small, v);
    }
    var parts := LongWords(Words(NormalizeName(s.fullName)));
    forall i | 0 <= i < |parts| && Contains(small, parts[i]) ensures Contains(big, parts[i]) {
      ContainsIsTransitive(big, small, parts[i]);
    }
  }

  /** Putting a text inside a larger one, on either side, never loses strength. */
  lemma {:induction false} ScoreGrowsWithText(pre: string, text: string, post: string, s: Subject)
    ensures MatchText(pre + text + post, s).score >= MatchText(text, s).score
  {
    var small, big := NormalizeText(text), NormalizeText(pre + text + post);
    HaystackGrows(pre, text, post);
    MatchesGrow(big, small, s);
    var x, y := ContainsSplits(big, small);
  }

  lemma {:induction false} OwnNameIsFound(fullName: string)
    requires Strip(fullName) != []
    ensures NormalizeName(fullName) in NameVariants(fullName)
    ensures Contains(NormalizeText(fullName), NormalizeName(fullName)) && NormalizeText(fullName) != []
  {
    var pre, post := StripSplits(fullName);
    HaystackGrows(pre, Strip(fullName), post);
    var low := Lower(Strip(fullName));
    assert !IsSpace(low[0]);
    assert NormalizeName(fullName) != [];
    var x, y := ContainsSplits(NormalizeText(fullName), NormalizeName(fullName));
  }

  /** A text that quotes the subject's name scores at least as a full name. */
  lemma {:induction false} QuotedNameScores(pre: string, post: string, s: Subject)
    requires Strip(s.fullName) != []
    ensures MatchText(pre + s.fullName + post, s).score >= 0.7
  {
    OwnNameIsFound(s.fullName);
    assert NameMatches(NormalizeText(s.fullName), s);
    ScoreGrowsWithText(pre, s.fullName, post, s);
  }

  lemma {:induction false} FoundTextIsCollapsed(text: string, part: string)
    requires Contains(NormalizeText(text), part)
    ensures Collapse(part) == part
  {
    var haystack := NormalizeText(text);
    CollapseSpaces(Lower(text), false);
    var i :| 0 <= i <= |haystack| && OccursAt(haystack, part, i);
    assert part == haystack[i..i + |part|];
    SingleSpacedIsCollapsed(part, false);
  }

  /** A text that quotes the subject's e-mail address scores the maximum exactly
      when there is an address and collapsing white space leaves it alone: a
      text is searched with its white space collapsed, the address is not. */
  lemma {:induction false} QuotedEmailScores(pre: string, post: string, s: Subject)
    ensures MatchText(pre + s.email + post, s).score == 1.0 <==> NormalizeEmail(s.email) == Collapse(NormalizeEmail(s.email)) != []
  {
    var email := NormalizeEmail(s.email);
    if email == Collapse(email) != [] {
      var a, b := StripSplits(s.email);
      HaystackGrows(a, Strip(s.email), b);
      var x, y := ContainsSplits(NormalizeText(s.email), email);
      ScoreGrowsWithText(pre, s.email, post, s);
    } else if EmailMatches(NormalizeText(pre + s.email + post), s) {
      FoundTextIsCollapsed(pre + s.email + post, email);
    }
  }

  lemma {:induction false} OtherSpaceIsLost(s: string, i: nat)
    requires i < |s| && IsSpace(s[i]) && s[i] != ' '
    ensures Collapse(s) != s
  {
    CollapseSpaces(s, false);
  }

  /** An address with a tab in it is lost even in its own text. */
  lemma {:induction false} TabbedEmailIsLost()
    ensures MatchText("a\tb@c", Subject("a\tb@c", "", "")).score != 1.0
  {
    var s := Subject("a\tb@c", "", "");
    TrimmedIsStripped(s.email);
    var email := Lower(s.email);
    assert email[1] == '\t';
    OtherSpaceIsLost(email, 1);
    QuotedEmailScores([], [], s);
    assert [] + s.email + [] == s.email;
  }

  // ------------------------------------------------------------- variants

  predicate PlainChar(c: char) {
    !IsSpace(c) && LowerChar(c) == c
  }

  /** A lower-case word without white space. */
  predicate Plain(w: string) {
    w != [] && forall i | 0 <= i < |w| :: PlainChar(w[i])
  }

  ghost predicate AllPlain(words: seq<string>) {
    forall i | 0 <= i < |words| :: Plain(words[i])
  }

  lemma {:induction false} WordsArePlain(s: string, word: string)
    requires forall i | 0 <= i < |s| :: LowerChar(s[i]) == s[i]
    requires word == [] || Plain(word)
    ensures AllPlain(WordsFrom(s, word))
  {
    if s != [] {
      if IsSpace(s[0]) {
        WordsArePlain(s[1..], []);
      } else {
        WordsArePlain(s[1..], word + [s[0]]);
      }
    }
  }

  lemma {:induction false} ReversedArePlain(words: seq<string>)
    requires AllPlain(words)
    ensures AllPlain(Reversed(words)) && |Reversed(words)| == |words|
  {
    if words != [] {
      assert AllPlain(words[1..]);
      ReversedArePlain(words[1..]);
    }
  }

  /** Text that normalizing leaves alone. */
  ghost predicate Settled(s: string) {
    SingleSpaced(s) && forall i | 0 <= i < |s| :: LowerChar(s[i]) == s[i]
  }

  lemma {:induction false} JoinIsSettled(words: seq<string>)
    requires AllPlain(words)
    ensures Settled(Join(words)) && (words != [] ==> Join(words) != [] && !IsSpace(Join(words)[0]))
  {
    if |words| > 1 {
      assert AllPlain(words[1..]);
      JoinIsSettled(words[1..]);
      SettledConcat(words[0], Join(words[1..]));
    }
  }

  lemma {:induction false} SettledConcat(w: string, rest: string)
    requires Plain(w) && Settled(rest) && rest != [] && !IsSpace(rest[0])
    ensures Settled(w + ([' '] + rest))
  {
    var s := w + ([' '] + rest);
    forall i | 0 <= i < |s|
      ensures LowerChar(s[i]) == s[i] && (IsSpace(s[i]) ==> s[i] == ' ' && (i > 0 ==> !IsSpace(s[i - 1])))
    {
      if i > |w| {
        assert s[i] == rest[i - |w| - 1];
        assert i > |w| + 1 ==> s[i - 1] == rest[i - |w| - 2];
      }
    }
  }

  lemma {:induction false} PlainNames1()
    ensures Plain("bill") && Plain("billy") && Plain("will") && Plain("willy") && Plain("bob")
    ensures Plain("bobby") && Plain("rob") && Plain("rick") && Plain("dick")
  {
  }

  lemma {:induction false} PlainNames2()
    ensures Plain("rich") && Plain("jim") && Plain("jimmy") && Plain("jamie") && Plain("maggie")
    ensures Plain("peggy") && Plain("meg") && Plain("liz") && Plain("beth")
  {
  }

  lemma {:induction false} PlainNames3()
    ensures Plain("betty") && Plain("lizzy") && Plain("jen") && Plain("jenny") && Plain("kate")
    ensures Plain("kathy") && Plain("katie") && Plain("kat") && Plain("mike")
  {
  }

  lemma {:induction false} PlainNames4()
    ensures Plain("mikey") && Plain("chris") && Plain("dan") && Plain("danny") && Plain("joe")
    ensures Plain("joey") && Plain("ed") && Plain("ted") && Plain("ned") && Plain("tony")
  {
  }

  lemma {:induction false} NicknamesArePlain(name: string)
    ensures forall nick | nick in NicknamesOf(name) :: Plain(nick)
  {
    PlainNames1();
    PlainNames2();
    PlainNames3();
    PlainNames4();
  }

  lemma {:induction false} NameIsSettled(fullName: string)
    ensures Settled(NormalizeName(fullName))
  {
    var low := Lower(Strip(fullName));
    var name := Collapse(low);
    CollapseSpaces(low, false);
    forall i | 0 <= i < |name| ensures LowerChar(name[i]) == name[i] {
      assert name[i] == ' ' || name[i] in low;
    }
  }

  lemma {:induction false} VariantIsSettled(fullName: string, v: string)
    requires v in NameVariants(fullName)
    ensures Settled(v) && v != []
  {
    var name := NormalizeName(fullName);
    var parts := Words(name);
    NameIsSettled(fullName);
    if v != name {
      WordsArePlain(name, []);
      ReversedArePlain(parts);
      JoinIsSettled(Reversed(parts));
      NicknamesArePlain(parts[0]);
      if v != Join(Reversed(parts)) {
        var nick :| nick in NicknamesOf(parts[0]) && v == Join([nick] + parts[1..]);
        JoinIsSettled([nick] + parts[1..]);
      }
    }
  }

  /** A text that quotes any variant of the subject's name, reversed or with a
      nickname, scores at least as a full name. */
  lemma {:induction false} QuotedVariantScores(pre: string, v: string, post: string, s: Subject)
    requires v in NameVariants(s.fullName)
    ensures MatchText(pre + v + post, s).score >= 0.7
  {
    VariantIsSettled(s.fullName, v);
    LowerIsStable(v);
    SingleSpacedIsCollapsed(v, false);
    assert OccursAt(v, v, 0);
    ScoreGrowsWithText(pre, v, post, s);
  }

  // ------------------------------------------------------------- every score

  lemma {:induction false} LowerKeepsDigits(s: string)
    ensures Digits(Lower(s)) == Digits(s)
  {
    if s != [] {
      LowerKeepsDigits(s[1..]);
      assert Lower(s)[1..] == Lower(s[1..]);
    }
  }

  lemma {:induction false} CollapseKeepsDigits(s: string, inRun: bool)
    ensures Digits(CollapseFrom(s, inRun)) == Digits(s)
  {
    if s != [] {
      CollapseKeepsDigits(s[1..], IsSpace(s[0]));
      var r := CollapseFrom(s, inRun);
      if !IsSpace(s[0]) || !inRun {
        assert r[1..] == CollapseFrom(s[1..], IsSpace(s[0]));
      }
    }
  }

  lemma {:induction false} NormalizedDigits(text: string)
    ensures Digits(NormalizeText(text)) == Digits(text)
  {
    LowerKeepsDigits(text);
    CollapseKeepsDigits(Lower(text), false);
  }

  /** The words of the name with more than two letters all occur, and there is one. */
  ghost predicate LongWordsOccur(haystack: string, words: seq<string>) {
    && (exists w :: w in words && |w| > 2)
    && (forall w | w in words && |w| > 2 :: Contains(haystack, w))
  }

  lemma {:induction false} LongWordsAre(words: seq<string>, w: string)
    ensures w in LongWords(words) <==> w in words && |w| > 2
  {
    if words != [] {
      LongWordsAre(words[1..], w);
    }
  }

  lemma {:induction false} WordsMatchExactly(haystack: string, s: Subject)
    ensures WordsMatch(haystack, s) <==> LongWordsOccur(haystack, Words(NormalizeName(s.fullName)))
  {
    var words := Words(NormalizeName(s.fullName));
    var parts := LongWords(words);
    forall w ensures w in parts <==> w in words && |w| > 2 {
      LongWordsAre(words, w);
    }
    if parts != [] {
      assert parts[0] in parts;
    }
  }

  ghost predicate SomeOccurs(haystack: string, variants: set<string>) {
    exists v | v in variants :: Contains(haystack, v)
  }

  /** The last seven digits of the number are among the digits of the text. */
  predicate LastSevenOccur(text: string, phone: string) {
    |phone| >= 7 && Contains(Digits(text), phone[|phone| - 7..])
  }

  /** The strongest of four matches decides: the address, the last seven digits
      of the phone number, a variant of the name, or all its long words. */
  lemma {:induction false} ScoreExactly(text: string, s: Subject)
    ensures var hay, email, phone := Collapse(Lower(text)), Lower(Strip(s.email)), Digits(s.phone);
      MatchText(text, s)
        == if email != "" && Contains(hay, email) then Match(1.0, "email", email)
           else if LastSevenOccur(text, phone) then Match(0.9, "phone", "+" + phone)
           else if SomeOccurs(hay, NameVariants(s.fullName)) then Match(0.7, "full_name", s.fullName)
           else if LongWordsOccur(hay, Words(Collapse(Lower(Strip(s.fullName))))) then Match(0.4, "full_name", s.fullName)
           else Match(0.0, "", "")
  {
    var hay, email := Collapse(Lower(text)), Lower(Strip(s.email));
    PhoneMatchesExactly(text, s);
    WordsMatchExactly(hay, s);
    ScoreByMatches(text, s, email != "" && Contains(hay, email), LastSevenOccur(text, Digits(s.phone)),
                   SomeOccurs(hay, NameVariants(s.fullName)), LongWordsOccur(hay, Words(NormalizeName(s.fullName))));
  }

  lemma {:induction false} ScoreByMatches(text: string, s: Subject, email: bool, phone: bool, name: bool, words: bool)
    requires email == EmailMatches(NormalizeText(text), s) && phone == PhoneMatches(NormalizeText(text), s)
    requires name == NameMatches(NormalizeText(text), s) && words == WordsMatch(NormalizeText(text), s)
    ensures MatchText(text, s)
      == if email then Match(1.0, "email", NormalizeEmail(s.email))
         else if phone then Match(0.9, "phone", NormalizePhone(s.phone))
         else if name then Match(0.7, "full_name", s.fullName)
         else if words then Match(0.4, "full_name", s.fullName)
         else Match(0.0, "", "")
  {
    NothingMatchesNothing(s);
  }

  lemma {:induction false} PhoneMatchesExactly(text: string, s: Subject)
    ensures PhoneMatches(NormalizeText(text), s) <==> LastSevenOccur(text, Digits(s.phone))
    ensures Digits(s.phone) != [] ==> NormalizePhone(s.phone) == "+" + Digits(s.phone)
  {
    NormalizedDigits(text);
    PhoneIsStable(s.phone);
  }

  lemma {:induction false} NothingMatchesNothing(s: Subject)
    ensures !EmailMatches("", s) && !PhoneMatches("", s) && !NameMatches("", s) && !WordsMatch("", s)
  {
    forall v | v in NameVariants(s.fullName) ensures !Contains("", v) {
      VariantIsSettled(s.fullName, v);
    }
    WordsMatchExactly("", s);
  }

  /** A text that quotes a phone number scores 0.9 at least when the number has
      seven digits; with fewer it is never found by its phone number. */
  lemma {:induction false} QuotedPhoneScores(pre: string, post: string, s: Subject)
    ensures |Digits(s.phone)| >= 7 ==> MatchText(pre + s.phone + post, s).score >= 0.9
    ensures |Digits(s.phone)| < 7 ==> MatchText(pre + s.phone + post, s).score != 0.9
  {
    var text, digits := pre + s.phone + post, Digits(s.phone);
    ScoreExactly(text, s);
    if |digits| >= 7 {
      DigitsEmbed(pre, s.phone, post);
      var n := |digits| - 7;
      assert digits == digits[..n] + digits[n..] + [];
      ContainsMiddle(digits[..n], digits[n..], []);
      ContainsIsTransitive(Digits(text), digits, digits[n..]);
    }
  }

  /** The variants of a name of two or more lower-case words: as it stands, its
      words in reverse order, and with each nickname of the first. */
  lemma {:induction false} VariantsOfWords(words: seq<string>)
    requires |words| >= 2 && AllPlain(words)
    ensures var n := |words|;
            var name, reverse := Join(words), Join(seq(n, i requires 0 <= i < n => words[n - 1 - i]));
      NameVariants(name) == {name, reverse} + set nick | nick in NicknamesOf(words[0]) :: Join([nick] + words[1..])
  {
    var n, name := |words|, Join(words);
    JoinIsSettled(words);
    JoinIsTrimmed(words);
    TrimmedIsStripped(name);
    LowerIsStable(name);
    SingleSpacedIsCollapsed(name, false);
    JoinSplits(words);
    ReversedIs(words);
  }

  lemma {:induction false} JoinIsTrimmed(words: seq<string>)
    requires words != [] && AllPlain(words)
    ensures Join(words) != [] && Trimmed(Join(words))
  {
    JoinIsSettled(words);
    if |words| > 1 {
      assert AllPlain(words[1..]);
      JoinIsTrimmed(words[1..]);
      assert Join(words)[|Join(words)| - 1] == Join(words[1..])[|Join(words[1..])| - 1];
    }
  }

  lemma {:induction false} ReversedIs(words: seq<string>)
    ensures Reversed(words) == seq(|words|, i requires 0 <= i < |words| => words[|words| - 1 - i])
  {
    if words != [] {
      ReversedIs(words[1..]);
    }
  }
}
