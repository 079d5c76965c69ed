/** JSON values and their canonical text, as `json.dumps(..., sort_keys=True,
    separators=(",", ":"))` writes it (sections 4 and 7 of RFC 8259). */
module Json {
  import opened Prelude

  /** A value as the program builds it: objects remember insertion order. */
  datatype Raw =
    | Null
    | Bool(b: bool)
    | Int(n: int)
    | Str(s: string)
    | Arr(items: Items)
    | Obj(fields: Fields)

  datatype Items = Nil | Cons(head: Raw, tail: Items)

  datatype Fields = End | Field(key: string, value: Raw, rest: Fields)

  predicate HasKey(f: Fields, k: string) {
    f.Field? && (f.key == k || HasKey(f.rest, k))
  }

  /** No object mentions a key twice. */
  predicate DistinctKeys(v: Raw) {
    match v
    case Arr(items) => DistinctKeysItems(items)
    case Obj(fields) => DistinctKeysFields(fields)
    case _ => true
  }

  predicate DistinctKeysItems(i: Items) {
    i.Cons? ==> DistinctKeys(i.head) && DistinctKeysItems(i.tail)
  }

  predicate DistinctKeysFields(f: Fields) {
    f.Field? ==> !HasKey(f.rest, f.key) && DistinctKeys(f.value) && DistinctKeysFields(f.rest)
  }

  /** Every Python value: a dict cannot hold a key twice. */
  type Value = v: Raw | DistinctKeys(v) witness Null

  // ------------------------------------------------------------- meaning

  /** What a value denotes: objects are maps, so insertion order is gone. */
  datatype Meaning =
    | MNull
    | MBool(b: bool)
    | MInt(n: int)
    | MStr(s: string)
    | MArr(items: seq<Meaning>)
    | MObj(fields: map<string, Meaning>)

  function MeaningOf(v: Raw): Meaning {
    match v
    case Null => MNull
    case Bool(b) => MBool(b)
    case Int(n) => MInt(n)
    case Str(s) => MStr(s)
    case Arr(items) => MArr(ItemMeanings(items))
    case Obj(fields) => MObj(FieldMeanings(fields))
  }

  function ItemMeanings(i: Items): seq<Meaning> {
    match i
    case Nil => []
    case Cons(head, tail) => [MeaningOf(head)] + ItemMeanings(tail)
  }

  function FieldMeanings(f: Fields): map<string, Meaning> {
    match f
    case End => map[]
    case Field(key, value, rest) => FieldMeanings(rest)[key := MeaningOf(value)]
  }

  // ------------------------------------------------------------- key order

  /** Code-point order of strings. */
  predicate Before(s: string, t: string)
    decreases s
  {
    if t == [] then false
    else if s == [] then true
    else s[0] < t[0] || (s[0] == t[0] && Before(s[1..], t[1..]))
  }

  lemma {:induction false} BeforeIsTotal(s: string, t: string)
    ensures s != t ==> Before(s, t) || Before(t, s)
    decreases s
  {
    if s == [] || t == [] {
    } else if s[0] == t[0] {
      BeforeIsTotal(s[1..], t[1..]);
      if s[1..] == t[1..] {
        assert s == [s[0]] + s[1..] == [t[0]] + t[1..] == t;
      }
    }
  }

  lemma {:induction false} BeforeIsTransitive(s: string, t: string, u: string)
    requires Before(s, t) && Before(t, u)
    ensures Before(s, u)
    decreases s
  {
    if s != [] && t != [] && u != [] && s[0] == t[0] == u[0] {
      BeforeIsTransitive(s[1..], t[1..], u[1..]);
    }
  }

  lemma {:induction false} BeforeIsIrreflexive(s: string)
    ensures !Before(s, s)
  {
    if s != [] {
      BeforeIsIrreflexive(s[1..]);
    }
  }

  /** Insert a key in front of the first larger one. */
  function Insert(key: string, value: Raw, f: Fields): (r: Fields)
    ensures r.Field?
  {
    if f.Field? && Before(f.key, key)
    then Field(f.key, f.value, Insert(key, value, f.rest))
    else Field(key, value, f)
  }

  /** Sort the keys of every object inside a value. */
  function Normalize(v: Raw): Raw {
    match v
    case Arr(items) => Arr(NormalizeItems(items))
    case Obj(fields) => Obj(NormalizeFields(fields))
    case _ => v
  }

  function NormalizeItems(i: Items): Items {
    match i
    case Nil => Nil
    case Cons(head, tail) => Cons(Normalize(head), NormalizeItems(tail))
  }

  function NormalizeFields(f: Fields): Fields {
    match f
    case End => End
    case Field(key, value, rest) => Insert(key, Normalize(value), NormalizeFields(rest))
  }

  /** Keys strictly increase in every object. */
  ghost predicate Normal(v: Raw) {
    match v
    case Arr(items) => NormalItems(items)
    case Obj(fields) => NormalFields(fields)
    case _ => true
  }

  ghost predicate NormalItems(i: Items) {
    i.Cons? ==> Normal(i.head) && NormalItems(i.tail)
  }

  ghost predicate NormalFields(f: Fields) {
    f.Field? ==>
      && Normal(f.value)
      && NormalFields(f.rest)
      && (f.rest.Field? ==> Before(f.key, f.rest.key))
  }

  lemma {:induction false} InsertKeepsNormal(key: string, value: Raw, f: Fields)
    requires NormalFields(f) && Normal(value) && !HasKey(f, key)
    ensures NormalFields(Insert(key, value, f))
  {
    if f.Field? {
      BeforeIsTotal(f.key, key);
      if Before(f.key, key) {
        InsertKeepsNormal(key, value, f.rest);
      }
    }
  }

  lemma {:induction false} InsertKeys(key: string, value: Raw, f: Fields, k: string)
    ensures HasKey(Insert(key, value, f), k) <==> k == key || HasKey(f, k)
  {
    if f.Field? && Before(f.key, key) {
      InsertKeys(key, value, f.rest, k);
    }
  }

  lemma {:induction false} InsertMeaning(key: string, value: Raw, f: Fields)
    requires !HasKey(f, key)
    ensures FieldMeanings(Insert(key, value, f)) == FieldMeanings(f)[key := MeaningOf(value)]
  {
    if f.Field? && Before(f.key, key) {
      InsertMeaning(key, value, f.rest);
    }
  }

  lemma {:induction false} NormalizeSorts(v: Raw)
    requires DistinctKeys(v)
    ensures Normal(Normalize(v)) && MeaningOf(Normalize(v)) == MeaningOf(v)
  {
    match v
    case Arr(items) => NormalizeItemsSorts(items);
    case Obj(fields) => NormalizeFieldsSorts(fields);
    case _ =>
  }

  lemma {:induction false} NormalizeItemsSorts(i: Items)
    requires DistinctKeysItems(i)
    ensures NormalItems(NormalizeItems(i)) && ItemMeanings(NormalizeItems(i)) == ItemMeanings(i)
  {
    if i.Cons? {
      NormalizeSorts(i.head);
      NormalizeItemsSorts(i.tail);
    }
  }

  lemma {:induction false} NormalizeFieldsSorts(f: Fields)
    requires DistinctKeysFields(f)
    ensures NormalFields(NormalizeFields(f))
    ensures FieldMeanings(NormalizeFields(f)) == FieldMeanings(f)
    ensures forall k :: HasKey(NormalizeFields(f), k) <==> HasKey(f, k)
  {
    if f.Field? {
      NormalizeSorts(f.value);
      NormalizeFieldsSorts(f.rest);
      var g := NormalizeFields(f.rest);
      InsertKeepsNormal(f.key, Normalize(f.value), g);
      InsertMeaning(f.key, Normalize(f.value), g);
      forall k ensures HasKey(NormalizeFields(f), k) <==> HasKey(f, k) {
        InsertKeys(f.key, Normalize(f.value), g, k);
      }
    }
  }

  // ------------------------------------------- a normal value is its meaning

  lemma {:induction false} KeysAfterFirst(f: Fields, k: string)
    requires f.Field? && NormalFields(f) && HasKey(f.rest, k)
    ensures Before(f.key, k)
    decreases f
  {
    if f.rest.key != k {
      KeysAfterFirst(f.rest, k);
      BeforeIsTransitive(f.key, f.rest.key, k);
    }
  }

  lemma {:induction false} KeysAreTheDomain(f: Fields, k: string)
    ensures HasKey(f, k) <==> k in FieldMeanings(f)
  {
    if f.Field? {
      KeysAreTheDomain(f.rest, k);
    }
  }

  lemma {:induction false} NormalIsUnique(v: Raw, w: Raw)
    requires Normal(v) && Normal(w) && MeaningOf(v) == MeaningOf(w)
    ensures v == w
    decreases v
  {
    match v
    case Arr(items) => NormalItemsAreUnique(items, w.items);
    case Obj(fields) => NormalFieldsAreUnique(fields, w.fields);
    case _ =>
  }

  lemma {:induction false} NormalItemsAreUnique(i: Items, j: Items)
    requires NormalItems(i) && NormalItems(j) && ItemMeanings(i) == ItemMeanings(j)
    ensures i == j
    decreases i
  {
    if i.Cons? && j.Cons? {
      assert ItemMeanings(i)[0] == MeaningOf(i.head) && ItemMeanings(j)[0] == MeaningOf(j.head);
      assert ItemMeanings(i)[1..] == ItemMeanings(i.tail) && ItemMeanings(j)[1..] == ItemMeanings(j.tail);
      NormalIsUnique(i.head, j.head);
      NormalItemsAreUnique(i.tail, j.tail);
    }
  }

  /** Two sorted field lists with one map start with the same key. */
  lemma {:induction false} FirstKeysAgree(f: Fields, g: Fields)
    requires NormalFields(f) && NormalFields(g) && FieldMeanings(f) == FieldMeanings(g)
    requires f.Field?
    ensures g.Field? && f.key == g.key
  {
    KeysAreTheDomain(f, f.key);
    KeysAreTheDomain(g, f.key);
    KeysAreTheDomain(g, g.key);
    KeysAreTheDomain(f, g.key);
    if f.key != g.key {
      KeysAfterFirst(f, g.key);
      KeysAfterFirst(g, f.key);
      BeforeIsTransitive(f.key, g.key, f.key);
      BeforeIsIrreflexive(f.key);
    }
  }

  lemma {:induction false} NormalFieldsAreUnique(f: Fields, g: Fields)
    requires NormalFields(f) && NormalFields(g) && FieldMeanings(f) == FieldMeanings(g)
    ensures f == g
    decreases f
  {
    if f.End? {
      NoFieldsNoMeaning(g);
    } else {
      FirstKeysAgree(f, g);
      var k := f.key;
      assert FieldMeanings(f)[k] == MeaningOf(f.value) && FieldMeanings(g)[k] == MeaningOf(g.value);
      NormalIsUnique(f.value, g.value);
      FirstKeyIsNotRepeated(f);
      FirstKeyIsNotRepeated(g);
      assert FieldMeanings(f.rest) == FieldMeanings(f) - {k};
      assert FieldMeanings(g.rest) == FieldMeanings(g) - {k};
      NormalFieldsAreUnique(f.rest, g.rest);
    }
  }

  lemma {:induction false} NoFieldsNoMeaning(f: Fields)
    ensures FieldMeanings(f) == map[] ==> f.End?
  {
    if f.Field? {
      assert f.key in FieldMeanings(f);
    }
  }

  lemma {:induction false} FirstKeyIsNotRepeated(f: Fields)
    requires f.Field? && NormalFields(f)
    ensures f.key !in FieldMeanings(f.rest)
  {
    KeysAreTheDomain(f.rest, f.key);
    if HasKey(f.rest, f.key) {
      KeysAfterFirst(f, f.key);
      BeforeIsIrreflexive(f.key);
    }
  }

  // ------------------------------------------------------------- text

  function DigitChar(d: int): (c: char)
    requires 0 <= d < 10
    ensures '0' <= c <= '9' && c as int - '0' as int == d
  {
    ('0' as int + d) as char
  }

  function NatText(n: nat): (s: string)
    ensures s != []
  {
    if n < 10 then [DigitChar(n)] else NatText(n / 10) + [DigitChar(n % 10)]
  }

  function IntText(n: int): string {
    if n < 0 then ['-'] + NatText(-n) else NatText(n)
  }

  function HexChar(d: int): (c: char)
    requires 0 <= d < 16
    ensures '0' <= c <= '9' || 'a' <= c <= 'f'
  {
    if d < 10 then ('0' as int + d) as char else ('a' as int + d - 10) as char
  }

  /** `\uXXXX` for one 16-bit unit. */
  function UnitEscape(u: int): (s: string)
    requires 0 <= u < 0x1_0000
    ensures |s| == 6
  {
    ['\\', 'u', HexChar(u / 0x1000), HexChar(u / 0x100 % 0x10), HexChar(u / 0x10 % 0x10), HexChar(u % 0x10)]
  }

  /** ASCII-only escapes; a character outside the basic plane becomes a
      surrogate pair. */
  function EscapeChar(c: char): string {
    if c == '"' then "\\\""
    else if c == '\\' then "\\\\"
    else if c == '\n' then "\\n"
    else if c == '\r' then "\\r"
    else if c == '\t' then "\\t"
    else if c == 8 as char then "\\b"
    else if c == 12 as char then "\\f"
    else if ' ' <= c <= '~' then [c]
    else if c as int < 0x1_0000 then UnitEscape(c as int)
    else
      var v := c as int - 0x1_0000;
      UnitEscape(0xD800 + v / 0x400) + UnitEscape(0xDC00 + v % 0x400)
  }

  function Escape(s: string): string {
    if s == [] then [] else EscapeChar(s[0]) + Escape(s[1..])
  }

  function Quote(s: string): string {
    ['"'] + (Escape(s) + ['"'])
  }

  function Text(v: Raw): string {
    match v
    case Null => "null"
    case Bool(b) => if b then "true" else "false"
    case Int(n) => IntText(n)
    case Str(s) => Quote(s)
    case Arr(items) => ['['] + ItemsText(items)
    case Obj(fields) => ['{'] + FieldsText(fields)
  }

  /** The items and the closing bracket. */
  function ItemsText(i: Items): string {
    match i
    case Nil => [']']
    case Cons(head, Nil) => Text(head) + [']']
    case Cons(head, tail) => Text(head) + ([','] + ItemsText(tail))
  }

  /** The members and the closing brace. */
  function FieldsText(f: Fields): string {
    match f
    case End => ['}']
    case Field(key, value, End) => Quote(key) + ([':'] + (Text(value) + ['}']))
    case Field(key, value, rest) => Quote(key) + ([':'] + (Text(value) + ([','] + FieldsText(rest))))
  }

  function Canonical(v: Raw): string {
    Text(Normalize(v))
  }

  // ------------------------------------------------- the text is unambiguous

  /** What follows a value never continues a number. */
  predicate Stops(r: string) {
    r == [] || !IsDigit(r[0])
  }

  function NatValue(s: string): int {
    if s == [] then 0 else NatValue(s[..|s| - 1]) * 10 + (s[|s| - 1] as int - '0' as int)
  }

  lemma {:induction false} NatTextReadsBack(n: nat)
    ensures NatValue(NatText(n)) == n
    ensures forall i | 0 <= i < |NatText(n)| :: IsDigit(NatText(n)[i])
  {
    var s := NatText(n);
    if n < 10 {
      assert s[..0] == [];
    } else {
      NatTextReadsBack(n / 10);
      assert s[..|s| - 1] == NatText(n / 10);
    }
  }

  /** Where a shorter run of digits ends, a longer one still has a digit. */
  lemma {:induction false} LongerDigits(a: string, b: string, r: string, s: string)
    requires a + r == b + s && forall i | 0 <= i < |b| :: IsDigit(b[i])
    ensures |a| < |b| ==> r != [] && IsDigit(r[0])
  {
    if |a| < |b| {
      assert (a + r)[|a|] == b[|a|];
    }
  }

  lemma {:induction false} NatTextSplits(n: nat, m: nat, r: string, s: string)
    requires NatText(n) + r == NatText(m) + s && Stops(r) && Stops(s)
    ensures n == m && r == s
  {
    NatTextReadsBack(n);
    NatTextReadsBack(m);
    LongerDigits(NatText(n), NatText(m), r, s);
    LongerDigits(NatText(m), NatText(n), s, r);
    SameLengthSplits(NatText(n), NatText(m), r, s);
  }

  lemma {:induction false} SameLengthSplits(a: string, b: string, r: string, s: string)
    requires a + r == b + s && |a| == |b|
    ensures a == b && r == s
  {
    assert a == (a + r)[..|a|] && b == (b + s)[..|a|];
    assert r == (a + r)[|a|..] && s == (b + s)[|a|..];
  }

  lemma {:induction false} IntTextSigned(n: int, r: string)
    ensures n < 0 ==> IntText(n) + r == ['-'] + (NatText(-n) + r)
    ensures n >= 0 ==> IsDigit((IntText(n) + r)[0])
  {
    if n >= 0 {
      NatTextReadsBack(n);
    }
  }

  lemma {:induction false} IntTextSplits(n: int, m: int, r: string, s: string)
    requires IntText(n) + r == IntText(m) + s && Stops(r) && Stops(s)
    ensures n == m && r == s
  {
    IntTextSigned(n, r);
    IntTextSigned(m, s);
    if n < 0 && m < 0 {
      SameLengthSplits(['-'], ['-'], NatText(-n) + r, NatText(-m) + s);
      NatTextSplits(-n, -m, r, s);
    } else if n >= 0 && m >= 0 {
      NatTextSplits(n, m, r, s);
    }
  }

  function HexValue(c: char): int {
    if c <= '9' then c as int - '0' as int else c as int - 'a' as int + 10
  }

  function UnitValue(s: string): int
    requires |s| >= 6
  {
    HexValue(s[2]) * 0x1000 + HexValue(s[3]) * 0x100 + HexValue(s[4]) * 0x10 + HexValue(s[5])
  }

  lemma {:induction false} HexReadsBack(d: int)
    requires 0 <= d < 16
    ensures HexValue(HexChar(d)) == d
  {
  }

  lemma {:induction false} UnitReadsBack(u: int, r: string)
    requires 0 <= u < 0x1_0000
    ensures UnitValue(UnitEscape(u) + r) == u
  {
    HexReadsBack(u / 0x1000);
    HexReadsBack(u / 0x100 % 0x10);
    HexReadsBack(u / 0x10 % 0x10);
    HexReadsBack(u % 0x10);
    HexDigitsAddUp(u);
  }

  lemma {:induction false} HexDigitsAddUp(u: int)
    requires 0 <= u < 0x1_0000
    ensures u / 0x1000 * 0x1000 + u / 0x100 % 0x10 * 0x100 + u / 0x10 % 0x10 * 0x10 + u % 0x10 == u
  {
    assert u / 0x100 == u / 0x1000 * 0x10 + u / 0x100 % 0x10;
    assert u / 0x10 == u / 0x100 * 0x10 + u / 0x10 % 0x10;
  }

  /** The shapes of an escape, told apart by its first characters. */
  datatype Shape = Plain | Short | Unit | Pair

  function ShapeOf(c: char): Shape {
    if c == '"' || c == '\\' || c == '\n' || c == '\r' || c == '\t' || c == 8 as char || c == 12 as char then Short
    else if ' ' <= c <= '~' then Plain
    else if c as int < 0x1_0000 then Unit
    else Pair
  }

  lemma {:induction false} EscapeHead(c: char)
    ensures EscapeChar(c) != [] && EscapeChar(c)[0] != '"'
    ensures ShapeOf(c) == Plain ==> EscapeChar(c) == [c] && c != '\\'
    ensures ShapeOf(c) != Plain ==> |EscapeChar(c)| >= 2 && EscapeChar(c)[0] == '\\'
    ensures ShapeOf(c) == Short ==> |EscapeChar(c)| == 2 && EscapeChar(c)[1] != 'u'
    ensures ShapeOf(c) == Unit ==> |EscapeChar(c)| == 6 && EscapeChar(c)[1] == 'u'
    ensures ShapeOf(c) == Pair ==> |EscapeChar(c)| == 12 && EscapeChar(c)[1] == 'u'
  {
  }

  function HighUnit(c: char): (u: int)
    requires c as int >= 0x1_0000
    ensures 0xD800 <= u < 0xDC00
  {
    0xD800 + (c as int - 0x1_0000) / 0x400
  }

  function LowUnit(c: char): (u: int)
    requires c as int >= 0x1_0000
    ensures 0xDC00 <= u < 0xE000
  {
    0xDC00 + (c as int - 0x1_0000) % 0x400
  }

  lemma {:induction false} UnitHead(c: char, r: string)
    requires ShapeOf(c) == Unit
    ensures UnitValue(EscapeChar(c) + r) == c as int
  {
    UnitReadsBack(c as int, r);
  }

  lemma {:induction false} PairHead(c: char, r: string)
    requires ShapeOf(c) == Pair
    ensures UnitValue(EscapeChar(c) + r) == HighUnit(c)
    ensures UnitValue((EscapeChar(c) + r)[6..]) == LowUnit(c)
  {
    var hi, lo := UnitEscape(HighUnit(c)), UnitEscape(LowUnit(c));
    assert EscapeChar(c) == hi + lo;
    UnitReadsBack(HighUnit(c), lo + r);
    UnitReadsBack(LowUnit(c), r);
    Regroup(hi, lo, r);
    SplitConcat(hi, lo + r);
  }

  /** Two escapes at the head of one text have one shape. */
  lemma {:induction false} SameShape(c: char, d: char, r: string, s: string)
    requires EscapeChar(c) + r == EscapeChar(d) + s
    ensures ShapeOf(c) == ShapeOf(d)
  {
    EscapeHead(c);
    EscapeHead(d);
    assert EscapeChar(c)[0] == (EscapeChar(c) + r)[0] == EscapeChar(d)[0];
    if ShapeOf(c) != Plain && ShapeOf(d) != Plain {
      assert EscapeChar(c)[1] == (EscapeChar(c) + r)[1] == EscapeChar(d)[1];
      if ShapeOf(c) == Unit { UnitHead(c, r); }
      if ShapeOf(d) == Unit { UnitHead(d, s); }
      if ShapeOf(c) == Pair { PairHead(c, r); }
      if ShapeOf(d) == Pair { PairHead(d, s); }
    }
  }

  lemma {:induction false} EscapeCharSplits(c: char, d: char, r: string, s: string)
    requires EscapeChar(c) + r == EscapeChar(d) + s
    ensures c == d && r == s
  {
    SameShape(c, d, r, s);
    EscapeHead(c);
    EscapeHead(d);
    SameLengthSplits(EscapeChar(c), EscapeChar(d), r, s);
    match ShapeOf(c)
    case Plain =>
    case Short =>
    case Unit =>
      UnitHead(c, r);
      UnitHead(d, s);
    case Pair =>
      PairHead(c, r);
      PairHead(d, s);
  }

  /** A quoted string's body, its closing quote and what follows. */
  function Body(s: string, q: string): (t: string)
    ensures t != []
  {
    Escape(s) + (['"'] + q)
  }

  lemma {:induction false} BodyUnfolds(s: string, q: string)
    ensures s == [] ==> Body(s, q) == ['"'] + q
    ensures s != [] ==> Body(s, q) == EscapeChar(s[0]) + Body(s[1..], q) && Body(s, q)[0] != '"'
  {
    if s == [] {
      assert Escape(s) == [];
    } else {
      EscapeHead(s[0]);
      assert Escape(s) == EscapeChar(s[0]) + Escape(s[1..]);
    }
  }

  lemma {:induction false} BodySplits(s: string, t: string, q: string, r: string)
    requires Body(s, q) == Body(t, r)
    ensures s == t && q == r
    decreases |s|
  {
    BodyUnfolds(s, q);
    BodyUnfolds(t, r);
    if s == [] || t == [] {
      SameLengthSplits(['"'], ['"'], q, r);
    } else {
      EscapeCharSplits(s[0], t[0], Body(s[1..], q), Body(t[1..], r));
      BodySplits(s[1..], t[1..], q, r);
      assert s == [s[0]] + s[1..] && t == [t[0]] + t[1..];
    }
  }

  lemma {:induction false} QuoteSplits(s: string, t: string, q: string, r: string)
    requires Quote(s) + q == Quote(t) + r
    ensures s == t && q == r
  {
    assert Quote(s) + q == ['"'] + Body(s, q);
    assert Quote(t) + r == ['"'] + Body(t, r);
    SameLengthSplits(['"'], ['"'], Body(s, q), Body(t, r));
    BodySplits(s, t, q, r);
  }

  /** The first character of a value's text tells its constructor. */
  lemma {:induction false} FirstCharacter(v: Raw)
    ensures Text(v) != []
    ensures v.Null? <==> Text(v)[0] == 'n'
    ensures v == Bool(true) <==> Text(v)[0] == 't'
    ensures v == Bool(false) <==> Text(v)[0] == 'f'
    ensures v.Int? <==> Text(v)[0] == '-' || IsDigit(Text(v)[0])
    ensures v.Str? <==> Text(v)[0] == '"'
    ensures v.Arr? <==> Text(v)[0] == '['
    ensures v.Obj? <==> Text(v)[0] == '{'
    ensures Text(v)[0] != ']'
  {
    if v.Int? {
      NatTextReadsBack(if v.n < 0 then -v.n else v.n);
    }
  }

  lemma {:induction false} BracketText(v: Raw, r: string)
    ensures v.Arr? ==> Text(v) + r == ['['] + (ItemsText(v.items) + r)
    ensures v.Obj? ==> Text(v) + r == ['{'] + (FieldsText(v.fields) + r)
  {
  }

  lemma {:induction false} SameConstructor(v: Raw, w: Raw, r: string, s: string)
    requires Text(v) + r == Text(w) + s
    ensures v.Null? == w.Null? && v.Bool? == w.Bool? && v.Int? == w.Int?
    ensures v.Str? == w.Str? && v.Arr? == w.Arr? && v.Obj? == w.Obj?
    ensures v.Null? || v.Bool? ==> v == w
  {
    FirstCharacter(v);
    FirstCharacter(w);
    assert Text(v)[0] == (Text(v) + r)[0] == Text(w)[0];
    assert v.Bool? ==> v == Bool(true) || v == Bool(false);
    assert w.Bool? ==> w == Bool(true) || w == Bool(false);
  }

  lemma {:induction false} TextSplits(v: Raw, w: Raw, r: string, s: string)
    requires Text(v) + r == Text(w) + s && Stops(r) && Stops(s)
    ensures v == w && r == s
    decreases v
  {
    SameConstructor(v, w, r, s);
    BracketText(v, r);
    BracketText(w, s);
    match v
    case Null => SameLengthSplits(Text(v), Text(w), r, s);
    case Bool(_) => SameLengthSplits(Text(v), Text(w), r, s);
    case Int(n) => IntTextSplits(n, w.n, r, s);
    case Str(t) => QuoteSplits(t, w.s, r, s);
    case Arr(items) =>
      SameLengthSplits(['['], ['['], ItemsText(items) + r, ItemsText(w.items) + s);
      ItemsTextSplits(items, w.items, r, s);
    case Obj(fields) =>
      SameLengthSplits(['{'], ['{'], FieldsText(fields) + r, FieldsText(w.fields) + s);
      FieldsTextSplits(fields, w.fields, r, s);
  }

  /** What the text of a non-empty item list has after its first item. */
  function AfterItem(tail: Items, r: string): (a: string)
    ensures Stops(a)
  {
    if tail.Nil? then [']'] + r else [','] + (ItemsText(tail) + r)
  }

  function AfterField(rest: Fields, r: string): (a: string)
    ensures Stops(a)
  {
    if rest.End? then ['}'] + r else [','] + (FieldsText(rest) + r)
  }

  lemma {:induction false} ItemsTextUnfolds(i: Items, r: string)
    requires i.Cons?
    ensures ItemsText(i) + r == Text(i.head) + AfterItem(i.tail, r)
  {
  }

  lemma {:induction false} FieldsTextUnfolds(f: Fields, r: string)
    requires f.Field?
    ensures FieldsText(f) + r == Quote(f.key) + ([':'] + (Text(f.value) + AfterField(f.rest, r)))
  {
    var end := if f.rest.End? then ['}'] else [','] + FieldsText(f.rest);
    assert FieldsText(f) == Quote(f.key) + ([':'] + (Text(f.value) + end));
    Regroup(Quote(f.key), [':'] + (Text(f.value) + end), r);
    Regroup([':'], Text(f.value) + end, r);
    Regroup(Text(f.value), end, r);
    if f.rest.Field? {
      Regroup([','], FieldsText(f.rest), r);
    }
  }

  lemma {:induction false} ItemsTextSplits(i: Items, j: Items, r: string, s: string)
    requires ItemsText(i) + r == ItemsText(j) + s
    ensures i == j && r == s
    decreases i
  {
    if i.Cons? {
      FirstCharacter(i.head);
      ItemsTextUnfolds(i, r);
    }
    if j.Cons? {
      FirstCharacter(j.head);
      ItemsTextUnfolds(j, s);
    }
    if i.Nil? || j.Nil? {
      assert (ItemsText(i) + r)[0] == (ItemsText(j) + s)[0];
      assert i.Nil? && j.Nil?;
      SameLengthSplits([']'], [']'], r, s);
    } else {
      TextSplits(i.head, j.head, AfterItem(i.tail, r), AfterItem(j.tail, s));
      assert AfterItem(i.tail, r)[0] == AfterItem(j.tail, s)[0];
      assert AfterItem(i.tail, r)[1..] == AfterItem(j.tail, s)[1..];
      if i.tail.Nil? {
        assert r == AfterItem(i.tail, r)[1..] && s == AfterItem(j.tail, s)[1..];
      } else {
        assert AfterItem(i.tail, r)[1..] == ItemsText(i.tail) + r;
        assert AfterItem(j.tail, s)[1..] == ItemsText(j.tail) + s;
        ItemsTextSplits(i.tail, j.tail, r, s);
      }
    }
  }

  lemma {:induction false} FieldsTextSplits(f: Fields, g: Fields, r: string, s: string)
    requires FieldsText(f) + r == FieldsText(g) + s
    ensures f == g && r == s
    decreases f
  {
    if f.Field? {
      FieldsTextUnfolds(f, r);
    }
    if g.Field? {
      FieldsTextUnfolds(g, s);
    }
    if f.End? || g.End? {
      assert (FieldsText(f) + r)[0] == (FieldsText(g) + s)[0];
      assert f.End? && g.End?;
      SameLengthSplits(['}'], ['}'], r, s);
    } else {
      var x, y := Text(f.value) + AfterField(f.rest, r), Text(g.value) + AfterField(g.rest, s);
      QuoteSplits(f.key, g.key, [':'] + x, [':'] + y);
      SameLengthSplits([':'], [':'], x, y);
      TextSplits(f.value, g.value, AfterField(f.rest, r), AfterField(g.rest, s));
      assert AfterField(f.rest, r)[0] == AfterField(g.rest, s)[0];
      assert AfterField(f.rest, r)[1..] == AfterField(g.rest, s)[1..];
      if f.rest.End? {
        assert r == AfterField(f.rest, r)[1..] && s == AfterField(g.rest, s)[1..];
      } else {
        assert AfterField(f.rest, r)[1..] == FieldsText(f.rest) + r;
        assert AfterField(g.rest, s)[1..] == FieldsText(g.rest) + s;
        FieldsTextSplits(f.rest, g.rest, r, s);
      }
    }
  }

  /** The canonical text is injective on what a value denotes, and does not
      depend on the insertion order of keys. */
  lemma {:induction false} CanonicalIsMeaning(v: Value, w: Value)
    ensures Canonical(v) == Canonical(w) <==> MeaningOf(v) == MeaningOf(w)
  {
    NormalizeSorts(v);
    NormalizeSorts(w);
    if Canonical(v) == Canonical(w) {
      assert Text(Normalize(v)) + [] == Text(Normalize(w)) + [];
      TextSplits(Normalize(v), Normalize(w), [], []);
    }
    if MeaningOf(v) == MeaningOf(w) {
      NormalIsUnique(Normalize(v), Normalize(w));
    }
  }
}
