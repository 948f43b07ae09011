/** internal/proxy: Cache-Control directives and the freshness lifetime taken from them. */
module CacheControl {
  import opened Text

  const CC_NO_STORE := "no-store"
  const CC_NO_CACHE := "no-cache"
  const CC_PRIVATE := "private"
  const CC_MAX_AGE := "max-age"
  const CC_S_MAX_AGE := "s-maxage"

  /** `strings.Cut(s, "=")`: text before and after the first '=', or all of it and nothing. */
  function Cut(s: string): (string, string) {
    match IndexOf(s, '=')
    case None => (s, "")
    case Some(k) => (s[..k], s[k + 1..])
  }

  predicate IsQuote(c: char) {
    c == '"'
  }

  /** Name and value of one comma-separated part. */
  function Directive(part: string): (string, string) {
    var (name, value) := Cut(TrimSpace(part));
    (ToLower(TrimSpace(name)), Trim(TrimSpace(value), IsQuote))
  }

  function Directives(parts: seq<string>): map<string, string> {
    if |parts| == 0 then map[]
    else
      var n := |parts| - 1;
      var (name, value) := Directive(parts[n]);
      if name == "" then Directives(parts[..n]) else Directives(parts[..n])[name := value]
  }

  function Parse(header: string): map<string, string> {
    if header == "" then map[] else Directives(Split(header, ','))
  }

  lemma {:induction false} OneMoreDirective(parts: seq<string>, i: nat)
    requires i < |parts|
    ensures var (name, value) := Directive(parts[i]);
            Directives(parts[..i + 1]) == if name == "" then Directives(parts[..i]) else Directives(parts[..i])[name := value]
  {
    assert parts[..i + 1][..i] == parts[..i];
  }

  method ParseCacheControl(header: string) returns (directives: map<string, string>)
    ensures directives == Parse(header)
  {
    directives := map[];
    if header == "" {
      return;
    }
    var parts := Split(header, ',');
    for i := 0 to |parts|
      invariant directives == Directives(parts[..i])
    {
      OneMoreDirective(parts, i);
      var (name, value) := Directive(parts[i]);
      if name == "" {
        continue;
      }
      directives := directives[name := value];
    }
    assert parts[..|parts|] == parts;
  }

  predicate ResponseCacheable(cc: map<string, string>) {
    CC_NO_STORE !in cc && CC_PRIVATE !in cc
  }

  // ----- lifetimes ------------------------------------------------------------------------------

  const SECOND := 1_000_000_000            // time.Second in nanoseconds
  const MAX_INT64 := 0x7FFF_FFFF_FFFF_FFFF
  const TWO_64 := 0x1_0000_0000_0000_0000

  /** Two's-complement wrap-around of `int64` arithmetic. */
  function Wrap64(x: int): int {
    (x + MAX_INT64 + 1) % TWO_64 - MAX_INT64 - 1
  }

  function Unsigned(s: string): string {
    if |s| > 0 && s[0] in {'+', '-'} then s[1..] else s
  }

  /** Anything but digits behind an optional sign. */
  predicate Malformed(s: string) {
    |Unsigned(s)| == 0 || exists i :: 0 <= i < |Unsigned(s)| && !IsDigit(Unsigned(s)[i])
  }

  /** `strconv.Atoi` on a 64-bit platform. */
  function Atoi(s: string): Option<int> {
    var digits := Unsigned(s);
    if Malformed(s) then None
    else
      var n: int := DigitsValue(digits);
      var v := if s[0] == '-' then -n else n;
      if -MAX_INT64 - 1 <= v <= MAX_INT64 then Some(v) else None
  }

  /** The lifetime one directive yields, if it is usable. */
  function DirectiveTtl(cc: map<string, string>, key: string): Option<int> {
    if key in cc && Atoi(cc[key]).Some? && Atoi(cc[key]).value >= 0
    then Some(Wrap64(Atoi(cc[key]).value * SECOND))
    else None
  }

  function Ttl(cc: map<string, string>, fallback: int): int {
    match DirectiveTtl(cc, CC_S_MAX_AGE)
    case Some(t) => t
    case None =>
      match DirectiveTtl(cc, CC_MAX_AGE)
      case Some(t) => t
      case None => fallback
  }

  method CacheControlTtl(cc: map<string, string>, fallback: int) returns (ttl: int)
    ensures ttl == Ttl(cc, fallback)
  {
    var keys := [CC_S_MAX_AGE, CC_MAX_AGE];
    for i := 0 to |keys|
      invariant i > 0 ==> DirectiveTtl(cc, CC_S_MAX_AGE).None?
      invariant i > 1 ==> DirectiveTtl(cc, CC_MAX_AGE).None?
    {
      assert keys[i] == if i == 0 then CC_S_MAX_AGE else CC_MAX_AGE;
      if keys[i] in cc {
        var secs := Atoi(cc[keys[i]]);
        if secs.Some? && secs.value >= 0 {
          return Wrap64(secs.value * SECOND);
        }
      }
    }
    return fallback;
  }

  lemma AtoiOfDecimal(n: nat)
    ensures Atoi(Decimal(n)) == if n <= MAX_INT64 then Some(n) else None
  {
    DigitsOfDecimal(n);
    assert IsDigit(Decimal(n)[0]);
  }

  /** A decimal second count that `Atoi` accepts gives exactly that many seconds if and only if
      the product fits 64 bits. */
  lemma TtlExact(cc: map<string, string>, key: string, n: nat)
    requires key in cc && cc[key] == Decimal(n) && n <= 0x7FFF_FFFF_FFFF_FFFF
    ensures DirectiveTtl(cc, key).Some?
    ensures DirectiveTtl(cc, key).value == n * 1_000_000_000 <==> n <= 9_223_372_036
  {
    AtoiOfDecimal(n);
  }

  lemma WrapOnce(x: int)
    requires MAX_INT64 < x <= TWO_64
    ensures Wrap64(x) == x - TWO_64
  {}

  /** One second more, and the lifetime is negative: the entry is stored already expired. */
  lemma TtlOverflows(cc: map<string, string>, key: string, n: nat)
    requires key in cc && cc[key] == Decimal(n) && n == 9_223_372_037
    ensures DirectiveTtl(cc, key) == Some(-9_223_372_036_709_551_616)
  {
    AtoiOfDecimal(n);
    WrapOnce(n * SECOND);
  }

  predicate OnlyDigits(s: string) {
    forall i :: 0 <= i < |s| ==> '0' <= s[i] <= '9'
  }

  /** A second count: decimal digits behind an optional sign. */
  predicate SecondCount(s: string, negative: bool, n: nat) {
    && |s| > 0 && negative == (s[0] == '-')
    && var digits := if s[0] == '-' || s[0] == '+' then s[1..] else s;
    && |digits| > 0 && OnlyDigits(digits)
    && n == DigitsValue(digits)
  }

  /** Texts that are skipped: no second count, a negative one (but "-0" is none), or one beyond 64 bits. */
  ghost predicate Unusable(s: string) {
    forall negative: bool, n: nat :: SecondCount(s, negative, n) ==> (negative && n > 0) || n > 9_223_372_036_854_775_807
  }

  lemma {:induction false} CountIsWellFormed(s: string, negative: bool, n: nat)
    requires SecondCount(s, negative, n)
    ensures !Malformed(s) && n == DigitsValue(Unsigned(s))
  {
    assert OnlyDigits(Unsigned(s));
  }

  lemma {:induction false} UsableText(s: string)
    ensures Atoi(s).Some? && Atoi(s).value >= 0 <==> !Unusable(s)
  {
    if !Malformed(s) {
      assert OnlyDigits(Unsigned(s));
      assert SecondCount(s, s[0] == '-', DigitsValue(Unsigned(s)));
    }
    forall negative: bool, n: nat | SecondCount(s, negative, n) ensures !Malformed(s) && n == DigitsValue(Unsigned(s)) {
      CountIsWellFormed(s, negative, n);
    }
  }

  /** A directive yields a lifetime exactly when it is there and its value is usable; then it is the
      count in nanoseconds, up to the wrap-around of 64 bits. */
  lemma {:induction false} UsableIff(cc: map<string, string>, key: string)
    ensures DirectiveTtl(cc, key).Some? <==> key in cc && !Unusable(cc[key])
  {
    if key in cc {
      UsableText(cc[key]);
    }
  }

  lemma {:induction false} UsableValue(cc: map<string, string>, key: string, negative: bool, n: nat)
    requires key in cc && !Unusable(cc[key]) && SecondCount(cc[key], negative, n)
    ensures var t := DirectiveTtl(cc, key);
            && t.Some? && (t.value - n * 1_000_000_000) % 18_446_744_073_709_551_616 == 0
            && -9_223_372_036_854_775_808 <= t.value <= 9_223_372_036_854_775_807
  {
    UsableIff(cc, key);
    CountIsWellFormed(cc[key], negative, n);
    WrapsAround(n * SECOND);
  }

  lemma {:induction false} WrapsAround(x: int)
    ensures (Wrap64(x) - x) % 18_446_744_073_709_551_616 == 0
    ensures -9_223_372_036_854_775_808 <= Wrap64(x) <= 9_223_372_036_854_775_807
  {}

  /** An unusable s-maxage counts as absent, and max-age decides; if that is unusable too, the fallback
      does. */
  lemma {:induction false} UnusableFallsThrough(cc: map<string, string>, fallback: int)
    requires "s-maxage" in cc && Unusable(cc["s-maxage"])
    ensures Ttl(cc, fallback) == Ttl(cc - {"s-maxage"}, fallback)
    ensures "max-age" in cc && Unusable(cc["max-age"]) ==> Ttl(cc, fallback) == fallback
  {
    UsableIff(cc, "s-maxage");
    UsableIff(cc, "max-age");
    assert CC_MAX_AGE[0] != CC_S_MAX_AGE[0];
    assert DirectiveTtl(cc - {"s-maxage"}, "max-age") == DirectiveTtl(cc, "max-age");
  }

  // ----- round trip ---------------------------------------------------------------------------

  /** One way of writing a directive: optional space, any letter case, optional quotes. */
  datatype Spelling = Spelling(lead: string, name: string, gap: string, value: Option<Value>, tail: string)
  datatype Value = Value(gap: string, quoted: bool, text: string)

  function Quoted(v: Value): string {
    if v.quoted then "\"" + v.text + "\"" else v.text
  }

  function Write(d: Spelling): string {
    match d.value
    case None => d.lead + d.name + (d.gap + d.tail)
    case Some(v) => d.lead + (d.name + d.gap + ['='] + (v.gap + Quoted(v))) + d.tail
  }

  predicate Tight(s: string) {
    |s| > 0 ==> !IsSpace(s[0]) && !IsSpace(s[|s| - 1])
  }

  /** Names and values free of the separators; an unquoted value cannot carry outer space. */
  predicate WellSpelled(d: Spelling) {
    && AllSpace(d.lead) && AllSpace(d.gap) && AllSpace(d.tail)
    && |d.name| > 0 && Tight(d.name) && Lacks(d.name, ',') && Lacks(d.name, '=')
    && (d.value.Some? ==>
          && AllSpace(d.value.value.gap)
          && Lacks(d.value.value.text, ',') && Lacks(d.value.value.text, '"')
          && (!d.value.value.quoted ==> Tight(d.value.value.text)))
  }

  function TextOf(d: Spelling): string {
    if d.value.Some? then d.value.value.text else ""
  }

  lemma SpaceLacks(s: string, c: char)
    requires AllSpace(s) && !IsSpace(c)
    ensures Lacks(s, c)
  {}

  lemma TrimSpaceAround(before: string, s: string, after: string)
    requires AllSpace(before) && AllSpace(after) && Tight(s)
    ensures TrimSpace(before + s + after) == s
  {
    TrimAround(before, s, after, IsSpace);
  }

  lemma TrimQuotes(v: Value)
    requires Lacks(v.text, '"')
    ensures Trim(Quoted(v), IsQuote) == v.text
  {
    if v.quoted {
      TrimAround("\"", v.text, "\"", IsQuote);
    } else {
      TrimAround("", v.text, "", IsQuote);
      assert "" + v.text + "" == v.text;
    }
  }

  lemma CutAtFirst(before: string, after: string)
    requires Lacks(before, '=')
    ensures Cut(before + ['='] + after) == (before, after)
  {
    IndexAfterPrefix(before, '=', after);
    var s := before + ['='] + after;
    assert s[..|before|] == before && s[|before| + 1..] == after;
  }

  lemma DirectiveOfWritten(d: Spelling)
    requires WellSpelled(d)
    ensures Directive(Write(d)) == (ToLower(d.name), TextOf(d))
  {
    TrimSpaceAround("", d.name, d.gap);
    assert "" + d.name + d.gap == d.name + d.gap;
    match d.value
    case None =>
      TrimSpaceAround(d.lead, d.name, d.gap + d.tail);
      TrimSpaceAround("", d.name, "");
      assert "" + d.name + "" == d.name;
    case Some(v) =>
      SpaceLacks(d.gap, '=');
      DirectiveWithValue(d, v);
  }

  lemma {:induction false} DirectiveWithValue(d: Spelling, v: Value)
    requires WellSpelled(d) && d.value == Some(v)
    requires Lacks(d.gap, '=') && TrimSpace(d.name + d.gap) == d.name
    ensures Directive(Write(d)) == (ToLower(d.name), v.text)
  {
    var before := d.name + d.gap;
    TrimQuotes(v);
    if |Quoted(v)| > 0 {
      WithValue(d.lead, before, v.gap, Quoted(v), d.tail);
    } else {
      WithoutValue(d.lead, before, v.gap, d.tail);
      Regroup(d.lead, before + ['='], v.gap, Quoted(v), d.tail);
    }
  }

  lemma {:induction false} Regroup(lead: string, core: string, gap: string, value: string, tail: string)
    requires |value| == 0
    ensures lead + (core + (gap + value)) + tail == lead + core + (gap + tail)
  {}

  lemma {:induction false} WithValue(lead: string, before: string, gap: string, value: string, tail: string)
    requires AllSpace(lead) && AllSpace(gap) && AllSpace(tail)
    requires |before| > 0 && !IsSpace(before[0]) && Lacks(before, '=') && |value| > 0 && Tight(value)
    ensures Directive(lead + (before + ['='] + (gap + value)) + tail) == (ToLower(TrimSpace(before)), Trim(value, IsQuote))
  {
    var core := before + ['='] + (gap + value);
    assert core[|core| - 1] == value[|value| - 1] && core[0] == before[0];
    TrimSpaceAround(lead, core, tail);
    CutAtFirst(before, gap + value);
    TrimSpaceAround(gap, value, "");
    assert gap + value + "" == gap + value;
  }

  lemma {:induction false} WithoutValue(lead: string, before: string, gap: string, tail: string)
    requires AllSpace(lead) && AllSpace(gap) && AllSpace(tail)
    requires |before| > 0 && !IsSpace(before[0]) && Lacks(before, '=')
    ensures Directive(lead + (before + ['=']) + (gap + tail)) == (ToLower(TrimSpace(before)), "")
  {
    var core := before + ['='];
    TrimSpaceAround(lead, core, gap + tail);
    CutAtFirst(before, "");
    assert core + "" == core;
  }

  function WriteAll(ds: seq<Spelling>): (r: seq<string>)
    ensures |r| == |ds| && forall i :: 0 <= i < |ds| ==> r[i] == Write(ds[i])
  {
    seq(|ds|, i requires 0 <= i < |ds| => Write(ds[i]))
  }

  /** A lower-case name, each letter in either case. */
  predicate Spells(s: string, name: string) {
    && |s| == |name|
    && forall i :: 0 <= i < |s| ==>
         !('A' <= name[i] <= 'Z') && (s[i] == name[i] || ('a' <= name[i] <= 'z' && s[i] as int + 32 == name[i] as int))
  }

  lemma {:induction false} LowerIffSpells(s: string, name: string)
    ensures ToLower(s) == name <==> Spells(s, name)
  {}

  /** What a list of directives means: the last occurrence of a name, in any case, wins. */
  function LastValue(ds: seq<Spelling>, name: string): Option<string> {
    if |ds| == 0 then None
    else
      var d := ds[|ds| - 1];
      if Spells(d.name, name) then Some(TextOf(d)) else LastValue(ds[..|ds| - 1], name)
  }

  /** A header line that is some rendering of a list of directives; the empty list is no line. */
  predicate WrittenAs(line: string, ds: seq<Spelling>) {
    && (forall i :: 0 <= i < |ds| ==> WellSpelled(ds[i]))
    && line == if |ds| == 0 then "" else Join(WriteAll(ds), ',')
  }

  function Find(m: map<string, string>, name: string): Option<string> {
    if name in m then Some(m[name]) else None
  }

  lemma {:induction false} DirectivesOfWritten(ds: seq<Spelling>, name: string)
    requires forall i :: 0 <= i < |ds| ==> WellSpelled(ds[i])
    ensures Find(Directives(WriteAll(ds)), name) == LastValue(ds, name)
  {
    if |ds| > 0 {
      var n := |ds| - 1;
      assert WriteAll(ds)[..n] == WriteAll(ds[..n]);
      DirectiveOfWritten(ds[n]);
      LowerIffSpells(ds[n].name, name);
      DirectivesOfWritten(ds[..n], name);
    }
  }

  lemma WrittenLacksComma(d: Spelling)
    requires WellSpelled(d)
    ensures Lacks(Write(d), ',') && |Write(d)| > 0
  {
    SpaceLacks(d.lead, ',');
    SpaceLacks(d.gap, ',');
    SpaceLacks(d.tail, ',');
    if d.value.Some? {
      SpaceLacks(d.value.value.gap, ',');
    }
  }

  /** Any rendering of a directive list parses to its meaning. */
  lemma ParseOfWritten(ds: seq<Spelling>, line: string, name: string)
    requires WrittenAs(line, ds)
    ensures Find(Parse(line), name) == LastValue(ds, name)
  {
    if |ds| > 0 {
      var parts := WriteAll(ds);
      forall i | 0 <= i < |parts| ensures Lacks(parts[i], ',') && |parts[i]| > 0 {
        WrittenLacksComma(ds[i]);
      }
      SplitOfJoin(parts, ',');
      DirectivesOfWritten(ds, name);
      assert |Join(parts, ',')| > 0;
    }
  }

  ghost predicate Decides(text: Option<string>, n: nat) {
    text.Some? && !Unusable(text.value) && (SecondCount(text.value, true, n) || SecondCount(text.value, false, n))
  }

  ghost predicate Silent(text: Option<string>) {
    text.None? || Unusable(text.value)
  }

  /** So many seconds in nanoseconds: exactly, as long as 64 bits hold them. */
  predicate Nanoseconds(n: nat, ttl: int) {
    && (n <= 9_223_372_036 ==> ttl == n * 1_000_000_000)
    && (ttl - n * 1_000_000_000) % 18_446_744_073_709_551_616 == 0
    && -9_223_372_036_854_775_808 <= ttl <= 9_223_372_036_854_775_807
  }

  ghost predicate LifetimeFrom(shared: Option<string>, own: Option<string>, fallback: int, ttl: int) {
    && (forall n: nat :: Decides(shared, n) ==> Nanoseconds(n, ttl))
    && (forall n: nat :: Silent(shared) && Decides(own, n) ==> Nanoseconds(n, ttl))
    && (Silent(shared) && Silent(own) ==> ttl == fallback)
  }

  /** The lifetime a list of directives means: s-maxage decides, else max-age, else the fallback. */
  ghost predicate Lifetime(ds: seq<Spelling>, fallback: int, ttl: int) {
    LifetimeFrom(LastValue(ds, "s-maxage"), LastValue(ds, "max-age"), fallback, ttl)
  }

  lemma {:induction false} DirectiveDecides(cc: map<string, string>, key: string)
    ensures var v, t := Find(cc, key), DirectiveTtl(cc, key);
            && (t.None? <==> Silent(v))
            && forall n: nat :: Decides(v, n) ==> t.Some? && Nanoseconds(n, t.value)
  {
    UsableIff(cc, key);
    var v := Find(cc, key);
    forall n: nat | Decides(v, n) ensures DirectiveTtl(cc, key).Some? && Nanoseconds(n, DirectiveTtl(cc, key).value) {
      var negative := SecondCount(cc[key], true, n);
      UsableValue(cc, key, negative, n);
      CountIsWellFormed(cc[key], negative, n);
    }
  }

  /** End to end: the lifetime computed from any rendering of a list is the one the list means. */
  lemma {:induction false} TtlOfWritten(ds: seq<Spelling>, line: string, fallback: int)
    requires WrittenAs(line, ds)
    ensures Lifetime(ds, fallback, Ttl(Parse(line), fallback))
  {
    var cc := Parse(line);
    ParseOfWritten(ds, line, CC_S_MAX_AGE);
    ParseOfWritten(ds, line, CC_MAX_AGE);
    DirectiveDecides(cc, CC_S_MAX_AGE);
    DirectiveDecides(cc, CC_MAX_AGE);
    assert LifetimeFrom(Find(cc, CC_S_MAX_AGE), Find(cc, CC_MAX_AGE), fallback, Ttl(cc, fallback));
  }

  // ----- which directives a line has ------------------------------------------------------------

  /** One part of a line that names a directive: the name between spaces, then nothing or a value. */
  ghost predicate NamesAs(part: string, name: string, lead: string, spelt: string, gap: string, rest: string) {
    && part == lead + spelt + gap + rest && AllSpace(lead) && Spells(spelt, name) && AllSpace(gap)
    && (rest == "" || rest[0] == '=')
  }

  ghost predicate Names(part: string, name: string) {
    exists lead, spelt, gap, rest :: NamesAs(part, name, lead, spelt, gap, rest)
  }

  ghost predicate AnyNames(parts: seq<string>, name: string) {
    exists i :: 0 <= i < |parts| && Names(parts[i], name)
  }

  predicate PartsOf(line: string, parts: seq<string>) {
    |parts| >= 1 && (forall i :: 0 <= i < |parts| ==> Lacks(parts[i], ',')) && line == Join(parts, ',')
  }

  /** Any line at all, well written or not: between two commas somewhere there is the directive. */
  ghost predicate Carries(line: string, name: string) {
    exists parts :: PartsOf(line, parts) && AnyNames(parts, name)
  }

  /** The names of directives: lower case, and free of separators. */
  predicate DirectiveName(name: string) {
    name == CC_NO_STORE || name == CC_NO_CACHE || name == CC_PRIVATE
  }

  lemma {:induction false} NameIsPlain(name: string)
    requires DirectiveName(name)
    ensures |name| > 0 && forall i :: 0 <= i < |name| ==> 'a' <= name[i] <= 'z' || name[i] == '-'
  {}

  lemma {:induction false} SpeltIsTight(spelt: string, name: string)
    requires DirectiveName(name) && Spells(spelt, name)
    ensures |spelt| > 0 && Tight(spelt) && Lacks(spelt, '=')
  {
    NameIsPlain(name);
  }

  lemma {:induction false} CutWithin(before: string, core: string, after: string)
    requires AllSpace(before) && AllSpace(after)
    ensures Lacks(core, '=') ==> Cut(before + core + after).0 == before + core + after && Cut(core).0 == core
    ensures !Lacks(core, '=') ==> Cut(before + core + after).0 == before + Cut(core).0
  {
    SpaceLacks(before, '=');
    SpaceLacks(after, '=');
    if Lacks(core, '=') {
      assert Lacks(before + core + after, '=');
    } else {
      var k := IndexOf(core, '=').value;
      var head, tail := core[..k], core[k + 1..];
      assert core == head + ['='] + tail;
      CutAtFirst(head, tail);
      CutAtFirst(before + head, tail + after);
      assert before + core + after == (before + head) + ['='] + (tail + after);
    }
  }

  /** It does not matter that the part is trimmed before it is cut. */
  lemma {:induction false} CutBeforeTrim(part: string)
    ensures TrimSpace(Cut(TrimSpace(part)).0) == TrimSpace(Cut(part).0)
  {
    var core := TrimSpace(part);
    var before, after := TrimParts(part, IsSpace);
    CutWithin(before, core, after);
    if Lacks(core, '=') {
      TrimSpaceAround("", core, "");
      assert "" + core + "" == core;
    } else {
      TrimSpaceLeft(before, Cut(core).0);
    }
  }

  lemma {:induction false} TrimSpaceLeft(before: string, s: string)
    requires AllSpace(before)
    ensures TrimSpace(before + s) == TrimSpace(s)
  {
    var lead, tail := TrimParts(s, IsSpace);
    TrimSpaceAround(before + lead, TrimSpace(s), tail);
    assert before + s == before + lead + TrimSpace(s) + tail;
  }

  lemma {:induction false} DirectiveNameIff(part: string, name: string)
    ensures Directive(part).0 == name <==> Spells(TrimSpace(Cut(part).0), name)
  {
    CutBeforeTrim(part);
    LowerIffSpells(TrimSpace(Cut(part).0), name);
  }

  lemma {:induction false} HeadIsNamed(part: string, name: string)
    requires Spells(TrimSpace(Cut(part).0), name)
    ensures Names(part, name)
  {
    var head := Cut(part).0;
    var lead, gap := TrimParts(head, IsSpace);
    assert NamesAs(part, name, lead, TrimSpace(head), gap, part[|head|..]);
  }

  lemma {:induction false} DirectiveNamedIff(part: string, name: string)
    requires DirectiveName(name)
    ensures Directive(part).0 == name <==> Names(part, name)
  {
    DirectiveNameIff(part, name);
    if Spells(TrimSpace(Cut(part).0), name) {
      HeadIsNamed(part, name);
    }
    if Names(part, name) {
      var lead, spelt, gap, rest :| NamesAs(part, name, lead, spelt, gap, rest);
      HeadOfNamed(part, name, lead, spelt, gap, rest);
    }
  }

  lemma {:induction false} HeadOfNamed(part: string, name: string, lead: string, spelt: string, gap: string, rest: string)
    requires DirectiveName(name) && NamesAs(part, name, lead, spelt, gap, rest)
    ensures TrimSpace(Cut(part).0) == spelt
  {
    SpeltIsTight(spelt, name);
    SpaceLacks(lead, '=');
    SpaceLacks(gap, '=');
    TrimSpaceAround(lead, spelt, gap);
    var head := lead + spelt + gap;
    if rest == "" {
      assert part == head && Lacks(head, '=');
    } else {
      assert part == head + ['='] + rest[1..];
      CutAtFirst(head, rest[1..]);
    }
  }

  lemma {:induction false} AnyNamesLast(parts: seq<string>, name: string)
    requires |parts| > 0
    ensures var n := |parts| - 1; AnyNames(parts, name) <==> AnyNames(parts[..n], name) || Names(parts[n], name)
  {
    var init := parts[..|parts| - 1];
    assert forall i :: 0 <= i < |init| ==> init[i] == parts[i];
    if AnyNames(init, name) {
      var i :| 0 <= i < |init| && Names(init[i], name);
      assert Names(parts[i], name);
    }
    if AnyNames(parts, name) {
      var i :| 0 <= i < |parts| && Names(parts[i], name);
      assert i < |init| ==> Names(init[i], name);
    }
  }

  lemma {:induction false} DirectivesNamedIff(parts: seq<string>, name: string)
    requires DirectiveName(name)
    ensures name in Directives(parts) <==> AnyNames(parts, name)
  {
    if |parts| > 0 {
      var n := |parts| - 1;
      DirectivesNamedIff(parts[..n], name);
      DirectiveNamedIff(parts[n], name);
      NameIsPlain(name);
      AnyNamesLast(parts, name);
    }
  }

  /** Of any line whatsoever: a directive is found if and only if it is there, in any case, between
      any spaces, with any value or none. */
  lemma {:induction false} ParseNamesIff(line: string, name: string)
    requires DirectiveName(name)
    ensures name in Parse(line) <==> Carries(line, name)
  {
    var split := Split(line, ',');
    JoinOfSplit(line, ',');
    assert PartsOf(line, split);
    forall parts | PartsOf(line, parts) ensures parts == split {
      SplitOfJoin(parts, ',');
    }
    DirectivesNamedIff(split, name);
    if line == "" {
      DirectiveNamedIff("", name);
      assert Directives([""]) == map[];
    }
  }
}
