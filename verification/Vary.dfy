/** internal/proxy: reading a Vary header and merging it with the headers a rule keys on. */
module Vary {
  import opened Text
  import opened Http
  import opened CacheKey

  /** The canonical names among comma-separated parts, blanks skipped. */
  function FieldNames(parts: seq<string>): seq<string> {
    if |parts| == 0 then []
    else
      var n := |parts| - 1;
      var name := TrimSpace(parts[n]);
      FieldNames(parts[..n]) + if name != "" then [Canonical(name)] else []
  }

  function ParseVary(vary: string): seq<string> {
    if vary == "" || vary == "*" then [] else FieldNames(Split(vary, ','))
  }

  method ParseVaryHeader(vary: string) returns (names: seq<string>)
    ensures names == ParseVary(vary)
  {
    if vary == "" || vary == "*" {
      return [];
    }
    var parts := Split(vary, ',');
    names := [];
    for i := 0 to |parts|
      invariant names == FieldNames(parts[..i])
    {
      assert parts[..i + 1][..i] == parts[..i];
      var name := TrimSpace(parts[i]);
      if name != "" {
        names := names + [Canonical(name)];
      }
    }
    assert parts[..|parts|] == parts;
  }

  predicate Names(names: seq<string>, x: string) {
    exists i :: 0 <= i < |names| && Canonical(names[i]) == x
  }

  function InsertNew(c: string, t: seq<string>): (r: seq<string>)
    requires Sorted(t) && Distinct(t) && c !in t
    ensures Sorted(r) && Distinct(r)
    ensures forall x :: x in r <==> x == c || x in t
  {
    var r := Insert(c, t);
    assert multiset(r) == multiset([c] + t);
    DistinctFromMultiset([c] + t, r);
    assert forall x :: x in r <==> x in multiset([c] + t);
    assert forall x :: x in multiset([c] + t) <==> x in [c] + t;
    r
  }

  lemma NamesCons(names: seq<string>, x: string)
    requires |names| > 0
    ensures Names(names, x) <==> Canonical(names[0]) == x || Names(names[1..], x)
  {
    if Names(names, x) && Canonical(names[0]) != x {
      var i :| 0 <= i < |names| && Canonical(names[i]) == x;
      assert names[i] == names[1..][i - 1];
    }
  }

  /** The canonical forms of `names`, sorted and without repetition. */
  function SortedNames(names: seq<string>): (r: seq<string>)
    ensures Sorted(r) && Distinct(r)
    ensures forall x :: x in r <==> Names(names, x)
  {
    if |names| == 0 then []
    else
      var t, c := SortedNames(names[1..]), Canonical(names[0]);
      assert forall x :: Names(names, x) <==> c == x || Names(names[1..], x) by {
        forall x { NamesCons(names, x); }
      }
      if c in t then t else InsertNew(c, t)
  }

  function Merge(a: seq<string>, b: seq<string>): seq<string> {
    if |b| == 0 then a else SortedNames(a + b)
  }

  lemma NamesAppend(a: seq<string>, b: seq<string>, x: string)
    ensures Names(a + b, x) <==> Names(a, x) || Names(b, x)
  {
    if Names(a, x) {
      var i :| 0 <= i < |a| && Canonical(a[i]) == x;
      assert (a + b)[i] == a[i];
    }
    if Names(b, x) {
      var i :| 0 <= i < |b| && Canonical(b[i]) == x;
      assert (a + b)[|a| + i] == b[i];
    }
  }

  method AddCanonical(seen: set<string>, names: seq<string>) returns (r: set<string>)
    ensures forall x :: x in r <==> x in seen || Names(names, x)
  {
    r := seen;
    for i := 0 to |names|
      invariant forall x :: x in r <==> x in seen || exists j :: 0 <= j < i && Canonical(names[j]) == x
    {
      r := r + {Canonical(names[i])};
    }
  }

  /** The names are collected in a set, read back in whatever order, and sorted. */
  method MergeVaryHeaders(a: seq<string>, b: seq<string>) returns (merged: seq<string>)
    ensures merged == Merge(a, b)
  {
    if |b| == 0 {
      return a;
    }
    var seen := AddCanonical({}, a);
    seen := AddCanonical(seen, b);
    ghost var all := seen;
    assert forall x :: x in all <==> x in SortedNames(a + b) by {
      forall x ensures x in all <==> x in SortedNames(a + b) {
        NamesAppend(a, b, x);
      }
    }
    merged := [];
    while seen != {}
      invariant Distinct(merged)
      invariant forall x :: x in all <==> x in seen || x in merged
      invariant forall x :: x in merged ==> x !in seen
    {
      var h :| h in seen;
      merged := merged + [h];
      seen := seen - {h};
    }
    var sorted := SortStrings(merged);
    DistinctFromMultiset(merged, sorted);
    assert forall x :: x in sorted <==> x in multiset(merged);
    SortedDistinctIsUnique(sorted, SortedNames(a + b));
    merged := sorted;
  }

  // ----- laws -----------------------------------------------------------------------------------

  predicate AllCanonical(names: seq<string>) {
    forall i :: 0 <= i < |names| ==> Canonical(names[i]) == names[i]
  }

  lemma SortedNamesCanonical(names: seq<string>)
    ensures AllCanonical(SortedNames(names))
  {
    var r := SortedNames(names);
    forall i | 0 <= i < |r| ensures Canonical(r[i]) == r[i] {
      assert r[i] in r;
      var j :| 0 <= j < |names| && Canonical(names[j]) == r[i];
      CanonicalTwice(names[j]);
    }
  }

  /** Merging the rule's names into an already merged list changes nothing: the key computed from
      the learned Vary set is the key the response was stored under. */
  lemma MergeAbsorbs(a: seq<string>, b: seq<string>)
    requires |b| > 0
    ensures Sorted(Merge(a, b)) && Distinct(Merge(a, b)) && AllCanonical(Merge(a, b))
    ensures Merge(a, Merge(a, b)) == Merge(a, b)
    ensures |Merge(a, b)| > 0
  {
    var m := SortedNames(a + b);
    SortedNamesCanonical(a + b);
    assert Names(b, Canonical(b[0]));
    NamesAppend(a, b, Canonical(b[0]));
    assert Canonical(b[0]) in m;
    forall x ensures x in SortedNames(a + m) <==> x in m {
      NamesAppend(a, m, x);
      NamesAppend(a, b, x);
      CanonicalMembers(m, x);
    }
    SortedDistinctIsUnique(SortedNames(a + m), m);
  }

  lemma CanonicalMembers(names: seq<string>, x: string)
    requires AllCanonical(names)
    ensures Names(names, x) <==> x in names
  {}

  /** The merged list keys on every name of `b`, and on the canonical form of every name of `a` if
      `b` is not empty; else it is `a`. */
  lemma {:induction false} MergeCovers(a: seq<string>, b: seq<string>)
    requires AllCanonical(b)
    ensures forall x :: x in b ==> x in Merge(a, b)
    ensures |b| > 0 ==> forall x :: x in a ==> Canonical(x) in Merge(a, b)
    ensures |b| == 0 ==> Merge(a, b) == a
  {
    if |b| > 0 {
      forall x ensures x in Merge(a, b) <==> Names(a, x) || x in b {
        NamesAppend(a, b, x);
        CanonicalMembers(b, x);
      }
      forall x | x in a ensures Names(a, Canonical(x)) {
        var i :| 0 <= i < |a| && a[i] == x;
      }
    }
  }

  /** Distinct lists with the same members are permutations of each other. */
  lemma {:induction false} SameMembers(a: seq<string>, b: seq<string>)
    requires Distinct(a) && Distinct(b)
    requires forall x :: x in a <==> x in b
    ensures multiset(a) == multiset(b)
  {
    forall x ensures multiset(a)[x] == multiset(b)[x] {
      CountInDistinct(a, x);
      CountInDistinct(b, x);
    }
  }

  predicate Tidy(names: seq<string>) {
    AllCanonical(names) && Distinct(names)
  }

  /** Exactly when a lookup with the learned list keys on the list that was stored with: something was
      learned from the response, or the rule's own names are canonical and free of repetition. */
  lemma {:induction false} MergeMeetsIff(a: seq<string>, b: seq<string>)
    ensures multiset(Merge(a, Merge(a, b))) == multiset(Merge(a, b)) <==> |b| > 0 || Tidy(a)
  {
    if |b| > 0 {
      MergeAbsorbs(a, b);
    } else if |a| > 0 {
      SelfMerge(a);
    }
  }

  lemma {:induction false} SelfMerge(a: seq<string>)
    ensures multiset(SortedNames(a + a)) == multiset(a) <==> Tidy(a)
  {
    var m := SortedNames(a + a);
    SortedNamesCanonical(a + a);
    if Tidy(a) {
      forall x ensures x in m <==> x in a {
        NamesAppend(a, a, x);
        CanonicalMembers(a, x);
      }
      SameMembers(m, a);
    }
    if multiset(m) == multiset(a) {
      DistinctFromMultiset(m, a);
      forall i | 0 <= i < |a| ensures Canonical(a[i]) == a[i] {
        assert a[i] in multiset(m);
        var j :| 0 <= j < |m| && m[j] == a[i];
      }
    }
  }

  lemma {:induction false} FieldNamesCanonical(parts: seq<string>)
    ensures AllCanonical(FieldNames(parts))
  {
    if |parts| > 0 {
      var n := |parts| - 1;
      FieldNamesCanonical(parts[..n]);
      CanonicalTwice(TrimSpace(parts[n]));
    }
  }

  lemma ParsedVaryCanonical(vary: string)
    ensures AllCanonical(ParseVary(vary))
  {
    if vary != "" && vary != "*" {
      FieldNamesCanonical(Split(vary, ','));
    }
  }

  // ----- what a Vary line says ---------------------------------------------------------------------

  /** A part of the line stands for this name. */
  predicate PartNames(part: string, n: string) {
    TrimSpace(part) != "" && Canonical(TrimSpace(part)) == n
  }

  predicate SomePartNames(parts: seq<string>, n: string) {
    exists i :: 0 <= i < |parts| && PartNames(parts[i], n)
  }

  lemma {:induction false} SomePartSnoc(parts: seq<string>, part: string, n: string)
    ensures SomePartNames(parts + [part], n) <==> SomePartNames(parts, n) || PartNames(part, n)
  {
    var all := parts + [part];
    assert all[|parts|] == part;
    if i :| 0 <= i < |parts| && PartNames(parts[i], n) {
      assert all[i] == parts[i];
    }
  }

  lemma {:induction false} FieldNamesMembers(parts: seq<string>, n: string)
    ensures n in FieldNames(parts) <==> SomePartNames(parts, n)
  {
    if |parts| > 0 {
      var k := |parts| - 1;
      FieldNamesMembers(parts[..k], n);
      SomePartSnoc(parts[..k], parts[k], n);
      assert parts == parts[..k] + [parts[k]];
    }
  }

  /** The names of a line: the canonical forms of its non-blank comma-separated parts, unless the
      line is "*". */
  lemma {:induction false} ParseVaryMembers(line: string, n: string)
    ensures n in ParseVary(line) <==> line != "*" && SomePartNames(Split(line, ','), n)
  {
    if line == "" {
      BlankLine(n);
    } else if line != "*" {
      FieldNamesMembers(Split(line, ','), n);
      assert ParseVary(line) == FieldNames(Split(line, ','));
    }
  }

  lemma {:induction false} BlankLine(n: string)
    ensures !SomePartNames(Split("", ','), n)
  {
    assert Split("", ',') == [""];
    assert TrimLeft("", IsSpace) == "" && TrimRight("", IsSpace) == "";
  }

  /** The line has a star among its parts. */
  predicate ListsStar(line: string) {
    exists i :: 0 <= i < |Split(line, ',')| && TrimSpace(Split(line, ',')[i]) == "*"
  }

  lemma {:induction false} CanonicalStar(s: string)
    ensures Canonical(s) == "*" <==> s == "*"
  {
    if |s| == 1 {
      assert CanonicalFrom(s, true) == [UpperChar(s[0])] + CanonicalFrom(s[1..], s[0] == '-');
    }
  }

  /** A star among other names is kept as if it were a name. */
  lemma {:induction false} StarIsKeptIff(line: string)
    ensures "*" in ParseVary(line) <==> ListsStar(line) && line != "*"
  {
    ParseVaryMembers(line, "*");
    var parts := Split(line, ',');
    forall i | 0 <= i < |parts| ensures PartNames(parts[i], "*") <==> TrimSpace(parts[i]) == "*" {
      CanonicalStar(TrimSpace(parts[i]));
    }
  }

  lemma {:induction false} StarAmongOthers(line: string)
    requires line == "Accept, *"
    ensures line != "*" && "*" in ParseVary(line)
  {
    StarBehind(line, "Accept", " *");
  }

  lemma {:induction false} StarBehind(line: string, first: string, last: string)
    requires line == first + [','] + last && Lacks(first, ',') && last == " *"
    ensures line != "*" && "*" in ParseVary(line)
  {
    TwoParts(first, last);
    StarTrimmed(last);
    assert Split(line, ',')[1] == last;
    assert |line| >= 3;
    StarIsKeptIff(line);
  }

  lemma {:induction false} TwoParts(a: string, b: string)
    requires Lacks(a, ',') && Lacks(b, ',')
    ensures Split(a + [','] + b, ',') == [a, b]
  {
    assert Join([a, b], ',') == a + [','] + Join([b], ',') && [a, b][1..] == [b];
    SplitOfJoin([a, b], ',');
  }

  lemma {:induction false} StarTrimmed(s: string)
    requires s == " *"
    ensures TrimSpace(s) == "*"
  {
    TrimAround(" ", "*", "", IsSpace);
    assert " " + "*" + "" == s;
  }

  /** A name as a server may write it. */
  datatype Spelled = Spelled(lead: string, name: string, tail: string)

  predicate WellWritten(f: Spelled) {
    && AllSpace(f.lead) && AllSpace(f.tail) && Lacks(f.name, ',')
    && |f.name| > 0 && !IsSpace(f.name[0]) && !IsSpace(f.name[|f.name| - 1])
  }

  function Written(f: Spelled): string {
    f.lead + f.name + f.tail
  }

  function WrittenAll(fs: seq<Spelled>): (r: seq<string>)
    ensures |r| == |fs| && forall i :: 0 <= i < |fs| ==> r[i] == Written(fs[i])
  {
    seq(|fs|, i requires 0 <= i < |fs| => Written(fs[i]))
  }

  function CanonicalAll(fs: seq<Spelled>): (r: seq<string>)
    ensures |r| == |fs| && forall i :: 0 <= i < |fs| ==> r[i] == Canonical(fs[i].name)
  {
    seq(|fs|, i requires 0 <= i < |fs| => Canonical(fs[i].name))
  }

  lemma {:induction false} FieldNamesAre(parts: seq<string>, names: seq<string>)
    requires |parts| == |names|
    requires forall i :: 0 <= i < |parts| ==> PartNames(parts[i], names[i])
    ensures FieldNames(parts) == names
  {
    if |parts| > 0 {
      var k := |parts| - 1;
      FieldNamesAre(parts[..k], names[..k]);
      assert names == names[..k] + [names[k]];
    }
  }

  lemma {:induction false} FieldNamesOfWritten(fs: seq<Spelled>)
    requires forall i :: 0 <= i < |fs| ==> WellWritten(fs[i])
    ensures FieldNames(WrittenAll(fs)) == CanonicalAll(fs)
  {
    forall i | 0 <= i < |fs| ensures PartNames(WrittenAll(fs)[i], CanonicalAll(fs)[i]) {
      PartOfWritten(fs[i]);
    }
    FieldNamesAre(WrittenAll(fs), CanonicalAll(fs));
  }

  lemma {:induction false} PartOfWritten(f: Spelled)
    requires WellWritten(f)
    ensures TrimSpace(Written(f)) == f.name
  {
    TrimAround(f.lead, f.name, f.tail, IsSpace);
  }

  lemma {:induction false} WrittenLacksComma(f: Spelled)
    requires WellWritten(f)
    ensures Lacks(Written(f), ',')
  {}

  /** Any list of names, written with any case and any space around the names, is read back in order,
      in canonical form; only the line "*" is read as nothing. */
  lemma {:induction false} ParseOfWrittenVary(fs: seq<Spelled>)
    requires |fs| > 0 && forall i :: 0 <= i < |fs| ==> WellWritten(fs[i])
    ensures var line := Join(WrittenAll(fs), ',');
            ParseVary(line) == if line == "*" then [] else CanonicalAll(fs)
  {
    var parts := WrittenAll(fs);
    forall i | 0 <= i < |parts| ensures Lacks(parts[i], ',') {
      WrittenLacksComma(fs[i]);
    }
    SplitOfJoin(parts, ',');
    FieldNamesOfWritten(fs);
    JoinNotEmpty(parts);
  }

  lemma {:induction false} JoinNotEmpty(parts: seq<string>)
    requires |parts| > 0 && |parts[0]| > 0
    ensures |Join(parts, ',')| > 0
  {}

  // ----- names of a Vary header are plain when the header is ---------------------------------------

  lemma {:induction false} TrimLeftLacks(s: string, cut: char -> bool, c: char)
    requires Lacks(s, c)
    ensures Lacks(TrimLeft(s, cut), c)
  {
    if |s| > 0 && cut(s[0]) {
      TrimLeftLacks(s[1..], cut, c);
    }
  }

  lemma {:induction false} TrimRightLacks(s: string, cut: char -> bool, c: char)
    requires Lacks(s, c)
    ensures Lacks(TrimRight(s, cut), c)
  {
    if |s| > 0 && cut(s[|s| - 1]) {
      TrimRightLacks(s[..|s| - 1], cut, c);
    }
  }

  lemma {:induction false} SplitLacks(s: string, sep: char, c: char)
    requires Lacks(s, c)
    ensures forall i :: 0 <= i < |Split(s, sep)| ==> Lacks(Split(s, sep)[i], c)
    decreases |s|
  {
    match IndexOf(s, sep)
    case None =>
    case Some(k) =>
      SplitLacks(s[k + 1..], sep, c);
  }

  lemma CanonicalLacks(name: string, c: char)
    requires !('a' <= c <= 'z') && !('A' <= c <= 'Z') && Lacks(name, c)
    ensures Lacks(Canonical(name), c)
  {
    CanonicalFromLacks(name, true, c);
  }

  lemma {:induction false} FieldNamesLack(parts: seq<string>, c: char)
    requires !('a' <= c <= 'z') && !('A' <= c <= 'Z')
    requires forall i :: 0 <= i < |parts| ==> Lacks(parts[i], c)
    ensures forall i :: 0 <= i < |FieldNames(parts)| ==> Lacks(FieldNames(parts)[i], c)
  {
    if |parts| > 0 {
      var n := |parts| - 1;
      FieldNamesLack(parts[..n], c);
      TrimLeftLacks(parts[n], IsSpace, c);
      TrimRightLacks(TrimLeft(parts[n], IsSpace), IsSpace, c);
      CanonicalLacks(TrimSpace(parts[n]), c);
    }
  }

  lemma ParsedVaryPlain(vary: string)
    requires PlainName(vary)
    ensures PlainNames(ParseVary(vary))
  {
    if vary != "" && vary != "*" {
      var parts := Split(vary, ',');
      SplitLacks(vary, ',', '=');
      SplitLacks(vary, ',', '\n');
      FieldNamesLack(parts, '=');
      FieldNamesLack(parts, '\n');
    }
  }
}
