/** Text handling shared by the cache model: the byte order `sort.Strings` uses, splitting and
    trimming as Go's `strings` package does them, and decimal numbers. */
module Text {

  datatype Option<+T> = None | Some(value: T)

  // ----- lexicographic order and sorting ----------------------------------------------------

  predicate Leq(a: string, b: string) {
    |a| == 0 || (|b| > 0 && (a[0] < b[0] || (a[0] == b[0] && Leq(a[1..], b[1..]))))
  }

  lemma {:induction false} LeqTotal(a: string, b: string)
    ensures Leq(a, b) || Leq(b, a)
  {
    if |a| > 0 && |b| > 0 && a[0] == b[0] {
      LeqTotal(a[1..], b[1..]);
    }
  }

  lemma {:induction false} LeqAntisymmetric(a: string, b: string)
    requires Leq(a, b) && Leq(b, a)
    ensures a == b
  {
    if |a| > 0 && |b| > 0 {
      LeqAntisymmetric(a[1..], b[1..]);
      assert a == [a[0]] + a[1..] && b == [b[0]] + b[1..];
    }
  }

  lemma {:induction false} LeqTransitive(a: string, b: string, c: string)
    requires Leq(a, b) && Leq(b, c)
    ensures Leq(a, c)
  {
    if |a| > 0 && a[0] == b[0] && b[0] == c[0] {
      LeqTransitive(a[1..], b[1..], c[1..]);
    }
  }

  predicate Sorted(s: seq<string>) {
    forall i, j :: 0 <= i < j < |s| ==> Leq(s[i], s[j])
  }

  predicate Distinct<T(==)>(s: seq<T>) {
    forall i, j :: 0 <= i < j < |s| ==> s[i] != s[j]
  }

  function Insert(x: string, s: seq<string>): (r: seq<string>)
    requires Sorted(s)
    ensures Sorted(r)
    ensures multiset(r) == multiset(s) + multiset{x}
  {
    if |s| == 0 then [x]
    else if Leq(x, s[0]) then
      assert forall j :: 0 < j < |s| ==> Leq(x, s[j]) by {
        forall j | 0 < j < |s| { LeqTransitive(x, s[0], s[j]); }
      }
      [x] + s
    else
      LeqTotal(x, s[0]);
      var t := Insert(x, s[1..]);
      assert s == [s[0]] + s[1..];
      assert forall e :: e in t ==> Leq(s[0], e) by {
        forall e | e in t ensures Leq(s[0], e) {
          assert e in multiset(t);
        }
      }
      [s[0]] + t
  }

  /** `sort.Strings`: the result is pinned down by its contract, see `SortedIsUnique`. */
  function SortStrings(s: seq<string>): (r: seq<string>)
    ensures Sorted(r)
    ensures multiset(r) == multiset(s)
  {
    if |s| == 0 then []
    else
      assert s == [s[0]] + s[1..];
      Insert(s[0], SortStrings(s[1..]))
  }

  lemma HeadIsLeast(s: seq<string>, x: string)
    requires Sorted(s) && x in multiset(s)
    ensures |s| > 0 && Leq(s[0], x)
  {
    LeqTotal(s[0], s[0]);
  }

  lemma DropHead<T>(s: seq<T>)
    requires |s| > 0
    ensures multiset(s[1..]) == multiset(s) - multiset{s[0]}
  {
    assert s == [s[0]] + s[1..];
  }

  function RemoveAt<T>(s: seq<T>, k: nat): (r: seq<T>)
    requires k < |s|
    ensures |r| == |s| - 1
    ensures forall i :: 0 <= i < |r| ==> r[i] == if i < k then s[i] else s[i + 1]
  {
    s[..k] + s[k + 1..]
  }

  lemma RemoveAtMultiset<T>(s: seq<T>, k: nat)
    requires k < |s|
    ensures multiset(s) == multiset{s[k]} + multiset(RemoveAt(s, k))
  {
    assert s == s[..k] + [s[k]] + s[k + 1..];
  }

  lemma RemoveSame<T>(s: seq<T>, j: nat, t: seq<T>, k: nat)
    requires multiset(s) == multiset(t)
    requires j < |s| && k < |t| && s[j] == t[k]
    ensures multiset(RemoveAt(s, j)) == multiset(RemoveAt(t, k))
  {
    RemoveAtMultiset(s, j);
    RemoveAtMultiset(t, k);
    assert multiset(RemoveAt(s, j)) == multiset(s) - multiset{s[j]};
    assert multiset(RemoveAt(t, k)) == multiset(t) - multiset{t[k]};
  }

  function InsertAt<T>(s: seq<T>, k: nat, x: T): (r: seq<T>)
    requires k <= |s|
    ensures |r| == |s| + 1
    ensures forall i :: 0 <= i < |r| ==> r[i] == if i < k then s[i] else if i == k then x else s[i - 1]
    ensures multiset(r) == multiset(s) + multiset{x}
  {
    assert s == s[..k] + s[k..];
    s[..k] + [x] + s[k..]
  }

  lemma SameLength<T>(a: seq<T>, b: seq<T>)
    requires multiset(a) == multiset(b)
    ensures |a| == |b|
  {
    assert |multiset(a)| == |a| && |multiset(b)| == |b|;
  }

  lemma {:induction false} SortedIsUnique(a: seq<string>, b: seq<string>)
    requires Sorted(a) && Sorted(b)
    requires multiset(a) == multiset(b)
    ensures a == b
    decreases |a|
  {
    SameLength(a, b);
    if |a| > 0 {
      assert a[0] == b[0] by {
        assert a[0] in multiset(b) && b[0] in multiset(a);
        HeadIsLeast(a, b[0]);
        HeadIsLeast(b, a[0]);
        LeqAntisymmetric(a[0], b[0]);
      }
      assert multiset(a[1..]) == multiset(b[1..]) by {
        DropHead(a);
        DropHead(b);
      }
      SortedIsUnique(a[1..], b[1..]);
      assert a == [a[0]] + a[1..] && b == [b[0]] + b[1..];
    }
  }

  lemma {:induction false} CountInDistinct<T>(s: seq<T>, x: T)
    requires Distinct(s)
    ensures multiset(s)[x] == if x in s then 1 else 0
  {
    if |s| > 0 {
      assert s == [s[0]] + s[1..];
      CountInDistinct(s[1..], x);
    }
  }

  /** Sorted lists without repetition are determined by the set of their members. */
  lemma SortedDistinctIsUnique(a: seq<string>, b: seq<string>)
    requires Sorted(a) && Sorted(b) && Distinct(a) && Distinct(b)
    requires forall x :: x in a <==> x in b
    ensures a == b
  {
    forall x ensures multiset(a)[x] == multiset(b)[x] {
      CountInDistinct(a, x);
      CountInDistinct(b, x);
    }
    assert multiset(a) == multiset(b);
    SortedIsUnique(a, b);
  }

  /** Equal multisets: distinctness carries over. */
  lemma DistinctFromMultiset<T>(a: seq<T>, b: seq<T>)
    requires multiset(a) == multiset(b) && Distinct(a)
    ensures Distinct(b)
  {
    forall i, j | 0 <= i < j < |b| ensures b[i] != b[j] {
      CountInDistinct(a, b[i]);
      assert b == b[..j] + [b[j]] + b[j + 1..];
      assert b[i] in b[..j];
    }
  }

  // ----- splitting, trimming, case ------------------------------------------------------------

  predicate Lacks(s: string, c: char) {
    forall i :: 0 <= i < |s| ==> s[i] != c
  }

  function IndexOf(s: string, c: char): (r: Option<nat>)
    ensures r.None? <==> Lacks(s, c)
    ensures r.Some? ==> r.value < |s| && s[r.value] == c && Lacks(s[..r.value], c)
  {
    if |s| == 0 then None
    else if s[0] == c then Some(0)
    else match IndexOf(s[1..], c)
      case None => None
      case Some(k) => Some(k + 1)
  }

  /** `strings.Split(s, sep)` for a one-character separator. */
  function Split(s: string, sep: char): (r: seq<string>)
    ensures |r| >= 1
    ensures forall i :: 0 <= i < |r| ==> Lacks(r[i], sep)
    decreases |s|
  {
    match IndexOf(s, sep)
    case None => [s]
    case Some(k) => [s[..k]] + Split(s[k + 1..], sep)
  }

  /** The inverse of `Split`. */
  function Join(parts: seq<string>, sep: char): string
    requires |parts| >= 1
  {
    if |parts| == 1 then parts[0] else parts[0] + [sep] + Join(parts[1..], sep)
  }

  lemma {:induction false} SplitOfJoin(parts: seq<string>, sep: char)
    requires |parts| >= 1
    requires forall i :: 0 <= i < |parts| ==> Lacks(parts[i], sep)
    ensures Split(Join(parts, sep), sep) == parts
  {
    if |parts| > 1 {
      SplitAtFirst(parts[0], sep, Join(parts[1..], sep));
      SplitOfJoin(parts[1..], sep);
      assert parts == [parts[0]] + parts[1..];
    } else {
      assert Lacks(parts[0], sep);
    }
  }

  lemma {:induction false} JoinOfSplit(s: string, sep: char)
    ensures Join(Split(s, sep), sep) == s
    decreases |s|
  {
    var k := IndexOf(s, sep);
    if k.Some? {
      JoinOfSplit(s[k.value + 1..], sep);
      assert s == s[..k.value] + [sep] + s[k.value + 1..];
    }
  }

  lemma {:induction false} SplitAtFirst(first: string, sep: char, rest: string)
    requires Lacks(first, sep)
    ensures Split(first + [sep] + rest, sep) == [first] + Split(rest, sep)
  {
    var text := first + [sep] + rest;
    IndexAfterPrefix(first, sep, rest);
    assert text[..|first|] == first && text[|first| + 1..] == rest;
  }

  lemma IndexAfterPrefix(prefix: string, c: char, rest: string)
    requires Lacks(prefix, c)
    ensures IndexOf(prefix + [c] + rest, c) == Some(|prefix|)
  {
    var s := prefix + [c] + rest;
    assert s[|prefix|] == c;
    var k := IndexOf(s, c).value;
    assert forall i :: 0 <= i < |prefix| ==> s[i] == prefix[i];
    assert forall i :: 0 <= i < k ==> s[i] == s[..k][i];
  }

  /** `unicode.IsSpace`. */
  predicate IsSpace(c: char) {
    c in {'\t', '\n', '\U{B}', '\U{C}', '\r', ' ', '\U{85}', '\U{A0}', '\U{1680}', '\U{2028}', '\U{2029}',
          '\U{202F}', '\U{205F}', '\U{3000}'} || '\U{2000}' <= c <= '\U{200A}'
  }

  /** The code points with the Unicode property White_Space. */
  lemma {:induction false} SpaceIff(c: char)
    ensures IsSpace(c) <==>
              var n := c as int;
              || 0x9 <= n <= 0xD || n == 0x20 || n == 0x85 || n == 0xA0 || n == 0x1680 || 0x2000 <= n <= 0x200A
              || n == 0x2028 || n == 0x2029 || n == 0x202F || n == 0x205F || n == 0x3000
  {}

  predicate AllSpace(s: string) {
    forall i :: 0 <= i < |s| ==> IsSpace(s[i])
  }

  function TrimLeft(s: string, cut: char -> bool): (r: string)
    ensures |r| > 0 ==> !cut(r[0])
  {
    if |s| > 0 && cut(s[0]) then TrimLeft(s[1..], cut) else s
  }

  function TrimRight(s: string, cut: char -> bool): (r: string)
    ensures |r| > 0 ==> !cut(r[|r| - 1])
  {
    if |s| > 0 && cut(s[|s| - 1]) then TrimRight(s[..|s| - 1], cut) else s
  }

  /** `strings.TrimSpace`, and with another `cut` `strings.Trim`. */
  function Trim(s: string, cut: char -> bool): string {
    TrimRight(TrimLeft(s, cut), cut)
  }

  function TrimSpace(s: string): string {
    Trim(s, IsSpace)
  }

  /** What is trimmed is cut characters only. */
  lemma {:induction false} TrimLeftCuts(s: string, cut: char -> bool)
    ensures var n := |s| - |TrimLeft(s, cut)|;
            n >= 0 && s[n..] == TrimLeft(s, cut) && forall i :: 0 <= i < n ==> cut(s[i])
  {
    if |s| > 0 && cut(s[0]) {
      TrimLeftCuts(s[1..], cut);
    }
  }

  lemma {:induction false} TrimRightCuts(s: string, cut: char -> bool)
    ensures var n := |TrimRight(s, cut)|;
            n <= |s| && s[..n] == TrimRight(s, cut) && forall i :: n <= i < |s| ==> cut(s[i])
  {
    if |s| > 0 && cut(s[|s| - 1]) {
      TrimRightCuts(s[..|s| - 1], cut);
    }
  }

  lemma {:induction false} TrimParts(s: string, cut: char -> bool) returns (before: string, after: string)
    ensures s == before + Trim(s, cut) + after
    ensures forall i :: 0 <= i < |before| ==> cut(before[i])
    ensures forall i :: 0 <= i < |after| ==> cut(after[i])
    ensures |Trim(s, cut)| > 0 ==> !cut(Trim(s, cut)[0]) && !cut(Trim(s, cut)[|Trim(s, cut)| - 1])
  {
    var left := TrimLeft(s, cut);
    TrimLeftCuts(s, cut);
    TrimRightCuts(left, cut);
    before, after := s[..|s| - |left|], left[|Trim(s, cut)|..];
  }

  /** A text whose ends are not cut is what remains when cut characters are added around it. */
  lemma TrimAround(before: string, s: string, after: string, cut: char -> bool)
    requires forall i :: 0 <= i < |before| ==> cut(before[i])
    requires forall i :: 0 <= i < |after| ==> cut(after[i])
    requires |s| > 0 ==> !cut(s[0]) && !cut(s[|s| - 1])
    ensures Trim(before + s + after, cut) == s
  {
    TrimLeftAround(before, s, after, cut);
    if |s| == 0 {
      assert TrimRight([], cut) == [];
    } else {
      TrimRightAround(s, after, cut);
    }
  }

  lemma {:induction false} TrimLeftAround(before: string, s: string, after: string, cut: char -> bool)
    requires forall i :: 0 <= i < |before| ==> cut(before[i])
    requires forall i :: 0 <= i < |after| ==> cut(after[i])
    requires |s| > 0 ==> !cut(s[0])
    ensures TrimLeft(before + s + after, cut) == if |s| == 0 then [] else s + after
  {
    var t := before + s + after;
    if |before| > 0 {
      assert t[0] == before[0];
      assert t[1..] == before[1..] + s + after;
      TrimLeftAround(before[1..], s, after, cut);
    } else if |s| == 0 {
      assert t == after;
      if |after| > 0 {
        assert after == after[..1] + [] + after[1..];
        assert [] + [] + after[1..] == after[1..];
        TrimLeftAround([], [], after[1..], cut);
      }
    } else {
      assert t == s + after;
      assert t[0] == s[0];
    }
  }

  lemma {:induction false} TrimRightAround(s: string, after: string, cut: char -> bool)
    requires forall i :: 0 <= i < |after| ==> cut(after[i])
    requires |s| > 0 && !cut(s[|s| - 1])
    ensures TrimRight(s + after, cut) == s
  {
    var t := s + after;
    if |after| > 0 {
      assert t[|t| - 1] == after[|after| - 1];
      assert t[..|t| - 1] == s + after[..|after| - 1];
      TrimRightAround(s, after[..|after| - 1], cut);
    } else {
      assert t == s;
    }
  }

  function LowerChar(c: char): char {
    if 'A' <= c <= 'Z' then c + ('a' - 'A') else c
  }

  function UpperChar(c: char): char {
    if 'a' <= c <= 'z' then c - ('a' - 'A') else c
  }

  /** `strings.ToLower` on ASCII letters. */
  function ToLower(s: string): (r: string)
    ensures |r| == |s|
    ensures forall i :: 0 <= i < |s| ==> r[i] == LowerChar(s[i])
  {
    if |s| == 0 then [] else [LowerChar(s[0])] + ToLower(s[1..])
  }

  predicate HasPrefix(s: string, prefix: string) {
    |prefix| <= |s| && s[..|prefix|] == prefix
  }

  // ----- decimal numbers ----------------------------------------------------------------------

  function DigitChar(d: nat): char
    requires d < 10
  {
    '0' + d as char
  }

  predicate IsDigit(c: char) {
    '0' <= c <= '9'
  }

  function DigitValue(c: char): (d: nat)
    requires IsDigit(c)
    ensures d < 10 && DigitChar(d) == c
  {
    (c - '0') as nat
  }

  /** Decimal rendering of a natural number, as `%d` prints it. */
  function Decimal(n: nat): (r: string)
    ensures |r| >= 1
    ensures forall i :: 0 <= i < |r| ==> IsDigit(r[i])
  {
    if n < 10 then [DigitChar(n)] else Decimal(n / 10) + [DigitChar(n % 10)]
  }

  function DigitsValue(s: string): nat
    requires forall i :: 0 <= i < |s| ==> IsDigit(s[i])
  {
    if |s| == 0 then 0 else 10 * DigitsValue(s[..|s| - 1]) + DigitValue(s[|s| - 1])
  }

  lemma {:induction false} DigitsOfDecimal(n: nat)
    ensures DigitsValue(Decimal(n)) == n
  {
    var r := Decimal(n);
    if n >= 10 {
      assert r[..|r| - 1] == Decimal(n / 10);
      DigitsOfDecimal(n / 10);
    } else {
      assert r[..0] == [];
    }
  }
}
