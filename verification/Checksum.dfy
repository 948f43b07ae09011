/** The Internet checksum (RFC 1071) and its incremental update (RFC 1624 section 3, equation 3). */
module Checksum {
  import opened Bytes

  const ALL_ONES := 0xFFFF

  /** One's-complement sum folded to 16 bits: carries are added back in. */
  function Fold(n: nat): (r: nat)
    ensures r <= ALL_ONES
    ensures r == 0 <==> n == 0
    decreases n
  {
    if n <= ALL_ONES then n else Fold(n % 0x1_0000 + n / 0x1_0000)
  }

  /** Folding takes away a multiple of 65535. */
  lemma {:induction false} FoldQuotient(n: nat) returns (k: nat)
    ensures n == Fold(n) + ALL_ONES * k
  {
    if n <= ALL_ONES {
      k := 0;
    } else {
      var high, low := n / 0x1_0000, n % 0x1_0000;
      assert n == 0x1_0000 * high + low;
      var k' := FoldQuotient(low + high);
      k := k' + high;
    }
  }

  /** Sum of the 16-bit words, an odd last byte padded with zero. */
  function WordSum(s: seq<Byte>): nat {
    if |s| == 0 then 0
    else if |s| == 1 then 256 * (s[0] as int)
    else Read16(s, 0) + WordSum(s[2..])
  }

  /** A receiver accepts a sum that folds to all ones. */
  predicate Accepts(sum: nat) {
    Fold(sum) == ALL_ONES
  }

  function Complement(n: nat): (r: nat)
    requires n <= ALL_ONES
    ensures r <= ALL_ONES
  {
    ALL_ONES - n
  }

  /** Equation 3 for one 16-bit word: HC' = ~(~HC + ~m + m'). */
  function Replace16(check: nat, from: nat, to: nat): (r: nat)
    requires check <= ALL_ONES && from <= ALL_ONES && to <= ALL_ONES
    ensures r <= ALL_ONES
  {
    Complement(Fold(Complement(check) + Complement(from) + to))
  }

  /** The example of RFC 1624 section 4, where equation 3 and its predecessor differ. */
  lemma {:induction false} Replace16Example()
    ensures Replace16(0xDD2F, 0x5555, 0x3285) == 0
  {}

  /** Sum of the two halves of a 32-bit value. */
  function Halves(v: nat): nat {
    v / 0x1_0000 + v % 0x1_0000
  }

  /** Equation 3 for a 32-bit value, both halves at once. */
  function Replace32(check: nat, from: nat, to: nat): (r: nat)
    requires check <= ALL_ONES && from < 0x1_0000_0000 && to < 0x1_0000_0000
    ensures r <= ALL_ONES
  {
    Complement(Fold(Complement(check) + Complement(from / 0x1_0000) + Complement(from % 0x1_0000)
                    + to / 0x1_0000 + to % 0x1_0000))
  }

  predicate Apart(a: int, b: int, k: int) {
    a == b + ALL_ONES * k
  }

  /** a and b have the same one's-complement value: they are equal modulo 65535. */
  ghost predicate Congruent(a: int, b: int) {
    exists k :: Apart(a, b, k)
  }

  lemma {:induction false} Within(f: nat, q: int, k: int)
    requires 0 < f <= ALL_ONES && f + ALL_ONES * q == ALL_ONES * k
    ensures f == ALL_ONES
  {}

  lemma {:induction false} CongruentToZero(sum: nat)
    ensures Congruent(sum, 0) <==> sum % 65_535 == 0
  {
    if sum % 65_535 == 0 {
      assert Apart(sum, 0, sum / 65_535);
    }
  }

  /** A receiver accepts exactly the positive multiples of 65535. */
  lemma {:induction false} AcceptsIffMultiple(sum: nat)
    ensures Accepts(sum) <==> sum > 0 && Congruent(sum, 0)
    ensures Accepts(sum) <==> sum > 0 && sum % 65_535 == 0
  {
    CongruentToZero(sum);
    var q := FoldQuotient(sum);
    if Fold(sum) == ALL_ONES {
      assert Apart(sum, 0, q + 1);
    } else if sum > 0 {
      forall k ensures !Apart(sum, 0, k) {
        if Apart(sum, 0, k) {
          Within(Fold(sum), q, k);
        }
      }
    }
  }

  /** Sums add up under congruence. */
  lemma {:induction false} CongruentSum(a: int, b: int, c: int, d: int, x: int, y: int)
    requires Congruent(a, b) && Congruent(c, d)
    requires x - y == (a - b) + (c - d)
    ensures Congruent(x, y)
  {
    var k :| Apart(a, b, k);
    var m :| Apart(c, d, m);
    assert Apart(x, y, k + m);
  }

  lemma {:induction false} ComplementOfFold(n: nat, from: int, to: int, k: int)
    requires n == to - from + ALL_ONES * k
    ensures Congruent(Complement(Fold(n)) + to, from)
  {
    var q: int := FoldQuotient(n);
    assert Apart(Complement(Fold(n)) + to, from, 1 + q - k);
  }

  /** The update moves the checksum against the change of the data. */
  lemma {:induction false} Replace16Balances(check: nat, from: nat, to: nat)
    requires check <= ALL_ONES && from <= ALL_ONES && to <= ALL_ONES
    ensures Congruent(Replace16(check, from, to) + to, check + from)
  {
    var n := Complement(check) + Complement(from) + to;
    ComplementOfFold(n, check + from, to, 2);
  }

  lemma {:induction false} Replace32Balances(check: nat, from: nat, to: nat)
    requires check <= ALL_ONES && from < 0x1_0000_0000 && to < 0x1_0000_0000
    ensures Congruent(Replace32(check, from, to) + Halves(to), check + Halves(from))
  {
    var n := Complement(check) + Complement(from / 0x1_0000) + Complement(from % 0x1_0000) + to / 0x1_0000 + to % 0x1_0000;
    ComplementOfFold(n, check + Halves(from), Halves(to), 3);
  }

  lemma {:induction false} AcceptsCongruent(a: nat, b: nat)
    requires Congruent(a, b) && a > 0 && b > 0
    ensures Accepts(a) <==> Accepts(b)
  {
    AcceptsIffMultiple(a);
    AcceptsIffMultiple(b);
    var k :| Apart(a, b, k);
    if m :| Apart(b, 0, m) {
      assert Apart(a, 0, m + k);
    }
    if m :| Apart(a, 0, m) {
      assert Apart(b, 0, m - k);
    }
  }

  // ----- writing a word into a buffer ----------------------------------------------------------------

  function Write16(s: seq<Byte>, i: nat, v: nat): (r: seq<Byte>)
    requires i + 2 <= |s| && v <= ALL_ONES
    ensures |r| == |s| && Read16(r, i) == v
  {
    s[i := v / 256][i + 1 := v % 256]
  }

  function Read32(s: seq<Byte>, i: nat): (n: nat)
    requires i + 4 <= |s|
    ensures n < 0x1_0000_0000
    ensures n / 0x1_0000 == Read16(s, i) && n % 0x1_0000 == Read16(s, i + 2)
  {
    0x1_0000 * Read16(s, i) + Read16(s, i + 2)
  }

  function Write32(s: seq<Byte>, i: nat, v: nat): (r: seq<Byte>)
    requires i + 4 <= |s| && v < 0x1_0000_0000
    ensures |r| == |s| && Read32(r, i) == v
  {
    Write16(Write16(s, i, v / 0x1_0000), i + 2, v % 0x1_0000)
  }

  /** A write at an even offset changes the sum by the difference of the words. */
  lemma {:induction false} WordSumWrite16(s: seq<Byte>, i: nat, v: nat)
    requires i + 2 <= |s| && i % 2 == 0 && v <= ALL_ONES
    ensures WordSum(Write16(s, i, v)) == WordSum(s) - Read16(s, i) + v
  {
    var r := Write16(s, i, v);
    if i == 0 {
      assert r[2..] == s[2..];
    } else {
      WordSumWrite16(s[2..], i - 2, v);
      assert r[2..] == Write16(s[2..], i - 2, v);
      assert Read16(s[2..], i - 2) == Read16(s, i);
    }
  }

  lemma WordSumWrite32(s: seq<Byte>, i: nat, v: nat)
    requires i + 4 <= |s| && i % 2 == 0 && v < 0x1_0000_0000
    ensures WordSum(Write32(s, i, v)) == WordSum(s) - Halves(Read32(s, i)) + Halves(v)
  {
    var t := Write16(s, i, v / 0x1_0000);
    WordSumWrite16(s, i, v / 0x1_0000);
    WordSumWrite16(t, i + 2, v % 0x1_0000);
    assert Read16(t, i + 2) == Read16(s, i + 2);
  }

  lemma WordSumPositive(s: seq<Byte>, i: nat)
    requires i < |s| && s[i] > 0
    ensures WordSum(s) > 0
    decreases i
  {
    if i >= 2 {
      WordSumPositive(s[2..], i - 2);
    }
  }

  // ----- the two checksums of a rewritten packet -------------------------------------------------------

  /** An IP header with a new address at `off` and its checksum updated. */
  function UpdateHeader(h: seq<Byte>, off: nat, ip: nat): seq<Byte>
    requires |h| >= 20 && (off == 12 || off == 16) && ip < 0x1_0000_0000
  {
    Write32(Write16(h, 10, Replace32(Read16(h, 10), Read32(h, off), ip)), off, ip)
  }

  /** A TCP segment with a new port at `off`, its checksum updated for a changed address and port. */
  function UpdateSegment(s: seq<Byte>, oldIp: nat, ip: nat, off: nat, port: nat): seq<Byte>
    requires |s| >= 20 && (off == 0 || off == 2) && port <= ALL_ONES
    requires oldIp < 0x1_0000_0000 && ip < 0x1_0000_0000
  {
    var c2 := Replace32(Read16(s, 16), oldIp, ip);
    var c3 := Replace16(c2, Read16(s, off), port);
    Write16(Write16(Write16(s, 16, c2), 16, c3), off, port)
  }

  lemma {:induction false} HeaderSum(h: seq<Byte>, c: nat, off: nat, ip: nat)
    requires |h| >= 20 && (off == 12 || off == 16) && c <= ALL_ONES && ip < 0x1_0000_0000
    ensures WordSum(Write32(Write16(h, 10, c), off, ip)) ==
            WordSum(h) - Read16(h, 10) + c - Halves(Read32(h, off)) + Halves(ip)
  {
    var h1 := Write16(h, 10, c);
    WordSumWrite16(h, 10, c);
    assert Read32(h1, off) == Read32(h, off);
    WordSumWrite32(h1, off, ip);
  }

  /** The header after the update is accepted iff the header before was. */
  lemma {:induction false} HeaderUpdate(h: seq<Byte>, h': seq<Byte>, off: nat, ip: nat)
    requires |h| >= 20 && h[0] > 0 && (off == 12 || off == 16) && ip < 0x1_0000_0000
    requires h' == UpdateHeader(h, off, ip)
    ensures Accepts(WordSum(h')) <==> Accepts(WordSum(h))
  {
    var c := Replace32(Read16(h, 10), Read32(h, off), ip);
    HeaderSum(h, c, off, ip);
    Replace32Balances(Read16(h, 10), Read32(h, off), ip);
    var k :| Apart(c + Halves(ip), Read16(h, 10) + Halves(Read32(h, off)), k);
    assert Apart(WordSum(h'), WordSum(h), k);
    assert h'[0] == h[0];
    WordSumPositive(h, 0);
    WordSumPositive(h', 0);
    AcceptsCongruent(WordSum(h'), WordSum(h));
  }

  lemma {:induction false} SegmentSum(s: seq<Byte>, c2: nat, c3: nat, off: nat, port: nat)
    requires |s| >= 20 && (off == 0 || off == 2) && c2 <= ALL_ONES && c3 <= ALL_ONES && port <= ALL_ONES
    ensures WordSum(Write16(Write16(Write16(s, 16, c2), 16, c3), off, port)) ==
            WordSum(s) - Read16(s, 16) + c3 - Read16(s, off) + port
  {
    var s2 := Write16(s, 16, c2);
    var s3 := Write16(s2, 16, c3);
    WordSumWrite16(s, 16, c2);
    WordSumWrite16(s2, 16, c3);
    WordSumWrite16(s3, off, port);
    assert Read16(s3, off) == Read16(s, off);
  }

  /** The numbers behind `SegmentUpdate`: the checksum absorbs both replacements. */
  lemma {:induction false} SegmentBalances(check: nat, oldIp: nat, ip: nat, from: nat, port: nat, c2: nat, c3: nat, before: int, after: int)
    requires check <= ALL_ONES && from <= ALL_ONES && port <= ALL_ONES
    requires oldIp < 0x1_0000_0000 && ip < 0x1_0000_0000
    requires c2 == Replace32(check, oldIp, ip) && c3 == Replace16(c2, from, port)
    requires after == before - check + c3 - from + port - Halves(oldIp) + Halves(ip)
    ensures Congruent(after, before)
  {
    Replace32Balances(check, oldIp, ip);
    Replace16Balances(c2, from, port);
    AddBalances(check, c2, c3, Halves(oldIp), Halves(ip), from, port, before, after);
  }

  lemma {:induction false} AddBalances(check: nat, c2: nat, c3: nat, oldSum: nat, newSum: nat, from: nat, port: nat, before: int, after: int)
    requires Congruent(c2 + newSum, check + oldSum) && Congruent(c3 + port, c2 + from)
    requires after == before - check + c3 - from + port - oldSum + newSum
    ensures Congruent(after, before)
  {
    CongruentSum(c2 + newSum, check + oldSum, c3 + port, c2 + from, after, before);
  }

  /** With the pseudo header changed by the same address, the sum over both stays the same modulo
      65535. */
  lemma {:induction false} SegmentUpdate(s: seq<Byte>, s': seq<Byte>, pseudo: nat, pseudo': nat, oldIp: nat, ip: nat, off: nat, port: nat)
    requires |s| >= 20 && (off == 0 || off == 2) && port <= ALL_ONES
    requires oldIp < 0x1_0000_0000 && ip < 0x1_0000_0000
    requires pseudo > 0 && pseudo' > 0 && pseudo' == pseudo - Halves(oldIp) + Halves(ip)
    requires s' == UpdateSegment(s, oldIp, ip, off, port)
    ensures Congruent(pseudo' + WordSum(s'), pseudo + WordSum(s))
  {
    var check, from := Read16(s, 16), Read16(s, off);
    var c2 := Replace32(check, oldIp, ip);
    var c3 := Replace16(c2, from, port);
    SegmentSum(s, c2, c3, off, port);
    SegmentBalances(check, oldIp, ip, from, port, c2, c3, pseudo + WordSum(s), pseudo' + WordSum(s'));
  }

  // ----- slices of a rewritten buffer ----------------------------------------------------------------

  lemma SliceWrite16(s: seq<Byte>, i: nat, v: nat, lo: nat, hi: nat)
    requires i + 2 <= |s| && v <= ALL_ONES && lo <= hi <= |s|
    ensures lo <= i && i + 2 <= hi ==> Write16(s, i, v)[lo..hi] == Write16(s[lo..hi], i - lo, v)
    ensures i + 2 <= lo || hi <= i ==> Write16(s, i, v)[lo..hi] == s[lo..hi]
  {}

  lemma SliceWrite32(s: seq<Byte>, i: nat, v: nat, lo: nat, hi: nat)
    requires i + 4 <= |s| && v < 0x1_0000_0000 && lo <= hi <= |s|
    ensures lo <= i && i + 4 <= hi ==> Write32(s, i, v)[lo..hi] == Write32(s[lo..hi], i - lo, v)
    ensures i + 4 <= lo || hi <= i ==> Write32(s, i, v)[lo..hi] == s[lo..hi]
  {
    SliceWrite16(s, i, v / 0x1_0000, lo, hi);
    SliceWrite16(Write16(s, i, v / 0x1_0000), i + 2, v % 0x1_0000, lo, hi);
  }
}
