/** Bytes and big-endian numbers, as packets and TLS records carry them. */
module Bytes {

  type Byte = b: int | 0 <= b < 256

  function BE16(n: nat): (r: seq<Byte>)
    requires n < 0x1_0000
    ensures |r| == 2
  {
    [n / 256, n % 256]
  }

  function Read16(s: seq<Byte>, i: nat): (n: nat)
    requires i + 2 <= |s|
    ensures n < 0x1_0000
  {
    256 * (s[i] as int) + (s[i + 1] as int)
  }

  /** A number followed by more text is read back, and the cursor is behind it. */
  lemma TakeNumber(data: seq<Byte>, pos: nat, n: nat, rest: seq<Byte>)
    requires n < 0x1_0000 && pos <= |data| && data[pos..] == BE16(n) + rest
    ensures pos + 2 <= |data| && Read16(data, pos) == n && data[pos + 2..] == rest
  {
    assert data[pos] == data[pos..][0] && data[pos + 1] == data[pos..][1];
    assert data[pos + 2..] == data[pos..][2..];
  }

  lemma TakeByte(data: seq<Byte>, pos: nat, b: Byte, rest: seq<Byte>)
    requires pos <= |data| && data[pos..] == [b] + rest
    ensures pos + 1 <= |data| && data[pos] == b && data[pos + 1..] == rest
  {
    assert data[pos] == data[pos..][0];
    assert data[pos + 1..] == data[pos..][1..];
  }

  lemma Skip(data: seq<Byte>, pos: nat, part: seq<Byte>, rest: seq<Byte>)
    requires pos <= |data| && data[pos..] == part + rest
    ensures pos + |part| <= |data| && data[pos..pos + |part|] == part && data[pos + |part|..] == rest
  {
    assert data[pos..pos + |part|] == data[pos..][..|part|];
    assert data[pos + |part|..] == data[pos..][|part|..];
  }

  /** The cursor moves over a field behind its two-byte length. */
  lemma {:induction false} SkipField16(data: seq<Byte>, pos: nat, field: seq<Byte>, rest: seq<Byte>)
    requires |field| < 0x1_0000 && pos <= |data| && data[pos..] == BE16(|field|) + (field + rest)
    ensures pos + 2 + |field| <= |data| && Read16(data, pos) == |field| && data[pos + 2 + |field|..] == rest
  {
    TakeNumber(data, pos, |field|, field + rest);
    Skip(data, pos + 2, field, rest);
  }

  /** The same behind a one-byte length. */
  lemma {:induction false} SkipField8(data: seq<Byte>, pos: nat, field: seq<Byte>, rest: seq<Byte>)
    requires |field| < 0x100 && pos <= |data| && data[pos..] == [|field|] + (field + rest)
    ensures pos + 1 + |field| <= |data| && data[pos] == |field| && data[pos + 1 + |field|..] == rest
  {
    TakeByte(data, pos, |field|, field + rest);
    Skip(data, pos + 1, field, rest);
  }
}
