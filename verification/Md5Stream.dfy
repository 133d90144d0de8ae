/** Streaming a message through a 64-byte block function in slices, with a 64-bit count of bits in two
    32-bit words, and the padding that ends it (md5.c; sections 3.1 to 3.4 of RFC 1321). The block
    function is a parameter here. */
module Md5Stream {
  import opened Bytes

  type Compress<!S> = (S, seq<byte>) -> S

  /** The block function folded over all blocks of a message of whole blocks. */
  function Fold<S>(f: Compress<S>, st: S, s: seq<byte>): S
    requires |s| % 64 == 0
    decreases |s|
  {
    if |s| == 0 then st else Fold(f, f(st, s[..64]), s[64..])
  }

  lemma {:induction false} FoldConcat<S>(f: Compress<S>, st: S, a: seq<byte>, b: seq<byte>)
    requires |a| % 64 == 0 && |b| % 64 == 0
    ensures Fold(f, st, a + b) == Fold(f, Fold(f, st, a), b)
    decreases |a|
  {
    if |a| == 0 {
      assert a + b == b;
    } else {
      assert (a + b)[..64] == a[..64] && (a + b)[64..] == a[64..] + b;
      FoldConcat(f, f(st, a[..64]), a[64..], b);
    }
  }

  lemma FoldOne<S>(f: Compress<S>, st: S, b: seq<byte>)
    requires |b| == 64
    ensures Fold(f, st, b) == f(st, b)
  {
    assert b[..64] == b && b[64..] == [];
  }

  /** Sections 3.1 and 3.2 of RFC 1321: a one bit, zeros up to 56 modulo 64 bytes, and the length in bits
      modulo 2^64 as two words, low-order word first. */
  function Padding(len: nat): seq<byte> {
    [0x80] + Zeros((119 - len % 64) % 64) + LengthField(len)
  }

  function LengthField(len: nat): (r: seq<byte>)
    ensures |r| == 8
  {
    var bits := (8 * len) % 0x1_0000_0000_0000_0000;
    LittleEndian(bits % 0x1_0000_0000) + LittleEndian(bits / 0x1_0000_0000)
  }

  lemma PaddedWhole(len: nat)
    ensures (len + |Padding(len)|) % 64 == 0
  {
    hide LengthField;
    var q, r := len / 64, len % 64;
    var z := (119 - r) % 64;
    assert |Padding(len)| == 1 + z + 8;
    hide Padding;
    assert z == if r <= 55 then 55 - r else 119 - r;
    assert len + (1 + z + 8) == 64 * (if r <= 55 then q + 1 else q + 2);
  }

  /** The one-shot definition. */
  function OneShot<S>(f: Compress<S>, init: S, m: seq<byte>): S {
    PaddedWhole(|m|);
    Fold(f, init, m + Padding(|m|))
  }

  // ---------------------------------------------------------------- the counter

  /** The bit counter after `len` more bytes, in the two words with carry. */
  function Count(low: nat, high: nat, len: nat): (nat, nat)
    requires low < 0x1_0000_0000 && high < 0x1_0000_0000 && len < 0x1_0000_0000
  {
    var l := (low + (8 * len) % 0x1_0000_0000) % 0x1_0000_0000;
    var h := if l < low then (high + 1) % 0x1_0000_0000 else high;
    (l, (h + len / 0x2000_0000) % 0x1_0000_0000)
  }

  ghost predicate Counts(low: nat, high: nat, len: nat) {
    && low < 0x1_0000_0000 && high < 0x1_0000_0000
    && high * 0x1_0000_0000 + low == (8 * len) % 0x1_0000_0000_0000_0000
  }

  /** Low word: its new value and the carry out of it. */
  lemma CountLow(low: nat, high: nat, len: nat)
    requires low < 0x1_0000_0000 && high < 0x1_0000_0000 && len < 0x1_0000_0000
    ensures var (l, h) := Count(low, high, len);
            var carry := if l < low then 1 else 0;
            && low + 8 * (len % 0x2000_0000) == carry * 0x1_0000_0000 + l
            && h == (high + carry + len / 0x2000_0000) % 0x1_0000_0000
  {
    assert (8 * len) % 0x1_0000_0000 == 8 * (len % 0x2000_0000);
  }

  /** The two words count bits modulo 2^64. */
  lemma CountAdds(low: nat, high: nat, total: nat, len: nat)
    requires Counts(low, high, total) && len < 0x1_0000_0000
    ensures var (l, h) := Count(low, high, len); Counts(l, h, total + len)
  {
    CountLow(low, high, len);
    hide Count;
    var (l, h) := Count(low, high, len);
    var carry := if l < low then 1 else 0;
    var q := len / 0x2000_0000;
    assert len == q * 0x2000_0000 + len % 0x2000_0000;
    var top := high + carry + q;
    assert high * 0x1_0000_0000 + low + 8 * len == top * 0x1_0000_0000 + l;
    WrapTop(top, l);
    Wrap(8 * total, 8 * len);
  }

  lemma WrapTop(top: nat, l: nat)
    requires l < 0x1_0000_0000
    ensures (top * 0x1_0000_0000 + l) % 0x1_0000_0000_0000_0000 == (top % 0x1_0000_0000) * 0x1_0000_0000 + l
  {
  }

  lemma Wrap(x: nat, y: nat)
    ensures (x % 0x1_0000_0000_0000_0000 + y) % 0x1_0000_0000_0000_0000 == (x + y) % 0x1_0000_0000_0000_0000
  {
  }

  lemma CountsZero()
    ensures Counts(0, 0, 0)
  {
  }

  /** The low word alone gives the fill of the block. */
  lemma CountsFill(low: nat, high: nat, len: nat)
    requires Counts(low, high, len)
    ensures low / 8 % 64 == len % 64
    ensures low == (8 * len) % 0x1_0000_0000_0000_0000 % 0x1_0000_0000
    ensures high == (8 * len) % 0x1_0000_0000_0000_0000 / 0x1_0000_0000
  {
    var q := 8 * len / 0x1_0000_0000_0000_0000;
    var k := q * 0x80_0000_0000_0000 + high * 0x80_0000;
    assert 8 * len == q * 0x1_0000_0000_0000_0000 + high * 0x1_0000_0000 + low;
    assert low / 8 + 64 * k == len;
    SameFill(low / 8, k);
  }

  lemma SameFill(x: nat, k: nat)
    ensures (x + 64 * k) % 64 == x % 64
  {
  }
}
