/** Octets, the big-endian reading of a byte string, and the small sequence facts
    that every stream component of the model leans on. */
module Bytes {

  type byte = x: int | 0 <= x < 256

  datatype Option<+T> = None | Some(value: T)

  function Min(a: int, b: int): int {
    if a <= b then a else b
  }

  function Pow(b: nat, n: nat): nat {
    if n == 0 then 1 else b * Pow(b, n - 1)
  }

  /** The value of `s` read as an unsigned big-endian integer. */
  function BigEndian(s: seq<byte>): nat {
    if |s| == 0 then 0 else BigEndian(s[..|s| - 1]) * 256 + s[|s| - 1]
  }

  function Zeros(n: nat): seq<byte> {
    seq(n, _ => 0)
  }

  /** A C string: the bytes before the first zero byte. */
  function CString(s: seq<byte>): seq<byte> {
    if s == [] || s[0] == 0 then [] else [s[0]] + CString(s[1..])
  }

  const WORD := 0x1_0000_0000

  /** The first four bytes as a 32-bit word, low-order byte first. */
  function FromLittleEndian(s: seq<byte>): (w: nat)
    requires |s| >= 4
    ensures w < WORD
  {
    var (a: int, b: int, c: int, d: int) := (s[0], s[1], s[2], s[3]);
    ((d * 256 + c) * 256 + b) * 256 + a
  }

  /** The four bytes of a word, low-order byte first. */
  function LittleEndian(w: nat): (s: seq<byte>)
    requires w < WORD
    ensures |s| == 4 && FromLittleEndian(s) == w
  {
    var q1 := w / 256;
    var q2 := q1 / 256;
    [w % 256, q1 % 256, q2 % 256, q2 / 256]
  }

  lemma LittleEndianOf(s: seq<byte>)
    requires |s| >= 4
    ensures LittleEndian(FromLittleEndian(s)) == s[..4]
  {
    var a: int, b: int, c: int, d: int := s[0], s[1], s[2], s[3];
    var q2 := d * 256 + c;
    var q1 := q2 * 256 + b;
    var w := q1 * 256 + a;
    assert w / 256 == q1 && q1 / 256 == q2 && q2 / 256 == d;
  }

  lemma FromLittleEndianPrefix(a: seq<byte>, b: seq<byte>)
    requires |a| >= 4
    ensures FromLittleEndian(a + b) == FromLittleEndian(a)
  {
  }

  lemma Associate(a: seq<byte>, b: seq<byte>, c: seq<byte>)
    ensures a + b + c == a + (b + c)
  {
  }

  /** Concatenation of a sequence of byte strings. */
  function Concat(parts: seq<seq<byte>>): seq<byte> {
    if |parts| == 0 then [] else Concat(parts[..|parts| - 1]) + parts[|parts| - 1]
  }

  lemma {:induction false} ConcatAppend(a: seq<seq<byte>>, b: seq<seq<byte>>)
    ensures Concat(a + b) == Concat(a) + Concat(b)
    decreases |b|
  {
    if |b| == 0 {
      assert a + b == a;
    } else {
      var init := b[..|b| - 1];
      ConcatAppend(a, init);
      assert (a + b)[..|a + b| - 1] == a + init;
    }
  }

  /** memcpy, and memmove towards the front. */
  method CopyBytes(src: array<byte>, from: nat, dst: array<byte>, at: nat, n: nat)
    requires from + n <= src.Length && at + n <= dst.Length
    modifies dst
    ensures dst[..at] == old(dst[..at])
    ensures dst[at..at + n] == old(src[from..from + n])
    ensures dst[at + n..] == old(dst[at + n..])
  {
    forall i | 0 <= i < n {
      dst[at + i] := src[from + i];
    }
  }
}
