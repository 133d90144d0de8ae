/** The block function of MD5 (md5.c): four rounds of sixteen unrolled steps, against section 3.4 of RFC 1321,
    which describes one operation and the order in which words, constants and shifts are used. */
module Md5Transform {
  import opened Bytes
  import opened Md5Stream

  type Word = bv32

  datatype Regs = Regs(a: Word, b: Word, c: Word, d: Word)

  const INIT := Regs(0x67452301, 0xefcdab89, 0x98badcfe, 0x10325476)

  // ---------------------------------------------------------------- section 3.4 of RFC 1321

  function RotateLeft(w: Word, s: nat): Word
    requires 0 < s < 32
  {
    (w << s) | (w >> (32 - s))
  }

  /** Addition modulo 2^32. */
  function Add(x: Word, y: Word): Word {
    x + y
  }

  function AuxF(x: Word, y: Word, z: Word): Word {
    (x & y) | (!x & z)
  }

  function AuxG(x: Word, y: Word, z: Word): Word {
    (x & z) | (y & !z)
  }

  function AuxH(x: Word, y: Word, z: Word): Word {
    x ^ y ^ z
  }

  function AuxI(x: Word, y: Word, z: Word): Word {
    y ^ (x | !z)
  }

  /** The auxiliary function of a round. */
  function Aux(round: nat, x: Word, y: Word, z: Word): Word {
    if round == 0 then AuxF(x, y, z) else if round == 1 then AuxG(x, y, z) else if round == 2 then AuxH(x, y, z)
      else AuxI(x, y, z)
  }

  /** The word used by operation `i`. */
  function K(i: nat): (k: nat)
    ensures k < 16
  {
    if i < 16 then i % 16 else if i < 32 then (1 + 5 * i) % 16 else if i < 48 then (5 + 3 * i) % 16 else 7 * i % 16
  }

  /** The shift of operation `i`. */
  function S(i: nat): (s: nat)
    ensures 0 < s < 32
  {
    var j := i % 4;
    if i < 16 then (if j == 0 then 7 else if j == 1 then 12 else if j == 2 then 17 else 22)
    else if i < 32 then (if j == 0 then 5 else if j == 1 then 9 else if j == 2 then 14 else 20)
    else if i < 48 then (if j == 0 then 4 else if j == 1 then 11 else if j == 2 then 16 else 23)
    else (if j == 0 then 6 else if j == 1 then 10 else if j == 2 then 15 else 21)
  }

  /** The table of sines. */
  function T(i: nat): Word
    requires i < 64
  {
    if i < 16 then T1[i]
    else if i < 32 then T2[i - 16]
    else if i < 48 then T3[i - 32]
    else T4[i - 48]
  }

  const T1: seq<Word> := [
    0xd76aa478, 0xe8c7b756, 0x242070db, 0xc1bdceee, 0xf57c0faf, 0x4787c62a, 0xa8304613, 0xfd469501,
    0x698098d8, 0x8b44f7af, 0xffff5bb1, 0x895cd7be, 0x6b901122, 0xfd987193, 0xa679438e, 0x49b40821]

  const T2: seq<Word> := [
    0xf61e2562, 0xc040b340, 0x265e5a51, 0xe9b6c7aa, 0xd62f105d, 0x02441453, 0xd8a1e681, 0xe7d3fbc8,
    0x21e1cde6, 0xc33707d6, 0xf4d50d87, 0x455a14ed, 0xa9e3e905, 0xfcefa3f8, 0x676f02d9, 0x8d2a4c8a]

  const T3: seq<Word> := [
    0xfffa3942, 0x8771f681, 0x6d9d6122, 0xfde5380c, 0xa4beea44, 0x4bdecfa9, 0xf6bb4b60, 0xbebfbc70,
    0x289b7ec6, 0xeaa127fa, 0xd4ef3085, 0x04881d05, 0xd9d4d039, 0xe6db99e5, 0x1fa27cf8, 0xc4ac5665]

  const T4: seq<Word> := [
    0xf4292244, 0x432aff97, 0xab9423a7, 0xfc93a039, 0x655b59c3, 0x8f0ccc92, 0xffeff47d, 0x85845dd1,
    0x6fa87e4f, 0xfe2ce6e0, 0xa3014314, 0x4e0811a1, 0xf7537e82, 0xbd3af235, 0x2ad7d2bb, 0xeb86d391]

  /** One operation: a = b + ((a + F(b, c, d) + X[k] + T[i]) <<< s). */
  function Operation(i: nat, x: seq<Word>, a: Word, b: Word, c: Word, d: Word): Word
    requires i < 64 && |x| == 16
  {
    Add(b, RotateLeft(Add(a, Add(Aux(i / 16, b, c, d), Add(x[K(i)], T(i)))), S(i)))
  }

  /** The first `n` operations; after each, the registers change places. */
  function Operations(n: nat, x: seq<Word>, r: Regs): Regs
    requires n <= 64 && |x| == 16
  {
    if n == 0 then r
    else
      var q := Operations(n - 1, x, r);
      Regs(q.d, Operation(n - 1, x, q.a, q.b, q.c, q.d), q.b, q.c)
  }

  function ProcessWords(r: Regs, x: seq<Word>): Regs
    requires |x| == 16
  {
    var q := Operations(64, x, r);
    Regs(Add(r.a, q.a), Add(r.b, q.b), Add(r.c, q.c), Add(r.d, q.d))
  }

  /** The value of four bytes, low-order byte first. */
  function Valued(a: bv8, b: bv8, c: bv8, d: bv8): Word {
    (d as bv32) * 0x100_0000 + (c as bv32) * 0x1_0000 + (b as bv32) * 0x100 + (a as bv32)
  }

  /** The words of a block, low-order byte first. */
  function WordAt(s: seq<byte>, i: nat): Word
    requires 4 * i + 4 <= |s|
  {
    Valued(s[4 * i] as bv8, s[4 * i + 1] as bv8, s[4 * i + 2] as bv8, s[4 * i + 3] as bv8)
  }

  function Words(s: seq<byte>): (x: seq<Word>)
    requires |s| == 64
    ensures |x| == 16
  {
    seq(16, i requires 0 <= i < 16 => WordAt(s, i))
  }

  /** The block function; a block always has 64 bytes. */
  function Process(r: Regs, s: seq<byte>): Regs {
    if |s| == 64 then ProcessWords(r, Words(s)) else r
  }

  /** Section 3.5: the digest is the four words, low-order byte first. */
  function WordBytes(w: Word): seq<byte> {
    LittleEndian(w as nat)
  }

  function DigestBytes(r: Regs): seq<byte> {
    WordBytes(r.a) + WordBytes(r.b) + WordBytes(r.c) + WordBytes(r.d)
  }

  /** The MD5 of a message: sections 3.1 to 3.5 of RFC 1321. */
  function Md5(m: seq<byte>): seq<byte> {
    DigestBytes(OneShot(Process, INIT, m))
  }

  // ---------------------------------------------------------------- the steps of the code

  function F1(x: Word, y: Word, z: Word): Word {
    z ^ (x & (y ^ z))
  }

  function F3(x: Word, y: Word, z: Word): Word {
    x ^ y ^ z
  }

  function F4(x: Word, y: Word, z: Word): Word {
    y ^ (x | !z)
  }

  function F(f: nat, x: Word, y: Word, z: Word): Word {
    if f == 0 then F1(x, y, z) else if f == 1 then F1(z, x, y) else if f == 2 then F3(x, y, z) else F4(x, y, z)
  }

  function Step(f: nat, w: Word, x: Word, y: Word, z: Word, data: Word, s: nat): Word
    requires 0 < s < 32
  {
    Add(RotateLeft(Add(w, Add(F(f, x, y, z), data)), s), x)
  }

  lemma Select(x: Word, y: Word, z: Word)
    ensures z ^ (x & (y ^ z)) == (x & y) | (!x & z)
  {
  }

  lemma Swap(x: Word, y: Word, z: Word)
    ensures (z & x) | (!z & y) == (x & z) | (y & !z)
  {
  }

  lemma F1IsF(x: Word, y: Word, z: Word)
    ensures F1(x, y, z) == AuxF(x, y, z)
  {
    Select(x, y, z);
  }

  lemma F1IsG(x: Word, y: Word, z: Word)
    ensures F1(z, x, y) == AuxG(x, y, z)
  {
    Select(z, x, y);
    Swap(x, y, z);
  }

  lemma Same34(x: Word, y: Word, z: Word)
    ensures F3(x, y, z) == AuxH(x, y, z) && F4(x, y, z) == AuxI(x, y, z)
  {
  }

  /** The optimised functions are those of the standard. */
  lemma FIsAux(f: nat, x: Word, y: Word, z: Word)
    ensures F(f, x, y, z) == Aux(f, x, y, z)
  {
    hide F1, F3, F4, AuxF, AuxG, AuxH, AuxI;
    F1IsF(x, y, z);
    F1IsG(x, y, z);
    Same34(x, y, z);
  }

  lemma AddSwap(x: Word, y: Word)
    ensures Add(x, y) == Add(y, x)
  {
  }

  /** A step of the code with the word, constant and shift of operation `i` is that operation. */
  lemma StepIs(i: nat, x: seq<Word>, a: Word, b: Word, c: Word, d: Word)
    requires i < 64 && |x| == 16
    ensures Step(i / 16, a, b, c, d, Add(x[K(i)], T(i)), S(i)) == Operation(i, x, a, b, c, d)
  {
    hide F, Aux, RotateLeft, K, T, S, Add;
    FIsAux(i / 16, b, c, d);
    AddSwap(RotateLeft(Add(a, Add(Aux(i / 16, b, c, d), Add(x[K(i)], T(i)))), S(i)), b);
  }

  /** Four steps of the code, which rename the registers instead of moving them, are four operations. */
  lemma FourSteps(i: nat, x: seq<Word>, r: Regs, q: Regs)
    requires i % 4 == 0 && i + 4 <= 64 && |x| == 16 && q == Operations(i, x, r)
    ensures var a := Operation(i, x, q.a, q.b, q.c, q.d);
            var d := Operation(i + 1, x, q.d, a, q.b, q.c);
            var c := Operation(i + 2, x, q.c, d, a, q.b);
            var b := Operation(i + 3, x, q.b, c, d, a);
            Operations(i + 4, x, r) == Regs(a, b, c, d)
  {
    hide Operation;
    assert Operations(i + 1, x, r) == Regs(q.d, Operation(i, x, q.a, q.b, q.c, q.d), q.b, q.c);
    var q1 := Operations(i + 1, x, r);
    assert Operations(i + 2, x, r) == Regs(q1.d, Operation(i + 1, x, q1.a, q1.b, q1.c, q1.d), q1.b, q1.c);
    var q2 := Operations(i + 2, x, r);
    assert Operations(i + 3, x, r) == Regs(q2.d, Operation(i + 2, x, q2.a, q2.b, q2.c, q2.d), q2.b, q2.c);
  }

  function Data(i: nat, x: seq<Word>): Word
    requires i < 64 && |x| == 16
  {
    Add(x[K(i)], T(i))
  }

  lemma StepsAre(i: nat, x: seq<Word>, r: Regs, q: Regs)
    requires i % 4 == 0 && i + 4 <= 64 && |x| == 16 && q == Operations(i, x, r)
    ensures var f := i / 16;
            var a := Step(f, q.a, q.b, q.c, q.d, Data(i, x), S(i));
            var d := Step(f, q.d, a, q.b, q.c, Data(i + 1, x), S(i + 1));
            var c := Step(f, q.c, d, a, q.b, Data(i + 2, x), S(i + 2));
            var b := Step(f, q.b, c, d, a, Data(i + 3, x), S(i + 3));
            Operations(i + 4, x, r) == Regs(a, b, c, d)
  {
    hide Step, Operation, Operations, K, T, S, Add;
    var a := Operation(i, x, q.a, q.b, q.c, q.d);
    var d := Operation(i + 1, x, q.d, a, q.b, q.c);
    var c := Operation(i + 2, x, q.c, d, a, q.b);
    StepIs(i, x, q.a, q.b, q.c, q.d);
    StepIs(i + 1, x, q.d, a, q.b, q.c);
    StepIs(i + 2, x, q.c, d, a, q.b);
    StepIs(i + 3, x, q.b, c, d, a);
    FourSteps(i, x, r, q);
  }

  lemma Constants1()
    ensures T(0) == 0xd76aa478 && T(1) == 0xe8c7b756 && T(2) == 0x242070db && T(3) == 0xc1bdceee
    ensures T(4) == 0xf57c0faf && T(5) == 0x4787c62a && T(6) == 0xa8304613 && T(7) == 0xfd469501
    ensures T(8) == 0x698098d8 && T(9) == 0x8b44f7af && T(10) == 0xffff5bb1 && T(11) == 0x895cd7be
    ensures T(12) == 0x6b901122 && T(13) == 0xfd987193 && T(14) == 0xa679438e && T(15) == 0x49b40821
  {
  }

  lemma Order1()
    ensures K(0) == 0 && S(0) == 7 && K(1) == 1 && S(1) == 12 && K(2) == 2 && S(2) == 17 && K(3) == 3 && S(3) == 22
    ensures K(4) == 4 && S(4) == 7 && K(5) == 5 && S(5) == 12 && K(6) == 6 && S(6) == 17 && K(7) == 7 && S(7) == 22
    ensures K(8) == 8 && S(8) == 7 && K(9) == 9 && S(9) == 12 && K(10) == 10 && S(10) == 17 && K(11) == 11
            && S(11) == 22
    ensures K(12) == 12 && S(12) == 7 && K(13) == 13 && S(13) == 12 && K(14) == 14 && S(14) == 17 && K(15) == 15
            && S(15) == 22
  {
  }

  lemma Table1(x: seq<Word>)
    requires |x| == 16
    ensures Data(0, x) == Add(x[0], 0xd76aa478) && S(0) == 7
    ensures Data(1, x) == Add(x[1], 0xe8c7b756) && S(1) == 12
    ensures Data(2, x) == Add(x[2], 0x242070db) && S(2) == 17
    ensures Data(3, x) == Add(x[3], 0xc1bdceee) && S(3) == 22
    ensures Data(4, x) == Add(x[4], 0xf57c0faf) && S(4) == 7
    ensures Data(5, x) == Add(x[5], 0x4787c62a) && S(5) == 12
    ensures Data(6, x) == Add(x[6], 0xa8304613) && S(6) == 17
    ensures Data(7, x) == Add(x[7], 0xfd469501) && S(7) == 22
    ensures Data(8, x) == Add(x[8], 0x698098d8) && S(8) == 7
    ensures Data(9, x) == Add(x[9], 0x8b44f7af) && S(9) == 12
    ensures Data(10, x) == Add(x[10], 0xffff5bb1) && S(10) == 17
    ensures Data(11, x) == Add(x[11], 0x895cd7be) && S(11) == 22
    ensures Data(12, x) == Add(x[12], 0x6b901122) && S(12) == 7
    ensures Data(13, x) == Add(x[13], 0xfd987193) && S(13) == 12
    ensures Data(14, x) == Add(x[14], 0xa679438e) && S(14) == 17
    ensures Data(15, x) == Add(x[15], 0x49b40821) && S(15) == 22
  {
    hide Add, K, T, S;
    Constants1();
    Order1();
  }

  lemma Constants2()
    ensures T(16) == 0xf61e2562 && T(17) == 0xc040b340 && T(18) == 0x265e5a51 && T(19) == 0xe9b6c7aa
    ensures T(20) == 0xd62f105d && T(21) == 0x02441453 && T(22) == 0xd8a1e681 && T(23) == 0xe7d3fbc8
    ensures T(24) == 0x21e1cde6 && T(25) == 0xc33707d6 && T(26) == 0xf4d50d87 && T(27) == 0x455a14ed
    ensures T(28) == 0xa9e3e905 && T(29) == 0xfcefa3f8 && T(30) == 0x676f02d9 && T(31) == 0x8d2a4c8a
  {
  }

  lemma Order2()
    ensures K(16) == 1 && S(16) == 5 && K(17) == 6 && S(17) == 9 && K(18) == 11 && S(18) == 14 && K(19) == 0
            && S(19) == 20
    ensures K(20) == 5 && S(20) == 5 && K(21) == 10 && S(21) == 9 && K(22) == 15 && S(22) == 14 && K(23) == 4
            && S(23) == 20
    ensures K(24) == 9 && S(24) == 5 && K(25) == 14 && S(25) == 9 && K(26) == 3 && S(26) == 14 && K(27) == 8
            && S(27) == 20
    ensures K(28) == 13 && S(28) == 5 && K(29) == 2 && S(29) == 9 && K(30) == 7 && S(30) == 14 && K(31) == 12
            && S(31) == 20
  {
  }

  lemma Table2(x: seq<Word>)
    requires |x| == 16
    ensures Data(16, x) == Add(x[1], 0xf61e2562) && S(16) == 5
    ensures Data(17, x) == Add(x[6], 0xc040b340) && S(17) == 9
    ensures Data(18, x) == Add(x[11], 0x265e5a51) && S(18) == 14
    ensures Data(19, x) == Add(x[0], 0xe9b6c7aa) && S(19) == 20
    ensures Data(20, x) == Add(x[5], 0xd62f105d) && S(20) == 5
    ensures Data(21, x) == Add(x[10], 0x02441453) && S(21) == 9
    ensures Data(22, x) == Add(x[15], 0xd8a1e681) && S(22) == 14
    ensures Data(23, x) == Add(x[4], 0xe7d3fbc8) && S(23) == 20
    ensures Data(24, x) == Add(x[9], 0x21e1cde6) && S(24) == 5
    ensures Data(25, x) == Add(x[14], 0xc33707d6) && S(25) == 9
    ensures Data(26, x) == Add(x[3], 0xf4d50d87) && S(26) == 14
    ensures Data(27, x) == Add(x[8], 0x455a14ed) && S(27) == 20
    ensures Data(28, x) == Add(x[13], 0xa9e3e905) && S(28) == 5
    ensures Data(29, x) == Add(x[2], 0xfcefa3f8) && S(29) == 9
    ensures Data(30, x) == Add(x[7], 0x676f02d9) && S(30) == 14
    ensures Data(31, x) == Add(x[12], 0x8d2a4c8a) && S(31) == 20
  {
    hide Add, K, T, S;
    Constants2();
    Order2();
  }

  lemma Constants3()
    ensures T(32) == 0xfffa3942 && T(33) == 0x8771f681 && T(34) == 0x6d9d6122 && T(35) == 0xfde5380c
    ensures T(36) == 0xa4beea44 && T(37) == 0x4bdecfa9 && T(38) == 0xf6bb4b60 && T(39) == 0xbebfbc70
    ensures T(40) == 0x289b7ec6 && T(41) == 0xeaa127fa && T(42) == 0xd4ef3085 && T(43) == 0x04881d05
    ensures T(44) == 0xd9d4d039 && T(45) == 0xe6db99e5 && T(46) == 0x1fa27cf8 && T(47) == 0xc4ac5665
  {
  }

  lemma Order3()
    ensures K(32) == 5 && S(32) == 4 && K(33) == 8 && S(33) == 11 && K(34) == 11 && S(34) == 16 && K(35) == 14
            && S(35) == 23
    ensures K(36) == 1 && S(36) == 4 && K(37) == 4 && S(37) == 11 && K(38) == 7 && S(38) == 16 && K(39) == 10
            && S(39) == 23
    ensures K(40) == 13 && S(40) == 4 && K(41) == 0 && S(41) == 11 && K(42) == 3 && S(42) == 16 && K(43) == 6
            && S(43) == 23
    ensures K(44) == 9 && S(44) == 4 && K(45) == 12 && S(45) == 11 && K(46) == 15 && S(46) == 16 && K(47) == 2
            && S(47) == 23
  {
  }

  lemma Table3(x: seq<Word>)
    requires |x| == 16
    ensures Data(32, x) == Add(x[5], 0xfffa3942) && S(32) == 4
    ensures Data(33, x) == Add(x[8], 0x8771f681) && S(33) == 11
    ensures Data(34, x) == Add(x[11], 0x6d9d6122) && S(34) == 16
    ensures Data(35, x) == Add(x[14], 0xfde5380c) && S(35) == 23
    ensures Data(36, x) == Add(x[1], 0xa4beea44) && S(36) == 4
    ensures Data(37, x) == Add(x[4], 0x4bdecfa9) && S(37) == 11
    ensures Data(38, x) == Add(x[7], 0xf6bb4b60) && S(38) == 16
    ensures Data(39, x) == Add(x[10], 0xbebfbc70) && S(39) == 23
    ensures Data(40, x) == Add(x[13], 0x289b7ec6) && S(40) == 4
    ensures Data(41, x) == Add(x[0], 0xeaa127fa) && S(41) == 11
    ensures Data(42, x) == Add(x[3], 0xd4ef3085) && S(42) == 16
    ensures Data(43, x) == Add(x[6], 0x04881d05) && S(43) == 23
    ensures Data(44, x) == Add(x[9], 0xd9d4d039) && S(44) == 4
    ensures Data(45, x) == Add(x[12], 0xe6db99e5) && S(45) == 11
    ensures Data(46, x) == Add(x[15], 0x1fa27cf8) && S(46) == 16
    ensures Data(47, x) == Add(x[2], 0xc4ac5665) && S(47) == 23
  {
    hide Add, K, T, S;
    Constants3();
    Order3();
  }

  lemma Constants4()
    ensures T(48) == 0xf4292244 && T(49) == 0x432aff97 && T(50) == 0xab9423a7 && T(51) == 0xfc93a039
    ensures T(52) == 0x655b59c3 && T(53) == 0x8f0ccc92 && T(54) == 0xffeff47d && T(55) == 0x85845dd1
    ensures T(56) == 0x6fa87e4f && T(57) == 0xfe2ce6e0 && T(58) == 0xa3014314 && T(59) == 0x4e0811a1
    ensures T(60) == 0xf7537e82 && T(61) == 0xbd3af235 && T(62) == 0x2ad7d2bb && T(63) == 0xeb86d391
  {
  }

  lemma Order4()
    ensures K(48) == 0 && S(48) == 6 && K(49) == 7 && S(49) == 10 && K(50) == 14 && S(50) == 15 && K(51) == 5
            && S(51) == 21
    ensures K(52) == 12 && S(52) == 6 && K(53) == 3 && S(53) == 10 && K(54) == 10 && S(54) == 15 && K(55) == 1
            && S(55) == 21
    ensures K(56) == 8 && S(56) == 6 && K(57) == 15 && S(57) == 10 && K(58) == 6 && S(58) == 15 && K(59) == 13
            && S(59) == 21
    ensures K(60) == 4 && S(60) == 6 && K(61) == 11 && S(61) == 10 && K(62) == 2 && S(62) == 15 && K(63) == 9
            && S(63) == 21
  {
  }

  lemma Table4(x: seq<Word>)
    requires |x| == 16
    ensures Data(48, x) == Add(x[0], 0xf4292244) && S(48) == 6
    ensures Data(49, x) == Add(x[7], 0x432aff97) && S(49) == 10
    ensures Data(50, x) == Add(x[14], 0xab9423a7) && S(50) == 15
    ensures Data(51, x) == Add(x[5], 0xfc93a039) && S(51) == 21
    ensures Data(52, x) == Add(x[12], 0x655b59c3) && S(52) == 6
    ensures Data(53, x) == Add(x[3], 0x8f0ccc92) && S(53) == 10
    ensures Data(54, x) == Add(x[10], 0xffeff47d) && S(54) == 15
    ensures Data(55, x) == Add(x[1], 0x85845dd1) && S(55) == 21
    ensures Data(56, x) == Add(x[8], 0x6fa87e4f) && S(56) == 6
    ensures Data(57, x) == Add(x[15], 0xfe2ce6e0) && S(57) == 10
    ensures Data(58, x) == Add(x[6], 0xa3014314) && S(58) == 15
    ensures Data(59, x) == Add(x[13], 0x4e0811a1) && S(59) == 21
    ensures Data(60, x) == Add(x[4], 0xf7537e82) && S(60) == 6
    ensures Data(61, x) == Add(x[11], 0xbd3af235) && S(61) == 10
    ensures Data(62, x) == Add(x[2], 0x2ad7d2bb) && S(62) == 15
    ensures Data(63, x) == Add(x[9], 0xeb86d391) && S(63) == 21
  {
    hide Add, K, T, S;
    Constants4();
    Order4();
  }

  method Round1(q: Regs, x: seq<Word>, ghost r: Regs) returns (a: Word, b: Word, c: Word, d: Word)
    requires |x| == 16 && q == Operations(0, x, r)
    ensures Regs(a, b, c, d) == Operations(16, x, r)
  {
    hide Step, Operations, Data, S, Add;
    Table1(x);
    a, b, c, d := q.a, q.b, q.c, q.d;
    StepsAre(0, x, r, Regs(a, b, c, d));
    a := Step(0, a, b, c, d, Add(x[0], 0xd76aa478), 7);
    d := Step(0, d, a, b, c, Add(x[1], 0xe8c7b756), 12);
    c := Step(0, c, d, a, b, Add(x[2], 0x242070db), 17);
    b := Step(0, b, c, d, a, Add(x[3], 0xc1bdceee), 22);
    StepsAre(4, x, r, Regs(a, b, c, d));
    a := Step(0, a, b, c, d, Add(x[4], 0xf57c0faf), 7);
    d := Step(0, d, a, b, c, Add(x[5], 0x4787c62a), 12);
    c := Step(0, c, d, a, b, Add(x[6], 0xa8304613), 17);
    b := Step(0, b, c, d, a, Add(x[7], 0xfd469501), 22);
    StepsAre(8, x, r, Regs(a, b, c, d));
    a := Step(0, a, b, c, d, Add(x[8], 0x698098d8), 7);
    d := Step(0, d, a, b, c, Add(x[9], 0x8b44f7af), 12);
    c := Step(0, c, d, a, b, Add(x[10], 0xffff5bb1), 17);
    b := Step(0, b, c, d, a, Add(x[11], 0x895cd7be), 22);
    StepsAre(12, x, r, Regs(a, b, c, d));
    a := Step(0, a, b, c, d, Add(x[12], 0x6b901122), 7);
    d := Step(0, d, a, b, c, Add(x[13], 0xfd987193), 12);
    c := Step(0, c, d, a, b, Add(x[14], 0xa679438e), 17);
    b := Step(0, b, c, d, a, Add(x[15], 0x49b40821), 22);
  }

  method Round2(q: Regs, x: seq<Word>, ghost r: Regs) returns (a: Word, b: Word, c: Word, d: Word)
    requires |x| == 16 && q == Operations(16, x, r)
    ensures Regs(a, b, c, d) == Operations(32, x, r)
  {
    hide Step, Operations, Data, S, Add;
    Table2(x);
    a, b, c, d := q.a, q.b, q.c, q.d;
    StepsAre(16, x, r, Regs(a, b, c, d));
    a := Step(1, a, b, c, d, Add(x[1], 0xf61e2562), 5);
    d := Step(1, d, a, b, c, Add(x[6], 0xc040b340), 9);
    c := Step(1, c, d, a, b, Add(x[11], 0x265e5a51), 14);
    b := Step(1, b, c, d, a, Add(x[0], 0xe9b6c7aa), 20);
    StepsAre(20, x, r, Regs(a, b, c, d));
    a := Step(1, a, b, c, d, Add(x[5], 0xd62f105d), 5);
    d := Step(1, d, a, b, c, Add(x[10], 0x02441453), 9);
    c := Step(1, c, d, a, b, Add(x[15], 0xd8a1e681), 14);
    b := Step(1, b, c, d, a, Add(x[4], 0xe7d3fbc8), 20);
    StepsAre(24, x, r, Regs(a, b, c, d));
    a := Step(1, a, b, c, d, Add(x[9], 0x21e1cde6), 5);
    d := Step(1, d, a, b, c, Add(x[14], 0xc33707d6), 9);
    c := Step(1, c, d, a, b, Add(x[3], 0xf4d50d87), 14);
    b := Step(1, b, c, d, a, Add(x[8], 0x455a14ed), 20);
    StepsAre(28, x, r, Regs(a, b, c, d));
    a := Step(1, a, b, c, d, Add(x[13], 0xa9e3e905), 5);
    d := Step(1, d, a, b, c, Add(x[2], 0xfcefa3f8), 9);
    c := Step(1, c, d, a, b, Add(x[7], 0x676f02d9), 14);
    b := Step(1, b, c, d, a, Add(x[12], 0x8d2a4c8a), 20);
  }

  method Round3(q: Regs, x: seq<Word>, ghost r: Regs) returns (a: Word, b: Word, c: Word, d: Word)
    requires |x| == 16 && q == Operations(32, x, r)
    ensures Regs(a, b, c, d) == Operations(48, x, r)
  {
    hide Step, Operations, Data, S, Add;
    Table3(x);
    a, b, c, d := q.a, q.b, q.c, q.d;
    StepsAre(32, x, r, Regs(a, b, c, d));
    a := Step(2, a, b, c, d, Add(x[5], 0xfffa3942), 4);
    d := Step(2, d, a, b, c, Add(x[8], 0x8771f681), 11);
    c := Step(2, c, d, a, b, Add(x[11], 0x6d9d6122), 16);
    b := Step(2, b, c, d, a, Add(x[14], 0xfde5380c), 23);
    StepsAre(36, x, r, Regs(a, b, c, d));
    a := Step(2, a, b, c, d, Add(x[1], 0xa4beea44), 4);
    d := Step(2, d, a, b, c, Add(x[4], 0x4bdecfa9), 11);
    c := Step(2, c, d, a, b, Add(x[7], 0xf6bb4b60), 16);
    b := Step(2, b, c, d, a, Add(x[10], 0xbebfbc70), 23);
    StepsAre(40, x, r, Regs(a, b, c, d));
    a := Step(2, a, b, c, d, Add(x[13], 0x289b7ec6), 4);
    d := Step(2, d, a, b, c, Add(x[0], 0xeaa127fa), 11);
    c := Step(2, c, d, a, b, Add(x[3], 0xd4ef3085), 16);
    b := Step(2, b, c, d, a, Add(x[6], 0x04881d05), 23);
    StepsAre(44, x, r, Regs(a, b, c, d));
    a := Step(2, a, b, c, d, Add(x[9], 0xd9d4d039), 4);
    d := Step(2, d, a, b, c, Add(x[12], 0xe6db99e5), 11);
    c := Step(2, c, d, a, b, Add(x[15], 0x1fa27cf8), 16);
    b := Step(2, b, c, d, a, Add(x[2], 0xc4ac5665), 23);
  }

  method Round4(q: Regs, x: seq<Word>, ghost r: Regs) returns (a: Word, b: Word, c: Word, d: Word)
    requires |x| == 16 && q == Operations(48, x, r)
    ensures Regs(a, b, c, d) == Operations(64, x, r)
  {
    hide Step, Operations, Data, S, Add;
    Table4(x);
    a, b, c, d := q.a, q.b, q.c, q.d;
    StepsAre(48, x, r, Regs(a, b, c, d));
    a := Step(3, a, b, c, d, Add(x[0], 0xf4292244), 6);
    d := Step(3, d, a, b, c, Add(x[7], 0x432aff97), 10);
    c := Step(3, c, d, a, b, Add(x[14], 0xab9423a7), 15);
    b := Step(3, b, c, d, a, Add(x[5], 0xfc93a039), 21);
    StepsAre(52, x, r, Regs(a, b, c, d));
    a := Step(3, a, b, c, d, Add(x[12], 0x655b59c3), 6);
    d := Step(3, d, a, b, c, Add(x[3], 0x8f0ccc92), 10);
    c := Step(3, c, d, a, b, Add(x[10], 0xffeff47d), 15);
    b := Step(3, b, c, d, a, Add(x[1], 0x85845dd1), 21);
    StepsAre(56, x, r, Regs(a, b, c, d));
    a := Step(3, a, b, c, d, Add(x[8], 0x6fa87e4f), 6);
    d := Step(3, d, a, b, c, Add(x[15], 0xfe2ce6e0), 10);
    c := Step(3, c, d, a, b, Add(x[6], 0xa3014314), 15);
    b := Step(3, b, c, d, a, Add(x[13], 0x4e0811a1), 21);
    StepsAre(60, x, r, Regs(a, b, c, d));
    a := Step(3, a, b, c, d, Add(x[4], 0xf7537e82), 6);
    d := Step(3, d, a, b, c, Add(x[11], 0xbd3af235), 10);
    c := Step(3, c, d, a, b, Add(x[2], 0x2ad7d2bb), 15);
    b := Step(3, b, c, d, a, Add(x[9], 0xeb86d391), 21);
  }

  /** The unrolled transformation is the block processing of the standard. */
  method Transform(buf: array<Word>, x: seq<Word>)
    requires buf.Length == 4 && |x| == 16
    modifies buf
    ensures Regs(buf[0], buf[1], buf[2], buf[3]) == ProcessWords(old(Regs(buf[0], buf[1], buf[2], buf[3])), x)
  {
    hide Operations, Add;
    ghost var r := Regs(buf[0], buf[1], buf[2], buf[3]);
    NoOperations(x, r);
    var a, b, c, d := Round1(Regs(buf[0], buf[1], buf[2], buf[3]), x, r);
    a, b, c, d := Round2(Regs(a, b, c, d), x, r);
    a, b, c, d := Round3(Regs(a, b, c, d), x, r);
    a, b, c, d := Round4(Regs(a, b, c, d), x, r);
    buf[0] := Add(buf[0], a);
    buf[1] := Add(buf[1], b);
    buf[2] := Add(buf[2], c);
    buf[3] := Add(buf[3], d);
  }

  lemma NoOperations(x: seq<Word>, r: Regs)
    requires |x| == 16
    ensures Operations(0, x, r) == r
  {
  }

  /** Four bytes put together by shifts. */
  function Shifted(a: bv8, b: bv8, c: bv8, d: bv8): Word {
    (((d as bv32 << 8) | (c as bv32)) << 16) | ((b as bv32 << 8) | (a as bv32))
  }

  lemma ShiftedIsValued(a: bv8, b: bv8, c: bv8, d: bv8)
    ensures Shifted(a, b, c, d) == Valued(a, b, c, d)
  {
  }

  /** Puts the words of a block together, low-order byte first. */
  method BlockWords(block: array<byte>) returns (x: seq<Word>)
    requires block.Length == 64
    ensures x == Words(block[..])
  {
    hide Shifted, Valued;
    x := [];
    for i := 0 to 16
      invariant |x| == i && forall j :: 0 <= j < i ==> x[j] == WordAt(block[..], j)
    {
      var a, b := block[4 * i] as bv8, block[4 * i + 1] as bv8;
      var c, d := block[4 * i + 2] as bv8, block[4 * i + 3] as bv8;
      ShiftedIsValued(a, b, c, d);
      x := x + [Shifted(a, b, c, d)];
    }
  }

  /** What the server does with a full block. */
  method TransformBlock(buf: array<Word>, block: array<byte>)
    requires buf.Length == 4 && block.Length == 64
    modifies buf
    ensures Regs(buf[0], buf[1], buf[2], buf[3]) == Process(old(Regs(buf[0], buf[1], buf[2], buf[3])), block[..])
  {
    hide Words, ProcessWords;
    var x := BlockWords(block);
    Transform(buf, x);
  }
}
