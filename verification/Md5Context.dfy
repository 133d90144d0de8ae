/** The MD5 context: four chaining words, a bit counter in two words and a 64-byte block, overwritten by
    each update (md5.c). */
module Md5Context {
  import opened Bytes
  import opened Md5Stream
  import opened Md5Transform

  /** A message in front of its last, incomplete block. */
  function Whole(m: seq<byte>): seq<byte> {
    m[..|m| - |m| % 64]
  }

  function Tail(m: seq<byte>): seq<byte> {
    m[|m| - |m| % 64..]
  }

  lemma WholeSplit(m: seq<byte>, a: seq<byte>, b: seq<byte>)
    requires m == a + b && |a| % 64 == 0 && |b| < 64
    ensures Whole(m) == a && Tail(m) == b
  {
    assert |m| % 64 == |b|;
  }

  lemma WholeTail(m: seq<byte>)
    ensures m == Whole(m) + Tail(m) && |Whole(m)| % 64 == 0 && |Tail(m)| == |m| % 64
  {
  }

  /** The padded message, cut where the last block or two begin. */
  ghost function Padded(m: seq<byte>, lengths: seq<byte>): seq<byte> {
    var whole, tail, r := Whole(m), Tail(m), |m| % 64;
    if r >= 56 then whole + (tail + [0x80] + Zeros(63 - r)) + (Zeros(56) + lengths)
    else whole + (tail + [0x80] + Zeros(55 - r) + lengths)
  }

  lemma PaddingIs(m: seq<byte>, lengths: seq<byte>)
    requires var bits := (8 * |m|) % 0x1_0000_0000_0000_0000;
             lengths == LittleEndian(bits % 0x1_0000_0000) + LittleEndian(bits / 0x1_0000_0000)
    ensures m + Padding(|m|) == Padded(m, lengths)
  {
    var r := |m| % 64;
    var pad := if r >= 56 then 119 - r else 55 - r;
    assert (119 - r) % 64 == pad;
    PaddingShape(|m|, pad, lengths);
    hide LittleEndian, Padding, Whole, Tail;
    WholeTail(m);
    PaddedParts(Whole(m), Tail(m), r, pad, lengths);
  }

  lemma PaddingShape(len: nat, pad: nat, lengths: seq<byte>)
    requires pad == (119 - len % 64) % 64
    requires var bits := (8 * len) % 0x1_0000_0000_0000_0000;
             lengths == LittleEndian(bits % 0x1_0000_0000) + LittleEndian(bits / 0x1_0000_0000)
    ensures Padding(len) == [0x80] + Zeros(pad) + lengths
  {
    var bits := (8 * len) % 0x1_0000_0000_0000_0000;
    var l, h := LittleEndian(bits % 0x1_0000_0000), LittleEndian(bits / 0x1_0000_0000);
    hide LittleEndian, Zeros;
    assert ([0x80] + Zeros(pad) + l) + h == [0x80] + Zeros(pad) + (l + h);
  }

  lemma PaddedParts(whole: seq<byte>, tail: seq<byte>, r: nat, pad: nat, lengths: seq<byte>)
    requires r < 64 && pad == if r >= 56 then 119 - r else 55 - r
    ensures (whole + tail) + ([0x80] + Zeros(pad) + lengths)
            == if r >= 56 then whole + (tail + [0x80] + Zeros(63 - r)) + (Zeros(56) + lengths)
               else whole + (tail + [0x80] + Zeros(55 - r) + lengths)
  {
    if r >= 56 {
      assert Zeros(pad) == Zeros(63 - r) + Zeros(56);
    }
  }

  class Context {
    const buf: array<Word>
    var low: nat
    var high: nat
    const block: array<byte>

    ghost function State(): Regs
      requires buf.Length == 4
      reads this, buf
    {
      Regs(buf[0], buf[1], buf[2], buf[3])
    }

    /** The context after the message `m`: the block function folded over all its full blocks, the bytes
        left over, and its length in bits modulo 2^64. */
    ghost predicate Holds(m: seq<byte>)
      reads this, block, buf
    {
      && block.Length == 64 && buf.Length == 4
      && Counts(low, high, |m|)
      && State() == Fold(Process, INIT, Whole(m))
      && block[..|m| % 64] == Tail(m)
    }

    constructor ()
      ensures Holds([]) && fresh(block) && fresh(buf)
    {
      CountsZero();
      buf := new Word[4][0x67452301, 0xefcdab89, 0x98badcfe, 0x10325476];
      low, high := 0, 0;
      block := new byte[64](_ => 0);
    }

    /** All of `whole` has been folded in; the block may be reused. */
    ghost predicate Folded(whole: seq<byte>)
      reads this, block, buf
    {
      block.Length == 64 && buf.Length == 4 && |whole| % 64 == 0 && State() == Fold(Process, INIT, whole)
    }

    /** A slice shares no memory with the context. */
    ghost predicate Apart(data: array<byte>)
      reads this
    {
      data != block && (data as object) != buf
    }

    /** Runs the unrolled transformation on the block in hand. */
    method ProcessBlock(ghost whole: seq<byte>)
      requires Folded(whole)
      modifies buf
      ensures Folded(whole + block[..])
    {
      hide Process;
      FoldConcat(Process, INIT, whole, block[..]);
      FoldOne(Process, State(), block[..]);
      hide Fold;
      TransformBlock(buf, block);
    }

    /** Completes the block in hand with the first bytes of a slice. */
    method CompleteBlock(data: array<byte>, fill: nat, ghost whole: seq<byte>, ghost tail: seq<byte>)
      requires Folded(whole) && Apart(data) && 0 < fill < 64 && data.Length >= 64 - fill && block[..fill] == tail
      modifies buf, block
      ensures Folded(whole + (tail + data[..64 - fill]))
    {
      hide Fold, Process;
      CopyBytes(data, 0, block, fill, 64 - fill);
      assert block[..] == block[..fill] + block[fill..fill + (64 - fill)];
      assert data[0..64 - fill] == data[..64 - fill];
      ProcessBlock(whole);
    }

    /** Processes the full blocks of a slice from `from` on. */
    method ProcessBlocks(data: array<byte>, from: nat, ghost whole: seq<byte>) returns (pos: nat, ghost done: seq<byte>)
      requires Folded(whole) && Apart(data) && from <= data.Length
      modifies buf, block
      ensures Folded(done) && from <= pos <= data.Length < pos + 64 && done == whole + data[from..pos]
    {
      hide Fold, Process;
      pos, done := from, whole;
      assert data[from..from] == [];
      while data.Length - pos >= 64
        invariant from <= pos <= data.Length && Folded(done) && done == whole + data[from..pos]
        decreases data.Length - pos
      {
        CopyBytes(data, pos, block, 0, 64);
        assert block[..] == block[0..64] == data[pos..pos + 64];
        ProcessBlock(done);
        assert data[from..pos + 64] == data[from..pos] + data[pos..pos + 64];
        assert (whole + data[from..pos]) + data[pos..pos + 64] == whole + (data[from..pos] + data[pos..pos + 64]);
        done := done + block[..];
        pos := pos + 64;
      }
    }

    /** Puts the bytes that fill no block aside. */
    method KeepTail(data: array<byte>, fill: nat, from: nat, ghost whole: seq<byte>, ghost tail: seq<byte>,
                    ghost m: seq<byte>)
      requires Folded(whole) && Apart(data) && from <= data.Length && fill + data.Length - from < 64
      requires block[..fill] == tail && m == whole + (tail + data[from..]) && Counts(low, high, |m|)
      modifies block
      ensures Holds(m)
    {
      hide Fold, Process, Counts;
      var n := data.Length - from;
      CopyBytes(data, from, block, fill, n);
      assert block[..fill + n] == block[..fill] + block[fill..fill + n];
      assert data[from..from + n] == data[from..];
      WholeSplit(m, whole, tail + data[from..]);
    }

    /** Adds the length of a slice to the counter and tells how full the block was. */
    method CountUp(len: nat, ghost total: nat) returns (fill: nat)
      requires Counts(low, high, total) && len < 0x1_0000_0000
      modifies this`low, this`high
      ensures Counts(low, high, total + len) && fill == total % 64
    {
      fill := low / 8 % 64;
      CountsFill(low, high, total);
      CountAdds(low, high, total, len);
      var (l, h) := Count(low, high, len);
      low, high := l, h;
    }

    /** Adds a slice of the message. */
    method Update(data: array<byte>, ghost m: seq<byte>)
      requires Holds(m) && Apart(data) && data.Length < 0x1_0000_0000
      modifies this, block, buf
      ensures Holds(m + data[..])
    {
      hide Fold, Process, Counts, Whole, Tail;
      WholeTail(m);
      ghost var whole, tail := Whole(m), Tail(m);
      var fill := CountUp(data.Length, |m|);
      assert data[0..] == data[..];
      if fill > 0 && data.Length < 64 - fill {
        assert m + data[..] == whole + (tail + data[..]);
        KeepTail(data, fill, 0, whole, tail, m + data[..]);
        return;
      }
      var from := 0;
      if fill > 0 {
        CompleteBlock(data, fill, whole, tail);
        from := 64 - fill;
        whole := whole + (tail + data[..from]);
      }
      assert m + data[..] == whole + data[from..];
      Rest(data, from, whole, m + data[..]);
    }

    method Rest(data: array<byte>, from: nat, ghost whole: seq<byte>, ghost m: seq<byte>)
      requires Folded(whole) && Apart(data) && from <= data.Length && m == whole + data[from..]
               && Counts(low, high, |m|)
      modifies buf, block
      ensures Holds(m)
    {
      hide Fold, Process, Counts, Holds;
      ghost var rest := data[from..];
      var pos, done := ProcessBlocks(data, from, whole);
      assert rest == data[from..pos] + data[pos..];
      assert whole + (data[from..pos] + data[pos..]) == (whole + data[from..pos]) + ([] + data[pos..]);
      assert block[..0] == [];
      KeepTail(data, 0, pos, done, [], m);
    }

    /** How full the block is, and the two words of the length. */
    method Fill(ghost m: seq<byte>) returns (count: nat)
      requires Counts(low, high, |m|)
      ensures count == |m| % 64 && low < 0x1_0000_0000 && high < 0x1_0000_0000
      ensures m + Padding(|m|) == Padded(m, LittleEndian(low) + LittleEndian(high))
    {
      CountsFill(low, high, |m|);
      count := low / 8 % 64;
      PaddingIs(m, LittleEndian(low) + LittleEndian(high));
    }

    /** Pads, appends the length, processes the last block or two, hands the digest out and wipes the
        context. */
    method Final(ghost m: seq<byte>) returns (digest: seq<byte>)
      requires Holds(m)
      modifies this, block, buf
      ensures digest == Md5(m)
      ensures State() == Regs(0, 0, 0, 0) && low == high == 0 && block[..] == Zeros(64)
    {
      FinishMessage(m);
      hide Process, Fold, WordBytes, Padding, OneShot;
      digest := WordBytes(buf[0]) + WordBytes(buf[1]) + WordBytes(buf[2]) + WordBytes(buf[3]);
      buf[0], buf[1], buf[2], buf[3] := 0, 0, 0, 0;
      low, high := 0, 0;
      ClearBlock(0, 64);
      assert block[..64] == block[..] && block[..0] == [] && [] + Zeros(64) == Zeros(64);
    }

    method FinishMessage(ghost m: seq<byte>)
      requires Holds(m)
      modifies this, block, buf
      ensures block.Length == 64 && buf.Length == 4 && State() == OneShot(Process, INIT, m)
    {
      hide Fold, Process, Counts, Whole, Tail, LittleEndian, Padding;
      WholeTail(m);
      ghost var whole, tail := Whole(m), Tail(m);
      var count := Fill(m);
      assert Folded(whole);
      hide Folded;
      block[count] := 0x80;
      assert block[..count + 1] == tail + [0x80];
      if count >= 56 {
        // two lots of padding
        ClearBlock(count + 1, 63 - count);
        assert block[..64] == block[..];
        ProcessBlock(whole);
        whole := whole + (tail + [0x80] + Zeros(63 - count));
        ClearBlock(0, 56);
        assert block[..0] == [] && [] + Zeros(56) == Zeros(56);
      } else {
        ClearBlock(count + 1, 55 - count);
      }
      PutLength();
      ProcessBlock(whole);
      FoldedIs(m + Padding(|m|));
    }

    lemma FoldedIs(s: seq<byte>)
      requires Folded(s)
      ensures |s| % 64 == 0 && buf.Length == 4 && State() == Fold(Process, INIT, s)
    {
    }

    method ClearBlock(from: nat, n: nat)
      requires block.Length == 64 && from + n <= 64
      modifies block
      ensures block[..from + n] == old(block[..from]) + Zeros(n)
    {
      forall i | from <= i < from + n {
        block[i] := 0;
      }
    }

    method PutLength()
      requires block.Length == 64 && low < 0x1_0000_0000 && high < 0x1_0000_0000
      modifies block
      ensures block[..] == old(block[..56]) + (LittleEndian(low) + LittleEndian(high))
    {
      var bytes := LittleEndian(low) + LittleEndian(high);
      forall i | 0 <= i < 8 {
        block[56 + i] := bytes[i];
      }
    }
  }

  /** The digest of a message that arrives in slices, computed by the unrolled code, is sections 3.1 to 3.5 of
      RFC 1321 applied to the whole message. */
  method Digest(slices: seq<array<byte>>, ghost parts: seq<seq<byte>>) returns (digest: seq<byte>)
    requires |parts| == |slices|
    requires forall i :: 0 <= i < |slices| ==> parts[i] == slices[i][..] && slices[i].Length < WORD
    ensures digest == Md5(Concat(parts))
  {
    hide Md5, Context.Holds;
    var ctx := new Context();
    assert parts[..0] == [];
    for i := 0 to |slices|
      invariant ctx.Holds(Concat(parts[..i])) && fresh(ctx) && fresh(ctx.block) && fresh(ctx.buf)
      invariant forall j :: 0 <= j < |slices| ==> parts[j] == slices[j][..]
    {
      assert parts[..i + 1][..i] == parts[..i];
      ctx.Update(slices[i], Concat(parts[..i]));
    }
    assert parts[..|slices|] == parts;
    digest := ctx.Final(Concat(parts));
  }
}
