/** MD5 contexts. The compression of one block is a parameter. */
module Md5 {
  import opened Arith
  import opened WordBytes
  import opened HashSpec

  datatype Words = Words(a: nat, b: nat, c: nat, d: nat)

  type Compress = (Words, seq<Byte>) -> Words

  const IV: Words := Words(0x67452301, 0xefcdab89, 0x98badcfe, 0x10325476)

  function Bytes(w: Words): (b: seq<Byte>)
    ensures |b| == 16
  {
    Little32(w.a) + Little32(w.b) + Little32(w.c) + Little32(w.d)
  }

  /** The digest of a whole message: section 3 of RFC 1321. */
  function Digest(f: Compress, msg: seq<Byte>): (d: seq<Byte>)
    ensures |d| == 16
  {
    Bytes(Fold(f, IV, Padded(msg, LittleLength(msg))))
  }

  class Md5Context {
    const compress: Compress
    var state: Words
    var lo: nat
    var hi: nat
    const buffer: array<Byte>
    ghost var msg: seq<Byte>  // everything absorbed so far

    ghost function Model(): Context<Words>
      reads this, buffer
    {
      Context(state, lo, hi, buffer[..])
    }

    ghost predicate Valid()
      reads this, buffer
    {
      Absorbed(compress, IV, Model(), msg)
    }

    constructor (compress: Compress)
      ensures Valid() && fresh(buffer) && msg == [] && this.compress == compress
    {
      this.compress := compress;
      state := IV;
      lo, hi := 0, 0;
      buffer := new Byte[BLOCK](_ => 0);
      msg := [];
    }

    /** Absorb any number of bytes. */
    method Update(data: seq<Byte>)
      requires Valid() && |data| < TWO32
      modifies this, buffer
      ensures Valid() && msg == old(msg) + data
    {
      ghost var c := Model();
      UsedIs(|msg|, lo, hi);
      var t := lo / 8 % BLOCK;
      CountLength(|data|);
      if t != 0 && |data| < BLOCK - t {
        CopyIn(t, data);
        AbsorbShort(compress, IV, c, msg, data, Model());
      } else if t == 0 && |data| < BLOCK {
        CopyIn(0, data);
        assert c.buffer[..0] + data == data;
        AbsorbShort(compress, IV, c, msg, data, Model());
      } else {
        UpdateBlocks(t, data, c);
        AbsorbLong(compress, IV, c, msg, data, Model());
      }
      msg := msg + data;
    }

    method CountLength(len: nat)
      requires lo < TWO32 && len < TWO32
      modifies this`lo, this`hi
      ensures (lo, hi) == Count(old(lo), old(hi), len)
    {
      var t := lo;
      lo := U32(t + U32(8 * len));
      if lo < t {
        hi := hi + 1;
      }
      hi := U32(hi + len / 0x2000_0000);
      CarrySame(t, U32(8 * len));
    }

    method CopyIn(at: nat, data: seq<Byte>)
      requires at + |data| <= buffer.Length
      modifies buffer
      ensures buffer[..at + |data|] == old(buffer[..at]) + data
      ensures buffer[at + |data|..] == old(buffer[at + |data|..])
    {
      forall k | 0 <= k < |data| {
        buffer[at + k] := data[k];
      }
    }

    /** Complete the buffered block, if one was begun, and compress all whole blocks. */
    method UpdateBlocks(t: nat, data: seq<Byte>, ghost c: Context<Words>)
      requires t < BLOCK && t + |data| >= BLOCK && buffer.Length == BLOCK
      requires buffer[..] == c.buffer && state == c.state
      modifies this`state, buffer
      ensures var rest := data[BLOCK - t..];
              && state == Fold(compress, compress(c.state, c.buffer[..t] + data[..BLOCK - t]), rest[..Full(rest)])
              && buffer[..|rest| % BLOCK] == rest[Full(rest)..]
    {
      var i := BLOCK - t;
      CopyIn(t, data[..i]);
      assert buffer[..] == c.buffer[..t] + data[..i];
      state := compress(state, buffer[..]);
      var start := state;
      ghost var rest := data[BLOCK - t..];
      while |data| - i >= BLOCK
        invariant BLOCK - t <= i <= |data| && (i - (BLOCK - t)) % BLOCK == 0
        invariant state == Fold(compress, start, rest[..i - (BLOCK - t)])
      {
        ghost var n := i - (BLOCK - t);
        assert rest[..n] + data[i..i + BLOCK] == rest[..n + BLOCK];
        FoldOne(compress, state, data[i..i + BLOCK]);
        FoldConcat(compress, start, rest[..n], data[i..i + BLOCK]);
        CopyIn(0, data[i..i + BLOCK]);
        assert buffer[..] == data[i..i + BLOCK];
        state := compress(state, buffer[..]);
        i := i + BLOCK;
      }
      LastBlock(|rest|, i - (BLOCK - t));
      assert data[i..] == rest[Full(rest)..];
      CopyIn(0, data[i..]);
    }

    /** Pad inside the buffer, compress the last one or two blocks. */
    method Final() returns (digest: seq<Byte>)
      requires Valid()
      modifies this, buffer
      ensures digest == Digest(compress, old(msg))
    {
      hide Fold, Padded, Zeros, Little32;
      ghost var m := msg;
      UsedIs(|m|, lo, hi);
      CountSplit(|m|, lo, hi);
      var count := lo / 8 % BLOCK;
      var length := Little32(lo) + Little32(hi);
      assert length == LittleLength(m);
      ghost var s0, tail := state, m[Full(m)..];
      CopyIn(count, [0x80]);
      assert buffer[..count + 1] == tail + [0x80];
      var left := BLOCK - 1 - count;
      if left < 8 {
        CopyIn(count + 1, Zeros(left));
        assert buffer[..] == tail + [0x80] + Zeros(left);
        state := compress(state, buffer[..]);
        CopyIn(0, Zeros(56));
        CopyIn(56, length);
        assert buffer[..] == Zeros(56) + length;
        state := compress(state, buffer[..]);
        TwoBlocks(compress, m, length, s0, left);
      } else {
        CopyIn(count + 1, Zeros(left - 8));
        CopyIn(56, length);
        assert buffer[..] == tail + [0x80] + Zeros(left - 8) + length;
        state := compress(state, buffer[..]);
        OneBlock(compress, m, length, s0, left);
      }
      digest := Bytes(state);
    }
  }

  /** Testing the sum against either addend finds the same carry. */
  lemma CarrySame(a: nat, b: nat)
    requires a < TWO32 && b < TWO32
    ensures U32(a + b) < a <==> U32(a + b) < b
  {
  }

  lemma {:induction false} ZerosSplit(a: nat, b: nat)
    ensures Zeros(a) + Zeros(b) == Zeros(a + b)
  {
  }

  lemma OneBlock(f: Compress, m: seq<Byte>, length: seq<Byte>, s: Words, left: nat)
    requires s == Fold(f, IV, m[..Full(m)]) && |length| == 8
    requires left == BLOCK - 1 - |m| % BLOCK && left >= 8
    ensures var block := m[Full(m)..] + [0x80] + Zeros(left - 8) + length;
            Fold(f, IV, Padded(m, length)) == f(s, block)
  {
    var block := m[Full(m)..] + [0x80] + Zeros(left - 8) + length;
    assert ZeroCount(|m|) == left - 8;
    assert Padded(m, length) == m[..Full(m)] + block;
    FoldConcat(f, IV, m[..Full(m)], block);
    FoldOne(f, s, block);
  }

  lemma TwoBlocks(f: Compress, m: seq<Byte>, length: seq<Byte>, s: Words, left: nat)
    requires s == Fold(f, IV, m[..Full(m)]) && |length| == 8
    requires left == BLOCK - 1 - |m| % BLOCK && left < 8
    ensures var b1 := m[Full(m)..] + [0x80] + Zeros(left);
            Fold(f, IV, Padded(m, length)) == f(f(s, b1), Zeros(56) + length)
  {
    var b1 := m[Full(m)..] + [0x80] + Zeros(left);
    var b2 := Zeros(56) + length;
    assert ZeroCount(|m|) == left + 56;
    ZerosSplit(left, 56);
    assert Padded(m, length) == m[..Full(m)] + b1 + b2;
    FoldConcat(f, IV, m[..Full(m)], b1);
    FoldConcat(f, IV, m[..Full(m)] + b1, b2);
    FoldOne(f, s, b1);
    FoldOne(f, f(s, b1), b2);
  }
}
