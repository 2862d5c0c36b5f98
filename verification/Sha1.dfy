/** SHA-1 contexts and HMAC-SHA1. The compression of one block is a parameter. */
module Sha1 {
  import opened Arith
  import opened WordBytes
  import opened HashSpec
  import opened Sequences

  datatype Words = Words(a: nat, b: nat, c: nat, d: nat, e: nat)

  type Compress = (Words, seq<Byte>) -> Words

  const IV: Words := Words(0x67452301, 0xEFCDAB89, 0x98BADCFE, 0x10325476, 0xC3D2E1F0)

  function Bytes(w: Words): (b: seq<Byte>)
    ensures |b| == 20
  {
    Big32(w.a) + Big32(w.b) + Big32(w.c) + Big32(w.d) + Big32(w.e)
  }

  /** The digest of a whole message: section 4 of RFC 3174. */
  function Digest(f: Compress, msg: seq<Byte>): (d: seq<Byte>)
    ensures |d| == 20
  {
    Bytes(Fold(f, IV, Padded(msg, BigLength(msg))))
  }

  // ---------------------------------------------------------------------
  // The context object

  class Sha1Context {
    const compress: Compress
    var state: Words
    var lo: nat
    var hi: nat
    const buffer: array<Byte>
    ghost var msg: seq<Byte>  // everything absorbed so far

    ghost function Model(): Context<Words>
      reads this, buffer
    {
      Context(state, lo, hi, buffer[..])
    }

    ghost predicate Valid()
      reads this, buffer
    {
      Absorbed(compress, IV, Model(), msg)
    }

    constructor (compress: Compress)
      ensures Valid() && fresh(buffer) && msg == [] && this.compress == compress
    {
      this.compress := compress;
      state := IV;
      lo, hi := 0, 0;
      buffer := new Byte[BLOCK](_ => 0);
      msg := [];
    }

    /** How much of the current block is filled. */
    ghost function Used(): nat
      reads this
    {
      |msg| % BLOCK
    }

    /** Absorb any number of bytes, as long as they and the filled part of the block stay
        below 2^32: see `GuardRightIff`. */
    method Update(data: seq<Byte>)
      requires Valid() && Used() + |data| < TWO32
      modifies this, buffer
      ensures Valid() && msg == old(msg) + data
    {
      ghost var c := Model();
      UsedIs(|msg|, lo, hi);
      var j := lo / 8 % BLOCK;
      CountLength(|data|);
      if U32(j + |data|) > BLOCK - 1 {
        UpdateBlocks(j, data, c);
        AbsorbLong(compress, IV, c, msg, data, Model());
      } else {
        CopyIn(j, data);
        AbsorbShort(compress, IV, c, msg, data, Model());
      }
      msg := msg + data;
    }

    method CountLength(len: nat)
      modifies this`lo, this`hi
      ensures (lo, hi) == Count(old(lo), old(hi), len)
    {
      lo := U32(lo + U32(8 * len));
      if lo < U32(8 * len) {
        hi := hi + 1;
      }
      hi := U32(hi + len / 0x2000_0000);
    }

    /** memcpy into the block buffer. */
    method CopyIn(at: nat, data: seq<Byte>)
      requires at + |data| <= buffer.Length
      modifies buffer
      ensures buffer[..at + |data|] == old(buffer[..at]) + data
    {
      forall k | 0 <= k < |data| {
        buffer[at + k] := data[k];
      }
    }

    /** Complete the buffered block and compress all whole blocks of `data`. */
    method UpdateBlocks(j: nat, data: seq<Byte>, ghost c: Context<Words>)
      requires j < BLOCK && BLOCK <= j + |data| < TWO32 && buffer.Length == BLOCK
      requires buffer[..] == c.buffer && state == c.state
      modifies this`state, buffer
      ensures var rest := data[BLOCK - j..];
              && state == Fold(compress, compress(c.state, c.buffer[..j] + data[..BLOCK - j]), rest[..Full(rest)])
              && buffer[..|rest| % BLOCK] == rest[Full(rest)..]
    {
      var i := BLOCK - j;
      CopyIn(j, data[..i]);
      assert buffer[..] == c.buffer[..j] + data[..i];
      state := compress(state, buffer[..]);
      var start := state;
      ghost var rest := data[BLOCK - j..];
      NoWrap(i, j, |data|);
      while U32(i + BLOCK - 1) < |data|
        invariant i + BLOCK - 1 < TWO32
        invariant BLOCK - j <= i <= |data| && (i - (BLOCK - j)) % BLOCK == 0
        invariant state == Fold(compress, start, rest[..i - (BLOCK - j)])
      {
        ghost var n := i - (BLOCK - j);
        NextBlock(compress, start, data, BLOCK - j, n);
        state := compress(state, data[i..i + BLOCK]);
        i := i + BLOCK;
        NoWrap(i, j, |data|);
      }
      LastBlock(|rest|, i - (BLOCK - j));
      assert data[i..] == rest[Full(rest)..];
      CopyIn(0, data[i..]);
    }

    /** Pad, compress the last blocks and give out the digest. */
    method Final() returns (digest: seq<Byte>)
      requires Valid()
      modifies this, buffer
      ensures digest == Digest(compress, old(msg))
    {
      ghost var m := msg;
      CountSplit(|m|, lo, hi);
      var finalcount := Big32(hi) + Big32(lo);
      assert finalcount == BigLength(m);
      Update([0x80]);
      PadZeros(m);
      Update(finalcount);
      assert msg == Padded(m, BigLength(m));
      assert msg[..Full(msg)] == msg;
      digest := Bytes(state);
    }

    /** Append zero bytes until eight bytes are missing from the block. */
    method PadZeros(ghost m: seq<Byte>)
      requires Valid() && msg == m + [0x80]
      modifies this, buffer
      ensures Valid() && msg == m + [0x80] + Zeros(ZeroCount(|m|))
    {
      ghost var k := 0;
      UsedIs(|msg|, lo, hi);
      assert m + [0x80] == m + [0x80] + Zeros(0);
      while lo / 8 % BLOCK != 56
        invariant Valid() && 0 <= k <= ZeroCount(|m|) && msg == m + [0x80] + Zeros(k)
        invariant lo / 8 % BLOCK == |msg| % BLOCK
        decreases ZeroCount(|m|) - k
      {
        NotYet(|m|, k);
        Update([0]);
        assert m + [0x80] + Zeros(k) + [0] == m + [0x80] + (Zeros(k) + [0]);
        k := k + 1;
        UsedIs(|msg|, lo, hi);
      }
      Enough(|m|, k);
    }
  }

  /** The position in the loop over whole blocks does not wrap around. */
  lemma NoWrap(i: nat, j: nat, len: nat)
    requires i <= len && j < BLOCK && j + len < TWO32 && (i - (BLOCK - j)) % BLOCK == 0
    ensures i + BLOCK - 1 < TWO32
  {
    assert (i + j) % BLOCK == 0;
  }

  lemma NextBlock(f: Compress, s: Words, data: seq<Byte>, k: nat, n: nat)
    requires k + n + BLOCK <= |data| && n % BLOCK == 0
    ensures Fold(f, s, data[k..][..n + BLOCK]) == f(Fold(f, s, data[k..][..n]), data[k + n..k + n + BLOCK])
  {
    var rest, block := data[k..], data[k + n..k + n + BLOCK];
    assert rest[..n] + block == rest[..n + BLOCK];
    FoldOne(f, Fold(f, s, rest[..n]), block);
    FoldConcat(f, s, rest[..n], block);
  }

  /** The 32-bit test whether an update fills the block is right if and only if the filled
      part and the new bytes together stay below 2^32. Otherwise all the new bytes are
      taken for the current block, which they exceed. */
  lemma GuardRightIff(used: nat, len: nat)
    requires used < BLOCK && len < TWO32
    ensures (U32(used + len) > BLOCK - 1 <==> used + len > BLOCK - 1) <==> used + len < TWO32
    ensures used + len >= TWO32 ==> U32(used + len) <= BLOCK - 1 && used + len > BLOCK
  {
    if used + len >= TWO32 {
      assert U32(used + len) == used + len - TWO32;
    }
  }

  lemma NotYet(n: nat, k: nat)
    requires k <= ZeroCount(n) && (n + 1 + k) % BLOCK != 56
    ensures k < ZeroCount(n)
  {
  }

  lemma Enough(n: nat, k: nat)
    requires k <= ZeroCount(n) && (n + 1 + k) % BLOCK == 56
    ensures k == ZeroCount(n)
  {
  }

  // ---------------------------------------------------------------------
  // Vectors and HMAC

  /** Each piece, with what the earlier ones left of a block, stays below 2^32. */
  ghost predicate Fit(chunks: seq<seq<Byte>>) {
    forall i :: 0 <= i < |chunks| ==> |Flatten(chunks[..i])| % BLOCK + |chunks[i]| < TWO32
  }

  /** A whole block in front changes nothing. */
  lemma FitAfterBlock(block: seq<Byte>, chunks: seq<seq<Byte>>)
    requires |block| == BLOCK && Fit(chunks)
    ensures Fit([block] + chunks) && Flatten([block] + chunks) == block + Flatten(chunks)
  {
    var all := [block] + chunks;
    assert all[1..] == chunks;
    forall i | 0 <= i < |all|
      ensures |Flatten(all[..i])| % BLOCK + |all[i]| < TWO32
    {
      if i > 0 {
        assert all[..i][0] == block && all[..i][1..] == chunks[..i - 1];
        assert |Flatten(chunks[..i - 1])| % BLOCK + |chunks[i - 1]| < TWO32;
        BlockMod(|Flatten(chunks[..i - 1])|);
      }
    }
  }

  lemma BlockMod(n: nat)
    ensures (BLOCK + n) % BLOCK == n % BLOCK
  {
  }

  /** What is left of a piece when its length is passed on as a 32-bit number. */
  function Cut(data: seq<Byte>): seq<Byte> {
    data[..|data| % TWO32]
  }

  function CutAll(chunks: seq<seq<Byte>>): (r: seq<seq<Byte>>)
    ensures |r| == |chunks| && forall i :: 0 <= i < |r| ==> r[i] == Cut(chunks[i])
  {
    seq(|chunks|, i requires 0 <= i < |chunks| => Cut(chunks[i]))
  }

  ghost predicate AllShort(chunks: seq<seq<Byte>>) {
    forall i :: 0 <= i < |chunks| ==> |chunks[i]| < TWO32
  }

  /** Every byte is hashed if and only if every piece is shorter than 2^32. */
  lemma CutNothingIff(chunks: seq<seq<Byte>>)
    ensures CutAll(chunks) == chunks <==> AllShort(chunks)
  {
    if CutAll(chunks) == chunks {
      forall i | 0 <= i < |chunks| ensures |chunks[i]| < TWO32 {
        assert Cut(chunks[i]) == chunks[i];
      }
    } else {
      assert exists i :: 0 <= i < |chunks| && Cut(chunks[i]) != chunks[i];
    }
  }

  /** Hash data given in pieces: however it is cut, the digest is that of the whole, less
      what the 32-bit lengths lose. */
  method Sha1Vector(f: Compress, chunks: seq<seq<Byte>>) returns (mac: seq<Byte>)
    requires Fit(CutAll(chunks))
    ensures mac == Digest(f, Flatten(CutAll(chunks)))
    ensures AllShort(chunks) ==> mac == Digest(f, Flatten(chunks))
  {
    hide Absorbed, Digest, Cut, CutAll;
    ghost var pieces := CutAll(chunks);
    CutNothingIff(chunks);
    var ctx := new Sha1Context(f);
    var i := 0;
    while i < |chunks|
      invariant 0 <= i <= |chunks| && ctx.Valid() && ctx.compress == f
      invariant fresh(ctx) && fresh(ctx.buffer)
      invariant ctx.msg == Flatten(pieces[..i])
    {
      assert ctx.Used() + |pieces[i]| < TWO32;
      FlattenAppend(pieces[..i], pieces[i]);
      assert pieces[..i] + [pieces[i]] == pieces[..i + 1];
      ctx.Update(Cut(chunks[i]));
      i := i + 1;
    }
    assert pieces[..i] == pieces;
    mac := ctx.Final();
  }

  function XorAll(s: seq<Byte>, c: Byte): (r: seq<Byte>)
    ensures |r| == |s| && forall i :: 0 <= i < |s| ==> r[i] == Xor(s[i], c)
  {
    if s == [] then [] else [Xor(s[0], c)] + XorAll(s[1..], c)
  }

  /** The key as used: hashed if it is longer than a block. */
  function HmacKey(f: Compress, key: seq<Byte>): (k: seq<Byte>)
    ensures |k| <= BLOCK
  {
    if |key| > BLOCK then Digest(f, key) else key
  }

  /** The key filled up with zeros and combined with a pad byte. */
  function KeyPad(key: seq<Byte>, pad: Byte): (p: seq<Byte>)
    requires |key| <= BLOCK
    ensures |p| == BLOCK
  {
    XorAll(key + Zeros(BLOCK - |key|), pad)
  }

  /** The key as the code uses it: its length is cut before it is hashed. */
  function UsedKey(f: Compress, key: seq<Byte>): (k: seq<Byte>)
    ensures |k| <= BLOCK
  {
    if |key| > BLOCK then Digest(f, Cut(key)) else key
  }

  lemma ShortKeyKept(f: Compress, key: seq<Byte>)
    requires |key| < TWO32
    ensures UsedKey(f, key) == HmacKey(f, key)
  {
    hide Digest;
    assert Cut(key) == key;
  }

  function HmacWith(f: Compress, k: seq<Byte>, text: seq<Byte>): seq<Byte>
    requires |k| <= BLOCK
  {
    Digest(f, KeyPad(k, 0x5c) + Digest(f, KeyPad(k, 0x36) + text))
  }

  /** Section 2 of RFC 2104. */
  function Hmac(f: Compress, key: seq<Byte>, text: seq<Byte>): seq<Byte> {
    HmacWith(f, HmacKey(f, key), text)
  }

  /** The pad block, built byte by byte. */
  method MakePad(key: seq<Byte>, pad: Byte) returns (block: seq<Byte>)
    requires |key| <= BLOCK
    ensures block == KeyPad(key, pad)
  {
    var k := key + Zeros(BLOCK - |key|);
    block := [];
    var i := 0;
    while i < BLOCK
      invariant 0 <= i <= BLOCK && |block| == i
      invariant forall j :: 0 <= j < i ==> block[j] == Xor(k[j], pad)
    {
      block := block + [Xor(k[i], pad)];
      i := i + 1;
    }
  }

  method ShortKey(f: Compress, key: seq<Byte>) returns (k: seq<Byte>)
    ensures k == UsedKey(f, key)
  {
    hide Digest;
    k := key;
    if |key| > BLOCK {
      assert CutAll([key]) == [Cut(key)];
      Flatten1(Cut(key));
      k := Sha1Vector(f, [key]);
    }
  }

  /** HMAC of at most five pieces in one call; more pieces leave the result unset. It is
      that of the whole key and text if their lengths fit 32 bits. */
  method HmacVector(f: Compress, key: seq<Byte>, elems: seq<seq<Byte>>) returns (done: bool, mac: seq<Byte>)
    requires Fit(CutAll(elems))
    ensures done <==> |elems| <= 5
    ensures done ==> mac == HmacWith(f, UsedKey(f, key), Flatten(CutAll(elems)))
    ensures done && |key| < TWO32 && AllShort(elems) ==> mac == Hmac(f, key, Flatten(elems))
  {
    hide Digest, KeyPad, UsedKey, HmacKey, Fit;
    if |elems| > 5 {
      return false, [];
    }
    CutNothingIff(elems);
    if |key| < TWO32 {
      ShortKeyKept(f, key);
    }
    var k := ShortKey(f, key);
    var ipad := MakePad(k, 0x36);
    FitAfterBlock(ipad, CutAll(elems));
    CutAfterBlock(ipad, elems);
    mac := Sha1Vector(f, [ipad] + elems);
    mac := Outer(f, k, mac);
    done := true;
  }

  /** A block in front is not cut. */
  lemma CutAfterBlock(block: seq<Byte>, chunks: seq<seq<Byte>>)
    requires |block| == BLOCK
    ensures CutAll([block] + chunks) == [block] + CutAll(chunks)
  {
    assert Cut(block) == block;
  }

  /** The outer hash. */
  method Outer(f: Compress, k: seq<Byte>, inner: seq<Byte>) returns (mac: seq<Byte>)
    requires |k| <= BLOCK && |inner| == 20
    ensures mac == Digest(f, KeyPad(k, 0x5c) + inner)
  {
    hide Digest, KeyPad, CutAll;
    var opad := MakePad(k, 0x5c);
    Flatten2(opad, inner);
    CutNothingIff([opad, inner]);
    mac := Sha1Vector(f, [opad, inner]);
  }

  /** HMAC fed piece by piece. */
  class HmacContext {
    const compress: Compress
    const key: seq<Byte>  // the key as used
    const context: Sha1Context
    ghost const full: seq<Byte>  // the key as given

    ghost predicate Valid()
      reads this, context, context.buffer
    {
      && context.Valid() && context.compress == compress
      && key == UsedKey(compress, full)
      && KeyPad(key, 0x36) <= context.msg
    }

    /** The text absorbed so far. */
    ghost function Text(): seq<Byte>
      reads this, context, context.buffer
      requires Valid()
    {
      context.msg[BLOCK..]
    }

    constructor (f: Compress, key: seq<Byte>)
      ensures Valid() && full == key && compress == f && Text() == []
      ensures fresh(context) && fresh(context.buffer)
    {
      hide Absorbed, Digest, KeyPad, UsedKey;
      var k := ShortKey(f, key);
      var ipad := MakePad(k, 0x36);
      var ctx := new Sha1Context(f);
      ctx.Update(ipad);
      assert ctx.msg == ipad;
      this.compress, this.key, this.full, this.context := f, k, key, ctx;
    }

    method Update(data: seq<Byte>)
      requires Valid() && |Text()| % BLOCK + |data| < TWO32
      modifies context, context.buffer
      ensures Valid() && Text() == old(Text()) + data
    {
      BlockMod(|Text()|);
      context.Update(data);
    }

    /** The result equals that of the one-call form on the whole text. */
    method Final() returns (mac: seq<Byte>)
      requires Valid()
      modifies context, context.buffer
      ensures mac == HmacWith(compress, UsedKey(compress, full), old(Text()))
      ensures |full| < TWO32 ==> mac == Hmac(compress, full, old(Text()))
    {
      hide Absorbed, Digest, KeyPad, UsedKey, HmacKey;
      assert context.msg == KeyPad(key, 0x36) + Text();
      var inner := context.Final();
      mac := Outer(compress, key, inner);
      if |full| < TWO32 {
        ShortKeyKept(compress, full);
      }
    }
  }
}
