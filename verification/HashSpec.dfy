/** What a block hash with length padding computes, for any compression
    function: section 4 of RFC 3174 and section 3 of RFC 1321. */
module HashSpec {
  import opened Arith
  import opened WordBytes

  const BLOCK: nat := 64

  /** Compress the blocks of `data` one after the other. */
  function Fold<S>(f: (S, seq<Byte>) -> S, s: S, data: seq<Byte>): S
    requires |data| % BLOCK == 0
    decreases |data|
  {
    if data == [] then s else Fold(f, f(s, data[..BLOCK]), data[BLOCK..])
  }

  lemma {:induction false} FoldConcat<S>(f: (S, seq<Byte>) -> S, s: S, a: seq<Byte>, b: seq<Byte>)
    requires |a| % BLOCK == 0 && |b| % BLOCK == 0
    ensures |a + b| % BLOCK == 0
    ensures Fold(f, s, a + b) == Fold(f, Fold(f, s, a), b)
    decreases |a|
  {
    if a == [] {
      assert a + b == b;
    } else {
      assert (a + b)[..BLOCK] == a[..BLOCK];
      assert (a + b)[BLOCK..] == a[BLOCK..] + b;
      FoldConcat(f, f(s, a[..BLOCK]), a[BLOCK..], b);
    }
  }

  lemma FoldOne<S>(f: (S, seq<Byte>) -> S, s: S, block: seq<Byte>)
    requires |block| == BLOCK
    ensures Fold(f, s, block) == f(s, block)
  {
    assert block[..BLOCK] == block && block[BLOCK..] == [];
  }

  function Zeros(n: nat): (z: seq<Byte>)
    ensures |z| == n && forall i :: 0 <= i < n ==> z[i] == 0
  {
    if n == 0 then [] else Zeros(n - 1) + [0]
  }

  /** The number of zero bytes between the 0x80 byte and the length. */
  function ZeroCount(n: nat): (k: nat)
    ensures k < BLOCK && (n + 1 + k + 8) % BLOCK == 0
  {
    (119 - n % BLOCK) % BLOCK
  }

  /** The message with its padding; `length` is the encoded bit count. */
  function Padded(msg: seq<Byte>, length: seq<Byte>): (p: seq<Byte>)
    requires |length| == 8
    ensures |p| % BLOCK == 0
  {
    msg + [0x80] + Zeros(ZeroCount(|msg|)) + length
  }

  function BitCount(msg: seq<Byte>): nat {
    (8 * |msg|) % TWO64
  }

  function BigLength(msg: seq<Byte>): (b: seq<Byte>)
    ensures |b| == 8
  {
    Big32(BitCount(msg) / TWO32) + Big32(BitCount(msg) % TWO32)
  }

  function LittleLength(msg: seq<Byte>): (b: seq<Byte>)
    ensures |b| == 8
  {
    Little32(BitCount(msg) % TWO32) + Little32(BitCount(msg) / TWO32)
  }

  // ---------------------------------------------------------------------
  // The state of an incremental context

  /** Chaining value, the two words of the bit counter, and the block buffer. */
  datatype Context<S> = Context(state: S, lo: nat, hi: nat, buffer: seq<Byte>)

  function Full(msg: seq<Byte>): (n: nat)
    ensures n <= |msg| && n % BLOCK == 0 && |msg| - n == |msg| % BLOCK
  {
    |msg| - |msg| % BLOCK
  }

  /** The context has absorbed exactly `msg`. */
  ghost predicate Absorbed<S>(f: (S, seq<Byte>) -> S, iv: S, c: Context<S>, msg: seq<Byte>) {
    && |c.buffer| == BLOCK
    && c.lo < TWO32 && c.hi < TWO32
    && c.hi * TWO32 + c.lo == BitCount(msg)
    && c.state == Fold(f, iv, msg[..Full(msg)])
    && c.buffer[..|msg| % BLOCK] == msg[Full(msg)..]
  }

  /** The counter's low word tells how much of the buffer is in use. */
  function Used<S>(c: Context<S>): nat {
    c.lo / 8 % BLOCK
  }

  lemma UsedIs(n: nat, lo: nat, hi: nat)
    requires lo < TWO32 && hi < TWO32 && hi * TWO32 + lo == (8 * n) % TWO64
    ensures lo / 8 % BLOCK == n % BLOCK
  {
    var q := 8 * n / TWO64;
    assert 8 * n == q * TWO64 + hi * TWO32 + lo;
    assert lo == 8 * (n - (q * 0x2000_0000_0000_0000 + hi * 0x2000_0000));
    var m := n - (q * 0x2000_0000_0000_0000 + hi * 0x2000_0000);
    assert n == m + 64 * (q * 0x80_0000_0000_0000 + hi * 0x80_0000);
    ModAdd(m, q * 0x80_0000_0000_0000 + hi * 0x80_0000);
  }

  lemma ModAdd(m: int, k: int)
    ensures (m + 64 * k) % 64 == m % 64
  {
  }

  /** Adding `len` bytes to the counter, as the C code does it: with a carry
      between the words and the top bits of the length. */
  function Count(lo: nat, hi: nat, len: nat): (nat, nat) {
    var bits := U32(8 * len);
    var lo' := U32(lo + bits);
    (lo', U32(hi + (if lo' < bits then 1 else 0) + len / 0x2000_0000))
  }

  /** The two words count bits exactly modulo 2^64. */
  lemma CountExact(lo: nat, hi: nat, len: nat, n: nat)
    requires lo < TWO32 && hi < TWO32 && len < TWO32
    requires hi * TWO32 + lo == (8 * n) % TWO64
    ensures var (lo', hi') := Count(lo, hi, len);
            lo' < TWO32 && hi' < TWO32 && hi' * TWO32 + lo' == (8 * (n + len)) % TWO64
  {
    var top := len / 0x2000_0000;
    var bits := U32(8 * len);
    assert 8 * len == top * TWO32 + bits by { TopBits(len); }
    var (lo', hi') := Count(lo, hi, len);
    var carry := if lo' < bits then 1 else 0;
    assert lo + bits == carry * TWO32 + lo';
    var sum := hi + carry + top;
    var over := if sum >= TWO32 then 1 else 0;
    assert sum == over * TWO32 + hi';
    var q := 8 * n / TWO64;
    assert 8 * n == q * TWO64 + hi * TWO32 + lo;
    assert 8 * (n + len) == (q + over) * TWO64 + (hi' * TWO32 + lo');
    ModUnique(8 * (n + len), q + over, hi' * TWO32 + lo');
  }

  lemma TopBits(len: nat)
    requires len < TWO32
    ensures 8 * len == len / 0x2000_0000 * TWO32 + U32(8 * len)
  {
    var top, rest := len / 0x2000_0000, len % 0x2000_0000;
    assert 8 * len == top * TWO32 + 8 * rest;
    assert 8 * rest < TWO32;
  }

  lemma ModUnique(x: nat, q: nat, r: nat)
    requires x == q * TWO64 + r && r < TWO64
    ensures x % TWO64 == r
  {
  }

  // ---------------------------------------------------------------------
  // Absorbing data

  /** A chunk that does not complete a block. */
  lemma AbsorbShort<S>(f: (S, seq<Byte>) -> S, iv: S, c: Context<S>, msg: seq<Byte>, data: seq<Byte>, c': Context<S>)
    requires Absorbed(f, iv, c, msg) && |data| < TWO32
    requires |msg| % BLOCK + |data| < BLOCK
    requires (c'.lo, c'.hi) == Count(c.lo, c.hi, |data|) && c'.state == c.state && |c'.buffer| == BLOCK
    requires c'.buffer[..|msg| % BLOCK + |data|] == c.buffer[..|msg| % BLOCK] + data
    ensures Absorbed(f, iv, c', msg + data)
  {
    CountExact(c.lo, c.hi, |data|, |msg|);
    var all := msg + data;
    assert |all| % BLOCK == |msg| % BLOCK + |data| by { ShortMod(|msg|, |data|); }
    assert all[..Full(all)] == msg[..Full(msg)];
    assert all[Full(all)..] == msg[Full(msg)..] + data;
  }

  lemma ShortMod(n: nat, k: nat)
    requires n % BLOCK + k < BLOCK
    ensures (n + k) % BLOCK == n % BLOCK + k
  {
  }

  /** A chunk that completes a block and possibly more. */
  lemma AbsorbLong<S>(f: (S, seq<Byte>) -> S, iv: S, c: Context<S>, msg: seq<Byte>, data: seq<Byte>, c': Context<S>)
    requires Absorbed(f, iv, c, msg) && |data| < TWO32
    requires |msg| % BLOCK + |data| >= BLOCK
    requires (c'.lo, c'.hi) == Count(c.lo, c.hi, |data|) && |c'.buffer| == BLOCK
    requires var rest := data[BLOCK - |msg| % BLOCK..];
             && c'.state ==
                Fold(f, f(c.state, c.buffer[..|msg| % BLOCK] + data[..BLOCK - |msg| % BLOCK]), rest[..Full(rest)])
             && c'.buffer[..|rest| % BLOCK] == rest[Full(rest)..]
    ensures Absorbed(f, iv, c', msg + data)
  {
    CountExact(c.lo, c.hi, |data|, |msg|);
    var j := |msg| % BLOCK;
    var all, rest := msg + data, data[BLOCK - j..];
    var block := c.buffer[..j] + data[..BLOCK - j];
    LongMod(|msg|, |data|);
    assert |all| % BLOCK == |rest| % BLOCK;
    assert Full(all) == Full(msg) + BLOCK + Full(rest);
    LongSplit(msg, data);
    FoldOne(f, c.state, block);
    FoldConcat(f, iv, msg[..Full(msg)], block);
    FoldConcat(f, iv, msg[..Full(msg)] + block, rest[..Full(rest)]);
  }

  lemma LongMod(n: nat, k: nat)
    requires n % BLOCK + k >= BLOCK
    ensures (n + k) % BLOCK == (k - (BLOCK - n % BLOCK)) % BLOCK
  {
    var q := n / BLOCK;
    assert n + k == k - (BLOCK - n % BLOCK) + BLOCK * (q + 1);
    ModAdd(k - (BLOCK - n % BLOCK), q + 1);
  }

  lemma LongSplit(msg: seq<Byte>, data: seq<Byte>)
    requires |msg| % BLOCK + |data| >= BLOCK
    ensures var j, all := |msg| % BLOCK, msg + data;
            var rest := data[BLOCK - j..];
            && Full(msg) + BLOCK + Full(rest) <= |all|
            && all[..Full(msg) + BLOCK + Full(rest)]
               == msg[..Full(msg)] + (msg[Full(msg)..] + data[..BLOCK - j]) + rest[..Full(rest)]
            && all[Full(msg) + BLOCK + Full(rest)..] == rest[Full(rest)..]
  {
  }

  lemma LastBlock(n: nat, i: nat)
    requires i <= n < i + BLOCK && i % BLOCK == 0
    ensures n - n % BLOCK == i
  {
  }

  lemma CountSplit(n: nat, lo: nat, hi: nat)
    requires lo < TWO32 && hi < TWO32 && hi * TWO32 + lo == (8 * n) % TWO64
    ensures (8 * n) % TWO64 / TWO32 == hi && (8 * n) % TWO64 % TWO32 == lo
  {
  }
}
