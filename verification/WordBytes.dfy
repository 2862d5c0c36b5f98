/** Words as bytes. */
module WordBytes {
  import opened Arith

  /** The bytes of a 16-bit word, most significant first. */
  function Big16(w: nat): (b: seq<Byte>)
    ensures |b| == 2
  {
    [w / 256 % 256, w % 256]
  }

  /** The bytes of a 32-bit word, most significant first. */
  function Big32(w: nat): (b: seq<Byte>)
    ensures |b| == 4
  {
    [w / 0x100_0000 % 256, w / 0x1_0000 % 256, w / 0x100 % 256, w % 256]
  }

  /** The bytes of a 32-bit word, least significant first. */
  function Little32(w: nat): (b: seq<Byte>)
    ensures |b| == 4
  {
    [w % 256, w / 0x100 % 256, w / 0x1_0000 % 256, w / 0x100_0000 % 256]
  }

  /** The 16-bit word at a position. */
  function Get16(b: seq<Byte>, i: nat): (w: nat)
    requires i + 2 <= |b|
    ensures w < TWO16
  {
    var x: int, y: int := b[i], b[i + 1];
    256 * x + y
  }

  /** The 32-bit word at a position. */
  function Get32(b: seq<Byte>, i: nat): nat
    requires i + 4 <= |b|
  {
    TWO16 * Get16(b, i) + Get16(b, i + 2)
  }

  lemma Word16(pre: seq<Byte>, w: nat, post: seq<Byte>)
    requires w < TWO16
    ensures Get16(pre + Big16(w) + post, |pre|) == w
  {
    var b := pre + Big16(w) + post;
    assert b[|pre|] == w / 256 % 256 && b[|pre| + 1] == w % 256;
  }

  lemma Word32(pre: seq<Byte>, w: nat, post: seq<Byte>)
    requires w < TWO32
    ensures Get32(pre + Big32(w) + post, |pre|) == w
  {
    var b := pre + Big32(w) + post;
    var hi, lo := w / TWO16, w % TWO16;
    BigParts(w);
    assert b[|pre|] == hi / 256 && b[|pre| + 1] == hi % 256 && b[|pre| + 2] == lo / 256 && b[|pre| + 3] == lo % 256;
  }

  lemma BigParts(w: nat)
    requires w < TWO32
    ensures w == TWO16 * (w / TWO16) + w % TWO16 && w / TWO16 < TWO16
    ensures w / 0x100_0000 % 256 == w / TWO16 / 256 && w / 0x1_0000 % 256 == w / TWO16 % 256
    ensures w / 0x100 % 256 == w % TWO16 / 256 && w % 256 == w % TWO16 % 256
  {
  }
}
