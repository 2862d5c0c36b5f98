/** The packet layout of the pseudo-TCP protocol. */
module PseudoTcpWire {
  import opened Arith
  import opened WordBytes
  import opened PseudoTcpState

  const FLAG_CTL: nat := 0x02
  const FLAG_RST: nat := 0x04

  datatype Decoded = TooShort | Decoded(packet: Packet)

  function Flags(p: Packet): Byte {
    (if p.ctl then FLAG_CTL else 0) + (if p.rst then FLAG_RST else 0)
  }

  /** The window is cut to 16 bits. */
  function Encode(p: Packet): seq<Byte> {
    Big32(p.conv) + Big32(p.sn) + Big32(p.ack) + [0, Flags(p)] + Big16(p.wnd % TWO16)
    + Big32(p.tsval) + Big32(p.tsecr) + p.data
  }

  /** Read a packet that is shorter than 12 bytes or has the whole header. */
  function Decode(b: seq<Byte>): Decoded
    requires |b| < 12 || |b| >= HEADER_SIZE
  {
    if |b| < 12 then TooShort
    else
      var flags := b[13];
      Decoded(Packet(Get32(b, 0), Get32(b, 4), Get32(b, 8), flags / FLAG_CTL % 2 == 1, flags / FLAG_RST % 2 == 1,
                     Get16(b, 14), Get32(b, 16), Get32(b, 20), b[HEADER_SIZE..]))
  }

  predicate Words(p: Packet) {
    p.conv < TWO32 && p.sn < TWO32 && p.ack < TWO32 && p.tsval < TWO32 && p.tsecr < TWO32 && p.wnd < TWO32
  }

  lemma FlagsBack(p: Packet)
    ensures Flags(p) / FLAG_CTL % 2 == (if p.ctl then 1 else 0)
    ensures Flags(p) / FLAG_RST % 2 == (if p.rst then 1 else 0)
  {
  }

  /** A packet is read as it was written exactly when its window fits 16 bits. */
  lemma PacketBackIff(p: Packet)
    requires Words(p)
    ensures |Encode(p)| >= HEADER_SIZE
    ensures Decode(Encode(p)) == Decoded(p) <==> p.wnd < TWO16
  {
    hide Big32, Big16, Get32, Get16, Flags;
    var b := Encode(p);
    var c, s, a, v, e := Big32(p.conv), Big32(p.sn), Big32(p.ack), Big32(p.tsval), Big32(p.tsecr);
    var f, w := [0, Flags(p)], Big16(p.wnd % TWO16);
    FlagsBack(p);
    Word32([], p.conv, s + a + f + w + v + e + p.data);
    assert b == [] + c + (s + a + f + w + v + e + p.data);
    Word32(c, p.sn, a + f + w + v + e + p.data);
    assert b == c + s + (a + f + w + v + e + p.data);
    Word32(c + s, p.ack, f + w + v + e + p.data);
    assert b == c + s + a + (f + w + v + e + p.data);
    Word16(c + s + a + f, p.wnd % TWO16, v + e + p.data);
    assert b == c + s + a + f + w + (v + e + p.data);
    Word32(c + s + a + f + w, p.tsval, e + p.data);
    assert b == c + s + a + f + w + v + (e + p.data);
    Word32(c + s + a + f + w + v, p.tsecr, p.data);
    assert b == c + s + a + f + w + v + e + p.data;
    assert b[13] == Flags(p) && b[HEADER_SIZE..] == p.data;
  }
}
