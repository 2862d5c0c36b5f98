/** Building STUN messages attribute by attribute, and reading back what was written. */
module StunWriter {
  import opened Arith
  import opened Options
  import opened WordBytes
  import opened StunMessages

  // ---------------------------------------------------------------------
  // The encoding

  function Spaces(n: nat): (s: seq<Byte>)
    ensures |s| == n && forall i :: 0 <= i < n ==> s[i] == 0x20
  {
    if n == 0 then [] else Spaces(n - 1) + [0x20]
  }

  function EncodeAttribute(a: Attribute): (r: seq<Byte>)
    ensures |r| == 4 + Align(|a.value|)
  {
    Big16(a.typ) + Big16(|a.value|) + a.value + Spaces(Padding(|a.value|))
  }

  function Body(attrs: seq<Attribute>): (r: seq<Byte>)
    ensures |r| % 4 == 0
  {
    if attrs == [] then []
    else
      var first, rest := EncodeAttribute(attrs[0]), Body(attrs[1..]);
      Sum4(Align(|attrs[0].value|), |rest|);
      first + rest
  }

  lemma Sum4(a: nat, b: nat)
    requires a % 4 == 0 && b % 4 == 0
    ensures (4 + a + b) % 4 == 0
  {
  }

  /** Section 15 of RFC 5389. */
  function Encode(typ: seq<Byte>, id: seq<Byte>, attrs: seq<Attribute>): seq<Byte> {
    typ + Big16(|Body(attrs)|) + id + Body(attrs)
  }

  predicate Header(typ: seq<Byte>, id: seq<Byte>) {
    |typ| == 2 && typ[0] < 64 && |id| == 16
  }

  predicate Sized(a: Attribute) {
    a.typ < TWO16 && |a.value| < TWO16
  }

  predicate AllSized(attrs: seq<Attribute>) {
    forall i :: 0 <= i < |attrs| ==> Sized(attrs[i])
  }

  predicate Fits(attrs: seq<Attribute>) {
    AllSized(attrs) && HEADER + |Body(attrs)| < TWO16
  }

  /** The first attribute after `pre` is read as it was written. */
  lemma AttributeBack(pre: seq<Byte>, a: Attribute, post: seq<Byte>)
    requires Sized(a)
    ensures var b := pre + EncodeAttribute(a) + post;
            Next(b, |pre|) == |pre| + |EncodeAttribute(a)| && AttributeAt(b, |pre|) == a
  {
    hide Get16, Big16;
    var b := pre + EncodeAttribute(a) + post;
    var value := a.value + Spaces(Padding(|a.value|));
    Word16(pre, a.typ, Big16(|a.value|) + value + post);
    assert b == pre + Big16(a.typ) + (Big16(|a.value|) + value + post);
    Word16(pre + Big16(a.typ), |a.value|, value + post);
    assert b == pre + Big16(a.typ) + Big16(|a.value|) + (value + post);
    assert b[|pre| + 4..|pre| + 4 + |a.value|] == a.value;
  }

  /** Parsing what follows `pre` gives back the attributes. */
  lemma {:induction false} BodyBack(pre: seq<Byte>, attrs: seq<Attribute>)
    requires AllSized(attrs)
    ensures var b := pre + Body(attrs);
            Chain(b, |pre|, |b|) && Attributes(b, |pre|, |b|) == attrs
    decreases |attrs|
  {
    hide EncodeAttribute, Get16;
    var b := pre + Body(attrs);
    if attrs == [] {
      ChainEnd(b, |b|);
    } else {
      var first, rest := EncodeAttribute(attrs[0]), attrs[1..];
      AttributeBack(pre, attrs[0], Body(rest));
      assert b == pre + first + Body(rest);
      BodyBack(pre + first, rest);
      ChainBack(b, |pre|, |b|);
      ChainStep(b, |pre|, |b|);
    }
  }

  /** The validator accepts an encoded message in full, and searching sees exactly the
      attributes that were encoded. */
  lemma EncodeBack(typ: seq<Byte>, id: seq<Byte>, attrs: seq<Attribute>)
    requires Header(typ, id) && Fits(attrs)
    ensures var b := Encode(typ, id, attrs);
            Accepted(b) && Visible(b) == attrs && Length(b) == |b|
  {
    hide Chain, Attributes, Body, Get16, Big16;
    var b := Encode(typ, id, attrs);
    var pre := typ + Big16(|Body(attrs)|) + id;
    BodyBack(pre, attrs);
    Word16(typ, |Body(attrs)|, id + Body(attrs));
    assert b == typ + Big16(|Body(attrs)|) + (id + Body(attrs));
    assert b[0] == typ[0];
  }

  /** Accepted messages of 64 KiB and more exist: one attribute of 65528 bytes makes one,
      whose computed length is then too short for a header. */
  lemma LongMessageExists(typ: seq<Byte>, id: seq<Byte>, t: nat)
    requires Header(typ, id) && t < TWO16
    ensures var b := Encode(typ, id, [Attribute(t, Spaces(65528))]);
            Accepted(b) && |b| >= TWO16 && Length(b) < HEADER
  {
    hide Chain, Attributes, Get16, Big16, EncodeAttribute, Spaces;
    var a := Attribute(t, Spaces(65528));
    var b := Encode(typ, id, [a]);
    assert [a][1..] == [] && Body([]) == [];
    PaddingZero(65528);
    var n := |Body([a])|;
    assert n == 65532;
    var pre := typ + Big16(n) + id;
    BodyBack(pre, [a]);
    Word16(typ, n, id + Body([a]));
    assert b == typ + Big16(n) + (id + Body([a])) && b[0] == typ[0];
    LengthExactIff(b);
  }

  // ---------------------------------------------------------------------
  // Appending

  function Cookie(): seq<Byte> {
    [0x21, 0x12, 0xA4, 0x42]
  }

  predicate HasCookie(m: seq<Byte>)
    requires |m| >= HEADER
  {
    m[4..8] == Cookie()
  }

  /** Without the cookie the recorded length is rounded up, so the padding counts. */
  function Stored(m: seq<Byte>, value: seq<Byte>): seq<Byte>
    requires |m| >= HEADER
  {
    if HasCookie(m) then value else value + Spaces(Padding(|value|))
  }

  /** The message after an append that had room. */
  function Appended(m: seq<Byte>, typ: nat, value: seq<Byte>): seq<Byte>
    requires |m| >= HEADER
  {
    var a := EncodeAttribute(Attribute(typ, Stored(m, value)));
    m[..2] + Big16(|m| - HEADER + |a|) + m[4..] + a
  }

  lemma {:induction false} BodyAppend(attrs: seq<Attribute>, a: Attribute)
    ensures Body(attrs + [a]) == Body(attrs) + EncodeAttribute(a)
  {
    hide EncodeAttribute;
    if attrs == [] {
      assert [] + [a] == [a] && [a][1..] == [];
      assert Body([]) == [] && Body([a]) == EncodeAttribute(a) + Body([]);
    } else {
      BodyAppend(attrs[1..], a);
      assert (attrs + [a])[1..] == attrs[1..] + [a];
      assert Body(attrs) + EncodeAttribute(a) == EncodeAttribute(attrs[0]) + (Body(attrs[1..]) + EncodeAttribute(a));
    }
  }

  /** Appending to an encoded message encodes one attribute more. */
  lemma AppendEncodes(typ: seq<Byte>, id: seq<Byte>, attrs: seq<Attribute>, t: nat, value: seq<Byte>)
    requires |typ| == 2 && |id| == 16
    ensures var m := Encode(typ, id, attrs);
            Appended(m, t, value) == Encode(typ, id, attrs + [Attribute(t, Stored(m, value))])
  {
    hide Body, EncodeAttribute, Big16, Stored;
    var m := Encode(typ, id, attrs);
    var a := Attribute(t, Stored(m, value));
    BodyAppend(attrs, a);
    assert m[..2] == typ && m[4..] == id + Body(attrs);
  }

  function AppendAll(m: seq<Byte>, items: seq<Attribute>): (r: seq<Byte>)
    requires |m| >= HEADER
    ensures |r| >= |m|
    decreases |items|
  {
    if items == [] then m
    else
      Appended(AppendAll(m, items[..|items| - 1]), items[|items| - 1].typ, items[|items| - 1].value)
  }

  lemma {:induction false} AppendAllEncodes(typ: seq<Byte>, id: seq<Byte>, items: seq<Attribute>)
    requires |typ| == 2 && |id| == 16 && id[..4] == Cookie()
    ensures AppendAll(Encode(typ, id, []), items) == Encode(typ, id, items)
    decreases |items|
  {
    hide Body, EncodeAttribute, Big16;
    if items != [] {
      var n := |items| - 1;
      AppendAllEncodes(typ, id, items[..n]);
      AppendEncodes(typ, id, items[..n], items[n].typ, items[n].value);
      var m := Encode(typ, id, items[..n]);
      assert m[4..8] == id[..4];
      assert items[..n] + [items[n]] == items;
    }
  }

  /** Whatever attributes are appended to an initialised message with the cookie and
      room, the validator returns its length and searching finds the first value of each
      type, up to the cut-off. */
  lemma WrittenIsFound(typ: seq<Byte>, id: seq<Byte>, items: seq<Attribute>, t: nat)
    requires Header(typ, id) && id[..4] == Cookie() && Fits(items)
    ensures var m := AppendAll(Encode(typ, id, []), items);
            Validated(m) == Whole(|m|) && FindIn(Visible(m), t) == FindIn(items, t)
  {
    hide Body, Chain;
    AppendAllEncodes(typ, id, items);
    EncodeBack(typ, id, items);
  }

  // ---------------------------------------------------------------------
  // Message types

  /** The two bytes of a class and a method. */
  function TypeBytes(c: nat, m: nat): (b: seq<Byte>)
    requires c < 4 && m < 4096
    ensures |b| == 2 && b[0] < 64
  {
    [c / 2 + 2 * (m / 128), 16 * (c % 2) + 32 * (m / 16 % 8) + m % 16]
  }

  function TypeOf(b: seq<Byte>): nat
    requires |b| >= 2
  {
    if Get16(b, 0) == 0x0115 then 0x0017 else Get16(b, 0)
  }

  function ClassOf(b: seq<Byte>): nat
    requires |b| >= 2
  {
    2 * (TypeOf(b) / 256 % 2) + TypeOf(b) / 16 % 2
  }

  function MethodOf(b: seq<Byte>): nat
    requires |b| >= 2
  {
    128 * (TypeOf(b) / 512 % 32) + 16 * (TypeOf(b) / 32 % 8) + TypeOf(b) % 16
  }

  /** The word that a class and a method make. */
  function TypeWord(c: nat, m: nat): nat {
    512 * (m / 128) + 256 * (c / 2) + 32 * (m / 16 % 8) + 16 * (c % 2) + m % 16
  }

  lemma TypeWordIs(c: nat, m: nat, b: seq<Byte>)
    requires c < 4 && m < 4096 && |b| >= 2 && b[..2] == TypeBytes(c, m)
    ensures Get16(b, 0) == TypeWord(c, m)
  {
    assert b[0] == b[..2][0] && b[1] == b[..2][1];
  }

  /** The fields of a type word. */
  lemma WordParts(h: nat, x: nat, g: nat, y: nat, l: nat)
    requires x < 2 && y < 2 && g < 8 && l < 16 && h < 32
    ensures var t := 512 * h + 256 * x + 32 * g + 16 * y + l;
            && t / 512 % 32 == h && t / 256 % 2 == x && t / 32 % 8 == g && t / 16 % 2 == y && t % 16 == l
  {
    var t := 512 * h + 256 * x + 32 * g + 16 * y + l;
    Digit(32 * h + 16 * x + 2 * g + y, 16, l);
    Digit(16 * h + 8 * x + g, 32, 16 * y + l);
    Digit(2 * h + x, 256, 32 * g + 16 * y + l);
    Digit(h, 512, 256 * x + 32 * g + 16 * y + l);
    Digit(16 * h + 8 * x + g, 2, y);
    Digit(2 * h + x, 8, g);
    Digit(h, 2, x);
  }

  lemma Digit(q: nat, k: nat, r: nat)
    requires r < k
    ensures (q * k + r) / k == q && (q * k + r) % k == r
  {
    var x := q * k + r;
    var d := x / k;
    assert x == d * k + x % k;
    if d > q {
      Scale(q + 1, d, k);
    } else if d < q {
      Scale(d + 1, q, k);
    }
  }

  lemma Scale(a: nat, b: nat, k: nat)
    requires 0 < a <= b
    ensures (a - 1) * k + k <= b * k
  {
    assert b * k == (a - 1) * k + k + (b - a) * k;
  }

  lemma PartsOf(c: nat, m: nat)
    requires c < 4 && m < 4096
    ensures m / 128 < 32 && c / 2 < 2
    ensures m == 128 * (m / 128) + 16 * (m / 16 % 8) + m % 16 && c == 2 * (c / 2) + c % 2
  {
  }

  /** Only the error class of method 5 has the type 0x0115. */
  lemma ExceptionIff(c: nat, m: nat)
    requires c < 4 && m < 4096
    ensures TypeWord(c, m) == 0x0115 <==> c == 3 && m == 5
  {
    PartsOf(c, m);
    WordParts(m / 128, c / 2, m / 16 % 8, c % 2, m % 16);
  }

  /** Class and method can be read back from the type field, with one exception: the
      error class of method 5 reads as an indication of method 7. */
  lemma TypeBackIff(c: nat, m: nat, b: seq<Byte>)
    requires c < 4 && m < 4096 && |b| >= 2 && b[..2] == TypeBytes(c, m)
    ensures ClassOf(b) == c && MethodOf(b) == m <==> !(c == 3 && m == 5)
    ensures c == 3 && m == 5 ==> ClassOf(b) == 1 && MethodOf(b) == 7
  {
    hide Get16;
    TypeWordIs(c, m, b);
    ExceptionIff(c, m);
    if Get16(b, 0) != 0x0115 {
      PartsOf(c, m);
      WordParts(m / 128, c / 2, m / 16 % 8, c % 2, m % 16);
    }
  }

  // ---------------------------------------------------------------------
  // Addresses

  /** Socket addresses, in network byte order. */
  datatype SockAddr = V4(port: seq<Byte>, host: seq<Byte>) | V6(port: seq<Byte>, host: seq<Byte>)

  predicate IsAddress(a: SockAddr) {
    |a.port| == 2 && |a.host| == if a.V4? then 4 else 16
  }

  function XorWith(a: seq<Byte>, mask: seq<Byte>): (r: seq<Byte>)
    requires |a| == |mask|
    ensures |r| == |a| && forall i :: 0 <= i < |a| ==> r[i] == Xor(a[i], mask[i])
  {
    if a == [] then [] else [Xor(a[0], mask[0])] + XorWith(a[1..], mask[1..])
  }

  /** Ports and IPv4 hosts are masked with the cookie, IPv6 hosts with bytes 4 to 19 of
      the message. */
  function XorAddress(m: seq<Byte>, a: SockAddr): (r: SockAddr)
    requires |m| >= HEADER && IsAddress(a)
    ensures IsAddress(r)
  {
    match a
    case V4(port, host) => V4(XorWith(port, Cookie()[..2]), XorWith(host, Cookie()))
    case V6(port, host) => V6(XorWith(port, Cookie()[..2]), XorWith(host, m[4..HEADER]))
  }

  function AddressValue(a: SockAddr): seq<Byte> {
    [0, if a.V4? then 1 else 2] + a.port + a.host
  }

  datatype AddressResult = NotFound | Malformed | Unsupported | Found(addr: SockAddr)

  function ReadAddress(value: Option<seq<Byte>>): AddressResult {
    match value
    case None => NotFound
    case Some(v) =>
      if |v| < 4 then Malformed
      else if v[1] == 1 then (if |v| != 8 then Malformed else Found(V4(v[2..4], v[4..])))
      else if v[1] == 2 then (if |v| != 20 then Malformed else Found(V6(v[2..4], v[4..])))
      else Unsupported
  }

  function FindAddress(b: seq<Byte>, typ: nat): AddressResult
    requires Accepted(b)
  {
    ReadAddress(FindIn(Visible(b), typ))
  }

  lemma ReadAddressOk(value: Option<seq<Byte>>)
    ensures var r := ReadAddress(value); r.Found? ==> IsAddress(r.addr)
  {
  }

  function FindXorAddress(b: seq<Byte>, typ: nat): AddressResult
    requires Accepted(b)
  {
    ReadAddressOk(FindIn(Visible(b), typ));
    AcceptedChain(b);
    match FindAddress(b, typ)
    case Found(a) => Found(XorAddress(b, a))
    case other => other
  }

  lemma XorWithTwice(a: seq<Byte>, mask: seq<Byte>)
    requires |a| == |mask|
    ensures XorWith(XorWith(a, mask), mask) == a
  {
    forall i | 0 <= i < |a|
      ensures XorWith(XorWith(a, mask), mask)[i] == a[i]
    {
      XorTwice(a[i], mask[i]);
    }
  }

  lemma XorAddressTwice(m: seq<Byte>, m': seq<Byte>, a: SockAddr)
    requires |m| >= HEADER && |m'| >= HEADER && m[4..HEADER] == m'[4..HEADER] && IsAddress(a)
    ensures XorAddress(m', XorAddress(m, a)) == a
  {
    hide XorWith;
    match a
    case V4(port, host) =>
      XorWithTwice(port, Cookie()[..2]);
      XorWithTwice(host, Cookie());
    case V6(port, host) =>
      XorWithTwice(port, Cookie()[..2]);
      XorWithTwice(host, m[4..HEADER]);
  }

  lemma AddressBack(a: SockAddr)
    requires IsAddress(a)
    ensures ReadAddress(Some(AddressValue(a))) == Found(a)
  {
    var v := AddressValue(a);
    assert v[2..4] == a.port && v[4..] == a.host;
  }

  /** No attribute of `attrs` hides a later one of type `t`. */
  predicate Uncovered(attrs: seq<Attribute>, t: nat) {
    forall i :: 0 <= i < |attrs| ==>
      attrs[i].typ != t && attrs[i].typ != FINGERPRINT && (attrs[i].typ == MESSAGE_INTEGRITY ==> t == FINGERPRINT)
  }

  /** Appending one more attribute changes what is found for its type exactly when
      nothing before covers it. */
  lemma {:induction false} FindLast(attrs: seq<Attribute>, t: nat, v: seq<Byte>)
    ensures FindIn(attrs + [Attribute(t, v)], t) == if Uncovered(attrs, t) then Some(v) else FindIn(attrs, t)
  {
    if attrs != [] {
      assert (attrs + [Attribute(t, v)])[1..] == attrs[1..] + [Attribute(t, v)];
      FindLast(attrs[1..], t, v);
      UncoveredStep(attrs, t);
    }
  }

  lemma UncoveredStep(attrs: seq<Attribute>, t: nat)
    requires attrs != []
    ensures Uncovered(attrs, t) <==> Uncovered(attrs[..1], t) && Uncovered(attrs[1..], t)
  {
    assert attrs == attrs[..1] + attrs[1..];
  }

  /** An address written with the exclusive or is read back, whatever follows it. */
  lemma XorAddressBack(typ: seq<Byte>, id: seq<Byte>, attrs: seq<Attribute>, t: nat, a: SockAddr, more: seq<Attribute>)
    requires Header(typ, id) && id[..4] == Cookie() && IsAddress(a) && Uncovered(attrs, t)
    requires var value := AddressValue(XorAddress(Encode(typ, id, attrs), a));
             Fits(attrs + [Attribute(t, value)] + more)
    ensures var m := Encode(typ, id, attrs);
            var value := AddressValue(XorAddress(m, a));
            var b := AppendAll(Encode(typ, id, []), attrs + [Attribute(t, value)] + more);
            Accepted(b) && FindXorAddress(b, t) == Found(a)
  {
    hide Body, XorAddress, AddressValue, ReadAddress, Big16;
    var m := Encode(typ, id, attrs);
    var x := XorAddress(m, a);
    var value := AddressValue(x);
    var items := attrs + [Attribute(t, value)] + more;
    var b := Encode(typ, id, items);
    AppendAllEncodes(typ, id, items);
    EncodeBack(typ, id, items);
    FindLast(attrs, t, value);
    FindPrefix(attrs + [Attribute(t, value)], more, t, value);
    AddressBack(x);
    assert m[4..HEADER] == id && b[4..HEADER] == id;
    XorAddressTwice(m, b, a);
  }

  lemma {:induction false} FindPrefix(attrs: seq<Attribute>, more: seq<Attribute>, t: nat, v: seq<Byte>)
    requires FindIn(attrs, t) == Some(v)
    ensures FindIn(attrs + more, t) == Some(v)
  {
    if attrs[0].typ != t {
      assert (attrs + more)[1..] == attrs[1..] + more;
      FindPrefix(attrs[1..], more, t, v);
    }
  }

  // ---------------------------------------------------------------------
  // The message object

  class StunMessage {
    const buffer: array<Byte>

    constructor (buffer: array<Byte>)
      ensures this.buffer == buffer
    {
      this.buffer := buffer;
    }

    /** The buffer holds a message. */
    ghost predicate Valid()
      reads buffer
    {
      && HEADER <= buffer.Length
      && HEADER <= Length(buffer[..]) <= buffer.Length && Length(buffer[..]) % 4 == 0
    }

    ghost function Bytes(): (m: seq<Byte>)
      requires Valid()
      reads buffer
      ensures |m| >= HEADER
    {
      buffer[..Length(buffer[..])]
    }

    /** With `n` bytes more the message stays below 64 KiB, whatever the size of the buffer. */
    ghost predicate Short(n: nat)
      requires Valid()
      reads buffer
    {
      buffer.Length < TWO16 || |Bytes()| + n < TWO16
    }

    /** Copy bytes into the buffer. */
    method Put(at: nat, data: seq<Byte>)
      requires at + |data| <= buffer.Length
      modifies buffer
      ensures buffer[..] == old(buffer[..at]) + data + old(buffer[at + |data|..])
    {
      forall k | 0 <= k < |data| {
        buffer[at + k] := data[k];
      }
    }

    /** Start an empty message. */
    method Init(c: nat, m: nat, id: seq<Byte>) returns (ok: bool)
      requires c < 4 && m < 4096 && |id| == 16
      modifies buffer
      ensures ok <==> buffer.Length >= HEADER
      ensures ok ==> Valid() && Bytes() == Encode(TypeBytes(c, m), id, [])
    {
      hide Get16, Big16, TypeBytes, EncodeAttribute;
      if buffer.Length < HEADER {
        return false;
      }
      var typ := TypeBytes(c, m);
      Put(0, typ + Big16(0));
      Put(4, id);
      assert buffer[..] == typ + Big16(0) + id + buffer[HEADER..];
      Word16(typ, 0, id + buffer[HEADER..]);
      assert buffer[..] == typ + Big16(0) + (id + buffer[HEADER..]);
      ok := true;
    }

    /** Write an encoded attribute behind the message and the new length into its header. */
    method WriteAttribute(mlen: nat, attribute: seq<Byte>)
      requires HEADER <= mlen && mlen + |attribute| <= buffer.Length
      modifies buffer
      ensures buffer[..mlen + |attribute|] ==
              old(buffer[..2]) + Big16(mlen - HEADER + |attribute|) + old(buffer[4..mlen]) + attribute
    {
      hide Big16;
      Put(mlen, attribute);
      Put(2, Big16(mlen - HEADER + |attribute|));
    }

    /** Append an attribute with a value. The length in the header is that of the
        message if and only if the message stays below 64 KiB. */
    method Append(typ: nat, value: seq<Byte>) returns (ok: bool)
      requires Valid() && typ < TWO16 && PaddingStays(|Bytes()|, |value|, buffer.Length)
      modifies buffer
      ensures ok <==> |old(Bytes())| + 4 + |value| <= buffer.Length
      ensures !ok ==> buffer[..] == old(buffer[..])
      ensures ok ==>
                var b := Appended(old(Bytes()), typ, value);
                && |b| <= buffer.Length && buffer[..|b|] == b
                && (Length(buffer[..]) == |b| <==> |b| < TWO16)
      ensures !ok || |Appended(old(Bytes()), typ, value)| < TWO16 ==>
                Valid() && Bytes() == if ok then Appended(old(Bytes()), typ, value) else old(Bytes())
    {
      hide Get16, Big16, EncodeAttribute, Stored, HasCookie, Padding, Align, Appended;
      var mlen := Length(buffer[..]);
      ghost var m := Bytes();
      if mlen + 4 + |value| > buffer.Length {
        return false;
      }
      var cookie := buffer[4..8] == Cookie();
      CookieSeen(m, buffer[4..8]);
      var recorded := if cookie then |value| else Align(|value|);
      var attribute := Big16(typ) + Big16(recorded) + value + Spaces(Padding(|value|));
      AttributeBytes(m, typ, value);
      WriteAttribute(mlen, attribute);
      Rewritten(m, typ, value, attribute, buffer[..]);
      ok := true;
    }
  }

  /** The room test leaves room for the padding too. */
  predicate PaddingStays(mlen: nat, len: nat, size: nat) {
    mlen + 4 + len <= size ==> mlen + 4 + Align(len) <= size
  }

  /** The padding of every attribute that passes the room test stays inside the buffer if
      and only if the size of the buffer is a multiple of four. */
  lemma PaddingStaysIff(size: nat)
    requires size >= HEADER + 4
    ensures (forall mlen: nat, len: nat :: HEADER <= mlen && mlen % 4 == 0 ==> PaddingStays(mlen, len, size))
            <==> size % 4 == 0
  {
    if size % 4 != 0 {
      assert !PaddingStays(HEADER, size - HEADER - 4, size);
    }
  }

  lemma CookieSeen(m: seq<Byte>, bytes: seq<Byte>)
    requires |m| >= HEADER && bytes == m[4..8]
    ensures HasCookie(m) <==> bytes == Cookie()
  {
  }

  lemma AttributeBytes(m: seq<Byte>, typ: nat, value: seq<Byte>)
    requires |m| >= HEADER
    ensures var recorded := if HasCookie(m) then |value| else Align(|value|);
            var a := Big16(typ) + Big16(recorded) + value + Spaces(Padding(|value|));
            EncodeAttribute(Attribute(typ, Stored(m, value))) == a && |a| == 4 + Align(|value|)
  {
    hide Big16, HasCookie;
    if !HasCookie(m) {
      PaddingZero(Align(|value|));
      assert Spaces(0) == [];
    }
  }

  /** The buffer after the attribute and the new length have been written. */
  lemma Rewritten(m: seq<Byte>, typ: nat, value: seq<Byte>, a: seq<Byte>, b: seq<Byte>)
    requires |m| >= HEADER && |m| + |a| <= |b| && EncodeAttribute(Attribute(typ, Stored(m, value))) == a
    requires b[..|m| + |a|] == m[..2] + Big16(|m| - HEADER + |a|) + m[4..] + a
    ensures b[..|m| + |a|] == Appended(m, typ, value) && |Appended(m, typ, value)| == |m| + |a|
    ensures Length(b) == |m| + |a| <==> |m| + |a| < TWO16
  {
    hide Get16, Big16, EncodeAttribute, Stored;
    var w := |m| - HEADER + |a|;
    Truncated(w);
    Word16(m[..2], w % TWO16, m[4..] + a + b[|m| + |a|..]);
    assert b == m[..2] + Big16(w % TWO16) + (m[4..] + a + b[|m| + |a|..]);
  }

  lemma Truncated(w: nat)
    ensures Big16(w) == Big16(w % TWO16)
  {
    assert w % TWO16 % 256 == w % 256;
    assert w % TWO16 / 256 == w / 256 % 256;
  }
}
