/** STUN messages as bytes: writing, validating and searching them, with attributes
    aligned to four bytes. */
module StunMessages {
  import opened Arith
  import opened Options
  import opened WordBytes

  const HEADER: nat := 20
  const MESSAGE_INTEGRITY: nat := 0x0008
  const FINGERPRINT: nat := 0x8028

  datatype Attribute = Attribute(typ: nat, value: seq<Byte>)

  function Padding(l: nat): nat {
    if l % 4 == 0 then 0 else 4 - l % 4
  }

  function Align(l: nat): (r: nat)
    ensures r % 4 == 0 && l <= r < l + 4
  {
    l + Padding(l)
  }

  lemma PaddingZero(l: nat)
    ensures Padding(l) == 0 <==> l % 4 == 0
  {
  }

  /** The message length, a 16-bit result. */
  function Length(b: seq<Byte>): nat
    requires |b| >= 4
  {
    (Get16(b, 2) + HEADER) % TWO16
  }

  // ---------------------------------------------------------------------
  // The chain of attributes

  /** The next attribute boundary. */
  function Next(b: seq<Byte>, off: nat): (r: nat)
    requires off + 4 <= |b|
    ensures r >= off + 4
  {
    off + 4 + Align(Get16(b, off + 2))
  }

  /** The attributes from `off` on end exactly at `end`. */
  predicate Chain(b: seq<Byte>, off: nat, end: nat)
    requires end <= |b|
    decreases end - off
  {
    off == end || (off + 4 <= end && Next(b, off) <= end && Chain(b, Next(b, off), end))
  }

  function Boundaries(b: seq<Byte>, off: nat, end: nat): seq<nat>
    requires end <= |b| && Chain(b, off, end)
    decreases end - off
  {
    if off == end then [] else [off] + Boundaries(b, Next(b, off), end)
  }

  function AttributeAt(b: seq<Byte>, off: nat): Attribute
    requires off + 4 <= |b| && off + 4 + Get16(b, off + 2) <= |b|
  {
    Attribute(Get16(b, off), b[off + 4..off + 4 + Get16(b, off + 2)])
  }

  function Attributes(b: seq<Byte>, off: nat, end: nat): seq<Attribute>
    requires end <= |b| && Chain(b, off, end)
    decreases end - off
  {
    if off == end then [] else [AttributeAt(b, off)] + Attributes(b, Next(b, off), end)
  }

  lemma ChainEnd(b: seq<Byte>, end: nat)
    requires end <= |b|
    ensures Chain(b, end, end) && Boundaries(b, end, end) == [] && Attributes(b, end, end) == []
  {
  }

  /** One link of the chain. */
  lemma ChainStep(b: seq<Byte>, off: nat, end: nat)
    requires end <= |b| && Chain(b, off, end) && off != end
    ensures off + 4 <= end && off + 4 + Get16(b, off + 2) <= Next(b, off) <= end && Chain(b, Next(b, off), end)
    ensures Boundaries(b, off, end) == [off] + Boundaries(b, Next(b, off), end)
    ensures Attributes(b, off, end) == [AttributeAt(b, off)] + Attributes(b, Next(b, off), end)
  {
  }

  lemma ChainBack(b: seq<Byte>, off: nat, end: nat)
    requires end <= |b| && off + 4 <= end
    ensures Chain(b, off, end) <==> Next(b, off) <= end && Chain(b, Next(b, off), end)
  {
  }

  // ---------------------------------------------------------------------
  // Validation

  datatype Validity = Invalid | Incomplete | Whole(length: nat)

  function Validated(b: seq<Byte>): Validity {
    if |b| < 1 || b[0] >= 64 then Invalid
    else if |b| < 4 then Incomplete
    else
      var mlen := Get16(b, 2) + HEADER;
      if mlen % 4 != 0 then Invalid
      else if |b| < mlen then Incomplete
      else if Chain(b, HEADER, mlen) then Whole(mlen)
      else Invalid
  }

  lemma Mod4(len: nat, alen: nat)
    requires (len + 4) % 4 == 0 && alen % 4 == 0 && alen <= len
    ensures (len - alen) % 4 == 0
  {
  }

  /** The validator's loop, which counts down what is left; `visited` are the offsets it
      reads an attribute header at. */
  method ValidateBuffer(b: seq<Byte>) returns (r: Validity, ghost visited: seq<nat>)
    ensures r == Validated(b)
    ensures r.Whole? ==> visited == Boundaries(b, HEADER, r.length)
  {
    hide Chain, Boundaries, Get16, Padding, Align;
    visited := [];
    if |b| < 1 || b[0] / 64 != 0 {
      return Invalid, visited;
    }
    if |b| < 4 {
      return Incomplete, visited;
    }
    var mlen := Get16(b, 2) + HEADER;
    PaddingZero(mlen);
    if Padding(mlen) != 0 {
      return Invalid, visited;
    }
    if |b| < mlen {
      return Incomplete, visited;
    }
    var at, len := HEADER, mlen - HEADER;
    while len > 0
      invariant len % 4 == 0 && at + len == mlen && 0 <= len
      invariant Chain(b, HEADER, mlen) <==> Chain(b, at, mlen)
      invariant Chain(b, at, mlen) ==> visited + Boundaries(b, at, mlen) == Boundaries(b, HEADER, mlen)
    {
      ChainBack(b, at, mlen);
      if Chain(b, at, mlen) {
        ChainStep(b, at, mlen);
      }
      visited := visited + [at];
      var alen := Align(Get16(b, at + 2));
      assert Next(b, at) == at + 4 + alen;
      len := len - 4;
      if len < alen {
        return Invalid, visited;
      }
      Mod4(len, alen);
      len := len - alen;
      at := at + 4 + alen;
    }
    ChainEnd(b, mlen);
    r := Whole(mlen);
  }

  /** Accepted in full, as a received message must be. */
  predicate Accepted(b: seq<Byte>) {
    Validated(b) == Whole(|b|)
  }

  /** The 16-bit length of an accepted message is right exactly below 64 KiB; above, it
      falls short of the header. */
  lemma LengthExactIff(b: seq<Byte>)
    requires Accepted(b)
    ensures Length(b) == |b| <==> |b| < TWO16
    ensures |b| >= TWO16 ==> Length(b) < HEADER
  {
  }

  /** The attributes that searching an accepted message sees. */
  function Visible(b: seq<Byte>): seq<Attribute>
    requires Accepted(b)
  {
    if |b| < TWO16 then Attributes(b, HEADER, |b|) else []
  }

  function VisibleBoundaries(b: seq<Byte>): seq<nat>
    requires Accepted(b)
  {
    if |b| < TWO16 then Boundaries(b, HEADER, |b|) else []
  }

  // ---------------------------------------------------------------------
  // Searching

  /** The first value of a type. Nothing is seen after a fingerprint, and only a
      fingerprint after a message integrity. */
  function FindIn(attrs: seq<Attribute>, typ: nat): Option<seq<Byte>> {
    if attrs == [] then None
    else if attrs[0].typ == typ then Some(attrs[0].value)
    else if attrs[0].typ == FINGERPRINT then None
    else if attrs[0].typ == MESSAGE_INTEGRITY && typ != FINGERPRINT then None
    else FindIn(attrs[1..], typ)
  }

  /** Where the value of the first attribute of a type starts. */
  function FindAt(b: seq<Byte>, off: nat, end: nat, typ: nat): (r: Option<nat>)
    requires end <= |b| && Chain(b, off, end)
    ensures r.Some? ==> off + 4 <= r.value <= end
    decreases end - off
  {
    if off == end then None
    else if Get16(b, off) == typ then Some(off + 4)
    else if Get16(b, off) == FINGERPRINT || (Get16(b, off) == MESSAGE_INTEGRITY && typ != FINGERPRINT) then None
    else FindAt(b, Next(b, off), end, typ)
  }

  lemma FindAtStep(b: seq<Byte>, off: nat, end: nat, typ: nat)
    requires end <= |b| && Chain(b, off, end)
    ensures FindAt(b, off, end, typ) ==
            if off == end then None
            else if Get16(b, off) == typ then Some(off + 4)
            else if Get16(b, off) == FINGERPRINT || (Get16(b, off) == MESSAGE_INTEGRITY && typ != FINGERPRINT) then None
            else FindAt(b, Next(b, off), end, typ)
  {
  }

  lemma FindStep(a: Attribute, rest: seq<Attribute>, typ: nat)
    ensures FindIn([a] + rest, typ) ==
            if a.typ == typ then Some(a.value)
            else if a.typ == FINGERPRINT || (a.typ == MESSAGE_INTEGRITY && typ != FINGERPRINT) then None
            else FindIn(rest, typ)
  {
    assert ([a] + rest)[1..] == rest;
  }

  lemma UnknownsStep(a: Attribute, rest: seq<Attribute>, known: seq<nat>)
    ensures Unknowns([a] + rest, known) ==
            (if !Optional(a.typ) && a.typ !in known then [a.typ] else []) + Unknowns(rest, known)
  {
    assert ([a] + rest)[1..] == rest;
  }

  /** Search an accepted message; the result is a position and a length in it. */
  method Find(b: seq<Byte>, typ: nat) returns (found: bool, pos: nat, len: nat, ghost visited: seq<nat>)
    requires Accepted(b)
    ensures found ==> pos + len <= |b|
    ensures FindIn(Visible(b), typ) == if found then Some(b[pos..pos + len]) else None
    ensures if |b| < TWO16 then FindAt(b, HEADER, |b|, typ) == (if found then Some(pos) else None) else !found
    ensures visited <= VisibleBoundaries(b)
  {
    hide Chain, Boundaries, Attributes, FindIn, FindAt, Get16;
    found, pos, len, visited := false, 0, 0, [];
    AcceptedChain(b);
    LengthExactIff(b);
    var length := Length(b);
    var offset := HEADER;
    while offset < length
      invariant length < HEADER || (HEADER <= offset <= length == |b| && Chain(b, offset, |b|))
      invariant length >= HEADER ==> visited + Boundaries(b, offset, |b|) == VisibleBoundaries(b)
      invariant length >= HEADER ==> FindIn(Visible(b), typ) == FindIn(Attributes(b, offset, |b|), typ)
      invariant length >= HEADER ==> FindAt(b, HEADER, |b|, typ) == FindAt(b, offset, |b|, typ)
      invariant length < HEADER ==> visited == [] && Visible(b) == []
      decreases length - offset
    {
      ChainStep(b, offset, |b|);
      FindStep(AttributeAt(b, offset), Attributes(b, Next(b, offset), |b|), typ);
      FindAtStep(b, offset, |b|, typ);
      visited := visited + [offset];
      var atype := Get16(b, offset);
      var alen := Get16(b, offset + 2);
      offset := offset + 4;
      if atype == typ {
        return true, offset, alen, visited;
      }
      if atype == FINGERPRINT || (atype == MESSAGE_INTEGRITY && typ != FINGERPRINT) {
        return false, 0, 0, visited;
      }
      offset := offset + Align(alen);
    }
    ChainEnd(b, |b|);
    FindAtStep(b, |b|, |b|, typ);
    NothingIn(typ);
  }

  lemma NothingIn(typ: nat)
    ensures FindIn([], typ) == None
  {
  }

  predicate Optional(typ: nat) {
    typ / 0x8000 == 1
  }

  /** The mandatory attribute types that are not known, in order. */
  function Unknowns(attrs: seq<Attribute>, known: seq<nat>): seq<nat> {
    if attrs == [] then []
    else
      var rest := Unknowns(attrs[1..], known);
      if !Optional(attrs[0].typ) && attrs[0].typ !in known then [attrs[0].typ] + rest else rest
  }

  method IsUnknown(known: seq<nat>, typ: nat) returns (unknown: bool)
    ensures unknown <==> typ !in known
  {
    var i := 0;
    while i < |known|
      invariant 0 <= i <= |known| && typ !in known[..i]
    {
      if known[i] == typ {
        return false;
      }
      i := i + 1;
    }
    return true;
  }

  /** Collect at most `max` unknown mandatory types. */
  method FindUnknowns(b: seq<Byte>, known: seq<nat>, max: nat) returns (list: seq<nat>, ghost visited: seq<nat>)
    requires Accepted(b)
    ensures var all := Unknowns(Visible(b), known);
            list == if |all| <= max then all else all[..max]
    ensures visited <= VisibleBoundaries(b)
    ensures |list| < max ==> visited == VisibleBoundaries(b)
  {
    hide Chain, Boundaries, Attributes, Unknowns, Get16;
    list, visited := [], [];
    AcceptedChain(b);
    NoUnknowns(known);
    LengthExactIff(b);
    var length := Length(b);
    var offset := HEADER;
    while offset < length && |list| < max
      invariant length < HEADER || (HEADER <= offset <= length == |b| && Chain(b, offset, |b|))
      invariant |list| <= max
      invariant length >= HEADER ==> visited + Boundaries(b, offset, |b|) == VisibleBoundaries(b)
      invariant length >= HEADER ==>
                  Unknowns(Visible(b), known) == list + Unknowns(Attributes(b, offset, |b|), known)
      invariant length < HEADER ==> visited == [] && list == [] && Visible(b) == []
      decreases length - offset
    {
      ChainStep(b, offset, |b|);
      UnknownsStep(AttributeAt(b, offset), Attributes(b, Next(b, offset), |b|), known);
      visited := visited + [offset];
      var alen := Get16(b, offset + 2);
      var atype := Get16(b, offset);
      var unknown := IsUnknown(known, atype);
      if !Optional(atype) && unknown {
        list := list + [atype];
      }
      offset := offset + 4 + Align(alen);
    }
    if offset >= length && length >= HEADER {
      ChainEnd(b, |b|);
    }
    if length >= HEADER && |list| == max {
      assert (list + Unknowns(Attributes(b, offset, |b|), known))[..max] == list;
    }
  }

  lemma NoUnknowns(known: seq<nat>)
    ensures Unknowns([], known) == []
  {
  }

  lemma AcceptedChain(b: seq<Byte>)
    requires Accepted(b)
    ensures |b| >= HEADER && Chain(b, HEADER, |b|)
  {
  }
}
