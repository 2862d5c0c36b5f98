/** What one STUN agent finishes, another one of the same kind accepts. */
module StunExchange {
  import opened Arith
  import opened Options
  import opened WordBytes
  import opened StunMessages
  import opened StunWriter
  import opened StunAgents

  // ---------------------------------------------------------------------
  // Searching encoded messages

  /** Attributes as an application appends them. */
  predicate Plain(attrs: seq<Attribute>) {
    forall i :: 0 <= i < |attrs| ==> attrs[i].typ != MESSAGE_INTEGRITY && attrs[i].typ != FINGERPRINT
  }

  /** What finishing adds: an integrity, a fingerprint, both or neither. */
  predicate Trailer(attrs: seq<Attribute>) {
    |attrs| > 0 ==> attrs[0].typ == MESSAGE_INTEGRITY || attrs[0].typ == FINGERPRINT
  }

  /** The trailer hides nothing and adds nothing to what the application wrote. */
  lemma {:induction false} FindPlain(attrs: seq<Attribute>, more: seq<Attribute>, t: nat)
    requires Plain(attrs) && Trailer(more) && t != MESSAGE_INTEGRITY && t != FINGERPRINT
    ensures FindIn(attrs + more, t) == FindIn(attrs, t)
  {
    if attrs == [] {
      assert attrs + more == more;
    } else {
      assert (attrs + more)[1..] == attrs[1..] + more;
      FindPlain(attrs[1..], more, t);
    }
  }

  lemma {:induction false} FindTrailer(attrs: seq<Attribute>, more: seq<Attribute>, t: nat)
    requires Plain(attrs) && (t == MESSAGE_INTEGRITY || t == FINGERPRINT)
    ensures FindIn(attrs + more, t) == FindIn(more, t)
  {
    if attrs == [] {
      assert attrs + more == more;
    } else {
      assert (attrs + more)[1..] == attrs[1..] + more;
      FindTrailer(attrs[1..], more, t);
    }
  }

  /** Where an attribute that follows plain ones starts. */
  lemma {:induction false} FindAtBody(pre: seq<Byte>, attrs: seq<Attribute>, a: Attribute, more: seq<Attribute>)
    requires AllSized(attrs + [a] + more) && Plain(attrs) && a.typ == MESSAGE_INTEGRITY
    ensures var b := pre + Body(attrs + [a] + more);
            && Chain(b, |pre|, |b|)
            && FindAt(b, |pre|, |b|, a.typ) == Some(|pre| + |Body(attrs)| + 4)
    decreases |attrs|
  {
    hide EncodeAttribute, Get16, Body, Chain, Attributes, Boundaries;
    var all := attrs + [a] + more;
    var b := pre + Body(all);
    BodyBack(pre, all);
    BodyStep(all);
    BodyStep(attrs);
    var first, rest := EncodeAttribute(all[0]), all[1..];
    AttributeBack(pre, all[0], Body(rest));
    assert b == pre + first + Body(rest);
    ChainStep(b, |pre|, |b|);
    if attrs == [] {
      assert all[0] == a;
    } else {
      assert rest == attrs[1..] + [a] + more;
      FindAtBody(pre + first, attrs[1..], a, more);
      assert all[0] == attrs[0];
    }
  }

  lemma BodyStep(attrs: seq<Attribute>)
    ensures Body(attrs) == if attrs == [] then [] else EncodeAttribute(attrs[0]) + Body(attrs[1..])
  {
  }

  lemma EncodeLength(typ: seq<Byte>, id: seq<Byte>, attrs: seq<Attribute>)
    requires |typ| == 2 && |id| == 16
    ensures |Encode(typ, id, attrs)| == HEADER + |Body(attrs)|
  {
  }

  lemma {:induction false} UnknownsNone(attrs: seq<Attribute>, known: seq<nat>)
    requires forall i :: 0 <= i < |attrs| ==> Optional(attrs[i].typ) || attrs[i].typ in known
    ensures Unknowns(attrs, known) == []
  {
    if attrs != [] {
      UnknownsNone(attrs[1..], known);
    }
  }

  // ---------------------------------------------------------------------
  // The finished bytes

  /** An unfinished message. */
  predicate Draft(typ: seq<Byte>, id: seq<Byte>, attrs: seq<Attribute>) {
    Header(typ, id) && Fits(attrs) && Plain(attrs)
  }

  function Integrity(a: Agent, c: Crypto, m: seq<Byte>, key: seq<Byte>): Attribute
    requires |m| >= HEADER
  {
    Attribute(MESSAGE_INTEGRITY, Mac(c, key, MacText(a.compat, m, |m| + 24, FakeLength(a, |m| + 24))))
  }

  function Checksum(c: Crypto, m: seq<Byte>): Attribute
    requires |m| >= HEADER
  {
    Attribute(FINGERPRINT, FingerprintOf(c, m, |m| + 8))
  }

  lemma StoredWhole(m: seq<Byte>, value: seq<Byte>)
    requires |m| >= HEADER && |value| % 4 == 0
    ensures Stored(m, value) == value
  {
    PaddingZero(|value|);
    assert Spaces(0) == [];
  }

  /** An append of whole words with room, on encoded messages. */
  lemma AppendWhole(typ: seq<Byte>, id: seq<Byte>, attrs: seq<Attribute>, x: Attribute, size: nat)
    requires Header(typ, id) && |x.value| % 4 == 0
    ensures var m := Encode(typ, id, attrs);
            var r := TryAppend(m, x.typ, x.value, size);
            && |m| == HEADER + |Body(attrs)|
            && (r.Some? ==> r.value == Encode(typ, id, attrs + [x]) && |r.value| == |m| + 4 + |x.value| <= size)
  {
    hide Body, EncodeAttribute, Big16;
    var m := Encode(typ, id, attrs);
    AppendEncodes(typ, id, attrs, x.typ, x.value);
    StoredWhole(m, x.value);
    BodyAppend(attrs, x);
    PaddingZero(|x.value|);
  }

  /** The attributes of the finished message. */
  function Trail(a: Agent, c: Crypto, m: seq<Byte>, signing: Option<seq<Byte>>): seq<Attribute>
    requires |m| >= HEADER
  {
    if signing.Some? then [Integrity(a, c, m, signing.value)] else []
  }

  /** Finishing encodes the message with the integrity, then with the fingerprint. */
  lemma SealedIs(a: Agent, c: Crypto, msg: Message, key: Option<seq<Byte>>, size: nat,
                 typ: seq<Byte>, id: seq<Byte>, attrs: seq<Attribute>)
    requires Draft(typ, id, attrs) && msg.bytes == Encode(typ, id, attrs) && Accepted(msg.bytes)
    requires Sealed(a, c, msg, key, size).Some? && size < TWO16
    ensures var signing := if key.Some? then SigningKey(a, c, msg, key.value) else None;
            var b := Sealed(a, c, msg, key, size).value;
            var trail := Trail(a, c, msg.bytes, signing);
            var m := Encode(typ, id, attrs + trail);
            && |m| == HEADER + |Body(attrs + trail)| && |msg.bytes| == HEADER + |Body(attrs)|
            && (b == if Fingerprinted(a) then Encode(typ, id, attrs + trail + [Checksum(c, m)]) else m)
            && |b| == |m| + (if Fingerprinted(a) then 8 else 0)
            && |m| == |msg.bytes| + 24 * |trail|
            && (trail != [] || Fingerprinted(a) ==> |b| <= size)
  {
    hide Body, EncodeAttribute, Big16, Mac, MacText, FingerprintOf, LongTermKey, Accepted;
    var signing := if key.Some? then SigningKey(a, c, msg, key.value) else None;
    var trail := Trail(a, c, msg.bytes, signing);
    if signing.Some? {
      AppendWhole(typ, id, attrs, Integrity(a, c, msg.bytes, signing.value), size);
    } else {
      assert attrs + trail == attrs;
    }
    var m := Encode(typ, id, attrs + trail);
    if Fingerprinted(a) {
      AppendWhole(typ, id, attrs + trail, Checksum(c, m), size);
    }
  }

  // ---------------------------------------------------------------------
  // Both ends compute over the same bytes

  /** Wherever the attributes after it come from, the bytes before an attribute stay. */
  lemma EncodePrefix(typ: seq<Byte>, id: seq<Byte>, attrs: seq<Attribute>, more: seq<Attribute>)
    requires |typ| == 2 && |id| == 16
    ensures var m, b := Encode(typ, id, attrs), Encode(typ, id, attrs + more);
            |m| <= |b| && m[..2] == b[..2] == typ && m[4..] == b[4..|m|] && b[4..HEADER] == id
  {
    hide EncodeAttribute, Big16, Body;
    BodyConcat(attrs, more);
    var b := Encode(typ, id, attrs + more);
    assert b[4..] == id + (Body(attrs) + Body(more));
  }

  lemma {:induction false} BodyConcat(attrs: seq<Attribute>, more: seq<Attribute>)
    ensures Body(attrs + more) == Body(attrs) + Body(more)
  {
    hide EncodeAttribute;
    if attrs == [] {
      assert attrs + more == more;
    } else {
      assert (attrs + more)[1..] == attrs[1..] + more;
      BodyConcat(attrs[1..], more);
      assert Body(attrs) + Body(more) == EncodeAttribute(attrs[0]) + (Body(attrs[1..]) + Body(more));
    }
  }

  /** The receiver authenticates the bytes and the length that the sender did, also when a
      fingerprint was appended in between. */
  lemma SameBytes(a: Agent, m: seq<Byte>, b: seq<Byte>)
    requires HEADER <= |m| <= |b| && m[..2] == b[..2] && m[4..] == b[4..|m|]
    requires |b| == |m| + 24 + (if Fingerprinted(a) then 8 else 0)
    ensures var pos := |m| + 4;
            var fake := if a.compat == Wlm2009 then |b| - 20 else pos;
            MacText(a.compat, b, pos + 20, fake) == MacText(a.compat, m, |m| + 24, FakeLength(a, |m| + 24))
  {
    hide Big16;
    assert b[4..|m| + 24 - 24] == m[4..|m| + 24 - 24];
  }

  lemma MacMatches(a: Agent, c: Crypto, typ: seq<Byte>, id: seq<Byte>, attrs: seq<Attribute>, signing: seq<Byte>,
                   more: seq<Attribute>)
    requires Draft(typ, id, attrs) && |more| == if Fingerprinted(a) then 1 else 0
    requires forall i :: 0 <= i < |more| ==> |more[i].value| == 4
    requires var x := Integrity(a, c, Encode(typ, id, attrs), signing); Fits(attrs + [x] + more)
    ensures var m := Encode(typ, id, attrs);
            var b := Encode(typ, id, attrs + [Integrity(a, c, m, signing)] + more);
            && Chain(b, HEADER, |b|)
            && FindAt(b, HEADER, |b|, MESSAGE_INTEGRITY) == Some(|m| + 4)
            && MacOk(a, c, b, |m| + 4, signing)
  {
    hide Body, EncodeAttribute, Big16, Mac, MacText;
    var m := Encode(typ, id, attrs);
    var x := Integrity(a, c, m, signing);
    var all := attrs + [x] + more;
    var b := Encode(typ, id, all);
    assert all == attrs + ([x] + more);
    EncodePrefix(typ, id, attrs, [x] + more);
    var pre := typ + Big16(|Body(all)|) + id;
    FindAtBody(pre, attrs, x, more);
    assert b == pre + Body(all);
    TrailLength(attrs, x, more);
    SameBytes(a, m, b);
    ValueThere(typ, id, attrs, x, more);
  }

  lemma TrailLength(attrs: seq<Attribute>, x: Attribute, more: seq<Attribute>)
    requires |x.value| == 20 && |more| <= 1 && forall i :: 0 <= i < |more| ==> |more[i].value| == 4
    ensures |Body(attrs + [x] + more)| == |Body(attrs)| + 24 + 8 * |more|
  {
    hide EncodeAttribute;
    BodyAppend(attrs, x);
    if more != [] {
      BodyAppend(attrs + [x], more[0]);
      assert attrs + [x] + more == attrs + [x] + [more[0]];
    } else {
      assert attrs + [x] + more == attrs + [x];
    }
  }

  lemma ValueThere(typ: seq<Byte>, id: seq<Byte>, attrs: seq<Attribute>, x: Attribute, more: seq<Attribute>)
    requires |typ| == 2 && |id| == 16 && Sized(x)
    ensures var m := Encode(typ, id, attrs);
            var b := Encode(typ, id, attrs + [x] + more);
            |m| + 4 + |x.value| <= |b| && b[|m| + 4..|m| + 4 + |x.value|] == x.value
  {
    hide Big16, Get16, EncodeAttribute, Body;
    BodyAppend(attrs, x);
    BodyConcat(attrs + [x], more);
    var b := Encode(typ, id, attrs + [x] + more);
    var pre := typ + Big16(|Body(attrs + [x] + more)|) + id + Body(attrs);
    assert b == pre + EncodeAttribute(x) + Body(more);
    AttributeBack(pre, x, Body(more));
  }

  lemma FingerprintMatches(c: Crypto, typ: seq<Byte>, id: seq<Byte>, attrs: seq<Attribute>)
    requires Header(typ, id) && Fits(attrs + [Checksum(c, Encode(typ, id, attrs))])
    requires Uncovered(attrs, FINGERPRINT)
    ensures var b := Encode(typ, id, attrs + [Checksum(c, Encode(typ, id, attrs))]);
            Accepted(b) && FingerprintOk(c, b)
  {
    hide Body, EncodeAttribute, Big16, Big32, Accepted;
    var m := Encode(typ, id, attrs);
    var x := Checksum(c, m);
    var b := Encode(typ, id, attrs + [x]);
    EncodeBack(typ, id, attrs + [x]);
    FindLast(attrs, FINGERPRINT, x.value);
    EncodePrefix(typ, id, attrs, [x]);
    AppendWhole(typ, id, attrs, x, |m| + 8);
    assert b[4..|b| - 8] == m[4..];
    assert m[4..|m| + 8 - 8] == m[4..];
  }

  // ---------------------------------------------------------------------
  // What the receiver sees of a finished message

  /** The receiver knows every mandatory attribute of the message, and the integrity. */
  predicate Knows(r: Agent, attrs: seq<Attribute>) {
    && MESSAGE_INTEGRITY in r.known
    && forall i :: 0 <= i < |attrs| ==> Optional(attrs[i].typ) || attrs[i].typ in r.known
  }

  ghost predicate Twins(s: Agent, r: Agent) {
    s.compat == r.compat && s.flags == r.flags
  }

  /** The finished message `b` as the receiver sees it. */
  ghost predicate Seen(r: Agent, c: Crypto, b: seq<Byte>, cls: nat, method_: nat, id: seq<Byte>,
                       attrs: seq<Attribute>, signing: Option<seq<Byte>>)
  {
    && Accepted(b) && HEADER <= |b| < TWO16 && Form(r, c, b) == Success
    && ClassOf(b) == cls && MethodOf(b) == method_ && IdOf(b) == id
    && (forall t :: t != MESSAGE_INTEGRITY && t != FINGERPRINT ==> Fetch(b, t) == FindIn(attrs, t))
    && (Has(b, MESSAGE_INTEGRITY) <==> signing.Some?)
    && Verdict(r, b) == Success
    && Chain(b, HEADER, |b|)
    && var at := FindAt(b, HEADER, |b|, MESSAGE_INTEGRITY);
       signing.Some? ==> at.Some? && MacOk(r, c, b, at.value, signing.value)
  }

  lemma SealedIsSeen(s: Agent, r: Agent, c: Crypto, msg: Message, key: Option<seq<Byte>>, size: nat,
                     cls: nat, method_: nat, id: seq<Byte>, attrs: seq<Attribute>)
    requires Twins(s, r) && cls < 4 && method_ < 4096 && !(cls == ERROR && method_ == 5)
    requires Draft(TypeBytes(cls, method_), id, attrs) && Knows(r, attrs)
    requires Modern(s.compat) ==> id[..4] == Cookie()
    requires Accepted(msg.bytes) && msg.bytes == Encode(TypeBytes(cls, method_), id, attrs)
    requires Sealed(s, c, msg, key, size).Some? && size < TWO16
    ensures var signing := if key.Some? then SigningKey(s, c, msg, key.value) else None;
            Seen(r, c, Sealed(s, c, msg, key, size).value, cls, method_, id, attrs, signing)
  {
    hide Body, EncodeAttribute, Big16, Mac, MacText, FingerprintOf, LongTermKey, Seen, TypeBytes, Accepted, Sealed,
      Get16, Knows, Encode;
    var typ := TypeBytes(cls, method_);
    var signing := if key.Some? then SigningKey(s, c, msg, key.value) else None;
    SealedIs(s, c, msg, key, size, typ, id, attrs);
    var trail := Trail(s, c, msg.bytes, signing);
    var m := Encode(typ, id, attrs + trail);
    var mark := if Fingerprinted(s) then [Checksum(c, m)] else [];
    IntegrityTwins(s, r, c, msg.bytes, signing);
    EncodeLength(typ, id, attrs + trail + mark);
    if !Fingerprinted(s) {
      assert attrs + trail + mark == attrs + trail;
    }
    if trail == [] && mark == [] {
      assert attrs + trail + mark == attrs;
    }
    AllSeen(r, c, typ, id, attrs, signing, trail, mark, cls, method_, size, Sealed(s, c, msg, key, size).value);
  }

  lemma IntegrityTwins(s: Agent, r: Agent, c: Crypto, m: seq<Byte>, signing: Option<seq<Byte>>)
    requires Twins(s, r) && |m| >= HEADER
    ensures Trail(s, c, m, signing) == Trail(r, c, m, signing)
  {
  }

  lemma AllSeen(r: Agent, c: Crypto, typ: seq<Byte>, id: seq<Byte>, attrs: seq<Attribute>, signing: Option<seq<Byte>>,
                trail: seq<Attribute>, mark: seq<Attribute>, cls: nat, method_: nat, size: nat, b: seq<Byte>)
    requires Draft(typ, id, attrs) && cls < 4 && method_ < 4096 && !(cls == ERROR && method_ == 5)
    requires Modern(r.compat) ==> id[..4] == Cookie()
    requires typ == TypeBytes(cls, method_) && Knows(r, attrs) && size < TWO16
    requires trail == Trail(r, c, Encode(typ, id, attrs), signing)
    requires mark == if Fingerprinted(r) then [Checksum(c, Encode(typ, id, attrs + trail))] else []
    requires b == Encode(typ, id, attrs + trail + mark) && HEADER + |Body(attrs + trail + mark)| < TWO16
    ensures Seen(r, c, b, cls, method_, id, attrs, signing)
  {
    hide Body, EncodeAttribute, Big16, Mac, MacText, FingerprintOf, TypeBytes, Accepted, Get16;
    var all := attrs + trail + mark;
    assert Fits(all);
    EncodeBack(typ, id, all);
    SeenHeader(typ, id, all, cls, method_);
    SeenValues(attrs, trail, mark, b);
    SeenForm(r, c, typ, id, attrs, trail, mark);
    SeenVerdict(r, attrs, trail, mark);
    AcceptedChain(b);
    if signing.Some? {
      assert all == attrs + [Integrity(r, c, Encode(typ, id, attrs), signing.value)] + mark;
      MacMatches(r, c, typ, id, attrs, signing.value, mark);
    }
  }

  lemma SeenHeader(typ: seq<Byte>, id: seq<Byte>, all: seq<Attribute>, cls: nat, method_: nat)
    requires Header(typ, id) && cls < 4 && method_ < 4096 && !(cls == ERROR && method_ == 5)
    requires typ == TypeBytes(cls, method_)
    ensures var b := Encode(typ, id, all);
            |b| >= HEADER && ClassOf(b) == cls && MethodOf(b) == method_ && IdOf(b) == id && b[4..8] == id[..4]
  {
    hide Body, Big16, TypeBytes, Get16, ClassOf, MethodOf;
    var b := Encode(typ, id, all);
    assert b[..2] == typ;
    TypeBackIff(cls, method_, b);
  }

  lemma SeenValues(attrs: seq<Attribute>, trail: seq<Attribute>, mark: seq<Attribute>, b: seq<Byte>)
    requires Plain(attrs) && |trail| <= 1 && |mark| <= 1
    requires |trail| == 1 ==> trail[0].typ == MESSAGE_INTEGRITY
    requires |mark| == 1 ==> mark[0].typ == FINGERPRINT
    requires Accepted(b) && Visible(b) == attrs + trail + mark
    ensures forall t :: t != MESSAGE_INTEGRITY && t != FINGERPRINT ==> Fetch(b, t) == FindIn(attrs, t)
    ensures Has(b, MESSAGE_INTEGRITY) <==> |trail| == 1
  {
    hide Accepted;
    assert attrs + trail + mark == attrs + (trail + mark);
    forall t: nat | t != MESSAGE_INTEGRITY && t != FINGERPRINT
      ensures Fetch(b, t) == FindIn(attrs, t)
    {
      FindPlain(attrs, trail + mark, t);
    }
    FindTrailer(attrs, trail + mark, MESSAGE_INTEGRITY);
  }

  lemma SeenForm(r: Agent, c: Crypto, typ: seq<Byte>, id: seq<Byte>, attrs: seq<Attribute>, trail: seq<Attribute>,
                 mark: seq<Attribute>)
    requires Header(typ, id) && Plain(attrs) && Fits(attrs + trail + mark)
    requires Modern(r.compat) ==> id[..4] == Cookie()
    requires forall i :: 0 <= i < |trail| ==> trail[i].typ == MESSAGE_INTEGRITY
    requires mark == if Fingerprinted(r) then [Checksum(c, Encode(typ, id, attrs + trail))] else []
    ensures Form(r, c, Encode(typ, id, attrs + trail + mark)) == Success
  {
    hide Body, Big16, Get16, FingerprintOf, EncodeAttribute, Accepted;
    var all := attrs + trail + mark;
    var b := Encode(typ, id, all);
    EncodeBack(typ, id, all);
    AcceptedMeans(b);
    assert b[4..8] == id[..4];
    if Fingerprinted(r) {
      FingerprintMatches(c, typ, id, attrs + trail);
    }
  }

  lemma AcceptedMeans(b: seq<Byte>)
    requires Accepted(b)
    ensures Validated(b) == Whole(|b|) && |b| >= HEADER
  {
    AcceptedChain(b);
  }

  lemma SeenVerdict(r: Agent, attrs: seq<Attribute>, trail: seq<Attribute>, mark: seq<Attribute>)
    requires Knows(r, attrs)
    requires forall i :: 0 <= i < |trail| ==> trail[i].typ == MESSAGE_INTEGRITY
    requires forall i :: 0 <= i < |mark| ==> mark[i].typ == FINGERPRINT
    ensures Unknowns(attrs + trail + mark, r.known) == []
  {
    UnknownsNone(attrs + trail + mark, r.known);
  }

  // ---------------------------------------------------------------------
  // Requests

  /** The credentials that the flags ask a request to carry. */
  predicate Carries(flags: Flags, attrs: seq<Attribute>) {
    && (flags.shortTerm ==> FindIn(attrs, USERNAME).Some?)
    && (flags.longTerm ==> FindIn(attrs, USERNAME).Some? && FindIn(attrs, REALM).Some? && FindIn(attrs, NONCE).Some?)
  }

  /** The request passes validation, changes nothing, and is recorded with the key. */
  ghost predicate Passes(r: Agent, c: Crypto, b: seq<Byte>, validater: Validater, key: seq<Byte>) {
    Accepted(b) && Validate(r, c, b, validater) == Validation(r, Success, Some(Received(r, c, b, Some(key), None)))
  }

  function Unsigned(cls: nat, method_: nat, id: seq<Byte>, attrs: seq<Attribute>): Message
    requires cls < 4 && method_ < 4096
  {
    Message(Encode(TypeBytes(cls, method_), id, attrs), None, None)
  }

  /** A finished request passes validation at an agent of the same kind whose validater
      knows the key, and changes nothing there. */
  lemma RequestIsAccepted(s: Agent, r: Agent, c: Crypto, method_: nat, id: seq<Byte>, attrs: seq<Attribute>,
                          key: seq<Byte>, size: nat, validater: Validater)
    requires Twins(s, r) && method_ < 4096 && size < TWO16 && key != []
    requires Draft(TypeBytes(REQUEST, method_), id, attrs) && Knows(r, attrs) && Carries(s.flags, attrs)
    requires Modern(s.compat) ==> id[..4] == Cookie()
    requires validater(FindIn(attrs, USERNAME)) == Some(key)
    ensures var msg := Unsigned(REQUEST, method_, id, attrs);
            Accepted(msg.bytes) &&
            var b := Finish(s, c, msg, Some(key), size).1;
            b.Some? ==> Passes(r, c, b.value, validater, key)
  {
    hide Encode, Sealed, LongTermKey, Accepted, Seen, TypeBytes, Validate, Knows;
    var msg := Unsigned(REQUEST, method_, id, attrs);
    EncodeBack(TypeBytes(REQUEST, method_), id, attrs);
    DraftClass(REQUEST, method_, id, attrs);
    var b := Finish(s, c, msg, Some(key), size).1;
    if b.Some? {
      SealedIsSeen(s, r, c, msg, Some(key), size, REQUEST, method_, id, attrs);
      LongTermSeen(s, c, msg, key, attrs);
      SeenRequestPasses(s, r, c, b.value, method_, id, attrs, SigningKey(s, c, msg, key), key, validater);
    }
  }

  lemma DraftClass(cls: nat, method_: nat, id: seq<Byte>, attrs: seq<Attribute>)
    requires cls < 4 && method_ < 4096 && !(cls == ERROR && method_ == 5)
    requires Draft(TypeBytes(cls, method_), id, attrs)
    ensures var b := Encode(TypeBytes(cls, method_), id, attrs);
            |b| >= HEADER && ClassOf(b) == cls && MethodOf(b) == method_ && IdOf(b) == id
  {
    hide Encode, TypeBytes;
    SeenHeader(TypeBytes(cls, method_), id, attrs, cls, method_);
  }

  /** The key the request is signed with, read off its attributes. */
  function RequestKey(flags: Flags, c: Crypto, attrs: seq<Attribute>, key: seq<Byte>): Option<seq<Byte>> {
    var realm, username := FindIn(attrs, REALM), FindIn(attrs, USERNAME);
    if !flags.longTerm then Some(key)
    else if realm.Some? && username.Some? then Some(c.credentials(realm.value, username.value, key))
    else None
  }

  lemma LongTermSeen(s: Agent, c: Crypto, msg: Message, key: seq<Byte>, attrs: seq<Attribute>)
    requires Accepted(msg.bytes) && Visible(msg.bytes) == attrs && msg.longTerm.None?
    ensures SigningKey(s, c, msg, key) == RequestKey(s.flags, c, attrs, key)
  {
  }

  /** What the receiver derives from the finished request. */
  lemma LongTermAgrees(r: Agent, c: Crypto, b: seq<Byte>, attrs: seq<Attribute>, key: seq<Byte>)
    requires Accepted(b) && Fetch(b, REALM) == FindIn(attrs, REALM) && Fetch(b, USERNAME) == FindIn(attrs, USERNAME)
    ensures LongTermFor(r, c, b, key, None) == RequestKey(r.flags, c, attrs, key)
  {
  }

  lemma SeenRequestPasses(s: Agent, r: Agent, c: Crypto, b: seq<Byte>, method_: nat, id: seq<Byte>,
                          attrs: seq<Attribute>, signing: Option<seq<Byte>>, key: seq<Byte>, validater: Validater)
    requires Seen(r, c, b, REQUEST, method_, id, attrs, signing) && Carries(r.flags, attrs)
    requires signing == RequestKey(r.flags, c, attrs, key) && key != []
    requires validater(FindIn(attrs, USERNAME)) == Some(key)
    ensures Passes(r, c, b, validater, key)
  {
    hide Chain, Validated, Accepted, Form, MacOk, ErrorCode, Verdict, FindAt, LongTermKey, ClassOf, MethodOf, IdOf,
      Visible;
    LongTermAgrees(r, c, b, attrs, key);
    assert signing.Some?;
  }

  // ---------------------------------------------------------------------
  // Responses

  lemma {:induction false} FirstSlotIs(s: seq<Saved>, f: Saved -> bool, r: nat)
    requires r <= |s| && (r < |s| ==> f(s[r])) && forall k :: 0 <= k < r ==> !f(s[k])
    ensures r == FirstSlot(s, f)
  {
  }

  /** No transaction with this identifier is open. */
  predicate Unused(sent: seq<Saved>, id: seq<Byte>) {
    forall k :: 0 <= k < |sent| && sent[k].valid ==> sent[k].id != id
  }

  /** The transaction in `slot` is the only open one with its identifier. */
  predicate OnlyOpen(sent: seq<Saved>, slot: nat, id: seq<Byte>, method_: nat) {
    && slot < |sent| && sent[slot].valid && sent[slot].id == id && sent[slot].method_ == method_
    && forall k :: 0 <= k < |sent| && k != slot && sent[k].valid ==> sent[k].id != id
  }

  /** Finishing a request opens its transaction. */
  lemma FinishOpens(s: Agent, c: Crypto, msg: Message, key: Option<seq<Byte>>, size: nat)
    requires Accepted(msg.bytes) && Finish(s, c, msg, key, size).1.Some?
    requires |msg.bytes| >= HEADER && ClassOf(msg.bytes) == REQUEST && msg.key.None?
    requires Unused(s.sent, IdOf(msg.bytes))
    ensures var t := Finish(s, c, msg, key, size).0;
            var slot := FirstSlot(s.sent, Free());
            && OnlyOpen(t.sent, slot, IdOf(msg.bytes), MethodOf(msg.bytes))
            && t.sent[slot].key == key && Twins(s, t) && t.known == s.known
            && (key.Some? ==> t.sent[slot].longTerm ==
                              if s.flags.longTerm then SigningKey(s, c, msg, key.value) else msg.longTerm)
  {
    hide Accepted, Sealed, SigningKey, ClassOf, MethodOf, IdOf;
  }

  /** The state of the table after the transaction is closed. */
  function Closed(s: Agent, slot: nat): Agent
    requires slot < |s.sent|
  {
    s.(sent := s.sent[slot := s.sent[slot].(valid := false)])
  }

  lemma SlotFound(s: Agent, b: seq<Byte>, slot: nat)
    requires |b| >= HEADER && IsReply(b) && OnlyOpen(s.sent, slot, IdOf(b), MethodOf(b))
    ensures slot < |s.sent| && SlotOf(s, b) == slot && SlotOf(Closed(s, slot), b) == |s.sent|
  {
    hide ClassOf, MethodOf, IdOf;
    FirstSlotIs(s.sent, Awaiting(b), slot);
    var t := Closed(s, slot).sent;
    forall k | 0 <= k < |t|
      ensures !Awaiting(b)(t[k])
    {
      assert k != slot ==> t[k] == s.sent[k];
    }
    FirstSlotIs(t, Awaiting(b), |t|);
  }

  /** A reply signed with the key of the open transaction is accepted once. */
  lemma SeenReplyPasses(s: Agent, c: Crypto, b: seq<Byte>, cls: nat, method_: nat, id: seq<Byte>, slot: nat,
                        attrs: seq<Attribute>, signing: Option<seq<Byte>>, key: seq<Byte>, validater: Validater)
    requires Seen(s, c, b, cls, method_, id, attrs, signing) && (cls == RESPONSE || cls == ERROR)
    requires OnlyOpen(s.sent, slot, id, method_) && s.sent[slot].key == Some(key) && key != []
    requires s.flags.longTerm ==> s.sent[slot].longTerm.Some?
    requires s.flags.forceValidater ==> validater(FindIn(attrs, USERNAME)) == Some(key)
    requires Ignores(s, b) || signing == if s.flags.longTerm then s.sent[slot].longTerm else Some(key)
    ensures var v := Validate(s, c, b, validater); v.agent == Closed(s, slot) && v.status == Success
    ensures Validate(Closed(s, slot), c, b, validater) == Validation(Closed(s, slot), UnmatchedResponse, None)
  {
    hide Chain, Validated, Accepted, Form, MacOk, ErrorCode, Verdict, FindAt, LongTermKey, ClassOf, MethodOf, IdOf,
      Visible, OnlyOpen, Lacking, BareError;
    SlotFound(s, b, slot);
    ClosedForm(s, c, b, slot);
  }

  lemma ClosedForm(s: Agent, c: Crypto, b: seq<Byte>, slot: nat)
    requires slot < |s.sent|
    ensures Form(Closed(s, slot), c, b) == Form(s, c, b)
  {
    hide Accepted, FingerprintOk, Validated;
  }

  /** What a receiver records about a finished request. */
  lemma SeenRequestKey(r: Agent, c: Crypto, b: seq<Byte>, method_: nat, id: seq<Byte>, attrs: seq<Attribute>,
                       signing: Option<seq<Byte>>, key: seq<Byte>)
    requires Seen(r, c, b, REQUEST, method_, id, attrs, signing) && key != []
    requires signing == RequestKey(r.flags, c, attrs, key) && signing.Some?
    ensures var m := Received(r, c, b, Some(key), None);
            if r.flags.ignoreCredentials then m.key.None? && m.longTerm.None?
            else m.key == Some(key) && m.longTerm == if r.flags.longTerm then signing else None
  {
    hide Chain, Validated, Accepted, Form, MacOk, ErrorCode, Verdict, FindAt, LongTermKey, ClassOf, MethodOf, IdOf,
      Visible;
    LongTermAgrees(r, c, b, attrs, key);
  }

  /** The first validation succeeds, the second finds no transaction. */
  ghost predicate AcceptedOnce(t: Agent, c: Crypto, b: seq<Byte>, validater: Validater) {
    var v := Validate(t, c, b, validater);
    v.status == Success && Validate(v.agent, c, b, validater) == Validation(v.agent, UnmatchedResponse, None)
  }

  /** The reply to an accepted request, finished with what the receiver recorded about the
      request, is accepted by the requester exactly once. */
  lemma ResponseIsAcceptedOnce(s: Agent, r: Agent, c: Crypto, method_: nat, id: seq<Byte>, attrs: seq<Attribute>,
                               key: seq<Byte>, size: nat, theirs: Validater, validater: Validater, cls: nat,
                               reply: seq<Attribute>)
    requires Twins(s, r) && method_ < 4096 && size < TWO16 && key != [] && !(cls == ERROR && method_ == 5)
    requires cls == RESPONSE || cls == ERROR
    requires Draft(TypeBytes(REQUEST, method_), id, attrs) && Carries(s.flags, attrs) && Knows(r, attrs)
    requires Draft(TypeBytes(cls, method_), id, reply) && Knows(s, reply) && Unused(s.sent, id)
    requires Modern(s.compat) ==> id[..4] == Cookie()
    requires theirs(FindIn(attrs, USERNAME)) == Some(key)
    requires s.flags.forceValidater ==> validater(FindIn(reply, USERNAME)) == Some(key)
    ensures var msg := Unsigned(REQUEST, method_, id, attrs);
            var draft := Unsigned(cls, method_, id, reply);
            Accepted(msg.bytes) && Accepted(draft.bytes) &&
            var (t, b) := Finish(s, c, msg, Some(key), size);
            b.Some? ==>
              (var v := Validate(r, c, b.value, theirs);
               v.status == Success && v.message.Some? &&
               var m := v.message.value;
               var b2 := Finish(v.agent, c, draft.(key := m.key, longTerm := m.longTerm), None, size).1;
               b2.Some? ==> AcceptedOnce(t, c, b2.value, validater))
  {
    hide Encode, Sealed, LongTermKey, Accepted, Seen, TypeBytes, Validate, Knows, ClassOf, MethodOf, IdOf, OnlyOpen,
      Received, Ignores;
    var msg := Unsigned(REQUEST, method_, id, attrs);
    var draft := Unsigned(cls, method_, id, reply);
    EncodeBack(TypeBytes(REQUEST, method_), id, attrs);
    EncodeBack(TypeBytes(cls, method_), id, reply);
    DraftClass(REQUEST, method_, id, attrs);
    DraftClass(cls, method_, id, reply);
    var (t, b) := Finish(s, c, msg, Some(key), size);
    LongTermSeen(s, c, msg, key, attrs);
    var signing := SigningKey(s, c, msg, key);
    RequestIsAccepted(s, r, c, method_, id, attrs, key, size, theirs);
    if b.Some? {
      SealedIsSeen(s, r, c, msg, Some(key), size, REQUEST, method_, id, attrs);
      SeenAccepted(r, c, b.value, REQUEST, method_, id, attrs, signing);
      SeenRequestKey(r, c, b.value, method_, id, attrs, signing, key);
      var m := Received(r, c, b.value, Some(key), None);
      var answer := draft.(key := m.key, longTerm := m.longTerm);
      if Finish(r, c, answer, None, size).1.Some? {
        FinishOpens(s, c, msg, Some(key), size);
        KnowsSame(s, t, reply);
        ReplyPasses(t, r, c, answer, cls, method_, id, reply, FirstSlot(s.sent, Free()), key, size, validater);
      }
    }
  }

  lemma SeenAccepted(r: Agent, c: Crypto, b: seq<Byte>, cls: nat, method_: nat, id: seq<Byte>,
                     attrs: seq<Attribute>, signing: Option<seq<Byte>>)
    requires Seen(r, c, b, cls, method_, id, attrs, signing)
    ensures Accepted(b)
  {
  }

  lemma KnowsSame(s: Agent, t: Agent, attrs: seq<Attribute>)
    requires Knows(s, attrs) && t.known == s.known
    ensures Knows(t, attrs)
  {
  }

  /** A reply finished at `r` for the open transaction in `slot` of `t`. */
  lemma ReplyPasses(t: Agent, r: Agent, c: Crypto, answer: Message, cls: nat, method_: nat, id: seq<Byte>,
                    reply: seq<Attribute>, slot: nat, key: seq<Byte>, size: nat, validater: Validater)
    requires Twins(t, r) && method_ < 4096 && size < TWO16 && key != [] && !(cls == ERROR && method_ == 5)
    requires cls == RESPONSE || cls == ERROR
    requires Draft(TypeBytes(cls, method_), id, reply) && Knows(t, reply)
    requires Modern(t.compat) ==> id[..4] == Cookie()
    requires t.flags.forceValidater ==> validater(FindIn(reply, USERNAME)) == Some(key)
    requires answer.bytes == Encode(TypeBytes(cls, method_), id, reply) && Accepted(answer.bytes)
    requires OnlyOpen(t.sent, slot, id, method_) && t.sent[slot].key == Some(key)
    requires t.flags.longTerm ==> t.sent[slot].longTerm.Some?
    requires if t.flags.ignoreCredentials then answer.key.None?
             else answer.key == Some(key) && (t.flags.longTerm ==> answer.longTerm == t.sent[slot].longTerm)
    requires Finish(r, c, answer, None, size).1.Some?
    ensures var b2 := Finish(r, c, answer, None, size).1.value;
            var v := Validate(t, c, b2, validater);
            && v.agent == Closed(t, slot) && v.status == Success
            && Validate(v.agent, c, b2, validater) == Validation(v.agent, UnmatchedResponse, None)
  {
    hide Encode, Sealed, LongTermKey, Accepted, Seen, TypeBytes, Validate, Knows, ClassOf, MethodOf, IdOf, OnlyOpen,
      Ignores;
    DraftClass(cls, method_, id, reply);
    var b2 := Finish(r, c, answer, None, size).1.value;
    SealedIsSeen(r, t, c, answer, answer.key, size, cls, method_, id, reply);
    var signing := if answer.key.Some? then SigningKey(r, c, answer, key) else None;
    SeenAccepted(t, c, b2, cls, method_, id, reply, signing);
    IgnoresWhen(t, b2);
    SeenReplyPasses(t, c, b2, cls, method_, id, slot, reply, signing, key, validater);
  }

  lemma IgnoresWhen(t: Agent, b: seq<Byte>)
    requires Accepted(b)
    ensures t.flags.ignoreCredentials ==> Ignores(t, b)
  {
    hide Accepted;
  }

  // ---------------------------------------------------------------------
  // The table

  /** Only an accepted reply closes a transaction, and then its own; after anything else,
      a failed integrity check in particular, every transaction stays open. */
  lemma OnlySuccessCloses(a: Agent, c: Crypto, b: seq<Byte>, validater: Validater)
    ensures var v := Validate(a, c, b, validater);
            && (v.agent != a ==> v.status == Success || v.status == UnknownAttribute)
            && (v.agent == a || (Accepted(b) && |b| >= HEADER && IsReply(b) && SlotOf(a, b) < |a.sent|
                                  && v.agent == Closed(a, SlotOf(a, b))))
  {
    hide Chain, Validated, Accepted, Form, MacOk, ErrorCode, FindAt, LongTermKey, IntegrityOk, Lacking, Ignores,
      CheckingKey, Visible, Unknowns, IdOf;
    if Form(a, c, b) == Success {
      AcceptedChain(b);
    }
  }
}
