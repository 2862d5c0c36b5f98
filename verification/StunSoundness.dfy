/** What a STUN agent accepts: only what was authenticated with the key it expects. */
module StunSoundness {
  import opened Arith
  import opened Options
  import opened WordBytes
  import opened StunMessages
  import opened StunWriter
  import opened StunAgents
  import HashSpec
  import Sha1

  // ---------------------------------------------------------------------
  // Where an attribute stands

  /** The attribute at `off` is the first one of its type that a search may see: nothing
      counts after a fingerprint, and only a fingerprint after a message integrity. */
  ghost predicate FirstIn(b: seq<Byte>, bounds: seq<nat>, typ: nat, off: nat)
    requires forall k :: 0 <= k < |bounds| ==> bounds[k] + 4 <= |b|
  {
    exists k :: && 0 <= k < |bounds| && bounds[k] == off && Get16(b, off) == typ
                && forall j :: 0 <= j < k ==> Passed(Get16(b, bounds[j]), typ)
  }

  /** A search for `typ` goes on after an attribute of type `seen`. */
  predicate Passed(seen: nat, typ: nat) {
    seen != typ && seen != FINGERPRINT && (seen == MESSAGE_INTEGRITY ==> typ == FINGERPRINT)
  }

  lemma {:induction false} BoundsInside(b: seq<Byte>, off: nat, end: nat)
    requires end <= |b| && Chain(b, off, end)
    ensures forall k :: 0 <= k < |Boundaries(b, off, end)| ==> off <= Boundaries(b, off, end)[k] <= end - 4
    decreases end - off
  {
    hide Get16;
    if off != end {
      ChainStep(b, off, end);
      BoundsInside(b, Next(b, off), end);
    }
  }

  lemma {:induction false} FoundIff(b: seq<Byte>, x: nat, end: nat, typ: nat, off: nat)
    requires end <= |b| && Chain(b, x, end)
    requires forall k :: 0 <= k < |Boundaries(b, x, end)| ==> Boundaries(b, x, end)[k] + 4 <= |b|
    ensures FirstIn(b, Boundaries(b, x, end), typ, off) <==> FindAt(b, x, end, typ) == Some(off + 4)
    decreases end - x
  {
    hide Get16, Chain, Boundaries, FindAt;
    FindAtStep(b, x, end, typ);
    if x == end {
      ChainEnd(b, end);
    } else {
      ChainStep(b, x, end);
      var rest := Boundaries(b, Next(b, x), end);
      assert forall k :: 0 <= k < |rest| ==> rest[k] == Boundaries(b, x, end)[k + 1];
      FoundIff(b, Next(b, x), end, typ, off);
      FirstStep(b, x, rest, typ, off);
    }
  }

  lemma FirstStep(b: seq<Byte>, x: nat, rest: seq<nat>, typ: nat, off: nat)
    requires x + 4 <= |b| && forall k :: 0 <= k < |rest| ==> rest[k] + 4 <= |b|
    ensures FirstIn(b, [x] + rest, typ, off) <==>
            || (x == off && Get16(b, x) == typ)
            || (Passed(Get16(b, x), typ) && FirstIn(b, rest, typ, off))
  {
    hide Get16;
    var all := [x] + rest;
    if FirstIn(b, rest, typ, off) && Passed(Get16(b, x), typ) {
      var k :| && 0 <= k < |rest| && rest[k] == off && Get16(b, off) == typ
               && forall j :: 0 <= j < k ==> Passed(Get16(b, rest[j]), typ);
      assert all[k + 1] == off;
      assert forall j :: 0 <= j < k + 1 ==> Passed(Get16(b, all[j]), typ);
    }
    if FirstIn(b, all, typ, off) {
      var k :| && 0 <= k < |all| && all[k] == off && Get16(b, off) == typ
               && forall j :: 0 <= j < k ==> Passed(Get16(b, all[j]), typ);
      if k > 0 {
        assert rest[k - 1] == off && Passed(Get16(b, all[0]), typ);
        forall j | 0 <= j < k - 1
          ensures Passed(Get16(b, rest[j]), typ)
        {
          assert rest[j] == all[j + 1];
        }
      }
    }
    if x == off && Get16(b, x) == typ {
      assert all[0] == off;
    }
  }

  /** The message integrity of `b` stands at `off`. */
  ghost predicate IntegrityAt(b: seq<Byte>, off: nat)
    requires Accepted(b)
  {
    AcceptedChain(b);
    BoundsInside(b, HEADER, |b|);
    |b| < TWO16 && FirstIn(b, Boundaries(b, HEADER, |b|), MESSAGE_INTEGRITY, off)
  }

  lemma IntegrityAtIff(b: seq<Byte>, off: nat)
    requires Accepted(b)
    ensures |b| >= HEADER && Chain(b, HEADER, |b|)
    ensures IntegrityAt(b, off) <==> |b| < TWO16 && FindAt(b, HEADER, |b|, MESSAGE_INTEGRITY) == Some(off + 4)
    ensures IntegrityAt(b, off) ==> HEADER <= off <= |b| - 4
  {
    hide Chain, Boundaries, FindAt, FirstIn, Accepted;
    AcceptedChain(b);
    BoundsInside(b, HEADER, |b|);
    FoundIff(b, HEADER, |b|, MESSAGE_INTEGRITY, off);
  }

  // ---------------------------------------------------------------------
  // What authentic means

  /** The bytes that are authenticated: the type, a length, and the message up to the
      attribute at `off`. RFC 5389 covers just these; the other versions fill them up to
      whole blocks of 64 bytes. */
  function Covered(compat: Compatibility, b: seq<Byte>, off: nat): seq<Byte>
    requires HEADER <= off <= |b| - 4
  {
    var length := if compat == Wlm2009 then |b| - 20 else off + 4;
    b[..2] + [length / 256 % 256, length % 256] + b[4..off]
    + (if compat == Rfc5389 then [] else HashSpec.Zeros((64 - off % 64) % 64))
  }

  /** The twenty bytes after the attribute's header are the keyed hash of what is covered. */
  predicate Authentic(compat: Compatibility, f: Sha1.Compress, b: seq<Byte>, off: nat, key: seq<Byte>)
    requires HEADER <= off <= |b| - 4
  {
    off + 24 <= |b| && b[off + 4..off + 24] == Sha1.Hmac(f, key, Covered(compat, b, off))
  }

  lemma CoveredIs(compat: Compatibility, b: seq<Byte>, off: nat)
    requires HEADER <= off && off + 24 <= |b|
    ensures MacText(compat, b, off + 24, if compat == Wlm2009 then |b| - 20 else off + 4) == Covered(compat, b, off)
  {
    hide HashSpec.Zeros;
    var over := off % 64;
    if over == 0 {
      assert HashSpec.Zeros((64 - over) % 64) == [];
    }
  }

  lemma AuthenticIff(a: Agent, c: Crypto, b: seq<Byte>, off: nat, key: seq<Byte>)
    requires HEADER <= off <= |b| - 4
    ensures MacOk(a, c, b, off + 4, key) <==> Authentic(a.compat, c.compress, b, off, key)
  {
    hide Sha1.Hmac, MacText, Covered;
    if off + 24 <= |b| {
      CoveredIs(a.compat, b, off);
    }
  }

  // ---------------------------------------------------------------------
  // When a message is accepted

  /** The form of a message: whole attributes, the magic cookie and a right fingerprint
      where the version asks for them. */
  predicate Wellformed(a: Agent, c: Crypto, b: seq<Byte>) {
    && Accepted(b)
    && (a.compat == Rfc5389 || a.compat == Wlm2009 ==>
          && |b| >= HEADER && b[4..8] == [0x21, 0x12, 0xA4, 0x42]
          && (a.flags.fingerprint ==>
                && |b| >= HEADER + 8
                && Fetch(b, FINGERPRINT) ==
                   Some(Big32(c.checksum(b[..2] + Big16(|b| - HEADER) + b[4..|b| - 8])))))
  }

  /** The credentials of the message do not matter: the agent ignores them, or those of
      indications, or the message reports error 400 or 401. */
  predicate Exempt(a: Agent, b: seq<Byte>)
    requires Accepted(b)
  {
    AcceptedChain(b);
    || a.flags.ignoreCredentials
    || (ClassOf(b) == INDICATION && a.flags.noIndicationAuth)
    || (ClassOf(b) == ERROR
        && var v := Fetch(b, ERROR_CODE);
           v.Some? && |v.value| >= 4 && v.value[2] % 8 == 4 && v.value[3] <= 1)
  }

  /** A request or an indication comes with the attributes that its credentials need. */
  predicate Presented(a: Agent, b: seq<Byte>)
    requires Accepted(b)
  {
    AcceptedChain(b);
    var request := a.flags.longTerm && ClassOf(b) == REQUEST;
    Exempt(a, b) || IsReply(b) ||
    (&& (a.flags.shortTerm || request ==> Has(b, USERNAME) && Has(b, MESSAGE_INTEGRITY))
     && (request ==> Has(b, NONCE) && Has(b, REALM))
     && (Has(b, USERNAME) ==> Has(b, MESSAGE_INTEGRITY)))
  }

  predicate Answers(s: Saved, b: seq<Byte>)
    requires |b| >= HEADER
  {
    s.valid && s.method_ == MethodOf(b) && s.id == b[4..20]
  }

  /** Slot `k` holds the transaction that `b` answers. */
  predicate OpenAt(a: Agent, b: seq<Byte>, k: nat)
    requires |b| >= HEADER
  {
    && IsReply(b) && k < |a.sent| && Answers(a.sent[k], b)
    && forall j :: 0 <= j < k ==> !Answers(a.sent[j], b)
  }

  /** The transaction that `b` answers, if there is one. */
  ghost function Transaction(a: Agent, b: seq<Byte>): Option<Saved>
    requires |b| >= HEADER
  {
    if k: nat :| OpenAt(a, b, k) then Some(a.sent[k]) else None
  }

  /** The validater is asked for the key: the message is signed, and no transaction has a
      key for it or the agent always asks. */
  predicate Asks(a: Agent, b: seq<Byte>, saved: Option<seq<Byte>>)
    requires Accepted(b)
  {
    Has(b, MESSAGE_INTEGRITY) && ((saved.None? && !Exempt(a, b)) || a.flags.forceValidater)
  }

  /** The key that the message must be signed with. */
  function Secret(a: Agent, b: seq<Byte>, t: Option<Saved>, validater: Validater): Option<seq<Byte>>
    requires Accepted(b)
  {
    var saved := if t.Some? then t.value.key else None;
    if Asks(a, b, saved) then validater(Fetch(b, USERNAME)) else saved
  }

  /** With long-term credentials the message is signed with a key derived from the secret,
      the realm and the user name, unless the transaction already knows it. */
  function Signing(a: Agent, c: Crypto, b: seq<Byte>, t: Option<Saved>, key: seq<Byte>): Option<seq<Byte>>
    requires Accepted(b)
  {
    if !a.flags.longTerm then Some(key)
    else if t.Some? && t.value.longTerm.Some? then t.value.longTerm
    else
      match (Fetch(b, REALM), Fetch(b, USERNAME))
      case (Some(realm), Some(username)) => Some(c.credentials(realm, username, key))
      case _ => None
  }

  /** The message is signed with the key. */
  ghost predicate SignedWith(a: Agent, c: Crypto, b: seq<Byte>, t: Option<Saved>, key: seq<Byte>)
    requires Accepted(b)
  {
    var signing := Signing(a, c, b, t, key);
    signing.Some? &&
    exists off: nat :: IntegrityAt(b, off) && HEADER <= off <= |b| - 4
                  && Authentic(a.compat, c.compress, b, off, signing.value)
  }

  /** The sender knows the key, if one is called for. */
  ghost predicate Granted(a: Agent, c: Crypto, b: seq<Byte>, t: Option<Saved>, validater: Validater)
    requires Accepted(b)
  {
    var key := Secret(a, b, t, validater);
    && (Asks(a, b, if t.Some? then t.value.key else None) ==> key.Some?)
    && (Exempt(a, b) || key.None? || key.value == [] || SignedWith(a, c, b, t, key.value))
  }

  predicate Understood(a: Agent, b: seq<Byte>)
    requires Accepted(b)
  {
    forall i :: 0 <= i < |Visible(b)| ==> Visible(b)[i].typ >= 0x8000 || Visible(b)[i].typ in a.known
  }

  // ---------------------------------------------------------------------
  // The stages of a validation

  lemma FormIff(a: Agent, c: Crypto, b: seq<Byte>)
    ensures Form(a, c, b) == Success <==> Wellformed(a, c, b)
    ensures Form(a, c, b) in {Success, NotStun, IncompleteStun, BadRequest}
  {
    hide Validated, Visible, Big16, Big32;
    if Accepted(b) {
      AcceptedChain(b);
    }
  }

  lemma ExemptIff(a: Agent, b: seq<Byte>)
    requires Accepted(b)
    ensures Ignores(a, b) <==> Exempt(a, b)
    ensures BareError(b) ==> Exempt(a, b)
  {
    hide Accepted, Visible, ClassOf, Chain;
    AcceptedChain(b);
  }

  lemma PresentedIff(a: Agent, b: seq<Byte>)
    requires Accepted(b)
    ensures Presented(a, b) <==> Ignores(a, b) || IsReply(b) || !Lacking(a, b)
  {
    hide Accepted, Visible, ClassOf, Chain, Exempt, BareError, FindIn;
    AcceptedChain(b);
    ExemptIff(a, b);
  }

  lemma TransactionIs(a: Agent, b: seq<Byte>)
    requires |b| >= HEADER
    ensures var k := SlotOf(a, b);
            && Transaction(a, b) == (if k < |a.sent| then Some(a.sent[k]) else None)
            && (k < |a.sent| <==> OpenAt(a, b, k))
  {
    hide ClassOf, MethodOf;
    var k := SlotOf(a, b);
    assert forall j :: 0 <= j < |a.sent| ==> (Awaiting(b)(a.sent[j]) <==> Answers(a.sent[j], b));
    if k < |a.sent| {
      assert OpenAt(a, b, k);
    }
    assert forall j: nat :: OpenAt(a, b, j) ==> j == k;
  }

  lemma SigningIs(a: Agent, c: Crypto, b: seq<Byte>, t: Option<Saved>, key: seq<Byte>)
    requires Accepted(b)
    ensures LongTermFor(a, c, b, key, if t.Some? then t.value.longTerm else None) == Signing(a, c, b, t, key)
  {
    hide Accepted, Visible, FindIn;
  }

  lemma SignedIff(a: Agent, c: Crypto, b: seq<Byte>, t: Option<Saved>, key: seq<Byte>)
    requires Accepted(b) && !Exempt(a, b) && key != []
    ensures IntegrityOk(a, c, b, Some(key), if t.Some? then t.value.longTerm else None) <==>
            SignedWith(a, c, b, t, key)
  {
    hide Accepted, Visible, FindIn, Exempt, BareError, LongTermFor, MacOk, Authentic, FindAt, IntegrityAt, Chain,
      ClassOf;
    AcceptedChain(b);
    ExemptIff(a, b);
    SigningIs(a, c, b, t, key);
    var at := FindAt(b, HEADER, |b|, MESSAGE_INTEGRITY);
    var signing := Signing(a, c, b, t, key);
    if |b| < TWO16 && at.Some? {
      var off: nat := at.value - 4;
      IntegrityAtIff(b, off);
      if signing.Some? {
        AuthenticIff(a, c, b, off, signing.value);
      }
    }
    forall off: nat | IntegrityAt(b, off)
      ensures |b| < TWO16 && at == Some(off + 4)
    {
      IntegrityAtIff(b, off);
    }
  }

  lemma GrantedIff(a: Agent, c: Crypto, b: seq<Byte>, t: Option<Saved>, validater: Validater)
    requires Accepted(b)
    ensures var saved, longTerm := if t.Some? then t.value.key else None, if t.Some? then t.value.longTerm else None;
            var k := CheckingKey(a, b, saved, validater);
            Granted(a, c, b, t, validater) <==> k.Key? && IntegrityOk(a, c, b, k.key, longTerm)
  {
    hide Accepted, Visible, FindIn, Exempt, BareError, Chain, ClassOf, SignedWith, LongTermFor, FindAt, MacOk;
    AcceptedChain(b);
    ExemptIff(a, b);
    var key := Secret(a, b, t, validater);
    if key.Some? && key.value != [] && !Exempt(a, b) {
      SignedIff(a, c, b, t, key.value);
    }
  }

  lemma {:induction false} UnknownsIff(attrs: seq<Attribute>, known: seq<nat>)
    ensures Unknowns(attrs, known) == [] <==>
            forall i :: 0 <= i < |attrs| ==> Optional(attrs[i].typ) || attrs[i].typ in known
  {
    if attrs != [] {
      UnknownsIff(attrs[1..], known);
      assert forall i :: 0 < i < |attrs| ==> attrs[i] == attrs[1..][i - 1];
    }
  }

  // ---------------------------------------------------------------------
  // Accepting is sound and complete

  predicate IsAccepted(status: Status) {
    status == Success || status == UnknownRequestAttribute || status == UnknownAttribute
  }

  /** A message is accepted exactly if it is well formed, answers an open transaction if it
      is a reply, presents its credentials, and is signed with the expected key where there
      is one. A message that is turned away changes nothing; an accepted reply closes its
      transaction and no other. */
  lemma AcceptedIff(a: Agent, c: Crypto, b: seq<Byte>, validater: Validater)
    ensures var v := Validate(a, c, b, validater);
            && (IsAccepted(v.status) <==>
                  && Wellformed(a, c, b) && |b| >= HEADER
                  && (IsReply(b) ==> Transaction(a, b).Some?)
                  && Presented(a, b)
                  && Granted(a, c, b, Transaction(a, b), validater))
            && (!IsAccepted(v.status) ==> v.agent == a && v.message == None)
            && (IsAccepted(v.status) ==>
                  && |b| >= HEADER
                  && (IsReply(b) ==> exists k: nat ::
                        OpenAt(a, b, k) && v.agent == a.(sent := a.sent[k := a.sent[k].(valid := false)]))
                  && (!IsReply(b) ==> v.agent == a))
  {
    hide Wellformed, Form, Presented, Granted, CheckingKey, IntegrityOk, Lacking, Ignores, Verdict, Received,
      Transaction, SlotOf, Accepted, Chain, ClassOf, OpenAt;
    FormIff(a, c, b);
    if Form(a, c, b) == Success {
      AcceptedChain(b);
      TransactionIs(a, b);
      PresentedIff(a, b);
      GrantedIff(a, c, b, Transaction(a, b), validater);
      VerdictIs(a, b);
      SlotReply(a, b);
    }
  }

  lemma SlotReply(a: Agent, b: seq<Byte>)
    requires |b| >= HEADER
    ensures !IsReply(b) ==> SlotOf(a, b) == |a.sent|
  {
  }

  lemma VerdictIs(a: Agent, b: seq<Byte>)
    requires Accepted(b)
    ensures |b| >= HEADER
    ensures Verdict(a, b) == if Understood(a, b) then Success
                             else if ClassOf(b) == REQUEST then UnknownRequestAttribute else UnknownAttribute
  {
    hide Accepted, Chain, ClassOf;
    AcceptedChain(b);
    UnknownsIff(Visible(b), a.known);
    TypesShort(b);
  }

  lemma {:induction false} AttributeTypes(b: seq<Byte>, off: nat, end: nat)
    requires end <= |b| && Chain(b, off, end)
    ensures forall i :: 0 <= i < |Attributes(b, off, end)| ==> Attributes(b, off, end)[i].typ < TWO16
    decreases end - off
  {
    hide Get16;
    if off != end {
      ChainStep(b, off, end);
      AttributeTypes(b, Next(b, off), end);
    }
  }

  lemma TypesShort(b: seq<Byte>)
    requires Accepted(b)
    ensures forall i :: 0 <= i < |Visible(b)| ==> (Optional(Visible(b)[i].typ) <==> Visible(b)[i].typ >= 0x8000)
  {
    hide Attributes, Chain, Accepted;
    AcceptedChain(b);
    AttributeTypes(b, HEADER, |b|);
  }

  /** Which status a message gets, in the order in which the conditions are looked at. */
  lemma StatusIs(a: Agent, c: Crypto, b: seq<Byte>, validater: Validater)
    ensures var status := Validate(a, c, b, validater).status;
            if !Wellformed(a, c, b) then status in {NotStun, IncompleteStun, BadRequest}
            else
              && |b| >= HEADER
              && status ==
                 if IsReply(b) && Transaction(a, b).None? then UnmatchedResponse
                 else if !Presented(a, b) then UnauthorizedBadRequest
                 else if !Granted(a, c, b, Transaction(a, b), validater) then Unauthorized
                 else if Understood(a, b) then Success
                 else if ClassOf(b) == REQUEST then UnknownRequestAttribute else UnknownAttribute
  {
    hide Wellformed, Form, Presented, Granted, CheckingKey, IntegrityOk, Lacking, Ignores, Verdict, Received,
      Transaction, SlotOf, Accepted, Chain, ClassOf, OpenAt, Understood;
    FormIff(a, c, b);
    if Form(a, c, b) == Success {
      AcceptedChain(b);
      TransactionIs(a, b);
      PresentedIff(a, b);
      GrantedIff(a, c, b, Transaction(a, b), validater);
      VerdictIs(a, b);
      SlotReply(a, b);
    }
  }

  /** A message that is accepted with a key is signed with it: the twenty bytes of its
      integrity are the keyed hash of everything before it. */
  lemma AcceptedIsSigned(a: Agent, c: Crypto, b: seq<Byte>, validater: Validater)
    returns (off: nat, signing: seq<Byte>)
    requires Accepted(b) && |b| >= HEADER && IsAccepted(Validate(a, c, b, validater).status) && !Exempt(a, b)
    requires var key := Secret(a, b, Transaction(a, b), validater); key.Some? && key.value != []
    ensures Signing(a, c, b, Transaction(a, b), Secret(a, b, Transaction(a, b), validater).value) == Some(signing)
    ensures IntegrityAt(b, off) && HEADER <= off <= |b| - 24
    ensures b[off + 4..off + 24] == Sha1.Hmac(c.compress, signing, Covered(a.compat, b, off))
  {
    hide Validate, Accepted, Exempt, Secret, Transaction, Presented, Wellformed, Signing, IntegrityAt, Covered,
      Sha1.Hmac, OpenAt, ClassOf, Chain, Asks;
    AcceptedIff(a, c, b, validater);
    var key := Secret(a, b, Transaction(a, b), validater).value;
    signing := Signing(a, c, b, Transaction(a, b), key).value;
    off :| IntegrityAt(b, off) && HEADER <= off <= |b| - 4 && Authentic(a.compat, c.compress, b, off, signing);
  }

  // ---------------------------------------------------------------------
  // Forgery

  /** Two messages that agree up to the value of the integrity. */
  predicate Alike(b: seq<Byte>, b': seq<Byte>, off: nat) {
    |b'| == |b| && off + 4 <= |b| && b'[..off + 4] == b[..off + 4]
  }

  lemma GetAlike(b: seq<Byte>, b': seq<Byte>, off: nat, i: nat)
    requires Alike(b, b', off) && i <= off + 2
    ensures Get16(b', i) == Get16(b, i)
  {
    assert b'[..off + 4][i] == b[..off + 4][i] && b'[..off + 4][i + 1] == b[..off + 4][i + 1];
  }

  lemma SliceAlike(b: seq<Byte>, b': seq<Byte>, off: nat, i: nat, j: nat)
    requires Alike(b, b', off) && i <= j <= off + 4
    ensures b'[i..j] == b[i..j]
  {
    assert b'[i..j] == b'[..off + 4][i..j];
  }

  /** Everything in front of the integrity is found as before. */
  lemma {:induction false} FoundAlike(b: seq<Byte>, b': seq<Byte>, off: nat, x: nat, t: nat)
    requires Alike(b, b', off) && Chain(b, x, |b|) && Chain(b', x, |b|)
    requires FindAt(b, x, |b|, MESSAGE_INTEGRITY) == Some(off + 4) && t != FINGERPRINT
    ensures FindAt(b', x, |b|, MESSAGE_INTEGRITY) == Some(off + 4)
    ensures t != MESSAGE_INTEGRITY ==> FindIn(Attributes(b', x, |b|), t) == FindIn(Attributes(b, x, |b|), t)
    ensures t == MESSAGE_INTEGRITY ==> FindIn(Attributes(b', x, |b|), t).Some? && FindIn(Attributes(b, x, |b|), t).Some?
    decreases |b| - x
  {
    hide Chain, Get16, FindAt, FindIn, Attributes, Boundaries;
    FindAtStep(b, x, |b|, MESSAGE_INTEGRITY);
    FindAtStep(b', x, |b|, MESSAGE_INTEGRITY);
    assert x <= off;
    ChainStep(b, x, |b|);
    ChainStep(b', x, |b|);
    GetAlike(b, b', off, x);
    GetAlike(b, b', off, x + 2);
    FindStep(AttributeAt(b, x), Attributes(b, Next(b, x), |b|), t);
    FindStep(AttributeAt(b', x), Attributes(b', Next(b', x), |b|), t);
    if x < off {
      SliceAlike(b, b', off, x + 4, x + 4 + Get16(b, x + 2));
      FoundAlike(b, b', off, Next(b, x), t);
    }
  }

  /** A receiver sees the same in both, apart from the integrity and a fingerprint. */
  ghost predicate SameView(b: seq<Byte>, b': seq<Byte>)
    requires Accepted(b) && Accepted(b') && |b| >= HEADER && |b'| >= HEADER
  {
    && ClassOf(b') == ClassOf(b) && MethodOf(b') == MethodOf(b) && b'[4..20] == b[4..20]
    && (forall t :: t != FINGERPRINT && t != MESSAGE_INTEGRITY ==> Fetch(b', t) == Fetch(b, t))
    && Has(b, MESSAGE_INTEGRITY) && Has(b', MESSAGE_INTEGRITY)
  }

  lemma ViewsAlike(b: seq<Byte>, b': seq<Byte>, off: nat)
    requires Accepted(b) && Accepted(b') && IntegrityAt(b, off) && Alike(b, b', off)
    ensures |b| >= HEADER && SameView(b, b') && IntegrityAt(b', off) && HEADER <= off
  {
    hide Accepted, Chain, Get16, FindAt, FindIn, Attributes, IntegrityAt, Alike;
    IntegrityAtIff(b, off);
    IntegrityAtIff(b', off);
    AlikeIs(b, b', off);
    GetAlike(b, b', off, 0);
    SliceAlike(b, b', off, 4, 20);
    forall t: nat | t != FINGERPRINT && t != MESSAGE_INTEGRITY
      ensures Fetch(b', t) == Fetch(b, t)
    {
      FoundAlike(b, b', off, HEADER, t);
    }
    FoundAlike(b, b', off, HEADER, MESSAGE_INTEGRITY);
  }

  lemma AlikeIs(b: seq<Byte>, b': seq<Byte>, off: nat)
    requires Alike(b, b', off)
    ensures |b'| == |b| && off + 4 <= |b|
  {
  }

  lemma CoveredAlike(compat: Compatibility, b: seq<Byte>, b': seq<Byte>, off: nat)
    requires HEADER <= off <= |b| - 4 && Alike(b, b', off)
    ensures Covered(compat, b', off) == Covered(compat, b, off)
  {
    SliceAlike(b, b', off, 0, 2);
    SliceAlike(b, b', off, 4, off);
  }

  /** Both messages are treated alike up to the integrity. */
  lemma SameTreatment(a: Agent, c: Crypto, b: seq<Byte>, b': seq<Byte>, validater: Validater)
    requires Accepted(b) && Accepted(b') && |b| >= HEADER && |b'| >= HEADER && SameView(b, b')
    ensures IsReply(b') == IsReply(b) && Exempt(a, b') == Exempt(a, b) && Presented(a, b') == Presented(a, b)
    ensures Transaction(a, b') == Transaction(a, b)
    ensures forall t :: Secret(a, b', t, validater) == Secret(a, b, t, validater)
    ensures forall t, key :: Signing(a, c, b', t, key) == Signing(a, c, b, t, key)
  {
    hide Accepted, Visible, FindIn, ClassOf, MethodOf, Chain;
    assert forall k: nat :: OpenAt(a, b', k) <==> OpenAt(a, b, k);
    SameTransaction(a, b, b');
  }

  lemma SameTransaction(a: Agent, b: seq<Byte>, b': seq<Byte>)
    requires |b| >= HEADER && |b'| >= HEADER
    requires forall k: nat :: OpenAt(a, b', k) <==> OpenAt(a, b, k)
    ensures Transaction(a, b') == Transaction(a, b)
  {
    hide ClassOf, MethodOf, SlotOf, OpenAt;
    TransactionIs(a, b);
    TransactionIs(a, b');
    OpenOnce(a, b);
    OpenOnce(a, b');
  }

  lemma OpenOnce(a: Agent, b: seq<Byte>)
    requires |b| >= HEADER
    ensures forall k: nat :: OpenAt(a, b, k) ==> k == SlotOf(a, b) < |a.sent|
  {
    hide ClassOf, MethodOf;
    assert forall j :: 0 <= j < |a.sent| ==> (Awaiting(b)(a.sent[j]) <==> Answers(a.sent[j], b));
  }

  /** No other twenty bytes in the place of the integrity of an accepted message are
      accepted: the forged message, whatever follows and however well formed, is
      unauthorized, and a transaction it claims to answer stays open. */
  lemma ForgeryIsRefused(a: Agent, c: Crypto, b: seq<Byte>, b': seq<Byte>, validater: Validater, off: nat)
    requires Accepted(b) && |b| >= HEADER && IsAccepted(Validate(a, c, b, validater).status) && !Exempt(a, b)
    requires var key := Secret(a, b, Transaction(a, b), validater); key.Some? && key.value != []
    requires Wellformed(a, c, b') && IntegrityAt(b, off) && Alike(b, b', off) && off + 24 <= |b|
    requires b'[off + 4..off + 24] != b[off + 4..off + 24]
    ensures Validate(a, c, b', validater) == Validation(a, Unauthorized, None)
  {
    hide Validate, Accepted, Exempt, Secret, Transaction, Presented, Signing, IntegrityAt, Covered, SameView,
      Sha1.Hmac, OpenAt, ClassOf, Chain, Alike, Asks, IsReply, Understood;
    AcceptedFirst(a, c, b');
    AlikeIs(b, b', off);
    ViewsAlike(b, b', off);
    SameTreatment(a, c, b, b', validater);
    AcceptedIff(a, c, b, validater);
    AcceptedIff(a, c, b', validater);
    StatusIs(a, c, b', validater);
    var at, signing := AcceptedIsSigned(a, c, b, validater);
    IntegrityAtIff(b, off);
    IntegrityAtIff(b, at);
    CoveredAlike(a.compat, b, b', off);
    forall x: nat | IntegrityAt(b', x)
      ensures x == off
    {
      IntegrityAtIff(b', x);
      IntegrityAtIff(b', off);
    }
  }

  lemma AcceptedFirst(a: Agent, c: Crypto, b: seq<Byte>)
    requires Wellformed(a, c, b)
    ensures Accepted(b) && |b| >= HEADER
  {
    hide Chain;
    AcceptedChain(b);
  }

  // ---------------------------------------------------------------------
  // Finishing

  /** Finishing signs the message: there is a key, and what a long-term key is made of. */
  predicate Signs(a: Agent, msg: Message, used: Option<seq<Byte>>)
    requires Accepted(msg.bytes)
  {
    used.Some?
    && (a.flags.longTerm ==> msg.longTerm.Some? || (Has(msg.bytes, REALM) && Has(msg.bytes, USERNAME)))
  }

  /** The length of the finished message. */
  function FinishedLength(a: Agent, msg: Message, used: Option<seq<Byte>>): nat
    requires Accepted(msg.bytes)
  {
    |msg.bytes| + (if Signs(a, msg, used) then 24 else 0)
    + (if a.compat != Rfc3489 && a.flags.fingerprint then 8 else 0)
  }

  /** The same message, with other bytes only in the length field and at the end. */
  predicate Extends(m: seq<Byte>, b: seq<Byte>) {
    4 <= |m| <= |b| && b[..2] == m[..2] && b[4..|m|] == m[4..]
  }

  lemma AppendedIs(m: seq<Byte>, typ: nat, value: seq<Byte>)
    requires |m| >= HEADER && |value| % 4 == 0
    ensures var b := Appended(m, typ, value); |b| == |m| + 4 + |value| && Extends(m, b)
  {
    hide Big16;
    PaddingZero(|value|);
    assert Spaces(0) == [];
    var b := Appended(m, typ, value);
    assert b[4..|m|] == m[4..];
  }

  lemma ExtendsTrans(m: seq<Byte>, x: seq<Byte>, b: seq<Byte>)
    requires (m == x || Extends(m, x)) && Extends(x, b)
    ensures Extends(m, b)
  {
    assert b[4..|m|] == b[4..|x|][..|m| - 4];
    assert x[4..|m|] == x[4..][..|m| - 4];
  }

  lemma SealedIff(a: Agent, c: Crypto, msg: Message, used: Option<seq<Byte>>, size: nat)
    requires Accepted(msg.bytes)
    ensures var n := FinishedLength(a, msg, used);
            var b := Sealed(a, c, msg, used, size);
            && (b.Some? <==> n == |msg.bytes| || n <= size)
            && (b.Some? ==> |b.value| == n && Extends(msg.bytes, b.value))
  {
    hide Accepted, Visible, FindIn, Mac, MacText, FingerprintOf, Appended, Chain;
    AcceptedChain(msg.bytes);
    var m := msg.bytes;
    if Signs(a, msg, used) {
      var signing := SigningKey(a, c, msg, used.value).value;
      var mac := Mac(c, signing, MacText(a.compat, m, |m| + 24, FakeLength(a, |m| + 24)));
      AppendedIs(m, MESSAGE_INTEGRITY, mac);
      m := Appended(m, MESSAGE_INTEGRITY, mac);
    }
    var mark := FingerprintOf(c, m, |m| + 8);
    AppendedIs(m, FINGERPRINT, mark);
    ExtendsTrans(msg.bytes, m, Appended(m, FINGERPRINT, mark));
  }

  /** Finishing succeeds exactly if there is room for the integrity and the fingerprint, and
      for a request a free slot in the table. It extends the message; a request is entered
      into the first free slot, and no other transaction is touched. */
  lemma FinishedIff(a: Agent, c: Crypto, msg: Message, key: Option<seq<Byte>>, size: nat)
    requires Accepted(msg.bytes)
    ensures var used := if msg.key.Some? then msg.key else key;
            var n := FinishedLength(a, msg, used);
            var (t, b) := Finish(a, c, msg, key, size);
            && |msg.bytes| >= HEADER
            && (b.Some? <==>
                  && (ClassOf(msg.bytes) == REQUEST ==> exists k :: 0 <= k < |a.sent| && !a.sent[k].valid)
                  && (n == |msg.bytes| || n <= size))
            && (b.Some? ==> |b.value| == n && Extends(msg.bytes, b.value))
            && (b.None? || ClassOf(msg.bytes) != REQUEST ==> t == a)
            && (b.Some? && ClassOf(msg.bytes) == REQUEST ==>
                  exists k, longTerm ::
                    && 0 <= k < |a.sent| && !a.sent[k].valid && (forall j :: 0 <= j < k ==> a.sent[j].valid)
                    && t == a.(sent := a.sent[k := Saved(true, msg.bytes[4..20], MethodOf(msg.bytes), used, longTerm)]))
  {
    hide Accepted, Sealed, SigningKey, ClassOf, MethodOf, Chain, FinishedLength, Extends;
    AcceptedChain(msg.bytes);
    var used := if msg.key.Some? then msg.key else key;
    SealedIff(a, c, msg, used, size);
    var k := FirstSlot(a.sent, Free());
    assert forall j :: 0 <= j < |a.sent| ==> (Free()(a.sent[j]) <==> !a.sent[j].valid);
    var (t, b) := Finish(a, c, msg, key, size);
    if b.Some? && ClassOf(msg.bytes) == REQUEST {
      assert t == a.(sent := a.sent[k := Saved(true, msg.bytes[4..20], MethodOf(msg.bytes), used, t.sent[k].longTerm)]);
    }
  }

  // ---------------------------------------------------------------------
  // Forgetting

  predicate IsOpen(s: Saved, id: seq<Byte>) {
    s.valid && s.id == id
  }

  /** Forgetting closes exactly the first open transaction with the identifier, and tells
      whether there was one. */
  lemma ForgetsFirst(a: Agent, id: seq<Byte>)
    ensures Forget(a, id).1 <==> exists k :: 0 <= k < |a.sent| && IsOpen(a.sent[k], id)
    ensures !Forget(a, id).1 ==> Forget(a, id).0 == a
    ensures Forget(a, id).1 ==> exists k ::
              && 0 <= k < |a.sent| && IsOpen(a.sent[k], id)
              && (forall j :: 0 <= j < k ==> !IsOpen(a.sent[j], id))
              && Forget(a, id).0 == a.(sent := a.sent[k := a.sent[k].(valid := false)])
  {
    assert forall j :: 0 <= j < |a.sent| ==> (WithId(id)(a.sent[j]) <==> IsOpen(a.sent[j], id));
    var k := FirstSlot(a.sent, WithId(id));
    if k < |a.sent| {
      assert IsOpen(a.sent[k], id);
    }
  }

  /** No reply is accepted for a forgotten transaction whose identifier was used once. */
  lemma ForgottenIsUnmatched(a: Agent, c: Crypto, b: seq<Byte>, validater: Validater)
    requires Wellformed(a, c, b) && |b| >= HEADER && IsReply(b)
    requires forall j, k :: 0 <= j < k < |a.sent| && IsOpen(a.sent[j], b[4..20]) ==> !IsOpen(a.sent[k], b[4..20])
    ensures var a' := Forget(a, b[4..20]).0;
            Validate(a', c, b, validater) == Validation(a', UnmatchedResponse, None)
  {
    hide Validate, Accepted, ClassOf, MethodOf, Chain, Presented, Granted, Understood;
    var a' := Forget(a, b[4..20]).0;
    ForgetsFirst(a, b[4..20]);
    hide Forget;
    assert forall j :: 0 <= j < |a'.sent| ==> !IsOpen(a'.sent[j], b[4..20]);
    assert forall k: nat :: !OpenAt(a', b, k);
    StatusIs(a', c, b, validater);
    AcceptedIff(a', c, b, validater);
  }
}
