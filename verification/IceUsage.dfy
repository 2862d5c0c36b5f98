/** Connectivity checks as STUN messages: what one agent's check says is what the other
    agent reads, and what the reply says is what the first agent concludes. */
module IceUsage {
  import opened Arith
  import opened Options
  import opened WordBytes
  import opened StunMessages
  import opened StunWriter
  import opened StunAgents
  import opened StunExchange
  import Conncheck

  type Request = Conncheck.Request

  const BINDING: nat := 1
  const MAPPED_ADDRESS: nat := 0x0001
  const XOR_MAPPED_ADDRESS: nat := 0x0020
  const PRIORITY: nat := 0x0024
  const USE_CANDIDATE: nat := 0x0025
  const ICE_CONTROLLED: nat := 0x8029
  const ICE_CONTROLLING: nat := 0x802A
  const ROLE_CONFLICT: nat := 487

  // ---------------------------------------------------------------------
  // Numbers in attributes

  function Big64(w: nat): (b: seq<Byte>)
    ensures |b| == 8
  {
    Big32(w / TWO32) + Big32(w % TWO32)
  }

  function Read32(v: Option<seq<Byte>>): Option<nat> {
    if v.Some? && |v.value| == 4 then Some(Get32(v.value, 0)) else None
  }

  function Read64(v: Option<seq<Byte>>): Option<nat> {
    if v.Some? && |v.value| == 8 then
      Some(TWO32 * Get32(v.value, 0) + Get32(v.value, 4))
    else None
  }

  lemma Number32Back(w: nat)
    requires w < TWO32
    ensures Read32(Some(Big32(w))) == Some(w)
  {
    var b := Big32(w);
    Word32([], w, []);
    assert [] + b + [] == b;
  }

  lemma Number64Back(w: nat)
    requires w < TWO64
    ensures Read64(Some(Big64(w))) == Some(w)
  {
    hide Big32, Get32;
    var hi, lo := Big32(w / TWO32), Big32(w % TWO32);
    Word32([], w / TWO32, lo);
    Word32(hi, w % TWO32, []);
    assert [] + hi + lo == hi + lo && hi + lo + [] == hi + lo;
  }

  // ---------------------------------------------------------------------
  // Requests

  /** An attribute that may be missing. */
  function Maybe(present: bool, typ: nat, value: seq<Byte>): seq<Attribute> {
    if present then [Attribute(typ, value)] else []
  }

  function Tie(tie: Option<nat>): seq<Byte> {
    if tie.Some? then Big64(tie.value) else []
  }

  /** The attributes of a check. */
  function CheckAttributes(q: Request, username: seq<Byte>): seq<Attribute> {
    Maybe(q.useCandidate, USE_CANDIDATE, [])
    + ([Attribute(PRIORITY, Big32(q.priority))]
       + (Maybe(q.controlling.Some?, ICE_CONTROLLING, Tie(q.controlling))
          + (Maybe(q.controlled.Some?, ICE_CONTROLLED, Tie(q.controlled))
             + Maybe(username != [], USERNAME, username))))
  }

  /** What the receiver reads from a request with transaction `id`. */
  function ReadCheck(b: seq<Byte>, id: nat): Request
    requires Accepted(b)
  {
    var priority := Read32(Fetch(b, PRIORITY));
    Conncheck.Request(id, Read64(Fetch(b, ICE_CONTROLLING)), Read64(Fetch(b, ICE_CONTROLLED)),
                      Fetch(b, USE_CANDIDATE) == Some([]), if priority.Some? then priority.value else 0)
  }

  /** The fields have the widths of the protocol. */
  predicate Fielded(q: Request) {
    && q.priority < TWO32
    && (q.controlling.Some? ==> q.controlling.value < TWO64)
    && (q.controlled.Some? ==> q.controlled.value < TWO64)
  }

  lemma FindMaybe(present: bool, typ: nat, value: seq<Byte>, rest: seq<Attribute>, t: nat)
    requires typ != MESSAGE_INTEGRITY && typ != FINGERPRINT
    ensures FindIn(Maybe(present, typ, value) + rest, t) ==
            if present && typ == t then Some(value) else FindIn(rest, t)
  {
    hide FindIn;
    if present {
      FindStep(Attribute(typ, value), rest, t);
    } else {
      assert [] + rest == rest;
    }
  }

  /** Each attribute of a check is found. */
  lemma CheckFound(q: Request, username: seq<Byte>, t: nat)
    ensures FindIn(CheckAttributes(q, username), t) ==
            if t == USE_CANDIDATE && q.useCandidate then Some([])
            else if t == PRIORITY then Some(Big32(q.priority))
            else if t == ICE_CONTROLLING && q.controlling.Some? then Some(Tie(q.controlling))
            else if t == ICE_CONTROLLED && q.controlled.Some? then Some(Tie(q.controlled))
            else if t == USERNAME && username != [] then Some(username)
            else None
  {
    hide FindIn, Big32, Big64, Maybe, Tie;
    var a4 := Maybe(username != [], USERNAME, username);
    var a3 := Maybe(q.controlled.Some?, ICE_CONTROLLED, Tie(q.controlled)) + a4;
    var a2 := Maybe(q.controlling.Some?, ICE_CONTROLLING, Tie(q.controlling)) + a3;
    FindMaybe(q.useCandidate, USE_CANDIDATE, [], [Attribute(PRIORITY, Big32(q.priority))] + a2, t);
    FindStep(Attribute(PRIORITY, Big32(q.priority)), a2, t);
    FindMaybe(q.controlling.Some?, ICE_CONTROLLING, Tie(q.controlling), a3, t);
    FindMaybe(q.controlled.Some?, ICE_CONTROLLED, Tie(q.controlled), a4, t);
    FindMaybe(username != [], USERNAME, username, [], t);
    assert a4 + [] == a4;
    NothingIn(t);
  }

  /** A message in which the attributes of a check are found is read as that check. */
  lemma CheckBack(b: seq<Byte>, q: Request, username: seq<Byte>)
    requires Accepted(b) && Fielded(q)
    requires forall t :: t != MESSAGE_INTEGRITY && t != FINGERPRINT ==>
                           Fetch(b, t) == FindIn(CheckAttributes(q, username), t)
    ensures ReadCheck(b, q.id) == q
  {
    hide FindIn, Big32, Big64, CheckAttributes, Accepted, Read32, Read64, Fetch;
    CheckFound(q, username, PRIORITY);
    CheckFound(q, username, USE_CANDIDATE);
    CheckFound(q, username, ICE_CONTROLLING);
    CheckFound(q, username, ICE_CONTROLLED);
    Number32Back(q.priority);
    if q.controlling.Some? {
      Number64Back(q.controlling.value);
    }
    if q.controlled.Some? {
      Number64Back(q.controlled.value);
    }
    NothingRead();
  }

  lemma NothingRead()
    ensures Read64(None) == None
  {
  }

  lemma CheckPlain(q: Request, username: seq<Byte>)
    ensures Plain(CheckAttributes(q, username))
  {
    hide Big32, Big64, Tie;
  }

  /** A check created and finished by one agent is accepted by a peer of the same kind that
      knows the key, and read there as the check that was sent: same role, tie-breaker,
      priority and nomination. */
  lemma CheckArrives(s: Agent, r: Agent, c: Crypto, q: Request, id: seq<Byte>, username: seq<Byte>, key: seq<Byte>,
                     size: nat, validater: Validater)
    requires Twins(s, r) && size < TWO16 && key != [] && Fielded(q)
    requires Header(TypeBytes(REQUEST, BINDING), id) && Fits(CheckAttributes(q, username))
    requires Knows(r, CheckAttributes(q, username)) && Carries(s.flags, CheckAttributes(q, username))
    requires Modern(s.compat) ==> id[..4] == Cookie()
    requires validater(FindIn(CheckAttributes(q, username), USERNAME)) == Some(key)
    ensures var msg := Unsigned(REQUEST, BINDING, id, CheckAttributes(q, username));
            Accepted(msg.bytes) &&
            var b := Finish(s, c, msg, Some(key), size).1;
            b.Some? ==>
              (&& Accepted(b.value) && Passes(r, c, b.value, validater, key)
               && ReadCheck(b.value, q.id) == q)
  {
    hide Encode, Sealed, LongTermKey, Accepted, Seen, TypeBytes, Validate, Knows, CheckAttributes, ReadCheck, ClassOf,
      MethodOf, IdOf, FirstSlot;
    var attrs := CheckAttributes(q, username);
    CheckPlain(q, username);
    var msg := Unsigned(REQUEST, BINDING, id, attrs);
    EncodeBack(TypeBytes(REQUEST, BINDING), id, attrs);
    DraftClass(REQUEST, BINDING, id, attrs);
    RequestIsAccepted(s, r, c, BINDING, id, attrs, key, size, validater);
    var b := Finish(s, c, msg, Some(key), size).1;
    if b.Some? {
      SealedIsSeen(s, r, c, msg, Some(key), size, REQUEST, BINDING, id, attrs);
      SeenFetch(r, c, b.value, REQUEST, BINDING, id, attrs, SigningKey(s, c, msg, key));
      CheckBack(b.value, q, username);
    }
  }

  lemma SeenFetch(r: Agent, c: Crypto, b: seq<Byte>, cls: nat, method_: nat, id: seq<Byte>, attrs: seq<Attribute>,
                  signing: Option<seq<Byte>>)
    requires Seen(r, c, b, cls, method_, id, attrs, signing)
    ensures Accepted(b) && |b| >= HEADER && ClassOf(b) == cls && MethodOf(b) == method_ && b[4..HEADER] == id
    ensures forall t :: t != MESSAGE_INTEGRITY && t != FINGERPRINT ==> Fetch(b, t) == FindIn(attrs, t)
  {
  }

  // ---------------------------------------------------------------------
  // Replies

  datatype Conclusion = Unusable | RoleConflict | Failure | NoMapping | MappedTo(addr: SockAddr)

  /** What the agent that sent the check concludes from the reply. */
  function Conclude(b: seq<Byte>): Conclusion
    requires Accepted(b)
  {
    AcceptedChain(b);
    if MethodOf(b) != BINDING || ClassOf(b) == REQUEST || ClassOf(b) == INDICATION then Unusable
    else if ClassOf(b) == ERROR then
      match ErrorCode(b)
      case None => Unusable
      case Some(code) => if code == ROLE_CONFLICT then RoleConflict else Failure
    else
      match FindXorAddress(b, XOR_MAPPED_ADDRESS)
      case Found(a) => MappedTo(a)
      case _ =>
        match FindAddress(b, MAPPED_ADDRESS)
        case Found(a) => MappedTo(a)
        case _ => NoMapping
  }

  function ErrorValue(code: nat, phrase: seq<Byte>): seq<Byte>
    requires code < 1000
  {
    [0, 0, code / 100, code % 100] + phrase
  }

  /** An error code written is read back exactly in the range of the protocol. */
  lemma ErrorBackIff(b: seq<Byte>, code: nat, phrase: seq<Byte>)
    requires Accepted(b) && code < 1000 && Fetch(b, ERROR_CODE) == Some(ErrorValue(code, phrase))
    ensures ErrorCode(b) == Some(code) <==> 300 <= code < 700
  {
    hide Accepted, Fetch;
  }

  /** The attributes of a reply that reports a role conflict. */
  function ConflictAttributes(phrase: seq<Byte>): seq<Attribute> {
    [Attribute(ERROR_CODE, ErrorValue(ROLE_CONFLICT, phrase))]
  }

  /** The reply to a check whose sender is told that its role clashes, as seen on arrival. */
  lemma ConflictSeen(r: Agent, c: Crypto, b: seq<Byte>, id: seq<Byte>, phrase: seq<Byte>, signing: Option<seq<Byte>>)
    requires Seen(r, c, b, ERROR, BINDING, id, ConflictAttributes(phrase), signing)
    ensures Accepted(b) && Conclude(b) == RoleConflict
  {
    hide Seen, ClassOf, MethodOf, Accepted, ErrorCode, Fetch;
    SeenFetch(r, c, b, ERROR, BINDING, id, ConflictAttributes(phrase), signing);
    ErrorBackIff(b, ROLE_CONFLICT, phrase);
  }

  /** A finished role conflict reply makes the sender of the check conclude just that. */
  lemma ConflictConcluded(s: Agent, r: Agent, c: Crypto, msg: Message, key: Option<seq<Byte>>, size: nat,
                          id: seq<Byte>, phrase: seq<Byte>)
    requires Twins(s, r) && size < TWO16 && |id| == 16 && (Modern(s.compat) ==> id[..4] == Cookie())
    requires Draft(TypeBytes(ERROR, BINDING), id, ConflictAttributes(phrase)) && Knows(r, ConflictAttributes(phrase))
    requires msg.bytes == Encode(TypeBytes(ERROR, BINDING), id, ConflictAttributes(phrase))
    ensures Accepted(msg.bytes) &&
            var b := Finish(s, c, msg, key, size).1;
            b.Some? ==> Accepted(b.value) && Conclude(b.value) == RoleConflict
  {
    hide Encode, Sealed, SigningKey, Accepted, Seen, TypeBytes, Knows, Conclude, ClassOf, MethodOf, IdOf, Draft;
    var attrs := ConflictAttributes(phrase);
    ReplyFinished(s, r, c, msg, key, size, ERROR, id, attrs);
    var b := Finish(s, c, msg, key, size).1;
    if b.Some? {
      ConflictSeen(r, c, b.value, id, phrase, ReplyKey(s, c, msg, key));
    }
  }

  /** The key that a reply is signed with. */
  function ReplyKey(s: Agent, c: Crypto, msg: Message, key: Option<seq<Byte>>): Option<seq<Byte>>
    requires Accepted(msg.bytes)
  {
    var used := if msg.key.Some? then msg.key else key;
    if used.Some? then SigningKey(s, c, msg, used.value) else None
  }

  /** A finished reply as its receiver sees it. */
  lemma ReplyFinished(s: Agent, r: Agent, c: Crypto, msg: Message, key: Option<seq<Byte>>, size: nat, cls: nat,
                      id: seq<Byte>, attrs: seq<Attribute>)
    requires Twins(s, r) && size < TWO16 && (cls == RESPONSE || cls == ERROR)
    requires Draft(TypeBytes(cls, BINDING), id, attrs) && Knows(r, attrs)
    requires Modern(s.compat) ==> id[..4] == Cookie()
    requires msg.bytes == Encode(TypeBytes(cls, BINDING), id, attrs)
    ensures Accepted(msg.bytes) &&
            var b := Finish(s, c, msg, key, size).1;
            b.Some? ==> Seen(r, c, b.value, cls, BINDING, id, attrs, ReplyKey(s, c, msg, key))
  {
    hide Encode, Sealed, SigningKey, Accepted, Seen, TypeBytes, Knows, ClassOf, MethodOf, IdOf, FirstSlot;
    EncodeBack(TypeBytes(cls, BINDING), id, attrs);
    DraftClass(cls, BINDING, id, attrs);
    var used := if msg.key.Some? then msg.key else key;
    if Finish(s, c, msg, key, size).1.Some? {
      SealedIsSeen(s, r, c, msg, used, size, cls, BINDING, id, attrs);
    }
  }

  /** The attributes of a success reply to a check that came from `src`. */
  function MappingAttributes(m: seq<Byte>, src: SockAddr, username: seq<Byte>): seq<Attribute>
    requires |m| >= HEADER && IsAddress(src)
  {
    [Attribute(XOR_MAPPED_ADDRESS, AddressValue(XorAddress(m, src)))] + Maybe(username != [], USERNAME, username)
  }

  /** The reply to a successful check, as seen on arrival. */
  lemma MappingSeen(r: Agent, c: Crypto, b: seq<Byte>, id: seq<Byte>, m: seq<Byte>, src: SockAddr,
                    username: seq<Byte>, signing: Option<seq<Byte>>)
    requires IsAddress(src) && |m| >= HEADER && m[4..HEADER] == id
    requires Seen(r, c, b, RESPONSE, BINDING, id, MappingAttributes(m, src, username), signing)
    ensures Accepted(b) && Conclude(b) == MappedTo(src)
  {
    hide Seen, ClassOf, MethodOf, Accepted, Visible, XorAddress, AddressValue, ReadAddress, Maybe;
    var x := XorAddress(m, src);
    var rest := Maybe(username != [], USERNAME, username);
    var attrs := [Attribute(XOR_MAPPED_ADDRESS, AddressValue(x))] + rest;
    SeenFetch(r, c, b, RESPONSE, BINDING, id, attrs, signing);
    assert Fetch(b, XOR_MAPPED_ADDRESS) == FindIn(attrs, XOR_MAPPED_ADDRESS);
    FindStep(attrs[0], rest, XOR_MAPPED_ADDRESS);
    AddressBack(x);
    XorAddressTwice(m, b, src);
  }

  /** A finished success reply tells the sender of the check the address it came from. */
  lemma MappingConcluded(s: Agent, r: Agent, c: Crypto, msg: Message, key: Option<seq<Byte>>, size: nat,
                         id: seq<Byte>, src: SockAddr, username: seq<Byte>)
    requires Twins(s, r) && size < TWO16 && IsAddress(src) && |id| == 16
    requires Modern(s.compat) ==> id[..4] == Cookie()
    requires var m := Encode(TypeBytes(RESPONSE, BINDING), id, []);
             var attrs := MappingAttributes(m, src, username);
             && Draft(TypeBytes(RESPONSE, BINDING), id, attrs) && Knows(r, attrs)
             && msg.bytes == Encode(TypeBytes(RESPONSE, BINDING), id, attrs)
    ensures Accepted(msg.bytes) &&
            var b := Finish(s, c, msg, key, size).1;
            b.Some? ==> Accepted(b.value) && Conclude(b.value) == MappedTo(src)
  {
    hide Sealed, SigningKey, Accepted, Seen, TypeBytes, Knows, Conclude, ClassOf, MethodOf, IdOf, XorAddress, Big16,
      Body, Draft;
    var m := Encode(TypeBytes(RESPONSE, BINDING), id, []);
    assert m[4..HEADER] == id;
    var attrs := MappingAttributes(m, src, username);
    ReplyFinished(s, r, c, msg, key, size, RESPONSE, id, attrs);
    var b := Finish(s, c, msg, key, size).1;
    if b.Some? {
      MappingSeen(r, c, b.value, id, m, src, username, ReplyKey(s, c, msg, key));
    }
  }
}
