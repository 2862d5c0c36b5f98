/** The STUN agent: finishing messages with integrity and fingerprint, validating
    received ones, and the table of transactions awaiting a response. The hash, the
    checksum and the long-term key derivation are parameters. */
module StunAgents {
  import opened Arith
  import opened Options
  import opened WordBytes
  import opened StunMessages
  import opened StunWriter
  import HashSpec
  import Sha1

  datatype Compatibility = Rfc3489 | Rfc5389 | Wlm2009

  datatype Flags = Flags(
    fingerprint: bool, shortTerm: bool, longTerm: bool,
    ignoreCredentials: bool, noIndicationAuth: bool, forceValidater: bool)

  datatype Crypto = Crypto(
    compress: Sha1.Compress,
    checksum: seq<Byte> -> nat,
    credentials: (seq<Byte>, seq<Byte>, seq<Byte>) -> seq<Byte>)

  /** A transaction awaiting its response. */
  datatype Saved = Saved(
    valid: bool, id: seq<Byte>, method_: nat, key: Option<seq<Byte>>, longTerm: Option<seq<Byte>>)

  datatype Agent = Agent(compat: Compatibility, flags: Flags, known: seq<nat>, sent: seq<Saved>)

  /** A message, its key and its long-term key. */
  datatype Message = Message(bytes: seq<Byte>, key: Option<seq<Byte>>, longTerm: Option<seq<Byte>>)

  const USERNAME: nat := 0x0006
  const ERROR_CODE: nat := 0x0009
  const REALM: nat := 0x0014
  const NONCE: nat := 0x0015
  const MAX_SAVED: nat := 200

  const REQUEST: nat := 0
  const INDICATION: nat := 1
  const RESPONSE: nat := 2
  const ERROR: nat := 3

  predicate Modern(compat: Compatibility) {
    compat != Rfc3489
  }

  predicate Fingerprinted(a: Agent) {
    Modern(a.compat) && a.flags.fingerprint
  }

  // ---------------------------------------------------------------------
  // What is authenticated

  /** The bytes under a message integrity whose attribute ends at `len`, with the length
      field replaced. */
  function MacText(compat: Compatibility, m: seq<Byte>, len: nat, fake: nat): seq<Byte>
    requires 44 <= len <= |m| + 24
  {
    var text := m[..2] + Big16(fake) + m[4..len - 24];
    var over := (len - 24) % 64;
    if compat != Rfc5389 && over > 0 then text + HashSpec.Zeros(64 - over) else text
  }

  function Mac(c: Crypto, key: seq<Byte>, text: seq<Byte>): (r: seq<Byte>)
    ensures |r| == 20
  {
    Sha1.Hmac(c.compress, key, text)
  }

  /** The checksum of a message of length `len` that ends in a fingerprint. */
  function FingerprintOf(c: Crypto, m: seq<Byte>, len: nat): (r: seq<Byte>)
    requires 28 <= len <= |m| + 8
    ensures |r| == 4
  {
    Big32(c.checksum(m[..2] + Big16(len - HEADER) + m[4..len - 8]))
  }

  // ---------------------------------------------------------------------
  // Finishing

  function TryAppend(m: seq<Byte>, typ: nat, value: seq<Byte>, size: nat): Option<seq<Byte>>
    requires |m| >= HEADER
  {
    if |m| + 4 + |value| <= size then Some(Appended(m, typ, value)) else None
  }

  function LongTermKey(c: Crypto, b: seq<Byte>, password: seq<Byte>): Option<seq<Byte>>
    requires Accepted(b)
  {
    var realm, username := FindIn(Visible(b), REALM), FindIn(Visible(b), USERNAME);
    if realm.Some? && username.Some? then Some(c.credentials(realm.value, username.value, password)) else None
  }

  /** The length put under the integrity. */
  function FakeLength(a: Agent, len: nat): nat
    requires len >= 44
  {
    if a.compat == Wlm2009 && a.flags.fingerprint then len - 12 else len - 20
  }

  /** The key the integrity is computed with, if it is sent at all. */
  function SigningKey(a: Agent, c: Crypto, msg: Message, key: seq<Byte>): Option<seq<Byte>>
    requires Accepted(msg.bytes)
  {
    if !a.flags.longTerm then Some(key)
    else if msg.longTerm.Some? then msg.longTerm
    else LongTermKey(c, msg.bytes, key)
  }

  function Signed(a: Agent, c: Crypto, m: seq<Byte>, key: seq<Byte>, size: nat): Option<seq<Byte>>
    requires |m| >= HEADER
  {
    var len := |m| + 24;
    TryAppend(m, MESSAGE_INTEGRITY, Mac(c, key, MacText(a.compat, m, len, FakeLength(a, len))), size)
  }

  function Marked(c: Crypto, m: seq<Byte>, size: nat): Option<seq<Byte>>
    requires |m| >= HEADER
  {
    TryAppend(m, FINGERPRINT, FingerprintOf(c, m, |m| + 8), size)
  }

  function Free(): Saved -> bool {
    (s: Saved) => !s.valid
  }

  /** The first index that satisfies `f`, or the length. */
  function FirstSlot(s: seq<Saved>, f: Saved -> bool): (r: nat)
    ensures r <= |s| && (r < |s| ==> f(s[r]))
    ensures forall k :: 0 <= k < r ==> !f(s[k])
  {
    if s == [] || f(s[0]) then 0 else 1 + FirstSlot(s[1..], f)
  }

  function IdOf(b: seq<Byte>): seq<Byte>
    requires |b| >= HEADER
  {
    b[4..HEADER]
  }

  /** The bytes sent, if there is room for all of them. */
  function Sealed(a: Agent, c: Crypto, msg: Message, key: Option<seq<Byte>>, size: nat): Option<seq<Byte>>
    requires Accepted(msg.bytes)
  {
    AcceptedChain(msg.bytes);
    var signing := if key.Some? then SigningKey(a, c, msg, key.value) else None;
    var m := if signing.Some? then Signed(a, c, msg.bytes, signing.value, size) else Some(msg.bytes);
    if m.None? || !Fingerprinted(a) then m else Marked(c, m.value, size)
  }

  /** Finish a message: returns the agent and the bytes to send, if any. A request is
      entered into the table. */
  function Finish(a: Agent, c: Crypto, msg: Message, key: Option<seq<Byte>>, size: nat): (Agent, Option<seq<Byte>>)
    requires Accepted(msg.bytes)
  {
    AcceptedChain(msg.bytes);
    var isRequest := ClassOf(msg.bytes) == REQUEST;
    var slot := FirstSlot(a.sent, Free());
    if isRequest && slot == |a.sent| then (a, None)
    else
      var used := if msg.key.Some? then msg.key else key;
      var bytes := Sealed(a, c, msg, used, size);
      if bytes.None? || !isRequest then (a, bytes)
      else
        var longTerm := if used.Some? && a.flags.longTerm then SigningKey(a, c, msg, used.value) else msg.longTerm;
        var saved := Saved(true, IdOf(msg.bytes), MethodOf(msg.bytes), used, longTerm);
        (a.(sent := a.sent[slot := saved]), bytes)
  }

  // ---------------------------------------------------------------------
  // Validating

  datatype Status =
    | Success | NotStun | IncompleteStun | BadRequest | UnauthorizedBadRequest | Unauthorized
    | UnmatchedResponse | UnknownRequestAttribute | UnknownAttribute

  function Fetch(b: seq<Byte>, typ: nat): Option<seq<Byte>>
    requires Accepted(b)
  {
    FindIn(Visible(b), typ)
  }

  predicate Has(b: seq<Byte>, typ: nat)
    requires Accepted(b)
  {
    Fetch(b, typ).Some?
  }

  function ErrorCode(b: seq<Byte>): Option<nat>
    requires Accepted(b)
  {
    match Fetch(b, ERROR_CODE)
    case None => None
    case Some(v) =>
      if |v| < 4 || v[2] % 8 < 3 || v[2] % 8 > 6 || v[3] > 99 then None
      else
        var hundreds: int, rest: int := v[2] % 8, v[3];
        Some(100 * hundreds + rest)
  }

  /** An error response that comes without credentials. */
  predicate BareError(b: seq<Byte>)
    requires Accepted(b)
  {
    AcceptedChain(b);
    ClassOf(b) == ERROR && (ErrorCode(b) == Some(400) || ErrorCode(b) == Some(401))
  }

  predicate Ignores(a: Agent, b: seq<Byte>)
    requires Accepted(b)
  {
    AcceptedChain(b);
    || a.flags.ignoreCredentials || BareError(b)
    || (ClassOf(b) == INDICATION && a.flags.noIndicationAuth)
  }

  /** Credentials that the message must carry are missing. */
  predicate Lacking(a: Agent, b: seq<Byte>)
    requires Accepted(b)
  {
    AcceptedChain(b);
    || (a.flags.shortTerm && (!Has(b, USERNAME) || !Has(b, MESSAGE_INTEGRITY)))
    || (a.flags.longTerm && ClassOf(b) == REQUEST
        && (!Has(b, USERNAME) || !Has(b, MESSAGE_INTEGRITY) || !Has(b, NONCE) || !Has(b, REALM)))
    || (!a.flags.ignoreCredentials && Has(b, USERNAME) && !Has(b, MESSAGE_INTEGRITY))
  }

  predicate FingerprintOk(c: Crypto, b: seq<Byte>)
    requires Accepted(b)
  {
    AcceptedChain(b);
    var v := Fetch(b, FINGERPRINT);
    v.Some? && |v.value| == 4 && 28 <= |b| && v.value == FingerprintOf(c, b, |b|)
  }

  /** The integrity value at `pos` is right under `key`. */
  predicate MacOk(a: Agent, c: Crypto, b: seq<Byte>, pos: nat, key: seq<Byte>)
    requires HEADER + 4 <= pos <= |b|
  {
    && pos + 20 <= |b|
    && var fake := if a.compat == Wlm2009 then |b| - 20 else pos;
       b[pos..pos + 20] == Mac(c, key, MacText(a.compat, b, pos + 20, fake))
  }

  function Awaiting(b: seq<Byte>): Saved -> bool
    requires |b| >= HEADER
  {
    (s: Saved) => s.valid && s.method_ == MethodOf(b) && s.id == IdOf(b)
  }

  predicate IsReply(b: seq<Byte>)
    requires |b| >= 2
  {
    ClassOf(b) == RESPONSE || ClassOf(b) == ERROR
  }

  /** The slot of the transaction a response belongs to, or the table size. */
  function SlotOf(a: Agent, b: seq<Byte>): (r: nat)
    requires |b| >= HEADER
    ensures r <= |a.sent|
  {
    if IsReply(b) then FirstSlot(a.sent, Awaiting(b)) else |a.sent|
  }

  type Validater = Option<seq<Byte>> -> Option<seq<Byte>>

  /** The key to check with; failing means that the validater refused. */
  datatype KeyResult = Refused | Key(key: Option<seq<Byte>>)

  function CheckingKey(a: Agent, b: seq<Byte>, saved: Option<seq<Byte>>, validater: Validater): KeyResult
    requires Accepted(b)
  {
    if Has(b, MESSAGE_INTEGRITY) && ((saved.None? && !Ignores(a, b)) || a.flags.forceValidater) then
      var key := validater(Fetch(b, USERNAME));
      if key.None? then Refused else Key(key)
    else Key(saved)
  }

  function LongTermFor(a: Agent, c: Crypto, b: seq<Byte>, key: seq<Byte>, saved: Option<seq<Byte>>): Option<seq<Byte>>
    requires Accepted(b)
  {
    if !a.flags.longTerm then Some(key)
    else if saved.Some? then saved
    else LongTermKey(c, b, key)
  }

  /** Are the credentials in order? */
  predicate IntegrityOk(a: Agent, c: Crypto, b: seq<Byte>, key: Option<seq<Byte>>, longTerm: Option<seq<Byte>>)
    requires Accepted(b)
  {
    AcceptedChain(b);
    Ignores(a, b) || key.None? || key.value == [] ||
    (if |b| < TWO16 && FindAt(b, HEADER, |b|, MESSAGE_INTEGRITY).Some? then
       var signing := LongTermFor(a, c, b, key.value, longTerm);
       signing.Some? && MacOk(a, c, b, FindAt(b, HEADER, |b|, MESSAGE_INTEGRITY).value, signing.value)
     else BareError(b))
  }

  function Verdict(a: Agent, b: seq<Byte>): Status
    requires Accepted(b)
  {
    AcceptedChain(b);
    if Unknowns(Visible(b), a.known) == [] then Success
    else if ClassOf(b) == REQUEST then UnknownRequestAttribute
    else UnknownAttribute
  }

  /** Checks on the form of a message, before any credentials. */
  function Form(a: Agent, c: Crypto, b: seq<Byte>): (r: Status)
    ensures r == Success ==> Accepted(b)
  {
    if Validated(b) == Incomplete then IncompleteStun
    else if !Accepted(b) then NotStun
    else
      AcceptedChain(b);
      if Modern(a.compat) && !HasCookie(b) then BadRequest
      else if Fingerprinted(a) && !FingerprintOk(c, b) then BadRequest
      else Success
  }

  /** What is recorded about a message whose credentials are in order, for its response. */
  function Received(a: Agent, c: Crypto, b: seq<Byte>, key: Option<seq<Byte>>, longTerm: Option<seq<Byte>>): Message
    requires Accepted(b)
  {
    if !Ignores(a, b) && key.Some? && key.value != [] && Has(b, MESSAGE_INTEGRITY) then
      Message(b, key, if a.flags.longTerm then LongTermFor(a, c, b, key.value, longTerm) else None)
    else Message(b, None, None)
  }

  /** The outcome of a validation, with the record of a message that was not turned away. */
  datatype Validation = Validation(agent: Agent, status: Status, message: Option<Message>)

  /** Validate a received message. A matched transaction is closed only if the credentials
      were in order. */
  function Validate(a: Agent, c: Crypto, b: seq<Byte>, validater: Validater): Validation
  {
    var form := Form(a, c, b);
    if form != Success then Validation(a, form, None)
    else
      AcceptedChain(b);
      var slot := SlotOf(a, b);
      var matched := slot < |a.sent|;
      var saved := if matched then a.sent[slot].key else None;
      var longTerm := if matched then a.sent[slot].longTerm else None;
      if IsReply(b) && !matched then Validation(a, UnmatchedResponse, None)
      else if saved.None? && !Ignores(a, b) && !IsReply(b) && Lacking(a, b) then
        Validation(a, UnauthorizedBadRequest, None)
      else
        match CheckingKey(a, b, saved, validater)
        case Refused => Validation(a, Unauthorized, None)
        case Key(key) =>
          if !IntegrityOk(a, c, b, key, longTerm) then Validation(a, Unauthorized, None)
          else
            Validation(if matched then a.(sent := a.sent[slot := a.sent[slot].(valid := false)]) else a,
                       Verdict(a, b), Some(Received(a, c, b, key, longTerm)))
  }

  function WithId(id: seq<Byte>): Saved -> bool {
    (s: Saved) => s.valid && s.id == id
  }

  function Forget(a: Agent, id: seq<Byte>): (Agent, bool) {
    var slot := FirstSlot(a.sent, WithId(id));
    if slot == |a.sent| then (a, false)
    else (a.(sent := a.sent[slot := a.sent[slot].(valid := false)]), true)
  }
}
