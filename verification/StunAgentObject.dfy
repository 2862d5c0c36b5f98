/** The STUN agent as an object whose table is updated in place and which writes into the
    message's buffer. */
module StunAgentObjects {
  import opened Arith
  import opened Options
  import opened WordBytes
  import opened StunMessages
  import opened StunWriter
  import opened StunAgents
  import opened StunExchange
  import HashSpec

  /** Writing the value after the attribute was appended with another one. */
  lemma Overwritten(m: seq<Byte>, typ: nat, v: seq<Byte>, w: seq<Byte>)
    requires |m| >= HEADER && |v| == |w| && |v| % 4 == 0
    ensures Appended(m, typ, w) == Appended(m, typ, v)[..|m| + 4] + w
    ensures |Appended(m, typ, v)| == |m| + 4 + |v|
    ensures Appended(m, typ, v)[..2] == m[..2] && Appended(m, typ, v)[4..|m|] == m[4..]
  {
    hide Big16;
    StoredWhole(m, v);
    StoredWhole(m, w);
    PaddingZero(|v|);
    assert Spaces(0) == [];
  }

  lemma SameText(compat: Compatibility, m: seq<Byte>, b: seq<Byte>, fake: nat)
    requires HEADER <= |m| <= |b| && b[..2] == m[..2] && b[4..|m|] == m[4..]
    ensures MacText(compat, b, |m| + 24, fake) == MacText(compat, m, |m| + 24, fake)
  {
    hide Big16;
    assert b[4..|m| + 24 - 24] == m[4..|m| + 24 - 24];
  }

  lemma SameSum(c: Crypto, m: seq<Byte>, b: seq<Byte>)
    requires HEADER <= |m| <= |b| && b[..2] == m[..2] && b[4..|m|] == m[4..]
    ensures FingerprintOf(c, b, |m| + 8) == FingerprintOf(c, m, |m| + 8)
  {
    hide Big16;
    assert b[4..|m| + 8 - 8] == m[4..|m| + 8 - 8];
  }

  class StunAgent {
    const compat: Compatibility
    const flags: Flags
    const known: seq<nat>
    const crypto: Crypto
    const sent: array<Saved>

    ghost function Model(): Agent
      reads sent
    {
      Agent(compat, flags, known, sent[..])
    }

    constructor (compat: Compatibility, flags: Flags, known: seq<nat>, crypto: Crypto)
      ensures fresh(sent) && sent.Length == MAX_SAVED
      ensures Model() == Agent(compat, flags, known, sent[..]) && this.crypto == crypto
      ensures forall id :: Unused(Model().sent, id)
    {
      this.compat, this.flags, this.known, this.crypto := compat, flags, known, crypto;
      sent := new Saved[MAX_SAVED](_ => Saved(false, [], 0, None, None));
    }

    method FindFree() returns (i: nat)
      ensures i == FirstSlot(sent[..], Free())
    {
      i := 0;
      while i < sent.Length && sent[i].valid
        invariant 0 <= i <= sent.Length && forall k :: 0 <= k < i ==> !Free()(sent[k])
      {
        i := i + 1;
      }
      FirstSlotIs(sent[..], Free(), i);
    }

    method FindAwaiting(b: seq<Byte>) returns (i: nat)
      requires |b| >= HEADER
      ensures i == FirstSlot(sent[..], Awaiting(b))
    {
      i := 0;
      while i < sent.Length
        invariant 0 <= i <= sent.Length && forall k :: 0 <= k < i ==> !Awaiting(b)(sent[k])
      {
        if sent[i].valid && sent[i].method_ == MethodOf(b) && sent[i].id == b[4..HEADER] {
          break;
        }
        i := i + 1;
      }
      FirstSlotIs(sent[..], Awaiting(b), i);
    }

    method ForgetTransaction(id: seq<Byte>) returns (found: bool)
      modifies sent
      ensures (Model(), found) == Forget(old(Model()), id)
    {
      var i := 0;
      while i < sent.Length
        invariant 0 <= i <= sent.Length && sent[..] == old(sent[..])
        invariant forall k :: 0 <= k < i ==> !WithId(id)(sent[k])
      {
        if sent[i].valid && sent[i].id == id {
          FirstSlotIs(sent[..], WithId(id), i);
          sent[i] := sent[i].(valid := false);
          return true;
        }
        i := i + 1;
      }
      FirstSlotIs(sent[..], WithId(id), i);
      return false;
    }

    // -------------------------------------------------------------------
    // Finishing

    /** Write the value of the attribute just appended. */
    method Fill(msg: StunMessage, ghost m: seq<Byte>, typ: nat, ghost zeros: seq<Byte>, value: seq<Byte>)
      requires msg.Valid() && |m| >= HEADER && |value| == |zeros| && |value| % 4 == 0
      requires msg.Bytes() == Appended(m, typ, zeros)
      modifies msg.buffer
      ensures msg.Valid() && msg.Bytes() == Appended(m, typ, value) && |msg.Bytes()| == |m| + 4 + |value|
    {
      hide Get16, Big16, EncodeAttribute, Stored, Appended;
      ghost var full := msg.buffer[..];
      var len := Length(msg.buffer[..]);
      Overwritten(m, typ, zeros, value);
      msg.Put(len - |value|, value);
      LengthStays(full, value, msg.buffer[..]);
    }

    /** Reserve the integrity attribute, then compute it over the buffer. */
    method Sign(msg: StunMessage, key: seq<Byte>) returns (ok: bool)
      requires msg.Valid() && msg.Short(24)
      modifies msg.buffer
      ensures msg.Valid()
      ensures var m := Signed(Model(), crypto, old(msg.Bytes()), key, msg.buffer.Length);
              (ok <==> m.Some?) && (ok ==> msg.Bytes() == m.value && |m.value| == |old(msg.Bytes())| + 24)
    {
      hide Get16, Big16, Mac, MacText, EncodeAttribute, Stored, FakeLength, Appended, HashSpec.Zeros, HasCookie;
      ghost var m := msg.Bytes();
      var zeros := HashSpec.Zeros(20);
      Overwritten(m, MESSAGE_INTEGRITY, zeros, zeros);
      ok := msg.Append(MESSAGE_INTEGRITY, zeros);
      if !ok {
        return;
      }
      var len := Length(msg.buffer[..]);
      ghost var a := Agent(compat, flags, known, sent[..]);
      var fake := if compat == Wlm2009 && flags.fingerprint then len - 12 else len - 20;
      ghost var b := msg.Bytes();
      FakeIs(a, len, fake);
      SameText(compat, m, b, fake);
      var mac := Mac(crypto, key, MacText(compat, msg.buffer[..len], len, fake));
      Fill(msg, m, MESSAGE_INTEGRITY, zeros, mac);
    }

    /** Reserve the fingerprint attribute, then compute it over the buffer. */
    method Mark(msg: StunMessage) returns (ok: bool)
      requires msg.Valid() && msg.Short(8)
      modifies msg.buffer
      ensures msg.Valid()
      ensures var m := Marked(crypto, old(msg.Bytes()), msg.buffer.Length);
              (ok <==> m.Some?) && (ok ==> msg.Bytes() == m.value)
    {
      hide Get16, Big16, FingerprintOf, EncodeAttribute, Stored, Appended;
      ghost var m := msg.Bytes();
      var zeros := HashSpec.Zeros(4);
      Overwritten(m, FINGERPRINT, zeros, zeros);
      ok := msg.Append(FINGERPRINT, zeros);
      if !ok {
        return;
      }
      var len := Length(msg.buffer[..]);
      ghost var b := msg.Bytes();
      SameSum(crypto, m, b);
      var sum := FingerprintOf(crypto, msg.buffer[..len], len);
      Fill(msg, m, FINGERPRINT, zeros, sum);
    }

    /** Look an attribute up in an accepted message. */
    method Lookup(b: seq<Byte>, typ: nat) returns (value: Option<seq<Byte>>, pos: nat)
      requires Accepted(b)
      ensures value == Fetch(b, typ) && (value.Some? ==> pos <= |b|)
      ensures if |b| < TWO16 then FindAt(b, HEADER, |b|, typ) == (if value.Some? then Some(pos) else None)
              else value.None?
    {
      var found, at, len, _ := Find(b, typ);
      pos := at;
      value := if found then Some(b[at..at + len]) else None;
    }

    method DeriveLongTerm(b: seq<Byte>, password: seq<Byte>) returns (key: Option<seq<Byte>>)
      requires Accepted(b)
      ensures key == LongTermKey(crypto, b, password)
    {
      hide Accepted, Visible, FindIn, FindAt;
      var realm, _ := Lookup(b, REALM);
      var username, _ := Lookup(b, USERNAME);
      key := if realm.Some? && username.Some? then
        Some(crypto.credentials(realm.value, username.value, password))
      else None;
    }

    /** The key to sign with, and the long-term key to remember. */
    method ChooseKey(b: seq<Byte>, msgKey: Option<seq<Byte>>, msgLongTerm: Option<seq<Byte>>, used: seq<Byte>)
      returns (signing: Option<seq<Byte>>, longTerm: Option<seq<Byte>>)
      requires Accepted(b)
      ensures signing == SigningKey(Model(), crypto, Message(b, msgKey, msgLongTerm), used)
      ensures longTerm == if flags.longTerm then signing else msgLongTerm
    {
      hide Accepted, LongTermKey;
      longTerm := msgLongTerm;
      signing := Some(used);
      if flags.longTerm {
        if longTerm.None? {
          longTerm := DeriveLongTerm(b, used);
        }
        signing := longTerm;
      }
    }

    /** Write the integrity and the fingerprint. */
    method Seal(msg: StunMessage, signing: Option<seq<Byte>>) returns (ok: bool)
      requires msg.Valid() && msg.Short(32)
      modifies msg.buffer
      ensures msg.Valid()
      ensures var size, m0 := msg.buffer.Length, old(msg.Bytes());
              var m := if signing.Some? then Signed(Model(), crypto, m0, signing.value, size) else Some(m0);
              var b := if m.None? || !Fingerprinted(Model()) then m else Marked(crypto, m.value, size);
              (ok <==> b.Some?) && (ok ==> msg.Bytes() == b.value)
    {
      hide Get16, Signed, Marked;
      ok := true;
      if signing.Some? {
        ok := Sign(msg, signing.value);
        if !ok {
          return;
        }
      }
      if compat != Rfc3489 && flags.fingerprint {
        ok := Mark(msg);
      }
    }

    /** Finish a message in its buffer; zero means that it cannot be sent. */
    method FinishMessage(msg: StunMessage, msgKey: Option<seq<Byte>>, msgLongTerm: Option<seq<Byte>>,
                         key: Option<seq<Byte>>) returns (n: nat)
      requires msg.Valid() && Accepted(msg.Bytes()) && msg.Short(32) && sent.Length == MAX_SAVED
      modifies msg.buffer, sent
      ensures msg.Valid()
      ensures var was := Message(old(msg.Bytes()), msgKey, msgLongTerm);
              var (a, b) := Finish(old(Model()), crypto, was, key, msg.buffer.Length);
              && Model() == a && (n == 0 <==> b.None?)
              && (b.Some? ==> msg.Bytes() == b.value && n == |b.value|)
    {
      hide Accepted, Get16, Signed, Marked, LongTermKey, ClassOf, MethodOf, TypeOf, FirstSlot, SigningKey;
      var b := msg.buffer[..Length(msg.buffer[..])];
      ghost var was := Message(b, msgKey, msgLongTerm);
      ghost var a := Model();
      var slot := 0;
      if ClassOf(b) == REQUEST {
        slot := FindFree();
      }
      if slot == sent.Length {
        return 0;
      }
      var used := if msgKey.Some? then msgKey else key;
      var signing, longTerm := None, msgLongTerm;
      if used.Some? {
        signing, longTerm := ChooseKey(b, msgKey, msgLongTerm, used.value);
      }
      var ok := Seal(msg, signing);
      if !ok {
        return 0;
      }
      n := Length(msg.buffer[..]);
      if ClassOf(b) == REQUEST {
        sent[slot] := Saved(true, b[4..HEADER], MethodOf(b), used, longTerm);
      }
    }

    // -------------------------------------------------------------------
    // Validating

    method CheckForm(b: seq<Byte>) returns (status: Status)
      ensures status == Form(Model(), crypto, b)
    {
      hide Validated, Visible, FindIn, FindAt, FingerprintOf;
      var validity, _ := ValidateBuffer(b);
      if validity == Incomplete {
        return IncompleteStun;
      }
      if validity == Invalid || validity.length != |b| {
        return NotStun;
      }
      AcceptedChain(b);
      if compat != Rfc3489 && b[4..8] != Cookie() {
        return BadRequest;
      }
      if compat != Rfc3489 && flags.fingerprint {
        var value, _ := Lookup(b, FINGERPRINT);
        if value.None? || |value.value| != 4 || |b| < 28 || value.value != FingerprintOf(crypto, b, |b|) {
          return BadRequest;
        }
      }
      return Success;
    }

    method FindErrorCode(b: seq<Byte>) returns (code: Option<nat>)
      requires Accepted(b)
      ensures code == ErrorCode(b)
    {
      hide Accepted, Visible, FindIn, FindAt;
      var value, _ := Lookup(b, ERROR_CODE);
      if value.None? {
        return None;
      }
      var v := value.value;
      if |v| < 4 {
        return None;
      }
      var hundreds: int, rest: int := v[2] % 8, v[3];
      if hundreds < 3 || hundreds > 6 || rest > 99 {
        return None;
      }
      return Some(100 * hundreds + rest);
    }

    method IsBareError(b: seq<Byte>) returns (bare: bool)
      requires Accepted(b)
      ensures bare <==> BareError(b)
    {
      hide Accepted, ErrorCode;
      AcceptedChain(b);
      if ClassOf(b) != ERROR {
        return false;
      }
      var code := FindErrorCode(b);
      bare := code == Some(400) || code == Some(401);
    }

    method IgnoresCredentials(b: seq<Byte>) returns (ignores: bool)
      requires Accepted(b)
      ensures ignores <==> Ignores(Model(), b)
    {
      hide Accepted, BareError;
      AcceptedChain(b);
      var bare := IsBareError(b);
      ignores := flags.ignoreCredentials || bare || (ClassOf(b) == INDICATION && flags.noIndicationAuth);
    }

    method LacksCredentials(b: seq<Byte>) returns (lacks: bool)
      requires Accepted(b)
      ensures lacks <==> Lacking(Model(), b)
    {
      hide Accepted, Fetch, FindAt;
      AcceptedChain(b);
      var username, _ := Lookup(b, USERNAME);
      var integrity, _ := Lookup(b, MESSAGE_INTEGRITY);
      var nonce, _ := Lookup(b, NONCE);
      var realm, _ := Lookup(b, REALM);
      lacks :=
        || (flags.shortTerm && (username.None? || integrity.None?))
        || (flags.longTerm && ClassOf(b) == REQUEST
            && (username.None? || integrity.None? || nonce.None? || realm.None?))
        || (!flags.ignoreCredentials && username.Some? && integrity.None?);
    }

    /** The key to check with, asking the validater where needed. */
    method ObtainKey(b: seq<Byte>, saved: Option<seq<Byte>>, validater: Validater) returns (r: KeyResult)
      requires Accepted(b)
      ensures r == CheckingKey(Model(), b, saved, validater)
    {
      hide Accepted, Fetch, FindAt, Ignores;
      var integrity, _ := Lookup(b, MESSAGE_INTEGRITY);
      var ignores := IgnoresCredentials(b);
      if integrity.Some? && ((saved.None? && !ignores) || flags.forceValidater) {
        var username, _ := Lookup(b, USERNAME);
        var key := validater(username);
        return if key.None? then Refused else Key(key);
      }
      return Key(saved);
    }

    /** Check the credentials, and record what a response needs. */
    method CheckIntegrity(b: seq<Byte>, key: Option<seq<Byte>>, saved: Option<seq<Byte>>)
      returns (ok: bool, message: Message)
      requires Accepted(b)
      ensures ok <==> IntegrityOk(Model(), crypto, b, key, saved)
      ensures ok ==> message == Received(Model(), crypto, b, key, saved)
    {
      hide Accepted, Fetch, FindAt, Ignores, BareError, LongTermKey, Mac, MacText;
      AcceptedChain(b);
      message := Message(b, None, None);
      var ignores := IgnoresCredentials(b);
      if ignores || key.None? || key.value == [] {
        ok := true;
        return;
      }
      var hash, pos := Lookup(b, MESSAGE_INTEGRITY);
      if hash.None? {
        ok := IsBareError(b);
        return;
      }
      var signing := key;
      if flags.longTerm {
        signing := saved;
        if saved.None? {
          signing := DeriveLongTerm(b, key.value);
          if signing.None? {
            ok := false;
            return;
          }
        }
      }
      message := Message(b, key, if flags.longTerm then signing else None);
      if pos + 20 > |b| {
        ok := false;
        return;
      }
      var fake := if compat == Wlm2009 then |b| - 20 else pos;
      ok := b[pos..pos + 20] == Mac(crypto, signing.value, MacText(compat, b, pos + 20, fake));
    }

    /** Check a received message; a matched transaction is closed if all is well. */
    method ValidateMessage(b: seq<Byte>, validater: Validater) returns (status: Status, message: Option<Message>)
      modifies sent
      ensures Validation(Model(), status, message) == Validate(old(Model()), crypto, b, validater)
    {
      hide Accepted, Form, Ignores, Lacking, CheckingKey, IntegrityOk, Received, ClassOf, MethodOf, IdOf, Visible,
        Unknowns, FirstSlot;
      message := None;
      status := CheckForm(b);
      if status != Success {
        return;
      }
      AcceptedChain(b);
      var isReply := ClassOf(b) == RESPONSE || ClassOf(b) == ERROR;
      var slot := sent.Length;
      if isReply {
        slot := FindAwaiting(b);
        if slot == sent.Length {
          status := UnmatchedResponse;
          return;
        }
      }
      var saved := if slot < sent.Length then sent[slot].key else None;
      var longTerm := if slot < sent.Length then sent[slot].longTerm else None;
      var ignores := IgnoresCredentials(b);
      if saved.None? && !ignores && !isReply {
        var lacks := LacksCredentials(b);
        if lacks {
          status := UnauthorizedBadRequest;
          return;
        }
      }
      var obtained := ObtainKey(b, saved, validater);
      if obtained.Refused? {
        status := Unauthorized;
        return;
      }
      var ok, record := CheckIntegrity(b, obtained.key, longTerm);
      if !ok {
        status := Unauthorized;
        return;
      }
      if slot < sent.Length {
        sent[slot] := sent[slot].(valid := false);
      }
      message := Some(record);
      var unknown, _ := FindUnknowns(b, known, 1);
      status := if |unknown| == 0 then Success
      else if ClassOf(b) == REQUEST then UnknownRequestAttribute
      else UnknownAttribute;
    }
  }

  lemma FakeIs(a: Agent, len: nat, fake: int)
    requires len >= 44 && fake == if a.compat == Wlm2009 && a.flags.fingerprint then len - 12 else len - 20
    ensures fake == FakeLength(a, len)
  {
  }

  /** Overwriting the end of a message leaves its length field alone. */
  lemma LengthStays(before: seq<Byte>, v: seq<Byte>, after: seq<Byte>)
    requires |before| == |after| >= HEADER && HEADER + |v| <= Length(before) <= |before|
    requires after[..Length(before)] == before[..Length(before) - |v|] + v
    ensures Length(after) == Length(before)
  {
    var n := Length(before);
    assert after[2] == after[..n][2] == before[2] && after[3] == after[..n][3] == before[3];
  }
}
