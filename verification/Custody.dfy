/** `bridge/custody.go`: a resource key that lives exactly as long as a custody
    callback, and values sealed with it. Operations on any copies of a cipher
    serialise on one mutex, so a schedule is a sequence of operations. */
module Custody {
  import opened Words
  import opened Protocol
  import B = Base64Url

  const MAX_SAFE := 0x1F_FFFF_FFFF_FFFF
  const VALUE_FORMAT := "lotor.resource-value.v1"

  datatype Binding = Binding(
    scope: Scope,
    clientID: string,
    resource: string,
    slot: string,
    keyResource: string,
    custodyOwner: string,
    keyVersion: int,
    resourceRevision: int,
    lifecycleGeneration: int,
    payloadVersion: int,
    objectDigest: string,
    invocationID: string,
    bindingID: string,
    bindingRevision: int,
    principal: string,
    policyDigest: string,
    expiresAt: int)

  datatype Context = Context(binding: Binding, path: Bytes)

  datatype ResourceValue = ResourceValue(format: string, context: Context, nonce: Bytes, ciphertext: Bytes)

  /** AES-256-GCM, the UTF-8 check and the JSON text of the associated data. */
  datatype Crypto = Crypto(
    seal: (Bytes, Bytes, Bytes, Bytes) -> Bytes,
    open: (Bytes, Bytes, Bytes, Bytes) -> Option<Bytes>,
    utf8: Bytes -> bool,
    contextText: Context -> Bytes)

  /** What is assumed of them: opening undoes sealing, the tag takes 16 bytes,
      and the JSON text of a valid context determines the context. */
  ghost predicate Sound(k: Crypto) {
    && (forall key, n, p, a :: k.open(key, n, k.seal(key, n, p, a), a) == Some(p))
    && (forall key, n, p, a :: |k.seal(key, n, p, a)| == |p| + 16)
    && (forall c, d :: ValidContext(k, c) && ValidContext(k, d) && k.contextText(c) == k.contextText(d) ==> c == d)
  }

  predicate Within(n: int) {
    0 < n <= MAX_SAFE
  }

  predicate ValidBinding(b: Binding) {
    && ValidScope(b.scope) && Identifier(b.clientID, 256) && Identifier(b.resource, 256) && Identifier(b.slot, 128)
    && Identifier(b.keyResource, 256) && IsDigest(b.custodyOwner) && Identifier(b.invocationID, 256)
    && Identifier(b.bindingID, 256) && Identifier(b.principal, 256)
    && Within(b.keyVersion) && Within(b.resourceRevision) && Within(b.lifecycleGeneration)
    && Within(b.payloadVersion) && Within(b.bindingRevision) && Within(b.expiresAt)
    && IsDigest(b.objectDigest) && (b.policyDigest == "" || IsDigest(b.policyDigest))
  }

  /** The invocation found in a call's context, and whether it is still live. */
  datatype Caller = Caller(live: bool, grant: Option<Authorization>, now: int)

  predicate MatchesInvocation(b: Binding, c: Caller) {
    && c.live && c.grant.Some?
    && var g := c.grant.value;
       && g.kind == "invocation" && g.scope == b.scope && g.id == b.invocationID && g.bindingID == b.bindingID
       && g.bindingRevision == b.bindingRevision && g.principal == b.principal && g.policyDigest == b.policyDigest
       && g.expiresAt == b.expiresAt && g.expiresAt > c.now
       && b.resource in g.resources && "payload.read" in g.capabilities && "custody.use" in g.capabilities
  }

  /** Who may use a key: the caller's context is alive and carries an invocation
      whose grant has not expired, lists the resource and both capabilities, and
      is the very one the key was bound to. */
  ghost predicate Entitled(b: Binding, c: Caller) {
    && c.live && c.grant.Some?
    && var g := c.grant.value;
       && g.kind == "invocation" && c.now < g.expiresAt
       && b.resource in g.resources && "payload.read" in g.capabilities && "custody.use" in g.capabilities
       && (g.scope, g.id, g.bindingID, g.bindingRevision, g.principal, g.policyDigest, g.expiresAt)
          == (b.scope, b.invocationID, b.bindingID, b.bindingRevision, b.principal, b.policyDigest, b.expiresAt)
  }

  lemma MatchesExact(b: Binding, c: Caller)
    ensures MatchesInvocation(b, c) <==> Entitled(b, c)
  {
  }

  predicate ValidContext(k: Crypto, c: Context) {
    && ValidBinding(c.binding) && IsDigest(c.binding.policyDigest) && 0 < |c.path| <= 1024 && k.utf8(c.path)
    && 0 !in c.path && 13 !in c.path && 10 !in c.path
  }

  /** The associated data of a value, or nothing for an invalid context. */
  function AssociatedData(k: Crypto, c: Context): Option<Bytes> {
    if ValidContext(k, c) then Some(k.contextText(c)) else None
  }

  datatype Answer = Value(value: ResourceValue) | Unauthorized | Invalid | Unavailable

  /** One `EncryptValue`; `nonce` is what the random source returned. */
  datatype Operation = Operation(caller: Caller, path: Bytes, plaintext: Bytes, nonce: Option<Bytes>)

  function Seal(k: Crypto, key: Bytes, b: Binding, op: Operation): Answer {
    var context := Context(b, op.path);
    var aad := AssociatedData(k, context);
    if aad.None? || |op.plaintext| > MAX_INPUT then Invalid
    else if op.nonce.None? || |op.nonce.value| != 12 then Unavailable
    else
      Value(ResourceValue(VALUE_FORMAT, context, B.Encode(op.nonce.value),
                          B.Encode(k.seal(key, op.nonce.value, op.plaintext, aad.value))))
  }

  /** `DecryptResourceValue`. */
  function Decrypt(k: Crypto, key: Bytes, v: ResourceValue, expected: Context): Option<Bytes> {
    if v.format != VALUE_FORMAT || v.context != expected || |v.nonce| != 16
       || |v.ciphertext| > B.EncodedLength(MAX_INPUT + 16) then None
    else
      var aad := AssociatedData(k, expected);
      if aad.None? || |key| != 32 then None
      else
        var nonce, ciphertext := B.ByAlphabet(v.nonce), B.ByAlphabet(v.ciphertext);
        if nonce.None? || |nonce.value| != 12 || ciphertext.None? then None
        else k.open(key, nonce.value, ciphertext.value, aad.value)
  }

  /** Every value sealed under a 32-byte key opens to the same plaintext under
      its own context. */
  lemma SealedOpens(k: Crypto, key: Bytes, b: Binding, op: Operation)
    requires Sound(k) && |key| == 32 && Seal(k, key, b, op).Value?
    ensures var v := Seal(k, key, b, op).value; Decrypt(k, key, v, v.context) == Some(op.plaintext)
  {
    hide B.Encode, B.ByAlphabet, B.Decode, B.EncodedLength, ValidContext;
    var aad := AssociatedData(k, Context(b, op.path)).value;
    var sealed := k.seal(key, op.nonce.value, op.plaintext, aad);
    Canonical(op.nonce.value);
    Canonical(sealed);
    B.EncodedLengthIs(op.nonce.value);
    B.EncodedLengthIs(sealed);
    B.LengthMonotone(|sealed|, MAX_INPUT + 16);
    NonceLength();
  }

  lemma NonceLength()
    ensures B.EncodedLength(12) == 16
  {
  }

  lemma Canonical(b: Bytes)
    ensures B.ByAlphabet(B.Encode(b)) == Some(b)
  {
    hide B.Decode, B.Encode;
    B.RoundTrip(true, b);
  }

  /** `seal` produced a text for one piece of associated data that `open`
      accepts for another: a forgery against AES-GCM. */
  ghost predicate Forgery(k: Crypto, key: Bytes, n: Bytes, p: Bytes, a: Bytes, a': Bytes) {
    a != a' && k.open(key, n, k.seal(key, n, p, a), a').Some?
  }

  /** A value is rejected under any context but its own. Relabelling it with
      the expected context does not help: accepting it then would be a forgery
      against the cipher. */
  lemma RejectedElsewhere(k: Crypto, key: Bytes, b: Binding, op: Operation, other: Context)
    requires Sound(k) && |key| == 32 && Seal(k, key, b, op).Value? && other != Context(b, op.path)
    ensures var v := Seal(k, key, b, op).value;
      && Decrypt(k, key, v, other) == None
      && (Decrypt(k, key, v.(context := other), other).Some? ==>
           Forgery(k, key, op.nonce.value, op.plaintext, k.contextText(v.context), k.contextText(other)))
  {
    hide B.Encode, B.ByAlphabet, B.Decode, B.EncodedLength, ValidContext;
    var aad := AssociatedData(k, Context(b, op.path)).value;
    Canonical(op.nonce.value);
    Canonical(k.seal(key, op.nonce.value, op.plaintext, aad));
    assert ValidContext(k, other) ==> k.contextText(other) != k.contextText(Context(b, op.path));
  }

  lemma SealMeans(k: Crypto, key: Bytes, b: Binding, op: Operation)
    requires |key| == 32 && Seal(k, key, b, op).Value?
    ensures var v := Seal(k, key, b, op).value;
      Sound(k) ==>
        && Decrypt(k, key, v, Context(b, op.path)) == Some(op.plaintext)
        && forall other :: other != Context(b, op.path) ==> Decrypt(k, key, v, other) == None
  {
    hide Seal, Decrypt, Sound;
    if Sound(k) {
      SealedOpens(k, key, b, op);
      SealContext(k, key, b, op);
      forall other | other != Context(b, op.path) ensures Decrypt(k, key, Seal(k, key, b, op).value, other) == None {
        RejectedElsewhere(k, key, b, op, other);
      }
    }
  }

  lemma SealContext(k: Crypto, key: Bytes, b: Binding, op: Operation)
    requires Seal(k, key, b, op).Value?
    ensures Seal(k, key, b, op).value.context == Context(b, op.path)
  {
    hide B.Encode;
  }

  /** Decryption succeeds if and only if the value has the format and the
      expected, valid context, nonce and ciphertext are the canonical spellings
      of twelve bytes and of a text within the limit, and the cipher opens it. */
  lemma DecryptExact(k: Crypto, key: Bytes, v: ResourceValue, expected: Context, p: Bytes)
    ensures Decrypt(k, key, v, expected) == Some(p) <==>
      exists nonce, text ::
        && v.format == "lotor.resource-value.v1" && v.context == expected && ValidContext(k, expected) && |key| == 32
        && v.nonce == B.Encode(nonce) && |nonce| == 12
        && v.ciphertext == B.Encode(text) && |text| <= 0x40_0010
        && k.open(key, nonce, text, k.contextText(expected)) == Some(p)
  {
    hide B.Encode, B.ByAlphabet, B.Decode, B.EncodedLength, ValidContext;
    if Decrypt(k, key, v, expected) == Some(p) {
      var nonce, text := B.ByAlphabet(v.nonce).value, B.ByAlphabet(v.ciphertext).value;
      B.StrictIsCanonical(v.nonce);
      B.StrictIsCanonical(v.ciphertext);
      B.EncodedLengthIs(text);
      LengthReflects(|text|, MAX_INPUT + 16);
    }
    forall nonce, text |
      && v.format == "lotor.resource-value.v1" && v.context == expected && ValidContext(k, expected) && |key| == 32
      && v.nonce == B.Encode(nonce) && |nonce| == 12
      && v.ciphertext == B.Encode(text) && |text| <= 0x40_0010
      && k.open(key, nonce, text, k.contextText(expected)) == Some(p)
      ensures Decrypt(k, key, v, expected) == Some(p)
    {
      Canonical(nonce);
      Canonical(text);
      B.EncodedLengthIs(nonce);
      B.EncodedLengthIs(text);
      B.LengthMonotone(|text|, MAX_INPUT + 16);
      NonceLength();
    }
  }

  lemma LengthReflects(m: nat, n: nat)
    requires B.EncodedLength(m) <= B.EncodedLength(n)
    ensures m <= n
  {
  }

  // ---- lifetime ----

  /** The state all copies of a cipher share. `present` is `key != nil`. */
  class KeyState {
    const buffer: array<byte>
    var present: bool

    /** Copies the provider's key; the provider keeps its own buffer. */
    constructor (provider: array<byte>)
      ensures fresh(buffer) && buffer[..] == provider[..] && present
    {
      var copy := new byte[provider.Length](i requires 0 <= i < provider.Length reads provider => provider[i]);
      buffer, present := copy, true;
      new;
      assert buffer[..] == provider[..];
    }

    /** One locked operation through any copy of the cipher. */
    method EncryptValue(k: Crypto, b: Binding, op: Operation) returns (r: Answer)
      ensures r == Unauthorized <==> !present || buffer.Length != 32 || !MatchesInvocation(b, op.caller)
      ensures r != Unauthorized ==> Entitled(b, op.caller)
      ensures r == Invalid ==> !ValidContext(k, Context(b, op.path)) || |op.plaintext| > MAX_INPUT
      ensures r == Unavailable ==> op.nonce.None? || |op.nonce.value| != 12
      ensures r != Unauthorized ==> r == Seal(k, buffer[..], b, op)
      ensures r.Value? && Sound(k) ==> Decrypt(k, buffer[..], r.value, Context(b, op.path)) == Some(op.plaintext)
      ensures r.Value? && Sound(k) ==>
        forall other :: other != Context(b, op.path) ==> Decrypt(k, buffer[..], r.value, other) == None
    {
      MatchesExact(b, op.caller);
      if !present || buffer.Length != 32 || !MatchesInvocation(b, op.caller) {
        return Unauthorized;
      }
      r := Seal(k, buffer[..], b, op);
      if r.Value? {
        SealMeans(k, buffer[..], b, op);
      }
    }

    /** The deferred cleanup: zero the buffer, then drop it. */
    method Clear()
      modifies this, buffer
      ensures !present && forall i :: 0 <= i < buffer.Length ==> buffer[i] == 0
    {
      var i := 0;
      while i < buffer.Length
        invariant 0 <= i <= buffer.Length
        invariant forall j :: 0 <= j < i ==> buffer[j] == 0
        modifies buffer
      {
        buffer[i] := 0;
        i := i + 1;
      }
      present := false;
    }
  }

  method RunAll(state: KeyState, k: Crypto, b: Binding, ops: seq<Operation>) returns (answers: seq<Answer>)
    ensures |answers| == |ops|
    ensures forall i :: 0 <= i < |ops| ==>
      answers[i] == if !state.present || state.buffer.Length != 32 || !MatchesInvocation(b, ops[i].caller)
                    then Unauthorized else Seal(k, state.buffer[..], b, ops[i])
  {
    answers := [];
    while |answers| < |ops|
      invariant |answers| <= |ops|
      invariant forall i :: 0 <= i < |answers| ==>
        answers[i] == if !state.present || state.buffer.Length != 32 || !MatchesInvocation(b, ops[i].caller)
                      then Unauthorized else Seal(k, state.buffer[..], b, ops[i])
    {
      var r := state.EncryptValue(k, b, ops[|answers|]);
      answers := answers + [r];
    }
  }

  /** `WithResourceKey`: `during` is every operation on any copy of the cipher
      that gets the lock before the deferred cleanup, `later` every one that
      gets it afterwards; the callback may return, fail or panic. */
  method WithResourceKey(k: Crypto, caller: Caller, b: Binding, provider: array<byte>,
                         during: seq<Operation>, later: seq<Operation>)
    returns (admitted: bool, inTime: seq<Answer>, tooLate: seq<Answer>, state: KeyState?)
    ensures admitted <==> provider.Length == 32 && ValidBinding(b) && MatchesInvocation(b, caller)
    ensures admitted ==> Entitled(b, caller)
    ensures provider[..] == old(provider[..])
    ensures admitted ==> |inTime| == |during| && |tooLate| == |later|
    ensures admitted ==> forall i :: 0 <= i < |during| ==>
      inTime[i] == if MatchesInvocation(b, during[i].caller) then Seal(k, provider[..], b, during[i]) else Unauthorized
    ensures admitted && Sound(k) ==> forall i :: 0 <= i < |during| && inTime[i].Value? ==>
      && inTime[i].value.context == Context(b, during[i].path)
      && Decrypt(k, provider[..], inTime[i].value, inTime[i].value.context) == Some(during[i].plaintext)
    ensures admitted ==> forall i :: 0 <= i < |later| ==> tooLate[i] == Unauthorized
    ensures admitted ==> state != null && fresh(state.buffer) && !state.present
                         && forall i :: 0 <= i < state.buffer.Length ==> state.buffer[i] == 0
    ensures !admitted ==> state == null
  {
    MatchesExact(b, caller);
    inTime, tooLate, state := [], [], null;
    admitted := provider.Length == 32 && ValidBinding(b) && MatchesInvocation(b, caller);
    if admitted {
      var shared := new KeyState(provider);
      assert shared.buffer.Length == |shared.buffer[..]| == |provider[..]| == 32;
      inTime := RunAll(shared, k, b, during);
      forall i | 0 <= i < |during| && inTime[i].Value? && Sound(k)
        ensures inTime[i].value.context == Context(b, during[i].path)
        ensures Decrypt(k, provider[..], inTime[i].value, inTime[i].value.context) == Some(during[i].plaintext)
      {
        SealMeans(k, provider[..], b, during[i]);
        SealContext(k, provider[..], b, during[i]);
      }
      shared.Clear();
      tooLate := RunAll(shared, k, b, later);
      state := shared;
    }
  }
}
