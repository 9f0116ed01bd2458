/** The size limits fit together: whatever passes one of them passes every later
    one. Base64 grows a text by a third, JSON escapes grow a string at most
    sixfold, and a grant travels inside a proof that is itself signed. */
module SizeBudget {
  import opened Words
  import opened Protocol
  import opened Execution
  import opened ExecutionSafety
  import opened ExecutionSteps
  import opened ExecutionRuns
  import opened Messages
  import opened JsonText
  import B = Base64Url
  import M = Manifest

  // ---- signing ----

  /** `sign`, given the 64-byte signature the key produces. */
  function Sign(raw: Bytes, keyID: string, signature: Bytes): Option<SignedMessage> {
    if !Identifier(keyID, 256) || |raw| > MAX_BODY / 2 then None
    else Some(SignedMessage(keyID, B.Encode(raw), B.Encode(signature)))
  }

  /** The size checks of `verify`. */
  predicate WithinVerify(m: SignedMessage) {
    Identifier(m.keyID, 256) && |m.signature| == B.EncodedLength(64) && |m.payload| <= B.EncodedLength(MAX_BODY / 2)
  }

  /** The authorization `SignAuthorization` puts on the wire: its input made
      canonical and the input digest recomputed. */
  function Sent(w: World, v: Authorization): Option<Authorization> {
    if v.input == [] then Some(v)
    else if |v.input| > MAX_INPUT || v.inputDigest != w.digest(v.input) then None
    else if w.compact(v.input).None? || |w.compact(v.input).value| > MAX_INPUT then None
    else
      var compact := w.compact(v.input).value;
      Some(v.(input := compact, inputDigest := w.digest(compact)))
  }

  function SignAuthorization(w: World, v: Authorization, keyID: string, signature: Bytes): Option<SignedMessage> {
    var a := Sent(w, v);
    if a.None? then None else Sign(w.marshalAuthorization(a.value), keyID, signature)
  }

  // ---- lengths of members ----

  lemma TextFits(name: string, value: string, m: nat)
    requires |value| <= m
    ensures |NonEmptyText(name, value)| <= |Text(name, value)| <= |name| + 6 * m + 6
  {
    QuoteGrowth(Latin(value));
  }

  lemma NumberFits(name: string, n: int64)
    ensures |Number(name, n)| <= |name| + 24
  {
    DecimalFits(n);
  }

  lemma {:induction false} ElementsFit(items: seq<string>)
    requires forall x :: x in items ==> |x| <= 256
    ensures |Elements(items)| <= 1539 * |items|
  {
    if items != [] {
      QuoteGrowth(Latin(items[0]));
      ElementsFit(items[1..]);
    }
  }

  lemma ListFits(name: string, items: seq<string>)
    requires forall x :: x in items ==> |x| <= 256
    ensures |NonEmptyList(name, items)| <= |name| + 5 + 1539 * |items|
  {
    ElementsFit(items);
  }

  /** The length bounds an accepted authorization meets. */
  ghost predicate SmallParty(a: Authorization) {
    && (a.function_.Some? ==> var f := a.function_.value;
         |f.name| <= 128 && |f.version| <= 128 && |f.inputSchema| <= 64 && |f.outputSchema| <= 64)
    && |a.scope.tenantID| <= 256 && |a.scope.applicationID| <= 256
    && |a.scope.environmentID| <= 256 && |a.scope.ownerResource| <= 256
    && |a.kind| <= 10 && |a.issuer| <= 256 && |a.audience| <= 256 && |a.bindingID| <= 256
  }

  ghost predicate SmallOperands(a: Authorization) {
    && |a.policyDigest| <= 64 && |a.manifestDigest| <= 64 && |a.inputDigest| <= 64
    && |a.id| <= 256 && |a.nonce| <= 256 && |a.principal| <= 256
  }

  ghost predicate SmallLists(a: Authorization) {
    && |a.resources| <= 128 && (forall x :: x in a.resources ==> |x| <= 256)
    && |a.capabilities| <= 64 && (forall x :: x in a.capabilities ==> |x| <= 256)
    && |a.input| <= MAX_INPUT
  }

  ghost predicate Small(a: Authorization) {
    SmallParty(a) && SmallOperands(a) && SmallLists(a)
  }

  lemma FunctionFits(f: Function)
    requires |f.name| <= 128 && |f.version| <= 128 && |f.inputSchema| <= 64 && |f.outputSchema| <= 64
    ensures |FunctionText(f)| <= 2400
  {
    hide Text;
    TextFits("name", f.name, 128);
    TextFits("version", f.version, 128);
    TextFits("input_schema_digest", f.inputSchema, 64);
    TextFits("output_schema_digest", f.outputSchema, 64);
  }

  lemma ScopeFits(s: Scope)
    requires |s.tenantID| <= 256 && |s.applicationID| <= 256 && |s.environmentID| <= 256 && |s.ownerResource| <= 256
    ensures |ScopeText(s)| <= 6300
  {
    hide Text;
    TextFits("tenant_id", s.tenantID, 256);
    TextFits("application_id", s.applicationID, 256);
    TextFits("environment_id", s.environmentID, 256);
    TextFits("owner_resource", s.ownerResource, 256);
  }

  lemma PartyFits(a: Authorization)
    requires SmallParty(a)
    ensures |Party(a)| <= 13500
  {
    hide Text, FunctionText, ScopeText, Member;
    if a.function_.Some? {
      FunctionFits(a.function_.value);
    }
    ScopeFits(a.scope);
    TextFits("kind", a.kind, 10);
    TextFits("issuer", a.issuer, 256);
    TextFits("audience", a.audience, 256);
    TextFits("binding_id", a.bindingID, 256);
  }

  lemma OperandsFit(a: Authorization)
    requires SmallOperands(a)
    ensures 0 < |Operands(a)| <= 6000 && |Times(a)| <= 200
  {
    hide Text, NonEmptyText, Number;
    TextFits("policy_digest", a.policyDigest, 64);
    TextFits("manifest_digest", a.manifestDigest, 64);
    TextFits("input_digest", a.inputDigest, 64);
    TextFits("id", a.id, 256);
    TextFits("nonce", a.nonce, 256);
    TextFits("principal", a.principal, 256);
    TextNonEmpty("id", a.id);
    NumberFits("expires_at", a.expiresAt);
    NumberFits("issued_at", a.issuedAt);
    NumberFits("protocol_version", a.protocolVersion);
    NumberFits("binding_revision", a.bindingRevision);
  }

  lemma TextNonEmpty(name: string, value: string)
    ensures |Text(name, value)| > 0
  {
  }

  /** An accepted authorization is at most about 4.5 million bytes of JSON. */
  lemma AuthorizationFits(a: Authorization)
    requires Small(a)
    ensures |AuthorizationText(a)| <= MAX_INPUT + 320_000
  {
    hide Party, Operands, Times, NonEmptyList, SmallParty, SmallOperands;
    PartyFits(a);
    OperandsFit(a);
    ListFits("resources", a.resources);
    ListFits("capabilities", a.capabilities);
  }

  // ---- wrapping ----

  /** Exact lengths of a signed message and of the two runtime proofs. */
  lemma SignedLength(m: SignedMessage)
    requires B.AllLetters(m.payload) && B.AllLetters(m.signature) && |m.signature| == 86
    ensures |SignedText(m)| == |Quote(Latin(m.keyID))| + |m.payload| + 125
    ensures |ValidationText(m)| == |SignedText(m)| + 18
  {
    hide Quote, Latin, B.AllLetters;
    QuotePlain(m.payload);
    QuotePlain(m.signature);
  }

  lemma SignedShape(raw: Bytes, keyID: string, signature: Bytes)
    requires Sign(raw, keyID, signature).Some? && |signature| == 64
    ensures var m := Sign(raw, keyID, signature).value;
      && |m.payload| == B.EncodedLength(|raw|) && WithinVerify(m)
      && |SignedText(m)| == |Quote(Latin(keyID))| + B.EncodedLength(|raw|) + 125
      && |ValidationText(m)| == |Quote(Latin(keyID))| + B.EncodedLength(|raw|) + 143
      && |Quote(Latin(keyID))| <= 1538
  {
    hide B.EncodedLength, B.Encode, B.AllLetters, Quote, SignedText, ValidationText;
    SignatureLength();
    B.EncodedLengthIs(raw);
    B.EncodedLengthIs(signature);
    B.RoundTrip(true, raw);
    B.RoundTrip(true, signature);
    B.LengthMonotone(|raw|, MAX_BODY / 2);
    QuoteGrowth(Latin(keyID));
    SignedLength(Sign(raw, keyID, signature).value);
  }

  lemma SignatureLength()
    ensures B.EncodedLength(64) == 86
  {
  }

  /** Whatever can be signed can be sent: it passes `verify`'s size checks and
      its text is under the body limit. */
  lemma SignedFits(raw: Bytes, keyID: string, signature: Bytes)
    requires Sign(raw, keyID, signature).Some? && |signature| == 64
    ensures var m := Sign(raw, keyID, signature).value; WithinVerify(m) && |SignedText(m)| <= MAX_BODY
  {
    hide B.Encode, Quote, SignedText, ValidationText, WithinVerify;
    SignedShape(raw, keyID, signature);
  }

  /** When a signed grant can be wrapped in a validation proof, exactly. */
  lemma WrapExact(raw: Bytes, keyID: string, signature: Bytes, proofKey: string, proof: Bytes)
    requires Sign(raw, keyID, signature).Some? && |signature| == 64 && Identifier(proofKey, 256)
    ensures Sign(ValidationText(Sign(raw, keyID, signature).value), proofKey, proof).Some?
       <==> B.EncodedLength(|raw|) + |Quote(Latin(keyID))| + 143 <= MAX_BODY / 2
  {
    hide B.Encode, B.EncodedLength, Quote, SignedText, ValidationText, WithinVerify;
    SignedShape(raw, keyID, signature);
  }

  /** The limits on a grant alone are not enough: a grant of half the body limit,
      padded with blanks by a signer other than `SignAuthorization`, passes
      every size check of `verify` and cannot be wrapped. */
  lemma LargestGrantDoesNotWrap(raw: Bytes, keyID: string, signature: Bytes, proofKey: string, proof: Bytes)
    requires |raw| == MAX_BODY / 2 && Identifier(keyID, 256) && |signature| == 64 && Identifier(proofKey, 256)
    ensures Sign(raw, keyID, signature).Some? && WithinVerify(Sign(raw, keyID, signature).value)
    ensures Sign(ValidationText(Sign(raw, keyID, signature).value), proofKey, proof).None?
  {
    hide B.Encode, Quote, SignedText, ValidationText, WithinVerify;
    SignedShape(raw, keyID, signature);
    WrapExact(raw, keyID, signature, proofKey, proof);
  }

  // ---- grants ----

  lemma AcceptedParty(cfg: Config, a: Authorization)
    requires WellConfigured(cfg) && a.scope == cfg.scope && a.issuer == cfg.issuer && a.audience == cfg.audience
    requires a.bindingID == cfg.bindingID && (a.kind == "invocation" || a.kind == "challenge")
    requires a.function_.Some? ==> a.function_.value in cfg.functions
    ensures SmallParty(a)
  {
    hide Printable;
    if a.function_.Some? {
      assert M.WellFormed(a.function_.value);
    }
  }

  /** What passes `validAuthorization` is printable and small. */
  lemma AcceptedIsSmall(w: World, cfg: Config, a: Authorization)
    requires Lawful(w) && WellConfigured(cfg) && Accepted(w, cfg, a)
    ensures Small(a) && Readable(a)
  {
    hide Lawful, Printable, IsDigest, SmallParty, Readable;
    AcceptedIsReadable(w, cfg, a);
    AcceptedParty(cfg, a);
    DigestLength(a.manifestDigest);
    HashIsHex(w, a.input);
    DigestLength(w.digest(a.input));
    if a.policyDigest != "" && a.kind == "invocation" {
      DigestLength(a.policyDigest);
    }
  }

  /** The journal identity of an accepted grant is one the store takes. */
  lemma IdentityFits(w: World, a: Authorization)
    requires Lawful(w) && |a.bindingID| <= 256 && |a.id| <= 256 && Printable(a.bindingID) && Printable(a.id)
    ensures ValidIdentity(Identity(a), SemanticDigest(w, a))
  {
    hide Lawful, IsDigest, SemanticText;
    HashIsHex(w, SemanticText(w, a));
    assert Printable(":");
  }

  lemma SentIsClean(w: World, v: Authorization)
    requires Lawful(w) && Sent(w, v).Some?
    ensures Clean(w, Sent(w, v).value.input)
  {
    hide Proper, AuthorizationText, ResultText, Readable, IsDigest;
  }

  lemma ResourceLength(m: SignedMessage, resource: string, slot: string, version: int64, useCustody: bool)
    requires Identifier(resource, 256) && Identifier(slot, 128) && version >= 1
    ensures |ResourceText(m, resource, slot, version, useCustody)| <= |SignedText(m)| + 2500
  {
    hide SignedText, Text, Number;
    TextFits("resource", resource, 256);
    TextFits("slot", slot, 128);
    NumberFits("payload_version", version);
  }

  /** A grant text of at most about 4.5 million bytes leaves room for both
      runtime proofs. */
  lemma GrantWraps(raw: Bytes, keyID: string, signature: Bytes, proofKey: string, proof: Bytes,
                   resource: string, slot: string, version: int64, useCustody: bool)
    requires Sign(raw, keyID, signature).Some? && |raw| <= MAX_INPUT + 320_000 && |signature| == 64 && |proof| == 64
    requires Identifier(proofKey, 256) && Identifier(resource, 256) && Identifier(slot, 128) && version >= 1
    ensures var grant := Sign(raw, keyID, signature).value;
      BothProofsFit(grant, proofKey, proof, resource, slot, version, useCustody)
  {
    hide B.Encode, Quote, SignedText, ValidationText, ResourceText, WithinVerify, Identifier;
    var grant := Sign(raw, keyID, signature).value;
    SignedShape(raw, keyID, signature);
    B.LengthMonotone(|raw|, MAX_INPUT + 320_000);
    ResourceLength(grant, resource, slot, version, useCustody);
    SignedFits(ValidationText(grant), proofKey, proof);
    SignedFits(ResourceText(grant, resource, slot, version, useCustody), proofKey, proof);
  }

  /** Both runtime proofs of a grant can be signed and sent. */
  predicate BothProofsFit(grant: SignedMessage, proofKey: string, proof: Bytes,
                          resource: string, slot: string, version: int64, useCustody: bool) {
    var validation := Sign(ValidationText(grant), proofKey, proof);
    var access := Sign(ResourceText(grant, resource, slot, version, useCustody), proofKey, proof);
    && validation.Some? && |SignedText(validation.value)| <= MAX_BODY
    && access.Some? && |SignedText(access.value)| <= MAX_BODY
  }

  lemma MarshalledFits(w: World, a: Authorization)
    requires Lawful(w) && Small(a) && Readable(a) && Clean(w, a.input)
    ensures |w.marshalAuthorization(a)| <= MAX_INPUT + 320_000
  {
    hide Lawful, AuthorizationText, Small, Readable;
    Marshalled(w, a);
    assert a.(input := Canonical(w, a.input)) == a;
    AuthorizationFits(a);
  }

  /** Every grant `SignAuthorization` makes and the runtime accepts can be sent,
      wrapped in both runtime proofs and sent again, and has a journal identity
      within the store's bounds. */
  lemma BudgetCloses(w: World, cfg: Config, v: Authorization, keyID: string, signature: Bytes,
                     challengePath: bool, now: int64, proofKey: string, proof: Bytes,
                     resource: string, slot: string, version: int64, useCustody: bool)
    requires Lawful(w) && WellConfigured(cfg) && |signature| == 64 && |proof| == 64
    requires SignAuthorization(w, v, keyID, signature).Some?
    requires ValidAuthorization(w, cfg, Sent(w, v).value, challengePath, now)
    requires Identifier(proofKey, 256) && Identifier(resource, 256) && Identifier(slot, 128) && version >= 1
    ensures var grant := SignAuthorization(w, v, keyID, signature).value;
      && WithinVerify(grant) && |SignedText(grant)| <= MAX_BODY
      && BothProofsFit(grant, proofKey, proof, resource, slot, version, useCustody)
    ensures ValidIdentity(Identity(Sent(w, v).value), SemanticDigest(w, Sent(w, v).value))
  {
    hide Lawful, WellConfigured, ValidAuthorization, Identity, SemanticDigest, ValidIdentity, Identifier, Sent,
         BothProofsFit, SignedText, WithinVerify, Canonical, Small, Readable, B.Encode;
    var a := Sent(w, v).value;
    var raw := w.marshalAuthorization(a);
    assert Accepted(w, cfg, a);
    AcceptedIsSmall(w, cfg, a);
    SentIsClean(w, v);
    MarshalledFits(w, a);
    SignedFits(raw, keyID, signature);
    GrantWraps(raw, keyID, signature, proofKey, proof, resource, slot, version, useCustody);
    NamesFit(a);
    IdentityFits(w, a);
  }

  lemma NamesFit(a: Authorization)
    requires Small(a) && Readable(a)
    ensures |a.bindingID| <= 256 && |a.id| <= 256 && Printable(a.bindingID) && Printable(a.id)
  {
    hide Printable;
  }

  // ---- results, in every run ----

  /** The bounds on the fields of a result the runtime holds. */
  ghost predicate SmallResult(r: Result) {
    && |r.id| <= 256 && |r.bindingID| <= 256 && |r.manifestDigest| <= 64 && |r.authorizationDigest| <= 64
    && |r.kind| <= 10 && |r.nonce| <= 256 && |r.errorCode| <= 256 && |r.output| <= MAX_INPUT
  }

  lemma ResultTextFits(r: Result)
    requires SmallResult(r)
    ensures |ResultText(r)| <= MAX_INPUT + 10_000
  {
    hide Text, NonEmptyText, Number;
    TextFits("id", r.id, 256);
    TextFits("binding_id", r.bindingID, 256);
    TextFits("manifest_digest", r.manifestDigest, 64);
    TextFits("authorization_digest", r.authorizationDigest, 64);
    TextFits("kind", r.kind, 10);
    TextFits("nonce", r.nonce, 256);
    TextFits("error_code", r.errorCode, 256);
    TextNonEmpty("id", r.id);
    NumberFits("protocol_version", r.protocolVersion);
    NumberFits("binding_revision", r.bindingRevision);
    NumberFits("completed_at", r.completedAt);
  }

  lemma BoundIsSmall(w: World, r: Result, a: Authorization, raw: Bytes)
    requires Lawful(w) && Bound(w, r, a, raw) && Small(a) && |r.nonce| <= 256 && |r.output| <= MAX_INPUT
    requires r.errorCode == "" || r.errorCode == "outcome_unknown"
    ensures SmallResult(r)
  {
    hide Lawful, IsDigest;
    HashIsHex(w, raw);
    DigestLength(w.digest(raw));
  }

  lemma RequestIsSmall(w: World, s: State, i: nat)
    requires Lawful(w) && Inv(w, s) && i < |s.requests|
    ensures Small(s.requests[i].auth) && Readable(s.requests[i].auth) && Identifier(s.requests[i].cfg.signingKeyID, 256)
  {
    hide Lawful, Small, Readable, Identifier, AtOk, Genuine, RowOk, LateOk, SignatureOk, CallOk, EntryOk, Identity,
         SemanticDigest, Response, Accepted;
    assert RequestOk(w, s, i);
    AcceptedIsSmall(w, s.requests[i].cfg, s.requests[i].auth);
  }

  lemma BuiltIsSmall(w: World, s: State, i: nat)
    requires Lawful(w) && Inv(w, s) && i < |s.requests| && s.requests[i].built
    ensures SmallResult(s.requests[i].result)
  {
    hide Lawful, Small, Readable, Identifier, Clean, SmallResult, Admitted, AtOk,
         RowOk, LateOk, SignatureOk, CallOk, EntryOk, Identity, SemanticDigest, Bound, Response;
    var q := s.requests[i];
    assert RequestOk(w, s, i);
    RequestIsSmall(w, s, i);
    BoundIsSmall(w, q.result, q.auth, q.raw);
  }

  /** A result within the limits of the store's `Complete`. */
  ghost predicate Storable(w: World, r: Result) {
    Proper(w, r) && |r.output| <= MAX_INPUT && |ResultText(r)| <= MAX_BODY / 2
  }

  lemma BuiltIsStorable(w: World, s: State, i: nat)
    requires Lawful(w) && Inv(w, s) && i < |s.requests| && s.requests[i].built
    ensures Storable(w, s.requests[i].result)
  {
    hide Lawful, Inv, Proper, ResultText;
    BuiltIsSmall(w, s, i);
    BuiltIsProper(w, s, i);
    ResultTextFits(s.requests[i].result);
  }

  /** The journal identity of any request is one the store takes. */
  lemma RequestIdentity(w: World, s: State, i: nat)
    requires Lawful(w) && Inv(w, s) && i < |s.requests|
    ensures ValidIdentity(Identity(s.requests[i].auth), SemanticDigest(w, s.requests[i].auth))
  {
    hide Lawful, Inv, Small, Readable, ValidIdentity, Identity, SemanticDigest, Printable;
    RequestIsSmall(w, s, i);
    NamesFit(s.requests[i].auth);
    IdentityFits(w, s.requests[i].auth);
  }

  lemma HeldIsSmall(w: World, s: State, i: nat)
    requires Lawful(w) && Inv(w, s) && i < |s.requests|
    requires s.requests[i].at.Completing? || s.requests[i].at.Signing?
    ensures SmallResult(s.requests[i].result) && Proper(w, s.requests[i].result)
  {
    hide Lawful, Genuine, RowOk, LateOk, SignatureOk, CallOk, EntryOk, Accepted, WellConfigured,
         Identity, SemanticDigest, Bound, InputBound, SmallResult, Proper, Response;
    var q := s.requests[i];
    assert RequestOk(w, s, i);
    if q.built {
      BuiltIsSmall(w, s, i);
      BuiltIsProper(w, s, i);
    } else {
      AnswerIsProper(w, s, i);
      if q.auth.kind == "challenge" {
        ChallengeIsSmall(w, s, i);
      } else {
        var o := s.owner[Identity(q.auth)];
        BuiltIsSmall(w, s, o);
        RestampedIsSmall(w, s.requests[o].result, q.raw);
      }
    }
  }

  lemma ChallengeIsSmall(w: World, s: State, i: nat)
    requires Lawful(w) && Inv(w, s) && i < |s.requests|
    requires s.requests[i].at.Signing? && s.requests[i].auth.kind == "challenge"
    ensures SmallResult(s.requests[i].result)
  {
    hide Lawful, RowOk, LateOk, SignatureOk, CallOk, EntryOk, Printable, Identity, SemanticDigest, Readable,
         Bound, InputBound, SmallResult, SmallParty, SmallLists, Admitted, Response;
    var q := s.requests[i];
    assert RequestOk(w, s, i);
    RequestIsSmall(w, s, i);
    BoundIsSmall(w, q.result, q.auth, q.raw);
  }

  lemma RestampedIsSmall(w: World, r: Result, raw: Bytes)
    requires Lawful(w) && SmallResult(r)
    ensures SmallResult(r.(authorizationDigest := w.digest(raw)))
  {
    hide Lawful, IsDigest;
    HashIsHex(w, raw);
    DigestLength(w.digest(raw));
  }

  /** A result whose size no later check refuses: the store takes it, and its
      signed form can be sent under the body limit. */
  ghost predicate ResultFits(w: World, q: Request, signature: Bytes) {
    && ValidIdentity(Identity(q.auth), SemanticDigest(w, q.auth))
    && |q.result.output| <= MAX_INPUT && |w.marshalResult(q.result)| <= MAX_BODY / 2
    && Proper(w, q.result)
    && var m := Sign(w.marshalResult(q.result), q.cfg.signingKeyID, signature);
       m.Some? && WithinVerify(m.value) && |SignedText(m.value)| <= MAX_BODY
  }

  lemma HeldFits(w: World, s: State, i: nat, signature: Bytes)
    requires Lawful(w) && Inv(w, s) && i < |s.requests| && |signature| == 64
    requires s.requests[i].at.Completing? || s.requests[i].at.Signing?
    ensures ResultFits(w, s.requests[i], signature)
  {
    hide Lawful, Inv, Identifier, ValidIdentity, Identity, SemanticDigest, Small, Readable, ResultText,
         Proper, SignedText, WithinVerify, B.Encode, Printable;
    var q := s.requests[i];
    RequestIsSmall(w, s, i);
    HeldIsSmall(w, s, i);
    ResultTextFits(q.result);
    MarshalledResult(w, q.result);
    SignedFits(w.marshalResult(q.result), q.cfg.signingKeyID, signature);
    NamesFit(q.auth);
    IdentityFits(w, q.auth);
  }

  /** In every run, no result the runtime is about to store or sign is refused
      for its size, whether executed, replayed or a challenge answer. */
  lemma ResultsFit(w: World, run: seq<Label>, i: nat, signature: Bytes)
    requires Lawful(w) && After(w, run).Some?
    requires i < |After(w, run).value.requests| && |signature| == 64
    requires var at := After(w, run).value.requests[i].at; at.Completing? || at.Signing?
    ensures ResultFits(w, After(w, run).value.requests[i], signature)
  {
    hide Lawful, Inv, After, ResultFits;
    EveryRun(w, run);
    HeldFits(w, After(w, run).value, i, signature);
  }
}
