/** What every step of the execution protocol keeps. */
module ExecutionSafety {
  import opened Words
  import opened Protocol
  import opened Messages
  import opened Execution
  import M = Manifest

  // ---- the invariant ----

  /** A result that carries the identity of the grant it answers. */
  ghost predicate Bound(w: World, r: Result, a: Authorization, raw: Bytes) {
    && r.protocolVersion == PROTOCOL_VERSION && r.id == a.id && r.kind == a.kind && r.bindingID == a.bindingID
    && r.bindingRevision == a.bindingRevision && r.manifestDigest == a.manifestDigest
    && r.authorizationDigest == w.digest(raw)
  }

  /** The result variable before an outcome is filled in. */
  ghost predicate Blank(w: World, q: Request) {
    Bound(w, q.result, q.auth, q.raw) && q.result.nonce == "" && q.result.errorCode == "" && q.result.output == []
  }

  /** A built result is the canonical output of the handler this request
      entered, or the unknown outcome. */
  ghost predicate Genuine(w: World, s: State, q: Request) {
    && Bound(w, q.result, q.auth, q.raw) && q.result.nonce == ""
    && |q.result.output| <= MAX_INPUT && Clean(w, q.result.output)
    && (if q.result.errorCode == "" then
          && q.entered.Some? && q.entered.value < |s.entries|
          && s.entries[q.entered.value].returned.Some?
          && w.compact(s.entries[q.entered.value].returned.value) == Some(q.result.output)
        else q.result.errorCode == "outcome_unknown" && q.result.output == [])
  }

  /** The request that was answered Fresh for `identity` has built its result. */
  ghost predicate HasResult(s: State, identity: string) {
    identity in s.owner && s.owner[identity] < |s.requests| && s.requests[s.owner[identity]].built
  }

  ghost function OwnerOf(s: State, identity: string): Request
    requires HasResult(s, identity)
  {
    s.requests[s.owner[identity]]
  }

  /** `q` may be answered with the owner's result: same operation identity and
      same semantic digest. */
  ghost predicate Replayable(w: World, s: State, q: Request, r: Result) {
    && q.auth.kind == "invocation" && HasResult(s, Identity(q.auth))
    && r == OwnerOf(s, Identity(q.auth)).result
    && SemanticDigest(w, q.auth) == SemanticDigest(w, OwnerOf(s, Identity(q.auth)).auth)
  }

  ghost predicate Answerable(w: World, s: State, q: Request) {
    if q.auth.kind == "challenge" then
      && Bound(w, q.result, q.auth, q.raw) && q.result.nonce == q.auth.nonce
      && q.result.output == [] && q.result.errorCode == ""
    else
      q.built || (
        && HasResult(s, Identity(q.auth))
        && Replayable(w, s, q, OwnerOf(s, Identity(q.auth)).result)
        && q.result == OwnerOf(s, Identity(q.auth)).result.(authorizationDigest := w.digest(q.raw)))
  }

  /** The authorization passed `validAuthorization` at some time. */
  ghost predicate Accepted(w: World, cfg: Config, a: Authorization) {
    exists challengePath: bool, now: int64 :: ValidAuthorization(w, cfg, a, challengePath, now)
  }

  ghost predicate Admitted(w: World, q: Request) {
    && w.parseAuthorization(q.raw) == Some(q.auth)
    && WellConfigured(q.cfg) && Accepted(w, q.cfg, q.auth)
    && (q.auth.kind == "challenge" || (q.auth.kind == "invocation" && InputBound(w, q.auth) && q.auth.nonce == ""))
  }

  lemma AcceptedParty(cfg: Config, a: Authorization)
    requires WellConfigured(cfg) && a.scope == cfg.scope && a.issuer == cfg.issuer && a.audience == cfg.audience
    requires a.bindingID == cfg.bindingID && a.manifestDigest == cfg.manifestDigest
    requires a.function_.Some? ==> a.function_.value in cfg.functions
    ensures Printable(a.issuer) && Printable(a.audience) && Printable(a.bindingID) && Printable(a.manifestDigest)
    ensures (a.function_.Some? ==> ReadableFunction(a.function_.value)) && ReadableScope(a.scope)
  {
    hide Printable, IsDigest;
    DigestLength(a.manifestDigest);
    if a.function_.Some? {
      assert M.WellFormed(a.function_.value);
      DigestLength(a.function_.value.inputSchema);
      DigestLength(a.function_.value.outputSchema);
    }
  }

  /** What a runtime accepts is printable. */
  lemma AcceptedIsReadable(w: World, cfg: Config, a: Authorization)
    requires Lawful(w) && WellConfigured(cfg) && Accepted(w, cfg, a)
    ensures Readable(a)
  {
    hide Lawful, WellConfigured, Printable, IsDigest, ReadableFunction, ReadableScope;
    WordsPrintable();
    AcceptedParty(cfg, a);
    HashIsHex(w, a.input);
    DigestLength(w.digest(a.input));
    if a.policyDigest != "" && a.kind == "invocation" {
      DigestLength(a.policyDigest);
    }
  }

  ghost predicate AtOk(w: World, s: State, q: Request) {
    match q.at
    case Authorizing => !q.owns
    case Reserving => !q.owns && q.auth.kind == "invocation" && Blank(w, q)
    case Reserved(answer) =>
      && Blank(w, q)
      && (answer.Fresh? <==> q.owns)
      && (answer.Fresh? ==> q.entered.None? && !q.built)
      && (answer.Replay? ==> Replayable(w, s, q, answer.result))
    case Entering => q.owns && q.entered.None? && !q.built && Blank(w, q)
    case Running => q.owns && q.entered.Some? && !q.built && Blank(w, q)
        && q.entered.value < |s.entries| && s.entries[q.entered.value].returned.None?
    case Completing => q.built
    case Signing => Answerable(w, s, q)
    case Responded(status) => status == 200 ==> Answerable(w, s, q)
    case Gone => true
  }

  /** The signature a 200 response carries. */
  function Response(w: World, q: Request, i: nat): Signature {
    ByRuntime(q.cfg.signingKey, Signed(ForResult, w.marshalResult(q.result)), i)
  }

  ghost predicate RequestOk(w: World, s: State, i: nat)
    requires i < |s.requests|
  {
    var q := s.requests[i];
    var identity := Identity(q.auth);
    && Admitted(w, q)
    && (q.owns <==> identity in s.owner && s.owner[identity] == i)
    && (q.owns ==> q.auth.kind == "invocation" && identity in s.journal
                   && s.journal[identity].digest == SemanticDigest(w, q.auth))
    && (q.entered.Some? ==> q.owns && q.entered.value < |s.entries| && s.entries[q.entered.value].request == i)
    && (q.built ==> q.owns && Genuine(w, s, q))
    && (q.owns && (q.at.Signing? || q.at == Responded(200)) ==> s.journal[identity].result.Some?)
    && (q.at == Responded(200) ==> Response(w, q, i) in s.signatures)
    && AtOk(w, s, q)
  }

  ghost predicate EntryOk(s: State, k: nat)
    requires k < |s.entries|
  {
    var e := s.entries[k];
    && e.request < |s.requests| && s.requests[e.request].entered == Some(k)
    && e.auth == s.requests[e.request].auth
  }

  ghost predicate RowOk(w: World, s: State, identity: string)
    requires identity in s.journal
  {
    s.journal[identity].result.Some? ==>
      HasResult(s, identity) && s.journal[identity].result.value == OwnerOf(s, identity).result
  }

  ghost predicate LateOk(w: World, s: State, st: Statement) {
    st.WriteResult? ==>
      && HasResult(s, st.identity) && st.result == OwnerOf(s, st.identity).result
      && st.digest == SemanticDigest(w, OwnerOf(s, st.identity).auth)
  }

  ghost predicate SignatureOk(w: World, s: State, g: Signature) {
    match g
    case ByRuntime(key, message, i) =>
      && i < |s.requests| && s.requests[i].at == Responded(200) && s.requests[i].cfg.signingKey == key
      && message == Signed(ForResult, w.marshalResult(s.requests[i].result))
    case ByOther(key, message, purpose) =>
      if purpose.ForResult? then !Expected(s, key) else forall raw :: message != Signed(ForResult, raw)
  }

  ghost predicate CallOk(w: World, s: State, c: Call) {
    && w.parseAuthorization(c.raw) == Some(c.auth) && c.auth.kind == "invocation"
    && (c.at.Succeeded? ==>
         && c.at.via < |s.requests| && s.requests[c.at.via].at == Responded(200)
         && c.at.result == s.requests[c.at.via].result
         && VerifyResult(w, c.at.result, c.auth, c.raw) && c.at.result.errorCode == "")
  }

  ghost predicate Inv(w: World, s: State) {
    && (forall i :: 0 <= i < |s.requests| ==> RequestOk(w, s, i))
    && (forall identity :: identity in s.owner ==>
         s.owner[identity] < |s.requests| && Identity(s.requests[s.owner[identity]].auth) == identity
         && s.requests[s.owner[identity]].owns)
    && (forall k :: 0 <= k < |s.entries| ==> EntryOk(s, k))
    && (forall identity :: identity in s.journal ==> RowOk(w, s, identity))
    && (forall st :: st in s.late ==> LateOk(w, s, st))
    && (forall g :: g in s.signatures ==> SignatureOk(w, s, g))
    && (forall c :: 0 <= c < |s.calls| ==> CallOk(w, s, s.calls[c]))
  }

  // ---- what later states keep of earlier ones ----

  ghost predicate RequestKept(q: Request, q': Request) {
    && q'.cfg == q.cfg && q'.raw == q.raw && q'.auth == q.auth
    && (q.owns ==> q'.owns)
    && (q.entered.Some? ==> q'.entered == q.entered)
    && (q.built ==> q'.built && q'.result == q.result)
    && (q.at == Responded(200) ==> q' == q)
  }

  ghost predicate RowKept(r: Row, r': Row) {
    r'.digest == r.digest && (r.result.Some? ==> r'.result == r.result)
  }

  /** Nothing decided is ever undone. */
  ghost predicate Kept(s: State, s': State) {
    && |s.requests| <= |s'.requests|
    && (forall i :: 0 <= i < |s.requests| ==> RequestKept(s.requests[i], s'.requests[i]))
    && (forall x :: x in s.owner ==> x in s'.owner && s'.owner[x] == s.owner[x])
    && (forall x :: x in s.journal ==> x in s'.journal && RowKept(s.journal[x], s'.journal[x]))
    && |s.entries| <= |s'.entries|
    && (forall k :: 0 <= k < |s.entries| ==>
         && s'.entries[k].request == s.entries[k].request && s'.entries[k].auth == s.entries[k].auth
         && (s.entries[k].returned.Some? ==> s'.entries[k].returned == s.entries[k].returned))
    && s.signatures <= s'.signatures
    && |s.calls| <= |s'.calls|
  }

  /** Every entry but those of request `i` is as it was. */
  ghost predicate EntriesFixed(s: State, s': State, i: nat) {
    forall k :: 0 <= k < |s.entries| && s.entries[k].request != i ==> k < |s'.entries| && s'.entries[k] == s.entries[k]
  }

  /** At most one identity gains an owner, and that owner is `i`. */
  ghost predicate OwnerGrows(s: State, s': State, i: nat) {
    s'.owner == s.owner || exists x :: x !in s.owner && s'.owner == s.owner[x := i]
  }

  lemma CarryReplay(w: World, s: State, s': State, q: Request, r: Result)
    requires Inv(w, s) && Kept(s, s') && Replayable(w, s, q, r)
    ensures Replayable(w, s', q, r)
  {
    assert RequestKept(OwnerOf(s, Identity(q.auth)), OwnerOf(s', Identity(q.auth)));
  }

  /** A request that did not move stays in order. */
  lemma CarryRequest(w: World, s: State, s': State, i: nat, j: nat)
    requires Inv(w, s) && Kept(s, s') && j < |s.requests| && j != i && s'.requests[j] == s.requests[j]
    requires EntriesFixed(s, s', i) && OwnerGrows(s, s', i)
    ensures RequestOk(w, s', j)
  {
    hide Lawful, Bound, Blank, Identity, SemanticDigest, InputBound, Clean, Accepted, WellConfigured, Signed;
    var q := s.requests[j];
    assert RequestOk(w, s, j);
    if q.at.Reserved? && q.at.answer.Replay? {
      CarryReplay(w, s, s', q, q.at.answer.result);
    }
    if (q.at.Signing? || q.at == Responded(200)) && q.auth.kind != "challenge" && !q.built {
      CarryReplay(w, s, s', q, OwnerOf(s, Identity(q.auth)).result);
    }
  }

  lemma CarryRow(w: World, s: State, s': State, x: string)
    requires Inv(w, s) && Kept(s, s') && x in s.journal && s'.journal[x] == s.journal[x]
    ensures RowOk(w, s', x)
  {
    assert RowOk(w, s, x);
  }

  lemma CarryLate(w: World, s: State, s': State, st: Statement)
    requires Inv(w, s) && Kept(s, s') && st in s.late
    ensures LateOk(w, s', st)
  {
    assert LateOk(w, s, st);
  }

  /** Every key that a caller expects is still known to runtimes only. */
  ghost predicate KeysSafe(s: State, s': State) {
    forall g :: g in s.signatures && g.ByOther? && g.purpose.ForResult? ==> !Expected(s', g.key)
  }

  lemma SameCallers(w: World, s: State, s': State)
    requires Inv(w, s) && |s'.calls| == |s.calls|
    requires forall c :: 0 <= c < |s.calls| ==> s'.calls[c].options == s.calls[c].options
    ensures KeysSafe(s, s')
  {
    hide RequestOk, CallOk, RowOk, LateOk, EntryOk;
    forall g | g in s.signatures && g.ByOther? && g.purpose.ForResult? ensures !Expected(s', g.key) {
      assert SignatureOk(w, s, g);
    }
  }

  lemma CarrySignature(w: World, s: State, s': State, g: Signature)
    requires Inv(w, s) && Kept(s, s') && g in s.signatures
    requires g.ByOther? && g.purpose.ForResult? ==> !Expected(s', g.key)
    ensures SignatureOk(w, s', g)
  {
    hide RequestOk, CallOk, RowOk, LateOk, EntryOk, Signed, Expected;
    assert SignatureOk(w, s, g);
    if g.ByRuntime? {
      assert RequestKept(s.requests[g.request], s'.requests[g.request]);
    }
  }

  lemma CarryCall(w: World, s: State, s': State, c: nat)
    requires Inv(w, s) && Kept(s, s') && c < |s.calls|
    ensures CallOk(w, s', s.calls[c])
  {
    hide RequestOk, SignatureOk, RowOk, LateOk, EntryOk, VerifyResult;
    var call := s.calls[c];
    assert CallOk(w, s, call);
    if call.at.Succeeded? {
      assert RequestKept(s.requests[call.at.via], s'.requests[call.at.via]);
    }
  }

  lemma CarryEntry(w: World, s: State, s': State, k: nat)
    requires Inv(w, s) && Kept(s, s') && k < |s.entries|
    ensures EntryOk(s', k)
  {
    assert EntryOk(s, k);
    assert RequestKept(s.requests[s.entries[k].request], s'.requests[s.entries[k].request]);
  }

  /** What a step of request `i` has to establish; the rest carries over. */
  ghost predicate StepOk(w: World, s: State, s': State, i: nat) {
    && Kept(s, s') && |s'.requests| == |s.requests| && i < |s.requests|
    && (forall j :: 0 <= j < |s.requests| && j != i ==> s'.requests[j] == s.requests[j])
    && EntriesFixed(s, s', i) && OwnerGrows(s, s', i)
    && RequestOk(w, s', i)
    && (forall x :: x in s'.owner && x !in s.owner ==> Identity(s'.requests[i].auth) == x && s'.requests[i].owns)
    && (forall x :: x in s'.journal ==> (x in s.journal && s'.journal[x] == s.journal[x]) || RowOk(w, s', x))
    && (forall st :: st in s'.late ==> st in s.late || LateOk(w, s', st))
    && (forall g :: g in s'.signatures ==> g in s.signatures || SignatureOk(w, s', g))
    && (forall k :: |s.entries| <= k < |s'.entries| ==> EntryOk(s', k))
    && s'.calls == s.calls
  }

  lemma InvFromStep(w: World, s: State, s': State, i: nat)
    requires Inv(w, s) && StepOk(w, s, s', i)
    ensures Inv(w, s')
  {
    hide RequestOk, SignatureOk, RowOk, LateOk, EntryOk, CallOk, EntriesFixed, Expected;
    SameCallers(w, s, s');
    forall j | 0 <= j < |s'.requests| ensures RequestOk(w, s', j) {
      if j != i { CarryRequest(w, s, s', i, j); }
    }
    forall x | x in s'.owner
      ensures s'.owner[x] < |s'.requests| && Identity(s'.requests[s'.owner[x]].auth) == x
      ensures s'.requests[s'.owner[x]].owns
    {
      if x in s.owner {
        assert RequestKept(s.requests[s.owner[x]], s'.requests[s.owner[x]]);
      }
    }
    forall k | 0 <= k < |s'.entries| ensures EntryOk(s', k) {
      if k < |s.entries| { CarryEntry(w, s, s', k); }
    }
    forall x | x in s'.journal ensures RowOk(w, s', x) {
      if x in s.journal && s'.journal[x] == s.journal[x] { CarryRow(w, s, s', x); }
    }
    forall st | st in s'.late ensures LateOk(w, s', st) {
      if st in s.late { CarryLate(w, s, s', st); }
    }
    forall g | g in s'.signatures ensures SignatureOk(w, s', g) {
      if g in s.signatures { CarrySignature(w, s, s', g); }
    }
    forall c | 0 <= c < |s'.calls| ensures CallOk(w, s', s'.calls[c]) {
      CarryCall(w, s, s', c);
    }
  }
}
