/** The at-most-once execution protocol as a transition system: callers
    (`bridge/client/client.go`), any number of runtime replicas
    (`bridge/runtime.go`) and one journal that meets the `ExecutionStore`
    contract. The order of steps, the clock readings, context cancellation,
    handler outcomes, store failures and crashes are all chosen freely. */
module Execution {
  import opened Words
  import opened Protocol
  import M = Manifest

  type Key = Bytes

  datatype Config = Config(
    trustedKeys: map<string, Key>,
    scope: Scope,
    audience: string,
    bindingID: string,
    signingKeyID: string,
    issuer: string,
    signingKey: Key,
    functions: set<Function>,
    manifestDigest: string,
    bindingRevision: int64)

  /** What `NewRuntime` insists on: no runtime has any other configuration. */
  predicate WellConfigured(cfg: Config) {
    && Identifier(cfg.issuer, 256) && Identifier(cfg.audience, 256) && Identifier(cfg.bindingID, 256)
    && Identifier(cfg.signingKeyID, 256) && ValidScope(cfg.scope) && cfg.bindingRevision >= 1
    && IsDigest(cfg.manifestDigest) && (forall f :: f in cfg.functions ==> M.WellFormed(f))
    && cfg.trustedKeys != map[] && (forall k :: k in cfg.trustedKeys ==> Identifier(k, 256))
  }

  // ---- the checks of validAuthorization and grantActive ----

  predicate ValidCommon(cfg: Config, a: Authorization, now: int64) {
    && a.protocolVersion == PROTOCOL_VERSION && Identifier(a.id, 256)
    && a.issuer == cfg.issuer && a.audience == cfg.audience
    && a.bindingID == cfg.bindingID && a.bindingRevision == cfg.bindingRevision
    && a.manifestDigest == cfg.manifestDigest && a.scope == cfg.scope
    && 0 < a.issuedAt <= now < a.expiresAt && a.issuedAt < a.expiresAt && a.expiresAt - a.issuedAt <= 300
  }

  predicate ValidChallenge(a: Authorization) {
    && a.kind == "challenge" && Identifier(a.nonce, 256) && a.function_.None? && a.principal == ""
    && a.input == [] && a.inputDigest == "" && a.policyDigest == "" && a.resources == [] && a.capabilities == []
  }

  predicate ValidInvocation(w: World, cfg: Config, a: Authorization) {
    && a.kind == "invocation" && a.nonce == "" && a.function_.Some? && Identifier(a.principal, 256)
    && InputBound(w, a)
    && (a.policyDigest != "" ==> IsDigest(a.policyDigest))
    && a.function_.value in cfg.functions
    && |a.resources| <= 128 && |a.capabilities| <= 64
    && (forall r :: r in a.resources ==> Identifier(r, 256))
    && (forall c :: c in a.capabilities ==> Identifier(c, 256))
  }

  predicate ValidAuthorization(w: World, cfg: Config, a: Authorization, challengePath: bool, now: int64) {
    ValidCommon(cfg, a, now) && if challengePath then ValidChallenge(a) else ValidInvocation(w, cfg, a)
  }

  predicate GrantActive(live: bool, now: int64, a: Authorization) {
    live && now < a.expiresAt
  }

  // ---- the journal ----

  datatype Row = Row(digest: string, result: Option<Result>)
  type Journal = map<string, Row>

  datatype Answer = Fresh | Replay(result: Result) | InProgress | Conflict | Unavailable

  /** `Reserve`, as the `ExecutionStore` contract describes it. */
  function ReserveAnswer(j: Journal, identity: string, digest: string): Answer {
    if identity !in j then Fresh
    else if j[identity].digest != digest then Conflict
    else if j[identity].result.None? then InProgress
    else Replay(j[identity].result.value)
  }

  datatype Statement =
    | InsertRow(identity: string, digest: string)
    | WriteResult(identity: string, digest: string, result: Result)

  predicate Applies(j: Journal, st: Statement) {
    match st
    case InsertRow(identity, _) => identity !in j
    case WriteResult(identity, digest, r) =>
      identity in j && j[identity].digest == digest && (j[identity].result.None? || j[identity].result == Some(r))
  }

  function Perform(j: Journal, st: Statement): Journal {
    if !Applies(j, st) then j
    else
      match st
      case InsertRow(identity, digest) => j[identity := Row(digest, None)]
      case WriteResult(identity, digest, r) => j[identity := Row(digest, Some(r))]
  }

  // ---- requests, calls, states ----

  datatype At =
    | Authorizing
    | Reserving
    | Reserved(answer: Answer)
    | Entering
    | Running
    | Completing
    | Signing
    | Responded(status: nat)
    | Gone

  /** One request inside one replica. `owns`, `entered` and `built` record that
      it was answered Fresh, entered a handler, and built the result it will
      try to store. */
  datatype Request = Request(
    cfg: Config,
    raw: Bytes,
    auth: Authorization,
    at: At,
    result: Result,
    owns: bool,
    entered: Option<nat>,
    built: bool)

  datatype Entry = Entry(request: nat, auth: Authorization, returned: Option<Bytes>)

  datatype Signature =
    | ByRuntime(key: Key, message: Bytes, request: nat)
    | ByOther(key: Key, message: Bytes, purpose: Purpose)

  datatype Options = Options(
    trustedKeys: map<string, Key>,
    scope: Scope,
    manifestDigest: string,
    issuer: string,
    signingKeyID: string,
    audience: string,
    bindingID: string,
    signingKey: Key,
    bindingRevision: int64)

  datatype CallAt = Waiting | Succeeded(result: Result, via: nat) | OutcomeUnknown

  datatype Call = Call(options: Options, raw: Bytes, auth: Authorization, at: CallAt)

  /** `late` holds statements whose caller was told of an error, or crashed,
      while the database may still execute them. `owner`, `entries` and
      `signatures` are history. */
  datatype State = State(
    journal: Journal,
    requests: seq<Request>,
    late: set<Statement>,
    owner: map<string, nat>,
    entries: seq<Entry>,
    signatures: set<Signature>,
    calls: seq<Call>)

  const INITIAL := State(map[], [], {}, map[], [], {}, [])

  /** What the deployment's authorization callback said. */
  datatype Verdict = Allowed | Denied | NotAvailable

  datatype Label =
    | Arrive(cfg: Config, keyID: string, raw: Bytes, challengePath: bool, now: int64)
    | Authorize(i: nat, verdict: Verdict, live: bool, now: int64, stamp: int64)
    | Reserve(i: nat, ok: bool, pending: bool)
    | Proceed(i: nat, live: bool, now: int64)
    | Enter(i: nat, live: bool, now: int64)
    | HandlerReturn(i: nat, output: Option<Bytes>, live: bool, now: int64)
    | Complete(i: nat, ok: bool, pending: bool)
    | Sign(i: nat, ok: bool)
    | Crash(i: nat, pending: bool)
    | Late(statement: Statement)
    | SignOther(key: Key, purpose: Purpose, text: Bytes)
    | Dispatch(options: Options, keyID: string, raw: Bytes, now: int64)
    | Deliver(c: nat, keyID: string, signature: Signature, raw: Bytes, now: int64)
    | GiveUp(c: nat)

  // ---- the steps ----

  predicate SignedBy(s: State, key: Key, message: Bytes) {
    exists g :: g in s.signatures && g.key == key && g.message == message
  }

  /** The result variable as `ServeHTTP` first fills it in. */
  function FirstResult(w: World, a: Authorization, raw: Bytes, now: int64): Result {
    Result(a.id, a.bindingID, a.manifestDigest, w.digest(raw), a.kind, "", "", [],
           PROTOCOL_VERSION, a.bindingRevision, now)
  }

  function NewRequest(w: World, cfg: Config, raw: Bytes, a: Authorization, now: int64): Request {
    Request(cfg, raw, a, Authorizing, FirstResult(w, a, raw, now), false, None, false)
  }

  /** The output that goes on record, or nothing for a failure, an invalid
      text or one over the inline limit. */
  function RecordedOutput(w: World, output: Option<Bytes>): Option<Bytes> {
    if output.None? || w.compact(output.value).None? || |output.value| > MAX_INPUT
       || |w.compact(output.value).value| > MAX_INPUT then None
    else w.compact(output.value)
  }

  function Build(w: World, q: Request, output: Option<Bytes>, now: int64): Request {
    var o := RecordedOutput(w, output);
    var r := if o.None? then q.result.(errorCode := "outcome_unknown", completedAt := now)
             else q.result.(output := o.value, completedAt := now);
    q.(at := Completing, result := r, built := true)
  }

  function Put(s: State, i: nat, q: Request): State
    requires i < |s.requests|
  {
    s.(requests := s.requests[i := q])
  }

  predicate AtStep(s: State, i: nat, at: At) {
    i < |s.requests| && s.requests[i].at == at
  }

  /** `validGrant` of the calling client. */
  predicate ValidGrant(w: World, o: Options, a: Authorization, now: int64) {
    && |a.input| <= MAX_INPUT && a.protocolVersion == PROTOCOL_VERSION && a.kind == "invocation"
    && a.scope == o.scope && a.bindingID == o.bindingID && a.bindingRevision == o.bindingRevision
    && a.audience == o.audience && a.manifestDigest == o.manifestDigest && a.issuer == o.issuer
    && Identifier(a.id, 256) && Identifier(a.principal, 256) && a.nonce == "" && a.function_.Some?
    && 0 < a.issuedAt <= now < a.expiresAt && a.issuedAt < a.expiresAt && a.expiresAt - a.issuedAt <= 300
    && w.compact(a.input).Some? && a.inputDigest == w.digest(a.input)
    && (a.policyDigest != "" ==> IsDigest(a.policyDigest))
    && var f := a.function_.value;
       && Identifier(f.name, 128) && Identifier(f.version, 128) && IsDigest(f.inputSchema) && IsDigest(f.outputSchema)
       && |a.resources| <= 128 && |a.capabilities| <= 64
       && forall v :: v in a.resources + a.capabilities ==> Identifier(v, 256)
  }

  /** The keys callers have been told to expect results from. */
  predicate Expected(s: State, key: Key) {
    exists c :: 0 <= c < |s.calls| && s.calls[c].options.signingKey == key
  }

  /** Someone other than a runtime has signed a result with this key. */
  predicate Exposed(s: State, key: Key) {
    exists g :: g in s.signatures && g.ByOther? && g.purpose.ForResult? && g.key == key
  }

  /** The checks `Invoke` makes on a response before returning success. */
  predicate Accepts(w: World, s: State, c: Call, keyID: string, g: Signature, raw: Bytes, now: int64) {
    && keyID == c.options.signingKeyID
    && g in s.signatures && g.key == c.options.signingKey && g.message == Signed(ForResult, raw)
    && w.parseResult(raw).Some?
    && var r := w.parseResult(raw).value;
       && VerifyResult(w, r, c.auth, c.raw) && 0 < r.completedAt <= now + 5
       && r.errorCode == "" && w.compact(r.output).Some?
  }

  predicate Enabled(w: World, s: State, l: Label) {
    match l
    case Arrive(cfg, keyID, raw, challengePath, now) =>
      && WellConfigured(cfg)
      && keyID in cfg.trustedKeys && SignedBy(s, cfg.trustedKeys[keyID], Signed(ForAuthorization, raw))
      && w.parseAuthorization(raw).Some?
      && ValidAuthorization(w, cfg, w.parseAuthorization(raw).value, challengePath, now)
    case Authorize(i, _, _, _, _) => AtStep(s, i, Authorizing)
    case Reserve(i, _, _) => AtStep(s, i, Reserving)
    case Proceed(i, _, _) => i < |s.requests| && s.requests[i].at.Reserved?
    case Enter(i, _, _) => AtStep(s, i, Entering)
    case HandlerReturn(i, _, _, _) =>
      AtStep(s, i, Running) && s.requests[i].entered.Some? && s.requests[i].entered.value < |s.entries|
    case Complete(i, _, _) => AtStep(s, i, Completing)
    case Sign(i, _) => AtStep(s, i, Signing)
    case Crash(i, _) => i < |s.requests| && !s.requests[i].at.Responded?
    case Late(st) => st in s.late
    case SignOther(key, purpose, _) => purpose.ForResult? ==> !Expected(s, key)
    case Dispatch(o, keyID, raw, now) =>
      && keyID in o.trustedKeys && SignedBy(s, o.trustedKeys[keyID], Signed(ForAuthorization, raw))
      && w.parseAuthorization(raw).Some? && ValidGrant(w, o, w.parseAuthorization(raw).value, now)
      && !Exposed(s, o.signingKey)
    case Deliver(c, _, _, _, _) => c < |s.calls| && s.calls[c].at.Waiting?
    case GiveUp(c) => c < |s.calls| && s.calls[c].at.Waiting?
  }

  /** The statement a request has outstanding, if any. */
  function Outstanding(w: World, q: Request): set<Statement> {
    if q.at.Reserving? then {InsertRow(Identity(q.auth), SemanticDigest(w, q.auth))}
    else if q.at.Completing? then {WriteResult(Identity(q.auth), SemanticDigest(w, q.auth), q.result)}
    else {}
  }

  function DoAuthorize(w: World, s: State, i: nat, verdict: Verdict, live: bool, now: int64, stamp: int64): State
    requires i < |s.requests|
  {
    var q := s.requests[i];
    if verdict.NotAvailable? then Put(s, i, q.(at := Responded(503)))
    else if verdict.Denied? || !GrantActive(live, now, q.auth) then Put(s, i, q.(at := Responded(401)))
    else
      var r := FirstResult(w, q.auth, q.raw, stamp);
      if q.auth.kind == "challenge" then Put(s, i, q.(at := Signing, result := r.(nonce := q.auth.nonce)))
      else Put(s, i, q.(at := Reserving, result := r))
  }

  /** The store answers, or reports an error with the row left as it was, or
      with the statement still able to take effect later. */
  function DoReserve(w: World, s: State, i: nat, ok: bool, pending: bool): State
    requires i < |s.requests|
  {
    var q := s.requests[i];
    var identity, digest := Identity(q.auth), SemanticDigest(w, q.auth);
    if !ok then
      Put(s, i, q.(at := Reserved(Unavailable))).(late := if pending then s.late + Outstanding(w, q) else s.late)
    else
      var answer := ReserveAnswer(s.journal, identity, digest);
      var s' := Put(s, i, q.(at := Reserved(answer), owns := q.owns || answer.Fresh?));
      if answer.Fresh?
      then s'.(journal := Perform(s.journal, InsertRow(identity, digest)), owner := s.owner[identity := i])
      else s'
  }

  function DoProceed(w: World, s: State, i: nat, live: bool, now: int64): State
    requires i < |s.requests| && s.requests[i].at.Reserved?
  {
    var q := s.requests[i];
    if !GrantActive(live, now, q.auth) then Put(s, i, q.(at := Responded(401)))
    else
      match q.at.answer
      case Fresh => Put(s, i, q.(at := Entering))
      case Replay(r) => Put(s, i, q.(at := Signing, result := r.(authorizationDigest := w.digest(q.raw))))
      case InProgress => Put(s, i, q.(at := Responded(409)))
      case Conflict => Put(s, i, q.(at := Responded(409)))
      case Unavailable => Put(s, i, q.(at := Responded(503)))
  }

  /** `execute` looks at the context once more before calling the handler. */
  function DoEnter(w: World, s: State, i: nat, live: bool, now: int64): State
    requires i < |s.requests|
  {
    var q := s.requests[i];
    if !live then Put(s, i, Build(w, q, None, now))
    else Put(s, i, q.(at := Running, entered := Some(|s.entries|))).(entries := s.entries + [Entry(i, q.auth, None)])
  }

  /** `output` is `None` when the handler returned an error or panicked. */
  function DoReturn(w: World, s: State, i: nat, output: Option<Bytes>, live: bool, now: int64): State
    requires i < |s.requests| && s.requests[i].entered.Some? && s.requests[i].entered.value < |s.entries|
  {
    var q := s.requests[i];
    var k := q.entered.value;
    Put(s, i, Build(w, q, if live then output else None, now))
      .(entries := s.entries[k := s.entries[k].(returned := output)])
  }

  function DoComplete(w: World, s: State, i: nat, ok: bool, pending: bool): State
    requires i < |s.requests|
  {
    var q := s.requests[i];
    var st := WriteResult(Identity(q.auth), SemanticDigest(w, q.auth), q.result);
    if ok && Applies(s.journal, st) then Put(s, i, q.(at := Signing)).(journal := Perform(s.journal, st))
    else Put(s, i, q.(at := Responded(503))).(late := if !ok && pending then s.late + {st} else s.late)
  }

  function DoSign(w: World, s: State, i: nat, ok: bool): State
    requires i < |s.requests|
  {
    var q := s.requests[i];
    if !ok then Put(s, i, q.(at := Responded(503)))
    else
      var r := q.result.(output := Canonical(w, q.result.output));
      var g := ByRuntime(q.cfg.signingKey, Signed(ForResult, w.marshalResult(r)), i);
      Put(s, i, q.(at := Responded(200), result := r)).(signatures := s.signatures + {g})
  }

  function Apply(w: World, s: State, l: Label): State
    requires Enabled(w, s, l)
  {
    match l
    case Arrive(cfg, _, raw, _, now) =>
      s.(requests := s.requests + [NewRequest(w, cfg, raw, w.parseAuthorization(raw).value, now)])
    case Authorize(i, verdict, live, now, stamp) => DoAuthorize(w, s, i, verdict, live, now, stamp)
    case Reserve(i, ok, pending) => DoReserve(w, s, i, ok, pending)
    case Proceed(i, live, now) => DoProceed(w, s, i, live, now)
    case Enter(i, live, now) => DoEnter(w, s, i, live, now)
    case HandlerReturn(i, output, live, now) => DoReturn(w, s, i, output, live, now)
    case Complete(i, ok, pending) => DoComplete(w, s, i, ok, pending)
    case Sign(i, ok) => DoSign(w, s, i, ok)
    case Crash(i, pending) =>
      var q := s.requests[i];
      Put(s, i, q.(at := Gone)).(late := if pending then s.late + Outstanding(w, q) else s.late)
    case Late(st) => s.(journal := Perform(s.journal, st))
    case SignOther(key, purpose, text) =>
      s.(signatures := s.signatures + {ByOther(key, Signed(purpose, text), purpose)})
    case Dispatch(o, _, raw, _) => s.(calls := s.calls + [Call(o, raw, w.parseAuthorization(raw).value, Waiting)])
    case Deliver(c, keyID, g, raw, now) =>
      var call := s.calls[c];
      var at := if Accepts(w, s, call, keyID, g, raw, now)
                then Succeeded(w.parseResult(raw).value, if g.ByRuntime? then g.request else 0) else OutcomeUnknown;
      s.(calls := s.calls[c := call.(at := at)])
    case GiveUp(c) => s.(calls := s.calls[c := s.calls[c].(at := OutcomeUnknown)])
  }

  /** The state a run leads to, if each of its steps is possible. */
  function After(w: World, run: seq<Label>): Option<State> {
    if run == [] then Some(INITIAL)
    else
      var s := After(w, run[..|run| - 1]);
      var l := run[|run| - 1];
      if s.Some? && Enabled(w, s.value, l) then Some(Apply(w, s.value, l)) else None
  }
}
