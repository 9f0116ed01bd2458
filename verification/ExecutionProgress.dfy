/** What happens when nothing goes wrong, and when the owner crashes: runs that
    reach a successful call, a response the caller cannot read, and a blocked
    reservation. */
module ExecutionProgress {
  import opened Words
  import opened Protocol
  import opened JsonText
  import opened Messages
  import opened Execution
  import opened ExecutionSafety
  import opened ExecutionSteps
  import opened ExecutionRuns
  import opened ExecutionBlocked

  /** One caller, one runtime, a grant both accept, and a handler output. */
  datatype Setting = Setting(
    cfg: Config,
    options: Options,
    keyID: string,
    raw: Bytes,
    auth: Authorization,
    now: int64,
    output: Bytes)

  ghost predicate Ready(w: World, x: Setting) {
    && WellConfigured(x.cfg) && x.now > 0
    && x.keyID in x.cfg.trustedKeys && x.keyID in x.options.trustedKeys
    && x.cfg.trustedKeys[x.keyID] == x.options.trustedKeys[x.keyID]
    && x.options.signingKey == x.cfg.signingKey && x.options.signingKeyID == x.cfg.signingKeyID
    && w.parseAuthorization(x.raw) == Some(x.auth)
    && ValidAuthorization(w, x.cfg, x.auth, false, x.now) && ValidGrant(w, x.options, x.auth, x.now)
    && w.compact(x.output).Some? && |x.output| <= MAX_INPUT && |w.compact(x.output).value| <= MAX_INPUT
  }

  // ---- the states along the way ----

  function Granted(x: Setting): Signature
    requires x.keyID in x.cfg.trustedKeys
  {
    ByOther(x.cfg.trustedKeys[x.keyID], Signed(ForAuthorization, x.raw), ForAuthorization)
  }

  function Asked(x: Setting): Call {
    Call(x.options, x.raw, x.auth, Waiting)
  }

  function Blanked(w: World, x: Setting): Result {
    FirstResult(w, x.auth, x.raw, x.now)
  }

  ghost function Outcome(w: World, x: Setting): Result
    requires w.compact(x.output).Some?
  {
    Blanked(w, x).(output := w.compact(x.output).value)
  }

  function Asking(x: Setting, at: At, r: Result, owns: bool, entered: Option<nat>, built: bool): Request {
    Request(x.cfg, x.raw, x.auth, at, r, owns, entered, built)
  }

  /** The grant is signed, the call dispatched, the request at `q`. */
  ghost function Reached(w: World, x: Setting, j: Journal, q: Request, entries: seq<Entry>, more: set<Signature>): State
    requires x.keyID in x.cfg.trustedKeys
  {
    State(j, [q], {}, if q.owns then map[Identity(x.auth) := 0] else map[], entries, {Granted(x)} + more, [Asked(x)])
  }

  function Opening(x: Setting): seq<Label>
    requires x.keyID in x.cfg.trustedKeys
  {
    [SignOther(x.cfg.trustedKeys[x.keyID], ForAuthorization, x.raw),
     Dispatch(x.options, x.keyID, x.raw, x.now),
     Arrive(x.cfg, x.keyID, x.raw, false, x.now)]
  }

  lemma AfterOne(w: World, l: Label)
    requires Enabled(w, INITIAL, l)
    ensures After(w, [l]) == Some(Apply(w, INITIAL, l))
  {
    hide Enabled, Apply;
    assert [l][..0] == [];
    assert After(w, []) == Some(INITIAL);
  }

  lemma Opened(w: World, x: Setting)
    requires Ready(w, x)
    ensures After(w, Opening(x)) ==
      Some(Reached(w, x, map[], Asking(x, Authorizing, Blanked(w, x), false, None, false), [], {}))
  {
    hide ValidAuthorization, ValidGrant, WellConfigured, Signed, FirstResult, After, Identity;
    var key := x.cfg.trustedKeys[x.keyID];
    var run := Opening(x);
    var s1 := State(map[], [], {}, map[], [], {Granted(x)}, []);
    var s2 := s1.(calls := [Asked(x)]);
    assert Apply(w, INITIAL, run[0]) == s1;
    AfterOne(w, run[0]);
    assert Granted(x) in s1.signatures && SignedBy(s1, key, Signed(ForAuthorization, x.raw));
    assert Granted(x) in s2.signatures && SignedBy(s2, key, Signed(ForAuthorization, x.raw));
    assert Apply(w, s1, run[1]) == s2;
    Extend(w, [run[0]], run[1]);
    var s3 := Reached(w, x, map[], Asking(x, Authorizing, Blanked(w, x), false, None, false), [], {});
    assert Apply(w, s2, run[2]) == s3 by {
      assert s2.requests + [NewRequest(w, x.cfg, x.raw, x.auth, x.now)] == s3.requests;
      assert s3.signatures == {Granted(x)};
    }
    Extend(w, [run[0]] + [run[1]], run[2]);
    assert [run[0]] + [run[1]] + [run[2]] == run;
  }

  /** One more step of a run. */
  lemma Next(w: World, run: seq<Label>, s: State, l: Label, t: State)
    requires After(w, run) == Some(s) && Enabled(w, s, l) && Apply(w, s, l) == t
    ensures After(w, run + [l]) == Some(t)
  {
    hide After, Enabled, Apply;
    Extend(w, run, l);
  }

  ghost function Row0(w: World, x: Setting, r: Option<Result>): Journal {
    map[Identity(x.auth) := Row(SemanticDigest(w, x.auth), r)]
  }

  function ToReserved(x: Setting): seq<Label>
    requires x.keyID in x.cfg.trustedKeys
  {
    Opening(x) + [Authorize(0, Allowed, true, x.now, x.now)] + [Reserve(0, true, false)]
  }

  lemma ReservedNow(w: World, x: Setting)
    requires Ready(w, x)
    ensures After(w, ToReserved(x)) ==
      Some(Reached(w, x, Row0(w, x, None), Asking(x, Reserved(Fresh), Blanked(w, x), true, None, false), [], {}))
  {
    hide ValidGrant, WellConfigured, Signed, FirstResult, After, Identity, SemanticDigest;
    var r := Blanked(w, x);
    var s0 := Reached(w, x, map[], Asking(x, Authorizing, r, false, None, false), [], {});
    var s1 := Reached(w, x, map[], Asking(x, Reserving, r, false, None, false), [], {});
    var s2 := Reached(w, x, Row0(w, x, None), Asking(x, Reserved(Fresh), r, true, None, false), [], {});
    Opened(w, x);
    var l := Authorize(0, Allowed, true, x.now, x.now);
    assert s0.requests[0 := s1.requests[0]] == s1.requests;
    Next(w, Opening(x), s0, l, s1);
    assert s1.requests[0 := s2.requests[0]] == s2.requests;
    Next(w, Opening(x) + [l], s1, Reserve(0, true, false), s2);
  }

  function ToBuilt(x: Setting): seq<Label>
    requires x.keyID in x.cfg.trustedKeys
  {
    ToReserved(x) + [Proceed(0, true, x.now)] + [Enter(0, true, x.now)]
    + [HandlerReturn(0, Some(x.output), true, x.now)]
  }

  function Visited(x: Setting, returned: Option<Bytes>): seq<Entry> {
    [Entry(0, x.auth, returned)]
  }

  lemma BuiltNow(w: World, x: Setting)
    requires Lawful(w) && Ready(w, x)
    ensures After(w, ToBuilt(x)) ==
      Some(Reached(w, x, Row0(w, x, None), Asking(x, Completing, Outcome(w, x), true, Some(0), true),
                   Visited(x, Some(x.output)), {}))
  {
    hide Lawful, ValidGrant, WellConfigured, Signed, FirstResult, After, Identity, SemanticDigest, Row0;
    var r, j := Blanked(w, x), Row0(w, x, None);
    var s0 := Reached(w, x, j, Asking(x, Reserved(Fresh), r, true, None, false), [], {});
    var s1 := Reached(w, x, j, Asking(x, Entering, r, true, None, false), [], {});
    var s2 := Reached(w, x, j, Asking(x, Running, r, true, Some(0), false), Visited(x, None), {});
    var s3 := Reached(w, x, j, Asking(x, Completing, Outcome(w, x), true, Some(0), true),
                      Visited(x, Some(x.output)), {});
    ReservedNow(w, x);
    assert s0.requests[0 := s1.requests[0]] == s1.requests;
    Next(w, ToReserved(x), s0, Proceed(0, true, x.now), s1);
    assert s1.requests[0 := s2.requests[0]] == s2.requests;
    Next(w, ToReserved(x) + [Proceed(0, true, x.now)], s1, Enter(0, true, x.now), s2);
    assert s2.requests[0 := s3.requests[0]] == s3.requests && s2.entries[0 := s3.entries[0]] == s3.entries;
    StampedOutcome(w, x);
    Next(w, ToReserved(x) + [Proceed(0, true, x.now)] + [Enter(0, true, x.now)], s2,
         HandlerReturn(0, Some(x.output), true, x.now), s3);
  }

  lemma StampedOutcome(w: World, x: Setting)
    requires w.compact(x.output).Some?
    ensures Blanked(w, x).(output := w.compact(x.output).value, completedAt := x.now) == Outcome(w, x)
  {
  }

  function ToAnswered(x: Setting): seq<Label>
    requires x.keyID in x.cfg.trustedKeys
  {
    ToBuilt(x) + [Complete(0, true, false)] + [Execution.Sign(0, true)]
  }

  lemma AnsweredNow(w: World, x: Setting)
    requires Lawful(w) && Ready(w, x)
    ensures var q := Asking(x, Responded(200), Outcome(w, x), true, Some(0), true);
      After(w, ToAnswered(x)) ==
        Some(Reached(w, x, Row0(w, x, Some(Outcome(w, x))), q, Visited(x, Some(x.output)), {Response(w, q, 0)}))
  {
    hide Lawful, Ready, Signed, FirstResult, After, Identity, SemanticDigest;
    KeyThere(w, x);
    OutcomeCanonical(w, x);
    var r, es := Outcome(w, x), Visited(x, Some(x.output));
    var q2 := Asking(x, Responded(200), r, true, Some(0), true);
    BuiltNow(w, x);
    var s0 := Reached(w, x, Row0(w, x, None), Asking(x, Completing, r, true, Some(0), true), es, {});
    var s1 := Reached(w, x, Row0(w, x, Some(r)), Asking(x, Signing, r, true, Some(0), true), es, {});
    var s2 := Reached(w, x, Row0(w, x, Some(r)), q2, es, {Response(w, q2, 0)});
    assert s0.requests[0 := s1.requests[0]] == s1.requests;
    Next(w, ToBuilt(x), s0, Complete(0, true, false), s1);
    assert s1.requests[0 := s2.requests[0]] == s2.requests && s1.signatures + {Response(w, q2, 0)} == s2.signatures;
    Next(w, ToBuilt(x) + [Complete(0, true, false)], s1, Execution.Sign(0, true), s2);
  }

  lemma KeyThere(w: World, x: Setting)
    requires Ready(w, x)
    ensures x.keyID in x.cfg.trustedKeys
  {
  }

  lemma OutcomeCanonical(w: World, x: Setting)
    requires Lawful(w) && Ready(w, x)
    ensures w.compact(x.output).Some? && Clean(w, Outcome(w, x).output)
    ensures Outcome(w, x).(output := Canonical(w, Outcome(w, x).output)) == Outcome(w, x)
  {
    hide Proper, AuthorizationText, ResultText, Readable, IsDigest, ValidAuthorization, ValidGrant,
         WellConfigured;
  }

  // ---- how the run ends ----

  /** The response arrives. */
  ghost function Delivery(w: World, x: Setting): Label
    requires w.compact(x.output).Some?
  {
    var q := Asking(x, Responded(200), Outcome(w, x), true, Some(0), true);
    Deliver(0, x.cfg.signingKeyID, Response(w, q, 0), w.marshalResult(Outcome(w, x)), x.now)
  }

  lemma OutcomeIsProper(w: World, x: Setting)
    requires Lawful(w) && Ready(w, x)
    ensures Proper(w, Outcome(w, x))
  {
    hide Lawful, WellConfigured, ValidAuthorization, ValidGrant, Clean, Readable;
    OutcomeCanonical(w, x);
    assert Accepted(w, x.cfg, x.auth);
    AcceptedIsReadable(w, x.cfg, x.auth);
    KindKnown(w, x);
    WordsPrintable();
    BoundIsReadable(w, Outcome(w, x), x.auth, x.raw);
  }

  lemma KindKnown(w: World, x: Setting)
    requires Ready(w, x)
    ensures x.auth.kind == "invocation" && x.auth.protocolVersion == PROTOCOL_VERSION && x.auth.nonce == ""
  {
    hide WellConfigured;
  }

  /** The caller reads the response exactly when its output nests. */
  lemma OutcomeRead(w: World, x: Setting, s: State)
    requires Lawful(w) && Ready(w, x) && Delivery(w, x).signature in s.signatures
    ensures var l := Delivery(w, x);
      Accepts(w, s, Asked(x), l.keyID, l.signature, l.raw, l.now) <==> Nests(w, Outcome(w, x).output)
    ensures w.parseResult(Delivery(w, x).raw) == ReadBack(w, Outcome(w, x))
  {
    hide Lawful, WellConfigured, ValidAuthorization, ValidGrant, Signed, Proper, Nests;
    KindKnown(w, x);
    OutcomeIsProper(w, x);
    OutcomeCanonical(w, x);
    OutcomePresent(w, x);
    MarshalledResult(w, Outcome(w, x));
  }

  lemma OutcomePresent(w: World, x: Setting)
    requires Lawful(w) && Ready(w, x)
    ensures Outcome(w, x).output != [] && |Outcome(w, x).output| <= MAX_INPUT
  {
    hide Proper, Canonical, AuthorizationText, ResultText, Readable, IsDigest, ValidAuthorization, ValidGrant,
         WellConfigured;
  }

  /** With no failure, crash or expiry, the handler is entered once and the call
      succeeds with its canonical output, if that output nests; otherwise the
      runtime still answers 200, and the caller cannot read it. */
  lemma Undisturbed(w: World, x: Setting) returns (run: seq<Label>)
    requires Lawful(w) && Ready(w, x)
    ensures After(w, run).Some?
    ensures var s := After(w, run).value;
      && |s.entries| == 1 && |s.requests| == 1 && |s.calls| == 1
      && s.requests[0] == Asking(x, Responded(200), Outcome(w, x), true, Some(0), true)
      && s.calls[0].at == (if Nests(w, Outcome(w, x).output) then Succeeded(Outcome(w, x), 0) else OutcomeUnknown)
      && s.calls[0] == Asked(x).(at := s.calls[0].at)
  {
    hide Lawful, Ready, After, Nests, Accepts, ReadBack;
    KeyThere(w, x);
    OutcomeCanonical(w, x);
    AnsweredNow(w, x);
    var s := After(w, ToAnswered(x)).value;
    OutcomeRead(w, x, s);
    ReadBackIs(w, Outcome(w, x));
    Extend(w, ToAnswered(x), Delivery(w, x));
    run := ToAnswered(x) + [Delivery(w, x)];
  }

  lemma ReadBackIs(w: World, r: Result)
    ensures ReadBack(w, r) == if Nests(w, r.output) then Some(r) else None
  {
  }

  /** If the owner crashes right after reserving, the operation is blocked. */
  lemma CrashBlocks(w: World, x: Setting) returns (run: seq<Label>)
    requires Ready(w, x)
    ensures After(w, run).Some? && Blocked(After(w, run).value, Identity(x.auth))
    ensures |After(w, run).value.entries| == 0
  {
    hide Ready, After, Identity, SemanticDigest, FirstResult, Signed;
    KeyThere(w, x);
    ReservedNow(w, x);
    Extend(w, ToReserved(x), Crash(0, false));
    run := ToReserved(x) + [Crash(0, false)];
  }

  /** If the grant expires right after reserving, likewise. */
  lemma ExpiryBlocks(w: World, x: Setting) returns (run: seq<Label>)
    requires Ready(w, x)
    ensures After(w, run).Some? && Blocked(After(w, run).value, Identity(x.auth))
    ensures |After(w, run).value.entries| == 0
  {
    hide Ready, After, Identity, SemanticDigest, FirstResult, Signed;
    KeyThere(w, x);
    ReservedNow(w, x);
    Extend(w, ToReserved(x), Proceed(0, true, x.auth.expiresAt));
    run := ToReserved(x) + [Proceed(0, true, x.auth.expiresAt)];
  }

  /** If the handler ran but its completion was lost, likewise. */
  lemma LostWriteBlocks(w: World, x: Setting) returns (run: seq<Label>)
    requires Lawful(w) && Ready(w, x)
    ensures After(w, run).Some? && Blocked(After(w, run).value, Identity(x.auth))
    ensures |After(w, run).value.entries| == 1
  {
    hide Lawful, Ready, After, Identity, SemanticDigest, FirstResult, Signed;
    KeyThere(w, x);
    OutcomeCanonical(w, x);
    BuiltNow(w, x);
    Extend(w, ToBuilt(x), Complete(0, false, false));
    run := ToBuilt(x) + [Complete(0, false, false)];
  }

  /** A reservation may be reported as failed and still be committed later; then
      nobody owns it, nothing was entered for it, and it is blocked. */
  lemma AmbiguousReserveBlocks(w: World, x: Setting) returns (run: seq<Label>)
    requires Ready(w, x)
    ensures After(w, run).Some? && Blocked(After(w, run).value, Identity(x.auth))
    ensures |After(w, run).value.entries| == 0 && After(w, run).value.owner == map[]
  {
    hide Ready, After, Identity, SemanticDigest, FirstResult, Signed;
    KeyThere(w, x);
    AuthorizedNow(w, x);
    var st := InsertRow(Identity(x.auth), SemanticDigest(w, x.auth));
    var s1 := Reached(w, x, map[], Asking(x, Reserving, Blanked(w, x), false, None, false), [], {});
    var q := Asking(x, Reserved(Unavailable), Blanked(w, x), false, None, false);
    var s2 := Reached(w, x, map[], q, [], {}).(late := {st});
    run := Opening(x) + [Authorize(0, Allowed, true, x.now, x.now)];
    assert s1.requests[0 := q] == s2.requests;
    Next(w, run, s1, Reserve(0, false, true), s2);
    run := run + [Reserve(0, false, true)];
    Extend(w, run, Late(st));
    run := run + [Late(st)];
  }

  lemma AuthorizedNow(w: World, x: Setting)
    requires Ready(w, x)
    ensures After(w, Opening(x) + [Authorize(0, Allowed, true, x.now, x.now)]) ==
      Some(Reached(w, x, map[], Asking(x, Reserving, Blanked(w, x), false, None, false), [], {}))
  {
    hide ValidGrant, WellConfigured, Signed, FirstResult, After, Identity, SemanticDigest;
    var r := Blanked(w, x);
    var s0 := Reached(w, x, map[], Asking(x, Authorizing, r, false, None, false), [], {});
    var s1 := Reached(w, x, map[], Asking(x, Reserving, r, false, None, false), [], {});
    Opened(w, x);
    assert s0.requests[0 := s1.requests[0]] == s1.requests;
    Next(w, Opening(x), s0, Authorize(0, Allowed, true, x.now, x.now), s1);
  }

  /** The owner may crash while its write is on the way, and the write may still
      land: the row is then completed with the handler's outcome. */
  lemma LateWriteLands(w: World, x: Setting) returns (run: seq<Label>)
    requires Lawful(w) && Ready(w, x)
    ensures After(w, run).Some?
    ensures var s := After(w, run).value;
      && |s.requests| == 1 && s.requests[0].at == Gone
      && s.journal == Row0(w, x, Some(Outcome(w, x)))
  {
    hide Lawful, Ready, After, Identity, SemanticDigest, FirstResult, Signed;
    KeyThere(w, x);
    OutcomeCanonical(w, x);
    BuiltNow(w, x);
    var st := WriteResult(Identity(x.auth), SemanticDigest(w, x.auth), Outcome(w, x));
    Extend(w, ToBuilt(x), Crash(0, true));
    run := ToBuilt(x) + [Crash(0, true)];
    var s := After(w, run).value;
    assert st in s.late;
    Extend(w, run, Late(st));
    run := run + [Late(st)];
  }

  /** A challenge that is allowed with an active grant is answered 200 with the
      grant's nonce, the clock reading taken after the callback, and no trace in
      the journal. */
  lemma ChallengeAnswered(w: World, s: State, i: nat, now: int64, stamp: int64)
    requires AtStep(s, i, Authorizing) && s.requests[i].auth.kind == "challenge" && now < s.requests[i].auth.expiresAt
    ensures var a, raw := s.requests[i].auth, s.requests[i].raw;
      var r := Result(a.id, a.bindingID, a.manifestDigest, w.digest(raw), "challenge", a.nonce, "", [],
                      1, a.bindingRevision, stamp);
      var q := s.requests[i].(at := Responded(200), result := r);
      From(w, s, [Authorize(i, Allowed, true, now, stamp), Execution.Sign(i, true)])
      == Some(Put(s, i, q).(signatures := s.signatures + {Response(w, q, i)}))
  {
    hide From, Signed;
    var a, raw := s.requests[i].auth, s.requests[i].raw;
    var r := FirstResult(w, a, raw, stamp).(nonce := a.nonce);
    var l, m := Authorize(i, Allowed, true, now, stamp), Execution.Sign(i, true);
    var s1 := Put(s, i, s.requests[i].(at := Signing, result := r));
    NothingMore(w, s);
    FromStep(w, s, [], s, l);
    assert [] + [l] == [l];
    assert r.(output := Canonical(w, r.output)) == r;
    FromStep(w, s, [l], s1, m);
    assert [l] + [m] == [l, m];
    var q := s.requests[i].(at := Responded(200), result := r);
    assert s1.requests[i].(at := Responded(200), result := r) == q;
    assert Put(s1, i, q) == Put(s, i, q);
    assert Apply(w, s1, m) == Put(s, i, q).(signatures := s.signatures + {Response(w, q, i)});
  }
}
