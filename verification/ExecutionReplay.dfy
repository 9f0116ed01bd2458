/** What a later request for an operation that already has a row is answered: a
    renewed grant for a completed operation gets the stored result under its own
    digest, and anything else a conflict. No handler is entered either way. */
module ExecutionReplay {
  import opened Words
  import opened Protocol
  import opened Messages
  import opened Execution
  import opened ExecutionSafety
  import opened ExecutionSteps
  import opened ExecutionRuns
  import opened ExecutionBlocked

  /** Request `i` is about to ask the journal, which has a row for its identity. */
  ghost predicate Asks(s: State, i: nat) {
    AtStep(s, i, Reserving) && Identity(s.requests[i].auth) in s.journal
  }

  /** That row is completed, and `i` carries a renewed grant for the operation:
      equal to the owner's in every field but issue and expiry time. */
  ghost predicate Renewed(s: State, i: nat) {
    && Asks(s, i)
    && var a := s.requests[i].auth;
       && s.journal[Identity(a)].result.Some?
       && Identity(a) in s.owner && s.owner[Identity(a)] < |s.requests|
       && a == s.requests[s.owner[Identity(a)]].auth.(issuedAt := a.issuedAt, expiresAt := a.expiresAt)
  }

  ghost function Stored(s: State, i: nat): Result
    requires Renewed(s, i)
  {
    s.journal[Identity(s.requests[i].auth)].result.value
  }

  lemma TimesDoNotMatter(w: World, a: Authorization, b: Authorization)
    requires a == b.(issuedAt := a.issuedAt, expiresAt := a.expiresAt)
    ensures SemanticDigest(w, a) == SemanticDigest(w, b)
  {
    assert Semantic(a) == Semantic(b);
  }

  /** The stored result, restamped for the renewed grant. */
  ghost function Restamp(w: World, s: State, i: nat): Result
    requires Renewed(s, i)
  {
    Stored(s, i).(authorizationDigest := w.digest(s.requests[i].raw))
  }

  lemma StoredAnswer(w: World, s: State, i: nat)
    requires Inv(w, s) && Renewed(s, i)
    ensures var a := s.requests[i].auth;
      && ReserveAnswer(s.journal, Identity(a), SemanticDigest(w, a)) == Replay(Stored(s, i))
      && HasResult(s, Identity(a)) && Stored(s, i) == OwnerOf(s, Identity(a)).result
      && !s.requests[i].owns
  {
    hide Identity, SemanticDigest, Genuine, Admitted, LateOk, SignatureOk, CallOk, EntryOk, Response, Bound;
    var a := s.requests[i].auth;
    var o := s.owner[Identity(a)];
    assert RowOk(w, s, Identity(a)) && RequestOk(w, s, o) && RequestOk(w, s, i);
    TimesDoNotMatter(w, a, s.requests[o].auth);
  }

  /** It verifies against the renewed grant. */
  lemma RestampVerifies(w: World, s: State, i: nat)
    requires Lawful(w) && Inv(w, s) && Renewed(s, i)
    ensures var r, q := Restamp(w, s, i), s.requests[i];
      && Proper(w, r) && VerifyResult(w, r, q.auth, q.raw)
      && (r.errorCode == "" ==> w.compact(r.output).Some?)
  {
    hide Lawful, Identity, SemanticDigest, Accepted, WellConfigured, InputBound, RowOk, LateOk, SignatureOk, CallOk,
         EntryOk, Response, AtOk, Proper;
    StoredAnswer(w, s, i);
    var o := s.owner[Identity(s.requests[i].auth)];
    assert RequestOk(w, s, o) && RequestOk(w, s, i);
    BuiltIsProper(w, s, o);
    Restamped(w, s.requests[o].result, s.requests[i].raw);
    var r := s.requests[o].result;
    if r.errorCode == "" {
      CanonicalIsValid(w, s.entries[s.requests[o].entered.value].returned.value);
    }
  }

  // ---- the steps ----

  ghost function Answering(w: World, s: State, i: nat, at: At, r: Result): State
    requires i < |s.requests|
  {
    Put(s, i, s.requests[i].(at := at, result := r))
  }

  lemma ReplayReserve(w: World, s: State, i: nat)
    requires Inv(w, s) && Renewed(s, i)
    ensures Apply(w, s, Reserve(i, true, false)) == Put(s, i, s.requests[i].(at := Reserved(Replay(Stored(s, i)))))
  {
    hide Identity, SemanticDigest, Inv, ReserveAnswer;
    StoredAnswer(w, s, i);
    var q := s.requests[i];
    var at := Reserved(Replay(Stored(s, i)));
    assert q.(at := at, owns := q.owns || false) == q.(at := at);
  }

  lemma ReplayProceed(w: World, s: State, i: nat, now: int64, r: Result)
    requires i < |s.requests| && s.requests[i].at == Reserved(Replay(r)) && now < s.requests[i].auth.expiresAt
    ensures Enabled(w, s, Proceed(i, true, now))
    ensures Apply(w, s, Proceed(i, true, now))
         == Answering(w, s, i, Signing, r.(authorizationDigest := w.digest(s.requests[i].raw)))
  {
  }

  lemma ReplaySign(w: World, s: State, i: nat)
    requires AtStep(s, i, Signing) && Proper(w, s.requests[i].result)
    ensures Enabled(w, s, Execution.Sign(i, true))
    ensures var t := Apply(w, s, Execution.Sign(i, true));
      var q := s.requests[i].(at := Responded(200));
      t == Put(s, i, q).(signatures := s.signatures + {Response(w, q, i)})
  {
    hide Signed, Proper;
    ProperIsCanonical(w, s.requests[i].result);
    var r := s.requests[i].result;
    assert r.(output := Canonical(w, r.output)) == r;
  }

  function Steps(i: nat, now: int64): seq<Label> {
    [Reserve(i, true, false), Proceed(i, true, now), Execution.Sign(i, true)]
  }

  lemma FromThree(w: World, s: State, a: Label, b: Label, c: Label, s1: State, s2: State, s3: State)
    requires Enabled(w, s, a) && Apply(w, s, a) == s1
    requires Enabled(w, s1, b) && Apply(w, s1, b) == s2
    requires Enabled(w, s2, c) && Apply(w, s2, c) == s3
    ensures From(w, s, [a, b, c]) == Some(s3)
  {
    hide Enabled, Apply, From;
    NothingMore(w, s);
    FromStep(w, s, [], s, a);
    FromStep(w, s, [] + [a], s1, b);
    FromStep(w, s, [] + [a] + [b], s2, c);
    assert [] + [a] + [b] + [c] == [a, b, c];
  }

  /** The state after a replay: the request answered, one signature more, and
      nothing else changed. */
  ghost function Answered200(w: World, s: State, i: nat): State
    requires Renewed(s, i)
  {
    var q := s.requests[i].(at := Responded(200), result := Restamp(w, s, i));
    Put(s, i, q).(signatures := s.signatures + {Response(w, q, i)})
  }

  /** In every run, a renewed grant for a completed operation is answered 200
      with the stored result under the new grant's digest: journal, entries and
      every other request stay as they are. */
  lemma Replayed(w: World, run: seq<Label>, s: State, i: nat, now: int64)
    requires Renewed(s, i) && now < s.requests[i].auth.expiresAt
    requires Lawful(w) && After(w, run) == Some(s)
    ensures From(w, s, Steps(i, now)) == Some(Answered200(w, s, i))
  {
    hide After, Lawful, Inv, From;
    EveryRun(w, run);
    ReplayedFrom(w, s, i, now);
  }

  lemma ReplayedFrom(w: World, s: State, i: nat, now: int64)
    requires Lawful(w) && Inv(w, s) && Renewed(s, i) && now < s.requests[i].auth.expiresAt
    ensures From(w, s, Steps(i, now)) == Some(Answered200(w, s, i))
  {
    hide Lawful, Inv, From, Apply, Proper, Response, Identity;
    var q, r := s.requests[i], Restamp(w, s, i);
    var s1 := Put(s, i, q.(at := Reserved(Replay(Stored(s, i)))));
    var s2 := Answering(w, s, i, Signing, r);
    var s3 := Answered200(w, s, i);
    ReplayReserve(w, s, i);
    ReplayProceed(w, s1, i, now, Stored(s, i));
    assert Answering(w, s1, i, Signing, r) == s2;
    RestampVerifies(w, s, i);
    ReplaySign(w, s2, i);
    assert Put(s2, i, s3.requests[i]).(signatures := s3.signatures) == s3;
    FromThree(w, s, Reserve(i, true, false), Proceed(i, true, now), Execution.Sign(i, true), s1, s2, s3);
  }

  /** The caller that sent the renewed grant then succeeds with the first
      handler's output, if the stored result reports no error, its output nests
      and its time is in range; otherwise the outcome stays unknown. */
  lemma ReplayDelivered(w: World, run: seq<Label>, s: State, i: nat, c: nat, later: int64)
    requires Renewed(s, i) && c < |s.calls| && s.calls[c].at.Waiting? && s.calls[c].raw == s.requests[i].raw
    requires s.calls[c].options.signingKeyID == s.requests[i].cfg.signingKeyID
    requires s.calls[c].options.signingKey == s.requests[i].cfg.signingKey
    requires Lawful(w) && After(w, run) == Some(s)
    ensures var t, l := Answered200(w, s, i), Delivery(w, s, i, c, later);
      && Enabled(w, t, l) && c < |Apply(w, t, l).calls|
      && Apply(w, t, l).calls[c].at ==
         if Stored(s, i).errorCode == "" && Nests(w, Stored(s, i).output) && 0 < Stored(s, i).completedAt <= later + 5
         then Succeeded(Restamp(w, s, i), i) else OutcomeUnknown
  {
    hide After, Lawful, Inv, Accepts, Restamp, Identity, SemanticDigest, Nests, Apply, Enabled, Signed;
    EveryRun(w, run);
    var t := Answered200(w, s, i);
    Delivered(w, t, Delivery(w, s, i, c, later));
    AnsweredSignature(w, s, i);
    ReplayAccepted(w, s, i, c, later, t);
    RestampKeeps(w, s, i);
    ReadBackIs(w, Restamp(w, s, i));
  }

  /** The response to a renewed grant arriving at its caller. */
  ghost function Delivery(w: World, s: State, i: nat, c: nat, later: int64): Label
    requires Renewed(s, i)
  {
    var q := s.requests[i].(result := Restamp(w, s, i));
    Deliver(c, q.cfg.signingKeyID, Response(w, q, i), w.marshalResult(q.result), later)
  }

  lemma Delivered(w: World, t: State, l: Label)
    requires l.Deliver? && l.c < |t.calls| && t.calls[l.c].at.Waiting? && l.signature.ByRuntime?
    ensures Enabled(w, t, l) && |Apply(w, t, l).calls| == |t.calls|
    ensures Apply(w, t, l).calls[l.c].at ==
      if Accepts(w, t, t.calls[l.c], l.keyID, l.signature, l.raw, l.now)
      then Succeeded(w.parseResult(l.raw).value, l.signature.request) else OutcomeUnknown
  {
    hide VerifyResult, Signed;
  }

  lemma AnsweredSignature(w: World, s: State, i: nat)
    requires Renewed(s, i)
    ensures var t, q := Answered200(w, s, i), s.requests[i].(result := Restamp(w, s, i));
      Response(w, t.requests[i], i) == Response(w, q, i) && Response(w, q, i) in t.signatures
  {
    hide Signed, Restamp;
  }

  lemma RestampKeeps(w: World, s: State, i: nat)
    requires Renewed(s, i)
    ensures var r := Restamp(w, s, i);
      && r.errorCode == Stored(s, i).errorCode && r.output == Stored(s, i).output
      && r.completedAt == Stored(s, i).completedAt
  {
  }

  lemma ReadBackIs(w: World, r: Result)
    ensures ReadBack(w, r) == if Nests(w, r.output) then Some(r) else None
  {
  }

  lemma ReplayAccepted(w: World, s: State, i: nat, c: nat, later: int64, t: State)
    requires Lawful(w) && Inv(w, s) && Renewed(s, i) && c < |s.calls| && s.calls[c].raw == s.requests[i].raw
    requires s.calls[c].options.signingKeyID == s.requests[i].cfg.signingKeyID
    requires s.calls[c].options.signingKey == s.requests[i].cfg.signingKey
    requires Response(w, s.requests[i].(result := Restamp(w, s, i)), i) in t.signatures
    ensures var q, r := s.requests[i], Restamp(w, s, i);
      && w.parseResult(w.marshalResult(r)) == ReadBack(w, r)
      && (Accepts(w, t, s.calls[c], q.cfg.signingKeyID, Response(w, q.(result := r), i), w.marshalResult(r), later)
          <==> r.errorCode == "" && Nests(w, r.output) && 0 < r.completedAt <= later + 5)
  {
    hide Lawful, Inv, Signed, Identity, SemanticDigest, Nests, Proper, VerifyResult, Restamp;
    RestampVerifies(w, s, i);
    MarshalledResult(w, Restamp(w, s, i));
    ReadBackIs(w, Restamp(w, s, i));
    SameGrant(w, s, i, c);
  }

  lemma SameGrant(w: World, s: State, i: nat, c: nat)
    requires Inv(w, s) && i < |s.requests| && c < |s.calls| && s.calls[c].raw == s.requests[i].raw
    ensures s.calls[c].auth == s.requests[i].auth
  {
    hide Identity, SemanticDigest, Genuine, RowOk, LateOk, SignatureOk, EntryOk, AtOk, Response, VerifyResult, Accepted,
         WellConfigured;
    assert CallOk(w, s, s.calls[c]) && RequestOk(w, s, i);
  }

  /** A renewed grant that arrives and is allowed reaches the journal as such. */
  lemma RenewalAdmitted(w: World, run: seq<Label>, s: State, l: Label, now: int64, stamp: int64)
    requires l.Arrive? && !l.challengePath && Enabled(w, s, l) && w.parseAuthorization(l.raw).Some?
    requires var a := w.parseAuthorization(l.raw).value;
      && now < a.expiresAt && Identity(a) in s.journal && s.journal[Identity(a)].result.Some?
      && Identity(a) in s.owner && s.owner[Identity(a)] < |s.requests|
      && a == s.requests[s.owner[Identity(a)]].auth.(issuedAt := a.issuedAt, expiresAt := a.expiresAt)
    requires Lawful(w) && After(w, run) == Some(s)
    ensures var n := |s.requests|;
      var more := [l] + [Authorize(n, Allowed, true, now, stamp)];
      && From(w, s, more).Some?
      && var t := From(w, s, more).value;
         && Renewed(t, n) && t.requests[n].raw == l.raw && t.requests[n].cfg == l.cfg
         && t.journal == s.journal && t.entries == s.entries && t.requests[..n] == s.requests
  {
    hide From, After, Lawful, Identity, SignedBy, WellConfigured, FirstResult;
    var n := |s.requests|;
    var s1 := Apply(w, s, l);
    var m := Authorize(n, Allowed, true, now, stamp);
    NothingMore(w, s);
    FromStep(w, s, [], s, l);
    assert [] + [l] == [l];
    FromStep(w, s, [l], s1, m);
    var t := Apply(w, s1, m);
    assert t.requests[..n] == s.requests;
  }

  // ---- conflicts ----

  /** A row without a result, or for another authorization, answers a conflict. */
  ghost predicate Barred(w: World, s: State, i: nat) {
    && Asks(s, i)
    && var a := s.requests[i].auth;
       || s.journal[Identity(a)].result.None?
       || (Identity(a) in s.owner && s.owner[Identity(a)] < |s.requests|
           && a != s.requests[s.owner[Identity(a)]].auth.(issuedAt := a.issuedAt, expiresAt := a.expiresAt))
  }

  lemma BarredAnswer(w: World, s: State, i: nat)
    requires Lawful(w) && Inv(w, s) && CollisionFree(w, s) && Barred(w, s, i)
    ensures var a := s.requests[i].auth;
      var answer := ReserveAnswer(s.journal, Identity(a), SemanticDigest(w, a));
      answer.InProgress? || answer.Conflict?
  {
    hide Lawful, RowOk, LateOk, SignatureOk, CallOk, EntryOk, Identity, SemanticText, Hashed, Accepted, WellConfigured,
         Readable, Response, Genuine, Bound;
    var q := s.requests[i];
    assert RequestOk(w, s, i);
    if s.journal[Identity(q.auth)].result.Some? {
      var o := s.owner[Identity(q.auth)];
      assert RequestOk(w, s, o);
      RequestHashed(w, s, i);
      RequestHashed(w, s, o);
      RequestIsReadable(w, s, i);
      RequestIsReadable(w, s, o);
      SemanticBinding(w, q.auth, s.requests[o].auth);
    }
  }

  /** In every run, such a request is answered 409, nothing else changes, and no
      handler is entered. */
  lemma BarredAnswered(w: World, run: seq<Label>, s: State, i: nat, now: int64)
    requires Barred(w, s, i) && now < s.requests[i].auth.expiresAt
    requires Lawful(w) && CollisionFree(w, s) && After(w, run) == Some(s)
    ensures From(w, s, [Reserve(i, true, false), Proceed(i, true, now)])
         == Some(Put(s, i, s.requests[i].(at := Responded(409))))
  {
    hide After, Lawful, Inv, From, CollisionFree, Identity, SemanticDigest, ReserveAnswer;
    EveryRun(w, run);
    var q := s.requests[i];
    BarredAnswer(w, s, i);
    BarredReserve(w, s, i);
    var answer := ReserveAnswer(s.journal, Identity(q.auth), SemanticDigest(w, q.auth));
    var s1 := Put(s, i, q.(at := Reserved(answer)));
    NothingMore(w, s);
    FromStep(w, s, [], s, Reserve(i, true, false));
    assert Apply(w, s1, Proceed(i, true, now)) == Put(s, i, q.(at := Responded(409)));
    FromStep(w, s, [] + [Reserve(i, true, false)], s1, Proceed(i, true, now));
    assert [] + [Reserve(i, true, false)] + [Proceed(i, true, now)] == [Reserve(i, true, false), Proceed(i, true, now)];
  }

  lemma BarredReserve(w: World, s: State, i: nat)
    requires AtStep(s, i, Reserving)
    requires var a := s.requests[i].auth; !ReserveAnswer(s.journal, Identity(a), SemanticDigest(w, a)).Fresh?
    ensures var q := s.requests[i];
      Apply(w, s, Reserve(i, true, false))
      == Put(s, i, q.(at := Reserved(ReserveAnswer(s.journal, Identity(q.auth), SemanticDigest(w, q.auth)))))
  {
    hide Identity, SemanticDigest, ReserveAnswer;
    var q := s.requests[i];
    var answer := ReserveAnswer(s.journal, Identity(q.auth), SemanticDigest(w, q.auth));
    assert q.(at := Reserved(answer), owns := q.owns || false) == q.(at := Reserved(answer));
  }
}
