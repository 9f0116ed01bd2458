/** The guarantees of the execution protocol over whole runs. */
module ExecutionRuns {
  import opened Words
  import opened Protocol
  import opened JsonText
  import opened Messages
  import opened Execution
  import opened ExecutionSafety
  import opened ExecutionSteps

  // ---- the steps that move no existing request ----

  ghost predicate GlobalOk(w: World, s: State, s': State) {
    && Kept(s, s') && s'.entries == s.entries && s'.owner == s.owner && s'.late == s.late
    && (forall i :: 0 <= i < |s.requests| ==> s'.requests[i] == s.requests[i])
    && (forall i :: |s.requests| <= i < |s'.requests| ==> RequestOk(w, s', i))
    && (forall x :: x in s'.journal ==> (x in s.journal && s'.journal[x] == s.journal[x]) || RowOk(w, s', x))
    && (forall g :: g in s'.signatures ==> g in s.signatures || SignatureOk(w, s', g))
    && KeysSafe(s, s')
    && (forall c :: 0 <= c < |s'.calls| ==> (c < |s.calls| && s'.calls[c] == s.calls[c]) || CallOk(w, s', s'.calls[c]))
  }

  lemma InvFromGlobal(w: World, s: State, s': State)
    requires Inv(w, s) && GlobalOk(w, s, s')
    ensures Inv(w, s')
  {
    hide RequestOk, SignatureOk, RowOk, LateOk, EntryOk, CallOk, Expected;
    forall j | 0 <= j < |s'.requests| ensures RequestOk(w, s', j) {
      if j < |s.requests| { CarryRequest(w, s, s', |s.requests|, j); }
    }
    forall k | 0 <= k < |s'.entries| ensures EntryOk(s', k) {
      CarryEntry(w, s, s', k);
    }
    forall x | x in s'.journal ensures RowOk(w, s', x) {
      if x in s.journal && s'.journal[x] == s.journal[x] { CarryRow(w, s, s', x); }
    }
    forall st | st in s'.late ensures LateOk(w, s', st) {
      CarryLate(w, s, s', st);
    }
    forall g | g in s'.signatures ensures SignatureOk(w, s', g) {
      if g in s.signatures { CarrySignature(w, s, s', g); }
    }
    forall c | 0 <= c < |s'.calls| ensures CallOk(w, s', s'.calls[c]) {
      if c < |s.calls| && s'.calls[c] == s.calls[c] { CarryCall(w, s, s', c); }
    }
  }

  lemma ArrivalOk(w: World, s: State, l: Label)
    requires Inv(w, s) && l.Arrive? && Enabled(w, s, l)
    ensures RequestOk(w, Apply(w, s, l), |s.requests|)
  {
    hide Lawful, SemanticDigest, Identity, SignatureOk, RowOk, LateOk, EntryOk, CallOk, Bound, WellConfigured, SignedBy;
    var a := w.parseAuthorization(l.raw).value;
    assert ValidAuthorization(w, l.cfg, a, l.challengePath, l.now);
    assert Accepted(w, l.cfg, a);
  }

  lemma StepArrive(w: World, s: State, l: Label)
    requires Inv(w, s) && l.Arrive? && Enabled(w, s, l)
    ensures Kept(s, Apply(w, s, l)) && Inv(w, Apply(w, s, l))
  {
    hide Lawful, SemanticDigest, Identity, SignatureOk, RowOk, LateOk, EntryOk, CallOk, Bound, KeysSafe;
    var s' := Apply(w, s, l);
    ArrivalOk(w, s, l);
    SameCallers(w, s, s');
    assert GlobalOk(w, s, s') by {
      hide RequestOk, Inv;
    }
    InvFromGlobal(w, s, s');
  }

  lemma StepLate(w: World, s: State, st: Statement)
    requires Inv(w, s) && st in s.late
    ensures var s' := s.(journal := Perform(s.journal, st)); Kept(s, s') && Inv(w, s')
  {
    hide RequestOk, SignatureOk, EntryOk, CallOk, SemanticDigest, KeysSafe;
    SameCallers(w, s, s.(journal := Perform(s.journal, st)));
    var s' := s.(journal := Perform(s.journal, st));
    assert LateOk(w, s, st);
    if st.identity in s.journal {
      assert RowOk(w, s, st.identity);
    }
    assert GlobalOk(w, s, s');
    InvFromGlobal(w, s, s');
  }

  lemma StepSignOther(w: World, s: State, key: Key, purpose: Purpose, text: Bytes)
    requires Inv(w, s) && (purpose.ForResult? ==> !Expected(s, key))
    ensures var s' := s.(signatures := s.signatures + {ByOther(key, Signed(purpose, text), purpose)});
            Kept(s, s') && Inv(w, s')
  {
    hide RequestOk, EntryOk, CallOk, RowOk, LateOk, Signed, KeysSafe;
    var g := ByOther(key, Signed(purpose, text), purpose);
    var s' := s.(signatures := s.signatures + {g});
    if !purpose.ForResult? {
      forall raw ensures g.message != Signed(ForResult, raw) {
        if g.message == Signed(ForResult, raw) {
          PurposeSeparation(purpose, text, ForResult, raw);
        }
      }
    }
    assert SignatureOk(w, s', g);
    SameCallers(w, s, s');
    assert GlobalOk(w, s, s');
    InvFromGlobal(w, s, s');
  }

  lemma NewCaller(w: World, s: State, s': State)
    requires Inv(w, s) && |s'.calls| == |s.calls| + 1 && s'.calls[..|s.calls|] == s.calls
    requires !Exposed(s, s'.calls[|s.calls|].options.signingKey)
    ensures KeysSafe(s, s')
  {
    hide RequestOk, EntryOk, CallOk, RowOk, LateOk, Signed;
    forall g | g in s.signatures && g.ByOther? && g.purpose.ForResult? ensures !Expected(s', g.key) {
      assert SignatureOk(w, s, g);
      assert forall c :: 0 <= c < |s.calls| ==> s'.calls[c] == s'.calls[..|s.calls|][c];
    }
  }

  lemma StepDispatch(w: World, s: State, l: Label)
    requires Inv(w, s) && l.Dispatch? && Enabled(w, s, l)
    ensures Kept(s, Apply(w, s, l)) && Inv(w, Apply(w, s, l))
  {
    hide RequestOk, SignatureOk, EntryOk, RowOk, LateOk, VerifyResult, KeysSafe, SignedBy;
    var s' := Apply(w, s, l);
    assert CallOk(w, s', s'.calls[|s.calls|]);
    NewCaller(w, s, s');
    assert GlobalOk(w, s, s') by {
      hide CallOk, Inv, Expected, Exposed;
    }
    InvFromGlobal(w, s, s');
  }

  /** An accepted response was signed by the runtime for one of its requests. */
  lemma AcceptedIsGenuine(w: World, s: State, c: Call, keyID: string, g: Signature, raw: Bytes, now: int64)
    requires Lawful(w) && Inv(w, s) && Expected(s, c.options.signingKey) && Accepts(w, s, c, keyID, g, raw, now)
    ensures g.ByRuntime? && g.request < |s.requests| && s.requests[g.request].at == Responded(200)
    ensures w.parseResult(raw).value == s.requests[g.request].result
  {
    hide Lawful, EntryOk, RowOk, LateOk, VerifyResult, Signed, CallOk, RequestOk, Expected, Proper;
    assert SignatureOk(w, s, g);
    assert g.ByRuntime?;
    var q := s.requests[g.request];
    PurposeSeparation(ForResult, raw, ForResult, w.marshalResult(q.result));
    AnswerIsProper(w, s, g.request);
    MarshalledResult(w, q.result);
  }

  lemma StepCall(w: World, s: State, l: Label)
    requires Lawful(w) && Inv(w, s) && (l.Deliver? || l.GiveUp?) && Enabled(w, s, l)
    ensures Kept(s, Apply(w, s, l)) && Inv(w, Apply(w, s, l))
  {
    hide RequestOk, SignatureOk, EntryOk, RowOk, LateOk, VerifyResult, Lawful, Signed, KeysSafe;
    var s' := Apply(w, s, l);
    SameCallers(w, s, s');
    assert CallOk(w, s, s.calls[l.c]);
    if l.Deliver? && Accepts(w, s, s.calls[l.c], l.keyID, l.signature, l.raw, l.now) {
      AcceptedIsGenuine(w, s, s.calls[l.c], l.keyID, l.signature, l.raw, l.now);
    }
    assert CallOk(w, s', s'.calls[l.c]);
    assert GlobalOk(w, s, s') by {
      hide CallOk, Inv, Accepts;
    }
    InvFromGlobal(w, s, s');
  }

  // ---- every step, every run ----

  /** Every step keeps the invariant, and nothing decided is undone: a row never
      changes its digest, and never its result once written. */
  lemma EveryStep(w: World, s: State, l: Label)
    requires Lawful(w) && Inv(w, s) && Enabled(w, s, l)
    ensures Inv(w, Apply(w, s, l)) && Kept(s, Apply(w, s, l))
  {
    hide Inv, Kept, Lawful, DoAuthorize, DoReserve, DoProceed, DoEnter, DoReturn, DoComplete, DoSign, Accepts;
    match l
    case Arrive(_, _, _, _, _) => StepArrive(w, s, l);
    case Authorize(i, verdict, live, now, stamp) => StepAuthorize(w, s, i, verdict, live, now, stamp);
    case Reserve(i, ok, pending) => StepReserve(w, s, i, ok, pending);
    case Proceed(i, live, now) => StepProceed(w, s, i, live, now);
    case Enter(i, live, now) =>
      if live { StepEnter(w, s, i, now); } else { StepSkip(w, s, i, now); }
    case HandlerReturn(i, output, live, now) => StepReturn(w, s, i, output, live, now);
    case Complete(i, ok, pending) => StepComplete(w, s, i, ok, pending);
    case Sign(i, ok) => StepSign(w, s, i, ok);
    case Crash(i, pending) => StepCrash(w, s, i, pending);
    case Late(st) => StepLate(w, s, st);
    case SignOther(key, purpose, text) => StepSignOther(w, s, key, purpose, text);
    case Dispatch(_, _, _, _) => StepDispatch(w, s, l);
    case Deliver(_, _, _, _, _) => StepCall(w, s, l);
    case GiveUp(_) => StepCall(w, s, l);
  }

  lemma InvInitial(w: World)
    ensures Inv(w, INITIAL)
  {
  }

  lemma {:induction false} EveryRun(w: World, run: seq<Label>)
    requires Lawful(w) && After(w, run).Some?
    ensures Inv(w, After(w, run).value)
    decreases |run|
  {
    hide Inv, Enabled, Apply, Lawful;
    if run == [] {
      InvInitial(w);
    } else {
      EveryRun(w, run[..|run| - 1]);
      EveryStep(w, After(w, run[..|run| - 1]).value, run[|run| - 1]);
    }
  }

  lemma Extend(w: World, run: seq<Label>, b: Label)
    requires After(w, run).Some? && Enabled(w, After(w, run).value, b)
    ensures After(w, run + [b]) == Some(Apply(w, After(w, run).value, b))
  {
    hide Enabled, Apply;
    assert (run + [b])[..|run|] == run;
  }

  /** At most once: in every run, two handler entries for one operation identity
      are the same entry, whatever crashed, failed or expired in between. */
  lemma AtMostOnce(w: World, run: seq<Label>, j: nat, k: nat)
    requires Lawful(w) && After(w, run).Some?
    requires j < |After(w, run).value.entries| && k < |After(w, run).value.entries|
    requires Identity(After(w, run).value.entries[j].auth) == Identity(After(w, run).value.entries[k].auth)
    ensures j == k
  {
    hide After, Lawful, AtOk, Genuine, Admitted, RowOk, LateOk, SignatureOk, CallOk, Identity, SemanticDigest;
    EveryRun(w, run);
    var s := After(w, run).value;
    assert EntryOk(s, j) && EntryOk(s, k);
    assert RequestOk(w, s, s.entries[j].request) && RequestOk(w, s, s.entries[k].request);
  }

  // ---- collision freedom, for the texts of one run ----

  /** Texts whose digest some party computed in the run up to `s`. */
  ghost predicate Hashed(w: World, s: State, x: Bytes) {
    || (exists i :: 0 <= i < |s.requests| &&
         (x == s.requests[i].raw || x == s.requests[i].auth.input || x == SemanticText(w, s.requests[i].auth)))
    || (exists c :: 0 <= c < |s.calls| && x == s.calls[c].raw)
  }

  /** No two of those texts collide. */
  ghost predicate CollisionFree(w: World, s: State) {
    forall x, y :: Hashed(w, s, x) && Hashed(w, s, y) && w.digest(x) == w.digest(y) ==> x == y
  }

  lemma RequestHashed(w: World, s: State, i: nat)
    requires i < |s.requests|
    ensures Hashed(w, s, s.requests[i].raw) && Hashed(w, s, s.requests[i].auth.input)
    ensures Hashed(w, s, SemanticText(w, s.requests[i].auth))
  {
    hide SemanticText;
  }

  /** The owner of an answered request's operation, and what they share. */
  lemma SameOperation(w: World, s: State, i: nat)
    requires Lawful(w) && Inv(w, s) && CollisionFree(w, s)
    requires i < |s.requests| && s.requests[i].at == Responded(200) && s.requests[i].auth.kind == "invocation"
    ensures var q := s.requests[i];
      && HasResult(s, Identity(q.auth))
      && var o := OwnerOf(s, Identity(q.auth));
         && o.auth == q.auth.(issuedAt := o.auth.issuedAt, expiresAt := o.auth.expiresAt) && Genuine(w, s, o)
         && q.result == o.result.(authorizationDigest := w.digest(q.raw))
  {
    hide Lawful, RowOk, LateOk, SignatureOk, CallOk, EntryOk, Identity, SemanticText, Hashed, Clean, Accepted,
         WellConfigured, Readable, Response;
    var q := s.requests[i];
    assert RequestOk(w, s, i);
    var j := s.owner[Identity(q.auth)];
    assert RequestOk(w, s, j);
    var o := s.requests[j];
    assert SemanticDigest(w, o.auth) == SemanticDigest(w, q.auth);
    RequestHashed(w, s, i);
    RequestHashed(w, s, j);
    AcceptedIsReadable(w, o.cfg, o.auth);
    AcceptedIsReadable(w, q.cfg, q.auth);
    SemanticBinding(w, o.auth, q.auth);
  }

  /** Agreement: all 200 responses for one operation identity agree on every
      result field except the authorization digest. */
  lemma Agreement(w: World, run: seq<Label>, i: nat, j: nat)
    requires Lawful(w) && After(w, run).Some? && CollisionFree(w, After(w, run).value)
    requires var s := After(w, run).value;
      && i < |s.requests| && s.requests[i].at == Responded(200) && s.requests[i].auth.kind == "invocation"
      && j < |s.requests| && s.requests[j].at == Responded(200) && s.requests[j].auth.kind == "invocation"
      && Identity(s.requests[i].auth) == Identity(s.requests[j].auth)
    ensures var s := After(w, run).value;
      s.requests[i].result.(authorizationDigest := "") == s.requests[j].result.(authorizationDigest := "")
  {
    hide *;
    EveryRun(w, run);
    SameOperation(w, After(w, run).value, i);
    SameOperation(w, After(w, run).value, j);
  }

  /** Every 200 response, executed or replayed under a renewed grant, is signed
      for that purpose with the runtime's key and has the fields of the exact
      grant that was sent; it parses, and so passes `VerifyResult`, if and only
      if its output nests. */
  lemma Verifiable(w: World, run: seq<Label>, i: nat)
    requires Lawful(w) && After(w, run).Some? && CollisionFree(w, After(w, run).value)
    requires i < |After(w, run).value.requests| && After(w, run).value.requests[i].at == Responded(200)
    ensures var s := After(w, run).value;
      var q := s.requests[i];
      && Response(w, q, i) in s.signatures
      && w.parseResult(w.marshalResult(q.result)) == (if Nests(w, q.result.output) then Some(q.result) else None)
      && VerifyResult(w, q.result, q.auth, q.raw)
  {
    hide Lawful, After, Inv, Response, VerifyResult, Proper, CollisionFree;
    EveryRun(w, run);
    var s := After(w, run).value;
    Answered(w, s, i);
    AnswerIsProper(w, s, i);
    MarshalledResult(w, s.requests[i].result);
  }

  lemma Answered(w: World, s: State, i: nat)
    requires Lawful(w) && Inv(w, s) && CollisionFree(w, s) && i < |s.requests| && s.requests[i].at == Responded(200)
    ensures var q := s.requests[i]; Response(w, q, i) in s.signatures && VerifyResult(w, q.result, q.auth, q.raw)
    ensures s.requests[i].auth.kind == "invocation" && s.requests[i].result.errorCode == "" ==>
      w.compact(s.requests[i].result.output).Some?
  {
    hide Lawful, RowOk, LateOk, SignatureOk, CallOk, EntryOk, Identity, SemanticText, Hashed, After, Accepted,
         WellConfigured, Response;
    var q := s.requests[i];
    assert RequestOk(w, s, i);
    if q.auth.kind != "challenge" {
      SameOperation(w, s, i);
      var o := OwnerOf(s, Identity(q.auth));
      assert o.auth.id == q.auth.id;
      if o.result.errorCode == "" {
        CanonicalIsValid(w, s.entries[o.entered.value].returned.value);
      }
    }
  }

  lemma CanonicalIsValid(w: World, x: Bytes)
    requires Lawful(w) && w.compact(x).Some?
    ensures w.compact(w.compact(x).value).Some?
  {
    hide Proper, Canonical, AuthorizationText, ResultText, Readable, IsDigest;
  }

  /** The caller that sent this grant and expects this runtime accepts a 200
      response exactly when it reports no error, its output nests and its time
      is in range. */
  lemma AcceptedExactly(w: World, run: seq<Label>, i: nat, c: nat, now: int64)
    requires Lawful(w) && After(w, run).Some? && CollisionFree(w, After(w, run).value)
    requires i < |After(w, run).value.requests| && After(w, run).value.requests[i].at == Responded(200)
    requires c < |After(w, run).value.calls|
    requires var s := After(w, run).value;
      && s.calls[c].raw == s.requests[i].raw
      && s.calls[c].options.signingKeyID == s.requests[i].cfg.signingKeyID
      && s.calls[c].options.signingKey == s.requests[i].cfg.signingKey
    ensures var s := After(w, run).value;
      var q := s.requests[i];
      Accepts(w, s, s.calls[c], q.cfg.signingKeyID, Response(w, q, i), w.marshalResult(q.result), now)
      <==> q.result.errorCode == "" && Nests(w, q.result.output) && 0 < q.result.completedAt <= now + 5
  {
    hide Lawful, After, RowOk, LateOk, SignatureOk, EntryOk, AtOk, Genuine, Accepted, WellConfigured, VerifyResult,
         CollisionFree, Signed, Identity, SemanticDigest;
    EveryRun(w, run);
    var s := After(w, run).value;
    var q := s.requests[i];
    assert RequestOk(w, s, i) && CallOk(w, s, s.calls[c]);
    assert s.calls[c].auth == q.auth;
    Verifiable(w, run, i);
    Answered(w, s, i);
  }

  /** The number of handler entries for an operation identity. */
  ghost function Entries(es: seq<Entry>, identity: string): nat {
    if es == [] then 0
    else Entries(es[..|es| - 1], identity) + if Identity(es[|es| - 1].auth) == identity then 1 else 0
  }

  lemma {:induction false} CountUnique(es: seq<Entry>, identity: string, k: nat)
    requires k < |es| && Identity(es[k].auth) == identity
    requires forall j :: 0 <= j < |es| && Identity(es[j].auth) == identity ==> j == k
    ensures Entries(es, identity) == 1
    decreases |es|
  {
    hide Identity;
    var n := |es| - 1;
    if k == n {
      CountNone(es[..n], identity);
    } else {
      CountUnique(es[..n], identity, k);
    }
  }

  lemma {:induction false} CountNone(es: seq<Entry>, identity: string)
    requires forall j :: 0 <= j < |es| ==> Identity(es[j].auth) != identity
    ensures Entries(es, identity) == 0
    decreases |es|
  {
    hide Identity;
    if es != [] {
      CountNone(es[..|es| - 1], identity);
    }
  }

  /** The entry behind a call that returned success. */
  lemma Traced(w: World, s: State, c: nat) returns (k: nat)
    requires Lawful(w) && Inv(w, s) && CollisionFree(w, s)
    requires c < |s.calls| && s.calls[c].at.Succeeded?
    ensures k < |s.entries|
    ensures s.entries[k].auth
         == s.calls[c].auth.(issuedAt := s.entries[k].auth.issuedAt, expiresAt := s.entries[k].auth.expiresAt)
    ensures s.entries[k].returned.Some? && w.compact(s.entries[k].returned.value) == Some(s.calls[c].at.result.output)
  {
    hide Lawful, RowOk, LateOk, SignatureOk, Identity, SemanticText, InputBound, Canonical;
    var call := s.calls[c];
    assert CallOk(w, s, call);
    var i := call.at.via;
    var q := s.requests[i];
    assert RequestOk(w, s, i);
    assert q.auth.kind == "invocation" by {
      assert q.result.kind == call.auth.kind;
    }
    SameOperation(w, s, i);
    assert q.raw == call.raw by {
      assert Hashed(w, s, call.raw);
      RequestHashed(w, s, i);
    }
    var o := OwnerOf(s, Identity(q.auth));
    assert RequestOk(w, s, s.owner[Identity(q.auth)]);
    k := o.entered.value;
    assert EntryOk(s, k);
  }

  /** End to end: if any `Invoke` returned success, then in the whole run the
      handler was entered exactly once for that operation identity, with an
      authorization equal in every field but issue and expiry time, and the
      returned output is that handler's output in canonical form. */
  lemma EndToEnd(w: World, run: seq<Label>, c: nat) returns (k: nat)
    requires Lawful(w) && After(w, run).Some? && CollisionFree(w, After(w, run).value)
    requires c < |After(w, run).value.calls| && After(w, run).value.calls[c].at.Succeeded?
    ensures var s := After(w, run).value;
      && Entries(s.entries, Identity(s.calls[c].auth)) == 1
      && k < |s.entries|
      && s.entries[k].auth
         == s.calls[c].auth.(issuedAt := s.entries[k].auth.issuedAt, expiresAt := s.entries[k].auth.expiresAt)
      && s.entries[k].returned.Some?
      && w.compact(s.entries[k].returned.value) == Some(s.calls[c].at.result.output)
  {
    hide Inv, After, Lawful, CollisionFree, Entries;
    EveryRun(w, run);
    var s := After(w, run).value;
    k := Traced(w, s, c);
    var identity := Identity(s.calls[c].auth);
    assert Identity(s.entries[k].auth) == identity;
    forall j | 0 <= j < |s.entries| && Identity(s.entries[j].auth) == identity ensures j == k {
      AtMostOnce(w, run, j, k);
    }
    CountUnique(s.entries, identity, k);
  }
}
