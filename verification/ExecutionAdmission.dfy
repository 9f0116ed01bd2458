/** What must have happened in a run before a handler was entered or a result
    signed: the grant was signed by a trusted key and accepted on arrival, the
    deployment's callback allowed it, and it was still active after the journal
    had been asked. */
module ExecutionAdmission {
  import opened Words
  import opened Protocol
  import opened Messages
  import opened Execution
  import opened ExecutionSafety
  import opened ExecutionSteps
  import opened ExecutionRuns

  // ---- looking back along a run ----

  lemma AfterBefore(w: World, run: seq<Label>)
    requires run != [] && After(w, run).Some?
    ensures After(w, run[..|run| - 1]).Some?
    ensures Enabled(w, After(w, run[..|run| - 1]).value, run[|run| - 1])
    ensures After(w, run).value == Apply(w, After(w, run[..|run| - 1]).value, run[|run| - 1])
  {
    hide Enabled, Apply;
  }

  /** The labels that concern an existing request. */
  predicate Concerns(l: Label, i: nat) {
    match l
    case Authorize(n, _, _, _, _) => n == i
    case Reserve(n, _, _) => n == i
    case Proceed(n, _, _) => n == i
    case Enter(n, _, _) => n == i
    case HandlerReturn(n, _, _, _) => n == i
    case Complete(n, _, _) => n == i
    case Sign(n, _) => n == i
    case Crash(n, _) => n == i
    case _ => false
  }

  /** The callback allowed request `i` while its grant was active. */
  ghost predicate WasAllowed(run: seq<Label>, i: nat, a: Authorization) {
    exists k :: 0 <= k < |run| && run[k].Authorize? && run[k].i == i
      && run[k].verdict.Allowed? && run[k].live && run[k].now < a.expiresAt
  }

  /** The grant of request `i` was active after the journal had answered it. */
  ghost predicate WasActive(run: seq<Label>, i: nat, a: Authorization) {
    exists k :: 0 <= k < |run| && run[k].Proceed? && run[k].i == i && run[k].live && run[k].now < a.expiresAt
  }

  /** Its context was alive when the handler was called. */
  ghost predicate WasEntered(run: seq<Label>, i: nat) {
    exists k :: 0 <= k < |run| && run[k].Enter? && run[k].i == i && run[k].live
  }

  /** Past the callback: the request reserved, owns a row, or was answered. */
  predicate PastCallback(q: Request) {
    q.owns || q.entered.Some? || q.built
    || !(q.at.Authorizing? || q.at == Responded(401) || q.at == Responded(503) || q.at.Gone?)
  }

  /** Past the second look at the clock. */
  predicate PastJournal(q: Request) {
    q.entered.Some? || q.built || q.at.Entering? || q.at.Running? || q.at.Completing?
    || (q.auth.kind == "invocation" && (q.at.Signing? || q.at == Responded(200)))
  }

  // ---- one step ----

  /** At most request `i` changes. */
  ghost predicate Only(s: State, s': State, i: nat) {
    |s'.requests| == |s.requests| && forall j :: 0 <= j < |s.requests| && j != i ==> s'.requests[j] == s.requests[j]
  }

  lemma OnlyAuthorize(w: World, s: State, l: Label)
    requires l.Authorize? && AtStep(s, l.i, Authorizing)
    ensures Only(s, DoAuthorize(w, s, l.i, l.verdict, l.live, l.now, l.stamp), l.i)
  {
    hide Identity, SemanticDigest, FirstResult, Build, Canonical, Signed, Perform, Applies, ReserveAnswer;
  }

  lemma OnlyReserve(w: World, s: State, l: Label)
    requires l.Reserve? && AtStep(s, l.i, Reserving)
    ensures Only(s, DoReserve(w, s, l.i, l.ok, l.pending), l.i)
  {
    hide Identity, SemanticDigest, FirstResult, Build, Canonical, Signed, Perform, Applies, ReserveAnswer;
  }

  lemma OnlyProceed(w: World, s: State, l: Label)
    requires l.Proceed? && l.i < |s.requests| && s.requests[l.i].at.Reserved?
    ensures Only(s, DoProceed(w, s, l.i, l.live, l.now), l.i)
  {
    hide Identity, SemanticDigest, FirstResult, Build, Canonical, Signed, Perform, Applies, ReserveAnswer;
  }

  lemma OnlyEnter(w: World, s: State, l: Label)
    requires l.Enter? && AtStep(s, l.i, Entering)
    ensures Only(s, DoEnter(w, s, l.i, l.live, l.now), l.i)
  {
    hide Identity, SemanticDigest, FirstResult, Build, Canonical, Signed, Perform, Applies, ReserveAnswer;
  }

  lemma OnlyHandlerReturn(w: World, s: State, l: Label)
    requires l.HandlerReturn? && CanReturn(s, l.i)
    ensures Only(s, DoReturn(w, s, l.i, l.output, l.live, l.now), l.i)
  {
    hide Identity, SemanticDigest, FirstResult, Build, Canonical, Signed, Perform, Applies, ReserveAnswer;
  }

  lemma OnlyComplete(w: World, s: State, l: Label)
    requires l.Complete? && AtStep(s, l.i, Completing)
    ensures Only(s, DoComplete(w, s, l.i, l.ok, l.pending), l.i)
  {
    hide Identity, SemanticDigest, FirstResult, Build, Canonical, Signed, Perform, Applies, ReserveAnswer;
  }

  lemma OnlySign(w: World, s: State, l: Label)
    requires l.Sign? && AtStep(s, l.i, Signing)
    ensures Only(s, DoSign(w, s, l.i, l.ok), l.i)
  {
    hide Identity, SemanticDigest, FirstResult, Build, Canonical, Signed, Perform, Applies, ReserveAnswer;
  }

  lemma OnlyOne(w: World, s: State, l: Label, i: nat)
    requires Enabled(w, s, l) && Concerns(l, i) && i < |s.requests|
    ensures Only(s, Apply(w, s, l), i)
  {
    hide DoAuthorize, DoReserve, DoProceed, DoEnter, DoReturn, DoComplete, DoSign, Outstanding;
    match l
    case Authorize(_, _, _, _, _) => OnlyAuthorize(w, s, l);
    case Reserve(_, _, _) => OnlyReserve(w, s, l);
    case Proceed(_, _, _) => OnlyProceed(w, s, l);
    case Enter(_, _, _) => OnlyEnter(w, s, l);
    case HandlerReturn(_, _, _, _) => OnlyHandlerReturn(w, s, l);
    case Complete(_, _, _) => OnlyComplete(w, s, l);
    case Sign(_, _) => OnlySign(w, s, l);
    case Crash(_, _) =>
  }

  lemma NoneConcerned(w: World, s: State, l: Label, i: nat)
    requires Enabled(w, s, l) && i < |s.requests|
    requires l.Arrive? || l.Late? || l.SignOther? || l.Dispatch? || l.Deliver? || l.GiveUp?
    ensures i < |Apply(w, s, l).requests| && Apply(w, s, l).requests[i] == s.requests[i]
  {
    hide Enabled, NewRequest, Accepts, Signed, Perform;
  }

  /** A step that does not concern a request leaves it as it is. */
  lemma Unconcerned(w: World, s: State, l: Label, i: nat)
    requires Enabled(w, s, l) && i < |s.requests| && !Concerns(l, i)
    ensures i < |Apply(w, s, l).requests| && Apply(w, s, l).requests[i] == s.requests[i]
  {
    hide Apply, ValidAuthorization, ValidGrant, SignedBy, WellConfigured, Expected, Exposed, Signed;
    if l.Arrive? || l.Late? || l.SignOther? || l.Dispatch? || l.Deliver? || l.GiveUp? {
      NoneConcerned(w, s, l, i);
    } else {
      OnlyOne(w, s, l, l.i);
    }
  }

  /** How a request gets past the callback, past the second look and into the
      handler. */
  ghost predicate Passes(q: Request, q': Request, l: Label) {
    && q'.auth == q.auth && q'.cfg == q.cfg && q'.raw == q.raw
    && (PastCallback(q') && !PastCallback(q) ==>
         l.Authorize? && l.verdict.Allowed? && l.live && l.now < q.auth.expiresAt)
    && (PastJournal(q') && !PastJournal(q) ==> l.Proceed? && l.live && l.now < q.auth.expiresAt)
    && (q'.entered.Some? && q.entered.None? ==> l.Enter? && l.live)
  }

  lemma PassesAuthorize(w: World, s: State, l: Label)
    requires l.Authorize? && AtStep(s, l.i, Authorizing) && RequestOk(w, s, l.i)
    ensures var s' := DoAuthorize(w, s, l.i, l.verdict, l.live, l.now, l.stamp);
      l.i < |s'.requests| && Passes(s.requests[l.i], s'.requests[l.i], l)
  {
    hide Identity, SemanticDigest, RecordedOutput, FirstResult, Canonical, Signed, Perform, Applies, ReserveAnswer,
         Genuine, Blank, Replayable, Answerable, Response, Admitted;
  }

  lemma PassesReserve(w: World, s: State, l: Label)
    requires l.Reserve? && AtStep(s, l.i, Reserving) && RequestOk(w, s, l.i)
    ensures var s' := DoReserve(w, s, l.i, l.ok, l.pending);
      l.i < |s'.requests| && Passes(s.requests[l.i], s'.requests[l.i], l)
  {
    hide Identity, SemanticDigest, RecordedOutput, FirstResult, Canonical, Signed, Perform, Applies, ReserveAnswer,
         Genuine, Blank, Replayable, Answerable, Response, Admitted;
  }

  lemma PassesEnter(w: World, s: State, l: Label)
    requires l.Enter? && AtStep(s, l.i, Entering) && RequestOk(w, s, l.i)
    ensures var s' := DoEnter(w, s, l.i, l.live, l.now);
      l.i < |s'.requests| && Passes(s.requests[l.i], s'.requests[l.i], l)
  {
    hide Identity, SemanticDigest, RecordedOutput, FirstResult, Canonical, Signed, Perform, Applies, ReserveAnswer,
         Genuine, Blank, Replayable, Answerable, Response, Admitted;
  }

  lemma PassesComplete(w: World, s: State, l: Label)
    requires l.Complete? && AtStep(s, l.i, Completing) && RequestOk(w, s, l.i)
    ensures var s' := DoComplete(w, s, l.i, l.ok, l.pending);
      l.i < |s'.requests| && Passes(s.requests[l.i], s'.requests[l.i], l)
  {
    hide Identity, SemanticDigest, RecordedOutput, FirstResult, Canonical, Signed, Perform, Applies, ReserveAnswer,
         Genuine, Blank, Replayable, Answerable, Response, Admitted;
  }

  lemma PassesSign(w: World, s: State, l: Label)
    requires l.Sign? && AtStep(s, l.i, Signing) && RequestOk(w, s, l.i)
    ensures var s' := DoSign(w, s, l.i, l.ok);
      l.i < |s'.requests| && Passes(s.requests[l.i], s'.requests[l.i], l)
  {
    hide Identity, SemanticDigest, RecordedOutput, FirstResult, Canonical, Signed, Perform, Applies, ReserveAnswer,
         Genuine, Blank, Replayable, Answerable, Response, Admitted;
  }

  lemma PassesProceed(w: World, s: State, l: Label)
    requires l.Proceed? && l.i < |s.requests| && s.requests[l.i].at.Reserved? && RequestOk(w, s, l.i)
    ensures var s' := DoProceed(w, s, l.i, l.live, l.now);
      l.i < |s'.requests| && Passes(s.requests[l.i], s'.requests[l.i], l)
  {
    hide Identity, SemanticDigest, RecordedOutput, FirstResult, Canonical, Signed, Perform, Applies, ReserveAnswer,
         Genuine, Blank, Replayable, Answerable, Response, Admitted;
  }

  lemma PassesReturn(w: World, s: State, l: Label)
    requires l.HandlerReturn? && CanReturn(s, l.i) && RequestOk(w, s, l.i)
    ensures var s' := DoReturn(w, s, l.i, l.output, l.live, l.now);
      l.i < |s'.requests| && Passes(s.requests[l.i], s'.requests[l.i], l)
  {
    hide Identity, SemanticDigest, RecordedOutput, FirstResult, Canonical, Signed, Perform, Applies, ReserveAnswer,
         Genuine, Blank, Replayable, Answerable, Response, Admitted;
  }

  lemma PassesCrash(q: Request, l: Label)
    requires l.Crash? && !q.at.Responded?
    ensures Passes(q, q.(at := Gone), l)
  {
  }

  lemma Passing(w: World, s: State, l: Label, i: nat)
    requires Inv(w, s) && Enabled(w, s, l) && i < |s.requests| && Concerns(l, i)
    ensures i < |Apply(w, s, l).requests| && Passes(s.requests[i], Apply(w, s, l).requests[i], l)
  {
    hide RequestOk, RowOk, LateOk, SignatureOk, CallOk, EntryOk, Identity, Passes, Outstanding,
         DoAuthorize, DoReserve, DoProceed, DoEnter, DoReturn, DoComplete, DoSign;
    assert RequestOk(w, s, i);
    match l
    case Authorize(_, _, _, _, _) => PassesAuthorize(w, s, l);
    case Reserve(_, _, _) => PassesReserve(w, s, l);
    case Proceed(_, _, _) => PassesProceed(w, s, l);
    case Enter(_, _, _) => PassesEnter(w, s, l);
    case HandlerReturn(_, _, _, _) => PassesReturn(w, s, l);
    case Complete(_, _, _) => PassesComplete(w, s, l);
    case Sign(_, _) => PassesSign(w, s, l);
    case Crash(_, _) => PassesCrash(s.requests[i], l);
  }

  lemma Arrival(w: World, s: State, l: Label, i: nat)
    requires Enabled(w, s, l) && |s.requests| <= i < |Apply(w, s, l).requests|
    ensures l.Arrive? && i == |s.requests|
    ensures var q := Apply(w, s, l).requests[i];
      && q.cfg == l.cfg && q.raw == l.raw && w.parseAuthorization(l.raw) == Some(q.auth)
      && q.at.Authorizing? && !PastCallback(q) && !PastJournal(q)
  {
    hide Identity, SemanticDigest, FirstResult, Build, Accepts, ValidAuthorization, ValidGrant, SignedBy,
         WellConfigured, Expected, Exposed, Canonical, Signed, GrantActive, Perform, ReserveAnswer, Applies;
  }

  // ---- whole runs ----

  /** What lies behind the present state of a request. */
  ghost predicate Earned(run: seq<Label>, i: nat, q: Request) {
    && (PastCallback(q) ==> WasAllowed(run, i, q.auth))
    && (PastJournal(q) ==> WasActive(run, i, q.auth))
    && (q.entered.Some? ==> WasEntered(run, i))
  }

  lemma EarnedStep(run: seq<Label>, l: Label, i: nat, q: Request, q': Request)
    requires Earned(run, i, q) && ((Concerns(l, i) && Passes(q, q', l)) || q' == q)
    ensures Earned(run + [l], i, q')
  {
    var longer := run + [l];
    assert longer[|run|] == l;
    assert forall k :: 0 <= k < |run| ==> longer[k] == run[k];
  }

  /** In every run, a request is past the callback only if the callback allowed
      it with an active grant, past the journal only if its grant was active
      then, and in the handler only if its context was alive. */
  lemma {:induction false} EveryRequestEarned(w: World, run: seq<Label>, i: nat)
    requires Lawful(w) && After(w, run).Some? && i < |After(w, run).value.requests|
    ensures Earned(run, i, After(w, run).value.requests[i])
    decreases |run|
  {
    hide Lawful, After, Inv, Enabled, Apply, Earned, Passes, Concerns;
    if run == [] {
      NoRequests(w);
    } else {
      var before, l := run[..|run| - 1], run[|run| - 1];
      AfterBefore(w, run);
      EveryRun(w, before);
      var s := After(w, before).value;
      assert run == before + [l];
      if i < |s.requests| {
        EveryRequestEarned(w, before, i);
        if Concerns(l, i) {
          Passing(w, s, l, i);
        } else {
          Unconcerned(w, s, l, i);
        }
        EarnedStep(before, l, i, s.requests[i], After(w, run).value.requests[i]);
      } else {
        Arrival(w, s, l, i);
        NothingEarned(run, i, After(w, run).value.requests[i]);
      }
    }
  }

  lemma NoRequests(w: World)
    ensures After(w, []) == Some(INITIAL) && INITIAL.requests == []
  {
  }

  lemma NothingEarned(run: seq<Label>, i: nat, q: Request)
    requires !PastCallback(q) && !PastJournal(q)
    ensures Earned(run, i, q)
  {
  }

  /** The label and the checks with which request `i` arrived, field by field. */
  ghost predicate ArrivedWith(w: World, s: State, q: Request, l: Label) {
    && l.Arrive? && l.cfg == q.cfg && l.raw == q.raw && w.parseAuthorization(q.raw) == Some(q.auth)
    && l.keyID in q.cfg.trustedKeys && SignedBy(s, q.cfg.trustedKeys[l.keyID], Signed(ForAuthorization, q.raw))
    && q.auth.protocolVersion == 1
    && q.auth.issuer == q.cfg.issuer && q.auth.audience == q.cfg.audience && q.auth.scope == q.cfg.scope
    && q.auth.bindingID == q.cfg.bindingID && q.auth.bindingRevision == q.cfg.bindingRevision
    && q.auth.manifestDigest == q.cfg.manifestDigest
    && 0 < q.auth.issuedAt <= l.now < q.auth.expiresAt <= q.auth.issuedAt + 300
    && q.auth.kind == (if l.challengePath then "challenge" else "invocation")
    && (!l.challengePath ==>
         && q.auth.function_.Some? && q.auth.function_.value in q.cfg.functions
         && q.auth.inputDigest == w.digest(q.auth.input) && w.compact(q.auth.input).Some?)
  }

  lemma ArrivesWith(w: World, s: State, l: Label)
    requires l.Arrive? && Enabled(w, s, l)
    ensures ArrivedWith(w, s, Apply(w, s, l).requests[|s.requests|], l)
  {
    hide WellConfigured, SignedBy, Signed, FirstResult;
  }

  lemma ArrivedKept(w: World, s: State, s': State, q: Request, q': Request, l: Label)
    requires ArrivedWith(w, s, q, l) && s.signatures <= s'.signatures && RequestKept(q, q')
    ensures ArrivedWith(w, s', q', l)
  {
    hide Signed;
  }

  /** Every request of a run arrived with a grant signed by a key its runtime
      trusts, addressed to that runtime and inside its window. */
  lemma {:induction false} EveryRequestArrived(w: World, run: seq<Label>, i: nat) returns (n: nat)
    requires Lawful(w) && After(w, run).Some? && i < |After(w, run).value.requests|
    ensures n < |run| && ArrivedWith(w, After(w, run).value, After(w, run).value.requests[i], run[n])
    decreases |run|
  {
    hide Lawful, After, Inv, Enabled, Apply, ArrivedWith, RequestKept;
    n := 0;
    if run == [] {
      NoRequests(w);
    } else {
      var before, l := run[..|run| - 1], run[|run| - 1];
      AfterBefore(w, run);
      EveryRun(w, before);
      var s, s' := After(w, before).value, After(w, run).value;
      EveryStep(w, s, l);
      if i < |s.requests| {
        n := EveryRequestArrived(w, before, i);
        ArrivedKept(w, s, s', s.requests[i], s'.requests[i], run[n]);
      } else {
        n := |run| - 1;
        Arrival(w, s, l, i);
        ArrivesWith(w, s, l);
        SignaturesGrow(w, s, s', s'.requests[i], l);
      }
    }
  }

  lemma SignaturesGrow(w: World, s: State, s': State, q: Request, l: Label)
    requires ArrivedWith(w, s, q, l) && s.signatures <= s'.signatures
    ensures ArrivedWith(w, s', q, l)
  {
    hide Signed;
  }

  /** No handler is entered on anything less: a trusted signature, an accepted
      and fresh arrival, the callback's consent, and a grant still active after
      reserving and when the handler was called. Holding after every run, it
      holds of the run that ends with the entry, so all of it came before. */
  lemma EntryEarned(w: World, run: seq<Label>, k: nat) returns (n: nat)
    requires Lawful(w) && After(w, run).Some? && k < |After(w, run).value.entries|
    ensures var s := After(w, run).value;
      var e := s.entries[k];
      && e.request < |s.requests| && s.requests[e.request].auth == e.auth && e.auth.kind == "invocation"
      && n < |run| && ArrivedWith(w, s, s.requests[e.request], run[n]) && !run[n].challengePath
      && WasAllowed(run, e.request, e.auth) && WasActive(run, e.request, e.auth) && WasEntered(run, e.request)
  {
    hide Lawful, After, RowOk, LateOk, SignatureOk, CallOk, WasAllowed, WasActive, WasEntered, SignedBy, Signed;
    EveryRun(w, run);
    var s := After(w, run).value;
    var i := s.entries[k].request;
    assert EntryOk(s, k);
    EveryRequestEarned(w, run, i);
    n := EveryRequestArrived(w, run, i);
    OwnsInvocation(w, s, i);
  }

  lemma OwnsInvocation(w: World, s: State, i: nat)
    requires Inv(w, s) && i < |s.requests| && s.requests[i].entered.Some?
    ensures s.requests[i].auth.kind == "invocation"
  {
    hide Identity, SemanticDigest, Genuine, Admitted, AtOk, RowOk, LateOk, SignatureOk, CallOk, EntryOk, Response;
    assert RequestOk(w, s, i);
  }

  /** Likewise no result is signed without the callback's consent, challenges
      included, and none for an invocation whose grant was not active after the
      journal answered. */
  lemma AnswerEarned(w: World, run: seq<Label>, i: nat)
    requires Lawful(w) && After(w, run).Some? && i < |After(w, run).value.requests|
    requires After(w, run).value.requests[i].at == Responded(200)
    ensures var q := After(w, run).value.requests[i];
      && WasAllowed(run, i, q.auth) && (q.auth.kind == "invocation" ==> WasActive(run, i, q.auth))
  {
    hide Lawful, After, WasAllowed, WasActive, WasEntered;
    EveryRequestEarned(w, run, i);
  }

  // ---- answers are final ----

  lemma RespondedStep(w: World, s: State, l: Label, i: nat)
    requires Enabled(w, s, l) && i < |s.requests| && s.requests[i].at.Responded?
    ensures i < |Apply(w, s, l).requests| && Apply(w, s, l).requests[i] == s.requests[i]
  {
    hide Apply, ValidAuthorization, ValidGrant, SignedBy, WellConfigured, Expected, Exposed, Signed;
    Unconcerned(w, s, l, i);
  }

  lemma {:induction false} RespondedStays(w: World, run: seq<Label>, m: nat, i: nat)
    requires m <= |run| && After(w, run).Some? && After(w, run[..m]).Some?
    requires i < |After(w, run[..m]).value.requests| && After(w, run[..m]).value.requests[i].at.Responded?
    ensures i < |After(w, run).value.requests|
    ensures After(w, run).value.requests[i] == After(w, run[..m]).value.requests[i]
    decreases |run|
  {
    hide After, Enabled, Apply;
    if m == |run| {
      assert run[..m] == run;
    } else {
      var before := run[..|run| - 1];
      AfterBefore(w, run);
      assert before[..m] == run[..m];
      RespondedStays(w, before, m, i);
      RespondedStep(w, After(w, before).value, run[|run| - 1], i);
    }
  }

  lemma {:induction false} PrefixRuns(w: World, run: seq<Label>, m: nat)
    requires After(w, run).Some? && m <= |run|
    ensures After(w, run[..m]).Some?
    decreases |run|
  {
    hide Enabled, Apply, After;
    if m == |run| {
      assert run[..m] == run;
    } else {
      AfterBefore(w, run);
      PrefixRuns(w, run[..|run| - 1], m);
      assert run[..|run| - 1][..m] == run[..m];
    }
  }

  /** A request whose callback refused it, could not be reached, or answered too
      late, is answered 401 or 503, and in every continuation of the run it owns
      no row, enters no handler and gets no signature. */
  lemma RefusedForever(w: World, run: seq<Label>, k: nat)
    requires Lawful(w) && After(w, run).Some? && k < |run| && run[k].Authorize? && After(w, run[..k]).Some?
    requires run[k].i < |After(w, run[..k]).value.requests|
    requires run[k].verdict.Allowed? && run[k].live ==>
      run[k].now >= After(w, run[..k]).value.requests[run[k].i].auth.expiresAt
    ensures var s, i := After(w, run).value, run[k].i;
      && i < |s.requests| && s.requests[i].at == Responded(if run[k].verdict.NotAvailable? then 503 else 401)
      && !s.requests[i].owns
      && (forall e :: 0 <= e < |s.entries| ==> s.entries[e].request != i)
      && (forall g :: g in s.signatures && g.ByRuntime? ==> g.request != i)
  {
    hide Lawful, After, Apply, Enabled, RequestOk, RowOk, LateOk, CallOk, Identity;
    var i, m := run[k].i, k + 1;
    PrefixRuns(w, run, m);
    AfterBefore(w, run[..m]);
    assert run[..m][..|run[..m]| - 1] == run[..k];
    EveryRun(w, run[..k]);
    Refusal(w, After(w, run[..k]).value, run[k]);
    RespondedStays(w, run, m, i);
    EveryRun(w, run);
    NothingMade(w, After(w, run).value, i);
  }

  lemma Refusal(w: World, s: State, l: Label)
    requires Inv(w, s) && l.Authorize? && Enabled(w, s, l) && l.i < |s.requests|
    requires l.verdict.Allowed? && l.live ==> l.now >= s.requests[l.i].auth.expiresAt
    ensures l.i < |Apply(w, s, l).requests|
    ensures var q := Apply(w, s, l).requests[l.i];
      q.at == Responded(if l.verdict.NotAvailable? then 503 else 401) && !q.owns && q.entered.None?
  {
    hide Identity, SemanticDigest, Genuine, Admitted, RowOk, LateOk, SignatureOk, CallOk, EntryOk, Response, Blank,
         FirstResult;
    assert RequestOk(w, s, l.i);
  }

  lemma NothingMade(w: World, s: State, i: nat)
    requires Inv(w, s) && i < |s.requests| && s.requests[i].entered.None? && s.requests[i].at != Responded(200)
    ensures forall e :: 0 <= e < |s.entries| ==> s.entries[e].request != i
    ensures forall g :: g in s.signatures && g.ByRuntime? ==> g.request != i
  {
    hide RequestOk, RowOk, LateOk, CallOk, Identity, Signed;
    forall e | 0 <= e < |s.entries| ensures s.entries[e].request != i { assert EntryOk(s, e); }
    forall g | g in s.signatures && g.ByRuntime? ensures g.request != i { assert SignatureOk(w, s, g); }
  }

  // ---- calls ----

  /** The label and the checks with which a caller dispatched a grant. */
  ghost predicate DispatchedWith(w: World, s: State, c: Call, l: Label) {
    && l.Dispatch? && l.options == c.options && l.raw == c.raw && w.parseAuthorization(c.raw) == Some(c.auth)
    && l.keyID in c.options.trustedKeys && SignedBy(s, c.options.trustedKeys[l.keyID], Signed(ForAuthorization, c.raw))
    && c.auth.protocolVersion == 1 && c.auth.kind == "invocation" && c.auth.nonce == ""
    && c.auth.issuer == c.options.issuer && c.auth.audience == c.options.audience && c.auth.scope == c.options.scope
    && c.auth.bindingID == c.options.bindingID && c.auth.bindingRevision == c.options.bindingRevision
    && c.auth.manifestDigest == c.options.manifestDigest
    && 0 < c.auth.issuedAt <= l.now < c.auth.expiresAt <= c.auth.issuedAt + 300
    && c.auth.inputDigest == w.digest(c.auth.input) && w.compact(c.auth.input).Some? && |c.auth.input| <= 0x40_0000
  }

  /** The label and the checks with which a caller's response was accepted. */
  ghost predicate DeliveredWith(w: World, c: Call, l: Label) {
    && l.Deliver? && c.at.Succeeded? && l.keyID == c.options.signingKeyID && l.signature.key == c.options.signingKey
    && l.signature.message == Signed(ForResult, l.raw) && w.parseResult(l.raw) == Some(c.at.result)
    && c.at.result.errorCode == "" && w.compact(c.at.result.output).Some?
    && 0 < c.at.result.completedAt <= l.now + 5
  }

  lemma CallStep(w: World, s: State, l: Label, c: nat)
    requires Enabled(w, s, l) && c < |Apply(w, s, l).calls|
    ensures c >= |s.calls| ==> l.Dispatch? && DispatchedWith(w, s, Apply(w, s, l).calls[c], l)
                               && Apply(w, s, l).calls[c].at.Waiting?
    ensures c < |s.calls| ==>
      && Apply(w, s, l).calls[c] == s.calls[c].(at := Apply(w, s, l).calls[c].at)
      && (Apply(w, s, l).calls[c].at.Succeeded? ==>
           (s.calls[c].at == Apply(w, s, l).calls[c].at) ||
           (l.Deliver? && l.c == c && DeliveredWith(w, Apply(w, s, l).calls[c], l)))
  {
    hide DoAuthorize, DoReserve, DoProceed, DoEnter, DoReturn, DoComplete, DoSign, Outstanding, Perform, NewRequest,
         SignedBy, Signed, WellConfigured, ValidAuthorization, Exposed, Expected, VerifyResult;
    CallsKept(w, s, l);
  }

  /** Steps of requests do not touch calls. */
  lemma CallsKept(w: World, s: State, l: Label)
    requires Enabled(w, s, l)
    ensures !l.Dispatch? && !l.Deliver? && !l.GiveUp? ==> Apply(w, s, l).calls == s.calls
  {
    hide NewRequest, FirstResult, Build, ValidAuthorization, ValidGrant, SignedBy, WellConfigured, Expected, Exposed,
         Canonical, Signed, Perform, ReserveAnswer, Applies, Identity, SemanticDigest, GrantActive, Accepts;
  }

  /** In every run, every call was dispatched with a grant signed by a key its
      caller trusts and addressed to its binding, and every success came from a
      response under the expected key, without an error and in time. */
  lemma {:induction false} EveryCallExplained(w: World, run: seq<Label>, c: nat) returns (d: nat, k: nat)
    requires Lawful(w) && After(w, run).Some? && c < |After(w, run).value.calls|
    ensures d < |run| && DispatchedWith(w, After(w, run).value, After(w, run).value.calls[c], run[d])
    ensures After(w, run).value.calls[c].at.Succeeded? ==>
      k < |run| && run[k].Deliver? && run[k].c == c && DeliveredWith(w, After(w, run).value.calls[c], run[k])
    decreases |run|
  {
    hide Lawful, After, Inv, Enabled, Apply, DispatchedWith, DeliveredWith, RequestKept;
    d, k := 0, 0;
    if run == [] {
      NoCalls(w);
    } else {
      var before, l := run[..|run| - 1], run[|run| - 1];
      AfterBefore(w, run);
      EveryRun(w, before);
      var s, s' := After(w, before).value, After(w, run).value;
      EveryStep(w, s, l);
      CallStep(w, s, l, c);
      if c < |s.calls| {
        d, k := EveryCallExplained(w, before, c);
        DispatchKept(w, s, s', s.calls[c], s'.calls[c], run[d]);
        if s'.calls[c].at != s.calls[c].at {
          k := |run| - 1;
        } else {
          assert s'.calls[c] == s.calls[c];
        }
      } else {
        d := |run| - 1;
        DispatchKept(w, s, s', s'.calls[c], s'.calls[c], l);
      }
    }
  }

  lemma NoCalls(w: World)
    ensures After(w, []) == Some(INITIAL) && INITIAL.calls == []
  {
  }

  lemma DispatchKept(w: World, s: State, s': State, c: Call, c': Call, l: Label)
    requires DispatchedWith(w, s, c, l) && s.signatures <= s'.signatures && c' == c.(at := c'.at)
    ensures DispatchedWith(w, s', c', l)
  {
    hide Signed;
  }
}
